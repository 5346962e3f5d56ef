/** The P² streaming quantile (Jain and Chlamtac, Communications of the ACM, 1985):
    five markers stand for the whole stream. Values are real numbers. */
module P2Quantile {

  // ------------------------------------------------------------ moving one marker

  /** The height predicted for the middle of three markers when it moves by d: `a` and
      `b` are the distances to the outer two, `t` the distance between those. */
  function Parabolic(a: real, b: real, t: real, h0: real, h1: real, h2: real, d: real): real
    requires a > 0.0 && b > 0.0 && t > 0.0
  {
    var e, f, g := d / t, (a + d) * (h2 - h1) / b, (b - d) * (h1 - h0) / a;
    h1 + e * (f + g)
  }

  function Linear(n1: real, nj: real, h1: real, hj: real, d: real): real
    requires n1 != nj
  {
    h1 + d * (hj - h1) / (nj - n1)
  }

  lemma DivMul(x: real, b: real)
    requires b != 0.0
    ensures x / b * b == x
  {
  }

  /** A quotient whose dividend is a known multiple of the divisor. */
  lemma Quotient(f: real, p: real, k: real, y: real, b: real)
    requires b != 0.0 && f * b == p * k && k == y * b
    ensures f == p * y
  {
    assert p * (y * b) == (p * y) * b;
    assert (f - p * y) * b == 0.0;
  }

  lemma Cancel(e: real, x: real, w: real, t: real, d: real)
    requires e * t == d && x == w * t
    ensures e * x == d * w
  {
    assert e * (w * t) == (e * t) * w;
  }

  lemma Blend(a: real, b: real, d: real, s: real, c: real, y: real, z: real)
    requires y == s + c * b && z == s - c * a
    ensures (a + d) * y + (b - d) * z == (s + c * d) * (a + b)
  {
    assert (a + d) * (s + c * b) == a * s + a * c * b + d * s + d * c * b;
    assert (b - d) * (s - c * a) == b * s - b * c * a - d * s + d * c * a;
    assert (s + c * d) * (a + b) == s * a + s * b + c * d * a + c * d * b;
  }

  /** The prediction is the parabola through the three markers: any quadratic that meets
      the outer two, written around the middle one, takes this value d further on. */
  lemma ParabolicInterpolates(a: real, b: real, h0: real, h1: real, h2: real, d: real, s: real, c: real)
    requires a > 0.0 && b > 0.0
    requires h1 - h0 == (s - c * a) * a   // the quadratic h1 + x * (s + c * x) is h0 at x = -a
    requires h2 - h1 == (s + c * b) * b   // and h2 at x = b
    ensures Parabolic(a, b, a + b, h0, h1, h2, d) == h1 + d * (s + c * d)
  {
    Interpolates(a, b, h0, h1, h2, d, s, c, s + c * b, s - c * a, a + b, s + c * d);
  }

  lemma Interpolates(a: real, b: real, h0: real, h1: real, h2: real, d: real, s: real, c: real,
                     y: real, z: real, t: real, w: real)
    requires a > 0.0 && b > 0.0 && t == a + b
    requires y == s + c * b && z == s - c * a && w == s + c * d
    requires h1 - h0 == z * a && h2 - h1 == y * b
    ensures Parabolic(a, b, t, h0, h1, h2, d) == h1 + d * w
  {
    var e, f, g := d / t, (a + d) * (h2 - h1) / b, (b - d) * (h1 - h0) / a;
    DivMul(d, t);
    DivMul((a + d) * (h2 - h1), b);
    DivMul((b - d) * (h1 - h0), a);
    Quotient(f, a + d, h2 - h1, y, b);
    Quotient(g, b - d, h1 - h0, z, a);
    Blend(a, b, d, s, c, y, z);
    Cancel(e, f + g, w, t, d);
  }

  /** The fallback is the line through the marker and its neighbour on the side it moves
      to; a step shorter than the distance stays between their heights. */
  lemma LinearBetween(n1: real, nj: real, h1: real, hj: real, d: real)
    requires (d == 1.0 && nj - n1 > 1.0) || (d == -1.0 && nj - n1 < -1.0)
    ensures var v := Linear(n1, nj, h1, hj, d);
            (h1 <= hj ==> h1 <= v <= hj) && (h1 >= hj ==> hj <= v <= h1)
    ensures (Linear(n1, nj, h1, hj, d) - h1) * (nj - n1) == d * (hj - h1)
  {
    var q, m := d * (hj - h1) / (nj - n1), nj - n1;
    DivMul(d * (hj - h1), m);
    if d == 1.0 {
      assert q * m == hj - h1;
      Fraction(q, m, hj - h1);
    } else {
      assert q * (-m) == hj - h1;
      Fraction(q, -m, hj - h1);
    }
  }

  lemma Fraction(q: real, m: real, diff: real)
    requires m > 1.0 && q * m == diff
    ensures diff >= 0.0 ==> 0.0 <= q <= diff
    ensures diff <= 0.0 ==> diff <= q <= 0.0
  {
    var e := q * (m - 1.0);
    assert e == diff - q;
    Sign(q, m - 1.0);
  }

  lemma Sign(x: real, y: real)
    requires y > 0.0
    ensures x > 0.0 ==> x * y > 0.0
    ensures x < 0.0 ==> x * y < 0.0
    ensures x == 0.0 ==> x * y == 0.0
  {
    if x < 0.0 {
      assert (-x) * y > 0.0;
    }
  }

  // ---------------------------------------------------------------- the markers

  /** Marker positions, desired positions and heights. */
  datatype Markers = Markers(n: seq<real>, npos: seq<real>, h: seq<real>) {
    predicate Five() {
      |n| == 5 && |npos| == 5 && |h| == 5
    }
  }

  /** Every position is a whole number. */
  predicate Whole(m: Markers)
    requires m.Five()
  {
    forall i :: 0 <= i < 5 ==> m.n[i] == m.n[i].Floor as real
  }

  /** Positions are strictly increasing and run from 1 to the number of observations;
      heights never decrease. */
  ghost predicate Ordered(m: Markers, count: nat)
    requires m.Five()
  {
    && m.n[0] == 1.0 && m.n[4] == count as real
    && m.n[0] < m.n[1] < m.n[2] < m.n[3] < m.n[4]
    && m.h[0] <= m.h[1] <= m.h[2] <= m.h[3] <= m.h[4]
  }

  /** The increments of the desired positions for quantile p. */
  function Increments(p: real): seq<real> {
    [0.0, p / 2.0, p, (1.0 + p) / 2.0, 1.0]
  }

  /** Desired positions grow linearly with the number of observations. */
  ghost predicate OnSchedule(npos: seq<real>, p: real, count: nat)
    requires |npos| == 5
  {
    Scheduled(npos, Increments(p), count)
  }

  /** Where a marker with increment d should be after `count` observations. */
  function Position(d: real, count: nat): real {
    1.0 + (count as real - 1.0) * d
  }

  ghost predicate Scheduled(npos: seq<real>, dn: seq<real>, count: nat)
    requires |npos| == |dn|
  {
    forall i :: 0 <= i < |npos| ==> npos[i] == Position(dn[i], count)
  }

  /** What the markers always satisfy, for `count` observations between lo and hi. */
  ghost predicate Good(m: Markers, p: real, count: nat, lo: real, hi: real) {
    m.Five() && Ordered(m, count) && Whole(m) && OnSchedule(m.npos, p, count) && m.h[0] == lo && m.h[4] == hi
  }

  /** The interval x falls into. */
  function Cell(h: seq<real>, x: real): (k: nat)
    requires |h| == 5
    ensures k < 4
  {
    if x < h[0] then 0
    else if x >= h[4] then 3
    else if x < h[1] then 0
    else if x < h[2] then 1
    else if x < h[3] then 2
    else 3
  }

  /** The outer heights take in x. */
  function Widened(h: seq<real>, x: real): (r: seq<real>)
    requires |h| == 5
    ensures |r| == 5
  {
    if x < h[0] then h[0 := x] else if x >= h[4] then h[4 := x] else h
  }

  function MovedHeight(m: Markers, i: nat, d: real): real
    requires m.Five() && 1 <= i <= 3 && m.n[i - 1] < m.n[i] < m.n[i + 1] && (d == 1.0 || d == -1.0)
  {
    var parabolic := Parabolic(m.n[i] - m.n[i - 1], m.n[i + 1] - m.n[i], m.n[i + 1] - m.n[i - 1], m.h[i - 1], m.h[i],
                               m.h[i + 1], d);
    if m.h[i - 1] < parabolic < m.h[i + 1] then parabolic
    else
      var j := if d == 1.0 then i + 1 else i - 1;
      Linear(m.n[i], m.n[j], m.h[i], m.h[j], d)
  }

  function Moved(m: Markers, i: nat, d: real): (r: Markers)
    requires m.Five() && 1 <= i <= 3 && m.n[i - 1] < m.n[i] < m.n[i + 1] && (d == 1.0 || d == -1.0)
    ensures r.Five()
  {
    Markers(m.n[i := m.n[i] + d], m.npos, m.h[i := MovedHeight(m, i, d)])
  }

  /** Marker i moves one step towards its desired position, if it is a whole step away
      and has room. */
  function Adjusted(m: Markers, i: nat): (r: Markers)
    requires m.Five() && 1 <= i <= 3 && m.n[i - 1] < m.n[i] < m.n[i + 1]
    ensures r.Five()
  {
    var diff := m.npos[i] - m.n[i];
    if diff >= 1.0 && m.n[i + 1] - m.n[i] > 1.0 then Moved(m, i, 1.0)
    else if diff <= -1.0 && m.n[i - 1] - m.n[i] < -1.0 then Moved(m, i, -1.0)
    else m
  }

  /** A moved marker stays between its neighbours, in position and in height. */
  lemma MovedBetween(m: Markers, i: nat, d: real)
    requires m.Five() && 1 <= i <= 3 && m.n[i - 1] < m.n[i] < m.n[i + 1] && m.h[i - 1] <= m.h[i] <= m.h[i + 1]
    requires (d == 1.0 && m.n[i + 1] - m.n[i] > 1.0) || (d == -1.0 && m.n[i - 1] - m.n[i] < -1.0)
    ensures var r := Moved(m, i, d); r.n[i - 1] < r.n[i] < r.n[i + 1] && r.h[i - 1] <= r.h[i] <= r.h[i + 1]
  {
    var j := if d == 1.0 then i + 1 else i - 1;
    LinearBetween(m.n[i], m.n[j], m.h[i], m.h[j], d);
  }

  lemma AdjustedOrdered(m: Markers, i: nat, count: nat)
    requires m.Five() && Ordered(m, count) && 1 <= i <= 3
    ensures Ordered(Adjusted(m, i), count)
    ensures Adjusted(m, i).h[0] == m.h[0] && Adjusted(m, i).h[4] == m.h[4] && Adjusted(m, i).npos == m.npos
  {
    var diff := m.npos[i] - m.n[i];
    if diff >= 1.0 && m.n[i + 1] - m.n[i] > 1.0 {
      MovedOrdered(m, i, 1.0, count);
    } else if diff <= -1.0 && m.n[i - 1] - m.n[i] < -1.0 {
      MovedOrdered(m, i, -1.0, count);
    }
  }

  lemma MovedOrdered(m: Markers, i: nat, d: real, count: nat)
    requires m.Five() && Ordered(m, count) && 1 <= i <= 3
    requires (d == 1.0 && m.n[i + 1] - m.n[i] > 1.0) || (d == -1.0 && m.n[i - 1] - m.n[i] < -1.0)
    ensures var r := Moved(m, i, d); Ordered(r, count) && r.h[0] == m.h[0] && r.h[4] == m.h[4]
  {
    MovedBetween(m, i, d);
    ReplacedOrdered(m, i, Moved(m, i, d).n[i], Moved(m, i, d).h[i], count);
  }

  /** Replacing an inner marker by one between its neighbours. */
  lemma ReplacedOrdered(m: Markers, i: nat, n: real, h: real, count: nat)
    requires m.Five() && Ordered(m, count) && 1 <= i <= 3
    requires m.n[i - 1] < n < m.n[i + 1] && m.h[i - 1] <= h <= m.h[i + 1]
    ensures Ordered(Markers(m.n[i := n], m.npos, m.h[i := h]), count)
  {
  }

  lemma StepWhole(x: real)
    requires x == x.Floor as real
    ensures x + 1.0 == (x + 1.0).Floor as real && x - 1.0 == (x - 1.0).Floor as real
  {
    assert x + 1.0 == (x.Floor + 1) as real && x - 1.0 == (x.Floor - 1) as real;
  }

  lemma AdjustedPositions(m: Markers, i: nat)
    requires m.Five() && 1 <= i <= 3 && m.n[i - 1] < m.n[i] < m.n[i + 1]
    ensures Adjusted(m, i).n == m.n || Adjusted(m, i).n == m.n[i := m.n[i] + 1.0]
            || Adjusted(m, i).n == m.n[i := m.n[i] + -1.0]
  {
  }

  lemma AdjustedWhole(m: Markers, i: nat)
    requires m.Five() && 1 <= i <= 3 && m.n[i - 1] < m.n[i] < m.n[i + 1] && Whole(m)
    ensures Whole(Adjusted(m, i))
  {
    AdjustedPositions(m, i);
    StepWhole(m.n[i]);
  }

  /** The markers after one more observation, before any is adjusted. */
  function Shifted(m: Markers, p: real, x: real): (r: Markers)
    requires m.Five()
    ensures r.Five()
  {
    var k := Cell(m.h, x);
    Markers(seq(5, i requires 0 <= i < 5 => if i > k then m.n[i] + 1.0 else m.n[i]),
            seq(5, i requires 0 <= i < 5 => m.npos[i] + Increments(p)[i]),
            Widened(m.h, x))
  }

  /** The interval found holds x once the outer heights have taken it in. */
  lemma CellHolds(h: seq<real>, x: real)
    requires |h| == 5 && h[0] <= h[1] <= h[2] <= h[3] <= h[4]
    ensures var w, k := Widened(h, x), Cell(h, x);
            && w[k] <= x && (x < w[k + 1] || k == 3) && x <= w[4]
            && w[1] == h[1] && w[2] == h[2] && w[3] == h[3]
            && w[0] == (if x < h[0] then x else h[0]) && w[4] == (if x > h[4] then x else h[4])
  {
  }

  /** So the markers that move up by one are the last and the inner ones above x, and every desired
      position grows by its share. */
  lemma ShiftsExactly(m: Markers, p: real, x: real, i: nat)
    requires m.Five() && m.h[0] <= m.h[1] <= m.h[2] <= m.h[3] <= m.h[4] && i < 5
    ensures var r := Shifted(m, p, x);
            && r.n[i] == m.n[i] + (if i == 4 || (i > 0 && x < m.h[i]) then 1.0 else 0.0)
            && r.npos[i] == m.npos[i] + Share(p, i)
  {
    CellHolds(m.h, x);
    assert Shifted(m, p, x).npos[i] == m.npos[i] + Increments(p)[i];
    ShareOf(p, i);
  }

  /** By how much an observation moves the desired position of marker i. */
  function Share(p: real, i: nat): real {
    if i == 0 then 0.0 else if i == 1 then p / 2.0 else if i == 2 then p else if i == 3 then (1.0 + p) / 2.0 else 1.0
  }

  lemma ShareOf(p: real, i: nat)
    requires i < 5
    ensures Increments(p)[i] == Share(p, i)
  {
  }

  /** An inner marker a whole step or more from where it should be moves one step there, exactly if
      that leaves it clear of its neighbour. Its height is then the parabola's prediction if that is
      strictly between the neighbours' heights, and the line's otherwise. Nothing else moves. */
  lemma AdjustedExactly(m: Markers, i: nat)
    requires m.Five() && 1 <= i <= 3 && m.n[i - 1] < m.n[i] < m.n[i + 1]
    ensures var r := Adjusted(m, i);
            var up, down := m.npos[i] >= m.n[i] + 1.0 && m.n[i + 1] > m.n[i] + 1.0,
                            m.npos[i] <= m.n[i] - 1.0 && m.n[i - 1] < m.n[i] - 1.0;
            && r.npos == m.npos && r.n == m.n[i := m.n[i] + if up then 1.0 else if down then -1.0 else 0.0]
            && r.h == m.h[i := if up then Predicted(m, i, 1.0) else if down then Predicted(m, i, -1.0) else m.h[i]]
  {
    assert m.n[i := m.n[i]] == m.n && m.h[i := m.h[i]] == m.h;
  }

  /** The predicted height of inner marker i one step on. */
  function Predicted(m: Markers, i: nat, d: real): real
    requires m.Five() && 1 <= i <= 3 && m.n[i - 1] < m.n[i] < m.n[i + 1]
  {
    var a, b := m.n[i] - m.n[i - 1], m.n[i + 1] - m.n[i];
    var curve := Parabolic(a, b, a + b, m.h[i - 1], m.h[i], m.h[i + 1], d);
    if m.h[i - 1] < curve < m.h[i + 1] then curve
    else if d > 0.0 then Linear(m.n[i], m.n[i + 1], m.h[i], m.h[i + 1], d)
    else Linear(m.n[i], m.n[i - 1], m.h[i], m.h[i - 1], d)
  }

  lemma ShiftedOrdered(m: Markers, p: real, x: real, count: nat)
    requires m.Five() && Ordered(m, count)
    ensures Ordered(Shifted(m, p, x), count + 1)
    ensures Shifted(m, p, x).h[0] == (if x < m.h[0] then x else m.h[0])
    ensures Shifted(m, p, x).h[4] == (if x >= m.h[4] then x else m.h[4])
  {
  }

  lemma ShiftedOnSchedule(m: Markers, p: real, x: real, count: nat)
    requires m.Five() && OnSchedule(m.npos, p, count)
    ensures OnSchedule(Shifted(m, p, x).npos, p, count + 1)
  {
    ScheduledNext(m.npos, Increments(p), count, Shifted(m, p, x).npos);
  }

  lemma ScheduledNext(npos: seq<real>, dn: seq<real>, count: nat, next: seq<real>)
    requires |npos| == |dn| == |next| && Scheduled(npos, dn, count)
    requires forall i :: 0 <= i < |npos| ==> next[i] == npos[i] + dn[i]
    ensures Scheduled(next, dn, count + 1)
  {
    forall i | 0 <= i < |next| ensures next[i] == Position(dn[i], count + 1) {
      assert npos[i] == Position(dn[i], count);
      NextPosition(dn[i], count);
    }
  }

  lemma NextPosition(d: real, count: nat)
    ensures Position(d, count) + d == Position(d, count + 1)
  {
  }

  lemma ShiftedWhole(m: Markers, p: real, x: real)
    requires m.Five() && Whole(m)
    ensures Whole(Shifted(m, p, x))
  {
    forall i | 0 <= i < 5 ensures Shifted(m, p, x).n[i] == Shifted(m, p, x).n[i].Floor as real {
      StepWhole(m.n[i]);
    }
  }

  /** The inner markers below k are adjusted in turn. */
  function AdjustedTo(m: Markers, k: nat, count: nat): (r: Markers)
    requires m.Five() && Ordered(m, count) && 1 <= k <= 4
    ensures r.Five() && Ordered(r, count)
  {
    if k == 1 then m
    else
      var r := AdjustedTo(m, k - 1, count);
      AdjustedOrdered(r, k - 1, count);
      Adjusted(r, k - 1)
  }

  lemma {:induction false} AdjustedToGood(m: Markers, k: nat, p: real, count: nat, lo: real, hi: real)
    requires Good(m, p, count, lo, hi) && 1 <= k <= 4
    ensures Good(AdjustedTo(m, k, count), p, count, lo, hi)
  {
    if k > 1 {
      AdjustedToGood(m, k - 1, p, count, lo, hi);
      var r := AdjustedTo(m, k - 1, count);
      AdjustedOrdered(r, k - 1, count);
      AdjustedWhole(r, k - 1);
    }
  }

  /** The markers after one more observation. */
  function Observed(m: Markers, p: real, x: real, count: nat): (r: Markers)
    requires m.Five() && Ordered(m, count)
    ensures r.Five()
  {
    ShiftedOrdered(m, p, x, count);
    AdjustedTo(Shifted(m, p, x), 4, count + 1)
  }

  // ------------------------------------------------------------------- streams

  function Min(s: seq<real>): real
    requires s != []
  {
    if |s| == 1 then s[0] else var rest := Min(s[..|s| - 1]); if s[|s| - 1] < rest then s[|s| - 1] else rest
  }

  function Max(s: seq<real>): real
    requires s != []
  {
    if |s| == 1 then s[0] else var rest := Max(s[..|s| - 1]); if s[|s| - 1] >= rest then s[|s| - 1] else rest
  }

  lemma {:induction false} MinMaxBound(s: seq<real>, i: nat)
    requires i < |s|
    ensures Min(s) <= s[i] <= Max(s)
  {
    if |s| > 1 && i < |s| - 1 {
      MinMaxBound(s[..|s| - 1], i);
    } else if |s| > 1 {
      MinMaxBound(s[..|s| - 1], 0);
    }
  }

  ghost predicate Sorted(s: seq<real>) {
    forall i, j :: 0 <= i < j < |s| ==> s[i] <= s[j]
  }

  function Inserted(r: seq<real>, x: real): (t: seq<real>)
    ensures multiset(t) == multiset(r) + multiset{x}
  {
    if r == [] || r[|r| - 1] <= x then r + [x]
    else
      assert r == r[..|r| - 1] + [r[|r| - 1]];
      Inserted(r[..|r| - 1], x) + [r[|r| - 1]]
  }

  ghost predicate Below(r: seq<real>, b: real) {
    forall i :: 0 <= i < |r| ==> r[i] <= b
  }

  lemma {:induction false} InsertedBelow(r: seq<real>, x: real, b: real)
    requires Below(r, b) && x <= b
    ensures Below(Inserted(r, x), b)
  {
    if r != [] && r[|r| - 1] > x {
      InsertedBelow(r[..|r| - 1], x, b);
    }
  }

  lemma {:induction false} InsertedSorted(r: seq<real>, x: real)
    requires Sorted(r)
    ensures Sorted(Inserted(r, x))
  {
    if r != [] && r[|r| - 1] > x {
      InsertedSorted(r[..|r| - 1], x);
      InsertedBelow(r[..|r| - 1], x, r[|r| - 1]);
    }
  }

  /** `s` in non-decreasing order. */
  function SortReals(s: seq<real>): (r: seq<real>)
    ensures Sorted(r) && multiset(r) == multiset(s) && |r| == |s|
  {
    if s == [] then [] else
    assert s == s[..|s| - 1] + [s[|s| - 1]];
    var r := SortReals(s[..|s| - 1]);
    InsertedSorted(r, s[|s| - 1]);
    assert |multiset(Inserted(r, s[|s| - 1]))| == |Inserted(r, s[|s| - 1])|;
    Inserted(r, s[|s| - 1])
  }

  lemma SortedEnds(s: seq<real>)
    requires s != []
    ensures var r := SortReals(s); r[0] == Min(s) && r[|r| - 1] == Max(s)
  {
    var r := SortReals(s);
    MinMaxAttained(s);
    assert Min(s) in multiset(r) && Max(s) in multiset(r);
    assert r[0] in multiset(s) && r[|r| - 1] in multiset(s);
    var i :| 0 <= i < |s| && s[i] == r[0];
    MinMaxBound(s, i);
    var j :| 0 <= j < |s| && s[j] == r[|r| - 1];
    MinMaxBound(s, j);
  }

  lemma {:induction false} MinMaxAttained(s: seq<real>)
    requires s != []
    ensures Min(s) in s && Max(s) in s
  {
    if |s| > 1 {
      MinMaxAttained(s[..|s| - 1]);
    }
  }

  // --------------------------------------------------------- the estimator as written

  /** `stream` is the history of observations. */
  class Estimator {
    const p: real
    const n: array<real>
    const npos: array<real>
    const h: array<real>
    var initBuf: seq<real>
    var count: nat
    ghost var stream: seq<real>

    ghost function Now(): Markers
      reads n, npos, h
    {
      Markers(n[..], npos[..], h[..])
    }

    ghost predicate Shape()
    {
      n.Length == 5 && npos.Length == 5 && h.Length == 5 && n != npos && n != h && npos != h && 0.0 <= p <= 1.0
    }

    ghost predicate Valid()
      reads this, n, npos, h
    {
      && Shape() && count == |stream|
      && (if count < 5 then initBuf == stream else |initBuf| == 5 && Now() == MarkersOf(stream, p))
    }

    constructor (p: real)
      requires 0.0 <= p <= 1.0
      ensures Valid() && stream == [] && this.p == p && fresh(n) && fresh(npos) && fresh(h)
    {
      this.p := p;
      n, npos, h := new real[5], new real[5], new real[5];
      initBuf, count, stream := [], 0, [];
    }

    /** Folds one more observation in. */
    method Observe(x: real)
      requires Valid()
      modifies this, n, npos, h
      ensures Valid() && stream == old(stream) + [x]
      ensures old(count) >= 5 ==> Now() == Observed(old(Now()), p, x, old(count))
    {
      ghost var before := stream;
      stream := stream + [x];
      count := count + 1;
      if |initBuf| < 5 {
        initBuf := initBuf + [x];
        if |initBuf| == 5 {
          Seed();
        }
        return;
      }
      assert stream[..|stream| - 1] == before && Tracks(Now(), p, before);
      ShiftedOrdered(Now(), p, x, |before|);
      Shift(x);
      AdjustAll();
    }

    method AdjustAll()
      requires Shape() && Ordered(Now(), count)
      modifies n, h
      ensures Now() == AdjustedTo(old(Now()), 4, count)
    {
      ghost var m := Now();
      for i := 1 to 4
        invariant Now() == AdjustedTo(m, i, count)
      {
        MaybeAdjust(i);
      }
    }

    /** The first five observations become the markers. */
    method Seed()
      requires Shape() && |initBuf| == 5
      modifies this`initBuf, n, npos, h
      ensures |initBuf| == 5 && Now() == Seeded(old(initBuf), p)
    {
      initBuf := SortReals(initBuf);
      Place();
    }

    method Place()
      requires Shape() && |initBuf| == 5
      modifies n, npos, h
      ensures h[..] == initBuf && n[..] == [1.0, 2.0, 3.0, 4.0, 5.0]
      ensures npos[..] == [1.0, 1.0 + 2.0 * p, 1.0 + 4.0 * p, 3.0 + 2.0 * p, 5.0]
    {
      for i := 0 to 5
        invariant forall j :: 0 <= j < i ==> h[j] == initBuf[j] && n[j] == (j + 1) as real
      {
        h[i] := initBuf[i];
        n[i] := (i + 1) as real;
      }
      npos[0], npos[1], npos[2], npos[3], npos[4] := 1.0, 1.0 + 2.0 * p, 1.0 + 4.0 * p, 3.0 + 2.0 * p, 5.0;
    }

    method Shift(x: real)
      requires Shape()
      modifies n, npos, h
      ensures Now() == Shifted(old(Now()), p, x)
    {
      ghost var m := Now();
      var k := FindCell(x);
      for i := k + 1 to 5
        invariant forall j :: 0 <= j < 5 ==> n[j] == if k < j < i then m.n[j] + 1.0 else m.n[j]
        invariant npos[..] == m.npos && h[..] == Widened(m.h, x)
      {
        n[i] := n[i] + 1.0;
      }
      var dn := Increments(p);
      for i := 0 to 5
        invariant forall j :: 0 <= j < 5 ==> npos[j] == if j < i then m.npos[j] + dn[j] else m.npos[j]
        invariant forall j :: 0 <= j < 5 ==> n[j] == if k < j then m.n[j] + 1.0 else m.n[j]
        invariant h[..] == Widened(m.h, x)
      {
        npos[i] := npos[i] + dn[i];
      }
    }

    /** The interval x falls into; the outer heights take in x first. */
    method FindCell(x: real) returns (k: nat)
      requires Shape()
      modifies h
      ensures k == Cell(old(h[..]), x) && h[..] == Widened(old(h[..]), x)
    {
      if x < h[0] {
        h[0] := x;
        return 0;
      }
      if x >= h[4] {
        h[4] := x;
        return 3;
      }
      k := 0;
      while x >= h[k + 1]
        invariant k < 4 && forall j :: 0 < j <= k ==> x >= h[j]
        decreases 4 - k
      {
        k := k + 1;
      }
    }

    method MaybeAdjust(i: nat)
      requires Shape() && 1 <= i <= 3 && n[i - 1] < n[i] < n[i + 1]
      modifies n, h
      ensures Now() == Adjusted(old(Now()), i)
    {
      var diff := npos[i] - n[i];
      if diff >= 1.0 && n[i + 1] - n[i] > 1.0 {
        Move(i, 1.0);
      } else if diff <= -1.0 && n[i - 1] - n[i] < -1.0 {
        Move(i, -1.0);
      }
    }

    method Move(i: nat, d: real)
      requires Shape() && 1 <= i <= 3 && n[i - 1] < n[i] < n[i + 1] && (d == 1.0 || d == -1.0)
      modifies n, h
      ensures Now() == Moved(old(Now()), i, d)
    {
      var parabolic := Parabolic(n[i] - n[i - 1], n[i + 1] - n[i], n[i + 1] - n[i - 1], h[i - 1], h[i], h[i + 1], d);
      if h[i - 1] < parabolic && parabolic < h[i + 1] {
        h[i] := parabolic;
      } else {
        var j := if d == 1.0 then i + 1 else i - 1;
        h[i] := Linear(n[i], n[j], h[i], h[j], d);
      }
      n[i] := n[i] + d;
    }

    /** The estimate: of fewer than five observations the one of the quantile's rank, later the
        height of the marker that should be at the quantile's position. It lies between the least
        and the greatest observation. */
    method Value() returns (v: real)
      requires Valid()
      ensures stream == [] ==> v == 0.0
      ensures 0 < |stream| < 5 ==> IsRanked(stream, Rank(p, |stream|), v)
      ensures |stream| == 5 ==> IsRanked(stream, 2, v)
      ensures |stream| >= 5 ==> v == MarkersOf(stream, p).h[2] && MarkersOf(stream, p).npos[2] == Position(p, |stream|)
      ensures stream != [] ==> Min(stream) <= v <= Max(stream)
    {
      if count == 0 {
        return 0.0;
      }
      if |initBuf| < 5 {
        v := Ranked();
        return;
      }
      MiddleMarker(stream, p);
      if count == 5 {
        MiddleOfFive(stream, p);
      }
      return h[2];
    }

    method Ranked() returns (v: real)
      requires Shape() && 0 < |initBuf| < 5
      ensures IsRanked(initBuf, Rank(p, |initBuf|), v) && Min(initBuf) <= v <= Max(initBuf)
    {
      var sorted := SortReals(initBuf);
      RankInRange(p, |sorted|);
      var idx := Rank(p, |sorted|);
      SortedWithin(initBuf, idx);
      RankIs(initBuf, idx);
      return sorted[idx];
    }
  }

  /** The rank of quantile p among n observations, from 0. */
  function Rank(p: real, n: nat): int
    requires n > 0
  {
    (p * (n - 1) as real).Floor
  }

  /** It is the greatest one that has at most the share p of the others below it. */
  lemma RankInRange(p: real, n: nat)
    requires 0.0 <= p <= 1.0 && n > 0
    ensures 0 <= Rank(p, n) < n && Rank(p, n) as real <= p * (n - 1) as real < (Rank(p, n) + 1) as real
  {
    FloorInRange(p, n - 1);
  }

  lemma RankIs(s: seq<real>, k: nat)
    requires k < |s|
    ensures IsRanked(s, k, SortReals(s)[k])
  {
    var sorted := SortReals(s);
    assert Sorted(sorted) && multiset(sorted) == multiset(s);
  }

  /** v has rank k in s: it is the k-th, from 0, in non-decreasing order. */
  ghost predicate IsRanked(s: seq<real>, k: int, v: real) {
    exists sorted :: Sorted(sorted) && multiset(sorted) == multiset(s) && 0 <= k < |sorted| && v == sorted[k]
  }

  /** The middle marker's desired position is the quantile's. */
  lemma MiddleMarker(s: seq<real>, p: real)
    requires |s| >= 5
    ensures var m := MarkersOf(s, p); m.npos[2] == Position(p, |s|) && Min(s) <= m.h[2] <= Max(s)
  {
    var m := MarkersOf(s, p);
    assert OnSchedule(m.npos, p, |s|) && Increments(p)[2] == p;
  }

  /** It starts as the middle of five. */
  lemma MiddleOfFive(s: seq<real>, p: real)
    requires |s| == 5
    ensures IsRanked(s, 2, MarkersOf(s, p).h[2])
  {
    assert MarkersOf(s, p) == Seeded(s, p);
    RankIs(s, 2);
  }

  lemma SortedWithin(s: seq<real>, i: nat)
    requires i < |s|
    ensures SortReals(s)[i] in s && Min(s) <= SortReals(s)[i] <= Max(s)
  {
    assert SortReals(s)[i] in multiset(SortReals(s));
    var j :| 0 <= j < |s| && s[j] == SortReals(s)[i];
    MinMaxBound(s, j);
  }

  lemma FloorInRange(p: real, n: nat)
    requires 0.0 <= p <= 1.0
    ensures 0 <= (p * n as real).Floor <= n
  {
    assert 0.0 <= p * n as real <= n as real;
  }

  /** What the markers of a stream of five or more observations satisfy. */
  ghost predicate Tracks(m: Markers, p: real, stream: seq<real>) {
    |stream| >= 5 && Good(m, p, |stream|, Min(stream), Max(stream))
  }

  function Seeded(s: seq<real>, p: real): (m: Markers)
    requires |s| == 5
    ensures m.Five()
  {
    Markers([1.0, 2.0, 3.0, 4.0, 5.0], [1.0, 1.0 + 2.0 * p, 1.0 + 4.0 * p, 3.0 + 2.0 * p, 5.0], SortReals(s))
  }

  lemma SeededTracks(s: seq<real>, p: real)
    requires |s| == 5
    ensures Tracks(Seeded(s, p), p, s)
  {
    SortedEnds(s);
    SeededOnSchedule(p);
    SeededWhole();
  }

  lemma SeededOnSchedule(p: real)
    ensures OnSchedule([1.0, 1.0 + 2.0 * p, 1.0 + 4.0 * p, 3.0 + 2.0 * p, 5.0], p, 5)
  {
  }

  lemma SeededWhole()
    ensures forall i :: 0 <= i < 5 ==> [1.0, 2.0, 3.0, 4.0, 5.0][i] == [1.0, 2.0, 3.0, 4.0, 5.0][i].Floor as real
  {
  }

  lemma ObservedTracks(m: Markers, p: real, x: real, stream: seq<real>)
    requires Tracks(m, p, stream)
    ensures Tracks(Observed(m, p, x, |stream|), p, stream + [x])
  {
    var next := stream + [x];
    assert next[..|next| - 1] == stream;
    ShiftedOrdered(m, p, x, |stream|);
    ShiftedOnSchedule(m, p, x, |stream|);
    ShiftedWhole(m, p, x);
    AdjustedToGood(Shifted(m, p, x), 4, p, |next|, Min(next), Max(next));
  }

  /** The markers a stream leads to: those of the first five observations, and from then on one
      observation after the other. */
  ghost function MarkersOf(stream: seq<real>, p: real): (m: Markers)
    requires |stream| >= 5
    ensures Tracks(m, p, stream)
    decreases |stream|
  {
    if |stream| == 5 then
      SeededTracks(stream, p);
      Seeded(stream, p)
    else
      var init, x := stream[..|stream| - 1], stream[|stream| - 1];
      assert stream == init + [x];
      ObservedTracks(MarkersOf(init, p), p, x, init);
      Observed(MarkersOf(init, p), p, x, |init|)
  }

  /** One more observation shifts the markers and then adjusts the three inner ones in turn. */
  lemma ObservedIs(m: Markers, p: real, x: real, count: nat)
    requires m.Five() && Ordered(m, count)
    ensures var a := Shifted(m, p, x);
            && a.n[0] < a.n[1] < a.n[2]
            && var b := Adjusted(a, 1);
            && b.n[1] < b.n[2] < b.n[3]
            && var c := Adjusted(b, 2);
            && c.n[2] < c.n[3] < c.n[4]
            && Observed(m, p, x, count) == Adjusted(c, 3)
  {
    ShiftedOrdered(m, p, x, count);
    var a := Shifted(m, p, x);
    AdjustedOrdered(a, 1, count + 1);
    AdjustedOrdered(Adjusted(a, 1), 2, count + 1);
    assert AdjustedTo(a, 2, count + 1) == Adjusted(a, 1);
    assert AdjustedTo(a, 3, count + 1) == Adjusted(Adjusted(a, 1), 2);
  }
}
