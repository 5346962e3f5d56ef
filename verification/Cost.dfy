/** Path costs with confidence bounds, and the decision to migrate to a candidate. */
module Cost {
  import opened Extended
  import opened Ownership

  datatype Stats = Stats(p50: real, p95: real, loss: real, variance: real, n: nat, confidence: real)

  datatype Weights = Weights(tail: real, loss: real, lossGate: real, maxCapacity: real)

  datatype DecisionWeights = DecisionWeights(z: real, migrationCost: real, safetyMargin: real)

  datatype Candidate = Candidate(egress: Name, segments: seq<Stats>, capacity: real)

  datatype Bound = Bound(point: Ext, lower: Ext, upper: Ext)

  const UNBOUNDED: Bound := Bound(PosInf, PosInf, PosInf)

  // ------------------------------------------------------------------- one segment

  function Clamp(x: real): (r: real)
    ensures 0.0 <= r <= 1.0
  {
    if x < 0.0 then 0.0 else if x > 1.0 then 1.0 else x
  }

  function LossPenalty(f: Functions, p: real, weight: real): Ext {
    if p >= 1.0 then PosInf else Fin(-f.log(1.0 - p) * weight)
  }

  function Latency(s: Stats, w: Weights): real {
    s.p50 + w.tail * (if s.p95 - s.p50 < 0.0 then 0.0 else s.p95 - s.p50)
  }

  function SegmentCost(f: Functions, s: Stats, w: Weights): Ext {
    Fin(Latency(s, w)).Plus(LossPenalty(f, s.loss, w.loss))
  }

  predicate Gate(s: Stats, w: Weights) {
    s.loss >= w.lossGate
  }

  /** What costs need of the logarithm: it is 0 at 1, and rises. */
  ghost predicate LogLaws(f: Functions) {
    f.log(1.0) == 0.0 && forall x, y {:trigger f.log(x), f.log(y)} :: 0.0 < x < y ==> f.log(x) < f.log(y)
  }

  /** A segment without loss and without a tail costs its median. */
  lemma PlainCost(f: Functions, s: Stats, w: Weights)
    requires LogLaws(f) && s.loss == 0.0 && s.p95 <= s.p50
    ensures SegmentCost(f, s, w) == Fin(s.p50)
  {
    assert w.tail * 0.0 == 0.0 && -0.0 * w.loss == 0.0;
  }

  /** A tail costs its weight for every microsecond above the median. */
  lemma TailCost(f: Functions, s: Stats, w: Weights, p95: real)
    requires s.p50 <= s.p95 <= p95 && s.loss < 1.0
    ensures SegmentCost(f, s.(p95 := p95), w).r == SegmentCost(f, s, w).r + w.tail * (p95 - s.p95)
  {
    assert w.tail * (p95 - s.p50) == w.tail * (s.p95 - s.p50) + w.tail * (p95 - s.p95);
  }

  lemma LossierPenalty(f: Functions, p: real, q: real, weight: real)
    requires LogLaws(f) && p < q && weight > 0.0
    ensures p < 1.0 ==> LossPenalty(f, q, weight).Gt(LossPenalty(f, p, weight))
    ensures p >= 1.0 ==> LossPenalty(f, q, weight) == LossPenalty(f, p, weight) == PosInf
  {
    if q < 1.0 {
      var a, b := -f.log(1.0 - p), -f.log(1.0 - q);
      assert f.log(1.0 - q) < f.log(1.0 - p);
      assert (b - a) * weight > 0.0;
      assert b * weight == a * weight + (b - a) * weight;
    }
  }

  /** More loss costs more, and no loss costs nothing. */
  lemma LossCosts(f: Functions, s: Stats, w: Weights, loss: real)
    requires LogLaws(f) && s.loss < loss && w.loss > 0.0
    ensures s.loss < 1.0 ==> SegmentCost(f, s.(loss := loss), w).Gt(SegmentCost(f, s, w))
    ensures s.loss >= 1.0 ==> SegmentCost(f, s.(loss := loss), w) == SegmentCost(f, s, w) == PosInf
    ensures s.loss == 0.0 ==> SegmentCost(f, s, w) == Fin(Latency(s, w))
  {
    LossierPenalty(f, s.loss, loss, w.loss);
    assert -0.0 * w.loss == 0.0;
  }

  /** Never cheaper with a higher median. */
  ghost predicate MedianCosts(f: Functions, w: Weights) {
    forall s: Stats, p50: real | s.p50 <= p50 :: SegmentCost(f, s.(p50 := p50), w).AtLeast(SegmentCost(f, s, w))
  }

  lemma AtMostAll(a: real, d: real)
    requires a <= 1.0 && d >= 0.0
    ensures a * d <= d
  {
    assert (1.0 - a) * d >= 0.0;
  }

  lemma MedianLatency(s: Stats, w: Weights, p50: real)
    requires w.tail <= 1.0 && s.p50 <= p50
    ensures Latency(s, w) <= Latency(s.(p50 := p50), w)
  {
    var was, now := s.p95 - s.p50, s.p95 - p50;
    if now >= 0.0 {
      assert w.tail * was == w.tail * now + w.tail * (p50 - s.p50);
      AtMostAll(w.tail, p50 - s.p50);
    } else if was >= 0.0 {
      AtMostAll(w.tail, was);
    }
  }

  /** A segment with a higher median, and the same 95th percentile, is never the cheaper one exactly
      when the tail is weighted by at most 1. */
  lemma MedianCostsExactly(f: Functions, w: Weights)
    requires LogLaws(f)
    ensures MedianCosts(f, w) <==> w.tail <= 1.0
  {
    if w.tail <= 1.0 {
      forall s: Stats, p50: real | s.p50 <= p50
        ensures SegmentCost(f, s.(p50 := p50), w).AtLeast(SegmentCost(f, s, w))
      {
        MedianLatency(s, w, p50);
      }
    } else {
      var s := Stats(0.0, 1.0, 0.0, 0.0, 1, 1.0);
      PlainCost(f, s.(p50 := 1.0), w);
      assert -0.0 * w.loss == 0.0;
      assert SegmentCost(f, s, w) == Fin(w.tail);
      assert !SegmentCost(f, s.(p50 := 1.0), w).AtLeast(SegmentCost(f, s, w));
    }
  }

  function LatencySpread(f: Functions, s: Stats, w: Weights, z: real): Ext
    requires s.n > 0 && f.sqrt(s.confidence) > 0.0
  {
    Fin(z).Times(Divided(Root(f, Fin(s.variance / s.n as real)), f.sqrt(s.confidence))).Times(Fin(1.0 + w.tail))
  }

  /** The standard error of the loss rate. */
  function LossError(f: Functions, s: Stats): real
    requires s.n > 0 && f.sqrt(s.confidence) > 0.0
  {
    var p := Clamp(s.loss);
    f.sqrt(p * (1.0 - p) / s.n as real) / f.sqrt(s.confidence)
  }

  /** The loss rate may be this low, or this high. */
  function LowLoss(f: Functions, s: Stats, z: real): real
    requires s.n > 0 && f.sqrt(s.confidence) > 0.0
  {
    Clamp(Clamp(s.loss) - z * LossError(f, s))
  }

  function HighLoss(f: Functions, s: Stats, z: real): real
    requires s.n > 0 && f.sqrt(s.confidence) > 0.0
  {
    Clamp(Clamp(s.loss) + z * LossError(f, s))
  }

  /** Bounds around a cost, which they never leave out. */
  function Around(point: Ext, latency: real, spread: Ext, low: Ext, high: Ext): Bound {
    var lower, upper := Fin(latency).Minus(spread).Plus(low), Fin(latency).Plus(spread).Plus(high);
    Bound(point, if lower.Gt(point) then point else lower, if point.Gt(upper) then point else upper)
  }

  function SegmentBound(f: Functions, s: Stats, w: Weights, z: real): Bound
    requires Lawful(f)
  {
    var point := SegmentCost(f, s, w);
    if s.n == 0 || s.confidence <= 0.0 then Bound(point, NegInf, PosInf)
    else Around(point, Latency(s, w), LatencySpread(f, s, w, z),
                LossPenalty(f, LowLoss(f, s, z), w.loss), LossPenalty(f, HighLoss(f, s, z), w.loss))
  }

  /** What can be said of a segment's bounds. */
  datatype Kind = Sound | Untrusted | Broken

  function KindOf(f: Functions, s: Stats, z: real): Kind
    requires Lawful(f)
  {
    if s.n == 0 || s.confidence <= 0.0 then Untrusted
    else if s.variance < 0.0 then Broken
    else if HighLoss(f, s, z) >= 1.0 then Untrusted
    else Sound
  }

  predicate Enclosed(b: Bound) {
    b.point.Fin? && b.lower.Fin? && b.upper.Fin? && b.lower.r <= b.point.r <= b.upper.r
  }

  lemma CertainLoss(f: Functions, s: Stats, z: real)
    requires Lawful(f) && s.n > 0 && s.confidence > 0.0 && s.loss >= 1.0
    ensures HighLoss(f, s, z) == 1.0
  {
    assert 1.0 * (1.0 - 1.0) / s.n as real == 0.0;
    assert 0.0 / f.sqrt(s.confidence) == 0.0;
    assert z * 0.0 == 0.0;
  }

  lemma SpreadKind(f: Functions, s: Stats, w: Weights, z: real)
    requires Lawful(f) && s.n > 0 && s.confidence > 0.0
    ensures s.variance < 0.0 ==> LatencySpread(f, s, w, z).NaN?
    ensures s.variance >= 0.0 ==> LatencySpread(f, s, w, z).Fin?
  {
    QuotientSign(s.variance, s.n as real);
  }

  lemma QuotientSign(x: real, d: real)
    requires d > 0.0
    ensures x < 0.0 <==> x / d < 0.0
  {
  }

  /** A segment's bounds are finite and enclose its cost, or have an infinite end, or are
      both not a number. */
  lemma SegmentKinds(f: Functions, s: Stats, w: Weights, z: real)
    requires Lawful(f)
    ensures var b := SegmentBound(f, s, w, z);
            match KindOf(f, s, z)
            case Sound => Enclosed(b)
            case Untrusted => b.lower.NegInf? || b.upper.PosInf?
            case Broken => b.lower.NaN? && b.upper.NaN?
    ensures var point := SegmentBound(f, s, w, z).point; point.Fin? || point.PosInf?
  {
    if s.n > 0 && s.confidence > 0.0 {
      SpreadKind(f, s, w, z);
      if s.loss >= 1.0 {
        CertainLoss(f, s, z);
      }
    }
  }

  lemma Positive(x: real, y: real)
    requires x > 0.0 && y > 0.0
    ensures x * y > 0.0 && x / y > 0.0
  {
  }

  lemma SpreadPositive(f: Functions, s: Stats, w: Weights, z: real)
    requires Lawful(f) && s.n > 0 && s.confidence > 0.0 && s.variance > 0.0 && z > 0.0 && w.tail >= 0.0
    ensures var spread := LatencySpread(f, s, w, z); spread.Fin? && spread.r > 0.0
  {
    Positive(s.variance, s.n as real);
    var root := f.sqrt(s.variance / s.n as real);
    Positive(root, f.sqrt(s.confidence));
    Positive(z, root / f.sqrt(s.confidence));
    Positive(z * (root / f.sqrt(s.confidence)), 1.0 + w.tail);
  }

  lemma LossErrorPositive(f: Functions, s: Stats)
    requires Lawful(f) && s.n > 0 && s.confidence > 0.0 && 0.0 <= s.loss <= 1.0
    ensures LossError(f, s) >= 0.0
  {
    var q := s.loss * (1.0 - s.loss) / s.n as real;
    if 0.0 < s.loss < 1.0 {
      Positive(s.loss, 1.0 - s.loss);
      Positive(s.loss * (1.0 - s.loss), s.n as real);
      Positive(f.sqrt(q), f.sqrt(s.confidence));
    } else {
      assert s.loss * (1.0 - s.loss) == 0.0 && 0.0 / s.n as real == 0.0;
      assert 0.0 / f.sqrt(s.confidence) == 0.0;
    }
  }

  lemma PenaltyRises(f: Functions, p: real, q: real, weight: real)
    requires LogLaws(f) && p <= q < 1.0 && weight >= 0.0
    ensures LossPenalty(f, p, weight).r <= LossPenalty(f, q, weight).r
  {
    if p < q && weight > 0.0 {
      LossierPenalty(f, p, q, weight);
    }
  }

  /** Where latencies vary, sound bounds leave room on both sides of the cost. */
  lemma UncertaintyShows(f: Functions, s: Stats, w: Weights, z: real)
    requires Lawful(f) && LogLaws(f) && KindOf(f, s, z) == Sound
    requires s.variance > 0.0 && 0.0 <= s.loss <= 1.0 && z > 0.0 && w.tail >= 0.0 && w.loss >= 0.0
    ensures var b := SegmentBound(f, s, w, z); b.lower.Fin? && b.upper.Fin? && b.lower.r < b.point.r < b.upper.r
  {
    SpreadPositive(f, s, w, z);
    LossWithin(f, s, z);
    PenaltyRises(f, LowLoss(f, s, z), s.loss, w.loss);
    PenaltyRises(f, s.loss, HighLoss(f, s, z), w.loss);
    Room(Latency(s, w), LatencySpread(f, s, w, z).r, LossPenalty(f, LowLoss(f, s, z), w.loss).r,
         LossPenalty(f, s.loss, w.loss).r, LossPenalty(f, HighLoss(f, s, z), w.loss).r);
  }

  lemma LossWithin(f: Functions, s: Stats, z: real)
    requires Lawful(f) && s.n > 0 && s.confidence > 0.0 && 0.0 <= s.loss <= 1.0 && z >= 0.0
    ensures LowLoss(f, s, z) <= s.loss <= HighLoss(f, s, z)
  {
    LossErrorPositive(f, s);
    Nonnegative(z, LossError(f, s));
  }

  lemma Nonnegative(x: real, y: real)
    requires x >= 0.0 && y >= 0.0
    ensures x * y >= 0.0
  {
  }

  lemma Room(latency: real, spread: real, low: real, penalty: real, high: real)
    requires spread > 0.0 && low <= penalty <= high
    ensures var b := Around(Fin(latency).Plus(Fin(penalty)), latency, Fin(spread), Fin(low), Fin(high));
            b == Bound(Fin(latency + penalty), Fin(latency - spread + low), Fin(latency + spread + high))
            && b.lower.r < b.point.r < b.upper.r
  {
  }

  // ------------------------------------------------------------------- whole paths

  datatype Totals = Totals(point: Ext, upperSq: Ext, lowerSq: Ext, untrusted: bool)

  function Added(t: Totals, b: Bound): Totals {
    if b.lower.NegInf? || b.upper.PosInf? then Totals(t.point.Plus(b.point), t.upperSq, t.lowerSq, true)
    else
      var up, down := b.upper.Minus(b.point), b.point.Minus(b.lower);
      Totals(t.point.Plus(b.point), t.upperSq.Plus(up.Times(up)), t.lowerSq.Plus(down.Times(down)), t.untrusted)
  }

  function TotalsOf(f: Functions, segs: seq<Stats>, w: Weights, z: real): Totals
    requires Lawful(f)
  {
    if segs == [] then Totals(Fin(0.0), Fin(0.0), Fin(0.0), false)
    else Added(TotalsOf(f, segs[..|segs| - 1], w, z), SegmentBound(f, segs[|segs| - 1], w, z))
  }

  function Combined(f: Functions, t: Totals): Bound {
    if t.untrusted then Bound(t.point, NegInf, PosInf)
    else Bound(t.point, t.point.Minus(Root(f, t.lowerSq)), t.point.Plus(Root(f, t.upperSq)))
  }

  ghost predicate All(f: Functions, segs: seq<Stats>, z: real, kind: Kind)
    requires Lawful(f)
  {
    forall i :: 0 <= i < |segs| ==> KindOf(f, segs[i], z) == kind
  }

  ghost predicate Any(f: Functions, segs: seq<Stats>, z: real, kind: Kind)
    requires Lawful(f)
  {
    exists i :: 0 <= i < |segs| && KindOf(f, segs[i], z) == kind
  }

  /** Running totals: finite, with sums of squares, while every segment is sound. */
  ghost predicate Accumulated(t: Totals, untrusted: bool, broken: bool) {
    && t.untrusted == untrusted
    && (t.point.Fin? || t.point.PosInf?)
    && (broken ==> t.upperSq.NaN? && t.lowerSq.NaN?)
    && (!broken ==> t.upperSq.Fin? && t.upperSq.r >= 0.0 && t.lowerSq.Fin? && t.lowerSq.r >= 0.0)
    && (!broken && !untrusted ==> t.point.Fin?)
  }

  lemma Square(x: real)
    ensures x * x >= 0.0
  {
  }

  lemma AddedSound(t: Totals, b: Bound, untrusted: bool, broken: bool)
    requires Accumulated(t, untrusted, broken) && Enclosed(b)
    ensures Accumulated(Added(t, b), untrusted, broken)
  {
    Square(b.upper.r - b.point.r);
    Square(b.point.r - b.lower.r);
  }

  lemma AddedUnsound(t: Totals, b: Bound, untrusted: bool, broken: bool)
    requires Accumulated(t, untrusted, broken) && (b.point.Fin? || b.point.PosInf?)
    ensures b.lower.NegInf? || b.upper.PosInf? ==> Accumulated(Added(t, b), true, broken)
    ensures b.lower.NaN? && b.upper.NaN? ==> Accumulated(Added(t, b), untrusted, true)
  {
  }

  lemma {:induction false} TotalsKinds(f: Functions, segs: seq<Stats>, w: Weights, z: real)
    requires Lawful(f)
    ensures Accumulated(TotalsOf(f, segs, w, z), Any(f, segs, z, Untrusted), Any(f, segs, z, Broken))
  {
    if segs != [] {
      var init, last := segs[..|segs| - 1], segs[|segs| - 1];
      var t, b := TotalsOf(f, init, w, z), SegmentBound(f, last, w, z);
      TotalsKinds(f, init, w, z);
      SegmentKinds(f, last, w, z);
      var untrusted, broken := Any(f, init, z, Untrusted), Any(f, init, z, Broken);
      AnyLast(f, segs, z, Untrusted);
      AnyLast(f, segs, z, Broken);
      match KindOf(f, last, z)
      case Sound => AddedSound(t, b, untrusted, broken);
      case Untrusted => AddedUnsound(t, b, untrusted, broken);
      case Broken => AddedUnsound(t, b, untrusted, broken);
    }
  }

  lemma AnyLast(f: Functions, segs: seq<Stats>, z: real, kind: Kind)
    requires Lawful(f) && segs != []
    ensures Any(f, segs, z, kind) <==> Any(f, segs[..|segs| - 1], z, kind) || KindOf(f, segs[|segs| - 1], z) == kind
  {
    if Any(f, segs[..|segs| - 1], z, kind) {
      var i :| 0 <= i < |segs| - 1 && KindOf(f, segs[..|segs| - 1][i], z) == kind;
      assert KindOf(f, segs[i], z) == kind;
    }
    if Any(f, segs, z, kind) && KindOf(f, segs[|segs| - 1], z) != kind {
      var i :| 0 <= i < |segs| && KindOf(f, segs[i], z) == kind;
      assert KindOf(f, segs[..|segs| - 1][i], z) == kind;
    }
  }

  /** A path's bounds are unbounded if some segment's are, else not a number if some
      segment's are, else finite and enclosing the path's cost. */
  lemma PathKinds(f: Functions, segs: seq<Stats>, w: Weights, z: real)
    requires Lawful(f)
    ensures var b := Combined(f, TotalsOf(f, segs, w, z));
            && (Any(f, segs, z, Untrusted) ==> b.lower.NegInf? && b.upper.PosInf?)
            && (!Any(f, segs, z, Untrusted) && Any(f, segs, z, Broken) ==> b.lower.NaN? && b.upper.NaN?)
            && (All(f, segs, z, Sound) ==> Enclosed(b))
  {
    TotalsKinds(f, segs, w, z);
    CombinedKinds(f, TotalsOf(f, segs, w, z), Any(f, segs, z, Untrusted), Any(f, segs, z, Broken));
  }

  lemma CombinedKinds(f: Functions, t: Totals, untrusted: bool, broken: bool)
    requires Lawful(f) && Accumulated(t, untrusted, broken)
    ensures var b := Combined(f, t);
            && (untrusted ==> b.lower.NegInf? && b.upper.PosInf?)
            && (!untrusted && broken ==> b.lower.NaN? && b.upper.NaN?)
            && (!untrusted && !broken ==> Enclosed(b))
  {
    if !broken {
      assert f.sqrt(t.lowerSq.r) >= 0.0 && f.sqrt(t.upperSq.r) >= 0.0;
    }
  }

  method AggregateBounds(f: Functions, segs: seq<Stats>, w: Weights, z: real) returns (b: Bound)
    requires Lawful(f)
    ensures b == Combined(f, TotalsOf(f, segs, w, z))
  {
    var point, upperSq, lowerSq, untrusted := Fin(0.0), Fin(0.0), Fin(0.0), false;
    for i := 0 to |segs|
      invariant Totals(point, upperSq, lowerSq, untrusted) == TotalsOf(f, segs[..i], w, z)
    {
      assert segs[..i + 1][..i] == segs[..i];
      var s := SegmentBound(f, segs[i], w, z);
      point := point.Plus(s.point);
      if s.lower.NegInf? || s.upper.PosInf? {
        untrusted := true;
        continue;
      }
      upperSq := upperSq.Plus(s.upper.Minus(s.point).Times(s.upper.Minus(s.point)));
      lowerSq := lowerSq.Plus(s.point.Minus(s.lower).Times(s.point.Minus(s.lower)));
    }
    assert segs[..|segs|] == segs;
    return Combined(f, Totals(point, upperSq, lowerSq, untrusted));
  }

  // ------------------------------------------------------------------- comparing paths

  datatype GateReason = GateNone | GateLoss | GateCapacity

  datatype Score = Score(cost: Ext, gate: GateReason, segment: int)

  ghost predicate Gated(segs: seq<Stats>, w: Weights) {
    exists i :: 0 <= i < |segs| && Gate(segs[i], w)
  }

  function SumCost(f: Functions, segs: seq<Stats>, w: Weights): (c: Ext)
    ensures c.Fin? || c.PosInf?
  {
    if segs == [] then Fin(0.0)
    else SumCost(f, segs[..|segs| - 1], w).Plus(SegmentCost(f, segs[|segs| - 1], w))
  }

  /** The cost of segments, infinite when one is gated. */
  ghost function GatedCost(f: Functions, segs: seq<Stats>, w: Weights): (c: Ext)
    ensures c.Fin? || c.PosInf?
  {
    if Gated(segs, w) then PosInf else SumCost(f, segs, w)
  }

  /** A path over capacity or with a gated segment costs infinitely much; the gate reported is
      the capacity's, else the first gated segment's. */
  method ScorePath(f: Functions, c: Candidate, w: Weights) returns (s: Score)
    ensures s.gate.GateCapacity? <==> c.capacity >= w.maxCapacity
    ensures s.gate.GateLoss? <==> c.capacity < w.maxCapacity && Gated(c.segments, w)
    ensures s.gate.GateLoss? ==>
              0 <= s.segment < |c.segments| && Gate(c.segments[s.segment], w) && !Gated(c.segments[..s.segment], w)
    ensures !s.gate.GateLoss? ==> s.segment == -1
    ensures s.cost == if s.gate.GateCapacity? then PosInf else GatedCost(f, c.segments, w)
  {
    if c.capacity >= w.maxCapacity {
      return Score(PosInf, GateCapacity, -1);
    }
    var total := Fin(0.0);
    for i := 0 to |c.segments|
      invariant !Gated(c.segments[..i], w) && total == SumCost(f, c.segments[..i], w)
    {
      if c.segments[i].loss >= w.lossGate {
        return Score(PosInf, GateLoss, i);
      }
      assert c.segments[..i + 1][..i] == c.segments[..i];
      total := total.Plus(SegmentCost(f, c.segments[i], w));
    }
    assert c.segments[..|c.segments|] == c.segments;
    return Score(total, GateNone, -1);
  }

  method SegmentsGated(segs: seq<Stats>, w: Weights) returns (gated: bool)
    ensures gated <==> Gated(segs, w)
  {
    for i := 0 to |segs|
      invariant forall j :: 0 <= j < i ==> !Gate(segs[j], w)
    {
      if segs[i].loss >= w.lossGate {
        return true;
      }
    }
    return false;
  }

  method DifferingCost(f: Functions, segs: seq<Stats>, w: Weights) returns (c: Ext)
    ensures c == GatedCost(f, segs, w)
  {
    c := Fin(0.0);
    for i := 0 to |segs|
      invariant !Gated(segs[..i], w) && c == SumCost(f, segs[..i], w)
    {
      if segs[i].loss >= w.lossGate {
        return PosInf;
      }
      assert segs[..i + 1][..i] == segs[..i];
      c := c.Plus(SegmentCost(f, segs[i], w));
    }
    assert segs[..|segs|] == segs;
  }

  datatype Invalid = OtherEgress | NegativeSuffix | SuffixTooLong | SuffixGated | OverCapacity

  datatype Result<T> = Ok(value: T) | Err(error: Invalid)

  ghost function Differing(a: Candidate, b: Candidate, suffix: int, w: Weights): Result<(seq<Stats>, seq<Stats>)> {
    if a.egress != b.egress then Err(OtherEgress)
    else if suffix < 0 then Err(NegativeSuffix)
    else if suffix > |a.segments| || suffix > |b.segments| then Err(SuffixTooLong)
    else if Gated(a.segments[|a.segments| - suffix..], w) then Err(SuffixGated)
    else if a.capacity >= w.maxCapacity || b.capacity >= w.maxCapacity then Err(OverCapacity)
    else Ok((a.segments[..|a.segments| - suffix], b.segments[..|b.segments| - suffix]))
  }

  method ValidateDifferential(a: Candidate, b: Candidate, suffix: int, w: Weights)
    returns (r: Result<(seq<Stats>, seq<Stats>)>)
    ensures r == Differing(a, b, suffix, w)
  {
    if a.egress != b.egress {
      return Err(OtherEgress);
    }
    if suffix < 0 {
      return Err(NegativeSuffix);
    }
    if suffix > |a.segments| || suffix > |b.segments| {
      return Err(SuffixTooLong);
    }
    var gated := SegmentsGated(a.segments[|a.segments| - suffix..], w);
    if gated {
      return Err(SuffixGated);
    }
    if a.capacity >= w.maxCapacity || b.capacity >= w.maxCapacity {
      return Err(OverCapacity);
    }
    return Ok((a.segments[..|a.segments| - suffix], b.segments[..|b.segments| - suffix]));
  }

  method PathDifferential(f: Functions, a: Candidate, b: Candidate, suffix: int, w: Weights) returns (r: Result<Ext>)
    ensures match Differing(a, b, suffix, w)
            case Err(e) => r == Err(e)
            case Ok((da, db)) => r == Ok(GatedCost(f, da, w).Minus(GatedCost(f, db, w)))
  {
    var d := ValidateDifferential(a, b, suffix, w);
    if d.Err? {
      return Err(d.error);
    }
    var ca := DifferingCost(f, d.value.0, w);
    var cb := DifferingCost(f, d.value.1, w);
    return Ok(ca.Minus(cb));
  }

  lemma {:induction false} SumSplit(f: Functions, a: seq<Stats>, b: seq<Stats>, w: Weights)
    ensures SumCost(f, a + b, w) == SumCost(f, a, w).Plus(SumCost(f, b, w))
  {
    if b == [] {
      assert a + b == a;
    } else {
      var init := b[..|b| - 1];
      assert (a + b)[..|a + b| - 1] == a + init;
      SumSplit(f, a, init, w);
    }
  }

  lemma GatedConcat(a: seq<Stats>, b: seq<Stats>, w: Weights)
    ensures Gated(a + b, w) <==> Gated(a, w) || Gated(b, w)
  {
    if Gated(a, w) {
      var i :| 0 <= i < |a| && Gate(a[i], w);
      assert Gate((a + b)[i], w);
    }
    if Gated(b, w) {
      var i :| 0 <= i < |b| && Gate(b[i], w);
      assert Gate((a + b)[|a| + i], w);
    }
  }

  lemma GatedSplit(f: Functions, a: seq<Stats>, b: seq<Stats>, w: Weights)
    requires !Gated(b, w)
    ensures GatedCost(f, a + b, w) == GatedCost(f, a, w).Plus(SumCost(f, b, w))
  {
    SumSplit(f, a, b, w);
    GatedConcat(a, b, w);
  }

  /** Leaving a shared suffix out of the comparison changes nothing, exactly when the suffix
      costs finitely much (or both of what is left cost infinitely much, and there is no
      difference to speak of either way). */
  lemma SuffixCancelsExactly(f: Functions, a: Candidate, b: Candidate, suffix: nat, w: Weights)
    requires Differing(a, b, suffix, w).Ok?
    requires a.segments[|a.segments| - suffix..] == b.segments[|b.segments| - suffix..]
    ensures var d := Differing(a, b, suffix, w).value;
            var ca, cb := GatedCost(f, d.0, w), GatedCost(f, d.1, w);
            GatedCost(f, a.segments, w).Minus(GatedCost(f, b.segments, w)) == ca.Minus(cb)
            <==> SumCost(f, a.segments[|a.segments| - suffix..], w).Fin? || (ca.PosInf? && cb.PosInf?)
  {
    var d := Differing(a, b, suffix, w).value;
    var shared := a.segments[|a.segments| - suffix..];
    assert a.segments == d.0 + shared && b.segments == d.1 + shared;
    GatedSplit(f, d.0, shared, w);
    GatedSplit(f, d.1, shared, w);
    AddendCancels(GatedCost(f, d.0, w), GatedCost(f, d.1, w), SumCost(f, shared, w));
  }

  lemma AddendCancels(x: Ext, y: Ext, c: Ext)
    requires (x.Fin? || x.PosInf?) && (y.Fin? || y.PosInf?) && (c.Fin? || c.PosInf?)
    ensures x.Plus(c).Minus(y.Plus(c)) == x.Minus(y) <==> c.Fin? || (x.PosInf? && y.PosInf?)
  {
  }

  // ------------------------------------------------------------------- the decision

  datatype Decision = Decision(migrate: bool, delta: Bound, threshold: real)

  ghost function PathBound(f: Functions, segs: seq<Stats>, w: Weights, z: real): Bound
    requires Lawful(f)
  {
    if Gated(segs, w) then UNBOUNDED else Combined(f, TotalsOf(f, segs, w, z))
  }

  function Delta(a: Bound, b: Bound): Bound {
    Bound(a.point.Minus(b.point), a.lower.Minus(b.upper), a.upper.Minus(b.lower))
  }

  method DecideMigration(f: Functions, current: Candidate, candidate: Candidate, suffix: int, w: Weights,
                         dw: DecisionWeights)
    returns (r: Result<Decision>)
    requires Lawful(f)
    ensures match Differing(current, candidate, suffix, w)
            case Err(e) => r == Err(e)
            case Ok((da, db)) =>
              && r.Ok? && r.value.threshold == dw.migrationCost + dw.safetyMargin
              && r.value.delta == Delta(PathBound(f, da, w, dw.z), PathBound(f, db, w, dw.z))
              && r.value.migrate == r.value.delta.lower.Gt(Fin(r.value.threshold))
  {
    var d := ValidateDifferential(current, candidate, suffix, w);
    if d.Err? {
      return Err(d.error);
    }
    var a := AggregateBounds(f, d.value.0, w, dw.z);
    var b := AggregateBounds(f, d.value.1, w, dw.z);
    var gatedA := SegmentsGated(d.value.0, w);
    if gatedA {
      a := Bound(PosInf, PosInf, PosInf);
    }
    var gatedB := SegmentsGated(d.value.1, w);
    if gatedB {
      b := Bound(PosInf, PosInf, PosInf);
    }
    var threshold := dw.migrationCost + dw.safetyMargin;
    var delta := Bound(a.point.Minus(b.point), a.lower.Minus(b.upper), a.upper.Minus(b.lower));
    return Ok(Decision(delta.lower.Gt(Fin(threshold)), delta, threshold));
  }

  /** A path with nothing gated, and every segment measured well enough to bound it. */
  ghost predicate Measured(f: Functions, segs: seq<Stats>, w: Weights, z: real)
    requires Lawful(f)
  {
    !Gated(segs, w) && All(f, segs, z, Sound)
  }

  /** Worse by more than the threshold even at the pessimistic ends of finite bounds. */
  predicate SurelyWorse(a: Bound, b: Bound, threshold: real) {
    a.lower.Fin? && b.upper.Fin? && a.lower.r - b.upper.r > threshold
  }

  /** The ways the bounds of an ungated path that is not measured can be. */
  predicate Unknown(b: Bound) {
    (b.lower.NegInf? && b.upper.PosInf?) || (b.lower.NaN? && b.upper.NaN?)
  }

  lemma BoundKinds(f: Functions, segs: seq<Stats>, w: Weights, z: real)
    requires Lawful(f)
    ensures var b := PathBound(f, segs, w, z);
            if Gated(segs, w) then b == UNBOUNDED else if All(f, segs, z, Sound) then Enclosed(b) else Unknown(b)
  {
    PathKinds(f, segs, w, z);
    SomeKind(f, segs, z);
  }

  lemma SomeKind(f: Functions, segs: seq<Stats>, z: real)
    requires Lawful(f)
    ensures All(f, segs, z, Sound) || Any(f, segs, z, Untrusted) || Any(f, segs, z, Broken)
  {
    if !All(f, segs, z, Sound) {
      var i :| 0 <= i < |segs| && KindOf(f, segs[i], z) != Sound;
      assert KindOf(f, segs[i], z) == Untrusted || KindOf(f, segs[i], z) == Broken;
    }
  }

  /** A migration is approved exactly when the candidate is ungated and measured, and the
      current path is either gated, or measured and surely worse. */
  lemma ApprovedExactly(f: Functions, da: seq<Stats>, db: seq<Stats>, w: Weights, z: real, threshold: real)
    requires Lawful(f)
    ensures var a, b := PathBound(f, da, w, z), PathBound(f, db, w, z);
            Delta(a, b).lower.Gt(Fin(threshold)) <==>
            Measured(f, db, w, z) && (Gated(da, w) || (Measured(f, da, w, z) && SurelyWorse(a, b, threshold)))
  {
    BoundKinds(f, da, w, z);
    BoundKinds(f, db, w, z);
    DeltaKinds(PathBound(f, da, w, z), PathBound(f, db, w, z), threshold);
  }

  lemma DeltaKinds(a: Bound, b: Bound, threshold: real)
    requires (a == UNBOUNDED || Enclosed(a) || Unknown(a)) && (b == UNBOUNDED || Enclosed(b) || Unknown(b))
    ensures Delta(a, b).lower.Gt(Fin(threshold)) <==>
            Enclosed(b) && (a == UNBOUNDED || (Enclosed(a) && SurelyWorse(a, b, threshold)))
    ensures var d := Delta(a, b); d.lower.Gt(Fin(threshold)) ==>
              d.upper.AtLeast(d.point) && d.point.AtLeast(d.lower) && d.point.Gt(Fin(threshold))
  {
  }

  /** The gain of an approved migration is at least its lower bound, which exceeds the
      threshold. */
  lemma ApprovedGains(f: Functions, da: seq<Stats>, db: seq<Stats>, w: Weights, z: real, threshold: real)
    requires Lawful(f)
    requires Delta(PathBound(f, da, w, z), PathBound(f, db, w, z)).lower.Gt(Fin(threshold))
    ensures var d := Delta(PathBound(f, da, w, z), PathBound(f, db, w, z));
            d.upper.AtLeast(d.point) && d.point.AtLeast(d.lower) && d.point.Gt(Fin(threshold))
  {
    BoundKinds(f, da, w, z);
    BoundKinds(f, db, w, z);
    DeltaKinds(PathBound(f, da, w, z), PathBound(f, db, w, z), threshold);
  }
}
