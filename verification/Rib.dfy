/** The routing information base: IP prefixes in two binary tries, one node per
    address bit, queried for the longest match (section 5.1 of RFC 4632). */
module Rib {
  import opened Store

  type Bits = seq<bool>

  datatype Addr = V4(bits: Bits) | V6(bits: Bits) {

    predicate Valid() {
      |bits| == if V4? then 32 else 128
    }

    /** ::ffff:0:0/96, the IPv4 addresses inside IPv6. */
    predicate Is4In6()
      requires Valid()
    {
      V6? && (forall i :: 0 <= i < 80 ==> !bits[i]) && forall i :: 80 <= i < 96 ==> bits[i]
    }

    predicate IsTrueV6()
      requires Valid()
    {
      V6? && !Is4In6()
    }

    /** The bits a trie is walked by: 4-in-6 addresses count as IPv4. */
    function Walk(): (r: Bits)
      requires Valid()
      ensures |r| == if IsTrueV6() then 128 else 32
    {
      if Is4In6() then bits[96..] else bits
    }
  }

  /** The first n bits kept, the rest zero. */
  function Zeroed(bits: Bits, n: nat): (r: Bits)
    requires n <= |bits|
    ensures |r| == |bits| && r[..n] == bits[..n]
  {
    seq(|bits|, i requires 0 <= i < |bits| => i < n && bits[i])
  }

  datatype Prefix = Prefix(addr: Addr, len: nat) {

    predicate Valid() {
      addr.Valid() && len <= |addr.bits|
    }

    function Masked(): (r: Prefix)
      requires Valid()
      ensures r.Valid() && r.len == len
    {
      var bits := Zeroed(addr.bits, len);
      Prefix(if addr.V4? then V4(bits) else V6(bits), len)
    }
  }

  /** A path from the root of a trie, one bit per edge, deepest last. */
  datatype Path = Root | Ext(up: Path, bit: bool)

  function Depth(p: Path): nat {
    if p.Root? then 0 else 1 + Depth(p.up)
  }

  /** The path along the first n bits. */
  function Along(bits: Bits, n: nat): (p: Path)
    requires n <= |bits|
    ensures Depth(p) == n
  {
    if n == 0 then Root else Ext(Along(bits, n - 1), bits[n - 1])
  }

  /** Where a prefix sits: which trie, and the path to its node. */
  datatype Place = Place(v6: bool, path: Path)

  /** A prefix that can be installed: masking leaves it true IPv4 or true IPv6. */
  predicate Installable(p: Prefix) {
    p.Valid() && !p.Masked().addr.Is4In6()
  }

  /** Masking keeps a prefix inside ::ffff:0:0/96 only if it is at least that long. */
  lemma MappedIsLong(p: Prefix)
    requires p.Valid() && p.Masked().addr.Is4In6()
    ensures p.len >= 96
  {
    assert p.Masked().addr.bits[95];
  }

  /** Masking keeps the first bits and clears the rest. */
  lemma MaskedExactly(p: Prefix, i: nat)
    requires p.Valid() && i < |p.addr.bits|
    ensures p.Masked().addr.bits[i] == (i < p.len && p.addr.bits[i]) && p.Masked().addr.V4? == p.addr.V4?
  {
  }

  function PlaceOf(p: Prefix): Place
    requires Installable(p)
  {
    Place(p.Masked().addr.IsTrueV6(), Along(p.Masked().addr.Walk(), p.len))
  }

  /** The address starts with the path's bits, in the same family. */
  predicate Covers(place: Place, a: Addr)
    requires a.Valid()
  {
    place.v6 == a.IsTrueV6() && Depth(place.path) <= |a.Walk()| && place.path == Along(a.Walk(), Depth(place.path))
  }

  /** `path` is where the node is. */
  class Node {
    var zero: Node?
    var one: Node?
    var isSet: bool
    var prefix: Prefix
    ghost const path: Path

    constructor (ghost path: Path)
      ensures zero == null && one == null && !isSet && this.path == path
    {
      zero, one, isSet, prefix := null, null, false, Prefix(V4([]), 0);
      this.path := path;
    }
  }

  /** One trie. `nodes` names every node by its path from the root, and `installed` the
      prefixes of those that are set. */
  class Trie {
    const root: Node
    ghost var nodes: map<Path, Node>
    ghost var repr: set<Node>
    ghost var installed: map<Path, Prefix>

    ghost predicate NodeOk(p: Path)
      requires p in nodes
      reads this, nodes[p]
    {
      var n := nodes[p];
      && n.path == p && n in repr
      && n.zero == (if Ext(p, false) in nodes then nodes[Ext(p, false)] else null)
      && n.one == (if Ext(p, true) in nodes then nodes[Ext(p, true)] else null)
      && (n.isSet <==> p in installed)
      && (p in installed ==> n.prefix == installed[p])
    }

    /** The part of the invariant that does not look into the nodes. */
    ghost predicate Shape()
      reads this
    {
      && Root in nodes && nodes[Root] == root
      && (forall p, b :: Ext(p, b) in nodes ==> p in nodes)
      && (forall p :: p in installed ==> p in nodes)
      && (forall p {:trigger nodes[p]} :: p in nodes ==> nodes[p] in repr)
    }

    ghost predicate Valid()
      reads this, repr
    {
      Shape() && forall p {:trigger NodeOk(p)} :: p in nodes ==> NodeOk(p)
    }

    constructor ()
      ensures Valid() && installed == map[] && fresh(repr)
    {
      root := new Node(Root);
      nodes := map[Root := root];
      repr := {root};
      installed := map[];
    }

    /** Adds the missing child `b` of `node`, which is at `p`. */
    method Grow(node: Node, b: bool, ghost p: Path) returns (child: Node)
      requires Valid() && p in nodes && nodes[p] == node && Ext(p, b) !in nodes
      modifies this`nodes, this`repr, node
      ensures Valid() && nodes == old(nodes)[Ext(p, b) := child] && repr == old(repr) + {child} && fresh(child)
    {
      assert NodeOk(p);
      child := new Node(Ext(p, b));
      if b {
        node.one := child;
      } else {
        node.zero := child;
      }
      nodes := nodes[Ext(p, b) := child];
      repr := repr + {child};
      forall q | q in nodes ensures NodeOk(q) {
        assert q in old(nodes) ==> old(NodeOk(q));
      }
    }

    /** Walks down along the first n bits, growing the trie where it ends. */
    method Reach(bits: Bits, n: nat) returns (node: Node)
      requires Valid() && n <= |bits|
      modifies this`nodes, this`repr, repr
      ensures Valid() && Along(bits, n) in nodes && nodes[Along(bits, n)] == node
      ensures fresh(repr - old(repr))
    {
      node := root;
      for i := 0 to n
        invariant Valid() && Along(bits, i) in nodes && nodes[Along(bits, i)] == node
        invariant fresh(repr - old(repr))
      {
        ghost var p := Along(bits, i);
        assert NodeOk(p);
        var next := if bits[i] then node.one else node.zero;
        if next == null {
          next := Grow(node, bits[i], p);
        }
        node := next;
      }
    }

    /** Sets the node at the first n bits. */
    method Install(bits: Bits, n: nat, p: Prefix)
      requires Valid() && n <= |bits|
      modifies this, repr
      ensures Valid() && fresh(repr - old(repr))
      ensures installed == old(installed)[Along(bits, n) := p]
    {
      var node := Reach(bits, n);
      ghost var here := Along(bits, n);
      Mark(node, here, p);
    }

    /** Sets a node, which is at `here`. */
    method Mark(node: Node, ghost here: Path, p: Prefix)
      requires Valid() && here in nodes && nodes[here] == node
      modifies this`installed, node
      ensures Valid() && installed == old(installed)[here := p]
    {
      assert NodeOk(here);
      node.isSet := true;
      node.prefix := p;
      installed := installed[here := p];
      forall q | q in nodes ensures NodeOk(q) {
        assert old(NodeOk(q));
      }
    }

    /** The deepest set node along all of `bits`. */
    method Search(bits: Bits) returns (best: Option<Prefix>)
      requires Valid()
      ensures best.Some? ==> exists k :: IsBest(installed, bits, k) && installed[Along(bits, k)] == best.value
      ensures best.None? ==> forall k :: 0 <= k <= |bits| ==> Along(bits, k) !in installed
    {
      var node := root;
      best := None;
      ghost var at: nat := 0;
      for i := 0 to |bits|
        invariant Along(bits, i) in nodes && nodes[Along(bits, i)] == node
        invariant BestBelow(installed, bits, i, best, at)
      {
        assert NodeOk(Along(bits, i));
        if node.isSet {
          best, at := Some(node.prefix), i;
        }
        var next := if bits[i] then node.one else node.zero;
        if next == null {
          forall k | i < k <= |bits| ensures Along(bits, k) !in installed {
            AboveIsThere(bits, i + 1, k);
          }
          return;
        }
        node := next;
      }
      assert NodeOk(Along(bits, |bits|));
      if node.isSet {
        best, at := Some(node.prefix), |bits|;
      }
    }

    /** The nodes above a node are there. */
    lemma {:induction false} AboveIsThere(bits: Bits, k: nat, n: nat)
      requires Shape() && k <= n <= |bits|
      ensures Along(bits, n) in nodes ==> Along(bits, k) in nodes
    {
      if k < n && Along(bits, n) in nodes {
        assert Along(bits, n) == Ext(Along(bits, n - 1), bits[n - 1]);
        AboveIsThere(bits, k, n - 1);
      }
    }
  }

  /** The longest installed path along `bits` has length k. */
  ghost predicate IsBest(installed: map<Path, Prefix>, bits: Bits, k: nat) {
    k <= |bits| && Along(bits, k) in installed && forall j :: k < j <= |bits| ==> Along(bits, j) !in installed
  }

  /** `best` is the longest installed path along `bits` of length below n. */
  ghost predicate BestBelow(installed: map<Path, Prefix>, bits: Bits, n: nat, best: Option<Prefix>, at: nat)
    requires n <= |bits|
  {
    match best
    case None => forall j :: 0 <= j < n ==> Along(bits, j) !in installed
    case Some(p) => at < n && Along(bits, at) in installed && installed[Along(bits, at)] == p
                    && forall j :: at < j < n ==> Along(bits, j) !in installed
  }

  datatype Outcome = Added | InvalidPrefix | IndexOutOfRange

  function Answer(p: Prefix): Outcome {
    if !p.Valid() then InvalidPrefix else if Installable(p) then Added else IndexOutOfRange
  }

  /** A walk runs past its bits exactly for IPv4-in-IPv6 prefixes. */
  lemma AnswerIs(p: Prefix)
    requires p.Valid()
    ensures var m := p.Masked();
            && Answer(p) == (if !m.addr.IsTrueV6() && p.len > 32 then IndexOutOfRange else Added)
            && (Answer(p) == Added ==> p.len <= |m.addr.Walk()|)
            && (forall f, family :: Add(family, f, p) ==
                  if Answer(p) == Added && f == m.addr.IsTrueV6()
                  then family[Along(m.addr.Walk(), p.len) := m]
                  else family)
  {
    if p.Masked().addr.Is4In6() {
      MappedIsLong(p);
    }
  }

  /** An IPv4 address inside IPv6. */
  function Mapped(bits: Bits): Bits {
    seq(80, _ => false) + seq(16, _ => true) + bits
  }

  /** The 4-in-6 addresses are the IPv4 ones behind 80 zeros and 16 ones. */
  lemma Is4In6Exactly(a: Addr)
    requires a.Valid()
    ensures a.Is4In6() <==> a.V6? && a.bits == Mapped(a.bits[if a.V6? then 96 else 0..])
  {
    if a.V6? {
      var m := Mapped(a.bits[96..]);
      assert |m| == 128 && forall i :: 96 <= i < 128 ==> m[i] == a.bits[i];
      assert a.Is4In6() ==> a.bits == m;
    }
  }

  lemma {:induction false} AlongSame(a: Bits, b: Bits, n: nat)
    requires n <= |a| && n <= |b|
    ensures Along(a, n) == Along(b, n) <==> a[..n] == b[..n]
  {
    if n > 0 {
      AlongSame(a, b, n - 1);
      assert a[..n] == a[..n - 1] + [a[n - 1]] && b[..n] == b[..n - 1] + [b[n - 1]];
    }
  }

  /** A prefix covers an address of its family exactly when the address, an IPv4 one also behind the
      mapped prefix, begins with the prefix's bits. */
  lemma CoversExactly(p: Prefix, a: Addr)
    requires Installable(p) && a.Valid()
    ensures Covers(PlaceOf(p), a) <==>
              && p.Masked().addr.IsTrueV6() == a.IsTrueV6()
              && a.Walk()[..p.len] == p.addr.bits[..p.len]
  {
    var m := p.Masked().addr;
    if m.IsTrueV6() == a.IsTrueV6() {
      assert m.Walk() == m.bits && m.bits[..p.len] == p.addr.bits[..p.len];
      AlongSame(m.bits, a.Walk(), p.len);
    }
  }

  /** For example, any such address with a length of 96 or more, as ::ffff:10.0.0.0/104. */
  lemma MappedPrefixOverruns(bits: Bits, len: nat)
    requires |bits| == 32 && 96 <= len <= 128
    ensures Prefix(V6(Mapped(bits)), len).Valid() && Answer(Prefix(V6(Mapped(bits)), len)) == IndexOutOfRange
  {
    var p := Prefix(V6(Mapped(bits)), len);
    assert p.Masked().addr.Is4In6();
  }

  /** `added` is the history of the prefixes installed so far. */
  class RIB {
    const v4: Trie
    const v6: Trie
    ghost var added: seq<Prefix>

    /** Two tries that share nothing. */
    ghost predicate Tries()
      reads v4, v6, v4.repr, v6.repr
    {
      v4 != v6 && v4.repr !! v6.repr && v4.Valid() && v6.Valid()
    }

    ghost predicate Holds(ps: seq<Prefix>)
      reads v4, v6
    {
      v4.installed == AddAll(false, ps) && v6.installed == AddAll(true, ps)
    }

    ghost predicate Valid()
      reads this, v4, v6, v4.repr, v6.repr
    {
      Tries() && Holds(added)
    }

    constructor ()
      ensures Valid() && added == []
      ensures fresh(v4) && fresh(v6) && fresh(v4.repr) && fresh(v6.repr)
    {
      v4 := new Trie();
      v6 := new Trie();
      added := [];
    }

    /** An IPv4-in-IPv6 prefix walks past the 32 bits it is given, which is a run-time
        error; everything else is installed. */
    method AddPrefix(p: Prefix) returns (outcome: Outcome)
      requires Valid()
      modifies this, v4, v6, v4.repr, v6.repr
      ensures Valid() && fresh(v4.repr - old(v4.repr)) && fresh(v6.repr - old(v6.repr))
      ensures outcome == Answer(p)
      ensures added == if outcome == Added then old(added) + [p] else old(added)
    {
      if !p.Valid() {
        return InvalidPrefix;
      }
      var m := p.Masked();
      var bits := m.addr.Walk();
      AnswerIs(p);
      if !m.addr.IsTrueV6() && p.len > 32 {
        Overrun(bits);
        return IndexOutOfRange;
      }
      AddAllNext(false, added, p);
      AddAllNext(true, added, p);
      Insert(m.addr.IsTrueV6(), bits, p.len, m);
      added := added + [p];
      return Added;
    }

    /** Walks all of an IPv4 address; the next step would be out of range. */
    method Overrun(bits: Bits)
      requires Tries() && |bits| >= 32
      modifies v4`nodes, v4`repr, v4.repr
      ensures Tries() && fresh(v4.repr - old(v4.repr))
    {
      var _ := v4.Reach(bits, 32);
    }

    method Insert(isV6: bool, bits: Bits, n: nat, p: Prefix)
      requires Tries() && n <= |bits|
      modifies v4, v6, v4.repr, v6.repr
      ensures Tries() && fresh(v4.repr - old(v4.repr)) && fresh(v6.repr - old(v6.repr))
      ensures v4.installed == if isV6 then old(v4.installed) else old(v4.installed)[Along(bits, n) := p]
      ensures v6.installed == if isV6 then old(v6.installed)[Along(bits, n) := p] else old(v6.installed)
    {
      if isV6 {
        v6.Install(bits, n, p);
      } else {
        v4.Install(bits, n, p);
      }
    }

    /** Adds prefixes until one is refused; `n` is how many were added. */
    method LoadPrefixes(prefixes: seq<Prefix>) returns (outcome: Outcome, n: nat)
      requires Valid()
      modifies this, v4, v6, v4.repr, v6.repr
      ensures Valid() && fresh(v4.repr - old(v4.repr)) && fresh(v6.repr - old(v6.repr))
      ensures n <= |prefixes| && added == old(added) + prefixes[..n]
      ensures if outcome == Added then n == |prefixes| else n < |prefixes| && outcome == Answer(prefixes[n])
    {
      n := 0;
      outcome := Added;
      while n < |prefixes|
        invariant Valid() && fresh(v4.repr - old(v4.repr)) && fresh(v6.repr - old(v6.repr))
        invariant n <= |prefixes| && added == old(added) + prefixes[..n] && outcome == Added
      {
        ghost var before := added;
        outcome := AddPrefix(prefixes[n]);
        if outcome != Added {
          return;
        }
        Appended(before, old(added), prefixes, n);
        n := n + 1;
      }
    }

    /** The longest installed prefix containing the address, or none. */
    method Lookup(a: Addr) returns (best: Option<Prefix>)
      requires Valid() && a.Valid()
      ensures LongestMatch(AddAll(a.IsTrueV6(), added), a, best)
    {
      var bits := a.Walk();
      if a.IsTrueV6() {
        best := v6.Search(bits);
      } else {
        best := v4.Search(bits);
      }
      BestIsLongest(AddAll(a.IsTrueV6(), added), a, best);
    }
  }

  lemma Appended(before: seq<Prefix>, first: seq<Prefix>, prefixes: seq<Prefix>, n: nat)
    requires n < |prefixes| && before == first + prefixes[..n]
    ensures before + [prefixes[n]] == first + prefixes[..n + 1]
  {
  }

  /** What adding a prefix does to one family. */
  function Add(family: map<Path, Prefix>, isV6: bool, p: Prefix): map<Path, Prefix> {
    if Installable(p) && PlaceOf(p).v6 == isV6 then family[PlaceOf(p).path := p.Masked()] else family
  }

  /** What a family holds after a list of prefixes was added to an empty base. */
  function AddAll(isV6: bool, ps: seq<Prefix>): map<Path, Prefix> {
    if ps == [] then map[] else Add(AddAll(isV6, ps[..|ps| - 1]), isV6, ps[|ps| - 1])
  }

  lemma AddAllNext(isV6: bool, ps: seq<Prefix>, p: Prefix)
    ensures AddAll(isV6, ps + [p]) == Add(AddAll(isV6, ps), isV6, p)
  {
    assert (ps + [p])[..|ps|] == ps;
  }

  ghost predicate LongestMatch(family: map<Path, Prefix>, a: Addr, best: Option<Prefix>)
    requires a.Valid()
  {
    match best
    case None => forall q :: q in family ==> !Covers(Place(a.IsTrueV6(), q), a)
    case Some(p) =>
      exists k :: k in family && family[k] == p && Covers(Place(a.IsTrueV6(), k), a)
                  && forall q :: q in family && Covers(Place(a.IsTrueV6(), q), a) ==> Depth(q) <= Depth(k)
  }

  lemma BestIsLongest(family: map<Path, Prefix>, a: Addr, best: Option<Prefix>)
    requires a.Valid()
    requires best.Some? ==> exists k :: IsBest(family, a.Walk(), k) && family[Along(a.Walk(), k)] == best.value
    requires best.None? ==> forall k :: 0 <= k <= |a.Walk()| ==> Along(a.Walk(), k) !in family
    ensures LongestMatch(family, a, best)
  {
    if best.Some? {
      var k :| IsBest(family, a.Walk(), k) && family[Along(a.Walk(), k)] == best.value;
      var path := Along(a.Walk(), k);
      assert path in family && Covers(Place(a.IsTrueV6(), path), a);
    }
  }

  // ---------------------------------------------------------------- theorems

  lemma {:induction false} SameAlong(a: Bits, b: Bits, n: nat)
    requires n <= |a| && n <= |b| && Along(a, n) == Along(b, n)
    ensures forall i :: 0 <= i < n ==> a[i] == b[i]
  {
    if n > 0 {
      SameAlong(a, b, n - 1);
    }
  }

  /** A place determines the masked prefix installed there. */
  lemma PlaceDeterminesPrefix(p: Prefix, q: Prefix)
    requires Installable(p) && Installable(q) && PlaceOf(p) == PlaceOf(q)
    ensures p.Masked() == q.Masked()
  {
    var a, b := p.Masked().addr, q.Masked().addr;
    assert p.len == q.len;
    SameAlong(a.Walk(), b.Walk(), p.len);
    assert a.bits == b.bits;
  }

  /** After loading a list of prefixes a family holds exactly the masked prefixes of that
      family in the list: neither order nor repetition matters. */
  lemma {:induction false} LoadedExactly(isV6: bool, ps: seq<Prefix>, path: Path)
    ensures var family := AddAll(isV6, ps);
            && (path in family <==> exists p :: p in ps && Installable(p) && PlaceOf(p) == Place(isV6, path))
            && (path in family ==> forall p :: p in ps && Installable(p) && PlaceOf(p) == Place(isV6, path) ==>
                  family[path] == p.Masked())
  {
    if ps != [] {
      var n := |ps| - 1;
      LoadedExactly(isV6, ps[..n], path);
      assert ps == ps[..n] + [ps[n]];
      forall p | p in ps && Installable(p) && Installable(ps[n]) && PlaceOf(p) == PlaceOf(ps[n])
        ensures p.Masked() == ps[n].Masked() {
        PlaceDeterminesPrefix(p, ps[n]);
      }
    }
  }

  /** So lists with the same prefixes build the same base. */
  lemma OrderDoesNotMatter(isV6: bool, ps: seq<Prefix>, qs: seq<Prefix>)
    requires forall p :: p in ps <==> p in qs
    ensures AddAll(isV6, ps) == AddAll(isV6, qs)
  {
    var f, g := AddAll(isV6, ps), AddAll(isV6, qs);
    forall path ensures (path in f <==> path in g) && (path in f ==> f[path] == g[path]) {
      LoadedExactly(isV6, ps, path);
      LoadedExactly(isV6, qs, path);
    }
  }

  /** What the answer means, in terms of the prefixes loaded: it is one of them, masked,
      that contains the address, no longer one does, and there is none exactly when none
      of them contains the address. */
  lemma LookupIsLongestLoaded(ps: seq<Prefix>, a: Addr, best: Option<Prefix>)
    requires a.Valid() && LongestMatch(AddAll(a.IsTrueV6(), ps), a, best)
    ensures match best
            case None => forall p :: p in ps && Installable(p) ==> !Covers(PlaceOf(p), a)
            case Some(m) =>
              exists p :: p in ps && Installable(p) && p.Masked() == m && Covers(PlaceOf(p), a)
                          && forall q :: q in ps && Installable(q) && Covers(PlaceOf(q), a) ==> q.len <= p.len
  {
    var f := AddAll(a.IsTrueV6(), ps);
    forall q | q in ps && Installable(q) && Covers(PlaceOf(q), a) ensures PlaceOf(q).path in f {
      LoadedExactly(a.IsTrueV6(), ps, PlaceOf(q).path);
    }
    if best.Some? {
      var k :| && k in f && f[k] == best.value && Covers(Place(a.IsTrueV6(), k), a)
               && forall q :: q in f && Covers(Place(a.IsTrueV6(), q), a) ==> Depth(q) <= Depth(k);
      LoadedExactly(a.IsTrueV6(), ps, k);
      var p :| p in ps && Installable(p) && PlaceOf(p) == Place(a.IsTrueV6(), k);
      forall q | q in ps && Installable(q) && Covers(PlaceOf(q), a) ensures q.len <= p.len {
        assert Depth(PlaceOf(q).path) <= Depth(k);
      }
    }
  }
}
