/** The client's choice of path: among paths to its egress it moves only to one that is surely
    better, for long enough; it changes egress only when nothing else is left. */
module Decider {
  import opened Extended
  import opened Ownership
  import opened Store
  import opened Cost
  import Flap = FlapGuard

  /** In through `access`, out through `egress`. */
  datatype Path = Path(access: Name, egress: Name, segments: seq<Stats>, reachable: bool)

  datatype Policy = Policy(cost: Weights, decision: DecisionWeights, flap: Flap.Config)

  datatype Outcome = Stay | Confirming | Migrated | NoAlternative

  datatype Cause = NoCause | BetterPath | AccessDead | EgressChange

  datatype Verdict = Verdict(migrate: bool, access: Name, egress: Name, outcome: Outcome, cause: Cause, threshold: real)

  function CandidateOf(p: Path): Candidate {
    Candidate(p.egress, p.segments, 0.0)
  }

  // ------------------------------------------------------------------- the cheapest path

  ghost function PathCost(f: Functions, p: Path, w: Weights): (c: Ext)
    ensures c.Fin? || c.PosInf?
  {
    if 0.0 >= w.maxCapacity then PosInf else GatedCost(f, p.segments, w)
  }

  ghost predicate Usable(f: Functions, p: Path, w: Weights) {
    p.reachable && PathCost(f, p, w).Fin?
  }

  /** Path i is a usable one that `keep` accepts. */
  ghost predicate Eligible(f: Functions, w: Weights, paths: seq<Path>, keep: Path -> bool, i: int) {
    0 <= i < |paths| && keep(paths[i]) && Usable(f, paths[i], w)
  }

  /** Path i is the first of the cheapest. */
  ghost predicate CheapestIs(f: Functions, w: Weights, paths: seq<Path>, keep: Path -> bool, i: int) {
    && Eligible(f, w, paths, keep, i)
    && forall j :: Eligible(f, w, paths, keep, j) ==>
         && PathCost(f, paths[i], w).r <= PathCost(f, paths[j], w).r
         && (j < i ==> PathCost(f, paths[i], w).r < PathCost(f, paths[j], w).r)
  }

  method Cheapest(f: Functions, w: Weights, paths: seq<Path>, keep: Path -> bool) returns (best: Option<nat>)
    ensures best.None? ==> forall i :: !Eligible(f, w, paths, keep, i)
    ensures best.Some? ==> CheapestIs(f, w, paths, keep, best.value)
  {
    best := None;
    var bestCost := PosInf;
    for i := 0 to |paths|
      invariant best.None? ==> bestCost == PosInf && forall j :: j < i ==> !Eligible(f, w, paths, keep, j)
      invariant best.Some? ==>
                  best.value < i && Eligible(f, w, paths, keep, best.value)
                    && bestCost == PathCost(f, paths[best.value], w)
      invariant best.Some? ==> forall j :: j < i && Eligible(f, w, paths, keep, j) ==>
                  bestCost.r <= PathCost(f, paths[j], w).r
                    && (j < best.value ==> bestCost.r < PathCost(f, paths[j], w).r)
    {
      if !paths[i].reachable || !keep(paths[i]) {
        continue;
      }
      var score := ScorePath(f, CandidateOf(paths[i]), w);
      if bestCost.Gt(score.cost) {
        best, bestCost := Some(i), score.cost;
      }
    }
  }

  // ------------------------------------------------------------------- the surest path

  predicate Other(p: Path, access: Name, egress: Name) {
    p.egress == egress && p.access != access
  }

  /** Path i is compared with the current one. */
  predicate Compared(w: Weights, paths: seq<Path>, current: Path, i: int) {
    0 <= i < |paths| && paths[i].reachable && Other(paths[i], current.access, current.egress) && w.maxCapacity > 0.0
  }

  ghost function DeltaTo(f: Functions, policy: Policy, current: Path, p: Path): Bound
    requires Lawful(f)
  {
    Delta(PathBound(f, current.segments, policy.cost, policy.decision.z),
          PathBound(f, p.segments, policy.cost, policy.decision.z))
  }

  ghost function Lower(f: Functions, policy: Policy, current: Path, p: Path): Ext
    requires Lawful(f)
  {
    DeltaTo(f, policy, current, p).lower
  }

  function Threshold(policy: Policy): real {
    policy.decision.migrationCost + policy.decision.safetyMargin
  }

  ghost predicate Clears(f: Functions, policy: Policy, current: Path, p: Path)
    requires Lawful(f)
  {
    Lower(f, policy, current, p).Gt(Fin(Threshold(policy)))
  }

  /** The lower bounds on the improvement, of the paths compared. */
  ghost function Bounds(f: Functions, policy: Policy, paths: seq<Path>, current: Path): seq<Option<Ext>>
    requires Lawful(f)
  {
    seq(|paths|, i requires 0 <= i < |paths| =>
      if Compared(policy.cost, paths, current, i) then Some(Lower(f, policy, current, paths[i])) else None)
  }

  /** The paths compared are the reachable ones to the current egress through another access, and
      none if no capacity may be used. */
  lemma ComparedExactly(f: Functions, policy: Policy, paths: seq<Path>, current: Path, i: nat)
    requires Lawful(f) && i < |paths|
    ensures var bounds, p := Bounds(f, policy, paths, current), paths[i];
            && |bounds| == |paths|
            && bounds[i] == if p.reachable && p.egress == current.egress && p.access != current.access
                               && policy.cost.maxCapacity > 0.0
                            then Some(Lower(f, policy, current, p)) else None
  {
  }

  ghost predicate FirstIs(bounds: seq<Option<Ext>>, i: int) {
    0 <= i < |bounds| && bounds[i].Some? && forall j :: 0 <= j < i ==> bounds[j].None?
  }

  /** Bound `best` is the first of the greatest below n, none of which is compared with a first
      bound that is not a number. */
  ghost predicate GreatestIs(bounds: seq<Option<Ext>>, n: nat, best: nat)
    requires best < n <= |bounds| && bounds[best].Some?
  {
    forall j :: 0 <= j < n && bounds[j].Some? ==>
      && (FirstIs(bounds, j) ==> !bounds[j].value.NaN?)
      && !bounds[j].value.Gt(bounds[best].value)
      && (j < best ==> bounds[j] != bounds[best])
  }

  /** What the running best is, of the bounds below n. */
  ghost predicate SurestIs(bounds: seq<Option<Ext>>, n: nat, best: nat) {
    && best < n <= |bounds| && bounds[best].Some?
    && if bounds[best].value.NaN? then FirstIs(bounds, best) else GreatestIs(bounds, n, best)
  }

  lemma GreaterReplaces(bounds: seq<Option<Ext>>, i: nat, best: nat)
    requires i < |bounds| && SurestIs(bounds, i, best) && bounds[i].Some?
    ensures SurestIs(bounds, i + 1, if bounds[i].value.Gt(bounds[best].value) then i else best)
  {
    var x, b := bounds[i].value, bounds[best].value;
    assert !FirstIs(bounds, i);
    if x.Gt(b) {
      forall j | 0 <= j < i && bounds[j].Some? ensures !bounds[j].value.Gt(x) && bounds[j].value != x {
        assert !bounds[j].value.Gt(b);
      }
    }
  }

  /** The loop's running best. */
  ghost predicate Running(bounds: seq<Option<Ext>>, n: nat, best: Option<nat>) {
    && n <= |bounds|
    && (best.None? ==> forall j :: 0 <= j < n ==> bounds[j].None?)
    && (best.Some? ==> SurestIs(bounds, n, best.value))
  }

  lemma RunningSkips(bounds: seq<Option<Ext>>, i: nat, best: Option<nat>)
    requires i < |bounds| && Running(bounds, i, best) && bounds[i].None?
    ensures Running(bounds, i + 1, best)
  {
  }

  lemma RunningTakes(bounds: seq<Option<Ext>>, i: nat, best: Option<nat>)
    requires i < |bounds| && Running(bounds, i, best) && bounds[i].Some?
    ensures Running(bounds, i + 1, if best.None? || bounds[i].value.Gt(bounds[best.value].value) then Some(i) else best)
  {
    if best.Some? {
      GreaterReplaces(bounds, i, best.value);
    }
  }

  method Surest(f: Functions, policy: Policy, paths: seq<Path>, current: Path)
    returns (best: Option<nat>, decision: Decision)
    requires Lawful(f)
    ensures Running(Bounds(f, policy, paths, current), |paths|, best)
    ensures best.Some? ==> decision.migrate == Clears(f, policy, current, paths[best.value])
  {
    best, decision := None, Decision(false, UNBOUNDED, 0.0);
    ghost var bounds := Bounds(f, policy, paths, current);
    for i := 0 to |paths|
      invariant Running(bounds, i, best)
      invariant best.Some? ==>
                  && bounds[best.value] == Some(decision.delta.lower)
                  && decision.migrate == Clears(f, policy, current, paths[best.value])
    {
      if !paths[i].reachable || !Other(paths[i], current.access, current.egress) {
        RunningSkips(bounds, i, best);
        continue;
      }
      var r := Compare(f, policy, current, paths[i]);
      if r.Err? {
        RunningSkips(bounds, i, best);
        continue;
      }
      RunningTakes(bounds, i, best);
      if best.None? || r.value.delta.lower.Gt(decision.delta.lower) {
        best, decision := Some(i), r.value;
      }
    }
  }

  method Compare(f: Functions, policy: Policy, current: Path, p: Path) returns (r: Cost.Result<Decision>)
    requires Lawful(f) && p.egress == current.egress
    ensures r.Ok? <==> policy.cost.maxCapacity > 0.0
    ensures r.Ok? ==>
              r.value.delta == DeltaTo(f, policy, current, p) && r.value.migrate == Clears(f, policy, current, p)
  {
    WholePathsDiffer(current, p, policy.cost);
    r := DecideMigration(f, CandidateOf(current), CandidateOf(p), 0, policy.cost, policy.decision);
  }

  lemma WholePathsDiffer(a: Path, b: Path, w: Weights)
    requires a.egress == b.egress
    ensures Differing(CandidateOf(a), CandidateOf(b), 0, w) ==
            if w.maxCapacity > 0.0 then Ok((a.segments, b.segments)) else Err(OverCapacity)
  {
    assert a.segments[..|a.segments| - 0] == a.segments && b.segments[..|b.segments| - 0] == b.segments;
  }

  /** The surest path clears the threshold exactly when some path does and the first bound
      compared is a number. */
  lemma SurestClearsExactly(bounds: seq<Option<Ext>>, best: nat, first: nat, t: real)
    requires Running(bounds, |bounds|, Some(best)) && FirstIs(bounds, first)
    ensures bounds[best].value.Gt(Fin(t)) <==>
            (exists j :: 0 <= j < |bounds| && bounds[j].Some? && bounds[j].value.Gt(Fin(t)))
              && !bounds[first].value.NaN?
  {
    if bounds[best].value.NaN? {
      assert best == first;
    } else if j :| 0 <= j < |bounds| && bounds[j].Some? && bounds[j].value.Gt(Fin(t)) {
      assert !bounds[j].value.Gt(bounds[best].value);
    }
  }

  /** No segment with a negative variance, which only a broken estimator would report. */
  ghost predicate Unbroken(f: Functions, policy: Policy, p: Path)
    requires Lawful(f)
  {
    !Any(f, p.segments, policy.decision.z, Broken)
  }

  ghost predicate MeasuredPath(f: Functions, policy: Policy, p: Path)
    requires Lawful(f)
  {
    Measured(f, p.segments, policy.cost, policy.decision.z)
  }

  lemma NotANumberExactly(f: Functions, policy: Policy, current: Path, p: Path)
    requires Lawful(f) && Unbroken(f, policy, current) && Unbroken(f, policy, p)
    ensures Lower(f, policy, current, p).NaN? <==> Gated(current.segments, policy.cost) && !MeasuredPath(f, policy, p)
  {
    UnbrokenBound(f, policy, current);
    UnbrokenBound(f, policy, p);
  }

  lemma UnbrokenBound(f: Functions, policy: Policy, p: Path)
    requires Lawful(f) && Unbroken(f, policy, p)
    ensures var b := PathBound(f, p.segments, policy.cost, policy.decision.z);
            if Gated(p.segments, policy.cost) then b == UNBOUNDED
            else if MeasuredPath(f, policy, p) then Enclosed(b)
            else b.lower.NegInf? && b.upper.PosInf?
  {
    BoundKinds(f, p.segments, policy.cost, policy.decision.z);
    PathKinds(f, p.segments, policy.cost, policy.decision.z);
    if !All(f, p.segments, policy.decision.z, Sound) {
      var i :| 0 <= i < |p.segments| && KindOf(f, p.segments[i], policy.decision.z) != Sound;
      assert KindOf(f, p.segments[i], policy.decision.z) != Broken;
      assert KindOf(f, p.segments[i], policy.decision.z) == Untrusted;
    }
  }

  /** The loop settles on a path that clears the threshold whenever one does, except exactly
      when the current path is gated and the first path compared is not measured. */
  lemma ClearingPathFoundExactly(f: Functions, policy: Policy, paths: seq<Path>, current: Path, best: nat, first: nat)
    requires Lawful(f) && Unbroken(f, policy, current)
    requires Running(Bounds(f, policy, paths, current), |paths|, Some(best))
    requires FirstIs(Bounds(f, policy, paths, current), first) && Unbroken(f, policy, paths[first])
    requires exists i :: Compared(policy.cost, paths, current, i) && Clears(f, policy, current, paths[i])
    ensures Clears(f, policy, current, paths[best]) <==>
            !Gated(current.segments, policy.cost) || MeasuredPath(f, policy, paths[first])
  {
    var bounds := Bounds(f, policy, paths, current);
    var i :| Compared(policy.cost, paths, current, i) && Clears(f, policy, current, paths[i]);
    assert bounds[i] == Some(Lower(f, policy, current, paths[i]));
    assert bounds[best] == Some(Lower(f, policy, current, paths[best]));
    assert bounds[first] == Some(Lower(f, policy, current, paths[first]));
    SurestClearsExactly(bounds, best, first, Threshold(policy));
    NotANumberExactly(f, policy, current, paths[first]);
  }

  const LOSSY: Stats := Stats(1.0, 1.0, 1.0, 0.0, 1, 1.0)
  const CLEAN: Stats := Stats(1.0, 1.0, 0.0, 0.0, 1, 1.0)
  const HERE: Path := Path(Name("a"), Name("e"), [LOSSY], true)
  const BAD: Path := Path(Name("b"), Name("e"), [LOSSY], true)
  const GOOD: Path := Path(Name("c"), Name("e"), [CLEAN], true)

  lemma CleanIsSound(f: Functions, z: real)
    requires Lawful(f)
    ensures KindOf(f, CLEAN, z) == Sound
  {
    assert 0.0 * (1.0 - 0.0) / 1.0 == 0.0;
    assert 0.0 / f.sqrt(1.0) == 0.0;
    assert z * 0.0 == 0.0;
  }

  /** From a gated path, a gated path listed first hides the good one behind it. */
  lemma GoodPathCanBeHidden(f: Functions, policy: Policy, best: nat)
    requires Lawful(f) && 0.0 < policy.cost.lossGate <= 1.0 && policy.cost.maxCapacity > 0.0
    requires Running(Bounds(f, policy, [BAD, GOOD], HERE), 2, Some(best))
    ensures Clears(f, policy, HERE, GOOD) && !Clears(f, policy, HERE, [BAD, GOOD][best])
  {
    var w, z := policy.cost, policy.decision.z;
    CleanIsSound(f, z);
    assert Gate(HERE.segments[0], w) && Gate(BAD.segments[0], w);
    ApprovedExactly(f, HERE.segments, GOOD.segments, w, z, Threshold(policy));
    ApprovedExactly(f, HERE.segments, BAD.segments, w, z, Threshold(policy));
    var bounds := Bounds(f, policy, [BAD, GOOD], HERE);
    assert Compared(w, [BAD, GOOD], HERE, 0) && FirstIs(bounds, 0);
    BoundKinds(f, HERE.segments, w, z);
    BoundKinds(f, BAD.segments, w, z);
    assert bounds[0] == Some(NaN);
    SurestClearsExactly(bounds, best, 0, Threshold(policy));
  }

  // ------------------------------------------------------------------- the decider

  /** Paths to the same egress through another access gateway. */
  function Alternatives(access: Name, egress: Name): Path -> bool {
    p => Other(p, access, egress)
  }

  function OtherEgresses(egress: Name): Path -> bool {
    (p: Path) => p.egress != egress
  }

  /** What follows from a dead current path: the cheapest usable path to the same egress, else
      the cheapest usable path to another one, else nothing. */
  ghost predicate DeadVerdict(f: Functions, w: Weights, access: Name, egress: Name, paths: seq<Path>, v: Verdict) {
    if exists i :: Eligible(f, w, paths, Alternatives(access, egress), i) then
      && v.migrate && v.cause == AccessDead
      && exists i ::
           CheapestIs(f, w, paths, Alternatives(access, egress), i) && v.access == paths[i].access
             && v.egress == paths[i].egress
    else if exists i :: Eligible(f, w, paths, OtherEgresses(egress), i) then
      && v.migrate && v.cause == EgressChange
      && exists i ::
           CheapestIs(f, w, paths, OtherEgresses(egress), i) && v.access == paths[i].access
             && v.egress == paths[i].egress
    else !v.migrate && v.outcome == NoAlternative
  }

  /** A move is to a reachable path, and not the current one. */
  ghost predicate Leads(paths: seq<Path>, access: Name, egress: Name, v: Verdict) {
    && (exists i ::
          0 <= i < |paths| && paths[i].reachable && paths[i].access == v.access && paths[i].egress == v.egress)
    && (v.egress == egress ==> v.access != access)
  }

  lemma EligibleIs(f: Functions, w: Weights, paths: seq<Path>, access: Name, egress: Name)
    ensures (exists i :: Eligible(f, w, paths, Alternatives(access, egress), i)) <==>
              exists i ::
                  0 <= i < |paths| && Usable(f, paths[i], w) && paths[i].egress == egress && paths[i].access != access
    ensures (exists i :: Eligible(f, w, paths, OtherEgresses(egress), i)) <==>
              exists i :: 0 <= i < |paths| && Usable(f, paths[i], w) && paths[i].egress != egress
  {
    if i :| 0 <= i < |paths| && Usable(f, paths[i], w) && paths[i].egress == egress && paths[i].access != access {
      assert Eligible(f, w, paths, Alternatives(access, egress), i);
    }
    if i :| 0 <= i < |paths| && Usable(f, paths[i], w) && paths[i].egress != egress {
      assert Eligible(f, w, paths, OtherEgresses(egress), i);
    }
  }

  /** The first path through the current gateways. */
  ghost predicate CurrentIs(access: Name, egress: Name, paths: seq<Path>, c: int) {
    && 0 <= c < |paths| && paths[c].access == access && paths[c].egress == egress
    && forall j :: 0 <= j < c ==> paths[j].access != access || paths[j].egress != egress
  }

  /** Path `best` is the surest against the current one, c, and clears the threshold. */
  ghost predicate QualifiesIs(f: Functions, policy: Policy, access: Name, egress: Name, paths: seq<Path>, c: int,
                              best: int)
    requires Lawful(f)
  {
    && CurrentIs(access, egress, paths, c) && 0 <= best
    && Running(Bounds(f, policy, paths, paths[c]), |paths|, Some(best))
    && Clears(f, policy, paths[c], paths[best])
  }

  ghost predicate QualifiesSome(f: Functions, policy: Policy, access: Name, egress: Name, paths: seq<Path>, best: int)
    requires Lawful(f)
  {
    0 <= best < |paths| && exists c :: QualifiesIs(f, policy, access, egress, paths, c, best)
  }

  /** What follows for a live current path: `t` is what the flap guard is told, `approved` what
      it answers. */
  ghost predicate LiveVerdict(f: Functions, policy: Policy, access: Name, egress: Name, paths: seq<Path>,
                              t: Flap.Tick, approved: bool, v: Verdict)
    requires Lawful(f)
  {
    && v.migrate == (t.qualifies && approved)
    && (!t.qualifies ==> forall best :: !QualifiesSome(f, policy, access, egress, paths, best))
    && (t.qualifies ==> exists best ::
          && QualifiesSome(f, policy, access, egress, paths, best)
          && t.candidate == paths[best].access
          && (v.migrate ==>
                v.access == paths[best].access && v.egress == paths[best].egress == egress && v.cause == BetterPath))
  }

  /** The running best is determined by the bounds. */
  lemma SurestUnique(bounds: seq<Option<Ext>>, a: nat, b: nat)
    requires Running(bounds, |bounds|, Some(a)) && Running(bounds, |bounds|, Some(b))
    ensures a == b
  {
    if bounds[a].value.NaN? || bounds[b].value.NaN? {
    } else {
      assert !bounds[a].value.Gt(bounds[b].value) && !bounds[b].value.Gt(bounds[a].value);
    }
  }

  /** If the surest path does not clear the threshold, none qualifies. */
  lemma NoneQualifies(f: Functions, policy: Policy, access: Name, egress: Name, paths: seq<Path>, c: nat, best: nat)
    requires Lawful(f) && CurrentIs(access, egress, paths, c)
             && Running(Bounds(f, policy, paths, paths[c]), |paths|, Some(best))
    requires !Clears(f, policy, paths[c], paths[best])
    ensures forall b :: !QualifiesSome(f, policy, access, egress, paths, b)
  {
    forall b, d | 0 <= b < |paths| && CurrentIs(access, egress, paths, d)
      ensures !QualifiesIs(f, policy, access, egress, paths, d, b) {
      assert d == c;
      if Running(Bounds(f, policy, paths, paths[c]), |paths|, Some(b)) {
        SurestUnique(Bounds(f, policy, paths, paths[c]), b, best);
      }
    }
  }

  datatype Choice = Nothing(outcome: Outcome) | Better(best: nat)

  /** The one path to move to, if there is one. */
  method Choose(f: Functions, policy: Policy, access: Name, egress: Name, paths: seq<Path>) returns (r: Choice)
    requires Lawful(f)
    ensures r.Nothing? ==>
              r.outcome != Migrated && forall best :: !QualifiesSome(f, policy, access, egress, paths, best)
    ensures r.Better? ==> QualifiesSome(f, policy, access, egress, paths, r.best) && paths[r.best].egress == egress
  {
    var c := FindCurrent(access, egress, paths);
    if c.None? {
      return Nothing(Stay);
    }
    var best, decision := Surest(f, policy, paths, paths[c.value]);
    if best.None? {
      return Nothing(NoAlternative);
    }
    if !decision.migrate {
      NoneQualifies(f, policy, access, egress, paths, c.value, best.value);
      return Nothing(Stay);
    }
    assert QualifiesIs(f, policy, access, egress, paths, c.value, best.value);
    return Better(best.value);
  }

  method FindCurrent(access: Name, egress: Name, paths: seq<Path>) returns (current: Option<nat>)
    ensures current.Some? ==> CurrentIs(access, egress, paths, current.value)
    ensures current.None? ==> forall c :: !CurrentIs(access, egress, paths, c)
  {
    for i := 0 to |paths|
      invariant forall j :: 0 <= j < i ==> paths[j].access != access || paths[j].egress != egress
    {
      if paths[i].access == access && paths[i].egress == egress {
        return Some(i);
      }
    }
    return None;
  }

  class PathDecider {
    const f: Functions
    const policy: Policy
    var flap: Flap.Guard

    ghost predicate Valid()
      reads this, flap
    {
      Lawful(f) && flap.Valid() && flap.cfg == policy.flap
    }

    constructor (f: Functions, policy: Policy, now: int)
      requires Lawful(f)
      ensures Valid() && fresh(flap) && flap.ticks == [] && flap.since == now && this.policy == policy && this.f == f
    {
      this.f, this.policy := f, policy;
      flap := new Flap.Guard(policy.flap, now);
    }

    /** The path changed: the guard starts over. */
    method Reset(now: int)
      requires Valid()
      modifies this
      ensures Valid() && fresh(flap) && flap.ticks == [] && flap.since == now
    {
      flap := new Flap.Guard(policy.flap, now);
    }

    /** A dead gateway bypasses the guard. */
    method ShouldCutover(dead: bool, now: int, qualifies: bool, candidate: Name) returns (yes: bool)
      requires Valid()
      modifies flap
      ensures Valid()
      ensures dead ==> yes && flap.ticks == old(flap.ticks)
      ensures !dead ==>
                flap.ticks == old(flap.ticks) + [Flap.Tick(now, qualifies, candidate)]
                  && (yes <==> |old(flap.ticks)| in flap.Past().approvals)
    {
      if dead {
        return true;
      }
      yes := flap.Evaluate(now, qualifies, candidate);
    }

    /** The egress changes exactly when the current path is dead, no usable path to that egress is
        left, and there is a usable one to another. */
    method Decide(now: int, access: Name, egress: Name, paths: seq<Path>, currentDead: bool) returns (v: Verdict)
      requires Valid()
      modifies flap
      ensures v.migrate && v.egress != egress <==>
              && currentDead
              && (forall i :: 0 <= i < |paths| && Usable(f, paths[i], policy.cost) ==>
                    paths[i].egress != egress || paths[i].access == access)
              && (exists i :: 0 <= i < |paths| && Usable(f, paths[i], policy.cost) && paths[i].egress != egress)
      ensures v.migrate ==> Leads(paths, access, egress, v)
      ensures Valid() && v.threshold == Threshold(policy)
      ensures v.outcome == Migrated <==> v.migrate
      ensures currentDead ==> DeadVerdict(f, policy.cost, access, egress, paths, v) && flap.ticks == old(flap.ticks)
      ensures !currentDead ==> exists t: Flap.Tick ::
                && t.now == now && flap.ticks == old(flap.ticks) + [t]
                && LiveVerdict(f, policy, access, egress, paths, t, |old(flap.ticks)| in flap.Past().approvals, v)
    {
      if currentDead {
        v := DecideDead(now, access, egress, paths);
      } else {
        v := DecideLive(now, access, egress, paths);
      }
      v := v.(threshold := policy.decision.migrationCost + policy.decision.safetyMargin);
      if v.migrate {
        v := v.(outcome := Migrated);
      }
      EligibleIs(f, policy.cost, paths, access, egress);
    }

    method DecideDead(now: int, access: Name, egress: Name, paths: seq<Path>) returns (v: Verdict)
      requires Valid()
      modifies flap
      ensures Valid() && flap.ticks == old(flap.ticks) && v.outcome != Migrated
      ensures DeadVerdict(f, policy.cost, access, egress, paths, v)
    {
      var p := Cheapest(f, policy.cost, paths, Alternatives(access, egress));
      if p.Some? {
        var yes := ShouldCutover(true, now, true, paths[p.value].access);
        if yes {
          return Verdict(true, paths[p.value].access, paths[p.value].egress, Stay, AccessDead, 0.0);
        }
      }
      p := Cheapest(f, policy.cost, paths, OtherEgresses(egress));
      if p.Some? {
        return Verdict(true, paths[p.value].access, paths[p.value].egress, Stay, EgressChange, 0.0);
      }
      return Verdict(false, NONAME, NONAME, NoAlternative, NoCause, 0.0);
    }

    method DecideLive(now: int, access: Name, egress: Name, paths: seq<Path>) returns (v: Verdict)
      requires Valid()
      modifies flap
      ensures Valid() && v.outcome != Migrated
      ensures exists t: Flap.Tick ::
                && t.now == now && flap.ticks == old(flap.ticks) + [t]
                && LiveVerdict(f, policy, access, egress, paths, t, |old(flap.ticks)| in flap.Past().approvals, v)
    {
      var choice := Choose(f, policy, access, egress, paths);
      match choice
      case Nothing(outcome) =>
        var _ := flap.Evaluate(now, false, NONAME);
        return Verdict(false, NONAME, NONAME, outcome, NoCause, 0.0);
      case Better(best) =>
        var yes := ShouldCutover(false, now, true, paths[best].access);
        assert QualifiesSome(f, policy, access, egress, paths, best);
        if !yes {
          return Verdict(false, NONAME, NONAME, Confirming, NoCause, 0.0);
        }
        return Verdict(true, paths[best].access, paths[best].egress, Stay, BetterPath, 0.0);
    }
  }
}
