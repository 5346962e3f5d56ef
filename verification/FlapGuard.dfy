/** The flap guard: a migration is approved only after a candidate has qualified for long
    enough, on a path that has been in use for long enough. Times and durations are integers. */
module FlapGuard {
  import opened Ownership

  datatype Config = Config(confirmation: int, residence: int, cooldown: int)

  /** One call of Evaluate. */
  datatype Tick = Tick(now: int, qualifies: bool, candidate: Name)

  /** The guard's fields. */
  datatype Fields = Fields(activeSince: int, lastMigrationAt: int, haveMigrated: bool,
                           pendingCandidate: Name, pendingSince: int, havePending: bool)

  /** A guard with its past: every tick so far, which of them were approved, and when. */
  datatype Trace = Trace(fields: Fields, ticks: seq<Tick>, approvals: seq<nat>, times: seq<int>)

  /** The fields after a tick, once the pending candidate is brought up to date. */
  function Noted(f: Fields, t: Tick): Fields {
    if !t.qualifies then f.(havePending := false)
    else if !f.havePending || f.pendingCandidate != t.candidate then
      f.(havePending := true, pendingCandidate := t.candidate, pendingSince := t.now)
    else f
  }

  predicate Approves(cfg: Config, f: Fields, t: Tick) {
    && t.qualifies
    && t.now - Noted(f, t).pendingSince >= cfg.confirmation
    && t.now - f.activeSince >= cfg.residence
    && (f.haveMigrated ==> t.now - f.lastMigrationAt >= cfg.cooldown)
  }

  function Next(cfg: Config, s: Trace, t: Tick): Trace {
    if Approves(cfg, s.fields, t) then
      Trace(Fields(t.now, t.now, true, t.candidate, Noted(s.fields, t).pendingSince, false), s.ticks + [t],
            s.approvals + [|s.ticks|], s.times + [t.now])
    else Trace(Noted(s.fields, t), s.ticks + [t], s.approvals, s.times)
  }

  function Start(t0: int): Trace {
    Trace(Fields(t0, 0, false, NONAME, 0, false), [], [], [])
  }

  function Run(cfg: Config, t0: int, ticks: seq<Tick>): (s: Trace)
    ensures s.ticks == ticks
  {
    if ticks == [] then Start(t0)
    else
      assert ticks == ticks[..|ticks| - 1] + [ticks[|ticks| - 1]];
      Next(cfg, Run(cfg, t0, ticks[..|ticks| - 1]), ticks[|ticks| - 1])
  }

  // ------------------------------------------------------------- what a tick needs

  /** Where a run of ticks that leads to the next approval may begin. */
  function Fresh(approvals: seq<nat>): nat {
    if approvals == [] then 0 else approvals[|approvals| - 1] + 1
  }

  /** When the path in use was taken up. */
  ghost function TakenUp(t0: int, ticks: seq<Tick>, approvals: seq<nat>): int
    requires Fresh(approvals) <= |ticks|
  {
    if approvals == [] then t0 else ticks[approvals[|approvals| - 1]].now
  }

  /** Every tick from `from` up to `to` qualifies candidate c. */
  ghost predicate Unbroken(ticks: seq<Tick>, from: nat, to: nat, c: Name)
    requires from <= to <= |ticks|
  {
    forall j :: from <= j < to ==> ticks[j].qualifies && ticks[j].candidate == c
  }

  /** An unbroken run from `from` to tick i that spans the confirmation window. */
  ghost predicate Confirms(cfg: Config, ticks: seq<Tick>, from: nat, i: nat)
    requires from <= i < |ticks|
  {
    Unbroken(ticks, from, i + 1, ticks[i].candidate) && ticks[i].now - ticks[from].now >= cfg.confirmation
  }

  /** What tick i needs, given the approvals before it. */
  ghost predicate Justified(cfg: Config, t0: int, ticks: seq<Tick>, approvals: seq<nat>, i: nat)
    requires Fresh(approvals) <= i < |ticks|
  {
    && (exists from :: Fresh(approvals) <= from <= i && Confirms(cfg, ticks, from, i))
    && ticks[i].now - TakenUp(t0, ticks, approvals) >= cfg.residence
    && (approvals != [] ==> ticks[i].now - TakenUp(t0, ticks, approvals) >= cfg.cooldown)
  }

  ghost predicate Chronological(ticks: seq<Tick>) {
    forall i, j :: 0 <= i <= j < |ticks| ==> ticks[i].now <= ticks[j].now
  }

  // --------------------------------------------------------------- the invariant

  /** The pending fields describe the longest unbroken run that ends now. */
  ghost predicate PendingIs(s: Trace, from: nat) {
    && Fresh(s.approvals) <= from < |s.ticks|
    && s.fields.pendingSince == s.ticks[from].now
    && Unbroken(s.ticks, from, |s.ticks|, s.fields.pendingCandidate)
    && (from == Fresh(s.approvals) || !s.ticks[from - 1].qualifies
        || s.ticks[from - 1].candidate != s.fields.pendingCandidate)
  }

  ghost predicate Inv(t0: int, s: Trace) {
    && Fresh(s.approvals) <= |s.ticks|
    && s.fields.activeSince == TakenUp(t0, s.ticks, s.approvals)
    && (s.fields.haveMigrated <==> s.approvals != [])
    && (s.fields.haveMigrated ==> s.fields.lastMigrationAt == s.fields.activeSince)
    && (s.fields.havePending ==> exists from :: PendingIs(s, from))
    && (!s.fields.havePending ==> Fresh(s.approvals) == |s.ticks| || !s.ticks[|s.ticks| - 1].qualifies)
  }

  /** Where the run that includes the next tick begins. */
  lemma NotedRun(t0: int, s: Trace, t: Tick) returns (from: nat)
    requires Inv(t0, s) && t.qualifies
    ensures PendingIs(Trace(Noted(s.fields, t), s.ticks + [t], s.approvals, s.times), from)
  {
    if !s.fields.havePending || s.fields.pendingCandidate != t.candidate {
      from := |s.ticks|;
      if s.fields.havePending {
        var f :| PendingIs(s, f);
      }
    } else {
      from :| PendingIs(s, from);
    }
  }

  lemma NextKeepsInv(cfg: Config, t0: int, s: Trace, t: Tick)
    requires Inv(t0, s)
    ensures Inv(t0, Next(cfg, s, t))
  {
    if t.qualifies {
      var from := NotedRun(t0, s, t);
    }
  }

  lemma {:induction false} RunKeepsInv(cfg: Config, t0: int, ticks: seq<Tick>)
    ensures Inv(t0, Run(cfg, t0, ticks))
  {
    if ticks != [] {
      RunKeepsInv(cfg, t0, ticks[..|ticks| - 1]);
      NextKeepsInv(cfg, t0, Run(cfg, t0, ticks[..|ticks| - 1]), ticks[|ticks| - 1]);
    }
  }

  // ------------------------------------------------------------------- theorems

  /** An approved tick is justified, whatever the times. */
  lemma ApprovedIsJustified(cfg: Config, t0: int, s: Trace, t: Tick)
    requires Inv(t0, s) && Approves(cfg, s.fields, t)
    ensures Justified(cfg, t0, s.ticks + [t], s.approvals, |s.ticks|)
  {
    var from := NotedRun(t0, s, t);
    assert Confirms(cfg, s.ticks + [t], from, |s.ticks|);
  }

  /** With times that never go back, a justified tick is approved. */
  lemma JustifiedIsApproved(cfg: Config, t0: int, s: Trace, t: Tick)
    requires Inv(t0, s) && Chronological(s.ticks + [t])
    requires Justified(cfg, t0, s.ticks + [t], s.approvals, |s.ticks|)
    ensures Approves(cfg, s.fields, t)
  {
    var ticks := s.ticks + [t];
    var k :| Fresh(s.approvals) <= k <= |s.ticks| && Confirms(cfg, ticks, k, |s.ticks|);
    assert t == ticks[|s.ticks|] && t.qualifies;
    var from := NotedRun(t0, s, t);
    LongestRun(ticks, Fresh(s.approvals), from, k, t.candidate);
  }

  /** No unbroken run that ends now begins before the longest one. */
  lemma LongestRun(ticks: seq<Tick>, first: nat, from: nat, k: nat, c: Name)
    requires first <= from <= |ticks| && first <= k <= |ticks| && Unbroken(ticks, k, |ticks|, c)
    requires from == first || !ticks[from - 1].qualifies || ticks[from - 1].candidate != c
    ensures from <= k
  {
  }

  lemma {:induction false} LaterTicksDoNotMatter(cfg: Config, t0: int, ticks: seq<Tick>, i: nat)
    requires i < |ticks|
    ensures i in Run(cfg, t0, ticks).approvals <==> i in Run(cfg, t0, ticks[..i + 1]).approvals
  {
    if i == |ticks| - 1 {
      assert ticks[..i + 1] == ticks;
    } else {
      var prefix := ticks[..|ticks| - 1];
      assert prefix[..i + 1] == ticks[..i + 1];
      LaterTicksDoNotMatter(cfg, t0, prefix, i);
    }
  }

  /** Tick i is approved exactly when an unbroken run of ticks qualifying its candidate, begun
      after the previous approval, spans the confirmation window up to it, and the path in use
      has been in use for the residence and (after a migration) the cooldown. */
  lemma ApprovedExactly(cfg: Config, t0: int, ticks: seq<Tick>, i: nat)
    requires Chronological(ticks) && i < |ticks|
    ensures var before := Run(cfg, t0, ticks[..i]).approvals;
            && Fresh(before) <= i
            && (i in Run(cfg, t0, ticks).approvals <==> Justified(cfg, t0, ticks[..i + 1], before, i))
  {
    LaterTicksDoNotMatter(cfg, t0, ticks, i);
    var s := Run(cfg, t0, ticks[..i]);
    RunKeepsInv(cfg, t0, ticks[..i]);
    assert ticks[..i + 1][..i] == ticks[..i];
    assert ticks[..i + 1] == s.ticks + [ticks[i]];
    RunApprovals(cfg, t0, ticks[..i]);
    if Approves(cfg, s.fields, ticks[i]) {
      ApprovedIsJustified(cfg, t0, s, ticks[i]);
    } else if Justified(cfg, t0, ticks[..i + 1], s.approvals, i) {
      JustifiedIsApproved(cfg, t0, s, ticks[i]);
    }
  }

  /** The approvals are ticks, in order, and the times theirs. */
  ghost predicate Listed(s: Trace) {
    && |s.approvals| == |s.times|
    && (forall k :: 0 <= k < |s.approvals| ==> s.approvals[k] < |s.ticks| && s.times[k] == s.ticks[s.approvals[k]].now)
    && (forall j, k :: 0 <= j < k < |s.approvals| ==> s.approvals[j] < s.approvals[k])
  }

  lemma {:induction false} RunApprovals(cfg: Config, t0: int, ticks: seq<Tick>)
    ensures Listed(Run(cfg, t0, ticks))
  {
    if ticks != [] {
      RunApprovals(cfg, t0, ticks[..|ticks| - 1]);
    }
  }

  /** One more tick. */
  lemma RunNext(cfg: Config, t0: int, ticks: seq<Tick>, t: Tick)
    ensures var s := Run(cfg, t0, ticks);
            && Run(cfg, t0, ticks + [t]) == Next(cfg, s, t)
            && (|ticks| in Next(cfg, s, t).approvals <==> Approves(cfg, s.fields, t))
            && (Approves(cfg, s.fields, t) ==>
                Fresh(s.approvals) <= |ticks| && Justified(cfg, t0, ticks + [t], s.approvals, |ticks|))
  {
    assert (ticks + [t])[..|ticks|] == ticks;
    RunApprovals(cfg, t0, ticks);
    RunKeepsInv(cfg, t0, ticks);
    if Approves(cfg, Run(cfg, t0, ticks).fields, t) {
      ApprovedIsJustified(cfg, t0, Run(cfg, t0, ticks), t);
    }
  }

  function Gap(times: seq<int>, k: int): int
    requires 0 < k < |times|
  {
    times[k] - times[k - 1]
  }

  /** Every approval is spaced from the one before it, the first from the start. */
  ghost predicate Spaced(cfg: Config, t0: int, times: seq<int>) {
    && (times != [] ==> times[0] - t0 >= cfg.residence)
    && (forall k :: 0 < k < |times| ==> Gap(times, k) >= cfg.residence && Gap(times, k) >= cfg.cooldown)
  }

  lemma {:induction false} RunSpaced(cfg: Config, t0: int, ticks: seq<Tick>)
    ensures Spaced(cfg, t0, Run(cfg, t0, ticks).times)
  {
    if ticks != [] {
      var prefix := ticks[..|ticks| - 1];
      RunSpaced(cfg, t0, prefix);
      RunApprovals(cfg, t0, prefix);
      RunKeepsInv(cfg, t0, prefix);
      SpacedNext(cfg, t0, Run(cfg, t0, prefix), ticks[|ticks| - 1]);
    }
  }

  lemma SpacedNext(cfg: Config, t0: int, s: Trace, t: Tick)
    requires Inv(t0, s) && Listed(s) && Spaced(cfg, t0, s.times)
    ensures Spaced(cfg, t0, Next(cfg, s, t).times)
  {
    var times := Next(cfg, s, t).times;
    forall k | 0 < k < |times| ensures Gap(times, k) >= cfg.residence && Gap(times, k) >= cfg.cooldown {
      if k < |s.times| {
        assert Gap(times, k) == Gap(s.times, k);
      }
    }
  }

  /** Any two approvals are at least the residence apart for every approval from one to the
      other, and likewise for the cooldown. */
  lemma ApprovalsApart(cfg: Config, t0: int, ticks: seq<Tick>, i: nat, j: nat)
    requires i <= j < |Run(cfg, t0, ticks).approvals|
    ensures var s := Run(cfg, t0, ticks);
            && Listed(s)
            && s.times[j] - s.times[i] >= (j - i) * cfg.residence
            && s.times[j] - s.times[i] >= (j - i) * cfg.cooldown
  {
    RunApprovals(cfg, t0, ticks);
    RunSpaced(cfg, t0, ticks);
    SpacedApart(cfg, t0, Run(cfg, t0, ticks).times, i, j);
  }

  lemma {:induction false} SpacedApart(cfg: Config, t0: int, times: seq<int>, i: nat, j: nat)
    requires Spaced(cfg, t0, times) && i <= j < |times|
    ensures times[j] - times[i] >= (j - i) * cfg.residence
    ensures times[j] - times[i] >= (j - i) * cfg.cooldown
  {
    if i < j {
      SpacedApart(cfg, t0, times, i, j - 1);
      assert Gap(times, j) >= cfg.residence;
      Multiple(j - i, cfg.residence);
      Multiple(j - i, cfg.cooldown);
    }
  }

  lemma Multiple(n: int, d: int)
    ensures n * d == (n - 1) * d + d
  {
  }

  /** Until a given time there have been at most as many approvals as residences fit into it. */
  lemma ApprovalsBounded(cfg: Config, t0: int, ticks: seq<Tick>, until: int)
    requires t0 <= until && forall i :: 0 <= i < |ticks| ==> ticks[i].now <= until
    ensures |Run(cfg, t0, ticks).approvals| * cfg.residence <= until - t0
  {
    var s := Run(cfg, t0, ticks);
    RunApprovals(cfg, t0, ticks);
    RunSpaced(cfg, t0, ticks);
    if s.times != [] {
      var last := |s.times| - 1;
      assert s.times[last] == ticks[s.approvals[last]].now;
      SpacedFromStart(cfg, t0, s.times);
    }
  }

  lemma SpacedFromStart(cfg: Config, t0: int, times: seq<int>)
    requires Spaced(cfg, t0, times) && times != []
    ensures times[|times| - 1] - t0 >= |times| * cfg.residence
  {
    SpacedApart(cfg, t0, times, 0, |times| - 1);
    Multiple(|times|, cfg.residence);
  }

  // -------------------------------------------------------------------- the guard

  class Guard {
    const cfg: Config
    const since: int
    var activeSince: int
    var lastMigrationAt: int
    var haveMigrated: bool
    var pendingCandidate: Name
    var pendingSince: int
    var havePending: bool
    ghost var ticks: seq<Tick>

    ghost function Now(): Fields
      reads this
    {
      Fields(activeSince, lastMigrationAt, haveMigrated, pendingCandidate, pendingSince, havePending)
    }

    ghost function Past(): Trace
      reads this`ticks
    {
      Run(cfg, since, ticks)
    }

    ghost predicate Valid()
      reads this
    {
      Now() == Past().fields
    }

    constructor (cfg: Config, now: int)
      ensures Valid() && ticks == [] && this.cfg == cfg && since == now
    {
      this.cfg, since := cfg, now;
      activeSince, lastMigrationAt, haveMigrated := now, 0, false;
      pendingCandidate, pendingSince, havePending := NONAME, 0, false;
      ticks := [];
    }

    /** Records a tick and says whether it is approved. */
    method Evaluate(now: int, qualifies: bool, candidate: Name) returns (approved: bool)
      requires Valid()
      modifies this
      ensures Valid() && ticks == old(ticks) + [Tick(now, qualifies, candidate)]
      ensures approved <==> |old(ticks)| in Past().approvals
      ensures approved ==>
                Fresh(old(Past()).approvals) <= |old(ticks)|
                  && Justified(cfg, since, ticks, old(Past()).approvals, |old(ticks)|)
    {
      RunNext(cfg, since, ticks, Tick(now, qualifies, candidate));
      ticks := ticks + [Tick(now, qualifies, candidate)];
      if !qualifies {
        havePending := false;
        return false;
      }
      if !havePending || pendingCandidate != candidate {
        havePending, pendingCandidate, pendingSince := true, candidate, now;
      }
      if now - pendingSince < cfg.confirmation {
        return false;
      }
      if now - activeSince < cfg.residence {
        return false;
      }
      if haveMigrated && now - lastMigrationAt < cfg.cooldown {
        return false;
      }
      activeSince, lastMigrationAt, haveMigrated, havePending := now, now, true, false;
      return true;
    }
  }
}
