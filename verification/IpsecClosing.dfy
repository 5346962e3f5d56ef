/** Closing an IPsec client: whatever it is in the middle of can be seen through to the end. */
module IpsecClosing {
  import opened Store
  import opened Bypass
  import opened IpsecClient
  import opened IpsecWalk

  /** A closed client whose job j is being undone, at stage k. */
  ghost predicate Retiring(s: Client, t: Client, j: nat, k: nat) {
    && Inv(t) && t.desk.closed && t.cfg == s.cfg && t.jobs.Keys == s.jobs.Keys && t.ring.released == s.ring.released
    && j in t.jobs && Undoing(t.jobs[j].phase) && t.jobs[j].stage == k
  }

  /** A closed client has no peers. */
  lemma NotUp(s: Client, j: nat)
    requires DeskOk(s.desk, s.jobs) && s.desk.closed && j in s.jobs
    ensures s.jobs[j].phase != Up
  {
  }

  lemma FailRetires(s: Client, j: nat)
    requires Inv(s) && s.desk.closed && j in s.jobs
    ensures Retiring(s, Step(s, Fail(j)), j, s.jobs[j].stage)
  {
    NotUp(s, j);
    StepKeepsInv(s, Fail(j));
    FailKeeps(s, j);
  }

  lemma FailKeeps(s: Client, j: nat)
    requires j in s.jobs && s.jobs[j].phase != Up
    ensures var t := Step(s, Fail(j));
            && t.desk.closed == s.desk.closed && t.cfg == s.cfg && t.jobs.Keys == s.jobs.Keys && t.ring == s.ring
            && t.jobs[j].stage == s.jobs[j].stage && Undoing(t.jobs[j].phase)
  {
  }

  lemma UndoRetires(s: Client, t: Client, j: nat, k: nat)
    requires Retiring(s, t, j, k) && k > 0
    ensures Retiring(s, Step(t, Undo(j)), j, k - 1)
  {
    StepKeepsInv(t, Undo(j));
    UndoKeeps(t, j);
  }

  lemma UndoKeeps(s: Client, j: nat)
    requires j in s.jobs && Undoing(s.jobs[j].phase) && s.jobs[j].stage > 0
    ensures var t := Step(s, Undo(j));
            && t.desk == s.desk && t.cfg == s.cfg && t.jobs.Keys == s.jobs.Keys && t.ring.released == s.ring.released
            && t.jobs[j].stage == s.jobs[j].stage - 1 && t.jobs[j].phase == s.jobs[j].phase
  {
  }

  lemma LeaveKeeps(s: Client, j: nat)
    requires j in s.jobs && Undoing(s.jobs[j].phase) && s.jobs[j].stage == 0
    ensures var t := Step(s, Leave(j));
            && t.desk.closed == s.desk.closed && t.cfg == s.cfg && t.jobs == s.jobs - {j} && t.ring == s.ring
  {
  }

  lemma {:induction false} UndosRetire(s: Client, w: Walk, j: nat, k: nat) returns (v: Walk)
    requires w.Ok() && Retiring(s, w.Last(), j, k)
    ensures v.Ok() && v.states[0] == w.states[0] && w.events <= v.events && Retiring(s, v.Last(), j, 0)
    decreases k
  {
    v := w;
    if k > 0 {
      UndoRetires(s, w.Last(), j, k);
      v := Take1(w, Undo(j));
      v := UndosRetire(s, v, j, k - 1);
    }
  }

  /** A closed client, of the same configuration, with these jobs. */
  ghost predicate ClosedWith(s: Client, t: Client, jobs: set<nat>) {
    Inv(t) && t.desk.closed && t.cfg == s.cfg && t.jobs.Keys == jobs && t.ring.released == s.ring.released
  }

  lemma LeaveRetires(s: Client, t: Client, j: nat)
    requires Retiring(s, t, j, 0)
    ensures ClosedWith(s, Step(t, Leave(j)), s.jobs.Keys - {j})
  {
    StepKeepsInv(t, Leave(j));
    LeaveKeeps(t, j);
  }

  /** What a job of a closed client has left to do: fail if it is still adding, undo, leave. */
  lemma RetireOne(s: Client, w: Walk, j: nat) returns (v: Walk)
    requires w.Ok() && w.Last() == s && Inv(s) && s.desk.closed && j in s.jobs
    ensures v.Ok() && v.states[0] == w.states[0] && w.events <= v.events && ClosedWith(s, v.Last(), s.jobs.Keys - {j})
  {
    var u := FailFirst(s, w, j);
    v := RetireRest(s, u, j, s.jobs[j].stage);
  }

  lemma RetireRest(s: Client, w: Walk, j: nat, k: nat) returns (v: Walk)
    requires w.Ok() && Retiring(s, w.Last(), j, k)
    ensures v.Ok() && v.states[0] == w.states[0] && w.events <= v.events && ClosedWith(s, v.Last(), s.jobs.Keys - {j})
  {
    var u := UndosRetire(s, w, j, k);
    v := LeaveLast(s, u, j);
  }

  lemma FailFirst(s: Client, w: Walk, j: nat) returns (v: Walk)
    requires w.Ok() && w.Last() == s && Inv(s) && s.desk.closed && j in s.jobs
    ensures v.Ok() && v.states[0] == w.states[0] && w.events <= v.events && Retiring(s, v.Last(), j, s.jobs[j].stage)
  {
    FailRetires(s, j);
    v := Take1(w, Fail(j));
  }

  lemma LeaveLast(s: Client, w: Walk, j: nat) returns (v: Walk)
    requires w.Ok() && Retiring(s, w.Last(), j, 0)
    ensures v.Ok() && v.states[0] == w.states[0] && w.events <= v.events && ClosedWith(s, v.Last(), s.jobs.Keys - {j})
  {
    LeaveRetires(s, w.Last(), j);
    v := Take1(w, Leave(j));
  }

  /** Every add and teardown of a closed client can be seen through. */
  lemma {:induction false} RetireAll(s: Client, w: Walk) returns (v: Walk)
    requires w.Ok() && w.Last() == s && Inv(s) && s.desk.closed
    ensures v.Ok() && v.states[0] == w.states[0] && w.events <= v.events && ClosedWith(s, v.Last(), {})
    decreases |s.jobs.Keys|
  {
    v := w;
    if s.jobs.Keys != {} {
      var j :| j in s.jobs.Keys;
      v := RetireOne(s, w, j);
      Fewer(s.jobs.Keys, v.Last().jobs.Keys, j);
      v := RetireAll(v.Last(), v);
    }
  }

  lemma Fewer(a: set<nat>, b: set<nat>, j: nat)
    requires j in a && b == a - {j}
    ensures |b| < |a|
  {
  }

  /** And so can the release of the controllers' routes. */
  ghost predicate Released(s: Client, t: Client, n: nat) {
    Inv(t) && t.desk.closed && t.cfg == s.cfg && t.jobs == map[] && t.ring.released == s.ring.released + n
  }

  lemma ReleaseNext(s: Client, t: Client, n: nat)
    requires Released(s, t, n) && s.cfg.full && s.ring.released + n < |s.cfg.controllers|
    ensures Released(s, Step(t, ReleaseController), n + 1)
  {
    StepKeepsInv(t, ReleaseController);
    ReleaseKeeps(t);
  }

  lemma ReleaseKeeps(s: Client)
    requires s.desk.closed && s.cfg.full && s.ring.released < |s.cfg.controllers|
    ensures var t := Step(s, ReleaseController);
            t.desk == s.desk && t.cfg == s.cfg && t.jobs == s.jobs && t.ring.released == s.ring.released + 1
  {
  }

  lemma {:induction false} ReleaseAll(s: Client, w: Walk, n: nat) returns (v: Walk)
    requires w.Ok() && Released(s, w.Last(), n) && s.cfg.full && s.ring.released + n <= |s.cfg.controllers|
    ensures v.Ok() && v.states[0] == w.states[0] && w.events <= v.events
            && Released(s, v.Last(), |s.cfg.controllers| - s.ring.released)
    decreases |s.cfg.controllers| - n
  {
    v := w;
    if s.ring.released + n < |s.cfg.controllers| {
      ReleaseNext(s, w.Last(), n);
      v := Take1(w, ReleaseController);
      v := ReleaseAll(s, v, n + 1);
    }
  }

  lemma CloseStep(s: Client)
    requires Inv(s)
    ensures var t := Step(s, Close); Inv(t) && t.desk.closed && t.cfg == s.cfg && t.ring.released == s.ring.released
  {
    StepKeepsInv(s, Close);
  }

  lemma CloseWalk(s: Client) returns (w: Walk)
    requires Inv(s)
    ensures w.Ok() && w.states[0] == s && |w.events| > 0 && w.events[0] == Close
    ensures var t := w.Last();
            && Inv(t) && t.desk.closed && t.jobs == map[] && t.cfg == s.cfg
            && (s.cfg.full ==> t.ring.released == |s.cfg.controllers|)
  {
    CloseStep(s);
    w := Take1(At(s), Close);
    w := RetireAll(w.Last(), w);
    if s.cfg.full {
      w := ReleaseAll(w.Last(), w, 0);
    }
  }

  /** Once closed, a client can always be seen through to the end: after any run, some continuation
      that begins with Close leaves the host as it was before the client. */
  lemma CloseReturnsAll(s: Client, events: seq<Event>) returns (rest: seq<Event>)
    requires Fresh(s)
    ensures rest != [] && rest[0] == Close
    ensures var r := Run(s, events + rest);
            && r.desk.closed && r.jobs == map[]
            && r.host == Host(map[], map[], map[], map[], None) && r.ring.table == Table(map[], s.cfg.initial)
  {
    RunKeepsInv(s, events);
    SameConfig(s, events);
    var w := CloseWalk(Run(s, events));
    WalkRuns(s, events, w);
    rest := w.events;
    AllReturned(s, events + rest);
  }

  lemma {:induction false} SameConfig(s: Client, events: seq<Event>)
    ensures Run(s, events).cfg == s.cfg
  {
    if events != [] {
      SameConfig(s, events[..|events| - 1]);
    }
  }
}
