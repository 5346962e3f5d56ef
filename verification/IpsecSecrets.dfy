/** Adding a gateway again while an earlier add of it rolls back: exactly when the peers keep
    their secrets and connections. */
module IpsecSecrets {
  import opened Ownership
  import opened Bypass
  import opened IpsecClient
  import opened IpsecWalk

  /** A failed add that has yet to unload its secret. */
  predicate StillLoaded(job: Job) {
    job.phase == Rolling && job.stage >= 3
  }

  /** An add starts only when no failed add of its name, with another if_id, has yet to unload
      its secret. */
  ghost predicate Clear(s: Client, name: Name, ifID: nat) {
    forall j :: j in s.jobs && s.jobs[j].name == name && s.jobs[j].ifID != ifID ==> !StillLoaded(s.jobs[j])
  }

  ghost predicate Disciplined(s: Client, e: Event) {
    e.Start? && CanStart(s.desk, e.name, e.ifID) ==> Clear(s, e.name, e.ifID)
  }

  ghost predicate DisciplinedRun(s: Client, events: seq<Event>) {
    events == [] ||
    (DisciplinedRun(s, events[..|events| - 1]) && Disciplined(Run(s, events[..|events| - 1]), events[|events| - 1]))
  }

  // ------------------------------------------------------------------- sufficiency

  /** Every job that got to a stage has its own entry. */
  ghost predicate Loaded(m: map<Name, nat>, jobs: Jobs, at: nat) {
    forall j :: j in jobs && jobs[j].stage >= at ==> jobs[j].name in m && m[jobs[j].name] == j
  }

  /** A job has the if_id its name was last added with, or its secret is gone for good. */
  ghost predicate OneIf(ifOf: map<Name, nat>, jobs: Jobs) {
    forall j :: j in jobs ==>
      jobs[j].name in ifOf && (ifOf[jobs[j].name] == jobs[j].ifID || (jobs[j].phase == Rolling && jobs[j].stage <= 2))
  }

  ghost predicate Kept(s: Client) {
    OneIf(s.ifOf, s.jobs) && Loaded(s.host.secrets, s.jobs, 3) && Loaded(s.host.conns, s.jobs, 4)
  }

  /** No other job of j's name has a secret. */
  ghost predicate Alone(jobs: Jobs, j: nat)
    requires j in jobs
  {
    forall k :: k in jobs && k != j && jobs[k].name == jobs[j].name ==> jobs[k].stage <= 2
  }

  lemma OneWithName(m: map<nat, nat>, ifOf: map<Name, nat>, jobs: Jobs, j: nat)
    requires Interfaces(m, jobs) && OneIf(ifOf, jobs) && j in jobs && jobs[j].stage >= 1
    requires jobs[j].phase != Rolling || jobs[j].stage >= 3
    ensures Alone(jobs, j)
  {
  }

  lemma PutLoaded(m: map<Name, nat>, jobs: Jobs, at: nat, j: nat)
    requires Loaded(m, jobs, at) && j in jobs && at >= 3 && (jobs[j].stage + 1 == at ==> Alone(jobs, j))
    ensures Loaded(Put(m, j, jobs[j], at), WithStage(jobs, j, jobs[j].stage + 1), at)
  {
  }

  lemma TakeLoaded(m: map<Name, nat>, jobs: Jobs, at: nat, j: nat)
    requires Loaded(m, jobs, at) && j in jobs && at >= 3 && jobs[j].stage > 0
             && (jobs[j].stage == at ==> Alone(jobs, j))
    ensures Loaded(Take(m, jobs[j], at), WithStage(jobs, j, jobs[j].stage - 1), at)
  {
  }

  lemma PhaseKept(s: Client, j: nat, phase: Phase)
    requires Kept(s) && j in s.jobs && s.jobs[j].phase != Rolling
    ensures var now := WithPhase(s.jobs, j, phase);
            OneIf(s.ifOf, now) && Loaded(s.host.secrets, now, 3) && Loaded(s.host.conns, now, 4)
  {
  }

  lemma StartKept(s: Client, name: Name, ifID: nat, addr: Addr)
    requires Inv(s) && Kept(s) && CanStart(s.desk, name, ifID) && Clear(s, name, ifID)
    ensures Kept(Started(s, name, ifID, addr))
  {
    var job := Job(name, ifID, addr, 0, Bringing);
    forall j | j in s.jobs && s.jobs[j].name == name ensures s.jobs[j].phase == Rolling {
      NameIsFree(s.desk, s.jobs, j);
    }
    StartOneIf(s.ifOf, s.jobs, s.next, job);
  }

  /** A name that may be added belongs to failed adds only. */
  lemma NameIsFree(d: Desk, jobs: Jobs, j: nat)
    requires DeskOk(d, jobs) && j in jobs && !d.closed && jobs[j].name !in d.peers && jobs[j].name !in d.pending
    ensures jobs[j].phase == Rolling
  {
    assert jobs[j].phase != Closing;
  }

  lemma StartOneIf(ifOf: map<Name, nat>, jobs: Jobs, j: nat, job: Job)
    requires OneIf(ifOf, jobs)
    requires forall k :: k in jobs && jobs[k].name == job.name ==>
               jobs[k].phase == Rolling && (jobs[k].ifID == job.ifID || jobs[k].stage <= 2)
    ensures OneIf(ifOf[job.name := job.ifID], jobs[j := job])
  {
  }

  lemma AdvanceKept(s: Client, j: nat, ok: bool)
    requires Interfaces(s.host.ifaces, s.jobs) && Kept(s) && Adding(s, j) && s.jobs[j].stage < 5
    ensures Kept(Advanced(s, j, ok))
  {
    if Blocked(s.host, s.jobs[j], ok) || Joined(s.cfg, s.ring, j, s.jobs[j], ok).None? {
      PhaseKept(s, j, Rolling);
    } else {
      if s.jobs[j].stage >= 1 {
        OneWithName(s.host.ifaces, s.ifOf, s.jobs, j);
      }
      PutLoaded(s.host.secrets, s.jobs, 3, j);
      PutLoaded(s.host.conns, s.jobs, 4, j);
    }
  }

  lemma UndoOneIf(ifOf: map<Name, nat>, jobs: Jobs, j: nat)
    requires OneIf(ifOf, jobs) && j in jobs && jobs[j].stage > 0
    ensures OneIf(ifOf, WithStage(jobs, j, jobs[j].stage - 1))
  {
  }

  lemma UndoKept(s: Client, j: nat)
    requires Interfaces(s.host.ifaces, s.jobs) && Kept(s) && j in s.jobs && Undoing(s.jobs[j].phase)
             && s.jobs[j].stage > 0
    ensures Kept(Undone(s, j))
  {
    if s.jobs[j].stage >= 3 {
      OneWithName(s.host.ifaces, s.ifOf, s.jobs, j);
    }
    UndoOneIf(s.ifOf, s.jobs, j);
    TakeLoaded(s.host.secrets, s.jobs, 3, j);
    TakeLoaded(s.host.conns, s.jobs, 4, j);
  }

  lemma CloseKept(s: Client)
    requires Kept(s)
    ensures Kept(Closed(s))
  {
  }

  lemma FinishKept(s: Client, j: nat)
    requires Kept(s) && Adding(s, j)
    ensures Kept(Finished(s, j))
  {
    PhaseKept(s, j, Rolling);
    PhaseKept(s, j, Up);
  }

  lemma LeaveKept(s: Client, j: nat)
    requires Kept(s) && j in s.jobs
    ensures Kept(Left(s, j))
  {
  }

  lemma RemoveKept(s: Client, name: Name)
    requires PeersOk(s.desk.peers, s.jobs) && Kept(s) && name in s.desk.peers
    ensures s.desk.peers[name] in s.jobs && Kept(Removed(s, name, s.desk.peers[name]))
  {
    assert Up1(s.jobs, s.desk.peers[name], name);
    PhaseKept(s, s.desk.peers[name], Removing);
  }

  /** Events that change no job, secret or connection. */
  lemma OthersKept(s: Client, e: Event)
    requires Kept(s) && (e.CheckPromote? || e.Route? || e.ClearRoutes? || e.ReleaseController?)
    ensures Kept(Step(s, e))
  {
    var t := Step(s, e);
    assert t.jobs == s.jobs && t.ifOf == s.ifOf && t.host.secrets == s.host.secrets && t.host.conns == s.host.conns;
  }

  lemma StartStepKept(s: Client, e: Event)
    requires Inv(s) && Kept(s) && e.Start? && Disciplined(s, e)
    ensures Kept(Step(s, e))
  {
    if CanStart(s.desk, e.name, e.ifID) {
      StartKept(s, e.name, e.ifID, e.addr);
    }
  }

  lemma AddStepKept(s: Client, e: Event)
    requires Interfaces(s.host.ifaces, s.jobs) && Kept(s) && (e.Advance? || e.Fail? || e.Finish?)
    ensures Kept(Step(s, e))
  {
    if Adding(s, e.j) {
      if e.Advance? && s.jobs[e.j].stage < 5 {
        AdvanceKept(s, e.j, e.ok);
      } else if e.Fail? {
        PhaseKept(s, e.j, Rolling);
      } else if e.Finish? {
        FinishKept(s, e.j);
      }
    }
  }

  lemma UndoStepKept(s: Client, e: Event)
    requires Interfaces(s.host.ifaces, s.jobs) && Kept(s) && (e.Undo? || e.Leave?)
    ensures Kept(Step(s, e))
  {
    if e.j in s.jobs && Undoing(s.jobs[e.j].phase) {
      if s.jobs[e.j].stage > 0 {
        UndoKept(s, e.j);
      } else {
        LeaveKept(s, e.j);
      }
    }
  }

  lemma PeerStepKept(s: Client, e: Event)
    requires PeersOk(s.desk.peers, s.jobs) && Kept(s) && (e.Remove? || e.Close?)
    ensures Kept(Step(s, e))
  {
    if e.Close? {
      CloseKept(s);
    } else if e.name in s.desk.peers {
      RemoveKept(s, e.name);
    }
  }

  lemma StepKept(s: Client, e: Event)
    requires Inv(s) && Kept(s) && Disciplined(s, e)
    ensures Kept(Step(s, e))
  {
    if e.Start? {
      StartStepKept(s, e);
    } else if e.Advance? || e.Fail? || e.Finish? {
      AddStepKept(s, e);
    } else if e.Undo? || e.Leave? {
      UndoStepKept(s, e);
    } else if e.Remove? || e.Close? {
      PeerStepKept(s, e);
    } else {
      OthersKept(s, e);
    }
  }

  lemma {:induction false} RunKept(s: Client, events: seq<Event>)
    requires Inv(s) && Kept(s) && DisciplinedRun(s, events)
    ensures Kept(Run(s, events))
  {
    if events != [] {
      var init := events[..|events| - 1];
      RunKept(s, init);
      RunKeepsInv(s, init);
      StepKept(Run(s, init), events[|events| - 1]);
    }
  }

  /** Then secrets and connections are exactly those of the jobs that loaded theirs. */
  lemma ResourcesExact(s: Client, events: seq<Event>)
    requires Fresh(s) && DisciplinedRun(s, events)
    ensures var r := Run(s, events);
            && (forall n :: n in r.host.secrets <==> exists j :: Reached(r.jobs, j, n, 3))
            && (forall n :: n in r.host.conns <==> exists j :: Reached(r.jobs, j, n, 4))
  {
    RunKeepsInv(s, events);
    RunKept(s, events);
  }

  /** And a peer has everything an add sets up, under its own name and if_id. */
  lemma PeersComplete(s: Client, events: seq<Event>, name: Name)
    requires Fresh(s) && DisciplinedRun(s, events) && name in Run(s, events).desk.peers
    ensures var r := Run(s, events);
            var j := r.desk.peers[name];
            && Up1(r.jobs, j, name) && r.jobs[j].ifID in r.host.ifaces && r.host.ifaces[r.jobs[j].ifID] == j
            && name in r.host.secrets && r.host.secrets[name] == j && name in r.host.conns && r.host.conns[name] == j
            && (r.cfg.full ==> r.jobs[j].addr in r.ring.table.entries)
  {
    RunKeepsInv(s, events);
    RunKept(s, events);
    var r := Run(s, events);
    assert Up1(r.jobs, r.desk.peers[name], name);
    if r.cfg.full {
      BypassHeld(r.cfg, r.ring, r.jobs, r.desk.peers[name]);
    }
  }

  lemma BypassHeld(cfg: Config, r: Ring, jobs: Jobs, j: nat)
    requires Ringed(cfg, r, jobs) && cfg.full && j in jobs && jobs[j].stage >= 2
    ensures jobs[j].addr in r.table.entries
  {
    assert Peer(j) in r.held;
    assert Peer(j) in Users(r.held, jobs[j].addr);
    assert EntryOk(r.table, cfg.initial, Users(r.held, jobs[j].addr), jobs[j].addr);
  }

  /** A caller who adds a gateway only when no other add of it is still running is disciplined. */
  ghost predicate Serial(s: Client, events: seq<Event>) {
    events == [] ||
    (var r, e := Run(s, events[..|events| - 1]), events[|events| - 1];
     Serial(s, events[..|events| - 1])
       && (e.Start? ==> forall j :: j in r.jobs && r.jobs[j].name == e.name ==> !Running(r.jobs[j].phase)))
  }

  predicate Running(p: Phase) {
    p == Bringing || p == Rolling
  }

  lemma {:induction false} SerialIsDisciplined(s: Client, events: seq<Event>)
    requires Serial(s, events)
    ensures DisciplinedRun(s, events)
  {
    if events != [] {
      SerialIsDisciplined(s, events[..|events| - 1]);
    }
  }

  // ------------------------------------------------------------------- necessity

  ghost predicate NoStart(events: seq<Event>) {
    forall i :: 0 <= i < |events| ==> !events[i].Start?
  }

  /** A walk without a new add. */
  ghost predicate Quiet(w: Walk) {
    w.Ok() && NoStart(w.events)
  }

  lemma UndoOnce(s: Client, q: nat)
    requires q in s.jobs && Undoing(s.jobs[q].phase) && s.jobs[q].stage > 0
    ensures var t := Step(s, Undo(q)); t.jobs == WithStage(s.jobs, q, s.jobs[q].stage - 1) && t.desk == s.desk
    ensures s.jobs[q].stage == 3 ==> s.jobs[q].name !in Step(s, Undo(q)).host.secrets
  {
  }

  lemma {:induction false} Undos(w: Walk, q: nat, n: nat) returns (v: Walk)
    requires Quiet(w) && q in w.Last().jobs && Undoing(w.Last().jobs[q].phase) && n <= w.Last().jobs[q].stage
    ensures Quiet(v) && v.states[0] == w.states[0] && v.Last().desk == w.Last().desk
    ensures v.Last().jobs == WithStage(w.Last().jobs, q, w.Last().jobs[q].stage - n)
  {
    if n == 0 {
      v := w;
      assert WithStage(w.Last().jobs, q, w.Last().jobs[q].stage) == w.Last().jobs;
    } else {
      var u := Undos(w, q, n - 1);
      UndoOnce(u.Last(), q);
      v := Take1(u, Undo(q));
    }
  }

  lemma AdvanceOnce(s: Client, j: nat)
    requires Adding(s, j) && s.jobs[j].stage < 5 && (s.jobs[j].stage == 0 ==> s.jobs[j].ifID !in s.host.ifaces)
    ensures var t := Step(s, Advance(j, true));
            && t.jobs == WithStage(s.jobs, j, s.jobs[j].stage + 1) && t.desk == s.desk
            && (s.jobs[j].stage != 2 ==> t.host.secrets == s.host.secrets)
  {
  }

  lemma {:induction false} Advances(w: Walk, j: nat, n: nat) returns (v: Walk)
    requires Quiet(w) && Adding(w.Last(), j) && w.Last().jobs[j].stage + n <= 5
    requires w.Last().jobs[j].stage == 0 ==> w.Last().jobs[j].ifID !in w.Last().host.ifaces
    ensures Quiet(v) && v.states[0] == w.states[0] && v.Last().desk == w.Last().desk
    ensures v.Last().jobs == WithStage(w.Last().jobs, j, w.Last().jobs[j].stage + n)
    ensures w.Last().jobs[j].stage >= 3 ==> v.Last().host.secrets == w.Last().host.secrets
    ensures n == 0 ==> v == w
  {
    if n == 0 {
      v := w;
      assert WithStage(w.Last().jobs, j, w.Last().jobs[j].stage) == w.Last().jobs;
    } else {
      var u := Advances(w, j, n - 1);
      AdvanceOnce(u.Last(), j);
      v := Take1(u, Advance(j, true));
    }
  }

  lemma WalkKeepsInv(w: Walk)
    requires Quiet(w) && Inv(w.states[0])
    ensures Inv(w.Last())
  {
    WalkIsRun(w);
    RunKeepsInv(w.states[0], w.events);
  }

  /** Add j of a name is at a stage while the failed add r of it, with another if_id, has yet to
      unload its secret. */
  ghost predicate Overlap(s: Client, j: nat, r: nat, stage: nat) {
    && !s.desk.closed && j in s.jobs && r in s.jobs && j != r
    && s.jobs[j].name == s.jobs[r].name && s.jobs[j].ifID != s.jobs[r].ifID
    && s.jobs[j].phase == Bringing && s.jobs[j].stage == stage && StillLoaded(s.jobs[r])
  }

  /** An interface in the way of an add is a failed add's. */
  lemma OwnerIsRolling(m: map<nat, nat>, ids: map<nat, nat>, jobs: Jobs, j: nat)
    requires Interfaces(m, jobs) && IdsOk(ids, jobs) && j in jobs && jobs[j].phase == Bringing && jobs[j].stage == 0
             && jobs[j].ifID in m
    ensures var q := m[jobs[j].ifID]; q in jobs && jobs[q].phase == Rolling && q != j && Owns(jobs, q, jobs[j].ifID)
  {
    var q := m[jobs[j].ifID];
    assert Owns(jobs, q, jobs[j].ifID) && ids[jobs[j].ifID] == j;
  }

  /** And it deletes it. */
  lemma MakeRoom(s: Client, j: nat, r: nat) returns (w: Walk)
    requires Inv(s) && Overlap(s, j, r, 0)
    ensures Quiet(w) && w.states[0] == s
    ensures Overlap(w.Last(), j, r, 0) && w.Last().jobs[j] == s.jobs[j]
            && w.Last().jobs[j].ifID !in w.Last().host.ifaces
  {
    w := At(s);
    if s.jobs[j].ifID in s.host.ifaces {
      OwnerIsRolling(s.host.ifaces, s.desk.ifIDs, s.jobs, j);
      w := Evict(s, s.host.ifaces[s.jobs[j].ifID]);
    }
  }

  lemma Evict(s: Client, q: nat) returns (w: Walk)
    requires Inv(s) && q in s.jobs && s.jobs[q].phase == Rolling && Owns(s.jobs, q, s.jobs[q].ifID)
    ensures Quiet(w) && w.states[0] == s && w.Last().desk == s.desk && w.Last().jobs == WithStage(s.jobs, q, 0)
    ensures s.jobs[q].ifID !in w.Last().host.ifaces
  {
    w := Undos(At(s), q, s.jobs[q].stage);
    WalkKeepsInv(w);
    InterfaceGone(s.host.ifaces, s.jobs, q, w.Last().host.ifaces, w.Last().jobs);
  }

  lemma InterfaceGone(m: map<nat, nat>, jobs: Jobs, q: nat, now: map<nat, nat>, after: Jobs)
    requires q in jobs && Owns(jobs, q, jobs[q].ifID) && Interfaces(m, jobs) && Interfaces(now, after)
             && after == WithStage(jobs, q, 0)
    ensures jobs[q].ifID !in now
  {
  }

  /** The new add loads its secret; the failed one unloads it; the new one completes. */
  lemma LoseIt(w: Walk, j: nat, r: nat) returns (v: Walk)
    requires Quiet(w) && Overlap(w.Last(), j, r, 0) && w.Last().jobs[j].ifID !in w.Last().host.ifaces
    ensures Quiet(v) && v.states[0] == w.states[0]
    ensures var n := w.Last().jobs[j].name; n in v.Last().desk.peers && n !in v.Last().host.secrets
  {
    v := Advances(w, j, 3);
    v := Undos(v, r, w.Last().jobs[r].stage - 3);
    UndoOnce(v.Last(), r);
    v := Take1(v, Undo(r));
    v := Advances(v, j, 2);
    FinishOnce(v.Last(), j);
    v := Take1(v, Finish(j));
  }

  lemma FinishOnce(s: Client, j: nat)
    requires Adding(s, j) && s.jobs[j].stage == 5 && !s.desk.closed
    ensures s.jobs[j].name in Step(s, Finish(j)).desk.peers && Step(s, Finish(j)).host == s.host
  {
  }

  /** Whatever else is going on, such an add can go on to become a peer without a secret. */
  lemma OverlapCanCostASecret(s: Client, j: nat, r: nat) returns (w: Walk)
    requires Inv(s) && Overlap(s, j, r, 0)
    ensures Quiet(w) && w.states[0] == s && s.jobs[j].name in w.Last().desk.peers
            && s.jobs[j].name !in w.Last().host.secrets
  {
    w := MakeRoom(s, j, r);
    w := LoseIt(w, j, r);
  }

  ghost predicate PeersHaveSecrets(s: Client) {
    forall n :: n in s.desk.peers ==> n in s.host.secrets && s.host.secrets[n] == s.desk.peers[n]
  }

  lemma {:induction false} NoStartIsDisciplined(s: Client, events: seq<Event>)
    requires NoStart(events)
    ensures DisciplinedRun(s, events)
  {
    if events != [] {
      NoStartIsDisciplined(s, events[..|events| - 1]);
    }
  }

  lemma KeptPeers(s: Client)
    requires Inv(s) && Kept(s)
    ensures PeersHaveSecrets(s)
  {
    forall n | n in s.desk.peers ensures n in s.host.secrets && s.host.secrets[n] == s.desk.peers[n] {
      assert Up1(s.jobs, s.desk.peers[n], n);
    }
  }

  lemma ClearStartIsSafe(s: Client, events: seq<Event>)
    requires Inv(s) && Kept(s) && NoStart(events)
    ensures PeersHaveSecrets(Run(s, events))
  {
    NoStartIsDisciplined(s, events);
    RunKept(s, events);
    RunKeepsInv(s, events);
    KeptPeers(Run(s, events));
  }

  /** What follows, short of another add, leaves every peer its secret. */
  ghost predicate Safe(s: Client) {
    forall events :: NoStart(events) ==> PeersHaveSecrets(Run(s, events))
  }

  lemma WalkEndsUnsafe(w: Walk)
    requires Quiet(w) && !PeersHaveSecrets(w.Last())
    ensures !Safe(w.states[0])
  {
    WalkIsRun(w);
  }

  lemma StartedOverlaps(s: Client, name: Name, ifID: nat, addr: Addr, r: nat)
    requires Numbered(s.jobs, s.next) && CanStart(s.desk, name, ifID)
    requires r in s.jobs && s.jobs[r].name == name && s.jobs[r].ifID != ifID && StillLoaded(s.jobs[r])
    ensures Overlap(Started(s, name, ifID, addr), s.next, r, 0)
  {
  }

  /** An add may start safely exactly when no failed add of its name with another if_id has yet
      to unload its secret. */
  lemma StartSafeExactly(s: Client, name: Name, ifID: nat, addr: Addr)
    requires Inv(s) && Kept(s) && CanStart(s.desk, name, ifID)
    ensures Safe(Step(s, Start(name, ifID, addr))) <==> Clear(s, name, ifID)
  {
    var t := Started(s, name, ifID, addr);
    StartKeepsInv(s, name, ifID, addr);
    if Clear(s, name, ifID) {
      StartKept(s, name, ifID, addr);
      forall events | NoStart(events) ensures PeersHaveSecrets(Run(t, events)) {
        ClearStartIsSafe(t, events);
      }
    } else {
      var r :| r in s.jobs && s.jobs[r].name == name && s.jobs[r].ifID != ifID && StillLoaded(s.jobs[r]);
      StartedOverlaps(s, name, ifID, addr, r);
      var w := OverlapCanCostASecret(t, s.next, r);
      WalkEndsUnsafe(w);
    }
  }

  const GATEWAY: Name := Name("gw")

  /** An add of a gateway that fails once its secret is loaded. */
  function Broken(s: Client): Client {
    Step(Step(Step(Step(Step(s, Start(GATEWAY, 1, 0)), Advance(s.next, true)), Advance(s.next, true)),
              Advance(s.next, true)), Fail(s.next))
  }

  lemma BrokenIs(s: Client)
    requires Fresh(s)
    ensures Broken(s).jobs == map[s.next := Job(GATEWAY, 1, 0, 3, Rolling)] && CanStart(Broken(s).desk, GATEWAY, 2)
  {
    var a := Step(s, Start(GATEWAY, 1, 0));
    AdvanceOnce(a, s.next);
    var b := Step(a, Advance(s.next, true));
    AdvanceOnce(b, s.next);
    var c := Step(b, Advance(s.next, true));
    AdvanceOnce(c, s.next);
    var d := Step(c, Advance(s.next, true));
    assert d.jobs == map[s.next := Job(GATEWAY, 1, 0, 3, Bringing)] && d.desk == a.desk;
  }

  /** From a new client: while it waits to roll back, adding the gateway again under another
      if_id can leave a peer without a secret. */
  lemma ReAddCanLoseItsSecret(s: Client)
    requires Fresh(s)
    ensures CanStart(Broken(s).desk, GATEWAY, 2) && !Safe(Step(Broken(s), Start(GATEWAY, 2, 0)))
  {
    BrokenIs(s);
    BrokenKeeps(s);
    StartSafeExactly(Broken(s), GATEWAY, 2, 0);
  }

  lemma BrokenKeeps(s: Client)
    requires Fresh(s)
    ensures Inv(Broken(s)) && Kept(Broken(s))
  {
    var a := Step(s, Start(GATEWAY, 1, 0));
    Both(s, Start(GATEWAY, 1, 0));
    var b := Step(a, Advance(s.next, true));
    Both(a, Advance(s.next, true));
    var c := Step(b, Advance(s.next, true));
    Both(b, Advance(s.next, true));
    var d := Step(c, Advance(s.next, true));
    Both(c, Advance(s.next, true));
    Both(d, Fail(s.next));
  }

  lemma Both(s: Client, e: Event)
    requires Inv(s) && Kept(s) && Disciplined(s, e)
    ensures Inv(Step(s, e)) && Kept(Step(s, e))
  {
    StepKeepsInv(s, e);
    StepKept(s, e);
  }
}
