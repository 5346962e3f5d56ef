/** Adding a gateway that nothing disturbs, and removing it again. */
module IpsecRoundTrip {
  import opened Ownership
  import opened Store
  import opened Bypass
  import opened IpsecClient
  import opened IpsecWalk

  /** An add can start and nothing of its name or if_id is left on the host. */
  ghost predicate CanAdd(s: Client, name: Name, ifID: nat) {
    && CanStart(s.desk, name, ifID) && s.desk.active != name
    && ifID !in s.host.ifaces && name !in s.host.secrets && name !in s.host.conns && name !in s.host.sas
    && s.next !in s.jobs && Peer(s.next) !in s.ring.held && s.host.routed != Some(ifID)
  }

  /** The host of `s` with the first k things of an add: its interface, bypass route, secret,
      connection and association. */
  function HostWith(h: Host, j: nat, name: Name, ifID: nat, k: nat): Host {
    Host(if k >= 1 then h.ifaces[ifID := j] else h.ifaces,
         if k >= 3 then h.secrets[name := j] else h.secrets,
         if k >= 4 then h.conns[name := j] else h.conns,
         if k >= 5 then h.sas[name := j] else h.sas,
         h.routed)
  }

  function RingWith(s: Client, addr: Addr, k: nat): Ring {
    if k >= 2 && s.cfg.full
    then Ring(Acquired(s.ring.table, addr), s.ring.held[Peer(s.next) := addr], s.ring.released)
    else s.ring
  }

  /** A bypass route with one more user. */
  function Acquired(t: Table, a: Addr): Table {
    if a in t.entries then Table(t.entries[a := Shared(t.entries[a].owned, t.entries[a].refs + 1)], t.host)
    else Table(t.entries[a := Shared(a !in t.host, 1)], t.host + {a})
  }

  /** The client `s` once an add, or its removal, stands at k. */
  function Standing(s: Client, name: Name, ifID: nat, addr: Addr, k: nat, phase: Phase, desk: Desk): Client {
    Client(s.cfg, s.jobs[s.next := Job(name, ifID, addr, k, phase)], s.next + 1, s.ifOf[name := ifID], desk,
           HostWith(s.host, s.next, name, ifID, k), RingWith(s, addr, k), s.checked)
  }

  /** The fields while the name is pending, and once it is a peer. */
  function PendingDesk(s: Client, name: Name, ifID: nat): Desk {
    Desk(s.desk.peers, s.desk.pending[name := s.next], s.desk.ifIDs[ifID := s.next], s.desk.active, s.desk.closed)
  }

  function PeerDesk(s: Client, name: Name, ifID: nat): Desk {
    Desk(s.desk.peers[name := s.next], s.desk.pending, s.desk.ifIDs[ifID := s.next], s.desk.active, s.desk.closed)
  }

  lemma StartStands(s: Client, name: Name, ifID: nat, addr: Addr)
    requires CanAdd(s, name, ifID)
    ensures Step(s, Start(name, ifID, addr)) == Standing(s, name, ifID, addr, 0, Bringing, PendingDesk(s, name, ifID))
  {
  }

  lemma BuiltNext(h: Host, j: nat, job: Job)
    requires job.stage < 5
    ensures Built(HostWith(h, j, job.name, job.ifID, job.stage), j, job, true)
            == HostWith(h, j, job.name, job.ifID, job.stage + 1)
  {
  }

  lemma JoinedNext(s: Client, job: Job)
    requires job.stage < 5
    ensures Joined(s.cfg, RingWith(s, job.addr, job.stage), s.next, job, true) ==
            Some(RingWith(s, job.addr, job.stage + 1))
  {
    assert job.addr in s.ring.table.host ==> s.ring.table.host + {job.addr} == s.ring.table.host;
  }

  lemma AdvanceStands(s: Client, name: Name, ifID: nat, addr: Addr, k: nat)
    requires CanAdd(s, name, ifID) && k < 5
    ensures var desk := PendingDesk(s, name, ifID);
            Step(Standing(s, name, ifID, addr, k, Bringing, desk), Advance(s.next, true))
            == Standing(s, name, ifID, addr, k + 1, Bringing, desk)
  {
    var job := Job(name, ifID, addr, k, Bringing);
    BuiltNext(s.host, s.next, job);
    JoinedNext(s, job);
    var was := Standing(s, name, ifID, addr, k, Bringing, PendingDesk(s, name, ifID));
    assert was.jobs[s.next] == job && !Blocked(was.host, job, true);
    assert WithStage(was.jobs, s.next, k + 1) == s.jobs[s.next := Job(name, ifID, addr, k + 1, Bringing)];
  }

  lemma FinishStands(s: Client, name: Name, ifID: nat, addr: Addr)
    requires CanAdd(s, name, ifID)
    ensures Step(Standing(s, name, ifID, addr, 5, Bringing, PendingDesk(s, name, ifID)), Finish(s.next))
            == Standing(s, name, ifID, addr, 5, Up, PeerDesk(s, name, ifID))
  {
    assert s.desk.pending[name := s.next] - {name} == s.desk.pending;
    var adding := Standing(s, name, ifID, addr, 5, Bringing, PendingDesk(s, name, ifID));
    assert Step(adding, Finish(s.next)) == Finished(adding, s.next);
    assert WithPhase(adding.jobs, s.next, Up) == s.jobs[s.next := Job(name, ifID, addr, 5, Up)];
  }

  lemma RemoveStands(s: Client, name: Name, ifID: nat, addr: Addr)
    requires CanAdd(s, name, ifID)
    ensures Step(Standing(s, name, ifID, addr, 5, Up, PeerDesk(s, name, ifID)), Remove(name))
            == Standing(s, name, ifID, addr, 5, Removing, PendingDesk(s, name, ifID))
  {
    assert s.desk.peers[name := s.next] - {name} == s.desk.peers;
    var up := Standing(s, name, ifID, addr, 5, Up, PeerDesk(s, name, ifID));
    assert Step(up, Remove(name)) == Removed(up, name, s.next);
    assert WithPhase(up.jobs, s.next, Removing) == s.jobs[s.next := Job(name, ifID, addr, 5, Removing)];
  }

  lemma UnbuiltNext(h: Host, j: nat, job: Job)
    requires 0 < job.stage <= 5 && h.routed != Some(job.ifID)
    requires job.ifID !in h.ifaces && job.name !in h.secrets && job.name !in h.conns && job.name !in h.sas
    ensures Unbuilt(HostWith(h, j, job.name, job.ifID, job.stage), job) ==
            HostWith(h, j, job.name, job.ifID, job.stage - 1)
  {
    assert h.ifaces[job.ifID := j] - {job.ifID} == h.ifaces;
    assert h.secrets[job.name := j] - {job.name} == h.secrets;
    assert h.conns[job.name := j] - {job.name} == h.conns;
    assert h.sas[job.name := j] - {job.name} == h.sas;
  }

  /** Releasing what was acquired leaves the table as it was. */
  lemma ReleaseAcquired(t: Table, a: Addr)
    requires a in t.entries ==> t.entries[a].refs > 0
    ensures Release(Acquired(t, a), a) == t
  {
    if a in t.entries {
      assert t.entries[a := t.entries[a]] == t.entries;
    } else {
      assert t.entries[a := Shared(a !in t.host, 1)] - {a} == t.entries;
      assert a !in t.host ==> t.host + {a} - {a} == t.host;
      assert a in t.host ==> t.host + {a} == t.host;
    }
  }

  lemma UnjoinedNext(s: Client, job: Job)
    requires 0 < job.stage <= 5 && Peer(s.next) !in s.ring.held
    requires job.addr in s.ring.table.entries ==> s.ring.table.entries[job.addr].refs > 0
    ensures Unjoined(s.cfg, RingWith(s, job.addr, job.stage), s.next, job) == RingWith(s, job.addr, job.stage - 1)
  {
    ReleaseAcquired(s.ring.table, job.addr);
    assert s.ring.held[Peer(s.next) := job.addr] - {Peer(s.next)} == s.ring.held;
  }

  lemma UndoStands(s: Client, name: Name, ifID: nat, addr: Addr, k: nat)
    requires CanAdd(s, name, ifID) && 0 < k <= 5
    requires addr in s.ring.table.entries ==> s.ring.table.entries[addr].refs > 0
    ensures var desk := PendingDesk(s, name, ifID);
            Step(Standing(s, name, ifID, addr, k, Removing, desk), Undo(s.next))
            == Standing(s, name, ifID, addr, k - 1, Removing, desk)
  {
    var job := Job(name, ifID, addr, k, Removing);
    UnbuiltNext(s.host, s.next, job);
    UnjoinedNext(s, job);
    var was := Standing(s, name, ifID, addr, k, Removing, PendingDesk(s, name, ifID));
    assert was.jobs[s.next] == job;
    assert WithStage(was.jobs, s.next, k - 1) == s.jobs[s.next := Job(name, ifID, addr, k - 1, Removing)];
  }

  lemma LeaveStands(s: Client, name: Name, ifID: nat, addr: Addr)
    requires CanAdd(s, name, ifID)
    ensures Step(Standing(s, name, ifID, addr, 0, Removing, PendingDesk(s, name, ifID)), Leave(s.next))
            == s.(next := s.next + 1, ifOf := s.ifOf[name := ifID])
  {
    assert s.jobs[s.next := Job(name, ifID, addr, 0, Removing)] - {s.next} == s.jobs;
    assert s.desk.pending[name := s.next] - {name} == s.desk.pending;
    assert s.desk.ifIDs[ifID := s.next] - {ifID} == s.desk.ifIDs;
  }

  // ------------------------------------------------------------------- runs

  /** n times the same event. */
  function Times(e: Event, n: nat): seq<Event> {
    if n == 0 then [] else Times(e, n - 1) + [e]
  }

  function Addition(j: nat, name: Name, ifID: nat, addr: Addr): seq<Event> {
    [Start(name, ifID, addr)] + Times(Advance(j, true), 5) + [Finish(j)]
  }

  function Removal(j: nat, name: Name): seq<Event> {
    [Remove(name)] + Times(Undo(j), 5) + [Leave(j)]
  }

  lemma {:induction false} AdvancesStand(s: Client, name: Name, ifID: nat, addr: Addr, k: nat) returns (w: Walk)
    requires CanAdd(s, name, ifID) && k <= 5
    ensures w.Ok() && w.states[0] == s && w.events == [Start(name, ifID, addr)] + Times(Advance(s.next, true), k)
    ensures w.Last() == Standing(s, name, ifID, addr, k, Bringing, PendingDesk(s, name, ifID))
  {
    if k == 0 {
      StartStands(s, name, ifID, addr);
      w := Take1(At(s), Start(name, ifID, addr));
    } else {
      w := AdvancesStand(s, name, ifID, addr, k - 1);
      AdvanceStands(s, name, ifID, addr, k - 1);
      w := Take1(w, Advance(s.next, true));
    }
  }

  lemma AddStands(s: Client, name: Name, ifID: nat, addr: Addr) returns (w: Walk)
    requires CanAdd(s, name, ifID)
    ensures w.Ok() && w.states[0] == s && w.events == Addition(s.next, name, ifID, addr)
    ensures w.Last() == Standing(s, name, ifID, addr, 5, Up, PeerDesk(s, name, ifID))
  {
    w := AdvancesStand(s, name, ifID, addr, 5);
    FinishStands(s, name, ifID, addr);
    w := Take1(w, Finish(s.next));
  }

  lemma {:induction false} UndosStand(s: Client, name: Name, ifID: nat, addr: Addr, k: nat) returns (w: Walk)
    requires CanAdd(s, name, ifID) && k <= 5
    requires addr in s.ring.table.entries ==> s.ring.table.entries[addr].refs > 0
    ensures w.Ok() && w.states[0] == Standing(s, name, ifID, addr, 5, Up, PeerDesk(s, name, ifID))
    ensures w.events == [Remove(name)] + Times(Undo(s.next), k)
    ensures w.Last() == Standing(s, name, ifID, addr, 5 - k, Removing, PendingDesk(s, name, ifID))
  {
    if k == 0 {
      RemoveStands(s, name, ifID, addr);
      w := Take1(At(Standing(s, name, ifID, addr, 5, Up, PeerDesk(s, name, ifID))), Remove(name));
    } else {
      w := UndosStand(s, name, ifID, addr, k - 1);
      UndoStands(s, name, ifID, addr, 6 - k);
      w := Take1(w, Undo(s.next));
    }
  }

  lemma RemoveRestores(s: Client, name: Name, ifID: nat, addr: Addr) returns (w: Walk)
    requires CanAdd(s, name, ifID)
    requires addr in s.ring.table.entries ==> s.ring.table.entries[addr].refs > 0
    ensures w.Ok() && w.states[0] == Standing(s, name, ifID, addr, 5, Up, PeerDesk(s, name, ifID))
    ensures w.events == Removal(s.next, name) && w.Last() == s.(next := s.next + 1, ifOf := s.ifOf[name := ifID])
  {
    w := UndosStand(s, name, ifID, addr, 5);
    LeaveStands(s, name, ifID, addr);
    w := Take1(w, Leave(s.next));
  }

  /** What an add needs of a client as it is: its name and if_id are free, also of the leftovers of
      an add that failed. */
  ghost predicate Free(s: Client, name: Name, ifID: nat) {
    && CanStart(s.desk, name, ifID) && s.desk.active != name && s.host.routed != Some(ifID)
    && forall j :: j in s.jobs ==> s.jobs[j].name != name && s.jobs[j].ifID != ifID
  }

  lemma FreeCanAdd(s: Client, name: Name, ifID: nat)
    requires Inv(s) && Free(s, name, ifID)
    ensures CanAdd(s, name, ifID)
  {
  }

  /** After any run, an undisturbed add of a free name and if_id makes a peer with its interface, its
      bypass route, secret, connection and association, and changes nothing else. */
  lemma AddCompletes(s: Client, events: seq<Event>, name: Name, ifID: nat, addr: Addr)
    requires Fresh(s) && Free(Run(s, events), name, ifID)
    ensures var r := Run(s, events);
            Run(s, events + Addition(r.next, name, ifID, addr)) ==
            Client(r.cfg, r.jobs[r.next := Job(name, ifID, addr, 5, Up)], r.next + 1, r.ifOf[name := ifID],
                   Desk(r.desk.peers[name := r.next], r.desk.pending, r.desk.ifIDs[ifID := r.next], r.desk.active,
                        false),
                   Host(r.host.ifaces[ifID := r.next], r.host.secrets[name := r.next], r.host.conns[name := r.next],
                        r.host.sas[name := r.next], r.host.routed),
                   if r.cfg.full
                   then Ring(Acquired(r.ring.table, addr), r.ring.held[Peer(r.next) := addr], r.ring.released)
                   else r.ring,
                   r.checked)
  {
    RunKeepsInv(s, events);
    var r := Run(s, events);
    FreeCanAdd(r, name, ifID);
    var w := AddStands(r, name, ifID, addr);
    WalkRuns(s, events, w);
  }

  /** And an undisturbed removal gives the client back as it was before the add: jobs, fields, host
      and bypass routes. */
  lemma AddThenRemove(s: Client, events: seq<Event>, name: Name, ifID: nat, addr: Addr)
    requires Fresh(s) && Free(Run(s, events), name, ifID)
    ensures var r := Run(s, events);
            Run(s, events + Addition(r.next, name, ifID, addr) + Removal(r.next, name))
            == r.(next := r.next + 1, ifOf := r.ifOf[name := ifID])
  {
    RunKeepsInv(s, events);
    var r := Run(s, events);
    FreeCanAdd(r, name, ifID);
    var w := AddStands(r, name, ifID, addr);
    WalkRuns(s, events, w);
    assert EntryOk(r.ring.table, r.cfg.initial, Users(r.ring.held, addr), addr);
    var v := RemoveRestores(r, name, ifID, addr);
    WalkRuns(s, events + Addition(r.next, name, ifID, addr), v);
  }

  // ------------------------------------------------------------------- single steps

  /** An add's next step fails exactly when: its interface exists or cannot be made; a new bypass
      route is needed and cannot be had; its secret or connection cannot be loaded. Negotiating
      always begins. It then rolls back, and otherwise is one step further. */
  lemma AdvanceFailsExactly(s: Client, j: nat, ok: bool)
    requires j in s.jobs && s.jobs[j].phase == Bringing && s.jobs[j].stage < 5
    ensures var t, job := Step(s, Advance(j, ok)), s.jobs[j];
            var fails := match job.stage
              case 0 => job.ifID in s.host.ifaces || !ok
              case 1 => s.cfg.full && job.addr !in s.ring.table.entries && !ok
              case 4 => false
              case _ => !ok;
            && j in t.jobs
            && t.jobs[j] == (if fails then Job(job.name, job.ifID, job.addr, job.stage, Rolling)
                             else Job(job.name, job.ifID, job.addr, job.stage + 1, Bringing))
            && (fails ==> t.host == s.host && t.ring == s.ring)
  {
    AcquireExactly(s.ring.table, s.jobs[j].addr, ok);
  }

  lemma PromoteSteps(s: Client, name: Name, withdrawn: bool)
    requires !s.desk.closed && name in s.desk.peers && s.desk.peers[name] in s.jobs
    requires s.jobs[s.desk.peers[name]].ifID in s.host.ifaces
    ensures var ifID := s.jobs[s.desk.peers[name]].ifID;
            Step(Step(s, CheckPromote(name)), Route(name, ifID, withdrawn))
            == Promoted(s, name, ifID, withdrawn)
  {
    var ifID := s.jobs[s.desk.peers[name]].ifID;
    var checked := Step(s, CheckPromote(name));
    assert checked == s.(checked := s.checked + {(name, ifID)});
  }

  lemma PeerHasInterface(s: Client, name: Name)
    requires DeskOk(s.desk, s.jobs) && HostOk(s.host, s.jobs) && !s.desk.closed && name in s.desk.peers
    ensures s.desk.peers[name] in s.jobs && s.jobs[s.desk.peers[name]].ifID in s.host.ifaces
  {
    var j := s.desk.peers[name];
    assert Up1(s.jobs, j, name);
    assert Owns(s.jobs, j, s.jobs[j].ifID);
  }

  lemma PromoteWalk(s: Client, name: Name, withdrawn: bool) returns (w: Walk)
    requires !s.desk.closed && name in s.desk.peers && s.desk.peers[name] in s.jobs
    requires s.jobs[s.desk.peers[name]].ifID in s.host.ifaces
    ensures w.Ok() && w.states[0] == s
    ensures w.events == [CheckPromote(name)] + [Route(name, s.jobs[s.desk.peers[name]].ifID, withdrawn)]
    ensures w.Last() == Promoted(s, name, s.jobs[s.desk.peers[name]].ifID, withdrawn)
  {
    PromoteSteps(s, name, withdrawn);
    w := Take1(At(s), CheckPromote(name));
    w := Take1(w, Route(name, s.jobs[s.desk.peers[name]].ifID, withdrawn));
  }

  /** The routes lead to the interface, and the peer is active if the old ones were withdrawn. */
  function Promoted(s: Client, name: Name, ifID: nat, withdrawn: bool): Client {
    s.(checked := s.checked + {(name, ifID)}, host := s.host.(routed := Some(ifID)),
       desk := s.desk.(active := if withdrawn then name else s.desk.active))
  }

  /** After any run, promoting a peer routes through its interface and, if the old routes are
      withdrawn, makes it the active one. */
  lemma PromoteRoutes(s: Client, events: seq<Event>, name: Name, withdrawn: bool)
    requires Fresh(s) && !Run(s, events).desk.closed && name in Run(s, events).desk.peers
    ensures var r := Run(s, events);
            && r.desk.peers[name] in r.jobs
            && var ifID := r.jobs[r.desk.peers[name]].ifID;
            Run(s, events + ([CheckPromote(name)] + [Route(name, ifID, withdrawn)])) ==
              Promoted(r, name, ifID, withdrawn)
  {
    RunKeepsInv(s, events);
    PeerHasInterface(Run(s, events), name);
    var w := PromoteWalk(Run(s, events), name, withdrawn);
    WalkRuns(s, events, w);
  }
}
