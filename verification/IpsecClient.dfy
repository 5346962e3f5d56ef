/** The IPsec client's peers as a state machine: adding a gateway in steps that may fail or be
    overtaken, removing, promoting and closing, over the interfaces, secrets, connections,
    security associations and bypass routes they leave on the host. Cleanup calls work. */
module IpsecClient {
  import opened Ownership
  import opened Store
  import opened Bypass

  /** An add in progress, one that failed and is rolling back, a peer, or one being removed by
      Remove or by Close. */
  datatype Phase = Bringing | Rolling | Up | Removing | Closing

  /** How far an add has come: 1 has its interface, 2 its bypass route, 3 its secret, 4 its
      connection, 5 has begun to negotiate. Undoing goes back the same way. */
  datatype Job = Job(name: Name, ifID: nat, addr: Addr, stage: nat, phase: Phase)

  type Jobs = map<nat, Job>

  /** The client's fields. Maps to job numbers stand for sets of keys; the numbers record whose
      they are. */
  datatype Desk = Desk(peers: map<Name, nat>, pending: map<Name, nat>, ifIDs: map<nat, nat>, active: Name, closed: bool)

  /** What is on the host, likewise, and the interface the tunnel routes lead to. */
  datatype Host = Host(ifaces: map<nat, nat>, secrets: map<Name, nat>, conns: map<Name, nat>, sas: map<Name, nat>,
                       routed: Option<nat>)

  /** Bypass routes, who holds them, and how many controllers' have been released. */
  datatype Ring = Ring(table: Table, held: Held, released: nat)

  datatype Config = Config(full: bool, controllers: seq<Addr>, initial: set<Addr>)

  /** `ifOf` records the if_id each name was last used with, `checked` what Promote looked up. */
  datatype Client = Client(cfg: Config, jobs: Jobs, next: nat, ifOf: map<Name, nat>, desk: Desk, host: Host, ring: Ring,
                           checked: set<(Name, nat)>)

  datatype Event =
    | Start(name: Name, ifID: nat, addr: Addr)   // Add claims its name and if_id
    | Advance(j: nat, ok: bool)                   // its next step, which may fail
    | Fail(j: nat)                                // a step in between fails
    | Finish(j: nat)                              // negotiation succeeded
    | Undo(j: nat)                                // one step of a rollback or teardown
    | Leave(j: nat)                               // a rollback or teardown is over
    | Remove(name: Name)
    | CheckPromote(name: Name)                    // Promote looks its peer up
    | Route(name: Name, ifID: nat, withdrawn: bool)  // and later moves the routes, then withdraws old ones
    | Close
    | ClearRoutes                                 // Close withdraws the tunnel routes
    | ReleaseController                           // and the controllers' bypass routes

  // ------------------------------------------------------------------- the steps

  predicate CanStart(d: Desk, name: Name, ifID: nat) {
    !d.closed && name !in d.peers && name !in d.pending && ifID !in d.ifIDs
  }

  function WithStage(jobs: Jobs, j: nat, stage: nat): Jobs
    requires j in jobs
  {
    jobs[j := Job(jobs[j].name, jobs[j].ifID, jobs[j].addr, stage, jobs[j].phase)]
  }

  function WithPhase(jobs: Jobs, j: nat, phase: Phase): Jobs
    requires j in jobs
  {
    jobs[j := Job(jobs[j].name, jobs[j].ifID, jobs[j].addr, jobs[j].stage, phase)]
  }

  function Started(s: Client, name: Name, ifID: nat, addr: Addr): Client {
    Client(s.cfg, s.jobs[s.next := Job(name, ifID, addr, 0, Bringing)], s.next + 1, s.ifOf[name := ifID],
           Desk(s.desk.peers, s.desk.pending[name := s.next], s.desk.ifIDs[ifID := s.next], s.desk.active,
                s.desk.closed),
           s.host, s.ring, s.checked)
  }

  /** An add that failed gives its name and if_id up, then rolls back. */
  function Failed(s: Client, j: nat): Client
    requires j in s.jobs
  {
    Client(s.cfg, WithPhase(s.jobs, j, Rolling), s.next, s.ifOf, GivenUp(s.desk, s.jobs[j]), s.host, s.ring, s.checked)
  }

  function GivenUp(d: Desk, job: Job): Desk {
    Desk(d.peers, d.pending - {job.name}, d.ifIDs - {job.ifID}, d.active, d.closed)
  }

  /** Loads something under a job's name, on its way to a stage. */
  function Put(m: map<Name, nat>, j: nat, job: Job, at: nat): map<Name, nat> {
    if job.stage + 1 == at then m[job.name := j] else m
  }

  /** Unloads it, on the way back from that stage. */
  function Take(m: map<Name, nat>, job: Job, at: nat): map<Name, nat> {
    if job.stage == at then m - {job.name} else m
  }

  /** The host after a job's next step. Negotiation may leave an association behind or not,
      whatever its outcome. */
  function Built(h: Host, j: nat, job: Job, ok: bool): Host {
    Host(if job.stage == 0 then h.ifaces[job.ifID := j] else h.ifaces,
         Put(h.secrets, j, job, 3), Put(h.conns, j, job, 4), if ok then Put(h.sas, j, job, 5) else h.sas, h.routed)
  }

  /** Deleting an interface takes the routes through it along. */
  function Unbuilt(h: Host, job: Job): Host {
    Host(if job.stage == 1 then h.ifaces - {job.ifID} else h.ifaces,
         Take(h.secrets, job, 3), Take(h.conns, job, 4), Take(h.sas, job, 5),
         if job.stage == 1 && h.routed == Some(job.ifID) then None else h.routed)
  }

  function Joined(cfg: Config, r: Ring, j: nat, job: Job, ok: bool): Option<Ring> {
    if job.stage != 1 || !cfg.full then Some(r)
    else
      var t := Acquire(r.table, job.addr, ok);
      if t.None? then None else Some(Ring(t.value, r.held[Peer(j) := job.addr], r.released))
  }

  function Unjoined(cfg: Config, r: Ring, j: nat, job: Job): Ring {
    if job.stage != 2 || !cfg.full then r else Ring(Release(r.table, job.addr), r.held - {Peer(j)}, r.released)
  }

  /** Whether a job's next step cannot be done. */
  predicate Blocked(h: Host, job: Job, ok: bool) {
    (job.stage == 0 && job.ifID in h.ifaces) || (!ok && job.stage != 1 && job.stage != 4)
  }

  function Advanced(s: Client, j: nat, ok: bool): Client
    requires j in s.jobs && s.jobs[j].stage < 5
  {
    var job := s.jobs[j];
    var r := Joined(s.cfg, s.ring, j, job, ok);
    if Blocked(s.host, job, ok) || r.None? then Failed(s, j)
    else Client(s.cfg, WithStage(s.jobs, j, job.stage + 1), s.next, s.ifOf, s.desk, Built(s.host, j, job, ok), r.value,
                s.checked)
  }

  function Undone(s: Client, j: nat): Client
    requires j in s.jobs && s.jobs[j].stage > 0
  {
    var job := s.jobs[j];
    Client(s.cfg, WithStage(s.jobs, j, job.stage - 1), s.next, s.ifOf, s.desk, Unbuilt(s.host, job),
           Unjoined(s.cfg, s.ring, j, job), s.checked)
  }

  function Finished(s: Client, j: nat): Client
    requires j in s.jobs
  {
    if s.desk.closed then Failed(s, j)
    else
      var n := s.jobs[j].name;
      Client(s.cfg, WithPhase(s.jobs, j, Up), s.next, s.ifOf,
             Desk(s.desk.peers[n := j], s.desk.pending - {n}, s.desk.ifIDs, s.desk.active, s.desk.closed), s.host,
             s.ring, s.checked)
  }

  /** A removed peer's name is free again only now; a closed one's if_id likewise. */
  function Left(s: Client, j: nat): Client
    requires j in s.jobs
  {
    Client(s.cfg, s.jobs - {j}, s.next, s.ifOf,
           match s.jobs[j].phase {
             case Removing => GivenUp(s.desk, s.jobs[j])
             case Closing =>
               Desk(s.desk.peers, s.desk.pending, s.desk.ifIDs - {s.jobs[j].ifID}, s.desk.active, s.desk.closed)
             case _ => s.desk
           },
           s.host, s.ring, s.checked)
  }

  function Removed(s: Client, name: Name, j: nat): Client
    requires j in s.jobs
  {
    Client(s.cfg, WithPhase(s.jobs, j, Removing), s.next, s.ifOf,
           Desk(s.desk.peers - {name}, s.desk.pending[name := j], s.desk.ifIDs, s.desk.active, s.desk.closed), s.host,
           s.ring, s.checked)
  }

  function Closing1(job: Job): Job {
    if job.phase == Up then Job(job.name, job.ifID, job.addr, job.stage, Closing) else job
  }

  function Closed(s: Client): Client {
    Client(s.cfg, map j | j in s.jobs :: Closing1(s.jobs[j]), s.next, s.ifOf,
           Desk(map[], s.desk.pending, s.desk.ifIDs, NONAME, true), s.host, s.ring, s.checked)
  }

  predicate Undoing(p: Phase) {
    p == Rolling || p == Removing || p == Closing
  }

  predicate Adding(s: Client, j: nat) {
    j in s.jobs && s.jobs[j].phase == Bringing
  }

  function Step(s: Client, e: Event): Client {
    match e
    case Start(name, ifID, addr) => if CanStart(s.desk, name, ifID) then Started(s, name, ifID, addr) else s
    case Advance(j, ok) => if Adding(s, j) && s.jobs[j].stage < 5 then Advanced(s, j, ok) else s
    case Fail(j) => if Adding(s, j) then Failed(s, j) else s
    case Finish(j) => if Adding(s, j) && s.jobs[j].stage == 5 then Finished(s, j) else s
    case Undo(j) => if j in s.jobs && Undoing(s.jobs[j].phase) && s.jobs[j].stage > 0 then Undone(s, j) else s
    case Leave(j) => if j in s.jobs && Undoing(s.jobs[j].phase) && s.jobs[j].stage == 0 then Left(s, j) else s
    case Remove(name) =>
      if !s.desk.closed && name in s.desk.peers && s.desk.peers[name] in s.jobs && s.desk.active != name then
        Removed(s, name, s.desk.peers[name])
      else s
    case CheckPromote(name) =>
      if !s.desk.closed && name in s.desk.peers && s.desk.peers[name] in s.jobs then
        s.(checked := s.checked + {(name, s.jobs[s.desk.peers[name]].ifID)})
      else s
    case Route(name, ifID, withdrawn) =>
      if (name, ifID) in s.checked && ifID in s.host.ifaces then
        s.(host := s.host.(routed := Some(ifID)), desk := s.desk.(active := if withdrawn then name else s.desk.active))
      else s
    case Close => if s.desk.closed then s else Closed(s)
    case ClearRoutes => if s.desk.closed then s.(host := s.host.(routed := None)) else s
    case ReleaseController =>
      if s.desk.closed && s.cfg.full && s.ring.released < |s.cfg.controllers| then
        s.(ring := Ring(Release(s.ring.table, s.cfg.controllers[s.ring.released]),
                        s.ring.held - {Controller(s.ring.released)}, s.ring.released + 1))
      else s
  }

  // ------------------------------------------------------------------- the invariant

  predicate Pends(p: Phase) {
    p == Bringing || p == Removing
  }

  predicate Pending1(jobs: Jobs, j: nat, name: Name) {
    j in jobs && jobs[j].name == name && Pends(jobs[j].phase)
  }

  predicate Up1(jobs: Jobs, j: nat, name: Name) {
    j in jobs && jobs[j].name == name && jobs[j].phase == Up
  }

  predicate Uses(jobs: Jobs, j: nat, ifID: nat) {
    j in jobs && jobs[j].ifID == ifID && jobs[j].phase != Rolling
  }

  /** The peers are exactly the jobs that are up. */
  ghost predicate PeersOk(m: map<Name, nat>, jobs: Jobs) {
    && (forall j :: j in jobs && jobs[j].phase == Up ==> jobs[j].name in m && m[jobs[j].name] == j)
    && (forall n :: n in m ==> Up1(jobs, m[n], n))
  }

  /** Pending are exactly the names of adds and removes in flight. */
  ghost predicate PendingOk(m: map<Name, nat>, jobs: Jobs) {
    && (forall j :: j in jobs && Pends(jobs[j].phase) ==> jobs[j].name in m && m[jobs[j].name] == j)
    && (forall n :: n in m ==> Pending1(jobs, m[n], n))
  }

  /** The if_ids in use are exactly those of the jobs that are not rolling back. */
  ghost predicate IdsOk(m: map<nat, nat>, jobs: Jobs) {
    && (forall j :: j in jobs && jobs[j].phase != Rolling ==> jobs[j].ifID in m && m[jobs[j].ifID] == j)
    && (forall i :: i in m ==> Uses(jobs, m[i], i))
  }

  ghost predicate Phased(closed: bool, jobs: Jobs) {
    forall j :: j in jobs ==>
        (jobs[j].phase == Up ==> jobs[j].stage == 5 && !closed) && (jobs[j].phase == Closing ==> closed)
  }

  ghost predicate Apart(peers: map<Name, nat>, pending: map<Name, nat>) {
    forall n :: n in peers ==> n !in pending
  }

  /** The client's fields record exactly the jobs' claims. */
  ghost predicate DeskOk(d: Desk, jobs: Jobs) {
    && PeersOk(d.peers, jobs) && PendingOk(d.pending, jobs) && IdsOk(d.ifIDs, jobs)
    && Phased(d.closed, jobs) && Apart(d.peers, d.pending)
  }

  predicate Reached(jobs: Jobs, j: nat, name: Name, stage: nat) {
    j in jobs && jobs[j].name == name && jobs[j].stage >= stage
  }

  predicate Owns(jobs: Jobs, j: nat, ifID: nat) {
    j in jobs && jobs[j].ifID == ifID && jobs[j].stage >= 1
  }

  /** There is an interface for exactly the if_ids of jobs that have theirs. */
  ghost predicate Interfaces(m: map<nat, nat>, jobs: Jobs) {
    && (forall j :: j in jobs && jobs[j].stage >= 1 ==> jobs[j].ifID in m && m[jobs[j].ifID] == j)
    && (forall i :: i in m ==> Owns(jobs, m[i], i))
  }

  /** There is nothing under any other name than those of jobs that got to a stage. */
  ghost predicate Within(m: map<Name, nat>, jobs: Jobs, stage: nat) {
    forall n :: n in m ==> Reached(jobs, m[n], n, stage)
  }

  /** The host has nothing but what jobs have, and every job's interface. */
  ghost predicate HostOk(h: Host, jobs: Jobs) {
    && Interfaces(h.ifaces, jobs) && Within(h.secrets, jobs, 3) && Within(h.conns, jobs, 4) && Within(h.sas, jobs, 5)
    && (h.routed.Some? ==> h.routed.value in h.ifaces)
  }

  ghost predicate Numbered(jobs: Jobs, next: nat) {
    forall j :: j in jobs ==> j < next && jobs[j].stage <= 5
  }

  /** Bypass routes are held by the controllers not yet released and the jobs that got that far. */
  ghost predicate RingOk(cfg: Config, r: Ring, jobs: Jobs) {
    && r.released <= |cfg.controllers|
    && (forall i: nat :: Controller(i) in r.held <==> cfg.full && r.released <= i < |cfg.controllers|)
    && (forall i: nat :: Controller(i) in r.held ==>
          i < |cfg.controllers| && r.held[Controller(i)] == cfg.controllers[i])
    && (forall j: nat :: Peer(j) in r.held <==> cfg.full && j in jobs && jobs[j].stage >= 2)
    && (forall j: nat :: Peer(j) in r.held ==> j in jobs && r.held[Peer(j)] == jobs[j].addr)
  }

  ghost predicate Ringed(cfg: Config, r: Ring, jobs: Jobs) {
    RingOk(cfg, r, jobs) && Counts(r.table, cfg.initial, r.held)
  }

  ghost predicate Inv(s: Client) {
    && Numbered(s.jobs, s.next) && DeskOk(s.desk, s.jobs) && HostOk(s.host, s.jobs)
    && Ringed(s.cfg, s.ring, s.jobs)
  }

  // ------------------------------------------------------------------- its parts

  /** The same jobs, equally far. */
  ghost predicate SameWork(jobs: Jobs, now: Jobs) {
    && (forall j :: j in jobs <==> j in now)
    && (forall j :: j in jobs && j in now ==> now[j].name == jobs[j].name && now[j].ifID == jobs[j].ifID
                                              && now[j].addr == jobs[j].addr && now[j].stage == jobs[j].stage)
  }

  lemma SameWorkHost(h: Host, jobs: Jobs, now: Jobs)
    requires HostOk(h, jobs) && SameWork(jobs, now)
    ensures HostOk(h, now)
  {
  }

  lemma SameWorkRing(cfg: Config, r: Ring, jobs: Jobs, now: Jobs)
    requires RingOk(cfg, r, jobs) && SameWork(jobs, now)
    ensures RingOk(cfg, r, now)
  {
  }

  lemma InterfacesBuilt(m: map<nat, nat>, jobs: Jobs, j: nat)
    requires Interfaces(m, jobs) && j in jobs && (jobs[j].stage == 0 ==> jobs[j].ifID !in m)
    ensures Interfaces(if jobs[j].stage == 0 then m[jobs[j].ifID := j] else m, WithStage(jobs, j, jobs[j].stage + 1))
  {
  }

  lemma InterfacesUnbuilt(m: map<nat, nat>, jobs: Jobs, j: nat)
    requires Interfaces(m, jobs) && j in jobs && jobs[j].stage > 0
    ensures Interfaces(if jobs[j].stage == 1 then m - {jobs[j].ifID} else m, WithStage(jobs, j, jobs[j].stage - 1))
  {
  }

  lemma PutWithin(m: map<Name, nat>, jobs: Jobs, at: nat, j: nat, put: bool)
    requires Within(m, jobs, at) && j in jobs
    ensures Within(if put then Put(m, j, jobs[j], at) else m, WithStage(jobs, j, jobs[j].stage + 1), at)
  {
  }

  lemma TakeWithin(m: map<Name, nat>, jobs: Jobs, at: nat, j: nat)
    requires Within(m, jobs, at) && j in jobs && jobs[j].stage > 0
    ensures Within(Take(m, jobs[j], at), WithStage(jobs, j, jobs[j].stage - 1), at)
  {
  }

  lemma BuiltHost(h: Host, jobs: Jobs, j: nat, ok: bool)
    requires HostOk(h, jobs) && j in jobs && !Blocked(h, jobs[j], ok)
    ensures HostOk(Built(h, j, jobs[j], ok), WithStage(jobs, j, jobs[j].stage + 1))
  {
    InterfacesBuilt(h.ifaces, jobs, j);
    PutWithin(h.secrets, jobs, 3, j, true);
    PutWithin(h.conns, jobs, 4, j, true);
    PutWithin(h.sas, jobs, 5, j, ok);
  }

  lemma UnbuiltHost(h: Host, jobs: Jobs, j: nat)
    requires HostOk(h, jobs) && j in jobs && jobs[j].stage > 0
    ensures HostOk(Unbuilt(h, jobs[j]), WithStage(jobs, j, jobs[j].stage - 1))
  {
    InterfacesUnbuilt(h.ifaces, jobs, j);
    TakeWithin(h.secrets, jobs, 3, j);
    TakeWithin(h.conns, jobs, 4, j);
    TakeWithin(h.sas, jobs, 5, j);
  }

  // ------------------------------------------------------------------- the client's fields

  lemma StagePeers(m: map<Name, nat>, jobs: Jobs, j: nat, stage: nat)
    requires PeersOk(m, jobs) && j in jobs
    ensures PeersOk(m, WithStage(jobs, j, stage))
  {
  }

  lemma StagePending(m: map<Name, nat>, jobs: Jobs, j: nat, stage: nat)
    requires PendingOk(m, jobs) && j in jobs
    ensures PendingOk(m, WithStage(jobs, j, stage))
  {
  }

  lemma StageIds(m: map<nat, nat>, jobs: Jobs, j: nat, stage: nat)
    requires IdsOk(m, jobs) && j in jobs
    ensures IdsOk(m, WithStage(jobs, j, stage))
  {
  }

  lemma StageDesk(d: Desk, jobs: Jobs, j: nat, stage: nat)
    requires DeskOk(d, jobs) && j in jobs && jobs[j].phase != Up
    ensures DeskOk(d, WithStage(jobs, j, stage))
  {
    StagePeers(d.peers, jobs, j, stage);
    StagePending(d.pending, jobs, j, stage);
    StageIds(d.ifIDs, jobs, j, stage);
  }

  /** A job leaves Up, or was not up. */
  lemma PhasePeers(m: map<Name, nat>, jobs: Jobs, j: nat, phase: Phase)
    requires PeersOk(m, jobs) && j in jobs && phase != Up
    ensures PeersOk(if jobs[j].phase == Up then m - {jobs[j].name} else m, WithPhase(jobs, j, phase))
  {
  }

  lemma PhasePending(m: map<Name, nat>, jobs: Jobs, j: nat, phase: Phase)
    requires PendingOk(m, jobs) && j in jobs && !Pends(phase)
    ensures PendingOk(if Pends(jobs[j].phase) then m - {jobs[j].name} else m, WithPhase(jobs, j, phase))
  {
  }

  lemma PhaseIds(m: map<nat, nat>, jobs: Jobs, j: nat, phase: Phase)
    requires IdsOk(m, jobs) && j in jobs && jobs[j].phase != Rolling
    ensures IdsOk(if phase == Rolling then m - {jobs[j].ifID} else m, WithPhase(jobs, j, phase))
  {
  }

  lemma FailedDesk(d: Desk, jobs: Jobs, j: nat)
    requires DeskOk(d, jobs) && j in jobs && jobs[j].phase == Bringing
    ensures DeskOk(GivenUp(d, jobs[j]), WithPhase(jobs, j, Rolling))
  {
    PhasePeers(d.peers, jobs, j, Rolling);
    PhasePending(d.pending, jobs, j, Rolling);
    PhaseIds(d.ifIDs, jobs, j, Rolling);
  }

  lemma UpPeers(m: map<Name, nat>, jobs: Jobs, j: nat)
    requires PeersOk(m, jobs) && j in jobs && jobs[j].name !in m
    ensures PeersOk(m[jobs[j].name := j], WithPhase(jobs, j, Up))
  {
  }

  lemma FinishedDesk(d: Desk, jobs: Jobs, j: nat)
    requires DeskOk(d, jobs) && j in jobs && jobs[j].phase == Bringing && jobs[j].stage == 5 && !d.closed
    ensures DeskOk(Desk(d.peers[jobs[j].name := j], d.pending - {jobs[j].name}, d.ifIDs, d.active, d.closed),
                   WithPhase(jobs, j, Up))
  {
    UpPeers(d.peers, jobs, j);
    PhasePending(d.pending, jobs, j, Up);
    PhaseIds(d.ifIDs, jobs, j, Up);
  }

  lemma RemovingPending(m: map<Name, nat>, jobs: Jobs, j: nat)
    requires PendingOk(m, jobs) && j in jobs && jobs[j].name !in m
    ensures PendingOk(m[jobs[j].name := j], WithPhase(jobs, j, Removing))
  {
  }

  lemma RemovedDesk(d: Desk, jobs: Jobs, j: nat)
    requires DeskOk(d, jobs) && j in jobs && jobs[j].phase == Up
    ensures DeskOk(Desk(d.peers - {jobs[j].name}, d.pending[jobs[j].name := j], d.ifIDs, d.active, d.closed),
                   WithPhase(jobs, j, Removing))
  {
    PhasePeers(d.peers, jobs, j, Removing);
    RemovingPending(d.pending, jobs, j);
    PhaseIds(d.ifIDs, jobs, j, Removing);
  }

  lemma StartedDesk(d: Desk, jobs: Jobs, j: nat, job: Job)
    requires DeskOk(d, jobs) && j !in jobs && job.phase == Bringing && CanStart(d, job.name, job.ifID)
    ensures DeskOk(Desk(d.peers, d.pending[job.name := j], d.ifIDs[job.ifID := j], d.active, d.closed), jobs[j := job])
  {
    StartedPeers(d.peers, jobs, j, job);
    StartedPending(d.pending, jobs, j, job);
    StartedIds(d.ifIDs, jobs, j, job);
  }

  lemma StartedPeers(m: map<Name, nat>, jobs: Jobs, j: nat, job: Job)
    requires PeersOk(m, jobs) && j !in jobs && job.phase == Bringing
    ensures PeersOk(m, jobs[j := job])
  {
  }

  lemma StartedPending(m: map<Name, nat>, jobs: Jobs, j: nat, job: Job)
    requires PendingOk(m, jobs) && j !in jobs && job.phase == Bringing && job.name !in m
    ensures PendingOk(m[job.name := j], jobs[j := job])
  {
  }

  lemma StartedIds(m: map<nat, nat>, jobs: Jobs, j: nat, job: Job)
    requires IdsOk(m, jobs) && j !in jobs && job.phase == Bringing && job.ifID !in m
    ensures IdsOk(m[job.ifID := j], jobs[j := job])
  {
  }

  lemma LeftPeers(m: map<Name, nat>, jobs: Jobs, j: nat)
    requires PeersOk(m, jobs) && j in jobs && jobs[j].phase != Up
    ensures PeersOk(m, jobs - {j})
  {
  }

  lemma LeftPending(m: map<Name, nat>, jobs: Jobs, j: nat)
    requires PendingOk(m, jobs) && j in jobs
    ensures PendingOk(if Pends(jobs[j].phase) then m - {jobs[j].name} else m, jobs - {j})
  {
  }

  lemma LeftIds(m: map<nat, nat>, jobs: Jobs, j: nat)
    requires IdsOk(m, jobs) && j in jobs
    ensures IdsOk(if jobs[j].phase != Rolling then m - {jobs[j].ifID} else m, jobs - {j})
  {
  }

  lemma LeftDesk(s: Client, j: nat)
    requires DeskOk(s.desk, s.jobs) && j in s.jobs && Undoing(s.jobs[j].phase)
    ensures DeskOk(Left(s, j).desk, s.jobs - {j})
  {
    LeftPeers(s.desk.peers, s.jobs, j);
    LeftPending(s.desk.pending, s.jobs, j);
    LeftIds(s.desk.ifIDs, s.jobs, j);
  }

  lemma ClosedDesk(s: Client)
    requires DeskOk(s.desk, s.jobs)
    ensures DeskOk(Closed(s).desk, Closed(s).jobs)
  {
    var now := Closed(s).jobs;
    assert PeersOk(map[], now);
    ClosedPending(s.desk.pending, s.jobs, now);
    ClosedIds(s.desk.ifIDs, s.jobs, now);
  }

  lemma ClosedPending(m: map<Name, nat>, jobs: Jobs, now: Jobs)
    requires PendingOk(m, jobs) && now == map j | j in jobs :: Closing1(jobs[j])
    ensures PendingOk(m, now)
  {
  }

  lemma ClosedIds(m: map<nat, nat>, jobs: Jobs, now: Jobs)
    requires IdsOk(m, jobs) && now == map j | j in jobs :: Closing1(jobs[j])
    ensures IdsOk(m, now)
  {
  }

  // ------------------------------------------------------------------- bypass routes

  lemma JoinedRing(cfg: Config, r: Ring, jobs: Jobs, j: nat, ok: bool)
    requires Ringed(cfg, r, jobs) && j in jobs && Joined(cfg, r, j, jobs[j], ok).Some?
    ensures Ringed(cfg, Joined(cfg, r, j, jobs[j], ok).value, WithStage(jobs, j, jobs[j].stage + 1))
  {
    if jobs[j].stage == 1 && cfg.full {
      assert Peer(j) !in r.held;
      AcquireCounts(r.table, cfg.initial, r.held, Peer(j), jobs[j].addr, ok);
    }
  }

  lemma UnjoinedRing(cfg: Config, r: Ring, jobs: Jobs, j: nat)
    requires Ringed(cfg, r, jobs) && j in jobs && jobs[j].stage > 0
    ensures Ringed(cfg, Unjoined(cfg, r, j, jobs[j]), WithStage(jobs, j, jobs[j].stage - 1))
  {
    if jobs[j].stage == 2 && cfg.full {
      assert Peer(j) in r.held;
      ReleaseCounts(r.table, cfg.initial, r.held, Peer(j));
    }
  }

  lemma ControllerReleased(cfg: Config, r: Ring, jobs: Jobs)
    requires Ringed(cfg, r, jobs) && cfg.full && r.released < |cfg.controllers|
    ensures Ringed(cfg,
                   Ring(Release(r.table, cfg.controllers[r.released]), r.held - {Controller(r.released)},
                        r.released + 1), jobs)
  {
    assert Controller(r.released) in r.held;
    ReleaseCounts(r.table, cfg.initial, r.held, Controller(r.released));
  }

  /** A new client's bypass routes: every controller's, or none when one cannot be had; `found`
      says for which there is a route to copy. */
  method NewRing(cfg: Config, host: set<Addr>, found: seq<bool>) returns (r: Option<Ring>, t: Table)
    requires host == cfg.initial && |found| == |cfg.controllers|
    ensures r.Some? ==> r.value.table == t && r.value.released == 0 && Ringed(cfg, r.value, map[])
    ensures r.None? ==> t == Table(map[], host) && exists i :: 0 <= i < |found| && !found[i]
  {
    EmptyCounts(host);
    t := Table(map[], host);
    ghost var held: Held := map[];
    if cfg.full {
      for i := 0 to |cfg.controllers|
        invariant Counts(t, cfg.initial, held) && HeldUpTo(held, cfg.controllers, i)
      {
        var a := Acquire(t, cfg.controllers[i], found[i]);
        if a.None? {
          t := Backed(cfg, t, held, i);
          return None, t;
        }
        AcquireCounts(t, cfg.initial, held, Controller(i), cfg.controllers[i], found[i]);
        t := a.value;
        held := held[Controller(i) := cfg.controllers[i]];
      }
    }
    var all := HeldMap(cfg.full, cfg.controllers);
    assert all == held;
    return Some(Ring(t, all, 0)), t;
  }

  function HeldMap(full: bool, controllers: seq<Addr>): Held {
    if full then map i | 0 <= i < |controllers| :: Controller(i) := controllers[i] else map[]
  }

  ghost predicate HeldUpTo(held: Held, controllers: seq<Addr>, n: nat)
    requires n <= |controllers|
  {
    && (forall h :: h in held <==> h.Controller? && h.i < n)
    && (forall i: nat :: i < n ==> Controller(i) in held && held[Controller(i)] == controllers[i])
  }

  /** Gives the first n controllers' routes back, which leaves the kernel as it was. */
  method Backed(cfg: Config, t: Table, ghost held: Held, n: nat) returns (r: Table)
    requires n <= |cfg.controllers| && Counts(t, cfg.initial, held) && HeldUpTo(held, cfg.controllers, n)
    ensures r == Table(map[], cfg.initial)
  {
    r := t;
    ghost var left := held;
    for i := 0 to n
      invariant Counts(r, cfg.initial, left)
      invariant forall h :: h in left <==> h in held && h.i >= i
      invariant forall h :: h in left ==> left[h] == held[h]
    {
      ReleaseCounts(r, cfg.initial, left, Controller(i));
      r := Release(r, cfg.controllers[i]);
      left := left - {Controller(i)};
    }
    assert left == map[];
    NobodyLeft(r, cfg.initial);
  }

  // ------------------------------------------------------------------- every step

  lemma NewHost(h: Host, jobs: Jobs, j: nat, job: Job)
    requires HostOk(h, jobs) && j !in jobs && job.stage == 0
    ensures HostOk(h, jobs[j := job])
  {
    NewInterfaces(h.ifaces, jobs, j, job);
  }

  lemma NewInterfaces(m: map<nat, nat>, jobs: Jobs, j: nat, job: Job)
    requires Interfaces(m, jobs) && j !in jobs && job.stage == 0
    ensures Interfaces(m, jobs[j := job])
  {
  }

  lemma NewRinged(cfg: Config, r: Ring, jobs: Jobs, j: nat, job: Job)
    requires Ringed(cfg, r, jobs) && j !in jobs && job.stage == 0
    ensures Ringed(cfg, r, jobs[j := job])
  {
  }

  lemma StartKeepsInv(s: Client, name: Name, ifID: nat, addr: Addr)
    requires Inv(s)
    ensures Inv(Step(s, Start(name, ifID, addr)))
  {
    if CanStart(s.desk, name, ifID) {
      var job := Job(name, ifID, addr, 0, Bringing);
      NewHost(s.host, s.jobs, s.next, job);
      NewRinged(s.cfg, s.ring, s.jobs, s.next, job);
      StartedDesk(s.desk, s.jobs, s.next, job);
    }
  }

  lemma FailedKeepsInv(s: Client, j: nat)
    requires Inv(s) && Adding(s, j)
    ensures Inv(Failed(s, j))
  {
    FailedDesk(s.desk, s.jobs, j);
    PhaseKeeps(s, j, Rolling);
  }

  lemma PhaseKeeps(s: Client, j: nat, phase: Phase)
    requires Inv(s) && j in s.jobs
    ensures var now := WithPhase(s.jobs, j, phase);
            HostOk(s.host, now) && Ringed(s.cfg, s.ring, now) && Numbered(now, s.next)
  {
    SameWorkHost(s.host, s.jobs, WithPhase(s.jobs, j, phase));
    SameWorkRing(s.cfg, s.ring, s.jobs, WithPhase(s.jobs, j, phase));
  }

  lemma StageKeeps(s: Client, j: nat, stage: nat)
    requires Inv(s) && j in s.jobs && stage <= 5 && s.jobs[j].phase != Up
    ensures var now := WithStage(s.jobs, j, stage); Numbered(now, s.next) && DeskOk(s.desk, now)
  {
    StageDesk(s.desk, s.jobs, j, stage);
  }

  lemma AdvancedKeepsInv(s: Client, j: nat, ok: bool)
    requires Inv(s) && Adding(s, j) && s.jobs[j].stage < 5
    requires !Blocked(s.host, s.jobs[j], ok) && Joined(s.cfg, s.ring, j, s.jobs[j], ok).Some?
    ensures Inv(Advanced(s, j, ok))
  {
    BuiltHost(s.host, s.jobs, j, ok);
    JoinedRing(s.cfg, s.ring, s.jobs, j, ok);
    StageKeeps(s, j, s.jobs[j].stage + 1);
  }

  lemma AdvanceKeepsInv(s: Client, j: nat, ok: bool)
    requires Inv(s)
    ensures Inv(Step(s, Advance(j, ok)))
  {
    if Adding(s, j) && s.jobs[j].stage < 5 {
      if Blocked(s.host, s.jobs[j], ok) || Joined(s.cfg, s.ring, j, s.jobs[j], ok).None? {
        FailedKeepsInv(s, j);
      } else {
        AdvancedKeepsInv(s, j, ok);
      }
    }
  }

  lemma FinishKeepsInv(s: Client, j: nat)
    requires Inv(s)
    ensures Inv(Step(s, Finish(j)))
  {
    if Adding(s, j) && s.jobs[j].stage == 5 {
      if s.desk.closed {
        FailedKeepsInv(s, j);
      } else {
        FinishedDesk(s.desk, s.jobs, j);
        PhaseKeeps(s, j, Up);
      }
    }
  }

  lemma UndoneKeepsInv(s: Client, j: nat)
    requires Inv(s) && j in s.jobs && s.jobs[j].phase != Up && s.jobs[j].stage > 0
    ensures Inv(Undone(s, j))
  {
    UnbuiltHost(s.host, s.jobs, j);
    UnjoinedRing(s.cfg, s.ring, s.jobs, j);
    StageKeeps(s, j, s.jobs[j].stage - 1);
  }

  lemma UndoKeepsInv(s: Client, j: nat)
    requires Inv(s)
    ensures Inv(Step(s, Undo(j)))
  {
    if j in s.jobs && Undoing(s.jobs[j].phase) && s.jobs[j].stage > 0 {
      UndoneKeepsInv(s, j);
    }
  }

  lemma LeaveKeepsInv(s: Client, j: nat)
    requires Inv(s)
    ensures Inv(Step(s, Leave(j)))
  {
    if j in s.jobs && Undoing(s.jobs[j].phase) && s.jobs[j].stage == 0 {
      LeftDesk(s, j);
      OldHost(s.host, s.jobs, j);
      OldRinged(s.cfg, s.ring, s.jobs, j);
    }
  }

  lemma OldHost(h: Host, jobs: Jobs, j: nat)
    requires HostOk(h, jobs) && j in jobs && jobs[j].stage == 0
    ensures HostOk(h, jobs - {j})
  {
  }

  lemma OldRinged(cfg: Config, r: Ring, jobs: Jobs, j: nat)
    requires Ringed(cfg, r, jobs) && j in jobs && jobs[j].stage == 0
    ensures Ringed(cfg, r, jobs - {j})
  {
  }

  lemma RemoveKeepsInv(s: Client, name: Name)
    requires Inv(s)
    ensures Inv(Step(s, Remove(name)))
  {
    if !s.desk.closed && name in s.desk.peers && s.desk.peers[name] in s.jobs && s.desk.active != name {
      assert Up1(s.jobs, s.desk.peers[name], name);
      RemovedDesk(s.desk, s.jobs, s.desk.peers[name]);
      PhaseKeeps(s, s.desk.peers[name], Removing);
    }
  }

  lemma CloseKeepsInv(s: Client)
    requires Inv(s)
    ensures Inv(Step(s, Close))
  {
    if !s.desk.closed {
      ClosedDesk(s);
      SameWorkHost(s.host, s.jobs, Closed(s).jobs);
      SameWorkRing(s.cfg, s.ring, s.jobs, Closed(s).jobs);
    }
  }

  lemma StepKeepsInv(s: Client, e: Event)
    requires Inv(s)
    ensures Inv(Step(s, e))
  {
    match e
    case Start(name, ifID, addr) => StartKeepsInv(s, name, ifID, addr);
    case Advance(j, ok) => AdvanceKeepsInv(s, j, ok);
    case Fail(j) => if Adding(s, j) { FailedKeepsInv(s, j); }
    case Finish(j) => FinishKeepsInv(s, j);
    case Undo(j) => UndoKeepsInv(s, j);
    case Leave(j) => LeaveKeepsInv(s, j);
    case Remove(name) => RemoveKeepsInv(s, name);
    case CheckPromote(name) =>
    case Route(name, ifID, withdrawn) =>
    case Close => CloseKeepsInv(s);
    case ClearRoutes =>
    case ReleaseController =>
      if s.desk.closed && s.cfg.full && s.ring.released < |s.cfg.controllers| {
        ControllerReleased(s.cfg, s.ring, s.jobs);
      }
  }

  // ------------------------------------------------------------------- every run

  function Run(s: Client, events: seq<Event>): Client {
    if events == [] then s else Step(Run(s, events[..|events| - 1]), events[|events| - 1])
  }

  /** A new client: nothing but the controllers' bypass routes. */
  ghost predicate Fresh(s: Client) {
    && s.jobs == map[] && s.desk == Desk(map[], map[], map[], NONAME, false)
    && s.host == Host(map[], map[], map[], map[], None) && Ringed(s.cfg, s.ring, map[])
  }

  lemma {:induction false} RunKeepsInv(s: Client, events: seq<Event>)
    requires Inv(s)
    ensures Inv(Run(s, events))
  {
    if events != [] {
      RunKeepsInv(s, events[..|events| - 1]);
      StepKeepsInv(Run(s, events[..|events| - 1]), events[|events| - 1]);
    }
  }

  lemma {:induction false} RunKeepsConfig(s: Client, events: seq<Event>)
    ensures Run(s, events).cfg == s.cfg
  {
    if events != [] {
      RunKeepsConfig(s, events[..|events| - 1]);
      StepKeepsConfig(Run(s, events[..|events| - 1]), events[|events| - 1]);
    }
  }

  lemma StepKeepsConfig(s: Client, e: Event)
    ensures Step(s, e).cfg == s.cfg
  {
  }

  /** In every run there is an interface for exactly the if_ids of the jobs that have theirs, and
      no secret, connection or association without a job that got that far. */
  lemma NothingWithoutAJob(s: Client, events: seq<Event>)
    requires Fresh(s)
    ensures var r := Run(s, events);
            && (forall i :: i in r.host.ifaces <==> exists j :: Owns(r.jobs, j, i))
            && (forall n :: n in r.host.secrets ==> exists j :: Reached(r.jobs, j, n, 3))
            && (forall n :: n in r.host.conns ==> exists j :: Reached(r.jobs, j, n, 4))
            && (forall n :: n in r.host.sas ==> exists j :: Reached(r.jobs, j, n, 5))
  {
    RunKeepsInv(s, events);
    HostHolds(Run(s, events).host, Run(s, events).jobs);
  }

  lemma HostHolds(h: Host, jobs: Jobs)
    requires HostOk(h, jobs)
    ensures forall i :: i in h.ifaces <==> exists j :: Owns(jobs, j, i)
    ensures forall n :: n in h.secrets ==> exists j :: Reached(jobs, j, n, 3)
    ensures forall n :: n in h.conns ==> exists j :: Reached(jobs, j, n, 4)
    ensures forall n :: n in h.sas ==> exists j :: Reached(jobs, j, n, 5)
  {
  }

  /** In every run the client's fields record exactly the jobs: peers are the adds that finished,
      pending names those of adds and removes in flight, and the if_ids in use those of the jobs
      that are not rolling back. */
  lemma FieldsExact(s: Client, events: seq<Event>)
    requires Fresh(s)
    ensures var r := Run(s, events);
            && (forall n :: n in r.desk.peers <==> exists j :: Up1(r.jobs, j, n))
            && (forall n :: n in r.desk.pending <==> exists j :: Pending1(r.jobs, j, n))
            && (forall i :: i in r.desk.ifIDs <==> exists j :: Uses(r.jobs, j, i))
  {
    RunKeepsInv(s, events);
    DeskHolds(Run(s, events).desk, Run(s, events).jobs);
  }

  lemma DeskHolds(d: Desk, jobs: Jobs)
    requires DeskOk(d, jobs)
    ensures forall n :: n in d.peers <==> exists j :: Up1(jobs, j, n)
    ensures forall n :: n in d.pending <==> exists j :: Pending1(jobs, j, n)
    ensures forall i :: i in d.ifIDs <==> exists j :: Uses(jobs, j, i)
  {
  }

  /** In every run a bypass route counts its users: controllers not released, and jobs that hold
      theirs. Routes that were there before are never deleted. */
  lemma BypassCounts(s: Client, events: seq<Event>)
    requires Fresh(s)
    ensures var r := Run(s, events); Ringed(s.cfg, r.ring, r.jobs) && s.cfg.initial <= r.ring.table.host
  {
    RunKeepsInv(s, events);
    RunKeepsConfig(s, events);
    var r := Run(s, events);
    ForeignKept(r.ring.table, r.cfg.initial, r.ring.held);
  }

  /** Once the client is closed, every add and teardown is over and the controllers' routes are
      released, nothing is left: the host is as it was before the client. */
  lemma AllReturned(s: Client, events: seq<Event>)
    requires Fresh(s)
    requires var r := Run(s, events);
             && r.desk.closed && r.jobs == map[]
             && (s.cfg.full ==> r.ring.released == |s.cfg.controllers|)
    ensures var r := Run(s, events);
            && r.host == Host(map[], map[], map[], map[], None)
            && r.ring.table == Table(map[], s.cfg.initial)
            && r.desk.peers == map[] && r.desk.pending == map[] && r.desk.ifIDs == map[]
  {
    RunKeepsInv(s, events);
    RunKeepsConfig(s, events);
    var r := Run(s, events);
    NothingLeft(r.desk, r.host);
    NobodyHolds(r.cfg, r.ring);
    NobodyLeft(r.ring.table, r.cfg.initial);
  }

  lemma NothingLeft(d: Desk, h: Host)
    requires DeskOk(d, map[]) && HostOk(h, map[])
    ensures d.peers == map[] && d.pending == map[] && d.ifIDs == map[] && h == Host(map[], map[], map[], map[], None)
  {
    assert h.ifaces == map[] && h.secrets == map[] && h.conns == map[] && h.sas == map[];
  }

  lemma NobodyHolds(cfg: Config, r: Ring)
    requires RingOk(cfg, r, map[]) && (cfg.full ==> r.released == |cfg.controllers|)
    ensures r.held == map[]
  {
    forall h ensures h !in r.held {
      match h
      case Controller(i) => assert Controller(i) in r.held <==> cfg.full && r.released <= i < |cfg.controllers|;
      case Peer(j) => assert h == Peer(j);
    }
  }

  /** After Promote moved the routes to a peer, that peer cannot be removed exactly when the
      withdrawal worked too, or it was already the active one: otherwise the peer that carries
      the routes can go. */
  lemma CarrierKeptExactly(s: Client, name: Name, withdrawn: bool)
    requires Inv(s) && !s.desk.closed && name in s.desk.peers
    requires s.desk.peers[name] in s.jobs && (name, s.jobs[s.desk.peers[name]].ifID) in s.checked
    ensures var ifID := s.jobs[s.desk.peers[name]].ifID;
            var t := Step(s, Route(name, ifID, withdrawn));
            && t.host.routed == Some(ifID)
            && (name in Step(t, Remove(name)).desk.peers <==> withdrawn || s.desk.active == name)
  {
    PeerHasInterface(s.desk.peers, s.host.ifaces, s.jobs, s.desk.closed, name);
    var ifID := s.jobs[s.desk.peers[name]].ifID;
    var t := Step(s, Route(name, ifID, withdrawn));
    assert t.desk == s.desk.(active := if withdrawn then name else s.desk.active) && t.jobs == s.jobs;
  }

  lemma PeerHasInterface(peers: map<Name, nat>, ifaces: map<nat, nat>, jobs: Jobs, closed: bool, name: Name)
    requires PeersOk(peers, jobs) && Phased(closed, jobs) && Interfaces(ifaces, jobs) && name in peers
    ensures peers[name] in jobs && jobs[peers[name]].ifID in ifaces
  {
    assert Up1(jobs, peers[name], name);
  }
}
