/** What each request to the controller comes to, in every run, when nothing is pending and nobody
    interferes. Store accesses may fail, before or after they take effect. */
module ControllerRequests {
  import opened Words
  import opened Ownership
  import opened Store
  import opened Ledger
  import opened Controller

  /** A registered gateway that takes the backend's clients. */
  predicate Takes(gateways: map<Name, Gateway>, access: Name, backend: Backend) {
    access in gateways && gateways[access].access && (backend == WireGuard || gateways[access].ipsec)
  }

  /** What a migration request needs. */
  predicate CanMigrate(s: Server, id: Name, epoch: Ownership.Epoch, backend: Backend, access: Name, egress: Name) {
    && id in s.clients && id in s.ledger.current && s.ledger.current[id].epoch == epoch && epoch + 1 < UINT64
    && Takes(s.gateways, access, backend) && egress in s.gateways && s.gateways[egress].egress
  }

  ghost predicate MigratesExactly(s: Server, t: Server, id: Name, epoch: Ownership.Epoch, backend: Backend,
                                  access: Name, egress: Name) {
    if CanMigrate(s, id, epoch, backend, access, egress)
    then t == s.(ledger := s.ledger.Commit(Record(id, access, egress, epoch + 1)), version := s.version + 1)
    else t == s
  }

  lemma MigrateWorks(net: Network, s: Server, id: Name, epoch: Ownership.Epoch, backend: Backend, access: Name,
                     egress: Name)
    requires s.pending == Idle && s.ledger.Valid()
    ensures var begun := Step(net, s, Migrate(id, epoch, backend, access, egress));
            MigratesExactly(s, Step(net, begun, FinishMigrate(Works)), id, epoch, backend, access, egress)
  {
    var begun := Step(net, s, Migrate(id, epoch, backend, access, egress));
    assert begun == AfterMigrate(s, id, epoch, backend, access, egress);
  }

  /** A migration gives the session the access and egress asked for, at the next epoch, exactly when
      the client and its record at that epoch stand, the access takes the backend and the egress is
      a registered one. Otherwise nothing changes. */
  lemma MigrateRecordsExactly(net: Network, events: seq<Event>, id: Name, epoch: Ownership.Epoch, backend: Backend,
                              access: Name, egress: Name)
    requires Run(net, events).pending == Idle
    ensures var after := events + [Migrate(id, epoch, backend, access, egress)] + [FinishMigrate(Works)];
            MigratesExactly(Run(net, events), Run(net, after), id, epoch, backend, access, egress)
  {
    RunKeepsInv(net, events);
    var request := Migrate(id, epoch, backend, access, egress);
    RunNext(net, events, request);
    RunNext(net, events + [request], FinishMigrate(Works));
    MigrateWorks(net, Run(net, events), id, epoch, backend, access, egress);
  }

  /** What opening a session needs: an ID and a public key of its own, a path whose access takes the
      backend, and the lowest free address. */
  ghost predicate CanOpen(net: Network, s: Server, c: Client, path: Path) {
    && c.id !in s.clients && c.id !in s.ledger.current
    && (forall d :: d in s.clients ==> s.clients[d].publicKey != c.publicKey)
    && path.Path? && Takes(s.gateways, path.access, c.backend)
    && IsLowestFree(net.clients, VirtualIPs(s), Some(c.virtualIP))
  }

  ghost predicate OpensExactly(net: Network, s: Server, t: Server, c: Client, path: Path, own: Access, put: Access) {
    if CanOpen(net, s, c, path)
    then t == s.(ledger := if own.TakesEffect()
                           then s.ledger.Commit(Record(c.id, path.access, path.egress, 1)) else s.ledger,
                 clients := if own.Works? && put.TakesEffect() then s.clients[c.id := c] else s.clients,
                 version := if own.Works? && put.Works? then s.version + 1 else s.version)
    else t == s
  }

  /** Opening a session records its path, at epoch 1, and then, unless that failed, its client; it is
      announced if both worked. */
  lemma OpenRecordsExactly(net: Network, events: seq<Event>, c: Client, path: Path, own: Access, put: Access)
    requires Run(net, events).pending == Idle
    ensures var open := Open(c.id, c.publicKey, c.secretHash, c.backend, path, Some(c.virtualIP), own, put);
            OpensExactly(net, Run(net, events), Run(net, events + [open]), c, path, own, put)
  {
    RunNext(net, events, Open(c.id, c.publicKey, c.secretHash, c.backend, path, Some(c.virtualIP), own, put));
    OpenWorks(net, Run(net, events), c, path, own, put);
  }

  lemma OpenWorks(net: Network, s: Server, c: Client, path: Path, own: Access, put: Access)
    requires s.pending == Idle
    ensures OpensExactly(net, s, AfterOpen(net, s, c, path, own, put), c, path, own, put)
  {
  }

  /** The address a gateway registers with: its own if it has one, else the lowest free one. */
  ghost predicate NodeAddress(net: Network, s: Server, id: Name, ip: Option<nat>, address: nat) {
    if id in s.gateways then address == s.gateways[id].nodeIP
    else ip == Some(address) && IsLowestFree(net.nodes, NodeIPs(s), ip)
  }

  /** The gateway is recorded as it describes itself, with this address, and seen. */
  ghost predicate Registered(s: Server, t: Server, id: Name, request: Gateway, address: nat) {
    && t.gateways ==
       s.gateways[id := Gateway(id, request.access, request.egress, request.ipsec, address, request.details)]
    && t.alive == s.alive + {id} && t.clients == s.clients && t.ledger == s.ledger && t.pending == s.pending
    && (t.version == s.version <==> t.gateways == s.gateways && t.alive == s.alive)
  }

  lemma RegisterWorks(net: Network, s: Server, id: Name, request: Gateway, ip: Option<nat>, address: nat)
    requires NodeAddress(net, s, id, ip, address) && GatewaysOk(net, s.gateways)
    ensures Registered(s, AfterRegister(net, s, id, request, ip, Works), id, request, address)
  {
    if id in s.gateways {
      assert s.gateways[id := s.gateways[id]] == s.gateways;
    }
  }

  /** A registration whose write fails changes the record if it took effect, and nothing else. */
  lemma RegisterFails(net: Network, events: seq<Event>, id: Name, request: Gateway, ip: Option<nat>, address: nat,
                      landed: bool)
    requires Run(net, events).pending == Idle && NodeAddress(net, Run(net, events), id, ip, address)
    requires var g := Gateway(id, request.access, request.egress, request.ipsec, address, request.details);
             !(id in Run(net, events).gateways && Run(net, events).gateways[id] == g)
    ensures var s, t := Run(net, events), Run(net, events + [Register(id, request, ip, Fails(landed))]);
            var g := Gateway(id, request.access, request.egress, request.ipsec, address, request.details);
            t == s.(gateways := if landed then s.gateways[id := g] else s.gateways)
  {
    RunNext(net, events, Register(id, request, ip, Fails(landed)));
  }

  /** Registering records the gateway as it describes itself, with that address, and has it seen;
      without an address nothing changes. */
  lemma RegisterRecordsExactly(net: Network, events: seq<Event>, id: Name, request: Gateway, ip: Option<nat>)
    requires Run(net, events).pending == Idle
    ensures var s, t := Run(net, events), Run(net, events + [Register(id, request, ip, Works)]);
            && (forall address :: NodeAddress(net, s, id, ip, address) ==> Registered(s, t, id, request, address))
            && ((forall address :: !NodeAddress(net, s, id, ip, address)) ==> t == s)
  {
    var s := Run(net, events);
    RunNext(net, events, Register(id, request, ip, Works));
    RunKeepsInv(net, events);
    forall address | NodeAddress(net, s, id, ip, address)
      ensures Registered(s, AfterRegister(net, s, id, request, ip, Works), id, request, address)
    {
      RegisterWorks(net, s, id, request, ip, address);
    }
    assert id in s.gateways ==> NodeAddress(net, s, id, ip, s.gateways[id].nodeIP);
    assert id !in s.gateways && ip.Some? && IsLowestFree(net.nodes, NodeIPs(s), ip) ==>
             NodeAddress(net, s, id, ip, ip.value);
  }

  /** A report has the gateway seen, if it is registered; a sweep has it no longer. The version
      moves exactly when that changes something. */
  lemma AliveFollows(net: Network, events: seq<Event>, id: Name)
    requires Run(net, events).pending == Idle
    ensures var s := Run(net, events);
            var reported, swept := Run(net, events + [Report(id)]), Run(net, events + [Sweep(id)]);
            && reported ==
               s.(alive := if id in s.gateways then s.alive + {id} else s.alive, version := reported.version)
            && reported.version == s.version + (if id in s.gateways && id !in s.alive then 1 else 0)
            && swept == s.(alive := s.alive - {id}, version := s.version + if id in s.alive then 1 else 0)
  {
    RunNext(net, events, Report(id));
    RunNext(net, events, Sweep(id));
    var s := Run(net, events);
    assert id in s.alive ==> s.alive + {id} == s.alive;
    assert id !in s.alive ==> s.alive - {id} == s.alive;
  }

  /** What a switch does to the record: nothing if the access takes the backend; else it moves to
      the path's access, if that does. */
  function Rerouted(ledger: Ledger, cur: Record, takes: bool, access: Name): Ledger {
    if takes || cur.epoch + 1 >= UINT64 then ledger
    else ledger.Commit(Record(cur.session, access, cur.egress, cur.epoch + 1))
  }

  ghost predicate SwitchesExactly(s: Server, t: Server, id: Name, backend: Backend, path: Path, own: Access,
                                  put: Access)
    requires id in s.clients && id in s.ledger.current
  {
    var cur := s.ledger.current[id];
    var stays := Takes(s.gateways, cur.access, backend);
    var moves := path.Path? && Takes(s.gateways, path.access, backend);
    if s.clients[id].backend != backend && (stays || moves)
    then t == s.(ledger := if stays || !own.TakesEffect() then s.ledger
                           else Rerouted(s.ledger, cur, stays, if moves then path.access else NONAME),
                 clients := if (stays || own.Works?) && put.TakesEffect()
                            then s.clients[id := s.clients[id].(backend := backend)] else s.clients,
                 version := if (stays || own.Works?) && put.Works? then s.version + 1 else s.version)
    else t == s
  }

  lemma SwitchWorks(net: Network, s: Server, id: Name, backend: Backend, path: Path, own: Access, put: Access)
    requires s.pending == Idle && id in s.clients && id in s.ledger.current
    requires s.ledger.current[id].session == id && s.clients[id].id == id
    ensures SwitchesExactly(s, Step(net, Step(net, s, Switch(id, backend, path)), FinishSwitch(own, put)),
                            id, backend, path, own, put)
  {
    var begun := Step(net, s, Switch(id, backend, path));
    assert begun == AfterSwitch(s, id, backend, path);
    if begun.pending.Switching? {
      assert Step(net, begun, FinishSwitch(own, put))
             == AfterFinishSwitch(begun, begun.pending.next, begun.pending.moves, begun.pending.client, own, put);
      if begun.pending.moves {
        SwitchMoves(s, id, backend, path, own, put);
      } else {
        SwitchStays(s, id, backend, path, own, put);
      }
    }
  }

  lemma SwitchStays(s: Server, id: Name, backend: Backend, path: Path, own: Access, put: Access)
    requires s.pending == Idle && id in s.clients && id in s.ledger.current && s.clients[id].id == id
    requires s.clients[id].backend != backend && Takes(s.gateways, s.ledger.current[id].access, backend)
    ensures var p := AfterSwitch(s, id, backend, path);
            && p.pending.Switching?
            && SwitchesExactly(s, AfterFinishSwitch(p, p.pending.next, p.pending.moves, p.pending.client, own, put),
                               id, backend, path, own, put)
  {
  }

  lemma SwitchMoves(s: Server, id: Name, backend: Backend, path: Path, own: Access, put: Access)
    requires s.pending == Idle && id in s.clients && id in s.ledger.current
    requires s.ledger.current[id].session == id && s.clients[id].id == id
    requires s.clients[id].backend != backend && !Takes(s.gateways, s.ledger.current[id].access, backend)
    requires path.Path? && Takes(s.gateways, path.access, backend)
    ensures var p := AfterSwitch(s, id, backend, path);
            && p.pending.Switching?
            && SwitchesExactly(s, AfterFinishSwitch(p, p.pending.next, p.pending.moves, p.pending.client, own, put),
                               id, backend, path, own, put)
  {
  }

  /** Switching a session's backend moves the session to the path's access, with its egress and the
      next epoch, exactly when its own access does not take the backend and the path's does; then,
      unless that failed, it records the backend, and announces it if that worked. If neither access
      takes the backend nothing changes. */
  lemma SwitchRecordsExactly(net: Network, events: seq<Event>, id: Name, backend: Backend, path: Path,
                             own: Access, put: Access)
    requires var s := Run(net, events); s.pending == Idle && id in s.clients && id in s.ledger.current
    ensures var after := events + [Switch(id, backend, path)] + [FinishSwitch(own, put)];
            SwitchesExactly(Run(net, events), Run(net, after), id, backend, path, own, put)
  {
    RunKeepsInv(net, events);
    RunNext(net, events, Switch(id, backend, path));
    RunNext(net, events + [Switch(id, backend, path)], FinishSwitch(own, put));
    SwitchWorks(net, Run(net, events), id, backend, path, own, put);
  }
}
