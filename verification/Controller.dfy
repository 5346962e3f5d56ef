/** The controller's session and gateway bookkeeping: address allocation, choosing a
    first path, opening and re-opening sessions, and migrating them. */
module Controller {
  import opened Words
  import opened Ownership
  import opened Store
  import opened Ledger

  // ------------------------------------------------------------ IPv4 addresses

  const ADDRESSES: nat := 0x1_0000_0000

  /** `Addr.Next`: the address after the last one is invalid, and so is any after that. */
  function Next(a: Option<nat>): Option<nat> {
    if a.Some? && a.value + 1 < ADDRESSES then Some(a.value + 1) else None
  }

  /** A masked IPv4 prefix: the addresses [base, base + size). */
  datatype Prefix = Prefix(base: nat, size: nat) {

    predicate Valid() {
      size > 0 && base + size <= ADDRESSES
    }

    predicate Contains(a: Option<nat>) {
      a.Some? && base <= a.value < base + size
    }

    /** Addresses handed out: not the first two, not the last. */
    predicate Usable(a: nat) {
      base + 2 <= a < base + size - 1
    }
  }

  /** `a` is the lowest usable address not in `used`; None when there is none. */
  ghost predicate IsLowestFree(p: Prefix, used: set<nat>, a: Option<nat>) {
    match a
    case Some(x) => p.Usable(x) && x !in used && forall b: nat :: p.Usable(b) && b < x ==> b in used
    case None => forall b: nat :: p.Usable(b) ==> b in used
  }

  method Allocate(p: Prefix, used: set<nat>) returns (r: Option<nat>)
    requires p.Valid()
    ensures IsLowestFree(p, used, r)
  {
    var a := Next(Next(Some(p.base)));
    while p.Contains(a)
      invariant a.None? ==> forall b: nat :: p.Usable(b) ==> b in used
      invariant a.Some? ==> a.value >= p.base + 2 && forall b: nat :: p.Usable(b) && b < a.value ==> b in used
      decreases if a.Some? then ADDRESSES - a.value else -1
    {
      if a.value !in used && p.Contains(Next(a)) {
        return a;
      }
      a := Next(a);
    }
    return None;
  }

  lemma LowestFreeUnique(p: Prefix, used: set<nat>, a: Option<nat>, b: Option<nat>)
    requires IsLowestFree(p, used, a) && IsLowestFree(p, used, b)
    ensures a == b
  {
  }

  // -------------------------------------------------------- choosing a path

  datatype Backend = WireGuard | IPsec

  /** `details` stands for the endpoint, the public key and the backbone ports. */
  datatype Gateway = Gateway(id: Name, access: bool, egress: bool, ipsec: bool, nodeIP: nat, details: Name)

  predicate CanAccess(g: Gateway, backend: Backend) {
    g.access && (backend == IPsec ==> g.ipsec)
  }

  predicate LiveEgress(alive: set<Name>, g: Gateway) {
    g.egress && g.id in alive
  }

  predicate LiveAccess(alive: set<Name>, backend: Backend, g: Gateway) {
    g.id in alive && CanAccess(g, backend)
  }

  /** The first index at which a gateway has `id`, or |gws|. */
  function Find(gws: seq<Gateway>, id: Name): (i: nat)
    ensures i <= |gws| && (i < |gws| ==> gws[i].id == id)
    ensures forall j :: 0 <= j < i ==> gws[j].id != id
  {
    if gws == [] || gws[0].id == id then 0 else 1 + Find(gws[1..], id)
  }

  datatype Path = Path(access: Name, egress: Name) | NoEgress | NoAccess

  /** What a chosen path means. The egress is the one asked for, alive or not, or the
      first live egress gateway. The access is that same gateway if it can be, alive or
      not, or else the first live gateway that can. */
  ghost predicate Chosen(gws: seq<Gateway>, alive: set<Name>, wanted: Name, backend: Backend, r: Path) {
    match r
    case NoEgress =>
      if wanted != NONAME then Find(gws, wanted) == |gws| || !gws[Find(gws, wanted)].egress
      else forall g :: g in gws ==> !LiveEgress(alive, g)
    case NoAccess =>
      exists e: nat :: IsEgress(gws, alive, wanted, e) && !CanAccess(gws[e], backend)
                  && forall g :: g in gws ==> !LiveAccess(alive, backend, g)
    case Path(access, egress) =>
      exists e: nat :: IsEgress(gws, alive, wanted, e) && egress == gws[e].id
                  && if CanAccess(gws[e], backend) then access == egress
                     else exists a: nat :: FirstLiveAccess(gws, alive, backend, a) && access == gws[a].id
  }

  ghost predicate FirstLiveAccess(gws: seq<Gateway>, alive: set<Name>, backend: Backend, a: nat) {
    a < |gws| && LiveAccess(alive, backend, gws[a]) && forall j :: 0 <= j < a ==> !LiveAccess(alive, backend, gws[j])
  }

  ghost predicate IsEgress(gws: seq<Gateway>, alive: set<Name>, wanted: Name, e: nat) {
    if wanted != NONAME then e == Find(gws, wanted) && e < |gws| && gws[e].egress
    else e < |gws| && LiveEgress(alive, gws[e]) && forall j :: 0 <= j < e ==> !LiveEgress(alive, gws[j])
  }

  method PickPath(gws: seq<Gateway>, alive: set<Name>, wanted: Name, backend: Backend) returns (r: Path)
    ensures Chosen(gws, alive, wanted, backend, r)
  {
    var e := 0;
    if wanted != NONAME {
      e := Find(gws, wanted);
      if e == |gws| || !gws[e].egress {
        return NoEgress;
      }
    } else {
      while e < |gws| && !LiveEgress(alive, gws[e])
        invariant e <= |gws| && forall j :: 0 <= j < e ==> !LiveEgress(alive, gws[j])
      {
        e := e + 1;
      }
      if e == |gws| {
        return NoEgress;
      }
    }
    assert IsEgress(gws, alive, wanted, e);
    if CanAccess(gws[e], backend) {
      return Path(gws[e].id, gws[e].id);
    }
    var a := 0;
    while a < |gws|
      invariant a <= |gws| && forall j :: 0 <= j < a ==> !LiveAccess(alive, backend, gws[j])
    {
      if LiveAccess(alive, backend, gws[a]) {
        assert FirstLiveAccess(gws, alive, backend, a);
        return Path(gws[a].id, gws[e].id);
      }
      a := a + 1;
    }
    return NoAccess;
  }

  /** A chosen access can serve the backend. */
  lemma ChosenServes(gws: seq<Gateway>, alive: set<Name>, wanted: Name, backend: Backend, r: Path)
    requires Chosen(gws, alive, wanted, backend, r) && r.Path?
    ensures exists i :: 0 <= i < |gws| && gws[i].id == r.access && CanAccess(gws[i], backend)
  {
    var e: nat :| IsEgress(gws, alive, wanted, e) && r.egress == gws[e].id
                  && if CanAccess(gws[e], backend) then r.access == r.egress
                     else exists a: nat :: FirstLiveAccess(gws, alive, backend, a) && r.access == gws[a].id;
    if !CanAccess(gws[e], backend) {
      var a: nat :| FirstLiveAccess(gws, alive, backend, a) && r.access == gws[a].id;
      assert gws[a].id == r.access;
    }
  }

  // ------------------------------------------------------ the server as steps

  datatype Client = Client(id: Name, publicKey: Name, virtualIP: nat, secretHash: Name, backend: Backend)

  datatype Network = Network(clients: Prefix, nodes: Prefix) {
    /** The subnets are disjoint. */
    predicate Valid() {
      && clients.Valid() && nodes.Valid()
      && (clients.base + clients.size <= nodes.base || nodes.base + nodes.size <= clients.base)
    }
  }

  /** The write the server holds its lock for: it read `from` as the session's record and
      will commit `next` (nothing, if the access can stay), and for a backend switch it
      then stores the client record. A migration's access was chosen for `backend`, which was
      recorded when the client authenticated, before the lock was taken. */
  datatype Pending =
    | Idle
    | Migrating(from: Record, next: Record, backend: Backend)
    | Switching(from: Record, next: Record, moves: bool, client: Client)

  datatype Server = Server(gateways: map<Name, Gateway>, clients: map<Name, Client>, ledger: Ledger,
                           alive: set<Name>, version: nat, pending: Pending)

  /** How a write to the store goes: it may report an error whether it took effect or not. */
  datatype Access = Works | Fails(landed: bool) {
    predicate TakesEffect() {
      Works? || landed
    }
  }

  /** Requests, with what the server cannot compute from its own state: the random ID and
      secret, the address `Allocate` returned, the path `PickPath` returned, and how writing
      the ownership record and the other record goes. */
  datatype Event =
    | Register(id: Name, request: Gateway, ip: Option<nat>, put: Access)
    | Report(id: Name)
    | Sweep(id: Name)
    | Open(id: Name, publicKey: Name, secretHash: Name, backend: Backend, path: Path, ip: Option<nat>, own: Access,
           put: Access)
    | Switch(id: Name, backend: Backend, path: Path)
    | FinishSwitch(own: Access, put: Access)
    | Migrate(id: Name, epoch: Ownership.Epoch, backend: Backend, access: Name, egress: Name)
    | FinishMigrate(own: Access)
    | Other(rec: Record)  // another process sharing the store; it may act at any time

  const Initial := Server(map[], map[], EMPTY, {}, 1, Idle)

  function NodeIPs(s: Server): set<nat> {
    set g | g in s.gateways :: s.gateways[g].nodeIP
  }

  function VirtualIPs(s: Server): set<nat> {
    set c | c in s.clients :: s.clients[c].virtualIP
  }

  function Seen(s: Server, id: Name): Server {
    if id in s.alive then s else s.(alive := s.alive + {id}, version := s.version + 1)
  }

  /** The gateway record is stored, announced and the gateway seen, or the request fails. */
  function WithGateway(s: Server, g: Gateway, put: Access): Server {
    if put.Works? then Seen(Server(s.gateways[g.id := g], s.clients, s.ledger, s.alive, s.version + 1, s.pending), g.id)
    else if put.landed then s.(gateways := s.gateways[g.id := g])
    else s
  }

  /** Registering again keeps the node IP; a new gateway gets the lowest free one. */
  ghost function AfterRegister(net: Network, s: Server, id: Name, request: Gateway, ip: Option<nat>,
                               put: Access): Server
  {
    if id in s.gateways then
      var next := request.(id := id, nodeIP := s.gateways[id].nodeIP);
      if next == s.gateways[id] then Seen(s, id) else WithGateway(s, next, put)
    else if IsLowestFree(net.nodes, NodeIPs(s), ip) && ip.Some?
    then WithGateway(s, request.(id := id, nodeIP := ip.value), put)
    else s
  }

  /** The ledger after SetIfNewer, which may fail before or after its write. */
  function Owned(l: Ledger, rec: Record, own: Access): Ledger {
    if own.TakesEffect() then l.SetIfNewer(rec) else l
  }

  /** The client record is stored and announced, or the request fails. */
  function WithClient(s: Server, c: Client, put: Access): Server {
    if put.Works? then Server(s.gateways, s.clients[c.id := c], s.ledger, s.alive, s.version + 1, Idle)
    else if put.landed then Server(s.gateways, s.clients[c.id := c], s.ledger, s.alive, s.version, Idle)
    else s.(pending := Idle)
  }

  /** Opening a session: its ownership record first, then its client record. */
  function Opened(s: Server, c: Client, path: Path, own: Access, put: Access): Server
    requires path.Path?
  {
    var owned := s.(ledger := Owned(s.ledger, Record(c.id, path.access, path.egress, 1), own));
    if own.Works? then WithClient(owned, c, put) else owned
  }

  /** A session may be opened under an ID the random generator has not returned before. */
  predicate Fresh(s: Server, id: Name) {
    id !in s.clients && id !in s.ledger.current
  }

  /** A gateway that can serve the backend's clients. */
  predicate Serves(gateways: map<Name, Gateway>, access: Name, backend: Backend) {
    access in gateways && CanAccess(gateways[access], backend)
  }

  ghost function AfterOpen(net: Network, s: Server, c: Client, path: Path, own: Access, put: Access): Server {
    if && Fresh(s, c.id) && path.Path? && Serves(s.gateways, path.access, c.backend)
       && (forall d :: d in s.clients ==> s.clients[d].publicKey != c.publicKey)
       && IsLowestFree(net.clients, VirtualIPs(s), Some(c.virtualIP))
    then Opened(s, c, path, own, put) else s
  }

  function AfterSwitch(s: Server, id: Name, backend: Backend, path: Path): Server {
    if id !in s.clients || id !in s.ledger.current || s.clients[id].backend == backend then s else
    var cur, client := s.ledger.current[id], s.clients[id].(backend := backend);
    if Serves(s.gateways, cur.access, backend) then s.(pending := Switching(cur, cur, false, client))
    else if path.Path? && Serves(s.gateways, path.access, backend)
    then s.(pending := Switching(cur, Record(id, path.access, cur.egress, Successor(cur.epoch)), true, client))
    else s
  }

  function AfterMigrate(s: Server, id: Name, epoch: Ownership.Epoch, backend: Backend, access: Name,
                        egress: Name): Server
  {
    if && id in s.clients && id in s.ledger.current
       && Serves(s.gateways, access, backend)
       && egress in s.gateways && s.gateways[egress].egress
       && epoch == s.ledger.current[id].epoch
    then s.(pending := Migrating(s.ledger.current[id], Record(id, access, egress, Successor(epoch)), backend))
    else s
  }

  function AfterFinishMigrate(s: Server, next: Record, own: Access): Server {
    if own.Works? && s.ledger.Accepts(next)
    then Server(s.gateways, s.clients, s.ledger.Commit(next), s.alive, s.version + 1, Idle)
    else Server(s.gateways, s.clients, Owned(s.ledger, next, own), s.alive, s.version, Idle)
  }

  /** The answer of SetIfNewer is not looked at, unless it is an error: the backend is recorded
      whether the session moved or not. */
  function AfterFinishSwitch(s: Server, next: Record, moves: bool, client: Client, own: Access, put: Access): Server {
    if !moves then WithClient(s, client, put)
    else
      var owned := s.(ledger := Owned(s.ledger, next, own));
      if own.Works? then WithClient(owned, client, put) else owned.(pending := Idle)
  }

  ghost function Step(net: Network, s: Server, e: Event): Server {
    match e
    case Other(rec) => s.(ledger := s.ledger.SetIfNewer(rec))
    case FinishMigrate(own) => if s.pending.Migrating? then AfterFinishMigrate(s, s.pending.next, own) else s
    case FinishSwitch(own, put) =>
      if s.pending.Switching? then AfterFinishSwitch(s, s.pending.next, s.pending.moves, s.pending.client, own, put)
      else s
    case Register(id, request, ip, put) => if s.pending == Idle then AfterRegister(net, s, id, request, ip, put) else s
    case Report(id) => if s.pending == Idle && id in s.gateways then Seen(s, id) else s
    case Sweep(id) =>
      if s.pending == Idle && id in s.alive then s.(alive := s.alive - {id}, version := s.version + 1) else s
    case Open(id, key, hash, backend, path, ip, own, put) =>
      if s.pending == Idle && ip.Some? then AfterOpen(net, s, Client(id, key, ip.value, hash, backend), path, own, put)
      else s
    case Switch(id, backend, path) => if s.pending == Idle then AfterSwitch(s, id, backend, path) else s
    case Migrate(id, epoch, backend, access, egress) =>
      if s.pending == Idle then AfterMigrate(s, id, epoch, backend, access, egress) else s
  }

  ghost function Run(net: Network, events: seq<Event>): Server {
    if events == [] then Initial else Step(net, Run(net, events[..|events| - 1]), events[|events| - 1])
  }

  // --------------------------------------------------------------- invariant

  ghost predicate GatewaysOk(net: Network, gateways: map<Name, Gateway>) {
    && (forall g :: g in gateways ==> gateways[g].id == g && net.nodes.Usable(gateways[g].nodeIP))
    && (forall g, h :: g in gateways && h in gateways && g != h ==> gateways[g].nodeIP != gateways[h].nodeIP)
  }

  ghost predicate ClientsOk(net: Network, clients: map<Name, Client>) {
    && (forall c :: c in clients ==> clients[c].id == c && net.clients.Usable(clients[c].virtualIP))
    && (forall c, d :: c in clients && d in clients && c != d ==>
          clients[c].virtualIP != clients[d].virtualIP && clients[c].publicKey != clients[d].publicKey)
  }

  ghost predicate PendingOk(s: Server) {
    match s.pending
    case Idle => true
    case Migrating(from, next, backend) =>
      && from in s.ledger.log && next.session == from.session && next.epoch == Successor(from.epoch)
      && from.session in s.clients && Serves(s.gateways, next.access, backend)
    case Switching(from, next, moves, client) =>
      && from in s.ledger.log && from.session == client.id
      && (moves ==> next == Record(from.session, next.access, from.egress, Successor(from.epoch)))
      && (if moves
          then Serves(s.gateways, next.access, client.backend) && !Serves(s.gateways, from.access, client.backend)
          else Serves(s.gateways, from.access, client.backend))
      && client.id in s.clients && client == s.clients[client.id].(backend := client.backend)
  }

  ghost predicate Inv(net: Network, s: Server) {
    s.ledger.Valid() && GatewaysOk(net, s.gateways) && ClientsOk(net, s.clients) && PendingOk(s)
  }

  /** Sessions and gateways keep their addresses. */
  ghost predicate Keeps(s: Server, t: Server) {
    && (forall c :: c in s.clients ==> c in t.clients && t.clients[c].virtualIP == s.clients[c].virtualIP
                                       && t.clients[c].publicKey == s.clients[c].publicKey)
    && (forall g :: g in s.gateways ==> g in t.gateways && t.gateways[g].nodeIP == s.gateways[g].nodeIP)
  }

  lemma GatewaySet(net: Network, gateways: map<Name, Gateway>, g: Gateway)
    requires GatewaysOk(net, gateways) && net.nodes.Usable(g.nodeIP)
    requires forall h :: h in gateways && h != g.id ==> gateways[h].nodeIP != g.nodeIP
    ensures GatewaysOk(net, gateways[g.id := g])
  {
  }

  lemma ClientSet(net: Network, clients: map<Name, Client>, c: Client)
    requires ClientsOk(net, clients) && net.clients.Usable(c.virtualIP)
    requires forall d :: d in clients && d != c.id ==>
               clients[d].virtualIP != c.virtualIP && clients[d].publicKey != c.publicKey
    ensures ClientsOk(net, clients[c.id := c])
  {
  }

  lemma WithGatewayKeepsInv(net: Network, s: Server, g: Gateway, put: Access)
    requires Inv(net, s) && s.pending == Idle && net.nodes.Usable(g.nodeIP)
    requires if g.id in s.gateways then g.nodeIP == s.gateways[g.id].nodeIP else g.nodeIP !in NodeIPs(s)
    ensures Inv(net, WithGateway(s, g, put)) && Keeps(s, WithGateway(s, g, put))
  {
    assert forall h :: h in s.gateways ==> s.gateways[h].nodeIP in NodeIPs(s);
    GatewaySet(net, s.gateways, g);
  }

  lemma SeenKeepsInv(net: Network, s: Server, id: Name)
    requires Inv(net, s)
    ensures Inv(net, Seen(s, id)) && Seen(s, id).clients == s.clients && Seen(s, id).gateways == s.gateways
  {
  }

  lemma RegisterKeepsInv(net: Network, s: Server, id: Name, request: Gateway, ip: Option<nat>, put: Access)
    requires Inv(net, s) && s.pending == Idle
    ensures Inv(net, AfterRegister(net, s, id, request, ip, put))
            && Keeps(s, AfterRegister(net, s, id, request, ip, put))
  {
    if id in s.gateways {
      WithGatewayKeepsInv(net, s, request.(id := id, nodeIP := s.gateways[id].nodeIP), put);
      SeenKeepsInv(net, s, id);
    } else if IsLowestFree(net.nodes, NodeIPs(s), ip) && ip.Some? {
      WithGatewayKeepsInv(net, s, request.(id := id, nodeIP := ip.value), put);
    }
  }

  lemma WithClientKeepsInv(net: Network, s: Server, c: Client, put: Access)
    requires s.ledger.Valid() && GatewaysOk(net, s.gateways) && ClientsOk(net, s.clients)
             && net.clients.Usable(c.virtualIP)
    requires forall d :: d in s.clients && d != c.id ==>
               s.clients[d].virtualIP != c.virtualIP && s.clients[d].publicKey != c.publicKey
    requires c.id in s.clients ==> s.clients[c.id].virtualIP == c.virtualIP && s.clients[c.id].publicKey == c.publicKey
    ensures Inv(net, WithClient(s, c, put)) && Keeps(s, WithClient(s, c, put))
  {
    ClientSet(net, s.clients, c);
  }

  lemma OpenKeepsInv(net: Network, s: Server, c: Client, path: Path, own: Access, put: Access)
    requires Inv(net, s) && s.pending == Idle
    ensures Inv(net, AfterOpen(net, s, c, path, own, put)) && Keeps(s, AfterOpen(net, s, c, path, own, put))
  {
    if AfterOpen(net, s, c, path, own, put) != s {
      WriteAdvances(s.ledger, Record(c.id, path.access, path.egress, 1));
      assert forall d :: d in s.clients ==> s.clients[d].virtualIP in VirtualIPs(s);
      WithClientKeepsInv(net, s.(ledger := Owned(s.ledger, Record(c.id, path.access, path.egress, 1), own)), c, put);
    }
  }

  lemma FinishMigrateKeepsInv(net: Network, s: Server, next: Record, own: Access)
    requires Inv(net, s)
    ensures Inv(net, AfterFinishMigrate(s, next, own)) && Keeps(s, AfterFinishMigrate(s, next, own))
  {
    WriteAdvances(s.ledger, next);
  }

  lemma FinishSwitchKeepsInv(net: Network, s: Server, next: Record, moves: bool, client: Client, own: Access,
                             put: Access)
    requires Inv(net, s) && client.id in s.clients && client == s.clients[client.id].(backend := client.backend)
    ensures Inv(net, AfterFinishSwitch(s, next, moves, client, own, put))
            && Keeps(s, AfterFinishSwitch(s, next, moves, client, own, put))
  {
    WriteAdvances(s.ledger, next);
    WithClientKeepsInv(net, s, client, put);
    WithClientKeepsInv(net, s.(ledger := Owned(s.ledger, next, own)), client, put);
  }

  /** Starting a write only sets what is pending. */
  lemma BeginKeepsInv(net: Network, s: Server, pending: Pending)
    requires Inv(net, s) && PendingOk(s.(pending := pending))
    ensures Inv(net, s.(pending := pending)) && Keeps(s, s.(pending := pending))
  {
  }

  lemma SwitchKeepsInv(net: Network, s: Server, id: Name, backend: Backend, path: Path)
    requires Inv(net, s) && s.pending == Idle
    ensures Inv(net, AfterSwitch(s, id, backend, path)) && Keeps(s, AfterSwitch(s, id, backend, path))
  {
    if id in s.ledger.current {
      assert s.ledger.current[id] in s.ledger.log && s.ledger.current[id].session == id;
    }
    BeginKeepsInv(net, s, AfterSwitch(s, id, backend, path).pending);
  }

  lemma MigrateKeepsInv(net: Network, s: Server, id: Name, epoch: Ownership.Epoch, backend: Backend, access: Name,
                        egress: Name)
    requires Inv(net, s) && s.pending == Idle
    ensures Inv(net, AfterMigrate(s, id, epoch, backend, access, egress))
            && Keeps(s, AfterMigrate(s, id, epoch, backend, access, egress))
  {
    if id in s.ledger.current {
      assert s.ledger.current[id] in s.ledger.log && s.ledger.current[id].session == id;
    }
    BeginKeepsInv(net, s, AfterMigrate(s, id, epoch, backend, access, egress).pending);
  }

  /** The invariant holds on, and addresses stay. */
  ghost predicate Advances(net: Network, s: Server, t: Server) {
    Inv(net, t) && Keeps(s, t)
  }

  lemma SameAdvances(net: Network, s: Server)
    requires Inv(net, s)
    ensures Advances(net, s, s)
  {
  }

  lemma GatewayStep(net: Network, s: Server, e: Event)
    requires Inv(net, s) && (e.Register? || e.Report? || e.Sweep?)
    ensures Advances(net, s, Step(net, s, e))
  {
    SameAdvances(net, s);
    if s.pending == Idle {
      if e.Register? {
        RegisterKeepsInv(net, s, e.id, e.request, e.ip, e.put);
      } else {
        SeenKeepsInv(net, s, e.id);
      }
    }
  }

  lemma OpenStep(net: Network, s: Server, e: Event)
    requires Inv(net, s) && e.Open?
    ensures Advances(net, s, Step(net, s, e))
  {
    if s.pending == Idle && e.ip.Some? {
      OpenKeepsInv(net, s, Client(e.id, e.publicKey, e.ip.value, e.secretHash, e.backend), e.path, e.own, e.put);
    } else {
      SameAdvances(net, s);
    }
  }

  lemma BeginStep(net: Network, s: Server, e: Event)
    requires Inv(net, s) && (e.Switch? || e.Migrate?)
    ensures Advances(net, s, Step(net, s, e))
  {
    if s.pending != Idle {
      SameAdvances(net, s);
    } else if e.Switch? {
      SwitchKeepsInv(net, s, e.id, e.backend, e.path);
    } else {
      MigrateKeepsInv(net, s, e.id, e.epoch, e.backend, e.access, e.egress);
    }
  }

  lemma FinishMigrateStep(net: Network, s: Server, own: Access)
    requires Inv(net, s)
    ensures Advances(net, s, Step(net, s, FinishMigrate(own)))
  {
    if s.pending.Migrating? {
      FinishMigrateKeepsInv(net, s, s.pending.next, own);
    } else {
      SameAdvances(net, s);
    }
  }

  lemma FinishSwitchStep(net: Network, s: Server, own: Access, put: Access)
    requires Inv(net, s)
    ensures Advances(net, s, Step(net, s, FinishSwitch(own, put)))
  {
    if s.pending.Switching? {
      FinishSwitchKeepsInv(net, s, s.pending.next, s.pending.moves, s.pending.client, own, put);
    } else {
      SameAdvances(net, s);
    }
  }

  lemma OtherStep(net: Network, s: Server, rec: Record)
    requires Inv(net, s)
    ensures Advances(net, s, Step(net, s, Other(rec)))
  {
    WriteAdvances(s.ledger, rec);
  }

  lemma StepKeepsInv(net: Network, s: Server, e: Event)
    requires Inv(net, s)
    ensures Advances(net, s, Step(net, s, e))
  {
    if e.Register? || e.Report? || e.Sweep? {
      GatewayStep(net, s, e);
    } else if e.Open? {
      OpenStep(net, s, e);
    } else if e.Switch? || e.Migrate? {
      BeginStep(net, s, e);
    } else if e.Other? {
      OtherStep(net, s, e.rec);
    } else if e.FinishMigrate? {
      FinishMigrateStep(net, s, e.own);
    } else {
      FinishSwitchStep(net, s, e.own, e.put);
    }
  }

  lemma {:induction false} RunKeepsInv(net: Network, events: seq<Event>)
    ensures Inv(net, Run(net, events))
  {
    if events != [] {
      RunKeepsInv(net, events[..|events| - 1]);
      StepKeepsInv(net, Run(net, events[..|events| - 1]), events[|events| - 1]);
    }
  }

  // ---------------------------------------------------------------- theorems

  /** In every run session virtual IPs and gateway node IPs are inside their subnets,
      never the first two addresses or the last, and pairwise distinct, also from each other. */
  lemma AddressesDistinct(net: Network, events: seq<Event>)
    ensures var s := Run(net, events);
            && (forall c :: c in s.clients ==> net.clients.Usable(s.clients[c].virtualIP))
            && (forall g :: g in s.gateways ==> net.nodes.Usable(s.gateways[g].nodeIP))
            && (forall c, d :: c in s.clients && d in s.clients && s.clients[c].virtualIP == s.clients[d].virtualIP ==>
                  c == d)
            && (forall g, h :: g in s.gateways && h in s.gateways && s.gateways[g].nodeIP == s.gateways[h].nodeIP ==>
                  g == h)
            && (net.Valid() ==> forall c, g :: c in s.clients && g in s.gateways ==>
                  s.clients[c].virtualIP != s.gateways[g].nodeIP)
  {
    RunKeepsInv(net, events);
  }

  /** And they never change over the rest of the run. */
  lemma {:induction false} AddressesNeverChange(net: Network, events: seq<Event>, n: nat)
    requires n <= |events|
    ensures Keeps(Run(net, events[..n]), Run(net, events))
  {
    if n == |events| {
      assert events[..n] == events;
    } else {
      var init := events[..|events| - 1];
      assert init[..n] == events[..n];
      AddressesNeverChange(net, init, n);
      RunKeepsInv(net, init);
      StepKeepsInv(net, Run(net, init), events[|events| - 1]);
    }
  }

  /** Whether writing `next`, made from `from`, would move the session on. */
  predicate Movable(l: Ledger, from: Record) {
    l.Get(from.session) == Some(from) && from.epoch + 1 < UINT64
  }

  /** In every run a migration commits exactly when the store still holds the record whose epoch
      the client named, even if others share the store, and the write takes effect, reported or
      not; it then raises the epoch by exactly one. It is announced exactly when it commits and
      is not reported as an error. Otherwise nothing changes. */
  lemma MigrationCommitsExactly(net: Network, events: seq<Event>, own: Access)
    requires Run(net, events).pending.Migrating?
    ensures var s, t := Run(net, events), Run(net, events + [FinishMigrate(own)]);
            var from, next := s.pending.from, s.pending.next;
            var commits := Movable(s.ledger, from) && own.TakesEffect();
            && t == Server(s.gateways, s.clients, t.ledger, s.alive, t.version, Idle)
            && t.ledger == (if commits then s.ledger.Commit(next) else s.ledger)
            && t.version == (if commits && own.Works? then s.version + 1 else s.version)
            && (commits ==> t.ledger.Get(from.session) == Some(next) && next.epoch == from.epoch + 1)
  {
    RunKeepsInv(net, events);
    var s := Run(net, events);
    assert (events + [FinishMigrate(own)])[..|events|] == events;
    AcceptsSuccessor(s.ledger, s.pending.from, s.pending.next);
  }

  /** A switch that must move the session commits its move in the same cases, to an access that
      serves the new backend, keeping the egress; one that need not leaves the record alone. */
  lemma SwitchCommitsExactly(net: Network, events: seq<Event>, own: Access, put: Access)
    requires Run(net, events).pending.Switching?
    ensures var s, t := Run(net, events), Run(net, events + [FinishSwitch(own, put)]);
            var from, next := s.pending.from, s.pending.next;
            var commits := s.pending.moves && Movable(s.ledger, from) && own.TakesEffect();
            && t.ledger == (if commits then s.ledger.Commit(next) else s.ledger)
            && (commits ==> && t.ledger.Get(from.session) == Some(next) && next.epoch == from.epoch + 1
                            && next.egress == from.egress && Serves(s.gateways, next.access, s.pending.client.backend))
  {
    RunKeepsInv(net, events);
    var s := Run(net, events);
    assert (events + [FinishSwitch(own, put)])[..|events|] == events;
    if s.pending.moves {
      AcceptsSuccessor(s.ledger, s.pending.from, s.pending.next);
    }
  }

  /** A session whose access serves the backend its client is recorded with. */
  predicate Served(s: Server, id: Name) {
    id in s.clients && id in s.ledger.current && Serves(s.gateways, s.ledger.current[id].access, s.clients[id].backend)
  }

  /** A switch that recorded the backend leaves a session that is served exactly when its move
      committed, or the record that stands, its own or another process's, can serve it anyway. */
  lemma SwitchServesExactly(net: Network, events: seq<Event>, own: Access, put: Access)
    requires Run(net, events).pending.Switching?
    requires put.TakesEffect() && (Run(net, events).pending.moves ==> own.Works?)
    ensures var s, t := Run(net, events), Run(net, events + [FinishSwitch(own, put)]);
            var id, backend := s.pending.client.id, s.pending.client.backend;
            && id in s.ledger.current && t.clients[id].backend == backend
            && (Served(t, id) <==> (s.pending.moves && Movable(s.ledger, s.pending.from))
                                   || Serves(s.gateways, s.ledger.current[id].access, backend))
  {
    SwitchCommitsExactly(net, events, own, put);
    RunKeepsInv(net, events);
    var s := Run(net, events);
    assert (events + [FinishSwitch(own, put)])[..|events|] == events;
    CommittedBelowCurrent(s.ledger, s.pending.from);
  }

  /** A migration leaves a session that is served exactly when the access then recorded serves
      the backend then recorded. If it commits, that is so exactly when the client is recorded
      with WireGuard, or the new access takes IPsec clients. */
  lemma MigrationServesExactly(net: Network, events: seq<Event>, own: Access)
    requires Run(net, events).pending.Migrating?
    ensures var s, t := Run(net, events), Run(net, events + [FinishMigrate(own)]);
            var from, next := s.pending.from, s.pending.next;
            && from.session in s.clients && next.access in s.gateways
            && if Movable(s.ledger, from) && own.TakesEffect()
               then Served(t, from.session) <==>
                      s.clients[from.session].backend == WireGuard || s.gateways[next.access].ipsec
               else Served(t, from.session) <==> Served(s, from.session)
  {
    MigrationCommitsExactly(net, events, own);
    RunKeepsInv(net, events);
    var s := Run(net, events);
    CommittedBelowCurrent(s.ledger, s.pending.from);
  }

  lemma RunNext(net: Network, events: seq<Event>, e: Event)
    ensures Run(net, events + [e]) == Step(net, Run(net, events), e)
  {
    assert (events + [e])[..|events|] == events;
  }

  /** So a switch overtaken by another process, which moves the session to an access that cannot
      serve the new backend, leaves a session that is not served. */
  lemma SwitchCanStrand(net: Network, events: seq<Event>, rec: Record)
    requires var s := Run(net, events);
             && s.pending.Switching? && s.pending.moves && rec.session == s.pending.client.id
             && s.ledger.Accepts(rec) && !Serves(s.gateways, rec.access, s.pending.client.backend)
    ensures !Served(Run(net, events + [Other(rec)] + [FinishSwitch(Works, Works)]), rec.session)
  {
    var s, now := Run(net, events), events + [Other(rec)];
    RunNext(net, events, Other(rec));
    assert Run(net, now) == s.(ledger := s.ledger.Commit(rec));
    RunKeepsInv(net, events);
    CommittedBelowCurrent(s.ledger, s.pending.from);
    SwitchServesExactly(net, now, Works, Works);
  }

  // ------------------------------------------------- runs that strand a session

  const NET := Network(Prefix(0, 16), Prefix(16, 16))
  const PLAIN := Name("plain")
  const SECURE := Name("secure")
  const SESSION := Name("1")

  /** Both are access gateways; only `secure` takes IPsec clients. Both are egress gateways. */
  const PlainGateway := Gateway(PLAIN, true, true, false, 18, NONAME)
  const SecureGateway := Gateway(SECURE, true, true, true, 19, NONAME)
  const Gateways := map[PLAIN := PlainGateway, SECURE := SecureGateway]

  function Recorded(backend: Backend): map<Name, Client> {
    map[SESSION := Client(SESSION, Name("key"), 2, Name("hash"), backend)]
  }

  function Registering(): seq<Event> {
    [Register(PLAIN, PlainGateway, Some(18), Works)] + [Register(SECURE, SecureGateway, Some(19), Works)]
  }

  /** Two gateways register, and a WireGuard session is opened through `at`. */
  function Opening(at: Name): seq<Event> {
    Registering() + [Open(SESSION, Name("key"), Name("hash"), WireGuard, Path(at, at), Some(2), Works, Works)]
  }

  function FirstRecord(at: Name): Record {
    Record(SESSION, at, at, 1)
  }

  lemma BothRegistered()
    ensures Run(NET, Registering()) == Server(Gateways, map[], EMPTY, {PLAIN, SECURE}, 5, Idle)
  {
    var first := Register(PLAIN, PlainGateway, Some(18), Works);
    RunNext(NET, [], first);
    assert [] + [first] == [first];
    assert NodeIPs(Initial) == {};
    assert Run(NET, [first]) == Server(map[PLAIN := PlainGateway], map[], EMPTY, {PLAIN}, 3, Idle);
    RunNext(NET, [first], Register(SECURE, SecureGateway, Some(19), Works));
    assert NodeIPs(Run(NET, [first])) == {18};
  }

  lemma OpeningOpens(at: Name)
    requires at in Gateways
    ensures Run(NET, Opening(at)) ==
            Server(Gateways, Recorded(WireGuard), EMPTY.Commit(FirstRecord(at)), {PLAIN, SECURE}, 6, Idle)
  {
    BothRegistered();
    RunNext(NET, Registering(),
            Open(SESSION, Name("key"), Name("hash"), WireGuard, Path(at, at), Some(2), Works, Works));
    assert VirtualIPs(Run(NET, Registering())) == {};
    assert EMPTY.Accepts(FirstRecord(at));
  }

  /** Such a switch: to IPsec, from `plain`, while another process moves the session's egress. */
  lemma SwitchDoesStrand()
    ensures var begun := Opening(PLAIN) + [Switch(SESSION, IPsec, Path(SECURE, PLAIN))];
            !Served(Run(NET, begun + [Other(Record(SESSION, PLAIN, SECURE, 2))] + [FinishSwitch(Works, Works)]),
                    SESSION)
  {
    OpeningOpens(PLAIN);
    RunNext(NET, Opening(PLAIN), Switch(SESSION, IPsec, Path(SECURE, PLAIN)));
    SwitchCanStrand(NET, Opening(PLAIN) + [Switch(SESSION, IPsec, Path(SECURE, PLAIN))],
                    Record(SESSION, PLAIN, SECURE, 2));
  }

  /** Switching a session that can stay where it is. */
  function Switched(): seq<Event> {
    Opening(SECURE) + [Switch(SESSION, IPsec, NoAccess)] + [FinishSwitch(Works, Works)]
  }

  lemma SwitchedOver()
    ensures Run(NET, Switched()) ==
            Server(Gateways, Recorded(IPsec), EMPTY.Commit(FirstRecord(SECURE)), {PLAIN, SECURE}, 7, Idle)
  {
    OpeningOpens(SECURE);
    RunNext(NET, Opening(SECURE), Switch(SESSION, IPsec, NoAccess));
    RunNext(NET, Opening(SECURE) + [Switch(SESSION, IPsec, NoAccess)], FinishSwitch(Works, Works));
  }

  /** And a migration to `plain`, whose client authenticated before it switched to IPsec. */
  lemma MigrationDoesStrand()
    ensures !Served(Run(NET, Switched() + [Migrate(SESSION, 1, WireGuard, PLAIN, PLAIN)] + [FinishMigrate(Works)]),
                    SESSION)
  {
    SwitchedOver();
    RunNext(NET, Switched(), Migrate(SESSION, 1, WireGuard, PLAIN, PLAIN));
    MigrationServesExactly(NET, Switched() + [Migrate(SESSION, 1, WireGuard, PLAIN, PLAIN)], Works);
  }

  /** Opening a session leaves every other session's record alone exactly when its ID is
      new: a repeated random ID would replace the record, and so the address, of the
      session that has it. */
  lemma OpenKeepsOthersExactly(s: Server, c: Client, path: Path)
    requires path.Path? && forall d :: d in s.clients ==> s.clients[d].virtualIP != c.virtualIP
    ensures (forall d :: d in s.clients ==> Opened(s, c, path, Works, Works).clients[d] == s.clients[d]) <==>
              c.id !in s.clients
  {
    if c.id in s.clients {
      assert Opened(s, c, path, Works, Works).clients[c.id] == c;
    }
  }
}
