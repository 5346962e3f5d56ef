/** Epoch fencing end to end: gateways copy epochs from controller states into a
    gate and from there into the lock-free fence map the packet path reads; clients
    stamp packets with the epoch they adopted. */
module Fencing {
  import opened Words
  import opened Ownership
  import opened Store
  import opened Ledger
  import opened SessionId

  type Epochs = map<Name, Ownership.Epoch>

  /** The gate after it learned `epoch`: it only ever rises. */
  function Raised(known: Epochs, session: Name, epoch: Ownership.Epoch): Epochs {
    if session !in known || epoch > known[session] then known[session := epoch] else known
  }

  /** The greater of `epoch` and what is known of a session. */
  function Max(known: Epochs, session: Name, epoch: Ownership.Epoch): (r: Ownership.Epoch)
    ensures r >= epoch && (session in known ==> r >= known[session])
            && (r == epoch || (session in known && r == known[session]))
  {
    if session in known && known[session] > epoch then known[session] else epoch
  }

  predicate GateAdmits(known: Epochs, session: Name, epoch: Ownership.Epoch) {
    session in known ==> epoch >= known[session]
  }

  /** The gate after it took in every session of a state. */
  function AllRaised(known: Epochs, state: Epochs): Epochs {
    map s | s in known.Keys + state.Keys ::
      if s in state && (s !in known || state[s] > known[s]) then state[s] else known[s]
  }

  /** One more update takes one more session in. */
  lemma RaisedNext(known: Epochs, epochs: Epochs, left: set<Name>, session: Name)
    requires left <= epochs.Keys && session in left
    ensures Raised(AllRaised(known, epochs - left), session, epochs[session]) ==
            AllRaised(known, epochs - (left - {session}))
  {
    var a, b := AllRaised(known, epochs - left), AllRaised(known, epochs - (left - {session}));
    assert b.Keys == a.Keys + {session};
  }

  class EpochGate {
    var known: Epochs

    constructor ()
      ensures known == map[]
    {
      known := map[];
    }

    method Update(session: Name, epoch: Ownership.Epoch)
      modifies this
      ensures known == Raised(old(known), session, epoch)
      ensures known == old(known)[session := Max(old(known), session, epoch)]
    {
      if session !in known || epoch > known[session] {
        known := known[session := epoch];
      }
    }

    method Admit(session: Name, epoch: Ownership.Epoch) returns (ok: bool)
      ensures ok == GateAdmits(known, session, epoch)
    {
      if session !in known {
        return true;
      }
      return epoch >= known[session];
    }

    method AdmitAndAdvance(session: Name, epoch: Ownership.Epoch) returns (ok: bool)
      modifies this
      ensures ok == GateAdmits(old(known), session, epoch)
      ensures known == Raised(old(known), session, epoch)
      ensures ok ==> known[session] == epoch
    {
      if session in known && epoch < known[session] {
        return false;
      }
      if session !in known || epoch > known[session] {
        known := known[session := epoch];
      }
      return true;
    }
  }

  // ------------------------------------------------------------ the fence map

  type Fence = map<nat, Ownership.Epoch>

  /** The fence map holds, for each numeric session the gate knows, an epoch the gate
      knows for a session of that number. */
  ghost predicate Fits(known: Epochs, fence: Fence) {
    && (forall s :: s in known && Parse(s).Some? ==> Parse(s).value in fence)
    && (forall id :: id in fence ==> exists s :: s in known && Parse(s) == Some(id) && fence[id] == known[s])
  }

  /** What the packet path asks. Session 0 means none and is never fenced. */
  predicate FenceAdmits(fence: Fence, id: nat, epoch: Ownership.Epoch) {
    id == 0 || (id in fence ==> epoch >= fence[id])
  }

  ghost predicate AllSessionIds(known: Epochs) {
    forall s :: s in known ==> IsSessionId(s)
  }

  /** What the gate asks of a number: the epoch of its canonical ID, 0 if it knows none. */
  function Floor(known: Epochs, id: nat): Ownership.Epoch {
    if Format(id) in known then known[Format(id)] else 0
  }

  /** All IDs of a number have the epoch of its canonical one. */
  ghost predicate OneFloor(known: Epochs, id: nat) {
    forall s :: s in known && Parse(s) == Some(id) ==> known[s] == Floor(known, id)
  }

  ghost predicate DecidesAs(fence: Fence, known: Epochs, id: nat) {
    forall epoch :: FenceAdmits(fence, id, epoch) == GateAdmits(known, Format(id), epoch)
  }

  lemma OneFloorSuffices(known: Epochs, fence: Fence, id: nat)
    requires Fits(known, fence) && OneFloor(known, id) && 0 < id < UINT64
    ensures DecidesAs(fence, known, id)
  {
    RoundTrip(Format(id), id);
    if id in fence {
      var s :| s in known && Parse(s) == Some(id) && fence[id] == known[s];
    }
  }

  /** Some ID of a number. */
  ghost function SomeId(known: Epochs, id: nat): (s: Name)
    requires exists s :: s in known && Parse(s) == Some(id)
    ensures s in known && Parse(s) == Some(id)
  {
    var s :| s in known && Parse(s) == Some(id); s
  }

  /** A map that fits and has the epoch of `s` under its number. */
  ghost function FitWith(known: Epochs, s: Name): (fence: Fence)
    requires s in known && Parse(s).Some?
    ensures Fits(known, fence) && Parse(s).value in fence && fence[Parse(s).value] == known[s]
  {
    var ids := set t | t in known && Parse(t).Some? :: Parse(t).value;
    map id | id in ids :: if id == Parse(s).value then known[s] else known[SomeId(known, id)]
  }

  /** Whichever map a rebuild leaves, it decides every packet of a number as the gate would for
      the number's text, exactly when all IDs of that number have one epoch. */
  lemma FenceDecidesExactly(known: Epochs, id: nat)
    requires 0 < id < UINT64
    ensures (forall fence :: Fits(known, fence) ==> DecidesAs(fence, known, id)) <==> OneFloor(known, id)
  {
    if OneFloor(known, id) {
      forall fence | Fits(known, fence) ensures DecidesAs(fence, known, id) {
        OneFloorSuffices(known, fence, id);
      }
    } else {
      var s :| s in known && Parse(s) == Some(id) && known[s] != Floor(known, id);
      var fence, floor := FitWith(known, s), Floor(known, id);
      var epoch := if known[s] < floor then known[s] else floor;
      assert FenceAdmits(fence, id, epoch) != GateAdmits(known, Format(id), epoch);
    }
  }

  /** So with the IDs the controller makes it always does. */
  lemma FenceDecidesAsGate(known: Epochs, fence: Fence, id: nat, epoch: Ownership.Epoch)
    requires Fits(known, fence) && AllSessionIds(known) && 0 < id < UINT64
    ensures FenceAdmits(fence, id, epoch) == GateAdmits(known, Format(id), epoch)
  {
    forall s | s in known && Parse(s) == Some(id) ensures known[s] == Floor(known, id) {
      RoundTrip(s, id);
    }
    FenceDecidesExactly(known, id);
    assert DecidesAs(fence, known, id);
  }

  /** With others it need not: "07" has the number 7 and is not its text. */
  lemma FenceNeedsCanonicalIds()
    ensures var known: Epochs := map[Name("07") := 5];
            var fence: Fence := map[7 := 5];
            Fits(known, fence) && !FenceAdmits(fence, 7, 4) && GateAdmits(known, Format(7), 4)
  {
    var known: Epochs := map[Name("07") := 5];
    assert "07"[..1] == "0" && "0"[..0] == "";
    assert Value("0") == 0 && Value("07") == 7;
    assert Parse(Name("07")) == Some(7) && Name("07") in known;
    assert FormatUint(7) == "7" && |"7"| == 1 && |"07"| == 2;
  }

  /** The gate and fence parts of a gateway agent. */
  class GatewayFence {
    const gate: EpochGate
    var fence: Fence
    var fenced: map<Name, nat>

    /** `fenced` caches the number of every numeric session the gate knows. */
    ghost predicate Tracks(known: Epochs)
      reads this
    {
      forall s :: s in fenced <==> s in known && Parse(s).Some?
    }

    ghost predicate Cached()
      reads this
    {
      forall s :: s in fenced ==> Parse(s) == Some(fenced[s])
    }

    ghost predicate Valid()
      reads this, gate
    {
      Tracks(gate.known) && Cached() && Fits(gate.known, fence)
    }

    constructor ()
      ensures Valid() && fresh(gate) && gate.known == map[]
    {
      gate := new EpochGate();
      fence, fenced := map[], map[];
    }

    /** Takes in the epochs of a plan: the gate first, then a new fence map. */
    method Apply(epochs: Epochs)
      requires Valid()
      modifies this, gate
      ensures Valid()
      ensures gate.known == AllRaised(old(gate.known), epochs)
      ensures gate.known.Keys == old(gate.known).Keys + epochs.Keys
      ensures forall s :: s in gate.known ==>
                gate.known[s] == if s in epochs then Max(old(gate.known), s, epochs[s]) else old(gate.known)[s]
    {
      var left := epochs.Keys;
      while left != {}
        invariant left <= epochs.Keys && fenced == old(fenced) && fence == old(fence)
        invariant gate.known == AllRaised(old(gate.known), epochs - left)
        decreases left
      {
        var session :| session in left;
        RaisedNext(old(gate.known), epochs, left, session);
        gate.Update(session, epochs[session]);
        left := left - {session};
      }
      assert epochs - left == epochs;
      UpdateFence(epochs);
    }

    method UpdateFence(epochs: Epochs)
      requires Cached() && epochs.Keys <= gate.known.Keys
      requires forall s :: s in fenced ==> s in gate.known
      requires forall s :: s in gate.known && s !in epochs && Parse(s).Some? ==> s in fenced
      modifies this
      ensures Valid()
    {
      var left := epochs.Keys;
      while left != {}
        invariant left <= epochs.Keys && Cached()
        invariant forall s :: s in fenced ==> s in gate.known
        invariant forall s :: s in gate.known && s !in left && Parse(s).Some? ==> s in fenced
        decreases left
      {
        var session :| session in left;
        if session !in fenced {
          var id := Parse(session);
          if id.Some? {
            fenced := fenced[session := id.value];
          }
        }
        left := left - {session};
      }
      fence := Rebuild();
    }

    /** A new fence map with the gate's epoch of every session seen so far. */
    method Rebuild() returns (next: Fence)
      requires Tracks(gate.known) && Cached()
      ensures Fits(gate.known, next)
    {
      next := map[];
      var left := fenced.Keys;
      while left != {}
        invariant left <= fenced.Keys
        invariant forall s :: s in fenced && s !in left ==> fenced[s] in next
        invariant forall id :: id in next ==>
                    exists s :: s in gate.known && Parse(s) == Some(id) && next[id] == gate.known[s]
        decreases left
      {
        var session :| session in left;
        if session in gate.known {
          next := next[fenced[session] := gate.known[session]];
        }
        left := left - {session};
      }
    }

    method Admit(id: nat, epoch: Ownership.Epoch) returns (ok: bool)
      ensures ok == FenceAdmits(fence, id, epoch)
    {
      if id == 0 {
        return true;
      }
      if id in fence && epoch < fence[id] {
        return false;
      }
      return true;
    }
  }

  // ---------------------------------------------------------- fencing as steps

  /** What the header carries of an epoch: its low 32 bits. */
  function Stamp(epoch: Ownership.Epoch): (stamp: Ownership.Epoch)
    ensures stamp >= epoch <==> epoch < UINT32
  {
    epoch % UINT32
  }

  /** `published` is a history variable: what the gate knew when the fence map was stored. */
  datatype Gateway = Gateway(known: Epochs, fence: Fence, published: Epochs)

  datatype Client = Client(session: Name, epoch: Ownership.Epoch)

  /** A datagram in flight: the header's session number and stamp, and the epoch it
      was stamped from. */
  datatype Packet = Packet(id: nat, stamp: Ownership.Epoch, epoch: Ownership.Epoch)

  /** `polls` are controller states being assembled, one session at a time, or
      delivered any time later, any number of times. */
  datatype System = System(ledger: Ledger, polls: map<nat, Epochs>, gateways: map<nat, Gateway>,
                           clients: map<nat, Client>, packets: seq<Packet>)

  datatype Event =
    | Commit(rec: Record)                              // any writer of the store
    | StartPoll(poll: nat)
    | ReadSession(poll: nat, session: Name)
    | StartGateway(gateway: nat)
    | Raise(gateway: nat, poll: nat, session: Name)    // applying a state: one update of the gate
    | Publish(gateway: nat, fence: Fence)              // and then the new map, as some rebuild leaves it
    | StartClient(client: nat, poll: nat, session: Name)
    | Adopt(client: nat, poll: nat)
    | Send(client: nat)

  const Initial := System(EMPTY, map[], map[], map[], [])

  function Learned(g: Gateway, session: Name, epoch: Ownership.Epoch): Gateway {
    Gateway(Raised(g.known, session, epoch), g.fence, g.published)
  }

  ghost function Step(s: System, e: Event): System {
    match e
    case Commit(rec) => if IsSessionId(rec.session) then s.(ledger := s.ledger.SetIfNewer(rec)) else s
    case StartPoll(p) => if p in s.polls then s else s.(polls := s.polls[p := map[]])
    case ReadSession(p, t) =>
      if p in s.polls && t in s.ledger.current
      then s.(polls := s.polls[p := s.polls[p][t := s.ledger.current[t].epoch]]) else s
    case StartGateway(g) => if g in s.gateways then s else s.(gateways := s.gateways[g := Gateway(map[], map[], map[])])
    case Raise(g, p, t) =>
      if g in s.gateways && p in s.polls && t in s.polls[p]
      then s.(gateways := s.gateways[g := Learned(s.gateways[g], t, s.polls[p][t])]) else s
    case Publish(g, fence) =>
      if g in s.gateways && Fits(s.gateways[g].known, fence)
      then s.(gateways := s.gateways[g := Gateway(s.gateways[g].known, fence, s.gateways[g].known)])
      else s
    case StartClient(c, p, t) =>
      if c !in s.clients && p in s.polls && t in s.polls[p]
      then s.(clients := s.clients[c := Client(t, s.polls[p][t])])
      else s
    case Adopt(c, p) =>
      if c in s.clients && p in s.polls && s.clients[c].session in s.polls[p]
         && s.polls[p][s.clients[c].session] > s.clients[c].epoch
      then s.(clients := s.clients[c := Client(s.clients[c].session, s.polls[p][s.clients[c].session])])
      else s
    case Send(c) =>
      if c in s.clients && Parse(s.clients[c].session).Some?
      then s.(packets := s.packets + [Packet(Parse(s.clients[c].session).value, Stamp(s.clients[c].epoch),
                                             s.clients[c].epoch)])
      else s
  }

  ghost function Run(s: System, events: seq<Event>): System {
    if events == [] then s else Step(Run(s, events[..|events| - 1]), events[|events| - 1])
  }

  /** None of these epochs is ahead of the store. */
  ghost predicate Behind(ledger: Ledger, epochs: Epochs) {
    forall t :: t in epochs ==> IsSessionId(t) && epochs[t] <= ledger.Epoch(t)
  }

  /** b knows all that a knows, no lower. */
  ghost predicate NoLess(a: Epochs, b: Epochs) {
    forall t :: t in a ==> t in b && a[t] <= b[t]
  }

  ghost predicate GatewayOk(ledger: Ledger, g: Gateway) {
    Fits(g.published, g.fence) && Behind(ledger, g.known) && NoLess(g.published, g.known)
  }

  ghost predicate PacketOk(ledger: Ledger, p: Packet) {
    p.id < UINT64 && p.stamp == Stamp(p.epoch) && p.epoch <= ledger.Epoch(Format(p.id))
  }

  ghost predicate Inv(s: System) {
    && (forall t :: t in s.ledger.current ==> IsSessionId(t))
    && (forall p :: p in s.polls ==> Behind(s.ledger, s.polls[p]))
    && (forall g :: g in s.gateways ==> GatewayOk(s.ledger, s.gateways[g]))
    && (forall c :: c in s.clients ==> s.clients[c].epoch <= s.ledger.Epoch(s.clients[c].session))
    && (forall k :: 0 <= k < |s.packets| ==> PacketOk(s.ledger, s.packets[k]))
  }

  ghost predicate NoLower(a: Ledger, b: Ledger) {
    forall t :: a.Epoch(t) <= b.Epoch(t)
  }

  lemma CommitKeepsInv(s: System, rec: Record)
    requires Inv(s) && IsSessionId(rec.session)
    ensures Inv(s.(ledger := s.ledger.SetIfNewer(rec)))
  {
    var t := s.(ledger := s.ledger.SetIfNewer(rec));
    assert NoLower(s.ledger, t.ledger);
    assert forall g :: g in s.gateways ==> GatewayOk(s.ledger, s.gateways[g]) && GatewayOk(t.ledger, t.gateways[g]);
    assert forall p :: p in s.polls ==> Behind(s.ledger, s.polls[p]) && Behind(t.ledger, t.polls[p]);
    assert forall k :: 0 <= k < |s.packets| ==> PacketOk(s.ledger, s.packets[k]) && PacketOk(t.ledger, t.packets[k]);
  }

  lemma SendKeepsInv(s: System, c: nat)
    requires Inv(s) && c in s.clients && Parse(s.clients[c].session).Some?
    ensures Inv(Step(s, Send(c)))
  {
    var session := s.clients[c].session;
    assert session in s.ledger.current;
    RoundTrip(session, Parse(session).value);
  }

  lemma LearnedOk(ledger: Ledger, g: Gateway, session: Name, epoch: Ownership.Epoch)
    requires GatewayOk(ledger, g) && IsSessionId(session) && epoch <= ledger.Epoch(session)
    ensures GatewayOk(ledger, Learned(g, session, epoch))
  {
  }

  lemma GatewayKeepsInv(s: System, g: nat, gw: Gateway)
    requires Inv(s) && GatewayOk(s.ledger, gw)
    ensures Inv(s.(gateways := s.gateways[g := gw]))
  {
  }

  lemma ReadKeepsInv(s: System, p: nat, t: Name)
    requires Inv(s) && p in s.polls && t in s.ledger.current
    ensures Inv(s.(polls := s.polls[p := s.polls[p][t := s.ledger.current[t].epoch]]))
  {
    assert Behind(s.ledger, s.polls[p]);
    assert Behind(s.ledger, s.polls[p][t := s.ledger.current[t].epoch]);
  }

  /** A client takes on a session it found in a controller state. */
  lemma ClientKeepsInv(s: System, c: nat, p: nat, t: Name)
    requires Inv(s) && p in s.polls && t in s.polls[p]
    ensures Inv(s.(clients := s.clients[c := Client(t, s.polls[p][t])]))
  {
    assert Behind(s.ledger, s.polls[p]);
  }

  lemma StepKeepsInv(s: System, e: Event)
    requires Inv(s)
    ensures Inv(Step(s, e))
  {
    if Step(s, e) != s {
      match e
      case Commit(rec) => CommitKeepsInv(s, rec);
      case StartPoll(p) => assert Behind(s.ledger, map[]);
      case ReadSession(p, t) => ReadKeepsInv(s, p, t);
      case StartGateway(g) => GatewayKeepsInv(s, g, Gateway(map[], map[], map[]));
      case Raise(g, p, t) =>
        assert GatewayOk(s.ledger, s.gateways[g]) && Behind(s.ledger, s.polls[p]);
        LearnedOk(s.ledger, s.gateways[g], t, s.polls[p][t]);
        GatewayKeepsInv(s, g, Learned(s.gateways[g], t, s.polls[p][t]));
      case Publish(g, fence) =>
        assert GatewayOk(s.ledger, s.gateways[g]);
        GatewayKeepsInv(s, g, Gateway(s.gateways[g].known, fence, s.gateways[g].known));
      case StartClient(c, p, t) => ClientKeepsInv(s, c, p, t);
      case Adopt(c, p) => ClientKeepsInv(s, c, p, s.clients[c].session);
      case Send(c) => SendKeepsInv(s, c);
    }
  }

  lemma {:induction false} RunKeepsInv(events: seq<Event>)
    ensures Inv(Run(Initial, events))
  {
    if events != [] {
      RunKeepsInv(events[..|events| - 1]);
      StepKeepsInv(Run(Initial, events[..|events| - 1]), events[|events| - 1]);
    }
  }

  // ---------------------------------------------------------------- theorems

  /** In every run no gateway, client or packet is ahead of the store. */
  lemma NobodyAheadOfStore(events: seq<Event>)
    ensures var s := Run(Initial, events);
            && (forall g, t :: g in s.gateways && t in s.gateways[g].known ==>
                  s.gateways[g].known[t] <= s.ledger.Epoch(t))
            && (forall c :: c in s.clients ==> s.clients[c].epoch <= s.ledger.Epoch(s.clients[c].session))
            && (forall k :: 0 <= k < |s.packets| ==> s.packets[k].epoch <= s.ledger.Epoch(Format(s.packets[k].id)))
  {
    RunKeepsInv(events);
    var s := Run(Initial, events);
    forall g, t | g in s.gateways && t in s.gateways[g].known ensures s.gateways[g].known[t] <= s.ledger.Epoch(t) {
      assert GatewayOk(s.ledger, s.gateways[g]);
    }
    forall k | 0 <= k < |s.packets| ensures s.packets[k].epoch <= s.ledger.Epoch(Format(s.packets[k].id)) {
      assert PacketOk(s.ledger, s.packets[k]);
    }
  }

  /** In every run every gateway's fence map decides as its gate did when the map was published;
      so, unless an apply is under way, as its gate. */
  lemma FenceIsGate(events: seq<Event>, g: nat, id: nat, epoch: Ownership.Epoch)
    requires g in Run(Initial, events).gateways && 0 < id < UINT64
    ensures var gw := Run(Initial, events).gateways[g];
            && FenceAdmits(gw.fence, id, epoch) == GateAdmits(gw.published, Format(id), epoch)
            && NoLess(gw.published, gw.known)
  {
    RunKeepsInv(events);
    var s := Run(Initial, events);
    var gw := s.gateways[g];
    assert GatewayOk(s.ledger, gw);
    forall t | t in gw.published ensures IsSessionId(t) {
      assert t in gw.known;
    }
    FenceDecidesAsGate(gw.published, gw.fence, id, epoch);
  }

  lemma RunNext(events: seq<Event>, e: Event)
    ensures Run(Initial, events + [e]) == Step(Run(Initial, events), e)
  {
    assert (events + [e])[..|events|] == events;
  }

  /** In every run a gateway told an epoch knows the greater of it and its own. */
  lemma GatewayLearns(events: seq<Event>, g: nat, p: nat, t: Name)
    requires var s := Run(Initial, events); g in s.gateways && p in s.polls && t in s.polls[p]
    ensures var s, told := Run(Initial, events), Run(Initial, events + [Raise(g, p, t)]);
            && g in told.gateways
            && told.gateways[g].known == s.gateways[g].known[t := Max(s.gateways[g].known, t, s.polls[p][t])]
  {
    RunNext(events, Raise(g, p, t));
    var known := Run(Initial, events).gateways[g].known;
    assert t in known ==> known[t := known[t]] == known;
  }

  /** And what it publishes is what it knows. */
  lemma GatewayPublishes(events: seq<Event>, g: nat, fence: Fence)
    requires var s := Run(Initial, events); g in s.gateways && Fits(s.gateways[g].known, fence)
    ensures var s, shown := Run(Initial, events), Run(Initial, events + [Publish(g, fence)]);
            && g in shown.gateways
            && shown.gateways[g] == Gateway(s.gateways[g].known, fence, s.gateways[g].known)
  {
    RunNext(events, Publish(g, fence));
    Published(Run(Initial, events), g, fence);
  }

  /** In every run a client takes on the epoch of a state it adopts, unless its own is higher, and
      stamps what it sends with its own. */
  lemma ClientFollows(events: seq<Event>, c: nat, p: nat)
    requires var s := Run(Initial, events); c in s.clients && p in s.polls && s.clients[c].session in s.polls[p]
    ensures var s, t := Run(Initial, events), Run(Initial, events + [Adopt(c, p)]);
            var polled := s.polls[p][s.clients[c].session];
            && c in t.clients && t.clients[c].session == s.clients[c].session
            && t.clients[c].epoch == if polled > s.clients[c].epoch then polled else s.clients[c].epoch
    ensures var s, t := Run(Initial, events), Run(Initial, events + [Send(c)]);
            var client := s.clients[c];
            Parse(client.session).Some? ==>
              t.packets == s.packets + [Packet(Parse(client.session).value, client.epoch % UINT32, client.epoch)]
  {
    RunNext(events, Adopt(c, p));
    RunNext(events, Send(c));
  }

  /** In every run a poll of a session gives its stored epoch, which a new client starts with. */
  lemma PollReads(events: seq<Event>, p: nat, t: Name, c: nat)
    requires var s := Run(Initial, events); p in s.polls && t in s.ledger.current && c !in s.clients
    ensures var s, read := Run(Initial, events), Run(Initial, events + [ReadSession(p, t)]);
            read.polls[p] == s.polls[p][t := s.ledger.current[t].epoch]
    ensures var s := Run(Initial, events);
            var started := Run(Initial, events + [ReadSession(p, t)] + [StartClient(c, p, t)]);
            c in started.clients && started.clients[c] == Client(t, s.ledger.current[t].epoch)
  {
    RunNext(events, ReadSession(p, t));
    RunNext(events + [ReadSession(p, t)], StartClient(c, p, t));
  }

  ghost predicate Rises(was: Gateway, now: Gateway) {
    NoLess(was.known, now.known) && NoLess(was.published, now.published)
  }

  lemma StepRaises(s: System, e: Event, g: nat)
    requires g in s.gateways && NoLess(s.gateways[g].published, s.gateways[g].known)
    ensures g in Step(s, e).gateways && Rises(s.gateways[g], Step(s, e).gateways[g])
  {
    var was := s.gateways[g];
    match e
    case Raise(h, p, t) =>
      if p in s.polls && t in s.polls[p] {
        assert Rises(was, Learned(was, t, s.polls[p][t]));
      }
    case Publish(h, fence) => assert Rises(was, Gateway(was.known, fence, was.known));
    case StartGateway(h) =>
    case _ => assert Step(s, e).gateways == s.gateways;
  }

  /** Over the rest of any run a gate, and what is published of it, only rises. */
  lemma {:induction false} GateNeverDrops(events: seq<Event>, n: nat, g: nat)
    requires n <= |events| && g in Run(Initial, events[..n]).gateways
    ensures g in Run(Initial, events).gateways
    ensures Rises(Run(Initial, events[..n]).gateways[g], Run(Initial, events).gateways[g])
  {
    if n == |events| {
      assert events[..n] == events;
    } else {
      var init := events[..|events| - 1];
      assert init[..n] == events[..n];
      GateNeverDrops(init, n, g);
      RunKeepsInv(init);
      assert GatewayOk(Run(Initial, init).ledger, Run(Initial, init).gateways[g]);
      StepRaises(Run(Initial, init), events[|events| - 1], g);
    }
  }

  /** Fencing: a gateway that has published an epoch of a session never again admits a packet of
      that session stamped below it, however late that packet is. */
  lemma NeverAdmitsOlder(events: seq<Event>, n: nat, g: nat, id: nat, epoch: Ownership.Epoch)
    requires n <= |events| && 0 < id < UINT64 && g in Run(Initial, events[..n]).gateways
    requires Format(id) in Run(Initial, events[..n]).gateways[g].published
    requires epoch < Run(Initial, events[..n]).gateways[g].published[Format(id)]
    ensures g in Run(Initial, events).gateways
    ensures !FenceAdmits(Run(Initial, events).gateways[g].fence, id, epoch)
  {
    GateNeverDrops(events, n, g);
    FenceIsGate(events, g, id, epoch);
  }

  /** In every run a packet stamped at the session's stored epoch passes a gateway exactly when
      the epoch fits the header's 32 bits, or the gateway has published nothing of the session
      above what is left of it. */
  lemma CurrentStampPassesExactly(events: seq<Event>, k: nat, g: nat)
    requires var s := Run(Initial, events);
             && k < |s.packets| && g in s.gateways && s.packets[k].id != 0
             && s.packets[k].epoch == s.ledger.Epoch(Format(s.packets[k].id))
    ensures var s := Run(Initial, events);
            var p, gw := s.packets[k], s.gateways[g];
            FenceAdmits(gw.fence, p.id, p.stamp) <==>
            p.epoch < UINT32 || Format(p.id) !in gw.published || gw.published[Format(p.id)] <= p.epoch % UINT32
  {
    RunKeepsInv(events);
    var s := Run(Initial, events);
    assert PacketOk(s.ledger, s.packets[k]) && GatewayOk(s.ledger, s.gateways[g]);
    FenceIsGate(events, g, s.packets[k].id, s.packets[k].stamp);
  }

  const SESSION := Name("7")

  const LARGE := Record(SESSION, Name("a"), Name("b"), UINT32)

  /** A session reaches epoch 2^32; a gateway and a client learn of it, and the client sends. */
  const ToLargeEpoch: seq<Event> :=
    [Commit(LARGE), StartPoll(0), ReadSession(0, SESSION), StartGateway(0), Raise(0, 0, SESSION),
     Publish(0, map[7 := UINT32]), StartClient(0, 0, SESSION), Send(0)]

  /** The system after the first n of those events. */
  ghost function Then(n: nat): System
    requires n <= |ToLargeEpoch|
  {
    Run(Initial, ToLargeEpoch[..n])
  }

  lemma ThenNext(n: nat)
    requires n < |ToLargeEpoch|
    ensures Then(n + 1) == Step(Then(n), ToLargeEpoch[n])
  {
    assert ToLargeEpoch[..n + 1][..n] == ToLargeEpoch[..n];
  }

  lemma SevenParses()
    ensures IsSessionId(SESSION) && Parse(SESSION) == Some(7) && Format(7) == SESSION
  {
    assert "7"[..0] == "" && Value("7") == 7;
    assert FormatUint(7) == "7";
  }

  const Known: Epochs := map[SESSION := UINT32]

  lemma LargeIsPolled()
    ensures Then(3) == System(EMPTY.Commit(LARGE), map[0 := Known], map[], map[], [])
  {
    SevenParses();
    ThenNext(0); ThenNext(1); ThenNext(2);
    assert Then(1) == Initial.(ledger := EMPTY.Commit(LARGE));
  }

  lemma LargeIsPublished()
    ensures Then(6) == Then(3).(gateways := map[0 := Gateway(Known, map[7 := UINT32], Known)])
  {
    LargeIsLearned();
    LargeFits();
    ThenNext(5);
    Published(Then(5), 0, map[7 := UINT32]);
  }

  lemma Published(s: System, g: nat, fence: Fence)
    requires g in s.gateways && Fits(s.gateways[g].known, fence)
    ensures Step(s, Publish(g, fence)) ==
            s.(gateways := s.gateways[g := Gateway(s.gateways[g].known, fence, s.gateways[g].known)])
  {
  }

  lemma LargeIsLearned()
    ensures Then(5) == Then(3).(gateways := map[0 := Gateway(Known, map[], map[])])
  {
    LargeIsPolled();
    ThenNext(3); ThenNext(4);
  }

  lemma LargeFits()
    ensures Fits(Known, map[7 := UINT32])
  {
    SevenParses();
    assert SESSION in Known;
  }

  /** For example, after this run the only packet is current, stamped 0, and dropped. */
  lemma LargeEpochIsDropped()
    ensures var s := Run(Initial, ToLargeEpoch);
            && s.packets == [Packet(7, 0, UINT32)] && s.ledger.Epoch(SESSION) == UINT32
            && 0 in s.gateways && !FenceAdmits(s.gateways[0].fence, 7, 0)
  {
    SevenParses();
    LargeIsPolled();
    LargeIsPublished();
    ThenNext(6); ThenNext(7);
    assert ToLargeEpoch[..8] == ToLargeEpoch;
  }
}
