/** Failover controllers: any number of them, each with its own cache, over one
    ownership store. Calls on one controller are serialised; between any two
    store accesses of one controller every other controller, and every other
    writer of the store, may act. */
module Failover {
  import opened Words
  import opened Ownership
  import opened Store
  import opened Ledger
  import S = SetIfNewer

  /** A cached record with its two-part epoch: `global` is the epoch of the
      stored record it came from, `local` counts emergency failovers since. */
  datatype Cached = Cached(rec: Record, global: Ownership.Epoch, local: nat)

  type Cache = map<Name, Cached>

  function StoreOwnership(cache: Cache, rec: Record): Cache {
    cache[rec.session := Cached(rec, rec.epoch, 0)]
  }

  function BumpLocal(cache: Cache, session: Name, newEgress: Name): Cache
    requires session in cache
  {
    var c := cache[session];
    cache[session := Cached(c.rec.(egress := newEgress), c.global, c.local + 1)]
  }

  /** Where a controller is inside one of its calls. */
  datatype Op =
    | Idle
    | Fetched(rec: Record)                       // read from the store, about to be cached
    | Proposing(candidate: Record, from: Ownership.Epoch)
    | Accepted(candidate: Record)                // committed, about to be cached
    | Refused(session: Name)                   // lost, about to refresh

  datatype Controller = Controller(cache: Cache, op: Op)

  /** A proposal that committed: who, from which cached epoch, and where in the log. */
  datatype Win = Win(controller: nat, session: Name, from: Ownership.Epoch, at: nat)

  datatype System = System(ledger: Ledger, controllers: map<nat, Controller>, wins: seq<Win>)

  datatype Action =
    | Refresh(session: Name)
    | Plan(session: Name, newEgress: Name)
    | Emergency(session: Name, newEgress: Name)
    | Reconcile(session: Name)
    | Write                     // the proposal's SetIfNewer
    | WriteFails(landed: bool)  // it reports an error, landed or not
    | Cache                     // store what was fetched or accepted
    | RefreshRefused            // the refresh after a refusal
    | GiveUp                    // that refresh fails

  datatype Event =
    | Join(controller: nat)
    | Act(controller: nat, action: Action)
    | Other(rec: Record)        // any other writer of the store

  const Initial := System(EMPTY, map[], [])

  /** What an action other than a write does to controller `c`. */
  function Moved(ledger: Ledger, c: Controller, a: Action): Controller {
    match a
    case Refresh(t) => if c.op == Idle then c.(op := Fetch(ledger, t)) else c
    case Plan(t, newEgress) =>
      if c.op == Idle && t in c.cache
      then c.(op := Proposing(c.cache[t].rec.NextEpoch(newEgress), c.cache[t].global))
      else c
    case Emergency(t, newEgress) =>
      if c.op == Idle && t in c.cache then c.(cache := BumpLocal(c.cache, t, newEgress)) else c
    case Reconcile(t) =>
      if c.op == Idle && t in c.cache then
        var cached := c.cache[t];
        if ledger.Epoch(t) > cached.global then c.(op := Fetch(ledger, t))
        else if cached.local == 0 then c
        else c.(op := Proposing(cached.rec.NextEpoch(cached.rec.egress), cached.global))
      else c
    case Cache =>
      if c.op.Fetched? then Controller(StoreOwnership(c.cache, c.op.rec), Idle)
      else if c.op.Accepted? then Controller(StoreOwnership(c.cache, c.op.candidate), Idle)
      else c
    case RefreshRefused => if c.op.Refused? then c.(op := Fetch(ledger, c.op.session)) else c
    case GiveUp => if c.op.Refused? then c.(op := Idle) else c
    case Write => c
    case WriteFails(_) => c
  }

  /** What one action of controller `c` does to the store and to itself. */
  function Effect(ledger: Ledger, c: Controller, a: Action): (Ledger, Controller) {
    if a == Write && c.op.Proposing? then
      if !c.op.candidate.Valid() then (ledger, c.(op := Idle))
      else if ledger.Accepts(c.op.candidate) then (ledger.Commit(c.op.candidate), c.(op := Accepted(c.op.candidate)))
      else (ledger, c.(op := Refused(c.op.candidate.session)))
    else if a.WriteFails? && c.op.Proposing? then
      (if a.landed && c.op.candidate.Valid() then ledger.SetIfNewer(c.op.candidate) else ledger, c.(op := Idle))
    else (ledger, Moved(ledger, c, a))
  }

  /** Whether action `a` is a proposal that commits, reported as such or not. */
  predicate Commits(ledger: Ledger, c: Controller, a: Action) {
    (a == Write || (a.WriteFails? && a.landed)) && c.op.Proposing? && c.op.candidate.Valid()
      && ledger.Accepts(c.op.candidate)
  }

  function Step(s: System, e: Event): System {
    match e
    case Join(i) =>
      if i in s.controllers then s else s.(controllers := s.controllers[i := Controller(map[], Idle)])
    case Other(rec) => s.(ledger := s.ledger.SetIfNewer(rec))
    case Act(i, a) =>
      if i !in s.controllers then s else
      var c := s.controllers[i];
      var (ledger, next) := Effect(s.ledger, c, a);
      var won := if Commits(s.ledger, c, a)
                 then [Win(i, c.op.candidate.session, c.op.from, |s.ledger.log|)]
                 else [];
      System(ledger, s.controllers[i := next], s.wins + won)
  }

  function Fetch(ledger: Ledger, session: Name): Op {
    if session in ledger.current then Fetched(ledger.current[session]) else Idle
  }

  function Run(s: System, events: seq<Event>): System {
    if events == [] then s else Step(Run(s, events[..|events| - 1]), events[|events| - 1])
  }

  /** What a cached entry means, given the store's history: it was committed at
      its global epoch, except that emergency failovers changed its egress. */
  ghost predicate EntryOk(log: seq<Record>, session: Name, c: Cached) {
    && c.rec.session == session
    && c.rec.epoch == c.global
    && (exists r :: r in log && c.rec == r.(egress := c.rec.egress) && (c.local == 0 ==> r == c.rec))
  }

  ghost predicate CacheOk(log: seq<Record>, cache: Cache) {
    forall t :: t in cache ==> EntryOk(log, t, cache[t])
  }

  ghost predicate AtLeastCached(cache: Cache, rec: Record) {
    rec.session in cache ==> cache[rec.session].global <= rec.epoch
  }

  ghost predicate OpOk(log: seq<Record>, c: Controller) {
    match c.op
    case Idle => true
    case Fetched(rec) => rec in log && AtLeastCached(c.cache, rec)
    case Accepted(rec) => rec in log && AtLeastCached(c.cache, rec)
    case Refused(_) => true
    case Proposing(candidate, from) =>
      && candidate.session in c.cache && c.cache[candidate.session].global == from
      && candidate.epoch == Successor(from)
  }

  ghost predicate ControllerOk(log: seq<Record>, c: Controller) {
    CacheOk(log, c.cache) && OpOk(log, c)
  }

  ghost predicate WinOk(log: seq<Record>, w: Win) {
    w.at < |log| && log[w.at].session == w.session && log[w.at].epoch == w.from + 1
  }

  ghost predicate WinsOk(log: seq<Record>, wins: seq<Win>) {
    && (forall k :: 0 <= k < |wins| ==> WinOk(log, wins[k]))
    && (forall k, l :: 0 <= k < l < |wins| ==> wins[k].at < wins[l].at)
  }

  ghost predicate Inv(s: System) {
    && s.ledger.Valid()
    && (forall i :: i in s.controllers ==> ControllerOk(s.ledger.log, s.controllers[i]))
    && WinsOk(s.ledger.log, s.wins)
  }

  ghost predicate Rises(a: Cache, b: Cache) {
    forall t :: t in a ==> t in b && a[t].global <= b[t].global
  }

  /** A cached global epoch never exceeds the stored epoch. */
  lemma CachedBelowStored(ledger: Ledger, cache: Cache, session: Name)
    requires ledger.Valid() && CacheOk(ledger.log, cache) && session in cache
    ensures cache[session].global <= ledger.Epoch(session)
  {
    assert EntryOk(ledger.log, session, cache[session]);
    var r :| r in ledger.log && cache[session].rec == r.(egress := cache[session].rec.egress);
    CommittedBelowCurrent(ledger, r);
  }

  /** Everything known about a controller survives other writers. */
  lemma ControllerStable(a: seq<Record>, b: seq<Record>, c: Controller)
    requires a <= b && ControllerOk(a, c)
    ensures ControllerOk(b, c)
  {
    assert forall r :: r in a ==> r in b;
    forall t | t in c.cache ensures EntryOk(b, t, c.cache[t]) {
      assert EntryOk(a, t, c.cache[t]);
    }
  }

  lemma StoringOk(log: seq<Record>, c: Controller, rec: Record)
    requires CacheOk(log, c.cache) && rec in log && AtLeastCached(c.cache, rec)
    ensures CacheOk(log, StoreOwnership(c.cache, rec)) && Rises(c.cache, StoreOwnership(c.cache, rec))
  {
    assert EntryOk(log, rec.session, Cached(rec, rec.epoch, 0)) by {
      assert rec == rec.(egress := rec.egress);
    }
  }

  lemma BumpOk(log: seq<Record>, cache: Cache, session: Name, newEgress: Name)
    requires CacheOk(log, cache) && session in cache
    ensures CacheOk(log, BumpLocal(cache, session, newEgress))
  {
    var c := cache[session];
    assert EntryOk(log, session, c);
    var r :| r in log && c.rec == r.(egress := c.rec.egress);
    assert c.rec.(egress := newEgress) == r.(egress := newEgress);
  }

  /** Reading the store never yields an epoch below a cached one. */
  lemma FetchOk(ledger: Ledger, c: Controller, session: Name)
    requires ledger.Valid() && CacheOk(ledger.log, c.cache)
    ensures OpOk(ledger.log, Controller(c.cache, Fetch(ledger, session)))
  {
    if session in c.cache {
      CachedBelowStored(ledger, c.cache, session);
    }
  }

  /** A proposal the store accepts found it exactly where the cache was. */
  lemma ProposalRaisesByOne(ledger: Ledger, c: Controller)
    requires ledger.Valid() && ControllerOk(ledger.log, c) && c.op.Proposing? && ledger.Accepts(c.op.candidate)
    ensures ledger.Epoch(c.op.candidate.session) == c.op.from
    ensures c.op.candidate.epoch == c.op.from + 1
  {
    CachedBelowStored(ledger, c.cache, c.op.candidate.session);
  }

  lemma ProposingOk(log: seq<Record>, c: Controller, session: Name, newEgress: Name)
    requires CacheOk(log, c.cache) && session in c.cache
    ensures OpOk(log,
                 Controller(c.cache,
                            Proposing(c.cache[session].rec.NextEpoch(newEgress), c.cache[session].global)))
  {
    assert EntryOk(log, session, c.cache[session]);
  }

  /** Controller c may become d. */
  ghost predicate MayBecome(ledger: Ledger, c: Controller, d: Controller) {
    ControllerOk(ledger.log, d) && Rises(c.cache, d.cache)
  }

  lemma SameOk(ledger: Ledger, c: Controller)
    requires ControllerOk(ledger.log, c)
    ensures MayBecome(ledger, c, c)
  {
  }

  lemma FetchedOk(ledger: Ledger, c: Controller, session: Name)
    requires ledger.Valid() && ControllerOk(ledger.log, c)
    ensures MayBecome(ledger, c, Controller(c.cache, Fetch(ledger, session)))
  {
    FetchOk(ledger, c, session);
  }

  lemma ProposedOk(ledger: Ledger, c: Controller, session: Name, newEgress: Name)
    requires ControllerOk(ledger.log, c) && session in c.cache
    ensures MayBecome(ledger, c,
                      Controller(c.cache,
                                 Proposing(c.cache[session].rec.NextEpoch(newEgress), c.cache[session].global)))
  {
    ProposingOk(ledger.log, c, session, newEgress);
  }

  lemma CachingOk(ledger: Ledger, c: Controller)
    requires ControllerOk(ledger.log, c)
    ensures MayBecome(ledger, c, Moved(ledger, c, Cache))
  {
    if c.op.Fetched? {
      StoringOk(ledger.log, c, c.op.rec);
    } else if c.op.Accepted? {
      StoringOk(ledger.log, c, c.op.candidate);
    }
  }

  lemma BumpedOk(ledger: Ledger, c: Controller, session: Name, newEgress: Name)
    requires ControllerOk(ledger.log, c) && c.op == Idle && session in c.cache
    ensures MayBecome(ledger, c, Controller(BumpLocal(c.cache, session, newEgress), Idle))
  {
    BumpOk(ledger.log, c.cache, session, newEgress);
  }

  lemma RefreshOk(ledger: Ledger, c: Controller, session: Name)
    requires ledger.Valid() && ControllerOk(ledger.log, c)
    ensures MayBecome(ledger, c, Moved(ledger, c, Refresh(session)))
  {
    if c.op == Idle {
      FetchedOk(ledger, c, session);
    } else {
      SameOk(ledger, c);
    }
  }

  lemma RefusedOk(ledger: Ledger, c: Controller)
    requires ledger.Valid() && ControllerOk(ledger.log, c)
    ensures MayBecome(ledger, c, Moved(ledger, c, RefreshRefused))
  {
    if c.op.Refused? {
      FetchedOk(ledger, c, c.op.session);
    } else {
      SameOk(ledger, c);
    }
  }

  lemma ReconcileOk(ledger: Ledger, c: Controller, session: Name)
    requires ledger.Valid() && ControllerOk(ledger.log, c)
    ensures MayBecome(ledger, c, Moved(ledger, c, Reconcile(session)))
  {
    if c.op == Idle && session in c.cache {
      if ledger.Epoch(session) > c.cache[session].global {
        FetchedOk(ledger, c, session);
      } else {
        ProposedOk(ledger, c, session, c.cache[session].rec.egress);
      }
    }
  }

  lemma PlanOk(ledger: Ledger, c: Controller, session: Name, newEgress: Name)
    requires ControllerOk(ledger.log, c)
    ensures MayBecome(ledger, c, Moved(ledger, c, Plan(session, newEgress)))
    ensures MayBecome(ledger, c, Moved(ledger, c, Emergency(session, newEgress)))
  {
    if c.op == Idle && session in c.cache {
      ProposedOk(ledger, c, session, newEgress);
      BumpedOk(ledger, c, session, newEgress);
    }
  }

  lemma MovedOk(ledger: Ledger, c: Controller, a: Action)
    requires ledger.Valid() && ControllerOk(ledger.log, c)
    ensures MayBecome(ledger, c, Moved(ledger, c, a))
  {
    if a.Refresh? {
      RefreshOk(ledger, c, a.session);
    } else if a.RefreshRefused? {
      RefusedOk(ledger, c);
    } else if a.Reconcile? {
      ReconcileOk(ledger, c, a.session);
    } else if a.Plan? || a.Emergency? {
      PlanOk(ledger, c, a.session, a.newEgress);
    } else if a.Cache? {
      CachingOk(ledger, c);
    } else {
      SameOk(ledger, c);
    }
  }

  /** The store grew and c moved past its proposal. */
  lemma DroppedOk(before: Ledger, after: Ledger, c: Controller, op: Op)
    requires ControllerOk(before.log, c) && before.log <= after.log && (op.Idle? || op.Refused?)
    ensures MayBecome(after, c, Controller(c.cache, op))
  {
    ControllerStable(before.log, after.log, Controller(c.cache, Idle));
  }

  lemma AcceptedOk(ledger: Ledger, c: Controller)
    requires ledger.Valid() && ControllerOk(ledger.log, c) && c.op.Proposing? && ledger.Accepts(c.op.candidate)
    ensures MayBecome(ledger.Commit(c.op.candidate), c, Controller(c.cache, Accepted(c.op.candidate)))
  {
    var next := ledger.Commit(c.op.candidate);
    ControllerStable(ledger.log, next.log, Controller(c.cache, Idle));
    assert next.log[|ledger.log|] == c.op.candidate;
    ProposalRaisesByOne(ledger, c);
  }

  lemma WroteOk(ledger: Ledger, c: Controller, a: Action)
    requires ledger.Valid() && ControllerOk(ledger.log, c) && c.op.Proposing? && (a == Write || a.WriteFails?)
    ensures var (next, d) := Effect(ledger, c, a); next.Valid() && ledger.log <= next.log && MayBecome(next, c, d)
  {
    var (next, d) := Effect(ledger, c, a);
    WriteAdvances(ledger, c.op.candidate);
    if d.op.Accepted? {
      AcceptedOk(ledger, c);
    } else {
      DroppedOk(ledger, next, c, d.op);
    }
  }

  lemma EffectOk(ledger: Ledger, c: Controller, a: Action)
    requires ledger.Valid() && ControllerOk(ledger.log, c)
    ensures var (next, d) := Effect(ledger, c, a); next.Valid() && ledger.log <= next.log && MayBecome(next, c, d)
  {
    if c.op.Proposing? && (a == Write || a.WriteFails?) {
      WroteOk(ledger, c, a);
    } else {
      MovedOk(ledger, c, a);
    }
  }

  lemma WinAdded(a: seq<Record>, b: seq<Record>, wins: seq<Win>, w: Win)
    requires a <= b && WinsOk(a, wins) && w.at == |a| && WinOk(b, w)
    ensures WinsOk(b, wins + [w])
  {
    assert forall k :: 0 <= k < |wins| ==> WinOk(a, wins[k]) && WinOk(b, wins[k]);
  }

  /** Controller `i` becomes `c` while the ledger grows. */
  lemma ReplaceKeepsInv(s: System, ledger: Ledger, i: nat, c: Controller, wins: seq<Win>)
    requires Inv(s) && ledger.Valid() && s.ledger.log <= ledger.log && ControllerOk(ledger.log, c)
             && WinsOk(ledger.log, wins)
    ensures Inv(System(ledger, s.controllers[i := c], wins))
  {
    var t := System(ledger, s.controllers[i := c], wins);
    forall j | j in t.controllers ensures ControllerOk(t.ledger.log, t.controllers[j]) {
      if j != i {
        ControllerStable(s.ledger.log, t.ledger.log, s.controllers[j]);
      }
    }
  }

  lemma ActKeepsInv(s: System, i: nat, a: Action)
    requires Inv(s) && i in s.controllers
    ensures Inv(Step(s, Act(i, a)))
  {
    var c := s.controllers[i];
    assert ControllerOk(s.ledger.log, c);
    EffectOk(s.ledger, c, a);
    var (ledger, next) := Effect(s.ledger, c, a);
    if Commits(s.ledger, c, a) {
      ProposalRaisesByOne(s.ledger, c);
      var w := Win(i, c.op.candidate.session, c.op.from, |s.ledger.log|);
      WinAdded(s.ledger.log, ledger.log, s.wins, w);
      ReplaceKeepsInv(s, ledger, i, next, s.wins + [w]);
    } else {
      assert s.wins + [] == s.wins;
      ReplaceKeepsInv(s, ledger, i, next, s.wins);
    }
  }

  lemma OtherKeepsInv(s: System, rec: Record)
    requires Inv(s)
    ensures Inv(Step(s, Other(rec)))
  {
    var t := Step(s, Other(rec));
    WriteAdvances(s.ledger, rec);
    forall j | j in t.controllers ensures ControllerOk(t.ledger.log, t.controllers[j]) {
      ControllerStable(s.ledger.log, t.ledger.log, s.controllers[j]);
    }
  }

  lemma StepKeepsInv(s: System, e: Event)
    requires Inv(s)
    ensures Inv(Step(s, e))
  {
    match e
    case Join(_) =>
    case Other(rec) => OtherKeepsInv(s, rec);
    case Act(i, a) => if i in s.controllers { ActKeepsInv(s, i, a); }
  }

  lemma {:induction false} RunKeepsInv(events: seq<Event>)
    ensures Inv(Run(Initial, events))
  {
    if events != [] {
      RunKeepsInv(events[..|events| - 1]);
      StepKeepsInv(Run(Initial, events[..|events| - 1]), events[|events| - 1]);
    }
  }

  // ---------------------------------------------------------------- theorems

  /** In every run each cached global epoch is at or below the stored epoch, and a
      cache without emergency failovers holds exactly the record committed at it;
      otherwise it differs from that record in the egress only. */
  lemma CachesTrackStore(events: seq<Event>, i: nat, session: Name)
    requires var s := Run(Initial, events); i in s.controllers && session in s.controllers[i].cache
    ensures var s := Run(Initial, events);
            var c := s.controllers[i].cache[session];
            && c.global <= s.ledger.Epoch(session)
            && (exists r :: r in s.ledger.log && r.session == session && r.epoch == c.global)
            && (forall r :: r in s.ledger.log && r.session == session && r.epoch == c.global ==>
                  c.rec == r.(egress := c.rec.egress) && (c.local == 0 ==> c.rec == r))
  {
    RunKeepsInv(events);
    var s := Run(Initial, events);
    var c := s.controllers[i].cache[session];
    assert ControllerOk(s.ledger.log, s.controllers[i]) && EntryOk(s.ledger.log, session, c);
    CachedBelowStored(s.ledger, s.controllers[i].cache, session);
    var r :| r in s.ledger.log && c.rec == r.(egress := c.rec.egress) && (c.local == 0 ==> r == c.rec);
    forall q | q in s.ledger.log && q.session == session && q.epoch == c.global ensures q == r {
      RecordUnique(s.ledger, q, r);
    }
  }

  /** Over the rest of any run no cached global epoch drops. */
  lemma {:induction false} GlobalNeverDrops(events: seq<Event>, n: nat, i: nat)
    requires n <= |events| && i in Run(Initial, events[..n]).controllers
    ensures i in Run(Initial, events).controllers
    ensures Rises(Run(Initial, events[..n]).controllers[i].cache, Run(Initial, events).controllers[i].cache)
  {
    if n == |events| {
      assert events[..n] == events;
    } else {
      var init, e := events[..|events| - 1], events[|events| - 1];
      assert init[..n] == events[..n];
      GlobalNeverDrops(init, n, i);
      RunKeepsInv(init);
      var s := Run(Initial, init);
      if e.Act? && e.controller == i {
        EffectOk(s.ledger, s.controllers[i], e.action);
      }
      assert i in Step(s, e).controllers && Rises(s.controllers[i].cache, Step(s, e).controllers[i].cache);
    }
  }

  /** Of all controllers that propose from one epoch of a session, by Reconcile or by a
      planned migration, at most one ever commits, reported as such or not. */
  lemma OneProposalWins(events: seq<Event>, k: nat, l: nat)
    requires var wins := Run(Initial, events).wins;
             k < |wins| && l < |wins| && wins[k].session == wins[l].session && wins[k].from == wins[l].from
    ensures k == l
  {
    RunKeepsInv(events);
    var s := Run(Initial, events);
    assert WinOk(s.ledger.log, s.wins[k]) && WinOk(s.ledger.log, s.wins[l]);
  }

  /** And the one that commits, in any run, raises the stored epoch by exactly one, also when the
      commit is reported as an error. */
  lemma WinRaisesByOne(events: seq<Event>, i: nat, a: Action)
    requires var s := Run(Initial, events); i in s.controllers && Commits(s.ledger, s.controllers[i], a)
    ensures var s, t := Run(Initial, events), Run(Initial, events + [Act(i, a)]);
            var op := s.controllers[i].op;
            && s.ledger.Epoch(op.candidate.session) == op.from
            && t.ledger.Get(op.candidate.session) == Some(op.candidate)
            && op.candidate.epoch == op.from + 1
            && |t.wins| == |s.wins| + 1
  {
    RunKeepsInv(events);
    var s := Run(Initial, events);
    assert (events + [Act(i, a)])[..|events|] == events;
    ProposalRaisesByOne(s.ledger, s.controllers[i]);
  }

  predicate Less(a: Cached, b: Cached) {
    if a.global != b.global then a.global < b.global else a.local < b.local
  }

  /** The two-part epoch as a whole can drop: a refresh lowers it exactly when the
      cache has failed over and the store has not moved since. */
  lemma PairDropsExactly(ledger: Ledger, cache: Cache, session: Name)
    requires ledger.Valid() && CacheOk(ledger.log, cache) && session in cache
    ensures session in ledger.current
    ensures Less(StoreOwnership(cache, ledger.current[session])[session], cache[session])
            <==> cache[session].local > 0 && ledger.Epoch(session) == cache[session].global
  {
    CachedBelowStored(ledger, cache, session);
    assert ledger.current[session].session == session;
  }

  /** For example, failing over and then refreshing goes from (1, 1) back to (1, 0). */
  lemma PairCanDrop()
    ensures var rec := Record(Name("s"), Name("a"), Name("hk"), 1);
            var cache := BumpLocal(StoreOwnership(map[], rec), Name("s"), Name("sg"));
            CacheOk([rec], cache) && Less(StoreOwnership(cache, rec)[Name("s")], cache[Name("s")])
  {
    var rec := Record(Name("s"), Name("a"), Name("hk"), 1);
    StoringOk([rec], Controller(map[], Idle), rec);
    BumpOk([rec], StoreOwnership(map[], rec), Name("s"), Name("sg"));
  }

  // ---------------------------------------------------- the calls as written

  /** The cache took on the stored record of a session, or none is stored. */
  ghost predicate TookStored(was: Cache, now: Cache, session: Name, ledger: Ledger) {
    now == if session in ledger.current
           then was[session := Cached(ledger.current[session], ledger.current[session].epoch, 0)]
           else was
  }

  /** What proposing `candidate` answers: the store took it and it is cached; or the store has
      moved on, and the cache took on what is stored unless that read failed; or an error. */
  ghost predicate Proposed(was: Cache, now: Cache, candidate: Record, before: Ledger, after: Ledger, r: Result) {
    match r
    case Applied =>
      && now == was[candidate.session := Cached(candidate, candidate.epoch, 0)]
      && |before.log| <= |after.log| && candidate in after.log[|before.log|..]
    case NotApplied => after.Epoch(candidate.session) >= candidate.epoch
      && (now == was || TookStored(was, now, candidate.session, after))
    case StoreFailed => now == was
    case _ => false
  }

  /** What reconciling answers: a newer stored record is cached; else, after emergency failovers
      only, the failed-over record is proposed. */
  ghost predicate Reconciled(was: Cache, now: Cache, session: Name, before: Ledger, after: Ledger, r: Result)
    requires session in was
  {
    var c := was[session];
    || (r == NotApplied && after.Epoch(session) > c.global && TookStored(was, now, session, after))
    || (r == NotApplied && after.Epoch(session) <= c.global && c.local == 0 && now == was)
    || (r == StoreFailed && now == was)
    || (c.local > 0
        && Proposed(was, now, Record(session, c.rec.access, c.rec.egress, Successor(c.global)), before, after, r))
  }

  datatype Result = Applied | NotApplied | Deferred | NotCached | StoreFailed

  class FailoverController {
    var sessions: Cache
    const ownership: S.OwnershipService

    ghost predicate Valid()
      reads this, ownership, ownership.store
    {
      ownership.Valid() && CacheOk(ownership.ledger.log, sessions)
    }

    constructor (ownership: S.OwnershipService)
      requires ownership.Valid()
      ensures Valid() && sessions == map[] && this.ownership == ownership
    {
      sessions := map[];
      this.ownership := ownership;
    }

    /** Reads the store: None when the access failed, else the stored record, if any. */
    method Peek(session: Name) returns (current: Option<Option<Record>>)
      requires Valid()
      modifies ownership, ownership.store
      ensures Valid() && old(ownership.ledger.log) <= ownership.ledger.log
      ensures current.Some? ==> current.value == ownership.ledger.Get(session)
      ensures ownership.failures == old(ownership.failures) + if current.None? then 1 else 0
    {
      current := ownership.Get(session);
      ControllerStable(old(ownership.ledger.log), ownership.ledger.log, Controller(sessions, Idle));
      assert S.Mirrors(ownership.store.Contents(), ownership.ledger, session);
    }

    /** Caches a committed record that is no older than the cached one. */
    method Keep(rec: Record)
      requires Valid() && rec in ownership.ledger.log && AtLeastCached(sessions, rec)
      modifies this
      ensures Valid() && sessions == StoreOwnership(old(sessions), rec) && Rises(old(sessions), sessions)
    {
      StoringOk(ownership.ledger.log, Controller(sessions, Idle), rec);
      sessions := StoreOwnership(sessions, rec);
    }

    method Refresh(session: Name) returns (failed: bool)
      requires Valid()
      modifies this, ownership, ownership.store
      ensures Valid() && old(ownership.ledger.log) <= ownership.ledger.log && Rises(old(sessions), sessions)
      ensures if failed then sessions == old(sessions)
              else TookStored(old(sessions), sessions, session, ownership.ledger)
      ensures failed ==> ownership.failures > old(ownership.failures)
    {
      var current := Peek(session);
      if current.None? {
        return true;
      }
      if current.value.Some? {
        FetchOk(ownership.ledger, Controller(sessions, Idle), session);
        Keep(current.value.value);
      }
      return false;
    }

    method AttemptPlannedMigration(session: Name, newEgress: Name) returns (r: Result)
      requires Valid()
      modifies this, ownership, ownership.store
      ensures Valid() && old(ownership.ledger.log) <= ownership.ledger.log && Rises(old(sessions), sessions)
      ensures r == NotCached <==> session !in old(sessions)
      ensures r == NotCached ==> sessions == old(sessions)
      ensures r != NotCached ==>
                var c := old(sessions)[session];
                Proposed(old(sessions), sessions, Record(session, c.rec.access, newEgress, Successor(c.global)),
                         old(ownership.ledger), ownership.ledger, if r == Deferred then StoreFailed else r)
      ensures r == Deferred ==> ownership.failures > old(ownership.failures)
                                || !Record(session, old(sessions)[session].rec.access, newEgress, 0).Valid()
    {
      if session !in sessions {
        return NotCached;
      }
      assert EntryOk(ownership.ledger.log, session, sessions[session]);
      r := Propose(sessions[session].rec.NextEpoch(newEgress));
      if r == StoreFailed {
        return Deferred;
      }
    }

    /** Switches egress from the cache alone: the store is not consulted. */
    method EmergencyFailover(session: Name, newEgress: Name) returns (r: Option<Cached>)
      requires Valid()
      modifies this
      ensures Valid() && Rises(old(sessions), sessions)
      ensures r.Some? <==> session in old(sessions)
      ensures r.Some? ==>
                && var c := old(sessions)[session];
                && r.value == Cached(Record(session, c.rec.access, newEgress, c.rec.epoch), c.global, c.local + 1)
                && sessions == old(sessions)[session := r.value]
      ensures r.None? ==> sessions == old(sessions)
    {
      if session !in sessions {
        return None;
      }
      assert EntryOk(ownership.ledger.log, session, sessions[session]);
      BumpOk(ownership.ledger.log, sessions, session, newEgress);
      sessions := BumpLocal(sessions, session, newEgress);
      return Some(sessions[session]);
    }

    method Reconcile(session: Name) returns (r: Result)
      requires Valid()
      modifies this, ownership, ownership.store
      ensures Valid() && old(ownership.ledger.log) <= ownership.ledger.log && Rises(old(sessions), sessions)
      ensures r == NotCached <==> session !in old(sessions)
      ensures r == NotCached ==> sessions == old(sessions)
      ensures r != NotCached ==>
                Reconciled(old(sessions), sessions, session, old(ownership.ledger), ownership.ledger, r)
      ensures r == Applied ==> sessions[session].global == old(sessions)[session].global + 1
      ensures r == StoreFailed ==> ownership.failures > old(ownership.failures) || !old(sessions)[session].rec.Valid()
    {
      if session !in sessions {
        return NotCached;
      }
      ghost var before := ownership.ledger;
      var current := Peek(session);
      if current.None? {
        return StoreFailed;
      }
      r := Compare(session, current.value, before);
    }

    method Compare(session: Name, current: Option<Record>, ghost before: Ledger) returns (r: Result)
      requires Valid() && session in sessions && before.log <= ownership.ledger.log
               && current == ownership.ledger.Get(session)
      modifies this, ownership, ownership.store
      ensures Valid() && old(ownership.ledger.log) <= ownership.ledger.log && Rises(old(sessions), sessions)
      ensures r == Applied ==> sessions[session].global == old(sessions)[session].global + 1
      ensures r == StoreFailed ==> ownership.failures > old(ownership.failures) || !old(sessions)[session].rec.Valid()
      ensures r != NotCached && Reconciled(old(sessions), sessions, session, before, ownership.ledger, r)
    {
      if current.Some? && current.value.epoch > sessions[session].global {
        assert current.value in ownership.ledger.log && current.value.session == session;
        Keep(current.value);
        return NotApplied;
      }
      r := Settle(session, before);
    }

    /** The store has not moved on from the cached epoch. */
    method Settle(session: Name, ghost before: Ledger) returns (r: Result)
      requires Valid() && session in sessions && before.log <= ownership.ledger.log
      requires ownership.ledger.Epoch(session) <= sessions[session].global
      modifies this, ownership, ownership.store
      ensures Valid() && old(ownership.ledger.log) <= ownership.ledger.log && Rises(old(sessions), sessions)
      ensures r == Applied ==> sessions[session].global == old(sessions)[session].global + 1
      ensures r == StoreFailed ==> ownership.failures > old(ownership.failures) || !old(sessions)[session].rec.Valid()
      ensures r != NotCached && Reconciled(old(sessions), sessions, session, before, ownership.ledger, r)
    {
      var cached := sessions[session];
      assert EntryOk(ownership.ledger.log, session, cached);
      if cached.local == 0 {
        return NotApplied;
      }
      r := Propose(cached.rec.NextEpoch(cached.rec.egress));
      S.Later(cached.rec.NextEpoch(cached.rec.egress), before.log, old(ownership.ledger).log, ownership.ledger.log);
    }

    /** The store has moved on: the cache takes on what it holds, if that can be read. */
    method Lost(candidate: Record)
      requires Valid() && ownership.ledger.Epoch(candidate.session) >= candidate.epoch
      modifies this, ownership, ownership.store
      ensures Valid() && old(ownership.ledger.log) <= ownership.ledger.log && Rises(old(sessions), sessions)
      ensures ownership.ledger.Epoch(candidate.session) >= candidate.epoch
      ensures sessions == old(sessions) || TookStored(old(sessions), sessions, candidate.session, ownership.ledger)
    {
      ghost var before := ownership.ledger;
      var _ := Refresh(candidate.session);
      GrowthRaises(before, ownership.ledger, candidate.session);
    }

    /** Writes a candidate that follows the cached epoch, then caches what won. */
    method Propose(candidate: Record) returns (r: Result)
      requires Valid() && candidate.session in sessions
      requires candidate.epoch == Successor(sessions[candidate.session].global)
      modifies this, ownership, ownership.store
      ensures Valid() && old(ownership.ledger.log) <= ownership.ledger.log && Rises(old(sessions), sessions)
      ensures Proposed(old(sessions), sessions, candidate, old(ownership.ledger), ownership.ledger, r)
      ensures r == Applied ==> candidate.epoch == old(sessions)[candidate.session].global + 1
      ensures r == StoreFailed ==> ownership.failures > old(ownership.failures) || !candidate.Valid()
    {
      var outcome := TryWrite(candidate);
      if outcome == S.Applied {
        Keep(candidate);
        return Applied;
      }
      if outcome != S.Superseded {
        return StoreFailed;
      }
      Lost(candidate);
      return NotApplied;
    }

    method TryWrite(candidate: Record) returns (outcome: S.Outcome)
      requires Valid() && candidate.session in sessions
      requires candidate.epoch == Successor(sessions[candidate.session].global)
      modifies ownership, ownership.store
      ensures Valid() && old(ownership.ledger.log) <= ownership.ledger.log
      ensures outcome == S.Applied ==>
        && candidate in ownership.ledger.log[|old(ownership.ledger.log)|..] && candidate in ownership.ledger.log
        && candidate.epoch == sessions[candidate.session].global + 1
      ensures outcome == S.Superseded ==> ownership.ledger.Epoch(candidate.session) >= candidate.epoch
      ensures outcome == S.Invalid ==> !candidate.Valid()
      ensures outcome == S.StoreError ==> ownership.failures > old(ownership.failures)
    {
      ghost var before := ownership.ledger;
      CachedBelowStored(before, sessions, candidate.session);
      var written, _ := ownership.SetIfNewer(candidate);
      ControllerStable(before.log, ownership.ledger.log, Controller(sessions, Idle));
      if written == S.Applied {
        AppendedIsNewer(before, ownership.ledger, candidate);
      }
      assert S.Mirrors(ownership.store.Contents(), ownership.ledger, candidate.session);
      return written;
    }
  }
}
