/** What is asked of failover controllers, and what comes of it: the egress that ends up in the
    store is the one that was named. */
module FailoverRequests {
  import opened Words
  import opened Ownership
  import opened Store
  import opened Ledger
  import opened Failover

  /** Controller `i` can start a call about a session it has cached. */
  predicate Ready(s: System, i: nat, session: Name) {
    i in s.controllers && s.controllers[i].op == Idle && session in s.controllers[i].cache
  }

  /** The egress named by controller i's last emergency failover of a session. */
  function LastFailover(events: seq<Event>, i: nat, session: Name): Option<Name> {
    if events == [] then None
    else
      var init, e := events[..|events| - 1], events[|events| - 1];
      if e.Act? && e.controller == i && e.action.Emergency? && e.action.session == session
         && Ready(Run(Initial, init), i, session)
      then Some(e.action.newEgress)
      else LastFailover(init, i, session)
  }

  /** Whether event `e` starts a proposal of controller i about a session. */
  predicate Starts(s: System, e: Event, i: nat) {
    && e.Act? && e.controller == i && (e.action.Plan? || e.action.Reconcile?)
    && Ready(s, i, e.action.session)
  }

  /** The session and egress controller i was last asked to write: those of a planned migration,
      or of the last emergency failover when it reconciles. */
  function Asked(events: seq<Event>, i: nat): Option<(Name, Name)> {
    if events == [] then None
    else
      var init, e := events[..|events| - 1], events[|events| - 1];
      if !Starts(Run(Initial, init), e, i) then Asked(init, i)
      else if e.action.Plan? then Some((e.action.session, e.action.newEgress))
      else
        match LastFailover(init, i, e.action.session)
        case None => None
        case Some(egress) => Some((e.action.session, egress))
  }

  /** A failed-over entry has the egress last named for it. */
  ghost predicate EntriesNamed(events: seq<Event>, i: nat, cache: Cache) {
    forall t :: t in cache && cache[t].local > 0 ==> LastFailover(events, i, t) == Some(cache[t].rec.egress)
  }

  /** A proposal is what was asked, with the cached access. */
  ghost predicate ProposalNamed(events: seq<Event>, i: nat, c: Controller) {
    c.op.Proposing? ==>
      && Asked(events, i) == Some((c.op.candidate.session, c.op.candidate.egress))
      && c.op.candidate.session in c.cache && c.op.candidate.access == c.cache[c.op.candidate.session].rec.access
  }

  ghost predicate Named(events: seq<Event>, i: nat) {
    var s := Run(Initial, events);
    i in s.controllers ==> EntriesNamed(events, i, s.controllers[i].cache) && ProposalNamed(events, i, s.controllers[i])
  }

  lemma RunNext(events: seq<Event>, e: Event)
    ensures Run(Initial, events + [e]) == Step(Run(Initial, events), e)
  {
    assert (events + [e])[..|events|] == events;
  }

  /** What the two histories do with one more event. */
  lemma HistoryNext(events: seq<Event>, e: Event, i: nat, t: Name)
    ensures LastFailover(events + [e], i, t) ==
              if e.Act? && e.controller == i && e.action.Emergency? && e.action.session == t
                && Ready(Run(Initial, events), i, t)
              then Some(e.action.newEgress) else LastFailover(events, i, t)
    ensures !Starts(Run(Initial, events), e, i) ==> Asked(events + [e], i) == Asked(events, i)
    ensures Starts(Run(Initial, events), e, i) && e.action.Plan? ==>
              Asked(events + [e], i) == Some((e.action.session, e.action.newEgress))
    ensures Starts(Run(Initial, events), e, i) && e.action.Reconcile?
            && LastFailover(events, i, e.action.session).Some? ==>
              Asked(events + [e], i) == Some((e.action.session, LastFailover(events, i, e.action.session).value))
  {
    assert (events + [e])[..|events|] == events;
  }

  /** Other events name no egress for controller i's entries. */
  lemma EntriesStillNamed(events: seq<Event>, e: Event, i: nat, cache: Cache)
    requires EntriesNamed(events, i, cache) && !(e.Act? && e.controller == i && e.action.Emergency?)
    ensures EntriesNamed(events + [e], i, cache)
  {
    forall t | t in cache && cache[t].local > 0 ensures LastFailover(events + [e], i, t) == Some(cache[t].rec.egress) {
      HistoryNext(events, e, i, t);
    }
  }

  lemma OthersKeepNamed(events: seq<Event>, e: Event, i: nat)
    requires Named(events, i) && !(e.Act? && e.controller == i)
    ensures Named(events + [e], i)
  {
    RunNext(events, e);
    HistoryNext(events, e, i, NONAME);
    if i in Run(Initial, events).controllers {
      EntriesStillNamed(events, e, i, Run(Initial, events).controllers[i].cache);
    }
  }

  lemma EmergencyKeepsNamed(events: seq<Event>, i: nat, t: Name, egress: Name)
    requires Named(events, i) && i in Run(Initial, events).controllers
    ensures Named(events + [Act(i, Emergency(t, egress))], i)
  {
    var e := Act(i, Emergency(t, egress));
    RunNext(events, e);
    forall u {
      HistoryNext(events, e, i, u);
    }
  }

  lemma PlanKeepsNamed(events: seq<Event>, i: nat, t: Name, egress: Name)
    requires Named(events, i) && i in Run(Initial, events).controllers
    requires CacheOk(Run(Initial, events).ledger.log, Run(Initial, events).controllers[i].cache)
    ensures Named(events + [Act(i, Plan(t, egress))], i)
  {
    var s, e := Run(Initial, events), Act(i, Plan(t, egress));
    RunNext(events, e);
    HistoryNext(events, e, i, t);
    EntriesStillNamed(events, e, i, s.controllers[i].cache);
    assert t in s.controllers[i].cache ==> EntryOk(s.ledger.log, t, s.controllers[i].cache[t]);
  }

  lemma ReconcileKeepsNamed(events: seq<Event>, i: nat, t: Name)
    requires Named(events, i) && i in Run(Initial, events).controllers
    requires CacheOk(Run(Initial, events).ledger.log, Run(Initial, events).controllers[i].cache)
    ensures Named(events + [Act(i, Reconcile(t))], i)
  {
    var s, e := Run(Initial, events), Act(i, Reconcile(t));
    var c := s.controllers[i];
    RunNext(events, e);
    HistoryNext(events, e, i, t);
    EntriesStillNamed(events, e, i, c.cache);
    assert t in c.cache ==> EntryOk(s.ledger.log, t, c.cache[t]);
    var next := Moved(s.ledger, c, Reconcile(t));
    assert Run(Initial, events + [e]).controllers[i] == next && next.cache == c.cache;
    assert ProposalNamed(events + [e], i, next);
  }

  lemma RestKeepsNamed(events: seq<Event>, i: nat, a: Action)
    requires Named(events, i) && i in Run(Initial, events).controllers
    requires !a.Emergency? && !a.Plan? && !a.Reconcile?
    ensures Named(events + [Act(i, a)], i)
  {
    var s := Run(Initial, events);
    var c := s.controllers[i];
    RunNext(events, Act(i, a));
    HistoryNext(events, Act(i, a), i, NONAME);
    EntriesStillNamed(events, Act(i, a), i, c.cache);
    RestNamesNothing(s.ledger, c, a);
    assert Run(Initial, events + [Act(i, a)]).controllers[i] == Effect(s.ledger, c, a).1;
  }

  /** Such an action starts no proposal and fails nothing over. */
  lemma RestNamesNothing(ledger: Ledger, c: Controller, a: Action)
    requires !a.Emergency? && !a.Plan? && !a.Reconcile?
    ensures var next := Effect(ledger, c, a).1;
            && (next.op.Proposing? ==> next == c)
            && forall t :: t in next.cache && next.cache[t].local > 0 ==> t in c.cache && next.cache[t] == c.cache[t]
  {
  }

  lemma {:induction false} RunIsNamed(events: seq<Event>, i: nat)
    ensures Named(events, i)
  {
    if events != [] {
      var init, e := events[..|events| - 1], events[|events| - 1];
      RunIsNamed(init, i);
      RunKeepsInv(init);
      assert events == init + [e];
      if !(e.Act? && e.controller == i) {
        OthersKeepNamed(init, e, i);
      } else if i !in Run(Initial, init).controllers {
        RunNext(init, e);
      } else if e.action.Emergency? {
        EmergencyKeepsNamed(init, i, e.action.session, e.action.newEgress);
      } else if e.action.Plan? {
        assert ControllerOk(Run(Initial, init).ledger.log, Run(Initial, init).controllers[i]);
        PlanKeepsNamed(init, i, e.action.session, e.action.newEgress);
      } else if e.action.Reconcile? {
        assert ControllerOk(Run(Initial, init).ledger.log, Run(Initial, init).controllers[i]);
        ReconcileKeepsNamed(init, i, e.action.session);
      } else {
        RestKeepsNamed(init, i, e.action);
      }
    }
  }

  /** From `before` to `after`, session's record has a new egress and the next epoch, and the same
      access. */
  ghost predicate MovedTo(before: Ledger, after: Ledger, session: Name, egress: Name) {
    && session in before.current
    && var was := before.current[session];
    && was.epoch + 1 < UINT64
    && after.Get(session) == Some(Record(session, was.access, egress, was.epoch + 1))
  }

  /** A cache at the stored epoch has the stored access. */
  lemma CachedIsCurrent(ledger: Ledger, cache: Cache, session: Name)
    requires ledger.Valid() && CacheOk(ledger.log, cache) && session in cache
    requires cache[session].global == ledger.Epoch(session)
    ensures session in ledger.current && cache[session].rec.access == ledger.current[session].access
    ensures cache[session].rec.session == session && ledger.current[session].session == session
  {
    var c := cache[session];
    assert EntryOk(ledger.log, session, c);
    var r :| r in ledger.log && c.rec == r.(egress := c.rec.egress);
    RecordUnique(ledger, r, ledger.current[session]);
  }

  lemma CommitMoves(ledger: Ledger, c: Controller)
    requires ledger.Valid() && ControllerOk(ledger.log, c) && c.op.Proposing? && ledger.Accepts(c.op.candidate)
    requires c.op.candidate.access == c.cache[c.op.candidate.session].rec.access
    ensures MovedTo(ledger, ledger.Commit(c.op.candidate), c.op.candidate.session, c.op.candidate.egress)
  {
    ProposalRaisesByOne(ledger, c);
    CachedIsCurrent(ledger, c.cache, c.op.candidate.session);
  }

  /** In every run a proposal that commits, reported as such or not, writes the egress that was
      asked for: the one a planned migration names, or for Reconcile the one the controller's last
      emergency failover of the session named. Access and session stay, and the epoch rises by one. */
  lemma WinIsWhatWasAsked(events: seq<Event>, i: nat, a: Action)
    requires var s := Run(Initial, events); i in s.controllers && Commits(s.ledger, s.controllers[i], a)
    ensures Asked(events, i).Some?
    ensures MovedTo(Run(Initial, events).ledger, Run(Initial, events + [Act(i, a)]).ledger,
                    Asked(events, i).value.0, Asked(events, i).value.1)
  {
    RunIsNamed(events, i);
    RunKeepsInv(events);
    var s := Run(Initial, events);
    RunNext(events, Act(i, a));
    assert ControllerOk(s.ledger.log, s.controllers[i]);
    CommitMoves(s.ledger, s.controllers[i]);
  }

  // ----------------------------------------------------------- undisturbed calls

  /** One action of one controller. */
  lemma ActNext(events: seq<Event>, i: nat, a: Action)
    requires i in Run(Initial, events).controllers
    ensures var s, t := Run(Initial, events), Run(Initial, events + [Act(i, a)]);
            && i in t.controllers && (t.ledger, t.controllers[i]) == Effect(s.ledger, s.controllers[i], a)
  {
    RunNext(events, Act(i, a));
  }

  /** The cache has a session's stored record. */
  ghost predicate HasCached(s: System, i: nat, session: Name) {
    && i in s.controllers && s.controllers[i].op == Idle && session in s.ledger.current
    && session in s.controllers[i].cache
    && s.controllers[i].cache[session] == Cached(s.ledger.current[session], s.ledger.current[session].epoch, 0)
  }

  /** An undisturbed refresh caches what is stored. */
  lemma RefreshCaches(events: seq<Event>, i: nat, session: Name)
    requires var s := Run(Initial, events);
             i in s.controllers && s.controllers[i].op == Idle && session in s.ledger.current
    ensures var t := Run(Initial, events + [Act(i, Refresh(session))] + [Act(i, Cache)]);
            t.ledger == Run(Initial, events).ledger && HasCached(t, i, session)
  {
    RunKeepsInv(events);
    ActNext(events, i, Refresh(session));
    ActNext(events + [Act(i, Refresh(session))], i, Cache);
  }

  /** The state of a controller whose proposal for a session can commit. */
  ghost predicate CanWin(s: System, i: nat, session: Name, egress: Name) {
    && Ready(s, i, session) && session != NONAME && egress != NONAME
    && s.controllers[i].cache[session].global == s.ledger.Epoch(session)
    && s.controllers[i].cache[session].rec.access != NONAME && s.ledger.Epoch(session) + 1 < UINT64
  }

  lemma ProposalWins(events: seq<Event>, i: nat, session: Name, egress: Name)
    requires var s := Run(Initial, events);
             && i in s.controllers && s.controllers[i].op.Proposing?
             && s.controllers[i].op.candidate.session == session && s.controllers[i].op.candidate.egress == egress
             && Commits(s.ledger, s.controllers[i], Write)
    ensures var s, t := Run(Initial, events), Run(Initial, events + [Act(i, Write)] + [Act(i, Cache)]);
            MovedTo(s.ledger, t.ledger, session, egress) && HasCached(t, i, session)
  {
    RunIsNamed(events, i);
    WinIsWhatWasAsked(events, i, Write);
    ActNext(events, i, Write);
    ActNext(events + [Act(i, Write)], i, Cache);
  }

  /** An undisturbed planned migration from a cache that is current moves the session to the egress
      named, in the store and in the cache. */
  lemma PlannedMigrationMoves(events: seq<Event>, i: nat, session: Name, egress: Name)
    requires CanWin(Run(Initial, events), i, session, egress)
    ensures var s := Run(Initial, events);
            var t := Run(Initial, events + [Act(i, Plan(session, egress))] + [Act(i, Write)] + [Act(i, Cache)]);
            MovedTo(s.ledger, t.ledger, session, egress) && HasCached(t, i, session)
  {
    RunKeepsInv(events);
    var s := Run(Initial, events);
    assert ControllerOk(s.ledger.log, s.controllers[i]);
    assert EntryOk(s.ledger.log, session, s.controllers[i].cache[session]);
    ActNext(events, i, Plan(session, egress));
    ProposalWins(events + [Act(i, Plan(session, egress))], i, session, egress);
  }

  /** And so does an emergency failover followed by an undisturbed Reconcile. */
  lemma FailoverReconciles(events: seq<Event>, i: nat, session: Name, egress: Name)
    requires CanWin(Run(Initial, events), i, session, egress)
    ensures var s := Run(Initial, events);
            var t := Run(Initial, events + [Act(i, Emergency(session, egress))] + [Act(i, Reconcile(session))]
                                  + [Act(i, Write)] + [Act(i, Cache)]);
            MovedTo(s.ledger, t.ledger, session, egress) && HasCached(t, i, session)
  {
    RunKeepsInv(events);
    var s := Run(Initial, events);
    assert ControllerOk(s.ledger.log, s.controllers[i]);
    assert EntryOk(s.ledger.log, session, s.controllers[i].cache[session]);
    var failed := events + [Act(i, Emergency(session, egress))];
    ActNext(events, i, Emergency(session, egress));
    ActNext(failed, i, Reconcile(session));
    ProposalWins(failed + [Act(i, Reconcile(session))], i, session, egress);
  }

  /** A controller joins with an empty cache; other writers write what is newer than what is stored. */
  lemma OthersAct(events: seq<Event>, i: nat, rec: Record)
    ensures i !in Run(Initial, events).controllers ==>
              var t := Run(Initial, events + [Join(i)]);
              i in t.controllers && t.controllers[i] == Controller(map[], Idle)
    ensures var s, t := Run(Initial, events), Run(Initial, events + [Other(rec)]);
            t == s.(ledger := if s.ledger.Epoch(rec.session) < rec.epoch then s.ledger.Commit(rec) else s.ledger)
  {
    RunNext(events, Join(i));
    RunNext(events, Other(rec));
  }

  /** In every run an action of a controller writes the store exactly when it is a proposal that
      commits, and then what was proposed. */
  lemma WritesExactly(events: seq<Event>, i: nat, a: Action)
    requires i in Run(Initial, events).controllers
    ensures var s, t := Run(Initial, events), Run(Initial, events + [Act(i, a)]);
            var c := s.controllers[i];
            t.ledger == if Commits(s.ledger, c, a) then s.ledger.Commit(c.op.candidate) else s.ledger
  {
    RunNext(events, Act(i, a));
  }

  /** An undisturbed Reconcile of a cache behind the store caches what is stored. */
  lemma ReconcileCatchesUp(events: seq<Event>, i: nat, session: Name)
    requires var s := Run(Initial, events);
             Ready(s, i, session) && s.controllers[i].cache[session].global < s.ledger.Epoch(session)
    ensures var t := Run(Initial, events + [Act(i, Reconcile(session))] + [Act(i, Cache)]);
            t.ledger == Run(Initial, events).ledger && HasCached(t, i, session)
  {
    RunKeepsInv(events);
    ActNext(events, i, Reconcile(session));
    ActNext(events + [Act(i, Reconcile(session))], i, Cache);
  }

  /** Controller i proposes what the store has moved past. */
  ghost predicate TooLate(s: System, i: nat) {
    && i in s.controllers && s.controllers[i].op.Proposing? && s.controllers[i].op.candidate.Valid()
    && s.ledger.Epoch(s.controllers[i].op.candidate.session) >= s.controllers[i].op.candidate.epoch
  }

  /** Such a proposal is refused. */
  lemma LateIsRefused(events: seq<Event>, i: nat)
    requires TooLate(Run(Initial, events), i)
    ensures var s, t := Run(Initial, events), Run(Initial, events + [Act(i, Write)]);
            && t.ledger == s.ledger && i in t.controllers
            && t.controllers[i] == Controller(s.controllers[i].cache, Refused(s.controllers[i].op.candidate.session))
  {
    ActNext(events, i, Write);
  }

  lemma RefusedRefreshes(events: seq<Event>, i: nat, session: Name)
    requires var s := Run(Initial, events);
             && i in s.controllers && s.controllers[i].op == Refused(session)
             && s.ledger.Valid() && session in s.ledger.current
    ensures var t := Run(Initial, events + [Act(i, RefreshRefused)] + [Act(i, Cache)]);
            t.ledger == Run(Initial, events).ledger && HasCached(t, i, session)
  {
    ActNext(events, i, RefreshRefused);
    ActNext(events + [Act(i, RefreshRefused)], i, Cache);
  }

  /** The controller then caches what is stored. */
  lemma RefusalCatchesUp(events: seq<Event>, i: nat)
    requires TooLate(Run(Initial, events), i)
    ensures var s := Run(Initial, events);
            var t := Run(Initial, events + [Act(i, Write)] + [Act(i, RefreshRefused)] + [Act(i, Cache)]);
            t.ledger == s.ledger && HasCached(t, i, s.controllers[i].op.candidate.session)
  {
    RunKeepsInv(events);
    LateIsRefused(events, i);
    RefusedRefreshes(events + [Act(i, Write)], i, Run(Initial, events).controllers[i].op.candidate.session);
  }

  /** Or, if it cannot read that, keeps what it has. */
  lemma RefusalKeeps(events: seq<Event>, i: nat)
    requires TooLate(Run(Initial, events), i)
    ensures var s, t := Run(Initial, events), Run(Initial, events + [Act(i, Write)] + [Act(i, GiveUp)]);
            && t.ledger == s.ledger && i in t.controllers
            && t.controllers[i] == Controller(s.controllers[i].cache, Idle)
  {
    LateIsRefused(events, i);
    ActNext(events + [Act(i, Write)], i, GiveUp);
  }
}
