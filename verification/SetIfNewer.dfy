/** `OwnershipService.SetIfNewer` under concurrency. Any number of calls run at
    once; each is split at its three store accesses (Revision, Get,
    CompareAndSwap), and between any two of them every other call, and every
    writer of other keys, may act. A run is any sequence of events; an event
    that is not enabled changes nothing. */
module SetIfNewer {
  import opened Ownership
  import opened Store
  import opened Ledger

  /** What a key holds: an ownership record, or some other component's bytes. */
  datatype Value = Owned(rec: Record) | Foreign(bytes: seq<int>)

  /** Where a call is. `attempts` counts its swaps so far. `base` is a history
      variable: the epoch stored when the call read the revision, -1 for none. */
  datatype Call =
    | Checking(rec: Record, attempts: nat)
    | Reading(rec: Record, attempts: nat, revision: nat, base: int)
    | Swapping(rec: Record, attempts: nat, revision: nat, base: int)
    | Returned(rec: Record, attempts: nat, applied: bool, at: nat)
    | Errored(rec: Record, attempts: nat)

  /** `ledger` is a history variable: every record committed so far. */
  datatype System = System(store: KV<Key, Value>, calls: map<nat, Call>, ledger: Ledger)

  datatype Event =
    | Begin(call: nat, rec: Record)
    | ReadRevision(call: nat)
    | ReadValue(call: nat)
    | Swap(call: nat)
    | SwapUnsaved(call: nat)  // the swap happens but saving it reports an error
    | Fail(call: nat)         // a store access fails
    | PutOther(path: string, bytes: seq<int>)

  const Initial := System(KV(map[], 0), map[], EMPTY)

  function Stored(store: KV<Key, Value>, session: Name): Option<Record> {
    match store.Get(SessionKey(session))
    case Some(Owned(rec)) => Some(rec)
    case _ => None
  }

  /** The stored epoch, or -1 when the session has no record. */
  function StoredEpoch(store: KV<Key, Value>, session: Name): int {
    match Stored(store, session)
    case Some(rec) => rec.epoch
    case None => -1
  }

  function Commit(s: System, c: nat, after: Call): System {
    System(s.store.Put(SessionKey(after.rec.session), Owned(after.rec)), s.calls[c := after],
           s.ledger.Commit(after.rec))
  }

  function Step(s: System, e: Event): System {
    match e
    case Begin(c, rec) =>
      if c in s.calls then s
      else s.(calls := s.calls[c := if rec.Valid() then Checking(rec, 0) else Errored(rec, 0)])
    case ReadRevision(c) =>
      if c in s.calls && s.calls[c].Checking? then
        var Checking(rec, n) := s.calls[c];
        var key := SessionKey(rec.session);
        var next := if key in s.store.data
                    then Reading(rec, n, s.store.RevisionOf(key), StoredEpoch(s.store, rec.session))
                    else Swapping(rec, n, 0, -1);
        s.(calls := s.calls[c := next])
      else s
    case ReadValue(c) =>
      if c in s.calls && s.calls[c].Reading? then
        var Reading(rec, n, revision, base) := s.calls[c];
        var next := match Stored(s.store, rec.session)
          case None => Errored(rec, n)
          case Some(current) =>
            if rec.Newer(current) then Swapping(rec, n, revision, base) else Returned(rec, n, false, |s.ledger.log|);
        s.(calls := s.calls[c := next])
      else s
    case Swap(c) =>
      if c in s.calls && s.calls[c].Swapping? then
        var Swapping(rec, n, expected, _) := s.calls[c];
        if s.store.RevisionOf(SessionKey(rec.session)) == expected
        then Commit(s, c, Returned(rec, n + 1, true, |s.ledger.log|))
        else s.(calls := s.calls[c := Checking(rec, n + 1)])
      else s
    case SwapUnsaved(c) =>
      if c in s.calls && s.calls[c].Swapping? then
        var Swapping(rec, n, expected, _) := s.calls[c];
        if s.store.RevisionOf(SessionKey(rec.session)) == expected
        then Commit(s, c, Errored(rec, n + 1))
        else s
      else s
    case Fail(c) =>
      if c in s.calls && !s.calls[c].Returned?
      then s.(calls := s.calls[c := Errored(s.calls[c].rec, s.calls[c].attempts)]) else s
    case PutOther(path, bytes) =>
      s.(store := s.store.Put(OtherKey(path), Foreign(bytes)))
  }

  /** The state after `events`, from `s`. */
  function Run(s: System, events: seq<Event>): System {
    if events == [] then s else Step(Run(s, events[..|events| - 1]), events[|events| - 1])
  }

  /** The store holds, for every session, its newest committed record. */
  ghost predicate HoldsNewest(store: KV<Key, Value>, ledger: Ledger) {
    forall t :: Mirrors(store, ledger, t)
  }

  ghost predicate Mirrors(store: KV<Key, Value>, ledger: Ledger, session: Name) {
    && Stored(store, session) == ledger.Get(session)
    && (SessionKey(session) in store.data ==> Stored(store, session).Some?)
  }

  /** A call that read revision `revision` when `base` was stored: the two still
      go together, or the epoch has risen since. */
  ghost predicate Remembers(store: KV<Key, Value>, session: Name, revision: nat, base: int) {
    && revision <= store.nextRev
    && (if store.RevisionOf(SessionKey(session)) == revision
        then StoredEpoch(store, session) == base
        else StoredEpoch(store, session) > base)
  }

  ghost predicate CallOk(s: System, call: Call) {
    match call
    case Checking(rec, n) => n <= rec.epoch + 1 && StoredEpoch(s.store, rec.session) >= n - 1
    case Reading(rec, n, revision, base) =>
      n <= rec.epoch + 1 && base >= n - 1 && base >= 0 && Remembers(s.store, rec.session, revision, base)
    case Swapping(rec, n, revision, base) =>
      rec.epoch > base >= n - 1 && Remembers(s.store, rec.session, revision, base)
    case Returned(rec, n, applied, at) =>
      && n <= rec.epoch + 1
      && (if applied then at < |s.ledger.log| && s.ledger.log[at] == rec
          else StoredEpoch(s.store, rec.session) >= rec.epoch)
    case Errored(rec, n) => n <= rec.epoch + 1
  }

  ghost predicate Inv(s: System) {
    && s.store.WellFormed()
    && s.ledger.Valid()
    && HoldsNewest(s.store, s.ledger)
    && (forall c :: c in s.calls ==> CallOk(s, s.calls[c]))
    && (forall c, d :: c in s.calls && d in s.calls && c != d && Wrote(s.calls[c]) && Wrote(s.calls[d])
          ==> s.calls[c].at != s.calls[d].at)
  }

  predicate Wrote(call: Call) {
    call.Returned? && call.applied
  }

  /** A write changes its own session's record and revision and no other's. */
  lemma PutStores(store: KV<Key, Value>, rec: Record, session: Name)
    ensures var next := store.Put(SessionKey(rec.session), Owned(rec));
            if session == rec.session
            then Stored(next, session) == Some(rec) && next.RevisionOf(SessionKey(session)) == store.nextRev + 1
            else && Stored(next, session) == Stored(store, session)
                 && next.RevisionOf(SessionKey(session)) == store.RevisionOf(SessionKey(session))
                 && (SessionKey(session) in next.data <==> SessionKey(session) in store.data)
  {
  }

  /** Writing a record newer than the stored one keeps ledger and store consistent. */
  lemma CommitMirrors(store: KV<Key, Value>, ledger: Ledger, rec: Record)
    requires store.WellFormed() && ledger.Valid() && HoldsNewest(store, ledger)
    requires StoredEpoch(store, rec.session) < rec.epoch
    ensures var next := store.Put(SessionKey(rec.session), Owned(rec));
            next.WellFormed() && ledger.Accepts(rec) && ledger.Commit(rec).Valid()
              && HoldsNewest(next, ledger.Commit(rec))
  {
    var next := store.Put(SessionKey(rec.session), Owned(rec));
    assert Mirrors(store, ledger, rec.session);
    CommitValid(ledger, rec);
    PutIsFresh(store, SessionKey(rec.session), Owned(rec));
    forall u ensures Mirrors(next, ledger.Commit(rec), u) {
      assert Mirrors(store, ledger, u);
      PutStores(store, rec, u);
    }
  }

  /** A waiting call stays consistent when its session's epoch rises. */
  lemma OtherCommitKeepsCall(s: System, t: System, call: Call, rec: Record)
    requires CallOk(s, call) && s.ledger.log <= t.ledger.log
             && t.store == s.store.Put(SessionKey(rec.session), Owned(rec))
    requires StoredEpoch(s.store, rec.session) < rec.epoch
    ensures CallOk(t, call)
  {
    PutStores(s.store, rec, call.rec.session);
  }

  lemma CommitKeepsInv(s: System, c: nat, after: Call)
    requires Inv(s) && c in s.calls && s.calls[c].Swapping? && after.rec == s.calls[c].rec
    requires s.store.RevisionOf(SessionKey(after.rec.session)) == s.calls[c].revision
    requires after.attempts == s.calls[c].attempts + 1
    requires after.Errored? || (after.Returned? && after.applied && after.at == |s.ledger.log|)
    ensures Inv(Commit(s, c, after))
    ensures StoredEpoch(s.store, after.rec.session) < after.rec.epoch
  {
    var rec, t := after.rec, Commit(s, c, after);
    assert CallOk(s, s.calls[c]);
    CommitMirrors(s.store, s.ledger, rec);
    forall d | d in t.calls ensures CallOk(t, t.calls[d]) {
      if d != c {
        OtherCommitKeepsCall(s, t, s.calls[d], rec);
      }
    }
    assert forall d :: d in s.calls && Wrote(s.calls[d]) ==> CallOk(s, s.calls[d]) && s.calls[d].at < |s.ledger.log|;
  }

  /** Moving one call without writing. */
  lemma MoveKeepsInv(s: System, c: nat, call: Call)
    requires Inv(s) && CallOk(s, call) && !Wrote(call)
    ensures Inv(s.(calls := s.calls[c := call]))
  {
    var t := s.(calls := s.calls[c := call]);
    forall d | d in t.calls ensures CallOk(t, t.calls[d]) {
      if d != c {
        assert CallOk(s, s.calls[d]);
      }
    }
  }

  lemma PutOtherKeepsInv(s: System, path: string, bytes: seq<int>)
    requires Inv(s)
    ensures Inv(Step(s, PutOther(path, bytes)))
  {
    var t := Step(s, PutOther(path, bytes));
    PutIsFresh(s.store, OtherKey(path), Foreign(bytes));
    forall u ensures Mirrors(t.store, t.ledger, u) {
      assert Mirrors(s.store, s.ledger, u);
    }
    forall d | d in t.calls ensures CallOk(t, t.calls[d]) {
      assert CallOk(s, s.calls[d]);
    }
  }

  lemma BeginKeepsInv(s: System, c: nat, rec: Record)
    requires Inv(s)
    ensures Inv(Step(s, Begin(c, rec)))
  {
    if c !in s.calls {
      MoveKeepsInv(s, c, if rec.Valid() then Checking(rec, 0) else Errored(rec, 0));
    }
  }

  lemma ReadRevisionKeepsInv(s: System, c: nat)
    requires Inv(s)
    ensures Inv(Step(s, ReadRevision(c)))
  {
    if c in s.calls && s.calls[c].Checking? {
      assert CallOk(s, s.calls[c]) && Mirrors(s.store, s.ledger, s.calls[c].rec.session);
      MoveKeepsInv(s, c, Step(s, ReadRevision(c)).calls[c]);
    }
  }

  lemma ReadValueKeepsInv(s: System, c: nat)
    requires Inv(s)
    ensures Inv(Step(s, ReadValue(c)))
  {
    if c in s.calls && s.calls[c].Reading? {
      assert CallOk(s, s.calls[c]) && Mirrors(s.store, s.ledger, s.calls[c].rec.session);
      MoveKeepsInv(s, c, Step(s, ReadValue(c)).calls[c]);
    }
  }

  lemma SwapKeepsInv(s: System, c: nat, e: Event)
    requires Inv(s) && (e == Swap(c) || e == SwapUnsaved(c))
    ensures Inv(Step(s, e))
  {
    if c in s.calls && s.calls[c].Swapping? {
      var call := s.calls[c];
      assert CallOk(s, call);
      if s.store.RevisionOf(SessionKey(call.rec.session)) == call.revision {
        CommitKeepsInv(s, c, Step(s, e).calls[c]);
      } else if e.Swap? {
        MoveKeepsInv(s, c, Checking(call.rec, call.attempts + 1));
      }
    }
  }

  lemma FailKeepsInv(s: System, c: nat)
    requires Inv(s)
    ensures Inv(Step(s, Fail(c)))
  {
    if c in s.calls && !s.calls[c].Returned? {
      assert CallOk(s, s.calls[c]);
      MoveKeepsInv(s, c, Errored(s.calls[c].rec, s.calls[c].attempts));
    }
  }

  lemma StepKeepsInv(s: System, e: Event)
    requires Inv(s)
    ensures Inv(Step(s, e))
  {
    match e
    case Begin(c, rec) => BeginKeepsInv(s, c, rec);
    case ReadRevision(c) => ReadRevisionKeepsInv(s, c);
    case ReadValue(c) => ReadValueKeepsInv(s, c);
    case Swap(c) => SwapKeepsInv(s, c, e);
    case SwapUnsaved(c) => SwapKeepsInv(s, c, e);
    case Fail(c) => FailKeepsInv(s, c);
    case PutOther(path, bytes) => PutOtherKeepsInv(s, path, bytes);
  }

  /** Every reachable state satisfies the invariant. */
  lemma {:induction false} RunKeepsInv(events: seq<Event>)
    ensures Inv(Run(Initial, events))
  {
    if events != [] {
      RunKeepsInv(events[..|events| - 1]);
      StepKeepsInv(Run(Initial, events[..|events| - 1]), events[|events| - 1]);
    }
  }

  // ---------------------------------------------------------------- theorems

  /** The atomic meaning of a call: write the record if it is newer than the
      stored one. */
  function AtomicSet(store: KV<Key, Value>, rec: Record): KV<Key, Value> {
    if StoredEpoch(store, rec.session) < rec.epoch then store.Put(SessionKey(rec.session), Owned(rec)) else store
  }

  /** Linearizability: in every run, the step at which a call returns has exactly
      the effect and the answer of the atomic operation, although Revision, Get
      and CompareAndSwap are three separate accesses. */
  lemma ReturnIsAtomic(events: seq<Event>, e: Event, c: nat)
    requires var s := Run(Initial, events); c in s.calls && !s.calls[c].Returned?
    requires c in Step(Run(Initial, events), e).calls && Step(Run(Initial, events), e).calls[c].Returned?
    ensures var s, t := Run(Initial, events), Step(Run(Initial, events), e);
            var rec := t.calls[c].rec;
            && rec == s.calls[c].rec
            && t.store == AtomicSet(s.store, rec)
            && (t.calls[c].applied <==> StoredEpoch(s.store, rec.session) < rec.epoch)
  {
    RunKeepsInv(events);
    var s := Run(Initial, events);
    assert CallOk(s, s.calls[c]);
  }

  /** Every commit, however it is reported, strictly raises its session's epoch and
      leaves every other session alone. */
  lemma CommitRaisesEpoch(events: seq<Event>, e: Event)
    ensures var s, t := Run(Initial, events), Step(Run(Initial, events), e);
            t.ledger == s.ledger || exists rec ::
              && t.ledger == s.ledger.Commit(rec)
              && StoredEpoch(s.store, rec.session) < rec.epoch
              && Stored(t.store, rec.session) == Some(rec)
              && forall u :: u != rec.session ==> Stored(t.store, u) == Stored(s.store, u)
  {
    RunKeepsInv(events);
    var s, t := Run(Initial, events), Step(Run(Initial, events), e);
    if t.ledger != s.ledger {
      assert CallOk(s, s.calls[e.call]);
      var rec := s.calls[e.call].rec;
      forall u {
        PutStores(s.store, rec, u);
      }
      assert t.ledger == s.ledger.Commit(rec) && Stored(t.store, rec.session) == Some(rec);
    }
  }

  /** Each (session, epoch) is committed at most once, so its record is unique,
      and at most one call ever reports having applied it. */
  lemma AppliedAtMostOnce(events: seq<Event>)
    ensures var s := Run(Initial, events);
            var log := s.ledger.log;
            && (forall i, j | 0 <= i < |log| && 0 <= j < |log| && SameSlot(log[i], log[j]) :: i == j)
            && (forall c, d | c in s.calls && d in s.calls && Wrote(s.calls[c]) && Wrote(s.calls[d])
                              && SameSlot(s.calls[c].rec, s.calls[d].rec) :: c == d)
  {
    RunKeepsInv(events);
    var s := Run(Initial, events);
    forall c, d | c in s.calls && d in s.calls && c != d && Wrote(s.calls[c]) && Wrote(s.calls[d])
      ensures !SameSlot(s.calls[c].rec, s.calls[d].rec)
    {
      assert CallOk(s, s.calls[c]) && CallOk(s, s.calls[d]);
      assert s.ledger.log[s.calls[c].at] == s.calls[c].rec && s.ledger.log[s.calls[d].at] == s.calls[d].rec;
    }
  }

  /** In every reachable state the stored record is the newest committed one. */
  lemma StoreIsLedger(events: seq<Event>, session: Name)
    ensures var s := Run(Initial, events);
            s.ledger.Valid() && Stored(s.store, session) == s.ledger.Get(session)
  {
    RunKeepsInv(events);
    assert Mirrors(Run(Initial, events).store, Run(Initial, events).ledger, session);
  }

  /** Over the rest of any run the history only grows and no stored epoch drops. */
  lemma {:induction false} EpochsNeverDrop(events: seq<Event>, n: nat, session: Name)
    requires n <= |events|
    ensures Run(Initial, events[..n]).ledger.log <= Run(Initial, events).ledger.log
    ensures StoredEpoch(Run(Initial, events[..n]).store, session) <= StoredEpoch(Run(Initial, events).store, session)
  {
    if n == |events| {
      assert events[..n] == events;
    } else {
      var init := events[..|events| - 1];
      assert init[..n] == events[..n];
      EpochsNeverDrop(init, n, session);
      CommitRaisesEpoch(init, events[|events| - 1]);
      StoreIsLedger(init, session);
      StoreIsLedger(events, session);
    }
  }

  /** A failed swap means another writer raised the epoch after this call read the
      revision. */
  lemma FailedSwapMeansRaised(events: seq<Event>, c: nat)
    requires var s := Run(Initial, events); c in s.calls && s.calls[c].Swapping?
    requires Step(Run(Initial, events), Swap(c)).calls[c].Checking?
    ensures var s := Run(Initial, events); StoredEpoch(s.store, s.calls[c].rec.session) > s.calls[c].base
  {
    RunKeepsInv(events);
    var s := Run(Initial, events);
    assert CallOk(s, s.calls[c]);
  }

  /** In every run a swap commits its call's record exactly when the epoch stored is still the one
      stored when the call read the revision; otherwise the call starts over and nothing changes. */
  lemma SwapCommitsExactly(events: seq<Event>, c: nat)
    requires var s := Run(Initial, events); c in s.calls && s.calls[c].Swapping?
    ensures var s := Run(Initial, events);
            var t, call := Step(s, Swap(c)), s.calls[c];
            if StoredEpoch(s.store, call.rec.session) == call.base
            then && t.calls[c] == Returned(call.rec, call.attempts + 1, true, |s.ledger.log|)
                 && Stored(t.store, call.rec.session) == Some(call.rec) && t.ledger == s.ledger.Commit(call.rec)
            else t == s.(calls := s.calls[c := Checking(call.rec, call.attempts + 1)])
  {
    RunKeepsInv(events);
    var s := Run(Initial, events);
    assert CallOk(s, s.calls[c]);
    PutStores(s.store, s.calls[c].rec, s.calls[c].rec.session);
  }

  /** In every run a call ends in an error only by an invalid record, a failing access, or a swap
      whose save fails. */
  lemma ErrorMeansFailure(events: seq<Event>, e: Event, c: nat)
    requires var s, t := Run(Initial, events), Step(Run(Initial, events), e);
             c in t.calls && t.calls[c].Errored? && !(c in s.calls && s.calls[c].Errored?)
    ensures e == Fail(c) || e == SwapUnsaved(c) || (e.Begin? && e.call == c && !e.rec.Valid())
  {
    RunKeepsInv(events);
    var s := Run(Initial, events);
    assert c in s.calls ==> CallOk(s, s.calls[c]);
  }

  lemma RunNext(s: System, events: seq<Event>, e: Event)
    ensures Run(s, events + [e]) == Step(Run(s, events), e)
  {
    assert (events + [e])[..|events|] == events;
  }

  /** In every run a failing access ends its call, unless that has returned, and nothing else. */
  lemma FailureEnds(events: seq<Event>, c: nat)
    requires c in Run(Initial, events).calls
    ensures var s, t := Run(Initial, events), Run(Initial, events + [Fail(c)]);
            var call := s.calls[c];
            t == if call.Returned? then s else s.(calls := s.calls[c := Errored(call.rec, call.attempts)])
  {
    RunNext(Initial, events, Fail(c));
  }

  /** And writers of other keys leave every session's record alone. */
  lemma OthersLeaveSessions(events: seq<Event>, path: string, bytes: seq<int>, session: Name)
    ensures var s, t := Run(Initial, events), Run(Initial, events + [PutOther(path, bytes)]);
            && t.store.Get(OtherKey(path)) == Some(Foreign(bytes)) && t.calls == s.calls && t.ledger == s.ledger
            && Stored(t.store, session) == Stored(s.store, session)
  {
    RunNext(Initial, events, PutOther(path, bytes));
  }

  /** The accesses of one call, with nobody in between. */
  function Undisturbed(c: nat, rec: Record): seq<Event> {
    [Begin(c, rec)] + [ReadRevision(c)] + [ReadValue(c)] + [Swap(c)]
  }

  /** The store after them. */
  lemma SetWorks(s: System, c: nat, rec: Record)
    requires Inv(s) && c !in s.calls && rec.Valid()
    ensures var t := Step(Step(Step(Step(s, Begin(c, rec)), ReadRevision(c)), ReadValue(c)), Swap(c));
            && c in t.calls && t.calls[c].Returned?
            && (t.calls[c].applied <==> StoredEpoch(s.store, rec.session) < rec.epoch)
            && t.store == AtomicSet(s.store, rec)
  {
    assert Mirrors(s.store, s.ledger, rec.session);
    var begun := Step(s, Begin(c, rec));
    assert begun.store == s.store && begun.calls[c] == Checking(rec, 0);
    var looked := Step(begun, ReadRevision(c));
    assert looked.store == s.store;
    var read := Step(looked, ReadValue(c));
    assert read.store == s.store && (read.calls[c].Swapping? <==> StoredEpoch(s.store, rec.session) < rec.epoch);
  }

  /** Progress: after any run, a valid record's call that nobody disturbs and no access fails
      returns, having written exactly when the record is newer than the stored one; the session
      then holds it, and otherwise what it held. */
  lemma UndisturbedSets(events: seq<Event>, c: nat, rec: Record)
    requires c !in Run(Initial, events).calls && rec.Valid()
    ensures var s, t := Run(Initial, events), Run(Initial, events + Undisturbed(c, rec));
            var newer := StoredEpoch(s.store, rec.session) < rec.epoch;
            && c in t.calls && t.calls[c].Returned? && (t.calls[c].applied <==> newer)
            && Stored(t.store, rec.session) == (if newer then Some(rec) else Stored(s.store, rec.session))
            && forall u :: u != rec.session ==> Stored(t.store, u) == Stored(s.store, u)
  {
    RunKeepsInv(events);
    var s := Run(Initial, events);
    SetWorks(s, c, rec);
    var e1 := events + [Begin(c, rec)];
    var e2 := e1 + [ReadRevision(c)];
    var e3 := e2 + [ReadValue(c)];
    RunNext(Initial, events, Begin(c, rec));
    RunNext(Initial, e1, ReadRevision(c));
    RunNext(Initial, e2, ReadValue(c));
    RunNext(Initial, e3, Swap(c));
    assert events + Undisturbed(c, rec) == e3 + [Swap(c)];
    forall u ensures Stored(AtomicSet(s.store, rec), u)
                     == if u == rec.session && StoredEpoch(s.store, rec.session) < rec.epoch
                        then Some(rec) else Stored(s.store, u)
    {
      PutStores(s.store, rec, u);
    }
  }

  /** Termination: whatever the schedule, a call swaps at most `rec.epoch + 1` times. */
  lemma AttemptsBounded(events: seq<Event>, c: nat)
    requires c in Run(Initial, events).calls
    ensures var call := Run(Initial, events).calls[c]; call.attempts <= call.rec.epoch + 1
  {
    RunKeepsInv(events);
    var s := Run(Initial, events);
    assert CallOk(s, s.calls[c]);
  }

  // ------------------------------------------------------- the loop as written

  /** What other writers may do to the store between two accesses: a session's
      entry is untouched, or replaced under a fresh revision by a newer record. */
  ghost predicate Advances(a: KV<Key, Value>, b: KV<Key, Value>) {
    a.nextRev <= b.nextRev && forall t :: AdvancesAt(a, b, t)
  }

  ghost predicate AdvancesAt(a: KV<Key, Value>, b: KV<Key, Value>, session: Name) {
    var key := SessionKey(session);
    || (b.RevisionOf(key) == a.RevisionOf(key) && Stored(b, session) == Stored(a, session))
    || (b.RevisionOf(key) > a.nextRev && StoredEpoch(b, session) > StoredEpoch(a, session))
  }

  lemma AdvancesTransitive(a: KV<Key, Value>, b: KV<Key, Value>, c: KV<Key, Value>)
    requires a.WellFormed() && Advances(a, b) && Advances(b, c)
    ensures Advances(a, c)
  {
    forall t ensures AdvancesAt(a, c, t) {
      assert AdvancesAt(a, b, t) && AdvancesAt(b, c, t);
    }
  }

  lemma CommitAdvances(store: KV<Key, Value>, rec: Record)
    requires StoredEpoch(store, rec.session) < rec.epoch
    ensures Advances(store, store.Put(SessionKey(rec.session), Owned(rec)))
  {
    var next := store.Put(SessionKey(rec.session), Owned(rec));
    forall t ensures AdvancesAt(store, next, t) {
      PutStores(store, rec, t);
    }
  }

  datatype Outcome = Applied | Superseded | Invalid | StoreError

  /** What an answer means, from ledger `was` to `now`: the record was written and is stored, or
      the store is at its epoch or beyond. */
  ghost predicate Ends(rec: Record, ended: Option<Outcome>, was: Ledger, now: Ledger, store: KV<Key, Value>) {
    match ended
    case Some(Applied) =>
      |was.log| <= |now.log| && rec in now.log[|was.log|..] && Stored(store, rec.session) == Some(rec)
    case Some(Superseded) => StoredEpoch(store, rec.session) >= rec.epoch
    case Some(Invalid) => false
    case _ => true
  }

  /** What was added since b was added since a. */
  lemma Later(rec: Record, a: seq<Record>, b: seq<Record>, c: seq<Record>)
    requires a <= b <= c
    ensures rec in c[|b|..] ==> rec in c[|a|..]
  {
    if rec in c[|b|..] {
      var i :| |b| <= i < |c| && c[i] == rec;
      assert c[|a|..][i - |a|] == rec;
    }
  }

  class OwnershipService {
    const store: MemStore<Key, Value>
    ghost var ledger: Ledger
    ghost var failures: nat  // store accesses that failed so far

    ghost predicate Valid()
      reads this, store
    {
      && store.Contents().WellFormed()
      && ledger.Valid()
      && HoldsNewest(store.Contents(), ledger)
    }

    constructor (store: MemStore<Key, Value>)
      requires store.Contents() == KV(map[], 0)
      ensures Valid() && this.store == store && ledger == EMPTY
    {
      this.store := store;
      ledger, failures := EMPTY, 0;
    }

    /** Whether a store access fails. */
    method Access() returns (failed: bool)
      modifies this`failures
      ensures failures == if failed then old(failures) + 1 else old(failures)
    {
      failed := *;
      if failed {
        failures := failures + 1;
      }
    }

    /** Any number of commits by other callers. */
    method Others()
      requires Valid()
      modifies this, store
      ensures Valid() && Advances(old(store.Contents()), store.Contents()) && old(ledger.log) <= ledger.log
      ensures failures == old(failures)
    {
      var n: nat := *;
      while n > 0
        invariant Valid() && Advances(old(store.Contents()), store.Contents()) && old(ledger.log) <= ledger.log
        invariant failures == old(failures)
      {
        var rec: Record :| true;
        var current := store.Get(SessionKey(rec.session));
        if current.None? || (current.value.Owned? && rec.Newer(current.value.rec)) {
          assert StoredEpoch(store.Contents(), rec.session) < rec.epoch;
          CommitMirrors(store.Contents(), ledger, rec);
          CommitAdvances(store.Contents(), rec);
          AdvancesTransitive(old(store.Contents()), store.Contents(),
                             store.Contents().Put(SessionKey(rec.session), Owned(rec)));
          store.Put(SessionKey(rec.session), Owned(rec));
          ledger := ledger.Commit(rec);
        }
        n := n - 1;
      }
    }

    /** Reads a session's record: None when the access failed. */
    method Get(session: Name) returns (current: Option<Option<Record>>)
      requires Valid()
      modifies this, store
      ensures Valid() && Advances(old(store.Contents()), store.Contents()) && old(ledger.log) <= ledger.log
      ensures current.Some? ==> current.value == Stored(store.Contents(), session)
      ensures failures == old(failures) + if current.None? then 1 else 0
    {
      Others();
      var failed := Access();
      if failed {
        return None;
      }
      var value := store.Get(SessionKey(session));
      current := Some(match value
                      case Some(Owned(rec)) => Some(rec)
                      case _ => None);
    }

    /** The retry loop. Other callers act before every store access. */
    method SetIfNewer(rec: Record) returns (outcome: Outcome, attempts: nat)
      requires Valid()
      modifies this, store
      ensures Valid() && Advances(old(store.Contents()), store.Contents()) && old(ledger.log) <= ledger.log
      ensures outcome == Invalid <==> !rec.Valid()
      ensures outcome == Invalid ==> attempts == 0 && store.Contents() == old(store.Contents()) && ledger == old(ledger)
      ensures outcome == Applied ==>
                attempts > 0 && rec in ledger.log[|old(ledger.log)|..]
                  && Stored(store.Contents(), rec.session) == Some(rec)
      ensures outcome == Superseded ==> StoredEpoch(store.Contents(), rec.session) >= rec.epoch
      ensures failures == old(failures) + if outcome == StoreError then 1 else 0
      ensures attempts <= rec.epoch + 1
    {
      attempts := 0;
      if !rec.Valid() {
        return Invalid, 0;
      }
      ghost var first := store.Contents();
      var ended := None;
      while ended.None?
        invariant Valid() && Advances(first, store.Contents()) && old(ledger.log) <= ledger.log
        invariant Ends(rec, ended, old(ledger), ledger, store.Contents())
        invariant ended.None? ==> StoredEpoch(store.Contents(), rec.session) >= attempts - 1
        invariant attempts <= rec.epoch + 1 && (ended == Some(Applied) ==> attempts > 0)
        invariant failures == old(failures) + if ended == Some(StoreError) then 1 else 0
        decreases rec.epoch + 1 - attempts, ended.None?
      {
        var swapped;
        ghost var before := ledger;
        ended, swapped := Attempt(rec, first);
        if swapped {
          attempts := attempts + 1;
        }
        Later(rec, old(ledger).log, before.log, ledger.log);
      }
      return ended.value, attempts;
    }

    /** One turn of the loop: an answer, or none when the swap came too late; and whether it
        got as far as swapping. */
    method Attempt(rec: Record, ghost first: KV<Key, Value>) returns (ended: Option<Outcome>, swapped: bool)
      requires Valid() && first.WellFormed() && Advances(first, store.Contents())
      modifies this, store
      ensures Valid() && Advances(first, store.Contents()) && old(ledger.log) <= ledger.log
      ensures Ends(rec, ended, old(ledger), ledger, store.Contents())
      ensures swapped ==> old(StoredEpoch(store.Contents(), rec.session)) < rec.epoch
      ensures ended.None? ==>
                swapped && StoredEpoch(store.Contents(), rec.session) > old(StoredEpoch(store.Contents(), rec.session))
      ensures ended == Some(Applied) ==> swapped
      ensures failures == old(failures) + if ended == Some(StoreError) then 1 else 0
    {
      ghost var start, seen := store.Contents(), store.Contents();
      var revision, current;
      revision, current, seen := Look(rec.session, first);
      assert AdvancesAt(start, seen, rec.session) && AdvancesAt(seen, store.Contents(), rec.session);
      if current == None {
        return Some(StoreError), false;
      }
      if current.value.Some? && !rec.Newer(current.value.value) {
        return Some(Superseded), false;
      }
      ghost var before := ledger;
      var ok := TrySwap(rec, revision, first, seen);
      if ok == None {
        return Some(StoreError), false;
      }
      if !ok.value {
        return None, true;
      }
      Later(rec, old(ledger).log, before.log, ledger.log);
      var unsaved := Access();
      return Some(if unsaved then StoreError else Applied), true;
    }

    /** The loop's swap, expecting the revision found in `seen`: None when the
        access failed, else whether the swap happened. */
    method TrySwap(rec: Record, revision: nat, ghost first: KV<Key, Value>, ghost seen: KV<Key, Value>)
      returns (swapped: Option<bool>)
      requires Valid() && first.WellFormed() && seen.WellFormed()
      requires Advances(first, store.Contents()) && Advances(seen, store.Contents())
      requires revision == seen.RevisionOf(SessionKey(rec.session)) && StoredEpoch(seen, rec.session) < rec.epoch
      modifies this, store
      ensures Valid() && Advances(first, store.Contents()) && Advances(seen, store.Contents())
              && old(ledger.log) <= ledger.log
      ensures swapped == Some(true) ==>
                rec in ledger.log[|old(ledger.log)|..] && Stored(store.Contents(), rec.session) == Some(rec)
      ensures swapped == Some(false) ==> StoredEpoch(store.Contents(), rec.session) > StoredEpoch(seen, rec.session)
      ensures failures == old(failures) + if swapped.None? then 1 else 0
    {
      ghost var mid := store.Contents();
      Others();
      AdvancesTransitive(first, mid, store.Contents());
      AdvancesTransitive(seen, mid, store.Contents());
      assert AdvancesAt(seen, store.Contents(), rec.session);
      var failed := Access();
      if failed {
        return None;
      }
      if store.Contents().RevisionOf(SessionKey(rec.session)) == revision {
        var next := store.Contents().Put(SessionKey(rec.session), Owned(rec));
        CommitMirrors(store.Contents(), ledger, rec);
        CommitAdvances(store.Contents(), rec);
        AdvancesTransitive(first, store.Contents(), next);
        AdvancesTransitive(seen, store.Contents(), next);
      }
      var _, ok := store.CompareAndSwap(SessionKey(rec.session), revision, Owned(rec));
      if ok {
        ledger := ledger.Commit(rec);
        assert ledger.log[|ledger.log| - 1] == rec;
      }
      return Some(ok);
    }

    /** The loop's two reads. `current` is None when a store access failed, else
        the record found, if any. `seen` is the store as Revision saw it. */
    method Look(session: Name, ghost first: KV<Key, Value>)
      returns (revision: nat, current: Option<Option<Record>>, ghost seen: KV<Key, Value>)
      requires Valid() && first.WellFormed() && Advances(first, store.Contents())
      modifies this, store
      ensures Valid() && old(ledger.log) <= ledger.log && seen.WellFormed()
      ensures Advances(first, store.Contents()) && Advances(old(store.Contents()), seen)
              && Advances(seen, store.Contents())
      ensures revision == seen.RevisionOf(SessionKey(session))
      ensures current.Some? ==> current.value == if revision == 0 then None else Stored(store.Contents(), session)
      ensures current.Some? && revision != 0 ==> current.value.Some?
      ensures revision == 0 ==> Stored(seen, session).None?
      ensures failures == old(failures) + if current.None? then 1 else 0
    {
      ghost var start := store.Contents();
      Others();
      AdvancesTransitive(first, start, store.Contents());
      seen := store.Contents();
      ghost var seenLedger := ledger;
      var failed := Access();
      var found;
      revision, found := store.Revision(SessionKey(session));
      if failed {
        return revision, None, seen;
      }
      if !found {
        return revision, Some(None), seen;
      }
      Others();
      AdvancesTransitive(first, seen, store.Contents());
      failed := Access();
      assert Mirrors(seen, seenLedger, session) && AdvancesAt(seen, store.Contents(), session);
      var value := store.Get(SessionKey(session));
      if failed || value.None? || !value.value.Owned? {
        return revision, None, seen;
      }
      current := Some(Some(value.value.rec));
    }
  }
}
