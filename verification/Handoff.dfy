/** Access handoff: a standby gateway is armed for the epoch a cutover would
    commit, and a cutover consumes the arm before it writes the store. */
module Handoff {
  import opened Words
  import opened Ownership
  import opened Store
  import opened Ledger
  import S = SetIfNewer

  datatype Phase = Idle | Preparing | Ready

  datatype AccessState = AccessState(sessionID: Name, virtualIP: Name, seqHighWater: nat) {
    predicate Valid() {
      sessionID != NONAME && virtualIP != NONAME
    }
  }

  datatype Arm = Arm(phase: Phase, target: Ownership.Epoch, state: AccessState)

  type Arms = map<Name, Arm>

  datatype ArmError = SessionMismatch | InvalidState | StaleEpoch | NoArmInProgress | EpochMismatch

  function PrepareError(arms: Arms, session: Name, current: Ownership.Epoch, state: AccessState): Option<ArmError> {
    if state.sessionID != session then Some(SessionMismatch)
    else if !state.Valid() then Some(InvalidState)
    else if session in arms && Successor(current) < arms[session].target then Some(StaleEpoch)
    else None
  }

  /** Preparing again for the epoch an arm is ready for refreshes its state and keeps it ready. */
  predicate KeepsReady(arms: Arms, session: Name, current: Ownership.Epoch) {
    session in arms && arms[session].target == Successor(current) && arms[session].phase == Ready
  }

  function Prepared(arms: Arms, session: Name, current: Ownership.Epoch, state: AccessState): Arms {
    if PrepareError(arms, session, current, state).Some? then arms
    else
      var phase := if KeepsReady(arms, session, current) then Ready else Preparing;
      arms[session := Arm(phase, Successor(current), state)]
  }

  function ReadyError(arms: Arms, session: Name, epoch: Ownership.Epoch): Option<ArmError> {
    if session !in arms || arms[session].phase == Idle then Some(NoArmInProgress)
    else if arms[session].target != epoch then Some(EpochMismatch)
    else None
  }

  function MarkedReady(arms: Arms, session: Name, epoch: Ownership.Epoch): Arms {
    if ReadyError(arms, session, epoch).Some? then arms else arms[session := arms[session].(phase := Ready)]
  }

  predicate Consumable(arms: Arms, session: Name, epoch: Ownership.Epoch) {
    session in arms && arms[session].phase == Ready && arms[session].target == epoch
  }

  class StandbyArmer {
    var arms: Arms

    constructor ()
      ensures arms == map[]
    {
      arms := map[];
    }

    method Prepare(session: Name, current: Ownership.Epoch, state: AccessState) returns (err: Option<ArmError>)
      modifies this
      ensures err == PrepareError(old(arms), session, current, state)
      ensures arms == Prepared(old(arms), session, current, state)
    {
      if state.sessionID != session {
        return Some(SessionMismatch);
      }
      if !state.Valid() {
        return Some(InvalidState);
      }
      var target := Successor(current);
      var found := session in arms;
      if found && target < arms[session].target {
        return Some(StaleEpoch);
      }
      var phase := Preparing;
      if found && target == arms[session].target && arms[session].phase == Ready {
        phase := Ready;
      }
      arms := arms[session := Arm(phase, target, state)];
      return None;
    }

    method MarkReady(session: Name, epoch: Ownership.Epoch) returns (err: Option<ArmError>)
      modifies this
      ensures err == ReadyError(old(arms), session, epoch)
      ensures arms == MarkedReady(old(arms), session, epoch)
    {
      if session !in arms || arms[session].phase == Idle {
        return Some(NoArmInProgress);
      }
      if arms[session].target != epoch {
        return Some(EpochMismatch);
      }
      arms := arms[session := arms[session].(phase := Ready)];
      return None;
    }

    method ConsumeReady(session: Name, epoch: Ownership.Epoch) returns (state: Option<AccessState>)
      modifies this
      ensures state.Some? <==> Consumable(old(arms), session, epoch)
      ensures state.Some? ==> state.value == old(arms)[session].state && arms == old(arms) - {session}
      ensures state.None? ==> arms == old(arms)
    {
      if session !in arms || arms[session].phase != Ready || arms[session].target != epoch {
        return None;
      }
      state := Some(arms[session].state);
      arms := arms - {session};
    }

    method Reset(session: Name)
      modifies this
      ensures arms == old(arms) - {session}
    {
      arms := arms - {session};
    }
  }

  // ------------------------------------------------------- cutovers as steps

  /** How a write ends. A commit may be reported as an error. */
  datatype Ending = Committed(reported: bool) | Lost | Errored

  /** A cutover of `session`: it read `current` from the store, then consumes an
      arm, then writes. `serial` names the arm it consumed. */
  datatype Call =
    | Started(session: Name, current: Record)
    | NotReady
    | Consumed(session: Name, current: Record, newAccess: Name, state: AccessState, serial: nat)
    | Ended(session: Name, current: Record, newAccess: Name, state: AccessState, serial: nat, ending: Ending)

  /** Who has an arm: the armer, for a session, or the cutover that consumed it. */
  datatype Owner = Standing(session: Name) | Held(call: nat)

  /** History variables: arms are numbered as they are made, `owners` says who has
      each, `serials` which one stands for a session, and `readied` for which session
      and epoch an arm was marked ready. */
  datatype System = System(ledger: Ledger, arms: Arms, serials: map<Name, nat>, owners: seq<Owner>,
                           readied: map<nat, (Name, Ownership.Epoch)>, calls: map<nat, Call>)

  datatype Event =
    | Prepare(session: Name, epoch: Ownership.Epoch, state: AccessState)
    | MarkReady(session: Name, epoch: Ownership.Epoch)
    | Reset(session: Name)
    | Read(call: nat, session: Name)
    | Consume(call: nat, newAccess: Name)
    | Write(call: nat)
    | WriteFails(call: nat, landed: bool)
    | Other(rec: Record)

  const Initial := System(EMPTY, map[], map[], [], map[], map[])

  function Candidate(c: Call): Record
    requires HoldsArm(c)
  {
    c.current.NextAccessEpoch(c.newAccess)
  }

  function AfterPrepare(s: System, session: Name, epoch: Ownership.Epoch, state: AccessState): System {
    if PrepareError(s.arms, session, epoch, state).Some? then s
    else if KeepsReady(s.arms, session, epoch) then s.(arms := Prepared(s.arms, session, epoch, state))
    else s.(arms := Prepared(s.arms, session, epoch, state),
            serials := s.serials[session := |s.owners|], owners := s.owners + [Standing(session)])
  }

  function AfterReady(s: System, session: Name, epoch: Ownership.Epoch): System {
    if ReadyError(s.arms, session, epoch).Some? || session !in s.serials then s
    else s.(arms := MarkedReady(s.arms, session, epoch), readied := s.readied[s.serials[session] := (session, epoch)])
  }

  function AfterConsume(s: System, i: nat, newAccess: Name): System {
    if i !in s.calls || !s.calls[i].Started? then s else
    var Started(session, current) := s.calls[i];
    if Consumable(s.arms, session, Successor(current.epoch)) && session in s.serials
      && s.serials[session] < |s.owners| then
      s.(arms := s.arms - {session}, serials := s.serials - {session},
         owners := s.owners[s.serials[session] := Held(i)],
         calls := s.calls[i := Consumed(session, current, newAccess, s.arms[session].state, s.serials[session])])
    else s.(calls := s.calls[i := NotReady])
  }

  /** The system after call `i` moved to `c`, leaving the arms alone. */
  function Moved(s: System, ledger: Ledger, i: nat, c: Call): System {
    System(ledger, s.arms, s.serials, s.owners, s.readied, s.calls[i := c])
  }

  function EndedWith(c: Call, ending: Ending): Call
    requires c.Consumed?
  {
    Ended(c.session, c.current, c.newAccess, c.state, c.serial, ending)
  }

  /** A write that works. */
  function AfterWrite(s: System, i: nat, c: Call): System
    requires c.Consumed?
  {
    if !Candidate(c).Valid() then Moved(s, s.ledger, i, EndedWith(c, Errored))
    else if s.ledger.Accepts(Candidate(c))
    then Moved(s, s.ledger.Commit(Candidate(c)), i, EndedWith(c, Committed(true)))
    else Moved(s, s.ledger, i, EndedWith(c, Lost))
  }

  /** A write that reports an error, after it took effect or before. */
  function AfterFailure(s: System, i: nat, c: Call, landed: bool): System
    requires c.Consumed?
  {
    if landed && Candidate(c).Valid() && s.ledger.Accepts(Candidate(c))
    then Moved(s, s.ledger.Commit(Candidate(c)), i, EndedWith(c, Committed(false)))
    else Moved(s, s.ledger, i, EndedWith(c, Errored))
  }

  function Step(s: System, e: Event): System {
    match e
    case Prepare(session, epoch, state) => AfterPrepare(s, session, epoch, state)
    case MarkReady(session, epoch) => AfterReady(s, session, epoch)
    case Reset(session) => s.(arms := s.arms - {session}, serials := s.serials - {session})
    case Read(i, session) =>
      if i !in s.calls && session in s.ledger.current
      then Moved(s, s.ledger, i, Started(session, s.ledger.current[session]))
      else s
    case Consume(i, newAccess) => AfterConsume(s, i, newAccess)
    case Write(i) => if i in s.calls && s.calls[i].Consumed? then AfterWrite(s, i, s.calls[i]) else s
    case WriteFails(i, landed) =>
      if i in s.calls && s.calls[i].Consumed? then AfterFailure(s, i, s.calls[i], landed) else s
    case Other(rec) => s.(ledger := s.ledger.SetIfNewer(rec))
  }

  function Run(s: System, events: seq<Event>): System {
    if events == [] then s else Step(Run(s, events[..|events| - 1]), events[|events| - 1])
  }

  /** A standing arm is the armer's, and is ready only if it was marked so. */
  ghost predicate ArmOk(s: System, t: Name)
    requires t in s.arms && t in s.serials
  {
    var n := s.serials[t];
    && n < |s.owners| && s.owners[n] == Standing(t)
    && s.arms[t].phase != Idle
    && (s.arms[t].phase == Ready ==> n in s.readied && s.readied[n] == (t, s.arms[t].target))
  }

  ghost predicate ArmsOk(s: System) {
    && (forall t :: t in s.arms <==> t in s.serials)
    && (forall t :: t in s.arms ==> ArmOk(s, t))
    && (forall n :: n in s.readied ==> n < |s.owners|)
  }

  /** A call past consuming has an arm that was marked ready for its epoch. */
  ghost predicate Spent(s: System, i: nat, c: Call)
    requires HoldsArm(c)
  {
    && c.serial < |s.owners| && s.owners[c.serial] == Held(i)
    && c.serial in s.readied && s.readied[c.serial] == (c.session, Successor(c.current.epoch))
  }

  ghost predicate CallOk(s: System, i: nat)
    requires i in s.calls
  {
    match s.calls[i]
    case Started(session, current) => current in s.ledger.log && current.session == session
    case Consumed(session, current, _, _, _) =>
      current in s.ledger.log && current.session == session && Spent(s, i, s.calls[i])
    case Ended(session, current, _, _, _, ending) =>
      && current.session == session && Spent(s, i, s.calls[i])
      && (ending.Committed? ==> Candidate(s.calls[i]) in s.ledger.log)
    case NotReady => true
  }

  predicate HoldsArm(c: Call) {
    c.Consumed? || c.Ended?
  }

  predicate Commits(c: Call) {
    c.Ended? && c.ending.Committed?
  }

  ghost predicate CallsOk(s: System) {
    forall i :: i in s.calls ==> CallOk(s, i)
  }

  ghost predicate Inv(s: System) {
    s.ledger.Valid() && ArmsOk(s) && CallsOk(s)
  }

  /** Consumed arms stay consumed, and as they were marked. */
  ghost predicate KeepsSpent(s: System, t: System) {
    && |s.owners| <= |t.owners|
    && (forall n :: 0 <= n < |s.owners| && s.owners[n].Held? ==> t.owners[n] == s.owners[n])
    && (forall n :: n in s.readied && n < |s.owners| && s.owners[n].Held? ==>
          n in t.readied && t.readied[n] == s.readied[n])
  }

  lemma CallStable(s: System, t: System, i: nat)
    requires i in s.calls && i in t.calls && t.calls[i] == s.calls[i]
    requires CallOk(s, i) && s.ledger.log <= t.ledger.log && KeepsSpent(s, t)
    ensures CallOk(t, i)
  {
  }

  /** All calls but `i` are as they were. */
  lemma CallsStable(s: System, t: System, i: nat)
    requires CallsOk(s) && s.ledger.log <= t.ledger.log && KeepsSpent(s, t)
    requires forall j :: j in t.calls && j != i ==> j in s.calls && t.calls[j] == s.calls[j]
    requires i in t.calls ==> CallOk(t, i)
    ensures CallsOk(t)
  {
    forall j | j in t.calls ensures CallOk(t, j) {
      if j != i {
        CallStable(s, t, j);
      }
    }
  }

  /** The same calls, over other arms. */
  lemma SameCalls(s: System, t: System)
    requires CallsOk(s) && s.ledger.log <= t.ledger.log && KeepsSpent(s, t) && t.calls == s.calls
    ensures CallsOk(t)
  {
    forall j | j in t.calls ensures CallOk(t, j) {
      CallStable(s, t, j);
    }
  }

  lemma SameArms(s: System, t: System)
    requires ArmsOk(s) && t.arms == s.arms && t.serials == s.serials && t.owners == s.owners && t.readied == s.readied
    ensures ArmsOk(t) && KeepsSpent(s, t)
  {
    forall u | u in t.arms ensures ArmOk(t, u) {
      assert ArmOk(s, u);
    }
  }

  lemma PrepareKeepsArms(s: System, session: Name, epoch: Ownership.Epoch, state: AccessState)
    requires ArmsOk(s)
    ensures var t := AfterPrepare(s, session, epoch, state); ArmsOk(t) && KeepsSpent(s, t)
  {
    if PrepareError(s.arms, session, epoch, state).None? {
      if KeepsReady(s.arms, session, epoch) {
        RefreshKeepsArms(s, session, epoch, state);
      } else {
        NewArmKeepsArms(s, session, epoch, state);
      }
    }
  }

  /** Preparing again for the ready epoch only refreshes the arm's state. */
  lemma RefreshKeepsArms(s: System, session: Name, epoch: Ownership.Epoch, state: AccessState)
    requires ArmsOk(s) && PrepareError(s.arms, session, epoch, state).None? && KeepsReady(s.arms, session, epoch)
    ensures var t := s.(arms := Prepared(s.arms, session, epoch, state)); ArmsOk(t) && KeepsSpent(s, t)
  {
    var t := s.(arms := Prepared(s.arms, session, epoch, state));
    forall u | u in t.arms ensures ArmOk(t, u) {
      assert ArmOk(s, u);
    }
  }

  /** Otherwise the session gets a new arm, with a number of its own. */
  lemma NewArmKeepsArms(s: System, session: Name, epoch: Ownership.Epoch, state: AccessState)
    requires ArmsOk(s) && PrepareError(s.arms, session, epoch, state).None? && !KeepsReady(s.arms, session, epoch)
    ensures var t := s.(arms := Prepared(s.arms, session, epoch, state), serials := s.serials[session := |s.owners|],
                        owners := s.owners + [Standing(session)]);
            ArmsOk(t) && KeepsSpent(s, t)
  {
    var t := s.(arms := Prepared(s.arms, session, epoch, state), serials := s.serials[session := |s.owners|],
                owners := s.owners + [Standing(session)]);
    forall u | u in t.arms ensures ArmOk(t, u) {
      assert u in s.arms ==> ArmOk(s, u);
    }
  }

  lemma ReadyKeepsArms(s: System, session: Name, epoch: Ownership.Epoch)
    requires ArmsOk(s)
    ensures var t := AfterReady(s, session, epoch); ArmsOk(t) && KeepsSpent(s, t)
  {
    if ReadyError(s.arms, session, epoch).None? {
      assert ArmOk(s, session);
      MarkedKeepsArms(s, session, epoch);
    }
  }

  lemma MarkedKeepsArms(s: System, session: Name, epoch: Ownership.Epoch)
    requires ArmsOk(s) && ReadyError(s.arms, session, epoch).None? && ArmOk(s, session)
    ensures var t := s.(arms := s.arms[session := s.arms[session].(phase := Ready)],
                        readied := s.readied[s.serials[session] := (session, epoch)]);
            ArmsOk(t) && KeepsSpent(s, t)
  {
    var t := s.(arms := s.arms[session := s.arms[session].(phase := Ready)],
                readied := s.readied[s.serials[session] := (session, epoch)]);
    forall u | u in t.arms ensures ArmOk(t, u) {
      assert ArmOk(s, u);
    }
  }

  lemma ResetKeepsArms(s: System, session: Name)
    requires ArmsOk(s)
    ensures var t := Step(s, Reset(session)); ArmsOk(t) && KeepsSpent(s, t)
  {
    var t := Step(s, Reset(session));
    forall u | u in t.arms ensures ArmOk(t, u) {
      assert ArmOk(s, u);
    }
  }

  lemma ConsumeKeepsArms(s: System, i: nat, newAccess: Name)
    requires ArmsOk(s) && i in s.calls && s.calls[i].Started? && CallOk(s, i)
    ensures var t := AfterConsume(s, i, newAccess); ArmsOk(t) && KeepsSpent(s, t) && CallOk(t, i)
  {
    var t := AfterConsume(s, i, newAccess);
    assert s.calls[i].session in s.arms ==> ArmOk(s, s.calls[i].session);
    forall u | u in t.arms ensures ArmOk(t, u) {
      assert ArmOk(s, u);
    }
  }

  lemma MovedKeepsInv(s: System, ledger: Ledger, i: nat, c: Call)
    requires Inv(s) && ledger.Valid() && s.ledger.log <= ledger.log && CallOk(Moved(s, ledger, i, c), i)
    ensures Inv(Moved(s, ledger, i, c))
  {
    SameArms(s, Moved(s, ledger, i, c));
    CallsStable(s, Moved(s, ledger, i, c), i);
  }

  lemma PrepareKeepsInv(s: System, session: Name, epoch: Ownership.Epoch, state: AccessState)
    requires Inv(s)
    ensures Inv(AfterPrepare(s, session, epoch, state))
  {
    PrepareKeepsArms(s, session, epoch, state);
    SameCalls(s, AfterPrepare(s, session, epoch, state));
  }

  lemma ReadyKeepsInv(s: System, session: Name, epoch: Ownership.Epoch)
    requires Inv(s)
    ensures Inv(AfterReady(s, session, epoch))
  {
    ReadyKeepsArms(s, session, epoch);
    SameCalls(s, AfterReady(s, session, epoch));
  }

  lemma ResetKeepsInv(s: System, session: Name)
    requires Inv(s)
    ensures Inv(Step(s, Reset(session)))
  {
    ResetKeepsArms(s, session);
    SameCalls(s, Step(s, Reset(session)));
  }

  lemma ConsumeKeepsInv(s: System, i: nat, newAccess: Name)
    requires Inv(s) && i in s.calls && s.calls[i].Started?
    ensures Inv(AfterConsume(s, i, newAccess))
  {
    ConsumeKeepsArms(s, i, newAccess);
    CallsStable(s, AfterConsume(s, i, newAccess), i);
  }

  lemma EndKeepsInv(s: System, i: nat, ending: Ending)
    requires Inv(s) && i in s.calls && s.calls[i].Consumed? && !ending.Committed?
    ensures Inv(Moved(s, s.ledger, i, EndedWith(s.calls[i], ending)))
  {
    assert CallOk(s, i);
    MovedKeepsInv(s, s.ledger, i, EndedWith(s.calls[i], ending));
  }

  lemma CommitKeepsInv(s: System, i: nat, reported: bool)
    requires Inv(s) && i in s.calls && s.calls[i].Consumed? && s.ledger.Accepts(Candidate(s.calls[i]))
    ensures Inv(Moved(s, s.ledger.Commit(Candidate(s.calls[i])), i, EndedWith(s.calls[i], Committed(reported))))
  {
    var c := s.calls[i];
    assert CallOk(s, i);
    var next := s.ledger.Commit(Candidate(c));
    CommitValid(s.ledger, Candidate(c));
    assert next.log[|s.ledger.log|] == Candidate(c);
    MovedKeepsInv(s, next, i, EndedWith(c, Committed(reported)));
  }

  lemma WriteKeepsInv(s: System, i: nat)
    requires Inv(s) && i in s.calls && s.calls[i].Consumed?
    ensures Inv(AfterWrite(s, i, s.calls[i]))
  {
    var rec := Candidate(s.calls[i]);
    if rec.Valid() && s.ledger.Accepts(rec) {
      CommitKeepsInv(s, i, true);
    } else {
      EndKeepsInv(s, i, if rec.Valid() then Lost else Errored);
    }
  }

  lemma FailureKeepsInv(s: System, i: nat, landed: bool)
    requires Inv(s) && i in s.calls && s.calls[i].Consumed?
    ensures Inv(AfterFailure(s, i, s.calls[i], landed))
  {
    var rec := Candidate(s.calls[i]);
    if landed && rec.Valid() && s.ledger.Accepts(rec) {
      CommitKeepsInv(s, i, false);
    } else {
      EndKeepsInv(s, i, Errored);
    }
  }

  lemma OtherKeepsInv(s: System, rec: Record)
    requires Inv(s)
    ensures Inv(Step(s, Other(rec)))
  {
    var t := Step(s, Other(rec));
    WriteAdvances(s.ledger, rec);
    SameArms(s, t);
    SameCalls(s, t);
  }

  lemma StepKeepsInv(s: System, e: Event)
    requires Inv(s)
    ensures Inv(Step(s, e))
  {
    if e.Prepare? {
      PrepareKeepsInv(s, e.session, e.epoch, e.state);
    } else if e.MarkReady? {
      ReadyKeepsInv(s, e.session, e.epoch);
    } else if e.Reset? {
      ResetKeepsInv(s, e.session);
    } else if e.Other? {
      OtherKeepsInv(s, e.rec);
    } else if Step(s, e) != s {
      match e
      case Read(i, session) => MovedKeepsInv(s, s.ledger, i, Started(session, s.ledger.current[session]));
      case Consume(i, newAccess) => ConsumeKeepsInv(s, i, newAccess);
      case Write(i) => WriteKeepsInv(s, i);
      case WriteFails(i, landed) => FailureKeepsInv(s, i, landed);
    }
  }

  lemma {:induction false} RunKeepsInv(events: seq<Event>)
    ensures Inv(Run(Initial, events))
  {
    if events != [] {
      RunKeepsInv(events[..|events| - 1]);
      StepKeepsInv(Run(Initial, events[..|events| - 1]), events[|events| - 1]);
    }
  }

  // ---------------------------------------------------------------- theorems

  /** Whether event `e` is call i's write, and one that takes effect if it is accepted. */
  predicate Writes(e: Event, i: nat) {
    e == Write(i) || (e.WriteFails? && e.call == i)
  }

  predicate TakesEffect(e: Event) {
    e.Write? || (e.WriteFails? && e.landed)
  }

  /** From `s` to `t`, call i's write `e` commits exactly when it takes effect and the store holds
      the record the call read. It then changes the access only and raises the epoch by exactly
      one, and is reported as done unless `e` fails. Otherwise the store stays. */
  ghost predicate CommitsOnCurrent(s: System, t: System, i: nat, e: Event)
    requires i in s.calls && s.calls[i].Consumed?
  {
    var c := s.calls[i];
    && i in t.calls
    && (Commits(t.calls[i]) <==>
          && TakesEffect(e) && Candidate(c).Valid()
          && s.ledger.Get(c.session) == Some(c.current) && c.current.epoch + 1 < UINT64)
    && (Commits(t.calls[i]) ==>
          && (t.calls[i].ending.reported <==> e.Write?)
          && t.ledger.Get(c.session) == Some(Record(c.session, c.newAccess, c.current.egress, c.current.epoch + 1))
          && t.ledger.Epoch(c.session) == s.ledger.Epoch(c.session) + 1)
    && (!Commits(t.calls[i]) ==> t.ledger == s.ledger)
  }

  lemma WriteCommitsOnCurrent(s: System, i: nat, e: Event)
    requires s.ledger.Valid() && i in s.calls && s.calls[i].Consumed? && CallOk(s, i) && Writes(e, i)
    ensures CommitsOnCurrent(s, Step(s, e), i, e)
  {
    AcceptsSuccessor(s.ledger, s.calls[i].current, Candidate(s.calls[i]));
  }

  lemma RunNext(events: seq<Event>, e: Event)
    ensures Run(Initial, events + [e]) == Step(Run(Initial, events), e)
  {
    assert (events + [e])[..|events|] == events;
  }

  /** In every run, for a `current` read from the store, every write of a cutover does. */
  lemma CutoverCommitsOnCurrent(events: seq<Event>, i: nat, e: Event)
    requires i in Run(Initial, events).calls && Run(Initial, events).calls[i].Consumed? && Writes(e, i)
    ensures CommitsOnCurrent(Run(Initial, events), Run(Initial, events + [e]), i, e)
  {
    RunKeepsInv(events);
    assert CallOk(Run(Initial, events), i);
    RunNext(events, e);
    WriteCommitsOnCurrent(Run(Initial, events), i, e);
  }

  /** Every cutover that wrote, however that ended, consumed an arm that had been marked ready for
      the session and the epoch it writes, and no arm is consumed by two cutovers; what it
      committed, reported or not, is in the history. */
  lemma CutoverConsumedReadyArm(events: seq<Event>, i: nat, j: nat)
    requires var s := Run(Initial, events); i in s.calls && HoldsArm(s.calls[i]) && j in s.calls && HoldsArm(s.calls[j])
    ensures var s := Run(Initial, events);
            var c := s.calls[i];
            && c.serial in s.readied && s.readied[c.serial] == (c.session, Candidate(c).epoch)
            && (Commits(c) ==> Candidate(c) in s.ledger.log)
            && (s.calls[j].serial == c.serial ==> i == j)
  {
    RunKeepsInv(events);
    var s := Run(Initial, events);
    assert CallOk(s, i) && CallOk(s, j);
  }

  /** An arm is marked ready only after it was prepared for that epoch: in every run the
      event that first marks it meets a standing arm with that target. */
  lemma ReadyArmWasPrepared(events: seq<Event>, e: Event, n: nat)
    requires var s, t := Run(Initial, events), Step(Run(Initial, events), e); n in t.readied && n !in s.readied
    ensures var s, t := Run(Initial, events), Step(Run(Initial, events), e);
            var (session, epoch) := t.readied[n];
            && e == MarkReady(session, epoch)
            && session in s.arms && s.arms[session].target == epoch && s.arms[session].phase == Preparing
            && session in s.serials && s.serials[session] == n
  {
    RunKeepsInv(events);
    var s := Run(Initial, events);
    assert ArmOk(s, e.session);
  }

  /** The armer has this arm, and it is numbered. */
  ghost predicate Has(s: System, session: Name, arm: Arm) {
    && session in s.arms && s.arms[session] == arm && arm.phase != Idle
    && session in s.serials && s.serials[session] < |s.owners|
  }

  lemma PrepareArms(s: System, session: Name, epoch: Ownership.Epoch, state: AccessState)
    requires ArmsOk(s) && PrepareError(s.arms, session, epoch, state).None?
    ensures var t := AfterPrepare(s, session, epoch, state);
            && t.ledger == s.ledger && t.calls == s.calls
            && (Has(t, session, Arm(Preparing, Successor(epoch), state))
                || Has(t, session, Arm(Ready, Successor(epoch), state)))
  {
    assert session in s.arms ==> ArmOk(s, session);
  }

  lemma MarkArms(s: System, session: Name, arm: Arm)
    requires Has(s, session, arm)
    ensures var t := AfterReady(s, session, arm.target);
            t.ledger == s.ledger && t.calls == s.calls && Has(t, session, Arm(Ready, arm.target, arm.state))
  {
  }

  /** After `events`, the standby is made ready. */
  lemma Readied(events: seq<Event>, session: Name, epoch: Ownership.Epoch, state: AccessState)
    requires PrepareError(Run(Initial, events).arms, session, epoch, state).None?
    ensures var s := Run(Initial, events);
            var t := Run(Initial, events + [Prepare(session, epoch, state)] + [MarkReady(session, Successor(epoch))]);
            t.ledger == s.ledger && t.calls == s.calls && Has(t, session, Arm(Ready, Successor(epoch), state))
  {
    RunKeepsInv(events);
    PrepareArms(Run(Initial, events), session, epoch, state);
    var prepared := events + [Prepare(session, epoch, state)];
    RunNext(events, Prepare(session, epoch, state));
    RunNext(prepared, MarkReady(session, Successor(epoch)));
    MarkArms(Run(Initial, prepared), session, Run(Initial, prepared).arms[session]);
  }

  /** From `s` to `t`, call `i` moved the session to the access, with that state. */
  ghost predicate CutTo(s: System, t: System, i: nat, session: Name, state: AccessState, newAccess: Name) {
    && session in s.ledger.current
    && var rec := s.ledger.current[session];
    && rec.epoch + 1 < UINT64
    && t.ledger.Get(session) == Some(Record(session, newAccess, rec.egress, rec.epoch + 1))
    && i in t.calls && Commits(t.calls[i]) && t.calls[i].ending.reported && t.calls[i].state == state
    && session !in t.arms
  }

  lemma CutOver(s: System, i: nat, session: Name, state: AccessState, newAccess: Name)
    requires s.ledger.Valid() && i !in s.calls && session in s.ledger.current && newAccess != NONAME
    requires var rec := s.ledger.current[session]; rec.Valid() && rec.epoch + 1 < UINT64
    requires Has(s, session, Arm(Ready, Successor(s.ledger.current[session].epoch), state))
    ensures CutTo(s, Step(Step(Step(s, Read(i, session)), Consume(i, newAccess)), Write(i)), i, session, state,
                  newAccess)
  {
    var rec := s.ledger.current[session];
    var read := Step(s, Read(i, session));
    assert read.calls[i] == Started(session, rec);
    var consumed := Step(read, Consume(i, newAccess));
    assert consumed.calls[i] == Consumed(session, rec, newAccess, state, s.serials[session]);
    assert rec.session == session && consumed.ledger.Accepts(rec.NextAccessEpoch(newAccess));
  }

  /** A state of the session's own, with an address, and no arm for a later epoch stands. */
  predicate Preparable(arms: Arms, session: Name, epoch: Ownership.Epoch, state: AccessState) {
    Fitting(session, state) && (session in arms ==> arms[session].target <= Successor(epoch))
  }

  /** A state of the session's own, with an address. */
  predicate Fitting(session: Name, state: AccessState) {
    state.sessionID == session && session != NONAME && state.virtualIP != NONAME
  }

  /** Whatever happens, an arm that stays keeps its target or gets a later one, and its state is the
      one it had or a fitting one. */
  lemma ArmNext(s: System, e: Event, session: Name)
    requires session in Step(s, e).arms
    ensures var arm := Step(s, e).arms[session];
            if session in s.arms
            then arm.target >= s.arms[session].target
                 && (arm.state == s.arms[session].state || Fitting(session, arm.state))
            else Fitting(session, arm.state)
  {
    if e.Prepare? {
      assert Step(s, e).arms == Prepared(s.arms, e.session, e.epoch, e.state);
    } else {
      RestKeepsArm(s, e, session);
    }
  }

  /** Only Prepare changes more than an arm's phase. */
  lemma RestKeepsArm(s: System, e: Event, session: Name)
    requires !e.Prepare? && session in Step(s, e).arms
    ensures session in s.arms && Step(s, e).arms[session] == s.arms[session].(phase := Step(s, e).arms[session].phase)
  {
  }

  /** In every run a standing arm has a fitting state, and what happens next does not lower its
      target while it stands. */
  lemma {:induction false} ArmsStand(events: seq<Event>, e: Event, session: Name)
    requires session in Run(Initial, events).arms
    ensures Fitting(session, Run(Initial, events).arms[session].state)
    ensures var t := Step(Run(Initial, events), e);
            session in t.arms ==> t.arms[session].target >= Run(Initial, events).arms[session].target
  {
    if events != [] {
      var init := events[..|events| - 1];
      ArmNext(Run(Initial, init), events[|events| - 1], session);
      if session in Run(Initial, init).arms {
        ArmsStand(init, e, session);
      }
    }
    if session in Step(Run(Initial, events), e).arms {
      ArmNext(Run(Initial, events), e, session);
    }
  }

  /** In every run a cutover consumes exactly if an arm ready for its epoch stands, and is told so
      otherwise; it then has that arm's state, and the arm is gone. */
  lemma ConsumesExactly(events: seq<Event>, i: nat, newAccess: Name)
    requires i in Run(Initial, events).calls && Run(Initial, events).calls[i].Started?
    ensures var s, t := Run(Initial, events), Run(Initial, events + [Consume(i, newAccess)]);
            var session, current := s.calls[i].session, s.calls[i].current;
            && i in t.calls && t.ledger == s.ledger
            && if && session in s.arms && s.arms[session].phase == Ready
                  && s.arms[session].target == Successor(current.epoch)
               then && t.arms == s.arms - {session} && t.calls[i].Consumed?
                    && t.calls[i].current == current && t.calls[i].newAccess == newAccess
                    && t.calls[i].state == s.arms[session].state
               else t.arms == s.arms && t.calls[i] == NotReady
  {
    RunKeepsInv(events);
    RunNext(events, Consume(i, newAccess));
    var s := Run(Initial, events);
    assert s.calls[i].session in s.arms ==> ArmOk(s, s.calls[i].session);
  }

  /** A write that another writer overtook is lost, and leaves what that one stored. */
  lemma OvertakenLoses(events: seq<Event>, i: nat, rec: Record)
    requires var s := Run(Initial, events);
             && i in s.calls && s.calls[i].Consumed? && Candidate(s.calls[i]).Valid()
             && rec.session == s.calls[i].current.session && s.ledger.Epoch(rec.session) < rec.epoch
             && Candidate(s.calls[i]).epoch <= rec.epoch
    ensures var t := Run(Initial, events + [Other(rec)] + [Write(i)]);
            t.ledger == Run(Initial, events).ledger.Commit(rec) && i in t.calls && t.calls[i].Ended?
              && t.calls[i].ending == Lost
  {
    RunNext(events, Other(rec));
    RunNext(events + [Other(rec)], Write(i));
  }

  /** A cutover of the session's stored record can move it, given an arm. */
  ghost predicate CanCut(s: System, i: nat, session: Name, newAccess: Name) {
    && i !in s.calls && session in s.ledger.current && newAccess != NONAME
    && s.ledger.current[session].Valid() && s.ledger.current[session].epoch + 1 < UINT64
  }

  /** After `events`, a cutover reads, consumes and writes. */
  lemma CutsOver(events: seq<Event>, i: nat, session: Name, state: AccessState, newAccess: Name)
    requires CanCut(Run(Initial, events), i, session, newAccess)
    requires var s := Run(Initial, events);
             Has(s, session, Arm(Ready, Successor(s.ledger.current[session].epoch), state))
    ensures var after := events + [Read(i, session)] + [Consume(i, newAccess)] + [Write(i)];
            CutTo(Run(Initial, events), Run(Initial, after), i, session, state, newAccess)
  {
    RunKeepsInv(events);
    RunNext(events, Read(i, session));
    RunNext(events + [Read(i, session)], Consume(i, newAccess));
    RunNext(events + [Read(i, session)] + [Consume(i, newAccess)], Write(i));
    CutOver(Run(Initial, events), i, session, state, newAccess);
  }

  lemma SameCut(s: System, t: System, u: System, i: nat, session: Name, state: AccessState, newAccess: Name)
    requires s.ledger == t.ledger && CutTo(t, u, i, session, state, newAccess)
    ensures CutTo(s, u, i, session, state, newAccess)
  {
  }

  /** Progress: after any run, a standby prepared for what follows the stored record and then ready
      lets an undisturbed cutover move the session: the access is the new one, the egress stays, the
      epoch is the next, and the call has the state the standby was prepared with. */
  lemma UndisturbedCutsOver(events: seq<Event>, i: nat, session: Name, epoch: Ownership.Epoch, state: AccessState,
                            newAccess: Name)
    requires CanCut(Run(Initial, events), i, session, newAccess)
    requires epoch == Run(Initial, events).ledger.current[session].epoch
    requires Preparable(Run(Initial, events).arms, session, epoch, state)
    ensures var after := events + [Prepare(session, epoch, state)] + [MarkReady(session, Successor(epoch))]
                         + [Read(i, session)] + [Consume(i, newAccess)] + [Write(i)];
            CutTo(Run(Initial, events), Run(Initial, after), i, session, state, newAccess)
  {
    Readied(events, session, epoch, state);
    var ready := events + [Prepare(session, epoch, state)] + [MarkReady(session, Successor(epoch))];
    CutsOver(ready, i, session, state, newAccess);
    SameCut(Run(Initial, events), Run(Initial, ready),
            Run(Initial, ready + [Read(i, session)] + [Consume(i, newAccess)] + [Write(i)]), i, session, state,
            newAccess);
  }

  // ----------------------------------------------------- the call as written

  datatype CutoverResult = CutoverResult(session: Name, oldAccess: Name, newAccess: Name, egress: Name,
                                         epoch: Ownership.Epoch, state: AccessState)

  datatype CutoverOutcome = Done(result: CutoverResult) | ArmNotReady | Superseded | Failed

  class CutoverController {
    const armer: StandbyArmer
    const ownership: S.OwnershipService

    constructor (armer: StandbyArmer, ownership: S.OwnershipService)
      ensures this.armer == armer && this.ownership == ownership
    {
      this.armer := armer;
      this.ownership := ownership;
    }

    method Cutover(session: Name, newAccess: Name, current: Record) returns (outcome: CutoverOutcome)
      requires ownership.Valid()
      modifies armer, ownership, ownership.store
      ensures ownership.Valid() && old(ownership.ledger.log) <= ownership.ledger.log
      ensures outcome.ArmNotReady? <==> !Consumable(old(armer.arms), session, Successor(current.epoch))
      ensures outcome.ArmNotReady? ==> armer.arms == old(armer.arms) && ownership.ledger == old(ownership.ledger)
      ensures !outcome.ArmNotReady? ==> armer.arms == old(armer.arms) - {session}
      ensures outcome.Superseded? ==>
                S.StoredEpoch(ownership.store.Contents(), current.session) >= Successor(current.epoch)
      ensures !current.NextAccessEpoch(newAccess).Valid() ==>
                (outcome.ArmNotReady? || outcome.Failed?) && ownership.ledger == old(ownership.ledger)
      ensures outcome.Done? ==>
        && outcome.result ==
           CutoverResult(session, current.access, newAccess, current.egress, Successor(current.epoch),
                         old(armer.arms)[session].state)
        && Record(current.session, newAccess, current.egress, Successor(current.epoch))
           in ownership.ledger.log[|old(ownership.ledger.log)|..]
      ensures outcome.Failed? ==>
                ownership.failures > old(ownership.failures) || !current.NextAccessEpoch(newAccess).Valid()
      ensures outcome.Done? && current in old(ownership.ledger.log) ==>
        old(ownership.ledger).Get(current.session) == Some(current) && outcome.result.epoch == current.epoch + 1
    {
      var state := armer.ConsumeReady(session, Successor(current.epoch));
      if state.None? {
        return ArmNotReady;
      }
      var candidate := current.NextAccessEpoch(newAccess);
      ghost var before := ownership.ledger;
      var written, _ := ownership.SetIfNewer(candidate);
      if written == S.Superseded {
        return Superseded;
      }
      if written != S.Applied {
        return Failed;
      }
      AppendedIsNewer(before, ownership.ledger, candidate);
      if current in before.log {
        AcceptsSuccessor(before, current, candidate);
      }
      return Done(CutoverResult(session, current.access, newAccess, candidate.egress, candidate.epoch, state.value));
    }
  }
}
