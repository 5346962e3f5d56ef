/** The reorder receiver: delivers packets in sequence order, buffering those that
    arrive ahead of a gap. All counters are uint64. */
module Reorder {
  import opened Words

  datatype Packet = Packet(epoch: Uint64, seqno: Uint64, payload: nat)

  datatype DropReason = NotDropped | DropEpochStale | DropDuplicate | DropOutOfWindow | DropClosed

  type Buffer = map<Uint64, Packet>

  datatype State = State(window: Uint64, epoch: Uint64, delivered: Uint64, pending: Buffer, closed: bool)

  /** Buffered packets are ahead of what was delivered, and within the window. */
  ghost predicate Valid(r: State) {
    && (forall s :: s in r.pending ==>
          r.pending[s].seqno == s && r.delivered + 2 <= s <= r.delivered + Successor(r.window))
    && (r.closed ==> r.pending == map[])
  }

  function Verdict(r: State, p: Packet): DropReason {
    if r.closed then DropClosed
    else if p.epoch < r.epoch then DropEpochStale
    else if p.seqno <= r.delivered then DropDuplicate
    else if p.seqno in r.pending then DropDuplicate
    else if p.seqno - r.delivered > Successor(r.window) then DropOutOfWindow
    else NotDropped
  }

  /** The packets buffered right after `delivered`, without a gap. */
  function Ready(delivered: Uint64, pending: Buffer): (out: seq<Packet>)
    ensures delivered + |out| < UINT64
    decreases UINT64 - delivered
  {
    if delivered + 1 < UINT64 && delivered + 1 in pending
    then [pending[delivered + 1]] + Ready(delivered + 1, pending)
    else []
  }

  /** `out` is what is buffered from right after `delivered` on. */
  ghost predicate IsRun(delivered: Uint64, pending: Buffer, out: seq<Packet>) {
    && delivered + |out| < UINT64
    && forall s: Uint64 :: delivered < s <= delivered + |out| ==> s in pending && out[s - delivered - 1] == pending[s]
  }

  lemma {:induction false} ReadyRun(delivered: Uint64, pending: Buffer)
    ensures var out := Ready(delivered, pending);
            IsRun(delivered, pending, out) && (delivered + |out| + 1 < UINT64 ==> delivered + |out| + 1 !in pending)
    decreases UINT64 - delivered
  {
    if delivered + 1 < UINT64 && delivered + 1 in pending {
      ReadyRun(delivered + 1, pending);
    }
  }

  /** Only the run up to the first gap is ready. */
  lemma {:induction false} ReadyUnique(delivered: Uint64, pending: Buffer, out: seq<Packet>)
    requires IsRun(delivered, pending, out) && (delivered + |out| + 1 < UINT64 ==> delivered + |out| + 1 !in pending)
    ensures out == Ready(delivered, pending)
    decreases |out|
  {
    if out != [] {
      var d: Uint64 := delivered + 1;
      assert d in pending && out[0] == pending[d];
      ReadyUnique(d, pending, out[1..]);
    }
  }

  /** What is left buffered once everything up to `delivered` is out. */
  function After(pending: Buffer, delivered: Uint64): Buffer {
    map s | s in pending && s > delivered :: pending[s]
  }

  /** One turn of the delivery loop. */
  lemma DrainStep(start: Uint64, all: Buffer, out: seq<Packet>, delivered: Uint64)
    requires IsRun(start, all, out) && start + |out| == delivered && Successor(delivered) in After(all, delivered)
    ensures delivered + 1 < UINT64 && Successor(delivered) == delivered + 1
    ensures IsRun(start, all, out + [all[Successor(delivered)]])
    ensures After(all, delivered) - {Successor(delivered)} == After(all, Successor(delivered))
  {
  }

  function Received(r: State, p: Packet): (State, seq<Packet>) {
    if Verdict(r, p) != NotDropped then (r, []) else
    var pending := r.pending[p.seqno := p];
    var out := Ready(r.delivered, pending);
    (r.(delivered := r.delivered + |out|, pending := After(pending, r.delivered + |out|)), out)
  }

  function Advanced(r: State, epoch: Uint64): State {
    if epoch > r.epoch then r.(epoch := epoch) else r
  }

  function Closed(r: State): State {
    r.(closed := true, pending := map[])
  }

  /** Receiving keeps the buffer valid and takes the packets from it in order: the run of
      sequence numbers right after what was delivered. */
  lemma ReceivedOk(r: State, p: Packet)
    requires Valid(r)
    ensures var (t, out) := Received(r, p);
            && Valid(t)
            && t.delivered == r.delivered + |out|
            && (forall i :: 0 <= i < |out| ==> out[i].seqno == r.delivered + 1 + i)
            && (Verdict(r, p) == NotDropped ==>
                  && p.seqno > r.delivered && p.seqno !in r.pending
                  && IsRun(r.delivered, r.pending[p.seqno := p], out)
                  && t.pending == After(r.pending[p.seqno := p], t.delivered))
  {
    if Verdict(r, p) == NotDropped {
      var pending := r.pending[p.seqno := p];
      ReadyRun(r.delivered, pending);
      RunNumbers(r.delivered, pending, Ready(r.delivered, pending));
      AfterValid(r.window, r.delivered, pending, |Ready(r.delivered, pending)|);
    }
  }

  lemma RunNumbers(delivered: Uint64, pending: Buffer, out: seq<Packet>)
    requires IsRun(delivered, pending, out) && forall s :: s in pending ==> pending[s].seqno == s
    ensures forall i :: 0 <= i < |out| ==> out[i].seqno == delivered + 1 + i
  {
    forall i | 0 <= i < |out| ensures out[i].seqno == delivered + 1 + i {
      var s: Uint64 := delivered + 1 + i;
      assert s in pending && out[i] == pending[s];
    }
  }

  lemma AfterValid(window: Uint64, delivered: Uint64, pending: Buffer, n: nat)
    requires delivered + n < UINT64 && (delivered + n + 1 < UINT64 ==> delivered + n + 1 !in pending)
    requires forall s :: s in pending ==> pending[s].seqno == s && delivered < s <= delivered + Successor(window)
    ensures var left := After(pending, delivered + n);
            forall s :: s in left ==> left[s].seqno == s && delivered + n + 2 <= s <= delivered + n + Successor(window)
  {
  }

  // ------------------------------------------------------- the receiver as written

  class Receiver {
    const window: Uint64
    var currentEpoch: Uint64
    var delivered: Uint64
    var pending: Buffer
    var closed: bool

    ghost function Now(): State
      reads this
    {
      State(window, currentEpoch, delivered, pending, closed)
    }

    constructor (window: Uint64, epoch: Uint64, seed: Uint64)
      ensures Now() == State(window, epoch, seed, map[], false) && Valid(Now())
    {
      this.window, currentEpoch, delivered, pending, closed := window, epoch, seed, map[], false;
    }

    method AdvanceEpoch(epoch: Uint64)
      modifies this
      ensures Now() == Advanced(old(Now()), epoch)
    {
      if epoch > currentEpoch {
        currentEpoch := epoch;
      }
    }

    method Receive(p: Packet) returns (out: seq<Packet>, reason: DropReason)
      requires Valid(Now())
      modifies this
      ensures reason == Verdict(old(Now()), p)
      ensures (Now(), out) == Received(old(Now()), p) && Valid(Now())
    {
      ReceivedOk(Now(), p);
      if closed {
        return [], DropClosed;
      }
      if p.epoch < currentEpoch {
        return [], DropEpochStale;
      }
      if p.seqno <= delivered {
        return [], DropDuplicate;
      }
      if p.seqno in pending {
        return [], DropDuplicate;
      }
      if p.seqno - delivered > Successor(window) {
        return [], DropOutOfWindow;
      }
      pending := pending[p.seqno := p];
      out := Drain();
      return out, NotDropped;
    }

    /** The delivery loop. */
    method Drain() returns (out: seq<Packet>)
      requires forall s :: s in pending ==> s > delivered
      modifies this`pending, this`delivered
      ensures out == Ready(old(delivered), old(pending))
      ensures delivered == old(delivered) + |out| && pending == After(old(pending), delivered)
    {
      out := [];
      ghost var all, start := pending, delivered;
      while true
        invariant start + |out| == delivered && pending == After(all, delivered) && IsRun(start, all, out)
        decreases UINT64 - delivered
      {
        var next := Successor(delivered);
        if next !in pending {
          break;
        }
        DrainStep(start, all, out, delivered);
        out := out + [pending[next]];
        pending := pending - {next};
        delivered := next;
      }
      ReadyUnique(start, all, out);
    }

    /** Stops the receiver and hands back, in order, what was still buffered. */
    method Close() returns (rest: seq<Packet>)
      requires Valid(Now())
      modifies this
      ensures Now() == Closed(old(Now()))
      ensures |rest| == |old(pending)|
      ensures forall i :: 0 <= i < |rest| ==> rest[i].seqno in old(pending) && old(pending)[rest[i].seqno] == rest[i]
      ensures forall i, j :: 0 <= i < j < |rest| ==> rest[i].seqno < rest[j].seqno
    {
      if closed {
        return [];
      }
      closed := true;
      var seqs := SortedKeys(pending.Keys);
      rest, pending := TakeAll(pending, seqs);
    }
  }

  /** Takes the packets at `seqs` out of the buffer, in that order. */
  method TakeAll(pending: Buffer, seqs: seq<Uint64>) returns (rest: seq<Packet>, left: Buffer)
    requires |seqs| == |pending| && forall i :: 0 <= i < |seqs| ==> seqs[i] in pending
    requires forall i, j :: 0 <= i < j < |seqs| ==> seqs[i] != seqs[j]
    ensures left == map[] && |rest| == |seqs| && forall i :: 0 <= i < |rest| ==> rest[i] == pending[seqs[i]]
  {
    rest, left := [], pending;
    for k := 0 to |seqs|
      invariant |rest| == k && forall i :: 0 <= i < k ==> rest[i] == pending[seqs[i]]
      invariant |left| == |seqs| - k && forall i :: k <= i < |seqs| ==>
                  seqs[i] in left && left[seqs[i]] == pending[seqs[i]]
    {
      rest := rest + [left[seqs[k]]];
      ghost var before := left;
      left := left - {seqs[k]};
      assert before.Keys == left.Keys + {seqs[k]};
    }
  }

  method SortedKeys(keys: set<Uint64>) returns (seqs: seq<Uint64>)
    ensures |seqs| == |keys| && forall s :: s in seqs <==> s in keys
    ensures forall i, j :: 0 <= i < j < |seqs| ==> seqs[i] < seqs[j]
  {
    seqs := [];
    var left := keys;
    while left != {}
      invariant left <= keys && |seqs| + |left| == |keys|
      invariant forall s :: s in keys <==> s in seqs || s in left
      invariant forall i, s :: 0 <= i < |seqs| && s in left ==> seqs[i] < s
      invariant forall i, j :: 0 <= i < j < |seqs| ==> seqs[i] < seqs[j]
      decreases left
    {
      var first := Lowest(left);
      seqs := seqs + [first];
      left := left - {first};
    }
  }

  method Lowest(s: set<Uint64>) returns (m: Uint64)
    requires s != {}
    ensures m in s && forall x :: x in s ==> m <= x
  {
    m :| m in s;
    var left := s - {m};
    while left != {}
      invariant left <= s && m in s && forall x :: x in s ==> x in left || m <= x
      decreases left
    {
      var x :| x in left;
      if x < m {
        m := x;
      }
      left := left - {x};
    }
  }

  // ------------------------------------------------------------ runs of a receiver

  datatype Event = Receive(p: Packet) | AdvanceEpoch(epoch: Uint64) | Close

  /** A receiver with its history: every packet it accepted, by sequence number, what it
      delivered, in order, and what Close handed back. */
  datatype History = History(now: State, accepted: Buffer, out: seq<Packet>, returned: Buffer)

  function Start(window: Uint64, epoch: Uint64, seed: Uint64): History {
    History(State(window, epoch, seed, map[], false), map[], [], map[])
  }

  function Step(h: History, e: Event): History {
    match e
    case Receive(p) =>
      var (r, out) := Received(h.now, p);
      History(r, if Verdict(h.now, p) == NotDropped then h.accepted[p.seqno := p] else h.accepted,
              h.out + out, h.returned)
    case AdvanceEpoch(epoch) => h.(now := Advanced(h.now, epoch))
    case Close => if h.now.closed then h else h.(now := Closed(h.now), returned := h.now.pending)
  }

  function Run(h: History, events: seq<Event>): History {
    if events == [] then h else Step(Run(h, events[..|events| - 1]), events[|events| - 1])
  }

  ghost predicate Accounted(h: History, seed: Uint64, s: Uint64) {
    && (s in h.accepted <==> (seed < s <= h.now.delivered) || s in h.now.pending || s in h.returned)
    && (seed < s <= h.now.delivered && s in h.accepted ==>
          s - seed - 1 < |h.out| && h.out[s - seed - 1] == h.accepted[s])
    && (s in h.now.pending ==> s > h.now.delivered && s !in h.returned && h.now.pending[s] == h.accepted[s])
    && (s in h.returned ==> s > h.now.delivered && h.returned[s] == h.accepted[s])
  }

  ghost predicate Inv(h: History, seed: Uint64) {
    && Valid(h.now)
    && h.now.delivered == seed + |h.out|
    && (forall i :: 0 <= i < |h.out| ==> h.out[i].seqno == seed + 1 + i)
    && (forall s: Uint64 :: Accounted(h, seed, s))
    && (!h.now.closed ==> h.returned == map[])
  }

  /** The packets delivered and those still buffered are accounted for. */
  lemma ReceiveAccounts(h: History, seed: Uint64, p: Packet, s: Uint64)
    requires Inv(h, seed) && Verdict(h.now, p) == NotDropped
    ensures Accounted(Step(h, Receive(p)), seed, s)
  {
    ReceivedOk(h.now, p);
    assert Accounted(h, seed, s);
    var t := Step(h, Receive(p));
    if h.now.delivered < s <= t.now.delivered {
      DeliveredNow(h, p, s);
    }
  }

  lemma DeliveredNow(h: History, p: Packet, s: Uint64)
    requires Valid(h.now) && Verdict(h.now, p) == NotDropped && h.now.delivered < s <= Received(h.now, p).0.delivered
    ensures var out := Received(h.now, p).1;
            var i := s - h.now.delivered - 1;
            i < |out| && s in h.now.pending[p.seqno := p] && out[i] == h.now.pending[p.seqno := p][s]
  {
    ReceivedOk(h.now, p);
  }

  lemma ReceiveKeepsInv(h: History, seed: Uint64, p: Packet)
    requires Inv(h, seed)
    ensures Inv(Step(h, Receive(p)), seed)
  {
    var t := Step(h, Receive(p));
    ReceivedOk(h.now, p);
    forall s: Uint64 ensures Accounted(t, seed, s) {
      if Verdict(h.now, p) == NotDropped {
        ReceiveAccounts(h, seed, p, s);
      } else {
        assert Accounted(h, seed, s);
      }
    }
  }

  lemma StepKeepsInv(h: History, seed: Uint64, e: Event)
    requires Inv(h, seed)
    ensures Inv(Step(h, e), seed)
  {
    if e.Receive? {
      ReceiveKeepsInv(h, seed, e.p);
    } else {
      var t := Step(h, e);
      forall s: Uint64 ensures Accounted(t, seed, s) {
        assert Accounted(h, seed, s);
      }
    }
  }

  lemma {:induction false} RunKeepsInv(h: History, seed: Uint64, events: seq<Event>)
    requires Inv(h, seed)
    ensures Inv(Run(h, events), seed)
  {
    if events != [] {
      RunKeepsInv(h, seed, events[..|events| - 1]);
      StepKeepsInv(Run(h, events[..|events| - 1]), seed, events[|events| - 1]);
    }
  }

  // ---------------------------------------------------------------- theorems

  /** Over every run the delivered packets carry seed + 1, seed + 2, ... without a gap or
      a repetition. */
  lemma DeliveredInOrder(window: Uint64, epoch: Uint64, seed: Uint64, events: seq<Event>, i: nat)
    requires i < |Run(Start(window, epoch, seed), events).out|
    ensures Run(Start(window, epoch, seed), events).out[i].seqno == seed + 1 + i
    ensures Run(Start(window, epoch, seed), events).now.delivered ==
            seed + |Run(Start(window, epoch, seed), events).out|
  {
    RunKeepsInv(Start(window, epoch, seed), seed, events);
  }

  predicate ExactlyOne(a: bool, b: bool, c: bool) {
    (a && !b && !c) || (!a && b && !c) || (!a && !b && c)
  }

  /** And every accepted packet is in exactly one place: delivered, still buffered, or
      handed back by Close. Nothing else is in any of them. */
  lemma EachAcceptedOnce(window: Uint64, epoch: Uint64, seed: Uint64, events: seq<Event>, s: Uint64)
    ensures var h := Run(Start(window, epoch, seed), events);
            if s in h.accepted
            then && ExactlyOne(seed < s <= h.now.delivered, s in h.now.pending, s in h.returned)
                 && h.accepted[s] in if s <= h.now.delivered then h.out
                                     else if s in h.now.pending then [h.now.pending[s]] else [h.returned[s]]
            else !(seed < s <= h.now.delivered) && s !in h.now.pending && s !in h.returned
  {
    RunKeepsInv(Start(window, epoch, seed), seed, events);
    assert Accounted(Run(Start(window, epoch, seed), events), seed, s);
  }

  lemma {:induction false} SpanSize(keys: set<Uint64>, lo: nat, n: nat)
    requires forall s :: s in keys ==> lo <= s < lo + n
    ensures |keys| <= n
    decreases n
  {
    if n == 0 {
      assert keys == {};
    } else if lo + n - 1 < UINT64 && lo + n - 1 in keys {
      SpanSize(keys - {lo + n - 1}, lo, n - 1);
    } else {
      SpanSize(keys, lo, n - 1);
    }
  }

  /** At most `window` packets are ever buffered. */
  lemma BufferBounded(window: Uint64, epoch: Uint64, seed: Uint64, events: seq<Event>)
    ensures |Run(Start(window, epoch, seed), events).now.pending| <= window
  {
    RunKeepsInv(Start(window, epoch, seed), seed, events);
    WindowFixed(window, epoch, seed, events);
    var r := Run(Start(window, epoch, seed), events).now;
    SpanSize(r.pending.Keys, r.delivered + 2, window);
  }

  lemma {:induction false} WindowFixed(window: Uint64, epoch: Uint64, seed: Uint64, events: seq<Event>)
    ensures Run(Start(window, epoch, seed), events).now.window == window
  {
    if events != [] {
      WindowFixed(window, epoch, seed, events[..|events| - 1]);
    }
  }

  /** A packet below the current epoch can still come out: advancing the epoch does not look at
      what is buffered. */
  lemma StaleCanBeDelivered()
    ensures var buffered := Received(State(64, 1, 0, map[], false), Packet(1, 2, 0)).0;
            var (r, out) := Received(Advanced(buffered, 2), Packet(2, 1, 0));
            |out| == 2 && out[1].epoch < r.epoch
  {
    var first := Received(State(64, 1, 0, map[], false), Packet(1, 2, 0));
    ReadyUnique(0, map[2 := Packet(1, 2, 0)], []);
    assert first.0 == State(64, 1, 0, map[2 := Packet(1, 2, 0)], false);
    var pending: Buffer := map[2 := Packet(1, 2, 0)][1 := Packet(2, 1, 0)];
    ReadyUnique(0, pending, [Packet(2, 1, 0), Packet(1, 2, 0)]);
  }

  /** What is accepted stays accepted: no later packet takes its place. */
  lemma StepKeepsAccepted(h: History, seed: Uint64, e: Event, s: Uint64)
    requires Inv(h, seed) && s in h.accepted
    ensures s in Step(h, e).accepted && Step(h, e).accepted[s] == h.accepted[s]
  {
    assert Accounted(h, seed, s);
  }

  lemma {:induction false} AcceptedStays(h: History, seed: Uint64, events: seq<Event>, n: nat, s: Uint64)
    requires Inv(h, seed) && n <= |events| && s in Run(h, events[..n]).accepted
    ensures s in Run(h, events).accepted && Run(h, events).accepted[s] == Run(h, events[..n]).accepted[s]
  {
    if n == |events| {
      assert events[..n] == events;
    } else {
      var init := events[..|events| - 1];
      assert init[..n] == events[..n];
      AcceptedStays(h, seed, init, n, s);
      RunKeepsInv(h, seed, init);
      StepKeepsAccepted(Run(h, init), seed, events[|events| - 1], s);
    }
  }

  /** Event k advances past an epoch. */
  predicate AdvancesPast(events: seq<Event>, k: int, epoch: Uint64) {
    0 <= k < |events| && events[k].AdvanceEpoch? && events[k].epoch > epoch
  }

  ghost predicate AdvancedBetween(events: seq<Event>, m: nat, n: nat, epoch: Uint64) {
    exists k :: m <= k < n && AdvancesPast(events, k, epoch)
  }

  lemma BetweenNext(events: seq<Event>, m: nat, n: nat, e: Uint64)
    requires m < n <= |events|
    ensures AdvancedBetween(events, m, n, e) <==> AdvancedBetween(events, m, n - 1, e) || AdvancesPast(events, n - 1, e)
  {
  }

  lemma RunNext(h: History, events: seq<Event>, n: nat)
    requires 0 < n <= |events|
    ensures Run(h, events[..n]) == Step(Run(h, events[..n - 1]), events[n - 1])
  {
    assert events[..n][..n - 1] == events[..n - 1];
  }

  /** The epoch has risen above `e` since event m exactly when some event since advanced past it. */
  lemma {:induction false} RisenExactly(h: History, events: seq<Event>, m: nat, n: nat, e: Uint64)
    requires m <= n <= |events| && Run(h, events[..m]).now.epoch <= e
    ensures Run(h, events[..n]).now.epoch > e <==> AdvancedBetween(events, m, n, e)
  {
    if m < n {
      RisenExactly(h, events, m, n - 1, e);
      EpochNext(h, events, n, e);
      BetweenNext(events, m, n, e);
    }
  }

  lemma EpochNext(h: History, events: seq<Event>, n: nat, e: Uint64)
    requires 0 < n <= |events|
    ensures Run(h, events[..n]).now.epoch > e <==>
              Run(h, events[..n - 1]).now.epoch > e || AdvancesPast(events, n - 1, e)
  {
    RunNext(h, events, n);
    StepEpoch(Run(h, events[..n - 1]), events[n - 1], e);
  }

  lemma StepEpoch(h: History, a: Event, e: Uint64)
    ensures Step(h, a).now.epoch > e <==> h.now.epoch > e || (a.AdvanceEpoch? && a.epoch > e)
  {
  }

  lemma StepDelivered(h: History, e: Event)
    requires Valid(h.now)
    ensures h.now.delivered <= Step(h, e).now.delivered
  {
    if e.Receive? {
      ReceivedOk(h.now, e.p);
    }
  }

  /** Event m accepts packet p. */
  ghost predicate AcceptsAt(h: History, events: seq<Event>, m: nat, p: Packet) {
    m < |events| && events[m] == Receive(p) && Verdict(Run(h, events[..m]).now, p) == NotDropped
  }

  /** Event n delivers sequence number s. */
  ghost predicate DeliversAt(h: History, events: seq<Event>, n: nat, s: Uint64) {
    n < |events| && Run(h, events[..n]).now.delivered < s <= Run(h, events[..n + 1]).now.delivered
  }

  lemma AcceptedAt(h: History, events: seq<Event>, m: nat, p: Packet)
    requires AcceptsAt(h, events, m, p)
    ensures p.seqno in Run(h, events[..m + 1]).accepted && Run(h, events[..m + 1]).accepted[p.seqno] == p
  {
    assert events[..m + 1][..m] == events[..m];
  }

  lemma {:induction false} DeliveredRises(h: History, seed: Uint64, events: seq<Event>, m: nat, n: nat)
    requires Inv(h, seed) && m <= n <= |events|
    ensures Run(h, events[..m]).now.delivered <= Run(h, events[..n]).now.delivered
  {
    if m < n {
      DeliveredRises(h, seed, events, m, n - 1);
      assert events[..n][..n - 1] == events[..n - 1];
      RunKeepsInv(h, seed, events[..n - 1]);
      StepDelivered(Run(h, events[..n - 1]), events[n - 1]);
    }
  }

  lemma AcceptedFirst(h: History, seed: Uint64, events: seq<Event>, m: nat, n: nat, p: Packet)
    requires Inv(h, seed) && AcceptsAt(h, events, m, p) && DeliversAt(h, events, n, p.seqno)
    ensures m <= n
  {
    if n < m {
      DeliveredRises(h, seed, events, n + 1, m);
    }
  }

  lemma OutHas(h: History, seed: Uint64, s: Uint64)
    requires Inv(h, seed) && s in h.accepted && seed < s <= h.now.delivered
    ensures s - seed - 1 < |h.out| && h.out[s - seed - 1] == h.accepted[s]
  {
    assert Accounted(h, seed, s);
  }

  lemma StillAccepted(h: History, seed: Uint64, events: seq<Event>, m: nat, n: nat, p: Packet)
    requires Inv(h, seed) && AcceptsAt(h, events, m, p) && m <= n < |events|
    ensures var now := Run(h, events[..n + 1]); p.seqno in now.accepted && now.accepted[p.seqno] == p
  {
    AcceptedAt(h, events, m, p);
    assert events[..n + 1][..m + 1] == events[..m + 1];
    AcceptedStays(h, seed, events[..n + 1], m + 1, p.seqno);
  }

  /** Over every run, the packet accepted at event m is what is delivered under its number. */
  lemma DeliveredAsAccepted(window: Uint64, epoch: Uint64, seed: Uint64, events: seq<Event>, m: nat, n: nat, p: Packet)
    requires var h := Start(window, epoch, seed); AcceptsAt(h, events, m, p) && DeliversAt(h, events, n, p.seqno)
    ensures m <= n && seed < p.seqno
    ensures var out := Run(Start(window, epoch, seed), events[..n + 1]).out;
            && p.seqno - seed - 1 < |out|
            && out[p.seqno - seed - 1] == p
  {
    var h := Start(window, epoch, seed);
    AcceptedFirst(h, seed, events, m, n, p);
    StillAccepted(h, seed, events, m, n, p);
    RunKeepsInv(h, seed, events[..n + 1]);
    DeliveredRises(h, seed, events, 0, n);
    OutHas(Run(h, events[..n + 1]), seed, p.seqno);
  }

  /** And it is below the epoch current then exactly when an advance past its epoch came between
      its acceptance and its delivery. */
  lemma StaleExactly(window: Uint64, epoch: Uint64, seed: Uint64, events: seq<Event>, m: nat, n: nat, p: Packet)
    requires var h := Start(window, epoch, seed); AcceptsAt(h, events, m, p) && DeliversAt(h, events, n, p.seqno)
    ensures p.epoch < Run(Start(window, epoch, seed), events[..n]).now.epoch
            <==> AdvancedBetween(events, m, n, p.epoch)
  {
    DeliveredAsAccepted(window, epoch, seed, events, m, n, p);
    RisenExactly(Start(window, epoch, seed), events, m, n, p.epoch);
  }

  /** And every delivered packet was accepted at some event. */
  lemma {:induction false} DeliveredWasAccepted(h: History, events: seq<Event>, s: Uint64) returns (m: nat)
    requires s in Run(h, events).accepted && s !in h.accepted
    ensures AcceptsAt(h, events, m, Run(h, events).accepted[s])
  {
    var n := |events| - 1;
    assert events != [];
    var init := events[..n];
    var was := Run(h, init);
    if events[n].Receive? && events[n].p.seqno == s && Verdict(was.now, events[n].p) == NotDropped {
      m := n;
    } else {
      m := DeliveredWasAccepted(h, init, s);
      assert init[..m] == events[..m];
    }
  }

  lemma {:induction false} ClosedExactly(window: Uint64, epoch: Uint64, seed: Uint64, events: seq<Event>)
    ensures Run(Start(window, epoch, seed), events).now.closed <==> Close in events
  {
    if events != [] {
      var init := events[..|events| - 1];
      ClosedExactly(window, epoch, seed, init);
      assert events == init + [events[|events| - 1]];
    }
  }

  /** A packet stamped below the epoch the receiver started with, or was advanced to since. */
  ghost predicate Outdated(epoch: Uint64, events: seq<Event>, p: Packet) {
    p.epoch < epoch || AdvancedBetween(events, 0, |events|, p.epoch)
  }

  lemma OutdatedExactly(window: Uint64, epoch: Uint64, seed: Uint64, events: seq<Event>, p: Packet)
    ensures p.epoch < Run(Start(window, epoch, seed), events).now.epoch <==> Outdated(epoch, events, p)
  {
    var h := Start(window, epoch, seed);
    assert events[..|events|] == events && events[..0] == [];
    if p.epoch >= epoch {
      RisenExactly(h, events, 0, |events|, p.epoch);
    } else {
      EpochKept(h, events);
    }
  }

  lemma {:induction false} EpochKept(h: History, events: seq<Event>)
    ensures h.now.epoch <= Run(h, events).now.epoch
  {
    if events != [] {
      EpochKept(h, events[..|events| - 1]);
    }
  }

  /** In every run, what becomes of a packet: it is dropped after Close; else if its epoch is out of
      date; else if its number is the seed's or before, or was accepted already; else if it is more
      than the window ahead; and otherwise accepted. */
  lemma VerdictExactly(window: Uint64, epoch: Uint64, seed: Uint64, events: seq<Event>, p: Packet)
    ensures var h := Run(Start(window, epoch, seed), events);
            Verdict(h.now, p) == if Close in events then DropClosed
                                 else if Outdated(epoch, events, p) then DropEpochStale
                                 else if p.seqno <= seed || p.seqno in h.accepted then DropDuplicate
                                 else if p.seqno - (seed + |h.out|) > (window + 1) % UINT64 then DropOutOfWindow
                                 else NotDropped
  {
    var h := Run(Start(window, epoch, seed), events);
    RunKeepsInv(Start(window, epoch, seed), seed, events);
    ClosedExactly(window, epoch, seed, events);
    OutdatedExactly(window, epoch, seed, events, p);
    WindowFixed(window, epoch, seed, events);
    assert Accounted(h, seed, p.seqno);
  }

  /** With the largest window the bound `window + 1` wraps to 0, and no packet is ever taken. */
  lemma LargestWindowTakesNothing(r: State, p: Packet)
    requires r.window + 1 == UINT64
    ensures Verdict(r, p) != NotDropped
  {
  }

  /** In every run, while the receiver is open, the packet next in order and not below the epoch
      is taken, and so delivered at once, exactly when the window is not the largest. */
  lemma NextIsTakenExactly(window: Uint64, epoch: Uint64, seed: Uint64, events: seq<Event>, p: Packet)
    requires var r := Run(Start(window, epoch, seed), events).now;
             !r.closed && p.epoch >= r.epoch && p.seqno == r.delivered + 1
    ensures var r := Run(Start(window, epoch, seed), events).now;
            && (Verdict(r, p) == NotDropped <==> window + 1 < UINT64)
            && (p in Received(r, p).1 <==> window + 1 < UINT64)
  {
    RunKeepsInv(Start(window, epoch, seed), seed, events);
    WindowFixed(window, epoch, seed, events);
    var r := Run(Start(window, epoch, seed), events).now;
    if window + 1 < UINT64 {
      assert Received(r, p).1 == [p] + Ready(p.seqno, r.pending[p.seqno := p]);
    }
  }
}
