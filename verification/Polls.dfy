/** The controller's versioned reads. Every write holds the server's lock, changes one
    or more keys of the store, and bumps the version last. A poll reads the version
    under the lock and then the keys one by one without it, while writes go on. */
module Polls {

  type Key = nat

  /** A key's value with its place in the key's sequence of writes; 0 is "no entry yet". */
  datatype Entry = Entry(value: int, index: nat)

  /** A write whose bump happened: key, place, and the version the bump gave. */
  datatype Done = Done(key: Key, index: nat, version: nat)

  /** How a key's latest write ended: not yet, at a bump, or without one, because it
      failed half-way or another process sharing the store made it. */
  datatype Origin = InProgress | Bumped(version: nat) | Silent

  /** A poll's version, once read, and the entries it read. For each entry `seen` is
      the server's version when it was read, and `late` says the poll's version had
      been read by then. `base` is the store as it was when the version was read. */
  datatype Poll = Poll(version: nat, got: map<Key, Entry>, seen: map<Key, nat>, late: set<Key>, base: map<Key, Entry>)

  /** `writer` holds what the write in progress has written. `origin`, `silent` (the
      place of a key's last silent write) and `done` are history variables. */
  datatype Server = Server(store: map<Key, Entry>, version: nat, locked: bool, writer: map<Key, nat>,
                           origin: map<Key, Origin>, silent: map<Key, nat>, done: set<Done>, polls: map<nat, Poll>)

  datatype Event =
    | BeginWrite
    | WriteKey(key: Key, value: int)
    | EndWrite                        // bumps the version
    | AbortWrite                      // a later step of the write failed: no bump
    | Foreign(key: Key, value: int)   // another process sharing the store
    | OpenPoll(poll: nat)
    | ReadVersion(poll: nat)
    | ReadKey(poll: nat, key: Key)

  const Initial := Server(map[], 1, false, map[], map[], map[], {}, map[])

  function In(store: map<Key, Entry>, key: Key): Entry {
    if key in store then store[key] else Entry(0, 0)
  }

  function At(s: Server, key: Key): Entry {
    In(s.store, key)
  }

  function LastSilent(s: Server, key: Key): nat {
    if key in s.silent then s.silent[key] else 0
  }

  /** Whether the latest write of `key` is the one in progress. */
  predicate Open(s: Server, key: Key) {
    key in s.writer && s.writer[key] == At(s, key).index
  }

  ghost function Step(s: Server, e: Event): Server {
    match e
    case BeginWrite => if s.locked then s else s.(locked := true, writer := map[])
    case WriteKey(k, v) =>
      if !s.locked then s else
      var n := At(s, k).index + 1;
      s.(store := s.store[k := Entry(v, n)], writer := s.writer[k := n], origin := s.origin[k := InProgress])
    case EndWrite =>
      if !s.locked then s else
      s.(version := s.version + 1, locked := false, writer := map[],
         origin := map k | k in s.origin :: if Open(s, k) then Bumped(s.version + 1) else s.origin[k],
         done := s.done + set k | k in s.writer :: Done(k, s.writer[k], s.version + 1))
    case AbortWrite =>
      if !s.locked then s else
      s.(locked := false, writer := map[],
         origin := map k | k in s.origin :: if Open(s, k) then Silent else s.origin[k],
         silent := map k | k in s.silent.Keys + s.writer.Keys :: if Open(s, k) then s.writer[k] else LastSilent(s, k))
    case Foreign(k, v) =>
      var n := At(s, k).index + 1;
      s.(store := s.store[k := Entry(v, n)], origin := s.origin[k := Silent], silent := s.silent[k := n])
    case OpenPoll(p) => if p in s.polls then s else s.(polls := s.polls[p := Poll(0, map[], map[], {}, map[])])
    case ReadVersion(p) =>
      if p in s.polls && s.polls[p].version == 0 && !s.locked
      then s.(polls := s.polls[p := s.polls[p].(version := s.version, base := s.store)]) else s
    case ReadKey(p, k) =>
      if p !in s.polls then s else
      var q := s.polls[p];
      s.(polls := s.polls[p := Poll(q.version, q.got[k := At(s, k)], q.seen[k := s.version],
                                    if q.version > 0 then q.late + {k} else q.late - {k}, q.base)])
  }

  ghost function Run(s: Server, events: seq<Event>): Server {
    if events == [] then s else Step(Run(s, events[..|events| - 1]), events[|events| - 1])
  }

  // --------------------------------------------------------------- invariant

  ghost predicate KeyOk(s: Server, k: Key) {
    && LastSilent(s, k) <= At(s, k).index
    && (k in s.origin ==>
          match s.origin[k]
          case InProgress => s.locked && Open(s, k)
          case Bumped(v) => v <= s.version
          case Silent => LastSilent(s, k) == At(s, k).index)
    && (At(s, k).index > 0 ==> k in s.origin)
    && (k in s.writer ==> s.locked && s.writer[k] <= At(s, k).index)
  }

  ghost predicate DoneOk(s: Server, d: Done) {
    d.index <= At(s, d.key).index && d.version <= s.version
  }

  /** What a poll knows of key `k`: all that was done by the time it was read, and
      anything newer in the store was written since. */
  ghost predicate ReadOk(s: Server, q: Poll, k: Key)
    requires k in q.got && k in q.seen
  {
    && q.seen[k] <= s.version && (k in q.late ==> 0 < q.version <= q.seen[k])
    && q.got[k].index <= At(s, k).index
    && (q.got[k].index == At(s, k).index ==> q.got[k] == At(s, k))
    && (q.got[k].index < At(s, k).index ==> k in s.origin && (s.origin[k].Bumped? ==> s.origin[k].version > q.seen[k]))
    && (forall d :: d in s.done && d.key == k && d.version <= q.seen[k] ==> d.index <= q.got[k].index)
  }

  /** Announced up to a poll's version is what was announced of the store as it was then. */
  ghost predicate VersionOk(s: Server, q: Poll) {
    && (forall d :: d in s.done ==> (d.version <= q.version <==> d.index <= In(q.base, d.key).index))
    && (forall k :: In(q.base, k).index <= At(s, k).index)
    && (forall k :: k in s.writer ==> In(q.base, k).index < s.writer[k])
  }

  ghost predicate PollOk(s: Server, q: Poll) {
    && q.version <= s.version && (q.version > 0 ==> VersionOk(s, q))
    && (forall k :: k in q.got <==> k in q.seen)
    && (forall k :: k in q.late ==> k in q.got)
    && (forall k :: k in q.got ==> ReadOk(s, q, k))
  }

  ghost predicate Inv(s: Server) {
    && s.version > 0
    && (forall k :: KeyOk(s, k))
    && (forall d :: d in s.done ==> DoneOk(s, d))
    && (forall p :: p in s.polls ==> PollOk(s, s.polls[p]))
  }

  predicate IsWrite(e: Event) {
    e.BeginWrite? || e.WriteKey? || e.EndWrite? || e.AbortWrite? || e.Foreign?
  }

  lemma WriteKeepsKeys(s: Server, e: Event)
    requires Inv(s) && IsWrite(e)
    ensures forall k :: KeyOk(Step(s, e), k)
    ensures forall d :: d in Step(s, e).done ==> DoneOk(Step(s, e), d)
  {
    var t := Step(s, e);
    forall k ensures KeyOk(t, k) {
      assert KeyOk(s, k);
    }
    forall d | d in t.done ensures DoneOk(t, d) {
      assert KeyOk(s, d.key);
      assert d in s.done ==> DoneOk(s, d);
    }
  }

  lemma WriteKeepsVersion(s: Server, e: Event, q: Poll)
    requires Inv(s) && IsWrite(e) && VersionOk(s, q) && q.version <= s.version
    ensures VersionOk(Step(s, e), q)
  {
    var t := Step(s, e);
    forall d | d in t.done ensures d.version <= q.version <==> d.index <= In(q.base, d.key).index {
      if d !in s.done {
        assert e.EndWrite? && d.key in s.writer;
      }
    }
    forall k ensures In(q.base, k).index <= At(t, k).index {
      assert In(q.base, k).index <= At(s, k).index;
    }
  }

  lemma WriteKeepsRead(s: Server, e: Event, q: Poll, k: Key)
    requires Inv(s) && IsWrite(e) && PollOk(s, q) && k in q.got
    ensures k in q.seen && ReadOk(Step(s, e), q, k)
  {
    assert ReadOk(s, q, k) && KeyOk(s, k);
  }

  /** The server changes by a write event; the polls do not move. */
  lemma WriteKeepsInv(s: Server, e: Event)
    requires Inv(s) && IsWrite(e)
    ensures Inv(Step(s, e))
  {
    var t := Step(s, e);
    WriteKeepsKeys(s, e);
    forall p | p in t.polls ensures PollOk(t, t.polls[p]) {
      assert PollOk(s, s.polls[p]);
      if s.polls[p].version > 0 {
        WriteKeepsVersion(s, e, s.polls[p]);
      }
      forall k | k in s.polls[p].got {
        WriteKeepsRead(s, e, s.polls[p], k);
      }
    }
  }

  lemma PollsDoNotMatter(s: Server, polls: map<nat, Poll>, q: Poll)
    requires PollOk(s, q)
    ensures PollOk(s.(polls := polls), q)
  {
    var t := s.(polls := polls);
    assert q.version > 0 ==> VersionOk(s, q) && VersionOk(t, q);
    forall k | k in q.got ensures ReadOk(t, q, k) {
      assert ReadOk(s, q, k);
    }
  }

  /** One poll moves; the server does not. */
  lemma PollKeepsInv(s: Server, p: nat, q: Poll)
    requires Inv(s) && PollOk(s, q)
    ensures Inv(s.(polls := s.polls[p := q]))
  {
    var t := s.(polls := s.polls[p := q]);
    forall k ensures KeyOk(t, k) {
      assert KeyOk(s, k);
    }
    forall d | d in t.done ensures DoneOk(t, d) {
      assert DoneOk(s, d);
    }
    forall o | o in t.polls ensures PollOk(t, t.polls[o]) {
      PollsDoNotMatter(s, t.polls, t.polls[o]);
    }
  }

  lemma ReadKeyOk(s: Server, q: Poll, k: Key)
    requires Inv(s) && PollOk(s, q)
    ensures PollOk(s, Poll(q.version, q.got[k := At(s, k)], q.seen[k := s.version],
                           if q.version > 0 then q.late + {k} else q.late - {k}, q.base))
  {
    var r := Poll(q.version, q.got[k := At(s, k)], q.seen[k := s.version],
                  if q.version > 0 then q.late + {k} else q.late - {k}, q.base);
    forall l | l in r.got ensures ReadOk(s, r, l) {
      if l == k {
        assert forall d :: d in s.done ==> DoneOk(s, d);
      } else {
        assert ReadOk(s, q, l);
      }
    }
  }

  lemma ReadVersionOk(s: Server, q: Poll)
    requires Inv(s) && PollOk(s, q) && q.version == 0 && !s.locked
    ensures PollOk(s, q.(version := s.version, base := s.store))
  {
    var r := q.(version := s.version, base := s.store);
    assert forall k :: k in q.got ==> ReadOk(s, q, k) && ReadOk(s, r, k);
    assert forall d :: d in s.done ==> DoneOk(s, d);
    forall k ensures k !in s.writer {
      assert KeyOk(s, k);
    }
  }

  lemma PollStepKeepsInv(s: Server, e: Event)
    requires Inv(s) && !IsWrite(e)
    ensures Inv(Step(s, e))
  {
    if Step(s, e) != s {
      if e.ReadKey? {
        ReadKeyOk(s, s.polls[e.poll], e.key);
      } else if e.ReadVersion? {
        ReadVersionOk(s, s.polls[e.poll]);
      }
      PollKeepsInv(s, e.poll, Step(s, e).polls[e.poll]);
    }
  }

  lemma {:induction false} RunKeepsInv(events: seq<Event>)
    ensures Inv(Run(Initial, events))
  {
    if events != [] {
      var s, e := Run(Initial, events[..|events| - 1]), events[|events| - 1];
      RunKeepsInv(events[..|events| - 1]);
      if IsWrite(e) {
        WriteKeepsInv(s, e);
      } else {
        PollStepKeepsInv(s, e);
      }
    }
  }

  // ---------------------------------------------------------------- theorems

  /** In every run a poll result reflects, for each key it read after its version,
      every completed write whose bump gave a version at most the poll's: the entry is
      that write's or a later one's, although keys are read one by one without the lock. */
  lemma PollReflectsItsVersion(events: seq<Event>, p: nat, d: Done)
    requires var s := Run(Initial, events);
             && p in s.polls && d in s.done && d.key in s.polls[p].late
             && d.version <= s.polls[p].version
    ensures var q := Run(Initial, events).polls[p]; d.key in q.got && q.got[d.key].index >= d.index
  {
    RunKeepsInv(events);
    var s := Run(Initial, events);
    assert PollOk(s, s.polls[p]);
    assert ReadOk(s, s.polls[p], d.key);
  }

  /** While the version has not moved and no write is in progress, what the poll read is
      what the store holds, exactly for the keys with no silent write since. */
  lemma UnchangedVersionMeansCurrent(events: seq<Event>, p: nat, k: Key)
    requires var s := Run(Initial, events);
             p in s.polls && k in s.polls[p].late && s.version == s.polls[p].version && !s.locked
    ensures var s := Run(Initial, events);
            && k in s.polls[p].got
            && (s.polls[p].got[k] == At(s, k) <==> LastSilent(s, k) <= s.polls[p].got[k].index)
  {
    RunKeepsInv(events);
    var s := Run(Initial, events);
    assert PollOk(s, s.polls[p]);
    assert ReadOk(s, s.polls[p], k) && KeyOk(s, k);
  }

  /** A key read before the version, as a client poll reads its own session's record when
      it authenticates, reflects only what was done when it was read. */
  lemma EarlyReadReflectsItsTime(events: seq<Event>, p: nat, d: Done)
    requires var s := Run(Initial, events);
             && p in s.polls && d in s.done && d.key in s.polls[p].got
             && d.key in s.polls[p].seen
    requires var s := Run(Initial, events); d.version <= s.polls[p].seen[d.key]
    ensures Run(Initial, events).polls[p].got[d.key].index >= d.index
  {
    RunKeepsInv(events);
    var s := Run(Initial, events);
    assert PollOk(s, s.polls[p]);
    assert ReadOk(s, s.polls[p], d.key);
  }

  /** An entry reflects a poll's version when it is no older than any write of its key announced
      up to that version. */
  ghost predicate Reflects(s: Server, q: Poll, k: Key)
    requires k in q.got
  {
    forall d :: d in s.done && d.key == k && d.version <= q.version ==> d.index <= q.got[k].index
  }

  /** Write d took its place after key k was read and before the version was. */
  predicate StoredBetween(q: Poll, k: Key, d: Done)
    requires k in q.got
  {
    d.key == k && q.got[k].index < d.index <= In(q.base, k).index
  }

  /** Whether read early or late, an entry reflects its poll's version exactly when no announced
      write of its key was stored between the two reads. */
  lemma ReflectsExactly(events: seq<Event>, p: nat, k: Key)
    requires var s := Run(Initial, events); p in s.polls && s.polls[p].version > 0 && k in s.polls[p].got
    ensures var s := Run(Initial, events); var q := s.polls[p];
            Reflects(s, q, k) <==> forall d :: d in s.done ==> !StoredBetween(q, k, d)
  {
    RunKeepsInv(events);
    var s := Run(Initial, events);
    assert PollOk(s, s.polls[p]);
  }

  /** A write of key 7 that ends with a bump. */
  ghost function Written(s: Server, value: int): Server {
    Step(Step(Step(s, BeginWrite), WriteKey(7, value)), EndWrite)
  }

  lemma WrittenIs(s: Server, value: int)
    requires !s.locked
    ensures var t := Written(s, value);
            && t.version == s.version + 1 && !t.locked && t.polls == s.polls
            && At(t, 7) == Entry(value, At(s, 7).index + 1)
            && Done(7, At(s, 7).index + 1, s.version + 1) in t.done && s.done <= t.done
  {
    var writing := Step(Step(s, BeginWrite), WriteKey(7, value));
    assert 7 in writing.writer && writing.writer[7] == At(s, 7).index + 1 && writing.version == s.version
           && writing.locked;
  }

  /** So a client poll can return a version and miss a write of that version: it reads its
      session's record, then the record is rewritten, then it reads the version. */
  lemma EarlyReadCanMissItsVersion()
    ensures var read := Step(Step(Written(Initial, 1), OpenPoll(0)), ReadKey(0, 7));
            var s := Step(Written(read, 42), ReadVersion(0));
            && Done(7, 2, 3) in s.done && 0 in s.polls && 7 in s.polls[0].got
            && s.polls[0].version == 3 && s.polls[0].got[7] == Entry(1, 1) && !Reflects(s, s.polls[0], 7)
  {
    WrittenIs(Initial, 1);
    var read := Step(Step(Written(Initial, 1), OpenPoll(0)), ReadKey(0, 7));
    assert read.version == 2 && !read.locked && At(read, 7) == Entry(1, 1);
    assert 0 in read.polls && read.polls[0].version == 0 && 7 in read.polls[0].got
           && read.polls[0].got[7] == Entry(1, 1);
    WrittenIs(read, 42);
  }

  /** And a rewrite that fails after its first store access is not announced: the version
      stands, no write is in progress, and the poll differs from the store. */
  lemma SilentWriteIsMissed()
    ensures var read := Step(Step(Step(Written(Initial, 1), OpenPoll(0)), ReadVersion(0)), ReadKey(0, 7));
            var s := Step(Step(Step(read, BeginWrite), WriteKey(7, 42)), AbortWrite);
            && 0 in s.polls && 7 in s.polls[0].late && 7 in s.polls[0].got && s.polls[0].got[7] == Entry(1, 1)
            && s.version == s.polls[0].version && !s.locked && s.polls[0].got[7] != At(s, 7)
  {
    WrittenIs(Initial, 1);
    var read := Step(Step(Step(Written(Initial, 1), OpenPoll(0)), ReadVersion(0)), ReadKey(0, 7));
    assert read.version == 2 && !read.locked && At(read, 7) == Entry(1, 1);
    assert 0 in read.polls && read.polls[0].version == 2 && 7 in read.polls[0].got
           && read.polls[0].got[7] == Entry(1, 1);
    var writing := Step(Step(read, BeginWrite), WriteKey(7, 42));
    assert At(writing, 7) == Entry(42, 2) && writing.version == 2 && writing.locked && writing.polls == read.polls;
  }
}
