/** Bypass routes of a full-tunnel IPsec client: host routes through the underlay, shared by
    counting, never deleted unless this client made them. */
module Bypass {
  import opened Store

  type Addr = nat

  /** A user of a bypass route: the i-th controller, or a peer's add, numbered. */
  datatype Holder = Controller(i: nat) | Peer(j: nat)

  datatype Shared = Shared(owned: bool, refs: nat)

  /** The client's table, and the host routes the kernel has. */
  datatype Table = Table(entries: map<Addr, Shared>, host: set<Addr>)

  type Held = map<Holder, Addr>

  function Users(held: Held, a: Addr): set<Holder> {
    set h | h in held && held[h] == a
  }

  /** One address's entry: counted users, and owned exactly when the route was not there before. */
  ghost predicate EntryOk(t: Table, initial: set<Addr>, users: set<Holder>, a: Addr) {
    && (a in t.entries <==> |users| > 0)
    && (a in t.entries ==> t.entries[a].refs == |users| && (t.entries[a].owned <==> a !in initial))
    && (a in t.host <==> a in initial || a in t.entries)
  }

  /** The table counts exactly the holders, and the kernel has the routes it had and the ones
      in use. */
  ghost predicate Counts(t: Table, initial: set<Addr>, held: Held) {
    forall a :: EntryOk(t, initial, Users(held, a), a)
  }

  /** Acquiring fails when there is no route to copy or the kernel refuses (`ok`). */
  function Acquire(t: Table, a: Addr, ok: bool): Option<Table> {
    if a in t.entries then Some(t.(entries := t.entries[a := Shared(t.entries[a].owned, t.entries[a].refs + 1)]))
    else if !ok then None
    else if a in t.host then Some(t.(entries := t.entries[a := Shared(false, 1)]))
    else Some(Table(t.entries[a := Shared(true, 1)], t.host + {a}))
  }

  function Release(t: Table, a: Addr): Table {
    if a !in t.entries then t
    else if t.entries[a].refs > 1 then t.(entries := t.entries[a := Shared(t.entries[a].owned, t.entries[a].refs - 1)])
    else if !t.entries[a].owned then t.(entries := t.entries - {a})
    else Table(t.entries - {a}, t.host - {a})
  }

  lemma UsersPlus(held: Held, h: Holder, a: Addr, b: Addr)
    requires h !in held
    ensures Users(held[h := a], b) == if b == a then Users(held, b) + {h} else Users(held, b)
  {
  }

  lemma UsersMinus(held: Held, h: Holder, b: Addr)
    requires h in held
    ensures Users(held - {h}, b) == if b == held[h] then Users(held, b) - {h} else Users(held, b)
  {
  }

  /** Acquiring a route in use always works; another one exactly if `ok`. */
  lemma AcquireExactly(t: Table, a: Addr, ok: bool)
    ensures Acquire(t, a, ok).Some? <==> a in t.entries || ok
  {
  }

  lemma AcquireCounts(t: Table, initial: set<Addr>, held: Held, h: Holder, a: Addr, ok: bool)
    requires Counts(t, initial, held) && h !in held && Acquire(t, a, ok).Some?
    ensures Counts(Acquire(t, a, ok).value, initial, held[h := a])
  {
    var now, next := Acquire(t, a, ok).value, held[h := a];
    forall b ensures EntryOk(now, initial, Users(next, b), b) {
      assert EntryOk(t, initial, Users(held, b), b);
      UsersPlus(held, h, a, b);
    }
  }

  lemma ReleaseCounts(t: Table, initial: set<Addr>, held: Held, h: Holder)
    requires Counts(t, initial, held) && h in held
    ensures Counts(Release(t, held[h]), initial, held - {h})
  {
    var now, next := Release(t, held[h]), held - {h};
    forall b ensures EntryOk(now, initial, Users(next, b), b) {
      assert EntryOk(t, initial, Users(held, b), b);
      UsersMinus(held, h, b);
      if b == held[h] {
        assert h in Users(held, b);
        assert |Users(next, b)| == |Users(held, b)| - 1;
      }
    }
  }

  lemma EmptyCounts(host: set<Addr>)
    ensures Counts(Table(map[], host), host, map[])
  {
    forall a ensures EntryOk(Table(map[], host), host, Users(map[], a), a) {
      assert Users(map[], a) == {};
    }
  }

  /** When nobody holds a route, the kernel is as it was. */
  lemma NobodyLeft(t: Table, initial: set<Addr>)
    requires Counts(t, initial, map[])
    ensures t.entries == map[] && t.host == initial
  {
    forall a ensures a !in t.entries && (a in t.host <==> a in initial) {
      assert EntryOk(t, initial, Users(map[], a), a);
      assert Users(map[], a) == {};
    }
  }

  /** A route that was there before is never deleted, and stays unowned. */
  lemma ForeignKept(t: Table, initial: set<Addr>, held: Held)
    requires Counts(t, initial, held)
    ensures initial <= t.host
  {
    forall a | a in initial ensures a in t.host {
      assert EntryOk(t, initial, Users(held, a), a);
    }
  }

  class BypassRoutes {
    var bypass: map<Addr, Shared>
    var host: set<Addr>
    ghost var initial: set<Addr>
    ghost var held: Held

    ghost function Now(): Table
      reads this
    {
      Table(bypass, host)
    }

    ghost predicate Valid()
      reads this
    {
      Counts(Now(), initial, held)
    }

    constructor (host: set<Addr>)
      ensures Valid() && bypass == map[] && this.host == initial == host && held == map[]
    {
      this.host, initial, bypass, held := host, host, map[], map[];
      EmptyCounts(host);
    }

    /** `found` says whether a route through the underlay was found, `fits` whether the kernel
        takes a new one. */
    method AcquireBypass(dst: Addr, found: bool, fits: bool, ghost h: Holder) returns (ok: bool)
      requires Valid() && h !in held
      modifies this
      ensures Valid() && initial == old(initial) && held == if ok then old(held)[h := dst] else old(held)
      ensures ok <==> Acquire(old(Now()), dst, found && (fits || dst in old(host))).Some?
      ensures Now() == if ok then Acquire(old(Now()), dst, found && (fits || dst in old(host))).value else old(Now())
    {
      ghost var able := found && (fits || dst in host);
      if Acquire(Now(), dst, able).Some? {
        AcquireCounts(Now(), initial, held, h, dst, able);
      }
      if dst in bypass {
        bypass := bypass[dst := Shared(bypass[dst].owned, bypass[dst].refs + 1)];
        held := held[h := dst];
        return true;
      }
      if !found {
        return false;
      }
      var owned := true;
      if dst in host {
        owned := false;
      } else if !fits {
        return false;
      } else {
        host := host + {dst};
      }
      bypass := bypass[dst := Shared(owned, 1)];
      held := held[h := dst];
      return true;
    }

    method ReleaseBypass(dst: Addr, ghost h: Holder)
      requires Valid() && h in held && held[h] == dst
      modifies this
      ensures Valid() && initial == old(initial) && held == old(held) - {h}
      ensures Now() == Release(old(Now()), dst)
    {
      ReleaseCounts(Now(), initial, held, h);
      held := held - {h};
      if dst !in bypass {
        return;
      }
      var refs := bypass[dst].refs - 1;
      if refs > 0 {
        bypass := bypass[dst := Shared(bypass[dst].owned, refs)];
        return;
      }
      var owned := bypass[dst].owned;
      bypass := bypass - {dst};
      if !owned {
        return;
      }
      host := host - {dst};
    }
  }
}
