/** `routeSet`: the tunnel routes one IPsec client or gateway installed, moved and
    withdrawn as one transaction over a kernel whose calls may fail. */
module Routes {

  type Dst = nat

  /** A route of one table: its destination and everything else about it. */
  datatype Route = Route(dst: Dst, via: nat)

  type Table = map<Dst, Route>

  /** The kernel's table. Either call may fail, and then changes nothing. */
  class Kernel {
    var routes: Table
    ghost var failures: nat  // calls that failed so far

    method Replace(r: Route) returns (ok: bool)
      modifies this
      ensures routes == if ok then old(routes)[r.dst := r] else old(routes)
      ensures failures == old(failures) + if ok then 0 else 1
    {
      ok := *;
      if ok {
        routes := routes[r.dst := r];
      } else {
        failures := failures + 1;
      }
    }

    /** A route that is already gone counts as deleted. */
    method Del(r: Route) returns (ok: bool)
      modifies this
      ensures routes == if ok then old(routes) - {r.dst} else old(routes)
      ensures failures == old(failures) + if ok then 0 else 1
    {
      ok := *;
      if ok {
        routes := routes - {r.dst};
      } else {
        failures := failures + 1;
      }
    }
  }

  /** The wanted routes by destination: of duplicates the last counts. */
  function Wanted(want: seq<Route>): Table {
    if want == [] then map[] else Wanted(want[..|want| - 1])[want[|want| - 1].dst := want[|want| - 1]]
  }

  /** A table that holds each route under its own destination. */
  ghost predicate Keyed(t: Table) {
    forall d :: d in t ==> t[d].dst == d
  }

  lemma {:induction false} WantedKeys(want: seq<Route>)
    ensures Keyed(Wanted(want))
    ensures forall d :: d in Wanted(want) <==> exists i :: 0 <= i < |want| && want[i].dst == d
    ensures forall d :: d in Wanted(want) ==> Wanted(want)[d] in want
  {
    if want != [] {
      var n := |want| - 1;
      WantedKeys(want[..n]);
      assert want == want[..n] + [want[n]];
    }
  }

  /** A destination gets the last route that wants it. */
  lemma {:induction false} LastDuplicateCounts(want: seq<Route>, i: nat)
    requires i < |want| && forall j :: i < j < |want| ==> want[j].dst != want[i].dst
    ensures want[i].dst in Wanted(want) && Wanted(want)[want[i].dst] == want[i]
  {
    if i < |want| - 1 {
      LastDuplicateCounts(want[..|want| - 1], i);
    }
  }

  /** The kernel once every change to a destination in `changed` is undone: the route
      this set had there, or none. */
  function Restored(kernel: Table, installed: Table, changed: set<Dst>): Table {
    map d | d in kernel.Keys + (changed * installed.Keys) && (d in changed ==> d in installed) ::
      if d in changed then installed[d] else kernel[d]
  }

  ghost predicate Agrees(kernel: Table, installed: Table, d: Dst) {
    if d in installed then d in kernel && kernel[d] == installed[d] else d !in kernel
  }

  /** The two tables differ at most at the destinations in `changed`. */
  ghost predicate SameOutside(a: Table, b: Table, changed: set<Dst>) {
    forall d :: d !in changed ==> (d in a <==> d in b) && (d in a ==> a[d] == b[d])
  }

  lemma RestoredIs(now: Table, before: Table, installed: Table, changed: set<Dst>)
    requires SameOutside(now, before, changed) && forall d :: d in changed ==> Agrees(now, installed, d)
    ensures now == Restored(before, installed, changed)
  {
    assert now.Keys == Restored(before, installed, changed).Keys;
  }

  /** Undoing gives back exactly the kernel that was there when each changed
      destination held this set's own route, or nothing if it had none. */
  lemma RestoredExactly(kernel: Table, installed: Table, changed: set<Dst>)
    ensures Restored(kernel, installed, changed) == kernel <==>
              forall d :: d in changed ==> Agrees(kernel, installed, d)
  {
    var r := Restored(kernel, installed, changed);
    forall d | d in changed && r == kernel ensures Agrees(kernel, installed, d) {
      assert d in r <==> d in installed;
    }
    if forall d :: d in changed ==> Agrees(kernel, installed, d) {
      assert r.Keys == kernel.Keys;
    }
  }

  /** So a foreign route at a wanted destination is lost even though the change failed. */
  lemma UndoCanDropForeignRoute()
    ensures Restored(map[1 := Route(1, 9)], map[], {1}) != map[1 := Route(1, 9)]
  {
    RestoredExactly(map[1 := Route(1, 9)], map[], {1});
  }

  datatype Outcome =
    | Applied
    | WithdrawalFailed           // all of want is in place; some old route is not gone
    | Undone(changed: set<Dst>)  // a replace failed; everything before it was put back
    | UndoFailed

  class RouteSet {
    const net: Kernel
    var installed: Table

    ghost predicate Valid()
      reads this
    {
      Keyed(installed)
    }

    /** Every route this set tracks is in the kernel as tracked. */
    ghost predicate InKernel()
      reads this, net
    {
      forall d :: d in installed ==> d in net.routes && net.routes[d] == installed[d]
    }

    constructor (net: Kernel)
      ensures Valid() && InKernel() && this.net == net && installed == map[]
    {
      this.net := net;
      installed := map[];
    }

    method Apply(want: seq<Route>) returns (outcome: Outcome)
      requires Valid()
      modifies this, net
      ensures Valid()
      ensures outcome.Undone? ==>
        && installed == old(installed)
        && outcome.changed <= Wanted(want).Keys
        && net.routes == Restored(old(net.routes), old(installed), outcome.changed)
      ensures outcome.UndoFailed? ==>
        && installed == old(installed)
        && SameOutside(net.routes, old(net.routes), Wanted(want).Keys)
      ensures outcome.Applied? || outcome.WithdrawalFailed? ==>
        var gone := old(installed).Keys - installed.Keys;
        && net.routes == old(net.routes) + Wanted(want) - gone
        && installed == old(installed) + Wanted(want) - gone
        && gone !! Wanted(want).Keys
        && (outcome.Applied? <==> installed == Wanted(want))
      ensures old(InKernel()) && !outcome.UndoFailed? ==> InKernel()
      ensures want == [] ==> outcome.Applied? || outcome.WithdrawalFailed?
      ensures net.failures >= old(net.failures) && (outcome.Applied? <==> net.failures == old(net.failures))
      ensures outcome.Undone? ==> net.failures == old(net.failures) + 1
      ensures outcome.UndoFailed? ==> net.failures > old(net.failures) + 1
    {
      var i := 0;
      while i < |want|
        invariant 0 <= i <= |want| && installed == old(installed) && net.failures == old(net.failures)
        invariant net.routes == old(net.routes) + Wanted(want[..i])
      {
        assert want[..i + 1][..i] == want[..i];
        var ok := net.Replace(want[i]);
        if !ok {
          WantedPrefix(want, i);
          var undone := Undo(want[..i], old(net.routes));
          return if undone then Undone(Wanted(want[..i]).Keys) else UndoFailed;
        }
        i := i + 1;
      }
      assert want[..i] == want;
      outcome := Withdraw(want);
    }

    /** Withdraws everything. */
    method Clear() returns (outcome: Outcome)
      requires Valid()
      modifies this, net
      ensures Valid() && (outcome.Applied? || outcome.WithdrawalFailed?)
      ensures installed.Keys <= old(installed).Keys && (outcome.Applied? <==> installed == map[])
      ensures net.routes == old(net.routes) - (old(installed).Keys - installed.Keys)
      ensures net.failures >= old(net.failures) && (outcome.Applied? <==> net.failures == old(net.failures))
    {
      outcome := Apply([]);
    }

    /** Puts back, last change first, what `done` changed; every step is tried. */
    method Undo(done: seq<Route>, ghost before: Table) returns (ok: bool)
      requires Valid() && SameOutside(net.routes, before, Wanted(done).Keys)
      modifies net
      ensures ok ==> net.routes == Restored(before, installed, Wanted(done).Keys)
      ensures SameOutside(net.routes, before, Wanted(done).Keys)
      ensures net.failures >= old(net.failures) && (ok <==> net.failures == old(net.failures))
    {
      WantedKeys(done);
      ok := true;
      var i := |done|;
      while i > 0
        invariant 0 <= i <= |done| && SameOutside(net.routes, before, Wanted(done).Keys)
        invariant ok ==> forall k :: i <= k < |done| ==> Agrees(net.routes, installed, done[k].dst)
        invariant net.failures >= old(net.failures) && (ok <==> net.failures == old(net.failures))
      {
        i := i - 1;
        var fine;
        if done[i].dst in installed {
          fine := net.Replace(installed[done[i].dst]);
        } else {
          fine := net.Del(done[i]);
        }
        ok := ok && fine;
      }
      if ok {
        RestoredIs(net.routes, before, installed, Wanted(done).Keys);
      }
    }

    /** Withdraws the installed routes that are not wanted, and tracks what is left. */
    method Withdraw(want: seq<Route>) returns (outcome: Outcome)
      requires Valid()
      modifies this, net
      ensures Valid()
      ensures outcome.Applied? || outcome.WithdrawalFailed?
      ensures var gone := old(installed).Keys - installed.Keys;
        && net.routes == old(net.routes) - gone
        && installed == old(installed) + Wanted(want) - gone
        && gone !! Wanted(want).Keys
        && (outcome.Applied? <==> installed == Wanted(want))
      ensures net.failures >= old(net.failures) && (outcome.Applied? <==> net.failures == old(net.failures))
    {
      WantedKeys(want);
      var keep := Wanted(want);
      var left := installed.Keys;
      ghost var gone: set<Dst> := {};
      outcome := Applied;
      while left != {}
        invariant installed == old(installed) && net.routes == old(net.routes) - gone
        invariant Withdrawing(installed, Wanted(want), left, gone, keep)
        invariant outcome == if keep.Keys <= Wanted(want).Keys then Applied else WithdrawalFailed
        invariant net.failures >= old(net.failures) && (outcome.Applied? <==> net.failures == old(net.failures))
        decreases left
      {
        var d :| d in left;
        WithdrawNext(installed, Wanted(want), left, gone, keep, d);
        left := left - {d};
        if d !in Wanted(want) {
          var ok := net.Del(installed[d]);
          if ok {
            gone := gone + {d};
          } else {
            keep := keep[d := installed[d]];
            outcome := WithdrawalFailed;
          }
        }
      }
      WithdrawEnds(installed, Wanted(want), gone, keep);
      installed := keep;
    }
  }

  /** Of what was installed, `left` is still to be looked at and `gone` was withdrawn. */
  ghost predicate Withdrawing(installed: Table, wanted: Table, left: set<Dst>, gone: set<Dst>, keep: Table) {
    && left <= installed.Keys && gone <= installed.Keys && gone !! left && gone !! wanted.Keys
    && keep == (installed - (left + gone)) + wanted
  }

  lemma WithdrawNext(installed: Table, wanted: Table, left: set<Dst>, gone: set<Dst>, keep: Table, d: Dst)
    requires Withdrawing(installed, wanted, left, gone, keep) && d in left
    ensures d in wanted ==> Withdrawing(installed, wanted, left - {d}, gone, keep)
    ensures d !in wanted ==> Withdrawing(installed, wanted, left - {d}, gone + {d}, keep)
    ensures d !in wanted ==> Withdrawing(installed, wanted, left - {d}, gone, keep[d := installed[d]])
  {
    assert left - {d} + (gone + {d}) == left + gone;
  }

  lemma WithdrawEnds(installed: Table, wanted: Table, gone: set<Dst>, keep: Table)
    requires Withdrawing(installed, wanted, {}, gone, keep) && Keyed(installed) && Keyed(wanted)
    ensures gone == installed.Keys - keep.Keys && keep == installed + wanted - gone && Keyed(keep)
    ensures keep.Keys <= wanted.Keys <==> keep == wanted
  {
  }

  lemma {:induction false} WantedPrefix(want: seq<Route>, n: nat)
    requires n <= |want|
    ensures Wanted(want[..n]).Keys <= Wanted(want).Keys
  {
    if n == |want| {
      assert want[..n] == want;
    } else {
      assert want[..|want| - 1][..n] == want[..n];
      WantedPrefix(want[..|want| - 1], n);
    }
  }
}
