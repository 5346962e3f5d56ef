/** Bringing a gateway's host to a plan: peers, policy rules and return routes that differ are
    taken out, those missing are put in. Every call to the host may fail. */
module GatewayApply {
  import opened Ownership
  import opened GatewayPlan

  // -------------------------------------------------------------------- the host

  /** The host's configuration: the client-facing device's peers, the rules (virtual IP, table),
      and the return route of each virtual IP, to a numbered backbone device. */
  class Host {
    var peers: map<Name, nat>
    var rules: set<(nat, nat)>
    var routes: map<nat, nat>
    ghost var failures: nat  // calls that failed so far

    method AddPeer(key: Name, vip: nat) returns (ok: bool)
      modifies this`peers, this`failures
      ensures failures == old(failures) + if ok then 0 else 1
      ensures peers == if ok then old(peers)[key := vip] else old(peers)
    {
      ok := *;
      if ok {
        peers := peers[key := vip];
      } else {
        failures := failures + 1;
      }
    }

    method RemovePeer(key: Name) returns (ok: bool)
      modifies this`peers, this`failures
      ensures failures == old(failures) + if ok then 0 else 1
      ensures peers == if ok then old(peers) - {key} else old(peers)
    {
      ok := *;
      if ok {
        peers := peers - {key};
      } else {
        failures := failures + 1;
      }
    }

    method AddRule(vip: nat, table: nat) returns (ok: bool)
      modifies this`rules, this`failures
      ensures failures == old(failures) + if ok then 0 else 1
      ensures rules == if ok then old(rules) + {(vip, table)} else old(rules)
    {
      ok := *;
      if ok {
        rules := rules + {(vip, table)};
      } else {
        failures := failures + 1;
      }
    }

    method DelRule(vip: nat, table: nat) returns (ok: bool)
      modifies this`rules, this`failures
      ensures failures == old(failures) + if ok then 0 else 1
      ensures rules == if ok then old(rules) - {(vip, table)} else old(rules)
    {
      ok := *;
      if ok {
        rules := rules - {(vip, table)};
      } else {
        failures := failures + 1;
      }
    }

    method ReplaceRoute(vip: nat, device: nat) returns (ok: bool)
      modifies this`routes, this`failures
      ensures failures == old(failures) + if ok then 0 else 1
      ensures routes == if ok then old(routes)[vip := device] else old(routes)
    {
      ok := *;
      if ok {
        routes := routes[vip := device];
      } else {
        failures := failures + 1;
      }
    }

    method DelRoute(vip: nat) returns (ok: bool)
      modifies this`routes, this`failures
      ensures failures == old(failures) + if ok then 0 else 1
      ensures routes == if ok then old(routes) - {vip} else old(routes)
    {
      ok := *;
      if ok {
        routes := routes - {vip};
      } else {
        failures := failures + 1;
      }
    }

    /** Routes go with the device they lead to. */
    method CloseDevice(device: nat)
      modifies this`routes
      ensures routes == map v | v in old(routes) && old(routes)[v] != device :: old(routes)[v]
    {
      routes := map v | v in routes && routes[v] != device :: routes[v];
    }

    /** Whether some other step of setting a device or table up succeeds. */
    method Try() returns (ok: bool)
      modifies this`failures
      ensures failures == old(failures) + if ok then 0 else 1
    {
      ok := *;
      if !ok {
        failures := failures + 1;
      }
    }
  }

  // -------------------------------------------------------------------- bookkeeping

  /** Everything tracked is on the host. */
  ghost predicate PeersTracked(peers: map<Name, nat>, host: map<Name, nat>, decodes: Name -> bool) {
    forall k :: k in peers ==> decodes(k) && k in host && host[k] == peers[k]
  }

  /** Every key is one. */
  ghost predicate AllDecode(peers: map<Name, nat>, decodes: Name -> bool) {
    forall k :: k in peers ==> decodes(k)
  }

  /** Every gateway's number is its own. */
  ghost predicate Numbered(index: map<Name, nat>, next: nat) {
    && (forall g :: g in index ==> index[g] < next)
    && (forall g, h :: g in index && h in index && index[g] == index[h] ==> g == h)
  }

  ghost predicate RulesTracked(forward: map<nat, Name>, index: map<Name, nat>, rules: set<(nat, nat)>) {
    forall v :: v in forward ==> forward[v] != NONAME && forward[v] in index && (v, index[forward[v]]) in rules
  }

  ghost predicate RouteIn(v: nat, id: Name, index: map<Name, nat>, routes: map<nat, nat>) {
    id in index && v in routes && routes[v] == index[id]
  }

  ghost predicate RoutesTracked(ret: map<nat, Name>, up: set<Name>, index: map<Name, nat>, routes: map<nat, nat>) {
    forall v :: v in ret ==> ret[v] != NONAME && ret[v] in up && RouteIn(v, ret[v], index, routes)
  }

  /** Tracked routes are in place, except those through a backbone that is gone. */
  ghost predicate RoutesLeft(ret: map<nat, Name>, up: set<Name>, index: map<Name, nat>, routes: map<nat, nat>) {
    forall v :: v in ret ==> ret[v] != NONAME && (ret[v] in up ==> RouteIn(v, ret[v], index, routes))
  }

  /** The value under a key, the empty name when there is none. */
  function Lookup(m: map<nat, Name>, v: nat): Name {
    if v in m then m[v] else NONAME
  }

  ghost predicate Named(m: map<nat, Name>) {
    forall v :: v in m ==> m[v] != NONAME
  }

  ghost predicate Into(m: map<nat, Name>, ids: set<Name>) {
    forall v :: v in m ==> m[v] in ids
  }

  /** A route that is to stay leads through a backbone that is up. */
  ghost predicate Stays(ret: map<nat, Name>, want: map<nat, Name>, up: set<Name>) {
    forall v :: v in ret && v in want && ret[v] == want[v] ==> ret[v] in up
  }

  /** `now` keeps every number `was` gave. */
  ghost predicate Extends(was: map<Name, nat>, now: map<Name, nat>) {
    forall g :: g in was ==> g in now && now[g] == was[g]
  }

  // -------------------------------------------------------------------- leftovers

  /** The host entries that are not tracked. */
  datatype Extras = Extras(peers: map<Name, nat>, rules: set<(nat, nat)>, routes: map<nat, nat>)

  const NOTHING := Extras(map[], {}, map[])

  /** The rules of what is forwarded. */
  function RulesOf(forward: map<nat, Name>, index: map<Name, nat>): set<(nat, nat)> {
    set v | v in forward && forward[v] in index :: (v, index[forward[v]])
  }

  /** What is tracked and not wanted as it is. */
  ghost function Unwanted<K, V>(tracked: map<K, V>, want: map<K, V>): map<K, V> {
    map k | k in tracked && !(k in want && want[k] == tracked[k]) :: tracked[k]
  }

  /** Every entry is one of `a` or one of `b`. */
  ghost predicate From<K, V>(now: map<K, V>, a: map<K, V>, b: map<K, V>) {
    forall k :: k in now ==> (k in a && now[k] == a[k]) || (k in b && now[k] == b[k])
  }

  /** Every entry of `a` is one of `b`. */
  ghost predicate Part<K, V>(a: map<K, V>, b: map<K, V>) {
    forall k :: k in a ==> k in b && a[k] == b[k]
  }

  /** Off these keys, `a` is as `b`. */
  ghost predicate SameOff<K(!new), V>(a: map<K, V>, b: map<K, V>, keys: set<K>) {
    forall k :: k !in keys ==> (k in a <==> k in b) && (k in a ==> a[k] == b[k])
  }

  ghost predicate SameSetOff<K(!new)>(a: set<K>, b: set<K>, keys: set<K>) {
    forall k :: k !in keys ==> (k in a <==> k in b)
  }

  /** The entries of these keys. */
  ghost function Restrict<K, V>(m: map<K, V>, keys: set<K>): map<K, V> {
    map k | k in m && k in keys :: m[k]
  }

  /** From `host0` only what is tracked no longer was taken, and that was to go; unless something
      failed, all of it was taken. */
  ghost predicate Shrunk<K(!new)>(host: set<K>, host0: set<K>, tracked: set<K>, tracked0: set<K>, togo: set<K>,
                                  failed: bool)
  {
    && tracked <= tracked0 && host <= host0
    && (forall k :: k in host0 && k !in host ==> k in tracked0 && k !in tracked)
    && (forall k :: k in tracked0 && k !in tracked ==> k in togo && (failed || k !in host))
  }

  function Devices(ids: set<Name>, index: map<Name, nat>): set<nat> {
    set id | id in ids && id in index :: index[id]
  }

  /** The routes left once the devices are closed. */
  function Surviving(routes: map<nat, nat>, closed: set<nat>): map<nat, nat> {
    map v | v in routes && routes[v] !in closed :: routes[v]
  }

  /** What is left over was so before, or was to go. */
  ghost predicate LeftOver(now: Extras, was: Extras, unwanted: Extras) {
    && From(now.peers, was.peers, unwanted.peers)
    && now.rules <= was.rules + unwanted.rules
    && From(now.routes, was.routes, unwanted.routes)
  }

  /** What stays left over when nothing fails: all but what the plan has a use for, and what goes
      with the closed devices. */
  function Remaining(was: Extras, p: Plan, index: map<Name, nat>, closed: set<nat>): Extras {
    Extras(was.peers - p.peers.Keys, was.rules - RulesOf(p.forward, index), Surviving(was.routes, closed) - p.back.Keys)
  }

  class Agent {
    const host: Host
    const decodes: Name -> bool
    var peers: map<Name, nat>
    var forward: map<nat, Name>
    var ret: map<nat, Name>
    var backbones: set<Name>
    var index: map<Name, nat>
    var nextIndex: nat

    constructor (host: Host, decodes: Name -> bool)
      requires host.peers == map[] && host.rules == {} && host.routes == map[]
      ensures this.host == host && this.decodes == decodes && Tracked() && Exact()
      ensures peers == map[] && forward == map[] && ret == map[]
    {
      this.host, this.decodes := host, decodes;
      peers, forward, ret, backbones, index, nextIndex := map[], map[], map[], {}, map[], 1;
    }

    /** Holds whatever has failed so far. */
    ghost predicate Tracked()
      reads this, host
    {
      && Numbered(index, nextIndex) && backbones <= index.Keys
      && PeersTracked(peers, host.peers, decodes)
      && RulesTracked(forward, index, host.rules)
      && RoutesTracked(ret, backbones, index, host.routes)
    }

    ghost function Extra(): Extras
      reads this, host
    {
      Extras(host.peers - peers.Keys, host.rules - RulesOf(forward, index), host.routes - ret.Keys)
    }

    /** The host has nothing that is not tracked. */
    ghost predicate Exact()
      reads this, host
    {
      Extra() == NOTHING
    }

    /** A peer left over was so before, or could not be removed; with no error the only ones left
        over are those of before that are not wanted now. */
    method SyncPeers(want: map<Name, nat>) returns (failed: bool)
      requires PeersTracked(peers, host.peers, decodes)
      modifies this`peers, host`peers, host`failures
      ensures PeersTracked(peers, host.peers, decodes)
      ensures From(host.peers - peers.Keys, old(host.peers - peers.Keys),
                   Restrict(old(host.peers), Unwanted(old(peers), want).Keys))
      ensures !failed ==> host.peers - peers.Keys == old(host.peers - peers.Keys) - want.Keys
      ensures !failed ==> peers == want
      ensures host.failures >= old(host.failures)
              && (failed <==> host.failures > old(host.failures) || !AllDecode(want, decodes))
    {
      var badDrop := DropPeers(want);
      ghost var was, tracked := host.peers, peers.Keys;
      ShrunkLeaves(was, old(host.peers), tracked, old(peers).Keys, Unwanted(old(peers), want).Keys, badDrop);
      var badAdd := AddPeers(want);
      ExtraOff(host.peers, was, peers.Keys, tracked);
      return badDrop || badAdd;
    }

    method AddPeers(want: map<Name, nat>) returns (failed: bool)
      requires PeersTracked(peers, host.peers, decodes) && Part(peers, want)
      modifies this`peers, host`peers, host`failures
      ensures PeersTracked(peers, host.peers, decodes) && (!failed ==> peers == want)
      ensures old(peers).Keys <= peers.Keys && SameOff(host.peers, old(host.peers), peers.Keys)
      ensures host.failures >= old(host.failures)
              && (failed <==> host.failures > old(host.failures) || !AllDecode(want, decodes))
    {
      failed := false;
      var todo := want.Keys;
      while todo != {}
        invariant todo <= want.Keys && PeersTracked(peers, host.peers, decodes) && Part(peers, want)
        invariant !failed ==> forall k :: k in want ==> k in peers || k in todo
        invariant old(peers).Keys <= peers.Keys && SameOff(host.peers, old(host.peers), peers.Keys)
        invariant host.failures >= old(host.failures)
                  && (failed <==>
                        host.failures > old(host.failures) || exists k :: k in want && k !in todo && !decodes(k))
        decreases |todo|
      {
        var key :| key in todo;
        todo := todo - {key};
        if key in peers {
          continue;
        }
        var bad := AddPeer(key, want[key]);
        failed := failed || bad;
      }
    }

    method AddPeer(key: Name, vip: nat) returns (failed: bool)
      requires PeersTracked(peers, host.peers, decodes) && key !in peers
      modifies this`peers, host`peers, host`failures
      ensures PeersTracked(peers, host.peers, decodes)
      ensures peers == if failed then old(peers) else old(peers)[key := vip]
      ensures old(peers).Keys <= peers.Keys && SameOff(host.peers, old(host.peers), peers.Keys)
      ensures host.failures >= old(host.failures) && (failed <==> host.failures > old(host.failures) || !decodes(key))
    {
      if !decodes(key) {
        return true;
      }
      var ok := host.AddPeer(key, vip);
      if !ok {
        return true;
      }
      peers := peers[key := vip];
      return false;
    }

    method DropPeers(want: map<Name, nat>) returns (failed: bool)
      requires PeersTracked(peers, host.peers, decodes)
      modifies this`peers, host`peers, host`failures
      ensures PeersTracked(peers, host.peers, decodes) && Part(peers, want) && Part(host.peers, old(host.peers))
      ensures Shrunk(host.peers.Keys, old(host.peers).Keys, peers.Keys, old(peers).Keys,
                     Unwanted(old(peers), want).Keys, failed)
      ensures host.failures >= old(host.failures) && (failed <==> host.failures > old(host.failures))
    {
      failed := false;
      var todo := peers.Keys;
      while todo != {}
        invariant todo <= peers.Keys && PeersTracked(peers, host.peers, decodes)
        invariant Part(peers, old(peers)) && Part(host.peers, old(host.peers))
        invariant forall k :: k in peers && k !in todo ==> k in want && peers[k] == want[k]
        invariant Shrunk(host.peers.Keys, old(host.peers).Keys, peers.Keys, old(peers).Keys,
                         Unwanted(old(peers), want).Keys, failed)
        invariant host.failures >= old(host.failures) && (failed <==> host.failures > old(host.failures))
        decreases |todo|
      {
        var key :| key in todo;
        todo := todo - {key};
        if key in want && want[key] == peers[key] {
          continue;
        }
        if decodes(key) {
          var ok := host.RemovePeer(key);
          if !ok {
            failed := true;
          }
        }
        peers := peers - {key};
      }
    }

    /** Gateway id's number, a new one on first use; its table is set up then. */
    method IndexOf(id: Name) returns (n: nat, ok: bool)
      requires Numbered(index, nextIndex)
      modifies this`index, this`nextIndex, host`failures
      ensures Numbered(index, nextIndex) && Extends(old(index), index) && id in index && index[id] == n
      ensures forall g :: g in index ==> g in old(index) || g == id
      ensures host.failures >= old(host.failures) && (ok <==> host.failures == old(host.failures))
    {
      if id in index {
        return index[id], true;
      }
      n := nextIndex;
      nextIndex := nextIndex + 1;
      index := index[id := n];
      ok := host.Try();
    }

    /** The same for rules. */
    method SyncForward(want: map<nat, Name>) returns (failed: bool)
      requires Numbered(index, nextIndex) && RulesTracked(forward, index, host.rules) && Named(want)
      modifies this`forward, this`index, this`nextIndex, host`rules, host`failures
      ensures Numbered(index, nextIndex) && Extends(old(index), index) && RulesTracked(forward, index, host.rules)
      ensures host.rules - RulesOf(forward, index)
              <= old(host.rules - RulesOf(forward, index)) + RulesOf(Unwanted(old(forward), want), old(index))
      ensures !failed ==>
                host.rules - RulesOf(forward, index) == old(host.rules - RulesOf(forward, index)) - RulesOf(want, index)
      ensures !failed ==> forward == want
      ensures host.failures >= old(host.failures) && (failed <==> host.failures > old(host.failures))
    {
      var badDrop := DropRules(want);
      var badAdd := AddRules(want);
      return badDrop || badAdd;
    }

    method AddRules(want: map<nat, Name>) returns (failed: bool)
      requires Numbered(index, nextIndex) && RulesTracked(forward, index, host.rules) && Named(want)
               && Part(forward, want)
      modifies this`forward, this`index, this`nextIndex, host`rules, host`failures
      ensures Numbered(index, nextIndex) && Extends(old(index), index) && RulesTracked(forward, index, host.rules)
      ensures !failed ==> forward == want
      ensures old(RulesOf(forward, index)) <= RulesOf(forward, index)
      ensures SameSetOff(host.rules, old(host.rules), RulesOf(forward, index))
      ensures host.failures >= old(host.failures) && (failed <==> host.failures > old(host.failures))
    {
      failed := false;
      var todo := want.Keys;
      while todo != {}
        invariant todo <= want.Keys && RulesTracked(forward, index, host.rules) && Part(forward, want)
        invariant Numbered(index, nextIndex) && Extends(old(index), index)
        invariant !failed ==> forall v :: v in want ==> v in forward || v in todo
        invariant old(RulesOf(forward, index)) <= RulesOf(forward, index)
        invariant SameSetOff(host.rules, old(host.rules), RulesOf(forward, index))
        invariant host.failures >= old(host.failures) && (failed <==> host.failures > old(host.failures))
        decreases |todo|
      {
        var v :| v in todo;
        todo := todo - {v};
        if v in forward {
          continue;
        }
        var bad := AddForward(v, want[v]);
        failed := failed || bad;
      }
    }

    method AddForward(v: nat, egress: Name) returns (failed: bool)
      requires Numbered(index, nextIndex) && RulesTracked(forward, index, host.rules) && v !in forward
               && egress != NONAME
      modifies this`forward, this`index, this`nextIndex, host`rules, host`failures
      ensures Numbered(index, nextIndex) && Extends(old(index), index) && RulesTracked(forward, index, host.rules)
      ensures forward == if failed then old(forward) else old(forward)[v := egress]
      ensures old(RulesOf(forward, index)) <= RulesOf(forward, index)
      ensures SameSetOff(host.rules, old(host.rules), RulesOf(forward, index))
      ensures host.failures >= old(host.failures) && (failed <==> host.failures > old(host.failures))
    {
      var n, ok := IndexOf(egress);
      RulesRenumbered(forward, old(index), index, host.rules);
      if !ok {
        return true;
      }
      ok := host.AddRule(v, n);
      if !ok {
        return true;
      }
      RulesNext(forward, v, egress, index);
      forward := forward[v := egress];
      return false;
    }

    method DropRules(want: map<nat, Name>) returns (failed: bool)
      requires RulesTracked(forward, index, host.rules)
      modifies this`forward, host`rules, host`failures
      ensures RulesTracked(forward, index, host.rules) && Part(forward, want)
      ensures Shrunk(host.rules, old(host.rules), RulesOf(forward, index), RulesOf(old(forward), index),
                     RulesOf(Unwanted(old(forward), want), index), failed)
      ensures host.failures >= old(host.failures) && (failed <==> host.failures > old(host.failures))
    {
      failed := false;
      var todo := forward.Keys;
      while todo != {}
        invariant todo <= forward.Keys && RulesTracked(forward, index, host.rules) && Part(forward, old(forward))
        invariant forall v :: v in forward && v !in todo ==> v in want && forward[v] == want[v]
        invariant Shrunk(host.rules, old(host.rules), RulesOf(forward, index), RulesOf(old(forward), index),
                         RulesOf(Unwanted(old(forward), want), index), failed)
        invariant host.failures >= old(host.failures) && (failed <==> host.failures > old(host.failures))
        decreases |todo|
      {
        var v :| v in todo;
        todo := todo - {v};
        if Lookup(want, v) == forward[v] {
          continue;
        }
        ghost var was, before, rule := host.rules, forward, (v, index[forward[v]]);
        RulesWithout(forward, v, index);
        UnwantedRule(old(forward), want, v, index);
        var bad := DropRule(v);
        ShrunkNext(was, host.rules, old(host.rules), RulesOf(before, index), RulesOf(old(forward), index), rule,
                   RulesOf(Unwanted(old(forward), want), index), failed, bad);
        failed := failed || bad;
      }
    }

    method DropRule(v: nat) returns (failed: bool)
      requires v in forward && RulesTracked(forward, index, host.rules)
      modifies this`forward, host`rules, host`failures
      ensures RulesTracked(forward, index, host.rules) && forward == old(forward) - {v}
      ensures host.rules == if failed then old(host.rules) else old(host.rules) - {(v, index[old(forward)[v]])}
      ensures host.failures >= old(host.failures) && (failed <==> host.failures > old(host.failures))
    {
      var ok := host.DelRule(v, index[forward[v]]);
      forward := forward - {v};
      return !ok;
    }

    method SyncBackbones(want: set<Name>) returns (failed: bool)
      requires Numbered(index, nextIndex) && backbones <= index.Keys
               && RoutesTracked(ret, backbones, index, host.routes)
      modifies this`backbones, this`index, this`nextIndex, host`routes, host`failures
      ensures Numbered(index, nextIndex) && Extends(old(index), index) && backbones <= index.Keys
      ensures old(backbones) * want <= backbones <= want && (!failed ==> backbones == want)
      ensures RoutesLeft(ret, backbones, index, host.routes)
      ensures host.routes == Surviving(old(host.routes), Devices(old(backbones) - want, old(index)))
      ensures host.failures >= old(host.failures) && (failed <==> host.failures > old(host.failures))
    {
      CloseBackbones(want);
      ghost var kept := backbones;
      failed := OpenBackbones(want);
      StillLeft(ret, old(backbones), kept, backbones, old(index), index, host.routes);
    }

    method OpenBackbones(want: set<Name>) returns (failed: bool)
      requires Numbered(index, nextIndex) && backbones <= index.Keys && backbones <= want
      modifies this`backbones, this`index, this`nextIndex, host`failures
      ensures Numbered(index, nextIndex) && Extends(old(index), index) && backbones <= index.Keys
      ensures old(backbones) <= backbones <= want && (!failed ==> backbones == want)
      ensures host.failures >= old(host.failures) && (failed <==> host.failures > old(host.failures))
    {
      failed := false;
      var todo := want;
      while todo != {}
        invariant Numbered(index, nextIndex) && Extends(old(index), index) && backbones <= index.Keys
        invariant old(backbones) <= backbones <= want && todo <= want && (!failed ==> want - todo <= backbones)
        invariant host.failures >= old(host.failures) && (failed <==> host.failures > old(host.failures))
        decreases |todo|
      {
        var id :| id in todo;
        todo := todo - {id};
        var ok := OpenOne(id);
        failed := failed || !ok;
      }
    }

    /** Opens the backbone to a gateway, unless it is open, and sets its peer. */
    method OpenOne(id: Name) returns (ok: bool)
      requires Numbered(index, nextIndex) && backbones <= index.Keys
      modifies this`backbones, this`index, this`nextIndex, host`failures
      ensures Numbered(index, nextIndex) && Extends(old(index), index) && backbones <= index.Keys
      ensures old(backbones) <= backbones <= old(backbones) + {id} && (ok ==> id in backbones)
      ensures host.failures >= old(host.failures) && (ok <==> host.failures == old(host.failures))
    {
      if id !in backbones {
        var _, numbered := IndexOf(id);
        if !numbered {
          return false;
        }
        ok := host.Try();
        if !ok {
          return false;
        }
        backbones := backbones + {id};
      }
      ok := host.Try();
    }

    method CloseBackbones(want: set<Name>)
      requires Numbered(index, nextIndex) && backbones <= index.Keys
               && RoutesTracked(ret, backbones, index, host.routes)
      modifies this`backbones, host`routes
      ensures backbones == old(backbones) * want && RoutesLeft(ret, backbones, index, host.routes)
      ensures host.routes == Surviving(old(host.routes), Devices(old(backbones) - want, index))
    {
      var todo := backbones;
      while todo != {}
        invariant todo <= backbones <= old(backbones) && backbones * want == old(backbones) * want
                  && backbones - todo <= want
        invariant RoutesLeft(ret, backbones, index, host.routes)
        invariant host.routes == Surviving(old(host.routes), Devices(old(backbones) - backbones, index))
        decreases |todo|
      {
        var id :| id in todo;
        todo := todo - {id};
        if id !in want {
          host.CloseDevice(index[id]);
          DevicesNext(old(backbones), backbones, id, index);
          backbones := backbones - {id};
        }
      }
      assert backbones == backbones * want;
      assert old(backbones) - backbones == old(backbones) - want;
    }

    /** The same for routes. */
    method SyncReturn(want: map<nat, Name>) returns (failed: bool)
      requires RoutesLeft(ret, backbones, index, host.routes) && Named(want) && backbones <= index.Keys
      requires Stays(ret, want, backbones)
      modifies this`ret, host`routes, host`failures
      ensures RoutesTracked(ret, backbones, index, host.routes)
      ensures From(host.routes - ret.Keys, old(host.routes - ret.Keys),
                   Restrict(old(host.routes), Unwanted(old(ret), want).Keys))
      ensures !failed && Into(want, backbones) ==> host.routes - ret.Keys == old(host.routes - ret.Keys) - want.Keys
      ensures !failed && Into(want, backbones) ==> ret == want
      ensures host.failures >= old(host.failures) && (failed <==> host.failures > old(host.failures))
    {
      var badDrop := DropRoutes(want);
      ghost var was, tracked := host.routes, ret.Keys;
      ShrunkLeaves(was, old(host.routes), tracked, old(ret).Keys, Unwanted(old(ret), want).Keys, badDrop);
      var badAdd := AddRoutes(want);
      ExtraOff(host.routes, was, ret.Keys, tracked);
      return badDrop || badAdd;
    }

    method AddRoutes(want: map<nat, Name>) returns (failed: bool)
      requires RoutesTracked(ret, backbones, index, host.routes) && Named(want) && backbones <= index.Keys
               && Part(ret, want)
      modifies this`ret, host`routes, host`failures
      ensures RoutesTracked(ret, backbones, index, host.routes)
      ensures !failed && Into(want, backbones) ==> ret == want
      ensures old(ret).Keys <= ret.Keys && SameOff(host.routes, old(host.routes), ret.Keys)
      ensures host.failures >= old(host.failures) && (failed <==> host.failures > old(host.failures))
    {
      failed := false;
      var todo := want.Keys;
      while todo != {}
        invariant todo <= want.Keys && RoutesTracked(ret, backbones, index, host.routes) && Part(ret, want)
        invariant !failed && Into(want, backbones) ==> forall v :: v in want ==> v in ret || v in todo
        invariant old(ret).Keys <= ret.Keys && SameOff(host.routes, old(host.routes), ret.Keys)
        invariant host.failures >= old(host.failures) && (failed <==> host.failures > old(host.failures))
        decreases |todo|
      {
        var v :| v in todo;
        todo := todo - {v};
        if v in ret {
          continue;
        }
        var bad := AddReturn(v, want[v]);
        failed := failed || bad;
      }
    }

    /** Without a backbone to lead through, a route is left out and no error reported. */
    method AddReturn(v: nat, access: Name) returns (failed: bool)
      requires RoutesTracked(ret, backbones, index, host.routes) && backbones <= index.Keys && v !in ret
               && access != NONAME
      modifies this`ret, host`routes, host`failures
      ensures RoutesTracked(ret, backbones, index, host.routes)
      ensures ret == if failed || access !in backbones then old(ret) else old(ret)[v := access]
      ensures old(ret).Keys <= ret.Keys && SameOff(host.routes, old(host.routes), ret.Keys)
      ensures host.failures >= old(host.failures) && (failed <==> host.failures > old(host.failures))
    {
      if access !in backbones {
        return false;
      }
      var ok := host.ReplaceRoute(v, index[access]);
      if !ok {
        return true;
      }
      ret := ret[v := access];
      return false;
    }

    method DropRoutes(want: map<nat, Name>) returns (failed: bool)
      requires RoutesLeft(ret, backbones, index, host.routes)
      requires Stays(ret, want, backbones)
      modifies this`ret, host`routes, host`failures
      ensures RoutesTracked(ret, backbones, index, host.routes) && Part(ret, want)
              && Part(host.routes, old(host.routes))
      ensures Shrunk(host.routes.Keys, old(host.routes).Keys, ret.Keys, old(ret).Keys, Unwanted(old(ret), want).Keys,
                     failed)
      ensures host.failures >= old(host.failures) && (failed <==> host.failures > old(host.failures))
    {
      failed := false;
      var todo := ret.Keys;
      while todo != {}
        invariant todo <= ret.Keys && RoutesLeft(ret, backbones, index, host.routes)
        invariant Part(ret, old(ret)) && Part(host.routes, old(host.routes))
        invariant forall v :: v in ret && v !in todo ==> v in want && ret[v] == want[v]
        invariant Shrunk(host.routes.Keys, old(host.routes).Keys, ret.Keys, old(ret).Keys,
                         Unwanted(old(ret), want).Keys, failed)
        invariant host.failures >= old(host.failures) && (failed <==> host.failures > old(host.failures))
        decreases |todo|
      {
        var v :| v in todo;
        todo := todo - {v};
        if Lookup(want, v) == ret[v] {
          continue;
        }
        ghost var was, before := host.routes, ret;
        var bad := DropRoute(v);
        ShrunkNext(was.Keys, host.routes.Keys, old(host.routes).Keys, before.Keys, old(ret).Keys, v,
                   Unwanted(old(ret), want).Keys, failed, bad);
        failed := failed || bad;
      }
    }

    /** The route is no longer tracked, whether it is gone or not. */
    method DropRoute(v: nat) returns (failed: bool)
      requires v in ret && RoutesLeft(ret, backbones, index, host.routes)
      modifies this`ret, host`routes, host`failures
      ensures RoutesLeft(ret, backbones, index, host.routes)
      ensures ret == old(ret) - {v} && host.routes == if failed then old(host.routes) else old(host.routes) - {v}
      ensures host.failures >= old(host.failures) && (failed <==> host.failures > old(host.failures))
    {
      var ok := host.DelRoute(v);
      ret := ret - {v};
      return !ok;
    }

    /** Between the backbones and the routes. */
    ghost predicate Between(p: Plan)
      reads this, host
    {
      && Numbered(index, nextIndex) && backbones <= index.Keys
      && PeersTracked(peers, host.peers, decodes)
      && RulesTracked(forward, index, host.rules)
      && RoutesLeft(ret, backbones, index, host.routes) && Stays(ret, p.back, backbones)
    }

    method ApplyLinks(p: Plan) returns (failed: bool)
      requires Tracked() && Into(p.back, p.backbones.Keys)
      modifies this`peers, this`backbones, this`index, this`nextIndex, host`peers, host`routes, host`failures
      ensures Between(p) && Extends(old(index), index)
      ensures !failed ==> peers == p.peers && backbones == p.backbones.Keys
      ensures RulesOf(forward, index) == old(RulesOf(forward, index))
      ensures RulesOf(Unwanted(forward, p.forward), index) == old(RulesOf(Unwanted(forward, p.forward), index))
      ensures host.routes == Surviving(old(host.routes), Devices(old(backbones) - p.backbones.Keys, old(index)))
      ensures From(host.peers - peers.Keys, old(host.peers - peers.Keys),
                   Restrict(old(host.peers), Unwanted(old(peers), p.peers).Keys))
      ensures !failed ==> host.peers - peers.Keys == old(host.peers - peers.Keys) - p.peers.Keys
      ensures host.failures >= old(host.failures)
              && (failed <==> host.failures > old(host.failures) || !AllDecode(p.peers, decodes))
    {
      var badBackbone := SyncBackbones(p.backbones.Keys);
      RulesRenumbered(forward, old(index), index, host.rules);
      RulesRenumbered(Unwanted(forward, p.forward), old(index), index, host.rules);
      var badPeer := SyncPeers(p.peers);
      return badBackbone || badPeer;
    }

    method ApplyRoutes(p: Plan) returns (failed: bool)
      requires Between(p) && Named(p.forward) && Named(p.back)
      modifies this`forward, this`ret, this`index, this`nextIndex, host`rules, host`routes, host`failures
      ensures Tracked()
      ensures !failed ==> forward == p.forward && (Into(p.back, backbones) ==> ret == p.back)
      ensures Extra().rules <= old(Extra()).rules + RulesOf(Unwanted(old(forward), p.forward), old(index))
      ensures From(Extra().routes, old(Extra()).routes, Restrict(old(host.routes), Unwanted(old(ret), p.back).Keys))
      ensures !failed && Into(p.back, backbones) ==>
                && Extra().rules == old(Extra()).rules - RulesOf(p.forward, index)
                && Extra().routes == old(Extra()).routes - p.back.Keys
      ensures host.failures >= old(host.failures) && (failed <==> host.failures > old(host.failures))
    {
      var badRule := SyncForward(p.forward);
      RoutesRenumbered(ret, backbones, old(index), index, host.routes);
      var badRoute := SyncReturn(p.back);
      return badRule || badRoute;
    }

    /** What is tracked and the plan does not want. */
    ghost function ToGo(p: Plan): Extras
      reads this, host
    {
      Extras(Restrict(host.peers, Unwanted(peers, p.peers).Keys), RulesOf(Unwanted(forward, p.forward), index),
             Restrict(host.routes, Unwanted(ret, p.back).Keys))
    }

    /** What is tracked is on the host, whatever fails, and the rest of the host was not tracked
        before either or was to go. When nothing fails, what is tracked is the plan, and the rest
        is what was not tracked before, short of what the plan uses or a closed backbone carried;
        so if the host had nothing else it has nothing else. */
    method Apply(p: Plan) returns (failed: bool)
      requires Tracked() && Named(p.forward) && Named(p.back) && Into(p.back, p.backbones.Keys)
      modifies this, host
      ensures Tracked() && LeftOver(Extra(), old(Extra()), old(ToGo(p)))
      ensures !failed ==> peers == p.peers && forward == p.forward && ret == p.back && backbones == p.backbones.Keys
      ensures !failed ==>
                Extra() == Remaining(old(Extra()), p, index, Devices(old(backbones) - p.backbones.Keys, old(index)))
      ensures !failed && old(Exact()) ==> Exact()
      ensures host.failures >= old(host.failures)
              && (failed <==> host.failures > old(host.failures) || !AllDecode(p.peers, decodes))
    {
      var badLink := ApplyLinks(p);
      ghost var closed := Devices(old(backbones) - p.backbones.Keys, old(index));
      ExtraSurvives(old(host.routes), ret, Unwanted(ret, p.back).Keys, closed);
      var badRoute := ApplyRoutes(p);
      return badLink || badRoute;
    }

    /** The host is configured as the plan says, and in no other way. */
    ghost predicate HostIs(p: Plan)
      reads this, host
    {
      && host.peers == p.peers
      && (forall v, n :: (v, n) in host.rules <==> v in p.forward && p.forward[v] in index && index[p.forward[v]] == n)
      && (forall v :: v in host.routes <==> v in p.back)
      && (forall v :: v in p.back ==> RouteIn(v, p.back[v], index, host.routes))
    }

    /** Acts on a state the controller reported. */
    method Reconfigure(me: Name, roles: Roles, st: State) returns (failed: bool)
      requires Tracked() && NONAME !in Ids(st.gateways)
      modifies this, host
      ensures Tracked()
      ensures !failed && old(Exact()) ==>
                Exact() && HostIs(PlanFor(me, roles, Ids(st.gateways), BackbonesFor(me, st.gateways), st.sessions))
      ensures failed ==>
                || host.failures > old(host.failures)
                || !AllDecode(PlanFor(me, roles, Ids(st.gateways), BackbonesFor(me, st.gateways), st.sessions).peers,
                              decodes)
    {
      var p := MakePlan(me, roles, st);
      HopsAreBackbones(me, roles, st.gateways, st.sessions);
      HopsAreKnown(me, roles, Ids(st.gateways), BackbonesFor(me, st.gateways), st.sessions);
      failed := Apply(p);
      if !failed && old(Exact()) {
        NothingElse(p);
      }
    }

    lemma NothingElse(p: Plan)
      requires Tracked() && Exact() && peers == p.peers && forward == p.forward && ret == p.back
      ensures HostIs(p)
    {
      forall r | r in host.rules ensures r in RulesOf(forward, index) {
        assert r !in host.rules - RulesOf(forward, index);
      }
      forall k | k in host.peers ensures k in peers {
        assert k !in host.peers - peers.Keys;
      }
      forall v | v in host.routes ensures v in ret {
        assert v !in host.routes - ret.Keys;
      }
    }
  }

  /** Backbones opened since carry no tracked route. */
  lemma StillLeft(ret: map<nat, Name>, was: set<Name>, kept: set<Name>, up: set<Name>,
                  before: map<Name, nat>, now: map<Name, nat>, routes: map<nat, nat>)
    requires Extends(before, now) && RoutesLeft(ret, kept, before, routes) && Into(ret, was) && was * up <= kept
    ensures RoutesLeft(ret, up, now, routes)
  {
  }

  lemma RoutesRenumbered(ret: map<nat, Name>, up: set<Name>, was: map<Name, nat>, now: map<Name, nat>,
                         routes: map<nat, nat>)
    requires Extends(was, now) && RoutesLeft(ret, up, was, routes)
    ensures RoutesLeft(ret, up, now, routes)
  {
  }

  lemma RulesRenumbered(forward: map<nat, Name>, was: map<Name, nat>, now: map<Name, nat>, rules: set<(nat, nat)>)
    requires Extends(was, now) && RulesTracked(forward, was, rules)
    ensures RulesTracked(forward, now, rules) && RulesOf(forward, now) == RulesOf(forward, was)
  {
  }

  lemma RulesNext(forward: map<nat, Name>, v: nat, egress: Name, index: map<Name, nat>)
    requires v !in forward && egress in index
    ensures RulesOf(forward[v := egress], index) == RulesOf(forward, index) + {(v, index[egress])}
  {
    var next := forward[v := egress];
    assert v in next && (v, index[egress]) in RulesOf(next, index);
    forall r | r in RulesOf(forward, index) ensures r in RulesOf(next, index) {
      assert r.0 in next;
    }
  }

  lemma RulesWithout(forward: map<nat, Name>, v: nat, index: map<Name, nat>)
    requires v in forward && forward[v] in index
    ensures RulesOf(forward - {v}, index) == RulesOf(forward, index) - {(v, index[forward[v]])}
    ensures (v, index[forward[v]]) in RulesOf(forward, index)
  {
    var rest := forward - {v};
    forall r | r in RulesOf(forward, index) && r.0 != v ensures r in RulesOf(rest, index) {
      assert r.0 in rest;
    }
  }

  lemma UnwantedRule(forward: map<nat, Name>, want: map<nat, Name>, v: nat, index: map<Name, nat>)
    requires v in Unwanted(forward, want) && forward[v] in index
    ensures (v, index[forward[v]]) in RulesOf(Unwanted(forward, want), index)
  {
  }

  lemma DevicesNext(all: set<Name>, up: set<Name>, id: Name, index: map<Name, nat>)
    requires id in up && up <= all <= index.Keys
    ensures Devices(all - (up - {id}), index) == Devices(all - up, index) + {index[id]}
  {
    assert all - (up - {id}) == (all - up) + {id};
  }

  lemma ExtraOff<K(!new), V>(now: map<K, V>, was: map<K, V>, tracked: set<K>, before: set<K>)
    requires before <= tracked && SameOff(now, was, tracked)
    ensures now - tracked == was - before - tracked
  {
  }

  lemma ShrunkNext<K(!new)>(was: set<K>, now: set<K>, host0: set<K>, tracked: set<K>, tracked0: set<K>, k: K,
                            togo: set<K>,
                            failed: bool, bad: bool)
    requires Shrunk(was, host0, tracked, tracked0, togo, failed) && k in tracked && k in togo
    requires now == if bad then was else was - {k}
    ensures Shrunk(now, host0, tracked - {k}, tracked0, togo, failed || bad)
  {
  }

  lemma ShrunkLeaves<K(!new), V>(host: map<K, V>, host0: map<K, V>, tracked: set<K>, tracked0: set<K>, togo: set<K>,
                                 failed: bool)
    requires Part(host, host0) && Shrunk(host.Keys, host0.Keys, tracked, tracked0, togo, failed)
    ensures From(host - tracked, host0 - tracked0, Restrict(host0, togo))
    ensures !failed ==> host - tracked == host0 - tracked0
  {
  }

  /** Closing devices takes nothing else from the host. */
  lemma ExtraSurvives(routes: map<nat, nat>, ret: map<nat, Name>, vips: set<nat>, closed: set<nat>)
    ensures Surviving(routes, closed) - ret.Keys == Surviving(routes - ret.Keys, closed)
    ensures From(Surviving(routes - ret.Keys, closed), routes - ret.Keys, map[])
    ensures From(Restrict(Surviving(routes, closed), vips), Restrict(routes, vips), map[])
  {
  }
}
