/** What a gateway should be configured with, computed from the state the controller reports. */
module GatewayPlan {
  import opened Ownership

  datatype Gateway = Gateway(id: Name, publicKey: Name, nodeIP: nat)

  datatype Session = Session(id: Name, publicKey: Name, virtualIP: nat, access: Name, egress: Name,
                             epoch: nat, ipsec: bool, psk: Name)

  datatype Roles = Roles(access: bool, egress: bool)

  datatype State = State(gateways: seq<Gateway>, sessions: seq<Session>)

  datatype Backbone = Backbone(publicKey: Name, nodeIP: nat)

  datatype IPsecClient = IPsecClient(virtualIP: nat, psk: Name)

  datatype SessionPath = SessionPath(virtualIP: nat, access: Name, egress: Name, epoch: nat)

  /** `forward` maps a virtual IP to the egress its traffic is forwarded to, `back` to the
      access its return traffic is sent back through. */
  datatype Plan = Plan(peers: map<Name, nat>, backbones: map<Name, Backbone>, forward: map<nat, Name>,
                       back: map<nat, Name>,
                       epochs: map<Name, nat>, accessSessions: nat, egressSessions: nat,
                       sessions: map<Name, SessionPath>,
                       ipsec: map<Name, IPsecClient>, ipsecHere: set<nat>)

  // -------------------------------------------------------------------- the plan

  function Ids(gateways: seq<Gateway>): set<Name> {
    set g | g in gateways :: g.id
  }

  /** The tunnels to the other gateways; of two with one ID the later counts. */
  function BackbonesFor(me: Name, gateways: seq<Gateway>): (b: map<Name, Backbone>)
    ensures b.Keys == Ids(gateways) - {me}
  {
    if gateways == [] then map[]
    else
      var g, rest := gateways[|gateways| - 1], gateways[..|gateways| - 1];
      IdsNext(rest, g);
      assert gateways == rest + [g];
      var b := BackbonesFor(me, rest);
      if g.id == me then b else b[g.id := Backbone(g.publicKey, g.nodeIP)]
  }

  lemma IdsNext(gateways: seq<Gateway>, g: Gateway)
    ensures Ids(gateways + [g]) == Ids(gateways) + {g.id}
  {
    assert g in gateways + [g];
    assert forall x :: x in gateways + [g] <==> x in gateways || x == g;
  }

  function WithForward(me: Name, roles: Roles, known: set<Name>, s: Session, forward: map<nat, Name>): map<nat, Name> {
    if roles.access && s.egress != me && s.egress in known then forward[s.virtualIP := s.egress] else forward
  }

  function WithReturn(me: Name, roles: Roles, known: set<Name>, s: Session, back: map<nat, Name>): map<nat, Name> {
    if roles.egress && s.egress == me && s.access != me && s.access in known then back[s.virtualIP := s.access]
    else back
  }

  function WithPeer(roles: Roles, s: Session, peers: map<Name, nat>): map<Name, nat> {
    if roles.access && !s.ipsec then peers[s.publicKey := s.virtualIP] else peers
  }

  function WithSession(me: Name, roles: Roles, known: set<Name>, s: Session, p: Plan): Plan {
    Plan(WithPeer(roles, s, p.peers),
         p.backbones,
         WithForward(me, roles, known, s, p.forward),
         WithReturn(me, roles, known, s, p.back),
         p.epochs[s.id := s.epoch],
         p.accessSessions + (if roles.access && s.access == me then 1 else 0),
         p.egressSessions + (if roles.egress && s.egress == me then 1 else 0),
         p.sessions[s.id := SessionPath(s.virtualIP, s.access, s.egress, s.epoch)],
         if roles.access && s.ipsec then p.ipsec[s.id := IPsecClient(s.virtualIP, s.psk)] else p.ipsec,
         if roles.access && s.ipsec && s.access == me then p.ipsecHere + {s.virtualIP} else p.ipsecHere)
  }

  function Empty(backbones: map<Name, Backbone>): Plan {
    Plan(map[], backbones, map[], map[], map[], 0, 0, map[], map[], {})
  }

  function PlanFor(me: Name, roles: Roles, known: set<Name>, backbones: map<Name, Backbone>,
                   sessions: seq<Session>): Plan
  {
    if sessions == [] then Empty(backbones)
    else WithSession(me, roles, known, sessions[|sessions| - 1],
                     PlanFor(me, roles, known, backbones, sessions[..|sessions| - 1]))
  }

  method MakePlan(me: Name, roles: Roles, st: State) returns (p: Plan)
    ensures p == PlanFor(me, roles, Ids(st.gateways), BackbonesFor(me, st.gateways), st.sessions)
  {
    var known, backbones := Gateways(me, st.gateways);
    p := Empty(backbones);
    for i := 0 to |st.sessions|
      invariant p == PlanFor(me, roles, known, backbones, st.sessions[..i])
    {
      assert st.sessions[..i + 1][..i] == st.sessions[..i];
      p := PlanSession(me, roles, known, st.sessions[i], p);
    }
    assert st.sessions[..|st.sessions|] == st.sessions;
  }

  method PlanSession(me: Name, roles: Roles, known: set<Name>, s: Session, before: Plan) returns (p: Plan)
    ensures p == WithSession(me, roles, known, s, before)
  {
    var accessSessions, egressSessions := CountSession(me, roles, s, before);
    var peers, forward, ipsec, ipsecHere := PlanAccess(me, roles, known, s, before);
    var back := PlanReturn(me, roles, known, s, before.back);
    p := Plan(peers, before.backbones, forward, back, before.epochs[s.id := s.epoch], accessSessions, egressSessions,
              before.sessions[s.id := SessionPath(s.virtualIP, s.access, s.egress, s.epoch)], ipsec, ipsecHere);
  }

  method CountSession(me: Name, roles: Roles, s: Session, before: Plan) returns (access: nat, egress: nat)
    ensures access == before.accessSessions + (if roles.access && s.access == me then 1 else 0)
    ensures egress == before.egressSessions + (if roles.egress && s.egress == me then 1 else 0)
  {
    access, egress := before.accessSessions, before.egressSessions;
    if roles.access && s.access == me {
      access := access + 1;
    }
    if roles.egress && s.egress == me {
      egress := egress + 1;
    }
  }

  method PlanReturn(me: Name, roles: Roles, known: set<Name>, s: Session, before: map<nat, Name>)
    returns (back: map<nat, Name>)
    ensures back == WithReturn(me, roles, known, s, before)
  {
    back := before;
    if roles.egress && s.egress == me && s.access != me && s.access in known {
      back := back[s.virtualIP := s.access];
    }
  }

  /** What a gateway that takes clients sets up for one. */
  method PlanAccess(me: Name, roles: Roles, known: set<Name>, s: Session, before: Plan)
    returns (peers: map<Name, nat>, forward: map<nat, Name>, ipsec: map<Name, IPsecClient>, ipsecHere: set<nat>)
    ensures peers == WithPeer(roles, s, before.peers)
    ensures forward == WithForward(me, roles, known, s, before.forward)
    ensures ipsec == if roles.access && s.ipsec then before.ipsec[s.id := IPsecClient(s.virtualIP, s.psk)]
            else before.ipsec
    ensures ipsecHere == if roles.access && s.ipsec && s.access == me then before.ipsecHere + {s.virtualIP}
            else before.ipsecHere
  {
    peers, forward, ipsec, ipsecHere := before.peers, before.forward, before.ipsec, before.ipsecHere;
    if roles.access {
      if s.ipsec {
        ipsec := ipsec[s.id := IPsecClient(s.virtualIP, s.psk)];
        if s.access == me {
          ipsecHere := ipsecHere + {s.virtualIP};
        }
      } else {
        peers := peers[s.publicKey := s.virtualIP];
      }
      if s.egress != me && s.egress in known {
        forward := forward[s.virtualIP := s.egress];
      }
    }
  }

  method Gateways(me: Name, gateways: seq<Gateway>) returns (known: set<Name>, backbones: map<Name, Backbone>)
    ensures known == Ids(gateways) && backbones == BackbonesFor(me, gateways)
  {
    known, backbones := {}, map[];
    for i := 0 to |gateways|
      invariant known == Ids(gateways[..i]) && backbones == BackbonesFor(me, gateways[..i])
    {
      var g := gateways[i];
      assert gateways[..i + 1][..i] == gateways[..i] && gateways[..i + 1] == gateways[..i] + [g];
      IdsNext(gateways[..i], g);
      known := known + {g.id};
      if g.id == me {
        continue;
      }
      backbones := backbones[g.id := Backbone(g.publicKey, g.nodeIP)];
    }
    assert gateways[..|gateways|] == gateways;
  }

  // -------------------------------------------------------------------- what it means

  /** Sessions have distinct virtual IPs. */
  ghost predicate Distinct(sessions: seq<Session>) {
    forall i, j :: 0 <= i < j < |sessions| ==> sessions[i].virtualIP != sessions[j].virtualIP
  }

  predicate Forwards(me: Name, roles: Roles, known: set<Name>, s: Session) {
    roles.access && s.egress != me && s.egress in known
  }

  predicate Returns(me: Name, roles: Roles, known: set<Name>, s: Session) {
    roles.egress && s.egress == me && s.access != me && s.access in known
  }

  /** Traffic is only ever sent over a backbone that the plan has. */
  lemma HopsAreBackbones(me: Name, roles: Roles, gateways: seq<Gateway>, sessions: seq<Session>)
    ensures var p := PlanFor(me, roles, Ids(gateways), BackbonesFor(me, gateways), sessions);
            && (forall v :: v in p.forward ==> p.forward[v] in p.backbones)
            && (forall v :: v in p.back ==> p.back[v] in p.backbones)
  {
    HopsAreKnown(me, roles, Ids(gateways), BackbonesFor(me, gateways), sessions);
    SameBackbones(me, roles, Ids(gateways), BackbonesFor(me, gateways), sessions);
  }

  ghost predicate Leads(m: map<nat, Name>, known: set<Name>, me: Name) {
    forall v :: v in m ==> m[v] in known && m[v] != me
  }

  lemma {:induction false} HopsAreKnown(me: Name, roles: Roles, known: set<Name>, b: map<Name, Backbone>,
                                        sessions: seq<Session>)
    ensures var p := PlanFor(me, roles, known, b, sessions); Leads(p.forward, known, me) && Leads(p.back, known, me)
  {
    if sessions != [] {
      var p := PlanFor(me, roles, known, b, sessions[..|sessions| - 1]);
      HopsAreKnown(me, roles, known, b, sessions[..|sessions| - 1]);
      assert PlanFor(me, roles, known, b, sessions) == WithSession(me, roles, known, sessions[|sessions| - 1], p);
      HopsKept(me, roles, known, sessions[|sessions| - 1], p);
    }
  }

  lemma HopsKept(me: Name, roles: Roles, known: set<Name>, s: Session, p: Plan)
    requires Leads(p.forward, known, me) && Leads(p.back, known, me)
    ensures Leads(WithForward(me, roles, known, s, p.forward), known, me)
    ensures Leads(WithReturn(me, roles, known, s, p.back), known, me)
  {
  }

  lemma {:induction false} SameBackbones(me: Name, roles: Roles, known: set<Name>, b: map<Name, Backbone>,
                                         sessions: seq<Session>)
    ensures PlanFor(me, roles, known, b, sessions).backbones == b
  {
    if sessions != [] {
      SameBackbones(me, roles, known, b, sessions[..|sessions| - 1]);
    }
  }

  /** A virtual IP no session has is neither forwarded nor returned. */
  lemma {:induction false} OnlySessions(me: Name, roles: Roles, known: set<Name>, b: map<Name, Backbone>,
                                        sessions: seq<Session>, v: nat)
    requires forall i :: 0 <= i < |sessions| ==> sessions[i].virtualIP != v
    ensures var p := PlanFor(me, roles, known, b, sessions); v !in p.forward && v !in p.back
  {
    if sessions != [] {
      OnlySessions(me, roles, known, b, sessions[..|sessions| - 1], v);
    }
  }

  /** A session's traffic is forwarded exactly when this gateway takes clients and the session
      leaves from another, registered one; it is returned exactly when the session leaves from
      here and comes in through another, registered one. */
  lemma {:induction false} RoutedExactly(me: Name, roles: Roles, known: set<Name>, b: map<Name, Backbone>,
                                         sessions: seq<Session>, i: nat)
    requires Distinct(sessions) && i < |sessions|
    ensures var p, s := PlanFor(me, roles, known, b, sessions), sessions[i];
            && (s.virtualIP in p.forward <==> Forwards(me, roles, known, s))
            && (s.virtualIP in p.forward ==> p.forward[s.virtualIP] == s.egress)
            && (s.virtualIP in p.back <==> Returns(me, roles, known, s))
            && (s.virtualIP in p.back ==> p.back[s.virtualIP] == s.access)
  {
    var init := sessions[..|sessions| - 1];
    if i == |sessions| - 1 {
      OnlySessions(me, roles, known, b, init, sessions[i].virtualIP);
    } else {
      RoutedExactly(me, roles, known, b, init, i);
    }
  }

  /** Whether this gateway's client-facing device has the session's client as a peer. */
  predicate HasPeer(roles: Roles, s: Session) {
    roles.access && !s.ipsec
  }

  /** No session has this key's client as a peer. */
  ghost predicate NoPeer(roles: Roles, sessions: seq<Session>, key: Name) {
    forall i :: 0 <= i < |sessions| ==> !(HasPeer(roles, sessions[i]) && sessions[i].publicKey == key)
  }

  /** The plan has exactly the public keys of the WireGuard sessions as peers, if this gateway
      takes clients at all. */
  lemma {:induction false} PeersExactly(me: Name, roles: Roles, known: set<Name>, b: map<Name, Backbone>,
                                        sessions: seq<Session>, key: Name)
    ensures key in PlanFor(me, roles, known, b, sessions).peers <==> !NoPeer(roles, sessions, key)
  {
    if sessions != [] {
      PeersExactly(me, roles, known, b, sessions[..|sessions| - 1], key);
      assert sessions == sessions[..|sessions| - 1] + [sessions[|sessions| - 1]];
    }
  }

  /** A peer has the address of the last session with its key. */
  lemma {:induction false} PeerAddress(me: Name, roles: Roles, known: set<Name>, b: map<Name, Backbone>,
                                       sessions: seq<Session>, i: nat)
    requires i < |sessions| && HasPeer(roles, sessions[i])
    requires forall j :: i < j < |sessions| && HasPeer(roles, sessions[j]) ==>
               sessions[j].publicKey != sessions[i].publicKey
    ensures var p, s := PlanFor(me, roles, known, b, sessions), sessions[i];
            s.publicKey in p.peers && p.peers[s.publicKey] == s.virtualIP
  {
    if i < |sessions| - 1 {
      PeerAddress(me, roles, known, b, sessions[..|sessions| - 1], i);
    }
  }

  /** No session of this ID. */
  ghost predicate Unknown(sessions: seq<Session>, id: Name) {
    forall i :: 0 <= i < |sessions| ==> sessions[i].id != id
  }

  /** The plan has epochs and paths for exactly the sessions of the state, whatever their path. */
  lemma {:induction false} EpochsExactly(me: Name, roles: Roles, known: set<Name>, b: map<Name, Backbone>,
                                         sessions: seq<Session>, id: Name)
    ensures var p := PlanFor(me, roles, known, b, sessions);
            (id in p.epochs <==> !Unknown(sessions, id)) && (id in p.sessions <==> !Unknown(sessions, id))
  {
    if sessions != [] {
      EpochsExactly(me, roles, known, b, sessions[..|sessions| - 1], id);
      assert sessions == sessions[..|sessions| - 1] + [sessions[|sessions| - 1]];
    }
  }

  /** They are those of the last session with the ID. */
  lemma {:induction false} LastSessionCounts(me: Name, roles: Roles, known: set<Name>, b: map<Name, Backbone>,
                                             sessions: seq<Session>, i: nat)
    requires i < |sessions| && forall j :: i < j < |sessions| ==> sessions[j].id != sessions[i].id
    ensures var p, s := PlanFor(me, roles, known, b, sessions), sessions[i];
            && s.id in p.epochs && p.epochs[s.id] == s.epoch
            && s.id in p.sessions && p.sessions[s.id] == SessionPath(s.virtualIP, s.access, s.egress, s.epoch)
            && (roles.access && s.ipsec ==> s.id in p.ipsec && p.ipsec[s.id] == IPsecClient(s.virtualIP, s.psk))
  {
    if i < |sessions| - 1 {
      LastSessionCounts(me, roles, known, b, sessions[..|sessions| - 1], i);
    }
  }

  /** A backbone leads to the last gateway of its ID. */
  lemma {:induction false} LastGatewayCounts(me: Name, gateways: seq<Gateway>, i: nat)
    requires i < |gateways| && gateways[i].id != me
    requires forall j :: i < j < |gateways| ==> gateways[j].id != gateways[i].id
    ensures var b, g := BackbonesFor(me, gateways), gateways[i];
            g.id in b && b[g.id] == Backbone(g.publicKey, g.nodeIP)
  {
    if i < |gateways| - 1 {
      LastGatewayCounts(me, gateways[..|gateways| - 1], i);
    }
  }

  /** The sessions, by index, that come in here, or leave from here. */
  function Entering(me: Name, roles: Roles, sessions: seq<Session>): set<nat> {
    set i: nat | i < |sessions| && roles.access && sessions[i].access == me
  }

  function Leaving(me: Name, roles: Roles, sessions: seq<Session>): set<nat> {
    set i: nat | i < |sessions| && roles.egress && sessions[i].egress == me
  }

  lemma EnteringNext(me: Name, roles: Roles, init: seq<Session>, s: Session)
    ensures |Entering(me, roles, init + [s])| == |Entering(me, roles, init)|
            + if roles.access && s.access == me then 1 else 0
  {
    var was, now := Entering(me, roles, init), Entering(me, roles, init + [s]);
    if roles.access && s.access == me {
      assert now == was + {|init|};
    } else {
      assert now == was;
    }
  }

  lemma LeavingNext(me: Name, roles: Roles, init: seq<Session>, s: Session)
    ensures |Leaving(me, roles, init + [s])| == |Leaving(me, roles, init)|
            + if roles.egress && s.egress == me then 1 else 0
  {
    var was, now := Leaving(me, roles, init), Leaving(me, roles, init + [s]);
    if roles.egress && s.egress == me {
      assert now == was + {|init|};
    } else {
      assert now == was;
    }
  }

  /** The plan counts them. */
  lemma {:induction false} CountsExactly(me: Name, roles: Roles, known: set<Name>, b: map<Name, Backbone>,
                                         sessions: seq<Session>)
    ensures var p := PlanFor(me, roles, known, b, sessions);
            && p.accessSessions == |Entering(me, roles, sessions)| && p.egressSessions == |Leaving(me, roles, sessions)|
  {
    if sessions != [] {
      var init, s := sessions[..|sessions| - 1], sessions[|sessions| - 1];
      CountsExactly(me, roles, known, b, init);
      EnteringNext(me, roles, init, s);
      LeavingNext(me, roles, init, s);
      assert sessions == init + [s];
    } else {
      assert Entering(me, roles, []) == {} && Leaving(me, roles, []) == {};
    }
  }

  /** No IPsec session of this ID, or with this address and coming in here. */
  ghost predicate NoClient(sessions: seq<Session>, id: Name) {
    forall i :: 0 <= i < |sessions| ==> !(sessions[i].ipsec && sessions[i].id == id)
  }

  ghost predicate NoneHere(me: Name, sessions: seq<Session>, v: nat) {
    forall i :: 0 <= i < |sessions| ==>
      !(sessions[i].ipsec && sessions[i].access == me && sessions[i].virtualIP == v)
  }

  /** At a gateway that takes clients the plan has exactly the IPsec sessions as IPsec clients, and
      exactly the addresses of those that come in here. */
  lemma {:induction false} IpsecExactly(me: Name, roles: Roles, known: set<Name>, b: map<Name, Backbone>,
                                        sessions: seq<Session>, id: Name, v: nat)
    ensures var p := PlanFor(me, roles, known, b, sessions);
            && (id in p.ipsec <==> roles.access && !NoClient(sessions, id))
            && (v in p.ipsecHere <==> roles.access && !NoneHere(me, sessions, v))
  {
    if sessions != [] {
      IpsecExactly(me, roles, known, b, sessions[..|sessions| - 1], id, v);
      assert sessions == sessions[..|sessions| - 1] + [sessions[|sessions| - 1]];
    }
  }

  /** Every gateway's plan for one state. */
  function PlanAt(st: State, roles: Name -> Roles, g: Name): Plan {
    PlanFor(g, roles(g), Ids(st.gateways), BackbonesFor(g, st.gateways), st.sessions)
  }

  /** Where a gateway sends a session's traffic on to, if it does not leave from there. */
  function Onward(p: Plan, v: nat): seq<Name> {
    if v in p.forward then [p.forward[v]] else []
  }

  /** Where a gateway sends a session's return traffic on to, if not straight to the client. */
  function Homeward(p: Plan, v: nat): seq<Name> {
    if v in p.back then [p.back[v]] else []
  }

  /** From whichever gateway the client comes in through, a session's traffic is at its egress
      after at most one hop over a backbone, and goes no further; from its egress, return
      traffic is at its access after at most one hop, and goes no further. */
  lemma OneHop(st: State, roles: Name -> Roles, i: nat, entry: Name)
    requires Distinct(st.sessions) && i < |st.sessions|
    requires var s := st.sessions[i];
             && s.egress in Ids(st.gateways) && s.access in Ids(st.gateways)
             && roles(s.egress).egress
    requires roles(entry).access
    ensures var s := st.sessions[i];
            && Onward(PlanAt(st, roles, entry), s.virtualIP) == (if entry == s.egress then [] else [s.egress])
            && (entry != s.egress ==> s.egress in PlanAt(st, roles, entry).backbones)
            && Onward(PlanAt(st, roles, s.egress), s.virtualIP) == []
            && Homeward(PlanAt(st, roles, s.egress), s.virtualIP) == (if s.access == s.egress then [] else [s.access])
            && (s.access != s.egress ==> s.access in PlanAt(st, roles, s.egress).backbones)
            && (s.access != s.egress ==> Homeward(PlanAt(st, roles, s.access), s.virtualIP) == [])
  {
    var s, known := st.sessions[i], Ids(st.gateways);
    RoutedExactly(entry, roles(entry), known, BackbonesFor(entry, st.gateways), st.sessions, i);
    RoutedExactly(s.egress, roles(s.egress), known, BackbonesFor(s.egress, st.gateways), st.sessions, i);
    RoutedExactly(s.access, roles(s.access), known, BackbonesFor(s.access, st.gateways), st.sessions, i);
    SameBackbones(entry, roles(entry), known, BackbonesFor(entry, st.gateways), st.sessions);
    SameBackbones(s.egress, roles(s.egress), known, BackbonesFor(s.egress, st.gateways), st.sessions);
  }

  /** What a change of session s's access leaves alone at gateway `me`. */
  ghost predicate OnlyReturnDiffers(me: Name, roles: Roles, s: Session, p: Plan, q: Plan) {
    && p.peers == q.peers && p.backbones == q.backbones && p.forward == q.forward && p.ipsec == q.ipsec
    && p.egressSessions == q.egressSessions
    && (!s.ipsec ==> p.ipsecHere == q.ipsecHere)
    && (me != s.egress || !roles.egress ==> p.back == q.back)
    && (forall v :: v != s.virtualIP ==> (v in p.back <==> v in q.back))
    && (forall v :: v != s.virtualIP && v in p.back && v in q.back ==> p.back[v] == q.back[v])
  }

  /** Moving a session to another access changes no gateway's peers, backbones or forwarding;
      the return route changes only at its egress, and there only its own. */
  lemma {:induction false} AccessChangeMovesReturnOnly(me: Name, roles: Roles, known: set<Name>, b: map<Name, Backbone>,
                                                       sessions: seq<Session>, i: nat, access: Name, epoch: nat)
    requires i < |sessions|
    ensures var moved := sessions[i := sessions[i].(access := access, epoch := epoch)];
            OnlyReturnDiffers(me, roles, sessions[i], PlanFor(me, roles, known, b, sessions),
                              PlanFor(me, roles, known, b, moved))
  {
    var moved := sessions[i := sessions[i].(access := access, epoch := epoch)];
    var init := sessions[..|sessions| - 1];
    if i == |sessions| - 1 {
      assert moved[..|moved| - 1] == init;
    } else {
      AccessChangeMovesReturnOnly(me, roles, known, b, init, i, access, epoch);
      assert moved[..|moved| - 1] == init[i := init[i].(access := access, epoch := epoch)];
      DifferenceKept(me, roles, known, sessions[i], sessions[|sessions| - 1],
                     PlanFor(me, roles, known, b, init), PlanFor(me, roles, known, b, moved[..|moved| - 1]));
    }
  }

  lemma DifferenceKept(me: Name, roles: Roles, known: set<Name>, s: Session, last: Session, p: Plan, q: Plan)
    requires OnlyReturnDiffers(me, roles, s, p, q)
    ensures OnlyReturnDiffers(me, roles, s, WithSession(me, roles, known, last, p),
                              WithSession(me, roles, known, last, q))
  {
  }
}
