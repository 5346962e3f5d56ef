/** Runs of the IPsec client with every state on the way. */
module IpsecWalk {
  import opened IpsecClient

  datatype Walk = Walk(states: seq<Client>, events: seq<Event>) {
    ghost predicate Ok() {
      && |states| == |events| + 1
      && forall i :: 0 <= i < |events| ==> Step(states[i], events[i]) == states[i + 1]
    }

    function Last(): Client
      requires |states| > 0
    {
      states[|states| - 1]
    }
  }

  function At(s: Client): Walk {
    Walk([s], [])
  }

  /** One more step. */
  lemma Take1(w: Walk, e: Event) returns (v: Walk)
    requires w.Ok()
    ensures v.Ok() && v.states[0] == w.states[0] && v.events == w.events + [e] && v.Last() == Step(w.Last(), e)
  {
    v := Walk(w.states + [Step(w.Last(), e)], w.events + [e]);
  }

  /** A walk from where a run ended goes on with it. */
  lemma {:induction false} WalkAfter(s: Client, events: seq<Event>, w: Walk, n: nat)
    requires w.Ok() && w.states[0] == Run(s, events) && n <= |w.events|
    ensures Run(s, events + w.events[..n]) == w.states[n]
  {
    if n == 0 {
      assert events + w.events[..0] == events;
    } else {
      WalkAfter(s, events, w, n - 1);
      var all := events + w.events[..n];
      assert all[..|all| - 1] == events + w.events[..n - 1] && all[|all| - 1] == w.events[n - 1];
    }
  }

  lemma WalkRuns(s: Client, events: seq<Event>, w: Walk)
    requires w.Ok() && w.states[0] == Run(s, events)
    ensures Run(s, events + w.events) == w.Last()
  {
    WalkAfter(s, events, w, |w.events|);
    assert w.events[..|w.events|] == w.events;
  }

  lemma WalkIsRun(w: Walk)
    requires w.Ok()
    ensures Run(w.states[0], w.events) == w.Last()
  {
    WalkRuns(w.states[0], [], w);
    assert [] + w.events == w.events;
  }
}
