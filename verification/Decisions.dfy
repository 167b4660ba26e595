/** The controller's end of the decision stream: every decision asks for a reconcile of the route it names. */
module Decisions {
  import opened Sequences
  import opened Wire

  /** The object a decision wakes. */
  function Woken(d: Decision): RouteRef {
    RouteRef(d.ref.namespace, d.ref.name)
  }

  class DecisionWatcher {
    var trigger: seq<RouteRef>

    constructor ()
      ensures trigger == []
    {
      trigger := [];
    }

    method Handle(d: Decision)
      modifies this
      ensures trigger == old(trigger) + [Woken(d)]
    {
      trigger := trigger + [RouteRef(d.ref.namespace, d.ref.name)];
    }

    /** One connection's worth of decisions, each to every subscriber. */
    method WatchDecisions(stream: seq<Decision>)
      modifies this
      ensures trigger == old(trigger) + Map(Woken, stream)
    {
      assert trigger + [] == trigger;
      for i := 0 to |stream|
        invariant trigger == old(trigger) + Map(Woken, stream)[..i]
      {
        Handle(stream[i]);
      }
    }
  }
}
