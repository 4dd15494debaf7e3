/** A run in which routes form a loop: one failure is enough, although all packets arrive in order. */
module LoopExample {
  import opened Protocol
  import opened Graph
  import opened Network
  import opened FifoRuns
  import opened LoopFreedom
  import opened Examples

  /** Routers 1, 2 and 3 in a triangle; only router 1 has a link to router 0. */
  function Triangle(): Config {
    map[0 := Answer(0, [NbrCost(1, 1)]),
        1 := Answer(1, [NbrCost(0, 1), NbrCost(2, 1), NbrCost(3, 1)]),
        2 := Answer(2, [NbrCost(1, 1), NbrCost(3, 1)]),
        3 := Answer(3, [NbrCost(1, 1), NbrCost(2, 1)])]
  }

  lemma TriangleLinks(u: nat, v: nat)
    ensures var cfg := Triangle();
            && (Nbr(cfg, u, v) <==> (u, v) in {(0, 1), (1, 0), (1, 2), (2, 1), (1, 3), (3, 1), (2, 3), (3, 2)})
            && (Nbr(cfg, u, v) ==> LinkCost(cfg, u, v) == 1)
  {
  }

  lemma TriangleRouter(u: nat)
    requires u < 4
    ensures u in Triangle() && NbrsOfRouter(Triangle(), u) && Triangle()[u].SpareSlot() == NbrCost(u, 0)
  {
  }

  lemma TriangleIsWellFormed()
    ensures WellFormed(Triangle())
  {
    var cfg := Triangle();
    assert cfg.Keys == {0, 1, 2, 3} && |cfg| == |cfg.Keys|;
    forall u | u in cfg ensures NbrsOfRouter(cfg, u) && cfg[u].SpareSlot() == NbrCost(u, 0) {
      TriangleRouter(u);
    }
    forall u, v | Nbr(cfg, u, v) ensures Nbr(cfg, v, u) {
      TriangleLinks(u, v);
      TriangleLinks(v, u);
    }
  }

  const DIRECT := Some(Route(0, 0, 1))
  const OVER_1 := Some(Route(0, 1, 2))
  const GONE := Some(Route(0, 0, INFINITY))
  const GONE_OVER_1 := Some(Route(0, 1, INFINITY))
  const OVER_3 := Some(Route(0, 3, 3))
  const OVER_2 := Some(Route(0, 2, 4))

  const LOOP_STEPS := [
    Advertise(1), Deliver(1), Deliver(1), Timeout(1, 0), Advertise(1),
    Deliver(2), Advertise(3), Deliver(4), Advertise(2), Deliver(4)]

  /** Routers 2 and 3 learn about router 0 from 1; then router 1 loses it and tells 2 about that, but 2
      hears the old news from 3 again and tells it to 1. */
  const LOOP_VIEWS := [
    View([], Known(DIRECT, None, None)),
    View([Offer(1, 0, DIRECT), Offer(1, 2, DIRECT), Offer(1, 3, DIRECT)], Known(DIRECT, None, None)),
    View([Offer(1, 0, DIRECT), Offer(1, 3, DIRECT)], Known(DIRECT, OVER_1, None)),
    View([Offer(1, 0, DIRECT)], Known(DIRECT, OVER_1, OVER_1)),
    View([Offer(1, 0, DIRECT)], Known(GONE, OVER_1, OVER_1)),
    View([Offer(1, 0, DIRECT), Offer(1, 0, GONE), Offer(1, 2, GONE), Offer(1, 3, GONE)], Known(GONE, OVER_1, OVER_1)),
    View([Offer(1, 0, DIRECT), Offer(1, 0, GONE), Offer(1, 3, GONE)], Known(GONE, GONE_OVER_1, OVER_1)),
    View([Offer(1, 0, DIRECT), Offer(1, 0, GONE), Offer(1, 3, GONE), Offer(3, 1, OVER_1), Offer(3, 2, OVER_1)],
         Known(GONE, GONE_OVER_1, OVER_1)),
    View([Offer(1, 0, DIRECT), Offer(1, 0, GONE), Offer(1, 3, GONE), Offer(3, 1, OVER_1)],
         Known(GONE, OVER_3, OVER_1)),
    View([Offer(1, 0, DIRECT), Offer(1, 0, GONE), Offer(1, 3, GONE), Offer(3, 1, OVER_1), Offer(2, 1, OVER_3),
          Offer(2, 3, OVER_3)],
         Known(GONE, OVER_3, OVER_1)),
    View([Offer(1, 0, DIRECT), Offer(1, 0, GONE), Offer(1, 3, GONE), Offer(3, 1, OVER_1), Offer(2, 3, OVER_3)],
         Known(OVER_2, OVER_3, OVER_1))]

  lemma LoopAdvertisements(k: nat)
    requires k in {0, 3, 4, 6, 8}
    ensures CanSee(Triangle(), LOOP_VIEWS[k], LOOP_STEPS[k])
    ensures See(Triangle(), LOOP_VIEWS[k], LOOP_STEPS[k]) == LOOP_VIEWS[k + 1]
  {
  }

  lemma LoopFirstDeliveries(k: nat)
    requires k in {1, 2, 5}
    ensures CanSee(Triangle(), LOOP_VIEWS[k], LOOP_STEPS[k])
    ensures See(Triangle(), LOOP_VIEWS[k], LOOP_STEPS[k]) == LOOP_VIEWS[k + 1]
  {
    TriangleLinks(2, 1);
    TriangleLinks(3, 1);
  }

  lemma LoopLastDeliveries(k: nat)
    requires k in {7, 9}
    ensures CanSee(Triangle(), LOOP_VIEWS[k], LOOP_STEPS[k])
    ensures See(Triangle(), LOOP_VIEWS[k], LOOP_STEPS[k]) == LOOP_VIEWS[k + 1]
  {
    TriangleLinks(2, 3);
    TriangleLinks(1, 2);
  }

  lemma LoopSees()
    ensures Sees(Triangle(), LOOP_VIEWS, LOOP_STEPS)
  {
    forall k: nat | k < 10
      ensures CanSee(Triangle(), LOOP_VIEWS[k], LOOP_STEPS[k])
      ensures See(Triangle(), LOOP_VIEWS[k], LOOP_STEPS[k]) == LOOP_VIEWS[k + 1]
    {
      if k in {0, 3, 4, 6, 8} {
        LoopAdvertisements(k);
      } else if k in {1, 2, 5} {
        LoopFirstDeliveries(k);
      } else {
        LoopLastDeliveries(k);
      }
    }
  }

  ghost predicate GoRound(s: State) {
    && Forwards(s, 0, [1, 2, 3, 1])
    && At(s, 1, 0) == Some(Route(0, 2, 4))
    && At(s, 2, 0) == Some(Route(0, 3, 3))
    && At(s, 3, 0) == Some(Route(0, 1, 2))
  }

  lemma RoutesGoRound(s: State, known: map<nat, Option<Route>>)
    requires known == Known(OVER_2, OVER_3, OVER_1)
    requires forall u :: u in known ==> At(s, u, 0) == known[u]
    ensures GoRound(s)
  {
    assert At(s, 1, 0) == known[1] && At(s, 2, 0) == known[2] && At(s, 3, 0) == known[3];
  }

  lemma LoopBegins()
    ensures WellFormed(Triangle()) && Shows(Init(Triangle()), 0, LOOP_VIEWS[0])
  {
    TriangleIsWellFormed();
    TriangleLinks(1, 0);
    TriangleLinks(2, 0);
    TriangleLinks(3, 0);
    StartIsSeen(Triangle(), 0, LOOP_VIEWS[0]);
  }

  lemma LoopIsSeen()
    ensures WellFormed(Triangle()) && Seen(Triangle(), LOOP_STEPS, 0, LOOP_VIEWS[10])
  {
    LoopBegins();
    LoopSees();
    RunIsSeen(Triangle(), 0, LOOP_VIEWS, LOOP_STEPS);
  }

  /** After one timeout, and with all packets in order, packets to router 0 go round in circles, on
      routes that promise costs of 4, 3 and 2. */
  lemma LoopAfterFailure()
    ensures WellFormed(Triangle()) && InOrder(Triangle(), LOOP_STEPS)
    ensures GoRound(After(Triangle(), LOOP_STEPS))
  {
    LoopIsSeen();
    RoutesGoRound(After(Triangle(), LOOP_STEPS), LOOP_VIEWS[10].known);
  }
}
