/** A run in which split horizon matters, although all links cost less than INFINITY and nothing fails. */
module DetourExample {
  import opened Protocol
  import opened Graph
  import opened Network
  import opened FifoRuns
  import opened SplitHorizon
  import opened Examples

  /** Routers 2 and 3 are close to each other and far from router 0:
          0 --600-- 1 --600-- 2
                     \        |
                      800---- 3   with a link of cost 1 between 2 and 3. */
  function Detour(): Config {
    map[0 := Answer(0, [NbrCost(1, 600)]),
        1 := Answer(1, [NbrCost(0, 600), NbrCost(2, 600), NbrCost(3, 800)]),
        2 := Answer(2, [NbrCost(1, 600), NbrCost(3, 1)]),
        3 := Answer(3, [NbrCost(1, 800), NbrCost(2, 1)])]
  }

  lemma DetourLinks(u: nat, v: nat)
    ensures var cfg := Detour();
            && (Nbr(cfg, u, v) <==> (u, v) in {(0, 1), (1, 0), (1, 2), (2, 1), (1, 3), (3, 1), (2, 3), (3, 2)})
            && ((u, v) in {(1, 0), (2, 1)} ==> LinkCost(cfg, u, v) == 600)
            && ((u, v) == (3, 1) ==> LinkCost(cfg, u, v) == 800)
            && ((u, v) in {(2, 3), (3, 2)} ==> LinkCost(cfg, u, v) == 1)
  {
  }

  lemma DetourRouter(u: nat)
    requires u < 4
    ensures u in Detour() && NbrsOfRouter(Detour(), u) && Detour()[u].SpareSlot() == NbrCost(u, 0)
  {
  }

  lemma DetourIsWellFormed()
    ensures WellFormed(Detour())
  {
    var cfg := Detour();
    assert cfg.Keys == {0, 1, 2, 3} && |cfg| == |cfg.Keys|;
    forall u | u in cfg ensures NbrsOfRouter(cfg, u) && cfg[u].SpareSlot() == NbrCost(u, 0) {
      DetourRouter(u);
    }
    forall u, v | Nbr(cfg, u, v) ensures Nbr(cfg, v, u) {
      DetourLinks(u, v);
      DetourLinks(v, u);
    }
  }

  const AT_1 := Some(Route(0, 0, 600))
  const AT_2 := Some(Route(0, 1, 1200))
  const FAR := Some(Route(0, 1, 1400))
  const CUT := Some(Route(0, 2, INFINITY))

  const DETOUR_STEPS := [Advertise(1), Deliver(1), Deliver(1), Advertise(2), Deliver(2), Advertise(3), Deliver(3)]

  /** Router 1 tells 2 and 3 about router 0; router 3 learns the shorter way over 2, at a cost that is
      cut down to INFINITY; then router 3 advertises back to 2. */
  const DETOUR_VIEWS := [
    View([], Known(AT_1, None, None)),
    View([Offer(1, 0, AT_1), Offer(1, 2, AT_1), Offer(1, 3, AT_1)], Known(AT_1, None, None)),
    View([Offer(1, 0, AT_1), Offer(1, 3, AT_1)], Known(AT_1, AT_2, None)),
    View([Offer(1, 0, AT_1)], Known(AT_1, AT_2, FAR)),
    View([Offer(1, 0, AT_1), Offer(2, 1, AT_2), Offer(2, 3, AT_2)], Known(AT_1, AT_2, FAR)),
    View([Offer(1, 0, AT_1), Offer(2, 1, AT_2)], Known(AT_1, AT_2, CUT)),
    View([Offer(1, 0, AT_1), Offer(2, 1, AT_2), Offer(3, 1, CUT), Offer(3, 2, CUT)], Known(AT_1, AT_2, CUT)),
    View([Offer(1, 0, AT_1), Offer(2, 1, AT_2), Offer(3, 1, CUT)], Known(AT_1, AT_2, CUT))]

  lemma DetourAdvertisements(k: nat)
    requires k in {0, 3, 5}
    ensures CanSee(Detour(), DETOUR_VIEWS[k], DETOUR_STEPS[k])
    ensures See(Detour(), DETOUR_VIEWS[k], DETOUR_STEPS[k]) == DETOUR_VIEWS[k + 1]
  {
  }

  lemma DetourDeliveries(k: nat)
    requires k in {1, 2, 4, 6}
    ensures CanSee(Detour(), DETOUR_VIEWS[k], DETOUR_STEPS[k])
    ensures See(Detour(), DETOUR_VIEWS[k], DETOUR_STEPS[k]) == DETOUR_VIEWS[k + 1]
  {
  }

  lemma DetourSees()
    ensures Sees(Detour(), DETOUR_VIEWS, DETOUR_STEPS)
  {
    forall k: nat | k < 7
      ensures CanSee(Detour(), DETOUR_VIEWS[k], DETOUR_STEPS[k])
      ensures See(Detour(), DETOUR_VIEWS[k], DETOUR_STEPS[k]) == DETOUR_VIEWS[k + 1]
    {
      if k in {0, 3, 5} {
        DetourAdvertisements(k);
      } else {
        DetourDeliveries(k);
      }
    }
  }

  lemma DetourBegins()
    ensures WellFormed(Detour()) && Shows(Init(Detour()), 0, DETOUR_VIEWS[0])
  {
    DetourIsWellFormed();
    DetourLinks(1, 0);
    DetourLinks(2, 0);
    DetourLinks(3, 0);
    StartIsSeen(Detour(), 0, DETOUR_VIEWS[0]);
  }

  lemma DetourRun(k: nat)
    requires k <= 7
    ensures Seen(Detour(), DETOUR_STEPS[..k], 0, DETOUR_VIEWS[k])
  {
    DetourBegins();
    DetourSees();
    PrefixIsSeen(Detour(), 0, DETOUR_VIEWS, DETOUR_STEPS, k);
  }

  lemma DetourHasNoTimeouts()
    ensures NoTimeouts(DETOUR_STEPS) && DETOUR_STEPS[..7] == DETOUR_STEPS
  {
  }

  lemma DetourEnd()
    ensures FifoRun(Detour(), DETOUR_STEPS)
    ensures At(After(Detour(), DETOUR_STEPS), 2, 0) == Some(Route(0, 1, 1200))
  {
    DetourRun(7);
    DetourHasNoTimeouts();
    ViewTells(Detour(), DETOUR_STEPS, 0, DETOUR_VIEWS[7], 2);
    InOrderIsFifo(Detour(), DETOUR_STEPS);
  }

  lemma ComingBack(cfg: Config, run: seq<Step>)
    requires WellFormed(cfg) && Seen(cfg, run, 0, DETOUR_VIEWS[6]) && CanSee(cfg, DETOUR_VIEWS[6], Deliver(3))
    requires Nbr(cfg, 2, 3) && LinkCost(cfg, 2, 3) == 1
    ensures At(NextPlain(cfg, After(cfg, run), Deliver(3)), 2, 0) == Some(Route(0, 3, INFINITY))
  {
    SeenPlain(cfg, run, 0, DETOUR_VIEWS[6], 3);
  }

  /** The last delivery leaves router 2 its cost 1200 for router 0; without split horizon it would switch
      to the route over 3, at cost INFINITY, which leads back to itself. */
  lemma RunsCanDiffer()
    ensures WellFormed(Detour()) && FifoRun(Detour(), DETOUR_STEPS)
    ensures At(After(Detour(), DETOUR_STEPS), 2, 0) == Some(Route(0, 1, 1200))
    ensures At(NextPlain(Detour(), After(Detour(), DETOUR_STEPS[..6]), DETOUR_STEPS[6]), 2, 0)
            == Some(Route(0, 3, INFINITY))
  {
    DetourIsWellFormed();
    DetourEnd();
    DetourRun(6);
    DetourDeliveries(6);
    DetourLinks(2, 3);
    ComingBack(Detour(), DETOUR_STEPS[..6]);
  }
}
