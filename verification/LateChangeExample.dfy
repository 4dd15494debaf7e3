/** A run in which a table still changes after convergence, although nothing fails: a distance above
    INFINITY is enough. */
module LateChangeExample {
  import opened Protocol
  import opened TableSpec
  import opened Graph
  import opened Network
  import opened FifoRuns
  import opened Convergence
  import opened Bounds
  import opened Examples

  /** Router 0 is far from the others:
          0 --5000-- 1 --5-- 2
                      \      |
                      1000-- 3   with a link of cost 1 between 2 and 3. */
  function Far(): Config {
    map[0 := Answer(0, [NbrCost(1, 5000)]),
        1 := Answer(1, [NbrCost(0, 5000), NbrCost(2, 5), NbrCost(3, 1000)]),
        2 := Answer(2, [NbrCost(1, 5), NbrCost(3, 1)]),
        3 := Answer(3, [NbrCost(1, 1000), NbrCost(2, 1)])]
  }

  lemma FarLinks(u: nat, v: nat)
    ensures var cfg := Far();
            && (Nbr(cfg, u, v) <==> (u, v) in {(0, 1), (1, 0), (1, 2), (2, 1), (1, 3), (3, 1), (2, 3), (3, 2)})
            && ((u, v) in {(0, 1), (1, 0)} ==> LinkCost(cfg, u, v) == 5000)
            && ((u, v) in {(1, 2), (2, 1)} ==> LinkCost(cfg, u, v) == 5)
            && ((u, v) in {(1, 3), (3, 1)} ==> LinkCost(cfg, u, v) == 1000)
            && ((u, v) in {(2, 3), (3, 2)} ==> LinkCost(cfg, u, v) == 1)
  {
  }

  lemma FarRouter(u: nat)
    requires u < 4
    ensures u in Far() && NbrsOfRouter(Far(), u) && Far()[u].SpareSlot() == NbrCost(u, 0)
  {
  }

  lemma FarIsWellFormed()
    ensures WellFormed(Far()) && |Far()| == 4
  {
    var cfg := Far();
    assert cfg.Keys == {0, 1, 2, 3} && |cfg| == |cfg.Keys|;
    forall u | u in cfg ensures NbrsOfRouter(cfg, u) && cfg[u].SpareSlot() == NbrCost(u, 0) {
      FarRouter(u);
    }
    forall u, v | Nbr(cfg, u, v) ensures Nbr(cfg, v, u) {
      FarLinks(u, v);
      FarLinks(v, u);
    }
  }

  // ---------- The run ----------

  const OWN := Some(Route(0, 0, 0))
  const DIRECT := Some(Route(0, 0, 5000))
  const OVER_1 := Some(Route(0, 1, 5005))
  const DETOUR := Some(Route(0, 1, 6000))
  const CUT := Some(Route(0, 2, INFINITY))

  function KnownTo(at1: Option<Route>, at2: Option<Route>, at3: Option<Route>): map<nat, Option<Route>> {
    map[0 := OWN, 1 := at1, 2 := at2, 3 := at3]
  }

  /** The packets of a round in which everybody advertises what is known at its start. */
  function AllOffers(at1: Option<Route>, at2: Option<Route>, at3: Option<Route>): (os: seq<Offer>)
    ensures |os| == 8
  {
    [Offer(0, 1, OWN), Offer(1, 0, at1), Offer(1, 2, at1), Offer(1, 3, at1),
     Offer(2, 1, at2), Offer(2, 3, at2), Offer(3, 1, at3), Offer(3, 2, at3)]
  }

  /** How many of them the first k routers send. */
  function SentBy(k: nat): (n: nat)
    ensures n <= 8
  {
    if k == 0 then 0 else if k == 1 then 1 else if k == 2 then 4 else if k == 3 then 6 else 8
  }

  /** In the first round routers 2 and 3 learn from 1. */
  function FirstRound(m: nat): map<nat, Option<Route>> {
    KnownTo(DIRECT, if m >= 3 then OVER_1 else None, if m >= 4 then DETOUR else None)
  }

  /** In the second round router 3 learns the shorter way over 2, at a cost that is cut down. */
  function SecondRound(m: nat): map<nat, Option<Route>> {
    KnownTo(DIRECT, OVER_1, if m >= 6 then CUT else DETOUR)
  }

  function StepAt(k: nat): Step {
    if k < 4 then Advertise(k)
    else if k < 12 then Deliver(0)
    else if k < 16 then Advertise(k - 12)
    else if k < 24 then Deliver(0)
    else if k == 24 then Advertise(3)
    else Deliver(0)
  }

  /** In the third round router 3 tells router 1. */
  function ViewAt(k: nat): View {
    if k < 4 then View(AllOffers(DIRECT, None, None)[..SentBy(k)], FirstRound(0))
    else if k < 12 then View(AllOffers(DIRECT, None, None)[k - 4..], FirstRound(k - 4))
    else if k < 16 then View(AllOffers(DIRECT, OVER_1, DETOUR)[..SentBy(k - 12)], SecondRound(0))
    else if k < 24 then View(AllOffers(DIRECT, OVER_1, DETOUR)[k - 16..], SecondRound(k - 16))
    else if k == 24 then View([], SecondRound(8))
    else if k == 25 then View([Offer(3, 1, CUT), Offer(3, 2, CUT)], SecondRound(8))
    else View([Offer(3, 2, CUT)], KnownTo(Some(Route(0, 3, INFINITY)), OVER_1, CUT))
  }

  function FarSteps(): (steps: seq<Step>)
    ensures |steps| == 26 && forall k :: 0 <= k < 26 ==> steps[k] == StepAt(k)
  {
    seq(26, k requires 0 <= k < 26 => StepAt(k))
  }

  function FarViews(): (views: seq<View>)
    ensures |views| == 27 && forall k :: 0 <= k < 27 ==> views[k] == ViewAt(k)
  {
    seq(27, k requires 0 <= k < 27 => ViewAt(k))
  }

  ghost predicate StepFits(k: nat)
    requires k < 26
  {
    Fits(Far(), FarViews(), FarSteps(), k)
  }

  lemma AllAdvertise(k: nat, at1: Option<Route>, at2: Option<Route>, at3: Option<Route>)
    requires k < 4
    ensures var all, known := AllOffers(at1, at2, at3), KnownTo(at1, at2, at3);
            && CanSee(Far(), View(all[..SentBy(k)], known), Advertise(k))
            && See(Far(), View(all[..SentBy(k)], known), Advertise(k)) == View(all[..SentBy(k + 1)], known)
  {
    FarRouter(k);
    assert AllOffers(at1, at2, at3)[..SentBy(k)] + OffersOf(k, Far()[k], KnownTo(at1, at2, at3)[k])
      == AllOffers(at1, at2, at3)[..SentBy(k + 1)];
  }

  lemma Advertisements(k: nat)
    requires k < 4 || 12 <= k < 16
    ensures StepFits(k)
  {
    if k < 4 {
      AllAdvertise(k, DIRECT, None, None);
      assert AllOffers(DIRECT, None, None)[..8] == AllOffers(DIRECT, None, None)[0..];
    } else {
      AllAdvertise(k - 12, DIRECT, OVER_1, DETOUR);
      assert AllOffers(DIRECT, OVER_1, DETOUR)[..8] == AllOffers(DIRECT, OVER_1, DETOUR)[0..];
    }
  }

  /** The first of the packets all[m..] is delivered. */
  lemma HeadIsDelivered(all: seq<Offer>, m: nat, known: map<nat, Option<Route>>, known': map<nat, Option<Route>>)
    requires m < |all| && all[m].to in known && Nbr(Far(), all[m].to, all[m].from)
    requires var o := all[m];
             known' == known[o.to := MergeEntry(known[o.to], o.heard, Hop(o.from, LinkCost(Far(), o.to, o.from), o.to))]
    ensures CanSee(Far(), View(all[m..], known), Deliver(0))
    ensures See(Far(), View(all[m..], known), Deliver(0)) == View(all[m + 1..], known')
  {
    assert all[m..][..0] + all[m..][1..] == all[m + 1..];
  }

  /** What becomes of the known routes when offer o arrives. */
  function Heard(known: map<nat, Option<Route>>, o: Offer): map<nat, Option<Route>>
    requires o.to in known && Nbr(Far(), o.to, o.from)
  {
    known[o.to := MergeEntry(known[o.to], o.heard, Hop(o.from, LinkCost(Far(), o.to, o.from), o.to))]
  }

  lemma FirstRoundHears(m: nat)
    requires m < 8
    ensures var o := AllOffers(DIRECT, None, None)[m];
            Nbr(Far(), o.to, o.from) && FirstRound(m + 1) == Heard(FirstRound(m), o)
  {
    var o := AllOffers(DIRECT, None, None)[m];
    FarLinks(o.to, o.from);
  }

  lemma FirstDeliveries(m: nat)
    requires m < 8
    ensures StepFits(4 + m)
  {
    FirstRoundHears(m);
    HeadIsDelivered(AllOffers(DIRECT, None, None), m, FirstRound(m), FirstRound(m + 1));
    assert AllOffers(DIRECT, None, None)[8..] == [];
  }

  lemma SecondRoundHears(m: nat)
    requires m < 8
    ensures var o := AllOffers(DIRECT, OVER_1, DETOUR)[m];
            Nbr(Far(), o.to, o.from) && SecondRound(m + 1) == Heard(SecondRound(m), o)
  {
    var o := AllOffers(DIRECT, OVER_1, DETOUR)[m];
    FarLinks(o.to, o.from);
  }

  lemma SecondDeliveries(m: nat)
    requires m < 8
    ensures StepFits(16 + m)
  {
    SecondRoundHears(m);
    HeadIsDelivered(AllOffers(DIRECT, OVER_1, DETOUR), m, SecondRound(m), SecondRound(m + 1));
    assert AllOffers(DIRECT, OVER_1, DETOUR)[8..] == [];
  }

  lemma ThirdRound(k: nat)
    requires 24 <= k < 26
    ensures StepFits(k)
  {
    FarLinks(1, 3);
  }

  lemma FarKnowsAtStart(u: nat)
    requires u < 4
    ensures FirstRound(0)[u] == KnownAtStart(Far(), u, 0)
  {
    FarLinks(u, 0);
  }

  lemma FarBegins()
    ensures WellFormed(Far()) && Shows(Init(Far()), 0, ViewAt(0))
  {
    FarIsWellFormed();
    assert ViewAt(0) == View([], FirstRound(0));
    forall u | u in FirstRound(0) ensures FirstRound(0)[u] == KnownAtStart(Far(), u, 0) {
      FarKnowsAtStart(u);
    }
    StartIsSeen(Far(), 0, ViewAt(0));
  }

  lemma EachStepFits(k: nat)
    requires k < 26
    ensures StepFits(k)
  {
    if k < 4 || 12 <= k < 16 {
      Advertisements(k);
    } else if k < 12 {
      FirstDeliveries(k - 4);
    } else if k < 24 {
      SecondDeliveries(k - 16);
    } else {
      ThirdRound(k);
    }
  }

  lemma FarSees()
    ensures Sees(Far(), FarViews(), FarSteps())
  {
    forall k: nat | k < 26 ensures Fits(Far(), FarViews(), FarSteps(), k) {
      EachStepFits(k);
    }
  }

  lemma FarHasNoTimeouts(k: nat)
    requires k <= 26
    ensures NoTimeouts(FarSteps()[..k])
  {
  }

  lemma FarIsSeen(k: nat)
    requires k <= 26
    ensures FifoRun(Far(), FarSteps()[..k]) && Shows(After(Far(), FarSteps()[..k]), 0, ViewAt(k))
  {
    FarBegins();
    FarSees();
    FarHasNoTimeouts(k);
    PrefixShows(Far(), 0, FarViews(), FarSteps(), k);
  }

  // ---------- Two rounds ----------

  /** Where the packet from v to u stands among the packets of a round. */
  function PlaceOf(u: nat, v: nat): (m: nat)
    ensures m < 8
  {
    if v == 0 then 0 else if v == 1 then (if u == 0 then 1 else if u == 2 then 2 else 3)
    else if v == 2 then (if u == 1 then 4 else 5) else if u == 1 then 6 else 7
  }

  lemma PlaceIsRight(u: nat, v: nat, at1: Option<Route>, at2: Option<Route>, at3: Option<Route>)
    requires Nbr(Far(), u, v)
    ensures var o := AllOffers(at1, at2, at3)[PlaceOf(u, v)]; o.from == v && o.to == u
  {
    FarLinks(u, v);
  }

  lemma NothingInFlight(a: nat)
    requires a in {0, 12}
    ensures After(Far(), FarSteps()[..a]).wire == []
  {
    FarIsSeen(a);
  }

  lemma HeadArrives(a: nat, m: nat, o: Offer)
    requires a in {0, 12} && m < 8 && ViewAt(a + 4 + m).wire != [] && ViewAt(a + 4 + m).wire[0] == o
    requires StepAt(a + 4 + m) == Deliver(0)
    ensures HearsAt(Far(), FarSteps()[..24], a, a + 4 + m, o.to, o.from)
  {
    NothingInFlight(a);
    FarIsSeen(a + 4 + m);
    HearsHead(Far(), FarSteps(), 24, a, a + 4 + m, 0, ViewAt(a + 4 + m));
  }

  lemma HeardInRounds(u: nat, v: nat)
    requires Nbr(Far(), u, v)
    ensures Hears(Far(), FarSteps()[..24], 0, 12, u, v) && Hears(Far(), FarSteps()[..24], 12, 24, u, v)
  {
    var m := PlaceOf(u, v);
    PlaceIsRight(u, v, DIRECT, None, None);
    PlaceIsRight(u, v, DIRECT, OVER_1, DETOUR);
    HeadArrives(0, m, AllOffers(DIRECT, None, None)[m]);
    HeadArrives(12, m, AllOffers(DIRECT, OVER_1, DETOUR)[m]);
  }

  lemma TwoRounds()
    ensures RoundsBy(Far(), FarSteps()[..24], 2, 24)
  {
    var steps := FarSteps()[..24];
    forall u, v | Nbr(Far(), u, v) ensures Hears(Far(), steps, 0, 12, u, v) && Hears(Far(), steps, 12, 24, u, v) {
      HeardInRounds(u, v);
    }
    assert Round(Far(), steps, 0, 12) && Round(Far(), steps, 12, 24);
    assert RoundsBy(Far(), steps, 0, 0);
    assert RoundsBy(Far(), steps, 1, 12);
  }

  lemma FarKnows(k: nat, u: nat)
    requires k <= 26 && u < 4
    ensures u in ViewAt(k).known && FifoRun(Far(), FarSteps()[..k])
    ensures At(After(Far(), FarSteps()[..k]), u, 0) == ViewAt(k).known[u]
  {
    FarIsSeen(k);
  }

  /** Two rounds are enough for four routers; yet the next packet of router 3 makes router 1 give up its
      cost 5000 for the route over 3, at cost INFINITY. */
  lemma ChangeAfterConvergence()
    ensures WellFormed(Far()) && |Far()| == 4 && FifoRun(Far(), FarSteps())
    ensures RoundsBy(Far(), FarSteps()[..24], 2, 24)
    ensures At(After(Far(), FarSteps()[..24]), 1, 0) == Some(Route(0, 0, 5000))
    ensures At(After(Far(), FarSteps()), 1, 0) == Some(Route(0, 3, INFINITY))
  {
    FarIsWellFormed();
    TwoRounds();
    FarKnows(24, 1);
    FarKnows(26, 1);
    assert FarSteps()[..26] == FarSteps();
  }
}
