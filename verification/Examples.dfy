/** Small networks, and runs as far as one destination is concerned: enough to follow a run by hand. */
module Examples {
  import opened Protocol
  import opened TableSpec
  import opened TableLaws
  import opened Graph
  import opened Network
  import opened Soundness
  import opened FifoRuns
  import opened Convergence
  import opened Bounds
  import opened SplitHorizon

  /** The answer for router u with the given neighbours. */
  function Answer(u: nat, nbrs: seq<NbrCost>): InitResponse
    requires |nbrs| <= 8
  {
    InitResponse(|nbrs|, nbrs + [NbrCost(u, 0)] + seq(9 - |nbrs|, _ => NbrCost(0, 0)))
  }

  /** What routers 1, 2 and 3 know. */
  function Known(at1: Option<Route>, at2: Option<Route>, at3: Option<Route>): map<nat, Option<Route>> {
    map[1 := at1, 2 := at2, 3 := at3]
  }

  // ---------- A run as one destination sees it ----------

  /** A packet in flight, and what it says about the destination. */
  datatype Offer = Offer(from: nat, to: nat, heard: Option<Route>)

  /** The wire, and what some routers know, as far as one destination is concerned. */
  datatype View = View(wire: seq<Offer>, known: map<nat, Option<Route>>)

  ghost predicate Shows(s: State, d: nat, v: View) {
    && |s.wire| == |v.wire|
    && (forall i :: 0 <= i < |v.wire| ==> v.wire[i] == Offer(s.wire[i].from, s.wire[i].to, Get(s.wire[i].routes, d)))
    && (forall u :: u in v.known ==> At(s, u, d) == v.known[u])
  }

  /** The offers of router u, which has route r, to its neighbours. */
  function OffersOf(u: nat, resp: InitResponse, r: Option<Route>): (os: seq<Offer>)
    requires resp.FitsArrays()
    ensures |os| == resp.noNbr
    ensures forall i :: 0 <= i < |os| ==> os[i] == Offer(u, resp.nbrCost[i].nbr, r)
  {
    seq(resp.noNbr, i requires 0 <= i < resp.noNbr => Offer(u, resp.nbrCost[i].nbr, r))
  }

  /** Steps of routers in view: advertisements, deliveries of the oldest packet on a link, timeouts. */
  ghost predicate CanSee(cfg: Config, v: View, step: Step) {
    match step
    case Advertise(u) => u in v.known && u in cfg && cfg[u].FitsArrays()
    case Deliver(i) =>
      && i < |v.wire| && v.wire[i].to in v.known && Nbr(cfg, v.wire[i].to, v.wire[i].from)
      && forall k :: 0 <= k < i ==> v.wire[k].from != v.wire[i].from || v.wire[k].to != v.wire[i].to
    case Timeout(u, n) => u in v.known && Nbr(cfg, u, n)
    case _ => false
  }

  function See(cfg: Config, v: View, step: Step): View
    requires CanSee(cfg, v, step)
  {
    match step
    case Advertise(u) => v.(wire := v.wire + OffersOf(u, cfg[u], v.known[u]))
    case Deliver(i) =>
      var o := v.wire[i];
      View(v.wire[..i] + v.wire[i + 1..],
           v.known[o.to := MergeEntry(v.known[o.to], o.heard, Hop(o.from, LinkCost(cfg, o.to, o.from), o.to))])
    case Timeout(u, n) => v.(known := v.known[u := Lost(v.known[u], n)])
  }

  /** Packets are delivered in order and none is lost or doubled; timeouts may happen. */
  ghost predicate InOrder(cfg: Config, steps: seq<Step>) {
    steps != [] ==>
      && InOrder(cfg, steps[..|steps| - 1])
      && (steps[|steps| - 1].Timeout? || FifoStep(After(cfg, steps[..|steps| - 1]), steps[|steps| - 1]))
  }

  ghost predicate NoTimeouts(steps: seq<Step>) {
    forall k :: 0 <= k < |steps| ==> !steps[k].Timeout?
  }

  lemma {:induction false} InOrderIsFifo(cfg: Config, steps: seq<Step>)
    requires InOrder(cfg, steps) && NoTimeouts(steps)
    ensures FifoRun(cfg, steps)
  {
    if steps != [] {
      InOrderIsFifo(cfg, steps[..|steps| - 1]);
    }
  }

  /** After the run, the network shows v. */
  ghost predicate Seen(cfg: Config, steps: seq<Step>, d: nat, v: View) {
    InOrder(cfg, steps) && Shows(After(cfg, steps), d, v)
  }

  lemma AdvertiseShows(cfg: Config, s: State, d: nat, v: View, u: nat)
    requires Shows(s, d, v) && CanSee(cfg, v, Advertise(u))
    ensures Shows(Next(cfg, s, Advertise(u)), d, See(cfg, v, Advertise(u)))
  {
  }

  lemma OldestInView(s: State, d: nat, v: View, i: nat)
    requires Shows(s, d, v) && i < |v.wire|
    requires forall k :: 0 <= k < i ==> v.wire[k].from != v.wire[i].from || v.wire[k].to != v.wire[i].to
    ensures OldestOnLink(s.wire, i)
  {
  }

  lemma RestShows(s: State, s': State, d: nat, v: View, i: nat)
    requires Shows(s, d, v) && i < |v.wire| && |s'.wire| == |s.wire| - 1
    requires forall k :: 0 <= k < |s'.wire| ==> s'.wire[k] == s.wire[if k < i then k else k + 1]
    ensures var rest := v.wire[..i] + v.wire[i + 1..];
            && |rest| == |s'.wire|
            && forall k :: 0 <= k < |rest| ==>
                 rest[k] == Offer(s'.wire[k].from, s'.wire[k].to, Get(s'.wire[k].routes, d))
  {
  }

  lemma DeliverShows(cfg: Config, s: State, d: nat, v: View, i: nat)
    requires Shows(s, d, v) && CanSee(cfg, v, Deliver(i)) && Distinct(s.wire[i].routes)
    ensures Shows(Next(cfg, s, Deliver(i)), d, See(cfg, v, Deliver(i)))
  {
    var s', o := Next(cfg, s, Deliver(i)), v.wire[i];
    DeliveredAt(cfg, s, i, d);
    RestShows(s, s', d, v, i);
    forall u | u in v.known && u != o.to ensures At(s', u, d) == v.known[u] {
      assert Table(s', u) == Table(s, u);
    }
  }

  lemma DeliverIsSeen(cfg: Config, s: State, d: nat, v: View, i: nat)
    requires Sound(cfg, s) && Shows(s, d, v) && CanSee(cfg, v, Deliver(i))
    ensures Shows(Next(cfg, s, Deliver(i)), d, See(cfg, v, Deliver(i))) && FifoStep(s, Deliver(i))
  {
    assert PacketSound(cfg, s, s.wire[i]);
    DeliverShows(cfg, s, d, v, i);
    OldestInView(s, d, v, i);
  }

  lemma TimeoutShows(cfg: Config, s: State, d: nat, v: View, u: nat, n: nat)
    requires Shows(s, d, v) && CanSee(cfg, v, Timeout(u, n)) && u in s.tables
    ensures Shows(Next(cfg, s, Timeout(u, n)), d, See(cfg, v, Timeout(u, n)))
  {
    var s' := Next(cfg, s, Timeout(u, n));
    TimeoutChanges(cfg, s, u, n);
    GetUninstall(Table(s, u), n, d);
    forall x | x in v.known && x != u ensures At(s', x, d) == v.known[x] {
      assert Table(s', x) == Table(s, x);
    }
  }

  lemma NextIsShown(cfg: Config, s: State, d: nat, v: View, step: Step)
    requires WellFormed(cfg) && Sound(cfg, s) && Shows(s, d, v) && CanSee(cfg, v, step)
    ensures Shows(Next(cfg, s, step), d, See(cfg, v, step)) && (step.Timeout? || FifoStep(s, step))
  {
    match step
    case Advertise(u) => AdvertiseShows(cfg, s, d, v, u);
    case Timeout(u, n) =>
      NbrIsOther(cfg, u, n);
      TimeoutShows(cfg, s, d, v, u, n);
    case Deliver(i) => DeliverIsSeen(cfg, s, d, v, i);
  }

  lemma StepIsShown(cfg: Config, before: seq<Step>, d: nat, v: View, step: Step)
    requires WellFormed(cfg) && Shows(After(cfg, before), d, v) && CanSee(cfg, v, step)
    ensures Shows(Next(cfg, After(cfg, before), step), d, See(cfg, v, step))
    ensures step.Timeout? || FifoStep(After(cfg, before), step)
  {
    AlwaysSound(cfg, before);
    NextIsShown(cfg, After(cfg, before), d, v, step);
  }

  lemma SeenNext(cfg: Config, steps: seq<Step>, d: nat, v: View)
    requires steps != [] && InOrder(cfg, steps[..|steps| - 1])
    requires var s, step := After(cfg, steps[..|steps| - 1]), steps[|steps| - 1];
             Shows(Next(cfg, s, step), d, v) && (step.Timeout? || FifoStep(s, step))
    ensures Seen(cfg, steps, d, v)
  {
  }

  lemma StepIsSeen(cfg: Config, steps: seq<Step>, d: nat, v: View)
    requires WellFormed(cfg) && steps != []
    requires Seen(cfg, steps[..|steps| - 1], d, v) && CanSee(cfg, v, steps[|steps| - 1])
    ensures Seen(cfg, steps, d, See(cfg, v, steps[|steps| - 1]))
  {
    var before, step := steps[..|steps| - 1], steps[|steps| - 1];
    StepIsShown(cfg, before, d, v, step);
    SeenNext(cfg, steps, d, See(cfg, v, step));
  }

  /** Step k can be seen and leads to the next view. */
  ghost predicate Fits(cfg: Config, views: seq<View>, steps: seq<Step>, k: nat)
    requires |views| == |steps| + 1 && k < |steps|
  {
    CanSee(cfg, views[k], steps[k]) && See(cfg, views[k], steps[k]) == views[k + 1]
  }

  /** The views of a run. */
  ghost predicate Sees(cfg: Config, views: seq<View>, steps: seq<Step>) {
    && |views| == |steps| + 1
    && forall k :: 0 <= k < |steps| ==> Fits(cfg, views, steps, k)
  }

  lemma PrefixSees(cfg: Config, views: seq<View>, steps: seq<Step>, k: nat)
    requires Sees(cfg, views, steps) && k <= |steps|
    ensures Sees(cfg, views[..k + 1], steps[..k])
  {
    var vs, ss := views[..k + 1], steps[..k];
    forall j | 0 <= j < k ensures Fits(cfg, vs, ss, j) {
      assert Fits(cfg, views, steps, j);
    }
  }

  lemma {:induction false} RunIsSeen(cfg: Config, d: nat, views: seq<View>, steps: seq<Step>)
    requires WellFormed(cfg) && Sees(cfg, views, steps) && Shows(Init(cfg), d, views[0])
    ensures Seen(cfg, steps, d, views[|steps|])
  {
    if steps != [] {
      var n := |steps| - 1;
      PrefixSees(cfg, views, steps, n);
      RunIsSeen(cfg, d, views[..|steps|], steps[..n]);
      assert Fits(cfg, views, steps, n);
      StepIsSeen(cfg, steps, d, views[n]);
    }
  }

  lemma PrefixIsSeen(cfg: Config, d: nat, views: seq<View>, steps: seq<Step>, k: nat)
    requires WellFormed(cfg) && Sees(cfg, views, steps) && Shows(Init(cfg), d, views[0]) && k <= |steps|
    ensures Seen(cfg, steps[..k], d, views[k])
  {
    PrefixSees(cfg, views, steps, k);
    RunIsSeen(cfg, d, views[..k + 1], steps[..k]);
  }

  lemma PrefixShows(cfg: Config, d: nat, views: seq<View>, steps: seq<Step>, k: nat)
    requires WellFormed(cfg) && Sees(cfg, views, steps) && Shows(Init(cfg), d, views[0])
    requires k <= |steps| && NoTimeouts(steps[..k])
    ensures FifoRun(cfg, steps[..k]) && Shows(After(cfg, steps[..k]), d, views[k])
  {
    PrefixIsSeen(cfg, d, views, steps, k);
    InOrderIsFifo(cfg, steps[..k]);
  }

  /** A view of the initial state. */
  lemma StartIsSeen(cfg: Config, d: nat, v: View)
    requires WellFormed(cfg) && v.wire == [] && v.known.Keys <= cfg.Keys
    requires forall u :: u in v.known ==> v.known[u] == KnownAtStart(cfg, u, d)
    ensures Shows(Init(cfg), d, v)
  {
    forall u | u in v.known ensures At(Init(cfg), u, d) == v.known[u] {
      InitRowAt(cfg, u, d);
    }
  }

  lemma ViewTells(cfg: Config, steps: seq<Step>, d: nat, v: View, u: nat)
    requires Seen(cfg, steps, d, v) && u in v.known
    ensures InOrder(cfg, steps) && At(After(cfg, steps), u, d) == v.known[u]
  {
  }

  /** When nothing was in flight at step a, everything in flight later was sent since. */
  lemma {:induction false} SentSince(cfg: Config, steps: seq<Step>, a: nat)
    requires a <= |steps| && After(cfg, steps[..a]).wire == []
    ensures forall p :: p in After(cfg, steps).wire ==> p.stamp >= a
  {
    if a == |steps| {
      assert steps[..a] == steps;
    } else {
      var before := steps[..|steps| - 1];
      assert before[..a] == steps[..a];
      SentSince(cfg, before, a);
    }
  }

  /** Step j delivers the first packet of the view, in a round that began with an empty wire. */
  lemma HearsHead(cfg: Config, all: seq<Step>, n: nat, a: nat, j: nat, d: nat, v: View)
    requires a <= j < n <= |all| && all[j] == Deliver(0) && After(cfg, all[..a]).wire == []
    requires Shows(After(cfg, all[..j]), d, v) && v.wire != []
    ensures HearsAt(cfg, all[..n], a, j, v.wire[0].to, v.wire[0].from)
  {
    var s := After(cfg, all[..j]);
    assert all[..n][..j] == all[..j] && all[..j][..a] == all[..a];
    SentSince(cfg, all[..j], a);
    assert s.wire[0] in s.wire;
  }

  lemma SeenPlain(cfg: Config, steps: seq<Step>, d: nat, v: View, i: nat)
    requires WellFormed(cfg) && Seen(cfg, steps, d, v) && CanSee(cfg, v, Deliver(i))
    requires v.known[v.wire[i].to].Some? && v.wire[i].heard.Some?
    ensures var o := v.wire[i];
            At(NextPlain(cfg, After(cfg, steps), Deliver(i)), o.to, d)
            == Some(MergedPlain(v.known[o.to].value, o.heard.value, Hop(o.from, LinkCost(cfg, o.to, o.from), o.to)))
  {
    var s := After(cfg, steps);
    AlwaysSound(cfg, steps);
    assert PacketSound(cfg, s, s.wire[i]);
    PlainPointwise(Table(s, v.wire[i].to), s.wire[i].routes, HopOf(cfg, s.wire[i]), d);
  }
}
