/** Runs without failures: packets on one link arrive in the order of sending (some may be lost), and
    no neighbour is declared dead. Routes are then free of loops at every moment, and split horizon
    takes nothing away. */
module FifoRuns {
  import opened Protocol
  import opened TableSpec
  import opened TableLaws
  import opened Graph
  import opened Network
  import opened Soundness

  ghost predicate SameLink(p: Packet, q: Packet) {
    p.from == q.from && p.to == q.to
  }

  ghost predicate OldestOnLink(wire: seq<Packet>, i: nat)
    requires i < |wire|
  {
    forall k :: 0 <= k < i ==> !SameLink(wire[k], wire[i])
  }

  ghost predicate FifoStep(s: State, step: Step) {
    match step
    case Advertise(_) => true
    case Deliver(i) => i < |s.wire| ==> OldestOnLink(s.wire, i)
    case Lose(_) => true
    case Duplicate(_) => false
    case Timeout(_, _) => false
  }

  ghost predicate FifoRun(cfg: Config, steps: seq<Step>) {
    steps != [] ==>
      && FifoRun(cfg, steps[..|steps| - 1])
      && FifoStep(After(cfg, steps[..|steps| - 1]), steps[|steps| - 1])
  }

  /** One step more. */
  lemma FifoAppends(cfg: Config, steps: seq<Step>, step: Step)
    ensures After(cfg, steps + [step]) == Next(cfg, After(cfg, steps), step)
    ensures FifoRun(cfg, steps) && FifoStep(After(cfg, steps), step) ==> FifoRun(cfg, steps + [step])
  {
    assert (steps + [step])[..|steps|] == steps;
  }

  // ---------- The order of what routers know ----------

  /** What router u knows about destination d. */
  function At(s: State, u: nat, d: nat): Option<Route> {
    Get(Table(s, u), d)
  }

  /** Router u has a route to d that is at least as good as cost c. */
  ghost predicate Reaches(s: State, u: nat, d: nat, c: nat) {
    At(s, u, d).Some? && Sat(At(s, u, d).value.cost) <= Sat(c)
  }

  /** Router v has a route to d, and going there first costs no more than c. */
  ghost predicate Via(cfg: Config, s: State, u: nat, v: nat, d: nat, c: nat) {
    Nbr(cfg, u, v) && At(s, v, d).Some? && Sat(LinkCost(cfg, u, v) + At(s, v, d).value.cost) <= Sat(c)
  }

  ghost predicate RowOrdered(cfg: Config, s: State, u: nat, d: nat) {
    match At(s, u, d)
    case None => true
    case Some(r) => r.nextHop != u ==> Via(cfg, s, u, r.nextHop, d, r.cost)
  }

  /** A row in flight is no better than what its sender, and its sender's next hop, know by now. */
  ghost predicate PacketBehindSender(cfg: Config, s: State, p: Packet, d: nat) {
    match Get(p.routes, d)
    case None => true
    case Some(e) =>
      && Reaches(s, p.from, d, e.cost)
      && (e.nextHop != p.from ==> Via(cfg, s, p.from, e.nextHop, d, e.cost))
  }

  /** A router that goes through the sender already knows nothing better than the packet offers. */
  ghost predicate PacketAheadOfReceiver(cfg: Config, s: State, p: Packet, d: nat)
  {
    match (Get(p.routes, d), At(s, p.to, d))
    case (Some(e), Some(r)) =>
      Nbr(cfg, p.to, p.from) && r.nextHop == p.from ==> Sat(LinkCost(cfg, p.to, p.from) + e.cost) <= Sat(r.cost)
    case _ => true
  }

  /** Of two packets on one link the later one offers at least as much. */
  ghost predicate LaterIsBetter(p: Packet, q: Packet, d: nat) {
    match Get(p.routes, d)
    case None => true
    case Some(e) => Get(q.routes, d).Some? && Sat(Get(q.routes, d).value.cost) <= Sat(e.cost)
  }

  ghost predicate PacketOrdered(cfg: Config, s: State, p: Packet) {
    forall d :: PacketBehindSender(cfg, s, p, d) && PacketAheadOfReceiver(cfg, s, p, d)
  }

  ghost predicate PairOrdered(wire: seq<Packet>, i: nat, j: nat)
    requires i < j < |wire|
  {
    SameLink(wire[i], wire[j]) ==> forall d :: LaterIsBetter(wire[i], wire[j], d)
  }

  ghost predicate WireOrdered(cfg: Config, s: State) {
    && (forall i :: 0 <= i < |s.wire| ==> PacketOrdered(cfg, s, s.wire[i]))
    && (forall i, j :: 0 <= i < j < |s.wire| ==> PairOrdered(s.wire, i, j))
  }

  ghost predicate Ordered(cfg: Config, s: State) {
    && (forall u, d :: u in cfg ==> RowOrdered(cfg, s, u, d))
    && WireOrdered(cfg, s)
  }

  /** Routes are only gained or improved. */
  ghost predicate Improves(s: State, s': State) {
    forall u, d :: At(s, u, d).Some? ==> Reaches(s', u, d, At(s, u, d).value.cost)
  }

  // ---------- One step ----------

  /** What becomes of router p.to's route to d when packet p arrives: it does not get worse, and it
      is the old one or goes through the sender at the advertised cost. */
  ghost predicate ReceivedAt(cfg: Config, s: State, s': State, p: Packet, d: nat) {
    && Nbr(cfg, p.to, p.from)
    && (At(s, p.to, d).Some? ==> Reaches(s', p.to, d, At(s, p.to, d).value.cost))
    && match At(s', p.to, d)
       case None => Get(p.routes, d).None?
       case Some(r) =>
         || (At(s, p.to, d) == Some(r) && (Get(p.routes, d).Some? ==> r.nextHop != p.from))
         || (Get(p.routes, d).Some? && r.nextHop == p.from
             && Sat(r.cost) == Sat(LinkCost(cfg, p.to, p.from) + Get(p.routes, d).value.cost))
  }

  lemma ReceivedRow(cfg: Config, s: State, s': State, p: Packet, d: nat)
    requires Nbr(cfg, p.to, p.from) && Distinct(p.routes) && PacketAheadOfReceiver(cfg, s, p, d)
    requires Table(s', p.to) == Received(cfg, s, p)
    ensures ReceivedAt(cfg, s, s', p, d)
  {
    UpdatePointwise(Table(s, p.to), p.routes, HopOf(cfg, p), d);
  }

  /** The effect of delivering the i-th packet, as far as the proofs below need it. */
  ghost predicate Delivered(cfg: Config, s: State, s': State, i: nat) {
    && i < |s.wire| && s'.wire == Without(s.wire, i)
    && (forall u :: u != s.wire[i].to ==> Table(s', u) == Table(s, u))
    && (forall d :: ReceivedAt(cfg, s, s', s.wire[i], d))
  }

  lemma DeliverDelivers(cfg: Config, s: State, i: nat)
    requires Sound(cfg, s) && WireOrdered(cfg, s) && i < |s.wire|
    ensures Delivered(cfg, s, Next(cfg, s, Deliver(i)), i)
  {
    var s', p := Next(cfg, s, Deliver(i)), s.wire[i];
    assert PacketSound(cfg, s, s.wire[i]);
    assert PacketOrdered(cfg, s, s.wire[i]);
    forall d ensures ReceivedAt(cfg, s, s', p, d) {
      assert PacketAheadOfReceiver(cfg, s, p, d);
      ReceivedRow(cfg, s, s', p, d);
    }
  }

  lemma DeliverImproves(cfg: Config, s: State, s': State, i: nat)
    requires Delivered(cfg, s, s', i)
    ensures Improves(s, s')
  {
    forall u, d | At(s, u, d).Some? ensures Reaches(s', u, d, At(s, u, d).value.cost) {
      assert ReceivedAt(cfg, s, s', s.wire[i], d);
    }
  }

  lemma ViaImproves(cfg: Config, s: State, s': State, u: nat, v: nat, d: nat, c: nat)
    requires Improves(s, s') && Via(cfg, s, u, v, d, c)
    ensures Via(cfg, s', u, v, d, c)
  {
  }

  lemma BehindSenderImproves(cfg: Config, s: State, s': State, p: Packet, d: nat)
    requires Improves(s, s') && PacketBehindSender(cfg, s, p, d)
    ensures PacketBehindSender(cfg, s', p, d)
  {
  }

  lemma DeliverRows(cfg: Config, s: State, s': State, i: nat, u: nat, d: nat)
    requires Delivered(cfg, s, s', i) && Improves(s, s')
    requires RowOrdered(cfg, s, u, d) && PacketBehindSender(cfg, s, s.wire[i], d)
    ensures RowOrdered(cfg, s', u, d)
  {
    var p := s.wire[i];
    assert ReceivedAt(cfg, s, s', p, d);
    BehindSenderImproves(cfg, s, s', p, d);
    if At(s', u, d).Some? {
      var r := At(s', u, d).value;
      if At(s, u, d) == Some(r) && r.nextHop != u {
        ViaImproves(cfg, s, s', u, r.nextHop, d, r.cost);
      }
    }
  }

  lemma DeliverAhead(cfg: Config, s: State, s': State, i: nat, q: Packet, d: nat)
    requires Delivered(cfg, s, s', i) && PacketAheadOfReceiver(cfg, s, q, d)
    requires SameLink(s.wire[i], q) ==> LaterIsBetter(s.wire[i], q, d)
    ensures PacketAheadOfReceiver(cfg, s', q, d)
  {
    assert ReceivedAt(cfg, s, s', s.wire[i], d);
  }

  lemma PairsWithout(wire: seq<Packet>, i: nat)
    requires i < |wire| && forall a, b :: 0 <= a < b < |wire| ==> PairOrdered(wire, a, b)
    ensures var rest := Without(wire, i); forall a, b :: 0 <= a < b < |rest| ==> PairOrdered(rest, a, b)
  {
    var rest := Without(wire, i);
    forall a, b | 0 <= a < b < |rest| ensures PairOrdered(rest, a, b) {
      assert PairOrdered(wire, if a < i then a else a + 1, if b < i then b else b + 1);
    }
  }

  lemma DeliverWire(cfg: Config, s: State, s': State, i: nat)
    requires Delivered(cfg, s, s', i) && Improves(s, s') && WireOrdered(cfg, s) && OldestOnLink(s.wire, i)
    ensures WireOrdered(cfg, s')
  {
    forall k | 0 <= k < |s'.wire| ensures PacketOrdered(cfg, s', s'.wire[k]) {
      var j := if k < i then k else k + 1;
      var q := s.wire[j];
      assert s'.wire[k] == q;
      assert PacketOrdered(cfg, s, s.wire[j]);
      assert SameLink(s.wire[i], q) ==> i < j && PairOrdered(s.wire, i, j);
      forall d ensures PacketBehindSender(cfg, s', q, d) && PacketAheadOfReceiver(cfg, s', q, d) {
        BehindSenderImproves(cfg, s, s', q, d);
        DeliverAhead(cfg, s, s', i, q, d);
      }
    }
    PairsWithout(s.wire, i);
  }

  lemma AdvertisedPacket(cfg: Config, s: State, u: nat, p: Packet)
    requires WellFormed(cfg) && Sound(cfg, s) && Ordered(cfg, s) && u in cfg
    requires p.from == u && Nbr(cfg, u, p.to) && p.routes == Table(s, u)
    ensures PacketOrdered(cfg, s, p)
  {
    NbrIsOther(cfg, u, p.to);
    forall d ensures PacketBehindSender(cfg, s, p, d) && PacketAheadOfReceiver(cfg, s, p, d) {
      assert RowOrdered(cfg, s, u, d);
      assert RowOrdered(cfg, s, p.to, d);
    }
  }

  lemma SameTables(cfg: Config, s: State, s': State, p: Packet)
    requires s'.tables == s.tables && PacketOrdered(cfg, s, p)
    ensures PacketOrdered(cfg, s', p)
  {
    forall d ensures PacketBehindSender(cfg, s', p, d) && PacketAheadOfReceiver(cfg, s', p, d) {
      assert PacketBehindSender(cfg, s, p, d) && PacketAheadOfReceiver(cfg, s, p, d);
      assert forall u :: At(s', u, d) == At(s, u, d);
    }
  }

  lemma AdvertiseOrdered(cfg: Config, s: State, u: nat)
    requires WellFormed(cfg) && Sound(cfg, s) && Ordered(cfg, s) && u in cfg && cfg[u].FitsArrays()
    ensures WireOrdered(cfg, Next(cfg, s, Advertise(u)))
  {
    var s' := Next(cfg, s, Advertise(u));
    forall i | 0 <= i < |s'.wire| ensures PacketOrdered(cfg, s', s'.wire[i]) {
      if i >= |s.wire| {
        NbrAt(cfg, u, i - |s.wire|);
        AdvertisedPacket(cfg, s, u, s'.wire[i]);
      } else {
        assert PacketOrdered(cfg, s, s.wire[i]);
      }
      SameTables(cfg, s, s', s'.wire[i]);
    }
    forall i, j | 0 <= i < j < |s'.wire| ensures PairOrdered(s'.wire, i, j) {
      if j < |s.wire| {
        assert PairOrdered(s.wire, i, j);
      } else if i < |s.wire| && SameLink(s.wire[i], s'.wire[j]) {
        assert PacketOrdered(cfg, s, s.wire[i]);
        forall d ensures LaterIsBetter(s.wire[i], s'.wire[j], d) {
          assert PacketBehindSender(cfg, s, s.wire[i], d);
        }
      }
    }
  }

  lemma WireOrderedWithout(cfg: Config, s: State, i: nat)
    requires WireOrdered(cfg, s) && i < |s.wire|
    ensures WireOrdered(cfg, Next(cfg, s, Lose(i)))
  {
    var s' := Next(cfg, s, Lose(i));
    forall k | 0 <= k < |s'.wire| ensures PacketOrdered(cfg, s', s'.wire[k]) {
      var j := if k < i then k else k + 1;
      assert PacketOrdered(cfg, s, s.wire[j]);
      SameTables(cfg, s, s', s.wire[j]);
    }
    PairsWithout(s.wire, i);
  }

  lemma DeliverOrdered(cfg: Config, s: State, i: nat)
    requires Sound(cfg, s) && Ordered(cfg, s) && i < |s.wire| && OldestOnLink(s.wire, i)
    ensures Ordered(cfg, Next(cfg, s, Deliver(i))) && Improves(s, Next(cfg, s, Deliver(i)))
  {
    var s' := Next(cfg, s, Deliver(i));
    DeliverDelivers(cfg, s, i);
    DeliverImproves(cfg, s, s', i);
    DeliverWire(cfg, s, s', i);
    assert PacketOrdered(cfg, s, s.wire[i]);
    forall u, d | u in cfg ensures RowOrdered(cfg, s', u, d) {
      assert PacketBehindSender(cfg, s, s.wire[i], d);
      assert RowOrdered(cfg, s, u, d);
      DeliverRows(cfg, s, s', i, u, d);
    }
  }

  lemma QuietStepOrdered(cfg: Config, s: State, step: Step)
    requires WellFormed(cfg) && Sound(cfg, s) && Ordered(cfg, s) && Next(cfg, s, step).tables == s.tables
    requires step.Advertise? || step.Lose? || Next(cfg, s, step).wire == s.wire
    ensures Ordered(cfg, Next(cfg, s, step)) && Improves(s, Next(cfg, s, step))
  {
    var s' := Next(cfg, s, step);
    forall u, d ensures At(s', u, d) == At(s, u, d) {
    }
    forall u, d | u in cfg ensures RowOrdered(cfg, s', u, d) {
      assert RowOrdered(cfg, s, u, d);
    }
    if step.Advertise? && s'.wire != s.wire {
      AdvertiseOrdered(cfg, s, step.router);
    } else if step.Lose? && s'.wire != s.wire {
      WireOrderedWithout(cfg, s, step.index);
    } else {
      forall i | 0 <= i < |s'.wire| ensures PacketOrdered(cfg, s', s'.wire[i]) {
        SameTables(cfg, s, s', s.wire[i]);
      }
      forall i, j | 0 <= i < j < |s'.wire| ensures PairOrdered(s'.wire, i, j) {
        assert PairOrdered(s.wire, i, j);
      }
    }
  }

  lemma StepOrdered(cfg: Config, s: State, step: Step)
    requires WellFormed(cfg) && Sound(cfg, s) && Ordered(cfg, s) && FifoStep(s, step)
    ensures Ordered(cfg, Next(cfg, s, step)) && Improves(s, Next(cfg, s, step))
  {
    if step.Deliver? && step.index < |s.wire| {
      DeliverOrdered(cfg, s, step.index);
    } else {
      QuietStepOrdered(cfg, s, step);
    }
  }

  lemma InitOrdered(cfg: Config)
    requires WellFormed(cfg)
    ensures Ordered(cfg, Init(cfg))
  {
    var s := Init(cfg);
    InitSound(cfg);
    forall u, d | u in cfg ensures RowOrdered(cfg, s, u, d) {
      assert NbrsOfRouter(cfg, u);
      if At(s, u, d).Some? && At(s, u, d).value.nextHop != u {
        var t := Table(s, u);
        var i := IndexOf(t, d);
        assert i != cfg[u].noNbr;
        NbrAt(cfg, u, i);
        NbrIsOther(cfg, u, d);
        assert TableSound(cfg, d, Table(s, d));
      }
    }
  }

  /** The invariant of every run without failures. */
  lemma {:induction false} AlwaysOrdered(cfg: Config, steps: seq<Step>)
    requires WellFormed(cfg) && FifoRun(cfg, steps)
    ensures Ordered(cfg, After(cfg, steps))
  {
    if steps == [] {
      InitOrdered(cfg);
    } else {
      var before := steps[..|steps| - 1];
      AlwaysOrdered(cfg, before);
      AlwaysSound(cfg, before);
      StepOrdered(cfg, After(cfg, before), steps[|steps| - 1]);
    }
  }

  lemma {:induction false} PrefixIsFifo(cfg: Config, steps: seq<Step>, k: nat)
    requires FifoRun(cfg, steps) && k <= |steps|
    ensures FifoRun(cfg, steps[..k])
  {
    if k == |steps| {
      assert steps[..k] == steps;
    } else {
      PrefixIsFifo(cfg, steps[..|steps| - 1], k);
      assert steps[..|steps| - 1][..k] == steps[..k];
    }
  }

  lemma ReachesThroughImprovement(s: State, s': State, u: nat, d: nat, c: nat)
    requires Improves(s, s') && Reaches(s, u, d, c)
    ensures Reaches(s', u, d, c)
  {
  }

  /** In a run without failures no route ever gets worse. */
  lemma {:induction false} RoutesNeverGetWorse(cfg: Config, steps: seq<Step>, k: nat, u: nat, d: nat, c: nat)
    requires WellFormed(cfg) && FifoRun(cfg, steps) && k <= |steps|
    requires Reaches(After(cfg, steps[..k]), u, d, c)
    ensures Reaches(After(cfg, steps), u, d, c)
  {
    if k == |steps| {
      assert steps[..k] == steps;
    } else {
      var before := steps[..|steps| - 1];
      assert before[..k] == steps[..k];
      RoutesNeverGetWorse(cfg, before, k, u, d, c);
      AlwaysOrdered(cfg, before);
      AlwaysSound(cfg, before);
      StepOrdered(cfg, After(cfg, before), steps[|steps| - 1]);
      ReachesThroughImprovement(After(cfg, before), After(cfg, steps), u, d, c);
    }
  }

  lemma KnownIsRouter(cfg: Config, s: State, u: nat, d: nat)
    requires Sound(cfg, s) && u in cfg && At(s, u, d).Some?
    ensures d in cfg
  {
    var t := Table(s, u);
    assert TableSound(cfg, u, t);
    assert t[IndexOf(t, d)] in t;
    var w :| Supports(cfg, u, t[IndexOf(t, d)], w);
    assert w[|w| - 1] in cfg;
  }

  lemma NextHopIsCloser(cfg: Config, s: State, u: nat, d: nat)
    requires WellFormed(cfg) && Sound(cfg, s) && Ordered(cfg, s) && u in cfg && u != d
    requires At(s, u, d).Some? && At(s, u, d).value.cost < INFINITY
    ensures var r := At(s, u, d).value;
            && Nbr(cfg, u, r.nextHop) && r.nextHop in cfg && At(s, r.nextHop, d).Some?
            && LinkCost(cfg, u, r.nextHop) + At(s, r.nextHop, d).value.cost <= r.cost
  {
    var t := Table(s, u);
    var r := t[IndexOf(t, d)];
    assert TableSound(cfg, u, t);
    assert r in t;
    var w :| Supports(cfg, u, r, w);
    assert |w| > 1 && Nbr(cfg, w[0], w[0 + 1]);
    NbrIsOther(cfg, u, r.nextHop);
    assert RowOrdered(cfg, s, u, d);
  }

  // ---------- Split horizon ----------

  lemma RejectedRow(cfg: Config, s: State, p: Packet, e: Route)
    requires Nbr(cfg, p.to, p.from) && p.to != p.from && e in p.routes && Distinct(p.routes)
    requires PacketBehindSender(cfg, s, p, e.dest)
    requires SplitHorizonBites(Table(s, p.to), e, HopOf(cfg, p))
    ensures At(s, p.to, e.dest).value.cost > INFINITY && LinkCost(cfg, p.to, p.from) + e.cost >= INFINITY
  {
  }

  /** Where split horizon rejects a row that would have counted, the receiver's own row is above
      INFINITY and the rejected sum is at least INFINITY: both say "unreachable". */
  lemma OnlyUnreachableRowsAreBitten(cfg: Config, steps: seq<Step>, i: nat, e: Route)
    requires WellFormed(cfg) && FifoRun(cfg, steps)
    requires i < |After(cfg, steps).wire| && e in After(cfg, steps).wire[i].routes
    ensures var s := After(cfg, steps);
            var p := s.wire[i];
            && Nbr(cfg, p.to, p.from)
            && (SplitHorizonBites(Table(s, p.to), e, HopOf(cfg, p)) ==>
                  At(s, p.to, e.dest).value.cost > INFINITY && LinkCost(cfg, p.to, p.from) + e.cost >= INFINITY)
  {
    var s := After(cfg, steps);
    AlwaysSound(cfg, steps);
    AlwaysOrdered(cfg, steps);
    var p := s.wire[i];
    assert PacketSound(cfg, s, s.wire[i]);
    assert PacketOrdered(cfg, s, s.wire[i]);
    NbrIsOther(cfg, p.to, p.from);
    assert PacketBehindSender(cfg, s, p, e.dest);
    if SplitHorizonBites(Table(s, p.to), e, HopOf(cfg, p)) {
      RejectedRow(cfg, s, p, e);
    }
  }

  /** A row that comes back to the router it goes through meets a row above INFINITY that it would have
      beaten. */
  ghost predicate RowBitten(cfg: Config, s: State, p: Packet, e: Route)
    requires Nbr(cfg, p.to, p.from)
  {
    var known := At(s, p.to, e.dest);
    && e.nextHop == p.to && known.Some? && known.value.cost > INFINITY
    && known.value.nextHop != p.from && LinkCost(cfg, p.to, p.from) + e.cost < known.value.cost
  }

  /** A delivery in a run without failures has the same effect without the split-horizon test, exactly
      when no row of the packet is bitten. */
  lemma SplitHorizonLosesNothing(cfg: Config, steps: seq<Step>, i: nat)
    requires WellFormed(cfg) && FifoRun(cfg, steps) && i < |After(cfg, steps).wire|
    ensures var s := After(cfg, steps);
            var p := s.wire[i];
            && Nbr(cfg, p.to, p.from)
            && (UpdatePlain(Table(s, p.to), p.routes, HopOf(cfg, p)) == Received(cfg, s, p) <==>
                  forall k :: 0 <= k < |p.routes| ==> !RowBitten(cfg, s, p, p.routes[k]))
  {
    var s := After(cfg, steps);
    AlwaysSound(cfg, steps);
    var p := s.wire[i];
    assert PacketSound(cfg, s, s.wire[i]);
    var t, h := Table(s, p.to), HopOf(cfg, p);
    forall k | 0 <= k < |p.routes|
      ensures SplitHorizonBites(t, p.routes[k], h) <==> RowBitten(cfg, s, p, p.routes[k])
    {
      assert p.routes[k] in p.routes;
      OnlyUnreachableRowsAreBitten(cfg, steps, i, p.routes[k]);
    }
    PlainAgreesExactly(t, p.routes, h);
  }

  lemma SameCosts(t: seq<Route>, es: seq<Route>, h: Hop, d: nat)
    requires Distinct(es)
    requires Get(es, d).Some? && SplitHorizonBites(t, Get(es, d).value, h) ==>
      Get(t, d).value.cost > INFINITY && h.cost + Get(es, d).value.cost >= INFINITY
    ensures match (Get(UpdatePlain(t, es, h), d), Get(UpdateTable(t, es, h), d))
            case (None, None) => true
            case (Some(a), Some(b)) => Sat(a.cost) == Sat(b.cost) && (b.cost < INFINITY ==> a == b)
            case _ => false
  {
    PlainPointwise(t, es, h, d);
    UpdatePointwise(t, es, h, d);
  }

  /** With or without the test, the receiver ends up with the same routes as far as they are finite. */
  lemma SplitHorizonKeepsCosts(cfg: Config, steps: seq<Step>, i: nat, d: nat)
    requires WellFormed(cfg) && FifoRun(cfg, steps) && i < |After(cfg, steps).wire|
    ensures var s := After(cfg, steps);
            var p := s.wire[i];
            && Nbr(cfg, p.to, p.from)
            && match (Get(UpdatePlain(Table(s, p.to), p.routes, HopOf(cfg, p)), d), Get(Received(cfg, s, p), d))
               case (None, None) => true
               case (Some(a), Some(b)) => Sat(a.cost) == Sat(b.cost) && (b.cost < INFINITY ==> a == b)
               case _ => false
  {
    var s := After(cfg, steps);
    AlwaysSound(cfg, steps);
    var p := s.wire[i];
    assert PacketSound(cfg, s, s.wire[i]);
    if Get(p.routes, d).Some? {
      var e := p.routes[IndexOf(p.routes, d)];
      assert e in p.routes;
      OnlyUnreachableRowsAreBitten(cfg, steps, i, e);
    }
    SameCosts(Table(s, p.to), p.routes, HopOf(cfg, p), d);
  }
}
