/** Rounds can always be had: from any state of a run without failures the network can complete one
    more, so the hypotheses of Convergence.Converges are met by actual runs. */
module FairRuns {
  import opened Protocol
  import opened Graph
  import opened Network
  import opened Soundness
  import opened FifoRuns
  import opened Convergence

  function Deliveries(n: nat): (ds: seq<Step>)
    ensures |ds| == n && forall i :: 0 <= i < n ==> ds[i] == Deliver(0)
  {
    if n == 0 then [] else Deliveries(n - 1) + [Deliver(0)]
  }

  lemma WithoutFirst(wire: seq<Packet>)
    requires wire != []
    ensures Without(wire, 0) == wire[1..]
  {
  }

  lemma DeliverOldest(cfg: Config, s: State)
    requires s.wire != [] && Nbr(cfg, s.wire[0].to, s.wire[0].from)
    ensures FifoStep(s, Deliver(0)) && Next(cfg, s, Deliver(0)).wire == s.wire[1..]
  {
    WithoutFirst(s.wire);
  }

  /** The run goes on without failures and the wire is then w. */
  ghost predicate Leaves(cfg: Config, steps: seq<Step>, w: seq<Packet>) {
    FifoRun(cfg, steps) && After(cfg, steps).wire == w
  }

  lemma FirstIsBetweenNbrs(cfg: Config, steps: seq<Step>, w: seq<Packet>)
    requires WellFormed(cfg) && Leaves(cfg, steps, w) && w != []
    ensures Nbr(cfg, w[0].to, w[0].from)
  {
    AlwaysSound(cfg, steps);
    assert PacketSound(cfg, After(cfg, steps), w[0]);
  }

  lemma LeavesOneLess(cfg: Config, steps: seq<Step>, w: seq<Packet>)
    requires WellFormed(cfg) && Leaves(cfg, steps, w) && w != []
    ensures Leaves(cfg, steps + [Deliver(0)], w[1..])
  {
    FirstIsBetweenNbrs(cfg, steps, w);
    DeliverOldest(cfg, After(cfg, steps));
    FifoAppends(cfg, steps, Deliver(0));
  }

  lemma OneDeliveryMore(steps: seq<Step>, n: nat, w: seq<Packet>)
    requires 0 < n <= |w|
    ensures steps + Deliveries(n) == steps + Deliveries(n - 1) + [Deliver(0)]
    ensures w[n - 1..][1..] == w[n..]
  {
  }

  lemma NoDeliveries(steps: seq<Step>, w: seq<Packet>)
    ensures steps + Deliveries(0) == steps && w[0..] == w
  {
  }

  /** Delivering the oldest packet again and again empties the wire in order. */
  lemma {:induction false} WireDrains(cfg: Config, steps: seq<Step>, w: seq<Packet>, n: nat)
    requires WellFormed(cfg) && Leaves(cfg, steps, w) && n <= |w|
    ensures Leaves(cfg, steps + Deliveries(n), w[n..])
  {
    if n == 0 {
      NoDeliveries(steps, w);
    } else {
      WireDrains(cfg, steps, w, n - 1);
      LeavesOneLess(cfg, steps + Deliveries(n - 1), w[n - 1..]);
      OneDeliveryMore(steps, n, w);
    }
  }

  /** A packet from u to v that was sent at step a or later is on its way. */
  ghost predicate Pending(s: State, a: nat, u: nat, v: nat) {
    exists i :: 0 <= i < |s.wire| && s.wire[i].from == u && s.wire[i].to == v && s.wire[i].stamp >= a
  }

  lemma AdvertiseAppends(cfg: Config, steps: seq<Step>, u: nat)
    requires WellFormed(cfg) && FifoRun(cfg, steps) && u in cfg
    ensures var more := steps + [Advertise(u)];
            && FifoRun(cfg, more)
            && After(cfg, steps).wire <= After(cfg, more).wire
            && forall v :: Nbr(cfg, u, v) ==> Pending(After(cfg, more), |steps|, u, v)
  {
    var more := steps + [Advertise(u)];
    assert more[..|steps|] == steps;
    assert NbrsOfRouter(cfg, u);
    var s, s' := After(cfg, steps), After(cfg, more);
    forall v | Nbr(cfg, u, v) ensures Pending(s', |steps|, u, v) {
      var i := FindNbr(cfg[u], v);
      assert s'.wire[|s.wire| + i] == Adverts(cfg, s, u)[i];
    }
  }

  lemma PendingStays(s: State, s': State, a: nat, b: nat, u: nat, v: nat)
    requires s.wire <= s'.wire && Pending(s, b, u, v) && a <= b
    ensures Pending(s', a, u, v)
  {
  }

  /** Every router of the set has sent something to each neighbour since step a. */
  ghost predicate AllPending(cfg: Config, s: State, a: nat, rs: set<nat>) {
    forall u, v :: u in rs && Nbr(cfg, u, v) ==> Pending(s, a, u, v)
  }

  /** The longer run adds to the wire, among others, something recent from all routers of rs. */
  ghost predicate Advertised(cfg: Config, steps: seq<Step>, longer: seq<Step>, rs: set<nat>) {
    && steps <= longer && FifoRun(cfg, longer)
    && After(cfg, steps).wire <= After(cfg, longer).wire
    && AllPending(cfg, After(cfg, longer), |steps|, rs)
  }

  lemma OneMoreAdvertised(cfg: Config, steps: seq<Step>, r: nat, longer: seq<Step>, rs: set<nat>)
    requires WellFormed(cfg) && FifoRun(cfg, steps) && r in cfg
    requires Advertised(cfg, steps + [Advertise(r)], longer, rs - {r})
    ensures Advertised(cfg, steps, longer, rs)
  {
    AdvertiseAppends(cfg, steps, r);
    var mid, end, a := After(cfg, steps + [Advertise(r)]), After(cfg, longer), |steps|;
    forall u, v | u in rs && Nbr(cfg, u, v) ensures Pending(end, a, u, v) {
      if u == r {
        PendingStays(mid, end, a, a, u, v);
      } else {
        PendingStays(end, end, a, a + 1, u, v);
      }
    }
  }

  lemma AdvertisingIsFifo(cfg: Config, steps: seq<Step>, r: nat)
    requires FifoRun(cfg, steps)
    ensures FifoRun(cfg, steps + [Advertise(r)])
  {
  }

  lemma NobodyAdvertised(cfg: Config, steps: seq<Step>)
    requires FifoRun(cfg, steps)
    ensures Advertised(cfg, steps, steps, {})
  {
  }

  /** All routers of a set advertise, one after the other. */
  lemma {:induction false} AllAdvertise(cfg: Config, steps: seq<Step>, rs: set<nat>) returns (longer: seq<Step>)
    requires WellFormed(cfg) && FifoRun(cfg, steps) && rs <= cfg.Keys
    ensures Advertised(cfg, steps, longer, rs)
    decreases |rs|
  {
    if rs == {} {
      longer := steps;
      NobodyAdvertised(cfg, steps);
    } else {
      var r :| r in rs;
      AdvertisingIsFifo(cfg, steps, r);
      longer := AllAdvertise(cfg, steps + [Advertise(r)], rs - {r});
      OneMoreAdvertised(cfg, steps, r, longer, rs);
    }
  }

  lemma PendingIsHeard(cfg: Config, steps: seq<Step>, a: nat, u: nat, v: nat)
    requires WellFormed(cfg) && FifoRun(cfg, steps) && a <= |steps|
    requires Pending(After(cfg, steps), a, v, u)
    ensures var n := |After(cfg, steps).wire|;
            Hears(cfg, steps + Deliveries(n), a, |steps| + n, u, v)
  {
    var wire := After(cfg, steps).wire;
    var all := steps + Deliveries(|wire|);
    assert Leaves(cfg, steps, wire);
    var i :| 0 <= i < |wire| && wire[i].from == v && wire[i].to == u && wire[i].stamp >= a;
    WireDrains(cfg, steps, wire, i);
    assert all[..|steps| + i] == steps + Deliveries(i);
    assert wire[i..][0] == wire[i];
    assert HearsAt(cfg, all, a, |steps| + i, u, v);
  }

  /** Any run without failures can go on without failures to complete one more round. */
  lemma AnotherRound(cfg: Config, steps: seq<Step>) returns (more: seq<Step>)
    requires WellFormed(cfg) && FifoRun(cfg, steps)
    ensures FifoRun(cfg, steps + more) && Round(cfg, steps + more, |steps|, |steps + more|)
  {
    var sent := AllAdvertise(cfg, steps, cfg.Keys);
    var n := |After(cfg, sent).wire|;
    more := sent[|steps|..] + Deliveries(n);
    assert steps + more == sent + Deliveries(n);
    WireDrains(cfg, sent, After(cfg, sent).wire, n);
    forall u, v | Nbr(cfg, u, v) ensures Hears(cfg, steps + more, |steps|, |steps + more|, u, v) {
      assert v in cfg && Nbr(cfg, v, u);
      PendingIsHeard(cfg, sent, |steps|, u, v);
    }
  }

  lemma RoundInLongerRun(cfg: Config, steps: seq<Step>, more: seq<Step>, a: nat, b: nat)
    requires Round(cfg, steps, a, b)
    ensures Round(cfg, steps + more, a, b)
  {
    forall u, v | Nbr(cfg, u, v) ensures Hears(cfg, steps + more, a, b, u, v) {
      assert Hears(cfg, steps, a, b, u, v);
      var j: nat :| a <= j < b && j < |steps| && HearsAt(cfg, steps, a, j, u, v);
      assert (steps + more)[..j] == steps[..j];
      assert HearsAt(cfg, steps + more, a, j, u, v);
    }
  }

  lemma {:induction false} RoundsInLongerRun(cfg: Config, steps: seq<Step>, more: seq<Step>, k: nat, b: nat)
    requires RoundsBy(cfg, steps, k, b)
    ensures RoundsBy(cfg, steps + more, k, b)
  {
    if k > 0 {
      var a: nat :| a <= b && RoundsBy(cfg, steps, k - 1, a) && Round(cfg, steps, a, b);
      RoundsInLongerRun(cfg, steps, more, k - 1, a);
      RoundInLongerRun(cfg, steps, more, a, b);
    }
  }

  lemma {:induction false} RoundsArePossible(cfg: Config, k: nat) returns (steps: seq<Step>)
    requires WellFormed(cfg)
    ensures FifoRun(cfg, steps) && RoundsBy(cfg, steps, k, |steps|)
  {
    if k == 0 {
      steps := [];
    } else {
      var before := RoundsArePossible(cfg, k - 1);
      var more := AnotherRound(cfg, before);
      steps := before + more;
      RoundsInLongerRun(cfg, before, more, k - 1, |before|);
    }
  }

  /** Every network has a run without failures after which all routes are exact. */
  lemma ConvergenceIsReachable(cfg: Config) returns (steps: seq<Step>)
    requires WellFormed(cfg)
    ensures FifoRun(cfg, steps)
    ensures forall u, d, c: nat :: u in cfg && IsDistance(cfg, u, d, c) ==>
              ExactRoute(cfg, After(cfg, steps), u, d, c)
  {
    steps := RoundsArePossible(cfg, |cfg|);
    forall u, d, c: nat | u in cfg && IsDistance(cfg, u, d, c)
      ensures ExactRoute(cfg, After(cfg, steps), u, d, c)
    {
      Converges(cfg, steps, |cfg|, |steps|, u, d);
    }
  }
}
