/** Convergence of runs without failures: once every router has heard a recent advertisement of every
    neighbour often enough, all routes are shortest, whatever the interleaving. */
module Convergence {
  import opened Protocol
  import opened TableSpec
  import opened Graph
  import opened Network
  import opened Soundness
  import opened FifoRuns

  ghost predicate HearsAt(cfg: Config, steps: seq<Step>, a: nat, j: nat, u: nat, v: nat)
    requires j < |steps|
  {
    && steps[j].Deliver?
    && var wire := After(cfg, steps[..j]).wire;
       && steps[j].index < |wire|
       && var p := wire[steps[j].index];
          p.to == u && p.from == v && p.stamp >= a
  }

  /** Between steps a and b, router u gets a packet from v that was sent in that time as well. */
  ghost predicate Hears(cfg: Config, steps: seq<Step>, a: nat, b: nat, u: nat, v: nat) {
    exists j: nat :: a <= j < b && j < |steps| && HearsAt(cfg, steps, a, j, u, v)
  }

  /** Between steps a and b every router hears every neighbour. Other packets, also older ones, may be
      sent, lost or delivered meanwhile. */
  ghost predicate Round(cfg: Config, steps: seq<Step>, a: nat, b: nat) {
    a <= b <= |steps| && forall u, v :: Nbr(cfg, u, v) ==> Hears(cfg, steps, a, b, u, v)
  }

  /** The first b steps contain k rounds, one after the other. */
  ghost predicate RoundsBy(cfg: Config, steps: seq<Step>, k: nat, b: nat) {
    && b <= |steps|
    && (k > 0 ==> exists a: nat :: a <= b && RoundsBy(cfg, steps, k - 1, a) && Round(cfg, steps, a, b))
  }

  /** Every router's route is at least as good as every walk of at most k + 1 hops. */
  ghost predicate BeatsWalks(cfg: Config, s: State, k: nat) {
    forall w :: IsWalk(cfg, w) && |w| <= k + 2 ==> Reaches(s, w[0], w[|w| - 1], WalkCost(cfg, w))
  }

  ghost predicate PacketBeatsWalks(cfg: Config, p: Packet, k: nat) {
    forall w :: IsWalk(cfg, w) && |w| <= k + 2 && w[0] == p.from ==>
      var e := Get(p.routes, w[|w| - 1]);
      e.Some? && Sat(e.value.cost) <= Sat(WalkCost(cfg, w))
  }

  lemma InitialNeighbourRoute(cfg: Config, u: nat, v: nat)
    requires WellFormed(cfg) && Nbr(cfg, u, v)
    ensures At(Init(cfg), u, v) == Some(Route(v, v, LinkCost(cfg, u, v)))
  {
  }

  lemma InitBeatsWalks(cfg: Config)
    requires WellFormed(cfg)
    ensures BeatsWalks(cfg, Init(cfg), 0)
  {
    InitSound(cfg);
    forall w | IsWalk(cfg, w) && |w| <= 2 ensures Reaches(Init(cfg), w[0], w[|w| - 1], WalkCost(cfg, w)) {
      if |w| == 2 {
        assert Nbr(cfg, w[0], w[0 + 1]);
        InitialNeighbourRoute(cfg, w[0], w[1]);
      } else {
        assert TableSound(cfg, w[0], Table(Init(cfg), w[0]));
      }
    }
  }

  lemma StillReaches(cfg: Config, steps: seq<Step>, a: nat, b: nat, u: nat, d: nat, c: nat)
    requires WellFormed(cfg) && FifoRun(cfg, steps) && a <= b <= |steps|
    requires Reaches(After(cfg, steps[..a]), u, d, c)
    ensures Reaches(After(cfg, steps[..b]), u, d, c)
  {
    PrefixIsFifo(cfg, steps, b);
    assert steps[..b][..a] == steps[..a];
    RoutesNeverGetWorse(cfg, steps[..b], a, u, d, c);
  }

  lemma StillBeatsWalks(cfg: Config, steps: seq<Step>, a: nat, b: nat, k: nat)
    requires WellFormed(cfg) && FifoRun(cfg, steps) && a <= b <= |steps|
    requires BeatsWalks(cfg, After(cfg, steps[..a]), k)
    ensures BeatsWalks(cfg, After(cfg, steps[..b]), k)
  {
    forall w | IsWalk(cfg, w) && |w| <= k + 2
      ensures Reaches(After(cfg, steps[..b]), w[0], w[|w| - 1], WalkCost(cfg, w))
    {
      StillReaches(cfg, steps, a, b, w[0], w[|w| - 1], WalkCost(cfg, w));
    }
  }

  lemma AdvertsBeatWalks(cfg: Config, s: State, u: nat, k: nat)
    requires BeatsWalks(cfg, s, k) && u in cfg && cfg[u].FitsArrays()
    ensures forall i :: 0 <= i < |Adverts(cfg, s, u)| ==> PacketBeatsWalks(cfg, Adverts(cfg, s, u)[i], k)
  {
  }

  ghost predicate RecentBeatWalks(cfg: Config, s: State, a: nat, k: nat) {
    forall i :: 0 <= i < |s.wire| && s.wire[i].stamp >= a ==> PacketBeatsWalks(cfg, s.wire[i], k)
  }

  lemma StepRecentBeatWalks(cfg: Config, s: State, step: Step, a: nat, k: nat)
    requires BeatsWalks(cfg, s, k) && RecentBeatWalks(cfg, s, a, k)
    ensures RecentBeatWalks(cfg, Next(cfg, s, step), a, k)
  {
    var s' := Next(cfg, s, step);
    forall i | 0 <= i < |s'.wire| && s'.wire[i].stamp >= a ensures PacketBeatsWalks(cfg, s'.wire[i], k) {
      if s'.wire[i] in s.wire {
        var j :| 0 <= j < |s.wire| && s.wire[j] == s'.wire[i];
      } else {
        var u := step.router;
        AdvertsBeatWalks(cfg, s, u, k);
        assert s'.wire[i] == Adverts(cfg, s, u)[i - |s.wire|];
      }
    }
  }

  lemma NothingRecentYet(cfg: Config, steps: seq<Step>, k: nat)
    requires WellFormed(cfg)
    ensures RecentBeatWalks(cfg, After(cfg, steps), |steps|, k)
  {
    AlwaysSound(cfg, steps);
    var s := After(cfg, steps);
    forall i | 0 <= i < |s.wire| ensures s.wire[i].stamp < |steps| {
      assert PacketSound(cfg, s, s.wire[i]);
    }
  }

  /** Packets sent after step a carry what their sender knew at step a, or better. */
  lemma {:induction false} RecentPacketsBeatWalks(cfg: Config, steps: seq<Step>, a: nat, k: nat)
    requires WellFormed(cfg) && FifoRun(cfg, steps) && a <= |steps|
    requires BeatsWalks(cfg, After(cfg, steps[..a]), k)
    ensures RecentBeatWalks(cfg, After(cfg, steps), a, k)
  {
    if a == |steps| {
      NothingRecentYet(cfg, steps, k);
    } else {
      var before := steps[..|steps| - 1];
      assert before[..a] == steps[..a] && before[..|before|] == before;
      RecentPacketsBeatWalks(cfg, before, a, k);
      StillBeatsWalks(cfg, before, a, |before|, k);
      StepRecentBeatWalks(cfg, After(cfg, before), steps[|steps| - 1], a, k);
    }
  }

  /** After hearing row e the receiver's route is at least as good as going through the sender, also
      when split horizon rejects the row. */
  lemma HearingHelps(cfg: Config, s: State, s': State, p: Packet, d: nat)
    requires Nbr(cfg, p.to, p.from) && p.to != p.from && Distinct(p.routes)
    requires PacketBehindSender(cfg, s, p, d)
    requires Table(s', p.to) == Received(cfg, s, p)
    requires Get(p.routes, d).Some?
    ensures Reaches(s', p.to, d, LinkCost(cfg, p.to, p.from) + Get(p.routes, d).value.cost)
  {
    UpdatePointwise(Table(s, p.to), p.routes, HopOf(cfg, p), d);
  }

  ghost predicate Deliverable(cfg: Config, s: State, p: Packet, d: nat) {
    Nbr(cfg, p.to, p.from) && p.to != p.from && Distinct(p.routes) && PacketBehindSender(cfg, s, p, d)
  }

  lemma PacketsAreDeliverable(cfg: Config, steps: seq<Step>, i: nat, d: nat)
    requires WellFormed(cfg) && FifoRun(cfg, steps) && i < |After(cfg, steps).wire|
    ensures Deliverable(cfg, After(cfg, steps), After(cfg, steps).wire[i], d)
  {
    var s := After(cfg, steps);
    AlwaysSound(cfg, steps);
    AlwaysOrdered(cfg, steps);
    assert PacketSound(cfg, s, s.wire[i]);
    assert PacketOrdered(cfg, s, s.wire[i]);
    NbrIsOther(cfg, s.wire[i].to, s.wire[i].from);
  }

  lemma RestOfWalk(cfg: Config, p: Packet, k: nat, w: seq<nat>)
    requires PacketBeatsWalks(cfg, p, k)
    requires IsWalk(cfg, w) && 1 < |w| <= k + 3 && w[1] == p.from
    ensures IsWalk(cfg, w[1..]) && Get(p.routes, w[|w| - 1]).Some?
    ensures Sat(Get(p.routes, w[|w| - 1]).value.cost) <= Sat(WalkCost(cfg, w[1..]))
  {
  }

  lemma HearingAWalkHelps(cfg: Config, s: State, i: nat, k: nat, w: seq<nat>)
    requires i < |s.wire| && PacketBeatsWalks(cfg, s.wire[i], k)
    requires IsWalk(cfg, w) && 1 < |w| <= k + 3 && w[0] == s.wire[i].to && w[1] == s.wire[i].from
    requires Deliverable(cfg, s, s.wire[i], w[|w| - 1])
    ensures Reaches(Next(cfg, s, Deliver(i)), w[0], w[|w| - 1], WalkCost(cfg, w))
  {
    RestOfWalk(cfg, s.wire[i], k, w);
    HearingHelps(cfg, s, Next(cfg, s, Deliver(i)), s.wire[i], w[|w| - 1]);
  }

  lemma HeardWalk(cfg: Config, steps: seq<Step>, a: nat, k: nat, j: nat, w: seq<nat>)
    requires WellFormed(cfg) && a <= j < |steps| && FifoRun(cfg, steps[..j])
    requires RecentBeatWalks(cfg, After(cfg, steps[..j]), a, k)
    requires IsWalk(cfg, w) && 1 < |w| <= k + 3 && HearsAt(cfg, steps, a, j, w[0], w[1])
    ensures Reaches(After(cfg, steps[..j + 1]), w[0], w[|w| - 1], WalkCost(cfg, w))
  {
    PacketsAreDeliverable(cfg, steps[..j], steps[j].index, w[|w| - 1]);
    HearingAWalkHelps(cfg, After(cfg, steps[..j]), steps[j].index, k, w);
    assert steps[..j + 1][..j] == steps[..j];
  }

  lemma RecentBeatWalksAt(cfg: Config, steps: seq<Step>, a: nat, j: nat, k: nat)
    requires WellFormed(cfg) && FifoRun(cfg, steps) && a <= j <= |steps|
    requires BeatsWalks(cfg, After(cfg, steps[..a]), k)
    ensures FifoRun(cfg, steps[..j]) && RecentBeatWalks(cfg, After(cfg, steps[..j]), a, k)
  {
    PrefixIsFifo(cfg, steps, j);
    assert steps[..j][..a] == steps[..a];
    RecentPacketsBeatWalks(cfg, steps[..j], a, k);
  }

  lemma RoundHelpsWalk(cfg: Config, steps: seq<Step>, a: nat, b: nat, k: nat, j: nat, w: seq<nat>)
    requires WellFormed(cfg) && FifoRun(cfg, steps) && a <= j < b <= |steps|
    requires BeatsWalks(cfg, After(cfg, steps[..a]), k)
    requires IsWalk(cfg, w) && 1 < |w| <= k + 3 && HearsAt(cfg, steps, a, j, w[0], w[1])
    ensures Reaches(After(cfg, steps[..b]), w[0], w[|w| - 1], WalkCost(cfg, w))
  {
    RecentBeatWalksAt(cfg, steps, a, j, k);
    HeardWalk(cfg, steps, a, k, j, w);
    StillReaches(cfg, steps, j + 1, b, w[0], w[|w| - 1], WalkCost(cfg, w));
  }

  /** One round lets every router take walks of one more hop into account. */
  lemma RoundHelps(cfg: Config, steps: seq<Step>, a: nat, b: nat, k: nat)
    requires WellFormed(cfg) && FifoRun(cfg, steps) && Round(cfg, steps, a, b)
    requires BeatsWalks(cfg, After(cfg, steps[..a]), k)
    ensures BeatsWalks(cfg, After(cfg, steps[..b]), k + 1)
  {
    StillBeatsWalks(cfg, steps, a, b, k);
    forall w | IsWalk(cfg, w) && |w| <= k + 3
      ensures Reaches(After(cfg, steps[..b]), w[0], w[|w| - 1], WalkCost(cfg, w))
    {
      if |w| > 1 {
        assert Nbr(cfg, w[0], w[0 + 1]);
        assert Hears(cfg, steps, a, b, w[0], w[1]);
        var j: nat :| a <= j < b && j < |steps| && HearsAt(cfg, steps, a, j, w[0], w[1]);
        RoundHelpsWalk(cfg, steps, a, b, k, j, w);
      }
    }
  }

  /** After k rounds every route is at least as good as the best walk of k + 1 hops, from then on. */
  lemma {:induction false} RoundsHelp(cfg: Config, steps: seq<Step>, k: nat, b: nat)
    requires WellFormed(cfg) && FifoRun(cfg, steps) && RoundsBy(cfg, steps, k, b)
    ensures BeatsWalks(cfg, After(cfg, steps[..b]), k)
  {
    if k == 0 {
      InitBeatsWalks(cfg);
      assert steps[..0] == [];
      StillBeatsWalks(cfg, steps, 0, b, 0);
    } else {
      var a: nat :| a <= b && RoundsBy(cfg, steps, k - 1, a) && Round(cfg, steps, a, b);
      RoundsHelp(cfg, steps, k - 1, a);
      RoundHelps(cfg, steps, a, b, k - 1);
    }
  }

  /** The route is exact as far as the protocol can tell costs apart. */
  ghost predicate Exact(cfg: Config, s: State, u: nat, d: nat, c: nat) {
    && At(s, u, d).Some?
    && Sat(At(s, u, d).value.cost) == Sat(c)
    && (c < INFINITY ==> At(s, u, d).value.cost == c)
  }

  /** An exact route whose next hop, for a finite cost, is the start of a cheapest walk. */
  ghost predicate ExactRoute(cfg: Config, s: State, u: nat, d: nat, c: nat) {
    && Exact(cfg, s, u, d, c)
    && (c < INFINITY && u != d ==>
          var v := At(s, u, d).value.nextHop;
          Nbr(cfg, u, v) && LinkCost(cfg, u, v) <= c && IsDistance(cfg, v, d, c - LinkCost(cfg, u, v)))
  }

  /** A route that costs less than INFINITY has a walk of its cost. */
  lemma RouteHasWalk(cfg: Config, s: State, u: nat, d: nat)
    requires Sound(cfg, s) && u in cfg && At(s, u, d).Some?
    ensures exists w :: Walk(cfg, u, d, w)
                        && (At(s, u, d).value.cost < INFINITY ==> WalkCost(cfg, w) == At(s, u, d).value.cost)
  {
    var t := Table(s, u);
    assert TableSound(cfg, u, t);
    assert t[IndexOf(t, d)] in t;
    var w :| Supports(cfg, u, t[IndexOf(t, d)], w);
    assert Walk(cfg, u, d, w);
  }

  lemma BeatsDistance(cfg: Config, s: State, u: nat, d: nat, c: nat, k: nat)
    requires BeatsWalks(cfg, s, k) && |cfg| <= k + 2 && IsDistance(cfg, u, d, c)
    ensures Reaches(s, u, d, c)
  {
    var w :| Walk(cfg, u, d, w) && WalkCost(cfg, w) == c;
    var p := Shorten(cfg, w);
    SimpleWalkIsShort(cfg, p);
    assert Reaches(s, p[0], p[|p| - 1], WalkCost(cfg, p));
  }

  lemma BeatingWalksIsExact(cfg: Config, s: State, u: nat, d: nat, c: nat, k: nat)
    requires WellFormed(cfg) && Sound(cfg, s) && BeatsWalks(cfg, s, k) && |cfg| <= k + 2
    requires IsDistance(cfg, u, d, c)
    ensures Exact(cfg, s, u, d, c)
  {
    BeatsDistance(cfg, s, u, d, c, k);
    RouteHasWalk(cfg, s, u, d);
  }

  lemma NextHopDistance(cfg: Config, u: nat, v: nat, d: nat, c: nat, w: seq<nat>)
    requires Nbr(cfg, u, v) && u in cfg && IsDistance(cfg, u, d, c)
    requires Walk(cfg, v, d, w) && LinkCost(cfg, u, v) + WalkCost(cfg, w) <= c
    ensures IsDistance(cfg, v, d, c - LinkCost(cfg, u, v))
  {
    Prepend(cfg, u, w);
    assert Walk(cfg, u, d, [u] + w);
    forall x | Walk(cfg, v, d, x) ensures WalkCost(cfg, w) <= WalkCost(cfg, x) {
      Prepend(cfg, u, x);
      assert Walk(cfg, u, d, [u] + x);
    }
    assert WalkCost(cfg, w) == c - LinkCost(cfg, u, v);
  }

  lemma ExactNextHop(cfg: Config, s: State, u: nat, d: nat, c: nat)
    requires WellFormed(cfg) && Sound(cfg, s) && Ordered(cfg, s) && u in cfg && u != d
    requires IsDistance(cfg, u, d, c) && c < INFINITY && Exact(cfg, s, u, d, c)
    ensures var v := At(s, u, d).value.nextHop;
            Nbr(cfg, u, v) && LinkCost(cfg, u, v) <= c && IsDistance(cfg, v, d, c - LinkCost(cfg, u, v))
  {
    NextHopIsCloser(cfg, s, u, d);
    var v := At(s, u, d).value.nextHop;
    RouteHasWalk(cfg, s, v, d);
    var w :| Walk(cfg, v, d, w)
             && (At(s, v, d).value.cost < INFINITY ==> WalkCost(cfg, w) == At(s, v, d).value.cost);
    NextHopDistance(cfg, u, v, d, c, w);
  }

  lemma RouteMeansReachable(cfg: Config, s: State, u: nat, d: nat)
    requires Sound(cfg, s) && u in cfg
    ensures At(s, u, d).Some? ==> exists c: nat :: IsDistance(cfg, u, d, c)
  {
    if At(s, u, d).Some? {
      RouteHasWalk(cfg, s, u, d);
      var w :| Walk(cfg, u, d, w);
      var c := DistanceExists(cfg, w);
    }
  }

  /** Bellman-Ford convergence. With n routers, from the end of round n - 2 on, at every moment of the
      run: reachable destinations have a route of exactly their distance (any cost from INFINITY up
      counting as unreachable) whose next hop starts a cheapest walk, and no other destination has a
      route at all. */
  lemma Converges(cfg: Config, steps: seq<Step>, k: nat, b: nat, u: nat, d: nat)
    requires WellFormed(cfg) && FifoRun(cfg, steps) && RoundsBy(cfg, steps, k, b) && |cfg| <= k + 2
    requires u in cfg
    ensures forall c: nat :: IsDistance(cfg, u, d, c) ==> ExactRoute(cfg, After(cfg, steps), u, d, c)
    ensures (forall c: nat :: !IsDistance(cfg, u, d, c)) ==> At(After(cfg, steps), u, d).None?
  {
    var s := After(cfg, steps);
    RoundsHelp(cfg, steps, k, b);
    StillBeatsWalks(cfg, steps, b, |steps|, k);
    assert steps[..|steps|] == steps;
    AlwaysSound(cfg, steps);
    AlwaysOrdered(cfg, steps);
    forall c: nat | IsDistance(cfg, u, d, c) ensures ExactRoute(cfg, s, u, d, c) {
      BeatingWalksIsExact(cfg, s, u, d, c, k);
      if c < INFINITY && u != d {
        ExactNextHop(cfg, s, u, d, c);
      }
    }
    RouteMeansReachable(cfg, s, u, d);
  }
}
