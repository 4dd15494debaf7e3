/** Forwarding in runs without failures: at every moment, not only after convergence, following next hops
    from a finite route leads to the destination without visiting a router twice. Links may cost 0. */
module LoopFreedom {
  import opened Protocol
  import opened TableSpec
  import opened Graph
  import opened Network
  import opened Soundness
  import opened FifoRuns

  // ---------- Forwarding to one destination ----------

  /** The routes of all routers to one destination. */
  type Ways = map<nat, Route>

  ghost predicate Finite(m: Ways, u: nat) {
    u in m && m[u].cost < INFINITY
  }

  ghost predicate HopsTo(m: Ways, u: nat, v: nat) {
    u in m && m[u].nextHop == v
  }

  ghost predicate Follows(m: Ways, w: seq<nat>) {
    forall i :: 0 <= i < |w| - 1 ==> HopsTo(m, w[i], w[i + 1])
  }

  /** w is a walk from u to d along next hops. */
  ghost predicate Leads(cfg: Config, m: Ways, u: nat, d: nat, w: seq<nat>) {
    Walk(cfg, u, d, w) && Follows(m, w)
  }

  ghost predicate Arrives(cfg: Config, m: Ways, u: nat, d: nat) {
    exists w :: Leads(cfg, m, u, d, w)
  }

  /** Every finite route leads to its destination. */
  ghost predicate Routed(cfg: Config, m: Ways, d: nat) {
    forall u :: Finite(m, u) ==> Arrives(cfg, m, u, d)
  }

  ghost predicate HopCloser(cfg: Config, m: Ways, u: nat)
    requires u in m
  {
    && Nbr(cfg, u, m[u].nextHop) && m[u].nextHop in m
    && LinkCost(cfg, u, m[u].nextHop) + m[m[u].nextHop].cost <= m[u].cost
  }

  /** The destination keeps its route to itself, and every next hop is closer. */
  ghost predicate Closer(cfg: Config, m: Ways, d: nat) {
    && d in m && m[d] == Route(d, d, 0) && !Nbr(cfg, d, d)
    && forall u :: Finite(m, u) && u != d ==> HopCloser(cfg, m, u)
  }

  lemma DestinationIsLast(cfg: Config, m: Ways, d: nat, w: seq<nat>, i: nat)
    requires Closer(cfg, m, d) && IsWalk(cfg, w) && Follows(m, w) && i < |w|
    ensures w[i] == d ==> i == |w| - 1
  {
    if i < |w| - 1 {
      assert Nbr(cfg, w[i], w[i + 1]) && HopsTo(m, w[i], w[i + 1]);
    }
  }

  /** Once two positions hold the same router, so do the positions after them. */
  lemma {:induction false} SameTail(m: Ways, w: seq<nat>, i: nat, j: nat, k: nat)
    requires Follows(m, w) && i < j && j + k < |w| && w[i] == w[j]
    ensures w[i + k] == w[j + k]
  {
    if k > 0 {
      SameTail(m, w, i, j, k - 1);
      assert HopsTo(m, w[i + k - 1], w[i + k - 1 + 1]) && HopsTo(m, w[j + k - 1], w[j + k - 1 + 1]);
    }
  }

  lemma ForwardingIsSimple(cfg: Config, m: Ways, u: nat, d: nat, w: seq<nat>)
    requires Closer(cfg, m, d) && Leads(cfg, m, u, d, w)
    ensures Simple(w)
  {
    forall i, j | 0 <= i < j < |w| ensures w[i] != w[j] {
      if w[i] == w[j] {
        SameTail(m, w, i, j, |w| - 1 - j);
        DestinationIsLast(cfg, m, d, w, i + (|w| - 1 - j));
      }
    }
  }

  lemma {:induction false} FiniteAlong(cfg: Config, m: Ways, u: nat, d: nat, w: seq<nat>, i: nat)
    requires Closer(cfg, m, d) && Leads(cfg, m, u, d, w) && Finite(m, u) && i < |w|
    ensures Finite(m, w[i]) && (i < |w| - 1 ==> HopCloser(cfg, m, w[i]))
  {
    DestinationIsLast(cfg, m, d, w, i);
    if i > 0 {
      FiniteAlong(cfg, m, u, d, w, i - 1);
      assert HopsTo(m, w[i - 1], w[i - 1 + 1]);
    }
  }

  ghost predicate Descends(cfg: Config, m: Ways, w: seq<nat>) {
    forall i :: 0 <= i < |w| - 1 ==> HopsTo(m, w[i], w[i + 1]) && HopCloser(cfg, m, w[i])
  }

  lemma {:induction false} DescentCost(cfg: Config, m: Ways, w: seq<nat>)
    requires IsWalk(cfg, w) && Descends(cfg, m, w) && w[0] in m
    ensures w[|w| - 1] in m && WalkCost(cfg, w) + m[w[|w| - 1]].cost <= m[w[0]].cost
  {
    if |w| > 1 {
      var rest := w[1..];
      assert HopsTo(m, w[0], w[0 + 1]) && Nbr(cfg, w[0], w[0 + 1]);
      forall i | 0 <= i < |rest| - 1 ensures HopsTo(m, rest[i], rest[i + 1]) && HopCloser(cfg, m, rest[i]) {
        assert HopsTo(m, w[i + 1], w[i + 1 + 1]);
      }
      CostSplits(cfg, w, 1);
      DescentCost(cfg, m, rest);
    }
  }

  /** Along the way the routers believe in what is left: the walk up to a router, and from there what
      that router believes, cost no more than the first one believes. */
  lemma CostAlong(cfg: Config, m: Ways, u: nat, d: nat, w: seq<nat>, k: nat)
    requires Closer(cfg, m, d) && Leads(cfg, m, u, d, w) && Finite(m, u) && k < |w|
    ensures IsWalk(cfg, w[..k + 1]) && w[k] in m
    ensures WalkCost(cfg, w[..k + 1]) + m[w[k]].cost <= m[u].cost
  {
    CostSplits(cfg, w, k);
    FiniteAlong(cfg, m, u, d, w, 0);
    forall i | 0 <= i < k ensures HopsTo(m, w[i], w[i + 1]) && HopCloser(cfg, m, w[i]) {
      FiniteAlong(cfg, m, u, d, w, i);
    }
    DescentCost(cfg, m, w[..k + 1]);
  }

  // ---------- One route is replaced ----------

  /** Router u now goes through a neighbour that believes in no more than u does, and gave up a more
      expensive route for it, if it had a finite one. */
  ghost predicate Switched(cfg: Config, m: Ways, m': Ways, u: nat)
    requires u in m'
  {
    var r := m'[u];
    && Nbr(cfg, u, r.nextHop) && r.nextHop != u
    && r.nextHop in m && m[r.nextHop].cost <= r.cost
    && (Finite(m, u) ==> r.cost < m[u].cost)
  }

  ghost predicate Kept(m: Ways, m': Ways, x: nat) {
    (x in m <==> x in m') && (x in m ==> m'[x] == m[x])
  }

  /** The routes change at u only, where a finite route stays finite. */
  ghost predicate Replaced(cfg: Config, m: Ways, m': Ways, u: nat) {
    && (forall x :: x != u ==> Kept(m, m', x))
    && (Finite(m, u) ==> Finite(m', u))
    && (Finite(m', u) ==> Kept(m, m', u) || Switched(cfg, m, m', u))
  }

  /** The new next hop does not forward through u: its own route would cost at least as much as the
      route that u has given up for it. */
  lemma NextHopAvoids(cfg: Config, m: Ways, m': Ways, u: nat, d: nat, w: seq<nat>)
    requires Closer(cfg, m, d) && Finite(m', u) && Switched(cfg, m, m', u)
    requires Leads(cfg, m, m'[u].nextHop, d, w)
    ensures u !in w
  {
    var v := m'[u].nextHop;
    if k :| 0 <= k < |w| && w[k] == u {
      FiniteAlong(cfg, m, v, d, w, k);
      CostAlong(cfg, m, v, d, w, k);
    }
  }

  lemma StillFollows(m: Ways, m': Ways, w: seq<nat>)
    requires Follows(m, w) && forall x :: x in w ==> Kept(m, m', x)
    ensures Follows(m', w)
  {
    forall i | 0 <= i < |w| - 1 ensures HopsTo(m', w[i], w[i + 1]) {
      assert w[i] in w && HopsTo(m, w[i], w[i + 1]) && Kept(m, m', w[i]);
    }
  }

  lemma HopFirst(cfg: Config, m: Ways, u: nat, v: nat, d: nat)
    requires Arrives(cfg, m, v, d) && Nbr(cfg, u, v) && HopsTo(m, u, v)
    ensures Arrives(cfg, m, u, d)
  {
    var rest :| Leads(cfg, m, v, d, rest);
    Prepend(cfg, u, rest);
    var w := [u] + rest;
    forall i | 0 <= i < |w| - 1 ensures HopsTo(m, w[i], w[i + 1]) {
      if i > 0 {
        assert HopsTo(m, rest[i - 1], rest[i - 1 + 1]);
      }
    }
    assert Leads(cfg, m, u, d, w);
  }

  lemma ReplacedArrives(cfg: Config, m: Ways, m': Ways, u: nat, d: nat)
    requires Closer(cfg, m, d) && Routed(cfg, m, d) && Replaced(cfg, m, m', u) && Finite(m', u)
    ensures Arrives(cfg, m', u, d)
  {
    if Kept(m, m', u) {
      assert Finite(m, u);
      var w :| Leads(cfg, m, u, d, w);
      StillFollows(m, m', w);
      assert Leads(cfg, m', u, d, w);
    } else {
      var v := m'[u].nextHop;
      assert Finite(m, v);
      var rest :| Leads(cfg, m, v, d, rest);
      NextHopAvoids(cfg, m, m', u, d, rest);
      StillFollows(m, m', rest);
      assert Leads(cfg, m', v, d, rest);
      HopFirst(cfg, m', u, v, d);
    }
  }

  /** The walk of another router, which takes u's route from there on. */
  lemma {:induction false} OthersArrive(cfg: Config, m: Ways, m': Ways, u: nat, x: nat, d: nat, w: seq<nat>)
    requires Leads(cfg, m, x, d, w) && forall y :: y != u ==> Kept(m, m', y)
    requires u in w ==> Arrives(cfg, m', u, d)
    ensures Arrives(cfg, m', x, d)
    decreases |w|
  {
    if u !in w {
      StillFollows(m, m', w);
      assert Leads(cfg, m', x, d, w);
    } else if x != u {
      var rest := w[1..];
      assert HopsTo(m, w[0], w[0 + 1]) && Nbr(cfg, w[0], w[0 + 1]) && Kept(m, m', x);
      forall i | 0 <= i < |rest| - 1 ensures HopsTo(m, rest[i], rest[i + 1]) {
        assert HopsTo(m, w[i + 1], w[i + 1 + 1]);
      }
      CostSplits(cfg, w, 1);
      OthersArrive(cfg, m, m', u, w[1], d, rest);
      HopFirst(cfg, m', x, w[1], d);
    }
  }

  lemma ReplacedRouted(cfg: Config, m: Ways, m': Ways, u: nat, d: nat)
    requires Closer(cfg, m, d) && Routed(cfg, m, d) && Replaced(cfg, m, m', u)
    ensures Routed(cfg, m', d)
  {
    forall x | Finite(m', x) ensures Arrives(cfg, m', x, d) {
      if x == u {
        ReplacedArrives(cfg, m, m', u, d);
      } else {
        assert Kept(m, m', x) && Finite(m, x);
        var w :| Leads(cfg, m, x, d, w);
        if k :| 0 <= k < |w| && w[k] == u {
          FiniteAlong(cfg, m, x, d, w, k);
          ReplacedArrives(cfg, m, m', u, d);
        }
        OthersArrive(cfg, m, m', u, x, d, w);
      }
    }
  }

  // ---------- The network ----------

  ghost function WaysTo(cfg: Config, s: State, d: nat): Ways {
    map u | u in cfg && At(s, u, d).Some? :: At(s, u, d).value
  }

  lemma AlwaysCloser(cfg: Config, s: State, d: nat)
    requires WellFormed(cfg) && Sound(cfg, s) && Ordered(cfg, s) && d in cfg
    ensures Closer(cfg, WaysTo(cfg, s, d), d)
  {
    var m := WaysTo(cfg, s, d);
    assert TableSound(cfg, d, Table(s, d));
    if Nbr(cfg, d, d) {
      NbrIsOther(cfg, d, d);
    }
    forall u | Finite(m, u) && u != d ensures HopCloser(cfg, m, u) {
      NextHopIsCloser(cfg, s, u, d);
    }
  }

  /** A finite route that a delivery replaces is replaced by a cheaper one. */
  lemma ChangedRowIsCheaper(cfg: Config, s: State, s': State, p: Packet, d: nat)
    requires ReceivedAt(cfg, s, s', p, d) && Distinct(p.routes)
    requires Table(s', p.to) == Received(cfg, s, p) && At(s', p.to, d) != At(s, p.to, d)
    requires At(s, p.to, d).Some? && At(s, p.to, d).value.cost < INFINITY
    ensures At(s', p.to, d).value.cost < At(s, p.to, d).value.cost
  {
    UpdatePointwise(Table(s, p.to), p.routes, HopOf(cfg, p), d);
  }

  lemma DeliverySwitches(cfg: Config, s: State, s': State, p: Packet, d: nat)
    requires ReceivedAt(cfg, s, s', p, d) && Distinct(p.routes) && PacketBehindSender(cfg, s, p, d)
    requires Table(s', p.to) == Received(cfg, s, p) && At(s', p.to, d) != At(s, p.to, d)
    requires p.from in cfg && p.to in cfg && p.to != p.from
    requires Finite(WaysTo(cfg, s', d), p.to)
    ensures Switched(cfg, WaysTo(cfg, s, d), WaysTo(cfg, s', d), p.to)
  {
    assert Reaches(s, p.from, d, Get(p.routes, d).value.cost);
    if Finite(WaysTo(cfg, s, d), p.to) {
      ChangedRowIsCheaper(cfg, s, s', p, d);
    }
  }

  lemma PacketReplaces(cfg: Config, s: State, s': State, p: Packet, d: nat)
    requires ReceivedAt(cfg, s, s', p, d) && Distinct(p.routes) && PacketBehindSender(cfg, s, p, d)
    requires Table(s', p.to) == Received(cfg, s, p) && forall x :: x != p.to ==> Table(s', x) == Table(s, x)
    requires p.from in cfg && p.to in cfg && p.to != p.from
    ensures Replaced(cfg, WaysTo(cfg, s, d), WaysTo(cfg, s', d), p.to)
  {
    var m, m' := WaysTo(cfg, s, d), WaysTo(cfg, s', d);
    forall x | At(s', x, d) == At(s, x, d) ensures Kept(m, m', x) {
    }
    forall x | x != p.to ensures Kept(m, m', x) {
      assert At(s', x, d) == At(s, x, d);
    }
    if Finite(m', p.to) && At(s', p.to, d) != At(s, p.to, d) {
      DeliverySwitches(cfg, s, s', p, d);
    }
  }

  lemma DeliveryReplaces(cfg: Config, s: State, s': State, i: nat, d: nat)
    requires WellFormed(cfg) && Sound(cfg, s) && WireOrdered(cfg, s)
    requires Delivered(cfg, s, s', i) && Table(s', s.wire[i].to) == Received(cfg, s, s.wire[i])
    ensures Replaced(cfg, WaysTo(cfg, s, d), WaysTo(cfg, s', d), s.wire[i].to)
  {
    var p := s.wire[i];
    assert ReceivedAt(cfg, s, s', p, d);
    assert PacketSound(cfg, s, s.wire[i]);
    assert PacketOrdered(cfg, s, s.wire[i]);
    assert PacketBehindSender(cfg, s, p, d);
    NbrIsOther(cfg, p.to, p.from);
    PacketReplaces(cfg, s, s', p, d);
  }

  lemma DeliverRouted(cfg: Config, s: State, i: nat, d: nat)
    requires WellFormed(cfg) && Sound(cfg, s) && Ordered(cfg, s) && i < |s.wire| && d in cfg
    requires Routed(cfg, WaysTo(cfg, s, d), d)
    ensures Routed(cfg, WaysTo(cfg, Next(cfg, s, Deliver(i)), d), d)
  {
    var s' := Next(cfg, s, Deliver(i));
    DeliverDelivers(cfg, s, i);
    assert ReceivedAt(cfg, s, s', s.wire[i], d);
    DeliveryReplaces(cfg, s, s', i, d);
    AlwaysCloser(cfg, s, d);
    ReplacedRouted(cfg, WaysTo(cfg, s, d), WaysTo(cfg, s', d), s.wire[i].to, d);
  }

  lemma InitialHop(cfg: Config, u: nat, d: nat)
    requires WellFormed(cfg) && u in cfg && At(Init(cfg), u, d).Some?
    ensures d != u ==> Nbr(cfg, u, d) && At(Init(cfg), u, d).value.nextHop == d
  {
  }

  lemma DirectRoutesArrive(cfg: Config, m: Ways, d: nat)
    requires d in cfg
    requires forall u :: u in m ==> u == d || (u in cfg && Nbr(cfg, u, d) && HopsTo(m, u, d))
    ensures Routed(cfg, m, d)
  {
    assert Leads(cfg, m, d, d, [d]);
    forall u | Finite(m, u) ensures Arrives(cfg, m, u, d) {
      if u != d {
        HopFirst(cfg, m, u, d, d);
      }
    }
  }

  lemma InitRouted(cfg: Config, d: nat)
    requires WellFormed(cfg) && d in cfg
    ensures Routed(cfg, WaysTo(cfg, Init(cfg), d), d)
  {
    var m := WaysTo(cfg, Init(cfg), d);
    forall u | u in m ensures u == d || (u in cfg && Nbr(cfg, u, d) && HopsTo(m, u, d)) {
      InitialHop(cfg, u, d);
    }
    DirectRoutesArrive(cfg, m, d);
  }

  lemma SameWays(cfg: Config, s: State, s': State, d: nat)
    requires s'.tables == s.tables
    ensures WaysTo(cfg, s', d) == WaysTo(cfg, s, d)
  {
  }

  lemma StepRouted(cfg: Config, s: State, step: Step, d: nat)
    requires WellFormed(cfg) && Sound(cfg, s) && Ordered(cfg, s) && FifoStep(s, step) && d in cfg
    requires Routed(cfg, WaysTo(cfg, s, d), d)
    ensures Routed(cfg, WaysTo(cfg, Next(cfg, s, step), d), d)
  {
    if step.Deliver? && step.index < |s.wire| {
      DeliverRouted(cfg, s, step.index, d);
    } else {
      SameWays(cfg, s, Next(cfg, s, step), d);
    }
  }

  lemma {:induction false} AlwaysRouted(cfg: Config, steps: seq<Step>, d: nat)
    requires WellFormed(cfg) && FifoRun(cfg, steps) && d in cfg
    ensures Routed(cfg, WaysTo(cfg, After(cfg, steps), d), d)
  {
    if steps == [] {
      InitRouted(cfg, d);
    } else {
      var before := steps[..|steps| - 1];
      AlwaysRouted(cfg, before, d);
      AlwaysSound(cfg, before);
      AlwaysOrdered(cfg, before);
      StepRouted(cfg, After(cfg, before), steps[|steps| - 1], d);
    }
  }

  /** w follows the next hops towards d. */
  ghost predicate Forwards(s: State, d: nat, w: seq<nat>) {
    forall i :: 0 <= i < |w| - 1 ==> At(s, w[i], d).Some? && At(s, w[i], d).value.nextHop == w[i + 1]
  }

  lemma FollowRoutes(cfg: Config, s: State, u: nat, d: nat) returns (w: seq<nat>)
    requires Closer(cfg, WaysTo(cfg, s, d), d) && Routed(cfg, WaysTo(cfg, s, d), d)
    requires Finite(WaysTo(cfg, s, d), u)
    ensures Walk(cfg, u, d, w) && Forwards(s, d, w) && Simple(w)
    ensures WalkCost(cfg, w) <= At(s, u, d).value.cost
  {
    var m := WaysTo(cfg, s, d);
    w :| Leads(cfg, m, u, d, w);
    ForwardingIsSimple(cfg, m, u, d, w);
    CostAlong(cfg, m, u, d, w, |w| - 1);
    assert w[..|w| - 1 + 1] == w;
    forall i | 0 <= i < |w| - 1
      ensures At(s, w[i], d).Some? && At(s, w[i], d).value.nextHop == w[i + 1]
    {
      assert HopsTo(m, w[i], w[i + 1]);
    }
  }

  /** At every moment of a run without failures finite routes are free of loops, lead to their
      destination, and cost no more than promised. */
  lemma RoutesAreLoopFree(cfg: Config, steps: seq<Step>, u: nat, d: nat) returns (w: seq<nat>)
    requires WellFormed(cfg) && FifoRun(cfg, steps) && u in cfg
    requires var r := At(After(cfg, steps), u, d); r.Some? && r.value.cost < INFINITY
    ensures var s := After(cfg, steps);
            && Walk(cfg, u, d, w) && Forwards(s, d, w) && Simple(w)
            && WalkCost(cfg, w) <= At(s, u, d).value.cost
  {
    var s := After(cfg, steps);
    AlwaysSound(cfg, steps);
    AlwaysOrdered(cfg, steps);
    KnownIsRouter(cfg, s, u, d);
    AlwaysRouted(cfg, steps, d);
    AlwaysCloser(cfg, s, d);
    w := FollowRoutes(cfg, s, u, d);
  }
}
