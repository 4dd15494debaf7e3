/** All routers together: each with its own tables, timers and marks, and the wire between them. Every
    such world, over every run, is a run of Network, so the theorems about networks are theorems about
    routers; in particular no router ever meets a packet or a row that its code cannot handle. */
module Worlds {
  import opened Protocol
  import opened TableSpec
  import opened Wire
  import opened Graph
  import opened Network
  import opened Soundness
  import opened Bounds
  import opened NodeSpec
  import opened Simulation

  datatype World = World(nodes: map<nat, Node>, wire: seq<RtUpdate>)

  /** What can happen: a router runs through an iteration without a packet, or handles a packet; packets
      get lost or doubled. */
  datatype Act =
    | Iterate(router: nat, ready: seq<bool>, now: nat)
    | Arrive(index: nat, now: nat)
    | Drop(index: nat)
    | Copy(index: nat)

  /** Every router starts at a time of its own. */
  function Start(cfg: Config, boot: nat -> nat): World {
    World(map u | u in cfg && cfg[u].FitsArrays() :: Boot(u, cfg[u], boot(u)), [])
  }

  /** The packets that a router sends in an iteration without a packet. */
  function Sends(n: Node): (ps: seq<RtUpdate>)
    requires n.WellFormed()
    ensures |ps| == n.resp.noNbr
    ensures forall i :: 0 <= i < |ps| ==> ps[i] == RtUpdate(n.me, n.NbrId(i), n.table)
  {
    seq(n.resp.noNbr, i requires 0 <= i < n.resp.noNbr => RtUpdate(n.me, n.NbrId(i), n.table))
  }

  predicate Iterates(w: World, u: nat, ready: seq<bool>, now: nat) {
    u in w.nodes && w.nodes[u].WellFormed() && Possible(w.nodes[u], NodeSpec.Idle(ready, now))
  }

  predicate Arrives(w: World, p: RtUpdate) {
    p.dest in w.nodes && w.nodes[p.dest].WellFormed() && IsNbr(w.nodes[p.dest], p.sender)
  }

  /** Acts that cannot happen leave the world as it is. */
  function Happens(w: World, act: Act): World {
    match act
    case Iterate(u, ready, now) =>
      if Iterates(w, u, ready, now) then
        World(w.nodes[u := Handle(w.nodes[u], NodeSpec.Idle(ready, now))], w.wire + Sends(w.nodes[u]))
      else w
    case Arrive(i, now) =>
      if i < |w.wire| && Arrives(w, w.wire[i]) then
        var p := w.wire[i];
        World(w.nodes[p.dest := Handle(w.nodes[p.dest], NodeSpec.Packet(p, now))], Without(w.wire, i))
      else w
    case Drop(i) => if i < |w.wire| then w.(wire := Without(w.wire, i)) else w
    case Copy(i) => if i < |w.wire| then w.(wire := w.wire + [w.wire[i]]) else w
  }

  function WorldAfter(cfg: Config, boot: nat -> nat, acts: seq<Act>): World {
    if acts == [] then Start(cfg, boot)
    else Happens(WorldAfter(cfg, boot, acts[..|acts| - 1]), acts[|acts| - 1])
  }

  // ---------- Every world is a run of the network ----------

  ghost predicate SamePacket(p: RtUpdate, q: Network.Packet) {
    p == RtUpdate(q.from, q.to, q.routes)
  }

  ghost predicate SameWire(wire: seq<RtUpdate>, packets: seq<Network.Packet>) {
    |wire| == |packets| && forall i :: 0 <= i < |wire| ==> SamePacket(wire[i], packets[i])
  }

  ghost predicate SameRouters(cfg: Config, nodes: map<nat, Node>, s: State) {
    nodes.Keys == cfg.Keys && forall u :: u in nodes ==> nodes[u].me == u && Mirrors(cfg, s, nodes[u])
  }

  /** The network in state s is the world w, up to clocks, timers and marks. */
  ghost predicate Reflects(cfg: Config, w: World, s: State) {
    SameRouters(cfg, w.nodes, s) && SameWire(w.wire, s.wire)
  }

  lemma StartReflected(cfg: Config, boot: nat -> nat)
    requires WellFormed(cfg)
    ensures Reflects(cfg, Start(cfg, boot), Init(cfg))
  {
  }

  ghost predicate ChangesOnly(s: State, s': State, u: nat) {
    s.tables.Keys <= s'.tables.Keys && forall x :: x != u ==> Table(s', x) == Table(s, x)
  }

  /** Only the table of one router changes, which its new node mirrors. */
  lemma OneRouterReflected(cfg: Config, nodes: map<nat, Node>, s: State, s': State, n: Node)
    requires SameRouters(cfg, nodes, s) && n.me in nodes && Mirrors(cfg, s', n) && ChangesOnly(s, s', n.me)
    ensures SameRouters(cfg, nodes[n.me := n], s')
  {
  }

  lemma OneTimeoutChanges(cfg: Config, s: State, t: State, u: nat, v: nat)
    requires ChangesOnly(s, t, u)
    ensures ChangesOnly(s, Next(cfg, t, Timeout(u, v)), u)
  {
  }

  lemma {:induction false} TimeoutsChangeOne(cfg: Config, s: State, n: Node, ready: seq<bool>, k: nat)
    requires n.WellFormed() && k <= n.resp.noNbr == |ready|
    ensures ChangesOnly(s, Continue(cfg, s, Timeouts(n, ready, k)), n.me)
  {
    if k > 0 {
      TimeoutsChangeOne(cfg, s, n, ready, k - 1);
      if ready[k - 1] && !n.dead[k - 1] {
        var before := Timeouts(n, ready, k - 1);
        ContinueOnce(cfg, s, before, Timeout(n.me, n.NbrId(k - 1)));
        OneTimeoutChanges(cfg, s, Continue(cfg, s, before), n.me, n.NbrId(k - 1));
      }
    }
  }

  lemma SendsAreAdverts(cfg: Config, s: State, n: Node, wire: seq<RtUpdate>)
    requires Mirrors(cfg, s, n) && SameWire(wire, s.wire)
    ensures SameWire(wire + Sends(n), s.wire + Adverts(cfg, s, n.me))
  {
  }

  lemma IterationChangesOne(cfg: Config, s: State, n: Node, ready: seq<bool>)
    requires n.WellFormed() && |ready| == n.resp.noNbr
    ensures ChangesOnly(s, Continue(cfg, Next(cfg, s, Advertise(n.me)), Timeouts(n, ready, |ready|)), n.me)
  {
    TimeoutsChangeOne(cfg, Next(cfg, s, Advertise(n.me)), n, ready, |ready|);
    assert ChangesOnly(s, Next(cfg, s, Advertise(n.me)), n.me);
  }

  lemma IterateReflected(cfg: Config, w: World, s: State, u: nat, ready: seq<bool>, now: nat)
    requires WellFormed(cfg) && Reflects(cfg, w, s) && Iterates(w, u, ready, now)
    ensures Reflects(cfg, Happens(w, Iterate(u, ready, now)),
                     Continue(cfg, Next(cfg, s, Advertise(u)), Timeouts(w.nodes[u], ready, |ready|)))
  {
    var n := w.nodes[u];
    assert Mirrors(cfg, s, n);
    SendsAreAdverts(cfg, s, n, w.wire);
    IdleIsAdvertisementAndTimeouts(cfg, s, n, ready);
    IterationChangesOne(cfg, s, n, ready);
    OneRouterReflected(cfg, w.nodes, s, Continue(cfg, Next(cfg, s, Advertise(u)), Timeouts(n, ready, |ready|)),
                       ExpireReady(n, ready, |ready|));
  }

  lemma SameWireWithout(wire: seq<RtUpdate>, packets: seq<Network.Packet>, i: nat)
    requires SameWire(wire, packets) && i < |wire|
    ensures SameWire(Without(wire, i), Without(packets, i))
  {
  }

  lemma ArriveReflected(cfg: Config, w: World, s: State, i: nat, now: nat)
    requires WellFormed(cfg) && Reflects(cfg, w, s) && i < |w.wire| && Arrives(w, w.wire[i])
    ensures Reflects(cfg, Happens(w, Arrive(i, now)), Next(cfg, s, Deliver(i)))
  {
    var n := w.nodes[w.wire[i].dest];
    assert SamePacket(w.wire[i], s.wire[i]) && Mirrors(cfg, s, n);
    PacketIsDelivery(cfg, s, n, i, now);
    OneRouterReflected(cfg, w.nodes, s, Next(cfg, s, Deliver(i)), Receive(n, w.wire[i], now));
    SameWireWithout(w.wire, s.wire, i);
  }

  lemma WireActReflected(cfg: Config, w: World, s: State, act: Act)
    requires Reflects(cfg, w, s) && (act.Drop? || act.Copy?) && act.index < |w.wire|
    ensures Reflects(cfg, Happens(w, act), Next(cfg, s, if act.Drop? then Lose(act.index) else Duplicate(act.index)))
  {
  }

  /** The steps of the network that an act amounts to. */
  function StepsOf(w: World, act: Act): seq<Step> {
    match act
    case Iterate(u, ready, now) =>
      if Iterates(w, u, ready, now) then [Advertise(u)] + Timeouts(w.nodes[u], ready, |ready|) else []
    case Arrive(i, _) => if i < |w.wire| && Arrives(w, w.wire[i]) then [Deliver(i)] else []
    case Drop(i) => if i < |w.wire| then [Lose(i)] else []
    case Copy(i) => if i < |w.wire| then [Duplicate(i)] else []
  }

  lemma {:induction false} ContinueFrom(cfg: Config, s: State, first: Step, steps: seq<Step>)
    ensures Continue(cfg, s, [first] + steps) == Continue(cfg, Next(cfg, s, first), steps)
  {
    if steps == [] {
      assert [first] + steps == [] + [first];
      ContinueOnce(cfg, s, [], first);
    } else {
      var before, last := steps[..|steps| - 1], steps[|steps| - 1];
      ContinueFrom(cfg, s, first, before);
      assert [first] + steps == ([first] + before) + [last] && steps == before + [last];
      ContinueOnce(cfg, s, [first] + before, last);
      ContinueOnce(cfg, Next(cfg, s, first), before, last);
    }
  }

  lemma SingleStep(cfg: Config, s: State, step: Step)
    ensures Continue(cfg, s, [step]) == Next(cfg, s, step)
  {
    ContinueFrom(cfg, s, step, []);
    assert [step] + [] == [step];
  }

  /** In the world and in the network the act comes to the same. */
  ghost predicate ActMirrored(cfg: Config, w: World, s: State, act: Act) {
    Reflects(cfg, Happens(w, act), Continue(cfg, s, StepsOf(w, act)))
  }

  lemma OneStepMirrored(cfg: Config, w: World, s: State, act: Act, step: Step)
    requires StepsOf(w, act) == [step] && Reflects(cfg, Happens(w, act), Next(cfg, s, step))
    ensures ActMirrored(cfg, w, s, act)
  {
    SingleStep(cfg, s, step);
  }

  lemma NothingHappens(cfg: Config, w: World, s: State, act: Act)
    requires Reflects(cfg, w, s) && Happens(w, act) == w && StepsOf(w, act) == []
    ensures ActMirrored(cfg, w, s, act)
  {
  }

  lemma IterateMirrored(cfg: Config, w: World, s: State, u: nat, ready: seq<bool>, now: nat)
    requires WellFormed(cfg) && Reflects(cfg, w, s) && Iterates(w, u, ready, now)
    ensures ActMirrored(cfg, w, s, Iterate(u, ready, now))
  {
    ContinueFrom(cfg, s, Advertise(u), Timeouts(w.nodes[u], ready, |ready|));
    IterateReflected(cfg, w, s, u, ready, now);
  }

  lemma ArriveMirrored(cfg: Config, w: World, s: State, i: nat, now: nat)
    requires WellFormed(cfg) && Reflects(cfg, w, s) && i < |w.wire| && Arrives(w, w.wire[i])
    ensures ActMirrored(cfg, w, s, Arrive(i, now))
  {
    ArriveReflected(cfg, w, s, i, now);
    OneStepMirrored(cfg, w, s, Arrive(i, now), Deliver(i));
  }

  lemma WireActMirrored(cfg: Config, w: World, s: State, act: Act)
    requires Reflects(cfg, w, s) && (act.Drop? || act.Copy?) && act.index < |w.wire|
    ensures ActMirrored(cfg, w, s, act)
  {
    var step := if act.Drop? then Lose(act.index) else Duplicate(act.index);
    WireActReflected(cfg, w, s, act);
    OneStepMirrored(cfg, w, s, act, step);
  }

  lemma ActReflected(cfg: Config, w: World, s: State, act: Act)
    requires WellFormed(cfg) && Reflects(cfg, w, s)
    ensures ActMirrored(cfg, w, s, act)
  {
    if StepsOf(w, act) == [] {
      NothingHappens(cfg, w, s, act);
    } else if act.Iterate? {
      IterateMirrored(cfg, w, s, act.router, act.ready, act.now);
    } else if act.Arrive? {
      ArriveMirrored(cfg, w, s, act.index, act.now);
    } else {
      WireActMirrored(cfg, w, s, act);
    }
  }

  lemma {:induction false} AfterContinues(cfg: Config, steps: seq<Step>, more: seq<Step>)
    ensures After(cfg, steps + more) == Continue(cfg, After(cfg, steps), more)
  {
    if more == [] {
      assert steps + more == steps;
    } else {
      AfterContinues(cfg, steps, more[..|more| - 1]);
      assert (steps + more)[..|steps + more| - 1] == steps + more[..|more| - 1];
    }
  }

  /** The run of the network that the acts come to. */
  function RunOf(cfg: Config, boot: nat -> nat, acts: seq<Act>): seq<Step> {
    if acts == [] then []
    else
      var before := acts[..|acts| - 1];
      RunOf(cfg, boot, before) + StepsOf(WorldAfter(cfg, boot, before), acts[|acts| - 1])
  }

  /** Whatever all routers do together is a run of the network. */
  lemma {:induction false} WorldsAreRuns(cfg: Config, boot: nat -> nat, acts: seq<Act>)
    requires WellFormed(cfg)
    ensures Reflects(cfg, WorldAfter(cfg, boot, acts), After(cfg, RunOf(cfg, boot, acts)))
  {
    if acts == [] {
      StartReflected(cfg, boot);
    } else {
      var before := acts[..|acts| - 1];
      WorldsAreRuns(cfg, boot, before);
      var run, w := RunOf(cfg, boot, before), WorldAfter(cfg, boot, before);
      ActReflected(cfg, w, After(cfg, run), acts[|acts| - 1]);
      AfterContinues(cfg, run, StepsOf(w, acts[|acts| - 1]));
    }
  }

  // ---------- What the routers' code relies on ----------

  /** Whatever packet is in flight: it is on its way to a router that has its sender as a neighbour,
      and the routes it adds fit into that router's array. So the requirements of Router.HandlePacket
      are met, it never writes behind its timers, and no act Arrive is without effect. */
  lemma PacketsCanBeHandled(cfg: Config, boot: nat -> nat, acts: seq<Act>, i: nat)
    requires WellFormed(cfg) && i < |WorldAfter(cfg, boot, acts).wire|
    ensures var w := WorldAfter(cfg, boot, acts);
            var p := w.wire[i];
            && Arrives(w, p)
            && |UpdateTable(w.nodes[p.dest].table, p.routes, HopFrom(w.nodes[p.dest], p.sender))| <= MAX_ROUTERS
  {
    var w := WorldAfter(cfg, boot, acts);
    var steps := RunOf(cfg, boot, acts);
    WorldsAreRuns(cfg, boot, acts);
    var s := After(cfg, steps);
    assert SamePacket(w.wire[i], s.wire[i]);
    AppendsStayInBounds(cfg, steps, i, |s.wire[i].routes|);
    assert s.wire[i].routes[..|s.wire[i].routes|] == s.wire[i].routes;
    NbrIsOther(cfg, s.wire[i].to, s.wire[i].from);
    assert Mirrors(cfg, s, w.nodes[w.wire[i].dest]);
  }

  /** Whatever table a router has: every row fits into the words of a packet, if the paths of the
      network do. So the requirement of Router.HandleTimeout is met. */
  lemma TablesCanBeSent(cfg: Config, boot: nat -> nat, acts: seq<Act>, u: nat, r: Route)
    requires WellFormed(cfg) && PathsFit(cfg) && u in WorldAfter(cfg, boot, acts).nodes
    requires r in WorldAfter(cfg, boot, acts).nodes[u].table
    ensures FitsWords(r)
  {
    var steps := RunOf(cfg, boot, acts);
    WorldsAreRuns(cfg, boot, acts);
    assert Mirrors(cfg, After(cfg, steps), WorldAfter(cfg, boot, acts).nodes[u]);
    RowsAlwaysFit(cfg, steps);
    assert RowsFitAfter(cfg, steps);
  }
}
