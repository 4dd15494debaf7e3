/** Networks without circles. Split horizon keeps every row on the only path to its destination, so that no
    run forms a loop, also with failures, losses and reordering; a cheap circle is enough for a loop. */
module Trees {
  import opened Protocol
  import opened TableSpec
  import opened Graph
  import opened Network
  import opened Soundness
  import opened FifoRuns
  import opened Bounds
  import opened LoopFreedom

  /** q leads from one neighbour of x to another one without coming through x. */
  ghost predicate Circle(cfg: Config, x: nat, q: seq<nat>) {
    && IsWalk(cfg, q) && Simple(q) && |q| >= 2 && x !in q
    && Nbr(cfg, x, q[0]) && Nbr(cfg, x, q[|q| - 1])
  }

  ghost predicate Acyclic(cfg: Config) {
    forall x, q :: !Circle(cfg, x, q)
  }

  // ---------- Paths in networks without circles ----------

  function Reversed(w: seq<nat>): (r: seq<nat>)
    ensures |r| == |w| && forall i :: 0 <= i < |w| ==> r[i] == w[|w| - 1 - i]
  {
    seq(|w|, i requires 0 <= i < |w| => w[|w| - 1 - i])
  }

  lemma WalkBack(cfg: Config, w: seq<nat>)
    requires NbrsWellFormed(cfg) && IsWalk(cfg, w)
    ensures IsWalk(cfg, Reversed(w))
  {
    var r := Reversed(w);
    forall i | 0 <= i < |r| - 1 ensures Nbr(cfg, r[i], r[i + 1]) {
      var k := |w| - 2 - i;
      assert Nbr(cfg, w[k], w[k + 1]);
    }
  }

  /** Two paths that start over different neighbours of v and end at one router make a circle. */
  lemma ForkMakesCircle(cfg: Config, v: nat, a: seq<nat>, b: seq<nat>) returns (q: seq<nat>)
    requires NbrsWellFormed(cfg) && IsWalk(cfg, a) && IsWalk(cfg, b) && v !in a && v !in b
    requires Nbr(cfg, v, a[0]) && Nbr(cfg, v, b[0]) && a[0] != b[0] && a[|a| - 1] == b[|b| - 1]
    ensures Circle(cfg, v, q)
  {
    var r := Reversed(b);
    WalkBack(cfg, b);
    CostJoins(cfg, a, r);
    var w := a + r[1..];
    assert forall x :: x in r ==> x in b;
    assert v !in w;
    q := Shorten(cfg, w);
  }

  lemma TailOfPath(cfg: Config, p: seq<nat>)
    requires IsWalk(cfg, p) && Simple(p) && |p| > 1
    ensures IsWalk(cfg, p[1..]) && Simple(p[1..]) && p[0] !in p[1..] && Nbr(cfg, p[0], p[1..][0])
  {
    CostSplits(cfg, p, 1);
    assert Nbr(cfg, p[0], p[0 + 1]);
    forall i, j | 0 <= i < j < |p[1..]| ensures p[1..][i] != p[1..][j] {
      assert p[1..][i] == p[i + 1] && p[1..][j] == p[j + 1];
    }
  }

  lemma {:induction false} PathsAreUnique(cfg: Config, p: seq<nat>, q: seq<nat>)
    requires NbrsWellFormed(cfg) && Acyclic(cfg)
    requires IsWalk(cfg, p) && Simple(p) && IsWalk(cfg, q) && Simple(q)
    requires p[0] == q[0] && p[|p| - 1] == q[|q| - 1]
    ensures p == q
  {
    if |p| > 1 && |q| > 1 {
      TailOfPath(cfg, p);
      TailOfPath(cfg, q);
      if p[1] == q[1] {
        PathsAreUnique(cfg, p[1..], q[1..]);
        assert p == [p[0]] + p[1..] && q == [q[0]] + q[1..];
      } else {
        var c := ForkMakesCircle(cfg, p[0], p[1..], q[1..]);
      }
    }
  }

  // ---------- What every run keeps ----------

  /** p is a path from u to d over v. */
  ghost predicate PathOver(cfg: Config, u: nat, d: nat, v: nat, p: seq<nat>) {
    Walk(cfg, u, d, p) && Simple(p) && |p| > 1 && p[1] == v
  }

  ghost predicate LiesOver(cfg: Config, u: nat, d: nat, v: nat) {
    exists p :: PathOver(cfg, u, d, v, p)
  }

  /** A route that u has or offers lies on a path to d, and u and its next hop know d. */
  ghost predicate OnPath(cfg: Config, s: State, u: nat, d: nat, known: Option<Route>) {
    match known
    case None => true
    case Some(r) =>
      && At(s, u, d).Some?
      && if u == d then r.nextHop == u else LiesOver(cfg, u, d, r.nextHop) && At(s, r.nextHop, d).Some?
  }

  ghost predicate TableOnPaths(cfg: Config, s: State) {
    forall u, d :: u in cfg ==> OnPath(cfg, s, u, d, At(s, u, d))
  }

  ghost predicate PacketOnPaths(cfg: Config, s: State, p: Packet) {
    forall d :: OnPath(cfg, s, p.from, d, Get(p.routes, d))
  }

  ghost predicate OnPaths(cfg: Config, s: State) {
    TableOnPaths(cfg, s) && forall i :: 0 <= i < |s.wire| ==> PacketOnPaths(cfg, s, s.wire[i])
  }

  lemma StillOnPath(cfg: Config, s: State, s': State, u: nat, d: nat, known: Option<Route>)
    requires Remembers(s, s') && OnPath(cfg, s, u, d, known)
    ensures OnPath(cfg, s', u, d, known)
  {
  }

  lemma ReturnMakesCircle(cfg: Config, u: nat, p: seq<nat>, i: nat)
    requires WellFormed(cfg) && IsWalk(cfg, p) && Simple(p) && Nbr(cfg, u, p[0]) && 1 < i < |p| && p[i] == u
    ensures Circle(cfg, u, p[..i])
  {
    CostSplits(cfg, p, i - 1);
    assert Nbr(cfg, p[i - 1], p[i - 1 + 1]);
  }

  /** A path from v that does not go back to u becomes a path from u. */
  lemma LongerPath(cfg: Config, u: nat, v: nat, d: nat, x: nat)
    requires WellFormed(cfg) && Acyclic(cfg) && Nbr(cfg, u, v) && u != d
    requires v == d || (x != u && LiesOver(cfg, v, d, x))
    ensures LiesOver(cfg, u, d, v)
  {
    NbrIsOther(cfg, u, v);
    if v == d {
      Prepend(cfg, u, [d]);
      assert PathOver(cfg, u, d, v, [u] + [d]);
    } else {
      var p :| PathOver(cfg, v, d, x, p);
      if i :| 0 <= i < |p| && p[i] == u {
        ReturnMakesCircle(cfg, u, p, i);
      }
      Prepend(cfg, u, p);
      assert PathOver(cfg, u, d, v, [u] + p);
    }
  }

  /** What becomes of the receiver's route: it keeps its next hop, or the sender becomes its next hop,
      unless the receiver knew the destination and the row would come back to it. */
  lemma NextHopAfter(cfg: Config, s: State, s': State, p: Packet, d: nat)
    requires Nbr(cfg, p.to, p.from) && Distinct(p.routes) && Table(s', p.to) == Received(cfg, s, p)
    requires At(s', p.to, d).Some?
    ensures var v := At(s', p.to, d).value.nextHop;
            || (At(s, p.to, d).Some? && At(s, p.to, d).value.nextHop == v)
            || (v == p.from && Get(p.routes, d).Some?
                && (At(s, p.to, d).None? || Get(p.routes, d).value.nextHop != p.to))
  {
    UpdatePointwise(Table(s, p.to), p.routes, HopOf(cfg, p), d);
  }

  lemma ReceivedOnPath(cfg: Config, s: State, s': State, p: Packet, d: nat)
    requires WellFormed(cfg) && Acyclic(cfg) && Nbr(cfg, p.to, p.from) && Distinct(p.routes) && p.to != d
    requires Remembers(s, s') && Table(s', p.to) == Received(cfg, s, p)
    requires OnPath(cfg, s, p.to, d, At(s, p.to, d)) && OnPath(cfg, s, p.from, d, Get(p.routes, d))
    ensures OnPath(cfg, s', p.to, d, At(s', p.to, d))
  {
    if At(s', p.to, d).Some? {
      NextHopAfter(cfg, s, s', p, d);
      if !(At(s, p.to, d).Some? && At(s, p.to, d).value.nextHop == At(s', p.to, d).value.nextHop) {
        LongerPath(cfg, p.to, p.from, d, Get(p.routes, d).value.nextHop);
      }
    }
  }

  lemma DeliveredOnPaths(cfg: Config, s: State, i: nat, d: nat)
    requires WellFormed(cfg) && Acyclic(cfg) && Sound(cfg, s) && OnPaths(cfg, s) && i < |s.wire|
    ensures var s', u := Next(cfg, s, Deliver(i)), s.wire[i].to; OnPath(cfg, s', u, d, At(s', u, d))
  {
    var s', p := Next(cfg, s, Deliver(i)), s.wire[i];
    assert PacketSound(cfg, s, s.wire[i]);
    NbrIsOther(cfg, p.to, p.from);
    StepRemembers(cfg, s, Deliver(i));
    if p.to == d {
      StepSound(cfg, s, Deliver(i));
      KnowsItself(cfg, s', p.to);
    } else {
      assert PacketOnPaths(cfg, s, s.wire[i]);
      assert OnPath(cfg, s, p.to, d, At(s, p.to, d));
      ReceivedOnPath(cfg, s, s', p, d);
    }
  }

  lemma LostOnPath(cfg: Config, s: State, u: nat, d: nat, known: Option<Route>, n: nat)
    requires OnPath(cfg, s, u, d, known)
    ensures OnPath(cfg, s, u, d, Lost(known, n))
  {
  }

  lemma TableStaysOnPaths(cfg: Config, s: State, step: Step, u: nat, d: nat)
    requires WellFormed(cfg) && Acyclic(cfg) && Sound(cfg, s) && OnPaths(cfg, s) && u in cfg
    ensures var s' := Next(cfg, s, step); OnPath(cfg, s', u, d, At(s', u, d))
  {
    var s' := Next(cfg, s, step);
    StepRemembers(cfg, s, step);
    assert OnPath(cfg, s, u, d, At(s, u, d));
    StillOnPath(cfg, s, s', u, d, At(s, u, d));
    if step.Deliver? && step.index < |s.wire| && s.wire[step.index].to == u {
      DeliveredOnPaths(cfg, s, step.index, d);
    } else if step.Timeout? && step.router == u && Nbr(cfg, u, step.nbr) {
      GetUninstall(Table(s, u), step.nbr, d);
      LostOnPath(cfg, s', u, d, At(s, u, d), step.nbr);
    } else {
      assert Table(s', u) == Table(s, u);
    }
  }

  lemma WireStaysOnPaths(cfg: Config, s: State, step: Step, i: nat)
    requires OnPaths(cfg, s) && i < |Next(cfg, s, step).wire|
    ensures PacketOnPaths(cfg, Next(cfg, s, step), Next(cfg, s, step).wire[i])
  {
    var s' := Next(cfg, s, step);
    var p := s'.wire[i];
    StepRemembers(cfg, s, step);
    forall d ensures OnPath(cfg, s', p.from, d, Get(p.routes, d)) {
      if p in s.wire {
        var k :| 0 <= k < |s.wire| && s.wire[k] == p;
        assert PacketOnPaths(cfg, s, s.wire[k]);
      } else {
        assert p.routes == Table(s, p.from) && p.from in cfg;
        assert OnPath(cfg, s, p.from, d, At(s, p.from, d));
      }
      StillOnPath(cfg, s, s', p.from, d, Get(p.routes, d));
    }
  }

  lemma StepStaysOnPaths(cfg: Config, s: State, step: Step)
    requires WellFormed(cfg) && Acyclic(cfg) && Sound(cfg, s) && OnPaths(cfg, s)
    ensures OnPaths(cfg, Next(cfg, s, step))
  {
    var s' := Next(cfg, s, step);
    forall u, d | u in cfg ensures OnPath(cfg, s', u, d, At(s', u, d)) {
      TableStaysOnPaths(cfg, s, step, u, d);
    }
    forall i | 0 <= i < |s'.wire| ensures PacketOnPaths(cfg, s', s'.wire[i]) {
      WireStaysOnPaths(cfg, s, step, i);
    }
  }

  lemma DirectLinkOnPath(cfg: Config, s: State, u: nat, d: nat)
    requires Nbr(cfg, u, d) && u in cfg && d in cfg && u != d && At(s, d, d).Some?
    requires At(s, u, d) == Some(Route(d, d, LinkCost(cfg, u, d)))
    ensures OnPath(cfg, s, u, d, At(s, u, d))
  {
    assert PathOver(cfg, u, d, d, [u, d]);
  }

  lemma InitOnPaths(cfg: Config)
    requires WellFormed(cfg)
    ensures OnPaths(cfg, Init(cfg))
  {
    forall u, d | u in cfg ensures OnPath(cfg, Init(cfg), u, d, At(Init(cfg), u, d)) {
      InitRowAt(cfg, u, d);
      if u != d && Nbr(cfg, u, d) {
        NbrIsOther(cfg, u, d);
        InitRowAt(cfg, d, d);
        DirectLinkOnPath(cfg, Init(cfg), u, d);
      }
    }
  }

  /** The invariant: every row, in tables and in flight, goes over the first router of a path. */
  lemma {:induction false} AlwaysOnPaths(cfg: Config, steps: seq<Step>)
    requires WellFormed(cfg) && Acyclic(cfg)
    ensures OnPaths(cfg, After(cfg, steps))
  {
    if steps == [] {
      InitOnPaths(cfg);
    } else {
      AlwaysOnPaths(cfg, steps[..|steps| - 1]);
      AlwaysSound(cfg, steps[..|steps| - 1]);
      StepStaysOnPaths(cfg, After(cfg, steps[..|steps| - 1]), steps[|steps| - 1]);
    }
  }

  // ---------- No loops ----------

  /** Whoever follows next hops towards a destination, and stops there at the latest, visits no router
      twice. */
  ghost predicate NoLoops(s: State) {
    forall d, w :: w != [] && Forwards(s, d, w) && d !in w[..|w| - 1] ==> Simple(w)
  }

  lemma ForwardsFrom(s: State, d: nat, p: seq<nat>)
    requires |p| > 1 && Forwards(s, d, p[1..])
    requires At(s, p[0], d).Some? && At(s, p[0], d).value.nextHop == p[1]
    ensures Forwards(s, d, p)
  {
    forall i | 0 <= i < |p| - 1 ensures At(s, p[i], d).Some? && At(s, p[i], d).value.nextHop == p[i + 1] {
      if i > 0 {
        assert p[1..][i - 1] == p[i] && p[1..][i - 1 + 1] == p[i + 1];
      }
    }
  }

  /** The only path to d is the one that the next hops follow. */
  lemma {:induction false} PathIsFollowed(cfg: Config, s: State, d: nat, p: seq<nat>)
    requires WellFormed(cfg) && Acyclic(cfg) && TableOnPaths(cfg, s)
    requires IsWalk(cfg, p) && Simple(p) && p[|p| - 1] == d && At(s, p[0], d).Some?
    ensures Forwards(s, d, p)
  {
    if |p| > 1 {
      var r := At(s, p[0], d).value;
      assert OnPath(cfg, s, p[0], d, At(s, p[0], d));
      var q :| PathOver(cfg, p[0], d, r.nextHop, q);
      PathsAreUnique(cfg, p, q);
      TailOfPath(cfg, p);
      PathIsFollowed(cfg, s, d, p[1..]);
      ForwardsFrom(s, d, p);
    }
  }

  /** Two ways of following next hops from one router agree as long as both last. */
  lemma {:induction false} FollowersAgree(s: State, d: nat, w: seq<nat>, p: seq<nat>, i: nat)
    requires Forwards(s, d, w) && Forwards(s, d, p) && w != [] && p != [] && w[0] == p[0]
    requires d !in w[..|w| - 1] && p[|p| - 1] == d && i < |w|
    ensures i < |p| && w[i] == p[i]
  {
    if i > 0 {
      FollowersAgree(s, d, w, p, i - 1);
      assert w[..|w| - 1][i - 1] == w[i - 1];
      assert At(s, w[i - 1], d).value.nextHop == w[i - 1 + 1];
    }
  }

  lemma OnPathsHaveNoLoops(cfg: Config, s: State)
    requires WellFormed(cfg) && Acyclic(cfg) && s.tables.Keys == cfg.Keys && TableOnPaths(cfg, s)
    ensures NoLoops(s)
  {
    forall d, w | w != [] && Forwards(s, d, w) && d !in w[..|w| - 1] ensures Simple(w) {
      if |w| > 1 {
        assert At(s, w[0], d).Some? && w[..|w| - 1][0] == w[0];
        assert OnPath(cfg, s, w[0], d, At(s, w[0], d));
        var p :| PathOver(cfg, w[0], d, At(s, w[0], d).value.nextHop, p);
        PathIsFollowed(cfg, s, d, p);
        forall i | 0 <= i < |w| ensures i < |p| && w[i] == p[i] {
          FollowersAgree(s, d, w, p, i);
        }
      }
    }
  }

  /** Without circles no run forms a loop, whatever is lost, doubled, reordered or declared dead. */
  lemma TreesHaveNoLoops(cfg: Config, steps: seq<Step>)
    requires WellFormed(cfg) && Acyclic(cfg)
    ensures NoLoops(After(cfg, steps))
  {
    AlwaysOnPaths(cfg, steps);
    AlwaysSound(cfg, steps);
    OnPathsHaveNoLoops(cfg, After(cfg, steps));
  }

  /** Every route, whatever its cost, leads to its destination, on the only path there is. */
  lemma TreeRoutesLead(cfg: Config, steps: seq<Step>, u: nat, d: nat) returns (w: seq<nat>)
    requires WellFormed(cfg) && Acyclic(cfg) && u in cfg && At(After(cfg, steps), u, d).Some?
    ensures Walk(cfg, u, d, w) && Simple(w) && Forwards(After(cfg, steps), d, w)
    ensures forall p :: Walk(cfg, u, d, p) && Simple(p) ==> p == w
  {
    var s := After(cfg, steps);
    AlwaysOnPaths(cfg, steps);
    assert OnPath(cfg, s, u, d, At(s, u, d));
    if u == d {
      w := [u];
    } else {
      w :| PathOver(cfg, u, d, At(s, u, d).value.nextHop, w);
    }
    PathIsFollowed(cfg, s, d, w);
    forall p | Walk(cfg, u, d, p) && Simple(p) ensures p == w {
      PathsAreUnique(cfg, p, w);
    }
  }

  // ---------- A circle is enough for a loop ----------

  /** Router u has just heard what v knows about d; packets sent before are still on their way. */
  ghost predicate Told(cfg: Config, s: State, s': State, v: nat, u: nat, d: nat) {
    && Nbr(cfg, u, v)
    && (forall x :: x != u ==> Table(s', x) == Table(s, x))
    && At(s', u, d) == MergeEntry(At(s, u, d), At(s, v, d), Hop(v, LinkCost(cfg, u, v), u))
    && s.wire <= s'.wire
  }

  lemma DeliveredTold(cfg: Config, s: State, s1: State, n: nat, v: nat, u: nat, d: nat)
    requires s1.tables == s.tables && s.wire <= s1.wire && |s.wire| <= n < |s1.wire|
    requires s1.wire[n].from == v && s1.wire[n].to == u && s1.wire[n].routes == Table(s, v)
    requires Nbr(cfg, u, v) && Distinct(Table(s, v))
    ensures Told(cfg, s, Next(cfg, s1, Deliver(n)), v, u, d)
  {
    DeliveredAt(cfg, s1, n, d);
    assert forall x :: Table(s1, x) == Table(s, x);
  }

  lemma AdvertisedTo(cfg: Config, s: State, v: nat, u: nat)
    requires Nbr(cfg, v, u)
    ensures var s1, n := Next(cfg, s, Advertise(v)), |s.wire| + FindNbr(cfg[v], u);
            && s1.tables == s.tables && s.wire <= s1.wire && n < |s1.wire|
            && s1.wire[n] == Packet(s.time, v, u, Table(s, v))
  {
    var s1, k := Next(cfg, s, Advertise(v)), FindNbr(cfg[v], u);
    assert s1.wire[|s.wire| + k] == Adverts(cfg, s, v)[k];
  }

  /** Router v advertises and its neighbour u gets the packet. */
  lemma Tell(cfg: Config, steps: seq<Step>, v: nat, u: nat, d: nat) returns (more: seq<Step>)
    requires WellFormed(cfg) && Nbr(cfg, u, v)
    ensures Told(cfg, After(cfg, steps), After(cfg, more), v, u, d)
  {
    assert Nbr(cfg, v, u);
    NbrIsOther(cfg, u, v);
    var s, k := After(cfg, steps), FindNbr(cfg[v], u);
    AlwaysSound(cfg, steps);
    assert TableSound(cfg, v, Table(s, v));
    AdvertisedTo(cfg, s, v, u);
    DeliveredTold(cfg, s, Next(cfg, s, Advertise(v)), |s.wire| + k, v, u, d);
    more := steps + [Advertise(v)] + [Deliver(|s.wire| + k)];
    AdvertisedAndDelivered(cfg, steps, v, Deliver(|s.wire| + k));
  }

  /** Router u has just declared its neighbour n dead. */
  ghost predicate Forgot(s: State, s': State, u: nat, n: nat, d: nat) {
    && (forall x :: x != u ==> Table(s', x) == Table(s, x))
    && At(s', u, d) == Lost(At(s, u, d), n)
    && s.wire <= s'.wire
  }

  lemma Forget(cfg: Config, steps: seq<Step>, u: nat, n: nat, d: nat) returns (more: seq<Step>)
    requires WellFormed(cfg) && Nbr(cfg, u, n)
    ensures Forgot(After(cfg, steps), After(cfg, more), u, n, d)
  {
    more := steps + [Timeout(u, n)];
    assert more[..|steps|] == steps;
    AlwaysSound(cfg, steps);
    NbrIsOther(cfg, u, n);
    TimeoutChanges(cfg, After(cfg, steps), u, n);
    GetUninstall(Table(After(cfg, steps), u), n, d);
  }

  /** Packet n, from x to y, offers the direct route to d. */
  ghost predicate OldNews(cfg: Config, s: State, x: nat, y: nat, d: nat, n: nat) {
    && Nbr(cfg, x, d) && n < |s.wire| && s.wire[n].from == x && s.wire[n].to == y
    && Get(s.wire[n].routes, d) == Some(Route(d, d, LinkCost(cfg, x, d)))
  }

  /** Router x, its first packet to q[0] and the first j routers of q are as at the start. */
  ghost predicate Untouched(cfg: Config, s: State, x: nat, q: seq<nat>, j: nat, n: nat)
    requires Circle(cfg, x, q) && j < |q|
  {
    var d := q[|q| - 1];
    && OldNews(cfg, s, x, q[0], d, n)
    && At(s, x, d) == KnownAtStart(cfg, x, d)
    && forall i :: 0 <= i < j ==> At(s, q[i], d) == KnownAtStart(cfg, q[i], d)
  }

  /** The routers of q from number j on have passed on their way to the last one. */
  ghost predicate PassedOn(cfg: Config, s: State, x: nat, q: seq<nat>, j: nat, n: nat)
    requires Circle(cfg, x, q) && j + 1 < |q| && IsWalk(cfg, q[j..])
  {
    && Untouched(cfg, s, x, q, j, n)
    && At(s, q[j], q[|q| - 1]) == Some(Route(q[|q| - 1], q[j + 1], WalkCost(cfg, q[j..])))
  }

  /** All costs that the circle needs stay below INFINITY. */
  ghost predicate Cheap(cfg: Config, x: nat, q: seq<nat>)
    requires NbrsWellFormed(cfg) && Circle(cfg, x, q)
  {
    && Nbr(cfg, q[0], x)
    && LinkCost(cfg, x, q[0]) + WalkCost(cfg, q) < INFINITY
    && LinkCost(cfg, q[0], x) + LinkCost(cfg, x, q[|q| - 1]) < INFINITY
  }

  lemma FirstNews(cfg: Config, x: nat, y: nat, d: nat)
    requires WellFormed(cfg) && Nbr(cfg, x, y) && Nbr(cfg, x, d)
    ensures var s := Next(cfg, Init(cfg), Advertise(x));
            s.tables == Init(cfg).tables && OldNews(cfg, s, x, y, d, FindNbr(cfg[x], y))
  {
    NbrIsOther(cfg, x, d);
    InitRowAt(cfg, x, d);
    var s := Next(cfg, Init(cfg), Advertise(x));
    assert s.wire[FindNbr(cfg[x], y)] == Adverts(cfg, Init(cfg), x)[FindNbr(cfg[x], y)];
  }

  lemma KnownStill(cfg: Config, s: State, u: nat, d: nat)
    requires WellFormed(cfg) && u in cfg && s.tables == Init(cfg).tables
    ensures At(s, u, d) == KnownAtStart(cfg, u, d)
  {
    InitRowAt(cfg, u, d);
    assert Table(s, u) == Table(Init(cfg), u);
  }

  lemma BeginUntouched(cfg: Config, x: nat, q: seq<nat>)
    requires WellFormed(cfg) && Circle(cfg, x, q)
    ensures Untouched(cfg, Next(cfg, Init(cfg), Advertise(x)), x, q, |q| - 1, FindNbr(cfg[x], q[0]))
  {
    var s, d := Next(cfg, Init(cfg), Advertise(x)), q[|q| - 1];
    NbrIsOther(cfg, x, q[0]);
    FirstNews(cfg, x, q[0], d);
    forall i | 0 <= i < |q| ensures At(s, q[i], d) == KnownAtStart(cfg, q[i], d) {
      KnownStill(cfg, s, q[i], d);
    }
    KnownStill(cfg, s, x, d);
  }

  lemma LastLinkPasses(cfg: Config, s: State, x: nat, q: seq<nat>, j: nat, n: nat)
    requires Circle(cfg, x, q) && j + 2 == |q| && Untouched(cfg, s, x, q, j + 1, n)
    ensures IsWalk(cfg, q[j..]) && PassedOn(cfg, s, x, q, j, n)
  {
    assert q[j..] == [q[j], q[j + 1]] && Nbr(cfg, q[j], q[j + 1]);
    assert At(s, q[j], q[j + 1]) == KnownAtStart(cfg, q[j], q[j + 1]);
  }

  lemma FirstStep(cfg: Config, step: Step)
    ensures After(cfg, [step]) == Next(cfg, Init(cfg), step)
  {
    assert [step][..0] == [];
  }

  /** Router x advertises once, before anything else happens. */
  lemma BeginCircle(cfg: Config, x: nat, q: seq<nat>) returns (steps: seq<Step>)
    requires WellFormed(cfg) && Circle(cfg, x, q)
    ensures IsWalk(cfg, q[|q| - 2..])
    ensures PassedOn(cfg, After(cfg, steps), x, q, |q| - 2, FindNbr(cfg[x], q[0]))
  {
    steps := [Advertise(x)];
    FirstStep(cfg, Advertise(x));
    BeginUntouched(cfg, x, q);
    LastLinkPasses(cfg, After(cfg, steps), x, q, |q| - 2, FindNbr(cfg[x], q[0]));
  }

  lemma MergedOnCircle(known: Option<Route>, e: Route, h: Hop, d: nat)
    requires e.dest == d && e.nextHop != h.me && h.sender != d && h.cost + e.cost < INFINITY
    requires known == None || known == Some(Route(d, d, INFINITY))
    ensures MergeEntry(known, Some(e), h) == Some(Route(d, h.sender, h.cost + e.cost))
  {
  }

  lemma ForgotUntouched(cfg: Config, s: State, s': State, x: nat, q: seq<nat>, j: nat, n: nat)
    requires Circle(cfg, x, q) && j + 1 < |q| && Untouched(cfg, s, x, q, j + 1, n)
    requires Forgot(s, s', q[j], q[|q| - 1], q[|q| - 1])
    ensures Untouched(cfg, s', x, q, j, n) && Table(s', q[j + 1]) == Table(s, q[j + 1])
    ensures At(s', q[j], q[|q| - 1]) in {None, Some(Route(q[|q| - 1], q[|q| - 1], INFINITY))}
  {
    assert At(s, q[j], q[|q| - 1]) == KnownAtStart(cfg, q[j], q[|q| - 1]);
    assert q[j] in q && q[j] != q[j + 1];
    assert n < |s.wire| ==> s'.wire[n] == s.wire[n];
    forall i | 0 <= i < j ensures At(s', q[i], q[|q| - 1]) == KnownAtStart(cfg, q[i], q[|q| - 1]) {
      assert q[i] != q[j];
    }
  }

  /** Router q[j] forgets its own link to the last router, if it has one. */
  lemma ForgetDirectLink(cfg: Config, steps: seq<Step>, x: nat, q: seq<nat>, j: nat, n: nat) returns (more: seq<Step>)
    requires WellFormed(cfg) && Circle(cfg, x, q) && j + 1 < |q| && Untouched(cfg, After(cfg, steps), x, q, j + 1, n)
    ensures Untouched(cfg, After(cfg, more), x, q, j, n)
    ensures Table(After(cfg, more), q[j + 1]) == Table(After(cfg, steps), q[j + 1])
    ensures At(After(cfg, more), q[j], q[|q| - 1]) in {None, Some(Route(q[|q| - 1], q[|q| - 1], INFINITY))}
  {
    var d := q[|q| - 1];
    assert At(After(cfg, steps), q[j], d) == KnownAtStart(cfg, q[j], d) && q[j] != d;
    if Nbr(cfg, q[j], d) {
      more := Forget(cfg, steps, q[j], d, d);
      ForgotUntouched(cfg, After(cfg, steps), After(cfg, more), x, q, j, n);
    } else {
      more := steps;
    }
  }

  lemma ToldUntouched(cfg: Config, s: State, s': State, x: nat, q: seq<nat>, j: nat, n: nat)
    requires Circle(cfg, x, q) && j + 1 < |q| && Untouched(cfg, s, x, q, j, n)
    requires s.wire <= s'.wire && forall u :: u != q[j] ==> Table(s', u) == Table(s, u)
    ensures Untouched(cfg, s', x, q, j, n)
  {
    var d := q[|q| - 1];
    assert q[j] in q && s'.wire[n] == s.wire[n];
    assert Table(s', x) == Table(s, x);
    forall i | 0 <= i < j ensures At(s', q[i], d) == KnownAtStart(cfg, q[i], d) {
      assert q[i] != q[j] && Table(s', q[i]) == Table(s, q[i]);
    }
  }

  lemma OneHopMore(cfg: Config, q: seq<nat>, j: nat)
    requires IsWalk(cfg, q) && j + 1 < |q|
    ensures Nbr(cfg, q[j], q[j + 1]) && IsWalk(cfg, q[j..]) && IsWalk(cfg, q[j + 1..])
    ensures WalkCost(cfg, q[j..]) == LinkCost(cfg, q[j], q[j + 1]) + WalkCost(cfg, q[j + 1..])
    ensures WalkCost(cfg, q[j..]) <= WalkCost(cfg, q)
  {
    assert Nbr(cfg, q[j], q[j + 1]);
    CostSplits(cfg, q, j);
    CostSplits(cfg, q, j + 1);
    assert q[j..][1..] == q[j + 1..];
  }

  lemma HeardOnCircle(cfg: Config, x: nat, q: seq<nat>, j: nat, known: Option<Route>)
    requires NbrsWellFormed(cfg) && Circle(cfg, x, q) && Cheap(cfg, x, q) && j + 2 < |q|
    requires known in {None, Some(Route(q[|q| - 1], q[|q| - 1], INFINITY))}
    ensures Nbr(cfg, q[j], q[j + 1]) && IsWalk(cfg, q[j..]) && IsWalk(cfg, q[j + 1..])
    ensures var d := q[|q| - 1];
            MergeEntry(known, Some(Route(d, q[j + 2], WalkCost(cfg, q[j + 1..]))),
                       Hop(q[j + 1], LinkCost(cfg, q[j], q[j + 1]), q[j]))
            == Some(Route(d, q[j + 1], WalkCost(cfg, q[j..])))
  {
    var d := q[|q| - 1];
    OneHopMore(cfg, q, j);
    MergedOnCircle(known, Route(d, q[j + 2], WalkCost(cfg, q[j + 1..])),
                   Hop(q[j + 1], LinkCost(cfg, q[j], q[j + 1]), q[j]), d);
  }

  lemma ToldPassesOn(cfg: Config, s: State, s': State, x: nat, q: seq<nat>, j: nat, n: nat)
    requires NbrsWellFormed(cfg) && Circle(cfg, x, q) && Cheap(cfg, x, q) && j + 2 < |q| && IsWalk(cfg, q[j + 1..])
    requires Untouched(cfg, s, x, q, j, n) && Told(cfg, s, s', q[j + 1], q[j], q[|q| - 1])
    requires At(s, q[j], q[|q| - 1]) in {None, Some(Route(q[|q| - 1], q[|q| - 1], INFINITY))}
    requires At(s, q[j + 1], q[|q| - 1]) == Some(Route(q[|q| - 1], q[j + 2], WalkCost(cfg, q[j + 1..])))
    ensures IsWalk(cfg, q[j..]) && PassedOn(cfg, s', x, q, j, n)
  {
    HeardOnCircle(cfg, x, q, j, At(s, q[j], q[|q| - 1]));
    ToldUntouched(cfg, s, s', x, q, j, n);
  }

  lemma PassOnCircle(cfg: Config, steps: seq<Step>, x: nat, q: seq<nat>, j: nat, n: nat) returns (more: seq<Step>)
    requires WellFormed(cfg) && Circle(cfg, x, q) && Cheap(cfg, x, q)
    requires j + 2 < |q| && IsWalk(cfg, q[j + 1..]) && PassedOn(cfg, After(cfg, steps), x, q, j + 1, n)
    ensures IsWalk(cfg, q[j..]) && PassedOn(cfg, After(cfg, more), x, q, j, n)
  {
    assert Nbr(cfg, q[j], q[j + 1]);
    var ready := ForgetDirectLink(cfg, steps, x, q, j, n);
    more := Tell(cfg, ready, q[j + 1], q[j], q[|q| - 1]);
    ToldPassesOn(cfg, After(cfg, ready), After(cfg, more), x, q, j, n);
  }

  lemma {:induction false} PassAlongCircle(cfg: Config, x: nat, q: seq<nat>, j: nat) returns (steps: seq<Step>)
    requires WellFormed(cfg) && Circle(cfg, x, q) && Cheap(cfg, x, q) && j + 1 < |q|
    ensures IsWalk(cfg, q[j..]) && PassedOn(cfg, After(cfg, steps), x, q, j, FindNbr(cfg[x], q[0]))
    decreases |q| - j
  {
    if j + 2 == |q| {
      steps := BeginCircle(cfg, x, q);
    } else {
      var before := PassAlongCircle(cfg, x, q, j + 1);
      steps := PassOnCircle(cfg, before, x, q, j, FindNbr(cfg[x], q[0]));
    }
  }

  /** Router x goes over q[0], which has forgotten its own next hop. */
  ghost predicate Waiting(cfg: Config, s: State, x: nat, q: seq<nat>, n: nat)
    requires Circle(cfg, x, q)
  {
    var d := q[|q| - 1];
    && OldNews(cfg, s, x, q[0], d, n)
    && At(s, x, d).Some? && At(s, x, d).value.nextHop == q[0]
    && At(s, q[0], d) == Some(Route(d, q[1], INFINITY))
  }

  lemma CircleCloses(cfg: Config, x: nat, q: seq<nat>, known: Option<Route>)
    requires NbrsWellFormed(cfg) && Circle(cfg, x, q) && Cheap(cfg, x, q)
    requires known == Some(Route(q[|q| - 1], q[|q| - 1], INFINITY))
    ensures var merged := MergeEntry(known, Some(Route(q[|q| - 1], q[1], WalkCost(cfg, q))),
                                     Hop(q[0], LinkCost(cfg, x, q[0]), x));
            merged.Some? && merged.value.nextHop == q[0]
  {
    assert q[0] in q && q[1] in q;
    MergedOnCircle(known, Route(q[|q| - 1], q[1], WalkCost(cfg, q)), Hop(q[0], LinkCost(cfg, x, q[0]), x), q[|q| - 1]);
  }

  /** Router x forgets its link to d and hears from q[0], which then forgets its own next hop. */
  lemma ThreeChanges(cfg: Config, s: State, lost: State, told: State, s': State, x: nat, q: seq<nat>, n: nat)
    requires NbrsWellFormed(cfg) && Circle(cfg, x, q) && Cheap(cfg, x, q)
    requires OldNews(cfg, s, x, q[0], q[|q| - 1], n)
    requires At(s, x, q[|q| - 1]) == Some(Route(q[|q| - 1], q[|q| - 1], LinkCost(cfg, x, q[|q| - 1])))
    requires At(s, q[0], q[|q| - 1]) == Some(Route(q[|q| - 1], q[1], WalkCost(cfg, q)))
    requires Forgot(s, lost, x, q[|q| - 1], q[|q| - 1]) && Told(cfg, lost, told, q[0], x, q[|q| - 1])
    requires Forgot(told, s', q[0], q[1], q[|q| - 1])
    ensures Waiting(cfg, s', x, q, n)
  {
    var d := q[|q| - 1];
    assert q[0] in q;
    assert Table(lost, q[0]) == Table(s, q[0]) && Table(told, q[0]) == Table(s, q[0]) && Table(s', x) == Table(told, x);
    CircleCloses(cfg, x, q, At(lost, x, d));
    assert s'.wire[n] == s.wire[n];
  }

  lemma WaitOnCircle(cfg: Config, steps: seq<Step>, x: nat, q: seq<nat>, n: nat) returns (more: seq<Step>)
    requires WellFormed(cfg) && Circle(cfg, x, q) && Cheap(cfg, x, q)
    requires IsWalk(cfg, q[0..]) && PassedOn(cfg, After(cfg, steps), x, q, 0, n)
    ensures Waiting(cfg, After(cfg, more), x, q, n)
  {
    var d := q[|q| - 1];
    OneHopMore(cfg, q, 0);
    assert q[0..] == q && d in q;
    var lost := Forget(cfg, steps, x, d, d);
    var told := Tell(cfg, lost, q[0], x, d);
    more := Forget(cfg, told, q[0], q[1], d);
    ThreeChanges(cfg, After(cfg, steps), After(cfg, lost), After(cfg, told), After(cfg, more), x, q, n);
  }

  lemma TwoForwardToEachOther(s: State, x: nat, y: nat, d: nat, w: seq<nat>)
    requires At(s, x, d).Some? && At(s, x, d).value.nextHop == y
    requires At(s, y, d).Some? && At(s, y, d).value.nextHop == x && w == [x, y, x]
    ensures Forwards(s, d, w)
  {
  }

  lemma LateMerge(cfg: Config, x: nat, q: seq<nat>)
    requires NbrsWellFormed(cfg) && Circle(cfg, x, q) && Cheap(cfg, x, q)
    ensures var d := q[|q| - 1];
            q[0] != x && x != d
            && MergeEntry(Some(Route(d, q[1], INFINITY)), Some(Route(d, d, LinkCost(cfg, x, d))),
                          Hop(x, LinkCost(cfg, q[0], x), q[0]))
               == Some(Route(d, x, LinkCost(cfg, q[0], x) + LinkCost(cfg, x, d)))
  {
    assert q[0] in q && q[1] in q && q[|q| - 1] in q;
  }

  lemma OldNewsArrives(cfg: Config, steps: seq<Step>, x: nat, q: seq<nat>, n: nat) returns (more: seq<Step>)
    requires WellFormed(cfg) && Circle(cfg, x, q) && Cheap(cfg, x, q) && Waiting(cfg, After(cfg, steps), x, q, n)
    ensures Forwards(After(cfg, more), q[|q| - 1], [x, q[0], x])
  {
    var s, d := After(cfg, steps), q[|q| - 1];
    more := steps + [Deliver(n)];
    assert more[..|steps|] == steps;
    AlwaysSound(cfg, steps);
    assert PacketSound(cfg, s, s.wire[n]);
    DeliveredAt(cfg, s, n, d);
    LateMerge(cfg, x, q);
    TwoForwardToEachOther(After(cfg, more), x, q[0], d, [x, q[0], x]);
  }

  lemma ThereAndBack(s: State, d: nat, w: seq<nat>)
    requires |w| == 3 && w[0] == w[2] && Forwards(s, d, w) && w[0] != d && w[1] != d
    ensures !NoLoops(s)
  {
    assert d !in w[..|w| - 1];
  }

  ghost predicate LoopFreeAfter(cfg: Config, steps: seq<Step>) {
    NoLoops(After(cfg, steps))
  }

  /** On a circle whose costs stay below INFINITY some run, with timeouts and a packet that arrives late,
      makes two neighbours forward to each other. */
  lemma CircleMakesLoop(cfg: Config, x: nat, q: seq<nat>) returns (steps: seq<Step>)
    requires WellFormed(cfg) && Circle(cfg, x, q) && Cheap(cfg, x, q)
    ensures !LoopFreeAfter(cfg, steps)
  {
    var n := FindNbr(cfg[x], q[0]);
    var passed := PassAlongCircle(cfg, x, q, 0);
    var waiting := WaitOnCircle(cfg, passed, x, q, n);
    steps := OldNewsArrives(cfg, waiting, x, q, n);
    assert q[|q| - 1] in q;
    ThereAndBack(After(cfg, steps), q[|q| - 1], [x, q[0], x]);
  }

  ghost predicate CirclesAreCheap(cfg: Config)
    requires NbrsWellFormed(cfg)
  {
    forall x, q :: Circle(cfg, x, q) ==> Cheap(cfg, x, q)
  }

  /** Where circles cost less than INFINITY, all runs are free of loops exactly when there are no circles. */
  lemma LoopFreeExactly(cfg: Config)
    requires WellFormed(cfg) && CirclesAreCheap(cfg)
    ensures (forall steps :: LoopFreeAfter(cfg, steps)) <==> Acyclic(cfg)
  {
    if Acyclic(cfg) {
      forall steps ensures LoopFreeAfter(cfg, steps) {
        TreesHaveNoLoops(cfg, steps);
      }
    }
    if x, q :| Circle(cfg, x, q) {
      var steps := CircleMakesLoop(cfg, x, q);
    }
  }

  lemma {:induction false} WalkCostAtMost(cfg: Config, w: seq<nat>, limit: nat)
    requires IsWalk(cfg, w) && LinksAtMost(cfg, limit)
    ensures WalkCost(cfg, w) <= (|w| - 1) * limit
  {
    if |w| > 1 {
      assert Nbr(cfg, w[0], w[0 + 1]);
      CostSplits(cfg, w, 1);
      WalkCostAtMost(cfg, w[1..], limit);
      assert (|w| - 1) * limit == (|w| - 2) * limit + limit;
    }
  }

  lemma CircleCostsLittle(cfg: Config, x: nat, q: seq<nat>, limit: nat)
    requires NbrsWellFormed(cfg) && Circle(cfg, x, q) && LinksAtMost(cfg, limit)
    ensures LinkCost(cfg, x, q[0]) + WalkCost(cfg, q) <= (MAX_ROUTERS - 1) * limit
  {
    Prepend(cfg, x, q);
    SimpleWalkIsShort(cfg, [x] + q);
    WalkCostAtMost(cfg, [x] + q, limit);
    TimesKeepsOrder(|q|, MAX_ROUTERS - 1, limit);
  }

  /** Links of at most 110 are small enough. */
  lemma SmallLinksAreCheap(cfg: Config)
    requires WellFormed(cfg) && LinksAtMost(cfg, (INFINITY - 1) / (MAX_ROUTERS - 1))
    ensures CirclesAreCheap(cfg)
  {
    forall x, q | Circle(cfg, x, q) ensures Cheap(cfg, x, q) {
      CircleCostsLittle(cfg, x, q, (INFINITY - 1) / (MAX_ROUTERS - 1));
    }
  }

  // ---------- Circles that cost too much ----------

  /** Every router is a neighbour of every other one, and all links have the same cost of INFINITY or more. */
  ghost predicate FarMesh(cfg: Config, cost: nat) {
    && WellFormed(cfg) && cost >= INFINITY
    && forall u, v :: u in cfg && v in cfg && u != v ==> Nbr(cfg, u, v) && LinkCost(cfg, u, v) == cost
  }

  /** A row about another router goes there directly, at a cost that no detour undercuts. */
  ghost predicate Direct(cfg: Config, cost: nat, u: nat, d: nat, known: Option<Route>) {
    match known
    case None => u !in cfg || d !in cfg
    case Some(r) => d in cfg && (u != d ==> r.nextHop == d && INFINITY <= r.cost <= cost)
  }

  /** Packets need not say something about every router. */
  ghost predicate DirectInPacket(cfg: Config, cost: nat, u: nat, d: nat, heard: Option<Route>) {
    heard.None? || Direct(cfg, cost, u, d, heard)
  }

  ghost predicate AllDirect(cfg: Config, cost: nat, s: State) {
    && (forall u, d :: u in cfg ==> Direct(cfg, cost, u, d, At(s, u, d)))
    && forall i, d :: 0 <= i < |s.wire| ==>
         DirectInPacket(cfg, cost, s.wire[i].from, d, Get(s.wire[i].routes, d))
  }

  lemma MergedIsDirect(cfg: Config, cost: nat, u: nat, v: nat, d: nat, known: Option<Route>, heard: Option<Route>)
    requires FarMesh(cfg, cost) && u in cfg && v in cfg && u != v && u != d
    requires Direct(cfg, cost, u, d, known) && DirectInPacket(cfg, cost, v, d, heard)
    requires v == d && heard.Some? ==> heard.value.cost == 0
    ensures Direct(cfg, cost, u, d, MergeEntry(known, heard, Hop(v, cost, u)))
  {
  }

  lemma DirectAfterDelivery(cfg: Config, cost: nat, s: State, i: nat, d: nat)
    requires FarMesh(cfg, cost) && Sound(cfg, s) && AllDirect(cfg, cost, s) && i < |s.wire|
    ensures var s', u := Next(cfg, s, Deliver(i)), s.wire[i].to; Direct(cfg, cost, u, d, At(s', u, d))
  {
    var s', p := Next(cfg, s, Deliver(i)), s.wire[i];
    assert PacketSound(cfg, s, s.wire[i]);
    NbrIsOther(cfg, p.to, p.from);
    if p.to == d {
      StepSound(cfg, s, Deliver(i));
      KnowsItself(cfg, s', d);
    } else {
      DeliveredAt(cfg, s, i, d);
      assert DirectInPacket(cfg, cost, s.wire[i].from, d, Get(s.wire[i].routes, d));
      MergedIsDirect(cfg, cost, p.to, p.from, d, At(s, p.to, d), Get(p.routes, d));
    }
  }

  lemma LostIsDirect(cfg: Config, cost: nat, u: nat, d: nat, known: Option<Route>, n: nat)
    requires cost >= INFINITY && Direct(cfg, cost, u, d, known)
    ensures Direct(cfg, cost, u, d, Lost(known, n))
  {
  }

  lemma TableStaysDirect(cfg: Config, cost: nat, s: State, step: Step, u: nat, d: nat)
    requires FarMesh(cfg, cost) && Sound(cfg, s) && AllDirect(cfg, cost, s) && u in cfg
    ensures Direct(cfg, cost, u, d, At(Next(cfg, s, step), u, d))
  {
    var s' := Next(cfg, s, step);
    assert Direct(cfg, cost, u, d, At(s, u, d));
    if step.Deliver? && step.index < |s.wire| && s.wire[step.index].to == u {
      DirectAfterDelivery(cfg, cost, s, step.index, d);
    } else if step.Timeout? && step.router == u && Nbr(cfg, u, step.nbr) {
      TimeoutChanges(cfg, s, u, step.nbr);
      GetUninstall(Table(s, u), step.nbr, d);
      LostIsDirect(cfg, cost, u, d, At(s, u, d), step.nbr);
    } else {
      assert Table(s', u) == Table(s, u);
    }
  }

  lemma WireStaysDirect(cfg: Config, cost: nat, s: State, step: Step, i: nat, d: nat)
    requires AllDirect(cfg, cost, s) && i < |Next(cfg, s, step).wire|
    ensures var p := Next(cfg, s, step).wire[i]; DirectInPacket(cfg, cost, p.from, d, Get(p.routes, d))
  {
    var p := Next(cfg, s, step).wire[i];
    if p in s.wire {
      var k :| 0 <= k < |s.wire| && s.wire[k] == p;
      assert DirectInPacket(cfg, cost, s.wire[k].from, d, Get(s.wire[k].routes, d));
    } else {
      assert p.routes == Table(s, p.from) && p.from in cfg;
      assert Direct(cfg, cost, p.from, d, At(s, p.from, d));
    }
  }

  lemma {:induction false} AlwaysDirect(cfg: Config, cost: nat, steps: seq<Step>)
    requires FarMesh(cfg, cost)
    ensures AllDirect(cfg, cost, After(cfg, steps))
  {
    if steps == [] {
      forall u, d | u in cfg ensures Direct(cfg, cost, u, d, At(Init(cfg), u, d)) {
        InitRowAt(cfg, u, d);
        if u != d && Nbr(cfg, u, d) {
          NbrIsOther(cfg, u, d);
        }
      }
    } else {
      var before, step := steps[..|steps| - 1], steps[|steps| - 1];
      var s := After(cfg, before);
      AlwaysDirect(cfg, cost, before);
      AlwaysSound(cfg, before);
      forall u, d | u in cfg ensures Direct(cfg, cost, u, d, At(Next(cfg, s, step), u, d)) {
        TableStaysDirect(cfg, cost, s, step, u, d);
      }
      forall i, d | 0 <= i < |Next(cfg, s, step).wire|
        ensures var p := Next(cfg, s, step).wire[i]; DirectInPacket(cfg, cost, p.from, d, Get(p.routes, d))
      {
        WireStaysDirect(cfg, cost, s, step, i, d);
      }
    }
  }

  lemma DirectHasNoLoops(cfg: Config, cost: nat, s: State)
    requires AllDirect(cfg, cost, s) && s.tables.Keys == cfg.Keys
    ensures NoLoops(s)
  {
    forall d, w | w != [] && Forwards(s, d, w) && d !in w[..|w| - 1] ensures Simple(w) {
      if |w| > 1 {
        assert At(s, w[0], d).Some? && w[..|w| - 1][0] == w[0] && w[0 + 1] == At(s, w[0], d).value.nextHop;
        assert Direct(cfg, cost, w[0], d, At(s, w[0], d));
      }
    }
  }

  /** Circles alone are not enough: where all routers are neighbours over equal links of INFINITY or more,
      no run forms a loop. */
  lemma FarMeshesHaveNoLoops(cfg: Config, cost: nat, steps: seq<Step>)
    requires FarMesh(cfg, cost)
    ensures LoopFreeAfter(cfg, steps)
  {
    AlwaysDirect(cfg, cost, steps);
    AlwaysSound(cfg, steps);
    DirectHasNoLoops(cfg, cost, After(cfg, steps));
  }
}
