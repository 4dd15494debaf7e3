/** How large costs can become. The source adds costs as 32-bit unsigned ints and does not cap newly
    installed routes. A cost is handed on along a path of routers that hear of the destination for the
    first time; the costs of these paths bound everything in every run, and each is reached by a run. */
module Bounds {
  import opened Protocol
  import opened TableSpec
  import opened Wire
  import opened Graph
  import opened Network
  import opened Soundness
  import opened FifoRuns

  /** A path without repetitions on which only the last but one router is a neighbour of the last: the
      others can hear of it from their successor first. */
  ghost predicate InstallPath(cfg: Config, w: seq<nat>) {
    && IsWalk(cfg, w) && Simple(w) && |w| >= 2
    && forall i :: 0 <= i < |w| - 2 ==> !Nbr(cfg, w[i], w[|w| - 1])
  }

  /** The cost handed on along w when the last link counts for at least base. */
  ghost function Peak(cfg: Config, w: seq<nat>, base: nat): (c: nat)
    requires IsWalk(cfg, w) && |w| >= 2
    ensures c >= base
  {
    var link := LinkCost(cfg, w[0], w[1]);
    if |w| > 2 then link + Peak(cfg, w[1..], base) else if link < base then base else link
  }

  /** An install path from u to d, among routers that know d, explains the cost. */
  ghost predicate Explains(cfg: Config, s: State, u: nat, d: nat, cost: nat, base: nat, w: seq<nat>) {
    && InstallPath(cfg, w) && w[0] == u && w[|w| - 1] == d
    && (forall x :: x in w ==> At(s, x, d).Some?)
    && cost <= Peak(cfg, w, base)
  }

  ghost predicate Bounded(cfg: Config, s: State, u: nat, d: nat, known: Option<Route>, base: nat) {
    match known
    case None => true
    case Some(r) => (u == d && r.cost == 0) || exists w :: Explains(cfg, s, u, d, r.cost, base, w)
  }

  ghost predicate PacketBounded(cfg: Config, s: State, p: Packet, d: nat, base: nat) {
    Bounded(cfg, s, p.from, d, Get(p.routes, d), base)
  }

  ghost predicate KnowsNbrs(cfg: Config, s: State) {
    forall u, v :: Nbr(cfg, u, v) ==> At(s, u, v).Some?
  }

  ghost predicate CostsBounded(cfg: Config, s: State, base: nat) {
    && (forall u, d :: u in cfg ==> Bounded(cfg, s, u, d, At(s, u, d), base))
    && (forall i, d :: 0 <= i < |s.wire| ==> PacketBounded(cfg, s, s.wire[i], d, base))
    && KnowsNbrs(cfg, s)
  }

  // ---------- One step ----------

  /** No destination is forgotten. */
  ghost predicate Remembers(s: State, s': State) {
    forall u, d :: At(s, u, d).Some? ==> At(s', u, d).Some?
  }

  lemma ExtendsKeepsGet(t: seq<Route>, t': seq<Route>, d: nat)
    requires Extends(t, t') && Get(t, d).Some?
    ensures Get(t', d).Some?
  {
  }

  lemma StepRemembers(cfg: Config, s: State, step: Step)
    ensures Remembers(s, Next(cfg, s, step))
  {
    forall u, d | At(s, u, d).Some? ensures At(Next(cfg, s, step), u, d).Some? {
      StepStable(cfg, s, step, u);
      ExtendsKeepsGet(Table(s, u), Table(Next(cfg, s, step), u), d);
    }
  }

  lemma StillBounded(cfg: Config, s: State, s': State, u: nat, d: nat, known: Option<Route>, base: nat)
    requires Remembers(s, s') && Bounded(cfg, s, u, d, known, base)
    ensures Bounded(cfg, s', u, d, known, base)
  {
    if known.Some? && !(u == d && known.value.cost == 0) {
      var w :| Explains(cfg, s, u, d, known.value.cost, base, w);
      assert Explains(cfg, s', u, d, known.value.cost, base, w);
    }
  }

  lemma ExplainsLonger(cfg: Config, s: State, s': State, u: nat, v: nat, d: nat, cost: nat, base: nat, w: seq<nat>)
    requires Explains(cfg, s, v, d, cost, base, w) && Remembers(s, s')
    requires Nbr(cfg, u, v) && u in cfg && u !in w && !Nbr(cfg, u, d) && At(s', u, d).Some?
    ensures Explains(cfg, s', u, d, LinkCost(cfg, u, v) + cost, base, [u] + w)
  {
  }

  /** A route is installed only by a router that is no neighbour of the destination: it would have
      known the destination from the start. */
  lemma InstalledBounded(cfg: Config, s: State, s': State, u: nat, v: nat, d: nat, e: Route, base: nat)
    requires Nbr(cfg, u, v) && u in cfg && Remembers(s, s') && !Nbr(cfg, u, d)
    requires Bounded(cfg, s, v, d, Some(e), base)
    requires At(s, u, d).None? && At(s', u, d).Some?
    ensures Bounded(cfg, s', u, d, Some(Installed(e, Hop(v, LinkCost(cfg, u, v), u))), base)
  {
    var w :| Explains(cfg, s, v, d, e.cost, base, w);
    ExplainsLonger(cfg, s, s', u, v, d, e.cost, base, w);
  }

  lemma CheaperBounded(cfg: Config, s: State, u: nat, d: nat, r: Route, r': Route, base: nat)
    requires Bounded(cfg, s, u, d, Some(r), base) && u != d && (r'.cost <= r.cost || r'.cost <= base)
    ensures Bounded(cfg, s, u, d, Some(r'), base)
  {
    var w :| Explains(cfg, s, u, d, r.cost, base, w);
    assert Explains(cfg, s, u, d, r'.cost, base, w);
  }

  lemma HeardCost(cfg: Config, s: State, s': State, p: Packet, d: nat, base: nat)
    requires Nbr(cfg, p.to, p.from) && Distinct(p.routes) && Table(s', p.to) == Received(cfg, s, p)
    requires base >= INFINITY || ReceivedAt(cfg, s, s', p, d)
    ensures match At(s, p.to, d)
            case Some(r) =>
              At(s', p.to, d).Some? && (At(s', p.to, d).value.cost <= r.cost || At(s', p.to, d).value.cost <= base)
            case None =>
              At(s', p.to, d) ==
              (if Get(p.routes, d).Some? then Some(Installed(Get(p.routes, d).value, HopOf(cfg, p))) else None)
  {
    UpdatePointwise(Table(s, p.to), p.routes, HopOf(cfg, p), d);
  }

  /** The receiver's route stays bounded when it may rise to INFINITY at most (base covers that) or
      does not rise at all. */
  lemma ReceivedBounded(cfg: Config, s: State, s': State, p: Packet, d: nat, base: nat)
    requires Nbr(cfg, p.to, p.from) && p.to in cfg && Distinct(p.routes) && p.to != d
    requires Remembers(s, s') && KnowsNbrs(cfg, s)
    requires Table(s', p.to) == Received(cfg, s, p)
    requires Bounded(cfg, s, p.to, d, At(s, p.to, d), base) && PacketBounded(cfg, s, p, d, base)
    requires base >= INFINITY || ReceivedAt(cfg, s, s', p, d)
    ensures Bounded(cfg, s', p.to, d, At(s', p.to, d), base)
  {
    HeardCost(cfg, s, s', p, d, base);
    StillBounded(cfg, s, s', p.to, d, At(s, p.to, d), base);
    if At(s, p.to, d).Some? {
      CheaperBounded(cfg, s', p.to, d, At(s, p.to, d).value, At(s', p.to, d).value, base);
    } else if Get(p.routes, d).Some? {
      assert !Nbr(cfg, p.to, d);
      InstalledBounded(cfg, s, s', p.to, p.from, d, Get(p.routes, d).value, base);
    }
  }

  lemma UninstalledBounded(cfg: Config, s: State, s': State, u: nat, v: nat, d: nat, base: nat)
    requires Remembers(s, s') && Bounded(cfg, s, u, d, At(s, u, d), base) && base >= INFINITY && u != d
    requires Table(s', u) == Uninstall(Table(s, u), v)
    ensures Bounded(cfg, s', u, d, At(s', u, d), base)
  {
    GetUninstall(Table(s, u), v, d);
    StillBounded(cfg, s, s', u, d, At(s, u, d), base);
    if At(s, u, d).Some? {
      CheaperBounded(cfg, s', u, d, At(s, u, d).value, At(s', u, d).value, base);
    }
  }

  /** Packets stay bounded: the wire only gains what a table says or what it already held. */
  lemma WireBounded(cfg: Config, s: State, step: Step, base: nat)
    requires CostsBounded(cfg, s, base)
    ensures var s' := Next(cfg, s, step);
            forall i, d :: 0 <= i < |s'.wire| ==> PacketBounded(cfg, s', s'.wire[i], d, base)
  {
    var s' := Next(cfg, s, step);
    StepRemembers(cfg, s, step);
    forall i, d | 0 <= i < |s'.wire| ensures PacketBounded(cfg, s', s'.wire[i], d, base) {
      var p := s'.wire[i];
      if p in s.wire {
        var k :| 0 <= k < |s.wire| && s.wire[k] == p;
        assert PacketBounded(cfg, s, s.wire[k], d, base);
      } else {
        assert p.routes == Table(s, p.from) && p.from in cfg;
        assert Bounded(cfg, s, p.from, d, At(s, p.from, d), base);
      }
      StillBounded(cfg, s, s', p.from, d, Get(p.routes, d), base);
    }
  }

  lemma KnowsItself(cfg: Config, s: State, u: nat)
    requires Sound(cfg, s) && u in cfg
    ensures At(s, u, u) == Some(Route(u, u, 0))
  {
  }

  lemma DeliverBounded(cfg: Config, s: State, i: nat, base: nat, d: nat)
    requires Sound(cfg, s) && CostsBounded(cfg, s, base) && i < |s.wire| && s.wire[i].to != d
    requires base >= INFINITY || WireOrdered(cfg, s)
    ensures var s', u := Next(cfg, s, Deliver(i)), s.wire[i].to; Bounded(cfg, s', u, d, At(s', u, d), base)
  {
    var p := s.wire[i];
    StepRemembers(cfg, s, Deliver(i));
    assert PacketSound(cfg, s, s.wire[i]);
    assert PacketBounded(cfg, s, s.wire[i], d, base);
    assert Bounded(cfg, s, p.to, d, At(s, p.to, d), base);
    if base < INFINITY {
      DeliverDelivers(cfg, s, i);
    }
    ReceivedBounded(cfg, s, Next(cfg, s, Deliver(i)), p, d, base);
  }

  lemma TableBounded(cfg: Config, s: State, step: Step, base: nat, u: nat, d: nat)
    requires WellFormed(cfg) && Sound(cfg, s) && CostsBounded(cfg, s, base) && u in cfg && u != d
    requires base >= INFINITY || (FifoStep(s, step) && WireOrdered(cfg, s))
    ensures var s' := Next(cfg, s, step); Bounded(cfg, s', u, d, At(s', u, d), base)
  {
    var s' := Next(cfg, s, step);
    StepRemembers(cfg, s, step);
    assert Bounded(cfg, s, u, d, At(s, u, d), base);
    if step.Deliver? && step.index < |s.wire| && s.wire[step.index].to == u {
      DeliverBounded(cfg, s, step.index, base, d);
    } else if step.Timeout? && step.router == u && Nbr(cfg, u, step.nbr) {
      UninstalledBounded(cfg, s, s', u, step.nbr, d, base);
    } else {
      StillBounded(cfg, s, s', u, d, At(s, u, d), base);
    }
  }

  lemma StepBounded(cfg: Config, s: State, step: Step, base: nat)
    requires WellFormed(cfg) && Sound(cfg, s) && CostsBounded(cfg, s, base)
    requires base >= INFINITY || (FifoStep(s, step) && WireOrdered(cfg, s))
    ensures CostsBounded(cfg, Next(cfg, s, step), base)
  {
    var s' := Next(cfg, s, step);
    WireBounded(cfg, s, step, base);
    StepRemembers(cfg, s, step);
    StepSound(cfg, s, step);
    forall u, d | u in cfg ensures Bounded(cfg, s', u, d, At(s', u, d), base) {
      if u == d {
        KnowsItself(cfg, s', u);
      } else {
        TableBounded(cfg, s, step, base, u, d);
      }
    }
  }

  // ---------- The start ----------

  /** What router u knows about d at the start. */
  function KnownAtStart(cfg: Config, u: nat, d: nat): Option<Route> {
    if u == d then Some(Route(d, d, 0))
    else if Nbr(cfg, u, d) then Some(Route(d, d, LinkCost(cfg, u, d))) else None
  }

  lemma InitRowAt(cfg: Config, u: nat, d: nat)
    requires WellFormed(cfg) && u in cfg
    ensures At(Init(cfg), u, d) == KnownAtStart(cfg, u, d)
  {
  }

  lemma DirectLinkExplains(cfg: Config, s: State, u: nat, d: nat, base: nat)
    requires Nbr(cfg, u, d) && u in cfg && d in cfg && u != d && At(s, u, d).Some? && At(s, d, d).Some?
    ensures Explains(cfg, s, u, d, LinkCost(cfg, u, d), base, [u, d])
  {
  }

  lemma InitBoundedAt(cfg: Config, u: nat, d: nat, base: nat)
    requires WellFormed(cfg) && u in cfg
    ensures Bounded(cfg, Init(cfg), u, d, At(Init(cfg), u, d), base)
  {
    InitRowAt(cfg, u, d);
    if u != d && Nbr(cfg, u, d) {
      NbrIsOther(cfg, u, d);
      InitRowAt(cfg, d, d);
      DirectLinkExplains(cfg, Init(cfg), u, d, base);
    }
  }

  lemma InitBounded(cfg: Config, base: nat)
    requires WellFormed(cfg)
    ensures CostsBounded(cfg, Init(cfg), base)
  {
    forall u, d | u in cfg ensures Bounded(cfg, Init(cfg), u, d, At(Init(cfg), u, d), base) {
      InitBoundedAt(cfg, u, d, base);
    }
    forall u, v | Nbr(cfg, u, v) ensures At(Init(cfg), u, v).Some? {
      InitRowAt(cfg, u, v);
    }
  }

  // ---------- Whole runs ----------

  /** The bound of every run. */
  lemma {:induction false} AlwaysBounded(cfg: Config, steps: seq<Step>)
    requires WellFormed(cfg)
    ensures CostsBounded(cfg, After(cfg, steps), INFINITY)
  {
    if steps == [] {
      InitBounded(cfg, INFINITY);
    } else {
      var before := steps[..|steps| - 1];
      AlwaysBounded(cfg, before);
      AlwaysSound(cfg, before);
      StepBounded(cfg, After(cfg, before), steps[|steps| - 1], INFINITY);
    }
  }

  /** Without failures the links of the path are enough. */
  lemma {:induction false} AlwaysTightlyBounded(cfg: Config, steps: seq<Step>)
    requires WellFormed(cfg) && FifoRun(cfg, steps)
    ensures CostsBounded(cfg, After(cfg, steps), 0)
  {
    if steps == [] {
      InitBounded(cfg, 0);
    } else {
      var before := steps[..|steps| - 1];
      AlwaysTightlyBounded(cfg, before);
      AlwaysSound(cfg, before);
      AlwaysOrdered(cfg, before);
      StepBounded(cfg, After(cfg, before), steps[|steps| - 1], 0);
    }
  }

  lemma {:induction false} PeakWithoutBase(cfg: Config, w: seq<nat>)
    requires IsWalk(cfg, w) && |w| >= 2
    ensures Peak(cfg, w, 0) == WalkCost(cfg, w)
  {
    assert Nbr(cfg, w[0], w[0 + 1]);
    CostSplits(cfg, w, 1);
    if |w| > 2 {
      PeakWithoutBase(cfg, w[1..]);
    }
  }

  // ---------- The bound is reached ----------

  /** Router w[j] has heard the cost handed on to it, the routers before it know nothing of the last
      one, and nothing that they sent is on its way. */
  ghost predicate HandedOn(cfg: Config, s: State, w: seq<nat>, j: nat, base: nat)
    requires IsWalk(cfg, w) && j + 2 <= |w|
  {
    var d := w[|w| - 1];
    && IsWalk(cfg, w[j..])
    && At(s, w[j], d).Some? && At(s, w[j], d).value.cost == Peak(cfg, w[j..], base)
    && (forall i :: 0 <= i < j ==> At(s, w[i], d).None?)
    && (forall i, k :: 0 <= i <= j && 0 <= k < |s.wire| ==> s.wire[k].from != w[i])
  }

  /** The run hands the cost on as far as w[j], without failures for base 0. */
  ghost predicate HandsOn(cfg: Config, steps: seq<Step>, w: seq<nat>, j: nat, base: nat) {
    && IsWalk(cfg, w) && j + 2 <= |w|
    && HandedOn(cfg, After(cfg, steps), w, j, base) && (base == 0 ==> FifoRun(cfg, steps))
  }

  /** Only router w[j] knows w's last router, a neighbour, and nothing is in flight. */
  ghost predicate KnownLast(s: State, w: seq<nat>, j: nat, r: Route)
    requires j + 2 == |w|
  {
    && s.wire == [] && At(s, w[j], w[j + 1]) == Some(r)
    && forall i :: 0 <= i < j ==> At(s, w[i], w[j + 1]).None?
  }

  lemma LastIsHandedOn(cfg: Config, s: State, w: seq<nat>, j: nat, base: nat, r: Route)
    requires IsWalk(cfg, w) && j + 2 == |w| && KnownLast(s, w, j, r)
    requires base <= r.cost && LinkCost(cfg, w[j], w[j + 1]) <= r.cost
    requires r.cost == base || r.cost == LinkCost(cfg, w[j], w[j + 1])
    ensures HandedOn(cfg, s, w, j, base)
  {
    assert w[j..] == [w[j], w[j + 1]] && Nbr(cfg, w[j], w[j + 1]);
  }

  lemma FarIsUnknownAtStart(cfg: Config, w: seq<nat>, i: nat)
    requires WellFormed(cfg) && InstallPath(cfg, w) && i < |w| - 2
    ensures At(Init(cfg), w[i], w[|w| - 1]).None?
  {
    InitRowAt(cfg, w[i], w[|w| - 1]);
  }

  lemma LastIsKnown(cfg: Config, s: State, w: seq<nat>, j: nat)
    requires NbrsWellFormed(cfg) && InstallPath(cfg, w) && j + 2 == |w| && s.wire == []
    requires At(s, w[j], w[j + 1]) == KnownAtStart(cfg, w[j], w[j + 1])
    requires forall i :: 0 <= i < j ==> At(s, w[i], w[j + 1]).None?
    ensures KnownLast(s, w, j, Route(w[j + 1], w[j + 1], LinkCost(cfg, w[j], w[j + 1])))
  {
    assert Nbr(cfg, w[j], w[j + 1]);
    NbrIsOther(cfg, w[j], w[j + 1]);
  }

  lemma LastIsKnownAtStart(cfg: Config, w: seq<nat>, j: nat)
    requires WellFormed(cfg) && InstallPath(cfg, w) && j + 2 == |w|
    ensures KnownLast(Init(cfg), w, j, Route(w[j + 1], w[j + 1], LinkCost(cfg, w[j], w[j + 1])))
  {
    InitRowAt(cfg, w[j], w[j + 1]);
    forall i | 0 <= i < j ensures At(Init(cfg), w[i], w[j + 1]).None? {
      FarIsUnknownAtStart(cfg, w, i);
    }
    LastIsKnown(cfg, Init(cfg), w, j);
  }

  lemma LastTimesOut(cfg: Config, s: State, w: seq<nat>, j: nat, r: Route)
    requires WellFormed(cfg) && InstallPath(cfg, w) && j + 2 == |w| && s.tables.Keys == cfg.Keys
    requires KnownLast(s, w, j, r) && r.nextHop == w[j + 1]
    ensures KnownLast(Next(cfg, s, Timeout(w[j], w[j + 1])), w, j, r.(cost := INFINITY))
  {
    assert Nbr(cfg, w[j], w[j + 1]);
    TimeoutChanges(cfg, s, w[j], w[j + 1]);
    GetUninstall(Table(s, w[j]), w[j + 1], w[j + 1]);
  }

  lemma AfterOne(cfg: Config, step: Step)
    ensures After(cfg, [step]) == Next(cfg, Init(cfg), step)
  {
    assert [step][..0] == [];
  }

  lemma HandOnFirst(cfg: Config, w: seq<nat>, j: nat, base: nat) returns (steps: seq<Step>)
    requires WellFormed(cfg) && InstallPath(cfg, w) && (base == 0 || base == INFINITY) && j + 2 == |w|
    ensures HandsOn(cfg, steps, w, j, base)
  {
    var link := Route(w[j + 1], w[j + 1], LinkCost(cfg, w[j], w[j + 1]));
    LastIsKnownAtStart(cfg, w, j);
    if link.cost >= base {
      steps := [];
      LastIsHandedOn(cfg, Init(cfg), w, j, base, link);
    } else {
      steps := [Timeout(w[j], w[j + 1])];
      AfterOne(cfg, steps[0]);
      LastTimesOut(cfg, Init(cfg), w, j, link);
      LastIsHandedOn(cfg, After(cfg, steps), w, j, base, link.(cost := INFINITY));
    }
  }

  /** The packet to neighbour u is the first on its link when router v has sent nothing else. */
  lemma AdvertisedFirst(cfg: Config, s: State, v: nat, u: nat)
    requires WellFormed(cfg) && Nbr(cfg, v, u) && forall k :: 0 <= k < |s.wire| ==> s.wire[k].from != v
    ensures var wire, n := Next(cfg, s, Advertise(v)).wire, |s.wire| + FindNbr(cfg[v], u);
            && n < |wire| && wire[n] == Packet(s.time, v, u, Table(s, v)) && OldestOnLink(wire, n)
            && forall k :: 0 <= k < |wire| ==> wire[k] in s.wire || wire[k].from == v
  {
  }

  lemma DeliveredAt(cfg: Config, s: State, n: nat, d: nat)
    requires n < |s.wire| && Nbr(cfg, s.wire[n].to, s.wire[n].from) && Distinct(s.wire[n].routes)
    ensures var s', p := Next(cfg, s, Deliver(n)), s.wire[n];
            && At(s', p.to, d) == MergeEntry(At(s, p.to, d), Get(p.routes, d), HopOf(cfg, p))
            && (forall x :: x != p.to ==> Table(s', x) == Table(s, x))
            && (forall k :: 0 <= k < |s'.wire| ==> s'.wire[k] == s.wire[if k < n then k else k + 1])
  {
    UpdatePointwise(Table(s, s.wire[n].to), s.wire[n].routes, HopOf(cfg, s.wire[n]), d);
  }

  /** Router u has just heard of d from v; nothing else has changed. */
  ghost predicate Passed(cfg: Config, s: State, s': State, v: nat, u: nat, d: nat) {
    && Nbr(cfg, u, v) && At(s, v, d).Some?
    && (forall x :: x != u ==> Table(s', x) == Table(s, x))
    && (forall k :: 0 <= k < |s'.wire| ==> s'.wire[k] in s.wire || s'.wire[k].from == v)
    && At(s', u, d) == Some(Route(d, v, LinkCost(cfg, u, v) + At(s, v, d).value.cost))
  }

  lemma HeardIsPassed(cfg: Config, s: State, s1: State, s': State, n: nat, v: nat, u: nat, d: nat)
    requires Nbr(cfg, u, v) && At(s, u, d).None? && At(s, v, d).Some?
    requires |s1.wire| == |s'.wire| + 1
    requires forall k :: 0 <= k < |s1.wire| ==> s1.wire[k] in s.wire || s1.wire[k].from == v
    requires forall k :: 0 <= k < |s'.wire| ==> s'.wire[k] == s1.wire[if k < n then k else k + 1]
    requires forall x :: x != u ==> Table(s', x) == Table(s, x)
    requires At(s', u, d) == MergeEntry(At(s, u, d), At(s, v, d), Hop(v, LinkCost(cfg, u, v), u))
    ensures Passed(cfg, s, s', v, u, d)
  {
  }

  lemma AdvertIsHeard(cfg: Config, s: State, s1: State, n: nat, v: nat, u: nat, d: nat)
    requires Nbr(cfg, u, v) && n < |s1.wire| && s1.wire[n] == Packet(s.time, v, u, Table(s, v))
    requires forall x :: Table(s1, x) == Table(s, x)
    requires forall k :: 0 <= k < |s1.wire| ==> s1.wire[k] in s.wire || s1.wire[k].from == v
    requires Distinct(Table(s, v)) && At(s, u, d).None? && At(s, v, d).Some?
    ensures Passed(cfg, s, Next(cfg, s1, Deliver(n)), v, u, d)
  {
    DeliveredAt(cfg, s1, n, d);
    HeardIsPassed(cfg, s, s1, Next(cfg, s1, Deliver(n)), n, v, u, d);
  }

  /** Router v advertises and its neighbour u, which does not know d, gets the packet. */
  lemma PassOn(cfg: Config, s: State, v: nat, u: nat, d: nat) returns (deliver: Step)
    requires WellFormed(cfg) && Distinct(Table(s, v)) && Nbr(cfg, u, v)
    requires forall k :: 0 <= k < |s.wire| ==> s.wire[k].from != v
    requires At(s, u, d).None? && At(s, v, d).Some?
    ensures FifoStep(Next(cfg, s, Advertise(v)), deliver)
    ensures Passed(cfg, s, Next(cfg, Next(cfg, s, Advertise(v)), deliver), v, u, d)
  {
    var s1, n := Next(cfg, s, Advertise(v)), |s.wire| + FindNbr(cfg[v], u);
    AdvertisedFirst(cfg, s, v, u);
    deliver := Deliver(n);
    NbrIsOther(cfg, u, v);
    assert forall x :: Table(s1, x) == Table(s, x);
    AdvertIsHeard(cfg, s, s1, n, v, u, d);
  }

  lemma PassedIsHandedOn(cfg: Config, s: State, s': State, w: seq<nat>, j: nat, base: nat)
    requires InstallPath(cfg, w) && j + 3 <= |w| && HandedOn(cfg, s, w, j + 1, base)
    requires Passed(cfg, s, s', w[j + 1], w[j], w[|w| - 1])
    ensures HandedOn(cfg, s', w, j, base)
  {
  }

  lemma HandOnNext(cfg: Config, s: State, w: seq<nat>, j: nat, base: nat) returns (deliver: Step)
    requires WellFormed(cfg) && Sound(cfg, s) && InstallPath(cfg, w) && j + 3 <= |w|
    requires HandedOn(cfg, s, w, j + 1, base)
    ensures FifoStep(Next(cfg, s, Advertise(w[j + 1])), deliver)
    ensures HandedOn(cfg, Next(cfg, Next(cfg, s, Advertise(w[j + 1])), deliver), w, j, base)
  {
    assert Nbr(cfg, w[j], w[j + 1]);
    assert TableSound(cfg, w[j + 1], Table(s, w[j + 1]));
    deliver := PassOn(cfg, s, w[j + 1], w[j], w[|w| - 1]);
    PassedIsHandedOn(cfg, s, Next(cfg, Next(cfg, s, Advertise(w[j + 1])), deliver), w, j, base);
  }

  lemma AdvertisedAndDelivered(cfg: Config, steps: seq<Step>, v: nat, deliver: Step)
    ensures After(cfg, steps + [Advertise(v)] + [deliver])
            == Next(cfg, Next(cfg, After(cfg, steps), Advertise(v)), deliver)
    ensures FifoRun(cfg, steps) && FifoStep(Next(cfg, After(cfg, steps), Advertise(v)), deliver) ==>
              FifoRun(cfg, steps + [Advertise(v)] + [deliver])
  {
  }

  lemma HandOn(cfg: Config, before: seq<Step>, w: seq<nat>, j: nat, base: nat) returns (steps: seq<Step>)
    requires WellFormed(cfg) && InstallPath(cfg, w) && j + 3 <= |w| && HandsOn(cfg, before, w, j + 1, base)
    ensures HandsOn(cfg, steps, w, j, base)
  {
    AlwaysSound(cfg, before);
    var deliver := HandOnNext(cfg, After(cfg, before), w, j, base);
    steps := before + [Advertise(w[j + 1])] + [deliver];
    AdvertisedAndDelivered(cfg, before, w[j + 1], deliver);
  }

  /** The cost of every install path is reached at its first router. */
  lemma {:induction false} PeakIsReached(cfg: Config, w: seq<nat>, j: nat, base: nat) returns (steps: seq<Step>)
    requires WellFormed(cfg) && InstallPath(cfg, w) && j + 2 <= |w| && (base == 0 || base == INFINITY)
    ensures HandsOn(cfg, steps, w, j, base)
    decreases |w| - j
  {
    if j + 2 == |w| {
      steps := HandOnFirst(cfg, w, j, base);
    } else {
      steps := PeakIsReached(cfg, w, j + 1, base);
      steps := HandOn(cfg, steps, w, j, base);
    }
  }

  /** In some run the cost of w's first router is that of the whole path; without failures only the
      links count. So both bounds are the best possible. */
  lemma BoundsAreReached(cfg: Config, w: seq<nat>) returns (steps: seq<Step>, fifo: seq<Step>)
    requires WellFormed(cfg) && InstallPath(cfg, w)
    ensures var r := At(After(cfg, steps), w[0], w[|w| - 1]);
            r.Some? && r.value.cost == Peak(cfg, w, INFINITY)
    ensures var r := At(After(cfg, fifo), w[0], w[|w| - 1]);
            FifoRun(cfg, fifo) && r.Some? && r.value.cost == WalkCost(cfg, w)
  {
    steps := PeakIsReached(cfg, w, 0, INFINITY);
    fifo := PeakIsReached(cfg, w, 0, 0);
    assert w[0..] == w;
    PeakWithoutBase(cfg, w);
  }

  // ---------- No wrap-around, exactly ----------

  /** Every sum that UpdateRoutes would compute for a row in flight fits into an unsigned int. */
  ghost predicate SumsFit(cfg: Config, s: State) {
    forall i, e :: 0 <= i < |s.wire| && e in s.wire[i].routes && Nbr(cfg, s.wire[i].to, s.wire[i].from) ==>
      LinkCost(cfg, s.wire[i].to, s.wire[i].from) + e.cost < WORD_LIMIT
  }

  ghost predicate SumsFitAfter(cfg: Config, steps: seq<Step>) {
    SumsFit(cfg, After(cfg, steps))
  }

  /** No install path, and one link more, costs too much. */
  ghost predicate LongPathsFit(cfg: Config) {
    forall x, w :: InstallPath(cfg, w) && Nbr(cfg, x, w[0]) ==>
      LinkCost(cfg, x, w[0]) + Peak(cfg, w, INFINITY) < WORD_LIMIT
  }

  lemma PathSumFits(cfg: Config, s: State, x: nat, u: nat, e: Route)
    requires WellFormed(cfg) && LongPathsFit(cfg) && Nbr(cfg, x, u)
    requires Bounded(cfg, s, u, e.dest, Some(e), INFINITY)
    ensures LinkCost(cfg, x, u) + e.cost < WORD_LIMIT
  {
    NbrIsOther(cfg, x, u);
    if u == e.dest && e.cost == 0 {
      var w := [u, x];
      assert InstallPath(cfg, w) && Nbr(cfg, x, w[0]);
    } else {
      var w :| Explains(cfg, s, u, e.dest, e.cost, INFINITY, w);
    }
  }

  lemma SumsAlwaysFit(cfg: Config, steps: seq<Step>)
    requires WellFormed(cfg) && LongPathsFit(cfg)
    ensures SumsFitAfter(cfg, steps)
  {
    var s := After(cfg, steps);
    AlwaysSound(cfg, steps);
    AlwaysBounded(cfg, steps);
    forall i, e | 0 <= i < |s.wire| && e in s.wire[i].routes
      ensures Nbr(cfg, s.wire[i].to, s.wire[i].from)
      ensures LinkCost(cfg, s.wire[i].to, s.wire[i].from) + e.cost < WORD_LIMIT
    {
      assert PacketSound(cfg, s, s.wire[i]);
      assert PacketBounded(cfg, s, s.wire[i], e.dest, INFINITY);
      var k :| 0 <= k < |s.wire[i].routes| && s.wire[i].routes[k] == e;
      GetOfRow(s.wire[i].routes, k);
      PathSumFits(cfg, s, s.wire[i].to, s.wire[i].from, e);
    }
  }

  /** The run that reaches the cost of w, and one advertisement more. */
  lemma LongestSumIsComputed(cfg: Config, x: nat, w: seq<nat>) returns (steps: seq<Step>)
    requires WellFormed(cfg) && InstallPath(cfg, w) && Nbr(cfg, x, w[0])
    ensures SumsFitAfter(cfg, steps) ==> LinkCost(cfg, x, w[0]) + Peak(cfg, w, INFINITY) < WORD_LIMIT
  {
    var before, _ := BoundsAreReached(cfg, w);
    var s, u, d := After(cfg, before), w[0], w[|w| - 1];
    steps := before + [Advertise(u)];
    assert steps[..|before|] == before;
    NbrIsOther(cfg, x, u);
    var n := |s.wire| + FindNbr(cfg[u], x);
    assert Nbr(cfg, u, x);
    assert After(cfg, steps).wire[n] == Packet(s.time, u, x, Table(s, u));
    assert Table(s, u)[IndexOf(Table(s, u), d)] in After(cfg, steps).wire[n].routes;
  }

  /** In no run a sum wraps around, exactly when no install path and one link more reach 2^32. */
  lemma NoSumWrapsAround(cfg: Config)
    requires WellFormed(cfg)
    ensures (forall steps :: SumsFitAfter(cfg, steps)) <==> LongPathsFit(cfg)
  {
    if LongPathsFit(cfg) {
      forall steps ensures SumsFitAfter(cfg, steps) {
        SumsAlwaysFit(cfg, steps);
      }
    }
    if forall steps :: SumsFitAfter(cfg, steps) {
      forall x, w | InstallPath(cfg, w) && Nbr(cfg, x, w[0])
        ensures LinkCost(cfg, x, w[0]) + Peak(cfg, w, INFINITY) < WORD_LIMIT
      {
        var steps := LongestSumIsComputed(cfg, x, w);
        assert SumsFitAfter(cfg, steps);
      }
    }
  }

  /** Every row can be written into a packet: the precondition of RoutingTable.ConvertTableToPkt. */
  ghost predicate RowsFitAfter(cfg: Config, steps: seq<Step>) {
    forall u, r :: u in cfg && r in Table(After(cfg, steps), u) ==> FitsWords(r)
  }

  ghost predicate PathsFit(cfg: Config) {
    && (forall x :: x in cfg ==> x < WORD_LIMIT)
    && (forall w :: InstallPath(cfg, w) ==> Peak(cfg, w, INFINITY) < WORD_LIMIT)
  }

  lemma RowFits(cfg: Config, s: State, u: nat, r: Route)
    requires WellFormed(cfg) && PathsFit(cfg) && u in cfg && RowSound(cfg, u, r)
    requires Bounded(cfg, s, u, r.dest, Some(r), INFINITY)
    ensures FitsWords(r)
  {
  }

  lemma RowsAlwaysFit(cfg: Config, steps: seq<Step>)
    requires WellFormed(cfg) && PathsFit(cfg)
    ensures RowsFitAfter(cfg, steps)
  {
    var s := After(cfg, steps);
    AlwaysSound(cfg, steps);
    AlwaysBounded(cfg, steps);
    forall u, r | u in cfg && r in Table(s, u) ensures FitsWords(r) {
      assert TableSound(cfg, u, Table(s, u));
      var k :| 0 <= k < |Table(s, u)| && Table(s, u)[k] == r;
      GetOfRow(Table(s, u), k);
      assert Bounded(cfg, s, u, r.dest, At(s, u, r.dest), INFINITY);
      RowFits(cfg, s, u, r);
    }
  }

  lemma LargestCostIsReached(cfg: Config, w: seq<nat>) returns (steps: seq<Step>)
    requires WellFormed(cfg) && InstallPath(cfg, w)
    ensures RowsFitAfter(cfg, steps) ==> Peak(cfg, w, INFINITY) < WORD_LIMIT
  {
    var run, _ := BoundsAreReached(cfg, w);
    steps := run;
    var t := Table(After(cfg, steps), w[0]);
    var r := t[IndexOf(t, w[|w| - 1])];
    assert r in t && w[0] in cfg;
    assert RowsFitAfter(cfg, steps) ==> FitsWords(r);
  }

  /** In every run every row fits into a packet, exactly when all ids and the costs of all install paths
      are below 2^32. */
  lemma RowsFitWords(cfg: Config)
    requires WellFormed(cfg)
    ensures (forall steps :: RowsFitAfter(cfg, steps)) <==> PathsFit(cfg)
  {
    if PathsFit(cfg) {
      forall steps ensures RowsFitAfter(cfg, steps) {
        RowsAlwaysFit(cfg, steps);
      }
    }
    if forall steps :: RowsFitAfter(cfg, steps) {
      forall x | x in cfg ensures x < WORD_LIMIT {
        var t := Table(After(cfg, []), x);
        InitRowAt(cfg, x, x);
        assert RowsFitAfter(cfg, []) && t[IndexOf(t, x)] in t && FitsWords(t[IndexOf(t, x)]);
      }
      forall w | InstallPath(cfg, w) ensures Peak(cfg, w, INFINITY) < WORD_LIMIT {
        var steps := LargestCostIsReached(cfg, w);
        assert RowsFitAfter(cfg, steps);
      }
    }
  }

  // ---------- A bound on links that is enough ----------

  ghost predicate LinksAtMost(cfg: Config, limit: nat) {
    forall u, v :: Nbr(cfg, u, v) ==> LinkCost(cfg, u, v) <= limit
  }

  lemma {:induction false} PeakAtMost(cfg: Config, w: seq<nat>, limit: nat)
    requires IsWalk(cfg, w) && |w| >= 2 && LinksAtMost(cfg, limit)
    ensures Peak(cfg, w, INFINITY) <= INFINITY + (|w| - 1) * limit
  {
    assert Nbr(cfg, w[0], w[0 + 1]);
    if |w| > 2 {
      CostSplits(cfg, w, 1);
      PeakAtMost(cfg, w[1..], limit);
      assert (|w| - 1) * limit == (|w| - 2) * limit + limit;
    }
  }

  lemma TimesKeepsOrder(a: nat, b: nat, c: nat)
    requires a <= b
    ensures a * c <= b * c
  {
  }

  lemma PathAtMost(cfg: Config, w: seq<nat>, limit: nat)
    requires WellFormed(cfg) && InstallPath(cfg, w) && LinksAtMost(cfg, limit)
    ensures Peak(cfg, w, INFINITY) <= INFINITY + (MAX_ROUTERS - 1) * limit
  {
    SimpleWalkIsShort(cfg, w);
    PeakAtMost(cfg, w, limit);
    TimesKeepsOrder(|w| - 1, MAX_ROUTERS - 1, limit);
  }

  /** Link costs up to 429496629 are small enough for both. */
  lemma SmallLinksFit(cfg: Config)
    requires WellFormed(cfg) && LinksAtMost(cfg, (WORD_LIMIT - 1 - INFINITY) / MAX_ROUTERS)
    ensures LongPathsFit(cfg)
    ensures (forall x :: x in cfg ==> x < WORD_LIMIT) ==> PathsFit(cfg)
  {
    var limit := (WORD_LIMIT - 1 - INFINITY) / MAX_ROUTERS;
    forall w | InstallPath(cfg, w) ensures Peak(cfg, w, INFINITY) <= INFINITY + (MAX_ROUTERS - 1) * limit {
      PathAtMost(cfg, w, limit);
    }
  }
}
