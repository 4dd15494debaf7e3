/** What holds in every run, under any loss, duplication, reordering and any timeouts. */
module Soundness {
  import opened Protocol
  import opened TableSpec
  import opened TableLaws
  import opened Graph
  import opened Network

  /** w is a walk that row r of router u stands for: it starts over the next hop, ends at the
      destination, and has exactly the cost of the row unless the row says "unreachable". */
  ghost predicate Supports(cfg: Config, u: nat, r: Route, w: seq<nat>) {
    && Walk(cfg, u, r.dest, w)
    && r.nextHop == (if |w| == 1 then u else w[1])
    && (r.cost < INFINITY ==> WalkCost(cfg, w) == r.cost)
  }

  ghost predicate RowSound(cfg: Config, u: nat, r: Route) {
    exists w :: Supports(cfg, u, r, w)
  }

  ghost predicate RowsSound(cfg: Config, u: nat, t: seq<Route>) {
    forall r :: r in t ==> RowSound(cfg, u, r)
  }

  ghost predicate TableSound(cfg: Config, u: nat, t: seq<Route>) {
    && Distinct(t)
    && Get(t, u) == Some(Route(u, u, 0))
    && RowsSound(cfg, u, t)
  }

  ghost predicate PacketSound(cfg: Config, s: State, p: Packet) {
    Nbr(cfg, p.to, p.from) && Nbr(cfg, p.from, p.to) && p.stamp < s.time && TableSound(cfg, p.from, p.routes)
  }

  ghost predicate Sound(cfg: Config, s: State) {
    && s.tables.Keys == cfg.Keys
    && (forall u {:trigger Table(s, u)} :: u in cfg ==> TableSound(cfg, u, Table(s, u)))
    && (forall i :: 0 <= i < |s.wire| ==> PacketSound(cfg, s, s.wire[i]))
  }

  lemma InitialRowsSound(cfg: Config, u: nat)
    requires NbrsWellFormed(cfg) && u in cfg && RowSound(cfg, u, NbrRoute(cfg[u].SpareSlot()))
    ensures RowsSound(cfg, u, InitRows(cfg[u]))
  {
    var t := InitRows(cfg[u]);
    forall r | r in t ensures RowSound(cfg, u, r) {
      var i :| 0 <= i < |t| && t[i] == r;
      if i < cfg[u].noNbr {
        NbrAt(cfg, u, i);
        Prepend(cfg, u, [r.dest]);
        assert Supports(cfg, u, r, [u] + [r.dest]);
      }
    }
  }

  lemma InitialTableSound(cfg: Config, u: nat)
    requires WellFormed(cfg) && u in cfg
    ensures TableSound(cfg, u, InitRows(cfg[u]))
  {
    var resp := cfg[u];
    assert NbrsOfRouter(cfg, u);
    var t := InitRows(resp);
    forall i, j | 0 <= i < j < |t| ensures t[i].dest != t[j].dest {
      assert j == resp.noNbr ==> t[j] == Route(u, u, 0);
    }
    assert t[resp.noNbr] == Route(u, u, 0);
    GetOfRow(t, resp.noNbr);
    assert Supports(cfg, u, NbrRoute(resp.SpareSlot()), [u]);
    InitialRowsSound(cfg, u);
  }

  lemma HeardRowSound(cfg: Config, u: nat, v: nat, e: Route, r: Route)
    requires Nbr(cfg, u, v) && RowSound(cfg, v, e)
    requires r.dest == e.dest && r.nextHop == v
    requires r.cost < INFINITY ==> r.cost == LinkCost(cfg, u, v) + e.cost
    ensures RowSound(cfg, u, r)
  {
    var w :| Supports(cfg, v, e, w);
    Prepend(cfg, u, w);
    assert Supports(cfg, u, r, [u] + w);
  }

  lemma ReceivedRowsSound(cfg: Config, t: seq<Route>, es: seq<Route>, u: nat, v: nat)
    requires Nbr(cfg, u, v) && RowsSound(cfg, u, t) && RowsSound(cfg, v, es)
    ensures RowsSound(cfg, u, UpdateTable(t, es, Hop(v, LinkCost(cfg, u, v), u)))
  {
    var h := Hop(v, LinkCost(cfg, u, v), u);
    forall r, e | RowSound(cfg, u, r) && RowSound(cfg, v, e) && r.dest == e.dest
      ensures RowSound(cfg, u, Merged(r, e, h))
    {
      if Merged(r, e, h) != r || r.nextHop == v {
        HeardRowSound(cfg, u, v, e, Merged(r, e, h));
      }
    }
    forall e | RowSound(cfg, v, e) ensures RowSound(cfg, u, Installed(e, h)) {
      HeardRowSound(cfg, u, v, e, Installed(e, h));
    }
    UpdateKeepsRows(t, es, h, r => RowSound(cfg, u, r), e => RowSound(cfg, v, e));
  }

  lemma ReceivedTableSound(cfg: Config, t: seq<Route>, es: seq<Route>, u: nat, v: nat)
    requires NbrsWellFormed(cfg) && Nbr(cfg, u, v) && TableSound(cfg, u, t) && TableSound(cfg, v, es)
    ensures TableSound(cfg, u, UpdateTable(t, es, Hop(v, LinkCost(cfg, u, v), u)))
  {
    var h := Hop(v, LinkCost(cfg, u, v), u);
    NbrIsOther(cfg, u, v);
    UpdateExtends(t, es, h);
    UpdateKeepsSelfRoute(t, es, h);
    ReceivedRowsSound(cfg, t, es, u, v);
  }

  lemma UninstalledRowsSound(cfg: Config, t: seq<Route>, u: nat, dead: nat)
    requires RowsSound(cfg, u, t)
    ensures RowsSound(cfg, u, Uninstall(t, dead))
  {
    var t' := Uninstall(t, dead);
    forall r | r in t' ensures RowSound(cfg, u, r) {
      var i :| 0 <= i < |t| && t'[i] == r;
      assert t[i] in t;
      var w :| Supports(cfg, u, t[i], w);
      assert Supports(cfg, u, r, w);
    }
  }

  lemma UninstalledTableSound(cfg: Config, t: seq<Route>, u: nat, dead: nat)
    requires TableSound(cfg, u, t) && dead != u
    ensures TableSound(cfg, u, Uninstall(t, dead))
  {
    GetUninstall(t, dead, u);
    UninstalledRowsSound(cfg, t, u, dead);
  }

  lemma AdvertiseSound(cfg: Config, s: State, u: nat)
    requires WellFormed(cfg) && Sound(cfg, s) && u in cfg && cfg[u].FitsArrays()
    ensures Sound(cfg, Next(cfg, s, Advertise(u)))
  {
    var s' := Next(cfg, s, Advertise(u));
    forall x | x in cfg ensures TableSound(cfg, x, Table(s', x)) {
      assert Table(s', x) == Table(s, x);
    }
    forall i | 0 <= i < |s'.wire| ensures PacketSound(cfg, s', s'.wire[i]) {
      if i < |s.wire| {
        assert PacketSound(cfg, s, s.wire[i]);
      } else {
        NbrAt(cfg, u, i - |s.wire|);
      }
    }
  }

  /** Replacing the table of one router by a sound one. */
  lemma TableChangeSound(cfg: Config, s: State, s': State, u: nat)
    requires Sound(cfg, s) && u in cfg && s'.tables.Keys == cfg.Keys && s.time <= s'.time
    requires TableSound(cfg, u, Table(s', u))
    requires forall x :: x in cfg && x != u ==> Table(s', x) == Table(s, x)
    requires forall i :: 0 <= i < |s'.wire| ==> s'.wire[i] in s.wire
    ensures Sound(cfg, s')
  {
  }

  lemma DeliverSound(cfg: Config, s: State, i: nat)
    requires WellFormed(cfg) && Sound(cfg, s) && i < |s.wire|
    ensures Sound(cfg, Next(cfg, s, Deliver(i)))
  {
    var p := s.wire[i];
    assert PacketSound(cfg, s, s.wire[i]);
    NbrIsOther(cfg, p.to, p.from);
    ReceivedTableSound(cfg, Table(s, p.to), p.routes, p.to, p.from);
    TableChangeSound(cfg, s, Next(cfg, s, Deliver(i)), p.to);
  }

  lemma TimeoutChanges(cfg: Config, s: State, u: nat, v: nat)
    requires u in s.tables && Nbr(cfg, u, v)
    ensures var s' := Next(cfg, s, Timeout(u, v));
            && s'.wire == s.wire && s'.tables.Keys == s.tables.Keys
            && Table(s', u) == Uninstall(Table(s, u), v)
            && forall x :: x != u ==> Table(s', x) == Table(s, x)
  {
  }

  lemma TimeoutSound(cfg: Config, s: State, u: nat, v: nat)
    requires WellFormed(cfg) && Sound(cfg, s) && Nbr(cfg, u, v)
    ensures Sound(cfg, Next(cfg, s, Timeout(u, v)))
  {
    NbrIsOther(cfg, u, v);
    TimeoutChanges(cfg, s, u, v);
    UninstalledTableSound(cfg, Table(s, u), u, v);
    TableChangeSound(cfg, s, Next(cfg, s, Timeout(u, v)), u);
  }

  lemma WireChangeSound(cfg: Config, s: State, s': State)
    requires Sound(cfg, s) && s'.tables == s.tables && s.time <= s'.time
    requires forall i :: 0 <= i < |s'.wire| ==> s'.wire[i] in s.wire
    ensures Sound(cfg, s')
  {
    forall x | x in cfg ensures TableSound(cfg, x, Table(s', x)) {
      assert Table(s', x) == Table(s, x);
    }
    forall i | 0 <= i < |s'.wire| ensures PacketSound(cfg, s', s'.wire[i]) {
      var k :| 0 <= k < |s.wire| && s.wire[k] == s'.wire[i];
      assert PacketSound(cfg, s, s.wire[k]);
    }
  }

  lemma StepSound(cfg: Config, s: State, step: Step)
    requires WellFormed(cfg) && Sound(cfg, s)
    ensures Sound(cfg, Next(cfg, s, step))
  {
    match step
    case Advertise(u) =>
      if u in cfg {
        assert NbrsOfRouter(cfg, u);
        AdvertiseSound(cfg, s, u);
      } else {
        WireChangeSound(cfg, s, Next(cfg, s, step));
      }
    case Deliver(i) =>
      if i < |s.wire| {
        DeliverSound(cfg, s, i);
      } else {
        WireChangeSound(cfg, s, Next(cfg, s, step));
      }
    case Timeout(u, v) =>
      if Nbr(cfg, u, v) {
        TimeoutSound(cfg, s, u, v);
      } else {
        WireChangeSound(cfg, s, Next(cfg, s, step));
      }
    case _ => WireChangeSound(cfg, s, Next(cfg, s, step));
  }

  lemma InitSound(cfg: Config)
    requires WellFormed(cfg)
    ensures Sound(cfg, Init(cfg))
  {
    forall u | u in cfg ensures u in Init(cfg).tables && TableSound(cfg, u, Table(Init(cfg), u)) {
      assert NbrsOfRouter(cfg, u);
      InitialTableSound(cfg, u);
    }
  }

  /** The invariant of every run. */
  lemma {:induction false} AlwaysSound(cfg: Config, steps: seq<Step>)
    requires WellFormed(cfg)
    ensures Sound(cfg, After(cfg, steps))
  {
    if steps == [] {
      InitSound(cfg);
    } else {
      AlwaysSound(cfg, steps[..|steps| - 1]);
      StepSound(cfg, After(cfg, steps[..|steps| - 1]), steps[|steps| - 1]);
    }
  }

  lemma RowIsHonest(cfg: Config, u: nat, r: Route)
    requires RowSound(cfg, u, r)
    ensures forall c :: IsDistance(cfg, u, r.dest, c) ==> Sat(c) <= Sat(r.cost)
  {
  }

  /** No row ever promises better than the true distance, and a row that promises a finite cost names
      the first hop and the exact cost of an actual walk. */
  lemma CostsAreNeverTooGood(cfg: Config, steps: seq<Step>, u: nat, r: Route)
    requires WellFormed(cfg) && u in cfg && r in Table(After(cfg, steps), u)
    ensures exists w :: Supports(cfg, u, r, w)
    ensures forall c :: IsDistance(cfg, u, r.dest, c) ==> Sat(c) <= Sat(r.cost)
  {
    AlwaysSound(cfg, steps);
    assert TableSound(cfg, u, Table(After(cfg, steps), u));
    RowIsHonest(cfg, u, r);
  }

  /** The same for rows on their way to a neighbour. */
  lemma AdvertsAreNeverTooGood(cfg: Config, steps: seq<Step>, i: nat, r: Route)
    requires WellFormed(cfg) && i < |After(cfg, steps).wire| && r in After(cfg, steps).wire[i].routes
    ensures var u := After(cfg, steps).wire[i].from;
            && (exists w :: Supports(cfg, u, r, w))
            && (forall c :: IsDistance(cfg, u, r.dest, c) ==> Sat(c) <= Sat(r.cost))
  {
    AlwaysSound(cfg, steps);
    var s := After(cfg, steps);
    assert PacketSound(cfg, s, s.wire[i]);
    RowIsHonest(cfg, s.wire[i].from, r);
  }

  // ---------- Capacity ----------

  lemma TableFits(cfg: Config, u: nat, t: seq<Route>)
    requires TableSound(cfg, u, t)
    ensures |t| <= |cfg|
  {
    var dests := seq(|t|, i requires 0 <= i < |t| => t[i].dest);
    forall i | 0 <= i < |dests| ensures dests[i] in cfg.Keys {
      assert t[i] in t;
      var w :| Supports(cfg, u, t[i], w);
      assert w[|w| - 1] in cfg;
    }
    Pigeonhole(dests, cfg.Keys);
  }

  /** Destinations stay pairwise distinct, in tables and packets, and never outnumber the routers. */
  lemma DestinationsAreDistinctAndFit(cfg: Config, steps: seq<Step>)
    requires WellFormed(cfg)
    ensures var s := After(cfg, steps);
            && (forall u :: u in cfg ==> Distinct(Table(s, u)) && |Table(s, u)| <= |cfg|)
            && (forall p :: p in s.wire ==> Distinct(p.routes) && |p.routes| <= |cfg|)
  {
    AlwaysSound(cfg, steps);
    var s := After(cfg, steps);
    forall u | u in cfg ensures Distinct(Table(s, u)) && |Table(s, u)| <= |cfg| {
      TableFits(cfg, u, Table(s, u));
    }
    forall p | p in s.wire ensures Distinct(p.routes) && |p.routes| <= |cfg| {
      var i :| 0 <= i < |s.wire| && s.wire[i] == p;
      assert PacketSound(cfg, s, s.wire[i]);
      TableFits(cfg, p.from, p.routes);
    }
  }

  /** Whenever a packet is delivered, every append of UpdateRoutes is inside the array, also in the
      middle of the packet: the precondition of RoutingTable.UpdateRoutes always holds. */
  lemma AppendsStayInBounds(cfg: Config, steps: seq<Step>, i: nat, k: nat)
    requires WellFormed(cfg)
    requires i < |After(cfg, steps).wire| && k <= |After(cfg, steps).wire[i].routes|
    ensures var s := After(cfg, steps);
            var p := s.wire[i];
            && Nbr(cfg, p.to, p.from)
            && |UpdateTable(Table(s, p.to), p.routes[..k], HopOf(cfg, p))| <= |Received(cfg, s, p)| <= MAX_ROUTERS
  {
    var s := After(cfg, steps);
    AlwaysSound(cfg, steps);
    var p := s.wire[i];
    assert PacketSound(cfg, s, s.wire[i]);
    NbrIsOther(cfg, p.to, p.from);
    ReceivedTableSound(cfg, Table(s, p.to), p.routes, p.to, p.from);
    TableFits(cfg, p.to, Received(cfg, s, p));
    UpdatePrefix(Table(s, p.to), p.routes, HopOf(cfg, p), k);
  }

  // ---------- Stability ----------

  lemma StepStable(cfg: Config, s: State, step: Step, u: nat)
    ensures Extends(Table(s, u), Table(Next(cfg, s, step), u))
  {
    match step {
      case Deliver(i) =>
        if i < |s.wire| && Nbr(cfg, s.wire[i].to, s.wire[i].from) {
          UpdateExtends(Table(s, s.wire[i].to), s.wire[i].routes, HopOf(cfg, s.wire[i]));
        }
      case _ =>
    }
  }

  lemma OwnRouteAlwaysThere(cfg: Config, steps: seq<Step>, u: nat)
    requires WellFormed(cfg) && u in cfg
    ensures Get(Table(After(cfg, steps), u), u) == Some(Route(u, u, 0))
  {
    AlwaysSound(cfg, steps);
    assert TableSound(cfg, u, Table(After(cfg, steps), u));
  }

  /** Over any continuation of a run, rows keep their place and destination, the table never shrinks,
      and the route to oneself stays what it was. */
  lemma {:induction false} TablesAreStable(cfg: Config, steps: seq<Step>, k: nat, u: nat)
    requires WellFormed(cfg) && k <= |steps| && u in cfg
    ensures Extends(Table(After(cfg, steps[..k]), u), Table(After(cfg, steps), u))
    ensures Get(Table(After(cfg, steps), u), u) == Some(Route(u, u, 0))
  {
    OwnRouteAlwaysThere(cfg, steps, u);
    if k == |steps| {
      assert steps[..k] == steps;
    } else {
      var before := steps[..|steps| - 1];
      TablesAreStable(cfg, before, k, u);
      assert before[..k] == steps[..k];
      StepStable(cfg, After(cfg, before), steps[|steps| - 1], u);
    }
  }
}
