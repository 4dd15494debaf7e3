/** The network of routers as a transition system. The wire holds every packet in flight, in the
    order of sending; a run is any list of steps. */
module Network {
  import opened Protocol
  import opened TableSpec
  import opened Graph

  /** A route update on its way. Packets are read exactly as they were written (Wire.RoundTrip), so
      their rows are kept as numbers. The stamp is the number of the step that sent the packet; no
      step looks at it. */
  datatype Packet = Packet(stamp: nat, from: nat, to: nat, routes: seq<Route>)

  datatype State = State(time: nat, tables: map<nat, seq<Route>>, wire: seq<Packet>)

  datatype Step =
    | Advertise(router: nat)          // the update timer of a router fires
    | Deliver(index: nat)             // a packet arrives, not necessarily the oldest
    | Lose(index: nat)
    | Duplicate(index: nat)
    | Timeout(router: nat, nbr: nat)  // a router declares a neighbour dead, rightly or not

  function Table(s: State, u: nat): seq<Route> {
    if u in s.tables then s.tables[u] else []
  }

  function Init(cfg: Config): State {
    State(0, map u | u in cfg && cfg[u].FitsArrays() :: InitRows(cfg[u]), [])
  }

  /** One packet with the whole table for each neighbour. */
  function Adverts(cfg: Config, s: State, u: nat): (ps: seq<Packet>)
    requires u in cfg && cfg[u].FitsArrays()
    ensures |ps| == cfg[u].noNbr
    ensures forall i :: 0 <= i < |ps| ==> ps[i] == Packet(s.time, u, cfg[u].nbrCost[i].nbr, Table(s, u))
  {
    seq(cfg[u].noNbr, i requires 0 <= i < cfg[u].noNbr =>
      Packet(s.time, u, cfg[u].nbrCost[i].nbr, Table(s, u)))
  }

  function HopOf(cfg: Config, p: Packet): Hop
    requires Nbr(cfg, p.to, p.from)
  {
    Hop(p.from, LinkCost(cfg, p.to, p.from), p.to)
  }

  function Received(cfg: Config, s: State, p: Packet): seq<Route>
    requires Nbr(cfg, p.to, p.from)
  {
    UpdateTable(Table(s, p.to), p.routes, HopOf(cfg, p))
  }

  function Without<T>(wire: seq<T>, i: nat): (rest: seq<T>)
    requires i < |wire|
    ensures |rest| == |wire| - 1
    ensures forall k :: 0 <= k < |rest| ==> rest[k] == wire[if k < i then k else k + 1]
  {
    wire[..i] + wire[i + 1..]
  }

  /** Steps that are not possible in a state only let time pass. */
  function Next(cfg: Config, s: State, step: Step): State {
    var now := s.(time := s.time + 1);
    match step
    case Advertise(u) =>
      if u in cfg && cfg[u].FitsArrays() then now.(wire := s.wire + Adverts(cfg, s, u)) else now
    case Deliver(i) =>
      if i < |s.wire| && Nbr(cfg, s.wire[i].to, s.wire[i].from) then
        now.(tables := s.tables[s.wire[i].to := Received(cfg, s, s.wire[i])], wire := Without(s.wire, i))
      else now
    case Lose(i) =>
      if i < |s.wire| then now.(wire := Without(s.wire, i)) else now
    case Duplicate(i) =>
      if i < |s.wire| then now.(wire := s.wire + [s.wire[i]]) else now
    case Timeout(u, v) =>
      if u in s.tables && Nbr(cfg, u, v) then now.(tables := s.tables[u := Uninstall(s.tables[u], v)]) else now
  }

  /** The state after a run. */
  function After(cfg: Config, steps: seq<Step>): (s: State)
    ensures s.time == |steps|
  {
    if steps == [] then Init(cfg)
    else Next(cfg, After(cfg, steps[..|steps| - 1]), steps[|steps| - 1])
  }
}
