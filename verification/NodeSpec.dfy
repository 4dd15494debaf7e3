/** One router with its timers (lab5/src/router.c, main loop), as a value with a step function. */
module NodeSpec {
  import opened Protocol
  import opened TableSpec

  /** The state that the main loop carries from one iteration to the next. For every neighbour there
      is the time at which its failure timer expires and whether it is marked as dead. */
  datatype Node = Node(
    me: nat,
    resp: InitResponse,
    table: seq<Route>,
    deadline: seq<nat>,
    dead: seq<bool>,
    updates: nat)
  {
    predicate WellFormed() {
      resp.FitsArrays() && |deadline| == resp.noNbr && |dead| == resp.noNbr
    }

    function NbrId(i: nat): nat
      requires WellFormed() && i < resp.noNbr
    {
      resp.nbrCost[i].nbr
    }
  }

  /** One iteration of the loop: either a packet was there, or the neighbours get the table and the
      expired timers that select reported are looked at. */
  datatype Event =
    | Packet(update: RtUpdate, now: nat)
    | Idle(ready: seq<bool>, now: nat)

  function Boot(me: nat, resp: InitResponse, now: nat): (n: Node)
    requires resp.FitsArrays()
    ensures n.WellFormed()
  {
    Node(me, resp, InitRows(resp), seq(resp.noNbr, _ => now + FAILURE_DETECTION), seq(resp.noNbr, _ => false), 0)
  }

  predicate IsNbr(n: Node, v: nat)
    requires n.WellFormed()
  {
    FindNbr(n.resp, v) < n.resp.noNbr
  }

  /** For a sender that is not a neighbour, the cost is read from the spare slot. */
  function HopFrom(n: Node, v: nat): Hop
    requires n.WellFormed()
  {
    Hop(v, n.resp.nbrCost[FindNbr(n.resp, v)].cost, n.me)
  }

  /** The update without its effect on the timers. */
  function Learn(n: Node, u: RtUpdate): (n': Node)
    requires n.WellFormed()
    ensures n'.WellFormed() && n'.resp == n.resp && n'.me == n.me
  {
    var h := HopFrom(n, u.sender);
    n.(table := UpdateTable(n.table, u.routes, h),
       updates := n.updates + if UpdateFlag(n.table, u.routes, h) then 1 else 0)
  }

  function Receive(n: Node, u: RtUpdate, now: nat): (n': Node)
    requires n.WellFormed() && IsNbr(n, u.sender)
    ensures n'.WellFormed() && n'.resp == n.resp && n'.me == n.me
  {
    var i := FindNbr(n.resp, u.sender);
    Learn(n, u).(deadline := n.deadline[i := now + FAILURE_DETECTION], dead := n.dead[i := false])
  }

  /** The timer of neighbour i was reported: unless already dead, its routes are uninstalled. */
  function Expire(n: Node, i: nat): (n': Node)
    requires n.WellFormed() && i < n.resp.noNbr
    ensures n'.WellFormed() && n'.resp == n.resp && n'.me == n.me
  {
    n.(table := if n.dead[i] then n.table else Uninstall(n.table, n.NbrId(i)), dead := n.dead[i := true])
  }

  /** The first k timers looked at. */
  function ExpireReady(n: Node, ready: seq<bool>, k: nat): (n': Node)
    requires n.WellFormed() && k <= n.resp.noNbr == |ready|
    ensures n'.WellFormed() && n'.resp == n.resp && n'.me == n.me
  {
    if k == 0 then n
    else
      var m := ExpireReady(n, ready, k - 1);
      if ready[k - 1] then Expire(m, k - 1) else m
  }

  // ---------- Histories ----------

  /** An iteration that can happen: packets come from neighbours, and only expired timers are reported. */
  predicate Possible(n: Node, e: Event)
    requires n.WellFormed()
  {
    match e
    case Packet(u, _) => IsNbr(n, u.sender)
    case Idle(ready, now) =>
      |ready| == n.resp.noNbr && forall i :: 0 <= i < |ready| && ready[i] ==> n.deadline[i] <= now
  }

  function Handle(n: Node, e: Event): (n': Node)
    requires n.WellFormed() && Possible(n, e)
    ensures n'.WellFormed() && n'.resp == n.resp && n'.me == n.me
  {
    match e
    case Packet(u, now) => Receive(n, u, now)
    case Idle(ready, _) => ExpireReady(n, ready, |ready|)
  }

  /** A history of one router since it was started with start as its state, at a clock that does not
      run backwards. */
  predicate History(start: Node, es: seq<Event>)
    requires start.WellFormed()
    decreases |es|, 0
  {
    es == [] ||
    (var before, e := es[..|es| - 1], es[|es| - 1];
     && History(start, before) && Possible(NodeAfter(start, before), e)
     && (before != [] ==> before[|before| - 1].now <= e.now))
  }

  function NodeAfter(start: Node, es: seq<Event>): (n: Node)
    requires start.WellFormed() && History(start, es)
    ensures n.WellFormed() && n.resp == start.resp && n.me == start.me
    decreases |es|, 1
  {
    if es == [] then start else Handle(NodeAfter(start, es[..|es| - 1]), es[|es| - 1])
  }

  ghost predicate DistinctNbrs(resp: InitResponse)
    requires resp.FitsArrays()
  {
    forall i, j :: 0 <= i < j < resp.noNbr ==> resp.nbrCost[i].nbr != resp.nbrCost[j].nbr
  }

  /** Event number k declares neighbour i dead. */
  predicate Declares(start: Node, es: seq<Event>, k: nat, i: nat)
    requires start.WellFormed() && k < |es| && i < start.resp.noNbr && History(start, es[..k])
  {
    es[k].Idle? && i < |es[k].ready| && es[k].ready[i] && !NodeAfter(start, es[..k]).dead[i]
  }

  predicate HearsFrom(e: Event, v: nat) {
    e.Packet? && e.update.sender == v
  }
}
