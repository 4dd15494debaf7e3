/** The router in memory: the main loop of lab5/src/router.c over the routing table, the timers and
    the packet buffers. Its two kinds of iterations are proved against NodeSpec. */
module Routers {
  import opened Protocol
  import opened TableSpec
  import opened Wire
  import opened RoutingTables
  import opened NodeSpec

  class Router {
    const host: Host
    const me: nat
    const response: InitResponse
    const table: RoutingTable
    const deadline: array<nat>
    const timeoutStatus: array<bool>
    var updates: nat

    ghost predicate Valid()
      reads this, table
    {
      && me < WORD_LIMIT && response.FitsArrays() && table.Valid()
      && (forall i :: 0 <= i < response.noNbr ==> response.nbrCost[i].nbr < WORD_LIMIT)
      && deadline.Length == response.noNbr && timeoutStatus.Length == response.noNbr
    }

    ghost function State(): (n: Node)
      requires Valid()
      reads this, table, table.rows, deadline, timeoutStatus
      ensures n.WellFormed()
    {
      Node(me, response, table.Rows(), deadline[..], timeoutStatus[..], updates)
    }

    /** Converts the answer of the network initializer, builds the table and arms all timers. */
    constructor (host: Host, me: nat, answer: InitPacket, now: nat)
      requires me < WORD_LIMIT && answer.Valid()
      requires Load(host, Swap(host, answer.noNbr)) + 2 <= MAX_ROUTERS
      modifies answer, answer.nbrCost
      ensures Valid() && fresh(table) && fresh(table.rows) && fresh(deadline) && fresh(timeoutStatus)
      ensures State() == Boot(me, InitView(host, InitToHost(host, old(answer.Bytes()))), now)
      ensures forall i :: 0 <= i < response.noNbr ==> deadline[i] == now + 3 && !timeoutStatus[i]
    {
      this.host, this.me := host, me;
      updates := 0;
      answer.NtoH(host);
      var resp := InitView(host, answer.Bytes());
      response := resp;
      var t := new RoutingTable();
      var _ := t.InitRoutingTbl(resp, me);
      table := t;
      var n := resp.noNbr;
      deadline := new nat[n](_ => now + FAILURE_DETECTION);
      timeoutStatus := new bool[n](_ => false);
      new;
      assert deadline[..] == Boot(me, resp, now).deadline;
      assert timeoutStatus[..] == Boot(me, resp, now).dead;
    }

    /** An iteration in which a packet has arrived. When the sender is no neighbour, the search ends at
        the spare slot; the timer would then be set behind the arrays of timers, which is reported as
        overrun and left undone. */
    method HandlePacket(pkt: UpdatePacket, now: nat) returns (overrun: bool)
      requires Valid() && pkt.Valid() && ToHost(host, pkt.Bytes()).Fits(host)
      requires var u := View(host, ToHost(host, pkt.Bytes()));
               |UpdateTable(State().table, u.routes, HopFrom(State(), u.sender))| <= MAX_ROUTERS
      modifies this`updates, table`numRoutes, table.rows, deadline, timeoutStatus, pkt, pkt.route
      ensures Valid()
      ensures var u := View(host, ToHost(host, old(pkt.Bytes())));
              && OnWire(old(pkt.Bytes()), u)
              && (overrun <==> !IsNbr(old(State()), u.sender))
              && (overrun || deadline[FindNbr(response, u.sender)] == now + 3)
              && State() == if overrun then Learn(old(State()), u) else Receive(old(State()), u, now)
    {
      pkt.NtoH(host);
      var u := View(host, pkt.Bytes());
      var i := 0;
      while i < response.noNbr
        invariant 0 <= i <= response.noNbr
        invariant forall k :: 0 <= k < i ==> response.nbrCost[k].nbr != u.sender
      {
        if u.sender == response.nbrCost[i].nbr {
          break;
        }
        i := i + 1;
      }
      assert i == FindNbr(response, u.sender);
      var cost := response.nbrCost[i].cost;
      var change := table.UpdateRoutes(u, cost, me);
      if change == 1 {
        updates := updates + 1;
      }
      overrun := i == response.noNbr;
      if !overrun {
        deadline[i] := now + FAILURE_DETECTION;
        timeoutStatus[i] := false;
      }
    }

    /** On whatever host the bytes arrive, they are read as an update from this router for nbr with
        exactly the given rows. */
    ghost predicate IsAdvert(sent: Image, nbr: nat, rows: seq<Route>) {
      forall receiver: Host ::
        ToHost(receiver, sent).Fits(receiver)
        && View(receiver, ToHost(receiver, sent)) == RtUpdate(me, nbr, rows)
    }

    /** Filling, addressing and converting the packet for neighbour i. */
    method FillPacket(pkt: UpdatePacket, i: nat) returns (sent: Image)
      requires Valid() && pkt.Valid() && i < response.noNbr
      requires forall r :: r in table.Rows() ==> FitsWords(r)
      modifies pkt, pkt.route
      ensures IsAdvert(sent, response.nbrCost[i].nbr, table.Rows())
      ensures OnWire(sent, RtUpdate(me, response.nbrCost[i].nbr, table.Rows()))
    {
      table.ConvertTableToPkt(pkt, host, me);
      ghost var rows := View(host, pkt.Bytes()).routes;
      pkt.dest := Store(host, response.nbrCost[i].nbr);
      assert View(host, pkt.Bytes()) == RtUpdate(me, response.nbrCost[i].nbr, rows);
      ghost var filled := pkt.Bytes();
      pkt.HtoN(host);
      sent := pkt.Bytes();
      forall receiver: Host
        ensures ToHost(receiver, sent).Fits(receiver)
                && View(receiver, ToHost(receiver, sent)) == View(host, filled)
      {
        RoundTrip(host, receiver, filled);
      }
    }

    /** An iteration without a packet: every neighbour is sent the table as it was, then the timers
        that select reported are looked at. */
    method HandleTimeout(ready: seq<bool>, pkt: UpdatePacket) returns (sent: seq<Image>)
      requires Valid() && pkt.Valid() && |ready| == response.noNbr
      requires forall r :: r in table.Rows() ==> FitsWords(r)
      modifies table.rows, timeoutStatus, pkt, pkt.route
      ensures Valid() && State() == ExpireReady(old(State()), ready, |ready|)
      ensures |sent| == response.noNbr
      ensures forall i :: 0 <= i < |sent| ==>
                IsAdvert(sent[i], response.nbrCost[i].nbr, old(table.Rows()))
                && OnWire(sent[i], RtUpdate(me, response.nbrCost[i].nbr, old(table.Rows())))
    {
      sent := [];
      var i := 0;
      while i < response.noNbr
        modifies pkt, pkt.route
        invariant 0 <= i <= response.noNbr && |sent| == i
        invariant forall k :: 0 <= k < i ==>
          IsAdvert(sent[k], response.nbrCost[k].nbr, old(table.Rows()))
          && OnWire(sent[k], RtUpdate(me, response.nbrCost[k].nbr, old(table.Rows())))
      {
        var bytes := FillPacket(pkt, i);
        sent := sent + [bytes];
        i := i + 1;
      }
      i := 0;
      while i < response.noNbr
        modifies table.rows, timeoutStatus
        invariant 0 <= i <= response.noNbr
        invariant State() == ExpireReady(old(State()), ready, i)
      {
        if ready[i] {
          if !timeoutStatus[i] {
            table.UninstallRoutesOnNbrDeath(response.nbrCost[i].nbr);
          }
          timeoutStatus[i] := true;
        }
        i := i + 1;
      }
    }
  }
}
