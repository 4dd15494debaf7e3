/** Constants and packet contents of the distance-vector router (lab5/ni.h). */
module Protocol {

  const MAX_ROUTERS := 10
  const INFINITY := 999
  const UPDATE_INTERVAL := 1
  const FAILURE_DETECTION := UPDATE_INTERVAL * 3

  datatype Option<+T> = None | Some(value: T)

  type Byte = b: int | 0 <= b < 256

  /** One row of a routing table or of an advertisement (struct route_entry). */
  datatype Route = Route(dest: nat, nextHop: nat, cost: nat)

  /** A route update as the receiver reads it: the rows are the first no_routes slots. */
  datatype RtUpdate = RtUpdate(sender: nat, dest: nat, routes: seq<Route>)

  datatype NbrCost = NbrCost(nbr: nat, cost: nat)

  /** The answer of the network initializer. The array always has MAX_ROUTERS slots;
      only the first noNbr of them describe neighbours. */
  datatype InitResponse = InitResponse(noNbr: nat, nbrCost: seq<NbrCost>) {

    /** The bounds within which InitRoutingTbl stays inside both of its arrays. */
    predicate FitsArrays() {
      |nbrCost| == MAX_ROUTERS && noNbr + 2 <= MAX_ROUTERS
    }

    /** The slot after the last neighbour, which the initialisation copies as well. */
    function SpareSlot(): NbrCost
      requires noNbr < |nbrCost|
    {
      nbrCost[noNbr]
    }
  }

  function FindNbrFrom(resp: InitResponse, v: nat, from: nat): (i: nat)
    requires from <= resp.noNbr <= |resp.nbrCost|
    ensures from <= i <= resp.noNbr
    ensures i < resp.noNbr ==> resp.nbrCost[i].nbr == v
    ensures forall k :: from <= k < i ==> resp.nbrCost[k].nbr != v
    decreases resp.noNbr - from
  {
    if from == resp.noNbr || resp.nbrCost[from].nbr == v then from
    else FindNbrFrom(resp, v, from + 1)
  }

  /** Position of neighbour v in the response, or noNbr when v is not a neighbour. */
  function FindNbr(resp: InitResponse, v: nat): (i: nat)
    requires resp.noNbr <= |resp.nbrCost|
    ensures i <= resp.noNbr
    ensures i < resp.noNbr ==> resp.nbrCost[i].nbr == v
    ensures forall k :: 0 <= k < i ==> resp.nbrCost[k].nbr != v
  {
    FindNbrFrom(resp, v, 0)
  }

  /** A cost as far as the protocol distinguishes it: everything from INFINITY up is "unreachable". */
  function Sat(cost: nat): nat {
    if cost < INFINITY then cost else INFINITY
  }
}
