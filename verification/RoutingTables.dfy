/** The routing table in memory (lab5/src/routingtable.c): a fixed array of rows and a counter. */
module RoutingTables {
  import opened Protocol
  import opened TableSpec
  import opened Wire

  class RoutingTable {
    const rows: array<Route>
    var numRoutes: nat

    ghost predicate Valid()
      reads this
    {
      rows.Length == MAX_ROUTERS && numRoutes <= MAX_ROUTERS
    }

    /** The visible window. */
    function Rows(): seq<Route>
      requires numRoutes <= rows.Length
      reads this, rows
    {
      rows[..numRoutes]
    }

    constructor ()
      ensures Valid() && fresh(rows) && Rows() == []
    {
      rows := new Route[MAX_ROUTERS](_ => Route(0, 0, 0));
      numRoutes := 0;
    }

    /** As written: the loop runs one slot past the neighbours, so that the self-route lands just
        behind the visible window. With MAX_ROUTERS - 1 neighbours, which a router may have, it is
        written behind the array: this is reported as overrun and left undone. */
    method InitRoutingTbl(resp: InitResponse, myId: nat) returns (overrun: bool)
      requires Valid() && resp.noNbr < MAX_ROUTERS == |resp.nbrCost|
      modifies this`numRoutes, rows
      ensures Valid() && Rows() == InitRows(resp)
      ensures overrun <==> !resp.FitsArrays()
      ensures overrun <==> resp.noNbr == MAX_ROUTERS - 1
      ensures !overrun ==> numRoutes < MAX_ROUTERS && rows[numRoutes] == Route(myId, myId, 0)
    {
      numRoutes := resp.noNbr + 1;
      var i := 0;
      while i < numRoutes
        invariant i <= numRoutes == resp.noNbr + 1
        invariant rows[..i] == InitRows(resp)[..i]
      {
        rows[i] := Route(resp.nbrCost[i].nbr, resp.nbrCost[i].nbr, resp.nbrCost[i].cost);
        i := i + 1;
      }
      overrun := i >= rows.Length;
      if !overrun {
        rows[i] := Route(myId, myId, 0);
      }
    }

    /** The branches for a destination that is already in row j. */
    method MergeRow(j: nat, entry: Route, sender: nat, costToNbr: nat, myId: nat, changed: int) returns (change: int)
      requires Valid() && j < numRoutes
      modifies rows
      ensures Rows() == old(Rows())[j := Merged(old(rows[j]), entry, Hop(sender, costToNbr, myId))]
      ensures change ==
        if old(rows[j]).nextHop == sender && old(rows[j]).cost == INFINITY && costToNbr + entry.cost > INFINITY then 0
        else if rows[j] != old(rows[j]) then 1
        else changed
      ensures rows[j] != old(rows[j]) ==>
                var sum := costToNbr + entry.cost;
                rows[j] == Route(old(rows[j]).dest, sender, if sum < 999 then sum else 999)
    {
      change := changed;
      if rows[j].nextHop == sender {
        if costToNbr + entry.cost != rows[j].cost {
          if rows[j].cost == INFINITY && costToNbr + entry.cost >= INFINITY {
            rows[j] := rows[j].(cost := INFINITY);
            change := 0;
          } else if costToNbr + entry.cost >= INFINITY {
            rows[j] := rows[j].(cost := INFINITY);
            change := 1;
          } else {
            rows[j] := rows[j].(cost := costToNbr + entry.cost);
            change := 1;
          }
        }
      } else if entry.nextHop != myId {
        if costToNbr + entry.cost < rows[j].cost {
          rows[j] := rows[j].(nextHop := sender);
          if rows[j].cost == INFINITY && costToNbr + entry.cost >= INFINITY {
            assert false; // never taken: the sum is below the cost of the row
          } else if costToNbr + entry.cost >= INFINITY {
            rows[j] := rows[j].(cost := INFINITY);
            change := 1;
          } else {
            rows[j] := rows[j].(cost := costToNbr + entry.cost);
            change := 1;
          }
        }
      }
    }

    /** The body of the outer loop: find the destination, then merge or append. */
    method HandleEntry(entry: Route, sender: nat, costToNbr: nat, myId: nat, changed: int) returns (change: int)
      requires Valid()
      requires |ApplyEntry(Rows(), entry, Hop(sender, costToNbr, myId))| <= MAX_ROUTERS
      modifies this`numRoutes, rows
      ensures Valid() && Rows() == ApplyEntry(old(Rows()), entry, Hop(sender, costToNbr, myId))
      ensures change == match EntryEffect(old(Rows()), entry, Hop(sender, costToNbr, myId))
                        case Keep => changed
                        case Raise => 1
                        case Erase => 0
    {
      change := changed;
      var j := 0;
      while j < numRoutes
        invariant 0 <= j <= numRoutes && Valid() && Rows() == old(Rows()) && change == changed
        invariant forall k :: 0 <= k < j ==> rows[k].dest != entry.dest
      {
        if rows[j].dest == entry.dest {
          IndexOfUnique(Rows(), entry.dest, j);
          change := MergeRow(j, entry, sender, costToNbr, myId, change);
          break;
        }
        j := j + 1;
      }
      if j == numRoutes {
        IndexOfUnique(Rows(), entry.dest, j);
        rows[j] := Route(entry.dest, sender, entry.cost + costToNbr);
        numRoutes := numRoutes + 1;
        change := 1;
      }
    }

    /** Receiving an update. The precondition says that the appended rows fit into the array. */
    method UpdateRoutes(recvd: RtUpdate, costToNbr: nat, myId: nat) returns (change: int)
      requires Valid()
      requires |UpdateTable(Rows(), recvd.routes, Hop(recvd.sender, costToNbr, myId))| <= MAX_ROUTERS
      modifies this`numRoutes, rows
      ensures Valid()
      ensures Rows() == UpdateTable(old(Rows()), recvd.routes, Hop(recvd.sender, costToNbr, myId))
      ensures change == if UpdateFlag(old(Rows()), recvd.routes, Hop(recvd.sender, costToNbr, myId)) then 1 else 0
    {
      ghost var h := Hop(recvd.sender, costToNbr, myId);
      ghost var before := Rows();
      change := 0;
      var i := 0;
      while i < |recvd.routes|
        invariant 0 <= i <= |recvd.routes| && Valid()
        invariant Rows() == UpdateTable(before, recvd.routes[..i], h)
        invariant change == if UpdateFlag(before, recvd.routes[..i], h) then 1 else 0
      {
        OneMoreEntry(before, recvd.routes, h, i);
        UpdatePrefix(before, recvd.routes, h, i + 1);
        change := HandleEntry(recvd.routes[i], recvd.sender, costToNbr, myId, change);
        i := i + 1;
      }
      assert recvd.routes[..i] == recvd.routes;
    }

    /** Filling a packet, all but its destination. The rows past the window keep their bytes. */
    method ConvertTableToPkt(pkt: UpdatePacket, h: Host, myId: nat)
      requires Valid() && pkt.Valid() && myId < WORD_LIMIT
      requires forall r :: r in Rows() ==> FitsWords(r)
      modifies pkt`sender, pkt`noRoutes, pkt.route
      ensures pkt.Bytes().Fits(h)
      ensures View(h, pkt.Bytes()) == RtUpdate(myId, Load(h, pkt.dest), Rows())
      ensures forall i :: numRoutes <= i < MAX_ROUTERS ==> pkt.route[i] == old(pkt.route[i])
    {
      pkt.sender := Store(h, myId);
      pkt.noRoutes := Store(h, numRoutes);
      var i := 0;
      while i < numRoutes
        modifies pkt.route
        invariant i <= numRoutes
        invariant forall k :: 0 <= k < i ==> ReadRoute(h, pkt.route[k]) == rows[k]
        invariant forall k :: i <= k < MAX_ROUTERS ==> pkt.route[k] == old(pkt.route[k])
      {
        assert rows[i] in Rows();
        pkt.route[i] := WriteRoute(h, rows[i]);
        i := i + 1;
      }
    }

    method UninstallRoutesOnNbrDeath(deadNbr: nat)
      requires Valid()
      modifies rows
      ensures Rows() == Uninstall(old(Rows()), deadNbr)
      ensures forall k :: 0 <= k < numRoutes && rows[k].nextHop == deadNbr ==> rows[k].cost == 999
    {
      var i := 0;
      while i < numRoutes
        invariant i <= numRoutes
        invariant forall k :: 0 <= k < numRoutes ==>
          rows[k] == if k < i then Uninstall(old(Rows()), deadNbr)[k] else old(rows[k])
      {
        if rows[i].nextHop == deadNbr {
          rows[i] := rows[i].(cost := INFINITY);
        }
        i := i + 1;
      }
    }
  }
}
