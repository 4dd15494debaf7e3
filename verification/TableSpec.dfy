/** What one call of UpdateRoutes does to a routing table, as functions on sequences of rows,
    and the laws of these functions. The class in RoutingTables.dfy is proved against them. */
module TableSpec {
  import opened Protocol

  /** Where an update comes from and who handles it: sender, cost of the link to it, own id. */
  datatype Hop = Hop(sender: nat, cost: nat, me: nat)

  /** Position of the first row for destination d, or |t|. */
  function IndexOf(t: seq<Route>, d: nat): (j: nat)
    ensures j <= |t|
    ensures j < |t| ==> t[j].dest == d
    ensures forall k :: 0 <= k < j ==> t[k].dest != d
  {
    if t == [] then 0
    else if t[0].dest == d then 0
    else
      var k := IndexOf(t[1..], d);
      assert forall i :: 0 < i < k + 1 ==> t[i] == t[1..][i - 1];
      k + 1
  }

  /** The table seen as a partial map from destinations to rows. */
  function Get(t: seq<Route>, d: nat): Option<Route> {
    var j := IndexOf(t, d);
    if j < |t| then Some(t[j]) else None
  }

  ghost predicate Distinct(t: seq<Route>) {
    forall i, j :: 0 <= i < j < |t| ==> t[i].dest != t[j].dest
  }

  // ---------- The update rule ----------

  /** A known row r after an advertised row e: forced update when r already goes through the
      sender, otherwise the shorter route unless the sender itself goes through the receiver. */
  function Merged(r: Route, e: Route, h: Hop): Route {
    var sum := h.cost + e.cost;
    if r.nextHop == h.sender then
      r.(cost := if sum == r.cost then sum else Sat(sum))
    else if e.nextHop != h.me && sum < r.cost then
      Route(r.dest, h.sender, Sat(sum))
    else r
  }

  function Installed(e: Route, h: Hop): Route {
    Route(e.dest, h.sender, h.cost + e.cost)
  }

  function ApplyEntry(t: seq<Route>, e: Route, h: Hop): seq<Route> {
    var j := IndexOf(t, e.dest);
    if j == |t| then t + [Installed(e, h)] else t[j := Merged(t[j], e, h)]
  }

  /** The table after the rows es of one packet, handled in order. */
  function UpdateTable(t: seq<Route>, es: seq<Route>, h: Hop): seq<Route> {
    if es == [] then t
    else ApplyEntry(UpdateTable(t, es[..|es| - 1], h), es[|es| - 1], h)
  }

  // ---------- The change flag ----------

  /** What one row of a packet does to the running change variable. */
  datatype Effect = Keep | Raise | Erase

  function EntryEffect(t: seq<Route>, e: Route, h: Hop): Effect {
    match Get(t, e.dest)
    case None => Raise
    case Some(r) =>
      if r.nextHop == h.sender && r.cost == INFINITY && h.cost + e.cost > INFINITY then Erase
      else if Merged(r, e, h) != r then Raise
      else Keep
  }

  function UpdateFlag(t: seq<Route>, es: seq<Route>, h: Hop): bool {
    if es == [] then false
    else
      var before := es[..|es| - 1];
      match EntryEffect(UpdateTable(t, before, h), es[|es| - 1], h)
      case Keep => UpdateFlag(t, before, h)
      case Raise => true
      case Erase => false
  }

  lemma OneMoreEntry(t: seq<Route>, es: seq<Route>, h: Hop, i: nat)
    requires i < |es|
    ensures UpdateTable(t, es[..i + 1], h) == ApplyEntry(UpdateTable(t, es[..i], h), es[i], h)
    ensures UpdateFlag(t, es[..i + 1], h) ==
            match EntryEffect(UpdateTable(t, es[..i], h), es[i], h)
            case Keep => UpdateFlag(t, es[..i], h)
            case Raise => true
            case Erase => false
  {
    assert es[..i + 1][..i] == es[..i];
  }

  // ---------- Uninstalling and initialising ----------

  /** All routes through a dead neighbour cost INFINITY. */
  function Uninstall(t: seq<Route>, dead: nat): (u: seq<Route>)
    ensures |u| == |t|
    ensures forall i :: 0 <= i < |t| ==>
      u[i] == if t[i].nextHop == dead then t[i].(cost := INFINITY) else t[i]
  {
    seq(|t|, i requires 0 <= i < |t| => if t[i].nextHop == dead then t[i].(cost := INFINITY) else t[i])
  }

  function NbrRoute(n: NbrCost): Route {
    Route(n.nbr, n.nbr, n.cost)
  }

  /** The visible rows after InitRoutingTbl: one per neighbour and one for the spare slot. */
  function InitRows(resp: InitResponse): (t: seq<Route>)
    requires resp.noNbr < |resp.nbrCost|
    ensures |t| == resp.noNbr + 1
    ensures forall i :: 0 <= i < |t| ==> t[i] == NbrRoute(resp.nbrCost[i])
  {
    seq(resp.noNbr + 1, i requires 0 <= i <= resp.noNbr => NbrRoute(resp.nbrCost[i]))
  }

  /** The rows that router.h documents: one per neighbour and the self-route. */
  function DocumentedRows(resp: InitResponse, me: nat): seq<Route>
    requires resp.noNbr <= |resp.nbrCost|
  {
    seq(resp.noNbr, i requires 0 <= i < resp.noNbr => NbrRoute(resp.nbrCost[i])) + [Route(me, me, 0)]
  }

  /** The code as written shows the documented table exactly when the spare slot happens to hold
      the router's own id with cost 0. */
  lemma InitShowsDocumentedTable(resp: InitResponse, me: nat)
    requires resp.noNbr < |resp.nbrCost|
    ensures InitRows(resp) == DocumentedRows(resp, me) <==> resp.SpareSlot() == NbrCost(me, 0)
  {
  }

  /** Without regard to the order of rows: the self-route is in the table under the same condition. */
  lemma InitHasSelfRoute(resp: InitResponse, me: nat)
    requires resp.noNbr < |resp.nbrCost|
    requires forall i :: 0 <= i < resp.noNbr ==> resp.nbrCost[i].nbr != me
    ensures Route(me, me, 0) in InitRows(resp) <==> resp.SpareSlot() == NbrCost(me, 0)
  {
  }

  /** A response of router 1 whose unused slots are zero: the table claims a free route to router 0. */
  lemma InitOnZeroedResponse()
    ensures var resp := InitResponse(1, [NbrCost(2, 7)] + seq(9, _ => NbrCost(0, 0)));
            resp.FitsArrays() && Get(InitRows(resp), 1) == None
            && Get(InitRows(resp), 0) == Some(Route(0, 0, 0))
  {
  }

  // ---------- Lookups ----------

  lemma IndexOfUnique(t: seq<Route>, d: nat, j: nat)
    requires j <= |t|
    requires j < |t| ==> t[j].dest == d
    requires forall k :: 0 <= k < j ==> t[k].dest != d
    ensures IndexOf(t, d) == j
  {
  }

  lemma GetOfRow(t: seq<Route>, i: nat)
    requires Distinct(t) && i < |t|
    ensures Get(t, t[i].dest) == Some(t[i])
  {
  }

  lemma GetSnoc(t: seq<Route>, e: Route, d: nat)
    ensures Get(t + [e], d) ==
            if Get(t, d).Some? then Get(t, d) else if e.dest == d then Some(e) else None
  {
    var j := IndexOf(t, d);
    IndexOfUnique(t + [e], d, if j < |t| || e.dest == d then j else j + 1);
  }

  lemma GetSet(t: seq<Route>, j: nat, r: Route, d: nat)
    requires j < |t| && r.dest == t[j].dest && j == IndexOf(t, r.dest)
    ensures Get(t[j := r], d) == if d == r.dest then Some(r) else Get(t, d)
  {
    IndexOfUnique(t[j := r], d, IndexOf(t, d));
  }

  /** A route after neighbour n was declared dead. */
  function Lost(known: Option<Route>, n: nat): Option<Route> {
    match known
    case None => None
    case Some(r) => Some(if r.nextHop == n then r.(cost := INFINITY) else r)
  }

  lemma GetUninstall(t: seq<Route>, dead: nat, d: nat)
    ensures Get(Uninstall(t, dead), d) == Lost(Get(t, d), dead)
  {
  }

  // ---------- Refinement: a packet acts on each destination on its own ----------

  /** The rule for one destination: what the table knew, what the packet says. */
  function MergeEntry(known: Option<Route>, heard: Option<Route>, h: Hop): Option<Route> {
    match heard
    case None => known
    case Some(e) =>
      match known
      case None => Some(Installed(e, h))
      case Some(r) => Some(Merged(r, e, h))
  }

  lemma ApplyEntryPointwise(t: seq<Route>, e: Route, h: Hop, d: nat)
    ensures Get(ApplyEntry(t, e, h), d) ==
            if d == e.dest then MergeEntry(Get(t, d), Some(e), h) else Get(t, d)
  {
    var j := IndexOf(t, e.dest);
    if j == |t| {
      GetSnoc(t, Installed(e, h), d);
    } else {
      GetSet(t, j, Merged(t[j], e, h), d);
    }
  }

  /** The nested loops compute the per-destination rule. */
  lemma {:induction false} UpdatePointwise(t: seq<Route>, es: seq<Route>, h: Hop, d: nat)
    requires Distinct(es)
    ensures Get(UpdateTable(t, es, h), d) == MergeEntry(Get(t, d), Get(es, d), h)
  {
    if es == [] {
    } else {
      var before, e := es[..|es| - 1], es[|es| - 1];
      assert es == before + [e];
      UpdatePointwise(t, before, h, d);
      ApplyEntryPointwise(UpdateTable(t, before, h), e, h, d);
      GetSnoc(before, e, d);
      if d == e.dest {
        IndexOfUnique(before, d, |before|);
      }
    }
  }

  lemma GetOfPermutation(es: seq<Route>, fs: seq<Route>, d: nat)
    requires Distinct(es) && Distinct(fs) && multiset(es) == multiset(fs)
    ensures Get(es, d) == Get(fs, d)
  {
    forall a: seq<Route>, b: seq<Route> |
      Distinct(a) && Distinct(b) && multiset(a) == multiset(b) && Get(a, d).Some?
      ensures Get(b, d) == Get(a, d)
    {
      var r := Get(a, d).value;
      assert r in multiset(a);
      assert r in multiset(b);
      var i :| 0 <= i < |b| && b[i] == r;
      GetOfRow(b, i);
    }
  }

  /** The order of the rows in a packet does not matter to what the table then knows. */
  lemma UpdateOrderIndependent(t: seq<Route>, es: seq<Route>, fs: seq<Route>, h: Hop, d: nat)
    requires Distinct(es) && Distinct(fs) && multiset(es) == multiset(fs)
    ensures Get(UpdateTable(t, es, h), d) == Get(UpdateTable(t, fs, h), d)
  {
    UpdatePointwise(t, es, h, d);
    UpdatePointwise(t, fs, h, d);
    GetOfPermutation(es, fs, d);
  }

  // ---------- Shape of the table ----------

  /** Destinations are never removed or moved, and new ones are appended. */
  ghost predicate Extends(t: seq<Route>, t': seq<Route>) {
    |t| <= |t'| && forall i :: 0 <= i < |t| ==> t'[i].dest == t[i].dest
  }

  lemma {:induction false} UpdateExtends(t: seq<Route>, es: seq<Route>, h: Hop)
    ensures Extends(t, UpdateTable(t, es, h))
    ensures Distinct(t) ==> Distinct(UpdateTable(t, es, h))
  {
    if es == [] {
    } else {
      UpdateExtends(t, es[..|es| - 1], h);
    }
  }

  lemma {:induction false} UpdatePrefix(t: seq<Route>, es: seq<Route>, h: Hop, i: nat)
    requires i <= |es|
    ensures |UpdateTable(t, es[..i], h)| <= |UpdateTable(t, es, h)|
    decreases |es| - i
  {
    if i == |es| {
      assert es[..i] == es;
    } else {
      UpdatePrefix(t, es, h, i + 1);
      assert es[..i + 1][..i] == es[..i];
    }
  }
}
