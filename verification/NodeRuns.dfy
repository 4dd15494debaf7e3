/** What holds over every history of one router: dead neighbours stay uninstalled, the failure detector
    is never hasty and never repeats itself, and every route reflects the last word of its next hop. */
module NodeRuns {
  import opened Protocol
  import opened TableSpec
  import opened TableLaws
  import opened NodeSpec

  lemma FindNbrAt(resp: InitResponse, i: nat)
    requires resp.FitsArrays() && DistinctNbrs(resp) && i < resp.noNbr
    ensures FindNbr(resp, resp.nbrCost[i].nbr) == i
  {
  }

  /** The link of a neighbour has the cost of its slot; a sender that is none gets that of the spare slot. */
  lemma LinkIsLookedUp(n: Node, v: nat, i: nat)
    requires n.WellFormed() && DistinctNbrs(n.resp)
    ensures i < n.resp.noNbr && n.resp.nbrCost[i].nbr == v ==>
              IsNbr(n, v) && HopFrom(n, v) == Hop(v, n.resp.nbrCost[i].cost, n.me)
    ensures (forall k :: 0 <= k < n.resp.noNbr ==> n.resp.nbrCost[k].nbr != v) ==>
              !IsNbr(n, v) && HopFrom(n, v) == Hop(v, n.resp.nbrCost[n.resp.noNbr].cost, n.me)
  {
    if i < n.resp.noNbr {
      FindNbrAt(n.resp, i);
    }
  }

  // ---------- Dead neighbours ----------

  ghost predicate Unreachable(t: seq<Route>, v: nat) {
    forall r :: r in t && r.nextHop == v ==> r.cost == INFINITY
  }

  ghost predicate DeadUninstalled(n: Node)
    requires n.WellFormed()
  {
    forall i :: 0 <= i < n.resp.noNbr && n.dead[i] ==> Unreachable(n.table, n.NbrId(i))
  }

  lemma UpdateFromOther(t: seq<Route>, es: seq<Route>, h: Hop, v: nat)
    requires Unreachable(t, v) && h.sender != v
    ensures Unreachable(UpdateTable(t, es, h), v)
  {
  }

  lemma ExpireKeepsUnreachable(n: Node, i: nat, v: nat)
    requires n.WellFormed() && i < n.resp.noNbr
    ensures Unreachable(n.table, v) ==> Unreachable(Expire(n, i).table, v)
    ensures DeadUninstalled(n) ==> Unreachable(Expire(n, i).table, n.NbrId(i))
  {
  }

  lemma {:induction false} ExpireReadyKeepsDead(n: Node, ready: seq<bool>, k: nat)
    requires n.WellFormed() && k <= n.resp.noNbr == |ready| && DeadUninstalled(n)
    ensures DeadUninstalled(ExpireReady(n, ready, k))
  {
    if k > 0 {
      var m := ExpireReady(n, ready, k - 1);
      ExpireReadyKeepsDead(n, ready, k - 1);
      if ready[k - 1] {
        var m' := Expire(m, k - 1);
        forall i | 0 <= i < n.resp.noNbr && m'.dead[i] ensures Unreachable(m'.table, m'.NbrId(i)) {
          assert i != k - 1 ==> m.dead[i];
          ExpireKeepsUnreachable(m, k - 1, m.NbrId(i));
        }
      }
    }
  }

  lemma HandleKeepsDead(n: Node, e: Event)
    requires n.WellFormed() && Possible(n, e) && DistinctNbrs(n.resp) && DeadUninstalled(n)
    ensures DeadUninstalled(Handle(n, e))
  {
    match e
    case Idle(ready, _) => ExpireReadyKeepsDead(n, ready, |ready|);
    case Packet(u, _) =>
      var n' := Handle(n, e);
      forall i | 0 <= i < n.resp.noNbr && n'.dead[i] ensures Unreachable(n'.table, n'.NbrId(i)) {
        assert i != FindNbr(n.resp, u.sender) && n.dead[i];
        FindNbrAt(n.resp, i);
        UpdateFromOther(n.table, u.routes, HopFrom(n, u.sender), n.NbrId(i));
      }
  }

  /** From the moment a neighbour is marked as dead until it is heard again, every route over it costs
      INFINITY, whatever the other neighbours say meanwhile. */
  lemma {:induction false} DeadStayUninstalled(me: nat, resp: InitResponse, start: nat, es: seq<Event>)
    requires resp.FitsArrays() && DistinctNbrs(resp) && History(Boot(me, resp, start), es)
    ensures DeadUninstalled(NodeAfter(Boot(me, resp, start), es))
  {
    if es != [] {
      DeadStayUninstalled(me, resp, start, es[..|es| - 1]);
      HandleKeepsDead(NodeAfter(Boot(me, resp, start), es[..|es| - 1]), es[|es| - 1]);
    }
  }

  // ---------- The failure detector ----------

  lemma {:induction false} ExpireReadyMarks(n: Node, ready: seq<bool>, k: nat)
    requires n.WellFormed() && k <= n.resp.noNbr == |ready|
    ensures ExpireReady(n, ready, k).deadline == n.deadline
    ensures forall i :: 0 <= i < |ready| ==> ExpireReady(n, ready, k).dead[i] == (n.dead[i] || (i < k && ready[i]))
  {
    if k > 0 {
      ExpireReadyMarks(n, ready, k - 1);
    }
  }

  lemma {:induction false} HistoryPrefix(start: Node, es: seq<Event>, k: nat)
    requires start.WellFormed() && History(start, es) && k <= |es|
    ensures History(start, es[..k])
  {
    if k == |es| {
      assert es[..k] == es;
    } else {
      HistoryPrefix(start, es[..|es| - 1], k);
      assert es[..|es| - 1][..k] == es[..k];
    }
  }

  lemma OneMoreEvent(start: Node, es: seq<Event>, e: Event)
    requires start.WellFormed() && History(start, es) && Possible(NodeAfter(start, es), e)
    requires es != [] ==> es[|es| - 1].now <= e.now
    ensures History(start, es + [e]) && NodeAfter(start, es + [e]) == Handle(NodeAfter(start, es), e)
  {
    assert (es + [e])[..|es|] == es;
  }

  lemma {:induction false} ClockIsMonotone(start: Node, es: seq<Event>, j: nat)
    requires start.WellFormed() && History(start, es) && j < |es|
    ensures es[j].now <= es[|es| - 1].now
  {
    if j < |es| - 1 {
      ClockIsMonotone(start, es[..|es| - 1], j);
    }
  }

  /** The deadline of a neighbour is FAILURE_DETECTION after the last packet from it, or after the
      start when there was none. */
  lemma {:induction false} DeadlineIsAfterLastPacket(me: nat, resp: InitResponse, t0: nat, es: seq<Event>, i: nat)
    requires resp.FitsArrays() && DistinctNbrs(resp) && i < resp.noNbr && History(Boot(me, resp, t0), es)
    ensures var deadline, v := NodeAfter(Boot(me, resp, t0), es).deadline[i], resp.nbrCost[i].nbr;
            && (forall j :: 0 <= j < |es| && HearsFrom(es[j], v) ==> es[j].now + FAILURE_DETECTION <= deadline)
            && (deadline == t0 + FAILURE_DETECTION
                || exists j :: 0 <= j < |es| && HearsFrom(es[j], v) && deadline == es[j].now + FAILURE_DETECTION)
            && ((forall j :: 0 <= j < |es| ==> !HearsFrom(es[j], v)) ==> deadline == t0 + FAILURE_DETECTION)
  {
    if es != [] {
      var before, last := es[..|es| - 1], es[|es| - 1];
      var n, v := NodeAfter(Boot(me, resp, t0), before), resp.nbrCost[i].nbr;
      DeadlineIsAfterLastPacket(me, resp, t0, before, i);
      FindNbrAt(resp, i);
      assert forall j :: 0 <= j < |before| ==> before[j] == es[j];
      if last.Idle? {
        ExpireReadyMarks(n, last.ready, |last.ready|);
      } else if last.update.sender == v {
        forall j | 0 <= j < |es| ensures es[j].now <= last.now {
          ClockIsMonotone(Boot(me, resp, t0), es, j);
        }
        assert HearsFrom(es[|es| - 1], v);
      }
    }
  }

  /** A neighbour is declared dead only when nothing from it was handled for three seconds, or since the
      start, if nothing ever came; and the router has run for three seconds. */
  lemma DetectorIsNotHasty(me: nat, resp: InitResponse, t0: nat, es: seq<Event>, k: nat, i: nat)
    requires resp.FitsArrays() && DistinctNbrs(resp) && i < resp.noNbr
    requires History(Boot(me, resp, t0), es) && k < |es|
    requires History(Boot(me, resp, t0), es[..k]) && Declares(Boot(me, resp, t0), es, k, i)
    ensures forall j :: 0 <= j < k && HearsFrom(es[j], resp.nbrCost[i].nbr) ==> es[j].now + 3 <= es[k].now
    ensures (forall j :: 0 <= j < k ==> !HearsFrom(es[j], resp.nbrCost[i].nbr)) ==> t0 + 3 <= es[k].now
    ensures (forall j :: 0 <= j < k ==> t0 <= es[j].now) ==> t0 + 3 <= es[k].now
  {
    var start := Boot(me, resp, t0);
    DeadlineIsAfterLastPacket(me, resp, t0, es[..k], i);
    HistoryPrefix(start, es, k + 1);
    assert es[..k + 1][..k] == es[..k];
    assert Possible(NodeAfter(start, es[..k]), es[k]);
    assert forall j :: 0 <= j < k ==> es[..k][j] == es[j];
  }

  /** Only the timer of neighbour i is reported. */
  function Only(n: nat, i: nat): seq<bool> {
    seq(n, k => k == i)
  }

  /** The timer of a neighbour can be reported exactly when the router has run, and has handled nothing
      from the neighbour, for three seconds. So two updates missed in a row never kill a neighbour. */
  lemma ReportNeedsThreeSeconds(me: nat, resp: InitResponse, t0: nat, es: seq<Event>, i: nat, now: nat)
    requires resp.FitsArrays() && DistinctNbrs(resp) && i < resp.noNbr && History(Boot(me, resp, t0), es)
    requires forall j :: 0 <= j < |es| ==> t0 <= es[j].now
    ensures Possible(NodeAfter(Boot(me, resp, t0), es), Idle(Only(resp.noNbr, i), now)) <==>
            && t0 + 3 <= now
            && forall j :: 0 <= j < |es| && HearsFrom(es[j], resp.nbrCost[i].nbr) ==> es[j].now + 3 <= now
  {
    DeadlineIsAfterLastPacket(me, resp, t0, es, i);
    assert Only(resp.noNbr, i)[i];
  }

  lemma DeclaredAfter(start: Node, es: seq<Event>, ready: seq<bool>, now: nat, i: nat)
    requires start.WellFormed() && i < start.resp.noNbr && History(start, es)
    requires i < |ready| && ready[i] && !NodeAfter(start, es).dead[i]
    ensures var longer := es + [Idle(ready, now)];
            History(start, longer[..|es|]) && Declares(start, longer, |es|, i)
  {
    assert (es + [Idle(ready, now)])[..|es|] == es;
  }

  /** Three silent seconds are enough for the declaration. */
  lemma SilenceIsDeclared(me: nat, resp: InitResponse, t0: nat, es: seq<Event>, i: nat, now: nat)
    requires resp.FitsArrays() && DistinctNbrs(resp) && i < resp.noNbr && History(Boot(me, resp, t0), es)
    requires !NodeAfter(Boot(me, resp, t0), es).dead[i]
    requires forall j :: 0 <= j < |es| ==> t0 <= es[j].now <= now
    requires t0 + 3 <= now
    requires forall j :: 0 <= j < |es| && HearsFrom(es[j], resp.nbrCost[i].nbr) ==> es[j].now + 3 <= now
    ensures var longer := es + [Idle(Only(resp.noNbr, i), now)];
            && History(Boot(me, resp, t0), longer) && History(Boot(me, resp, t0), longer[..|es|])
            && Declares(Boot(me, resp, t0), longer, |es|, i)
  {
    var start, ready := Boot(me, resp, t0), Only(resp.noNbr, i);
    ReportNeedsThreeSeconds(me, resp, t0, es, i, now);
    OneMoreEvent(start, es, Idle(ready, now));
    DeclaredAfter(start, es, ready, now, i);
  }

  /** The mark of neighbour i is cleared only by a packet from it. */
  lemma {:induction false} MarkStaysUntilHeard(start: Node, es: seq<Event>, k: nat, i: nat)
    requires start.WellFormed() && DistinctNbrs(start.resp) && i < start.resp.noNbr
    requires History(start, es) && k <= |es| && History(start, es[..k]) && NodeAfter(start, es[..k]).dead[i]
    requires forall j :: k <= j < |es| ==> !HearsFrom(es[j], start.NbrId(i))
    ensures NodeAfter(start, es).dead[i]
  {
    if k == |es| {
      assert es[..k] == es;
    } else {
      var before, last := es[..|es| - 1], es[|es| - 1];
      assert before[..k] == es[..k];
      MarkStaysUntilHeard(start, before, k, i);
      if last.Idle? {
        ExpireReadyMarks(NodeAfter(start, before), last.ready, |last.ready|);
      } else {
        assert !HearsFrom(es[|es| - 1], start.NbrId(i));
        FindNbrAt(start.resp, FindNbr(start.resp, last.update.sender));
      }
    }
  }

  lemma DeclaringMarks(start: Node, es: seq<Event>, k: nat, i: nat)
    requires start.WellFormed() && i < start.resp.noNbr && k < |es|
    requires History(start, es[..k]) && History(start, es[..k + 1]) && Declares(start, es, k, i)
    ensures NodeAfter(start, es[..k + 1]).dead[i]
  {
    assert es[..k + 1][..k] == es[..k];
    ExpireReadyMarks(NodeAfter(start, es[..k]), es[k].ready, |es[k].ready|);
  }

  /** Between two declarations of one neighbour there is a packet from it. */
  lemma DetectorDoesNotRepeat(start: Node, es: seq<Event>, a: nat, b: nat, i: nat)
    requires start.WellFormed() && DistinctNbrs(start.resp) && i < start.resp.noNbr
    requires History(start, es) && a < b < |es|
    requires History(start, es[..a]) && Declares(start, es, a, i)
    requires History(start, es[..b]) && Declares(start, es, b, i)
    ensures exists j :: a < j < b && HearsFrom(es[j], start.NbrId(i))
  {
    HistoryPrefix(start, es, a + 1);
    DeclaringMarks(start, es, a, i);
    if forall j :: a < j < b ==> !HearsFrom(es[j], start.NbrId(i)) {
      assert es[..b][..a + 1] == es[..a + 1];
      assert forall j :: a + 1 <= j < b ==> es[..b][j] == es[j];
      MarkStaysUntilHeard(start, es[..b], a + 1, i);
    }
  }

  // ---------- The number of updates ----------

  /** Event k is a packet that UpdateRoutes reports as 1. */
  ghost predicate Reports(start: Node, es: seq<Event>, k: nat)
    requires start.WellFormed() && k < |es| && History(start, es[..k])
  {
    var n := NodeAfter(start, es[..k]);
    es[k].Packet? && UpdateFlag(n.table, es[k].update.routes, HopFrom(n, es[k].update.sender))
  }

  /** Event k is a packet that changes the table. */
  ghost predicate Changes(start: Node, es: seq<Event>, k: nat)
    requires start.WellFormed() && k < |es| && History(start, es[..k])
  {
    var n := NodeAfter(start, es[..k]);
    es[k].Packet? && UpdateTable(n.table, es[k].update.routes, HopFrom(n, es[k].update.sender)) != n.table
  }

  /** Event k is a packet whose changes of the table are all followed by a reset of the flag. */
  ghost predicate Hides(start: Node, es: seq<Event>, k: nat)
    requires start.WellFormed() && k < |es| && History(start, es[..k])
  {
    var n := NodeAfter(start, es[..k]);
    es[k].Packet? && ChangeIsErased(n.table, es[k].update.routes, HopFrom(n, es[k].update.sender))
  }

  ghost function ReportCount(start: Node, es: seq<Event>): nat
    requires start.WellFormed() && History(start, es)
  {
    if es == [] then 0
    else ReportCount(start, es[..|es| - 1]) + if Reports(start, es, |es| - 1) then 1 else 0
  }

  ghost function ChangeCount(start: Node, es: seq<Event>): nat
    requires start.WellFormed() && History(start, es)
  {
    if es == [] then 0
    else ChangeCount(start, es[..|es| - 1]) + if Changes(start, es, |es| - 1) then 1 else 0
  }

  lemma {:induction false} ExpireReadyCounts(n: Node, ready: seq<bool>, k: nat)
    requires n.WellFormed() && k <= n.resp.noNbr == |ready|
    ensures ExpireReady(n, ready, k).updates == n.updates
  {
    if k > 0 {
      ExpireReadyCounts(n, ready, k - 1);
    }
  }

  /** The counter of the main loop is the number of packets that were reported as 1. */
  lemma {:induction false} UpdatesAreReports(me: nat, resp: InitResponse, t0: nat, es: seq<Event>)
    requires resp.FitsArrays() && History(Boot(me, resp, t0), es)
    ensures NodeAfter(Boot(me, resp, t0), es).updates == ReportCount(Boot(me, resp, t0), es)
  {
    if es != [] {
      var n, last := NodeAfter(Boot(me, resp, t0), es[..|es| - 1]), es[|es| - 1];
      UpdatesAreReports(me, resp, t0, es[..|es| - 1]);
      if last.Idle? {
        ExpireReadyCounts(n, last.ready, |last.ready|);
      }
    }
  }

  /** No change is hidden. */
  ghost predicate NothingHidden(start: Node, es: seq<Event>)
    requires start.WellFormed() && History(start, es)
  {
    es != [] ==> NothingHidden(start, es[..|es| - 1]) && !Hides(start, es, |es| - 1)
  }

  /** The counter is never above the number of packets that changed the table, and it is that number
      exactly when no change was hidden. */
  lemma {:induction false} ReportsMissHiddenChanges(start: Node, es: seq<Event>)
    requires start.WellFormed() && History(start, es)
    requires forall k :: 0 <= k < |es| && es[k].Packet? ==> Distinct(es[k].update.routes)
    ensures ReportCount(start, es) <= ChangeCount(start, es)
    ensures ReportCount(start, es) == ChangeCount(start, es) <==> NothingHidden(start, es)
  {
    if es != [] {
      var before, last := es[..|es| - 1], es[|es| - 1];
      assert forall k :: 0 <= k < |before| ==> before[k] == es[k];
      ReportsMissHiddenChanges(start, before);
      if last.Packet? {
        var n := NodeAfter(start, before);
        FlagMeetsDocumentation(n.table, last.update.routes, HopFrom(n, last.update.sender));
      }
    }
  }

  // ---------- Freshness ----------

  /** The last thing a router has heard from v about d. */
  datatype Word = Nothing | Offered(cost: nat) | DeclaredDead

  ghost function LastWord(start: Node, es: seq<Event>, v: nat, d: nat): Word
    requires start.WellFormed() && History(start, es)
  {
    if es == [] then Nothing
    else
      var before, last := es[..|es| - 1], es[|es| - 1];
      var i := FindNbr(start.resp, v);
      if HearsFrom(last, v) && Get(last.update.routes, d).Some? then Offered(Get(last.update.routes, d).value.cost)
      else if last.Idle? && i < start.resp.noNbr && last.ready[i] && !NodeAfter(start, before).dead[i] then DeclaredDead
      else LastWord(start, before, v, d)
  }

  /** A route over v says what v said last: its offer plus the link, INFINITY if v was declared dead
      since, or the initial row if v never mentioned the destination. */
  ghost predicate Fresh(start: Node, r: Route, word: Word)
    requires start.WellFormed()
  {
    match word
    case Nothing => Get(start.table, r.dest) == Some(r)
    case DeclaredDead => r.cost == INFINITY
    case Offered(x) => IsNbr(start, r.nextHop) && Sat(r.cost) == Sat(HopFrom(start, r.nextHop).cost + x)
  }

  lemma ExpireRow(n: Node, i: nat, d: nat)
    requires n.WellFormed() && i < n.resp.noNbr
    ensures Get(Expire(n, i).table, d) == if n.dead[i] then Get(n.table, d) else Lost(Get(n.table, d), n.NbrId(i))
  {
    GetUninstall(n.table, n.NbrId(i), d);
  }

  /** Looking at timers uninstalls the routes over the neighbours declared dead and no others. */
  lemma {:induction false} ExpireReadyRow(n: Node, ready: seq<bool>, k: nat, d: nat)
    requires n.WellFormed() && k <= n.resp.noNbr == |ready| && DistinctNbrs(n.resp)
    ensures match Get(n.table, d)
            case None => Get(ExpireReady(n, ready, k).table, d).None?
            case Some(r) =>
              var i := FindNbr(n.resp, r.nextHop);
              Get(ExpireReady(n, ready, k).table, d) ==
              Some(if i < k && ready[i] && !n.dead[i] then r.(cost := INFINITY) else r)
  {
    if k > 0 {
      ExpireReadyRow(n, ready, k - 1, d);
      ExpireReadyMarks(n, ready, k - 1);
      FindNbrAt(n.resp, k - 1);
      ExpireRow(ExpireReady(n, ready, k - 1), k - 1, d);
    }
  }

  /** Every route of the table is fresh, as far as it concerns destination d. */
  ghost predicate FreshAt(start: Node, es: seq<Event>, d: nat)
    requires start.WellFormed() && History(start, es)
  {
    match Get(NodeAfter(start, es).table, d)
    case None => true
    case Some(r) => Fresh(start, r, LastWord(start, es, r.nextHop, d))
  }

  lemma FreshAfterPacket(start: Node, es: seq<Event>, d: nat)
    requires start.WellFormed() && es != [] && History(start, es) && es[|es| - 1].Packet?
    requires Distinct(es[|es| - 1].update.routes) && FreshAt(start, es[..|es| - 1], d)
    ensures FreshAt(start, es, d)
  {
    var n, u := NodeAfter(start, es[..|es| - 1]), es[|es| - 1].update;
    UpdatePointwise(n.table, u.routes, HopFrom(n, u.sender), d);
    assert Get(UpdateTable(n.table, u.routes, HopFrom(n, u.sender)), d) == Get(NodeAfter(start, es).table, d);
  }

  lemma FreshAfterIdle(start: Node, es: seq<Event>, d: nat)
    requires start.WellFormed() && DistinctNbrs(start.resp) && es != [] && History(start, es)
    requires es[|es| - 1].Idle? && FreshAt(start, es[..|es| - 1], d)
    ensures FreshAt(start, es, d)
  {
    var n, ready := NodeAfter(start, es[..|es| - 1]), es[|es| - 1].ready;
    ExpireReadyRow(n, ready, |ready|, d);
    assert NodeAfter(start, es) == ExpireReady(n, ready, |ready|);
  }

  /** Freshness over whole histories. */
  lemma {:induction false} RoutesAreFresh(start: Node, es: seq<Event>, d: nat)
    requires start.WellFormed() && DistinctNbrs(start.resp) && History(start, es)
    requires forall k :: 0 <= k < |es| && es[k].Packet? ==> Distinct(es[k].update.routes)
    ensures FreshAt(start, es, d)
  {
    if es != [] {
      var before := es[..|es| - 1];
      assert forall k :: 0 <= k < |before| ==> before[k] == es[k];
      RoutesAreFresh(start, before, d);
      if es[|es| - 1].Packet? {
        FreshAfterPacket(start, es, d);
      } else {
        FreshAfterIdle(start, es, d);
      }
    } else {
      IndexOfUnique(start.table, d, IndexOf(start.table, d));
    }
  }
}
