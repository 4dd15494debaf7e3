/** Laws of a single route update: the change flag, idempotence, and what survives any update. */
module TableLaws {
  import opened Protocol
  import opened TableSpec

  // ---------- In numbers ----------

  /** Which known rows change, and to what: 999 stands for every sum from there on. The flag is raised for
      these rows, and reset by a sum above 999 that meets a row over the sender which says 999. */
  lemma MergeInNumbers(t: seq<Route>, e: Route, h: Hop)
    requires Get(t, e.dest).Some?
    ensures var r, sum := Get(t, e.dest).value, h.cost + e.cost;
            var changes := if r.nextHop == h.sender then sum != r.cost && (r.cost != 999 || sum < 999)
                           else e.nextHop != h.me && sum < r.cost;
            var erases := r.nextHop == h.sender && r.cost == 999 && sum > 999;
            && Get(ApplyEntry(t, e, h), e.dest)
               == Some(if changes then Route(e.dest, h.sender, if sum < 999 then sum else 999) else r)
            && EntryEffect(t, e, h) == if changes then Raise else if erases then Erase else Keep
  {
    ApplyEntryPointwise(t, e, h, e.dest);
  }

  // ---------- The change flag ----------

  lemma EffectUnaffectedByEarlierRows(t: seq<Route>, es: seq<Route>, h: Hop)
    requires es != [] && Distinct(es)
    ensures var last := es[|es| - 1];
            EntryEffect(UpdateTable(t, es[..|es| - 1], h), last, h) == EntryEffect(t, last, h)
  {
    var before, last := es[..|es| - 1], es[|es| - 1];
    UpdatePointwise(t, before, h, last.dest);
    IndexOfUnique(before, last.dest, |before|);
  }

  /** Row i changes the table and no later row resets the flag. */
  ghost predicate Survives(t: seq<Route>, es: seq<Route>, h: Hop, i: nat)
    requires i < |es|
  {
    EntryEffect(t, es[i], h) == Raise && forall k :: i < k < |es| ==> EntryEffect(t, es[k], h) != Erase
  }

  lemma SurvivesOneMore(t: seq<Route>, es: seq<Route>, e: Route, h: Hop, i: nat)
    requires i < |es| && EntryEffect(t, e, h) == Keep
    ensures Survives(t, es + [e], h, i) <==> Survives(t, es, h, i)
  {
    var longer := es + [e];
    if Survives(t, es, h, i) {
      forall k | i < k < |longer| ensures EntryEffect(t, longer[k], h) != Erase {
      }
    }
    if Survives(t, longer, h, i) {
      forall k | i < k < |es| ensures EntryEffect(t, es[k], h) != Erase {
        assert longer[k] == es[k];
      }
    }
  }

  /** The call returns 1 exactly when some row changes the table and no later row of the same packet
      hits the branch that resets the flag. */
  lemma {:induction false} FlagExact(t: seq<Route>, es: seq<Route>, h: Hop)
    requires Distinct(es)
    ensures UpdateFlag(t, es, h) <==> exists i :: 0 <= i < |es| && Survives(t, es, h, i)
  {
    if es != [] {
      var before, n := es[..|es| - 1], |es| - 1;
      assert es == before + [es[n]];
      EffectUnaffectedByEarlierRows(t, es, h);
      FlagExact(t, before, h);
      match EntryEffect(t, es[n], h)
      case Raise => assert Survives(t, es, h, n);
      case Erase =>
      case Keep =>
        forall i | 0 <= i < n ensures Survives(t, es, h, i) <==> Survives(t, before, h, i) {
          SurvivesOneMore(t, before, es[n], h, i);
        }
    }
  }

  lemma {:induction false} QuietRowsKeepTable(t: seq<Route>, es: seq<Route>, h: Hop)
    requires Distinct(es)
    requires forall i :: 0 <= i < |es| ==> EntryEffect(t, es[i], h) != Raise
    ensures UpdateTable(t, es, h) == t
  {
    if es == [] {
    } else {
      QuietRowsKeepTable(t, es[..|es| - 1], h);
    }
  }

  lemma RaisingRowChangesTable(t: seq<Route>, es: seq<Route>, h: Hop, i: nat)
    requires Distinct(es) && i < |es| && EntryEffect(t, es[i], h) == Raise
    ensures UpdateTable(t, es, h) != t
  {
    GetOfRow(es, i);
    UpdatePointwise(t, es, h, es[i].dest);
  }

  /** The table differs afterwards exactly when some row of the packet changes it. */
  lemma TableChangeExact(t: seq<Route>, es: seq<Route>, h: Hop)
    requires Distinct(es)
    ensures UpdateTable(t, es, h) != t <==>
            exists i :: 0 <= i < |es| && EntryEffect(t, es[i], h) == Raise
  {
    if i :| 0 <= i < |es| && EntryEffect(t, es[i], h) == Raise {
      RaisingRowChangesTable(t, es, h, i);
    } else {
      QuietRowsKeepTable(t, es, h);
    }
  }

  /** Some row changes the table, but every such row is followed by one that resets the flag. */
  ghost predicate ChangeIsErased(t: seq<Route>, es: seq<Route>, h: Hop) {
    && (exists i :: 0 <= i < |es| && EntryEffect(t, es[i], h) == Raise)
    && (forall i :: 0 <= i < |es| ==> !Survives(t, es, h, i))
  }

  /** A result of 1 is never wrong, and a result of 0 is wrong exactly when the change was erased. */
  lemma FlagMeetsDocumentation(t: seq<Route>, es: seq<Route>, h: Hop)
    requires Distinct(es)
    ensures UpdateFlag(t, es, h) ==> UpdateTable(t, es, h) != t
    ensures (UpdateFlag(t, es, h) <==> UpdateTable(t, es, h) != t) <==> !ChangeIsErased(t, es, h)
  {
    FlagExact(t, es, h);
    TableChangeExact(t, es, h);
    if UpdateFlag(t, es, h) {
      var i :| 0 <= i < |es| && Survives(t, es, h, i);
      assert EntryEffect(t, es[i], h) == Raise;
    }
  }

  /** A packet that improves one route and repeats an unreachable one: changed, yet reported as 0. */
  lemma FlagErasedExample()
    ensures var t := [Route(3, 9, 50), Route(4, 2, INFINITY)];
            var es := [Route(3, 3, 1), Route(4, 5, INFINITY)];
            var h := Hop(2, 1, 0);
            ChangeIsErased(t, es, h) && !UpdateFlag(t, es, h) && UpdateTable(t, es, h) != t
  {
    var t := [Route(3, 9, 50), Route(4, 2, INFINITY)];
    var es := [Route(3, 3, 1), Route(4, 5, INFINITY)];
    var h := Hop(2, 1, 0);
    IndexOfUnique(t, 3, 0);
    IndexOfUnique(t, 4, 1);
    assert EntryEffect(t, es[0], h) == Raise;
    assert EntryEffect(t, es[1], h) == Erase;
    assert !Survives(t, es, h, 0) && !Survives(t, es, h, 1);
    FlagMeetsDocumentation(t, es, h);
  }

  // ---------- Idempotence ----------

  lemma SecondHearingIsQuiet(t: seq<Route>, es: seq<Route>, h: Hop, i: nat)
    requires Distinct(es) && i < |es|
    ensures EntryEffect(UpdateTable(t, es, h), es[i], h) != Raise
  {
    GetOfRow(es, i);
    UpdatePointwise(t, es, h, es[i].dest);
  }

  /** Hearing the same packet again changes nothing and reports 0, whatever the table was. */
  lemma UpdateIdempotent(t: seq<Route>, es: seq<Route>, h: Hop)
    requires Distinct(es)
    ensures UpdateTable(UpdateTable(t, es, h), es, h) == UpdateTable(t, es, h)
    ensures !UpdateFlag(UpdateTable(t, es, h), es, h)
  {
    var t' := UpdateTable(t, es, h);
    forall i | 0 <= i < |es| ensures EntryEffect(t', es[i], h) != Raise {
      SecondHearingIsQuiet(t, es, h, i);
    }
    QuietRowsKeepTable(t', es, h);
    FlagExact(t', es, h);
  }

  // ---------- Properties of rows that updates keep ----------

  /** If merging and installing produce only rows with property P, every update keeps P. */
  lemma {:induction false} UpdateKeepsRows(t: seq<Route>, es: seq<Route>, h: Hop, P: Route -> bool, Q: Route -> bool)
    requires forall r :: r in t ==> P(r)
    requires forall e :: e in es ==> Q(e)
    requires forall r, e :: P(r) && Q(e) && r.dest == e.dest ==> P(Merged(r, e, h))
    requires forall e :: Q(e) ==> P(Installed(e, h))
    ensures forall r :: r in UpdateTable(t, es, h) ==> P(r)
  {
    if es == [] {
    } else {
      var before, e := es[..|es| - 1], es[|es| - 1];
      UpdateKeepsRows(t, before, h, P, Q);
      var t1 := UpdateTable(t, before, h);
      var j := IndexOf(t1, e.dest);
      forall r | r in ApplyEntry(t1, e, h) ensures P(r) {
        if j < |t1| {
          assert t1[j] in t1;
        }
      }
    }
  }

  /** The route to oneself survives every update that comes from somebody else. */
  lemma {:induction false} UpdateKeepsSelfRoute(t: seq<Route>, es: seq<Route>, h: Hop)
    requires Get(t, h.me) == Some(Route(h.me, h.me, 0)) && h.sender != h.me
    ensures Get(UpdateTable(t, es, h), h.me) == Some(Route(h.me, h.me, 0))
  {
    if es == [] {
    } else {
      UpdateKeepsSelfRoute(t, es[..|es| - 1], h);
      ApplyEntryPointwise(UpdateTable(t, es[..|es| - 1], h), es[|es| - 1], h, h.me);
    }
  }

  // ---------- The update rule without split horizon ----------

  /** Merged without the test on the advertised next hop. */
  function MergedPlain(r: Route, e: Route, h: Hop): Route {
    var sum := h.cost + e.cost;
    if r.nextHop == h.sender then
      r.(cost := if sum == r.cost then sum else Sat(sum))
    else if sum < r.cost then
      Route(r.dest, h.sender, Sat(sum))
    else r
  }

  function UpdatePlain(t: seq<Route>, es: seq<Route>, h: Hop): seq<Route> {
    if es == [] then t
    else
      var t1, e := UpdatePlain(t, es[..|es| - 1], h), es[|es| - 1];
      var j := IndexOf(t1, e.dest);
      if j == |t1| then t1 + [Installed(e, h)] else t1[j := MergedPlain(t1[j], e, h)]
  }

  /** Split horizon rejects row e although its sum beats the known row. */
  ghost predicate SplitHorizonBites(t: seq<Route>, e: Route, h: Hop) {
    match Get(t, e.dest)
    case None => false
    case Some(r) => r.nextHop != h.sender && e.nextHop == h.me && h.cost + e.cost < r.cost
  }

  lemma {:induction false} PlainPointwise(t: seq<Route>, es: seq<Route>, h: Hop, d: nat)
    requires Distinct(es)
    ensures Get(UpdatePlain(t, es, h), d) ==
            match Get(es, d)
            case None => Get(t, d)
            case Some(e) =>
              match Get(t, d)
              case None => Some(Installed(e, h))
              case Some(r) => Some(MergedPlain(r, e, h))
  {
    if es == [] {
    } else {
      var before, e := es[..|es| - 1], es[|es| - 1];
      assert es == before + [e];
      PlainPointwise(t, before, h, d);
      GetSnoc(before, e, d);
      var t1 := UpdatePlain(t, before, h);
      var j := IndexOf(t1, e.dest);
      if j == |t1| {
        GetSnoc(t1, Installed(e, h), d);
      } else {
        GetSet(t1, j, MergedPlain(t1[j], e, h), d);
      }
      if d == e.dest {
        IndexOfUnique(before, d, |before|);
      }
    }
  }

  lemma {:induction false} PlainAgreesUnlessBitten(t: seq<Route>, es: seq<Route>, h: Hop)
    requires Distinct(es)
    requires forall i :: 0 <= i < |es| ==> !SplitHorizonBites(t, es[i], h)
    ensures UpdatePlain(t, es, h) == UpdateTable(t, es, h)
  {
    if es == [] {
    } else {
      var before, e := es[..|es| - 1], es[|es| - 1];
      assert forall i :: 0 <= i < |before| ==> before[i] == es[i];
      PlainAgreesUnlessBitten(t, before, h);
      UpdatePointwise(t, before, h, e.dest);
      IndexOfUnique(before, e.dest, |before|);
      assert !SplitHorizonBites(t, es[|es| - 1], h);
    }
  }

  /** The two protocols treat a packet alike exactly when split horizon bites on none of its rows. */
  lemma PlainAgreesExactly(t: seq<Route>, es: seq<Route>, h: Hop)
    requires Distinct(es)
    ensures UpdatePlain(t, es, h) == UpdateTable(t, es, h) <==>
            forall i :: 0 <= i < |es| ==> !SplitHorizonBites(t, es[i], h)
  {
    if i :| 0 <= i < |es| && SplitHorizonBites(t, es[i], h) {
      GetOfRow(es, i);
      PlainPointwise(t, es, h, es[i].dest);
      UpdatePointwise(t, es, h, es[i].dest);
    } else {
      PlainAgreesUnlessBitten(t, es, h);
    }
  }
}
