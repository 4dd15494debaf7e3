/** A run in which the result of UpdateRoutes is wrong: the table changes and 0 is returned. */
module StarExample {
  import opened Protocol
  import opened TableSpec
  import opened TableLaws
  import opened Graph
  import opened Network
  import opened Soundness
  import opened Examples

  /** Router 1 in the middle of routers 0, 2 and 3. */
  function Star(): Config {
    map[0 := Answer(0, [NbrCost(1, 1)]),
        1 := Answer(1, [NbrCost(0, 1), NbrCost(2, 1), NbrCost(3, 1)]),
        2 := Answer(2, [NbrCost(1, 1)]),
        3 := Answer(3, [NbrCost(1, 1)])]
  }

  lemma StarLinks(u: nat, v: nat)
    ensures Nbr(Star(), u, v) <==> (u, v) in {(0, 1), (1, 0), (1, 2), (2, 1), (1, 3), (3, 1)}
    ensures Nbr(Star(), 0, 1) && LinkCost(Star(), 0, 1) == 1
  {
  }

  lemma StarRouter(u: nat)
    requires u < 4
    ensures u in Star() && NbrsOfRouter(Star(), u) && Star()[u].SpareSlot() == NbrCost(u, 0)
  {
  }

  lemma StarIsWellFormed()
    ensures WellFormed(Star())
  {
    var cfg := Star();
    assert cfg.Keys == {0, 1, 2, 3} && |cfg| == |cfg.Keys|;
    forall u | u in cfg ensures NbrsOfRouter(cfg, u) && cfg[u].SpareSlot() == NbrCost(u, 0) {
      StarRouter(u);
    }
    forall u, v | Nbr(cfg, u, v) ensures Nbr(cfg, v, u) {
      StarLinks(u, v);
      StarLinks(v, u);
    }
  }

  /** Packets from router 1 with these receivers and rows are on their way, and routers 0 and 1 have
      these tables. */
  ghost predicate Exactly(s: State, packets: seq<(nat, seq<Route>)>, t0: seq<Route>, t1: seq<Route>) {
    && |s.wire| == |packets|
    && (forall i :: 0 <= i < |packets| ==> s.wire[i].from == 1 && (s.wire[i].to, s.wire[i].routes) == packets[i])
    && Table(s, 0) == t0 && 1 in s.tables && Table(s, 1) == t1
  }

  lemma StarAdvertises(cfg: Config, s: State, packets: seq<(nat, seq<Route>)>, t0: seq<Route>, t1: seq<Route>)
    requires 1 in cfg && cfg[1].FitsArrays() && cfg[1].noNbr == 3
    requires cfg[1].nbrCost[0].nbr == 0 && cfg[1].nbrCost[1].nbr == 2 && cfg[1].nbrCost[2].nbr == 3
    requires Exactly(s, packets, t0, t1)
    ensures Exactly(Next(cfg, s, Advertise(1)), packets + [(0, t1), (2, t1), (3, t1)], t0, t1)
  {
    var s' := Next(cfg, s, Advertise(1));
    forall i | |packets| <= i < |s'.wire| ensures s'.wire[i] == Adverts(cfg, s, 1)[i - |packets|] {
    }
  }

  lemma StarLoses(cfg: Config, s: State, packets: seq<(nat, seq<Route>)>, t0: seq<Route>, t1: seq<Route>, v: nat)
    requires Nbr(cfg, 1, v) && Exactly(s, packets, t0, t1)
    ensures Exactly(Next(cfg, s, Timeout(1, v)), packets, t0, Uninstall(t1, v))
  {
    TimeoutChanges(cfg, s, 1, v);
  }

  lemma StarHears(cfg: Config, s: State, packets: seq<(nat, seq<Route>)>, t0: seq<Route>, t1: seq<Route>, i: nat)
    requires Nbr(cfg, 0, 1) && LinkCost(cfg, 0, 1) == 1 && i < |packets| && packets[i].0 == 0
    requires Exactly(s, packets, t0, t1)
    ensures Exactly(Next(cfg, s, Deliver(i)), packets[..i] + packets[i + 1..],
                    UpdateTable(t0, packets[i].1, Hop(1, 1, 0)), t1)
  {
    var s', rest := Next(cfg, s, Deliver(i)), packets[..i] + packets[i + 1..];
    forall k | 0 <= k < |rest| ensures s'.wire[k].from == 1 && (s'.wire[k].to, s'.wire[k].routes) == rest[k] {
      assert rest[k] == packets[if k < i then k else k + 1];
    }
  }

  const FROM_1 := [Route(0, 0, 1), Route(2, 2, 1), Route(3, 3, 1), Route(1, 1, 0)]
  const WITHOUT_3 := [Route(0, 0, 1), Route(2, 2, 1), Route(3, 3, INFINITY), Route(1, 1, 0)]
  const WITHOUT_2 := [Route(0, 0, 1), Route(2, 2, INFINITY), Route(3, 3, INFINITY), Route(1, 1, 0)]

  const HOP_TO_1 := Hop(1, 1, 0)

  lemma FirstHearingOfSelf(t: seq<Route>)
    requires Get(t, 0) == Some(Route(0, 0, 0))
    ensures Get(UpdateTable(t, FROM_1, HOP_TO_1), 0) == Some(Route(0, 0, 0))
  {
    UpdatePointwise(t, FROM_1, HOP_TO_1, 0);
  }

  lemma FirstHearingOfNbr(t: seq<Route>)
    requires Get(t, 1) == Some(Route(1, 1, 1))
    ensures Get(UpdateTable(t, FROM_1, HOP_TO_1), 1) == Some(Route(1, 1, 1))
  {
    UpdatePointwise(t, FROM_1, HOP_TO_1, 1);
  }

  lemma FirstHearingOfNew(t: seq<Route>, d: nat)
    requires 2 <= d < 4 && Get(t, d) == None
    ensures Get(UpdateTable(t, FROM_1, HOP_TO_1), d) == Some(Route(d, 1, 2))
  {
    UpdatePointwise(t, FROM_1, HOP_TO_1, d);
  }

  lemma FirstHearing(t: seq<Route>, d: nat)
    requires d < 4 && Get(t, d) == if d < 2 then Some(Route(d, d, d)) else None
    ensures Get(UpdateTable(t, FROM_1, HOP_TO_1), d)
            == Some(if d == 0 then Route(0, 0, 0) else if d == 1 then Route(1, 1, 1) else Route(d, 1, 2))
  {
    if d == 0 {
      FirstHearingOfSelf(t);
    } else if d == 1 {
      FirstHearingOfNbr(t);
    } else {
      FirstHearingOfNew(t, d);
    }
  }

  lemma SecondHearing(t: seq<Route>, d: nat)
    requires d < 4
    requires Get(t, d) == Some(if d == 0 then Route(0, 0, 0) else if d == 1 then Route(1, 1, 1) else Route(d, 1, 2))
    ensures Get(UpdateTable(t, WITHOUT_3, HOP_TO_1), d)
            == if d == 3 then Some(Route(3, 1, INFINITY)) else Get(t, d)
  {
    UpdatePointwise(t, WITHOUT_3, HOP_TO_1, d);
  }

  /** The table of router 0 before it hears that router 2 is gone. */
  function StarTable(): seq<Route> {
    UpdateTable(UpdateTable([Route(1, 1, 1), Route(0, 0, 0)], FROM_1, HOP_TO_1), WITHOUT_3, HOP_TO_1)
  }

  lemma LossIsErased(t: seq<Route>)
    requires Get(t, 0) == Some(Route(0, 0, 0)) && Get(t, 1) == Some(Route(1, 1, 1))
    requires Get(t, 2) == Some(Route(2, 1, 2)) && Get(t, 3) == Some(Route(3, 1, INFINITY))
    ensures ChangeIsErased(t, WITHOUT_2, HOP_TO_1)
    ensures !UpdateFlag(t, WITHOUT_2, HOP_TO_1) && UpdateTable(t, WITHOUT_2, HOP_TO_1) != t
  {
    assert EntryEffect(t, WITHOUT_2[0], HOP_TO_1) == Keep;
    assert EntryEffect(t, WITHOUT_2[1], HOP_TO_1) == Raise;
    assert EntryEffect(t, WITHOUT_2[2], HOP_TO_1) == Erase;
    assert EntryEffect(t, WITHOUT_2[3], HOP_TO_1) == Keep;
    assert !Survives(t, WITHOUT_2, HOP_TO_1, 1);
    FlagMeetsDocumentation(t, WITHOUT_2, HOP_TO_1);
  }

  lemma StarTableErases()
    ensures ChangeIsErased(StarTable(), WITHOUT_2, HOP_TO_1)
    ensures !UpdateFlag(StarTable(), WITHOUT_2, HOP_TO_1)
    ensures UpdateTable(StarTable(), WITHOUT_2, HOP_TO_1) != StarTable()
  {
    forall d: nat | d < 4
      ensures Get(StarTable(), d) ==
              Some(if d == 0 then Route(0, 0, 0) else if d == 1 then Route(1, 1, 1)
                   else if d == 2 then Route(2, 1, 2) else Route(3, 1, INFINITY))
    {
      FirstHearing([Route(1, 1, 1), Route(0, 0, 0)], d);
      SecondHearing(UpdateTable([Route(1, 1, 1), Route(0, 0, 0)], FROM_1, HOP_TO_1), d);
    }
    LossIsErased(StarTable());
  }

  lemma OneStep(cfg: Config, steps: seq<Step>, step: Step)
    ensures After(cfg, steps + [step]) == Next(cfg, After(cfg, steps), step)
  {
  }

  /** What the run below needs to know of the network. */
  ghost predicate LikeStar(cfg: Config) {
    && 1 in cfg && cfg[1].FitsArrays() && cfg[1].noNbr == 3
    && cfg[1].nbrCost[0].nbr == 0 && cfg[1].nbrCost[1].nbr == 2 && cfg[1].nbrCost[2].nbr == 3
    && Nbr(cfg, 1, 2) && Nbr(cfg, 1, 3) && Nbr(cfg, 0, 1) && LinkCost(cfg, 0, 1) == 1
  }

  lemma StarFirstRound(cfg: Config, s: State, t0: seq<Route>)
    requires LikeStar(cfg) && Exactly(s, [], t0, FROM_1)
    ensures var s' := Next(cfg, Next(cfg, Next(cfg, s, Advertise(1)), Deliver(0)), Timeout(1, 3));
            Exactly(s', [(2, FROM_1), (3, FROM_1)], UpdateTable(t0, FROM_1, HOP_TO_1), WITHOUT_3)
  {
    var all := [(0, FROM_1), (2, FROM_1), (3, FROM_1)];
    StarAdvertises(cfg, s, [], t0, FROM_1);
    assert [] + all == all && all[..0] + all[1..] == [(2, FROM_1), (3, FROM_1)];
    StarHears(cfg, Next(cfg, s, Advertise(1)), all, t0, FROM_1, 0);
    StarLoses(cfg, Next(cfg, Next(cfg, s, Advertise(1)), Deliver(0)), [(2, FROM_1), (3, FROM_1)],
              UpdateTable(t0, FROM_1, HOP_TO_1), FROM_1, 3);
    assert Uninstall(FROM_1, 3) == WITHOUT_3;
  }

  lemma StarSecondRound(cfg: Config, s: State, t0: seq<Route>)
    requires LikeStar(cfg) && Exactly(s, [(2, FROM_1), (3, FROM_1)], t0, WITHOUT_3)
    ensures var s' := Next(cfg, Next(cfg, Next(cfg, s, Advertise(1)), Deliver(2)), Timeout(1, 2));
            Exactly(s', [(2, FROM_1), (3, FROM_1), (2, WITHOUT_3), (3, WITHOUT_3)],
                    UpdateTable(t0, WITHOUT_3, HOP_TO_1), WITHOUT_2)
  {
    var all := [(2, FROM_1), (3, FROM_1), (0, WITHOUT_3), (2, WITHOUT_3), (3, WITHOUT_3)];
    var rest := [(2, FROM_1), (3, FROM_1), (2, WITHOUT_3), (3, WITHOUT_3)];
    StarAdvertises(cfg, s, [(2, FROM_1), (3, FROM_1)], t0, WITHOUT_3);
    assert [(2, FROM_1), (3, FROM_1)] + [(0, WITHOUT_3), (2, WITHOUT_3), (3, WITHOUT_3)] == all;
    assert all[..2] + all[3..] == rest;
    StarHears(cfg, Next(cfg, s, Advertise(1)), all, t0, WITHOUT_3, 2);
    StarLoses(cfg, Next(cfg, Next(cfg, s, Advertise(1)), Deliver(2)), rest,
              UpdateTable(t0, WITHOUT_3, HOP_TO_1), WITHOUT_3, 2);
    assert Uninstall(WITHOUT_3, 2) == WITHOUT_2;
  }

  lemma StarThirdRound(cfg: Config, s: State, t0: seq<Route>, packets: seq<(nat, seq<Route>)>)
    requires LikeStar(cfg) && |packets| == 4 && Exactly(s, packets, t0, WITHOUT_2)
    ensures var s' := Next(cfg, s, Advertise(1));
            && Table(s', 0) == t0 && 4 < |s'.wire|
            && s'.wire[4].to == 0 && s'.wire[4].from == 1 && s'.wire[4].routes == WITHOUT_2
  {
    StarAdvertises(cfg, s, packets, t0, WITHOUT_2);
  }

  lemma ThreeSteps(cfg: Config, steps: seq<Step>, a: Step, b: Step, c: Step)
    ensures After(cfg, steps + [a, b, c]) == Next(cfg, Next(cfg, Next(cfg, After(cfg, steps), a), b), c)
  {
    OneStep(cfg, steps, a);
    OneStep(cfg, steps + [a], b);
    OneStep(cfg, steps + [a] + [b], c);
    assert steps + [a] + [b] + [c] == steps + [a, b, c];
  }

  lemma StarStart()
    ensures Exactly(Init(Star()), [], [Route(1, 1, 1), Route(0, 0, 0)], FROM_1) && LikeStar(Star())
  {
    StarRouter(0);
    StarRouter(1);
    StarLinks(1, 2);
    StarLinks(1, 3);
    assert InitRows(Star()[0]) == [Route(1, 1, 1), Route(0, 0, 0)];
    assert InitRows(Star()[1]) == FROM_1;
  }

  /** Router 1 loses router 3 and then router 2. When router 0 hears of the second loss, its table
      changes, but the row that repeats the first loss resets the flag. */
  lemma FlagIsErasedInRun()
    ensures var steps := [Advertise(1), Deliver(0), Timeout(1, 3)] + [Advertise(1), Deliver(2), Timeout(1, 2)];
            var s := After(Star(), steps + [Advertise(1)]);
            && WellFormed(Star()) && 4 < |s.wire| && s.wire[4].to == 0 && s.wire[4].from == 1
            && Nbr(Star(), 0, 1)
            && ChangeIsErased(Table(s, 0), s.wire[4].routes, HopOf(Star(), s.wire[4]))
            && !UpdateFlag(Table(s, 0), s.wire[4].routes, HopOf(Star(), s.wire[4]))
            && Received(Star(), s, s.wire[4]) != Table(s, 0)
  {
    var cfg := Star();
    var first := [Advertise(1), Deliver(0), Timeout(1, 3)];
    var second := [Advertise(1), Deliver(2), Timeout(1, 2)];
    StarIsWellFormed();
    StarStart();
    StarLinks(0, 1);
    ThreeSteps(cfg, [], Advertise(1), Deliver(0), Timeout(1, 3));
    assert [] + first == first;
    StarFirstRound(cfg, After(cfg, []), [Route(1, 1, 1), Route(0, 0, 0)]);
    ThreeSteps(cfg, first, Advertise(1), Deliver(2), Timeout(1, 2));
    StarSecondRound(cfg, After(cfg, first), UpdateTable([Route(1, 1, 1), Route(0, 0, 0)], FROM_1, HOP_TO_1));
    OneStep(cfg, first + second, Advertise(1));
    StarThirdRound(cfg, After(cfg, first + second), StarTable(),
                   [(2, FROM_1), (3, FROM_1), (2, WITHOUT_3), (3, WITHOUT_3)]);
    StarTableErases();
  }
}
