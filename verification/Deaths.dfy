/** What the network learns of a neighbour that was declared dead: until it is heard again, whoever declared
    it dead says 999 about every route over it, and whoever hears this over such a route says 999, too. */
module Deaths {
  import opened Protocol
  import opened TableSpec
  import opened TableLaws
  import opened Graph
  import opened Network
  import opened Soundness
  import opened FifoRuns
  import opened Bounds

  ghost predicate Cost999(rows: seq<Route>, v: nat) {
    forall r :: r in rows && r.nextHop == v ==> r.cost == 999
  }

  /** All routes of u over v cost 999, in its table and in all packets that it sent at the given time or
      later. */
  ghost predicate GivenUp(s: State, u: nat, v: nat, since: nat) {
    && Cost999(Table(s, u), v)
    && forall i :: 0 <= i < |s.wire| && s.wire[i].from == u && s.wire[i].stamp >= since ==>
         Cost999(s.wire[i].routes, v)
  }

  /** The step lets u hear from v. */
  ghost predicate Tells(s: State, step: Step, v: nat, u: nat) {
    step.Deliver? && step.index < |s.wire| && s.wire[step.index].from == v && s.wire[step.index].to == u
  }

  /** No step of the continuation does. */
  ghost predicate Unheard(cfg: Config, steps: seq<Step>, more: seq<Step>, v: nat, u: nat) {
    more != [] ==>
      && Unheard(cfg, steps, more[..|more| - 1], v, u)
      && !Tells(After(cfg, steps + more[..|more| - 1]), more[|more| - 1], v, u)
  }

  lemma {:induction false} UpdateFromOthers(t: seq<Route>, es: seq<Route>, h: Hop, v: nat)
    requires Cost999(t, v) && h.sender != v
    ensures Cost999(UpdateTable(t, es, h), v)
  {
    UpdateKeepsRows(t, es, h, (r: Route) => r.nextHop == v ==> r.cost == 999, (e: Route) => true);
  }

  lemma TimeoutKeeps999(t: seq<Route>, dead: nat, v: nat)
    requires Cost999(t, v) || dead == v
    ensures Cost999(Uninstall(t, dead), v)
  {
    var t' := Uninstall(t, dead);
    forall r | r in t' && r.nextHop == v ensures r.cost == 999 {
      var i :| 0 <= i < |t'| && t'[i] == r;
      assert t[i] in t;
    }
  }

  lemma TableStaysGivenUp(cfg: Config, s: State, step: Step, u: nat, v: nat)
    requires Cost999(Table(s, u), v) && !Tells(s, step, v, u)
    ensures Cost999(Table(Next(cfg, s, step), u), v)
  {
    if step.Deliver? && step.index < |s.wire| && s.wire[step.index].to == u && Nbr(cfg, u, s.wire[step.index].from) {
      UpdateFromOthers(Table(s, u), s.wire[step.index].routes, HopOf(cfg, s.wire[step.index]), v);
    } else if step.Timeout? && step.router == u && Nbr(cfg, u, step.nbr) && u in s.tables {
      TimeoutChanges(cfg, s, u, step.nbr);
      TimeoutKeeps999(Table(s, u), step.nbr, v);
    }
  }

  lemma WireStaysGivenUp(cfg: Config, s: State, step: Step, u: nat, v: nat, since: nat, i: nat)
    requires GivenUp(s, u, v, since) && i < |Next(cfg, s, step).wire|
    requires Next(cfg, s, step).wire[i].from == u && Next(cfg, s, step).wire[i].stamp >= since
    ensures Cost999(Next(cfg, s, step).wire[i].routes, v)
  {
    var p := Next(cfg, s, step).wire[i];
    if p in s.wire {
      var k :| 0 <= k < |s.wire| && s.wire[k] == p;
    } else {
      assert p.routes == Table(s, u);
    }
  }

  lemma StepStaysGivenUp(cfg: Config, s: State, step: Step, u: nat, v: nat, since: nat)
    requires GivenUp(s, u, v, since) && !Tells(s, step, v, u)
    ensures GivenUp(Next(cfg, s, step), u, v, since)
  {
    var s' := Next(cfg, s, step);
    TableStaysGivenUp(cfg, s, step, u, v);
    forall i | 0 <= i < |s'.wire| && s'.wire[i].from == u && s'.wire[i].stamp >= since
      ensures Cost999(s'.wire[i].routes, v)
    {
      WireStaysGivenUp(cfg, s, step, u, v, since, i);
    }
  }

  lemma TimeoutGivesUp(cfg: Config, s: State, u: nat, v: nat)
    requires WellFormed(cfg) && Sound(cfg, s) && Nbr(cfg, u, v)
    ensures GivenUp(Next(cfg, s, Timeout(u, v)), u, v, s.time)
  {
    var s' := Next(cfg, s, Timeout(u, v));
    NbrIsOther(cfg, u, v);
    TimeoutChanges(cfg, s, u, v);
    TimeoutKeeps999(Table(s, u), v, v);
    forall i | 0 <= i < |s'.wire| ensures s'.wire[i].stamp < s.time {
      assert PacketSound(cfg, s, s.wire[i]);
    }
  }

  lemma Rejoined(steps: seq<Step>, more: seq<Step>)
    requires more != []
    ensures steps + more[..|more| - 1] + [more[|more| - 1]] == steps + more
  {
  }

  lemma OnceMoreGivenUp(cfg: Config, steps: seq<Step>, more: seq<Step>, u: nat, v: nat, since: nat)
    requires more != [] && GivenUp(After(cfg, steps + more[..|more| - 1]), u, v, since)
    requires !Tells(After(cfg, steps + more[..|more| - 1]), more[|more| - 1], v, u)
    ensures GivenUp(After(cfg, steps + more), u, v, since)
  {
    var less, last := more[..|more| - 1], more[|more| - 1];
    StepStaysGivenUp(cfg, After(cfg, steps + less), last, u, v, since);
    FifoAppends(cfg, steps + less, last);
    Rejoined(steps, more);
  }

  lemma {:induction false} StaysGivenUp(cfg: Config, steps: seq<Step>, more: seq<Step>, u: nat, v: nat, since: nat)
    requires GivenUp(After(cfg, steps), u, v, since) && Unheard(cfg, steps, more, v, u)
    ensures GivenUp(After(cfg, steps + more), u, v, since)
  {
    if more == [] {
      assert steps + more == steps;
    } else {
      StaysGivenUp(cfg, steps, more[..|more| - 1], u, v, since);
      OnceMoreGivenUp(cfg, steps, more, u, v, since);
    }
  }

  /** From a declaration on until v is heard again, whatever else happens, u has only routes over v that cost
      999, and it sends only such routes. */
  lemma DeadRoutesCost999(cfg: Config, steps: seq<Step>, more: seq<Step>, u: nat, v: nat)
    requires WellFormed(cfg) && Nbr(cfg, u, v) && Unheard(cfg, steps + [Timeout(u, v)], more, v, u)
    ensures var s := After(cfg, steps + [Timeout(u, v)] + more);
            && (forall r :: r in Table(s, u) && r.nextHop == v ==> r.cost == 999)
            && (forall p, r :: p in s.wire && p.from == u && p.stamp >= |steps| && r in p.routes && r.nextHop == v ==>
                  r.cost == 999)
  {
    AlwaysSound(cfg, steps);
    TimeoutGivesUp(cfg, After(cfg, steps), u, v);
    FifoAppends(cfg, steps, Timeout(u, v));
    StaysGivenUp(cfg, steps + [Timeout(u, v)], more, u, v, |steps|);
  }

  /** Packet p says 999 about d to a router whose route to d, which is r, goes over the sender. */
  ghost predicate BringsBadNews(s: State, p: Packet, d: nat, r: Route) {
    && Get(p.routes, d).Some? && Get(p.routes, d).value.cost == 999
    && At(s, p.to, d) == Some(r) && r.nextHop == p.from
  }

  lemma BadNewsArrives(cfg: Config, s: State, i: nat, d: nat, r: Route)
    requires i < |s.wire| && BringsBadNews(s, s.wire[i], d, r)
    requires Nbr(cfg, s.wire[i].to, s.wire[i].from) && Distinct(s.wire[i].routes)
    ensures At(Next(cfg, s, Deliver(i)), s.wire[i].to, d)
            == Some(if r.cost == LinkCost(cfg, s.wire[i].to, s.wire[i].from) + 999 then r else r.(cost := 999))
  {
    DeliveredAt(cfg, s, i, d);
  }

  /** Whoever goes to d over the sender of a packet that says 999 about d says 999 afterwards; only a cost
      above 999 that is just the sum stays. */
  lemma BadNewsTravels(cfg: Config, steps: seq<Step>, i: nat, d: nat, r: Route)
    requires WellFormed(cfg) && i < |After(cfg, steps).wire|
    requires BringsBadNews(After(cfg, steps), After(cfg, steps).wire[i], d, r)
    ensures var s, p := After(cfg, steps), After(cfg, steps).wire[i];
            && Nbr(cfg, p.to, p.from)
            && At(Next(cfg, s, Deliver(i)), p.to, d)
               == Some(if r.cost == LinkCost(cfg, p.to, p.from) + 999 then r else r.(cost := 999))
  {
    AlwaysSound(cfg, steps);
    assert PacketSound(cfg, After(cfg, steps), After(cfg, steps).wire[i]);
    BadNewsArrives(cfg, After(cfg, steps), i, d, r);
  }
}
