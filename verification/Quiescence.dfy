/** What still moves after convergence, as long as nothing fails: only routes above INFINITY, and each of
    them at most once. */
module Quiescence {
  import opened Protocol
  import opened TableSpec
  import opened TableLaws
  import opened Graph
  import opened Network
  import opened Soundness
  import opened FifoRuns
  import opened SplitHorizon
  import opened Convergence
  import opened FairRuns

  // ---------- One delivery ----------

  /** A row that meets a route above INFINITY, which it takes down to INFINITY: another sum from the next
      hop, or a smaller sum from somebody else that split horizon does not reject. */
  ghost predicate RowCuts(cfg: Config, s: State, p: Packet, e: Route)
    requires Nbr(cfg, p.to, p.from)
  {
    match At(s, p.to, e.dest)
    case None => false
    case Some(r) =>
      var sum := LinkCost(cfg, p.to, p.from) + e.cost;
      && r.cost > INFINITY && sum != r.cost
      && (r.nextHop == p.from || (e.nextHop != p.to && sum < r.cost))
  }

  ghost predicate PacketCuts(cfg: Config, s: State, p: Packet)
    requires Nbr(cfg, p.to, p.from)
  {
    exists j :: 0 <= j < |p.routes| && RowCuts(cfg, s, p, p.routes[j])
  }

  /** Every route is exact. */
  ghost predicate Settled(cfg: Config, s: State) {
    forall u, d, c: nat :: u in cfg && IsDistance(cfg, u, d, c) ==> Exact(cfg, s, u, d, c)
  }

  lemma ConvergedIsSettled(cfg: Config, steps: seq<Step>, k: nat, b: nat)
    requires WellFormed(cfg) && FifoRun(cfg, steps) && RoundsBy(cfg, steps, k, b) && |cfg| <= k + 2
    ensures Settled(cfg, After(cfg, steps))
  {
    forall u, d, c: nat | u in cfg && IsDistance(cfg, u, d, c)
      ensures Exact(cfg, After(cfg, steps), u, d, c)
    {
      Converges(cfg, steps, k, b, u, d);
    }
  }

  /** An offered row that some walk supports is no better than the exact route of the receiver, as far as
      costs are told apart. */
  lemma OfferIsNoBetter(cfg: Config, s: State, p: Packet, e: Route)
    requires Settled(cfg, s) && Nbr(cfg, p.to, p.from) && p.to in cfg && RowSound(cfg, p.from, e)
    ensures At(s, p.to, e.dest).Some?
    ensures Sat(At(s, p.to, e.dest).value.cost) <= Sat(LinkCost(cfg, p.to, p.from) + e.cost)
  {
    var w :| Supports(cfg, p.from, e, w);
    Prepend(cfg, p.to, w);
    var c := DistanceExists(cfg, [p.to] + w);
    assert Walk(cfg, p.to, e.dest, [p.to] + w);
    assert Exact(cfg, s, p.to, e.dest, c);
  }

  lemma RowRaisesExactly(cfg: Config, s: State, p: Packet, e: Route)
    requires Settled(cfg, s) && Nbr(cfg, p.to, p.from) && p.to in cfg && RowSound(cfg, p.from, e)
    requires Get(p.routes, e.dest) == Some(e) && PacketAheadOfReceiver(cfg, s, p, e.dest)
    ensures EntryEffect(Table(s, p.to), e, HopOf(cfg, p)) == Raise <==> RowCuts(cfg, s, p, e)
  {
    OfferIsNoBetter(cfg, s, p, e);
  }

  /** In a settled state a packet in flight, old or new, changes its receiver's table exactly when one of
      its rows cuts; when none does, the result is 0. */
  lemma SettledDelivery(cfg: Config, s: State, i: nat)
    requires WellFormed(cfg) && Sound(cfg, s) && WireOrdered(cfg, s) && Settled(cfg, s) && i < |s.wire|
    ensures Nbr(cfg, s.wire[i].to, s.wire[i].from)
    ensures Received(cfg, s, s.wire[i]) != Table(s, s.wire[i].to) <==> PacketCuts(cfg, s, s.wire[i])
    ensures !PacketCuts(cfg, s, s.wire[i]) ==>
              !UpdateFlag(Table(s, s.wire[i].to), s.wire[i].routes, HopOf(cfg, s.wire[i]))
  {
    var p := s.wire[i];
    assert PacketSound(cfg, s, s.wire[i]);
    assert PacketOrdered(cfg, s, s.wire[i]);
    NbrIsOther(cfg, p.to, p.from);
    var t, h := Table(s, p.to), HopOf(cfg, p);
    forall j | 0 <= j < |p.routes|
      ensures EntryEffect(t, p.routes[j], h) == Raise <==> RowCuts(cfg, s, p, p.routes[j])
    {
      var e := p.routes[j];
      GetOfRow(p.routes, j);
      assert e in p.routes && PacketAheadOfReceiver(cfg, s, p, e.dest);
      RowRaisesExactly(cfg, s, p, e);
    }
    TableChangeExact(t, p.routes, h);
    FlagExact(t, p.routes, h);
  }

  /** After convergence the delivery of any packet in flight changes the table of its receiver exactly when
      one of its rows cuts a route above INFINITY. Otherwise it reports 0. */
  lemma DeliveriesChangeExactly(cfg: Config, steps: seq<Step>, k: nat, b: nat, i: nat)
    requires WellFormed(cfg) && FifoRun(cfg, steps) && RoundsBy(cfg, steps, k, b) && |cfg| <= k + 2
    requires i < |After(cfg, steps).wire|
    ensures var s := After(cfg, steps);
            var p := s.wire[i];
            && Nbr(cfg, p.to, p.from)
            && (Received(cfg, s, p) != Table(s, p.to) <==> PacketCuts(cfg, s, p))
            && (!PacketCuts(cfg, s, p) ==> !UpdateFlag(Table(s, p.to), p.routes, HopOf(cfg, p)))
  {
    AlwaysSound(cfg, steps);
    AlwaysOrdered(cfg, steps);
    ConvergedIsSettled(cfg, steps, k, b);
    SettledDelivery(cfg, After(cfg, steps), i);
  }

  // ---------- Routes above INFINITY ----------

  /** Router u has a route to d above INFINITY. */
  ghost predicate High(s: State, u: nat, d: nat) {
    At(s, u, d).Some? && At(s, u, d).value.cost > INFINITY
  }

  /** Routes that are known and not above INFINITY. */
  ghost predicate Low(s: State, u: nat, d: nat) {
    At(s, u, d).Some? && At(s, u, d).value.cost <= INFINITY
  }

  lemma ReceiverStaysLow(cfg: Config, s: State, p: Packet, d: nat)
    requires Nbr(cfg, p.to, p.from) && Distinct(p.routes) && Low(s, p.to, d)
    ensures var known := Get(Received(cfg, s, p), d); known.Some? && known.value.cost <= INFINITY
  {
    UpdatePointwise(Table(s, p.to), p.routes, HopOf(cfg, p), d);
  }

  /** A route that is not above INFINITY never gets there, also not in runs with failures. */
  lemma StepKeepsLow(cfg: Config, s: State, step: Step, u: nat, d: nat)
    requires Sound(cfg, s) && Low(s, u, d)
    ensures Low(Next(cfg, s, step), u, d)
  {
    if step.Deliver? && step.index < |s.wire| && s.wire[step.index].to == u {
      assert PacketSound(cfg, s, s.wire[step.index]);
      ReceiverStaysLow(cfg, s, s.wire[step.index], d);
    } else if step.Timeout? && step.router == u {
      GetUninstall(Table(s, u), step.nbr, d);
    }
  }

  lemma LastStep(cfg: Config, steps: seq<Step>, more: seq<Step>)
    requires more != []
    ensures var run := steps + more[..|more| - 1];
            && After(cfg, steps + more) == Next(cfg, After(cfg, run), more[|more| - 1])
            && (FifoRun(cfg, steps + more) ==> FifoRun(cfg, run) && FifoStep(After(cfg, run), more[|more| - 1]))
  {
    assert (steps + more)[..|steps + more| - 1] == steps + more[..|more| - 1];
  }

  lemma {:induction false} LowStaysLow(cfg: Config, steps: seq<Step>, more: seq<Step>, u: nat, d: nat)
    requires WellFormed(cfg) && Low(After(cfg, steps), u, d)
    ensures Low(After(cfg, steps + more), u, d)
  {
    if more == [] {
      assert steps + more == steps;
    } else {
      LastStep(cfg, steps, more);
      LowStaysLow(cfg, steps, more[..|more| - 1], u, d);
      AlwaysSound(cfg, steps + more[..|more| - 1]);
      StepKeepsLow(cfg, After(cfg, steps + more[..|more| - 1]), more[|more| - 1], u, d);
    }
  }

  // ---------- Continuations ----------

  /** After the run, the step delivers a packet that cuts. */
  ghost predicate Cuts(cfg: Config, run: seq<Step>, step: Step) {
    var s := After(cfg, run);
    && step.Deliver? && step.index < |s.wire|
    && Nbr(cfg, s.wire[step.index].to, s.wire[step.index].from)
    && PacketCuts(cfg, s, s.wire[step.index])
  }

  lemma StepChangesTables(cfg: Config, s: State, step: Step)
    requires s.tables.Keys == cfg.Keys && (step.Advertise? || step.Deliver? || step.Lose?)
    ensures Next(cfg, s, step).tables != s.tables <==>
            && step.Deliver? && step.index < |s.wire|
            && Nbr(cfg, s.wire[step.index].to, s.wire[step.index].from)
            && Received(cfg, s, s.wire[step.index]) != Table(s, s.wire[step.index].to)
  {
    if step.Deliver? && step.index < |s.wire| && Nbr(cfg, s.wire[step.index].to, s.wire[step.index].from) {
      var p := s.wire[step.index];
      assert Next(cfg, s, step).tables[p.to] == Received(cfg, s, p);
    }
  }

  /** After convergence a step without failure changes a table exactly when it cuts. */
  lemma NextChangesExactly(cfg: Config, run: seq<Step>, step: Step, k: nat, b: nat)
    requires WellFormed(cfg) && FifoRun(cfg, run) && RoundsBy(cfg, run, k, b) && |cfg| <= k + 2
    requires FifoStep(After(cfg, run), step)
    ensures Next(cfg, After(cfg, run), step).tables != After(cfg, run).tables <==> Cuts(cfg, run, step)
  {
    AlwaysSound(cfg, run);
    StepChangesTables(cfg, After(cfg, run), step);
    if step.Deliver? && step.index < |After(cfg, run).wire| {
      DeliveriesChangeExactly(cfg, run, k, b, step.index);
    }
  }

  lemma {:induction false} UncutTablesStay(cfg: Config, steps: seq<Step>, more: seq<Step>, k: nat, b: nat)
    requires WellFormed(cfg) && FifoRun(cfg, steps + more) && RoundsBy(cfg, steps, k, b) && |cfg| <= k + 2
    requires forall j :: 0 <= j < |more| ==> !Cuts(cfg, steps + more[..j], more[j])
    ensures After(cfg, steps + more).tables == After(cfg, steps).tables
  {
    if more == [] {
      assert steps + more == steps;
    } else {
      var n := |more| - 1;
      assert forall j :: 0 <= j < n ==> more[..n][..j] == more[..j];
      LastStep(cfg, steps, more);
      UncutTablesStay(cfg, steps, more[..n], k, b);
      RoundsInLongerRun(cfg, steps, more[..n], k, b);
      NextChangesExactly(cfg, steps + more[..n], more[n], k, b);
    }
  }

  /** What is above INFINITY later was so after convergence. */
  lemma HighWasHigh(cfg: Config, s: State, s': State, u: nat, d: nat)
    requires Settled(cfg, s) && Sound(cfg, s') && u in cfg && High(s', u, d)
    requires Low(s, u, d) ==> Low(s', u, d)
    ensures High(s, u, d)
  {
    RouteMeansReachable(cfg, s', u, d);
    var c: nat :| IsDistance(cfg, u, d, c);
    assert Exact(cfg, s, u, d, c);
  }

  lemma RowLowers(cfg: Config, s: State, p: Packet, j: nat)
    requires Nbr(cfg, p.to, p.from) && Distinct(p.routes) && j < |p.routes| && RowCuts(cfg, s, p, p.routes[j])
    ensures High(s, p.to, p.routes[j].dest)
    ensures var known := Get(Received(cfg, s, p), p.routes[j].dest); known.Some? && known.value.cost <= INFINITY
  {
    GetOfRow(p.routes, j);
    UpdatePointwise(Table(s, p.to), p.routes, HopOf(cfg, p), p.routes[j].dest);
  }

  /** A cutting step takes some route from above INFINITY down. */
  lemma CutLowers(cfg: Config, run: seq<Step>, step: Step) returns (u: nat, d: nat)
    requires WellFormed(cfg) && Cuts(cfg, run, step)
    ensures u in cfg && High(After(cfg, run), u, d) && Low(Next(cfg, After(cfg, run), step), u, d)
  {
    var s := After(cfg, run);
    var p := s.wire[step.index];
    var j :| 0 <= j < |p.routes| && RowCuts(cfg, s, p, p.routes[j]);
    AlwaysSound(cfg, run);
    assert PacketSound(cfg, s, s.wire[step.index]);
    RowLowers(cfg, s, p, j);
    u, d := p.to, p.routes[j].dest;
  }

  lemma HighSinceConvergence(cfg: Config, steps: seq<Step>, more: seq<Step>, u: nat, d: nat)
    requires WellFormed(cfg) && Settled(cfg, After(cfg, steps)) && u in cfg
    requires High(After(cfg, steps + more), u, d)
    ensures High(After(cfg, steps), u, d)
  {
    AlwaysSound(cfg, steps + more);
    if Low(After(cfg, steps), u, d) {
      LowStaysLow(cfg, steps, more, u, d);
    }
    HighWasHigh(cfg, After(cfg, steps), After(cfg, steps + more), u, d);
  }

  lemma LowFromThenOn(cfg: Config, run: seq<Step>, step: Step, more: seq<Step>, u: nat, d: nat)
    requires WellFormed(cfg) && Low(Next(cfg, After(cfg, run), step), u, d)
    ensures Low(After(cfg, run + [step] + more), u, d)
  {
    LastStep(cfg, run, [step]);
    assert run + [step][..0] == run;
    LowStaysLow(cfg, run + [step], more, u, d);
  }

  lemma DifferentTables(s: State, s': State, u: nat, d: nat)
    requires High(s, u, d) && Low(s', u, d)
    ensures s'.tables != s.tables
  {
  }

  lemma CutChangesForEver(cfg: Config, steps: seq<Step>, before: seq<Step>, step: Step, rest: seq<Step>)
    requires WellFormed(cfg) && Settled(cfg, After(cfg, steps)) && Cuts(cfg, steps + before, step)
    ensures After(cfg, steps + before + [step] + rest).tables != After(cfg, steps).tables
  {
    var u, d := CutLowers(cfg, steps + before, step);
    HighSinceConvergence(cfg, steps, before, u, d);
    LowFromThenOn(cfg, steps + before, step, rest, u, d);
    DifferentTables(After(cfg, steps), After(cfg, steps + before + [step] + rest), u, d);
  }

  lemma Rejoined(steps: seq<Step>, more: seq<Step>, j: nat)
    requires j < |more|
    ensures steps + more[..j] + [more[j]] + more[j + 1..] == steps + more
  {
  }

  lemma CutIsForEver(cfg: Config, steps: seq<Step>, more: seq<Step>, j: nat)
    requires WellFormed(cfg) && Settled(cfg, After(cfg, steps))
    requires j < |more| && Cuts(cfg, steps + more[..j], more[j])
    ensures After(cfg, steps + more).tables != After(cfg, steps).tables
  {
    Rejoined(steps, more, j);
    CutChangesForEver(cfg, steps, more[..j], more[j], more[j + 1..]);
  }

  /** Over a continuation without failures the tables stay what they were after convergence, exactly when
      none of its deliveries cuts. */
  lemma TablesStayExactly(cfg: Config, steps: seq<Step>, more: seq<Step>, k: nat, b: nat)
    requires WellFormed(cfg) && FifoRun(cfg, steps + more) && RoundsBy(cfg, steps, k, b) && |cfg| <= k + 2
    ensures After(cfg, steps + more).tables == After(cfg, steps).tables <==>
            forall j :: 0 <= j < |more| ==> !Cuts(cfg, steps + more[..j], more[j])
  {
    PrefixIsFifo(cfg, steps + more, |steps|);
    assert (steps + more)[..|steps|] == steps;
    ConvergedIsSettled(cfg, steps, k, b);
    if j :| 0 <= j < |more| && Cuts(cfg, steps + more[..j], more[j]) {
      CutIsForEver(cfg, steps, more, j);
    } else {
      UncutTablesStay(cfg, steps, more, k, b);
    }
  }

  // ---------- How often ----------

  ghost function HighPairs(cfg: Config, s: State): set<(nat, nat)> {
    set u, d | u in cfg && d in cfg && High(s, u, d) :: (u, d)
  }

  /** The number of steps of the continuation after which some table is another one than before. */
  ghost function ChangeCount(cfg: Config, steps: seq<Step>, more: seq<Step>): nat {
    if more == [] then 0
    else
      var run := steps + more[..|more| - 1];
      ChangeCount(cfg, steps, more[..|more| - 1])
      + if Next(cfg, After(cfg, run), more[|more| - 1]).tables != After(cfg, run).tables then 1 else 0
  }

  lemma SubsetIsNoLarger<T>(a: set<T>, b: set<T>)
    requires a <= b
    ensures |a| <= |b| && (a != b ==> |a| < |b|)
  {
    assert b == a + (b - a);
  }

  lemma HighPairsShrink(cfg: Config, run: seq<Step>, step: Step)
    requires WellFormed(cfg) && Settled(cfg, After(cfg, run))
    ensures HighPairs(cfg, Next(cfg, After(cfg, run), step)) <= HighPairs(cfg, After(cfg, run))
  {
    var s, s' := After(cfg, run), Next(cfg, After(cfg, run), step);
    AlwaysSound(cfg, run);
    StepSound(cfg, s, step);
    forall u, d | (u, d) in HighPairs(cfg, s') ensures High(s, u, d) {
      if Low(s, u, d) {
        StepKeepsLow(cfg, s, step, u, d);
      }
      HighWasHigh(cfg, s, s', u, d);
    }
  }

  lemma OnePairLess(cfg: Config, s: State, s': State, u: nat, d: nat)
    requires u in cfg && d in cfg && High(s, u, d) && Low(s', u, d)
    ensures HighPairs(cfg, s') != HighPairs(cfg, s)
  {
    assert (u, d) in HighPairs(cfg, s);
  }

  lemma CutShrinksHighPairs(cfg: Config, run: seq<Step>, step: Step)
    requires WellFormed(cfg) && Cuts(cfg, run, step)
    ensures HighPairs(cfg, Next(cfg, After(cfg, run), step)) != HighPairs(cfg, After(cfg, run))
  {
    var u, d := CutLowers(cfg, run, step);
    AlwaysSound(cfg, run);
    KnownIsRouter(cfg, After(cfg, run), u, d);
    OnePairLess(cfg, After(cfg, run), Next(cfg, After(cfg, run), step), u, d);
  }

  lemma FewerAreHigh(cfg: Config, run: seq<Step>, step: Step, k: nat, b: nat)
    requires WellFormed(cfg) && FifoRun(cfg, run) && RoundsBy(cfg, run, k, b) && |cfg| <= k + 2
    requires FifoStep(After(cfg, run), step)
    ensures var s, s' := After(cfg, run), Next(cfg, After(cfg, run), step);
            |HighPairs(cfg, s')| + (if s'.tables != s.tables then 1 else 0) <= |HighPairs(cfg, s)|
  {
    var s, s' := After(cfg, run), Next(cfg, After(cfg, run), step);
    NextChangesExactly(cfg, run, step, k, b);
    ConvergedIsSettled(cfg, run, k, b);
    HighPairsShrink(cfg, run, step);
    SubsetIsNoLarger(HighPairs(cfg, s'), HighPairs(cfg, s));
    if Cuts(cfg, run, step) {
      CutShrinksHighPairs(cfg, run, step);
    }
  }

  /** After convergence at most as many steps without failure change a table as there are routes above
      INFINITY, and each leaves fewer of them. */
  lemma {:induction false} ChangesAreFew(cfg: Config, steps: seq<Step>, more: seq<Step>, k: nat, b: nat)
    requires WellFormed(cfg) && FifoRun(cfg, steps + more) && RoundsBy(cfg, steps, k, b) && |cfg| <= k + 2
    ensures ChangeCount(cfg, steps, more) + |HighPairs(cfg, After(cfg, steps + more))|
            <= |HighPairs(cfg, After(cfg, steps))|
  {
    if more == [] {
      assert steps + more == steps;
    } else {
      var less := more[..|more| - 1];
      LastStep(cfg, steps, more);
      ChangesAreFew(cfg, steps, less, k, b);
      RoundsInLongerRun(cfg, steps, less, k, b);
      FewerAreHigh(cfg, steps + less, more[|more| - 1], k, b);
    }
  }

  // ---------- Networks that are quiet at once ----------

  lemma NothingToCut(cfg: Config, steps: seq<Step>, more: seq<Step>, k: nat, b: nat, j: nat)
    requires WellFormed(cfg) && FifoRun(cfg, steps) && RoundsBy(cfg, steps, k, b) && |cfg| <= k + 2
    requires NoneAboveInfinity(cfg, steps) && j < |more|
    ensures !Cuts(cfg, steps + more[..j], more[j])
  {
    if Cuts(cfg, steps + more[..j], more[j]) {
      var u, d := CutLowers(cfg, steps + more[..j], more[j]);
      ConvergedIsSettled(cfg, steps, k, b);
      HighSinceConvergence(cfg, steps, more[..j], u, d);
    }
  }

  /** When no route is above INFINITY after convergence, the tables stay for ever. This covers all networks
      of SplitHorizon.CheapPaths, and those in which all distances are below INFINITY. */
  lemma TablesStayForever(cfg: Config, steps: seq<Step>, more: seq<Step>, k: nat, b: nat)
    requires WellFormed(cfg) && FifoRun(cfg, steps + more) && RoundsBy(cfg, steps, k, b) && |cfg| <= k + 2
    requires NoneAboveInfinity(cfg, steps)
    ensures After(cfg, steps + more).tables == After(cfg, steps).tables
  {
    PrefixIsFifo(cfg, steps + more, |steps|);
    assert (steps + more)[..|steps|] == steps;
    forall j | 0 <= j < |more| ensures !Cuts(cfg, steps + more[..j], more[j]) {
      NothingToCut(cfg, steps, more, k, b, j);
    }
    TablesStayExactly(cfg, steps, more, k, b);
  }

  /** Whatever can be reached can be reached at a cost below INFINITY. */
  ghost predicate AllNear(cfg: Config) {
    forall u, d, c: nat :: IsDistance(cfg, u, d, c) ==> c < INFINITY
  }

  lemma NearIsLow(cfg: Config, steps: seq<Step>, k: nat, b: nat)
    requires WellFormed(cfg) && AllNear(cfg)
    requires FifoRun(cfg, steps) && RoundsBy(cfg, steps, k, b) && |cfg| <= k + 2
    ensures NoneAboveInfinity(cfg, steps)
  {
    ConvergedIsSettled(cfg, steps, k, b);
    AlwaysSound(cfg, steps);
    var s := After(cfg, steps);
    forall u, d | u in cfg && At(s, u, d).Some? ensures At(s, u, d).value.cost <= INFINITY {
      RouteMeansReachable(cfg, s, u, d);
      var c: nat :| IsDistance(cfg, u, d, c);
      assert Exact(cfg, s, u, d, c);
    }
  }

  /** With all distances below INFINITY the delivery of any packet in flight changes nothing and reports 0. */
  lemma DeliveriesAreQuiet(cfg: Config, steps: seq<Step>, k: nat, b: nat, i: nat)
    requires WellFormed(cfg) && AllNear(cfg)
    requires FifoRun(cfg, steps) && RoundsBy(cfg, steps, k, b) && |cfg| <= k + 2
    requires i < |After(cfg, steps).wire|
    ensures var s := After(cfg, steps);
            var p := s.wire[i];
            && Nbr(cfg, p.to, p.from) && Received(cfg, s, p) == Table(s, p.to)
            && !UpdateFlag(Table(s, p.to), p.routes, HopOf(cfg, p))
  {
    NearIsLow(cfg, steps, k, b);
    DeliveriesChangeExactly(cfg, steps, k, b, i);
    AlwaysSound(cfg, steps);
    assert PacketSound(cfg, After(cfg, steps), After(cfg, steps).wire[i]);
  }
}
