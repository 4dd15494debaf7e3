/** Time in a world of routers. Under a common clock each router goes through a history of its own, so that
    what holds over the histories of one router holds for all of them; and as long as every router hears
    every neighbour often enough, nobody is declared dead and the network converges. */
module Clocks {
  import opened Protocol
  import opened TableSpec
  import opened Graph
  import opened Network
  import opened Soundness
  import opened FifoRuns
  import opened Convergence
  import opened NodeSpec
  import opened NodeRuns
  import opened Simulation
  import opened Worlds

  // ---------- The history of one router ----------

  predicate Timed(act: Act) {
    act.Iterate? || act.Arrive?
  }

  /** The clock does not run backwards, and every router has started when the first act happens. */
  ghost predicate Clocked(cfg: Config, boot: nat -> nat, acts: seq<Act>) {
    && (forall i, j :: 0 <= i < j < |acts| && Timed(acts[i]) && Timed(acts[j]) ==> acts[i].now <= acts[j].now)
    && (forall u, i :: u in cfg && 0 <= i < |acts| && Timed(acts[i]) ==> boot(u) <= acts[i].now)
  }

  /** The iteration of router u that an act is, if any. */
  function EventOf(w: World, act: Act, u: nat): Option<NodeSpec.Event> {
    match act
    case Iterate(r, ready, now) =>
      if r == u && Iterates(w, u, ready, now) then Some(NodeSpec.Idle(ready, now)) else None
    case Arrive(i, now) =>
      if i < |w.wire| && Arrives(w, w.wire[i]) && w.wire[i].dest == u then Some(NodeSpec.Packet(w.wire[i], now))
      else None
    case _ => None
  }

  function EventsOf(cfg: Config, boot: nat -> nat, acts: seq<Act>, u: nat): seq<NodeSpec.Event> {
    if acts == [] then []
    else
      var before := acts[..|acts| - 1];
      match EventOf(WorldAfter(cfg, boot, before), acts[|acts| - 1], u)
      case None => EventsOf(cfg, boot, before, u)
      case Some(e) => EventsOf(cfg, boot, before, u) + [e]
  }

  /** Every event happens at the time of an act. */
  lemma {:induction false} EventsAreTimed(cfg: Config, boot: nat -> nat, acts: seq<Act>, u: nat, k: nat)
    requires k < |EventsOf(cfg, boot, acts, u)|
    ensures exists i :: 0 <= i < |acts| && Timed(acts[i]) && acts[i].now == EventsOf(cfg, boot, acts, u)[k].now
  {
    var before := acts[..|acts| - 1];
    if k < |EventsOf(cfg, boot, before, u)| {
      EventsAreTimed(cfg, boot, before, u, k);
      var i :| 0 <= i < |before| && Timed(before[i]) && before[i].now == EventsOf(cfg, boot, before, u)[k].now;
      assert acts[i] == before[i];
    } else {
      assert Timed(acts[|acts| - 1]);
    }
  }

  /** What an act does to router u is what its iteration does. */
  lemma ActIsEvent(cfg: Config, w: World, act: Act, u: nat)
    requires u in w.nodes && w.nodes[u].WellFormed()
    ensures u in Happens(w, act).nodes
    ensures match EventOf(w, act, u)
            case None => Happens(w, act).nodes[u] == w.nodes[u]
            case Some(e) => Possible(w.nodes[u], e) && Happens(w, act).nodes[u] == Handle(w.nodes[u], e)
  {
  }

  ghost predicate LivesThrough(cfg: Config, boot: nat -> nat, acts: seq<Act>, u: nat)
    requires u in cfg && cfg[u].FitsArrays()
  {
    var start, w := Boot(u, cfg[u], boot(u)), WorldAfter(cfg, boot, acts);
    && History(start, EventsOf(cfg, boot, acts, u))
    && u in w.nodes && w.nodes[u] == NodeAfter(start, EventsOf(cfg, boot, acts, u))
  }

  lemma ClockedPrefix(cfg: Config, boot: nat -> nat, acts: seq<Act>, k: nat)
    requires Clocked(cfg, boot, acts) && k <= |acts|
    ensures Clocked(cfg, boot, acts[..k])
  {
  }

  /** The acts of a world are a history of each of its routers, which leads to the node that the world
      has. */
  lemma {:induction false} RoutersHaveHistories(cfg: Config, boot: nat -> nat, acts: seq<Act>, u: nat)
    requires WellFormed(cfg) && u in cfg && Clocked(cfg, boot, acts)
    ensures cfg[u].FitsArrays() && LivesThrough(cfg, boot, acts, u)
  {
    assert NbrsOfRouter(cfg, u);
    if acts != [] {
      var before, act := acts[..|acts| - 1], acts[|acts| - 1];
      var w, es := WorldAfter(cfg, boot, before), EventsOf(cfg, boot, before, u);
      ClockedPrefix(cfg, boot, acts, |acts| - 1);
      RoutersHaveHistories(cfg, boot, before, u);
      ActIsEvent(cfg, w, act, u);
      if EventOf(w, act, u).Some? {
        if es != [] {
          EventsAreTimed(cfg, boot, before, u, |es| - 1);
        }
        OneMoreEvent(Boot(u, cfg[u], boot(u)), es, EventOf(w, act, u).value);
      }
    }
  }

  lemma NbrsAreDistinct(cfg: Config, u: nat)
    requires NbrsWellFormed(cfg) && u in cfg
    ensures cfg[u].FitsArrays() && DistinctNbrs(cfg[u])
  {
    assert NbrsOfRouter(cfg, u);
  }

  /** While a router marks a neighbour as dead, all its routes over it cost INFINITY. */
  lemma DeadStayUninstalledEverywhere(cfg: Config, boot: nat -> nat, acts: seq<Act>, u: nat)
    requires WellFormed(cfg) && u in cfg && Clocked(cfg, boot, acts)
    ensures var w := WorldAfter(cfg, boot, acts);
            u in w.nodes && w.nodes[u].WellFormed() && DeadUninstalled(w.nodes[u])
  {
    NbrsAreDistinct(cfg, u);
    RoutersHaveHistories(cfg, boot, acts, u);
    DeadStayUninstalled(u, cfg[u], boot(u), EventsOf(cfg, boot, acts, u));
  }

  lemma FlyingRowsAreDistinct(cfg: Config, boot: nat -> nat, acts: seq<Act>, i: nat)
    requires WellFormed(cfg) && i < |WorldAfter(cfg, boot, acts).wire|
    ensures Distinct(WorldAfter(cfg, boot, acts).wire[i].routes)
  {
    WorldsAreRuns(cfg, boot, acts);
    DestinationsAreDistinctAndFit(cfg, RunOf(cfg, boot, acts));
    var s := After(cfg, RunOf(cfg, boot, acts));
    assert SamePacket(WorldAfter(cfg, boot, acts).wire[i], s.wire[i]) && s.wire[i] in s.wire;
  }

  /** Packets that routers get have each destination once. */
  lemma {:induction false} HeardRowsAreDistinct(cfg: Config, boot: nat -> nat, acts: seq<Act>, u: nat)
    requires WellFormed(cfg)
    ensures forall k :: 0 <= k < |EventsOf(cfg, boot, acts, u)| && EventsOf(cfg, boot, acts, u)[k].Packet? ==>
              Distinct(EventsOf(cfg, boot, acts, u)[k].update.routes)
  {
    if acts != [] {
      var before, act := acts[..|acts| - 1], acts[|acts| - 1];
      HeardRowsAreDistinct(cfg, boot, before, u);
      if act.Arrive? && act.index < |WorldAfter(cfg, boot, before).wire| {
        FlyingRowsAreDistinct(cfg, boot, before, act.index);
      }
    }
  }

  /** Every route of every router says what its next hop said last. */
  lemma RoutesAreFreshEverywhere(cfg: Config, boot: nat -> nat, acts: seq<Act>, u: nat, d: nat)
    requires WellFormed(cfg) && u in cfg && Clocked(cfg, boot, acts)
    ensures cfg[u].FitsArrays() && LivesThrough(cfg, boot, acts, u)
    ensures FreshAt(Boot(u, cfg[u], boot(u)), EventsOf(cfg, boot, acts, u), d)
  {
    NbrsAreDistinct(cfg, u);
    RoutersHaveHistories(cfg, boot, acts, u);
    HeardRowsAreDistinct(cfg, boot, acts, u);
    RoutesAreFresh(Boot(u, cfg[u], boot(u)), EventsOf(cfg, boot, acts, u), d);
  }

  // ---------- Nobody is declared dead ----------

  /** At the given time router u has handled a packet from v, or has started, less than
      FAILURE_DETECTION ago. */
  ghost predicate HeardLately(cfg: Config, boot: nat -> nat, acts: seq<Act>, u: nat, v: nat, now: nat) {
    var es := EventsOf(cfg, boot, acts, u);
    || now < boot(u) + FAILURE_DETECTION
    || exists j :: 0 <= j < |es| && HearsFrom(es[j], v) && now < es[j].now + FAILURE_DETECTION
  }

  /** Whenever a router looks at its timers, it has heard every neighbour lately. */
  ghost predicate Punctual(cfg: Config, boot: nat -> nat, acts: seq<Act>) {
    forall k, v :: 0 <= k < |acts| && acts[k].Iterate? && Nbr(cfg, acts[k].router, v) ==>
      HeardLately(cfg, boot, acts[..k], acts[k].router, v, acts[k].now)
  }

  /** A timer has not expired exactly when the neighbour was heard lately. */
  lemma TimerRunsExactly(cfg: Config, boot: nat -> nat, acts: seq<Act>, u: nat, i: nat, now: nat)
    requires WellFormed(cfg) && u in cfg && Clocked(cfg, boot, acts) && cfg[u].FitsArrays() && i < cfg[u].noNbr
    ensures var w := WorldAfter(cfg, boot, acts);
            && u in w.nodes && w.nodes[u].WellFormed() && w.nodes[u].resp == cfg[u]
            && (now < w.nodes[u].deadline[i] <==>
                  HeardLately(cfg, boot, acts, u, cfg[u].nbrCost[i].nbr, now))
  {
    NbrsAreDistinct(cfg, u);
    RoutersHaveHistories(cfg, boot, acts, u);
    var es := EventsOf(cfg, boot, acts, u);
    DeadlineIsAfterLastPacket(u, cfg[u], boot(u), es, i);
    forall j | 0 <= j < |es| ensures boot(u) <= es[j].now {
      EventsAreTimed(cfg, boot, acts, u, j);
    }
  }

  lemma {:induction false} NoneReadyNoTimeouts(n: Node, ready: seq<bool>, k: nat)
    requires n.WellFormed() && k <= n.resp.noNbr == |ready| && forall i :: 0 <= i < |ready| ==> !ready[i]
    ensures Timeouts(n, ready, k) == []
  {
    if k > 0 {
      NoneReadyNoTimeouts(n, ready, k - 1);
    }
  }

  /** Then no timer is ever reported as expired. */
  lemma NothingExpires(cfg: Config, boot: nat -> nat, acts: seq<Act>, u: nat, ready: seq<bool>, now: nat)
    requires WellFormed(cfg) && Clocked(cfg, boot, acts) && Iterates(WorldAfter(cfg, boot, acts), u, ready, now)
    requires forall v :: Nbr(cfg, u, v) ==> HeardLately(cfg, boot, acts, u, v, now)
    ensures u in cfg && StepsOf(WorldAfter(cfg, boot, acts), Iterate(u, ready, now)) == [Advertise(u)]
  {
    WorldsAreRuns(cfg, boot, acts);
    var n := WorldAfter(cfg, boot, acts).nodes[u];
    forall i | 0 <= i < n.resp.noNbr ensures !ready[i] {
      NbrAt(cfg, u, i);
      TimerRunsExactly(cfg, boot, acts, u, i, now);
    }
    NoneReadyNoTimeouts(n, ready, |ready|);
  }

  // ---------- Worlds without failures ----------

  /** Act k doubles no packet, and a packet that arrives is the oldest on its link. */
  ghost predicate InSequenceAt(cfg: Config, boot: nat -> nat, acts: seq<Act>, k: nat)
    requires k < |acts|
  {
    var wire := WorldAfter(cfg, boot, acts[..k]).wire;
    && !acts[k].Copy?
    && (acts[k].Arrive? && acts[k].index < |wire| ==>
          forall m :: 0 <= m < acts[k].index ==>
            wire[m].sender != wire[acts[k].index].sender || wire[m].dest != wire[acts[k].index].dest)
  }

  ghost predicate InSequence(cfg: Config, boot: nat -> nat, acts: seq<Act>) {
    forall k :: 0 <= k < |acts| ==> InSequenceAt(cfg, boot, acts, k)
  }

  lemma ArrivesOldest(cfg: Config, w: World, s: State, i: nat)
    requires Reflects(cfg, w, s) && i < |w.wire|
    requires forall m :: 0 <= m < i ==> w.wire[m].sender != w.wire[i].sender || w.wire[m].dest != w.wire[i].dest
    ensures OldestOnLink(s.wire, i)
  {
    assert SamePacket(w.wire[i], s.wire[i]);
    forall k | 0 <= k < i ensures !SameLink(s.wire[k], s.wire[i]) {
      assert SamePacket(w.wire[k], s.wire[k]);
    }
  }

  lemma PunctualPrefix(cfg: Config, boot: nat -> nat, acts: seq<Act>, k: nat)
    requires Punctual(cfg, boot, acts) && InSequence(cfg, boot, acts) && k <= |acts|
    ensures Punctual(cfg, boot, acts[..k]) && InSequence(cfg, boot, acts[..k])
  {
    var less := acts[..k];
    forall j, v | 0 <= j < k && less[j].Iterate? && Nbr(cfg, less[j].router, v)
      ensures HeardLately(cfg, boot, less[..j], less[j].router, v, less[j].now)
    {
      assert less[..j] == acts[..j] && less[j] == acts[j];
    }
    forall j | 0 <= j < k ensures InSequenceAt(cfg, boot, less, j) {
      assert less[..j] == acts[..j] && InSequenceAt(cfg, boot, acts, j);
    }
  }

  /** An act that comes to no step or to one that is allowed without failures. */
  lemma ActIsFifo(cfg: Config, w: World, s: State, act: Act)
    requires Reflects(cfg, w, s) && !act.Copy?
    requires act.Iterate? && Iterates(w, act.router, act.ready, act.now) ==> StepsOf(w, act) == [Advertise(act.router)]
    requires act.Arrive? && act.index < |w.wire| ==>
      forall m :: 0 <= m < act.index ==>
        w.wire[m].sender != w.wire[act.index].sender || w.wire[m].dest != w.wire[act.index].dest
    ensures StepsOf(w, act) == [] || (|StepsOf(w, act)| == 1 && FifoStep(s, StepsOf(w, act)[0]))
  {
    if act.Arrive? && act.index < |w.wire| {
      ArrivesOldest(cfg, w, s, act.index);
    }
  }

  lemma StepsAreFifo(cfg: Config, run: seq<Step>, steps: seq<Step>)
    requires FifoRun(cfg, run)
    requires steps == [] || (|steps| == 1 && FifoStep(After(cfg, run), steps[0]))
    ensures FifoRun(cfg, run + steps)
  {
    if steps == [] {
      assert run + steps == run;
    } else {
      FifoAppends(cfg, run, steps[0]);
      assert run + steps == run + [steps[0]];
    }
  }

  lemma NextActIsFifo(cfg: Config, boot: nat -> nat, acts: seq<Act>)
    requires WellFormed(cfg) && Clocked(cfg, boot, acts) && acts != []
    requires Punctual(cfg, boot, acts) && InSequence(cfg, boot, acts)
    requires FifoRun(cfg, RunOf(cfg, boot, acts[..|acts| - 1]))
    ensures FifoRun(cfg, RunOf(cfg, boot, acts))
  {
    var before, act := acts[..|acts| - 1], acts[|acts| - 1];
    var w, run := WorldAfter(cfg, boot, before), RunOf(cfg, boot, before);
    WorldsAreRuns(cfg, boot, before);
    assert InSequenceAt(cfg, boot, acts, |acts| - 1);
    if act.Iterate? && Iterates(w, act.router, act.ready, act.now) {
      ClockedPrefix(cfg, boot, acts, |acts| - 1);
      NothingExpires(cfg, boot, before, act.router, act.ready, act.now);
    }
    ActIsFifo(cfg, w, After(cfg, run), act);
    StepsAreFifo(cfg, run, StepsOf(w, act));
  }

  /** A world in which every router hears every neighbour in time, and links keep the order of packets, is
      a run without failures. */
  lemma {:induction false} PunctualIsFifo(cfg: Config, boot: nat -> nat, acts: seq<Act>)
    requires WellFormed(cfg) && Clocked(cfg, boot, acts)
    requires Punctual(cfg, boot, acts) && InSequence(cfg, boot, acts)
    ensures FifoRun(cfg, RunOf(cfg, boot, acts))
  {
    if acts != [] {
      ClockedPrefix(cfg, boot, acts, |acts| - 1);
      PunctualPrefix(cfg, boot, acts, |acts| - 1);
      PunctualIsFifo(cfg, boot, acts[..|acts| - 1]);
      NextActIsFifo(cfg, boot, acts);
    }
  }

  /** The routers with their timers converge: after n - 2 rounds each has exactly the routes that Converges
      says. */
  lemma PunctualWorldsConverge(cfg: Config, boot: nat -> nat, acts: seq<Act>, k: nat, b: nat, u: nat, d: nat)
    requires WellFormed(cfg) && Clocked(cfg, boot, acts) && u in cfg
    requires Punctual(cfg, boot, acts) && InSequence(cfg, boot, acts)
    requires RoundsBy(cfg, RunOf(cfg, boot, acts), k, b) && |cfg| <= k + 2
    ensures var w, s := WorldAfter(cfg, boot, acts), After(cfg, RunOf(cfg, boot, acts));
            && u in w.nodes && w.nodes[u].table == Table(s, u)
            && (forall c: nat :: IsDistance(cfg, u, d, c) ==> ExactRoute(cfg, s, u, d, c))
            && ((forall c: nat :: !IsDistance(cfg, u, d, c)) ==> Get(w.nodes[u].table, d).None?)
  {
    WorldsAreRuns(cfg, boot, acts);
    PunctualIsFifo(cfg, boot, acts);
    Converges(cfg, RunOf(cfg, boot, acts), k, b, u, d);
    assert Mirrors(cfg, After(cfg, RunOf(cfg, boot, acts)), WorldAfter(cfg, boot, acts).nodes[u]);
  }
}
