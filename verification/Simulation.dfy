/** The steps of the network are what the routers do: an iteration of a router's main loop is one
    delivery, or one advertisement followed by the timeouts it finds. */
module Simulation {
  import opened Protocol
  import opened Graph
  import opened Network
  import opened NodeSpec
  import opened NodeRuns

  /** Node n is a router of the network in state s. */
  ghost predicate Mirrors(cfg: Config, s: State, n: Node) {
    && n.WellFormed() && n.me in cfg && cfg[n.me] == n.resp
    && n.me in s.tables && Table(s, n.me) == n.table
  }

  lemma BootMirrorsInit(cfg: Config, u: nat, now: nat)
    requires WellFormed(cfg) && u in cfg
    ensures cfg[u].FitsArrays() && Mirrors(cfg, Init(cfg), Boot(u, cfg[u], now))
  {
  }

  lemma PacketIsDelivery(cfg: Config, s: State, n: Node, i: nat, now: nat)
    requires Mirrors(cfg, s, n) && i < |s.wire| && s.wire[i].to == n.me && Nbr(cfg, n.me, s.wire[i].from)
    ensures var p := s.wire[i];
            && IsNbr(n, p.from) && HopFrom(n, p.from) == HopOf(cfg, p)
            && Mirrors(cfg, Next(cfg, s, Deliver(i)), Receive(n, RtUpdate(p.from, p.to, p.routes), now))
  {
  }

  /** The timeouts among the first k neighbours. */
  function Timeouts(n: Node, ready: seq<bool>, k: nat): seq<Step>
    requires n.WellFormed() && k <= n.resp.noNbr == |ready|
  {
    if k == 0 then []
    else if ready[k - 1] && !n.dead[k - 1] then Timeouts(n, ready, k - 1) + [Timeout(n.me, n.NbrId(k - 1))]
    else Timeouts(n, ready, k - 1)
  }

  /** From state s on, the given steps. */
  function Continue(cfg: Config, s: State, steps: seq<Step>): State {
    if steps == [] then s
    else Next(cfg, Continue(cfg, s, steps[..|steps| - 1]), steps[|steps| - 1])
  }

  lemma ContinueOnce(cfg: Config, s: State, steps: seq<Step>, step: Step)
    ensures Continue(cfg, s, steps + [step]) == Next(cfg, Continue(cfg, s, steps), step)
  {
  }

  lemma OneTimeout(cfg: Config, s: State, n: Node, i: nat)
    requires WellFormed(cfg) && Mirrors(cfg, s, n) && i < n.resp.noNbr && !n.dead[i]
    ensures var s' := Next(cfg, s, Timeout(n.me, n.NbrId(i)));
            Mirrors(cfg, s', Expire(n, i)) && s'.wire == s.wire
  {
  }

  /** Looking at timer k of the iteration, in state t. */
  lemma TimerStep(cfg: Config, t: State, n: Node, ready: seq<bool>, k: nat)
    requires WellFormed(cfg) && n.WellFormed() && k < n.resp.noNbr == |ready|
    requires Mirrors(cfg, t, ExpireReady(n, ready, k))
    ensures var t' := if ready[k] && !n.dead[k] then Next(cfg, t, Timeout(n.me, n.NbrId(k))) else t;
            Mirrors(cfg, t', ExpireReady(n, ready, k + 1)) && t'.wire == t.wire
  {
    ExpireReadyMarks(n, ready, k);
    if ready[k] && !n.dead[k] {
      OneTimeout(cfg, t, ExpireReady(n, ready, k), k);
    }
  }

  lemma {:induction false} TimersAreTimeouts(cfg: Config, s: State, n: Node, ready: seq<bool>, k: nat)
    requires WellFormed(cfg) && Mirrors(cfg, s, n) && k <= n.resp.noNbr == |ready|
    ensures var s' := Continue(cfg, s, Timeouts(n, ready, k));
            Mirrors(cfg, s', ExpireReady(n, ready, k)) && s'.wire == s.wire
  {
    if k > 0 {
      var before := Timeouts(n, ready, k - 1);
      TimersAreTimeouts(cfg, s, n, ready, k - 1);
      TimerStep(cfg, Continue(cfg, s, before), n, ready, k - 1);
      ContinueOnce(cfg, s, before, Timeout(n.me, n.NbrId(k - 1)));
    }
  }

  /** An iteration without a packet: the old table goes to every neighbour, then the timeouts. */
  lemma IdleIsAdvertisementAndTimeouts(cfg: Config, s: State, n: Node, ready: seq<bool>)
    requires WellFormed(cfg) && Mirrors(cfg, s, n) && |ready| == n.resp.noNbr
    ensures var s' := Continue(cfg, Next(cfg, s, Advertise(n.me)), Timeouts(n, ready, |ready|));
            && Mirrors(cfg, s', ExpireReady(n, ready, |ready|))
            && s'.wire == s.wire + Adverts(cfg, s, n.me)
  {
    TimersAreTimeouts(cfg, Next(cfg, s, Advertise(n.me)), n, ready, |ready|);
  }
}
