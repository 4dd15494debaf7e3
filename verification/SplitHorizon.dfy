/** The protocol without the split-horizon test, over whole runs without failures. */
module SplitHorizon {
  import opened Protocol
  import opened TableLaws
  import opened Graph
  import opened Network
  import opened FifoRuns
  import opened Bounds

  /** Next, with the receiver accepting routes that lead back to itself. */
  function NextPlain(cfg: Config, s: State, step: Step): State {
    if step.Deliver? && step.index < |s.wire| && Nbr(cfg, s.wire[step.index].to, s.wire[step.index].from) then
      var p := s.wire[step.index];
      State(s.time + 1, s.tables[p.to := UpdatePlain(Table(s, p.to), p.routes, HopOf(cfg, p))],
            Without(s.wire, step.index))
    else Next(cfg, s, step)
  }

  function AfterPlain(cfg: Config, steps: seq<Step>): State {
    if steps == [] then Init(cfg)
    else NextPlain(cfg, AfterPlain(cfg, steps[..|steps| - 1]), steps[|steps| - 1])
  }

  // ---------- Exactly when whole runs agree ----------

  /** The two protocols are in the same state, table by table and packet by packet. */
  ghost predicate Agree(cfg: Config, steps: seq<Step>) {
    AfterPlain(cfg, steps) == After(cfg, steps)
  }

  /** Step k delivers a packet with a bitten row. */
  ghost predicate Bitten(cfg: Config, steps: seq<Step>, k: nat)
    requires k < |steps|
  {
    var s := After(cfg, steps[..k]);
    && steps[k].Deliver? && steps[k].index < |s.wire|
    && var p := s.wire[steps[k].index];
       Nbr(cfg, p.to, p.from) && exists j :: 0 <= j < |p.routes| && RowBitten(cfg, s, p, p.routes[j])
  }

  lemma DeliveryAgrees(cfg: Config, s: State, p: Packet, i: nat)
    requires i < |s.wire| && p == s.wire[i] && Nbr(cfg, p.to, p.from)
    ensures NextPlain(cfg, s, Deliver(i)) == Next(cfg, s, Deliver(i)) <==>
            UpdatePlain(Table(s, p.to), p.routes, HopOf(cfg, p)) == Received(cfg, s, p)
  {
    assert NextPlain(cfg, s, Deliver(i)).tables[p.to] == UpdatePlain(Table(s, p.to), p.routes, HopOf(cfg, p));
    assert Next(cfg, s, Deliver(i)).tables[p.to] == Received(cfg, s, p);
  }

  lemma LastStepAgrees(cfg: Config, steps: seq<Step>)
    requires WellFormed(cfg) && FifoRun(cfg, steps) && steps != [] && Agree(cfg, steps[..|steps| - 1])
    ensures Agree(cfg, steps) <==> !Bitten(cfg, steps, |steps| - 1)
  {
    var before, step := steps[..|steps| - 1], steps[|steps| - 1];
    var s := After(cfg, before);
    if step.Deliver? && step.index < |s.wire| {
      SplitHorizonLosesNothing(cfg, before, step.index);
      DeliveryAgrees(cfg, s, s.wire[step.index], step.index);
    }
  }

  lemma PrefixOfPrefix(cfg: Config, steps: seq<Step>, k: nat)
    requires k < |steps|
    ensures steps[..k + 1][..k] == steps[..k]
    ensures Bitten(cfg, steps[..k + 1], k) <==> Bitten(cfg, steps, k)
  {
  }

  lemma {:induction false} UnbittenPrefixAgrees(cfg: Config, steps: seq<Step>, k: nat)
    requires WellFormed(cfg) && FifoRun(cfg, steps) && k <= |steps|
    requires forall j :: 0 <= j < |steps| ==> !Bitten(cfg, steps, j)
    ensures Agree(cfg, steps[..k])
  {
    if k > 0 {
      UnbittenPrefixAgrees(cfg, steps, k - 1);
      PrefixOfPrefix(cfg, steps, k - 1);
      PrefixIsFifo(cfg, steps, k);
      LastStepAgrees(cfg, steps[..k]);
    }
  }

  /** A run without failures goes through the same states with and without split horizon, exactly when
      none of its deliveries is bitten. */
  lemma RunsAgreeExactly(cfg: Config, steps: seq<Step>)
    requires WellFormed(cfg) && FifoRun(cfg, steps)
    ensures (forall k :: 0 <= k <= |steps| ==> Agree(cfg, steps[..k])) <==>
            (forall k :: 0 <= k < |steps| ==> !Bitten(cfg, steps, k))
  {
    if forall k :: 0 <= k < |steps| ==> !Bitten(cfg, steps, k) {
      forall k | 0 <= k <= |steps| ensures Agree(cfg, steps[..k]) {
        UnbittenPrefixAgrees(cfg, steps, k);
      }
    }
    if forall k :: 0 <= k <= |steps| ==> Agree(cfg, steps[..k]) {
      forall k | 0 <= k < |steps| ensures !Bitten(cfg, steps, k) {
        PrefixOfPrefix(cfg, steps, k);
        PrefixIsFifo(cfg, steps, k + 1);
        assert Agree(cfg, steps[..k]) && Agree(cfg, steps[..k + 1]);
        LastStepAgrees(cfg, steps[..k + 1]);
      }
    }
  }

  // ---------- Networks in which nothing is ever bitten ----------

  /** No install path costs more than INFINITY. */
  ghost predicate CheapPaths(cfg: Config) {
    forall w :: InstallPath(cfg, w) ==> WalkCost(cfg, w) <= INFINITY
  }

  ghost predicate NoneAboveInfinity(cfg: Config, steps: seq<Step>) {
    forall u, d :: u in cfg && At(After(cfg, steps), u, d).Some? ==> At(After(cfg, steps), u, d).value.cost <= INFINITY
  }

  lemma CheapRow(cfg: Config, s: State, u: nat, d: nat, r: Route)
    requires CheapPaths(cfg) && Bounded(cfg, s, u, d, Some(r), 0)
    ensures r.cost <= INFINITY
  {
    if !(u == d && r.cost == 0) {
      var w :| Explains(cfg, s, u, d, r.cost, 0, w);
      PeakWithoutBase(cfg, w);
    }
  }

  /** No cost above INFINITY ever occurs without failures, exactly when no install path has one. */
  lemma CostsStayBelowExactly(cfg: Config)
    requires WellFormed(cfg)
    ensures (forall steps :: FifoRun(cfg, steps) ==> NoneAboveInfinity(cfg, steps)) <==> CheapPaths(cfg)
  {
    if CheapPaths(cfg) {
      forall steps | FifoRun(cfg, steps) ensures NoneAboveInfinity(cfg, steps) {
        AlwaysTightlyBounded(cfg, steps);
        forall u, d | u in cfg && At(After(cfg, steps), u, d).Some?
          ensures At(After(cfg, steps), u, d).value.cost <= INFINITY
        {
          assert Bounded(cfg, After(cfg, steps), u, d, At(After(cfg, steps), u, d), 0);
          CheapRow(cfg, After(cfg, steps), u, d, At(After(cfg, steps), u, d).value);
        }
      }
    }
    if forall steps :: FifoRun(cfg, steps) ==> NoneAboveInfinity(cfg, steps) {
      forall w | InstallPath(cfg, w) ensures WalkCost(cfg, w) <= INFINITY {
        var _, steps := BoundsAreReached(cfg, w);
        assert NoneAboveInfinity(cfg, steps) && w[0] in cfg;
      }
    }
  }

  lemma NothingBitten(cfg: Config, steps: seq<Step>, k: nat)
    requires k < |steps| && NoneAboveInfinity(cfg, steps[..k])
    ensures !Bitten(cfg, steps, k)
  {
  }

  /** In such networks all runs without failures are the same with and without split horizon. */
  lemma RunsAgree(cfg: Config, steps: seq<Step>)
    requires WellFormed(cfg) && CheapPaths(cfg) && FifoRun(cfg, steps)
    ensures AfterPlain(cfg, steps) == After(cfg, steps)
  {
    forall k | 0 <= k < |steps| ensures !Bitten(cfg, steps, k) {
      PrefixIsFifo(cfg, steps, k);
      CostsStayBelowExactly(cfg);
      assert NoneAboveInfinity(cfg, steps[..k]);
      NothingBitten(cfg, steps, k);
    }
    UnbittenPrefixAgrees(cfg, steps, |steps|);
    assert steps[..|steps|] == steps;
  }
}
