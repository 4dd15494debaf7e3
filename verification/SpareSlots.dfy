/** What the spare slots of the initializer's answers decide. InitRoutingTbl copies one of them into every
    table; the soundness of runs stands and falls with what it holds. */
module SpareSlots {
  import opened Protocol
  import opened TableSpec
  import opened Graph
  import opened Network
  import opened Soundness

  lemma SoundAtStart(cfg: Config, u: nat)
    requires NbrsWellFormed(cfg) && u in cfg && Sound(cfg, After(cfg, []))
    ensures cfg[u].SpareSlot() == NbrCost(u, 0)
  {
    var t := Table(After(cfg, []), u);
    assert TableSound(cfg, u, t);
    assert t[IndexOf(t, u)] in t;
    assert NbrsOfRouter(cfg, u);
    InitHasSelfRoute(cfg[u], u);
  }

  ghost predicate SoundAfter(cfg: Config, steps: seq<Step>) {
    Sound(cfg, After(cfg, steps))
  }

  /** Every run is sound exactly when the spare slot of every router holds its own id with cost 0. */
  lemma RunsAreSoundExactly(cfg: Config)
    requires NbrsWellFormed(cfg)
    ensures (forall steps :: SoundAfter(cfg, steps)) <==>
            (forall u :: u in cfg ==> cfg[u].SpareSlot() == NbrCost(u, 0))
  {
    if forall steps :: SoundAfter(cfg, steps) {
      assert SoundAfter(cfg, []);
      forall u | u in cfg ensures cfg[u].SpareSlot() == NbrCost(u, 0) {
        SoundAtStart(cfg, u);
      }
    }
    if forall u :: u in cfg ==> cfg[u].SpareSlot() == NbrCost(u, 0) {
      assert forall u :: u in cfg ==> NbrsOfRouter(cfg, u);
      forall steps ensures SoundAfter(cfg, steps) {
        AlwaysSound(cfg, steps);
      }
    }
  }

  // ---------- Honest costs alone ----------

  /** Every row in a table or packet stands for an actual walk. Nothing is said about self-routes or
      repeated destinations. */
  ghost predicate Honest(cfg: Config, s: State) {
    && (forall u {:trigger Table(s, u)} :: RowsSound(cfg, u, Table(s, u)))
    && (forall i :: 0 <= i < |s.wire| ==> RowsSound(cfg, s.wire[i].from, s.wire[i].routes))
  }

  /** A step that changes the table of u only and adds nothing new to the wire. */
  lemma OneTableChanges(cfg: Config, s: State, s': State, u: nat)
    requires Honest(cfg, s) && RowsSound(cfg, u, Table(s', u))
    requires forall x :: x != u ==> Table(s', x) == Table(s, x)
    requires forall i :: 0 <= i < |s'.wire| ==> s'.wire[i] in s.wire
    ensures Honest(cfg, s')
  {
  }

  lemma NoTableChanges(cfg: Config, s: State, s': State)
    requires Honest(cfg, s) && s'.tables == s.tables
    requires forall i :: 0 <= i < |s'.wire| ==> s'.wire[i] in s.wire
    ensures Honest(cfg, s')
  {
    assert Table(s', 0) == Table(s, 0);
    OneTableChanges(cfg, s, s', 0);
  }

  lemma AdvertiseHonest(cfg: Config, s: State, u: nat)
    requires Honest(cfg, s)
    ensures Honest(cfg, Next(cfg, s, Advertise(u)))
  {
    var s' := Next(cfg, s, Advertise(u));
    assert forall x :: Table(s', x) == Table(s, x);
    forall i | 0 <= i < |s'.wire| ensures RowsSound(cfg, s'.wire[i].from, s'.wire[i].routes) {
      if i >= |s.wire| {
        assert s'.wire[i] == Adverts(cfg, s, u)[i - |s.wire|];
      }
    }
  }

  lemma StepHonest(cfg: Config, s: State, step: Step)
    requires Honest(cfg, s)
    ensures Honest(cfg, Next(cfg, s, step))
  {
    var s' := Next(cfg, s, step);
    match step
    case Advertise(u) => AdvertiseHonest(cfg, s, u);
    case Deliver(i) =>
      if i < |s.wire| && Nbr(cfg, s.wire[i].to, s.wire[i].from) {
        var p := s.wire[i];
        ReceivedRowsSound(cfg, Table(s, p.to), p.routes, p.to, p.from);
        OneTableChanges(cfg, s, s', p.to);
      } else {
        NoTableChanges(cfg, s, s');
      }
    case Timeout(u, v) =>
      if u in s.tables && Nbr(cfg, u, v) {
        UninstalledRowsSound(cfg, Table(s, u), u, v);
        OneTableChanges(cfg, s, s', u);
      } else {
        NoTableChanges(cfg, s, s');
      }
    case _ => NoTableChanges(cfg, s, s');
  }

  ghost predicate SpareRowsSound(cfg: Config)
    requires NbrsWellFormed(cfg)
  {
    forall u :: u in cfg ==> RowSound(cfg, u, NbrRoute(cfg[u].SpareSlot()))
  }

  lemma {:induction false} AlwaysHonest(cfg: Config, steps: seq<Step>)
    requires NbrsWellFormed(cfg) && SpareRowsSound(cfg)
    ensures Honest(cfg, After(cfg, steps))
  {
    if steps == [] {
      forall u ensures RowsSound(cfg, u, Table(Init(cfg), u)) {
        if u in cfg && cfg[u].FitsArrays() {
          InitialRowsSound(cfg, u);
        }
      }
    } else {
      AlwaysHonest(cfg, steps[..|steps| - 1]);
      StepHonest(cfg, After(cfg, steps[..|steps| - 1]), steps[|steps| - 1]);
    }
  }

  lemma HonestAtStart(cfg: Config, u: nat)
    requires NbrsWellFormed(cfg) && u in cfg && Honest(cfg, After(cfg, []))
    ensures RowSound(cfg, u, NbrRoute(cfg[u].SpareSlot()))
  {
    assert NbrsOfRouter(cfg, u);
    assert RowsSound(cfg, u, Table(After(cfg, []), u));
    assert InitRows(cfg[u])[cfg[u].noNbr] in InitRows(cfg[u]);
  }

  ghost predicate HonestAfter(cfg: Config, steps: seq<Step>) {
    Honest(cfg, After(cfg, steps))
  }

  /** No row of any run promises what no walk keeps, exactly when the row made of each spare slot is
      itself the cost and first hop of a walk. */
  lemma RunsAreHonestExactly(cfg: Config)
    requires NbrsWellFormed(cfg)
    ensures (forall steps :: HonestAfter(cfg, steps)) <==>
            (forall u :: u in cfg ==> RowSound(cfg, u, NbrRoute(cfg[u].SpareSlot())))
  {
    if forall steps :: HonestAfter(cfg, steps) {
      assert HonestAfter(cfg, []);
      forall u | u in cfg ensures RowSound(cfg, u, NbrRoute(cfg[u].SpareSlot())) {
        HonestAtStart(cfg, u);
      }
    }
    if forall u :: u in cfg ==> RowSound(cfg, u, NbrRoute(cfg[u].SpareSlot())) {
      assert SpareRowsSound(cfg);
      forall steps ensures HonestAfter(cfg, steps) {
        AlwaysHonest(cfg, steps);
      }
    }
  }

  /** Without the right spare slot all of this fails: two routers, zeroed unused slots, no step taken,
      and router 1 offers a free route to router 0. */
  lemma ZeroedSlotsAreUnsound()
    ensures var pad := seq(9, _ => NbrCost(0, 0));
            var cfg: Config := map[0 := InitResponse(1, [NbrCost(1, 7)] + pad),
                                   1 := InitResponse(1, [NbrCost(0, 7)] + pad)];
            && Route(0, 0, 0) in Table(After(cfg, []), 1)
            && !RowSound(cfg, 1, Route(0, 0, 0))
            && !Distinct(Table(After(cfg, []), 1))
  {
    var pad := seq(9, _ => NbrCost(0, 0));
    var cfg: Config := map[0 := InitResponse(1, [NbrCost(1, 7)] + pad),
                           1 := InitResponse(1, [NbrCost(0, 7)] + pad)];
    var t := Table(After(cfg, []), 1);
    assert cfg[1].FitsArrays();
    assert t == InitRows(cfg[1]);
    assert t[0] == Route(0, 0, 7) && t[1] == Route(0, 0, 0);
    forall w ensures !Supports(cfg, 1, Route(0, 0, 0), w) {
      if Walk(cfg, 1, 0, w) && |w| > 1 && w[1] == 0 {
        assert WalkCost(cfg, w) == LinkCost(cfg, 1, 0) + WalkCost(cfg, w[1..]);
        assert LinkCost(cfg, 1, 0) == 7;
      }
    }
  }
}
