/** The configured graph of routers, its walks and its distances. */
module Graph {
  import opened Protocol

  /** For every router, the answer it got from the network initializer. */
  type Config = map<nat, InitResponse>

  predicate Nbr(cfg: Config, u: nat, v: nat) {
    u in cfg && cfg[u].FitsArrays() && FindNbr(cfg[u], v) < cfg[u].noNbr
  }

  /** The cost that router u looks up for the link to v. */
  function LinkCost(cfg: Config, u: nat, v: nat): nat
    requires Nbr(cfg, u, v)
  {
    cfg[u].nbrCost[FindNbr(cfg[u], v)].cost
  }

  /** The neighbours of one router: different routers of the network, itself not among them. */
  ghost predicate NbrsOfRouter(cfg: Config, u: nat)
    requires u in cfg
  {
    var resp := cfg[u];
    && resp.FitsArrays()
    && (forall i :: 0 <= i < resp.noNbr ==> resp.nbrCost[i].nbr in cfg && resp.nbrCost[i].nbr != u)
    && (forall i, j :: 0 <= i < j < resp.noNbr ==> resp.nbrCost[i].nbr != resp.nbrCost[j].nbr)
  }

  /** Links are known at both ends; their costs may differ by direction. */
  ghost predicate NbrsWellFormed(cfg: Config) {
    && |cfg| <= MAX_ROUTERS
    && (forall u {:trigger cfg[u]} {:trigger NbrsOfRouter(cfg, u)} :: u in cfg ==> NbrsOfRouter(cfg, u))
    && (forall u, v :: Nbr(cfg, u, v) ==> Nbr(cfg, v, u))
  }

  /** The spare slot of every router, which is copied into its table, describes the router itself. */
  ghost predicate SelfInSpareSlots(cfg: Config) {
    forall u {:trigger cfg[u]} :: u in cfg ==> cfg[u].FitsArrays() && cfg[u].SpareSlot() == NbrCost(u, 0)
  }

  /** The networks of most theorems. What happens for other spare slots is the subject of SpareSlots. A
      router has at most eight neighbours here, for with nine the source writes the self-route past its
      array: ten fully meshed routers are no such network. */
  ghost predicate WellFormed(cfg: Config) {
    NbrsWellFormed(cfg) && SelfInSpareSlots(cfg)
  }

  lemma NbrAt(cfg: Config, u: nat, i: nat)
    requires NbrsWellFormed(cfg) && u in cfg && i < cfg[u].noNbr
    ensures var n := cfg[u].nbrCost[i];
            Nbr(cfg, u, n.nbr) && LinkCost(cfg, u, n.nbr) == n.cost && FindNbr(cfg[u], n.nbr) == i
  {
  }

  lemma NbrIsOther(cfg: Config, u: nat, v: nat)
    requires NbrsWellFormed(cfg) && Nbr(cfg, u, v)
    ensures v in cfg && v != u && u in cfg
  {
  }

  // ---------- Walks ----------

  ghost predicate IsWalk(cfg: Config, w: seq<nat>) {
    && w != []
    && (forall i :: 0 <= i < |w| ==> w[i] in cfg)
    && (forall i :: 0 <= i < |w| - 1 ==> Nbr(cfg, w[i], w[i + 1]))
  }

  /** w leads from u to d. */
  ghost predicate Walk(cfg: Config, u: nat, d: nat, w: seq<nat>) {
    IsWalk(cfg, w) && w[0] == u && w[|w| - 1] == d
  }

  ghost function WalkCost(cfg: Config, w: seq<nat>): nat
    requires IsWalk(cfg, w)
  {
    if |w| == 1 then 0 else LinkCost(cfg, w[0], w[1]) + WalkCost(cfg, w[1..])
  }

  /** c is the cost of a cheapest walk. */
  ghost predicate IsDistance(cfg: Config, u: nat, d: nat, c: nat) {
    && (exists w :: Walk(cfg, u, d, w) && WalkCost(cfg, w) == c)
    && (forall w :: Walk(cfg, u, d, w) ==> c <= WalkCost(cfg, w))
  }

  ghost predicate Simple(w: seq<nat>) {
    forall i, j :: 0 <= i < j < |w| ==> w[i] != w[j]
  }

  /** Going to a neighbour first. */
  lemma Prepend(cfg: Config, u: nat, w: seq<nat>)
    requires IsWalk(cfg, w) && Nbr(cfg, u, w[0])
    ensures Walk(cfg, u, w[|w| - 1], [u] + w)
    ensures WalkCost(cfg, [u] + w) == LinkCost(cfg, u, w[0]) + WalkCost(cfg, w)
  {
  }

  lemma {:induction false} CostSplits(cfg: Config, w: seq<nat>, i: nat)
    requires IsWalk(cfg, w) && i < |w|
    ensures IsWalk(cfg, w[..i + 1]) && IsWalk(cfg, w[i..])
    ensures WalkCost(cfg, w) == WalkCost(cfg, w[..i + 1]) + WalkCost(cfg, w[i..])
  {
    if i == 0 {
      assert w[0..] == w;
    } else {
      CostSplits(cfg, w[1..], i - 1);
      assert w[1..][..i] == w[..i + 1][1..];
      assert w[1..][i - 1..] == w[i..];
    }
  }

  lemma {:induction false} CostJoins(cfg: Config, a: seq<nat>, b: seq<nat>)
    requires IsWalk(cfg, a) && IsWalk(cfg, b) && a[|a| - 1] == b[0]
    ensures Walk(cfg, a[0], b[|b| - 1], a + b[1..])
    ensures WalkCost(cfg, a + b[1..]) == WalkCost(cfg, a) + WalkCost(cfg, b)
  {
    if |a| == 1 {
      assert a + b[1..] == b;
    } else {
      CostJoins(cfg, a[1..], b);
      assert a + b[1..] == [a[0]] + (a[1..] + b[1..]);
      Prepend(cfg, a[0], a[1..] + b[1..]);
    }
  }

  /** Cutting one detour out of a walk. */
  lemma CutDetour(cfg: Config, w: seq<nat>, i: nat, j: nat) returns (p: seq<nat>)
    requires IsWalk(cfg, w) && i < j < |w| && w[i] == w[j]
    ensures Walk(cfg, w[0], w[|w| - 1], p) && |p| < |w|
    ensures WalkCost(cfg, p) <= WalkCost(cfg, w) && forall x :: x in p ==> x in w
  {
    CostSplits(cfg, w, i);
    CostSplits(cfg, w, j);
    CostSplits(cfg, w[..j + 1], i);
    assert w[..j + 1][..i + 1] == w[..i + 1];
    CostJoins(cfg, w[..i + 1], w[j..]);
    p := w[..i + 1] + w[j..][1..];
  }

  /** Cutting all detours out of a walk. */
  lemma {:induction false} Shorten(cfg: Config, w: seq<nat>) returns (p: seq<nat>)
    requires IsWalk(cfg, w)
    ensures Walk(cfg, w[0], w[|w| - 1], p) && Simple(p)
    ensures WalkCost(cfg, p) <= WalkCost(cfg, w) && forall x :: x in p ==> x in w
    decreases |w|
  {
    if Simple(w) {
      p := w;
    } else {
      var i, j :| 0 <= i < j < |w| && w[i] == w[j];
      var shorter := CutDetour(cfg, w, i, j);
      p := Shorten(cfg, shorter);
    }
  }

  /** Pairwise different values from a set are at most as many as the set has. */
  lemma {:induction false} Pigeonhole(xs: seq<nat>, s: set<nat>)
    requires Simple(xs) && forall i :: 0 <= i < |xs| ==> xs[i] in s
    ensures |xs| <= |s|
  {
    if xs != [] {
      var rest, last := xs[..|xs| - 1], xs[|xs| - 1];
      assert forall i :: 0 <= i < |rest| ==> rest[i] == xs[i];
      Pigeonhole(rest, s - {last});
    }
  }

  lemma SimpleWalkIsShort(cfg: Config, w: seq<nat>)
    requires IsWalk(cfg, w) && Simple(w)
    ensures |w| <= |cfg|
  {
    Pigeonhole(w, cfg.Keys);
  }

  /** Every reachable destination has a distance. */
  lemma DistanceExists(cfg: Config, w: seq<nat>) returns (c: nat)
    requires IsWalk(cfg, w)
    ensures IsDistance(cfg, w[0], w[|w| - 1], c)
    decreases WalkCost(cfg, w)
  {
    if v :| Walk(cfg, w[0], w[|w| - 1], v) && WalkCost(cfg, v) < WalkCost(cfg, w) {
      c := DistanceExists(cfg, v);
    } else {
      c := WalkCost(cfg, w);
    }
  }
}
