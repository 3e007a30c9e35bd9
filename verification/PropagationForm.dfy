/**
 * What a finished propagation holds: hop counts are distances from the sources, and in a
 * layered slice every change is the damped, weighted sum over its incoming wires.
 */
module PropagationForm {
  import opened Common
  import opened Propagation

  // --- Distances ------------------------------------------------------------------------

  ghost predicate IsSource(ps: seq<Perturbation>, v: Rid) {
    exists i :: 0 <= i < |ps| && ps[i].rid == v
  }

  /** There is a walk of exactly `k` wires from a source to `v`. */
  ghost predicate Walk(wires: seq<Wire>, ps: seq<Perturbation>, v: Rid, k: nat)
    decreases k
  {
    if k == 0 then IsSource(ps, v)
    else exists i :: 0 <= i < |wires| && wires[i].dst == v && Walk(wires, ps, wires[i].src, k - 1)
  }

  /** Every hop count is the length of a walk. */
  ghost predicate Walked(wires: seq<Wire>, ps: seq<Perturbation>, w: Wave) {
    forall v :: v in w.hop ==> Walk(wires, ps, v, w.hop[v])
  }

  lemma {:induction false} StartWalked(wires: seq<Wire>, all: seq<Perturbation>, n: nat)
    requires n <= |all|
    ensures Walked(wires, all, Start(all[..n]))
  {
    if n == 0 {
    } else {
      StartWalked(wires, all, n - 1);
      PrefixSnoc(all, n - 1);
      assert IsSource(all, all[n - 1].rid);
    }
  }

  lemma {:induction false} ReadAllWalked(o: Options, wires: seq<Wire>, ps: seq<Perturbation>, w: Wave,
                                         es: seq<Wire>, di: real, d: nat)
    requires Walked(wires, ps, w)
    requires forall i :: 0 <= i < |es| ==> Walk(wires, ps, es[i].dst, d + 1)
    ensures Walked(wires, ps, ReadAll(o, w, es, di, d))
  {
    hide Walk, Contribution;
    if es == [] {
    } else {
      ReadAllWalked(o, wires, ps, w, es[..|es| - 1], di, d);
    }
  }

  lemma VisitWalked(o: Options, wires: seq<Wire>, ps: seq<Perturbation>, w: Wave, v: Rid)
    requires Walked(wires, ps, w) && v in w.hop
    ensures Walked(wires, ps, Visit(o, wires, w, v))
  {
    hide Contribution, ReadAll;
    var es := Outgoing(wires, v);
    OutgoingAreWires(wires, v);
    forall i | 0 <= i < |es| ensures Walk(wires, ps, es[i].dst, HopOf(w, v) + 1) {
      var k :| 0 <= k < |wires| && wires[k] == es[i];
      assert Walk(wires, ps, wires[k].src, HopOf(w, v));
    }
    ReadAllWalked(o, wires, ps, w, es, DeltaOf(w, v), HopOf(w, v));
  }

  lemma {:induction false} RunWalked(o: Options, wires: seq<Wire>, ps: seq<Perturbation>, n: nat)
    ensures Walked(wires, ps, Run(o, wires, ps, n))
  {
    hide Start, Visit, Walked, Sound, Layers;
    if n == 0 {
      assert ps[..|ps|] == ps;
      StartWalked(wires, ps, |ps|);
    } else {
      var w := Run(o, wires, ps, n - 1);
      RunWalked(o, wires, ps, n - 1);
      if n - 1 < |w.queue| {
        RunKeeps(o, wires, ps, n - 1);
        QueuedHasHop(o, wires, ps, w, n - 1);
        VisitWalked(o, wires, ps, w, w.queue[n - 1]);
      }
    }
  }

  lemma QueuedHasHop(o: Options, wires: seq<Wire>, ps: seq<Perturbation>, w: Wave, n: nat)
    requires Orderly(o, wires, ps, w, n) && n < |w.queue|
    ensures w.queue[n] in w.hop
  {
  }

  /** Every wire out of the m-th queued node leads into the wave, one step further at most. */
  ghost predicate FollowedAt(o: Options, wires: seq<Wire>, w: Wave, m: nat)
    requires m < |w.queue|
  {
    HopOf(w, w.queue[m]) < o.maxHops ==>
      forall i :: 0 <= i < |wires| && wires[i].src == w.queue[m] ==>
        wires[i].dst in w.hop && w.hop[wires[i].dst] <= HopOf(w, w.queue[m]) + 1
  }

  ghost predicate Followed(o: Options, wires: seq<Wire>, w: Wave, n: nat) {
    forall m :: 0 <= m < n && m < |w.queue| ==> FollowedAt(o, wires, w, m)
  }

  lemma VisitFollows(o: Options, wires: seq<Wire>, ps: seq<Perturbation>, w: Wave, n: nat, i: nat)
    requires Orderly(o, wires, ps, w, n) && n < |w.queue| && o.pruneBelow <= 0.0
    requires i < |wires| && wires[i].src == w.queue[n] && HopOf(w, w.queue[n]) < o.maxHops
    ensures var r := Visit(o, wires, w, w.queue[n]);
      wires[i].dst in r.hop && r.hop[wires[i].dst] <= HopOf(w, w.queue[n]) + 1
  {
    hide ReadAll, Contribution;
    var v := w.queue[n];
    var r := Visit(o, wires, w, v);
    WiresAreOutgoing(wires, i);
    var k :| 0 <= k < |Outgoing(wires, v)| && Outgoing(wires, v)[k] == wires[i];
    ReadAllReaches(o, w, Outgoing(wires, v), DeltaOf(w, v), HopOf(w, v), k);
    VisitOrderly(o, wires, ps, w, n);
    HopsBounded(o, wires, ps, w, n, wires[i].dst);
  }

  /** No distance exceeds that of the node to be visited by more than one. */
  lemma HopsBounded(o: Options, wires: seq<Wire>, ps: seq<Perturbation>, w: Wave, n: nat, v: Rid)
    requires Orderly(o, wires, ps, w, n) && n < |w.queue|
    ensures v in w.hop ==> w.hop[v] <= HopOf(w, w.queue[n]) + 1
  {
    if v in w.hop {
      assert Queued(w.queue, v);
    }
  }

  lemma FollowKept(o: Options, wires: seq<Wire>, w: Wave, r: Wave, m: nat, d: nat)
    requires m < |w.queue| && w.queue[m] in w.hop && Extends(w, r, d)
    requires FollowedAt(o, wires, w, m)
    ensures FollowedAt(o, wires, r, m)
  {
    assert r.queue[m] == w.queue[m];
  }

  lemma FollowStep(o: Options, wires: seq<Wire>, ps: seq<Perturbation>, w: Wave, n: nat)
    requires Orderly(o, wires, ps, w, n) && n < |w.queue| && o.pruneBelow <= 0.0
    requires Followed(o, wires, w, n)
    ensures Followed(o, wires, Visit(o, wires, w, w.queue[n]), n + 1)
  {
    hide Visit, Contribution, FollowedAt;
    var r := Visit(o, wires, w, w.queue[n]);
    VisitOrderly(o, wires, ps, w, n);
    hide Sound, Layers, Extends;
    forall m | 0 <= m < n + 1 && m < |r.queue| ensures FollowedAt(o, wires, r, m) {
      QueuedHasHop(o, wires, ps, w, n);
      if m == n {
        FollowNew(o, wires, ps, w, n);
      } else {
        QueuedEarlier(o, wires, ps, w, n, m);
        FollowKept(o, wires, w, r, m, HopOf(w, w.queue[n]) + 1);
      }
    }
  }

  lemma QueuedEarlier(o: Options, wires: seq<Wire>, ps: seq<Perturbation>, w: Wave, n: nat, m: nat)
    requires Orderly(o, wires, ps, w, n) && m < |w.queue|
    ensures w.queue[m] in w.hop
  {
  }

  lemma FollowNew(o: Options, wires: seq<Wire>, ps: seq<Perturbation>, w: Wave, n: nat)
    requires Orderly(o, wires, ps, w, n) && n < |w.queue| && o.pruneBelow <= 0.0
    ensures var r := Visit(o, wires, w, w.queue[n]); n < |r.queue| && FollowedAt(o, wires, r, n)
  {
    hide Visit, Contribution;
    var r := Visit(o, wires, w, w.queue[n]);
    VisitOrderly(o, wires, ps, w, n);
    assert r.queue[n] == w.queue[n] && w.queue[n] in w.hop;
    hide Orderly, Extends;
    if HopOf(w, w.queue[n]) < o.maxHops {
      forall i | 0 <= i < |wires| && wires[i].src == w.queue[n]
        ensures wires[i].dst in r.hop && r.hop[wires[i].dst] <= HopOf(w, w.queue[n]) + 1
      {
        VisitFollows(o, wires, ps, w, n, i);
      }
    }
    assert HopOf(r, r.queue[n]) == HopOf(w, w.queue[n]) by { HopKept(o, wires, ps, w, n); }
  }

  lemma HopKept(o: Options, wires: seq<Wire>, ps: seq<Perturbation>, w: Wave, n: nat)
    requires Orderly(o, wires, ps, w, n) && n < |w.queue|
    ensures HopOf(Visit(o, wires, w, w.queue[n]), w.queue[n]) == HopOf(w, w.queue[n])
  {
    hide Visit;
    VisitOrderly(o, wires, ps, w, n);
  }

  lemma {:induction false} RunFollows(o: Options, wires: seq<Wire>, ps: seq<Perturbation>, n: nat)
    requires o.pruneBelow <= 0.0
    ensures Followed(o, wires, Run(o, wires, ps, n), n)
  {
    hide Start, Visit, Orderly;
    if n == 0 {
    } else {
      var w := Run(o, wires, ps, n - 1);
      RunFollows(o, wires, ps, n - 1);
      RunKeeps(o, wires, ps, n - 1);
      if n - 1 < |w.queue| {
        FollowStep(o, wires, ps, w, n - 1);
      }
    }
  }

  /** Without pruning, a walk of `k <= maxHops` wires brings its end into the wave within `k`. */
  lemma {:induction false} WalkReached(o: Options, wires: seq<Wire>, ps: seq<Perturbation>, w: Wave, v: Rid, k: nat)
    requires Walk(wires, ps, v, k) && k <= o.maxHops
    requires forall i :: 0 <= i < |ps| ==> ps[i].rid in w.hop && w.hop[ps[i].rid] == 0
    requires forall x :: x in w.hop ==> Queued(w.queue, x)
    requires Followed(o, wires, w, |w.queue|)
    ensures v in w.hop && w.hop[v] <= k
    decreases k
  {
    if k > 0 {
      var i :| 0 <= i < |wires| && wires[i].dst == v && Walk(wires, ps, wires[i].src, k - 1);
      WalkReached(o, wires, ps, w, wires[i].src, k - 1);
      var m :| 0 <= m < |w.queue| && w.queue[m] == wires[i].src;
      assert FollowedAt(o, wires, w, m);
    }
  }

  lemma {:induction false} SourcesStay(o: Options, wires: seq<Wire>, ps: seq<Perturbation>, n: nat)
    ensures var w := Run(o, wires, ps, n);
      forall i :: 0 <= i < |ps| ==> ps[i].rid in w.hop && w.hop[ps[i].rid] == 0
  {
    hide Start, Visit, Orderly;
    if n == 0 {
      StartHasSources(wires, ps);
    } else {
      var w := Run(o, wires, ps, n - 1);
      SourcesStay(o, wires, ps, n - 1);
      RunKeeps(o, wires, ps, n - 1);
      if n - 1 < |w.queue| {
        VisitOrderly(o, wires, ps, w, n - 1);
      }
    }
  }

  lemma StartHasSources(wires: seq<Wire>, ps: seq<Perturbation>)
    ensures var w := Start(ps); forall i :: 0 <= i < |ps| ==> ps[i].rid in w.hop && w.hop[ps[i].rid] == 0
  {
    StartHops(ps);
    StartOrderly(Options(0.0, 0, 0.0), wires, ps);
  }

  lemma {:induction false} StartHops(ps: seq<Perturbation>)
    ensures forall i :: 0 <= i < |ps| ==> ps[i].rid in Start(ps).hop
  {
    if ps == [] {
    } else {
      StartHops(ps[..|ps| - 1]);
      forall i | 0 <= i < |ps| ensures ps[i].rid in Start(ps).hop {
        if i < |ps| - 1 {
          assert ps[i] == ps[..|ps| - 1][i];
        }
      }
    }
  }

  /** No walk is shorter than the recorded distance. */
  ghost predicate IsDistance(wires: seq<Wire>, ps: seq<Perturbation>, v: Rid, d: nat) {
    Walk(wires, ps, v, d) && forall k: nat :: k < d ==> !Walk(wires, ps, v, k)
  }

  /**
   * The result is bounded and consistent: changes and distances have the same nodes, changes
   * stay in [-1, 1], and a recorded distance is the length of a walk within the hop limit,
   * so never below the true distance.
   */
  lemma ImpactIsSound(o: Options, wires: seq<Wire>, ps: seq<Perturbation>)
    ensures var w := Propagated(o, wires, ps);
      && w.delta.Keys == w.hop.Keys
      && (forall v :: v in w.delta ==> -1.0 <= w.delta[v] <= 1.0)
      && (forall v :: v in w.hop ==> w.hop[v] <= Max(0, o.maxHops) && Walk(wires, ps, v, w.hop[v]))
      && Distinct(w.queue) && (forall v :: v in w.hop <==> Queued(w.queue, v))
      && (forall i, j :: 0 <= i < j < |w.queue| ==> HopOf(w, w.queue[i]) <= HopOf(w, w.queue[j]))
  {
    hide Run, Walk, Reachable;
    RunKeeps(o, wires, ps, |ps| + |wires|);
    RunWalked(o, wires, ps, |ps| + |wires|);
  }

  /**
   * Without pruning, the recorded nodes are exactly those within `maxHops` of a source, and
   * the recorded distance is the true one.
   */
  lemma HopIsDistance(o: Options, wires: seq<Wire>, ps: seq<Perturbation>, v: Rid)
    requires o.pruneBelow <= 0.0 && o.maxHops >= 0
    ensures var w := Propagated(o, wires, ps);
      && (v in w.hop <==> exists k: nat :: k <= o.maxHops && Walk(wires, ps, v, k))
      && (v in w.hop ==> IsDistance(wires, ps, v, w.hop[v]))
  {
    hide Walk, Propagated, Distinct, HopOf;
    var w := Propagated(o, wires, ps);
    ImpactIsSound(o, wires, ps);
    forall k: nat | k <= o.maxHops && Walk(wires, ps, v, k) ensures v in w.hop && w.hop[v] <= k {
      WalkInWave(o, wires, ps, v, k);
    }
    if v in w.hop {
      assert Walk(wires, ps, v, w.hop[v]) && w.hop[v] <= o.maxHops;
    }
  }

  lemma WalkInWave(o: Options, wires: seq<Wire>, ps: seq<Perturbation>, v: Rid, k: nat)
    requires o.pruneBelow <= 0.0 && k <= o.maxHops && Walk(wires, ps, v, k)
    ensures var w := Propagated(o, wires, ps); v in w.hop && w.hop[v] <= k
  {
    hide Run, Walk, FollowedAt;
    var n := |ps| + |wires|;
    var w := Propagated(o, wires, ps);
    ImpactIsSound(o, wires, ps);
    RunFollows(o, wires, ps, n);
    WithinBound(o, wires, ps, n);
    SourcesStay(o, wires, ps, n);
    WalkReached(o, wires, ps, w, v, k);
  }
}
