/**
 * Propagation in terms of the slice's own edges: which edges carry a change, from which end to
 * which, with which weight, and what the distances and sums of a propagation are along them.
 */
module PropagationEdges {
  import opened Common
  import opened Propagation
  import opened PropagationForm
  import opened PropagationSum

  // --- The wires are the carrying edges ---------------------------------------------------------

  /** The wire runs along the edge, from its source to its target, with its own weight or the default. */
  ghost predicate Along(e: Edge, carriers: Carriers, wire: Wire) {
    && e.linkType in carriers && wire.src == e.src && wire.dst == e.dst
    && (e.weight.Some? ==> wire.weight == e.weight.value)
    && (e.weight.None? ==> wire.weight == carriers[e.linkType])
  }

  /** The wires are those of the edges of carrying link types, one each, in edge order. */
  ghost predicate WiresAlong(edges: seq<Edge>, carriers: Carriers, wires: seq<Wire>, at: seq<nat>) {
    && |at| == |wires| && (forall j, k :: 0 <= j < k < |at| ==> at[j] < at[k])
    && (forall k :: 0 <= k < |at| ==> at[k] < |edges| && Along(edges[at[k]], carriers, wires[k]))
    && (forall i :: 0 <= i < |edges| && edges[i].linkType in carriers ==> i in at)
  }

  lemma OneMoreWire(edges: seq<Edge>, n: nat, carriers: Carriers, wires: seq<Wire>, at: seq<nat>, wire: Wire)
    requires n < |edges| && WiresAlong(edges[..n], carriers, wires, at)
    ensures edges[n].linkType in carriers && Along(edges[n], carriers, wire) ==>
      WiresAlong(edges[..n + 1], carriers, wires + [wire], at + [n])
    ensures edges[n].linkType !in carriers ==> WiresAlong(edges[..n + 1], carriers, wires, at)
  {
    hide Along;
    var more := at + [n];
    assert more[|at|] == n && forall i :: i in at ==> i in more;
    assert forall i :: 0 <= i < n ==> edges[..n][i] == edges[..n + 1][i] == edges[i];
    assert edges[..n + 1][n] == edges[n];
  }

  lemma {:induction false} WiresUpTo(edges: seq<Edge>, carriers: Carriers, n: nat) returns (at: seq<nat>)
    requires n <= |edges|
    ensures WiresAlong(edges[..n], carriers, Wires(edges[..n], carriers), at)
  {
    at := [];
    if n > 0 {
      at := WiresUpTo(edges, carriers, n - 1);
      PrefixSnoc(edges, n - 1);
      var e, front := edges[n - 1], Wires(edges[..n - 1], carriers);
      var weight := if e.weight.Some? then e.weight.value else if e.linkType in carriers then carriers[e.linkType] else 0.0;
      var wire := Wire(e.src, e.dst, weight);
      assert Wires(edges[..n], carriers) == if e.linkType in carriers then front + [wire] else front;
      OneMoreWire(edges, n - 1, carriers, front, at, wire);
      hide Wires, WiresAlong;
      if e.linkType in carriers {
        at := at + [n - 1];
      }
    }
  }

  /** One wire per edge of a carrying link type, in edge order, along it. */
  lemma WiresByEdge(edges: seq<Edge>, carriers: Carriers) returns (at: seq<nat>)
    ensures WiresAlong(edges, carriers, Wires(edges, carriers), at)
  {
    at := WiresUpTo(edges, carriers, |edges|);
    assert edges[..|edges|] == edges;
  }

  // --- Distances along edges ----------------------------------------------------------------------

  /** A walk of exactly `k` carrying edges, each from its source to its target, from a perturbed object to `v`. */
  ghost predicate EdgeWalk(edges: seq<Edge>, carriers: Carriers, ps: seq<Perturbation>, v: Rid, k: nat)
    decreases k
  {
    if k == 0 then exists i :: 0 <= i < |ps| && ps[i].rid == v
    else
      exists i :: 0 <= i < |edges| && edges[i].linkType in carriers && edges[i].dst == v
        && EdgeWalk(edges, carriers, ps, edges[i].src, k - 1)
  }

  lemma EdgeOfWire(edges: seq<Edge>, carriers: Carriers, j: nat) returns (i: nat)
    requires j < |Wires(edges, carriers)|
    ensures i < |edges| && edges[i].linkType in carriers
    ensures Wires(edges, carriers)[j].src == edges[i].src && Wires(edges, carriers)[j].dst == edges[i].dst
  {
    var at := WiresByEdge(edges, carriers);
    i := at[j];
  }

  lemma WireOfEdge(edges: seq<Edge>, carriers: Carriers, i: nat) returns (j: nat)
    requires i < |edges| && edges[i].linkType in carriers
    ensures j < |Wires(edges, carriers)|
    ensures Wires(edges, carriers)[j].src == edges[i].src && Wires(edges, carriers)[j].dst == edges[i].dst
  {
    var at := WiresByEdge(edges, carriers);
    j :| 0 <= j < |at| && at[j] == i;
  }

  lemma {:induction false} WalksAreEdgeWalks(edges: seq<Edge>, carriers: Carriers, ps: seq<Perturbation>, v: Rid, k: nat)
    ensures Walk(Wires(edges, carriers), ps, v, k) <==> EdgeWalk(edges, carriers, ps, v, k)
    decreases k
  {
    hide Wires;
    var wires := Wires(edges, carriers);
    if k > 0 && Walk(wires, ps, v, k) {
      var j: nat :| j < |wires| && wires[j].dst == v && Walk(wires, ps, wires[j].src, k - 1);
      WalksAreEdgeWalks(edges, carriers, ps, wires[j].src, k - 1);
      var i := EdgeOfWire(edges, carriers, j);
      assert edges[i].linkType in carriers && edges[i].dst == v && EdgeWalk(edges, carriers, ps, edges[i].src, k - 1);
    }
    if k > 0 && EdgeWalk(edges, carriers, ps, v, k) {
      var i: nat :| i < |edges| && edges[i].linkType in carriers && edges[i].dst == v
        && EdgeWalk(edges, carriers, ps, edges[i].src, k - 1);
      WalksAreEdgeWalks(edges, carriers, ps, edges[i].src, k - 1);
      var j := WireOfEdge(edges, carriers, i);
      assert wires[j].dst == v && Walk(wires, ps, wires[j].src, k - 1);
    }
  }

  /**
   * What `Propagate` returns as hop of an object is the length of a walk along carrying edges, in
   * their direction; without pruning it is the shortest, and every object within `maxHops` has one.
   */
  lemma HopsFollowEdges(o: Options, edges: seq<Edge>, carriers: Carriers, ps: seq<Perturbation>, v: Rid)
    ensures var w := Propagated(o, Wires(edges, carriers), ps);
      && (v in w.hop ==> w.hop[v] <= Max(0, o.maxHops) && EdgeWalk(edges, carriers, ps, v, w.hop[v]))
      && (o.pruneBelow <= 0.0 && o.maxHops >= 0 ==>
            && (v in w.hop <==> exists k: nat :: k <= o.maxHops && EdgeWalk(edges, carriers, ps, v, k))
            && (v in w.hop ==> forall k: nat :: k < w.hop[v] ==> !EdgeWalk(edges, carriers, ps, v, k)))
  {
    var wires := Wires(edges, carriers);
    hide Propagated, Wires, Walk, EdgeWalk, Queued, HopOf, Distinct;
    forall k: nat ensures Walk(wires, ps, v, k) <==> EdgeWalk(edges, carriers, ps, v, k) {
      WalksAreEdgeWalks(edges, carriers, ps, v, k);
    }
    ImpactIsSound(o, wires, ps);
    if o.pruneBelow <= 0.0 && o.maxHops >= 0 {
      HopIsDistance(o, wires, ps, v);
      if k: nat :| k <= o.maxHops && Walk(wires, ps, v, k) {
        assert EdgeWalk(edges, carriers, ps, v, k);
      }
      if k: nat :| k <= o.maxHops && EdgeWalk(edges, carriers, ps, v, k) {
        assert Walk(wires, ps, v, k);
      }
    }
  }

  // --- Sums along edges ---------------------------------------------------------------------------

  function WeightOf(e: Edge, carriers: Carriers): real
    requires e.linkType in carriers
  {
    match e.weight
    case Some(own) => own
    case None => carriers[e.linkType]
  }

  /** What a carrying edge into `v` from an object one layer before it brings: weight * change * gamma ^ layer of `v`. */
  function EdgeTerm(o: Options, e: Edge, carriers: Carriers, level: map<Rid, nat>, delta: map<Rid, real>, v: Rid): real
    requires v in level
  {
    if e.linkType in carriers && e.dst == v && e.src in level && level[e.src] + 1 == level[v] <= o.maxHops && e.src in delta
    then WeightOf(e, carriers) * delta[e.src] * Power(o.gamma, level[v]) else 0.0
  }

  function EdgeSum(o: Options, edges: seq<Edge>, carriers: Carriers, level: map<Rid, nat>, delta: map<Rid, real>, v: Rid, n: nat): real
    requires n <= |edges| && v in level
  {
    if n == 0 then 0.0
    else EdgeSum(o, edges, carriers, level, delta, v, n - 1) + EdgeTerm(o, edges[n - 1], carriers, level, delta, v)
  }

  /** Every perturbed object is in layer 0, and each carrying edge out of a layered object leads to the next layer. */
  ghost predicate EdgesLayered(edges: seq<Edge>, carriers: Carriers, ps: seq<Perturbation>, level: map<Rid, nat>) {
    && (forall i :: 0 <= i < |ps| ==> ps[i].rid in level && level[ps[i].rid] == 0)
    && (forall i :: 0 <= i < |edges| && edges[i].linkType in carriers && edges[i].src in level ==>
          edges[i].dst in level && level[edges[i].dst] == level[edges[i].src] + 1)
  }

  lemma LayeredByEdges(c: Slice, edges: seq<Edge>, carriers: Carriers)
    requires EdgesLayered(edges, carriers, c.ps, c.level) && c.wires == Wires(edges, carriers)
    ensures Layered(c)
  {
    var at := WiresByEdge(edges, carriers);
    hide Wires;
    forall k | 0 <= k < |c.wires| && c.wires[k].src in c.level
      ensures c.wires[k].dst in c.level && c.level[c.wires[k].dst] == c.level[c.wires[k].src] + 1
    {
      assert edges[at[k]].linkType in carriers;
    }
  }

  lemma {:induction false} WiresPrefix(edges: seq<Edge>, carriers: Carriers, m: nat)
    requires m <= |edges|
    ensures Wires(edges[..m], carriers) <= Wires(edges, carriers)
  {
    if m < |edges| {
      var n := |edges| - 1;
      WiresPrefix(edges[..n], carriers, m);
      assert edges[..n][..m] == edges[..m];
    } else {
      assert edges[..m] == edges;
    }
  }

  lemma TermOfWire(c: Slice, e: Edge, carriers: Carriers, w: Wave, v: Rid)
    requires e.linkType in carriers && v in c.level
    ensures var wire := Wire(e.src, e.dst, WeightOf(e, carriers));
      EdgeTerm(c.o, e, carriers, c.level, w.delta, v)
        == if Counts(c, wire, v) then Contribution(c.o, wire.weight, DeltaOf(w, e.src), c.level[e.src]) else 0.0
  {
    hide Power, WeightOf;
    if e.src in c.level {
      ZeroContribution(c.o, WeightOf(e, carriers), c.level[e.src]);
    }
  }

  lemma {:induction false} SumByEdges(c: Slice, edges: seq<Edge>, carriers: Carriers, w: Wave, v: Rid, m: nat)
    requires c.wires == Wires(edges, carriers) && m <= |edges| && v in c.level
    ensures |Wires(edges[..m], carriers)| <= |c.wires|
    ensures WireSum(c, w, v, |Wires(edges[..m], carriers)|) == EdgeSum(c.o, edges, carriers, c.level, w.delta, v, m)
  {
    hide Contribution, EdgeTerm, Counts, DeltaOf;
    WiresPrefix(edges, carriers, m);
    if m > 0 {
      SumByEdges(c, edges, carriers, w, v, m - 1);
      PrefixSnoc(edges, m - 1);
      var e, front := edges[m - 1], Wires(edges[..m - 1], carriers);
      if e.linkType in carriers {
        assert Wires(edges[..m], carriers) == front + [Wire(e.src, e.dst, WeightOf(e, carriers))];
        assert c.wires[|front|] == Wires(edges[..m], carriers)[|front|];
        TermOfWire(c, e, carriers, w, v);
      } else {
        assert EdgeTerm(c.o, e, carriers, c.level, w.delta, v) == 0.0 by {
          NoTerm(c.o, e, carriers, c.level, w.delta, v);
        }
      }
    }
  }

  lemma NoTerm(o: Options, e: Edge, carriers: Carriers, level: map<Rid, nat>, delta: map<Rid, real>, v: Rid)
    requires v in level && e.linkType !in carriers
    ensures EdgeTerm(o, e, carriers, level, delta, v) == 0.0
  {
  }

  /**
   * The sum rule of `Propagate` for an object behind the sources of a layered slice in which
   * nothing is clamped or pruned: its change is the sum over the carrying edges into it.
   */
  lemma ChangesAddUpAlongEdges(o: Options, edges: seq<Edge>, carriers: Carriers, ps: seq<Perturbation>, level: map<Rid, nat>, v: Rid)
    requires EdgesLayered(edges, carriers, ps, level) && v in level && level[v] > 0
    requires var c := Slice(o, Wires(edges, carriers), ps, level); Unclamped(c) && Unpruned(c)
    ensures var w := Propagated(o, Wires(edges, carriers), ps);
      && (v in w.hop ==> w.hop[v] == level[v])
      && DeltaOf(w, v) == EdgeSum(o, edges, carriers, level, w.delta, v, |edges|)
  {
    var c := Slice(o, Wires(edges, carriers), ps, level);
    LayeredByEdges(c, edges, carriers);
    hide Propagated, Unclamped, Unpruned, Layered, EdgesLayered, SourceChange;
    LayeredImpact(c, v);
    SumByEdges(c, edges, carriers, Propagated(o, c.wires, ps), v, |edges|);
    assert edges[..|edges|] == edges;
  }

  // --- One edge: what is clamped and what is pruned -------------------------------------------------

  /** A change brought into [-1, 1]. */
  ghost predicate Bounded(change: real, r: real) {
    && (-1.0 <= change <= 1.0 ==> r == change) && (change < -1.0 ==> r == -1.0) && (change > 1.0 ==> r == 1.0)
  }

  /** Perturbations of one object add up in their order, each time brought into [-1, 1]; nothing else starts with a change. */
  lemma {:induction false} PerturbationsAddUp(ps: seq<Perturbation>, i: nat)
    requires i < |ps| && forall k :: i < k < |ps| ==> ps[k].rid != ps[i].rid
    ensures Bounded(DeltaOf(Start(ps[..i]), ps[i].rid) + ps[i].change, DeltaOf(Start(ps), ps[i].rid))
    ensures forall v :: v in Start(ps).delta ==> exists k :: 0 <= k < |ps| && ps[k].rid == v
  {
    StartOnlySources(ps);
    var n := |ps| - 1;
    if i < n {
      assert ps[..n][..i] == ps[..i];
      PerturbationsAddUp(ps[..n], i);
    }
  }

  /**
   * One perturbation and one carrying edge: the perturbed object holds its change, brought into
   * [-1, 1]. If it is the edge's source, the target receives weight * change * gamma, brought into
   * [-1, 1], unless that is below `pruneBelow` in size; if it is not, nothing else changes.
   */
  lemma OneEdge(o: Options, e: Edge, carriers: Carriers, p: Perturbation, a: real, b: real)
    requires e.linkType in carriers && e.src != e.dst && o.maxHops >= 1
    requires Bounded(p.change, a) && Bounded(WeightOf(e, carriers) * a * o.gamma, b)
    ensures var w, c := Propagated(o, Wires([e], carriers), [p]), WeightOf(e, carriers) * a * o.gamma;
      if p.rid == e.src && !(-o.pruneBelow < c < o.pruneBelow)
      then w.delta == map[e.src := a, e.dst := b] && w.hop == map[e.src := 0, e.dst := 1]
      else w.delta == map[p.rid := a] && w.hop == map[p.rid := 0]
  {
    var wire, c := Wire(e.src, e.dst, WeightOf(e, carriers)), WeightOf(e, carriers) * a * o.gamma;
    OneWire(e, carriers, wire);
    OneSource(p, a);
    assert Power(o.gamma, 1) == o.gamma * Power(o.gamma, 0);
    assert Contribution(o, wire.weight, a, 0) == c;
    hide Contribution, WeightOf, Wires, Start, Power;
    var w := Wave(map[p.rid := a], map[p.rid := 0], [p.rid]);
    OneVisit(o, wire, w, p.rid, a, b, c);
    hide Visit;
    RestVisited(o, wire, p, Visit(o, [wire], w, p.rid), e.dst);
  }

  lemma OneWire(e: Edge, carriers: Carriers, wire: Wire)
    requires e.linkType in carriers && wire == Wire(e.src, e.dst, WeightOf(e, carriers))
    ensures Wires([e], carriers) == [wire]
  {
    assert [e][..0] == [];
    assert Wires([e], carriers) == [] + [wire];
  }

  lemma OneSource(p: Perturbation, a: real)
    requires Bounded(p.change, a)
    ensures Start([p]) == Wave(map[p.rid := a], map[p.rid := 0], [p.rid])
  {
    assert [p][..0] == [];
    assert Start([]) == Wave(map[], map[], []);
  }

  lemma OneVisit(o: Options, wire: Wire, w: Wave, v: Rid, a: real, b: real, c: real)
    requires o.maxHops >= 1 && wire.src != wire.dst && w == Wave(map[v := a], map[v := 0], [v])
    requires Bounded(c, b) && c == Contribution(o, wire.weight, a, 0)
    ensures Visit(o, [wire], w, v) ==
        if v == wire.src && !(-o.pruneBelow < c < o.pruneBelow)
        then Wave(map[v := a, wire.dst := b], map[v := 0, wire.dst := 1], [v, wire.dst]) else w
  {
    hide Contribution;
    assert [wire][..0] == [];
    if v == wire.src {
      assert Outgoing([wire], v) == [] + [wire] == [wire];
      assert ReadAll(o, w, [wire], a, 0) == Read(o, w, wire, a, 0);
    } else {
      assert Outgoing([wire], v) == [];
    }
  }

  /** The edge's target has no carrying edge out of it. */
  lemma RestVisited(o: Options, wire: Wire, p: Perturbation, r: Wave, dst: Rid)
    requires r == Visit(o, [wire], Start([p]), p.rid) && Start([p]).queue == [p.rid] && wire.dst == dst != wire.src
    requires r.queue == [p.rid] || r.queue == [p.rid, dst]
    ensures Propagated(o, [wire], [p]) == r
  {
    assert Run(o, [wire], [p], 0) == Start([p]);
    assert Run(o, [wire], [p], 1) == r;
    hide Start;
    if r.queue == [p.rid, dst] {
      assert [wire][..0] == [];
      assert Outgoing([wire], dst) == [];
    }
  }

  lemma Regroup(x: real, y: real, z: real)
    ensures x * (y * z) == (x * y) * z
  {
  }

  /** Damping compounds: a power of gamma per hop. */
  lemma {:induction false} PowerLaws(base: real, m: nat, n: nat)
    ensures Power(base, 0) == 1.0 && Power(base, 1) == base && Power(base, m + n) == Power(base, m) * Power(base, n)
  {
    if m > 0 {
      PowerLaws(base, m - 1, n);
      Regroup(base, Power(base, m - 1), Power(base, n));
    }
  }
}
