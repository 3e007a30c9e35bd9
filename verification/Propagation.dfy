/**
 * Impact propagation through a graph slice (propagation.ts): a first-in first-out traversal
 * over an index-pointer queue that accumulates damped, clamped and pruned contributions.
 */
module Propagation {
  import opened Common

  /** Object identifiers; the traversal only compares them. */
  type Rid = nat

  datatype Edge = Edge(linkType: string, src: Rid, dst: Rid, weight: Option<real>)

  /** The default weight of a link type that declares propagation. */
  type Carriers = map<string, real>

  /** An edge that carries propagation, with the weight in force. */
  datatype Wire = Wire(src: Rid, dst: Rid, weight: real)

  datatype Perturbation = Perturbation(rid: Rid, change: real)

  datatype Options = Options(gamma: real, maxHops: int, pruneBelow: real)

  /** Accumulated change, hop distance and visiting order. */
  datatype Wave = Wave(delta: map<Rid, real>, hop: map<Rid, nat>, queue: seq<Rid>)

  function Clamp(v: real, lo: real, hi: real): real {
    if v < lo then lo else if v > hi then hi else v
  }

  function Abs(v: real): real {
    if v < 0.0 then -v else v
  }

  function Power(base: real, n: nat): real {
    if n == 0 then 1.0 else base * Power(base, n - 1)
  }

  // --- Adjacency ------------------------------------------------------------------------

  /** The wires among the edges, in edge order. */
  function Wires(edges: seq<Edge>, carriers: Carriers): seq<Wire> {
    if edges == [] then []
    else
      var e := edges[|edges| - 1];
      Wires(edges[..|edges| - 1], carriers)
      + if e.linkType in carriers
        then [Wire(e.src, e.dst, if e.weight.Some? then e.weight.value else carriers[e.linkType])]
        else []
  }

  function Outgoing(wires: seq<Wire>, src: Rid): seq<Wire> {
    if wires == [] then []
    else
      var e := wires[|wires| - 1];
      Outgoing(wires[..|wires| - 1], src) + if e.src == src then [e] else []
  }

  lemma OutgoingSnoc(wires: seq<Wire>, e: Wire, src: Rid)
    ensures Outgoing(wires + [e], src) == Outgoing(wires, src) + if e.src == src then [e] else []
  {
    assert (wires + [e])[..|wires|] == wires;
  }

  function At(adj: map<Rid, seq<Wire>>, src: Rid): seq<Wire> {
    if src in adj then adj[src] else []
  }

  method OutAdjacency(edges: seq<Edge>, carriers: Carriers) returns (adj: map<Rid, seq<Wire>>)
    ensures forall src :: At(adj, src) == Outgoing(Wires(edges, carriers), src)
  {
    adj := map[];
    for i := 0 to |edges|
      invariant forall src :: At(adj, src) == Outgoing(Wires(edges[..i], carriers), src)
    {
      PrefixSnoc(edges, i);
      var e := edges[i];
      assert Wires(edges[..i + 1], carriers) == Wires(edges[..i], carriers)
        + if e.linkType !in carriers then [] else [Wire(e.src, e.dst, if e.weight.Some? then e.weight.value else carriers[e.linkType])];
      hide Wires, Outgoing;
      if e.linkType !in carriers {
        assert Wires(edges[..i + 1], carriers) == Wires(edges[..i], carriers);
        continue;
      }
      var wire := Wire(e.src, e.dst, if e.weight.Some? then e.weight.value else carriers[e.linkType]);
      ghost var before := adj;
      adj := if e.src in adj then adj[e.src := adj[e.src] + [wire]] else adj[e.src := [wire]];
      forall src ensures At(adj, src) == Outgoing(Wires(edges[..i + 1], carriers), src) {
        OutgoingSnoc(Wires(edges[..i], carriers), wire, src);
        assert At(before, src) == Outgoing(Wires(edges[..i], carriers), src);
      }
    }
    assert edges[..|edges|] == edges;
  }

  // --- One traversal ------------------------------------------------------------------------

  function DeltaOf(w: Wave, v: Rid): real {
    if v in w.delta then w.delta[v] else 0.0
  }

  /** Adds a change to `v`, which joins the queue at distance `d` when it is new. */
  function Receive(w: Wave, v: Rid, change: real, d: nat): Wave {
    var delta := w.delta[v := Clamp(DeltaOf(w, v) + change, -1.0, 1.0)];
    if v in w.hop then w.(delta := delta) else Wave(delta, w.hop[v := d], w.queue + [v])
  }

  function Start(ps: seq<Perturbation>): Wave {
    if ps == [] then Wave(map[], map[], [])
    else
      var p := ps[|ps| - 1];
      Receive(Start(ps[..|ps| - 1]), p.rid, p.change, 0)
  }

  function Contribution(o: Options, weight: real, di: real, d: nat): real {
    weight * di * Power(o.gamma, d + 1)
  }

  function Read(o: Options, w: Wave, e: Wire, di: real, d: nat): Wave {
    var c := Contribution(o, e.weight, di, d);
    if Abs(c) < o.pruneBelow then w else Receive(w, e.dst, c, d + 1)
  }

  function ReadAll(o: Options, w: Wave, es: seq<Wire>, di: real, d: nat): Wave {
    if es == [] then w
    else Read(o, ReadAll(o, w, es[..|es| - 1], di, d), es[|es| - 1], di, d)
  }

  function HopOf(w: Wave, v: Rid): nat {
    if v in w.hop then w.hop[v] else 0
  }

  /** Takes the node `v` from the queue and passes its change on, unless it is too far. */
  function Visit(o: Options, wires: seq<Wire>, w: Wave, v: Rid): Wave {
    if HopOf(w, v) >= o.maxHops then w
    else ReadAll(o, w, Outgoing(wires, v), DeltaOf(w, v), HopOf(w, v))
  }

  /** The wave after `n` nodes were taken from the queue (or all of them, if fewer). */
  function Run(o: Options, wires: seq<Wire>, ps: seq<Perturbation>, n: nat): Wave {
    if n == 0 then Start(ps)
    else
      var w := Run(o, wires, ps, n - 1);
      if n - 1 < |w.queue| then Visit(o, wires, w, w.queue[n - 1]) else w
  }

  /** Every node is a source or the end of a wire, so this many visits are enough. */
  function Propagated(o: Options, wires: seq<Wire>, ps: seq<Perturbation>): Wave {
    Run(o, wires, ps, |ps| + |wires|)
  }

  // --- What every wave keeps ------------------------------------------------------------------

  ghost predicate Reachable(wires: seq<Wire>, ps: seq<Perturbation>, v: Rid) {
    || (exists i :: 0 <= i < |ps| && ps[i].rid == v)
    || (exists i :: 0 <= i < |wires| && wires[i].dst == v)
  }

  ghost predicate Queued(queue: seq<Rid>, v: Rid) {
    exists i :: 0 <= i < |queue| && queue[i] == v
  }

  /** Distances along the queue never decrease, and stay within one step of `front`. */
  ghost predicate Layers(w: Wave, front: nat) {
    && (forall i :: 0 <= i < |w.queue| ==> w.queue[i] in w.hop)
    && (forall i, j :: 0 <= i < j < |w.queue| ==> HopOf(w, w.queue[i]) <= HopOf(w, w.queue[j]))
    && (forall i :: 0 <= i < |w.queue| ==> HopOf(w, w.queue[i]) <= front + 1)
  }

  ghost predicate Sound(o: Options, wires: seq<Wire>, ps: seq<Perturbation>, w: Wave) {
    && Distinct(w.queue)
    && w.delta.Keys == w.hop.Keys
    && (forall i :: 0 <= i < |w.queue| ==> w.queue[i] in w.hop)
    && (forall v :: v in w.hop ==> Queued(w.queue, v))
    && (forall v :: v in w.delta ==> -1.0 <= w.delta[v] <= 1.0)
    && (forall v :: v in w.hop ==> w.hop[v] <= Max(0, o.maxHops) && Reachable(wires, ps, v))
  }

  /** `r` keeps the queue and the distances of `w`; whatever is new lies at distance `d`. */
  ghost predicate Extends(w: Wave, r: Wave, d: nat) {
    && w.queue <= r.queue
    && (forall x :: x in w.hop ==> x in r.hop && r.hop[x] == w.hop[x])
    && (forall x :: x in r.hop && x !in w.hop ==> r.hop[x] == d)
  }

  lemma ReceiveSound(o: Options, wires: seq<Wire>, ps: seq<Perturbation>, w: Wave, v: Rid, change: real, d: nat)
    requires Sound(o, wires, ps, w)
    requires Reachable(wires, ps, v) && d <= Max(0, o.maxHops)
    ensures Sound(o, wires, ps, Receive(w, v, change, d))
  {
    var r := Receive(w, v, change, d);
    assert -1.0 <= Clamp(DeltaOf(w, v) + change, -1.0, 1.0) <= 1.0;
    hide Clamp, DeltaOf, Reachable;
    if v !in w.hop {
      assert r.queue[|w.queue|] == v;
      forall x | x in r.hop ensures Queued(r.queue, x) {
        if x != v {
          var i :| 0 <= i < |w.queue| && w.queue[i] == x;
          assert r.queue[i] == x;
        }
      }
    }
  }

  lemma ReceiveLayers(w: Wave, v: Rid, change: real, d: nat, front: nat)
    requires Layers(w, front) && d <= front + 1
    requires forall i :: 0 <= i < |w.queue| ==> HopOf(w, w.queue[i]) <= d
    ensures Layers(Receive(w, v, change, d), front)
  {
    var r := Receive(w, v, change, d);
    forall i | 0 <= i < |r.queue| ensures r.queue[i] in r.hop && HopOf(r, r.queue[i]) == if i < |w.queue| then HopOf(w, w.queue[i]) else d {
    }
  }

  lemma ReceiveKeeps(o: Options, wires: seq<Wire>, ps: seq<Perturbation>, w: Wave, v: Rid, change: real, d: nat, front: nat)
    requires Sound(o, wires, ps, w) && Layers(w, front)
    requires Reachable(wires, ps, v) && d <= Max(0, o.maxHops)
    requires d <= front + 1
    requires forall i :: 0 <= i < |w.queue| ==> HopOf(w, w.queue[i]) <= d
    ensures var r := Receive(w, v, change, d);
      Sound(o, wires, ps, r) && Layers(r, front) && Extends(w, r, d) && v in r.hop
  {
    ReceiveSound(o, wires, ps, w, v, change, d);
    ReceiveLayers(w, v, change, d, front);
    ReceiveExtends(w, v, change, d);
    hide Sound, Layers, Extends, Reachable, Receive;
  }

  lemma ReceiveExtends(w: Wave, v: Rid, change: real, d: nat)
    ensures Extends(w, Receive(w, v, change, d), d) && v in Receive(w, v, change, d).hop
  {
    hide Clamp, DeltaOf;
  }

  lemma {:induction false} StartKeeps(o: Options, wires: seq<Wire>, all: seq<Perturbation>, n: nat)
    requires n <= |all|
    ensures var w := Start(all[..n]);
      Sound(o, wires, all, w) && Layers(w, 0) && forall v :: v in w.hop ==> w.hop[v] == 0
  {
    if n == 0 {
    } else {
      StartKeeps(o, wires, all, n - 1);
      PrefixSnoc(all, n - 1);
      assert Reachable(wires, all, all[n - 1].rid);
      hide Sound, Reachable;
      ReceiveKeeps(o, wires, all, Start(all[..n - 1]), all[n - 1].rid, all[n - 1].change, 0, 0);
    }
  }

  ghost predicate AllReachable(wires: seq<Wire>, ps: seq<Perturbation>, es: seq<Wire>) {
    forall i :: 0 <= i < |es| ==> Reachable(wires, ps, es[i].dst)
  }

  lemma ReadKeeps(o: Options, wires: seq<Wire>, ps: seq<Perturbation>, w: Wave, e: Wire, di: real, d: nat)
    requires Sound(o, wires, ps, w) && Layers(w, d) && d < o.maxHops
    requires Reachable(wires, ps, e.dst)
    ensures var r := Read(o, w, e, di, d);
      Sound(o, wires, ps, r) && Layers(r, d) && Extends(w, r, d + 1)
      && (o.pruneBelow <= 0.0 ==> e.dst in r.hop)
  {
    hide Sound, Layers, Extends, Reachable, Contribution, Receive, HopOf, Abs;
    var c := Contribution(o, e.weight, di, d);
    NothingRead(w, d, c);
    if Abs(c) >= o.pruneBelow {
      ReceiveKeeps(o, wires, ps, w, e.dst, c, d + 1, d);
    }
  }

  lemma NothingRead(w: Wave, d: nat, c: real)
    requires Layers(w, d)
    ensures Extends(w, w, d + 1) && Abs(c) >= 0.0
    ensures forall i :: 0 <= i < |w.queue| ==> HopOf(w, w.queue[i]) <= d + 1
  {
  }

  lemma ExtendsTransitive(a: Wave, b: Wave, c: Wave, d: nat)
    requires Extends(a, b, d) && Extends(b, c, d)
    ensures Extends(a, c, d)
  {
  }

  /** Reading wires out of a node at distance `d` while no distance exceeds `d + 1`. */
  lemma {:induction false} ReadAllKeeps(o: Options, wires: seq<Wire>, ps: seq<Perturbation>, w: Wave,
                                        es: seq<Wire>, di: real, d: nat)
    requires Sound(o, wires, ps, w) && Layers(w, d) && d < o.maxHops
    requires AllReachable(wires, ps, es)
    ensures var r := ReadAll(o, w, es, di, d);
      Sound(o, wires, ps, r) && Layers(r, d) && Extends(w, r, d + 1)
  {
    if es == [] {
    } else {
      var n := |es| - 1;
      ReadAllKeeps(o, wires, ps, w, es[..n], di, d);
      var mid := ReadAll(o, w, es[..n], di, d);
      ReadKeeps(o, wires, ps, mid, es[n], di, d);
      ExtendsTransitive(w, mid, ReadAll(o, w, es, di, d), d + 1);
    }
  }

  /** Without pruning, every wire read reaches its end. */
  lemma {:induction false} ReadAllReaches(o: Options, w: Wave, es: seq<Wire>, di: real, d: nat, i: nat)
    requires o.pruneBelow <= 0.0 && i < |es|
    ensures es[i].dst in ReadAll(o, w, es, di, d).hop
  {
    var n := |es| - 1;
    if i < n {
      ReadAllReaches(o, w, es[..n], di, d, i);
    }
  }

  lemma {:induction false} OutgoingAreWires(wires: seq<Wire>, src: Rid)
    ensures forall i :: 0 <= i < |Outgoing(wires, src)| ==>
      Outgoing(wires, src)[i] in wires && Outgoing(wires, src)[i].src == src
  {
    if wires == [] {
    } else {
      OutgoingAreWires(wires[..|wires| - 1], src);
      assert wires[|wires| - 1] in wires;
    }
  }

  lemma {:induction false} WiresAreOutgoing(wires: seq<Wire>, i: nat)
    requires i < |wires|
    ensures exists k :: 0 <= k < |Outgoing(wires, wires[i].src)| && Outgoing(wires, wires[i].src)[k] == wires[i]
  {
    var n := |wires| - 1;
    var src := wires[i].src;
    if i < n {
      WiresAreOutgoing(wires[..n], i);
      var k :| 0 <= k < |Outgoing(wires[..n], src)| && Outgoing(wires[..n], src)[k] == wires[i];
      assert Outgoing(wires, src)[k] == wires[i];
    } else {
      assert Outgoing(wires, src)[|Outgoing(wires[..n], src)|] == wires[i];
    }
  }

  /** The distance of the node to be visited next, or of the last one. */
  function Front(w: Wave, n: nat): nat {
    if n < |w.queue| then HopOf(w, w.queue[n]) else if w.queue == [] then 0 else HopOf(w, w.queue[|w.queue| - 1])
  }

  lemma OutgoingReachable(wires: seq<Wire>, ps: seq<Perturbation>, v: Rid)
    ensures AllReachable(wires, ps, Outgoing(wires, v))
  {
    var es := Outgoing(wires, v);
    OutgoingAreWires(wires, v);
    forall i | 0 <= i < |es| ensures Reachable(wires, ps, es[i].dst) {
      var k :| 0 <= k < |wires| && wires[k] == es[i];
      assert wires[k].dst == es[i].dst;
    }
  }

  lemma VisitKeeps(o: Options, wires: seq<Wire>, ps: seq<Perturbation>, w: Wave, v: Rid)
    requires Sound(o, wires, ps, w) && Layers(w, HopOf(w, v))
    ensures var r := Visit(o, wires, w, v);
      Sound(o, wires, ps, r) && Layers(r, HopOf(w, v)) && Extends(w, r, HopOf(w, v) + 1)
  {
    if HopOf(w, v) < o.maxHops {
      OutgoingReachable(wires, ps, v);
      ReadAllKeeps(o, wires, ps, w, Outgoing(wires, v), DeltaOf(w, v), HopOf(w, v));
    }
  }

  lemma LayersWiden(w: Wave, front: nat, wider: nat)
    requires Layers(w, front) && front <= wider
    ensures Layers(w, wider)
  {
  }

  lemma FrontMoves(w: Wave, r: Wave, n: nat)
    requires n < |w.queue| && w.queue <= r.queue && Layers(r, Front(w, n)) && Layers(w, Front(w, n))
    requires HopOf(r, w.queue[n]) == HopOf(w, w.queue[n])
    ensures Front(w, n) <= Front(r, n + 1)
  {
    assert r.queue[n] == w.queue[n];
  }

  /** The wave `w`, after `n` visits, is sound and layered. */
  ghost predicate Orderly(o: Options, wires: seq<Wire>, ps: seq<Perturbation>, w: Wave, n: nat) {
    Sound(o, wires, ps, w) && Layers(w, Front(w, n))
  }

  lemma VisitOrderly(o: Options, wires: seq<Wire>, ps: seq<Perturbation>, w: Wave, n: nat)
    requires Orderly(o, wires, ps, w, n) && n < |w.queue|
    ensures Orderly(o, wires, ps, Visit(o, wires, w, w.queue[n]), n + 1)
    ensures Extends(w, Visit(o, wires, w, w.queue[n]), HopOf(w, w.queue[n]) + 1)
  {
    var r := Visit(o, wires, w, w.queue[n]);
    assert w.queue[n] in w.hop;
    VisitKeeps(o, wires, ps, w, w.queue[n]);
    FrontMoves(w, r, n);
    LayersWiden(r, Front(w, n), Front(r, n + 1));
  }

  lemma StartOrderly(o: Options, wires: seq<Wire>, ps: seq<Perturbation>)
    ensures Orderly(o, wires, ps, Start(ps), 0)
    ensures forall v :: v in Start(ps).hop ==> Start(ps).hop[v] == 0
  {
    assert ps[..|ps|] == ps;
    StartKeeps(o, wires, ps, |ps|);
  }

  /** The wave is orderly after any number of visits. */
  lemma {:induction false} RunKeeps(o: Options, wires: seq<Wire>, ps: seq<Perturbation>, n: nat)
    ensures Orderly(o, wires, ps, Run(o, wires, ps, n), n)
  {
    hide Start, Visit, Orderly, Extends;
    if n == 0 {
      StartOrderly(o, wires, ps);
    } else {
      var w := Run(o, wires, ps, n - 1);
      RunKeeps(o, wires, ps, n - 1);
      if n - 1 < |w.queue| {
        VisitOrderly(o, wires, ps, w, n - 1);
      } else {
        OrderlyStays(o, wires, ps, w, n - 1);
      }
    }
  }

  lemma OrderlyStays(o: Options, wires: seq<Wire>, ps: seq<Perturbation>, w: Wave, n: nat)
    requires Orderly(o, wires, ps, w, n) && |w.queue| <= n
    ensures Orderly(o, wires, ps, w, n + 1)
  {
  }

  lemma {:induction false} ReachableBound(wires: seq<Wire>, ps: seq<Perturbation>, nodes: seq<Rid>)
    requires Distinct(nodes) && forall i :: 0 <= i < |nodes| ==> Reachable(wires, ps, nodes[i])
    ensures |nodes| <= |ps| + |wires|
  {
    var all := seq(|ps|, i requires 0 <= i < |ps| => ps[i].rid) + seq(|wires|, i requires 0 <= i < |wires| => wires[i].dst);
    forall i | 0 <= i < |nodes| ensures nodes[i] in all {
      if k :| 0 <= k < |ps| && ps[k].rid == nodes[i] {
        assert all[k] == nodes[i];
      } else {
        var k :| 0 <= k < |wires| && wires[k].dst == nodes[i];
        assert all[|ps| + k] == nodes[i];
      }
    }
    DistinctInside(nodes, all);
  }

  lemma DistinctInside<T>(a: seq<T>, b: seq<T>)
    requires Distinct(a) && forall i :: 0 <= i < |a| ==> a[i] in b
    ensures |a| <= |b|
  {
    DistinctSize(a);
    ElementsBound(b);
    SubsetSize(set i | 0 <= i < |a| :: a[i], set x | x in b);
  }

  lemma {:induction false} ElementsBound<T>(b: seq<T>)
    ensures |set x | x in b| <= |b|
  {
    if b == [] {
    } else {
      var n := |b| - 1;
      ElementsBound(b[..n]);
      assert (set x | x in b) == (set x | x in b[..n]) + {b[n]};
    }
  }

  /** Once every queued node was visited, further visits change nothing. */
  lemma {:induction false} RunStops(o: Options, wires: seq<Wire>, ps: seq<Perturbation>, n: nat, m: nat)
    requires n <= m && |Run(o, wires, ps, n).queue| <= n
    ensures Run(o, wires, ps, m) == Run(o, wires, ps, n)
    decreases m
  {
    if n < m {
      RunStops(o, wires, ps, n, m - 1);
    }
  }

  // --- Each wire is read at most once -------------------------------------------------------------

  function OutDegrees(wires: seq<Wire>, nodes: seq<Rid>): nat {
    if nodes == [] then 0
    else OutDegrees(wires, nodes[..|nodes| - 1]) + |Outgoing(wires, nodes[|nodes| - 1])|
  }

  lemma {:induction false} OutDegreesSnoc(wires: seq<Wire>, e: Wire, nodes: seq<Rid>)
    requires Distinct(nodes)
    ensures OutDegrees(wires + [e], nodes) == OutDegrees(wires, nodes) + if e.src in nodes then 1 else 0
  {
    if nodes == [] {
    } else {
      var n := |nodes| - 1;
      OutDegreesSnoc(wires, e, nodes[..n]);
      OutgoingSnoc(wires, e, nodes[n]);
      assert nodes == nodes[..n] + [nodes[n]];
    }
  }

  lemma {:induction false} NoOutDegrees(nodes: seq<Rid>)
    ensures OutDegrees([], nodes) == 0
  {
    if nodes == [] {
    } else {
      NoOutDegrees(nodes[..|nodes| - 1]);
    }
  }

  /** Distinct nodes have no wire in common. */
  lemma {:induction false} OutDegreesBound(wires: seq<Wire>, nodes: seq<Rid>)
    requires Distinct(nodes)
    ensures OutDegrees(wires, nodes) <= |wires|
  {
    if wires == [] {
      NoOutDegrees(nodes);
    } else {
      var n := |wires| - 1;
      OutDegreesBound(wires[..n], nodes);
      OutDegreesSnoc(wires[..n], wires[n], nodes);
      assert wires == wires[..n] + [wires[n]];
    }
  }

  // --- The traversal itself ---------------------------------------------------------------------------

  /** The body of the traversal loop: one node, all its wires. */
  method VisitNode(o: Options, adj: map<Rid, seq<Wire>>, ghost wires: seq<Wire>, before: Wave, v: Rid)
    returns (w: Wave, ghost steps: nat)
    requires forall src :: At(adj, src) == Outgoing(wires, src)
    requires v in before.hop
    ensures w == Visit(o, wires, before, v)
    ensures steps <= |Outgoing(wires, v)|
  {
    hide Contribution, Clamp, Abs, Outgoing;
    w, steps := before, 0;
    var d := before.hop[v];
    if d >= o.maxHops {
      return;
    }
    var di := DeltaOf(before, v);
    var es := At(adj, v);
    for k := 0 to |es|
      invariant w == ReadAll(o, before, es[..k], di, d)
      invariant steps == k
    {
      PrefixSnoc(es, k);
      var e := es[k];
      steps := steps + 1;
      var contrib := Contribution(o, e.weight, di, d);
      if Abs(contrib) < o.pruneBelow {
        continue;
      }
      w := w.(delta := w.delta[e.dst := Clamp(DeltaOf(w, e.dst) + contrib, -1.0, 1.0)]);
      if e.dst !in w.hop {
        w := w.(hop := w.hop[e.dst := d + 1], queue := w.queue + [e.dst]);
      }
    }
    assert es[..|es|] == es;
  }

  method Seed(ps: seq<Perturbation>) returns (w: Wave)
    ensures w == Start(ps)
  {
    w := Wave(map[], map[], []);
    for i := 0 to |ps|
      invariant w == Start(ps[..i])
    {
      PrefixSnoc(ps, i);
      var p := ps[i];
      w := w.(delta := w.delta[p.rid := Clamp(DeltaOf(w, p.rid) + p.change, -1.0, 1.0)]);
      if p.rid !in w.hop {
        w := w.(hop := w.hop[p.rid := 0], queue := w.queue + [p.rid]);
      }
    }
    assert ps[..|ps|] == ps;
  }

  method Propagate(edges: seq<Edge>, carriers: Carriers, ps: seq<Perturbation>, o: Options)
    returns (delta: map<Rid, real>, hop: map<Rid, nat>, ghost steps: nat)
    ensures var w := Propagated(o, Wires(edges, carriers), ps); delta == w.delta && hop == w.hop
    ensures steps <= |Wires(edges, carriers)| <= |edges|
  {
    hide Start, Visit, OutDegrees;
    ghost var wires := Wires(edges, carriers);
    WiresBound(edges, carriers);
    var adj := OutAdjacency(edges, carriers);
    var w := Seed(ps);
    var head := 0;
    steps := 0;
    WithinBound(o, wires, ps, 0);
    while head < |w.queue|
      invariant 0 <= head <= |w.queue| <= |ps| + |wires|
      invariant w == Run(o, wires, ps, head)
      invariant steps <= OutDegrees(wires, w.queue[..head])
      decreases |ps| + |wires| - head
    {
      NextVisit(o, wires, ps, w, head);
      var r, more := VisitNode(o, adj, wires, w, w.queue[head]);
      w, head, steps := r, head + 1, steps + more;
    }
    RunStops(o, wires, ps, head, |ps| + |wires|);
    assert w.queue[..head] == w.queue;
    DistinctQueue(o, wires, ps, head);
    OutDegreesBound(wires, w.queue);
    delta, hop := w.delta, w.hop;
  }

  lemma DistinctQueue(o: Options, wires: seq<Wire>, ps: seq<Perturbation>, n: nat)
    ensures Distinct(Run(o, wires, ps, n).queue)
  {
    RunKeeps(o, wires, ps, n);
  }

  lemma OutDegreesStep(wires: seq<Wire>, queue: seq<Rid>, longer: seq<Rid>, n: nat)
    requires n < |queue| && queue <= longer
    ensures OutDegrees(wires, longer[..n + 1]) == OutDegrees(wires, queue[..n]) + |Outgoing(wires, queue[n])|
  {
    hide Outgoing;
    assert longer[..n + 1] == queue[..n + 1];
    PrefixSnoc(queue, n);
  }

  lemma NextReached(o: Options, wires: seq<Wire>, ps: seq<Perturbation>, w: Wave, n: nat)
    requires Orderly(o, wires, ps, w, n) && n < |w.queue|
    ensures w.queue[n] in w.hop && w.queue <= Visit(o, wires, w, w.queue[n]).queue
  {
    hide Visit;
    VisitOrderly(o, wires, ps, w, n);
  }

  /** The next queued node was reached, and visiting it only extends the queue. */
  lemma NextVisit(o: Options, wires: seq<Wire>, ps: seq<Perturbation>, w: Wave, n: nat)
    requires w == Run(o, wires, ps, n) && n < |w.queue|
    ensures w.queue[n] in w.hop
    ensures var r := Visit(o, wires, w, w.queue[n]);
      && w.queue <= r.queue && |r.queue| <= |ps| + |wires|
      && OutDegrees(wires, r.queue[..n + 1]) == OutDegrees(wires, w.queue[..n]) + |Outgoing(wires, w.queue[n])|
  {
    hide Start, Visit, Orderly, OutDegrees;
    RunKeeps(o, wires, ps, n);
    NextReached(o, wires, ps, w, n);
    WithinBound(o, wires, ps, n + 1);
    OutDegreesStep(wires, w.queue, Visit(o, wires, w, w.queue[n]).queue, n);
  }

  lemma WithinBound(o: Options, wires: seq<Wire>, ps: seq<Perturbation>, n: nat)
    ensures |Run(o, wires, ps, n).queue| <= |ps| + |wires|
  {
    RunKeeps(o, wires, ps, n);
    var w := Run(o, wires, ps, n);
    forall i | 0 <= i < |w.queue| ensures Reachable(wires, ps, w.queue[i]) {
      assert w.queue[i] in w.hop;
    }
    ReachableBound(wires, ps, w.queue);
  }

  lemma {:induction false} WiresBound(edges: seq<Edge>, carriers: Carriers)
    ensures |Wires(edges, carriers)| <= |edges|
  {
    if edges == [] {
    } else {
      WiresBound(edges[..|edges| - 1], carriers);
    }
  }
}
