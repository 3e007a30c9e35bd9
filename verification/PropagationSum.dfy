/**
 * The closed form of a propagation: when every wire leads from one layer to the next,
 * nothing is clamped and nothing that matters is pruned, each node ends with the sum of
 * weight * change of the predecessor * gamma ^ distance over its incoming wires.
 */
module PropagationSum {
  import opened Common
  import opened Propagation
  import opened PropagationForm

  /** A traversal together with the layer of every node it may meet. */
  datatype Slice = Slice(o: Options, wires: seq<Wire>, ps: seq<Perturbation>, level: map<Rid, nat>)

  /** Sources are in layer 0, and each wire out of a layered node leads to the next layer. */
  ghost predicate Layered(c: Slice) {
    && (forall i :: 0 <= i < |c.ps| ==> c.ps[i].rid in c.level && c.level[c.ps[i].rid] == 0)
    && (forall i :: 0 <= i < |c.wires| && c.wires[i].src in c.level ==>
          c.wires[i].dst in c.level && c.level[c.wires[i].dst] == c.level[c.wires[i].src] + 1)
  }

  function SourceChange(c: Slice, v: Rid): real {
    DeltaOf(Start(c.ps), v)
  }

  /** The wire counts towards `v`: it ends there and its start is near enough to pass on. */
  predicate Counts(c: Slice, e: Wire, v: Rid) {
    e.dst == v && e.src in c.level && v in c.level && c.level[e.src] + 1 == c.level[v] && c.level[e.src] < c.o.maxHops
  }

  /** The change of `v` by the closed form. */
  ghost function Value(c: Slice, v: Rid): real
    decreases if v in c.level then c.level[v] else 0, |c.wires| + 1
  {
    if v !in c.level then 0.0
    else if c.level[v] == 0 then SourceChange(c, v)
    else InSum(c, v, |c.wires|)
  }

  ghost function InSum(c: Slice, v: Rid, n: nat): real
    requires n <= |c.wires| && v in c.level
    decreases c.level[v], n
  {
    if n == 0 then 0.0
    else
      var e := c.wires[n - 1];
      InSum(c, v, n - 1) + if Counts(c, e, v) then Contribution(c.o, e.weight, Value(c, e.src), c.level[e.src]) else 0.0
  }

  ghost function Term(c: Slice, e: Wire, v: Rid): real {
    if Counts(c, e, v) then Contribution(c.o, e.weight, Value(c, e.src), c.level[e.src]) else 0.0
  }

  function Positive(x: real): real { if x > 0.0 then x else 0.0 }

  function Negative(x: real): real { if x < 0.0 then x else 0.0 }

  ghost function PositiveSum(c: Slice, v: Rid, n: nat): real
    requires n <= |c.wires|
  {
    if n == 0 then 0.0 else PositiveSum(c, v, n - 1) + Positive(Term(c, c.wires[n - 1], v))
  }

  ghost function NegativeSum(c: Slice, v: Rid, n: nat): real
    requires n <= |c.wires|
  {
    if n == 0 then 0.0 else NegativeSum(c, v, n - 1) + Negative(Term(c, c.wires[n - 1], v))
  }

  /** No partial sum of contributions, in any order, can leave [-1, 1]. */
  ghost predicate Unclamped(c: Slice) {
    forall v :: v in c.level ==>
      PositiveSum(c, v, |c.wires|) <= 1.0 && NegativeSum(c, v, |c.wires|) >= -1.0
  }

  /** A pruned contribution is zero. */
  ghost predicate Unpruned(c: Slice) {
    forall i :: 0 <= i < |c.wires| ==>
      Term(c, c.wires[i], c.wires[i].dst) == 0.0 || Abs(Term(c, c.wires[i], c.wires[i].dst)) >= c.o.pruneBelow
  }

  // --- Sums over the wires read so far --------------------------------------------------------

  ghost function MaskSum(c: Slice, v: Rid, r: set<nat>, n: nat): real
    requires n <= |c.wires|
  {
    if n == 0 then 0.0 else MaskSum(c, v, r, n - 1) + if n - 1 in r then Term(c, c.wires[n - 1], v) else 0.0
  }

  lemma {:induction false} MaskBetween(c: Slice, v: Rid, r: set<nat>, n: nat)
    requires n <= |c.wires|
    ensures NegativeSum(c, v, n) <= MaskSum(c, v, r, n) <= PositiveSum(c, v, n)
  {
    hide Term;
    if n == 0 {
    } else {
      MaskBetween(c, v, r, n - 1);
    }
  }

  lemma {:induction false} MaskAdd(c: Slice, v: Rid, r: set<nat>, i: nat, n: nat)
    requires n <= |c.wires| && i < |c.wires| && i !in r
    ensures MaskSum(c, v, r + {i}, n) == MaskSum(c, v, r, n) + if i < n then Term(c, c.wires[i], v) else 0.0
  {
    hide Term;
    if n == 0 {
    } else {
      MaskAdd(c, v, r, i, n - 1);
    }
  }

  /** Two masks that differ only where the terms are zero give the same sum. */
  lemma {:induction false} MaskSame(c: Slice, v: Rid, r: set<nat>, t: set<nat>, n: nat)
    requires n <= |c.wires|
    requires forall i :: 0 <= i < |c.wires| && (i in r) != (i in t) ==> Term(c, c.wires[i], v) == 0.0
    ensures MaskSum(c, v, r, n) == MaskSum(c, v, t, n)
  {
    hide Term;
    if n == 0 {
    } else {
      MaskSame(c, v, r, t, n - 1);
    }
  }

  ghost function AllWires(c: Slice): set<nat> {
    Interval(|c.wires|)
  }

  lemma {:induction false} MaskAll(c: Slice, v: Rid, n: nat)
    requires n <= |c.wires| && v in c.level
    ensures MaskSum(c, v, AllWires(c), n) == InSum(c, v, n)
  {
    if n == 0 {
    } else {
      MaskAll(c, v, n - 1);
    }
  }

  // --- The traversal keeps track of the sums --------------------------------------------------------

  /** Indices of the wires out of the first `n` queued nodes. */
  ghost function ReadSet(c: Slice, w: Wave, n: nat): set<nat> {
    set i: nat | i < |c.wires| && exists m :: 0 <= m < n && m < |w.queue| && w.queue[m] == c.wires[i].src
  }

  ghost predicate Tracks(c: Slice, w: Wave, r: set<nat>) {
    && (forall v :: v in w.hop ==> v in c.level && w.hop[v] == c.level[v])
    && (forall v :: v in c.level ==> DeltaOf(w, v) == Expected(c, v, r))
  }

  ghost function Expected(c: Slice, v: Rid, r: set<nat>): real
    requires v in c.level
  {
    if c.level[v] == 0 then SourceChange(c, v) else MaskSum(c, v, r, |c.wires|)
  }

  /** Reads the first `j` wires, skipping those that do not start at `v`. */
  function Scan(o: Options, w: Wave, wires: seq<Wire>, v: Rid, di: real, d: nat, j: nat): Wave
    requires j <= |wires|
  {
    if j == 0 then w
    else
      var s := Scan(o, w, wires, v, di, d, j - 1);
      if wires[j - 1].src == v then Read(o, s, wires[j - 1], di, d) else s
  }

  lemma {:induction false} ScanIsReadAll(o: Options, w: Wave, wires: seq<Wire>, v: Rid, di: real, d: nat, j: nat)
    requires j <= |wires|
    ensures Scan(o, w, wires, v, di, d, j) == ReadAll(o, w, Outgoing(wires[..j], v), di, d)
  {
    hide Read;
    if j == 0 {
    } else {
      ScanIsReadAll(o, w, wires, v, di, d, j - 1);
      PrefixSnoc(wires, j - 1);
      OutgoingSnoc(wires[..j - 1], wires[j - 1], v);
      if wires[j - 1].src == v {
        ReadAllSnoc(o, w, Outgoing(wires[..j - 1], v), wires[j - 1], di, d);
      } else {
        assert Outgoing(wires[..j], v) == Outgoing(wires[..j - 1], v);
      }
    }
  }

  lemma ReadAllSnoc(o: Options, w: Wave, es: seq<Wire>, e: Wire, di: real, d: nat)
    ensures ReadAll(o, w, es + [e], di, d) == Read(o, ReadAll(o, w, es, di, d), e, di, d)
  {
    assert (es + [e])[..|es|] == es;
  }

  /** One wire read from a node that holds its closed-form change. */
  lemma ReadTracks(c: Slice, w: Wave, r: set<nat>, i: nat)
    requires Layered(c) && Unclamped(c) && Unpruned(c) && Tracks(c, w, r)
    requires i < |c.wires| && i !in r
    requires c.wires[i].src in c.level && c.level[c.wires[i].src] < c.o.maxHops
    ensures var e := c.wires[i];
      Tracks(c, Read(c.o, w, e, Value(c, e.src), c.level[e.src]), r + {i})
  {
    var e := c.wires[i];
    var d := c.level[e.src];
    var t := Contribution(c.o, e.weight, Value(c, e.src), d);
    assert Term(c, e, e.dst) == t;
    assert t == 0.0 || Abs(t) >= c.o.pruneBelow;
    var w' := Read(c.o, w, e, Value(c, e.src), d);
    assert Abs(t) < c.o.pruneBelow ==> w' == w;
    assert Abs(t) >= c.o.pruneBelow ==> w' == Receive(w, e.dst, t, d + 1);
    hide Contribution, Value, Read, Unpruned;
    forall v | v in c.level ensures DeltaOf(w', v) == Expected(c, v, r + {i}) {
      MaskAdd(c, v, r, i, |c.wires|);
      if v == e.dst {
        MaskBetween(c, v, r + {i}, |c.wires|);
        assert DeltaOf(w, v) == Expected(c, v, r);
      } else {
        assert Term(c, e, v) == 0.0;
        assert DeltaOf(w, v) == Expected(c, v, r);
      }
    }
  }

  ghost function ScanSet(c: Slice, r: set<nat>, v: Rid, j: nat): set<nat>
    requires j <= |c.wires|
  {
    r + set i: nat | i < j && c.wires[i].src == v
  }

  lemma {:induction false} ScanTracks(c: Slice, w: Wave, r: set<nat>, v: Rid, j: nat)
    requires Layered(c) && Unclamped(c) && Unpruned(c) && Tracks(c, w, r)
    requires v in c.level && c.level[v] < c.o.maxHops && j <= |c.wires|
    requires forall i :: 0 <= i < |c.wires| && c.wires[i].src == v ==> i !in r
    ensures Tracks(c, Scan(c.o, w, c.wires, v, Value(c, v), c.level[v], j), ScanSet(c, r, v, j))
  {
    hide Layered, Unclamped, Unpruned, Tracks, Read, Value;
    if j == 0 {
      assert ScanSet(c, r, v, 0) == r;
    } else {
      ScanTracks(c, w, r, v, j - 1);
      var s := Scan(c.o, w, c.wires, v, Value(c, v), c.level[v], j - 1);
      if c.wires[j - 1].src == v {
        ReadTracks(c, s, ScanSet(c, r, v, j - 1), j - 1);
        assert ScanSet(c, r, v, j) == ScanSet(c, r, v, j - 1) + {j - 1};
      } else {
        assert ScanSet(c, r, v, j) == ScanSet(c, r, v, j - 1);
      }
    }
  }

  lemma ZeroContribution(o: Options, weight: real, d: nat)
    ensures Contribution(o, weight, 0.0, d) == 0.0
  {
  }

  /** Everything in the wave that lies below layer `bound` is among the first `n` queued nodes. */
  ghost predicate VisitedBelow(w: Wave, n: nat, bound: nat) {
    forall v :: v in w.hop && w.hop[v] < bound ==> exists m :: 0 <= m < n && m < |w.queue| && w.queue[m] == v
  }

  /** A layered node that is not in the wave, below the visited layers, has no change. */
  lemma {:induction false} Unreached(c: Slice, w: Wave, n: nat, bound: nat, u: Rid)
    requires Layered(c) && Tracks(c, w, ReadSet(c, w, n)) && VisitedBelow(w, n, bound)
    requires w.delta.Keys == w.hop.Keys && Start(c.ps).delta.Keys <= w.hop.Keys
    requires u in c.level && u !in w.hop && c.level[u] < bound
    ensures Value(c, u) == 0.0
    decreases c.level[u]
  {
    hide Layered, Contribution, Start;
    if c.level[u] > 0 {
      var r := ReadSet(c, w, n);
      forall i | 0 <= i < |c.wires| && (i in r) != (i in AllWires(c)) ensures Term(c, c.wires[i], u) == 0.0 {
        UnreadTerm(c, w, n, bound, u, i);
      }
      MaskSame(c, u, r, AllWires(c), |c.wires|);
      MaskAll(c, u, |c.wires|);
      assert DeltaOf(w, u) == Expected(c, u, r);
    }
  }

  /** A wire out of a node that was not visited contributes nothing to a low layer. */
  lemma {:induction false} UnreadTerm(c: Slice, w: Wave, n: nat, bound: nat, v: Rid, i: nat)
    requires Layered(c) && Tracks(c, w, ReadSet(c, w, n)) && VisitedBelow(w, n, bound)
    requires w.delta.Keys == w.hop.Keys && Start(c.ps).delta.Keys <= w.hop.Keys
    requires v in c.level && 0 < c.level[v] <= bound
    requires i < |c.wires| && i !in ReadSet(c, w, n)
    ensures Term(c, c.wires[i], v) == 0.0
    decreases c.level[v], 0
  {
    hide Layered, Contribution, Start, MaskSum, ReadSet, VisitedBelow;
    var e := c.wires[i];
    if Counts(c, e, v) {
      if e.src in w.hop {
        VisitedIsRead(c, w, n, bound, i);
      } else {
        Unreached(c, w, n, bound, e.src);
        ZeroContribution(c.o, e.weight, c.level[e.src]);
      }
    }
  }

  lemma VisitedIsRead(c: Slice, w: Wave, n: nat, bound: nat, i: nat)
    requires VisitedBelow(w, n, bound) && i < |c.wires|
    requires c.wires[i].src in w.hop && w.hop[c.wires[i].src] < bound
    ensures i in ReadSet(c, w, n)
  {
  }

  /** When its turn comes, a node holds its closed-form change. */
  lemma Settled(c: Slice, w: Wave, n: nat, bound: nat, v: Rid)
    requires Layered(c) && Tracks(c, w, ReadSet(c, w, n)) && VisitedBelow(w, n, bound)
    requires w.delta.Keys == w.hop.Keys && Start(c.ps).delta.Keys <= w.hop.Keys
    requires v in c.level && c.level[v] <= bound
    ensures DeltaOf(w, v) == Value(c, v)
  {
    hide Layered, Term, Start, VisitedBelow;
    var r := ReadSet(c, w, n);
    assert DeltaOf(w, v) == Expected(c, v, r);
    if c.level[v] > 0 {
      forall i | 0 <= i < |c.wires| && (i in r) != (i in AllWires(c)) ensures Term(c, c.wires[i], v) == 0.0 {
        UnreadTerm(c, w, n, bound, v, i);
      }
      MaskSame(c, v, r, AllWires(c), |c.wires|);
      MaskAll(c, v, |c.wires|);
    }
  }

  // --- One visit ---------------------------------------------------------------------------------------

  lemma HopsAlong(w: Wave, n: nat, m: nat)
    requires n <= m < |w.queue| ==> forall i, j :: 0 <= i < j < |w.queue| ==> HopOf(w, w.queue[i]) <= HopOf(w, w.queue[j])
    ensures n <= m < |w.queue| ==> HopOf(w, w.queue[n]) <= HopOf(w, w.queue[m])
  {
  }

  lemma QueueVisitsBelow(o: Options, wires: seq<Wire>, ps: seq<Perturbation>, w: Wave, n: nat)
    requires Orderly(o, wires, ps, w, n) && n < |w.queue|
    ensures VisitedBelow(w, n, HopOf(w, w.queue[n]))
  {
    forall v | v in w.hop && w.hop[v] < HopOf(w, w.queue[n])
      ensures exists m :: 0 <= m < n && m < |w.queue| && w.queue[m] == v
    {
      assert Queued(w.queue, v);
      var m :| 0 <= m < |w.queue| && w.queue[m] == v;
      HopsAlong(w, n, m);
    }
  }

  lemma ReadSetStep(c: Slice, w: Wave, r: Wave, n: nat)
    requires n < |w.queue| && w.queue <= r.queue
    ensures ReadSet(c, r, n + 1) == ScanSet(c, ReadSet(c, w, n), w.queue[n], |c.wires|)
  {
    forall i: nat | i < |c.wires|
      ensures i in ReadSet(c, r, n + 1) <==> i in ScanSet(c, ReadSet(c, w, n), w.queue[n], |c.wires|)
    {
      if m :| 0 <= m < n + 1 && m < |r.queue| && r.queue[m] == c.wires[i].src {
        assert w.queue[m] == r.queue[m];
      }
      if m :| 0 <= m < n && m < |w.queue| && w.queue[m] == c.wires[i].src {
        assert r.queue[m] == w.queue[m];
      }
      if c.wires[i].src == w.queue[n] {
        assert r.queue[n] == c.wires[i].src;
      }
    }
  }

  lemma VisitTracks(c: Slice, w: Wave, n: nat)
    requires Layered(c) && Unclamped(c) && Unpruned(c)
    requires Orderly(c.o, c.wires, c.ps, w, n) && n < |w.queue|
    requires Start(c.ps).delta.Keys <= w.hop.Keys
    requires Tracks(c, w, ReadSet(c, w, n))
    ensures var r := Visit(c.o, c.wires, w, w.queue[n]); Tracks(c, r, ReadSet(c, r, n + 1))
  {
    hide Unclamped, Unpruned, Start, MaskSum, Term;
    var v := w.queue[n];
    var r := Visit(c.o, c.wires, w, v);
    var before := ReadSet(c, w, n);
    NextReached(c.o, c.wires, c.ps, w, n);
    assert v in w.hop && w.hop[v] == c.level[v] && w.delta.Keys == w.hop.Keys;
    QueueVisitsBelow(c.o, c.wires, c.ps, w, n);
    Settled(c, w, n, c.level[v], v);
    ReadSetStep(c, w, r, n);
    NotReadYet(c, w, n);
    hide Orderly, Layered, Tracks;
    if c.level[v] < c.o.maxHops {
      ScanTracks(c, w, before, v, |c.wires|);
      ScanIsReadAll(c.o, w, c.wires, v, Value(c, v), c.level[v], |c.wires|);
      assert c.wires[..|c.wires|] == c.wires;
    } else {
      IdleVisit(c, w, before, v);
    }
  }

  lemma NotReadYet(c: Slice, w: Wave, n: nat)
    requires Distinct(w.queue) && n < |w.queue|
    ensures forall i :: 0 <= i < |c.wires| && c.wires[i].src == w.queue[n] ==> i !in ReadSet(c, w, n)
  {
  }

  /** A node at the hop limit passes nothing on, and its wires do not count. */
  lemma IdleVisit(c: Slice, w: Wave, r: set<nat>, v: Rid)
    requires Tracks(c, w, r) && v in c.level && c.level[v] >= c.o.maxHops
    ensures Tracks(c, w, ScanSet(c, r, v, |c.wires|))
  {
    hide Value, Contribution;
    var t := ScanSet(c, r, v, |c.wires|);
    forall u | u in c.level ensures DeltaOf(w, u) == Expected(c, u, t) {
      MaskSame(c, u, r, t, |c.wires|);
      assert DeltaOf(w, u) == Expected(c, u, r);
    }
  }

  lemma StartTracks(c: Slice)
    requires Layered(c)
    ensures Tracks(c, Start(c.ps), {})
  {
    hide Term;
    StartOnlySources(c.ps);
    StartOrderly(c.o, c.wires, c.ps);
    forall v | v in c.level ensures DeltaOf(Start(c.ps), v) == Expected(c, v, {}) {
      NoMask(c, v, |c.wires|);
      assert v in Start(c.ps).delta ==> IsSource(c.ps, v);
    }
  }

  lemma {:induction false} NoMask(c: Slice, v: Rid, n: nat)
    requires n <= |c.wires|
    ensures MaskSum(c, v, {}, n) == 0.0
  {
    hide Term;
    if n == 0 {
    } else {
      NoMask(c, v, n - 1);
    }
  }

  lemma {:induction false} StartOnlySources(ps: seq<Perturbation>)
    ensures forall v :: v in Start(ps).hop || v in Start(ps).delta ==> IsSource(ps, v)
  {
    if ps == [] {
    } else {
      var n := |ps| - 1;
      StartOnlySources(ps[..n]);
      forall v | v in Start(ps).hop || v in Start(ps).delta ensures IsSource(ps, v) {
        if v == ps[n].rid {
        } else {
          assert IsSource(ps[..n], v);
          var i :| 0 <= i < n && ps[..n][i].rid == v;
          assert ps[i].rid == v;
        }
      }
    }
  }

  /** After `n` visits the wave tracks the sums over the wires read. */
  ghost predicate TrackedAt(c: Slice, w: Wave, n: nat) {
    Tracks(c, w, ReadSet(c, w, n)) && Start(c.ps).delta.Keys <= w.hop.Keys
  }

  lemma TrackedStart(c: Slice)
    requires Layered(c)
    ensures TrackedAt(c, Start(c.ps), 0)
  {
    hide Layered, Tracks, Start;
    StartTracks(c);
    StartKeys(c);
    assert ReadSet(c, Start(c.ps), 0) == {};
  }

  lemma TrackedStep(c: Slice, w: Wave, n: nat)
    requires Layered(c) && Unclamped(c) && Unpruned(c)
    requires Orderly(c.o, c.wires, c.ps, w, n) && TrackedAt(c, w, n) && n < |w.queue|
    ensures TrackedAt(c, Visit(c.o, c.wires, w, w.queue[n]), n + 1)
  {
    hide Layered, Unclamped, Unpruned, Tracks, Visit, Start, Orderly, ReadSet;
    VisitTracks(c, w, n);
    VisitOrderly(c.o, c.wires, c.ps, w, n);
  }

  lemma TrackedIdle(c: Slice, w: Wave, n: nat)
    requires TrackedAt(c, w, n) && |w.queue| <= n
    ensures TrackedAt(c, w, n + 1)
  {
    hide Tracks, Start;
    assert ReadSet(c, w, n + 1) == ReadSet(c, w, n);
  }

  lemma {:induction false} RunTracks(c: Slice, n: nat)
    requires Layered(c) && Unclamped(c) && Unpruned(c)
    ensures TrackedAt(c, Run(c.o, c.wires, c.ps, n), n)
  {
    hide Layered, Unclamped, Unpruned, TrackedAt, Visit, Start, Orderly;
    if n == 0 {
      TrackedStart(c);
    } else {
      var w := Run(c.o, c.wires, c.ps, n - 1);
      RunTracks(c, n - 1);
      RunKeeps(c.o, c.wires, c.ps, n - 1);
      if n - 1 < |w.queue| {
        TrackedStep(c, w, n - 1);
      } else {
        TrackedIdle(c, w, n - 1);
      }
    }
  }

  lemma StartKeys(c: Slice)
    ensures Start(c.ps).delta.Keys <= Start(c.ps).hop.Keys
  {
    StartOrderly(c.o, c.wires, c.ps);
  }

  // --- The closed form -----------------------------------------------------------------------------------

  /** The sum of the damped contributions of the final wave along the wires into `v`. */
  function WireSum(c: Slice, w: Wave, v: Rid, n: nat): real
    requires n <= |c.wires|
  {
    if n == 0 then 0.0
    else
      var e := c.wires[n - 1];
      WireSum(c, w, v, n - 1)
      + if Counts(c, e, v) then Contribution(c.o, e.weight, DeltaOf(w, e.src), c.level[e.src]) else 0.0
  }

  lemma {:induction false} WireSumIsInSum(c: Slice, w: Wave, v: Rid, n: nat)
    requires n <= |c.wires| && v in c.level
    requires forall u :: u in c.level ==> DeltaOf(w, u) == Value(c, u)
    ensures WireSum(c, w, v, n) == InSum(c, v, n)
  {
    if n == 0 {
    } else {
      WireSumIsInSum(c, w, v, n - 1);
    }
  }

  lemma FinalValues(c: Slice)
    requires Layered(c) && Unclamped(c) && Unpruned(c)
    ensures var w := Propagated(c.o, c.wires, c.ps);
      && (forall v :: v in c.level ==> DeltaOf(w, v) == Value(c, v))
      && (forall v :: v in w.hop ==> v in c.level && w.hop[v] == c.level[v])
  {
    hide Run, Layered, Unclamped, Unpruned, Value, Start, MaskSum, Walk, VisitedBelow;
    var n := |c.ps| + |c.wires|;
    var w := Propagated(c.o, c.wires, c.ps);
    RunTracks(c, n);
    ImpactIsSound(c.o, c.wires, c.ps);
    forall v | v in c.level ensures DeltaOf(w, v) == Value(c, v) {
      EverythingVisited(c, w, c.level[v]);
      Settled(c, w, n, c.level[v], v);
    }
  }

  lemma EverythingVisited(c: Slice, w: Wave, bound: nat)
    requires w == Propagated(c.o, c.wires, c.ps)
    ensures VisitedBelow(w, |c.ps| + |c.wires|, bound)
  {
    hide Run, Walk;
    ImpactIsSound(c.o, c.wires, c.ps);
    WithinBound(c.o, c.wires, c.ps, |c.ps| + |c.wires|);
    forall v | v in w.hop ensures exists m :: 0 <= m < |w.queue| && w.queue[m] == v {
      assert Queued(w.queue, v);
    }
  }

  /**
   * The closed form, whatever the order of the edges: distances are the layers, sources keep
   * their own change, and every other node of a layer ends with the sum of
   * weight * change(src) * gamma ^ layer over its wires from nodes within the hop limit.
   */
  lemma LayeredImpact(c: Slice, v: Rid)
    requires Layered(c) && Unclamped(c) && Unpruned(c)
    requires v in c.level
    ensures var w := Propagated(c.o, c.wires, c.ps);
      && (v in w.hop ==> w.hop[v] == c.level[v])
      && DeltaOf(w, v) == if c.level[v] == 0 then SourceChange(c, v) else WireSum(c, w, v, |c.wires|)
  {
    hide Layered, Unclamped, Unpruned, Propagated, Start;
    FinalValues(c);
    WireSumIsInSum(c, Propagated(c.o, c.wires, c.ps), v, |c.wires|);
  }

  // --- Whatever the edge order --------------------------------------------------------------------------

  /** The closed-form contributions of a list of wires. */
  ghost function TermSum(c: Slice, wires: seq<Wire>, v: Rid): real {
    if wires == [] then 0.0 else TermSum(c, wires[..|wires| - 1], v) + Term(c, wires[|wires| - 1], v)
  }

  lemma {:induction false} InSumIsTermSum(c: Slice, v: Rid, n: nat)
    requires n <= |c.wires| && v in c.level
    ensures InSum(c, v, n) == TermSum(c, c.wires[..n], v)
  {
    if n == 0 {
    } else {
      InSumIsTermSum(c, v, n - 1);
      PrefixSnoc(c.wires, n - 1);
    }
  }

  lemma {:induction false} TermSumRemove(c: Slice, wires: seq<Wire>, v: Rid, k: nat)
    requires k < |wires|
    ensures TermSum(c, wires, v) == TermSum(c, Without(wires, k), v) + Term(c, wires[k], v)
  {
    hide Term;
    var n := |wires| - 1;
    if k < n {
      TermSumRemove(c, wires[..n], v, k);
      var rest := Without(wires, k);
      assert rest[..|rest| - 1] == Without(wires[..n], k);
      assert rest[|rest| - 1] == wires[n];
    } else {
      assert Without(wires, k) == wires[..n];
    }
  }

  /** Equal terms on a reordered list give equal sums. */
  lemma {:induction false} TermSumReorder(c: Slice, d: Slice, a: seq<Wire>, b: seq<Wire>, v: Rid)
    requires multiset(a) == multiset(b)
    requires forall e :: e in a ==> Term(c, e, v) == Term(d, e, v)
    ensures TermSum(c, a, v) == TermSum(d, b, v)
    decreases |a|
  {
    hide Term;
    if a == [] {
      assert |multiset(b)| == 0;
    } else {
      var n := |a| - 1;
      assert a[n] in multiset(b);
      var k :| 0 <= k < |b| && b[k] == a[n];
      assert Without(a, n) == a[..n];
      WithoutMultiset(a, n);
      WithoutMultiset(b, k);
      hide Without;
      TermSumReorder(c, d, a[..n], Without(b, k), v);
      TermSumRemove(d, b, v, k);
    }
  }

  /** The same slice with its wires listed in another order. */
  ghost predicate Reordered(c: Slice, d: Slice) {
    c.o == d.o && c.ps == d.ps && c.level == d.level && multiset(c.wires) == multiset(d.wires)
  }

  lemma {:induction false} ValueReordered(c: Slice, d: Slice, v: Rid)
    requires Reordered(c, d)
    ensures Value(c, v) == Value(d, v)
    decreases if v in c.level then c.level[v] else 0
  {
    hide Contribution;
    if v in c.level && c.level[v] > 0 {
      forall e | e in c.wires ensures Term(c, e, v) == Term(d, e, v) {
        if Counts(c, e, v) {
          ValueReordered(c, d, e.src);
        }
      }
      TermSumReorder(c, d, c.wires, d.wires, v);
      InSumIsTermSum(c, v, |c.wires|);
      InSumIsTermSum(d, v, |d.wires|);
      assert c.wires[..|c.wires|] == c.wires && d.wires[..|d.wires|] == d.wires;
    }
  }

  lemma TermReordered(c: Slice, d: Slice, e: Wire, v: Rid)
    requires Reordered(c, d)
    ensures Term(c, e, v) == Term(d, e, v)
  {
    hide Value, Contribution;
    ValueReordered(c, d, e.src);
  }

  /** The positive or the negative contributions of a list of wires. */
  ghost function SignedSum(c: Slice, wires: seq<Wire>, v: Rid, pos: bool): real {
    if wires == [] then 0.0
    else
      var t := Term(c, wires[|wires| - 1], v);
      SignedSum(c, wires[..|wires| - 1], v, pos) + if pos then Positive(t) else Negative(t)
  }

  lemma {:induction false} SumsAreSigned(c: Slice, v: Rid, n: nat)
    requires n <= |c.wires|
    ensures PositiveSum(c, v, n) == SignedSum(c, c.wires[..n], v, true)
    ensures NegativeSum(c, v, n) == SignedSum(c, c.wires[..n], v, false)
  {
    hide Term;
    if n > 0 {
      SumsAreSigned(c, v, n - 1);
      PrefixSnoc(c.wires, n - 1);
    }
  }

  lemma {:induction false} SignedRemove(c: Slice, wires: seq<Wire>, v: Rid, pos: bool, k: nat)
    requires k < |wires|
    ensures SignedSum(c, wires, v, pos)
         == SignedSum(c, Without(wires, k), v, pos) + if pos then Positive(Term(c, wires[k], v)) else Negative(Term(c, wires[k], v))
  {
    hide Term;
    var n := |wires| - 1;
    if k < n {
      SignedRemove(c, wires[..n], v, pos, k);
      var rest := Without(wires, k);
      assert rest[..|rest| - 1] == Without(wires[..n], k);
      assert rest[|rest| - 1] == wires[n];
    } else {
      assert Without(wires, k) == wires[..n];
    }
  }

  lemma {:induction false} SignedReorder(c: Slice, d: Slice, a: seq<Wire>, b: seq<Wire>, v: Rid, pos: bool)
    requires multiset(a) == multiset(b)
    requires forall e :: e in a ==> Term(c, e, v) == Term(d, e, v)
    ensures SignedSum(c, a, v, pos) == SignedSum(d, b, v, pos)
    decreases |a|
  {
    hide Term;
    if a == [] {
      assert |multiset(b)| == 0;
    } else {
      var n := |a| - 1;
      assert a[n] in multiset(b);
      var k :| 0 <= k < |b| && b[k] == a[n];
      assert Without(a, n) == a[..n];
      WithoutMultiset(a, n);
      WithoutMultiset(b, k);
      hide Without;
      SignedReorder(c, d, a[..n], Without(b, k), v, pos);
      SignedRemove(d, b, v, pos, k);
    }
  }

  lemma UnclampedReordered(c: Slice, d: Slice)
    requires Reordered(c, d) && Unclamped(c)
    ensures Unclamped(d)
  {
    hide Term;
    forall v | v in d.level ensures PositiveSum(d, v, |d.wires|) <= 1.0 && NegativeSum(d, v, |d.wires|) >= -1.0 {
      forall e | e in c.wires ensures Term(c, e, v) == Term(d, e, v) {
        TermReordered(c, d, e, v);
      }
      SumsAreSigned(c, v, |c.wires|);
      SumsAreSigned(d, v, |d.wires|);
      assert c.wires[..|c.wires|] == c.wires && d.wires[..|d.wires|] == d.wires;
      SignedReorder(c, d, c.wires, d.wires, v, true);
      SignedReorder(c, d, c.wires, d.wires, v, false);
      assert PositiveSum(c, v, |c.wires|) <= 1.0 && NegativeSum(c, v, |c.wires|) >= -1.0;
      hide PositiveSum, NegativeSum, SignedSum;
    }
  }

  lemma SameWire(c: Slice, d: Slice, i: nat) returns (j: nat)
    requires Reordered(c, d) && i < |d.wires|
    ensures j < |c.wires| && c.wires[j] == d.wires[i]
  {
    assert d.wires[i] in multiset(c.wires);
    j :| 0 <= j < |c.wires| && c.wires[j] == d.wires[i];
  }

  /** Another order of the wires is layered, unclamped and unpruned as well. */
  lemma SliceReordered(c: Slice, d: Slice)
    requires Reordered(c, d) && Layered(c) && Unclamped(c) && Unpruned(c)
    ensures Layered(d) && Unclamped(d) && Unpruned(d)
  {
    UnclampedReordered(c, d);
    hide Term, Unclamped;
    forall i: nat | i < |d.wires|
      ensures d.wires[i].src in d.level ==> d.wires[i].dst in d.level && d.level[d.wires[i].dst] == d.level[d.wires[i].src] + 1
      ensures Term(d, d.wires[i], d.wires[i].dst) == 0.0 || Abs(Term(d, d.wires[i], d.wires[i].dst)) >= d.o.pruneBelow
    {
      var j := SameWire(c, d, i);
      TermReordered(c, d, c.wires[j], c.wires[j].dst);
    }
    assert forall i :: 0 <= i < |d.ps| ==> c.ps[i].rid in c.level && c.level[c.ps[i].rid] == 0;
  }

  /** Any other edge order of a layered slice gives every node the same change. */
  lemma EdgeOrderIsIrrelevant(c: Slice, d: Slice, v: Rid)
    requires Layered(c) && Unclamped(c) && Unpruned(c)
    requires Reordered(c, d) && v in c.level
    ensures DeltaOf(Propagated(c.o, c.wires, c.ps), v) == DeltaOf(Propagated(d.o, d.wires, d.ps), v)
  {
    hide Layered, Unclamped, Unpruned, Propagated, Value;
    SliceReordered(c, d);
    FinalValues(c);
    FinalValues(d);
    ValueReordered(c, d, v);
  }
}
