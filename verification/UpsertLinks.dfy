/**
 * The link half of an upsert plan against a store that takes one link at a time, over the
 * objects as they are after the whole batch.
 */
module UpsertLinks {
  import opened Common
  import opened UpsertPlanner

  datatype LinkStore = LinkStore(weights: map<LinkKey, Option<real>>, total: nat)

  /** One mention on the store, and the reject it causes, if any. */
  function LinkOne(env: Env, rids: map<ObjectKey, Rid>, s: LinkStore, m: Mention): (LinkStore, seq<Reject>) {
    var r := Resolve(env.schema, rids, m);
    if r.Unresolved? then (s, [r.reject])
    else if r.key in s.weights then (s.(weights := s.weights[r.key := m.link.weight]), [])
    else if s.total + 1 > env.maxLinks then (s, [Reject(m.row, LinkLimit, m.link.linkType)])
    else (LinkStore(s.weights[r.key := m.link.weight], s.total + 1), [])
  }

  function LinkAll(env: Env, rids: map<ObjectKey, Rid>, s: LinkStore, ms: seq<Mention>): (LinkStore, seq<Reject>) {
    if ms == [] then (s, [])
    else
      var n := |ms| - 1;
      var (s1, r1) := LinkAll(env, rids, s, ms[..n]);
      var (s2, r2) := LinkOne(env, rids, s1, ms[n]);
      (s2, r1 + r2)
  }

  function ApplyLinks(s: LinkStore, links: seq<PlannedLink>): LinkStore {
    if links == [] then s
    else
      var l := links[|links| - 1];
      var s1 := ApplyLinks(s, links[..|links| - 1]);
      LinkStore(s1.weights[l.key := l.weight], s1.total + if l.isNew then 1 else 0)
  }

  function NewLinkOrdinals(links: seq<PlannedLink>): seq<nat> {
    if links == [] then []
    else
      NewLinkOrdinals(links[..|links| - 1])
      + if links[|links| - 1].newOrdinal.Some? then [links[|links| - 1].newOrdinal.value] else []
  }

  ghost predicate LinkFits(start: LinkStore, st: LinkPhase, s: LinkStore, k: LinkKey) {
    if k in st.index then
      && st.index[k] < |st.links|
      && k in s.weights
      && st.links[st.index[k]].key == k
      && st.links[st.index[k]].weight == s.weights[k]
      && st.links[st.index[k]].isNew == (k !in start.weights)
    else
      (k in s.weights <==> k in start.weights) && (k in s.weights ==> s.weights[k] == start.weights[k])
  }

  ghost predicate Indexed(st: LinkPhase, i: nat)
    requires i < |st.links|
  {
    && st.links[i].key in st.index
    && st.index[st.links[i].key] == i
    && st.links[i].isNew == st.links[i].newOrdinal.Some?
  }

  /** The planned links hold what the one-at-a-time store holds beyond its start. */
  ghost predicate LinksMirror(start: LinkStore, st: LinkPhase, s: LinkStore) {
    && (forall k :: LinkFits(start, st, s, k))
    && (forall i :: 0 <= i < |st.links| ==> Indexed(st, i))
    && s.total == start.total + st.newLinks
    && NewLinkOrdinals(st.links) == seq(st.newLinks, i => i + 1)
  }

  lemma LinkOrdinalsUpdate(links: seq<PlannedLink>, i: nat, l: PlannedLink)
    requires i < |links| && l.newOrdinal == links[i].newOrdinal
    ensures NewLinkOrdinals(links[i := l]) == NewLinkOrdinals(links)
  {
    var n := |links| - 1;
    if i < n {
      LinkOrdinalsUpdate(links[..n], i, l);
      assert links[i := l][..n] == links[..n][i := l];
    } else {
      assert links[i := l][..n] == links[..n];
    }
  }

  lemma LinkOrdinalsSnoc(links: seq<PlannedLink>, l: PlannedLink)
    ensures NewLinkOrdinals(links + [l])
         == NewLinkOrdinals(links) + if l.newOrdinal.Some? then [l.newOrdinal.value] else []
  {
    assert (links + [l])[..|links|] == links;
  }

  lemma LinkAppend(start: LinkStore, st: LinkPhase, s: LinkStore, l: PlannedLink)
    requires LinksMirror(start, st, s)
    requires l.key !in st.index && l.isNew == (l.key !in s.weights)
    requires l.newOrdinal == if l.isNew then Some(st.newLinks + 1) else None
    ensures var n := if l.isNew then 1 else 0;
      LinksMirror(start,
                  st.(links := st.links + [l], index := st.index[l.key := |st.links|], newLinks := st.newLinks + n),
                  LinkStore(s.weights[l.key := l.weight], s.total + n))
  {
    var n := if l.isNew then 1 else 0;
    var st' := st.(links := st.links + [l], index := st.index[l.key := |st.links|], newLinks := st.newLinks + n);
    var s' := LinkStore(s.weights[l.key := l.weight], s.total + n);
    LinkOrdinalsSnoc(st.links, l);
    forall k ensures LinkFits(start, st', s', k) {
      assert LinkFits(start, st, s, k);
    }
    forall i | 0 <= i < |st'.links| ensures Indexed(st', i) {
      if i < |st.links| {
        assert Indexed(st, i);
      }
    }
  }

  lemma LinkRewrite(start: LinkStore, st: LinkPhase, s: LinkStore, k: LinkKey, weight: Option<real>)
    requires LinksMirror(start, st, s) && IndexInRange(st)
    requires k in st.index
    ensures var at := st.index[k];
      LinksMirror(start, st.(links := st.links[at := st.links[at].(weight := weight)]),
                  s.(weights := s.weights[k := weight]))
  {
    var at := st.index[k];
    var st' := st.(links := st.links[at := st.links[at].(weight := weight)]);
    var s' := s.(weights := s.weights[k := weight]);
    LinkOrdinalsUpdate(st.links, at, st.links[at].(weight := weight));
    assert LinkFits(start, st, s, k);
    forall x ensures LinkFits(start, st', s', x) {
      assert LinkFits(start, st, s, x);
    }
    forall i | 0 <= i < |st'.links| ensures Indexed(st', i) {
      assert Indexed(st, i);
    }
  }

  lemma LinkMirrorStep(env: Env, counts: Counts, rids: map<ObjectKey, Rid>, start: LinkStore,
                       st: LinkPhase, s: LinkStore, m: Mention)
    requires LinksMirror(start, st, s) && IndexInRange(st)
    requires start.total == counts.links
    ensures var st', (s', r) := LinkStep(env, counts, rids, start.weights, st, m), LinkOne(env, rids, s, m);
      LinksMirror(start, st', s') && st'.rejected == st.rejected + r
  {
    var r := Resolve(env.schema, rids, m);
    if r.Unresolved? {
      var st' := LinkStep(env, counts, rids, start.weights, st, m);
      forall k ensures LinkFits(start, st', s, k) { assert LinkFits(start, st, s, k); }
      forall i | 0 <= i < |st'.links| ensures Indexed(st', i) { assert Indexed(st, i); }
      return;
    }
    assert LinkFits(start, st, s, r.key);
    if r.key in st.index {
      LinkRewrite(start, st, s, r.key, m.link.weight);
    } else if r.key in start.weights {
      if start.weights[r.key] == m.link.weight {
        assert s.weights[r.key := m.link.weight] == s.weights;
      } else {
        LinkAppend(start, st, s, PlannedLink(r.key, m.link.weight, false, None, m.row));
      }
    } else if s.total + 1 <= env.maxLinks {
      LinkAppend(start, st, s, PlannedLink(r.key, m.link.weight, true, Some(st.newLinks + 1), m.row));
    } else {
      var st' := LinkStep(env, counts, rids, start.weights, st, m);
      forall k ensures LinkFits(start, st', s, k) { assert LinkFits(start, st, s, k); }
      forall i | 0 <= i < |st'.links| ensures Indexed(st', i) { assert Indexed(st, i); }
    }
  }

  lemma {:induction false} LinkMirrorAll(env: Env, counts: Counts, rids: map<ObjectKey, Rid>, start: LinkStore, ms: seq<Mention>)
    requires start.total == counts.links
    ensures var st, (s, r) := PlanLinks(env, counts, rids, start.weights, NO_LINKS, ms), LinkAll(env, rids, start, ms);
      LinksMirror(start, st, s) && st.rejected == r
  {
    if ms == [] {
    } else {
      var n := |ms| - 1;
      LinkMirrorAll(env, counts, rids, start, ms[..n]);
      LinkMirrorStep(env, counts, rids, start, PlanLinks(env, counts, rids, start.weights, NO_LINKS, ms[..n]),
                     LinkAll(env, rids, start, ms[..n]).0, ms[n]);
    }
  }

  // --- Writing the planned links ----------------------------------------------------------

  ghost predicate DistinctLinkKeys(links: seq<PlannedLink>) {
    forall i, j :: 0 <= i < j < |links| ==> links[i].key != links[j].key
  }

  lemma {:induction false} ApplyLinkAt(start: LinkStore, links: seq<PlannedLink>, i: nat)
    requires i < |links| && DistinctLinkKeys(links)
    ensures links[i].key in ApplyLinks(start, links).weights
    ensures ApplyLinks(start, links).weights[links[i].key] == links[i].weight
  {
    var n := |links| - 1;
    if i < n {
      ApplyLinkAt(start, links[..n], i);
      assert links[n].key != links[i].key;
    }
  }

  lemma {:induction false} ApplyLinkElsewhere(start: LinkStore, links: seq<PlannedLink>, k: LinkKey)
    requires forall i :: 0 <= i < |links| ==> links[i].key != k
    ensures var r := ApplyLinks(start, links).weights;
      (k in r <==> k in start.weights) && (k in r ==> r[k] == start.weights[k])
  {
    if links == [] {
    } else {
      ApplyLinkElsewhere(start, links[..|links| - 1], k);
    }
  }

  lemma {:induction false} ApplyLinkTotal(start: LinkStore, links: seq<PlannedLink>)
    requires forall i :: 0 <= i < |links| ==> links[i].isNew == links[i].newOrdinal.Some?
    ensures ApplyLinks(start, links).total == start.total + |NewLinkOrdinals(links)|
  {
    if links == [] {
    } else {
      ApplyLinkTotal(start, links[..|links| - 1]);
    }
  }

  lemma {:induction false} LinkTotalCapped(env: Env, rids: map<ObjectKey, Rid>, s: LinkStore, ms: seq<Mention>)
    ensures s.total <= LinkAll(env, rids, s, ms).0.total <= Max(s.total, env.maxLinks)
  {
    if ms == [] {
    } else {
      LinkTotalCapped(env, rids, s, ms[..|ms| - 1]);
    }
  }

  function LinkStoreOf(input: Input): LinkStore {
    LinkStore(input.existingLinks, input.counts.links)
  }

  /**
   * Writing the planned links gives exactly the link store that resolving the accepted
   * mentions one by one gives, with the same rejects; each link is planned once, new ones
   * carry the ordinals 1..n, and the total never passes the larger of the start and the cap.
   */
  lemma LinksRefineStore(input: Input)
    ensures var objects, start := ObjectPhase(input), LinkStoreOf(input);
      var links := Plan(input).links;
      var (end, rejects) := LinkAll(input.env, Rids(objects.byKey), start, Mentions(objects.accepted));
      && ApplyLinks(start, links) == end
      && LinksPhase(input).rejected == rejects
      && DistinctLinkKeys(links)
      && start.total <= end.total <= Max(start.total, input.env.maxLinks)
      && NewLinkOrdinals(links) == seq(end.total - start.total, i => i + 1)
  {
    var objects, start := ObjectPhase(input), LinkStoreOf(input);
    var rids, ms := Rids(objects.byKey), Mentions(objects.accepted);
    LinkMirrorAll(input.env, input.counts, rids, start, ms);
    LinkTotalCapped(input.env, rids, start, ms);
    var st, end := LinksPhase(input), LinkAll(input.env, rids, start, ms).0;
    forall i, j | 0 <= i < j < |st.links| ensures st.links[i].key != st.links[j].key {
      assert Indexed(st, i) && Indexed(st, j);
    }
    forall i | 0 <= i < |st.links| ensures st.links[i].isNew == st.links[i].newOrdinal.Some? {
      assert Indexed(st, i);
    }
    ApplyLinkTotal(start, st.links);
    var r := ApplyLinks(start, st.links).weights;
    forall k ensures (k in r <==> k in end.weights) && (k in r ==> r[k] == end.weights[k]) {
      assert LinkFits(start, st, end, k);
      if k in st.index {
        ApplyLinkAt(start, st.links, st.index[k]);
      } else {
        forall i | 0 <= i < |st.links| ensures st.links[i].key != k {
          assert Indexed(st, i);
        }
        ApplyLinkElsewhere(start, st.links, k);
      }
    }
    assert r == end.weights;
  }
}
