/**
 * The mapping draft (matching.ts): candidate pairs of source column and target property are
 * taken best first, link and weight columns come from what is left, and AI suggestions may only
 * fill what is still unmatched. Scores and name tests are parameters.
 */
module DraftMatching {
  import opened Common
  import opened Sorting

  datatype MatchedBy = Exact | Synonym | Similarity | Ai

  datatype Candidate = Candidate(field: string, prop: string, matchedBy: MatchedBy, score: real)

  datatype FieldMap = FieldMap(to: string, from: string, matchedBy: MatchedBy)

  datatype LinkMap = LinkMap(linkType: string, toKey: string, weightFrom: Option<string>)

  datatype Draft = Draft(
    primaryKey: string, fields: seq<FieldMap>, links: seq<LinkMap>,
    unmatchedFields: seq<string>, unmatchedProps: seq<string>)

  /** The target type: its properties, the key, which are sensitive, and its outgoing link types. */
  datatype Target = Target(props: seq<string>, primaryKey: string, sensitive: set<string>, links: seq<string>)

  datatype Names = Names(
    score: (string, string) -> Option<(MatchedBy, real)>,
    collate: string -> int,
    isLinkColumn: (string, string) -> bool,
    isWeight: string -> bool)

  // --- Candidates -------------------------------------------------------------------------------

  function IndexOf(fields: seq<string>, f: string): nat {
    if fields == [] || fields[0] == f then 0 else 1 + IndexOf(fields[1..], f)
  }

  /** Better score first, then the earlier column, then the property name. */
  function Better(n: Names, fields: seq<string>): (Candidate, Candidate) -> bool {
    (a: Candidate, b: Candidate) =>
      a.score > b.score || (a.score == b.score &&
        (IndexOf(fields, a.field) < IndexOf(fields, b.field) || (IndexOf(fields, a.field) == IndexOf(fields, b.field) &&
          n.collate(a.prop) <= n.collate(b.prop))))
  }

  function CandidatesOf(n: Names, field: string, props: seq<string>): seq<Candidate> {
    if props == [] then []
    else
      var p := props[|props| - 1];
      var s := n.score(field, p);
      CandidatesOf(n, field, props[..|props| - 1])
      + if s.Some? then [Candidate(field, p, s.value.0, s.value.1)] else []
  }

  function Candidates(n: Names, fields: seq<string>, props: seq<string>): seq<Candidate> {
    if fields == [] then []
    else Candidates(n, fields[..|fields| - 1], props) + CandidatesOf(n, fields[|fields| - 1], props)
  }

  lemma {:induction false} CandidatesOfMembers(n: Names, field: string, props: seq<string>, c: Candidate)
    ensures c in CandidatesOf(n, field, props) <==>
      c.field == field && c.prop in props && n.score(field, c.prop) == Some((c.matchedBy, c.score))
  {
    if props != [] {
      CandidatesOfMembers(n, field, props[..|props| - 1], c);
      assert props == props[..|props| - 1] + [props[|props| - 1]];
    }
  }

  lemma {:induction false} CandidatesMembers(n: Names, fields: seq<string>, props: seq<string>, c: Candidate)
    ensures c in Candidates(n, fields, props) <==>
      c.field in fields && c.prop in props && n.score(c.field, c.prop) == Some((c.matchedBy, c.score))
  {
    if fields != [] {
      var last := |fields| - 1;
      CandidatesMembers(n, fields[..last], props, c);
      CandidatesOfMembers(n, fields[last], props, c);
      assert fields == fields[..last] + [fields[last]];
    }
  }

  // --- The greedy assignment --------------------------------------------------------------------

  type Assignment = map<string, Candidate>

  predicate Taken(m: Assignment, c: Candidate) {
    c.prop in m || exists p :: p in m && m[p].field == c.field
  }

  function Greedy(cs: seq<Candidate>): Assignment {
    if cs == [] then map[]
    else
      var m := Greedy(cs[..|cs| - 1]);
      var c := cs[|cs| - 1];
      if Taken(m, c) then m else m[c.prop := c]
  }

  /** Every column and every property at most once. */
  ghost predicate IsMatching(m: Assignment) {
    && (forall p :: p in m ==> m[p].prop == p)
    && (forall p, q :: p in m && q in m && p != q ==> m[p].field != m[q].field)
  }

  /** No candidate is left out in favour of a worse one: something at least as good took its column or property. */
  ghost predicate NoBetterLeft(m: Assignment, cs: seq<Candidate>, better: (Candidate, Candidate) -> bool) {
    forall c :: c in cs ==> Placed(m, c, better)
  }

  ghost predicate Placed(m: Assignment, c: Candidate, better: (Candidate, Candidate) -> bool) {
    exists p :: p in m && (m[p] == c || ((m[p].field == c.field || p == c.prop) && better(m[p], c)))
  }

  function FieldsOf(m: Assignment): set<string> {
    set p | p in m :: m[p].field
  }

  lemma FieldsInsert(m: Assignment, c: Candidate)
    requires c.prop !in m
    ensures FieldsOf(m[c.prop := c]) == FieldsOf(m) + {c.field}
    ensures Taken(m, c) <==> c.field in FieldsOf(m)
  {
    var all := m[c.prop := c];
    forall f | f in FieldsOf(m) + {c.field} ensures f in FieldsOf(all) {
      if f == c.field {
        assert all[c.prop].field == f;
      } else {
        var p :| p in m && m[p].field == f;
        assert all[p].field == f;
      }
    }
  }

  lemma {:induction false} GreedyIsMatching(cs: seq<Candidate>)
    ensures IsMatching(Greedy(cs))
    ensures forall p :: p in Greedy(cs) ==> Greedy(cs)[p] in cs
  {
    if cs != [] {
      GreedyIsMatching(cs[..|cs| - 1]);
      assert cs == cs[..|cs| - 1] + [cs[|cs| - 1]];
    }
  }

  lemma {:induction false} GreedyTakesBest(cs: seq<Candidate>, better: (Candidate, Candidate) -> bool)
    requires Ordered(cs, better)
    ensures NoBetterLeft(Greedy(cs), cs, better)
  {
    if cs != [] {
      var n := |cs| - 1;
      GreedyTakesBest(cs[..n], better);
      GreedyIsMatching(cs[..n]);
      assert cs == cs[..n] + [cs[n]];
      OneMoreTaken(cs, n, Greedy(cs[..n]), better);
    }
  }

  lemma OneMoreTaken(cs: seq<Candidate>, n: nat, m: Assignment, better: (Candidate, Candidate) -> bool)
    requires Ordered(cs, better) && n == |cs| - 1 && NoBetterLeft(m, cs[..n], better)
    requires IsMatching(m) && forall p :: p in m ==> m[p] in cs[..n]
    ensures NoBetterLeft(if Taken(m, cs[n]) then m else m[cs[n].prop := cs[n]], cs, better)
  {
    var all := if Taken(m, cs[n]) then m else m[cs[n].prop := cs[n]];
    forall c | c in cs ensures Placed(all, c, better) {
      if c in cs[..n] {
        assert Placed(m, c, better);
        var p :| p in m && (m[p] == c || ((m[p].field == c.field || p == c.prop) && better(m[p], c)));
        assert all[p] == m[p];
      } else {
        assert c == cs[n];
        if Taken(m, c) {
          var p :| p in m && (p == c.prop || m[p].field == c.field);
          var i :| 0 <= i < n && cs[..n][i] == m[p];
          assert better(cs[i], cs[n]);
        } else {
          assert all[c.prop] == c;
        }
      }
    }
  }

  method Assign(cs: seq<Candidate>) returns (used: set<string>, byProp: Assignment)
    ensures byProp == Greedy(cs)
    ensures used == FieldsOf(byProp)
  {
    used, byProp := {}, map[];
    for i := 0 to |cs|
      invariant byProp == Greedy(cs[..i])
      invariant used == FieldsOf(byProp)
    {
      PrefixSnoc(cs, i);
      var c := cs[i];
      if c.prop !in byProp {
        FieldsInsert(byProp, c);
      }
      if c.field in used || c.prop in byProp {
        continue;
      }
      byProp := byProp[c.prop := c];
      used := used + {c.field};
    }
    assert cs[..|cs|] == cs;
  }

  lemma BetterIsOrder(n: Names, fields: seq<string>)
    ensures TotalPreorder(Better(n, fields))
  {
  }

  function Assigned(n: Names, fields: seq<string>, props: seq<string>): Assignment {
    Greedy(Sort(Candidates(n, fields, props), Better(n, fields)))
  }

  /** The draft's assignment: a matching of real candidates in which no better candidate was passed over. */
  lemma AssignmentLaws(n: Names, fields: seq<string>, props: seq<string>)
    ensures var m := Assigned(n, fields, props);
      && IsMatching(m)
      && NoBetterLeft(m, Candidates(n, fields, props), Better(n, fields))
      && forall p :: p in m ==> m[p].field in fields && p in props && n.score(m[p].field, p) == Some((m[p].matchedBy, m[p].score))
  {
    var cs := Candidates(n, fields, props);
    var sorted := Sort(cs, Better(n, fields));
    BetterIsOrder(n, fields);
    SortOrders(cs, Better(n, fields));
    SortMembers(cs, Better(n, fields));
    GreedyIsMatching(sorted);
    GreedyTakesBest(sorted, Better(n, fields));
    hide Sort, Greedy, Candidates, Better;
    forall p | p in Greedy(sorted)
      ensures Greedy(sorted)[p].field in fields && p in props
        && n.score(Greedy(sorted)[p].field, p) == Some((Greedy(sorted)[p].matchedBy, Greedy(sorted)[p].score))
    {
      CandidatesMembers(n, fields, props, Greedy(sorted)[p]);
    }
  }

  /** A pair with the best possible score is never split by a worse one. */
  lemma TopScoreWins(n: Names, fields: seq<string>, props: seq<string>, top: real, f: string, p: string)
    requires f in fields && p in props && n.score(f, p).Some? && n.score(f, p).value.1 == top
    requires forall g, q :: n.score(g, q).Some? ==> n.score(g, q).value.1 <= top
    ensures var m := Assigned(n, fields, props);
      exists q :: q in m && m[q].score == top && (q == p || m[q].field == f)
  {
    AssignmentLaws(n, fields, props);
    var c := Candidate(f, p, n.score(f, p).value.0, top);
    CandidatesMembers(n, fields, props, c);
    var m := Assigned(n, fields, props);
    hide Assigned, Candidates;
    assert Placed(m, c, Better(n, fields));
    var q :| q in m && (m[q] == c || ((m[q].field == c.field || q == c.prop) && Better(n, fields)(m[q], c)));
    assert m[q].score <= top;
    assert m[q].prop == q;
  }

  // --- The draft --------------------------------------------------------------------------------

  /** Columns of a draft: of fields, link keys and weights. */
  function FieldColumns(fields: seq<FieldMap>): seq<string> {
    if fields == [] then [] else FieldColumns(fields[..|fields| - 1]) + [fields[|fields| - 1].from]
  }

  function LinkColumns(links: seq<LinkMap>): seq<string> {
    if links == [] then []
    else
      var l := links[|links| - 1];
      LinkColumns(links[..|links| - 1]) + [l.toKey] + if l.weightFrom.Some? then [l.weightFrom.value] else []
  }

  function Columns(d: Draft): seq<string> {
    FieldColumns(d.fields) + LinkColumns(d.links)
  }

  function PropsOf(fields: seq<FieldMap>): seq<string> {
    if fields == [] then [] else PropsOf(fields[..|fields| - 1]) + [fields[|fields| - 1].to]
  }

  function Others(s: seq<string>, used: set<string>): (r: seq<string>)
    ensures forall x :: x in r <==> x in s && x !in used
  {
    if s == [] then []
    else
      assert s == s[..|s| - 1] + [s[|s| - 1]];
      Others(s[..|s| - 1], used) + if s[|s| - 1] in used then [] else [s[|s| - 1]]
  }

  /** Every column is used once or unmatched, and so is every property. */
  ghost predicate Partitions(d: Draft, fields: seq<string>, t: Target) {
    && Distinct(Columns(d)) && Distinct(PropsOf(d.fields))
    && (forall f :: f in fields <==> f in Columns(d) || f in d.unmatchedFields)
    && (forall f :: f in d.unmatchedFields ==> f !in Columns(d))
    && (forall p :: p in t.props <==> p in PropsOf(d.fields) || p in d.unmatchedProps)
    && (forall p :: p in d.unmatchedProps ==> p !in PropsOf(d.fields))
  }

  /** The first free column that passes a test. */
  function FirstUnused(fields: seq<string>, used: set<string>, test: string -> bool): (r: Option<string>)
    ensures r.Some? ==> r.value in fields && r.value !in used && test(r.value)
    ensures r.None? ==> forall f :: f in fields ==> f in used || !test(f)
  {
    if fields == [] then None
    else if fields[0] !in used && test(fields[0]) then Some(fields[0])
    else FirstUnused(fields[1..], used, test)
  }

  method FindUnused(fields: seq<string>, used: set<string>, test: string -> bool) returns (r: Option<string>)
    ensures r == FirstUnused(fields, used, test)
  {
    for i := 0 to |fields|
      invariant FirstUnused(fields, used, test) == FirstUnused(fields[i..], used, test)
    {
      if fields[i] !in used && test(fields[i]) {
        return Some(fields[i]);
      }
    }
    return None;
  }

  lemma DistinctSnoc(s: seq<string>, x: string)
    requires Distinct(s) && x !in s
    ensures Distinct(s + [x])
  {
  }

  /** Links over columns that were free, each used once. */
  ghost predicate LinksOk(n: Names, fields: seq<string>, start: set<string>, links: seq<LinkMap>, used: set<string>) {
    && Distinct(LinkColumns(links))
    && (forall f :: f in LinkColumns(links) ==> f in fields && f !in start)
    && used == start + (set f | f in LinkColumns(links))
    && (forall k :: 0 <= k < |links| ==> n.isLinkColumn(links[k].linkType, links[k].toKey))
  }

  lemma OneMoreLink(n: Names, fields: seq<string>, start: set<string>, links: seq<LinkMap>, used: set<string>, l: LinkMap)
    requires LinksOk(n, fields, start, links, used) && n.isLinkColumn(l.linkType, l.toKey)
    requires l.toKey in fields && l.toKey !in used
    requires l.weightFrom.Some? ==> l.weightFrom.value in fields && l.weightFrom.value !in used && l.weightFrom.value != l.toKey
    ensures LinksOk(n, fields, start, links + [l], WithWeight(used + {l.toKey}, l.weightFrom))
  {
    var columns, all := LinkColumns(links), links + [l];
    assert all[..|links|] == links;
    assert LinkColumns(all) == columns + [l.toKey] + if l.weightFrom.Some? then [l.weightFrom.value] else [];
    hide LinkColumns;
    DistinctSnoc(columns, l.toKey);
    if l.weightFrom.Some? {
      DistinctSnoc(columns + [l.toKey], l.weightFrom.value);
    }
  }

  /** Whether a column can hold the links of a type. */
  function LinkTest(n: Names, linkType: string): string -> bool {
    f => n.isLinkColumn(linkType, f)
  }

  /** For each link type in turn, its first free link column and then the first free weight column. */
  function FoundLinks(n: Names, fields: seq<string>, types: seq<string>, start: set<string>): (seq<LinkMap>, set<string>) {
    if types == [] then ([], start)
    else
      var lt := types[|types| - 1];
      var (links, used) := FoundLinks(n, fields, types[..|types| - 1], start);
      var key := FirstUnused(fields, used, LinkTest(n, lt));
      if key.None? then (links, used)
      else
        var weight := FirstUnused(fields, used + {key.value}, n.isWeight);
        (links + [LinkMap(lt, key.value, weight)], WithWeight(used + {key.value}, weight))
  }

  function WithWeight(used: set<string>, weight: Option<string>): set<string> {
    if weight.Some? then used + {weight.value} else used
  }

  lemma {:induction false} FoundLinksOk(n: Names, fields: seq<string>, types: seq<string>, start: set<string>)
    ensures var (links, used) := FoundLinks(n, fields, types, start); LinksOk(n, fields, start, links, used)
  {
    if types == [] {
    } else {
      var lt := types[|types| - 1];
      FoundLinksOk(n, fields, types[..|types| - 1], start);
      var (links, used) := FoundLinks(n, fields, types[..|types| - 1], start);
      var key := FirstUnused(fields, used, LinkTest(n, lt));
      hide LinksOk;
      if key.Some? {
        OneMoreLink(n, fields, start, links, used, LinkMap(lt, key.value, FirstUnused(fields, used + {key.value}, n.isWeight)));
      }
    }
  }

  method FindLinks(n: Names, fields: seq<string>, t: Target, start: set<string>) returns (links: seq<LinkMap>, used: set<string>)
    ensures (links, used) == FoundLinks(n, fields, t.links, start)
  {
    links, used := [], start;
    hide FirstUnused;
    for i := 0 to |t.links|
      invariant (links, used) == FoundLinks(n, fields, t.links[..i], start)
    {
      PrefixSnoc(t.links, i);
      var lt := t.links[i];
      var key := FindUnused(fields, used, LinkTest(n, lt));
      if key.None? {
        continue;
      }
      used := used + {key.value};
      var weight := FindUnused(fields, used, n.isWeight);
      if weight.Some? {
        used := used + {weight.value};
      }
      links := links + [LinkMap(lt, key.value, weight)];
    }
    assert t.links[..|t.links|] == t.links;
  }

  /** The field mappings, in the order of the properties. */
  function Listed(props: seq<string>, m: Assignment): seq<FieldMap> {
    if props == [] then []
    else
      var p := props[|props| - 1];
      Listed(props[..|props| - 1], m) + if p in m then [FieldMap(p, m[p].field, m[p].matchedBy)] else []
  }

  method ListFields(props: seq<string>, m: Assignment) returns (fields: seq<FieldMap>)
    ensures fields == Listed(props, m)
  {
    fields := [];
    for i := 0 to |props|
      invariant fields == Listed(props[..i], m)
    {
      PrefixSnoc(props, i);
      var p := props[i];
      if p !in m {
        continue;
      }
      fields := fields + [FieldMap(p, m[p].field, m[p].matchedBy)];
    }
    assert props[..|props|] == props;
  }

  lemma FieldSnoc(fields: seq<FieldMap>, f: FieldMap)
    ensures FieldColumns(fields + [f]) == FieldColumns(fields) + [f.from]
    ensures PropsOf(fields + [f]) == PropsOf(fields) + [f.to]
  {
    assert (fields + [f])[..|fields|] == fields;
  }

  lemma {:induction false} ListedEntries(props: seq<string>, m: Assignment)
    ensures forall i :: 0 <= i < |Listed(props, m)| ==>
      Listed(props, m)[i].to in m && Listed(props, m)[i].from == m[Listed(props, m)[i].to].field
  {
    if props != [] {
      ListedEntries(props[..|props| - 1], m);
    }
  }

  lemma {:induction false} ListedLaws(props: seq<string>, m: Assignment)
    requires IsMatching(m) && Distinct(props)
    ensures Distinct(PropsOf(Listed(props, m))) && Distinct(FieldColumns(Listed(props, m)))
    ensures forall p :: p in PropsOf(Listed(props, m)) <==> p in m && p in props
    ensures forall f :: f in FieldColumns(Listed(props, m)) <==> ColumnFor(m, props, f)
  {
    if props != [] {
      var n := |props| - 1;
      var p := props[n];
      ListedLaws(props[..n], m);
      assert props == props[..n] + [p];
      assert p !in props[..n];
      var front := Listed(props[..n], m);
      ColumnForSnoc(m, props[..n], p);
      if p in m {
        FieldSnoc(front, FieldMap(p, m[p].field, m[p].matchedBy));
        hide PropsOf, FieldColumns, ColumnFor;
        DistinctSnoc(PropsOf(front), p);
        DistinctSnoc(FieldColumns(front), m[p].field);
      } else {
        assert Listed(props, m) == front;
        hide PropsOf, FieldColumns, ColumnFor;
      }
    }
  }

  ghost predicate ColumnFor(m: Assignment, props: seq<string>, f: string) {
    exists p :: p in m && p in props && m[p].field == f
  }

  lemma ColumnForSnoc(m: Assignment, props: seq<string>, p: string)
    requires IsMatching(m) && p !in props
    ensures forall f :: ColumnFor(m, props + [p], f) <==> ColumnFor(m, props, f) || (p in m && m[p].field == f)
    ensures p in m ==> !ColumnFor(m, props, m[p].field)
  {
    forall f ensures ColumnFor(m, props + [p], f) <==> ColumnFor(m, props, f) || (p in m && m[p].field == f) {
      if ColumnFor(m, props, f) {
        var q :| q in m && q in props && m[q].field == f;
        assert q in props + [p];
      }
      if p in m && m[p].field == f {
        assert p in props + [p];
      }
    }
  }

  lemma DistinctJoin(a: seq<string>, b: seq<string>)
    requires Distinct(a) && Distinct(b) && forall x :: x in b ==> x !in a
    ensures Distinct(a + b)
  {
    forall i, j | 0 <= i < |a| && 0 <= j < |b| ensures a[i] != b[j] {
      assert b[j] in b;
    }
  }

  method RuleDraft(n: Names, fields: seq<string>, t: Target) returns (d: Draft)
    requires Distinct(t.props)
    ensures Partitions(d, fields, t)
    ensures d.fields == Listed(t.props, Assigned(n, fields, t.props))
    ensures forall p :: p in PropsOf(d.fields) <==> p in Assigned(n, fields, t.props)
    ensures forall i :: 0 <= i < |d.fields| ==>
      d.fields[i].to in Assigned(n, fields, t.props) && d.fields[i].from == Assigned(n, fields, t.props)[d.fields[i].to].field
    ensures d.links == FoundLinks(n, fields, t.links, FieldsOf(Assigned(n, fields, t.props))).0
    ensures d.primaryKey == if t.primaryKey in Assigned(n, fields, t.props) then Assigned(n, fields, t.props)[t.primaryKey].field else ""
  {
    var used, m := Assign(Sort(Candidates(n, fields, t.props), Better(n, fields)));
    AssignmentLaws(n, fields, t.props);
    ListedLaws(t.props, m);
    ListedEntries(t.props, m);
    hide Sort, Candidates, Greedy, NoBetterLeft, Listed;
    FoundLinksOk(n, fields, t.links, used);
    var links, all := FindLinks(n, fields, t, used);
    hide FoundLinks;
    var mapped := ListFields(t.props, m);
    d := Draft(if t.primaryKey in m then m[t.primaryKey].field else "", mapped, links,
               Others(fields, all), Others(t.props, set p | p in t.props && p in m));
    UsedOnce(fields, t, m, mapped, links, all, d);
  }

  lemma UsedOnce(fields: seq<string>, t: Target, m: Assignment, mapped: seq<FieldMap>, links: seq<LinkMap>, all: set<string>, d: Draft)
    requires (forall p :: p in m ==> p in t.props && m[p].field in fields)
    requires Distinct(PropsOf(mapped)) && Distinct(FieldColumns(mapped)) && Distinct(LinkColumns(links))
    requires forall p :: p in PropsOf(mapped) <==> p in m && p in t.props
    requires forall f :: f in FieldColumns(mapped) <==> ColumnFor(m, t.props, f)
    requires forall f :: f in LinkColumns(links) ==> f in fields && f !in FieldsOf(m)
    requires all == FieldsOf(m) + set f | f in LinkColumns(links)
    requires d.fields == mapped && d.links == links
    requires d.unmatchedFields == Others(fields, all) && d.unmatchedProps == Others(t.props, set p | p in t.props && p in m)
    ensures Partitions(d, fields, t)
  {
    hide Others, PropsOf, FieldColumns, LinkColumns;
    forall f ensures f in FieldColumns(mapped) <==> f in FieldsOf(m) {
      if ColumnFor(m, t.props, f) {
        var p :| p in m && p in t.props && m[p].field == f;
      }
      if f in FieldsOf(m) {
        var p :| p in m && m[p].field == f;
        assert ColumnFor(m, t.props, f);
      }
    }
    forall f | f in FieldsOf(m) ensures f in fields {
      var p :| p in m && m[p].field == f;
    }
    DistinctJoin(FieldColumns(mapped), LinkColumns(links));
    hide FieldsOf, ColumnFor;
    assert forall f :: f in Columns(d) <==> f in FieldColumns(mapped) || f in LinkColumns(links);
    hide Columns;
  }

  // --- AI suggestions ---------------------------------------------------------------------------

  /** Takes the pairs that are still free, each column and property once, never a sensitive one. */
  method MergeAiPairs(d: Draft, fields: seq<string>, t: Target, pairs: seq<(string, string)>) returns (r: Draft, ghost taken: seq<nat>)
    requires Partitions(d, fields, t)
    ensures FirstCome(d, t, pairs, taken, |pairs|) && r.fields == d.fields + Suggestions(pairs, taken)
    ensures Partitions(r, fields, t)
    ensures d.fields <= r.fields && r.links == d.links
    ensures forall i :: |d.fields| <= i < |r.fields| ==> Suggested(d, t, pairs, r.fields[i])
    ensures forall p :: p in pairs && p.0 in d.unmatchedFields && p.1 in d.unmatchedProps && p.1 !in t.sensitive ==>
      p.0 !in r.unmatchedFields || p.1 !in r.unmatchedProps
    ensures d.primaryKey != "" ==> r.primaryKey == d.primaryKey
    ensures d.primaryKey == "" ==>
      if t.primaryKey in PropsOf(r.fields) && t.primaryKey in d.unmatchedProps then (r.primaryKey, t.primaryKey) in pairs
      else r.primaryKey == ""
  {
    var free := set f | f in d.unmatchedFields;
    var open := set p | p in d.unmatchedProps && p !in t.sensitive;
    var all := d.fields;
    var key := d.primaryKey;
    var added: set<string> := {};
    taken := [];
    TakenStart(d, t, pairs);
    hide TakenAt, FirstCome, Suggestions;
    for i := 0 to |pairs|
      invariant TakenAt(d, t, pairs, taken, i, all, free, added)
      invariant Filled(d, t, pairs, all, free, open, added)
      invariant d.primaryKey != "" ==> key == d.primaryKey
      invariant d.primaryKey == "" ==> if t.primaryKey in added then (key, t.primaryKey) in pairs else key == ""
      invariant forall k :: 0 <= k < i && pairs[k].0 in free ==> pairs[k].1 !in open
      invariant open == (set p | p in d.unmatchedProps && p !in t.sensitive) - added
    {
      var (from, to) := pairs[i];
      TakenNext(d, t, pairs, taken, i, all, free, added);
      if from !in free || to !in open {
        continue;
      }
      FillOne(d, fields, t, pairs, all, free, open, added, i);
      free := free - {from};
      open := open - {to};
      added := added + {to};
      all := all + [FieldMap(to, from, Ai)];
      taken := taken + [i];
      if key == "" && d.primaryKey == "" && to == t.primaryKey {
        key := from;
      }
    }
    r := Draft(key, all, d.links, Others(d.unmatchedFields, (set f | f in d.unmatchedFields) - free), Others(d.unmatchedProps, added));
    FilledPartitions(d, fields, t, pairs, all, free, open, added, r);
    TakenEnd(d, t, pairs, taken, all, free, added);
  }

  /** The suggestions taken of the first `i`, and what they left free. */
  ghost predicate TakenAt(d: Draft, t: Target, pairs: seq<(string, string)>, taken: seq<nat>, i: nat,
                          all: seq<FieldMap>, free: set<string>, added: set<string>) {
    && FirstCome(d, t, pairs, taken, i) && all == d.fields + Suggestions(pairs, taken)
    && free == (set f | f in d.unmatchedFields) - Froms(pairs, taken) && added == Tos(pairs, taken)
  }

  lemma TakenStart(d: Draft, t: Target, pairs: seq<(string, string)>)
    ensures TakenAt(d, t, pairs, [], 0, d.fields, set f | f in d.unmatchedFields, {})
  {
    assert Froms(pairs, []) == {} && Tos(pairs, []) == {} && d.fields + [] == d.fields;
  }

  lemma TakenNext(d: Draft, t: Target, pairs: seq<(string, string)>, taken: seq<nat>, i: nat,
                  all: seq<FieldMap>, free: set<string>, added: set<string>)
    requires i < |pairs| && TakenAt(d, t, pairs, taken, i, all, free, added)
    ensures var (from, to) := pairs[i];
      if from in free && to in d.unmatchedProps && to !in t.sensitive && to !in added
      then TakenAt(d, t, pairs, taken + [i], i + 1, all + [FieldMap(to, from, Ai)], free - {from}, added + {to})
      else TakenAt(d, t, pairs, taken, i + 1, all, free, added)
  {
    NextCome(d, t, pairs, taken, i);
    hide FirstCome, Suggestions, Froms, Tos;
    assert d.fields + Suggestions(pairs, taken) + [FieldMap(pairs[i].1, pairs[i].0, Ai)]
        == d.fields + (Suggestions(pairs, taken) + [FieldMap(pairs[i].1, pairs[i].0, Ai)]);
  }

  lemma TakenEnd(d: Draft, t: Target, pairs: seq<(string, string)>, taken: seq<nat>,
                 all: seq<FieldMap>, free: set<string>, added: set<string>)
    requires TakenAt(d, t, pairs, taken, |pairs|, all, free, added)
    ensures FirstCome(d, t, pairs, taken, |pairs|) && (forall k :: 0 <= k < |taken| ==> taken[k] < |pairs|)
    ensures all == d.fields + Suggestions(pairs, taken)
  {
  }

  /** A pair of an unmatched column and an unmatched, non-sensitive property. */
  ghost predicate Acceptable(d: Draft, t: Target, pair: (string, string)) {
    pair.0 in d.unmatchedFields && pair.1 in d.unmatchedProps && pair.1 !in t.sensitive
  }

  /** Of the first `n` suggestions those that are acceptable and repeat no column or property of one taken before. */
  ghost predicate FirstCome(d: Draft, t: Target, pairs: seq<(string, string)>, taken: seq<nat>, n: nat) {
    && n <= |pairs| && (forall k :: 0 <= k < |taken| ==> taken[k] < n) && (forall k, l :: 0 <= k < l < |taken| ==> taken[k] < taken[l])
    && forall i :: 0 <= i < n ==> (i in taken <==> Acceptable(d, t, pairs[i]) && !Repeats(pairs, taken, i))
  }

  ghost predicate Repeats(pairs: seq<(string, string)>, taken: seq<nat>, i: nat)
    requires i < |pairs| && forall k :: 0 <= k < |taken| ==> taken[k] < |pairs|
  {
    exists k :: 0 <= k < |taken| && taken[k] < i && (pairs[taken[k]].0 == pairs[i].0 || pairs[taken[k]].1 == pairs[i].1)
  }

  ghost function Suggestions(pairs: seq<(string, string)>, taken: seq<nat>): (r: seq<FieldMap>)
    requires forall k :: 0 <= k < |taken| ==> taken[k] < |pairs|
    ensures |r| == |taken| && forall k :: 0 <= k < |r| ==> r[k] == FieldMap(pairs[taken[k]].1, pairs[taken[k]].0, Ai)
  {
    seq(|taken|, k requires 0 <= k < |taken| => FieldMap(pairs[taken[k]].1, pairs[taken[k]].0, Ai))
  }

  ghost function Froms(pairs: seq<(string, string)>, taken: seq<nat>): set<string>
    requires forall k :: 0 <= k < |taken| ==> taken[k] < |pairs|
  {
    set k | 0 <= k < |taken| :: pairs[taken[k]].0
  }

  ghost function Tos(pairs: seq<(string, string)>, taken: seq<nat>): set<string>
    requires forall k :: 0 <= k < |taken| ==> taken[k] < |pairs|
  {
    set k | 0 <= k < |taken| :: pairs[taken[k]].1
  }

  /** The next suggestion is taken exactly when its column and property are still free. */
  lemma NextCome(d: Draft, t: Target, pairs: seq<(string, string)>, taken: seq<nat>, i: nat)
    requires i < |pairs| && FirstCome(d, t, pairs, taken, i)
    ensures var more := taken + [i];
      if Acceptable(d, t, pairs[i]) && pairs[i].0 !in Froms(pairs, taken) && pairs[i].1 !in Tos(pairs, taken) then
        && FirstCome(d, t, pairs, more, i + 1)
        && Suggestions(pairs, more) == Suggestions(pairs, taken) + [FieldMap(pairs[i].1, pairs[i].0, Ai)]
        && Froms(pairs, more) == Froms(pairs, taken) + {pairs[i].0} && Tos(pairs, more) == Tos(pairs, taken) + {pairs[i].1}
      else FirstCome(d, t, pairs, taken, i + 1)
  {
    var more := taken + [i];
    assert more[|taken|] == i;
    forall j | 0 <= j <= i ensures Repeats(pairs, more, j) <==> Repeats(pairs, taken, j) {
      RepeatsMore(pairs, taken, i, j);
    }
    assert Repeats(pairs, taken, i) <==> pairs[i].0 in Froms(pairs, taken) || pairs[i].1 in Tos(pairs, taken);
    hide Acceptable, Repeats;
    assert forall j :: j in more <==> j in taken || j == i;
    assert forall k :: 0 <= k < |taken| ==> more[k] == taken[k];
  }

  lemma RepeatsMore(pairs: seq<(string, string)>, taken: seq<nat>, i: nat, j: nat)
    requires j <= i < |pairs| && forall k :: 0 <= k < |taken| ==> taken[k] < i
    ensures Repeats(pairs, taken + [i], j) <==> Repeats(pairs, taken, j)
  {
    var more := taken + [i];
    assert forall k :: 0 <= k < |taken| ==> more[k] == taken[k];
    if k :| 0 <= k < |taken| && taken[k] < j && (pairs[taken[k]].0 == pairs[j].0 || pairs[taken[k]].1 == pairs[j].1) {
      assert more[k] == taken[k];
    }
  }

  /** How far the suggestions have been taken: what is added came from what was unmatched. */
  ghost predicate Filled(d: Draft, t: Target, pairs: seq<(string, string)>, all: seq<FieldMap>,
                         free: set<string>, open: set<string>, added: set<string>)
  {
    && d.fields <= all
    && Distinct(FieldColumns(all) + LinkColumns(d.links)) && Distinct(PropsOf(all))
    && (forall f :: f in free ==> f in d.unmatchedFields)
    && (forall p :: p in open ==> p in d.unmatchedProps && p !in t.sensitive)
    && (forall f :: f in FieldColumns(all) <==> f in FieldColumns(d.fields) || (f in d.unmatchedFields && f !in free))
    && (forall p :: p in PropsOf(all) <==> p in PropsOf(d.fields) || p in added)
    && added !! open && (forall p :: p in added ==> p in d.unmatchedProps)
    && (forall k :: |d.fields| <= k < |all| ==> Suggested(d, t, pairs, all[k]))
  }

  ghost predicate Suggested(d: Draft, t: Target, pairs: seq<(string, string)>, f: FieldMap) {
    (f.from, f.to) in pairs && f.matchedBy == Ai && f.from in d.unmatchedFields && f.to in d.unmatchedProps && f.to !in t.sensitive
  }

  lemma ColumnsOf(d: Draft)
    ensures forall f :: f in Columns(d) <==> f in FieldColumns(d.fields) || f in LinkColumns(d.links)
  {
    hide FieldColumns, LinkColumns;
  }

  lemma FillOne(d: Draft, fields: seq<string>, t: Target, pairs: seq<(string, string)>, all: seq<FieldMap>,
                free: set<string>, open: set<string>, added: set<string>, i: nat)
    requires Partitions(d, fields, t) && Filled(d, t, pairs, all, free, open, added)
    requires i < |pairs| && pairs[i].0 in free && pairs[i].1 in open
    ensures Filled(d, t, pairs, all + [FieldMap(pairs[i].1, pairs[i].0, Ai)],
                   free - {pairs[i].0}, open - {pairs[i].1}, added + {pairs[i].1})
  {
    var from, to := pairs[i].0, pairs[i].1;
    ColumnsOf(d);
    FieldSnoc(all, FieldMap(to, from, Ai));
    assert pairs[i] in pairs;
    assert Suggested(d, t, pairs, FieldMap(to, from, Ai));
    hide PropsOf, FieldColumns, LinkColumns, Columns, Suggested;
    assert from !in FieldColumns(all) && from !in LinkColumns(d.links) && to !in PropsOf(all);
    InsertColumn(FieldColumns(all), LinkColumns(d.links), from);
    DistinctSnoc(PropsOf(all), to);
  }

  lemma FilledPartitions(d: Draft, fields: seq<string>, t: Target, pairs: seq<(string, string)>, all: seq<FieldMap>,
                         free: set<string>, open: set<string>, added: set<string>, r: Draft)
    requires Partitions(d, fields, t) && Filled(d, t, pairs, all, free, open, added)
    requires r.fields == all && r.links == d.links && r.unmatchedProps == Others(d.unmatchedProps, added)
    requires r.unmatchedFields == Others(d.unmatchedFields, (set f | f in d.unmatchedFields) - free)
    ensures Partitions(r, fields, t)
  {
    ColumnsOf(d);
    ColumnsOf(r);
    assert Columns(r) == FieldColumns(all) + LinkColumns(d.links);
    hide PropsOf, FieldColumns, LinkColumns, Columns, Others, Suggested;
  }

  lemma InsertColumn(a: seq<string>, b: seq<string>, x: string)
    requires Distinct(a + b) && x !in a && x !in b
    ensures Distinct(a + [x] + b)
  {
    var s, r := a + b, a + [x] + b;
    forall i, j | 0 <= i < j < |r| ensures r[i] != r[j] {
      var k := if i < |a| then i else i - 1;
      var l := if j < |a| then j else j - 1;
      assert i != |a| ==> r[i] == s[k];
      assert j != |a| ==> r[j] == s[l];
    }
  }
}
