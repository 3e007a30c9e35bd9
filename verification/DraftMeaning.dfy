/**
 * The mapping draft by places: for whom a pair of column and property was passed over, which
 * columns the links and weights take, and how the fields are listed.
 */
module DraftMeaning {
  import opened Common
  import opened DraftMatching

  // --- The assignment -----------------------------------------------------------------------------

  /** The first place of a column. */
  ghost predicate FirstPlace(fields: seq<string>, f: string, i: nat) {
    i < |fields| && fields[i] == f && forall j :: 0 <= j < i ==> fields[j] != f
  }

  lemma {:induction false} IndexIsFirst(fields: seq<string>, f: string)
    requires f in fields
    ensures FirstPlace(fields, f, IndexOf(fields, f))
  {
    if fields[0] != f {
      assert f in fields[1..];
      IndexIsFirst(fields[1..], f);
      assert forall j :: 0 < j < |fields| ==> fields[j] == fields[1..][j - 1];
    }
  }

  ghost predicate EarlierPlace(n: Names, a: Candidate, i: nat, b: Candidate, j: nat) {
    i < j || (i == j && n.collate(a.prop) <= n.collate(b.prop))
  }

  /** One pair goes before another: a higher score, then an earlier column, then the property name in collation order. */
  ghost predicate GoesBefore(n: Names, fields: seq<string>, a: Candidate, b: Candidate) {
    || a.score > b.score
    || (a.score == b.score
        && exists i, j :: FirstPlace(fields, a.field, i) && FirstPlace(fields, b.field, j) && EarlierPlace(n, a, i, b, j))
  }

  /**
   * Every scored pair of a column and a property is assigned, or its column or its property is
   * taken by a pair that goes before it; and only such pairs are assigned, each column and property once.
   */
  lemma PassedOverFor(n: Names, fields: seq<string>, props: seq<string>, f: string, p: string)
    requires f in fields && p in props && n.score(f, p).Some?
    ensures var m, c := Assigned(n, fields, props), Candidate(f, p, n.score(f, p).value.0, n.score(f, p).value.1);
      exists q :: q in m && (m[q] == c || ((m[q].field == f || q == p) && GoesBefore(n, fields, m[q], c)))
  {
    AssignmentLaws(n, fields, props);
    var m, c := Assigned(n, fields, props), Candidate(f, p, n.score(f, p).value.0, n.score(f, p).value.1);
    CandidatesMembers(n, fields, props, c);
    hide Assigned, Candidates, GoesBefore, Better;
    assert Placed(m, c, Better(n, fields));
    var q :| q in m && (m[q] == c || ((m[q].field == c.field || q == c.prop) && Better(n, fields)(m[q], c)));
    if m[q] != c {
      BetterGoesBefore(n, fields, m[q], c);
    }
  }

  lemma BetterGoesBefore(n: Names, fields: seq<string>, a: Candidate, b: Candidate)
    requires a.field in fields && b.field in fields && Better(n, fields)(a, b)
    ensures GoesBefore(n, fields, a, b)
  {
    IndexIsFirst(fields, a.field);
    IndexIsFirst(fields, b.field);
    var i, j := IndexOf(fields, a.field), IndexOf(fields, b.field);
    assert a.score == b.score ==> EarlierPlace(n, a, i, b, j);
    hide FirstPlace, IndexOf, EarlierPlace;
  }

  // --- The fields ---------------------------------------------------------------------------------

  /** The fields are the assigned properties in their order, each from its column and by its kind of match. */
  ghost predicate ListsAssigned(props: seq<string>, m: Assignment, fields: seq<FieldMap>, at: seq<nat>) {
    && |at| == |fields| && (forall k, l :: 0 <= k < l < |at| ==> at[k] < at[l])
    && (forall k :: 0 <= k < |at| ==>
          at[k] < |props| && props[at[k]] in m && fields[k] == FieldMap(props[at[k]], m[props[at[k]]].field, m[props[at[k]]].matchedBy))
    && (forall i :: 0 <= i < |props| && props[i] in m ==> i in at)
  }

  lemma OneMoreListed(props: seq<string>, n: nat, m: Assignment, fields: seq<FieldMap>, at: seq<nat>)
    requires n < |props| && ListsAssigned(props[..n], m, fields, at)
    ensures props[n] in m ==>
      ListsAssigned(props[..n + 1], m, fields + [FieldMap(props[n], m[props[n]].field, m[props[n]].matchedBy)], at + [n])
    ensures props[n] !in m ==> ListsAssigned(props[..n + 1], m, fields, at)
  {
    var more := at + [n];
    assert more[|at|] == n && forall i :: i in at ==> i in more;
    assert forall i :: 0 <= i < n ==> props[..n][i] == props[..n + 1][i] == props[i];
    assert props[..n + 1][n] == props[n];
  }

  lemma {:induction false} ListedUpTo(props: seq<string>, m: Assignment, n: nat) returns (at: seq<nat>)
    requires n <= |props|
    ensures ListsAssigned(props[..n], m, Listed(props[..n], m), at)
  {
    at := [];
    if n > 0 {
      at := ListedUpTo(props, m, n - 1);
      PrefixSnoc(props, n - 1);
      var p, front := props[n - 1], Listed(props[..n - 1], m);
      assert Listed(props[..n], m) == if p in m then front + [FieldMap(p, m[p].field, m[p].matchedBy)] else front;
      OneMoreListed(props, n - 1, m, front, at);
      hide Listed, ListsAssigned;
      if p in m {
        at := at + [n - 1];
      }
    }
  }

  /** What a draft lists as its fields. */
  lemma ListedExactly(props: seq<string>, m: Assignment) returns (at: seq<nat>)
    ensures ListsAssigned(props, m, Listed(props, m), at)
  {
    at := ListedUpTo(props, m, |props|);
    assert props[..|props|] == props;
  }

  // --- The links ----------------------------------------------------------------------------------

  /** The first column that is not used and passes a test, or none. */
  ghost predicate FirstFree(fields: seq<string>, used: set<string>, test: string -> bool, r: Option<string>) {
    match r
    case None => forall i :: 0 <= i < |fields| ==> fields[i] in used || !test(fields[i])
    case Some(f) =>
      exists i :: 0 <= i < |fields| && fields[i] == f && f !in used && test(f)
        && forall j :: 0 <= j < i ==> fields[j] in used || !test(fields[j])
  }

  lemma {:induction false} UnusedIsFirst(fields: seq<string>, used: set<string>, test: string -> bool)
    ensures FirstFree(fields, used, test, FirstUnused(fields, used, test))
  {
    if fields != [] {
      assert forall j :: 0 < j < |fields| ==> fields[j] == fields[1..][j - 1];
      if !(fields[0] !in used && test(fields[0])) {
        UnusedIsFirst(fields[1..], used, test);
        var r := FirstUnused(fields[1..], used, test);
        if r.Some? {
          var i :| 0 <= i < |fields| - 1 && fields[1..][i] == r.value && r.value !in used && test(r.value)
            && forall j :: 0 <= j < i ==> fields[1..][j] in used || !test(fields[1..][j]);
          assert fields[i + 1] == r.value;
          assert forall j :: 0 < j < i + 1 ==> fields[1..][j - 1] == fields[j];
        }
      } else {
        assert fields[0] == fields[0];
      }
    }
  }

  /** What one link type adds: its first free link column and then the first free weight column; nothing without the former. */
  ghost predicate LinkOf(n: Names, fields: seq<string>, linkType: string, used: set<string>, after: set<string>, link: Option<LinkMap>) {
    var key := if link.Some? then Some(link.value.toKey) else None;
    && FirstFree(fields, used, LinkTest(n, linkType), key)
    && (link.None? ==> after == used)
    && (link.Some? ==>
          && link.value.linkType == linkType
          && FirstFree(fields, used + {link.value.toKey}, n.isWeight, link.value.weightFrom)
          && forall f :: f in after <==> f in used || f == link.value.toKey || Some(f) == link.value.weightFrom)
  }

  /** The link types in turn, each with the columns that the ones before it left. */
  lemma {:induction false} LinksInTurn(n: Names, fields: seq<string>, types: seq<string>, start: set<string>)
    returns (useds: seq<set<string>>, found: seq<Option<LinkMap>>)
    ensures |found| == |types| && |useds| == |types| + 1 && useds[0] == start
    ensures forall i :: 0 <= i < |types| ==> LinkOf(n, fields, types[i], useds[i], useds[i + 1], found[i])
    ensures FoundLinks(n, fields, types, start).0 == Somes(found) && FoundLinks(n, fields, types, start).1 == useds[|types|]
  {
    useds, found := [start], [];
    if types != [] {
      var last := |types| - 1;
      useds, found := LinksInTurn(n, fields, types[..last], start);
      assert forall i :: 0 <= i < last ==> types[..last][i] == types[i];
      hide LinkOf;
      var link, after := OneType(n, fields, types, start);
      SomesSnoc(found, link);
      found, useds := found + [link], useds + [after];
    }
  }

  lemma OneType(n: Names, fields: seq<string>, types: seq<string>, start: set<string>) returns (link: Option<LinkMap>, after: set<string>)
    requires types != []
    ensures var (before, used) := FoundLinks(n, fields, types[..|types| - 1], start);
      && LinkOf(n, fields, types[|types| - 1], used, after, link)
      && FoundLinks(n, fields, types, start) == (before + (if link.Some? then [link.value] else []), after)
  {
    var lt := types[|types| - 1];
    var (before, used) := FoundLinks(n, fields, types[..|types| - 1], start);
    var key := FirstUnused(fields, used, LinkTest(n, lt));
    UnusedIsFirst(fields, used, LinkTest(n, lt));
    link, after := None, used;
    if key.Some? {
      var weight := FirstUnused(fields, used + {key.value}, n.isWeight);
      UnusedIsFirst(fields, used + {key.value}, n.isWeight);
      link, after := Some(LinkMap(lt, key.value, weight)), WithWeight(used + {key.value}, weight);
    } else {
      assert before + [] == before;
    }
    hide FirstFree, FirstUnused;
  }

  function Somes(found: seq<Option<LinkMap>>): seq<LinkMap> {
    if found == [] then []
    else Somes(found[..|found| - 1]) + if found[|found| - 1].Some? then [found[|found| - 1].value] else []
  }

  lemma SomesSnoc(found: seq<Option<LinkMap>>, link: Option<LinkMap>)
    ensures Somes(found + [link]) == Somes(found) + if link.Some? then [link.value] else []
  {
    assert (found + [link])[..|found|] == found;
  }
}
