/**
 * The guarded commit of an upsert plan (d1_object_writer.ts), its reconciliation with the
 * plan (upsert_objects.ts) and the two places that decide which changes an event carries.
 */
module UpsertCommit {
  import opened Common
  import opened MergeProps
  import opened UpsertPlanner
  import opened UpsertStore
  import opened UpsertLinks
  import opened UpsertReplay

  /** A stored object row; `hash` is a fingerprint of the properties. */
  datatype Row = Row(objType: string, primaryKey: string, hash: string, version: nat, updatedAt: int)

  datatype ChangeRef = ChangeRef(rid: Rid, objType: string, changed: seq<string>)

  // --- Domain-event changes of a plan ---------------------------------------------------

  /** The second dot-separated segment of an identifier, or the empty string. */
  function AfterDot(s: string): string {
    if s == "" then "" else if s[0] == '.' then s[1..] else AfterDot(s[1..])
  }

  function UntilDot(s: string): string {
    if s == "" || s[0] == '.' then "" else [s[0]] + UntilDot(s[1..])
  }

  function TypeOfRid(rid: Rid): string {
    UntilDot(AfterDot(rid))
  }

  /** The type of an identifier is what stands between its first two dots. */
  lemma {:induction false} TypeBetweenDots(before: string, objType: string, rest: string)
    requires '.' !in before && '.' !in objType
    ensures TypeOfRid(before + "." + objType) == objType && TypeOfRid(before + "." + objType + "." + rest) == objType
    ensures TypeOfRid(before) == ""
  {
    DotAfter(before, objType);
    DotAfter(before, objType + "." + rest);
    assert before + "." + objType + "." + rest == before + "." + (objType + "." + rest);
    NoDot(before);
    DotUntil(objType, rest);
  }

  lemma {:induction false} NoDot(s: string)
    requires '.' !in s
    ensures AfterDot(s) == "" && UntilDot(s) == s
  {
    if s != "" {
      NoDot(s[1..]);
    }
  }

  lemma {:induction false} DotAfter(before: string, rest: string)
    requires '.' !in before
    ensures AfterDot(before + "." + rest) == rest
  {
    var t := before + "." + rest;
    if before == "" {
      assert t[1..] == rest;
    } else {
      DotAfter(before[1..], rest);
      assert t[1..] == before[1..] + "." + rest;
    }
  }

  lemma {:induction false} DotUntil(s: string, rest: string)
    requires '.' !in s
    ensures UntilDot(s) == s && UntilDot(s + "." + rest) == s
  {
    var t := s + "." + rest;
    if s != "" {
      DotUntil(s[1..], rest);
      assert t[1..] == s[1..] + "." + rest;
    }
  }

  function ObjectChanges(objects: seq<PlannedObject>): seq<ChangeRef> {
    seq(|objects|, i requires 0 <= i < |objects| => ChangeRef(objects[i].rid, objects[i].objType, objects[i].changed))
  }

  ghost predicate Names(changes: seq<ChangeRef>, rid: Rid) {
    exists i :: 0 <= i < |changes| && changes[i].rid == rid
  }

  ghost predicate DistinctRids(changes: seq<ChangeRef>) {
    forall i, j :: 0 <= i < j < |changes| ==> changes[i].rid != changes[j].rid
  }

  /** Changed objects first, then each link source that is not among them, once. */
  method PlanChanges(plan: UpsertPlan) returns (out: seq<ChangeRef>)
    ensures ObjectChanges(plan.objects) <= out
    ensures forall rid :: Names(out, rid) <==>
      Names(ObjectChanges(plan.objects), rid) || exists l :: 0 <= l < |plan.links| && plan.links[l].key.src == rid
    ensures DistinctRids(ObjectChanges(plan.objects)) ==> DistinctRids(out)
    ensures forall i :: |plan.objects| <= i < |out| ==>
      out[i].changed == [] && out[i].objType == TypeOfRid(out[i].rid)
  {
    ghost var objects := ObjectChanges(plan.objects);
    out := ObjectChanges(plan.objects);
    var seen := set i | 0 <= i < |out| :: out[i].rid;
    for i := 0 to |plan.links|
      invariant |objects| <= |out| && out[..|objects|] == objects
      invariant forall rid :: rid in seen <==> Names(out, rid)
      invariant forall rid :: Names(out, rid) <==>
        Names(objects, rid) || exists l :: 0 <= l < i && plan.links[l].key.src == rid
      invariant DistinctRids(objects) ==> DistinctRids(out)
      invariant forall j :: |objects| <= j < |out| ==> out[j].changed == [] && out[j].objType == TypeOfRid(out[j].rid)
    {
      var src := plan.links[i].key.src;
      ghost var before := out;
      if src !in seen {
        seen := seen + {src};
        out := out + [ChangeRef(src, TypeOfRid(src), [])];
        assert out[|before|].rid == src;
        assert !Names(before, src);
      }
      forall rid ensures Names(out, rid) <==> Names(before, rid) || rid == src {
        if Names(before, rid) {
          var j :| 0 <= j < |before| && before[j].rid == rid;
          assert out[j].rid == rid;
        }
      }
    }
  }

  // --- The guarded statements --------------------------------------------------------------

  /** A new row goes in only while the count before the statement plus its ordinal fits. */
  predicate Fits(ordinal: Option<nat>, count: nat, cap: int) {
    ordinal.None? || count + ordinal.value <= cap
  }

  datatype ObjectCommit = ObjectCommit(rows: map<Rid, Row>, written: set<Rid>)

  function CommitObject(hash: Props -> string, count: nat, cap: int, now: int, c: ObjectCommit, o: PlannedObject): ObjectCommit {
    if !Fits(o.newOrdinal, count, cap) then c
    else if o.rid !in c.rows then
      ObjectCommit(c.rows[o.rid := Row(o.objType, o.primaryKey, hash(o.state.props), 1, now)], c.written + {o.rid})
    else if c.rows[o.rid].hash != hash(o.state.props) then
      var r := c.rows[o.rid];
      ObjectCommit(c.rows[o.rid := r.(hash := hash(o.state.props), version := r.version + 1, updatedAt := now)],
                   c.written + {o.rid})
    else c
  }

  function CommitObjects(hash: Props -> string, cap: int, now: int, rows: map<Rid, Row>, objects: seq<PlannedObject>): ObjectCommit {
    CommitObjectsFrom(hash, |rows|, cap, now, rows, objects)
  }

  function CommitObjectsFrom(hash: Props -> string, count: nat, cap: int, now: int,
                             rows: map<Rid, Row>, objects: seq<PlannedObject>): ObjectCommit {
    if objects == [] then ObjectCommit(rows, {})
    else
      var n := |objects| - 1;
      CommitObject(hash, count, cap, now, CommitObjectsFrom(hash, count, cap, now, rows, objects[..n]), objects[n])
  }

  datatype LinkCommit = LinkCommit(links: map<LinkKey, Option<real>>, written: set<LinkKey>)

  function CommitLink(rids: set<Rid>, count: nat, cap: int, c: LinkCommit, l: PlannedLink): LinkCommit {
    if l.key.src !in rids || l.key.dst !in rids || !Fits(l.newOrdinal, count, cap) then c
    else if l.key !in c.links || c.links[l.key] != l.weight then
      LinkCommit(c.links[l.key := l.weight], c.written + {l.key})
    else c
  }

  function CommitLinksFrom(rids: set<Rid>, count: nat, cap: int,
                           links: map<LinkKey, Option<real>>, planned: seq<PlannedLink>): LinkCommit {
    if planned == [] then LinkCommit(links, {})
    else
      var n := |planned| - 1;
      CommitLink(rids, count, cap, CommitLinksFrom(rids, count, cap, links, planned[..n]), planned[n])
  }

  function CommitLinks(rids: set<Rid>, cap: int, links: map<LinkKey, Option<real>>, planned: seq<PlannedLink>): LinkCommit {
    CommitLinksFrom(rids, |links|, cap, links, planned)
  }

  // --- Caps hold whatever happened since the plan was made -------------------------------------

  /** How many of the ordinals still fit. */
  function Room(ordinals: seq<nat>, count: nat, cap: int): nat {
    if ordinals == [] then 0
    else
      Room(ordinals[..|ordinals| - 1], count, cap) + if count + ordinals[|ordinals| - 1] <= cap then 1 else 0
  }

  /** Of the ordinals 1 to n exactly those up to the free room fit. */
  lemma {:induction false} RoomOfOneTo(n: nat, count: nat, cap: int)
    ensures Room(OneTo(n), count, cap) == Min(n, Max(0, cap - count))
  {
    if n > 0 {
      assert OneTo(n)[..n - 1] == OneTo(n - 1);
      RoomOfOneTo(n - 1, count, cap);
    }
  }

  lemma RoomSnoc(ordinals: seq<nat>, x: nat, count: nat, cap: int)
    ensures Room(ordinals + [x], count, cap) == Room(ordinals, count, cap) + if count + x <= cap then 1 else 0
  {
    assert (ordinals + [x])[..|ordinals|] == ordinals;
  }

  lemma MapGrows<K, V>(m: map<K, V>, k: K, v: V)
    ensures |m[k := v]| == |m| + if k in m then 0 else 1
  {
    if k in m {
      assert m[k := v].Keys == m.Keys;
    } else {
      assert m[k := v].Keys == m.Keys + {k};
    }
    assert |m[k := v]| == |m[k := v].Keys| && |m| == |m.Keys|;
  }

  /** Planned objects that stood in the table when the plan was made, and no longer do. */
  function VanishedObjects(rows: map<Rid, Row>, objects: seq<PlannedObject>): nat {
    if objects == [] then 0
    else
      var o := objects[|objects| - 1];
      VanishedObjects(rows, objects[..|objects| - 1]) + if o.newOrdinal.None? && o.rid !in rows then 1 else 0
  }

  /** Planned new objects that are not in the table and still fit. */
  function AddedObjects(count: nat, cap: int, rows: map<Rid, Row>, objects: seq<PlannedObject>): nat {
    if objects == [] then 0
    else
      var o := objects[|objects| - 1];
      AddedObjects(count, cap, rows, objects[..|objects| - 1])
      + if o.newOrdinal.Some? && Fits(o.newOrdinal, count, cap) && o.rid !in rows then 1 else 0
  }

  ghost predicate DistinctIds(objects: seq<PlannedObject>) {
    forall i, j :: 0 <= i < j < |objects| ==> objects[i].rid != objects[j].rid
  }

  /** The rows after some planned objects: none lost, and no others than theirs. */
  ghost predicate RowsGrown(rows: map<Rid, Row>, now: map<Rid, Row>, objects: seq<PlannedObject>) {
    rows.Keys <= now.Keys && forall k :: k in now && k !in rows ==> exists i :: 0 <= i < |objects| && objects[i].rid == k
  }

  lemma {:induction false} RowsGrow(hash: Props -> string, count: nat, cap: int, now: int, rows: map<Rid, Row>, objects: seq<PlannedObject>)
    ensures RowsGrown(rows, CommitObjectsFrom(hash, count, cap, now, rows, objects).rows, objects)
  {
    if objects != [] {
      var n := |objects| - 1;
      RowsGrow(hash, count, cap, now, rows, objects[..n]);
      hide Fits;
      var c := CommitObjectsFrom(hash, count, cap, now, rows, objects[..n]);
      var d := CommitObject(hash, count, cap, now, c, objects[n]);
      forall k | k in d.rows && k !in rows ensures exists i :: 0 <= i < |objects| && objects[i].rid == k {
        if k in c.rows {
          var i :| 0 <= i < n && objects[..n][i].rid == k;
          assert objects[i].rid == k;
        } else {
          assert objects[n].rid == k;
        }
      }
    }
  }

  /** The identifiers after the commit, told before it: those in the table and those planned with room. */
  function PresentIds(rows: map<Rid, Row>, objects: seq<PlannedObject>, cap: int): set<Rid> {
    rows.Keys + set o | o in objects && Fits(o.newOrdinal, |rows|, cap) :: o.rid
  }

  lemma {:induction false} IdsFrom(hash: Props -> string, count: nat, cap: int, now: int, rows: map<Rid, Row>, objects: seq<PlannedObject>)
    ensures CommitObjectsFrom(hash, count, cap, now, rows, objects).rows.Keys ==
      rows.Keys + set o | o in objects && Fits(o.newOrdinal, count, cap) :: o.rid
  {
    if objects != [] {
      var n := |objects| - 1;
      IdsFrom(hash, count, cap, now, rows, objects[..n]);
      hide Fits;
      assert objects == objects[..n] + [objects[n]];
    }
  }

  lemma IdsPresent(hash: Props -> string, cap: int, now: int, rows: map<Rid, Row>, objects: seq<PlannedObject>)
    ensures CommitObjects(hash, cap, now, rows, objects).rows.Keys == PresentIds(rows, objects, cap)
  {
    IdsFrom(hash, |rows|, cap, now, rows, objects);
  }

  lemma ObjectAdds(hash: Props -> string, count: nat, cap: int, now: int, c: ObjectCommit, o: PlannedObject)
    ensures var d := CommitObject(hash, count, cap, now, c, o);
      |d.rows| == |c.rows| + if Fits(o.newOrdinal, count, cap) && o.rid !in c.rows then 1 else 0
  {
    var d := CommitObject(hash, count, cap, now, c, o);
    if d.rows != c.rows {
      MapGrows(c.rows, o.rid, d.rows[o.rid]);
    }
  }

  /** The last of some distinct planned objects is in the table only if it was there before all of them. */
  lemma LastId(rows: map<Rid, Row>, now: map<Rid, Row>, objects: seq<PlannedObject>)
    requires objects != [] && RowsGrown(rows, now, objects[..|objects| - 1])
    ensures var rid := objects[|objects| - 1].rid;
      && (rid in rows ==> rid in now)
      && (DistinctIds(objects) ==> DistinctIds(objects[..|objects| - 1]) && (rid in now ==> rid in rows))
  {
  }

  /** The table grows by the planned objects that are not in it, if they fit or need no room. */
  lemma {:induction false} ObjectsAdd(hash: Props -> string, count: nat, cap: int, now: int,
                                      rows: map<Rid, Row>, objects: seq<PlannedObject>)
    ensures var c, most := CommitObjectsFrom(hash, count, cap, now, rows, objects),
                           |rows| + VanishedObjects(rows, objects) + AddedObjects(count, cap, rows, objects);
      |c.rows| <= most && (DistinctIds(objects) ==> |c.rows| == most)
  {
    if objects == [] {
    } else {
      var n := |objects| - 1;
      ObjectsAdd(hash, count, cap, now, rows, objects[..n]);
      RowsGrow(hash, count, cap, now, rows, objects[..n]);
      var c := CommitObjectsFrom(hash, count, cap, now, rows, objects[..n]);
      hide CommitObject, Fits;
      LastId(rows, c.rows, objects);
      hide DistinctIds, RowsGrown;
      ObjectAdds(hash, count, cap, now, c, objects[n]);
    }
  }

  lemma {:induction false} AddedFit(count: nat, cap: int, rows: map<Rid, Row>, objects: seq<PlannedObject>)
    ensures AddedObjects(count, cap, rows, objects) <= Room(NewOrdinals(objects), count, cap)
    ensures FreshIds(rows, objects) ==> AddedObjects(count, cap, rows, objects) == Room(NewOrdinals(objects), count, cap)
  {
    if objects != [] {
      var n := |objects| - 1;
      AddedFit(count, cap, rows, objects[..n]);
      assert FreshIds(rows, objects) ==> FreshIds(rows, objects[..n]) && (objects[n].newOrdinal.Some? ==> objects[n].rid !in rows);
      if objects[n].newOrdinal.Some? {
        RoomSnoc(NewOrdinals(objects[..n]), objects[n].newOrdinal.value, count, cap);
      } else {
        assert NewOrdinals(objects) == NewOrdinals(objects[..n]);
      }
    }
  }

  /** Identifiers of new objects are new to the table. */
  ghost predicate FreshIds(rows: map<Rid, Row>, objects: seq<PlannedObject>) {
    forall i :: 0 <= i < |objects| && objects[i].newOrdinal.Some? ==> objects[i].rid !in rows
  }

  predicate EndsIn(rids: set<Rid>, l: PlannedLink) {
    l.key.src in rids && l.key.dst in rids
  }

  /** Planned links that stood in the table when the plan was made, no longer do, and still join objects. */
  function VanishedLinks(rids: set<Rid>, links: map<LinkKey, Option<real>>, planned: seq<PlannedLink>): nat {
    if planned == [] then 0
    else
      var l := planned[|planned| - 1];
      VanishedLinks(rids, links, planned[..|planned| - 1])
      + if l.newOrdinal.None? && EndsIn(rids, l) && l.key !in links then 1 else 0
  }

  /** Planned new links that are not in the table, join objects and still fit. */
  function AddedLinks(rids: set<Rid>, count: nat, cap: int, links: map<LinkKey, Option<real>>, planned: seq<PlannedLink>): nat {
    if planned == [] then 0
    else
      var l := planned[|planned| - 1];
      AddedLinks(rids, count, cap, links, planned[..|planned| - 1])
      + if l.newOrdinal.Some? && EndsIn(rids, l) && Fits(l.newOrdinal, count, cap) && l.key !in links then 1 else 0
  }

  ghost predicate LinksGrown(links: map<LinkKey, Option<real>>, now: map<LinkKey, Option<real>>, planned: seq<PlannedLink>) {
    links.Keys <= now.Keys && forall k :: k in now && k !in links ==> exists i :: 0 <= i < |planned| && planned[i].key == k
  }

  lemma {:induction false} LinksGrow(rids: set<Rid>, count: nat, cap: int, links: map<LinkKey, Option<real>>, planned: seq<PlannedLink>)
    ensures LinksGrown(links, CommitLinksFrom(rids, count, cap, links, planned).links, planned)
  {
    if planned != [] {
      var n := |planned| - 1;
      LinksGrow(rids, count, cap, links, planned[..n]);
      hide Fits;
      var c := CommitLinksFrom(rids, count, cap, links, planned[..n]);
      var d := CommitLink(rids, count, cap, c, planned[n]);
      forall k | k in d.links && k !in links ensures exists i :: 0 <= i < |planned| && planned[i].key == k {
        if k in c.links {
          var i :| 0 <= i < n && planned[..n][i].key == k;
          assert planned[i].key == k;
        } else {
          assert planned[n].key == k;
        }
      }
    }
  }

  lemma LinkAdds(rids: set<Rid>, count: nat, cap: int, c: LinkCommit, l: PlannedLink)
    ensures var d := CommitLink(rids, count, cap, c, l);
      |d.links| == |c.links| + if EndsIn(rids, l) && Fits(l.newOrdinal, count, cap) && l.key !in c.links then 1 else 0
  {
    MapGrows(c.links, l.key, l.weight);
  }

  lemma {:induction false} LinksAdd(rids: set<Rid>, count: nat, cap: int, links: map<LinkKey, Option<real>>, planned: seq<PlannedLink>)
    requires DistinctLinkKeys(planned)
    ensures |CommitLinksFrom(rids, count, cap, links, planned).links|
         == |links| + VanishedLinks(rids, links, planned) + AddedLinks(rids, count, cap, links, planned)
    ensures AddedLinks(rids, count, cap, links, planned) <= Room(NewLinkOrdinals(planned), count, cap)
  {
    if planned == [] {
    } else {
      var n := |planned| - 1;
      LinksAdd(rids, count, cap, links, planned[..n]);
      LinksGrow(rids, count, cap, links, planned[..n]);
      var c := CommitLinksFrom(rids, count, cap, links, planned[..n]);
      assert forall i :: 0 <= i < n ==> planned[..n][i].key != planned[n].key;
      LinkAdds(rids, count, cap, c, planned[n]);
      hide CommitLink, Fits, EndsIn;
      if planned[n].newOrdinal.Some? {
        RoomSnoc(NewLinkOrdinals(planned[..n]), planned[n].newOrdinal.value, count, cap);
      } else {
        assert NewLinkOrdinals(planned) == NewLinkOrdinals(planned[..n]);
      }
    }
  }

  /**
   * A plan made on one state of the workspace and committed on any later one never takes a total
   * past the larger of what was there and the cap by more than the planned rows that vanished in
   * between: those need no room and come back. No row is lost, and links join objects that exist.
   */
  lemma CapsHoldUnderConcurrency(input: Input, hash: Props -> string, rows: map<Rid, Row>,
                                 links: map<LinkKey, Option<real>>, now: int)
    ensures var objects, planned := Plan(input).objects, Plan(input).links;
      var c := CommitObjects(hash, input.env.maxObjects, now, rows, objects);
      var d := CommitLinks(c.rows.Keys, input.env.maxLinks, links, planned);
      && rows.Keys <= c.rows.Keys && links.Keys <= d.links.Keys
      && |c.rows| <= Max(|rows|, input.env.maxObjects) + VanishedObjects(rows, objects)
      && |d.links| <= Max(|links|, input.env.maxLinks)
                      + VanishedLinks(PresentIds(rows, objects, input.env.maxObjects), links, planned)
      && ((forall k :: k in links ==> k.src in rows && k.dst in rows) ==> forall k :: k in d.links ==> k.src in c.rows && k.dst in c.rows)
  {
    var objects, planned := Plan(input).objects, Plan(input).links;
    PlanOrdinals(input);
    hide *;
    IdsPresent(hash, input.env.maxObjects, now, rows, objects);
    CommitTotals(hash, input.env.maxObjects, input.env.maxLinks, now, rows, links, objects, planned);
  }

  /** New objects and links of a plan are numbered from 1 on, and its links are distinct. */
  lemma PlanOrdinals(input: Input)
    ensures NewOrdinals(Plan(input).objects) == OneTo(|NewOrdinals(Plan(input).objects)|)
    ensures NewLinkOrdinals(Plan(input).links) == OneTo(|NewLinkOrdinals(Plan(input).links)|)
    ensures DistinctLinkKeys(Plan(input).links)
  {
    PlanRefinesStore(input);
    LinksRefineStore(input);
  }

  lemma CommitTotals(hash: Props -> string, maxObjects: int, maxLinks: int, now: int, rows: map<Rid, Row>,
                     links: map<LinkKey, Option<real>>, objects: seq<PlannedObject>, planned: seq<PlannedLink>)
    requires NewOrdinals(objects) == OneTo(|NewOrdinals(objects)|) && NewLinkOrdinals(planned) == OneTo(|NewLinkOrdinals(planned)|)
    requires DistinctLinkKeys(planned)
    ensures var c := CommitObjects(hash, maxObjects, now, rows, objects);
      var d := CommitLinks(c.rows.Keys, maxLinks, links, planned);
      && rows.Keys <= c.rows.Keys && links.Keys <= d.links.Keys
      && |c.rows| <= Max(|rows|, maxObjects) + VanishedObjects(rows, objects)
      && |d.links| <= Max(|links|, maxLinks) + VanishedLinks(c.rows.Keys, links, planned)
      && ((forall k :: k in links ==> k.src in rows && k.dst in rows) ==> forall k :: k in d.links ==> k.src in c.rows && k.dst in c.rows)
  {
    var rids := CommitObjects(hash, maxObjects, now, rows, objects).rows.Keys;
    ObjectsAdd(hash, |rows|, maxObjects, now, rows, objects);
    RowsGrow(hash, |rows|, maxObjects, now, rows, objects);
    AddedFit(|rows|, maxObjects, rows, objects);
    LinksAdd(rids, |links|, maxLinks, links, planned);
    LinksGrow(rids, |links|, maxLinks, links, planned);
    RoomOfOneTo(|NewOrdinals(objects)|, |rows|, maxObjects);
    RoomOfOneTo(|NewLinkOrdinals(planned)|, |links|, maxLinks);
    if forall k :: k in links ==> k.src in rows && k.dst in rows {
      LinksJoinObjects(rids, |links|, maxLinks, links, planned);
    }
    hide CommitObjectsFrom, CommitLinksFrom, NewOrdinals, NewLinkOrdinals, Room, AddedObjects, AddedLinks, VanishedObjects, VanishedLinks;
  }

  /**
   * When the caps hold, told from the plan and the tables: the object cap exactly when no planned
   * object vanished or everything fits with the vanished ones back; the link cap exactly when no
   * planned link between present objects vanished or those that did fit beside the new ones.
   */
  lemma CapsHoldExactly(input: Input, hash: Props -> string, rows: map<Rid, Row>, links: map<LinkKey, Option<real>>, now: int)
    requires DistinctIds(Plan(input).objects) && FreshIds(rows, Plan(input).objects)
    ensures var objects, planned := Plan(input).objects, Plan(input).links;
      var c := CommitObjects(hash, input.env.maxObjects, now, rows, objects);
      var d := CommitLinks(c.rows.Keys, input.env.maxLinks, links, planned);
      var rids := PresentIds(rows, objects, input.env.maxObjects);
      var back := VanishedLinks(rids, links, planned);
      && (|c.rows| <= Max(|rows|, input.env.maxObjects) <==>
            VanishedObjects(rows, objects) == 0
            || |rows| + VanishedObjects(rows, objects) + |NewOrdinals(objects)| <= input.env.maxObjects)
      && (|d.links| <= Max(|links|, input.env.maxLinks) <==>
            back == 0 || |links| + back + AddedLinks(rids, |links|, input.env.maxLinks, links, planned) <= input.env.maxLinks)
  {
    var objects, planned := Plan(input).objects, Plan(input).links;
    var maxObjects, maxLinks := input.env.maxObjects, input.env.maxLinks;
    PlanOrdinals(input);
    hide Plan;
    var rids := PresentIds(rows, objects, maxObjects);
    IdsPresent(hash, maxObjects, now, rows, objects);
    hide PresentIds;
    ObjectsAdd(hash, |rows|, maxObjects, now, rows, objects);
    AddedFit(|rows|, maxObjects, rows, objects);
    LinksAdd(rids, |links|, maxLinks, links, planned);
    RoomOfOneTo(|NewOrdinals(objects)|, |rows|, maxObjects);
    RoomOfOneTo(|NewLinkOrdinals(planned)|, |links|, maxLinks);
    hide CommitObjectsFrom, CommitLinksFrom, NewOrdinals, NewLinkOrdinals, Room, AddedObjects, AddedLinks, VanishedObjects, VanishedLinks;
  }

  /** A batch that changes one property of the only object of a workspace whose cap is one. */
  function OneChange(): Input {
    Input(
      Env(Schema(map["T" := ObjType("id", "id", [])], map[], (t, p) => Validation([("x", JStr("new"))], []), v => ""),
          1, 1, "job", 1, (t, n) => "new"),
      [Cmd("T", "a", map[], 1, [])],
      [Obj("r", "T", "a", "a", EMPTY_STATE)],
      map[],
      Counts(1, 0, 0))
  }

  lemma OneChangePlan()
    ensures var objects := Plan(OneChange()).objects;
      |objects| == 1 && objects[0].rid == "r" && objects[0].newOrdinal == None
  {
    var input := OneChange();
    var env, cmd := input.env, input.cmds[0];
    var key := ObjectKey("T", "a");
    assert input.existing[..0] == [] && input.cmds[..0] == [];
    assert Known(input.existing[..0]) == map[];
    assert Known(input.existing) == Known(input.existing[..0])[key := input.existing[0]];
    assert Trim("a") == "a";
    assert Prepare(env.schema, cmd) == Ready(ObjType("id", "id", []), "a", key, [("x", JStr("new"))]);
    var start := StartPhase(Known(input.existing));
    assert start.byKey[key] == Working("r", "T", "a", EMPTY_STATE, false, None);
    assert PlanObjects(env, input.counts, start, input.cmds[..0]) == start;
    assert ObjectPhase(input) == PlanStep(env, input.counts, start, cmd);
    OneEntry(Source(env, cmd));
    hide Merged;
  }

  lemma OneEntry(source: Provenance)
    ensures Merged(EMPTY_STATE, [("x", JStr("new"))], source).changed == ["x"]
  {
    assert [("x", JStr("new"))][..0] == [];
    assert Merged(EMPTY_STATE, [], source) == MergeOutcome(EMPTY_STATE, []);
    assert Overwrites(map[], "x", JStr("new"));
    assert [] + ["x"] == ["x"];
  }

  /**
   * The cap can be exceeded: while the batch was planned its object was cleared away and another
   * one took the last place; the commit brings the first one back.
   */
  lemma CapMayBeExceeded(hash: Props -> string)
    ensures var rows := map["s" := Row("T", "b", "h", 1, 0)];
      var cap := OneChange().env.maxObjects;
      |rows| == cap && |CommitObjects(hash, cap, 1, rows, Plan(OneChange()).objects).rows| == cap + 1
  {
    OneChangePlan();
    var objects := Plan(OneChange()).objects;
    var rows := map["s" := Row("T", "b", "h", 1, 0)];
    hide Plan;
    assert objects[..0] == [];
    assert VanishedObjects(rows, objects[..0]) == 0 && AddedObjects(1, 1, rows, objects[..0]) == 0;
    ObjectsAdd(hash, 1, 1, 1, rows, objects);
  }

  const LOOP := LinkKey("r", "L", "r")

  /** One unchanged object with one stored link to itself, which it mentions. */
  function Mentioned(mentions: seq<LinkMention>, maxLinks: int): Input {
    Input(
      Env(Schema(map["T" := ObjType("id", "id", [])], map["L" := LinkDef("T", "T")],
                 (t, p) => Validation([], []), v => ""),
          300, maxLinks, "job", 1, (t, n) => "new"),
      [Cmd("T", "a", map[], 1, mentions)],
      [Obj("r", "T", "a", "a", EMPTY_STATE)],
      map[LOOP := Some(3.0)],
      Counts(1, 1, 0))
  }

  lemma MentionedObjects(mentions: seq<LinkMention>, maxLinks: int)
    ensures var input := Mentioned(mentions, maxLinks); var st := ObjectPhase(input);
      && st.objects == [] && st.accepted == [Accepted(input.cmds[0], "r")]
      && Rids(st.byKey) == map[ObjectKey("T", "a") := "r"]
  {
    var input := Mentioned(mentions, maxLinks);
    var env, cmd := input.env, input.cmds[0];
    var key := ObjectKey("T", "a");
    assert input.existing[..0] == [] && input.cmds[..0] == [];
    assert Known(input.existing[..0]) == map[];
    assert Known(input.existing) == Known(input.existing[..0])[key := input.existing[0]];
    assert Trim("a") == "a";
    assert Prepare(env.schema, cmd) == Ready(ObjType("id", "id", []), "a", key, []);
    var start := StartPhase(Known(input.existing));
    assert PlanObjects(env, input.counts, start, input.cmds[..0]) == start;
    assert ObjectPhase(input) == PlanStep(env, input.counts, start, cmd);
  }

  /** A batch that sets the weight of the only link of a workspace whose link cap is one. */
  function OneLink(): Input {
    Mentioned([LinkMention("L", "T", "a", Some(5.0))], 1)
  }

  lemma OneLinkPlan()
    ensures Plan(OneLink()).objects == [] && Plan(OneLink()).links == [PlannedLink(LOOP, Some(5.0), false, None, 1)]
  {
    var input := OneLink();
    var cmd, rids := input.cmds[0], map[ObjectKey("T", "a") := "r"];
    MentionedObjects(cmd.links, 1);
    var m := Mention(1, "T", "r", cmd.links[0]);
    assert MentionsOf(Accepted(cmd, "r")) == [m];
    assert Resolve(input.env.schema, rids, m) == Target(LOOP);
    assert LOOP in input.existingLinks && input.existingLinks[LOOP] == Some(3.0) && m.link.weight == Some(5.0);
    hide ObjectPhase, SortByRow, Resolve, MentionsOf, OneLink, Mentioned;
    PhasesOf(input, Accepted(cmd, "r"), rids);
    OneMention(input.env, input.counts, rids, input.existingLinks, m, LOOP);
  }

  lemma PhasesOf(input: Input, a: Accepted, rids: map<ObjectKey, Rid>)
    requires ObjectPhase(input).objects == [] && ObjectPhase(input).accepted == [a] && Rids(ObjectPhase(input).byKey) == rids
    ensures Plan(input).objects == []
    ensures Plan(input).links == PlanLinks(input.env, input.counts, rids, input.existingLinks, NO_LINKS, MentionsOf(a)).links
  {
    hide ObjectPhase, SortByRow, PlanLinks, MentionsOf, Rids;
    assert [a][..0] == [];
    assert Mentions([a]) == [] + MentionsOf(a) == MentionsOf(a);
  }

  /** A stored link that is mentioned once with another weight is planned without an ordinal. */
  lemma OneMention(env: Env, counts: Counts, rids: map<ObjectKey, Rid>, stored: map<LinkKey, Option<real>>, m: Mention, k: LinkKey)
    requires Resolve(env.schema, rids, m) == Target(k) && k in stored && stored[k] != m.link.weight
    ensures var st := PlanLinks(env, counts, rids, stored, NO_LINKS, [m]);
      st.links == [PlannedLink(k, m.link.weight, false, None, m.row)] && st.index == map[k := 0]
  {
    hide Resolve;
    assert [m][..0] == [];
    assert PlanLinks(env, counts, rids, stored, NO_LINKS, [m]) == LinkStep(env, counts, rids, stored, NO_LINKS, m);
  }

  /** A planned link without an ordinal comes back whatever the cap. */
  lemma LinkComesBack(rids: set<Rid>, cap: int, links: map<LinkKey, Option<real>>, l: PlannedLink)
    requires l.newOrdinal.None? && EndsIn(rids, l) && l.key !in links
    ensures |CommitLinks(rids, cap, links, [l]).links| == |links| + 1
  {
    assert [l][..0] == [];
    assert CommitLinksFrom(rids, |links|, cap, links, [l]) == CommitLink(rids, |links|, cap, LinkCommit(links, {}), l);
    LinkAdds(rids, |links|, cap, LinkCommit(links, {}), l);
  }

  /**
   * So can the link cap: while the batch was planned its link was removed and another one took
   * the last place; the commit brings the first one back.
   */
  lemma LinkCapMayBeExceeded(hash: Props -> string)
    ensures var rows, links := map["r" := Row("T", "a", "h", 1, 0)], map[LinkKey("r", "M", "r") := None];
      var plan, cap := Plan(OneLink()), OneLink().env.maxLinks;
      var rids := CommitObjects(hash, OneLink().env.maxObjects, 1, rows, plan.objects).rows.Keys;
      |links| == cap && |CommitLinks(rids, cap, links, plan.links).links| == cap + 1
  {
    OneLinkPlan();
    var rows := map["r" := Row("T", "a", "h", 1, 0)];
    var rids := CommitObjects(hash, OneLink().env.maxObjects, 1, rows, []).rows.Keys;
    assert "r" in rids;
    var links: map<LinkKey, Option<real>> := map[LinkKey("r", "M", "r") := None];
    hide Plan, CommitObjects;
    LinkComesBack(rids, 1, links, PlannedLink(LOOP, Some(5.0), false, None, 1));
  }

  lemma {:induction false} LinksJoinObjects(rids: set<Rid>, count: nat, cap: int,
                                            links: map<LinkKey, Option<real>>, planned: seq<PlannedLink>)
    requires forall k :: k in links ==> k.src in rids && k.dst in rids
    ensures forall k :: k in CommitLinksFrom(rids, count, cap, links, planned).links ==> k.src in rids && k.dst in rids
  {
    if planned == [] {
    } else {
      LinksJoinObjects(rids, count, cap, links, planned[..|planned| - 1]);
    }
  }

  // --- Reconciliation with what was written -----------------------------------------------------

  function SumRows(objects: seq<PlannedObject>, written: set<Rid>): nat {
    if objects == [] then 0
    else
      var o := objects[|objects| - 1];
      SumRows(objects[..|objects| - 1], written) + if o.rid in written then |o.rows| else 0
  }

  function AllRows(objects: seq<PlannedObject>): nat {
    if objects == [] then 0 else AllRows(objects[..|objects| - 1]) + |objects[|objects| - 1].rows|
  }

  /** Rows of existing objects whose planned write turned out to change nothing. */
  function IdleRows(objects: seq<PlannedObject>, written: set<Rid>): nat {
    if objects == [] then 0
    else
      var o := objects[|objects| - 1];
      IdleRows(objects[..|objects| - 1], written) + if o.rid !in written && !o.isNew then |o.rows| else 0
  }

  function LimitRejects(rows: seq<int>): seq<Reject> {
    seq(|rows|, i requires 0 <= i < |rows| => Reject(rows[i], ObjectLimit, ""))
  }

  /** One reject per row of each new object that did not fit. */
  function LostObjects(objects: seq<PlannedObject>, written: set<Rid>): seq<Reject> {
    if objects == [] then []
    else
      var o := objects[|objects| - 1];
      LostObjects(objects[..|objects| - 1], written) + if o.rid !in written && o.isNew then LimitRejects(o.rows) else []
  }

  function LostLinks(links: seq<PlannedLink>, written: set<LinkKey>): seq<Reject> {
    if links == [] then []
    else
      var l := links[|links| - 1];
      LostLinks(links[..|links| - 1], written)
      + if l.isNew && l.key !in written then [Reject(l.row, LinkLimit, l.key.linkType)] else []
  }

  /** The rejections of reconciling: one for each new link that was not written, */
  lemma {:induction false} LostLinksExactly(links: seq<PlannedLink>, keys: set<LinkKey>, r: Reject)
    ensures r in LostLinks(links, keys) <==>
      exists i :: 0 <= i < |links| && links[i].isNew && links[i].key !in keys && r == Reject(links[i].row, LinkLimit, links[i].key.linkType)
  {
    if links != [] {
      var n := |links| - 1;
      LostLinksExactly(links[..n], keys, r);
      assert forall i :: 0 <= i < n ==> links[..n][i] == links[i];
    }
  }

  /** and one for each row of a new object that was not written. */
  lemma {:induction false} LostObjectsExactly(objects: seq<PlannedObject>, ids: set<Rid>, r: Reject)
    ensures r in LostObjects(objects, ids) <==>
      exists i :: 0 <= i < |objects| && objects[i].isNew && objects[i].rid !in ids && r.row in objects[i].rows
        && r == Reject(r.row, ObjectLimit, "")
  {
    if objects != [] {
      var n := |objects| - 1;
      LostObjectsExactly(objects[..n], ids, r);
      assert forall i :: 0 <= i < n ==> objects[..n][i] == objects[i];
      var rows := objects[n].rows;
      if r.row in rows {
        var j :| 0 <= j < |rows| && rows[j] == r.row;
        assert LimitRejects(rows)[j] == Reject(r.row, ObjectLimit, "");
      }
    }
  }

  datatype WriteResult = WriteResult(upserted: int, skipped: int, linksWritten: nat, rejected: seq<Reject>)

  /** What one more object adds to the sums and to the rejections. */
  lemma ObjectRows(objects: seq<PlannedObject>, i: nat, written: set<Rid>)
    requires i < |objects|
    ensures var o, a, b := objects[i], objects[..i], objects[..i + 1];
      && AllRows(b) == AllRows(a) + |o.rows|
      && SumRows(b, written) == SumRows(a, written) + (if o.rid in written then |o.rows| else 0)
      && IdleRows(b, written) == IdleRows(a, written) + (if o.rid !in written && !o.isNew then |o.rows| else 0)
      && LostObjects(b, written) == LostObjects(a, written) + (if o.rid !in written && o.isNew then LimitRejects(o.rows) else [])
  {
    PrefixSnoc(objects, i);
    hide LimitRejects;
  }

  /** Puts the rows of every object that was not written where they belong. */
  method ReconcileObjects(plan: UpsertPlan, objects: set<Rid>)
    returns (upserted: int, skipped: int, rejected: seq<Reject>)
    ensures upserted == plan.upserted - AllRows(plan.objects) + SumRows(plan.objects, objects)
    ensures skipped == plan.skipped + IdleRows(plan.objects, objects)
    ensures rejected == plan.rejected + LostObjects(plan.objects, objects)
  {
    upserted, skipped, rejected := plan.upserted, plan.skipped, plan.rejected;
    assert ReconciledAt(plan, objects, 0, upserted, skipped, rejected);
    hide ReconciledAt, LimitRejects;
    for i := 0 to |plan.objects|
      invariant ReconciledAt(plan, objects, i, upserted, skipped, rejected)
    {
      ReconcileOne(plan, objects, i, upserted, skipped, rejected);
      var o := plan.objects[i];
      if o.rid in objects {
        continue;
      }
      upserted := upserted - |o.rows|;
      if o.isNew {
        rejected := RejectRows(rejected, o.rows);
      } else {
        skipped := skipped + |o.rows|;
      }
    }
    ReconcileEnd(plan, objects, upserted, skipped, rejected);
  }

  /** The result after comparing the first `i` planned objects. */
  ghost predicate ReconciledAt(plan: UpsertPlan, objects: set<Rid>, i: nat, upserted: int, skipped: int, rejected: seq<Reject>) {
    && i <= |plan.objects|
    && upserted == plan.upserted - AllRows(plan.objects[..i]) + SumRows(plan.objects[..i], objects)
    && skipped == plan.skipped + IdleRows(plan.objects[..i], objects)
    && rejected == plan.rejected + LostObjects(plan.objects[..i], objects)
  }

  lemma ReconcileOne(plan: UpsertPlan, objects: set<Rid>, i: nat, upserted: int, skipped: int, rejected: seq<Reject>)
    requires i < |plan.objects| && ReconciledAt(plan, objects, i, upserted, skipped, rejected)
    ensures var o := plan.objects[i];
      ReconciledAt(plan, objects, i + 1,
        if o.rid in objects then upserted else upserted - |o.rows|,
        if o.rid !in objects && !o.isNew then skipped + |o.rows| else skipped,
        if o.rid !in objects && o.isNew then rejected + LimitRejects(o.rows) else rejected)
  {
    ObjectRows(plan.objects, i, objects);
    hide AllRows, SumRows, IdleRows, LostObjects, LimitRejects;
    var o, lost := plan.objects[i], LostObjects(plan.objects[..i], objects);
    assert plan.rejected + lost + LimitRejects(o.rows) == plan.rejected + (lost + LimitRejects(o.rows));
    assert lost + [] == lost;
  }

  lemma ReconcileEnd(plan: UpsertPlan, objects: set<Rid>, upserted: int, skipped: int, rejected: seq<Reject>)
    requires ReconciledAt(plan, objects, |plan.objects|, upserted, skipped, rejected)
    ensures upserted == plan.upserted - AllRows(plan.objects) + SumRows(plan.objects, objects)
    ensures skipped == plan.skipped + IdleRows(plan.objects, objects)
    ensures rejected == plan.rejected + LostObjects(plan.objects, objects)
  {
    assert plan.objects[..|plan.objects|] == plan.objects;
  }

  method RejectRows(before: seq<Reject>, rows: seq<int>) returns (rejected: seq<Reject>)
    ensures rejected == before + LimitRejects(rows)
  {
    rejected := before;
    for j := 0 to |rows|
      invariant rejected == before + LimitRejects(rows)[..j]
    {
      rejected := rejected + [Reject(rows[j], ObjectLimit, "")];
    }
  }

  method Reconcile(plan: UpsertPlan, objects: set<Rid>, links: set<LinkKey>) returns (r: WriteResult)
    ensures r.upserted == plan.upserted - AllRows(plan.objects) + SumRows(plan.objects, objects)
    ensures r.skipped == plan.skipped + IdleRows(plan.objects, objects)
    ensures r.linksWritten == |links|
    ensures r.rejected == SortByRow(plan.rejected + LostObjects(plan.objects, objects) + LostLinks(plan.links, links))
  {
    var upserted, skipped, rejected := ReconcileObjects(plan, objects);
    ghost var objectRejects := rejected;
    for i := 0 to |plan.links|
      invariant rejected == objectRejects + LostLinks(plan.links[..i], links)
    {
      PrefixSnoc(plan.links, i);
      var l := plan.links[i];
      if l.isNew && l.key !in links {
        rejected := rejected + [Reject(l.row, LinkLimit, l.key.linkType)];
      }
    }
    assert plan.links[..|plan.links|] == plan.links;
    r := WriteResult(upserted, skipped, |links|, SortByRow(rejected));
  }

  /** The rows that wrote the objects filed under `keys`. */
  lemma {:induction false} RowsPartition(cmds: seq<Cmd>, outs: seq<Outcome>, objects: seq<PlannedObject>)
    requires |cmds| == |outs| && DistinctKeys(objects)
    requires forall i :: 0 <= i < |objects| ==> objects[i].rows == RowsOf(cmds, outs, KeyOf(objects[i]))
    requires forall i :: 0 <= i < |outs| && outs[i].Wrote? ==>
      exists j :: 0 <= j < |objects| && KeyOf(objects[j]) == outs[i].key
    ensures AllRows(objects) == Writes(outs)
  {
    SumOfRows(cmds, outs, objects);
    WritesCovered(outs, objects);
  }

  /** The outcomes that wrote one of the planned objects. */
  function WritesTo(outs: seq<Outcome>, objects: seq<PlannedObject>): nat {
    if outs == [] then 0
    else
      var out := outs[|outs| - 1];
      WritesTo(outs[..|outs| - 1], objects)
      + if out.Wrote? && (exists j :: 0 <= j < |objects| && KeyOf(objects[j]) == out.key) then 1 else 0
  }

  lemma {:induction false} WritesCovered(outs: seq<Outcome>, objects: seq<PlannedObject>)
    requires forall i :: 0 <= i < |outs| && outs[i].Wrote? ==>
      exists j :: 0 <= j < |objects| && KeyOf(objects[j]) == outs[i].key
    ensures WritesTo(outs, objects) == Writes(outs)
  {
    if outs == [] {
    } else {
      WritesCovered(outs[..|outs| - 1], objects);
    }
  }

  lemma {:induction false} RowsOfCount(cmds: seq<Cmd>, outs: seq<Outcome>, o: PlannedObject)
    requires |cmds| == |outs|
    ensures |RowsOf(cmds, outs, KeyOf(o))| == WritesTo(outs, [o])
  {
    if outs == [] {
    } else {
      RowsOfCount(cmds[..|outs| - 1], outs[..|outs| - 1], o);
      assert KeyOf([o][0]) == KeyOf(o);
    }
  }

  lemma {:induction false} WritesToSnoc(outs: seq<Outcome>, objects: seq<PlannedObject>, o: PlannedObject)
    requires DistinctKeys(objects + [o])
    ensures WritesTo(outs, objects + [o]) == WritesTo(outs, objects) + WritesTo(outs, [o])
  {
    if outs == [] {
    } else {
      WritesToSnoc(outs[..|outs| - 1], objects, o);
      var out := outs[|outs| - 1];
      var all := objects + [o];
      if out.Wrote? {
        assert KeyOf(all[|objects|]) == KeyOf(o) && KeyOf([o][0]) == KeyOf(o);
        if j :| 0 <= j < |objects| && KeyOf(objects[j]) == out.key {
          assert KeyOf(all[j]) == out.key;
          assert KeyOf(all[j]) != KeyOf(all[|objects|]);
        }
      }
    }
  }

  lemma {:induction false} NothingWritesTo(outs: seq<Outcome>)
    ensures WritesTo(outs, []) == 0
  {
    if outs == [] {
    } else {
      NothingWritesTo(outs[..|outs| - 1]);
    }
  }

  lemma {:induction false} SumOfRows(cmds: seq<Cmd>, outs: seq<Outcome>, objects: seq<PlannedObject>)
    requires |cmds| == |outs| && DistinctKeys(objects)
    requires forall i :: 0 <= i < |objects| ==> objects[i].rows == RowsOf(cmds, outs, KeyOf(objects[i]))
    ensures AllRows(objects) == WritesTo(outs, objects)
  {
    if objects == [] {
      NothingWritesTo(outs);
    } else {
      var n := |objects| - 1;
      SumOfRows(cmds, outs, objects[..n]);
      RowsOfCount(cmds, outs, objects[n]);
      assert objects[..n] + [objects[n]] == objects;
      WritesToSnoc(outs, objects[..n], objects[n]);
    }
  }

  lemma {:induction false} RowsSplit(objects: seq<PlannedObject>, written: set<Rid>)
    ensures AllRows(objects) == SumRows(objects, written) + IdleRows(objects, written) + |LostObjects(objects, written)|
  {
    if objects == [] {
    } else {
      RowsSplit(objects[..|objects| - 1], written);
    }
  }

  /**
   * After reconciliation every command is still accounted for once: what is reported as
   * upserted is exactly the rows of the objects written, and upserted, skipped and rejected
   * rows of the object phase add up to the batch.
   */
  lemma ReconciledRowsAddUp(input: Input, written: set<Rid>)
    ensures var plan, st := Plan(input), ObjectPhase(input);
      && plan.upserted == AllRows(plan.objects)
      && SumRows(plan.objects, written) + (plan.skipped + IdleRows(plan.objects, written))
         + |st.rejected| + |LostObjects(plan.objects, written)| == |input.cmds|
  {
    OutcomesOf(input);
    OneOutcomeEach(input);
    KnownKeys(input.existing);
    MirrorAll(input.env, input.counts, StoreOf(input), input.cmds);
    var st := ObjectPhase(input);
    var (end, outs) := UpsertAll(input.env, StoreOf(input), input.cmds);
    ApplyMirrored(StoreOf(input), st.byKey, st.objects, st.newObjects, end);
    forall i | 0 <= i < |outs| && outs[i].Wrote? ensures exists j :: 0 <= j < |st.objects| && KeyOf(st.objects[j]) == outs[i].key {
      WroteHasRow(input.cmds, outs, i);
    }
    RowsPartition(input.cmds, outs, st.objects);
    RowsSplit(st.objects, written);
  }

  lemma {:induction false} WroteHasRow(cmds: seq<Cmd>, outs: seq<Outcome>, i: nat)
    requires |cmds| == |outs| && i < |outs| && outs[i].Wrote?
    ensures RowsOf(cmds, outs, outs[i].key) != []
  {
    if i < |outs| - 1 {
      WroteHasRow(cmds[..|outs| - 1], outs[..|outs| - 1], i);
    }
  }
}
