/**
 * The reference for UpsertPlanner: a store that handles one command, and one link, at a
 * time. Writing a plan to the store it was made for gives exactly what feeding the
 * commands one by one gives, so batches may be cut anywhere and replayed safely.
 */
module UpsertStore {
  import opened Common
  import opened MergeProps
  import opened UpsertPlanner

  /** The objects of a workspace by key, their number, and the identifiers handed out. */
  datatype Store = Store(objects: map<ObjectKey, Obj>, total: nat, created: nat)

  datatype Outcome =
    | Wrote(key: ObjectKey, rid: Rid, changed: seq<string>)
    | Unchanged(key: ObjectKey, rid: Rid)
    | Denied(reject: Reject)

  /** A command for an object the store does not hold. */
  function UpsertNew(env: Env, s: Store, cmd: Cmd, p: Prepared): (Store, Outcome)
    requires p.Ready?
  {
    var merged := Merged(EMPTY_STATE, p.props, Source(env, cmd));
    var missing := Missing(p.objType.properties, merged.state.props);
    if missing != [] then (s, Denied(Reject(cmd.row, Invalid, JoinComma(missing))))
    else if s.total + 1 > env.maxObjects then (s, Denied(Reject(cmd.row, ObjectLimit, "")))
    else
      var rid := env.newRid(cmd.objType, s.created);
      var title := TitleOf(env.schema, p.objType, merged.state.props, p.primaryKey);
      (Store(s.objects[p.key := Obj(rid, cmd.objType, p.primaryKey, title, merged.state)],
             s.total + 1, s.created + 1),
       Wrote(p.key, rid, merged.changed))
  }

  /** One command on the store. */
  function UpsertOne(env: Env, s: Store, cmd: Cmd): (Store, Outcome) {
    var p := Prepare(env.schema, cmd);
    if p.Refused? then (s, Denied(p.reject))
    else if p.key in s.objects then
      var o := s.objects[p.key];
      var merged := Merged(o.state, p.props, Source(env, cmd));
      if merged.changed == [] then (s, Unchanged(p.key, o.rid))
      else
        var title := TitleOf(env.schema, p.objType, merged.state.props, o.primaryKey);
        (s.(objects := s.objects[p.key := o.(state := merged.state, title := title)]),
         Wrote(p.key, o.rid, merged.changed))
    else UpsertNew(env, s, cmd, p)
  }

  function UpsertAll(env: Env, s: Store, cmds: seq<Cmd>): (Store, seq<Outcome>) {
    if cmds == [] then (s, [])
    else
      var n := |cmds| - 1;
      var (s1, outs) := UpsertAll(env, s, cmds[..n]);
      var (s2, out) := UpsertOne(env, s1, cmds[n]);
      (s2, outs + [out])
  }

  function StoreOf(input: Input): Store {
    Store(Known(input.existing), input.counts.objects, input.counts.created)
  }

  // --- Writing a plan to the store ------------------------------------------------

  function Written(o: PlannedObject): Obj {
    Obj(o.rid, o.objType, o.primaryKey, o.title, o.state)
  }

  function KeyOf(o: PlannedObject): ObjectKey {
    ObjectKey(o.objType, o.primaryKey)
  }

  function ApplyObjects(s: Store, objects: seq<PlannedObject>): Store {
    if objects == [] then s
    else
      var o := objects[|objects| - 1];
      var s1 := ApplyObjects(s, objects[..|objects| - 1]);
      var n := if o.isNew then 1 else 0;
      Store(s1.objects[KeyOf(o) := Written(o)], s1.total + n, s1.created + n)
  }

  /** The ordinals of the new objects, in plan order. */
  function NewOrdinals(objects: seq<PlannedObject>): seq<nat> {
    if objects == [] then []
    else
      NewOrdinals(objects[..|objects| - 1])
      + if objects[|objects| - 1].newOrdinal.Some? then [objects[|objects| - 1].newOrdinal.value] else []
  }

  function OneTo(n: nat): seq<nat> {
    seq(n, i => i + 1)
  }

  // --- The working map mirrors the store ---------------------------------------------

  ghost predicate EntryMirrors(start: Store, w: Working, objects: seq<PlannedObject>, o: Obj, k: ObjectKey) {
    && w.rid == o.rid && w.objType == o.objType && w.primaryKey == o.primaryKey && w.state == o.state
    && k == ObjectKey(w.objType, w.primaryKey)
    && w.isNew == (k !in start.objects)
    && (w.planned.None? ==> !w.isNew && o == start.objects[k])
    && (w.planned.Some? ==>
          && w.planned.value < |objects|
          && Written(objects[w.planned.value]) == o
          && objects[w.planned.value].isNew == w.isNew)
  }

  ghost predicate PlanMirrors(byKey: map<ObjectKey, Working>, objects: seq<PlannedObject>, i: nat)
    requires i < |objects|
  {
    var k := KeyOf(objects[i]);
    && k in byKey
    && byKey[k].planned == Some(i)
    && objects[i].isNew == objects[i].newOrdinal.Some?
  }

  /** The working map holds what the store holds, and the planned list what was written. */
  ghost predicate Mirrors(start: Store, byKey: map<ObjectKey, Working>, objects: seq<PlannedObject>,
                          newObjects: nat, s: Store) {
    && byKey.Keys == s.objects.Keys
    && start.objects.Keys <= s.objects.Keys
    && (forall k :: k in byKey ==> EntryMirrors(start, byKey[k], objects, s.objects[k], k))
    && (forall i :: 0 <= i < |objects| ==> PlanMirrors(byKey, objects, i))
    && s.total == start.total + newObjects
    && s.created == start.created + newObjects
    && NewOrdinals(objects) == OneTo(newObjects)
  }

  ghost predicate KeysFit(objects: map<ObjectKey, Obj>) {
    forall k :: k in objects ==> k == ObjectKey(objects[k].objType, objects[k].primaryKey)
  }

  lemma {:induction false} KnownKeys(existing: seq<Obj>)
    ensures KeysFit(Known(existing))
  {
    if existing == [] {
    } else {
      KnownKeys(existing[..|existing| - 1]);
    }
  }

  lemma OrdinalsUpdate(objects: seq<PlannedObject>, i: nat, o: PlannedObject)
    requires i < |objects| && o.newOrdinal == objects[i].newOrdinal
    ensures NewOrdinals(objects[i := o]) == NewOrdinals(objects)
  {
    var n := |objects| - 1;
    if i < n {
      OrdinalsUpdate(objects[..n], i, o);
      assert objects[i := o][..n] == objects[..n][i := o];
    } else {
      assert objects[i := o][..n] == objects[..n];
    }
  }

  lemma OrdinalsSnoc(objects: seq<PlannedObject>, o: PlannedObject)
    ensures NewOrdinals(objects + [o]) == NewOrdinals(objects) + if o.newOrdinal.Some? then [o.newOrdinal.value] else []
  {
    assert (objects + [o])[..|objects|] == objects;
  }

  /** A further change of an object that already has a planned write. */
  lemma MirrorRewrite(start: Store, byKey: map<ObjectKey, Working>, objects: seq<PlannedObject>, newObjects: nat,
                      s: Store, k: ObjectKey, after: PlannedObject)
    requires Mirrors(start, byKey, objects, newObjects, s)
    requires k in byKey && byKey[k].planned.Some?
    requires var before := objects[byKey[k].planned.value];
      after.rid == before.rid && after.objType == before.objType && after.primaryKey == before.primaryKey
      && after.isNew == before.isNew && after.newOrdinal == before.newOrdinal
    ensures Mirrors(start, byKey[k := byKey[k].(state := after.state)], objects[byKey[k].planned.value := after],
                    newObjects, s.(objects := s.objects[k := Written(after)]))
  {
    hide NewOrdinals;
    var at := byKey[k].planned.value;
    assert EntryMirrors(start, byKey[k], objects, s.objects[k], k);
    OrdinalsUpdate(objects, at, after);
    var byKey', objects' := byKey[k := byKey[k].(state := after.state)], objects[at := after];
    var s' := s.(objects := s.objects[k := Written(after)]);
    forall x | x in byKey' ensures EntryMirrors(start, byKey'[x], objects', s'.objects[x], x) {
      assert EntryMirrors(start, byKey[x], objects, s.objects[x], x);
    }
    forall i | 0 <= i < |objects'| ensures PlanMirrors(byKey', objects', i) {
      assert PlanMirrors(byKey, objects, i);
    }
  }

  /** The first planned write of an object, stored before or created now. */
  lemma MirrorAppend(start: Store, byKey: map<ObjectKey, Working>, objects: seq<PlannedObject>, newObjects: nat,
                     s: Store, k: ObjectKey, w: Working, after: PlannedObject)
    requires Mirrors(start, byKey, objects, newObjects, s)
    requires k in byKey ==> byKey[k].planned.None?
    requires k == KeyOf(after) && w.planned == Some(|objects|)
    requires w.rid == after.rid && w.objType == after.objType && w.primaryKey == after.primaryKey
      && w.state == after.state && w.isNew == after.isNew == (k !in byKey)
    requires after.newOrdinal == if after.isNew then Some(newObjects + 1) else None
    ensures var n := if after.isNew then 1 else 0;
      Mirrors(start, byKey[k := w], objects + [after], newObjects + n,
              Store(s.objects[k := Written(after)], s.total + n, s.created + n))
  {
    OrdinalsSnoc(objects, after);
    hide NewOrdinals;
    var n := if after.isNew then 1 else 0;
    var byKey', objects' := byKey[k := w], objects + [after];
    var s' := Store(s.objects[k := Written(after)], s.total + n, s.created + n);
    if k in byKey {
      assert EntryMirrors(start, byKey[k], objects, s.objects[k], k);
    }
    forall x | x in byKey' ensures EntryMirrors(start, byKey'[x], objects', s'.objects[x], x) {
      if x != k {
        assert EntryMirrors(start, byKey[x], objects, s.objects[x], x);
      }
    }
    forall i | 0 <= i < |objects'| ensures PlanMirrors(byKey', objects', i) {
      if i < |objects| {
        assert PlanMirrors(byKey, objects, i);
      }
    }
  }

  ghost predicate PhaseMirrors(start: Store, st: Phase, s: Store) {
    Mirrors(start, st.byKey, st.objects, st.newObjects, s)
  }

  lemma MirrorAccept(env: Env, start: Store, st: Phase, s: Store, cmd: Cmd, p: Prepared, merged: MergeOutcome)
    requires PhaseMirrors(start, st, s) && PlannedInRange(st)
    requires p.Ready? && p.key in st.byKey && merged.changed != []
    ensures var o := s.objects[p.key];
      var title := TitleOf(env.schema, p.objType, merged.state.props, o.primaryKey);
      PhaseMirrors(start, Accept(env, st, cmd, p, st.byKey[p.key], merged),
                   s.(objects := s.objects[p.key := o.(state := merged.state, title := title)]))
  {
    var w, o := st.byKey[p.key], s.objects[p.key];
    assert EntryMirrors(start, w, st.objects, o, p.key);
    var st' := Accept(env, st, cmd, p, w, merged);
    if w.planned.Some? {
      var at := w.planned.value;
      MirrorRewrite(start, st.byKey, st.objects, st.newObjects, s, p.key, st'.objects[at]);
      assert st'.byKey == st.byKey[p.key := w.(state := merged.state)];
    } else {
      MirrorAppend(start, st.byKey, st.objects, st.newObjects, s, p.key, st'.byKey[p.key], st'.objects[|st.objects|]);
    }
  }

  lemma MirrorCreate(env: Env, start: Store, st: Phase, s: Store, cmd: Cmd, p: Prepared, rid: Rid, merged: MergeOutcome)
    requires PhaseMirrors(start, st, s)
    requires p.Ready? && p.key !in st.byKey && p.key == ObjectKey(cmd.objType, p.primaryKey)
    ensures var w := Working(rid, cmd.objType, p.primaryKey, EMPTY_STATE, true, None);
      var o := Obj(rid, cmd.objType, p.primaryKey,
                   TitleOf(env.schema, p.objType, merged.state.props, p.primaryKey), merged.state);
      PhaseMirrors(start, Accept(env, st.(newObjects := st.newObjects + 1), cmd, p, w, merged),
                   Store(s.objects[p.key := o], s.total + 1, s.created + 1))
  {
    var w := Working(rid, cmd.objType, p.primaryKey, EMPTY_STATE, true, None);
    var st' := Accept(env, st.(newObjects := st.newObjects + 1), cmd, p, w, merged);
    MirrorAppend(start, st.byKey, st.objects, st.newObjects, s, p.key, st'.byKey[p.key], st'.objects[|st.objects|]);
  }

  lemma MirrorKnown(env: Env, counts: Counts, start: Store, st: Phase, s: Store, cmd: Cmd)
    requires PhaseMirrors(start, st, s) && PlannedInRange(st)
    requires Prepare(env.schema, cmd).Ready? && Prepare(env.schema, cmd).key in st.byKey
    ensures PhaseMirrors(start, PlanStep(env, counts, st, cmd), UpsertOne(env, s, cmd).0)
  {
    var p := Prepare(env.schema, cmd);
    var w := st.byKey[p.key];
    assert EntryMirrors(start, w, st.objects, s.objects[p.key], p.key);
    hide Mirrors, Prepare, Merged, PlannedInRange;
    var merged := Merged(w.state, p.props, Source(env, cmd));
    var st' := PlanStep(env, counts, st, cmd);
    if merged.changed != [] {
      MirrorAccept(env, start, st, s, cmd, p, merged);
    } else {
      assert st'.byKey == st.byKey && st'.objects == st.objects && st'.newObjects == st.newObjects;
    }
  }

  lemma MirrorNew(env: Env, counts: Counts, start: Store, st: Phase, s: Store, cmd: Cmd, p: Prepared)
    requires PhaseMirrors(start, st, s) && start.total == counts.objects && start.created == counts.created
    requires p.Ready? && p.key !in st.byKey && p.key == ObjectKey(cmd.objType, p.primaryKey)
    ensures PhaseMirrors(start, PlanNew(env, counts, st, cmd, p), UpsertNew(env, s, cmd, p).0)
  {
    hide TitleOf, Missing, Source, Merged;
    assert s.total == start.total + st.newObjects && s.created == start.created + st.newObjects;
    hide Mirrors, Accept;
    MirrorCreate(env, start, st, s, cmd, p, env.newRid(cmd.objType, s.created), Merged(EMPTY_STATE, p.props, Source(env, cmd)));
  }

  lemma MirrorUnknown(env: Env, counts: Counts, start: Store, st: Phase, s: Store, cmd: Cmd)
    requires PhaseMirrors(start, st, s) && PlannedInRange(st)
    requires start.total == counts.objects && start.created == counts.created
    requires Prepare(env.schema, cmd).Ready? && Prepare(env.schema, cmd).key !in st.byKey
    ensures PhaseMirrors(start, PlanStep(env, counts, st, cmd), UpsertOne(env, s, cmd).0)
  {
    var p := Prepare(env.schema, cmd);
    assert st.byKey.Keys == s.objects.Keys && p.key == ObjectKey(cmd.objType, p.primaryKey);
    hide Prepare, PlanNew, UpsertNew, PhaseMirrors, PlannedInRange;
    MirrorNew(env, counts, start, st, s, cmd, p);
  }

  lemma MirrorStep(env: Env, counts: Counts, start: Store, st: Phase, s: Store, cmd: Cmd)
    requires PhaseMirrors(start, st, s) && PlannedInRange(st)
    requires start.total == counts.objects && start.created == counts.created
    ensures PhaseMirrors(start, PlanStep(env, counts, st, cmd), UpsertOne(env, s, cmd).0)
  {
    var p := Prepare(env.schema, cmd);
    if p.Refused? {
      assert PlanStep(env, counts, st, cmd) == st.(rejected := st.rejected + [p.reject]);
    } else if p.key in st.byKey {
      MirrorKnown(env, counts, start, st, s, cmd);
    } else {
      MirrorUnknown(env, counts, start, st, s, cmd);
    }
  }

  lemma {:induction false} MirrorAll(env: Env, counts: Counts, start: Store, cmds: seq<Cmd>)
    requires KeysFit(start.objects)
    requires start.total == counts.objects && start.created == counts.created
    ensures PhaseMirrors(start, PlanObjects(env, counts, StartPhase(start.objects), cmds), UpsertAll(env, start, cmds).0)
  {
    if cmds == [] {
    } else {
      var n := |cmds| - 1;
      MirrorAll(env, counts, start, cmds[..n]);
      MirrorStep(env, counts, start, PlanObjects(env, counts, StartPhase(start.objects), cmds[..n]),
                 UpsertAll(env, start, cmds[..n]).0, cmds[n]);
    }
  }

  // --- Writing the plan gives the store's result ------------------------------------

  ghost predicate DistinctKeys(objects: seq<PlannedObject>) {
    forall i, j :: 0 <= i < j < |objects| ==> KeyOf(objects[i]) != KeyOf(objects[j])
  }

  lemma {:induction false} ApplyAt(start: Store, objects: seq<PlannedObject>, i: nat)
    requires i < |objects| && DistinctKeys(objects)
    ensures KeyOf(objects[i]) in ApplyObjects(start, objects).objects
    ensures ApplyObjects(start, objects).objects[KeyOf(objects[i])] == Written(objects[i])
  {
    var n := |objects| - 1;
    if i < n {
      ApplyAt(start, objects[..n], i);
      assert KeyOf(objects[n]) != KeyOf(objects[i]);
    }
  }

  lemma {:induction false} ApplyElsewhere(start: Store, objects: seq<PlannedObject>, k: ObjectKey)
    requires forall i :: 0 <= i < |objects| ==> KeyOf(objects[i]) != k
    ensures var r := ApplyObjects(start, objects).objects;
      (k in r <==> k in start.objects) && (k in start.objects ==> r[k] == start.objects[k])
  {
    if objects == [] {
    } else {
      ApplyElsewhere(start, objects[..|objects| - 1], k);
    }
  }

  lemma {:induction false} ApplyTotals(start: Store, objects: seq<PlannedObject>)
    requires forall i :: 0 <= i < |objects| ==> objects[i].isNew == objects[i].newOrdinal.Some?
    ensures ApplyObjects(start, objects).total == start.total + |NewOrdinals(objects)|
    ensures ApplyObjects(start, objects).created == start.created + |NewOrdinals(objects)|
  {
    if objects == [] {
    } else {
      ApplyTotals(start, objects[..|objects| - 1]);
    }
  }

  lemma ApplyMirroredAt(start: Store, byKey: map<ObjectKey, Working>, objects: seq<PlannedObject>, newObjects: nat,
                        s: Store, k: ObjectKey)
    requires Mirrors(start, byKey, objects, newObjects, s) && DistinctKeys(objects)
    ensures var r := ApplyObjects(start, objects).objects;
      (k in r <==> k in s.objects) && (k in s.objects ==> r[k] == s.objects[k])
  {
    if k in byKey && byKey[k].planned.Some? {
      assert EntryMirrors(start, byKey[k], objects, s.objects[k], k);
      ApplyAt(start, objects, byKey[k].planned.value);
    } else {
      forall i | 0 <= i < |objects| ensures KeyOf(objects[i]) != k {
        assert PlanMirrors(byKey, objects, i);
      }
      ApplyElsewhere(start, objects, k);
      if k in byKey {
        assert EntryMirrors(start, byKey[k], objects, s.objects[k], k);
      }
    }
  }

  lemma ApplyMirrored(start: Store, byKey: map<ObjectKey, Working>, objects: seq<PlannedObject>, newObjects: nat, s: Store)
    requires Mirrors(start, byKey, objects, newObjects, s)
    ensures DistinctKeys(objects)
    ensures ApplyObjects(start, objects) == s
  {
    forall i, j | 0 <= i < j < |objects| ensures KeyOf(objects[i]) != KeyOf(objects[j]) {
      assert PlanMirrors(byKey, objects, i) && PlanMirrors(byKey, objects, j);
    }
    forall i | 0 <= i < |objects| ensures objects[i].isNew == objects[i].newOrdinal.Some? {
      assert PlanMirrors(byKey, objects, i);
    }
    ApplyTotals(start, objects);
    var r := ApplyObjects(start, objects);
    forall k ensures (k in r.objects <==> k in s.objects) && (k in s.objects ==> r.objects[k] == s.objects[k]) {
      ApplyMirroredAt(start, byKey, objects, newObjects, s, k);
    }
    assert r.objects == s.objects;
  }

  /**
   * Writing the planned objects to the store gives exactly the store that the commands
   * give one by one; new objects carry the ordinals 1..n, and the total never passes the
   * larger of the starting total and the cap.
   */
  lemma PlanRefinesStore(input: Input)
    ensures var start := StoreOf(input);
      var plan, end := Plan(input), UpsertAll(input.env, start, input.cmds).0;
      && ApplyObjects(start, plan.objects) == end
      && start.total <= end.total <= Max(start.total, input.env.maxObjects)
      && NewOrdinals(plan.objects) == OneTo(end.total - start.total)
  {
    var start := StoreOf(input);
    KnownKeys(input.existing);
    MirrorAll(input.env, input.counts, start, input.cmds);
    var st, end := ObjectPhase(input), UpsertAll(input.env, start, input.cmds).0;
    ApplyMirrored(start, st.byKey, st.objects, st.newObjects, end);
    TotalCapped(input.env, start, input.cmds);
  }

  lemma {:induction false} TotalCapped(env: Env, s: Store, cmds: seq<Cmd>)
    ensures s.total <= UpsertAll(env, s, cmds).0.total <= Max(s.total, env.maxObjects)
  {
    if cmds == [] {
    } else {
      TotalCapped(env, s, cmds[..|cmds| - 1]);
    }
  }

  // --- Outcomes ------------------------------------------------------------------------

  function Writes(outs: seq<Outcome>): nat {
    if outs == [] then 0 else Writes(outs[..|outs| - 1]) + if outs[|outs| - 1].Wrote? then 1 else 0
  }

  function Skips(outs: seq<Outcome>): nat {
    if outs == [] then 0 else Skips(outs[..|outs| - 1]) + if outs[|outs| - 1].Unchanged? then 1 else 0
  }

  function Denials(outs: seq<Outcome>): seq<Reject> {
    if outs == [] then []
    else Denials(outs[..|outs| - 1]) + if outs[|outs| - 1].Denied? then [outs[|outs| - 1].reject] else []
  }

  /** The commands that were not denied, with the object each one belongs to. */
  function Taken(cmds: seq<Cmd>, outs: seq<Outcome>): seq<Accepted>
    requires |cmds| == |outs|
  {
    if outs == [] then []
    else
      var n := |outs| - 1;
      Taken(cmds[..n], outs[..n]) + if outs[n].Denied? then [] else [Accepted(cmds[n], outs[n].rid)]
  }

  /** The rows that wrote the object `k`, in order. */
  function RowsOf(cmds: seq<Cmd>, outs: seq<Outcome>, k: ObjectKey): seq<int>
    requires |cmds| == |outs|
  {
    if outs == [] then []
    else
      var n := |outs| - 1;
      RowsOf(cmds[..n], outs[..n], k) + if outs[n].Wrote? && outs[n].key == k then [cmds[n].row] else []
  }

  /** The properties those rows changed, each named once, in order of first change. */
  function ChangesOf(outs: seq<Outcome>, k: ObjectKey): seq<string> {
    if outs == [] then []
    else
      var n := |outs| - 1;
      var front := ChangesOf(outs[..n], k);
      if outs[n].Wrote? && outs[n].key == k then AddNames(front, outs[n].changed) else front
  }

  ghost predicate JournalFits(st: Phase, cmds: seq<Cmd>, outs: seq<Outcome>, k: ObjectKey)
    requires |cmds| == |outs|
  {
    if k in st.byKey && st.byKey[k].planned.Some? && st.byKey[k].planned.value < |st.objects| then
      var o := st.objects[st.byKey[k].planned.value];
      o.rows == RowsOf(cmds, outs, k) && o.changed == ChangesOf(outs, k)
    else RowsOf(cmds, outs, k) == [] && ChangesOf(outs, k) == []
  }

  /** The phase has counted and noted exactly the outcomes so far. */
  ghost predicate Tallies(st: Phase, cmds: seq<Cmd>, outs: seq<Outcome>)
    requires |cmds| == |outs|
  {
    && st.upserted == Writes(outs)
    && st.skipped == Skips(outs)
    && st.rejected == Denials(outs)
    && st.accepted == Taken(cmds, outs)
    && forall k :: JournalFits(st, cmds, outs, k)
  }

  lemma {:induction false} OutcomeCount(env: Env, s: Store, cmds: seq<Cmd>)
    ensures |UpsertAll(env, s, cmds).1| == |cmds|
  {
    if cmds == [] {
    } else {
      OutcomeCount(env, s, cmds[..|cmds| - 1]);
    }
  }

  /** What one step adds to the tallies. */
  ghost predicate StepTallies(st: Phase, st': Phase, cmd: Cmd, out: Outcome) {
    match out
    case Denied(r) =>
      st' == st.(rejected := st.rejected + [r])
    case Unchanged(k, rid) =>
      st' == st.(skipped := st.skipped + 1, accepted := st.accepted + [Accepted(cmd, rid)])
    case Wrote(k, rid, changed) =>
      && st'.upserted == st.upserted + 1 && st'.skipped == st.skipped && st'.rejected == st.rejected
      && st'.accepted == st.accepted + [Accepted(cmd, rid)]
      && StepJournal(st, st', cmd.row, k, changed)
  }

  ghost predicate StepJournal(st: Phase, st': Phase, row: int, k: ObjectKey, changed: seq<string>) {
    && st'.byKey.Keys == st.byKey.Keys + {k}
    && (forall x :: x in st.byKey && x != k ==> st'.byKey[x] == st.byKey[x])
    && st'.byKey[k].planned.Some?
    && st'.byKey[k].planned.value < |st'.objects|
    && |st.objects| <= |st'.objects|
    && (forall i :: 0 <= i < |st.objects| && i != st'.byKey[k].planned.value ==> st'.objects[i] == st.objects[i])
    && var o := st'.objects[st'.byKey[k].planned.value];
       if k in st.byKey && st.byKey[k].planned.Some? then
         && st.byKey[k].planned == st'.byKey[k].planned
         && st.byKey[k].planned.value < |st.objects|
         && var b := st.objects[st.byKey[k].planned.value];
            o.rows == b.rows + [row] && o.changed == AddNames(b.changed, changed)
       else
         st'.byKey[k].planned.value == |st.objects| && o.rows == [row] && o.changed == AddNames([], changed)
  }

  lemma StepOutcome(env: Env, counts: Counts, start: Store, st: Phase, s: Store, cmd: Cmd)
    requires PhaseMirrors(start, st, s) && PlannedInRange(st)
    requires start.total == counts.objects && start.created == counts.created
    ensures StepTallies(st, PlanStep(env, counts, st, cmd), cmd, UpsertOne(env, s, cmd).1)
  {
    var p := Prepare(env.schema, cmd);
    hide Prepare, PlanNew, UpsertNew, Accept, Merged, TitleOf, Source;
    if p.Refused? {
    } else if p.key in st.byKey {
      var w := st.byKey[p.key];
      assert EntryMirrors(start, w, st.objects, s.objects[p.key], p.key);
      StepOutcomeKnown(env, start, st, cmd, p, s.objects[p.key], Merged(w.state, p.props, Source(env, cmd)));
      hide StepJournal;
    } else {
      StepOutcomeNew(env, counts, start, st, s, cmd, p);
      hide StepTallies;
    }
  }

  lemma StepOutcomeKnown(env: Env, start: Store, st: Phase, cmd: Cmd, p: Prepared, o: Obj, merged: MergeOutcome)
    requires PlannedInRange(st) && p.Ready? && p.key in st.byKey
    requires EntryMirrors(start, st.byKey[p.key], st.objects, o, p.key)
    ensures StepTallies(st, Accept(env, st, cmd, p, st.byKey[p.key], merged), cmd,
      if merged.changed == [] then Unchanged(p.key, o.rid) else Wrote(p.key, o.rid, merged.changed))
  {
    hide TitleOf, AddNames;
  }

  lemma StepOutcomeNew(env: Env, counts: Counts, start: Store, st: Phase, s: Store, cmd: Cmd, p: Prepared)
    requires PhaseMirrors(start, st, s) && start.total == counts.objects && start.created == counts.created
    requires p.Ready? && p.key !in st.byKey
    ensures StepTallies(st, PlanNew(env, counts, st, cmd, p), cmd, UpsertNew(env, s, cmd, p).1)
  {
    hide TitleOf, AddNames, Missing, Merged, Source;
    assert s.total == start.total + st.newObjects && s.created == start.created + st.newObjects;
    hide Mirrors;
  }

  lemma TallyStep(st: Phase, st': Phase, cmds: seq<Cmd>, outs: seq<Outcome>, cmd: Cmd, out: Outcome)
    requires |cmds| == |outs|
    requires Tallies(st, cmds, outs) && StepTallies(st, st', cmd, out) && PlannedInRange(st)
    requires forall x, y ::
      (x in st.byKey && y in st.byKey && st.byKey[x].planned.Some? && st.byKey[x].planned == st.byKey[y].planned) ==> x == y
    ensures Tallies(st', cmds + [cmd], outs + [out])
  {
    var cmds', outs' := cmds + [cmd], outs + [out];
    assert cmds'[..|cmds|] == cmds && outs'[..|outs|] == outs;
    forall k ensures JournalFits(st', cmds', outs', k) {
      assert JournalFits(st, cmds, outs, k);
      if out.Wrote? && out.key != k && k in st.byKey && st.byKey[k].planned.Some? {
        assert st'.byKey[k] == st.byKey[k];
        if out.key in st.byKey {
          assert st.byKey[out.key].planned != st.byKey[k].planned;
        }
        assert st'.byKey[out.key].planned != st.byKey[k].planned;
      }
    }
  }

  lemma {:induction false} TallyAll(env: Env, counts: Counts, start: Store, cmds: seq<Cmd>)
    requires KeysFit(start.objects)
    requires start.total == counts.objects && start.created == counts.created
    ensures var outs := UpsertAll(env, start, cmds).1;
      |outs| == |cmds| && Tallies(PlanObjects(env, counts, StartPhase(start.objects), cmds), cmds, outs)
  {
    OutcomeCount(env, start, cmds);
    if cmds == [] {
    } else {
      var n := |cmds| - 1;
      TallyAll(env, counts, start, cmds[..n]);
      MirrorAll(env, counts, start, cmds[..n]);
      var st := PlanObjects(env, counts, StartPhase(start.objects), cmds[..n]);
      var (s, outs) := UpsertAll(env, start, cmds[..n]);
      StepOutcome(env, counts, start, st, s, cmds[n]);
      forall x, y | x in st.byKey && y in st.byKey && st.byKey[x].planned.Some? && st.byKey[x].planned == st.byKey[y].planned
        ensures x == y
      {
        assert EntryMirrors(start, st.byKey[x], st.objects, s.objects[x], x);
        assert EntryMirrors(start, st.byKey[y], st.objects, s.objects[y], y);
      }
      TallyStep(st, PlanStep(env, counts, st, cmds[n]), cmds[..n], outs, cmds[n], UpsertOne(env, s, cmds[n]).1);
      assert cmds == cmds[..n] + [cmds[n]];
    }
  }
}
