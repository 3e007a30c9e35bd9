/**
 * What an upsert loads before it plans (upsert_objects.ts): the stored objects under the trimmed
 * keys that the batch names, and the links that start at those it upserts. It is enough: the plan
 * is the one made on the whole workspace.
 */
module UpsertLoading {
  import opened Common
  import opened MergeProps
  import opened Sorting
  import opened UpsertPlanner
  import opened UpsertStore
  import opened UpsertReplay

  // --- What is loaded ---------------------------------------------------------------------------

  /** The trimmed key, unless nothing is left of it. */
  function Keyed(objType: string, primaryKey: string): set<ObjectKey> {
    if Trim(primaryKey) == "" then {} else {ObjectKey(objType, Trim(primaryKey))}
  }

  function LinkKeys(links: seq<LinkMention>): set<ObjectKey> {
    if links == [] then {}
    else LinkKeys(links[..|links| - 1]) + Keyed(links[|links| - 1].toType, links[|links| - 1].toKey)
  }

  function LoadKeys(cmds: seq<Cmd>): set<ObjectKey> {
    if cmds == [] then {}
    else
      var c := cmds[|cmds| - 1];
      LoadKeys(cmds[..|cmds| - 1]) + (Keyed(c.objType, c.primaryKey) + LinkKeys(c.links))
  }

  method CollectKeys(cmds: seq<Cmd>) returns (keys: set<ObjectKey>)
    ensures keys == LoadKeys(cmds)
  {
    keys := {};
    for i := 0 to |cmds|
      invariant keys == LoadKeys(cmds[..i])
    {
      PrefixSnoc(cmds, i);
      var c := cmds[i];
      keys := AddKey(keys, c.objType, c.primaryKey);
      ghost var before := keys;
      for j := 0 to |c.links|
        invariant keys == before + LinkKeys(c.links[..j])
      {
        PrefixSnoc(c.links, j);
        keys := AddKey(keys, c.links[j].toType, c.links[j].toKey);
      }
      assert c.links[..|c.links|] == c.links;
    }
    assert cmds[..|cmds|] == cmds;
  }

  method AddKey(before: set<ObjectKey>, objType: string, primaryKey: string) returns (keys: set<ObjectKey>)
    ensures keys == before + Keyed(objType, primaryKey)
  {
    var pk := Trim(primaryKey);
    keys := if pk == "" then before else before + {ObjectKey(objType, pk)};
  }

  function KeyOfObj(o: Obj): ObjectKey {
    ObjectKey(o.objType, o.primaryKey)
  }

  function Found(existing: seq<Obj>, keys: set<ObjectKey>): seq<Obj> {
    Filter(existing, (o: Obj) => KeyOfObj(o) in keys)
  }

  function CmdKeys(cmds: seq<Cmd>): set<ObjectKey> {
    set c | c in cmds :: ObjectKey(c.objType, Trim(c.primaryKey))
  }

  /** The loaded objects that the batch upserts. */
  function SourcesOf(found: seq<Obj>, cmds: seq<Cmd>): set<Rid> {
    set o | o in found && KeyOfObj(o) in CmdKeys(cmds) :: o.rid
  }

  function LinksFrom(links: map<LinkKey, Option<real>>, sources: set<Rid>): map<LinkKey, Option<real>> {
    map k | k in links && k.src in sources :: links[k]
  }

  /** The input of the planner, as it is loaded from the whole workspace. */
  function Loading(full: Input): Input {
    var found := Found(full.existing, LoadKeys(full.cmds));
    var sources := SourcesOf(found, full.cmds);
    var links := if (exists c :: c in full.cmds && c.links != []) && sources != {} then LinksFrom(full.existingLinks, sources) else map[];
    full.(existing := found, existingLinks := links)
  }

  // --- It is enough -------------------------------------------------------------------------------

  /**
   * A workspace as upserts leave it: keys are stored trimmed and not empty, links start at stored
   * objects, and identifiers still to be handed out belong to none.
   */
  ghost predicate Sound(full: Input) {
    && (forall o :: o in full.existing ==> o.primaryKey != "" && Trim(o.primaryKey) == o.primaryKey)
    && (forall k :: k in full.existingLinks ==> exists o :: o in full.existing && o.rid == k.src)
    && (forall o, t, n: nat :: o in full.existing && n >= full.counts.created ==> full.env.newRid(t, n) != o.rid)
  }

  lemma {:induction false} FoundKnown(existing: seq<Obj>, keys: set<ObjectKey>, k: ObjectKey)
    requires k in keys
    ensures k in Known(Found(existing, keys)) <==> k in Known(existing)
    ensures k in Known(existing) ==> Known(Found(existing, keys))[k] == Known(existing)[k]
  {
    if existing != [] {
      var n := |existing| - 1;
      FoundKnown(existing[..n], keys, k);
      var front := Found(existing[..n], keys);
      if KeyOfObj(existing[n]) in keys {
        assert Found(existing, keys) == front + [existing[n]];
        assert (front + [existing[n]])[..|front|] == front;
      } else {
        assert Found(existing, keys) == front;
      }
    }
  }

  lemma {:induction false} KnownIsStored(existing: seq<Obj>, k: ObjectKey)
    requires k in Known(existing)
    ensures Known(existing)[k] in existing && KeyOfObj(Known(existing)[k]) == k
  {
    var n := |existing| - 1;
    if KeyOfObj(existing[n]) != k {
      KnownIsStored(existing[..n], k);
    }
  }

  lemma {:induction false} FoundMembers(existing: seq<Obj>, keys: set<ObjectKey>, o: Obj)
    ensures o in Found(existing, keys) <==> o in existing && KeyOfObj(o) in keys
  {
    if existing != [] {
      var n := |existing| - 1;
      FoundMembers(existing[..n], keys, o);
      assert existing == existing[..n] + [existing[n]];
    }
  }

  lemma {:induction false} LinkKeysHold(links: seq<LinkMention>, l: LinkMention)
    requires l in links
    ensures Keyed(l.toType, l.toKey) <= LinkKeys(links)
  {
    hide Keyed;
    var n := |links| - 1;
    assert links == links[..n] + [links[n]];
    if l != links[n] {
      LinkKeysHold(links[..n], l);
    }
  }

  /** A named key is loaded, unless it is not trimmed or empty and so no stored one. */
  lemma {:induction false} NamedAreLoaded(cmds: seq<Cmd>, k: ObjectKey)
    requires k in Named(cmds) && k.primaryKey != "" && Trim(k.primaryKey) == k.primaryKey
    ensures k in LoadKeys(cmds)
  {
    var n := |cmds| - 1;
    if k in Named(cmds[..n]) {
      NamedAreLoaded(cmds[..n], k);
    } else if k == ObjectKey(cmds[n].objType, Trim(cmds[n].primaryKey)) {
      assert k in Keyed(cmds[n].objType, cmds[n].primaryKey);
    } else {
      var l :| l in cmds[n].links && k == ObjectKey(l.toType, l.toKey);
      LinkKeysHold(cmds[n].links, l);
    }
  }

  lemma {:induction false} CmdsAreLoaded(cmds: seq<Cmd>, c: Cmd)
    requires c in cmds && Trim(c.primaryKey) != ""
    ensures ObjectKey(c.objType, Trim(c.primaryKey)) in LoadKeys(cmds)
  {
    hide LinkKeys, Trim;
    var n := |cmds| - 1;
    assert cmds == cmds[..n] + [cmds[n]];
    if c != cmds[n] {
      CmdsAreLoaded(cmds[..n], c);
    }
  }

  // --- Where accepted identifiers come from ---------------------------------------------------------

  /** An identifier of a stored object under the key, or one handed out by the batch. */
  ghost predicate RidFrom(input: Input, k: ObjectKey, rid: Rid) {
    || (k in Known(input.existing) && Known(input.existing)[k].rid == rid)
    || (exists n: nat :: n >= input.counts.created && input.env.newRid(k.objType, n) == rid)
  }

  ghost predicate AcceptedFrom(input: Input, a: Accepted) {
    && a.cmd in input.cmds
    && Trim(a.cmd.primaryKey) != ""
    && RidFrom(input, ObjectKey(a.cmd.objType, Trim(a.cmd.primaryKey)), a.rid)
  }

  ghost predicate AllFrom(input: Input, st: Phase) {
    && (forall k :: k in st.byKey ==> RidFrom(input, k, st.byKey[k].rid))
    && (forall i :: 0 <= i < |st.accepted| ==> AcceptedFrom(input, st.accepted[i]))
  }

  lemma AcceptFrom(input: Input, st: Phase, cmd: Cmd, p: Prepared, w: Working, merged: MergeOutcome)
    requires AllFrom(input, st) && cmd in input.cmds && Trim(cmd.primaryKey) != ""
    requires p.Ready? && p.key == ObjectKey(cmd.objType, Trim(cmd.primaryKey)) && RidFrom(input, p.key, w.rid)
    requires w.planned.Some? ==> w.planned.value < |st.objects|
    ensures AllFrom(input, Accept(input.env, st, cmd, p, w, merged))
  {
    hide RidFrom, TitleOf, AddNames, Trim;
  }

  lemma StepFrom(input: Input, st: Phase, cmd: Cmd)
    requires PlannedInRange(st) && AllFrom(input, st) && cmd in input.cmds
    ensures AllFrom(input, PlanStep(input.env, input.counts, st, cmd))
  {
    var p := Prepare(input.env.schema, cmd);
    if p.Ready? {
      hide Accept, Merged, Missing, Known, Trim, Incoming;
      if p.key in st.byKey {
        var w := st.byKey[p.key];
        AcceptFrom(input, st, cmd, p, w, Merged(w.state, p.props, Source(input.env, cmd)));
      } else {
        NewFrom(input, st, cmd, p);
        hide PlanNew, RidFrom;
      }
    }
  }

  lemma NewFrom(input: Input, st: Phase, cmd: Cmd, p: Prepared)
    requires PlannedInRange(st) && AllFrom(input, st) && cmd in input.cmds && Trim(cmd.primaryKey) != ""
    requires p.Ready? && p.key == ObjectKey(cmd.objType, Trim(cmd.primaryKey))
    ensures AllFrom(input, PlanNew(input.env, input.counts, st, cmd, p))
  {
    hide Accept, Merged, Missing, Known, Trim;
    var rid := input.env.newRid(cmd.objType, input.counts.created + st.newObjects);
    assert RidFrom(input, p.key, rid);
    hide RidFrom;
    var one := st.(newObjects := st.newObjects + 1);
    assert AllFrom(input, one);
    hide AllFrom;
    AcceptFrom(input, one, cmd, p, Working(rid, cmd.objType, p.primaryKey, EMPTY_STATE, true, None),
      Merged(EMPTY_STATE, p.props, Source(input.env, cmd)));
  }

  lemma {:induction false} PhaseFrom(input: Input, n: nat)
    requires n <= |input.cmds|
    ensures AllFrom(input, PlanObjects(input.env, input.counts, StartPhase(Known(input.existing)), input.cmds[..n]))
  {
    if n > 0 {
      PhaseFrom(input, n - 1);
      PrefixSnoc(input.cmds, n - 1);
      hide PlanStep, AllFrom, Known;
      StepFrom(input, PlanObjects(input.env, input.counts, StartPhase(Known(input.existing)), input.cmds[..n - 1]), input.cmds[n - 1]);
    }
  }

  /** A stored link that starts at an accepted object starts at a loaded one. */
  lemma SourceIsLoaded(full: Input, a: Accepted, k: LinkKey)
    requires Sound(full) && AcceptedFrom(full, a) && k in full.existingLinks && k.src == a.rid
    ensures a.rid in SourcesOf(Found(full.existing, LoadKeys(full.cmds)), full.cmds)
  {
    var key := ObjectKey(a.cmd.objType, Trim(a.cmd.primaryKey));
    var o :| o in full.existing && o.rid == k.src;
    assert key in Known(full.existing) && Known(full.existing)[key].rid == a.rid;
    KnownIsStored(full.existing, key);
    CmdsAreLoaded(full.cmds, a.cmd);
    hide Found, LoadKeys, Known;
    FoundMembers(full.existing, LoadKeys(full.cmds), Known(full.existing)[key]);
  }

  lemma LinksAreLoaded(full: Input)
    requires Sound(full)
    ensures SameFrom(full.existingLinks, Loading(full).existingLinks, Sources(ObjectPhase(full).accepted))
  {
    var accepted := ObjectPhase(full).accepted;
    PhaseFrom(full, |full.cmds|);
    assert full.cmds[..|full.cmds|] == full.cmds;
    hide ObjectPhase, SourcesOf, Found, LoadKeys, RidFrom, Sound;
    var sources := SourcesOf(Found(full.existing, LoadKeys(full.cmds)), full.cmds);
    forall k: LinkKey | k.src in Sources(accepted) && k in full.existingLinks
      ensures k.src in sources && exists c :: c in full.cmds && c.links != []
    {
      var a :| a in accepted && a.cmd.links != [] && a.rid == k.src;
      assert AcceptedFrom(full, a);
      SourceIsLoaded(full, a, k);
    }
    hide Sources, AllFrom, AcceptedFrom;
  }

  /** The loaded objects are, as far as the batch names them, those of the workspace. */
  lemma ObjectsAreLoaded(full: Input)
    requires Sound(full)
    ensures SameAt(Known(full.existing), Known(Loading(full).existing), Named(full.cmds))
  {
    var keys := LoadKeys(full.cmds);
    forall k | k in Named(full.cmds)
      ensures k in Known(full.existing) <==> k in Known(Found(full.existing, keys))
      ensures k in Known(full.existing) ==> Known(full.existing)[k] == Known(Found(full.existing, keys))[k]
    {
      if k in keys {
        FoundKnown(full.existing, keys, k);
      } else {
        NotStored(full, k);
      }
    }
    hide Known, Found, LoadKeys, Named;
  }

  lemma NotStored(full: Input, k: ObjectKey)
    requires Sound(full) && k in Named(full.cmds) && k !in LoadKeys(full.cmds)
    ensures k !in Known(full.existing) && k !in Known(Found(full.existing, LoadKeys(full.cmds)))
  {
    var found := Found(full.existing, LoadKeys(full.cmds));
    if k in Known(full.existing) {
      KnownIsStored(full.existing, k);
      NamedAreLoaded(full.cmds, k);
    }
    if k in Known(found) {
      KnownIsStored(found, k);
      FoundMembers(full.existing, LoadKeys(full.cmds), Known(found)[k]);
    }
  }

  /** Planning on what is loaded is planning on the whole workspace. */
  lemma LoadingIsEnough(full: Input)
    requires Sound(full)
    ensures Loads(full, Loading(full))
    ensures Plan(Loading(full)) == Plan(full) && ObjectPhase(Loading(full)).rejected == ObjectPhase(full).rejected
  {
    ObjectsAreLoaded(full);
    LinksAreLoaded(full);
    hide Known, Named, Sources, ObjectPhase, Plan, Found, SourcesOf, LoadKeys;
    OnlyNamedMatter(full, Loading(full));
  }

  /** A batch may be cut anywhere, each part planned on what it loads itself. */
  lemma SplitAnywhereLoaded(whole: Input, a: seq<Cmd>, b: seq<Cmd>, later: Input)
    requires whole.cmds == a + b && later.cmds == b && Follows(whole.(cmds := a), later)
    requires Sound(whole) && Sound(later)
    ensures var all, first, second := Plan(Loading(whole)), Plan(Loading(whole.(cmds := a))), Plan(Loading(later));
      && ApplyObjects(ApplyObjects(StoreOf(whole), first.objects), second.objects) == ApplyObjects(StoreOf(whole), all.objects)
      && all.upserted == first.upserted + second.upserted
      && all.skipped == first.skipped + second.skipped
      && ObjectPhase(Loading(whole)).rejected
         == ObjectPhase(Loading(whole.(cmds := a))).rejected + ObjectPhase(Loading(later)).rejected
  {
    var first := whole.(cmds := a);
    assert Sound(first);
    hide Sound, Loads, Loading, Follows, Plan, ObjectPhase;
    LoadingIsEnough(whole);
    LoadingIsEnough(first);
    LoadingIsEnough(later);
    SplitAsLoaded(whole, a, b, later, Loading(whole), Loading(first), Loading(later));
  }
}
