/**
 * What follows for callers of the planner: batches may be cut anywhere, every command has
 * one outcome, and replaying a batch on the store it produced plans nothing.
 */
module UpsertReplay {
  import opened Common
  import opened MergeProps
  import opened UpsertPlanner
  import opened UpsertStore
  import opened UpsertLinks

  // --- Cutting a batch --------------------------------------------------------------------

  lemma {:induction false} UpsertAppend(env: Env, s: Store, a: seq<Cmd>, b: seq<Cmd>)
    ensures var (s1, o1) := UpsertAll(env, s, a);
      var (s2, o2) := UpsertAll(env, s1, b);
      UpsertAll(env, s, a + b) == (s2, o1 + o2)
  {
    if b == [] {
      assert a + b == a;
      assert UpsertAll(env, s, a).1 + [] == UpsertAll(env, s, a).1;
    } else {
      var n := |b| - 1;
      UpsertAppend(env, s, a, b[..n]);
      assert (a + b)[..|a| + n] == a + b[..n];
      var (s1, o1) := UpsertAll(env, s, a);
      var (s2, o2) := UpsertAll(env, s1, b[..n]);
      var out := UpsertOne(env, s2, b[n]).1;
      assert UpsertAll(env, s, a + b) == (UpsertOne(env, s2, b[n]).0, o1 + o2 + [out]);
      assert o1 + o2 + [out] == o1 + (o2 + [out]);
    }
  }

  lemma {:induction false} TallyAppend(o1: seq<Outcome>, o2: seq<Outcome>)
    ensures Writes(o1 + o2) == Writes(o1) + Writes(o2)
    ensures Skips(o1 + o2) == Skips(o1) + Skips(o2)
  {
    if o2 == [] {
      assert o1 + o2 == o1;
    } else {
      var n := |o2| - 1;
      TallyAppend(o1, o2[..n]);
      assert (o1 + o2)[..|o1| + n] == o1 + o2[..n];
    }
  }

  lemma {:induction false} DenialsAppend(o1: seq<Outcome>, o2: seq<Outcome>)
    ensures Denials(o1 + o2) == Denials(o1) + Denials(o2)
  {
    if o2 == [] {
      assert o1 + o2 == o1;
    } else {
      var n := |o2| - 1;
      DenialsAppend(o1, o2[..n]);
      assert (o1 + o2)[..|o1| + n] == o1 + o2[..n];
    }
  }

  /** `later` is the input of a batch planned on the store that the plan of `first` left. */
  ghost predicate Follows(first: Input, later: Input) {
    var end := ApplyObjects(StoreOf(first), Plan(first).objects);
    && later.env == first.env
    && Known(later.existing) == end.objects
    && later.counts.objects == end.total
    && later.counts.created == end.created
  }

  /**
   * Split independence: planning `a`, writing it and then planning `b` writes the same
   * objects and gives the same outcomes, caps included, as planning `a + b` at once.
   */
  lemma SplitAnywhere(whole: Input, a: seq<Cmd>, b: seq<Cmd>, later: Input)
    requires whole.cmds == a + b && later.cmds == b
    requires Follows(whole.(cmds := a), later)
    ensures var first := whole.(cmds := a);
      && ApplyObjects(StoreOf(later), Plan(later).objects) == ApplyObjects(StoreOf(whole), Plan(whole).objects)
      && Plan(whole).upserted == Plan(first).upserted + Plan(later).upserted
      && Plan(whole).skipped == Plan(first).skipped + Plan(later).skipped
      && ObjectPhase(whole).rejected == ObjectPhase(first).rejected + ObjectPhase(later).rejected
  {
    var first := whole.(cmds := a);
    PlanRefinesStore(whole);
    PlanRefinesStore(first);
    PlanRefinesStore(later);
    UpsertAppend(whole.env, StoreOf(whole), a, b);
    OutcomesOf(whole);
    OutcomesOf(first);
    OutcomesOf(later);
    TallyAppend(UpsertAll(whole.env, StoreOf(first), a).1, UpsertAll(whole.env, StoreOf(later), b).1);
    DenialsAppend(UpsertAll(whole.env, StoreOf(first), a).1, UpsertAll(whole.env, StoreOf(later), b).1);
  }

  // --- Only what a batch names matters --------------------------------------------------------------

  function NamedBy(cmd: Cmd): set<ObjectKey> {
    {ObjectKey(cmd.objType, Trim(cmd.primaryKey))} + set l | l in cmd.links :: ObjectKey(l.toType, l.toKey)
  }

  /** The objects a batch upserts or links to. */
  function Named(cmds: seq<Cmd>): set<ObjectKey> {
    if cmds == [] then {} else Named(cmds[..|cmds| - 1]) + NamedBy(cmds[|cmds| - 1])
  }

  lemma {:induction false} NamedCmd(cmds: seq<Cmd>, i: nat)
    requires i < |cmds|
    ensures NamedBy(cmds[i]) <= Named(cmds)
  {
    if i < |cmds| - 1 {
      NamedCmd(cmds[..|cmds| - 1], i);
    }
  }

  ghost predicate SameAt<K(!new), V>(a: map<K, V>, b: map<K, V>, keys: set<K>) {
    forall k :: k in keys ==> (k in a <==> k in b) && (k in a ==> a[k] == b[k])
  }

  /** Two object phases that differ at most in working entries outside `keys`. */
  ghost predicate SamePhase(a: Phase, b: Phase, keys: set<ObjectKey>) {
    a == b.(byKey := a.byKey) && SameAt(a.byKey, b.byKey, keys)
  }

  lemma StepIsLocal(env: Env, counts: Counts, a: Phase, b: Phase, cmd: Cmd, keys: set<ObjectKey>)
    requires PlannedInRange(a) && PlannedInRange(b) && SamePhase(a, b, keys) && NamedBy(cmd) <= keys
    ensures SamePhase(PlanStep(env, counts, a, cmd), PlanStep(env, counts, b, cmd), keys)
  {
    var p := Prepare(env.schema, cmd);
    assert ObjectKey(cmd.objType, Trim(cmd.primaryKey)) in keys;
    if p.Ready? {
      assert p.key in keys;
      hide Prepare, Merged, TitleOf, AddNames, Missing, Named, NamedBy, Accept, SamePhase;
      if p.key in a.byKey {
        var w := a.byKey[p.key];
        assert p.key in b.byKey && b.byKey[p.key] == w by {
          EntryAgrees(a, b, keys, p.key);
        }
        AcceptIsLocal(env, a, b, cmd, p, w, Merged(w.state, p.props, Source(env, cmd)), keys);
      } else {
        assert p.key !in b.byKey by {
          EntryAgrees(a, b, keys, p.key);
        }
        NewIsLocal(env, counts, a, b, cmd, p, keys);
        hide PlanNew;
      }
    }
  }

  lemma EntryAgrees(a: Phase, b: Phase, keys: set<ObjectKey>, k: ObjectKey)
    requires SamePhase(a, b, keys) && k in keys
    ensures (k in a.byKey <==> k in b.byKey) && (k in a.byKey ==> a.byKey[k] == b.byKey[k])
  {
  }

  lemma AcceptIsLocal(env: Env, a: Phase, b: Phase, cmd: Cmd, p: Prepared, w: Working, merged: MergeOutcome, keys: set<ObjectKey>)
    requires SamePhase(a, b, keys) && p.Ready? && (w.planned.Some? ==> w.planned.value < |a.objects|)
    ensures |a.objects| == |b.objects| && SamePhase(Accept(env, a, cmd, p, w, merged), Accept(env, b, cmd, p, w, merged), keys)
  {
    hide TitleOf, AddNames;
  }

  lemma NewIsLocal(env: Env, counts: Counts, a: Phase, b: Phase, cmd: Cmd, p: Prepared, keys: set<ObjectKey>)
    requires SamePhase(a, b, keys) && p.Ready?
    ensures SamePhase(PlanNew(env, counts, a, cmd, p), PlanNew(env, counts, b, cmd, p), keys)
  {
    hide Merged, Missing, Accept;
    var merged := Merged(EMPTY_STATE, p.props, Source(env, cmd));
    var w := Working(env.newRid(cmd.objType, counts.created + a.newObjects), cmd.objType, p.primaryKey, EMPTY_STATE, true, None);
    var a1, b1 := a.(newObjects := a.newObjects + 1), b.(newObjects := b.newObjects + 1);
    assert SamePhase(a1, b1, keys);
    AcceptIsLocal(env, a1, b1, cmd, p, w, merged, keys);
  }

  lemma {:induction false} PhaseIsLocal(env: Env, counts: Counts, a: Phase, b: Phase, cmds: seq<Cmd>, keys: set<ObjectKey>)
    requires PlannedInRange(a) && PlannedInRange(b) && SamePhase(a, b, keys) && Named(cmds) <= keys
    ensures SamePhase(PlanObjects(env, counts, a, cmds), PlanObjects(env, counts, b, cmds), keys)
  {
    if cmds != [] {
      var n := |cmds| - 1;
      PhaseIsLocal(env, counts, a, b, cmds[..n], keys);
      hide PlanStep, SamePhase;
      StepIsLocal(env, counts, PlanObjects(env, counts, a, cmds[..n]), PlanObjects(env, counts, b, cmds[..n]), cmds[n], keys);
    }
  }

  /** The links that start at one of `sources`. */
  ghost predicate SameFrom(a: map<LinkKey, Option<real>>, b: map<LinkKey, Option<real>>, sources: set<Rid>) {
    forall k: LinkKey :: k.src in sources ==> (k in a <==> k in b) && (k in a ==> a[k] == b[k])
  }

  lemma {:induction false} LinksAreLocal(env: Env, counts: Counts, x: map<ObjectKey, Rid>, y: map<ObjectKey, Rid>,
                                         a: map<LinkKey, Option<real>>, b: map<LinkKey, Option<real>>, ms: seq<Mention>,
                                         keys: set<ObjectKey>, sources: set<Rid>)
    requires SameAt(x, y, keys) && SameFrom(a, b, sources)
    requires forall i :: 0 <= i < |ms| ==> ObjectKey(ms[i].link.toType, ms[i].link.toKey) in keys && ms[i].src in sources
    ensures PlanLinks(env, counts, x, a, NO_LINKS, ms) == PlanLinks(env, counts, y, b, NO_LINKS, ms)
  {
    if ms != [] {
      var n := |ms| - 1;
      LinksAreLocal(env, counts, x, y, a, b, ms[..n], keys, sources);
      assert Resolve(env.schema, x, ms[n]) == Resolve(env.schema, y, ms[n]);
      assert Resolve(env.schema, x, ms[n]).Target? ==> Resolve(env.schema, x, ms[n]).key.src == ms[n].src;
      hide Resolve;
    }
  }

  /** The sources of all mentions: the accepted objects whose commands have links. */
  function Sources(accepted: seq<Accepted>): set<Rid> {
    set a | a in accepted && a.cmd.links != [] :: a.rid
  }

  ghost predicate MentionOk(m: Mention, keys: set<ObjectKey>, sources: set<Rid>) {
    ObjectKey(m.link.toType, m.link.toKey) in keys && m.src in sources
  }

  lemma {:induction false} MentionsAreNamed(accepted: seq<Accepted>, keys: set<ObjectKey>, sources: set<Rid>)
    requires AllNamed(accepted, keys) && Sources(accepted) <= sources
    ensures forall j :: 0 <= j < |Mentions(accepted)| ==> MentionOk(Mentions(accepted)[j], keys, sources)
  {
    if accepted != [] {
      var n := |accepted| - 1;
      MentionsAreNamed(accepted[..n], keys, sources);
      var a := accepted[n];
      assert a.cmd.links != [] ==> a.rid in Sources(accepted);
      forall j | 0 <= j < |a.cmd.links| ensures MentionOk(MentionsOf(a)[j], keys, sources) {
        assert ObjectKey(a.cmd.links[j].toType, a.cmd.links[j].toKey) in NamedBy(a.cmd);
      }
      hide MentionOk, MentionsOf;
    }
  }

  ghost predicate AllNamed(accepted: seq<Accepted>, keys: set<ObjectKey>) {
    forall i :: 0 <= i < |accepted| ==> NamedBy(accepted[i].cmd) <= keys
  }

  lemma AllNamedAnd(accepted: seq<Accepted>, a: Accepted, keys: set<ObjectKey>)
    requires AllNamed(accepted, keys) && NamedBy(a.cmd) <= keys
    ensures AllNamed(accepted + [a], keys)
  {
  }

  lemma {:induction false} AcceptedAreNamed(env: Env, counts: Counts, st: Phase, cmds: seq<Cmd>, keys: set<ObjectKey>)
    requires PlannedInRange(st) && st.accepted == [] && Named(cmds) <= keys
    ensures AllNamed(PlanObjects(env, counts, st, cmds).accepted, keys)
  {
    hide PlanStep, NamedBy;
    if cmds != [] {
      var n := |cmds| - 1;
      AcceptedAreNamed(env, counts, st, cmds[..n], keys);
      var before := PlanObjects(env, counts, st, cmds[..n]);
      StepAccepts(env, counts, before, cmds[n]);
      var after := PlanStep(env, counts, before, cmds[n]);
      assert PlanObjects(env, counts, st, cmds) == after && NamedBy(cmds[n]) <= keys;
      hide *;
      if after.accepted != before.accepted {
        AllNamedAnd(before.accepted, after.accepted[|after.accepted| - 1], keys);
      }
    }
  }

  lemma StepAccepts(env: Env, counts: Counts, st: Phase, cmd: Cmd)
    requires PlannedInRange(st)
    ensures var acc := PlanStep(env, counts, st, cmd).accepted;
      acc == st.accepted || (acc != [] && acc == st.accepted + [acc[|acc| - 1]] && acc[|acc| - 1].cmd == cmd)
  {
    hide Prepare, Merged, TitleOf, AddNames, Missing;
  }

  /**
   * Stored objects that a batch neither upserts nor links to, and stored links from other sources,
   * do not matter: the plan is the same with only the named ones loaded.
   */
  lemma OnlyNamedMatter(x: Input, y: Input)
    requires x.env == y.env && x.cmds == y.cmds && x.counts == y.counts
    requires SameAt(Known(x.existing), Known(y.existing), Named(x.cmds))
    requires SameFrom(x.existingLinks, y.existingLinks, Sources(ObjectPhase(x).accepted))
    ensures Plan(x) == Plan(y) && ObjectPhase(x).rejected == ObjectPhase(y).rejected
  {
    var keys := Named(x.cmds);
    var a, b := StartPhase(Known(x.existing)), StartPhase(Known(y.existing));
    assert SamePhase(a, b, keys);
    PhaseIsLocal(x.env, x.counts, a, b, x.cmds, keys);
    AcceptedAreNamed(x.env, x.counts, a, x.cmds, keys);
    var p, q := ObjectPhase(x), ObjectPhase(y);
    assert SamePhase(p, q, keys) && p.accepted == q.accepted;
    assert SameAt(Rids(p.byKey), Rids(q.byKey), keys);
    hide PlanObjects, Named, Known, Mentions, NamedBy;
    var sources := Sources(p.accepted);
    MentionsAreNamed(p.accepted, keys, sources);
    LinksAreLocal(x.env, x.counts, Rids(p.byKey), Rids(q.byKey), x.existingLinks, y.existingLinks, Mentions(p.accepted), keys, sources);
  }

  /** An input that loads from a store what its batch names. */
  ghost predicate Loads(full: Input, loaded: Input) {
    && loaded.env == full.env && loaded.cmds == full.cmds && loaded.counts == full.counts
    && SameAt(Known(full.existing), Known(loaded.existing), Named(full.cmds))
    && SameFrom(full.existingLinks, loaded.existingLinks, Sources(ObjectPhase(full).accepted))
  }

  /** Split independence for batches that load only what they name from the store. */
  lemma SplitAsLoaded(whole: Input, a: seq<Cmd>, b: seq<Cmd>, later: Input, wholeLoaded: Input, firstLoaded: Input, laterLoaded: Input)
    requires whole.cmds == a + b && later.cmds == b && Follows(whole.(cmds := a), later)
    requires Loads(whole, wholeLoaded) && Loads(whole.(cmds := a), firstLoaded) && Loads(later, laterLoaded)
    ensures ApplyObjects(ApplyObjects(StoreOf(whole), Plan(firstLoaded).objects), Plan(laterLoaded).objects)
         == ApplyObjects(StoreOf(whole), Plan(wholeLoaded).objects)
    ensures Plan(wholeLoaded).upserted == Plan(firstLoaded).upserted + Plan(laterLoaded).upserted
    ensures Plan(wholeLoaded).skipped == Plan(firstLoaded).skipped + Plan(laterLoaded).skipped
    ensures ObjectPhase(wholeLoaded).rejected == ObjectPhase(firstLoaded).rejected + ObjectPhase(laterLoaded).rejected
  {
    OnlyNamedMatter(whole, wholeLoaded);
    OnlyNamedMatter(whole.(cmds := a), firstLoaded);
    OnlyNamedMatter(later, laterLoaded);
    SplitAnywhere(whole, a, b, later);
    hide Plan, ObjectPhase, ApplyObjects, Known, Named;
  }

  lemma OutcomesOf(input: Input)
    ensures var outs := UpsertAll(input.env, StoreOf(input), input.cmds).1;
      |outs| == |input.cmds| && Tallies(ObjectPhase(input), input.cmds, outs)
  {
    KnownKeys(input.existing);
    TallyAll(input.env, input.counts, StoreOf(input), input.cmds);
  }

  lemma {:induction false} EveryOutcomeCounted(outs: seq<Outcome>)
    ensures Writes(outs) + Skips(outs) + |Denials(outs)| == |outs|
  {
    if outs == [] {
    } else {
      EveryOutcomeCounted(outs[..|outs| - 1]);
    }
  }

  /**
   * Each command is upserted, skipped or rejected, never two of them; each planned object
   * lists exactly the rows that wrote it and the properties they changed, and an object
   * without a planned write was written by no row.
   */
  lemma OneOutcomeEach(input: Input)
    ensures var st := ObjectPhase(input);
      var outs := UpsertAll(input.env, StoreOf(input), input.cmds).1;
      && |outs| == |input.cmds|
      && Plan(input).upserted + Plan(input).skipped + |st.rejected| == |input.cmds|
      && st.rejected == Denials(outs)
      && st.accepted == Taken(input.cmds, outs)
      && (forall i :: 0 <= i < |st.objects| ==>
            && st.objects[i].rows == RowsOf(input.cmds, outs, KeyOf(st.objects[i]))
            && st.objects[i].changed == ChangesOf(outs, KeyOf(st.objects[i])))
      && (forall k :: RowsOf(input.cmds, outs, k) != [] ==>
            exists i :: 0 <= i < |st.objects| && KeyOf(st.objects[i]) == k)
  {
    OutcomesOf(input);
    var start, st := StoreOf(input), ObjectPhase(input);
    var (end, outs) := UpsertAll(input.env, start, input.cmds);
    EveryOutcomeCounted(outs);
    KnownKeys(input.existing);
    MirrorAll(input.env, input.counts, start, input.cmds);
    forall i | 0 <= i < |st.objects|
      ensures st.objects[i].rows == RowsOf(input.cmds, outs, KeyOf(st.objects[i]))
        && st.objects[i].changed == ChangesOf(outs, KeyOf(st.objects[i]))
    {
      assert PlanMirrors(st.byKey, st.objects, i);
      assert JournalFits(st, input.cmds, outs, KeyOf(st.objects[i]));
    }
    forall k | RowsOf(input.cmds, outs, k) != []
      ensures exists i :: 0 <= i < |st.objects| && KeyOf(st.objects[i]) == k
    {
      assert JournalFits(st, input.cmds, outs, k);
      assert EntryMirrors(start, st.byKey[k], st.objects, end.objects[k], k);
      assert KeyOf(st.objects[st.byKey[k].planned.value]) == k;
    }
  }

  // --- Replaying a batch: objects ------------------------------------------------------------

  /** No two commands of the batch name the same object. */
  ghost predicate DistinctTargets(cmds: seq<Cmd>) {
    forall i, j :: 0 <= i < j < |cmds| ==>
      (cmds[i].objType, Trim(cmds[i].primaryKey)) != (cmds[j].objType, Trim(cmds[j].primaryKey))
  }

  /** The same ontology and caps; the job, the clock and the identifiers may differ. */
  ghost predicate SameRules(a: Env, b: Env) {
    a.schema == b.schema && a.maxObjects == b.maxObjects && a.maxLinks == b.maxLinks
  }

  function Replayed(out: Outcome): Outcome {
    match out
    case Wrote(k, rid, _) => Unchanged(k, rid)
    case _ => out
  }

  function ReplayedAll(outs: seq<Outcome>): seq<Outcome> {
    seq(|outs|, i requires 0 <= i < |outs| => Replayed(outs[i]))
  }

  lemma {:induction false} MergedProps(current: PropState, incoming: seq<(string, Json)>, s1: Provenance, s2: Provenance)
    ensures Merged(current, incoming, s1).state.props == Merged(current, incoming, s2).state.props
    ensures Merged(current, incoming, s1).changed == Merged(current, incoming, s2).changed
  {
    if incoming == [] {
    } else {
      MergedProps(current, incoming[..|incoming| - 1], s1, s2);
    }
  }

  lemma {:induction false} UnchangedState(current: PropState, incoming: seq<(string, Json)>, source: Provenance)
    requires Merged(current, incoming, source).changed == []
    ensures Merged(current, incoming, source).state == current
  {
    if incoming == [] {
    } else {
      UnchangedState(current, incoming[..|incoming| - 1], source);
    }
  }

  /** Commands for other objects leave an object alone. */
  lemma {:induction false} OthersLeaveAlone(env: Env, s: Store, cmds: seq<Cmd>, k: ObjectKey)
    requires forall i :: 0 <= i < |cmds| ==> ObjectKey(cmds[i].objType, Trim(cmds[i].primaryKey)) != k
    ensures var e := UpsertAll(env, s, cmds).0;
      (k in e.objects <==> k in s.objects) && (k in s.objects ==> e.objects[k] == s.objects[k])
  {
    if cmds == [] {
    } else {
      OthersLeaveAlone(env, s, cmds[..|cmds| - 1], k);
    }
  }

  /** A command replayed on a store that kept its result changes nothing. */
  lemma ReplayOne(env: Env, again: Env, s: Store, cmd: Cmd, e: Store)
    requires SameRules(env, again)
    requires s.total <= e.total && UpsertOne(env, s, cmd).0.total <= e.total
    requires var k := ObjectKey(cmd.objType, Trim(cmd.primaryKey));
      var s' := UpsertOne(env, s, cmd).0;
      (k in e.objects <==> k in s'.objects) && (k in s'.objects ==> e.objects[k] == s'.objects[k])
    ensures UpsertOne(again, e, cmd) == (e, Replayed(UpsertOne(env, s, cmd).1))
  {
    var p := Prepare(env.schema, cmd);
    if p.Ready? {
      var prior := if p.key in s.objects then s.objects[p.key].state else EMPTY_STATE;
      var merged := Merged(prior, p.props, Source(env, cmd));
      MergeAgain(prior, p.props, Source(env, cmd), Source(again, cmd));
      MergedProps(EMPTY_STATE, p.props, Source(env, cmd), Source(again, cmd));
      if merged.changed == [] {
        UnchangedState(prior, p.props, Source(env, cmd));
      }
    }
  }

  lemma OneMore(env: Env, s: Store, cmds: seq<Cmd>, n: nat)
    requires n < |cmds|
    ensures var s1, s2 := UpsertAll(env, s, cmds[..n]).0, UpsertAll(env, s, cmds[..n + 1]).0;
      s2 == UpsertOne(env, s1, cmds[n]).0 && s1.total <= s2.total
  {
    PrefixSnoc(cmds, n);
    hide Prepare, Merged, Missing, TitleOf, Source;
  }

  /** What the n-th command left in the store is still there at the end of the batch. */
  lemma ResultKept(env: Env, s: Store, cmds: seq<Cmd>, n: nat)
    requires n < |cmds| && DistinctTargets(cmds)
    ensures var k := ObjectKey(cmds[n].objType, Trim(cmds[n].primaryKey));
      var s1, e := UpsertAll(env, s, cmds[..n]).0, UpsertAll(env, s, cmds).0;
      var s2 := UpsertOne(env, s1, cmds[n]).0;
      && s2 == UpsertAll(env, s, cmds[..n + 1]).0
      && (k in e.objects <==> k in s2.objects)
      && (k in s2.objects ==> e.objects[k] == s2.objects[k])
      && s1.total <= s2.total <= e.total
  {
    hide UpsertAll, UpsertOne, Prepare, Trim;
    var s1, s2 := UpsertAll(env, s, cmds[..n]).0, UpsertAll(env, s, cmds[..n + 1]).0;
    OneMore(env, s, cmds, n);
    UpsertAppend(env, s, cmds[..n + 1], cmds[n + 1..]);
    assert cmds[..n + 1] + cmds[n + 1..] == cmds;
    var k := ObjectKey(cmds[n].objType, Trim(cmds[n].primaryKey));
    OthersLeaveAlone(env, s2, cmds[n + 1..], k);
    TotalCapped(env, s2, cmds[n + 1..]);
  }

  lemma {:induction false} ReplayAll(env: Env, again: Env, s: Store, cmds: seq<Cmd>, e: Store, i: nat)
    requires SameRules(env, again) && DistinctTargets(cmds)
    requires i <= |cmds|
    requires var end := UpsertAll(env, s, cmds).0; e.objects == end.objects && e.total == end.total
    ensures UpsertAll(again, e, cmds[..i]) == (e, ReplayedAll(UpsertAll(env, s, cmds[..i]).1))
  {
    if i == 0 {
      assert cmds[..0] == [] && ReplayedAll([]) == [];
    } else {
      var n := i - 1;
      ReplayAll(env, again, s, cmds, e, n);
      PrefixSnoc(cmds, n);
      var (s1, outs) := UpsertAll(env, s, cmds[..n]);
      ResultKept(env, s, cmds, n);
      ReplayOne(env, again, s1, cmds[n], e);
      var out := UpsertOne(env, s1, cmds[n]).1;
      assert ReplayedAll(outs + [out]) == ReplayedAll(outs) + [Replayed(out)];
    }
  }

  lemma {:induction false} ReplayTallies(cmds: seq<Cmd>, outs: seq<Outcome>)
    requires |cmds| == |outs|
    ensures var r := ReplayedAll(outs);
      && Writes(r) == 0 && Skips(r) == Writes(outs) + Skips(outs)
      && Denials(r) == Denials(outs) && Taken(cmds, r) == Taken(cmds, outs)
  {
    if outs == [] {
    } else {
      var n := |outs| - 1;
      ReplayTallies(cmds[..n], outs[..n]);
      assert ReplayedAll(outs)[..n] == ReplayedAll(outs[..n]);
    }
  }

  /** Without a write there is no planned object. */
  lemma {:induction false} NoWritesNoPlan(env: Env, counts: Counts, start: Store, cmds: seq<Cmd>)
    requires KeysFit(start.objects)
    requires start.total == counts.objects && start.created == counts.created
    requires Writes(UpsertAll(env, start, cmds).1) == 0
    ensures PlanObjects(env, counts, StartPhase(start.objects), cmds).objects == []
  {
    if cmds == [] {
    } else {
      var n := |cmds| - 1;
      NoWritesNoPlan(env, counts, start, cmds[..n]);
      MirrorAll(env, counts, start, cmds[..n]);
      StepOutcome(env, counts, start, PlanObjects(env, counts, StartPhase(start.objects), cmds[..n]),
                  UpsertAll(env, start, cmds[..n]).0, cmds[n]);
    }
  }

  // --- Replaying a batch: links ----------------------------------------------------------------

  /** No two of the mentions resolve to the same link. */
  ghost predicate DistinctMentions(schema: Schema, rids: map<ObjectKey, Rid>, ms: seq<Mention>) {
    forall i, j :: 0 <= i < j < |ms| ==>
      Resolve(schema, rids, ms[i]).Unresolved? || Resolve(schema, rids, ms[i]) != Resolve(schema, rids, ms[j])
  }

  lemma {:induction false} LinkAppendAll(env: Env, rids: map<ObjectKey, Rid>, s: LinkStore, a: seq<Mention>, b: seq<Mention>)
    ensures LinkAll(env, rids, s, a + b).0 == LinkAll(env, rids, LinkAll(env, rids, s, a).0, b).0
  {
    if b == [] {
      assert a + b == a;
    } else {
      var n := |b| - 1;
      LinkAppendAll(env, rids, s, a, b[..n]);
      assert (a + b)[..|a| + n] == a + b[..n];
      assert (a + b)[|a| + n] == b[n];
    }
  }

  lemma {:induction false} OtherLinksLeaveAlone(env: Env, rids: map<ObjectKey, Rid>, s: LinkStore, ms: seq<Mention>, k: LinkKey)
    requires forall i :: 0 <= i < |ms| ==> Resolve(env.schema, rids, ms[i]) != Target(k)
    ensures var e := LinkAll(env, rids, s, ms).0;
      (k in e.weights <==> k in s.weights) && (k in s.weights ==> e.weights[k] == s.weights[k])
  {
    if ms == [] {
    } else {
      OtherLinksLeaveAlone(env, rids, s, ms[..|ms| - 1], k);
    }
  }

  lemma {:induction false} ReplayLinks(env: Env, again: Env, counts: Counts, rids: map<ObjectKey, Rid>,
                                       s: LinkStore, ms: seq<Mention>, e: LinkStore, i: nat)
    requires SameRules(env, again) && DistinctMentions(env.schema, rids, ms)
    requires i <= |ms| && e == LinkAll(env, rids, s, ms).0 && counts.links == e.total
    ensures PlanLinks(again, counts, rids, e.weights, NO_LINKS, ms[..i])
         == NO_LINKS.(rejected := LinkAll(env, rids, s, ms[..i]).1)
  {
    hide Resolve;
    if i == 0 {
    } else {
      var n := i - 1;
      ReplayLinks(env, again, counts, rids, s, ms, e, n);
      PrefixSnoc(ms, n);
      LinkKept(env, rids, s, ms, e, n);
      hide DistinctMentions;
      assert PlanLinks(again, counts, rids, e.weights, NO_LINKS, ms[..i])
        == LinkStep(again, counts, rids, e.weights, PlanLinks(again, counts, rids, e.weights, NO_LINKS, ms[..n]), ms[n]);
      var (s1, r1) := LinkAll(env, rids, s, ms[..n]);
      assert LinkAll(env, rids, s, ms[..i]).1 == r1 + LinkOne(env, rids, s1, ms[n]).1;
      hide PlanLinks, LinkAll;
      ReplayLink(env, again, counts, rids, s1, ms[n], e, r1);
    }
  }

  /** One link mention replayed on a store that kept its result plans nothing and rejects the same. */
  lemma ReplayLink(env: Env, again: Env, counts: Counts, rids: map<ObjectKey, Rid>,
                   s: LinkStore, m: Mention, e: LinkStore, rejected: seq<Reject>)
    requires SameRules(env, again) && counts.links == e.total && s.total <= e.total
    requires var s' := LinkOne(env, rids, s, m).0;
      s'.total <= e.total && (Resolve(env.schema, rids, m).Target? ==> SameWeight(s', e, Resolve(env.schema, rids, m).key))
    ensures LinkStep(again, counts, rids, e.weights, NO_LINKS.(rejected := rejected), m)
         == NO_LINKS.(rejected := rejected + LinkOne(env, rids, s, m).1)
  {
    hide Resolve;
    assert rejected + [] == rejected;
  }

  /** What the n-th mention left is still there at the end. */
  lemma LinkKept(env: Env, rids: map<ObjectKey, Rid>, s: LinkStore, ms: seq<Mention>, e: LinkStore, n: nat)
    requires n < |ms| && DistinctMentions(env.schema, rids, ms) && e == LinkAll(env, rids, s, ms).0
    ensures var s1 := LinkAll(env, rids, s, ms[..n]).0;
      var s2 := LinkOne(env, rids, s1, ms[n]).0;
      && s2 == LinkAll(env, rids, s, ms[..n + 1]).0 && s1.total <= s2.total <= e.total
      && (Resolve(env.schema, rids, ms[n]).Target? ==> SameWeight(s2, e, Resolve(env.schema, rids, ms[n]).key))
  {
    hide Resolve;
    PrefixSnoc(ms, n);
    var s2 := LinkAll(env, rids, s, ms[..n + 1]).0;
    assert s2 == LinkOne(env, rids, LinkAll(env, rids, s, ms[..n]).0, ms[n]).0;
    LinkAppendAll(env, rids, s, ms[..n + 1], ms[n + 1..]);
    assert ms[..n + 1] + ms[n + 1..] == ms;
    LinkTotalCapped(env, rids, s2, ms[n + 1..]);
    hide LinkAll;
    var r, rest := Resolve(env.schema, rids, ms[n]), ms[n + 1..];
    if r.Target? {
      forall j | 0 <= j < |rest| ensures Resolve(env.schema, rids, rest[j]) != Target(r.key) {
        assert rest[j] == ms[n + 1 + j];
      }
      OtherLinksLeaveAlone(env, rids, s2, rest, r.key);
    }
  }

  ghost predicate SameWeight(s: LinkStore, e: LinkStore, k: LinkKey) {
    (k in e.weights <==> k in s.weights) && (k in s.weights ==> e.weights[k] == s.weights[k])
  }

  // --- Replaying a batch ------------------------------------------------------------------------

  /** `again` is the same batch, planned on the objects and links that `first` left behind. */
  ghost predicate ReplayOf(first: Input, again: Input) {
    var objects := ApplyObjects(StoreOf(first), Plan(first).objects);
    var links := ApplyLinks(LinkStoreOf(first), Plan(first).links);
    && SameRules(first.env, again.env)
    && again.cmds == first.cmds
    && Known(again.existing) == objects.objects
    && again.counts.objects == objects.total
    && again.existingLinks == links.weights
    && again.counts.links == links.total
  }

  lemma SameRids(input: Input)
    ensures Rids(ObjectPhase(input).byKey).Keys == UpsertAll(input.env, StoreOf(input), input.cmds).0.objects.Keys
    ensures var e := UpsertAll(input.env, StoreOf(input), input.cmds).0;
      forall k :: k in e.objects ==> Rids(ObjectPhase(input).byKey)[k] == e.objects[k].rid
  {
    KnownKeys(input.existing);
    MirrorAll(input.env, input.counts, StoreOf(input), input.cmds);
    var st, e := ObjectPhase(input), UpsertAll(input.env, StoreOf(input), input.cmds).0;
    forall k | k in e.objects ensures Rids(st.byKey)[k] == e.objects[k].rid {
      assert EntryMirrors(StoreOf(input), st.byKey[k], st.objects, e.objects[k], k);
    }
  }

  /**
   * A retried batch plans no object and no link, repeats its rejects, and skips exactly the
   * rows that were upserted or skipped the first time.
   */
  lemma ReplayIsQuiet(first: Input, again: Input)
    requires ReplayOf(first, again)
    requires DistinctTargets(first.cmds)
    requires DistinctMentions(first.env.schema, Rids(ObjectPhase(first).byKey), Mentions(ObjectPhase(first).accepted))
    ensures Plan(again) == UpsertPlan([], [], 0, Plan(first).upserted + Plan(first).skipped, Plan(first).rejected)
  {
    PlanRefinesStore(first);
    var start, e := StoreOf(first), StoreOf(again);
    var (end, outs) := UpsertAll(first.env, start, first.cmds);
    var cmds := first.cmds;
    assert cmds[..|cmds|] == cmds;
    OutcomesOf(first);
    OutcomesOf(again);
    StoresAgree(first, again, end, e);
    ReplayTallies(cmds, outs);
    KnownKeys(again.existing);
    NoWritesNoPlan(again.env, again.counts, e, cmds);
    assert ObjectPhase(again).objects == [];
    assert ObjectPhase(again).accepted == ObjectPhase(first).accepted;
    ReplayKeepsRids(first, again, end, e);
    LinksRefineStore(first);
    var rids, ms := Rids(ObjectPhase(first).byKey), Mentions(ObjectPhase(first).accepted);
    assert ms[..|ms|] == ms;
    ReplayLinks(first.env, again.env, again.counts, rids, LinkStoreOf(first), ms,
                LinkAll(first.env, rids, LinkStoreOf(first), ms).0, |ms|);
  }

  /** Identifiers handed out before do not influence a replay: nothing is created. */
  lemma StoresAgree(first: Input, again: Input, end: Store, e: Store)
    requires ReplayOf(first, again) && DistinctTargets(first.cmds)
    requires end == UpsertAll(first.env, StoreOf(first), first.cmds).0 && e == StoreOf(again)
    ensures UpsertAll(again.env, e, first.cmds)
         == (e, ReplayedAll(UpsertAll(first.env, StoreOf(first), first.cmds).1))
  {
    PlanRefinesStore(first);
    var cmds := first.cmds;
    assert cmds[..|cmds|] == cmds;
    ReplayAll(first.env, again.env, StoreOf(first), cmds, e, |cmds|);
  }

  lemma ReplayKeepsRids(first: Input, again: Input, end: Store, e: Store)
    requires ReplayOf(first, again) && DistinctTargets(first.cmds)
    requires end == UpsertAll(first.env, StoreOf(first), first.cmds).0 && e == StoreOf(again)
    ensures Rids(ObjectPhase(again).byKey) == Rids(ObjectPhase(first).byKey)
  {
    StoresAgree(first, again, end, e);
    PlanRefinesStore(first);
    SameRids(first);
    SameRids(again);
  }

  // --- When mentions are distinct -----------------------------------------------------------------

  /** Each command mentions a target at most once per link type. */
  ghost predicate DistinctTargetsPerCmd(cmds: seq<Cmd>) {
    forall i, x, y :: 0 <= i < |cmds| && 0 <= x < y < |cmds[i].links| ==>
      (cmds[i].links[x].linkType, cmds[i].links[x].toKey) != (cmds[i].links[y].linkType, cmds[i].links[y].toKey)
  }

  ghost predicate Injective(rids: map<ObjectKey, Rid>) {
    forall a, b :: a in rids && b in rids && rids[a] == rids[b] ==> a == b
  }

  ghost predicate CameFrom(accepted: seq<Accepted>, m: Mention, x: nat, y: nat)
  {
    x < |accepted| && y < |accepted[x].cmd.links| && m == MentionsOf(accepted[x])[y]
  }

  /** The accepted command and the position in it of the i-th mention. */
  function Origin(accepted: seq<Accepted>, i: nat): (r: (nat, nat))
    requires i < |Mentions(accepted)|
    ensures CameFrom(accepted, Mentions(accepted)[i], r.0, r.1)
  {
    var n := |accepted| - 1;
    var front := |Mentions(accepted[..n])|;
    if i < front then Origin(accepted[..n], i) else (n, i - front)
  }

  lemma {:induction false} OriginsIncrease(accepted: seq<Accepted>, i: nat, j: nat)
    requires i < j < |Mentions(accepted)|
    ensures var a, b := Origin(accepted, i), Origin(accepted, j);
      a.0 < b.0 || (a.0 == b.0 && a.1 < b.1)
  {
    var n := |accepted| - 1;
    if j < |Mentions(accepted[..n])| {
      OriginsIncrease(accepted[..n], i, j);
    }
  }

  /** Accepted commands keep their order, and each carries the identifier of its object. */
  lemma {:induction false} TakenAt(env: Env, s: Store, cmds: seq<Cmd>, x: nat)
    requires DistinctTargets(cmds)
    requires |UpsertAll(env, s, cmds).1| == |cmds|
    requires x < |Taken(cmds, UpsertAll(env, s, cmds).1)|
    ensures var a := Taken(cmds, UpsertAll(env, s, cmds).1)[x];
      var k := ObjectKey(a.cmd.objType, Trim(a.cmd.primaryKey));
      && a.cmd in cmds
      && k in UpsertAll(env, s, cmds).0.objects
      && UpsertAll(env, s, cmds).0.objects[k].rid == a.rid
  {
    hide Merged, Missing, TitleOf, Source, Incoming, Trim;
    var n := |cmds| - 1;
    OutcomeCount(env, s, cmds[..n]);
    var (s1, outs) := UpsertAll(env, s, cmds[..n]);
    if x < |Taken(cmds[..n], outs)| {
      TakenAt(env, s, cmds[..n], x);
      var a := Taken(cmds[..n], outs)[x];
      var i :| 0 <= i < n && cmds[i] == a.cmd;
      assert (cmds[i].objType, Trim(cmds[i].primaryKey)) != (cmds[n].objType, Trim(cmds[n].primaryKey));
    }
  }

  lemma {:induction false} TakenOrdered(cmds: seq<Cmd>, outs: seq<Outcome>, x: nat, y: nat)
    requires |cmds| == |outs| && DistinctTargets(cmds)
    requires x < y < |Taken(cmds, outs)|
    ensures var a, b := Taken(cmds, outs)[x].cmd, Taken(cmds, outs)[y].cmd;
      (a.objType, Trim(a.primaryKey)) != (b.objType, Trim(b.primaryKey))
  {
    var n := |cmds| - 1;
    if y < |Taken(cmds[..n], outs[..n])| {
      TakenOrdered(cmds[..n], outs[..n], x, y);
    } else {
      TakenAreCommands(cmds[..n], outs[..n], x);
    }
  }

  lemma {:induction false} TakenAreCommands(cmds: seq<Cmd>, outs: seq<Outcome>, x: nat)
    requires |cmds| == |outs| && x < |Taken(cmds, outs)|
    ensures exists i :: 0 <= i < |cmds| && cmds[i] == Taken(cmds, outs)[x].cmd
  {
    var n := |cmds| - 1;
    if x < |Taken(cmds[..n], outs[..n])| {
      TakenAreCommands(cmds[..n], outs[..n], x);
      var i :| 0 <= i < n && cmds[i] == Taken(cmds[..n], outs[..n])[x].cmd;
    } else {
      assert cmds[n] == Taken(cmds, outs)[x].cmd;
    }
  }

  /**
   * A caller can see from the commands alone that no two mentions meet: distinct objects,
   * distinct targets per command, and identifiers that name one object each.
   */
  lemma MentionsAreDistinct(input: Input)
    requires DistinctTargets(input.cmds) && DistinctTargetsPerCmd(input.cmds)
    requires Injective(Rids(ObjectPhase(input).byKey))
    ensures DistinctMentions(input.env.schema, Rids(ObjectPhase(input).byKey), Mentions(ObjectPhase(input).accepted))
  {
    hide Trim, ObjectPhase, Mentions, Taken, UpsertAll, StoreOf, Tallies;
    OutcomesOf(input);
    SameRids(input);
    var schema, rids, accepted := input.env.schema, Rids(ObjectPhase(input).byKey), ObjectPhase(input).accepted;
    var ms := Mentions(accepted);
    forall i, j | 0 <= i < j < |ms|
      ensures Resolve(schema, rids, ms[i]).Unresolved? || Resolve(schema, rids, ms[i]) != Resolve(schema, rids, ms[j])
    {
      var a, b := Origin(accepted, i), Origin(accepted, j);
      OriginsIncrease(accepted, i, j);
      TakenAt(input.env, StoreOf(input), input.cmds, a.0);
      TakenAt(input.env, StoreOf(input), input.cmds, b.0);
      if a.0 < b.0 {
        TakenOrdered(input.cmds, UpsertAll(input.env, StoreOf(input), input.cmds).1, a.0, b.0);
        assert ms[i].src != ms[j].src;
      } else {
        TakenAreCommands(input.cmds, UpsertAll(input.env, StoreOf(input), input.cmds).1, a.0);
      }
    }
  }

  /** The replay theorem in terms a caller can check before sending the batch. */
  lemma RetriedBatchIsQuiet(first: Input, again: Input)
    requires ReplayOf(first, again)
    requires DistinctTargets(first.cmds) && DistinctTargetsPerCmd(first.cmds)
    requires Injective(Rids(ObjectPhase(first).byKey))
    ensures Plan(again) == UpsertPlan([], [], 0, Plan(first).upserted + Plan(first).skipped, Plan(first).rejected)
  {
    MentionsAreDistinct(first);
    ReplayIsQuiet(first, again);
  }
}
