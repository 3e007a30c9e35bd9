/**
 * What the planner and its reference store say about one command and one link mention, in terms
 * of the command, the ontology and the stored object: when it is refused and why, what a new object
 * must have, what is stored under which source and title, and what a mention links to.
 */
module UpsertMeaning {
  import opened Common
  import opened MergeProps
  import opened UpsertPlanner
  import opened UpsertStore

  // --- Texts ------------------------------------------------------------------------------------

  /** Trimming takes the spaces off both ends, and nothing else. */
  lemma {:induction false} TrimLaws(s: string) returns (i: nat, j: nat)
    ensures i <= j <= |s| && Trim(s) == s[i..j]
    ensures forall k :: 0 <= k < i || j <= k < |s| ==> IsSpace(s[k])
    ensures i < j ==> !IsSpace(s[i]) && !IsSpace(s[j - 1])
    decreases |s|
  {
    hide IsSpace;
    i, j := 0, |s|;
    if s != "" && IsSpace(s[0]) {
      i, j := TrimLaws(s[1..]);
      assert s[1..][i..j] == s[i + 1..j + 1];
      assert forall k :: 0 < k < |s| ==> s[k] == s[1..][k - 1];
      i, j := i + 1, j + 1;
    } else if s != "" && IsSpace(s[|s| - 1]) {
      i, j := TrimLaws(s[..|s| - 1]);
      assert s[..|s| - 1][i..j] == s[i..j];
      assert forall k :: 0 <= k < |s| - 1 ==> s[k] == s[..|s| - 1][k];
    } else {
      assert s[0..|s|] == s;
    }
  }

  /** `join(',')`: parts side by side, a comma between two. */
  lemma {:induction false} JoinCommaLaws(a: seq<string>, b: seq<string>, x: string)
    ensures JoinComma([]) == "" && JoinComma([x]) == x
    ensures a != [] && b != [] ==> JoinComma(a + b) == JoinComma(a) + "," + JoinComma(b)
  {
    if a != [] && b != [] {
      var n := |b| - 1;
      assert (a + b)[..|a + b| - 1] == a + b[..n] && (a + b)[|a + b| - 1] == b[n];
      if n == 0 {
        assert a + b[..0] == a;
      } else {
        JoinCommaLaws(a, b[..n], x);
        assert JoinComma(a) + "," + JoinComma(b[..n]) + "," + b[n] == JoinComma(a) + "," + (JoinComma(b[..n]) + "," + b[n]);
      }
    }
  }

  // --- Which commands are refused -----------------------------------------------------------------

  /** A value that a command or a validation brings for a name: present, and neither null nor the empty text. */
  ghost predicate Given(props: Props, name: string) {
    name in props && props[name] != JNull && props[name] != JStr("")
  }

  ghost predicate Declares(t: ObjType, name: string) {
    exists i :: 0 <= i < |t.properties| && t.properties[i].apiName == name
  }

  /** What is validated: the values given, and the key where its property is declared but not given. */
  ghost predicate ToValidate(t: ObjType, cmd: Cmd, pk: string, incoming: Props) {
    forall name ::
      var asKey := name == t.primaryKey && Declares(t, name) && !Given(cmd.props, name);
      && (name in incoming <==> Given(cmd.props, name) || asKey)
      && (name in incoming ==> incoming[name] == if asKey then JStr(pk) else cmd.props[name])
  }

  /** Each error as property and code. */
  function Labelled(errors: seq<(string, string)>): (r: seq<string>)
    ensures |r| == |errors| && forall i :: 0 <= i < |r| ==> r[i] == errors[i].0 + ":" + errors[i].1
  {
    seq(|errors|, i requires 0 <= i < |errors| => errors[i].0 + ":" + errors[i].1)
  }

  /**
   * A command is refused for an unknown type, then for an empty trimmed key, then for the errors of
   * validating what it gives, all of them named; otherwise it goes on under its type and trimmed key.
   */
  lemma PreparedExactly(schema: Schema, cmd: Cmd) returns (incoming: Props)
    ensures var p := Prepare(schema, cmd);
      if cmd.objType !in schema.objectTypes then p == Refused(Reject(cmd.row, UnknownType, ""))
      else
        var t := schema.objectTypes[cmd.objType];
        if Trim(cmd.primaryKey) == "" then p == Refused(Reject(cmd.row, Invalid, t.primaryKey + ":REQUIRED"))
        else
          var v := schema.validate(t, incoming);
          && ToValidate(t, cmd, Trim(cmd.primaryKey), incoming)
          && (v.errors == [] ==> p == Ready(t, Trim(cmd.primaryKey), ObjectKey(cmd.objType, Trim(cmd.primaryKey)), v.props))
          && (v.errors != [] ==> p == Refused(Reject(cmd.row, Invalid, JoinComma(Labelled(v.errors)))))
  {
    incoming := map[];
    if cmd.objType in schema.objectTypes && Trim(cmd.primaryKey) != "" {
      var t := schema.objectTypes[cmd.objType];
      incoming := Incoming(t, cmd.props, Trim(cmd.primaryKey));
      IncomingExactly(t, cmd, Trim(cmd.primaryKey));
      ErrorsNamed(schema.validate(t, incoming).errors);
      hide Trim, Incoming, ToValidate, ErrorText, JoinComma;
    }
  }

  lemma IncomingExactly(t: ObjType, cmd: Cmd, pk: string)
    ensures ToValidate(t, cmd, pk, Incoming(t, cmd.props, pk))
  {
    assert HasProp(t, t.primaryKey) <==> Declares(t, t.primaryKey);
  }

  lemma ErrorsNamed(errors: seq<(string, string)>)
    ensures ErrorText(errors) == JoinComma(Labelled(errors))
  {
    assert seq(|errors|, i requires 0 <= i < |errors| => errors[i].0 + ":" + errors[i].1) == Labelled(errors);
  }

  // --- What a new object must have ------------------------------------------------------------------

  /** A required property for which no value is given. */
  ghost predicate Lacks(t: ObjType, props: Entries, j: nat) {
    && j < |t.properties| && t.properties[j].required
    && forall i :: 0 <= i < |props| && props[i].0 == t.properties[j].apiName ==> props[i].1 == JNull || props[i].1 == JStr("")
  }

  /** The places of the properties that are lacking, in order. */
  ghost predicate AllLacking(t: ObjType, props: Entries, js: seq<nat>) {
    && (forall k :: 0 <= k < |js| ==> Lacks(t, props, js[k]))
    && (forall k, l :: 0 <= k < l < |js| ==> js[k] < js[l])
    && (forall j: nat :: Lacks(t, props, j) ==> j in js)
  }

  lemma NewState(props: Entries, source: Provenance, name: string)
    ensures var o := Merged(EMPTY_STATE, props, source);
      && (name in o.state.props && !IsEmptyValue(o.state.props[name]) <==> Supplied(props, name))
      && (name in o.state.props <==> Supplied(props, name))
      && (name in o.state.props ==> Supplies(props, name, o.state.props[name]) && name in o.state.provenance
                                    && o.state.provenance[name] == source)
      && (name in o.changed <==> Supplied(props, name))
  {
    MergeMeaning(EMPTY_STATE, props, source);
    hide Merged;
    if Supplied(props, name) {
      var i :| 0 <= i < |props| && props[i].0 == name && !IsEmptyValue(props[i].1);
      assert Supplies(props, name, props[i].1);
    }
  }

  /** The texts that name missing properties. */
  function Names(t: ObjType, js: seq<nat>): (r: seq<string>)
    requires forall k :: 0 <= k < |js| ==> js[k] < |t.properties|
    ensures |r| == |js| && forall k :: 0 <= k < |js| ==> r[k] == t.properties[js[k]].apiName + ":REQUIRED"
  {
    seq(|js|, k requires 0 <= k < |js| => t.properties[js[k]].apiName + ":REQUIRED")
  }

  lemma LackingIs(t: ObjType, props: Entries, source: Provenance, j: nat)
    requires j < |t.properties|
    ensures var state, p := Merged(EMPTY_STATE, props, source).state.props, t.properties[j];
      Lacks(t, props, j) <==> p.required && (p.apiName !in state || IsEmptyValue(state[p.apiName]))
  {
    NewState(props, source, t.properties[j].apiName);
    hide Merged;
  }

  lemma {:induction false} MissingByPlace(t: ObjType, props: Entries, source: Provenance, n: nat) returns (js: seq<nat>)
    requires n <= |t.properties|
    ensures forall k :: 0 <= k < |js| ==> js[k] < n && Lacks(t, props, js[k])
    ensures forall k, l :: 0 <= k < l < |js| ==> js[k] < js[l]
    ensures forall j: nat :: j < n && Lacks(t, props, j) ==> j in js
    ensures Missing(t.properties[..n], Merged(EMPTY_STATE, props, source).state.props) == Names(t, js)
  {
    js := [];
    if n > 0 {
      js := MissingByPlace(t, props, source, n - 1);
      PrefixSnoc(t.properties, n - 1);
      LackingIs(t, props, source, n - 1);
      hide Merged, Lacks;
      var front := js;
      if Lacks(t, props, n - 1) {
        js := js + [n - 1];
        assert js[|front|] == n - 1;
        assert Names(t, js) == Names(t, front) + [t.properties[n - 1].apiName + ":REQUIRED"];
      }
      assert forall j :: j in front ==> j in js;
    }
  }

  /**
   * A command for an object that the store does not hold is denied exactly when it lacks a required
   * property, naming all of them in order, or else when there is no room; otherwise the object is
   * stored under the next identifier.
   */
  lemma NewObjects(env: Env, s: Store, cmd: Cmd) returns (js: seq<nat>)
    requires Prepare(env.schema, cmd).Ready? && Prepare(env.schema, cmd).key !in s.objects
    ensures var p := Prepare(env.schema, cmd); var (after, out) := UpsertOne(env, s, cmd);
      && AllLacking(p.objType, p.props, js)
      && (out.Denied? <==> js != [] || s.total >= env.maxObjects)
      && (js != [] ==> out == Denied(Reject(cmd.row, Invalid, JoinComma(Names(p.objType, js)))))
      && (js == [] && s.total >= env.maxObjects ==> out == Denied(Reject(cmd.row, ObjectLimit, "")))
      && (out.Denied? ==> after == s)
      && (!out.Denied? ==>
            && out.Wrote? && out.key == p.key && out.rid == env.newRid(cmd.objType, s.created)
            && after.total == s.total + 1 && after.created == s.created + 1
            && after.objects.Keys == s.objects.Keys + {p.key})
  {
    var p := Prepare(env.schema, cmd);
    js := MissingByPlace(p.objType, p.props, Source(env, cmd), |p.objType.properties|);
    assert p.objType.properties[..|p.objType.properties|] == p.objType.properties;
    assert Names(p.objType, js) == [] <==> js == [];
    hide Prepare, Merged, Lacks, JoinComma, TitleOf;
  }

  // --- What is stored ---------------------------------------------------------------------------------

  /** The title: the title property's text, or its JSON text, or the key when it has no value. */
  ghost predicate TitledBy(schema: Schema, t: ObjType, o: Obj) {
    if !Given(o.state.props, t.titleProperty) then o.title == o.primaryKey
    else
      match o.state.props[t.titleProperty]
      case JStr(s) => o.title == s
      case v => o.title == schema.stringify(v)
  }

  /** What a command that wrote left of one property: the value it gave, under its own source, or what was there. */
  ghost predicate PropertyStored(env: Env, cmd: Cmd, props: Entries, was: PropState, now: PropState, changed: seq<string>, name: string) {
    && (forall i :: 0 <= i < |props| && props[i].0 == name && props[i].1 != JNull && props[i].1 != JStr("") ==>
          name in now.props && now.props[name] == props[i].1)
    && ((forall i :: 0 <= i < |props| && props[i].0 == name ==> props[i].1 == JNull || props[i].1 == JStr("")) ==>
          Same(was.props, now.props, name))
    && (name in changed <==> !Same(was.props, now.props, name))
    && (name in changed ==> name in now.provenance && now.provenance[name] == Provenance(env.jobId, cmd.row, env.nowMs))
    && (name !in changed ==> Same(was.provenance, now.provenance, name))
  }

  /**
   * What one command does to the stored object, property by property: it writes exactly when some
   * value it gives differs, or the object is new, and then title, values and sources are its own;
   * the identifier and every other object stay.
   */
  lemma StoredByCommand(env: Env, s: Store, cmd: Cmd, name: string)
    requires Prepare(env.schema, cmd).Ready?
    ensures var p := Prepare(env.schema, cmd); var (after, out) := UpsertOne(env, s, cmd);
      && (forall k :: k in s.objects && k != p.key ==> k in after.objects && after.objects[k] == s.objects[k])
      && (out.Unchanged? ==>
            && after == s && p.key in s.objects && out.rid == s.objects[p.key].rid
            && PropertyStored(env, cmd, p.props, s.objects[p.key].state, s.objects[p.key].state, [], name))
      && (out.Wrote? ==>
            && out.key == p.key && p.key in after.objects
            && var o := after.objects[p.key];
            && o.rid == out.rid && TitledBy(env.schema, p.objType, o)
            && PropertyStored(env, cmd, p.props, if p.key in s.objects then s.objects[p.key].state else EMPTY_STATE,
                              o.state, out.changed, name)
            && (p.key in s.objects ==> o.rid == s.objects[p.key].rid && o.primaryKey == s.objects[p.key].primaryKey && out.changed != [])
            && (p.key !in s.objects ==> o.objType == cmd.objType && o.primaryKey == p.primaryKey))
  {
    var p := Prepare(env.schema, cmd);
    var was := if p.key in s.objects then s.objects[p.key].state else EMPTY_STATE;
    hide Prepare, Missing, JoinComma;
    PropertyMerged(env, cmd, p.props, was, name);
    if Merged(was, p.props, Source(env, cmd)).changed == [] {
      PropertyKept(env, cmd, p.props, was, name);
    }
    hide Merged, PropertyStored;
  }

  lemma PropertyKept(env: Env, cmd: Cmd, props: Entries, was: PropState, name: string)
    requires Merged(was, props, Source(env, cmd)).changed == []
    ensures PropertyStored(env, cmd, props, was, was, [], name)
  {
    PropertyMerged(env, cmd, props, was, name);
    hide Merged;
  }

  lemma PropertyMerged(env: Env, cmd: Cmd, props: Entries, was: PropState, name: string)
    ensures var o := Merged(was, props, Source(env, cmd)); PropertyStored(env, cmd, props, was, o.state, o.changed, name)
  {
    MergeMeaning(was, props, Source(env, cmd));
    var o := Merged(was, props, Source(env, cmd));
    hide Merged;
    forall i | 0 <= i < |props| && props[i].0 == name && props[i].1 != JNull && props[i].1 != JStr("")
      ensures name in o.state.props && o.state.props[name] == props[i].1
    {
      assert props[i] in props && Supplies(props, name, props[i].1);
    }
    if forall i :: 0 <= i < |props| && props[i].0 == name ==> props[i].1 == JNull || props[i].1 == JStr("") {
      assert !Supplied(props, name);
    }
  }

  // --- Every new object is complete ---------------------------------------------------------------------

  /** The object has a value for every required property of its type. */
  ghost predicate Complete(schema: Schema, o: Obj) {
    && o.objType in schema.objectTypes
    && var t := schema.objectTypes[o.objType];
       forall j :: 0 <= j < |t.properties| && t.properties[j].required ==> Given(o.state.props, t.properties[j].apiName)
  }

  lemma PreparedType(schema: Schema, cmd: Cmd)
    requires Prepare(schema, cmd).Ready?
    ensures var p := Prepare(schema, cmd);
      cmd.objType in schema.objectTypes && p.objType == schema.objectTypes[cmd.objType] && p.key.objType == cmd.objType
  {
  }

  lemma GivenStays(was: PropState, props: Entries, source: Provenance, name: string)
    requires Given(was.props, name)
    ensures Given(Merged(was, props, source).state.props, name)
  {
    MergeMeaning(was, props, source);
    hide Merged;
    if Supplied(props, name) {
      var i :| 0 <= i < |props| && props[i].0 == name && !IsEmptyValue(props[i].1);
      assert Supplies(props, name, props[i].1);
    }
  }

  lemma StepComplete(env: Env, s: Store, cmd: Cmd, k: ObjectKey)
    requires KeysFit(s.objects) && (k in s.objects ==> Complete(env.schema, s.objects[k]))
    ensures var after := UpsertOne(env, s, cmd).0; k in after.objects ==> Complete(env.schema, after.objects[k])
  {
    var p := Prepare(env.schema, cmd);
    if p.Ready? && p.key == k {
      PreparedType(env.schema, cmd);
      var was := if k in s.objects then s.objects[k].state else EMPTY_STATE;
      var now := Merged(was, p.props, Source(env, cmd)).state;
      forall j | 0 <= j < |p.objType.properties| && p.objType.properties[j].required
        ensures k in s.objects ==> Given(now.props, p.objType.properties[j].apiName)
        ensures k !in s.objects && Missing(p.objType.properties, now.props) == [] ==> Given(now.props, p.objType.properties[j].apiName)
      {
        if k in s.objects {
          GivenStays(was, p.props, Source(env, cmd), p.objType.properties[j].apiName);
        } else if Missing(p.objType.properties, now.props) == [] {
          NoneMissing(p.objType.properties, now.props, j);
        }
      }
      hide Prepare, Merged, Missing, JoinComma, TitleOf, Given;
    }
  }

  lemma {:induction false} NoneMissing(properties: seq<PropDef>, props: Props, j: nat)
    requires j < |properties| && properties[j].required && Missing(properties, props) == []
    ensures Given(props, properties[j].apiName)
  {
    var n := |properties| - 1;
    if j < n {
      NoneMissing(properties[..n], props, j);
    }
  }

  lemma StepKeysFit(env: Env, s: Store, cmd: Cmd)
    requires KeysFit(s.objects)
    ensures KeysFit(UpsertOne(env, s, cmd).0.objects)
  {
    hide Merged, Missing, JoinComma, TitleOf;
  }

  lemma {:induction false} CreatedComplete(env: Env, s: Store, cmds: seq<Cmd>, k: ObjectKey)
    requires KeysFit(s.objects) && (k in s.objects ==> Complete(env.schema, s.objects[k]))
    ensures var end := UpsertAll(env, s, cmds).0; KeysFit(end.objects) && (k in end.objects ==> Complete(env.schema, end.objects[k]))
  {
    if cmds != [] {
      var n := |cmds| - 1;
      CreatedComplete(env, s, cmds[..n], k);
      hide UpsertOne, KeysFit, Complete;
      StepComplete(env, UpsertAll(env, s, cmds[..n]).0, cmds[n], k);
      StepKeysFit(env, UpsertAll(env, s, cmds[..n]).0, cmds[n]);
    }
  }

  /** Every object that a plan creates has a value for every required property of its type. */
  lemma NewObjectsAreComplete(input: Input, i: nat)
    requires i < |Plan(input).objects| && Plan(input).objects[i].isNew
    ensures Complete(input.env.schema, Written(Plan(input).objects[i]))
  {
    var st, start := ObjectPhase(input), StoreOf(input);
    var o := st.objects[i];
    KnownKeys(input.existing);
    MirrorAll(input.env, input.counts, start, input.cmds);
    var end := UpsertAll(input.env, start, input.cmds).0;
    assert PlanMirrors(st.byKey, st.objects, i);
    var k := KeyOf(o);
    assert EntryMirrors(start, st.byKey[k], st.objects, end.objects[k], k);
    assert k !in start.objects && end.objects[k] == Written(o);
    hide UpsertAll, ObjectPhase, Known;
    CreatedComplete(input.env, start, input.cmds, k);
  }

  // --- What a planned object lists -------------------------------------------------------------------------

  lemma {:induction false} NamesAdded(names: seq<string>, more: seq<string>, x: string)
    ensures names <= AddNames(names, more) && (x in AddNames(names, more) <==> x in names || x in more)
    ensures Distinct(names) ==> Distinct(AddNames(names, more))
  {
    if more != [] {
      var n := |more| - 1;
      NamesAdded(names, more[..n], x);
      NamesAdded(names, more[..n], more[n]);
      assert more == more[..n] + [more[n]];
    }
  }

  /** Some command of the outcomes wrote the object and changed the property. */
  ghost predicate ChangedBy(outs: seq<Outcome>, k: ObjectKey, name: string) {
    exists j :: 0 <= j < |outs| && outs[j].Wrote? && outs[j].key == k && name in outs[j].changed
  }

  lemma {:induction false} ChangesNamed(outs: seq<Outcome>, k: ObjectKey, name: string)
    ensures name in ChangesOf(outs, k) <==> ChangedBy(outs, k, name)
    ensures Distinct(ChangesOf(outs, k))
  {
    if outs != [] {
      var n := |outs| - 1;
      ChangesNamed(outs[..n], k, name);
      if outs[n].Wrote? {
        NamesAdded(ChangesOf(outs[..n], k), outs[n].changed, name);
      }
      if ChangedBy(outs[..n], k, name) {
        var j :| 0 <= j < n && outs[..n][j].Wrote? && outs[..n][j].key == k && name in outs[..n][j].changed;
        assert outs[j].Wrote? && outs[j].key == k && name in outs[j].changed;
      }
      if ChangedBy(outs, k, name) {
        var j :| 0 <= j < |outs| && outs[j].Wrote? && outs[j].key == k && name in outs[j].changed;
        assert j < n ==> outs[..n][j] == outs[j];
      }
      hide AddNames;
    }
  }

  /** A planned object lists, once each, exactly the properties that some command of the batch changed on it. */
  lemma ChangedExactly(input: Input, i: nat, name: string)
    requires i < |Plan(input).objects|
    ensures var o, outs := Plan(input).objects[i], UpsertAll(input.env, StoreOf(input), input.cmds).1;
      Distinct(o.changed) && (name in o.changed <==> ChangedBy(outs, KeyOf(o), name))
  {
    var st, start := ObjectPhase(input), StoreOf(input);
    KnownKeys(input.existing);
    MirrorAll(input.env, input.counts, start, input.cmds);
    TallyAll(input.env, input.counts, start, input.cmds);
    var outs := UpsertAll(input.env, start, input.cmds).1;
    assert PlanMirrors(st.byKey, st.objects, i);
    var k := KeyOf(st.objects[i]);
    assert JournalFits(st, input.cmds, outs, k);
    hide UpsertAll, ObjectPhase, Known;
    ChangesNamed(outs, k, name);
  }

  // --- Links --------------------------------------------------------------------------------------------

  /** The mentions of the accepted commands: command by command, and for each its links in order, with its row, type and object. */
  lemma {:induction false} MentionPlace(accepted: seq<Accepted>, i: nat, j: nat)
    requires i < |accepted| && j < |accepted[i].cmd.links|
    ensures var ms, at, a := Mentions(accepted), |Mentions(accepted[..i])| + j, accepted[i];
      at < |ms| && ms[at] == Mention(a.cmd.row, a.cmd.objType, a.rid, a.cmd.links[j])
    ensures |Mentions(accepted[..i + 1])| == |Mentions(accepted[..i])| + |accepted[i].cmd.links|
  {
    PrefixSnoc(accepted, i);
    var n := |accepted| - 1;
    if i < n {
      MentionPlace(accepted[..n], i, j);
      assert accepted[..n][..i] == accepted[..i];
    } else {
      assert accepted[..i + 1] == accepted;
    }
  }

  /**
   * A mention links its object to the one of the named type and key exactly when the link type is
   * declared from the one type to the other and that object is known; if not, which of the two fails is said.
   */
  lemma ResolvedExactly(schema: Schema, rids: map<ObjectKey, Rid>, m: Mention)
    ensures var r, l := Resolve(schema, rids, m), m.link;
      var declared := l.linkType in schema.linkTypes
        && schema.linkTypes[l.linkType].from == m.objType && schema.linkTypes[l.linkType].to == l.toType;
      && (r.Target? <==> declared && exists k :: k in rids && k.objType == l.toType && k.primaryKey == l.toKey)
      && (r.Target? ==> r.key.src == m.src && r.key.linkType == l.linkType)
      && (forall k :: r.Target? && k in rids && k.objType == l.toType && k.primaryKey == l.toKey ==> r.key.dst == rids[k])
      && (!declared ==> r == Unresolved(Reject(m.row, Invalid, "link:" + l.linkType)))
      && (declared && r.Unresolved? ==> r == Unresolved(Reject(m.row, RefMissing, l.linkType + "->" + l.toType)))
  {
    if k :| k in rids && k.objType == m.link.toType && k.primaryKey == m.link.toKey {
      assert k == ObjectKey(m.link.toType, m.link.toKey);
    }
    assert ObjectKey(m.link.toType, m.link.toKey) in rids ==>
      exists k :: k in rids && k.objType == m.link.toType && k.primaryKey == m.link.toKey;
  }
}
