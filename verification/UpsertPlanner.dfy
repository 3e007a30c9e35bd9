/**
 * Write planning for one upsert batch (entity_resolution.ts): latest-wins merges into a
 * working map, creations inside the batch, link resolution with forward references,
 * workspace caps and ordinals. The planner is a method over mutable locals; `Plan` is the
 * function it computes, and UpsertStore relates that function to a store that handles one
 * command at a time.
 */
module UpsertPlanner {
  import opened Common
  import opened MergeProps
  import opened Sorting

  type Rid = string

  datatype PropDef = PropDef(apiName: string, required: bool)

  datatype ObjType = ObjType(primaryKey: string, titleProperty: string, properties: seq<PropDef>)

  datatype LinkDef = LinkDef(from: string, to: string)

  datatype Validation = Validation(props: Entries, errors: seq<(string, string)>)

  /**
   * A compiled ontology. Validation and coercion of property values and the JSON text of
   * a value are parameters: nothing but their being functions is used.
   */
  datatype Schema = Schema(
    objectTypes: map<string, ObjType>,
    linkTypes: map<string, LinkDef>,
    validate: (ObjType, Props) -> Validation,
    stringify: Json -> string)

  datatype LinkMention = LinkMention(linkType: string, toType: string, toKey: string, weight: Option<real>)

  datatype Cmd = Cmd(objType: string, primaryKey: string, props: Props, row: int, links: seq<LinkMention>)

  datatype Obj = Obj(rid: Rid, objType: string, primaryKey: string, title: string, state: PropState)

  datatype Code = UnknownType | Invalid | ObjectLimit | RefMissing | LinkLimit

  datatype Reject = Reject(row: int, code: Code, detail: string)

  datatype PlannedObject = PlannedObject(
    rid: Rid, objType: string, primaryKey: string, title: string, state: PropState,
    isNew: bool, newOrdinal: Option<nat>, changed: seq<string>, rows: seq<int>)

  datatype LinkKey = LinkKey(src: Rid, linkType: string, dst: Rid)

  datatype PlannedLink = PlannedLink(
    key: LinkKey, weight: Option<real>, isNew: bool, newOrdinal: Option<nat>, row: int)

  datatype UpsertPlan = UpsertPlan(
    objects: seq<PlannedObject>, links: seq<PlannedLink>,
    upserted: nat, skipped: nat, rejected: seq<Reject>)

  /** What does not depend on the stored data. `newRid` names the n-th object created. */
  datatype Env = Env(
    schema: Schema, maxObjects: int, maxLinks: int,
    jobId: string, nowMs: int, newRid: (string, nat) -> Rid)

  /** The workspace totals, and how many identifiers were handed out before. */
  datatype Counts = Counts(objects: nat, links: nat, created: nat)

  datatype Input = Input(
    env: Env, cmds: seq<Cmd>, existing: seq<Obj>,
    existingLinks: map<LinkKey, Option<real>>, counts: Counts)

  // --- Keys -------------------------------------------------------------------

  const SEPARATOR := '\U{001f}'

  /** An object identity. */
  datatype ObjectKey = ObjectKey(objType: string, primaryKey: string) {
    /** The text under which the working map files it. */
    function Text(): string {
      objType + [SEPARATOR] + primaryKey
    }
  }

  function BeforeSeparator(text: string): string {
    if text == "" || text[0] == SEPARATOR then "" else [text[0]] + BeforeSeparator(text[1..])
  }

  lemma {:induction false} BeforeSeparatorOf(objType: string, rest: string)
    requires SEPARATOR !in objType
    ensures BeforeSeparator(objType + [SEPARATOR] + rest) == objType
  {
    if objType == "" {
    } else {
      BeforeSeparatorOf(objType[1..], rest);
      assert (objType + [SEPARATOR] + rest)[1..] == objType[1..] + [SEPARATOR] + rest;
    }
  }

  /** Filing by text is filing by identity, because type names hold no separator. */
  lemma KeyTextInjective(a: ObjectKey, b: ObjectKey)
    requires SEPARATOR !in a.objType && SEPARATOR !in b.objType
    ensures a.Text() == b.Text() <==> a == b
  {
    BeforeSeparatorOf(a.objType, a.primaryKey);
    BeforeSeparatorOf(b.objType, b.primaryKey);
    assert a.primaryKey == a.Text()[|a.objType| + 1..];
    assert b.primaryKey == b.Text()[|b.objType| + 1..];
  }

  /** Filing links by text is filing by key, because identifiers and link types hold no separator. */
  lemma LinkTextInjective(a: LinkKey, b: LinkKey)
    requires SEPARATOR !in a.src && SEPARATOR !in b.src && SEPARATOR !in a.linkType && SEPARATOR !in b.linkType
    ensures LinkText(a) == LinkText(b) <==> a == b
  {
    KeyTextInjective(ObjectKey(a.src, a.linkType + [SEPARATOR] + a.dst), ObjectKey(b.src, b.linkType + [SEPARATOR] + b.dst));
    KeyTextInjective(ObjectKey(a.linkType, a.dst), ObjectKey(b.linkType, b.dst));
  }

  /** The text under which planned and stored links are filed. */
  function LinkText(k: LinkKey): string {
    ObjectKey(k.src, ObjectKey(k.linkType, k.dst).Text()).Text()
  }

  /** The characters that `String.prototype.trim` removes. */
  predicate IsSpace(c: char) {
    c in " \t\n\r\U{000b}\U{000c}\U{00a0}\U{1680}\U{2028}\U{2029}\U{202f}\U{205f}\U{3000}\U{feff}"
    || '\U{2000}' <= c <= '\U{200a}'
  }

  function Trim(s: string): string {
    if s == "" then ""
    else if IsSpace(s[0]) then Trim(s[1..])
    else if IsSpace(s[|s| - 1]) then Trim(s[..|s| - 1])
    else s
  }

  function JoinComma(parts: seq<string>): string {
    if parts == [] then ""
    else if |parts| == 1 then parts[0]
    else JoinComma(parts[..|parts| - 1]) + "," + parts[|parts| - 1]
  }

  // --- One command, up to the merge ------------------------------------------

  datatype Prepared =
    | Refused(reject: Reject)
    | Ready(objType: ObjType, primaryKey: string, key: ObjectKey, props: Entries)

  predicate HasProp(t: ObjType, name: string) {
    exists i :: 0 <= i < |t.properties| && t.properties[i].apiName == name
  }

  function Incoming(t: ObjType, props: Props, pk: string): Props {
    var kept := map k | k in props && !IsEmptyValue(props[k]) :: props[k];
    if HasProp(t, t.primaryKey) && t.primaryKey !in kept then kept[t.primaryKey := JStr(pk)] else kept
  }

  function ErrorText(errors: seq<(string, string)>): string {
    JoinComma(seq(|errors|, i requires 0 <= i < |errors| => errors[i].0 + ":" + errors[i].1))
  }

  function Prepare(schema: Schema, cmd: Cmd): Prepared {
    if cmd.objType !in schema.objectTypes then Refused(Reject(cmd.row, UnknownType, ""))
    else
      var t := schema.objectTypes[cmd.objType];
      var pk := Trim(cmd.primaryKey);
      if pk == "" then Refused(Reject(cmd.row, Invalid, t.primaryKey + ":REQUIRED"))
      else
        var v := schema.validate(t, Incoming(t, cmd.props, pk));
        if v.errors != [] then Refused(Reject(cmd.row, Invalid, ErrorText(v.errors)))
        else Ready(t, pk, ObjectKey(cmd.objType, pk), v.props)
  }

  /** Required properties the merged state leaves empty, in declaration order. */
  function Missing(properties: seq<PropDef>, props: Props): seq<string> {
    if properties == [] then []
    else
      var n := |properties| - 1;
      var p := properties[n];
      Missing(properties[..n], props)
      + if p.required && (p.apiName !in props || IsEmptyValue(props[p.apiName])) then [p.apiName + ":REQUIRED"] else []
  }

  function TitleOf(schema: Schema, t: ObjType, props: Props, pk: string): string {
    if t.titleProperty !in props || IsEmptyValue(props[t.titleProperty]) then pk
    else
      match props[t.titleProperty]
      case JStr(s) => s
      case v => schema.stringify(v)
  }

  // --- Object phase -----------------------------------------------------------

  /** A working entry; `planned` is the position of its planned write, if any. */
  datatype Working = Working(
    rid: Rid, objType: string, primaryKey: string, state: PropState, isNew: bool, planned: Option<nat>)

  datatype Accepted = Accepted(cmd: Cmd, rid: Rid)

  datatype Phase = Phase(
    byKey: map<ObjectKey, Working>, objects: seq<PlannedObject>, accepted: seq<Accepted>,
    newObjects: nat, upserted: nat, skipped: nat, rejected: seq<Reject>)

  function Known(existing: seq<Obj>): map<ObjectKey, Obj> {
    if existing == [] then map[]
    else
      var o := existing[|existing| - 1];
      Known(existing[..|existing| - 1])[ObjectKey(o.objType, o.primaryKey) := o]
  }

  function Loaded(o: Obj): Working {
    Working(o.rid, o.objType, o.primaryKey, o.state, false, None)
  }

  function StartPhase(existing: map<ObjectKey, Obj>): Phase {
    Phase(map k | k in existing :: Loaded(existing[k]), [], [], 0, 0, 0, [])
  }

  function Source(env: Env, cmd: Cmd): Provenance {
    Provenance(env.jobId, cmd.row, env.nowMs)
  }

  function AddNames(names: seq<string>, more: seq<string>): seq<string> {
    if more == [] then names
    else
      var n := |more| - 1;
      var front := AddNames(names, more[..n]);
      if more[n] in front then front else front + [more[n]]
  }

  /** Positions stored in the working map stay inside the planned list. */
  ghost predicate PlannedInRange(st: Phase) {
    forall k :: k in st.byKey && st.byKey[k].planned.Some? ==> st.byKey[k].planned.value < |st.objects|
  }

  /** Accepts `cmd` for the working entry `w`, whose merged properties are `merged`. */
  function Accept(env: Env, st: Phase, cmd: Cmd, p: Prepared, w: Working, merged: MergeOutcome): Phase
    requires p.Ready?
    requires w.planned.Some? ==> w.planned.value < |st.objects|
  {
    var st1 := st.(accepted := st.accepted + [Accepted(cmd, w.rid)]);
    if merged.changed == [] && (!w.isNew || w.planned.Some?) then
      st1.(skipped := st.skipped + 1)
    else
      var at := if w.planned.Some? then w.planned.value else |st.objects|;
      var before :=
        if w.planned.Some? then st.objects[at]
        else PlannedObject(w.rid, w.objType, w.primaryKey, "", merged.state, w.isNew,
                           if w.isNew then Some(st.newObjects) else None, [], []);
      var after := before.(
        state := merged.state,
        title := TitleOf(env.schema, p.objType, merged.state.props, w.primaryKey),
        rows := before.rows + [cmd.row],
        changed := AddNames(before.changed, merged.changed));
      st1.(
        byKey := st.byKey[p.key := w.(state := merged.state, planned := Some(at))],
        objects := if w.planned.Some? then st.objects[at := after] else st.objects + [after],
        upserted := st.upserted + 1)
  }

  /** A command for an object that neither the store nor the batch knows. */
  function PlanNew(env: Env, counts: Counts, st: Phase, cmd: Cmd, p: Prepared): Phase
    requires p.Ready?
  {
    var merged := Merged(EMPTY_STATE, p.props, Source(env, cmd));
    var missing := Missing(p.objType.properties, merged.state.props);
    if missing != [] then
      st.(rejected := st.rejected + [Reject(cmd.row, Invalid, JoinComma(missing))])
    else if counts.objects + st.newObjects + 1 > env.maxObjects then
      st.(rejected := st.rejected + [Reject(cmd.row, ObjectLimit, "")])
    else
      var w := Working(env.newRid(cmd.objType, counts.created + st.newObjects),
                       cmd.objType, p.primaryKey, EMPTY_STATE, true, None);
      Accept(env, st.(newObjects := st.newObjects + 1), cmd, p, w, merged)
  }

  function PlanStep(env: Env, counts: Counts, st: Phase, cmd: Cmd): Phase
    requires PlannedInRange(st)
  {
    var p := Prepare(env.schema, cmd);
    if p.Refused? then st.(rejected := st.rejected + [p.reject])
    else if p.key in st.byKey then
      var w := st.byKey[p.key];
      Accept(env, st, cmd, p, w, Merged(w.state, p.props, Source(env, cmd)))
    else PlanNew(env, counts, st, cmd, p)
  }

  function PlanObjects(env: Env, counts: Counts, st: Phase, cmds: seq<Cmd>): (r: Phase)
    requires PlannedInRange(st)
    ensures PlannedInRange(r)
  {
    if cmds == [] then st
    else
      var n := |cmds| - 1;
      PlanStep(env, counts, PlanObjects(env, counts, st, cmds[..n]), cmds[n])
  }

  // --- Link phase -------------------------------------------------------------

  /** One link of an accepted command. */
  datatype Mention = Mention(row: int, objType: string, src: Rid, link: LinkMention)

  datatype LinkPhase = LinkPhase(
    links: seq<PlannedLink>, index: map<LinkKey, nat>, newLinks: nat, rejected: seq<Reject>)

  const NO_LINKS := LinkPhase([], map[], 0, [])

  function MentionsOf(a: Accepted): seq<Mention> {
    seq(|a.cmd.links|, i requires 0 <= i < |a.cmd.links| => Mention(a.cmd.row, a.cmd.objType, a.rid, a.cmd.links[i]))
  }

  function Mentions(accepted: seq<Accepted>): seq<Mention> {
    if accepted == [] then []
    else Mentions(accepted[..|accepted| - 1]) + MentionsOf(accepted[|accepted| - 1])
  }

  datatype Resolved = Unresolved(reject: Reject) | Target(key: LinkKey)

  /** Resolves a mention among `rids`, the identifiers by object key after the object phase. */
  function Resolve(schema: Schema, rids: map<ObjectKey, Rid>, m: Mention): Resolved {
    var l := m.link;
    if !(l.linkType in schema.linkTypes && schema.linkTypes[l.linkType] == LinkDef(m.objType, l.toType)) then
      Unresolved(Reject(m.row, Invalid, "link:" + l.linkType))
    else if ObjectKey(l.toType, l.toKey) !in rids then
      Unresolved(Reject(m.row, RefMissing, l.linkType + "->" + l.toType))
    else Target(LinkKey(m.src, l.linkType, rids[ObjectKey(l.toType, l.toKey)]))
  }

  function Rids(byKey: map<ObjectKey, Working>): map<ObjectKey, Rid> {
    map k | k in byKey :: byKey[k].rid
  }

  ghost predicate IndexInRange(st: LinkPhase) {
    forall k :: k in st.index ==> st.index[k] < |st.links|
  }

  function LinkStep(env: Env, counts: Counts, rids: map<ObjectKey, Rid>,
                    stored: map<LinkKey, Option<real>>, st: LinkPhase, m: Mention): LinkPhase
    requires IndexInRange(st)
  {
    var r := Resolve(env.schema, rids, m);
    if r.Unresolved? then st.(rejected := st.rejected + [r.reject])
    else
      var weight := m.link.weight;
      if r.key in st.index then
        var at := st.index[r.key];
        st.(links := st.links[at := st.links[at].(weight := weight)])
      else if r.key in stored then
        if stored[r.key] == weight then st
        else st.(links := st.links + [PlannedLink(r.key, weight, false, None, m.row)],
                 index := st.index[r.key := |st.links|])
      else if counts.links + st.newLinks + 1 > env.maxLinks then
        st.(rejected := st.rejected + [Reject(m.row, LinkLimit, m.link.linkType)])
      else
        st.(links := st.links + [PlannedLink(r.key, weight, true, Some(st.newLinks + 1), m.row)],
            index := st.index[r.key := |st.links|],
            newLinks := st.newLinks + 1)
  }

  function PlanLinks(env: Env, counts: Counts, rids: map<ObjectKey, Rid>,
                     stored: map<LinkKey, Option<real>>, st: LinkPhase, ms: seq<Mention>): (r: LinkPhase)
    requires IndexInRange(st)
    ensures IndexInRange(r)
  {
    if ms == [] then st
    else
      var n := |ms| - 1;
      LinkStep(env, counts, rids, stored, PlanLinks(env, counts, rids, stored, st, ms[..n]), ms[n])
  }

  // --- The whole plan ---------------------------------------------------------

  predicate NoLater(a: Reject, b: Reject) {
    a.row <= b.row
  }

  function SortByRow(rejects: seq<Reject>): seq<Reject> {
    Sort(rejects, NoLater)
  }

  /** The rejections come out by row, all of them, and in their old order within a row. */
  lemma SortedRejects(rejects: seq<Reject>, row: int)
    ensures forall i, j :: 0 <= i < j < |SortByRow(rejects)| ==> SortByRow(rejects)[i].row <= SortByRow(rejects)[j].row
    ensures multiset(SortByRow(rejects)) == multiset(rejects)
    ensures var ofRow := (r: Reject) => r.row == row; Filter(SortByRow(rejects), ofRow) == Filter(rejects, ofRow)
  {
    SortOrders(rejects, NoLater);
    SortKeepsAll(rejects, NoLater);
    SortIsStable(rejects, NoLater, (r: Reject) => r.row == row);
  }

  function ObjectPhase(input: Input): Phase {
    PlanObjects(input.env, input.counts, StartPhase(Known(input.existing)), input.cmds)
  }

  function LinksPhase(input: Input): (r: LinkPhase) {
    var objects := ObjectPhase(input);
    PlanLinks(input.env, input.counts, Rids(objects.byKey), input.existingLinks, NO_LINKS, Mentions(objects.accepted))
  }

  function Plan(input: Input): UpsertPlan {
    var objects := ObjectPhase(input);
    var links := LinksPhase(input);
    UpsertPlan(objects.objects, links.links, objects.upserted, objects.skipped,
               SortByRow(objects.rejected + links.rejected))
  }

  method LoadExisting(existing: seq<Obj>) returns (byKey: map<ObjectKey, Working>)
    ensures byKey == StartPhase(Known(existing)).byKey
  {
    byKey := map[];
    for i := 0 to |existing|
      invariant byKey == StartPhase(Known(existing[..i])).byKey
    {
      PrefixSnoc(existing, i);
      var o := existing[i];
      byKey := byKey[ObjectKey(o.objType, o.primaryKey) := Loaded(o)];
    }
    assert existing[..|existing|] == existing;
  }

  /** Folds one accepted change into a planned object. */
  method Record(schema: Schema, t: ObjType, pk: string, before: PlannedObject, merged: MergeOutcome, row: int)
    returns (after: PlannedObject)
    ensures after == before.(
              state := merged.state,
              title := TitleOf(schema, t, merged.state.props, pk),
              rows := before.rows + [row],
              changed := AddNames(before.changed, merged.changed))
  {
    var names := before.changed;
    for j := 0 to |merged.changed|
      invariant names == AddNames(before.changed, merged.changed[..j])
    {
      PrefixSnoc(merged.changed, j);
      if merged.changed[j] !in names {
        names := names + [merged.changed[j]];
      }
    }
    assert merged.changed[..|merged.changed|] == merged.changed;
    after := before.(
      state := merged.state,
      title := TitleOf(schema, t, merged.state.props, pk),
      rows := before.rows + [row],
      changed := names);
  }

  /** Records an accepted command: its links for later, and its write unless nothing changed. */
  method AcceptCmd(env: Env, cmd: Cmd, p: Prepared, entry: Working, merged: MergeOutcome, before: Phase)
    returns (st: Phase)
    requires p.Ready?
    requires entry.planned.Some? ==> entry.planned.value < |before.objects|
    ensures st == Accept(env, before, cmd, p, entry, merged)
  {
    st := before;
    var w := entry;
    st := st.(accepted := st.accepted + [Accepted(cmd, w.rid)]);
    if merged.changed == [] && (!w.isNew || w.planned.Some?) {
      return st.(skipped := st.skipped + 1);
    }
    st := st.(upserted := st.upserted + 1);
    if w.planned.Some? {
      var at := w.planned.value;
      var after := Record(env.schema, p.objType, w.primaryKey, st.objects[at], merged, cmd.row);
      st := st.(objects := st.objects[at := after]);
    } else {
      var first := PlannedObject(w.rid, w.objType, w.primaryKey, "", merged.state, w.isNew,
                                 if w.isNew then Some(st.newObjects) else None, [], []);
      var after := Record(env.schema, p.objType, w.primaryKey, first, merged, cmd.row);
      w := w.(planned := Some(|st.objects|));
      st := st.(objects := st.objects + [after]);
    }
    st := st.(byKey := st.byKey[p.key := w.(state := merged.state)]);
  }

  /** The body of the object loop: what one command does to the loop's variables. */
  method PlanCmd(env: Env, counts: Counts, cmd: Cmd, before: Phase) returns (st: Phase)
    requires PlannedInRange(before)
    ensures st == PlanStep(env, counts, before, cmd)
  {
    st := before;
    var p := Prepare(env.schema, cmd);
    if p.Refused? {
      return st.(rejected := st.rejected + [p.reject]);
    }
    var known := p.key in st.byKey;
    var state := if known then Some(st.byKey[p.key].state) else None;
    var merged := MergeLatestWins(state, p.props, Source(env, cmd));
    var w;
    if known {
      w := st.byKey[p.key];
    } else {
      var missing := Missing(p.objType.properties, merged.state.props);
      if missing != [] {
        return st.(rejected := st.rejected + [Reject(cmd.row, Invalid, JoinComma(missing))]);
      }
      if counts.objects + st.newObjects + 1 > env.maxObjects {
        return st.(rejected := st.rejected + [Reject(cmd.row, ObjectLimit, "")]);
      }
      w := Working(env.newRid(cmd.objType, counts.created + st.newObjects),
                   cmd.objType, p.primaryKey, EMPTY_STATE, true, None);
      st := st.(newObjects := st.newObjects + 1);
    }
    st := AcceptCmd(env, cmd, p, w, merged, st);
  }

  method RunObjectPhase(input: Input) returns (st: Phase)
    ensures st == ObjectPhase(input)
  {
    var byKey := LoadExisting(input.existing);
    st := Phase(byKey, [], [], 0, 0, 0, []);
    ghost var start := st;
    for i := 0 to |input.cmds|
      invariant st == PlanObjects(input.env, input.counts, start, input.cmds[..i])
    {
      PrefixSnoc(input.cmds, i);
      st := PlanCmd(input.env, input.counts, input.cmds[i], st);
    }
    assert input.cmds[..|input.cmds|] == input.cmds;
  }

  /** The body of the link loop: what one mention does to the loop's variables. */
  method PlanLink(input: Input, rids: map<ObjectKey, Rid>, m: Mention, before: LinkPhase) returns (st: LinkPhase)
    requires IndexInRange(before)
    ensures st == LinkStep(input.env, input.counts, rids, input.existingLinks, before, m)
  {
    st := before;
    var schema, l := input.env.schema, m.link;
    if l.linkType !in schema.linkTypes || schema.linkTypes[l.linkType].from != m.objType
       || schema.linkTypes[l.linkType].to != l.toType {
      return st.(rejected := st.rejected + [Reject(m.row, Invalid, "link:" + l.linkType)]);
    }
    if ObjectKey(l.toType, l.toKey) !in rids {
      return st.(rejected := st.rejected + [Reject(m.row, RefMissing, l.linkType + "->" + l.toType)]);
    }
    var key := LinkKey(m.src, l.linkType, rids[ObjectKey(l.toType, l.toKey)]);
    if key in st.index {
      var at := st.index[key];
      return st.(links := st.links[at := st.links[at].(weight := l.weight)]);
    }
    var isNew := key !in input.existingLinks;
    if !isNew && input.existingLinks[key] == l.weight {
      return;
    }
    if isNew {
      if input.counts.links + st.newLinks + 1 > input.env.maxLinks {
        return st.(rejected := st.rejected + [Reject(m.row, LinkLimit, l.linkType)]);
      }
      st := st.(newLinks := st.newLinks + 1);
    }
    var planned := PlannedLink(key, l.weight, isNew, if isNew then Some(st.newLinks) else None, m.row);
    st := st.(links := st.links + [planned], index := st.index[key := |st.links|]);
  }

  lemma PlanLinksSnoc(env: Env, counts: Counts, rids: map<ObjectKey, Rid>, stored: map<LinkKey, Option<real>>,
                      st: LinkPhase, ms: seq<Mention>, m: Mention)
    requires IndexInRange(st)
    ensures PlanLinks(env, counts, rids, stored, st, ms + [m])
         == LinkStep(env, counts, rids, stored, PlanLinks(env, counts, rids, stored, st, ms), m)
  {
    assert (ms + [m])[..|ms|] == ms;
  }

  /** The links of one accepted command, after the mentions `done`. */
  method PlanLinksOf(input: Input, rids: map<ObjectKey, Rid>, a: Accepted, ghost done: seq<Mention>, before: LinkPhase)
    returns (st: LinkPhase)
    requires before == PlanLinks(input.env, input.counts, rids, input.existingLinks, NO_LINKS, done)
    ensures st == PlanLinks(input.env, input.counts, rids, input.existingLinks, NO_LINKS, done + MentionsOf(a))
  {
    st := before;
    ghost var these := MentionsOf(a);
    assert done + these[..0] == done;
    for j := 0 to |a.cmd.links|
      invariant st == PlanLinks(input.env, input.counts, rids, input.existingLinks, NO_LINKS, done + these[..j])
    {
      assert done + these[..j + 1] == (done + these[..j]) + [these[j]];
      PlanLinksSnoc(input.env, input.counts, rids, input.existingLinks, NO_LINKS, done + these[..j], these[j]);
      st := PlanLink(input, rids, Mention(a.cmd.row, a.cmd.objType, a.rid, a.cmd.links[j]), st);
    }
    assert these[..|a.cmd.links|] == these;
  }

  method RunLinkPhase(input: Input, objects: Phase) returns (st: LinkPhase)
    ensures st == PlanLinks(input.env, input.counts, Rids(objects.byKey), input.existingLinks,
                            NO_LINKS, Mentions(objects.accepted))
  {
    var rids := Rids(objects.byKey);
    var accepted := objects.accepted;
    st := NO_LINKS;
    for i := 0 to |accepted|
      invariant st == PlanLinks(input.env, input.counts, rids, input.existingLinks, NO_LINKS, Mentions(accepted[..i]))
    {
      PrefixSnoc(accepted, i);
      st := PlanLinksOf(input, rids, accepted[i], Mentions(accepted[..i]), st);
    }
    assert accepted[..|accepted|] == accepted;
  }

  method PlanUpsert(input: Input) returns (plan: UpsertPlan)
    ensures plan == Plan(input)
  {
    var objects := RunObjectPhase(input);
    var links := RunLinkPhase(input, objects);
    plan := UpsertPlan(objects.objects, links.links, objects.upserted, objects.skipped,
                       SortByRow(objects.rejected + links.rejected));
  }
}
