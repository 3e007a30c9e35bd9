/**
 * Effects of an action (action_execution.ts, conflict_resolution.ts): set, increment, relink and
 * unlink applied in order to working copies, then one property patch and one link delta.
 * Expression evaluation, number conversion and property validation are parameters.
 */
module ActionEffects {
  import opened Common
  import opened MergeProps
  import opened UpsertPlanner

  /** A value that may be missing. */
  type Maybe = Option<Json>

  datatype Effect =
    | Set(prop: string, value: string)
    | Increment(prop: string, amount: string)
    | Relink(link: string, out: bool, toParam: string)
    | Unlink(link: string, out: bool, param: Option<string>)

  datatype Checked = Checked(props: Props, errors: set<string>)

  /** What the effects see: the target, its type, the parameters and what they call out to. */
  datatype Action = Action(
    linkTypes: map<string, LinkDef>,
    properties: set<string>, required: set<string>,
    rid: Rid, objType: string, state: PropState,
    params: map<string, string>, refTypes: map<Rid, string>,
    eval: string -> Maybe, number: Maybe -> Option<real>, validate: Props -> Checked)

  type Links = map<LinkKey, Option<real>>

  /** The working copies while the effects run. */
  datatype Draft = Draft(next: map<string, Maybe>, touched: set<string>, links: Links)

  datatype Run = Going(w: Draft) | Failed(detail: string)

  // --- One effect -----------------------------------------------------------------------------

  predicate Mine(a: Action, out: bool, k: LinkKey) {
    if out then k.src == a.rid else k.dst == a.rid
  }

  function Far(out: bool, k: LinkKey): Rid {
    if out then k.dst else k.src
  }

  function LinkTo(a: Action, link: string, out: bool, other: Rid): LinkKey {
    if out then LinkKey(a.rid, link, other) else LinkKey(other, link, a.rid)
  }

  /** Without the target's links of a type, or only without the one to `other`. */
  function Cut(a: Action, links: Links, link: string, out: bool, other: Option<Rid>): Links {
    map k | k in links && !(k.linkType == link && Mine(a, out, k) && (other.None? || Far(out, k) == other.value)) :: links[k]
  }

  function ReadNext(w: Draft, prop: string): Maybe {
    if prop in w.next then w.next[prop] else None
  }

  /** `?? 0`: null and missing count as zero. */
  function OrZero(v: Maybe): Maybe {
    if v.None? || v.value.JNull? then Some(JNum(0.0)) else v
  }

  function FarType(def: LinkDef, out: bool): string {
    if out then def.to else def.from
  }

  /** The object a parameter names; an empty text names none. */
  function Named(a: Action, param: string): Option<Rid> {
    if param in a.params && a.params[param] != "" then Some(a.params[param]) else None
  }

  /** Why a link effect cannot run, if so. */
  function LinkTrouble(a: Action, link: string, out: bool, other: Option<Option<Rid>>): Option<string> {
    if link !in a.linkTypes then Some("Unknown link type")
    else if (if out then a.linkTypes[link].from else a.linkTypes[link].to) != a.objType then Some("Link does not fit the target")
    else if other.Some? && other.value.None? then Some("Missing parameter")
    else if other.Some? && !(other.value.value in a.refTypes && a.refTypes[other.value.value] == FarType(a.linkTypes[link], out)) then
      Some("Parameter has the wrong type")
    else None
  }

  /** What a link effect does to a set of links. */
  function LinkStep(a: Action, links: Links, e: Effect): Links {
    match e
    case Relink(link, out, toParam) =>
      var other := Named(a, toParam);
      if other.None? then links
      else Cut(a, links, link, out, None)[LinkTo(a, link, out, other.value) := None]
    case Unlink(link, out, param) =>
      Cut(a, links, link, out, if param.Some? && param.value != "" then Named(a, param.value) else None)
    case _ => links
  }

  function Step(a: Action, w: Draft, e: Effect): Run {
    match e
    case Set(prop, value) =>
      if prop !in a.properties then Failed("Unknown property")
      else Going(w.(next := w.next[prop := a.eval(value)], touched := w.touched + {prop}))
    case Increment(prop, amount) =>
      if prop !in a.properties then Failed("Unknown property")
      else
        var n, cur := a.number(a.eval(amount)), a.number(OrZero(ReadNext(w, prop)));
        if n.None? || cur.None? then Failed("Cannot increment")
        else Going(w.(next := w.next[prop := Some(JNum(cur.value + n.value))], touched := w.touched + {prop}))
    case Relink(link, out, toParam) =>
      var trouble := LinkTrouble(a, link, out, Some(Named(a, toParam)));
      if trouble.Some? then Failed(trouble.value) else Going(w.(links := LinkStep(a, w.links, e)))
    case Unlink(link, out, param) =>
      var trouble := LinkTrouble(a, link, out, if param.Some? && param.value != "" then Some(Named(a, param.value)) else None);
      if trouble.Some? then Failed(trouble.value) else Going(w.(links := LinkStep(a, w.links, e)))
  }

  function StartDraft(a: Action, links: Links): Draft {
    Draft(map p | p in a.state.props :: Some(a.state.props[p]), {}, links)
  }

  /** The effects in order, up to the first that fails. */
  function RunAll(a: Action, links: Links, effects: seq<Effect>): Run {
    if effects == [] then Going(StartDraft(a, links))
    else
      match RunAll(a, links, effects[..|effects| - 1])
      case Failed(d) => Failed(d)
      case Going(w) => Step(a, w, effects[|effects| - 1])
  }

  // --- The patch ------------------------------------------------------------------------------

  predicate Cleared(w: Draft, p: string) {
    ReadNext(w, p).None? || ReadNext(w, p).value.JNull?
  }

  function ToCoerce(w: Draft): Props {
    map p | p in w.touched && !Cleared(w, p) :: ReadNext(w, p).value
  }

  function PatchOf(w: Draft, coerced: Props): Props {
    map p | p in w.touched && (p in coerced || Cleared(w, p)) :: if p in coerced then coerced[p] else JNull
  }

  datatype Outcome = Outcome(state: PropState, changed: set<string>)

  /** A merge patch of properties; changed properties lose their provenance. */
  function PatchProps(current: PropState, patch: Props): Outcome {
    var props := ApplyMergePatch(Some(JObj(current.props)), JObj(patch)).fields;
    var changed := set p | p in patch && Lookup(current.props, p) != Lookup(props, p)
                           && !(NullLike(current.props, p) && NullLike(props, p));
    Outcome(PropState(props, current.provenance - changed), changed)
  }

  /** Missing and null count as the same value. */
  predicate NullLike(props: Props, p: string) {
    p !in props || props[p] == JNull
  }

  datatype Plan = Planned(after: PropState, changed: set<string>, removed: Links, added: Links) | Rejected(detail: string)

  function Finish(a: Action, before: Links, w: Draft): Plan {
    var checked := a.validate(ToCoerce(w));
    if checked.errors != {} then Rejected("Effect produced invalid values")
    else if exists p :: p in w.touched && p in a.required && Cleared(w, p) then Rejected("Effect cleared required property")
    else
      var outcome := PatchProps(a.state, PatchOf(w, checked.props));
      Planned(outcome.state, outcome.changed,
              map k | k in before && k !in w.links :: before[k],
              map k | k in w.links && k !in before :: w.links[k])
  }

  function Effects(a: Action, before: Links, effects: seq<Effect>): Plan {
    match RunAll(a, before, effects)
    case Failed(d) => Rejected(d)
    case Going(w) => Finish(a, before, w)
  }

  method RemoveMine(a: Action, links: Links, link: string, out: bool, other: Option<Rid>) returns (r: Links)
    ensures r == Cut(a, links, link, out, other)
  {
    r := links;
    var left := links.Keys;
    while left != {}
      invariant left <= links.Keys
      invariant forall k :: k in r <==> k in links && (k in left || k in Cut(a, links, link, out, other))
      invariant forall k :: k in r ==> r[k] == links[k]
      decreases |left|
    {
      var k :| k in left;
      left := left - {k};
      if k.linkType == link && Mine(a, out, k) && (other.None? || Far(out, k) == other.value) {
        r := r - {k};
      }
    }
  }

  method RunLink(a: Action, w: Draft, e: Effect) returns (r: Run)
    requires e.Relink? || e.Unlink?
    ensures r == Step(a, w, e)
  {
    if e.link !in a.linkTypes {
      return Failed("Unknown link type");
    }
    var def := a.linkTypes[e.link];
    if (if e.out then def.from else def.to) != a.objType {
      return Failed("Link does not fit the target");
    }
    var param := if e.Relink? then Some(e.toParam) else e.param;
    var other: Option<Rid> := None;
    if e.Relink? || (e.param.Some? && e.param.value != "") {
      other := Named(a, param.value);
      if other.None? {
        return Failed("Missing parameter");
      }
      if other.value !in a.refTypes || a.refTypes[other.value] != FarType(def, e.out) {
        return Failed("Parameter has the wrong type");
      }
    }
    var links := RemoveMine(a, w.links, e.link, e.out, if e.Relink? then None else other);
    if e.Relink? {
      links := links[LinkTo(a, e.link, e.out, other.value) := None];
    }
    r := Going(w.(links := links));
  }

  method ApplyEffects(a: Action, before: Links, effects: seq<Effect>) returns (plan: Plan)
    ensures plan == Effects(a, before, effects)
  {
    hide LinkTrouble, LinkStep, Finish;
    var w := StartDraft(a, before);
    for i := 0 to |effects|
      invariant RunAll(a, before, effects[..i]) == Going(w)
    {
      PrefixSnoc(effects, i);
      var e := effects[i];
      var r := Going(w);
      match e {
        case Set(prop, value) =>
          if prop !in a.properties {
            r := Failed("Unknown property");
          } else {
            r := Going(w.(next := w.next[prop := a.eval(value)], touched := w.touched + {prop}));
          }
        case Increment(prop, amount) =>
          if prop !in a.properties {
            r := Failed("Unknown property");
          } else {
            var n, cur := a.number(a.eval(amount)), a.number(OrZero(ReadNext(w, prop)));
            r := if n.None? || cur.None? then Failed("Cannot increment")
                 else Going(w.(next := w.next[prop := Some(JNum(cur.value + n.value))], touched := w.touched + {prop}));
          }
        case _ => r := RunLink(a, w, e);
      }
      if r.Failed? {
        StaysFailed(a, before, effects, i + 1);
        return Rejected(r.detail);
      }
      w := r.w;
    }
    assert effects[..|effects|] == effects;
    plan := Finish(a, before, w);
  }

  lemma {:induction false} StaysFailed(a: Action, links: Links, effects: seq<Effect>, n: nat)
    requires n <= |effects| && RunAll(a, links, effects[..n]).Failed?
    ensures RunAll(a, links, effects) == RunAll(a, links, effects[..n])
    decreases |effects| - n
  {
    if n == |effects| {
      assert effects[..n] == effects;
    } else {
      PrefixSnoc(effects, n);
      StaysFailed(a, links, effects, n + 1);
    }
  }

  // --- Links: one delta for all effects ---------------------------------------------------------

  /** The links of a whole workspace after the effects, one after the other. */
  function LinksAfter(a: Action, links: Links, effects: seq<Effect>): Links {
    if effects == [] then links
    else LinkStep(a, LinksAfter(a, links, effects[..|effects| - 1]), effects[|effects| - 1])
  }

  function TouchedLinkTypes(effects: seq<Effect>): set<string> {
    set e | e in effects && (e.Relink? || e.Unlink?) :: e.link
  }

  /** A link of the target that the effects may concern. */
  predicate Concerned(a: Action, types: set<string>, k: LinkKey) {
    k.linkType in types && (k.src == a.rid || k.dst == a.rid)
  }

  /** What linksOf loads: the target's links of the touched types. */
  function Loaded(a: Action, store: Links, types: set<string>): Links {
    map k | k in store && Concerned(a, types, k) :: store[k]
  }

  lemma {:induction false} RunLinks(a: Action, links: Links, effects: seq<Effect>)
    requires RunAll(a, links, effects).Going?
    ensures RunAll(a, links, effects).w.links == LinksAfter(a, links, effects)
  {
    if effects != [] {
      RunLinks(a, links, effects[..|effects| - 1]);
      hide LinkStep;
    }
  }

  /** Running the effects on the loaded links is running them on the whole workspace, restricted. */
  lemma {:induction false} LoadedIsEnough(a: Action, store: Links, effects: seq<Effect>, types: set<string>)
    requires TouchedLinkTypes(effects) <= types
    ensures var all, mine := LinksAfter(a, store, effects), LinksAfter(a, Loaded(a, store, types), effects);
      && (forall k :: Concerned(a, types, k) ==> (k in all <==> k in mine) && (k in all ==> all[k] == mine[k]))
      && (forall k :: !Concerned(a, types, k) ==> k !in mine && (k in all <==> k in store) && (k in all ==> all[k] == store[k]))
  {
    if effects != [] {
      var n := |effects| - 1;
      assert effects == effects[..n] + [effects[n]];
      assert effects[n] in effects;
      assert TouchedLinkTypes(effects[..n]) <= TouchedLinkTypes(effects) by {
        assert forall e :: e in effects[..n] ==> e in effects;
      }
      LoadedIsEnough(a, store, effects[..n], types);
      var all, mine := LinksAfter(a, store, effects[..n]), LinksAfter(a, Loaded(a, store, types), effects[..n]);
      assert effects[n].Relink? || effects[n].Unlink? ==> effects[n].link in types;
      hide Loaded, TouchedLinkTypes, LinksAfter;
      StepAgrees(a, all, mine, store, effects[n], types);
    }
  }

  lemma StepAgrees(a: Action, all: Links, mine: Links, store: Links, e: Effect, types: set<string>)
    requires e.Relink? || e.Unlink? ==> e.link in types
    requires forall k :: Concerned(a, types, k) ==> (k in all <==> k in mine) && (k in all ==> all[k] == mine[k])
    requires forall k :: !Concerned(a, types, k) ==> k !in mine && (k in all <==> k in store) && (k in all ==> all[k] == store[k])
    ensures var x, y := LinkStep(a, all, e), LinkStep(a, mine, e);
      && (forall k :: Concerned(a, types, k) ==> (k in x <==> k in y) && (k in x ==> x[k] == y[k]))
      && (forall k :: !Concerned(a, types, k) ==> k !in y && (k in x <==> k in store) && (k in x ==> x[k] == store[k]))
  {
  }

  /** DELETE the removed links, then INSERT the added ones unless they exist. */
  function ApplyDelta(store: Links, removed: Links, added: Links): Links {
    var left := store - removed.Keys;
    map k | k in left.Keys + added.Keys :: if k in left then left[k] else added[k]
  }

  /** A relink to the link `k`. */
  predicate RelinksTo(a: Action, e: Effect, k: LinkKey) {
    e.Relink? && Named(a, e.toParam).Some? && LinkTo(a, e.link, e.out, Named(a, e.toParam).value) == k
  }

  /** A link effect that takes `k` away. */
  predicate Removes(a: Action, e: Effect, k: LinkKey) {
    match e
    case Relink(link, out, toParam) => Named(a, toParam).Some? && k.linkType == link && Mine(a, out, k) && !RelinksTo(a, e, k)
    case Unlink(link, out, param) =>
      var other := if param.Some? && param.value != "" then Named(a, param.value) else None;
      k.linkType == link && Mine(a, out, k) && (other.None? || Far(out, k) == other.value)
    case _ => false
  }

  /** Some effect relinks to `k`, and no later one takes it away. */
  ghost predicate RelinkedLast(a: Action, effects: seq<Effect>, k: LinkKey) {
    exists i :: 0 <= i < |effects| && RelinksTo(a, effects[i], k) && forall j :: i < j < |effects| ==> !Removes(a, effects[j], k)
  }

  lemma RelinkedSnoc(a: Action, effects: seq<Effect>, e: Effect, k: LinkKey)
    ensures RelinkedLast(a, effects + [e], k) <==> RelinksTo(a, e, k) || (RelinkedLast(a, effects, k) && !Removes(a, e, k))
  {
    var all, n := effects + [e], |effects|;
    hide RelinksTo, Removes;
    if RelinksTo(a, e, k) {
      assert RelinksTo(a, all[n], k);
    } else if RelinkedLast(a, effects, k) && !Removes(a, e, k) {
      var i :| 0 <= i < n && RelinksTo(a, effects[i], k) && forall j :: i < j < n ==> !Removes(a, effects[j], k);
      assert RelinksTo(a, all[i], k) && forall j :: i < j < |all| ==> !Removes(a, all[j], k);
    }
    if RelinkedLast(a, all, k) {
      var i :| 0 <= i < |all| && RelinksTo(a, all[i], k) && forall j :: i < j < |all| ==> !Removes(a, all[j], k);
      assert forall j :: 0 <= j < n ==> all[j] == effects[j];
      assert i == n || (i < n && RelinksTo(a, effects[i], k) && !Removes(a, all[n], k));
    }
  }

  lemma StepOnLink(a: Action, links: Links, e: Effect, k: LinkKey)
    ensures var after := LinkStep(a, links, e);
      && (RelinksTo(a, e, k) ==> k in after && after[k] == None)
      && (Removes(a, e, k) ==> k !in after)
      && (!RelinksTo(a, e, k) && !Removes(a, e, k) ==> (k in after <==> k in links) && (k in after ==> after[k] == links[k]))
  {
  }

  /** The effects one by one leave a link without a weight if they relink to it, and as it was otherwise. */
  lemma {:induction false} WeightsAfter(a: Action, links: Links, effects: seq<Effect>, k: LinkKey)
    ensures var after := LinksAfter(a, links, effects);
      && (RelinkedLast(a, effects, k) ==> k in after && after[k] == None)
      && (!RelinkedLast(a, effects, k) && k in after ==> k in links && after[k] == links[k])
  {
    if effects != [] {
      var n := |effects| - 1;
      assert effects == effects[..n] + [effects[n]];
      WeightsAfter(a, links, effects[..n], k);
      RelinkedSnoc(a, effects[..n], effects[n], k);
      StepOnLink(a, LinksAfter(a, links, effects[..n]), effects[n], k);
      hide LinkStep, RelinkedLast, RelinksTo, Removes;
    }
  }

  /** No stored link with a weight is relinked and then kept. */
  ghost predicate NoWeightReset(a: Action, store: Links, effects: seq<Effect>) {
    forall k :: k in store && store[k].Some? ==> !RelinkedLast(a, effects, k)
  }

  /**
   * The delta of a plan, applied to the whole workspace, gives exactly the links that running the
   * effects one by one would leave; a link that was there before keeps its stored weight, so the
   * weights agree too exactly when no stored link with a weight is relinked and then kept.
   */
  lemma DeltaIsTheEffects(a: Action, store: Links, effects: seq<Effect>)
    requires Effects(a, Loaded(a, store, TouchedLinkTypes(effects)), effects).Planned?
    ensures var before := Loaded(a, store, TouchedLinkTypes(effects));
      var plan := Effects(a, before, effects);
      var all, now := LinksAfter(a, store, effects), ApplyDelta(store, plan.removed, plan.added);
      && plan.removed.Keys <= before.Keys && plan.added.Keys !! store.Keys
      && now.Keys == all.Keys
      && (forall k :: k in now ==> now[k] == if k in store then store[k] else None)
      && (now == all <==> NoWeightReset(a, store, effects))
  {
    var types := TouchedLinkTypes(effects);
    var before := Loaded(a, store, types);
    RunLinks(a, before, effects);
    LoadedIsEnough(a, store, effects, types);
    var mine := LinksAfter(a, before, effects);
    var plan := Effects(a, before, effects);
    assert plan.removed == map k | k in before && k !in mine :: before[k];
    assert plan.added == map k | k in mine && k !in before :: mine[k];
    hide Effects, LinksAfter, TouchedLinkTypes, RunAll, Finish;
    var all := LinksAfter(a, store, effects);
    DeltaKeys(a, store, types, all, mine, plan.removed, plan.added);
    forall k
      ensures RelinkedLast(a, effects, k) ==> k in all && all[k] == None
      ensures !RelinkedLast(a, effects, k) && k in all ==> k in store && all[k] == store[k]
    {
      WeightsAfter(a, store, effects, k);
    }
    hide RelinkedLast, Loaded, ApplyDelta;
    if NoWeightReset(a, store, effects) {
      assert forall k :: k in store && k in all ==> all[k] == store[k];
    } else {
      var k :| k in store && store[k].Some? && RelinkedLast(a, effects, k);
      assert k in all && all[k] != store[k];
    }
  }

  /** Some effect takes `k` away, and no later one relinks to it. */
  ghost predicate RemovedLast(a: Action, effects: seq<Effect>, k: LinkKey) {
    exists i :: 0 <= i < |effects| && Removes(a, effects[i], k) && forall j :: i < j < |effects| ==> !RelinksTo(a, effects[j], k)
  }

  lemma RemovedSnoc(a: Action, effects: seq<Effect>, e: Effect, k: LinkKey)
    ensures RemovedLast(a, effects + [e], k) <==> Removes(a, e, k) || (RemovedLast(a, effects, k) && !RelinksTo(a, e, k))
  {
    var all, n := effects + [e], |effects|;
    hide RelinksTo, Removes;
    if Removes(a, e, k) {
      assert Removes(a, all[n], k);
    } else if RemovedLast(a, effects, k) && !RelinksTo(a, e, k) {
      var i :| 0 <= i < n && Removes(a, effects[i], k) && forall j :: i < j < n ==> !RelinksTo(a, effects[j], k);
      assert Removes(a, all[i], k) && forall j :: i < j < |all| ==> !RelinksTo(a, all[j], k);
    }
    if RemovedLast(a, all, k) {
      var i :| 0 <= i < |all| && Removes(a, all[i], k) && forall j :: i < j < |all| ==> !RelinksTo(a, all[j], k);
      assert forall j :: 0 <= j < n ==> all[j] == effects[j];
      assert i == n || (i < n && Removes(a, effects[i], k) && !RelinksTo(a, all[n], k));
    }
  }

  lemma RelinkRemovesNot(a: Action, e: Effect, k: LinkKey)
    ensures !(RelinksTo(a, e, k) && Removes(a, e, k))
  {
  }

  /** What the effects decide about a link does not depend on the links they run on. */
  lemma {:induction false} LinkFate(a: Action, links: Links, effects: seq<Effect>, k: LinkKey)
    ensures k in LinksAfter(a, links, effects) <==> RelinkedLast(a, effects, k) || (k in links && !RemovedLast(a, effects, k))
    ensures !(RelinkedLast(a, effects, k) && RemovedLast(a, effects, k))
  {
    if effects != [] {
      var n := |effects| - 1;
      assert effects == effects[..n] + [effects[n]];
      LinkFate(a, links, effects[..n], k);
      RelinkedSnoc(a, effects[..n], effects[n], k);
      RemovedSnoc(a, effects[..n], effects[n], k);
      StepOnLink(a, LinksAfter(a, links, effects[..n]), effects[n], k);
      RelinkRemovesNot(a, effects[n], k);
      hide LinkStep, RelinkedLast, RemovedLast, RelinksTo, Removes;
    }
  }

  /** What a plan removes and adds, by what its effects do last. */
  lemma DeltaFate(a: Action, store: Links, effects: seq<Effect>, k: LinkKey)
    requires Effects(a, Loaded(a, store, TouchedLinkTypes(effects)), effects).Planned?
    ensures var plan := Effects(a, Loaded(a, store, TouchedLinkTypes(effects)), effects);
      && (k in plan.removed <==> k in store && RemovedLast(a, effects, k))
      && (k in plan.added <==> k !in store && RelinkedLast(a, effects, k))
      && (k in plan.added ==> plan.added[k] == None)
  {
    var types := TouchedLinkTypes(effects);
    var before := Loaded(a, store, types);
    RunLinks(a, before, effects);
    LoadedIsEnough(a, store, effects, types);
    LinkFate(a, store, effects, k);
    WeightsAfter(a, before, effects, k);
    hide LinksAfter, TouchedLinkTypes, RunAll, RelinkedLast, RemovedLast;
    assert Concerned(a, types, k) || !Concerned(a, types, k);
  }

  /** A link that decides whether the delta still is the effects: removed or added by others in between. */
  ghost predicate Overtaken(a: Action, store: Links, later: Links, effects: seq<Effect>, k: LinkKey) {
    || (k in store && k !in later && RelinkedLast(a, effects, k))
    || (k !in store && k in later && RemovedLast(a, effects, k))
  }

  /**
   * The delta of a plan made on one state of the links and committed on a later one: it leaves the
   * links that the effects would leave there if and only if no link that they keep by a relink was
   * removed in between and none that they take away was added; and then the weights agree exactly
   * when no link with a weight is relinked and then kept.
   */
  lemma DeltaAtCommit(a: Action, store: Links, later: Links, effects: seq<Effect>)
    requires Effects(a, Loaded(a, store, TouchedLinkTypes(effects)), effects).Planned?
    ensures var plan := Effects(a, Loaded(a, store, TouchedLinkTypes(effects)), effects);
      var all, now := LinksAfter(a, later, effects), ApplyDelta(later, plan.removed, plan.added);
      && (now.Keys == all.Keys <==> forall k :: !Overtaken(a, store, later, effects, k))
      && (now == all <==> now.Keys == all.Keys && NoWeightReset(a, later, effects))
  {
    var plan := Effects(a, Loaded(a, store, TouchedLinkTypes(effects)), effects);
    var all, now := LinksAfter(a, later, effects), ApplyDelta(later, plan.removed, plan.added);
    hide Effects, LinksAfter;
    forall k
      ensures (k in now <==> k in all) <==> !Overtaken(a, store, later, effects, k)
      ensures k in now ==> now[k] == if k in later then later[k] else None
      ensures RelinkedLast(a, effects, k) ==> k in all && all[k] == None
      ensures !RelinkedLast(a, effects, k) && k in all ==> k in later && all[k] == later[k]
    {
      DeltaFate(a, store, effects, k);
      LinkFate(a, later, effects, k);
      WeightsAfter(a, later, effects, k);
      hide RelinkedLast, RemovedLast;
    }
    hide RelinkedLast, Overtaken, ApplyDelta, Loaded;
    SameLinks(a, later, effects, now, all);
  }

  lemma SameLinks(a: Action, later: Links, effects: seq<Effect>, now: Links, all: Links)
    requires forall k :: k in now ==> now[k] == if k in later then later[k] else None
    requires forall k :: (RelinkedLast(a, effects, k) ==> k in all && all[k] == None)
                      && (!RelinkedLast(a, effects, k) && k in all ==> k in later && all[k] == later[k])
    ensures now == all <==> now.Keys == all.Keys && NoWeightReset(a, later, effects)
  {
    hide RelinkedLast;
  }

  /** An action on object `t` whose parameter `p` names the object `o` at the other end of its links `L`. */
  ghost predicate RelinksOne(a: Action) {
    && a.linkTypes == map["L" := LinkDef("T", "T")] && a.rid == "t" && a.objType == "T"
    && a.params == map["p" := "o"] && a.refTypes == map["o" := "T"]
    && a.validate(map[]) == Checked(map[], {})
  }

  /** Relinking an object to the one it is linked to keeps the stored weight, where the effect alone leaves none. */
  lemma RelinkKeepsWeight(a: Action)
    requires RelinksOne(a)
    ensures var effects, k := [Relink("L", true, "p")], LinkKey("t", "L", "o");
      var store: Links := map[k := Some(5.0)];
      var plan := Effects(a, Loaded(a, store, TouchedLinkTypes(effects)), effects);
      && plan.Planned? && !NoWeightReset(a, store, effects)
      && ApplyDelta(store, plan.removed, plan.added) == store && LinksAfter(a, store, effects) == map[k := None]
  {
    var effects, k := [Relink("L", true, "p")], LinkKey("t", "L", "o");
    var store: Links := map[k := Some(5.0)];
    assert Cut(a, store, "L", true, None) == map[];
    hide *;
    AllLoaded(a, store, effects, k);
    OneEffectPlanned(a, store, k);
    EmptyDelta(store);
  }

  lemma AllLoaded(a: Action, store: Links, effects: seq<Effect>, k: LinkKey)
    requires RelinksOne(a) && effects == [Relink("L", true, "p")] && k == LinkKey("t", "L", "o") && store == map[k := Some(5.0)]
    ensures Loaded(a, store, TouchedLinkTypes(effects)) == store && !NoWeightReset(a, store, effects)
  {
    assert effects[0] in effects;
    assert TouchedLinkTypes(effects) == {"L"};
    assert RelinksTo(a, effects[0], k) && RelinkedLast(a, effects, k);
  }

  lemma EmptyDelta(store: Links)
    ensures ApplyDelta(store, map[], map[]) == store
  {
  }

  lemma OneEffectPlanned(a: Action, store: Links, k: LinkKey)
    requires RelinksOne(a) && k == LinkKey("t", "L", "o") && Cut(a, store, "L", true, None) == map[]
    ensures var plan := Effects(a, store, [Relink("L", true, "p")]);
      && plan.Planned? && plan.removed == (map x | x in store && x != k :: store[x])
      && plan.added == if k in store then map[] else map[k := None]
    ensures LinksAfter(a, store, [Relink("L", true, "p")]) == map[k := None]
  {
    OneEffect(a, store, Relink("L", true, "p"), k);
    var w := StartDraft(a, store).(links := map[k := None]);
    assert w.touched == {} && ToCoerce(w) == map[];
    hide RunAll, LinksAfter, StartDraft;
  }

  lemma OneEffect(a: Action, store: Links, e: Effect, k: LinkKey)
    requires RelinksOne(a) && e == Relink("L", true, "p") && k == LinkKey("t", "L", "o") && Cut(a, store, "L", true, None) == map[]
    ensures RunAll(a, store, [e]) == Going(StartDraft(a, store).(links := map[k := None]))
    ensures LinksAfter(a, store, [e]) == map[k := None]
  {
    assert [e][..0] == [];
    assert LinkStep(a, store, e) == map[k := None];
    hide StartDraft, Cut, LinkStep;
    assert RunAll(a, store, []) == Going(StartDraft(a, store));
    assert LinksAfter(a, store, []) == store;
    assert StartDraft(a, store).links == store by {
      StartLinks(a, store);
    }
  }

  /**
   * A link that another request adds on the target's side between plan and commit stays beside
   * that of the relink, where the effect alone would have left one.
   */
  lemma RelinkMissesNewLink(a: Action)
    requires RelinksOne(a)
    ensures var effects, k, x := [Relink("L", true, "p")], LinkKey("t", "L", "o"), LinkKey("t", "L", "x");
      var later: Links := map[x := None];
      var plan := Effects(a, Loaded(a, map[], TouchedLinkTypes(effects)), effects);
      && plan.Planned?
      && ApplyDelta(later, plan.removed, plan.added) == map[x := None, k := None]
      && LinksAfter(a, later, effects) == map[k := None]
  {
    var effects, k, x := [Relink("L", true, "p")], LinkKey("t", "L", "o"), LinkKey("t", "L", "x");
    var later: Links := map[x := None];
    assert Cut(a, map[], "L", true, None) == map[] && Cut(a, later, "L", true, None) == map[];
    assert Loaded(a, map[], TouchedLinkTypes(effects)) == map[];
    assert ApplyDelta(later, map[], map[k := None]) == map[x := None, k := None];
    hide *;
    OneEffectPlanned(a, map[], k);
    OneEffectPlanned(a, later, k);
  }

  lemma StartLinks(a: Action, links: Links)
    ensures StartDraft(a, links).links == links
  {
  }

  lemma DeltaKeys(a: Action, store: Links, types: set<string>, all: Links, mine: Links, removed: Links, added: Links)
    requires forall k :: Concerned(a, types, k) ==> (k in all <==> k in mine) && (k in all ==> all[k] == mine[k])
    requires forall k :: !Concerned(a, types, k) ==> k !in mine && (k in all <==> k in store) && (k in all ==> all[k] == store[k])
    requires var before := Loaded(a, store, types);
      removed == (map k | k in before && k !in mine :: before[k]) && added == (map k | k in mine && k !in before :: mine[k])
    ensures var now := ApplyDelta(store, removed, added);
      && removed.Keys <= Loaded(a, store, types).Keys && added.Keys !! store.Keys && now.Keys == all.Keys
      && (forall k :: k in now ==> now[k] == if k in store then store[k] else all[k])
      && (now == all <==> forall k :: k in store && k in all ==> all[k] == store[k])
  {
    var now := ApplyDelta(store, removed, added);
    forall k ensures (k in now <==> k in all) && (k in now ==> now[k] == if k in store then store[k] else all[k]) {
      assert Concerned(a, types, k) || !Concerned(a, types, k);
    }
    hide Concerned;
    if now == all {
      assert forall k :: k in store && k in all ==> k in now && all[k] == store[k];
    }
  }

  /** The target's links of one type on one side. */
  function Side(a: Action, links: Links, link: string, out: bool): set<LinkKey> {
    set k | k in links && k.linkType == link && Mine(a, out, k)
  }

  /** A relink that runs leaves exactly its own link on the target's side; an unlink none, or none to the named object. */
  lemma LinkEffectLeaves(a: Action, w: Draft, e: Effect)
    requires (e.Relink? || e.Unlink?) && Step(a, w, e).Going?
    ensures var links := Step(a, w, e).w.links;
      && (e.Relink? ==> Named(a, e.toParam).Some? && Side(a, links, e.link, e.out) == {LinkTo(a, e.link, e.out, Named(a, e.toParam).value)})
      && (e.Unlink? && (e.param.None? || e.param.value == "") ==> Side(a, links, e.link, e.out) == {})
      && (e.Unlink? && e.param.Some? && e.param.value != "" ==>
            Named(a, e.param.value).Some?
            && Side(a, links, e.link, e.out) == Side(a, w.links, e.link, e.out) - {LinkTo(a, e.link, e.out, Named(a, e.param.value).value)})
  {
  }

  // --- Properties -------------------------------------------------------------------------------

  /** What one effect does to the touched properties and to the values of the others. */
  lemma StepTouches(a: Action, w: Draft, e: Effect, p: string)
    requires Step(a, w, e).Going?
    ensures var v := Step(a, w, e).w;
      && (p in v.touched <==> p in w.touched || OnProp(e, p))
      && (OnProp(e, p) ==> p in a.properties)
      && (!OnProp(e, p) ==> ReadNext(v, p) == ReadNext(w, p))
  {
    hide LinkTrouble, LinkStep, OrZero;
  }

  ghost predicate NamedByEffect(effects: seq<Effect>, p: string) {
    exists e :: e in effects && OnProp(e, p)
  }

  lemma NamedSnoc(effects: seq<Effect>, e: Effect, p: string)
    ensures NamedByEffect(effects + [e], p) <==> NamedByEffect(effects, p) || OnProp(e, p)
  {
    hide OnProp;
    assert (effects + [e])[|effects|] == e;
    if x :| x in effects && OnProp(x, p) {
      assert x in effects + [e];
    }
  }

  lemma {:induction false} UntouchedStays(a: Action, links: Links, effects: seq<Effect>, p: string)
    requires RunAll(a, links, effects).Going?
    ensures var w := RunAll(a, links, effects).w;
      && (p in w.touched ==> p in a.properties)
      && (p !in w.touched ==> ReadNext(w, p) == Lookup(a.state.props, p))
      && (p in w.touched <==> NamedByEffect(effects, p))
  {
    if effects != [] {
      var n := |effects| - 1;
      UntouchedStays(a, links, effects[..n], p);
      assert effects == effects[..n] + [effects[n]];
      NamedSnoc(effects[..n], effects[n], p);
      StepTouches(a, RunAll(a, links, effects[..n]).w, effects[n], p);
      hide Step, NamedByEffect, OnProp, ReadNext;
    }
  }

  /**
   * After a plan: a property no effect names keeps its value and provenance; `changed` is exactly
   * what differs, and loses its provenance; a required property is never left empty by an effect.
   */
  lemma PropertiesAfter(a: Action, links: Links, effects: seq<Effect>, p: string)
    requires Effects(a, links, effects).Planned?
    ensures var plan, w := Effects(a, links, effects), RunAll(a, links, effects).w;
      && (p !in w.touched ==>
            p !in plan.changed && Same(a.state.props, plan.after.props, p)
            && Same(a.state.provenance, plan.after.provenance, p))
      && (p in plan.changed ==> p !in plan.after.provenance && !Same(a.state.props, plan.after.props, p))
      && (p !in plan.changed ==> Same(a.state.provenance, plan.after.provenance, p))
      && (p in plan.changed <==> ValueOrNull(a.state.props, p) != ValueOrNull(plan.after.props, p))
      && (p in w.touched && p in a.required ==> !Cleared(w, p))
  {
    var w := RunAll(a, links, effects).w;
    var patch := PatchOf(w, a.validate(ToCoerce(w)).props);
    PatchMeaning(a.state, patch, p);
    hide RunAll, PatchProps;
  }

  /** What a property holds, null when it is missing. */
  function ValueOrNull(props: Props, p: string): Json {
    if p in props then props[p] else JNull
  }

  lemma PatchMeaning(current: PropState, patch: Props, p: string)
    ensures var o := PatchProps(current, patch);
      && (p !in patch ==> p !in o.changed && Same(current.props, o.state.props, p))
      && (p in o.changed ==> p !in o.state.provenance && !Same(current.props, o.state.props, p))
      && (p !in o.changed ==> Same(current.provenance, o.state.provenance, p))
      && (p in o.changed <==> ValueOrNull(current.props, p) != ValueOrNull(o.state.props, p))
  {
  }

  /** A number converts to itself. */
  ghost predicate NumbersAreNumbers(a: Action) {
    forall x :: a.number(Some(JNum(x))) == Some(x)
  }

  function Increments(prop: string, amounts: seq<string>): (r: seq<Effect>)
    ensures |r| == |amounts|
  {
    seq(|amounts|, i requires 0 <= i < |amounts| => Increment(prop, amounts[i]))
  }

  lemma IncrementsSnoc(prop: string, before: seq<Effect>, amounts: seq<string>)
    requires amounts != []
    ensures before + Increments(prop, amounts)
         == before + Increments(prop, amounts[..|amounts| - 1]) + [Increment(prop, amounts[|amounts| - 1])]
    ensures |amounts| == 1 ==> before + Increments(prop, amounts[..|amounts| - 1]) == before
  {
  }

  /** What increments add in all; an amount that is no number adds nothing, and stops the run. */
  function TotalOf(a: Action, amounts: seq<string>): real {
    if amounts == [] then 0.0
    else
      var n := a.number(a.eval(amounts[|amounts| - 1]));
      TotalOf(a, amounts[..|amounts| - 1]) + if n.Some? then n.value else 0.0
  }

  /** One increment after other effects. */
  lemma OneIncrement(a: Action, links: Links, before: seq<Effect>, prop: string, amount: string)
    requires NumbersAreNumbers(a)
    requires RunAll(a, links, before + [Increment(prop, amount)]).Going?
    ensures RunAll(a, links, before).Going? && a.number(a.eval(amount)).Some?
    ensures var v, w := RunAll(a, links, before).w, RunAll(a, links, before + [Increment(prop, amount)]).w;
      && a.number(OrZero(ReadNext(v, prop))).Some?
      && ReadNext(w, prop) == Some(JNum(a.number(OrZero(ReadNext(v, prop))).value + a.number(a.eval(amount)).value))
      && w.links == v.links && (forall q :: q != prop ==> ReadNext(w, q) == ReadNext(v, q))
  {
    assert (before + [Increment(prop, amount)])[..|before|] == before;
    hide LinkTrouble, StartDraft, LinkStep, NumbersAreNumbers;
  }

  /** Increments of one property add up on what the effects before them left, and touch nothing else. */
  lemma {:induction false} IncrementsAddUp(a: Action, links: Links, before: seq<Effect>, prop: string, amounts: seq<string>)
    requires NumbersAreNumbers(a) && amounts != []
    requires RunAll(a, links, before + Increments(prop, amounts)).Going?
    ensures var w := RunAll(a, links, before + Increments(prop, amounts)).w;
      && RunAll(a, links, before).Going?
      && var v := RunAll(a, links, before).w;
      && a.number(OrZero(ReadNext(v, prop))).Some?
      && ReadNext(w, prop) == Some(JNum(a.number(OrZero(ReadNext(v, prop))).value + TotalOf(a, amounts)))
      && w.links == v.links && (forall q :: q != prop ==> ReadNext(w, q) == ReadNext(v, q))
  {
    var n := |amounts| - 1;
    var front := before + Increments(prop, amounts[..n]);
    hide RunAll, Increments, OrZero, ReadNext, NumbersAreNumbers;
    IncrementsSnoc(prop, before, amounts);
    OneIncrement(a, links, front, prop, amounts[n]);
    if n == 0 {
      assert TotalOf(a, amounts[..0]) == 0.0;
    } else {
      IncrementsAddUp(a, links, before, prop, amounts[..n]);
    }
  }

  predicate OnProp(e: Effect, p: string) {
    (e.Set? || e.Increment?) && e.prop == p
  }

  /** The effects on one property, in order. */
  function OnlyOn(effects: seq<Effect>, p: string): seq<Effect> {
    if effects == [] then []
    else OnlyOn(effects[..|effects| - 1], p) + if OnProp(effects[|effects| - 1], p) then [effects[|effects| - 1]] else []
  }

  /** Two drafts that agree on a property agree on it after an effect on it; other effects leave it alone. */
  lemma StepOnProp(a: Action, v: Draft, w: Draft, e: Effect, p: string)
    requires Step(a, v, e).Going? && ReadNext(v, p) == ReadNext(w, p)
    ensures OnProp(e, p) ==> Step(a, w, e).Going? && ReadNext(Step(a, v, e).w, p) == ReadNext(Step(a, w, e).w, p)
    ensures !OnProp(e, p) ==> ReadNext(Step(a, v, e).w, p) == ReadNext(v, p)
  {
    hide LinkTrouble, LinkStep, OrZero;
  }

  lemma RunSnoc(a: Action, links: Links, effects: seq<Effect>, e: Effect)
    ensures RunAll(a, links, effects + [e]) ==
      match RunAll(a, links, effects) case Failed(d) => Failed(d) case Going(w) => Step(a, w, e)
  {
    assert (effects + [e])[..|effects|] == effects;
    hide Step;
  }

  /** Runs that agree on a property stay agreed, whatever else happens in one of them. */
  lemma {:induction false} OthersDoNotMatter(a: Action, links: Links, x: seq<Effect>, y: seq<Effect>, after: seq<Effect>, p: string)
    requires RunAll(a, links, x + after).Going? && RunAll(a, links, y).Going?
    requires RunAll(a, links, x).Going? ==> ReadNext(RunAll(a, links, x).w, p) == ReadNext(RunAll(a, links, y).w, p)
    ensures RunAll(a, links, y + OnlyOn(after, p)).Going?
    ensures ReadNext(RunAll(a, links, x + after).w, p) == ReadNext(RunAll(a, links, y + OnlyOn(after, p)).w, p)
  {
    if after == [] {
      assert x + after == x && y + OnlyOn(after, p) == y;
    } else {
      var n := |after| - 1;
      var front, e := after[..n], after[n];
      assert x + after == x + front + [e];
      assert y + OnlyOn(after, p) == if OnProp(e, p) then y + OnlyOn(front, p) + [e] else y + OnlyOn(front, p);
      hide RunAll, Step, OnlyOn, ReadNext;
      RunSnoc(a, links, x + front, e);
      OthersDoNotMatter(a, links, x, y, front, p);
      var v, w := RunAll(a, links, x + front).w, RunAll(a, links, y + OnlyOn(front, p)).w;
      StepOnProp(a, v, w, e, p);
      RunSnoc(a, links, y + OnlyOn(front, p), e);
    }
  }

  /** What becomes of a property depends on the effects on it alone, in their order. */
  lemma PropertiesAreIndependent(a: Action, links: Links, effects: seq<Effect>, p: string)
    requires RunAll(a, links, effects).Going?
    ensures RunAll(a, links, OnlyOn(effects, p)).Going?
    ensures ReadNext(RunAll(a, links, effects).w, p) == ReadNext(RunAll(a, links, OnlyOn(effects, p)).w, p)
  {
    assert [] + effects == effects && [] + OnlyOn(effects, p) == OnlyOn(effects, p);
    OthersDoNotMatter(a, links, [], [], effects, p);
  }

  /**
   * A set makes everything before it irrelevant for its property: the property ends as if only
   * the set and the later effects on it had run.
   */
  lemma SetReplaces(a: Action, links: Links, before: seq<Effect>, p: string, value: string, after: seq<Effect>)
    requires RunAll(a, links, before + [Set(p, value)] + after).Going?
    ensures RunAll(a, links, [Set(p, value)] + OnlyOn(after, p)).Going?
    ensures ReadNext(RunAll(a, links, before + [Set(p, value)] + after).w, p)
         == ReadNext(RunAll(a, links, [Set(p, value)] + OnlyOn(after, p)).w, p)
  {
    var x, y := before + [Set(p, value)], [Set(p, value)];
    assert (x + after)[..|x|] == x;
    if RunAll(a, links, x).Failed? {
      StaysFailed(a, links, x + after, |x|);
    }
    RunSnoc(a, links, before, Set(p, value));
    RunSnoc(a, links, [], Set(p, value));
    assert [] + [Set(p, value)] == y;
    hide StartDraft;
    OthersDoNotMatter(a, links, x, y, after, p);
  }

  /** The stored value of a touched property: removed when cleared, else patched with its validated value. */
  lemma TouchedValue(a: Action, links: Links, effects: seq<Effect>, p: string)
    requires Effects(a, links, effects).Planned? && p in RunAll(a, links, effects).w.touched
    ensures var w, props := RunAll(a, links, effects).w, Effects(a, links, effects).after.props;
      var checked := a.validate(ToCoerce(w)).props;
      && (Cleared(w, p) && p !in checked ==> p !in props)
      && (p in checked && !checked[p].JNull? ==>
            p in props && props[p] == ApplyMergePatch(Lookup(a.state.props, p), checked[p])
            && (!checked[p].JObj? ==> props[p] == checked[p]))
  {
    hide RunAll, ToCoerce;
  }

  /** The part of the properties named in `keys`. */
  function Pick(props: Props, keys: set<string>): Props {
    map k | k in keys && k in props :: props[k]
  }

  /** The patch of a run. */
  function PatchOfRun(a: Action, links: Links, effects: seq<Effect>): Props
    requires RunAll(a, links, effects).Going?
  {
    var w := RunAll(a, links, effects).w;
    PatchOf(w, a.validate(ToCoerce(w)).props)
  }

  /** No property that is stored as null is cleared. */
  ghost predicate ClearsNoNull(props: Props, patch: Props) {
    forall p :: !NullCleared(props, patch, p)
  }

  /**
   * The logged snapshots undo and redo an action, up to nulls that are cleared: those are removed
   * but not logged as a change. Both are exact if and only if no property stored as null is cleared.
   */
  lemma SnapshotsUndoAndRedo(a: Action, links: Links, effects: seq<Effect>)
    requires Effects(a, links, effects).Planned?
    ensures var plan := Effects(a, links, effects);
      var was, now := a.state.props, plan.after.props;
      var undone, redone := (now - plan.changed) + Pick(was, plan.changed), (was - plan.changed) + Pick(now, plan.changed);
      && (forall p :: SameOrNull(undone, was, p) && SameOrNull(redone, now, p))
      && (undone == was <==> ClearsNoNull(was, PatchOfRun(a, links, effects)))
      && (redone == now <==> ClearsNoNull(was, PatchOfRun(a, links, effects)))
  {
    var plan := Effects(a, links, effects);
    var patch := PatchOfRun(a, links, effects);
    var was, now := a.state.props, plan.after.props;
    assert plan.after == PatchProps(a.state, patch).state && plan.changed == PatchProps(a.state, patch).changed;
    hide RunAll, Effects, PatchOfRun;
    forall p ensures Patched(a.state, patch, p) {
      PatchedAt(a.state, patch, p);
    }
    hide PatchProps;
    UndoRedo(a.state, patch);
  }

  ghost predicate SameOrNull(b: Props, c: Props, p: string) {
    Same(b, c, p) || (NullLike(b, p) && NullLike(c, p))
  }

  /** One property under a patch: the same, changed, or a null that is cleared without being a change. */
  ghost predicate Patched(current: PropState, patch: Props, p: string) {
    var o := PatchProps(current, patch);
    var was, now := current.props, o.state.props;
    if p in was && was[p].JNull? && p in patch && patch[p].JNull? then p !in now && p !in o.changed
    else if p in o.changed then !Same(was, now, p)
    else Same(was, now, p)
  }

  lemma PatchedAt(current: PropState, patch: Props, p: string)
    ensures Patched(current, patch, p)
  {
    if p in patch && !patch[p].JNull? {
      NotNull(Lookup(current.props, p), patch[p]);
    }
  }

  lemma UndoRedo(current: PropState, patch: Props)
    requires forall p :: Patched(current, patch, p)
    ensures var o := PatchProps(current, patch);
      var was, now := current.props, o.state.props;
      var undone, redone := (now - o.changed) + Pick(was, o.changed), (was - o.changed) + Pick(now, o.changed);
      && (forall p :: SameOrNull(undone, was, p) && SameOrNull(redone, now, p))
      && (undone == was <==> ClearsNoNull(was, patch)) && (redone == now <==> ClearsNoNull(was, patch))
  {
    var o := PatchProps(current, patch);
    hide PatchProps;
    var was, now := current.props, o.state.props;
    var undone, redone := (now - o.changed) + Pick(was, o.changed), (was - o.changed) + Pick(now, o.changed);
    forall p
      ensures SameOrNull(undone, was, p) && SameOrNull(redone, now, p)
      ensures NullCleared(was, patch, p) ==> p in was && p !in undone && p in redone && p !in now
      ensures !NullCleared(was, patch, p) ==> Same(undone, was, p) && Same(redone, now, p)
    {
      UndoRedoAt(current, patch, p);
    }
    hide Patched, SameOrNull, Same, NullCleared, Pick, PatchProps;
    if ClearsNoNull(was, patch) {
      SameEverywhere(undone, was);
      SameEverywhere(redone, now);
    } else {
      var p :| NullCleared(was, patch, p);
      assert p in was && p !in undone && p in redone && p !in now;
    }
  }

  /** A property stored as null that the patch clears. */
  predicate NullCleared(was: Props, patch: Props, p: string) {
    p in was && was[p].JNull? && p in patch && patch[p].JNull?
  }

  lemma SameEverywhere(b: Props, c: Props)
    requires forall p :: Same(b, c, p)
    ensures b == c
  {
    forall p ensures (p in b <==> p in c) && (p in b ==> b[p] == c[p]) {
      assert Same(b, c, p);
    }
  }

  lemma UndoRedoAt(current: PropState, patch: Props, p: string)
    requires Patched(current, patch, p)
    ensures var o := PatchProps(current, patch);
      var was, now := current.props, o.state.props;
      var undone, redone := (now - o.changed) + Pick(was, o.changed), (was - o.changed) + Pick(now, o.changed);
      && SameOrNull(undone, was, p) && SameOrNull(redone, now, p)
      && (NullCleared(was, patch, p) ==> p in was && p !in undone && p in redone && p !in now)
      && (!NullCleared(was, patch, p) ==> Same(undone, was, p) && Same(redone, now, p))
  {
    hide PatchProps;
  }

  lemma NotNull(target: Option<Json>, patch: Json)
    requires patch != JNull
    ensures ApplyMergePatch(target, patch) != JNull
  {
  }
}
