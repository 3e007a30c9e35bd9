/**
 * What each effect of an action does, in terms of its own fields: the value it sets, the amount it
 * adds, the links it takes away and makes, and when it or the whole action is refused.
 */
module ActionMeaning {
  import opened Common
  import opened MergeProps
  import opened UpsertPlanner
  import opened ActionEffects

  // --- Properties -----------------------------------------------------------------------------------

  /** What a working copy holds for a property; missing and null are not told apart from each other here. */
  ghost predicate HoldsValue(w: Draft, p: string, v: Maybe) {
    if p in w.next then w.next[p] == v else v == None
  }

  /**
   * `set` is refused exactly for an unknown property, and else leaves the property with the
   * evaluated value; `increment` also when the amount or the current value is no number, counting
   * null and missing as zero, and else leaves their sum. Both leave every other property and the links.
   */
  lemma SetsAndIncrements(a: Action, w: Draft, p: string, text: string, current: Maybe, other: string, v: Maybe)
    requires HoldsValue(w, p, current) && other != p && HoldsValue(w, other, v)
    ensures var r := Step(a, w, Set(p, text));
      && (r.Failed? <==> p !in a.properties)
      && (r.Going? ==>
            && HoldsValue(r.w, p, a.eval(text)) && HoldsValue(r.w, other, v)
            && r.w.touched == w.touched + {p} && r.w.links == w.links)
    ensures var r := Step(a, w, Increment(p, text));
      var amount, now := a.number(a.eval(text)), a.number(if current == None || current == Some(JNull) then Some(JNum(0.0)) else current);
      && (r.Failed? <==> p !in a.properties || amount == None || now == None)
      && (r.Going? ==>
            && HoldsValue(r.w, p, Some(JNum(now.value + amount.value)))
            && r.w.touched == w.touched + {p} && r.w.links == w.links && HoldsValue(r.w, other, v))
  {
  }

  /** The last effect on a property is a set: the property ends with its evaluated value. */
  lemma LastSetWins(a: Action, links: Links, before: seq<Effect>, p: string, text: string, after: seq<Effect>)
    requires RunAll(a, links, before + [Set(p, text)] + after).Going?
    requires forall i :: 0 <= i < |after| ==> !((after[i].Set? || after[i].Increment?) && after[i].prop == p)
    ensures var w := RunAll(a, links, before + [Set(p, text)] + after).w; HoldsValue(w, p, a.eval(text)) && p in w.touched
  {
    SetReplaces(a, links, before, p, text, after);
    NoneOn(after, p);
    var set1 := [Set(p, text)];
    assert set1 + OnlyOn(after, p) == set1 && set1[..0] == [];
    assert ReadNext(RunAll(a, links, set1).w, p) == a.eval(text);
    TouchedStays(a, links, before, p, text, after);
    hide RunAll;
  }

  lemma {:induction false} NoneOn(effects: seq<Effect>, p: string)
    requires forall i :: 0 <= i < |effects| ==> !((effects[i].Set? || effects[i].Increment?) && effects[i].prop == p)
    ensures OnlyOn(effects, p) == []
  {
    if effects != [] {
      NoneOn(effects[..|effects| - 1], p);
    }
  }

  lemma {:induction false} TouchedStays(a: Action, links: Links, before: seq<Effect>, p: string, text: string, after: seq<Effect>)
    requires RunAll(a, links, before + [Set(p, text)] + after).Going?
    ensures var w := RunAll(a, links, before + [Set(p, text)] + after).w; p in w.touched && p in w.next
  {
    var x := before + [Set(p, text)];
    if after == [] {
      assert x + after == x;
      RunSnoc(a, links, before, Set(p, text));
      hide RunAll;
    } else {
      var n := |after| - 1;
      assert x + after == (x + after[..n]) + [after[n]];
      RunSnoc(a, links, x + after[..n], after[n]);
      hide RunAll;
      TouchedStays(a, links, before, p, text, after[..n]);
      StepTouches(a, RunAll(a, links, x + after[..n]).w, after[n], p);
      hide LinkTrouble, ActionEffects.LinkStep;
    }
  }

  // --- Links ------------------------------------------------------------------------------------------

  /** The object that a parameter names. */
  ghost predicate Names(a: Action, param: string, other: Rid) {
    param in a.params && a.params[param] == other && other != ""
  }

  /** The link type is declared with the target's type at the target's end. */
  ghost predicate Fits(a: Action, link: string, out: bool) {
    link in a.linkTypes && (if out then a.linkTypes[link].from else a.linkTypes[link].to) == a.objType
  }

  /** The object has the type at the other end. */
  ghost predicate RightType(a: Action, link: string, out: bool, other: Rid)
    requires link in a.linkTypes
  {
    other in a.refTypes && a.refTypes[other] == if out then a.linkTypes[link].to else a.linkTypes[link].from
  }

  /** A link of the type on the target's side. */
  ghost predicate OnSide(a: Action, link: string, out: bool, k: LinkKey) {
    k.linkType == link && (if out then k.src else k.dst) == a.rid
  }

  /**
   * `relink` needs a fitting link type and a named object of the right type, and is refused exactly
   * otherwise. It leaves, of the type and side, just the link to that object, without a weight, and
   * every other link as it was.
   */
  lemma RelinkLeaves(a: Action, w: Draft, link: string, out: bool, param: string, k: LinkKey)
    ensures var r := Step(a, w, Relink(link, out, param));
      && (r.Going? <==> Fits(a, link, out) && exists other :: Names(a, param, other) && RightType(a, link, out, other))
      && (r.Going? ==> r.w.next == w.next && r.w.touched == w.touched)
      && (r.Going? && OnSide(a, link, out, k) ==>
            && (k in r.w.links <==> Names(a, param, if out then k.dst else k.src))
            && (k in r.w.links ==> r.w.links[k] == None))
      && (r.Going? && !OnSide(a, link, out, k) ==> (k in r.w.links <==> k in w.links) && (k in r.w.links ==> r.w.links[k] == w.links[k]))
  {
    var named := Named(a, param);
    if named.Some? {
      assert Names(a, param, named.value);
      assert OnSide(a, link, out, LinkTo(a, link, out, named.value));
    }
  }

  /**
   * `unlink` needs a fitting link type and, if it names a parameter, an object of the right type in
   * it; it takes away the links of the type and side, or only the one to that object, and no other.
   */
  lemma UnlinkLeaves(a: Action, w: Draft, link: string, out: bool, param: Option<string>, k: LinkKey)
    ensures var r, all := Step(a, w, Unlink(link, out, param)), param == None || param == Some("");
      && (r.Going? <==> Fits(a, link, out) && (all || exists other :: Names(a, param.value, other) && RightType(a, link, out, other)))
      && (r.Going? ==> r.w.next == w.next && r.w.touched == w.touched)
      && (r.Going? ==>
            && (k in r.w.links <==>
                  k in w.links && !(OnSide(a, link, out, k) && (all || Names(a, param.value, if out then k.dst else k.src))))
            && (k in r.w.links ==> r.w.links[k] == w.links[k]))
  {
    if param.Some? && param.value != "" {
      var named := Named(a, param.value);
      if named.Some? {
        assert Names(a, param.value, named.value);
      }
    }
  }

  // --- The whole action ---------------------------------------------------------------------------------

  /** The effects up to `n` run one after the other, each on what the ones before it left. */
  ghost predicate RunsTo(a: Action, links: Links, effects: seq<Effect>, n: nat, ws: seq<Draft>) {
    && n <= |effects| && |ws| == n + 1
    && ws[0].links == links && ws[0].touched == {} && (forall p :: p in ws[0].next <==> p in a.state.props)
    && (forall p :: p in a.state.props ==> ws[0].next[p] == Some(a.state.props[p]))
    && forall i :: 0 <= i < n ==> Step(a, ws[i], effects[i]) == Going(ws[i + 1])
  }

  /** Running the effects is one step after the other from the target as it is stored, up to the first that is refused. */
  lemma {:induction false} RunsInOrder(a: Action, links: Links, effects: seq<Effect>) returns (ws: seq<Draft>)
    ensures |ws| >= 1
    ensures var n: nat := |ws| - 1;
      && RunsTo(a, links, effects, n, ws)
      && match RunAll(a, links, effects)
         case Going(w) => n == |effects| && w == ws[n]
         case Failed(why) => n < |effects| && Step(a, ws[n], effects[n]) == Failed(why)
  {
    hide Step;
    if effects == [] {
      ws := [StartDraft(a, links)];
    } else {
      var n := |effects| - 1;
      ws := RunsInOrder(a, links, effects[..n]);
      RunsOfPrefix(a, links, effects, n, |ws| - 1, ws);
      hide RunsTo, StartDraft;
      if RunAll(a, links, effects[..n]).Going? && Step(a, ws[n], effects[n]).Going? {
        OneMoreRuns(a, links, effects, n, ws);
        ws := ws + [Step(a, ws[n], effects[n]).w];
      }
    }
  }

  lemma RunsOfPrefix(a: Action, links: Links, effects: seq<Effect>, n: nat, m: nat, ws: seq<Draft>)
    requires n <= |effects| && RunsTo(a, links, effects[..n], m, ws)
    ensures RunsTo(a, links, effects, m, ws) && (m < n ==> effects[..n][m] == effects[m])
  {
    hide Step;
    assert forall i :: 0 <= i < n ==> effects[..n][i] == effects[i];
  }

  lemma OneMoreRuns(a: Action, links: Links, effects: seq<Effect>, n: nat, ws: seq<Draft>)
    requires n < |effects| && RunsTo(a, links, effects, n, ws) && Step(a, ws[n], effects[n]).Going?
    ensures RunsTo(a, links, effects, n + 1, ws + [Step(a, ws[n], effects[n]).w])
  {
    hide Step;
  }

  /** The values that are validated: those of touched properties that ended with one. */
  ghost predicate Validated(w: Draft, values: Props) {
    forall p ::
      && (p in values <==> p in w.touched && p in w.next && w.next[p] != None && w.next[p] != Some(JNull))
      && (p in values ==> w.next[p] == Some(values[p]))
  }

  /**
   * An action is planned exactly when every effect runs, the validated values have no errors and no
   * required property it touched ended without one.
   */
  lemma PlannedExactly(a: Action, links: Links, effects: seq<Effect>) returns (values: Props)
    ensures Effects(a, links, effects).Planned? <==>
      RunAll(a, links, effects).Going?
      && var w := RunAll(a, links, effects).w;
         && a.validate(values).errors == {}
         && forall p :: p in w.touched && p in a.required ==> p in w.next && w.next[p] != None && w.next[p] != Some(JNull)
    ensures RunAll(a, links, effects).Going? ==> Validated(RunAll(a, links, effects).w, values)
  {
    values := map[];
    if RunAll(a, links, effects).Going? {
      values := ToCoerce(RunAll(a, links, effects).w);
    }
    hide RunAll, PatchProps, PatchOf;
  }
}
