/**
 * Property conflict resolution: latest-wins merging with per-property provenance
 * (conflict_resolution.ts) and the JSON merge patch of section 2 of RFC 7396.
 */
module MergeProps {
  import opened Common

  /** Where a property value came from. */
  datatype Provenance = Provenance(jobId: string, row: int, at: int)

  type Props = map<string, Json>

  datatype PropState = PropState(props: Props, provenance: map<string, Provenance>)

  const EMPTY_STATE := PropState(map[], map[])

  datatype MergeOutcome = MergeOutcome(state: PropState, changed: seq<string>)

  /** The entries of a record in their insertion order; names never repeat. */
  type Entries = e: seq<(string, Json)> | DistinctNames(e) witness []

  ghost predicate DistinctNames(e: seq<(string, Json)>) {
    forall i, j :: 0 <= i < j < |e| ==> e[i].0 != e[j].0
  }

  /** Empty values (null, absent or the empty string) never overwrite. */
  predicate IsEmptyValue(v: Json) {
    v == JNull || v == JStr("")
  }

  predicate Overwrites(props: Props, name: string, value: Json) {
    !IsEmptyValue(value) && !(name in props && props[name] == value)
  }

  function MergeEntry(o: MergeOutcome, entry: (string, Json), source: Provenance): MergeOutcome {
    if Overwrites(o.state.props, entry.0, entry.1) then
      MergeOutcome(
        PropState(o.state.props[entry.0 := entry.1], o.state.provenance[entry.0 := source]),
        o.changed + [entry.0])
    else o
  }

  function Merged(current: PropState, incoming: seq<(string, Json)>, source: Provenance): MergeOutcome {
    if incoming == [] then MergeOutcome(current, [])
    else
      var n := |incoming| - 1;
      MergeEntry(Merged(current, incoming[..n], source), incoming[n], source)
  }

  method MergeLatestWins(current: Option<PropState>, incoming: Entries, source: Provenance)
    returns (r: MergeOutcome)
    ensures r == Merged(if current.Some? then current.value else EMPTY_STATE, incoming, source)
  {
    ghost var start := if current.Some? then current.value else EMPTY_STATE;
    var props := if current.Some? then current.value.props else map[];
    var prov := if current.Some? then current.value.provenance else map[];
    var changed: seq<string> := [];
    for i := 0 to |incoming|
      invariant MergeOutcome(PropState(props, prov), changed) == Merged(start, incoming[..i], source)
    {
      PrefixSnoc(incoming, i);
      var name, value := incoming[i].0, incoming[i].1;
      if IsEmptyValue(value) {
        continue;
      }
      if name in props && props[name] == value {
        continue;
      }
      props := props[name := value];
      prov := prov[name := source];
      changed := changed + [name];
    }
    assert incoming[..|incoming|] == incoming;
    r := MergeOutcome(PropState(props, prov), changed);
  }

  /** The value a merge must leave for `name`: the incoming one, if any and not empty. */
  ghost predicate Supplies(incoming: seq<(string, Json)>, name: string, value: Json) {
    (name, value) in incoming && !IsEmptyValue(value)
  }

  /** Some non-empty value is supplied for `name`. */
  ghost predicate Supplied(incoming: seq<(string, Json)>, name: string) {
    exists i :: 0 <= i < |incoming| && incoming[i].0 == name && !IsEmptyValue(incoming[i].1)
  }

  /** Values: a supplied one is stored, everything else is kept. */
  lemma {:induction false} MergeValues(current: PropState, incoming: seq<(string, Json)>, source: Provenance)
    requires DistinctNames(incoming)
    ensures var o := Merged(current, incoming, source);
      && (forall name, value :: Supplies(incoming, name, value) ==>
            name in o.state.props && o.state.props[name] == value)
      && (forall name :: !Supplied(incoming, name) ==>
            Same(current.props, o.state.props, name))
  {
    if incoming == [] {
    } else {
      var n := |incoming| - 1;
      var front := incoming[..n];
      var (name, value) := incoming[n];
      MergeValues(current, front, source);
      var o := Merged(current, front, source);
      SuppliesSnoc(incoming);
      assert !Supplied(front, name);
      assert Same(current.props, o.state.props, name);
      var r := Merged(current, incoming, source);
      forall x | !Supplied(incoming, x) ensures Same(current.props, r.state.props, x) {
        assert !Supplied(front, x);
        assert Same(current.props, o.state.props, x);
      }
    }
  }

  lemma SuppliesSnoc(incoming: seq<(string, Json)>)
    requires incoming != []
    ensures var n := |incoming| - 1;
      forall x, v :: Supplies(incoming, x, v) <==> Supplies(incoming[..n], x, v) || ((x, v) == incoming[n] && !IsEmptyValue(v))
  {
    var n := |incoming| - 1;
    assert incoming == incoming[..n] + [incoming[n]];
  }

  /**
   * Latest-wins, property by property: a supplied value is stored, everything else is
   * kept; `changed` and the new provenance mark exactly the properties whose stored
   * value differs from before.
   */
  lemma {:induction false} MergeMeaning(current: PropState, incoming: seq<(string, Json)>, source: Provenance)
    requires DistinctNames(incoming)
    ensures var o := Merged(current, incoming, source);
      && (forall name, value :: Supplies(incoming, name, value) ==>
            name in o.state.props && o.state.props[name] == value)
      && (forall name :: !Supplied(incoming, name) ==>
            Same(current.props, o.state.props, name))
      && (forall name :: name in o.changed <==> !Same(current.props, o.state.props, name))
      && (forall name :: name in o.changed ==>
            name in o.state.provenance && o.state.provenance[name] == source)
      && (forall name :: name !in o.changed ==>
            Same(current.provenance, o.state.provenance, name))
      && Distinct(o.changed)
  {
    MergeValues(current, incoming, source);
    MergeMarks(current, incoming, source);
  }

  /** The names marked as changed are those whose value differs, each marked once. */
  lemma {:induction false} MergeMarks(current: PropState, incoming: seq<(string, Json)>, source: Provenance)
    requires DistinctNames(incoming)
    ensures var o := Merged(current, incoming, source);
      && (forall name :: name in o.changed <==> !Same(current.props, o.state.props, name))
      && (forall name :: name in o.changed ==>
            name in o.state.provenance && o.state.provenance[name] == source)
      && (forall name :: name !in o.changed ==>
            Same(current.provenance, o.state.provenance, name))
      && Distinct(o.changed)
  {
    if incoming == [] {
    } else {
      var n := |incoming| - 1;
      MergeMarks(current, incoming[..n], source);
      MergeValues(current, incoming[..n], source);
      var o := Merged(current, incoming[..n], source);
      assert !Supplied(incoming[..n], incoming[n].0);
      assert Same(current.props, o.state.props, incoming[n].0);
      assert incoming[n].0 !in o.changed;
    }
  }

  /** Both maps agree on `k`: absent from both, or the same value in both. */
  ghost predicate Same<V(!new)>(a: map<string, V>, b: map<string, V>, k: string) {
    (k in a <==> k in b) && (k in a ==> a[k] == b[k])
  }

  /** Merging the same record again, from any source, changes nothing. */
  lemma {:induction false} MergeAgain(current: PropState, incoming: seq<(string, Json)>, s1: Provenance, s2: Provenance)
    requires DistinctNames(incoming)
    ensures var once := Merged(current, incoming, s1).state;
      Merged(once, incoming, s2) == MergeOutcome(once, [])
  {
    MergeMeaning(current, incoming, s1);
    var once := Merged(current, incoming, s1).state;
    MergeNothing(once, incoming, |incoming|, s2);
    assert incoming[..|incoming|] == incoming;
  }

  lemma {:induction false} MergeNothing(state: PropState, incoming: seq<(string, Json)>, i: nat, source: Provenance)
    requires i <= |incoming|
    requires forall name, value :: Supplies(incoming, name, value) ==>
               name in state.props && state.props[name] == value
    ensures Merged(state, incoming[..i], source) == MergeOutcome(state, [])
  {
    if i == 0 {
    } else {
      MergeNothing(state, incoming, i - 1, source);
      PrefixSnoc(incoming, i - 1);
      var (name, value) := incoming[i - 1];
      assert incoming[i - 1] in incoming;
      if !IsEmptyValue(value) {
        assert Supplies(incoming, name, value);
      }
    }
  }

  // --- RFC 7396 merge patch ---------------------------------------------------

  function PatchTarget(target: Option<Json>): map<string, Json> {
    if target.Some? && target.value.JObj? then target.value.fields else map[]
  }

  function Lookup(m: map<string, Json>, k: string): Option<Json> {
    if k in m then Some(m[k]) else None
  }

  /** Applies a merge patch; an absent target is `None`. */
  function ApplyMergePatch(target: Option<Json>, patch: Json): Json
    decreases patch
  {
    match patch
    case JObj(fields) =>
      var base := PatchTarget(target);
      JObj(map k | k in base.Keys + fields.Keys && !(k in fields && fields[k] == JNull) ::
             if k in fields then ApplyMergePatch(Lookup(base, k), fields[k]) else base[k])
    case _ => patch
  }

  /**
   * What a patch leaves of one member: null takes it away, anything but an object replaces it, an
   * object is merged into it; a member the patch does not name is kept. A target that is no object
   * counts as an empty one.
   */
  lemma PatchByMember(target: Option<Json>, fields: map<string, Json>, k: string)
    ensures var r, was := ApplyMergePatch(target, JObj(fields)), if target.Some? && target.value.JObj? then target.value.fields else map[];
      && r.JObj?
      && (k !in fields ==> Same(was, r.fields, k))
      && (k in fields && fields[k] == JNull ==> k !in r.fields)
      && (k in fields && fields[k] != JNull ==>
            && k in r.fields
            && (!fields[k].JObj? ==> r.fields[k] == fields[k])
            && r.fields[k] == ApplyMergePatch(if k in was then Some(was[k]) else None, fields[k]))
  {
  }

  /** Applying the same patch twice is the same as applying it once. */
  lemma {:induction false} MergePatchIdempotent(target: Option<Json>, patch: Json)
    ensures ApplyMergePatch(Some(ApplyMergePatch(target, patch)), patch) == ApplyMergePatch(target, patch)
    decreases patch
  {
    match patch
    case JObj(fields) =>
      var base := PatchTarget(target);
      var once := ApplyMergePatch(target, patch).fields;
      var twice := ApplyMergePatch(Some(JObj(once)), patch).fields;
      assert twice.Keys == once.Keys;
      forall k | k in once ensures twice[k] == once[k] {
        if k in fields {
          MergePatchIdempotent(Lookup(base, k), fields[k]);
        }
      }
      assert twice == once;
    case _ =>
  }
}
