/**
 * What a mapped row holds, in terms of its columns: which column each property is read from, which
 * links and weights are made, and which check refuses the row and with what reject.
 */
module RowMeaning {
  import opened Common
  import opened RowMapping

  /** The cell of a column, if the row has it. */
  ghost predicate InColumn(raw: Row, column: string, c: Cell) {
    if column in raw then c == Some(raw[column]) else c == None
  }

  /** What a transform makes of the cell in a column. */
  function Read(chain: Chain, raw: Row, column: string): (r: Applied)
    ensures forall c :: InColumn(raw, column, c) ==> r == chain(c)
  {
    chain(if column in raw then Some(raw[column]) else None)
  }

  // --- Fields -------------------------------------------------------------------------------------

  /** No later field has the same target. */
  ghost predicate LastOf(fields: seq<Field>, j: nat)
    requires j < |fields|
  {
    forall i :: j < i < |fields| ==> fields[i].to != fields[j].to
  }

  /** The field's own column is accepted by its transform, and its property holds the result unless a later field has the same target. */
  ghost predicate FieldRead(fields: seq<Field>, raw: Row, values: map<string, Cell>, j: nat)
    requires j < |fields|
  {
    var f := fields[j];
    && Read(f.chain, raw, f.from).Value? && f.to in values
    && (LastOf(fields, j) ==> values[f.to] == Read(f.chain, raw, f.from).cell)
  }

  /** All fields are read, and there are no other properties. */
  ghost predicate FieldsRead(fields: seq<Field>, raw: Row, values: map<string, Cell>) {
    && (forall j :: 0 <= j < |fields| ==> FieldRead(fields, raw, values, j))
    && (forall p :: p in values ==> exists j :: 0 <= j < |fields| && fields[j].to == p)
  }

  /** Field `j` is the first whose transform fails on its column. */
  ghost predicate FirstFailing(fields: seq<Field>, raw: Row, j: nat) {
    && j < |fields| && Read(fields[j].chain, raw, fields[j].from).Failed?
    && forall i :: 0 <= i < j ==> Read(fields[i].chain, raw, fields[i].from).Value?
  }

  /** The fields are read from the columns they name, up to the first failure, which names its column and step. */
  lemma {:induction false} FieldsExactly(fields: seq<Field>, raw: Row)
    ensures match FieldValues(fields, raw)
      case Got(values) => FieldsRead(fields, raw, values)
      case Bad(code, column, detail) =>
        exists j: nat :: FirstFailing(fields, raw, j) && code == TransformFailed && column == fields[j].from
          && detail == Some(Read(fields[j].chain, raw, fields[j].from).step)
  {
    if fields != [] {
      var n := |fields| - 1;
      FieldsExactly(fields[..n], raw);
      assert InColumn(raw, fields[n].from, CellOf(raw, fields[n].from));
      var front := FieldValues(fields[..n], raw);
      if front.Bad? {
        var j: nat :| FirstFailing(fields[..n], raw, j) && front.column == fields[..n][j].from
          && front.detail == Some(Read(fields[..n][j].chain, raw, fields[..n][j].from).step);
        assert fields[..n][j] == fields[j];
        EarlierFailure(fields, raw, n, j);
      } else {
        assert forall i :: 0 <= i < n ==> fields[..n][i] == fields[i];
        if Read(fields[n].chain, raw, fields[n].from).Failed? {
          forall i | 0 <= i < n ensures Read(fields[i].chain, raw, fields[i].from).Value? {
            assert FieldRead(fields[..n], raw, front.value, i);
          }
          assert FirstFailing(fields, raw, n);
        } else {
          OneMoreRead(fields, raw, front.value);
        }
      }
    }
  }

  lemma EarlierFailure(fields: seq<Field>, raw: Row, n: nat, j: nat)
    requires n < |fields| && FirstFailing(fields[..n], raw, j)
    ensures FirstFailing(fields, raw, j)
  {
    hide Read;
    assert forall i :: 0 <= i < n ==> fields[..n][i] == fields[i];
  }

  lemma OneMoreRead(fields: seq<Field>, raw: Row, values: map<string, Cell>)
    requires fields != [] && FieldsRead(fields[..|fields| - 1], raw, values)
    requires Read(fields[|fields| - 1].chain, raw, fields[|fields| - 1].from).Value?
    ensures var f := fields[|fields| - 1]; FieldsRead(fields, raw, values[f.to := Read(f.chain, raw, f.from).cell])
  {
    hide Read;
    var n := |fields| - 1;
    var f := fields[n];
    var all := values[f.to := Read(f.chain, raw, f.from).cell];
    forall j | 0 <= j < |fields| ensures FieldRead(fields, raw, all, j) {
      if j < n {
        ReadStill(fields, raw, values, j);
      }
    }
    forall p | p in all ensures exists j :: 0 <= j < |fields| && fields[j].to == p {
      if p == f.to {
        assert fields[n].to == p;
      } else {
        var j :| 0 <= j < n && fields[..n][j].to == p;
        assert fields[j].to == p;
      }
    }
  }

  lemma ReadStill(fields: seq<Field>, raw: Row, values: map<string, Cell>, j: nat)
    requires j < |fields| - 1 && FieldRead(fields[..|fields| - 1], raw, values, j)
    requires Read(fields[|fields| - 1].chain, raw, fields[|fields| - 1].from).Value?
    ensures var f := fields[|fields| - 1]; FieldRead(fields, raw, values[f.to := Read(f.chain, raw, f.from).cell], j)
  {
    hide Read;
    var front := fields[..|fields| - 1];
    assert front[j] == fields[j];
    if LastOf(fields, j) {
      assert forall i :: j < i < |front| ==> front[i] == fields[i];
      assert LastOf(front, j);
    }
  }

  // --- Links --------------------------------------------------------------------------------------

  /** Nothing there: no cell, null, or a text of spaces. */
  ghost predicate Nothing(env: Env, c: Cell) {
    c == None || c == Some(JNull) || (c.Some? && c.value.JStr? && env.trim(c.value.s) == "")
  }

  /** The texts a link cell is made of: its items, its pieces, or itself. */
  ghost predicate PartsOf(env: Env, c: Cell, split: Option<string>, parts: seq<string>) {
    if Nothing(env, c) then parts == []
    else if c.value.JArr? then |parts| == |c.value.items| && forall i :: 0 <= i < |parts| ==> parts[i] == env.text(c.value.items[i])
    else if split.Some? && split.value != "" then parts == env.splitOn(env.text(c.value), split.value)
    else parts == [env.text(c.value)]
  }

  /** The keys are the trimmed parts that are not empty, in order. */
  ghost predicate TrimmedParts(env: Env, parts: seq<string>, keys: seq<string>, at: seq<nat>) {
    && |at| == |keys|
    && (forall k :: 0 <= k < |at| ==> at[k] < |parts| && keys[k] == env.trim(parts[at[k]]) && keys[k] != "")
    && (forall k, l :: 0 <= k < l < |at| ==> at[k] < at[l])
    && (forall i :: 0 <= i < |parts| && env.trim(parts[i]) != "" ==> i in at)
  }

  lemma OneMorePart(env: Env, parts: seq<string>, n: nat, keys: seq<string>, at: seq<nat>)
    requires n < |parts| && TrimmedParts(env, parts[..n], keys, at)
    ensures env.trim(parts[n]) != "" ==> TrimmedParts(env, parts[..n + 1], keys + [env.trim(parts[n])], at + [n])
    ensures env.trim(parts[n]) == "" ==> TrimmedParts(env, parts[..n + 1], keys, at)
  {
    var more := at + [n];
    assert more[|at|] == n && forall i :: i in at ==> i in more;
    assert forall i :: 0 <= i < n ==> parts[..n][i] == parts[..n + 1][i] == parts[i];
    assert parts[..n + 1][n] == parts[n];
  }

  lemma {:induction false} TrimmedUpTo(env: Env, parts: seq<string>, n: nat) returns (at: seq<nat>)
    requires n <= |parts|
    ensures TrimmedParts(env, parts[..n], TrimAll(env, parts[..n]), at)
  {
    at := [];
    if n > 0 {
      at := TrimmedUpTo(env, parts, n - 1);
      PrefixSnoc(parts, n - 1);
      var front, last := TrimAll(env, parts[..n - 1]), env.trim(parts[n - 1]);
      assert TrimAll(env, parts[..n]) == if last == "" then front else front + [last];
      OneMorePart(env, parts, n - 1, front, at);
      hide TrimAll, TrimmedParts;
      if last != "" {
        at := at + [n - 1];
      }
    }
  }

  lemma TrimmedExactly(env: Env, parts: seq<string>) returns (at: seq<nat>)
    ensures TrimmedParts(env, parts, TrimAll(env, parts), at)
  {
    at := TrimmedUpTo(env, parts, |parts|);
    assert parts[..|parts|] == parts;
  }

  /** The weight a link spec reads: none without a column or a value, else the number in it, if it is one. */
  ghost predicate Weighs(env: Env, l: LinkSpec, raw: Row, weight: Option<real>) {
    if l.weightFrom == None || l.weightFrom == Some("") || forall c :: InColumn(raw, l.weightFrom.value, c) ==> Nothing(env, c)
    then weight == None
    else weight.Some? && Read(env.toNumber, raw, l.weightFrom.value) == Value(Some(JNum(weight.value)))
  }

  /** The links of one spec: one per key of the cell in its key column, all with the weight. */
  ghost predicate LinksMade(env: Env, l: LinkSpec, raw: Row, links: seq<Link>) {
    exists c, parts, keys, at, weight ::
      && InColumn(raw, l.toKey, c) && PartsOf(env, c, l.split, parts) && TrimmedParts(env, parts, keys, at) && Weighs(env, l, raw, weight)
      && |links| == |keys| && forall k :: 0 <= k < |links| ==> links[k] == Link(l.linkType, l.toType, keys[k], weight)
  }

  function Flat(parts: seq<seq<Link>>): seq<Link> {
    if parts == [] then [] else Flat(parts[..|parts| - 1]) + parts[|parts| - 1]
  }

  lemma BlankIsNothing(env: Env, c: Cell)
    ensures Blank(env, c) <==> Nothing(env, c)
  {
  }

  lemma WeightExactly(env: Env, l: LinkSpec, raw: Row)
    ensures match WeightOf(env, l, raw)
      case Got(weight) => Weighs(env, l, raw, weight)
      case Bad(code, column, detail) =>
        (forall w :: !Weighs(env, l, raw, w)) && Some(column) == l.weightFrom && code == Type && detail == Some("weight")
  {
    if l.weightFrom.Some? {
      var c := CellOf(raw, l.weightFrom.value);
      assert InColumn(raw, l.weightFrom.value, c);
      BlankIsNothing(env, c);
      hide Blank, Nothing;
    }
  }

  lemma KeysExactly(env: Env, c: Cell, split: Option<string>) returns (parts: seq<string>, at: seq<nat>)
    ensures PartsOf(env, c, split, parts) && TrimmedParts(env, parts, LinkKeys(env, c, split), at)
  {
    BlankIsNothing(env, c);
    parts, at := [], [];
    if !Nothing(env, c) {
      parts := if c.value.JArr? then Texts(env, c.value.items)
        else if split.Some? && split.value != "" then env.splitOn(env.text(c.value), split.value)
        else [env.text(c.value)];
      at := TrimmedExactly(env, parts);
    }
  }

  lemma SpecExactly(env: Env, l: LinkSpec, raw: Row)
    requires WeightOf(env, l, raw).Got?
    ensures LinksMade(env, l, raw, LinksTo(l, WeightOf(env, l, raw).value, LinkKeys(env, CellOf(raw, l.toKey), l.split)))
  {
    WeightExactly(env, l, raw);
    var c := CellOf(raw, l.toKey);
    var parts, at := KeysExactly(env, c, l.split);
    assert InColumn(raw, l.toKey, c);
    hide PartsOf, TrimmedParts, Weighs, WeightOf, LinkKeys, InColumn;
  }

  ghost predicate HasWeight(env: Env, l: LinkSpec, raw: Row) {
    exists w :: Weighs(env, l, raw, w)
  }

  /** Spec `i` is the first whose weight column holds no number. */
  ghost predicate FirstUnweighed(env: Env, links: seq<LinkSpec>, raw: Row, i: nat) {
    i < |links| && !HasWeight(env, links[i], raw) && forall h :: 0 <= h < i ==> HasWeight(env, links[h], raw)
  }

  lemma HasWeightExactly(env: Env, l: LinkSpec, raw: Row)
    ensures HasWeight(env, l, raw) <==> WeightOf(env, l, raw).Got?
  {
    WeightExactly(env, l, raw);
    hide Weighs, WeightOf;
  }

  /** All links of a row, spec by spec. */
  ghost predicate AllMade(env: Env, links: seq<LinkSpec>, raw: Row, made: seq<seq<Link>>, all: seq<Link>) {
    && |made| == |links| && all == Flat(made)
    && (forall i :: 0 <= i < |links| ==> LinksMade(env, links[i], raw, made[i]) && HasWeight(env, links[i], raw))
  }

  lemma OneMoreMade(env: Env, links: seq<LinkSpec>, raw: Row, made: seq<seq<Link>>, all: seq<Link>, last: seq<Link>)
    requires links != [] && AllMade(env, links[..|links| - 1], raw, made, all)
    requires LinksMade(env, links[|links| - 1], raw, last) && HasWeight(env, links[|links| - 1], raw)
    ensures AllMade(env, links, raw, made + [last], all + last)
  {
    hide LinksMade, HasWeight;
    var n := |links| - 1;
    assert (made + [last])[..n] == made;
    forall i | 0 <= i < |links| ensures LinksMade(env, links[i], raw, (made + [last])[i]) && HasWeight(env, links[i], raw) {
      assert i < n ==> links[..n][i] == links[i];
    }
  }

  lemma EarlierUnweighed(env: Env, links: seq<LinkSpec>, raw: Row, n: nat, i: nat)
    requires n <= |links| && FirstUnweighed(env, links[..n], raw, i)
    ensures FirstUnweighed(env, links, raw, i) && links[..n][i] == links[i]
  {
    hide HasWeight;
    assert forall h :: 0 <= h < n ==> links[..n][h] == links[h];
  }

  /** The links of a row, spec by spec; or the first spec whose weight is no number refuses the row. */
  lemma {:induction false} LinksExactly(env: Env, links: seq<LinkSpec>, raw: Row) returns (made: seq<seq<Link>>)
    ensures match LinksOf(env, links, raw)
      case Got(all) => AllMade(env, links, raw, made, all)
      case Bad(code, column, detail) =>
        exists i: nat :: FirstUnweighed(env, links, raw, i) && Some(column) == links[i].weightFrom
          && code == Type && detail == Some("weight")
  {
    made := [];
    if links != [] {
      var n := |links| - 1;
      var l := links[n];
      made := LinksExactly(env, links[..n], raw);
      WeightExactly(env, l, raw);
      HasWeightExactly(env, l, raw);
      hide LinksMade, Weighs, WeightOf, LinkKeys, HasWeight;
      var front := LinksOf(env, links[..n], raw);
      if front.Bad? {
        hide AllMade;
        var i: nat :| FirstUnweighed(env, links[..n], raw, i) && Some(front.column) == links[..n][i].weightFrom;
        EarlierUnweighed(env, links, raw, n, i);
      } else if WeightOf(env, l, raw).Got? {
        SpecExactly(env, l, raw);
        var last := LinksTo(l, WeightOf(env, l, raw).value, LinkKeys(env, CellOf(raw, l.toKey), l.split));
        hide AllMade;
        OneMoreMade(env, links, raw, made, front.value, last);
        made := made + [last];
      } else {
        LastUnweighed(env, links, raw, made, front.value);
      }
    }
  }

  lemma LastUnweighed(env: Env, links: seq<LinkSpec>, raw: Row, made: seq<seq<Link>>, all: seq<Link>)
    requires links != [] && AllMade(env, links[..|links| - 1], raw, made, all) && !HasWeight(env, links[|links| - 1], raw)
    ensures FirstUnweighed(env, links, raw, |links| - 1)
  {
    hide HasWeight, LinksMade;
    assert forall h :: 0 <= h < |links| - 1 ==> links[..|links| - 1][h] == links[h];
  }

  // --- The row --------------------------------------------------------------------------------------

  /** The values with the key filled in where its property has nothing. */
  ghost predicate KeyFilledIn(env: Env, primaryKey: string, key: string, values: map<string, Cell>, filled: map<string, Cell>) {
    if primaryKey !in values || Nothing(env, values[primaryKey]) then filled == values[primaryKey := Some(JStr(key))] else filled == values
  }

  /** The key of a row: the trimmed text of what the key column gives, which is neither nothing, an object nor a list. */
  ghost predicate HasKey(env: Env, spec: Spec, raw: Row, key: string) {
    var v := Read(spec.pkChain, raw, spec.pkFrom);
    v.Value? && !Nothing(env, v.cell) && !v.cell.value.JObj? && !v.cell.value.JArr? && key == env.trim(env.text(v.cell.value))
  }

  /**
   * An accepted row: its key is new, every property is validated from the column its field names,
   * the key's own property from the key where it has nothing, and its links are made from the
   * columns their specs name.
   */
  lemma AcceptedRow(env: Env, spec: Spec, raw: Row, row: nat, seen: set<string>)
    returns (values: map<string, Cell>, filled: map<string, Cell>, made: seq<seq<Link>>)
    requires MapRow(env, spec, raw, row, seen).Accepted?
    ensures var cmd, key := MapRow(env, spec, raw, row, seen).cmd, MapRow(env, spec, raw, row, seen).key;
      && HasKey(env, spec, raw, cmd.primaryKey) && key == spec.typeName + ":" + cmd.primaryKey && key !in seen
      && cmd.typeName == spec.typeName && cmd.row == row
      && FieldsRead(spec.fields, raw, values) && KeyFilledIn(env, spec.primaryKey, cmd.primaryKey, values, filled)
      && env.validate(filled).errors == [] && cmd.props == env.validate(filled).props
      && |made| == |spec.links| && cmd.links == Flat(made)
      && forall i :: 0 <= i < |made| ==> LinksMade(env, spec.links[i], raw, made[i])
  {
    var pk := KeyOf(env, spec, raw).value;
    KeyExactly(env, spec, raw);
    FieldsExactly(spec.fields, raw);
    values := FieldValues(spec.fields, raw).value;
    var known := if spec.primaryKey in values then values[spec.primaryKey] else None;
    BlankIsNothing(env, known);
    filled := if Blank(env, known) then values[spec.primaryKey := Some(JStr(pk))] else values;
    made := LinksExactly(env, spec.links, raw);
    hide FieldsRead, LinksMade, FieldValues, LinksOf, Blank, KeyOf, HasKey, Flat;
  }

  lemma KeyExactly(env: Env, spec: Spec, raw: Row)
    ensures match KeyOf(env, spec, raw)
      case Got(key) => HasKey(env, spec, raw, key)
      case Bad(code, column, detail) =>
        && column == spec.pkFrom && (forall key :: !HasKey(env, spec, raw, key))
        && match Read(spec.pkChain, raw, spec.pkFrom)
           case Failed(step) => code == TransformFailed && detail == Some(step)
           case Value(_) => code == PrimaryKeyMissing && detail == None
  {
    var c := CellOf(raw, spec.pkFrom);
    assert InColumn(raw, spec.pkFrom, c);
    var v := spec.pkChain(c);
    if v.Value? {
      BlankIsNothing(env, v.cell);
    }
  }

  /** The column a reject names for a property: that of its last field, else the key column for the key. */
  ghost predicate NamedColumn(spec: Spec, prop: string, column: Option<string>) {
    if exists j :: 0 <= j < |spec.fields| && spec.fields[j].to == prop then
      exists j :: 0 <= j < |spec.fields| && spec.fields[j].to == prop && column == Some(spec.fields[j].from)
        && forall i :: j < i < |spec.fields| ==> spec.fields[i].to != prop
    else column == if prop == spec.primaryKey then Some(spec.pkFrom) else None
  }

  lemma {:induction false} ColumnExactly(spec: Spec, n: nat, prop: string)
    requires n <= |spec.fields|
    ensures NamedColumn(spec.(fields := spec.fields[..n]), prop, ColumnOf(spec, spec.fields[..n], prop))
  {
    if n > 0 {
      ColumnExactly(spec, n - 1, prop);
      PrefixSnoc(spec.fields, n - 1);
      var front, all := spec.fields[..n - 1], spec.fields[..n];
      if spec.fields[n - 1].to == prop {
        assert all[n - 1].to == prop;
      } else {
        assert forall j :: 0 <= j < n - 1 ==> all[j] == front[j];
        if j :| 0 <= j < n - 1 && front[j].to == prop && ColumnOf(spec, front, prop) == Some(front[j].from)
                && forall i :: j < i < n - 1 ==> front[i].to != prop {
          assert all[j].to == prop;
        }
      }
    }
  }

  /** A reject without the empty texts. */
  ghost predicate RefusedAs(r: RowOutcome, row: nat, code: Code, column: Option<string>, detail: Option<string>) {
    r == Refused(Reject(row, code, if column == Some("") then None else column, if detail == Some("") then None else detail))
  }

  /**
   * A refused row: the checks in their order, key, conflict, fields, validation, weights, with the
   * code, the column and the detail of the first that fails.
   */
  lemma RefusedRow(env: Env, spec: Spec, raw: Row, row: nat, seen: set<string>)
    requires MapRow(env, spec, raw, row, seen).Refused?
    ensures var r := MapRow(env, spec, raw, row, seen);
      || ((forall key :: !HasKey(env, spec, raw, key)) &&
            match Read(spec.pkChain, raw, spec.pkFrom)
            case Failed(step) => RefusedAs(r, row, TransformFailed, Some(spec.pkFrom), Some(step))
            case Value(_) => RefusedAs(r, row, PrimaryKeyMissing, Some(spec.pkFrom), None))
      || exists key :: HasKey(env, spec, raw, key) && RefusedAfterKey(env, spec, raw, row, seen, key, r)
  {
    KeyExactly(env, spec, raw);
    if KeyOf(env, spec, raw).Got? {
      var key := KeyOf(env, spec, raw).value;
      BodyRefusal(env, spec, raw, row, seen, key);
      assert RefusedAfterKey(env, spec, raw, row, seen, key, MapRow(env, spec, raw, row, seen));
    }
    hide Body, HasKey, RefusedAfterKey, Blank;
  }

  ghost predicate RefusedAfterKey(env: Env, spec: Spec, raw: Row, row: nat, seen: set<string>, key: string, r: RowOutcome) {
    if spec.typeName + ":" + key in seen then RefusedAs(r, row, PrimaryKeyConflict, Some(spec.pkFrom), None)
    else
      || (exists j: nat :: FirstFailing(spec.fields, raw, j)
            && RefusedAs(r, row, TransformFailed, Some(spec.fields[j].from),
                         Some(Read(spec.fields[j].chain, raw, spec.fields[j].from).step)))
      || (exists values, filled :: FieldsRead(spec.fields, raw, values) && KeyFilledIn(env, spec.primaryKey, key, values, filled)
            && RefusedLater(env, spec, raw, row, filled, r))
  }

  /** By validation, else by a weight. */
  ghost predicate RefusedLater(env: Env, spec: Spec, raw: Row, row: nat, filled: map<string, Cell>, r: RowOutcome) {
    var errors := env.validate(filled).errors;
    if errors != [] then
      exists column :: NamedColumn(spec, errors[0].prop, column)
        && RefusedAs(r, row, if errors[0].required then Required else Type, column, errors[0].detail)
    else
      exists i: nat :: FirstUnweighed(env, spec.links, raw, i)
        && RefusedAs(r, row, Type, spec.links[i].weightFrom, Some("weight"))
  }

  lemma BodyRefusal(env: Env, spec: Spec, raw: Row, row: nat, seen: set<string>, key: string)
    requires KeyOf(env, spec, raw) == Got(key) && MapRow(env, spec, raw, row, seen).Refused?
    ensures RefusedAfterKey(env, spec, raw, row, seen, key, MapRow(env, spec, raw, row, seen))
  {
    hide KeyOf;
    if ObjectKey(spec.typeName, key) !in seen {
      FieldsExactly(spec.fields, raw);
      var fields := FieldValues(spec.fields, raw);
      if fields.Got? {
        var values := fields.value;
        var known := if spec.primaryKey in values then values[spec.primaryKey] else None;
        BlankIsNothing(env, known);
        var filled := if Blank(env, known) then values[spec.primaryKey := Some(JStr(key))] else values;
        assert KeyFilledIn(env, spec.primaryKey, key, values, filled);
        LaterRefusal(env, spec, raw, row, filled, MapRow(env, spec, raw, row, seen), key);
        hide FieldsRead, RefusedLater, KeyFilledIn;
      }
      hide FieldValues, FieldsRead, LinksOf, Blank;
    }
  }

  lemma LaterRefusal(env: Env, spec: Spec, raw: Row, row: nat, filled: map<string, Cell>, r: RowOutcome, key: string)
    requires var checked := env.validate(filled);
      if checked.errors != [] then
        var first := checked.errors[0];
        r == Refuse(row, if first.required then Required else Type, ColumnOf(spec, spec.fields, first.prop), first.detail)
      else
        LinksOf(env, spec.links, raw).Bad?
        && var bad := LinksOf(env, spec.links, raw); r == Refuse(row, bad.code, Some(bad.column), bad.detail)
    ensures RefusedLater(env, spec, raw, row, filled, r)
  {
    var errors := env.validate(filled).errors;
    if errors != [] {
      ColumnExactly(spec, |spec.fields|, errors[0].prop);
      assert spec.fields[..|spec.fields|] == spec.fields && spec.(fields := spec.fields) == spec;
      hide NamedColumn, ColumnOf;
    } else {
      var made := LinksExactly(env, spec.links, raw);
      hide LinksOf, Weighs;
    }
  }

  /** What mapping a batch puts out for row `k`: the outcome of that row, with the keys taken so far. */
  lemma OutputOfRow(env: Env, spec: Spec, rows: seq<Row>, firstRow: nat, seen: set<string>, k: nat)
    requires k < |rows|
    ensures var before, out := Mapped(env, spec, rows[..k], firstRow, seen), Mapped(env, spec, rows, firstRow, seen);
      match MapRow(env, spec, rows[k], firstRow + k, seen + set x | x in before.keys)
      case Accepted(cmd, key) =>
        |before.cmds| < |out.cmds| && out.cmds[|before.cmds|] == cmd && |before.keys| < |out.keys| && out.keys[|before.keys|] == key
      case Refused(reject) => |before.rejects| < |out.rejects| && out.rejects[|before.rejects|] == reject
  {
    hide MapRow;
    MappedSnoc(env, spec, rows, firstRow, seen, k);
    var before := Mapped(env, spec, rows[..k], firstRow, seen);
    assert Elements(before.keys) == set x | x in before.keys;
    MappingComposes(env, spec, rows[..k + 1], rows[k + 1..], firstRow, seen);
    assert rows[..k + 1] + rows[k + 1..] == rows;
    hide Mapped, Elements;
  }
}
