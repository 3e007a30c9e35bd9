/**
 * Mapping source rows to upsert commands (mapping.ts): each row passes its checks in order or
 * yields one reject, and a key is accepted once within a job. Transforms, text conversion and
 * property validation are parameters.
 */
module RowMapping {
  import opened Common

  /** A cell of a source row; None is a missing column. */
  type Cell = Option<Json>

  type Row = map<string, Json>

  datatype Applied = Value(cell: Cell) | Failed(step: string)

  type Chain = Cell -> Applied

  datatype Field = Field(to: string, from: string, chain: Chain)

  datatype LinkSpec = LinkSpec(linkType: string, toType: string, toKey: string, split: Option<string>, weightFrom: Option<string>)

  datatype Spec = Spec(
    typeName: string, primaryKey: string,
    pkFrom: string, pkChain: Chain,
    fields: seq<Field>, links: seq<LinkSpec>)

  datatype Issue = Issue(required: bool, prop: string, detail: Option<string>)

  datatype Checked = Checked(props: map<string, Json>, errors: seq<Issue>)

  /** What the mapping calls out to. */
  datatype Env = Env(
    trim: string -> string,
    text: Json -> string,
    splitOn: (string, string) -> seq<string>,
    toNumber: Chain,
    validate: map<string, Cell> -> Checked)

  datatype Code = PrimaryKeyMissing | PrimaryKeyConflict | Required | Type | TransformFailed | FromGraph(name: string)

  datatype Reject = Reject(row: nat, code: Code, column: Option<string>, detail: Option<string>)

  datatype Link = Link(linkType: string, toType: string, toKey: string, weight: Option<real>)

  datatype Cmd = Cmd(typeName: string, primaryKey: string, props: map<string, Json>, row: nat, links: seq<Link>)

  datatype Output = Output(cmds: seq<Cmd>, rejects: seq<Reject>, keys: seq<string>)

  function CellOf(raw: Row, column: string): Cell {
    if column in raw then Some(raw[column]) else None
  }

  predicate Blank(env: Env, c: Cell) {
    c.None? || c.value.JNull? || (c.value.JStr? && env.trim(c.value.s) == "")
  }

  function ObjectKey(typeName: string, primaryKey: string): string {
    typeName + ":" + primaryKey
  }

  function TrimAll(env: Env, parts: seq<string>): seq<string> {
    if parts == [] then []
    else
      var last := env.trim(parts[|parts| - 1]);
      TrimAll(env, parts[..|parts| - 1]) + if last == "" then [] else [last]
  }

  function Texts(env: Env, items: seq<Json>): (r: seq<string>)
    ensures |r| == |items|
  {
    seq(|items|, i requires 0 <= i < |items| => env.text(items[i]))
  }

  /** The keys of a link cell: every item of a list, the pieces of a split text, or the text itself. */
  function LinkKeys(env: Env, c: Cell, split: Option<string>): seq<string> {
    if Blank(env, c) then []
    else
      var parts :=
        if c.value.JArr? then Texts(env, c.value.items)
        else if split.Some? && split.value != "" then env.splitOn(env.text(c.value), split.value)
        else [env.text(c.value)];
      TrimAll(env, parts)
  }

  function LinksTo(l: LinkSpec, weight: Option<real>, keys: seq<string>): (r: seq<Link>)
    ensures |r| == |keys|
  {
    seq(|keys|, i requires 0 <= i < |keys| => Link(l.linkType, l.toType, keys[i], weight))
  }

  // --- One row, as a value --------------------------------------------------------------------

  datatype Gathered<T> = Got(value: T) | Bad(code: Code, column: string, detail: Option<string>)

  /** The field values, up to the first transform that fails. */
  function FieldValues(fields: seq<Field>, raw: Row): Gathered<map<string, Cell>> {
    if fields == [] then Got(map[])
    else
      var f := fields[|fields| - 1];
      match FieldValues(fields[..|fields| - 1], raw)
      case Bad(c, col, d) => Bad(c, col, d)
      case Got(values) =>
        match f.chain(CellOf(raw, f.from))
        case Value(v) => Got(values[f.to := v])
        case Failed(step) => Bad(TransformFailed, f.from, Some(step))
  }

  function WeightOf(env: Env, l: LinkSpec, raw: Row): Gathered<Option<real>> {
    if l.weightFrom.None? || l.weightFrom.value == "" || Blank(env, CellOf(raw, l.weightFrom.value)) then Got(None)
    else
      match env.toNumber(CellOf(raw, l.weightFrom.value))
      case Value(v) =>
        if v.Some? && v.value.JNum? then Got(Some(v.value.n)) else Bad(Type, l.weightFrom.value, Some("weight"))
      case Failed(_) => Bad(Type, l.weightFrom.value, Some("weight"))
  }

  function LinksOf(env: Env, links: seq<LinkSpec>, raw: Row): Gathered<seq<Link>> {
    if links == [] then Got([])
    else
      var l := links[|links| - 1];
      match LinksOf(env, links[..|links| - 1], raw)
      case Bad(c, col, d) => Bad(c, col, d)
      case Got(made) =>
        match WeightOf(env, l, raw)
        case Bad(c, col, d) => Bad(c, col, d)
        case Got(weight) => Got(made + LinksTo(l, weight, LinkKeys(env, CellOf(raw, l.toKey), l.split)))
  }

  /** The column a property comes from. */
  function ColumnOf(spec: Spec, fields: seq<Field>, prop: string): Option<string> {
    if fields == [] then (if prop == spec.primaryKey then Some(spec.pkFrom) else None)
    else if fields[|fields| - 1].to == prop then Some(fields[|fields| - 1].from)
    else ColumnOf(spec, fields[..|fields| - 1], prop)
  }

  function NonEmpty(s: Option<string>): Option<string> {
    if s == Some("") then None else s
  }

  datatype RowOutcome = Accepted(cmd: Cmd, key: string) | Refused(reject: Reject)

  function Refuse(row: nat, code: Code, column: Option<string>, detail: Option<string>): RowOutcome {
    Refused(Reject(row, code, NonEmpty(column), NonEmpty(detail)))
  }

  /** The key a row asks for, when its key column can be read. */
  function KeyOf(env: Env, spec: Spec, raw: Row): Gathered<string> {
    match spec.pkChain(CellOf(raw, spec.pkFrom))
    case Failed(step) => Bad(TransformFailed, spec.pkFrom, Some(step))
    case Value(v) =>
      if Blank(env, v) || v.value.JObj? || v.value.JArr? then Bad(PrimaryKeyMissing, spec.pkFrom, None)
      else Got(env.trim(env.text(v.value)))
  }

  /** The checks after the key: transforms, properties, link weights. */
  function Body(env: Env, spec: Spec, raw: Row, row: nat, primaryKey: string): RowOutcome {
    match FieldValues(spec.fields, raw)
    case Bad(c, col, d) => Refuse(row, c, Some(col), d)
    case Got(values) =>
      var known := if spec.primaryKey in values then values[spec.primaryKey] else None;
      var filled := if Blank(env, known) then values[spec.primaryKey := Some(JStr(primaryKey))] else values;
      var checked := env.validate(filled);
      if checked.errors != [] then
        var err := checked.errors[0];
        Refuse(row, if err.required then Required else Type, ColumnOf(spec, spec.fields, err.prop), err.detail)
      else
        match LinksOf(env, spec.links, raw)
        case Bad(c, col, d) => Refuse(row, c, Some(col), d)
        case Got(links) =>
          Accepted(Cmd(spec.typeName, primaryKey, checked.props, row, links), ObjectKey(spec.typeName, primaryKey))
  }

  function MapRow(env: Env, spec: Spec, raw: Row, row: nat, seen: set<string>): RowOutcome {
    match KeyOf(env, spec, raw)
    case Bad(c, col, d) => Refuse(row, c, Some(col), d)
    case Got(primaryKey) =>
      if ObjectKey(spec.typeName, primaryKey) in seen then Refuse(row, PrimaryKeyConflict, Some(spec.pkFrom), None)
      else Body(env, spec, raw, row, primaryKey)
  }

  function Add(out: Output, r: RowOutcome): Output {
    match r
    case Accepted(cmd, key) => out.(cmds := out.cmds + [cmd], keys := out.keys + [key])
    case Refused(reject) => out.(rejects := out.rejects + [reject])
  }

  function Elements(s: seq<string>): set<string> {
    set x | x in s
  }

  /** Mapping a batch: row by row, with the keys accepted so far. */
  function Mapped(env: Env, spec: Spec, rows: seq<Row>, firstRow: nat, seen: set<string>): Output {
    if rows == [] then Output([], [], [])
    else
      var n := |rows| - 1;
      var out := Mapped(env, spec, rows[..n], firstRow, seen);
      Add(out, MapRow(env, spec, rows[n], firstRow + n, seen + Elements(out.keys)))
  }

  // --- The loops ------------------------------------------------------------------------------

  method ReadFields(fields: seq<Field>, raw: Row) returns (r: Gathered<map<string, Cell>>)
    ensures r == FieldValues(fields, raw)
  {
    var values: map<string, Cell> := map[];
    for i := 0 to |fields|
      invariant FieldValues(fields[..i], raw) == Got(values)
    {
      PrefixSnoc(fields, i);
      var f := fields[i];
      match f.chain(CellOf(raw, f.from)) {
        case Failed(step) =>
          r := Bad(TransformFailed, f.from, Some(step));
          StaysBadFields(fields, raw, i + 1);
          return;
        case Value(v) => values := values[f.to := v];
      }
    }
    assert fields[..|fields|] == fields;
    r := Got(values);
  }

  lemma {:induction false} StaysBadFields(fields: seq<Field>, raw: Row, n: nat)
    requires n <= |fields| && FieldValues(fields[..n], raw).Bad?
    ensures FieldValues(fields, raw) == FieldValues(fields[..n], raw)
    decreases |fields| - n
  {
    if n == |fields| {
      assert fields[..n] == fields;
    } else {
      PrefixSnoc(fields, n);
      StaysBadFields(fields, raw, n + 1);
    }
  }

  method ReadLinks(env: Env, links: seq<LinkSpec>, raw: Row) returns (r: Gathered<seq<Link>>)
    ensures r == LinksOf(env, links, raw)
  {
    var made: seq<Link> := [];
    for i := 0 to |links|
      invariant LinksOf(env, links[..i], raw) == Got(made)
    {
      PrefixSnoc(links, i);
      var l := links[i];
      match WeightOf(env, l, raw) {
        case Bad(c, col, d) =>
          r := Bad(c, col, d);
          StaysBadLinks(env, links, raw, i + 1);
          return;
        case Got(weight) =>
          made := made + LinksTo(l, weight, LinkKeys(env, CellOf(raw, l.toKey), l.split));
      }
    }
    assert links[..|links|] == links;
    r := Got(made);
  }

  lemma {:induction false} StaysBadLinks(env: Env, links: seq<LinkSpec>, raw: Row, n: nat)
    requires n <= |links| && LinksOf(env, links[..n], raw).Bad?
    ensures LinksOf(env, links, raw) == LinksOf(env, links[..n], raw)
    decreases |links| - n
  {
    if n == |links| {
      assert links[..n] == links;
    } else {
      PrefixSnoc(links, n);
      StaysBadLinks(env, links, raw, n + 1);
    }
  }

  method MapOne(env: Env, spec: Spec, raw: Row, row: nat, seen: set<string>) returns (r: RowOutcome)
    ensures r == MapRow(env, spec, raw, row, seen)
  {
    var primaryKey;
    match spec.pkChain(CellOf(raw, spec.pkFrom)) {
      case Failed(step) => return Refuse(row, TransformFailed, Some(spec.pkFrom), Some(step));
      case Value(v) =>
        if Blank(env, v) || v.value.JObj? || v.value.JArr? {
          return Refuse(row, PrimaryKeyMissing, Some(spec.pkFrom), None);
        }
        primaryKey := env.trim(env.text(v.value));
    }
    var key := ObjectKey(spec.typeName, primaryKey);
    if key in seen {
      return Refuse(row, PrimaryKeyConflict, Some(spec.pkFrom), None);
    }
    var fields := ReadFields(spec.fields, raw);
    if fields.Bad? {
      return Refuse(row, fields.code, Some(fields.column), fields.detail);
    }
    var values := fields.value;
    if spec.primaryKey !in values || Blank(env, values[spec.primaryKey]) {
      values := values[spec.primaryKey := Some(JStr(primaryKey))];
    }
    var checked := env.validate(values);
    if checked.errors != [] {
      var err := checked.errors[0];
      return Refuse(row, if err.required then Required else Type, ColumnOf(spec, spec.fields, err.prop), err.detail);
    }
    var links := ReadLinks(env, spec.links, raw);
    if links.Bad? {
      return Refuse(row, links.code, Some(links.column), links.detail);
    }
    r := Accepted(Cmd(spec.typeName, primaryKey, checked.props, row, links.value), key);
  }

  method MapRows(env: Env, spec: Spec, rows: seq<Row>, firstRow: nat, seen: set<string>) returns (out: Output)
    ensures out == Mapped(env, spec, rows, firstRow, seen)
  {
    hide MapRow;
    out := Output([], [], []);
    var taken := seen;
    for i := 0 to |rows|
      invariant out == Mapped(env, spec, rows[..i], firstRow, seen)
      invariant taken == seen + Elements(out.keys)
    {
      PrefixSnoc(rows, i);
      var r := MapOne(env, spec, rows[i], firstRow + i, taken);
      if r.Accepted? {
        ElementsAppend(out.keys, [r.key], seen);
        assert Elements([r.key]) == {r.key};
        taken := taken + {r.key};
        out := out.(keys := out.keys + [r.key], cmds := out.cmds + [r.cmd]);
      } else {
        out := out.(rejects := out.rejects + [r.reject]);
      }
    }
    assert rows[..|rows|] == rows;
  }

  // --- What mapping promises ------------------------------------------------------------------

  function Then(x: Output, y: Output): Output {
    Output(x.cmds + y.cmds, x.rejects + y.rejects, x.keys + y.keys)
  }

  /** Mapping two halves one after the other is mapping the whole. */
  lemma {:induction false} MappingComposes(env: Env, spec: Spec, a: seq<Row>, b: seq<Row>, firstRow: nat, seen: set<string>)
    ensures var x := Mapped(env, spec, a, firstRow, seen);
      Mapped(env, spec, a + b, firstRow, seen)
        == Then(x, Mapped(env, spec, b, firstRow + |a|, seen + Elements(x.keys)))
  {
    hide MapRow, Elements;
    var x := Mapped(env, spec, a, firstRow, seen);
    if b == [] {
      assert a + b == a;
      assert x.cmds + [] == x.cmds && x.rejects + [] == x.rejects && x.keys + [] == x.keys;
    } else {
      var n := |b| - 1;
      MappingComposes(env, spec, a, b[..n], firstRow, seen);
      assert (a + b)[..|a| + n] == a + b[..n] && (a + b)[|a| + n] == b[n];
      var y := Mapped(env, spec, b[..n], firstRow + |a|, seen + Elements(x.keys));
      ElementsAppend(x.keys, y.keys, seen);
      var r := MapRow(env, spec, b[n], firstRow + |a| + n, seen + Elements(x.keys + y.keys));
      AddThen(x, y, r);
    }
  }

  lemma ElementsAppend(a: seq<string>, b: seq<string>, seen: set<string>)
    ensures seen + Elements(a + b) == seen + Elements(a) + Elements(b)
  {
  }

  lemma AddThen(x: Output, y: Output, r: RowOutcome)
    ensures Add(Then(x, y), r) == Then(x, Add(y, r))
  {
    if r.Accepted? {
      assert x.cmds + y.cmds + [r.cmd] == x.cmds + (y.cmds + [r.cmd]);
      assert x.keys + y.keys + [r.key] == x.keys + (y.keys + [r.key]);
    } else {
      assert x.rejects + y.rejects + [r.reject] == x.rejects + (y.rejects + [r.reject]);
    }
  }

  /** The rows an output speaks of: commands and rejects, each in row order, one of them per row. */
  ghost predicate OnePerRow(out: Output, firstRow: nat, n: nat) {
    && |out.cmds| + |out.rejects| == n
    && (forall i, j :: 0 <= i < j < |out.cmds| ==> out.cmds[i].row < out.cmds[j].row)
    && (forall i, j :: 0 <= i < j < |out.rejects| ==> out.rejects[i].row < out.rejects[j].row)
    && (forall i :: 0 <= i < |out.cmds| ==> firstRow <= out.cmds[i].row < firstRow + n)
    && (forall i :: 0 <= i < |out.rejects| ==> firstRow <= out.rejects[i].row < firstRow + n)
    && (forall i, j :: 0 <= i < |out.cmds| && 0 <= j < |out.rejects| ==> out.cmds[i].row != out.rejects[j].row)
  }

  /** The accepted keys are those of the commands, each new. */
  ghost predicate FreshKeys(out: Output, seen: set<string>) {
    && |out.keys| == |out.cmds|
    && (forall i :: 0 <= i < |out.keys| ==> out.keys[i] == ObjectKey(out.cmds[i].typeName, out.cmds[i].primaryKey))
    && Distinct(out.keys)
    && (forall i :: 0 <= i < |out.keys| ==> out.keys[i] !in seen)
  }

  lemma RowOf(env: Env, spec: Spec, raw: Row, row: nat, seen: set<string>)
    ensures match MapRow(env, spec, raw, row, seen)
      case Accepted(cmd, key) => cmd.row == row && key == ObjectKey(cmd.typeName, cmd.primaryKey) && key !in seen
      case Refused(reject) => reject.row == row
  {
    hide FieldValues, LinksOf, Blank, ColumnOf;
  }

  /** Every row gives exactly one command or one reject, and no key is accepted twice in a job. */
  lemma {:induction false} EachRowOnce(env: Env, spec: Spec, rows: seq<Row>, firstRow: nat, seen: set<string>)
    ensures OnePerRow(Mapped(env, spec, rows, firstRow, seen), firstRow, |rows|)
    ensures FreshKeys(Mapped(env, spec, rows, firstRow, seen), seen)
  {
    hide MapRow, ObjectKey, OnePerRow, FreshKeys, Elements, Add;
    if rows == [] {
      NothingMapped(firstRow, seen);
    } else {
      var n := |rows| - 1;
      EachRowOnce(env, spec, rows[..n], firstRow, seen);
      var out := Mapped(env, spec, rows[..n], firstRow, seen);
      var r := MapRow(env, spec, rows[n], firstRow + n, seen + Elements(out.keys));
      RowOf(env, spec, rows[n], firstRow + n, seen + Elements(out.keys));
      AddOnce(out, r, firstRow, n);
      AddFresh(out, r, seen);
    }
  }

  lemma NothingMapped(firstRow: nat, seen: set<string>)
    ensures OnePerRow(Output([], [], []), firstRow, 0) && FreshKeys(Output([], [], []), seen)
  {
  }

  lemma AddOnce(out: Output, r: RowOutcome, firstRow: nat, n: nat)
    requires OnePerRow(out, firstRow, n)
    requires match r case Accepted(cmd, _) => cmd.row == firstRow + n case Refused(reject) => reject.row == firstRow + n
    ensures OnePerRow(Add(out, r), firstRow, n + 1)
  {
  }

  lemma AddFresh(out: Output, r: RowOutcome, seen: set<string>)
    requires FreshKeys(out, seen)
    requires r.Accepted? ==> r.key == ObjectKey(r.cmd.typeName, r.cmd.primaryKey) && r.key !in seen + Elements(out.keys)
    ensures FreshKeys(Add(out, r), seen)
  {
    hide ObjectKey;
    if r.Accepted? {
      assert forall i :: 0 <= i < |out.keys| ==> out.keys[i] in Elements(out.keys);
    }
  }

  /** A row is a conflict exactly when its key was accepted before it, in the job or in the batch. */
  lemma ConflictExactly(env: Env, spec: Spec, rows: seq<Row>, firstRow: nat, seen: set<string>, k: nat)
    requires k < |rows| && KeyOf(env, spec, rows[k]).Got?
    ensures var before := Mapped(env, spec, rows[..k], firstRow, seen);
      var key := ObjectKey(spec.typeName, KeyOf(env, spec, rows[k]).value);
      var r := MapRow(env, spec, rows[k], firstRow + k, seen + Elements(before.keys));
      && (r.Refused? && r.reject.code == PrimaryKeyConflict <==> key in seen || key in before.keys)
      && Mapped(env, spec, rows[..k + 1], firstRow, seen) == Add(before, r)
      && before.cmds <= Mapped(env, spec, rows, firstRow, seen).cmds
  {
    hide Body, KeyOf, ObjectKey;
    BodyIsNoConflict(env, spec, rows[k], firstRow + k, KeyOf(env, spec, rows[k]).value);
    MappedSnoc(env, spec, rows, firstRow, seen, k);
    hide Mapped;
    MappingComposes(env, spec, rows[..k], rows[k..], firstRow, seen);
    assert rows[..k] + rows[k..] == rows;
  }

  lemma MappedSnoc(env: Env, spec: Spec, rows: seq<Row>, firstRow: nat, seen: set<string>, k: nat)
    requires k < |rows|
    ensures var before := Mapped(env, spec, rows[..k], firstRow, seen);
      Mapped(env, spec, rows[..k + 1], firstRow, seen)
        == Add(before, MapRow(env, spec, rows[k], firstRow + k, seen + Elements(before.keys)))
  {
    PrefixSnoc(rows, k);
  }

  lemma BodyIsNoConflict(env: Env, spec: Spec, raw: Row, row: nat, primaryKey: string)
    ensures var r := Body(env, spec, raw, row, primaryKey); r.Refused? ==> r.reject.code != PrimaryKeyConflict
  {
    FieldsNoConflict(spec.fields, raw);
    LinksNoConflict(env, spec.links, raw);
    hide FieldValues, LinksOf, ColumnOf, Blank;
  }

  lemma {:induction false} FieldsNoConflict(fields: seq<Field>, raw: Row)
    ensures FieldValues(fields, raw).Bad? ==> FieldValues(fields, raw).code == TransformFailed
  {
    if fields != [] {
      FieldsNoConflict(fields[..|fields| - 1], raw);
    }
  }

  lemma {:induction false} LinksNoConflict(env: Env, links: seq<LinkSpec>, raw: Row)
    ensures LinksOf(env, links, raw).Bad? ==> LinksOf(env, links, raw).code == Type
  {
    if links != [] {
      LinksNoConflict(env, links[..|links| - 1], raw);
    }
  }
}
