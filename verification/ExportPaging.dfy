/**
 * Keyset-paged export of a workspace's graph (object-graph tenant_lifecycle.ts and
 * d1_lifecycle_store.ts): one call reads one page after a cursor; following the cursor reads
 * every row once, and rows that stay put are read even while others come and go.
 */
module ExportPaging {
  import opened Common
  import opened ArchiveText

  // --- Key order ----------------------------------------------------------------------------

  type Key = seq<string>

  /** Text order, character by character. */
  predicate TextLess(a: string, b: string) {
    b != "" && (a == "" || a[0] < b[0] || (a[0] == b[0] && TextLess(a[1..], b[1..])))
  }

  /** Row-value order of the key columns. */
  predicate KeyLess(a: Key, b: Key) {
    b != [] && (a == [] || TextLess(a[0], b[0]) || (a[0] == b[0] && KeyLess(a[1..], b[1..])))
  }

  predicate AtMost(a: Key, b: Key) {
    a == b || KeyLess(a, b)
  }

  lemma {:induction false} TextOrder(a: string, b: string, c: string)
    ensures !TextLess(a, a)
    ensures TextLess(a, b) && TextLess(b, c) ==> TextLess(a, c)
    ensures a == b || TextLess(a, b) || TextLess(b, a)
  {
    if a != "" {
      TextOrder(a[1..], if b == "" then "" else b[1..], if c == "" then "" else c[1..]);
      if b != "" && a[0] == b[0] && a[1..] == b[1..] {
        assert a == [a[0]] + a[1..] == b;
      }
    }
  }

  lemma {:induction false} KeyOrder(a: Key, b: Key, c: Key)
    ensures !KeyLess(a, a)
    ensures KeyLess(a, b) && KeyLess(b, c) ==> KeyLess(a, c)
    ensures a == b || KeyLess(a, b) || KeyLess(b, a)
  {
    hide TextLess;
    if a != [] {
      var b1, c1 := if b == [] then [] else b[1..], if c == [] then [] else c[1..];
      KeyOrder(a[1..], b1, c1);
      TextOrder(a[0], if b == [] then "" else b[0], if c == [] then "" else c[0]);
      if b != [] && a[0] == b[0] && a[1..] == b[1..] {
        assert a == [a[0]] + a[1..] == b;
      }
    }
  }

  /** Text order is decided at the first character that differs, or by the length. */
  lemma {:induction false} TextLessAt(a: string, b: string, k: nat)
    requires k <= |a| && k <= |b| && a[..k] == b[..k]
    requires k == |a| || k == |b| || a[k] != b[k]
    ensures TextLess(a, b) <==> if k == |a| || k == |b| then |a| < |b| else a[k] < b[k]
  {
    if k > 0 {
      assert a[0] == a[..k][0] == b[..k][0] == b[0];
      assert a[1..][..k - 1] == a[..k][1..] && b[1..][..k - 1] == b[..k][1..];
      TextLessAt(a[1..], b[1..], k - 1);
    }
  }

  /** Keys of one width are ordered at the first column that differs. */
  lemma {:induction false} KeyLessAt(a: Key, b: Key, k: nat)
    requires k < |a| == |b| && a[..k] == b[..k] && a[k] != b[k]
    ensures KeyLess(a, b) <==> TextLess(a[k], b[k])
  {
    hide TextLess;
    if k > 0 {
      assert a[0] == a[..k][0] == b[..k][0] == b[0];
      assert a[1..][..k - 1] == a[..k][1..] && b[1..][..k - 1] == b[..k][1..];
      TextOrder(a[0], a[0], a[0]);
      KeyLessAt(a[1..], b[1..], k - 1);
    }
  }

  // --- Stored rows --------------------------------------------------------------------------

  /** A stored row: its key columns and its record as one JSON line. */
  datatype Row = Row(key: Key, line: Text)

  /** The exported tables, each in the order of its primary key. */
  datatype Store = Store(objects: seq<Row>, links: seq<Row>, audit: seq<Row>) {
    function Table(f: nat): seq<Row> {
      if f == 0 then objects else if f == 1 then links else audit
    }
  }

  const FILES: seq<ArchiveFile> := [Objects, Links, Audit]

  function Width(f: nat): nat {
    if f == 1 then 3 else 1
  }

  ghost predicate Sorted(rows: seq<Row>) {
    forall i, j :: 0 <= i < j < |rows| ==> KeyLess(rows[i].key, rows[j].key)
  }

  ghost predicate IsRecord(r: Row, f: nat) {
    |r.key| == Width(f) && IsLine(r.line) && !IsBlank(r.line)
  }

  ghost predicate ValidTable(rows: seq<Row>, f: nat) {
    Sorted(rows) && forall r :: r in rows ==> IsRecord(r, f)
  }

  ghost predicate ValidStore(s: Store) {
    forall f: nat :: f < 3 ==> ValidTable(s.Table(f), f)
  }

  /** The lower bound a cursor puts on the key; missing columns count as ''. */
  function Bound(f: nat, k: Option<Key>): (b: Key)
    ensures k.Some? && |k.value| == Width(f) ==> b == k.value
  {
    seq(Width(f), i requires 0 <= i => if k.Some? && i < |k.value| then k.value[i] else "")
  }

  /**
   * A cursor with fewer columns than the file's key: of the rows that start with its columns, those
   * with anything in a later column come after it.
   */
  lemma ShortCursor(f: nat, k: Key, key: Key)
    requires |k| <= Width(f) == |key| && key[..|k|] == k
    ensures KeyLess(Bound(f, Some(k)), key) <==> exists i :: |k| <= i < |key| && key[i] != ""
  {
    var b := Bound(f, Some(k));
    forall i | 0 <= i < |k| ensures b[i] == key[i] {
      assert key[..|k|][i] == key[i];
    }
    PaddedLess(b, key, |k|);
  }

  lemma {:induction false} PaddedLess(b: Key, key: Key, n: nat)
    requires n <= |b| == |key| && (forall i :: 0 <= i < n ==> b[i] == key[i]) && forall i :: n <= i < |b| ==> b[i] == ""
    ensures KeyLess(b, key) <==> exists i :: n <= i < |key| && key[i] != ""
    decreases |b|
  {
    if b != [] {
      TextOrder(b[0], b[0], b[0]);
      PaddedLess(b[1..], key[1..], Max(0, n - 1));
      assert forall i :: 0 < i < |key| ==> key[i] == key[1..][i - 1];
      if i :| 0 <= i < |key| - 1 && n <= i + 1 && key[1..][i] != "" {
        assert key[i + 1] != "";
      }
    }
  }

  function After(rows: seq<Row>, b: Key): seq<Row> {
    if rows == [] then []
    else After(rows[..|rows| - 1], b) + if KeyLess(b, rows[|rows| - 1].key) then [rows[|rows| - 1]] else []
  }

  lemma {:induction false} AfterReads(rows: seq<Row>, b: Key)
    requires Sorted(rows)
    ensures Sorted(After(rows, b))
    ensures forall r :: r in After(rows, b) <==> r in rows && KeyLess(b, r.key)
  {
    hide KeyLess;
    if rows == [] {
    } else {
      var n := |rows| - 1;
      AfterReads(rows[..n], b);
      assert rows == rows[..n] + [rows[n]];
      var head := After(rows[..n], b);
      forall i | 0 <= i < |head| ensures KeyLess(head[i].key, rows[n].key) {
        assert head[i] in rows[..n];
      }
    }
  }

  /** exportRows: at most `limit` rows after the cursor, in key order. */
  function ExportRows(s: Store, f: nat, k: Option<Key>, limit: nat): seq<Row> {
    var rows := After(s.Table(f), Bound(f, k));
    if |rows| <= limit then rows else rows[..limit]
  }

  // --- One page -----------------------------------------------------------------------------

  function LinesOf(rows: seq<Row>): (r: seq<Text>)
    ensures |r| == |rows|
    ensures forall i :: 0 <= i < |r| ==> r[i] == rows[i].line
  {
    seq(|rows|, i requires 0 <= i < |rows| => rows[i].line)
  }

  function TextOfRows(rows: seq<Row>): Text {
    Join(LinesOf(rows))
  }

  /** How many of the rows go onto the page when the first `n` already do. */
  function Taken(rows: seq<Row>, pageBytes: nat, n: nat): (r: nat)
    requires n <= |rows|
    ensures n <= r <= |rows|
    ensures n == 0 && rows != [] ==> r > 0
    decreases |rows| - n
  {
    if n == |rows| || (n > 0 && |TextOfRows(rows[..n + 1])| > pageBytes) then n
    else Taken(rows, pageBytes, n + 1)
  }

  lemma {:induction false} TakenFits(rows: seq<Row>, pageBytes: nat, n: nat)
    requires n <= |rows| && (n <= 1 || |TextOfRows(rows[..n])| <= pageBytes)
    ensures var r := Taken(rows, pageBytes, n); r <= 1 || |TextOfRows(rows[..r])| <= pageBytes
    decreases |rows| - n
  {
    if !(n == |rows| || (n > 0 && |TextOfRows(rows[..n + 1])| > pageBytes)) {
      TakenFits(rows, pageBytes, n + 1);
    }
  }

  datatype Cursor = Cursor(f: nat, k: Option<Key>)

  datatype Page = Page(f: nat, rows: seq<Row>, next: Option<Cursor>)

  const START := Cursor(0, None)

  /** The page after a cursor: files without rows are passed over, except the last. */
  function PageAt(s: Store, c: Cursor, pageRows: nat, pageBytes: nat): (p: Page)
    requires c.f < 3 && pageRows > 0
    ensures c.f <= p.f < 3
    ensures p.next.Some? ==> p.f <= p.next.value.f < 3
    decreases 3 - c.f
  {
    var got := ExportRows(s, c.f, c.k, pageRows);
    var n := Taken(got, pageBytes, 0);
    var done := n == |got| && |got| < pageRows;
    if !done then Page(c.f, got[..n], Some(Cursor(c.f, Some(got[n - 1].key))))
    else if c.f + 1 == 3 then Page(c.f, got[..n], None)
    else if n > 0 then Page(c.f, got[..n], Some(Cursor(c.f + 1, None)))
    else PageAt(s, Cursor(c.f + 1, None), pageRows, pageBytes)
  }

  /** What a caller hands back: nothing, something unreadable, or a decoded cursor. */
  datatype Token = Absent | Garbled | Decoded(f: int, k: Option<Key>)

  datatype ExportPage = Served(file: ArchiveFile, text: Text, next: Option<Cursor>) | Refused

  predicate Readable(t: Token) {
    t.Absent? || (t.Decoded? && 0 <= t.f < 3)
  }

  function CursorOf(t: Token): Cursor
    requires Readable(t)
  {
    if t.Absent? then START else Cursor(t.f, t.k)
  }

  lemma TextOfRowsSnoc(rows: seq<Row>, n: nat)
    requires n < |rows|
    ensures TextOfRows(rows[..n + 1]) == TextOfRows(rows[..n]) + rows[n].line + "\n"
  {
    PrefixSnoc(rows, n);
    assert LinesOf(rows[..n + 1])[..n] == LinesOf(rows[..n]);
  }

  method FillPage(rows: seq<Row>, k: Option<Key>, pageBytes: nat) returns (n: nat, text: Text, last: Option<Key>)
    ensures n == Taken(rows, pageBytes, 0)
    ensures text == TextOfRows(rows[..n])
    ensures last == if n == 0 then k else Some(rows[n - 1].key)
  {
    text, last, n := "", k, 0;
    var bytes := 0;
    for i := 0 to |rows|
      invariant n == i && text == TextOfRows(rows[..n]) && bytes == |text|
      invariant last == if n == 0 then k else Some(rows[n - 1].key)
      invariant Taken(rows, pageBytes, 0) == Taken(rows, pageBytes, n)
    {
      var line := rows[i].line + "\n";
      TextOfRowsSnoc(rows, i);
      assert text + line == TextOfRows(rows[..i + 1]);
      if n > 0 && bytes + |line| > pageBytes {
        break;
      }
      text := text + line;
      bytes := bytes + |line|;
      last := Some(rows[i].key);
      n := n + 1;
    }
  }

  method ExportTenant(s: Store, token: Token, pageRows: nat, pageBytes: nat) returns (r: ExportPage)
    requires pageRows > 0
    ensures r.Refused? <==> !Readable(token)
    ensures Readable(token) ==>
      var p := PageAt(s, CursorOf(token), pageRows, pageBytes);
      r == Served(FILES[p.f], TextOfRows(p.rows), p.next)
  {
    hide ExportRows, TextOfRows, Taken;
    if !Readable(token) {
      return Refused;
    }
    var f, k := CursorOf(token).f, CursorOf(token).k;
    while true
      invariant f < 3
      invariant PageAt(s, CursorOf(token), pageRows, pageBytes) == PageAt(s, Cursor(f, k), pageRows, pageBytes)
      decreases 3 - f
    {
      var rows := ExportRows(s, f, k, pageRows);
      var n, text, last := FillPage(rows, k, pageBytes);
      var fileDone := n == |rows| && |rows| < pageRows;
      if !fileDone {
        return Served(FILES[f], text, Some(Cursor(f, last)));
      }
      var next := f + 1;
      if next >= |FILES| {
        return Served(FILES[f], text, None);
      }
      if n > 0 {
        return Served(FILES[f], text, Some(Cursor(next, None)));
      }
      f := next;
      k := None;
    }
  }

  /** What a page says of its file: all rows after a bound, up to a key or to the end. */
  ghost predicate Reads(rows: seq<Row>, b: Key, part: seq<Row>, upto: Option<Key>) {
    && Sorted(part)
    && (forall r :: r in part ==> r in rows && Within(r.key, b, upto))
    && (forall r :: r in rows && Within(r.key, b, upto) ==> r in part)
  }

  predicate Within(key: Key, b: Key, upto: Option<Key>) {
    KeyLess(b, key) && (upto.None? || AtMost(key, upto.value))
  }

  lemma ReadsPrefix(rows: seq<Row>, b: Key, n: nat)
    requires Sorted(rows) && 0 < n <= |After(rows, b)|
    ensures Reads(rows, b, After(rows, b)[..n], Some(After(rows, b)[n - 1].key))
  {
    AfterReads(rows, b);
    var all := After(rows, b);
    var last := all[n - 1].key;
    hide KeyLess, After;
    forall r | r in all[..n] ensures r in rows && Within(r.key, b, Some(last)) {
      var i :| 0 <= i < n && all[i] == r;
      assert r in all;
    }
    forall r | r in rows && Within(r.key, b, Some(last)) ensures r in all[..n] {
      assert r in all;
      var i :| 0 <= i < |all| && all[i] == r;
      if i >= n {
        KeyOrder(last, r.key, last);
        assert false;
      }
      assert all[..n][i] == r;
    }
  }

  lemma ReadsAll(rows: seq<Row>, b: Key)
    requires Sorted(rows)
    ensures Reads(rows, b, After(rows, b), None)
  {
    AfterReads(rows, b);
  }

  /** How far a page got in its own file. */
  function Upto(p: Page): Option<Key> {
    if p.next.Some? && p.next.value.f == p.f then p.next.value.k else None
  }

  function BoundIn(c: Cursor, g: nat): Key {
    Bound(g, if g == c.f then c.k else None)
  }

  /** The next cursor: the start of the next file, or the last key of this page. */
  ghost predicate NextAfter(c: Cursor, p: Page) {
    p.next.Some? &&
    var d := p.next.value;
    if d.f == p.f then
      && p.rows != [] && d.k == Some(p.rows[|p.rows| - 1].key)
      && |d.k.value| == Width(d.f) && KeyLess(BoundIn(c, p.f), d.k.value)
    else d == Cursor(p.f + 1, None)
  }

  /** What one read of one file takes: all of it, or a non-empty beginning. */
  lemma FileReads(s: Store, c: Cursor, pageRows: nat, pageBytes: nat)
    requires c.f < 3 && pageRows > 0 && ValidTable(s.Table(c.f), c.f)
    ensures var got := ExportRows(s, c.f, c.k, pageRows);
      var n := Taken(got, pageBytes, 0);
      && |got[..n]| <= pageRows
      && (|got[..n]| <= 1 || |TextOfRows(got[..n])| <= pageBytes)
      && if n == |got| && |got| < pageRows then Reads(s.Table(c.f), Bound(c.f, c.k), got[..n], None)
         else
           && n > 0
           && Reads(s.Table(c.f), Bound(c.f, c.k), got[..n], Some(got[n - 1].key))
           && |got[n - 1].key| == Width(c.f) && KeyLess(Bound(c.f, c.k), got[n - 1].key)
  {
    var rows, b := s.Table(c.f), Bound(c.f, c.k);
    AfterReads(rows, b);
    ReadsAll(rows, b);
    var got := ExportRows(s, c.f, c.k, pageRows);
    TakenFits(got, pageBytes, 0);
    var n := Taken(got, pageBytes, 0);
    hide Taken, After, TextOfRows, Reads, Sorted, Bound, KeyLess, IsLine;
    if n == |got| && |got| < pageRows {
      assert got[..n] == After(rows, b);
    } else {
      assert got[..n] == After(rows, b)[..n];
      ReadsPrefix(rows, b, n);
      assert got[n - 1] in After(rows, b);
    }
  }

  /** A page holds the rows after its cursor, within the limits; the files it passed over had none. */
  ghost predicate PageOk(s: Store, c: Cursor, p: Page, pageRows: nat, pageBytes: nat) {
    && c.f <= p.f < 3
    && |p.rows| <= pageRows
    && (|p.rows| <= 1 || |TextOfRows(p.rows)| <= pageBytes)
    && Reads(s.Table(p.f), BoundIn(c, p.f), p.rows, Upto(p))
    && (forall g: nat :: c.f <= g < p.f ==> Reads(s.Table(g), BoundIn(c, g), [], None))
    && (if p.next.None? then p.f == 2 else NextAfter(c, p))
  }

  predicate Passes(s: Store, c: Cursor, pageRows: nat) {
    c.f < 2 && ExportRows(s, c.f, c.k, pageRows) == []
  }

  lemma PageHere(s: Store, c: Cursor, pageRows: nat, pageBytes: nat)
    requires c.f < 3 && pageRows > 0 && ValidTable(s.Table(c.f), c.f) && !Passes(s, c, pageRows)
    ensures PageOk(s, c, PageAt(s, c, pageRows, pageBytes), pageRows, pageBytes)
  {
    hide TextOfRows, Reads, Bound, KeyLess, ExportRows, Sorted, IsRecord, Taken;
    FileReads(s, c, pageRows, pageBytes);
    var got := ExportRows(s, c.f, c.k, pageRows);
    var p := PageAt(s, c, pageRows, pageBytes);
    assert p.f == c.f;
    assert BoundIn(c, c.f) == Bound(c.f, c.k);
  }

  lemma PagePassed(s: Store, c: Cursor, p: Page, pageRows: nat, pageBytes: nat)
    requires pageRows > 0 && c.f < 2 && ValidTable(s.Table(c.f), c.f) && Passes(s, c, pageRows)
    requires PageOk(s, Cursor(c.f + 1, None), p, pageRows, pageBytes)
    ensures PageOk(s, c, p, pageRows, pageBytes)
  {
    hide TextOfRows, Reads, Bound, KeyLess, Sorted, IsRecord, After;
    ReadsAll(s.Table(c.f), Bound(c.f, c.k));
    assert After(s.Table(c.f), Bound(c.f, c.k)) == [];
    assert forall g: nat :: c.f < g ==> BoundIn(c, g) == BoundIn(Cursor(c.f + 1, None), g);
  }

  lemma {:induction false} PageReads(s: Store, c: Cursor, pageRows: nat, pageBytes: nat)
    requires c.f < 3 && pageRows > 0 && ValidStore(s)
    ensures PageOk(s, c, PageAt(s, c, pageRows, pageBytes), pageRows, pageBytes)
    decreases 3 - c.f
  {
    assert ValidTable(s.Table(c.f), c.f);
    hide PageOk, ExportRows, ValidStore, ValidTable, Taken;
    if Passes(s, c, pageRows) {
      PageReads(s, Cursor(c.f + 1, None), pageRows, pageBytes);
      PagePassed(s, c, PageAt(s, Cursor(c.f + 1, None), pageRows, pageBytes), pageRows, pageBytes);
    } else {
      PageHere(s, c, pageRows, pageBytes);
    }
  }

  // --- How much a page takes ----------------------------------------------------------------

  lemma {:induction false} TakenIsMost(rows: seq<Row>, pageBytes: nat, n: nat)
    requires n <= |rows|
    ensures var r := Taken(rows, pageBytes, n); r == |rows| || |TextOfRows(rows[..r + 1])| > pageBytes
    decreases |rows| - n
  {
    if !(n == |rows| || (n > 0 && |TextOfRows(rows[..n + 1])| > pageBytes)) {
      TakenIsMost(rows, pageBytes, n + 1);
    }
  }

  /** The rows are the first of those left, and no more of them fit. */
  ghost predicate Fills(left: seq<Row>, rows: seq<Row>, pageRows: nat, pageBytes: nat) {
    && rows <= left && |rows| <= pageRows
    && (|rows| < |left| ==> |rows| == pageRows || |TextOfRows(left[..|rows| + 1])| > pageBytes)
  }

  lemma FileFills(s: Store, c: Cursor, pageRows: nat, pageBytes: nat)
    requires c.f < 3
    ensures var got := ExportRows(s, c.f, c.k, pageRows);
      Fills(After(s.Table(c.f), Bound(c.f, c.k)), got[..Taken(got, pageBytes, 0)], pageRows, pageBytes)
  {
    hide TextOfRows, Bound, KeyLess, Taken, After;
    var got := ExportRows(s, c.f, c.k, pageRows);
    var left := After(s.Table(c.f), Bound(c.f, c.k));
    TakenIsMost(got, pageBytes, 0);
    var n := Taken(got, pageBytes, 0);
    assert got[..n] == left[..n];
    assert n < |got| ==> got[..n + 1] == left[..n + 1];
  }

  /**
   * A page holds as much as it may of what is left in its file after the cursor: the next row would
   * exceed the rows or the bytes of a page. It goes on in its file while more may be left, is empty
   * only at the end of the last file, and passes over the files with nothing left.
   */
  lemma {:induction false} PageIsFull(s: Store, c: Cursor, pageRows: nat, pageBytes: nat)
    requires c.f < 3 && pageRows > 0
    ensures var p := PageAt(s, c, pageRows, pageBytes);
      && Fills(After(s.Table(p.f), BoundIn(c, p.f)), p.rows, pageRows, pageBytes)
      && (p.rows == [] ==> p.f == 2 && p.next == None)
      && (p.next.Some? && p.next.value.f != p.f ==> p.rows == After(s.Table(p.f), BoundIn(c, p.f)) && p.next == Some(Cursor(p.f + 1, None)))
      && (p.next == None ==> p.rows == After(s.Table(p.f), BoundIn(c, p.f)))
      && (forall g: nat :: c.f <= g < p.f ==> After(s.Table(g), BoundIn(c, g)) == [])
    decreases 3 - c.f
  {
    hide TextOfRows, Bound, KeyLess, Taken, After, Fills;
    FileFills(s, c, pageRows, pageBytes);
    var got := ExportRows(s, c.f, c.k, pageRows);
    var n := Taken(got, pageBytes, 0);
    if n == |got| && |got| < pageRows {
      assert got[..n] == After(s.Table(c.f), Bound(c.f, c.k));
    }
    hide ExportRows;
    if n == 0 && |got| < pageRows && c.f < 2 {
      PageIsFull(s, Cursor(c.f + 1, None), pageRows, pageBytes);
      assert forall g: nat :: c.f < g ==> BoundIn(c, g) == BoundIn(Cursor(c.f + 1, None), g);
    }
  }
}
