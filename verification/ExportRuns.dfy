/**
 * Following an export cursor from the start (tenant_lifecycle.ts, archive_saga.ts): over a
 * changing workspace no row is read twice and none that stays is missed; over a settled one
 * the run ends and the assembled files hold exactly the stored rows.
 */
module ExportRuns {
  import opened Common
  import opened ArchiveText
  import opened ExportPaging

  /** The pages so far and where the next call starts. */
  datatype Progress = Progress(pages: seq<Page>, next: Option<Cursor>)

  /** One call per store: the workspace may change between calls. */
  function Follow(stores: seq<Store>, pageRows: nat, pageBytes: nat): (r: Progress)
    requires pageRows > 0
    ensures r.next.Some? ==> r.next.value.f < 3
    ensures |r.pages| <= |stores|
  {
    if stores == [] then Progress([], Some(START))
    else
      var n := |stores| - 1;
      var r := Follow(stores[..n], pageRows, pageBytes);
      if r.next.None? then r
      else
        var p := PageAt(stores[n], r.next.value, pageRows, pageBytes);
        Progress(r.pages + [p], p.next)
  }

  /** The rows of one file, page after page. */
  function Emitted(pages: seq<Page>, f: nat): seq<Row> {
    if pages == [] then []
    else Emitted(pages[..|pages| - 1], f) + if pages[|pages| - 1].f == f then pages[|pages| - 1].rows else []
  }

  predicate Passed(next: Option<Cursor>, f: nat, key: Key) {
    || next.None?
    || f < next.value.f
    || (f == next.value.f && next.value.k.Some? && AtMost(key, next.value.k.value))
  }

  /** Rows a run can see: those above the all-empty key. */
  predicate Visible(f: nat, key: Key) {
    KeyLess(Bound(f, None), key)
  }

  ghost predicate Held(stores: seq<Store>, f: nat, r: Row) {
    forall i :: 0 <= i < |stores| ==> r in stores[i].Table(f)
  }

  ghost predicate Seen(stores: seq<Store>, f: nat, r: Row) {
    exists i :: 0 <= i < |stores| && r in stores[i].Table(f)
  }

  ghost predicate ValidCursor(next: Option<Cursor>) {
    next.Some? && next.value.k.Some? ==> |next.value.k.value| == Width(next.value.f)
  }

  /** The rows read of one file: in order, all of them stored at some time and passed, none held throughout missing. */
  ghost predicate ReadSoFar(stores: seq<Store>, f: nat, rows: seq<Row>, next: Option<Cursor>) {
    && Sorted(rows)
    && (forall r :: r in rows ==> Seen(stores, f, r) && Visible(f, r.key) && Passed(next, f, r.key))
    && (forall r :: Held(stores, f, r) && Visible(f, r.key) && Passed(next, f, r.key) ==> r in rows)
  }

  lemma HeldSnoc(stores: seq<Store>, f: nat, r: Row)
    requires stores != []
    ensures var n := |stores| - 1;
      && (Held(stores, f, r) <==> Held(stores[..n], f, r) && r in stores[n].Table(f))
      && (Seen(stores, f, r) <==> Seen(stores[..n], f, r) || r in stores[n].Table(f))
  {
    hide Held;
    var n := |stores| - 1;
    assert forall i :: 0 <= i < n ==> stores[..n][i] == stores[i];
    HeldAlso(stores, f, r);
    if Seen(stores[..n], f, r) {
      var i :| 0 <= i < n && r in stores[..n][i].Table(f);
      assert r in stores[i].Table(f);
    }
  }

  lemma HeldAlso(stores: seq<Store>, f: nat, r: Row)
    requires stores != []
    ensures Held(stores, f, r) <==> Held(stores[..|stores| - 1], f, r) && r in stores[|stores| - 1].Table(f)
  {
    var n := |stores| - 1;
    assert forall i :: 0 <= i < n ==> stores[..n][i] == stores[i];
  }

  /** A file the run has left behind keeps what was read of it. */
  lemma StepBehind(stores: seq<Store>, f: nat, rows: seq<Row>, c: Cursor, next: Option<Cursor>)
    requires stores != [] && ReadSoFar(stores[..|stores| - 1], f, rows, Some(c))
    requires f < c.f && (next.None? || c.f <= next.value.f)
    ensures ReadSoFar(stores, f, rows, next)
  {
    hide Sorted, Visible, Seen, Held;
    forall r ensures Held(stores, f, r) ==> Held(stores[..|stores| - 1], f, r)
             ensures Seen(stores[..|stores| - 1], f, r) ==> Seen(stores, f, r) {
      HeldSnoc(stores, f, r);
    }
  }

  /** A file the run has not reached stays unread. */
  lemma StepAhead(stores: seq<Store>, f: nat, rows: seq<Row>, c: Cursor, next: Option<Cursor>)
    requires stores != [] && ReadSoFar(stores[..|stores| - 1], f, rows, Some(c))
    requires c.f < f && next.Some? && (next.value.f < f || next.value == Cursor(f, None))
    ensures rows == [] && ReadSoFar(stores, f, rows, next)
  {
    hide Visible, Seen, Held;
    NoMembers(rows);
  }

  lemma NoMembers(rows: seq<Row>)
    ensures rows == [] <==> forall r :: r !in rows
  {
    assert rows != [] ==> rows[0] in rows;
  }

  /** The bound a cursor puts on a file, seen from what has been read of it. */
  lemma BoundSplits(f: nat, c: Cursor, key: Key)
    requires c.f <= f && ValidCursor(Some(c)) && Visible(f, key)
    ensures KeyLess(BoundIn(c, f), key) <==> !Passed(Some(c), f, key)
  {
    if c.f == f && c.k.Some? {
      KeyOrder(key, c.k.value, key);
      KeyOrder(c.k.value, key, c.k.value);
    }
  }

  /** How a page's reach into a file shows in the next cursor. */
  ghost predicate Reaches(f: nat, next: Option<Cursor>, upto: Option<Key>) {
    forall key :: Passed(next, f, key) <==> upto.None? || AtMost(key, upto.value)
  }

  lemma ReachOf(c: Cursor, p: Page, f: nat)
    requires c.f <= f <= p.f < 3 && (if p.next.None? then p.f == 2 else NextAfter(c, p))
    ensures Reaches(f, p.next, if f == p.f then Upto(p) else None)
  {
    hide AtMost;
  }

  /** A read part starts where the cursor stood. */
  lemma PartIsNew(f: nat, c: Cursor, table: seq<Row>, part: seq<Row>, upto: Option<Key>)
    requires ValidCursor(Some(c)) && c.f <= f && Reads(table, BoundIn(c, f), part, upto)
    ensures forall r :: r in part ==> Visible(f, r.key) && !Passed(Some(c), f, r.key)
  {
    forall r | r in part ensures Visible(f, r.key) && !Passed(Some(c), f, r.key) {
      assert Within(r.key, BoundIn(c, f), upto);
      BoundIsVisible(f, c, r.key);
      BoundSplits(f, c, r.key);
    }
  }

  lemma BoundIsVisible(f: nat, c: Cursor, key: Key)
    requires ValidCursor(Some(c)) && c.f <= f && KeyLess(BoundIn(c, f), key)
    ensures Visible(f, key)
  {
    if c.f == f && c.k.Some? {
      LowestKey(Bound(f, None), c.k.value);
      KeyOrder(Bound(f, None), c.k.value, key);
    }
  }

  /** Nothing is below a key whose columns are all empty. */
  lemma {:induction false} LowestKey(zero: Key, key: Key)
    requires |zero| == |key| && forall i :: 0 <= i < |zero| ==> zero[i] == ""
    ensures !KeyLess(key, zero) && (KeyLess(zero, key) <==> zero != key)
  {
    if zero == [] {
    } else {
      LowestKey(zero[1..], key[1..]);
      assert zero == [zero[0]] + zero[1..] && key == [key[0]] + key[1..];
    }
  }

  lemma SortedJoin(f: nat, rows: seq<Row>, part: seq<Row>, c: Cursor)
    requires Sorted(rows) && Sorted(part) && c.f <= f
    requires forall r :: r in rows ==> Passed(Some(c), f, r.key)
    requires forall r :: r in part ==> !Passed(Some(c), f, r.key)
    ensures Sorted(rows + part)
  {
    forall i, j | 0 <= i < |rows| && 0 <= j < |part| ensures KeyLess(rows[i].key, part[j].key) {
      assert rows[i] in rows && part[j] in part;
      KeyOrder(part[j].key, rows[i].key, part[j].key);
      KeyOrder(part[j].key, rows[i].key, c.k.value);
      KeyOrder(rows[i].key, part[j].key, c.k.value);
    }
  }

  /** A file read in this call. */
  lemma StepHere(stores: seq<Store>, f: nat, rows: seq<Row>, c: Cursor, part: seq<Row>, upto: Option<Key>, next: Option<Cursor>)
    requires stores != [] && ReadSoFar(stores[..|stores| - 1], f, rows, Some(c))
    requires c.f <= f && ValidCursor(Some(c)) && Reaches(f, next, upto)
    requires Reads(stores[|stores| - 1].Table(f), BoundIn(c, f), part, upto)
    requires forall key :: Passed(Some(c), f, key) ==> Passed(next, f, key)
    ensures ReadSoFar(stores, f, rows + part, next)
  {
    var n := |stores| - 1;
    PartIsNew(f, c, stores[n].Table(f), part, upto);
    SortedJoin(f, rows, part, c);
    hide Visible, Seen, Held, Sorted, Passed;
    forall r | r in rows + part ensures Seen(stores, f, r) && Visible(f, r.key) && Passed(next, f, r.key) {
      HeldSnoc(stores, f, r);
      assert r in part ==> Within(r.key, BoundIn(c, f), upto);
    }
    forall r | Held(stores, f, r) && Visible(f, r.key) && Passed(next, f, r.key) ensures r in rows + part {
      HeldSnoc(stores, f, r);
      BoundSplits(f, c, r.key);
      assert Passed(Some(c), f, r.key) || Within(r.key, BoundIn(c, f), upto);
    }
  }

  lemma PassedOn(c: Cursor, p: Page, f: nat, key: Key)
    requires ValidCursor(Some(c)) && c.f <= f <= p.f < 3 && (if p.next.None? then p.f == 2 else NextAfter(c, p))
    requires Passed(Some(c), f, key)
    ensures Passed(p.next, f, key)
  {
    if p.next.Some? && p.next.value.f == f {
      KeyOrder(key, c.k.value, p.next.value.k.value);
    }
  }

  lemma EmittedSnoc(pages: seq<Page>, p: Page, f: nat)
    ensures Emitted(pages + [p], f) == Emitted(pages, f) + if p.f == f then p.rows else []
  {
    assert (pages + [p])[..|pages|] == pages;
  }

  lemma StepFile(stores: seq<Store>, f: nat, rows: seq<Row>, c: Cursor, p: Page, pageRows: nat, pageBytes: nat)
    requires stores != [] && ReadSoFar(stores[..|stores| - 1], f, rows, Some(c))
    requires f < 3 && ValidCursor(Some(c)) && PageOk(stores[|stores| - 1], c, p, pageRows, pageBytes)
    ensures ReadSoFar(stores, f, rows + if p.f == f then p.rows else [], p.next)
  {
    hide ReadSoFar, Reads, Passed, Reaches;
    assert rows + [] == rows;
    if f < c.f {
      StepBehind(stores, f, rows, c, p.next);
    } else if f > p.f {
      StepAhead(stores, f, rows, c, p.next);
    } else {
      forall key | Passed(Some(c), f, key) ensures Passed(p.next, f, key) {
        PassedOn(c, p, f, key);
      }
      ReachOf(c, p, f);
      StepHere(stores, f, rows, c, if p.f == f then p.rows else [], if f == p.f then Upto(p) else None, p.next);
    }
  }

  /**
   * Over any run, while rows come and go between the calls: what has been read of a file is in
   * key order without repeats, was stored at some call, and misses no row that stayed.
   */
  lemma {:induction false} SteadyRowsAreRead(stores: seq<Store>, f: nat, pageRows: nat, pageBytes: nat)
    requires pageRows > 0 && f < 3 && forall i :: 0 <= i < |stores| ==> ValidStore(stores[i])
    ensures var r := Follow(stores, pageRows, pageBytes);
      ReadSoFar(stores, f, Emitted(r.pages, f), r.next) && ValidCursor(r.next)
  {
    hide ValidStore, ValidCursor, PageOk, ReadSoFar;
    if stores == [] {
      NothingRead(f);
    } else {
      var n := |stores| - 1;
      SteadyRowsAreRead(stores[..n], f, pageRows, pageBytes);
      var r := Follow(stores[..n], pageRows, pageBytes);
      if r.next.None? {
        RunIsOver(stores, f, Emitted(r.pages, f));
      } else {
        var p := PageAt(stores[n], r.next.value, pageRows, pageBytes);
        PageReads(stores[n], r.next.value, pageRows, pageBytes);
        EmittedSnoc(r.pages, p, f);
        StepFile(stores, f, Emitted(r.pages, f), r.next.value, p, pageRows, pageBytes);
        CursorStaysValid(stores[n], r.next.value, p, pageRows, pageBytes);
      }
    }
  }

  lemma NothingRead(f: nat)
    ensures ReadSoFar([], f, [], Some(START)) && ValidCursor(Some(START))
  {
  }

  lemma CursorStaysValid(s: Store, c: Cursor, p: Page, pageRows: nat, pageBytes: nat)
    requires PageOk(s, c, p, pageRows, pageBytes)
    ensures ValidCursor(p.next)
  {
    hide Reads;
  }

  lemma RunIsOver(stores: seq<Store>, f: nat, rows: seq<Row>)
    requires stores != [] && ReadSoFar(stores[..|stores| - 1], f, rows, None)
    ensures ReadSoFar(stores, f, rows, None)
  {
    hide Sorted, Visible, Seen, Held;
    forall r ensures Held(stores, f, r) ==> Held(stores[..|stores| - 1], f, r)
             ensures Seen(stores[..|stores| - 1], f, r) ==> Seen(stores, f, r) {
      HeldSnoc(stores, f, r);
    }
  }

  // --- A settled workspace ------------------------------------------------------------------

  function Settled(s: Store, n: nat): (r: seq<Store>)
    ensures |r| == n && forall i :: 0 <= i < n ==> r[i] == s
  {
    seq(n, i => s)
  }

  /** What is left to read from file `g` on: its rows, and one step per file. */
  function LeftFrom(s: Store, c: Cursor, g: nat): nat
    decreases 3 - g
  {
    if g >= 3 then 0 else |After(s.Table(g), BoundIn(c, g))| + 1 + LeftFrom(s, c, g + 1)
  }

  function Left(s: Store, next: Option<Cursor>): nat {
    if next.None? then 0 else LeftFrom(s, next.value, next.value.f)
  }

  lemma {:induction false} AfterShrinks(rows: seq<Row>, b: Key, key: Key)
    requires KeyLess(b, key)
    ensures |After(rows, key)| <= |After(rows, b)|
    ensures (exists r :: r in rows && r.key == key) ==> |After(rows, key)| < |After(rows, b)|
  {
    hide KeyLess;
    if rows == [] {
    } else {
      var n := |rows| - 1;
      AfterShrinks(rows[..n], b, key);
      KeyOrder(b, key, rows[n].key);
      KeyOrder(key, key, key);
      assert rows == rows[..n] + [rows[n]];
    }
  }

  lemma {:induction false} LeftSkips(s: Store, c: Cursor, f: nat, g: nat)
    requires f <= g <= 3
    ensures LeftFrom(s, c, g) + g - f <= LeftFrom(s, c, f)
    decreases g - f
  {
    if f < g {
      LeftSkips(s, c, f + 1, g);
    }
  }

  /** Beyond their own files two cursors leave the same. */
  lemma {:induction false} LeftAgrees(s: Store, c: Cursor, d: Cursor, g: nat)
    requires c.f < g && (d.f < g || d == Cursor(g, None))
    ensures LeftFrom(s, c, g) == LeftFrom(s, d, g)
    decreases 3 - g
  {
    if g < 3 {
      LeftLater(s, c, d, g + 1);
    }
  }

  lemma {:induction false} LeftLater(s: Store, c: Cursor, d: Cursor, g: nat)
    requires c.f < g && d.f < g
    ensures LeftFrom(s, c, g) == LeftFrom(s, d, g)
    decreases 3 - g
  {
    if g < 3 {
      LeftLater(s, c, d, g + 1);
    }
  }

  /** Every page leaves less to read. */
  lemma PageMakesProgress(s: Store, c: Cursor, p: Page, pageRows: nat, pageBytes: nat)
    requires c.f < 3 && PageOk(s, c, p, pageRows, pageBytes)
    ensures Left(s, p.next) < Left(s, Some(c))
  {
    LeftSkips(s, c, c.f, p.f);
    if p.next.Some? {
      var d := p.next.value;
      if d.f == p.f {
        var last := p.rows[|p.rows| - 1];
        assert last in p.rows;
        assert last in s.Table(p.f) && last.key == d.k.value;
        AfterShrinks(s.Table(p.f), BoundIn(c, p.f), d.k.value);
        LeftLater(s, c, d, p.f + 1);
      } else {
        LeftAgrees(s, c, d, p.f + 1);
      }
    }
  }

  lemma {:induction false} PagesAndLeft(s: Store, n: nat, pageRows: nat, pageBytes: nat)
    requires pageRows > 0 && ValidStore(s)
    ensures var r := Follow(Settled(s, n), pageRows, pageBytes);
      && |r.pages| + Left(s, r.next) <= Left(s, Some(START))
      && (r.next.Some? ==> |r.pages| == n)
  {
    hide ValidStore, Left, PageOk;
    if n > 0 {
      PagesAndLeft(s, n - 1, pageRows, pageBytes);
      assert Settled(s, n)[..n - 1] == Settled(s, n - 1);
      var r := Follow(Settled(s, n - 1), pageRows, pageBytes);
      if r.next.Some? {
        PageReads(s, r.next.value, pageRows, pageBytes);
        PageMakesProgress(s, r.next.value, PageAt(s, r.next.value, pageRows, pageBytes), pageRows, pageBytes);
      }
    }
  }

  function Rows(s: Store): nat {
    |s.objects| + |s.links| + |s.audit|
  }

  lemma {:induction false} AfterSize(rows: seq<Row>, b: Key)
    ensures |After(rows, b)| <= |rows|
  {
    if rows == [] {
    } else {
      AfterSize(rows[..|rows| - 1], b);
    }
  }

  lemma LeftAtStart(s: Store)
    ensures Left(s, Some(START)) <= Rows(s) + 3
  {
    AfterSize(s.Table(0), BoundIn(START, 0));
    AfterSize(s.Table(1), BoundIn(START, 1));
    AfterSize(s.Table(2), BoundIn(START, 2));
    assert LeftFrom(s, START, 3) == 0;
    assert LeftFrom(s, START, 2) == |After(s.Table(2), BoundIn(START, 2))| + 1 + LeftFrom(s, START, 3);
    assert LeftFrom(s, START, 1) == |After(s.Table(1), BoundIn(START, 1))| + 1 + LeftFrom(s, START, 2);
  }

  /** Following the cursor ends after at most one page per row and one per file. */
  lemma ExportEnds(s: Store, n: nat, pageRows: nat, pageBytes: nat)
    requires pageRows > 0 && ValidStore(s)
    ensures var r := Follow(Settled(s, n), pageRows, pageBytes);
      |r.pages| <= Rows(s) + 3 && (n >= Rows(s) + 3 ==> r.next.None?)
  {
    PagesAndLeft(s, n, pageRows, pageBytes);
    LeftAtStart(s);
    var r := Follow(Settled(s, n), pageRows, pageBytes);
    if r.next.Some? {
      assert Left(s, r.next) >= 1;
    }
  }

  lemma {:induction false} SortedUnique(a: seq<Row>, b: seq<Row>)
    requires Sorted(a) && Sorted(b) && forall r :: r in a <==> r in b
    ensures a == b
  {
    hide KeyLess;
    NoMembers(a);
    NoMembers(b);
    if a != [] && b != [] {
      SameFirst(a, b);
      NotAgain(a);
      NotAgain(b);
      forall r ensures r in a[1..] <==> r in b[1..] {
        assert r in a <==> r == a[0] || r in a[1..];
        assert r in b <==> r == b[0] || r in b[1..];
      }
      SortedUnique(a[1..], b[1..]);
      assert a == [a[0]] + a[1..] && b == [b[0]] + b[1..];
    }
  }

  lemma SameFirst(a: seq<Row>, b: seq<Row>)
    requires Sorted(a) && Sorted(b) && a != [] && b != [] && forall r :: r in a <==> r in b
    ensures a[0] == b[0]
  {
    hide KeyLess;
    assert a[0] in b && b[0] in a;
    if a[0] != b[0] {
      KeyOrder(a[0].key, b[0].key, a[0].key);
      assert false;
    }
  }

  lemma NotAgain(a: seq<Row>)
    requires Sorted(a) && a != []
    ensures a[0] !in a[1..] && Sorted(a[1..])
  {
    hide KeyLess;
    KeyOrder(a[0].key, a[0].key, a[0].key);
  }

  /** A finished run over a settled workspace has read every visible row once, in key order. */
  lemma ExportIsExact(s: Store, n: nat, f: nat, pageRows: nat, pageBytes: nat)
    requires pageRows > 0 && ValidStore(s) && f < 3 && n > 0
    requires Follow(Settled(s, n), pageRows, pageBytes).next.None?
    ensures Emitted(Follow(Settled(s, n), pageRows, pageBytes).pages, f) == After(s.Table(f), Bound(f, None))
  {
    assert ValidTable(s.Table(f), f);
    hide ReadSoFar, ValidStore, Follow, Emitted, After, KeyLess, Sorted;
    var stores := Settled(s, n);
    SteadyRowsAreRead(stores, f, pageRows, pageBytes);
    FinishedIsExact(s, n, f, Emitted(Follow(stores, pageRows, pageBytes).pages, f));
  }

  lemma FinishedIsExact(s: Store, n: nat, f: nat, rows: seq<Row>)
    requires ReadSoFar(Settled(s, n), f, rows, None) && ValidTable(s.Table(f), f) && n > 0
    ensures rows == After(s.Table(f), Bound(f, None))
  {
    var stores := Settled(s, n);
    AfterReads(s.Table(f), Bound(f, None));
    hide After, KeyLess, Sorted, IsRecord, Bound;
    forall r ensures (Held(stores, f, r) <==> r in s.Table(f)) && (Seen(stores, f, r) <==> r in s.Table(f)) {
      assert stores[0] == s;
    }
    SortedUnique(rows, After(s.Table(f), Bound(f, None)));
  }

  /** Every row is visible unless its key columns are all empty. */
  lemma AllVisible(s: Store, f: nat)
    requires ValidStore(s) && f < 3
    ensures After(s.Table(f), Bound(f, None)) == s.Table(f) <==> forall r :: r in s.Table(f) ==> r.key != Bound(f, None)
  {
    var rows, zero := s.Table(f), Bound(f, None);
    assert ValidTable(rows, f);
    AfterReads(rows, zero);
    hide After, KeyLess, Sorted;
    forall r | r in rows ensures KeyLess(zero, r.key) <==> r.key != zero {
      LowestKey(zero, r.key);
    }
    if forall r :: r in rows ==> r.key != zero {
      SortedUnique(rows, After(rows, zero));
    }
  }

  // --- A run that is cut short --------------------------------------------------------------

  /** The last page of an unfinished run belongs to the file the cursor points at, or to the one before. */
  lemma LastPage(s: Store, m: nat, pageRows: nat, pageBytes: nat)
    requires pageRows > 0 && ValidStore(s) && m > 0 && Follow(Settled(s, m), pageRows, pageBytes).next.Some?
    ensures var r := Follow(Settled(s, m), pageRows, pageBytes);
      && |r.pages| == m
      && var last, c := r.pages[m - 1].f, r.next.value;
      && last < 3 && (c.f == last || c == Cursor(last + 1, None))
  {
    hide PageAt, Left, PageOk, Follow;
    PagesAndLeft(s, m, pageRows, pageBytes);
    PagesAndLeft(s, m - 1, pageRows, pageBytes);
    FollowSnoc(s, m, pageRows, pageBytes);
    var c := Follow(Settled(s, m - 1), pageRows, pageBytes).next.value;
    PageReads(s, c, pageRows, pageBytes);
    PageLeads(s, c, PageAt(s, c, pageRows, pageBytes), pageRows, pageBytes);
  }

  lemma FollowSnoc(s: Store, m: nat, pageRows: nat, pageBytes: nat)
    requires pageRows > 0 && m > 0
    ensures var before, r := Follow(Settled(s, m - 1), pageRows, pageBytes), Follow(Settled(s, m), pageRows, pageBytes);
      if before.next.None? then r == before
      else
        var p := PageAt(s, before.next.value, pageRows, pageBytes);
        r == Progress(before.pages + [p], p.next)
  {
    assert Settled(s, m)[..m - 1] == Settled(s, m - 1);
    hide PageAt;
  }

  lemma PageLeads(s: Store, c: Cursor, p: Page, pageRows: nat, pageBytes: nat)
    requires PageOk(s, c, p, pageRows, pageBytes) && p.next.Some?
    ensures p.f < 3 && (p.next.value.f == p.f || p.next.value == Cursor(p.f + 1, None))
  {
    hide Reads;
  }

  lemma LeftBehind(s: Store, m: nat, g: nat, rows: seq<Row>, c: Cursor)
    requires m > 0 && g < 3 && ValidTable(s.Table(g), g) && ReadSoFar(Settled(s, m), g, rows, Some(c))
    ensures g < c.f ==> rows == After(s.Table(g), Bound(g, None))
    ensures c.f < g || (c.f == g && c.k.None?) ==> rows == []
  {
    hide After, Sorted, Visible, Seen, Held, IsRecord;
    if g < c.f {
      FinishedAs(s, m, g, rows, c);
    } else {
      NoMembers(rows);
    }
  }

  lemma FinishedAs(s: Store, m: nat, g: nat, rows: seq<Row>, c: Cursor)
    requires m > 0 && g < c.f && ValidTable(s.Table(g), g) && ReadSoFar(Settled(s, m), g, rows, Some(c))
    ensures rows == After(s.Table(g), Bound(g, None))
  {
    hide After, Sorted, Visible, Seen, Held, IsRecord;
    assert ReadSoFar(Settled(s, m), g, rows, None);
    FinishedIsExact(s, m, g, rows);
  }

  /**
   * When the part budget ends a run early only the file of its last page is marked as cut. The
   * files before it are complete and those after it are missing altogether, so every loss is
   * marked exactly when the later files had nothing to export.
   */
  lemma CutMarksExactly(s: Store, m: nat, pageRows: nat, pageBytes: nat)
    requires pageRows > 0 && ValidStore(s) && m > 0 && Follow(Settled(s, m), pageRows, pageBytes).next.Some?
    ensures var pages := Follow(Settled(s, m), pageRows, pageBytes).pages;
      && |pages| == m && pages[m - 1].f < 3
      && var last := pages[m - 1].f;
      && (forall g: nat :: g < last ==> Emitted(pages, g) == After(s.Table(g), Bound(g, None)))
      && (forall g: nat :: last < g < 3 ==> Emitted(pages, g) == [])
      && (AllLossesIn(s, pages, last) <==> forall g: nat :: last < g < 3 ==> After(s.Table(g), Bound(g, None)) == [])
  {
    LastPage(s, m, pageRows, pageBytes);
    var r := Follow(Settled(s, m), pageRows, pageBytes);
    var last := r.pages[m - 1].f;
    forall g: nat | g < 3 ensures g < last ==> Emitted(r.pages, g) == After(s.Table(g), Bound(g, None))
                          ensures last < g ==> Emitted(r.pages, g) == [] {
      assert ValidTable(s.Table(g), g);
      SteadyRowsAreRead(Settled(s, m), g, pageRows, pageBytes);
      hide Follow, After, Emitted, ValidTable, ReadSoFar, Bound;
      LeftBehind(s, m, g, Emitted(r.pages, g), r.next.value);
    }
    hide Follow, After, Emitted, ValidStore, Bound;
  }

  /** Only `last` lost rows. */
  ghost predicate AllLossesIn(s: Store, pages: seq<Page>, last: nat) {
    forall g: nat :: g < 3 && g != last ==> Emitted(pages, g) == After(s.Table(g), Bound(g, None))
  }

  // --- A store within the limits whose export is cut before its last file ------------------------

  /** No two of the rows fit on a page. */
  ghost predicate Heavy(rows: seq<Row>, pageBytes: nat) {
    forall r :: r in rows ==> 2 * |r.line| > pageBytes
  }

  lemma TwoHeavyRows(rows: seq<Row>, pageBytes: nat)
    requires Heavy(rows, pageBytes) && |TextOfRows(rows)| <= pageBytes
    ensures |rows| <= 1
  {
    if |rows| >= 2 {
      var n := |rows| - 1;
      var lines := LinesOf(rows);
      assert rows[n] in rows && rows[n - 1] in rows;
      assert lines == lines[..n] + [lines[n]] && lines[..n] == lines[..n - 1] + [lines[n - 1]];
      assert |Join(lines)| >= |lines[n]| + |lines[n - 1]|;
    }
  }

  /** Pages of heavy objects hold one of them each. */
  lemma {:induction false} OneObjectEach(s: Store, m: nat, pageRows: nat, pageBytes: nat)
    requires pageRows > 0 && ValidStore(s) && Heavy(s.objects, pageBytes)
    ensures var pages := Follow(Settled(s, m), pageRows, pageBytes).pages; |Emitted(pages, 0)| <= |pages|
  {
    hide *;
    FollowSnocPages(s, m, pageRows, pageBytes);
    if m > 0 && Follow(Settled(s, m - 1), pageRows, pageBytes).next.Some? {
      var r := Follow(Settled(s, m - 1), pageRows, pageBytes);
      var p := PageAt(s, r.next.value, pageRows, pageBytes);
      OneObjectEach(s, m - 1, pageRows, pageBytes);
      EmittedSnoc(r.pages, p, 0);
      PageOfObjects(s, r.next.value, pageRows, pageBytes);
    } else if m > 0 {
      OneObjectEach(s, m - 1, pageRows, pageBytes);
    }
  }

  lemma FollowSnocPages(s: Store, m: nat, pageRows: nat, pageBytes: nat)
    requires pageRows > 0
    ensures m == 0 ==> Follow(Settled(s, m), pageRows, pageBytes).pages == [] && Emitted([], 0) == []
    ensures m > 0 ==>
      var before, r := Follow(Settled(s, m - 1), pageRows, pageBytes), Follow(Settled(s, m), pageRows, pageBytes);
      if before.next.None? then r == before
      else before.next.value.f < 3 && r.pages == before.pages + [PageAt(s, before.next.value, pageRows, pageBytes)]
  {
    if m > 0 {
      FollowSnoc(s, m, pageRows, pageBytes);
      hide PageAt;
    }
  }

  lemma PageOfObjects(s: Store, c: Cursor, pageRows: nat, pageBytes: nat)
    requires pageRows > 0 && ValidStore(s) && c.f < 3 && Heavy(s.objects, pageBytes)
    ensures PageAt(s, c, pageRows, pageBytes).f == 0 ==> |PageAt(s, c, pageRows, pageBytes).rows| <= 1
  {
    PageReads(s, c, pageRows, pageBytes);
    var p := PageAt(s, c, pageRows, pageBytes);
    hide PageAt, ValidStore;
    if p.f == 0 && |p.rows| > 1 {
      assert Heavy(p.rows, pageBytes);
      hide PageOk, Heavy;
      TwoHeavyRows(p.rows, pageBytes);
    }
  }

  /** With more heavy objects than pages, a run is still among the objects when its pages are used up. */
  lemma HeavyObjectsTakeAllPages(s: Store, m: nat, pageRows: nat, pageBytes: nat)
    requires pageRows > 0 && ValidStore(s) && Heavy(s.objects, pageBytes) && |s.objects| > m > 0
    requires forall r :: r in s.objects ==> r.key != Bound(0, None)
    ensures var r := Follow(Settled(s, m), pageRows, pageBytes);
      r.next.Some? && |r.pages| == m && r.pages[m - 1].f == 0
  {
    var r := Follow(Settled(s, m), pageRows, pageBytes);
    OneObjectEach(s, m, pageRows, pageBytes);
    AllVisible(s, 0);
    assert |r.pages| <= m && s.Table(0) == s.objects && ValidTable(s.Table(0), 0);
    SteadyRowsAreRead(Settled(s, m), 0, pageRows, pageBytes);
    hide Follow, Emitted, After, Heavy, ValidTable, ReadSoFar, Bound;
    if r.next.None? {
      FinishedIsExact(s, m, 0, Emitted(r.pages, 0));
    } else {
      if 0 < r.next.value.f {
        LeftBehind(s, m, 0, Emitted(r.pages, 0), r.next.value);
      }
      LastPage(s, m, pageRows, pageBytes);
    }
  }

  const PAGE_ROWS := 2000
  const PAGE_BYTES := 900 * 1024
  const MAX_OBJECTS := 300
  const MAX_BODY_BYTES := 512 * 1024

  /** Pages left to the object graph when the two services before it take one part each. */
  const GRAPH_PAGES := 16

  function Letter(i: nat): string
    requires i < 26
  {
    ['a' + i as char]
  }

  function Long(): Text {
    seq(461000, i => 'x')
  }

  /** Seventeen objects that fill more than half a page each, and one link. */
  function LargeStore(): Store {
    Store(seq(GRAPH_PAGES + 1, i requires 0 <= i <= GRAPH_PAGES => Row([Letter(i)], Long())), [Row(["a", "L", "b"], "{}")], [])
  }

  lemma LargeStoreIsValid()
    ensures ValidStore(LargeStore()) && Heavy(LargeStore().objects, PAGE_BYTES)
    ensures |LargeStore().objects| == GRAPH_PAGES + 1 <= MAX_OBJECTS
    ensures forall r :: r in LargeStore().objects ==> r.key != Bound(0, None) && |r.line| < MAX_BODY_BYTES
  {
    var objects := LargeStore().objects;
    LongIsRecord();
    hide Long;
    forall i, j | 0 <= i < j < |objects| ensures KeyLess(objects[i].key, objects[j].key) {
      assert Letter(i)[0] < Letter(j)[0];
    }
    forall r | r in objects ensures IsRecord(r, 0) && r.key != Bound(0, None) && r.line == Long() {
      var i :| 0 <= i < |objects| && objects[i] == r;
      assert r.key[0] != "";
    }
    assert ValidTable(LargeStore().objects, 0);
    LinkIsRecord();
    assert ValidTable(LargeStore().links, 1) && ValidTable(LargeStore().audit, 2);
  }

  lemma LongIsRecord()
    ensures |Long()| == 461000 && IsLine(Long()) && !IsBlank(Long())
  {
    assert Long()[0] == 'x';
  }

  lemma LinkIsRecord()
    ensures IsLine("{}") && !IsBlank("{}")
  {
    assert "{}"[0] == '{';
  }

  /**
   * The loss can happen within all limits: seventeen objects of 461,000 bytes, each small enough
   * for one request, use up the pages of the object graph, and the links are missing unmarked.
   */
  lemma LinksLostUnmarked()
    ensures var s := LargeStore();
      var r := Follow(Settled(s, GRAPH_PAGES), PAGE_ROWS, PAGE_BYTES);
      && r.next.Some? && |r.pages| == GRAPH_PAGES && r.pages[GRAPH_PAGES - 1].f == 0
      && s.links != [] && Emitted(r.pages, 1) == [] && !AllLossesIn(s, r.pages, 0)
  {
    var s := LargeStore();
    LargeStoreIsValid();
    LinkIsVisible(s);
    hide LargeStore, ValidStore, Heavy, Follow, Emitted, After, AllLossesIn, Bound;
    HeavyObjectsTakeAllPages(s, GRAPH_PAGES, PAGE_ROWS, PAGE_BYTES);
    CutMarksExactly(s, GRAPH_PAGES, PAGE_ROWS, PAGE_BYTES);
  }

  lemma LinkIsVisible(s: Store)
    requires s == LargeStore()
    ensures s.links != [] && After(s.Table(1), Bound(1, None)) != []
  {
    var row := Row(["a", "L", "b"], "{}");
    assert s.Table(1) == [row] && [row][..0] == [];
    assert Bound(1, None)[0] == "" && KeyLess(Bound(1, None), row.key);
  }

  // --- From pages to the archive ------------------------------------------------------------

  function PartOf(p: Page): Part
    requires p.f < 3
  {
    Part(FILES[p.f], TextOfRows(p.rows))
  }

  function PartsOf(pages: seq<Page>): (r: seq<Part>)
    requires forall i :: 0 <= i < |pages| ==> pages[i].f < 3
    ensures |r| == |pages| && forall i :: 0 <= i < |r| ==> r[i] == PartOf(pages[i])
  {
    seq(|pages|, i requires 0 <= i < |pages| => PartOf(pages[i]))
  }

  lemma {:induction false} JoinAppend(a: seq<Text>, b: seq<Text>)
    ensures Join(a + b) == Join(a) + Join(b)
  {
    if b == [] {
      assert a + b == a;
      assert Join(a) + "" == Join(a);
    } else {
      JoinAppend(a, b[..|b| - 1]);
      assert (a + b)[..|a + b| - 1] == a + b[..|b| - 1];
    }
  }

  lemma {:induction false} JoinIsWhole(lines: seq<Text>)
    ensures WholeLines(Join(lines))
  {
  }

  /** The parts of a file hold the rows of its pages, one line each. */
  lemma {:induction false} PartsHoldRows(pages: seq<Page>, f: nat)
    requires f < 3 && forall i :: 0 <= i < |pages| ==> pages[i].f < 3
    ensures TextOf(PartsOf(pages), FILES[f]) == TextOfRows(Emitted(pages, f))
  {
    if pages == [] {
    } else {
      var n := |pages| - 1;
      PartsHoldRows(pages[..n], f);
      assert PartsOf(pages)[..n] == PartsOf(pages[..n]);
      RowsAppend(Emitted(pages[..n], f), if pages[n].f == f then pages[n].rows else []);
      hide Join, TextOfRows;
      NamesDiffer(pages[n].f, f);
    }
  }

  lemma NamesDiffer(f: nat, g: nat)
    requires f < 3 && g < 3
    ensures FILES[f] == FILES[g] <==> f == g
  {
  }

  lemma RowsAppend(a: seq<Row>, b: seq<Row>)
    ensures TextOfRows(a + b) == TextOfRows(a) + TextOfRows(b)
    ensures TextOfRows([]) == ""
  {
    JoinAppend(LinesOf(a), LinesOf(b));
    assert LinesOf(a + b) == LinesOf(a) + LinesOf(b);
  }

  lemma {:induction false} PagesAreOfFiles(stores: seq<Store>, pageRows: nat, pageBytes: nat)
    requires pageRows > 0
    ensures forall i :: 0 <= i < |Follow(stores, pageRows, pageBytes).pages| ==>
      Follow(stores, pageRows, pageBytes).pages[i].f < 3
  {
    hide PageAt;
    if stores == [] {
    } else {
      PagesAreOfFiles(stores[..|stores| - 1], pageRows, pageBytes);
    }
  }

  /**
   * Exporting, staging, decoding and assembling a settled workspace gives, for each file, its
   * stored rows one per line, and counts as many records as there are rows.
   */
  lemma ArchiveHoldsEveryRow(s: Store, n: nat, f: nat, pageRows: nat, pageBytes: nat)
    requires pageRows > 0 && ValidStore(s) && f < 3 && n >= Rows(s) + 3
    requires forall r :: r in s.Table(f) ==> r.key != Bound(f, None)
    ensures var r := Follow(Settled(s, n), pageRows, pageBytes);
      && (forall i :: 0 <= i < |r.pages| ==> r.pages[i].f < 3)
      && var parts := PartsOf(r.pages);
      && r.next.None?
      && (forall i :: 0 <= i < |parts| ==>
            DecodePart(EncodePart(parts[i].file, parts[i].text, false)) == StagedPart(Name(parts[i].file), parts[i].text, false))
      && (if FILES[f] in Assembled(parts) then Assembled(parts)[FILES[f]] == TextOfRows(s.Table(f)) else s.Table(f) == [])
      && SumOfCounts(parts, FILES[f]) == |s.Table(f)|
  {
    ExportEnds(s, n, pageRows, pageBytes);
    PagesAreOfFiles(Settled(s, n), pageRows, pageBytes);
    ExportIsExact(s, n, f, pageRows, pageBytes);
    AllVisible(s, f);
    var pages := Follow(Settled(s, n), pageRows, pageBytes).pages;
    hide Follow, After;
    var parts := PartsOf(pages);
    PartsHoldRows(pages, f);
    forall i | 0 <= i < |parts|
      ensures DecodePart(EncodePart(parts[i].file, parts[i].text, false)) == StagedPart(Name(parts[i].file), parts[i].text, false)
    {
      PartRoundTrip(parts[i].file, parts[i].text, false);
    }
    AssemblyOfRows(parts, f, s.Table(f), pages);
  }

  lemma AssemblyOfRows(parts: seq<Part>, f: nat, rows: seq<Row>, pages: seq<Page>)
    requires f < 3 && (forall i :: 0 <= i < |pages| ==> pages[i].f < 3) && parts == PartsOf(pages)
    requires ValidTable(rows, f) && TextOf(parts, FILES[f]) == TextOfRows(rows)
    ensures if FILES[f] in Assembled(parts) then Assembled(parts)[FILES[f]] == TextOfRows(rows) else rows == []
    ensures SumOfCounts(parts, FILES[f]) == |rows|
  {
    hide Sorted, IsLine, IsBlank;
    forall i | 0 <= i < |parts| ensures WholeLines(parts[i].text) {
      JoinIsWhole(LinesOf(pages[i].rows));
    }
    AssembledIsConcatenation(parts, FILES[f]);
    CountOfParts(parts, FILES[f]);
    forall i | 0 <= i < |rows| ensures IsRecord(rows[i], f) {
      assert rows[i] in rows;
    }
    CountOfJoin(LinesOf(rows));
  }
}
