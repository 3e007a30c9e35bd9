/**
 * One cron pass over the outbox (maintenance.ts, queue_outbox.ts): of the oldest rows the ones
 * that cannot be read are deleted, the others published and deleted, or dropped when their
 * workspace is tombstoned; failed publications stay for the next pass, a failed delete ends the
 * pass, and old tombstones are swept last. A pass is a run of the delivery protocol.
 */
module Maintenance {
  import opened Common
  import opened EventSplit
  import opened Outbox
  import opened Sorting

  /** A stored row; its payload may be unreadable. */
  datatype Row = Row(key: Key, payload: Option<Msg>, at: int)

  datatype Pending = Pending(key: Key, msg: Msg)

  const BATCH := 50
  const MIN_AGE_MS := 60000
  const TOMBSTONE_MS := 48 * 3600000

  datatype Report = Report(delivered: nat, dropped: nat, failed: nat)

  /** Text order of event ids. */
  predicate IdLeq(a: string, b: string) {
    a == "" || (b != "" && (a[0] < b[0] || (a[0] == b[0] && IdLeq(a[1..], b[1..]))))
  }

  lemma {:induction false} IdLeqLaws(a: string, b: string, c: string)
    ensures IdLeq(a, b) || IdLeq(b, a)
    ensures IdLeq(a, b) && IdLeq(b, c) ==> IdLeq(a, c)
    ensures IdLeq(a, b) && IdLeq(b, a) ==> a == b
  {
    if a != "" {
      IdLeqLaws(a[1..], if b == "" then "" else b[1..], if c == "" then "" else c[1..]);
      if b != "" && a[0] == b[0] && a[1..] == b[1..] {
        assert a == [a[0]] + a[1..] == b;
      }
    }
  }

  /** ORDER BY occurred_at, id. */
  predicate Older(a: Row, b: Row) {
    a.at < b.at || (a.at == b.at && IdLeq(a.key.id, b.key.id))
  }

  lemma OlderIsOrder()
    ensures TotalPreorder(Older)
  {
    forall a: Row, b: Row ensures Older(a, b) || Older(b, a) {
      IdLeqLaws(a.key.id, b.key.id, "");
    }
    forall a: Row, b: Row, c: Row ensures Older(a, b) && Older(b, c) ==> Older(a, c) {
      IdLeqLaws(a.key.id, b.key.id, c.key.id);
    }
  }

  /** The `limit` oldest of the rows that are old enough. */
  ghost predicate OldestOf(rows: map<Key, Row>, before: int, limit: nat, batch: seq<Row>) {
    && |batch| <= limit
    && (forall i, j :: 0 <= i < j < |batch| ==> batch[i].key != batch[j].key && Older(batch[i], batch[j]))
    && (forall i :: 0 <= i < |batch| ==> batch[i].key in rows && rows[batch[i].key] == batch[i] && batch[i].at <= before)
    && (forall k :: k in rows && rows[k].at <= before && rows[k] !in batch ==>
          |batch| == limit && forall i :: 0 <= i < |batch| ==> Older(batch[i], rows[k]))
  }

  /** Ids are ordered at the first character that differs, or by the length. */
  lemma {:induction false} IdLeqAt(a: string, b: string, k: nat)
    requires k <= |a| && k <= |b| && a[..k] == b[..k]
    requires k == |a| || k == |b| || a[k] != b[k]
    ensures IdLeq(a, b) <==> if k == |a| || k == |b| then |a| <= |b| else a[k] < b[k]
  {
    if k > 0 {
      assert a[0] == a[..k][0] == b[..k][0] == b[0];
      assert a[1..][..k - 1] == a[..k][1..] && b[1..][..k - 1] == b[..k][1..];
      IdLeqAt(a[1..], b[1..], k - 1);
    }
  }

  /** The rows come by time, those of one time by id, and no row left out is older than one taken. */
  lemma OldestFirst(rows: map<Key, Row>, before: int, limit: nat, batch: seq<Row>)
    requires OldestOf(rows, before, limit, batch)
    ensures forall i, j :: 0 <= i < j < |batch| ==>
      batch[i].at <= batch[j].at && (batch[i].at == batch[j].at ==> IdLeq(batch[i].key.id, batch[j].key.id))
    ensures forall k, i :: k in rows && rows[k].at <= before && rows[k] !in batch && 0 <= i < |batch| ==>
      batch[i].at <= rows[k].at && (batch[i].at == rows[k].at ==> IdLeq(batch[i].key.id, rows[k].key.id))
  {
  }

  /** Rows by key, as the table holds them. */
  ghost predicate Keyed(rows: map<Key, Row>) {
    forall k :: k in rows ==> rows[k].key == k
  }

  function Readable(batch: seq<Row>): seq<Pending> {
    if batch == [] then []
    else
      var row := batch[|batch| - 1];
      Readable(batch[..|batch| - 1]) + if row.payload.Some? then [Pending(row.key, row.payload.value)] else []
  }

  function Unreadable(batch: seq<Row>): set<Key> {
    set row | row in batch && row.payload.None? :: row.key
  }

  function Outcomes(batch: seq<Pending>, tombstoned: set<Tid>, ok: Msg -> bool): Report {
    if batch == [] then Report(0, 0, 0)
    else
      var r := Outcomes(batch[..|batch| - 1], tombstoned, ok);
      var row := batch[|batch| - 1];
      if row.key.tid in tombstoned then r.(dropped := r.dropped + 1)
      else if ok(row.msg) then r.(delivered := r.delivered + 1)
      else r.(failed := r.failed + 1)
  }

  /** The messages a pass publishes, oldest first. */
  function Published(batch: seq<Pending>, tombstoned: set<Tid>, ok: Msg -> bool): seq<Msg> {
    if batch == [] then []
    else
      var row := batch[|batch| - 1];
      Published(batch[..|batch| - 1], tombstoned, ok)
      + if row.key.tid !in tombstoned && ok(row.msg) then [row.msg] else []
  }

  /** Keys of the rows a pass deletes: dropped or delivered. */
  function Finished(batch: seq<Pending>, tombstoned: set<Tid>, ok: Msg -> bool): set<Key> {
    if batch == [] then {}
    else
      var row := batch[|batch| - 1];
      Finished(batch[..|batch| - 1], tombstoned, ok)
      + if row.key.tid in tombstoned || ok(row.msg) then {row.key} else {}
  }

  /** The reading stops at the first unreadable row that cannot be deleted. */
  ghost predicate ReadUpTo(batch: seq<Row>, del: Key -> bool, n: nat) {
    && n <= |batch|
    && (forall k :: 0 <= k < n ==> batch[k].payload.Some? || del(batch[k].key))
    && (n < |batch| ==> batch[n].payload.None? && !del(batch[n].key))
  }

  /** A row whose delete fails, after it was published or found tombstoned. */
  predicate Stuck(row: Pending, tombstoned: set<Tid>, ok: Msg -> bool, del: Key -> bool) {
    (row.key.tid in tombstoned || ok(row.msg)) && !del(row.key)
  }

  /** The pass stops at the first row it is stuck with. */
  ghost predicate PassedUpTo(batch: seq<Pending>, tombstoned: set<Tid>, ok: Msg -> bool, del: Key -> bool, n: nat) {
    && n <= |batch|
    && (forall k :: 0 <= k < n ==> !Stuck(batch[k], tombstoned, ok, del))
    && (n < |batch| ==> Stuck(batch[n], tombstoned, ok, del))
  }

  /** What was published of the row a pass is stuck with. */
  function Half(batch: seq<Pending>, tombstoned: set<Tid>, n: nat): seq<Msg> {
    if n < |batch| && batch[n].key.tid !in tombstoned then [batch[n].msg] else []
  }

  /** The messages are, in order, those of the rows of live workspaces whose publication succeeds. */
  ghost predicate PublishedAt(batch: seq<Pending>, tombstoned: set<Tid>, ok: Msg -> bool, out: seq<Msg>, at: seq<nat>) {
    && |at| == |out| && (forall k, l :: 0 <= k < l < |at| ==> at[k] < at[l])
    && (forall k :: 0 <= k < |at| ==> at[k] < |batch| && Goes(batch[at[k]], tombstoned, ok) && out[k] == batch[at[k]].msg)
    && (forall i :: 0 <= i < |batch| && Goes(batch[i], tombstoned, ok) ==> i in at)
  }

  ghost predicate Goes(row: Pending, tombstoned: set<Tid>, ok: Msg -> bool) {
    row.key.tid !in tombstoned && ok(row.msg)
  }

  lemma OneMorePublished(batch: seq<Pending>, n: nat, tombstoned: set<Tid>, ok: Msg -> bool, out: seq<Msg>, at: seq<nat>)
    requires n < |batch| && PublishedAt(batch[..n], tombstoned, ok, out, at)
    ensures Goes(batch[n], tombstoned, ok) ==> PublishedAt(batch[..n + 1], tombstoned, ok, out + [batch[n].msg], at + [n])
    ensures !Goes(batch[n], tombstoned, ok) ==> PublishedAt(batch[..n + 1], tombstoned, ok, out, at)
  {
    hide Goes;
    var more := at + [n];
    assert more[|at|] == n && forall i :: i in at ==> i in more;
    assert forall i :: 0 <= i < n ==> batch[..n][i] == batch[..n + 1][i] == batch[i];
    assert batch[..n + 1][n] == batch[n];
  }

  /** Which messages a pass publishes, and in what order. */
  lemma {:induction false} PublishedExactly(batch: seq<Pending>, tombstoned: set<Tid>, ok: Msg -> bool, n: nat) returns (at: seq<nat>)
    requires n <= |batch|
    ensures PublishedAt(batch[..n], tombstoned, ok, Published(batch[..n], tombstoned, ok), at)
  {
    at := [];
    if n > 0 {
      at := PublishedExactly(batch, tombstoned, ok, n - 1);
      PrefixSnoc(batch, n - 1);
      var out := Published(batch[..n - 1], tombstoned, ok);
      assert Published(batch[..n], tombstoned, ok) == if Goes(batch[n - 1], tombstoned, ok) then out + [batch[n - 1].msg] else out;
      OneMorePublished(batch, n - 1, tombstoned, ok, out, at);
      hide Published, PublishedAt;
      if Goes(batch[n - 1], tombstoned, ok) {
        at := at + [n - 1];
      }
    }
  }

  /** The rows of tombstoned workspaces. */
  function DroppedRows(batch: seq<Pending>, tombstoned: set<Tid>): set<nat> {
    set i: nat | i < |batch| && batch[i].key.tid in tombstoned
  }

  /** What is reported as dropped are the rows of tombstoned workspaces. */
  lemma {:induction false} DroppedCount(batch: seq<Pending>, tombstoned: set<Tid>, ok: Msg -> bool)
    ensures Outcomes(batch, tombstoned, ok).dropped == |DroppedRows(batch, tombstoned)|
  {
    if batch == [] {
      assert DroppedRows(batch, tombstoned) == {};
    } else {
      var n := |batch| - 1;
      DroppedCount(batch[..n], tombstoned, ok);
      var front := DroppedRows(batch[..n], tombstoned);
      assert forall i :: 0 <= i < n ==> batch[..n][i] == batch[i];
      assert DroppedRows(batch, tombstoned) == if batch[n].key.tid in tombstoned then front + {n} else front;
      assert n !in front;
    }
  }

  class OutboxStore {
    var rows: map<Key, Row>
    var tombstones: map<Tid, int>
    var published: seq<Msg>

    constructor ()
      ensures rows == map[] && tombstones == map[] && published == []
    {
      rows, tombstones, published := map[], map[], [];
    }

    method Eligible(before: int) returns (found: seq<Row>)
      requires Keyed(rows)
      ensures forall i, j :: 0 <= i < j < |found| ==> found[i].key != found[j].key
      ensures forall r :: r in found <==> r.key in rows && rows[r.key] == r && r.at <= before
    {
      found := [];
      var left := rows.Keys;
      while left != {}
        invariant left <= rows.Keys
        invariant forall i, j :: 0 <= i < j < |found| ==> found[i].key != found[j].key
        invariant forall r :: r in found <==> r.key in rows && rows[r.key] == r && r.at <= before && r.key !in left
        decreases |left|
      {
        var k :| k in left;
        left := left - {k};
        if rows[k].at <= before {
          assert forall i :: 0 <= i < |found| ==> found[i] in found;
          found := found + [rows[k]];
        }
      }
    }

    method Select(before: int, limit: nat) returns (batch: seq<Row>)
      requires Keyed(rows)
      ensures OldestOf(rows, before, limit, batch)
    {
      var found := Eligible(before);
      var sorted := Sort(found, Older);
      OlderIsOrder();
      SortOrders(found, Older);
      SortMembers(found, Older);
      SortDistinct(found, sorted);
      batch := if |sorted| <= limit then sorted else sorted[..limit];
      hide Sort, Older;
      OldestPrefix(rows, before, limit, sorted, batch);
    }

    /** The readable ones of the oldest rows; unreadable ones are deleted, or the call fails. */
    method Oldest(before: int, limit: nat, del: Key -> bool) returns (out: Option<seq<Pending>>, ghost batch: seq<Row>, ghost read: nat)
      requires Keyed(rows)
      modifies this`rows
      ensures OldestOf(old(rows), before, limit, batch) && ReadUpTo(batch, del, read)
      ensures rows == old(rows) - Unreadable(batch[..read])
      ensures out == if read == |batch| then Some(Readable(batch)) else None
    {
      var selected := Select(before, limit);
      batch := selected;
      var found: seq<Pending> := [];
      assert ReadAt(rows, selected, del, 0, rows, found);
      hide OldestOf, ReadAt, ReadUpTo, Unreadable, Readable;
      for i := 0 to |selected|
        invariant ReadAt(old(rows), selected, del, i, rows, found)
      {
        ReadStep(old(rows), selected, del, i, rows, found);
        var row := selected[i];
        if row.payload.Some? {
          found := found + [Pending(row.key, row.payload.value)];
        } else if del(row.key) {
          rows := rows - {row.key};
        } else {
          return None, batch, i;
        }
      }
      ReadEnd(old(rows), selected, del, rows, found);
      return Some(found), batch, |selected|;
    }

    /** The loop over the readable rows; it ends early when a delete fails. */
    method Redeliver(pending: seq<Pending>, ok: Msg -> bool, del: Key -> bool) returns (report: Option<Report>, ghost done: nat)
      modifies this`rows, this`published
      ensures Passed(old(rows), old(published), tombstones.Keys, ok, del, pending, done, rows, published, report)
    {
      var counts := Report(0, 0, 0);
      var known: map<Tid, bool> := map[];
      assert PassAt(rows, published, tombstones.Keys, ok, del, pending, 0, rows, published, counts);
      hide PassAt, Passed, Finished, Published, Outcomes;
      for i := 0 to |pending|
        invariant forall t :: t in known ==> known[t] == (t in tombstones)
        invariant PassAt(old(rows), old(published), tombstones.Keys, ok, del, pending, i, rows, published, counts)
      {
        PassStep(old(rows), old(published), tombstones.Keys, ok, del, pending, i, rows, published, counts);
        var row := pending[i];
        if row.key.tid !in known {
          known := known[row.key.tid := row.key.tid in tombstones];
        }
        if known[row.key.tid] {
          if !del(row.key) {
            return None, i;
          }
          rows := rows - {row.key};
          counts := counts.(dropped := counts.dropped + 1);
          continue;
        }
        if !ok(row.msg) {
          counts := counts.(failed := counts.failed + 1);
          continue;
        }
        published := published + [row.msg];
        if !del(row.key) {
          return None, i;
        }
        rows := rows - {row.key};
        counts := counts.(delivered := counts.delivered + 1);
      }
      PassEnd(old(rows), old(published), tombstones.Keys, ok, del, pending, rows, published, counts);
      return Some(counts), |pending|;
    }

    method RunMaintenance(now: int, ok: Msg -> bool, del: Key -> bool)
      returns (report: Option<Report>, ghost batch: seq<Row>, ghost read: nat, ghost done: nat)
      requires Keyed(rows)
      modifies this
      ensures OldestOf(old(rows), now - MIN_AGE_MS, BATCH, batch) && ReadUpTo(batch, del, read)
      ensures read < |batch| ==>
        rows == old(rows) - Unreadable(batch[..read]) && published == old(published) && report == None
      ensures read == |batch| ==>
        Passed(old(rows) - Unreadable(batch), old(published), old(tombstones).Keys, ok, del, Readable(batch), done, rows, published, report)
      ensures tombstones == if report.None? then old(tombstones)
        else map t | t in old(tombstones) && old(tombstones)[t] >= now - TOMBSTONE_MS :: old(tombstones)[t]
    {
      hide OldestOf, ReadUpTo, Passed, Unreadable, Readable;
      var pending: Option<seq<Pending>>;
      pending, batch, read := Oldest(now - MIN_AGE_MS, BATCH, del);
      done := 0;
      if pending.None? {
        return None, batch, read, done;
      }
      assert batch[..|batch|] == batch;
      report, done := Redeliver(pending.value, ok, del);
      if report.Some? {
        tombstones := map t | t in tombstones && tombstones[t] >= now - TOMBSTONE_MS :: tombstones[t];
      }
    }
  }

  /** The state of the reading after its first `i` rows. */
  ghost predicate ReadAt(rows: map<Key, Row>, batch: seq<Row>, del: Key -> bool, i: nat, nowRows: map<Key, Row>, found: seq<Pending>) {
    && i <= |batch| && (forall k :: 0 <= k < i ==> batch[k].payload.Some? || del(batch[k].key))
    && nowRows == rows - Unreadable(batch[..i])
    && found == Readable(batch[..i])
  }

  lemma ReadStep(rows: map<Key, Row>, batch: seq<Row>, del: Key -> bool, i: nat, nowRows: map<Key, Row>, found: seq<Pending>)
    requires i < |batch| && ReadAt(rows, batch, del, i, nowRows, found)
    ensures var row := batch[i];
      && (row.payload.Some? ==> ReadAt(rows, batch, del, i + 1, nowRows, found + [Pending(row.key, row.payload.value)]))
      && (row.payload.None? && del(row.key) ==> ReadAt(rows, batch, del, i + 1, nowRows - {row.key}, found))
      && (row.payload.None? && !del(row.key) ==> ReadUpTo(batch, del, i) && nowRows == rows - Unreadable(batch[..i]))
  {
    PrefixSnoc(batch, i);
    UnreadableSnoc(batch[..i], batch[i]);
    hide Unreadable;
  }

  lemma ReadEnd(rows: map<Key, Row>, batch: seq<Row>, del: Key -> bool, nowRows: map<Key, Row>, found: seq<Pending>)
    requires ReadAt(rows, batch, del, |batch|, nowRows, found)
    ensures ReadUpTo(batch, del, |batch|) && nowRows == rows - Unreadable(batch[..|batch|]) && found == Readable(batch)
  {
    assert batch[..|batch|] == batch;
  }

  lemma UnreadableSnoc(batch: seq<Row>, row: Row)
    ensures Unreadable(batch + [row]) == Unreadable(batch) + if row.payload.None? then {row.key} else {}
  {
    assert forall r :: r in batch + [row] <==> r in batch || r == row;
  }

  /** The state of a pass after its first `i` rows, none of which it was stuck with. */
  ghost predicate PassAt(rows: map<Key, Row>, published: seq<Msg>, tombstoned: set<Tid>, ok: Msg -> bool, del: Key -> bool,
                         batch: seq<Pending>, i: nat, nowRows: map<Key, Row>, nowPublished: seq<Msg>, report: Report)
  {
    && i <= |batch| && (forall k :: 0 <= k < i ==> !Stuck(batch[k], tombstoned, ok, del))
    && nowRows == rows - Finished(batch[..i], tombstoned, ok)
    && nowPublished == published + Published(batch[..i], tombstoned, ok)
    && report == Outcomes(batch[..i], tombstoned, ok)
  }

  /** The state a pass over a batch ends in, after `done` rows. */
  ghost predicate Passed(rows: map<Key, Row>, published: seq<Msg>, tombstoned: set<Tid>, ok: Msg -> bool, del: Key -> bool,
                         batch: seq<Pending>, done: nat, nowRows: map<Key, Row>, nowPublished: seq<Msg>, report: Option<Report>)
  {
    && PassedUpTo(batch, tombstoned, ok, del, done)
    && nowRows == rows - Finished(batch[..done], tombstoned, ok)
    && nowPublished == published + Published(batch[..done], tombstoned, ok) + Half(batch, tombstoned, done)
    && report == if done == |batch| then Some(Outcomes(batch, tombstoned, ok)) else None
  }

  lemma PassStep(rows: map<Key, Row>, published: seq<Msg>, tombstoned: set<Tid>, ok: Msg -> bool, del: Key -> bool, batch: seq<Pending>,
                 i: nat, r: map<Key, Row>, p: seq<Msg>, report: Report)
    requires i < |batch| && PassAt(rows, published, tombstoned, ok, del, batch, i, r, p, report)
    ensures var row, dead := batch[i], batch[i].key.tid in tombstoned;
      && (Stuck(row, tombstoned, ok, del) ==>
            Passed(rows, published, tombstoned, ok, del, batch, i, r, if dead then p else p + [row.msg], None))
      && (!Stuck(row, tombstoned, ok, del) ==>
            PassAt(rows, published, tombstoned, ok, del, batch, i + 1,
              if dead || ok(row.msg) then r - {row.key} else r,
              if !dead && ok(row.msg) then p + [row.msg] else p,
              if dead then report.(dropped := report.dropped + 1)
              else if ok(row.msg) then report.(delivered := report.delivered + 1)
              else report.(failed := report.failed + 1)))
  {
    PrefixSnoc(batch, i);
    RowSnoc(batch, tombstoned, ok, i);
    hide Finished, Published;
  }

  lemma PassEnd(rows: map<Key, Row>, published: seq<Msg>, tombstoned: set<Tid>, ok: Msg -> bool, del: Key -> bool, batch: seq<Pending>,
                r: map<Key, Row>, p: seq<Msg>, report: Report)
    requires PassAt(rows, published, tombstoned, ok, del, batch, |batch|, r, p, report)
    ensures Passed(rows, published, tombstoned, ok, del, batch, |batch|, r, p, Some(report))
  {
    assert batch[..|batch|] == batch;
  }

  lemma SortDistinct(found: seq<Row>, sorted: seq<Row>)
    requires sorted == Sort(found, Older)
    requires forall i, j :: 0 <= i < j < |found| ==> found[i].key != found[j].key
    ensures forall i, j :: 0 <= i < j < |sorted| ==> sorted[i].key != sorted[j].key
  {
    SortKeepsAll(found, Older);
    hide Sort;
    forall i, j | 0 <= i < j < |sorted| ensures sorted[i].key != sorted[j].key {
      if sorted[i].key == sorted[j].key {
        SortMembers(found, Older);
        assert sorted[i] in found && sorted[j] in found;
        assert sorted[i] == sorted[j];
        Twice(sorted, i, j);
        OnlyOnce(found, sorted[i]);
      }
    }
  }

  lemma Twice(s: seq<Row>, i: nat, j: nat)
    requires i < j < |s| && s[i] == s[j]
    ensures multiset(s)[s[i]] >= 2
  {
    assert s == s[..i] + [s[i]] + s[i + 1..j] + [s[j]] + s[j + 1..];
  }

  lemma {:induction false} OnlyOnce(s: seq<Row>, r: Row)
    requires forall i, j :: 0 <= i < j < |s| ==> s[i].key != s[j].key
    ensures multiset(s)[r] <= 1
  {
    if s != [] {
      var n := |s| - 1;
      OnlyOnce(s[..n], r);
      assert s == s[..n] + [s[n]];
      if s[n] == r {
        assert r !in s[..n];
      }
    }
  }

  lemma InPrefix(sorted: seq<Row>, batch: seq<Row>, j: nat)
    requires batch <= sorted && j < |sorted|
    ensures j < |batch| ==> sorted[j] in batch
  {
    if j < |batch| {
      assert batch[j] == sorted[j];
    }
  }

  lemma OldestPrefix(rows: map<Key, Row>, before: int, limit: nat, sorted: seq<Row>, batch: seq<Row>)
    requires batch == if |sorted| <= limit then sorted else sorted[..limit]
    requires Ordered(sorted, Older) && forall i, j :: 0 <= i < j < |sorted| ==> sorted[i].key != sorted[j].key
    requires forall r :: r in sorted <==> r.key in rows && rows[r.key] == r && r.at <= before
    requires Keyed(rows)
    ensures OldestOf(rows, before, limit, batch)
  {
    hide Older;
    forall k | k in rows && rows[k].at <= before && rows[k] !in batch
      ensures |batch| == limit && forall i :: 0 <= i < |batch| ==> Older(batch[i], rows[k])
    {
      assert rows[k] in sorted;
      var j :| 0 <= j < |sorted| && sorted[j] == rows[k];
      InPrefix(sorted, batch, j);
    }
    forall i | 0 <= i < |batch| ensures batch[i].key in rows && rows[batch[i].key] == batch[i] && batch[i].at <= before {
      assert sorted[i] in sorted;
    }
  }

  // --- What a pass does -----------------------------------------------------------------------

  lemma {:induction false} FinishedKeys(batch: seq<Pending>, tombstoned: set<Tid>, ok: Msg -> bool, k: Key)
    ensures k in Finished(batch, tombstoned, ok) <==>
      exists i :: 0 <= i < |batch| && batch[i].key == k && (batch[i].key.tid in tombstoned || ok(batch[i].msg))
  {
    if batch != [] {
      var n := |batch| - 1;
      FinishedKeys(batch[..n], tombstoned, ok, k);
      if i :| 0 <= i < n && batch[..n][i].key == k && (k.tid in tombstoned || ok(batch[..n][i].msg)) {
        assert batch[i].key == k;
      }
      assert forall i :: 0 <= i < n ==> batch[..n][i] == batch[i];
    }
  }

  lemma {:induction false} PassCounts(batch: seq<Pending>, tombstoned: set<Tid>, ok: Msg -> bool)
    ensures var r := Outcomes(batch, tombstoned, ok);
      r.delivered + r.dropped + r.failed == |batch| && r.delivered == |Published(batch, tombstoned, ok)|
  {
    if batch != [] {
      PassCounts(batch[..|batch| - 1], tombstoned, ok);
    }
  }

  /** Every row looked at is counted once, and it stays in the outbox exactly when its publication failed. */
  lemma PassLaws(batch: seq<Pending>, tombstoned: set<Tid>, ok: Msg -> bool)
    requires forall i, j :: 0 <= i < j < |batch| ==> batch[i].key != batch[j].key
    ensures var r := Outcomes(batch, tombstoned, ok);
      && r.delivered + r.dropped + r.failed == |batch| && r.delivered == |Published(batch, tombstoned, ok)|
      && r.dropped == |DroppedRows(batch, tombstoned)|
    ensures forall i :: 0 <= i < |batch| ==>
      (batch[i].key in Finished(batch, tombstoned, ok) <==> batch[i].key.tid in tombstoned || ok(batch[i].msg))
    ensures forall k :: k in Finished(batch, tombstoned, ok) ==> exists i :: 0 <= i < |batch| && batch[i].key == k
  {
    hide Finished, Outcomes, Published, DroppedRows;
    PassCounts(batch, tombstoned, ok);
    DroppedCount(batch, tombstoned, ok);
    forall k ensures k in Finished(batch, tombstoned, ok) <==>
      exists i :: 0 <= i < |batch| && batch[i].key == k && (batch[i].key.tid in tombstoned || ok(batch[i].msg)) {
      FinishedKeys(batch, tombstoned, ok, k);
    }
  }

  // --- A pass is a run of the delivery protocol -------------------------------------------------

  /** A list of protocol steps leads from one world to another. */
  ghost predicate Leads(w: World, es: seq<Event>, maxBytes: nat, v: World)
    decreases |es|
  {
    if es == [] then w == v
    else CanHappen(w, maxBytes, es[0]) && Leads(Next(w, maxBytes, es[0]), es[1..], maxBytes, v)
  }

  lemma {:induction false} LeadsOn(u: World, a: seq<Event>, w: World, b: seq<Event>, v: World, maxBytes: nat)
    requires Leads(u, a, maxBytes, w) && Leads(w, b, maxBytes, v)
    ensures Leads(u, a + b, maxBytes, v)
    decreases |a|
  {
    hide Next, CanHappen;
    if a == [] {
      assert a + b == b;
    } else {
      LeadsOn(Next(u, maxBytes, a[0]), a[1..], w, b, v, maxBytes);
      assert (a + b)[1..] == a[1..] + b;
    }
  }

  lemma OneStep(w: World, e: Event, maxBytes: nat, v: World)
    requires CanHappen(w, maxBytes, e) && v == Next(w, maxBytes, e)
    ensures Leads(w, [e], maxBytes, v)
  {
    hide Next, CanHappen;
    assert Leads(v, [e][1..], maxBytes, v);
  }

  lemma SendsOne(w: World, maxBytes: nat, h: nat)
    requires h in w.holders && w.holders[h].duty == Live && w.holders[h].sent < |Split(w.holders[h].msg, maxBytes)|
    ensures var x := w.holders[h];
      Leads(w, [Send(h)], maxBytes,
            w.(queue := w.queue + [Split(x.msg, maxBytes)[x.sent]], holders := w.holders[h := x.(sent := x.sent + 1)]))
  {
    hide Split, Leads;
    OneStep(w, Send(h), maxBytes, Next(w, maxBytes, Send(h)));
  }

  /** A live holder sends the messages it has not sent yet. */
  lemma {:induction false} SendsRest(w: World, maxBytes: nat, h: nat) returns (es: seq<Event>, v: World)
    requires h in w.holders && w.holders[h].duty == Live && w.holders[h].sent <= |Split(w.holders[h].msg, maxBytes)|
    ensures Leads(w, es, maxBytes, v)
    ensures var x, all := w.holders[h], Split(w.holders[h].msg, maxBytes);
      v == w.(queue := w.queue + all[x.sent..], holders := w.holders[h := x.(sent := |all|)])
    decreases |Split(w.holders[h].msg, maxBytes)| - w.holders[h].sent
  {
    var x, all := w.holders[h], Split(w.holders[h].msg, maxBytes);
    hide Split, Next, CanHappen;
    if x.sent == |all| {
      es, v := [], w;
      assert w.queue + all[x.sent..] == w.queue && w.holders[h := x] == w.holders;
    } else {
      var u := w.(queue := w.queue + [all[x.sent]], holders := w.holders[h := x.(sent := x.sent + 1)]);
      SendsOne(w, maxBytes, h);
      hide Leads;
      es, v := SendsRest(u, maxBytes, h);
      LeadsOn(w, [Send(h)], u, es, v, maxBytes);
      es := [Send(h)] + es;
      ConcatAssoc(w.queue, [all[x.sent]], all[x.sent + 1..]);
      assert [all[x.sent]] + all[x.sent + 1..] == all[x.sent..];
      assert u.holders[h := u.holders[h].(sent := |all|)] == w.holders[h := x.(sent := |all|)];
    }
  }

  /** What the pass does with one row, as a change of the protocol's world. */
  ghost function AfterRow(w: World, maxBytes: nat, row: Pending, ok: Msg -> bool, del: Key -> bool): World {
    var dead := row.key.tid in w.tombstones;
    var settled := dead || ok(row.msg);
    w.(rows := if settled && del(row.key) then w.rows - {row.key} else w.rows,
       queue := if !dead && ok(row.msg) then w.queue + Split(row.msg, maxBytes) else w.queue,
       sentAll := if !dead && ok(row.msg) && del(row.key) then w.sentAll + {row.key} else w.sentAll,
       dropped := if dead && del(row.key) then w.dropped + {row.key} else w.dropped)
  }

  lemma RowIsRun(w: World, maxBytes: nat, h: nat, row: Pending, ok: Msg -> bool, del: Key -> bool) returns (es: seq<Event>)
    requires h !in w.holders && row.key in w.rows && w.rows[row.key] == row.msg
    ensures Leads(w, es, maxBytes, AfterRow(w, maxBytes, row, ok, del))
  {
    hide Split;
    var dead := row.key.tid in w.tombstones;
    var x := Holder(row.key, row.msg, 0, if dead then Dead else Live);
    var u, checked := w.(holders := w.holders[h := x.(duty := Unchecked)]), w.(holders := w.holders[h := x]);
    assert u.holders[h := x] == checked.holders && w.holders[h := x] - {h} == w.holders;
    OneStep(w, Load(h, row.key), maxBytes, u);
    OneStep(u, Check(h), maxBytes, checked);
    LeadsOn(w, [Load(h, row.key)], u, [Check(h)], checked, maxBytes);
    es := [Load(h, row.key)] + [Check(h)];
    if dead || !ok(row.msg) {
      var last := if dead && del(row.key) then Drop(h) else GiveUp(h);
      var v := AfterRow(w, maxBytes, row, ok, del);
      OneStep(checked, last, maxBytes, v);
      hide Leads;
      LeadsOn(w, es, checked, [last], v, maxBytes);
      es := es + [last];
    } else {
      hide Leads;
      var more := PublishIsRun(w, checked, maxBytes, h, row, ok, del);
      LeadsOn(w, es, checked, more, AfterRow(w, maxBytes, row, ok, del), maxBytes);
      es := es + more;
    }
  }

  lemma PublishIsRun(w: World, checked: World, maxBytes: nat, h: nat, row: Pending, ok: Msg -> bool, del: Key -> bool)
    returns (es: seq<Event>)
    requires h !in w.holders && checked == w.(holders := w.holders[h := Holder(row.key, row.msg, 0, Live)])
    requires row.key.tid !in w.tombstones && ok(row.msg)
    ensures Leads(checked, es, maxBytes, AfterRow(w, maxBytes, row, ok, del))
  {
    hide Split;
    var all := Split(row.msg, maxBytes);
    var sent;
    es, sent := SendsRest(checked, maxBytes, h);
    assert all[0..] == all && sent.holders - {h} == w.holders;
    var last := if del(row.key) then Remove(h) else GiveUp(h);
    var v := AfterRow(w, maxBytes, row, ok, del);
    OneStep(sent, last, maxBytes, v);
    hide Leads;
    LeadsOn(checked, es, sent, [last], v, maxBytes);
    es := es + [last];
  }

  function AllParts(msgs: seq<Msg>, maxBytes: nat): seq<Msg> {
    if msgs == [] then [] else AllParts(msgs[..|msgs| - 1], maxBytes) + Split(msgs[|msgs| - 1], maxBytes)
  }

  lemma AllPartsSnoc(msgs: seq<Msg>, m: Msg, maxBytes: nat)
    ensures AllParts(msgs + [m], maxBytes) == AllParts(msgs, maxBytes) + Split(m, maxBytes)
    ensures AllParts(msgs + [], maxBytes) == AllParts(msgs, maxBytes)
  {
    assert (msgs + [m])[..|msgs|] == msgs && msgs + [] == msgs;
  }

  /** The rows of a batch stand in the protocol's outbox, each once. */
  ghost predicate Standing(w: World, batch: seq<Pending>) {
    && (forall i :: 0 <= i < |batch| ==> batch[i].key in w.rows && w.rows[batch[i].key] == batch[i].msg)
    && (forall i, j :: 0 <= i < j < |batch| ==> batch[i].key != batch[j].key)
  }

  /** The world after the first `n` rows of a pass that is stuck with none of them. */
  ghost predicate AfterRows(w: World, v: World, maxBytes: nat, batch: seq<Pending>, ok: Msg -> bool, n: nat) {
    && n <= |batch| && v.tombstones == w.tombstones && v.holders == w.holders && v.committed == w.committed
    && v.rows == w.rows - Finished(batch[..n], w.tombstones, ok)
    && v.queue == w.queue + AllParts(Published(batch[..n], w.tombstones, ok), maxBytes)
  }

  lemma AfterOneMore(w: World, v: World, maxBytes: nat, batch: seq<Pending>, ok: Msg -> bool, del: Key -> bool, n: nat)
    requires n < |batch| && AfterRows(w, v, maxBytes, batch, ok, n) && !Stuck(batch[n], w.tombstones, ok, del)
    ensures AfterRows(w, AfterRow(v, maxBytes, batch[n], ok, del), maxBytes, batch, ok, n + 1)
  {
    RowsOneMore(w.rows, v.rows, w.tombstones, batch, ok, n);
    QueueOneMore(w.queue, v.queue, w.tombstones, maxBytes, batch, ok, n);
    hide Split, Finished, Published, AllParts;
  }

  lemma RowsOneMore(rows: map<Key, Msg>, now: map<Key, Msg>, tombstoned: set<Tid>, batch: seq<Pending>, ok: Msg -> bool, n: nat)
    requires n < |batch| && now == rows - Finished(batch[..n], tombstoned, ok)
    ensures rows - Finished(batch[..n + 1], tombstoned, ok)
         == if batch[n].key.tid in tombstoned || ok(batch[n].msg) then now - {batch[n].key} else now
  {
    RowSnoc(batch, tombstoned, ok, n);
    hide Finished;
  }

  lemma QueueOneMore(queue: seq<Msg>, now: seq<Msg>, tombstoned: set<Tid>, maxBytes: nat, batch: seq<Pending>, ok: Msg -> bool, n: nat)
    requires n < |batch| && now == queue + AllParts(Published(batch[..n], tombstoned, ok), maxBytes)
    ensures queue + AllParts(Published(batch[..n + 1], tombstoned, ok), maxBytes)
         == if batch[n].key.tid !in tombstoned && ok(batch[n].msg) then now + Split(batch[n].msg, maxBytes) else now
  {
    RowSnoc(batch, tombstoned, ok, n);
    var out, row := Published(batch[..n], tombstoned, ok), batch[n];
    AllPartsSnoc(out, row.msg, maxBytes);
    hide Published, AllParts, Split;
    ConcatAssoc(queue, AllParts(out, maxBytes), Split(row.msg, maxBytes));
    ConcatAssoc(out, [], []);
  }

  lemma RowSnoc(batch: seq<Pending>, tombstoned: set<Tid>, ok: Msg -> bool, n: nat)
    requires n < |batch|
    ensures var row := batch[n];
      && Finished(batch[..n + 1], tombstoned, ok)
         == (if row.key.tid in tombstoned || ok(row.msg) then Finished(batch[..n], tombstoned, ok) + {row.key}
             else Finished(batch[..n], tombstoned, ok))
      && Published(batch[..n + 1], tombstoned, ok)
         == Published(batch[..n], tombstoned, ok) + if row.key.tid !in tombstoned && ok(row.msg) then [row.msg] else []
  {
    PrefixSnoc(batch, n);
  }

  lemma {:induction false} StillStanding(batch: seq<Pending>, tombstoned: set<Tid>, ok: Msg -> bool, n: nat)
    requires n < |batch| && forall i, j :: 0 <= i < j < |batch| ==> batch[i].key != batch[j].key
    ensures batch[n].key !in Finished(batch[..n], tombstoned, ok)
  {
    FinishedKeys(batch[..n], tombstoned, ok, batch[n].key);
  }

  /**
   * The rows a pass gets through are a run of the delivery protocol that publishes every message
   * of every part and deletes the same rows; so what holds of every run of that protocol holds
   * while passes run.
   */
  lemma {:induction false} PassIsRun(w: World, maxBytes: nat, h: nat, batch: seq<Pending>, ok: Msg -> bool, del: Key -> bool, n: nat)
    returns (es: seq<Event>, v: World)
    requires h !in w.holders && Standing(w, batch) && n <= |batch|
    requires forall k :: 0 <= k < n ==> !Stuck(batch[k], w.tombstones, ok, del)
    ensures Leads(w, es, maxBytes, v) && AfterRows(w, v, maxBytes, batch, ok, n)
  {
    if n == 0 {
      es, v := [], w;
      assert w.rows - {} == w.rows && w.queue + [] == w.queue;
    } else {
      var u;
      es, u := PassIsRun(w, maxBytes, h, batch, ok, del, n - 1);
      StillStanding(batch, w.tombstones, ok, n - 1);
      AfterOneMore(w, u, maxBytes, batch, ok, del, n - 1);
      assert batch[n - 1].key in u.rows && u.rows[batch[n - 1].key] == batch[n - 1].msg;
      v := AfterRow(u, maxBytes, batch[n - 1], ok, del);
      hide AfterRows, Leads, Finished, Published, Split, AfterRow;
      var more := RowIsRun(u, maxBytes, h, batch[n - 1], ok, del);
      LeadsOn(w, es, u, more, v, maxBytes);
      es := es + more;
    }
  }
}
