/**
 * Bounded purge of one workspace's graph rows (d1_lifecycle_store.ts, tenant_lifecycle.ts): the
 * tables are emptied in order, a step never deletes more than it may, and other workspaces keep
 * every row.
 */
module GraphPurge {
  import opened Common

  datatype RowId = RowId(tenant: string, key: seq<string>)

  const TABLES := 5
  const MAX_BATCH := 500

  function Of(rows: set<RowId>, tid: string): set<RowId> {
    set r | r in rows && r.tenant == tid
  }

  /** Rows of a workspace in the tables from `i` on. */
  function Held(tables: seq<set<RowId>>, tid: string, i: nat): nat
    requires i <= |tables|
    decreases |tables| - i
  {
    if i == |tables| then 0 else |Of(tables[i], tid)| + Held(tables, tid, i + 1)
  }

  lemma {:induction false} HeldAgrees(a: seq<set<RowId>>, b: seq<set<RowId>>, tid: string, i: nat)
    requires |a| == |b| && i <= |a| && forall k :: i <= k < |a| ==> Of(a[k], tid) == Of(b[k], tid)
    ensures Held(a, tid, i) == Held(b, tid, i)
    decreases |a| - i
  {
    if i < |a| {
      HeldAgrees(a, b, tid, i + 1);
    }
  }

  lemma {:induction false} HeldEmpty(tables: seq<set<RowId>>, tid: string, i: nat)
    requires i <= |tables|
    ensures Held(tables, tid, i) == 0 <==> forall k :: i <= k < |tables| ==> Of(tables[k], tid) == {}
    decreases |tables| - i
  {
    if i < |tables| {
      HeldEmpty(tables, tid, i + 1);
    }
  }

  /** What a purge of one workspace may change: its own rows go, a table only after the ones before it. */
  ghost predicate Purged(before: seq<set<RowId>>, after: seq<set<RowId>>, tid: string) {
    && |after| == |before|
    && (forall k :: 0 <= k < |after| ==> after[k] <= before[k])
    && (forall k, r :: 0 <= k < |after| && r in before[k] && r.tenant != tid ==> r in after[k])
    && (forall j, k :: 0 <= j < k < |after| && after[k] != before[k] ==> Of(after[j], tid) == {})
  }

  /** What one call of purgeTenant does with at most `n` rows. */
  ghost predicate PurgeCall(before: seq<set<RowId>>, after: seq<set<RowId>>, tid: string, n: nat, done: bool) {
    && Purged(before, after, tid)
    && Held(after, tid, 0) == Held(before, tid, 0) - Min(n, Held(before, tid, 0))
    && (done <==> Held(before, tid, 0) < n)
  }

  /** How many rows a call may delete. */
  function BatchOf(maxRows: int): (n: nat)
    ensures 1 <= maxRows <= MAX_BATCH ==> n == maxRows
    ensures (maxRows < 1 ==> n == 1) && (maxRows > MAX_BATCH ==> n == MAX_BATCH)
  {
    Max(1, Min(MAX_BATCH, if maxRows == 0 then 1 else maxRows))
  }

  class LifecycleStore {
    var tables: seq<set<RowId>>
    var tombstones: set<string>

    predicate Valid()
      reads this
    {
      |tables| == TABLES
    }

    constructor ()
      ensures Valid() && tables == seq(TABLES, i => {}) && tombstones == {}
    {
      tables := seq(TABLES, i => {});
      tombstones := {};
    }

    /** DELETE of at most `limit` of a workspace's rows in one table; which ones is not said. */
    method DeleteSome(t: nat, tid: string, limit: nat) returns (n: nat)
      requires Valid() && t < TABLES
      modifies this`tables
      ensures Valid()
      ensures n == Min(limit, |Of(old(tables[t]), tid)|)
      ensures tables == old(tables)[t := tables[t]] && tables[t] <= old(tables[t])
      ensures |Of(tables[t], tid)| == |Of(old(tables[t]), tid)| - n
      ensures forall r :: r in old(tables[t]) && r.tenant != tid ==> r in tables[t]
    {
      n := 0;
      var left := Of(tables[t], tid);
      while n < limit && left != {}
        invariant Valid() && tables == old(tables)[t := tables[t]] && tables[t] <= old(tables[t])
        invariant left == Of(tables[t], tid) && |left| == |Of(old(tables[t]), tid)| - n && n <= limit
        invariant forall r :: r in old(tables[t]) && r.tenant != tid ==> r in tables[t]
        decreases left
      {
        var r :| r in left;
        assert Of(tables[t] - {r}, tid) == left - {r};
        tables := tables[t := tables[t] - {r}];
        left := left - {r};
        n := n + 1;
      }
    }

    method PurgeStep(tid: string, maxRows: int) returns (deleted: nat, remaining: bool)
      requires Valid()
      modifies this`tables
      ensures Valid() && Purged(old(tables), tables, tid)
      ensures deleted == Min(Max(0, maxRows), old(Held(tables, tid, 0)))
      ensures Held(tables, tid, 0) == old(Held(tables, tid, 0)) - deleted
      ensures remaining <==> old(Held(tables, tid, 0)) >= maxRows
    {
      var budget := maxRows;
      deleted := 0;
      ghost var total := Held(tables, tid, 0);
      for t := 0 to TABLES
        invariant Valid() && Purged(old(tables), tables, tid)
        invariant forall k :: t <= k < TABLES ==> tables[k] == old(tables[k])
        invariant forall k :: 0 <= k < t ==> Of(tables[k], tid) == {}
        invariant budget == maxRows - deleted && (t > 0 ==> budget > 0) && (t == 0 ==> deleted == 0)
        invariant Held(tables, tid, t) == total - deleted
      {
        if budget <= 0 {
          return deleted, true;
        }
        ghost var before := tables;
        var n := DeleteSome(t, tid, budget);
        OneTable(old(tables), before, tables, tid, t, n);
        deleted := deleted + n;
        budget := budget - n;
        if n > 0 && budget <= 0 {
          HeldFrom(tables, tid, t);
          return deleted, true;
        }
      }
      HeldEmpty(tables, tid, 0);
      return deleted, false;
    }

    method PurgeTenant(tid: string, maxRows: int) returns (deleted: nat, done: bool)
      requires Valid()
      modifies this
      ensures Valid() && Purged(old(tables), tables, tid)
      ensures PurgeCall(old(tables), tables, tid, BatchOf(maxRows), done)
      ensures deleted == Min(BatchOf(maxRows), old(Held(tables, tid, 0)))
      ensures done ==> Held(tables, tid, 0) == 0
      ensures tombstones == if done then old(tombstones) + {tid} else old(tombstones)
    {
      var n := BatchOf(maxRows);
      var remaining;
      deleted, remaining := PurgeStep(tid, n);
      if !remaining {
        tombstones := tombstones + {tid};
      }
      done := !remaining;
    }
  }

  /** A delete in table `t`, after the earlier tables have been emptied. */
  lemma OneTable(first: seq<set<RowId>>, before: seq<set<RowId>>, after: seq<set<RowId>>, tid: string, t: nat, n: nat)
    requires Purged(first, before, tid) && t < |before| == |after| && after == before[t := after[t]]
    requires after[t] <= before[t] == first[t]
    requires forall k :: t <= k < |before| ==> before[k] == first[k]
    requires forall r :: r in before[t] && r.tenant != tid ==> r in after[t]
    requires |Of(after[t], tid)| == |Of(before[t], tid)| - n
    requires forall k :: 0 <= k < t ==> Of(before[k], tid) == {}
    ensures Purged(first, after, tid)
    ensures Held(after, tid, t + 1) == Held(before, tid, t + 1)
    ensures Held(after, tid, t) == Held(before, tid, t) - n
    ensures |Of(after[t], tid)| == 0 ==> Of(after[t], tid) == {}
  {
    HeldAgrees(after, before, tid, t + 1);
  }

  /** Emptied tables hold nothing. */
  lemma {:induction false} HeldFrom(tables: seq<set<RowId>>, tid: string, t: nat)
    requires t <= |tables| && forall k :: 0 <= k < t ==> Of(tables[k], tid) == {}
    ensures Held(tables, tid, 0) == Held(tables, tid, t)
    decreases t
  {
    if t > 0 {
      HeldFrom(tables, tid, t - 1);
    }
  }

  // --- Repeated calls -------------------------------------------------------------------------

  /** Calls with the same limit, one after the other, while no rows arrive. */
  ghost predicate Calls(states: seq<seq<set<RowId>>>, dones: seq<bool>, tid: string, n: nat) {
    |states| == |dones| + 1 && forall i :: 0 <= i < |dones| ==> PurgeCall(states[i], states[i + 1], tid, n, dones[i])
  }

  lemma {:induction false} LeftAfter(states: seq<seq<set<RowId>>>, dones: seq<bool>, tid: string, n: nat, i: nat)
    requires Calls(states, dones, tid, n) && i < |states|
    ensures Held(states[i], tid, 0) == Max(0, Held(states[0], tid, 0) - i * n)
    ensures |states[i]| == |states[0]|
    ensures forall t, r :: 0 <= t < |states[0]| ==> r in states[0][t] && r.tenant != tid ==> r in states[i][t]
    ensures forall t :: 0 <= t < |states[0]| ==> states[i][t] <= states[0][t]
  {
    if i > 0 {
      LeftAfter(states, dones, tid, n, i - 1);
      assert PurgeCall(states[i - 1], states[i], tid, n, dones[i - 1]);
      hide Calls, Held;
      assert i * n == (i - 1) * n + n;
    }
  }

  /**
   * Repeated calls with any limit delete the workspace's rows batch by batch: exactly the first
   * N / n calls, rounded down, leave something to do, the next one is done, and other workspaces
   * keep every row.
   */
  lemma PurgeEnds(states: seq<seq<set<RowId>>>, dones: seq<bool>, tid: string, maxRows: int, i: nat)
    requires Calls(states, dones, tid, BatchOf(maxRows)) && i < |dones|
    ensures dones[i] <==> i >= Held(states[0], tid, 0) / BatchOf(maxRows)
    ensures dones[i] ==> Held(states[i + 1], tid, 0) == 0
    ensures forall t, r :: 0 <= t < |states[0]| == |states[i]| ==> r in states[0][t] && r.tenant != tid ==> r in states[i][t]
  {
    var n, rows := BatchOf(maxRows), Held(states[0], tid, 0);
    LeftAfter(states, dones, tid, n, i);
    assert PurgeCall(states[i], states[i + 1], tid, n, dones[i]);
    hide Calls, Held, BatchOf;
    BatchCount(rows, n, i);
  }

  lemma BatchCount(rows: nat, n: nat, i: nat)
    requires n >= 1
    ensures Max(0, rows - i * n) < n <==> i >= rows / n
  {
    var q := rows / n;
    assert rows == q * n + rows % n;
    if i >= q {
      assert i * n >= q * n;
    } else {
      assert i * n + n == (i + 1) * n <= q * n;
    }
  }
}
