/**
 * What the statements of an import mean for the job and its tables, field by field: when a batch is
 * admitted, what a commit counts and stores, which rejects are kept, and which keys count as accepted.
 */
module ImportMeaning {
  import opened Common
  import opened ImportJobs
  import opened RowMapping
  import opened ImportBatches
  import opened Sorting

  // --- Admission ----------------------------------------------------------------------------------

  /** A file job that still receives: not done or failed, and a batch came within the last 30 minutes. */
  ghost predicate Receives(job: Job, now: int) {
    !job.sample && job.status == Receiving && now - job.updatedAt <= 30 * 60 * 1000
  }

  /**
   * A batch goes in exactly when it has at most 100 rows, its number is new, the job receives, has a
   * mapping and room for the rows; a stored number gives its stored result, whatever the job's state.
   */
  lemma AdmitsExactly(found: Option<Job>, stored: Batches, no: nat, rows: nat, now: int)
    ensures var v := Admit(found, stored, no, rows, now);
      && (v == Go <==>
            && rows <= 100 && found.Some? && no !in stored
            && Receives(found.value, now) && found.value.mapping.Some? && found.value.counts.received + rows <= found.value.totalRows)
      && (v.Again? <==> rows <= 100 && found.Some? && no in stored)
      && (v.Again? ==> v.result == stored[no].result)
      && (v.No? ==> RefusedFor(v.why, found, no in stored, rows, now))
  {
  }

  /** The first check that fails is the one that is told. */
  ghost predicate RefusedFor(why: Refusal, found: Option<Job>, known: bool, rows: nat, now: int) {
    var few := rows <= 100;
    match why
    case TooManyRows => !few
    case NotFound => few && found == None
    case SampleJob => few && found.Some? && !known && found.value.sample
    case NotReceiving(told) =>
      && few && found.Some? && !known && !found.value.sample && !Receives(found.value, now)
      && told == (if found.value.status == Done then Done else Status.Failed)
    case MappingMissing => few && found.Some? && !known && Receives(found.value, now) && found.value.mapping == None
    case BeyondTotal =>
      few && found.Some? && !known && Receives(found.value, now) && found.value.mapping.Some?
      && found.value.counts.received + rows > found.value.totalRows
  }

  /** What readers are told of a job that stopped receiving. */
  lemma StatusTold(job: Job, now: int)
    ensures EffectiveStatus(job, now) == Status.Failed <==>
      job.status == Status.Failed || (job.status == Receiving && now - job.updatedAt > 30 * 60 * 1000)
    ensures EffectiveStatus(job, now) == Done <==> job.status == Done
  {
  }

  // --- A commit -----------------------------------------------------------------------------------

  /** The job after a batch was counted: its counters are raised, a last batch ends a receiving job, nothing else changes but the time. */
  ghost predicate Counted(a: Job, b: Job, c: Commit) {
    && b.counts.received == a.counts.received + c.stored.rows
    && b.counts.upserted == a.counts.upserted + c.stored.result.upserted
    && b.counts.skipped == a.counts.skipped + c.stored.result.skipped
    && b.counts.rejected == a.counts.rejected + |set r | r in c.stored.result.rejected :: r.row|
    && b.status == (if a.status == Receiving && c.last then Done else a.status)
    && b.updatedAt == c.at && b.mapping == a.mapping && b.totalRows == a.totalRows && b.sample == a.sample
  }

  /** The first reject of a row among the first `n`. */
  ghost predicate FirstOfRow(rejects: seq<Reject>, n: nat, row: nat, r: Reject) {
    exists i :: 0 <= i < n <= |rejects| && rejects[i].row == row && r == rejects[i] && forall j :: 0 <= j < i ==> rejects[j].row != row
  }

  /** Of the first `n` rejects the first of each row is kept, for rows that have none yet. */
  ghost predicate KeptUpTo(stored: Rejects, rejects: seq<Reject>, n: nat, after: Rejects) {
    && n <= |rejects|
    && (forall row :: row in stored ==> row in after && after[row] == stored[row])
    && (forall row :: row in after && row !in stored ==> FirstOfRow(rejects, n, row, after[row]))
    && (forall i :: 0 <= i < n ==> rejects[i].row in after)
  }

  /** Of the rejects, in order, as many are considered as there is room for up to 200. */
  ghost predicate RejectsKept(stored: Rejects, rejects: seq<Reject>, after: Rejects) {
    KeptUpTo(stored, rejects, Min(|rejects|, Max(0, 200 - |stored|)), after)
  }

  lemma FirstOfMore(rejects: seq<Reject>, n: nat, row: nat, r: Reject)
    requires n < |rejects|
    ensures FirstOfRow(rejects, n, row, r) ==> FirstOfRow(rejects, n + 1, row, r)
    ensures (forall i :: 0 <= i < n ==> rejects[i].row != row) && rejects[n] == r && r.row == row ==> FirstOfRow(rejects, n + 1, row, r)
  {
  }

  lemma {:induction false} IgnoredExactly(stored: Rejects, rejects: seq<Reject>, n: nat)
    requires n <= |rejects|
    ensures KeptUpTo(stored, rejects, n, IgnoreInto(stored, rejects[..n]))
  {
    if n > 0 {
      IgnoredExactly(stored, rejects, n - 1);
      PrefixSnoc(rejects, n - 1);
      var before, r := IgnoreInto(stored, rejects[..n - 1]), rejects[n - 1];
      assert IgnoreInto(stored, rejects[..n]) == if r.row in before then before else before[r.row := r];
      hide IgnoreInto;
      OneMoreKept(stored, rejects, n - 1, before);
    }
  }

  lemma OneMoreKept(stored: Rejects, rejects: seq<Reject>, n: nat, before: Rejects)
    requires n < |rejects| && KeptUpTo(stored, rejects, n, before)
    ensures KeptUpTo(stored, rejects, n + 1, if rejects[n].row in before then before else before[rejects[n].row := rejects[n]])
  {
    var after := if rejects[n].row in before then before else before[rejects[n].row := rejects[n]];
    hide FirstOfRow;
    forall row | row in after && row !in stored ensures FirstOfRow(rejects, n + 1, row, after[row]) {
      FirstOfMore(rejects, n, row, after[row]);
    }
  }

  /**
   * A commit stores the batch under its number unless one is there. It counts the batch and keeps
   * its rejects exactly when the stored one is of this attempt; other jobs, batches and rejects stay.
   */
  lemma CommitsExactly(db: Db, id: Id, c: Commit)
    ensures var (next, inserted) := CommitBatch(db, id, c);
      var mine := c.no !in BatchesOf(db, id) || BatchesOf(db, id)[c.no].attempt == c.stored.attempt;
      && (inserted <==> c.no !in BatchesOf(db, id))
      && BatchesOf(next, id) == (if inserted then BatchesOf(db, id)[c.no := c.stored] else BatchesOf(db, id))
      && next.jobs.Keys == db.jobs.Keys && next.mappings == db.mappings
      && (forall k :: k in db.jobs && (k != id || !mine) ==> next.jobs[k] == db.jobs[k])
      && (mine && id in db.jobs ==> Counted(db.jobs[id], next.jobs[id], c))
      && (forall k :: k != id ==> BatchesOf(next, k) == BatchesOf(db, k) && RejectsOf(next, k) == RejectsOf(db, k))
      && (!mine ==> RejectsOf(next, id) == RejectsOf(db, id))
      && (mine ==> RejectsKept(RejectsOf(db, id), c.stored.result.rejected, RejectsOf(next, id)))
  {
    AddedExactly(RejectsOf(db, id), c.stored.result.rejected);
    hide AddRejects, RejectsKept;
    CountedExactly(db.jobs, id, c);
    hide ApplyDelta, Counted, DeltaOf;
  }

  lemma AddedExactly(stored: Rejects, rejects: seq<Reject>)
    ensures RejectsKept(stored, rejects, AddRejects(stored, rejects))
  {
    var n := Min(|rejects|, Max(0, 200 - |stored|));
    IgnoredExactly(stored, rejects, n);
    assert AddRejects(stored, rejects) == IgnoreInto(stored, rejects[..n]) by {
      assert rejects[..|rejects|] == rejects;
    }
    hide AddRejects, IgnoreInto;
  }

  lemma CountedExactly(jobs: map<Id, Job>, id: Id, c: Commit)
    ensures id in jobs ==> Counted(jobs[id], ApplyDelta(jobs[id], DeltaOf(c.stored), c.last, c.at), c)
  {
    assert RowsIn(c.stored.result.rejected) == set r | r in c.stored.result.rejected :: r.row;
  }

  /** Failing a job, or all of a cleared workspace, turns exactly the receiving ones to failed. */
  lemma FailsExactly(db: Db, id: Id, at: int, k: Id)
    requires k in db.jobs
    ensures var one, all, a := MarkFailed(db, id, at), ClearWorkspace(db, at), db.jobs[k];
      var failed := a.(status := Status.Failed, updatedAt := at);
      && k in one.jobs && k in all.jobs && all.mappings == map[] && one.mappings == db.mappings
      && one.jobs[k] == (if k == id && a.status == Receiving then failed else a)
      && all.jobs[k] == (if a.status == Receiving then failed else a)
      && one.batches == db.batches == all.batches && one.rejects == db.rejects == all.rejects
  {
  }

  /** A mapping is taken exactly while no row has been received. */
  lemma MapsExactly(db: Db, id: Id, mapping: string, at: int)
    ensures var (next, changed) := SetMapping(db, id, mapping, at);
      && (changed <==> id in db.jobs && db.jobs[id].counts.received == 0)
      && (changed ==> id in next.jobs && next == db.(jobs := db.jobs[id := db.jobs[id].(mapping := Some(mapping), updatedAt := at)]))
      && (!changed ==> next == db)
  {
  }

  // --- One batch ----------------------------------------------------------------------------------

  /** The row was refused by the object graph for its limit or its type, so it was not written. */
  ghost predicate Unwritten(graph: seq<GraphReject>, row: nat) {
    exists i :: 0 <= i < |graph| && graph[i].row == row && (graph[i].code == "OBJECT_LIMIT" || graph[i].code == "UNKNOWN_TYPE")
  }

  /** The keys of the commands whose rows were written, in order. */
  ghost predicate KeysWritten(cmds: seq<Cmd>, keys: seq<string>, graph: seq<GraphReject>, kept: seq<string>, at: seq<nat>)
    requires |cmds| == |keys|
  {
    && |at| == |kept| && (forall k, l :: 0 <= k < l < |at| ==> at[k] < at[l])
    && (forall k :: 0 <= k < |at| ==> at[k] < |cmds| && !Unwritten(graph, cmds[at[k]].row) && kept[k] == keys[at[k]])
    && (forall i :: 0 <= i < |cmds| && !Unwritten(graph, cmds[i].row) ==> i in at)
  }

  lemma UnwrittenIsFailed(graph: seq<GraphReject>, row: nat)
    ensures Unwritten(graph, row) <==> row in FailedRows(graph)
  {
    if row in FailedRows(graph) {
      var g :| g in graph && NotWritten(g.code) && g.row == row;
      var i :| 0 <= i < |graph| && graph[i] == g;
    }
  }

  lemma {:induction false} KeptExactly(cmds: seq<Cmd>, keys: seq<string>, graph: seq<GraphReject>, n: nat) returns (at: seq<nat>)
    requires |cmds| == |keys| && n <= |cmds|
    ensures KeysWritten(cmds[..n], keys[..n], graph, KeptKeys(cmds[..n], keys[..n], FailedRows(graph)), at)
  {
    at := [];
    if n > 0 {
      at := KeptExactly(cmds, keys, graph, n - 1);
      PrefixSnoc(cmds, n - 1);
      PrefixSnoc(keys, n - 1);
      UnwrittenIsFailed(graph, cmds[n - 1].row);
      var front := at;
      var kept := KeptKeys(cmds[..n - 1], keys[..n - 1], FailedRows(graph));
      assert KeptKeys(cmds[..n], keys[..n], FailedRows(graph)) == kept + if cmds[n - 1].row in FailedRows(graph) then [] else [keys[n - 1]];
      hide KeptKeys, FailedRows, Unwritten;
      if cmds[n - 1].row !in FailedRows(graph) {
        at := at + [n - 1];
      } else {
        assert kept + [] == kept;
      }
      OneMoreKey(cmds, keys, graph, n - 1, kept, front);
    }
  }

  lemma OneMoreKey(cmds: seq<Cmd>, keys: seq<string>, graph: seq<GraphReject>, n: nat, kept: seq<string>, at: seq<nat>)
    requires |cmds| == |keys| && n < |cmds| && KeysWritten(cmds[..n], keys[..n], graph, kept, at)
    ensures Unwritten(graph, cmds[n].row) ==> KeysWritten(cmds[..n + 1], keys[..n + 1], graph, kept, at)
    ensures !Unwritten(graph, cmds[n].row) ==> KeysWritten(cmds[..n + 1], keys[..n + 1], graph, kept + [keys[n]], at + [n])
  {
    hide Unwritten;
    var more := at + [n];
    assert more[|at|] == n && forall i :: i in at ==> i in more;
    assert forall i :: 0 <= i < n ==> cmds[..n][i] == cmds[..n + 1][i] == cmds[i] && keys[..n][i] == keys[..n + 1][i] == keys[i];
    assert cmds[..n + 1][n] == cmds[n] && keys[..n + 1][n] == keys[n];
  }

  /** Codes are told apart by their texts: those of the mapping differ, and one of the object graph is its own. */
  lemma CodesTold(a: Code, b: Code, name: string)
    ensures !a.FromGraph? && !b.FromGraph? ==> (CodeText(a) == CodeText(b) <==> a == b)
    ensures CodeText(FromGraph(name)) == name
    ensures !a.FromGraph? && name !in {"PRIMARY_KEY_MISSING", "PRIMARY_KEY_CONFLICT", "REQUIRED", "TYPE", "TRANSFORM_FAILED"} ==>
      CodeText(a) != name
  {
    assert "PRIMARY_KEY_MISSING"[0] == 'P' && "REQUIRED"[0] == 'R' && "TYPE"[1] == 'Y' && "TRANSFORM_FAILED"[1] == 'R';
    assert "TYPE"[0] == 'T' && "TRANSFORM_FAILED"[0] == 'T' && "PRIMARY_KEY_CONFLICT"[0] == 'P';
    assert |"PRIMARY_KEY_MISSING"| != |"PRIMARY_KEY_CONFLICT"|;
  }

  /** The first of the rejects with its row and code. */
  ghost predicate IsFirst(rejects: seq<Reject>, i: nat) {
    i < |rejects| && forall j :: 0 <= j < i ==> rejects[j].row != rejects[i].row || CodeText(rejects[j].code) != CodeText(rejects[i].code)
  }

  lemma {:induction false} FirstsAreFirst(rejects: seq<Reject>, n: nat)
    requires n <= |rejects|
    ensures forall r :: r in Firsts(rejects[..n]) ==> exists i: nat :: i < n && IsFirst(rejects, i) && rejects[i] == r
  {
    if n > 0 {
      FirstsAreFirst(rejects, n - 1);
      PrefixSnoc(rejects, n - 1);
      FirstsKeepMarks(rejects[..n - 1]);
      var kept := Firsts(rejects[..n - 1]);
      if Mark(rejects[n - 1]) !in Marks(kept) {
        forall j | 0 <= j < n - 1 ensures Mark(rejects[j]) != Mark(rejects[n - 1]) {
          assert rejects[..n - 1][j] == rejects[j];
          assert Mark(rejects[..n - 1][j]) in Marks(rejects[..n - 1]);
        }
        assert IsFirst(rejects, n - 1);
      }
      hide CodeText, Marks, IsFirst;
    }
  }

  /** The object graph's rejects, by row and code alone. */
  ghost predicate FromGraphBy(graph: seq<GraphReject>, rejects: seq<Reject>) {
    |rejects| == |graph| && forall i :: 0 <= i < |graph| ==> rejects[i] == Reject(graph[i].row, FromGraph(graph[i].code), None, None)
  }

  /**
   * What a batch commits: its rows mapped from one more than the rows of the batches before it, with
   * the keys of all stored ones taken; the counts of the object graph, unless no row was left for it;
   * of the rejects of both, the mapping's first, the first of each row and code; and the keys of
   * the rows that were written.
   */
  lemma BatchCommits(cfg: Config, f: Flight, attempt: nat, graph: GraphResult, now: int) returns (theirs: seq<Reject>, at: seq<nat>)
    requires f.job.mapping.Some?
    ensures var c, mapped := Ingest(cfg, f, attempt, graph, now), MappedOf(cfg, f);
      var w := if mapped.cmds == [] then GraphResult(0, 0, []) else graph;
      && c.no == f.no && c.last == f.last && c.at == now && c.stored.rows == |f.rows| && c.stored.attempt == attempt
      && mapped == Mapped(cfg.env, cfg.specOf(f.job.mapping.value), f.rows, RowsBefore(f.prior, f.no) + 1,
                          set p, k | p in f.prior && k in p.stored.keys :: k)
      && c.stored.result.upserted == w.upserted && c.stored.result.skipped == w.skipped
      && FromGraphBy(w.rejected, theirs)
      && (forall r :: r in c.stored.result.rejected <==>
            exists i: nat :: IsFirst(mapped.rejects + theirs, i) && (mapped.rejects + theirs)[i] == r)
      && |mapped.cmds| == |mapped.keys| && KeysWritten(mapped.cmds, mapped.keys, w.rejected, c.stored.keys, at)
  {
    BatchMapped(cfg, f);
    hide Mapped, KeysStored, RowsBefore, MappedOf;
    theirs, at := BatchSummed(f, MappedOf(cfg, f), attempt, graph, now);
    assert Ingest(cfg, f, attempt, graph, now) == SumUp(f, MappedOf(cfg, f), attempt, graph, now);
    hide SumUp, Ingest, KeysWritten, IsFirst, FromGraphBy;
  }

  lemma BatchMapped(cfg: Config, f: Flight)
    requires f.job.mapping.Some?
    ensures var mapped := MappedOf(cfg, f);
      && |mapped.cmds| == |mapped.keys|
      && mapped == Mapped(cfg.env, cfg.specOf(f.job.mapping.value), f.rows, RowsBefore(f.prior, f.no) + 1,
                          set p, k | p in f.prior && k in p.stored.keys :: k)
  {
    hide Mapped, OnePerRow, RowsBefore;
    EachRowOnce(cfg.env, cfg.specOf(f.job.mapping.value), f.rows, RowsBefore(f.prior, f.no) + 1, KeysStored(f.prior));
    assert KeysStored(f.prior) == set p, k | p in f.prior && k in p.stored.keys :: k;
    hide KeysStored;
  }

  lemma BatchSummed(f: Flight, mapped: Output, attempt: nat, graph: GraphResult, now: int) returns (theirs: seq<Reject>, at: seq<nat>)
    requires |mapped.cmds| == |mapped.keys|
    ensures var c := SumUp(f, mapped, attempt, graph, now);
      var w := if mapped.cmds == [] then GraphResult(0, 0, []) else graph;
      && c.no == f.no && c.last == f.last && c.at == now && c.stored.rows == |f.rows| && c.stored.attempt == attempt
      && c.stored.result.upserted == w.upserted && c.stored.result.skipped == w.skipped
      && FromGraphBy(w.rejected, theirs)
      && (forall r :: r in c.stored.result.rejected <==>
            exists i: nat :: IsFirst(mapped.rejects + theirs, i) && (mapped.rejects + theirs)[i] == r)
      && KeysWritten(mapped.cmds, mapped.keys, w.rejected, c.stored.keys, at)
  {
    var w := if mapped.cmds == [] then NO_WRITE else graph;
    theirs := ToRejects(w.rejected);
    hide KeptKeys, FailedRows, KeysWritten, ToRejects, Merged, IsFirst;
    at := KeptExactly(mapped.cmds, mapped.keys, w.rejected, |mapped.cmds|);
    assert mapped.cmds[..|mapped.cmds|] == mapped.cmds && mapped.keys[..|mapped.keys|] == mapped.keys;
    MergedMembers(mapped.rejects, w.rejected);
  }

  lemma MergedMembers(own: seq<Reject>, graph: seq<GraphReject>)
    ensures FromGraphBy(graph, ToRejects(graph))
    ensures var all := own + ToRejects(graph);
      forall r :: r in Merged(own, graph) <==> exists i: nat :: IsFirst(all, i) && all[i] == r
  {
    var all := own + ToRejects(graph);
    FirstsAreFirst(all, |all|);
    assert all[..|all|] == all;
    SortMembers(Firsts(all), ByRow);
    forall i: nat | IsFirst(all, i) ensures all[i] in Firsts(all) {
      FirstIsKept(all, i, |all|);
    }
    hide Firsts, Sort, IsFirst, ToRejects;
  }

  lemma {:induction false} FirstIsKept(rejects: seq<Reject>, i: nat, n: nat)
    requires IsFirst(rejects, i) && i < n <= |rejects|
    ensures rejects[i] in Firsts(rejects[..n])
  {
    PrefixSnoc(rejects, n - 1);
    var kept := Firsts(rejects[..n - 1]);
    if i < n - 1 {
      FirstIsKept(rejects, i, n - 1);
      hide Marks, Mark;
      assert forall r :: r in kept ==> r in kept + [rejects[n - 1]];
    } else {
      FirstsKeepMarks(rejects[..n - 1]);
      forall r | r in rejects[..n - 1] ensures Mark(r) != Mark(rejects[i]) {
        var j :| 0 <= j < n - 1 && rejects[..n - 1][j] == r;
        assert rejects[j] == r;
      }
      assert (kept + [rejects[i]])[|kept|] == rejects[i];
    }
  }
}
