/**
 * Submitting a batch as the service does it (batch_ingest.ts), statement by statement on the
 * repository: undisturbed, it is a submission and its finish in the protocol of concurrent callers.
 */
module ImportService {
  import opened Common
  import opened ImportJobs
  import opened RowMapping
  import opened ImportBatches

  datatype Response = Answered(result: Result) | Denied(why: Refusal)

  lemma {:induction false} HasLeast(s: set<nat>) returns (k: nat)
    requires s != {}
    ensures k in s && forall j :: j in s ==> k <= j
  {
    var x :| x in s;
    k := x;
    if s - {x} != {} {
      var y := HasLeast(s - {x});
      k := Min(x, y);
      assert forall j :: j in s ==> j == x || j in s - {x};
    } else {
      assert s == {x};
    }
  }

  /** The batches with numbers below those left, in order. */
  ghost predicate ListedFirst(b: Batches, left: set<nat>, prior: seq<Prior>) {
    && left <= b.Keys
    && Lists(b - left, prior)
    && (forall i, no :: 0 <= i < |prior| && no in left ==> prior[i].no < no)
  }

  lemma ListsNext(b: Batches, left: set<nat>, prior: seq<Prior>, k: nat)
    requires ListedFirst(b, left, prior) && k in left && forall j :: j in left ==> k <= j
    ensures ListedFirst(b, left - {k}, prior + [Prior(k, b[k])])
  {
    var all := prior + [Prior(k, b[k])];
    forall no | no in b - (left - {k}) ensures exists i :: 0 <= i < |all| && all[i].no == no {
      if no == k {
        assert all[|prior|].no == no;
      } else {
        assert no in b - left;
        var i :| 0 <= i < |prior| && prior[i].no == no;
        assert all[i].no == no;
      }
    }
  }

  /** The stored batches of a job, by number. */
  method ReadBatches(repo: D1JobRepository, id: Id) returns (prior: seq<Prior>)
    ensures Lists(BatchesOf(repo.Tables(), id), prior)
  {
    var b: Batches := if id in repo.batches then repo.batches[id] else map[];
    prior := [];
    var left := b.Keys;
    assert b - left == map[] && ListedFirst(b, left, prior);
    hide Lists, ListedFirst;
    while left != {}
      invariant ListedFirst(b, left, prior)
      decreases left
    {
      ghost var least := HasLeast(left);
      assert least in left && forall j :: j in left ==> least <= j;
      var k :| k in left && forall j :: j in left ==> k <= j;
      assert k in b by {
        InTable(b, left, prior, k);
      }
      ListsNext(b, left, prior, k);
      prior := prior + [Prior(k, b[k])];
      left := left - {k};
    }
    ListedAll(b, prior);
  }

  lemma InTable(b: Batches, left: set<nat>, prior: seq<Prior>, k: nat)
    requires ListedFirst(b, left, prior) && k in left
    ensures k in b
  {
  }

  lemma ListedAll(b: Batches, prior: seq<Prior>)
    requires ListedFirst(b, {}, prior)
    ensures Lists(b, prior)
  {
    assert b - {} == b;
  }

  method RowsStoredBefore(prior: seq<Prior>, no: nat) returns (n: nat)
    ensures n == RowsBefore(prior, no)
  {
    n := 0;
    for i := 0 to |prior|
      invariant n == RowsBefore(prior[..i], no)
    {
      PrefixSnoc(prior, i);
      if prior[i].no < no {
        n := n + prior[i].stored.rows;
      }
    }
    assert prior[..|prior|] == prior;
  }

  method WrittenKeys(cmds: seq<Cmd>, keys: seq<string>, failed: set<nat>) returns (kept: seq<string>)
    requires |cmds| == |keys|
    ensures kept == KeptKeys(cmds, keys, failed)
  {
    kept := [];
    for i := 0 to |cmds|
      invariant kept == KeptKeys(cmds[..i], keys[..i], failed)
    {
      PrefixSnoc(cmds, i);
      PrefixSnoc(keys, i);
      if cmds[i].row !in failed {
        kept := kept + [keys[i]];
      }
    }
    assert cmds[..|cmds|] == cmds && keys[..|keys|] == keys;
  }

  /** Maps the rows of a batch, numbered after the batches before it, with the keys accepted so far. */
  method MapBatch(cfg: Config, f: Flight) returns (mapped: Output)
    requires f.job.mapping.Some?
    ensures mapped == MappedOf(cfg, f) && |mapped.cmds| == |mapped.keys|
  {
    hide Mapped;
    var spec := cfg.specOf(f.job.mapping.value);
    var before := RowsStoredBefore(f.prior, f.no);
    mapped := MapRows(cfg.env, spec, f.rows, before + 1, KeysStored(f.prior));
    EachRowOnce(cfg.env, spec, f.rows, before + 1, KeysStored(f.prior));
  }

  /** Maps the rows, takes what object-graph answered, and sums up. */
  method IngestBatch(cfg: Config, f: Flight, attempt: nat, graph: GraphResult, at: int) returns (c: Commit)
    requires f.job.mapping.Some?
    ensures c == Ingest(cfg, f, attempt, graph, at)
  {
    var mapped := MapBatch(cfg, f);
    hide MappedOf, Mapped, SumUp;
    c := Summarize(f, mapped, attempt, graph, at);
  }

  method Summarize(f: Flight, mapped: Output, attempt: nat, graph: GraphResult, at: int) returns (c: Commit)
    requires |mapped.cmds| == |mapped.keys|
    ensures c == SumUp(f, mapped, attempt, graph, at)
  {
    hide KeptKeys, Merged, FailedRows;
    var w := if mapped.cmds == [] then NO_WRITE else graph;
    var rejected := MergeRejects(mapped.rejects, w.rejected);
    var keys := WrittenKeys(mapped.cmds, mapped.keys, FailedRows(w.rejected));
    var delta := Counts(|f.rows|, w.upserted, w.skipped, |RowsIn(rejected)|);
    var after := ApplyDelta(f.job, delta, f.last, at);
    var result := Result(w.upserted, w.skipped, rejected, EffectiveStatus(after, at), after.counts);
    c := Commit(f.no, Stored(|f.rows|, attempt, result, keys), f.last, at);
  }

  /** Stores an admitted batch; when another attempt was first, its result is the answer. */
  method StoreBatch(repo: D1JobRepository, cfg: Config, ghost t: Sys, caller: nat, f: Flight, graph: GraphResult, now: int)
    returns (result: Result)
    requires repo.Tables() == t.db && caller in t.flights && t.flights[caller] == f && f.job.mapping.Some?
    modifies repo
    ensures var finish := Finish(caller, graph, now, true);
      && repo.Tables() == FinishStep(cfg, t, finish).db
      && FinishStep(cfg, t, finish).answers == t.answers + [Answer(f.id, f.no, result)]
  {
    hide Ingest, CommitBatch;
    var c := IngestBatch(cfg, f, caller, graph, now);
    var won := repo.Commit(f.id, c);
    if !won && f.id in repo.batches && f.no in repo.batches[f.id] {
      return repo.batches[f.id][f.no].result;
    }
    return c.stored.result;
  }

  /**
   * One undisturbed call: it leaves the tables and gives the answer of the protocol's look and
   * submission and, when it is admitted, of its finish.
   */
  method SubmitBatch(repo: D1JobRepository, cfg: Config, ghost s: Sys, caller: nat, id: Id, no: nat, last: bool,
                     rows: seq<Row>, graph: GraphResult, now: int)
    returns (response: Response, ghost prior: seq<Prior>)
    requires repo.Tables() == s.db && caller !in s.used
    modifies repo
    ensures var r, submit := LookStep(s, caller, id), Submit(caller, no, last, rows, prior, now);
      && CanHappen(s, Look(caller, id)) && CanHappen(r, submit)
      && match Admit(JobOf(s.db, id), BatchesOf(s.db, id), no, |rows|, now)
         case Again(result) => repo.Tables() == s.db && response == Answered(result)
         case No(why) => repo.Tables() == s.db && response == Denied(why)
         case Go =>
           var t, finish := SubmitStep(r, submit), Finish(caller, graph, now, true);
           && CanHappen(t, finish) && repo.Tables() == FinishStep(cfg, t, finish).db
           && response.Answered?
           && FinishStep(cfg, t, finish).answers == s.answers + [Answer(id, no, response.result)]
  {
    var found := ReadBatches(repo, id);
    prior := found;
    hide Lists, FinishStep;
    if |rows| > MAX_BATCH_ROWS {
      return Denied(TooManyRows), prior;
    }
    if id !in repo.jobs {
      return Denied(NotFound), prior;
    }
    var job := repo.jobs[id];
    if id in repo.batches && no in repo.batches[id] {
      return Answered(repo.batches[id][no].result), prior;
    }
    if job.sample {
      return Denied(SampleJob), prior;
    }
    if EffectiveStatus(job, now) != Receiving {
      return Denied(NotReceiving(EffectiveStatus(job, now))), prior;
    }
    if job.mapping.None? {
      return Denied(MappingMissing), prior;
    }
    if job.counts.received + |rows| > job.totalRows {
      return Denied(BeyondTotal), prior;
    }
    ghost var t := SubmitStep(LookStep(s, caller, id), Submit(caller, no, last, rows, prior, now));
    var result := StoreBatch(repo, cfg, t, caller, Flight(id, no, last, rows, job, found), graph, now);
    return Answered(result), prior;
  }

  /** Every other event of the protocol that touches the tables is one call of the repository. */
  method Perform(repo: D1JobRepository, cfg: Config, ghost s: Sys, e: Event)
    requires repo.Tables() == s.db && CanHappen(s, e) && (e.Create? || e.Remap? || e.MarkJob? || e.Clear?)
    modifies repo
    ensures repo.Tables() == Next(cfg, s, e).db
  {
    match e {
      case Create(id, job) => var _ := repo.Insert(id, job);
      case Remap(id, mapping, at) => var _ := repo.Map(id, mapping, at);
      case MarkJob(id, at) => repo.Fail(id, at);
      case Clear(at) => var _ := repo.Clear(at);
    }
  }
}
