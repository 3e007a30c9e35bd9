/**
 * Import jobs of one workspace (d1_job_repository.ts, job.ts): the repository's statements on
 * the job, batch and reject tables. The first attempt to store a batch wins; only the winner
 * moves the counters and stores rejects.
 */
module ImportJobs {
  import opened Common
  import opened RowMapping

  type Id = string

  datatype Status = Receiving | Done | Failed

  datatype Counts = Counts(received: nat, upserted: nat, skipped: nat, rejected: nat)

  const ZERO := Counts(0, 0, 0, 0)

  function Plus(a: Counts, b: Counts): Counts {
    Counts(a.received + b.received, a.upserted + b.upserted, a.skipped + b.skipped, a.rejected + b.rejected)
  }

  datatype Job = Job(sample: bool, mapping: Option<string>, status: Status, totalRows: nat, counts: Counts, updatedAt: int)

  /** What a submitter is told: the batch's outcome and the job as the submitter saw it. */
  datatype Result = Result(upserted: nat, skipped: nat, rejected: seq<Reject>, status: Status, counts: Counts)

  datatype Stored = Stored(rows: nat, attempt: nat, result: Result, keys: seq<string>)

  type Batches = map<nat, Stored>

  /** Stored rejects, at most one per row. */
  type Rejects = map<nat, Reject>

  datatype Db = Db(jobs: map<Id, Job>, batches: map<Id, Batches>, rejects: map<Id, Rejects>, mappings: map<string, string>)

  datatype Commit = Commit(no: nat, stored: Stored, last: bool, at: int)

  const STALE_MS := 30 * 60000
  const MAX_REJECTS := 200

  function EffectiveStatus(job: Job, now: int): Status {
    if job.status == Receiving && now - job.updatedAt > STALE_MS then Status.Failed else job.status
  }

  function RowsIn(rejects: seq<Reject>): set<nat> {
    set r | r in rejects :: r.row
  }

  /** What a batch adds to the counters. */
  function DeltaOf(b: Stored): Counts {
    Counts(b.rows, b.result.upserted, b.result.skipped, |RowsIn(b.result.rejected)|)
  }

  function BatchesOf(db: Db, id: Id): Batches {
    if id in db.batches then db.batches[id] else map[]
  }

  function RejectsOf(db: Db, id: Id): Rejects {
    if id in db.rejects then db.rejects[id] else map[]
  }

  // --- The statements -------------------------------------------------------------------------

  function ApplyDelta(job: Job, delta: Counts, last: bool, at: int): Job {
    job.(counts := Plus(job.counts, delta), status := if last && job.status == Receiving then Done else job.status, updatedAt := at)
  }

  /** INSERT OR IGNORE, row by row. */
  function IgnoreInto(stored: Rejects, rejects: seq<Reject>): Rejects {
    if rejects == [] then stored
    else
      var before := IgnoreInto(stored, rejects[..|rejects| - 1]);
      var r := rejects[|rejects| - 1];
      if r.row in before then before else before[r.row := r]
  }

  function Room(stored: Rejects): nat {
    if |stored| < MAX_REJECTS then MAX_REJECTS - |stored| else 0
  }

  function AddRejects(stored: Rejects, rejects: seq<Reject>): Rejects {
    IgnoreInto(stored, if |rejects| <= Room(stored) then rejects else rejects[..Room(stored)])
  }

  /** One transaction: store the batch unless one is there, then count it if this attempt is the stored one. */
  function CommitBatch(db: Db, id: Id, c: Commit): (Db, bool) {
    var prior := BatchesOf(db, id);
    var inserted := c.no !in prior;
    var batches := if inserted then prior[c.no := c.stored] else prior;
    var won := batches[c.no].attempt == c.stored.attempt;
    var jobs := if won && id in db.jobs then db.jobs[id := ApplyDelta(db.jobs[id], DeltaOf(c.stored), c.last, c.at)] else db.jobs;
    var rejects := if won then db.rejects[id := AddRejects(RejectsOf(db, id), c.stored.result.rejected)] else db.rejects;
    (db.(batches := db.batches[id := batches], jobs := jobs, rejects := rejects), inserted)
  }

  function SetMapping(db: Db, id: Id, mapping: string, at: int): (Db, bool) {
    if id in db.jobs && db.jobs[id].counts.received == 0 then
      (db.(jobs := db.jobs[id := db.jobs[id].(mapping := Some(mapping), updatedAt := at)]), true)
    else (db, false)
  }

  function FailJob(job: Job, at: int): Job {
    if job.status == Receiving then job.(status := Status.Failed, updatedAt := at) else job
  }

  function MarkFailed(db: Db, id: Id, at: int): Db {
    if id in db.jobs then db.(jobs := db.jobs[id := FailJob(db.jobs[id], at)]) else db
  }

  function ClearWorkspace(db: Db, at: int): Db {
    db.(jobs := map id | id in db.jobs :: FailJob(db.jobs[id], at), mappings := map[])
  }

  function InsertJob(db: Db, id: Id, job: Job): Db {
    db.(jobs := db.jobs[id := job])
  }

  class D1JobRepository {
    var jobs: map<Id, Job>
    var batches: map<Id, Batches>
    var rejects: map<Id, Rejects>
    var mappings: map<string, string>

    ghost function Tables(): Db
      reads this
    {
      Db(jobs, batches, rejects, mappings)
    }

    constructor ()
      ensures Tables() == Db(map[], map[], map[], map[])
    {
      jobs, batches, rejects, mappings := map[], map[], map[], map[];
    }

    method Insert(id: Id, job: Job) returns (ok: bool)
      modifies this
      ensures ok <==> id !in old(jobs)
      ensures Tables() == if ok then InsertJob(old(Tables()), id, job) else old(Tables())
    {
      ok := id !in jobs;
      if ok {
        jobs := jobs[id := job];
      }
    }

    method Map(id: Id, mapping: string, at: int) returns (changed: bool)
      modifies this
      ensures (Tables(), changed) == SetMapping(old(Tables()), id, mapping, at)
    {
      changed := id in jobs && jobs[id].counts.received == 0;
      if changed {
        jobs := jobs[id := jobs[id].(mapping := Some(mapping), updatedAt := at)];
      }
    }

    method Commit(id: Id, c: Commit) returns (inserted: bool)
      modifies this
      ensures (Tables(), inserted) == CommitBatch(old(Tables()), id, c)
    {
      var prior: Batches := if id in batches then batches[id] else map[];
      inserted := c.no !in prior;
      var now: Batches := if inserted then prior[c.no := c.stored] else prior;
      batches := batches[id := now];
      if now[c.no].attempt == c.stored.attempt {
        if id in jobs {
          jobs := jobs[id := ApplyDelta(jobs[id], DeltaOf(c.stored), c.last, c.at)];
        }
        var kept := StoreRejects(if id in rejects then rejects[id] else map[], c.stored.result.rejected);
        rejects := rejects[id := kept];
      }
    }

    method Fail(id: Id, at: int)
      modifies this
      ensures Tables() == MarkFailed(old(Tables()), id, at)
    {
      if id in jobs && jobs[id].status == Receiving {
        jobs := jobs[id := jobs[id].(status := Status.Failed, updatedAt := at)];
      }
    }

    method Clear(at: int) returns (failed: nat)
      modifies this
      ensures Tables() == ClearWorkspace(old(Tables()), at)
      ensures failed == |set id | id in old(jobs) && old(jobs)[id].status == Receiving|
    {
      failed := |set id | id in jobs && jobs[id].status == Receiving|;
      jobs := map id | id in jobs :: FailJob(jobs[id], at);
      mappings := map[];
    }
  }

  method StoreRejects(stored: Rejects, rejects: seq<Reject>) returns (r: Rejects)
    ensures r == AddRejects(stored, rejects)
  {
    r := stored;
    var n := if |rejects| <= Room(stored) then |rejects| else Room(stored);
    for i := 0 to n
      invariant r == IgnoreInto(stored, rejects[..i])
    {
      PrefixSnoc(rejects, i);
      if rejects[i].row !in r {
        r := r[rejects[i].row := rejects[i]];
      }
    }
    assert rejects[..|rejects|] == rejects;
  }

  // --- Counters are sums ----------------------------------------------------------------------

  ghost function Sum(b: Batches): Counts
    decreases |b|
  {
    if b == map[] then ZERO
    else
      var k :| k in b;
      assert |b - {k}| < |b| by { assert b == (b - {k})[k := b[k]]; }
      Plus(DeltaOf(b[k]), Sum(b - {k}))
  }

  lemma {:induction false} SumAny(b: Batches, k: nat)
    requires k in b
    ensures Sum(b) == Plus(DeltaOf(b[k]), Sum(b - {k}))
    decreases |b|
  {
    hide DeltaOf;
    var j :| j in b && Sum(b) == Plus(DeltaOf(b[j]), Sum(b - {j}));
    if j != k {
      assert b == (b - {j})[j := b[j]] && b == (b - {k})[k := b[k]];
      SumAny(b - {j}, k);
      SumAny(b - {k}, j);
      var rest := b - {j} - {k};
      assert rest == b - {k} - {j};
      assert Sum(b - {j}) == Plus(DeltaOf(b[k]), Sum(rest));
      assert Sum(b - {k}) == Plus(DeltaOf(b[j]), Sum(rest));
      assert Sum(b) == Plus(DeltaOf(b[j]), Plus(DeltaOf(b[k]), Sum(rest)));
      assert Plus(DeltaOf(b[j]), Plus(DeltaOf(b[k]), Sum(rest))) == Plus(DeltaOf(b[k]), Plus(DeltaOf(b[j]), Sum(rest)));
    } else {
      assert Sum(b) == Plus(DeltaOf(b[k]), Sum(b - {k}));
    }
  }

  lemma SumInsert(b: Batches, k: nat, s: Stored)
    requires k !in b
    ensures Sum(b[k := s]) == Plus(Sum(b), DeltaOf(s))
  {
    SumAny(b[k := s], k);
    assert b[k := s] - {k} == b;
  }

  // --- What every statement keeps -------------------------------------------------------------

  ghost predicate RejectsOk(rejects: Rejects) {
    |rejects| <= MAX_REJECTS && forall row :: row in rejects ==> rejects[row].row == row
  }

  /** A job's counters are the sums over its stored batches. */
  ghost predicate CountsOk(db: Db, id: Id) {
    id in db.jobs ==> db.jobs[id].counts == Sum(BatchesOf(db, id))
  }

  ghost predicate DbOk(db: Db) {
    && (forall id :: id in db.jobs ==> CountsOk(db, id))
    && (forall id :: id in db.batches ==> id in db.jobs)
    && (forall id :: id in db.rejects ==> RejectsOk(db.rejects[id]))
  }

  predicate Final(s: Status) {
    s != Receiving
  }

  /** A job only moves on: a final status stays, counters grow, and a mapping in use stays. */
  ghost predicate JobEvolves(a: Job, b: Job) {
    && (Final(a.status) ==> b.status == a.status)
    && a.counts.received <= b.counts.received && a.counts.upserted <= b.counts.upserted
    && a.counts.skipped <= b.counts.skipped && a.counts.rejected <= b.counts.rejected
    && (a.counts.received > 0 ==> b.mapping == a.mapping)
    && b.totalRows == a.totalRows
  }

  ghost predicate JobsEvolve(a: map<Id, Job>, b: map<Id, Job>) {
    forall id :: id in a ==> id in b && JobEvolves(a[id], b[id])
  }

  /** A stored batch never changes. */
  ghost predicate BatchesStay(a: map<Id, Batches>, b: map<Id, Batches>) {
    forall id, no :: id in a && no in a[id] ==> id in b && no in b[id] && b[id][no] == a[id][no]
  }

  /** A stored reject never changes. */
  ghost predicate RejectsStay(a: map<Id, Rejects>, b: map<Id, Rejects>) {
    forall id, row :: id in a && row in a[id] ==> id in b && row in b[id] && b[id][row] == a[id][row]
  }

  ghost predicate DbEvolves(a: Db, b: Db) {
    JobsEvolve(a.jobs, b.jobs) && BatchesStay(a.batches, b.batches) && RejectsStay(a.rejects, b.rejects)
  }

  lemma {:induction false} IgnoreKeeps(stored: Rejects, rejects: seq<Reject>)
    requires forall row :: row in stored ==> stored[row].row == row
    ensures var r := IgnoreInto(stored, rejects);
      && |r| <= |stored| + |rejects|
      && (forall row :: row in r ==> r[row].row == row)
      && (forall row :: row in stored ==> row in r && r[row] == stored[row])
  {
    if rejects == [] {
    } else {
      IgnoreKeeps(stored, rejects[..|rejects| - 1]);
    }
  }

  lemma AddRejectsKeeps(stored: Rejects, rejects: seq<Reject>)
    requires RejectsOk(stored)
    ensures RejectsOk(AddRejects(stored, rejects))
    ensures forall row :: row in stored ==> row in AddRejects(stored, rejects) && AddRejects(stored, rejects)[row] == stored[row]
  {
    IgnoreKeeps(stored, if |rejects| <= Room(stored) then rejects else rejects[..Room(stored)]);
  }

  /** An attempt is new when the batch stored under its number, if any, came from another attempt. */
  predicate NewAttempt(db: Db, id: Id, c: Commit) {
    c.no in BatchesOf(db, id) ==> BatchesOf(db, id)[c.no].attempt != c.stored.attempt
  }

  lemma LostCommitChangesNothing(db: Db, id: Id, c: Commit)
    requires c.no in BatchesOf(db, id) && NewAttempt(db, id, c)
    ensures CommitBatch(db, id, c) == (db, false)
  {
    assert db.batches[id := db.batches[id]] == db.batches;
  }

  lemma WonCommitKeeps(db: Db, id: Id, c: Commit)
    requires DbOk(db) && id in db.jobs && c.no !in BatchesOf(db, id)
    ensures var next := CommitBatch(db, id, c).0;
      && CommitBatch(db, id, c).1 && DbOk(next) && DbEvolves(db, next)
      && BatchesOf(next, id)[c.no] == c.stored
  {
    hide Sum, DeltaOf, RejectsOk, DbEvolves, CountsOk, CommitBatch, BatchesOf;
    WonCommitCounts(db, id, c);
    WonCommitTables(db, id, c);
    WonCommitShape(db, id, c);
  }

  lemma WonCommitShape(db: Db, id: Id, c: Commit)
    requires id in db.jobs && c.no !in BatchesOf(db, id)
    ensures var (next, won) := CommitBatch(db, id, c);
      && won && next.jobs.Keys == db.jobs.Keys && next.batches.Keys == db.batches.Keys + {id}
      && c.no in BatchesOf(next, id) && BatchesOf(next, id)[c.no] == c.stored
  {
    hide AddRejects, DeltaOf, ApplyDelta;
  }

  lemma WonCommitCounts(db: Db, id: Id, c: Commit)
    requires id in db.jobs && c.no !in BatchesOf(db, id) && forall k :: k in db.jobs ==> CountsOk(db, k)
    ensures forall k :: k in db.jobs ==> CountsOk(CommitBatch(db, id, c).0, k)
  {
    SumInsert(BatchesOf(db, id), c.no, c.stored);
    var next := CommitBatch(db, id, c).0;
    hide AddRejects, Sum, DeltaOf;
    assert CountsOk(db, id);
    forall k | k in db.jobs && k != id ensures CountsOk(next, k) {
      assert BatchesOf(next, k) == BatchesOf(db, k) && CountsOk(db, k);
    }
  }

  lemma WonCommitTables(db: Db, id: Id, c: Commit)
    requires id in db.jobs && c.no !in BatchesOf(db, id) && forall k :: k in db.rejects ==> RejectsOk(db.rejects[k])
    ensures var next := CommitBatch(db, id, c).0;
      DbEvolves(db, next) && forall k :: k in next.rejects ==> RejectsOk(next.rejects[k])
  {
    WonJobs(db, id, c);
    WonBatches(db, id, c);
    WonRejects(db, id, c);
    hide *;
    DbEvolvesParts(db, CommitBatch(db, id, c).0);
  }

  lemma DbEvolvesParts(a: Db, b: Db)
    ensures JobsEvolve(a.jobs, b.jobs) && BatchesStay(a.batches, b.batches) && RejectsStay(a.rejects, b.rejects) <==> DbEvolves(a, b)
  {
  }

  lemma WonJobs(db: Db, id: Id, c: Commit)
    requires id in db.jobs && c.no !in BatchesOf(db, id)
    ensures JobsEvolve(db.jobs, CommitBatch(db, id, c).0.jobs)
  {
    hide AddRejects, DeltaOf;
  }

  lemma WonBatches(db: Db, id: Id, c: Commit)
    requires c.no !in BatchesOf(db, id)
    ensures BatchesStay(db.batches, CommitBatch(db, id, c).0.batches)
  {
    hide AddRejects, DeltaOf, ApplyDelta;
  }

  lemma WonRejects(db: Db, id: Id, c: Commit)
    requires c.no !in BatchesOf(db, id) && forall k :: k in db.rejects ==> RejectsOk(db.rejects[k])
    ensures var next := CommitBatch(db, id, c).0;
      RejectsStay(db.rejects, next.rejects) && forall k :: k in next.rejects ==> RejectsOk(next.rejects[k])
  {
    assert RejectsOk(RejectsOf(db, id));
    AddRejectsKeeps(RejectsOf(db, id), c.stored.result.rejected);
    hide AddRejects, DeltaOf, ApplyDelta, RejectsOk;
  }

  lemma CommitKeeps(db: Db, id: Id, c: Commit)
    requires DbOk(db) && id in db.jobs && NewAttempt(db, id, c)
    ensures var next := CommitBatch(db, id, c).0;
      DbOk(next) && DbEvolves(db, next) && c.no in BatchesOf(next, id)
  {
    if c.no in BatchesOf(db, id) {
      LostCommitChangesNothing(db, id, c);
    } else {
      WonCommitKeeps(db, id, c);
    }
    hide DbOk, DbEvolves, CommitBatch;
  }

  /**
   * Committing the same attempt twice would count it twice: the counters stay the sums exactly
   * when the attempt is new or the batch counts nothing.
   */
  lemma RepeatedAttemptCountsTwice(db: Db, id: Id, c: Commit)
    requires DbOk(db) && id in db.jobs
    ensures CountsOk(CommitBatch(db, id, c).0, id) <==> NewAttempt(db, id, c) || DeltaOf(c.stored) == ZERO
  {
    hide AddRejects, DeltaOf;
    var prior := BatchesOf(db, id);
    var next := CommitBatch(db, id, c).0;
    if c.no !in prior {
      SumInsert(prior, c.no, c.stored);
    }
    assert BatchesOf(next, id) == if c.no in prior then prior else prior[c.no := c.stored];
    assert CountsOk(db, id);
    hide Sum;
  }

  /** Statements that change jobs only, each job to a later state of itself. */
  lemma JobsOnly(db: Db, next: Db)
    requires DbOk(db) && next.batches == db.batches && next.rejects == db.rejects && next.jobs.Keys == db.jobs.Keys
    requires forall id :: id in db.jobs ==> JobEvolves(db.jobs[id], next.jobs[id]) && next.jobs[id].counts == db.jobs[id].counts
    ensures DbOk(next) && DbEvolves(db, next)
  {
    hide Sum, RejectsOk, JobEvolves;
    assert forall k :: k in db.jobs ==> BatchesOf(next, k) == BatchesOf(db, k) && CountsOk(db, k);
  }

  lemma FailEvolves(job: Job, at: int)
    ensures JobEvolves(job, FailJob(job, at)) && FailJob(job, at).counts == job.counts && Final(FailJob(job, at).status)
    ensures JobEvolves(job, job)
  {
  }

  lemma MappingKeeps(db: Db, id: Id, mapping: string, at: int)
    requires DbOk(db)
    ensures var next := SetMapping(db, id, mapping, at).0; DbOk(next) && DbEvolves(db, next)
  {
    hide DbOk, DbEvolves;
    JobsOnly(db, SetMapping(db, id, mapping, at).0);
  }

  lemma FailKeeps(db: Db, id: Id, at: int)
    requires DbOk(db)
    ensures DbOk(MarkFailed(db, id, at)) && DbEvolves(db, MarkFailed(db, id, at))
  {
    hide DbOk, DbEvolves, JobEvolves, FailJob;
    forall k | k in db.jobs
      ensures JobEvolves(db.jobs[k], MarkFailed(db, id, at).jobs[k])
      ensures MarkFailed(db, id, at).jobs[k].counts == db.jobs[k].counts
    {
      FailEvolves(db.jobs[k], at);
    }
    JobsOnly(db, MarkFailed(db, id, at));
  }

  lemma ClearKeeps(db: Db, at: int)
    requires DbOk(db)
    ensures var next := ClearWorkspace(db, at);
      && DbOk(next) && DbEvolves(db, next)
      && forall id :: id in next.jobs ==> Final(next.jobs[id].status)
  {
    hide DbOk, DbEvolves, JobEvolves, FailJob, Final;
    forall k | k in db.jobs
      ensures JobEvolves(db.jobs[k], ClearWorkspace(db, at).jobs[k]) && ClearWorkspace(db, at).jobs[k].counts == db.jobs[k].counts
      ensures Final(ClearWorkspace(db, at).jobs[k].status)
    {
      FailEvolves(db.jobs[k], at);
    }
    JobsOnly(db, ClearWorkspace(db, at));
  }

  lemma InsertKeeps(db: Db, id: Id, job: Job)
    requires DbOk(db) && id !in db.jobs && job.counts == ZERO
    ensures DbOk(InsertJob(db, id, job)) && DbEvolves(db, InsertJob(db, id, job))
  {
    hide RejectsOk;
    var next := InsertJob(db, id, job);
    assert BatchesOf(next, id) == map[];
    assert forall k :: k in db.jobs ==> BatchesOf(next, k) == BatchesOf(db, k) && CountsOk(db, k);
  }

  lemma EvolvesTransitive(a: Db, b: Db, c: Db)
    requires DbEvolves(a, b) && DbEvolves(b, c)
    ensures DbEvolves(a, c)
  {
  }
}
