/**
 * Submitting batches of an import (batch_ingest.ts): any number of callers read the job, map and
 * write their rows and commit, in any interleaving, with lost callers and lost answers.
 */
module ImportBatches {
  import opened Common
  import opened ImportJobs
  import opened RowMapping
  import opened Sorting

  // --- One batch ------------------------------------------------------------------------------

  /** What object-graph answers for a batch. */
  datatype GraphReject = GraphReject(row: nat, code: string)

  datatype GraphResult = GraphResult(upserted: nat, skipped: nat, rejected: seq<GraphReject>)

  function CodeText(c: Code): string {
    match c
    case PrimaryKeyMissing => "PRIMARY_KEY_MISSING"
    case PrimaryKeyConflict => "PRIMARY_KEY_CONFLICT"
    case Required => "REQUIRED"
    case Type => "TYPE"
    case TransformFailed => "TRANSFORM_FAILED"
    case FromGraph(name) => name
  }

  function ToReject(g: GraphReject): Reject {
    Reject(g.row, FromGraph(g.code), None, None)
  }

  function ToRejects(graph: seq<GraphReject>): (r: seq<Reject>)
    ensures |r| == |graph|
  {
    seq(|graph|, i requires 0 <= i < |graph| => ToReject(graph[i]))
  }

  /** A reject is known by its row and code. */
  function Mark(r: Reject): (nat, string) {
    (r.row, CodeText(r.code))
  }

  function Marks(rejects: seq<Reject>): set<(nat, string)> {
    set r | r in rejects :: Mark(r)
  }

  /** The first reject of each row and code. */
  function Firsts(rejects: seq<Reject>): seq<Reject> {
    if rejects == [] then []
    else
      var kept := Firsts(rejects[..|rejects| - 1]);
      var r := rejects[|rejects| - 1];
      if Mark(r) in Marks(kept) then kept else kept + [r]
  }

  predicate ByRow(a: Reject, b: Reject) {
    a.row <= b.row
  }

  function Merged(own: seq<Reject>, graph: seq<GraphReject>): seq<Reject> {
    Sort(Firsts(own + ToRejects(graph)), ByRow)
  }

  method MergeRejects(own: seq<Reject>, graph: seq<GraphReject>) returns (out: seq<Reject>)
    ensures out == Merged(own, graph)
  {
    var all := own + ToRejects(graph);
    var seen: set<(nat, string)> := {};
    out := [];
    for i := 0 to |all|
      invariant out == Firsts(all[..i]) && seen == Marks(out)
    {
      PrefixSnoc(all, i);
      var k := Mark(all[i]);
      if k in seen {
        continue;
      }
      seen := seen + {k};
      out := out + [all[i]];
    }
    assert all[..|all|] == all;
    out := Sort(out, ByRow);
  }

  lemma MarksSnoc(rejects: seq<Reject>, r: Reject)
    ensures Marks(rejects + [r]) == Marks(rejects) + {Mark(r)}
  {
    hide Mark;
    assert (rejects + [r])[|rejects|] == r;
  }

  lemma {:induction false} FirstsKeepMarks(rejects: seq<Reject>)
    ensures Marks(Firsts(rejects)) == Marks(rejects)
    ensures forall i, j :: 0 <= i < j < |Firsts(rejects)| ==> Mark(Firsts(rejects)[i]) != Mark(Firsts(rejects)[j])
    ensures forall r :: r in Firsts(rejects) ==> r in rejects
  {
    if rejects == [] {
    } else {
      var n := |rejects| - 1;
      FirstsKeepMarks(rejects[..n]);
      assert rejects == rejects[..n] + [rejects[n]];
      hide Mark;
      var kept := Firsts(rejects[..n]);
      MarksSnoc(rejects[..n], rejects[n]);
      MarksSnoc(kept, rejects[n]);
      assert forall i :: 0 <= i < |kept| ==> Mark(kept[i]) in Marks(kept);
    }
  }

  /** Merged rejects come by row, one per row and code, and cover both lists. */
  lemma MergedLaws(own: seq<Reject>, graph: seq<GraphReject>)
    ensures var out := Merged(own, graph);
      && (forall i, j :: 0 <= i < j < |out| ==> out[i].row <= out[j].row)
      && Marks(out) == Marks(own + ToRejects(graph))
      && |out| == |Marks(out)|
      && RowsIn(out) == RowsIn(own) + set g | g in graph :: g.row
  {
    var all := own + ToRejects(graph);
    var firsts := Firsts(all);
    FirstsKeepMarks(all);
    SortOrders(firsts, ByRow);
    SortMembers(firsts, ByRow);
    var out := Merged(own, graph);
    MarksOfSame(firsts, out);
    MarkCount(firsts);
    RowsFromMarks(out);
    RowsFromMarks(all);
    RowsOfBoth(own, graph);
    hide Sort, Firsts, Marks, RowsIn;
  }

  lemma MarksOfSame(a: seq<Reject>, b: seq<Reject>)
    requires forall r :: r in a <==> r in b
    ensures Marks(a) == Marks(b)
  {
    hide Mark;
  }

  lemma {:induction false} MarkCount(rejects: seq<Reject>)
    requires forall i, j :: 0 <= i < j < |rejects| ==> Mark(rejects[i]) != Mark(rejects[j])
    ensures |Marks(rejects)| == |rejects|
  {
    hide Mark;
    if rejects == [] {
    } else {
      var n := |rejects| - 1;
      MarkCount(rejects[..n]);
      assert rejects == rejects[..n] + [rejects[n]];
      assert Marks(rejects) == Marks(rejects[..n]) + {Mark(rejects[n])};
    }
  }

  lemma RowsFromMarks(rejects: seq<Reject>)
    ensures RowsIn(rejects) == set m | m in Marks(rejects) :: m.0
  {
    hide CodeText;
    forall row | row in RowsIn(rejects) ensures row in set m | m in Marks(rejects) :: m.0 {
      var r :| r in rejects && r.row == row;
      assert Mark(r) in Marks(rejects);
    }
  }

  lemma RowsOfBoth(own: seq<Reject>, graph: seq<GraphReject>)
    ensures RowsIn(own + ToRejects(graph)) == RowsIn(own) + set g | g in graph :: g.row
  {
    var mapped := ToRejects(graph);
    forall g | g in graph ensures g.row in RowsIn(mapped) {
      var i :| 0 <= i < |graph| && graph[i] == g;
      assert mapped[i] in mapped;
    }
    assert RowsIn(own + mapped) == RowsIn(own) + RowsIn(mapped);
  }

  datatype Prior = Prior(no: nat, stored: Stored)

  /** The batches of a job as read back, by number. */
  ghost predicate Lists(batches: Batches, prior: seq<Prior>) {
    && (forall i, j :: 0 <= i < j < |prior| ==> prior[i].no < prior[j].no)
    && (forall i :: 0 <= i < |prior| ==> prior[i].no in batches && batches[prior[i].no] == prior[i].stored)
    && (forall no :: no in batches ==> exists i :: 0 <= i < |prior| && prior[i].no == no)
  }

  function RowsBefore(prior: seq<Prior>, no: nat): nat {
    if prior == [] then 0
    else
      var p := prior[|prior| - 1];
      RowsBefore(prior[..|prior| - 1], no) + if p.no < no then p.stored.rows else 0
  }

  function KeysStored(prior: seq<Prior>): set<string> {
    set p, k | p in prior && k in p.stored.keys :: k
  }

  predicate NotWritten(code: string) {
    code == "OBJECT_LIMIT" || code == "UNKNOWN_TYPE"
  }

  function FailedRows(graph: seq<GraphReject>): set<nat> {
    set g | g in graph && NotWritten(g.code) :: g.row
  }

  /** Keys of the rows object-graph did not fail. */
  function KeptKeys(cmds: seq<Cmd>, keys: seq<string>, failed: set<nat>): seq<string>
    requires |cmds| == |keys|
  {
    if cmds == [] then []
    else
      var n := |cmds| - 1;
      KeptKeys(cmds[..n], keys[..n], failed) + if cmds[n].row in failed then [] else [keys[n]]
  }

  /** One submission in flight: what it read and what it brings. */
  datatype Flight = Flight(id: Id, no: nat, last: bool, rows: seq<Row>, job: Job, prior: seq<Prior>)

  datatype Config = Config(env: Env, specOf: string -> Spec)

  function MappedOf(cfg: Config, f: Flight): (out: Output)
    requires f.job.mapping.Some?
  {
    Mapped(cfg.env, cfg.specOf(f.job.mapping.value), f.rows, RowsBefore(f.prior, f.no) + 1, KeysStored(f.prior))
  }

  const NO_WRITE := GraphResult(0, 0, [])

  /** Maps, writes and sums up one batch. */
  function Ingest(cfg: Config, f: Flight, attempt: nat, graph: GraphResult, at: int): Commit
    requires f.job.mapping.Some?
  {
    EachRowOnce(cfg.env, cfg.specOf(f.job.mapping.value), f.rows, RowsBefore(f.prior, f.no) + 1, KeysStored(f.prior));
    SumUp(f, MappedOf(cfg, f), attempt, graph, at)
  }

  /** What a batch stores, from its mapped rows and what object-graph answered. */
  function SumUp(f: Flight, mapped: Output, attempt: nat, graph: GraphResult, at: int): Commit
    requires |mapped.cmds| == |mapped.keys|
  {
    var w := if mapped.cmds == [] then NO_WRITE else graph;
    var rejected := Merged(mapped.rejects, w.rejected);
    var keys := KeptKeys(mapped.cmds, mapped.keys, FailedRows(w.rejected));
    var delta := Counts(|f.rows|, w.upserted, w.skipped, |RowsIn(rejected)|);
    var after := ApplyDelta(f.job, delta, f.last, at);
    var result := Result(w.upserted, w.skipped, rejected, EffectiveStatus(after, at), after.counts);
    Commit(f.no, Stored(|f.rows|, attempt, result, keys), f.last, at)
  }

  // --- Submissions ------------------------------------------------------------------------------

  const MAX_BATCH_ROWS := 100

  datatype Refusal = TooManyRows | NotFound | SampleJob | NotReceiving(status: Status) | MappingMissing | BeyondTotal

  datatype Verdict = Again(result: Result) | No(why: Refusal) | Go

  /** The checks of submitBatch, in order, on the job and the batches as they were read. */
  function Admit(found: Option<Job>, stored: Batches, no: nat, rows: nat, now: int): Verdict {
    if rows > MAX_BATCH_ROWS then No(TooManyRows)
    else if found.None? then No(NotFound)
    else if no in stored then Again(stored[no].result)
    else
      var job := found.value;
      if job.sample then No(SampleJob)
      else if EffectiveStatus(job, now) != Receiving then No(NotReceiving(EffectiveStatus(job, now)))
      else if job.mapping.None? then No(MappingMissing)
      else if job.counts.received + rows > job.totalRows then No(BeyondTotal)
      else Go
  }

  datatype Answer = Answer(id: Id, no: nat, result: Result)

  /** A submission that has read the job, and not yet its batches. */
  datatype Reader = Reader(id: Id, found: Option<Job>)

  datatype Sys = Sys(db: Db, readers: map<nat, Reader>, flights: map<nat, Flight>, used: set<nat>, answers: seq<Answer>)

  datatype Event =
    | Create(id: Id, job: Job)
    | Remap(id: Id, mapping: string, at: int)
    | MarkJob(id: Id, at: int)
    | Clear(at: int)
    | Look(caller: nat, id: Id)
    | Submit(caller: nat, no: nat, last: bool, rows: seq<Row>, prior: seq<Prior>, now: int)
    | Finish(caller: nat, graph: GraphResult, at: int, delivered: bool)
    | Vanish(caller: nat)

  ghost predicate CanHappen(s: Sys, e: Event) {
    match e
    case Create(id, job) => id !in s.db.jobs && job.counts == ZERO
    case Look(caller, _) => caller !in s.used
    case Submit(caller, _, _, _, prior, _) => caller in s.readers && Lists(BatchesOf(s.db, s.readers[caller].id), prior)
    case Finish(caller, _, _, _) => caller in s.flights && s.flights[caller].job.mapping.Some?
    case Vanish(caller) => caller in s.flights || caller in s.readers
    case _ => true
  }

  function JobOf(db: Db, id: Id): Option<Job> {
    if id in db.jobs then Some(db.jobs[id]) else None
  }

  /** The first await: the job is read. */
  function LookStep(s: Sys, caller: nat, id: Id): Sys {
    s.(used := s.used + {caller}, readers := s.readers[caller := Reader(id, JobOf(s.db, id))])
  }

  /** The second await: the batches are read, and the checks decide. */
  function SubmitStep(s: Sys, e: Event): Sys
    requires e.Submit? && e.caller in s.readers
  {
    var read := s.readers[e.caller];
    var v := s.(readers := s.readers - {e.caller});
    match Admit(read.found, BatchesOf(s.db, read.id), e.no, |e.rows|, e.now)
    case Again(result) => v.(answers := s.answers + [Answer(read.id, e.no, result)])
    case No(_) => v
    case Go => v.(flights := s.flights[e.caller := Flight(read.id, e.no, e.last, e.rows, read.found.value, e.prior)])
  }

  /** Commit; the answer is the batch stored under the number, whoever stored it. */
  function FinishStep(cfg: Config, s: Sys, e: Event): Sys
    requires e.Finish? && e.caller in s.flights && s.flights[e.caller].job.mapping.Some?
  {
    var f := s.flights[e.caller];
    var c := Ingest(cfg, f, e.caller, e.graph, e.at);
    var (db, won) := CommitBatch(s.db, f.id, c);
    var result := if won || f.no !in BatchesOf(db, f.id) then c.stored.result else BatchesOf(db, f.id)[f.no].result;
    s.(db := db, flights := s.flights - {e.caller},
       answers := if e.delivered then s.answers + [Answer(f.id, f.no, result)] else s.answers)
  }

  ghost function Next(cfg: Config, s: Sys, e: Event): Sys
    requires CanHappen(s, e)
  {
    match e
    case Create(id, job) => s.(db := InsertJob(s.db, id, job))
    case Remap(id, mapping, at) => s.(db := SetMapping(s.db, id, mapping, at).0)
    case MarkJob(id, at) => s.(db := MarkFailed(s.db, id, at))
    case Clear(at) => s.(db := ClearWorkspace(s.db, at))
    case Look(caller, id) => LookStep(s, caller, id)
    case Submit(_, _, _, _, _, _) => SubmitStep(s, e)
    case Finish(_, _, _, _) => FinishStep(cfg, s, e)
    case Vanish(caller) => s.(readers := s.readers - {caller}, flights := s.flights - {caller})
  }

  // --- What every step keeps --------------------------------------------------------------------

  /** A caller under way, reading or in flight, is no stored attempt. */
  ghost predicate AttemptsOk(s: Sys) {
    && (forall caller :: caller in s.readers ==>
          caller in s.used && (s.readers[caller].found.Some? ==> s.readers[caller].id in s.db.jobs))
    && (forall caller :: caller in s.flights ==> caller in s.used && caller !in s.readers && s.flights[caller].id in s.db.jobs)
    && (forall id, no :: id in s.db.batches && no in s.db.batches[id] ==> Spent(s, s.db.batches[id][no].attempt))
  }

  predicate Spent(s: Sys, attempt: nat) {
    attempt in s.used && attempt !in s.flights && attempt !in s.readers
  }

  ghost predicate AnswerOk(db: Db, a: Answer) {
    a.no in BatchesOf(db, a.id) && BatchesOf(db, a.id)[a.no].result == a.result
  }

  ghost predicate AnswersOk(s: Sys) {
    forall i :: 0 <= i < |s.answers| ==> AnswerOk(s.db, s.answers[i])
  }

  ghost predicate Inv(s: Sys) {
    DbOk(s.db) && AttemptsOk(s) && AnswersOk(s)
  }

  lemma AnswersStay(s: Sys, db: Db)
    requires AnswersOk(s) && BatchesStay(s.db.batches, db.batches)
    ensures AnswersOk(s.(db := db))
  {
    forall i | 0 <= i < |s.answers| ensures AnswerOk(db, s.answers[i]) {
      assert AnswerOk(s.db, s.answers[i]);
    }
  }

  /** The statements that touch no batch. */
  lemma TableKeeps(cfg: Config, s: Sys, e: Event)
    requires Inv(s) && CanHappen(s, e) && (e.Create? || e.Remap? || e.MarkJob? || e.Clear?)
    ensures Inv(Next(cfg, s, e)) && DbEvolves(s.db, Next(cfg, s, e).db)
  {
    hide DbOk, DbEvolves, AttemptsOk, AnswersOk, JobsEvolve, RejectsStay, CountsOk, RejectsOk, FailJob;
    var v := Next(cfg, s, e);
    match e {
      case Create(id, job) => InsertKeeps(s.db, id, job);
      case Remap(id, mapping, at) => MappingKeeps(s.db, id, mapping, at);
      case MarkJob(id, at) => FailKeeps(s.db, id, at);
      case Clear(at) => ClearKeeps(s.db, at);
    }
    hide BatchesStay;
    assert v == s.(db := v.db) && v.db.batches == s.db.batches && s.db.jobs.Keys <= v.db.jobs.Keys;
    hide Next;
    SameBatches(s, v.db);
  }

  lemma SameBatches(s: Sys, db: Db)
    requires AttemptsOk(s) && AnswersOk(s) && db.batches == s.db.batches && s.db.jobs.Keys <= db.jobs.Keys
    ensures AttemptsOk(s.(db := db)) && AnswersOk(s.(db := db))
  {
    AnswersStay(s, db);
    hide AnswersOk;
  }

  lemma LookKeeps(s: Sys, caller: nat, id: Id)
    requires Inv(s) && caller !in s.used
    ensures Inv(LookStep(s, caller, id)) && DbEvolves(s.db, s.db)
  {
    hide DbOk;
    assert forall i :: 0 <= i < |s.answers| ==> AnswerOk(s.db, s.answers[i]);
  }

  lemma SubmitKeeps(s: Sys, e: Event)
    requires Inv(s) && e.Submit? && CanHappen(s, e)
    ensures Inv(SubmitStep(s, e)) && DbEvolves(s.db, SubmitStep(s, e).db)
  {
    hide DbOk, Lists;
    var v := SubmitStep(s, e);
    assert forall i :: 0 <= i < |s.answers| ==> AnswerOk(s.db, s.answers[i]);
  }

  lemma IngestNumber(cfg: Config, f: Flight, attempt: nat, graph: GraphResult, at: int)
    requires f.job.mapping.Some?
    ensures var c := Ingest(cfg, f, attempt, graph, at); c.no == f.no && c.stored.rows == |f.rows| && c.stored.attempt == attempt
  {
  }

  /** The commit of a submission that finishes: a new attempt at its batch. */
  lemma FinishCommits(cfg: Config, s: Sys, e: Event)
    requires AttemptsOk(s) && e.Finish? && CanHappen(s, e)
    ensures var f := s.flights[e.caller]; var c := Ingest(cfg, f, e.caller, e.graph, e.at);
      && f.id in s.db.jobs && NewAttempt(s.db, f.id, c) && c.no == f.no && c.stored.rows == |f.rows|
      && FinishStep(cfg, s, e).db == CommitBatch(s.db, f.id, c).0
  {
    var f := s.flights[e.caller];
    IngestNumber(cfg, f, e.caller, e.graph, e.at);
    hide Ingest, CommitBatch;
  }

  lemma FinishKeeps(cfg: Config, s: Sys, e: Event)
    requires Inv(s) && e.Finish? && CanHappen(s, e)
    ensures Inv(FinishStep(cfg, s, e)) && DbEvolves(s.db, FinishStep(cfg, s, e).db)
  {
    var f := s.flights[e.caller];
    hide DbOk, DbEvolves, AttemptsOk, AnswersOk, CommitBatch, Ingest, FinishStep, NewAttempt;
    FinishCommits(cfg, s, e);
    CommitKeeps(s.db, f.id, Ingest(cfg, f, e.caller, e.graph, e.at));
    FinishAttempts(cfg, s, e);
    FinishAnswers(cfg, s, e);
  }

  lemma FinishAnswers(cfg: Config, s: Sys, e: Event)
    requires AnswersOk(s) && e.Finish? && CanHappen(s, e) && DbEvolves(s.db, FinishStep(cfg, s, e).db)
    ensures AnswersOk(FinishStep(cfg, s, e))
  {
    var f := s.flights[e.caller];
    var c := Ingest(cfg, f, e.caller, e.graph, e.at);
    var v := FinishStep(cfg, s, e);
    IngestNumber(cfg, f, e.caller, e.graph, e.at);
    hide CommitBatch, Ingest, AnswerOk, AnswersOk, BatchesOf, JobsEvolve, RejectsStay, BatchesStay;
    AnswersStay(s, v.db);
    FinishAnswer(s.db, f.id, c);
    if e.delivered {
      OneMoreAnswer(s.(db := v.db), v);
    } else {
      SameAnswers(s.(db := v.db), v);
    }
  }

  lemma OneMoreAnswer(s: Sys, v: Sys)
    requires AnswersOk(s) && v.db == s.db && v.answers != []
    requires v.answers == s.answers + [v.answers[|v.answers| - 1]] && AnswerOk(v.db, v.answers[|v.answers| - 1])
    ensures AnswersOk(v)
  {
    hide AnswerOk;
    forall i | 0 <= i < |v.answers| ensures AnswerOk(v.db, v.answers[i]) {
      assert i < |s.answers| ==> AnswerOk(s.db, s.answers[i]);
    }
  }

  lemma SameAnswers(s: Sys, v: Sys)
    requires AnswersOk(s) && v.db == s.db && v.answers == s.answers
    ensures AnswersOk(v)
  {
  }

  /** A commit leaves, under its number, the batch its answer is taken from. */
  lemma FinishAnswer(db: Db, id: Id, c: Commit)
    ensures var (next, won) := CommitBatch(db, id, c);
      && c.no in BatchesOf(next, id)
      && AnswerOk(next, Answer(id, c.no, if won then c.stored.result else BatchesOf(next, id)[c.no].result))
  {
    hide AddRejects, ApplyDelta, DeltaOf;
  }

  lemma FinishAttempts(cfg: Config, s: Sys, e: Event)
    requires AttemptsOk(s) && e.Finish? && CanHappen(s, e)
    ensures AttemptsOk(FinishStep(cfg, s, e))
  {
    var f := s.flights[e.caller];
    var c := Ingest(cfg, f, e.caller, e.graph, e.at);
    assert c.stored.attempt == e.caller;
    hide Ingest, CommitBatch;
    CommitStores(s.db, f.id, c);
    CallerSpent(s, e.caller, c, CommitBatch(s.db, f.id, c).0);
  }

  lemma CallerSpent(s: Sys, caller: nat, c: Commit, db: Db)
    requires AttemptsOk(s) && caller in s.flights && c.stored.attempt == caller && db.jobs.Keys == s.db.jobs.Keys
    requires forall k, no :: k in db.batches && no in db.batches[k] ==>
      db.batches[k][no] == c.stored || (k in s.db.batches && no in s.db.batches[k] && db.batches[k][no] == s.db.batches[k][no])
    ensures forall answers :: AttemptsOk(s.(db := db, flights := s.flights - {caller}, answers := answers))
  {
  }

  /** A commit stores at most its own batch, and drops no job. */
  lemma CommitStores(db: Db, id: Id, c: Commit)
    ensures var next := CommitBatch(db, id, c).0;
      && next.jobs.Keys == db.jobs.Keys
      && forall k, no :: k in next.batches && no in next.batches[k] ==>
        next.batches[k][no] == c.stored || (k in db.batches && no in db.batches[k] && next.batches[k][no] == db.batches[k][no])
  {
    hide AddRejects, ApplyDelta, DeltaOf;
  }

  lemma NextKeeps(cfg: Config, s: Sys, e: Event)
    requires Inv(s) && CanHappen(s, e)
    ensures Inv(Next(cfg, s, e)) && DbEvolves(s.db, Next(cfg, s, e).db)
  {
    match e
    case Look(caller, id) => LookKeeps(s, caller, id);
    case Submit(_, _, _, _, _, _) => SubmitKeeps(s, e);
    case Finish(_, _, _, _) => FinishKeeps(cfg, s, e);
    case Vanish(caller) => VanishKeeps(s, caller);
    case _ => TableKeeps(cfg, s, e);
  }

  lemma VanishKeeps(s: Sys, caller: nat)
    requires Inv(s)
    ensures Inv(s.(readers := s.readers - {caller}, flights := s.flights - {caller})) && DbEvolves(s.db, s.db)
  {
    hide DbOk;
    assert forall i :: 0 <= i < |s.answers| ==> AnswerOk(s.db, s.answers[i]);
  }

  // --- Whole runs -------------------------------------------------------------------------------

  const START := Sys(Db(map[], map[], map[], map[]), map[], map[], {}, [])

  ghost predicate Run(cfg: Config, ss: seq<Sys>, es: seq<Event>) {
    && |ss| == |es| + 1 && ss[0] == START
    && forall i :: 0 <= i < |es| ==> CanHappen(ss[i], es[i]) && ss[i + 1] == Next(cfg, ss[i], es[i])
  }

  lemma {:induction false} AlwaysInv(cfg: Config, ss: seq<Sys>, es: seq<Event>, i: nat)
    requires Run(cfg, ss, es) && i < |ss|
    ensures Inv(ss[i])
  {
    hide Next, CanHappen;
    if i == 0 {
    } else {
      AlwaysInv(cfg, ss, es, i - 1);
      hide Inv;
      NextKeeps(cfg, ss[i - 1], es[i - 1]);
    }
  }

  lemma {:induction false} AlwaysEvolves(cfg: Config, ss: seq<Sys>, es: seq<Event>, i: nat, j: nat)
    requires Run(cfg, ss, es) && i <= j < |ss|
    ensures DbEvolves(ss[i].db, ss[j].db)
    decreases j
  {
    hide Next, CanHappen, Inv;
    if i == j {
    } else {
      AlwaysEvolves(cfg, ss, es, i, j - 1);
      AlwaysInv(cfg, ss, es, j - 1);
      NextKeeps(cfg, ss[j - 1], es[j - 1]);
      EvolvesTransitive(ss[i].db, ss[j - 1].db, ss[j].db);
    }
  }

  predicate SameBatch(a: Answer, b: Answer) {
    a.id == b.id && a.no == b.no
  }

  /**
   * In every interleaving of submissions, retries and crashes: a job's counters are the sums over
   * its stored batches, at most 200 rejects are stored, and everybody who was told about a batch
   * was told the same.
   */
  lemma ImportsAreConsistent(cfg: Config, ss: seq<Sys>, es: seq<Event>, i: nat)
    requires Run(cfg, ss, es) && i < |ss|
    ensures forall id :: id in ss[i].db.jobs ==> ss[i].db.jobs[id].counts == Sum(BatchesOf(ss[i].db, id))
    ensures forall id :: id in ss[i].db.rejects ==> |ss[i].db.rejects[id]| <= MAX_REJECTS
    ensures forall k, m :: 0 <= k < |ss[i].answers| && 0 <= m < |ss[i].answers| ==>
      SameBatch(ss[i].answers[k], ss[i].answers[m]) ==> ss[i].answers[k] == ss[i].answers[m]
  {
    AlwaysInv(cfg, ss, es, i);
    hide Sum, Run;
    forall id | id in ss[i].db.jobs ensures ss[i].db.jobs[id].counts == Sum(BatchesOf(ss[i].db, id)) {
      assert CountsOk(ss[i].db, id);
    }
    forall k, m | 0 <= k < |ss[i].answers| && 0 <= m < |ss[i].answers| && SameBatch(ss[i].answers[k], ss[i].answers[m])
      ensures ss[i].answers[k] == ss[i].answers[m]
    {
      assert AnswerOk(ss[i].db, ss[i].answers[k]) && AnswerOk(ss[i].db, ss[i].answers[m]);
    }
  }

  /** From any moment on, stored results stay and a job that is done or failed stays so. */
  lemma SettledStays(cfg: Config, ss: seq<Sys>, es: seq<Event>, i: nat, j: nat, id: Id)
    requires Run(cfg, ss, es) && i <= j < |ss| && id in ss[i].db.jobs
    ensures id in ss[j].db.jobs
    ensures ss[i].db.jobs[id].status != Receiving ==> ss[j].db.jobs[id].status == ss[i].db.jobs[id].status
    ensures ss[i].db.jobs[id].counts.received > 0 ==> ss[j].db.jobs[id].mapping == ss[i].db.jobs[id].mapping
    ensures forall no :: no in BatchesOf(ss[i].db, id) ==>
      no in BatchesOf(ss[j].db, id) && BatchesOf(ss[j].db, id)[no] == BatchesOf(ss[i].db, id)[no]
  {
    AlwaysEvolves(cfg, ss, es, i, j);
    hide Run, RejectsStay;
    assert JobEvolves(ss[i].db.jobs[id], ss[j].db.jobs[id]);
  }
}
