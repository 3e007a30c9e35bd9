/**
 * What concurrent submissions can break over whole runs of an import: the reserved row total, keys
 * accepted once, and consecutive row numbers. For each of them when exactly it holds, that it holds
 * while batches come one at a time, and a run of two concurrent submissions in which it does not.
 */
module ImportRuns {
  import opened Common
  import opened ImportJobs
  import opened RowMapping
  import opened ImportBatches

  // --- What one step stores -------------------------------------------------------------------

  /** The event stores a new batch of the job. */
  ghost predicate Stores(s: Sys, e: Event, id: Id) {
    && e.Finish? && e.caller in s.flights && s.flights[e.caller].id == id && s.flights[e.caller].job.mapping.Some?
    && s.flights[e.caller].no !in BatchesOf(s.db, id)
  }

  ghost function RowsAdded(s: Sys, e: Event, id: Id): nat {
    if Stores(s, e, id) then |s.flights[e.caller].rows| else 0
  }

  /** A job's total stays, it receives what is stored, and its other batches stay. */
  ghost predicate JobStep(s: Sys, e: Event, v: Sys, id: Id) {
    && id in s.db.jobs && id in v.db.jobs && v.db.jobs[id].totalRows == s.db.jobs[id].totalRows
    && v.db.jobs[id].counts.received == s.db.jobs[id].counts.received + RowsAdded(s, e, id)
    && (!Stores(s, e, id) ==> BatchesOf(v.db, id) == BatchesOf(s.db, id))
  }

  lemma StepOfJob(cfg: Config, s: Sys, e: Event, id: Id)
    requires Inv(s) && CanHappen(s, e) && id in s.db.jobs
    ensures JobStep(s, e, Next(cfg, s, e), id)
  {
    if e.Finish? {
      FinishOfJob(cfg, s, e, id);
      hide JobStep, FinishStep, Inv;
    } else if e.Look? || e.Submit? || e.Vanish? {
      assert Next(cfg, s, e).db == s.db by {
        hide Inv, Lists, FinishStep;
      }
    } else {
      TableOfJob(cfg, s, e, id);
      hide JobStep;
    }
    hide Inv;
  }

  lemma TableOfJob(cfg: Config, s: Sys, e: Event, id: Id)
    requires (e.Create? || e.Remap? || e.MarkJob? || e.Clear?) && CanHappen(s, e) && id in s.db.jobs
    ensures JobStep(s, e, Next(cfg, s, e), id)
  {
  }

  lemma FinishOfJob(cfg: Config, s: Sys, e: Event, id: Id)
    requires Inv(s) && e.Finish? && CanHappen(s, e) && id in s.db.jobs
    ensures JobStep(s, e, FinishStep(cfg, s, e), id)
  {
    assert AttemptsOk(s);
    FinishCommits(cfg, s, e);
    hide *;
    CommitOfFlight(s, e, FinishStep(cfg, s, e), Ingest(cfg, s.flights[e.caller], e.caller, e.graph, e.at), id);
  }

  lemma CommitOfFlight(s: Sys, e: Event, v: Sys, c: Commit, id: Id)
    requires e.Finish? && e.caller in s.flights && s.flights[e.caller].job.mapping.Some? && id in s.db.jobs
    requires var f := s.flights[e.caller];
      && f.id in s.db.jobs && NewAttempt(s.db, f.id, c) && c.no == f.no && c.stored.rows == |f.rows|
      && v.db == CommitBatch(s.db, f.id, c).0
    ensures JobStep(s, e, v, id)
  {
    hide CommitBatch, NewAttempt, BatchesOf;
    CommitOfJob(s.db, s.flights[e.caller].id, c, id);
  }

  /** What a commit of a new attempt does to a job. */
  lemma CommitOfJob(db: Db, id: Id, c: Commit, k: Id)
    requires id in db.jobs && k in db.jobs && NewAttempt(db, id, c)
    ensures var next := CommitBatch(db, id, c).0; var stores := k == id && c.no !in BatchesOf(db, id);
      && k in next.jobs && next.jobs[k].totalRows == db.jobs[k].totalRows
      && next.jobs[k].counts.received == db.jobs[k].counts.received + (if stores then c.stored.rows else 0)
      && (!stores ==> BatchesOf(next, k) == BatchesOf(db, k))
  {
    hide AddRejects;
    if c.no in BatchesOf(db, id) {
      LostCommitChangesNothing(db, id, c);
      hide CommitBatch;
    }
  }

  // --- What a run stores ------------------------------------------------------------------------

  /** Rows of a job stored by the events from `a` up to `b`. */
  ghost function RowsStored(ss: seq<Sys>, es: seq<Event>, id: Id, a: nat, b: nat): nat
    requires a <= b <= |es| < |ss|
  {
    if a == b then 0 else RowsStored(ss, es, id, a, b - 1) + RowsAdded(ss[b - 1], es[b - 1], id)
  }

  /** A step of a run. */
  lemma StepAt(cfg: Config, ss: seq<Sys>, es: seq<Event>, i: nat)
    requires Run(cfg, ss, es) && i < |es|
    ensures |ss| == |es| + 1 && Inv(ss[i]) && CanHappen(ss[i], es[i]) && ss[i + 1] == Next(cfg, ss[i], es[i])
  {
    AlwaysInv(cfg, ss, es, i);
    hide Inv, Next, CanHappen;
  }

  /** Between two moments a job receives exactly the rows stored. */
  lemma {:induction false} ReceivedBetween(cfg: Config, ss: seq<Sys>, es: seq<Event>, id: Id, a: nat, b: nat)
    requires Run(cfg, ss, es) && a <= b <= |es| < |ss| && id in ss[a].db.jobs
    ensures id in ss[b].db.jobs && ss[b].db.jobs[id].totalRows == ss[a].db.jobs[id].totalRows
    ensures ss[b].db.jobs[id].counts.received == ss[a].db.jobs[id].counts.received + RowsStored(ss, es, id, a, b)
    decreases b
  {
    hide Run, Inv, Next, CanHappen;
    if a < b {
      ReceivedBetween(cfg, ss, es, id, a, b - 1);
      StepAt(cfg, ss, es, b - 1);
      StepOfJob(cfg, ss[b - 1], es[b - 1], id);
      hide RowsAdded;
    }
  }

  /** No batch of the job is stored between the moments. */
  ghost predicate Quiet(ss: seq<Sys>, es: seq<Event>, id: Id, a: nat, b: nat)
    requires a <= b <= |es| < |ss|
  {
    forall m :: a <= m < b ==> !Stores(ss[m], es[m], id)
  }

  lemma {:induction false} QuietKeeps(cfg: Config, ss: seq<Sys>, es: seq<Event>, id: Id, a: nat, b: nat)
    requires Run(cfg, ss, es) && a <= b <= |es| < |ss| && id in ss[a].db.jobs && Quiet(ss, es, id, a, b)
    ensures BatchesOf(ss[b].db, id) == BatchesOf(ss[a].db, id) && RowsStored(ss, es, id, a, b) == 0
    decreases b
  {
    hide Run, Inv, Next, CanHappen;
    if a < b {
      assert Quiet(ss, es, id, a, b - 1);
      QuietKeeps(cfg, ss, es, id, a, b - 1);
      ReceivedBetween(cfg, ss, es, id, a, b - 1);
      StepAt(cfg, ss, es, b - 1);
      StepOfJob(cfg, ss[b - 1], es[b - 1], id);
      assert !Stores(ss[b - 1], es[b - 1], id);
      hide Stores, Quiet;
    }
  }

  // --- Admission --------------------------------------------------------------------------------

  /** Caller has read, by event `h`, the job it goes by at moment `i`. */
  ghost predicate LookedAt(ss: seq<Sys>, es: seq<Event>, caller: nat, h: nat, i: nat) {
    && h < i < |ss| == |es| + 1 && es[h].Look? && es[h].caller == caller && caller in ss[i].readers
    && ss[i].readers[caller] == Reader(es[h].id, JobOf(ss[h].db, es[h].id))
  }

  /** What a step does to the readers: they stay or end, and only a look starts one. */
  lemma ReaderStep(cfg: Config, s: Sys, e: Event, caller: nat)
    requires CanHappen(s, e) && caller in Next(cfg, s, e).readers
    ensures var r := Next(cfg, s, e).readers[caller];
      || (caller in s.readers && s.readers[caller] == r)
      || (e.Look? && e.caller == caller && r == Reader(e.id, JobOf(s.db, e.id)))
  {
    hide Lists, Ingest, CommitBatch, Admit;
  }

  lemma {:induction false} Look(cfg: Config, ss: seq<Sys>, es: seq<Event>, caller: nat, i: nat) returns (h: nat)
    requires Run(cfg, ss, es) && i < |ss| && caller in ss[i].readers
    ensures LookedAt(ss, es, caller, h, i)
  {
    RunShape(cfg, ss, es);
    assert i > 0;
    hide Run, Inv, Next, CanHappen, JobOf;
    StepAt(cfg, ss, es, i - 1);
    ReaderStep(cfg, ss[i - 1], es[i - 1], caller);
    if caller in ss[i - 1].readers && ss[i - 1].readers[caller] == ss[i].readers[caller] {
      h := Look(cfg, ss, es, caller, i - 1);
    } else {
      h := i - 1;
    }
  }

  /** The flight that a caller has at moment `i` read its job by event `h` and its batches by event `j`. */
  ghost predicate AdmittedAt(ss: seq<Sys>, es: seq<Event>, caller: nat, h: nat, j: nat, i: nat) {
    && h < j < i < |ss| == |es| + 1 && es[h].Look? && es[j].Submit? && es[j].caller == caller && caller in ss[i].flights
    && es[h].id in ss[h].db.jobs && Lists(BatchesOf(ss[j].db, es[h].id), es[j].prior)
    && ss[i].flights[caller] == Flight(es[h].id, es[j].no, es[j].last, es[j].rows, ss[h].db.jobs[es[h].id], es[j].prior)
    && ss[h].db.jobs[es[h].id].counts.received + |es[j].rows| <= ss[h].db.jobs[es[h].id].totalRows
  }

  /** What a step does to the flights: they stay or end, and only an admission starts one. */
  lemma FlightStep(cfg: Config, s: Sys, e: Event, caller: nat)
    requires CanHappen(s, e) && caller in Next(cfg, s, e).flights
    ensures var f := Next(cfg, s, e).flights[caller];
      || (caller in s.flights && s.flights[caller] == f)
      || (e.Submit? && e.caller == caller && caller in s.readers && s.readers[caller].found.Some?
            && Lists(BatchesOf(s.db, s.readers[caller].id), e.prior)
            && var job := s.readers[caller].found.value;
            && f == Flight(s.readers[caller].id, e.no, e.last, e.rows, job, e.prior)
            && job.counts.received + |e.rows| <= job.totalRows)
  {
    hide Lists, Ingest, CommitBatch;
  }

  lemma {:induction false} Admission(cfg: Config, ss: seq<Sys>, es: seq<Event>, caller: nat, i: nat) returns (h: nat, j: nat)
    requires Run(cfg, ss, es) && i < |ss| && caller in ss[i].flights
    ensures AdmittedAt(ss, es, caller, h, j, i)
  {
    RunShape(cfg, ss, es);
    assert i > 0;
    hide Run, Inv, Next, CanHappen, Lists;
    StepAt(cfg, ss, es, i - 1);
    FlightStep(cfg, ss[i - 1], es[i - 1], caller);
    if caller in ss[i - 1].flights && ss[i - 1].flights[caller] == ss[i].flights[caller] {
      h, j := Admission(cfg, ss, es, caller, i - 1);
    } else {
      j := i - 1;
      h := Look(cfg, ss, es, caller, j);
    }
  }

  /** Event `k` stores a batch of the job whose submission read the job by event `h` and its batches by event `j`. */
  ghost predicate StoredFrom(ss: seq<Sys>, es: seq<Event>, id: Id, h: nat, j: nat, k: nat) {
    k < |es| < |ss| && Stores(ss[k], es[k], id) && AdmittedAt(ss, es, es[k].caller, h, j, k)
  }

  // --- The reserved total ------------------------------------------------------------------------

  /** What the job had left when event `h` read it. */
  ghost function RoomAt(ss: seq<Sys>, id: Id, h: nat): int
    requires h < |ss| && id in ss[h].db.jobs
  {
    ss[h].db.jobs[id].totalRows - ss[h].db.jobs[id].counts.received
  }

  /** What was stored since the job was read, and the batch itself, fit into the room the job had then. */
  ghost predicate StillFits(ss: seq<Sys>, es: seq<Event>, id: Id, h: nat, j: nat, k: nat) {
    StoredFrom(ss, es, id, h, j, k) && id in ss[h].db.jobs ==>
      RowsStored(ss, es, id, h, k) + |es[j].rows| <= RoomAt(ss, id, h)
  }

  ghost predicate AllFit(ss: seq<Sys>, es: seq<Event>, id: Id, i: nat) {
    forall h: nat, j: nat, k: nat :: k < i && StoredFrom(ss, es, id, h, j, k) ==> StillFits(ss, es, id, h, j, k)
  }

  ghost predicate WithinTotal(s: Sys, id: Id) {
    id in s.db.jobs ==> s.db.jobs[id].counts.received <= s.db.jobs[id].totalRows
  }

  /** A stored batch keeps its job within the total exactly when it still fits. */
  lemma StoredWithin(cfg: Config, ss: seq<Sys>, es: seq<Event>, id: Id, h: nat, j: nat, k: nat)
    requires Run(cfg, ss, es) && StoredFrom(ss, es, id, h, j, k)
    ensures StillFits(ss, es, id, h, j, k) <==> WithinTotal(ss[k + 1], id)
  {
    assert es[h].id == id && id in ss[h].db.jobs && ss[k].flights[es[k].caller].rows == es[j].rows;
    hide AdmittedAt, Inv, Next, CanHappen;
    ReceivedBetween(cfg, ss, es, id, h, k);
    ReceivedBetween(cfg, ss, es, id, h, k + 1);
    assert RowsStored(ss, es, id, h, k + 1) == RowsStored(ss, es, id, h, k) + |es[j].rows|;
  }

  lemma OnlyStoringReceives(cfg: Config, ss: seq<Sys>, es: seq<Event>, id: Id, i: nat)
    requires Run(cfg, ss, es) && i < |es|
    ensures WithinTotal(ss[i + 1], id) ==> WithinTotal(ss[i], id)
    ensures WithinTotal(ss[i], id) && !Stores(ss[i], es[i], id) ==> WithinTotal(ss[i + 1], id)
  {
    StepAt(cfg, ss, es, i);
    if id in ss[i].db.jobs {
      StepOfJob(cfg, ss[i], es[i], id);
      hide Stores;
    } else {
      NewJob(cfg, ss[i], es[i], id);
    }
    hide Run, Inv, Next, CanHappen;
  }

  lemma NewJob(cfg: Config, s: Sys, e: Event, id: Id)
    requires CanHappen(s, e) && id !in s.db.jobs
    ensures var v := Next(cfg, s, e); id in v.db.jobs ==> v.db.jobs[id].counts == ZERO
  {
    hide Ingest, AddRejects, Lists;
  }

  /**
   * The reserved total over whole runs: a job has never received more rows than it reserved if
   * and only if, for each of its stored batches, the rows others stored since its submission read
   * the job left room for it. Both sides speak of every run, whatever is interleaved.
   */
  lemma {:induction false} TotalKeptExactly(cfg: Config, ss: seq<Sys>, es: seq<Event>, id: Id, i: nat)
    requires Run(cfg, ss, es) && i < |ss|
    ensures WithinTotal(ss[i], id) <==> AllFit(ss, es, id, i)
  {
    hide Run, Inv, Next, CanHappen, StillFits, WithinTotal, StoredFrom;
    RunShape(cfg, ss, es);
    if i == 0 {
      StartWithin(ss[0], id);
    } else {
      var k: nat := i - 1;
      TotalKeptExactly(cfg, ss, es, id, k);
      OnlyStoringReceives(cfg, ss, es, id, k);
      OriginOf(cfg, ss, es, id, k);
      forall h, j | StoredFrom(ss, es, id, h, j, k) ensures StillFits(ss, es, id, h, j, k) <==> WithinTotal(ss[i], id) {
        StoredWithin(cfg, ss, es, id, h, j, k);
      }
      hide Stores;
      AllFitStep(ss, es, id, k);
      hide AllFit;
    }
  }

  /** An event stores a batch of the job exactly when it stores one that was read before. */
  lemma OriginOf(cfg: Config, ss: seq<Sys>, es: seq<Event>, id: Id, k: nat)
    requires Run(cfg, ss, es) && k < |es|
    ensures k < |ss| && (Stores(ss[k], es[k], id) <==> exists h: nat, j: nat :: StoredFrom(ss, es, id, h, j, k))
  {
    RunShape(cfg, ss, es);
    if Stores(ss[k], es[k], id) {
      var h, j := Admission(cfg, ss, es, es[k].caller, k);
      hide Run;
      assert StoredFrom(ss, es, id, h, j, k);
    }
  }

  lemma RunShape(cfg: Config, ss: seq<Sys>, es: seq<Event>)
    requires Run(cfg, ss, es)
    ensures |ss| == |es| + 1 && ss[0] == START
  {
    hide Next, CanHappen;
  }

  lemma StartWithin(s: Sys, id: Id)
    requires s == START
    ensures WithinTotal(s, id)
  {
  }

  lemma AllFitStep(ss: seq<Sys>, es: seq<Event>, id: Id, i: nat)
    ensures AllFit(ss, es, id, i + 1) <==>
      AllFit(ss, es, id, i) && forall h: nat, j: nat :: StoredFrom(ss, es, id, h, j, i) ==> StillFits(ss, es, id, h, j, i)
  {
    hide StoredFrom, StillFits;
  }

  /** Every batch of the job is stored before the submission of another one of it begins. */
  ghost predicate OneAtATime(ss: seq<Sys>, es: seq<Event>, id: Id, i: nat) {
    forall h: nat, j: nat, k: nat :: k < i && StoredFrom(ss, es, id, h, j, k) ==>
      h <= j <= k <= |es| < |ss| && Quiet(ss, es, id, h, k)
  }

  /** While batches come one at a time, a job never receives more rows than it reserved. */
  lemma TotalKeptOneAtATime(cfg: Config, ss: seq<Sys>, es: seq<Event>, id: Id, i: nat)
    requires Run(cfg, ss, es) && i < |ss| && OneAtATime(ss, es, id, i)
    ensures WithinTotal(ss[i], id)
  {
    TotalKeptExactly(cfg, ss, es, id, i);
    hide Run, Inv, WithinTotal;
    forall h: nat, j: nat, k: nat | k < i && StoredFrom(ss, es, id, h, j, k) ensures StillFits(ss, es, id, h, j, k) {
      assert h <= k <= |es| < |ss| && Quiet(ss, es, id, h, k);
      assert es[h].id == id && id in ss[h].db.jobs;
      QuietKeeps(cfg, ss, es, id, h, k);
    }
  }

  // --- Keys ---------------------------------------------------------------------------------------

  /** All keys of all stored batches, each once. */
  ghost predicate KeysOnce(b: Batches) {
    && (forall no :: no in b ==> Distinct(b[no].keys))
    && (forall n, m, k :: n in b && m in b && n != m && k in b[n].keys ==> k !in b[m].keys)
  }

  lemma {:induction false} KeptAreSome(cmds: seq<Cmd>, keys: seq<string>, failed: set<nat>)
    requires |cmds| == |keys| && Distinct(keys)
    ensures Distinct(KeptKeys(cmds, keys, failed))
    ensures forall k :: k in KeptKeys(cmds, keys, failed) ==> k in keys
  {
    if cmds == [] {
    } else {
      var n := |cmds| - 1;
      KeptAreSome(cmds[..n], keys[..n], failed);
      assert keys == keys[..n] + [keys[n]];
      assert keys[n] !in keys[..n];
    }
  }

  lemma IngestKeys(cfg: Config, f: Flight, attempt: nat, graph: GraphResult, at: int)
    requires f.job.mapping.Some?
    ensures var keys := Ingest(cfg, f, attempt, graph, at).stored.keys;
      Distinct(keys) && forall k :: k in keys ==> k !in KeysStored(f.prior)
  {
    var mapped := MappedOf(cfg, f);
    EachRowOnce(cfg.env, cfg.specOf(f.job.mapping.value), f.rows, RowsBefore(f.prior, f.no) + 1, KeysStored(f.prior));
    hide Mapped;
    var w := if mapped.cmds == [] then NO_WRITE else graph;
    KeptAreSome(mapped.cmds, mapped.keys, FailedRows(w.rejected));
    hide KeptKeys, Merged, KeysStored, FailedRows;
  }

  ghost predicate Held(b: Batches, x: string) {
    exists no :: no in b && x in b[no].keys
  }

  /** Adding a batch with distinct keys keeps all keys single exactly when it brings none that is held. */
  lemma KeysOnceAdd(b: Batches, no: nat, added: Stored)
    requires no !in b && Distinct(added.keys)
    ensures KeysOnce(b[no := added]) <==> KeysOnce(b) && forall x :: x in added.keys ==> !Held(b, x)
  {
    var c := b[no := added];
    assert forall n :: n in c <==> n == no || n in b;
    assert forall n :: n in b ==> c[n] == b[n];
    if KeysOnce(c) {
      NoneHeld(c, b, no);
    } else if KeysOnce(b) {
      assert !(forall x :: x in c[no].keys ==> !Held(b, x)) by {
        if forall x :: x in c[no].keys ==> !Held(b, x) {
          OnceMore(c, b, no);
        }
      }
    }
  }

  lemma NoneHeld(c: Batches, b: Batches, no: nat)
    requires KeysOnce(c) && no in c && no !in b && forall n :: n in b ==> n in c && c[n] == b[n]
    ensures KeysOnce(b) && forall x :: x in c[no].keys ==> !Held(b, x)
  {
    forall x, n | x in c[no].keys && n in b ensures x !in b[n].keys {
      assert x !in c[n].keys;
    }
  }

  lemma OnceMore(c: Batches, b: Batches, no: nat)
    requires KeysOnce(b) && no !in b && (forall n :: n in c <==> n == no || n in b) && forall n :: n in b ==> c[n] == b[n]
    requires Distinct(c[no].keys) && forall x :: x in c[no].keys ==> !Held(b, x)
    ensures KeysOnce(c)
  {
    forall n, m, k | n in c && m in c && n != m && k in c[n].keys ensures k !in c[m].keys {
      assert n == no ==> !Held(b, k);
      assert m == no && k in c[no].keys ==> !Held(b, k);
    }
  }

  /** What the batch stored by an event holds. */
  ghost function StoredBy(cfg: Config, s: Sys, e: Event, id: Id): Stored
    requires Stores(s, e, id)
  {
    Ingest(cfg, s.flights[e.caller], e.caller, e.graph, e.at).stored
  }

  ghost predicate StoresKey(cfg: Config, s: Sys, e: Event, id: Id, x: string) {
    Stores(s, e, id) && x in StoredBy(cfg, s, e, id).keys
  }

  lemma CommitAdds(db: Db, id: Id, c: Commit)
    ensures var b := BatchesOf(db, id);
      BatchesOf(CommitBatch(db, id, c).0, id) == if c.no in b then b else b[c.no := c.stored]
  {
    hide AddRejects, ApplyDelta, DeltaOf;
  }

  /** An event that stores a batch adds it, and every other event leaves the batches of the job. */
  lemma BatchesAfter(cfg: Config, s: Sys, e: Event, id: Id)
    requires Inv(s) && CanHappen(s, e)
    ensures BatchesOf(Next(cfg, s, e).db, id) ==
      if Stores(s, e, id) then BatchesOf(s.db, id)[s.flights[e.caller].no := StoredBy(cfg, s, e, id)] else BatchesOf(s.db, id)
  {
    if Stores(s, e, id) {
      var f := s.flights[e.caller];
      assert AttemptsOk(s);
      FinishCommits(cfg, s, e);
      assert Next(cfg, s, e) == FinishStep(cfg, s, e);
      hide Ingest, CommitBatch, Inv, FinishStep, Next, CanHappen, NewAttempt;
      CommitAdds(s.db, id, Ingest(cfg, f, e.caller, e.graph, e.at));
    } else if id in s.db.jobs {
      StepOfJob(cfg, s, e, id);
      hide Inv, Next, CanHappen, Stores;
    } else {
      NoJobNoBatches(cfg, s, e, id);
      hide Next, CanHappen;
      assert DbOk(s.db);
    }
  }

  /** The stored keys grow by what is stored. */
  lemma {:induction false} HeldBetween(cfg: Config, ss: seq<Sys>, es: seq<Event>, id: Id, a: nat, b: nat, x: string)
    requires Run(cfg, ss, es) && a <= b <= |es| < |ss|
    ensures Held(BatchesOf(ss[b].db, id), x) <==>
      Held(BatchesOf(ss[a].db, id), x) || exists m: nat :: a <= m < b && StoresKey(cfg, ss[m], es[m], id, x)
    decreases b
  {
    hide Run, Inv, Next, CanHappen, StoresKey;
    if a < b {
      HeldBetween(cfg, ss, es, id, a, b - 1, x);
      StepAt(cfg, ss, es, b - 1);
      HeldAfter(cfg, ss[b - 1], es[b - 1], id, x);
      hide Held;
      var k: nat := b - 1;
      assert StoresKey(cfg, ss[k], es[k], id, x) ==> a <= k < b;
    }
  }

  lemma HeldAfter(cfg: Config, s: Sys, e: Event, id: Id, x: string)
    requires Inv(s) && CanHappen(s, e)
    ensures Held(BatchesOf(Next(cfg, s, e).db, id), x) <==> Held(BatchesOf(s.db, id), x) || StoresKey(cfg, s, e, id, x)
  {
    BatchesAfter(cfg, s, e, id);
    hide Inv, Next, CanHappen, Ingest;
    if Stores(s, e, id) {
      var b, no, added := BatchesOf(s.db, id), s.flights[e.caller].no, StoredBy(cfg, s, e, id);
      hide BatchesOf, Stores, StoredBy;
      HeldAdd(b, no, added, x);
    }
  }

  lemma HeldAdd(b: Batches, no: nat, added: Stored, x: string)
    requires no !in b
    ensures Held(b[no := added], x) <==> Held(b, x) || x in added.keys
  {
    var c := b[no := added];
    if Held(b, x) {
      var n :| n in b && x in b[n].keys;
      assert n in c && c[n] == b[n];
    }
    if x in added.keys {
      assert no in c && c[no] == added;
    }
  }

  /** No key is stored by event `k` and by another one since event `j`. */
  ghost predicate Apart(cfg: Config, ss: seq<Sys>, es: seq<Event>, id: Id, j: nat, k: nat)
    requires k < |es| < |ss|
  {
    forall m: nat, x :: j <= m < k && StoresKey(cfg, ss[m], es[m], id, x) ==> !StoresKey(cfg, ss[k], es[k], id, x)
  }

  ghost predicate AllApart(cfg: Config, ss: seq<Sys>, es: seq<Event>, id: Id, i: nat) {
    forall h: nat, j: nat, k: nat :: k < i && StoredFrom(ss, es, id, h, j, k) ==> k < |es| < |ss| && Apart(cfg, ss, es, id, j, k)
  }

  /** The keys of a new batch are distinct, and none was held when its submission read the batches. */
  lemma StoredKeysAreNew(cfg: Config, ss: seq<Sys>, es: seq<Event>, id: Id, h: nat, j: nat, k: nat)
    requires StoredFrom(ss, es, id, h, j, k)
    ensures Distinct(StoredBy(cfg, ss[k], es[k], id).keys)
    ensures forall x :: StoresKey(cfg, ss[k], es[k], id, x) ==> !Held(BatchesOf(ss[j].db, id), x)
  {
    var f := ss[k].flights[es[k].caller];
    var b := BatchesOf(ss[j].db, id);
    IngestKeys(cfg, f, es[k].caller, es[k].graph, es[k].at);
    hide Ingest;
    assert Lists(b, f.prior);
    forall x | Held(b, x) ensures x in KeysStored(f.prior) {
      var no :| no in b && x in b[no].keys;
      var i :| 0 <= i < |f.prior| && f.prior[i].no == no;
      assert f.prior[i] in f.prior;
    }
  }

  /** A batch is apart from those stored since it was read exactly when it brings no key that is held by now. */
  lemma ApartIsNew(cfg: Config, ss: seq<Sys>, es: seq<Event>, id: Id, h: nat, j: nat, k: nat)
    requires Run(cfg, ss, es) && StoredFrom(ss, es, id, h, j, k)
    ensures j <= k
    ensures Apart(cfg, ss, es, id, j, k) <==>
      forall x :: StoresKey(cfg, ss[k], es[k], id, x) ==> !Held(BatchesOf(ss[k].db, id), x)
  {
    StoredKeysAreNew(cfg, ss, es, id, h, j, k);
    assert j <= k;
    hide StoresKey, Held, BatchesOf, StoredFrom;
    forall x | StoresKey(cfg, ss[k], es[k], id, x)
      ensures Held(BatchesOf(ss[k].db, id), x) <==> exists m: nat :: j <= m < k && StoresKey(cfg, ss[m], es[m], id, x)
    {
      HeldBetween(cfg, ss, es, id, j, k, x);
    }
    hide Run;
  }

  /** Storing a batch keeps the keys single exactly when they were and it is apart from those stored since it was read. */
  lemma StoredKeysOnce(cfg: Config, ss: seq<Sys>, es: seq<Event>, id: Id, h: nat, j: nat, k: nat)
    requires Run(cfg, ss, es) && StoredFrom(ss, es, id, h, j, k)
    ensures KeysOnce(BatchesOf(ss[k + 1].db, id)) <==> KeysOnce(BatchesOf(ss[k].db, id)) && Apart(cfg, ss, es, id, j, k)
  {
    ApartIsNew(cfg, ss, es, id, h, j, k);
    StoredKeysAreNew(cfg, ss, es, id, h, j, k);
    assert Stores(ss[k], es[k], id);
    StepAt(cfg, ss, es, k);
    hide Run, Inv, Next, CanHappen, StoredFrom, Apart;
    BatchesAfter(cfg, ss[k], es[k], id);
    KeysOnceStep(cfg, ss[k], es[k], id);
    hide StoresKey, Held, KeysOnce, Stores, StoredBy, BatchesOf;
  }

  lemma KeysOnceStep(cfg: Config, s: Sys, e: Event, id: Id)
    requires Stores(s, e, id) && Distinct(StoredBy(cfg, s, e, id).keys)
    ensures KeysOnce(BatchesOf(s.db, id)[s.flights[e.caller].no := StoredBy(cfg, s, e, id)]) <==>
      KeysOnce(BatchesOf(s.db, id)) && forall x :: StoresKey(cfg, s, e, id, x) ==> !Held(BatchesOf(s.db, id), x)
  {
    hide KeysOnce, Held, StoredBy;
    KeysOnceAdd(BatchesOf(s.db, id), s.flights[e.caller].no, StoredBy(cfg, s, e, id));
  }

  /**
   * The keys of a job over whole runs: every key is accepted once if and only if no stored batch
   * brings a key that another one stored since its submission read the batches.
   */
  lemma {:induction false} KeysOnceExactly(cfg: Config, ss: seq<Sys>, es: seq<Event>, id: Id, i: nat)
    requires Run(cfg, ss, es) && i < |ss|
    ensures KeysOnce(BatchesOf(ss[i].db, id)) <==> AllApart(cfg, ss, es, id, i)
  {
    hide Run, Inv, Next, CanHappen, StoredFrom, Apart, KeysOnce;
    RunShape(cfg, ss, es);
    if i == 0 {
      NoKeys();
    } else {
      var k: nat := i - 1;
      KeysOnceExactly(cfg, ss, es, id, k);
      StepAt(cfg, ss, es, k);
      BatchesAfter(cfg, ss[k], es[k], id);
      OriginOf(cfg, ss, es, id, k);
      hide BatchesOf;
      forall h, j | StoredFrom(ss, es, id, h, j, k)
        ensures KeysOnce(BatchesOf(ss[i].db, id)) <==> KeysOnce(BatchesOf(ss[k].db, id)) && Apart(cfg, ss, es, id, j, k)
      {
        StoredKeysOnce(cfg, ss, es, id, h, j, k);
      }
      hide Stores, StoredBy;
      AllApartStep(cfg, ss, es, id, k);
      hide AllApart;
    }
  }

  lemma AllApartStep(cfg: Config, ss: seq<Sys>, es: seq<Event>, id: Id, i: nat)
    requires i < |es| < |ss|
    ensures AllApart(cfg, ss, es, id, i + 1) <==>
      AllApart(cfg, ss, es, id, i) && forall h: nat, j: nat :: StoredFrom(ss, es, id, h, j, i) ==> Apart(cfg, ss, es, id, j, i)
  {
    hide StoredFrom, Apart;
  }

  lemma NoKeys()
    ensures KeysOnce(map[]) && forall id :: BatchesOf(START.db, id) == map[]
  {
  }

  /** While batches come one at a time, no key is accepted twice in a job. */
  lemma KeysOnceOneAtATime(cfg: Config, ss: seq<Sys>, es: seq<Event>, id: Id, i: nat)
    requires Run(cfg, ss, es) && i < |ss| && OneAtATime(ss, es, id, i)
    ensures KeysOnce(BatchesOf(ss[i].db, id))
  {
    KeysOnceExactly(cfg, ss, es, id, i);
    hide Run, KeysOnce;
    forall h: nat, j: nat, k: nat | k < i && StoredFrom(ss, es, id, h, j, k)
      ensures k < |es| < |ss| && Apart(cfg, ss, es, id, j, k)
    {
      assert h <= j <= k <= |es| < |ss| && Quiet(ss, es, id, h, k);
      hide StoredBy;
    }
  }

  lemma NoJobNoBatches(cfg: Config, s: Sys, e: Event, id: Id)
    requires Inv(s) && CanHappen(s, e) && id !in s.db.jobs
    ensures BatchesOf(Next(cfg, s, e).db, id) == map[]
  {
    assert AttemptsOk(s) && DbOk(s.db);
    hide Ingest, AddRejects, Lists, Inv, ApplyDelta, DeltaOf, Sum;
  }

  // --- Row numbers ------------------------------------------------------------------------------

  /** Rows of the batches with the given or a later number. */
  function RowsFrom(prior: seq<Prior>, no: nat): nat {
    if prior == [] then 0
    else
      var p := prior[|prior| - 1];
      RowsFrom(prior[..|prior| - 1], no) + if p.no < no then 0 else p.stored.rows
  }

  lemma {:induction false} RowsSplit(prior: seq<Prior>, no: nat)
    ensures RowsBefore(prior, no) + RowsFrom(prior, no) == RowsTotal(prior)
    ensures (forall i :: 0 <= i < |prior| ==> prior[i].no < no) ==> RowsFrom(prior, no) == 0
  {
    if prior != [] {
      RowsSplit(prior[..|prior| - 1], no);
    }
  }

  function RowsTotal(prior: seq<Prior>): nat {
    if prior == [] then 0 else RowsTotal(prior[..|prior| - 1]) + prior[|prior| - 1].stored.rows
  }

  /** The batches as listed hold as many rows as the counters say. */
  lemma {:induction false} ListedTotal(b: Batches, prior: seq<Prior>)
    requires Lists(b, prior)
    ensures RowsTotal(prior) == Sum(b).received
    decreases |prior|
  {
    if prior == [] {
      assert b == map[] by {
        assert forall no :: no !in b;
      }
    } else {
      var n := |prior| - 1;
      var no := prior[n].no;
      assert prior[n].no in b && b[no] == prior[n].stored;
      SumAny(b, no);
      ListsFront(b, prior);
      ListedTotal(b - {no}, prior[..n]);
      hide Lists, Sum;
    }
  }

  lemma ListsFront(b: Batches, prior: seq<Prior>)
    requires Lists(b, prior) && prior != []
    ensures Lists(b - {prior[|prior| - 1].no}, prior[..|prior| - 1])
  {
    var n := |prior| - 1;
    forall no | no in b - {prior[n].no} ensures exists i :: 0 <= i < n && prior[..n][i].no == no {
      var i :| 0 <= i < |prior| && prior[i].no == no;
      assert prior[..n][i].no == no;
    }
  }

  /** What a submission read before it are the rows that the job had received then. */
  lemma ReadTotal(cfg: Config, ss: seq<Sys>, es: seq<Event>, id: Id, h: nat, j: nat, k: nat)
    requires Run(cfg, ss, es) && StoredFrom(ss, es, id, h, j, k)
    ensures id in ss[j].db.jobs && RowsTotal(ss[k].flights[es[k].caller].prior) == ss[j].db.jobs[id].counts.received
  {
    var f := ss[k].flights[es[k].caller];
    assert es[h].id == id && id in ss[h].db.jobs && Lists(BatchesOf(ss[j].db, id), f.prior) && h <= j;
    ReceivedBetween(cfg, ss, es, id, h, j);
    AlwaysInv(cfg, ss, es, j);
    hide Run, StoredFrom, Lists, RowsTotal, Sum;
    assert CountsOk(ss[j].db, id);
    ListedTotal(BatchesOf(ss[j].db, id), f.prior);
  }

  /**
   * When rows are numbered on: a stored batch is numbered from one more than the job has received
   * if and only if nothing was stored since its submission read the batches and it had read no row
   * under the same or a later number; the job then ends at its last row.
   */
  lemma RowsFollowOnExactly(cfg: Config, ss: seq<Sys>, es: seq<Event>, id: Id, h: nat, j: nat, k: nat)
    requires Run(cfg, ss, es) && StoredFrom(ss, es, id, h, j, k)
    ensures var f := ss[k].flights[es[k].caller];
      && j <= k && id in ss[k].db.jobs && id in ss[k + 1].db.jobs
      && (RowsBefore(f.prior, f.no) == ss[k].db.jobs[id].counts.received <==>
            RowsStored(ss, es, id, j, k) == 0 && RowsFrom(f.prior, f.no) == 0)
      && ss[k + 1].db.jobs[id].counts.received == ss[k].db.jobs[id].counts.received + |f.rows|
  {
    var f := ss[k].flights[es[k].caller];
    ReadTotal(cfg, ss, es, id, h, j, k);
    RowsSplit(f.prior, f.no);
    assert j <= k && Stores(ss[k], es[k], id);
    hide StoredFrom, RowsBefore, RowsFrom, RowsTotal;
    ReceivedBetween(cfg, ss, es, id, j, k);
    StepAt(cfg, ss, es, k);
    hide Run, Inv, Next, CanHappen;
    StepOfJob(cfg, ss[k], es[k], id);
  }

  /** Batches that come one at a time and in order take consecutive rows of the job. */
  lemma RowsFollowOn(cfg: Config, ss: seq<Sys>, es: seq<Event>, id: Id, k: nat)
    requires Run(cfg, ss, es) && k < |es| < |ss| && OneAtATime(ss, es, id, k + 1) && Stores(ss[k], es[k], id)
    requires forall no :: no in BatchesOf(ss[k].db, id) ==> no < ss[k].flights[es[k].caller].no
    ensures var f := ss[k].flights[es[k].caller];
      && id in ss[k].db.jobs && id in ss[k + 1].db.jobs
      && RowsBefore(f.prior, f.no) == ss[k].db.jobs[id].counts.received
      && ss[k + 1].db.jobs[id].counts.received == RowsBefore(f.prior, f.no) + |f.rows|
  {
    hide Run, RowsBefore, RowsFrom;
    var f := ss[k].flights[es[k].caller];
    var h, j := Admission(cfg, ss, es, es[k].caller, k);
    assert StoredFrom(ss, es, id, h, j, k);
    assert h <= j <= k <= |es| < |ss| && Quiet(ss, es, id, h, k);
    assert Quiet(ss, es, id, j, k) && Lists(BatchesOf(ss[j].db, id), f.prior);
    ReadTotal(cfg, ss, es, id, h, j, k);
    QuietKeeps(cfg, ss, es, id, j, k);
    assert forall i :: 0 <= i < |f.prior| ==> f.prior[i].no in BatchesOf(ss[k].db, id);
    RowsSplit(f.prior, f.no);
    hide StoredFrom, AdmittedAt, OneAtATime, Quiet, Lists;
    RowsFollowOnExactly(cfg, ss, es, id, h, j, k);
  }

  // --- Two at a time --------------------------------------------------------------------------------

  lemma RunSnoc(cfg: Config, ss: seq<Sys>, es: seq<Event>, e: Event)
    requires Run(cfg, ss, es) && |ss| == |es| + 1 && CanHappen(ss[|es|], e)
    ensures Run(cfg, ss + [Next(cfg, ss[|es|], e)], es + [e])
  {
    hide CanHappen, Next;
  }

  /** A job of `total` rows, and two callers admitted side by side with one batch each. */
  ghost predicate TwoFlights(s: Sys, job: Job, rows: seq<Row>) {
    && job.mapping.Some? && job.counts == ZERO && Inv(s)
    && s.db == Db(map["job" := job], map[], map[], map[])
    && s.flights == map[0 := Flight("job", 0, false, rows, job, []), 1 := Flight("job", 1, false, rows, job, [])]
  }

  lemma TwoAdmitted(cfg: Config, mapping: string, rows: seq<Row>, total: nat) returns (ss: seq<Sys>, es: seq<Event>)
    requires |rows| <= MAX_BATCH_ROWS && |rows| <= total
    ensures Run(cfg, ss, es) && |ss| == |es| + 1 && TwoFlights(ss[|es|], Job(false, Some(mapping), Receiving, total, ZERO, 0), rows)
  {
    var job := Job(false, Some(mapping), Receiving, total, ZERO, 0);
    var s1 := START.(db := Db(map["job" := job], map[], map[], map[]));
    ss, es := [START], [];
    assert Run(cfg, ss, es);
    RunOn(cfg, ss, es, Create("job", job), s1);
    ss, es := [START, s1], [Create("job", job)];
    var f := Flight("job", 0, false, rows, job, []);
    assert Lists(map[], []);
    var s2 := s1.(used := {0}, readers := map[0 := Reader("job", Some(job))]);
    var s3 := s2.(used := {0, 1}, readers := map[0 := Reader("job", Some(job)), 1 := Reader("job", Some(job))]);
    var s4 := s3.(readers := map[1 := Reader("job", Some(job))], flights := map[0 := f]);
    var s5 := s4.(readers := map[], flights := map[0 := f, 1 := f.(no := 1)]);
    assert BatchesOf(s5.db, "job") == map[];
    hide Run, Inv, Lists, BatchesOf;
    var e2, e3 := Event.Look(0, "job"), Event.Look(1, "job");
    var e4, e5 := Submit(0, 0, false, rows, [], 0), Submit(1, 1, false, rows, [], 0);
    RunOn(cfg, ss, es, e2, s2);
    RunOn(cfg, ss + [s2], es + [e2], e3, s3);
    assert s3.readers - {0} == s4.readers;
    RunOn(cfg, ss + [s2] + [s3], es + [e2] + [e3], e4, s4);
    assert s4.readers - {1} == s5.readers;
    RunOn(cfg, ss + [s2] + [s3] + [s4], es + [e2] + [e3] + [e4], e5, s5);
    ss, es := ss + [s2] + [s3] + [s4] + [s5], es + [e2] + [e3] + [e4] + [e5];
    AlwaysInv(cfg, ss, es, 5);
  }

  /** A run and one more step. */
  lemma RunOn(cfg: Config, ss: seq<Sys>, es: seq<Event>, e: Event, v: Sys)
    requires Run(cfg, ss, es) && |ss| == |es| + 1 && CanHappen(ss[|es|], e) && v == Next(cfg, ss[|es|], e)
    ensures Run(cfg, ss + [v], es + [e])
  {
    RunSnoc(cfg, ss, es, e);
  }

  /** Two callers admitted side by side both store their batch. */
  lemma BothFinish(cfg: Config, vs: seq<Sys>, fs: seq<Event>, job: Job, rows: seq<Row>, graph: GraphResult)
    returns (ss: seq<Sys>, es: seq<Event>)
    requires Run(cfg, vs, fs) && |vs| == |fs| + 1 && TwoFlights(vs[|fs|], job, rows)
    ensures Run(cfg, ss, es) && |ss| == |es| + 1 == |fs| + 3 && ss[..|vs|] == vs && es[..|fs|] == fs
    ensures Stores(ss[|fs|], es[|fs|], "job") && Stores(ss[|fs| + 1], es[|fs| + 1], "job")
    ensures var f := Flight("job", 0, false, rows, job, []);
      ss[|fs|].flights[es[|fs|].caller] == f && ss[|fs| + 1].flights[es[|fs| + 1].caller] == f.(no := 1)
    ensures var s, v, f := vs[|fs|], ss[|es|], Flight("job", 0, false, rows, job, []);
      && "job" in v.db.jobs && v.db.jobs["job"].totalRows == job.totalRows && v.db.jobs["job"].counts.received == 2 * |rows|
      && BatchesOf(v.db, "job") == map[0 := Ingest(cfg, f, 0, graph, 0).stored, 1 := Ingest(cfg, f.(no := 1), 1, graph, 0).stored]
  {
    var a, b := Finish(0, graph, 0, true), Finish(1, graph, 0, true);
    var t, u := BothStored(cfg, vs[|fs|], job, rows, graph);
    hide *;
    ss, es := TwoMore(cfg, vs, fs, a, b, t, u);
  }

  /** A run and two more steps. */
  lemma TwoMore(cfg: Config, vs: seq<Sys>, fs: seq<Event>, a: Event, b: Event, t: Sys, u: Sys)
    returns (ss: seq<Sys>, es: seq<Event>)
    requires Run(cfg, vs, fs) && |vs| == |fs| + 1 && CanHappen(vs[|fs|], a) && t == Next(cfg, vs[|fs|], a)
    requires CanHappen(t, b) && u == Next(cfg, t, b)
    ensures Run(cfg, ss, es) && |ss| == |es| + 1 == |fs| + 3 && ss[..|vs|] == vs && es[..|fs|] == fs
    ensures ss[|fs|] == vs[|fs|] && ss[|fs| + 1] == t && ss[|es|] == u && es[|fs|] == a && es[|fs| + 1] == b
  {
    hide *;
    RunSnoc(cfg, vs, fs, a);
    RunSnoc(cfg, vs + [t], fs + [a], b);
    ss, es := vs + [t] + [u], fs + [a] + [b];
  }

  lemma BothStored(cfg: Config, s: Sys, job: Job, rows: seq<Row>, graph: GraphResult) returns (t: Sys, u: Sys)
    requires TwoFlights(s, job, rows)
    ensures var a, b, f := Finish(0, graph, 0, true), Finish(1, graph, 0, true), Flight("job", 0, false, rows, job, []);
      && CanHappen(s, a) && t == Next(cfg, s, a) && CanHappen(t, b) && u == Next(cfg, t, b)
      && Stores(s, a, "job") && Stores(t, b, "job") && s.flights[0] == f && t.flights[1] == f.(no := 1)
      && "job" in u.db.jobs && u.db.jobs["job"].totalRows == job.totalRows && u.db.jobs["job"].counts.received == 2 * |rows|
      && BatchesOf(u.db, "job") == map[0 := Ingest(cfg, f, 0, graph, 0).stored, 1 := Ingest(cfg, f.(no := 1), 1, graph, 0).stored]
  {
    var a, b := Finish(0, graph, 0, true), Finish(1, graph, 0, true);
    var f := Flight("job", 0, false, rows, job, []);
    FirstStored(cfg, s, job, rows, graph);
    t := Next(cfg, s, a);
    u := Next(cfg, t, b);
    hide Ingest, Next, Inv, TwoFlights, FinishStep;
    SecondFinish(cfg, t, f.(no := 1), graph);
    StepOfJob(cfg, t, b, "job");
    hide BatchesOf;
  }

  lemma FirstStored(cfg: Config, s: Sys, job: Job, rows: seq<Row>, graph: GraphResult)
    requires TwoFlights(s, job, rows)
    ensures var a, f := Finish(0, graph, 0, true), Flight("job", 0, false, rows, job, []);
      && CanHappen(s, a) && Stores(s, a, "job") && s.flights[0] == f && job.mapping.Some?
      && var t := Next(cfg, s, a);
      && Inv(t) && t.flights == map[1 := f.(no := 1)]
      && BatchesOf(t.db, "job") == map[0 := Ingest(cfg, f, 0, graph, 0).stored]
      && "job" in t.db.jobs && t.db.jobs["job"].totalRows == job.totalRows && t.db.jobs["job"].counts.received == |rows|
  {
    var a := Finish(0, graph, 0, true);
    assert s.db.jobs["job"] == job && Inv(s) && Stores(s, a, "job") && job.mapping.Some? && job.counts == ZERO;
    assert s.flights[0] == Flight("job", 0, false, rows, job, []);
    hide Ingest, Next, Inv, TwoFlights, DbEvolves, FinishStep;
    FirstFinish(cfg, s, job, rows, graph);
    StepOfJob(cfg, s, a, "job");
    NextKeeps(cfg, s, a);
    hide BatchesOf;
  }

  lemma FirstFinish(cfg: Config, s: Sys, job: Job, rows: seq<Row>, graph: GraphResult)
    requires TwoFlights(s, job, rows)
    ensures var a, f := Finish(0, graph, 0, true), Flight("job", 0, false, rows, job, []);
      && CanHappen(s, a)
      && BatchesOf(Next(cfg, s, a).db, "job") == map[0 := Ingest(cfg, f, 0, graph, 0).stored]
      && Next(cfg, s, a).flights == map[1 := f.(no := 1)]
  {
    hide Ingest, AddRejects, ApplyDelta, DeltaOf, Inv;
    var f := Flight("job", 0, false, rows, job, []);
    assert s.flights - {0} == map[1 := f.(no := 1)];
    IngestNumber(cfg, f, 0, graph, 0);
  }

  lemma SecondFinish(cfg: Config, t: Sys, f: Flight, graph: GraphResult)
    requires 1 in t.flights && t.flights[1] == f && f.id == "job" && f.no == 1 && f.job.mapping.Some?
    requires 1 !in BatchesOf(t.db, "job")
    ensures var b := Finish(1, graph, 0, true);
      CanHappen(t, b) && BatchesOf(Next(cfg, t, b).db, "job") == BatchesOf(t.db, "job")[1 := Ingest(cfg, f, 1, graph, 0).stored]
  {
    hide Ingest, AddRejects, ApplyDelta, DeltaOf;
    IngestNumber(cfg, f, 1, graph, 0);
  }

  /** Two callers admitted side by side can store more rows than the job reserved. */
  lemma TotalCanOverrun(cfg: Config, mapping: string) returns (ss: seq<Sys>, es: seq<Event>)
    ensures Run(cfg, ss, es) && |ss| == |es| + 1 && !WithinTotal(ss[|es|], "job")
  {
    ss, es := TwoAdmitted(cfg, mapping, [map[]], 1);
    hide Run, TwoFlights;
    ss, es := BothFinish(cfg, ss, es, Job(false, Some(mapping), Receiving, 1, ZERO, 0), [map[]], NO_WRITE);
    hide BatchesOf, Ingest;
  }

  /** The number that the first row of a stored batch gets within the job. */
  ghost function FirstRow(s: Sys, e: Event, id: Id): nat
    requires Stores(s, e, id)
  {
    RowsBefore(s.flights[e.caller].prior, s.flights[e.caller].no) + 1
  }

  lemma NothingBefore(s: Sys, e: Event, id: Id)
    requires Stores(s, e, id) && s.flights[e.caller].prior == []
    ensures FirstRow(s, e, id) == 1 && RowsAdded(s, e, id) == |s.flights[e.caller].rows|
  {
    hide BatchesOf;
  }

  /** Two callers admitted side by side with the same rows number them alike, both from 1 on, and both store them. */
  lemma RowsNumberedTwice(cfg: Config, mapping: string, rows: seq<Row>) returns (ss: seq<Sys>, es: seq<Event>, k: nat)
    requires 1 <= |rows| <= MAX_BATCH_ROWS
    ensures Run(cfg, ss, es) && |ss| == |es| + 1 == k + 3
    ensures Stores(ss[k], es[k], "job") && RowsAdded(ss[k], es[k], "job") == |rows| && FirstRow(ss[k], es[k], "job") == 1
    ensures Stores(ss[k + 1], es[k + 1], "job") && RowsAdded(ss[k + 1], es[k + 1], "job") == |rows|
    ensures FirstRow(ss[k + 1], es[k + 1], "job") == 1
  {
    var job := Job(false, Some(mapping), Receiving, 2 * |rows|, ZERO, 0);
    hide *;
    var vs, fs := TwoAdmitted(cfg, mapping, rows, 2 * |rows|);
    k := |fs|;
    ss, es := BothFinish(cfg, vs, fs, job, rows, NO_WRITE);
    FirstRows(ss[k], es[k], ss[k + 1], es[k + 1], Flight("job", 0, false, rows, job, []));
  }

  lemma FirstRows(s: Sys, a: Event, t: Sys, b: Event, f: Flight)
    requires Stores(s, a, "job") && Stores(t, b, "job") && f.prior == []
    requires s.flights[a.caller] == f && t.flights[b.caller] == f.(no := 1)
    ensures RowsAdded(s, a, "job") == RowsAdded(t, b, "job") == |f.rows| && FirstRow(s, a, "job") == FirstRow(t, b, "job") == 1
  {
    NothingBefore(s, a, "job");
    NothingBefore(t, b, "job");
    hide Stores;
  }

  /** A mapping that takes the key from the column `id`, and nothing else. */
  function KeyOnly(): Config {
    Config(RowMapping.Env(s => s, j => "k", (s, sep) => [s], c => Value(c), m => Checked(map[], [])),
           mapping => Spec("T", "id", "id", c => Value(c), [], []))
  }

  lemma OneKey(mapping: string)
    ensures var out := Mapped(KeyOnly().env, KeyOnly().specOf(mapping), [map["id" := JStr("k")]], 1, {});
      out.keys == [ObjectKey("T", "k")] && |out.cmds| == 1
  {
    var env, spec, row := KeyOnly().env, KeyOnly().specOf(mapping), map["id" := JStr("k")];
    assert [row][..0] == [];
    assert Mapped(env, spec, [], 1, {}) == Output([], [], []);
    assert KeyOf(env, spec, row) == Got("k");
    assert {} + Elements([]) == {};
  }

  lemma KeptOne(cmd: Cmd, key: string)
    ensures KeptKeys([cmd], [key], FailedRows([])) == [key]
  {
    assert [cmd][..0] == [] && [key][..0] == [];
    assert KeptKeys([], [], FailedRows([])) == [];
  }

  lemma KeyStored(mapping: string, no: nat)
    ensures var f := Flight("job", no, false, [map["id" := JStr("k")]], Job(false, Some(mapping), Receiving, 2, ZERO, 0), []);
      Ingest(KeyOnly(), f, no, NO_WRITE, 0).stored.keys == [ObjectKey("T", "k")]
  {
    OneKey(mapping);
    var f := Flight("job", no, false, [map["id" := JStr("k")]], Job(false, Some(mapping), Receiving, 2, ZERO, 0), []);
    assert KeysStored([]) == {} && RowsBefore([], no) == 0;
    hide Mapped, KeyOnly, Merged, KeysStored, RowsBefore;
    var out := MappedOf(KeyOnly(), f);
    KeptOne(out.cmds[0], ObjectKey("T", "k"));
    assert out.cmds == [out.cmds[0]] && out.keys == [ObjectKey("T", "k")];
    hide KeptKeys, FailedRows, ObjectKey, MappedOf;
  }

  /** Two callers admitted side by side can both have the same key accepted. */
  lemma KeyAcceptedTwice(mapping: string) returns (ss: seq<Sys>, es: seq<Event>)
    ensures Run(KeyOnly(), ss, es) && |ss| == |es| + 1
    ensures var b := BatchesOf(ss[|es|].db, "job"); 0 in b && 1 in b && b[0].keys == b[1].keys == [ObjectKey("T", "k")] && !KeysOnce(b)
  {
    var rows := [map["id" := JStr("k")]];
    KeyStored(mapping, 0);
    KeyStored(mapping, 1);
    hide Ingest, KeyOnly;
    ss, es := TwoAdmitted(KeyOnly(), mapping, rows, 2);
    hide Run, TwoFlights;
    ss, es := BothFinish(KeyOnly(), ss, es, Job(false, Some(mapping), Receiving, 2, ZERO, 0), rows, NO_WRITE);
    hide BatchesOf;
    var b := BatchesOf(ss[|es|].db, "job");
    assert ObjectKey("T", "k") in b[0].keys && ObjectKey("T", "k") in b[1].keys;
  }
}
