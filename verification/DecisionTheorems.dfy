/**
 * What the decision protocol guarantees over every run: one execution at a time, decisions
 * that stand, at most one change per recommendation, and exactly when an attempt is lost.
 */
module DecisionTheorems {
  import opened Common
  import opened DecisionTable
  import opened DecisionProtocol

  // --- Safety ----------------------------------------------------------------------------------

  /**
   * In every reachable state at most one execution of a recommendation is in flight, no more
   * than three attempts were begun, a decision key is present exactly when the status is
   * neither Proposed nor Expired, and no two recommendations share one.
   */
  lemma DecisionsAreSafe(es: seq<Event>)
    ensures var s := Run(INIT, es);
      && OneInFlight(s)
      && DistinctDecisionKeys(s.rows)
      && forall id :: id in s.rows ==>
           && s.rows[id].execAttempts <= 3
           && (s.rows[id].decisionKey.Some? <==> s.rows[id].status != Proposed && s.rows[id].status != Expired)
  {
    hide Run;
    AlwaysInv(es);
    assert forall id :: id in Run(INIT, es).rows ==> RowOk(Run(INIT, es).rows[id]);
  }

  /** However often it is retried, a recommendation changes its target at most once. */
  lemma AtMostOneChange(es: seq<Event>, i: nat, j: nat)
    requires var s := Run(INIT, es);
      i < |s.changes| && j < |s.changes| && s.changes[i].recId.Some? && s.changes[i].recId == s.changes[j].recId
    ensures i == j
  {
    hide Run, ExecKey;
    AlwaysInv(es);
    var s := Run(INIT, es);
    var id := s.changes[i].recId.value;
    assert s.log[s.changes[i].key].recId == Some(id) && s.log[s.changes[j].key].recId == Some(id);
    assert s.changes[i].key == ExecKey(s.decided[id]) == s.changes[j].key;
  }

  /** A change made for a recommendation is the action of its best candidate. */
  lemma ChangesAreTheDecidedOnes(es: seq<Event>, i: nat)
    requires var s := Run(INIT, es); i < |s.changes| && s.changes[i].recId.Some?
    ensures var s := Run(INIT, es);
      var id := s.changes[i].recId.value;
      && id in s.decided && s.changes[i].key == ExecKey(s.decided[id])
      && (id in s.rows ==>
            && s.rows[id].decisionKey == Some(s.decided[id])
            && BestCandidate(s.rows[id]).Some?
            && BestCandidate(s.rows[id]).value.target == s.changes[i].target)
  {
    hide Run, ExecKey, BestCandidate;
    AlwaysInv(es);
    var s := Run(INIT, es);
    assert s.log[s.changes[i].key].recId == s.changes[i].recId;
  }

  /** Executed means that the best candidate's action is logged under the derived key. */
  lemma ExecutedMeansLogged(es: seq<Event>, id: Id)
    requires var s := Run(INIT, es); id in s.rows && s.rows[id].status == Executed
    ensures var s := Run(INIT, es);
      && s.rows[id].decisionKey.Some?
      && var key := ExecKey(s.rows[id].decisionKey.value);
         && key in s.log
         && BestCandidate(s.rows[id]).Some?
         && s.log[key].actionType == BestCandidate(s.rows[id]).value.actionType
         && s.log[key].target == BestCandidate(s.rows[id]).value.target
  {
    hide Run, ExecKey, BestCandidate;
    AlwaysInv(es);
    assert RowOk(Run(INIT, es).rows[id]);
  }

  /** Nothing is ever sent, logged or changed for a rejected or expired recommendation. */
  lemma RejectedNeverActs(es: seq<Event>, id: Id)
    requires var s := Run(INIT, es); id in s.rows && (s.rows[id].status == Rejected || s.rows[id].status == Expired)
    ensures var s := Run(INIT, es);
      && (forall a :: a in s.acts ==> s.acts[a].req.recId != Some(id))
      && (forall key :: key in s.log ==> s.log[key].recId != Some(id))
      && (forall i :: 0 <= i < |s.changes| ==> s.changes[i].recId != Some(id))
      && (forall k :: k in s.callers && InFlight(s.callers[k]) ==> s.callers[k].call.id != id)
  {
    hide Run, ExecKey, BestCandidate;
    AlwaysInv(es);
    var s := Run(INIT, es);
    assert RowOk(s.rows[id]);
    forall a | a in s.acts ensures s.acts[a].req.recId != Some(id) {
      assert ActOk(s, s.acts[a]);
    }
    forall k | k in s.callers && InFlight(s.callers[k]) ensures s.callers[k].call.id != id {
      assert CallerOk(s, s.callers[k]);
    }
  }

  // --- Decisions stand --------------------------------------------------------------------------------

  lemma RowsGrow(s: Sys, t: Sys)
    requires t.rows.Keys <= s.rows.Keys && TableEvolves(s.rows, t.rows)
    requires t.seen == s.seen && t.decided == s.decided && t.log == s.log && t.changes == s.changes
    ensures Grows(s, t)
  {
  }

  /** A record is a version of itself. */
  lemma RowsStay(s: Sys, t: Sys)
    requires t.rows == s.rows
    requires t.seen == s.seen && t.decided == s.decided && t.log == s.log && t.changes == s.changes
    ensures Grows(s, t)
  {
  }

  /** The steps that read only, or only send. */
  predicate Quiet(c: DecisionProtocol.Caller) {
    !c.Expiring? && !c.Claiming? && !c.Beginning? && !c.Finishing?
  }

  /** A step of caller `k` keeps its request, the other callers and what was ever stored. */
  ghost predicate Framed(s: Sys, t: Sys, k: nat)
    requires k in s.callers
  {
    && k in t.callers && t.callers[k].call == s.callers[k].call
    && (forall b :: b in t.callers && b != k ==> b in s.callers && t.callers[b] == s.callers[b])
    && t.seen == s.seen
    && (InFlight(t.callers[k]) ==>
          InFlight(s.callers[k]) || BeginExecution(s.rows, s.callers[k].call.id, s.callers[k].call.claim.key).1)
  }

  ghost predicate SameTables(s: Sys, t: Sys) {
    t.rows == s.rows && t.seen == s.seen && t.decided == s.decided && t.log == s.log && t.changes == s.changes
  }

  lemma MoveFrame(s: Sys, k: nat, c: DecisionProtocol.Caller)
    requires k in s.callers && c.call == s.callers[k].call
    requires InFlight(c) ==> InFlight(s.callers[k])
    ensures Framed(s, s.(callers := s.callers[k := c]), k) && SameTables(s, s.(callers := s.callers[k := c]))
  {
    hide BeginExecution;
  }

  lemma LoadFrame(s: Sys, k: nat, act: nat)
    requires k in s.callers && s.callers[k].Loading?
    ensures var t := LoadStep(s, k, s.callers[k].call, s.callers[k].started, act); Framed(s, t, k) && SameTables(s, t)
  {
    hide BestCandidate, BeginExecution, ExecKey;
  }

  lemma WaitFrame(s: Sys, k: nat)
    requires k in s.callers && s.callers[k].Waiting?
    ensures var t := WaitStep(s, k, s.callers[k]); Framed(s, t, k) && SameTables(s, t)
  {
    hide BeginExecution;
  }

  lemma ClaimFrame(s: Sys, k: nat)
    requires k in s.callers && s.callers[k].Claiming?
    ensures Framed(s, ClaimStep(s, k, s.callers[k].call, s.callers[k].now), k)
  {
    hide BeginExecution, ClaimDecision;
  }

  lemma BeginFrame(s: Sys, k: nat)
    requires k in s.callers && s.callers[k].Beginning?
    ensures Framed(s, BeginStep(s, k, s.callers[k].call), k)
  {
    hide BeginExecution;
  }

  lemma FinishFrame(s: Sys, k: nat)
    requires k in s.callers && s.callers[k].Finishing?
    ensures Framed(s, FinishStep(s, k, s.callers[k]), k)
  {
    hide BeginExecution, FinishExecution;
  }

  lemma ExpiringFrame(s: Sys, k: nat)
    requires k in s.callers && s.callers[k].Expiring?
    ensures Framed(s, s.(rows := ExpireDue(s.rows, s.callers[k].now, Some(s.callers[k].call.id)),
                         callers := s.callers[k := Done(s.callers[k].call, Failed)]), k)
  {
    hide BeginExecution, ExpireDue;
  }

  lemma StepFrame(s: Sys, k: nat, now: int, act: nat)
    requires k in s.callers
    ensures Framed(s, CallerStep(s, k, now, act), k)
    ensures Quiet(s.callers[k]) ==> SameTables(s, CallerStep(s, k, now, act))
  {
    hide Framed, SameTables, LoadStep, WaitStep, ClaimStep, BeginStep, FinishStep, ExpireDue, IsDue, CanRetryExecution, Stalled;
    match s.callers[k]
    case Starting(call) => MoveFrame(s, k, Start(s, call, now));
    case Expiring(call, at) => ExpiringFrame(s, k);
    case Claiming(call, at) => ClaimFrame(s, k);
    case Rechecking(call) => MoveFrame(s, k, Recheck(s, call));
    case Beginning(call) => BeginFrame(s, k);
    case Loading(call, started) => LoadFrame(s, k, act);
    case Waiting(_, _, _, _) => WaitFrame(s, k);
    case Finishing(_, _, _) => FinishFrame(s, k);
    case Reading(call) => MoveFrame(s, k, ReadStep(s, call));
    case Done(call, _) =>
      MoveFrame(s, k, s.callers[k]);
      assert s.callers[k := s.callers[k]] == s.callers;
  }

  lemma CallerStepGrows(s: Sys, k: nat, now: int, act: nat)
    requires Inv(s)
    ensures Grows(s, CallerStep(s, k, now, act))
  {
    var t := CallerStep(s, k, now, act);
    if k !in s.callers {
      RowsStay(s, t);
    } else if Quiet(s.callers[k]) {
      hide CallerStep, Grows, Inv, Framed;
      StepFrame(s, k, now, act);
      RowsStay(s, t);
    } else if s.callers[k].Claiming? {
      ClaimGrows(s, k, s.callers[k].call, s.callers[k].now);
    } else {
      TableCallerGrows(s, k, now, act);
    }
  }

  lemma TableCallerGrows(s: Sys, k: nat, now: int, act: nat)
    requires Inv(s) && k in s.callers
    requires s.callers[k].Expiring? || s.callers[k].Beginning? || s.callers[k].Finishing?
    ensures Grows(s, CallerStep(s, k, now, act))
  {
    hide LogOk, ActsOk, ChangesOk, ExecutedLogged, OneInFlight;
    hide BeginExecution, ExpireDue, FinishExecution, TableEvolves, Grows, BestCandidate, Evolves;
    var t := CallerStep(s, k, now, act);
    match s.callers[k]
    case Expiring(call, at) =>
      ExpireKeeps(s.rows, at, Some(call.id));
      RowsGrow(s, t);
    case Beginning(call) =>
      BeginKeeps(s.rows, call.id, call.claim.key);
      RowsGrow(s, t);
    case Finishing(call, entry, prior) =>
      assert CallerOk(s, s.callers[k]);
      FinishKeeps(s.rows, call.id, entry.executed, prior + [entry]);
      RowsGrow(s, t);
  }

  lemma ClaimGrows(s: Sys, k: nat, call: Call, now: int)
    requires Inv(s)
    ensures Grows(s, ClaimStep(s, k, call, now))
  {
    if ClaimDecision(s.rows, call.id, call.claim, now).1 == Claimed {
      ClaimedRow(s, call, now);
    }
    ClaimKeeps(s.rows, call.id, call.claim, now);
  }

  lemma ActStepGrows(s: Sys, a: nat, pass: bool)
    ensures Grows(s, ActStep(s, a, pass))
  {
    SameRows(s.rows);
    hide Matches, TableEvolves, Found, Grows, CommitStep;
    NothingLost(s);
    if a in s.acts && s.acts[a].Committing? {
      CommitGrows(s, a, s.acts[a].req, s.acts[a].version);
    }
  }

  lemma NothingLost(s: Sys)
    requires TableEvolves(s.rows, s.rows)
    ensures forall acts :: Grows(s, s.(acts := acts))
  {
  }

  lemma CommitGrows(s: Sys, a: nat, req: Req, version: nat)
    requires TableEvolves(s.rows, s.rows)
    ensures Grows(s, CommitStep(s, a, req, version))
  {
    hide TableEvolves;
  }

  lemma SameRows(t: Table)
    ensures TableEvolves(t, t)
  {
  }

  lemma NextGrows(s: Sys, e: Event)
    requires Inv(s)
    ensures Grows(s, Next(s, e))
  {
    hide Grows, CallerStep, ActStep, ExpireDue, DeleteUnexecuted, TableEvolves;
    match e
    case Insert(id, ranking, candidates, expiresAt) => InsertGrows(s, id, ranking, candidates, expiresAt);
    case Caller(k, now, act) => CallerStepGrows(s, k, now, act);
    case Act(a, pass) => ActStepGrows(s, a, pass);
    case Expire(now, only) =>
      ExpireKeeps(s.rows, now, only);
      RowsGrow(s, Next(s, e));
    case Clear => ClearGrows(s);
    case _ => RowsStay(s, Next(s, e));
  }

  lemma InsertGrows(s: Sys, id: Id, ranking: seq<nat>, candidates: seq<Candidate>, expiresAt: int)
    requires Inv(s)
    ensures Grows(s, Next(s, Insert(id, ranking, candidates, expiresAt)))
  {
    assert RowsKnown(s);
    hide Inv, BestCandidate;
  }

  lemma ClearGrows(s: Sys)
    requires Inv(s)
    ensures Grows(s, Next(s, Clear))
  {
    hide LogOk, ActsOk, ChangesOk, ExecutedLogged, OneInFlight;
    DeleteKeeps(s.rows);
    var t := s.(rows := DeleteUnexecuted(s.rows));
    forall id | id in s.rows && id in t.rows ensures Evolves(s.rows[id], t.rows[id]) {
    }
    RowsGrow(s, t);
  }

  lemma GrowsTransitive(a: Sys, b: Sys, c: Sys)
    requires Grows(a, b) && Grows(b, c) && RowsKnown(a)
    ensures Grows(a, c)
  {
    hide ExecKey, BestCandidate;
    forall id | id in a.rows && id in c.rows ensures Evolves(a.rows[id], c.rows[id]) {
      assert id in b.rows;
      EvolvesTransitive(a.rows[id], b.rows[id], c.rows[id]);
    }
  }

  lemma {:induction false} RunGrows(s: Sys, es: seq<Event>)
    requires Inv(s)
    ensures Inv(Run(s, es)) && Grows(s, Run(s, es))
  {
    if es == [] {
    } else {
      var n := |es| - 1;
      RunGrows(s, es[..n]);
      NextKeeps(Run(s, es[..n]), es[n]);
      NextGrows(Run(s, es[..n]), es[n]);
      assert RowsKnown(s);
      hide Inv, Grows, Next;
      GrowsTransitive(s, Run(s, es[..n]), Run(s, es));
    }
  }

  /**
   * From any reachable state on: a decision key never changes, Executed, Rejected and Expired
   * are never left, attempts only count up, a deleted recommendation does not come back, and
   * neither the log nor the list of changes forgets.
   */
  lemma DecisionsStand(before: seq<Event>, later: seq<Event>, id: Id)
    ensures var s := Run(INIT, before);
      var t := Run(s, later);
      && (id in s.seen && id in t.rows ==> id in s.rows)
      && (id in s.rows && id in t.rows ==>
            && (s.rows[id].decisionKey.Some? ==> t.rows[id].decisionKey == s.rows[id].decisionKey)
            && (Terminal(s.rows[id].status) ==> t.rows[id].status == s.rows[id].status)
            && s.rows[id].execAttempts <= t.rows[id].execAttempts
            && BestCandidate(t.rows[id]) == BestCandidate(s.rows[id]))
      && (forall key :: key in s.log ==> key in t.log && t.log[key] == s.log[key])
      && s.changes <= t.changes
  {
    hide Run, Inv;
    AlwaysInv(before);
    RunGrows(Run(INIT, before), later);
    var s := Run(INIT, before);
    var t := Run(s, later);
    assert id in s.rows && id in t.rows ==> Evolves(s.rows[id], t.rows[id]);
  }

  // --- Retries ---------------------------------------------------------------------------------------------

  lemma RunStepLast(s: Sys, es: seq<Event>, e: Event)
    ensures Run(s, es + [e]) == Next(Run(s, es), e)
  {
    assert (es + [e])[..|es|] == es;
  }

  lemma {:induction false} RunAppend(s: Sys, a: seq<Event>, b: seq<Event>)
    ensures Run(s, a + b) == Run(Run(s, a), b)
  {
    hide Next;
    if b == [] {
      assert a + b == a;
    } else {
      var n := |b| - 1;
      RunAppend(s, a, b[..n]);
      assert (a + b)[..|a| + n] == a + b[..n] && (a + b)[|a| + n] == b[n];
    }
  }

  lemma RunOne(s: Sys, e: Event)
    ensures Run(s, [e]) == Next(s, e)
  {
    assert [e][..0] == [];
  }

  /** One whole retry: read, begin, load, look up the log, take the response, finish. */
  function RetryEvents(k: nat, call: Call, a: nat): seq<Event> {
    [Decide(k, call), Event.Caller(k, 0, a), Event.Caller(k, 0, a), Event.Caller(k, 0, a),
     Event.Act(a, true), Event.Caller(k, 0, a), Event.Caller(k, 0, a)]
  }

  /** The first half of a retry: the caller waits for the same request as ever. */
  lemma RetrySends(s: Sys, k: nat, call: Call, a: nat)
    requires call.id in s.rows && k !in s.callers && a !in s.acts
    requires Beginnable(s.rows, call.id, call.claim.key) && s.rows[call.id].status == ExecFailed
    requires BestCandidate(s.rows[call.id]).Some?
    ensures var t := Next(Next(Next(Next(s, Decide(k, call)), Event.Caller(k, 0, a)), Event.Caller(k, 0, a)), Event.Caller(k, 0, a));
      var best := BestCandidate(s.rows[call.id]).value;
      && t.objects == s.objects && t.changes == s.changes && t.log == s.log
      && k in t.callers && t.callers[k] == Waiting(call, a, best.id, s.rows[call.id].execution)
      && a in t.acts && t.acts[a] == Finding(Req(ExecKey(call.claim.key), best.actionType, best.target, Some(call.id)))
      && call.id in t.rows && t.rows[call.id].status == Confirmed
  {
    hide ExecKey, FirstWithId;
    var s1 := Next(s, Decide(k, call));
    var s2 := Next(s1, Event.Caller(k, 0, a));
    assert s2 == s1.(callers := s1.callers[k := Beginning(call)]);
    var s3 := Next(s2, Event.Caller(k, 0, a));
    assert s3 == BeginStep(s2, k, call);
    assert s3.callers[k] == Loading(call, true);
    assert Next(s3, Event.Caller(k, 0, a)) == LoadStep(s3, k, call, true, a);
  }

  /** The second half: the logged action answers, and the outcome is recorded. */
  lemma RetryRecords(s: Sys, k: nat, a: nat)
    requires k in s.callers && s.callers[k].Waiting? && s.callers[k].act == a
    requires a in s.acts && s.acts[a].Finding? && s.acts[a].req.key in s.log
    requires Matches(s.log[s.acts[a].req.key], s.acts[a].req)
    requires s.callers[k].call.id in s.rows && s.rows[s.callers[k].call.id].status == Confirmed
    ensures var t := Next(Next(Next(s, Event.Act(a, true)), Event.Caller(k, 0, a)), Event.Caller(k, 0, a));
      && t.objects == s.objects && t.changes == s.changes && t.log == s.log
      && s.callers[k].call.id in t.rows && t.rows[s.callers[k].call.id].status == Executed
  {
    hide BestCandidate;
    var c := s.callers[k];
    var s1 := Next(s, Event.Act(a, true));
    assert s1 == s.(acts := s.acts[a := Responded(s.acts[a].req, true)]);
    var s2 := Next(s1, Event.Caller(k, 0, a));
    assert s2 == s1.(callers := s1.callers[k := Finishing(c.call, Entry(c.candidateId, true), c.prior)]);
    assert Next(s2, Event.Caller(k, 0, a)) == FinishStep(s2, k, s2.callers[k]);
  }

  /**
   * A lost response is healed: when the action was committed but recorded as failed, one
   * retry with the same key finds it in the log, records Executed, and changes no object.
   */
  lemma RetryHeals(s: Sys, id: Id, k: nat, call: Call, a: nat)
    requires Inv(s) && id in s.rows && Logged(s, id)
    requires s.rows[id].status == ExecFailed && s.rows[id].execAttempts < MAX_ATTEMPTS
    requires call.id == id && s.rows[id].decisionKey == Some(call.claim.key)
    requires k !in s.callers && a !in s.acts
    ensures var t := Run(s, RetryEvents(k, call, a));
      && id in t.rows && t.rows[id].status == Executed
      && t.objects == s.objects && t.changes == s.changes && t.log == s.log
  {
    RowsKnownOf(s);
    assert s.decided[id] == call.claim.key;
    RetryBegins(s, id, k, call);
    hide ExecKey, BestCandidate, Inv, Next, Run, Beginnable;
    RetrySends(s, k, call, a);
    RetryRecords(Next(Next(Next(Next(s, Decide(k, call)), Event.Caller(k, 0, a)), Event.Caller(k, 0, a)), Event.Caller(k, 0, a)), k, a);
    RunSeven(s, RetryEvents(k, call, a));
  }

  lemma RowsKnownOf(s: Sys)
    requires Inv(s)
    ensures RowsKnown(s)
  {
  }

  lemma RetryBegins(s: Sys, id: Id, k: nat, call: Call)
    requires id in s.rows && s.rows[id].status == ExecFailed && s.rows[id].execAttempts < MAX_ATTEMPTS
    requires call.id == id && s.rows[id].decisionKey == Some(call.claim.key)
    ensures Start(s, call, 0) == Beginning(call)
    ensures Beginnable(s.rows, id, call.claim.key)
  {
  }

  lemma RunSeven(s: Sys, es: seq<Event>)
    requires |es| == 7
    ensures Run(s, es) == Next(Next(Next(Next(Next(Next(Next(s, es[0]), es[1]), es[2]), es[3]), es[4]), es[5]), es[6])
  {
    hide Next;
    assert es[..0] == [] && es[..7] == es;
    assert es[..1] == es[..0] + [es[0]] && es[..2] == es[..1] + [es[1]] && es[..3] == es[..2] + [es[2]];
    assert es[..4] == es[..3] + [es[3]] && es[..5] == es[..4] + [es[4]] && es[..6] == es[..5] + [es[5]];
    assert es[..7] == es[..6] + [es[6]];
    RunStepLast(s, es[..0], es[0]);
    RunStepLast(s, es[..1], es[1]);
    RunStepLast(s, es[..2], es[2]);
    RunStepLast(s, es[..3], es[3]);
    RunStepLast(s, es[..4], es[4]);
    RunStepLast(s, es[..5], es[5]);
    RunStepLast(s, es[..6], es[6]);
  }

  // --- Lost attempts --------------------------------------------------------------------------------------------

  /** An attempt was begun on `id`, and nobody is left to finish it. */
  ghost predicate Stranded(s: Sys, id: Id, r: Rec) {
    && id in s.seen
    && (id in s.rows ==> s.rows[id] == r)
    && r.status == Confirmed && r.execAttempts >= 1
    && forall k :: k in s.callers && InFlight(s.callers[k]) ==> s.callers[k].call.id != id
  }

  lemma StrandedStep(s: Sys, e: Event, id: Id, r: Rec)
    requires Stranded(s, id, r)
    ensures Stranded(Next(s, e), id, r)
  {
    hide ExecKey, BestCandidate, CallerStep, ActStep;
    match e
    case Caller(k, now, act) => StrandedCaller(s, k, now, act, id, r);
    case Act(a, pass) => StrandedAct(s, a, pass, id, r);
    case _ =>
  }

  lemma StrandedAct(s: Sys, a: nat, pass: bool, id: Id, r: Rec)
    requires Stranded(s, id, r)
    ensures Stranded(ActStep(s, a, pass), id, r)
  {
    hide ExecKey, BestCandidate;
  }

  /** A record under a begun attempt can be neither claimed, begun nor expired. */
  lemma NotYours(t: Table, id: Id, other: Id, c: Claim, key: Key, now: int, only: Option<Id>)
    requires id in t && t[id].status == Confirmed && t[id].execAttempts >= 1
    ensures id in ExpireDue(t, now, only) && ExpireDue(t, now, only)[id] == t[id]
    ensures var u := ClaimDecision(t, other, c, now).0; id in u && u[id] == t[id]
    ensures var u := BeginExecution(t, other, key).0; id in u && u[id] == t[id]
    ensures BeginExecution(t, other, key).1 ==> other != id
  {
    hide KeyTaken;
  }

  lemma StrandedCaller(s: Sys, k: nat, now: int, act: nat, id: Id, r: Rec)
    requires Stranded(s, id, r)
    ensures Stranded(CallerStep(s, k, now, act), id, r)
  {
    hide ExecKey, BestCandidate, ExpireDue, ClaimDecision, BeginExecution;
    if k in s.callers {
      var c := s.callers[k];
      var at := if c.Expiring? || c.Claiming? then c.now else now;
      if id in s.rows {
        NotYours(s.rows, id, c.call.id, c.call.claim, c.call.claim.key, at, Some(c.call.id));
      } else {
        NotThere(s.rows, id, c.call.id, c.call.claim, c.call.claim.key, at, Some(c.call.id));
      }
      StrandedRow(s, k, now, act, id);
      StrandedCallers(s, k, now, act, id, r);
    }
  }

  lemma NotThere(t: Table, id: Id, other: Id, c: Claim, key: Key, now: int, only: Option<Id>)
    requires id !in t
    ensures id !in ExpireDue(t, now, only)
    ensures id !in ClaimDecision(t, other, c, now).0
    ensures id !in BeginExecution(t, other, key).0
    ensures BeginExecution(t, other, key).1 ==> other != id
  {
    hide KeyTaken;
  }

  /** The statements of a caller that is not in flight on `id` leave its row alone. */
  lemma StrandedRow(s: Sys, k: nat, now: int, act: nat, id: Id)
    requires k in s.callers && id in s.seen
    requires InFlight(s.callers[k]) ==> s.callers[k].call.id != id
    requires var c := s.callers[k];
      var at := if c.Expiring? || c.Claiming? then c.now else now;
      && (id in ExpireDue(s.rows, at, Some(c.call.id)) <==> id in s.rows)
      && (id in ClaimDecision(s.rows, c.call.id, c.call.claim, at).0 <==> id in s.rows)
      && (id in BeginExecution(s.rows, c.call.id, c.call.claim.key).0 <==> id in s.rows)
      && (id in s.rows ==>
            && ExpireDue(s.rows, at, Some(c.call.id))[id] == s.rows[id]
            && ClaimDecision(s.rows, c.call.id, c.call.claim, at).0[id] == s.rows[id]
            && BeginExecution(s.rows, c.call.id, c.call.claim.key).0[id] == s.rows[id])
    ensures var t := CallerStep(s, k, now, act);
      (id in t.rows <==> id in s.rows) && (id in s.rows ==> t.rows[id] == s.rows[id])
  {
    hide ExpireDue, ClaimDecision, BeginExecution, BestCandidate, Start, Recheck, ReadStep;
  }

  /** Nobody comes in flight on a row that may not begin. */
  lemma StrandedCallers(s: Sys, k: nat, now: int, act: nat, id: Id, r: Rec)
    requires Stranded(s, id, r) && k in s.callers
    requires BeginExecution(s.rows, s.callers[k].call.id, s.callers[k].call.claim.key).1 ==> s.callers[k].call.id != id
    ensures var t := CallerStep(s, k, now, act);
      && t.seen == s.seen
      && forall b :: b in t.callers && InFlight(t.callers[b]) ==> t.callers[b].call.id != id
  {
    hide CallerStep, BeginExecution, InFlight;
    StepFrame(s, k, now, act);
  }

  lemma {:induction false} StrandedForever(s: Sys, es: seq<Event>, id: Id, r: Rec)
    requires Stranded(s, id, r)
    ensures Stranded(Run(s, es), id, r)
  {
    hide Stranded, Next;
    if es == [] {
    } else {
      StrandedForever(s, es[..|es| - 1], id, r);
      StrandedStep(Run(s, es[..|es| - 1]), es[|es| - 1], id, r);
    }
  }

  ghost predicate SomebodyInFlight(s: Sys, id: Id) {
    exists k :: k in s.callers && InFlight(s.callers[k]) && s.callers[k].call.id == id
  }

  /** Some continuation records the outcome of the attempt. */
  ghost predicate CanBeRecorded(s: Sys, id: Id) {
    exists es :: id in Run(s, es).rows && Run(s, es).rows[id].status != Confirmed
  }

  /** A process number that is not in use. */
  lemma FreshAct(acts: map<nat, Act>) returns (a: nat)
    ensures a !in acts
  {
    var n := |acts.Keys|;
    if forall i: nat :: i <= n ==> i in acts {
      SubsetSize(Interval(n + 1), acts.Keys);
      assert false;
    }
    a :| a <= n && a !in acts;
  }

  lemma FinishingRecords(s: Sys, id: Id, k: nat)
    requires id in s.rows && s.rows[id].status == Confirmed
    requires k in s.callers && s.callers[k].Finishing? && s.callers[k].call.id == id
    ensures CanBeRecorded(s, id)
  {
    var e := Event.Caller(k, 0, 0);
    RunOne(s, e);
    assert Next(s, e) == FinishStep(s, k, s.callers[k]);
    hide Run, Next;
    assert id in Run(s, [e]).rows && Run(s, [e]).rows[id].status != Confirmed;
  }

  lemma RecordedAfter(s: Sys, e: Event, id: Id)
    requires CanBeRecorded(Next(s, e), id)
    ensures CanBeRecorded(s, id)
  {
    hide Next;
    var es :| id in Run(Next(s, e), es).rows && Run(Next(s, e), es).rows[id].status != Confirmed;
    RunOne(s, e);
    RunAppend(s, [e], es);
    hide Run;
    assert id in Run(s, [e] + es).rows && Run(s, [e] + es).rows[id].status != Confirmed;
  }

  lemma WaitingRecords(s: Sys, id: Id, k: nat)
    requires id in s.rows && s.rows[id].status == Confirmed
    requires k in s.callers && s.callers[k].Waiting? && s.callers[k].call.id == id
    ensures CanBeRecorded(s, id)
  {
    var t := Next(s, Timeout(k));
    assert t.rows == s.rows && t.callers[k].Finishing?;
    hide Run, Next;
    FinishingRecords(t, id, k);
    RecordedAfter(s, Timeout(k), id);
  }

  lemma LoadingRecords(s: Sys, id: Id, k: nat)
    requires id in s.rows && s.rows[id].status == Confirmed
    requires k in s.callers && s.callers[k].Loading? && s.callers[k].started && s.callers[k].call.id == id
    ensures CanBeRecorded(s, id)
  {
    var a := FreshAct(s.acts);
    var e := Event.Caller(k, 0, a);
    var t := Next(s, e);
    assert t == LoadStep(s, k, s.callers[k].call, true, a);
    assert t.rows == s.rows && (t.callers[k].Waiting? || t.callers[k].Finishing?);
    hide Run, Next, LoadStep;
    if t.callers[k].Waiting? {
      WaitingRecords(t, id, k);
    } else {
      FinishingRecords(t, id, k);
    }
    RecordedAfter(s, e, id);
  }

  /**
   * Exactly when an attempt can still be recorded: once `beginExecution` has run, the
   * recommendation can leave Confirmed if and only if the caller that began it is still
   * running. When that caller dies, no retry, list or expiry ever moves it again.
   */
  lemma LostExactlyWhenCallerDies(s: Sys, id: Id)
    requires Inv(s) && id in s.rows && s.rows[id].status == Confirmed && s.rows[id].execAttempts >= 1
    ensures CanBeRecorded(s, id) <==> SomebodyInFlight(s, id)
  {
    if SomebodyInFlight(s, id) {
      hide Inv, Run, Next, CanBeRecorded;
      var k :| k in s.callers && InFlight(s.callers[k]) && s.callers[k].call.id == id;
      if s.callers[k].Loading? {
        LoadingRecords(s, id, k);
      } else if s.callers[k].Waiting? {
        WaitingRecords(s, id, k);
      } else {
        FinishingRecords(s, id, k);
      }
    } else {
      assert RowsKnown(s);
      hide Inv, Run;
      assert Stranded(s, id, s.rows[id]);
      forall es ensures !(id in Run(s, es).rows && Run(s, es).rows[id].status != Confirmed) {
        StrandedForever(s, es, id, s.rows[id]);
      }
    }
  }

  const TARGET: Rid := 5
  const BEST := Candidate(3, 9, 5)

  /** A stored recommendation with one candidate, whose target exists. */
  function Ready(): Sys {
    INIT.(objects := map[TARGET := 1], rows := map[1 := NewRec([3], [BEST], 10)], seen := {1})
  }

  function Confirming(key: Key): Call {
    Call(1, Claim(true, key, "", 0))
  }

  /** The state in which the caller waits for the action it has sent. */
  function ActionSent(key: Key): Sys {
    var r := ClaimRow(NewRec([3], [BEST], 10), Confirming(key).claim);
    Ready().(
      rows := map[1 := r.(execAttempts := 1, version := r.version + 1)], decided := map[1 := key],
      callers := map[7 := Waiting(Confirming(key), 0, 3, [])],
      acts := map[0 := Finding(Req(ExecKey(key), 9, TARGET, Some(1)))])
  }

  lemma Confirmed1(key: Key) returns (es: seq<Event>)
    ensures Run(INIT, es) == ActionSent(key)
  {
    var call := Confirming(key);
    var s := INIT.(objects := map[TARGET := 1]);
    assert Run(INIT, []) == INIT && Next(INIT, Touch(TARGET)) == s;
    RunStepLast(INIT, [], Touch(TARGET));
    es := [] + [Touch(TARGET)];
    hide Run, ExecKey;
    RunStepLast(INIT, es, Insert(1, [3], [BEST], 10));
    es := es + [Insert(1, [3], [BEST], 10)];
    assert Run(INIT, es) == Ready();
    RunStepLast(INIT, es, Decide(7, call));
    es := es + [Decide(7, call)];
    assert Run(INIT, es) == Ready().(callers := map[7 := Starting(call)]);
    es := ClaimedAndSent(es, key);
  }

  function Claimed1(key: Key): Sys {
    Ready().(rows := map[1 := ClaimRow(NewRec([3], [BEST], 10), Confirming(key).claim)], decided := map[1 := key],
             callers := map[7 := Beginning(Confirming(key))])
  }

  lemma ClaimedAndSent(es: seq<Event>, key: Key) returns (fs: seq<Event>)
    requires Run(INIT, es) == Ready().(callers := map[7 := Starting(Confirming(key))])
    ensures Run(INIT, fs) == ActionSent(key)
  {
    hide Run, ExecKey;
    var call, e := Confirming(key), Event.Caller(7, 0, 0);
    RunStepLast(INIT, es, e);
    assert Run(INIT, es + [e]) == Ready().(callers := map[7 := Claiming(call, 0)]);
    RunStepLast(INIT, es + [e], e);
    assert Run(INIT, es + [e] + [e]) == Claimed1(key);
    fs := BegunAndSent(es + [e] + [e], key);
  }

  lemma BegunAndSent(es: seq<Event>, key: Key) returns (fs: seq<Event>)
    requires Run(INIT, es) == Claimed1(key)
    ensures Run(INIT, fs) == ActionSent(key)
  {
    hide Run, ExecKey;
    var call, e, s := Confirming(key), Event.Caller(7, 0, 0), Claimed1(key);
    var r := s.rows[1];
    RunStepLast(INIT, es, e);
    assert Run(INIT, es + [e]) ==
      s.(rows := map[1 := r.(execAttempts := 1, version := r.version + 1)], callers := map[7 := Loading(call, true)]);
    RunStepLast(INIT, es + [e], e);
    fs := es + [e] + [e];
  }

  /** The action is carried out and logged; then the caller dies. */
  lemma LoggedAndCutOff(es: seq<Event>, key: Key) returns (fs: seq<Event>)
    requires Run(INIT, es) == ActionSent(key)
    ensures Run(INIT, fs) == ActionSent(key).(
      callers := map[], objects := map[TARGET := 2], acts := map[0 := Responded(Req(ExecKey(key), 9, TARGET, Some(1)), true)],
      log := map[ExecKey(key) := LogRow(9, TARGET, Some(1))], changes := [Change(ExecKey(key), TARGET, Some(1))])
  {
    hide Run, ExecKey;
    var s, e, req := ActionSent(key), Act(0, true), Req(ExecKey(key), 9, TARGET, Some(1));
    RunStepLast(INIT, es, e);
    assert Run(INIT, es + [e]) == s.(acts := map[0 := Checking(req)]);
    RunStepLast(INIT, es + [e], e);
    assert Run(INIT, es + [e] + [e]) == s.(acts := map[0 := Committing(req, 1)]);
    RunStepLast(INIT, es + [e] + [e], e);
    var done := s.(objects := map[TARGET := 2], acts := map[0 := Responded(req, true)],
      log := map[ExecKey(key) := LogRow(9, TARGET, Some(1))], changes := [Change(ExecKey(key), TARGET, Some(1))]);
    assert Run(INIT, es + [e] + [e] + [e]) == done;
    RunStepLast(INIT, es + [e] + [e] + [e], Crash(7));
    fs := es + [e] + [e] + [e] + [Crash(7)];
  }

  /**
   * A run in which the action of a confirmed recommendation was carried out once and logged, the
   * caller died before recording it, and no continuation will ever record it.
   */
  lemma CrashAfterBegin(key: Key) returns (es: seq<Event>)
    ensures var s := Run(INIT, es);
      && 1 in s.rows && s.rows[1].status == Confirmed && BestCandidate(s.rows[1]) == Some(BEST)
      && Logged(s, 1) && |s.changes| == 1 && s.changes[0].recId == Some(1)
      && !SomebodyInFlight(s, 1) && !CanBeRecorded(s, 1)
  {
    es := Confirmed1(key);
    es := LoggedAndCutOff(es, key);
    AlwaysInv(es);
    hide Run, CanBeRecorded, Inv, ExecKey;
    var s := Run(INIT, es);
    assert s.rows[1].ranking == [3] && s.rows[1].candidates == [BEST];
    LostExactlyWhenCallerDies(s, 1);
  }
}
