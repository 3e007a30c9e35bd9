/**
 * Deciding a recommendation and executing it (recommendations.ts, apply_action.ts): any
 * number of callers, retries, lost responses and crashes, interleaved at every await. The
 * two services meet only through the idempotency key derived from the decision key.
 */
module DecisionProtocol {
  import opened Common
  import opened DecisionTable

  // --- One decision request, await by await -----------------------------------------------

  datatype Call = Call(id: Id, claim: Claim)

  datatype Reply = Shown(rec: Rec) | Failed

  datatype Caller =
    | Starting(call: Call)
    | Expiring(call: Call, now: int)
    | Claiming(call: Call, now: int)
    | Rechecking(call: Call)
    | Beginning(call: Call)
    | Loading(call: Call, started: bool)
    | Waiting(call: Call, act: nat, candidateId: nat, prior: seq<Entry>)
    | Finishing(call: Call, entry: Entry, prior: seq<Entry>)
    | Reading(call: Call)
    | Done(call: Call, reply: Reply)

  // --- One action request -----------------------------------------------------------------------

  /** An action request; `recId` is set when the decision engine sends it. */
  datatype Req = Req(key: Key, actionType: nat, target: Rid, recId: Option<Id>)

  datatype Act =
    | Finding(req: Req)
    | Checking(req: Req)
    | Committing(req: Req, version: nat)
    | Refinding(req: Req)
    | Responded(req: Req, ok: bool)
    /** The process died; it never responds. */
    | Lost(req: Req)

  /** A row of the action log, filed under its idempotency key. */
  datatype LogRow = LogRow(actionType: nat, target: Rid, recId: Option<Id>)

  /** A change applied to an object. */
  datatype Change = Change(key: Key, target: Rid, recId: Option<Id>)

  /**
   * Both services. `seen` and `decided` remember which recommendations were ever stored
   * and under which key each was decided, also after their rows are deleted; `changes`
   * lists every action that changed an object.
   */
  datatype Sys = Sys(
    rows: Table, callers: map<nat, Caller>, acts: map<nat, Act>, objects: map<Rid, nat>,
    log: map<Key, LogRow>, changes: seq<Change>, seen: set<Id>, decided: map<Id, Key>)

  const INIT := Sys(map[], map[], map[], map[], map[], [], {}, map[])

  /** The idempotency key of every execution attempt of a decision. */
  function ExecKey(key: Key): Key {
    key + ":0"
  }

  lemma ExecKeyInjective(a: Key, b: Key)
    requires ExecKey(a) == ExecKey(b)
    ensures a == b
  {
    assert a == ExecKey(a)[..|ExecKey(a)| - 2];
    assert b == ExecKey(b)[..|ExecKey(b)| - 2];
  }

  // --- Steps --------------------------------------------------------------------------------------

  /** Same key: the stored result, or a bounded re-execution. */
  function Replay(call: Call, rec: Rec): Caller {
    if CanRetryExecution(rec) || Stalled(rec) then Beginning(call) else Done(call, Shown(rec))
  }

  function Start(s: Sys, call: Call, now: int): Caller {
    if call.id !in s.rows then Done(call, Failed)
    else
      var rec := s.rows[call.id];
      if rec.decisionKey == Some(call.claim.key) then Replay(call, rec)
      else if rec.decisionKey.Some? then Done(call, Failed)
      else if IsDue(rec, now) then Expiring(call, now)
      else if rec.status != Proposed then Done(call, Failed)
      else Claiming(call, now)
  }

  function Recheck(s: Sys, call: Call): Caller {
    if call.id in s.rows && s.rows[call.id].decisionKey == Some(call.claim.key)
    then Replay(call, s.rows[call.id]) else Done(call, Failed)
  }

  function ClaimStep(s: Sys, k: nat, call: Call, now: int): Sys {
    var (rows, outcome) := ClaimDecision(s.rows, call.id, call.claim, now);
    match outcome
    case KeyConflict => s.(callers := s.callers[k := Done(call, Failed)])
    case NotClaimed => s.(callers := s.callers[k := Rechecking(call)])
    case Claimed =>
      s.(rows := rows, decided := s.decided[call.id := call.claim.key],
         callers := s.callers[k := if call.claim.confirm then Beginning(call) else Reading(call)])
  }

  function BeginStep(s: Sys, k: nat, call: Call): Sys {
    var (rows, started) := BeginExecution(s.rows, call.id, call.claim.key);
    s.(rows := rows, callers := s.callers[k := Loading(call, started)])
  }

  function FirstRanked(rec: Rec): nat {
    if rec.ranking == [] then 0 else rec.ranking[0]
  }

  /** Reads the record after `beginExecution` and, if it began, sends the action as process `act`. */
  function LoadStep(s: Sys, k: nat, call: Call, started: bool, act: nat): Sys {
    if call.id !in s.rows then s.(callers := s.callers[k := Done(call, Failed)])
    else
      var rec := s.rows[call.id];
      if !started then s.(callers := s.callers[k := Done(call, Shown(rec))])
      else
        match BestCandidate(rec)
        case None => s.(callers := s.callers[k := Finishing(call, Entry(FirstRanked(rec), false), rec.execution)])
        case Some(c) =>
          if act in s.acts then s
          else
            s.(acts := s.acts[act := Finding(Req(ExecKey(call.claim.key), c.actionType, c.target, Some(call.id)))],
               callers := s.callers[k := Waiting(call, act, c.id, rec.execution)])
  }

  /** The response of the action, or nothing yet. */
  function WaitStep(s: Sys, k: nat, c: Caller): Sys
    requires c.Waiting?
  {
    if c.act in s.acts && s.acts[c.act].Responded?
    then s.(callers := s.callers[k := Finishing(c.call, Entry(c.candidateId, s.acts[c.act].ok), c.prior)])
    else s
  }

  function FinishStep(s: Sys, k: nat, c: Caller): Sys
    requires c.Finishing?
  {
    s.(rows := FinishExecution(s.rows, c.call.id, c.entry.executed, c.prior + [c.entry]),
       callers := s.callers[k := Reading(c.call)])
  }

  function ReadStep(s: Sys, call: Call): Caller {
    if call.id in s.rows then Done(call, Shown(s.rows[call.id])) else Done(call, Failed)
  }

  /** The next await of caller `k`; `now` is the clock and `act` a fresh process number. */
  function CallerStep(s: Sys, k: nat, now: int, act: nat): Sys {
    if k !in s.callers then s
    else
      match s.callers[k]
      case Starting(call) => s.(callers := s.callers[k := Start(s, call, now)])
      case Expiring(call, at) =>
        s.(rows := ExpireDue(s.rows, at, Some(call.id)), callers := s.callers[k := Done(call, Failed)])
      case Claiming(call, at) => ClaimStep(s, k, call, at)
      case Rechecking(call) => s.(callers := s.callers[k := Recheck(s, call)])
      case Beginning(call) => BeginStep(s, k, call)
      case Loading(call, started) => LoadStep(s, k, call, started, act)
      case Waiting(_, _, _, _) => WaitStep(s, k, s.callers[k])
      case Finishing(_, _, _) => FinishStep(s, k, s.callers[k])
      case Reading(call) => s.(callers := s.callers[k := ReadStep(s, call)])
      case Done(_, _) => s
  }

  predicate Matches(row: LogRow, req: Req) {
    row.actionType == req.actionType && row.target == req.target
  }

  /** The log lookup by key: replayed, or refused when the key belongs to another request. */
  function Found(s: Sys, req: Req, missing: Act): Act {
    if req.key in s.log then Responded(req, Matches(s.log[req.key], req)) else missing
  }

  /** The guarded commit: stale, duplicate, or the change together with its log row. */
  function CommitStep(s: Sys, a: nat, req: Req, version: nat): Sys {
    if req.target !in s.objects || s.objects[req.target] != version then
      s.(acts := s.acts[a := Responded(req, false)])
    else if req.key in s.log then
      s.(acts := s.acts[a := Refinding(req)])
    else
      s.(acts := s.acts[a := Responded(req, true)],
         objects := s.objects[req.target := version + 1],
         log := s.log[req.key := LogRow(req.actionType, req.target, req.recId)],
         changes := s.changes + [Change(req.key, req.target, req.recId)])
  }

  /** The next await of action `a`; `pass` says whether its checks on target and parameters succeed. */
  function ActStep(s: Sys, a: nat, pass: bool): Sys {
    if a !in s.acts then s
    else
      match s.acts[a]
      case Finding(req) => s.(acts := s.acts[a := Found(s, req, Checking(req))])
      case Checking(req) =>
        s.(acts := s.acts[a := if pass && req.target in s.objects then Committing(req, s.objects[req.target])
                               else Responded(req, false)])
      case Committing(req, version) => CommitStep(s, a, req, version)
      case Refinding(req) => s.(acts := s.acts[a := Found(s, req, Responded(req, false))])
      case Responded(_, _) => s
      case Lost(_) => s
  }

  /** Everything that can happen. */
  datatype Event =
    | Insert(id: Id, ranking: seq<nat>, candidates: seq<Candidate>, expiresAt: int)
    | Decide(caller: nat, call: Call)
    | Caller(caller: nat, now: int, act: nat)
    /** The response of the action is lost, or its transport failed. */
    | Timeout(caller: nat)
    /** The invocation ends without reaching its next await. */
    | Crash(caller: nat)
    | Act(act: nat, pass: bool)
    | ActCrash(act: nat)
    /** An action sent by somebody else, under any key. */
    | Foreign(act: nat, key: Key, actionType: nat, target: Rid)
    | Expire(now: int, only: Option<Id>)
    | Clear
    /** Any other write to an object, or its creation. */
    | Touch(target: Rid)
    | ClearObjects

  function Next(s: Sys, e: Event): Sys {
    match e
    case Insert(id, ranking, candidates, expiresAt) =>
      if id in s.seen then s
      else s.(rows := s.rows[id := NewRec(ranking, candidates, expiresAt)], seen := s.seen + {id})
    case Decide(k, call) => if k in s.callers then s else s.(callers := s.callers[k := Starting(call)])
    case Caller(k, now, act) => CallerStep(s, k, now, act)
    case Timeout(k) =>
      if k in s.callers && s.callers[k].Waiting? then
        var c := s.callers[k];
        s.(callers := s.callers[k := Finishing(c.call, Entry(c.candidateId, false), c.prior)])
      else s
    case Crash(k) => s.(callers := s.callers - {k})
    case Act(a, pass) => ActStep(s, a, pass)
    case ActCrash(a) => if a in s.acts then s.(acts := s.acts[a := Lost(s.acts[a].req)]) else s
    case Foreign(a, key, actionType, target) =>
      if a in s.acts then s else s.(acts := s.acts[a := Finding(Req(key, actionType, target, None))])
    case Expire(now, only) => s.(rows := ExpireDue(s.rows, now, only))
    case Clear => s.(rows := DeleteUnexecuted(s.rows))
    case Touch(target) =>
      s.(objects := s.objects[target := if target in s.objects then s.objects[target] + 1 else 1])
    case ClearObjects => s.(objects := map[])
  }

  function Run(s: Sys, es: seq<Event>): Sys {
    if es == [] then s else Next(Run(s, es[..|es| - 1]), es[|es| - 1])
  }

  // --- What holds in every reachable state -------------------------------------------------------------

  /** Between a successful `beginExecution` and `finishExecution`. */
  predicate InFlight(c: Caller) {
    (c.Loading? && c.started) || c.Waiting? || c.Finishing?
  }

  ghost predicate RowsKnown(s: Sys) {
    && s.rows.Keys <= s.seen && s.decided.Keys <= s.seen
    && (forall id :: id in s.rows ==>
          (s.rows[id].decisionKey.Some? ==> id in s.decided && s.decided[id] == s.rows[id].decisionKey.value)
          && (id in s.decided ==> s.rows[id].decisionKey.Some?))
  }

  /** An attempt is under way on the row, if the row still exists. */
  ghost predicate Underway(s: Sys, id: Id) {
    id in s.rows ==> s.rows[id].status == Confirmed && s.rows[id].execAttempts >= 1
  }

  ghost predicate Attempted(s: Sys, id: Id) {
    id in s.rows ==> s.rows[id].execAttempts >= 1
  }

  /** The request is the one that every attempt on its recommendation sends. */
  ghost predicate Derived(s: Sys, key: Key, actionType: nat, target: Rid, id: Id) {
    && id in s.decided && key == ExecKey(s.decided[id])
    && Attempted(s, id)
    && (id in s.rows ==>
          var c := BestCandidate(s.rows[id]); c.Some? && c.value.actionType == actionType && c.value.target == target)
  }

  /** The log holds, under the derived key, the action of the best candidate. */
  ghost predicate Logged(s: Sys, id: Id) {
    && id in s.decided && ExecKey(s.decided[id]) in s.log
    && (id in s.rows ==>
          var c := BestCandidate(s.rows[id]);
          c.Some? && c.value.actionType == s.log[ExecKey(s.decided[id])].actionType
          && c.value.target == s.log[ExecKey(s.decided[id])].target)
  }

  ghost predicate CallerOk(s: Sys, c: Caller) {
    InFlight(c) ==>
      && c.call.id in s.decided && s.decided[c.call.id] == c.call.claim.key
      && Underway(s, c.call.id)
      && (c.Waiting? ==> c.act in s.acts && s.acts[c.act].req.recId == Some(c.call.id))
      && (c.Finishing? && c.entry.executed ==> Logged(s, c.call.id))
  }

  ghost predicate ActOk(s: Sys, a: Act) {
    && (a.req.recId.Some? ==> Derived(s, a.req.key, a.req.actionType, a.req.target, a.req.recId.value))
    && (a.Responded? && a.ok ==> a.req.key in s.log && Matches(s.log[a.req.key], a.req))
  }

  ghost predicate LogOk(s: Sys) {
    forall key :: key in s.log && s.log[key].recId.Some? ==>
      Derived(s, key, s.log[key].actionType, s.log[key].target, s.log[key].recId.value)
  }

  ghost predicate ChangesOk(s: Sys) {
    && (forall i :: 0 <= i < |s.changes| ==>
          && s.changes[i].key in s.log
          && s.log[s.changes[i].key].target == s.changes[i].target
          && s.log[s.changes[i].key].recId == s.changes[i].recId)
    && (forall i, j :: 0 <= i < j < |s.changes| ==> s.changes[i].key != s.changes[j].key)
  }

  ghost predicate OneInFlight(s: Sys) {
    forall a, b :: a in s.callers && b in s.callers && a != b && InFlight(s.callers[a]) && InFlight(s.callers[b])
      ==> s.callers[a].call.id != s.callers[b].call.id
  }

  ghost predicate ExecutedLogged(s: Sys) {
    forall id :: id in s.rows && s.rows[id].status == Executed ==> Logged(s, id)
  }

  ghost predicate CallersOk(s: Sys) {
    forall k :: k in s.callers ==> CallerOk(s, s.callers[k])
  }

  ghost predicate ActsOk(s: Sys) {
    forall a :: a in s.acts ==> ActOk(s, s.acts[a])
  }

  ghost predicate Inv(s: Sys) {
    && TableOk(s.rows) && RowsKnown(s) && CallersOk(s) && ActsOk(s)
    && LogOk(s) && ChangesOk(s) && OneInFlight(s) && ExecutedLogged(s)
  }

  // --- Frames -------------------------------------------------------------------------------------------

  /** What every step keeps of the past. */
  ghost predicate Grows(s: Sys, t: Sys) {
    && s.seen <= t.seen
    && (forall id :: id in t.rows ==> id in s.rows || id !in s.seen)
    && TableEvolves(s.rows, t.rows)
    && (forall id :: id in s.decided ==> id in t.decided && t.decided[id] == s.decided[id])
    && (forall key :: key in s.log ==> key in t.log && t.log[key] == s.log[key])
    && s.changes <= t.changes
  }

  lemma DerivedKept(s: Sys, t: Sys, key: Key, actionType: nat, target: Rid, id: Id)
    requires RowsKnown(s) && Grows(s, t) && Derived(s, key, actionType, target, id)
    ensures Derived(t, key, actionType, target, id)
  {
    hide ExecKey;
    if id in t.rows {
      assert id in s.rows && Evolves(s.rows[id], t.rows[id]);
    }
  }

  lemma LoggedKept(s: Sys, t: Sys, id: Id)
    requires RowsKnown(s) && Grows(s, t) && Logged(s, id)
    ensures Logged(t, id)
  {
    hide ExecKey;
    if id in t.rows {
      assert id in s.rows && Evolves(s.rows[id], t.rows[id]);
    }
  }

  /** The table changes under callers and actions that stay where they are. */
  ghost predicate TableStep(s: Sys, t: Sys) {
    && t == s.(rows := t.rows, seen := t.seen, decided := t.decided, objects := t.objects)
    && Grows(s, t) && TableOk(t.rows) && RowsKnown(t)
    && (forall k :: k in s.callers && InFlight(s.callers[k]) ==> Underway(t, s.callers[k].call.id))
    && (forall id :: id in t.rows && t.rows[id].status == Executed ==>
          (id in s.rows && s.rows[id].status == Executed) || Logged(s, id))
  }

  /** A table step from what it does to the rows. */
  lemma MakeTableStep(s: Sys, t: Sys)
    requires CallersOk(s) && RowsKnown(t) && TableOk(t.rows) && TableEvolves(s.rows, t.rows)
    requires t == s.(rows := t.rows, decided := t.decided, seen := t.seen) && s.seen <= t.seen
    requires forall id :: id in t.rows ==> id in s.rows || id !in s.seen
    requires forall id :: id in s.decided ==> id in t.decided && t.decided[id] == s.decided[id]
    requires forall k :: k in s.callers && InFlight(s.callers[k]) && Underway(s, s.callers[k].call.id) ==> Underway(t, s.callers[k].call.id)
    requires forall id :: id in t.rows && t.rows[id].status == Executed ==>
      (id in s.rows && s.rows[id].status == Executed) || Logged(s, id)
    ensures TableStep(s, t)
  {
    hide RowsKnown, TableOk, TableEvolves, Logged, Underway;
    forall k | k in s.callers && InFlight(s.callers[k]) ensures Underway(t, s.callers[k].call.id) {
      assert CallerOk(s, s.callers[k]);
    }
  }

  lemma TableStepKeeps(s: Sys, t: Sys)
    requires Inv(s) && TableStep(s, t)
    ensures Inv(t)
  {
    hide Derived, Logged, TableOk, TableEvolves, Underway;
    forall k | k in t.callers ensures CallerOk(t, t.callers[k]) {
      assert CallerOk(s, s.callers[k]);
      if s.callers[k].Finishing? && s.callers[k].entry.executed {
        LoggedKept(s, t, s.callers[k].call.id);
      }
    }
    forall a | a in t.acts ensures ActOk(t, t.acts[a]) {
      assert ActOk(s, s.acts[a]);
      var req := s.acts[a].req;
      if req.recId.Some? {
        DerivedKept(s, t, req.key, req.actionType, req.target, req.recId.value);
      }
    }
    forall key | key in t.log && t.log[key].recId.Some?
      ensures Derived(t, key, t.log[key].actionType, t.log[key].target, t.log[key].recId.value)
    {
      DerivedKept(s, t, key, s.log[key].actionType, s.log[key].target, s.log[key].recId.value);
    }
    forall id | id in t.rows && t.rows[id].status == Executed ensures Logged(t, id) {
      LoggedKept(s, t, id);
    }
  }

  lemma CallerMoves(s: Sys, k: nat, c: Caller)
    requires Inv(s) && CallerOk(s, c)
    requires InFlight(c) ==> forall b :: b in s.callers && b != k && InFlight(s.callers[b]) ==> s.callers[b].call.id != c.call.id
    ensures Inv(s.(callers := s.callers[k := c]))
  {
    hide TableOk, BestCandidate, ExecKey;
    var t := s.(callers := s.callers[k := c]);
    forall b | b in t.callers ensures CallerOk(t, t.callers[b]) {
      if b != k {
        assert CallerOk(s, s.callers[b]);
      }
    }
    forall a | a in t.acts ensures ActOk(t, t.acts[a]) {
      assert ActOk(s, s.acts[a]);
    }
  }

  lemma CallerLeaves(s: Sys, k: nat)
    requires Inv(s)
    ensures Inv(s.(callers := s.callers - {k}))
  {
    hide TableOk, BestCandidate, ExecKey;
    var t := s.(callers := s.callers - {k});
    forall b | b in t.callers ensures CallerOk(t, t.callers[b]) {
      assert CallerOk(s, s.callers[b]);
    }
    forall a | a in t.acts ensures ActOk(t, t.acts[a]) {
      assert ActOk(s, s.acts[a]);
    }
  }

  lemma ActMoves(s: Sys, a: nat, act: Act)
    requires Inv(s) && ActOk(s, act)
    requires forall k :: k in s.callers && s.callers[k].Waiting? && s.callers[k].act == a ==>
      act.req.recId == Some(s.callers[k].call.id)
    ensures Inv(s.(acts := s.acts[a := act]))
  {
    hide TableOk, BestCandidate, ExecKey;
    var t := s.(acts := s.acts[a := act]);
    forall b | b in t.callers ensures CallerOk(t, t.callers[b]) {
      assert CallerOk(s, s.callers[b]);
    }
    forall b | b in t.acts ensures ActOk(t, t.acts[b]) {
      if b != a {
        assert ActOk(s, s.acts[b]);
      }
    }
  }

  // --- The steps of a caller -----------------------------------------------------------------------------

  lemma StartKeeps(s: Sys, k: nat, call: Call, now: int)
    requires Inv(s)
    ensures Inv(s.(callers := s.callers[k := Start(s, call, now)]))
  {
    hide Inv;
    CallerMoves(s, k, Start(s, call, now));
  }

  lemma ExpireStepKeeps(s: Sys, now: int, only: Option<Id>)
    requires Inv(s)
    ensures Inv(s.(rows := ExpireDue(s.rows, now, only)))
  {
    var t := s.(rows := ExpireDue(s.rows, now, only));
    ExpireKeeps(s.rows, now, only);
    hide TableOk, ExpireDue, LogOk, ActsOk, ChangesOk, ExecutedLogged, OneInFlight;
    forall k | k in s.callers && InFlight(s.callers[k]) ensures Underway(t, s.callers[k].call.id) {
      assert CallerOk(s, s.callers[k]);
    }
    TableStepKeeps(s, t);
  }

  lemma ClaimStepKeeps(s: Sys, k: nat, call: Call, now: int)
    requires Inv(s)
    ensures Inv(ClaimStep(s, k, call, now))
  {
    var (rows, outcome) := ClaimDecision(s.rows, call.id, call.claim, now);
    if outcome == Claimed {
      var t := s.(rows := rows, decided := s.decided[call.id := call.claim.key]);
      ClaimKeeps(s.rows, call.id, call.claim, now);
      ClaimedFacts(s, call, now);
      hide Inv;
      TableStepKeeps(s, t);
      CallerMoves(t, k, if call.claim.confirm then Beginning(call) else Reading(call));
    } else {
      hide Inv;
      CallerMoves(s, k, if outcome == KeyConflict then Done(call, Failed) else Rechecking(call));
    }
  }

  lemma ClaimedFacts(s: Sys, call: Call, now: int)
    requires Inv(s) && ClaimDecision(s.rows, call.id, call.claim, now).1 == Claimed
    ensures TableStep(s, s.(rows := ClaimDecision(s.rows, call.id, call.claim, now).0,
                            decided := s.decided[call.id := call.claim.key]))
  {
    ClaimKeeps(s.rows, call.id, call.claim, now);
    var t := s.(rows := ClaimDecision(s.rows, call.id, call.claim, now).0, decided := s.decided[call.id := call.claim.key]);
    ClaimedRow(s, call, now);
    assert CallersOk(s);
    hide TableOk, TableEvolves, ClaimDecision, RowsKnown, Inv, TableStep, CallersOk, InFlight, Logged;
    MakeTableStep(s, t);
  }

  /** A claim decides one undecided row and touches no other. */
  lemma ClaimedRow(s: Sys, call: Call, now: int)
    requires Inv(s) && ClaimDecision(s.rows, call.id, call.claim, now).1 == Claimed
    ensures var rows := ClaimDecision(s.rows, call.id, call.claim, now).0;
      && call.id in s.rows && call.id !in s.decided
      && rows.Keys == s.rows.Keys
      && s.rows[call.id].status == Proposed && rows[call.id].status != Executed
      && (forall k :: k in s.rows && k != call.id ==> rows[k] == s.rows[k])
      && RowsKnown(s.(rows := rows, decided := s.decided[call.id := call.claim.key]))
  {
    hide TableOk, LogOk, ActsOk, ChangesOk, ExecutedLogged, OneInFlight, CallersOk, KeyTaken;
  }

  lemma BeginStepKeeps(s: Sys, k: nat, call: Call)
    requires Inv(s)
    ensures Inv(BeginStep(s, k, call))
  {
    var (rows, started) := BeginExecution(s.rows, call.id, call.claim.key);
    if started {
      var t := s.(rows := rows);
      NoneInFlight(s, call.id, call.claim.key);
      BegunFacts(s, call);
      TableStepKeeps(s, t);
      hide Inv, TableStep, CallerOk;
      CallerMoves(t, k, Loading(call, true));
    } else {
      hide Inv;
      CallerMoves(s, k, Loading(call, false));
    }
  }

  /** A row that may begin has nobody in flight. */
  lemma NoneInFlight(s: Sys, id: Id, key: Key)
    requires Inv(s) && Beginnable(s.rows, id, key)
    ensures forall k :: k in s.callers && InFlight(s.callers[k]) ==> s.callers[k].call.id != id
  {
    forall k | k in s.callers && InFlight(s.callers[k]) ensures s.callers[k].call.id != id {
      assert CallerOk(s, s.callers[k]);
    }
  }

  lemma BegunFacts(s: Sys, call: Call)
    requires Inv(s)
    ensures TableStep(s, s.(rows := BeginExecution(s.rows, call.id, call.claim.key).0))
    ensures BeginExecution(s.rows, call.id, call.claim.key).1 ==>
      CallerOk(s.(rows := BeginExecution(s.rows, call.id, call.claim.key).0), Loading(call, true))
  {
    BeginKeeps(s.rows, call.id, call.claim.key);
    BegunRow(s, call);
    hide TableOk, TableEvolves, RowsKnown, Inv, TableStep, CallersOk, InFlight, Logged, BeginExecution, Underway;
    MakeTableStep(s, s.(rows := BeginExecution(s.rows, call.id, call.claim.key).0));
  }

  /** What beginning an attempt does to the row. */
  lemma BegunRow(s: Sys, call: Call)
    requires Inv(s)
    ensures CallersOk(s)
    ensures var t := s.(rows := BeginExecution(s.rows, call.id, call.claim.key).0);
      && RowsKnown(t)
      && (forall id :: Underway(s, id) ==> Underway(t, id))
      && (forall id :: id in t.rows && t.rows[id].status == Executed ==> id in s.rows && s.rows[id].status == Executed)
      && (BeginExecution(s.rows, call.id, call.claim.key).1 ==> CallerOk(t, Loading(call, true)))
  {
    hide TableOk, LogOk, ActsOk, ChangesOk, ExecutedLogged, OneInFlight, CallersOk;
  }

  lemma LoadStepKeeps(s: Sys, k: nat, act: nat)
    requires Inv(s) && k in s.callers && s.callers[k].Loading?
    ensures Inv(LoadStep(s, k, s.callers[k].call, s.callers[k].started, act))
  {
    var c := s.callers[k];
    var call, started := c.call, c.started;
    assert CallerOk(s, c);
    if call.id !in s.rows || !started {
      hide Inv;
      CallerMoves(s, k, if call.id in s.rows then Done(call, Shown(s.rows[call.id])) else Done(call, Failed));
    } else {
      var rec := s.rows[call.id];
      OthersApart(s, k);
      match BestCandidate(rec)
      case None =>
        hide Inv;
        CallerMoves(s, k, Finishing(call, Entry(FirstRanked(rec), false), rec.execution));
      case Some(best) =>
        if act !in s.acts {
          var req := Req(ExecKey(call.claim.key), best.actionType, best.target, Some(call.id));
          assert ActOk(s, Finding(req));
          NobodyWaits(s, act);
          ActMoves(s, act, Finding(req));
          var t := s.(acts := s.acts[act := Finding(req)]);
          assert CallerOk(t, Waiting(call, act, best.id, rec.execution));
          hide Inv, CallerOk;
          CallerMoves(t, k, Waiting(call, act, best.id, rec.execution));
        }
    }
  }

  lemma OthersApart(s: Sys, k: nat)
    requires Inv(s) && k in s.callers && InFlight(s.callers[k])
    ensures forall b :: b in s.callers && b != k && InFlight(s.callers[b]) ==> s.callers[b].call.id != s.callers[k].call.id
  {
  }

  lemma NobodyWaits(s: Sys, act: nat)
    requires Inv(s) && act !in s.acts
    ensures forall k :: k in s.callers && s.callers[k].Waiting? ==> s.callers[k].act != act
  {
    forall k | k in s.callers && s.callers[k].Waiting? ensures s.callers[k].act != act {
      assert CallerOk(s, s.callers[k]);
    }
  }

  /** The response that caller `k` waits for makes its outcome: executed only if logged. */
  lemma WaitStepKeeps(s: Sys, k: nat)
    requires Inv(s) && k in s.callers && s.callers[k].Waiting?
    ensures Inv(WaitStep(s, k, s.callers[k]))
  {
    var c := s.callers[k];
    assert CallerOk(s, c);
    OthersApart(s, k);
    if c.act in s.acts && s.acts[c.act].Responded? {
      assert ActOk(s, s.acts[c.act]);
      var next := Finishing(c.call, Entry(c.candidateId, s.acts[c.act].ok), c.prior);
      assert CallerOk(s, next);
      hide Inv, CallerOk;
      CallerMoves(s, k, next);
    }
  }

  lemma TimeoutKeeps(s: Sys, k: nat)
    requires Inv(s)
    ensures Inv(Next(s, Timeout(k)))
  {
    if k in s.callers && s.callers[k].Waiting? {
      var c := s.callers[k];
      assert CallerOk(s, c);
      OthersApart(s, k);
      var next := Finishing(c.call, Entry(c.candidateId, false), c.prior);
      hide Inv;
      CallerMoves(s, k, next);
    }
  }

  lemma FinishStepKeeps(s: Sys, k: nat)
    requires Inv(s) && k in s.callers && s.callers[k].Finishing?
    ensures Inv(FinishStep(s, k, s.callers[k]))
  {
    var c := s.callers[k];
    var mid := s.(callers := s.callers[k := Reading(c.call)]);
    assert CallerOk(s, c);
    OthersApart(s, k);
    CallerMoves(s, k, Reading(c.call));
    FinishRow(s, c);
    FinishInv(s, mid, k, c);
  }

  ghost predicate FinishedRow(s: Sys, c: Caller, rows: Table)
    requires c.Finishing?
  {
    && TableOk(rows) && rows.Keys == s.rows.Keys
    && (forall id :: id in s.rows && id != c.call.id ==> rows[id] == s.rows[id])
    && (c.call.id in s.rows ==>
          && Evolves(s.rows[c.call.id], rows[c.call.id])
          && rows[c.call.id].decisionKey == s.rows[c.call.id].decisionKey
          && rows[c.call.id].status == if c.entry.executed then Executed else ExecFailed)
  }

  lemma FinishRow(s: Sys, c: Caller)
    requires Inv(s) && c.Finishing? && CallerOk(s, c)
    ensures FinishedRow(s, c, FinishExecution(s.rows, c.call.id, c.entry.executed, c.prior + [c.entry]))
  {
    FinishKeeps(s.rows, c.call.id, c.entry.executed, c.prior + [c.entry]);
  }

  /** With its caller past the statement, the finished row may leave `Confirmed`. */
  lemma FinishInv(s: Sys, mid: Sys, k: nat, c: Caller)
    requires Inv(s) && k in s.callers && s.callers[k] == c && c.Finishing?
    requires mid == s.(callers := s.callers[k := Reading(c.call)]) && Inv(mid)
    requires FinishedRow(s, c, FinishExecution(s.rows, c.call.id, c.entry.executed, c.prior + [c.entry]))
    ensures Inv(FinishStep(s, k, c))
  {
    var t := mid.(rows := FinishExecution(s.rows, c.call.id, c.entry.executed, c.prior + [c.entry]));
    assert t == FinishStep(s, k, c);
    FinishFacts(s, mid, k, c, t.rows);
    hide *;
    MakeTableStep(mid, t);
    TableStepKeeps(mid, t);
  }

  lemma FinishFacts(s: Sys, mid: Sys, k: nat, c: Caller, rows: Table)
    requires Inv(s) && k in s.callers && s.callers[k] == c && c.Finishing?
    requires mid == s.(callers := s.callers[k := Reading(c.call)]) && Inv(mid) && FinishedRow(s, c, rows)
    ensures var t := mid.(rows := rows);
      && CallersOk(mid) && RowsKnown(t) && TableOk(t.rows) && TableEvolves(mid.rows, t.rows)
      && mid.seen <= t.seen && (forall id :: id in t.rows ==> id in mid.rows)
      && (forall id :: id in mid.decided ==> id in t.decided && t.decided[id] == mid.decided[id])
      && (forall b :: b in mid.callers && InFlight(mid.callers[b]) && Underway(mid, mid.callers[b].call.id) ==>
            Underway(t, mid.callers[b].call.id))
      && (forall id :: id in t.rows && t.rows[id].status == Executed ==>
            (id in mid.rows && mid.rows[id].status == Executed) || Logged(mid, id))
  {
    hide TableOk, BestCandidate, ExecKey, LogOk, ActsOk, ChangesOk, ExecutedLogged, CallersOk;
    assert CallerOk(s, c) by { assert CallersOk(s); CallerOkAt(s, k); }
    forall b | b in mid.callers && InFlight(mid.callers[b]) ensures mid.callers[b].call.id != c.call.id {
      assert b != k;
    }
  }

  lemma CallerOkAt(s: Sys, k: nat)
    requires CallersOk(s) && k in s.callers
    ensures CallerOk(s, s.callers[k])
  {
  }

  lemma CallerStepKeeps(s: Sys, k: nat, now: int, act: nat)
    requires Inv(s)
    ensures Inv(CallerStep(s, k, now, act))
  {
    hide Inv, ClaimStep, BeginStep, LoadStep, WaitStep, FinishStep, ExpireDue;
    if k in s.callers {
      match s.callers[k]
      case Starting(call) => StartKeeps(s, k, call, now);
      case Expiring(call, at) =>
        ExpireStepKeeps(s, at, Some(call.id));
        CallerMoves(s.(rows := ExpireDue(s.rows, at, Some(call.id))), k, Done(call, Failed));
      case Claiming(call, at) => ClaimStepKeeps(s, k, call, at);
      case Rechecking(call) => CallerMoves(s, k, Recheck(s, call));
      case Beginning(call) => BeginStepKeeps(s, k, call);
      case Loading(call, started) => LoadStepKeeps(s, k, act);
      case Waiting(_, _, _, _) => WaitStepKeeps(s, k);
      case Finishing(_, _, _) => FinishStepKeeps(s, k);
      case Reading(call) => CallerMoves(s, k, ReadStep(s, call));
      case Done(_, _) =>
    }
  }

  // --- The steps of an action ----------------------------------------------------------------------------------

  /** Whoever waits for an action waits for its recommendation. */
  lemma WaitersMatch(s: Sys, a: nat)
    requires Inv(s) && a in s.acts
    ensures forall k :: k in s.callers && s.callers[k].Waiting? && s.callers[k].act == a ==>
      s.acts[a].req.recId == Some(s.callers[k].call.id)
  {
    forall k | k in s.callers && s.callers[k].Waiting? && s.callers[k].act == a
      ensures s.acts[a].req.recId == Some(s.callers[k].call.id)
    {
      assert CallerOk(s, s.callers[k]);
    }
  }

  /** An action may take any next state of its own request that reports success only when logged. */
  lemma ActAdvances(s: Sys, a: nat, act: Act)
    requires Inv(s) && a in s.acts && act.req == s.acts[a].req
    requires act.Responded? && act.ok ==> act.req.key in s.log && Matches(s.log[act.req.key], act.req)
    ensures Inv(s.(acts := s.acts[a := act]))
  {
    assert ActOk(s, s.acts[a]);
    WaitersMatch(s, a);
    assert ActOk(s, act);
    hide Inv, ActOk;
    ActMoves(s, a, act);
  }

  lemma CommitKeeps(s: Sys, a: nat)
    requires Inv(s) && a in s.acts && s.acts[a].Committing?
    ensures Inv(CommitStep(s, a, s.acts[a].req, s.acts[a].version))
  {
    var req, version := s.acts[a].req, s.acts[a].version;
    if req.target !in s.objects || s.objects[req.target] != version {
      hide Inv;
      ActAdvances(s, a, Responded(req, false));
    } else if req.key in s.log {
      hide Inv;
      ActAdvances(s, a, Refinding(req));
    } else {
      assert ActOk(s, s.acts[a]);
      LogKeeps(s, req);
      var t := Logs(s, req);
      hide Inv, Logs;
      ActAdvances(t, a, Responded(req, true));
    }
  }

  /** The part of a successful commit that is not the action's own state. */
  function Logs(s: Sys, req: Req): (t: Sys)
    requires req.key !in s.log && req.target in s.objects
    ensures t.acts == s.acts && t.callers == s.callers
    ensures req.key in t.log && Matches(t.log[req.key], req)
  {
    s.(objects := s.objects[req.target := s.objects[req.target] + 1],
       log := s.log[req.key := LogRow(req.actionType, req.target, req.recId)],
       changes := s.changes + [Change(req.key, req.target, req.recId)])
  }

  lemma LogKeeps(s: Sys, req: Req)
    requires Inv(s) && req.key !in s.log && req.target in s.objects
    requires req.recId.Some? ==> Derived(s, req.key, req.actionType, req.target, req.recId.value)
    ensures Inv(Logs(s, req))
  {
    var t := Logs(s, req);
    hide TableOk, BestCandidate, ExecKey;
    forall k | k in t.callers ensures CallerOk(t, t.callers[k]) {
      assert CallerOk(s, s.callers[k]);
    }
    forall a | a in t.acts ensures ActOk(t, t.acts[a]) {
      assert ActOk(s, s.acts[a]);
    }
    forall id | id in t.rows && t.rows[id].status == Executed ensures Logged(t, id) {
      assert Logged(s, id);
    }
  }

  lemma ActStepKeeps(s: Sys, a: nat, pass: bool)
    requires Inv(s)
    ensures Inv(ActStep(s, a, pass))
  {
    hide Inv, CommitStep, Matches;
    if a in s.acts {
      match s.acts[a]
      case Finding(req) => ActAdvances(s, a, Found(s, req, Checking(req)));
      case Checking(req) =>
        ActAdvances(s, a, if pass && req.target in s.objects then Committing(req, s.objects[req.target])
                          else Responded(req, false));
      case Committing(req, version) => CommitKeeps(s, a);
      case Refinding(req) => ActAdvances(s, a, Found(s, req, Responded(req, false)));
      case Responded(_, _) =>
      case Lost(_) =>
    }
  }

  // --- The steps of the environment --------------------------------------------------------------------------------

  lemma InsertKeeps(s: Sys, id: Id, ranking: seq<nat>, candidates: seq<Candidate>, expiresAt: int)
    requires Inv(s) && id !in s.seen
    ensures Inv(s.(rows := s.rows[id := NewRec(ranking, candidates, expiresAt)], seen := s.seen + {id}))
  {
    var t := s.(rows := s.rows[id := NewRec(ranking, candidates, expiresAt)], seen := s.seen + {id});
    InsertedRow(s, id, ranking, candidates, expiresAt);
    hide Inv, TableStep, TableOk, TableEvolves, RowsKnown, CallersOk, InFlight, Logged, NewRec;
    MakeTableStep(s, t);
    TableStepKeeps(s, t);
  }

  lemma InsertedRow(s: Sys, id: Id, ranking: seq<nat>, candidates: seq<Candidate>, expiresAt: int)
    requires Inv(s) && id !in s.seen
    ensures var rows := s.rows[id := NewRec(ranking, candidates, expiresAt)];
      && CallersOk(s) && id !in s.rows && rows[id].status == Proposed
      && RowsKnown(s.(rows := rows, seen := s.seen + {id})) && TableOk(rows) && TableEvolves(s.rows, rows)
      && forall k :: k in s.callers && InFlight(s.callers[k]) ==> s.callers[k].call.id != id
  {
    hide LogOk, ActsOk, ChangesOk, ExecutedLogged, OneInFlight;
    forall k | k in s.callers && InFlight(s.callers[k]) ensures s.callers[k].call.id != id {
      assert CallerOk(s, s.callers[k]);
    }
  }

  lemma ClearKeeps(s: Sys)
    requires Inv(s)
    ensures Inv(s.(rows := DeleteUnexecuted(s.rows)))
  {
    var t := s.(rows := DeleteUnexecuted(s.rows));
    DeleteKeeps(s.rows);
    hide LogOk, ActsOk, ChangesOk, ExecutedLogged, OneInFlight, TableOk;
    forall k | k in s.callers && InFlight(s.callers[k]) ensures Underway(t, s.callers[k].call.id) {
      assert CallerOk(s, s.callers[k]);
    }
    TableStepKeeps(s, t);
  }

  lemma ObjectsKeep(s: Sys, objects: map<Rid, nat>)
    requires Inv(s)
    ensures Inv(s.(objects := objects))
  {
    var t := s.(objects := objects);
    hide LogOk, ActsOk, ChangesOk, ExecutedLogged, OneInFlight, TableOk;
    forall k | k in s.callers && InFlight(s.callers[k]) ensures Underway(t, s.callers[k].call.id) {
      assert CallerOk(s, s.callers[k]);
    }
    TableStepKeeps(s, t);
  }

  lemma ForeignKeeps(s: Sys, a: nat, req: Req)
    requires Inv(s) && a !in s.acts && req.recId.None?
    ensures Inv(s.(acts := s.acts[a := Finding(req)]))
  {
    NobodyWaits(s, a);
    hide Inv;
    ActMoves(s, a, Finding(req));
  }

  lemma DecideKeeps(s: Sys, k: nat, call: Call)
    requires Inv(s)
    ensures Inv(s.(callers := s.callers[k := Starting(call)]))
  {
    hide Inv;
    CallerMoves(s, k, Starting(call));
  }

  lemma NextKeeps(s: Sys, e: Event)
    requires Inv(s)
    ensures Inv(Next(s, e))
  {
    hide Inv, CallerStep, ActStep, ExpireDue, DeleteUnexecuted, NewRec;
    match e
    case Insert(id, ranking, candidates, expiresAt) =>
      if id !in s.seen {
        InsertKeeps(s, id, ranking, candidates, expiresAt);
      }
    case Decide(k, call) => DecideKeeps(s, k, call);
    case Caller(k, now, act) => CallerStepKeeps(s, k, now, act);
    case Timeout(k) => TimeoutKeeps(s, k);
    case Crash(k) => CallerLeaves(s, k);
    case Act(a, pass) => ActStepKeeps(s, a, pass);
    case ActCrash(a) =>
      if a in s.acts {
        ActAdvances(s, a, Lost(s.acts[a].req));
      }
    case Foreign(a, key, actionType, target) =>
      if a !in s.acts {
        ForeignKeeps(s, a, Req(key, actionType, target, None));
      }
    case Expire(now, only) => ExpireStepKeeps(s, now, only);
    case Clear => ClearKeeps(s);
    case Touch(target) =>
      ObjectsKeep(s, s.objects[target := if target in s.objects then s.objects[target] + 1 else 1]);
    case ClearObjects => ObjectsKeep(s, map[]);
  }

  /** The invariant holds after any run, from the empty system. */
  lemma {:induction false} AlwaysInv(es: seq<Event>)
    ensures Inv(Run(INIT, es))
  {
    hide Next;
    if es == [] {
    } else {
      AlwaysInv(es[..|es| - 1]);
      hide Inv;
      NextKeeps(Run(INIT, es[..|es| - 1]), es[|es| - 1]);
    }
  }
}
