/**
 * Deciding a recommendation as the service does it (recommendations.ts, apply_action.ts), await by
 * await on the repository and on the action service: undisturbed, a call is a run of the protocol.
 */
module DecisionService {
  import opened Common
  import opened DecisionTable
  import opened DecisionProtocol

  /** What the action service stores: object versions, the log by key, and what was changed. */
  datatype Store = Store(objects: map<Rid, nat>, log: map<Key, LogRow>, changes: seq<Change>)

  /** One undisturbed action request: replayed by key, refused, or committed with its log row. */
  function Applied(s: Store, req: Req, pass: bool): (Store, bool) {
    if req.key in s.log then (s, Matches(s.log[req.key], req))
    else if !pass || req.target !in s.objects then (s, false)
    else
      (Store(s.objects[req.target := s.objects[req.target] + 1], s.log[req.key := LogRow(req.actionType, req.target, req.recId)],
             s.changes + [Change(req.key, req.target, req.recId)]), true)
  }

  class ActionService {
    var objects: map<Rid, nat>
    var log: map<Key, LogRow>
    var changes: seq<Change>

    ghost function Stored(): Store
      reads this
    {
      Store(objects, log, changes)
    }

    constructor ()
      ensures Stored() == Store(map[], map[], [])
    {
      objects, log, changes := map[], map[], [];
    }

    /** `pass` says whether the checks on target and parameters succeed. */
    method ApplyAction(req: Req, pass: bool) returns (ok: bool)
      modifies this
      ensures (Stored(), ok) == Applied(old(Stored()), req, pass)
    {
      if req.key in log {
        return Matches(log[req.key], req);
      }
      if !pass || req.target !in objects {
        return false;
      }
      var version := objects[req.target];
      objects := objects[req.target := version + 1];
      log := log[req.key := LogRow(req.actionType, req.target, req.recId)];
      changes := changes + [Change(req.key, req.target, req.recId)];
      return true;
    }
  }

  // --- The protocol that the calls run ----------------------------------------------------------

  function StoreOf(s: Sys): Store {
    Store(s.objects, s.log, s.changes)
  }

  function WithStore(s: Sys, t: Store): Sys {
    s.(objects := t.objects, log := t.log, changes := t.changes)
  }

  lemma RunOne(s: Sys, es: seq<Event>, e: Event)
    ensures Run(s, es + [e]) == Next(Run(s, es), e)
  {
    assert (es + [e])[..|es|] == es;
  }

  /** The awaits of one undisturbed action request. */
  lemma ApplyIsRun(s: Sys, es: seq<Event>, a: nat, req: Req, pass: bool) returns (fs: seq<Event>)
    requires var w := Run(s, es); a in w.acts && w.acts[a] == Finding(req)
    ensures var w, (t, ok) := Run(s, es), Applied(StoreOf(Run(s, es)), req, pass);
      Run(s, fs) == WithStore(w, t).(acts := w.acts[a := Responded(req, ok)])
  {
    var w := Run(s, es);
    var e := Act(a, pass);
    RunOne(s, es, e);
    hide Run;
    fs := es + [e];
    if req.key !in w.log {
      assert Next(w, e) == w.(acts := w.acts[a := Checking(req)]);
      RunOne(s, fs, e);
      fs := fs + [e];
      if pass && req.target in w.objects {
        var version := w.objects[req.target];
        assert Run(s, fs) == w.(acts := w.acts[a := Committing(req, version)]);
        RunOne(s, fs, e);
        fs := fs + [e];
      }
    }
  }

  /** A call of the protocol, at a state that the services and the reply agree with. */
  ghost predicate At(s: Sys, es: seq<Event>, k: nat, c: Caller, rows: Table, store: Store) {
    var w := Run(s, es);
    w.rows == rows && StoreOf(w) == store && k in w.callers && w.callers[k] == c
  }

  /** One await of the call. */
  lemma StepTo(s: Sys, es: seq<Event>, k: nat, c: Caller, rows: Table, store: Store, now: int, act: nat, d: Caller, after: Table)
    returns (fs: seq<Event>)
    requires At(s, es, k, c, rows, store)
    requires var w := Run(s, es); var v := CallerStep(w, k, now, act);
      v.rows == after && StoreOf(v) == StoreOf(w) && k in v.callers && v.callers[k] == d
    ensures fs == es + [Event.Caller(k, now, act)] && At(s, fs, k, d, after, store)
    ensures Run(s, fs) == CallerStep(Run(s, es), k, now, act)
  {
    fs := es + [Event.Caller(k, now, act)];
    RunOne(s, es, Event.Caller(k, now, act));
    hide Run;
  }

  // --- What a call leaves, field by field ---------------------------------------------------------

  /** One attempt on the record `r`: the best candidate's action under the decision key with `:0`, and its outcome as an entry. */
  ghost predicate AttemptRecorded(r: Rec, q: Rec, s: Store, t: Store, call: Call, pass: bool) {
    q.execution != [] &&
    var e := q.execution[|q.execution| - 1];
    && q == r.(status := if e.executed then Executed else ExecFailed, execution := r.execution + [e],
               execAttempts := r.execAttempts + 1, version := r.version + 2)
    && match BestCandidate(r)
       case None => t == s && e == Entry(if r.ranking == [] then 0 else r.ranking[0], false)
       case Some(c) => e.candidateId == c.id && Carried(c, s, t, call, pass, e.executed)
  }

  /** The action of a candidate: replayed when it is logged, carried out and logged once when nothing speaks against it. */
  ghost predicate Carried(c: Candidate, s: Store, t: Store, call: Call, pass: bool, ok: bool) {
    var key := call.claim.key + ":0";
    if key in s.log then t == s && (ok <==> s.log[key].actionType == c.actionType && s.log[key].target == c.target)
    else if pass && c.target in s.objects then
      ok && t == Store(s.objects[c.target := s.objects[c.target] + 1], s.log[key := LogRow(c.actionType, c.target, Some(call.id))],
                       s.changes + [Change(key, c.target, Some(call.id))])
    else !ok && t == s
  }

  /** An execution of a decided record: one attempt while fewer than three were begun on a fresh or failed one, or nothing. */
  ghost predicate Executes(rows: Table, after: Table, s: Store, t: Store, call: Call, pass: bool, reply: Reply)
    requires call.id in rows
  {
    var r := rows[call.id];
    && call.id in after && reply == Shown(after[call.id]) && after == rows[call.id := after[call.id]]
    && if r.execAttempts < 3 && ((r.status == Confirmed && r.execAttempts == 0) || r.status == ExecFailed)
       then AttemptRecorded(r, after[call.id], s, t, call, pass)
       else after == rows && t == s
  }

  /** The decision of a record that is open: refused for a key that is taken, stored as a rejection, or confirmed and executed. */
  ghost predicate Settles(rows: Table, after: Table, s: Store, t: Store, call: Call, pass: bool, reply: Reply)
    requires call.id in rows
  {
    var id, key, r := call.id, call.claim.key, rows[call.id];
    if exists k :: k in rows && k != id && rows[k].decisionKey == Some(key) then reply == Reply.Failed && after == rows && t == s
    else if !call.claim.confirm then
      var q := r.(status := Rejected, decisionKey := Some(key), rejectReason := Some(call.claim.reason),
                  decidedAt := Some(call.claim.at), version := r.version + 1);
      reply == Shown(q) && after == rows[id := q] && t == s
    else
      var q := r.(status := Confirmed, decisionKey := Some(key), rejectReason := None,
                  decidedAt := Some(call.claim.at), version := r.version + 1);
      Executes(rows[id := q], after, s, t, call, pass, reply)
  }

  /** What one undisturbed decision leaves, case by case. */
  ghost predicate DecidedAs(rows: Table, after: Table, s: Store, t: Store, call: Call, now: int, pass: bool, reply: Reply) {
    var id, key := call.id, call.claim.key;
    if id !in rows then reply == Reply.Failed && after == rows && t == s
    else
      var r := rows[id];
      if r.decisionKey == Some(key) then
        if (r.status == ExecFailed && r.execAttempts < 3) || (r.status == Confirmed && r.execAttempts == 0)
        then Executes(rows, after, s, t, call, pass, reply)
        else reply == Shown(r) && after == rows && t == s
      else if r.decisionKey == None && r.status == Proposed then
        if r.expiresAt <= now then
          reply == Reply.Failed && after == rows[id := r.(status := Expired, version := r.version + 1)] && t == s
        else Settles(rows, after, s, t, call, pass, reply)
      else reply == Reply.Failed && after == rows && t == s
  }

  /** The attempt of a record that was begun, in the statements' own words. */
  lemma AttemptIsRecorded(rows: Table, begun: Table, after: Table, s: Store, t: Store, call: Call, pass: bool, entry: Entry)
    requires call.id in rows && (begun, true) == BeginExecution(rows, call.id, call.claim.key)
    requires match BestCandidate(begun[call.id])
      case None => t == s && entry == Entry(FirstRanked(begun[call.id]), false)
      case Some(c) =>
        (t, entry.executed) == Applied(s, Req(ExecKey(call.claim.key), c.actionType, c.target, Some(call.id)), pass)
        && entry.candidateId == c.id
    requires after == FinishExecution(begun, call.id, entry.executed, begun[call.id].execution + [entry])
    ensures Executes(rows, after, s, t, call, pass, Shown(after[call.id]))
  {
    var r, q := rows[call.id], after[call.id];
    assert BestCandidate(begun[call.id]) == BestCandidate(r);
    assert q.execution[|q.execution| - 1] == entry;
    hide BestCandidate;
  }

  /** A claim on a record that was just read as open: decided, or refused for its key. */
  lemma ClaimedAs(rows: Table, call: Call, now: int)
    requires call.id in rows && rows[call.id].status == Proposed && rows[call.id].expiresAt > now && rows[call.id].decisionKey == None
    ensures var (after, outcome) := ClaimDecision(rows, call.id, call.claim, now);
      var r, taken := rows[call.id], exists k :: k in rows && k != call.id && rows[k].decisionKey == Some(call.claim.key);
      if taken then outcome.KeyConflict? && after == rows
      else
        outcome.Claimed?
        && after == rows[call.id := r.(status := if call.claim.confirm then Confirmed else Rejected, decisionKey := Some(call.claim.key),
                                       rejectReason := if call.claim.confirm then None else Some(call.claim.reason),
                                       decidedAt := Some(call.claim.at), version := r.version + 1)]
  {
  }

  lemma ExpiredAs(rows: Table, id: Id, now: int)
    requires id in rows && rows[id].status == Proposed && rows[id].expiresAt <= now
    ensures ExpireDue(rows, now, Some(id)) == rows[id := rows[id].(status := Expired, version := rows[id].version + 1)]
  {
  }

  // --- The calls ----------------------------------------------------------------------------------

  /** The outcome of the best candidate's action, in the service's own words. */
  method Attempt(svc: ActionService, call: Call, rec: Rec, pass: bool) returns (entry: Entry)
    modifies svc
    ensures match BestCandidate(rec)
      case None => svc.Stored() == old(svc.Stored()) && entry == Entry(FirstRanked(rec), false)
      case Some(c) =>
        var req := Req(ExecKey(call.claim.key), c.actionType, c.target, Some(call.id));
        (svc.Stored(), entry.executed) == Applied(old(svc.Stored()), req, pass) && entry.candidateId == c.id
  {
    var best := BestCandidate(rec);
    if best.None? {
      return Entry(FirstRanked(rec), false);
    }
    var c := best.value;
    var ok := svc.ApplyAction(Req(ExecKey(call.claim.key), c.actionType, c.target, Some(call.id)), pass);
    return Entry(c.id, ok);
  }

  lemma AttemptIsRun(s: Sys, es: seq<Event>, k: nat, act: nat, call: Call, rows: Table, store: Store,
                     pass: bool, entry: Entry, after: Store)
    returns (fs: seq<Event>)
    requires At(s, es, k, Loading(call, true), rows, store) && call.id in rows && act !in Run(s, es).acts
    requires match BestCandidate(rows[call.id])
      case None => after == store && entry == Entry(FirstRanked(rows[call.id]), false)
      case Some(c) =>
        (after, entry.executed) == Applied(store, Req(ExecKey(call.claim.key), c.actionType, c.target, Some(call.id)), pass)
        && entry.candidateId == c.id
    ensures At(s, fs, k, Finishing(call, entry, rows[call.id].execution), rows, after)
  {
    var rec := rows[call.id];
    var best := BestCandidate(rec);
    hide Run, ExecKey, BestCandidate;
    if best.None? {
      fs := StepTo(s, es, k, Loading(call, true), rows, store, 0, act, Finishing(call, entry, rec.execution), rows);
    } else {
      var req := Req(ExecKey(call.claim.key), best.value.actionType, best.value.target, Some(call.id));
      fs := SendIsStep(s, es, k, act, call, rows, store, best.value, req);
      fs := ApplyIsRun(s, fs, act, req, pass);
      fs := ReceiveIsStep(s, fs, k, act, call, rows, after, req, entry, rec.execution);
    }
  }

  lemma SendIsStep(s: Sys, es: seq<Event>, k: nat, act: nat, call: Call, rows: Table, store: Store, c: Candidate, req: Req)
    returns (fs: seq<Event>)
    requires At(s, es, k, Loading(call, true), rows, store) && call.id in rows && act !in Run(s, es).acts
    requires BestCandidate(rows[call.id]) == Some(c)
    requires req == Req(ExecKey(call.claim.key), c.actionType, c.target, Some(call.id))
    ensures At(s, fs, k, Waiting(call, act, c.id, rows[call.id].execution), rows, store)
    ensures act in Run(s, fs).acts && Run(s, fs).acts[act] == Finding(req)
  {
    hide Run, ExecKey, BestCandidate;
    fs := StepTo(s, es, k, Loading(call, true), rows, store, 0, act, Waiting(call, act, c.id, rows[call.id].execution), rows);
  }

  lemma ReceiveIsStep(s: Sys, es: seq<Event>, k: nat, act: nat, call: Call, rows: Table, store: Store, req: Req,
                      entry: Entry, prior: seq<Entry>)
    returns (fs: seq<Event>)
    requires At(s, es, k, Waiting(call, act, entry.candidateId, prior), rows, store)
    requires act in Run(s, es).acts && Run(s, es).acts[act] == Responded(req, entry.executed)
    ensures At(s, fs, k, Finishing(call, entry, prior), rows, store)
  {
    hide Run;
    fs := StepTo(s, es, k, Waiting(call, act, entry.candidateId, prior), rows, store, 0, act, Finishing(call, entry, prior), rows);
  }

  /** Executes the best candidate once and records the outcome. */
  method RunExecution(repo: D1RecommendationRepository, svc: ActionService, call: Call, pass: bool,
                      ghost s: Sys, ghost es: seq<Event>, ghost k: nat, ghost act: nat)
    returns (reply: Reply, ghost fs: seq<Event>)
    requires At(s, es, k, Beginning(call), repo.rows, svc.Stored()) && act !in Run(s, es).acts && call.id in repo.rows
    requires repo.rows[call.id].decisionKey == Some(call.claim.key)
    modifies repo, svc
    ensures At(s, fs, k, Done(call, reply), repo.rows, svc.Stored())
    ensures Executes(old(repo.rows), repo.rows, old(svc.Stored()), svc.Stored(), call, pass, reply)
  {
    hide Run, At, BestCandidate;
    ghost var rows0 := repo.rows;
    var started := repo.Begin(call.id, call.claim.key);
    fs := BeginIsStep(s, es, k, act, call, rows0, svc.Stored(), repo.rows, started);
    var rec := repo.rows[call.id];
    if !started {
      fs := UnstartedIsStep(s, fs, k, act, call, repo.rows, svc.Stored());
      assert repo.rows == rows0[call.id := rec];
      return Shown(rec), fs;
    }
    ghost var store := svc.Stored();
    var entry := Attempt(svc, call, rec, pass);
    fs := AttemptIsRun(s, fs, k, act, call, repo.rows, store, pass, entry, svc.Stored());
    ghost var rows := repo.rows;
    repo.Finish(call.id, entry.executed, rec.execution + [entry]);
    fs := FinishIsStep(s, fs, k, call, entry, rec.execution, rows, svc.Stored(), repo.rows);
    AttemptIsRecorded(rows0, rows, repo.rows, store, svc.Stored(), call, pass, entry);
    hide Executes;
    return Shown(repo.rows[call.id]), fs;
  }

  lemma BeginIsStep(s: Sys, es: seq<Event>, k: nat, act: nat, call: Call, rows: Table, store: Store, after: Table, started: bool)
    returns (fs: seq<Event>)
    requires At(s, es, k, Beginning(call), rows, store) && (after, started) == BeginExecution(rows, call.id, call.claim.key)
    requires act !in Run(s, es).acts && call.id in rows
    ensures At(s, fs, k, Loading(call, started), after, store) && act !in Run(s, fs).acts && call.id in after
  {
    hide Run;
    fs := StepTo(s, es, k, Beginning(call), rows, store, 0, act, Loading(call, started), after);
  }

  lemma UnstartedIsStep(s: Sys, es: seq<Event>, k: nat, act: nat, call: Call, rows: Table, store: Store) returns (fs: seq<Event>)
    requires At(s, es, k, Loading(call, false), rows, store) && call.id in rows
    ensures At(s, fs, k, Done(call, Shown(rows[call.id])), rows, store)
  {
    hide Run;
    fs := StepTo(s, es, k, Loading(call, false), rows, store, 0, act, Done(call, Shown(rows[call.id])), rows);
  }

  lemma FinishIsStep(s: Sys, es: seq<Event>, k: nat, call: Call, entry: Entry, prior: seq<Entry>, rows: Table, store: Store, after: Table)
    returns (fs: seq<Event>)
    requires At(s, es, k, Finishing(call, entry, prior), rows, store) && call.id in rows
    requires after == FinishExecution(rows, call.id, entry.executed, prior + [entry])
    ensures call.id in after && At(s, fs, k, Done(call, Shown(after[call.id])), after, store)
  {
    hide Run;
    fs := StepTo(s, es, k, Finishing(call, entry, prior), rows, store, 0, 0, Reading(call), after);
    fs := StepTo(s, fs, k, Reading(call), after, store, 0, 0, Done(call, Shown(after[call.id])), after);
  }

  /** Same key: the stored result, or a bounded re-execution after failure. */
  method ReplayCall(repo: D1RecommendationRepository, svc: ActionService, call: Call, pass: bool,
                    ghost s: Sys, ghost es: seq<Event>, ghost k: nat, ghost act: nat)
    returns (reply: Reply, ghost fs: seq<Event>)
    requires call.id in repo.rows && At(s, es, k, Replay(call, repo.rows[call.id]), repo.rows, svc.Stored()) && act !in Run(s, es).acts
    requires repo.rows[call.id].decisionKey == Some(call.claim.key)
    modifies repo, svc
    ensures At(s, fs, k, Done(call, reply), repo.rows, svc.Stored())
    ensures var r := old(repo.rows)[call.id];
      if (r.status == ExecFailed && r.execAttempts < 3) || (r.status == Confirmed && r.execAttempts == 0)
      then Executes(old(repo.rows), repo.rows, old(svc.Stored()), svc.Stored(), call, pass, reply)
      else reply == Shown(r) && repo.rows == old(repo.rows) && svc.Stored() == old(svc.Stored())
  {
    hide Run, At, Executes;
    var rec := repo.rows[call.id];
    if CanRetryExecution(rec) || Stalled(rec) {
      reply, fs := RunExecution(repo, svc, call, pass, s, es, k, act);
    } else {
      return Shown(rec), es;
    }
  }

  /**
   * One undisturbed decision: the repository, the action service and the reply end as in a run of
   * the protocol from any state that agrees with them, so all its theorems speak about this code;
   * and what is left in the record and the action service is said field by field.
   */
  method Decide(repo: D1RecommendationRepository, svc: ActionService, call: Call, now: int, pass: bool,
                ghost s: Sys, ghost k: nat, ghost act: nat)
    returns (reply: Reply, ghost es: seq<Event>)
    requires s.rows == repo.rows && StoreOf(s) == svc.Stored() && k !in s.callers && act !in s.acts
    modifies repo, svc
    ensures At(s, es, k, Done(call, reply), repo.rows, svc.Stored())
    ensures DecidedAs(old(repo.rows), repo.rows, old(svc.Stored()), svc.Stored(), call, now, pass, reply)
  {
    es := StartIsRun(s, k, call, now);
    hide Run, At, Executes, Settles, ExpireDue;
    if call.id !in repo.rows {
      return Reply.Failed, es;
    }
    var rec := repo.rows[call.id];
    if rec.decisionKey == Some(call.claim.key) {
      reply, es := ReplayCall(repo, svc, call, pass, s, es, k, act);
      return;
    }
    if rec.decisionKey.Some? {
      return Reply.Failed, es;
    }
    if IsDue(rec, now) {
      ghost var rows := repo.rows;
      var _ := repo.Expire(now, Some(call.id));
      ExpiredAs(rows, call.id, now);
      es := ExpireIsStep(s, es, k, call, now, rows, svc.Stored());
      return Reply.Failed, es;
    }
    if rec.status != Proposed {
      return Reply.Failed, es;
    }
    reply, es := Settle(repo, svc, call, now, pass, s, es, k, act);
  }

  /** The claim of an open record, and what follows. */
  method Settle(repo: D1RecommendationRepository, svc: ActionService, call: Call, now: int, pass: bool,
                ghost s: Sys, ghost fs: seq<Event>, ghost k: nat, ghost act: nat)
    returns (reply: Reply, ghost es: seq<Event>)
    requires call.id in repo.rows && At(s, fs, k, Caller.Claiming(call, now), repo.rows, svc.Stored()) && act !in Run(s, fs).acts
    requires var r := repo.rows[call.id]; r.status == Proposed && r.expiresAt > now && r.decisionKey == None
    modifies repo, svc
    ensures At(s, es, k, Done(call, reply), repo.rows, svc.Stored())
    ensures Settles(old(repo.rows), repo.rows, old(svc.Stored()), svc.Stored(), call, pass, reply)
  {
    hide Run, At, Executes, ClaimDecision;
    ghost var rows := repo.rows;
    ClaimedAs(rows, call, now);
    var outcome := repo.TryClaim(call.id, call.claim, now);
    es := ClaimIsStep(s, fs, k, act, call, now, rows, svc.Stored(), repo.rows, outcome);
    if outcome.KeyConflict? {
      return Reply.Failed, es;
    }
    // Undisturbed, the row is still what was read, so the claim is not refused.
    assert outcome.Claimed?;
    if !call.claim.confirm {
      es := ReadIsStep(s, es, k, call, repo.rows, svc.Stored());
      return Shown(repo.rows[call.id]), es;
    }
    reply, es := RunExecution(repo, svc, call, pass, s, es, k, act);
  }

  lemma StartIsRun(s: Sys, k: nat, call: Call, now: int) returns (es: seq<Event>)
    requires k !in s.callers
    ensures At(s, es, k, Start(s, call, now), s.rows, StoreOf(s)) && Run(s, es).acts == s.acts
  {
    var a, b := Event.Decide(k, call), Event.Caller(k, now, 0);
    RunOne(s, [], a);
    RunOne(s, [] + [a], b);
    es := [] + [a] + [b];
    assert Run(s, []) == s;
    hide Run;
    var w := Run(s, [] + [a]);
    assert w == s.(callers := s.callers[k := Starting(call)]);
    assert Start(w, call, now) == Start(s, call, now);
  }

  lemma ExpireIsStep(s: Sys, es: seq<Event>, k: nat, call: Call, now: int, rows: Table, store: Store) returns (fs: seq<Event>)
    requires At(s, es, k, Expiring(call, now), rows, store)
    ensures At(s, fs, k, Done(call, Reply.Failed), ExpireDue(rows, now, Some(call.id)), store)
  {
    hide Run, ExpireDue;
    fs := StepTo(s, es, k, Expiring(call, now), rows, store, 0, 0, Done(call, Reply.Failed), ExpireDue(rows, now, Some(call.id)));
  }

  /** Where a claim leaves the call. */
  function AfterClaim(call: Call, outcome: ClaimOutcome): Caller {
    match outcome
    case KeyConflict => Done(call, Reply.Failed)
    case NotClaimed => Rechecking(call)
    case Claimed => if call.claim.confirm then Beginning(call) else Reading(call)
  }

  lemma ClaimIsStep(s: Sys, es: seq<Event>, k: nat, act: nat, call: Call, now: int, rows: Table, store: Store,
                    after: Table, outcome: ClaimOutcome)
    returns (fs: seq<Event>)
    requires At(s, es, k, Claiming(call, now), rows, store) && (after, outcome) == ClaimDecision(rows, call.id, call.claim, now)
    requires act !in Run(s, es).acts && call.id in rows
    ensures At(s, fs, k, AfterClaim(call, outcome), after, store) && act !in Run(s, fs).acts && call.id in after
  {
    hide Run, KeyTaken;
    fs := StepTo(s, es, k, Claiming(call, now), rows, store, 0, act, AfterClaim(call, outcome), after);
  }

  lemma ReadIsStep(s: Sys, es: seq<Event>, k: nat, call: Call, rows: Table, store: Store) returns (fs: seq<Event>)
    requires At(s, es, k, Reading(call), rows, store) && call.id in rows
    ensures At(s, fs, k, Done(call, Shown(rows[call.id])), rows, store)
  {
    hide Run;
    fs := StepTo(s, es, k, Reading(call), rows, store, 0, 0, Done(call, Shown(rows[call.id])), rows);
  }

  /** Every other event of the protocol that touches the table is one call of the repository. */
  method Perform(repo: D1RecommendationRepository, ghost s: Sys, e: Event)
    requires s.rows == repo.rows && s.rows.Keys <= s.seen && (e.Insert? || e.Expire? || e.Clear?)
    requires e.Insert? ==> e.id !in s.seen
    modifies repo
    ensures repo.rows == Next(s, e).rows
  {
    match e {
      case Insert(id, ranking, candidates, expiresAt) => var _ := repo.Insert(id, NewRec(ranking, candidates, expiresAt));
      case Expire(now, only) => var _ := repo.Expire(now, only);
      case Clear => var _ := repo.DeleteAllUnexecuted();
    }
  }
}
