/**
 * What the steps of a decision mean for the record, in terms of its fields: which candidate is the
 * best, what a claim stores, when a due record expires, and that a rejection stands over every run.
 */
module DecisionMeaning {
  import opened Common
  import opened DecisionTable
  import opened DecisionProtocol
  import opened DecisionTheorems

  /** The best candidate is the first one with the id that the ranking names first; without one there is none. */
  lemma BestIsFirstRanked(r: Rec)
    ensures match BestCandidate(r)
      case None => r.ranking == [] || forall i :: 0 <= i < |r.candidates| ==> r.candidates[i].id != r.ranking[0]
      case Some(c) =>
        && r.ranking != [] && c.id == r.ranking[0]
        && exists i :: 0 <= i < |r.candidates| && r.candidates[i] == c && forall j :: 0 <= j < i ==> r.candidates[j].id != c.id
  {
    if r.ranking != [] {
      FirstOfId(r.candidates, r.ranking[0]);
    }
  }

  lemma {:induction false} FirstOfId(cs: seq<Candidate>, id: nat)
    ensures match FirstWithId(cs, id)
      case None => forall i :: 0 <= i < |cs| ==> cs[i].id != id
      case Some(c) =>
        c.id == id && exists i :: 0 <= i < |cs| && cs[i] == c && forall j :: 0 <= j < i ==> cs[j].id != id
  {
    if cs != [] && cs[0].id != id {
      FirstOfId(cs[1..], id);
      var r := FirstWithId(cs[1..], id);
      if r.Some? {
        var i :| 0 <= i < |cs| - 1 && cs[1..][i] == r.value && forall j :: 0 <= j < i ==> cs[1..][j].id != id;
        assert cs[i + 1] == r.value;
        assert forall j :: 0 < j < i + 1 ==> cs[j] == cs[1..][j - 1];
      }
      assert forall i :: 0 < i < |cs| ==> cs[i] == cs[1..][i - 1];
    }
  }

  /** Expiring turns exactly the proposed records whose time has come, or only the named one, to Expired. */
  lemma ExpiresExactly(t: Table, now: int, only: Option<Id>, id: Id)
    requires id in t
    ensures var u := ExpireDue(t, now, only);
      && u.Keys == t.Keys
      && (u[id] != t[id] <==> t[id].status == Proposed && t[id].expiresAt <= now && (only == None || only == Some(id)))
      && (u[id] != t[id] ==> u[id] == t[id].(status := Expired, version := t[id].version + 1))
  {
  }

  // --- The claim ----------------------------------------------------------------------------------

  /** The record is open for a decision at `at`, and no other one was decided under the key. */
  ghost predicate Open(t: Table, id: Id, key: Key, at: int) {
    && id in t && t[id].status == Proposed && t[id].expiresAt > at && t[id].decisionKey == None
    && forall k :: k in t && k != id ==> t[k].decisionKey != Some(key)
  }

  /**
   * A claim on an open record decides it: a rejection stores Rejected with the reason, a
   * confirmation Confirmed without one, both the key and the time; then the caller reads it back or
   * begins the execution. A claim on any other record changes nothing.
   */
  lemma ClaimDecides(s: Sys, k: nat, now: int, act: nat)
    requires k in s.callers && s.callers[k].Claiming?
    ensures var c, t := s.callers[k], CallerStep(s, k, now, act); var claim, id := c.call.claim, c.call.id;
      && (!Open(s.rows, id, claim.key, c.now) ==>
            t.rows == s.rows && t.decided == s.decided && !t.callers[k].Beginning? && !t.callers[k].Reading?)
      && (Open(s.rows, id, claim.key, c.now) ==>
            && id in t.rows && t.rows == s.rows[id := t.rows[id]]
            && t.rows[id].status == (if claim.confirm then Confirmed else Rejected)
            && t.rows[id].rejectReason == (if claim.confirm then None else Some(claim.reason))
            && t.rows[id].decisionKey == Some(claim.key) && t.rows[id].decidedAt == Some(claim.at)
            && t.rows[id].execAttempts == s.rows[id].execAttempts && t.rows[id].execution == s.rows[id].execution
            && t.callers[k] == if claim.confirm then Caller.Beginning(c.call) else Caller.Reading(c.call))
  {
    var c := s.callers[k];
    assert Open(s.rows, c.call.id, c.call.claim.key, c.now) <==>
      Claimable(s.rows, c.call.id, c.now) && !KeyTaken(s.rows, c.call.id, c.call.claim.key);
    hide KeyTaken, Claimable;
  }

  // --- A rejection stands ---------------------------------------------------------------------------

  /** The record is decided as `r`, or deleted, and nothing was sent, logged or changed for it. */
  ghost predicate Untouched(s: Sys, id: Id, r: Rec) {
    && id in s.seen && r.status == Rejected
    && (id in s.rows ==> s.rows[id] == r)
    && (forall a :: a in s.acts ==> s.acts[a].req.recId != Some(id))
    && (forall key :: key in s.log ==> s.log[key].recId != Some(id))
    && (forall i :: 0 <= i < |s.changes| ==> s.changes[i].recId != Some(id))
    && (forall k :: k in s.callers && InFlight(s.callers[k]) ==> s.callers[k].call.id != id)
  }

  /** A rejected record can be neither expired, claimed, begun nor finished. */
  lemma RejectedStays(t: Table, id: Id, other: Id, c: Claim, key: Key, now: int, only: Option<Id>, executed: bool, entries: seq<Entry>)
    requires id in t ==> t[id].status == Rejected
    ensures SameRow(t, ExpireDue(t, now, only), id)
    ensures SameRow(t, ClaimDecision(t, other, c, now).0, id)
    ensures SameRow(t, BeginExecution(t, other, key).0, id)
    ensures SameRow(t, FinishExecution(t, other, executed, entries), id)
    ensures BeginExecution(t, other, key).1 ==> other != id
  {
    hide KeyTaken;
  }

  lemma UntouchedCaller(s: Sys, k: nat, now: int, act: nat, id: Id, r: Rec)
    requires Untouched(s, id, r)
    ensures Untouched(CallerStep(s, k, now, act), id, r)
  {
    if k in s.callers {
      var c := s.callers[k];
      var at := if c.Expiring? || c.Claiming? then c.now else now;
      var executed, entries := c.Finishing? && c.entry.executed, if c.Finishing? then c.prior + [c.entry] else [];
      RejectedStays(s.rows, id, c.call.id, c.call.claim, c.call.claim.key, at, Some(c.call.id), executed, entries);
      UntouchedRow(s, k, now, act, id);
      hide ExpireDue, ClaimDecision, FinishExecution, BestCandidate, BeginExecution, CallerStep, InFlight;
      StepFrame(s, k, now, act);
      UntouchedSent(s, k, now, act, id);
    }
  }

  lemma UntouchedRow(s: Sys, k: nat, now: int, act: nat, id: Id)
    requires k in s.callers
    requires var c := s.callers[k];
      var at := if c.Expiring? || c.Claiming? then c.now else now;
      var executed, entries := c.Finishing? && c.entry.executed, if c.Finishing? then c.prior + [c.entry] else [];
      && SameRow(s.rows, ExpireDue(s.rows, at, Some(c.call.id)), id)
      && SameRow(s.rows, ClaimDecision(s.rows, c.call.id, c.call.claim, at).0, id)
      && SameRow(s.rows, BeginExecution(s.rows, c.call.id, c.call.claim.key).0, id)
      && SameRow(s.rows, FinishExecution(s.rows, c.call.id, executed, entries), id)
    ensures SameRow(s.rows, CallerStep(s, k, now, act).rows, id) && CallerStep(s, k, now, act).seen == s.seen
  {
    var c := s.callers[k];
    hide ExpireDue, ClaimDecision, BeginExecution, FinishExecution, Start, Recheck, ReadStep;
    if Quiet(c) {
      StepFrame(s, k, now, act);
      hide CallerStep;
    }
    hide LoadStep, WaitStep, SameRow;
  }

  /** The record `id` is the same in both tables. */
  ghost predicate SameRow(t: Table, u: Table, id: Id) {
    (id in u <==> id in t) && (id in t ==> u[id] == t[id])
  }

  /** Only a caller in flight sends an action, and callers neither log nor change anything. */
  lemma UntouchedSent(s: Sys, k: nat, now: int, act: nat, id: Id)
    requires k in s.callers && (InFlight(s.callers[k]) ==> s.callers[k].call.id != id)
    requires forall a :: a in s.acts ==> s.acts[a].req.recId != Some(id)
    ensures var t := CallerStep(s, k, now, act);
      && t.log == s.log && t.changes == s.changes
      && forall a :: a in t.acts ==> t.acts[a].req.recId != Some(id)
  {
    if s.callers[k].Loading? {
      LoadSends(s, k, act, id);
      hide LoadStep;
    } else {
      SendsNothing(s, k, now, act);
      hide CallerStep;
    }
  }

  lemma LoadSends(s: Sys, k: nat, act: nat, id: Id)
    requires k in s.callers && s.callers[k].Loading? && (s.callers[k].started ==> s.callers[k].call.id != id)
    requires forall a :: a in s.acts ==> s.acts[a].req.recId != Some(id)
    ensures var t := LoadStep(s, k, s.callers[k].call, s.callers[k].started, act);
      && t.log == s.log && t.changes == s.changes
      && forall a :: a in t.acts ==> t.acts[a].req.recId != Some(id)
  {
    hide BestCandidate, ExecKey, FirstRanked, InFlight;
    var t := LoadStep(s, k, s.callers[k].call, s.callers[k].started, act);
    assert t.acts == s.acts
      || (s.callers[k].started && t.acts == s.acts[act := t.acts[act]] && t.acts[act].req.recId == Some(s.callers[k].call.id));
  }

  ghost predicate SameSent(s: Sys, t: Sys) {
    t.acts == s.acts && t.log == s.log && t.changes == s.changes
  }

  lemma ClaimSends(s: Sys, k: nat, call: Call, now: int)
    ensures SameSent(s, ClaimStep(s, k, call, now)) && SameSent(s, BeginStep(s, k, call))
  {
    hide ClaimDecision, BeginExecution;
  }

  lemma OthersSend(s: Sys, k: nat, c: DecisionProtocol.Caller)
    ensures c.Waiting? ==> SameSent(s, WaitStep(s, k, c))
    ensures c.Finishing? ==> SameSent(s, FinishStep(s, k, c))
  {
    hide FinishExecution;
  }

  lemma SendsNothing(s: Sys, k: nat, now: int, act: nat)
    requires k in s.callers && !s.callers[k].Loading?
    ensures SameSent(s, CallerStep(s, k, now, act))
  {
    hide ExpireDue, ClaimStep, BeginStep, FinishStep, WaitStep, Start, Recheck, ReadStep, LoadStep;
    OthersSend(s, k, s.callers[k]);
    match s.callers[k]
    case Claiming(call, at) => ClaimSends(s, k, call, at);
    case Beginning(call) => ClaimSends(s, k, call, now);
    case _ =>
  }

  lemma UntouchedAct(s: Sys, a: nat, pass: bool, id: Id, r: Rec)
    requires Untouched(s, id, r)
    ensures Untouched(ActStep(s, a, pass), id, r)
  {
    if a in s.acts {
      ActFrame(s, a, pass);
      hide *;
      StillUntouched(s, ActStep(s, a, pass), a, id, r);
    }
  }

  lemma StillUntouched(s: Sys, t: Sys, a: nat, id: Id, r: Rec)
    requires a in s.acts && ActMoved(s, t, a) && Untouched(s, id, r)
    ensures Untouched(t, id, r)
  {
    hide InFlight;
    forall i | 0 <= i < |t.changes| ensures t.changes[i].recId != Some(id) {
      assert i < |s.changes| ==> t.changes[..|s.changes|][i] == t.changes[i];
    }
  }

  /** The action `a` moved on: it kept its request, and what is new in the log and the changes is for its recommendation. */
  ghost predicate ActMoved(s: Sys, t: Sys, a: nat)
    requires a in s.acts
  {
    && t.seen == s.seen && t.rows == s.rows && t.callers == s.callers && t.acts.Keys == s.acts.Keys
    && (forall b :: b in t.acts ==> t.acts[b].req == s.acts[b].req)
    && (forall key :: key in t.log ==> (key in s.log && t.log[key] == s.log[key]) || t.log[key].recId == s.acts[a].req.recId)
    && (t.changes == s.changes || (|t.changes| == |s.changes| + 1 && t.changes[..|s.changes|] == s.changes
          && t.changes[|s.changes|].recId == s.acts[a].req.recId))
  }

  lemma CommitFrame(s: Sys, a: nat, version: nat)
    requires a in s.acts
    ensures ActMoved(s, CommitStep(s, a, s.acts[a].req, version), a)
  {
  }

  lemma ActFrame(s: Sys, a: nat, pass: bool)
    requires a in s.acts
    ensures ActMoved(s, ActStep(s, a, pass), a)
  {
    hide Matches, CommitStep;
    if s.acts[a].Committing? {
      CommitFrame(s, a, s.acts[a].version);
      hide ActMoved;
    }
  }

  lemma UntouchedStep(s: Sys, e: Event, id: Id, r: Rec)
    requires Untouched(s, id, r)
    ensures Untouched(Next(s, e), id, r)
  {
    hide ExecKey, BestCandidate, CallerStep, ActStep;
    match e
    case Caller(k, now, act) => UntouchedCaller(s, k, now, act, id, r);
    case Act(a, pass) => UntouchedAct(s, a, pass, id, r);
    case _ =>
  }

  lemma {:induction false} UntouchedForever(s: Sys, es: seq<Event>, id: Id, r: Rec)
    requires Untouched(s, id, r)
    ensures Untouched(Run(s, es), id, r)
  {
    hide Untouched, Next;
    if es != [] {
      UntouchedForever(s, es[..|es| - 1], id, r);
      UntouchedStep(Run(s, es[..|es| - 1]), es[|es| - 1], id, r);
    }
  }

  /**
   * A rejection stands over every run: once a claim that rejects has been stored, whatever happens
   * later, retries of either decision included, the record is Rejected for its reason with no
   * attempt begun, as long as it is stored; and no action is ever sent, logged or carried out for
   * it, not even after it was deleted.
   */
  lemma RejectionStands(before: seq<Event>, k: nat, now: int, act: nat, later: seq<Event>)
    requires var s := Run(INIT, before);
      k in s.callers && s.callers[k].Claiming? && !s.callers[k].call.claim.confirm
      && Open(s.rows, s.callers[k].call.id, s.callers[k].call.claim.key, s.callers[k].now)
    ensures var call, t := Run(INIT, before).callers[k].call, Run(Run(INIT, before + [Event.Caller(k, now, act)]), later);
      && (call.id in t.rows ==>
            && t.rows[call.id].status == Rejected && t.rows[call.id].execAttempts == 0
            && t.rows[call.id].rejectReason == Some(call.claim.reason) && t.rows[call.id].decisionKey == Some(call.claim.key))
      && (forall a :: a in t.acts ==> t.acts[a].req.recId != Some(call.id))
      && (forall key :: key in t.log ==> t.log[key].recId != Some(call.id))
      && (forall i :: 0 <= i < |t.changes| ==> t.changes[i].recId != Some(call.id))
  {
    var s, e := Run(INIT, before), Event.Caller(k, now, act);
    var id := s.callers[k].call.id;
    ClaimDecides(s, k, now, act);
    RunStepLast(INIT, before, e);
    var t := Run(INIT, before + [e]);
    assert t == CallerStep(s, k, now, act);
    AlwaysInv(before + [e]);
    RejectedNeverActs(before + [e], id);
    NoAttempts(t, id);
    hide Run, CallerStep, InFlight, Inv;
    assert Untouched(t, id, t.rows[id]);
    UntouchedForever(t, later, id, t.rows[id]);
  }

  lemma NoAttempts(t: Sys, id: Id)
    requires Inv(t) && id in t.rows && t.rows[id].status == Rejected
    ensures id in t.seen && t.rows[id].execAttempts == 0
  {
    assert RowOk(t.rows[id]) && RowsKnown(t);
  }
}
