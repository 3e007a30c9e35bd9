/**
 * The recommendations of one workspace (d1_recommendation_repository.ts): each repository
 * method is one guarded statement, atomic on the table.
 */
module DecisionTable {
  import opened Common

  type Id = nat

  type Key = string

  type Rid = nat

  datatype Status = Proposed | Confirmed | Rejected | Expired | Executed | ExecFailed

  datatype Candidate = Candidate(id: nat, actionType: nat, target: Rid)

  /** One execution record: the candidate tried, and whether it was executed. */
  datatype Entry = Entry(candidateId: nat, executed: bool)

  datatype Rec = Rec(
    status: Status, ranking: seq<nat>, candidates: seq<Candidate>,
    decisionKey: Option<Key>, rejectReason: Option<string>, decidedAt: Option<int>,
    execution: seq<Entry>, execAttempts: nat, expiresAt: int, version: nat)

  type Table = map<Id, Rec>

  datatype Claim = Claim(confirm: bool, key: Key, reason: string, at: int)

  datatype ClaimOutcome = Claimed | NotClaimed | KeyConflict

  const MAX_ATTEMPTS := 3

  // --- Reading a record --------------------------------------------------------------------

  predicate IsDue(r: Rec, now: int) {
    r.status == Proposed && r.expiresAt <= now
  }

  predicate CanRetryExecution(r: Rec) {
    r.status == ExecFailed && r.execAttempts < MAX_ATTEMPTS
  }

  /** Confirmed, but its execution never began. */
  predicate Stalled(r: Rec) {
    r.status == Confirmed && r.execAttempts == 0
  }

  function FirstWithId(candidates: seq<Candidate>, id: nat): Option<Candidate> {
    if candidates == [] then None
    else if candidates[0].id == id then Some(candidates[0])
    else FirstWithId(candidates[1..], id)
  }

  /** The candidate executed on confirmation: the one that `ranking[0]` names. */
  function BestCandidate(r: Rec): Option<Candidate> {
    if r.ranking == [] then None else FirstWithId(r.candidates, r.ranking[0])
  }

  // --- The statements -------------------------------------------------------------------------

  function ExpireRow(r: Rec, now: int): Rec {
    if IsDue(r, now) then r.(status := Expired, version := r.version + 1) else r
  }

  /** Expires every due row, or only `id`. */
  function ExpireDue(t: Table, now: int, id: Option<Id>): Table {
    map k | k in t :: if id.None? || id.value == k then ExpireRow(t[k], now) else t[k]
  }

  predicate Claimable(t: Table, id: Id, now: int) {
    id in t && t[id].status == Proposed && t[id].expiresAt > now && t[id].decisionKey.None?
  }

  predicate KeyTaken(t: Table, id: Id, key: Key) {
    exists k :: k in t && k != id && t[k].decisionKey == Some(key)
  }

  function ClaimRow(r: Rec, c: Claim): Rec {
    r.(status := if c.confirm then Confirmed else Rejected, decisionKey := Some(c.key),
       rejectReason := if c.confirm then None else Some(c.reason), decidedAt := Some(c.at), version := r.version + 1)
  }

  function ClaimDecision(t: Table, id: Id, c: Claim, now: int): (Table, ClaimOutcome) {
    if !Claimable(t, id, now) then (t, NotClaimed)
    else if KeyTaken(t, id, c.key) then (t, KeyConflict)
    else (t[id := ClaimRow(t[id], c)], Claimed)
  }

  predicate Beginnable(t: Table, id: Id, key: Key) {
    id in t && t[id].decisionKey == Some(key) && t[id].execAttempts < MAX_ATTEMPTS
    && ((t[id].status == Confirmed && t[id].execAttempts == 0) || t[id].status == ExecFailed)
  }

  function BeginExecution(t: Table, id: Id, key: Key): (Table, bool) {
    if Beginnable(t, id, key) then
      var r := t[id];
      (t[id := r.(status := Confirmed, execAttempts := r.execAttempts + 1, version := r.version + 1)], true)
    else (t, false)
  }

  function FinishExecution(t: Table, id: Id, executed: bool, execution: seq<Entry>): Table {
    if id in t && t[id].status == Confirmed then
      var r := t[id];
      t[id := r.(status := if executed then Executed else ExecFailed, execution := execution, version := r.version + 1)]
    else t
  }

  /** Clearing a workspace keeps only what was executed. */
  function DeleteUnexecuted(t: Table): Table {
    map k | k in t && t[k].status == Executed :: t[k]
  }

  function NewRec(ranking: seq<nat>, candidates: seq<Candidate>, expiresAt: int): Rec {
    Rec(Proposed, ranking, candidates, None, None, None, [], 0, expiresAt, 1)
  }

  /** The table behind one workspace's repository. */
  class D1RecommendationRepository {
    var rows: Table

    constructor ()
      ensures rows == map[]
    {
      rows := map[];
    }

    method Insert(id: Id, r: Rec) returns (ok: bool)
      modifies this
      ensures ok == (id !in old(rows))
      ensures rows == if ok then old(rows)[id := r] else old(rows)
    {
      ok := id !in rows;
      if ok {
        rows := rows[id := r];
      }
    }

    method Expire(now: int, id: Option<Id>) returns (changes: nat)
      modifies this
      ensures rows == ExpireDue(old(rows), now, id)
      ensures changes == |set k | k in old(rows) && old(rows)[k] != rows[k]|
    {
      var due := set k | k in rows && (id.None? || id.value == k) && IsDue(rows[k], now);
      rows := ExpireDue(rows, now, id);
      changes := |due|;
      assert due == set k | k in old(rows) && old(rows)[k] != rows[k];
    }

    method TryClaim(id: Id, c: Claim, now: int) returns (outcome: ClaimOutcome)
      modifies this
      ensures (rows, outcome) == ClaimDecision(old(rows), id, c, now)
    {
      if id !in rows || rows[id].status != Proposed || rows[id].expiresAt <= now || rows[id].decisionKey.Some? {
        return NotClaimed;
      }
      var taken := set k | k in rows && k != id && rows[k].decisionKey == Some(c.key);
      if taken != {} {
        ghost var k :| k in taken;
        return KeyConflict;
      }
      assert forall k :: k in rows && k != id ==> k !in taken;
      rows := rows[id := ClaimRow(rows[id], c)];
      outcome := Claimed;
    }

    method Begin(id: Id, key: Key) returns (started: bool)
      modifies this
      ensures (rows, started) == BeginExecution(old(rows), id, key)
    {
      started := Beginnable(rows, id, key);
      if started {
        var r := rows[id];
        rows := rows[id := r.(status := Confirmed, execAttempts := r.execAttempts + 1, version := r.version + 1)];
      }
    }

    method Finish(id: Id, executed: bool, execution: seq<Entry>)
      modifies this
      ensures rows == FinishExecution(old(rows), id, executed, execution)
    {
      if id in rows && rows[id].status == Confirmed {
        var r := rows[id];
        rows := rows[id := r.(status := if executed then Executed else ExecFailed, execution := execution, version := r.version + 1)];
      }
    }

    method DeleteAllUnexecuted() returns (deleted: nat)
      modifies this
      ensures rows == DeleteUnexecuted(old(rows))
      ensures deleted == |old(rows)| - |rows|
    {
      var kept := DeleteUnexecuted(rows);
      deleted := CountDropped(rows, kept);
      rows := kept;
    }
  }

  method CountDropped(t: Table, kept: Table) returns (n: nat)
    requires kept.Keys <= t.Keys
    ensures n == |t| - |kept|
  {
    SubsetSize(kept.Keys, t.Keys);
    assert |kept| == |kept.Keys| && |t| == |t.Keys|;
    n := |t| - |kept|;
  }

  // --- What every statement keeps ------------------------------------------------------------------

  predicate Terminal(s: Status) {
    s == Executed || s == Rejected || s == Expired
  }

  /** The life of one record: its own invariant. */
  ghost predicate RowOk(r: Rec) {
    && (r.decisionKey.Some? <==> r.status != Proposed && r.status != Expired)
    && r.execAttempts <= MAX_ATTEMPTS
    && (r.status == Proposed || r.status == Expired || r.status == Rejected ==> r.execAttempts == 0)
    && (r.status == Executed || r.status == ExecFailed ==> r.execAttempts >= 1)
  }

  /** A later version of the same record. */
  ghost predicate Evolves(r: Rec, q: Rec) {
    && q.ranking == r.ranking && q.candidates == r.candidates && q.expiresAt == r.expiresAt
    && (r.decisionKey.Some? ==> q.decisionKey == r.decisionKey)
    && r.execAttempts <= q.execAttempts
    && (Terminal(r.status) ==> q.status == r.status)
    && r.version <= q.version
  }

  ghost predicate DistinctDecisionKeys(t: Table) {
    forall a, b :: a in t && b in t && a != b && t[a].decisionKey.Some? ==> t[a].decisionKey != t[b].decisionKey
  }

  ghost predicate TableOk(t: Table) {
    (forall id :: id in t ==> RowOk(t[id])) && DistinctDecisionKeys(t)
  }

  /** Every record of both tables is a later version of itself. */
  ghost predicate TableEvolves(t: Table, u: Table) {
    forall id :: id in t && id in u ==> Evolves(t[id], u[id])
  }

  lemma ExpireKeeps(t: Table, now: int, id: Option<Id>)
    requires TableOk(t)
    ensures var u := ExpireDue(t, now, id);
      && TableOk(u) && TableEvolves(t, u) && u.Keys == t.Keys
      && forall k :: k in t ==> u[k].decisionKey == t[k].decisionKey && (t[k].status != Proposed ==> u[k] == t[k])
  {
    forall k | k in t ensures ExpiredOk(t[k], now) {
      ExpireRowKeeps(t[k], now);
    }
    hide ExpireRow, RowOk, Evolves;
  }

  ghost predicate ExpiredOk(r: Rec, now: int) {
    var q := ExpireRow(r, now);
    && RowOk(q) && Evolves(r, q) && Evolves(r, r)
    && q.decisionKey == r.decisionKey && (r.status != Proposed ==> q == r)
  }

  lemma ExpireRowKeeps(r: Rec, now: int)
    requires RowOk(r)
    ensures ExpiredOk(r, now)
  {
  }

  lemma ClaimKeeps(t: Table, id: Id, c: Claim, now: int)
    requires TableOk(t)
    ensures var (u, outcome) := ClaimDecision(t, id, c, now);
      TableOk(u) && TableEvolves(t, u) && u.Keys == t.Keys
  {
  }

  lemma BeginKeeps(t: Table, id: Id, key: Key)
    requires TableOk(t)
    ensures var (u, started) := BeginExecution(t, id, key);
      TableOk(u) && TableEvolves(t, u) && u.Keys == t.Keys
  {
  }

  lemma FinishKeeps(t: Table, id: Id, executed: bool, execution: seq<Entry>)
    requires TableOk(t)
    requires id in t && t[id].status == Confirmed ==> t[id].execAttempts >= 1
    ensures var u := FinishExecution(t, id, executed, execution);
      TableOk(u) && TableEvolves(t, u) && u.Keys == t.Keys
  {
  }

  lemma DeleteKeeps(t: Table)
    requires TableOk(t)
    ensures var u := DeleteUnexecuted(t);
      && TableOk(u) && u.Keys <= t.Keys
      && (forall id :: id in t && t[id].status == Executed ==> id in u)
      && (forall id :: id in u ==> u[id] == t[id])
  {
  }

  lemma EvolvesTransitive(a: Rec, b: Rec, c: Rec)
    requires Evolves(a, b) && Evolves(b, c)
    ensures Evolves(a, c)
  {
  }
}
