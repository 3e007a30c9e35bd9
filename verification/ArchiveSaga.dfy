/**
 * The archive saga (archive_saga.ts, archive_saga_service.ts): export the five services part by
 * part, zip, tell the owner, purge, delete the account. One cron tick takes one step; a step may
 * be lost before it is recorded, staged parts may vanish and rows may still arrive.
 */
module ArchiveSaga {
  import opened Common

  // Services are known by their place in the export order; the purge has its own order.
  const SERVICES := 5
  const MAX_PARTS := 20
  const PURGE_ROWS := 500

  // --- The part budget ----------------------------------------------------------------------

  /** A staged part: a page of a service, marked when later pages were given up. */
  datatype Staged = Staged(svc: nat, page: nat, cut: bool)

  predicate IsLastAllowedPart(svc: nat, parts: nat) {
    parts + 1 + (SERVICES - 1 - svc) >= MAX_PARTS
  }

  /** How many pages every service would need. */
  ghost predicate ValidCounts(counts: seq<nat>) {
    |counts| == SERVICES && forall i :: 0 <= i < SERVICES ==> counts[i] >= 1
  }

  /** Parts used by the first `i` services. */
  function Used(counts: seq<nat>, i: nat): nat
    requires i <= |counts|
  {
    if i == 0 then 0 else Min(Used(counts, i - 1) + counts[i - 1], MAX_PARTS - SERVICES + i)
  }

  /** Pages of service `i` that are staged. */
  function Share(counts: seq<nat>, i: nat): int
    requires i < |counts|
  {
    Used(counts, i + 1) - Used(counts, i)
  }

  function PagesOf(svc: nat, n: nat, all: nat): (r: seq<Staged>)
    ensures |r| == n
  {
    seq(n, k requires 0 <= k => Staged(svc, k, k == n - 1 && n < all))
  }

  /** All parts of an archive: for each service its first pages, the last marked if more existed. */
  function AllParts(counts: seq<nat>, i: nat): seq<Staged>
    requires i <= |counts|
  {
    if i == 0 then []
    else AllParts(counts, i - 1) + PagesOf(i - 1, Max(0, Share(counts, i - 1)), counts[i - 1])
  }

  /** Every service gets at least one part, and all fit into the budget. */
  lemma {:induction false} UsedBounds(counts: seq<nat>, i: nat)
    requires ValidCounts(counts) && i <= SERVICES
    ensures i <= Used(counts, i) <= MAX_PARTS - SERVICES + i
    ensures i < SERVICES ==> 1 <= Share(counts, i) <= counts[i]
    ensures |AllParts(counts, i)| == Used(counts, i)
  {
    if i == 0 {
    } else {
      UsedBounds(counts, i - 1);
    }
  }

  /** Nothing is cut exactly when each service's pages fit beside the earlier ones and one part per later service. */
  lemma CutExactlyWhen(counts: seq<nat>, i: nat)
    requires ValidCounts(counts) && i < SERVICES
    ensures Share(counts, i) < counts[i] <==> Used(counts, i) + counts[i] > MAX_PARTS - SERVICES + 1 + i
  {
    UsedBounds(counts, i);
  }

  /** After two services of one page each, the third stages sixteen pages at most. */
  lemma GraphShare(counts: seq<nat>)
    requires ValidCounts(counts) && counts[0] == counts[1] == 1 && counts[2] >= 16
    ensures Share(counts, 2) == 16
  {
    assert Used(counts, 1) == Min(Used(counts, 0) + 1, 16);
    assert Used(counts, 2) == Min(Used(counts, 1) + 1, 17);
  }

  /** The part staged as number `n`. */
  lemma {:induction false} PartsPrefix(counts: seq<nat>, i: nat, j: nat)
    requires ValidCounts(counts) && i <= j <= SERVICES
    ensures AllParts(counts, i) <= AllParts(counts, j)
  {
    if i < j {
      PartsPrefix(counts, i, j - 1);
    }
  }

  lemma PartNumber(counts: seq<nat>, svc: nat, page: nat)
    requires ValidCounts(counts) && svc < SERVICES && page < Share(counts, svc)
    ensures var n := Used(counts, svc) + page;
      && n < Used(counts, SERVICES) == |AllParts(counts, SERVICES)|
      && AllParts(counts, SERVICES)[n] == Staged(svc, page, page == Share(counts, svc) - 1 && Share(counts, svc) < counts[svc])
  {
    UsedBounds(counts, svc);
    UsedBounds(counts, svc + 1);
    UsedBounds(counts, SERVICES);
    PartsPrefix(counts, svc + 1, SERVICES);
    var n := Used(counts, svc) + page;
    assert AllParts(counts, svc + 1)[n] == PagesOf(svc, Share(counts, svc), counts[svc])[page];
    assert AllParts(counts, svc + 1)[n] == AllParts(counts, SERVICES)[n];
  }

  // --- The saga -----------------------------------------------------------------------------

  datatype Phase = Exporting | Exported | Mailed | Purging | Purged | AccountDeleted

  datatype Mode = Archive | NoArchive | Empty

  /** The ledger row, the blob store and the services, with what has happened so far. */
  datatype World = World(
    phase: Phase, mode: Mode,
    at: nat, page: nat, parts: nat,
    purge: nat,
    blobs: map<nat, Staged>, zip: Option<seq<Staged>>,
    rows: seq<nat>,
    account: bool, deadline: int, checked: nat,
    zipped: bool, accepted: bool, deleted: nat, reported: set<nat>)

  datatype Event =
    | Stage(recorded: bool)
    | Zip(confirmed: bool, recorded: bool)
    | SkipExport(recorded: bool)
    | LoseBlob(n: nat)
    | DropZip
    | Mail(accepted: bool, now: int, recorded: bool)
    | Purge(granted: bool, recorded: bool)
    | Count(recorded: bool)
    | DeleteAccount(recorded: bool)
    | Crash
    | LateRow(s: nat)

  /** A new ledger; `deadline` is `archiveDays` after the trial expired. */
  function Begin(mode: Mode, rows: seq<nat>, deadline: int): World {
    World(Exporting, mode, 0, 0, 0, 0, map[], None, rows, true, deadline, 0, false, false, 0, {})
  }

  function AdvanceExport(w: World, hasNext: bool): World {
    if hasNext then w.(page := w.page + 1) else w.(at := w.at + 1, page := 0)
  }

  function AdvancePurge(w: World, svc: nat, done: bool): World {
    if !done then w.(phase := Purging, purge := svc)
    else if svc + 1 < SERVICES then w.(phase := Purging, purge := svc + 1)
    else w.(phase := Purged, purge := svc)
  }

  function StageStep(w: World, counts: seq<nat>, recorded: bool): World
    requires w.at < |counts|
  {
    var hasNext := w.page + 1 < counts[w.at];
    var cut := hasNext && IsLastAllowedPart(w.at, w.parts);
    var put := w.(blobs := w.blobs[w.parts := Staged(w.at, w.page, cut)]);
    if recorded then AdvanceExport(put.(parts := w.parts + 1), hasNext && !cut) else put
  }

  function ZipStep(w: World, confirmed: bool, recorded: bool): World {
    if exists n :: 0 <= n < w.parts && n !in w.blobs then
      var gone := w.(blobs := map[]);
      if recorded then gone.(at := 0, page := 0, parts := 0) else gone
    else
      var put := w.(zip := Some(seq(w.parts, n requires 0 <= n < w.parts => w.blobs[n])), zipped := true);
      if !confirmed then put
      else
        var clean := put.(blobs := map[]);
        if recorded then clean.(phase := Exported) else clean
  }

  /** mailStep moves on when the mail was accepted, or without it once the deadline has passed. */
  predicate MovesOn(e: Event, deadline: int) {
    e.Mail? && e.recorded && (e.accepted || e.now > deadline)
  }

  /** mailStep: without its ZIP the archive becomes a deletion notice. */
  function MailStep(w: World, accepted: bool, now: int, recorded: bool): World {
    var mode := if w.mode == Archive && w.zip.None? then NoArchive else w.mode;
    var sent := w.(accepted := w.accepted || accepted);
    if !recorded then sent
    else if accepted || now > w.deadline then sent.(phase := Mailed, mode := mode)
    else sent.(mode := mode)
  }

  /** purgeTenant deletes up to 500 rows and reports done when fewer than 500 were left. */
  function PurgeStep(w: World, recorded: bool): World
    requires w.purge < |w.rows|
  {
    var n := Min(PURGE_ROWS, w.rows[w.purge]);
    var done := w.rows[w.purge] < PURGE_ROWS;
    var swept := w.(rows := w.rows[w.purge := w.rows[w.purge] - n], deleted := w.deleted + n,
                    reported := if done then w.reported + {w.purge} else w.reported);
    if recorded then AdvancePurge(swept, w.purge, done) else swept
  }

  /** One awaited count of deleteAccountStep, after `checked` services were found empty in this tick. */
  function CountStep(w: World, recorded: bool): World
    requires w.checked < |w.rows|
  {
    if w.rows[w.checked] == 0 then w.(checked := w.checked + 1)
    else if recorded then w.(phase := Purging, purge := w.checked, checked := 0)
    else w.(checked := 0)
  }

  /** The account goes after the last count, whatever has arrived since. */
  function DeleteStep(w: World, recorded: bool): World {
    var gone := w.(account := false, checked := 0);
    if recorded then gone.(phase := AccountDeleted) else gone
  }

  predicate CanHappen(w: World, e: Event) {
    match e
    case Stage(_) => w.phase == Exporting && w.mode == Archive && w.at < SERVICES
    case Zip(_, _) => w.phase == Exporting && w.mode == Archive && w.at == SERVICES
    case SkipExport(_) => w.phase == Exporting && w.mode != Archive
    case LoseBlob(_) => true
    case DropZip => true
    case Mail(_, _, _) => w.phase == Exported
    case Purge(_, _) => w.phase == Mailed || w.phase == Purging
    case Count(_) => w.phase == Purged && w.checked < SERVICES
    case DeleteAccount(_) => w.phase == Purged && w.checked == SERVICES
    case Crash => w.phase == Purged
    case LateRow(s) => s < SERVICES
  }

  function Next(w: World, counts: seq<nat>, e: Event): World
    requires CanHappen(w, e) && |counts| == SERVICES && |w.rows| == SERVICES && w.purge < SERVICES
  {
    match e
    case Stage(recorded) => StageStep(w, counts, recorded)
    case Zip(confirmed, recorded) => ZipStep(w, confirmed, recorded)
    case SkipExport(recorded) => if recorded then w.(phase := Exported) else w
    case LoseBlob(n) => w.(blobs := w.blobs - {n})
    case DropZip => w.(zip := None)
    case Mail(accepted, now, recorded) => MailStep(w, accepted, now, recorded)
    case Purge(granted, recorded) => if granted then PurgeStep(w, recorded) else w
    case Count(recorded) => CountStep(w, recorded)
    case DeleteAccount(recorded) => DeleteStep(w, recorded)
    case Crash => w.(checked := 0)
    case LateRow(s) => w.(rows := w.rows[s := w.rows[s] + 1])
  }

  // --- What every step keeps ----------------------------------------------------------------

  /** Staging stands at its place in the list of all parts, and every part present is the right one. */
  ghost predicate StagingOk(w: World, counts: seq<nat>)
    requires ValidCounts(counts)
  {
    && AtPart(counts, w.at, w.page, w.parts)
    && (forall n :: n in w.blobs && n < w.parts ==> w.blobs[n] == AllParts(counts, SERVICES)[n])
  }

  ghost predicate AtPart(counts: seq<nat>, at: nat, page: nat, parts: nat)
    requires ValidCounts(counts)
  {
    && at <= SERVICES
    && parts == Used(counts, at) + page
    && (if at < SERVICES then page < Share(counts, at) else page == 0)
    && parts <= |AllParts(counts, SERVICES)|
  }

  predicate PastMail(p: Phase) {
    p == Mailed || p == Purging || p == Purged || p == AccountDeleted
  }

  predicate PastZip(p: Phase) {
    p != Exporting
  }

  /** What a mode at the start promises once the export is over. */
  predicate ArchiveKept(w: World, start: Mode) {
    && (w.mode == Archive ==> start == Archive)
    && (PastZip(w.phase) && start == Archive ==> w.zipped)
    && (w.accepted ==> PastZip(w.phase))
    && (w.deleted > 0 ==> PastMail(w.phase))
  }

  predicate AllReported(w: World) {
    forall s :: 0 <= s < SERVICES ==> s in w.reported
  }

  ghost predicate PurgeOk(w: World) {
    && |w.rows| == SERVICES && w.purge < SERVICES
    && (w.phase == Purging || w.phase == Mailed ==> forall s :: 0 <= s < w.purge ==> s in w.reported)
    && (w.phase == Purged || w.phase == AccountDeleted ==> AllReported(w))
    && (w.phase == AccountDeleted ==> !w.account)
    && (!PastMail(w.phase) ==> w.purge == 0)
    && (!w.account ==> w.phase == Purged || w.phase == Purging || w.phase == AccountDeleted)
    && (w.checked > 0 ==> w.phase == Purged) && w.checked <= SERVICES
  }

  ghost predicate Inv(w: World, counts: seq<nat>, start: Mode) {
    && ValidCounts(counts)
    && StagingOk(w, counts)
    && (w.zip.Some? ==> w.zip.value == AllParts(counts, SERVICES))
    && ArchiveKept(w, start)
    && (w.phase == Exporting ==> w.mode == start)
    && PurgeOk(w)
  }

  lemma BeginOk(counts: seq<nat>, mode: Mode, rows: seq<nat>, deadline: int)
    requires ValidCounts(counts) && |rows| == SERVICES
    ensures Inv(Begin(mode, rows, deadline), counts, mode)
  {
    UsedBounds(counts, 0);
  }

  lemma StageKeeps(w: World, counts: seq<nat>, start: Mode, recorded: bool)
    requires Inv(w, counts, start) && CanHappen(w, Stage(recorded))
    ensures Inv(StageStep(w, counts, recorded), counts, start)
  {
    StageStaged(w, counts, recorded);
    hide StagingOk, PurgeOk, ArchiveKept;
    PurgeUntouched(w, StageStep(w, counts, recorded), start);
  }

  lemma StageStaged(w: World, counts: seq<nat>, recorded: bool)
    requires ValidCounts(counts) && StagingOk(w, counts) && w.at < SERVICES
    ensures StagingOk(StageStep(w, counts, recorded), counts)
  {
    assert AtPart(counts, w.at, w.page, w.parts);
    assert w.parts == Used(counts, w.at) + w.page && w.page < Share(counts, w.at);
    hide *;
    PartNumber(counts, w.at, w.page);
    NextPart(counts, w.at, w.page);
    StagedNext(w, counts, recorded);
    StagingNext(w, StageStep(w, counts, recorded), counts);
  }

  lemma StagingNext(w: World, v: World, counts: seq<nat>)
    requires ValidCounts(counts) && StagingOk(w, counts) && w.parts < |AllParts(counts, SERVICES)|
    requires v.blobs == w.blobs[w.parts := AllParts(counts, SERVICES)[w.parts]]
    requires AtPart(counts, v.at, v.page, v.parts) && w.parts <= v.parts <= w.parts + 1
    ensures StagingOk(v, counts)
  {
    hide AllParts, AtPart;
  }

  /** One staged page: its place, its mark and where the export goes on. */
  lemma StagedNext(w: World, counts: seq<nat>, recorded: bool)
    requires ValidCounts(counts) && w.at < SERVICES && w.page < Share(counts, w.at)
    requires w.parts == Used(counts, w.at) + w.page
    ensures var v, share := StageStep(w, counts, recorded), Share(counts, w.at);
      && v.blobs == w.blobs[w.parts := Staged(w.at, w.page, w.page == share - 1 && share < counts[w.at])]
      && (!recorded ==> v.at == w.at && v.page == w.page && v.parts == w.parts)
      && (recorded ==>
            v.parts == w.parts + 1
            && if w.page + 1 < share then v.at == w.at && v.page == w.page + 1 else v.at == w.at + 1 && v.page == 0)
  {
    LastPart(counts, w.at, w.page);
    UsedBounds(counts, w.at);
    hide Used, IsLastAllowedPart;
  }

  lemma NextPart(counts: seq<nat>, at: nat, page: nat)
    requires ValidCounts(counts) && at < SERVICES && page < Share(counts, at)
    ensures AtPart(counts, at, page, Used(counts, at) + page)
    ensures if page + 1 < Share(counts, at) then AtPart(counts, at, page + 1, Used(counts, at) + page + 1)
            else AtPart(counts, at + 1, 0, Used(counts, at) + page + 1)
  {
    UsedBounds(counts, at);
    UsedBounds(counts, at + 1);
    PartNumber(counts, at, page);
    hide AllParts;
  }

  /** A page is the last of its service's share exactly when it is the last page or the last allowed one. */
  lemma LastPart(counts: seq<nat>, svc: nat, page: nat)
    requires ValidCounts(counts) && svc < SERVICES && page < Share(counts, svc)
    ensures page + 1 == Share(counts, svc) <==> page + 1 == counts[svc] || IsLastAllowedPart(svc, Used(counts, svc) + page)
    ensures svc + 1 < SERVICES ==> 1 <= Share(counts, svc + 1)
  {
    UsedBounds(counts, svc);
    if svc + 1 < SERVICES {
      UsedBounds(counts, svc + 1);
    }
  }

  /** Steps of the export leave the purge alone. */
  lemma PurgeUntouched(w: World, v: World, start: Mode)
    requires PurgeOk(w) && ArchiveKept(w, start)
    requires v.phase == w.phase && v.mode == w.mode && v.rows == w.rows && v.purge == w.purge && v.reported == w.reported
    requires v.account == w.account && v.checked == w.checked && v.zipped == w.zipped && v.accepted == w.accepted && v.deleted == w.deleted
    ensures PurgeOk(v) && ArchiveKept(v, start)
  {
  }

  lemma ZipKeeps(w: World, counts: seq<nat>, start: Mode, confirmed: bool, recorded: bool)
    requires Inv(w, counts, start) && CanHappen(w, Zip(confirmed, recorded))
    ensures Inv(ZipStep(w, confirmed, recorded), counts, start)
  {
    UsedBounds(counts, 0);
    UsedBounds(counts, SERVICES);
    hide AllParts, Used;
    if !exists n :: 0 <= n < w.parts && n !in w.blobs {
      assert seq(w.parts, n requires 0 <= n < w.parts => w.blobs[n]) == AllParts(counts, SERVICES);
    }
  }

  lemma OtherKeeps(w: World, counts: seq<nat>, start: Mode, e: Event)
    requires Inv(w, counts, start) && CanHappen(w, e) && !e.Stage? && !e.Zip?
    ensures Inv(Next(w, counts, e), counts, start)
  {
    assert ValidCounts(counts) && PurgeOk(w) && ArchiveKept(w, start) && (w.phase == Exporting ==> w.mode == start);
    OtherKeepsPurge(w, counts, e);
    OtherKeepsArchive(w, counts, start, e);
    OtherKeepsStaging(w, counts, start, e);
    hide Next, CanHappen, StagingOk, PurgeOk, ArchiveKept, AllParts;
  }

  lemma OtherKeepsStaging(w: World, counts: seq<nat>, start: Mode, e: Event)
    requires Inv(w, counts, start) && CanHappen(w, e) && !e.Stage? && !e.Zip?
    ensures var v := Next(w, counts, e);
      && StagingOk(v, counts)
      && (v.zip.Some? ==> v.zip.value == AllParts(counts, SERVICES))
      && (v.phase == Exporting ==> v.mode == start)
  {
    assert |w.rows| == SERVICES && w.purge < SERVICES;
    OtherShape(w, counts, e);
    hide AllParts, AtPart, PurgeOk, ArchiveKept, Next, CanHappen;
  }

  /** The staging stays where it is; parts and ZIP can only vanish. */
  ghost predicate SameStaging(w: World, v: World) {
    && v.at == w.at && v.page == w.page && v.parts == w.parts
    && (forall n :: n in v.blobs ==> n in w.blobs && v.blobs[n] == w.blobs[n])
    && (v.zip == w.zip || v.zip == None)
    && (v.phase == Exporting ==> w.phase == Exporting && v.mode == w.mode)
  }

  lemma OtherShape(w: World, counts: seq<nat>, e: Event)
    requires CanHappen(w, e) && |counts| == SERVICES && |w.rows| == SERVICES && w.purge < SERVICES && !e.Stage? && !e.Zip?
    ensures SameStaging(w, Next(w, counts, e))
  {
    hide SameStaging, PurgeStep, MailStep, CountStep, DeleteStep, StageStep, ZipStep;
    match e
    case Mail(accepted, now, recorded) => MailShape(w, accepted, now, recorded);
    case Purge(_, recorded) => PurgeShape(w, recorded);
    case Count(recorded) => CheckShape(w, recorded);
    case DeleteAccount(recorded) => CheckShape(w, recorded);
    case Crash => CheckShape(w, true);
    case _ => PlainShape(w, counts, e);
  }

  lemma MailShape(w: World, accepted: bool, now: int, recorded: bool)
    requires w.phase == Exported
    ensures SameStaging(w, MailStep(w, accepted, now, recorded))
  {
  }

  lemma PurgeShape(w: World, recorded: bool)
    requires w.purge < |w.rows| && w.phase != Exporting
    ensures SameStaging(w, PurgeStep(w, recorded)) && SameStaging(w, w)
  {
  }

  lemma CheckShape(w: World, recorded: bool)
    requires w.phase == Purged
    ensures w.checked < |w.rows| ==> SameStaging(w, CountStep(w, recorded))
    ensures SameStaging(w, DeleteStep(w, recorded)) && SameStaging(w, w.(checked := 0))
  {
  }

  lemma PlainShape(w: World, counts: seq<nat>, e: Event)
    requires CanHappen(w, e) && |counts| == SERVICES && |w.rows| == SERVICES && w.purge < SERVICES
    requires e.SkipExport? || e.LoseBlob? || e.DropZip? || e.LateRow?
    ensures SameStaging(w, Next(w, counts, e))
  {
  }

  lemma OtherKeepsPurge(w: World, counts: seq<nat>, e: Event)
    requires ValidCounts(counts) && PurgeOk(w) && CanHappen(w, e) && !e.Stage? && !e.Zip?
    ensures PurgeOk(Next(w, counts, e))
  {
    hide StageStep, ZipStep;
    if e.Purge? {
      PurgeKeeps(w, e.recorded);
    }
    hide PurgeStep;
  }

  lemma PurgeKeeps(w: World, recorded: bool)
    requires PurgeOk(w) && (w.phase == Mailed || w.phase == Purging)
    ensures PurgeOk(PurgeStep(w, recorded))
  {
  }

  lemma OtherKeepsArchive(w: World, counts: seq<nat>, start: Mode, e: Event)
    requires ValidCounts(counts) && PurgeOk(w) && ArchiveKept(w, start) && CanHappen(w, e) && !e.Stage? && !e.Zip?
    requires w.phase == Exporting ==> w.mode == start
    ensures ArchiveKept(Next(w, counts, e), start)
  {
    hide StageStep, ZipStep;
  }

  /** Every step of the saga keeps the invariant. */
  lemma NextKeeps(w: World, counts: seq<nat>, start: Mode, e: Event)
    requires Inv(w, counts, start) && CanHappen(w, e)
    ensures Inv(Next(w, counts, e), counts, start)
  {
    match e
    case Stage(recorded) => StageKeeps(w, counts, start, recorded);
    case Zip(confirmed, recorded) => ZipKeeps(w, counts, start, confirmed, recorded);
    case _ => OtherKeeps(w, counts, start, e);
  }

  // --- Whole runs ---------------------------------------------------------------------------

  /** The states a list of events leads through. */
  ghost predicate Run(ws: seq<World>, es: seq<Event>, counts: seq<nat>) {
    && |ws| == |es| + 1 && |counts| == SERVICES
    && forall i :: 0 <= i < |es| ==>
      && |ws[i].rows| == SERVICES && ws[i].purge < SERVICES && CanHappen(ws[i], es[i])
      && ws[i + 1] == Next(ws[i], counts, es[i])
  }

  lemma {:induction false} AlwaysInv(ws: seq<World>, es: seq<Event>, counts: seq<nat>, start: Mode, i: nat)
    requires Run(ws, es, counts) && Inv(ws[0], counts, start) && i < |ws|
    ensures Inv(ws[i], counts, start)
  {
    hide Inv;
    if i > 0 {
      AlwaysInv(ws, es, counts, start, i - 1);
      NextKeeps(ws[i - 1], counts, start, es[i - 1]);
    }
  }

  /**
   * In every run, whatever is lost or repeated: the parts stay within the budget and a stored ZIP
   * holds every service's pages in order; and nothing is deleted, and no account removed, before
   * the ZIP of an archive was stored and every service purged so far reported done.
   */
  lemma SagaIsSafe(ws: seq<World>, es: seq<Event>, counts: seq<nat>, start: Mode, rows: seq<nat>, deadline: int, i: nat)
    requires ValidCounts(counts) && |rows| == SERVICES && Run(ws, es, counts) && i < |ws|
    requires ws[0] == Begin(start, rows, deadline)
    ensures ws[i].parts <= MAX_PARTS
    ensures ws[i].zip.Some? ==> ws[i].zip.value == AllParts(counts, SERVICES) && SERVICES <= |ws[i].zip.value| <= MAX_PARTS
    ensures ws[i].deleted > 0 || !ws[i].account ==> PastMail(ws[i].phase) && (start == Archive ==> ws[i].zipped)
    ensures ws[i].phase == Purging ==> forall s :: 0 <= s < ws[i].purge ==> s in ws[i].reported
  {
    BeginOk(counts, start, rows, deadline);
    AlwaysInv(ws, es, counts, start, i);
    UsedBounds(counts, SERVICES);
    hide AllParts, Used;
  }

  // --- Telling the owner ----------------------------------------------------------------------

  /** One of the first `i` events was a mail the provider accepted. */
  ghost predicate Accepted(es: seq<Event>, i: nat) {
    exists j :: 0 <= j < i <= |es| && es[j].Mail? && es[j].accepted
  }

  /** One of the first `i` events ran past the deadline without an accepted mail, and moved on. */
  ghost predicate GaveUp(es: seq<Event>, i: nat, deadline: int) {
    exists j :: 0 <= j < i <= |es| && MovesOn(es[j], deadline) && !es[j].accepted
  }

  ghost predicate MovedOn(es: seq<Event>, i: nat, deadline: int) {
    exists j :: 0 <= j < i <= |es| && MovesOn(es[j], deadline)
  }

  /** Staging and zipping change neither the rows nor what the owner was told. */
  lemma ExportFrame(w: World, counts: seq<nat>, confirmed: bool, recorded: bool)
    ensures var v := ZipStep(w, confirmed, recorded);
      && v.deadline == w.deadline && v.accepted == w.accepted && v.checked == w.checked && v.rows == w.rows
      && (v.phase == w.phase || v.phase == Exported)
    ensures w.at < |counts| ==> var v := StageStep(w, counts, recorded);
      && v.deadline == w.deadline && v.accepted == w.accepted && v.checked == w.checked && v.rows == w.rows
      && v.phase == w.phase
  {
  }

  lemma MailStepFacts(w: World, counts: seq<nat>, e: Event)
    requires CanHappen(w, e) && |counts| == SERVICES && |w.rows| == SERVICES && w.purge < SERVICES
    ensures var v := Next(w, counts, e);
      && v.deadline == w.deadline
      && (PastMail(v.phase) <==> PastMail(w.phase) || MovesOn(e, w.deadline))
      && v.accepted == (w.accepted || (e.Mail? && e.accepted))
  {
    hide StageStep, ZipStep;
    match e
    case Stage(recorded) => ExportFrame(w, counts, true, recorded);
    case Zip(confirmed, recorded) => ExportFrame(w, counts, confirmed, recorded);
    case _ =>
  }

  lemma {:induction false} MailHistory(ws: seq<World>, es: seq<Event>, counts: seq<nat>, start: Mode, rows: seq<nat>, deadline: int, i: nat)
    requires Run(ws, es, counts) && ws[0] == Begin(start, rows, deadline) && i < |ws|
    ensures ws[i].deadline == deadline
    ensures PastMail(ws[i].phase) <==> MovedOn(es, i, deadline)
    ensures ws[i].accepted <==> Accepted(es, i)
  {
    if i > 0 {
      MailHistory(ws, es, counts, start, rows, deadline, i - 1);
      MailStepFacts(ws[i - 1], counts, es[i - 1]);
      OneMoreEvent(es, i - 1, deadline);
      hide Next, CanHappen, MovedOn, Accepted, MovesOn;
    }
  }

  lemma OneMoreEvent(es: seq<Event>, i: nat, deadline: int)
    requires i < |es|
    ensures MovedOn(es, i + 1, deadline) <==> MovedOn(es, i, deadline) || MovesOn(es[i], deadline)
    ensures Accepted(es, i + 1) <==> Accepted(es, i) || (es[i].Mail? && es[i].accepted)
  {
    hide MovesOn;
    if j :| 0 <= j < i && MovesOn(es[j], deadline) {
      assert 0 <= j < i + 1;
    }
    if j :| 0 <= j < i && es[j].Mail? && es[j].accepted {
      assert 0 <= j < i + 1;
    }
  }

  /**
   * The purge starts exactly when a mail was accepted and recorded or the deadline had passed. So
   * whoever deletes has an accepted mail or gave up after the deadline, and while no mail was
   * accepted the purge is reached exactly by giving up.
   */
  lemma MailBeforeDeletion(ws: seq<World>, es: seq<Event>, counts: seq<nat>, start: Mode, rows: seq<nat>, deadline: int, i: nat)
    requires ValidCounts(counts) && |rows| == SERVICES && Run(ws, es, counts) && i < |ws|
    requires ws[0] == Begin(start, rows, deadline)
    ensures PastMail(ws[i].phase) <==> MovedOn(es, i, deadline)
    ensures ws[i].deleted > 0 || !ws[i].account ==> Accepted(es, i) || GaveUp(es, i, deadline)
    ensures !Accepted(es, i) ==> (PastMail(ws[i].phase) <==> GaveUp(es, i, deadline))
  {
    MailHistory(ws, es, counts, start, rows, deadline, i);
    SagaIsSafe(ws, es, counts, start, rows, deadline, i);
    hide Run, AllParts;
  }

  /** What the mail step goes on with is an archive only if its ZIP, with every part in order, was there; else it is a deletion notice. */
  lemma MailedArchiveIsThere(ws: seq<World>, es: seq<Event>, counts: seq<nat>, start: Mode, rows: seq<nat>, deadline: int, i: nat)
    requires ValidCounts(counts) && |rows| == SERVICES && Run(ws, es, counts) && i < |es|
    requires ws[0] == Begin(start, rows, deadline) && es[i].Mail? && es[i].recorded
    ensures ws[i + 1].mode == Archive ==> start == Archive && ws[i].zip == Some(AllParts(counts, SERVICES))
    ensures ws[i].mode == Archive && ws[i].zip == None ==> ws[i + 1].mode == NoArchive
    ensures ws[i].mode != Archive || ws[i].zip.Some? ==> ws[i + 1].mode == ws[i].mode
  {
    BeginOk(counts, start, rows, deadline);
    AlwaysInv(ws, es, counts, start, i);
    hide AllParts, StagingOk, PurgeOk, ValidCounts;
    assert ws[i + 1] == MailStep(ws[i], es[i].accepted, es[i].now, true);
  }

  /** A run that deletes a row though no mail was ever accepted. */
  lemma UntoldDeletion(counts: seq<nat>, deadline: int) returns (ws: seq<World>, es: seq<Event>)
    requires ValidCounts(counts)
    ensures Run(ws, es, counts) && ws[0] == Begin(NoArchive, [1, 0, 0, 0, 0], deadline)
    ensures !Accepted(es, |es|) && ws[|es|].deleted == 1
  {
    es := [SkipExport(true), Mail(false, deadline + 1, true), Purge(true, true)];
    var a := Begin(NoArchive, [1, 0, 0, 0, 0], deadline);
    var b := a.(phase := Exported);
    var c := b.(phase := Mailed);
    var d := PurgeStep(c, true);
    ws := [a, b, c, d];
  }

  // --- Removing the account -------------------------------------------------------------------

  /** Rows of service `s` that arrived from event `j` up to event `i`. */
  function Arrivals(es: seq<Event>, j: nat, i: nat, s: nat): nat
    requires j <= i <= |es|
  {
    if i == j then 0 else Arrivals(es, j, i - 1, s) + if es[i - 1] == LateRow(s) then 1 else 0
  }

  lemma {:induction false} NoArrivals(es: seq<Event>, j: nat, i: nat, s: nat)
    requires j <= i <= |es|
    ensures Arrivals(es, j, i, s) == 0 <==> LateRow(s) !in es[j..i]
  {
    if i > j {
      NoArrivals(es, j, i - 1, s);
      assert es[j..i] == es[j..i - 1] + [es[i - 1]];
    }
  }

  /** Event `j` is the count of service `s` that the checks standing at `i` rest on. */
  ghost predicate CountedAt(ws: seq<World>, es: seq<Event>, i: nat, s: nat, j: nat) {
    && j < i < |ws| == |es| + 1 && es[j].Count? && ws[j].checked == s && s < |ws[j].rows| && ws[j].rows[s] == 0
    && AllReported(ws[j])
    && (forall k :: j < k <= i ==> ws[k].checked > s)
  }

  lemma CountFacts(w: World, counts: seq<nat>, e: Event, s: nat)
    requires CanHappen(w, e) && |counts| == SERVICES && PurgeOk(w) && s < SERVICES
    requires Next(w, counts, e).checked > s
    ensures var v := Next(w, counts, e);
      s < |v.rows| && if w.checked > s then v.rows[s] == w.rows[s] + if e == LateRow(s) then 1 else 0
      else e.Count? && w.checked == s && w.rows[s] == 0 && v.rows[s] == 0 && AllReported(w)
  {
    hide StageStep, ZipStep;
    match e
    case Stage(recorded) => ExportFrame(w, counts, true, recorded);
    case Zip(confirmed, recorded) => ExportFrame(w, counts, confirmed, recorded);
    case _ =>
  }

  ghost predicate CountedFrom(ws: seq<World>, es: seq<Event>, i: nat, s: nat, j: nat) {
    CountedAt(ws, es, i, s, j) && s < |ws[i].rows| && ws[i].rows[s] == Arrivals(es, j + 1, i, s)
  }

  /** Step `i` found service `s` empty. */
  ghost predicate FoundEmpty(ws: seq<World>, es: seq<Event>, i: nat, s: nat) {
    && 0 < i < |ws| == |es| + 1 && es[i - 1].Count? && ws[i - 1].checked == s && ws[i].checked > s
    && s < |ws[i - 1].rows| && s < |ws[i].rows| && ws[i - 1].rows[s] == 0 == ws[i].rows[s] && AllReported(ws[i - 1])
  }

  /** Step `i` left the check of service `s` standing. */
  ghost predicate StillCounted(ws: seq<World>, es: seq<Event>, i: nat, s: nat) {
    && 0 < i < |ws| == |es| + 1 && ws[i - 1].checked > s && ws[i].checked > s && s < |ws[i - 1].rows| == |ws[i].rows|
    && ws[i].rows[s] == ws[i - 1].rows[s] + if es[i - 1] == LateRow(s) then 1 else 0
  }

  lemma CheckStep(ws: seq<World>, es: seq<Event>, counts: seq<nat>, start: Mode, i: nat, s: nat)
    requires Run(ws, es, counts) && Inv(ws[0], counts, start) && 0 < i < |ws| && s < SERVICES && ws[i].checked > s
    ensures FoundEmpty(ws, es, i, s) || StillCounted(ws, es, i, s)
  {
    hide Inv, Run, Next, CanHappen, AllReported, PurgeOk;
    StepBefore(ws, es, counts, start, i);
    CountFacts(ws[i - 1], counts, es[i - 1], s);
  }

  lemma StepBefore(ws: seq<World>, es: seq<Event>, counts: seq<nat>, start: Mode, i: nat)
    requires Run(ws, es, counts) && Inv(ws[0], counts, start) && 0 < i < |ws|
    ensures |ws| == |es| + 1 && |counts| == SERVICES && PurgeOk(ws[i - 1]) && |ws[i].rows| == SERVICES
    ensures |ws[i - 1].rows| == SERVICES && ws[i - 1].purge < SERVICES
    ensures CanHappen(ws[i - 1], es[i - 1]) && ws[i] == Next(ws[i - 1], counts, es[i - 1])
  {
    AlwaysInv(ws, es, counts, start, i - 1);
    AlwaysInv(ws, es, counts, start, i);
    hide Next, CanHappen, ArchiveKept, StagingOk;
  }

  lemma CountedOn(ws: seq<World>, es: seq<Event>, i: nat, s: nat, j: nat)
    requires StillCounted(ws, es, i, s) && CountedFrom(ws, es, i - 1, s, j)
    ensures CountedFrom(ws, es, i, s, j)
  {
  }

  lemma CountedNow(ws: seq<World>, es: seq<Event>, i: nat, s: nat)
    requires FoundEmpty(ws, es, i, s)
    ensures CountedFrom(ws, es, i, s, i - 1)
  {
  }

  /** Every check that stands rests on one count, and since then the service holds what arrived. */
  lemma {:induction false} Counted(ws: seq<World>, es: seq<Event>, counts: seq<nat>, start: Mode, i: nat, s: nat) returns (j: nat)
    requires Run(ws, es, counts) && Inv(ws[0], counts, start) && i < |ws| && s < SERVICES && ws[i].checked > s
    requires ws[0].checked == 0
    ensures CountedFrom(ws, es, i, s, j)
  {
    assert i > 0;
    CheckStep(ws, es, counts, start, i, s);
    hide Run, Inv, CountedFrom, FoundEmpty;
    if StillCounted(ws, es, i, s) {
      j := Counted(ws, es, counts, start, i - 1, s);
      CountedOn(ws, es, i, s, j);
    } else {
      j := i - 1;
      CountedNow(ws, es, i, s);
    }
  }

  /** The counts an account deletion rests on, one per service. */
  ghost predicate CountsOf(ws: seq<World>, es: seq<Event>, i: nat, at: seq<nat>) {
    |at| == SERVICES && forall s :: 0 <= s < SERVICES ==> CountedFrom(ws, es, i, s, at[s])
  }

  /**
   * When the account goes, every service had reported done and then been found empty, each at its
   * own count; and all rows are gone exactly when none arrived in a service after its count.
   */
  lemma AccountGoes(ws: seq<World>, es: seq<Event>, counts: seq<nat>, start: Mode, rows: seq<nat>, deadline: int, i: nat)
    returns (at: seq<nat>)
    requires ValidCounts(counts) && |rows| == SERVICES && Run(ws, es, counts) && i < |es|
    requires ws[0] == Begin(start, rows, deadline) && ws[i].account && !ws[i + 1].account
    ensures CountsOf(ws, es, i, at) && |ws[i + 1].rows| >= SERVICES && forall s :: 0 <= s < SERVICES ==> at[s] < i
    ensures Gone(ws[i + 1].rows) <==> forall s :: 0 <= s < SERVICES ==> LateRow(s) !in es[at[s] + 1..i]
  {
    assert CanHappen(ws[i], es[i]) && ws[i + 1] == Next(ws[i], counts, es[i]);
    OnlyDeletionDeletes(ws[i], counts, es[i]);
    BeginOk(counts, start, rows, deadline);
    hide *;
    at := [];
    for s := 0 to SERVICES
      invariant |at| == s && forall t :: 0 <= t < s ==> CountedFrom(ws, es, i, t, at[t])
    {
      var j := Counted(ws, es, counts, start, i, s);
      at := at + [j];
    }
    AllCounted(ws, es, i, at);
    CountsGiveRows(ws, es, i, at);
  }

  lemma AllCounted(ws: seq<World>, es: seq<Event>, i: nat, at: seq<nat>)
    requires |at| == SERVICES && forall t :: 0 <= t < |at| ==> CountedFrom(ws, es, i, t, at[t])
    ensures CountsOf(ws, es, i, at) && forall s :: 0 <= s < SERVICES ==> at[s] < i
  {
  }

  lemma CountsGiveRows(ws: seq<World>, es: seq<Event>, i: nat, at: seq<nat>)
    requires i < |es| && |ws| == |es| + 1 && ws[i + 1].rows == ws[i].rows && CountsOf(ws, es, i, at)
    ensures |ws[i + 1].rows| >= SERVICES && forall s :: 0 <= s < SERVICES ==> at[s] < i
    ensures Gone(ws[i + 1].rows) <==> forall s :: 0 <= s < SERVICES ==> LateRow(s) !in es[at[s] + 1..i]
  {
    assert CountedFrom(ws, es, i, 4, at[4]);
    forall s | 0 <= s < SERVICES
      ensures at[s] < i
      ensures ws[i].rows[s] == 0 <==> LateRow(s) !in es[at[s] + 1..i]
    {
      assert CountedFrom(ws, es, i, s, at[s]);
      NoArrivals(es, at[s] + 1, i, s);
    }
  }

  /** No service holds a row. */
  ghost predicate Gone(rows: seq<nat>)
    requires |rows| >= SERVICES
  {
    forall s: nat :: s < SERVICES ==> rows[s] == 0
  }

  lemma OnlyDeletionDeletes(w: World, counts: seq<nat>, e: Event)
    requires |counts| == SERVICES && |w.rows| == SERVICES && w.purge < SERVICES && CanHappen(w, e)
    requires w.account && !Next(w, counts, e).account
    ensures e.DeleteAccount? && w.checked == SERVICES && Next(w, counts, e).rows == w.rows
  {
  }

  /** Once the ledger has recorded the deletion, no step deletes a row any more. */
  lemma LeftForGood(w: World, counts: seq<nat>, e: Event, s: nat)
    requires |counts| == SERVICES && |w.rows| == SERVICES && w.purge < SERVICES && CanHappen(w, e) && s < SERVICES
    requires w.phase == AccountDeleted
    ensures Next(w, counts, e).phase == AccountDeleted && Next(w, counts, e).rows[s] >= w.rows[s]
  {
  }

  /** A run that removes the account while a service holds a row that arrived after its count. */
  lemma RowOutlivesAccount(counts: seq<nat>) returns (ws: seq<World>, es: seq<Event>)
    requires ValidCounts(counts)
    ensures Run(ws, es, counts) && ws[0] == Begin(Empty, [0, 0, 0, 0, 0], 0)
    ensures ws[|es|].phase == AccountDeleted && !ws[|es|].account && ws[|es|].rows == [1, 0, 0, 0, 0]
  {
    var a := Begin(Empty, [0, 0, 0, 0, 0], 0);
    var b := a.(phase := Exported);
    var c := b.(phase := Mailed, accepted := true);
    es := [SkipExport(true), Mail(true, 0, true)];
    ws := [a, b, c];
    var us, ds := PurgeRun(c, SERVICES), Times(Purge(true, true), SERVICES);
    PurgeRunStates(c, counts, SERVICES);
    var vs, fs := LateCheck(us[SERVICES], counts);
    hide Next, CanHappen;
    Joined(ws, es, us, ds, counts);
    ws, es := ws + us[1..], es + ds;
    Joined(ws, es, vs, fs, counts);
    ws, es := ws + vs[1..], es + fs;
  }

  lemma Joined(ws: seq<World>, es: seq<Event>, vs: seq<World>, fs: seq<Event>, counts: seq<nat>)
    requires Run(ws, es, counts) && Run(vs, fs, counts) && vs[0] == ws[|es|]
    ensures Run(ws + vs[1..], es + fs, counts)
    ensures (ws + vs[1..])[|es + fs|] == vs[|fs|] && (ws + vs[1..])[0] == ws[0]
  {
    hide Next, CanHappen;
    var all := ws + vs[1..];
    forall i | |es| <= i <= |es| + |fs| ensures all[i] == vs[i - |es|] {
    }
  }

  /** Between the count of the first service and the deletion a row arrives there. */
  lemma LateCheck(a: World, counts: seq<nat>) returns (ws: seq<World>, es: seq<Event>)
    requires ValidCounts(counts) && a.phase == Purged && a.rows == [0, 0, 0, 0, 0] && a.checked == 0 && a.purge < SERVICES
    ensures Run(ws, es, counts) && ws[0] == a
    ensures ws[|es|].phase == AccountDeleted && !ws[|es|].account && ws[|es|].rows == [1, 0, 0, 0, 0]
  {
    var one := a.(rows := [1, 0, 0, 0, 0]);
    assert a.rows[0 := 1] == one.rows;
    ws, es := [a], [];
    ws, es := RunOn(ws, es, counts, Count(true), a.(checked := 1));
    ws, es := RunOn(ws, es, counts, LateRow(0), one.(checked := 1));
    for n := 1 to SERVICES
      invariant Run(ws, es, counts) && ws[0] == a && ws[|es|] == one.(checked := n)
    {
      ws, es := RunOn(ws, es, counts, Count(true), one.(checked := n + 1));
    }
    ws, es := RunOn(ws, es, counts, DeleteAccount(true), one.(phase := AccountDeleted, account := false, checked := 0));
  }

  /** A run and one more step. */
  lemma RunOn(ws: seq<World>, es: seq<Event>, counts: seq<nat>, e: Event, v: World) returns (vs: seq<World>, fs: seq<Event>)
    requires Run(ws, es, counts) && |ws[|es|].rows| == SERVICES && ws[|es|].purge < SERVICES
    requires CanHappen(ws[|es|], e) && v == Next(ws[|es|], counts, e)
    ensures vs == ws + [v] && fs == es + [e] && Run(vs, fs, counts)
  {
    hide CanHappen, Next;
    vs, fs := ws + [v], es + [e];
  }

  /** A purge step over empty services. */
  function Emptied(w: World): World {
    w.(reported := w.reported + {w.purge}, purge := if w.purge + 1 < SERVICES then w.purge + 1 else w.purge,
       phase := if w.purge + 1 < SERVICES then Purging else Purged)
  }

  lemma EmptyStep(w: World, counts: seq<nat>)
    requires w.rows == [0, 0, 0, 0, 0] && w.purge < SERVICES == |counts| && (w.phase == Mailed || w.phase == Purging)
    ensures CanHappen(w, Purge(true, true)) && Next(w, counts, Purge(true, true)) == Emptied(w)
  {
    assert w.rows[w.purge := 0] == w.rows;
  }

  function PurgeRun(c: World, n: nat): (r: seq<World>)
    ensures |r| == n + 1
  {
    if n == 0 then [c] else PurgeRun(c, n - 1) + [Emptied(PurgeRun(c, n - 1)[n - 1])]
  }

  lemma {:induction false} PurgeRunStates(c: World, counts: seq<nat>, n: nat)
    requires c.rows == [0, 0, 0, 0, 0] && c.purge == 0 && c.phase == Mailed && |counts| == SERVICES && n <= SERVICES
    ensures Run(PurgeRun(c, n), Times(Purge(true, true), n), counts)
    ensures var v := PurgeRun(c, n)[n];
      && v == c.(phase := v.phase, purge := v.purge, reported := v.reported)
      && v.phase == (if n == 0 then Mailed else if n < SERVICES then Purging else Purged)
      && v.purge == (if n < SERVICES then n else SERVICES - 1)
  {
    if n > 0 {
      PurgeRunStates(c, counts, n - 1);
      var w := PurgeRun(c, n - 1)[n - 1];
      assert 0 <= w.purge < SERVICES && w.rows == [0, 0, 0, 0, 0];
      EmptyStep(w, counts);
      hide Next, CanHappen;
      var vs, fs := RunOn(PurgeRun(c, n - 1), Times(Purge(true, true), n - 1), counts, Purge(true, true), Emptied(w));
      assert vs == PurgeRun(c, n) && fs == Times(Purge(true, true), n);
    }
  }

  // --- How long it takes --------------------------------------------------------------------

  function Times(e: Event, n: nat): (r: seq<Event>)
    ensures |r| == n && forall i :: 0 <= i < n ==> r[i] == e
  {
    seq(n, i => e)
  }

  /** Repeating one event while it can happen. */
  ghost function Repeat(w: World, counts: seq<nat>, e: Event, n: nat): World
    requires |counts| == SERVICES && |w.rows| == SERVICES && w.purge < SERVICES && e in {Stage(true), Purge(true, true)}
    decreases n
  {
    if n == 0 || !CanHappen(w, e) then w
    else
      var v := Next(w, counts, e);
      if |v.rows| == SERVICES && v.purge < SERVICES then Repeat(v, counts, e, n - 1) else v
  }

  /** Purge steps the services from `s` on still need. */
  function StepsFrom(rows: seq<nat>, s: nat): nat
    requires s <= |rows|
    decreases |rows| - s
  {
    if s == |rows| then 0 else rows[s] / PURGE_ROWS + 1 + StepsFrom(rows, s + 1)
  }

  lemma {:induction false} StepsAfter(rows: seq<nat>, other: seq<nat>, s: nat)
    requires |rows| == |other| && s <= |rows| && forall k :: s <= k < |rows| ==> rows[k] == other[k]
    ensures StepsFrom(rows, s) == StepsFrom(other, s)
    decreases |rows| - s
  {
    if s < |rows| {
      StepsAfter(rows, other, s + 1);
    }
  }

  /** One granted purge step takes exactly one off, until every service has reported done. */
  lemma PurgeStepCounts(w: World)
    requires |w.rows| == SERVICES && w.purge < SERVICES && (w.phase == Mailed || w.phase == Purging)
    ensures var v := PurgeStep(w, true);
      && (v.phase == Purged ==> StepsFrom(w.rows, w.purge) == 1)
      && (v.phase != Purged ==> v.phase == Purging && StepsFrom(v.rows, v.purge) == StepsFrom(w.rows, w.purge) - 1)
      && v.deleted - w.deleted == w.rows[w.purge] - v.rows[w.purge]
  {
    var v := PurgeStep(w, true);
    StepsAfter(w.rows, v.rows, w.purge + 1);
    assert StepsFrom(w.rows, SERVICES) == 0;
    if w.rows[w.purge] >= PURGE_ROWS {
      assert v.rows[w.purge] / PURGE_ROWS == w.rows[w.purge] / PURGE_ROWS - 1;
    }
  }

  /**
   * While no rows arrive, purging takes one step per full batch of a service and one more that
   * finds it done: exactly the sum of those, no more and no fewer.
   */
  lemma {:induction false} PurgeTakes(w: World, counts: seq<nat>, n: nat)
    requires |counts| == SERVICES && |w.rows| == SERVICES && w.purge < SERVICES && (w.phase == Mailed || w.phase == Purging)
    ensures Repeat(w, counts, Purge(true, true), n).phase == Purged <==> n >= StepsFrom(w.rows, w.purge)
    decreases n
  {
    assert StepsFrom(w.rows, w.purge) >= 1;
    if n > 0 {
      PurgeStepCounts(w);
      var v := PurgeStep(w, true);
      hide PurgeStep, StepsFrom;
      if v.phase != Purged {
        PurgeTakes(v, counts, n - 1);
      }
    }
  }

  /** Without losses the export takes one step per part. */
  lemma {:induction false} ExportTakes(w: World, counts: seq<nat>, start: Mode, n: nat)
    requires Inv(w, counts, start) && w.phase == Exporting && w.mode == Archive
    ensures var v := Repeat(w, counts, Stage(true), n);
      v.at == SERVICES <==> w.parts + n >= Used(counts, SERVICES)
    decreases n
  {
    PartsLeft(counts, w.at, w.page, w.parts);
    if n > 0 && w.at < SERVICES {
      NextKeeps(w, counts, start, Stage(true));
      var v := Next(w, counts, Stage(true));
      assert v.parts == w.parts + 1;
      hide Used, AllParts, Inv, Next;
      ExportTakes(v, counts, start, n - 1);
    }
  }

  lemma PartsLeft(counts: seq<nat>, at: nat, page: nat, parts: nat)
    requires ValidCounts(counts) && AtPart(counts, at, page, parts)
    ensures parts <= Used(counts, SERVICES) && (parts == Used(counts, SERVICES) <==> at == SERVICES)
  {
    if at < SERVICES {
      PartNumber(counts, at, page);
    }
  }
}
