/**
 * Delivery of committed events (support.ts, maintenance.ts, queue_outbox.ts): a commit stores an
 * outbox row, requests and the cron publish it part by part and delete it, anything may fail at
 * any point, and a consumer deduplicates by message id.
 */
module Outbox {
  import opened Common
  import opened EventSplit

  type Tid = string

  datatype Key = Key(tid: Tid, id: string)

  /** The committing request delivers at once; the cron first looks for a tombstone. */
  datatype Duty = Own | Unchecked | Live | Dead

  /** A deliverer holding a copy of an event, and how many of its messages it has sent. */
  datatype Holder = Holder(key: Key, msg: Msg, sent: nat, duty: Duty)

  /** What one commit wrote to the outbox, and the copy its own request delivers. */
  datatype Copies = Copies(stored: Msg, own: Msg)

  datatype World = World(
    rows: map<Key, Msg>, holders: map<nat, Holder>, tombstones: set<Tid>,
    queue: seq<Msg>, applied: seq<Msg>,
    committed: map<Key, Copies>, sentAll: set<Key>, wiped: set<Key>, dropped: set<Key>)

  const START := World(map[], map[], {}, [], [], map[], {}, {}, {})

  datatype Event =
    | Commit(h: nat, key: Key, copies: Copies)
    | Load(h: nat, key: Key)
    | Check(h: nat)
    | Send(h: nat)
    | Remove(h: nat)
    | Drop(h: nat)
    | GiveUp(h: nat)
    | Wipe(tid: Tid, keys: set<Key>)
    | Tombstone(tid: Tid)
    | Sweep(tid: Tid)
    | Consume(i: nat)

  /** A fresh event: its own id, free of hash signs, in every copy. */
  ghost predicate FreshEvent(w: World, key: Key, c: Copies) {
    && c.stored.id == key.id && c.own.id == key.id && '#' !in key.id
    && c.stored.rest == c.own.rest
    && forall k :: k in w.committed ==> k.id != key.id
  }

  predicate MayPublish(x: Holder) {
    x.duty == Own || x.duty == Live
  }

  ghost predicate CanHappen(w: World, maxBytes: nat, e: Event) {
    match e
    case Commit(h, key, copies) => h !in w.holders && FreshEvent(w, key, copies)
    case Load(h, key) => h !in w.holders && key in w.rows
    case Check(h) => h in w.holders && w.holders[h].duty == Unchecked
    case Send(h) => h in w.holders && MayPublish(w.holders[h]) && w.holders[h].sent < |Split(w.holders[h].msg, maxBytes)|
    case Remove(h) => h in w.holders && MayPublish(w.holders[h]) && w.holders[h].sent >= |Split(w.holders[h].msg, maxBytes)|
    case Drop(h) => h in w.holders && w.holders[h].duty == Dead
    case GiveUp(h) => h in w.holders
    case Wipe(tid, keys) => forall k :: k in keys ==> k.tid == tid
    case Tombstone(_) => true
    case Sweep(_) => true
    case Consume(i) => i < |w.queue|
  }

  ghost predicate Known(applied: seq<Msg>, id: string) {
    exists i :: 0 <= i < |applied| && applied[i].id == id
  }

  ghost function Next(w: World, maxBytes: nat, e: Event): World
    requires CanHappen(w, maxBytes, e)
  {
    match e
    case Commit(h, key, c) =>
      w.(rows := w.rows[key := c.stored], holders := w.holders[h := Holder(key, c.own, 0, Own)], committed := w.committed[key := c])
    case Load(h, key) => w.(holders := w.holders[h := Holder(key, w.rows[key], 0, Unchecked)])
    case Check(h) =>
      var x := w.holders[h];
      w.(holders := w.holders[h := x.(duty := if x.key.tid in w.tombstones then Dead else Live)])
    case Send(h) =>
      var x := w.holders[h];
      w.(queue := w.queue + [Split(x.msg, maxBytes)[x.sent]], holders := w.holders[h := x.(sent := x.sent + 1)])
    case Remove(h) =>
      w.(rows := w.rows - {w.holders[h].key}, holders := w.holders - {h}, sentAll := w.sentAll + {w.holders[h].key})
    case Drop(h) =>
      w.(rows := w.rows - {w.holders[h].key}, holders := w.holders - {h}, dropped := w.dropped + {w.holders[h].key})
    case GiveUp(h) => w.(holders := w.holders - {h})
    case Wipe(tid, keys) => w.(rows := w.rows - keys, wiped := w.wiped + keys * w.rows.Keys)
    case Tombstone(tid) => w.(tombstones := w.tombstones + {tid})
    case Sweep(tid) => w.(tombstones := w.tombstones - {tid})
    case Consume(i) =>
      if Known(w.applied, w.queue[i].id) then w else w.(applied := w.applied + [w.queue[i]])
  }

  // --- What every step keeps ------------------------------------------------------------------

  ghost predicate IsCopy(w: World, key: Key, m: Msg) {
    key in w.committed && (m == w.committed[key].stored || m == w.committed[key].own)
  }

  /** One of the two copies is in the queue in full. */
  ghost predicate FullySent(w: World, maxBytes: nat, key: Key) {
    key in w.committed && (AllQueued(w.queue, w.committed[key].stored, maxBytes) || AllQueued(w.queue, w.committed[key].own, maxBytes))
  }

  ghost predicate AllQueued(queue: seq<Msg>, m: Msg, maxBytes: nat) {
    SentUpTo(queue, m, maxBytes, |Split(m, maxBytes)|)
  }

  ghost predicate SentUpTo(queue: seq<Msg>, m: Msg, maxBytes: nat, n: nat) {
    n <= |Split(m, maxBytes)| && forall k :: 0 <= k < n ==> Split(m, maxBytes)[k] in queue
  }

  ghost predicate FromCopy(w: World, maxBytes: nat, p: Msg) {
    exists key, m, k: nat :: IsCopy(w, key, m) && k < |Split(m, maxBytes)| && p == Split(m, maxBytes)[k]
  }

  ghost predicate EventsOk(w: World) {
    && (forall key :: key in w.committed ==>
          w.committed[key].stored.id == key.id && w.committed[key].own.id == key.id && '#' !in key.id
          && w.committed[key].stored.rest == w.committed[key].own.rest)
    && (forall k, l :: k in w.committed && l in w.committed && k != l ==> k.id != l.id)
  }

  ghost predicate RowsOk(w: World) {
    && (forall key :: key in w.rows ==> key in w.committed && w.rows[key] == w.committed[key].stored)
    && (forall key :: key in w.committed ==> key in w.rows || key in w.sentAll || key in w.wiped || key in w.dropped)
  }

  ghost predicate HoldersOk(w: World, maxBytes: nat) {
    forall h :: h in w.holders ==> HolderOk(w, maxBytes, w.holders[h])
  }

  ghost predicate QueueOk(w: World, maxBytes: nat) {
    && (forall p :: p in w.queue ==> FromCopy(w, maxBytes, p))
    && (forall key :: key in w.sentAll ==> FullySent(w, maxBytes, key))
  }

  ghost predicate AppliedOk(w: World) {
    && (forall i, j :: 0 <= i < j < |w.applied| ==> w.applied[i].id != w.applied[j].id)
    && (forall i :: 0 <= i < |w.applied| ==> w.applied[i] in w.queue)
  }

  ghost predicate Inv(w: World, maxBytes: nat) {
    EventsOk(w) && RowsOk(w) && HoldersOk(w, maxBytes) && QueueOk(w, maxBytes) && AppliedOk(w)
  }

  /** Nothing committed or queued is forgotten. */
  ghost predicate Grows(w: World, v: World) {
    && (forall k :: k in w.committed ==> k in v.committed && v.committed[k] == w.committed[k])
    && (forall p :: p in w.queue ==> p in v.queue)
  }

  lemma NextGrows(w: World, maxBytes: nat, e: Event)
    requires EventsOk(w) && CanHappen(w, maxBytes, e)
    ensures Grows(w, Next(w, maxBytes, e))
  {
    hide Split, Known;
  }

  lemma NextEvents(w: World, maxBytes: nat, e: Event)
    requires EventsOk(w) && CanHappen(w, maxBytes, e)
    ensures EventsOk(Next(w, maxBytes, e))
  {
    hide Split, Known;
  }

  lemma NextRows(w: World, maxBytes: nat, e: Event)
    requires RowsOk(w) && CanHappen(w, maxBytes, e)
    ensures RowsOk(Next(w, maxBytes, e))
  {
    hide Split, Known;
  }

  lemma NextApplied(w: World, maxBytes: nat, e: Event)
    requires AppliedOk(w) && CanHappen(w, maxBytes, e) && Grows(w, Next(w, maxBytes, e))
    ensures AppliedOk(Next(w, maxBytes, e))
  {
    hide Split;
    var v := Next(w, maxBytes, e);
    if e.Consume? {
      hide Grows;
    } else {
      assert v.applied == w.applied;
      hide Next, CanHappen;
    }
  }

  ghost predicate HolderOk(w: World, maxBytes: nat, x: Holder) {
    IsCopy(w, x.key, x.msg) && SentUpTo(w.queue, x.msg, maxBytes, x.sent)
  }

  lemma HolderStays(w: World, v: World, maxBytes: nat, x: Holder)
    requires Grows(w, v) && HolderOk(w, maxBytes, x)
    ensures HolderOk(v, maxBytes, x)
  {
    hide Split;
  }

  predicate TakesUp(e: Event) {
    e.Commit? || e.Load? || e.Check? || e.Send?
  }

  /** The holder a step takes on or moves on. */
  lemma TouchedHolder(w: World, maxBytes: nat, e: Event)
    requires RowsOk(w) && HoldersOk(w, maxBytes) && CanHappen(w, maxBytes, e) && TakesUp(e)
    requires Grows(w, Next(w, maxBytes, e))
    ensures var v := Next(w, maxBytes, e); e.h in v.holders && HolderOk(v, maxBytes, v.holders[e.h])
  {
    var v := Next(w, maxBytes, e);
    hide Split;
    match e {
      case Commit(h, key, c) =>
        hide FreshEvent;
      case Load(h, key) =>
      case Check(h) =>
        HolderStays(w, v, maxBytes, w.holders[h]);
      case Send(h) =>
        var x := w.holders[h];
        assert HolderOk(w, maxBytes, x);
        assert v.queue[|w.queue|] == Split(x.msg, maxBytes)[x.sent];
        SentOneMore(w.queue, v.queue, x.msg, maxBytes, x.sent);
        hide SentUpTo;
    }
  }

  lemma SentOneMore(queue: seq<Msg>, more: seq<Msg>, m: Msg, maxBytes: nat, n: nat)
    requires SentUpTo(queue, m, maxBytes, n) && n < |Split(m, maxBytes)|
    requires (forall q :: q in queue ==> q in more) && Split(m, maxBytes)[n] in more
    ensures SentUpTo(more, m, maxBytes, n + 1)
  {
    hide Split;
  }

  lemma NextHolders(w: World, maxBytes: nat, e: Event)
    requires RowsOk(w) && HoldersOk(w, maxBytes) && CanHappen(w, maxBytes, e) && Grows(w, Next(w, maxBytes, e))
    ensures HoldersOk(Next(w, maxBytes, e), maxBytes)
  {
    var v := Next(w, maxBytes, e);
    if TakesUp(e) {
      TouchedHolder(w, maxBytes, e);
    }
    hide HolderOk, RowsOk, Split, Known, FreshEvent;
    forall h | h in v.holders ensures HolderOk(v, maxBytes, v.holders[h]) {
      if !(TakesUp(e) && h == e.h) {
        assert h in w.holders && v.holders[h] == w.holders[h];
        HolderStays(w, v, maxBytes, w.holders[h]);
      }
    }
  }

  lemma FromCopyStays(w: World, v: World, maxBytes: nat, p: Msg)
    requires Grows(w, v) && FromCopy(w, maxBytes, p)
    ensures FromCopy(v, maxBytes, p)
  {
    hide Split;
    var key, m, k: nat :| IsCopy(w, key, m) && k < |Split(m, maxBytes)| && p == Split(m, maxBytes)[k];
    assert IsCopy(v, key, m);
  }

  lemma FullySentStays(w: World, v: World, maxBytes: nat, key: Key)
    requires Grows(w, v) && FullySent(w, maxBytes, key)
    ensures FullySent(v, maxBytes, key)
  {
    hide Split;
  }

  lemma NextQueue(w: World, maxBytes: nat, e: Event)
    requires HoldersOk(w, maxBytes) && QueueOk(w, maxBytes) && CanHappen(w, maxBytes, e) && Grows(w, Next(w, maxBytes, e))
    ensures QueueOk(Next(w, maxBytes, e), maxBytes)
  {
    var v := Next(w, maxBytes, e);
    forall p | p in v.queue ensures FromCopy(v, maxBytes, p) {
      QueuedBefore(w, maxBytes, e, p);
    }
    forall key | key in v.sentAll ensures FullySent(v, maxBytes, key) {
      SentBefore(w, maxBytes, e, key);
    }
    hide Next, CanHappen, FromCopy, FullySent;
  }

  lemma QueuedBefore(w: World, maxBytes: nat, e: Event, p: Msg)
    requires HoldersOk(w, maxBytes) && QueueOk(w, maxBytes) && CanHappen(w, maxBytes, e) && Grows(w, Next(w, maxBytes, e))
    requires p in Next(w, maxBytes, e).queue
    ensures FromCopy(Next(w, maxBytes, e), maxBytes, p)
  {
    var v := Next(w, maxBytes, e);
    hide Split, Known, FreshEvent, FullySent;
    if p in w.queue {
      hide FromCopy, Next, CanHappen;
      FromCopyStays(w, v, maxBytes, p);
    } else {
      assert e.Send?;
      var x := w.holders[e.h];
      assert p == Split(x.msg, maxBytes)[x.sent];
      assert IsCopy(v, x.key, x.msg) by {
        assert IsCopy(w, x.key, x.msg);
      }
    }
  }

  lemma SentBefore(w: World, maxBytes: nat, e: Event, key: Key)
    requires HoldersOk(w, maxBytes) && QueueOk(w, maxBytes) && CanHappen(w, maxBytes, e) && Grows(w, Next(w, maxBytes, e))
    requires key in Next(w, maxBytes, e).sentAll
    ensures FullySent(Next(w, maxBytes, e), maxBytes, key)
  {
    var v := Next(w, maxBytes, e);
    hide Split, Known, FreshEvent, FromCopy;
    if key in w.sentAll {
      hide Next, CanHappen;
      FullySentStays(w, v, maxBytes, key);
    } else {
      assert e.Remove?;
      var x := w.holders[e.h];
      assert x.key == key && IsCopy(w, key, x.msg) && AllQueued(w.queue, x.msg, maxBytes);
    }
  }

  /** Every step keeps the invariant. */
  lemma NextKeeps(w: World, maxBytes: nat, e: Event)
    requires Inv(w, maxBytes) && CanHappen(w, maxBytes, e)
    ensures Inv(Next(w, maxBytes, e), maxBytes)
  {
    hide EventsOk, RowsOk, HoldersOk, QueueOk, AppliedOk, Next, CanHappen, Grows;
    NextGrows(w, maxBytes, e);
    NextEvents(w, maxBytes, e);
    NextRows(w, maxBytes, e);
    NextHolders(w, maxBytes, e);
    NextQueue(w, maxBytes, e);
    NextApplied(w, maxBytes, e);
  }

  // --- Whole runs -----------------------------------------------------------------------------

  ghost predicate Run(ws: seq<World>, es: seq<Event>, maxBytes: nat) {
    && |ws| == |es| + 1 && ws[0] == START
    && forall i :: 0 <= i < |es| ==> CanHappen(ws[i], maxBytes, es[i]) && ws[i + 1] == Next(ws[i], maxBytes, es[i])
  }

  lemma {:induction false} AlwaysInv(ws: seq<World>, es: seq<Event>, maxBytes: nat, i: nat)
    requires Run(ws, es, maxBytes) && i < |ws|
    ensures Inv(ws[i], maxBytes)
  {
    hide Next, CanHappen;
    if i > 0 {
      AlwaysInv(ws, es, maxBytes, i - 1);
      hide Inv;
      NextKeeps(ws[i - 1], maxBytes, es[i - 1]);
    }
  }

  /** A clear or a purge named the event while it stood in the outbox. */
  ghost predicate WipedBefore(ws: seq<World>, es: seq<Event>, i: nat, key: Key) {
    exists j :: 0 <= j < i <= |es| <= |ws| && es[j].Wipe? && key in es[j].keys && key in ws[j].rows
  }

  /** The cron, holding the event, found its workspace tombstoned. */
  ghost predicate SeenDead(ws: seq<World>, es: seq<Event>, i: nat, key: Key) {
    exists j :: 0 <= j < i <= |es| <= |ws| && FoundDead(ws[j], es[j], key)
  }

  ghost predicate FoundDead(w: World, e: Event, key: Key) {
    e.Check? && e.h in w.holders && w.holders[e.h].key == key && key in w.committed && key.tid in w.tombstones
  }

  /** Where the wiped, the dropped and the condemned events of a world come from. */
  ghost predicate Accounted(ws: seq<World>, es: seq<Event>, i: nat, key: Key)
    requires i < |ws|
  {
    && (key in ws[i].wiped ==> WipedBefore(ws, es, i, key))
    && (key in ws[i].dropped ==> SeenDead(ws, es, i, key))
    && (forall h :: h in ws[i].holders && ws[i].holders[h].key == key && ws[i].holders[h].duty == Dead ==> SeenDead(ws, es, i, key))
  }

  lemma {:induction false} AlwaysAccounted(ws: seq<World>, es: seq<Event>, maxBytes: nat, i: nat, key: Key)
    requires Run(ws, es, maxBytes) && i < |ws|
    ensures Accounted(ws, es, i, key)
  {
    if i > 0 {
      AlwaysAccounted(ws, es, maxBytes, i - 1, key);
      AlwaysInv(ws, es, maxBytes, i - 1);
      var w, v, e := ws[i - 1], ws[i], es[i - 1];
      assert CanHappen(w, maxBytes, e) && v == Next(w, maxBytes, e);
      assert HoldersOk(w, maxBytes);
      NewlyGone(w, maxBytes, e, key);
      hide Next, CanHappen, FoundDead, Inv, Run;
      HistoryGrows(ws, es, i - 1, key);
    }
  }

  lemma HistoryGrows(ws: seq<World>, es: seq<Event>, i: nat, key: Key)
    requires i < |es| < |ws|
    ensures WipedBefore(ws, es, i, key) || (es[i].Wipe? && key in es[i].keys && key in ws[i].rows) ==> WipedBefore(ws, es, i + 1, key)
    ensures SeenDead(ws, es, i, key) || FoundDead(ws[i], es[i], key) ==> SeenDead(ws, es, i + 1, key)
  {
    hide FoundDead;
    if j :| 0 <= j < i && es[j].Wipe? && key in es[j].keys && key in ws[j].rows {
      assert 0 <= j < i + 1;
    }
    if j :| 0 <= j < i && FoundDead(ws[j], es[j], key) {
      assert 0 <= j < i + 1;
    }
  }

  ghost predicate Condemned(w: World, key: Key) {
    exists h :: h in w.holders && w.holders[h].key == key && w.holders[h].duty == Dead
  }

  /** What one step adds to the wiped, the dropped and the condemned events. */
  lemma NewlyGone(w: World, maxBytes: nat, e: Event, key: Key)
    requires CanHappen(w, maxBytes, e) && HoldersOk(w, maxBytes)
    ensures var v := Next(w, maxBytes, e);
      && (key in v.wiped ==> key in w.wiped || (e.Wipe? && key in e.keys && key in w.rows))
      && (key in v.dropped ==> key in w.dropped || Condemned(w, key))
      && (Condemned(v, key) ==> Condemned(w, key) || FoundDead(w, e, key))
  {
    hide Split, Known, FreshEvent;
    var v := Next(w, maxBytes, e);
    if h :| h in v.holders && v.holders[h].key == key && v.holders[h].duty == Dead {
      if e.Check? && e.h == h && w.holders[h].duty != Dead {
        assert HolderOk(w, maxBytes, w.holders[h]);
      } else {
        assert h in w.holders && w.holders[h].key == key && w.holders[h].duty == Dead;
      }
    }
  }

  /**
   * No committed event is ever lost: it is still in the outbox, or has been published in full, or
   * a clear or purge deleted its row, or the cron dropped it after finding its workspace
   * tombstoned. What was cleared before it was committed does not matter.
   */
  lemma NothingIsLost(ws: seq<World>, es: seq<Event>, maxBytes: nat, i: nat, key: Key)
    requires Run(ws, es, maxBytes) && i < |ws| && key in ws[i].committed
    ensures key in ws[i].rows || FullySent(ws[i], maxBytes, key) || WipedBefore(ws, es, i, key)
         || (key in ws[i].dropped && SeenDead(ws, es, i, key))
  {
    AlwaysInv(ws, es, maxBytes, i);
    AlwaysAccounted(ws, es, maxBytes, i, key);
    hide FullySent, Run, Split, WipedBefore, SeenDead;
  }

  /** A cleared workspace that was never tombstoned loses none of its later events. */
  lemma LaterEventsSurvive(ws: seq<World>, es: seq<Event>, maxBytes: nat, i: nat, key: Key)
    requires Run(ws, es, maxBytes) && i < |ws| && key in ws[i].committed
    requires forall j :: 0 <= j < i ==> key.tid !in ws[j].tombstones
    requires forall j :: 0 <= j < i && es[j].Wipe? && key in es[j].keys ==> key !in ws[j].rows
    ensures key in ws[i].rows || FullySent(ws[i], maxBytes, key)
  {
    NothingIsLost(ws, es, maxBytes, i, key);
    hide Run, FullySent;
  }

  /** Both copies of an event make the same messages exactly when they carry the same changes. */
  lemma RedeliveryRepeats(w: World, maxBytes: nat, key: Key)
    requires EventsOk(w) && key in w.committed
    ensures var c := w.committed[key];
      Split(c.stored, maxBytes) == Split(c.own, maxBytes) <==> c.stored.changes == c.own.changes
  {
    var c := w.committed[key];
    SplitLaws(c.stored, maxBytes);
    SplitLaws(c.own, maxBytes);
    if c.stored.changes == c.own.changes {
      assert c.stored == c.own;
    }
    hide Split, ChangesOf;
  }

  /** Both copies of an event carry the same changes. */
  ghost predicate Agree(w: World, key: Key)
    requires key in w.committed
  {
    w.committed[key].stored.changes == w.committed[key].own.changes
  }

  /** While both copies of an event agree, the id of one of its messages stands for that message alone. */
  lemma SameIdAsPart(w: World, maxBytes: nat, p: Msg, key: Key, k: nat)
    requires Inv(w, maxBytes) && key in w.committed && Agree(w, key) && p in w.queue
    requires k < |Split(w.committed[key].stored, maxBytes)| && p.id == Split(w.committed[key].stored, maxBytes)[k].id
    ensures p == Split(w.committed[key].stored, maxBytes)[k]
  {
    hide Split, HoldersOk, RowsOk, AppliedOk;
    assert FromCopy(w, maxBytes, p);
    hide QueueOk;
    var x, m, j: nat :| IsCopy(w, x, m) && j < |Split(m, maxBytes)| && p == Split(m, maxBytes)[j];
    var n := w.committed[key].stored;
    if x != key {
      IdsDoNotMeet(m, n, maxBytes, j, k);
    } else {
      assert m.changes == n.changes && m == n;
      SplitLaws(m, maxBytes);
    }
  }

  /**
   * A consumer that drops ids it knows applies each message of an event whose copies agree at most
   * once, whoever sent it and however often; once it has applied all of them it has applied exactly
   * the event's changes. Other events do not matter.
   */
  lemma EachChangeSetOnce(ws: seq<World>, es: seq<Event>, maxBytes: nat, i: nat, key: Key, k: nat)
    requires Run(ws, es, maxBytes) && i < |ws| && key in ws[i].committed && Agree(ws[i], key)
    requires k < |Split(ws[i].committed[key].stored, maxBytes)|
    ensures var w, part := ws[i], Split(ws[i].committed[key].stored, maxBytes)[k];
      && (forall a :: 0 <= a < |w.applied| && w.applied[a].id == part.id ==> w.applied[a] == part)
      && (forall a, b :: 0 <= a < |w.applied| && 0 <= b < |w.applied| && w.applied[a] == part && w.applied[b] == part ==> a == b)
      && ChangesOf(Split(w.committed[key].stored, maxBytes)) == w.committed[key].own.changes
  {
    AlwaysInv(ws, es, maxBytes, i);
    var w := ws[i];
    var m := w.committed[key].stored;
    SplitLaws(m, maxBytes);
    var part := Split(m, maxBytes)[k];
    hide Split, Run, ChangesOf;
    forall a | 0 <= a < |w.applied| && w.applied[a].id == part.id ensures w.applied[a] == part {
      SameIdAsPart(w, maxBytes, w.applied[a], key, k);
    }
  }

  /** A run and one more step. */
  lemma RunOn(ws: seq<World>, es: seq<Event>, maxBytes: nat, e: Event, v: World) returns (vs: seq<World>, fs: seq<Event>)
    requires Run(ws, es, maxBytes) && |ws| == |es| + 1 && CanHappen(ws[|es|], maxBytes, e) && v == Next(ws[|es|], maxBytes, e)
    ensures Run(vs, fs, maxBytes) && |vs| == |fs| + 1 && vs[|fs|] == v
  {
    vs, fs := ws + [v], es + [e];
    hide Next, CanHappen;
  }

  /** An event in the outbox whose own copy was published and applied, and nothing else. */
  function AppliedOwn(key: Key, c: Copies): World {
    START.(rows := map[key := c.stored], committed := map[key := c], queue := [c.own], applied := [c.own])
  }

  lemma OwnCopyFirst(key: Key, c: Copies, maxBytes: nat) returns (ws: seq<World>, es: seq<Event>)
    requires FreshEvent(START, key, c) && Split(c.own, maxBytes) == [c.own]
    ensures Run(ws, es, maxBytes) && |ws| == |es| + 1 && ws[|es|] == AppliedOwn(key, c)
  {
    hide Split;
    ws, es := [START], [];
    assert Run(ws, es, maxBytes);
    hide Run;
    var w := START.(rows := map[key := c.stored], holders := map[0 := Holder(key, c.own, 0, Own)], committed := map[key := c]);
    ws, es := RunOn(ws, es, maxBytes, Commit(0, key, c), w);
    w := w.(queue := [c.own], holders := map[0 := Holder(key, c.own, 1, Own)]);
    ws, es := RunOn(ws, es, maxBytes, Send(0), w);
    w := w.(applied := [c.own]);
    ws, es := RunOn(ws, es, maxBytes, Consume(0), w);
    ws, es := RunOn(ws, es, maxBytes, GiveUp(0), w.(holders := map[]));
  }

  /**
   * Where the copies differ, the consumer keeps the first: the request publishes its own copy and
   * fails to delete the row, the cron publishes the stored copy under the same id, and everything
   * queued is consumed, yet the stored row's further change is never applied.
   */
  lemma FirstCopyWins(key: Key, own: Change, further: Change, maxBytes: nat) returns (ws: seq<World>, es: seq<Event>)
    requires '#' !in key.id && own != further && maxBytes >= |key.id| + |own.json| + |further.json| + 1
    ensures Run(ws, es, maxBytes) && |ws| == |es| + 1
    ensures var w, c := ws[|es|], Copies(Msg(key.id, "", [further, own]), Msg(key.id, "", [own]));
      && w == AppliedOwn(key, c).(rows := map[], queue := [c.own, c.stored], sentAll := {key})
      && (forall p :: p in w.queue ==> Known(w.applied, p.id))
      && further !in w.applied[0].changes
  {
    var c := Copies(Msg(key.id, "", [further, own]), Msg(key.id, "", [own]));
    OneMessage(c.stored, maxBytes, further, own);
    OneMessage(c.own, maxBytes, further, own);
    hide Split;
    ws, es := OwnCopyFirst(key, c, maxBytes);
    ws, es := StoredCopySecond(ws, es, key, c, maxBytes);
    assert ws[|es|].applied[0] == c.own;
  }

  lemma StoredCopySecond(vs: seq<World>, fs: seq<Event>, key: Key, c: Copies, maxBytes: nat) returns (ws: seq<World>, es: seq<Event>)
    requires Run(vs, fs, maxBytes) && |vs| == |fs| + 1 && vs[|fs|] == AppliedOwn(key, c) && c.own.id == c.stored.id
    requires Split(c.stored, maxBytes) == [c.stored]
    ensures Run(ws, es, maxBytes) && |ws| == |es| + 1
    ensures ws[|es|] == AppliedOwn(key, c).(rows := map[], queue := [c.own, c.stored], sentAll := {key})
    ensures Known(ws[|es|].applied, c.own.id)
  {
    hide Split, Run, FreshEvent;
    var w := AppliedOwn(key, c).(holders := map[0 := Holder(key, c.stored, 0, Unchecked)]);
    ws, es := RunOn(vs, fs, maxBytes, Load(0, key), w);
    w := w.(holders := map[0 := Holder(key, c.stored, 0, Live)]);
    ws, es := RunOn(ws, es, maxBytes, Check(0), w);
    w := w.(queue := [c.own, c.stored], holders := map[0 := Holder(key, c.stored, 1, Live)]);
    ws, es := RunOn(ws, es, maxBytes, Send(0), w);
    ws, es := RemovedAndConsumed(ws, es, key, c, maxBytes);
  }

  lemma RemovedAndConsumed(vs: seq<World>, fs: seq<Event>, key: Key, c: Copies, maxBytes: nat) returns (ws: seq<World>, es: seq<Event>)
    requires Run(vs, fs, maxBytes) && |vs| == |fs| + 1 && c.own.id == c.stored.id && Split(c.stored, maxBytes) == [c.stored]
    requires vs[|fs|] == AppliedOwn(key, c).(queue := [c.own, c.stored], holders := map[0 := Holder(key, c.stored, 1, Live)])
    ensures Run(ws, es, maxBytes) && |ws| == |es| + 1
    ensures ws[|es|] == AppliedOwn(key, c).(rows := map[], queue := [c.own, c.stored], sentAll := {key})
    ensures Known(ws[|es|].applied, c.own.id)
  {
    hide Split, Run, FreshEvent;
    var w := AppliedOwn(key, c).(rows := map[], queue := [c.own, c.stored], sentAll := {key});
    ws, es := RunOn(vs, fs, maxBytes, Remove(0), w);
    assert w.applied[0].id == c.stored.id;
    ws, es := RunOn(ws, es, maxBytes, Consume(1), w);
  }

  lemma OneMessage(m: Msg, maxBytes: nat, further: Change, own: Change)
    requires m.rest == "" && (m.changes == [own] || m.changes == [further, own])
    requires maxBytes >= |m.id| + |own.json| + |further.json| + 1
    ensures Split(m, maxBytes) == [m]
  {
    TotalSnoc([], own);
    TotalSnoc([], further);
    TotalSnoc([further], own);
    assert [] + [own] == [own] && [] + [further] == [further] && [further] + [own] == [further, own];
  }
}
