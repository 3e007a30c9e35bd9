/**
 * Which changes the event of an upsert carries. The stored outbox row is filtered inside
 * the commit by comparing rows with the plan (d1_object_writer.ts); the message sent right
 * after it is filtered by what the statements reported as written (upsert_objects.ts).
 */
module UpsertEvents {
  import opened Common
  import opened MergeProps
  import opened UpsertPlanner
  import opened UpsertStore
  import opened UpsertLinks
  import opened UpsertCommit

  /** The tables as one commit finds them. */
  datatype Tables = Tables(rows: map<Rid, Row>, links: map<LinkKey, Option<real>>)

  datatype Job = Job(hash: Props -> string, maxObjects: int, maxLinks: int, now: int)

  function Objects(j: Job, t: Tables, plan: UpsertPlan): ObjectCommit {
    CommitObjects(j.hash, j.maxObjects, j.now, t.rows, plan.objects)
  }

  function Links(j: Job, t: Tables, plan: UpsertPlan): LinkCommit {
    CommitLinks(Objects(j, t, plan).rows.Keys, j.maxLinks, t.links, plan.links)
  }

  ghost predicate MatchesRow(j: Job, rows: map<Rid, Row>, o: PlannedObject) {
    o.rid in rows && rows[o.rid].hash == j.hash(o.state.props) && rows[o.rid].updatedAt == j.now
  }

  ghost predicate MatchesLink(links: map<LinkKey, Option<real>>, l: PlannedLink) {
    l.key in links && links[l.key] == l.weight
  }

  /** The change of `rid` is in the stored outbox row. */
  ghost predicate InStoredRow(j: Job, t: Tables, plan: UpsertPlan, rid: Rid) {
    || (exists i :: 0 <= i < |plan.objects| && plan.objects[i].rid == rid
          && MatchesRow(j, Objects(j, t, plan).rows, plan.objects[i]))
    || (exists i :: 0 <= i < |plan.links| && plan.links[i].key.src == rid
          && MatchesLink(Links(j, t, plan).links, plan.links[i]))
  }

  /** The change of `rid` is in the message delivered after the commit. */
  ghost predicate InDelivery(j: Job, t: Tables, plan: UpsertPlan, rid: Rid) {
    || (exists i :: 0 <= i < |plan.objects| && plan.objects[i].rid == rid && rid in Objects(j, t, plan).written)
    || (exists i :: 0 <= i < |plan.links| && plan.links[i].key.src == rid
          && plan.links[i].key in Links(j, t, plan).written)
  }

  /** Before the commit, something planned for `rid` already stood in the tables as planned. */
  ghost predicate AlreadyThere(j: Job, t: Tables, plan: UpsertPlan, rid: Rid) {
    || (exists i :: 0 <= i < |plan.objects| && plan.objects[i].rid == rid && MatchesRow(j, t.rows, plan.objects[i]))
    || (exists i :: 0 <= i < |plan.links| && plan.links[i].key.src == rid && MatchesLink(t.links, plan.links[i]))
  }

  ghost predicate DistinctPlan(plan: UpsertPlan) {
    && (forall x, y :: 0 <= x < y < |plan.objects| ==> plan.objects[x].rid != plan.objects[y].rid)
    && DistinctLinkKeys(plan.links)
  }

  // --- One planned object or link ----------------------------------------------------------

  lemma {:induction false} ObjectElsewhere(hash: Props -> string, count: nat, cap: int, now: int,
                                           rows: map<Rid, Row>, objects: seq<PlannedObject>, rid: Rid)
    requires forall i :: 0 <= i < |objects| ==> objects[i].rid != rid
    ensures var c := CommitObjectsFrom(hash, count, cap, now, rows, objects);
      (rid in c.rows <==> rid in rows) && (rid in rows ==> c.rows[rid] == rows[rid]) && rid !in c.written
  {
    if objects == [] {
    } else {
      ObjectElsewhere(hash, count, cap, now, rows, objects[..|objects| - 1], rid);
    }
  }

  /** What the commit leaves for the i-th planned object. */
  lemma {:induction false} ObjectCommitted(hash: Props -> string, count: nat, cap: int, now: int,
                                           rows: map<Rid, Row>, objects: seq<PlannedObject>, i: nat)
    requires i < |objects|
    requires forall x, y :: 0 <= x < y < |objects| ==> objects[x].rid != objects[y].rid
    ensures var c, o := CommitObjectsFrom(hash, count, cap, now, rows, objects), objects[i];
      if o.rid in c.written then
        o.rid in c.rows && c.rows[o.rid].hash == hash(o.state.props) && c.rows[o.rid].updatedAt == now
        && (o.rid in rows ==> rows[o.rid].hash != hash(o.state.props))
      else (o.rid in c.rows <==> o.rid in rows) && (o.rid in rows ==> c.rows[o.rid] == rows[o.rid])
  {
    var n := |objects| - 1;
    if i < n {
      ObjectCommitted(hash, count, cap, now, rows, objects[..n], i);
      assert objects[n].rid != objects[i].rid;
    } else {
      ObjectElsewhere(hash, count, cap, now, rows, objects[..n], objects[n].rid);
    }
  }

  /**
   * What the commit stores for the i-th planned object: nothing if it is new and has no room left; a
   * first version if it is not in the table; the next version if its fingerprint differs; else what
   * is there. Other objects stay.
   */
  lemma {:induction false} RowCommitted(hash: Props -> string, count: nat, cap: int, now: int,
                                        rows: map<Rid, Row>, objects: seq<PlannedObject>, i: nat)
    requires i < |objects|
    requires forall x, y :: 0 <= x < y < |objects| ==> objects[x].rid != objects[y].rid
    ensures var c, o := CommitObjectsFrom(hash, count, cap, now, rows, objects), objects[i];
      var there, room := o.rid in rows, o.newOrdinal == None || count + o.newOrdinal.value <= cap;
      && (o.rid in c.written <==> room && (!there || rows[o.rid].hash != hash(o.state.props)))
      && (o.rid in c.rows <==> there || room)
      && (o.rid in c.written && !there ==> c.rows[o.rid] == Row(o.objType, o.primaryKey, hash(o.state.props), 1, now))
      && (o.rid in c.written && there ==>
            c.rows[o.rid] == rows[o.rid].(hash := hash(o.state.props), version := rows[o.rid].version + 1, updatedAt := now))
      && (o.rid !in c.written && there ==> c.rows[o.rid] == rows[o.rid])
  {
    var n := |objects| - 1;
    if i < n {
      RowCommitted(hash, count, cap, now, rows, objects[..n], i);
      assert objects[n].rid != objects[i].rid;
    } else {
      ObjectElsewhere(hash, count, cap, now, rows, objects[..n], objects[n].rid);
    }
  }

  lemma {:induction false} LinkElsewhere(rids: set<Rid>, count: nat, cap: int, links: map<LinkKey, Option<real>>,
                                         planned: seq<PlannedLink>, k: LinkKey)
    requires forall i :: 0 <= i < |planned| ==> planned[i].key != k
    ensures var c := CommitLinksFrom(rids, count, cap, links, planned);
      (k in c.links <==> k in links) && (k in links ==> c.links[k] == links[k]) && k !in c.written
  {
    if planned == [] {
    } else {
      LinkElsewhere(rids, count, cap, links, planned[..|planned| - 1], k);
    }
  }

  lemma {:induction false} LinkCommitted(rids: set<Rid>, count: nat, cap: int, links: map<LinkKey, Option<real>>,
                                         planned: seq<PlannedLink>, i: nat)
    requires i < |planned| && DistinctLinkKeys(planned)
    ensures var c, l := CommitLinksFrom(rids, count, cap, links, planned), planned[i];
      if l.key in c.written then MatchesLink(c.links, l) && !MatchesLink(links, l)
      else (l.key in c.links <==> l.key in links) && (l.key in links ==> c.links[l.key] == links[l.key])
  {
    var n := |planned| - 1;
    if i < n {
      LinkCommitted(rids, count, cap, links, planned[..n], i);
      assert planned[n].key != planned[i].key;
    } else {
      LinkElsewhere(rids, count, cap, links, planned[..n], planned[n].key);
    }
  }

  // --- The two contents compared --------------------------------------------------------------

  /**
   * The stored row carries exactly the delivered changes plus those of objects and links
   * that stood in the tables as planned before the commit.
   */
  lemma StoredRowContents(j: Job, t: Tables, plan: UpsertPlan, rid: Rid)
    requires DistinctPlan(plan)
    ensures InStoredRow(j, t, plan, rid) <==> InDelivery(j, t, plan, rid) || AlreadyThere(j, t, plan, rid)
  {
    var c, d := Objects(j, t, plan), Links(j, t, plan);
    forall i | 0 <= i < |plan.objects|
      ensures MatchesRow(j, c.rows, plan.objects[i])
        <==> plan.objects[i].rid in c.written || MatchesRow(j, t.rows, plan.objects[i])
    {
      ObjectCommitted(j.hash, |t.rows|, j.maxObjects, j.now, t.rows, plan.objects, i);
    }
    forall i | 0 <= i < |plan.links|
      ensures MatchesLink(d.links, plan.links[i])
        <==> plan.links[i].key in d.written || MatchesLink(t.links, plan.links[i])
    {
      LinkCommitted(c.rows.Keys, |t.links|, j.maxLinks, t.links, plan.links, i);
    }
  }

  // --- What will be written, told from the tables before the commit -----------------------------

  /** A planned object will be written: it fits, and it is new or differs from its row. */
  ghost predicate ObjectWrites(j: Job, t: Tables, o: PlannedObject) {
    Fits(o.newOrdinal, |t.rows|, j.maxObjects) && (o.rid !in t.rows || t.rows[o.rid].hash != j.hash(o.state.props))
  }

  /** An object stands in the table, or a planned one with room will bring it there. */
  ghost predicate Present(j: Job, t: Tables, plan: UpsertPlan, rid: Rid) {
    rid in PresentIds(t.rows, plan.objects, j.maxObjects)
  }

  /** A planned link will be written: both ends are present, it fits, and it is new or differs in weight. */
  ghost predicate LinkWrites(j: Job, t: Tables, plan: UpsertPlan, l: PlannedLink) {
    && Present(j, t, plan, l.key.src) && Present(j, t, plan, l.key.dst)
    && Fits(l.newOrdinal, |t.links|, j.maxLinks) && (l.key !in t.links || t.links[l.key] != l.weight)
  }

  /** Something planned for `rid` will be written. */
  ghost predicate WillWrite(j: Job, t: Tables, plan: UpsertPlan, rid: Rid) {
    || (exists i :: 0 <= i < |plan.objects| && plan.objects[i].rid == rid && ObjectWrites(j, t, plan.objects[i]))
    || (exists i :: 0 <= i < |plan.links| && plan.links[i].key.src == rid && LinkWrites(j, t, plan, plan.links[i]))
  }

  lemma {:induction false} ObjectWritten(hash: Props -> string, count: nat, cap: int, now: int,
                                         rows: map<Rid, Row>, objects: seq<PlannedObject>, i: nat)
    requires i < |objects|
    requires forall x, y :: 0 <= x < y < |objects| ==> objects[x].rid != objects[y].rid
    ensures var c, o := CommitObjectsFrom(hash, count, cap, now, rows, objects), objects[i];
      o.rid in c.written <==> Fits(o.newOrdinal, count, cap) && (o.rid !in rows || rows[o.rid].hash != hash(o.state.props))
  {
    var n := |objects| - 1;
    if i < n {
      ObjectWritten(hash, count, cap, now, rows, objects[..n], i);
      assert objects[n].rid != objects[i].rid;
    } else {
      ObjectElsewhere(hash, count, cap, now, rows, objects[..n], objects[n].rid);
    }
  }

  lemma {:induction false} LinkWritten(rids: set<Rid>, count: nat, cap: int, links: map<LinkKey, Option<real>>,
                                       planned: seq<PlannedLink>, i: nat)
    requires i < |planned| && DistinctLinkKeys(planned)
    ensures var c, l := CommitLinksFrom(rids, count, cap, links, planned), planned[i];
      l.key in c.written <==>
        l.key.src in rids && l.key.dst in rids && Fits(l.newOrdinal, count, cap) && (l.key !in links || links[l.key] != l.weight)
  {
    var n := |planned| - 1;
    if i < n {
      LinkWritten(rids, count, cap, links, planned[..n], i);
      assert planned[n].key != planned[i].key;
    } else {
      LinkElsewhere(rids, count, cap, links, planned[..n], planned[n].key);
    }
  }

  /** The delivered changes are those of what the tables and the plan say will be written. */
  lemma DeliveredIsWritten(j: Job, t: Tables, plan: UpsertPlan, rid: Rid)
    requires DistinctPlan(plan)
    ensures InDelivery(j, t, plan, rid) <==> WillWrite(j, t, plan, rid)
  {
    var c, d := Objects(j, t, plan), Links(j, t, plan);
    forall i | 0 <= i < |plan.objects| ensures plan.objects[i].rid in c.written <==> ObjectWrites(j, t, plan.objects[i]) {
      ObjectWritten(j.hash, |t.rows|, j.maxObjects, j.now, t.rows, plan.objects, i);
    }
    IdsPresent(j.hash, j.maxObjects, j.now, t.rows, plan.objects);
    hide PresentIds;
    forall i | 0 <= i < |plan.links| ensures plan.links[i].key in d.written <==> LinkWrites(j, t, plan, plan.links[i]) {
      LinkWritten(c.rows.Keys, |t.links|, j.maxLinks, t.links, plan.links, i);
    }
    hide Present, ObjectWrites, LinkWrites, Objects, Links;
  }

  /**
   * Redelivery repeats the delivered message if and only if every object or link source for which
   * something stood in the tables as planned also has a planned object or link that differs from
   * the tables and passes its guards. The condition speaks of the tables before the commit only.
   */
  lemma RedeliveryRepeats(j: Job, t: Tables, plan: UpsertPlan)
    requires DistinctPlan(plan)
    ensures (forall rid :: InStoredRow(j, t, plan, rid) <==> InDelivery(j, t, plan, rid))
       <==> (forall rid :: AlreadyThere(j, t, plan, rid) ==> WillWrite(j, t, plan, rid))
  {
    forall rid
      ensures InStoredRow(j, t, plan, rid) <==> InDelivery(j, t, plan, rid) || AlreadyThere(j, t, plan, rid)
      ensures InDelivery(j, t, plan, rid) <==> WillWrite(j, t, plan, rid)
    {
      StoredRowContents(j, t, plan, rid);
      DeliveredIsWritten(j, t, plan, rid);
    }
    hide InStoredRow, InDelivery, AlreadyThere, WillWrite;
  }

  /** What stands as planned is not written itself, so only another planned item of the same source can deliver it. */
  lemma StandingIsIdle(j: Job, t: Tables, plan: UpsertPlan, i: nat)
    requires DistinctPlan(plan)
    ensures i < |plan.objects| && MatchesRow(j, t.rows, plan.objects[i]) ==> plan.objects[i].rid !in Objects(j, t, plan).written
    ensures i < |plan.links| && MatchesLink(t.links, plan.links[i]) ==> plan.links[i].key !in Links(j, t, plan).written
  {
    if i < |plan.objects| {
      ObjectWritten(j.hash, |t.rows|, j.maxObjects, j.now, t.rows, plan.objects, i);
    }
    if i < |plan.links| {
      LinkWritten(Objects(j, t, plan).rows.Keys, |t.links|, j.maxLinks, t.links, plan.links, i);
    }
  }

  // --- The two contents do differ ----------------------------------------------------------------

  /** One unchanged object that mentions one stored link twice, the second time as it is stored. */
  function TwiceMentioned(): Input {
    Mentioned([LinkMention("L", "T", "a", Some(5.0)), LinkMention("L", "T", "a", Some(3.0))], 900)
  }

  lemma TwiceMentionedPlan()
    ensures Plan(TwiceMentioned()).objects == []
    ensures Plan(TwiceMentioned()).links == [PlannedLink(LOOP, Some(3.0), false, None, 1)]
  {
    var input := TwiceMentioned();
    var cmd, rids := input.cmds[0], map[ObjectKey("T", "a") := "r"];
    MentionedObjects(cmd.links, 900);
    var m0, m1 := Mention(1, "T", "r", cmd.links[0]), Mention(1, "T", "r", cmd.links[1]);
    assert MentionsOf(Accepted(cmd, "r")) == [m0, m1];
    assert Resolve(input.env.schema, rids, m0) == Resolve(input.env.schema, rids, m1) == Target(LOOP);
    assert LOOP in input.existingLinks && input.existingLinks[LOOP] == Some(3.0);
    assert m0.link.weight == Some(5.0) && m1.link.weight == Some(3.0) && m0.row == 1;
    hide ObjectPhase, SortByRow, Resolve, MentionsOf, TwiceMentioned, Mentioned, Plan, PlanLinks;
    PhasesOf(input, Accepted(cmd, "r"), rids);
    MentionedAgain(input.env, input.counts, rids, input.existingLinks, m0, m1, LOOP);
  }

  /** A second mention of a link that is already planned sets its weight. */
  lemma MentionedAgain(env: Env, counts: Counts, rids: map<ObjectKey, Rid>, stored: map<LinkKey, Option<real>>,
                       m0: Mention, m1: Mention, k: LinkKey)
    requires Resolve(env.schema, rids, m0) == Resolve(env.schema, rids, m1) == Target(k)
    requires k in stored && stored[k] != m0.link.weight
    ensures PlanLinks(env, counts, rids, stored, NO_LINKS, [m0, m1]).links == [PlannedLink(k, m1.link.weight, false, None, m0.row)]
  {
    hide Resolve;
    OneMention(env, counts, rids, stored, m0, k);
    assert [m0, m1][..1] == [m0];
    assert PlanLinks(env, counts, rids, stored, NO_LINKS, [m0, m1])
        == LinkStep(env, counts, rids, stored, PlanLinks(env, counts, rids, stored, NO_LINKS, [m0]), m1);
  }

  lemma NothingDelivered(j: Job, t: Tables, plan: UpsertPlan)
    requires t.links == map[LOOP := Some(3.0)]
    requires plan.objects == [] && plan.links == [PlannedLink(LOOP, Some(3.0), false, None, 1)]
    ensures DistinctPlan(plan) && forall rid :: !InDelivery(j, t, plan, rid)
  {
    assert plan.links[..0] == [];
    var c := CommitLinksFrom(Objects(j, t, plan).rows.Keys, |t.links|, j.maxLinks, t.links, plan.links[..0]);
    assert c.written == {} && c.links == t.links;
    assert Links(j, t, plan) == CommitLink(Objects(j, t, plan).rows.Keys, |t.links|, j.maxLinks, c, plan.links[0]);
  }

  /**
   * The comment that the stored row holds the same subset does not hold in general: here
   * nothing is delivered, yet the stored row names the link source and is sent by the cron.
   */
  lemma StoredRowMayExceedDelivery()
    ensures var j := Job(p => "h", 300, 900, 1);
      var t := Tables(map["r" := Row("T", "a", "h", 1, 0)], TwiceMentioned().existingLinks);
      var plan := Plan(TwiceMentioned());
      && DistinctPlan(plan)
      && InStoredRow(j, t, plan, "r")
      && forall rid :: !InDelivery(j, t, plan, rid)
  {
    var j := Job(p => "h", 300, 900, 1);
    var t := Tables(map["r" := Row("T", "a", "h", 1, 0)], TwiceMentioned().existingLinks);
    TwiceMentionedPlan();
    var plan := Plan(TwiceMentioned());
    NothingDelivered(j, t, plan);
    var links := TwiceMentioned().existingLinks;
    assert links == map[LOOP := Some(3.0)];
    hide Plan, TwiceMentioned, Mentioned, InDelivery, InStoredRow, Links, Objects, MatchesRow;
    assert MatchesLink(t.links, plan.links[0]) && plan.links[0].key.src == "r";
    assert AlreadyThere(j, t, plan, "r");
    StoredRowContents(j, t, plan, "r");
  }
}
