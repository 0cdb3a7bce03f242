/** What the activity events leave in the tables, field by field. */
module ActivityRows {
  import opened Options
  import opened ActivityEvents

  /** The row of a wall post: its author's, for members only, and not retracted. */
  predicate WallPostRow(e: Job, row: Entry) {
    && row.actorId == e.actorId && !row.news && row.membersOnly && row.retractedAt.None?
    && row.subjectType == "UserWallPost" && row.subjectId == e.aggregateId
    && row.payload == e.payload && row.occurredAt == e.occurredAt
  }

  /** The row of an article: its author's, and for members only exactly when the event says so. */
  predicate NewsRow(e: Job, row: Entry) {
    && row.actorId == e.payload.authorId && row.news && row.membersOnly == e.payload.membersOnly
        && row.retractedAt.None?
    && row.subjectType == "NewsArticle" && row.subjectId == e.aggregateId
    && row.payload == e.payload && row.occurredAt == e.occurredAt
  }

  predicate Posts(e: Job) {
    e.name == WallPostCreated && e.actorId != "" && e.aggregateType == "UserWallPost" && e.aggregateId != ""
  }

  predicate Publishes(e: Job) {
    && e.name == NewsPublished && e.aggregateType == "NewsArticle" && e.aggregateId != ""
    && e.payload.authorId != "" && e.payload.language != "" && e.payload.slug != "" && e.payload.title != ""
  }

  predicate TakesBack(e: Job) {
    e.name == WallPostRetracted && e.aggregateType == "UserWallPost" && e.aggregateId != ""
  }

  /** Which events are accepted, and what each does to the table: a new row unless its event has one, the time
      of the first retraction on every row of the post, or nothing. */
  lemma {:induction false} StatementPlainly(t: Table, e: Job)
    ensures HandlerOk(e) <==> Posts(e) || Publishes(e) || TakesBack(e) || e.name == Unrelated
    ensures var after := Projected(t, e);
      && ((Posts(e) || Publishes(e)) && e.eventId !in t ==>
            && after.Keys == t.Keys + {e.eventId} && (forall id | id in t :: after[id] == t[id])
            && (Posts(e) ==> WallPostRow(e, after[e.eventId])) && (Publishes(e) ==> NewsRow(e, after[e.eventId])))
      && (TakesBack(e) ==>
            && after.Keys == t.Keys
            && forall id | id in t ::
                 after[id] == if t[id].subjectType == "UserWallPost" && t[id].subjectId == e.aggregateId
                                 && t[id].retractedAt.None?
                              then t[id].(retractedAt := Some(e.occurredAt)) else t[id])
      && (!TakesBack(e) && !((Posts(e) || Publishes(e)) && e.eventId !in t) ==> after == t)
  {
  }

  /** In every history each row is that of an event handled under its id, but for the retraction: so no wall
      post is ever shown to others than members. */
  lemma {:induction false} RowsPlainly(handled: seq<Job>, id: string) returns (e: Job)
    requires id in Replay(handled)
    ensures e in handled && e.eventId == id
    ensures var row := Replay(handled)[id].(retractedAt := None);
      (Posts(e) && WallPostRow(e, row)) || (Publishes(e) && NewsRow(e, row))
  {
    RowsInserted(handled, id);
    var j :| InsertsId(handled, j, id);
    e := handled[j];
    RowsExplained(handled, j);
    hide Replay, Once;
    assert Replay(handled)[id].(retractedAt := None) == EntryOf(e);
  }

  /** One undisturbed delivery from its first call to its last: refused where the event is malformed, skipped
      where it is marked, stopped where the handler throws, and handled and marked otherwise. */
  lemma {:induction false} DeliveryPlainly(t: Table, marks: set<string>, e: Job)
    ensures var s := Run(System(t, marks, [], []), [Deliver(e), Step(0, Returns), Step(0, Returns), Step(0, Returns)]);
      if e.eventId == "" || e.eventVersion < 1 || (e.eventId !in marks && !HandlerOk(e)) then
        s.table == t && s.marks == marks && s.deliveries == [Delivery(e, Stopped)]
      else if e.eventId in marks then
        s.table == t && s.marks == marks && s.deliveries == [Delivery(e, Finished(true))]
      else
        s.table == Projected(t, e) && s.marks == marks + {e.eventId} && s.deliveries == [Delivery(e, Finished(false))]
  {
    FourSteps(System(t, marks, [], []), Deliver(e), Step(0, Returns), Step(0, Returns), Step(0, Returns));
    hide Run, Projected, HandlerOk;
  }

  /** A delivery whose call ends with an error stops there; what ends normally goes on from check to handler to
      mark, and past them only a delivery whose event was marked before or whose own mark has been set. */
  lemma {:induction false} CallsPlainly(d: Delivery, marks: set<string>, reply: Reply)
    ensures var next := NextPc(d, marks, reply);
      && (d.pc in {Checking, Handling, Marking} && !reply.Returns? ==> next == Stopped)
      && (d.pc == Checking && reply.Returns? ==> next == if d.event.eventId in marks then Finished(true) else Handling)
      && (d.pc == Handling && reply.Returns? ==> next == if HandlerOk(d.event) then Marking else Stopped)
      && (d.pc == Marking && reply.Returns? ==> next == Finished(false))
      && (d.pc.Finished? || d.pc.Stopped? ==> next == d.pc)
  {
  }
}
