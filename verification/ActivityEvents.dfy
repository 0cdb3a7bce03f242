/** The activity read model of apps/worker/src/postgres-activity.projector.ts behind the idempotent
    consumer of packages/jobs/src/index.ts and the marks of apps/worker/src/processed-event.store.ts.
    Delivery is at least once: a delivery may stop after any call, and events may come again. */
module ActivityEvents {
  import opened Options

  datatype EventName = WallPostCreated | WallPostRetracted | NewsPublished | Unrelated

  /** The payload's strings are empty where they are missing or not strings. */
  datatype Payload = Payload(authorId: string, language: string, slug: string, title: string, membersOnly: bool,
      profileOwnerId: string, hasImage: bool)

  datatype Job = Job(
    eventId: string, eventVersion: int, name: EventName, actorId: string, aggregateType: string, aggregateId: string,
    payload: Payload, occurredAt: nat)

  datatype Entry = Entry(
    actorId: string, news: bool, subjectType: string, subjectId: string, membersOnly: bool, payload: Payload,
    occurredAt: nat, retractedAt: Option<nat>)

  /** `activity_entries` by its unique source event. */
  type Table = map<string, Entry>

  // ------------------------------------------------------------------ the projector

  predicate WallPostOk(e: Job) {
    e.actorId != "" && e.aggregateType == "UserWallPost" && e.aggregateId != ""
  }

  predicate RetractionOk(e: Job) {
    e.aggregateType == "UserWallPost" && e.aggregateId != ""
  }

  predicate NewsOk(e: Job) {
    e.aggregateType == "NewsArticle" && e.aggregateId != ""
    && e.payload.authorId != "" && e.payload.language != "" && e.payload.slug != "" && e.payload.title != ""
  }

  /** Whether the handler accepts the event; otherwise it throws before any statement. */
  predicate HandlerOk(e: Job) {
    match e.name
    case WallPostCreated => WallPostOk(e)
    case WallPostRetracted => RetractionOk(e)
    case NewsPublished => NewsOk(e)
    case Unrelated => true
  }

  predicate Inserts(e: Job) {
    (e.name == WallPostCreated && WallPostOk(e)) || (e.name == NewsPublished && NewsOk(e))
  }

  predicate Retracts(e: Job) {
    e.name == WallPostRetracted && RetractionOk(e)
  }

  function EntryOf(e: Job): Entry {
    if e.name == NewsPublished then
      Entry(e.payload.authorId, true, e.aggregateType, e.aggregateId, e.payload.membersOnly, e.payload, e.occurredAt,
          None)
    else
      Entry(e.actorId, false, e.aggregateType, e.aggregateId, true, e.payload, e.occurredAt, None)
  }

  predicate About(entry: Entry, e: Job) {
    entry.subjectType == e.aggregateType && entry.subjectId == e.aggregateId
  }

  /** `COALESCE("retractedAt", occurredAt)`. */
  function Retracted(entry: Entry, e: Job): Entry {
    if About(entry, e) && entry.retractedAt.None? then entry.(retractedAt := Some(e.occurredAt)) else entry
  }

  /** The statement an accepted event runs. */
  function Projected(t: Table, e: Job): Table {
    if Inserts(e) then (if e.eventId in t then t else t[e.eventId := EntryOf(e)])
    else if Retracts(e) then map id | id in t :: Retracted(t[id], e)
    else t
  }

  // ------------------------------------------------------------------ histories of handled events

  /** The table after handling a list of events, repetitions included. */
  function Replay(handled: seq<Job>): Table {
    if handled == [] then map[] else Projected(Replay(handled[..|handled| - 1]), handled[|handled| - 1])
  }

  /** Each event once, at its first handling. */
  function Once(handled: seq<Job>): seq<Job> {
    if handled == [] then []
    else
      var before, last := handled[..|handled| - 1], handled[|handled| - 1];
      if last in before then Once(before) else Once(before) + [last]
  }

  /** Position `k` retracts the post that position `j` creates. */
  predicate RetractsPost(handled: seq<Job>, j: nat, k: nat)
    requires j < |handled| && k < |handled|
  {
    Retracts(handled[k]) && About(EntryOf(handled[j]), handled[k])
  }

  /** Position `j` inserts its row: nothing before it has the same source event. */
  predicate InsertsRow(handled: seq<Job>, j: int) {
    && 0 <= j < |handled| && Inserts(handled[j])
    && forall i | 0 <= i < j :: !(Inserts(handled[i]) && handled[i].eventId == handled[j].eventId)
  }

  predicate InsertsId(handled: seq<Job>, j: int, id: string) {
    InsertsRow(handled, j) && handled[j].eventId == id
  }

  /** Position `k` is handled for the first time. */
  predicate IsFresh(handled: seq<Job>, k: nat)
    requires k < |handled|
  {
    handled[k] !in handled[..k]
  }

  predicate Counts(handled: seq<Job>, j: nat, k: nat, freshOnly: bool)
    requires j < |handled| && k < |handled|
  {
    RetractsPost(handled, j, k) && (freshOnly ==> IsFresh(handled, k))
  }

  /** The first retraction of the post of `j` after `j`, among all or among the first handlings. */
  function NextRetraction(handled: seq<Job>, j: nat, freshOnly: bool): (r: Option<nat>)
    requires j < |handled|
    ensures r.Some? ==> j < r.value < |handled| && Counts(handled, j, r.value, freshOnly)
    ensures forall k | j < k < (if r.Some? then r.value else |handled|) :: !Counts(handled, j, k, freshOnly)
  {
    var last := |handled| - 1;
    if last == j then None
    else
      PrefixCounts(handled, j, freshOnly);
      var before := NextRetraction(handled[..last], j, freshOnly);
      if before.Some? then before else if Counts(handled, j, last, freshOnly) then Some(last) else None
  }

  lemma {:induction false} PrefixCounts(handled: seq<Job>, j: nat, freshOnly: bool)
    requires j < |handled| - 1
    ensures var before := handled[..|handled| - 1];
      forall k | 0 <= k < |before| :: Counts(before, j, k, freshOnly) <==> Counts(handled, j, k, freshOnly)
  {
    var before := handled[..|handled| - 1];
    forall k | 0 <= k < |before| ensures Counts(before, j, k, freshOnly) <==> Counts(handled, j, k, freshOnly) {
      assert before[..k] == handled[..k];
    }
  }

  /** The row of `j` as that retraction leaves it. */
  function RowOf(handled: seq<Job>, j: nat, freshOnly: bool): Entry
    requires j < |handled|
  {
    var k := NextRetraction(handled, j, freshOnly);
    EntryOf(handled[j]).(retractedAt := if k.Some? then Some(handled[k.value].occurredAt) else None)
  }

  lemma {:induction false} InsertsRowPrefix(handled: seq<Job>, j: nat)
    requires handled != [] && j < |handled| - 1
    ensures InsertsRow(handled[..|handled| - 1], j) <==> InsertsRow(handled, j)
  {
    var before := handled[..|handled| - 1];
    assert forall i | 0 <= i < |before| :: before[i] == handled[i];
  }

  /** Every row was inserted by some position, in both tables. */
  lemma {:induction false} RowsInserted(handled: seq<Job>, id: string)
    ensures id in Replay(handled) <==> exists j :: InsertsId(handled, j, id)
    ensures id in Replay(Once(handled)) <==> id in Replay(handled)
  {
    NotInserted(handled, id);
    SameKeys(handled, id);
    if i :| 0 <= i < |handled| && Inserts(handled[i]) && handled[i].eventId == id {
      var j := FirstInserter(handled, i);
      assert InsertsId(handled, j, id);
    }
  }

  lemma {:induction false} FirstInserter(handled: seq<Job>, i: nat) returns (j: nat)
    requires i < |handled| && Inserts(handled[i])
    ensures InsertsId(handled, j, handled[i].eventId)
  {
    if k :| 0 <= k < i && Inserts(handled[k]) && handled[k].eventId == handled[i].eventId {
      j := FirstInserter(handled, k);
    } else {
      j := i;
    }
  }

  lemma {:induction false} SameKeys(handled: seq<Job>, id: string)
    ensures id in Replay(Once(handled)) <==> id in Replay(handled)
  {
    if handled != [] {
      var last := |handled| - 1;
      SameKeys(handled[..last], id);
      OnceGrows(handled);
      assert Replay(handled) == Projected(Replay(handled[..last]), handled[last]);
      KeysAfter(Replay(handled[..last]), handled[last], id);
      KeysAfter(Replay(Once(handled[..last])), handled[last], id);
      hide Replay, Once, Projected, Inserts;
      if handled[last] in handled[..last] && Inserts(handled[last]) {
        InsertedStays(handled[..last], handled[last]);
      }
    }
  }

  lemma {:induction false} KeysAfter(t: Table, e: Job, id: string)
    ensures id in Projected(t, e) <==> id in t || (Inserts(e) && e.eventId == id)
  {
  }

  lemma {:induction false} RowAfter(t: Table, e: Job, id: string)
    requires id in t
    ensures id in Projected(t, e) && Projected(t, e)[id] == if Retracts(e) then Retracted(t[id], e) else t[id]
  {
  }

  lemma {:induction false} RowInserted(t: Table, e: Job)
    requires Inserts(e) && e.eventId !in t
    ensures e.eventId in Projected(t, e) && Projected(t, e)[e.eventId] == EntryOf(e)
  {
  }

  lemma {:induction false} NotInserted(handled: seq<Job>, id: string)
    ensures id !in Replay(handled) <==> forall i | 0 <= i < |handled| ::
        !(Inserts(handled[i]) && handled[i].eventId == id)
  {
    if i :| 0 <= i < |handled| && Inserts(handled[i]) && handled[i].eventId == id {
      InsertedStays(handled, handled[i]);
    } else if handled != [] {
      NotInserted(handled[..|handled| - 1], id);
    }
  }

  lemma {:induction false} InsertedStays(handled: seq<Job>, e: Job)
    requires e in handled && Inserts(e)
    ensures e.eventId in Replay(handled)
  {
    var last := |handled| - 1;
    if handled[last] != e {
      assert e in handled[..last];
      InsertedStays(handled[..last], e);
    }
  }

  lemma {:induction false} OnceGrows(handled: seq<Job>)
    requires handled != []
    ensures var last := |handled| - 1;
      Replay(Once(handled)) ==
      if IsFresh(handled, last) then Projected(Replay(Once(handled[..last])), handled[last])
      else Replay(Once(handled[..last]))
  {
    var last := |handled| - 1;
    var before := Once(handled[..last]);
    assert (before + [handled[last]])[..|before|] == before;
  }

  /** Every row, in any history: it shows the first retraction of its post after its insertion.  In
      the table of handling each event once, only retractions handled for the first time count. */
  lemma {:induction false} RowsExplained(handled: seq<Job>, j: nat)
    requires InsertsRow(handled, j)
    ensures var id := handled[j].eventId;
      && id in Replay(handled) && Replay(handled)[id] == RowOf(handled, j, false)
      && id in Replay(Once(handled)) && Replay(Once(handled))[id] == RowOf(handled, j, true)
  {
    var last, id := |handled| - 1, handled[j].eventId;
    var before := handled[..last];
    OnceGrows(handled);
    hide Projected, Retracted, EntryOf, Inserts, Retracts;
    if j == last {
      NotInserted(before, id);
      SameKeys(before, id);
      RowInserted(Replay(before), handled[last]);
      RowInserted(Replay(Once(before)), handled[last]);
    } else {
      InsertsRowPrefix(handled, j);
      RowsExplained(before, j);
      RowAfter(Replay(before), handled[last], id);
      RowAfter(Replay(Once(before)), handled[last], id);
      LaterRow(handled, j, false);
      LaterRow(handled, j, true);
      hide RowOf, InsertsRow;
    }
  }

  /** How the last position changes an earlier row. */
  lemma {:induction false} LaterRow(handled: seq<Job>, j: nat, freshOnly: bool)
    requires j < |handled| - 1
    ensures var last := |handled| - 1;
            var row := RowOf(handled[..last], j, freshOnly);
      RowOf(handled, j, freshOnly) ==
      if Retracts(handled[last]) && (freshOnly ==> IsFresh(handled, last)) then Retracted(row, handled[last]) else row
  {
    PrefixCounts(handled, j, freshOnly);
  }

  // ------------------------------------------------------------------ when repetitions matter

  /** When handling an event leaves a given table as it is. */
  lemma {:induction false} HarmlessExactly(t: Table, e: Job)
    ensures Projected(t, e) == t <==>
      && (Inserts(e) ==> e.eventId in t)
      && (Retracts(e) ==> forall id | id in t && About(t[id], e) :: t[id].retractedAt.Some?)
  {
    if Retracts(e) && Projected(t, e) == t {
      forall id | id in t && About(t[id], e) ensures t[id].retractedAt.Some? {
        assert Projected(t, e)[id] == t[id];
      }
    }
    if Retracts(e) && forall id | id in t && About(t[id], e) :: t[id].retractedAt.Some? {
      assert Projected(t, e).Keys == t.Keys;
    }
  }

  /** Handling a handled event again is harmless exactly when it is no retraction or every row of its
      post has a retraction after its insertion. */
  lemma {:induction false} RepeatIsHarmlessExactly(handled: seq<Job>, e: Job)
    requires e in handled
    ensures Projected(Replay(handled), e) == Replay(handled) <==>
      (Retracts(e) ==>
        forall j: nat | InsertsRow(handled, j) && About(EntryOf(handled[j]), e) ::
            NextRetraction(handled, j, false).Some?)
  {
    var t := Replay(handled);
    HarmlessExactly(t, e);
    if Inserts(e) {
      InsertedStays(handled, e);
    }
    forall j: nat | InsertsRow(handled, j)
      ensures handled[j].eventId in t && t[handled[j].eventId] == RowOf(handled, j, false)
    {
      RowsExplained(handled, j);
    }
    forall id | id in t ensures exists j: nat :: InsertsId(handled, j, id) {
      RowsInserted(handled, id);
      var j :| InsertsId(handled, j, id);
      var n: nat := j;
      assert InsertsId(handled, n, id);
    }
  }

  /** A row is spared when the first retraction after its insertion had not been handled before it,
      or when the first new one after it has the same time. */
  predicate Spared(handled: seq<Job>, j: nat)
    requires j < |handled|
  {
    var k, anew := NextRetraction(handled, j, false), NextRetraction(handled, j, true);
    k.Some? && handled[k.value] in handled[..j] ==>
      anew.Some? && handled[anew.value].occurredAt == handled[k.value].occurredAt
  }

  predicate AllSpared(handled: seq<Job>) {
    forall j | 0 <= j < |handled| && InsertsRow(handled, j) :: Spared(handled, j)
  }

  /** A retraction that was not handled before the row counts as the first new one. */
  lemma {:induction false} SparedExactly(handled: seq<Job>, j: nat)
    requires InsertsRow(handled, j)
    ensures RowOf(handled, j, false) == RowOf(handled, j, true) <==> Spared(handled, j)
  {
    var k, anew := NextRetraction(handled, j, false), NextRetraction(handled, j, true);
    if k.Some? && handled[k.value] !in handled[..j] {
      forall i | 0 <= i < k.value ensures handled[i] != handled[k.value] {
        assert i < j ==> handled[..j][i] == handled[i];
        assert RetractsPost(handled, j, k.value) && (j < i ==> !Counts(handled, j, i, false));
      }
      assert IsFresh(handled, k.value) && Counts(handled, j, k.value, true);
      forall i | j < i < k.value ensures !Counts(handled, j, i, true) {
        assert !Counts(handled, j, i, false);
      }
    } else if k.None? && anew.Some? {
      assert Counts(handled, j, anew.value, false);
    }
  }

  /** Repetitions do not matter, that is the table is the one of handling each event once, exactly
      when every row is spared. */
  lemma {:induction false} RepeatsDoNotMatterExactly(handled: seq<Job>)
    ensures Replay(handled) == Replay(Once(handled)) <==> AllSpared(handled)
  {
    var all, once := Replay(handled), Replay(Once(handled));
    forall j: nat | InsertsRow(handled, j)
      ensures var id := handled[j].eventId; id in all && id in once && (all[id] == once[id] <==> Spared(handled, j))
    {
      RowsExplained(handled, j);
      SparedExactly(handled, j);
    }
    forall id ensures id in all <==> id in once {
      RowsInserted(handled, id);
    }
    if AllSpared(handled) {
      forall id | id in all ensures all[id] == once[id] {
        RowsInserted(handled, id);
        var j :| InsertsId(handled, j, id);
        assert Spared(handled, j);
      }
    }
  }

  /** Of one post, every creation is first handled before any retraction. */
  predicate CreationsFirst(handled: seq<Job>) {
    forall j, k | 0 <= k < j < |handled| && Inserts(handled[j]) && RetractsPost(handled, j, k) ::
        handled[j] in handled[..k]
  }

  lemma {:induction false} NotRetractedBefore(handled: seq<Job>, j: nat)
    requires CreationsFirst(handled) && InsertsRow(handled, j)
    ensures forall i | 0 <= i < j :: !RetractsPost(handled, j, i)
  {
    forall i | 0 <= i < j ensures !RetractsPost(handled, j, i) {
      assert forall x | 0 <= x < i :: handled[..i][x] == handled[x];
      assert handled[j] !in handled[..i];
    }
  }

  /** So when each post's creations come before its retractions, any repetition is harmless. */
  lemma {:induction false} RepeatIsHarmless(handled: seq<Job>, e: Job)
    requires CreationsFirst(handled) && e in handled
    ensures Projected(Replay(handled), e) == Replay(handled)
  {
    var i :| 0 <= i < |handled| && handled[i] == e;
    forall j: nat | Retracts(e) && InsertsRow(handled, j) && About(EntryOf(handled[j]), e)
      ensures NextRetraction(handled, j, false).Some?
    {
      NotRetractedBefore(handled, j);
      assert RetractsPost(handled, j, i) && Counts(handled, j, i, false);
    }
    RepeatIsHarmlessExactly(handled, e);
  }

  /** And the table is that of handling each event once. */
  lemma {:induction false} RepeatsDoNotMatter(handled: seq<Job>)
    requires CreationsFirst(handled)
    ensures Replay(handled) == Replay(Once(handled))
  {
    forall j: nat | InsertsRow(handled, j) ensures Spared(handled, j) {
      NotRetractedBefore(handled, j);
      var k := NextRetraction(handled, j, false);
      if k.Some? {
        forall i | 0 <= i < j ensures handled[i] != handled[k.value] {
          assert !RetractsPost(handled, j, i) && RetractsPost(handled, j, k.value);
        }
      }
    }
    RepeatsDoNotMatterExactly(handled);
  }

  /** Out of order it does matter: a retraction handled before the creation and then delivered again
      retracts the row, handled once it does not. */
  lemma {:induction false} OutOfOrderMatters(created: Job, retraction: Job)
    requires Inserts(created) && Retracts(retraction) && About(EntryOf(created), retraction)
    ensures created.eventId in Replay([retraction, created, retraction])
    ensures Replay([retraction, created, retraction])[created.eventId].retractedAt == Some(retraction.occurredAt)
    ensures Once([retraction, created, retraction]) == [retraction, created]
    ensures Replay([retraction, created]) == map[created.eventId := EntryOf(created)]
  {
    var all := [retraction, created, retraction];
    assert all[..2] == [retraction, created] && [retraction, created][..1] == [retraction] && [retraction][..0] == [];
    assert Replay([]) == map[] && Once([]) == [];
    assert Replay([retraction]) == map[] && Once([retraction]) == [retraction];
    assert created != retraction;
    assert Replay([retraction, created]) == map[created.eventId := EntryOf(created)];
    assert Once([retraction, created]) == [retraction, created];
    assert Replay(all) == Projected(Replay([retraction, created]), retraction);
    assert retraction in all[..2];
  }

  // ------------------------------------------------------------------ deliveries

  datatype Pc = Checking | Handling | Marking | Finished(duplicate: bool) | Stopped

  datatype Delivery = Delivery(event: Job, pc: Pc)

  /** How a call of a delivery ends: normally, without effect, or with its effect but no reply. */
  datatype Reply = Returns | Fails | LosesReply

  /** The tables, the deliveries, and the accepted events in the order their statements ran. */
  datatype System = System(table: Table, marks: set<string>, deliveries: seq<Delivery>, handled: seq<Job>)

  datatype Happening = Deliver(event: Job) | Step(i: nat, reply: Reply)

  const EMPTY := System(map[], {}, [], [])

  /** `processIntegrationEvent`: the shape check before the first call. */
  predicate ShapeOk(e: Job) { e.eventId != "" && e.eventVersion >= 1 }

  function NextPc(d: Delivery, marks: set<string>, reply: Reply): Pc {
    match d.pc
    case Checking => if !reply.Returns? then Stopped else if d.event.eventId in marks then Finished(true) else Handling
    case Handling => if reply.Returns? && HandlerOk(d.event) then Marking else Stopped
    case Marking => if reply.Returns? then Finished(false) else Stopped
    case _ => d.pc
  }

  function Next(s: System, x: Happening): System {
    match x
    case Deliver(e) => s.(deliveries := s.deliveries + [Delivery(e, if ShapeOk(e) then Checking else Stopped)])
    case Step(i, reply) =>
      if i >= |s.deliveries| then s
      else
        var d := s.deliveries[i];
        var runs := d.pc.Handling? && !reply.Fails? && HandlerOk(d.event);
        System(
          if runs then Projected(s.table, d.event) else s.table,
          if d.pc.Marking? && !reply.Fails? then s.marks + {d.event.eventId} else s.marks,
          s.deliveries[i := d.(pc := NextPc(d, s.marks, reply))],
          if runs then s.handled + [d.event] else s.handled)
  }

  function Run(s: System, xs: seq<Happening>): System {
    if xs == [] then s else Next(Run(s, xs[..|xs| - 1]), xs[|xs| - 1])
  }

  ghost predicate HandledId(handled: seq<Job>, id: string) {
    exists e :: e in handled && e.eventId == id
  }

  ghost predicate Inv(s: System) {
    && s.table == Replay(s.handled)
    && (forall id | id in s.marks :: HandledId(s.handled, id))
    && (forall i | 0 <= i < |s.deliveries| && s.deliveries[i].pc in [Marking, Finished(false)] ::
          s.deliveries[i].event in s.handled)
    && (forall e | e in s.handled :: HandlerOk(e))
  }

  lemma {:induction false} NextKeeps(s: System, x: Happening)
    requires Inv(s)
    ensures Inv(Next(s, x))
  {
    var t := Next(s, x);
    if x.Step? && x.i < |s.deliveries| {
      var d := s.deliveries[x.i];
      if t.handled != s.handled {
        assert t.handled[..|t.handled| - 1] == s.handled;
      }
      assert forall e | e in s.handled :: e in t.handled;
      forall id | id in t.marks ensures HandledId(t.handled, id) {
        if id in s.marks {
          var e :| e in s.handled && e.eventId == id;
          assert e in t.handled;
        } else {
          assert d.event in t.handled;
        }
      }
    }
  }

  /** Under every schedule of deliveries, repetitions and stops, the table is the replay of the
      handled events, and only handled events are marked. */
  lemma {:induction false} RunKeeps(xs: seq<Happening>)
    ensures Inv(Run(EMPTY, xs))
  {
    if xs != [] {
      RunKeeps(xs[..|xs| - 1]);
      NextKeeps(Run(EMPTY, xs[..|xs| - 1]), xs[|xs| - 1]);
    }
  }

  /** Rows are never removed, and only an empty retraction time is ever filled in. */
  predicate RowsGrow(before: Table, after: Table) {
    forall id | id in before ::
      && id in after
      && after[id].(retractedAt := None) == before[id].(retractedAt := None)
      && (before[id].retractedAt.Some? ==> after[id] == before[id])
  }

  lemma {:induction false} ProjectedGrows(t: Table, e: Job)
    ensures RowsGrow(t, Projected(t, e))
  {
    hide Projected;
    forall id | id in t ensures id in Projected(t, e)
        && Projected(t, e)[id] == if Retracts(e) then Retracted(t[id], e) else t[id] {
      RowAfter(t, e, id);
    }
  }

  lemma {:induction false} RowsOnlyGrow(s: System, xs: seq<Happening>)
    ensures RowsGrow(s.table, Run(s, xs).table)
  {
    if xs != [] {
      RowsOnlyGrow(s, xs[..|xs| - 1]);
      var t, x := Run(s, xs[..|xs| - 1]), xs[|xs| - 1];
      if x.Step? && x.i < |t.deliveries| {
        ProjectedGrows(t.table, t.deliveries[x.i].event);
      }
      hide Projected;
      assert RowsGrow(t.table, Next(t, x).table);
    }
  }

  /** The consumer's promise: when every handled post's creations come first, any schedule leaves the
      table of handling each event exactly once. */
  lemma {:induction false} AtLeastOnceLooksOnce(xs: seq<Happening>)
    requires CreationsFirst(Run(EMPTY, xs).handled)
    ensures Run(EMPTY, xs).table == Replay(Once(Run(EMPTY, xs).handled))
  {
    RunKeeps(xs);
    RepeatsDoNotMatter(Run(EMPTY, xs).handled);
  }

  /** Under every schedule the table is that of handling each event exactly once if and only if every
      row is spared. */
  lemma {:induction false} AtLeastOnceLooksOnceExactly(xs: seq<Happening>)
    ensures Run(EMPTY, xs).table == Replay(Once(Run(EMPTY, xs).handled)) <==> AllSpared(Run(EMPTY, xs).handled)
  {
    RunKeeps(xs);
    RepeatsDoNotMatterExactly(Run(EMPTY, xs).handled);
  }

  // ------------------------------------------------------------------ the code

  class Database {
    var table: Table
    var marks: set<string>

    constructor ()
      ensures table == map[] && marks == {}
    {
      table, marks := map[], {};
    }

    method HasProcessed(eventId: string) returns (found: bool)
      ensures found == (eventId in marks)
    {
      found := eventId in marks;
    }

    method MarkProcessed(eventId: string)
      modifies this`marks
      ensures marks == old(marks) + {eventId}
    {
      marks := marks + {eventId};
    }

    method InsertEntry(eventId: string, entry: Entry)
      modifies this`table
      ensures table == if eventId in old(table) then old(table) else old(table)[eventId := entry]
    {
      if eventId !in table {
        table := table[eventId := entry];
      }
    }

    /** The handler; `ok` is false where it throws. */
    method Project(e: Job) returns (ok: bool)
      modifies this`table
      ensures ok == HandlerOk(e)
      ensures table == if ok then Projected(old(table), e) else old(table)
    {
      ok := true;
      if e.name == WallPostCreated {
        if e.actorId == "" || e.aggregateType != "UserWallPost" || e.aggregateId == "" {
          return false;
        }
        InsertEntry(e.eventId, EntryOf(e));
      } else if e.name == WallPostRetracted {
        if e.aggregateType != "UserWallPost" || e.aggregateId == "" {
          return false;
        }
        table := map id | id in table :: Retracted(table[id], e);
      } else if e.name == NewsPublished {
        if !NewsOk(e) {
          return false;
        }
        InsertEntry(e.eventId, EntryOf(e));
      }
    }

    /** One undisturbed delivery: none where it throws, else whether it was a duplicate. */
    method Process(e: Job) returns (duplicate: Option<bool>)
      modifies this
      ensures var before := System(old(table), old(marks), [], []);
              var after := Run(before, [Deliver(e), Step(0, Returns), Step(0, Returns), Step(0, Returns)]);
        && table == after.table && marks == after.marks
        && after.deliveries == [Delivery(e, if duplicate.None? then Stopped else Finished(duplicate.value))]
    {
      ghost var s0 := System(table, marks, [], []);
      ghost var s1 := Next(s0, Deliver(e));
      ghost var s2 := Next(s1, Step(0, Returns));
      ghost var s3 := Next(s2, Step(0, Returns));
      FourSteps(s0, Deliver(e), Step(0, Returns), Step(0, Returns), Step(0, Returns));
      if e.eventId == "" || e.eventVersion < 1 {
        return None;
      }
      var processed := HasProcessed(e.eventId);
      if processed {
        return Some(true);
      }
      var ok := Project(e);
      if !ok {
        return None;
      }
      MarkProcessed(e.eventId);
      duplicate := Some(false);
    }
  }

  lemma {:induction false} FourSteps(s: System, a: Happening, b: Happening, c: Happening, d: Happening)
    ensures Run(s, [a, b, c, d]) == Next(Next(Next(Next(s, a), b), c), d)
  {
    assert [a][..0] == [] && Run(s, [a]) == Next(s, a);
    assert [a, b][..1] == [a] && Run(s, [a, b]) == Next(Next(s, a), b);
    assert [a, b, c][..2] == [a, b] && Run(s, [a, b, c]) == Next(Next(Next(s, a), b), c);
    assert [a, b, c, d][..3] == [a, b, c];
  }
}
