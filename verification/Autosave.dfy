/** The autosave coordinator of packages/editor/src/autosave.ts.

    A save in flight carries the `flush` calls suspended on its promise.  When it settles, its own
    continuation runs first, then its owner's `finally`, then the suspended calls in order. */
module Autosave {
  import opened Options

  datatype Document = Document(text: string)

  datatype Phase = Idle | Dirty | Saving | Saved | Conflict | Error

  /** A save in flight: the document, the version it was based on, the suspended `flush` calls. */
  datatype Flight = Flight(id: nat, document: Document, base: int, waiters: nat)

  /** How a save settles. */
  datatype Outcome = Stored(version: int) | StoredBadly | Conflicted | Failed

  datatype Acknowledged = Acknowledged(base: int, version: int, document: Document)

  /** The coordinator's fields; then the promises; then history: the newest document handed to
      `update` and every acknowledged save in order. */
  datatype State = State(
    pending: Option<Document>, timer: bool, active: Option<nat>, disposed: bool, phase: Phase, version: int,
    flights: seq<Flight>, nextId: nat,
    newest: Option<Document>, acknowledged: seq<Acknowledged>)

  function Initial(version: nat): State {
    State(None, false, None, false, Idle, version, [], 0, None, [])
  }

  // ------------------------------------------------------------------ turns

  function Schedule(s: State): State {
    s.(timer := s.active.None?)
  }

  /** `update`: a disposed coordinator and an invalid document both throw before any change. */
  function Update(s: State, document: Document, valid: bool): State {
    if s.disposed || !valid then s
    else Schedule(s.(pending := Some(document), phase := Dirty, newest := Some(document)))
  }

  /** `runSave` up to its await, and the assignment to `activeSave`. */
  function StartSave(s: State): State
    requires s.pending.Some?
  {
    s.(pending := None, phase := Saving, active := Some(s.nextId), nextId := s.nextId + 1,
       flights := s.flights + [Flight(s.nextId, s.pending.value, s.version, 0)])
  }

  /** `flush` after its first await. */
  function Proceed(s: State): State {
    if s.pending.None? then s else StartSave(s)
  }

  function Suspend(flights: seq<Flight>, id: nat): (r: seq<Flight>)
    ensures |r| == |flights|
  {
    if flights == [] then []
    else
      var last := flights[|flights| - 1];
      Suspend(flights[..|flights| - 1], id) + [if last.id == id then last.(waiters := last.waiters + 1) else last]
  }

  /** `flush` up to its first await. */
  function Flush(s: State): State {
    if s.disposed then s
    else
      var quiet := s.(timer := false);
      if s.active.Some? then quiet.(flights := Suspend(s.flights, s.active.value)) else Proceed(quiet)
  }

  function Retry(s: State): State {
    if s.pending.None? then s else Flush(s)
  }

  function TimerFires(s: State): State {
    if s.timer then Flush(s.(timer := false)) else s
  }

  function Dispose(s: State): State {
    s.(disposed := true, timer := false)
  }

  predicate Accepted(flight: Flight, outcome: Outcome) {
    outcome.Stored? && outcome.version > flight.base
  }

  /** The continuation of `runSave` for flight `k`. */
  function Resolve(s: State, k: nat, outcome: Outcome): State
    requires k < |s.flights|
  {
    var flight := s.flights[k];
    var landed := s.(flights := s.flights[..k] + s.flights[k + 1..]);
    if Accepted(flight, outcome) then
      var t := landed.(phase := if s.pending.Some? then Dirty else Saved, version := outcome.version,
                       acknowledged := s.acknowledged + [Acknowledged(flight.base, outcome.version, flight.document)]);
      if t.pending.Some? then Schedule(t) else t
    else
      landed.(pending := if s.pending.Some? then s.pending else Some(flight.document),
              phase := if outcome.Conflicted? then Conflict else Error)
  }

  /** The owner's `finally`. */
  function Release(s: State, id: nat): State {
    if s.active == Some(id) then s.(active := None) else s
  }

  /** The first `n` suspended calls, resumed in order. */
  function Wake(s: State, n: nat): State {
    if n == 0 then s else Proceed(Wake(s, n - 1))
  }

  function Settle(s: State, k: nat, outcome: Outcome): State
    requires k < |s.flights|
  {
    Wake(Release(Resolve(s, k, outcome), s.flights[k].id), s.flights[k].waiters)
  }

  // ------------------------------------------------------------------ runs

  datatype Event = DoUpdate(document: Document, valid: bool) | DoFlush | DoRetry | DoTimer | DoDispose
      | DoSettle(k: nat, outcome: Outcome)

  function Next(s: State, e: Event): State {
    match e
    case DoUpdate(document, valid) => Update(s, document, valid)
    case DoFlush => Flush(s)
    case DoRetry => Retry(s)
    case DoTimer => TimerFires(s)
    case DoDispose => Dispose(s)
    case DoSettle(k, outcome) => if k < |s.flights| then Settle(s, k, outcome) else s
  }

  function Run(s: State, es: seq<Event>): State {
    if es == [] then s else Next(Run(s, es[..|es| - 1]), es[|es| - 1])
  }

  // ------------------------------------------------------------------ invariant

  /** Where the newest content is: pending, else in flight, else the last acknowledged. */
  function Held(s: State): Option<Document> {
    if s.pending.Some? then s.pending
    else if s.flights != [] then Some(s.flights[|s.flights| - 1].document)
    else if s.acknowledged != [] then Some(s.acknowledged[|s.acknowledged| - 1].document)
    else None
  }

  /** Each acknowledged save was based on the one before it and has a larger version. */
  predicate VersionChain(initial: int, acknowledged: seq<Acknowledged>, version: int) {
    && (acknowledged == [] ==> version == initial)
    && (acknowledged != [] ==> version == acknowledged[|acknowledged| - 1].version && acknowledged[0].base == initial)
    && (forall i | 0 <= i < |acknowledged| :: acknowledged[i].base < acknowledged[i].version)
    && (forall i | 0 < i < |acknowledged| :: acknowledged[i].base == acknowledged[i - 1].version)
  }

  /** One save at most, and it is the active one, based on the current version. */
  predicate SingleFlight(s: State) {
    && |s.flights| <= 1
    && s.active == (if s.flights == [] then None else Some(s.flights[0].id))
    && (forall i | 0 <= i < |s.flights| :: s.flights[i].base == s.version)
  }

  /** The published phase tells whether something is unsaved or being saved. */
  predicate PhaseTells(s: State) {
    && (s.pending.Some? <==> s.phase in [Dirty, Conflict, Error])
    && (s.phase == Saving <==> s.pending.None? && s.flights != [])
    && (s.phase == Saved ==> s.acknowledged != [] && s.flights == [])
    && (s.phase in [Conflict, Error] ==> s.flights == [])
  }

  predicate Inv(s: State, initial: int) {
    && SingleFlight(s)
    && (s.timer ==> s.active.None? && s.pending.Some? && !s.disposed)
    && Held(s) == s.newest
    && VersionChain(initial, s.acknowledged, s.version)
    && PhaseTells(s)
  }

  lemma {:induction false} SuspendKeeps(flights: seq<Flight>, id: nat)
    ensures |Suspend(flights, id)| == |flights|
    ensures forall i | 0 <= i < |flights| ::
      Suspend(flights, id)[i] == flights[i].(waiters := flights[i].waiters + if flights[i].id == id then 1 else 0)
  {
    if flights != [] {
      SuspendKeeps(flights[..|flights| - 1], id);
    }
  }

  lemma {:induction false} ChainExtends(initial: int, acknowledged: seq<Acknowledged>, version: int, next: Acknowledged)
    requires VersionChain(initial, acknowledged, version) && next.base == version < next.version
    ensures VersionChain(initial, acknowledged + [next], next.version)
  {
    var after := acknowledged + [next];
    assert forall i | 0 <= i < |acknowledged| :: after[i] == acknowledged[i];
  }

  lemma {:induction false} VersionsIncrease(initial: int, acknowledged: seq<Acknowledged>, version: int, i: nat, j: nat)
    requires VersionChain(initial, acknowledged, version) && i < j < |acknowledged|
    ensures initial < acknowledged[i].version < acknowledged[j].version <= version
    decreases j
  {
    if i + 1 < j {
      VersionsIncrease(initial, acknowledged, version, i, j - 1);
    }
    if i > 0 {
      VersionsIncrease(initial, acknowledged, version, 0, i);
    }
    if j < |acknowledged| - 1 {
      LaterVersions(initial, acknowledged, version, j);
    }
  }

  lemma {:induction false} LaterVersions(initial: int, acknowledged: seq<Acknowledged>, version: int, j: nat)
    requires VersionChain(initial, acknowledged, version) && j < |acknowledged|
    ensures acknowledged[j].version <= version
    decreases |acknowledged| - j
  {
    if j + 1 < |acknowledged| {
      LaterVersions(initial, acknowledged, version, j + 1);
      assert acknowledged[j + 1].base == acknowledged[j].version;
    }
  }

  // ------------------------------------------------------------------ where autosave stops by itself

  /** Unsaved content, nothing in flight and no timer: only the user can start the next save. */
  predicate Stalled(s: State) {
    s.phase == Dirty && !s.timer && s.flights == []
  }

  /** The run that stalls: edit, save, edit during the save, success. */
  lemma {:induction false} StallReachable(first: Document, second: Document)
    ensures var es := [DoUpdate(first, true), DoTimer, DoUpdate(second, true), DoSettle(0, Stored(1))];
            var s := Run(Initial(0), es);
      Stalled(s) && s.newest == Some(second) && !s.disposed
  {
    var e1 := [DoUpdate(first, true)];
    var e2, e3 := e1 + [DoTimer], e1 + [DoTimer] + [DoUpdate(second, true)];
    var es := [DoUpdate(first, true), DoTimer, DoUpdate(second, true), DoSettle(0, Stored(1))];
    assert e1[..0] == [] && e2[..1] == e1 && e3[..2] == e2 && es[..3] == e3;
    assert Run(Initial(0), []) == Initial(0);
    var s1 := Run(Initial(0), e1);
    assert s1 == Next(Initial(0), DoUpdate(first, true));
    assert s1 == State(Some(first), true, None, false, Dirty, 0, [], 0, Some(first), []);
    var s2 := Run(Initial(0), e2);
    assert s2 == Next(s1, DoTimer);
    assert s2 == State(None, false, Some(0), false, Saving, 0, [Flight(0, first, 0, 0)], 1, Some(first), []);
    var s3 := Run(Initial(0), e3);
    assert s3 == Next(s2, DoUpdate(second, true));
    assert s3 == State(Some(second), false, Some(0), false, Dirty, 0, [Flight(0, first, 0, 0)], 1, Some(second), []);
    assert Run(Initial(0), es) == Next(s3, DoSettle(0, Stored(1)));
    assert s3.flights[..0] == [];
  }
}
