/** The coordinator with calls made from inside it: listeners run synchronously in `publish`, and the
    `save` callback runs before `flush` assigns `activeSave`.  Each of them may call `update`, `flush`,
    `retry` and `dispose` again. */
module AutosaveCalls {
  import opened Options
  import opened Autosave

  /** One call.  `during` is what listeners and the `save` callback call while it runs: of `update`,
      what listeners do when they are told; of `flush` and `retry`, what listeners and the callback do
      when it starts a save. */
  datatype Call =
    | Edit(document: Document, valid: bool, during: seq<Call>)
    | Save(during: seq<Call>)
    | Again(during: seq<Call>)
    | Stop

  // ------------------------------------------------------------------ what calls do

  /** The first `n` calls of a list, in order.  Calls never end a save. */
  function PerformUpTo(s: State, cs: seq<Call>, n: nat): (r: State)
    requires n <= |cs|
    ensures |r.flights| >= |s.flights|
    decreases cs, 0, n
  {
    if n == 0 then s else Perform(PerformUpTo(s, cs, n - 1), cs[n - 1])
  }

  function PerformAll(s: State, cs: seq<Call>): (r: State)
    ensures |r.flights| >= |s.flights|
    decreases cs, 1
  {
    PerformUpTo(s, cs, |cs|)
  }

  function Perform(s: State, c: Call): (r: State)
    ensures |r.flights| >= |s.flights|
    decreases c, 5
  {
    match c
    case Edit(document, valid, during) =>
      if s.disposed || !valid then s
      else Schedule(PerformAll(s.(pending := Some(document), phase := Dirty, newest := Some(document)), during))
    case Save(during) => FlushWith(s, during)
    case Again(during) => if s.pending.None? then s else FlushWith(s, during)
    case Stop => Dispose(s)
  }

  function FlushWith(s: State, during: seq<Call>): (r: State)
    ensures |r.flights| >= |s.flights|
    decreases during, 4
  {
    if s.disposed then s
    else
      var quiet := s.(timer := false);
      if s.active.Some? then quiet.(flights := Suspend(s.flights, s.active.value)) else ProceedWith(quiet, during)
  }

  /** `flush` after its first await: it does not look at `activeSave` again. */
  function ProceedWith(s: State, during: seq<Call>): (r: State)
    ensures |r.flights| >= |s.flights|
    decreases during, 3
  {
    if s.pending.None? then s else StartWith(s, during)
  }

  /** The save has taken its document and its base version, `activeSave` is not assigned yet. */
  function Captured(s: State): State
    requires s.pending.Some?
  {
    s.(pending := None, phase := Saving, nextId := s.nextId + 1,
       flights := s.flights + [Flight(s.nextId, s.pending.value, s.version, 0)])
  }

  function StartWith(s: State, during: seq<Call>): (r: State)
    requires s.pending.Some?
    ensures |r.flights| >= |s.flights| + 1
    decreases during, 2
  {
    PerformAll(Captured(s), during).(active := Some(s.nextId))
  }

  lemma {:induction false} FlushIs(s: State, during: seq<Call>)
    ensures FlushWith(s, during) ==
      var quiet := s.(timer := false);
      if s.disposed then s
      else if s.active.Some? then quiet.(flights := Suspend(s.flights, s.active.value))
      else if s.pending.None? then quiet
      else StartWith(quiet, during)
  {
    var quiet := s.(timer := false);
    assert ProceedWith(quiet, during) == if s.pending.None? then quiet else StartWith(quiet, during);
  }

  // ------------------------------------------------------------------ turns

  /** One turn of the event loop. */
  datatype Turn =
    | Outer(call: Call)
    | Timer(during: seq<Call>)
    | Settled(k: nat, outcome: Outcome, landing: seq<Call>, waking: seq<seq<Call>>)

  /** What the settling save publishes, before listeners hear of it. */
  function Announced(s: State, flight: Flight, outcome: Outcome): State {
    if Accepted(flight, outcome) then
      s.(phase := if s.pending.Some? then Dirty else Saved, version := outcome.version,
         acknowledged := s.acknowledged + [Acknowledged(flight.base, outcome.version, flight.document)])
    else
      s.(pending := if s.pending.Some? then s.pending else Some(flight.document),
         phase := if outcome.Conflicted? then Conflict else Error)
  }

  /** The rest of `runSave`: announcing, the listeners' calls, and the schedule after a success. */
  function LandWith(s: State, k: nat, outcome: Outcome, landing: seq<Call>): (r: State)
    requires k < |s.flights|
    ensures |r.flights| >= |s.flights|
  {
    var heard := PerformAll(Announced(s, s.flights[k], outcome), landing);
    if Accepted(s.flights[k], outcome) && heard.pending.Some? then Schedule(heard) else heard
  }

  function ScriptAt(waking: seq<seq<Call>>, n: nat): seq<Call> {
    if n < |waking| then waking[n] else []
  }

  /** The first `n` suspended calls resume in order; each that starts a save runs its own script. */
  function WakeWith(s: State, n: nat, waking: seq<seq<Call>>): State {
    if n == 0 then s else ProceedWith(WakeWith(s, n - 1, waking), ScriptAt(waking, n - 1))
  }

  function Without(flights: seq<Flight>, k: nat): seq<Flight>
    requires k < |flights|
  {
    flights[..k] + flights[k + 1..]
  }

  function NextTurn(s: State, t: Turn): State {
    match t
    case Outer(c) => Perform(s, c)
    case Timer(during) => if s.timer then FlushWith(s.(timer := false), during) else s
    case Settled(k, outcome, landing, waking) =>
      if k >= |s.flights| then s
      else
        var landed := LandWith(s, k, outcome, landing);
        var released := Release(landed.(flights := Without(landed.flights, k)), s.flights[k].id);
        WakeWith(released, landed.flights[k].waiters, waking)
  }

  function RunTurns(s: State, ts: seq<Turn>): State {
    if ts == [] then s else NextTurn(RunTurns(s, ts[..|ts| - 1]), ts[|ts| - 1])
  }

  /** A turn in which nobody calls from inside. */
  function Quietly(e: Event): Turn {
    match e
    case DoUpdate(document, valid) => Outer(Edit(document, valid, []))
    case DoFlush => Outer(Save([]))
    case DoRetry => Outer(Again([]))
    case DoTimer => Timer([])
    case DoDispose => Outer(Stop)
    case DoSettle(k, outcome) => Settled(k, outcome, [], [])
  }

  lemma {:induction false} QuietFlush(s: State)
    ensures FlushWith(s, []) == Flush(s) && ProceedWith(s, []) == Proceed(s)
  {
    FlushIs(s, []);
    assert s.pending.Some? ==> PerformAll(Captured(s), []) == Captured(s);
    assert s.pending.Some? ==> StartWith(s, []) == StartSave(s);
    var quiet := s.(timer := false);
    assert s.pending.Some? ==> PerformAll(Captured(quiet), []) == Captured(quiet);
    assert s.pending.Some? ==> StartWith(quiet, []) == StartSave(quiet);
  }

  lemma {:induction false} QuietSettle(s: State, k: nat, outcome: Outcome)
    requires k < |s.flights|
    ensures NextTurn(s, Settled(k, outcome, [], [])) == Settle(s, k, outcome)
  {
    var landed := LandWith(s, k, outcome, []);
    var released := Release(Resolve(s, k, outcome), s.flights[k].id);
    assert landed.flights == s.flights;
    assert Release(landed.(flights := Without(landed.flights, k)), s.flights[k].id) == released;
    QuietWake(released, s.flights[k].waiters);
  }

  /** Such turns are the turns of the simple coordinator. */
  lemma {:induction false} QuietTurns(s: State, e: Event)
    ensures NextTurn(s, Quietly(e)) == Next(s, e)
  {
    match e
    case DoUpdate(document, valid) =>
      var edited := s.(pending := Some(document), phase := Dirty, newest := Some(document));
      assert PerformAll(edited, []) == edited;
      assert Perform(s, Edit(document, valid, [])) == Update(s, document, valid);
    case DoFlush => QuietFlush(s);
    case DoRetry => QuietFlush(s);
    case DoTimer => QuietFlush(s.(timer := false));
    case DoDispose =>
    case DoSettle(k, outcome) =>
      if k < |s.flights| {
        QuietSettle(s, k, outcome);
      }
  }

  lemma {:induction false} QuietWake(s: State, n: nat)
    ensures WakeWith(s, n, []) == Wake(s, n)
  {
    if n > 0 {
      QuietWake(s, n - 1);
      QuietFlush(Wake(s, n - 1));
    }
  }

  // ------------------------------------------------------------------ reading calls without a state

  /** What can be said about calls in advance, while no save is active: is something pending, are we
      disposed, is the timer armed; and the script of the first save that starts. */
  datatype Scan = Scan(pending: bool, stopped: bool, armed: bool, started: Option<seq<Call>>)

  function ScanUpTo(v: Scan, cs: seq<Call>, n: nat): Scan
    requires n <= |cs|
    decreases cs, 0, n
  {
    if n == 0 then v else ScanCall(ScanUpTo(v, cs, n - 1), cs[n - 1])
  }

  function ScanCall(v: Scan, c: Call): Scan
    decreases c, 1, 0
  {
    if v.started.Some? then v
    else match c
      case Edit(_, valid, during) =>
        if v.stopped || !valid then v
        else
          var w := ScanUpTo(v.(pending := true), during, |during|);
          if w.started.Some? then w else w.(armed := true)
      case Save(during) => if v.stopped then v else if v.pending then v.(started := Some(during))
          else v.(armed := false)
      case Again(during) => if v.stopped || !v.pending then v else v.(started := Some(during))
      case Stop => v.(stopped := true, armed := false)
  }

  /** The same while a save is active: `joined` counts the calls that wait for it. */
  datatype Busy = Busy(pending: bool, stopped: bool, joined: nat)

  function BusyUpTo(v: Busy, cs: seq<Call>, n: nat): Busy
    requires n <= |cs|
    decreases cs, 0, n
  {
    if n == 0 then v else BusyCall(BusyUpTo(v, cs, n - 1), cs[n - 1])
  }

  function BusyCall(v: Busy, c: Call): Busy
    decreases c, 1, 0
  {
    match c
    case Edit(_, valid, during) => if v.stopped || !valid then v else BusyUpTo(v.(pending := true), during, |during|)
    case Save(_) => if v.stopped then v else v.(joined := v.joined + 1)
    case Again(_) => if v.stopped || !v.pending then v else v.(joined := v.joined + 1)
    case Stop => v.(stopped := true)
  }

  // ------------------------------------------------------------------ what the readings mean

  function ScanOf(s: State): Scan {
    Scan(s.pending.Some?, s.disposed, s.timer, None)
  }

  /** Calls that start nothing change only what is pending, and make more calls wait. */
  predicate Touched(s: State, t: State) {
    && t.active == s.active && t.version == s.version && t.acknowledged == s.acknowledged && t.nextId == s.nextId
    && |t.flights| == |s.flights|
    && (forall i | 0 <= i < |s.flights| :: t.flights[i] == s.flights[i].(waiters := t.flights[i].waiters))
    && ((t.pending == s.pending && t.newest == s.newest && t.phase == s.phase)
        || (t.pending.Some? && t.newest == t.pending && t.phase == Dirty))
  }

  /** While no save is active and none starts, the scan says what becomes of the state. */
  lemma {:induction false} NothingStarts(s: State, cs: seq<Call>, n: nat)
    requires n <= |cs| && s.active.None? && ScanUpTo(ScanOf(s), cs, n).started.None?
    ensures var t := PerformUpTo(s, cs, n);
      Touched(s, t) && t.flights == s.flights && ScanOf(t) == ScanUpTo(ScanOf(s), cs, n)
    decreases cs, 0, n
  {
    if n > 0 {
      NothingStarts(s, cs, n - 1);
      CallStartsNothing(PerformUpTo(s, cs, n - 1), cs[n - 1]);
    }
  }

  lemma {:induction false} CallStartsNothing(s: State, c: Call)
    requires s.active.None? && ScanCall(ScanOf(s), c).started.None?
    ensures Touched(s, Perform(s, c)) && Perform(s, c).flights == s.flights
        && ScanOf(Perform(s, c)) == ScanCall(ScanOf(s), c)
    decreases c, 1, 0
  {
    if c.Edit? && !s.disposed && c.valid {
      var edited := s.(pending := Some(c.document), phase := Dirty, newest := Some(c.document));
      assert ScanOf(edited) == ScanOf(s).(pending := true);
      NothingStarts(edited, c.during, |c.during|);
    }
    if c.Save? {
      FlushIs(s, c.during);
    }
  }

  /** While a save is active nothing starts. */
  lemma {:induction false} BusyStartsNothing(s: State, cs: seq<Call>, n: nat, joined: nat)
    requires n <= |cs| && s.active.Some?
    ensures var t := PerformUpTo(s, cs, n);
            var v := BusyUpTo(Busy(s.pending.Some?, s.disposed, joined), cs, n);
      && Touched(s, t) && (t.timer ==> s.timer) && t.pending.Some? == v.pending && t.disposed == v.stopped
          && v.joined >= joined
      && forall i | 0 <= i < |s.flights| ::
           t.flights[i].waiters == s.flights[i].waiters + if s.flights[i].id == s.active.value then v.joined - joined
               else 0
    decreases cs, 0, n
  {
    if n > 0 {
      BusyStartsNothing(s, cs, n - 1, joined);
      var t := PerformUpTo(s, cs, n - 1);
      var v := BusyUpTo(Busy(s.pending.Some?, s.disposed, joined), cs, n - 1);
      BusyCallStartsNothing(t, cs[n - 1], v.joined);
    }
  }

  lemma {:induction false} BusyCallStartsNothing(s: State, c: Call, joined: nat)
    requires s.active.Some?
    ensures var t := Perform(s, c);
            var v := BusyCall(Busy(s.pending.Some?, s.disposed, joined), c);
      && Touched(s, t) && (t.timer ==> s.timer) && t.pending.Some? == v.pending && t.disposed == v.stopped
          && v.joined >= joined
      && forall i | 0 <= i < |s.flights| ::
           t.flights[i].waiters == s.flights[i].waiters + if s.flights[i].id == s.active.value then v.joined - joined
               else 0
    decreases c, 1, 0
  {
    if c.Edit? && !s.disposed && c.valid {
      var edited := s.(pending := Some(c.document), phase := Dirty, newest := Some(c.document));
      BusyStartsNothing(edited, c.during, |c.during|, joined);
    }
    if c.Save? || c.Again? {
      FlushIs(s, c.during);
    }
    SuspendKeeps(s.flights, s.active.value);
  }

  /** The calls made from inside the first save that starts, read before line 123 of the source. */
  function Gap(script: seq<Call>, stopped: bool): Scan {
    ScanUpTo(Scan(false, stopped, false, None), script, |script|)
  }

  /** Whether the timer is armed has no say in what starts. */
  lemma {:induction false} TimerApart(v: Scan, w: Scan, cs: seq<Call>, n: nat)
    requires n <= |cs| && w == v.(armed := w.armed)
    ensures ScanUpTo(w, cs, n) == ScanUpTo(v, cs, n).(armed := ScanUpTo(w, cs, n).armed)
    decreases cs, 0, n
  {
    if n > 0 {
      TimerApart(v, w, cs, n - 1);
      CallTimerApart(ScanUpTo(v, cs, n - 1), ScanUpTo(w, cs, n - 1), cs[n - 1]);
    }
  }

  lemma {:induction false} CallTimerApart(v: Scan, w: Scan, c: Call)
    requires w == v.(armed := w.armed)
    ensures ScanCall(w, c) == ScanCall(v, c).(armed := ScanCall(w, c).armed)
    decreases c, 1, 0
  {
    if c.Edit? {
      TimerApart(v.(pending := true), w.(pending := true), c.during, |c.during|);
    }
  }

  /** A save that starts while none is active: how many are in flight then. */
  lemma {:induction false} Began(s: State, script: seq<Call>)
    requires s.active.None? && s.pending.Some?
    ensures var t, g := StartWith(s, script), Gap(script, s.disposed);
      && (g.started.Some? ==> |t.flights| >= |s.flights| + 2)
      && (g.started.None? ==>
            && Touched(Captured(s), t.(active := None)) && t.flights == Captured(s).flights
                && t.active == Some(s.nextId)
            && t.pending.Some? == g.pending && t.disposed == g.stopped && (!s.timer ==> t.timer == g.armed))
    decreases script, 2, 0
  {
    var free := Scan(false, s.disposed, false, None);
    assert ScanOf(Captured(s)) == free.(armed := s.timer);
    TimerApart(free, ScanOf(Captured(s)), script, |script|);
    if Gap(script, s.disposed).started.None? {
      NothingStarts(Captured(s), script, |script|);
    } else {
      SomethingStarts(Captured(s), script, |script|);
    }
  }

  /** When the scan finds a save, one starts; and a second one when calls from inside it start one. */
  lemma {:induction false} SomethingStarts(s: State, cs: seq<Call>, n: nat)
    requires n <= |cs| && s.active.None? && ScanUpTo(ScanOf(s), cs, n).started.Some?
    ensures var t, script := PerformUpTo(s, cs, n), ScanUpTo(ScanOf(s), cs, n).started.value;
      && |t.flights| >= |s.flights| + 1
      && (Gap(script, false).started.Some? ==> |t.flights| >= |s.flights| + 2)
    decreases cs, 0, n
  {
    if n > 0 {
      var before := PerformUpTo(s, cs, n - 1);
      if ScanUpTo(ScanOf(s), cs, n - 1).started.Some? {
        SomethingStarts(s, cs, n - 1);
      } else {
        NothingStarts(s, cs, n - 1);
        CallStartsSomething(before, cs[n - 1]);
      }
    }
  }

  lemma {:induction false} CallStartsSomething(s: State, c: Call)
    requires s.active.None? && ScanCall(ScanOf(s), c).started.Some?
    ensures var t, script := Perform(s, c), ScanCall(ScanOf(s), c).started.value;
      && |t.flights| >= |s.flights| + 1
      && (Gap(script, false).started.Some? ==> |t.flights| >= |s.flights| + 2)
    decreases c, 1, 0
  {
    match c
    case Edit(document, valid, during) =>
      var edited := s.(pending := Some(document), phase := Dirty, newest := Some(document));
      assert ScanOf(edited) == ScanOf(s).(pending := true);
      SomethingStarts(edited, during, |during|);
    case Save(during) => FlushIs(s, during); Began(s.(timer := false), during);
    case Again(during) => FlushIs(s, during); Began(s.(timer := false), during);
    case Stop =>
  }

  /** One save has started from an idle state, on its newest document. */
  predicate OneStarted(s: State, t: State) {
    && |t.flights| == 1 && t.flights[0].id == s.nextId && t.flights[0].base == s.version
    && t.active == Some(s.nextId) && t.version == s.version && t.acknowledged == s.acknowledged
    && if t.pending.None? then t.phase == Saving && t.newest == Some(t.flights[0].document)
       else t.newest == t.pending && t.phase == Dirty
  }

  predicate Idle(s: State) {
    s.active.None? && s.flights == [] && (s.pending.Some? ==> s.newest == s.pending)
  }

  lemma {:induction false} BeganOne(s: State, script: seq<Call>)
    requires Idle(s) && s.pending.Some? && Gap(script, s.disposed).started.None?
    ensures var t, g := StartWith(s, script), Gap(script, s.disposed);
      OneStarted(s, t) && t.pending.Some? == g.pending && (!s.timer ==> t.timer == g.armed)
  {
    Began(s, script);
  }

  lemma {:induction false} StartsOne(s: State, cs: seq<Call>, n: nat)
    requires n <= |cs| && Idle(s) && ScanUpTo(ScanOf(s), cs, n).started.Some?
    requires Gap(ScanUpTo(ScanOf(s), cs, n).started.value, false).started.None?
    ensures OneStarted(s, PerformUpTo(s, cs, n))
    decreases cs, 0, n
  {
    if n > 0 {
      var before := PerformUpTo(s, cs, n - 1);
      if ScanUpTo(ScanOf(s), cs, n - 1).started.Some? {
        StartsOne(s, cs, n - 1);
        BusyCallStartsNothing(before, cs[n - 1], 0);
      } else {
        NothingStarts(s, cs, n - 1);
        CallStartsOne(before, cs[n - 1]);
      }
    }
  }

  lemma {:induction false} CallStartsOne(s: State, c: Call)
    requires Idle(s) && ScanCall(ScanOf(s), c).started.Some?
    requires Gap(ScanCall(ScanOf(s), c).started.value, false).started.None?
    ensures OneStarted(s, Perform(s, c))
    ensures Perform(s, c).timer <==> !c.Edit? && Gap(ScanCall(ScanOf(s), c).started.value, false).armed
    decreases c, 1, 0
  {
    match c
    case Edit(document, valid, during) =>
      var edited := s.(pending := Some(document), phase := Dirty, newest := Some(document));
      assert ScanOf(edited) == ScanOf(s).(pending := true);
      StartsOne(edited, during, |during|);
    case Save(during) => FlushIs(s, during); BeganOne(s.(timer := false), during);
    case Again(during) => FlushIs(s, during); BeganOne(s.(timer := false), during);
    case Stop =>
  }

  // ------------------------------------------------------------------ when a turn keeps saves serialized

  /** The invariant of the coordinator but for its timer. */
  predicate Sound(s: State, initial: int) {
    SingleFlight(s) && Held(s) == s.newest && VersionChain(initial, s.acknowledged, s.version) && PhaseTells(s)
  }

  /** The save a turn starts first: its script, whether the coordinator is disposed by then, and how
      many suspended calls resume after it. */
  datatype Start = Start(script: seq<Call>, stopped: bool, followers: nat)

  function FirstStart(s: State, t: Turn): Option<Start> {
    match t
    case Outer(c) =>
      var v := ScanCall(ScanOf(s), c);
      if s.active.None? && v.started.Some? then Some(Start(v.started.value, false, 0)) else None
    case Timer(during) =>
      if s.timer && s.active.None? && s.pending.Some? && !s.disposed then Some(Start(during, false, 0)) else None
    case Settled(k, outcome, landing, waking) =>
      if k >= |s.flights| then None
      else
        var pending := s.pending.Some? || !Accepted(s.flights[k], outcome);
        var v := BusyUpTo(Busy(pending, s.disposed, s.flights[k].waiters), landing, |landing|);
        if v.pending && v.joined > 0 then Some(Start(ScriptAt(waking, 0), v.stopped, v.joined - 1)) else None
  }

  /** A second save is started by a call from inside the first one, or by a suspended call that finds
      an edit made from inside it. */
  predicate Overlaps(s: State, t: Turn) {
    var start := FirstStart(s, t);
    start.Some? &&
    var g := Gap(start.value.script, start.value.stopped);
    g.started.Some? || (start.value.followers > 0 && g.pending)
  }

  lemma {:induction false} TouchedKeeps(s: State, t: State, initial: int)
    requires Sound(s, initial) && Touched(s, t)
    ensures Sound(t, initial)
  {
    hide VersionChain;
  }

  lemma {:induction false} StartKeeps(s: State, t: State, initial: int)
    requires Sound(s, initial) && s.active.None? && OneStarted(s, t)
    ensures Sound(t, initial)
  {
    hide VersionChain;
  }

  lemma {:induction false} OuterTurn(s: State, c: Call, initial: int)
    requires Sound(s, initial)
    ensures Overlaps(s, Outer(c)) ==> |Perform(s, c).flights| >= 2
    ensures !Overlaps(s, Outer(c)) ==> Sound(Perform(s, c), initial)
  {
    hide VersionChain, Perform;
    if s.active.Some? {
      BusyCallStartsNothing(s, c, 0);
      TouchedKeeps(s, Perform(s, c), initial);
    } else if ScanCall(ScanOf(s), c).started.None? {
      CallStartsNothing(s, c);
      TouchedKeeps(s, Perform(s, c), initial);
    } else if Overlaps(s, Outer(c)) {
      CallStartsSomething(s, c);
    } else {
      assert Idle(s);
      CallStartsOne(s, c);
      StartKeeps(s, Perform(s, c), initial);
    }
  }

  /** The state after a save has landed and its owner has let go, before suspended calls resume. */
  function LetGo(s: State, outcome: Outcome, landing: seq<Call>): State
    requires |s.flights| == 1
  {
    Release(LandWith(s, 0, outcome, landing).(flights := []), s.flights[0].id)
  }

  /** How the listeners' calls are read while the settling save is still the active one. */
  function Heard(s: State, outcome: Outcome, landing: seq<Call>): Busy
    requires |s.flights| == 1
  {
    BusyUpTo(Busy(s.pending.Some? || !Accepted(s.flights[0], outcome), s.disposed, s.flights[0].waiters), landing,
        |landing|)
  }

  lemma {:induction false} HeardRight(s: State, outcome: Outcome, landing: seq<Call>)
    requires SingleFlight(s) && |s.flights| == 1
    ensures var told := Announced(s, s.flights[0], outcome);
            var t, v := PerformAll(told, landing), Heard(s, outcome, landing);
      && Touched(told, t) && (t.timer ==> s.timer) && t.pending.Some? == v.pending && t.disposed == v.stopped
      && t.flights[0].waiters == v.joined
  {
    BusyStartsNothing(Announced(s, s.flights[0], outcome), landing, |landing|, s.flights[0].waiters);
  }

  /** Landing leaves the coordinator idle and sound, whatever the listeners call. */
  lemma {:induction false} LandingTurn(s: State, outcome: Outcome, landing: seq<Call>, initial: int)
    requires Sound(s, initial) && |s.flights| == 1
    ensures var v, landed, u := Heard(s, outcome, landing), LandWith(s, 0, outcome, landing),
        LetGo(s, outcome, landing);
      && |landed.flights| == 1 && landed.flights[0].waiters == v.joined
      && Sound(u, initial) && Idle(u) && u.pending.Some? == v.pending && u.disposed == v.stopped
          && (u.timer ==> s.timer)
  {
    HeardRight(s, outcome, landing);
    if Accepted(s.flights[0], outcome) {
      ChainExtends(initial, s.acknowledged, s.version,
          Acknowledged(s.flights[0].base, outcome.version, s.flights[0].document));
      AcceptedLanding(s, outcome, PerformAll(Announced(s, s.flights[0], outcome), landing), initial);
    } else {
      RefusedLanding(s, outcome, PerformAll(Announced(s, s.flights[0], outcome), landing), initial);
    }
    hide VersionChain, Heard, PerformAll, Sound;
  }

  lemma {:induction false} AcceptedLanding(s: State, outcome: Outcome, t: State, initial: int)
    requires Sound(s, initial) && |s.flights| == 1 && Accepted(s.flights[0], outcome)
    requires Touched(Announced(s, s.flights[0], outcome), t) && (t.timer ==> s.timer)
    requires var next := Acknowledged(s.flights[0].base, outcome.version, s.flights[0].document);
      VersionChain(initial, s.acknowledged + [next], outcome.version)
    ensures var u := (if t.pending.Some? then Schedule(t) else t).(flights := [], active := None);
      Sound(u, initial) && Idle(u) && (u.timer ==> s.timer)
  {
    hide VersionChain;
    assert t.active.Some?;
  }

  lemma {:induction false} RefusedLanding(s: State, outcome: Outcome, t: State, initial: int)
    requires Sound(s, initial) && |s.flights| == 1 && !Accepted(s.flights[0], outcome)
    requires Touched(Announced(s, s.flights[0], outcome), t) && (t.timer ==> s.timer)
    ensures var u := t.(flights := [], active := None);
      Sound(u, initial) && Idle(u) && (u.timer ==> s.timer)
  {
    hide VersionChain;
  }

  /** Suspended calls resume: the first starts a save, the others find nothing pending or a save that
      they do not wait for. */
  lemma {:induction false} Waking(s: State, n: nat, waking: seq<seq<Call>>)
    requires Idle(s)
    ensures var t, g := WakeWith(s, n, waking), Gap(ScriptAt(waking, 0), s.disposed);
      if n == 0 || s.pending.None? then t == s
      else if g.started.Some? || (n > 1 && g.pending) then |t.flights| >= 2
      else OneStarted(s, t) && t.pending.Some? == g.pending && (!s.timer ==> t.timer == g.armed)
  {
    if n > 0 && s.pending.Some? {
      var before, script := WakeWith(s, n - 1, waking), ScriptAt(waking, n - 1);
      assert WakeWith(s, n, waking) == ProceedWith(before, script);
      Waking(s, n - 1, waking);
      if n == 1 {
        Began(s, script);
        if Gap(script, s.disposed).started.None? {
          BeganOne(s, script);
        }
      }
    } else if n > 0 {
      Waking(s, n - 1, waking);
    }
  }

  lemma {:induction false} SettledIs(s: State, outcome: Outcome, landing: seq<Call>, waking: seq<seq<Call>>)
    requires |s.flights| == 1 && |LandWith(s, 0, outcome, landing).flights| == 1
    ensures NextTurn(s, Settled(0, outcome, landing, waking))
         == WakeWith(LetGo(s, outcome, landing), LandWith(s, 0, outcome, landing).flights[0].waiters, waking)
  {
    hide LandWith, WakeWith, Release, ProceedWith;
    assert Without(LandWith(s, 0, outcome, landing).flights, 0) == [];
  }

  lemma {:induction false} FirstStartIs(s: State, outcome: Outcome, landing: seq<Call>, waking: seq<seq<Call>>)
    requires |s.flights| == 1
    ensures FirstStart(s, Settled(0, outcome, landing, waking)) ==
      var v := Heard(s, outcome, landing);
      if v.pending && v.joined > 0 then Some(Start(ScriptAt(waking, 0), v.stopped, v.joined - 1)) else None
  {
    hide BusyUpTo, ScanCall;
  }

  lemma {:induction false} SettledTurn(s: State, outcome: Outcome, landing: seq<Call>, waking: seq<seq<Call>>,
      initial: int)
    requires Sound(s, initial) && |s.flights| == 1
    ensures var turn := Settled(0, outcome, landing, waking);
            var t, start := NextTurn(s, turn), FirstStart(s, turn);
      && (Overlaps(s, turn) ==> |t.flights| >= 2)
      && (!Overlaps(s, turn) ==> Sound(t, initial))
      && (!Overlaps(s, turn) && start.None? ==> (t.timer ==> s.timer) && t.active.None?)
      && (!Overlaps(s, turn) && start.Some? && !s.timer ==>
            t.active.Some? && t.timer == Gap(start.value.script, start.value.stopped).armed)
  {
    hide LandWith, LetGo, Heard, WakeWith, NextTurn, Gap, VersionChain, PerformAll, Sound, FirstStart;
    var turn := Settled(0, outcome, landing, waking);
    var u, v := LetGo(s, outcome, landing), Heard(s, outcome, landing);
    LandingTurn(s, outcome, landing, initial);
    SettledIs(s, outcome, landing, waking);
    FirstStartIs(s, outcome, landing, waking);
    Waking(u, v.joined, waking);
    if v.pending && v.joined > 0 && !Overlaps(s, turn) {
      StartKeeps(u, NextTurn(s, turn), initial);
    }
  }

  /** One whole turn, calls from inside included: saves stay serialized, and with them everything the
      coordinator promises but the timer clause, exactly when the turn does not overlap. */
  lemma {:induction false} TurnSerializesExactly(s: State, t: Turn, initial: int)
    requires Sound(s, initial)
    ensures SingleFlight(NextTurn(s, t)) <==> !Overlaps(s, t)
    ensures Sound(NextTurn(s, t), initial) <==> !Overlaps(s, t)
  {
    match t
    case Outer(c) => OuterTurn(s, c, initial);
    case Timer(during) =>
      if s.timer {
        var quiet := s.(timer := false);
        TouchedKeeps(s, quiet, initial);
        assert Perform(quiet, Save(during)) == FlushWith(quiet, during);
        OuterTurn(quiet, Save(during), initial);
      }
    case Settled(k, outcome, landing, waking) =>
      if k < |s.flights| {
        SettledTurn(s, outcome, landing, waking, initial);
      }
  }

  predicate SoundThroughout(s: State, ts: seq<Turn>, initial: int) {
    forall n | 0 <= n <= |ts| :: Sound(RunTurns(s, ts[..n]), initial)
  }

  predicate NeverOverlaps(s: State, ts: seq<Turn>) {
    forall n | 0 <= n < |ts| :: !Overlaps(RunTurns(s, ts[..n]), ts[n])
  }

  /** A run keeps saves serialized at every turn exactly when none of its turns overlaps. */
  lemma {:induction false} RunSerializesExactly(initial: nat, ts: seq<Turn>)
    ensures SoundThroughout(Initial(initial), ts, initial) <==> NeverOverlaps(Initial(initial), ts)
    ensures SoundThroughout(Initial(initial), ts, initial) ==> Sound(RunTurns(Initial(initial), ts), initial)
  {
    var s0 := Initial(initial);
    if ts == [] {
      assert ts[..0] == [] && Sound(s0, initial);
    } else {
      var last := |ts| - 1;
      RunSerializesExactly(initial, ts[..last]);
      SoundLast(s0, ts, initial);
      OverlapLast(s0, ts);
      hide NextTurn, Overlaps, Sound, SoundThroughout, NeverOverlaps;
      if Sound(RunTurns(s0, ts[..last]), initial) {
        TurnSerializesExactly(RunTurns(s0, ts[..last]), ts[last], initial);
      }
    }
  }

  lemma {:induction false} SoundLast(s: State, ts: seq<Turn>, initial: int)
    requires ts != []
    ensures SoundThroughout(s, ts, initial) <==>
            SoundThroughout(s, ts[..|ts| - 1], initial) && Sound(RunTurns(s, ts), initial)
  {
    hide RunTurns, Sound;
    var before := ts[..|ts| - 1];
    assert ts[..|ts|] == ts;
    forall n | 0 <= n < |ts| ensures ts[..n] == before[..n] {
    }
  }

  lemma {:induction false} OverlapLast(s: State, ts: seq<Turn>)
    requires ts != []
    ensures var last := |ts| - 1;
      NeverOverlaps(s, ts) <==> NeverOverlaps(s, ts[..last]) && !Overlaps(RunTurns(s, ts[..last]), ts[last])
  {
    hide RunTurns, Overlaps;
    var last := |ts| - 1;
    var before := ts[..last];
    forall n | 0 <= n < last ensures ts[..n] == before[..n] && ts[n] == before[n] {
    }
    if NeverOverlaps(s, ts) {
      forall n | 0 <= n < last ensures !Overlaps(RunTurns(s, before[..n]), before[n]) {
        assert !Overlaps(RunTurns(s, ts[..n]), ts[n]);
      }
    }
    if NeverOverlaps(s, before) {
      forall n | 0 <= n < last ensures !Overlaps(RunTurns(s, ts[..n]), ts[n]) {
        assert !Overlaps(RunTurns(s, before[..n]), before[n]);
      }
    }
  }

  // ------------------------------------------------------------------ when the timer is armed late

  /** The timer ends up armed during a save, or on a disposed coordinator: an edit made from inside
      found no `activeSave`, or the coordinator was disposed from inside an edit. */
  predicate ArmsLate(s: State, t: Turn) {
    var start := FirstStart(s, t);
    if start.Some? then Gap(start.value.script, start.value.stopped).armed && !(t.Outer? && t.call.Edit?)
    else t.Outer? && s.active.None? && var v := ScanCall(ScanOf(s), t.call); v.armed && v.stopped
  }

  /** The whole invariant, the timer clause included, survives a turn exactly when the turn neither
      overlaps nor arms late. */
  lemma {:induction false} TurnKeepsExactly(s: State, t: Turn, initial: int)
    requires Inv(s, initial)
    ensures Inv(NextTurn(s, t), initial) <==> !Overlaps(s, t) && !ArmsLate(s, t)
  {
    TurnSerializesExactly(s, t, initial);
    if !Overlaps(s, t) {
      match t
      case Outer(c) => OuterTimer(s, c, initial);
      case Timer(during) =>
        if s.timer {
          var quiet := s.(timer := false);
          assert Perform(quiet, Save(during)) == FlushWith(quiet, during);
          OuterTimer(quiet, Save(during), initial);
        }
      case Settled(k, outcome, landing, waking) =>
        if k < |s.flights| {
          SettledTurn(s, outcome, landing, waking, initial);
        }
    }
  }

  predicate TimerOk(s: State) {
    s.timer ==> s.active.None? && s.pending.Some? && !s.disposed
  }

  lemma {:induction false} OuterTimer(s: State, c: Call, initial: int)
    requires Inv(s, initial) && !Overlaps(s, Outer(c))
    ensures TimerOk(Perform(s, c)) <==> !ArmsLate(s, Outer(c))
  {
    hide VersionChain, Perform;
    if s.active.Some? {
      BusyCallStartsNothing(s, c, 0);
    } else if ScanCall(ScanOf(s), c).started.None? {
      CallStartsNothing(s, c);
      StaysPending(ScanOf(s), c);
    } else {
      CallStartsOne(s, c);
    }
  }

  /** An armed timer always has something pending while nothing starts. */
  lemma {:induction false} StaysPending(v: Scan, c: Call)
    requires v.armed ==> v.pending
    ensures ScanCall(v, c).armed ==> ScanCall(v, c).pending
    ensures v.pending ==> ScanCall(v, c).pending
    decreases c, 1, 0
  {
    if c.Edit? && !v.stopped && c.valid {
      AllStayPending(v.(pending := true), c.during, |c.during|);
    }
  }

  lemma {:induction false} AllStayPending(v: Scan, cs: seq<Call>, n: nat)
    requires n <= |cs| && (v.armed ==> v.pending)
    ensures ScanUpTo(v, cs, n).armed ==> ScanUpTo(v, cs, n).pending
    ensures v.pending ==> ScanUpTo(v, cs, n).pending
    decreases cs, 0, n
  {
    if n > 0 {
      AllStayPending(v, cs, n - 1);
      StaysPending(ScanUpTo(v, cs, n - 1), cs[n - 1]);
    }
  }

  // ------------------------------------------------------------------ when a turn leaves autosave stalled

  /** Only an effective edit makes something pending, and only disposing stops; where we start from has
      no say in it. */
  lemma {:induction false} EditsApart(v: Busy, cs: seq<Call>, n: nat)
    requires n <= |cs|
    ensures var a, z := BusyUpTo(v, cs, n), BusyUpTo(Busy(false, v.stopped, 0), cs, n);
      a.stopped == z.stopped && a.pending == (v.pending || z.pending)
    decreases cs, 0, n
  {
    if n > 0 {
      EditsApart(v, cs, n - 1);
      CallEditsApart(BusyUpTo(v, cs, n - 1), cs[n - 1]);
      CallEditsApart(BusyUpTo(Busy(false, v.stopped, 0), cs, n - 1), cs[n - 1]);
    }
  }

  lemma {:induction false} CallEditsApart(v: Busy, c: Call)
    ensures var a, z := BusyCall(v, c), BusyCall(Busy(false, v.stopped, 0), c);
      a.stopped == z.stopped && a.pending == (v.pending || z.pending)
    decreases c, 1, 0
  {
    if c.Edit? {
      EditsApart(v.(pending := true), c.during, |c.during|);
      EditsApart(Busy(true, v.stopped, 0), c.during, |c.during|);
    }
  }

  /** While a save is active, an effective edit is what makes the phase DIRTY, and it disarms the timer. */
  lemma {:induction false} EditShows(s: State, cs: seq<Call>, n: nat)
    requires n <= |cs| && s.active.Some?
    ensures var t, edited := PerformUpTo(s, cs, n), BusyUpTo(Busy(false, s.disposed, 0), cs, n).pending;
      t.phase == (if edited then Dirty else s.phase) && (edited ==> !t.timer)
    decreases cs, 0, n
  {
    if n > 0 {
      var t, v := PerformUpTo(s, cs, n - 1), BusyUpTo(Busy(false, s.disposed, 0), cs, n - 1);
      EditShows(s, cs, n - 1);
      BusyStartsNothing(s, cs, n - 1, 0);
      EditsApart(Busy(s.pending.Some?, s.disposed, 0), cs, n - 1);
      CallEditShows(t, cs[n - 1]);
      CallEditsApart(v, cs[n - 1]);
      BusyCallStartsNothing(t, cs[n - 1], 0);
    }
  }

  lemma {:induction false} CallEditShows(s: State, c: Call)
    requires s.active.Some?
    ensures var t, edited := Perform(s, c), BusyCall(Busy(false, s.disposed, 0), c).pending;
      t.phase == (if edited then Dirty else s.phase) && (edited ==> !t.timer)
    decreases c, 1, 0
  {
    match c
    case Edit(document, valid, during) =>
      if !s.disposed && valid {
        var edited := s.(pending := Some(document), phase := Dirty, newest := Some(document));
        EditShows(edited, during, |during|);
        BusyStartsNothing(edited, during, |during|, 0);
        EditsApart(Busy(true, s.disposed, 0), during, |during|);
      }
    case Save(during) => FlushIs(s, during);
    case Again(during) => FlushIs(s, during);
    case Stop =>
  }

  /** Listeners edit when they hear how a save has settled. */
  predicate EditedAtLanding(s: State, landing: seq<Call>) {
    BusyUpTo(Busy(false, s.disposed, 0), landing, |landing|).pending
  }

  /** A settling save leaves autosave stalled: nobody waits for it, and either it succeeds and the
      document changed meanwhile, or listeners edit when they hear of it, however it settles. */
  predicate SettleStalls(s: State, outcome: Outcome, landing: seq<Call>)
    requires |s.flights| == 1
  {
    && Heard(s, outcome, landing).joined == 0
    && ((Accepted(s.flights[0], outcome) && s.pending.Some?) || EditedAtLanding(s, landing))
  }

  lemma {:induction false} LetGoShows(s: State, outcome: Outcome, landing: seq<Call>)
    requires SingleFlight(s) && |s.flights| == 1
    ensures var u := LetGo(s, outcome, landing);
      if EditedAtLanding(s, landing) then u.phase == Dirty && !u.timer
      else if Accepted(s.flights[0], outcome) then
        u.phase == (if s.pending.Some? then Dirty else Saved) && (s.pending.Some? ==> !u.timer)
      else u.phase == if outcome.Conflicted? then Conflict else Error
  {
    var told := Announced(s, s.flights[0], outcome);
    HeardRight(s, outcome, landing);
    EditShows(told, landing, |landing|);
    hide PerformUpTo, BusyUpTo, Heard;
  }

  /** A settling turn, calls from inside included, leaves autosave stalled exactly then. */
  lemma {:induction false} SettleStallsExactly(s: State, outcome: Outcome, landing: seq<Call>, waking: seq<seq<Call>>,
      initial: int)
    requires Sound(s, initial) && |s.flights| == 1
    ensures Stalled(NextTurn(s, Settled(0, outcome, landing, waking))) <==> SettleStalls(s, outcome, landing)
  {
    LandingTurn(s, outcome, landing, initial);
    SettledIs(s, outcome, landing, waking);
    LetGoShows(s, outcome, landing);
    Waking(LetGo(s, outcome, landing), Heard(s, outcome, landing).joined, waking);
    hide LandWith, LetGo, Heard, WakeWith, NextTurn, Gap, VersionChain, BusyUpTo;
  }

  /** A call while nothing settles does not stall a live coordinator. */
  lemma {:induction false} OuterNeverStalls(s: State, c: Call, initial: int)
    requires Sound(s, initial) && !Stalled(s) && !Perform(s, c).disposed
    ensures !Stalled(Perform(s, c))
  {
    hide VersionChain;
    if s.active.Some? {
      BusyCallStartsNothing(s, c, 0);
    } else if ScanCall(ScanOf(s), c).started.Some? {
      CallStartsSomething(s, c);
    } else {
      CallStartsNothing(s, c);
      if c.Edit? && !s.disposed && c.valid {
        EditArms(s, c);
      }
    }
  }

  /** An edit that starts no save ends with the timer armed. */
  lemma {:induction false} EditArms(s: State, c: Call)
    requires c.Edit? && s.active.None? && !s.disposed && c.valid && ScanCall(ScanOf(s), c).started.None?
    ensures Perform(s, c).timer
  {
    var edited := s.(pending := Some(c.document), phase := Dirty, newest := Some(c.document));
    assert ScanOf(edited) == ScanOf(s).(pending := true);
    NothingStarts(edited, c.during, |c.during|);
  }

  predicate TurnStalls(s: State, t: Turn) {
    t.Settled? && t.k == 0 && |s.flights| == 1 && SettleStalls(s, t.outcome, t.landing)
  }

  /** A turn stalls a coordinator that stays live exactly when it is such a settling turn. */
  lemma {:induction false} TurnStallsExactly(s: State, t: Turn, initial: int)
    requires Sound(s, initial) && !Stalled(s) && !NextTurn(s, t).disposed
    ensures Stalled(NextTurn(s, t)) <==> TurnStalls(s, t)
  {
    match t
    case Outer(c) => OuterNeverStalls(s, c, initial);
    case Timer(during) =>
      if s.timer {
        FlushIs(s.(timer := false), during);
        if s.active.Some? {
          SuspendKeeps(s.flights, s.active.value);
        }
      }
    case Settled(k, outcome, landing, waking) =>
      if k < |s.flights| {
        SettleStallsExactly(s, outcome, landing, waking, initial);
      }
  }

  /** Without calls from inside: the save succeeds, the document changed meanwhile and nobody waits. */
  lemma {:induction false} QuietSettleStalls(s: State, outcome: Outcome, initial: int)
    requires Inv(s, initial) && |s.flights| == 1
    ensures Stalled(Settle(s, 0, outcome)) <==>
            Accepted(s.flights[0], outcome) && s.pending.Some? && s.flights[0].waiters == 0
  {
    SettleStallsExactly(s, outcome, [], [], initial);
    QuietSettle(s, 0, outcome);
    hide NextTurn, Settle;
  }

  /** A listener that edits when it hears that a save has settled stalls autosave, even after a failure;
      one that flushes then keeps it going. */
  lemma {:induction false} ListenerStalls(s: State, outcome: Outcome, document: Document, initial: int)
    requires Sound(s, initial) && |s.flights| == 1 && s.flights[0].waiters == 0 && !s.disposed
    ensures Stalled(NextTurn(s, Settled(0, outcome, [Edit(document, true, [])], [])))
    ensures !Stalled(NextTurn(s, Settled(0, outcome, [Save([])], [])))
  {
    var busy := Busy(s.pending.Some? || !Accepted(s.flights[0], outcome), false, 0);
    BusyOne(busy, Edit(document, true, []));
    BusyOne(Busy(false, false, 0), Edit(document, true, []));
    BusyOne(busy, Save([]));
    assert BusyUpTo(busy.(pending := true), [], 0) == busy.(pending := true);
    assert BusyUpTo(Busy(true, false, 0), [], 0) == Busy(true, false, 0);
    SettleStallsExactly(s, outcome, [Edit(document, true, [])], [], initial);
    SettleStallsExactly(s, outcome, [Save([])], [], initial);
    hide NextTurn, Stalled;
  }

  lemma {:induction false} BusyOne(v: Busy, c: Call)
    ensures BusyUpTo(v, [c], 1) == BusyCall(v, c)
  {
    assert BusyUpTo(v, [c], 0) == v;
  }

  /** A run that stalls after a save has failed: edit, save, failure, an edit by the listener that is told. */
  lemma {:induction false} StallAfterFailure(first: Document, second: Document)
    ensures var s := RunTurns(Initial(0),
        [Outer(Edit(first, true, [])), Outer(Save([])), Settled(0, Failed, [Edit(second, true, [])], [])]);
      Stalled(s)
  {
    hide RunTurns, NextTurn, Stalled, Run;
    var edit, flush := Outer(Edit(first, true, [])), Outer(Save([]));
    var fail := Settled(0, Failed, [Edit(second, true, [])], []);
    ThreeTurns(Initial(0), edit, flush, fail);
    QuietTurns(Initial(0), DoUpdate(first, true));
    var s1 := Update(Initial(0), first, true);
    QuietTurns(s1, DoFlush);
    var s2 := Flush(s1);
    assert s2 == State(None, false, Some(0), false, Saving, 0, [Flight(0, first, 0, 0)], 1, Some(first), []);
    ListenerStalls(s2, Failed, second, 0);
  }

  lemma {:induction false} ThreeTurns(s: State, a: Turn, b: Turn, c: Turn)
    ensures RunTurns(s, [a, b, c]) == NextTurn(NextTurn(NextTurn(s, a), b), c)
  {
    hide NextTurn;
    assert [a][..0] == [] && RunTurns(s, []) == s;
    assert [a, b][..1] == [a] && RunTurns(s, [a]) == NextTurn(s, a);
    assert [a, b, c][..2] == [a, b] && RunTurns(s, [a, b]) == NextTurn(NextTurn(s, a), b);
  }

  /** An edit or a flush ends the stall, whatever is called from inside. */
  lemma {:induction false} StallEnds(s: State, c: Call, initial: int)
    requires Sound(s, initial) && Stalled(s) && !s.disposed && (c.Save? || c.Again? || (c.Edit? && c.valid))
    ensures !Stalled(Perform(s, c))
    ensures !c.Edit? && !Overlaps(s, Outer(c)) ==>
              Perform(s, c).flights == [Flight(s.nextId, s.newest.value, s.version, 0)]
  {
    hide VersionChain;
    if c.Save? || c.Again? {
      FlushIs(s, c.during);
      Began(s.(timer := false), c.during);
    }
    if ScanCall(ScanOf(s), c).started.Some? {
      CallStartsSomething(s, c);
    } else {
      EditArms(s, c);
    }
  }

  /** After a failure retry sends the newest content, whatever is called from inside it. */
  lemma {:induction false} RetrySendsNewest(s: State, during: seq<Call>, initial: int)
    requires Sound(s, initial) && s.phase in [Conflict, Error] && !s.disposed && !Overlaps(s, Outer(Again(during)))
    ensures Perform(s, Again(during)).flights == [Flight(s.nextId, s.newest.value, s.version, 0)]
  {
    hide VersionChain;
    FlushIs(s, during);
    Began(s.(timer := false), during);
  }

  // ------------------------------------------------------------------ runs without calls from inside

  function QuietlyAll(es: seq<Event>): seq<Turn> {
    seq(|es|, i requires 0 <= i < |es| => Quietly(es[i]))
  }

  lemma {:induction false} QuietlyLast(es: seq<Event>)
    requires es != []
    ensures var last, ts := |es| - 1, QuietlyAll(es);
      |ts| == last + 1 && ts[..last] == QuietlyAll(es[..last]) && ts[last] == Quietly(es[last])
  {
    hide Quietly;
  }

  /** They are the runs of the simple coordinator, and none of their turns overlaps. */
  lemma {:induction false} QuietRuns(initial: nat, es: seq<Event>)
    ensures RunTurns(Initial(initial), QuietlyAll(es)) == Run(Initial(initial), es)
    ensures NeverOverlaps(Initial(initial), QuietlyAll(es))
  {
    if es != [] {
      var before := es[..|es| - 1];
      QuietlyLast(es);
      hide NextTurn, Next, Overlaps, NeverOverlaps, Quietly, QuietlyAll, Initial;
      QuietRuns(initial, before);
      QuietTurns(Run(Initial(initial), before), es[|es| - 1]);
      QuietTurnsAreSafe(Run(Initial(initial), before), es[|es| - 1], initial);
      OverlapLast(Initial(initial), QuietlyAll(es));
    }
  }

  /** What holds after every such run: one save at most, a truthful phase, an armed timer only where it can
      help, versions that advance from one acknowledged save to the next, and the newest document never
      lost. */
  lemma {:induction false} RunKeeps(initial: nat, es: seq<Event>)
    ensures Inv(Run(Initial(initial), es), initial)
  {
    if es != [] {
      var s, e := Run(Initial(initial), es[..|es| - 1]), es[|es| - 1];
      RunKeeps(initial, es[..|es| - 1]);
      QuietTurns(s, e);
      QuietTurnsAreSafe(s, e, initial);
      TurnKeepsExactly(s, Quietly(e), initial);
      hide Next, NextTurn, Inv, Overlaps, ArmsLate, Quietly;
    }
  }

  // ------------------------------------------------------------------ examples of both

  /** Turns without calls from inside do neither. */
  lemma {:induction false} QuietTurnsAreSafe(s: State, e: Event, initial: int)
    ensures !Overlaps(s, Quietly(e))
    ensures Inv(s, initial) ==> !ArmsLate(s, Quietly(e))
  {
    assert Gap([], false) == Scan(false, false, false, None) && Gap([], true) == Scan(false, true, false, None);
    if e.DoUpdate? {
      var v := ScanOf(s).(pending := true);
      assert ScanUpTo(v, [], 0) == v;
      assert ScanCall(ScanOf(s), Edit(e.document, e.valid, [])).started.None?;
    }
  }

  /** What two calls of one list amount to. */
  lemma {:induction false} ScanTwo(v: Scan, a: Call, b: Call)
    ensures ScanUpTo(v, [a], 1) == ScanCall(v, a)
    ensures ScanUpTo(v, [a, b], 2) == ScanCall(ScanCall(v, a), b)
  {
    assert ScanUpTo(v, [a], 0) == v && ScanUpTo(v, [a, b], 0) == v;
    assert ScanUpTo(v, [a, b], 1) == ScanCall(v, a);
  }

  lemma {:induction false} ScanEdit(v: Scan, document: Document)
    requires v.started.None? && !v.stopped
    ensures ScanCall(v, Edit(document, true, [])) == v.(pending := true, armed := true)
  {
    assert ScanUpTo(v.(pending := true), [], 0) == v.(pending := true);
  }

  /** An edit and a flush from inside a save that is starting: `activeSave` is not assigned yet. */
  lemma {:induction false} OverlapFromInside(s: State, document: Document)
    requires s.active.None? && s.pending.Some? && !s.disposed
    ensures Overlaps(s, Outer(Save([Edit(document, true, []), Save([])])))
    ensures !Overlaps(s, Outer(Save([Edit(document, true, [])])))
        && ArmsLate(s, Outer(Save([Edit(document, true, [])])))
  {
    var free := Scan(false, false, false, None);
    ScanTwo(free, Edit(document, true, []), Save([]));
    ScanEdit(free, document);
  }

  /** An edit from inside the save that the first of two suspended calls starts. */
  lemma {:induction false} OverlapOfWaiters(s: State, document: Document)
    requires |s.flights| == 1 && s.flights[0].waiters >= 2 && !s.disposed
    ensures Overlaps(s, Settled(0, Failed, [], [[Edit(document, true, [])]]))
  {
    var free := Scan(false, false, false, None);
    ScanTwo(free, Edit(document, true, []), Stop);
    ScanEdit(free, document);
    var v := Busy(true, false, s.flights[0].waiters);
    assert BusyUpTo(v, [], 0) == v;
  }

  /** Disposing from inside an edit: `schedule` does not ask. */
  lemma {:induction false} ArmedAfterDispose(s: State, document: Document)
    requires s.active.None? && !s.disposed
    ensures !Overlaps(s, Outer(Edit(document, true, [Stop]))) && ArmsLate(s, Outer(Edit(document, true, [Stop])))
  {
    var v := ScanOf(s).(pending := true);
    ScanTwo(v, Stop, Stop);
    assert ScanCall(v, Stop) == v.(stopped := true, armed := false);
    assert ScanCall(ScanOf(s), Edit(document, true, [Stop])) == v.(stopped := true, armed := true);
  }

  /** A whole run with two saves in flight on one base version and no suspended call at all. */
  lemma {:induction false} OverlapReachable(first: Document, second: Document)
    ensures var t := RunTurns(Initial(0), [Outer(Edit(first, true, [])),
        Outer(Save([Edit(second, true, []), Save([])]))]);
      t.flights == [Flight(0, first, 0, 0), Flight(1, second, 0, 0)]
  {
    var edit, flush := Outer(Edit(first, true, [])), Outer(Save([Edit(second, true, []), Save([])]));
    assert [edit][..0] == [] && [edit, flush][..1] == [edit] && RunTurns(Initial(0), []) == Initial(0);
    var s := RunTurns(Initial(0), [edit]);
    QuietTurns(Initial(0), DoUpdate(first, true));
    assert s == NextTurn(Initial(0), edit) == Update(Initial(0), first, true);
    FlushIs(s, [Edit(second, true, []), Save([])]);
    var mid := Captured(s.(timer := false));
    QuietTurns(mid, DoUpdate(second, true));
    var edited := Update(mid, second, true);
    QuietTurns(edited, DoFlush);
    TwoCalls(mid, Edit(second, true, []), Save([]));
    assert RunTurns(Initial(0), [edit, flush]) == Perform(s, Save([Edit(second, true, []), Save([])]));
  }

  lemma {:induction false} TwoCalls(s: State, a: Call, b: Call)
    ensures PerformAll(s, [a, b]) == Perform(Perform(s, a), b)
  {
    assert PerformUpTo(s, [a, b], 0) == s;
    assert PerformUpTo(s, [a, b], 1) == Perform(s, a);
  }

  // ------------------------------------------------------------------ the coordinator

  class EditorAutosaveCoordinator {
    var pendingDocument: Option<Document>
    var timer: bool
    var activeSave: Option<nat>
    var disposed: bool
    var phase: Phase
    var version: int
    var flights: seq<Flight>
    var nextId: nat
    ghost var newest: Option<Document>
    ghost var acknowledged: seq<Acknowledged>

    ghost function View(): State
      reads this
    {
      State(pendingDocument, timer, activeSave, disposed, phase, version, flights, nextId, newest, acknowledged)
    }

    constructor (initialVersion: nat)
      ensures View() == Initial(initialVersion)
    {
      pendingDocument, timer, activeSave, disposed := None, false, None, false;
      phase, version, flights, nextId := Idle, initialVersion, [], 0;
      newest, acknowledged := None, [];
    }

    method ScheduleTimer()
      modifies this`timer
      ensures View() == Schedule(old(View()))
    {
      timer := false;
      if activeSave.Some? {
        return;
      }
      timer := true;
    }

    /** Listeners and callbacks make their calls, in order. */
    method RunInside(calls: seq<Call>)
      modifies this
      ensures View() == PerformAll(old(View()), calls)
      decreases calls, 1
    {
      ghost var start := View();
      for n := 0 to |calls|
        invariant View() == PerformUpTo(start, calls, n)
      {
        var c := calls[n];
        ghost var before := View();
        match c {
          case Edit(document, valid, during) =>
            var _ := UpdateDocument(document, valid, during);
          case Save(during) =>
            var _ := FlushNow(during);
          case Again(during) =>
            var _ := RetryNow(during);
          case Stop =>
            DisposeNow();
        }
        assert View() == Perform(before, c);
      }
    }

    /** `thrown` is set where the source throws. */
    method UpdateDocument(document: Document, valid: bool, during: seq<Call>) returns (thrown: bool)
      modifies this
      ensures View() == Perform(old(View()), Edit(document, valid, during))
      ensures thrown <==> old(disposed) || !valid
      decreases during, 5
    {
      if disposed || !valid {
        return true;
      }
      pendingDocument := Some(document);
      newest := Some(document);
      phase := Dirty;
      RunInside(during);
      ScheduleTimer();
      thrown := false;
    }

    /** `runSave` up to its await, with the calls made from inside it, and only then `activeSave`. */
    method RunSave(during: seq<Call>)
      requires pendingDocument.Some?
      modifies this
      ensures View() == StartWith(old(View()), during)
      decreases during, 2
    {
      var document := pendingDocument.value;
      pendingDocument := None;
      var baseVersion := version;
      phase := Saving;
      var save := nextId;
      nextId := nextId + 1;
      flights := flights + [Flight(save, document, baseVersion, 0)];
      RunInside(during);
      activeSave := Some(save);
    }

    /** The code of `flush` after its first await. */
    method ProceedFlush(during: seq<Call>)
      modifies this
      ensures View() == ProceedWith(old(View()), during)
      decreases during, 3
    {
      if pendingDocument.None? {
        return;
      }
      RunSave(during);
    }

    method FlushNow(during: seq<Call>) returns (thrown: bool)
      modifies this
      ensures View() == Perform(old(View()), Save(during))
      ensures View() == FlushWith(old(View()), during)
      ensures thrown == old(disposed)
      decreases during, 4
    {
      if disposed {
        return true;
      }
      timer := false;
      if activeSave.Some? {
        flights := Suspend(flights, activeSave.value);
        return false;
      }
      ProceedFlush(during);
      thrown := false;
    }

    method RetryNow(during: seq<Call>) returns (thrown: bool)
      modifies this
      ensures View() == Perform(old(View()), Again(during))
      ensures thrown <==> old(disposed) && old(pendingDocument).Some?
      decreases during, 5
    {
      if pendingDocument.None? {
        return false;
      }
      thrown := FlushNow(during);
    }

    method OnTimer(during: seq<Call>)
      requires timer
      modifies this
      ensures View() == NextTurn(old(View()), Timer(during))
    {
      timer := false;
      var _ := FlushNow(during);
    }

    method DisposeNow()
      modifies this
      ensures View() == Perform(old(View()), Stop)
    {
      disposed := true;
      timer := false;
    }

    /** The rest of `runSave` when its save settles. */
    method LandSave(k: nat, outcome: Outcome, landing: seq<Call>)
      requires k < |flights|
      modifies this
      ensures View() == LandWith(old(View()), k, outcome, landing)
    {
      var flight := flights[k];
      if outcome.Stored? && outcome.version > flight.base {
        phase := if pendingDocument.Some? then Dirty else Saved;
        version := outcome.version;
        acknowledged := acknowledged + [Acknowledged(flight.base, outcome.version, flight.document)];
        RunInside(landing);
        if pendingDocument.Some? {
          ScheduleTimer();
        }
      } else {
        if pendingDocument.None? {
          pendingDocument := Some(flight.document);
        }
        phase := if outcome.Conflicted? then Conflict else Error;
        RunInside(landing);
      }
    }

    /** A save settles: the rest of `runSave`, the owner's `finally`, then the suspended calls. */
    method SettleSave(k: nat, outcome: Outcome, landing: seq<Call>, waking: seq<seq<Call>>)
      requires k < |flights|
      modifies this
      ensures View() == NextTurn(old(View()), Settled(k, outcome, landing, waking))
    {
      var save := flights[k].id;
      LandSave(k, outcome, landing);
      hide LandWith;
      var waiters := flights[k].waiters;
      flights := flights[..k] + flights[k + 1..];
      if activeSave == Some(save) {
        activeSave := None;
      }
      ghost var released := View();
      for n := 0 to waiters
        invariant View() == WakeWith(released, n, waking)
      {
        ProceedFlush(if n < |waking| then waking[n] else []);
      }
    }
  }
}
