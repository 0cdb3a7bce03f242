/** What one call and one reply do to the coordinator, field by field. */
module AutosaveSteps {
  import opened Options
  import opened Autosave
  import opened AutosaveCalls

  /** An edit is refused once disposed, and where the document is not valid; else it is what is unsaved, and the
      timer runs unless a save is under way. */
  lemma {:induction false} EditPlainly(s: State, document: Document, valid: bool)
    ensures var t := Perform(s, Edit(document, valid, []));
      if s.disposed || !valid then t == s
      else
        && t.pending == t.newest == Some(document) && t.phase == Dirty && t.timer == s.active.None?
        && t == s.(pending := t.pending, newest := t.newest, phase := t.phase, timer := t.timer)
  {
    QuietTurns(s, DoUpdate(document, valid));
  }

  /** A flush stops the timer.  With a save under way it waits for it; with something unsaved it sends that, on
      the version known now; otherwise it does no more.  Once disposed it does nothing. */
  lemma {:induction false} FlushPlainly(s: State)
    ensures var t := Perform(s, Save([]));
      if s.disposed then t == s
      else if s.active.Some? then
        && t == s.(timer := false, flights := t.flights) && |t.flights| == |s.flights|
        && forall i | 0 <= i < |s.flights| ::
             t.flights[i] == s.flights[i].(waiters := s.flights[i].waiters
                                             + if s.flights[i].id == s.active.value then 1 else 0)
      else if s.pending.None? then t == s.(timer := false)
      else
        && t.pending.None? && !t.timer && t.phase == Saving && t.active == Some(s.nextId) && t.nextId == s.nextId + 1
        && t.flights == s.flights + [Flight(s.nextId, s.pending.value, s.version, 0)]
        && t == s.(pending := None, timer := false, phase := Saving, active := t.active, nextId := t.nextId,
                   flights := t.flights)
  {
    QuietTurns(s, DoFlush);
    if s.active.Some? {
      SuspendKeeps(s.flights, s.active.value);
    }
  }

  /** The timer is a flush where it is armed, a retry one where something is unsaved; disposing disarms the timer
      and is final. */
  lemma {:induction false} OthersPlainly(s: State, during: seq<Call>)
    ensures NextTurn(s, Timer(during)) == if s.timer then Perform(s.(timer := false), Save(during)) else s
    ensures Perform(s, Again(during)) == if s.pending.Some? then Perform(s, Save(during)) else s
    ensures Perform(s, Stop) == s.(disposed := true, timer := false)
  {
  }

  /** A reply to a save nobody waits for.  A larger version than the one it was based on is acknowledged: saved,
      or still dirty where there has been another edit, and then the timer runs unless a save still counts as
      active.  Any other answer leaves the version alone and something unsaved, the newer document where there is
      one: a conflict where the store says so, else an error.  Only the active save ends the activity. */
  lemma {:induction false} ReplyPlainly(s: State, k: nat, outcome: Outcome)
    requires k < |s.flights| && s.flights[k].waiters == 0
    ensures var t, flight := NextTurn(s, Settled(k, outcome, [], [])), s.flights[k];
      && t.flights == s.flights[..k] + s.flights[k + 1..]
          && t.active == (if s.active == Some(flight.id) then None else s.active)
      && t.disposed == s.disposed && t.newest == s.newest && t.nextId == s.nextId
      && (if outcome.Stored? && outcome.version > flight.base then
            && t.version == outcome.version && t.pending == s.pending
            && t.acknowledged == s.acknowledged + [Acknowledged(flight.base, outcome.version, flight.document)]
            && t.phase == (if s.pending.Some? then Dirty else Saved)
            && t.timer == (if s.pending.Some? then s.active.None? else s.timer)
          else
            && t.version == s.version && t.acknowledged == s.acknowledged && t.timer == s.timer
            && t.pending == (if s.pending.Some? then s.pending else Some(flight.document))
            && t.phase == (if outcome.Conflicted? then Conflict else Error))
  {
    QuietTurns(s, DoSettle(k, outcome));
  }
}
