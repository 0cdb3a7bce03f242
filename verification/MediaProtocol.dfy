/** Any number of processing attempts on one media row
    (apps/worker/src/media-processing.processor.ts), interleaved store call by store call with each
    other and with writes of the rest of the system. */
module MediaProtocol {
  import opened Options
  import opened MediaStore
  import opened Utf16

  datatype Outcome = Duplicate | Quarantine | Processed | Threw

  /** Where an attempt stands: the store, scanner or file call it makes next. */
  datatype Pc =
    | Start | Claim | Recheck | Scan | QuarantineUnscanned(reason: string) | QuarantineInfected(threat: string)
      | Resume | Transform
    | Commit(result: Result) | Diagnose(reason: string) | MarkFail(reason: string) | Done(outcome: Outcome)

  /** `began` is the status the attempt first read, `clean` that its own scan came back clean,
      `lost` that it lost the claim, `writes` how many row writes it has issued. */
  datatype Attempt = Attempt(job: Job, pc: Pc, began: Option<Status>, clean: bool, lost: bool, writes: nat)

  /** How a call ends: normally, with an error and no effect, or with an error although the effect
      took place (the reply was lost). */
  datatype Reply = Returns | Throws(reason: string) | LosesReply(reason: string) | ScansClean
      | ScansInfected(threat: string) | Transforms(result: Result)

  datatype Event =
    | Begin(job: Job)
    | Step(i: nat, reply: Reply)
    | Elsewhere(status: Option<Status>, deleted: bool)

  /** One committed transaction. */
  datatype Committed = Committed(attempt: nat, job: Job, result: Result)

  /** The row, the attempts and what has happened so far: the commits in order, how often the rest of
      the system took the row out of a terminal status, the effective claims and the entries into
      FAILED. */
  datatype System = System(row: Row, attempts: seq<Attempt>, commits: seq<Committed>, revivals: nat, claims: nat,
      failures: nat)

  // ------------------------------------------------------------------ one step of one attempt

  /** After the claim question is settled. */
  function AfterClaim(a: Attempt): Attempt {
    if a.job.scanRequired then a.(pc := Scan) else AfterScan(a)
  }

  function AfterScan(a: Attempt): Attempt {
    a.(pc := if a.began == Some(Quarantined) then Resume else Transform)
  }

  predicate Effective(reply: Reply) { !reply.Throws? }

  /** The text of the error a call ends with. */
  function Reason(reply: Reply): string {
    match reply
    case Throws(reason) => reason
    case LosesReply(reason) => reason
    case _ => "Unknown error"
  }

  const NOT_FOUND := "Media record was not found."

  /** The attempt's control flow around each call. */
  function NextAttempt(a: Attempt, row: Row, reply: Reply): Attempt {
    match a.pc
    case Start =>
      if !reply.Returns? then a.(pc := Done(Threw))
      else
        var b := a.(began := row.status);
        if IsTerminal(row.status) then b.(pc := Done(Duplicate))
        else if row.status == Some(FailedStatus) then b.(pc := Claim)
        else AfterClaim(b)
    case Claim =>
      var b := if Effective(reply) && Claimable(row) then a.(writes := a.writes + 1) else a;
      if !reply.Returns? then b.(pc := Done(Threw))
      else if Claimable(row) then AfterClaim(b)
      else b.(pc := Recheck, lost := true)
    case Recheck =>
      a.(pc := Done(if reply.Returns? && IsTerminal(row.status) then Duplicate else Threw))
    case Scan =>
      (match reply
       case ScansClean => AfterScan(a.(clean := true))
       case ScansInfected(threat) => a.(pc := QuarantineInfected(threat))
       case _ => a.(pc := QuarantineUnscanned(Reason(reply))))
    case QuarantineUnscanned(_) => a.(pc := if reply.Returns? then Done(Threw) else Diagnose(Reason(reply)),
        writes := a.writes + 1)
    case QuarantineInfected(_) => a.(pc := if reply.Returns? then Done(Quarantine) else Diagnose(Reason(reply)),
        writes := a.writes + 1)
    case Resume => a.(pc := if reply.Returns? then Transform else Diagnose(Reason(reply)), writes := a.writes + 1)
    case Transform => a.(pc := if reply.Transforms? then Commit(reply.result) else Diagnose(Reason(reply)))
    case Commit(result) =>
      a.(pc := if !reply.Returns? then Diagnose(Reason(reply))
               else if CanCommit(row, result) then Done(Processed)
               else Diagnose(NOT_FOUND),
         writes := a.writes + 1)
    case Diagnose(reason) =>
      a.(pc := if reply.Returns? && row.status != Some(Quarantined) then MarkFail(reason) else Done(Threw))
    case MarkFail(_) => a.(pc := Done(Threw), writes := a.writes + 1)
    case Done(_) => a
  }

  /** The row after the call, when it takes effect. */
  function NextRow(a: Attempt, row: Row, reply: Reply): Row {
    if !Effective(reply) then row
    else match a.pc
      case Claim => Claimed(row)
      case QuarantineUnscanned(reason) => MarkedQuarantined(row, "SCAN_UNAVAILABLE", reason)
      case QuarantineInfected(threat) => MarkedQuarantined(row, "MALWARE_DETECTED", threat)
      case Resume => MarkedProcessing(row)
      case Commit(result) => MarkedReady(row, a.job, result)
      case MarkFail(reason) => MarkedFailed(row, "PROCESSING_FAILED", reason)
      case _ => row
  }

  predicate Commits(a: Attempt, row: Row, reply: Reply) {
    Effective(reply) && a.pc.Commit? && CanCommit(row, a.pc.result)
  }

  predicate Claims(a: Attempt, row: Row, reply: Reply) {
    Effective(reply) && a.pc.Claim? && Claimable(row)
  }

  predicate EntersFailed(before: Row, after: Row) {
    before.status != Some(FailedStatus) && after.status == Some(FailedStatus)
  }

  function Next(s: System, e: Event): System {
    match e
    case Begin(job) => s.(attempts := s.attempts + [Attempt(job, Start, None, false, false, 0)])
    case Elsewhere(status, deleted) =>
      var row := s.row.(status := status, deleted := deleted);
      s.(row := row,
         revivals := s.revivals + (if IsTerminal(s.row.status) && !IsTerminal(status) then 1 else 0),
         failures := s.failures + (if EntersFailed(s.row, row) then 1 else 0))
    case Step(i, reply) =>
      if i >= |s.attempts| then s
      else
        var a := s.attempts[i];
        var row := NextRow(a, s.row, reply);
        s.(row := row,
           attempts := s.attempts[i := NextAttempt(a, s.row, reply)],
           commits := if Commits(a, s.row, reply) then s.commits + [Committed(i, a.job, a.pc.result)] else s.commits,
           claims := s.claims + (if Claims(a, s.row, reply) then 1 else 0),
           failures := s.failures + (if EntersFailed(s.row, row) then 1 else 0))
  }

  function Run(s: System, es: seq<Event>): System {
    if es == [] then s else Next(Run(s, es[..|es| - 1]), es[|es| - 1])
  }

  function Initial(row: Row): System {
    System(row, [], [], 0, 0, 0)
  }

  lemma {:induction false} RunJoin(s: System, first: seq<Event>, second: seq<Event>)
    ensures Run(s, first + second) == Run(Run(s, first), second)
    decreases |second|
  {
    var all := first + second;
    if second == [] {
      assert all == first;
    } else {
      RunJoin(s, first, second[..|second| - 1]);
      assert all[..|all| - 1] == first + second[..|second| - 1] && all[|all| - 1] == second[|second| - 1];
    }
  }

  lemma {:induction false} RunOne(s: System, e: Event)
    ensures Run(s, [e]) == Next(s, e)
  {
    assert [e][..0] == [] && Run(s, []) == s;
  }

  // ------------------------------------------------------------------ invariants

  ghost function CommittedVariants(variants: map<string, Variant>, commits: seq<Committed>): map<string, Variant> {
    if commits == [] then variants
    else
      var last := commits[|commits| - 1];
      var before := CommittedVariants(variants, commits[..|commits| - 1]);
      if AllNamed(last.result.variants) then UpsertedAll(before, last.job, last.result.variants) else before
  }

  /** What an attempt's history allows at each place. */
  predicate AttemptOk(a: Attempt) {
    && (a.lost ==>
          a.writes == 0 && (a.pc.Recheck? || a.pc.Done?) && (a.pc.Done? ==> a.pc.outcome in [Duplicate, Threw]))
    && (a.pc in [Start, Claim, Recheck] ==> a.writes == 0)
    && (a.pc.Recheck? ==> a.lost)
    && (a.pc.Resume? || a.pc.Transform? || a.pc.Commit? ==> a.job.scanRequired ==> a.clean)
    && (a.pc.Resume? ==> a.began == Some(Quarantined))
    && (a.pc == Done(Processed) ==> a.job.scanRequired ==> a.clean)
    && (a.pc == Done(Duplicate) ==> a.writes == 0)
  }

  ghost predicate Inv(s: System, initial: Row) {
    && (forall i | 0 <= i < |s.attempts| :: AttemptOk(s.attempts[i]))
    && (forall k | 0 <= k < |s.commits| :: CommitOk(s, s.commits[k]))
    && |s.commits| + (if IsTerminal(s.row.status) then 0 else 1) <= s.revivals + 1
    && s.row.variants == CommittedVariants(initial.variants, s.commits)
    && s.row.original == LastOriginal(initial.original, s.commits)
    && (|s.commits| == s.revivals + 1 ==> s.row.failure == None)
  }

  /** The original of the last commit; the initial one while nothing has been committed. */
  function LastOriginal(original: Option<File>, commits: seq<Committed>): Option<File> {
    if commits == [] then original else Some(commits[|commits| - 1].result.original)
  }

  /** A commit belongs to an attempt on the same job, scanned clean by itself when the job asks. */
  predicate CommitOk(s: System, c: Committed) {
    && c.attempt < |s.attempts|
    && s.attempts[c.attempt].job == c.job
    && (c.job.scanRequired ==> s.attempts[c.attempt].clean)
    && AllNamed(c.result.variants)
  }

  lemma {:induction false} StepKeepsAttempt(a: Attempt, row: Row, reply: Reply)
    requires AttemptOk(a)
    ensures AttemptOk(NextAttempt(a, row, reply))
    ensures NextAttempt(a, row, reply).job == a.job
    ensures a.clean ==> NextAttempt(a, row, reply).clean
  {
  }

  /** The row changes only as the attempt's call allows; a terminal row not at all. */
  lemma {:induction false} StepRow(a: Attempt, row: Row, reply: Reply)
    ensures IsTerminal(row.status) ==> NextRow(a, row, reply) == row
    ensures Commits(a, row, reply) ==> !IsTerminal(row.status) && IsTerminal(NextRow(a, row, reply).status)
    ensures Commits(a, row, reply) ==>
              NextRow(a, row, reply).variants == UpsertedAll(row.variants, a.job, a.pc.result.variants)
    ensures !Commits(a, row, reply) ==> NextRow(a, row, reply).variants == row.variants
    ensures !Commits(a, row, reply) ==> (IsTerminal(NextRow(a, row, reply).status) <==> IsTerminal(row.status))
  {
    hide UpsertedAll, Cut, AllNamed;
  }

  lemma {:induction false} StepOriginal(a: Attempt, row: Row, reply: Reply)
    ensures Commits(a, row, reply) ==>
              NextRow(a, row, reply).original == Some(a.pc.result.original) && NextRow(a, row, reply).failure == None
    ensures !Commits(a, row, reply) ==> NextRow(a, row, reply).original == row.original
  {
    hide UpsertedAll, Cut, CanCommit, IsTerminal;
  }

  lemma {:induction false} StepKeepsInv(s: System, i: nat, reply: Reply, initial: Row)
    requires Inv(s, initial) && i < |s.attempts|
    ensures Inv(Next(s, Step(i, reply)), initial)
  {
    var t, a := Next(s, Step(i, reply)), s.attempts[i];
    StepKeepsAttempt(a, s.row, reply);
    StepRow(a, s.row, reply);
    StepOriginal(a, s.row, reply);
    StepKeepsCommits(s, i, reply);
    hide NextAttempt, NextRow, AttemptOk, CommitOk;
    if Commits(a, s.row, reply) {
      assert t.commits[..|t.commits| - 1] == s.commits;
    }
  }

  lemma {:induction false} StepKeepsCommits(s: System, i: nat, reply: Reply)
    requires i < |s.attempts| && AttemptOk(s.attempts[i])
    requires forall k | 0 <= k < |s.commits| :: CommitOk(s, s.commits[k])
    ensures var t := Next(s, Step(i, reply)); forall k | 0 <= k < |t.commits| :: CommitOk(t, t.commits[k])
  {
    var t, a := Next(s, Step(i, reply)), s.attempts[i];
    StepKeepsAttempt(a, s.row, reply);
    assert Commits(a, s.row, reply) ==> AllNamed(a.pc.result.variants) && (a.job.scanRequired ==> a.clean);
    hide NextAttempt, NextRow, AttemptOk, Commits, AllNamed;
    forall k | 0 <= k < |t.commits| ensures CommitOk(t, t.commits[k]) {
      if k < |s.commits| {
        assert CommitOk(s, s.commits[k]);
      }
    }
  }

  lemma {:induction false} NextKeepsInv(s: System, e: Event, initial: Row)
    requires Inv(s, initial)
    ensures Inv(Next(s, e), initial)
  {
    if e.Step? && e.i < |s.attempts| {
      StepKeepsInv(s, e.i, e.reply, initial);
    } else {
      var t := Next(s, e);
      forall k | 0 <= k < |t.commits| ensures CommitOk(t, t.commits[k]) {
        assert CommitOk(s, s.commits[k]);
      }
    }
  }

  lemma {:induction false} RunKeepsInv(initial: Row, es: seq<Event>)
    ensures Inv(Run(Initial(initial), es), initial)
  {
    if es != [] {
      RunKeepsInv(initial, es[..|es| - 1]);
      NextKeepsInv(Run(Initial(initial), es[..|es| - 1]), es[|es| - 1], initial);
    }
  }

  // ------------------------------------------------------------------ main results

  /** Under every interleaving there is at most one commit for each time the rest of the system
      revives a terminal row, and one more. */
  lemma {:induction false} CommitsBounded(initial: Row, es: seq<Event>)
    ensures var s := Run(Initial(initial), es); |s.commits| <= s.revivals + 1
  {
    RunKeepsInv(initial, es);
  }

  /** In every reachable state the row points to the original of the last commit, or to the initial one. */
  lemma {:induction false} OriginalIsLastCommitted(initial: Row, es: seq<Event>)
    ensures var s := Run(Initial(initial), es);
      && (s.commits == [] ==> s.row.original == initial.original)
      && (s.commits != [] ==> s.row.original == Some(s.commits[|s.commits| - 1].result.original))
  {
    RunKeepsInv(initial, es);
  }

  /** Without revivals at most one transaction commits.  Either original and variants are untouched, or the
      original is the committing attempt's, the variants are the initial ones overwritten by its files, and
      no failure is left on the row. */
  lemma {:induction false} OneCommitDecidesVariants(initial: Row, es: seq<Event>)
    requires Run(Initial(initial), es).revivals == 0
    ensures var s := Run(Initial(initial), es);
      || (s.commits == [] && s.row.variants == initial.variants && s.row.original == initial.original)
      || (|s.commits| == 1 && IsTerminal(s.row.status) && AllNamed(s.commits[0].result.variants)
          && s.row.original == Some(s.commits[0].result.original) && s.row.failure == None
          && s.row.variants == UpsertedAll(initial.variants, s.commits[0].job, s.commits[0].result.variants))
  {
    RunKeepsInv(initial, es);
    var s := Run(Initial(initial), es);
    assert CommittedVariants(initial.variants, []) == initial.variants;
    if |s.commits| == 1 {
      assert CommitOk(s, s.commits[0]);
      assert s.commits[..|s.commits| - 1] == [];
    }
  }

  /** Every commit was made by an attempt whose own scan came back clean, when its job asks for one. */
  lemma {:induction false} CommitsWereScanned(initial: Row, es: seq<Event>, k: nat)
    requires k < |Run(Initial(initial), es).commits|
    ensures var s := Run(Initial(initial), es);
            var c := s.commits[k];
      && c.attempt < |s.attempts| && s.attempts[c.attempt].job == c.job
      && (c.job.scanRequired ==> s.attempts[c.attempt].clean)
  {
    RunKeepsInv(initial, es);
    var s := Run(Initial(initial), es);
    assert CommitOk(s, s.commits[k]);
  }

  /** A row that is READY although nobody else wrote READY was committed by some attempt. */
  lemma {:induction false} ReadyWasCommitted(initial: Row, es: seq<Event>)
    requires initial.status != Some(Ready)
    requires forall e | e in es && e.Elsewhere? :: e.status != Some(Ready)
    ensures Run(Initial(initial), es).row.status == Some(Ready) ==> Run(Initial(initial), es).commits != []
  {
    if es != [] {
      var before, e := es[..|es| - 1], es[|es| - 1];
      assert e in es;
      ReadyWasCommitted(initial, before);
    }
  }

  predicate WorkersOnly(es: seq<Event>) { forall e | e in es :: !e.Elsewhere? }

  /** The workers never touch a terminal row: not its status, not its variants, nothing. */
  lemma {:induction false} TerminalIsFinal(s: System, es: seq<Event>)
    requires IsTerminal(s.row.status) && WorkersOnly(es)
    ensures Run(s, es).row == s.row
  {
    if es != [] {
      var before, e := es[..|es| - 1], es[|es| - 1];
      assert e in es;
      TerminalIsFinal(s, before);
      var t := Run(s, before);
      if e.Step? && e.i < |t.attempts| {
        StepRow(t.attempts[e.i], t.row, e.reply);
      }
    }
  }

  function Failing(s: System): nat { if s.row.status == Some(FailedStatus) then 1 else 0 }

  /** Along any stretch of a run, claims are paid for by entries into FAILED, one each, plus one
      when the stretch starts in FAILED. */
  lemma {:induction false} ClaimsPaidByFailures(s: System, es: seq<Event>)
    ensures var t := Run(s, es); t.claims - s.claims + Failing(t) <= t.failures - s.failures + Failing(s)
  {
    if es != [] {
      ClaimsPaidByFailures(s, es[..|es| - 1]);
      var t, e := Run(s, es[..|es| - 1]), es[|es| - 1];
      if e.Step? && e.i < |t.attempts| {
        ClaimStep(t.attempts[e.i], t.row, e.reply);
      }
    }
  }

  lemma {:induction false} ClaimStep(a: Attempt, row: Row, reply: Reply)
    ensures Claims(a, row, reply) ==>
              row.status == Some(FailedStatus) && NextRow(a, row, reply).status != Some(FailedStatus)
    ensures row.status == Some(FailedStatus) && NextRow(a, row, reply).status != Some(FailedStatus) ==>
        Claims(a, row, reply)
  {
  }

  /** Between two entries into FAILED at most one claim takes effect, and none after it. */
  lemma {:induction false} OneClaimPerFailure(s: System, es: seq<Event>)
    requires Run(s, es).failures == s.failures
    ensures Run(s, es).claims <= s.claims + 1
    ensures s.row.status != Some(FailedStatus) ==>
        Run(s, es).claims == s.claims && Run(s, es).row.status != Some(FailedStatus)
  {
    ClaimsPaidByFailures(s, es);
    ClaimsGrow(s, es);
  }

  lemma {:induction false} ClaimsGrow(s: System, es: seq<Event>)
    ensures Run(s, es).claims >= s.claims
  {
    if es != [] {
      ClaimsGrow(s, es[..|es| - 1]);
    }
  }

  /** A step that changes the row issues a write. */
  lemma {:induction false} ChangesAreWrites(a: Attempt, row: Row, reply: Reply)
    ensures NextRow(a, row, reply) != row ==> NextAttempt(a, row, reply).writes == a.writes + 1
    ensures NextAttempt(a, row, reply).writes >= a.writes
  {
  }

  /** A claim loser, and an attempt that ends as a duplicate, has written nothing in the whole run. */
  lemma {:induction false} LosersWriteNothing(initial: Row, es: seq<Event>, i: nat)
    requires i < |Run(Initial(initial), es).attempts|
    ensures var a := Run(Initial(initial), es).attempts[i];
      (a.lost || a.pc == Done(Duplicate)) ==> a.writes == 0
  {
    RunKeepsInv(initial, es);
    assert AttemptOk(Run(Initial(initial), es).attempts[i]);
  }

  lemma {:induction false} WritesGrow(s: System, es: seq<Event>, i: nat)
    requires i < |s.attempts|
    ensures i < |Run(s, es).attempts| && Run(s, es).attempts[i].writes >= s.attempts[i].writes
  {
    if es != [] {
      var before, e := es[..|es| - 1], es[|es| - 1];
      WritesGrow(s, before, i);
      if e.Step? && e.i == i {
        ChangesAreWrites(Run(s, before).attempts[i], Run(s, before).row, e.reply);
      }
      hide NextAttempt, NextRow;
    }
  }

  /** And no step it took anywhere in the run has changed the row in any way. */
  lemma {:induction false} LosersChangeNothing(initial: Row, es: seq<Event>, i: nat, n: nat)
    requires i < |Run(Initial(initial), es).attempts|
    requires var a := Run(Initial(initial), es).attempts[i]; a.lost || a.pc == Done(Duplicate)
    requires n < |es| && es[n].Step? && es[n].i == i
    ensures Run(Initial(initial), es[..n + 1]).row == Run(Initial(initial), es[..n]).row
  {
    var s0, s := Initial(initial), Run(Initial(initial), es[..n]);
    LosersWriteNothing(initial, es, i);
    assert es[..n + 1][..n] == es[..n] && Run(s0, es[..n + 1]) == Next(s, es[n]);
    if i < |s.attempts| {
      assert es == es[..n + 1] + es[n + 1..];
      RunJoin(s0, es[..n + 1], es[n + 1..]);
      WritesGrow(Next(s, es[n]), es[n + 1..], i);
      ChangesAreWrites(s.attempts[i], s.row, es[n].reply);
      hide Run, NextAttempt, NextRow;
    }
  }

  /** Workers lift a quarantine in one place only: the resuming write of an attempt that itself
      first read QUARANTINED and whose own scan, if asked for, came back clean. */
  lemma {:induction false} QuarantineLiftedOnlyByResume(a: Attempt, row: Row, reply: Reply)
    requires AttemptOk(a) && row.status == Some(Quarantined)
    ensures NextRow(a, row, reply).status != Some(Quarantined) <==> a.pc.Resume? && Effective(reply)
    ensures a.pc.Resume? ==> a.began == Some(Quarantined) && (a.job.scanRequired ==> a.clean)
  {
  }

  function Rank(pc: Pc): nat {
    match pc
    case Start => 9
    case Claim => 8
    case Recheck => 1
    case Scan => 7
    case QuarantineUnscanned(_) => 6
    case QuarantineInfected(_) => 6
    case Resume => 5
    case Transform => 4
    case Commit(_) => 3
    case Diagnose(_) => 2
    case MarkFail(_) => 1
    case Done(_) => 0
  }

  /** Each call brings an attempt closer to its end, so it ends after at most nine calls. */
  lemma {:induction false} AttemptsEnd(a: Attempt, row: Row, reply: Reply)
    ensures a.pc.Done? <==> Rank(a.pc) == 0
    ensures !a.pc.Done? ==> Rank(NextAttempt(a, row, reply).pc) < Rank(a.pc)
  {
  }

  // ------------------------------------------------------------------ each write in full

  /** `text`, or its longest beginning of at most 2000 UTF-16 units. */
  predicate CutFrom(reason: string, text: string) {
    && reason <= text && |CodeUnits(reason)| <= 2000
    && (reason == text || |CodeUnits(text[..|reason| + 1])| > 2000)
  }

  /** The row with a new status and a failure of this code and text, all else as it was. */
  predicate Recorded(before: Row, after: Row, status: Status, code: string, text: string) {
    && after == before.(status := Some(status), failure := after.failure)
    && after.failure.Some? && after.failure.value.code == code && CutFrom(after.failure.value.reason, text)
  }

  /** What a call that takes effect does to the row: a report is written over PROCESSING or QUARANTINED, a
      failure over PROCESSING only, a resume clears QUARANTINED and a claim FAILED, unless deleted. */
  lemma {:induction false} WritesExactly(a: Attempt, row: Row, reply: Reply)
    requires !reply.Throws?
    ensures var after := NextRow(a, row, reply);
      && (a.pc.QuarantineInfected? ==> Reported(row, after, "MALWARE_DETECTED", a.pc.threat))
      && (a.pc.QuarantineUnscanned? ==> Reported(row, after, "SCAN_UNAVAILABLE", a.pc.reason))
      && (a.pc.MarkFail? ==>
            if row.status == Some(Processing)
            then Recorded(row, after, FailedStatus, "PROCESSING_FAILED", a.pc.reason) else after == row)
      && (a.pc.Resume? ==>
            after == if row.status == Some(Quarantined) then row.(status := Some(Processing), failure := None) else row)
      && (a.pc.Claim? ==>
            after == if row.status == Some(FailedStatus) && !row.deleted
                     then row.(status := Some(Processing), failure := None) else row)
      && (a.pc.Start? || a.pc.Recheck? || a.pc.Scan? || a.pc.Transform? || a.pc.Diagnose? || a.pc.Done? ==>
          after == row)
  {
    if a.pc.QuarantineInfected? {
      ReportRecorded(row, "MALWARE_DETECTED", a.pc.threat);
    } else if a.pc.QuarantineUnscanned? {
      ReportRecorded(row, "SCAN_UNAVAILABLE", a.pc.reason);
    } else if a.pc.MarkFail? {
      CutIsLongest(a.pc.reason);
    }
    hide Cut, CutFrom, Reported, MarkedQuarantined;
  }

  predicate Reported(before: Row, after: Row, code: string, text: string) {
    if before.status in {Some(Processing), Some(Quarantined)} then Recorded(before, after, Quarantined, code, text)
    else after == before
  }

  lemma {:induction false} ReportRecorded(row: Row, code: string, text: string)
    ensures Reported(row, MarkedQuarantined(row, code, text), code, text)
  {
    CutIsLongest(text);
    hide Cut, CutFrom;
  }

  lemma {:induction false} CutIsLongest(text: string)
    ensures CutFrom(Cut(text), text)
  {
    assert text[..|text|] == text;
    hide CodeUnits, Fitting;
  }

  /** Which rows are finished: an attempt that finds one stops as a duplicate, every other goes on. */
  lemma {:induction false} FinishedRows(a: Attempt, row: Row)
    ensures a.pc.Start? || a.pc.Recheck? ==>
              (NextAttempt(a, row, Returns).pc == Done(Duplicate) <==>
               row.status in {Some(Ready), Some(Rejected), Some(Deleted), Some(Deleting)})
    ensures a.pc.Start? ==> (NextAttempt(a, row, Returns).pc == Claim <==> row.status == Some(FailedStatus))
  {
  }

  /** An attempt ends as processed exactly when its own transaction commits and the reply arrives: the row was
      PROCESSING and every file had a name. */
  lemma {:induction false} ProcessedExactly(a: Attempt, row: Row, reply: Reply)
    requires !a.pc.Done?
    ensures NextAttempt(a, row, reply).pc == Done(Processed) <==>
            && a.pc.Commit? && reply.Returns? && row.status == Some(Processing)
            && forall f | f in a.pc.result.variants :: f.name.Some?
  {
  }

  /** Where an attempt goes on.  Work starts with a scan where the job asks for one, and resumes a quarantine
      where the attempt found one; a failed scan or a found threat is reported; whatever fails after that is
      recorded on the row, unless the row is quarantined by then. */
  lemma {:induction false} StepsPlainly(a: Attempt, row: Row, reply: Reply)
    ensures var next := NextAttempt(a, row, reply).pc;
      var work := if a.began == Some(Quarantined) then Resume else Transform;
      var first := if a.job.scanRequired then Scan else if row.status == Some(Quarantined) then Resume else Transform;
      && (a.pc.Start? && reply.Returns? && row.status !in {Some(Ready), Some(Rejected), Some(Deleted),
          Some(Deleting)} ==>
            next == if row.status == Some(FailedStatus) then Claim else first)
      && (a.pc.Claim? && reply.Returns? && row.status == Some(FailedStatus) && !row.deleted ==>
            next == if a.job.scanRequired then Scan else work)
      && (a.pc.Claim? && reply.Returns? && !(row.status == Some(FailedStatus) && !row.deleted) ==> next == Recheck)
      && (a.pc.Scan? && reply.ScansClean? ==> next == work)
      && (a.pc.Scan? && reply.ScansInfected? ==> next == QuarantineInfected(reply.threat))
      && (a.pc.Scan? && reply.Throws? ==> next == QuarantineUnscanned(reply.reason))
      && (a.pc.QuarantineInfected? && reply.Returns? ==> next == Done(Quarantine))
      && (a.pc.QuarantineUnscanned? && reply.Returns? ==> next == Done(Threw))
      && (a.pc.Resume? && reply.Returns? ==> next == Transform)
      && (a.pc.Transform? && reply.Transforms? ==> next == Commit(reply.result))
      && (reply.Throws? && (a.pc.Resume? || a.pc.Transform? || a.pc.Commit?) ==> next == Diagnose(reply.reason))
      && (reply.Throws? && (a.pc.QuarantineInfected? || a.pc.QuarantineUnscanned?) ==> next == Diagnose(reply.reason))
      && (a.pc.Diagnose? && reply.Returns? ==>
            next == if row.status == Some(Quarantined) then Done(Threw) else MarkFail(a.pc.reason))
      && (a.pc.MarkFail? ==> next == Done(Threw))
  {
  }

  /** The texts of errors that carry none of their own. */
  lemma {:induction false} TextsPlainly(a: Attempt, row: Row)
    requires a.pc.Commit? && !(row.status == Some(Processing) && forall f | f in a.pc.result.variants :: f.name.Some?)
    ensures NextAttempt(a, row, Returns).pc == Diagnose("Media record was not found.")
    ensures Reason(Returns) == "Unknown error"
  {
  }

  predicate Finished(status: Option<Status>) { status in {Some(Ready), Some(Rejected), Some(Deleted), Some(Deleting)} }

  /** What is counted: the commits of the attempts, the claims that take effect, the rest of the system taking a
      finished row out of its status, and every change into FAILED. */
  lemma {:induction false} CountsPlainly(s: System, e: Event, initial: Row)
    ensures Initial(initial) == System(initial, [], [], 0, 0, 0)
    ensures var t := Next(s, e);
      && t.revivals == s.revivals + (if e.Elsewhere? && Finished(s.row.status) && !Finished(e.status) then 1 else 0)
      && t.failures == s.failures
         + (if s.row.status != Some(FailedStatus) && t.row.status == Some(FailedStatus) then 1 else 0)
      && t.claims == s.claims
         + (if e.Step? && e.i < |s.attempts| && s.attempts[e.i].pc.Claim? && !e.reply.Throws?
               && s.row.status == Some(FailedStatus) && !s.row.deleted then 1 else 0)
      && (t.commits != s.commits <==>
            && e.Step? && e.i < |s.attempts| && s.attempts[e.i].pc.Commit? && !e.reply.Throws?
            && s.row.status == Some(Processing)
            && forall f | f in s.attempts[e.i].pc.result.variants :: f.name.Some?)
      && (t.commits != s.commits ==>
            t.commits == s.commits + [Committed(e.i, s.attempts[e.i].job, s.attempts[e.i].pc.result)])
      && (e.Elsewhere? ==> t.row == s.row.(status := e.status, deleted := e.deleted))
  {
    hide NextAttempt;
  }
}
