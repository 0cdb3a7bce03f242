/** The processor as structured code over the store, proved to be one attempt of the protocol, with the
    same row and the same outcome, whatever others write to the row between its calls. */
module MediaProcessor {
  import opened Options
  import opened MediaProtocol
  import opened MediaStore

  /** What others make of the row before a call, and how the call ends. */
  datatype Answer = Answer(meanwhile: Row -> Row, reply: Reply)

  /** An answer for each place in the code that makes a call. */
  datatype Script = Script(
    find: Answer, claim: Answer, recheck: Answer, scan: Answer, unscanned: Answer, infected: Answer,
    resume: Answer, transform: Answer, commit: Answer, diagnose: Answer, fail: Answer)

  function At(script: Script, pc: Pc): Answer {
    match pc
    case Start => script.find
    case Claim => script.claim
    case Recheck => script.recheck
    case Scan => script.scan
    case QuarantineUnscanned(_) => script.unscanned
    case QuarantineInfected(_) => script.infected
    case Resume => script.resume
    case Transform => script.transform
    case Commit(_) => script.commit
    case Diagnose(_) => script.diagnose
    case MarkFail(_) => script.fail
    case Done(_) => script.find
  }

  /** One attempt of the protocol from where it stands to its end: at every call others go first, and
      the call sees what they left. */
  function Whole(a: Attempt, row: Row, script: Script): (r: (Attempt, Row))
    ensures r.0.pc.Done? && (a.pc.Done? ==> r == (a, row))
    decreases Rank(a.pc)
  {
    if a.pc.Done? then (a, row)
    else
      var seen, reply := At(script, a.pc).meanwhile(row), At(script, a.pc).reply;
      AttemptsEnd(a, seen, reply);
      Whole(NextAttempt(a, seen, reply), NextRow(a, seen, reply), script)
  }

  function Newcomer(job: Job): Attempt {
    Attempt(job, Start, None, false, false, 0)
  }

  // ------------------------------------------------------------------ the code

  /** Others write to the row; then attempt `a` makes the call it stands at. */
  method Meanwhile(store: PostgresMediaProcessingStore, answer: Answer, ghost a: Attempt, ghost script: Script)
    returns (ghost b: Attempt)
    requires !a.pc.Done? && answer == At(script, a.pc)
    modifies store
    ensures store.row == answer.meanwhile(old(store.row)) && b == NextAttempt(a, store.row, answer.reply)
    ensures Whole(a, old(store.row), script) == Whole(b, NextRow(a, store.row, answer.reply), script)
  {
    store.row := answer.meanwhile(store.row);
    b := NextAttempt(a, store.row, answer.reply);
  }

  /** The start of the code an attempt with this history is at. */
  predicate Entering(a: Attempt, job: Job, status: Option<Status>) {
    a.job == job && a.began == status && a == AfterClaim(a)
  }

  /** From the first read to the `try` block.  `ended` is the outcome of an early exit. */
  method Admit(store: PostgresMediaProcessingStore, job: Job, script: Script)
    returns (status: Option<Status>, ended: Option<Outcome>, ghost b: Attempt)
    modifies store
    ensures Whole(Newcomer(job), old(store.row), script) == Whole(b, store.row, script)
    ensures ended.Some? ==> b.pc == Done(ended.value)
    ensures ended.None? ==> Entering(b, job, status)
  {
    hide Whole;
    status, ended, b := None, None, Newcomer(job);
    b := Meanwhile(store, script.find, b, script);
    if !script.find.reply.Returns? {
      ended := Some(Threw);
      return;
    }
    status := store.FindStatus();
    if IsTerminal(status) {
      ended := Some(Duplicate);
      return;
    }
    if status == Some(FailedStatus) {
      b := Meanwhile(store, script.claim, b, script);
      var won := false;
      if !script.claim.reply.Throws? {
        won := store.ClaimFailedRetry();
      }
      if !script.claim.reply.Returns? {
        ended := Some(Threw);
        return;
      }
      if !won {
        b := Meanwhile(store, script.recheck, b, script);
        if script.recheck.reply.Returns? {
          var current := store.FindStatus();
          if IsTerminal(current) {
            ended := Some(Duplicate);
            return;
          }
        }
        ended := Some(Threw);
      }
    }
  }

  /** The `try` block.  It ends with an outcome, or throws; `quarantined` is the flag the handler
      reads. */
  method Work(store: PostgresMediaProcessingStore, job: Job, status: Option<Status>, script: Script, ghost a: Attempt)
    returns (ended: Option<Outcome>, error: string, quarantined: bool, ghost b: Attempt)
    requires Entering(a, job, status)
    modifies store
    ensures Whole(a, old(store.row), script) == Whole(b, store.row, script)
    ensures ended.Some? ==> b.pc == Done(ended.value)
    ensures ended.None? ==> b.pc == if quarantined then Done(Threw) else Diagnose(error)
  {
    hide Whole;
    ended, error, quarantined, b := None, "", false, a;
    if job.scanRequired {
      b := Meanwhile(store, script.scan, b, script);
      var scan := script.scan.reply;
      if scan.ScansInfected? {
        b := Meanwhile(store, script.infected, b, script);
        if !script.infected.reply.Throws? {
          store.MarkQuarantined("MALWARE_DETECTED", scan.threat);
        }
        if script.infected.reply.Returns? {
          ended := Some(Quarantine);
        }
        error := Reason(script.infected.reply);
        return;
      }
      if !scan.ScansClean? {
        b := Meanwhile(store, script.unscanned, b, script);
        if !script.unscanned.reply.Throws? {
          store.MarkQuarantined("SCAN_UNAVAILABLE", Reason(scan));
        }
        quarantined, error := script.unscanned.reply.Returns?, Reason(script.unscanned.reply);
        return;
      }
    }
    ended, error, b := Publish(store, job, status, script, b);
  }

  /** Lifting the quarantine, transforming and committing. */
  method Publish(store: PostgresMediaProcessingStore, job: Job, status: Option<Status>, script: Script,
      ghost a: Attempt)
    returns (ended: Option<Outcome>, error: string, ghost b: Attempt)
    requires a.job == job && a.began == status && a == AfterScan(a)
    modifies store
    ensures Whole(a, old(store.row), script) == Whole(b, store.row, script)
    ensures ended.Some? ==> b.pc == Done(ended.value)
    ensures ended.None? ==> b.pc == Diagnose(error)
  {
    hide Whole;
    ended, error, b := None, "", a;
    if status == Some(Quarantined) {
      b := Meanwhile(store, script.resume, b, script);
      if !script.resume.reply.Throws? {
        store.MarkProcessing();
      }
      if !script.resume.reply.Returns? {
        error := Reason(script.resume.reply);
        return;
      }
    }
    b := Meanwhile(store, script.transform, b, script);
    var transform := script.transform.reply;
    if !transform.Transforms? {
      error := Reason(transform);
      return;
    }
    b := Meanwhile(store, script.commit, b, script);
    var commit := script.commit.reply;
    var committed := store.MarkReady(job, transform.result, if commit.Throws? then Some(0) else None);
    error := if commit.Returns? then NOT_FOUND else Reason(commit);
    if committed && commit.Returns? {
      ended := Some(Processed);
    }
  }

  /** The whole processor, under interference: it ends as the attempt of the protocol ends, and leaves
      the row as that attempt leaves it. */
  method Process(store: PostgresMediaProcessingStore, job: Job, script: Script) returns (outcome: Outcome)
    modifies store
    ensures Whole(Newcomer(job), old(store.row), script).0.pc == Done(outcome)
    ensures Whole(Newcomer(job), old(store.row), script).1 == store.row
  {
    hide Whole;
    var status, early;
    ghost var b;
    status, early, b := Admit(store, job, script);
    if early.Some? {
      return early.value;
    }
    var ended, error, quarantined;
    ended, error, quarantined, b := Work(store, job, status, script, b);
    if ended.Some? {
      return ended.value;
    }
    outcome := Threw;
    if !quarantined {
      b := Meanwhile(store, script.diagnose, b, script);
      if script.diagnose.reply.Returns? {
        var current := store.FindStatus();
        if current != Some(Quarantined) {
          b := Meanwhile(store, script.fail, b, script);
          if !script.fail.reply.Throws? {
            store.MarkFailed("PROCESSING_FAILED", error);
          }
        }
      }
    }
  }

  // ------------------------------------------------------------------ every attempt of every run

  function With(script: Script, pc: Pc, answer: Answer): Script {
    match pc
    case Start => script.(find := answer)
    case Claim => script.(claim := answer)
    case Recheck => script.(recheck := answer)
    case Scan => script.(scan := answer)
    case QuarantineUnscanned(_) => script.(unscanned := answer)
    case QuarantineInfected(_) => script.(infected := answer)
    case Resume => script.(resume := answer)
    case Transform => script.(transform := answer)
    case Commit(_) => script.(commit := answer)
    case Diagnose(_) => script.(diagnose := answer)
    case MarkFail(_) => script.(fail := answer)
    case Done(_) => script
  }

  ghost predicate AgreeBelow(first: Script, second: Script, rank: nat) {
    forall pc: Pc | !pc.Done? && Rank(pc) < rank :: At(first, pc) == At(second, pc)
  }

  lemma {:induction false} WithAgreesBelow(script: Script, pc: Pc, answer: Answer)
    ensures AgreeBelow(With(script, pc, answer), script, Rank(pc))
    ensures !pc.Done? ==> At(With(script, pc, answer), pc) == answer
  {
  }

  /** An attempt never comes back to a place, so it does not ask again what it asked before. */
  lemma {:induction false} OnlyAnswersBelow(a: Attempt, row: Row, first: Script, second: Script, rank: nat)
    requires AgreeBelow(first, second, rank) && Rank(a.pc) < rank
    ensures Whole(a, row, first) == Whole(a, row, second)
    decreases Rank(a.pc)
  {
    if !a.pc.Done? {
      var answer := At(first, a.pc);
      assert answer == At(second, a.pc);
      var seen := answer.meanwhile(row);
      AttemptsEnd(a, seen, answer.reply);
      hide NextAttempt, NextRow, At, AgreeBelow;
      OnlyAnswersBelow(NextAttempt(a, seen, answer.reply), NextRow(a, seen, answer.reply), first, second, rank);
    }
  }

  /** The script of an attempt from its next call on. */
  lemma {:induction false} CallScripted(a: Attempt, seen: Row, reply: Reply, later: Script, end: Attempt)
      returns (script: Script)
    requires !a.pc.Done? && forall row :: Whole(NextAttempt(a, seen, reply), row, later).0 == end
    ensures forall row :: Whole(a, row, script).0 == end
  {
    var answer := Answer(_ => seen, reply);
    script := With(later, a.pc, answer);
    WithAgreesBelow(later, a.pc, answer);
    AttemptsEnd(a, seen, reply);
    var b, after := NextAttempt(a, seen, reply), NextRow(a, seen, reply);
    hide NextAttempt, NextRow, At, With, AgreeBelow;
    OnlyAnswersBelow(b, after, script, later, Rank(a.pc));
    assert forall row :: Whole(a, row, script) == Whole(b, after, script);
  }

  lemma {:induction false} OneEvent(s: System, e: Event, i: nat)
    requires i < |s.attempts|
    ensures i < |Next(s, e).attempts|
    ensures Next(s, e).attempts[i] ==
      if e.Step? && e.i == i then NextAttempt(s.attempts[i], s.row, e.reply) else s.attempts[i]
  {
  }

  /** Every finished attempt of every run of the system, interleaved with any others, is what the code
      does under some script: others leave the rows the attempt saw, and its calls end as they did. */
  lemma {:induction false} FinishedIsScripted(s: System, es: seq<Event>, i: nat) returns (script: Script)
    requires i < |s.attempts| && i < |Run(s, es).attempts| && Run(s, es).attempts[i].pc.Done?
    ensures forall row :: Whole(s.attempts[i], row, script).0 == Run(s, es).attempts[i]
    decreases |es|
  {
    var a := s.attempts[i];
    if es == [] {
      var none := Answer(row => row, Returns);
      script := Script(none, none, none, none, none, none, none, none, none, none, none);
    } else {
      hide Next, NextAttempt, Run;
      FromFront(s, es);
      OneEvent(s, es[0], i);
      script := FinishedIsScripted(Next(s, es[0]), es[1..], i);
      if es[0].Step? && es[0].i == i && !a.pc.Done? {
        script := CallScripted(a, s.row, es[0].reply, script, Run(s, es).attempts[i]);
      } else if a.pc.Done? {
        DoneStays(a, s.row, es[0]);
      }
    }
  }

  lemma {:induction false} DoneStays(a: Attempt, row: Row, e: Event)
    requires a.pc.Done?
    ensures e.Step? ==> NextAttempt(a, row, e.reply) == a
  {
  }

  lemma {:induction false} FromFront(s: System, es: seq<Event>)
    requires es != []
    ensures Run(s, es) == Run(Next(s, es[0]), es[1..])
  {
    RunJoin(s, [es[0]], es[1..]);
    RunOne(s, es[0]);
    assert es == [es[0]] + es[1..];
  }
}
