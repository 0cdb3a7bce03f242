/** Whole runs of the protocol: when a found infection stops publication, and that the bound on commits
    is reached.  Runs are built step by step by letting one attempt go on alone. */
module MediaRuns {
  import opened Options
  import opened MediaProtocol
  import opened MediaStore

  // ------------------------------------------------------------------ building runs

  /** Worker steps only, and no new attempt. */
  predicate NoNewcomers(es: seq<Event>) { forall e | e in es :: e.Step? }

  /** From here the attempt can publish by itself. */
  predicate CanGoOn(a: Attempt, row: Row) {
    match a.pc
    case Start => row.status in [Some(Processing), Some(Quarantined)] || Claimable(row)
    case Claim => Claimable(row)
    case Scan => row.status == Some(Processing) || (row.status == Some(Quarantined) && a.began == Some(Quarantined))
    case Resume => row.status in [Some(Processing), Some(Quarantined)]
    case Transform => row.status == Some(Processing)
    case Commit(result) => CanCommit(row, result)
    case _ => false
  }

  /** The reply with which it does. */
  function Favourable(a: Attempt, result: Result): Reply {
    match a.pc
    case Scan => ScansClean
    case Transform => Transforms(result)
    case _ => Returns
  }

  lemma {:induction false} GoesOn(a: Attempt, row: Row, result: Result)
    requires CanGoOn(a, row) && AllNamed(result.variants)
    ensures var reply := Favourable(a, result);
            var b, after := NextAttempt(a, row, reply), NextRow(a, row, reply);
      && Rank(b.pc) < Rank(a.pc) && Effective(reply)
      && (a.pc.Commit? ==> Commits(a, row, reply) && after.status == Some(Ready))
      && (!a.pc.Commit? ==> CanGoOn(b, after) && !Commits(a, row, reply))
  {
  }

  /** An attempt that can publish, left alone, does: one commit, and the row is READY. */
  lemma {:induction false} Drive(s: System, i: nat, result: Result) returns (es: seq<Event>)
    requires i < |s.attempts| && CanGoOn(s.attempts[i], s.row) && AllNamed(result.variants)
    ensures NoNewcomers(es)
    ensures var t := Run(s, es);
      && t.row.status == Some(Ready) && |t.commits| == |s.commits| + 1 && t.revivals == s.revivals
      && |t.attempts| == |s.attempts|
      && forall j | 0 <= j < |s.attempts| && j != i :: t.attempts[j] == s.attempts[j]
    decreases Rank(s.attempts[i].pc)
  {
    var a := s.attempts[i];
    var e := Step(i, Favourable(a, result));
    GoesOn(a, s.row, result);
    RunOne(s, e);
    var u := Next(s, e);
    if a.pc.Commit? {
      es := [e];
    } else {
      hide NextAttempt, NextRow, CanGoOn, Commits;
      var more := Drive(u, i, result);
      RunJoin(s, [e], more);
      es := [e] + more;
    }
  }

  // ------------------------------------------------------------------ commits and revivals

  /** Workers never revive a terminal row. */
  lemma {:induction false} WorkersNeverRevive(s: System, es: seq<Event>)
    requires WorkersOnly(es)
    ensures Run(s, es).revivals == s.revivals
  {
    if es != [] {
      assert es[|es| - 1] in es;
      WorkersNeverRevive(s, es[..|es| - 1]);
    }
  }

  /** So left to themselves the workers commit at most once. */
  lemma {:induction false} WorkersCommitOnce(initial: Row, es: seq<Event>)
    requires WorkersOnly(es)
    ensures |Run(Initial(initial), es).commits| <= 1
  {
    WorkersNeverRevive(Initial(initial), es);
    CommitsBounded(initial, es);
  }

  /** The bound on commits is reached: for every number of revivals there is a run with that many and
      one commit more. */
  lemma {:induction false} BoundReached(n: nat, job: Job, result: Result) returns (es: seq<Event>)
    requires AllNamed(result.variants)
    ensures var s := Run(Initial(Row(Some(Processing), false, None, None, map[])), es);
      s.revivals == n && |s.commits| == n + 1 && s.row.status == Some(Ready)
  {
    var s0 := Initial(Row(Some(Processing), false, None, None, map[]));
    var before: seq<Event>;
    if n == 0 {
      before := [];
    } else {
      var earlier := BoundReached(n - 1, job, result);
      before := earlier + [Elsewhere(Some(FailedStatus), false)];
      RunJoin(s0, earlier, [Elsewhere(Some(FailedStatus), false)]);
      RunOne(Run(s0, earlier), Elsewhere(Some(FailedStatus), false));
    }
    var s := Run(s0, before);
    var t := Next(s, Begin(job));
    RunJoin(s0, before, [Begin(job)]);
    RunOne(s, Begin(job));
    hide Next, Run;
    var more := Drive(t, |t.attempts| - 1, result);
    RunJoin(s0, before + [Begin(job)], more);
    es := before + [Begin(job)] + more;
  }

  // ------------------------------------------------------------------ when an infection stops publication

  /** An attempt that will lift the quarantine it read, if its own scan is clean or not asked for. */
  predicate WillResume(a: Attempt) {
    a.pc.Start? || a.pc.Resume? || (a.pc.Scan? && a.began == Some(Quarantined))
  }

  /** An attempt that may still claim a failed row. */
  predicate WillClaim(a: Attempt) {
    a.pc.Start? || a.pc.Claim?
  }

  /** No attempt there is can publish any more. */
  predicate Settled(s: System) {
    match s.row.status
    case Some(Ready) => false
    case Some(Processing) => false
    case Some(Quarantined) => forall i | 0 <= i < |s.attempts| :: !WillResume(s.attempts[i])
    case Some(FailedStatus) => s.row.deleted || forall i | 0 <= i < |s.attempts| :: !WillClaim(s.attempts[i])
    case _ => true
  }

  lemma {:induction false} StepKeepsSettled(s: System, e: Event)
    requires Settled(s) && e.Step?
    ensures Settled(Next(s, e)) && Next(s, e).row.status == s.row.status
  {
    if e.i < |s.attempts| {
      SettledAttempt(s.attempts[e.i], s.row, e.reply);
      hide NextAttempt, NextRow;
    }
  }

  lemma {:induction false} SettledAttempt(a: Attempt, row: Row, reply: Reply)
    requires row.status !in [Some(Ready), Some(Processing)]
    requires row.status == Some(Quarantined) ==> !WillResume(a)
    requires row.status == Some(FailedStatus) && !row.deleted ==> !WillClaim(a)
    ensures var b, after := NextAttempt(a, row, reply), NextRow(a, row, reply);
      && after.status == row.status && after.deleted == row.deleted
      && (row.status == Some(Quarantined) ==> !WillResume(b))
      && (row.status == Some(FailedStatus) && !row.deleted ==> !WillClaim(b))
  {
  }

  /** What a reported infection finds: whether its quarantine write hits a row, and which other
      attempts are still able to publish. */
  predicate InfectionStops(s: System) {
    match s.row.status
    case Some(Ready) => false
    case Some(Processing) | Some(Quarantined) => forall i | 0 <= i < |s.attempts| :: !WillResume(s.attempts[i])
    case Some(FailedStatus) => s.row.deleted || forall i | 0 <= i < |s.attempts| :: !WillClaim(s.attempts[i])
    case _ => true
  }

  lemma {:induction false} ReportLeaves(a: Attempt, row: Row, reply: Reply)
    requires a.pc.QuarantineInfected? && Effective(reply)
    ensures var b, after := NextAttempt(a, row, reply), NextRow(a, row, reply);
      && !WillResume(b) && !WillClaim(b) && after.deleted == row.deleted
      && after.status == if row.status in [Some(Processing), Some(Quarantined)] then Some(Quarantined) else row.status
  {
  }

  /** The quarantine write leaves the row quarantined exactly when it was being processed or already
      quarantined. */
  lemma {:induction false} InfectionRecorded(s: System, i: nat, reply: Reply)
    requires i < |s.attempts| && s.attempts[i].pc.QuarantineInfected? && Effective(reply)
    ensures Next(s, Step(i, reply)).row.status == Some(Quarantined)
        <==> s.row.status in [Some(Processing), Some(Quarantined)]
    ensures Settled(Next(s, Step(i, reply))) <==> InfectionStops(s)
  {
    var t := Next(s, Step(i, reply));
    ReportLeaves(s.attempts[i], s.row, reply);
    hide NextAttempt, NextRow;
    assert !WillResume(t.attempts[i]) && !WillClaim(t.attempts[i]) && !WillResume(s.attempts[i])
        && !WillClaim(s.attempts[i]);
    assert forall j | 0 <= j < |s.attempts| && j != i :: t.attempts[j] == s.attempts[j];
    assert forall j | 0 <= j < |s.attempts| :: WillResume(t.attempts[j]) <==> WillResume(s.attempts[j]);
    assert forall j | 0 <= j < |s.attempts| :: WillClaim(t.attempts[j]) <==> WillClaim(s.attempts[j]);
  }

  /** From a row that is not settled some attempt can publish, unless it still is PROCESSING. */
  lemma {:induction false} UnsettledPublishes(s: System, result: Result) returns (es: seq<Event>)
    requires !Settled(s) && s.row.status != Some(Processing) && AllNamed(result.variants)
    ensures NoNewcomers(es) && Run(s, es).row.status == Some(Ready)
  {
    if s.row.status == Some(Ready) {
      es := [];
    } else {
      var i :| 0 <= i < |s.attempts|
               && (if s.row.status == Some(Quarantined) then WillResume(s.attempts[i]) else WillClaim(s.attempts[i]));
      assert CanGoOn(s.attempts[i], s.row);
      es := Drive(s, i, result);
    }
  }

  /** An attempt that can publish a row in processing, by its own steps. */
  predicate WillPublish(a: Attempt) {
    a.pc.Start? || a.pc.Scan? || a.pc.Resume? || a.pc.Transform? || (a.pc.Commit? && AllNamed(a.pc.result.variants))
  }

  /** No attempt there is can publish any more, a row still in processing included: somebody may fail it,
      and then it may be claimed. */
  predicate Stuck(s: System) {
    if s.row.status == Some(Processing) then
      && (forall i | 0 <= i < |s.attempts| :: !WillPublish(s.attempts[i]))
      && (s.row.deleted || forall i | 0 <= i < |s.attempts| :: !WillClaim(s.attempts[i]))
    else Settled(s)
  }

  lemma {:induction false} StuckAttempt(a: Attempt, row: Row, reply: Reply)
    requires row.status == Some(Processing) && !WillPublish(a) && (row.deleted || !WillClaim(a))
    ensures var b, after := NextAttempt(a, row, reply), NextRow(a, row, reply);
      && !WillPublish(b) && (row.deleted || !WillClaim(b)) && after.deleted == row.deleted
      && after.status in [Some(Processing), Some(Quarantined), Some(FailedStatus)]
  {
  }

  lemma {:induction false} StepKeepsStuck(s: System, e: Event)
    requires Stuck(s) && e.Step?
    ensures Stuck(Next(s, e)) && Next(s, e).row.status != Some(Ready)
  {
    if s.row.status != Some(Processing) {
      StepKeepsSettled(s, e);
    } else if e.i < |s.attempts| {
      var t := Next(s, e);
      StuckAttempt(s.attempts[e.i], s.row, e.reply);
      hide NextAttempt, NextRow;
      assert forall j | 0 <= j < |s.attempts| && j != e.i :: t.attempts[j] == s.attempts[j];
      assert forall j | 0 <= j < |t.attempts| :: !WillPublish(t.attempts[j]);
    }
  }

  lemma {:induction false} StuckStays(s: System, es: seq<Event>)
    requires Stuck(s) && NoNewcomers(es)
    ensures Stuck(Run(s, es)) && Run(s, es).row.status != Some(Ready)
  {
    if es != [] {
      assert es[|es| - 1] in es;
      StuckStays(s, es[..|es| - 1]);
      StepKeepsStuck(Run(s, es[..|es| - 1]), es[|es| - 1]);
    }
  }

  /** Attempt `i` fails a row in processing. */
  lemma {:induction false} Fails(s: System, i: nat) returns (es: seq<Event>)
    requires i < |s.attempts| && s.attempts[i].pc.Diagnose? && s.row.status == Some(Processing)
    ensures NoNewcomers(es)
    ensures var t := Run(s, es);
      && t.row.status == Some(FailedStatus) && t.row.deleted == s.row.deleted && |t.attempts| == |s.attempts|
      && forall j | 0 <= j < |s.attempts| && j != i :: t.attempts[j] == s.attempts[j]
  {
    var e := Step(i, Returns);
    es := [e] + [e];
    RunJoin(s, [e], [e]);
    RunOne(s, e);
    RunOne(Next(s, e), e);
  }

  /** Where somebody is about to fail the row, a system that is not stuck can publish. */
  lemma {:induction false} UnstuckPublishes(s: System, i: nat, result: Result) returns (es: seq<Event>)
    requires !Stuck(s) && i < |s.attempts| && s.attempts[i].pc.Diagnose? && AllNamed(result.variants)
    ensures NoNewcomers(es) && Run(s, es).row.status == Some(Ready)
  {
    if s.row.status != Some(Processing) {
      es := UnsettledPublishes(s, result);
    } else if j :| 0 <= j < |s.attempts| && WillPublish(s.attempts[j]) {
      assert CanGoOn(s.attempts[j], s.row);
      es := Drive(s, j, result);
    } else {
      var j :| 0 <= j < |s.attempts| && WillClaim(s.attempts[j]);
      var failing := Fails(s, i);
      assert CanGoOn(Run(s, failing).attempts[j], Run(s, failing).row);
      hide CanGoOn, Run;
      var more := Drive(Run(s, failing), j, result);
      RunJoin(s, failing, more);
      es := failing + more;
    }
  }

  /** When the quarantine write fails, the infected attempt is left in its error handler, and what was
      stuck stays stuck. */
  lemma {:induction false} ReportFails(s: System, i: nat, reply: Reply)
    requires i < |s.attempts| && s.attempts[i].pc.QuarantineInfected? && !Effective(reply)
    ensures var t := Next(s, Step(i, reply));
      |t.attempts| == |s.attempts| && t.attempts[i].pc.Diagnose? && t.row == s.row && (Stuck(t) <==> Stuck(s))
  {
    var t := Next(s, Step(i, reply));
    assert forall j | 0 <= j < |s.attempts| && j != i :: t.attempts[j] == s.attempts[j];
    assert t.attempts[i].pc.Diagnose? && s.attempts[i].pc.QuarantineInfected?;
    hide NextAttempt, NextRow;
    assert forall j | 0 <= j < |s.attempts| :: WillPublish(t.attempts[j]) <==> WillPublish(s.attempts[j]);
    assert forall j | 0 <= j < |s.attempts| :: WillResume(t.attempts[j]) <==> WillResume(s.attempts[j]);
    assert forall j | 0 <= j < |s.attempts| :: WillClaim(t.attempts[j]) <==> WillClaim(s.attempts[j]);
  }

  /** A found infection keeps the row from ever becoming READY by the attempts there are, under every
      interleaving and every reply, exactly when: the quarantine write took effect, the row was not READY
      already and no other attempt is about to resume from the quarantine, or to claim a failed row; or
      the write failed, and no other attempt could have published or claimed the row anyway. */
  lemma {:induction false} InfectionStopsExactly(s: System, i: nat, reply: Reply)
    requires i < |s.attempts| && s.attempts[i].pc.QuarantineInfected?
    ensures var t := Next(s, Step(i, reply));
      (forall es | NoNewcomers(es) :: Run(t, es).row.status != Some(Ready))
      <==> if Effective(reply) then InfectionStops(s) else Stuck(s)
  {
    var t := Next(s, Step(i, reply));
    var any := Result(File(None, "", 0), []);
    hide Next, Run, Settled, Stuck, InfectionStops;
    if Effective(reply) {
      InfectionRecorded(s, i, reply);
      EffectiveLeaves(s, i, reply);
      if InfectionStops(s) {
        forall es | NoNewcomers(es) ensures Run(t, es).row.status != Some(Ready) {
          StuckStays(t, es);
        }
      } else {
        var es := UnsettledPublishes(t, any);
      }
    } else {
      ReportFails(s, i, reply);
      if Stuck(s) {
        forall es | NoNewcomers(es) ensures Run(t, es).row.status != Some(Ready) {
          StuckStays(t, es);
        }
      } else {
        var es := UnstuckPublishes(t, i, any);
      }
    }
  }

  lemma {:induction false} EffectiveLeaves(s: System, i: nat, reply: Reply)
    requires i < |s.attempts| && s.attempts[i].pc.QuarantineInfected? && Effective(reply)
    ensures var t := Next(s, Step(i, reply)); t.row.status != Some(Processing) && (Settled(t) <==> Stuck(t))
  {
  }

  /** A newcomer is not stopped: it reads the quarantine, scans for itself, and may publish. */
  lemma {:induction false} NewcomerPublishes(s: System, job: Job, result: Result) returns (es: seq<Event>)
    requires s.row.status == Some(Quarantined) && AllNamed(result.variants)
    ensures WorkersOnly(es) && Run(s, es).row.status == Some(Ready)
    ensures |Run(s, es).commits| == |s.commits| + 1 && |Run(s, es).attempts| == |s.attempts| + 1
  {
    var t := Next(s, Begin(job));
    RunOne(s, Begin(job));
    assert CanGoOn(t.attempts[|s.attempts|], t.row);
    hide Next, Run, CanGoOn, WorkersOnly, NoNewcomers;
    var more := Drive(t, |s.attempts|, result);
    RunJoin(s, [Begin(job)], more);
    es := [Begin(job)] + more;
    assert WorkersOnly([Begin(job)]) by { OneWorker(job); }
    WorkersJoin([Begin(job)], more);
  }

  lemma {:induction false} OneWorker(job: Job)
    ensures WorkersOnly([Begin(job)])
  {
  }

  /** A resuming write takes effect somewhere in the run. */
  predicate ResumeTakesEffect(s: System, es: seq<Event>) {
    exists n | 0 <= n < |es| :: ResumesAt(Run(s, es[..n]), es[n])
  }

  predicate ResumesAt(s: System, e: Event) {
    e.Step? && e.i < |s.attempts| && s.attempts[e.i].pc.Resume? && Effective(e.reply)
  }

  predicate AlwaysQuarantined(s: System, es: seq<Event>) {
    forall n | 0 <= n <= |es| :: Run(s, es[..n]).row.status == Some(Quarantined)
  }

  /** Workers keep a quarantined row quarantined all along a run, newcomers included, exactly when no
      resuming write takes effect in it. */
  lemma {:induction false} QuarantineHoldsExactly(s: System, es: seq<Event>)
    requires s.row.status == Some(Quarantined) && WorkersOnly(es)
    ensures AlwaysQuarantined(s, es) <==> !ResumeTakesEffect(s, es)
  {
    if es == [] {
      assert es[..0] == [];
    } else {
      var last := |es| - 1;
      assert es[last] in es;
      QuarantineHoldsExactly(s, es[..last]);
      AlwaysLast(s, es);
      ResumeLast(s, es);
      QuarantinedStep(Run(s, es[..last]), es[last]);
      hide Next, ResumesAt, ResumeTakesEffect, AlwaysQuarantined;
      assert AlwaysQuarantined(s, es[..last]) ==> Run(s, es[..last]).row.status == Some(Quarantined);
    }
  }

  lemma {:induction false} AlwaysLast(s: System, es: seq<Event>)
    requires es != []
    ensures AlwaysQuarantined(s, es) <==>
            AlwaysQuarantined(s, es[..|es| - 1]) && Run(s, es).row.status == Some(Quarantined)
    ensures AlwaysQuarantined(s, es[..|es| - 1]) ==> Run(s, es[..|es| - 1]).row.status == Some(Quarantined)
  {
    hide Run;
    var before := es[..|es| - 1];
    assert es[..|es|] == es && before[..|before|] == before;
    forall n | 0 <= n < |es| ensures es[..n] == before[..n] {
    }
  }

  lemma {:induction false} ResumeLast(s: System, es: seq<Event>)
    requires es != []
    ensures var last := |es| - 1;
      ResumeTakesEffect(s, es) <==> ResumeTakesEffect(s, es[..last]) || ResumesAt(Run(s, es[..last]), es[last])
  {
    hide Run, ResumesAt;
    var last := |es| - 1;
    var before := es[..last];
    forall n | 0 <= n < last ensures es[..n] == before[..n] && es[n] == before[n] {
    }
    if n :| 0 <= n < last && ResumesAt(Run(s, es[..n]), es[n]) {
      assert ResumesAt(Run(s, before[..n]), before[n]);
    }
    if n :| 0 <= n < last && ResumesAt(Run(s, before[..n]), before[n]) {
      assert ResumesAt(Run(s, es[..n]), es[n]);
    }
  }

  lemma {:induction false} QuarantinedStep(s: System, e: Event)
    requires s.row.status == Some(Quarantined) ==> !e.Elsewhere?
    ensures s.row.status == Some(Quarantined) ==> (Next(s, e).row.status == Some(Quarantined) <==> !ResumesAt(s, e))
  {
  }

  // ------------------------------------------------------------------ the two ways past an infection

  /** What both runs show: one attempt has found malware and reported it, and the row is READY. */
  predicate PublishedInfected(s: System) {
    |s.attempts| == 2 && s.attempts[1].pc == Done(Quarantine) && s.row.status == Some(Ready)
  }

  lemma {:induction false} Extend(s0: System, es: seq<Event>, s: System, e: Event) returns (es': seq<Event>, s': System)
    requires Run(s0, es) == s && WorkersOnly(es) && !e.Elsewhere?
    ensures es' == es + [e] && s' == Next(s, e) && Run(s0, es') == s' && WorkersOnly(es')
    ensures ResumeTakesEffect(s0, es') <==> ResumeTakesEffect(s0, es) || ResumesAt(s, e)
  {
    es', s' := es + [e], Next(s, e);
    assert es'[..|es|] == es;
    ResumeLast(s0, es');
  }

  /** Two attempts begin on a row and each reads its status. */
  lemma {:induction false} TwoBegin(status: Status, job: Job) returns (es: seq<Event>, s: System)
    requires job.scanRequired && status in [Processing, Quarantined]
    ensures var row := Row(Some(status), false, None, None, map[]);
      && Run(Initial(row), es) == s && WorkersOnly(es) && !ResumeTakesEffect(Initial(row), es)
      && s.row == row && s.attempts == [Attempt(job, Scan, Some(status), false, false, 0),
          Attempt(job, Scan, Some(status), false, false, 0)]
  {
    var s0 := Initial(Row(Some(status), false, None, None, map[]));
    es, s := [], s0;
    hide Run, WorkersOnly, ResumeTakesEffect;
    assert Run(s0, es) == s && WorkersOnly(es) && !ResumeTakesEffect(s0, es) by { NothingYet(s0); }
    es, s := Extend(s0, es, s, Begin(job));
    es, s := Extend(s0, es, s, Begin(job));
    es, s := Extend(s0, es, s, Step(0, Returns));
    es, s := Extend(s0, es, s, Step(1, Returns));
  }

  lemma {:induction false} NothingYet(s: System)
    ensures Run(s, []) == s && WorkersOnly([]) && !ResumeTakesEffect(s, [])
  {
  }

  /** One attempt takes its next step, which is no resume. */
  lemma {:induction false} StepOf(s0: System, es: seq<Event>, s: System, i: nat, reply: Reply)
      returns (es': seq<Event>, s': System)
    requires Run(s0, es) == s && WorkersOnly(es) && i < |s.attempts| && !s.attempts[i].pc.Resume?
    ensures es' == es + [Step(i, reply)] && Run(s0, es') == s' && WorkersOnly(es')
    ensures ResumeTakesEffect(s0, es') <==> ResumeTakesEffect(s0, es)
    ensures s'.row == NextRow(s.attempts[i], s.row, reply)
    ensures s'.attempts == s.attempts[i := NextAttempt(s.attempts[i], s.row, reply)]
  {
    hide Run, WorkersOnly, ResumeTakesEffect, NextRow, NextAttempt;
    es', s' := Extend(s0, es, s, Step(i, reply));
  }

  lemma {:induction false} CleanScan(a: Attempt, row: Row)
    requires a.pc.Scan?
    ensures NextAttempt(a, row, ScansClean).pc == if a.began == Some(Quarantined) then Resume else Transform
    ensures NextRow(a, row, ScansClean) == row
  {
  }

  lemma {:induction false} Infected(a: Attempt, row: Row, threat: string)
    requires a.pc.Scan?
    ensures NextAttempt(a, row, ScansInfected(threat)).pc == QuarantineInfected(threat)
    ensures NextRow(a, row, ScansInfected(threat)) == row
  {
  }

  lemma {:induction false} Reported(a: Attempt, row: Row, reason: string)
    requires a.pc.QuarantineInfected?
    ensures NextAttempt(a, row, Returns).pc == Done(Quarantine)
    ensures NextRow(a, row, Returns).status
         == if row.status in [Some(Processing), Some(Quarantined)] then Some(Quarantined) else row.status
    ensures NextAttempt(a, row, Throws(reason)).pc == Diagnose(reason) && NextRow(a, row, Throws(reason)) == row
  {
  }

  lemma {:induction false} Transformed(a: Attempt, row: Row, result: Result)
    requires a.pc.Transform?
    ensures NextAttempt(a, row, Transforms(result)).pc == Commit(result) && NextRow(a, row, Transforms(result)) == row
  {
  }

  /** The claim is no lease: an attempt that finds malware does not stop another one, already past
      its own clean scan of the same quarantined row, from publishing it. */
  lemma {:induction false} InfectionOvertaken(job: Job, result: Result, threat: string) returns (es: seq<Event>)
    requires job.scanRequired && AllNamed(result.variants)
    ensures WorkersOnly(es)
    ensures PublishedInfected(Run(Initial(Row(Some(Quarantined), false, None, None, map[])), es))
  {
    var s;
    es, s := MalwareReported(job, threat);
    hide Run, WorkersOnly, Next, NextAttempt, NextRow, CanGoOn;
    var more := Drive(s, 0, result);
    RunJoin(Initial(Row(Some(Quarantined), false, None, None, map[])), es, more);
    WorkersJoin(es, more);
    es := es + more;
  }

  lemma {:induction false} MalwareReported(job: Job, threat: string) returns (es: seq<Event>, s: System)
    requires job.scanRequired
    ensures Run(Initial(Row(Some(Quarantined), false, None, None, map[])), es) == s && WorkersOnly(es)
    ensures |s.attempts| == 2 && s.attempts[1].pc == Done(Quarantine) && CanGoOn(s.attempts[0], s.row)
  {
    var s0 := Initial(Row(Some(Quarantined), false, None, None, map[]));
    es, s := TwoBegin(Quarantined, job);
    hide Run, WorkersOnly, ResumeTakesEffect, Next, NextAttempt, NextRow, Initial, CanGoOn;
    CleanScan(s.attempts[0], s.row);
    es, s := StepOf(s0, es, s, 0, ScansClean);
    Infected(s.attempts[1], s.row, threat);
    es, s := StepOf(s0, es, s, 1, ScansInfected(threat));
    Reported(s.attempts[1], s.row, "");
    es, s := StepOf(s0, es, s, 1, Returns);
    ResumeGoesOn(s.attempts[0], s.row);
  }

  lemma {:induction false} ResumeGoesOn(a: Attempt, row: Row)
    requires a.pc.Resume? && row.status == Some(Quarantined)
    ensures CanGoOn(a, row)
  {
  }

  lemma {:induction false} WorkersJoin(first: seq<Event>, second: seq<Event>)
    requires WorkersOnly(first) && NoNewcomers(second)
    ensures WorkersOnly(first + second)
  {
  }

  /** On a row in processing attempt 0 scans clean and transforms; then attempt 1 finds malware. */
  lemma {:induction false} ReadyToCommit(job: Job, result: Result, threat: string) returns (es: seq<Event>, s: System)
    requires job.scanRequired && AllNamed(result.variants)
    ensures var s0 := Initial(Row(Some(Processing), false, None, None, map[]));
      Run(s0, es) == s && WorkersOnly(es) && !ResumeTakesEffect(s0, es)
    ensures CanCommit(s.row, result) && |s.attempts| == 2
    ensures s.attempts[0].pc == Commit(result) && s.attempts[1].pc == QuarantineInfected(threat)
  {
    var s0 := Initial(Row(Some(Processing), false, None, None, map[]));
    es, s := TwoBegin(Processing, job);
    hide Run, WorkersOnly, ResumeTakesEffect, Next, NextAttempt, NextRow;
    CleanScan(s.attempts[0], s.row);
    es, s := StepOf(s0, es, s, 0, ScansClean);
    Transformed(s.attempts[0], s.row, result);
    es, s := StepOf(s0, es, s, 0, Transforms(result));
    Infected(s.attempts[1], s.row, threat);
    es, s := StepOf(s0, es, s, 1, ScansInfected(threat));
  }

  /** Nor does it when the quarantine write fails: the row stays in processing, and another attempt past
      its own clean scan commits while the infected one is in its error handler. */
  lemma {:induction false} InfectionUnrecorded(job: Job, result: Result, threat: string, reason: string)
      returns (es: seq<Event>, found: nat)
    requires job.scanRequired && AllNamed(result.variants)
    ensures var s0 := Initial(Row(Some(Processing), false, None, None, map[]));
      && WorkersOnly(es) && !ResumeTakesEffect(s0, es) && found <= |es|
      && |Run(s0, es[..found]).attempts| == 2 && Run(s0, es[..found]).attempts[1].pc == QuarantineInfected(threat)
      && |Run(s0, es).attempts| == 2 && Run(s0, es).attempts[1].pc == Diagnose(reason)
      && Run(s0, es).row.status == Some(Ready)
  {
    var s0 := Initial(Row(Some(Processing), false, None, None, map[]));
    var before, s := ReadyToCommit(job, result, threat);
    hide Run, WorkersOnly, ResumeTakesEffect, Next;
    es, found := before, |before|;
    Reported(s.attempts[1], s.row, reason);
    GoesOn(s.attempts[0], s.row, result);
    hide NextRow, NextAttempt;
    es, s := StepOf(s0, es, s, 1, Throws(reason));
    es, s := StepOf(s0, es, s, 0, Returns);
    assert es[..found] == before;
  }

  /** Nor does it without any quarantine to resume from: the infection may be reported after another
      attempt has published, when its quarantine write matches no row. */
  lemma {:induction false} InfectionTooLate(job: Job, result: Result, threat: string) returns (es: seq<Event>)
    requires job.scanRequired && AllNamed(result.variants)
    ensures var s0 := Initial(Row(Some(Processing), false, None, None, map[]));
      WorkersOnly(es) && PublishedInfected(Run(s0, es)) && !ResumeTakesEffect(s0, es)
  {
    var s0 := Initial(Row(Some(Processing), false, None, None, map[]));
    var s;
    es, s := ReadyToCommit(job, result, threat);
    hide Run, WorkersOnly, ResumeTakesEffect, Next;
    GoesOn(s.attempts[0], s.row, result);
    hide NextRow, NextAttempt;
    es, s := StepOf(s0, es, s, 0, Returns);
    Reported(s.attempts[1], s.row, "");
    es, s := StepOf(s0, es, s, 1, Returns);
  }
}
