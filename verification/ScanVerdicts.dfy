/** Scan verdicts: a delivered job, its verdict and its completion event always come together, and stay. */
module ScanVerdicts {
  import opened Wrappers
  import opened AttachmentModel
  import opened ObjectLifecycle

  /** The completion events of a log, in order. */
  function Completions(events: seq<Event>): (done: seq<Event>) {
    if events == [] then []
    else
      var last := events[|events| - 1];
      Completions(events[..|events| - 1]) + if last.ScanCompleted? then [last] else []
  }

  lemma CompletionsAppend(events: seq<Event>, e: Event)
    ensures Completions(events + [e]) == Completions(events) + if e.ScanCompleted? then [e] else []
  {
    assert (events + [e])[..|events|] == events;
  }

  /** The job is DELIVERED exactly when the attachment carries a verdict, and then the log holds exactly one
      completion event, with that verdict. */
  ghost predicate VerdictOk(scan: Scan, job: Option<Job>, done: seq<Event>) {
    if job.None? then
      scan in {NotRequired, SkippedDevelopment, SkippedByAdmin} && done == []
    else
      && scan !in {NotRequired, SkippedByAdmin}
      && (job.value.status == JobStatus.Delivered <==> Verdict(scan))
      && (if Verdict(scan) then |done| == 1 && done[0].ScanCompleted? && done[0].verdict == scan else done == [])
  }

  ghost predicate Settled(a: Attachment) {
    VerdictOk(a.row.scan, a.job, Completions(a.events))
  }

  /** A log that grows by something other than a completion, or not at all. */
  ghost predicate Noted(a: seq<Event>, b: seq<Event>) {
    b == a || exists e: Event :: !e.ScanCompleted? && b == a + [e]
  }

  lemma NotedKeepsCompletions(a: seq<Event>, b: seq<Event>)
    requires Noted(a, b)
    ensures Completions(b) == Completions(a)
  {
    if b != a {
      var e: Event :| !e.ScanCompleted? && b == a + [e];
      CompletionsAppend(a, e);
    }
  }

  lemma FinalizationNotes(now: Time, q: Request, a: Attachment, policy: Scan, ackLost: bool)
    requires StorageOk(a) && (a.job.None? ==> a.row.scan in {NotRequired, SkippedDevelopment, SkippedByAdmin})
    ensures var b := Finalize(now, q, a, policy, ackLost).1;
            && Noted(a.events, b.events)
            && ((b.job == a.job && b.row.scan == a.row.scan)
                || (a.job.None? && b.job.None? && b.row.scan in {SkippedDevelopment, SkippedByAdmin})
                || (a.job.None? && b.job == Some(Job(Pending, 0, now)) && b.row.scan == PendingScan))
  {
    assert !AttachmentAdded(q.version + 1).ScanCompleted?;
  }

  lemma FinalizationKeepsVerdict(now: Time, q: Request, a: Attachment, policy: Scan, ackLost: bool)
    requires Settled(a) && StorageOk(a)
    ensures Settled(Finalize(now, q, a, policy, ackLost).1)
  {
    FinalizationNotes(now, q, a, policy, ackLost);
    NotedKeepsCompletions(a.events, Finalize(now, q, a, policy, ackLost).1.events);
  }

  lemma UploadKeepsVerdict(cfg: Config, now: Time, q: Request, a: Attachment, step: LocalStep)
    requires Settled(a) && StorageOk(a)
    requires step.PutLanding? || step.PutVanishing? || step.PutFailing? || step.Finalizing? || step.MarkingFailed?
    ensures Settled(Local(cfg, now, q, a, step).1)
  {
    if step.Finalizing? { FinalizationKeepsVerdict(now, q, a, step.policy, step.ackLost); }
  }

  lemma DeletionNotes(now: Time, q: Request, a: Attachment)
    requires DeleteTx(now, q, a).Ok?
    ensures var b := DeleteTx(now, q, a).value.1;
            Noted(a.events, b.events) && b.job == a.job && b.row.scan == a.row.scan
  {
    assert !AttachmentRemoved(q.version + 1).ScanCompleted?;
  }

  lemma DeleteKeepsVerdict(now: Time, q: Request, a: Attachment)
    requires Settled(a) && DeleteTx(now, q, a).Ok?
    ensures Settled(DeleteTx(now, q, a).value.1)
  {
    DeletionNotes(now, q, a);
    NotedKeepsCompletions(a.events, DeleteTx(now, q, a).value.1.events);
  }

  lemma RemovalKeepsVerdict(cfg: Config, now: Time, q: Request, a: Attachment, step: LocalStep)
    requires Settled(a)
    requires step.Reconciling? || step.Removing? || step.FinishingRemoval?
    ensures Settled(Local(cfg, now, q, a, step).1)
  {
  }

  predicate IsDelivered(job: Option<Job>) { job.Some? && job.value.status == JobStatus.Delivered }

  /** What a worker's other transactions can do: the log stays, and an unfinished job and scan stay unfinished. */
  ghost predicate Unfinished(a: Attachment, b: Attachment) {
    && b.events == a.events && b.job.Some? == a.job.Some? && IsDelivered(b.job) == IsDelivered(a.job)
    && (b.row.scan == a.row.scan || (a.job.Some? && AwaitingScan(a.row) && b.row.scan == PendingScan))
  }

  lemma ClaimAndStartLeaveVerdict(cfg: Config, now: Time, a: Attachment, w: WorkerId)
    ensures Unfinished(a, ClaimJob(cfg, now, a)) && Unfinished(a, StartScan(now, a, w))
  {
  }

  lemma BuryLeavesVerdict(now: Time, a: Attachment, w: WorkerId)
    ensures Unfinished(a, DeadLetterJob(now, a, w))
  {
  }

  lemma DeferLeavesVerdict(now: Time, a: Attachment, w: WorkerId, delay: nat)
    ensures Unfinished(a, DeferDependency(now, a, w, delay))
  {
  }

  lemma ResetLeavesVerdict(now: Time, a: Attachment, expected: JobStatus)
    ensures Unfinished(a, ResetJob(now, a, expected))
  {
  }

  lemma UnfinishedKeepsVerdict(a: Attachment, b: Attachment)
    requires Settled(a) && Unfinished(a, b)
    ensures Settled(b)
  {
  }

  lemma WorkerKeepsVerdict(cfg: Config, now: Time, q: Request, a: Attachment, step: LocalStep)
    requires Settled(a)
    requires step.ClaimingJob? || step.Starting? || step.Burying? || step.Deferring? || step.Resetting?
    ensures Settled(Local(cfg, now, q, a, step).1)
  {
    match step
    case ClaimingJob => ClaimAndStartLeaveVerdict(cfg, now, a, 0);
    case Starting(w) => ClaimAndStartLeaveVerdict(cfg, now, a, w);
    case Burying(w) => BuryLeavesVerdict(now, a, w);
    case Deferring(w, delay) => DeferLeavesVerdict(now, a, w, delay);
    case Resetting(expected) => ResetLeavesVerdict(now, a, expected);
    UnfinishedKeepsVerdict(a, Local(cfg, now, q, a, step).1);
  }

  /** A verdict, or a failure, on an unfinished scan. */
  lemma FinishedVerdict(scan: Scan, job: Job, done: seq<Event>, job': Job, verdict: Scan, e: Event)
    requires VerdictOk(scan, Some(job), done) && (scan == PendingScan || scan == ScanError)
    requires if verdict == ScanError then job'.status == DeadLetter && e.ScanFailed?
             else Verdict(verdict) && job'.status == JobStatus.Delivered && e.ScanCompleted? && e.verdict == verdict
    ensures VerdictOk(verdict, Some(job'), done + if e.ScanCompleted? then [e] else [])
  {
    assert done == [];
  }

  lemma TerminalKeepsVerdict(now: Time, q: Request, a: Attachment, token: int, verdict: Scan)
    requires Settled(a) && (Verdict(verdict) || verdict == ScanError)
    ensures Settled(FinishTerminal(now, q, a, token, verdict).1)
  {
    var (_, b, applied) := FinishTerminal(now, q, a, token, verdict);
    if applied {
      var e := b.events[|a.events|];
      assert b.events == a.events + [e];
      CompletionsAppend(a.events, e);
      FinishedVerdict(a.row.scan, a.job.value, Completions(a.events), b.job.value, verdict, e);
    } else {
      UnfinishedKeepsVerdict(a, b);
    }
  }

  lemma RetryKeepsVerdict(cfg: Config, now: Time, q: Request, a: Attachment, w: WorkerId, delay: nat)
    requires Settled(a) && InPhase(a, w, Scanning)
    ensures Settled(RetryOrFail(cfg, now, q, a, w, delay).1)
  {
    var token := a.workers[w].token;
    if token >= cfg.maxAttempts {
      TerminalKeepsVerdict(now, q, a, token, ScanError);
    } else {
      assert RetryOrFail(cfg, now, q, a, w, delay).1.events == a.events;
    }
  }

  lemma VerdictStep(cfg: Config, now: Time, q: Request, a: Attachment, step: LocalStep)
    requires Settled(a) && StorageOk(a)
    ensures Settled(Local(cfg, now, q, a, step).1)
  {
    match step
    case Completing(w, verdict) =>
      if InPhase(a, w, Scanning) && Verdict(verdict) {
        TerminalKeepsVerdict(now, q, a, a.workers[w].token, verdict);
      }
    case Retrying(w, delay) => if InPhase(a, w, Scanning) { RetryKeepsVerdict(cfg, now, q, a, w, delay); }
    case ClaimingJob => WorkerKeepsVerdict(cfg, now, q, a, step);
    case Starting(_) => WorkerKeepsVerdict(cfg, now, q, a, step);
    case Burying(_) => WorkerKeepsVerdict(cfg, now, q, a, step);
    case Deferring(_, _) => WorkerKeepsVerdict(cfg, now, q, a, step);
    case Resetting(_) => WorkerKeepsVerdict(cfg, now, q, a, step);
    case Deleting => if DeleteTx(now, q, a).Ok? { DeleteKeepsVerdict(now, q, a); }
    case Reconciling => RemovalKeepsVerdict(cfg, now, q, a, step);
    case Removing(_) => RemovalKeepsVerdict(cfg, now, q, a, step);
    case FinishingRemoval(_) => RemovalKeepsVerdict(cfg, now, q, a, step);
    case _ => UploadKeepsVerdict(cfg, now, q, a, step);
  }

  /** A terminal commit bumps the request version by exactly one, records that version, and passes the fence; a
      terminal transaction that does not apply leaves request, row and log alone. */
  lemma TerminalCommit(now: Time, q: Request, a: Attachment, token: int, verdict: Scan)
    requires Verdict(verdict) || verdict == ScanError
    ensures var (q', b, applied) := FinishTerminal(now, q, a, token, verdict);
            if applied then
              && Holds(a, token) && AwaitingScan(a.row) && a.row.scanAttempt == token
              && q' == q.(version := q.version + 1) && |b.events| == |a.events| + 1 && a.events <= b.events
              && b.events[|a.events|].version == q'.version && b.row.scan == verdict
              && b.job.value.status == (if Verdict(verdict) then JobStatus.Delivered else DeadLetter)
            else q' == q && b.row == a.row && b.events == a.events
  {
  }

  predicate Delivered(a: Attachment) {
    a.job.Some? && a.job.value.status == JobStatus.Delivered
  }

  ghost predicate SameVerdict(a: Attachment, b: Attachment) {
    b.job == a.job && b.row.scan == a.row.scan && Completions(b.events) == Completions(a.events)
  }

  lemma DeliveredIgnoresWorkers(cfg: Config, now: Time, q: Request, a: Attachment, step: LocalStep)
    requires Delivered(a)
    requires step.ClaimingJob? || step.Starting? || step.Burying? || step.Completing? || step.Retrying?
             || step.Deferring? || step.Resetting?
    ensures var b := Local(cfg, now, q, a, step).1; b.job == a.job && b.row == a.row && b.events == a.events
  {
  }

  lemma DeliveredIgnoresUploads(cfg: Config, now: Time, q: Request, a: Attachment, step: LocalStep)
    requires StorageOk(a) && Delivered(a)
    requires step.PutLanding? || step.PutVanishing? || step.PutFailing? || step.Finalizing? || step.MarkingFailed?
    ensures var b := Local(cfg, now, q, a, step).1; b.job == a.job && b.row == a.row && b.events == a.events
  {
  }

  lemma RemovalLeavesVerdict(cfg: Config, now: Time, q: Request, a: Attachment, step: LocalStep)
    requires step.Deleting? || step.Reconciling? || step.Removing? || step.FinishingRemoval?
    ensures var b := Local(cfg, now, q, a, step).1;
            && b.job == a.job && b.row.scan == a.row.scan
            && (b.events == a.events || b.events == a.events + [AttachmentRemoved(q.version + 1)])
  {
  }

  /** Once a job is delivered no step changes its status, the verdict, or the completion event. */
  lemma DeliveredIsFinal(cfg: Config, now: Time, q: Request, a: Attachment, step: LocalStep)
    requires Settled(a) && StorageOk(a) && Delivered(a)
    ensures SameVerdict(a, Local(cfg, now, q, a, step).1)
  {
    if step.ClaimingJob? || step.Starting? || step.Burying? || step.Completing? || step.Retrying? || step.Deferring?
       || step.Resetting? {
      DeliveredIgnoresWorkers(cfg, now, q, a, step);
    } else if step.Deleting? || step.Reconciling? || step.Removing? || step.FinishingRemoval? {
      RemovalLeavesVerdict(cfg, now, q, a, step);
      CompletionsAppend(a.events, AttachmentRemoved(q.version + 1));
    } else {
      DeliveredIgnoresUploads(cfg, now, q, a, step);
    }
  }

  // ------------------------------------------------------------ whole runs

  ghost predicate AllSettled(s: System) {
    AllStorageOk(s) && forall id :: id in s.attachments ==> Settled(s.attachments[id])
  }

  lemma SettledNext(s: System, step: Step)
    requires AllSettled(s)
    ensures AllSettled(Next(s, step))
  {
    StorageNext(s, step);
    forall id | id in Next(s, step).attachments ensures Settled(Next(s, step).attachments[id]) {
      StepIsLocal(s, step, id);
      if id in s.attachments && Effect(s, step, id).Some? {
        var a := s.attachments[id];
        VerdictStep(s.cfg, s.now, s.requests[a.row.request], a, Effect(s, step, id).value);
      }
    }
  }

  /** In every run, operator resets and stale workers included, every attachment's job, verdict and completion event
      agree. */
  lemma {:induction false} DeliveredIffVerdict(s: System, steps: seq<Step>)
    requires AllSettled(s)
    ensures AllSettled(Run(s, steps))
    decreases |steps|
  {
    if steps != [] {
      SettledNext(s, steps[0]);
      DeliveredIffVerdict(Next(s, steps[0]), steps[1..]);
    }
  }

  lemma InitiallySettled(s: System)
    requires Initial(s)
    ensures AllSettled(s)
  {
  }

  /** A verdict, once delivered, is the verdict in every continuation. */
  lemma {:induction false} VerdictsNeverChange(s: System, steps: seq<Step>, id: AttachmentId)
    requires AllSettled(s) && id in s.attachments && Delivered(s.attachments[id])
    ensures id in Run(s, steps).attachments && SameVerdict(s.attachments[id], Run(s, steps).attachments[id])
    decreases |steps|
  {
    if steps != [] {
      var step := steps[0];
      RowNext(s, step, id);
      StepIsLocal(s, step, id);
      if Effect(s, step, id).Some? {
        var a := s.attachments[id];
        DeliveredIsFinal(s.cfg, s.now, s.requests[a.row.request], a, Effect(s, step, id).value);
      }
      SettledNext(s, step);
      VerdictsNeverChange(Next(s, step), steps[1..], id);
    }
  }
}
