/** Leases, attempts and delays of scan jobs: what each transaction of a worker answers and leaves, which of them use up
    an attempt, and how long nobody else gets the job. */
module ScanLeases {
  import opened Wrappers
  import opened AttachmentModel
  import opened ScanFencing

  /** The worker's lease is the latest claim of the job. */
  predicate Leased(a: Attachment, token: int) {
    a.job.Some? && a.job.value.status == Processing && a.job.value.attempts == token
  }

  /** The file is there, not deleted, and waits for a verdict. */
  predicate Scannable(row: Row) {
    row.deletedAt.None? && row.storage == Stored && row.scan in {PendingScan, ScanError}
  }

  // ------------------------------------------------------------ one transaction

  /** A job is claimed exactly when it waits, or its lease is over, and its time has come: one more attempt, a lease
      from now on, and a worker that holds the number of its attempt. */
  lemma ClaimAnswers(cfg: Config, now: Time, a: Attachment)
    requires a.job.Some?
    ensures var job, b, w := a.job.value, ClaimJob(cfg, now, a), a.nextWorker;
            && (job.status in {Pending, Retry, Processing} && job.availableAt <= now ==>
                  && b.job == Some(Job(Processing, job.attempts + 1, now + cfg.scanLease))
                  && b.workers == a.workers[w := Worker(job.attempts + 1, Claimed)]
                  && b.holder == w && b.nextWorker == w + 1
                  && b.row == a.row && b.events == a.events && b.removals == a.removals)
            && (job.status in {JobStatus.Delivered, DeadLetter} || now < job.availableAt ==> b == a)
  {
  }

  /** A start gets through exactly with the lease, a scannable file and an attempt the file has not seen. Without the
      lease, or with a stale attempt, the worker goes; with a file that is not scannable it stays to bury the job. */
  lemma StartAnswers(now: Time, a: Attachment, w: WorkerId)
    requires InPhase(a, w, Claimed)
    ensures var k, b := a.workers[w].token, StartScan(now, a, w);
            && b.job == a.job && b.events == a.events && b.removals == a.removals
            && (Leased(a, k) && Scannable(a.row) && a.row.scanAttempt < k ==>
                  b.row == a.row.(scanAttempt := k, updatedAt := now) && b.workers == a.workers[w := Worker(k, Scanning)])
            && (Leased(a, k) && !Scannable(a.row) ==>
                  b.row == a.row && b.workers == a.workers[w := Worker(k, NotScannable)])
            && (!Leased(a, k) || (Scannable(a.row) && a.row.scanAttempt >= k) ==>
                  b.row == a.row && b.workers == a.workers - {w})
  {
  }

  /** The worker may write: it has the lease, and the file is still the one it started on. */
  predicate MayWrite(a: Attachment, token: int) {
    Leased(a, token) && Scannable(a.row) && a.row.scanAttempt == token
  }

  /** An unavailable store or scanner costs no attempt: the deferral gives it back, on row and job alike, and asks for a
      delay. A worker that may not write just goes. */
  lemma DeferralHandsBack(now: Time, a: Attachment, w: WorkerId, delay: nat)
    requires InPhase(a, w, Scanning)
    ensures var k, b := a.workers[w].token, DeferDependency(now, a, w, delay);
            && b.workers == a.workers - {w} && b.events == a.events && b.removals == a.removals
            && (MayWrite(a, k) ==>
                  && b.job == Some(Job(Retry, k - 1, now + delay))
                  && b.row == a.row.(scan := PendingScan, scanAttempt := k - 1, updatedAt := now))
            && (!MayWrite(a, k) ==> b.row == a.row && b.job == a.job)
  {
  }

  /** A failed scan below the last attempt keeps its attempt and asks for a delay. With the lease but on a file that has
      changed it buries the job. */
  lemma RetryAnswers(cfg: Config, now: Time, q: Request, a: Attachment, w: WorkerId, delay: nat)
    requires InPhase(a, w, Scanning) && a.workers[w].token < cfg.maxAttempts
    ensures var k := a.workers[w].token;
            var (q', b) := RetryOrFail(cfg, now, q, a, w, delay);
            && q' == q && b.workers == a.workers - {w} && b.events == a.events && b.removals == a.removals
            && (MayWrite(a, k) ==>
                  b.job == Some(Job(Retry, k, now + delay)) && b.row == a.row.(scan := PendingScan, updatedAt := now))
            && (Leased(a, k) && !MayWrite(a, k) ==> b.row == a.row && b.job == Some(Job(DeadLetter, k, now)))
            && (!Leased(a, k) ==> b.row == a.row && b.job == a.job)
  {
  }

  /** At the last attempt it ends in SCAN_ERROR with the file kept, its event and a buried job. */
  lemma LastRetryAnswers(cfg: Config, now: Time, q: Request, a: Attachment, w: WorkerId, delay: nat)
    requires InPhase(a, w, Scanning) && a.workers[w].token >= cfg.maxAttempts
    ensures var k := a.workers[w].token;
            var (q', b) := RetryOrFail(cfg, now, q, a, w, delay);
            && b.workers == a.workers - {w} && b.removals == a.removals
            && (MayWrite(a, k) ==>
                  && q' == q.(version := q.version + 1) && b.events == a.events + [ScanFailed(q.version + 1)]
                  && b.row == a.row.(scan := ScanError, updatedAt := now) && b.job == Some(Job(DeadLetter, k, now)))
            && (!MayWrite(a, k) ==> q' == q && b.row == a.row && b.events == a.events)
            && (Leased(a, k) && !MayWrite(a, k) ==> b.job == Some(Job(DeadLetter, k, now)))
            && (!Leased(a, k) ==> b.job == a.job)
  {
  }

  /** A verdict is recorded with its event and the request's next version, and the job delivered. A clean file stays
      STORED; an infected one is condemned, without a deletion time, and its removal begun by this worker's attempt. */
  lemma CompletionAnswers(now: Time, q: Request, a: Attachment, w: WorkerId, verdict: Scan)
    requires InPhase(a, w, Scanning) && verdict in {Clean, Infected, SkippedDevelopment}
    ensures var k := a.workers[w].token;
            var (q', b) := Complete(now, q, a, w, verdict);
            && b.workers == a.workers - {w}
            && (MayWrite(a, k) ==>
                  && q' == q.(version := q.version + 1)
                  && b.events == a.events + [ScanCompleted(verdict, q.version + 1)]
                  && b.job == Some(Job(JobStatus.Delivered, k, now))
                  && b.row.scan == verdict && b.row.deletedAt.None? && b.row.updatedAt == now && b.row.scanAttempt == k
                  && b.row.storage == (if verdict == Infected then DeletePending else Stored)
                  && b.removals == (if verdict == Infected then a.removals[a.nextRemoval := Removal(ByScanner(k), false)]
                                    else a.removals))
            && (!MayWrite(a, k) ==> q' == q && b.row == a.row && b.events == a.events && b.removals == a.removals)
            && (Leased(a, k) && !MayWrite(a, k) ==> b.job == Some(Job(DeadLetter, k, now)))
            && (!Leased(a, k) ==> b.job == a.job)
  {
  }

  /** A worker whose file was not scannable buries the job if it still has the lease. */
  lemma BurialAnswers(now: Time, a: Attachment, w: WorkerId)
    requires InPhase(a, w, NotScannable)
    ensures var k, b := a.workers[w].token, DeadLetterJob(now, a, w);
            && b.row == a.row && b.events == a.events && b.removals == a.removals && b.workers == a.workers - {w}
            && b.job == if Leased(a, k) then Some(Job(DeadLetter, k, now)) else a.job
  {
  }

  /** A reset puts a dead-lettered or retrying job back to attempt zero, at once available, and touches nothing else. */
  lemma ResetAnswers(now: Time, a: Attachment, expected: JobStatus)
    requires a.job.Some?
    ensures ResetJob(now, a, expected)
            == if a.job.value.status == expected && expected in {DeadLetter, Retry}
               then a.(job := Some(Job(Pending, 0, now))) else a
  {
  }

  // ------------------------------------------------------------ whole rounds

  /** The job waits, its file is scannable and has seen no later attempt, and the next worker is a new one. */
  predicate Waits(a: Attachment) {
    && a.job.Some? && a.job.value.status in {Pending, Retry} && a.job.value.attempts >= 0
    && Scannable(a.row) && a.row.scanAttempt <= a.job.value.attempts && a.nextWorker !in a.workers
    && forall w :: w in a.workers ==> w < a.nextWorker
  }

  /** A worker claims the job at `t` and starts. */
  function Started(cfg: Config, t: Time, a: Attachment): Attachment { StartScan(t, ClaimJob(cfg, t, a), a.nextWorker) }

  lemma RoundBegins(cfg: Config, t: Time, a: Attachment)
    requires Waits(a) && a.job.value.availableAt <= t
    ensures var b, k, w := Started(cfg, t, a), a.job.value.attempts + 1, a.nextWorker;
            && InPhase(b, w, Scanning) && b.workers[w].token == k && MayWrite(b, k)
            && b.job == Some(Job(Processing, k, t + cfg.scanLease))
            && b.row == a.row.(scanAttempt := k, updatedAt := t) && b.workers - {w} == a.workers
            && b.nextWorker == w + 1 && b.events == a.events && b.removals == a.removals
  {
    ClaimAnswers(cfg, t, a);
    StartAnswers(t, ClaimJob(cfg, t, a), a.nextWorker);
  }

  /** One round of claim, start and deferral or failure: when it begins, when it ends, and the delay it asks for. */
  datatype Round = Round(begins: Time, ends: Time, delay: nat)

  function Deferred(cfg: Config, a: Attachment, r: Round): Attachment {
    DeferDependency(r.ends, Started(cfg, r.begins, a), a.nextWorker, r.delay)
  }

  function FailedOnce(cfg: Config, q: Request, a: Attachment, r: Round): (Request, Attachment) {
    RetryOrFail(cfg, r.ends, q, Started(cfg, r.begins, a), a.nextWorker, r.delay)
  }

  lemma DeferredRound(cfg: Config, a: Attachment, r: Round)
    requires Waits(a) && a.job.value.availableAt <= r.begins
    ensures var b := Deferred(cfg, a, r);
            && Waits(b) && b.job == Some(Job(Retry, a.job.value.attempts, r.ends + r.delay))
            && b.row.scanAttempt == a.job.value.attempts && b.workers == a.workers
  {
    RoundBegins(cfg, r.begins, a);
    DeferralHandsBack(r.ends, Started(cfg, r.begins, a), a.nextWorker, r.delay);
  }

  /** Each round begins no earlier than the one before it has asked. */
  predicate InTime(available: Time, rounds: seq<Round>)
    decreases |rounds|
  {
    rounds == [] || (available <= rounds[0].begins && InTime(rounds[0].ends + rounds[0].delay, rounds[1..]))
  }

  function AllDeferred(cfg: Config, a: Attachment, rounds: seq<Round>): Attachment
    decreases |rounds|
  {
    if rounds == [] then a else AllDeferred(cfg, Deferred(cfg, a, rounds[0]), rounds[1..])
  }

  /** However often the store or the scanner is unavailable, the job stands at the attempt it stood at, so that no
      number of deferrals brings a file nearer to its last attempt. */
  lemma {:induction false} DeferralsAreFree(cfg: Config, a: Attachment, rounds: seq<Round>)
    requires Waits(a) && InTime(a.job.value.availableAt, rounds)
    ensures var b := AllDeferred(cfg, a, rounds);
            && Waits(b) && b.job.value.attempts == a.job.value.attempts && b.workers == a.workers
            && b.events == a.events && b.row.storage == Stored
    decreases |rounds|
  {
    if rounds != [] {
      DeferredRound(cfg, a, rounds[0]);
      RoundBegins(cfg, rounds[0].begins, a);
      DeferralHandsBack(rounds[0].ends, Started(cfg, rounds[0].begins, a), a.nextWorker, rounds[0].delay);
      DeferralsAreFree(cfg, Deferred(cfg, a, rounds[0]), rounds[1..]);
    }
  }

  lemma FailedRound(cfg: Config, q: Request, a: Attachment, r: Round)
    requires Waits(a) && a.job.value.availableAt <= r.begins && a.job.value.attempts + 1 < cfg.maxAttempts
    ensures var (q', b) := FailedOnce(cfg, q, a, r);
            && q' == q && Waits(b) && b.job == Some(Job(Retry, a.job.value.attempts + 1, r.ends + r.delay))
            && b.workers == a.workers && b.events == a.events
  {
    RoundBegins(cfg, r.begins, a);
    RetryAnswers(cfg, r.ends, q, Started(cfg, r.begins, a), a.nextWorker, r.delay);
  }

  function AllFailed(cfg: Config, q: Request, a: Attachment, rounds: seq<Round>): (Request, Attachment)
    decreases |rounds|
  {
    if rounds == [] then (q, a)
    else
      var (q', b) := FailedOnce(cfg, q, a, rounds[0]);
      AllFailed(cfg, q', b, rounds[1..])
  }

  /** Failures count: every one below the last attempt costs one, and the request hears nothing. */
  lemma {:induction false} FailuresAreCounted(cfg: Config, q: Request, a: Attachment, rounds: seq<Round>)
    requires Waits(a) && InTime(a.job.value.availableAt, rounds) && a.job.value.attempts + |rounds| < cfg.maxAttempts
    ensures var (q', b) := AllFailed(cfg, q, a, rounds);
            && q' == q && Waits(b) && b.job.value.attempts == a.job.value.attempts + |rounds|
            && b.workers == a.workers && b.events == a.events
            && b.job.value.availableAt
               == (if rounds == [] then a.job.value.availableAt
                   else rounds[|rounds| - 1].ends + rounds[|rounds| - 1].delay)
    decreases |rounds|
  {
    if rounds != [] {
      FailedRound(cfg, q, a, rounds[0]);
      FailuresAreCounted(cfg, q, FailedOnce(cfg, q, a, rounds[0]).1, rounds[1..]);
    }
  }

  /** The failure at the last attempt is the end: SCAN_ERROR, told to the request, and a buried job. */
  lemma LastRound(cfg: Config, q: Request, a: Attachment, r: Round)
    requires Waits(a) && a.job.value.availableAt <= r.begins && a.job.value.attempts + 1 >= cfg.maxAttempts
    ensures var (q', b) := FailedOnce(cfg, q, a, r);
            && q' == q.(version := q.version + 1) && b.row.scan == ScanError && b.row.storage == Stored
            && b.job == Some(Job(DeadLetter, a.job.value.attempts + 1, r.ends))
            && b.events == a.events + [ScanFailed(q.version + 1)]
  {
    RoundBegins(cfg, r.begins, a);
    LastRetryAnswers(cfg, r.ends, q, Started(cfg, r.begins, a), a.nextWorker, r.delay);
  }

  function Availability(a: Attachment): Time { if a.job.Some? then a.job.value.availableAt else 0 }

  /** So a file fails for good at its `maxAttempts`-th failure and not before. */
  lemma TheLastFailureIsFinal(cfg: Config, q: Request, a: Attachment, rounds: seq<Round>, last: Round)
    requires Waits(a) && InTime(a.job.value.availableAt, rounds) && a.job.value.attempts + |rounds| + 1 == cfg.maxAttempts
    requires last.begins >= Availability(AllFailed(cfg, q, a, rounds).1)
    ensures var (q1, a1) := AllFailed(cfg, q, a, rounds);
            var (q2, b) := FailedOnce(cfg, q1, a1, last);
            && q1 == q && Waits(a1) && a1.events == a.events
            && q2.version == q.version + 1 && b.row.scan == ScanError
            && b.job == Some(Job(DeadLetter, cfg.maxAttempts, last.ends))
            && b.events == a.events + [ScanFailed(q.version + 1)]
  {
    FailuresAreCounted(cfg, q, a, rounds);
    LastRound(cfg, q, AllFailed(cfg, q, a, rounds).1, last);
  }

  // ------------------------------------------------------------ nobody else in between

  /** No step of the run is one of worker `w` on attachment `id`. */
  predicate Idle(steps: seq<Step>, id: AttachmentId, w: WorkerId) {
    forall i :: 0 <= i < |steps| && steps[i].Acting? && steps[i].id == id ==> !StepOf(steps[i].step, w)
  }

  predicate JobStep(step: LocalStep) {
    step.ClaimingJob? || step.Starting? || step.Burying? || step.Completing? || step.Retrying? || step.Deferring?
    || step.Resetting?
  }

  lemma OtherStepsLeaveTheJob(cfg: Config, now: Time, q: Request, a: Attachment, step: LocalStep)
    requires a.job.Some? && !JobStep(step)
    ensures var b := Local(cfg, now, q, a, step).1;
            b.job == a.job && b.nextWorker == a.nextWorker && b.holder == a.holder
  {
  }

  lemma WorkersLeaveTheJob(cfg: Config, now: Time, q: Request, a: Attachment, step: LocalStep, w: WorkerId, floor: nat)
    requires FencedFrom(a, floor) && a.job.Some? && StepOf(step, w) && w != a.holder
    ensures var b := Local(cfg, now, q, a, step).1;
            b.job == a.job && b.nextWorker == a.nextWorker && b.holder == a.holder
  {
    if w in a.workers { StaleWorkersWriteNothing(cfg, now, q, a, w, step, floor); }
  }

  lemma EarlyLocally(cfg: Config, now: Time, q: Request, a: Attachment, step: LocalStep, floor: nat)
    requires FencedFrom(a, floor) && a.job.Some? && now < a.job.value.availableAt
    requires !step.Resetting? && !StepOf(step, a.holder)
    ensures var b := Local(cfg, now, q, a, step).1;
            b.job == a.job && b.nextWorker == a.nextWorker && b.holder == a.holder
  {
    match step
    case Starting(w) => WorkersLeaveTheJob(cfg, now, q, a, step, w, floor);
    case Burying(w) => WorkersLeaveTheJob(cfg, now, q, a, step, w, floor);
    case Completing(w, _) => WorkersLeaveTheJob(cfg, now, q, a, step, w, floor);
    case Retrying(w, _) => WorkersLeaveTheJob(cfg, now, q, a, step, w, floor);
    case Deferring(w, _) => WorkersLeaveTheJob(cfg, now, q, a, step, w, floor);
    case ClaimingJob => ClaimAnswers(cfg, now, a);
    case _ => OtherStepsLeaveTheJob(cfg, now, q, a, step);
  }

  lemma ClockGoesOn(s: System, step: Step)
    ensures s.now <= Next(s, step).now && Next(s, step).cfg == s.cfg
  {
  }

  lemma {:induction false} ClockRuns(s: System, steps: seq<Step>)
    ensures s.now <= Run(s, steps).now
    decreases |steps|
  {
    if steps != [] {
      ClockGoesOn(s, steps[0]);
      ClockRuns(Next(s, steps[0]), steps[1..]);
    }
  }

  /** The job of `id` and its latest claim are as they were. */
  predicate SameLease(s: System, t: System, id: AttachmentId)
    requires id in s.attachments
  {
    && id in t.attachments && t.attachments[id].job == s.attachments[id].job
    && t.attachments[id].nextWorker == s.attachments[id].nextWorker && t.attachments[id].holder == s.attachments[id].holder
  }

  lemma EarlyStep(s: System, step: Step, id: AttachmentId, floors: Floors)
    requires AllFenced(s, floors) && id in s.attachments && s.attachments[id].job.Some?
    requires s.now < s.attachments[id].job.value.availableAt && !Resets(step)
    requires step.Acting? && step.id == id ==> !StepOf(step.step, s.attachments[id].holder)
    ensures SameLease(s, Next(s, step), id)
  {
    RowsRemain(s, step, id);
    StepIsLocal(s, step, id);
    if Effect(s, step, id).Some? {
      var a := s.attachments[id];
      EarlyLocally(s.cfg, s.now, s.requests[a.row.request], a, Effect(s, step, id).value, Floor(floors, id));
    }
  }

  lemma RowsRemain(s: System, step: Step, id: AttachmentId)
    requires id in s.attachments
    ensures id in Next(s, step).attachments
  {
  }

  /** Until its lease or its delay is over nobody gets a job: in every run without an operator reset that ends before
      that time, and in which the worker of the latest claim does nothing, the job stays with that claim and no worker
      is added, whatever other workers and everybody else do. */
  lemma {:induction false} NobodyClaimsEarly(s: System, steps: seq<Step>, id: AttachmentId, floors: Floors)
    requires AllFenced(s, floors) && NoReset(steps) && id in s.attachments && s.attachments[id].job.Some?
    requires Run(s, steps).now < s.attachments[id].job.value.availableAt && Idle(steps, id, s.attachments[id].holder)
    ensures SameLease(s, Run(s, steps), id)
    decreases |steps|
  {
    if steps != [] {
      ClockRuns(Next(s, steps[0]), steps[1..]);
      ClockGoesOn(s, steps[0]);
      assert !Resets(steps[0]);
      EarlyStep(s, steps[0], id, floors);
      NoResetIsQuiet(s, [steps[0]], floors);
      FencedNext(s, steps[0], floors);
      NobodyClaimsEarly(Next(s, steps[0]), steps[1..], id, LiftedFloors(s, steps[0], floors));
    }
  }
}
