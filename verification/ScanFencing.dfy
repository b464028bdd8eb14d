/** Scan leases: which worker may still write, and what a delivered job means. */
module ScanFencing {
  import opened Wrappers
  import opened AttachmentModel

  // ------------------------------------------------------- the fencing token

  predicate Current(job: Job, token: int) {
    job.status == Processing && job.attempts == token
  }

  function Max(a: int, b: int): int { if a < b then b else a }

  /** One live worker. Its token is at most the job's attempt count; if it passes the fence it is the latest claimant.
      `floor` is the attempt the attachment had already seen when the job's count last restarted from zero, and 0 on a
      job that was never re-queued: up to the floor no worker scans, and past it a claimant that has not started yet is
      ahead of the attachment. */
  predicate WorkerOk(job: Job, scanAttempt: int, w: WorkerId, k: Worker, holder: WorkerId, next: WorkerId, floor: nat) {
    && w < next && 1 <= k.token <= job.attempts
    && (k.token <= floor ==> k.phase != Scanning)
    && (Current(job, k.token) ==> w == holder && (k.phase == Claimed && floor < k.token ==> scanAttempt < k.token))
  }

  ghost predicate DistinctTokens(workers: map<WorkerId, Worker>) {
    forall v, w :: v in workers && w in workers && workers[v].token == workers[w].token ==> v == w
  }

  /** Live workers are as they should be and hold distinct tokens, and past the floor the attachment's attempt count
      never passes the job's. */
  ghost predicate LeaseOk(job: Job, scanAttempt: int, workers: map<WorkerId, Worker>, holder: WorkerId, next: WorkerId,
                          floor: nat)
  {
    && 0 <= job.attempts && floor <= scanAttempt <= Max(floor, job.attempts)
    && (forall w :: w in workers ==> WorkerOk(job, scanAttempt, w, workers[w], holder, next, floor))
    && DistinctTokens(workers)
  }

  ghost predicate FencedFrom(a: Attachment, floor: nat) {
    if a.job.None? then a.workers == map[] && a.row.scanAttempt == 0 && floor == 0
    else LeaseOk(a.job.value, a.row.scanAttempt, a.workers, a.holder, a.nextWorker, floor)
  }

  /** The fence of a job that was never re-queued: the attachment's attempt count never passes the job's. */
  ghost predicate Fenced(a: Attachment) { FencedFrom(a, 0) }

  lemma Claims(job: Job, scanAttempt: int, workers: map<WorkerId, Worker>, holder: WorkerId, next: WorkerId, at: Time,
               floor: nat)
    requires LeaseOk(job, scanAttempt, workers, holder, next, floor)
    ensures LeaseOk(Job(Processing, job.attempts + 1, at), scanAttempt,
                    workers[next := Worker(job.attempts + 1, Claimed)], next, next + 1, floor)
  {
  }

  /** The worker passes the fence and starts: the attachment catches up with its token. */
  lemma Starts(job: Job, scanAttempt: int, workers: map<WorkerId, Worker>, holder: WorkerId, next: WorkerId, w: WorkerId,
               floor: nat)
    requires LeaseOk(job, scanAttempt, workers, holder, next, floor) && w in workers && Current(job, workers[w].token)
    ensures scanAttempt < workers[w].token ==>
              LeaseOk(job, workers[w].token, workers[w := Worker(workers[w].token, Scanning)], holder, next, floor)
    ensures LeaseOk(job, scanAttempt, workers[w := Worker(workers[w].token, NotScannable)], holder, next, floor)
  {
  }

  lemma Leaves(job: Job, scanAttempt: int, workers: map<WorkerId, Worker>, holder: WorkerId, next: WorkerId, w: WorkerId,
               floor: nat)
    requires LeaseOk(job, scanAttempt, workers, holder, next, floor)
    ensures LeaseOk(job, scanAttempt, workers - {w}, holder, next, floor)
  {
  }

  lemma Stops(job: Job, scanAttempt: int, workers: map<WorkerId, Worker>, holder: WorkerId, next: WorkerId, job': Job,
              floor: nat)
    requires LeaseOk(job, scanAttempt, workers, holder, next, floor)
    requires job'.attempts == job.attempts && job'.status != Processing
    ensures LeaseOk(job', scanAttempt, workers, holder, next, floor)
  {
  }

  /** A deferral hands the token back. The stale workers stay below it because tokens are distinct. */
  lemma HandsBack(job: Job, workers: map<WorkerId, Worker>, holder: WorkerId, next: WorkerId, w: WorkerId, at: Time,
                  floor: nat)
    requires w in workers && LeaseOk(job, workers[w].token, workers, holder, next, floor)
    requires Current(job, workers[w].token) && workers[w].phase == Scanning
    ensures LeaseOk(Job(Retry, job.attempts - 1, at), job.attempts - 1, workers - {w}, holder, next, floor)
  {
  }

  lemma ClaimKeepsFence(cfg: Config, now: Time, a: Attachment, floor: nat)
    requires FencedFrom(a, floor)
    ensures FencedFrom(ClaimJob(cfg, now, a), floor)
  {
    if a.job.Some? {
      Claims(a.job.value, a.row.scanAttempt, a.workers, a.holder, a.nextWorker, now + cfg.scanLease, floor);
    }
  }

  lemma StartKeepsFence(now: Time, a: Attachment, w: WorkerId, floor: nat)
    requires FencedFrom(a, floor)
    ensures FencedFrom(StartScan(now, a, w), floor)
  {
    if InPhase(a, w, Claimed) {
      var job := a.job.value;
      if Holds(a, a.workers[w].token) { Starts(job, a.row.scanAttempt, a.workers, a.holder, a.nextWorker, w, floor); }
      Leaves(job, a.row.scanAttempt, a.workers, a.holder, a.nextWorker, w, floor);
    }
  }

  /** A worker that returns with its job taken out of PROCESSING, or with its job untouched. */
  lemma ReturnKeepsFence(a: Attachment, w: WorkerId, b: Attachment, floor: nat)
    requires FencedFrom(a, floor) && w in a.workers && a.job.Some? && b.job.Some?
    requires b.workers == a.workers - {w} && b.holder == a.holder && b.nextWorker == a.nextWorker
    requires b.row.scanAttempt == a.row.scanAttempt
    requires b.job == a.job || (b.job.value.status != Processing && b.job.value.attempts == a.job.value.attempts)
    ensures FencedFrom(b, floor)
  {
    Leaves(a.job.value, a.row.scanAttempt, a.workers, a.holder, a.nextWorker, w, floor);
    if b.job != a.job {
      Stops(a.job.value, a.row.scanAttempt, b.workers, a.holder, a.nextWorker, b.job.value, floor);
    }
  }

  lemma BuryKeepsFence(now: Time, a: Attachment, w: WorkerId, floor: nat)
    requires FencedFrom(a, floor) && InPhase(a, w, NotScannable)
    ensures FencedFrom(DeadLetterJob(now, a, w), floor)
  {
    ReturnKeepsFence(a, w, DeadLetterJob(now, a, w), floor);
  }

  lemma CompleteKeepsFence(now: Time, q: Request, a: Attachment, w: WorkerId, verdict: Scan, floor: nat)
    requires FencedFrom(a, floor) && InPhase(a, w, Scanning) && Verdict(verdict)
    ensures FencedFrom(Complete(now, q, a, w, verdict).1, floor)
  {
    ReturnKeepsFence(a, w, Complete(now, q, a, w, verdict).1, floor);
  }

  lemma RetryKeepsFence(cfg: Config, now: Time, q: Request, a: Attachment, w: WorkerId, delay: nat, floor: nat)
    requires FencedFrom(a, floor) && InPhase(a, w, Scanning)
    ensures FencedFrom(RetryOrFail(cfg, now, q, a, w, delay).1, floor)
  {
    ReturnKeepsFence(a, w, RetryOrFail(cfg, now, q, a, w, delay).1, floor);
  }

  lemma DeferKeepsFence(now: Time, a: Attachment, w: WorkerId, delay: nat, floor: nat)
    requires FencedFrom(a, floor) && InPhase(a, w, Scanning)
    ensures FencedFrom(DeferDependency(now, a, w, delay), floor)
  {
    var b := DeferDependency(now, a, w, delay);
    if b.row == a.row {
      ReturnKeepsFence(a, w, b, floor);
    } else {
      HandsBack(a.job.value, a.workers, a.holder, a.nextWorker, w, now + delay, floor);
    }
  }

  lemma UploadKeepsFence(cfg: Config, now: Time, q: Request, a: Attachment, step: LocalStep, floor: nat)
    requires FencedFrom(a, floor)
    requires step.PutLanding? || step.PutVanishing? || step.PutFailing? || step.Finalizing? || step.MarkingFailed?
    ensures FencedFrom(Local(cfg, now, q, a, step).1, floor)
  {
  }

  lemma RemovalKeepsFence(cfg: Config, now: Time, q: Request, a: Attachment, step: LocalStep, floor: nat)
    requires FencedFrom(a, floor)
    requires step.Deleting? || step.Reconciling? || step.Removing? || step.FinishingRemoval?
    ensures FencedFrom(Local(cfg, now, q, a, step).1, floor)
  {
    var b := Local(cfg, now, q, a, step).1;
    assert b.job == a.job && b.workers == a.workers && b.holder == a.holder && b.nextWorker == a.nextWorker;
    assert b.row.scanAttempt == a.row.scanAttempt;
  }

  lemma FenceStep(cfg: Config, now: Time, q: Request, a: Attachment, step: LocalStep, floor: nat)
    requires FencedFrom(a, floor) && !step.Resetting?
    ensures FencedFrom(Local(cfg, now, q, a, step).1, floor)
  {
    match step
    case ClaimingJob => ClaimKeepsFence(cfg, now, a, floor);
    case Starting(w) => StartKeepsFence(now, a, w, floor);
    case Burying(w) => if InPhase(a, w, NotScannable) { BuryKeepsFence(now, a, w, floor); }
    case Completing(w, verdict) =>
      if InPhase(a, w, Scanning) && Verdict(verdict) { CompleteKeepsFence(now, q, a, w, verdict, floor); }
    case Retrying(w, delay) => if InPhase(a, w, Scanning) { RetryKeepsFence(cfg, now, q, a, w, delay, floor); }
    case Deferring(w, delay) => if InPhase(a, w, Scanning) { DeferKeepsFence(now, a, w, delay, floor); }
    case Deleting => RemovalKeepsFence(cfg, now, q, a, step, floor);
    case Reconciling => RemovalKeepsFence(cfg, now, q, a, step, floor);
    case Removing(_) => RemovalKeepsFence(cfg, now, q, a, step, floor);
    case FinishingRemoval(_) => RemovalKeepsFence(cfg, now, q, a, step, floor);
    case _ => UploadKeepsFence(cfg, now, q, a, step, floor);
  }

  // ------------------------------------------------------------ whole runs

  type Floors = map<AttachmentId, nat>

  function Floor(floors: Floors, id: AttachmentId): nat { if id in floors then floors[id] else 0 }

  ghost predicate AllFenced(s: System, floors: Floors) {
    && Allocated(s) && floors.Keys <= s.attachments.Keys
    && forall id :: id in s.attachments ==> FencedFrom(s.attachments[id], Floor(floors, id))
  }

  predicate Resets(step: Step) { step.Acting? && step.step.Resetting? }

  /** No operator re-queues a scan job. */
  predicate NoReset(steps: seq<Step>) {
    forall i :: 0 <= i < |steps| ==> !Resets(steps[i])
  }

  /** The step re-queues the job: a dead-lettered or retrying one. */
  predicate RequeuesJob(a: Attachment, step: LocalStep) {
    && step.Resetting? && a.job.Some? && a.job.value.status == step.expected
    && (step.expected == DeadLetter || step.expected == Retry)
  }

  predicate Requeues(s: System, step: Step) {
    Resets(step) && step.id in s.attachments && RequeuesJob(s.attachments[step.id], step.step)
  }

  /** The floor after a step: a re-queue lifts it to the attempt the attachment has seen. */
  function LiftedFloor(a: Attachment, step: LocalStep, floor: nat): nat {
    if RequeuesJob(a, step) && a.row.scanAttempt >= 0 then a.row.scanAttempt else floor
  }

  /** A job is re-queued only while no worker is live on it. */
  predicate QuietStep(s: System, step: Step) {
    Requeues(s, step) ==> s.attachments[step.id].workers == map[]
  }

  ghost predicate QuietResets(s: System, steps: seq<Step>)
    decreases |steps|
  {
    steps == [] || (QuietStep(s, steps[0]) && QuietResets(Next(s, steps[0]), steps[1..]))
  }

  function LiftedFloors(s: System, step: Step, floors: Floors): Floors {
    if Requeues(s, step)
    then floors[step.id := LiftedFloor(s.attachments[step.id], step.step, Floor(floors, step.id))] else floors
  }

  ghost function FloorsAfter(s: System, steps: seq<Step>, floors: Floors): Floors
    decreases |steps|
  {
    if steps == [] then floors else FloorsAfter(Next(s, steps[0]), steps[1..], LiftedFloors(s, steps[0], floors))
  }

  /** A re-queue with no worker live starts the fence afresh, from the attempt the attachment has seen; with a worker
      live there is no attempt to start it from. */
  lemma ResetKeepsFenceIff(now: Time, a: Attachment, floor: nat, expected: JobStatus, seen: nat)
    requires FencedFrom(a, floor) && a.job.Some? && a.job.value.status == expected && expected in {DeadLetter, Retry}
    ensures FencedFrom(ResetJob(now, a, expected), seen) <==> a.workers == map[] && seen == a.row.scanAttempt
  {
    var b := ResetJob(now, a, expected);
    if a.workers != map[] {
      var w :| w in a.workers;
      assert w in b.workers && b.workers[w].token > b.job.value.attempts;
    }
  }

  lemma FencedStep(cfg: Config, now: Time, q: Request, a: Attachment, step: LocalStep, floor: nat)
    requires FencedFrom(a, floor) && (RequeuesJob(a, step) ==> a.workers == map[])
    ensures FencedFrom(Local(cfg, now, q, a, step).1, LiftedFloor(a, step, floor))
  {
    if !step.Resetting? {
      FenceStep(cfg, now, q, a, step, floor);
    } else if RequeuesJob(a, step) {
      ResetKeepsFenceIff(now, a, floor, step.expected, a.row.scanAttempt);
    }
  }

  lemma FencedNextAt(s: System, step: Step, floors: Floors, id: AttachmentId)
    requires AllFenced(s, floors) && QuietStep(s, step) && id in Next(s, step).attachments
    ensures FencedFrom(Next(s, step).attachments[id], Floor(LiftedFloors(s, step, floors), id))
  {
    StepIsLocal(s, step, id);
    if id in s.attachments && Effect(s, step, id).Some? {
      var a := s.attachments[id];
      FencedStep(s.cfg, s.now, s.requests[a.row.request], a, Effect(s, step, id).value, Floor(floors, id));
    }
  }

  lemma FencedNext(s: System, step: Step, floors: Floors)
    requires AllFenced(s, floors) && QuietStep(s, step)
    ensures AllFenced(Next(s, step), LiftedFloors(s, step, floors))
  {
    AllocatedNext(s, step);
    forall id | id in Next(s, step).attachments
      ensures FencedFrom(Next(s, step).attachments[id], Floor(LiftedFloors(s, step, floors), id))
    {
      FencedNextAt(s, step, floors, id);
    }
  }

  /** In every run whose re-queues find no live worker, on every attachment: live workers hold pairwise distinct tokens
      bounded by the job's attempt count, and only the latest claimant passes the fence; past the attempts seen before
      the last re-queue the attachment's attempt count never passes the job's. Deferrals, expired leases and crashes are
      all steps of the run. */
  lemma {:induction false} LiveTokensAreDistinct(s: System, steps: seq<Step>, floors: Floors)
    requires AllFenced(s, floors) && QuietResets(s, steps)
    ensures AllFenced(Run(s, steps), FloorsAfter(s, steps, floors))
    decreases |steps|
  {
    if steps != [] {
      FencedNext(s, steps[0], floors);
      LiveTokensAreDistinct(Next(s, steps[0]), steps[1..], LiftedFloors(s, steps[0], floors));
    }
  }

  lemma {:induction false} NoResetIsQuiet(s: System, steps: seq<Step>, floors: Floors)
    requires NoReset(steps)
    ensures QuietResets(s, steps) && FloorsAfter(s, steps, floors) == floors
    decreases |steps|
  {
    if steps != [] {
      assert !Resets(steps[0]);
      NoResetIsQuiet(Next(s, steps[0]), steps[1..], floors);
    }
  }

  lemma InitiallyFenced(s: System)
    requires Initial(s)
    ensures AllFenced(s, map[])
  {
  }

  predicate StepOf(step: LocalStep, w: WorkerId) {
    || step == Starting(w) || step == Burying(w) || (step.Completing? && step.w == w)
    || (step.Retrying? && step.w == w) || (step.Deferring? && step.w == w)
  }

  /** A worker that is no longer the latest claimant changes nothing in the database, whatever it does next. */
  lemma StaleWorkersWriteNothing(cfg: Config, now: Time, q: Request, a: Attachment, w: WorkerId, step: LocalStep,
                                 floor: nat)
    requires FencedFrom(a, floor) && w in a.workers && w != a.holder && StepOf(step, w)
    ensures var (q', b) := Local(cfg, now, q, a, step);
            q' == q && b.row == a.row && b.job == a.job && b.events == a.events && b.removals == a.removals
  {
    assert !Holds(a, a.workers[w].token);
  }

  /** Of the claimants that find a scannable attachment, exactly those past the floor get to scan it. On a job that was
      never re-queued these are all of them. */
  lemma ClaimantsPastTheFloorStart(now: Time, a: Attachment, w: WorkerId, floor: nat)
    requires FencedFrom(a, floor) && InPhase(a, w, Claimed) && Holds(a, a.workers[w].token) && AwaitingScan(a.row)
    ensures InPhase(StartScan(now, a, w), w, Scanning) <==> floor < a.workers[w].token
  {
    assert Current(a.job.value, a.workers[w].token);
  }

  lemma LatestClaimantStarts(now: Time, a: Attachment, w: WorkerId)
    requires Fenced(a) && InPhase(a, w, Claimed) && Holds(a, a.workers[w].token) && AwaitingScan(a.row)
    ensures InPhase(StartScan(now, a, w), w, Scanning)
  {
    assert 1 <= a.workers[w].token;
    ClaimantsPastTheFloorStart(now, a, w, 0);
  }

  // --------------------------------------------------------- operator resets

  /** Two live workers of the attachment share a token. */
  ghost predicate Clash(s: System, id: AttachmentId) {
    id in s.attachments && !DistinctTokens(s.attachments[id].workers)
  }

  /** The job can be claimed once its lease or delay is over. */
  predicate Queued(a: Attachment) {
    a.job.Some? && a.job.value.attempts >= 0
    && (a.job.value.status == Pending || a.job.value.status == Retry || a.job.value.status == Processing)
  }

  /** Once the time has come, another worker claims the job and gets the next token. */
  lemma ClaimAgain(s: System, id: AttachmentId) returns (steps: seq<Step>)
    requires Allocated(s) && id in s.attachments && Queued(s.attachments[id])
    ensures NoReset(steps) && Allocated(Run(s, steps)) && id in Run(s, steps).attachments
    ensures var a, b := s.attachments[id], Run(s, steps).attachments[id];
            && Queued(b) && b.job.value.attempts == a.job.value.attempts + 1
            && b.workers == a.workers[a.nextWorker := Worker(a.job.value.attempts + 1, Claimed)]
            && b.nextWorker == a.nextWorker + 1
  {
    var tick, claim := Tick(s.attachments[id].job.value.availableAt), Acting(id, ClaimingJob);
    steps := [tick, claim];
    var later := Next(s, tick);
    assert later.attachments == s.attachments && later.requests == s.requests;
    assert Claimable(s.attachments[id].job.value, later.now);
    assert steps[1..] == [claim] && [claim][1..] == [];
    assert Run(later, [claim]) == Run(Next(later, claim), []) == Next(later, claim);
    assert Run(s, steps) == Run(later, steps[1..]);
    AllocatedNext(s, tick);
    AllocatedNext(later, claim);
  }

  /** Claims bring the count up to any target, and leave every worker that is live now where it is. */
  lemma {:induction false} ClaimsReach(s: System, id: AttachmentId, target: int) returns (steps: seq<Step>)
    requires Allocated(s) && id in s.attachments && Queued(s.attachments[id])
    requires s.attachments[id].job.value.attempts < target
    ensures NoReset(steps) && id in Run(s, steps).attachments
    ensures var a, b := s.attachments[id], Run(s, steps).attachments[id];
            && (forall w :: w in a.workers && w < a.nextWorker ==> w in b.workers && b.workers[w] == a.workers[w])
            && (exists w :: w in b.workers && a.nextWorker <= w && b.workers[w].token == target)
    decreases target - s.attachments[id].job.value.attempts
  {
    steps := ClaimAgain(s, id);
    var t := Run(s, steps);
    if t.attachments[id].job.value.attempts < target {
      var rest := ClaimsReach(t, id, target);
      RunInTwo(s, steps, rest);
      steps := steps + rest;
    } else {
      assert t.attachments[id].workers[s.attachments[id].nextWorker].token == target;
    }
  }

  lemma RequeuedState(s: System, id: AttachmentId, expected: JobStatus)
    requires Allocated(s) && Requeues(s, Acting(id, Resetting(expected)))
    ensures var t := Next(s, Acting(id, Resetting(expected)));
            && Allocated(t) && id in t.attachments && Queued(t.attachments[id])
            && t.attachments[id] == s.attachments[id].(job := Some(Job(Pending, 0, s.now)))
  {
    AllocatedNext(s, Acting(id, Resetting(expected)));
  }

  /** A worker that is live at a re-queue can meet its own token again: the count starts over and reaches it. */
  lemma LiveWorkerMeetsItsToken(s: System, id: AttachmentId, expected: JobStatus, floors: Floors)
    returns (steps: seq<Step>)
    requires AllFenced(s, floors) && Requeues(s, Acting(id, Resetting(expected))) && s.attachments[id].workers != map[]
    ensures NoReset(steps) && Clash(Run(Next(s, Acting(id, Resetting(expected))), steps), id)
  {
    RequeuedState(s, id, expected);
    var a := s.attachments[id];
    assert FencedFrom(a, Floor(floors, id));
    var v :| v in a.workers;
    assert WorkerOk(a.job.value, a.row.scanAttempt, v, a.workers[v], a.holder, a.nextWorker, Floor(floors, id));
    var t := Next(s, Acting(id, Resetting(expected)));
    steps := ClaimsReach(t, id, a.workers[v].token);
    var b := Run(t, steps).attachments[id];
    var w :| w in b.workers && a.nextWorker <= w && b.workers[w].token == a.workers[v].token;
    assert v in b.workers && b.workers[v].token == b.workers[w].token && v != w;
  }

  /** A re-queue breaks the fence exactly when a worker is live on the job: some continuation without another re-queue
      then has two live workers on one token, and otherwise none has. */
  lemma TokensAreReusedIff(s: System, id: AttachmentId, expected: JobStatus, floors: Floors)
    requires AllFenced(s, floors) && Requeues(s, Acting(id, Resetting(expected)))
    ensures var t := Next(s, Acting(id, Resetting(expected)));
            (exists steps :: NoReset(steps) && Clash(Run(t, steps), id)) <==> s.attachments[id].workers != map[]
  {
    var reset := Acting(id, Resetting(expected));
    var t := Next(s, reset);
    if s.attachments[id].workers != map[] {
      var steps := LiveWorkerMeetsItsToken(s, id, expected, floors);
    } else {
      assert [reset][1..] == [];
      FencedNext(s, reset, floors);
      forall steps | NoReset(steps) ensures !Clash(Run(t, steps), id) {
        NoResetIsQuiet(t, steps, LiftedFloors(s, reset, floors));
        LiveTokensAreDistinct(t, steps, LiftedFloors(s, reset, floors));
      }
    }
  }

  /** What a re-queue with no worker live costs: in every continuation without another one, of the claimants that find
      the attachment scannable exactly those whose token is at most the attempt it had seen are turned away. */
  lemma RequeueTurnsAwayExactly(s: System, id: AttachmentId, expected: JobStatus, floors: Floors, steps: seq<Step>,
                                w: WorkerId)
    requires AllFenced(s, floors) && Requeues(s, Acting(id, Resetting(expected))) && s.attachments[id].workers == map[]
    requires NoReset(steps)
    ensures var t := Run(Next(s, Acting(id, Resetting(expected))), steps);
            && id in t.attachments
            && var a := t.attachments[id];
               InPhase(a, w, Claimed) && Holds(a, a.workers[w].token) && AwaitingScan(a.row) ==>
                 (InPhase(StartScan(t.now, a, w), w, Scanning) <==>
                    s.attachments[id].row.scanAttempt < a.workers[w].token)
  {
    var reset := Acting(id, Resetting(expected));
    var floors' := LiftedFloors(s, reset, floors);
    assert [reset][1..] == [];
    FencedNext(s, reset, floors);
    RequeuedState(s, id, expected);
    NoResetIsQuiet(Next(s, reset), steps, floors');
    LiveTokensAreDistinct(Next(s, reset), steps, floors');
    var t := Run(Next(s, reset), steps);
    assert Requeues(s, reset) && id in floors'.Keys;
    assert floors'.Keys <= t.attachments.Keys;
    var a := t.attachments[id];
    assert FencedFrom(a, Floor(floors', id));
    assert Floor(floors', id) == s.attachments[id].row.scanAttempt;
    if InPhase(a, w, Claimed) && Holds(a, a.workers[w].token) && AwaitingScan(a.row) {
      ClaimantsPastTheFloorStart(t.now, a, w, Floor(floors', id));
    }
  }

  /** An upload is finalized; worker 0 claims its scan at time 0 and starts. */
  function WorkerZeroScans(cfg: Config, q: Request): Attachment {
    var stored := Local(cfg, 0, q, Local(cfg, 0, q, Reserved(cfg, 0, 0, 1), PutLanding(true)).1,
                        Finalizing(PendingScan, false)).1;
    StartScan(0, ClaimJob(cfg, 0, stored), 0)
  }

  /** Its lease runs out, worker 1 takes over and schedules a retry. */
  function WorkerOneRetries(cfg: Config, q: Request): Attachment {
    var t := cfg.scanLease;
    RetryOrFail(cfg, t, q, StartScan(t, ClaimJob(cfg, t, WorkerZeroScans(cfg, q)), 1), 1, 0).1
  }

  /** An operator re-queues the job and worker 2 claims it. */
  function WorkerTwoClaims(cfg: Config, q: Request): Attachment {
    var t := cfg.scanLease;
    ClaimJob(cfg, t, ResetJob(t, WorkerOneRetries(cfg, q), Retry))
  }

  lemma AfterWorkerZero(cfg: Config, q: Request)
    requires Eligible(q.status)
    ensures var a := WorkerZeroScans(cfg, q);
            && a.row.storage == Stored && a.row.scan == PendingScan && a.row.deletedAt.None? && a.row.scanAttempt == 1
            && a.job == Some(Job(Processing, 1, cfg.scanLease)) && a.workers == map[0 := Worker(1, Scanning)]
            && a.nextWorker == 1
  {
    var stored := Local(cfg, 0, q, Local(cfg, 0, q, Reserved(cfg, 0, 0, 1), PutLanding(true)).1,
                        Finalizing(PendingScan, false)).1;
    assert stored.job == Some(Job(Pending, 0, 0)) && stored.workers == map[];
  }

  lemma AfterWorkerOne(cfg: Config, q: Request)
    requires cfg.maxAttempts > 2 && Eligible(q.status)
    ensures var a := WorkerOneRetries(cfg, q);
            && a.row.storage == Stored && a.row.scan == PendingScan && a.row.deletedAt.None? && a.row.scanAttempt == 2
            && a.job == Some(Job(Retry, 2, cfg.scanLease)) && a.workers == map[0 := Worker(1, Scanning)]
            && a.nextWorker == 2
  {
    AfterWorkerZero(cfg, q);
    var t := cfg.scanLease;
    var claimed := ClaimJob(cfg, t, WorkerZeroScans(cfg, q));
    assert claimed.workers == map[0 := Worker(1, Scanning), 1 := Worker(2, Claimed)];
  }

  /** So the fence does fail after a reset: worker 0 still lives with the token worker 2, the latest claimant, was
      handed, and its next write dead-letters worker 2's job. */
  lemma ResetLetsStaleWorkerWrite(cfg: Config, q: Request)
    requires cfg.maxAttempts > 2 && Eligible(q.status)
    ensures var a := WorkerTwoClaims(cfg, q);
            && 0 in a.workers && 2 in a.workers && a.workers[0].token == a.workers[2].token && a.holder == 2
            && a.job.Some? && a.job.value.status == Processing
            && RetryOrFail(cfg, cfg.scanLease, q, a, 0, 0).1.job == Some(Job(DeadLetter, 1, cfg.scanLease))
  {
    AfterWorkerOne(cfg, q);
  }
}
