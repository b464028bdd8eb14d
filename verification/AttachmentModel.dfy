/** The attachment lifecycle as a state machine.

    One `Attachment` gathers everything that belongs to one attachment identifier: its table row, its scan job, its
    object in the store, and the position of every actor that is between two transactions on it (the uploader, scan
    workers, object removals). A local step is one database transaction, or one object-store effect. An actor that
    crashes is an actor that takes no further step, so a theorem about every sequence of steps covers a crash at
    every point. `System` puts the attachments of every request side by side under one clock. */
module AttachmentModel {
  import opened Wrappers
  import opened RequestStates

  type Time = int
  type RequestId = nat
  type AttachmentId = nat
  type WorkerId = nat

  datatype Config = Config(
    pendingUploadAge: nat, minimumAge: nat, scanLease: nat, maxAttempts: int,
    maxFileBytes: nat, maxFilesPerRequest: nat, maxTotalBytes: nat)

  datatype Request = Request(
    status: RequestStatus, version: nat, acceptsFiles: bool, maxFiles: nat, maxFileBytes: nat)
  {
    function Bumped(): Request { this.(version := version + 1) }
  }

  datatype Storage = PendingUpload | Stored | UploadFailed | DeletePending | Deleted

  datatype Scan =
    NotRequired | PendingScan | Clean | Infected | ScanError | SkippedDevelopment | SkippedByAdmin

  datatype Row = Row(
    request: RequestId, size: nat, storage: Storage, scan: Scan, scanAttempt: int,
    deletedAt: Option<Time>, updatedAt: Time)

  datatype JobStatus = Pending | Processing | Retry | Delivered | DeadLetter

  datatype Job = Job(status: JobStatus, attempts: int, availableAt: Time)

  datatype Event =
    | AttachmentAdded(version: nat)
    | AttachmentRemoved(version: nat)
    | ScanCompleted(verdict: Scan, version: nat)
    | ScanFailed(version: nat)

  /** Where the foreground upload stands after its reservation committed. */
  datatype Upload = Putting | Acknowledged | Failing | Finished

  datatype Phase = Claimed | Scanning | NotScannable

  /** A scan worker that has claimed the job and not returned yet; `token` is the attempt count it was handed. */
  datatype Worker = Worker(token: int, phase: Phase)

  /** Who asked for the object to be removed, and so which guard marks the row DELETED afterwards. */
  datatype Remover = ByStudent | ByReconciler | ByScanner(token: int)

  datatype Removal = Removal(remover: Remover, done: bool)

  datatype Attachment = Attachment(
    row: Row,
    job: Option<Job>,
    events: seq<Event>,
    inStore: bool,                    // the object store holds this attachment's key
    put: Option<Time>,                // a PUT is in flight, and the time before which it lands
    upload: Upload,
    workers: map<WorkerId, Worker>,   // live scan workers
    holder: WorkerId,                 // the worker of the latest claim
    nextWorker: WorkerId,
    removals: map<nat, Removal>,      // removals not yet marked in the row
    nextRemoval: nat)

  datatype AttachmentError =
    | RequestNotFound | VersionConflict | InvalidTransition | FileTypeNotAllowed | FileTooLarge
    | MaxFilesExceeded | TotalFileSizeExceeded | AttachmentNotFound | AttachmentNotReady
    | AttachmentStateInvalid

  function Min(a: int, b: int): int { if a <= b then a else b }

  predicate Eligible(status: RequestStatus) {
    status != Completed && status != Cancelled && status != Rejected
  }

  // ---------------------------------------------------------------- uploads

  /** What the reservation transaction inserts. The PUT may be in flight from the moment it commits; an environment
      that honours the age fences lands it before `now + pendingUploadAge`. */
  function Reserved(cfg: Config, now: Time, request: RequestId, size: nat): Attachment {
    Attachment(Row(request, size, PendingUpload, NotRequired, 0, None, now), None, [], false,
               Some(now + cfg.pendingUploadAge), Putting, map[], 0, 0, map[], 0)
  }

  function PutLands(a: Attachment, acknowledged: bool): Attachment {
    if a.put.None? then a
    else a.(inStore := true, put := None,
            upload := if acknowledged && a.upload == Putting then Acknowledged else a.upload)
  }

  /** The uploader sees the PUT fail. The bytes may still be on their way; an environment that honours the
      five-minute fence lands them before `now + minimumAge`. */
  function PutFails(cfg: Config, now: Time, a: Attachment): Attachment {
    if a.upload != Putting then a
    else a.(upload := Failing,
            put := if a.put.Some? then Some(Min(a.put.value, now + cfg.minimumAge)) else None)
  }

  /** The finalization transaction. */
  function FinalizeTx(now: Time, q: Request, a: Attachment, policy: Scan)
    : Result<(Request, Attachment), AttachmentError>
  {
    if !Eligible(q.status) then Err(InvalidTransition)
    else if a.row.storage != PendingUpload then Err(AttachmentStateInvalid)
    else
      Ok((q.Bumped(),
          a.(row := a.row.(storage := Stored, scan := policy, updatedAt := now),
             events := a.events + [AttachmentAdded(q.version + 1)],
             job := if policy == PendingScan && a.job.None? then Some(Job(Pending, 0, now)) else a.job)))
  }

  predicate UploadPolicy(policy: Scan) {
    policy == PendingScan || policy == SkippedDevelopment || policy == SkippedByAdmin
  }

  /** The finalization of an acknowledged upload. When it fails, or when its commit acknowledgement is lost, the
      uploader goes on to mark the upload failed. */
  function Finalize(now: Time, q: Request, a: Attachment, policy: Scan, ackLost: bool): (Request, Attachment) {
    if a.upload != Acknowledged || !UploadPolicy(policy) then (q, a)
    else
      match FinalizeTx(now, q, a, policy)
      case Err(_) => (q, a.(upload := Failing))
      case Ok((q', a')) => (q', a'.(upload := if ackLost then Failing else Finished))
  }

  function MarkUploadFailed(now: Time, a: Attachment): Attachment {
    if a.upload != Failing then a
    else if a.row.storage != PendingUpload then a.(upload := Finished)
    else a.(upload := Finished,
            row := a.row.(storage := UploadFailed, scan := NotRequired, updatedAt := now))
  }

  // --------------------------------------------------------------- deletion

  function BeginRemoval(a: Attachment, remover: Remover): Attachment {
    a.(removals := a.removals[a.nextRemoval := Removal(remover, false)], nextRemoval := a.nextRemoval + 1)
  }

  /** The student's deletion transaction, once the request row is locked and its version matches. */
  function DeleteTx(now: Time, q: Request, a: Attachment): Result<(Request, Attachment), AttachmentError> {
    if !Eligible(q.status) then Err(InvalidTransition)
    else if a.row.deletedAt.Some? then Err(AttachmentNotFound)
    else if a.row.storage == PendingUpload then Err(AttachmentNotReady)
    else
      var a' := a.(row := a.row.(deletedAt := Some(now), storage := DeletePending, updatedAt := now),
                   events := a.events + [AttachmentRemoved(q.version + 1)]);
      Ok((q.Bumped(), if a.row.storage == UploadFailed then a' else BeginRemoval(a', ByStudent)))
  }

  function RemoveObject(a: Attachment, ticket: nat): Attachment {
    if ticket !in a.removals then a
    else a.(inStore := false, removals := a.removals[ticket := a.removals[ticket].(done := true)])
  }

  /** The guard of the update that marks a row DELETED after its object was removed. */
  predicate MayFinish(row: Row, remover: Remover) {
    && row.storage == DeletePending
    && (remover.ByScanner? ==> row.scan == Infected && row.scanAttempt == remover.token)
  }

  function FinishRemoval(now: Time, a: Attachment, ticket: nat): Attachment {
    if ticket !in a.removals || !a.removals[ticket].done then a
    else
      var a' := a.(removals := a.removals - {ticket});
      if MayFinish(a.row, a.removals[ticket].remover)
      then a'.(row := a.row.(storage := Deleted, updatedAt := now)) else a'
  }

  // --------------------------------------------------------- reconciliation

  predicate Reconcilable(cfg: Config, now: Time, row: Row) {
    || (row.storage == PendingUpload && row.updatedAt <= now - cfg.pendingUploadAge)
    || ((row.storage == UploadFailed || row.storage == DeletePending) && row.updatedAt <= now - cfg.minimumAge)
  }

  function ReconcilerTakes(cfg: Config, now: Time, a: Attachment): Attachment {
    if !Reconcilable(cfg, now, a.row) then a
    else
      var deletedAt := if a.row.scan == Infected || a.row.deletedAt.Some? then a.row.deletedAt else Some(now);
      BeginRemoval(a.(row := a.row.(storage := DeletePending, updatedAt := now, deletedAt := deletedAt)),
                   ByReconciler)
  }

  // --------------------------------------------------------------- scanning

  predicate Claimable(job: Job, now: Time) {
    (job.status == Pending || job.status == Retry || job.status == Processing) && job.availableAt <= now
  }

  function ClaimJob(cfg: Config, now: Time, a: Attachment): Attachment {
    if a.job.None? || !Claimable(a.job.value, now) then a
    else
      var token := a.job.value.attempts + 1;
      a.(job := Some(Job(Processing, token, now + cfg.scanLease)),
         workers := a.workers[a.nextWorker := Worker(token, Claimed)],
         holder := a.nextWorker, nextWorker := a.nextWorker + 1)
  }

  /** The fence every guarded write of a worker checks under the job's row lock. */
  predicate Holds(a: Attachment, token: int) {
    a.job.Some? && a.job.value.status == Processing && a.job.value.attempts == token
  }

  predicate AwaitingScan(row: Row) {
    row.deletedAt.None? && row.storage == Stored && (row.scan == PendingScan || row.scan == ScanError)
  }

  predicate InPhase(a: Attachment, w: WorkerId, phase: Phase) {
    w in a.workers && a.workers[w].phase == phase
  }

  function Leave(a: Attachment, w: WorkerId): Attachment {
    a.(workers := a.workers - {w})
  }

  function StartScan(now: Time, a: Attachment, w: WorkerId): Attachment {
    if !InPhase(a, w, Claimed) then a
    else
      var token := a.workers[w].token;
      if !Holds(a, token) then Leave(a, w)
      else if !AwaitingScan(a.row) then a.(workers := a.workers[w := Worker(token, NotScannable)])
      else if a.row.scanAttempt >= token then Leave(a, w)
      else a.(row := a.row.(scanAttempt := token, updatedAt := now),
              workers := a.workers[w := Worker(token, Scanning)])
  }

  function Bury(now: Time, a: Attachment): Attachment
    requires a.job.Some?
  {
    a.(job := Some(a.job.value.(status := DeadLetter, availableAt := now)))
  }

  function DeadLetterJob(now: Time, a: Attachment, w: WorkerId): Attachment {
    if !InPhase(a, w, NotScannable) then a
    else if Holds(a, a.workers[w].token) then Leave(Bury(now, a), w)
    else Leave(a, w)
  }

  /** The terminal transaction of the worker holding `token`, and whether it applied. */
  function FinishTerminal(now: Time, q: Request, a: Attachment, token: int, verdict: Scan)
    : (Request, Attachment, bool)
  {
    if !Holds(a, token) then (q, a, false)
    else if !AwaitingScan(a.row) || a.row.scanAttempt != token then (q, Bury(now, a), false)
    else
      var failed := verdict == ScanError;
      (q.Bumped(),
       a.(row := a.row.(scan := verdict, updatedAt := now,
                        storage := if verdict == Infected then DeletePending else Stored),
          events := a.events + [if failed then ScanFailed(q.version + 1) else ScanCompleted(verdict, q.version + 1)],
          job := Some(a.job.value.(status := if failed then DeadLetter else JobStatus.Delivered, availableAt := now))),
       true)
  }

  /** The scan statuses a finished scan can leave behind. */
  predicate Verdict(scan: Scan) {
    scan == Clean || scan == Infected || scan == SkippedDevelopment
  }

  function Complete(now: Time, q: Request, a: Attachment, w: WorkerId, verdict: Scan): (Request, Attachment) {
    if !InPhase(a, w, Scanning) || !Verdict(verdict) then (q, a)
    else
      var token := a.workers[w].token;
      var (q', a', applied) := FinishTerminal(now, q, a, token, verdict);
      (q', if applied && verdict == Infected then BeginRemoval(Leave(a', w), ByScanner(token)) else Leave(a', w))
  }

  function RetryOrFail(cfg: Config, now: Time, q: Request, a: Attachment, w: WorkerId, delay: nat)
    : (Request, Attachment)
  {
    if !InPhase(a, w, Scanning) then (q, a)
    else
      var token := a.workers[w].token;
      if token >= cfg.maxAttempts then
        var (q', a', _) := FinishTerminal(now, q, a, token, ScanError);
        (q', Leave(a', w))
      else if !Holds(a, token) then (q, Leave(a, w))
      else if !AwaitingScan(a.row) || a.row.scanAttempt != token then (q, Leave(Bury(now, a), w))
      else (q, Leave(a.(row := a.row.(scan := PendingScan, updatedAt := now),
                        job := Some(Job(Retry, token, now + delay))), w))
  }

  function DeferDependency(now: Time, a: Attachment, w: WorkerId, delay: nat): Attachment {
    if !InPhase(a, w, Scanning) then a
    else
      var token := a.workers[w].token;
      if !Holds(a, token) || !AwaitingScan(a.row) || a.row.scanAttempt != token then Leave(a, w)
      else Leave(a.(row := a.row.(scan := PendingScan, scanAttempt := token - 1, updatedAt := now),
                    job := Some(Job(Retry, token - 1, now + delay))), w)
  }

  /** The operator's re-queue of a dead-lettered or retrying job. */
  function ResetJob(now: Time, a: Attachment, expected: JobStatus): Attachment {
    if a.job.None? || a.job.value.status != expected || !(expected == DeadLetter || expected == Retry) then a
    else a.(job := Some(Job(Pending, 0, now)))
  }

  // ------------------------------------------------------------ local steps

  datatype LocalStep =
    | PutLanding(acknowledged: bool)
    | PutVanishing
    | PutFailing
    | Finalizing(policy: Scan, ackLost: bool)
    | MarkingFailed
    | Deleting
    | Reconciling
    | Removing(ticket: nat)
    | FinishingRemoval(ticket: nat)
    | ClaimingJob
    | Starting(w: WorkerId)
    | Burying(w: WorkerId)
    | Completing(w: WorkerId, verdict: Scan)
    | Retrying(w: WorkerId, delay: nat)
    | Deferring(w: WorkerId, delay: nat)
    | Resetting(expected: JobStatus)

  function Local(cfg: Config, now: Time, q: Request, a: Attachment, step: LocalStep): (Request, Attachment) {
    match step
    case PutLanding(acknowledged) => (q, PutLands(a, acknowledged))
    case PutVanishing => (q, a.(put := None))
    case PutFailing => (q, PutFails(cfg, now, a))
    case Finalizing(policy, ackLost) => Finalize(now, q, a, policy, ackLost)
    case MarkingFailed => (q, MarkUploadFailed(now, a))
    case Deleting => var r := DeleteTx(now, q, a); if r.Ok? then r.value else (q, a)
    case Reconciling => (q, ReconcilerTakes(cfg, now, a))
    case Removing(ticket) => (q, RemoveObject(a, ticket))
    case FinishingRemoval(ticket) => (q, FinishRemoval(now, a, ticket))
    case ClaimingJob => (q, ClaimJob(cfg, now, a))
    case Starting(w) => (q, StartScan(now, a, w))
    case Burying(w) => (q, DeadLetterJob(now, a, w))
    case Completing(w, verdict) => Complete(now, q, a, w, verdict)
    case Retrying(w, delay) => RetryOrFail(cfg, now, q, a, w, delay)
    case Deferring(w, delay) => (q, DeferDependency(now, a, w, delay))
    case Resetting(expected) => (q, ResetJob(now, a, expected))
  }

  // ---------------------------------------------------- the whole database

  datatype System = System(
    cfg: Config, now: Time, requests: map<RequestId, Request>, attachments: map<AttachmentId, Attachment>,
    nextAttachment: AttachmentId)

  predicate Counted(row: Row) {
    row.deletedAt.None? && row.storage != UploadFailed
  }

  /** Counted files of request `r` among the attachments below `n`. */
  function FileCount(attachments: map<AttachmentId, Attachment>, r: RequestId, n: nat): nat {
    if n == 0 then 0
    else
      FileCount(attachments, r, n - 1) +
      if n - 1 in attachments && attachments[n - 1].row.request == r && Counted(attachments[n - 1].row) then 1 else 0
  }

  /** Bytes of the counted files of request `r` among the attachments below `n`. */
  function TotalBytes(attachments: map<AttachmentId, Attachment>, r: RequestId, n: nat): nat {
    if n == 0 then 0
    else
      TotalBytes(attachments, r, n - 1) +
      if n - 1 in attachments && attachments[n - 1].row.request == r && Counted(attachments[n - 1].row)
      then attachments[n - 1].row.size else 0
  }

  /** The admission check, given the aggregates read under the request lock. */
  function CapacityCheck(cfg: Config, q: Request, fileCount: nat, totalBytes: nat, version: nat, size: nat)
    : Option<AttachmentError>
  {
    if q.version != version then Some(VersionConflict)
    else if !Eligible(q.status) then Some(InvalidTransition)
    else if !q.acceptsFiles then Some(FileTypeNotAllowed)
    else if size > Min(q.maxFileBytes, cfg.maxFileBytes) then Some(FileTooLarge)
    else if fileCount >= Min(q.maxFiles, cfg.maxFilesPerRequest) then Some(MaxFilesExceeded)
    else if totalBytes + size > cfg.maxTotalBytes then Some(TotalFileSizeExceeded)
    else None
  }

  function CapacityError(s: System, r: RequestId, version: nat, size: nat): Option<AttachmentError> {
    if r !in s.requests then Some(RequestNotFound)
    else CapacityCheck(s.cfg, s.requests[r], FileCount(s.attachments, r, s.nextAttachment),
                       TotalBytes(s.attachments, r, s.nextAttachment), version, size)
  }

  /** The reservation transaction. It leaves the request's version alone. */
  function Reserve(s: System, r: RequestId, version: nat, size: nat): Result<System, AttachmentError> {
    match CapacityError(s, r, version, size)
    case Some(e) => Err(e)
    case None =>
      Ok(s.(attachments := s.attachments[s.nextAttachment := Reserved(s.cfg, s.now, r, size)],
            nextAttachment := s.nextAttachment + 1))
  }

  /** One local step of one attachment, together with the request row it may bump. */
  function Act(s: System, id: AttachmentId, step: LocalStep): System {
    if id !in s.attachments || s.attachments[id].row.request !in s.requests then s
    else
      var r := s.attachments[id].row.request;
      var (q, a) := Local(s.cfg, s.now, s.requests[r], s.attachments[id], step);
      s.(requests := s.requests[r := q], attachments := s.attachments[id := a])
  }

  function DeleteError(s: System, r: RequestId, id: AttachmentId, version: nat): Option<AttachmentError> {
    if r !in s.requests then Some(RequestNotFound)
    else if s.requests[r].version != version then Some(VersionConflict)
    else if !Eligible(s.requests[r].status) then Some(InvalidTransition)
    else if id !in s.attachments || s.attachments[id].row.request != r then Some(AttachmentNotFound)
    else match DeleteTx(s.now, s.requests[r], s.attachments[id]) case Err(e) => Some(e) case Ok(_) => None
  }

  /** The reconcilable rows that no other transaction holds `locked` at the moment. */
  function Eligibles(s: System, locked: set<AttachmentId>): set<AttachmentId> {
    set id | id in s.attachments && id !in locked && Reconcilable(s.cfg, s.now, s.attachments[id].row)
  }

  /** The reconciler's queue order: oldest update first, ties broken by identifier. */
  predicate Before(s: System, a: AttachmentId, b: AttachmentId)
    requires a in s.attachments && b in s.attachments
  {
    var ta, tb := s.attachments[a].row.updatedAt, s.attachments[b].row.updatedAt;
    ta < tb || (ta == tb && a < b)
  }

  function BoundedLimit(limit: int): nat {
    if limit < 1 then 1 else if limit > 20 then 20 else limit
  }

  /** What the claim query returns: the first `limit` of these rows in queue order. */
  ghost predicate IsBatch(s: System, limit: nat, locked: set<AttachmentId>, batch: set<AttachmentId>) {
    && batch <= Eligibles(s, locked)
    && |batch| == Min(limit, |Eligibles(s, locked)|)
    && forall a, b :: a in batch && b in Eligibles(s, locked) && b !in batch ==> Before(s, a, b)
  }

  function ReconcileClaim(s: System, batch: set<AttachmentId>): System {
    s.(attachments := map id | id in s.attachments ::
         if id in batch then ReconcilerTakes(s.cfg, s.now, s.attachments[id]) else s.attachments[id])
  }

  /** What any other service may do to a request's status: leave it, or take an edge of the matrix. */
  predicate Moves(from: RequestStatus, to: RequestStatus, actor: Role) {
    from == to || CanTransition(from, to, actor)
  }

  datatype Step =
    | Tick(time: Time)
    | OtherWrite(r: RequestId, actor: Role, status: RequestStatus)
    | Reserving(r: RequestId, version: nat, size: nat)
    | StudentDeletes(r: RequestId, id: AttachmentId, version: nat)
    | ReconcilerClaims(limit: int, locked: set<AttachmentId>, batch: set<AttachmentId>)
    | Acting(id: AttachmentId, step: LocalStep)

  ghost function Next(s: System, step: Step): System {
    match step
    case Tick(time) => if time > s.now then s.(now := time) else s
    case OtherWrite(r, actor, status) =>
      if r in s.requests && Moves(s.requests[r].status, status, actor)
      then s.(requests := s.requests[r := s.requests[r].Bumped().(status := status)]) else s
    case Reserving(r, version, size) => var t := Reserve(s, r, version, size); if t.Ok? then t.value else s
    case StudentDeletes(r, id, version) => if DeleteError(s, r, id, version).None? then Act(s, id, Deleting) else s
    case ReconcilerClaims(limit, locked, batch) =>
      if IsBatch(s, BoundedLimit(limit), locked, batch) then ReconcileClaim(s, batch) else s
    case Acting(id, step) => if step.Deleting? || step.Reconciling? then s else Act(s, id, step)
  }

  ghost function Run(s: System, steps: seq<Step>): System
    decreases |steps|
  {
    if steps == [] then s else Run(Next(s, steps[0]), steps[1..])
  }

  /** Before the first upload. */
  predicate Initial(s: System) {
    s.attachments == map[] && s.nextAttachment == 0
  }

  /** The local step, if any, that a system step takes on attachment `id`. */
  ghost function Effect(s: System, step: Step, id: AttachmentId): Option<LocalStep>
    requires id in s.attachments
  {
    if s.attachments[id].row.request !in s.requests && !step.ReconcilerClaims? then None
    else
      match step
      case StudentDeletes(r, i, version) =>
        if i == id && DeleteError(s, r, i, version).None? then Some(Deleting) else None
      case ReconcilerClaims(limit, locked, batch) =>
        if IsBatch(s, BoundedLimit(limit), locked, batch) && id in batch then Some(Reconciling) else None
      case Acting(i, l) => if i == id && !l.Deleting? && !l.Reconciling? then Some(l) else None
      case _ => None
  }

  ghost predicate Allocated(s: System) {
    forall id :: id in s.attachments ==> id < s.nextAttachment && s.attachments[id].row.request in s.requests
  }

  /** Every system step is, seen from one attachment, one local step, no step, or the attachment's reservation. */
  lemma StepIsLocal(s: System, step: Step, id: AttachmentId)
    requires Allocated(s) && id in Next(s, step).attachments
    ensures id !in s.attachments ==>
              step.Reserving? && Next(s, step).attachments[id] == Reserved(s.cfg, s.now, step.r, step.size)
    ensures id in s.attachments ==>
              var a := s.attachments[id];
              match Effect(s, step, id)
              case None => Next(s, step).attachments[id] == a
              case Some(l) => Next(s, step).attachments[id] == Local(s.cfg, s.now, s.requests[a.row.request], a, l).1
  {
  }

  lemma RowKeepsItsRequest(cfg: Config, now: Time, q: Request, a: Attachment, step: LocalStep)
    ensures Local(cfg, now, q, a, step).1.row.request == a.row.request
    ensures Local(cfg, now, q, a, step).1.row.size == a.row.size
  {
  }

  lemma AllocatedNext(s: System, step: Step)
    requires Allocated(s)
    ensures Allocated(Next(s, step))
  {
    forall id | id in Next(s, step).attachments
      ensures id < Next(s, step).nextAttachment
      ensures Next(s, step).attachments[id].row.request in Next(s, step).requests
    {
      StepIsLocal(s, step, id);
      if id in s.attachments && Effect(s, step, id).Some? {
        var a := s.attachments[id];
        RowKeepsItsRequest(s.cfg, s.now, s.requests[a.row.request], a, Effect(s, step, id).value);
      }
    }
  }

  lemma {:induction false} RunInTwo(s: System, first: seq<Step>, second: seq<Step>)
    ensures Run(s, first + second) == Run(Run(s, first), second)
    decreases |first|
  {
    if first == [] {
      assert first + second == second;
    } else {
      assert (first + second)[1..] == first[1..] + second;
      RunInTwo(Next(s, first[0]), first[1..], second);
    }
  }
}
