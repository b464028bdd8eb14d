/** Two stores in step: what a row's storage status says about its object, and what a verdict says about its job. */
module ObjectLifecycle {
  import opened AttachmentModel

  // --------------------------------------------- stored rows have their bytes

  predicate Condemned(storage: Storage) {
    storage == DeletePending || storage == Deleted
  }

  /** A stored row has its object; an acknowledged upload that may still be finalized has its bytes; nobody removes
      the object of a row that is not condemned; an infected row is condemned. */
  ghost predicate StorageOk(a: Attachment) {
    && (a.row.storage == Stored ==> a.inStore)
    && (a.upload == Acknowledged && a.row.storage == PendingUpload ==> a.inStore)
    && (a.removals != map[] ==> Condemned(a.row.storage))
    && (a.row.scan == Infected ==> Condemned(a.row.storage))
    && (a.row.storage == PendingUpload || a.row.storage == UploadFailed ==> a.row.scan == NotRequired && a.job.None?)
  }

  /** How far a row has come: waiting for its bytes, settled, condemned. */
  function Rank(storage: Storage): nat {
    match storage case PendingUpload => 0 case Stored => 1 case UploadFailed => 1 case _ => 2
  }

  lemma UploadKeepsStorage(cfg: Config, now: Time, q: Request, a: Attachment, step: LocalStep)
    requires StorageOk(a)
    requires step.PutLanding? || step.PutVanishing? || step.PutFailing? || step.Finalizing? || step.MarkingFailed?
    ensures StorageOk(Local(cfg, now, q, a, step).1)
  {
  }

  lemma RemovalKeepsStorage(cfg: Config, now: Time, q: Request, a: Attachment, step: LocalStep)
    requires StorageOk(a)
    requires step.Deleting? || step.Reconciling? || step.Removing? || step.FinishingRemoval?
    ensures StorageOk(Local(cfg, now, q, a, step).1)
  {
  }

  /** All a scan step can do to the row: settle it anew, or condemn it with a fresh removal. */
  ghost predicate ScanFrame(now: Time, a: Attachment, b: Attachment) {
    && b.inStore == a.inStore && b.put == a.put && b.upload == a.upload && b.job.Some? == a.job.Some?
    && (b.row == a.row ||
          (a.row.storage == Stored && a.job.Some? && b.row.updatedAt == now && b.row.deletedAt == a.row.deletedAt &&
           (b.row.storage == DeletePending || (b.row.storage == Stored && b.row.scan != Infected))))
    && (b.removals == a.removals ||
          (a.row.storage == Stored && b.row.storage == DeletePending &&
           exists token :: b.removals == a.removals[a.nextRemoval := Removal(ByScanner(token), false)]))
  }

  lemma ClaimFrames(cfg: Config, now: Time, q: Request, a: Attachment, step: LocalStep)
    requires step.ClaimingJob? || step.Starting? || step.Burying? || step.Deferring? || step.Resetting?
    requires StorageOk(a)
    ensures ScanFrame(now, a, Local(cfg, now, q, a, step).1)
  {
  }

  lemma CompleteFrames(now: Time, q: Request, a: Attachment, w: WorkerId, verdict: Scan)
    ensures ScanFrame(now, a, Complete(now, q, a, w, verdict).1)
  {
    var b := Complete(now, q, a, w, verdict).1;
    if b.removals != a.removals {
      assert b.removals == a.removals[a.nextRemoval := Removal(ByScanner(a.workers[w].token), false)];
    }
  }

  lemma RetryFrames(cfg: Config, now: Time, q: Request, a: Attachment, w: WorkerId, delay: nat)
    ensures ScanFrame(now, a, RetryOrFail(cfg, now, q, a, w, delay).1)
  {
  }

  lemma ScanFrames(cfg: Config, now: Time, q: Request, a: Attachment, step: LocalStep)
    requires StorageOk(a)
    requires step.ClaimingJob? || step.Starting? || step.Burying? || step.Completing? || step.Retrying?
             || step.Deferring? || step.Resetting?
    ensures ScanFrame(now, a, Local(cfg, now, q, a, step).1)
  {
    match step
    case Completing(w, verdict) => CompleteFrames(now, q, a, w, verdict);
    case Retrying(w, delay) => RetryFrames(cfg, now, q, a, w, delay);
    case _ => ClaimFrames(cfg, now, q, a, step);
  }

  lemma ScanFrameKeepsStorage(now: Time, a: Attachment, b: Attachment)
    requires StorageOk(a) && ScanFrame(now, a, b)
    ensures StorageOk(b)
  {
  }

  lemma StorageStep(cfg: Config, now: Time, q: Request, a: Attachment, step: LocalStep)
    requires StorageOk(a)
    ensures StorageOk(Local(cfg, now, q, a, step).1)
  {
    if step.PutLanding? || step.PutVanishing? || step.PutFailing? || step.Finalizing? || step.MarkingFailed? {
      UploadKeepsStorage(cfg, now, q, a, step);
    } else if step.Deleting? || step.Reconciling? || step.Removing? || step.FinishingRemoval? {
      RemovalKeepsStorage(cfg, now, q, a, step);
    } else {
      ScanFrames(cfg, now, q, a, step);
      ScanFrameKeepsStorage(now, a, Local(cfg, now, q, a, step).1);
    }
  }

  /** A row never goes back, and it becomes STORED only when a pending upload is finalized. */
  lemma StorageAdvances(cfg: Config, now: Time, q: Request, a: Attachment, step: LocalStep)
    ensures var b := Local(cfg, now, q, a, step).1;
            && Rank(a.row.storage) <= Rank(b.row.storage)
            && (b.row.storage == Stored && a.row.storage != Stored ==>
                  step.Finalizing? && a.row.storage == PendingUpload && a.upload == Acknowledged)
            && (a.row.storage == UploadFailed && b.row.storage != UploadFailed ==> Condemned(b.row.storage))
  {
  }

  // ------------------------------------- deleted rows lose theirs for good

  /** What holds while every PUT in flight still has time before the age fence of its row. */
  ghost predicate PurgeOk(cfg: Config, now: Time, a: Attachment) {
    && StorageOk(a)
    && a.row.updatedAt <= now
    && (a.row.storage == Deleted ==> !a.inStore && a.put.None?)
    && (forall t :: t in a.removals && a.removals[t].done ==> !a.inStore)
    && (a.put.Some? ==>
          && a.removals == map[] && a.upload != Acknowledged && a.row.storage != Stored
          && (a.row.storage == PendingUpload ==> a.put.value <= a.row.updatedAt + cfg.pendingUploadAge)
          && (a.row.storage == UploadFailed || a.row.storage == DeletePending ==>
                a.put.value <= a.row.updatedAt + cfg.minimumAge)
          && (a.row.storage == DeletePending ==> a.row.deletedAt.Some?)
          && (a.upload == Failing ==> a.put.value <= now + cfg.minimumAge))
  }

  /** Every PUT in flight is still before the time by which it lands. */
  predicate Punctual(now: Time, a: Attachment) {
    a.put.Some? ==> now < a.put.value
  }

  lemma UploadKeepsPurge(cfg: Config, now: Time, q: Request, a: Attachment, step: LocalStep)
    requires PurgeOk(cfg, now, a) && Punctual(now, a)
    requires step.PutLanding? || step.PutVanishing? || step.PutFailing? || step.Finalizing? || step.MarkingFailed?
    ensures PurgeOk(cfg, now, Local(cfg, now, q, a, step).1)
  {
    UploadKeepsStorage(cfg, now, q, a, step);
  }

  lemma RemovalKeepsPurge(cfg: Config, now: Time, q: Request, a: Attachment, step: LocalStep)
    requires PurgeOk(cfg, now, a) && Punctual(now, a)
    requires step.Deleting? || step.Reconciling? || step.Removing? || step.FinishingRemoval?
    ensures PurgeOk(cfg, now, Local(cfg, now, q, a, step).1)
  {
    RemovalKeepsStorage(cfg, now, q, a, step);
  }

  lemma ScanFrameKeepsPurge(cfg: Config, now: Time, a: Attachment, b: Attachment)
    requires PurgeOk(cfg, now, a) && ScanFrame(now, a, b)
    ensures PurgeOk(cfg, now, b)
  {
  }

  lemma PurgeStep(cfg: Config, now: Time, q: Request, a: Attachment, step: LocalStep)
    requires PurgeOk(cfg, now, a) && Punctual(now, a)
    ensures PurgeOk(cfg, now, Local(cfg, now, q, a, step).1)
  {
    if step.PutLanding? || step.PutVanishing? || step.PutFailing? || step.Finalizing? || step.MarkingFailed? {
      UploadKeepsPurge(cfg, now, q, a, step);
    } else if step.Deleting? || step.Reconciling? || step.Removing? || step.FinishingRemoval? {
      RemovalKeepsPurge(cfg, now, q, a, step);
    } else {
      ScanFrames(cfg, now, q, a, step);
      ScanFrameKeepsPurge(cfg, now, a, Local(cfg, now, q, a, step).1);
    }
  }

  // ------------------------------------------------------------ whole runs

  ghost predicate AllStorageOk(s: System) {
    Allocated(s) && forall id :: id in s.attachments ==> StorageOk(s.attachments[id])
  }

  lemma StorageNext(s: System, step: Step)
    requires AllStorageOk(s)
    ensures AllStorageOk(Next(s, step))
  {
    AllocatedNext(s, step);
    forall id | id in Next(s, step).attachments ensures StorageOk(Next(s, step).attachments[id]) {
      StepIsLocal(s, step, id);
      if id in s.attachments && Effect(s, step, id).Some? {
        var a := s.attachments[id];
        StorageStep(s.cfg, s.now, s.requests[a.row.request], a, Effect(s, step, id).value);
      }
    }
  }

  lemma {:induction false} StorageRun(s: System, steps: seq<Step>)
    requires AllStorageOk(s)
    ensures AllStorageOk(Run(s, steps))
    decreases |steps|
  {
    if steps != [] {
      StorageNext(s, steps[0]);
      StorageRun(Next(s, steps[0]), steps[1..]);
    }
  }

  /** Whatever uploaders, students, scanners, operators and the reconciler do, wherever they crash and whichever
      commit acknowledgements are lost, a STORED row has its object. */
  lemma StoredRowsHaveTheirObject(s: System, steps: seq<Step>, id: AttachmentId)
    requires Initial(s)
    ensures var t := Run(s, steps);
            id in t.attachments && t.attachments[id].row.storage == Stored ==> t.attachments[id].inStore
  {
    StorageRun(s, steps);
  }

  lemma RowNext(s: System, step: Step, id: AttachmentId)
    requires Allocated(s) && id in s.attachments
    ensures id in Next(s, step).attachments
    ensures var before, after := s.attachments[id].row.storage, Next(s, step).attachments[id].row.storage;
            && Rank(before) <= Rank(after) && (after == Stored ==> before == PendingUpload || before == Stored)
            && (after == Stored && before != Stored ==> step.Acting? && step.id == id && step.step.Finalizing?)
  {
    assert id < s.nextAttachment;
    StepIsLocal(s, step, id);
    if Effect(s, step, id).Some? {
      var a := s.attachments[id];
      StorageAdvances(s.cfg, s.now, s.requests[a.row.request], a, Effect(s, step, id).value);
    }
  }

  /** Rows only advance, and once a row has failed, or has left STORED, no run makes it STORED again. */
  lemma {:induction false} StoredIsNeverReentered(s: System, steps: seq<Step>, id: AttachmentId)
    requires Allocated(s) && id in s.attachments
    ensures id in Run(s, steps).attachments
    ensures var before, after := s.attachments[id].row.storage, Run(s, steps).attachments[id].row.storage;
            Rank(before) <= Rank(after) && (after == Stored ==> before == PendingUpload || before == Stored)
    decreases |steps|
  {
    if steps != [] {
      RowNext(s, steps[0], id);
      AllocatedNext(s, steps[0]);
      StoredIsNeverReentered(Next(s, steps[0]), steps[1..], id);
    }
  }

  /** What is known of attachment `id`, once it exists. */
  ghost predicate PurgeOkAt(s: System, id: AttachmentId) {
    Allocated(s) && (id in s.attachments ==> PurgeOk(s.cfg, s.now, s.attachments[id]))
  }

  /** The environment honours the age fences for attachment `id`: in every state of the run its PUT in flight, if any,
      can still land in time. */
  ghost predicate Timely(s: System, steps: seq<Step>, id: AttachmentId)
    decreases |steps|
  {
    && (id in s.attachments ==> Punctual(s.now, s.attachments[id]))
    && (steps == [] || Timely(Next(s, steps[0]), steps[1..], id))
  }

  lemma PurgeNext(s: System, step: Step, id: AttachmentId)
    requires PurgeOkAt(s, id) && (id in s.attachments ==> Punctual(s.now, s.attachments[id]))
    ensures PurgeOkAt(Next(s, step), id)
  {
    AllocatedNext(s, step);
    if id in Next(s, step).attachments {
      StepIsLocal(s, step, id);
      if id in s.attachments && Effect(s, step, id).Some? {
        var a := s.attachments[id];
        PurgeStep(s.cfg, s.now, s.requests[a.row.request], a, Effect(s, step, id).value);
      }
    }
  }

  lemma {:induction false} PurgeRun(s: System, steps: seq<Step>, id: AttachmentId)
    requires PurgeOkAt(s, id) && Timely(s, steps, id)
    ensures PurgeOkAt(Run(s, steps), id)
    decreases |steps|
  {
    if steps != [] {
      PurgeNext(s, steps[0], id);
      PurgeRun(Next(s, steps[0]), steps[1..], id);
    }
  }

  lemma InitiallyClean(s: System, id: AttachmentId)
    requires Initial(s)
    ensures PurgeOkAt(s, id) && AllStorageOk(s)
  {
  }

  predicate Gone(a: Attachment) {
    !a.inStore && a.put.None?
  }

  lemma GoneStep(cfg: Config, now: Time, q: Request, a: Attachment, step: LocalStep)
    requires Gone(a)
    ensures Gone(Local(cfg, now, q, a, step).1)
  {
  }

  /** An absent object without a PUT in flight stays absent in every continuation, timely or not. */
  lemma {:induction false} GoneForever(s: System, steps: seq<Step>, id: AttachmentId)
    requires Allocated(s) && id in s.attachments && Gone(s.attachments[id])
    ensures id in Run(s, steps).attachments && Gone(Run(s, steps).attachments[id])
    decreases |steps|
  {
    if steps != [] {
      var step := steps[0];
      RowNext(s, step, id);
      StepIsLocal(s, step, id);
      if Effect(s, step, id).Some? {
        GoneStep(s.cfg, s.now, s.requests[s.attachments[id].row.request], s.attachments[id], Effect(s, step, id).value);
      }
      AllocatedNext(s, step);
      GoneForever(Next(s, step), steps[1..], id);
    }
  }

  ghost predicate Present(s: System, id: AttachmentId) { id in s.attachments && s.attachments[id].inStore }

  /** Whether the object is there after the run. */
  ghost predicate PresentAfter(s: System, steps: seq<Step>, id: AttachmentId) { Present(Run(s, steps), id) }

  lemma ObjectCanAppear(s: System, id: AttachmentId) returns (steps: seq<Step>)
    requires Allocated(s) && id in s.attachments && !Gone(s.attachments[id])
    ensures PresentAfter(s, steps, id)
  {
    steps := [];
    if !s.attachments[id].inStore {
      var landing := Acting(id, PutLanding(true));
      steps := [landing];
      assert steps[1..] == [];
      assert Run(s, steps) == Run(Next(s, landing), []);
      assert Present(Next(s, landing), id);
    }
  }

  /** The object is absent in every continuation exactly when it is absent and no PUT is in flight. */
  lemma AbsentForeverIff(s: System, id: AttachmentId)
    requires Allocated(s) && id in s.attachments
    ensures (forall steps :: !PresentAfter(s, steps, id)) <==> Gone(s.attachments[id])
  {
    if Gone(s.attachments[id]) {
      forall steps ensures !PresentAfter(s, steps, id) {
        GoneForever(s, steps, id);
      }
    } else {
      var steps := ObjectCanAppear(s, id);
    }
  }

  /** If an attachment's PUT lands within the age fences up to the moment its row is DELETED, its object is absent then
      and in every continuation, whatever happens to the row, and to other attachments, afterwards. */
  lemma DeletedObjectsStayGone(s: System, steps: seq<Step>, rest: seq<Step>, id: AttachmentId)
    requires Initial(s) && Timely(s, steps, id)
    requires id in Run(s, steps).attachments && Run(s, steps).attachments[id].row.storage == Deleted
    ensures !Run(s, steps).attachments[id].inStore
    ensures id in Run(Run(s, steps), rest).attachments && !Run(Run(s, steps), rest).attachments[id].inStore
  {
    PurgeRun(s, steps, id);
    assert PurgeOk(Run(s, steps).cfg, Run(s, steps).now, Run(s, steps).attachments[id]);
    GoneForever(Run(s, steps), rest, id);
  }

  /** The fences are needed: a PUT that lands after its abandoned upload was reconciled brings the object back. */
  lemma LatePutResurrects(cfg: Config, q: Request)
    ensures var t := cfg.pendingUploadAge;
            var taken := ReconcilerTakes(cfg, t, Reserved(cfg, 0, 0, 1));
            var deleted := FinishRemoval(t, RemoveObject(taken, 0), 0);
            && deleted.row.storage == Deleted && !Punctual(t, deleted)
            && PutLands(deleted, false).row.storage == Deleted && PutLands(deleted, false).inStore
  {
    var taken := ReconcilerTakes(cfg, cfg.pendingUploadAge, Reserved(cfg, 0, 0, 1));
    assert taken.removals == map[0 := Removal(ByReconciler, false)];
  }
}
