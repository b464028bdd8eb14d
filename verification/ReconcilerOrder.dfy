/** Exactly when the reconciler's queue keeps its order: whether a row that was claimed can be claimed again before one
    that was passed over. */
module ReconcilerOrder {
  import opened Wrappers
  import opened RequestStates
  import opened AttachmentModel
  import opened ObjectLifecycle
  import opened ReconcilerFairness

  // ------------------------------------------- what a queued row says of its upload

  /** A row that still waits for its bytes, or has failed, is not deleted, and a pending one has its uploader at work.
      */
  ghost predicate UploadOk(a: Attachment) {
    && (a.row.storage == PendingUpload ==> a.row.deletedAt.None? && a.upload != Finished)
    && (a.row.storage == UploadFailed ==> a.row.deletedAt.None?)
  }

  lemma ScanKeepsUpload(cfg: Config, now: Time, q: Request, a: Attachment, step: LocalStep)
    requires StorageOk(a) && UploadOk(a)
    requires step.ClaimingJob? || step.Starting? || step.Burying? || step.Completing? || step.Retrying?
             || step.Deferring? || step.Resetting?
    ensures UploadOk(Local(cfg, now, q, a, step).1)
  {
    ScanFrames(cfg, now, q, a, step);
  }

  lemma UploadOkStep(cfg: Config, now: Time, q: Request, a: Attachment, step: LocalStep)
    requires StorageOk(a) && UploadOk(a)
    ensures UploadOk(Local(cfg, now, q, a, step).1)
  {
    if step.ClaimingJob? || step.Starting? || step.Burying? || step.Completing? || step.Retrying? || step.Deferring?
       || step.Resetting? {
      ScanKeepsUpload(cfg, now, q, a, step);
    }
  }

  ghost predicate AllUploadsOk(s: System) {
    AllStorageOk(s) && forall id :: id in s.attachments ==> UploadOk(s.attachments[id])
  }

  lemma UploadsNext(s: System, step: Step)
    requires AllUploadsOk(s)
    ensures AllUploadsOk(Next(s, step))
  {
    StorageNext(s, step);
    forall id | id in Next(s, step).attachments ensures UploadOk(Next(s, step).attachments[id]) {
      StepIsLocal(s, step, id);
      if id in s.attachments && Effect(s, step, id).Some? {
        var a := s.attachments[id];
        UploadOkStep(s.cfg, s.now, s.requests[a.row.request], a, Effect(s, step, id).value);
      }
    }
  }

  /** So it is in every reachable state. */
  lemma {:induction false} UploadsRun(s: System, steps: seq<Step>)
    requires AllUploadsOk(s)
    ensures AllUploadsOk(Run(s, steps))
    decreases |steps|
  {
    if steps != [] {
      UploadsNext(s, steps[0]);
      UploadsRun(Next(s, steps[0]), steps[1..]);
    }
  }

  lemma InitiallyUploadsOk(s: System)
    requires Initial(s)
    ensures AllUploadsOk(s)
  {
  }

  // --------------------------------------------------------------- overtaking

  /** Along the run `a` is claimed, not for a lock on `b`, while `b` stays in the queue unclaimed. */
  ghost predicate Overtakes(s: System, steps: seq<Step>, a: AttachmentId, b: AttachmentId) {
    PassedOver(s, steps, b) && ClaimsOf(s, steps, a, b) > 0
  }

  lemma StepFirst(s: System, step: Step, rest: seq<Step>, a: AttachmentId, b: AttachmentId)
    requires b in s.attachments && InQueue(s.attachments[b].row) && (Claims(s, step) ==> b !in step.batch)
    requires Overtakes(Next(s, step), rest, a, b)
    ensures Overtakes(s, [step] + rest, a, b)
  {
    assert ([step] + rest)[1..] == rest;
  }

  /** `a` was claimed at an earlier time than the present, and `b` is in the queue. */
  ghost predicate Contest(s: System, a: AttachmentId, b: AttachmentId) {
    && Allocated(s) && a in s.attachments && b in s.attachments && a != b
    && s.attachments[a].row.storage == DeletePending && s.attachments[a].row.updatedAt < s.now
    && InQueue(s.attachments[b].row)
  }

  /** The first of some rows in queue order. */
  lemma {:induction false} OldestOf(s: System, ids: set<AttachmentId>) returns (x: AttachmentId)
    requires ids != {} && ids <= s.attachments.Keys
    ensures x in ids && forall y :: y in ids && y != x ==> Before(s, x, y)
    decreases |ids|
  {
    var z :| z in ids;
    if ids == {z} {
      x := z;
    } else {
      var y := OldestOf(s, ids - {z});
      x := if Before(s, z, y) then z else y;
      forall w | w in ids && w != x ensures Before(s, x, w) {
        assert w == z || w in ids - {z};
      }
    }
  }

  /** The batch of one that the claim query returns when nobody holds a lock. */
  lemma NextBatchOfOne(s: System) returns (x: AttachmentId)
    requires Eligibles(s, {}) != {}
    ensures IsBatch(s, 1, {}, {x}) && forall y :: y in Eligibles(s, {}) && y != x ==> Before(s, x, y)
  {
    var ids := Eligibles(s, {});
    x := OldestOf(s, ids);
    SubsetSize({x}, ids);
    assert |{x}| == 1 && Min(1, |ids|) == 1;
    assert forall a, b :: a in {x} && b in ids && b !in {x} ==> Before(s, a, b);
  }

  /** `a` is old enough and ahead of `b`. */
  ghost predicate Due(s: System, a: AttachmentId, b: AttachmentId) {
    && Allocated(s) && Waiting(s, a) && b in s.attachments && a != b && InQueue(s.attachments[b].row) && Before(s, a, b)
  }

  /** Then batches of one, with no locks held, take what is ahead of `a`, each going to the back, and then `a`. */
  lemma {:induction false} DueIsClaimed(s: System, a: AttachmentId, b: AttachmentId) returns (steps: seq<Step>)
    requires Due(s, a, b)
    ensures Overtakes(s, steps, a, b)
    decreases |Ahead(s, a)|
  {
    assert a in Eligibles(s, {});
    var x := NextBatchOfOne(s);
    var claim := ReconcilerClaims(1, {}, {x});
    var t := Next(s, claim);
    assert x != b && Claims(s, claim) && t.attachments[b] == s.attachments[b];
    if x == a {
      steps := [claim];
      assert steps[1..] == [];
      assert PassedOver(t, [], b);
    } else {
      assert t.attachments[a] == s.attachments[a];
      BatchLeavesTheQueueAhead(s, claim, a);
      AllocatedNext(s, claim);
      steps := DueIsClaimed(t, a, b);
      StepFirst(s, claim, steps, a, b);
      steps := [claim] + steps;
    }
  }

  /** Being ahead is enough: its time comes. */
  lemma AheadIsClaimed(s: System, a: AttachmentId, b: AttachmentId) returns (steps: seq<Step>)
    requires Allocated(s) && a in s.attachments && b in s.attachments && a != b && InQueue(s.attachments[b].row)
    requires s.attachments[a].row.storage == DeletePending && s.attachments[a].row.updatedAt <= s.now && Before(s, a, b)
    ensures Overtakes(s, steps, a, b)
  {
    var tick := Tick(s.now + s.cfg.minimumAge + 1);
    AllocatedNext(s, tick);
    steps := DueIsClaimed(Next(s, tick), a, b);
    StepFirst(s, tick, steps, a, b);
    steps := [tick] + steps;
  }

  lemma OtherWriteLeavesAttachments(s: System, r: RequestId, actor: Role, status: RequestStatus)
    requires Allocated(s) && r in s.requests && CanTransition(s.requests[r].status, status, actor)
    ensures var t := Next(s, OtherWrite(r, actor, status));
            && t.attachments == s.attachments && t.now == s.now && Allocated(t)
            && r in t.requests && t.requests[r].status == status
  {
    AllocatedNext(s, OtherWrite(r, actor, status));
  }

  lemma ActsOnOne(s: System, b: AttachmentId, l: LocalStep)
    requires Allocated(s) && b in s.attachments && !l.Deleting? && !l.Reconciling?
    ensures var a := s.attachments[b];
            var t := Next(s, Acting(b, l));
            && t.attachments == s.attachments[b := Local(s.cfg, s.now, s.requests[a.row.request], a, l).1]
            && t.now == s.now && Allocated(t)
  {
    AllocatedNext(s, Acting(b, l));
  }

  // ------------------------------------------------ the writes that let `a` pass

  predicate Open(s: System, b: AttachmentId)
    requires b in s.attachments && s.attachments[b].row.request in s.requests
  {
    AttachmentModel.Eligible(s.requests[s.attachments[b].row.request].status)
  }

  /** A student who may still delete `b` sends it back. */
  lemma DeletionLetsPass(s: System, a: AttachmentId, b: AttachmentId) returns (steps: seq<Step>)
    requires Contest(s, a, b) && Open(s, b)
    requires s.attachments[b].row.deletedAt.None? && s.attachments[b].row.storage != PendingUpload
    ensures Overtakes(s, steps, a, b)
  {
    var r := s.attachments[b].row.request;
    var deleting := StudentDeletes(r, b, s.requests[r].version);
    assert DeleteError(s, r, b, s.requests[r].version).None?;
    AllocatedNext(s, deleting);
    var t := Next(s, deleting);
    assert t.attachments[b].row.storage == DeletePending && t.attachments[b].row.updatedAt == s.now;
    assert t.attachments[a] == s.attachments[a];
    steps := AheadIsClaimed(t, a, b);
    StepFirst(s, deleting, steps, a, b);
    steps := [deleting] + steps;
  }

  /** An uploader that has given up sends it back. */
  lemma FailureLetsPass(s: System, a: AttachmentId, b: AttachmentId) returns (steps: seq<Step>)
    requires Contest(s, a, b) && s.attachments[b].row.storage == PendingUpload && s.attachments[b].upload == Failing
    ensures Overtakes(s, steps, a, b)
  {
    ActsOnOne(s, b, MarkingFailed);
    steps := AheadIsClaimed(Next(s, Acting(b, MarkingFailed)), a, b);
    StepFirst(s, Acting(b, MarkingFailed), steps, a, b);
    steps := [Acting(b, MarkingFailed)] + steps;
  }

  lemma FailedPutLetsPass(s: System, a: AttachmentId, b: AttachmentId) returns (steps: seq<Step>)
    requires Contest(s, a, b) && s.attachments[b].row.storage == PendingUpload && s.attachments[b].upload == Putting
    ensures Overtakes(s, steps, a, b)
  {
    ActsOnOne(s, b, PutFailing);
    steps := FailureLetsPass(Next(s, Acting(b, PutFailing)), a, b);
    StepFirst(s, Acting(b, PutFailing), steps, a, b);
    steps := [Acting(b, PutFailing)] + steps;
  }

  /** How far a status is from the end of its request, and the edge of the matrix to take next. */
  function ToEnd(status: RequestStatus): nat {
    if !AttachmentModel.Eligible(status) then 0 else if status == RevisionRequested then 2 else 1
  }

  function TowardsEnd(status: RequestStatus): (RequestStatus, Role) {
    if status == RevisionRequested then (RequestStatus.Delivered, Admin)
    else if status == RequestStatus.Delivered then (Completed, Student)
    else (Cancelled, if status == Draft then Student else Admin)
  }

  lemma EveryRequestCanEnd(status: RequestStatus)
    requires AttachmentModel.Eligible(status)
    ensures var (to, actor) := TowardsEnd(status); CanTransition(status, to, actor) && ToEnd(to) < ToEnd(status)
  {
    var i := match status
      case Draft => 1 case Submitted => 3 case UnderReview => 9 case WaitingForStudent => 12 case Quoted => 16
      case Accepted => 19 case InProgress => 22 case Delivered => 24 case _ => 26;
    assert TRANSITIONS[i].from == status && TRANSITIONS[i].to == TowardsEnd(status).0;
    assert TowardsEnd(status).1 in TRANSITIONS[i].actors;
  }

  /** The request comes to its end, so an acknowledged upload can no longer be finalized, and is marked failed. */
  lemma {:induction false} LateFinalizationLetsPass(s: System, a: AttachmentId, b: AttachmentId)
    returns (steps: seq<Step>)
    requires Contest(s, a, b) && s.attachments[b].row.storage == PendingUpload && s.attachments[b].upload == Acknowledged
    ensures Overtakes(s, steps, a, b)
    decreases ToEnd(s.requests[s.attachments[b].row.request].status)
  {
    var r := s.attachments[b].row.request;
    var step: Step;
    if Open(s, b) {
      EveryRequestCanEnd(s.requests[r].status);
      var (to, actor) := TowardsEnd(s.requests[r].status);
      step := OtherWrite(r, actor, to);
      OtherWriteLeavesAttachments(s, r, actor, to);
      steps := LateFinalizationLetsPass(Next(s, step), a, b);
    } else {
      step := Acting(b, Finalizing(PendingScan, false));
      ActsOnOne(s, b, Finalizing(PendingScan, false));
      assert Next(s, step).attachments[b] == s.attachments[b].(upload := Failing);
      steps := FailureLetsPass(Next(s, step), a, b);
    }
    StepFirst(s, step, steps, a, b);
    steps := [step] + steps;
  }

  // ------------------------------------------------------ rows nobody writes again

  predicate MarkedDeleted(row: Row) {
    row.storage == DeletePending && row.deletedAt.Some?
  }

  /** While `b` stays in the queue nobody but the reconciler writes it: it is deleted already, or it no longer waits for
      its bytes and its request has ended, so that the student's deletion is refused. */
  predicate Frozen(s: System, b: AttachmentId)
    requires b in s.attachments && s.attachments[b].row.request in s.requests
  {
    MarkedDeleted(s.attachments[b].row) || (s.attachments[b].row.storage != PendingUpload && !Open(s, b))
  }

  lemma FrozenLocally(cfg: Config, now: Time, q: Request, a: Attachment, step: LocalStep)
    requires StorageOk(a) && InQueue(a.row) && !step.Reconciling?
    requires MarkedDeleted(a.row) || (a.row.storage != PendingUpload && !AttachmentModel.Eligible(q.status))
    ensures var b := Local(cfg, now, q, a, step).1; b.row == a.row || !InQueue(b.row)
  {
    if MarkedDeleted(a.row) { WritesRunOut(cfg, now, q, a, step); }
  }

  lemma StatusIsOthersMatter(cfg: Config, now: Time, q: Request, a: Attachment, step: LocalStep)
    ensures Local(cfg, now, q, a, step).0.status == q.status
  {
  }

  /** A request that has ended stays as it ended. */
  lemma EndedStays(s: System, step: Step, r: RequestId)
    requires r in s.requests && !AttachmentModel.Eligible(s.requests[r].status)
    ensures r in Next(s, step).requests && Next(s, step).requests[r].status == s.requests[r].status
  {
    TerminalMeansNoExit(s.requests[r].status);
    if step.Acting? || step.StudentDeletes? {
      var id := step.id;
      if id in s.attachments && s.attachments[id].row.request in s.requests {
        var q := s.requests[s.attachments[id].row.request];
        StatusIsOthersMatter(s.cfg, s.now, q, s.attachments[id], if step.Acting? then step.step else Deleting);
      }
    }
  }

  lemma FrozenStep(s: System, step: Step, b: AttachmentId)
    requires AllStorageOk(s) && b in s.attachments && InQueue(s.attachments[b].row) && Frozen(s, b)
    requires Claims(s, step) ==> b !in step.batch
    requires b in Next(s, step).attachments && InQueue(Next(s, step).attachments[b].row)
    ensures Next(s, step).attachments[b].row == s.attachments[b].row
    ensures s.attachments[b].row.request in Next(s, step).requests && Frozen(Next(s, step), b)
  {
    var a := s.attachments[b];
    StepIsLocal(s, step, b);
    AllocatedNext(s, step);
    if Effect(s, step, b).Some? {
      FrozenLocally(s.cfg, s.now, s.requests[a.row.request], a, Effect(s, step, b).value);
    }
    if !Open(s, b) { EndedStays(s, step, a.row.request); }
  }

  lemma {:induction false} FrozenIsNeverWritten(s: System, steps: seq<Step>, b: AttachmentId)
    requires AllStorageOk(s) && PassedOver(s, steps, b) && Frozen(s, b)
    ensures Writes(s, steps, b) == 0
    decreases |steps|
  {
    if steps != [] {
      PassedOverUnfolds(s, steps, b);
      FrozenStep(s, steps[0], b);
      StorageNext(s, steps[0]);
      FrozenIsNeverWritten(Next(s, steps[0]), steps[1..], b);
      WritesUnfold(s, steps, b);
    }
  }

  // ------------------------------------------------------------ the exact order

  lemma UnfrozenLetsPass(s: System, a: AttachmentId, b: AttachmentId) returns (steps: seq<Step>)
    requires Contest(s, a, b) && UploadOk(s.attachments[b]) && !Frozen(s, b)
    ensures Overtakes(s, steps, a, b)
  {
    if s.attachments[b].row.storage != PendingUpload {
      steps := DeletionLetsPass(s, a, b);
    } else {
      match s.attachments[b].upload {
        case Failing => steps := FailureLetsPass(s, a, b);
        case Putting => steps := FailedPutLetsPass(s, a, b);
        case _ => steps := LateFinalizationLetsPass(s, a, b);
      }
    }
  }

  /** A later moment, at which `a` was claimed in the past. */
  lemma LaterUnfrozenLetsPass(s: System, a: AttachmentId, b: AttachmentId) returns (steps: seq<Step>)
    requires Allocated(s) && a in s.attachments && b in s.attachments && a != b && InQueue(s.attachments[b].row)
    requires s.attachments[a].row.storage == DeletePending && s.attachments[a].row.updatedAt <= s.now
    requires UploadOk(s.attachments[b]) && !Frozen(s, b)
    ensures Overtakes(s, steps, a, b)
  {
    var tick := Tick(s.now + 1);
    AllocatedNext(s, tick);
    steps := UnfrozenLetsPass(Next(s, tick), a, b);
    StepFirst(s, tick, steps, a, b);
    steps := [tick] + steps;
  }

  /** When a batch takes `a` and passes over the reconcilable `b`, `b` is claimed before `a` is claimed again, or leaves
      the queue first, in every continuation, exactly when `b` is frozen at that moment and was not written at that very
      time with `a` first by identifier. Any other row can be sent back, by its student or by its uploader, and then no
      lock is needed for `a` to come first. */
  lemma OrderHoldsIff(s: System, limit: nat, locked: set<AttachmentId>, batch: set<AttachmentId>, a: AttachmentId,
                      b: AttachmentId)
    requires AllUploadsOk(s) && b in s.attachments && Reconcilable(s.cfg, s.now, s.attachments[b].row)
    requires 1 <= limit <= 20 && IsBatch(s, limit, locked, batch) && a in batch && b !in batch
    ensures (forall steps :: !Overtakes(ReconcileClaim(s, batch), steps, a, b))
            <==> Frozen(s, b) && (s.attachments[b].row.updatedAt < s.now || b < a)
  {
    var row, t := s.attachments[b].row, ReconcileClaim(s, batch);
    TakenGoesBehind(s, limit, locked, batch, a, b);
    assert a in Eligibles(s, locked);
    assert Frozen(t, b) == Frozen(s, b);
    if !Frozen(s, b) {
      assert UploadOk(s.attachments[b]);
      var steps := LaterUnfrozenLetsPass(t, a, b);
    } else if row.updatedAt == s.now && a < b {
      var steps := AheadIsClaimed(t, a, b);
    } else {
      forall steps ensures !Overtakes(t, steps, a, b) {
        if PassedOver(t, steps, b) {
          FrozenIsNeverWritten(t, steps, b);
          ClaimsPassingOverAreFew(t, steps, a, b);
        }
      }
    }
  }

  /** For a row that was last written before the present, as positive ages imply, that is being frozen alone. */
  lemma WaitingOrderHoldsIff(s: System, limit: nat, locked: set<AttachmentId>, batch: set<AttachmentId>, a: AttachmentId,
                             b: AttachmentId)
    requires AllUploadsOk(s) && Waiting(s, b)
    requires 1 <= limit <= 20 && IsBatch(s, limit, locked, batch) && a in batch && b !in batch
    ensures (forall steps :: !Overtakes(ReconcileClaim(s, batch), steps, a, b)) <==> Frozen(s, b)
  {
    OrderHoldsIff(s, limit, locked, batch, a, b);
  }
}
