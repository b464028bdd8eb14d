/** What the upload, deletion and reconciliation transactions answer and leave, and how files come to rest: stored,
    deleted or failed. */
module UploadOutcomes {
  import opened Wrappers
  import opened RequestStates
  import opened AttachmentModel
  import opened UploadQuota
  import opened ScanLeases

  predicate Ended(status: RequestStatus) { status in {Completed, Cancelled, Rejected} }

  // ------------------------------------------------------------ uploads

  /** The bytes arrive, once; whether the uploader learns of it decides whether it goes on. */
  lemma LandingAnswers(a: Attachment, acknowledged: bool)
    ensures var b := PutLands(a, acknowledged);
            && (a.put.None? ==> b == a)
            && (a.put.Some? ==>
                  b == a.(inStore := true, put := None,
                          upload := if acknowledged && a.upload == Putting then Acknowledged else a.upload))
  {
  }

  /** Bytes that never arrive leave everything as it was. */
  lemma VanishingLeaves(cfg: Config, now: Time, q: Request, a: Attachment)
    ensures Local(cfg, now, q, a, PutVanishing) == (q, a.(put := None))
  {
  }

  /** A failed PUT turns the uploader around and leaves at most `minimumAge` for bytes still on their way. */
  lemma FailedPutAnswers(cfg: Config, now: Time, a: Attachment)
    ensures var b := PutFails(cfg, now, a);
            && (a.upload == Putting ==>
                  && b.upload == Failing && b.row == a.row && b.inStore == a.inStore && b.put.Some? == a.put.Some?
                  && (a.put.Some? ==> b.put.value <= a.put.value && b.put.value <= now + cfg.minimumAge
                                      && (b.put.value == a.put.value || b.put.value == now + cfg.minimumAge)))
            && (a.upload != Putting ==> b == a)
  {
  }

  /** Finalization needs a request that has not ended and a row that is still pending, in this order. */
  lemma FinalizationAnswers(now: Time, q: Request, a: Attachment, policy: Scan)
    ensures var r := FinalizeTx(now, q, a, policy);
            && (r == Err(InvalidTransition) <==> Ended(q.status))
            && (r == Err(AttachmentStateInvalid) <==> !Ended(q.status) && a.row.storage != PendingUpload)
            && (r.Ok? <==> !Ended(q.status) && a.row.storage == PendingUpload)
  {
  }

  /** It stores the file under the policy's scan status, with an event at the request's next version, and queues a scan
      exactly when the policy asks for one. */
  lemma FinalizationLeaves(now: Time, q: Request, a: Attachment, policy: Scan)
    requires !Ended(q.status) && a.row.storage == PendingUpload
    ensures var (q', b) := FinalizeTx(now, q, a, policy).value;
            && q' == q.(version := q.version + 1)
            && b.row == a.row.(storage := Stored, scan := policy, updatedAt := now)
            && b.events == a.events + [AttachmentAdded(q.version + 1)]
            && b.job == (if policy == PendingScan && a.job.None? then Some(Job(Pending, 0, now)) else a.job)
            && b.inStore == a.inStore && b.put == a.put && b.removals == a.removals && b.workers == a.workers
  {
  }

  /** The uploader that got no acknowledgement of its PUT, or is asked for another policy, does not finalize; one whose
      finalization fails, or whose commit's acknowledgement is lost, turns around. */
  lemma UploaderTurnsAround(now: Time, q: Request, a: Attachment, policy: Scan, ackLost: bool)
    ensures var r, (q', b) := FinalizeTx(now, q, a, policy), Finalize(now, q, a, policy, ackLost);
            var goes := a.upload == Acknowledged && policy in {PendingScan, SkippedDevelopment, SkippedByAdmin};
            && (!goes ==> q' == q && b == a)
            && (goes && r.Err? ==> q' == q && b == a.(upload := Failing))
            && (goes && r.Ok? ==> q' == r.value.0 && b == r.value.1.(upload := if ackLost then Failing else Finished))
  {
  }

  /** Only a pending row fails, and only for an uploader that has given up. */
  lemma FailureAnswers(now: Time, a: Attachment)
    ensures var b := MarkUploadFailed(now, a);
            && (a.upload == Failing && a.row.storage == PendingUpload ==>
                  b == a.(upload := Finished,
                          row := a.row.(storage := UploadFailed, scan := NotRequired, updatedAt := now)))
            && (a.upload == Failing && a.row.storage != PendingUpload ==> b == a.(upload := Finished))
            && (a.upload != Failing ==> b == a)
  {
  }

  /** The whole way of an upload that meets no failure: reserved at `t`, landed, finalized at `u`. */
  function Uploaded(cfg: Config, t: Time, r: RequestId, size: nat, u: Time, q: Request, policy: Scan, ackLost: bool)
    : (Request, Attachment)
  {
    Finalize(u, q, PutLands(Reserved(cfg, t, r, size), true), policy, ackLost)
  }

  /** It ends STORED with its object there and one event; and if only the commit's acknowledgement is lost, marking the
      upload failed afterwards changes nothing of that. */
  lemma UploadsComeToRest(cfg: Config, t: Time, r: RequestId, size: nat, u: Time, q: Request, policy: Scan, ackLost: bool,
                          later: Time)
    requires !Ended(q.status) && policy in {PendingScan, SkippedDevelopment, SkippedByAdmin}
    ensures var (q', a) := Uploaded(cfg, t, r, size, u, q, policy, ackLost);
            var b := MarkUploadFailed(later, a);
            && q'.version == q.version + 1 && a.inStore && a.put.None?
            && a.row == Row(r, size, Stored, policy, 0, None, u) && a.events == [AttachmentAdded(q.version + 1)]
            && a.job == (if policy == PendingScan then Some(Job(Pending, 0, u)) else None)
            && b.row == a.row && b.inStore && b.job == a.job && b.events == a.events && b.upload == Finished
            && (policy == PendingScan ==> Waits(a))
  {
  }

  // ------------------------------------------------------------ deletion

  /** A student's deletion needs, in this order, the request, its version, a request that has not ended, a file of it
      that is not deleted, and one that no longer waits for its bytes. */
  lemma DeletionAnswers(s: System, r: RequestId, id: AttachmentId, version: nat)
    ensures var e := DeleteError(s, r, id, version);
            var found := r in s.requests;
            var current := found && s.requests[r].version == version;
            var open := current && !Ended(s.requests[r].status);
            var there := open && id in s.attachments && s.attachments[id].row.request == r
                         && s.attachments[id].row.deletedAt.None?;
            var ready := there && s.attachments[id].row.storage != PendingUpload;
            && (e == Some(RequestNotFound) <==> !found)
            && (e == Some(VersionConflict) <==> found && !current)
            && (e == Some(InvalidTransition) <==> current && !open)
            && (e == Some(AttachmentNotFound) <==> open && !there)
            && (e == Some(AttachmentNotReady) <==> there && !ready)
            && (e.None? <==> ready)
  {
  }

  /** It condemns the row at this time, tells the request at its next version, and begins the removal of the object at
      once, except after a failed upload, whose bytes may still come. */
  lemma DeletionLeaves(s: System, r: RequestId, id: AttachmentId, version: nat)
    requires DeleteError(s, r, id, version).None?
    ensures var t, a := Next(s, StudentDeletes(r, id, version)), s.attachments[id];
            && t.requests == s.requests[r := s.requests[r].(version := version + 1)]
            && t.attachments.Keys == s.attachments.Keys && t.now == s.now
            && (forall i :: i in s.attachments && i != id ==> t.attachments[i] == s.attachments[i])
            && var b := t.attachments[id];
               && b.row == a.row.(deletedAt := Some(s.now), storage := DeletePending, updatedAt := s.now)
               && b.events == a.events + [AttachmentRemoved(version + 1)] && b.job == a.job && b.inStore == a.inStore
               && b.removals == (if a.row.storage == UploadFailed then a.removals
                                 else a.removals[a.nextRemoval := Removal(ByStudent, false)])
  {
  }

  lemma RefusedDeletionWritesNothing(s: System, r: RequestId, id: AttachmentId, version: nat)
    requires DeleteError(s, r, id, version).Some?
    ensures Next(s, StudentDeletes(r, id, version)) == s
  {
  }

  /** Each removal has a ticket of its own, and leaves row, job and object as they are until it is carried out. */
  lemma RemovalsHaveTheirTickets(a: Attachment, remover: Remover)
    ensures var b := BeginRemoval(a, remover);
            && b.nextRemoval == a.nextRemoval + 1 && b.removals == a.removals[a.nextRemoval := Removal(remover, false)]
            && b == a.(removals := b.removals, nextRemoval := b.nextRemoval)
  {
  }

  /** Removing takes the object away; marking needs a removal that is done and a condemned row, and for the scanner the
      infected verdict of its own attempt. */
  lemma RemovalAnswers(now: Time, a: Attachment, ticket: nat)
    requires ticket in a.removals
    ensures var b := RemoveObject(a, ticket);
            && !b.inStore && b.removals == a.removals[ticket := a.removals[ticket].(done := true)] && b.row == a.row
    ensures var removal, b := a.removals[ticket], FinishRemoval(now, a, ticket);
            var own := match removal.remover
              case ByScanner(k) => a.row.scan == Infected && a.row.scanAttempt == k
              case _ => true;
            && (!removal.done ==> b == a)
            && (removal.done ==> b.removals == a.removals - {ticket} && b.inStore == a.inStore && b.job == a.job)
            && (removal.done && a.row.storage == DeletePending && own ==>
                  b.row == a.row.(storage := Deleted, updatedAt := now))
            && (removal.done && !(a.row.storage == DeletePending && own) ==> b.row == a.row)
  {
  }

  /** A removal that nobody disturbs, from its beginning to the mark. */
  function Removed(now: Time, a: Attachment, ticket: nat): Attachment {
    FinishRemoval(now, RemoveObject(a, ticket), ticket)
  }

  /** So a stored file that its student deletes comes to rest DELETED with its object gone, and its scan job, if any,
      can no longer start. */
  lemma DeletedFilesComeToRest(now: Time, q: Request, a: Attachment, later: Time)
    requires !Ended(q.status) && a.row.storage == Stored && a.row.deletedAt.None?
    ensures var r := DeleteTx(now, q, a);
            && r.Ok?
            && var b := Removed(later, r.value.1, a.nextRemoval);
               && b.row.storage == Deleted && b.row.deletedAt == Some(now) && !b.inStore && !Scannable(b.row)
               && b.events == a.events + [AttachmentRemoved(q.version + 1)]
  {
  }

  /** An infected file comes to rest DELETED as well, still without a deletion time. */
  lemma InfectedFilesComeToRest(now: Time, q: Request, a: Attachment, w: WorkerId, later: Time)
    requires InPhase(a, w, Scanning) && MayWrite(a, a.workers[w].token)
    ensures var (q', b) := Complete(now, q, a, w, Infected);
            var c := Removed(later, b, a.nextRemoval);
            && c.row.storage == Deleted && c.row.scan == Infected && c.row.deletedAt.None? && !c.inStore
            && c.job == Some(Job(JobStatus.Delivered, a.workers[w].token, now))
            && c.events == a.events + [ScanCompleted(Infected, q.version + 1)]
  {
    CompletionAnswers(now, q, a, w, Infected);
  }

  // ------------------------------------------------------------ reconciliation

  /** The reconciler may take a pending upload from its age on, and a failed or condemned row from the other age on, and
      nothing else and not before. */
  lemma OldRowsAreReconcilable(cfg: Config, now: Time, row: Row)
    ensures row.storage == PendingUpload ==> (Reconcilable(cfg, now, row) <==> now - row.updatedAt >= cfg.pendingUploadAge)
    ensures row.storage in {UploadFailed, DeletePending} ==>
              (Reconcilable(cfg, now, row) <==> now - row.updatedAt >= cfg.minimumAge)
    ensures row.storage in {Stored, Deleted} ==> !Reconcilable(cfg, now, row)
  {
  }

  /** What it takes is condemned and stamped, deleted from this time on unless it is so already or was infected, and its
      removal begun. */
  lemma TakingLeaves(cfg: Config, now: Time, a: Attachment)
    requires Reconcilable(cfg, now, a.row)
    ensures var b := ReconcilerTakes(cfg, now, a);
            && b.row.storage == DeletePending && b.row.updatedAt == now && b.row.scan == a.row.scan
            && b.row.scanAttempt == a.row.scanAttempt && b.row.size == a.row.size && b.row.request == a.row.request
            && (a.row.deletedAt.Some? || a.row.scan == Infected ==> b.row.deletedAt == a.row.deletedAt)
            && (a.row.deletedAt.None? && a.row.scan != Infected ==> b.row.deletedAt == Some(now))
            && b.removals == a.removals[a.nextRemoval := Removal(ByReconciler, false)]
            && b.job == a.job && b.events == a.events && b.inStore == a.inStore && b.put == a.put && b.upload == a.upload
  {
  }

  lemma OthersAreNotTaken(cfg: Config, now: Time, a: Attachment)
    requires !Reconcilable(cfg, now, a.row)
    ensures ReconcilerTakes(cfg, now, a) == a
  {
  }

  /** An abandoned upload, whether it failed or its uploader is gone, comes to rest DELETED with no object. */
  lemma AbandonedFilesComeToRest(cfg: Config, now: Time, a: Attachment, later: Time)
    requires Reconcilable(cfg, now, a.row)
    ensures var b := Removed(later, ReconcilerTakes(cfg, now, a), a.nextRemoval);
            b.row.storage == Deleted && !b.inStore && (b.row.deletedAt.Some? || b.row.scan == Infected)
  {
  }

  /** The reconciler takes exactly what the batch names. */
  lemma BatchIsTaken(s: System, batch: set<AttachmentId>, id: AttachmentId)
    requires id in s.attachments
    ensures var t := ReconcileClaim(s, batch);
            && t.requests == s.requests && t.now == s.now && t.attachments.Keys == s.attachments.Keys
            && t.attachments[id]
               == if id in batch then ReconcilerTakes(s.cfg, s.now, s.attachments[id]) else s.attachments[id]
  {
  }

  /** A batch takes, of the rows that are old enough and not locked, those last written first, the smaller identifier
      among equals; it leaves one out only when it is full. */
  lemma BatchesAreTheOldest(s: System, limit: nat, locked: set<AttachmentId>, batch: set<AttachmentId>, i: AttachmentId,
                            j: AttachmentId)
    requires IsBatch(s, limit, locked, batch) && i in batch
    requires j in s.attachments && j !in locked && j !in batch && Reconcilable(s.cfg, s.now, s.attachments[j].row)
    ensures i in s.attachments && i !in locked && Reconcilable(s.cfg, s.now, s.attachments[i].row)
    ensures s.attachments[i].row.updatedAt < s.attachments[j].row.updatedAt
            || (s.attachments[i].row.updatedAt == s.attachments[j].row.updatedAt && i < j)
    ensures |batch| == limit
  {
    assert i in Eligibles(s, locked) && j in Eligibles(s, locked);
    if |batch| != limit {
      assert |batch| == |Eligibles(s, locked)|;
      SmallerSubset(batch, Eligibles(s, locked), j);
    }
  }

  lemma SmallerSubset(small: set<AttachmentId>, large: set<AttachmentId>, x: AttachmentId)
    requires small <= large && x in large && x !in small
    ensures |small| < |large|
  {
    assert small + {x} <= large;
    assert |large| == |small + {x}| + |large - (small + {x})|;
  }

  /** A batch holds between one and twenty rows, as many as it is asked for in between. */
  lemma BatchesAreBounded(limit: int)
    ensures 1 <= BoundedLimit(limit) <= 20 && (1 <= limit <= 20 ==> BoundedLimit(limit) == limit)
    ensures limit < 1 ==> BoundedLimit(limit) == 1
    ensures limit > 20 ==> BoundedLimit(limit) == 20
  {
  }
}
