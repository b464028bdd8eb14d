/** The attachment services over mutable records. Every method is one transaction or one object-store effect, written
    in place as the services write it; it refines the step of the state machine that carries its name, and keeps what
    that machine keeps. */
module AttachmentRecords {
  import opened Wrappers
  import opened RequestStates
  import M = AttachmentModel
  import opened AttachmentModel
  import L = ObjectLifecycle
  import F = ScanFencing

  class RequestRecord {
    var status: RequestStatus
    var version: nat
    const acceptsFiles: bool
    const maxFiles: nat
    const maxFileBytes: nat

    function View(): Request
      reads this
    {
      Request(status, version, acceptsFiles, maxFiles, maxFileBytes)
    }

    /** The reservation: `fileCount` and `totalBytes` are the aggregates of the counted rows, read under this
        request's row lock. */
    method ReserveUpload(cfg: Config, now: Time, request: RequestId, fileCount: nat, totalBytes: nat,
                         expectedVersion: nat, size: nat)
      returns (r: Result<AttachmentRecord, AttachmentError>)
      ensures match CapacityCheck(cfg, View(), fileCount, totalBytes, expectedVersion, size)
              case Some(e) => r == Err(e)
              case None => r.Ok? && fresh(r.value) && r.value.View() == Reserved(cfg, now, request, size)
    {
      if version != expectedVersion { return Err(VersionConflict); }
      if status == Completed || status == Cancelled || status == Rejected { return Err(InvalidTransition); }
      if !acceptsFiles { return Err(FileTypeNotAllowed); }
      if size > Min(maxFileBytes, cfg.maxFileBytes) { return Err(FileTooLarge); }
      if fileCount >= Min(maxFiles, cfg.maxFilesPerRequest) { return Err(MaxFilesExceeded); }
      if totalBytes + size > cfg.maxTotalBytes { return Err(TotalFileSizeExceeded); }
      var a := new AttachmentRecord(cfg, now, request, size);
      return Ok(a);
    }
  }

  class AttachmentRecord {
    var row: Row
    var job: Option<Job>
    var events: seq<Event>
    var inStore: bool
    var put: Option<Time>
    var upload: Upload
    var workers: map<WorkerId, Worker>
    var holder: WorkerId
    var nextWorker: WorkerId
    var removals: map<nat, Removal>
    var nextRemoval: nat

    function View(): Attachment
      reads this
    {
      Attachment(row, job, events, inStore, put, upload, workers, holder, nextWorker, removals, nextRemoval)
    }

    constructor (cfg: Config, now: Time, request: RequestId, size: nat)
      ensures View() == Reserved(cfg, now, request, size)
    {
      row := Row(request, size, PendingUpload, NotRequired, 0, None, now);
      job, events, inStore := None, [], false;
      put, upload := Some(now + cfg.pendingUploadAge), Putting;
      workers, holder, nextWorker := map[], 0, 0;
      removals, nextRemoval := map[], 0;
    }

    // -------------------------------------------------------------- uploads

    method PutLands(acknowledged: bool)
      modifies this
      ensures View() == M.PutLands(old(View()), acknowledged)
    {
      if put.None? { return; }
      inStore := true;
      put := None;
      if acknowledged && upload == Putting { upload := Acknowledged; }
    }

    method PutFails(cfg: Config, now: Time)
      modifies this
      ensures View() == M.PutFails(cfg, now, old(View()))
    {
      if upload != Putting { return; }
      upload := Failing;
      if put.Some? { put := Some(Min(put.value, now + cfg.minimumAge)); }
    }

    method PutVanishes()
      modifies this`put
      ensures View() == old(View()).(put := None)
    {
      put := None;
    }

    method FinalizeUpload(q: RequestRecord, now: Time, policy: Scan)
      returns (r: Result<nat, AttachmentError>)
      requires UploadPolicy(policy)
      modifies this, q
      ensures match FinalizeTx(now, old(q.View()), old(View()), policy)
              case Err(e) => r == Err(e) && View() == old(View()) && q.View() == old(q.View())
              case Ok((q', a')) => r == Ok(q.version) && q.View() == q' && View() == a'
    {
      if q.status == Completed || q.status == Cancelled || q.status == Rejected { return Err(InvalidTransition); }
      // The version bump comes first; the failed row update below rolls it back.
      var before := q.version;
      q.version := before + 1;
      if row.storage != PendingUpload {
        q.version := before;
        return Err(AttachmentStateInvalid);
      }
      row := row.(storage := Stored, scan := policy, updatedAt := now);
      events := events + [AttachmentAdded(q.version)];
      if policy == PendingScan && job.None? { job := Some(Job(Pending, 0, now)); }
      return Ok(q.version);
    }

    /** The foreground's call of the finalization: a failure, or a lost commit acknowledgement, leads on to marking the
        upload failed. */
    method Finalize(q: RequestRecord, now: Time, policy: Scan, ackLost: bool)
      modifies this, q
      ensures (q.View(), View()) == M.Finalize(now, old(q.View()), old(View()), policy, ackLost)
    {
      if upload != Acknowledged || !UploadPolicy(policy) { return; }
      var r := FinalizeUpload(q, now, policy);
      upload := if r.Err? || ackLost then Failing else Finished;
    }

    method MarkUploadFailed(now: Time)
      modifies this
      ensures View() == M.MarkUploadFailed(now, old(View()))
    {
      if upload != Failing { return; }
      upload := Finished;
      if row.storage == PendingUpload {
        row := row.(storage := UploadFailed, scan := NotRequired, updatedAt := now);
      }
    }

    // ------------------------------------------------------------- deletion

    method BeginRemoval(remover: Remover)
      modifies this`removals, this`nextRemoval
      ensures View() == M.BeginRemoval(old(View()), remover)
    {
      removals := removals[nextRemoval := Removal(remover, false)];
      nextRemoval := nextRemoval + 1;
    }

    method DeleteAttachment(q: RequestRecord, now: Time, expectedVersion: nat) returns (r: Result<nat, AttachmentError>)
      modifies this, q
      ensures if old(q.version) != expectedVersion then
                r == Err(VersionConflict) && View() == old(View()) && q.View() == old(q.View())
              else match DeleteTx(now, old(q.View()), old(View()))
                   case Err(e) => r == Err(e) && View() == old(View()) && q.View() == old(q.View())
                   case Ok((q', a')) => r == Ok(q.version) && q.View() == q' && View() == a'
    {
      if q.version != expectedVersion { return Err(VersionConflict); }
      if q.status == Completed || q.status == Cancelled || q.status == Rejected { return Err(InvalidTransition); }
      if row.deletedAt.Some? { return Err(AttachmentNotFound); }
      if row.storage == PendingUpload { return Err(AttachmentNotReady); }
      q.version := q.version + 1;
      var deferStorageDelete := row.storage == UploadFailed;
      row := row.(deletedAt := Some(now), storage := DeletePending, updatedAt := now);
      events := events + [AttachmentRemoved(q.version)];
      if !deferStorageDelete { BeginRemoval(ByStudent); }
      return Ok(q.version);
    }

    method RemoveObject(ticket: nat)
      modifies this
      ensures View() == M.RemoveObject(old(View()), ticket)
    {
      if ticket !in removals { return; }
      inStore := false;
      removals := removals[ticket := removals[ticket].(done := true)];
    }

    method FinishRemoval(now: Time, ticket: nat) returns (marked: bool)
      modifies this
      ensures View() == M.FinishRemoval(now, old(View()), ticket)
      ensures marked <==> old(ticket in removals && removals[ticket].done && MayFinish(row, removals[ticket].remover))
    {
      if ticket !in removals || !removals[ticket].done { return false; }
      marked := MayFinish(row, removals[ticket].remover);
      removals := removals - {ticket};
      if marked { row := row.(storage := Deleted, updatedAt := now); }
    }

    /** Both halves of a removal that the object store performs. */
    method Purge(now: Time, ticket: nat) returns (marked: bool)
      modifies this
      ensures View() == M.FinishRemoval(now, M.RemoveObject(old(View()), ticket), ticket)
      ensures marked <==> old(ticket in removals && MayFinish(row, removals[ticket].remover))
    {
      RemoveObject(ticket);
      marked := FinishRemoval(now, ticket);
    }

    // -------------------------------------------------------------- scanning

    method ClaimJob(cfg: Config, now: Time)
      modifies this
      ensures View() == M.ClaimJob(cfg, now, old(View()))
    {
      if job.None? || !Claimable(job.value, now) { return; }
      var token := job.value.attempts + 1;
      job := Some(Job(Processing, token, now + cfg.scanLease));
      workers := workers[nextWorker := Worker(token, Claimed)];
      holder := nextWorker;
      nextWorker := nextWorker + 1;
    }

    method StartScan(now: Time, w: WorkerId)
      modifies this
      ensures View() == M.StartScan(now, old(View()), w)
    {
      if w !in workers || workers[w].phase != Claimed { return; }
      var token := workers[w].token;
      if job.None? || job.value.status != Processing || job.value.attempts != token {
        workers := workers - {w};
        return;
      }
      if row.deletedAt.Some? || row.storage != Stored || (row.scan != PendingScan && row.scan != ScanError) {
        workers := workers[w := Worker(token, NotScannable)];
        return;
      }
      if row.scanAttempt >= token {
        workers := workers - {w};
        return;
      }
      row := row.(scanAttempt := token, updatedAt := now);
      workers := workers[w := Worker(token, Scanning)];
    }

    method DeadLetterJob(now: Time, w: WorkerId)
      modifies this
      ensures View() == M.DeadLetterJob(now, old(View()), w)
    {
      if w !in workers || workers[w].phase != NotScannable { return; }
      if job.Some? && job.value.status == Processing && job.value.attempts == workers[w].token {
        job := Some(job.value.(status := DeadLetter, availableAt := now));
      }
      workers := workers - {w};
    }

    method FinishTerminal(q: RequestRecord, now: Time, token: int, verdict: Scan) returns (applied: bool)
      modifies this`row, this`job, this`events, q`version
      ensures (q.View(), View(), applied) == M.FinishTerminal(now, old(q.View()), old(View()), token, verdict)
    {
      if job.None? || job.value.status != Processing || job.value.attempts != token { return false; }
      if !AwaitingScan(row) || row.scanAttempt != token {
        job := Some(job.value.(status := DeadLetter, availableAt := now));
        return false;
      }
      q.version := q.version + 1;
      row := row.(scan := verdict, updatedAt := now,
                  storage := if verdict == Infected then DeletePending else Stored);
      events := events + [if verdict == ScanError then ScanFailed(q.version) else ScanCompleted(verdict, q.version)];
      job := Some(job.value.(status := if verdict == ScanError then DeadLetter else JobStatus.Delivered,
                             availableAt := now));
      return true;
    }

    method Complete(q: RequestRecord, now: Time, w: WorkerId, verdict: Scan)
      requires Verdict(verdict)
      modifies this, q
      ensures (q.View(), View()) == M.Complete(now, old(q.View()), old(View()), w, verdict)
    {
      if w !in workers || workers[w].phase != Scanning { return; }
      var token := workers[w].token;
      var applied := FinishTerminal(q, now, token, verdict);
      workers := workers - {w};
      if applied && verdict == Infected { BeginRemoval(ByScanner(token)); }
    }

    method RetryOrFail(cfg: Config, q: RequestRecord, now: Time, w: WorkerId, delay: nat)
      modifies this, q
      ensures (q.View(), View()) == M.RetryOrFail(cfg, now, old(q.View()), old(View()), w, delay)
    {
      if w !in workers || workers[w].phase != Scanning { return; }
      var token := workers[w].token;
      if token < cfg.maxAttempts {
        if job.Some? && job.value.status == Processing && job.value.attempts == token {
          if !AwaitingScan(row) || row.scanAttempt != token {
            job := Some(job.value.(status := DeadLetter, availableAt := now));
          } else {
            row := row.(scan := PendingScan, updatedAt := now);
            job := Some(Job(Retry, token, now + delay));
          }
        }
      } else {
        var _ := FinishTerminal(q, now, token, ScanError);
      }
      workers := workers - {w};
    }

    method DeferDependency(now: Time, w: WorkerId, delay: nat)
      modifies this
      ensures View() == M.DeferDependency(now, old(View()), w, delay)
    {
      if w !in workers || workers[w].phase != Scanning { return; }
      var token := workers[w].token;
      workers := workers - {w};
      if job.None? || job.value.status != Processing || job.value.attempts != token { return; }
      if !AwaitingScan(row) || row.scanAttempt != token { return; }
      row := row.(scan := PendingScan, scanAttempt := token - 1, updatedAt := now);
      job := Some(Job(Retry, token - 1, now + delay));
    }

    method ResetJob(now: Time, expected: JobStatus) returns (done: bool)
      modifies this
      ensures View() == M.ResetJob(now, old(View()), expected)
      ensures done <==> old(job.Some? && job.value.status == expected && expected in {DeadLetter, Retry})
    {
      if job.None? || job.value.status != expected || (expected != DeadLetter && expected != Retry) { return false; }
      job := Some(Job(Pending, 0, now));
      return true;
    }

    // -------------------------------------------------------- reconciliation

    method ReconcilerTakes(cfg: Config, now: Time)
      modifies this
      ensures View() == M.ReconcilerTakes(cfg, now, old(View()))
    {
      if !Reconcilable(cfg, now, row) { return; }
      var deletedAt := if row.scan == Infected || row.deletedAt.Some? then row.deletedAt else Some(now);
      row := row.(storage := DeletePending, updatedAt := now, deletedAt := deletedAt);
      BeginRemoval(ByReconciler);
    }

    // ------------------------------------------------------------ every call

    method DispatchScan(cfg: Config, now: Time, q: RequestRecord, step: LocalStep)
      requires step.ClaimingJob? || step.Starting? || step.Burying? || step.Completing? || step.Retrying?
               || step.Deferring? || step.Resetting?
      modifies this, q
      ensures (q.View(), View()) == Local(cfg, now, old(q.View()), old(View()), step)
    {
      match step {
        case ClaimingJob => ClaimJob(cfg, now);
        case Starting(w) => StartScan(now, w);
        case Burying(w) => DeadLetterJob(now, w);
        case Completing(w, verdict) => if Verdict(verdict) { Complete(q, now, w, verdict); }
        case Retrying(w, delay) => RetryOrFail(cfg, q, now, w, delay);
        case Deferring(w, delay) => DeferDependency(now, w, delay);
        case Resetting(expected) => var _ := ResetJob(now, expected);
      }
    }

    method DispatchStorage(cfg: Config, now: Time, q: RequestRecord, step: LocalStep)
      requires step.PutLanding? || step.PutVanishing? || step.PutFailing? || step.Finalizing? || step.MarkingFailed?
               || step.Deleting? || step.Reconciling? || step.Removing? || step.FinishingRemoval?
      modifies this, q
      ensures (q.View(), View()) == Local(cfg, now, old(q.View()), old(View()), step)
    {
      match step {
        case PutLanding(acknowledged) => PutLands(acknowledged);
        case PutVanishing => PutVanishes();
        case PutFailing => PutFails(cfg, now);
        case Finalizing(policy, ackLost) => Finalize(q, now, policy, ackLost);
        case MarkingFailed => MarkUploadFailed(now);
        case Deleting => var _ := DeleteAttachment(q, now, q.version);
        case Reconciling => ReconcilerTakes(cfg, now);
        case Removing(ticket) => RemoveObject(ticket);
        case FinishingRemoval(ticket) => var _ := FinishRemoval(now, ticket);
      }
    }

    /** Any call on one attachment is the local step it is modelled by. So it keeps the row and its object in step,
        never takes the row back, and unless it re-queues the job under a live worker it keeps the fence. */
    method Perform(cfg: Config, now: Time, q: RequestRecord, step: LocalStep, ghost floor: nat)
      modifies this, q
      ensures (q.View(), View()) == Local(cfg, now, old(q.View()), old(View()), step)
      ensures L.StorageOk(old(View())) ==> L.StorageOk(View())
      ensures L.Rank(old(row.storage)) <= L.Rank(row.storage)
      ensures F.FencedFrom(old(View()), floor) && (F.RequeuesJob(old(View()), step) ==> old(workers) == map[]) ==>
                F.FencedFrom(View(), F.LiftedFloor(old(View()), step, floor))
    {
      ghost var request, was := q.View(), View();
      if L.StorageOk(was) { L.StorageStep(cfg, now, request, was, step); }
      L.StorageAdvances(cfg, now, request, was, step);
      if F.FencedFrom(was, floor) && (F.RequeuesJob(was, step) ==> was.workers == map[]) {
        F.FencedStep(cfg, now, request, was, step, floor);
      }
      if step.ClaimingJob? || step.Starting? || step.Burying? || step.Completing? || step.Retrying? || step.Deferring?
         || step.Resetting? {
        DispatchScan(cfg, now, q, step);
      } else {
        DispatchStorage(cfg, now, q, step);
      }
    }
  }

  // ------------------------------------------------------- one reconciler batch

  /** What one reconciler batch does to a claimed attachment when nobody else touches it meanwhile. */
  function Reconciled(cfg: Config, now: Time, a: Attachment, removed: bool): Attachment {
    var taken := M.ReconcilerTakes(cfg, now, a);
    if removed then M.FinishRemoval(now, M.RemoveObject(taken, a.nextRemoval), a.nextRemoval) else taken
  }

  /** The removal a batch begins on a reconcilable row is the one that marks it. */
  lemma ClaimedRowMayFinish(cfg: Config, now: Time, a: Attachment)
    requires Reconcilable(cfg, now, a.row)
    ensures var taken := M.ReconcilerTakes(cfg, now, a);
            a.nextRemoval in taken.removals && MayFinish(taken.row, taken.removals[a.nextRemoval].remover)
  {
  }

  function Successes(outcomes: seq<bool>): nat {
    if outcomes == [] then 0
    else Successes(outcomes[..|outcomes| - 1]) + if outcomes[|outcomes| - 1] then 1 else 0
  }

  predicate AllDifferent(records: seq<AttachmentRecord>) {
    forall i, j :: 0 <= i < j < |records| ==> records[i] != records[j]
  }

  method ClaimBatch(cfg: Config, now: Time, selected: seq<AttachmentRecord>) returns (tickets: seq<nat>)
    requires AllDifferent(selected)
    modifies selected
    ensures |tickets| == |selected|
    ensures forall i :: 0 <= i < |selected| ==>
              && selected[i].View() == M.ReconcilerTakes(cfg, now, old(selected[i].View()))
              && tickets[i] == old(selected[i].nextRemoval)
  {
    tickets := [];
    for i := 0 to |selected|
      invariant |tickets| == i
      invariant forall k :: 0 <= k < i ==>
                  && selected[k].View() == M.ReconcilerTakes(cfg, now, old(selected[k].View()))
                  && tickets[k] == old(selected[k].nextRemoval)
      invariant forall k :: i <= k < |selected| ==> unchanged(selected[k])
    {
      tickets := tickets + [selected[i].nextRemoval];
      selected[i].ReconcilerTakes(cfg, now);
    }
  }

  /** A batch with its two loops: claim every selected row, then remove each object and mark its row. `outcomes` says
      which removals the object store performs; the others stay DELETE_PENDING for a later batch. */
  method ProcessBatch(cfg: Config, now: Time, selected: seq<AttachmentRecord>, outcomes: seq<bool>)
    returns (claimed: nat, finalized: nat, retryPending: nat)
    requires |outcomes| == |selected| && AllDifferent(selected)
    requires forall i :: 0 <= i < |selected| ==> Reconcilable(cfg, now, selected[i].row)
    modifies selected
    ensures claimed == |selected| == finalized + retryPending && finalized == Successes(outcomes)
    ensures forall i :: 0 <= i < |selected| ==>
              selected[i].View() == Reconciled(cfg, now, old(selected[i].View()), outcomes[i])
  {
    var tickets := ClaimBatch(cfg, now, selected);
    claimed, finalized, retryPending := |selected|, 0, 0;
    label claimedAll:
    for i := 0 to |selected|
      invariant finalized == Successes(outcomes[..i]) && retryPending == i - finalized
      invariant forall k :: 0 <= k < i ==>
                  selected[k].View() == Reconciled(cfg, now, old(selected[k].View()), outcomes[k])
      invariant forall k :: i <= k < |selected| ==> unchanged@claimedAll(selected[k])
    {
      assert outcomes[..i + 1][..i] == outcomes[..i];
      if outcomes[i] {
        ClaimedRowMayFinish(cfg, now, old(selected[i].View()));
        var marked := selected[i].Purge(now, tickets[i]);
        if marked { finalized := finalized + 1; }
      } else {
        retryPending := retryPending + 1;
      }
    }
    assert outcomes[..|selected|] == outcomes;
  }
}
