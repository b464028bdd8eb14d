/** Upload limits hold under concurrency: pending reservations are counted, and nothing is ever counted again. */
module UploadQuota {
  import opened Wrappers
  import opened RequestStates
  import opened AttachmentModel
  import opened ObjectLifecycle

  function FileLimit(s: System, r: RequestId): int
    requires r in s.requests
  {
    Min(s.requests[r].maxFiles, s.cfg.maxFilesPerRequest)
  }

  ghost predicate WithinLimits(s: System) {
    && AllStorageOk(s)
    && forall r :: r in s.requests ==>
         && FileCount(s.attachments, r, s.nextAttachment) <= FileLimit(s, r)
         && TotalBytes(s.attachments, r, s.nextAttachment) <= s.cfg.maxTotalBytes
  }

  /** No local step moves an uncounted row back into the counted set. */
  lemma NeverRecounted(cfg: Config, now: Time, q: Request, a: Attachment, step: LocalStep)
    requires StorageOk(a) && Counted(Local(cfg, now, q, a, step).1.row)
    ensures Counted(a.row)
  {
  }

  lemma LimitsAreFixed(cfg: Config, now: Time, q: Request, a: Attachment, step: LocalStep)
    ensures Local(cfg, now, q, a, step).0.maxFiles == q.maxFiles
  {
  }

  /** `after` counts no file that `before` does not. */
  ghost predicate CountsNoMore(before: map<AttachmentId, Attachment>, after: map<AttachmentId, Attachment>) {
    forall id :: id in after ==>
      && id in before && after[id].row.request == before[id].row.request && after[id].row.size == before[id].row.size
      && (Counted(after[id].row) ==> Counted(before[id].row))
  }

  lemma {:induction false} UsageShrinks(before: map<AttachmentId, Attachment>, after: map<AttachmentId, Attachment>,
                                        r: RequestId, n: nat)
    requires CountsNoMore(before, after)
    ensures FileCount(after, r, n) <= FileCount(before, r, n)
    ensures TotalBytes(after, r, n) <= TotalBytes(before, r, n)
  {
    if n > 0 { UsageShrinks(before, after, r, n - 1); }
  }

  lemma {:induction false} UsageIgnoresLaterRows(m: map<AttachmentId, Attachment>, id: AttachmentId, a: Attachment,
                                                 r: RequestId, n: nat)
    requires n <= id
    ensures FileCount(m[id := a], r, n) == FileCount(m, r, n)
    ensures TotalBytes(m[id := a], r, n) == TotalBytes(m, r, n)
  {
    if n > 0 { UsageIgnoresLaterRows(m, id, a, r, n - 1); }
  }

  lemma AdmittedStaysWithin(s: System, r: RequestId, version: nat, size: nat, i: RequestId)
    requires WithinLimits(s) && Reserve(s, r, version, size).Ok? && i in s.requests
    ensures var t := Reserve(s, r, version, size).value;
            && t.requests == s.requests && t.cfg == s.cfg
            && FileCount(t.attachments, i, t.nextAttachment) <= FileLimit(s, i)
            && TotalBytes(t.attachments, i, t.nextAttachment) <= s.cfg.maxTotalBytes
  {
    UsageIgnoresLaterRows(s.attachments, s.nextAttachment, Reserved(s.cfg, s.now, r, size), i, s.nextAttachment);
  }

  /** The reservation checks the limits against all rows, pending uploads included, and adds one row. */
  lemma ReservationStaysWithin(s: System, r: RequestId, version: nat, size: nat)
    requires WithinLimits(s) && Reserve(s, r, version, size).Ok?
    ensures WithinLimits(Reserve(s, r, version, size).value)
  {
    var t := Reserve(s, r, version, size).value;
    StorageNext(s, Reserving(r, version, size));
    forall i | i in t.requests
      ensures FileCount(t.attachments, i, t.nextAttachment) <= FileLimit(t, i)
      ensures TotalBytes(t.attachments, i, t.nextAttachment) <= t.cfg.maxTotalBytes
    {
      AdmittedStaysWithin(s, r, version, size, i);
    }
  }

  lemma RowCountsNoMore(s: System, step: Step, id: AttachmentId)
    requires AllStorageOk(s) && !step.Reserving? && id in Next(s, step).attachments
    ensures id in s.attachments
    ensures var a, b := s.attachments[id].row, Next(s, step).attachments[id].row;
            b.request == a.request && b.size == a.size && (Counted(b) ==> Counted(a))
  {
    StepIsLocal(s, step, id);
    if Effect(s, step, id).Some? {
      var a, l := s.attachments[id], Effect(s, step, id).value;
      var q := s.requests[a.row.request];
      RowKeepsItsRequest(s.cfg, s.now, q, a, l);
      if Counted(Local(s.cfg, s.now, q, a, l).1.row) { NeverRecounted(s.cfg, s.now, q, a, l); }
    }
  }

  lemma RequestsKeepLimits(s: System, step: Step, r: RequestId)
    requires r in Next(s, step).requests
    ensures r in s.requests && Next(s, step).requests[r].maxFiles == s.requests[r].maxFiles
  {
    if step.Acting? && step.id in s.attachments && s.attachments[step.id].row.request in s.requests {
      var a := s.attachments[step.id];
      LimitsAreFixed(s.cfg, s.now, s.requests[a.row.request], a, step.step);
    }
  }

  lemma OthersCountNoMore(s: System, step: Step)
    requires AllStorageOk(s) && !step.Reserving?
    ensures CountsNoMore(s.attachments, Next(s, step).attachments)
    ensures Next(s, step).nextAttachment == s.nextAttachment && Next(s, step).cfg == s.cfg
    ensures forall r :: r in Next(s, step).requests ==>
              r in s.requests && Next(s, step).requests[r].maxFiles == s.requests[r].maxFiles
  {
    forall id | id in Next(s, step).attachments
      ensures id in s.attachments
      ensures var a, b := s.attachments[id].row, Next(s, step).attachments[id].row;
              b.request == a.request && b.size == a.size && (Counted(b) ==> Counted(a))
    {
      RowCountsNoMore(s, step, id);
    }
    forall r | r in Next(s, step).requests
      ensures r in s.requests && Next(s, step).requests[r].maxFiles == s.requests[r].maxFiles
    {
      RequestsKeepLimits(s, step, r);
    }
  }

  lemma LimitsNext(s: System, step: Step)
    requires WithinLimits(s)
    ensures WithinLimits(Next(s, step))
  {
    var t := Next(s, step);
    if step.Reserving? {
      if Reserve(s, step.r, step.version, step.size).Ok? { ReservationStaysWithin(s, step.r, step.version, step.size); }
    } else {
      StorageNext(s, step);
      OthersCountNoMore(s, step);
      forall r | r in t.requests
        ensures FileCount(t.attachments, r, t.nextAttachment) <= FileLimit(t, r)
        ensures TotalBytes(t.attachments, r, t.nextAttachment) <= t.cfg.maxTotalBytes
      {
        UsageShrinks(s.attachments, t.attachments, r, s.nextAttachment);
      }
    }
  }

  /** With any interleaving of uploads, deletions, failures and reconciliation, no request ever holds more counted
      files or bytes than its limits. */
  lemma {:induction false} LimitsHold(s: System, steps: seq<Step>)
    requires WithinLimits(s)
    ensures WithinLimits(Run(s, steps))
    decreases |steps|
  {
    if steps != [] {
      LimitsNext(s, steps[0]);
      LimitsHold(Next(s, steps[0]), steps[1..]);
    }
  }

  lemma InitiallyWithinLimits(s: System)
    requires Initial(s)
    ensures WithinLimits(s)
  {
  }

  // ------------------------------------------------ the limits, file by file

  /** A row that takes up room: not deleted, and not a failed upload. */
  predicate Occupies(row: Row) {
    row.deletedAt.None? && row.storage in {PendingUpload, Stored, DeletePending, Deleted}
  }

  /** The files of a request that take up room. */
  function Files(s: System, r: RequestId): set<AttachmentId> {
    set id | id in s.attachments && s.attachments[id].row.request == r && Occupies(s.attachments[id].row)
  }

  /** The sizes of those files among the identifiers below `n`. */
  function SizesBelow(s: System, files: set<AttachmentId>, n: nat): nat
    requires files <= s.attachments.Keys
  {
    if n == 0 then 0
    else SizesBelow(s, files, n - 1) + if n - 1 in files then s.attachments[n - 1].row.size else 0
  }

  function Bytes(s: System, r: RequestId): nat { SizesBelow(s, Files(s, r), s.nextAttachment) }

  lemma {:induction false} CountsAreFiles(s: System, r: RequestId, n: nat)
    ensures FileCount(s.attachments, r, n) == |set id | id in Files(s, r) && id < n|
    ensures TotalBytes(s.attachments, r, n) == SizesBelow(s, Files(s, r), n)
  {
    var below := set id | id in Files(s, r) && id < n;
    if n == 0 {
      assert below == {};
    } else {
      CountsAreFiles(s, r, n - 1);
      var fewer := set id | id in Files(s, r) && id < n - 1;
      assert below == if n - 1 in Files(s, r) then fewer + {n - 1} else fewer;
    }
  }

  lemma AggregatesAreFiles(s: System, r: RequestId)
    requires Allocated(s)
    ensures FileCount(s.attachments, r, s.nextAttachment) == |Files(s, r)|
    ensures TotalBytes(s.attachments, r, s.nextAttachment) == Bytes(s, r)
  {
    CountsAreFiles(s, r, s.nextAttachment);
    assert Files(s, r) == set id | id in Files(s, r) && id < s.nextAttachment;
  }

  /** In every run a request never has more files that take up room than its service and the platform allow, nor more
      bytes in them: pending, stored and condemned files alike, until they are deleted or have failed. */
  lemma FilesStayWithinLimits(s: System, steps: seq<Step>, r: RequestId)
    requires Initial(s) && r in Run(s, steps).requests
    ensures var t := Run(s, steps);
            && |Files(t, r)| <= t.requests[r].maxFiles && |Files(t, r)| <= t.cfg.maxFilesPerRequest
            && Bytes(t, r) <= t.cfg.maxTotalBytes
  {
    InitiallyWithinLimits(s);
    LimitsHold(s, steps);
    AggregatesAreFiles(Run(s, steps), r);
  }

  /** A reservation is admitted exactly at the request's version, before its end, for a service that takes files, within
      both limits on the size, with both counts not reached and room for its bytes; the refusals come in this order. */
  lemma ReservationAnswers(s: System, r: RequestId, version: nat, size: nat)
    requires Allocated(s) && r in s.requests
    ensures var q, answer := s.requests[r], Reserve(s, r, version, size);
            var current := q.version == version;
            var open := current && q.status !in {Completed, Cancelled, Rejected};
            var takes := open && q.acceptsFiles;
            var fits := takes && size <= q.maxFileBytes && size <= s.cfg.maxFileBytes;
            var room := fits && |Files(s, r)| < q.maxFiles && |Files(s, r)| < s.cfg.maxFilesPerRequest;
            && (answer == Err(VersionConflict) <==> !current)
            && (answer == Err(InvalidTransition) <==> current && !open)
            && (answer == Err(FileTypeNotAllowed) <==> open && !takes)
            && (answer == Err(FileTooLarge) <==> takes && !fits)
            && (answer == Err(MaxFilesExceeded) <==> fits && !room)
            && (answer == Err(TotalFileSizeExceeded) <==> room && Bytes(s, r) + size > s.cfg.maxTotalBytes)
            && (answer.Ok? <==> room && Bytes(s, r) + size <= s.cfg.maxTotalBytes)
  {
    AggregatesAreFiles(s, r);
  }

  /** An admitted one takes the next identifier for a pending file of its size, which takes up room from that moment. */
  lemma ReservationTakesRoom(s: System, r: RequestId, version: nat, size: nat)
    requires Allocated(s) && Reserve(s, r, version, size).Ok?
    ensures var t, id := Reserve(s, r, version, size).value, s.nextAttachment;
            && t.nextAttachment == id + 1 && id !in s.attachments && t.attachments.Keys == s.attachments.Keys + {id}
            && (forall i :: i in s.attachments ==> t.attachments[i] == s.attachments[i])
            && t.requests == s.requests && t.now == s.now && t.cfg == s.cfg
            && t.attachments[id].row == Row(r, size, PendingUpload, NotRequired, 0, None, s.now)
            && t.attachments[id].job.None? && t.attachments[id].events == [] && !t.attachments[id].inStore
            && t.attachments[id].upload == Putting && t.attachments[id].put == Some(s.now + s.cfg.pendingUploadAge)
            && Files(t, r) == Files(s, r) + {id}
  {
    assert s.nextAttachment !in s.attachments;
  }
}
