/** A permanently failing object never starves the reconciler's queue. */
module ReconcilerFairness {
  import opened Wrappers
  import opened AttachmentModel
  import opened ObjectLifecycle

  /** The rows that precede `b` in the reconciler's queue order. */
  function Ahead(s: System, b: AttachmentId): set<AttachmentId>
    requires b in s.attachments
  {
    set id | id in s.attachments && Before(s, id, b)
  }

  /** `b` was last written before the present. */
  predicate Resting(s: System, b: AttachmentId) {
    b in s.attachments && s.attachments[b].row.updatedAt < s.now
  }

  /** `b` waits: the reconciler may take it. */
  predicate Waiting(s: System, b: AttachmentId) {
    Resting(s, b) && Reconcilable(s.cfg, s.now, s.attachments[b].row)
  }

  lemma WritesAreStamped(cfg: Config, now: Time, q: Request, a: Attachment, step: LocalStep)
    ensures var b := Local(cfg, now, q, a, step).1; b.row == a.row || b.row.updatedAt == now
  {
  }

  ghost predicate Claims(s: System, step: Step) {
    step.ReconcilerClaims? && IsBatch(s, BoundedLimit(step.limit), step.locked, step.batch)
  }

  /** A claim that does not skip `b` for a lock somebody holds on it. */
  ghost predicate ClaimsPast(s: System, step: Step, b: AttachmentId) {
    Claims(s, step) && b !in step.locked
  }

  lemma {:induction false} SubsetSize<T>(small: set<T>, large: set<T>)
    requires small <= large
    ensures |small| <= |large|
    ensures |small| == |large| ==> small == large
  {
    if small != {} {
      var x :| x in small;
      SubsetSize(small - {x}, large - {x});
    }
  }

  /** A row that moves in the queue moves behind every row that was written before. */
  lemma NobodyOvertakes(s: System, step: Step, b: AttachmentId, id: AttachmentId)
    requires Allocated(s) && Resting(s, b)
    requires b in Next(s, step).attachments && Next(s, step).attachments[b].row == s.attachments[b].row
    requires id in Next(s, step).attachments && Before(Next(s, step), id, b)
    ensures id in s.attachments && Before(s, id, b)
    ensures Next(s, step).attachments[id].row == s.attachments[id].row
  {
    StepIsLocal(s, step, id);
    if id in s.attachments && Effect(s, step, id).Some? {
      var a := s.attachments[id];
      WritesAreStamped(s.cfg, s.now, s.requests[a.row.request], a, Effect(s, step, id).value);
    }
  }

  /** A claim that passes `b` over took a full batch, all of it from ahead of `b`, whichever other rows it skipped. */
  lemma ClaimTakesFromAhead(s: System, limit: nat, locked: set<AttachmentId>, batch: set<AttachmentId>, b: AttachmentId)
    requires Waiting(s, b) && IsBatch(s, limit, locked, batch) && b !in batch && b !in locked
    ensures batch <= Ahead(s, b) && |batch| == limit
  {
    assert b in Eligibles(s, locked);
    if |batch| != limit { SubsetSize(batch, Eligibles(s, locked)); }
  }

  lemma TimeAdvances(s: System, step: Step)
    ensures Next(s, step).cfg == s.cfg && s.now <= Next(s, step).now
  {
  }

  /** The slots a step offers while `b` waits and is not locked. */
  ghost function Slots(s: System, step: Step, b: AttachmentId): nat {
    if ClaimsPast(s, step, b) && Waiting(s, b) then BoundedLimit(step.limit) else 0
  }

  lemma BatchLeavesTheQueueAhead(s: System, step: Step, b: AttachmentId)
    requires Allocated(s) && Waiting(s, b) && ClaimsPast(s, step, b)
    requires b in Next(s, step).attachments && Next(s, step).attachments[b].row == s.attachments[b].row
    ensures |Ahead(Next(s, step), b)| + BoundedLimit(step.limit) <= |Ahead(s, b)|
  {
    var t, batch := Next(s, step), step.batch;
    assert forall id :: id in batch ==> t.attachments[id].row.updatedAt == s.now;
    assert b !in batch;
    ClaimTakesFromAhead(s, BoundedLimit(step.limit), step.locked, batch, b);
    forall id | id in Ahead(t, b) ensures id in Ahead(s, b) - batch { NobodyOvertakes(s, step, b, id); }
    SubsetSize(Ahead(t, b), Ahead(s, b) - batch);
  }

  /** While `b` rests untouched nobody overtakes it, and while it waits each claim takes a full batch of rows from ahead
      of it. */
  lemma QueueShrinks(s: System, step: Step, b: AttachmentId)
    requires Allocated(s) && Resting(s, b)
    requires b in Next(s, step).attachments && Next(s, step).attachments[b].row == s.attachments[b].row
    ensures Resting(Next(s, step), b) && (Waiting(s, b) ==> Waiting(Next(s, step), b))
    ensures Ahead(Next(s, step), b) <= Ahead(s, b)
    ensures |Ahead(Next(s, step), b)| + Slots(s, step, b) <= |Ahead(s, b)|
  {
    var t := Next(s, step);
    TimeAdvances(s, step);
    forall id | id in Ahead(t, b) ensures id in Ahead(s, b) { NobodyOvertakes(s, step, b, id); }
    SubsetSize(Ahead(t, b), Ahead(s, b));
    if ClaimsPast(s, step, b) && Waiting(s, b) { BatchLeavesTheQueueAhead(s, step, b); }
  }

  /** The batch slots the reconciler offers along a run while `b` waits and is not locked. */
  ghost function Offered(s: System, steps: seq<Step>, b: AttachmentId): nat
    decreases |steps|
  {
    if steps == [] then 0 else Slots(s, steps[0], b) + Offered(Next(s, steps[0]), steps[1..], b)
  }

  /** `b` is neither claimed nor written along the run. */
  ghost predicate Untouched(s: System, steps: seq<Step>, b: AttachmentId)
    requires b in s.attachments
    decreases |steps|
  {
    steps == [] ||
    (&& b in Next(s, steps[0]).attachments
     && Next(s, steps[0]).attachments[b].row == s.attachments[b].row
     && Untouched(Next(s, steps[0]), steps[1..], b))
  }

  /** Bounded waiting, between two writes: as long as a waiting row is passed over, the batch slots offered since cannot
      exceed the rows that were ahead of it when the wait began. Failing objects go to the back of the queue each time.
      */
  lemma {:induction false} WaitIsBounded(s: System, steps: seq<Step>, b: AttachmentId)
    requires Allocated(s) && Waiting(s, b) && Untouched(s, steps, b)
    ensures b in Run(s, steps).attachments && Waiting(Run(s, steps), b)
    ensures Offered(s, steps, b) + |Ahead(Run(s, steps), b)| <= |Ahead(s, b)|
    ensures Ahead(Run(s, steps), b) <= Ahead(s, b)
    decreases |steps|
  {
    if steps != [] {
      QueueShrinks(s, steps[0], b);
      SubsetSize(Ahead(Next(s, steps[0]), b), Ahead(s, b));
      AllocatedNext(s, steps[0]);
      WaitIsBounded(Next(s, steps[0]), steps[1..], b);
    }
  }

  // -------------------------------------------------- whatever others write

  predicate InQueue(row: Row) {
    row.storage == PendingUpload || row.storage == UploadFailed || row.storage == DeletePending
  }

  /** How often a row in the queue can still be written by others and stay in the queue. */
  function WritesLeft(row: Row): nat {
    if row.storage == PendingUpload then 2
    else if row.storage == UploadFailed || (row.storage == DeletePending && row.deletedAt.None?) then 1
    else 0
  }

  /** Anybody's write to a row in the queue, other than the reconciler's, uses up one of them or takes the row out. */
  lemma WritesRunOut(cfg: Config, now: Time, q: Request, a: Attachment, step: LocalStep)
    requires StorageOk(a) && InQueue(a.row) && !step.Reconciling?
    ensures var b := Local(cfg, now, q, a, step).1;
            b.row == a.row || !InQueue(b.row)
            || (WritesLeft(b.row) < WritesLeft(a.row) && b.row.updatedAt == now && b.row.storage != PendingUpload)
  {
  }

  /** Along the run `b` stays in the queue and is never claimed. */
  ghost predicate PassedOver(s: System, steps: seq<Step>, b: AttachmentId)
    decreases |steps|
  {
    && b in s.attachments && InQueue(s.attachments[b].row)
    && (steps == [] ||
          ((Claims(s, steps[0]) ==> b !in steps[0].batch) && PassedOver(Next(s, steps[0]), steps[1..], b)))
  }

  predicate Wrote(s: System, t: System, b: AttachmentId)
    requires b in s.attachments && b in t.attachments
  {
    t.attachments[b].row != s.attachments[b].row
  }

  /** How often `b` is written along the run. */
  ghost function Writes(s: System, steps: seq<Step>, b: AttachmentId): nat
    requires PassedOver(s, steps, b)
    decreases |steps|
  {
    if steps == [] then 0
    else (if Wrote(s, Next(s, steps[0]), b) then 1 else 0) + Writes(Next(s, steps[0]), steps[1..], b)
  }

  /** One step while `b` is passed over: a write to it is stamped and uses up one of its writes. */
  lemma PassedStep(s: System, step: Step, b: AttachmentId)
    requires AllStorageOk(s) && b in s.attachments && InQueue(s.attachments[b].row)
    requires b in Next(s, step).attachments && InQueue(Next(s, step).attachments[b].row)
    requires Claims(s, step) ==> b !in step.batch
    ensures var before, after := s.attachments[b].row, Next(s, step).attachments[b].row;
            after != before ==>
              WritesLeft(after) < WritesLeft(before) && after.updatedAt == s.now == Next(s, step).now
              && after.storage != PendingUpload && !Claims(s, step)
  {
    StepIsLocal(s, step, b);
    if Effect(s, step, b).Some? {
      var a := s.attachments[b];
      assert StorageOk(a);
      WritesRunOut(s.cfg, s.now, s.requests[a.row.request], a, Effect(s, step, b).value);
    }
  }

  /** A row that stays in the queue is written at most twice. */
  lemma {:induction false} WritesAreFew(s: System, steps: seq<Step>, b: AttachmentId)
    requires AllStorageOk(s) && PassedOver(s, steps, b)
    ensures Writes(s, steps, b) <= WritesLeft(s.attachments[b].row) <= 2
    decreases |steps|
  {
    if steps != [] {
      PassedStep(s, steps[0], b);
      StorageNext(s, steps[0]);
      WritesAreFew(Next(s, steps[0]), steps[1..], b);
    }
  }

  lemma RowsStay(s: System, step: Step)
    ensures s.attachments.Keys <= Next(s, step).attachments.Keys
  {
  }

  lemma {:induction false} RowsStayInRuns(s: System, steps: seq<Step>)
    ensures s.attachments.Keys <= Run(s, steps).attachments.Keys
    decreases |steps|
  {
    if steps != [] {
      RowsStay(s, steps[0]);
      RowsStayInRuns(Next(s, steps[0]), steps[1..]);
    }
  }

  /** What can still be taken from ahead of `b` before it is its turn, if nobody writes it again. */
  function Burden(s: System, b: AttachmentId, all: nat): nat
    requires b in s.attachments
  {
    if Resting(s, b) then |Ahead(s, b)| else all
  }

  lemma BurdenIsBounded(s: System, b: AttachmentId, all: nat)
    requires b in s.attachments && |s.attachments.Keys| <= all
    ensures Burden(s, b, all) <= all
  {
    SubsetSize(Ahead(s, b), s.attachments.Keys);
  }

  lemma BurdenStep(s: System, step: Step, b: AttachmentId, all: nat)
    requires AllStorageOk(s) && b in s.attachments && b in Next(s, step).attachments
    requires |Next(s, step).attachments.Keys| <= all && (Claims(s, step) ==> b !in step.batch)
    requires InQueue(s.attachments[b].row) && InQueue(Next(s, step).attachments[b].row)
    ensures Slots(s, step, b) + Burden(Next(s, step), b, all)
            <= Burden(s, b, all) + if Wrote(s, Next(s, step), b) then all else 0
  {
    var t := Next(s, step);
    BurdenIsBounded(t, b, all);
    PassedStep(s, step, b);
    if !Wrote(s, t, b) && Resting(s, b) { QueueShrinks(s, step, b); }
  }

  /** `all`, once for each of `n` writes. */
  function Times(n: nat, all: nat): nat { if n == 0 then 0 else all + Times(n - 1, all) }

  lemma TimesAtMostTwo(n: nat, all: nat)
    requires n <= 2
    ensures Times(n, all) <= 2 * all
  {
    assert Times(0, all) == 0 && Times(1, all) == all && Times(2, all) == 2 * all;
  }

  lemma RowsAreFewer(s: System, steps: seq<Step>, all: nat)
    requires |Run(s, steps).attachments.Keys| <= all
    ensures |s.attachments.Keys| <= all
  {
    RowsStayInRuns(s, steps);
    SubsetSize(s.attachments.Keys, Run(s, steps).attachments.Keys);
  }

  lemma OfferedUnfolds(s: System, steps: seq<Step>, b: AttachmentId)
    requires steps != []
    ensures Offered(s, steps, b) == Slots(s, steps[0], b) + Offered(Next(s, steps[0]), steps[1..], b)
  {
  }

  lemma PassedOverUnfolds(s: System, steps: seq<Step>, b: AttachmentId)
    requires PassedOver(s, steps, b) && steps != []
    ensures PassedOver(Next(s, steps[0]), steps[1..], b) && (Claims(s, steps[0]) ==> b !in steps[0].batch)
  {
  }

  lemma WritesUnfold(s: System, steps: seq<Step>, b: AttachmentId)
    requires PassedOver(s, steps, b) && steps != [] && PassedOver(Next(s, steps[0]), steps[1..], b)
    ensures Writes(s, steps, b)
            == (if Wrote(s, Next(s, steps[0]), b) then 1 else 0) + Writes(Next(s, steps[0]), steps[1..], b)
  {
  }

  /** One step of the sum: what is offered now, and what the rest of the run may offer. */
  lemma OneOffer(slots: nat, after: nat, before: nat, wrote: bool, rest: nat, writes: nat, all: nat)
    requires slots + after <= before + if wrote then all else 0
    requires rest <= after + Times(writes, all)
    ensures slots + rest <= before + Times((if wrote then 1 else 0) + writes, all)
  {
  }

  lemma {:induction false} OfferedIsBounded(s: System, steps: seq<Step>, b: AttachmentId, all: nat)
    requires AllStorageOk(s) && PassedOver(s, steps, b) && |Run(s, steps).attachments.Keys| <= all
    ensures Offered(s, steps, b) <= Burden(s, b, all) + Times(Writes(s, steps, b), all)
    decreases |steps|
  {
    if steps == [] {
      assert Offered(s, steps, b) == 0;
    } else {
      var t := Next(s, steps[0]);
      PassedOverUnfolds(s, steps, b);
      RowsAreFewer(t, steps[1..], all);
      StorageNext(s, steps[0]);
      BurdenStep(s, steps[0], b, all);
      OfferedIsBounded(t, steps[1..], b, all);
      OneOffer(Slots(s, steps[0], b), Burden(t, b, all), Burden(s, b, all), Wrote(s, t, b),
               Offered(t, steps[1..], b), Writes(t, steps[1..], b), all);
      OfferedUnfolds(s, steps, b);
      WritesUnfold(s, steps, b);
    }
  }

  /** No interleaving starves a row. Along any run in which it is neither claimed nor leaves the queue, others write it
      at most twice, and the batch slots offered while it waits unlocked never exceed the rows ahead of it at the start
      plus all rows once for each such write: three times the number of rows altogether. */
  lemma WaitIsBoundedAnyway(s: System, steps: seq<Step>, b: AttachmentId, all: nat)
    requires AllStorageOk(s) && PassedOver(s, steps, b) && |Run(s, steps).attachments.Keys| <= all
    ensures Writes(s, steps, b) <= 2
    ensures Offered(s, steps, b) <= Burden(s, b, all) + Times(Writes(s, steps, b), all) <= 3 * all
  {
    RowsAreFewer(s, steps, all);
    BurdenIsBounded(s, b, all);
    WritesAreFew(s, steps, b);
    OfferedIsBounded(s, steps, b, all);
    TimesAtMostTwo(Writes(s, steps, b), all);
  }

  // ------------------------------------------------ how often others are claimed

  /** How often `a` is claimed along the run, not counting claims that skipped `b` for its lock. */
  ghost function ClaimsOf(s: System, steps: seq<Step>, a: AttachmentId, b: AttachmentId): nat
    decreases |steps|
  {
    if steps == [] then 0
    else
      (if ClaimsPast(s, steps[0], b) && a in steps[0].batch then 1 else 0) + ClaimsOf(Next(s, steps[0]), steps[1..], a, b)
  }

  /** `a` and `b` are rows written by now; `a` has been claimed before; once `a` is old enough to be claimed again, so
      is `b` if it is ahead of it. */
  ghost predicate Rivals(s: System, a: AttachmentId, b: AttachmentId) {
    && a in s.attachments && b in s.attachments && a != b
    && s.attachments[a].row.updatedAt <= s.now && s.attachments[b].row.updatedAt <= s.now
    && Condemned(s.attachments[a].row.storage) && InQueue(s.attachments[b].row)
    && (s.attachments[b].row.storage == PendingUpload ==> Reconcilable(s.cfg, s.now, s.attachments[b].row))
  }

  /** How many claims of `a` can pass `b` over before `b` is ahead of it: two when `b` was written later, one when both
      were written at the same time and `a` comes first by identifier. */
  function Lead(s: System, a: AttachmentId, b: AttachmentId): nat
    requires a in s.attachments && b in s.attachments
  {
    var ta, tb := s.attachments[a].row.updatedAt, s.attachments[b].row.updatedAt;
    if ta < tb then 2 else if ta == tb && a < b then 1 else 0
  }

  /** When `a` is old enough and `b` is not, `b` was written later. */
  lemma UnreadyIsBehind(s: System, a: AttachmentId, b: AttachmentId)
    requires Rivals(s, a, b)
    requires Reconcilable(s.cfg, s.now, s.attachments[a].row) && !Reconcilable(s.cfg, s.now, s.attachments[b].row)
    ensures Before(s, a, b)
  {
  }

  /** A claim of `a` that passes `b` over finds `a` ahead. */
  lemma ClaimedIsAhead(s: System, step: Step, a: AttachmentId, b: AttachmentId)
    requires Rivals(s, a, b) && ClaimsPast(s, step, b) && a in step.batch && b !in step.batch
    ensures Reconcilable(s.cfg, s.now, s.attachments[a].row) && Before(s, a, b) && Lead(s, a, b) > 0
  {
    assert a in Eligibles(s, step.locked);
    if b !in Eligibles(s, step.locked) { UnreadyIsBehind(s, a, b); }
  }

  /** It leaves `a` less far ahead, if `a` was last written before. */
  lemma ClaimLosesLead(s: System, step: Step, a: AttachmentId, b: AttachmentId)
    requires Rivals(s, a, b) && ClaimsPast(s, step, b) && a in step.batch && b !in step.batch && Resting(s, a)
    ensures Rivals(Next(s, step), a, b) && Lead(Next(s, step), a, b) < Lead(s, a, b)
  {
    ClaimedIsAhead(s, step, a, b);
  }

  /** No step leaves `a` further ahead, unless `b` itself is written. */
  lemma OthersKeepLead(s: System, step: Step, a: AttachmentId, b: AttachmentId)
    requires AllStorageOk(s) && Rivals(s, a, b)
    requires Claims(s, step) ==> b !in step.batch
    requires b in Next(s, step).attachments && InQueue(Next(s, step).attachments[b].row)
    ensures Rivals(Next(s, step), a, b)
    ensures Lead(Next(s, step), a, b) <= Lead(s, a, b) + if Wrote(s, Next(s, step), b) then 2 else 0
  {
    var t := Next(s, step);
    RowNext(s, step, a);
    StepIsLocal(s, step, a);
    TimeAdvances(s, step);
    if Effect(s, step, a).Some? {
      var x := s.attachments[a];
      WritesAreStamped(s.cfg, s.now, s.requests[x.row.request], x, Effect(s, step, a).value);
    }
    PassedStep(s, step, b);
    assert t.attachments[a].row == s.attachments[a].row || t.attachments[a].row.updatedAt == s.now;
  }

  /** How many of these claims find `a` written at that very time already. */
  ghost function Repeats(s: System, steps: seq<Step>, a: AttachmentId, b: AttachmentId): nat
    decreases |steps|
  {
    if steps == [] then 0
    else
      (if ClaimsPast(s, steps[0], b) && a in steps[0].batch && !Resting(s, a) then 1 else 0)
      + Repeats(Next(s, steps[0]), steps[1..], a, b)
  }

  /** While `b` is passed over, and not for a lock, a row that was claimed before is claimed at most twice more for each
      write to `b`, and so at most four times more, beside repetitions at one and the same time, for which a minimum age
      leaves no room. A row that is behind stays behind until `b` is written. */
  lemma {:induction false} ClaimsPassingOverAreFew(s: System, steps: seq<Step>, a: AttachmentId, b: AttachmentId)
    requires AllStorageOk(s) && Rivals(s, a, b) && PassedOver(s, steps, b)
    ensures ClaimsOf(s, steps, a, b) <= Lead(s, a, b) + 2 * Writes(s, steps, b) + Repeats(s, steps, a, b)
    ensures s.cfg.minimumAge > 0 ==> Repeats(s, steps, a, b) == 0
    ensures Lead(s, a, b) == 0 && Writes(s, steps, b) == 0 ==> ClaimsOf(s, steps, a, b) == 0
    ensures Writes(s, steps, b) <= 2
    decreases |steps|
  {
    WritesAreFew(s, steps, b);
    if steps != [] {
      var step, t := steps[0], Next(s, steps[0]);
      StorageNext(s, step);
      TimeAdvances(s, step);
      OthersKeepLead(s, step, a, b);
      if ClaimsPast(s, step, b) && a in step.batch {
        ClaimedIsAhead(s, step, a, b);
        if Resting(s, a) { ClaimLosesLead(s, step, a, b); }
      }
      ClaimsPassingOverAreFew(t, steps[1..], a, b);
    }
  }

  /** A batch that takes `a` and passes the reconcilable `b` over, for whatever reason, leaves `a` behind `b`, unless
      `b` was written at that very time. */
  lemma TakenGoesBehind(s: System, limit: nat, locked: set<AttachmentId>, batch: set<AttachmentId>, a: AttachmentId,
                        b: AttachmentId)
    requires AllStorageOk(s) && b in s.attachments && Reconcilable(s.cfg, s.now, s.attachments[b].row)
    requires 1 <= limit <= 20 && IsBatch(s, limit, locked, batch) && a in batch && b !in batch
    ensures var t := ReconcileClaim(s, batch);
            && AllStorageOk(t) && Rivals(t, a, b) && t.attachments[a].row.updatedAt == s.now == t.now
            && t.attachments[b] == s.attachments[b]
            && Lead(t, a, b) == if s.attachments[b].row.updatedAt == s.now && a < b then 1 else 0
  {
    var claim := ReconcilerClaims(limit, locked, batch);
    assert Claims(s, claim) && Next(s, claim) == ReconcileClaim(s, batch);
    StorageNext(s, claim);
    assert a in Eligibles(s, locked);
  }

  /** After a batch that took `a` and passed over the waiting `b`, for whatever reason: as long as `b` is neither
      claimed nor leaves the queue, `a` is claimed again at most twice for each write to `b` by others, and never if
      nobody writes it, but for claims that find `b` locked. By the sixth such claim of `a`, `b` has been claimed, or
      has left the queue, whatever anybody does; with a minimum age of zero, claims of `a` that repeat at one and the
      same time do not count. */
  lemma NoSecondClaimBeforeTheFirst(s: System, limit: nat, locked: set<AttachmentId>, batch: set<AttachmentId>,
                                    steps: seq<Step>, a: AttachmentId, b: AttachmentId)
    requires AllStorageOk(s) && Waiting(s, b)
    requires 1 <= limit <= 20 && IsBatch(s, limit, locked, batch) && a in batch && b !in batch
    requires PassedOver(ReconcileClaim(s, batch), steps, b)
    ensures var t := ReconcileClaim(s, batch);
            && ClaimsOf(t, steps, a, b) <= 2 * Writes(t, steps, b) + Repeats(t, steps, a, b)
            && Writes(t, steps, b) <= 2
            && (s.cfg.minimumAge > 0 ==> Repeats(t, steps, a, b) == 0)
            && (Writes(t, steps, b) == 0 ==> ClaimsOf(t, steps, a, b) == 0)
  {
    TakenGoesBehind(s, limit, locked, batch, a, b);
    ClaimsPassingOverAreFew(ReconcileClaim(s, batch), steps, a, b);
  }

  // --------------------------------------------------- a write does send it back

  /** Room for two uploads of one byte, and ages of one. */
  function SmallConfig(): Config { Config(1, 1, 1, 1, 1, 2, 2) }

  function Empty(q: Request): System { System.System(SmallConfig(), 0, map[0 := q], map[], 0) }

  predicate AcceptsTwo(q: Request) {
    AttachmentModel.Eligible(q.status) && q.acceptsFiles && q.maxFiles >= 2 && q.maxFileBytes >= 1
  }

  /** An upload of one byte whose PUT failed at time 0. */
  function FailedUpload(): Attachment {
    Reserved(SmallConfig(), 0, 0, 1).(upload := Finished,
                                      row := Row(0, 1, UploadFailed, NotRequired, 0, None, 0))
  }

  function TwoFailedUploads(q: Request): System {
    System.System(SmallConfig(), 1, map[0 := q], map[0 := FailedUpload(), 1 := FailedUpload()], 2)
  }

  lemma RunOfTwo(s: System, x: Step, y: Step)
    ensures Run(s, [x, y]) == Next(Next(s, x), y)
  {
    assert [x, y][1..] == [y] && [y][1..] == [];
    assert Run(Next(s, x), [y]) == Run(Next(Next(s, x), y), []);
  }

  lemma FirstReservation(q: Request)
    requires AcceptsTwo(q)
    ensures Next(Empty(q), Reserving(0, q.version, 1))
            == Empty(q).(attachments := map[0 := Reserved(SmallConfig(), 0, 0, 1)], nextAttachment := 1)
  {
    assert FileCount(map[], 0, 0) == 0 && TotalBytes(map[], 0, 0) == 0;
  }

  lemma SecondReservation(q: Request, one: System)
    requires AcceptsTwo(q)
    requires one == Empty(q).(attachments := map[0 := Reserved(SmallConfig(), 0, 0, 1)], nextAttachment := 1)
    ensures Next(one, Reserving(0, q.version, 1))
            == one.(attachments := one.attachments[1 := Reserved(SmallConfig(), 0, 0, 1)], nextAttachment := 2)
  {
    assert FileCount(one.attachments, 0, 0) == 0 && TotalBytes(one.attachments, 0, 0) == 0;
    assert FileCount(one.attachments, 0, 1) == 1;
    assert TotalBytes(one.attachments, 0, 1) == 1;
  }

  lemma TwoReservations(q: Request)
    requires AcceptsTwo(q)
    ensures Run(Empty(q), [Reserving(0, q.version, 1), Reserving(0, q.version, 1)])
            == Empty(q).(attachments := map[0 := Reserved(SmallConfig(), 0, 0, 1), 1 := Reserved(SmallConfig(), 0, 0, 1)],
                         nextAttachment := 2)
  {
    var step := Reserving(0, q.version, 1);
    FirstReservation(q);
    SecondReservation(q, Next(Empty(q), step));
    RunOfTwo(Empty(q), step, step);
  }

  /** Attachment `id` after its PUT failed at time 0 and the uploader marked it. */
  lemma UploadFails(s: System, id: AttachmentId)
    requires s.cfg == SmallConfig() && s.now == 0 && 0 in s.requests && id in s.attachments
    requires s.attachments[id] == Reserved(SmallConfig(), 0, 0, 1)
    ensures Next(Next(s, Acting(id, PutFailing)), Acting(id, MarkingFailed))
            == s.(attachments := s.attachments[id := FailedUpload()])
  {
    var failing := Next(s, Acting(id, PutFailing));
    assert failing.attachments[id] == Reserved(SmallConfig(), 0, 0, 1).(upload := Failing);
    assert failing.requests == s.requests;
    var failed := Next(failing, Acting(id, MarkingFailed));
    assert failed.attachments[id] == FailedUpload() && failed.requests == s.requests;
    assert failed.attachments == s.attachments[id := FailedUpload()];
  }

  /** From an empty system: two uploads are reserved, both PUTs fail and are marked, and time passes. */
  lemma TwoUploadsFail(q: Request) returns (steps: seq<Step>)
    requires AcceptsTwo(q)
    ensures Initial(Empty(q)) && Run(Empty(q), steps) == TwoFailedUploads(q)
  {
    var reserve := [Reserving(0, q.version, 1), Reserving(0, q.version, 1)];
    var zero := [Acting(0, PutFailing), Acting(0, MarkingFailed)];
    var one := [Acting(1, PutFailing), Acting(1, MarkingFailed)];
    TwoReservations(q);
    var s := Run(Empty(q), reserve);
    UploadFails(s, 0);
    RunOfTwo(s, zero[0], zero[1]);
    var t := Run(s, zero);
    UploadFails(t, 1);
    RunOfTwo(t, one[0], one[1]);
    var u := Run(t, one);
    assert u == TwoFailedUploads(q).(now := 0);
    assert Run(u, [Tick(1)]) == Run(Next(u, Tick(1)), []) by { assert [Tick(1)][1..] == []; }
    RunInTwo(Empty(q), reserve, zero);
    RunInTwo(Empty(q), reserve + zero, one);
    RunInTwo(Empty(q), reserve + zero + one, [Tick(1)]);
    steps := reserve + zero + one + [Tick(1)];
  }

  /** After a batch of one took attachment 0, the student deletes attachment 1 and the clock ticks. */
  ghost function AfterDeletion(q: Request): System {
    Run(ReconcileClaim(TwoFailedUploads(q), {0}), [StudentDeletes(0, 1, q.version), Tick(2)])
  }

  lemma AfterDeletionRows(q: Request)
    requires AttachmentModel.Eligible(q.status)
    ensures var t := AfterDeletion(q);
            && t.now == 2 && t.cfg == SmallConfig() && t.attachments.Keys == {0, 1}
            && t.attachments[0].row.storage == DeletePending && t.attachments[0].row.updatedAt == 1
            && t.attachments[1].row.storage == DeletePending && t.attachments[1].row.updatedAt == 1
  {
    var u := ReconcileClaim(TwoFailedUploads(q), {0});
    assert u.attachments[1] == FailedUpload() && u.requests[0] == q;
    assert DeleteError(u, 0, 1, q.version).None?;
    var deleted := Next(u, StudentDeletes(0, 1, q.version));
    assert deleted.attachments[1].row.updatedAt == 1 && deleted.attachments[1].row.storage == DeletePending;
    RunOfTwo(u, StudentDeletes(0, 1, q.version), Tick(2));
  }

  /** A write by another actor does let a row be claimed again before one that waited since its first claim: in a
      reachable state the student's deletion sends attachment 1 behind attachment 0. */
  lemma DeletionSendsARowBack(q: Request) returns (steps: seq<Step>)
    requires AcceptsTwo(q)
    ensures Initial(Empty(q))
    ensures var s := Run(Empty(q), steps);
            var t := Run(ReconcileClaim(s, {0}), [StudentDeletes(0, 1, q.version), Tick(2)]);
            && Waiting(s, 1) && IsBatch(s, 1, {}, {0}) && 1 in Eligibles(s, {})
            && IsBatch(t, 1, {}, {0}) && 1 in Eligibles(t, {})
  {
    steps := TwoUploadsFail(q);
    AfterDeletionRows(q);
    assert Eligibles(TwoFailedUploads(q), {}) == {0, 1};
    assert Eligibles(AfterDeletion(q), {}) == {0, 1};
  }
}
