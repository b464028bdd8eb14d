/** The request and quote services over mutable rows. Every method is one transaction, written in place as the services
    write it; it refines the function of the same name and keeps the log replaying to the row, and a deal sound. */
module RequestRecords {
  import opened Wrappers
  import opened RequestStates
  import W = Workflow
  import Ledger
  import M = Quotes
  import opened Quotes
  import S = QuoteSafety

  class RequestRow {
    var status: RequestStatus
    var version: nat
    var events: seq<W.Event>

    function View(): W.Request
      reads this
    {
      W.Request(status, version, events)
    }

    constructor Draft(actor: Role)
      ensures View() == W.Drafted(actor) && W.Coherent(View())
    {
      W.CreationIsCoherent(actor, false);
      status, version := RequestStatus.Draft, 1;
      events := [W.Event(W.RequestCreated, actor, None, None, 1)];
    }

    constructor ForStudent(submitImmediately: bool)
      ensures View() == W.CreatedForStudent(submitImmediately) && W.Coherent(View())
    {
      W.CreationIsCoherent(Admin, submitImmediately);
      status := if submitImmediately then Submitted else RequestStatus.Draft;
      version := if submitImmediately then 2 else 1;
      events := [W.Event(W.RequestCreated, Admin, None, None, 1)];
      if submitImmediately {
        events := events + [W.Event(W.RequestSubmitted, Admin, Some(RequestStatus.Draft), Some(Submitted), 2)];
      }
    }

    /** The guarded status update and its event, shared by every transition. */
    method Transition(kind: W.EventKind, actor: Role, to: RequestStatus) returns (r: Result<nat, W.RequestError>)
      modifies this
      ensures r == if CanTransition(old(status), to, actor) then Ok(version) else Err(W.InvalidTransition)
      ensures View() == if r.Ok? then W.Moved(old(View()), kind, actor, to) else old(View())
      ensures W.Coherent(old(View())) ==> W.Coherent(View())
    {
      var from := status;
      if !CanTransition(from, to, actor) { return Err(W.InvalidTransition); }
      ghost var was := View();
      if W.Coherent(was) { W.MovedIsCoherent(was, kind, actor, to); }
      status := to;
      version := version + 1;
      events := events + [W.Event(kind, actor, Some(from), Some(to), version)];
      return Ok(version);
    }

    method Note(kind: W.EventKind, actor: Role)
      modifies this`version, this`events
      ensures View() == W.Noted(old(View()), kind, actor)
      ensures W.Coherent(old(View())) ==> W.Coherent(View())
    {
      ghost var was := View();
      if W.Coherent(was) { W.NotedIsCoherent(was, kind, actor); }
      version := version + 1;
      events := events + [W.Event(kind, actor, None, None, version)];
    }

    method UpdateDraft(expectedVersion: nat) returns (r: Result<nat, W.RequestError>)
      modifies this
      ensures match W.UpdateDraft(old(View()), expectedVersion)
              case Err(e) => r == Err(e) && View() == old(View())
              case Ok(q) => r == Ok(version) && View() == q
      ensures W.Coherent(old(View())) ==> W.Coherent(View())
    {
      if version != expectedVersion { return Err(W.VersionConflict); }
      if status != RequestStatus.Draft { return Err(W.InvalidTransition); }
      Note(W.RequestUpdated, Student);
      return Ok(version);
    }

    method Submit(expectedVersion: nat, complete: bool, serviceActive: bool, filesReady: bool)
      returns (r: Result<nat, W.RequestError>)
      modifies this
      ensures match W.Submit(old(View()), expectedVersion, complete, serviceActive, filesReady)
              case Err(e) => r == Err(e) && View() == old(View())
              case Ok(q) => r == Ok(version) && View() == q
      ensures W.Coherent(old(View())) ==> W.Coherent(View())
    {
      if version != expectedVersion { return Err(W.VersionConflict); }
      if status != RequestStatus.Draft {
        return Err(if status == Submitted then W.RequestAlreadySubmitted else W.InvalidTransition);
      }
      if !CanTransition(RequestStatus.Draft, Submitted, Student) { return Err(W.InvalidTransition); }
      if !complete { return Err(W.RequestIncomplete); }
      if !serviceActive { return Err(W.ServiceInactive); }
      if !filesReady { return Err(W.AttachmentNotReady); }
      ghost var was := View();
      if W.Coherent(was) { W.MovedIsCoherent(was, W.RequestSubmitted, Student, Submitted); }
      status := Submitted;
      version := version + 1;
      events := events + [W.Event(W.RequestSubmitted, Student, Some(RequestStatus.Draft), Some(Submitted), version)];
      return Ok(version);
    }

    method Cancel(expectedVersion: nat) returns (r: Result<nat, W.RequestError>)
      modifies this
      ensures match W.Cancel(old(View()), expectedVersion)
              case Err(e) => r == Err(e) && View() == old(View())
              case Ok(q) => r == Ok(version) && View() == q
      ensures W.Coherent(old(View())) ==> W.Coherent(View())
    {
      if version != expectedVersion { return Err(W.VersionConflict); }
      r := Transition(W.RequestCancelled, Student, Cancelled);
    }

    method StudentTransition(expectedVersion: nat, to: RequestStatus) returns (r: Result<nat, W.RequestError>)
      modifies this
      ensures match W.StudentTransition(old(View()), expectedVersion, to)
              case Err(e) => r == Err(e) && View() == old(View())
              case Ok(q) => r == Ok(version) && View() == q
      ensures W.Coherent(old(View())) ==> W.Coherent(View())
    {
      if to != Submitted && to != RequestStatus.Accepted && to != RevisionRequested && to != Completed {
        return Err(W.InvalidTransition);
      }
      if version != expectedVersion { return Err(W.VersionConflict); }
      r := Transition(W.StatusChanged, Student, to);
    }

    method AdminTransition(expectedVersion: nat, to: RequestStatus) returns (r: Result<nat, W.RequestError>)
      modifies this
      ensures match W.AdminTransition(old(View()), expectedVersion, to)
              case Err(e) => r == Err(e) && View() == old(View())
              case Ok(q) => r == Ok(version) && View() == q
      ensures W.Coherent(old(View())) ==> W.Coherent(View())
    {
      if version != expectedVersion { return Err(W.VersionConflict); }
      if status == RequestStatus.Draft { return Err(W.InvalidTransition); }
      r := Transition(W.StatusChanged, Admin, to);
    }
  }

  class DealRecord {
    const request: RequestRow
    var quotes: seq<Quote>
    var links: seq<Link>
    var withdrawals: seq<Withdrawal>
    var files: seq<FileState>

    function View(): Deal
      reads this, request
    {
      Deal(request.View(), quotes, links, withdrawals, files)
    }

    constructor (request: RequestRow)
      ensures this.request == request && View() == Started(request.View())
      ensures W.Coherent(request.View()) ==> S.Sound(View())
    {
      this.request := request;
      quotes, links, withdrawals, files := [], [], [], [];
    }

    /** The event that records a quote action at the request's current version. */
    method NoteQuote(actor: Role)
      modifies request`events
      ensures request.View() == QuoteNoted(old(request.View()), actor)
    {
      request.events := request.events + [W.Event(W.QuoteNoted, actor, None, None, request.version)];
    }

    /** The moves that lead to QUOTED; when one is refused the caller rolls back to what it saved. */
    method LeadToQuoted() returns (ok: bool)
      modifies request
      ensures ok <==> M.LeadToQuoted(old(request.View())).Ok?
      ensures ok ==> request.View() == M.LeadToQuoted(old(request.View())).value
    {
      if request.status == Submitted || request.status == WaitingForStudent {
        var moved := request.Transition(W.StatusChanged, Admin, UnderReview);
        if moved.Err? { return false; }
      }
      if request.status == UnderReview {
        var moved := request.Transition(W.StatusChanged, Admin, RequestStatus.Quoted);
        if moved.Err? { return false; }
      }
      return request.status == RequestStatus.Quoted;
    }

    method CreateQuote(now: Time, admin: UserId, o: Offer, found: bool, usedElsewhere: bool) returns (outcome: Outcome)
      modifies this, request
      ensures (View(), outcome) == M.CreateQuote(now, old(View()), admin, o, found, usedElsewhere)
      ensures S.Sound(old(View())) ==> S.Sound(View())
    {
      ghost var was := View();
      if S.Sound(was) { S.CreateIsSound(now, was, admin, o, found, usedElsewhere); }
      var made := FindMade(quotes, admin, o.key);
      if made.Some? {
        if quotes[made.value].fingerprint != o.fingerprint { return Refused(IdempotencyKeyReused); }
        return Replayed(made.value);
      }
      if usedElsewhere { return Refused(IdempotencyKeyReused); }
      if !found { return Refused(RequestNotFound); }
      if request.version != o.expectedRequestVersion { return Refused(VersionConflict); }
      var saved := quotes;
      quotes := ExpirePending(quotes, now);
      if AnyPending(quotes) {
        quotes := saved;
        return Refused(QuoteNotPending);
      }
      var status, version, events := request.status, request.version, request.events;
      var led := LeadToQuoted();
      if !led {
        quotes := saved;
        request.status, request.version, request.events := status, version, events;
        return Refused(InvalidTransition);
      }
      var unit := Ledger.MinorUnit(o.currency);
      quotes := quotes + [Quote(admin, o.key, o.fingerprint, o.amount, o.currency, unit, o.expiresAt, Pending, 1, None)];
      NoteQuote(Admin);
      return Committed(|quotes| - 1);
    }

    /** The due of an accepted quote, once. */
    method OpenDue(q: QuoteId, quote: Quote)
      modifies this`links
      ensures links == OpenLink(old(links), q, quote)
    {
      var existing := FindLink(links, q);
      if existing.None? {
        var due := Ledger.Opened(quote.amount, quote.currency, quote.minorUnit);
        links := links + [Link(q, due)];
      }
    }

    /** The answer on the quote, the due of an accepted one, and the event, once the request has moved. */
    method StoreAnswer(q: QuoteId, response: Response, accept: bool)
      requires q < |quotes|
      modifies this`quotes, this`links, request`events
      ensures request.View() == QuoteNoted(old(request.View()), Student)
      ensures quotes == old(quotes)[q := Answered(old(quotes)[q], response, accept)]
      ensures links == if accept then OpenLink(old(links), q, old(quotes)[q]) else old(links)
    {
      var quote := quotes[q];
      var next := if accept then QuoteStatus.Accepted else QuoteStatus.Rejected;
      quotes := quotes[q := quote.(status := next, version := quote.version + 1, response := Some(response))];
      if accept { OpenDue(q, quote); }
      NoteQuote(Student);
    }

    method Respond(now: Time, q: QuoteId, key: Key, fingerprint: Fingerprint, expectedVersion: nat, accept: bool)
      returns (outcome: Outcome)
      modifies this, request
      ensures (View(), outcome) == M.Respond(now, old(View()), q, key, fingerprint, expectedVersion, accept)
      ensures S.Sound(old(View())) ==> S.Sound(View())
    {
      ghost var was := View();
      if S.Sound(was) { S.RespondIsSound(now, was, q, key, fingerprint, expectedVersion, accept); }
      if q >= |quotes| { return Refused(QuoteNotFound); }
      var quote := quotes[q];
      if quote.response.Some? && quote.response.value.key == key {
        if quote.response.value.fingerprint != fingerprint { return Refused(IdempotencyKeyReused); }
        return Replayed(q);
      }
      if quote.version != expectedVersion { return Refused(QuoteVersionConflict); }
      if quote.status != Pending { return Refused(QuoteNotPending); }
      if quote.expiresAt <= now {
        quotes := quotes[q := quote.(status := Expired, version := quote.version + 1)];
        return Expiring;
      }
      if request.status != RequestStatus.Quoted { return Refused(InvalidTransition); }
      var moved := request.Transition(W.StatusChanged, Student, if accept then RequestStatus.Accepted else UnderReview);
      if moved.Err? { return Refused(InvalidTransition); }
      StoreAnswer(q, Response(key, fingerprint), accept);
      return Committed(q);
    }

    /** The withdrawal on the quote, its record and the event, once the request has moved. */
    method StoreWithdrawal(q: QuoteId, w: Withdrawal)
      requires q < |quotes|
      modifies this`quotes, this`withdrawals, request`events
      ensures request.View() == QuoteNoted(old(request.View()), Admin)
      ensures quotes == old(quotes)[q := Settled(old(quotes)[q], Withdrawn)] && withdrawals == old(withdrawals) + [w]
    {
      quotes := quotes[q := quotes[q].(status := Withdrawn, version := quotes[q].version + 1)];
      withdrawals := withdrawals + [w];
      NoteQuote(Admin);
    }

    method Withdraw(now: Time, admin: UserId, q: QuoteId, key: Key, fingerprint: Fingerprint, expectedVersion: nat,
                    expectedRequestVersion: nat, usedElsewhere: bool) returns (outcome: Outcome)
      modifies this, request
      ensures (View(), outcome) == M.Withdraw(now, old(View()), admin, q, key, fingerprint, expectedVersion,
                                              expectedRequestVersion, usedElsewhere)
      ensures S.Sound(old(View())) ==> S.Sound(View())
    {
      ghost var was := View();
      if S.Sound(was) {
        S.WithdrawIsSound(now, was, admin, q, key, fingerprint, expectedVersion, expectedRequestVersion, usedElsewhere);
      }
      if q >= |quotes| || quotes[q].creator != admin { return Refused(QuoteNotFound); }
      var quote := quotes[q];
      var replay := FindWithdrawal(withdrawals, admin, key);
      if replay.Some? {
        if replay.value.quote != q || replay.value.fingerprint != fingerprint { return Refused(IdempotencyKeyReused); }
        return Replayed(q);
      }
      if usedElsewhere { return Refused(IdempotencyKeyReused); }
      if quote.version != expectedVersion { return Refused(QuoteVersionConflict); }
      if request.version != expectedRequestVersion { return Refused(VersionConflict); }
      if quote.status != Pending { return Refused(QuoteNotPending); }
      if quote.expiresAt <= now {
        quotes := quotes[q := quote.(status := Expired, version := quote.version + 1)];
        return Expiring;
      }
      if request.status != RequestStatus.Quoted { return Refused(InvalidTransition); }
      var moved := request.Transition(W.StatusChanged, Admin, UnderReview);
      if moved.Err? { return Refused(InvalidTransition); }
      StoreWithdrawal(q, Withdrawal(admin, key, q, fingerprint));
      return Committed(q);
    }

    method ReserveFile(expected: nat, admitted: bool) returns (file: Option<FileId>)
      modifies this`files
      ensures View() == M.ReserveFile(old(View()), expected, admitted) && (file.None? <==> View() == old(View()))
      ensures file.Some? ==> At(files, file.value, Uploading)
      ensures S.Sound(old(View())) ==> S.Sound(View())
    {
      if request.version != expected || Terminal(request.status) || !admitted { return None; }
      files := files + [Uploading];
      return Some(|files| - 1);
    }

    method FinalizeFile(file: FileId, actor: Role) returns (ok: bool)
      modifies this`files, request
      ensures View() == M.FinalizeFile(old(View()), file, actor) && (!ok <==> View() == old(View()))
      ensures S.Sound(old(View())) ==> S.Sound(View())
    {
      if Terminal(request.status) { return false; }
      if !At(files, file, Uploading) { return false; }
      ghost var was := View();
      if S.Sound(was) { S.FileStepIsSound(was, FinalizingFile(file, actor)); }
      request.Note(W.AttachmentNoted, actor);
      files := files[file := Kept];
      return true;
    }

    method FailFile(file: FileId)
      modifies this`files
      ensures View() == M.FailFile(old(View()), file)
      ensures S.Sound(old(View())) ==> S.Sound(View())
    {
      if At(files, file, Uploading) { files := files[file := Failed]; }
    }

    method TakeFile(file: FileId)
      modifies this`files
      ensures View() == M.TakeFile(old(View()), file)
      ensures S.Sound(old(View())) ==> S.Sound(View())
    {
      if At(files, file, Uploading) || At(files, file, Failed) { files := files[file := Removed]; }
    }

    method DeleteFile(expected: nat, file: FileId) returns (ok: bool)
      modifies this`files, request
      ensures View() == M.DeleteFile(old(View()), expected, file) && (!ok <==> View() == old(View()))
      ensures S.Sound(old(View())) ==> S.Sound(View())
    {
      if request.version != expected || Terminal(request.status) { return false; }
      if file >= |files| || files[file] == Removed || files[file] == Uploading { return false; }
      ghost var was := View();
      if S.Sound(was) { S.FileStepIsSound(was, DeletingFile(expected, file)); }
      request.Note(W.AttachmentNoted, Student);
      files := files[file := Removed];
      return true;
    }
  }
}
