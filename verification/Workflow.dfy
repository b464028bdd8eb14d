/** One service request: its versioned row and its event log. The student service, the administration service, the
    quote service and the attachment services all write it; each function here is one of their transactions on it. */
module Workflow {
  import opened Wrappers
  import opened RequestStates

  datatype EventKind =
    | RequestCreated | RequestSubmitted | RequestCancelled | StatusChanged | RequestUpdated | DetailsUpdated
    | AssignmentChanged | QuoteNoted | AttachmentNoted

  /** `from` and `to` are both present in a status-bearing event and both absent in any other. */
  datatype Event = Event(
    kind: EventKind, actor: Role, from: Option<RequestStatus>, to: Option<RequestStatus>, version: nat)

  datatype Request = Request(status: RequestStatus, version: nat, events: seq<Event>)

  datatype RequestError =
    | VersionConflict | InvalidTransition | RequestAlreadySubmitted | RequestIncomplete | ServiceInactive
    | AttachmentNotReady | AssigneeInvalid

  // ----------------------------------------------------------------- creation

  function Drafted(actor: Role): Request {
    Request(Draft, 1, [Event(RequestCreated, actor, None, None, 1)])
  }

  /** An administrator's creation for a student; submitting at once inserts the row at version 2 already. */
  function CreatedForStudent(submit: bool): Request {
    if !submit then Drafted(Admin)
    else
      Request(Submitted, 2, [Event(RequestCreated, Admin, None, None, 1)]
                            + [Event(RequestSubmitted, Admin, Some(Draft), Some(Submitted), 2)])
  }

  // ------------------------------------------------------------ versioned writes

  /** A version bump with an event that carries no status. */
  function Noted(r: Request, kind: EventKind, actor: Role): Request {
    Request(r.status, r.version + 1, r.events + [Event(kind, actor, None, None, r.version + 1)])
  }

  /** A status write with its event. */
  function Moved(r: Request, kind: EventKind, actor: Role, to: RequestStatus): Request {
    Request(to, r.version + 1, r.events + [Event(kind, actor, Some(r.status), Some(to), r.version + 1)])
  }

  function Move(r: Request, kind: EventKind, actor: Role, to: RequestStatus): Result<Request, RequestError> {
    if !CanTransition(r.status, to, actor) then Err(InvalidTransition) else Ok(Moved(r, kind, actor, to))
  }

  function UpdateDraft(r: Request, expectedVersion: nat): Result<Request, RequestError> {
    if r.version != expectedVersion then Err(VersionConflict)
    else if r.status != Draft then Err(InvalidTransition)
    else Ok(Noted(r, RequestUpdated, Student))
  }

  /** `complete`, `serviceActive` and `filesReady` are the answers of the submission checks, in their order. */
  function Submit(r: Request, expectedVersion: nat, complete: bool, serviceActive: bool, filesReady: bool)
    : Result<Request, RequestError>
  {
    if r.version != expectedVersion then Err(VersionConflict)
    else if r.status != Draft then Err(if r.status == Submitted then RequestAlreadySubmitted else InvalidTransition)
    else if !CanTransition(Draft, Submitted, Student) then Err(InvalidTransition)
    else if !complete then Err(RequestIncomplete)
    else if !serviceActive then Err(ServiceInactive)
    else if !filesReady then Err(AttachmentNotReady)
    else Ok(Moved(r, RequestSubmitted, Student, Submitted))
  }

  function Cancel(r: Request, expectedVersion: nat): Result<Request, RequestError> {
    if r.version != expectedVersion then Err(VersionConflict) else Move(r, RequestCancelled, Student, Cancelled)
  }

  predicate StudentTarget(to: RequestStatus) {
    to == Submitted || to == Accepted || to == RevisionRequested || to == Completed
  }

  function StudentTransition(r: Request, expectedVersion: nat, to: RequestStatus): Result<Request, RequestError> {
    if !StudentTarget(to) then Err(InvalidTransition)
    else if r.version != expectedVersion then Err(VersionConflict)
    else Move(r, StatusChanged, Student, to)
  }

  function AdminTransition(r: Request, expectedVersion: nat, to: RequestStatus): Result<Request, RequestError> {
    if r.version != expectedVersion then Err(VersionConflict)
    else if r.status == Draft then Err(InvalidTransition)
    else Move(r, StatusChanged, Admin, to)
  }

  /** An edit that changes no field succeeds and writes nothing. */
  function UpdateDetails(r: Request, expectedVersion: nat, changed: bool): Result<Request, RequestError> {
    if r.version != expectedVersion then Err(VersionConflict)
    else Ok(if changed then Noted(r, DetailsUpdated, Admin) else r)
  }

  /** Assigning the administrator already assigned succeeds and writes nothing. */
  function Assign(r: Request, expectedVersion: nat, eligible: bool, changed: bool): Result<Request, RequestError> {
    if r.version != expectedVersion then Err(VersionConflict)
    else if !eligible then Err(AssigneeInvalid)
    else Ok(if changed then Noted(r, AssignmentChanged, Admin) else r)
  }

  // ------------------------------------------------------------ the log replays

  /** Where a log has led: the status it reached and the version of its last status-bearing event. */
  datatype Position = Position(status: RequestStatus, version: nat)

  predicate Follows(p: Position, e: Event) {
    e.from == Some(p.status) && e.to.Some? && CanTransition(p.status, e.to.value, e.actor) && e.version > p.version
  }

  /** The path of the status-bearing events, from DRAFT; None when an edge is broken, not allowed for the recorded actor
      or not newer than the one before. */
  function Replay(events: seq<Event>): Option<Position> {
    if events == [] then Some(Position(Draft, 0))
    else
      var e := events[|events| - 1];
      match Replay(events[..|events| - 1])
      case None => None
      case Some(p) =>
        if e.from.None? && e.to.None? then Some(p)
        else if Follows(p, e) then Some(Position(e.to.value, e.version)) else None
  }

  /** The log replays to the row, and no event is newer than the row. */
  ghost predicate Coherent(r: Request) {
    && Replay(r.events).Some? && Replay(r.events).value.status == r.status
    && Replay(r.events).value.version <= r.version
    && (forall i :: 0 <= i < |r.events| ==> r.events[i].version <= r.version)
  }

  lemma ReplayOneMore(events: seq<Event>, e: Event)
    requires Replay(events).Some?
    ensures var p := Replay(events).value;
            Replay(events + [e]) ==
              if e.from.None? && e.to.None? then Some(p)
              else if Follows(p, e) then Some(Position(e.to.value, e.version)) else None
  {
    assert (events + [e])[..|events|] == events;
  }

  lemma CreationIsCoherent(actor: Role, submit: bool)
    ensures Coherent(Drafted(actor)) && Coherent(CreatedForStudent(submit))
  {
    assert TRANSITIONS[0] == Transition(Draft, Submitted, STUDENT_OR_STAFF);
    assert CanTransition(Draft, Submitted, Admin);
    var created := Event(RequestCreated, Admin, None, None, 1);
    ReplayOneMore([], Event(RequestCreated, actor, None, None, 1));
    ReplayOneMore([], created);
    ReplayOneMore([created], Event(RequestSubmitted, Admin, Some(Draft), Some(Submitted), 2));
    assert [] + [created] == [created];
    assert [] + [Event(RequestCreated, actor, None, None, 1)] == [Event(RequestCreated, actor, None, None, 1)];
  }

  lemma NotedIsCoherent(r: Request, kind: EventKind, actor: Role)
    requires Coherent(r)
    ensures Coherent(Noted(r, kind, actor))
  {
    ReplayOneMore(r.events, Event(kind, actor, None, None, r.version + 1));
  }

  lemma MovedIsCoherent(r: Request, kind: EventKind, actor: Role, to: RequestStatus)
    requires Coherent(r) && CanTransition(r.status, to, actor)
    ensures Coherent(Moved(r, kind, actor, to))
  {
    ReplayOneMore(r.events, Event(kind, actor, Some(r.status), Some(to), r.version + 1));
  }

  /** Every status-bearing event of a log that replays leaves the status the log had reached, along an edge the matrix
      allows for its recorded actor, with a version above every earlier status-bearing event's. */
  lemma {:induction false} EdgesAreAllowed(events: seq<Event>, i: nat)
    requires Replay(events).Some? && i < |events| && events[i].to.Some?
    ensures Replay(events[..i]).Some? && Follows(Replay(events[..i]).value, events[i])
    ensures Replay(events).value.version >= events[i].version
    decreases |events|
  {
    var n := |events| - 1;
    if i < n {
      EdgesAreAllowed(events[..n], i);
      assert events[..n][..i] == events[..i];
    }
  }

  lemma {:induction false} StatusVersionsIncrease(events: seq<Event>, i: nat, j: nat)
    requires Replay(events).Some? && i < j < |events| && events[i].to.Some? && events[j].to.Some?
    ensures events[i].version < events[j].version
  {
    EdgesAreAllowed(events, j);
    assert events[..j][i] == events[i];
    EdgesAreAllowed(events[..j], i);
  }
}
