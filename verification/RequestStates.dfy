/** The workflow matrix that every service consults before it moves a request. */
module RequestStates {

  datatype Role = Visitor | Student | Admin | System

  datatype RequestStatus =
    | Draft | Submitted | UnderReview | WaitingForStudent | Quoted | Accepted | InProgress
    | Delivered | RevisionRequested | Completed | Cancelled | Rejected

  datatype Transition = Transition(from: RequestStatus, to: RequestStatus, actors: set<Role>)

  const STAFF: set<Role> := {Admin, System}
  const STUDENT_OR_STAFF: set<Role> := {Student, Admin, System}

  const TRANSITIONS: seq<Transition> := [
    Transition(Draft, Submitted, STUDENT_OR_STAFF),
    Transition(Draft, Cancelled, STUDENT_OR_STAFF),
    Transition(Submitted, UnderReview, STAFF),
    Transition(Submitted, Cancelled, STUDENT_OR_STAFF),
    Transition(Submitted, Rejected, STAFF),
    Transition(UnderReview, WaitingForStudent, STAFF),
    Transition(UnderReview, Quoted, STAFF),
    Transition(UnderReview, InProgress, STAFF),
    Transition(UnderReview, Rejected, STAFF),
    Transition(UnderReview, Cancelled, STAFF),
    Transition(WaitingForStudent, Submitted, STUDENT_OR_STAFF),
    Transition(WaitingForStudent, UnderReview, STAFF),
    Transition(WaitingForStudent, Cancelled, STUDENT_OR_STAFF),
    Transition(WaitingForStudent, Rejected, STAFF),
    Transition(Quoted, Accepted, STUDENT_OR_STAFF),
    Transition(Quoted, UnderReview, STUDENT_OR_STAFF),
    Transition(Quoted, Cancelled, STUDENT_OR_STAFF),
    Transition(Quoted, Rejected, STAFF),
    Transition(Accepted, InProgress, STAFF),
    Transition(Accepted, Cancelled, STUDENT_OR_STAFF),
    Transition(InProgress, WaitingForStudent, STAFF),
    Transition(InProgress, Delivered, STAFF),
    Transition(InProgress, Cancelled, STAFF),
    Transition(Delivered, RevisionRequested, STUDENT_OR_STAFF),
    Transition(Delivered, Completed, STUDENT_OR_STAFF),
    Transition(RevisionRequested, InProgress, STAFF),
    Transition(RevisionRequested, Delivered, STAFF)
  ]

  predicate CanTransition(from: RequestStatus, to: RequestStatus, actor: Role) {
    exists i :: 0 <= i < |TRANSITIONS| && TRANSITIONS[i].from == from && TRANSITIONS[i].to == to
                && actor in TRANSITIONS[i].actors
  }

  predicate Terminal(status: RequestStatus) {
    status in {Completed, Cancelled, Rejected}
  }

  /** A terminal status has no way out, for any actor, and every other status has one for staff. */
  lemma TerminalMeansNoExit(status: RequestStatus)
    ensures Terminal(status) <==> forall to, actor :: !CanTransition(status, to, actor)
  {
    if !Terminal(status) {
      var i := match status
        case Draft => 0 case Submitted => 2 case UnderReview => 5 case WaitingForStudent => 10 case Quoted => 14
        case Accepted => 18 case InProgress => 20 case Delivered => 23 case RevisionRequested => 25
        case _ => 0;
      assert TRANSITIONS[i].from == status && Admin in TRANSITIONS[i].actors;
      assert CanTransition(status, TRANSITIONS[i].to, Admin);
    }
  }
}
