/** The workflow matrix read status by status. */
module RequestMatrix {
  import opened RequestStates

  /** Where staff may lead a request. */
  function ByStaff(from: RequestStatus): set<RequestStatus> {
    match from
    case Draft => {Submitted, Cancelled}
    case Submitted => {UnderReview, Cancelled, Rejected}
    case UnderReview => {WaitingForStudent, Quoted, InProgress, Rejected, Cancelled}
    case WaitingForStudent => {Submitted, UnderReview, Cancelled, Rejected}
    case Quoted => {Accepted, UnderReview, Cancelled, Rejected}
    case Accepted => {InProgress, Cancelled}
    case InProgress => {WaitingForStudent, Delivered, Cancelled}
    case Delivered => {RevisionRequested, Completed}
    case RevisionRequested => {InProgress, Delivered}
    case _ => {}
  }

  /** What of it is left to staff: reviewing, quoting, rejecting, working, delivering, and cancelling work under way. */
  function StaffOnly(from: RequestStatus): set<RequestStatus> {
    match from
    case Submitted => {UnderReview, Rejected}
    case UnderReview => ByStaff(UnderReview)
    case WaitingForStudent => {UnderReview, Rejected}
    case Quoted => {Rejected}
    case Accepted => {InProgress}
    case InProgress => ByStaff(InProgress)
    case RevisionRequested => ByStaff(RevisionRequested)
    case _ => {}
  }

  /** Entry `i` of the table is one of these edges, for a student too unless it is left to staff. */
  predicate Listed(i: nat)
    requires i < |TRANSITIONS|
  {
    var e := TRANSITIONS[i];
    e.to in ByStaff(e.from) && e.actors == if e.to in StaffOnly(e.from) then STAFF else STUDENT_OR_STAFF
  }

  lemma Entries0To4(i: nat)
    requires 0 <= i < 5
    ensures Listed(i)
  {
    assert Listed(0) && Listed(1) && Listed(2) && Listed(3) && Listed(4);
  }

  lemma Entries5To9(i: nat)
    requires 5 <= i < 10
    ensures Listed(i)
  {
    assert Listed(5) && Listed(6) && Listed(7) && Listed(8) && Listed(9);
  }

  lemma Entries10To13(i: nat)
    requires 10 <= i < 14
    ensures Listed(i)
  {
    assert Listed(10) && Listed(11) && Listed(12) && Listed(13);
  }

  lemma Entries14To17(i: nat)
    requires 14 <= i < 18
    ensures Listed(i)
  {
    assert Listed(14) && Listed(15) && Listed(16) && Listed(17);
  }

  lemma Entries18To22(i: nat)
    requires 18 <= i < 23
    ensures Listed(i)
  {
    assert Listed(18) && Listed(19) && Listed(20) && Listed(21) && Listed(22);
  }

  lemma Entries23To26(i: nat)
    requires 23 <= i < 27
    ensures Listed(i)
  {
    assert Listed(23) && Listed(24) && Listed(25) && Listed(26);
  }

  /** Where the table has an edge of staff. */
  function Entry(from: RequestStatus, to: RequestStatus): int {
    match from
    case Draft => if to == Submitted then 0 else 1
    case Submitted => if to == UnderReview then 2 else if to == Cancelled then 3 else 4
    case UnderReview =>
      if to == WaitingForStudent then 5 else if to == Quoted then 6 else if to == InProgress then 7
      else if to == Rejected then 8 else 9
    case WaitingForStudent =>
      if to == Submitted then 10 else if to == UnderReview then 11 else if to == Cancelled then 12 else 13
    case Quoted => if to == Accepted then 14 else if to == UnderReview then 15 else if to == Cancelled then 16 else 17
    case Accepted => if to == InProgress then 18 else 19
    case InProgress => if to == WaitingForStudent then 20 else if to == Delivered then 21 else 22
    case Delivered => if to == RevisionRequested then 23 else 24
    case RevisionRequested => if to == InProgress then 25 else 26
    case _ => -1
  }

  predicate EntryFits(from: RequestStatus, to: RequestStatus) {
    var i := Entry(from, to);
    0 <= i < |TRANSITIONS| && TRANSITIONS[i].from == from && TRANSITIONS[i].to == to
  }

  lemma NewEntriesFit(from: RequestStatus, to: RequestStatus)
    requires to in ByStaff(from) && from in {Draft, Submitted}
    ensures EntryFits(from, to)
  {
  }

  lemma ReviewedEntriesFit(from: RequestStatus, to: RequestStatus)
    requires to in ByStaff(from) && from == UnderReview
    ensures EntryFits(from, to)
  {
  }

  lemma WaitingEntriesFit(from: RequestStatus, to: RequestStatus)
    requires to in ByStaff(from) && from == WaitingForStudent
    ensures EntryFits(from, to)
  {
  }

  lemma OfferedEntriesFit(from: RequestStatus, to: RequestStatus)
    requires to in ByStaff(from) && from in {Quoted, Accepted}
    ensures EntryFits(from, to)
  {
  }

  lemma ActiveEntriesFit(from: RequestStatus, to: RequestStatus)
    requires to in ByStaff(from) && from == InProgress
    ensures EntryFits(from, to)
  {
  }

  lemma DeliveredEntriesFit(from: RequestStatus, to: RequestStatus)
    requires to in ByStaff(from) && from in {Delivered, RevisionRequested}
    ensures EntryFits(from, to)
  {
  }

  predicate AllowedTo(from: RequestStatus, to: RequestStatus, actor: Role) {
    to in ByStaff(from) && (actor in {Admin, System} || (actor == Student && to !in StaffOnly(from)))
  }

  lemma EntriesAreListed(i: nat)
    requires i < |TRANSITIONS|
    ensures Listed(i)
  {
    if i < 5 { Entries0To4(i); }
    else if i < 10 { Entries5To9(i); }
    else if i < 14 { Entries10To13(i); }
    else if i < 18 { Entries14To17(i); }
    else if i < 23 { Entries18To22(i); }
    else { Entries23To26(i); }
  }

  lemma EdgesAreMoves(from: RequestStatus, to: RequestStatus, actor: Role)
    requires CanTransition(from, to, actor)
    ensures AllowedTo(from, to, actor)
  {
    var i: nat :| i < |TRANSITIONS| && TRANSITIONS[i].from == from && TRANSITIONS[i].to == to
                  && actor in TRANSITIONS[i].actors;
    EntriesAreListed(i);
  }

  lemma MovesAreEdges(from: RequestStatus, to: RequestStatus, actor: Role)
    requires AllowedTo(from, to, actor)
    ensures CanTransition(from, to, actor)
  {
    match from {
      case Draft => NewEntriesFit(from, to);
      case Submitted => NewEntriesFit(from, to);
      case UnderReview => ReviewedEntriesFit(from, to);
      case WaitingForStudent => WaitingEntriesFit(from, to);
      case InProgress => ActiveEntriesFit(from, to);
      case Quoted => OfferedEntriesFit(from, to);
      case Accepted => OfferedEntriesFit(from, to);
      case Delivered => DeliveredEntriesFit(from, to);
      case RevisionRequested => DeliveredEntriesFit(from, to);
      case _ =>
    }
    var i := Entry(from, to);
    EntriesAreListed(i);
    assert actor in TRANSITIONS[i].actors;
  }

  /** The matrix status by status: staff may take every edge, a student those not left to staff, a visitor none. */
  lemma TheMatrix(from: RequestStatus, to: RequestStatus, actor: Role)
    ensures CanTransition(from, to, actor) <==>
              to in ByStaff(from) && (actor in {Admin, System} || (actor == Student && to !in StaffOnly(from)))
  {
    if AllowedTo(from, to, actor) { MovesAreEdges(from, to, actor); }
    if CanTransition(from, to, actor) { EdgesAreMoves(from, to, actor); }
  }
}
