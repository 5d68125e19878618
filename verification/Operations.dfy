/** Operation statuses and the transition table every status change must obey. */
module Operations {
  datatype Status =
    | Draft | Planned | AwaitingApproval | Approved | Dispatching | Running
    | AwaitingOperator | AwaitingVerification | Verifying | Succeeded | Blocked
    | Rejected | Expired | Failed | NeedsReconciliation | Cancelled

  predicate Terminal(s: Status) {
    s.Succeeded? || s.Blocked? || s.Rejected? || s.Expired? || s.Failed? || s.Cancelled?
  }

  predicate TransitionAllowed(before: Status, after: Status) {
    match before
    case Draft => after.Planned? || after.Cancelled?
    case Planned => after.AwaitingApproval? || after.Approved? || after.Dispatching? || after.AwaitingOperator? || after.Blocked? || after.Expired? || after.Failed? || after.Cancelled?
    case AwaitingApproval => after.Approved? || after.Rejected? || after.Expired? || after.Cancelled?
    case Approved => after.Dispatching? || after.AwaitingOperator? || after.Blocked? || after.Expired? || after.Cancelled?
    case Dispatching => after.Running? || after.Failed? || after.NeedsReconciliation?
    case Running => after.Verifying? || after.Failed? || after.NeedsReconciliation?
    case AwaitingOperator => after.AwaitingVerification? || after.Expired? || after.Cancelled? || after.NeedsReconciliation?
    case AwaitingVerification => after.Verifying? || after.Expired? || after.NeedsReconciliation?
    case Verifying => after.Succeeded? || after.Failed? || after.NeedsReconciliation?
    case NeedsReconciliation => after.Verifying? || after.Succeeded? || after.Failed? || after.Cancelled?
    case Expired => after.NeedsReconciliation?
    case _ => false
  }

  // What can come before each status.
  function Before(after: Status): set<Status> {
    match after
    case Draft => {}
    case Planned => {Draft}
    case AwaitingApproval => {Planned}
    case Approved => {Planned, AwaitingApproval}
    case Dispatching => {Planned, Approved}
    case Running => {Dispatching}
    case AwaitingOperator => {Planned, Approved}
    case AwaitingVerification => {AwaitingOperator}
    case Verifying => {Running, AwaitingVerification, NeedsReconciliation}
    case Succeeded => {Verifying, NeedsReconciliation}
    case Blocked => {Planned, Approved}
    case Rejected => {AwaitingApproval}
    case Expired => {Planned, AwaitingApproval, Approved, AwaitingOperator, AwaitingVerification}
    case Failed => {Planned, Dispatching, Running, Verifying, NeedsReconciliation}
    case NeedsReconciliation => {Dispatching, Running, AwaitingOperator, AwaitingVerification, Verifying, Expired}
    case Cancelled => {Draft, Planned, AwaitingApproval, Approved, AwaitingOperator, NeedsReconciliation}
  }

  // The table read from its other side: each status has exactly these predecessors. A status that has
  // come to its end has no successor, except that what has expired can be reconciled.
  lemma TransitionsExactly(before: Status, after: Status)
    ensures TransitionAllowed(before, after) <==> before in Before(after)
    ensures Terminal(before) && TransitionAllowed(before, after) ==> before == Expired && after == NeedsReconciliation
    ensures !Terminal(before) ==> exists next :: TransitionAllowed(before, next)
    ensures !TransitionAllowed(before, before)
  {
    match before
    case Draft => assert TransitionAllowed(before, Planned);
    case Planned => assert TransitionAllowed(before, Approved);
    case AwaitingApproval => assert TransitionAllowed(before, Approved);
    case Approved => assert TransitionAllowed(before, Dispatching);
    case Dispatching => assert TransitionAllowed(before, Running);
    case Running => assert TransitionAllowed(before, Verifying);
    case AwaitingOperator => assert TransitionAllowed(before, AwaitingVerification);
    case AwaitingVerification => assert TransitionAllowed(before, Verifying);
    case Verifying => assert TransitionAllowed(before, Succeeded);
    case NeedsReconciliation => assert TransitionAllowed(before, Verifying);
    case _ =>
  }
}
