/**
 What the row of a registration records of its run: how often it changed, which plan was built
 last, and which phases followed one another.
 */
module RegistrationRecords {
  import opened Wrappers
  import opened Operations
  import opened RegistrationRows
  import opened RegistrationInvariant
  import opened RegistrationProtocol
  import opened RegistrationSafety
  import opened RegistrationTheorems

  // ----- the phases a call moves its attempt through

  // A call that stands at `p` and finds its attempt in phase `before` moves it to `after`.
  predicate Moves(p: Point, before: Phase, after: Phase) {
    match p
    case LoginDone(seen, challenge) => before == seen && (if challenge then after == MfaRequired else after == Authenticated)
    case MfaDone(seen) => before == seen && after == Authenticated
    case PlanBuilt(seen, _) => before == seen && after == PlanReady
    case ImportPlanBuilt(seen, _) => before == seen && after == PlanReady
    case ConfirmChecked(_) => before == PlanReady && after == TokenDispatching
    case ImportChecked(_) => before == PlanReady && after == ImportStaging
    case SecretStored => before == SecretStaged && after == AclApplying
    case ImportStored => before == SecretStaged && after == TokenVerifying
    case AclsApplied => before == AclApplying && after == TokenVerifying
    case TokenObserved(seen, _) => before == seen && after == TokenVerifying
    case VerifyMarked(seen, _) => before == seen && after == Verified
    case ImportVerifying => before == TokenVerifying && after == Verified
    case CancelRead(seen) => before == seen && after == PhaseCancelled
    case _ => false
  }

  // The plan that the call has built.
  function BuiltPlan(p: Point): Option<Digest> {
    match p
    case PlanBuilt(_, digest) => Some(digest)
    case ImportPlanBuilt(_, digest) => Some(digest)
    case _ => None
  }

  // The row of the call is still the one that it has read.
  predicate Current(s: State, c: CallId) {
    && c in s.calls && s.calls[c].attempt in s.db.attempts
    && var row := s.db.attempts[s.calls[c].attempt];
       row.actor == s.calls[c].actor && row.version == s.calls[c].version && !row.resolved
  }

  // What one phase change makes of the row.
  predicate MovedTo(p: Point, row: Attempt, row': Attempt) {
    && Moves(p, row.phase, row'.phase)
    && row'.version == row.version + 1
    && row'.resolved == p.CancelRead?
    && row'.planDigest == (if BuiltPlan(p).Some? then BuiltPlan(p) else row.planDigest)
    && row'.actor == row.actor && row'.key == row.key && row'.intent == row.intent
    && row'.expectedVersion == row.expectedVersion && row'.revision == row.revision && row'.revocation == row.revocation
  }

  lemma AskMoves(p: Point, seen: Phase, after: Phase)
    ensures Moves(p, seen, after) <==> Asked(p).Some? && Asked(p).value.seen == seen && Asked(p).value.move.phase == after
    ensures Asked(p).Some? ==> Asked(p).value.move.planDigest == BuiltPlan(p) && Asked(p).value.move.resolved == p.CancelRead?
  {
  }

  lemma MoveMoves(db: Db, a: AttemptId, p: Point)
    requires a in db.attempts && Asked(p).Some? && db.attempts[a].phase == Asked(p).value.seen
    requires MoveRow(db, a, Asked(p).value.move).Ok?
    ensures var db' := MoveRow(db, a, Asked(p).value.move).value;
            && a in db'.attempts && MovedTo(p, db.attempts[a], db'.attempts[a])
            && db'.attempts == db.attempts[a := db'.attempts[a]]
  {
    AskMoves(p, Asked(p).value.seen, Asked(p).value.move.phase);
    hide Asked, Moves;
  }

  lemma AcceptedAdvance(s: State, c: CallId)
    requires Inv(s) && c in s.calls && Asked(s.calls[c].at).Some?
    ensures var call := s.calls[c];
            var r := Advance(s.db, call.attempt, call.actor, call.version, {Asked(call.at).value.seen}, Asked(call.at).value.move);
            r.Ok? <==> Current(s, c) && s.db.attempts[call.attempt].phase == Asked(call.at).value.seen
  {
    var call := s.calls[c];
    var ask := Asked(call.at).value;
    assert CallFits(s, c);
    AdvanceKeeps(s.db, s.history, call.attempt, call.actor, call.version, ask.seen, ask.move);
    hide Inv, RowsFit, Asked;
  }

  // A phase change is committed exactly when the row is still the one the call has read and in a
  // phase the call can move on; then the row of the call changes as written above, and no other.
  lemma AdvanceExactly(s: State, c: CallId)
    requires Inv(s) && c in s.calls
    ensures var s', call := Apply(s, AdvancePhase(c)), s.calls[c];
            var a := call.attempt;
            if Current(s, c) && exists after :: Moves(call.at, s.db.attempts[a].phase, after)
            then a in s'.db.attempts && MovedTo(call.at, s.db.attempts[a], s'.db.attempts[a])
                 && s'.db.attempts == s.db.attempts[a := s'.db.attempts[a]]
            else s'.db.attempts == s.db.attempts
  {
    var call := s.calls[c];
    var a := call.attempt;
    if Asked(call.at).Some? {
      var ask := Asked(call.at).value;
      AcceptedAdvance(s, c);
      AskMoves(call.at, ask.seen, ask.move.phase);
      if Current(s, c) {
        var phase := s.db.attempts[a].phase;
        forall after ensures Moves(call.at, phase, after) ==> phase == ask.seen { AskMoves(call.at, phase, after); }
        if phase == ask.seen && MoveRow(s.db, a, ask.move).Ok? { MoveMoves(s.db, a, call.at); }
      }
      hide Inv, Asked, Moves, MovedTo, MoveRow;
    } else {
      forall before, after ensures !Moves(call.at, before, after) { AskMoves(call.at, before, after); }
      hide Moves, Inv, Asked;
    }
  }

  // ----- what every step leaves of a row

  // Either the row is as before, or its version has grown by one and its plan is the one that the
  // step has built, if it has built one.
  predicate RowStep(s: State, step: Step, row: Attempt, row': Attempt, a: AttemptId) {
    || (row' == row && Built(s, step, a).None?)
    || (&& row'.version == row.version + 1
        && row'.planDigest == (if Built(s, step, a).Some? then Built(s, step, a) else row.planDigest))
  }

  // The plan that the step commits for the attempt.
  function Built(s: State, step: Step, a: AttemptId): Option<Digest> {
    if step.AdvancePhase? && Current(s, step.call) && s.calls[step.call].attempt == a
       && Moves(s.calls[step.call].at, s.db.attempts[a].phase, PlanReady)
    then BuiltPlan(s.calls[step.call].at)
    else None
  }

  predicate Fresh(row: Attempt) {
    row.phase == Prepared && row.version == 1 && row.planDigest.None? && row.revision.None? && !row.resolved && !row.revocation
  }

  predicate RowsStep(s: State, step: Step, s': State, a: AttemptId) {
    if a in s.db.attempts
    then a in s'.db.attempts && RowStep(s, step, s.db.attempts[a], s'.db.attempts[a], a)
    else a in s'.db.attempts ==> Fresh(s'.db.attempts[a])
  }

  lemma AdvanceRows(s: State, c: CallId, a: AttemptId)
    requires Inv(s)
    ensures RowsStep(s, AdvancePhase(c), Apply(s, AdvancePhase(c)), a)
  {
    if c in s.calls {
      AdvanceExactly(s, c);
      PlanMoves(s.calls[c].at);
      hide Inv, Apply, Moves, BuiltPlan;
    }
  }

  lemma PlanMoves(p: Point)
    ensures forall before, after :: Moves(p, before, after) && BuiltPlan(p).Some? ==> after == PlanReady
    ensures forall before, after :: Moves(p, before, after) && after == PlanReady ==> BuiltPlan(p).Some?
  {
  }

  lemma StoreRows(s: State, c: CallId, ciphertext: string, tokenId: string, keyAvailable: bool, newRevision: RevisionId, a: AttemptId)
    ensures var step := StoreSecret(c, ciphertext, tokenId, keyAvailable, newRevision);
            RowsStep(s, step, Apply(s, step), a)
  {
    hide TokenIdMatches, Moves;
  }

  lemma ActivateRows(s: State, c: CallId, decrypts: bool, a: AttemptId)
    ensures RowsStep(s, ActivateAttempt(c, decrypts), Apply(s, ActivateAttempt(c, decrypts)), a)
  {
    hide HasUnfinishedCoordination, HandedOver, Moves;
  }

  lemma BeginRevokeRows(s: State, c: CallId, a: AttemptId)
    ensures RowsStep(s, RequestRevocation(c), Apply(s, RequestRevocation(c)), a)
  {
    hide HasUnfinishedCoordination, Moves;
  }

  lemma FinishRevokeRows(s: State, c: CallId, a: AttemptId)
    ensures RowsStep(s, CompleteRevocation(c), Apply(s, CompleteRevocation(c)), a)
  {
    hide AppendedAll, Withdrawal, Moves;
  }

  lemma PrepareRows(s: State, request: Request, keyAvailable: bool, newId: AttemptId, a: AttemptId)
    ensures var step := PrepareAttempt(request, keyAvailable, newId);
            RowsStep(s, step, Apply(s, step), a)
  {
  }

  lemma StepRows(s: State, step: Step, a: AttemptId)
    requires Inv(s)
    ensures RowsStep(s, step, Apply(s, step), a)
  {
    hide Apply, Inv;
    match step
    case PrepareAttempt(request, keyAvailable, newId) => PrepareRows(s, request, keyAvailable, newId, a);
    case AdvancePhase(c) => AdvanceRows(s, c, a);
    case StoreSecret(c, ciphertext, tokenId, keyAvailable, newRevision) =>
      StoreRows(s, c, ciphertext, tokenId, keyAvailable, newRevision, a);
    case ActivateAttempt(c, decrypts) => ActivateRows(s, c, decrypts, a);
    case RequestRevocation(c) => BeginRevokeRows(s, c, a);
    case CompleteRevocation(c) => FinishRevokeRows(s, c, a);
    case _ => if IsWork(step) || step.SendRequest? { SideEffect(s, step); } else { QuietEffect(s, step); }
  }

  // ----- the version identifies the row

  lemma {:induction false} VersionsGrow(steps: seq<Step>, rest: seq<Step>, a: AttemptId)
    requires a in Run(steps).db.attempts
    ensures a in Run(steps + rest).db.attempts
    ensures var row, row' := Run(steps).db.attempts[a], Run(steps + rest).db.attempts[a];
            row' == row || row'.version > row.version
    decreases |rest|
  {
    hide Apply, Inv, Built;
    if rest == [] {
      assert steps + rest == steps;
    } else {
      var n := |rest| - 1;
      assert (steps + rest)[..|steps + rest| - 1] == steps + rest[..n];
      VersionsGrow(steps, rest[..n], a);
      RunKeeps(steps + rest[..n]);
      StepRows(Run(steps + rest[..n]), rest[n], a);
    }
  }

  // Whoever finds the version that he has read finds the row that he has read.
  lemma SameVersionSameRow(steps: seq<Step>, rest: seq<Step>, a: AttemptId)
    requires a in Run(steps).db.attempts && a in Run(steps + rest).db.attempts
    requires Run(steps + rest).db.attempts[a].version == Run(steps).db.attempts[a].version
    ensures Run(steps + rest).db.attempts[a] == Run(steps).db.attempts[a]
  {
    VersionsGrow(steps, rest, a);
  }

  // ----- the plan of a row

  // The plan that was committed last for the attempt.
  ghost function LastPlan(steps: seq<Step>, a: AttemptId): Option<Digest> {
    if steps == [] then None
    else
      var n := |steps| - 1;
      var built := Built(Run(steps[..n]), steps[n], a);
      if built.Some? then built else LastPlan(steps[..n], a)
  }

  // A row names the plan that was committed last for it, and none before the first.
  lemma {:induction false} RowNamesLastPlan(steps: seq<Step>, a: AttemptId)
    ensures (if a in Run(steps).db.attempts then Run(steps).db.attempts[a].planDigest else None) == LastPlan(steps, a)
  {
    hide Apply, Inv, Moves, BuiltPlan;
    if steps != [] {
      var n := |steps| - 1;
      RowNamesLastPlan(steps[..n], a);
      RunKeeps(steps[..n]);
      StepRows(Run(steps[..n]), steps[n], a);
    }
  }

  // A call that has checked the plan it confirms, against a row that has not changed since.
  predicate ConfirmFits(s: State, c: CallId) {
    c in s.calls && (s.calls[c].at.ConfirmChecked? || s.calls[c].at.ImportChecked?) ==>
      && s.calls[c].attempt in s.db.attempts
      && s.calls[c].version <= s.db.attempts[s.calls[c].attempt].version
      && (s.calls[c].version == s.db.attempts[s.calls[c].attempt].version ==>
            s.db.attempts[s.calls[c].attempt].planDigest == Some(s.calls[c].at.digest))
  }

  // Steps outside of all calls.
  predicate IsOutside(step: Step) {
    step.PrepareAttempt? || step.SelectCredential? || IsWork(step)
  }

  lemma CallsKept(s: State, step: Step)
    requires IsOutside(step)
    ensures Apply(s, step).calls == s.calls
  {
    hide Prepare, Admit, CanReopen, WorkProgress;
  }

  // Only the start of a call leads to these points.
  predicate NotByItself(s: State, s': State, step: Step, c: CallId) {
    c in s'.calls && (s'.calls[c].at.ConfirmChecked? || s'.calls[c].at.ImportChecked?) ==>
      if c in s.calls then s'.calls[c] == s.calls[c] else IsStart(step) && step.call == c && s' == ApplyStart(s, step)
  }

  lemma StartNotByItself(s: State, step: Step, c: CallId)
    requires IsStart(step)
    ensures NotByItself(s, ApplyStart(s, step), step, c)
  {
    hide StartPoint;
  }

  lemma CommitNotByItself(s: State, step: Step, c: CallId)
    requires IsCommit(step)
    ensures NotByItself(s, Apply(s, step), step, c)
  {
    hide ApplyPrepare, ApplyStart, ApplyAnswer, ApplySend, ApplyWork, Advance, StageSecret, Activate, BeginRevoke, FinishRevoke;
  }

  lemma ConfirmStarts(s: State, step: Step, c: CallId)
    ensures NotByItself(s, Apply(s, step), step, c)
  {
    if IsOutside(step) {
      CallsKept(s, step);
      hide Apply;
    } else if IsStart(step) {
      StartNotByItself(s, step, c);
      hide ApplyStart, NotByItself;
    } else if IsCommit(step) {
      CommitNotByItself(s, step, c);
      hide Apply, NotByItself;
    } else {
      OtherNotByItself(s, step, c);
      hide Apply, NotByItself;
    }
  }

  lemma OtherNotByItself(s: State, step: Step, c: CallId)
    requires !IsOutside(step) && !IsStart(step) && !IsCommit(step)
    ensures NotByItself(s, Apply(s, step), step, c)
  {
    hide ApplyPrepare, ApplyStart, ApplyAdvance, ApplyStore, ApplyActivate, ApplyBeginRevoke, ApplyFinishRevoke, ApplyWork, Pinned,
         AnswerContexts;
  }

  lemma StartedConfirm(s: State, step: Step)
    requires IsStart(step) && step.call !in s.calls
    ensures ConfirmFits(ApplyStart(s, step), step.call)
  {
  }

  lemma ConfirmStep(s: State, step: Step, c: CallId)
    requires Inv(s) && ConfirmFits(s, c)
    ensures ConfirmFits(Apply(s, step), c)
  {
    hide Apply, Inv, Built;
    var s' := Apply(s, step);
    if c in s'.calls && (s'.calls[c].at.ConfirmChecked? || s'.calls[c].at.ImportChecked?) {
      ConfirmStarts(s, step, c);
      if c in s.calls { StepRows(s, step, s.calls[c].attempt); } else { StartedConfirm(s, step); }
    }
  }

  lemma {:induction false} ConfirmsFit(steps: seq<Step>, c: CallId)
    ensures ConfirmFits(Run(steps), c)
  {
    hide Apply, Inv, ConfirmFits;
    if steps != [] {
      var n := |steps| - 1;
      ConfirmsFit(steps[..n], c);
      RunKeeps(steps[..n]);
      ConfirmStep(Run(steps[..n]), steps[n], c);
    } else {
      NothingConfirmed(c);
    }
  }

  lemma NothingConfirmed(c: CallId)
    ensures ConfirmFits(INIT, c)
  {
  }

  // What is dispatched, a token to issue or a secret to import, is dispatched under the plan that
  // was built last, and that is the plan the call has confirmed.
  lemma DispatchedUnderConfirmedPlan(steps: seq<Step>, c: CallId)
    requires c in Run(steps).calls && (Run(steps).calls[c].at.ConfirmChecked? || Run(steps).calls[c].at.ImportChecked?)
    requires Run(steps + [AdvancePhase(c)]).db.attempts != Run(steps).db.attempts
    ensures var call := Run(steps).calls[c];
            && LastPlan(steps, call.attempt) == Some(call.at.digest)
            && call.attempt in Run(steps).db.attempts && Run(steps).db.attempts[call.attempt].phase == PlanReady
  {
    assert (steps + [AdvancePhase(c)])[..|steps|] == steps;
    ConfirmsFit(steps, c);
    RowNamesLastPlan(steps, Run(steps).calls[c].attempt);
    RunKeeps(steps);
    var s := Run(steps);
    AdvanceExactly(s, c);
    hide Run, Apply, Inv, MovedTo, LastPlan;
  }
}
