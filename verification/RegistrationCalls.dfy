/**
 When the calls of the registration service begin, what they may do with the answers of Proxmox, and
 which logins they keep in memory.
 */
module RegistrationCalls {
  import opened Wrappers
  import opened Operations
  import opened RegistrationRows
  import opened RegistrationInvariant
  import opened RegistrationProtocol
  import opened RegistrationSafety

  // ----- the beginning of a call

  // The process runs, the number is free, and the caller owns the attempt in its present version.
  predicate MayBegin(s: State, step: Step)
    requires IsStart(step)
  {
    && step.call !in s.calls && step.caller.process !in s.crashed
    && step.caller.attempt in s.db.attempts
    && s.db.attempts[step.caller.attempt].actor == step.caller.actor
    && s.db.attempts[step.caller.attempt].version == step.caller.version
  }

  // The process holds a login of the caller for the attempt that needs no second factor any more.
  predicate LoggedIn(s: State, caller: Call) {
    var key := (caller.process, caller.attempt);
    key in s.contexts && s.contexts[key].actor == caller.actor && !s.contexts[key].challenge
  }

  // The same, but the second factor is still asked for.
  predicate Challenged(s: State, caller: Call) {
    var key := (caller.process, caller.attempt);
    key in s.contexts && s.contexts[key].actor == caller.actor && s.contexts[key].challenge
  }

  // What the service asks of the attempt and of the login before each kind of call.
  predicate MayStart(s: State, step: Step, row: Attempt)
    requires IsStart(step)
  {
    var caller := step.caller;
    match step
    case StartLogin(_, _) => row.intent.mode == Issue && (row.resolved ==> row.phase == Active)
    case StartMfa(_, _) => Challenged(s, caller)
    case StartPlan(_, _) => LoggedIn(s, caller) && (row.phase == Authenticated || row.phase == PlanReady)
    case StartConfirm(_, _, digest) =>
      && LoggedIn(s, caller) && row.phase == PlanReady && row.planDigest == Some(digest)
      && s.contexts[(caller.process, caller.attempt)].plan == Some(digest)
    case StartVerify(_, _, _) => true
    case StartCancel(_, _) => row.phase == Prepared || row.phase == Authenticated || row.phase == MfaRequired || row.phase == PlanReady
    case StartRevoke(_, _, present) => LoggedIn(s, caller) && (present <==> row.phase != RevocationPending)
    case StartImportPlan(_, _, _) => row.intent.mode == ImportEnv && (row.phase == Prepared || row.phase == PlanReady)
    case StartImport(_, _, digest) =>
      row.intent.mode == ImportEnv && (row.phase == PlanReady || row.phase == ImportStaging) && row.planDigest == Some(digest)
  }

  // Where the call then stands.
  predicate StandsAt(step: Step, row: Attempt, p: Point)
    requires IsStart(step)
  {
    match step
    case StartLogin(_, _) => p == LoginRead(row.phase)
    case StartMfa(_, _) => p == MfaRead(row.phase)
    case StartPlan(_, _) => p == PlanRead(row.phase)
    case StartConfirm(_, _, digest) => p == ConfirmChecked(digest)
    case StartVerify(_, _, activating) => p == VerifyStarted(activating)
    case StartCancel(_, _) => p == CancelRead(row.phase)
    case StartRevoke(_, _, present) => if present then p == RevokeObserved else p == AbsenceObserved
    case StartImportPlan(_, _, digest) => p == ImportPlanBuilt(row.phase, digest)
    case StartImport(_, _, digest) => if row.phase == PlanReady then p == ImportChecked(digest) else p == ImportMarked
  }

  // A call begins exactly when it may, with the row as read, and nothing else changes.
  lemma BeginsExactlyWhen(s: State, step: Step)
    requires IsStart(step)
    ensures var s', caller := Apply(s, step), step.caller;
            if MayBegin(s, step) && MayStart(s, step, s.db.attempts[caller.attempt])
            then step.call in s'.calls && s' == s.(calls := s.calls[step.call := s'.calls[step.call]])
                 && s'.calls[step.call] == caller.(at := s'.calls[step.call].at)
                 && StandsAt(step, s.db.attempts[caller.attempt], s'.calls[step.call].at)
            else s' == s
  {
  }

  // ----- the answers of Proxmox

  // A token counts as seen only while the attempt awaits it, with its pending secret decrypted.
  predicate TokenSeen(s: State, call: Call, decrypts: bool) {
    && call.attempt in s.db.attempts
    && var row := s.db.attempts[call.attempt];
       && row.actor == call.actor && row.version == call.version && decrypts
       && (row.phase == SecretStaged || row.phase == AclApplying || row.phase == TokenVerifying || row.phase == Verified
           || row.phase == AclUnknown || row.phase == VerificationFailed)
       && row.revision.Some? && row.revision.value in s.db.credentials
       && s.db.credentials[row.revision.value].state == Pending && s.db.credentials[row.revision.value].ciphertext.Some?
  }

  // The next point of the call, if it goes on.
  predicate GoesOn(s: State, step: Step, call: Call, p: Point)
    requires IsAnswer(step)
  {
    match step
    case AnswerLogin(_, challenge) =>
      call.at.LoginRead? && PreDispatch(call.at.seen) && p == LoginDone(call.at.seen, challenge)
    case AnswerMfa(_) => call.at.MfaRead? && call.at.seen == MfaRequired && p == MfaDone(MfaRequired)
    case BuildPlan(_, digest, _) => call.at.PlanRead? && p == PlanBuilt(call.at.seen, digest)
    case ObserveAbsence(_) => call.at.DeleteSent? && p == AbsenceObserved
    case ObserveToken(_, decrypts) =>
      && call.at.VerifyStarted? && TokenSeen(s, call, decrypts)
      && var phase := s.db.attempts[call.attempt].phase;
         p == if phase == TokenVerifying || phase == Verified || phase == VerificationFailed then VerifyMarked(phase, call.at.activating)
              else TokenObserved(phase, call.at.activating)
  }

  predicate IsAwaited(step: Step, p: Point)
    requires IsAnswer(step)
  {
    match step
    case AnswerLogin(_, _) => p.LoginRead?
    case AnswerMfa(_) => p.MfaRead?
    case BuildPlan(_, _, _) => p.PlanRead?
    case ObserveAbsence(_) => p.DeleteSent?
    case ObserveToken(_, _) => p.VerifyStarted?
  }

  lemma PointExactly(s: State, step: Step, call: Call, p: Point)
    requires IsAnswer(step) && Awaits(call.at, step)
    ensures AnswerPoint(s.db, step, call) == Some(p) <==> GoesOn(s, step, call, p)
  {
    hide PreDispatch;
    if step.ObserveToken? {
      TokenExactly(s, call, step.decrypts);
      hide TokenSeen, Owned, PendingCredential, Verifiable;
    }
  }

  lemma TokenExactly(s: State, call: Call, decrypts: bool)
    ensures TokenSeen(s, call, decrypts) <==>
      && Owned(s.db, call.attempt, call.actor, call.version).Ok? && decrypts
      && Verifiable(s.db.attempts[call.attempt].phase) && PendingCredential(s.db, s.db.attempts[call.attempt])
  {
  }

  lemma AwaitedExactly(step: Step, p: Point)
    requires IsAnswer(step)
    ensures IsAwaited(step, p) <==> Awaits(p, step)
  {
  }

  lemma AwaitedAnswer(s: State, step: Step)
    requires IsAnswer(step) && step.call in s.calls && Awaits(s.calls[step.call].at, step)
    ensures var s', call := ApplyAnswer(s, step), s.calls[step.call];
            && s' == s.(calls := s'.calls, contexts := s'.contexts)
            && s'.calls == (if AnswerPoint(s.db, step, call).None? then s.calls - {step.call}
                            else s.calls[step.call := call.(at := AnswerPoint(s.db, step, call).value)])
  {
    hide Awaits, AnswerPoint, AnswerContexts;
  }

  // An answer moves the call that awaits it on, or ends it; it commits nothing.
  lemma AnsweredExactly(s: State, step: Step, p: Point)
    requires IsAnswer(step)
    ensures var s' := Apply(s, step);
            && s' == s.(calls := s'.calls, contexts := s'.contexts)
            && (step.call !in s.calls || !IsAwaited(step, s.calls[step.call].at) ==> s' == s)
            && (step.call in s.calls && IsAwaited(step, s.calls[step.call].at) ==>
                  var call := s.calls[step.call];
                  if GoesOn(s, step, call, p) then s'.calls == s.calls[step.call := call.(at := p)]
                  else step.call !in s'.calls || s'.calls[step.call].at != p)
  {
    AnswerApplies(s, step);
    hide Apply, Awaits, IsAwaited, AnswerPoint, GoesOn;
    if step.call in s.calls {
      AwaitedExactly(step, s.calls[step.call].at);
      if Awaits(s.calls[step.call].at, step) {
        AwaitedAnswer(s, step);
        PointExactly(s, step, s.calls[step.call], p);
        hide ApplyAnswer;
      }
    }
  }

  lemma AnswerApplies(s: State, step: Step)
    requires IsAnswer(step)
    ensures Apply(s, step) == ApplyAnswer(s, step)
  {
    hide ApplyAnswer;
  }

  lemma AnswerEnds(s: State, step: Step)
    requires IsAnswer(step) && step.call in s.calls && IsAwaited(step, s.calls[step.call].at)
    requires forall p :: !GoesOn(s, step, s.calls[step.call], p)
    ensures Apply(s, step).calls == s.calls - {step.call}
  {
    var s' := Apply(s, step);
    if step.call in s'.calls { AnsweredExactly(s, step, s'.calls[step.call].at); }
    hide GoesOn;
  }

  // ----- the logins a process keeps

  // A login is kept for the caller who gave the password, or the second factor; a plan is attached to
  // an existing one.
  predicate LoginAfter(s: State, step: Step, call: Call, after: Context)
    requires IsAnswer(step)
  {
    match step
    case AnswerLogin(_, challenge) => after.actor == call.actor && after.challenge == challenge && after.plan.None?
    case AnswerMfa(_) => after.actor == call.actor && !after.challenge && after.plan.None?
    case BuildPlan(_, digest, attached) =>
      && (call.process, call.attempt) in s.contexts
      && var before := s.contexts[(call.process, call.attempt)];
         after.actor == before.actor && after.challenge == before.challenge && after.plan == (if attached then Some(digest) else before.plan)
    case _ =>
      (call.process, call.attempt) in s.contexts && after == s.contexts[(call.process, call.attempt)]
  }

  lemma LoginsAfterAnswer(s: State, step: Step, key: (ProcessId, AttemptId))
    requires IsAnswer(step) && step.call in s.calls && IsAwaited(step, s.calls[step.call].at)
    ensures var s', call := Apply(s, step), s.calls[step.call];
            if key == (call.process, call.attempt)
            then (key in s'.contexts ==> LoginAfter(s, step, call, s'.contexts[key]))
                 && (key in s.contexts || step.AnswerLogin? || step.AnswerMfa? ==> key in s'.contexts)
            else (key in s'.contexts <==> key in s.contexts) && (key in s.contexts ==> s'.contexts[key] == s.contexts[key])
  {
  }

  // A step ends a login: its attempt was cancelled, activated or revoked by a call of the process, it
  // was dropped, or the process crashed.
  predicate EndsLogin(s: State, s': State, step: Step, key: (ProcessId, AttemptId)) {
    || (step.DropContext? && key == (step.process, step.attempt))
    || (step.Crash? && key.0 == step.process)
    || ((step.AdvancePhase? || step.ActivateAttempt? || step.CompleteRevocation?)
        && step.call in s.calls && key == (s.calls[step.call].process, s.calls[step.call].attempt)
        && s'.db != s.db && (step.AdvancePhase? ==> s.calls[step.call].at.CancelRead?))
  }

  lemma AdvanceLogins(s: State, c: CallId, key: (ProcessId, AttemptId))
    ensures var s' := ApplyAdvance(s, c);
            && (key in s'.contexts <==> key in s.contexts && !EndsLogin(s, s', AdvancePhase(c), key))
            && (key in s'.contexts ==> s'.contexts[key] == s.contexts[key])
  {
    if c in s.calls && Asked(s.calls[c].at).Some? {
      var call, ask := s.calls[c], Asked(s.calls[c].at).value;
      AdvanceChanges(s.db, call.attempt, call.actor, call.version, ask.seen, ask.move);
      hide Advance, Asked;
    }
  }

  lemma AdvanceChanges(db: Db, a: AttemptId, actor: ActorId, version: nat, seen: Phase, move: Move)
    ensures var r := Advance(db, a, actor, version, {seen}, move); r.Ok? ==> r.value != db
  {
    var r := Advance(db, a, actor, version, {seen}, move);
    if r.Ok? { assert r.value.attempts[a].version == db.attempts[a].version + 1; }
  }

  lemma ActivateChanges(db: Db, a: AttemptId, actor: ActorId, version: nat, decrypts: bool, pin: Option<Selection>)
    ensures var r := Activate(db, a, actor, version, decrypts, pin); r.Ok? ==> r.value != db
  {
    var r := Activate(db, a, actor, version, decrypts, pin);
    if r.Ok? { assert r.value.attempts[a].version == db.attempts[a].version + 1; }
    hide HasUnfinishedCoordination, HandedOver;
  }

  lemma FinishChanges(db: Db, a: AttemptId, actor: ActorId, version: nat)
    ensures var r := FinishRevoke(db, a, actor, version); r.Ok? ==> r.value != db
  {
    var r := FinishRevoke(db, a, actor, version);
    if r.Ok? { assert r.value.attempts[a].version == db.attempts[a].version + 1; }
    hide AppendedAll, Withdrawal;
  }

  lemma ActivateLogins(s: State, c: CallId, decrypts: bool, key: (ProcessId, AttemptId))
    ensures var s' := ApplyActivate(s, c, decrypts);
            && (key in s'.contexts <==> key in s.contexts && !EndsLogin(s, s', ActivateAttempt(c, decrypts), key))
            && (key in s'.contexts ==> s'.contexts[key] == s.contexts[key])
  {
    if Standing(s, c, ReadyToActivate) {
      var call := s.calls[c];
      ActivateChanges(s.db, call.attempt, call.actor, call.version, decrypts, PinOf(s, call.process));
    }
    hide Activate;
  }

  lemma FinishLogins(s: State, c: CallId, key: (ProcessId, AttemptId))
    ensures var s' := ApplyFinishRevoke(s, c);
            && (key in s'.contexts <==> key in s.contexts && !EndsLogin(s, s', CompleteRevocation(c), key))
            && (key in s'.contexts ==> s'.contexts[key] == s.contexts[key])
  {
    if Standing(s, c, AbsenceObserved) {
      var call := s.calls[c];
      FinishChanges(s.db, call.attempt, call.actor, call.version);
    }
    hide FinishRevoke;
  }

  // Apart from answers, a login stays as it is until a step ends it.
  lemma LoginsEndExactly(s: State, step: Step, key: (ProcessId, AttemptId))
    requires !IsAnswer(step)
    ensures var s' := Apply(s, step);
            && (key in s'.contexts <==> key in s.contexts && !EndsLogin(s, s', step, key))
            && (key in s'.contexts ==> s'.contexts[key] == s.contexts[key])
  {
    match step
    case AdvancePhase(c) => AdvanceLogins(s, c, key); hide ApplyAdvance;
    case ActivateAttempt(c, decrypts) => ActivateLogins(s, c, decrypts, key); hide ApplyActivate;
    case CompleteRevocation(c) => FinishLogins(s, c, key); hide ApplyFinishRevoke;
    case _ => OtherLogins(s, step, key); hide Apply;
  }

  lemma OtherLogins(s: State, step: Step, key: (ProcessId, AttemptId))
    requires !IsAnswer(step) && !step.AdvancePhase? && !step.ActivateAttempt? && !step.CompleteRevocation?
    ensures var s' := Apply(s, step);
            && (key in s'.contexts <==> key in s.contexts && !EndsLogin(s, s', step, key))
            && (key in s'.contexts ==> s'.contexts[key] == s.contexts[key])
  {
    hide StartPoint, CanStart, Prepare, StageSecret, BeginRevoke, Admit, CanReopen, WorkProgress;
  }

  // ----- how a call goes on after a commit

  // Where a call that has moved its attempt stands next, if it goes on.
  predicate IsNext(p: Point, next: Option<Point>) {
    match p
    case ConfirmChecked(_) => next == Some(MarkerCommitted(IssueToken))
    case SecretStored => next == Some(AclsApplied)
    case AclsApplied => next == Some(VerifyStarted(false))
    case TokenObserved(_, activating) => next == Some(VerifyMarked(TokenVerifying, activating))
    case VerifyMarked(_, activating) => next == if activating then Some(ReadyToActivate) else None
    case ImportChecked(_) => next == Some(ImportMarked)
    case ImportStored => next == Some(ImportVerifying)
    case _ => next.None?
  }

  predicate Commits(p: Point) {
    p.LoginDone? || p.MfaDone? || p.PlanBuilt? || p.ConfirmChecked? || p.SecretStored? || p.AclsApplied? || p.TokenObserved?
    || p.VerifyMarked? || p.CancelRead? || p.ImportPlanBuilt? || p.ImportChecked? || p.ImportStored? || p.ImportVerifying?
  }

  // The call goes on at `next` with the version it has written, or is over.
  predicate GoneOn(s: State, s': State, c: CallId, next: Option<Point>)
    requires c in s.calls
  {
    s'.calls == if next.None? then s.calls - {c} else s.calls[c := s.calls[c].(version := s.calls[c].version + 1, at := next.value)]
  }

  lemma NextExactly(p: Point)
    ensures Commits(p) <==> Asked(p).Some?
    ensures Commits(p) ==> IsNext(p, Onward(p))
  {
  }

  // A phase change that is committed takes the call on, and one that is refused ends it. The marker
  // of the POST is logged with its commit, and nothing else is.
  lemma AdvanceContinues(s: State, c: CallId)
    requires c in s.calls
    ensures var s', call := Apply(s, AdvancePhase(c)), s.calls[c];
            if !Commits(call.at) then s' == s
            else if s'.db == s.db then s'.calls == s.calls - {c} && s'.log == s.log
            else
              && (exists next :: IsNext(call.at, next) && GoneOn(s, s', c, next))
              && s'.log == if call.at.ConfirmChecked? then s.log + [Marked(IssueToken, call.attempt, c)] else s.log
  {
    var call := s.calls[c];
    NextExactly(call.at);
    if Asked(call.at).Some? {
      var ask := Asked(call.at).value;
      AdvanceChanges(s.db, call.attempt, call.actor, call.version, ask.seen, ask.move);
    }
    hide Advance, Asked, Onward, IsNext, Commits;
  }

  // A request is sent after its marker and logged, and the call waits for that request's answer.
  lemma SendContinues(s: State, c: CallId)
    requires c in s.calls
    ensures var s', call := Apply(s, SendRequest(c)), s.calls[c];
            if call.at.MarkerCommitted?
            then s'.log == s.log + [Requested(call.at.request, call.attempt)] && s'.db == s.db
                 && s'.calls == s.calls[c := call.(at := match call.at.request case IssueToken => IssueSent case RevokeToken => DeleteSent)]
            else s' == s
  {
  }

  // A stored secret takes the call on to the access control, or to the verification of an import.
  lemma StoreContinues(s: State, c: CallId, ciphertext: string, tokenId: string, keyAvailable: bool, newRevision: RevisionId)
    requires c in s.calls
    ensures var s', call := Apply(s, StoreSecret(c, ciphertext, tokenId, keyAvailable, newRevision)), s.calls[c];
            var r := StageSecret(s.db, call.attempt, call.actor, call.version, ciphertext, tokenId, keyAvailable, newRevision);
            if call.at != IssueSent && call.at != ImportMarked then s' == s
            else
              && s'.log == s.log
              && s'.db == (if r.Ok? then r.value else s.db)
              && GoneOn(s, s', c, if r.Err? then None else if call.at == IssueSent then Some(SecretStored) else Some(ImportStored))
  {
    hide StageSecret;
  }

  // An activation ends its call and is logged, with the selection it replaces pinned to the process.
  lemma ActivateContinues(s: State, c: CallId, decrypts: bool)
    requires c in s.calls
    ensures var s', call := Apply(s, ActivateAttempt(c, decrypts)), s.calls[c];
            var pin := if call.process in s.pins then Some(s.pins[call.process]) else None;
            var r := Activate(s.db, call.attempt, call.actor, call.version, decrypts, pin);
            if call.at != ReadyToActivate then s' == s
            else
              && s'.calls == s.calls - {c} && s'.db == (if r.Ok? then r.value else s.db)
              && s'.log == (if r.Ok? then s.log + [Activated(call.attempt)] else s.log)
              && s'.pins == if r.Err? || pin.Some? then s.pins else s.pins[call.process := SelectionOf(s.db.connection)]
  {
    hide Activate;
  }

  // The marker of a revocation is logged with its commit, and the DELETE comes next.
  lemma RevocationContinues(s: State, c: CallId)
    requires Inv(s) && c in s.calls
    ensures var s', call := Apply(s, RequestRevocation(c)), s.calls[c];
            var r := BeginRevoke(s.db, call.attempt, call.actor, call.version);
            if call.at != RevokeObserved then s' == s
            else
              && s'.db == (if r.Ok? then r.value else s.db)
              && GoneOn(s, s', c, if r.Err? then None else Some(MarkerCommitted(RevokeToken)))
              && s'.log == if r.Ok? then s.log + [Marked(RevokeToken, call.attempt, c)] else s.log
  {
    assert CallFits(s, c) && AttemptFits(s.db, s.history, s.calls[c].attempt);
    hide BeginRevoke, Inv, RowsFit;
  }

  lemma CompletionContinues(s: State, c: CallId)
    requires c in s.calls
    ensures var s', call := Apply(s, CompleteRevocation(c)), s.calls[c];
            var r := FinishRevoke(s.db, call.attempt, call.actor, call.version);
            if call.at != AbsenceObserved then s' == s
            else s'.calls == s.calls - {c} && s'.log == s.log && s'.db == if r.Ok? then r.value else s.db
  {
    hide FinishRevoke;
  }

  // A crash ends the calls and the logins of its process and nothing else.
  lemma CrashEndsAll(s: State, p: ProcessId, c: CallId)
    ensures var s' := Apply(s, Crash(p));
            && s' == s.(crashed := s.crashed + {p}, calls := s'.calls, contexts := s'.contexts)
            && (c in s'.calls <==> c in s.calls && s.calls[c].process != p) && (c in s'.calls ==> s'.calls[c] == s.calls[c])
  {
  }

  lemma CallStepLasts(s: State, step: Step)
    requires step.AdvancePhase? || step.SendRequest? || step.StoreSecret? || step.ActivateAttempt? || step.RequestRevocation?
             || step.CompleteRevocation?
    ensures Apply(s, step).crashed == s.crashed
  {
    hide Advance, StageSecret, Activate, BeginRevoke, FinishRevoke;
  }

  lemma OtherStepLasts(s: State, step: Step)
    requires !(step.AdvancePhase? || step.SendRequest? || step.StoreSecret? || step.ActivateAttempt? || step.RequestRevocation?
               || step.CompleteRevocation?)
    ensures Apply(s, step).crashed == if step.Crash? then s.crashed + {step.process} else s.crashed
  {
    hide Prepare, StartPoint, AnswerPoint, AnswerContexts, Admit, CanReopen, WorkProgress;
  }

  // A process that has crashed stays so: it begins and admits nothing afterwards.
  lemma CrashLasts(s: State, p: ProcessId, step: Step)
    requires p in s.crashed
    ensures p in Apply(s, step).crashed
    ensures IsStart(step) && step.caller.process == p ==> Apply(s, step) == s
    ensures step.AdmitWork? && step.process == p ==> Apply(s, step) == s
  {
    if step.AdvancePhase? || step.SendRequest? || step.StoreSecret? || step.ActivateAttempt? || step.RequestRevocation? || step.CompleteRevocation? {
      CallStepLasts(s, step);
    } else {
      OtherStepLasts(s, step);
      CrashedIsIdle(s, p, step);
    }
    hide Apply;
  }

  lemma CrashedIsIdle(s: State, p: ProcessId, step: Step)
    requires p in s.crashed
    ensures IsStart(step) && step.caller.process == p ==> Apply(s, step) == s
    ensures step.AdmitWork? && step.process == p ==> Apply(s, step) == s
  {
    hide StartPoint, Admit;
  }
}
