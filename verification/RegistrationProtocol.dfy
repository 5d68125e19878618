/**
 The registration protocol as one concurrent state machine.

 Any number of processes run any number of service calls. A call stops between two
 steps wherever the service leaves a transaction or talks to Proxmox, so calls
 interleave freely, any call can fail and any process can crash at every such point.
 The log records the durable markers, the token requests sent to Proxmox, the
 activations and the admissions of mutations.
 */
module RegistrationProtocol {
  import opened Wrappers
  import opened Operations
  import opened RegistrationRows
  import opened RegistrationInvariant

  type ProcessId = nat
  type CallId = nat

  // The two changes of a token at Proxmox: its POST and its DELETE.
  datatype TokenRequest = IssueToken | RevokeToken

  datatype Event =
    | Marked(request: TokenRequest, attempt: AttemptId, call: CallId)
    | Requested(request: TokenRequest, attempt: AttemptId)
    | Activated(attempt: AttemptId)
    | Admitted(process: ProcessId, work: WorkId, selection: Selection)

  // An authenticated Proxmox login held in the memory of one process.
  datatype Context = Context(actor: ActorId, challenge: bool, plan: Option<Digest>)

  // Where a service call stands. `seen` is the phase of the row the call has read.
  datatype Point =
    | LoginRead(seen: Phase)
    | LoginDone(seen: Phase, challenge: bool)
    | MfaRead(seen: Phase)
    | MfaDone(seen: Phase)
    | PlanRead(seen: Phase)
    | PlanBuilt(seen: Phase, digest: Digest)
    | ConfirmChecked(digest: Digest)
    | MarkerCommitted(request: TokenRequest)
    | IssueSent
    | SecretStored
    | AclsApplied
    | VerifyStarted(activating: bool)
    | TokenObserved(seen: Phase, activating: bool)
    | VerifyMarked(seen: Phase, activating: bool)
    | ReadyToActivate
    | CancelRead(seen: Phase)
    | RevokeObserved
    | DeleteSent
    | AbsenceObserved
    | ImportPlanBuilt(seen: Phase, digest: Digest)
    | ImportChecked(digest: Digest)
    | ImportMarked
    | ImportStored
    | ImportVerifying

  datatype Call = Call(process: ProcessId, attempt: AttemptId, actor: ActorId, version: nat, at: Point)

  datatype State = State(
    db: Db, history: Histories,
    pins: map<ProcessId, Selection>,
    contexts: map<(ProcessId, AttemptId), Context>,
    calls: map<CallId, Call>,
    crashed: set<ProcessId>,
    log: seq<Event>)

  const INIT := State(EMPTY_DB, map[], map[], map[], map[], {}, [])

  datatype Step =
    | PrepareAttempt(request: Request, keyAvailable: bool, newId: AttemptId)
    | StartLogin(call: CallId, caller: Call)
    | AnswerLogin(call: CallId, challenge: bool)
    | StartMfa(call: CallId, caller: Call)
    | AnswerMfa(call: CallId)
    | StartPlan(call: CallId, caller: Call)
    | BuildPlan(call: CallId, digest: Digest, attached: bool)
    | StartConfirm(call: CallId, caller: Call, digest: Digest)
    | StartVerify(call: CallId, caller: Call, activating: bool)
    | ObserveToken(call: CallId, decrypts: bool)
    | StartCancel(call: CallId, caller: Call)
    | StartRevoke(call: CallId, caller: Call, present: bool)
    | StartImportPlan(call: CallId, caller: Call, digest: Digest)
    | StartImport(call: CallId, caller: Call, digest: Digest)
    | AdvancePhase(call: CallId)
    | SendRequest(call: CallId)
    | StoreSecret(call: CallId, ciphertext: string, tokenId: string, keyAvailable: bool, newRevision: RevisionId)
    | ActivateAttempt(call: CallId, decrypts: bool)
    | RequestRevocation(call: CallId)
    | ObserveAbsence(call: CallId)
    | CompleteRevocation(call: CallId)
    | EndCall(call: CallId)
    | DropContext(process: ProcessId, attempt: AttemptId)
    | Crash(process: ProcessId)
    | SelectCredential(process: ProcessId)
    | CreateWork(work: WorkId)
    | AdmitWork(process: ProcessId, work: WorkId, sameCluster: bool, inScope: bool, decrypts: bool)
    | ProgressWork(work: WorkId, next: Work)
    | ReopenWork(work: WorkId)

  // ----- the phase changes the service asks for

  datatype Ask = Ask(seen: Phase, move: Move)

  function Plain(phase: Phase): Move {
    Move(phase, None, None, false)
  }

  function Asked(p: Point): Option<Ask> {
    match p
    case LoginDone(seen, challenge) => Some(Ask(seen, Plain(if challenge then MfaRequired else Authenticated)))
    case MfaDone(seen) => Some(Ask(seen, Plain(Authenticated)))
    case PlanBuilt(seen, digest) => Some(Ask(seen, Move(PlanReady, None, Some(digest), false)))
    case ConfirmChecked(_) => Some(Ask(PlanReady, Move(TokenDispatching, Some(Dispatching), None, false)))
    case SecretStored => Some(Ask(SecretStaged, Plain(AclApplying)))
    case AclsApplied => Some(Ask(AclApplying, Move(TokenVerifying, Some(Operations.Verifying), None, false)))
    case TokenObserved(seen, _) => Some(Ask(seen, Move(TokenVerifying, Some(Operations.Verifying), None, false)))
    case VerifyMarked(seen, _) => Some(Ask(seen, Plain(Verified)))
    case CancelRead(seen) => Some(Ask(seen, Move(PhaseCancelled, Some(Cancelled), None, true)))
    case ImportPlanBuilt(seen, digest) => Some(Ask(seen, Move(PlanReady, None, Some(digest), false)))
    case ImportChecked(_) => Some(Ask(PlanReady, Move(ImportStaging, Some(Dispatching), None, false)))
    case ImportStored => Some(Ask(SecretStaged, Move(TokenVerifying, Some(Operations.Verifying), None, false)))
    case ImportVerifying => Some(Ask(TokenVerifying, Plain(Verified)))
    case _ => None
  }

  // Where the call goes on after the phase change has been committed.
  function Onward(p: Point): Option<Point> {
    match p
    case ConfirmChecked(_) => Some(MarkerCommitted(IssueToken))
    case SecretStored => Some(AclsApplied)
    case AclsApplied => Some(VerifyStarted(false))
    case TokenObserved(_, activating) => Some(VerifyMarked(TokenVerifying, activating))
    case VerifyMarked(_, activating) => if activating then Some(ReadyToActivate) else None
    case ImportChecked(_) => Some(ImportMarked)
    case ImportStored => Some(ImportVerifying)
    case _ => None
  }

  // ----- state updates

  function Ended(s: State, c: CallId): State {
    s.(calls := s.calls - {c})
  }

  function At(s: State, c: CallId, version: nat, p: Option<Point>): State
    requires c in s.calls
  {
    if p.None? then Ended(s, c)
    else s.(calls := s.calls[c := s.calls[c].(version := version, at := p.value)])
  }

  function Started(s: State, c: CallId, caller: Call, p: Point): State {
    s.(calls := s.calls[c := caller.(at := p)])
  }

  predicate CanStart(s: State, c: CallId, caller: Call) {
    && c !in s.calls
    && caller.process !in s.crashed
    && Owned(s.db, caller.attempt, caller.actor, caller.version).Ok?
  }

  predicate HasContext(s: State, caller: Call, challengeAllowed: bool) {
    var key := (caller.process, caller.attempt);
    && key in s.contexts
    && s.contexts[key].actor == caller.actor
    && (s.contexts[key].challenge ==> challengeAllowed)
  }

  predicate Standing(s: State, c: CallId, p: Point) {
    c in s.calls && s.calls[c].at == p
  }

  predicate Verifiable(p: Phase) {
    p.SecretStaged? || p.TokenVerifying? || p.VerificationFailed? || p.AclApplying? || p.AclUnknown? || p.Verified?
  }

  predicate PendingCredential(db: Db, row: Attempt) {
    && row.revision.Some? && row.revision.value in db.credentials
    && db.credentials[row.revision.value].state == Pending
    && db.credentials[row.revision.value].ciphertext.Some?
  }

  // ----- one step; a step that is not possible leaves the state alone

  ghost function ApplyPrepare(s: State, request: Request, keyAvailable: bool, newId: AttemptId): State {
    match Prepare(s.db, request, keyAvailable, newId)
    case Err(_) => s
    case Ok(r) =>
      if r.db == s.db then s else s.(db := r.db, history := s.history[r.attempt := FRESH_HISTORY])
  }

  predicate IsStart(step: Step) {
    step.StartLogin? || step.StartMfa? || step.StartPlan? || step.StartConfirm? || step.StartVerify?
    || step.StartCancel? || step.StartRevoke? || step.StartImportPlan? || step.StartImport?
  }

  // The first point of a new call, once it has read its row and passed its checks.
  function StartPoint(s: State, step: Step, row: Attempt): Option<Point>
    requires IsStart(step)
  {
    var caller := step.caller;
    var key := (caller.process, caller.attempt);
    match step
    case StartLogin(_, _) =>
      if (row.resolved && row.phase != Active) || row.intent.mode != Issue then None else Some(LoginRead(row.phase))
    case StartMfa(_, _) =>
      if !HasContext(s, caller, true) || !s.contexts[key].challenge then None else Some(MfaRead(row.phase))
    case StartPlan(_, _) =>
      if !(row.phase.Authenticated? || row.phase.PlanReady?) || !HasContext(s, caller, false) then None
      else Some(PlanRead(row.phase))
    case StartConfirm(_, _, digest) =>
      if row.phase != PlanReady || !HasContext(s, caller, false)
         || s.contexts[key].plan != Some(digest) || row.planDigest != Some(digest) then None
      else Some(ConfirmChecked(digest))
    case StartVerify(_, _, activating) => Some(VerifyStarted(activating))
    case StartCancel(_, _) => if PreDispatch(row.phase) then Some(CancelRead(row.phase)) else None
    case StartRevoke(_, _, present) =>
      if !HasContext(s, caller, false) then None
      else if row.phase == RevocationPending then (if present then None else Some(AbsenceObserved))
      else if present then Some(RevokeObserved) else None
    case StartImportPlan(_, _, digest) =>
      if row.intent.mode != ImportEnv || !(row.phase.Prepared? || row.phase.PlanReady?) then None
      else Some(ImportPlanBuilt(row.phase, digest))
    case StartImport(_, _, digest) =>
      if row.intent.mode != ImportEnv || !(row.phase.PlanReady? || row.phase.ImportStaging?) || row.planDigest != Some(digest) then None
      else Some(if row.phase.PlanReady? then ImportChecked(digest) else ImportMarked)
  }

  function ApplyStart(s: State, step: Step): State
    requires IsStart(step)
  {
    if !CanStart(s, step.call, step.caller) then s
    else
      var p := StartPoint(s, step, s.db.attempts[step.caller.attempt]);
      if p.None? then s else Started(s, step.call, step.caller, p.value)
  }

  // Answers from Proxmox that commit nothing.
  predicate IsAnswer(step: Step) {
    step.AnswerLogin? || step.AnswerMfa? || step.BuildPlan? || step.ObserveToken? || step.ObserveAbsence?
  }

  predicate Awaits(p: Point, step: Step)
    requires IsAnswer(step)
  {
    match step
    case AnswerLogin(_, _) => p.LoginRead?
    case AnswerMfa(_) => p.MfaRead?
    case BuildPlan(_, _, _) => p.PlanRead?
    case ObserveToken(_, _) => p.VerifyStarted?
    case ObserveAbsence(_) => p.DeleteSent?
  }

  function AnswerContexts(s: State, step: Step, call: Call): map<(ProcessId, AttemptId), Context>
    requires IsAnswer(step)
  {
    var key := (call.process, call.attempt);
    match step
    case AnswerLogin(_, challenge) => s.contexts[key := Context(call.actor, challenge, None)]
    case AnswerMfa(_) => s.contexts[key := Context(call.actor, false, None)]
    case BuildPlan(_, digest, attached) =>
      if attached && key in s.contexts then s.contexts[key := s.contexts[key].(plan := Some(digest))] else s.contexts
    case _ => s.contexts
  }

  function AnswerPoint(db: Db, step: Step, call: Call): Option<Point>
    requires IsAnswer(step) && Awaits(call.at, step)
  {
    match step
    case AnswerLogin(_, challenge) => if PreDispatch(call.at.seen) then Some(LoginDone(call.at.seen, challenge)) else None
    case AnswerMfa(_) => if call.at.seen == MfaRequired then Some(MfaDone(MfaRequired)) else None
    case BuildPlan(_, digest, _) => Some(PlanBuilt(call.at.seen, digest))
    case ObserveAbsence(_) => Some(AbsenceObserved)
    case ObserveToken(_, decrypts) =>
      if Owned(db, call.attempt, call.actor, call.version).Err? then None
      else
        var row := db.attempts[call.attempt];
        if !Verifiable(row.phase) || !PendingCredential(db, row) || !decrypts then None
        else if row.phase.SecretStaged? || row.phase.AclApplying? || row.phase.AclUnknown?
        then Some(TokenObserved(row.phase, call.at.activating))
        else Some(VerifyMarked(row.phase, call.at.activating))
  }

  function ApplyAnswer(s: State, step: Step): State
    requires IsAnswer(step)
  {
    if step.call !in s.calls || !Awaits(s.calls[step.call].at, step) then s
    else
      var call := s.calls[step.call];
      At(s.(contexts := AnswerContexts(s, step, call)), step.call, call.version, AnswerPoint(s.db, step, call))
  }

  function ApplyAdvance(s: State, c: CallId): State {
    if c !in s.calls || Asked(s.calls[c].at).None? then s
    else
      var call := s.calls[c];
      var ask := Asked(call.at).value;
      match Advance(s.db, call.attempt, call.actor, call.version, {ask.seen}, ask.move)
      case Err(_) => Ended(s, c)
      case Ok(db) =>
        var log := if call.at.ConfirmChecked? then s.log + [Marked(IssueToken, call.attempt, c)] else s.log;
        var contexts := if call.at.CancelRead? then s.contexts - {(call.process, call.attempt)} else s.contexts;
        At(s.(db := db, log := log, contexts := contexts), c, call.version + 1, Onward(call.at))
  }

  function ApplySend(s: State, c: CallId): State {
    if c !in s.calls || !s.calls[c].at.MarkerCommitted? then s
    else
      var call := s.calls[c];
      At(s.(log := s.log + [Requested(call.at.request, call.attempt)]), c, call.version,
         Some(if call.at.request == IssueToken then IssueSent else DeleteSent))
  }

  function ApplyStore(s: State, c: CallId, ciphertext: string, tokenId: string, keyAvailable: bool, newRevision: RevisionId): State {
    if !Standing(s, c, IssueSent) && !Standing(s, c, ImportMarked) then s
    else
      var call := s.calls[c];
      match StageSecret(s.db, call.attempt, call.actor, call.version, ciphertext, tokenId, keyAvailable, newRevision)
      case Err(_) => Ended(s, c)
      case Ok(db) => At(s.(db := db), c, call.version + 1, Some(if call.at == IssueSent then SecretStored else ImportStored))
  }

  function PinOf(s: State, p: ProcessId): Option<Selection> {
    if p in s.pins then Some(s.pins[p]) else None
  }

  function Pinned(s: State, p: ProcessId): State {
    s.(pins := s.pins[p := PinAfter(PinOf(s, p), SelectionOf(s.db.connection))])
  }

  function ApplyActivate(s: State, c: CallId, decrypts: bool): State {
    if !Standing(s, c, ReadyToActivate) then s
    else
      var call := s.calls[c];
      match Activate(s.db, call.attempt, call.actor, call.version, decrypts, PinOf(s, call.process))
      case Err(_) => Ended(s, c)
      case Ok(db) =>
        Ended(Pinned(s, call.process).(
                db := db, history := s.history[call.attempt := History(true, None)],
                contexts := s.contexts - {(call.process, call.attempt)},
                log := s.log + [Activated(call.attempt)]), c)
  }

  function ApplyBeginRevoke(s: State, c: CallId): State {
    if !Standing(s, c, RevokeObserved) then s
    else
      var call := s.calls[c];
      match BeginRevoke(s.db, call.attempt, call.actor, call.version)
      case Err(_) => Ended(s, c)
      case Ok(db) =>
        if call.attempt !in s.history || call.attempt !in s.db.attempts then Ended(s, c)
        else
          At(s.(db := db,
                history := s.history[call.attempt := History(s.history[call.attempt].activated, Some(s.db.attempts[call.attempt].phase))],
                log := s.log + [Marked(RevokeToken, call.attempt, c)]),
             c, call.version + 1, Some(MarkerCommitted(RevokeToken)))
  }

  function ApplyFinishRevoke(s: State, c: CallId): State {
    if !Standing(s, c, AbsenceObserved) then s
    else
      var call := s.calls[c];
      match FinishRevoke(s.db, call.attempt, call.actor, call.version)
      case Err(_) => Ended(s, c)
      case Ok(db) => Ended(s.(db := db, contexts := s.contexts - {(call.process, call.attempt)}), c)
  }

  // An unfinished item moves on, and it may finish. Only `AdmitWork` grants a lock.
  predicate WorkProgress(before: Work, after: Work) {
    && before.Unfinished()
    && after.admitted == before.admitted
    && (after.lockOpen ==> before.lockOpen)
    && (after.status == before.status
        || (after.status.Some? && (if before.status.None? then after.status.value == Planned
                                   else TransitionAllowed(before.status.value, after.status.value))))
  }

  function ApplyWork(s: State, step: Step): State
    requires step.CreateWork? || step.AdmitWork? || step.ProgressWork? || step.ReopenWork?
  {
    var db, w := s.db, step.work;
    match step
    case CreateWork(_) =>
      if w in db.work then s else s.(db := db.(work := db.work[w := Work(None, Some(Planned), false, false)]))
    case AdmitWork(p, _, sameCluster, inScope, decrypts) =>
      if p in s.crashed then s
      else (
        match Admit(db, PinOf(s, p), sameCluster, inScope, decrypts)
        case Err(_) => Pinned(s, p)
        case Ok(selection) =>
          Pinned(s, p).(db := LockGranted(db, w, selection), log := s.log + [Admitted(p, w, selection)]))
    case ProgressWork(_, next) =>
      if w in db.work && WorkProgress(db.work[w], next) then s.(db := db.(work := db.work[w := next])) else s
    case ReopenWork(_) =>
      if CanReopen(db, w) then s.(db := db.(work := db.work[w := db.work[w].(status := Some(NeedsReconciliation))])) else s
  }

  // A late attestation takes an expired operation up again.
  predicate CanReopen(db: Db, w: WorkId) {
    w in db.work && !db.work[w].Unfinished() && db.work[w].status == Some(Expired)
  }

  ghost function Apply(s: State, step: Step): State {
    match step
    case PrepareAttempt(request, keyAvailable, newId) => ApplyPrepare(s, request, keyAvailable, newId)
    case StartLogin(_, _) => ApplyStart(s, step)
    case StartMfa(_, _) => ApplyStart(s, step)
    case StartPlan(_, _) => ApplyStart(s, step)
    case StartConfirm(_, _, _) => ApplyStart(s, step)
    case StartVerify(_, _, _) => ApplyStart(s, step)
    case StartCancel(_, _) => ApplyStart(s, step)
    case StartRevoke(_, _, _) => ApplyStart(s, step)
    case StartImportPlan(_, _, _) => ApplyStart(s, step)
    case StartImport(_, _, _) => ApplyStart(s, step)
    case AnswerLogin(_, _) => ApplyAnswer(s, step)
    case AnswerMfa(_) => ApplyAnswer(s, step)
    case BuildPlan(_, _, _) => ApplyAnswer(s, step)
    case ObserveToken(_, _) => ApplyAnswer(s, step)
    case ObserveAbsence(_) => ApplyAnswer(s, step)
    case AdvancePhase(c) => ApplyAdvance(s, c)
    case SendRequest(c) => ApplySend(s, c)
    case StoreSecret(c, ciphertext, tokenId, keyAvailable, newRevision) => ApplyStore(s, c, ciphertext, tokenId, keyAvailable, newRevision)
    case ActivateAttempt(c, decrypts) => ApplyActivate(s, c, decrypts)
    case RequestRevocation(c) => ApplyBeginRevoke(s, c)
    case CompleteRevocation(c) => ApplyFinishRevoke(s, c)
    case EndCall(c) => Ended(s, c)
    case DropContext(p, a) => s.(contexts := s.contexts - {(p, a)})
    case Crash(p) =>
      s.(crashed := s.crashed + {p},
         calls := map c | c in s.calls && s.calls[c].process != p :: s.calls[c],
         contexts := map key | key in s.contexts && key.0 != p :: s.contexts[key])
    case SelectCredential(p) => if p in s.crashed then s else Pinned(s, p)
    case CreateWork(_) => ApplyWork(s, step)
    case AdmitWork(_, _, _, _, _) => ApplyWork(s, step)
    case ProgressWork(_, _) => ApplyWork(s, step)
    case ReopenWork(_) => ApplyWork(s, step)
  }

  // The state after a run of steps from an empty installation.
  ghost function Run(steps: seq<Step>): State {
    if steps == [] then INIT else Apply(Run(steps[..|steps| - 1]), steps[|steps| - 1])
  }
}
