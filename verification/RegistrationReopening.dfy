/**
 Runs in which an expired guided operation is taken up again after the connection it was
 admitted under has been replaced, or closed. They walk the whole life of one attempt.
 */
module RegistrationReopening {
  import opened Wrappers
  import opened Operations
  import opened RegistrationRows
  import opened RegistrationInvariant
  import opened RegistrationProtocol
  import opened RegistrationSafety
  import opened RegistrationTheorems

  const ENVIRONMENT := Selection(LegacyEnv, None)
  const INTENT := Intent("intent", Issue, "gjallar@pve")
  const REQUEST := Request(INTENT, "key", 12, "operator", true, "installation", "cluster")
  const ATTEMPT: AttemptId := "first"
  const REVISION: RevisionId := "revision"
  const GUIDED: WorkId := "guided"
  const TOKEN := IssuedTokenId("gjallar@pve", ATTEMPT)

  // The connection, the attempt, its operation and its credential, and the expired item.
  ghost predicate Rows(db: Db, connection: Connection, row: Attempt, status: Status, credentials: map<RevisionId, Credential>) {
    && db.connection == Some(connection)
    && db.attempts == map[ATTEMPT := row]
    && db.operations == map[RegistrationOp(ATTEMPT) := status]
    && db.credentials == credentials
    && db.work == map[GUIDED := EXPIRED]
  }

  function RowAt(phase: Phase, version: nat, plan: Option<Digest>, revision: Option<RevisionId>): Attempt {
    Attempt("operator", "key", INTENT, plan, phase, phase == Active, 1, version, revision, false)
  }

  const FIRST := FirstConnection("installation", "cluster")
  const PENDING := map[REVISION := Credential(Pending, TOKEN, Some("sealed"))]
  const PLAN := Some("plan")
  const REPLACED := Connection("installation", "cluster", Managed, Some(REVISION), Open, 2)
  const IN_USE := map[REVISION := Credential(InUse, TOKEN, Some("sealed"))]

  // No call runs, and process 0 holds `context` for the attempt.
  ghost predicate Idle(s: State, context: Option<Context>) {
    && s.calls == map[] && s.crashed == {}
    && s.contexts == (if context.Some? then map[(0, ATTEMPT) := context.value] else map[])
    && (0 in s.pins ==> s.pins[0] == ENVIRONMENT)
    && ATTEMPT in s.history
  }

  ghost predicate Busy(s: State, c: CallId, version: nat, p: Point, context: Option<Context>) {
    && s.calls == map[c := Call(0, ATTEMPT, "operator", version, p)] && s.crashed == {}
    && s.contexts == (if context.Some? then map[(0, ATTEMPT) := context.value] else map[])
    && (0 in s.pins ==> s.pins[0] == ENVIRONMENT)
    && ATTEMPT in s.history
  }

  function Caller(version: nat): Call {
    Call(0, ATTEMPT, "operator", version, ConfirmChecked("plan"))
  }

  lemma RunThen(steps: seq<Step>, step: Step)
    ensures Run(steps + [step]) == Apply(Run(steps), step)
  {
    assert (steps + [step])[..|steps|] == steps;
  }

  predicate Followed(step: Step) {
    || IsWork(step) || IsStart(step) || IsAnswer(step) || step.PrepareAttempt? || step.AdvancePhase?
    || step.SendRequest? || step.StoreSecret? || step.ActivateAttempt? || step.RequestRevocation?
  }

  // The run goes on with one step; the kind of the step says which part of `Apply` matters.
  ghost function Effect(s: State, step: Step): State
    requires Followed(step)
  {
    if IsWork(step) then ApplyWork(s, step)
    else if IsStart(step) then ApplyStart(s, step)
    else if IsAnswer(step) then ApplyAnswer(s, step)
    else match step
      case PrepareAttempt(request, keyAvailable, newId) => ApplyPrepare(s, request, keyAvailable, newId)
      case AdvancePhase(c) => ApplyAdvance(s, c)
      case SendRequest(c) => ApplySend(s, c)
      case StoreSecret(c, ciphertext, tokenId, keyAvailable, newRevision) => ApplyStore(s, c, ciphertext, tokenId, keyAvailable, newRevision)
      case ActivateAttempt(c, decrypts) => ApplyActivate(s, c, decrypts)
      case RequestRevocation(c) => ApplyBeginRevoke(s, c)
  }

  lemma RunOn(steps: seq<Step>, step: Step)
    requires Followed(step)
    ensures Run(steps + [step]) == Effect(Run(steps), step)
  {
    RunThen(steps, step);
    hide ApplyWork, ApplyStart, ApplyAnswer, ApplyAdvance, ApplySend, ApplyPrepare, ApplyStore, ApplyActivate, ApplyBeginRevoke, Run;
  }

  const CREATED := Work(None, Some(Planned), false, false)
  const GRANTED := Work(Some(ENVIRONMENT), Some(Planned), true, false)
  const HANDED_OFF := Work(Some(ENVIRONMENT), Some(AwaitingOperator), true, true)
  const EXPIRED := Work(Some(ENVIRONMENT), Some(Expired), false, false)

  // Process 7 plans an operation and is granted a lock under the environment's credential.
  lemma FirstGrant(create: Step, admit: Step)
    requires create == CreateWork(GUIDED) && admit == AdmitWork(7, GUIDED, true, true, true)
    ensures var s := ApplyWork(ApplyWork(INIT, create), admit);
            s == INIT.(db := EMPTY_DB.(work := map[GUIDED := GRANTED]), pins := map[7 := ENVIRONMENT], log := s.log)
  {
    assert ApplyWork(INIT, create).db == EMPTY_DB.(work := map[GUIDED := CREATED]);
  }

  // The instruction is handed to the operator, and expires.
  lemma Expiry(s: State)
    requires s.db.work == map[GUIDED := GRANTED]
    ensures var s' := ApplyWork(ApplyWork(s, ProgressWork(GUIDED, HANDED_OFF)), ProgressWork(GUIDED, EXPIRED));
            s' == s.(db := s.db.(work := map[GUIDED := EXPIRED]))
  {
    assert WorkProgress(GRANTED, HANDED_OFF) && WorkProgress(HANDED_OFF, EXPIRED);
  }

  lemma GuidedOperationExpires() returns (steps: seq<Step>)
    ensures var s := Run(steps);
            && s.db == EMPTY_DB.(work := map[GUIDED := EXPIRED])
            && s.calls == map[] && s.contexts == map[] && s.crashed == {} && s.pins == map[7 := ENVIRONMENT]
  {
    var one, two := CreateWork(GUIDED), AdmitWork(7, GUIDED, true, true, true);
    var three, four := ProgressWork(GUIDED, HANDED_OFF), ProgressWork(GUIDED, EXPIRED);
    FirstGrant(one, two);
    Expiry(ApplyWork(ApplyWork(INIT, one), two));
    RunOn([], one);
    RunOn([one], two);
    RunOn([one, two], three);
    RunOn([one, two, three], four);
    steps := [one, two, three, four];
    assert [one] == [] + [one] && [one, two] == [one] + [two] && [one, two, three] == [one, two] + [three];
    assert steps == [one, two, three] + [four];
    assert Run([]) == INIT;
    hide ApplyWork, Run;
  }

  // ----- the steps of the attempt

  lemma Prepares(s: State)
    requires s.db == EMPTY_DB.(work := map[GUIDED := EXPIRED])
    requires s.calls == map[] && s.contexts == map[] && s.crashed == {} && s.pins == map[7 := ENVIRONMENT]
    ensures var s' := ApplyPrepare(s, REQUEST, true, ATTEMPT);
            Rows(s'.db, FIRST, RowAt(Prepared, 1, None, None), Planned, map[]) && Idle(s', None)
  {
    assert SameKey(s.db, REQUEST.key) == {} && Unresolved(s.db) == {};
  }

  lemma Starts(s: State, step: Step, row: Attempt, connection: Connection, status: Status,
               credentials: map<RevisionId, Credential>, context: Option<Context>, p: Point)
    requires Rows(s.db, connection, row, status, credentials) && Idle(s, context)
    requires row.actor == "operator"
    requires IsStart(step) && step.caller == Caller(row.version) && StartPoint(s, step, row) == Some(p)
    ensures var s' := ApplyStart(s, step);
            s'.db == s.db && Busy(s', step.call, row.version, p, context)
  {
    hide StartPoint;
  }

  lemma AdvanceRows(db: Db, row: Attempt, connection: Connection, status: Status,
                    credentials: map<RevisionId, Credential>, move: Move)
    requires Rows(db, connection, row, status, credentials) && row.actor == "operator" && !row.resolved
    requires move.status.None? || TransitionAllowed(status, move.status.value)
    ensures var r := Advance(db, ATTEMPT, "operator", row.version, {row.phase}, move);
            r.Ok? && Rows(r.value, connection, Moved(row, move), if move.status.Some? then move.status.value else status, credentials)
  {
    hide TransitionAllowed;
  }

  lemma Advances(s: State, c: CallId, p: Point, row: Attempt, connection: Connection, status: Status,
                 credentials: map<RevisionId, Credential>, context: Option<Context>)
    requires Rows(s.db, connection, row, status, credentials) && Busy(s, c, row.version, p, context)
    requires row.actor == "operator" && !row.resolved && !p.CancelRead?
    requires Asked(p).Some? && Asked(p).value.seen == row.phase
    requires var next := Asked(p).value.move.status; next.None? || TransitionAllowed(status, next.value)
    ensures var s', move := ApplyAdvance(s, c), Asked(p).value.move;
            && Rows(s'.db, connection, Moved(row, move), if move.status.Some? then move.status.value else status, credentials)
            && (Onward(p).None? ==> Idle(s', context))
            && (Onward(p).Some? ==> Busy(s', c, row.version + 1, Onward(p).value, context))
  {
    hide Asked, Onward, TransitionAllowed, Advance, Rows, Moved;
    assert s.calls[c] == Call(0, ATTEMPT, "operator", row.version, p);
    AdvanceRows(s.db, row, connection, status, credentials, Asked(p).value.move);
  }

  lemma Answers(s: State, step: Step, c: CallId, p: Point, version: nat, context: Option<Context>, after: Option<Context>, next: Option<Point>)
    requires Busy(s, c, version, p, context)
    requires IsAnswer(step) && step.call == c && Awaits(p, step)
    requires AnswerContexts(s, step, s.calls[c]) == (if after.Some? then map[(0, ATTEMPT) := after.value] else map[])
    requires AnswerPoint(s.db, step, s.calls[c]) == next
    ensures var s' := ApplyAnswer(s, step);
            && s'.db == s.db
            && (next.None? ==> Idle(s', after))
            && (next.Some? ==> Busy(s', c, version, next.value, after))
  {
    hide AnswerContexts, AnswerPoint;
  }

  lemma NothingUnfinished(db: Db, row: Attempt, connection: Connection, status: Status, credentials: map<RevisionId, Credential>)
    requires Rows(db, connection, row, status, credentials)
    ensures !HasUnfinishedCoordination(db, RegistrationOp(ATTEMPT))
  {
    assert UnfinishedOperations(db, RegistrationOp(ATTEMPT)) == {} && UnfinishedWork(db) == {};
  }

  lemma ActivateRows(db: Db, pin: Option<Selection>)
    requires Rows(db, FIRST, RowAt(Verified, 9, PLAN, Some(REVISION)), Operations.Verifying, PENDING)
    requires pin.None? || pin.value == ENVIRONMENT
    ensures var r := Activate(db, ATTEMPT, "operator", 9, true, pin);
            r.Ok? && Rows(r.value, REPLACED, RowAt(Active, 10, PLAN, Some(REVISION)), Succeeded, IN_USE)
  {
    NothingUnfinished(db, RowAt(Verified, 9, PLAN, Some(REVISION)), FIRST, Operations.Verifying, PENDING);
    hide HasUnfinishedCoordination;
  }

  lemma Activates(s: State, c: CallId, context: Option<Context>)
    requires Rows(s.db, FIRST, RowAt(Verified, 9, PLAN, Some(REVISION)), Operations.Verifying, PENDING)
    requires Busy(s, c, 9, ReadyToActivate, context)
    ensures var s' := ApplyActivate(s, c, true);
            Rows(s'.db, REPLACED, RowAt(Active, 10, PLAN, Some(REVISION)), Succeeded, IN_USE) && Idle(s', None)
  {
    assert s.calls[c] == Call(0, ATTEMPT, "operator", 9, ReadyToActivate);
    assert SelectionOf(s.db.connection) == ENVIRONMENT;
    hide Activate, Rows;
    ActivateRows(s.db, PinOf(s, 0));
  }

  lemma Stores(s: State, context: Option<Context>)
    requires Rows(s.db, FIRST, RowAt(TokenDispatching, 4, PLAN, None), Dispatching, map[])
    requires Busy(s, 3, 4, IssueSent, context)
    ensures var s' := ApplyStore(s, 3, "sealed", TOKEN, true, REVISION);
            && Rows(s'.db, FIRST, RowAt(SecretStaged, 5, PLAN, Some(REVISION)), Running, PENDING)
            && Busy(s', 3, 5, SecretStored, context)
  {
    assert s.calls[3] == Call(0, ATTEMPT, "operator", 4, IssueSent);
    assert StageSecret(s.db, ATTEMPT, "operator", 4, "sealed", TOKEN, true, REVISION).Ok?;
  }

  const LOGGED_IN := Some(Context("operator", false, None))
  const READY := Some(Context("operator", false, PLAN))

  // ----- the run, one call of the service after the other

  lemma Go(steps: seq<Step>, step: Step) returns (longer: seq<Step>)
    requires Followed(step)
    ensures longer == steps + [step] && Run(longer) == Effect(Run(steps), step)
  {
    longer := steps + [step];
    RunOn(steps, step);
  }

  // The run has reached these rows and no call runs.
  ghost predicate Quiet(steps: seq<Step>, row: Attempt, connection: Connection, status: Status,
                        credentials: map<RevisionId, Credential>, context: Option<Context>)
  {
    Rows(Run(steps).db, connection, row, status, credentials) && Idle(Run(steps), context)
  }

  // The run has reached these rows and a call stands at `p`.
  ghost predicate Midway(steps: seq<Step>, row: Attempt, connection: Connection, status: Status,
                           credentials: map<RevisionId, Credential>, context: Option<Context>, c: CallId, p: Point)
  {
    Rows(Run(steps).db, connection, row, status, credentials) && Busy(Run(steps), c, row.version, p, context)
  }

  lemma GoStart(steps: seq<Step>, step: Step, row: Attempt, connection: Connection, status: Status,
                credentials: map<RevisionId, Credential>, context: Option<Context>, p: Point) returns (longer: seq<Step>)
    requires Quiet(steps, row, connection, status, credentials, context) && row.actor == "operator"
    requires IsStart(step) && step.caller == Caller(row.version) && StartPoint(Run(steps), step, row) == Some(p)
    ensures Midway(longer, row, connection, status, credentials, context, step.call, p)
  {
    hide Run, Rows, Idle, Busy, StartPoint, ApplyStart;
    Starts(Run(steps), step, row, connection, status, credentials, context, p);
    longer := Go(steps, step);
  }

  lemma GoAnswer(steps: seq<Step>, step: Step, row: Attempt, connection: Connection, status: Status,
                 credentials: map<RevisionId, Credential>, context: Option<Context>, c: CallId, p: Point,
                 after: Option<Context>, next: Option<Point>) returns (longer: seq<Step>)
    requires Midway(steps, row, connection, status, credentials, context, c, p)
    requires IsAnswer(step) && step.call == c && Awaits(p, step)
    requires var call := Call(0, ATTEMPT, "operator", row.version, p);
             && AnswerContexts(Run(steps), step, call) == (if after.Some? then map[(0, ATTEMPT) := after.value] else map[])
             && AnswerPoint(Run(steps).db, step, call) == next
    ensures next.None? ==> Quiet(longer, row, connection, status, credentials, after)
    ensures next.Some? ==> Midway(longer, row, connection, status, credentials, after, c, next.value)
  {
    hide Run, Rows, Idle, AnswerContexts, AnswerPoint, ApplyAnswer;
    assert Run(steps).calls[c] == Call(0, ATTEMPT, "operator", row.version, p);
    Answers(Run(steps), step, c, p, row.version, context, after, next);
    longer := Go(steps, step);
  }

  lemma GoAdvance(steps: seq<Step>, row: Attempt, connection: Connection, status: Status,
                  credentials: map<RevisionId, Credential>, context: Option<Context>, c: CallId, p: Point)
    returns (longer: seq<Step>)
    requires Midway(steps, row, connection, status, credentials, context, c, p)
    requires row.actor == "operator" && !row.resolved && !p.CancelRead?
    requires Asked(p).Some? && Asked(p).value.seen == row.phase
    requires var next := Asked(p).value.move.status; next.None? || TransitionAllowed(status, next.value)
    ensures var move := Asked(p).value.move;
            var now := if move.status.Some? then move.status.value else status;
            && (Onward(p).None? ==> Quiet(longer, Moved(row, move), connection, now, credentials, context))
            && (Onward(p).Some? ==> Midway(longer, Moved(row, move), connection, now, credentials, context, c, Onward(p).value))
  {
    hide Run, Rows, Idle, Busy, Asked, Onward, TransitionAllowed, ApplyAdvance;
    Advances(Run(steps), c, p, row, connection, status, credentials, context);
    longer := Go(steps, AdvancePhase(c));
  }

  lemma PreparedRun() returns (steps: seq<Step>)
    ensures Quiet(steps, RowAt(Prepared, 1, None, None), FIRST, Planned, map[], None)
  {
    steps := GuidedOperationExpires();
    Prepares(Run(steps));
    hide Run, Rows, Idle, ApplyPrepare;
    steps := Go(steps, PrepareAttempt(REQUEST, true, ATTEMPT));
  }

  lemma LoginCall() returns (steps: seq<Step>)
    ensures Quiet(steps, RowAt(Authenticated, 2, None, None), FIRST, Planned, map[], LOGGED_IN)
  {
    steps := PreparedRun();
    hide Quiet, Midway, Run;
    var row := RowAt(Prepared, 1, None, None);
    steps := GoStart(steps, StartLogin(1, Caller(1)), row, FIRST, Planned, map[], None, LoginRead(Prepared));
    ContextsOf(steps, row, FIRST, Planned, map[], None, 1, LoginRead(Prepared));
    steps := GoAnswer(steps, AnswerLogin(1, false), row, FIRST, Planned, map[], None, 1, LoginRead(Prepared), LOGGED_IN,
                      Some(LoginDone(Prepared, false)));
    steps := GoAdvance(steps, row, FIRST, Planned, map[], LOGGED_IN, 1, LoginDone(Prepared, false));
  }

  lemma ContextsOf(steps: seq<Step>, row: Attempt, connection: Connection, status: Status,
                   credentials: map<RevisionId, Credential>, context: Option<Context>, c: CallId, p: Point)
    requires Midway(steps, row, connection, status, credentials, context, c, p)
    ensures Run(steps).contexts == if context.Some? then map[(0, ATTEMPT) := context.value] else map[]
    ensures Rows(Run(steps).db, connection, row, status, credentials)
  {
  }

  lemma IdleContexts(steps: seq<Step>, row: Attempt, connection: Connection, status: Status,
                     credentials: map<RevisionId, Credential>, context: Option<Context>)
    requires Quiet(steps, row, connection, status, credentials, context)
    ensures Run(steps).contexts == if context.Some? then map[(0, ATTEMPT) := context.value] else map[]
  {
  }

  lemma PlanCall() returns (steps: seq<Step>)
    ensures Quiet(steps, RowAt(PlanReady, 3, PLAN, None), FIRST, Planned, map[], READY)
  {
    steps := LoginCall();
    var row := RowAt(Authenticated, 2, None, None);
    IdleContexts(steps, row, FIRST, Planned, map[], LOGGED_IN);
    hide Quiet, Midway, Run;
    steps := GoStart(steps, StartPlan(2, Caller(2)), row, FIRST, Planned, map[], LOGGED_IN, PlanRead(Authenticated));
    ContextsOf(steps, row, FIRST, Planned, map[], LOGGED_IN, 2, PlanRead(Authenticated));
    steps := GoAnswer(steps, BuildPlan(2, "plan", true), row, FIRST, Planned, map[], LOGGED_IN, 2, PlanRead(Authenticated), READY,
                      Some(PlanBuilt(Authenticated, "plan")));
    steps := GoAdvance(steps, row, FIRST, Planned, map[], READY, 2, PlanBuilt(Authenticated, "plan"));
  }

  lemma ConfirmCall() returns (steps: seq<Step>)
    ensures Midway(steps, RowAt(TokenDispatching, 4, PLAN, None), FIRST, Dispatching, map[], READY, 3, IssueSent)
  {
    steps := PlanCall();
    var row := RowAt(PlanReady, 3, PLAN, None);
    IdleContexts(steps, row, FIRST, Planned, map[], READY);
    hide Quiet, Run, Midway;
    steps := GoStart(steps, StartConfirm(3, Caller(3), "plan"), row, FIRST, Planned, map[], READY, ConfirmChecked("plan"));
    steps := GoAdvance(steps, row, FIRST, Planned, map[], READY, 3, ConfirmChecked("plan"));
    steps := RequestSent(steps);
  }

  lemma RequestSent(steps: seq<Step>) returns (longer: seq<Step>)
    requires Midway(steps, RowAt(TokenDispatching, 4, PLAN, None), FIRST, Dispatching, map[], READY, 3, MarkerCommitted(IssueToken))
    ensures Midway(longer, RowAt(TokenDispatching, 4, PLAN, None), FIRST, Dispatching, map[], READY, 3, IssueSent)
  {
    hide Run, Rows;
    longer := Go(steps, SendRequest(3));
  }

  lemma StoredRun() returns (steps: seq<Step>)
    ensures Midway(steps, RowAt(SecretStaged, 5, PLAN, Some(REVISION)), FIRST, Running, PENDING, READY, 3, SecretStored)
  {
    steps := ConfirmCall();
    Stores(Run(steps), READY);
    hide Run, Rows, Busy, ApplyStore;
    steps := Go(steps, StoreSecret(3, "sealed", TOKEN, true, REVISION));
  }

  lemma AclRun() returns (steps: seq<Step>)
    ensures Midway(steps, RowAt(TokenVerifying, 7, PLAN, Some(REVISION)), FIRST, Operations.Verifying, PENDING, READY, 3, VerifyStarted(false))
  {
    steps := StoredRun();
    hide Quiet, Midway, Run;
    var revision := Some(REVISION);
    steps := GoAdvance(steps, RowAt(SecretStaged, 5, PLAN, revision), FIRST, Running, PENDING, READY, 3, SecretStored);
    steps := GoAdvance(steps, RowAt(AclApplying, 6, PLAN, revision), FIRST, Running, PENDING, READY, 3, AclsApplied);
  }

  lemma VerifiedRun() returns (steps: seq<Step>)
    ensures Quiet(steps, RowAt(Verified, 8, PLAN, Some(REVISION)), FIRST, Operations.Verifying, PENDING, READY)
  {
    steps := AclRun();
    hide Quiet, Midway, Run;
    var row := RowAt(TokenVerifying, 7, PLAN, Some(REVISION));
    ContextsOf(steps, row, FIRST, Operations.Verifying, PENDING, READY, 3, VerifyStarted(false));
    steps := GoAnswer(steps, ObserveToken(3, true), row, FIRST, Operations.Verifying, PENDING, READY, 3, VerifyStarted(false), READY,
                      Some(VerifyMarked(TokenVerifying, false)));
    steps := GoAdvance(steps, row, FIRST, Operations.Verifying, PENDING, READY, 3, VerifyMarked(TokenVerifying, false));
  }

  lemma VerifiedAgainRun() returns (steps: seq<Step>)
    ensures Midway(steps, RowAt(Verified, 8, PLAN, Some(REVISION)), FIRST, Operations.Verifying, PENDING, READY, 4, VerifyMarked(Verified, true))
  {
    steps := VerifiedRun();
    var row := RowAt(Verified, 8, PLAN, Some(REVISION));
    hide Quiet, Midway, Run;
    steps := GoStart(steps, StartVerify(4, Caller(8), true), row, FIRST, Operations.Verifying, PENDING, READY, VerifyStarted(true));
    ContextsOf(steps, row, FIRST, Operations.Verifying, PENDING, READY, 4, VerifyStarted(true));
    steps := GoAnswer(steps, ObserveToken(4, true), row, FIRST, Operations.Verifying, PENDING, READY, 4, VerifyStarted(true), READY,
                      Some(VerifyMarked(Verified, true)));
  }

  lemma ActivatedRun() returns (steps: seq<Step>)
    ensures Quiet(steps, RowAt(Active, 10, PLAN, Some(REVISION)), REPLACED, Succeeded, IN_USE, None)
  {
    steps := VerifiedAgainRun();
    var row := RowAt(Verified, 8, PLAN, Some(REVISION));
    hide Quiet, Midway, Run;
    steps := GoAdvance(steps, row, FIRST, Operations.Verifying, PENDING, READY, 4, VerifyMarked(Verified, true));
    steps := ActivationCommits(steps);
  }

  lemma ActivationCommits(steps: seq<Step>) returns (longer: seq<Step>)
    requires Midway(steps, RowAt(Verified, 9, PLAN, Some(REVISION)), FIRST, Operations.Verifying, PENDING, READY, 4, ReadyToActivate)
    ensures Quiet(longer, RowAt(Active, 10, PLAN, Some(REVISION)), REPLACED, Succeeded, IN_USE, None)
  {
    hide Run, Rows, Idle, Busy, ApplyActivate;
    Activates(Run(steps), 4, READY);
    longer := Go(steps, ActivateAttempt(4, true));
  }

  const CLOSED := REPLACED.(admission := Closed)
  const REVOKING := RowAt(Active, 11, PLAN, Some(REVISION)).(revocation := true, phase := RevocationPending)

  lemma RevokeRows(db: Db)
    requires Rows(db, REPLACED, RowAt(Active, 10, PLAN, Some(REVISION)), Succeeded, IN_USE)
    ensures var r := BeginRevoke(db, ATTEMPT, "operator", 10);
            && r.Ok? && r.value.connection == Some(CLOSED)
            && r.value.work == db.work && r.value.attempts == map[ATTEMPT := REVOKING]
  {
    NothingUnfinished(db, RowAt(Active, 10, PLAN, Some(REVISION)), REPLACED, Succeeded, IN_USE);
    hide HasUnfinishedCoordination;
  }

  lemma RevokeCall() returns (steps: seq<Step>)
    ensures var db := Run(steps).db;
            db.connection == Some(CLOSED) && db.work == map[GUIDED := EXPIRED]
  {
    steps := ActivatedRun();
    var row := RowAt(Active, 10, PLAN, Some(REVISION));
    hide Quiet, Midway, Run, BeginRevoke;
    steps := GoStart(steps, StartLogin(5, Caller(10)), row, REPLACED, Succeeded, IN_USE, None, LoginRead(Active));
    ContextsOf(steps, row, REPLACED, Succeeded, IN_USE, None, 5, LoginRead(Active));
    steps := GoAnswer(steps, AnswerLogin(5, false), row, REPLACED, Succeeded, IN_USE, None, 5, LoginRead(Active), LOGGED_IN, None);
    IdleContexts(steps, row, REPLACED, Succeeded, IN_USE, LOGGED_IN);
    steps := GoStart(steps, StartRevoke(6, Caller(10), true), row, REPLACED, Succeeded, IN_USE, LOGGED_IN, RevokeObserved);
    steps := RevocationCommits(steps);
  }

  lemma RevocationCommits(steps: seq<Step>) returns (longer: seq<Step>)
    requires Midway(steps, RowAt(Active, 10, PLAN, Some(REVISION)), REPLACED, Succeeded, IN_USE, LOGGED_IN, 6, RevokeObserved)
    ensures var db := Run(longer).db;
            db.connection == Some(CLOSED) && db.work == map[GUIDED := EXPIRED]
  {
    var s := Run(steps);
    RevokeRows(s.db);
    assert s.calls[6] == Call(0, ATTEMPT, "operator", 10, RevokeObserved);
    longer := Go(steps, RequestRevocation(6));
    hide Run, BeginRevoke, Effect;
    assert Run(longer) == ApplyBeginRevoke(s, 6);
  }

  // ----- the mutation is taken up again

  lemma ReopenEffect(s: State)
    requires s.db.work == map[GUIDED := EXPIRED]
    ensures Effect(s, ReopenWork(GUIDED)).db
            == s.db.(work := map[GUIDED := Work(Some(ENVIRONMENT), Some(NeedsReconciliation), false, false)])
  {
    hide Admit, WorkProgress;
  }

  // After the first activation an expired operation of the environment's time can run again,
  // so unfinished mutations are not always admitted under the current selection.
  lemma ReopenedUnderReplacedSelection()
    ensures exists steps: seq<Step> :: !UnderCurrentSelection(Run(steps).db)
  {
    var steps := ActivatedRun();
    hide Run, Idle, Effect;
    var longer := Go(steps, ReopenWork(GUIDED));
    ReopenEffect(Run(steps));
    var db := Run(longer).db;
    assert GUIDED in db.work && db.work[GUIDED].Unfinished() && db.work[GUIDED].admitted == Some(ENVIRONMENT);
  }

  // Nor is a closed connection always quiet.
  lemma ReopenedWhileClosed()
    ensures exists steps: seq<Step> :: !QuietWhenClosed(Run(steps).db)
  {
    var steps := RevokeCall();
    hide Run, Effect;
    var longer := Go(steps, ReopenWork(GUIDED));
    ReopenEffect(Run(steps));
    var db := Run(longer).db;
    assert GUIDED in db.work && db.work[GUIDED].Unfinished() && db.work[GUIDED].admitted == Some(ENVIRONMENT);
  }
}
