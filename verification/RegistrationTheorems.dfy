/**
 The promises of credential registration, over every run.
 */
module RegistrationTheorems {
  import opened Wrappers
  import opened Operations
  import opened RegistrationRows
  import opened RegistrationInvariant
  import opened RegistrationProtocol
  import opened RegistrationSafety

  // Each attempt sends at most one POST and at most one DELETE for its token, each after
  // its durable marker, and an imported token is never touched.
  lemma TokenRequestsAtMostOnce(steps: seq<Step>, k: TokenRequest, a: AttemptId)
    ensures var s := Run(steps);
            && Once(s.log, Requested(k, a))
            && Preceded(s.log, k, a)
            && (Requested(k, a) in s.log ==> a in s.db.attempts && s.db.attempts[a].intent.mode == Issue)
  {
    RunKeeps(steps);
    var s := Run(steps);
    hide Run, RowsFit;
    assert RequestFits(s, k, a);
    if Requested(k, a) in s.log { RequestedWasMarked(s.log, k, a); }
  }

  // At most one credential is in use, and it is the one the connection names. The ciphertext
  // is gone exactly when the credential is withdrawn. An open managed connection names a
  // credential that is in use.
  lemma CredentialsStayCoherent(steps: seq<Step>, r: RevisionId)
    ensures var db := Run(steps).db;
            && (r in db.credentials && db.credentials[r].state == InUse ==>
                  db.connection.Some? && db.connection.value.activeRevision == Some(r))
            && (r in db.credentials ==> (db.credentials[r].ciphertext.None? <==> db.credentials[r].state == Withdrawn))
            && (db.connection.Some? && db.connection.value.source == Managed && db.connection.value.admission == Open ==>
                  var named := db.connection.value.activeRevision;
                  named.Some? && named.value in db.credentials && db.credentials[named.value].state == InUse)
  {
    RunKeeps(steps);
    var s := Run(steps);
    hide Run;
    assert CredentialCoherent(s.db, r);
  }

  // The operation of an attempt tells its phase: its status is a function of the phase, of whether
  // the attempt was ever activated, and of the phase in which a revocation was asked for. Three
  // named phases are never reached.
  lemma OperationFollowsPhase(steps: seq<Step>, a: AttemptId)
    requires a in Run(steps).db.attempts
    ensures var s := Run(steps);
            var phase := s.db.attempts[a].phase;
            && RegistrationOp(a) in s.db.operations
            && !NeverWritten(phase)
            && a in s.history
            && (s.history[a].activated <==> Activated(a) in s.log)
            && s.db.operations[RegistrationOp(a)] == StatusOf(phase, s.history[a])
            && (phase != RevocationPending ==>
                  s.db.operations[RegistrationOp(a)] == StatusOf(phase, History(Activated(a) in s.log, None)))
            && (phase == RevocationPending ==>
                  (s.db.operations[RegistrationOp(a)] == Succeeded <==> Activated(a) in s.log))
            && (RevocationOp(a) in s.db.operations <==> Revoking(phase))
  {
    RunKeeps(steps);
    var s := Run(steps);
    hide Run;
    assert AttemptFits(s.db, s.history, a) && ActivationFits(s, a);
  }

  // Asking for a revocation leaves the status of the registration as it was.
  lemma RevocationKeepsStatus(db: Db, a: AttemptId, actor: ActorId, version: nat)
    requires BeginRevoke(db, a, actor, version).Ok?
    ensures var db' := BeginRevoke(db, a, actor, version).value;
            RegistrationOp(a) in db.operations ==>
              RegistrationOp(a) in db'.operations && db'.operations[RegistrationOp(a)] == db.operations[RegistrationOp(a)]
  {
  }

  // At most one attempt is unresolved, the connection counts its activations, and the
  // unresolved attempt was prepared against the current version of the connection.
  lemma OneAttemptAtATime(steps: seq<Step>, a: AttemptId, b: AttemptId)
    requires var db := Run(steps).db;
             a in db.attempts && b in db.attempts && !db.attempts[a].resolved && !db.attempts[b].resolved
    ensures var s := Run(steps);
            && a == b
            && s.db.connection.Some?
            && s.db.connection.value.version == 1 + Activations(s.log)
            && s.db.attempts[a].expectedVersion == s.db.connection.value.version
  {
    RunKeeps(steps);
    var s := Run(steps);
    hide Run;
    assert AttemptFits(s.db, s.history, a) && PairFits(s.db, a, b);
  }

  // So activation is refused for a changed version or phase only when the phase is wrong.
  lemma VersionNeverBlocksActivation(steps: seq<Step>, a: AttemptId, actor: ActorId, version: nat, decrypts: bool, pin: Option<Selection>)
    requires a in Run(steps).db.attempts
    ensures Activate(Run(steps).db, a, actor, version, decrypts, pin) == Err(ActivationConflict) ==>
              Run(steps).db.attempts[a].phase != Verified
  {
    RunKeeps(steps);
    var s := Run(steps);
    hide Run;
    assert AttemptFits(s.db, s.history, a);
  }

  // No connection is replaced while a revocation still waits for its outcome.
  lemma ActivationWaitsForRevocation(steps: seq<Step>, a: AttemptId, b: AttemptId, actor: ActorId, version: nat,
                                     decrypts: bool, pin: Option<Selection>)
    requires b in Run(steps).db.attempts && Run(steps).db.attempts[b].phase == RevocationPending
    ensures Activate(Run(steps).db, a, actor, version, decrypts, pin).Err?
  {
    RunKeeps(steps);
    var s := Run(steps);
    hide Run;
    assert AttemptFits(s.db, s.history, b);
    assert RevocationOp(b) in s.db.operations && !Terminal(s.db.operations[RevocationOp(b)]);
    assert UnfinishedCoordination(s.db, RegistrationOp(a));
  }

  // ----- replayed preparation

  // The identity of the installation is fixed by the first preparation.
  predicate SameIdentity(db: Db, db': Db) {
    db.connection.Some? ==>
      && db'.connection.Some?
      && db'.connection.value.installation == db.connection.value.installation
      && db'.connection.value.cluster == db.connection.value.cluster
  }

  ghost predicate Successor(db: Db, db': Db) {
    Evolves(db, db') && SameIdentity(db, db')
  }

  lemma SuccessorReflexive(db: Db)
    ensures Successor(db, db)
  {
  }

  // Steps that commit through a call.
  predicate IsCommit(step: Step) {
    step.AdvancePhase? || step.StoreSecret? || step.ActivateAttempt? || step.RequestRevocation? || step.CompleteRevocation?
  }

  predicate IsWork(step: Step) {
    step.CreateWork? || step.AdmitWork? || step.ProgressWork? || step.ReopenWork?
  }

  predicate IsQuiet(step: Step) {
    !IsCommit(step) && !IsWork(step) && !step.PrepareAttempt? && !step.SendRequest?
  }

  lemma QuietEffect(s: State, step: Step)
    requires IsQuiet(step)
    ensures var s' := Apply(s, step);
            && s'.db == s.db && s'.log == s.log
            && (forall p :: p in s.pins ==> p in s'.pins && s'.pins[p] == s.pins[p])
  {
    hide StartPoint, CanStart, AnswerContexts, AnswerPoint, Awaits, ApplyPrepare, ApplyAdvance, ApplySend, ApplyStore, ApplyActivate,
         ApplyBeginRevoke, ApplyFinishRevoke, ApplyWork;
  }

  // What a plain commit leaves alone.
  ghost predicate PlainCommit(s: State, s': State) {
    && Evolves(s.db, s'.db) && s'.db.connection == s.db.connection && s'.db.work == s.db.work && s'.pins == s.pins
    && (forall p, w, selection :: Admitted(p, w, selection) in s'.log ==> Admitted(p, w, selection) in s.log)
  }

  lemma PlainReflexive(s: State, s': State)
    requires s'.db == s.db && s'.pins == s.pins && s'.log == s.log
    ensures PlainCommit(s, s')
  {
  }

  lemma AdvanceIsPlain(s: State, c: CallId)
    requires CallFits(s, c)
    ensures PlainCommit(s, ApplyAdvance(s, c))
  {
    if c in s.calls && Asked(s.calls[c].at).Some? {
      var call := s.calls[c];
      var ask := Asked(call.at).value;
      if Advance(s.db, call.attempt, call.actor, call.version, {ask.seen}, ask.move).Ok? {
        AdvanceEvolves(s.db, call.attempt, call.actor, call.version, ask.seen, ask.move);
        AdvanceLeavesWork(s.db, call.attempt, call.actor, call.version, {ask.seen}, ask.move);
        hide Advance, Evolves;
      } else {
        PlainReflexive(s, ApplyAdvance(s, c));
      }
    } else {
      PlainReflexive(s, s);
    }
  }

  lemma AdvanceLeavesWork(db: Db, a: AttemptId, actor: ActorId, version: nat, expected: set<Phase>, move: Move)
    requires Advance(db, a, actor, version, expected, move).Ok?
    ensures Advance(db, a, actor, version, expected, move).value.work == db.work
  {
  }

  lemma StoreIsPlain(s: State, c: CallId, ciphertext: string, tokenId: string, keyAvailable: bool, newRevision: RevisionId)
    ensures PlainCommit(s, ApplyStore(s, c, ciphertext, tokenId, keyAvailable, newRevision))
  {
    if Standing(s, c, IssueSent) || Standing(s, c, ImportMarked) {
      var call := s.calls[c];
      var r := StageSecret(s.db, call.attempt, call.actor, call.version, ciphertext, tokenId, keyAvailable, newRevision);
      if r.Ok? {
        StageEvolves(s.db, call.attempt, call.actor, call.version, ciphertext, tokenId, keyAvailable, newRevision);
        assert r.value.work == s.db.work;
        hide StageSecret, Evolves;
      } else {
        hide StageSecret;
        PlainReflexive(s, ApplyStore(s, c, ciphertext, tokenId, keyAvailable, newRevision));
      }
    } else {
      PlainReflexive(s, s);
    }
  }

  lemma FinishIsPlain(s: State, c: CallId)
    ensures PlainCommit(s, ApplyFinishRevoke(s, c))
  {
    if Standing(s, c, AbsenceObserved) {
      var call := s.calls[c];
      var r := FinishRevoke(s.db, call.attempt, call.actor, call.version);
      if r.Ok? {
        FinishRevokeEvolves(s.db, call.attempt, call.actor, call.version);
        assert r.value.work == s.db.work;
        hide FinishRevoke, Evolves;
      } else {
        PlainReflexive(s, ApplyFinishRevoke(s, c));
      }
    } else {
      PlainReflexive(s, s);
    }
  }

  lemma ActivateStepEvolves(s: State, c: CallId, decrypts: bool)
    ensures Successor(s.db, ApplyActivate(s, c, decrypts).db)
  {
    SuccessorReflexive(s.db);
    if Standing(s, c, ReadyToActivate) {
      var call := s.calls[c];
      var pin := PinOf(s, call.process);
      var r := Activate(s.db, call.attempt, call.actor, call.version, decrypts, pin);
      if r.Ok? {
        ActivateEvolves(s.db, call.attempt, call.actor, call.version, decrypts, pin);
        assert SameIdentity(s.db, r.value);
        hide Activate, Evolves;
      } else {
        hide Activate, Evolves;
      }
    }
  }

  lemma BeginRevokeStepEvolves(s: State, c: CallId)
    ensures Successor(s.db, ApplyBeginRevoke(s, c).db)
  {
    SuccessorReflexive(s.db);
    if Standing(s, c, RevokeObserved) {
      var call := s.calls[c];
      var r := BeginRevoke(s.db, call.attempt, call.actor, call.version);
      if r.Ok? {
        BeginRevokeEvolves(s.db, call.attempt, call.actor, call.version);
        assert SameIdentity(s.db, r.value);
        hide BeginRevoke, Evolves;
      } else {
        hide BeginRevoke, Evolves;
      }
    }
  }

  lemma CommitCallFits(s: State, step: Step)
    requires Inv(s) && IsCommit(step)
    ensures CallFits(s, step.call)
  {
    hide RowsFit;
  }

  lemma CommitEvolves(s: State, step: Step)
    requires Inv(s) && IsCommit(step)
    ensures Successor(s.db, Apply(s, step).db)
  {
    hide Inv, Evolves, ApplyPrepare, ApplyStart, ApplyAnswer, ApplyAdvance, ApplySend, ApplyStore, ApplyActivate, ApplyBeginRevoke,
         ApplyFinishRevoke, ApplyWork, Pinned;
    CommitCallFits(s, step);
    match step
    case AdvancePhase(c) => AdvanceIsPlain(s, c);
    case StoreSecret(c, ciphertext, tokenId, keyAvailable, newRevision) => StoreIsPlain(s, c, ciphertext, tokenId, keyAvailable, newRevision);
    case ActivateAttempt(c, decrypts) => ActivateStepEvolves(s, c, decrypts);
    case RequestRevocation(c) => BeginRevokeStepEvolves(s, c);
    case CompleteRevocation(c) => FinishIsPlain(s, c);
  }

  // Sending a request and handling work items leave the other rows alone.
  lemma SideEffect(s: State, step: Step)
    requires IsWork(step) || step.SendRequest?
    ensures Apply(s, step).db.(work := s.db.work) == s.db
    ensures step.SendRequest? ==>
      && Apply(s, step).db == s.db && Apply(s, step).pins == s.pins
      && forall p, w, selection :: Admitted(p, w, selection) in Apply(s, step).log ==> Admitted(p, w, selection) in s.log
  {
    hide Admit, CanReopen, WorkProgress, ApplyPrepare, ApplyStart, ApplyAnswer, ApplyAdvance, ApplyStore, ApplyActivate,
         ApplyBeginRevoke, ApplyFinishRevoke;
    if step.SendRequest? { hide ApplyWork, Pinned; } else { hide ApplySend, At; }
  }

  lemma WorkEvolves(db: Db, db': Db)
    requires db'.(work := db.work) == db
    ensures Successor(db, db')
  {
    SuccessorReflexive(db);
  }

  lemma StepEvolves(s: State, step: Step)
    requires Inv(s)
    ensures Successor(s.db, Apply(s, step).db)
  {
    hide Inv, Evolves, Successor;
    if IsCommit(step) {
      hide Apply;
      CommitEvolves(s, step);
    } else if step.PrepareAttempt? {
      hide ApplyPrepare;
      PrepareStepEvolves(s, step.request, step.keyAvailable, step.newId);
    } else if IsQuiet(step) {
      hide Apply;
      QuietEffect(s, step);
      SuccessorReflexive(s.db);
    } else {
      hide Apply;
      SideEffect(s, step);
      WorkEvolves(s.db, Apply(s, step).db);
    }
  }

  lemma PrepareStepEvolves(s: State, request: Request, keyAvailable: bool, newId: AttemptId)
    ensures Successor(s.db, ApplyPrepare(s, request, keyAvailable, newId).db)
  {
    SuccessorReflexive(s.db);
    if Prepare(s.db, request, keyAvailable, newId).Ok? {
      PrepareEvolves(s.db, request, keyAvailable, newId);
      assert SameIdentity(s.db, Prepare(s.db, request, keyAvailable, newId).value.db);
    }
    hide Prepare, Evolves;
  }

  lemma SuccessorTransitive(db: Db, mid: Db, db': Db)
    requires Successor(db, mid) && Successor(mid, db')
    ensures Successor(db, db')
  {
    forall a ensures AttemptEvolves(db, db', a) { assert AttemptEvolves(db, mid, a) && AttemptEvolves(mid, db', a); }
    forall r ensures CredentialEvolves(db, db', r) { assert CredentialEvolves(db, mid, r) && CredentialEvolves(mid, db', r); }
  }

  lemma {:induction false} RunEvolves(steps: seq<Step>, rest: seq<Step>)
    ensures Successor(Run(steps).db, Run(steps + rest).db)
    decreases |rest|
  {
    if rest == [] {
      assert steps + rest == steps;
      SuccessorReflexive(Run(steps).db);
    } else {
      var n := |rest| - 1;
      assert (steps + rest)[..|steps + rest| - 1] == steps + rest[..n];
      RunEvolves(steps, rest[..n]);
      RunKeeps(steps + rest[..n]);
      StepEvolves(Run(steps + rest[..n]), rest[n]);
      SuccessorTransitive(Run(steps).db, Run(steps + rest[..n]).db, Run(steps + rest).db);
    }
  }

  // Preparing again with the same key, intent and actor finds the same attempt, in every later
  // state, and changes nothing.
  lemma ReplayedPrepare(steps: seq<Step>, rest: seq<Step>, request: Request, newId: AttemptId, otherId: AttemptId)
    requires Prepare(Run(steps).db, request, true, newId).Ok?
    ensures var a := Prepare(Run(steps).db, request, true, newId).value.attempt;
            var later := Run(steps + [PrepareAttempt(request, true, newId)] + rest).db;
            Prepare(later, request, true, otherId) == Ok(Registered(later, a))
  {
    var first := Run(steps);
    var r := Prepare(first.db, request, true, newId).value;
    var steps' := steps + [PrepareAttempt(request, true, newId)];
    assert steps'[..|steps'| - 1] == steps;
    var second := Run(steps');
    assert second.db == r.db;
    RunKeeps(steps);
    PreparedRow(first.db, first.history, request, newId);
    RunEvolves(steps', rest);
    RunKeeps(steps' + rest);
    var later := Run(steps' + rest);
    hide Run, Apply;
    assert AttemptEvolves(second.db, later.db, r.attempt);
    FoundAgain(later.db, later.history, request, r.attempt, otherId);
  }

  lemma PreparedRow(db: Db, h: Histories, request: Request, newId: AttemptId)
    requires RowsFit(db, h) && Prepare(db, request, true, newId).Ok?
    ensures var r := Prepare(db, request, true, newId).value;
            && r.attempt in r.db.attempts && r.db.attempts[r.attempt].key == request.key
            && r.db.attempts[r.attempt].intent == request.intent && r.db.attempts[r.attempt].actor == request.actor
            && r.db.connection.Some?
            && r.db.connection.value.installation == request.installation
            && r.db.connection.value.cluster == request.cluster
            && 8 <= request.keyLength <= 160 && request.admin && request.actor != ""
  {
    var r := Prepare(db, request, true, newId).value;
    assert AttemptFits(db, h, r.attempt);
  }

  lemma FoundAgain(db: Db, h: Histories, request: Request, a: AttemptId, otherId: AttemptId)
    requires RowsFit(db, h) && a in db.attempts && db.attempts[a].key == request.key
    requires db.attempts[a].intent == request.intent && db.attempts[a].actor == request.actor
    requires 8 <= request.keyLength <= 160 && request.admin && request.actor != ""
    requires db.connection.Some? ==> db.connection.value.installation == request.installation && db.connection.value.cluster == request.cluster
    ensures Prepare(db, request, true, otherId) == Ok(Registered(db, a))
  {
    assert AttemptFits(db, h, a);
    forall b | b in SameKey(db, request.key) ensures b == a { assert PairFits(db, a, b); }
    assert a in SameKey(db, request.key);
  }

  // ----- the status of a registration under revocation

  // A step that leaves an attempt waiting for its revocation leaves its status alone, and no step
  // takes up a revocation that has ended.
  predicate StatusHeld(db: Db, db': Db, a: AttemptId) {
    a in db.attempts && a in db'.attempts && db'.attempts[a].phase == RevocationPending && RegistrationOp(a) in db.operations ==>
      && db.attempts[a].phase != Revoked
      && RegistrationOp(a) in db'.operations
      && db'.operations[RegistrationOp(a)] == db.operations[RegistrationOp(a)]
  }

  lemma MoveHolds(db: Db, b: AttemptId, move: Move, a: AttemptId)
    requires b in db.attempts && MoveRow(db, b, move).Ok? && move.phase != RevocationPending
    ensures StatusHeld(db, MoveRow(db, b, move).value, a)
  {
  }

  lemma AdvanceHolds(s: State, c: CallId, a: AttemptId)
    ensures StatusHeld(s.db, ApplyAdvance(s, c).db, a)
  {
    if c in s.calls && Asked(s.calls[c].at).Some? {
      var call := s.calls[c];
      var ask := Asked(call.at).value;
      if Advance(s.db, call.attempt, call.actor, call.version, {ask.seen}, ask.move).Ok? {
        MoveHolds(s.db, call.attempt, ask.move, a);
        hide StatusHeld, MoveRow;
      }
    }
  }

  lemma StageHolds(db: Db, b: AttemptId, actor: ActorId, version: nat,
                   ciphertext: string, tokenId: string, keyAvailable: bool, newId: RevisionId, a: AttemptId)
    requires StageSecret(db, b, actor, version, ciphertext, tokenId, keyAvailable, newId).Ok?
    ensures StatusHeld(db, StageSecret(db, b, actor, version, ciphertext, tokenId, keyAvailable, newId).value, a)
  {
    hide TokenIdMatches;
  }

  lemma StoreHolds(s: State, c: CallId, ciphertext: string, tokenId: string, keyAvailable: bool, newRevision: RevisionId, a: AttemptId)
    ensures StatusHeld(s.db, ApplyStore(s, c, ciphertext, tokenId, keyAvailable, newRevision).db, a)
  {
    hide StageSecret;
    if Standing(s, c, IssueSent) || Standing(s, c, ImportMarked) {
      var call := s.calls[c];
      if StageSecret(s.db, call.attempt, call.actor, call.version, ciphertext, tokenId, keyAvailable, newRevision).Ok? {
        StageHolds(s.db, call.attempt, call.actor, call.version, ciphertext, tokenId, keyAvailable, newRevision, a);
        hide StatusHeld;
      }
    }
  }

  lemma ActivateHolds(s: State, c: CallId, decrypts: bool, a: AttemptId)
    ensures StatusHeld(s.db, ApplyActivate(s, c, decrypts).db, a)
  {
    hide HasUnfinishedCoordination, HandedOver;
  }

  lemma BeginRevokeHolds(s: State, c: CallId, a: AttemptId)
    ensures StatusHeld(s.db, ApplyBeginRevoke(s, c).db, a)
  {
    hide HasUnfinishedCoordination;
  }

  lemma {:induction false} AppendedLeavesOthers(operations: map<OperationId, Status>, op: OperationId, rest: seq<Status>, other: OperationId)
    requires other != op && other in operations && AppendedAll(operations, op, rest).Ok?
    ensures var all := AppendedAll(operations, op, rest).value; other in all && all[other] == operations[other]
  {
    if rest != [] {
      AppendedLeavesOthers(Appended(operations, op, Some(rest[0])).value, op, rest[1..], other);
    }
  }

  lemma FinishRevokeHolds(s: State, c: CallId, a: AttemptId)
    ensures StatusHeld(s.db, ApplyFinishRevoke(s, c).db, a)
  {
    hide AppendedAll;
    if Standing(s, c, AbsenceObserved) {
      var call := s.calls[c];
      var b := call.attempt;
      if FinishRevoke(s.db, b, call.actor, call.version).Ok? && RegistrationOp(a) in s.db.operations && a != b {
        AppendedLeavesOthers(s.db.operations, RevocationOp(b), REVOCATION_STATUSES, RegistrationOp(a));
      }
    }
  }

  lemma PrepareHolds(s: State, request: Request, keyAvailable: bool, newId: AttemptId, a: AttemptId)
    ensures StatusHeld(s.db, ApplyPrepare(s, request, keyAvailable, newId).db, a)
  {
  }

  lemma CommitHolds(s: State, step: Step, a: AttemptId)
    requires IsCommit(step)
    ensures StatusHeld(s.db, Apply(s, step).db, a)
  {
    hide StatusHeld, ApplyPrepare, ApplyStart, ApplyAnswer, ApplyAdvance, ApplySend, ApplyStore, ApplyActivate, ApplyBeginRevoke,
         ApplyFinishRevoke, ApplyWork, Pinned;
    match step
    case AdvancePhase(c) => AdvanceHolds(s, c, a);
    case StoreSecret(c, ciphertext, tokenId, keyAvailable, newRevision) =>
      StoreHolds(s, c, ciphertext, tokenId, keyAvailable, newRevision, a);
    case ActivateAttempt(c, decrypts) => ActivateHolds(s, c, decrypts, a);
    case RequestRevocation(c) => BeginRevokeHolds(s, c, a);
    case CompleteRevocation(c) => FinishRevokeHolds(s, c, a);
  }

  lemma SameHolds(db: Db, db': Db, a: AttemptId)
    requires db'.(work := db.work) == db
    ensures StatusHeld(db, db', a)
  {
  }

  lemma StepHolds(s: State, step: Step, a: AttemptId)
    ensures StatusHeld(s.db, Apply(s, step).db, a)
  {
    hide StatusHeld;
    if IsCommit(step) {
      hide Apply;
      CommitHolds(s, step, a);
    } else if step.PrepareAttempt? {
      hide ApplyPrepare;
      PrepareHolds(s, step.request, step.keyAvailable, step.newId, a);
    } else if IsQuiet(step) {
      hide Apply;
      QuietEffect(s, step);
      SameHolds(s.db, Apply(s, step).db, a);
    } else {
      hide Apply;
      SideEffect(s, step);
      SameHolds(s.db, Apply(s, step).db, a);
    }
  }

  lemma HeldOn(db: Db, mid: Db, db': Db, a: AttemptId)
    requires StatusHeld(mid, db', a) && a in db'.attempts && db'.attempts[a].phase == RevocationPending
    requires a in mid.attempts && Revoking(mid.attempts[a].phase) && RegistrationOp(a) in mid.operations
    ensures mid.attempts[a].phase == RevocationPending
    ensures RegistrationOp(a) in db'.operations && db'.operations[RegistrationOp(a)] == mid.operations[RegistrationOp(a)]
  {
  }

  lemma StaysRevoking(steps: seq<Step>, rest: seq<Step>, a: AttemptId)
    requires a in Run(steps).db.attempts && Revoking(Run(steps).db.attempts[a].phase)
    ensures a in Run(steps + rest).db.attempts && Revoking(Run(steps + rest).db.attempts[a].phase)
  {
    RunEvolves(steps, rest);
    hide Run;
    assert AttemptEvolves(Run(steps).db, Run(steps + rest).db, a);
  }

  lemma {:induction false} StatusWaits(steps: seq<Step>, rest: seq<Step>, a: AttemptId)
    requires a in Run(steps).db.attempts && Revoking(Run(steps).db.attempts[a].phase)
    requires a in Run(steps + rest).db.attempts && Run(steps + rest).db.attempts[a].phase == RevocationPending
    ensures RegistrationOp(a) in Run(steps).db.operations && RegistrationOp(a) in Run(steps + rest).db.operations
    ensures Run(steps + rest).db.operations[RegistrationOp(a)] == Run(steps).db.operations[RegistrationOp(a)]
    decreases |rest|
  {
    hide Apply, StatusHeld, StatusOf;
    OperationFollowsPhase(steps, a);
    if rest == [] {
      assert steps + rest == steps;
    } else {
      var n := |rest| - 1;
      assert (steps + rest)[..|steps + rest| - 1] == steps + rest[..n];
      var before := Run(steps + rest[..n]);
      StepHolds(before, rest[n], a);
      StaysRevoking(steps, rest[..n], a);
      OperationFollowsPhase(steps + rest[..n], a);
      HeldOn(before.db, before.db, Run(steps + rest).db, a);
      StatusWaits(steps, rest[..n], a);
    }
  }

  // From the marker of a revocation until its outcome the registration keeps the status that
  // belongs to the phase in which the revocation was asked for.
  lemma StatusHeldFromMarker(steps: seq<Step>, marker: Step, rest: seq<Step>, a: AttemptId)
    requires a in Run(steps).db.attempts && Run(steps).db.attempts[a].phase != RevocationPending
    requires a in Run(steps + [marker]).db.attempts && Run(steps + [marker]).db.attempts[a].phase == RevocationPending
    requires a in Run(steps + [marker] + rest).db.attempts && Run(steps + [marker] + rest).db.attempts[a].phase == RevocationPending
    ensures var asked := Run(steps).db.attempts[a].phase;
            && !Revoking(asked)
            && RegistrationOp(a) in Run(steps + [marker] + rest).db.operations
            && Run(steps + [marker] + rest).db.operations[RegistrationOp(a)] == LiveStatus(asked)
  {
    hide Apply;
    assert (steps + [marker])[..|steps|] == steps;
    var before, after := Run(steps), Run(steps + [marker]);
    assert after == Apply(before, marker);
    StepHolds(before, marker, a);
    OperationFollowsPhase(steps, a);
    StatusWaits(steps + [marker], rest, a);
    hide Run;
  }

  // ----- admission of mutations

  // One process never admits under two different selections.
  lemma OneSelectionPerProcess(steps: seq<Step>, p: ProcessId, w: WorkId, v: WorkId, first: Selection, second: Selection)
    requires Admitted(p, w, first) in Run(steps).log && Admitted(p, v, second) in Run(steps).log
    ensures first == second
  {
    RunKeeps(steps);
    assert PinFits(Run(steps), p);
  }

  // Every unfinished mutation was admitted under the selection of the connection.
  ghost predicate UnderCurrentSelection(db: Db) {
    forall w :: w in db.work && db.work[w].Unfinished() && db.work[w].admitted.Some? ==>
      db.work[w].admitted.value == SelectionOf(db.connection)
  }

  // A closed connection has no unfinished mutation.
  ghost predicate QuietWhenClosed(db: Db) {
    db.connection.Some? && db.connection.value.admission == Closed ==>
      forall w :: w in db.work && db.work[w].admitted.Some? ==> !db.work[w].Unfinished()
  }

  // The step takes up a mutation that was admitted under another selection.
  predicate StaleReopen(s: State, step: Step) {
    && step.ReopenWork? && CanReopen(s.db, step.work)
    && s.db.work[step.work].admitted.Some?
    && s.db.work[step.work].admitted.value != SelectionOf(s.db.connection)
  }

  // The step takes up a mutation while the connection is closed.
  predicate ClosedReopen(s: State, step: Step) {
    && step.ReopenWork? && CanReopen(s.db, step.work)
    && s.db.work[step.work].admitted.Some?
    && s.db.connection.Some? && s.db.connection.value.admission == Closed
  }

  lemma PrepareLeavesWork(s: State, request: Request, keyAvailable: bool, newId: AttemptId)
    ensures var db, db' := s.db, ApplyPrepare(s, request, keyAvailable, newId).db;
            && db'.work == db.work
            && (db'.connection == db.connection
                || (db.connection.None? && db'.connection.Some? && db'.connection.value.admission == Open
                    && SelectionOf(db'.connection) == SelectionOf(None)))
  {
  }

  // A step other than one on work items either leaves every work item and the selection as
  // they are or finds no unfinished work.
  lemma SelectionEffect(s: State, step: Step)
    requires Inv(s) && !IsWork(step)
    ensures var db, db' := s.db, Apply(s, step).db;
            && db'.work == db.work
            && (UnfinishedWork(db) == {}
                || (SelectionOf(db'.connection) == SelectionOf(db.connection)
                    && (db'.connection.Some? && db'.connection.value.admission == Closed ==>
                          db.connection.Some? && db.connection.value.admission == Closed)))
  {
    hide Inv, Evolves;
    if step.ActivateAttempt? || step.RequestRevocation? {
      hide Apply;
      SwitchingStep(s, step);
    } else if IsCommit(step) {
      hide Apply;
      PlainStep(s, step);
    } else if step.PrepareAttempt? {
      hide ApplyPrepare;
      PrepareLeavesWork(s, step.request, step.keyAvailable, step.newId);
    } else if IsQuiet(step) {
      hide Apply;
      QuietEffect(s, step);
    } else {
      hide Apply;
      SideEffect(s, step);
    }
  }

  lemma PlainStep(s: State, step: Step)
    requires Inv(s) && IsCommit(step) && !step.ActivateAttempt? && !step.RequestRevocation?
    ensures PlainCommit(s, Apply(s, step))
  {
    hide Inv, Evolves, ApplyPrepare, ApplyStart, ApplyAnswer, ApplyAdvance, ApplySend, ApplyStore, ApplyActivate, ApplyBeginRevoke,
         ApplyFinishRevoke, ApplyWork, Pinned;
    CommitCallFits(s, step);
    hide PlainCommit;
    match step
    case AdvancePhase(c) => AdvanceIsPlain(s, c);
    case StoreSecret(c, ciphertext, tokenId, keyAvailable, newRevision) => StoreIsPlain(s, c, ciphertext, tokenId, keyAvailable, newRevision);
    case CompleteRevocation(c) => FinishIsPlain(s, c);
  }

  lemma SwitchingStep(s: State, step: Step)
    requires step.ActivateAttempt? || step.RequestRevocation?
    ensures var db, db' := s.db, Apply(s, step).db;
            && db'.work == db.work
            && (UnfinishedWork(db) == {} || db'.connection == db.connection)
  {
    if step.call in s.calls {
      var call := s.calls[step.call];
      if step.ActivateAttempt? {
        if Activate(s.db, call.attempt, call.actor, call.version, step.decrypts, PinOf(s, call.process)).Ok? {
          ActivateSwitches(s.db, call.attempt, call.actor, call.version, step.decrypts, PinOf(s, call.process));
        }
        hide Activate;
      } else if BeginRevoke(s.db, call.attempt, call.actor, call.version).Ok? {
        RevocationCloses(s.db, call.attempt, call.actor, call.version);
        hide BeginRevoke;
      }
    }
  }

  lemma RevocationCloses(db: Db, a: AttemptId, actor: ActorId, version: nat)
    requires BeginRevoke(db, a, actor, version).Ok?
    ensures var db' := BeginRevoke(db, a, actor, version).value;
            && db'.work == db.work
            && (UnfinishedWork(db) == {} || db'.connection == db.connection)
  {
    assert forall w :: w in UnfinishedWork(db) ==> db.work[w].Unfinished();
  }

  // What a step on work items may change: the one item it names, which is then as it was,
  // never admitted, admitted under the current open selection, or taken up as it was admitted.
  ghost predicate WorkChange(db: Db, db': Db, step: Step)
    requires IsWork(step)
  {
    && db'.connection == db.connection
    && (forall w :: w in db'.work && w != step.work ==> w in db.work && db'.work[w] == db.work[w])
    && (forall w :: w in db.work ==> w in db'.work)
    && (step.work in db'.work ==>
          var now := db'.work[step.work];
          || (step.work in db.work && now == db.work[step.work])
          || now.admitted.None?
          || (now.admitted == Some(SelectionOf(db.connection))
              && (db.connection.Some? ==> db.connection.value.admission == Open))
          || (step.work in db.work && db.work[step.work].Unfinished() && now.admitted == db.work[step.work].admitted)
          || (step.ReopenWork? && CanReopen(db, step.work) && now.admitted == db.work[step.work].admitted && now.Unfinished()))
    && (step.ReopenWork? && CanReopen(db, step.work) ==>
          step.work in db'.work && db'.work[step.work].admitted == db.work[step.work].admitted && db'.work[step.work].Unfinished())
  }

  lemma AdmitEffect(s: State, step: Step)
    requires step.AdmitWork?
    ensures WorkChange(s.db, ApplyWork(s, step).db, step)
  {
    hide CanReopen, WorkProgress, Admit;
    if Admit(s.db, PinOf(s, step.process), step.sameCluster, step.inScope, step.decrypts).Ok? {
      AdmitPinned(s.db, PinOf(s, step.process), step.sameCluster, step.inScope, step.decrypts);
    }
  }

  lemma OwnWorkEffect(s: State, step: Step)
    requires step.CreateWork? || step.ProgressWork? || step.ReopenWork?
    ensures WorkChange(s.db, ApplyWork(s, step).db, step)
  {
    hide Admit;
  }

  lemma WorkEffect(s: State, step: Step)
    requires IsWork(step)
    ensures WorkChange(s.db, Apply(s, step).db, step)
  {
    hide ApplyWork, WorkChange;
    if step.AdmitWork? { AdmitEffect(s, step); } else { OwnWorkEffect(s, step); }
  }

  lemma StepKeepsSelection(s: State, step: Step)
    requires Inv(s) && UnderCurrentSelection(s.db)
    ensures UnderCurrentSelection(Apply(s, step).db) <==> !StaleReopen(s, step)
  {
    hide Inv, Apply;
    if IsWork(step) { WorkEffect(s, step); } else { SelectionEffect(s, step); }
    assert forall w :: w in s.db.work && s.db.work[w].Unfinished() ==> w in UnfinishedWork(s.db);
  }

  lemma StepKeepsQuiet(s: State, step: Step)
    requires Inv(s) && QuietWhenClosed(s.db)
    ensures QuietWhenClosed(Apply(s, step).db) <==> !ClosedReopen(s, step)
  {
    hide Inv, Apply;
    if IsWork(step) { WorkEffect(s, step); } else { SelectionEffect(s, step); }
    assert forall w :: w in s.db.work && s.db.work[w].Unfinished() ==> w in UnfinishedWork(s.db);
  }

  // `good` holds in every state of the run.
  ghost predicate Throughout(good: State -> bool, steps: seq<Step>) {
    forall n :: 0 <= n <= |steps| ==> good(Run(steps[..n]))
  }

  // No step of the run is `bad` where it is taken.
  ghost predicate Without(bad: (State, Step) -> bool, steps: seq<Step>) {
    forall n :: 0 <= n < |steps| ==> !bad(Run(steps[..n]), steps[n])
  }

  lemma RunsExtend(good: State -> bool, bad: (State, Step) -> bool, init: seq<Step>, step: Step)
    ensures Throughout(good, init + [step]) <==> Throughout(good, init) && good(Run(init + [step]))
    ensures Without(bad, init + [step]) <==> Without(bad, init) && !bad(Run(init), step)
    ensures Throughout(good, init) ==> good(Run(init))
  {
    hide Run;
    var steps := init + [step];
    assert steps[..|steps|] == steps && steps[..|init|] == init && steps[|init|] == step && init[..|init|] == init;
    assert forall n :: 0 <= n <= |init| ==> steps[..n] == init[..n];
    assert forall n :: 0 <= n < |init| ==> steps[n] == init[n];
  }

  // What holds at first and is lost by exactly the bad steps holds throughout exactly the
  // runs without a bad step.
  lemma {:induction false} KeptExactlyWithout(good: State -> bool, bad: (State, Step) -> bool, steps: seq<Step>)
    requires good(INIT)
    requires forall s, step :: Inv(s) && good(s) ==> (good(Apply(s, step)) <==> !bad(s, step))
    ensures Throughout(good, steps) <==> Without(bad, steps)
  {
    if steps == [] {
      assert Run(steps[..0]) == INIT;
    } else {
      hide Throughout, Without, Apply, Inv;
      var init, step := steps[..|steps| - 1], steps[|steps| - 1];
      assert steps == init + [step];
      KeptExactlyWithout(good, bad, init);
      RunKeeps(init);
      RunsExtend(good, bad, init, step);
    }
  }

  ghost function Selected(): State -> bool {
    (s: State) => UnderCurrentSelection(s.db)
  }

  ghost function QuietIfClosed(): State -> bool {
    (s: State) => QuietWhenClosed(s.db)
  }

  // Unfinished mutations keep to the current selection throughout exactly the runs in which no
  // step takes up a mutation that was admitted under a replaced selection.
  lemma SelectionExactlyKept(steps: seq<Step>)
    ensures Throughout(Selected(), steps) <==> Without(StaleReopen, steps)
  {
    hide Apply, Inv, Throughout, Without, StaleReopen, UnderCurrentSelection;
    forall s, step | Inv(s) && UnderCurrentSelection(s.db)
      ensures UnderCurrentSelection(Apply(s, step).db) <==> !StaleReopen(s, step)
    {
      StepKeepsSelection(s, step);
    }
    InitiallySelected();
    KeptExactlyWithout(Selected(), StaleReopen, steps);
  }

  // A closed connection has no unfinished mutation throughout exactly the runs in which no step
  // takes up a mutation while the connection is closed.
  lemma QuietExactlyKept(steps: seq<Step>)
    ensures Throughout(QuietIfClosed(), steps) <==> Without(ClosedReopen, steps)
  {
    hide Apply, Inv, Throughout, Without, ClosedReopen, QuietWhenClosed;
    forall s, step | Inv(s) && QuietWhenClosed(s.db)
      ensures QuietWhenClosed(Apply(s, step).db) <==> !ClosedReopen(s, step)
    {
      StepKeepsQuiet(s, step);
    }
    InitiallySelected();
    KeptExactlyWithout(QuietIfClosed(), ClosedReopen, steps);
  }

  lemma InitiallySelected()
    ensures UnderCurrentSelection(INIT.db) && QuietWhenClosed(INIT.db)
  {
  }

  // A connection whose named credential is withdrawn is closed, so it is quiet too.
  lemma WithdrawnConnectionIsClosed(steps: seq<Step>)
    requires var db := Run(steps).db;
             db.connection.Some? && db.connection.value.activeRevision.Some?
             && db.connection.value.activeRevision.value in db.credentials
             && db.credentials[db.connection.value.activeRevision.value].state == Withdrawn
    ensures Run(steps).db.connection.value.admission == Closed
  {
    RunKeeps(steps);
    hide Run;
  }

  // ----- processes that hold a replaced selection

  predicate Stale(s: State, p: ProcessId) {
    p in s.pins && s.pins[p] != SelectionOf(s.db.connection)
  }

  ghost predicate NoAdmission(s: State, s': State, p: ProcessId) {
    forall w, selection :: Admitted(p, w, selection) in s'.log ==> Admitted(p, w, selection) in s.log
  }

  lemma StaleActivation(s: State, c: CallId, decrypts: bool, p: ProcessId)
    requires Inv(s) && Stale(s, p)
    ensures Stale(ApplyActivate(s, c, decrypts), p) && NoAdmission(s, ApplyActivate(s, c, decrypts), p)
  {
    assert PinFits(s, p);
    hide Inv;
    if Standing(s, c, ReadyToActivate) {
      var call := s.calls[c];
      if Activate(s.db, call.attempt, call.actor, call.version, decrypts, PinOf(s, call.process)).Ok? {
        ActivateSwitches(s.db, call.attempt, call.actor, call.version, decrypts, PinOf(s, call.process));
      }
      hide Activate;
    }
  }

  lemma StaleRevocation(s: State, c: CallId, p: ProcessId)
    requires Stale(s, p)
    ensures Stale(ApplyBeginRevoke(s, c), p) && NoAdmission(s, ApplyBeginRevoke(s, c), p)
  {
  }

  lemma StaleWork(s: State, step: Step, p: ProcessId)
    requires IsWork(step) && Stale(s, p)
    ensures Stale(ApplyWork(s, step), p) && NoAdmission(s, ApplyWork(s, step), p)
  {
    if step.AdmitWork? && Admit(s.db, PinOf(s, step.process), step.sameCluster, step.inScope, step.decrypts).Ok? {
      AdmitPinned(s.db, PinOf(s, step.process), step.sameCluster, step.inScope, step.decrypts);
    }
    hide Admit;
  }

  lemma StaleSwitch(s: State, step: Step, p: ProcessId)
    requires Inv(s) && Stale(s, p) && (step.ActivateAttempt? || step.RequestRevocation?)
    ensures Stale(Apply(s, step), p) && NoAdmission(s, Apply(s, step), p)
  {
    hide Inv, ApplyActivate, ApplyBeginRevoke, Stale, NoAdmission;
    if step.ActivateAttempt? {
      StaleActivation(s, step.call, step.decrypts, p);
    } else {
      StaleRevocation(s, step.call, p);
    }
  }

  lemma StalePrepare(s: State, step: Step, p: ProcessId)
    requires step.PrepareAttempt? && Stale(s, p)
    ensures Stale(Apply(s, step), p) && NoAdmission(s, Apply(s, step), p)
  {
    PrepareLeavesWork(s, step.request, step.keyAvailable, step.newId);
  }

  lemma StaleWorkStep(s: State, step: Step, p: ProcessId)
    requires IsWork(step) && Stale(s, p)
    ensures Stale(Apply(s, step), p) && NoAdmission(s, Apply(s, step), p)
  {
    hide ApplyWork, Stale, NoAdmission;
    StaleWork(s, step, p);
  }

  lemma StaleStep(s: State, step: Step, p: ProcessId)
    requires Inv(s) && Stale(s, p)
    ensures Stale(Apply(s, step), p) && NoAdmission(s, Apply(s, step), p)
  {
    hide Inv, Evolves, Apply;
    if step.ActivateAttempt? || step.RequestRevocation? {
      StaleSwitch(s, step, p);
    } else if IsCommit(step) {
      PlainStep(s, step);
    } else if step.PrepareAttempt? {
      StalePrepare(s, step, p);
    } else if IsQuiet(step) {
      QuietEffect(s, step);
    } else if IsWork(step) {
      StaleWorkStep(s, step, p);
    } else {
      SideEffect(s, step);
    }
  }

  // Once the connection was replaced under a running process, that process never admits again.
  lemma {:induction false} StaleProcessNeverAdmits(steps: seq<Step>, rest: seq<Step>, p: ProcessId)
    requires Stale(Run(steps), p)
    ensures Stale(Run(steps + rest), p) && NoAdmission(Run(steps), Run(steps + rest), p)
    decreases |rest|
  {
    hide Apply, Inv, Stale;
    if rest == [] {
      assert steps + rest == steps;
    } else {
      var n := |rest| - 1;
      assert (steps + rest)[..|steps + rest| - 1] == steps + rest[..n];
      StaleProcessNeverAdmits(steps, rest[..n], p);
      RunKeeps(steps + rest[..n]);
      StaleStep(Run(steps + rest[..n]), rest[n], p);
    }
  }
}
