/**
 What every transaction of the registration repository keeps true of the stored rows.

 `History` remembers two facts that the rows forget: whether an attempt was ever
 activated, and the phase in which its revocation was requested.
 */
module RegistrationInvariant {
  import opened Wrappers
  import opened Operations
  import opened RegistrationRows

  datatype History = History(activated: bool, revokedFrom: Option<Phase>)

  type Histories = map<AttemptId, History>

  const FRESH_HISTORY := History(false, None)

  // The operation status that belongs to a phase before any revocation.
  function LiveStatus(p: Phase): Status {
    match p
    case TokenDispatching | ImportStaging => Dispatching
    case SecretStaged | AclApplying => Running
    case TokenVerifying | Verified => Operations.Verifying
    case Active => Succeeded
    case PhaseCancelled => Cancelled
    case _ => Planned
  }

  // The operation status as a function of the phase and the history alone.
  function StatusOf(p: Phase, h: History): Status {
    match p
    case RevocationPending => if h.revokedFrom.Some? then LiveStatus(h.revokedFrom.value) else Planned
    case Revoked => if h.activated then Succeeded else Failed
    case _ => LiveStatus(p)
  }

  // Phases that the code names but never writes.
  predicate NeverWritten(p: Phase) {
    p.IssueUnknown? || p.AclUnknown? || p.VerificationFailed?
  }

  predicate Revoking(p: Phase) {
    p.RevocationPending? || p.Revoked?
  }

  // Phases that have stored the token's ciphertext.
  predicate HoldsSecret(p: Phase) {
    p.SecretStaged? || p.AclApplying? || p.TokenVerifying? || p.Verified? || p.Active?
  }

  predicate HistoryFits(row: Attempt, h: History) {
    && !NeverWritten(row.phase)
    && (h.revokedFrom.Some? <==> Revoking(row.phase))
    && (h.revokedFrom.Some? ==>
          && (h.revokedFrom.value.TokenDispatching? || HoldsSecret(h.revokedFrom.value))
          && (h.activated <==> h.revokedFrom.value == Active))
    && (h.revokedFrom.None? ==> (h.activated <==> row.phase == Active))
    && (row.resolved <==> row.phase.Active? || row.phase.PhaseCancelled? || row.phase.Revoked? || (row.phase == RevocationPending && h.activated))
    && (row.revocation <==> Revoking(row.phase))
    && (row.phase.TokenDispatching? ==> row.intent.mode == Issue)
    && (row.phase.ImportStaging? ==> row.intent.mode == ImportEnv)
  }

  // The phase, or for a revocation the phase it interrupted.
  function LastLivePhase(row: Attempt, h: History): Phase {
    if h.revokedFrom.Some? then h.revokedFrom.value else row.phase
  }

  predicate OperationFits(operations: map<OperationId, Status>, a: AttemptId, row: Attempt, h: History) {
    && RegistrationOp(a) in operations
    && operations[RegistrationOp(a)] == StatusOf(row.phase, h)
    && (RevocationOp(a) in operations <==> Revoking(row.phase))
    && (row.phase == RevocationPending ==> operations[RevocationOp(a)] == Dispatching)
    && (row.phase == Revoked ==> operations[RevocationOp(a)] == Succeeded)
  }

  predicate CredentialFits(credentials: map<RevisionId, Credential>, connection: Connection, row: Attempt, h: History) {
    && (row.revision.Some? <==> HoldsSecret(LastLivePhase(row, h)))
    && (row.revision.Some? ==>
          && row.revision.value in credentials
          && credentials[row.revision.value].state ==
               (if row.phase == Revoked then Withdrawn
                else if !h.activated then Pending
                else if connection.activeRevision == row.revision then InUse
                else Retiring)
          && (connection.activeRevision == row.revision ==>
                h.activated && (connection.admission == Open <==> row.phase == Active)))
  }

  // Everything said about one attempt, its operations and its credential.
  predicate AttemptFits(db: Db, h: Histories, a: AttemptId) {
    a in db.attempts ==>
      && db.connection.Some?
      && a in h
      && HistoryFits(db.attempts[a], h[a])
      && OperationFits(db.operations, a, db.attempts[a], h[a])
      && CredentialFits(db.credentials, db.connection.value, db.attempts[a], h[a])
      && (!db.attempts[a].resolved ==> db.attempts[a].expectedVersion == db.connection.value.version)
  }

  // Two attempts share neither key nor credential, and at most one is unresolved.
  predicate PairFits(db: Db, a: AttemptId, b: AttemptId) {
    a in db.attempts && b in db.attempts && a != b ==>
      && (db.attempts[a].resolved || db.attempts[b].resolved)
      && db.attempts[a].key != db.attempts[b].key
      && (db.attempts[a].revision.Some? ==> db.attempts[a].revision != db.attempts[b].revision)
  }

  // A credential in use is the one the connection names, and a ciphertext is missing
  // exactly when the credential was withdrawn.
  predicate CredentialCoherent(db: Db, r: RevisionId) {
    r in db.credentials ==>
      && (db.credentials[r].state == InUse ==> db.connection.Some? && db.connection.value.activeRevision == Some(r))
      && (db.credentials[r].ciphertext.None? <==> db.credentials[r].state == Withdrawn)
  }

  predicate ConnectionCoherent(db: Db) {
    match db.connection
    case None => db.credentials == map[]
    case Some(c) =>
      && (c.source == Managed <==> c.activeRevision.Some?)
      && (c.source == LegacyEnv ==> c.admission == Open)
      && (c.activeRevision.Some? ==>
            && c.activeRevision.value in db.credentials
            && (db.credentials[c.activeRevision.value].state.InUse? || db.credentials[c.activeRevision.value].state.Withdrawn?)
            && (c.admission == Open ==> db.credentials[c.activeRevision.value].state == InUse))
  }

  predicate OperationOwned(db: Db, op: OperationId) {
    op in db.operations ==> op.attempt in db.attempts
  }

  ghost predicate RowsFit(db: Db, h: Histories) {
    && h.Keys == db.attempts.Keys
    && ConnectionCoherent(db)
    && (forall a :: AttemptFits(db, h, a))
    && (forall a, b :: PairFits(db, a, b))
    && (forall r :: CredentialCoherent(db, r))
    && (forall op :: OperationOwned(db, op))
  }

  // ----- each transaction keeps the rows fitting

  // Phase changes that the registration service asks the repository for.
  predicate LegalMove(mode: Mode, seen: Phase, move: Move) {
    match move.phase
    case Authenticated => PreDispatch(seen) && move.status.None? && !move.resolved
    case MfaRequired => PreDispatch(seen) && move.status.None? && !move.resolved
    case PlanReady => PreDispatch(seen) && move.status.None? && !move.resolved
    case TokenDispatching => mode == Issue && seen == PlanReady && move.status == Some(Dispatching) && !move.resolved
    case ImportStaging => mode == ImportEnv && seen == PlanReady && move.status == Some(Dispatching) && !move.resolved
    case AclApplying => seen == SecretStaged && move.status.None? && !move.resolved
    case TokenVerifying => (seen.SecretStaged? || seen.AclApplying?) && move.status == Some(Operations.Verifying) && !move.resolved
    case Verified => (seen.TokenVerifying? || seen.Verified?) && move.status.None? && !move.resolved
    case PhaseCancelled => PreDispatch(seen) && move.status == Some(Cancelled) && move.resolved
    case _ => false
  }

  // Facts about one attempt survive a transaction that leaves its row, its operations,
  // its credential and the active connection alone.
  lemma UntouchedFits(db: Db, db': Db, h: Histories, h': Histories, b: AttemptId)
    requires AttemptFits(db, h, b) && ConnectionCoherent(db)
    requires b in db'.attempts ==> b in db.attempts && db'.attempts[b] == db.attempts[b] && b in h' && b in h && h'[b] == h[b]
    requires RegistrationOp(b) in db.operations ==>
      RegistrationOp(b) in db'.operations && db'.operations[RegistrationOp(b)] == db.operations[RegistrationOp(b)]
    requires RevocationOp(b) in db'.operations <==> RevocationOp(b) in db.operations
    requires RevocationOp(b) in db.operations ==> db'.operations[RevocationOp(b)] == db.operations[RevocationOp(b)]
    requires db'.connection == db.connection
    requires b in db.attempts && db.attempts[b].revision.Some? && db.attempts[b].revision.value in db.credentials ==>
      db.attempts[b].revision.value in db'.credentials
      && db'.credentials[db.attempts[b].revision.value] == db.credentials[db.attempts[b].revision.value]
    ensures AttemptFits(db', h', b)
  {
  }

  lemma MovedFits(db: Db, h: Histories, a: AttemptId, seen: Phase, move: Move)
    requires a in db.attempts && AttemptFits(db, h, a)
    requires db.attempts[a].phase == seen && LegalMove(db.attempts[a].intent.mode, seen, move)
    ensures var r := MoveRow(db, a, move); r.Ok? && AttemptFits(r.value, h, a)
  {
  }

  lemma MoveKeeps(db: Db, db': Db, h: Histories, a: AttemptId, move: Move)
    requires RowsFit(db, h) && a in db.attempts && !db.attempts[a].resolved
    requires MoveRow(db, a, move) == Ok(db') && AttemptFits(db', h, a)
    ensures RowsFit(db', h)
  {
    forall b ensures AttemptFits(db', h, b) {
      assert AttemptFits(db, h, b);
      if b != a { UntouchedFits(db, db', h, h, b); }
    }
    forall b, c ensures PairFits(db', b, c) { assert PairFits(db, b, c); }
    forall r ensures CredentialCoherent(db', r) { assert CredentialCoherent(db, r); }
    forall op ensures OperationOwned(db', op) { assert OperationOwned(db, op); }
  }

  lemma AdvanceKeeps(db: Db, h: Histories, a: AttemptId, actor: ActorId, version: nat, seen: Phase, move: Move)
    requires RowsFit(db, h)
    requires a in db.attempts ==> LegalMove(db.attempts[a].intent.mode, seen, move)
    ensures var r := Advance(db, a, actor, version, {seen}, move);
            && (r.Ok? ==> RowsFit(r.value, h))
            && r != Err(TransitionRefused) && r != Err(OperationNotFound)
  {
    assert AttemptFits(db, h, a);
    if a in db.attempts && db.attempts[a].phase == seen {
      MovedFits(db, h, a, seen, move);
      if !db.attempts[a].resolved { MoveKeeps(db, MoveRow(db, a, move).value, h, a, move); }
    }
  }

  lemma PrepareAttempts(db: Db, h: Histories, request: Request, keyAvailable: bool, newId: AttemptId)
    requires RowsFit(db, h) && Prepare(db, request, keyAvailable, newId).Ok?
    requires Prepare(db, request, keyAvailable, newId).value.db != db
    ensures var db', h' := Prepare(db, request, keyAvailable, newId).value.db, h[newId := FRESH_HISTORY];
            && newId !in db.attempts
            && (forall b :: AttemptFits(db', h', b))
            && (forall b, c :: PairFits(db', b, c))
  {
    var db', h' := Prepare(db, request, keyAvailable, newId).value.db, h[newId := FRESH_HISTORY];
    assert forall x :: x in db.attempts ==> x !in Unresolved(db) && x !in SameKey(db, request.key);
    assert OperationOwned(db, RevocationOp(newId));
    forall b ensures AttemptFits(db', h', b) { assert AttemptFits(db, h, b); }
    forall b, c ensures PairFits(db', b, c) { assert PairFits(db, b, c); }
  }

  lemma PrepareKeeps(db: Db, h: Histories, request: Request, keyAvailable: bool, newId: AttemptId)
    requires RowsFit(db, h)
    ensures var r := Prepare(db, request, keyAvailable, newId);
            r.Ok? ==>
              && r.value.attempt in r.value.db.attempts
              && (r.value.db == db || (r.value.attempt == newId && newId !in db.attempts
                  && RowsFit(r.value.db, h[newId := FRESH_HISTORY])))
  {
    var r := Prepare(db, request, keyAvailable, newId);
    if r.Ok? && r.value.db != db {
      var db' := r.value.db;
      PrepareAttempts(db, h, request, keyAvailable, newId);
      hide AttemptFits, PairFits;
      forall r ensures CredentialCoherent(db', r) { assert CredentialCoherent(db, r); }
      forall op ensures OperationOwned(db', op) { assert OperationOwned(db, op); }
    }
  }

  lemma StagedAttempts(db: Db, h: Histories, a: AttemptId, actor: ActorId, version: nat,
                       ciphertext: string, tokenId: string, keyAvailable: bool, newId: RevisionId)
    requires RowsFit(db, h) && StageSecret(db, a, actor, version, ciphertext, tokenId, keyAvailable, newId).Ok?
    ensures var db' := StageSecret(db, a, actor, version, ciphertext, tokenId, keyAvailable, newId).value;
            forall b :: AttemptFits(db', h, b)
  {
    assert AttemptFits(db, h, a);
    var db' := StageSecret(db, a, actor, version, ciphertext, tokenId, keyAvailable, newId).value;
    forall b ensures AttemptFits(db', h, b) {
      assert AttemptFits(db, h, b);
      if b != a { UntouchedFits(db, db', h, h, b); }
    }
  }

  lemma StageSecretKeeps(db: Db, h: Histories, a: AttemptId, actor: ActorId, version: nat,
                         ciphertext: string, tokenId: string, keyAvailable: bool, newId: RevisionId)
    requires RowsFit(db, h)
    ensures var r := StageSecret(db, a, actor, version, ciphertext, tokenId, keyAvailable, newId);
            && (r.Ok? ==> RowsFit(r.value, h))
            && r != Err(TransitionRefused) && r != Err(OperationNotFound)
  {
    assert AttemptFits(db, h, a);
    var r := StageSecret(db, a, actor, version, ciphertext, tokenId, keyAvailable, newId);
    if r.Ok? {
      var db' := r.value;
      StagedAttempts(db, h, a, actor, version, ciphertext, tokenId, keyAvailable, newId);
      forall b, c ensures PairFits(db', b, c) {
        assert PairFits(db, b, c);
        assert AttemptFits(db, h, b) && AttemptFits(db, h, c);
      }
      forall r ensures CredentialCoherent(db', r) { assert CredentialCoherent(db, r); }
      forall op ensures OperationOwned(db', op) { assert OperationOwned(db, op); }
    }
  }

  lemma TakenOverFits(db: Db, h: Histories, a: AttemptId, b: AttemptId)
    requires a in db.attempts && db.attempts[a].phase == Verified && db.attempts[a].revision.Some?
    requires db.connection.Some? && db.attempts[a].revision.value in db.credentials
    requires AttemptFits(db, h, a) && AttemptFits(db, h, b) && PairFits(db, a, b) && ConnectionCoherent(db)
    requires a != b ==> CredentialCoherent(db, if b in db.attempts && db.attempts[b].revision.Some? then db.attempts[b].revision.value else "")
    ensures var r := MoveRow(TakenOver(db, db.attempts[a]), a, ACTIVATED);
            r.Ok? && AttemptFits(r.value, h[a := History(true, None)], b)
  {
  }

  lemma ActivateKeeps(db: Db, h: Histories, a: AttemptId, actor: ActorId, version: nat, decrypts: bool, pin: Option<Selection>)
    requires RowsFit(db, h)
    ensures var r := Activate(db, a, actor, version, decrypts, pin);
            && (r.Ok? ==> a in h && RowsFit(r.value, h[a := History(true, None)]))
            && r != Err(TransitionRefused) && r != Err(OperationNotFound)
  {
    assert AttemptFits(db, h, a);
    var r := Activate(db, a, actor, version, decrypts, pin);
    if a in db.attempts && db.attempts[a].phase == Verified {
      assert PairFits(db, a, a) && CredentialCoherent(db, db.attempts[a].revision.value);
      TakenOverFits(db, h, a, a);
    }
    if r.Ok? {
      var db', h' := r.value, h[a := History(true, None)];
      forall b ensures AttemptFits(db', h', b) {
        assert AttemptFits(db, h, b) && PairFits(db, a, b);
        assert CredentialCoherent(db, if b in db.attempts && db.attempts[b].revision.Some? then db.attempts[b].revision.value else "");
        TakenOverFits(db, h, a, b);
      }
      forall b, c ensures PairFits(db', b, c) { assert PairFits(db, b, c); }
      forall r ensures CredentialCoherent(db', r) { assert CredentialCoherent(db, r); }
      forall op ensures OperationOwned(db', op) { assert OperationOwned(db, op); }
    }
  }

  lemma BeginRevokeKeeps(db: Db, h: Histories, a: AttemptId, actor: ActorId, version: nat)
    requires RowsFit(db, h)
    ensures var r := BeginRevoke(db, a, actor, version);
            && (r.Ok? ==> a in h && RowsFit(r.value, h[a := History(h[a].activated, Some(db.attempts[a].phase))]))
            && r != Err(TransitionRefused) && r != Err(OperationNotFound)
  {
    assert AttemptFits(db, h, a);
    var r := BeginRevoke(db, a, actor, version);
    if r.Ok? {
      var db', h' := r.value, h[a := History(h[a].activated, Some(db.attempts[a].phase))];
      forall b ensures AttemptFits(db', h', b) {
        assert AttemptFits(db, h, b) && PairFits(db, a, b) && PairFits(db, b, a);
      }
      forall b, c ensures PairFits(db', b, c) { assert PairFits(db, b, c); }
      forall r ensures CredentialCoherent(db', r) { assert CredentialCoherent(db, r); }
      forall op ensures OperationOwned(db', op) { assert OperationOwned(db, op); }
    }
  }

  lemma RevocationSucceeds(operations: map<OperationId, Status>, op: OperationId)
    requires op in operations && operations[op] == Dispatching
    ensures AppendedAll(operations, op, REVOCATION_STATUSES) == Ok(operations[op := Succeeded])
  {
    var running := operations[op := Running];
    var verifying := running[op := Operations.Verifying];
    assert REVOCATION_STATUSES[1..] == [Operations.Verifying, Succeeded];
    assert REVOCATION_STATUSES[1..][1..] == [Succeeded];
    assert AppendedAll(verifying, op, [Succeeded]) == Ok(verifying[op := Succeeded]);
    assert AppendedAll(running, op, [Operations.Verifying, Succeeded]) == Ok(verifying[op := Succeeded]);
    assert verifying[op := Succeeded] == operations[op := Succeeded];
  }

  // The rows once the token of `a` is known to be gone.
  function WithdrawnRows(db: Db, a: AttemptId): (r: Result<Db, SetupError>)
    requires a in db.attempts && RegistrationOp(a) in db.operations
  {
    var operations := db.operations[RevocationOp(a) := Succeeded];
    var failure := if operations[RegistrationOp(a)] == Succeeded then None else Some(Failed);
    MoveRow(db.(operations := operations, credentials := Withdrawal(db.credentials, db.attempts[a].revision)),
            a, WITHDRAWN_MOVE.(status := failure))
  }

  lemma WithdrawnFits(db: Db, h: Histories, a: AttemptId)
    requires a in db.attempts && db.attempts[a].phase == RevocationPending
    requires AttemptFits(db, h, a) && ConnectionCoherent(db)
    ensures var r := WithdrawnRows(db, a); r.Ok? && AttemptFits(r.value, h, a)
  {
    WithdrawnRowFits(db, h, a);
    WithdrawnCredentialFits(db, h, a);
    hide HistoryFits, OperationFits, CredentialFits, ConnectionCoherent, Withdrawal;
  }

  lemma WithdrawnRowFits(db: Db, h: Histories, a: AttemptId)
    requires a in db.attempts && db.attempts[a].phase == RevocationPending && AttemptFits(db, h, a)
    ensures var r := WithdrawnRows(db, a);
            && r.Ok? && a in r.value.attempts && r.value.connection == db.connection
            && r.value.attempts[a].resolved
            && HistoryFits(r.value.attempts[a], h[a]) && OperationFits(r.value.operations, a, r.value.attempts[a], h[a])
  {
    hide CredentialFits, Withdrawal;
  }

  lemma WithdrawnCredentialFits(db: Db, h: Histories, a: AttemptId)
    requires a in db.attempts && db.attempts[a].phase == RevocationPending && AttemptFits(db, h, a) && ConnectionCoherent(db)
    ensures var r := WithdrawnRows(db, a);
            r.Ok? && a in r.value.attempts && CredentialFits(r.value.credentials, db.connection.value, r.value.attempts[a], h[a])
  {
  }

  lemma WithdrawnLeaves(db: Db, h: Histories, a: AttemptId, b: AttemptId)
    requires a in db.attempts && db.attempts[a].phase == RevocationPending && a != b
    requires AttemptFits(db, h, a) && AttemptFits(db, h, b) && PairFits(db, a, b) && ConnectionCoherent(db)
    requires WithdrawnRows(db, a).Ok?
    ensures AttemptFits(WithdrawnRows(db, a).value, h, b)
  {
    UntouchedFits(db, WithdrawnRows(db, a).value, h, h, b);
  }

  lemma FinishIsWithdrawn(db: Db, h: Histories, a: AttemptId, actor: ActorId, version: nat)
    requires RowsFit(db, h) && a in db.attempts && db.attempts[a].phase == RevocationPending
    ensures RegistrationOp(a) in db.operations
    ensures var r := FinishRevoke(db, a, actor, version);
            && (r.Ok? ==> r == WithdrawnRows(db, a))
            && r != Err(TransitionRefused) && r != Err(OperationNotFound)
  {
    assert AttemptFits(db, h, a);
    RevocationSucceeds(db.operations, RevocationOp(a));
    WithdrawnFits(db, h, a);
    hide AppendedAll, RowsFit;
  }

  lemma WithdrawnAttempts(db: Db, h: Histories, a: AttemptId)
    requires RowsFit(db, h) && a in db.attempts && db.attempts[a].phase == RevocationPending && RegistrationOp(a) in db.operations
    requires WithdrawnRows(db, a).Ok?
    ensures forall b :: AttemptFits(WithdrawnRows(db, a).value, h, b)
  {
    assert AttemptFits(db, h, a);
    WithdrawnFits(db, h, a);
    forall b ensures AttemptFits(WithdrawnRows(db, a).value, h, b) {
      assert AttemptFits(db, h, b) && PairFits(db, a, b);
      if b != a { WithdrawnLeaves(db, h, a, b); }
      hide AttemptFits, PairFits, WithdrawnRows;
    }
  }

  lemma WithdrawnRest(db: Db, h: Histories, a: AttemptId)
    requires RowsFit(db, h) && a in db.attempts && db.attempts[a].phase == RevocationPending && RegistrationOp(a) in db.operations
    requires WithdrawnRows(db, a).Ok?
    ensures var db' := WithdrawnRows(db, a).value;
            && (forall b, c :: PairFits(db', b, c)) && (forall r :: CredentialCoherent(db', r))
            && (forall op :: OperationOwned(db', op)) && ConnectionCoherent(db')
  {
    var db' := WithdrawnRows(db, a).value;
    assert AttemptFits(db, h, a);
    forall b, c ensures PairFits(db', b, c) { assert PairFits(db, b, c); }
    forall r ensures CredentialCoherent(db', r) { assert CredentialCoherent(db, r); }
    forall op ensures OperationOwned(db', op) { assert OperationOwned(db, op); }
  }

  lemma FinishRevokeKeeps(db: Db, h: Histories, a: AttemptId, actor: ActorId, version: nat)
    requires RowsFit(db, h)
    ensures var r := FinishRevoke(db, a, actor, version);
            && (r.Ok? ==> RowsFit(r.value, h))
            && r != Err(TransitionRefused) && r != Err(OperationNotFound)
  {
    if a in db.attempts && db.attempts[a].phase == RevocationPending {
      FinishIsWithdrawn(db, h, a, actor, version);
      if FinishRevoke(db, a, actor, version).Ok? {
        WithdrawnAttempts(db, h, a);
        WithdrawnRest(db, h, a);
      }
      hide FinishRevoke, WithdrawnRows, AttemptFits, PairFits, CredentialCoherent, OperationOwned, ConnectionCoherent;
    }
  }
}
