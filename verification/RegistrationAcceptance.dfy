/**
 When each transaction of the registration repository is accepted, what it then writes, and why it
 is refused otherwise, over rows as every run leaves them.
 */
module RegistrationAcceptance {
  import opened Wrappers
  import opened Operations
  import opened RegistrationRows
  import opened RegistrationInvariant
  import opened RegistrationAdmission

  // ----- what else is going on

  // Another operation has not come to its end, or some work has not, holds a lock or awaits recovery.
  ghost predicate Busy(db: Db, apartFrom: OperationId) {
    || (exists op :: op in db.operations && op != apartFrom && !Over(db.operations[op]))
    || (exists w :: w in db.work && Underway(db.work[w]))
  }

  lemma BusyExactly(db: Db, op: OperationId)
    ensures UnfinishedCoordination(db, op) <==> Busy(db, op)
  {
    forall status ensures Over(status) <==> Terminal(status) {}
    hide Over, Terminal;
    forall work: Work ensures Underway(work) <==> work.Unfinished() { UnderwayExactly(work); }
    hide Underway;
    if w :| w in db.work && db.work[w].Unfinished() { assert Underway(db.work[w]); }
    if w :| w in db.work && Underway(db.work[w]) { assert db.work[w].Unfinished(); }
  }

  // ----- preparation

  predicate ValidRequest(request: Request) {
    8 <= request.keyLength <= 160
  }

  predicate FromAdministrator(request: Request) {
    request.admin && request.actor != ""
  }

  predicate SameInstallation(db: Db, request: Request) {
    db.connection.Some? ==>
      db.connection.value.installation == request.installation && db.connection.value.cluster == request.cluster
  }

  predicate HasKey(db: Db, a: AttemptId, key: Digest) {
    a in db.attempts && db.attempts[a].key == key
  }

  ghost predicate KeyKnown(db: Db, key: Digest) {
    exists a :: HasKey(db, a, key)
  }

  ghost predicate AllResolved(db: Db) {
    forall a :: a in db.attempts ==> db.attempts[a].resolved
  }

  predicate IsNew(db: Db, a: AttemptId) {
    a !in db.attempts && RegistrationOp(a) !in db.operations
  }

  // A request is let through as far as its own contents and the installation go.
  predicate LetThrough(db: Db, request: Request, keyAvailable: bool) {
    ValidRequest(request) && FromAdministrator(request) && keyAvailable && SameInstallation(db, request)
  }

  // A new key is prepared exactly when no attempt is unresolved: one planned attempt is added that
  // expects the current version of the connection, which is created on first use.
  lemma PreparedExactlyWhenNew(db: Db, request: Request, keyAvailable: bool, newId: AttemptId)
    requires !KeyKnown(db, request.key)
    ensures var r := Prepare(db, request, keyAvailable, newId);
            var first := Connection(request.installation, request.cluster, LegacyEnv, None, Open, 1);
            var connection := if db.connection.Some? then db.connection.value else first;
            && (r.Ok? <==> LetThrough(db, request, keyAvailable) && AllResolved(db) && IsNew(db, newId))
            && (r.Ok? ==> r.value == Registered(
                  db.(connection := Some(connection), operations := db.operations[RegistrationOp(newId) := Planned],
                      attempts := db.attempts[newId := Attempt(request.actor, request.key, request.intent, None, Prepared, false,
                                                               connection.version, 1, None, false)]),
                  newId))
            && (r == Err(UnresolvedAttempt) <==> LetThrough(db, request, keyAvailable) && !AllResolved(db))
            && (r == Err(DuplicateIdentity) <==> LetThrough(db, request, keyAvailable) && AllResolved(db) && !IsNew(db, newId))
            && r != Err(IdempotencyConflict)
  {
    if a :| a in SameKey(db, request.key) { assert HasKey(db, a, request.key); }
    if a :| a in db.attempts && !db.attempts[a].resolved { assert a in Unresolved(db); }
    if a :| a in Unresolved(db) { assert !db.attempts[a].resolved; }
  }

  // A known key is answered with its attempt exactly when intent and actor are the same.
  lemma PreparedExactlyWhenKnown(db: Db, h: Histories, request: Request, keyAvailable: bool, newId: AttemptId, a: AttemptId)
    requires RowsFit(db, h) && HasKey(db, a, request.key)
    ensures var r, same := Prepare(db, request, keyAvailable, newId), db.attempts[a].intent == request.intent && db.attempts[a].actor == request.actor;
            && (r == Ok(Registered(db, a)) <==> LetThrough(db, request, keyAvailable) && same)
            && (r.Ok? ==> r == Ok(Registered(db, a)))
            && (r == Err(IdempotencyConflict) <==> LetThrough(db, request, keyAvailable) && !same)
            && r != Err(UnresolvedAttempt) && r != Err(DuplicateIdentity)
  {
    assert a in SameKey(db, request.key);
    forall b | b in SameKey(db, request.key) ensures b == a { assert PairFits(db, a, b); }
    hide RowsFit;
  }

  // The other refusals, in the order of their checks.
  lemma PreparationRefused(db: Db, request: Request, keyAvailable: bool, newId: AttemptId)
    ensures var r := Prepare(db, request, keyAvailable, newId);
            && (r == Err(InvalidInput) <==> !ValidRequest(request))
            && (r == Err(AdminRequired) <==> ValidRequest(request) && !FromAdministrator(request))
            && (r == Err(KeyUnavailable) <==> ValidRequest(request) && FromAdministrator(request) && !keyAvailable)
            && (r == Err(IdentityConflict) <==>
                  ValidRequest(request) && FromAdministrator(request) && keyAvailable && !SameInstallation(db, request))
  {
  }

  // ----- transactions on one attempt

  predicate IsOwner(db: Db, a: AttemptId, actor: ActorId) {
    a in db.attempts && db.attempts[a].actor == actor
  }

  // The caller owns the attempt and has read its present version.
  predicate Current(db: Db, a: AttemptId, actor: ActorId, version: nat) {
    IsOwner(db, a, actor) && db.attempts[a].version == version
  }

  // Every transaction on an attempt is refused to anybody but its owner, and for a version that is
  // not the present one.
  lemma OnlyCurrentOwner(db: Db, a: AttemptId, actor: ActorId, version: nat, expected: set<Phase>, move: Move, decrypts: bool,
                         pin: Option<Selection>, ciphertext: string, tokenId: string, newId: RevisionId)
    requires !Current(db, a, actor, version)
    ensures var e := if IsOwner(db, a, actor) then VersionConflict else AttemptNotFound;
            && Advance(db, a, actor, version, expected, move) == Err(e)
            && StageSecret(db, a, actor, version, ciphertext, tokenId, true, newId) == Err(e)
            && Activate(db, a, actor, version, decrypts, pin) == Err(e)
            && BeginRevoke(db, a, actor, version) == Err(e)
            && FinishRevoke(db, a, actor, version) == Err(e)
  {
  }

  predicate AwaitsSecret(row: Attempt) {
    (row.phase == TokenDispatching || row.phase == ImportStaging) && row.revision.None?
  }

  // The token is the one that belongs to the attempt: its own when it was issued, any token of the
  // same owner when it is imported.
  ghost predicate RightToken(row: Attempt, a: AttemptId, tokenId: string) {
    if row.phase == TokenDispatching then tokenId == row.intent.owner + "!gjallar-" + a
    else exists rest :: tokenId == row.intent.owner + "!" + rest
  }

  lemma TokenExactly(row: Attempt, a: AttemptId, tokenId: string)
    requires row.phase == TokenDispatching ==> row.intent.mode == Issue
    requires row.phase == ImportStaging ==> row.intent.mode == ImportEnv
    requires AwaitsSecret(row)
    ensures TokenIdMatches(row, a, tokenId) <==> RightToken(row, a, tokenId)
  {
    var prefix := row.intent.owner + "!";
    if prefix <= tokenId { assert tokenId == prefix + tokenId[|prefix|..]; }
  }

  // A secret is stored exactly for the current owner of an attempt that awaits one, under the right
  // token; it is pending, the attempt names it and the operation runs.
  lemma StagedExactlyWhen(db: Db, h: Histories, a: AttemptId, actor: ActorId, version: nat,
                          ciphertext: string, tokenId: string, keyAvailable: bool, newId: RevisionId)
    requires RowsFit(db, h) && Current(db, a, actor, version)
    ensures var r, row := StageSecret(db, a, actor, version, ciphertext, tokenId, keyAvailable, newId), db.attempts[a];
            && (r.Ok? <==> keyAvailable && AwaitsSecret(row) && RightToken(row, a, tokenId) && newId !in db.credentials)
            && (r.Ok? ==> r.value == db.(
                  credentials := db.credentials[newId := Credential(Pending, tokenId, Some(ciphertext))],
                  operations := db.operations[RegistrationOp(a) := Running],
                  attempts := db.attempts[a := row.(revision := Some(newId), phase := SecretStaged, version := version + 1)]))
            && (r == Err(KeyUnavailable) <==> !keyAvailable)
            && (r == Err(PhaseConflict) <==> keyAvailable && !AwaitsSecret(row))
            && (r == Err(TokenIdConflict) <==> keyAvailable && AwaitsSecret(row) && !RightToken(row, a, tokenId))
            && (r == Err(DuplicateIdentity) <==> keyAvailable && AwaitsSecret(row) && RightToken(row, a, tokenId) && newId in db.credentials)
  {
    assert AttemptFits(db, h, a);
    if AwaitsSecret(db.attempts[a]) { TokenExactly(db.attempts[a], a, tokenId); }
    hide RowsFit, TokenIdMatches, RightToken, CredentialFits;
  }

  // The credentials after the verified one took over from the one in use.
  predicate TookOver(credentials: map<RevisionId, Credential>, credentials': map<RevisionId, Credential>, next: RevisionId) {
    && credentials'.Keys == credentials.Keys && next in credentials
    && credentials'[next] == credentials[next].(state := InUse)
    && forall r :: r in credentials && r != next ==>
         credentials'[r] == if credentials[r].state == InUse then credentials[r].(state := Retiring) else credentials[r]
  }

  // A verified attempt is activated exactly when its owner is current, nothing else is unfinished, the
  // secret can be decrypted and the process has not been started under another selection. Then its
  // credential, and no other, is in use, and the connection is open under the next version.
  lemma ActivatedExactlyWhen(db: Db, h: Histories, a: AttemptId, actor: ActorId, version: nat, decrypts: bool, pin: Option<Selection>)
    requires RowsFit(db, h) && Current(db, a, actor, version)
    ensures var r, row := Activate(db, a, actor, version, decrypts, pin), db.attempts[a];
            var quiet := !Busy(db, RegistrationOp(a));
            && (r.Ok? <==> row.phase == Verified && quiet && decrypts && PinAllows(db.connection, pin))
            && (r.Ok? ==>
                  && row.revision.Some? && TookOver(db.credentials, r.value.credentials, row.revision.value)
                  && db.connection.Some?
                  && r.value == db.(
                       credentials := r.value.credentials,
                       connection := Some(Connection(db.connection.value.installation, db.connection.value.cluster, Managed, row.revision, Open,
                                                     db.connection.value.version + 1)),
                       operations := db.operations[RegistrationOp(a) := Succeeded],
                       attempts := db.attempts[a := row.(phase := Active, resolved := true, version := version + 1)]))
            && (r == Err(ActivationConflict) <==> row.phase != Verified)
            && (r == Err(WorkInProgress) <==> row.phase == Verified && !quiet)
            && (r == Err(KeyUnavailable) <==> row.phase == Verified && quiet && !decrypts)
            && (r == Err(RestartRequired) <==> row.phase == Verified && quiet && decrypts && !PinAllows(db.connection, pin))
  {
    var row := db.attempts[a];
    assert AttemptFits(db, h, a);
    if row.phase == Verified {
      assert CredentialCoherent(db, row.revision.value);
      HandsOver(db, h, a);
    }
    BusyExactly(db, RegistrationOp(a));
    hide RowsFit, HandedOver, UnfinishedCoordination, TookOver, Busy;
  }

  lemma HandsOver(db: Db, h: Histories, a: AttemptId)
    requires RowsFit(db, h) && a in db.attempts && db.attempts[a].phase == Verified
    ensures db.connection.Some? && db.attempts[a].revision.Some? && db.attempts[a].revision.value in db.credentials
    ensures TookOver(db.credentials, HandedOver(db.credentials, db.connection.value.activeRevision, db.attempts[a].revision.value),
                     db.attempts[a].revision.value)
  {
    assert AttemptFits(db, h, a);
    var next, previous := db.attempts[a].revision.value, db.connection.value.activeRevision;
    forall r | r in db.credentials && db.credentials[r].state == InUse ensures previous == Some(r) {
      assert CredentialCoherent(db, r);
    }
    hide RowsFit;
  }

  // The phases from which a token can exist that nobody has withdrawn yet.
  predicate MayHoldToken(p: Phase) {
    p == TokenDispatching || p == SecretStaged || p == AclApplying || p == TokenVerifying || p == Verified || p == Active
  }

  predicate IsTheActiveOne(db: Db, row: Attempt) {
    db.connection.Some? && row.revision.Some? && db.connection.value.activeRevision == row.revision
  }

  // A revocation is begun exactly for an issued token that may exist, and for the active one only when
  // nothing else is unfinished; the marker is dispatched, and the active token's connection is closed.
  lemma BegunExactlyWhen(db: Db, h: Histories, a: AttemptId, actor: ActorId, version: nat)
    requires RowsFit(db, h) && Current(db, a, actor, version)
    ensures var r, row := BeginRevoke(db, a, actor, version), db.attempts[a];
            var held := IsTheActiveOne(db, row) && Busy(db, RegistrationOp(a));
            && (r.Ok? <==> row.intent.mode == Issue && MayHoldToken(row.phase) && !held)
            && (r.Ok? ==> r.value == db.(
                  operations := db.operations[RevocationOp(a) := Dispatching],
                  connection := if IsTheActiveOne(db, row) then Some(db.connection.value.(admission := Closed)) else db.connection,
                  attempts := db.attempts[a := row.(revocation := true, phase := RevocationPending, version := version + 1)]))
            && (r == Err(ImportedTokenPreserved) <==> row.intent.mode == ImportEnv)
            && (r == Err(PhaseConflict) <==> row.intent.mode == Issue && !MayHoldToken(row.phase))
            && (r == Err(WorkInProgress) <==> row.intent.mode == Issue && MayHoldToken(row.phase) && held)
  {
    assert AttemptFits(db, h, a);
    BusyExactly(db, RegistrationOp(a));
    hide RowsFit, UnfinishedCoordination, CredentialFits, Busy;
  }

  // What the end of a revocation leaves.
  predicate Withdrew(db: Db, db': Db, a: AttemptId)
    requires a in db.attempts
  {
    var row := db.attempts[a];
    && RegistrationOp(a) in db.operations
    && db' == db.(credentials := db'.credentials, operations := db'.operations,
                  attempts := db.attempts[a := row.(phase := Revoked, resolved := true, version := row.version + 1)])
    && db'.credentials == (if row.revision.Some? && row.revision.value in db.credentials
                           then db.credentials[row.revision.value := Credential(Withdrawn, db.credentials[row.revision.value].tokenId, None)]
                           else db.credentials)
    && db'.operations == db.operations[RevocationOp(a) := Succeeded]
                           [RegistrationOp(a) := if db.operations[RegistrationOp(a)] == Succeeded then Succeeded else Failed]
  }

  lemma FinishWithdraws(db: Db, a: AttemptId, actor: ActorId, version: nat)
    requires Current(db, a, actor, version) && db.attempts[a].phase == RevocationPending && db.attempts[a].revocation
    requires RegistrationOp(a) in db.operations
    requires AppendedAll(db.operations, RevocationOp(a), REVOCATION_STATUSES) == Ok(db.operations[RevocationOp(a) := Succeeded])
    requires FinishRevoke(db, a, actor, version).Ok?
    ensures Withdrew(db, FinishRevoke(db, a, actor, version).value, a)
  {
    hide AppendedAll;
  }

  // A revocation is finished exactly while it is pending: the credential is withdrawn and its
  // ciphertext erased, the revocation has succeeded, and the registration has failed unless it had
  // succeeded before.
  lemma FinishedExactlyWhen(db: Db, h: Histories, a: AttemptId, actor: ActorId, version: nat)
    requires RowsFit(db, h) && Current(db, a, actor, version)
    ensures var r := FinishRevoke(db, a, actor, version);
            if db.attempts[a].phase == RevocationPending then r.Ok? && Withdrew(db, r.value, a) else r == Err(PhaseConflict)
  {
    if db.attempts[a].phase == RevocationPending {
      PendingRow(db, h, a);
      RevocationSucceeds(db.operations, RevocationOp(a));
      FinishAccepted(db, h, a, actor, version);
      FinishWithdraws(db, a, actor, version);
      hide FinishRevoke;
    }
    hide RowsFit, AppendedAll, Withdrew;
  }

  lemma PendingRow(db: Db, h: Histories, a: AttemptId)
    requires RowsFit(db, h) && a in db.attempts && db.attempts[a].phase == RevocationPending
    ensures db.attempts[a].revocation && RegistrationOp(a) in db.operations
    ensures RevocationOp(a) in db.operations && db.operations[RevocationOp(a)] == Dispatching
  {
    assert AttemptFits(db, h, a);
    hide CredentialFits;
  }

  lemma FinishAccepted(db: Db, h: Histories, a: AttemptId, actor: ActorId, version: nat)
    requires RowsFit(db, h) && Current(db, a, actor, version) && db.attempts[a].phase == RevocationPending
    ensures FinishRevoke(db, a, actor, version).Ok?
  {
    PendingRow(db, h, a);
    RevocationSucceeds(db.operations, RevocationOp(a));
    FinishRevokeKeeps(db, h, a, actor, version);
    hide RowsFit, AppendedAll, Withdrawal;
  }
}
