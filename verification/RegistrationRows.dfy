/**
 The stored rows of a Proxmox registration and what one transaction makes of them.

 Each function below is one committed transaction: `Ok` carries the rows after the
 commit, `Err` means that the transaction was rolled back.
 */
module RegistrationRows {
  import opened Wrappers
  import opened Operations

  type AttemptId = string
  type RevisionId = string
  type ActorId = string
  type WorkId = string
  type Digest = string

  datatype Mode = Issue | ImportEnv

  datatype Phase =
    | Prepared | Authenticated | MfaRequired | PlanReady
    | TokenDispatching | ImportStaging | SecretStaged | AclApplying
    | TokenVerifying | Verified | Active | PhaseCancelled
    | RevocationPending | Revoked
    | IssueUnknown | AclUnknown | VerificationFailed

  datatype Source = LegacyEnv | Managed
  datatype Admission = Open | Closed
  datatype CredentialState = Pending | InUse | Retiring | Withdrawn

  // What a process selects and pins: the source and the active revision.
  datatype Selection = Selection(source: Source, revision: Option<RevisionId>)

  datatype Connection = Connection(
    installation: string, cluster: string, source: Source,
    activeRevision: Option<RevisionId>, admission: Admission, version: nat)

  datatype Credential = Credential(state: CredentialState, tokenId: string, ciphertext: Option<string>)

  datatype Intent = Intent(digest: Digest, mode: Mode, owner: string)

  datatype Attempt = Attempt(
    actor: ActorId, key: Digest, intent: Intent, planDigest: Option<Digest>,
    phase: Phase, resolved: bool, expectedVersion: nat, version: nat,
    revision: Option<RevisionId>, revocation: bool)

  datatype OperationId = RegistrationOp(attempt: AttemptId) | RevocationOp(attempt: AttemptId)

  // Any other operation, with the target locks and the recovery item it may hold.
  // `admitted` is the selection under which its lock was last granted.
  datatype Work = Work(admitted: Option<Selection>, status: Option<Status>, lockOpen: bool, recoveryOpen: bool) {
    predicate Unfinished() {
      || (status.Some? && !Terminal(status.value))
      || lockOpen
      || recoveryOpen
    }
  }

  datatype Db = Db(
    connection: Option<Connection>,
    attempts: map<AttemptId, Attempt>,
    credentials: map<RevisionId, Credential>,
    operations: map<OperationId, Status>,
    work: map<WorkId, Work>)

  const EMPTY_DB := Db(None, map[], map[], map[], map[])

  datatype SetupError =
    | InvalidInput | AdminRequired | KeyUnavailable | IdentityConflict | IdempotencyConflict
    | UnresolvedAttempt | DuplicateIdentity | AttemptNotFound | VersionConflict | PhaseConflict
    | TokenIdConflict | CredentialUnavailable | ActivationConflict | WorkInProgress
    | RestartRequired | ImportedTokenPreserved | AdmissionClosed | ScopeNotSelected
    | OperationNotFound | TransitionRefused

  predicate PreDispatch(p: Phase) {
    p.Prepared? || p.Authenticated? || p.MfaRequired? || p.PlanReady?
  }

  // ----- the operation store

  function Appended(operations: map<OperationId, Status>, op: OperationId, next: Option<Status>)
    : (r: Result<map<OperationId, Status>, SetupError>)
  {
    if op !in operations then Err(OperationNotFound)
    else if next.None? then Ok(operations)
    else if TransitionAllowed(operations[op], next.value) then Ok(operations[op := next.value])
    else Err(TransitionRefused)
  }

  // Some other operation, lock or recovery item has not finished.
  ghost predicate UnfinishedCoordination(db: Db, excluding: OperationId) {
    || (exists op :: op in db.operations && op != excluding && !Terminal(db.operations[op]))
    || (exists w :: w in db.work && db.work[w].Unfinished())
  }

  function UnfinishedOperations(db: Db, excluding: OperationId): set<OperationId> {
    set op | op in db.operations && op != excluding && !Terminal(db.operations[op])
  }

  function UnfinishedWork(db: Db): set<WorkId> {
    set w | w in db.work && db.work[w].Unfinished()
  }

  predicate HasUnfinishedCoordination(db: Db, excluding: OperationId)
    ensures HasUnfinishedCoordination(db, excluding) <==> UnfinishedCoordination(db, excluding)
  {
    assert UnfinishedOperations(db, excluding) != {} <==>
      exists op :: op in db.operations && op != excluding && !Terminal(db.operations[op]) by {
      if op :| op in db.operations && op != excluding && !Terminal(db.operations[op]) {
        assert op in UnfinishedOperations(db, excluding);
      }
    }
    assert UnfinishedWork(db) != {} <==> exists w :: w in db.work && db.work[w].Unfinished() by {
      if w :| w in db.work && db.work[w].Unfinished() {
        assert w in UnfinishedWork(db);
      }
    }
    UnfinishedOperations(db, excluding) != {} || UnfinishedWork(db) != {}
  }

  // ----- transactions of the registration repository

  datatype Request = Request(
    intent: Intent, key: Digest, keyLength: nat, actor: ActorId, admin: bool,
    installation: string, cluster: string)

  function FirstConnection(installation: string, cluster: string): Connection {
    Connection(installation, cluster, LegacyEnv, None, Open, 1)
  }

  function SameKey(db: Db, key: Digest): set<AttemptId> {
    set a | a in db.attempts && db.attempts[a].key == key
  }

  function Unresolved(db: Db): set<AttemptId> {
    set a | a in db.attempts && !db.attempts[a].resolved
  }

  datatype Registered = Registered(db: Db, attempt: AttemptId)

  function NewAttempt(request: Request, connectionVersion: nat): Attempt {
    Attempt(request.actor, request.key, request.intent, None, Prepared, false, connectionVersion, 1, None, false)
  }

  ghost function Prepare(db: Db, request: Request, keyAvailable: bool, newId: AttemptId): (r: Result<Registered, SetupError>) {
    if !(8 <= request.keyLength <= 160) then Err(InvalidInput)
    else if !request.admin || request.actor == "" then Err(AdminRequired)
    else if !keyAvailable then Err(KeyUnavailable)
    else
      var connection := if db.connection.Some? then db.connection.value
                        else FirstConnection(request.installation, request.cluster);
      if connection.installation != request.installation || connection.cluster != request.cluster then Err(IdentityConflict)
      else if SameKey(db, request.key) != {} then
        var existing :| existing in SameKey(db, request.key);
        if db.attempts[existing].intent != request.intent || db.attempts[existing].actor != request.actor then Err(IdempotencyConflict)
        else Ok(Registered(db, existing))
      else if Unresolved(db) != {} then Err(UnresolvedAttempt)
      else if newId in db.attempts || RegistrationOp(newId) in db.operations then Err(DuplicateIdentity)
      else Ok(Registered(
        db.(connection := Some(connection),
            operations := db.operations[RegistrationOp(newId) := Planned],
            attempts := db.attempts[newId := NewAttempt(request, connection.version)]),
        newId))
  }

  function Owned(db: Db, a: AttemptId, actor: ActorId, version: nat): Result<Attempt, SetupError> {
    if a !in db.attempts || db.attempts[a].actor != actor then Err(AttemptNotFound)
    else if db.attempts[a].version != version then Err(VersionConflict)
    else Ok(db.attempts[a])
  }

  datatype Move = Move(phase: Phase, status: Option<Status>, planDigest: Option<Digest>, resolved: bool)

  function Moved(row: Attempt, move: Move): Attempt {
    row.(phase := move.phase, resolved := move.resolved, version := row.version + 1,
         planDigest := if move.planDigest.Some? then move.planDigest else row.planDigest)
  }

  // The step shared by every transaction that changes the phase of an owned attempt.
  function MoveRow(db: Db, a: AttemptId, move: Move): (r: Result<Db, SetupError>)
    requires a in db.attempts
  {
    match Appended(db.operations, RegistrationOp(a), move.status)
    case Err(e) => Err(e)
    case Ok(operations) =>
      Ok(db.(operations := operations, attempts := db.attempts[a := Moved(db.attempts[a], move)]))
  }

  function Advance(db: Db, a: AttemptId, actor: ActorId, version: nat, expected: set<Phase>, move: Move)
    : (r: Result<Db, SetupError>)
  {
    match Owned(db, a, actor, version)
    case Err(e) => Err(e)
    case Ok(row) =>
      if row.phase !in expected || row.resolved then Err(PhaseConflict)
      else MoveRow(db, a, move)
  }

  function IssuedTokenId(owner: string, a: AttemptId): string {
    owner + "!gjallar-" + a
  }

  predicate TokenIdMatches(row: Attempt, a: AttemptId, tokenId: string) {
    match row.intent.mode
    case ImportEnv => row.phase == ImportStaging && row.intent.owner + "!" <= tokenId
    case Issue => row.phase == TokenDispatching && tokenId == IssuedTokenId(row.intent.owner, a)
  }

  const STAGED := Move(SecretStaged, Some(Running), None, false)

  function StageSecret(db: Db, a: AttemptId, actor: ActorId, version: nat,
                       ciphertext: string, tokenId: string, keyAvailable: bool, newId: RevisionId)
    : (r: Result<Db, SetupError>)
  {
    if !keyAvailable then Err(KeyUnavailable)
    else
      match Owned(db, a, actor, version)
      case Err(e) => Err(e)
      case Ok(row) =>
        if !(row.phase.TokenDispatching? || row.phase.ImportStaging?) || row.revision.Some? then Err(PhaseConflict)
        else if !TokenIdMatches(row, a, tokenId) then Err(TokenIdConflict)
        else if newId in db.credentials then Err(DuplicateIdentity)
        else
          var staged := db.(
            credentials := db.credentials[newId := Credential(Pending, tokenId, Some(ciphertext))],
            attempts := db.attempts[a := row.(revision := Some(newId))]);
          MoveRow(staged, a, STAGED)
  }

  // The selection of a connection row; no row at all selects the environment.
  function SelectionOf(connection: Option<Connection>): Selection {
    match connection
    case None => Selection(LegacyEnv, None)
    case Some(c) => Selection(c.source, c.activeRevision)
  }

  function PinAfter(pin: Option<Selection>, selection: Selection): Selection {
    if pin.Some? then pin.value else selection
  }

  const ACTIVATED := Move(Active, Some(Succeeded), None, true)

  // The previous active credential retires, the verified one takes over.
  function HandedOver(credentials: map<RevisionId, Credential>, previous: Option<RevisionId>, next: RevisionId)
    : map<RevisionId, Credential>
    requires next in credentials
  {
    var retired :=
      if previous.Some? && previous.value in credentials && credentials[previous.value].state == InUse
      then credentials[previous.value := credentials[previous.value].(state := Retiring)]
      else credentials;
    retired[next := credentials[next].(state := InUse)]
  }

  // The connection and the credentials after the verified credential of `row` took over.
  function TakenOver(db: Db, row: Attempt): Db
    requires db.connection.Some? && row.revision.Some? && row.revision.value in db.credentials
  {
    var c := db.connection.value;
    db.(credentials := HandedOver(db.credentials, c.activeRevision, row.revision.value),
        connection := Some(c.(activeRevision := row.revision, source := Managed, admission := Open, version := c.version + 1)))
  }

  function Activate(db: Db, a: AttemptId, actor: ActorId, version: nat, decrypts: bool, pin: Option<Selection>)
    : (r: Result<Db, SetupError>)
  {
    match Owned(db, a, actor, version)
    case Err(e) => Err(e)
    case Ok(row) =>
      if row.phase != Verified || db.connection.None? || db.connection.value.version != row.expectedVersion then Err(ActivationConflict)
      else if HasUnfinishedCoordination(db, RegistrationOp(a)) then Err(WorkInProgress)
      else if row.revision.None? || row.revision.value !in db.credentials
              || db.credentials[row.revision.value].state != Pending then Err(CredentialUnavailable)
      else if db.credentials[row.revision.value].ciphertext.None? || !decrypts then Err(KeyUnavailable)
      else if PinAfter(pin, SelectionOf(db.connection)) != SelectionOf(db.connection) then Err(RestartRequired)
      else MoveRow(TakenOver(db, row), a, ACTIVATED)
  }

  // Phases in which no token can exist, or whose token is already being withdrawn.
  predicate RevocationRefused(p: Phase) {
    PreDispatch(p) || p.PhaseCancelled? || p.Revoked? || p.RevocationPending?
  }

  predicate IsActiveAttempt(db: Db, row: Attempt) {
    db.connection.Some? && row.revision.Some? && row.revision == db.connection.value.activeRevision
  }

  function Created(operations: map<OperationId, Status>, op: OperationId): map<OperationId, Status> {
    if op in operations then operations else operations[op := Planned]
  }

  function BeginRevoke(db: Db, a: AttemptId, actor: ActorId, version: nat): (r: Result<Db, SetupError>) {
    match Owned(db, a, actor, version)
    case Err(e) => Err(e)
    case Ok(row) =>
      if row.intent.mode == ImportEnv then Err(ImportedTokenPreserved)
      else if RevocationRefused(row.phase) then Err(PhaseConflict)
      else if IsActiveAttempt(db, row) && HasUnfinishedCoordination(db, RegistrationOp(a)) then Err(WorkInProgress)
      else
        match Appended(Created(db.operations, RevocationOp(a)), RevocationOp(a), Some(Dispatching))
        case Err(e) => Err(e)
        case Ok(operations) =>
          Ok(db.(operations := operations,
                 connection := if IsActiveAttempt(db, row) then Some(db.connection.value.(admission := Closed)) else db.connection,
                 attempts := db.attempts[a := row.(revocation := true, phase := RevocationPending, version := row.version + 1)]))
  }

  // Appends every status of `rest` in turn to operation `op`.
  function AppendedAll(operations: map<OperationId, Status>, op: OperationId, rest: seq<Status>)
    : (r: Result<map<OperationId, Status>, SetupError>)
  {
    if rest == [] then Ok(operations)
    else
      match Appended(operations, op, Some(rest[0]))
      case Err(e) => Err(e)
      case Ok(next) => AppendedAll(next, op, rest[1..])
  }

  const REVOCATION_STATUSES := [Running, Operations.Verifying, Succeeded]

  function Withdrawal(credentials: map<RevisionId, Credential>, revision: Option<RevisionId>): map<RevisionId, Credential> {
    if revision.Some? && revision.value in credentials
    then credentials[revision.value := credentials[revision.value].(state := Withdrawn, ciphertext := None)]
    else credentials
  }

  const WITHDRAWN_MOVE := Move(Revoked, None, None, true)

  function FinishRevoke(db: Db, a: AttemptId, actor: ActorId, version: nat): (r: Result<Db, SetupError>) {
    match Owned(db, a, actor, version)
    case Err(e) => Err(e)
    case Ok(row) =>
      if row.phase != RevocationPending || !row.revocation then Err(PhaseConflict)
      else
        match AppendedAll(db.operations, RevocationOp(a), REVOCATION_STATUSES)
        case Err(e) => Err(e)
        case Ok(operations) =>
          if RegistrationOp(a) !in operations then Err(OperationNotFound)
          else
            var failure := if operations[RegistrationOp(a)] == Succeeded then None else Some(Failed);
            MoveRow(db.(operations := operations, credentials := Withdrawal(db.credentials, row.revision)),
                    a, WITHDRAWN_MOVE.(status := failure))
  }

  // ----- admission of mutations

  // The checks of one admission after the process has pinned its selection.
  // `inScope` stands for the feature and target checks of the stored configuration.
  function Admit(db: Db, pin: Option<Selection>, sameCluster: bool, inScope: bool, decrypts: bool): (r: Result<Selection, SetupError>) {
    var selection := SelectionOf(db.connection);
    if PinAfter(pin, selection) != selection then Err(RestartRequired)
    else if db.connection.None? then Ok(selection)
    else if !sameCluster || db.connection.value.admission != Open then Err(AdmissionClosed)
    else if db.connection.value.source == LegacyEnv then Ok(selection)
    else if selection.revision.None? || selection.revision.value !in db.credentials
            || db.credentials[selection.revision.value].state != InUse then Err(CredentialUnavailable)
    else if !inScope then Err(ScopeNotSelected)
    else if db.credentials[selection.revision.value].ciphertext.None? || !decrypts then Err(KeyUnavailable)
    else Ok(selection)
  }

  // Granting the lock of work item `w` under an admitted selection.
  function LockGranted(db: Db, w: WorkId, selection: Selection): Db {
    var before := if w in db.work then db.work[w] else Work(None, None, false, false);
    db.(work := db.work[w := before.(admitted := Some(selection), lockOpen := true)])
  }
}
