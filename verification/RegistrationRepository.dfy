/**
 The repository and the process pins as the program holds them: rows updated in place
 inside one transaction, and rolled back when the transaction fails. Every method is tied
 to the transaction function of `RegistrationRows` that the protocol proofs use.
 */
module RegistrationRepository {
  import opened Wrappers
  import opened Operations
  import Rows = RegistrationRows

  type Engine = nat

  // The selection each database engine of this process was first used with.
  class SelectionPins {
    var pins: map<Engine, Rows.Selection>

    constructor ()
      ensures pins == map[]
    {
      pins := map[];
    }

    function PinOf(engine: Engine): Option<Rows.Selection>
      reads this
    {
      if engine in pins then Some(pins[engine]) else None
    }

    method PinSelection(engine: Engine, connection: Option<Rows.Connection>) returns (r: Result<(), Rows.SetupError>)
      modifies this
      ensures pins == old(pins)[engine := Rows.PinAfter(old(PinOf(engine)), Rows.SelectionOf(connection))]
      ensures r == if pins[engine] == Rows.SelectionOf(connection) then Ok(()) else Err(Rows.RestartRequired)
      ensures engine in old(pins) ==> pins == old(pins)
    {
      var selection := if connection.Some? then Rows.Selection(connection.value.source, connection.value.activeRevision)
                       else Rows.Selection(Rows.LegacyEnv, None);
      if engine !in pins { pins := pins[engine := selection]; }
      var previous := pins[engine];
      if previous != selection { return Err(Rows.RestartRequired); }
      return Ok(());
    }
  }

  class Repository {
    var connection: Option<Rows.Connection>
    var attempts: map<Rows.AttemptId, Rows.Attempt>
    var credentials: map<Rows.RevisionId, Rows.Credential>
    var operations: map<Rows.OperationId, Status>
    var work: map<Rows.WorkId, Rows.Work>

    constructor ()
      ensures View() == Rows.EMPTY_DB
    {
      connection, attempts, credentials, operations, work := None, map[], map[], map[], map[];
    }

    function View(): Rows.Db
      reads this
    {
      Rows.Db(connection, attempts, credentials, operations, work)
    }

    // The unique index over the idempotency digests.
    ghost predicate KeysUnique()
      reads this
    {
      forall a, b :: a in attempts && b in attempts && attempts[a].key == attempts[b].key ==> a == b
    }

    method Rollback(saved: Rows.Db)
      modifies this
      ensures View() == saved
    {
      connection, attempts, credentials, operations, work :=
        saved.connection, saved.attempts, saved.credentials, saved.operations, saved.work;
    }

    method Owned(a: Rows.AttemptId, actor: Rows.ActorId, version: nat) returns (r: Result<Rows.Attempt, Rows.SetupError>)
      ensures r == Rows.Owned(View(), a, actor, version)
    {
      if a !in attempts || attempts[a].actor != actor { return Err(Rows.AttemptNotFound); }
      if attempts[a].version != version { return Err(Rows.VersionConflict); }
      return Ok(attempts[a]);
    }

    // Appends one event to the ledger of `op`; without a status it is no transition.
    method AppendInSession(op: Rows.OperationId, next: Option<Status>) returns (r: Result<(), Rows.SetupError>)
      modifies this`operations
      ensures match Rows.Appended(old(operations), op, next)
              case Ok(now) => r == Ok(()) && operations == now
              case Err(e) => r == Err(e) && operations == old(operations)
    {
      if op !in operations { return Err(Rows.OperationNotFound); }
      if next.Some? {
        if !TransitionAllowed(operations[op], next.value) { return Err(Rows.TransitionRefused); }
        operations := operations[op := next.value];
      }
      return Ok(());
    }

    method MoveRow(a: Rows.AttemptId, move: Rows.Move) returns (r: Result<(), Rows.SetupError>)
      requires a in attempts
      modifies this`operations, this`attempts
      ensures match Rows.MoveRow(old(View()), a, move)
              case Ok(db) => r == Ok(()) && View() == db
              case Err(e) => r == Err(e) && View() == old(View())
    {
      r := AppendInSession(Rows.RegistrationOp(a), move.status);
      if r.Err? { return; }
      var row := attempts[a];
      row := row.(phase := move.phase);
      row := row.(resolved := move.resolved);
      row := row.(version := row.version + 1);
      if move.planDigest.Some? { row := row.(planDigest := move.planDigest); }
      attempts := attempts[a := row];
    }

    method Prepare(request: Rows.Request, keyAvailable: bool, newId: Rows.AttemptId) returns (r: Result<Rows.AttemptId, Rows.SetupError>)
      requires KeysUnique()
      modifies this
      ensures match Rows.Prepare(old(View()), request, keyAvailable, newId)
              case Ok(registered) => r == Ok(registered.attempt) && View() == registered.db
              case Err(e) => r == Err(e) && View() == old(View())
      ensures KeysUnique()
    {
      if !(8 <= request.keyLength <= 160) { return Err(Rows.InvalidInput); }
      if !request.admin || request.actor == "" { return Err(Rows.AdminRequired); }
      if !keyAvailable { return Err(Rows.KeyUnavailable); }
      var saved := View();
      if connection.None? {
        connection := Some(Rows.FirstConnection(request.installation, request.cluster));
      }
      if connection.value.installation != request.installation || connection.value.cluster != request.cluster {
        Rollback(saved);
        return Err(Rows.IdentityConflict);
      }
      var same := set a | a in attempts && attempts[a].key == request.key;
      assert same == Rows.SameKey(saved, request.key);
      if same != {} {
        var existing :| existing in same;
        assert forall a :: a in same ==> a == existing;
        connection := saved.connection;
        if attempts[existing].intent != request.intent || attempts[existing].actor != request.actor {
          return Err(Rows.IdempotencyConflict);
        }
        return Ok(existing);
      }
      var pending := set a | a in attempts && !attempts[a].resolved;
      assert pending == Rows.Unresolved(saved);
      if pending != {} || newId in attempts || Rows.RegistrationOp(newId) in operations {
        Rollback(saved);
        return Err(if pending != {} then Rows.UnresolvedAttempt else Rows.DuplicateIdentity);
      }
      operations := operations[Rows.RegistrationOp(newId) := Planned];
      attempts := attempts[newId := Rows.NewAttempt(request, connection.value.version)];
      assert forall a :: a in saved.attempts ==> a !in same;
      return Ok(newId);
    }

    method Advance(a: Rows.AttemptId, actor: Rows.ActorId, version: nat, expected: set<Rows.Phase>, move: Rows.Move)
      returns (r: Result<(), Rows.SetupError>)
      modifies this
      ensures match Rows.Advance(old(View()), a, actor, version, expected, move)
              case Ok(db) => r == Ok(()) && View() == db
              case Err(e) => r == Err(e) && View() == old(View())
    {
      var owned := Owned(a, actor, version);
      if owned.Err? { return Err(owned.error); }
      if owned.value.phase !in expected || owned.value.resolved { return Err(Rows.PhaseConflict); }
      r := MoveRow(a, move);
    }

    method StageSecret(a: Rows.AttemptId, actor: Rows.ActorId, version: nat,
                       ciphertext: string, tokenId: string, keyAvailable: bool, newId: Rows.RevisionId)
      returns (r: Result<(), Rows.SetupError>)
      modifies this
      ensures match Rows.StageSecret(old(View()), a, actor, version, ciphertext, tokenId, keyAvailable, newId)
              case Ok(db) => r == Ok(()) && View() == db
              case Err(e) => r == Err(e) && View() == old(View())
    {
      if !keyAvailable { return Err(Rows.KeyUnavailable); }
      var owned := Owned(a, actor, version);
      if owned.Err? { return Err(owned.error); }
      var row := owned.value;
      if !(row.phase.TokenDispatching? || row.phase.ImportStaging?) || row.revision.Some? { return Err(Rows.PhaseConflict); }
      if !Rows.TokenIdMatches(row, a, tokenId) { return Err(Rows.TokenIdConflict); }
      if newId in credentials { return Err(Rows.DuplicateIdentity); }
      var saved := View();
      credentials := credentials[newId := Rows.Credential(Rows.Pending, tokenId, Some(ciphertext))];
      attempts := attempts[a := row.(revision := Some(newId))];
      r := MoveRow(a, Rows.STAGED);
      if r.Err? { Rollback(saved); }
    }

    method Activate(pins: SelectionPins, engine: Engine, a: Rows.AttemptId, actor: Rows.ActorId, version: nat, decrypts: bool)
      returns (r: Result<(), Rows.SetupError>)
      modifies this, pins
      ensures match Rows.Activate(old(View()), a, actor, version, decrypts, old(pins.PinOf(engine)))
              case Ok(db) => r == Ok(()) && View() == db
              case Err(e) => r == Err(e) && View() == old(View())
      ensures r.Ok? ==> pins.pins == old(pins.pins)[engine := Rows.SelectionOf(old(connection))]
    {
      var owned := Owned(a, actor, version);
      if owned.Err? { return Err(owned.error); }
      var row := owned.value;
      if row.phase != Rows.Verified || connection.None? || connection.value.version != row.expectedVersion {
        return Err(Rows.ActivationConflict);
      }
      if Rows.HasUnfinishedCoordination(View(), Rows.RegistrationOp(a)) { return Err(Rows.WorkInProgress); }
      if row.revision.None? || row.revision.value !in credentials || credentials[row.revision.value].state != Rows.Pending {
        return Err(Rows.CredentialUnavailable);
      }
      if credentials[row.revision.value].ciphertext.None? || !decrypts { return Err(Rows.KeyUnavailable); }
      r := pins.PinSelection(engine, connection);
      if r.Err? { return; }
      var saved := View();
      var previous := connection.value.activeRevision;
      if previous.Some? && previous.value in credentials && credentials[previous.value].state == Rows.InUse {
        credentials := credentials[previous.value := credentials[previous.value].(state := Rows.Retiring)];
      }
      var next := row.revision.value;
      credentials := credentials[next := credentials[next].(state := Rows.InUse)];
      connection := Some(connection.value.(
        activeRevision := row.revision, source := Rows.Managed, admission := Rows.Open, version := connection.value.version + 1));
      assert View() == Rows.TakenOver(saved, row);
      r := MoveRow(a, Rows.ACTIVATED);
      if r.Err? { Rollback(saved); }
    }

    method BeginRevoke(a: Rows.AttemptId, actor: Rows.ActorId, version: nat) returns (r: Result<(), Rows.SetupError>)
      modifies this
      ensures match Rows.BeginRevoke(old(View()), a, actor, version)
              case Ok(db) => r == Ok(()) && View() == db
              case Err(e) => r == Err(e) && View() == old(View())
    {
      var owned := Owned(a, actor, version);
      if owned.Err? { return Err(owned.error); }
      var row := owned.value;
      if row.intent.mode == Rows.ImportEnv { return Err(Rows.ImportedTokenPreserved); }
      if Rows.RevocationRefused(row.phase) { return Err(Rows.PhaseConflict); }
      var saved := View();
      if Rows.IsActiveAttempt(saved, row) {
        if Rows.HasUnfinishedCoordination(saved, Rows.RegistrationOp(a)) { return Err(Rows.WorkInProgress); }
        connection := Some(connection.value.(admission := Rows.Closed));
      }
      var op := Rows.RevocationOp(a);
      if op !in operations { operations := operations[op := Planned]; }
      r := AppendInSession(op, Some(Dispatching));
      if r.Err? { Rollback(saved); return; }
      row := row.(revocation := true);
      row := row.(phase := Rows.RevocationPending);
      row := row.(version := row.version + 1);
      attempts := attempts[a := row];
    }

    method FinishRevoke(a: Rows.AttemptId, actor: Rows.ActorId, version: nat) returns (r: Result<(), Rows.SetupError>)
      modifies this
      ensures match Rows.FinishRevoke(old(View()), a, actor, version)
              case Ok(db) => r == Ok(()) && View() == db
              case Err(e) => r == Err(e) && View() == old(View())
    {
      var owned := Owned(a, actor, version);
      if owned.Err? { return Err(owned.error); }
      var row := owned.value;
      if row.phase != Rows.RevocationPending || !row.revocation { return Err(Rows.PhaseConflict); }
      var saved := View();
      var op := Rows.RevocationOp(a);
      ghost var all := Rows.AppendedAll(saved.operations, op, Rows.REVOCATION_STATUSES);
      var i := 0;
      while i < |Rows.REVOCATION_STATUSES|
        invariant 0 <= i <= |Rows.REVOCATION_STATUSES|
        invariant View() == saved.(operations := operations)
        invariant Rows.AppendedAll(operations, op, Rows.REVOCATION_STATUSES[i..]) == all
      {
        r := AppendInSession(op, Some(Rows.REVOCATION_STATUSES[i]));
        assert Rows.REVOCATION_STATUSES[i..][1..] == Rows.REVOCATION_STATUSES[i + 1..];
        if r.Err? { Rollback(saved); return; }
        i := i + 1;
      }
      assert all == Ok(operations);
      if row.revision.Some? && row.revision.value in credentials {
        var withdrawn := credentials[row.revision.value].(state := Rows.Withdrawn);
        withdrawn := withdrawn.(ciphertext := None);
        credentials := credentials[row.revision.value := withdrawn];
      }
      if Rows.RegistrationOp(a) !in operations { Rollback(saved); return Err(Rows.OperationNotFound); }
      var failure := if operations[Rows.RegistrationOp(a)] == Succeeded then None else Some(Failed);
      r := MoveRow(a, Rows.WITHDRAWN_MOVE.(status := failure));
      if r.Err? { Rollback(saved); }
    }

    // The admission of one mutation, up to the grant of its lock.
    method AdmitMutation(pins: SelectionPins, engine: Engine, w: Rows.WorkId, sameCluster: bool, inScope: bool, decrypts: bool)
      returns (r: Result<(), Rows.SetupError>)
      modifies this, pins
      ensures pins.pins == old(pins.pins)[engine := Rows.PinAfter(old(pins.PinOf(engine)), Rows.SelectionOf(old(connection)))]
      ensures match Rows.Admit(old(View()), old(pins.PinOf(engine)), sameCluster, inScope, decrypts)
              case Ok(selection) => r == Ok(()) && View() == Rows.LockGranted(old(View()), w, selection)
              case Err(e) => r == Err(e) && View() == old(View())
    {
      r := pins.PinSelection(engine, connection);
      if r.Err? { return; }
      var selection := Rows.SelectionOf(connection);
      if connection.Some? {
        if !sameCluster || connection.value.admission != Rows.Open { return Err(Rows.AdmissionClosed); }
        if connection.value.source == Rows.Managed {
          var revision := connection.value.activeRevision;
          if revision.None? || revision.value !in credentials || credentials[revision.value].state != Rows.InUse {
            return Err(Rows.CredentialUnavailable);
          }
          if !inScope { return Err(Rows.ScopeNotSelected); }
          if credentials[revision.value].ciphertext.None? || !decrypts { return Err(Rows.KeyUnavailable); }
        }
      }
      var before := if w in work then work[w] else Rows.Work(None, None, false, false);
      work := work[w := before.(admitted := Some(selection), lockOpen := true)];
    }
  }
}
