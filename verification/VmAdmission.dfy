/**
 Admission of a mutation of one or two virtual machines.

 One transaction looks the operation up, takes the locks of its targets in ascending order,
 looks the operation up again, creates it and claims its recovery lease.
 */
module VmAdmission {
  import opened Wrappers

  type OperationId = string
  type LockId = string
  type Token = string

  datatype Key = Key(cluster: string, vmid: int)

  // Operations of this admission never share an identity with owners elsewhere.
  datatype Owner = ForOperation(op: OperationId) | Elsewhere(name: string)

  datatype Lock = Lock(key: Key, owner: Owner, isOpen: bool)

  datatype Reference = Reference(lock: LockId, vmid: int)

  // `scope` stands for operation type, target and idempotency key, which are unique together.
  datatype Operation = Operation(scope: string, digest: string, references: seq<Reference>)

  // `busy` says that the lease is live or the recovery completed.
  datatype Recovery = Recovery(kind: string, busy: bool, generation: nat, token: Token)

  datatype Db = Db(operations: map<OperationId, Operation>, locks: map<LockId, Lock>, recoveries: map<OperationId, Recovery>)

  datatype Spec = Spec(op: OperationId, operationType: string, scope: string, digest: string, source: Option<int>)

  datatype AdmissionError = InvalidScope | IntentConflict | Busy | LeaseConflict

  datatype Outcome = Replayed | Granted(token: Token, references: seq<Reference>)

  // ----- what is asked for

  function ExpectedLockCount(operationType: string): nat {
    if operationType == "vm_clone" || operationType == "vm_restore" then 2 else 1
  }

  predicate ScopeRefused(spec: Spec, vmid: int, related: seq<int>) {
    || (related != [] && (ExpectedLockCount(spec.operationType) != 2 || |related| != 1 || related[0] == vmid
                          || spec.source != Some(related[0])))
    || (ExpectedLockCount(spec.operationType) == 2 && |related| != 1)
  }

  // A scope is accepted exactly when a clone or a restore names its distinct source and any
  // other operation names none.
  lemma AcceptedScopes(spec: Spec, vmid: int, related: seq<int>)
    ensures !ScopeRefused(spec, vmid, related) <==>
      if spec.operationType == "vm_clone" || spec.operationType == "vm_restore"
      then exists source :: related == [source] && source != vmid && spec.source == Some(source)
      else related == []
  {
    if |related| == 1 { assert related == [related[0]]; }
  }

  predicate Ascending(xs: seq<int>) {
    forall i, j :: 0 <= i < j < |xs| ==> xs[i] < xs[j]
  }

  // Puts `x` into an ascending sequence unless it is there already.
  function Placed(x: int, xs: seq<int>): (r: seq<int>)
    requires Ascending(xs)
    ensures Ascending(r)
    ensures forall y :: y in r <==> y == x || y in xs
  {
    if xs == [] then [x]
    else if x == xs[0] then xs
    else if x < xs[0] then [x] + xs
    else
      var rest := Placed(x, xs[1..]);
      assert forall k :: 0 <= k < |rest| ==> rest[k] in rest && (rest[k] == x || rest[k] in xs[1..]);
      [xs[0]] + rest
  }

  function Targets(vmid: int, related: seq<int>): (r: seq<int>)
    ensures Ascending(r)
    ensures forall t :: t in r <==> t == vmid || t in related
  {
    if related == [] then [vmid] else Placed(related[0], Targets(vmid, related[1..]))
  }

  // ----- the transaction, part by part

  ghost predicate OpenAt(db: Db, key: Key) {
    exists l :: l in db.locks && db.locks[l].isOpen && db.locks[l].key == key
  }

  function OpenLocks(db: Db): map<LockId, Lock> {
    map l | l in db.locks && db.locks[l].isOpen :: db.locks[l]
  }

  predicate KeyTaken(db: Db, key: Key)
    ensures KeyTaken(db, key) <==> OpenAt(db, key)
  {
    var at := set l | l in db.locks && db.locks[l].isOpen && db.locks[l].key == key;
    assert at != {} <==> OpenAt(db, key) by {
      if l :| l in db.locks && db.locks[l].isOpen && db.locks[l].key == key { assert l in at; }
    }
    at != {}
  }

  // Whether the connection and the host let the target be changed now.
  datatype Grounds = Grounds(admitted: bool, hostFree: bool)

  // Inserts one lock row; the unique indexes refuse a second open lock on the key.
  function Inserted(db: Db, l: LockId, key: Key, owner: Owner, grounds: Grounds): (r: Result<Db, AdmissionError>) {
    if !grounds.admitted || !grounds.hostFree || KeyTaken(db, key) || l in db.locks then Err(Busy)
    else Ok(db.(locks := db.locks[l := Lock(key, owner, true)]))
  }

  function ReleasedAll(locks: map<LockId, Lock>, references: seq<Reference>): map<LockId, Lock> {
    map l | l in locks ::
      if exists k :: 0 <= k < |references| && references[k].lock == l then locks[l].(isOpen := false) else locks[l]
  }

  predicate ScopeTaken(db: Db, scope: string) {
    exists op :: op in db.operations && db.operations[op].scope == scope
  }

  function Claimed(db: Db, op: OperationId, kind: string, token: Token): (r: Result<Db, AdmissionError>) {
    if op !in db.operations then Err(LeaseConflict)
    else if op !in db.recoveries then Ok(db.(recoveries := db.recoveries[op := Recovery(kind, true, 1, token)]))
    else if db.recoveries[op].kind != kind || db.recoveries[op].busy then Err(LeaseConflict)
    else Ok(db.(recoveries := db.recoveries[op := Recovery(kind, true, db.recoveries[op].generation + 1, token)]))
  }

  datatype Ended = Ended(db: Db, outcome: Outcome)

  // The second lookup, and what follows it, once all locks are held.
  function Concluded(db: Db, spec: Spec, kind: string, references: seq<Reference>, token: Token): (r: Result<Ended, AdmissionError>) {
    if spec.op in db.operations then
      if db.operations[spec.op].digest != spec.digest then Err(IntentConflict)
      else Ok(Ended(db.(locks := ReleasedAll(db.locks, references)), Replayed))
    else if ScopeTaken(db, spec.scope) then Err(IntentConflict)
    else
      var created := db.(operations := db.operations[spec.op := Operation(spec.scope, spec.digest, references)]);
      match Claimed(created, spec.op, kind, token)
      case Err(e) => Err(e)
      case Ok(claimed) => Ok(Ended(claimed, Granted(token, references)))
  }

  datatype Taken = Taken(db: Db, references: seq<Reference>)

  // Takes the locks of all targets in turn.
  function AcquiredAll(db: Db, spec: Spec, cluster: string, targets: seq<int>, ids: int -> LockId, grounds: int -> Grounds)
    : (r: Result<Taken, AdmissionError>)
    decreases |targets|
  {
    if targets == [] then Ok(Taken(db, []))
    else
      var n := |targets| - 1;
      var t := targets[n];
      match AcquiredAll(db, spec, cluster, targets[..n], ids, grounds)
      case Err(e) => Err(e)
      case Ok(before) =>
        match Inserted(before.db, ids(t), Key(cluster, t), ForOperation(spec.op), grounds(t))
        case Err(e) => Err(e)
        case Ok(after) => Ok(Taken(after, before.references + [Reference(ids(t), t)]))
  }

  // The whole call; `first` is what the first lookup finds.
  function Prepared(db: Db, first: Option<Operation>, spec: Spec, kind: string, cluster: string, vmid: int, related: seq<int>,
                    ids: int -> LockId, grounds: int -> Grounds, token: Token) : (r: Result<Ended, AdmissionError>)
  {
    if ScopeRefused(spec, vmid, related) then Err(InvalidScope)
    else if first.Some? then
      if first.value.digest != spec.digest then Err(IntentConflict) else Ok(Ended(db, Replayed))
    else
      match AcquiredAll(db, spec, cluster, Targets(vmid, related), ids, grounds)
      case Err(e) => Err(e)
      case Ok(taken) => Concluded(taken.db, spec, kind, taken.references, token)
  }

  /** The database session of the admission, with the rows its transaction sees and writes. */
  class Session {
    var operations: map<OperationId, Operation>
    var locks: map<LockId, Lock>
    var recoveries: map<OperationId, Recovery>

    constructor (db: Db)
      ensures View() == db
    {
      operations, locks, recoveries := db.operations, db.locks, db.recoveries;
    }

    function View(): Db
      reads this
    {
      Db(operations, locks, recoveries)
    }

    method Acquire(l: LockId, key: Key, owner: Owner, grounds: Grounds) returns (r: Result<(), AdmissionError>)
      modifies this`locks
      ensures match Inserted(old(View()), l, key, owner, grounds)
              case Ok(db) => r.Ok? && View() == db
              case Err(e) => r == Err(e) && View() == old(View())
    {
      if KeyTaken(View(), key) { return Err(Busy); }
      if !grounds.admitted { return Err(Busy); }
      if !grounds.hostFree { return Err(Busy); }
      if l in locks { return Err(Busy); }
      locks := locks[l := Lock(key, owner, true)];
      return Ok(());
    }

    method ReleaseAll(references: seq<Reference>)
      modifies this`locks
      ensures View() == old(View()).(locks := ReleasedAll(old(locks), references))
    {
      var i := 0;
      assert locks == ReleasedAll(old(locks), references[..0]);
      while i < |references|
        invariant 0 <= i <= |references|
        invariant locks == ReleasedAll(old(locks), references[..i])
      {
        var l := references[i].lock;
        if l in locks { locks := locks[l := locks[l].(isOpen := false)]; }
        ReleasedOneMore(old(locks), references, i);
        i := i + 1;
      }
      assert references[..|references|] == references;
    }

    method Claim(op: OperationId, kind: string, token: Token) returns (r: Result<(), AdmissionError>)
      modifies this`recoveries
      ensures match Claimed(old(View()), op, kind, token)
              case Ok(db) => r.Ok? && View() == db
              case Err(e) => r == Err(e) && View() == old(View())
    {
      if op !in operations { return Err(LeaseConflict); }
      var generation := 1;
      if op in recoveries {
        var row := recoveries[op];
        if row.kind != kind || row.busy { return Err(LeaseConflict); }
        generation := row.generation + 1;
      }
      recoveries := recoveries[op := Recovery(kind, true, generation, token)];
      return Ok(());
    }

    // Leaves the session as it found it.
    method Rollback(before: Db)
      modifies this
      ensures View() == before
    {
      operations, locks, recoveries := before.operations, before.locks, before.recoveries;
    }

    method Prepare(first: Option<Operation>, spec: Spec, kind: string, cluster: string, vmid: int, related: seq<int>,
                   ids: int -> LockId, grounds: int -> Grounds, token: Token) returns (r: Result<Outcome, AdmissionError>)
      modifies this
      ensures match Prepared(old(View()), first, spec, kind, cluster, vmid, related, ids, grounds, token)
              case Ok(ended) => r == Ok(ended.outcome) && View() == ended.db
              case Err(e) => r == Err(e) && View() == old(View())
    {
      if ScopeRefused(spec, vmid, related) { return Err(InvalidScope); }
      if first.Some? {
        if first.value.digest != spec.digest { return Err(IntentConflict); }
        return Ok(Replayed);
      }
      var before := View();
      var targets := Targets(vmid, related);
      var references: seq<Reference> := [];
      var i := 0;
      assert targets[..0] == [];
      while i < |targets|
        invariant 0 <= i <= |targets|
        invariant AcquiredAll(old(View()), spec, cluster, targets[..i], ids, grounds) == Ok(Taken(View(), references))
      {
        var t := targets[i];
        assert targets[..i + 1][..i] == targets[..i];
        var held := Acquire(ids(t), Key(cluster, t), ForOperation(spec.op), grounds(t));
        if held.Err? {
          AcquisitionFails(before, spec, cluster, targets, i + 1, ids, grounds);
          Rollback(before);
          return Err(held.error);
        }
        references := references + [Reference(ids(t), t)];
        i := i + 1;
      }
      assert targets[..|targets|] == targets;
      if spec.op in operations {
        if operations[spec.op].digest != spec.digest {
          Rollback(before);
          return Err(IntentConflict);
        }
        ReleaseAll(references);
        return Ok(Replayed);
      }
      if ScopeTaken(View(), spec.scope) {
        Rollback(before);
        return Err(IntentConflict);
      }
      operations := operations[spec.op := Operation(spec.scope, spec.digest, references)];
      var claimed := Claim(spec.op, kind, token);
      if claimed.Err? {
        Rollback(before);
        return Err(claimed.error);
      }
      return Ok(Granted(token, references));
    }
  }

  lemma ReleasedOneMore(locks: map<LockId, Lock>, references: seq<Reference>, i: nat)
    requires i < |references|
    ensures var now, l := ReleasedAll(locks, references[..i]), references[i].lock;
            ReleasedAll(locks, references[..i + 1]) == if l in now then now[l := now[l].(isOpen := false)] else now
  {
    var shorter, longer := references[..i], references[..i + 1];
    assert longer == shorter + [references[i]];
    forall l | l in locks
      ensures (exists k :: 0 <= k < |longer| && longer[k].lock == l)
              <==> (exists k :: 0 <= k < |shorter| && shorter[k].lock == l) || references[i].lock == l
    {
      if references[i].lock == l { assert longer[i].lock == l; }
      if k :| 0 <= k < |shorter| && shorter[k].lock == l { assert longer[k].lock == l; }
    }
  }

  // Once one target cannot be locked, the acquisition fails for all of them.
  lemma {:induction false} AcquisitionFails(db: Db, spec: Spec, cluster: string, targets: seq<int>, i: nat,
                                            ids: int -> LockId, grounds: int -> Grounds)
    requires i <= |targets| && AcquiredAll(db, spec, cluster, targets[..i], ids, grounds).Err?
    ensures AcquiredAll(db, spec, cluster, targets, ids, grounds) == AcquiredAll(db, spec, cluster, targets[..i], ids, grounds)
    decreases |targets| - i
  {
    if i == |targets| {
      assert targets[..i] == targets;
    } else {
      assert targets[..i + 1][..i] == targets[..i];
      AcquisitionFails(db, spec, cluster, targets, i + 1, ids, grounds);
    }
  }

  // ----- when a call is granted

  ghost predicate Free(db: Db, cluster: string, t: int, ids: int -> LockId, grounds: int -> Grounds) {
    grounds(t).admitted && grounds(t).hostFree && !OpenAt(db, Key(cluster, t)) && ids(t) !in db.locks
  }

  ghost predicate AllFree(db: Db, cluster: string, targets: seq<int>, ids: int -> LockId, grounds: int -> Grounds) {
    && (forall k :: 0 <= k < |targets| ==> Free(db, cluster, targets[k], ids, grounds))
    && (forall j, k :: 0 <= j < k < |targets| ==> ids(targets[j]) != ids(targets[k]))
  }

  // Rows and references after all targets were locked.
  ghost predicate LockedFor(db: Db, db': Db, op: OperationId, cluster: string, targets: seq<int>, ids: int -> LockId,
                            references: seq<Reference>)
  {
    && db' == db.(locks := db'.locks)
    && |references| == |targets|
    && (forall k :: 0 <= k < |targets| ==>
          && references[k] == Reference(ids(targets[k]), targets[k])
          && ids(targets[k]) in db'.locks
          && db'.locks[ids(targets[k])] == Lock(Key(cluster, targets[k]), ForOperation(op), true))
    && (forall l :: l in db.locks ==> l in db'.locks && db'.locks[l] == db.locks[l])
    && (forall l :: l in db'.locks && l !in db.locks ==> exists k :: 0 <= k < |targets| && ids(targets[k]) == l)
  }

  lemma {:induction false} AcquiredExactlyWhenFree(db: Db, spec: Spec, cluster: string, targets: seq<int>,
                                                   ids: int -> LockId, grounds: int -> Grounds)
    requires Ascending(targets)
    ensures var r := AcquiredAll(db, spec, cluster, targets, ids, grounds);
            && (r.Ok? <==> AllFree(db, cluster, targets, ids, grounds))
            && (r.Ok? ==> LockedFor(db, r.value.db, spec.op, cluster, targets, ids, r.value.references))
            && (r.Err? ==> r.error == Busy)
    decreases |targets|
  {
    if targets != [] {
      var n := |targets| - 1;
      var init, t := targets[..n], targets[n];
      AcquiredExactlyWhenFree(db, spec, cluster, init, ids, grounds);
      AllFreeExtends(db, cluster, targets, ids, grounds);
      var r := AcquiredAll(db, spec, cluster, init, ids, grounds);
      if r.Ok? {
        OneMoreFree(db, r.value.db, spec.op, cluster, init, ids, grounds, r.value.references, t);
        if Inserted(r.value.db, ids(t), Key(cluster, t), ForOperation(spec.op), grounds(t)).Ok? {
          LockedForOneMore(db, r.value.db, spec.op, cluster, targets, ids, r.value.references);
        }
      }
      hide LockedFor, AllFree;
    }
  }

  lemma AllFreeExtends(db: Db, cluster: string, targets: seq<int>, ids: int -> LockId, grounds: int -> Grounds)
    requires targets != []
    ensures var n := |targets| - 1;
            AllFree(db, cluster, targets, ids, grounds)
            <==> && AllFree(db, cluster, targets[..n], ids, grounds)
                 && Free(db, cluster, targets[n], ids, grounds)
                 && forall k :: 0 <= k < n ==> ids(targets[k]) != ids(targets[n])
  {
    var n := |targets| - 1;
    var init := targets[..n];
    assert forall k :: 0 <= k < n ==> init[k] == targets[k];
    hide Free;
  }

  lemma OneMoreFree(db: Db, db': Db, op: OperationId, cluster: string, init: seq<int>, ids: int -> LockId,
                    grounds: int -> Grounds, references: seq<Reference>, t: int)
    requires LockedFor(db, db', op, cluster, init, ids, references)
    requires forall k :: 0 <= k < |init| ==> init[k] != t
    ensures Inserted(db', ids(t), Key(cluster, t), ForOperation(op), grounds(t)).Ok?
            <==> Free(db, cluster, t, ids, grounds) && forall k :: 0 <= k < |init| ==> ids(init[k]) != ids(t)
  {
    assert OpenAt(db', Key(cluster, t)) <==> OpenAt(db, Key(cluster, t)) by {
      if l :| l in db'.locks && db'.locks[l].isOpen && db'.locks[l].key == Key(cluster, t) {
        assert l in db.locks && db.locks[l] == db'.locks[l];
      }
      if l :| l in db.locks && db.locks[l].isOpen && db.locks[l].key == Key(cluster, t) {
        assert l in db'.locks && db.locks[l] == db'.locks[l];
      }
    }
    hide OpenAt;
  }

  lemma LockedForOneMore(db: Db, db': Db, op: OperationId, cluster: string, targets: seq<int>, ids: int -> LockId,
                         references: seq<Reference>)
    requires targets != [] && LockedFor(db, db', op, cluster, targets[..|targets| - 1], ids, references)
    requires ids(targets[|targets| - 1]) !in db'.locks
    ensures var t := targets[|targets| - 1];
            LockedFor(db, db'.(locks := db'.locks[ids(t) := Lock(Key(cluster, t), ForOperation(op), true)]), op, cluster, targets, ids,
                      references + [Reference(ids(t), t)])
  {
    var n := |targets| - 1;
    var init, t := targets[..n], targets[n];
    assert forall k :: 0 <= k < n ==> init[k] == targets[k];
    var after := db'.(locks := db'.locks[ids(t) := Lock(Key(cluster, t), ForOperation(op), true)]);
    forall l | l in after.locks && l !in db.locks ensures exists k :: 0 <= k < |targets| && ids(targets[k]) == l {
      if l in db'.locks {
        var k :| 0 <= k < |init| && ids(init[k]) == l;
        assert ids(targets[k]) == l;
      } else {
        assert ids(targets[n]) == l;
      }
    }
  }

  predicate TwoMachines(operationType: string) {
    operationType == "vm_clone" || operationType == "vm_restore"
  }

  // A clone or a restore names its one distinct source, any other operation none.
  ghost predicate ScopeAccepted(spec: Spec, vmid: int, related: seq<int>) {
    if TwoMachines(spec.operationType)
    then spec.source.Some? && spec.source.value != vmid && related == [spec.source.value]
    else related == []
  }

  ghost predicate ScopeFree(db: Db, scope: string) {
    forall op :: op in db.operations ==> db.operations[op].scope != scope
  }

  lemma RefusedOrAccepted(spec: Spec, vmid: int, related: seq<int>)
    ensures ScopeRefused(spec, vmid, related) <==> !ScopeAccepted(spec, vmid, related)
  {
    AcceptedScopes(spec, vmid, related);
  }

  // A call is granted a lease exactly when its scope is accepted, its operation and its
  // idempotency scope are new and every target is free; what it then writes is stated in full.
  lemma GrantedExactlyWhen(db: Db, first: Option<Operation>, spec: Spec, kind: string, cluster: string, vmid: int,
                           related: seq<int>, ids: int -> LockId, grounds: int -> Grounds, token: Token)
    requires first.Some? ==> spec.op in db.operations
    requires db.recoveries.Keys <= db.operations.Keys
    ensures var r := Prepared(db, first, spec, kind, cluster, vmid, related, ids, grounds, token);
            var targets := Targets(vmid, related);
            && (r.Ok? && r.value.outcome.Granted? <==>
                  && ScopeAccepted(spec, vmid, related) && spec.op !in db.operations && ScopeFree(db, spec.scope)
                  && AllFree(db, cluster, targets, ids, grounds))
            && (r.Ok? && r.value.outcome.Granted? ==>
                  && r.value.outcome.token == token
                  && r.value.db.recoveries == db.recoveries[spec.op := Recovery(kind, true, 1, token)]
                  && r.value.db.operations == db.operations[spec.op := Operation(spec.scope, spec.digest, r.value.outcome.references)]
                  && LockedFor(db, db.(locks := r.value.db.locks), spec.op, cluster, targets, ids, r.value.outcome.references))
  {
    var targets := Targets(vmid, related);
    RefusedOrAccepted(spec, vmid, related);
    AcquiredExactlyWhenFree(db, spec, cluster, targets, ids, grounds);
    var r := AcquiredAll(db, spec, cluster, targets, ids, grounds);
    assert r.Ok? ==> r.value.db == db.(locks := r.value.db.locks);
    hide AcquiredAll, AllFree, LockedFor, ReleasedAll, Targets, ScopeRefused;
  }

  // Otherwise: a refused scope; a replay, if the operation is known with the same intent; a
  // conflict, if it is known with another one or its idempotency scope is taken; or a busy target.
  // Nothing but rows of released locks is left behind.
  lemma NotGranted(db: Db, first: Option<Operation>, spec: Spec, kind: string, cluster: string, vmid: int,
                   related: seq<int>, ids: int -> LockId, grounds: int -> Grounds, token: Token)
    requires first.Some? ==> spec.op in db.operations
    requires db.recoveries.Keys <= db.operations.Keys
    ensures var r := Prepared(db, first, spec, kind, cluster, vmid, related, ids, grounds, token);
            var free := AllFree(db, cluster, Targets(vmid, related), ids, grounds);
            var known := if first.Some? then first else if spec.op in db.operations then Some(db.operations[spec.op]) else None;
            && (r == Err(InvalidScope) <==> !ScopeAccepted(spec, vmid, related))
            && (r == Err(Busy) <==> ScopeAccepted(spec, vmid, related) && first.None? && !free)
            && (ScopeAccepted(spec, vmid, related) && (first.Some? || free) && known.Some? ==>
                  if known.value.digest == spec.digest
                  then r.Ok? && r.value.outcome == Replayed && OpenLocks(r.value.db) == OpenLocks(db)
                       && r.value.db.operations == db.operations && r.value.db.recoveries == db.recoveries
                  else r == Err(IntentConflict))
            && (ScopeAccepted(spec, vmid, related) && free && known.None? && !ScopeFree(db, spec.scope) ==> r == Err(IntentConflict))
  {
    var targets := Targets(vmid, related);
    RefusedOrAccepted(spec, vmid, related);
    AcquiredExactlyWhenFree(db, spec, cluster, targets, ids, grounds);
    var r := AcquiredAll(db, spec, cluster, targets, ids, grounds);
    if r.Ok? {
      ReleaseUndoes(db, r.value.db, spec.op, cluster, targets, ids, r.value.references);
      assert r.value.db == db.(locks := r.value.db.locks);
    }
    hide AcquiredAll, AllFree, LockedFor, ReleasedAll, Targets, OpenLocks, ScopeRefused, Claimed;
  }

  // Releasing what was taken leaves the open locks as they were.
  lemma ReleaseUndoes(db: Db, db': Db, op: OperationId, cluster: string, targets: seq<int>, ids: int -> LockId, references: seq<Reference>)
    requires LockedFor(db, db', op, cluster, targets, ids, references)
    requires forall k :: 0 <= k < |targets| ==> ids(targets[k]) !in db.locks
    ensures OpenLocks(db'.(locks := ReleasedAll(db'.locks, references))) == OpenLocks(db)
  {
    var released := ReleasedAll(db'.locks, references);
    forall l | l in db'.locks && l !in db.locks ensures !released[l].isOpen {
      var k :| 0 <= k < |targets| && ids(targets[k]) == l;
      assert references[k].lock == l;
    }
    forall l | l in db.locks ensures released[l] == db.locks[l] {
    }
  }

  // ----- leases

  // A recovery is claimed exactly when its operation is known and it was never claimed, or was
  // claimed as the same kind and is not busy now; the claim is the next generation and is busy.
  lemma ClaimedExactlyWhen(db: Db, op: OperationId, kind: string, token: Token)
    ensures var r := Claimed(db, op, kind, token);
            && (r.Ok? <==> op in db.operations && (op in db.recoveries ==> db.recoveries[op].kind == kind && !db.recoveries[op].busy))
            && (r.Err? ==> r.error == LeaseConflict)
            && (r.Ok? ==>
                  && op in r.value.recoveries && r.value == db.(recoveries := db.recoveries[op := r.value.recoveries[op]])
                  && var row := r.value.recoveries[op];
                     && row.kind == kind && row.busy && row.token == token
                     && row.generation == 1 + if op in db.recoveries then db.recoveries[op].generation else 0)
  {
  }

  // Two claims in a row never both succeed.
  lemma ClaimExcludes(db: Db, op: OperationId, kind: string, token: Token, other: string, second: Token)
    requires Claimed(db, op, kind, token).Ok?
    ensures Claimed(Claimed(db, op, kind, token).value, op, other, second) == Err(LeaseConflict)
  {
  }
}
