/**
 Admissions of virtual machine mutations, interleaved.

 Transactions overlap between their statements. What a transaction writes is pending until
 it commits. The first insertion of a lock row takes the lock of the connection, which the
 transaction keeps to its end. Elsewhere locks are taken and released, operations created
 and recoveries moved on.
 */
module VmAdmissionRuns {
  import opened Wrappers
  import opened VmAdmission

  type TxId = nat

  datatype Txn = Txn(spec: Spec, kind: string, cluster: string, targets: seq<int>, taken: nat, looked: bool,
                     references: seq<Reference>, pending: map<LockId, Lock>)

  datatype Grant = Grant(op: OperationId, token: Token, references: seq<Reference>)

  datatype State = State(db: Db, txns: map<TxId, Txn>, connection: Option<TxId>, grants: seq<Grant>)

  const INIT := State(Db(map[], map[], map[]), map[], None, [])

  datatype Step =
    | Begin(tx: TxId, spec: Spec, kind: string, cluster: string, vmid: int, related: seq<int>)
    | Look(tx: TxId)
    | Insert(tx: TxId, lock: LockId, grounds: Grounds)
    | Finish(tx: TxId, token: Token)
    | Abort(tx: TxId)
    | ReleaseElsewhere(lock: LockId)
    | LockElsewhere(lock: LockId, key: Key, name: string)
    | CreateElsewhere(op: OperationId, operation: Operation)
    | RecoverElsewhere(op: OperationId, recovery: Recovery)

  // The rows as the transaction itself sees them.
  function OwnView(db: Db, t: Txn): Db {
    db.(locks := db.locks + t.pending)
  }

  function Aborted(s: State, tx: TxId): State {
    s.(txns := s.txns - {tx}, connection := if s.connection == Some(tx) then None else s.connection)
  }

  predicate Acquiring(s: State, tx: TxId) {
    tx in s.txns && s.txns[tx].taken < |s.txns[tx].targets|
  }

  function Next(t: Txn): Key
    requires t.taken < |t.targets|
  {
    Key(t.cluster, t.targets[t.taken])
  }

  function ApplyBegin(s: State, tx: TxId, spec: Spec, kind: string, cluster: string, vmid: int, related: seq<int>): State {
    if tx in s.txns || ScopeRefused(spec, vmid, related) || spec.op in s.db.operations then s
    else s.(txns := s.txns[tx := Txn(spec, kind, cluster, Targets(vmid, related), 0, false, [], map[])])
  }

  function ApplyLook(s: State, tx: TxId): State {
    if !Acquiring(s, tx) || s.txns[tx].looked then s
    else if KeyTaken(OwnView(s.db, s.txns[tx]), Next(s.txns[tx])) then Aborted(s, tx)
    else s.(txns := s.txns[tx := s.txns[tx].(looked := true)])
  }

  function ApplyInsert(s: State, tx: TxId, l: LockId, grounds: Grounds): State {
    if !Acquiring(s, tx) || !s.txns[tx].looked || (s.connection.Some? && s.connection.value != tx) then s
    else
      var t := s.txns[tx];
      match Inserted(OwnView(s.db, t), l, Next(t), ForOperation(t.spec.op), grounds)
      case Err(_) => Aborted(s, tx)
      case Ok(_) =>
        s.(connection := Some(tx),
           txns := s.txns[tx := t.(taken := t.taken + 1, looked := false,
                                   references := t.references + [Reference(l, t.targets[t.taken])],
                                   pending := t.pending[l := Lock(Next(t), ForOperation(t.spec.op), true)])])
  }

  function ApplyFinish(s: State, tx: TxId, token: Token): State {
    if tx !in s.txns || Acquiring(s, tx) then s
    else
      var t := s.txns[tx];
      match Concluded(OwnView(s.db, t), t.spec, t.kind, t.references, token)
      case Err(_) => Aborted(s, tx)
      case Ok(ended) =>
        Aborted(s, tx).(db := ended.db,
                        grants := if ended.outcome.Granted? then s.grants + [Grant(t.spec.op, token, t.references)] else s.grants)
  }

  predicate IsElsewhere(step: Step) {
    step.ReleaseElsewhere? || step.LockElsewhere? || step.CreateElsewhere? || step.RecoverElsewhere?
  }

  function DbElsewhere(s: State, step: Step): Db
    requires IsElsewhere(step)
  {
    var db := s.db;
    match step
    case ReleaseElsewhere(l) => if l in db.locks then db.(locks := db.locks[l := db.locks[l].(isOpen := false)]) else db
    case LockElsewhere(l, key, name) =>
      if s.connection.Some? || KeyTaken(db, key) || l in db.locks then db
      else db.(locks := db.locks[l := Lock(key, Elsewhere(name), true)])
    case CreateElsewhere(op, operation) =>
      if op in db.operations || ScopeTaken(db, operation.scope) then db
      else db.(operations := db.operations[op := operation])
    case RecoverElsewhere(op, recovery) =>
      if op in db.operations then db.(recoveries := db.recoveries[op := recovery]) else db
  }

  function Apply(s: State, step: Step): State {
    match step
    case Begin(tx, spec, kind, cluster, vmid, related) => ApplyBegin(s, tx, spec, kind, cluster, vmid, related)
    case Look(tx) => ApplyLook(s, tx)
    case Insert(tx, l, grounds) => ApplyInsert(s, tx, l, grounds)
    case Finish(tx, token) => ApplyFinish(s, tx, token)
    case Abort(tx) => Aborted(s, tx)
    case ReleaseElsewhere(_) => s.(db := DbElsewhere(s, step))
    case LockElsewhere(_, _, _) => s.(db := DbElsewhere(s, step))
    case CreateElsewhere(_, _) => s.(db := DbElsewhere(s, step))
    case RecoverElsewhere(_, _) => s.(db := DbElsewhere(s, step))
  }

  function Run(steps: seq<Step>): State {
    if steps == [] then INIT else Apply(Run(steps[..|steps| - 1]), steps[|steps| - 1])
  }

  // ----- what every step keeps

  ghost predicate Refers(references: seq<Reference>, l: LockId, vmid: int) {
    exists k :: 0 <= k < |references| && references[k] == Reference(l, vmid)
  }

  // The pending rows are the locks of the targets taken so far, and nobody else can insert
  // a lock on them.
  ghost predicate TxnFits(db: Db, connection: Option<TxId>, tx: TxId, t: Txn) {
    && Ascending(t.targets) && t.targets != [] && t.taken <= |t.targets| && |t.references| == t.taken
    && (t.taken > 0 ==> connection == Some(tx))
    && (forall k :: 0 <= k < t.taken ==>
          && t.references[k].vmid == t.targets[k]
          && t.references[k].lock in t.pending
          && t.pending[t.references[k].lock] == Lock(Key(t.cluster, t.targets[k]), ForOperation(t.spec.op), true)
          && !OpenAt(db, Key(t.cluster, t.targets[k])))
    && (forall l :: l in t.pending ==> l !in db.locks && t.pending[l].key.cluster == t.cluster
                                       && Refers(t.references, l, t.pending[l].key.vmid))
  }

  // An open lock of an operation is one it was created with.
  ghost predicate LockFits(db: Db, l: LockId) {
    l in db.locks && db.locks[l].isOpen && db.locks[l].owner.ForOperation? ==>
      && db.locks[l].owner.op in db.operations
      && Refers(db.operations[db.locks[l].owner.op].references, l, db.locks[l].key.vmid)
  }

  ghost predicate OneOpenLock(db: Db) {
    forall l, m :: l in db.locks && m in db.locks && db.locks[l].isOpen && db.locks[m].isOpen && db.locks[l].key == db.locks[m].key
                   ==> l == m
  }

  ghost predicate DbFits(db: Db) {
    && OneOpenLock(db)
    && (forall l :: LockFits(db, l))
    && db.recoveries.Keys <= db.operations.Keys
  }

  ghost predicate GrantsFit(db: Db, grants: seq<Grant>) {
    && (forall i :: 0 <= i < |grants| ==> grants[i].op in db.operations
                                          && db.operations[grants[i].op].references == grants[i].references)
    && (forall i, j :: 0 <= i < j < |grants| ==> grants[i].op != grants[j].op)
  }

  ghost predicate Inv(s: State) {
    && DbFits(s.db)
    && GrantsFit(s.db, s.grants)
    && (forall tx :: tx in s.txns ==> TxnFits(s.db, s.connection, tx, s.txns[tx]))
    && (s.connection.Some? ==> s.connection.value in s.txns)
  }

  // A transaction that holds nothing fits whatever the others do.
  lemma IdleFits(db: Db, c: Option<TxId>, db': Db, c': Option<TxId>, tx: TxId, t: Txn)
    requires TxnFits(db, c, tx, t) && t.taken == 0
    ensures TxnFits(db', c', tx, t)
  {
    assert t.references == [];
  }

  lemma OthersAreIdle(s: State, holder: TxId, tx: TxId)
    requires Inv(s) && s.connection == Some(holder) && tx in s.txns && tx != holder
    ensures s.txns[tx].taken == 0
  {
  }

  // Giving up a transaction keeps the invariant, whatever becomes of the rows.
  lemma AbortKeeps(s: State, tx: TxId)
    requires Inv(s)
    ensures Inv(Aborted(s, tx))
  {
    var s' := Aborted(s, tx);
    forall u | u in s'.txns ensures TxnFits(s'.db, s'.connection, u, s'.txns[u]) {
      if s.connection == Some(tx) {
        OthersAreIdle(s, tx, u);
        IdleFits(s.db, s.connection, s'.db, s'.connection, u, s.txns[u]);
      }
    }
    hide TxnFits, DbFits, GrantsFit;
  }

  lemma BeginKeeps(s: State, tx: TxId, spec: Spec, kind: string, cluster: string, vmid: int, related: seq<int>)
    requires Inv(s)
    ensures Inv(ApplyBegin(s, tx, spec, kind, cluster, vmid, related))
  {
    var targets := Targets(vmid, related);
    assert vmid in targets;
    assert TxnFits(s.db, s.connection, tx, Txn(spec, kind, cluster, targets, 0, false, [], map[]));
    hide TxnFits, DbFits, GrantsFit;
  }

  lemma LookKeeps(s: State, tx: TxId)
    requires Inv(s)
    ensures Inv(ApplyLook(s, tx))
  {
    AbortKeeps(s, tx);
    if Acquiring(s, tx) {
      assert TxnFits(s.db, s.connection, tx, s.txns[tx].(looked := true));
    }
    hide TxnFits, DbFits, GrantsFit;
  }

  // A transaction sees every committed lock.
  lemma OpenShows(db: Db, t: Txn, key: Key)
    requires forall l :: l in t.pending ==> l !in db.locks
    ensures OpenAt(db, key) ==> OpenAt(OwnView(db, t), key)
  {
    if OpenAt(db, key) {
      var m :| m in db.locks && db.locks[m].isOpen && db.locks[m].key == key;
      assert OwnView(db, t).locks[m] == db.locks[m];
    }
  }

  // What can be inserted is new, and its key is free.
  lemma InsertableIsFree(db: Db, t: Txn, l: LockId, key: Key, owner: Owner, grounds: Grounds)
    requires forall m :: m in t.pending ==> m !in db.locks
    requires Inserted(OwnView(db, t), l, key, owner, grounds).Ok?
    ensures l !in t.pending && l !in db.locks && !OpenAt(db, key)
  {
    OpenShows(db, t, key);
    hide OpenAt;
  }

  lemma RefersGrow(references: seq<Reference>, extra: Reference, l: LockId, vmid: int)
    ensures Refers(references, l, vmid) ==> Refers(references + [extra], l, vmid)
    ensures extra == Reference(l, vmid) ==> Refers(references + [extra], l, vmid)
  {
    if Refers(references, l, vmid) {
      var k :| 0 <= k < |references| && references[k] == Reference(l, vmid);
      assert (references + [extra])[k] == Reference(l, vmid);
    }
    assert (references + [extra])[|references|] == extra;
  }

  // One more lock is pending.
  lemma InsertedFits(db: Db, c: Option<TxId>, tx: TxId, t: Txn, l: LockId)
    requires TxnFits(db, c, tx, t) && t.taken < |t.targets|
    requires l !in t.pending && l !in db.locks && !OpenAt(db, Next(t))
    ensures TxnFits(db, Some(tx), tx, t.(taken := t.taken + 1, looked := false,
                                         references := t.references + [Reference(l, t.targets[t.taken])],
                                         pending := t.pending[l := Lock(Next(t), ForOperation(t.spec.op), true)]))
  {
    var extra := Reference(l, t.targets[t.taken]);
    var references := t.references + [extra];
    var pending := t.pending[l := Lock(Next(t), ForOperation(t.spec.op), true)];
    forall m | m in pending ensures Refers(references, m, pending[m].key.vmid) {
      RefersGrow(t.references, extra, m, pending[m].key.vmid);
    }
    hide OpenAt, Refers, Ascending;
    assert forall k :: 0 <= k < t.taken ==> references[k] == t.references[k];
  }

  lemma InsertKeeps(s: State, tx: TxId, l: LockId, grounds: Grounds)
    requires Inv(s)
    ensures Inv(ApplyInsert(s, tx, l, grounds))
  {
    AbortKeeps(s, tx);
    if Acquiring(s, tx) && (s.connection.None? || s.connection.value == tx) {
      var t := s.txns[tx];
      var s' := ApplyInsert(s, tx, l, grounds);
      if Inserted(OwnView(s.db, t), l, Next(t), ForOperation(t.spec.op), grounds).Ok? {
        InsertableIsFree(s.db, t, l, Next(t), ForOperation(t.spec.op), grounds);
        InsertedFits(s.db, s.connection, tx, t, l);
        forall u | u in s.txns && u != tx ensures TxnFits(s.db, Some(tx), u, s.txns[u]) {
          IdleFits(s.db, s.connection, s.db, Some(tx), u, s.txns[u]);
        }
      }
    }
    hide TxnFits, DbFits, GrantsFit, Inserted, Aborted;
  }

  // ----- the end of a transaction

  // What a transaction that has taken all its locks leaves behind.
  lemma GrantedDb(db: Db, c: Option<TxId>, tx: TxId, t: Txn, token: Token)
    requires DbFits(db) && TxnFits(db, c, tx, t) && t.taken == |t.targets| && t.spec.op !in db.operations
    requires var own := OwnView(db, t);
             !ScopeTaken(own, t.spec.scope)
    ensures var r := Concluded(OwnView(db, t), t.spec, t.kind, t.references, token);
            && r.Ok? && r.value.outcome == Granted(token, t.references)
            && DbFits(r.value.db)
            && r.value.db.operations == db.operations[t.spec.op := Operation(t.spec.scope, t.spec.digest, t.references)]
            && r.value.db.locks == db.locks + t.pending
  {
    var db' := Concluded(OwnView(db, t), t.spec, t.kind, t.references, token).value.db;
    assert t.spec.op !in db.recoveries;
    forall l ensures LockFits(db', l) {
      assert LockFits(db, l);
    }
    forall l, m | l in db'.locks && m in db'.locks && db'.locks[l].isOpen && db'.locks[m].isOpen && db'.locks[l].key == db'.locks[m].key
      ensures l == m
    {
      if l in t.pending { PendingKey(db, c, tx, t, l); }
      if m in t.pending { PendingKey(db, c, tx, t, m); }
      SameKeySamePending(db, c, tx, t, l, m);
    }
  }

  lemma PendingKey(db: Db, c: Option<TxId>, tx: TxId, t: Txn, l: LockId)
    requires TxnFits(db, c, tx, t) && l in t.pending
    ensures !OpenAt(db, t.pending[l].key)
    ensures t.pending[l].isOpen && t.pending[l].owner == ForOperation(t.spec.op)
  {
    assert Refers(t.references, l, t.pending[l].key.vmid);
  }

  lemma SameKeySamePending(db: Db, c: Option<TxId>, tx: TxId, t: Txn, l: LockId, m: LockId)
    requires TxnFits(db, c, tx, t)
    ensures l in t.pending && m in t.pending && t.pending[l].key == t.pending[m].key ==> l == m
  {
    if l in t.pending && m in t.pending && t.pending[l].key == t.pending[m].key {
      var j :| 0 <= j < |t.references| && t.references[j] == Reference(l, t.pending[l].key.vmid);
      var k :| 0 <= k < |t.references| && t.references[k] == Reference(m, t.pending[m].key.vmid);
      assert t.targets[j] == t.targets[k];
    }
  }

  // A replay releases what it took: no lock is open that was not open before.
  lemma ReplayedDb(db: Db, c: Option<TxId>, tx: TxId, t: Txn, token: Token)
    requires DbFits(db) && TxnFits(db, c, tx, t) && t.taken == |t.targets|
    requires t.spec.op in db.operations && db.operations[t.spec.op].digest == t.spec.digest
    ensures var r := Concluded(OwnView(db, t), t.spec, t.kind, t.references, token);
            && r.Ok? && r.value.outcome == Replayed
            && DbFits(r.value.db)
            && r.value.db.operations == db.operations && r.value.db.recoveries == db.recoveries
            && OpenLocks(r.value.db) == OpenLocks(db)
  {
    hide OpenAt, Ascending;
    var db' := Concluded(OwnView(db, t), t.spec, t.kind, t.references, token).value.db;
    forall l | l in t.pending ensures !db'.locks[l].isOpen {
      var k :| 0 <= k < |t.references| && t.references[k] == Reference(l, t.pending[l].key.vmid);
    }
    assert forall l :: l in db.locks ==> db'.locks[l] == db.locks[l];
    forall l ensures LockFits(db', l) { assert LockFits(db, l); }
    assert OneOpenLock(db');
  }

  predicate Grants(s: State, tx: TxId) {
    && tx in s.txns && !Acquiring(s, tx)
    && s.txns[tx].spec.op !in s.db.operations && !ScopeTaken(OwnView(s.db, s.txns[tx]), s.txns[tx].spec.scope)
  }

  predicate Replays(s: State, tx: TxId) {
    && tx in s.txns && !Acquiring(s, tx)
    && s.txns[tx].spec.op in s.db.operations
    && s.db.operations[s.txns[tx].spec.op].digest == s.txns[tx].spec.digest
  }

  // The end of a transaction, case by case.
  lemma FinishCases(s: State, tx: TxId, token: Token)
    requires Inv(s)
    ensures var s' := ApplyFinish(s, tx, token);
            if Grants(s, tx) then
              var t := s.txns[tx];
              && DbFits(s'.db)
              && s'.db.operations == s.db.operations[t.spec.op := Operation(t.spec.scope, t.spec.digest, t.references)]
              && s'.db.locks == s.db.locks + t.pending
              && s' == Aborted(s, tx).(db := s'.db, grants := s.grants + [Grant(t.spec.op, token, t.references)])
            else if Replays(s, tx) then
              && DbFits(s'.db)
              && s'.db.operations == s.db.operations && s'.db.recoveries == s.db.recoveries
              && OpenLocks(s'.db) == OpenLocks(s.db)
              && s' == Aborted(s, tx).(db := s'.db)
            else s' == s || s' == Aborted(s, tx)
  {
    if tx in s.txns && !Acquiring(s, tx) {
      var t := s.txns[tx];
      assert TxnFits(s.db, s.connection, tx, t);
      if Grants(s, tx) {
        GrantedDb(s.db, s.connection, tx, t, token);
        hide Concluded, DbFits, TxnFits, ScopeTaken, OwnView;
      } else if Replays(s, tx) {
        ReplayedDb(s.db, s.connection, tx, t, token);
        hide Concluded, DbFits, TxnFits, OwnView;
      } else {
        hide DbFits, TxnFits, Claimed, ScopeTaken;
      }
    }
  }

  lemma GrantsGrow(db: Db, grants: seq<Grant>, db': Db, g: Grant)
    requires GrantsFit(db, grants) && g.op !in db.operations
    requires g.op in db'.operations && db'.operations[g.op].references == g.references
    requires forall op :: op in db.operations ==> op in db'.operations && db'.operations[op] == db.operations[op]
    ensures GrantsFit(db', grants + [g])
  {
  }

  lemma FinishKeeps(s: State, tx: TxId, token: Token)
    requires Inv(s)
    ensures Inv(ApplyFinish(s, tx, token))
  {
    var s' := ApplyFinish(s, tx, token);
    FinishCases(s, tx, token);
    AbortKeeps(s, tx);
    if Grants(s, tx) || Replays(s, tx) {
      assert TxnFits(s.db, s.connection, tx, s.txns[tx]);
      assert s.connection == Some(tx);
      forall u | u in s'.txns ensures TxnFits(s'.db, s'.connection, u, s'.txns[u]) {
        OthersAreIdle(s, tx, u);
        IdleFits(s.db, s.connection, s'.db, s'.connection, u, s.txns[u]);
      }
      if Grants(s, tx) { GrantsGrow(s.db, s.grants, s'.db, Grant(s.txns[tx].spec.op, token, s.txns[tx].references)); }
    }
    hide ApplyFinish, TxnFits, DbFits;
  }

  // ----- what happens elsewhere

  lemma ElsewhereDb(s: State, step: Step)
    requires IsElsewhere(step) && DbFits(s.db)
    ensures DbFits(DbElsewhere(s, step))
    ensures forall op :: op in s.db.operations ==> op in DbElsewhere(s, step).operations
                                                   && DbElsewhere(s, step).operations[op] == s.db.operations[op]
  {
    var db' := DbElsewhere(s, step);
    forall l ensures LockFits(db', l) { assert LockFits(s.db, l); }
  }

  lemma ElsewhereLocks(s: State, step: Step)
    requires IsElsewhere(step)
    ensures s.connection.Some? ==>
              && DbElsewhere(s, step).locks.Keys == s.db.locks.Keys
              && forall key :: OpenAt(DbElsewhere(s, step), key) ==> OpenAt(s.db, key)
  {
    var db' := DbElsewhere(s, step);
    if s.connection.Some? {
      forall key | OpenAt(db', key) ensures OpenAt(s.db, key) {
        var l :| l in db'.locks && db'.locks[l].isOpen && db'.locks[l].key == key;
        assert l in s.db.locks && s.db.locks[l].isOpen && s.db.locks[l].key == key;
      }
    }
  }

  lemma ElsewhereKeeps(s: State, step: Step)
    requires Inv(s) && IsElsewhere(step)
    ensures Inv(s.(db := DbElsewhere(s, step)))
  {
    var db' := DbElsewhere(s, step);
    ElsewhereDb(s, step);
    ElsewhereLocks(s, step);
    forall u | u in s.txns ensures TxnFits(db', s.connection, u, s.txns[u]) {
      var t := s.txns[u];
      assert TxnFits(s.db, s.connection, u, t);
      if t.taken == 0 { IdleFits(s.db, s.connection, db', s.connection, u, t); }
    }
    hide DbElsewhere, TxnFits, DbFits;
  }

  lemma StepKeeps(s: State, step: Step)
    requires Inv(s)
    ensures Inv(Apply(s, step))
  {
    hide Inv, ApplyBegin, ApplyLook, ApplyInsert, ApplyFinish, Aborted, DbElsewhere;
    match step
    case Begin(tx, spec, kind, cluster, vmid, related) => BeginKeeps(s, tx, spec, kind, cluster, vmid, related);
    case Look(tx) => LookKeeps(s, tx);
    case Insert(tx, l, grounds) => InsertKeeps(s, tx, l, grounds);
    case Finish(tx, token) => FinishKeeps(s, tx, token);
    case Abort(tx) => AbortKeeps(s, tx);
    case ReleaseElsewhere(_) => ElsewhereKeeps(s, step);
    case LockElsewhere(_, _, _) => ElsewhereKeeps(s, step);
    case CreateElsewhere(_, _) => ElsewhereKeeps(s, step);
    case RecoverElsewhere(_, _) => ElsewhereKeeps(s, step);
  }

  lemma {:induction false} RunKeeps(steps: seq<Step>)
    ensures Inv(Run(steps))
  {
    if steps != [] {
      RunKeeps(steps[..|steps| - 1]);
      StepKeeps(Run(steps[..|steps| - 1]), steps[|steps| - 1]);
    }
  }

  // ----- the promises

  // An operation gets a lease from its admission at most once.
  lemma LeasedAtMostOnce(steps: seq<Step>, i: nat, j: nat)
    requires i < |Run(steps).grants| && j < |Run(steps).grants|
    requires Run(steps).grants[i].op == Run(steps).grants[j].op
    ensures i == j
  {
    RunKeeps(steps);
  }

  // No machine ever has two open locks.
  lemma OneOpenLockPerMachine(steps: seq<Step>, l: LockId, m: LockId)
    requires l in Run(steps).db.locks && Run(steps).db.locks[l].isOpen
    requires m in Run(steps).db.locks && Run(steps).db.locks[m].isOpen
    requires Run(steps).db.locks[l].key == Run(steps).db.locks[m].key
    ensures l == m
  {
    RunKeeps(steps);
  }

  function KeysOf(db: Db, op: OperationId): set<Key> {
    set l | l in db.locks && db.locks[l].isOpen && db.locks[l].owner == ForOperation(op) :: db.locks[l].key
  }

  // The locks of a granted transaction are those of its targets.
  lemma GrantedKeys(db: Db, db': Db, c: Option<TxId>, tx: TxId, t: Txn)
    requires DbFits(db) && TxnFits(db, c, tx, t) && t.taken == |t.targets| && t.spec.op !in db.operations
    requires db'.locks == db.locks + t.pending
    ensures KeysOf(db', t.spec.op) == (set v | v in t.targets :: Key(t.cluster, v))
  {
    hide OpenAt, Ascending, OneOpenLock;
    forall v | v in t.targets ensures Key(t.cluster, v) in KeysOf(db', t.spec.op) {
      var k :| 0 <= k < |t.targets| && t.targets[k] == v;
      assert t.references[k].lock in db'.locks;
    }
    forall l | l in db'.locks && db'.locks[l].isOpen && db'.locks[l].owner == ForOperation(t.spec.op)
      ensures db'.locks[l].key.cluster == t.cluster && db'.locks[l].key.vmid in t.targets
    {
      assert LockFits(db, l);
      assert l in t.pending;
      var k :| 0 <= k < |t.references| && t.references[k] == Reference(l, t.pending[l].key.vmid);
      assert t.targets[k] in t.targets;
    }
  }

  lemma GrantedReferences(db: Db, db': Db, c: Option<TxId>, tx: TxId, t: Txn)
    requires TxnFits(db, c, tx, t) && t.taken == |t.targets| && db'.locks == db.locks + t.pending
    ensures |t.references| == |t.targets|
    ensures forall k :: 0 <= k < |t.references| ==>
              var l := t.references[k].lock;
              && t.references[k].vmid == t.targets[k]
              && l in db'.locks && db'.locks[l] == Lock(Key(t.cluster, t.targets[k]), ForOperation(t.spec.op), true)
    ensures forall l :: l in db.locks ==> l in db'.locks && db'.locks[l] == db.locks[l]
  {
    hide OpenAt, Refers, Ascending;
  }

  // The moment it is granted, the operation holds the locks of its targets and no others; the
  // locks that were open stay open.
  lemma GrantHoldsExactlyTheTargets(steps: seq<Step>, tx: TxId, token: Token)
    requires Grants(Run(steps), tx)
    ensures var s, t := Run(steps), Run(steps).txns[tx];
            var s' := Apply(s, Finish(tx, token));
            && s'.grants == s.grants + [Grant(t.spec.op, token, t.references)]
            && KeysOf(s'.db, t.spec.op) == (set v | v in t.targets :: Key(t.cluster, v))
            && |t.references| == |t.targets|
            && (forall k :: 0 <= k < |t.references| ==>
                  var l := t.references[k].lock;
                  && t.references[k].vmid == t.targets[k]
                  && l in s'.db.locks && s'.db.locks[l] == Lock(Key(t.cluster, t.targets[k]), ForOperation(t.spec.op), true))
            && (forall l :: l in s.db.locks ==> l in s'.db.locks && s'.db.locks[l] == s.db.locks[l])
  {
    hide Run, ApplyFinish, Replays, KeysOf, TxnFits, DbFits, GrantsFit, ScopeTaken;
    RunKeeps(steps);
    var s, t := Run(steps), Run(steps).txns[tx];
    var s' := Apply(s, Finish(tx, token));
    FinishCases(s, tx, token);
    AllTaken(s, tx);
    GrantedKeys(s.db, s'.db, s.connection, tx, t);
    GrantedReferences(s.db, s'.db, s.connection, tx, t);
  }

  lemma AllTaken(s: State, tx: TxId)
    requires Inv(s) && tx in s.txns && !Acquiring(s, tx)
    ensures TxnFits(s.db, s.connection, tx, s.txns[tx]) && s.txns[tx].taken == |s.txns[tx].targets|
  {
  }

  // The transaction was begun for machine `vmid`, and its scope was accepted.
  ghost predicate BegunAt(steps: seq<Step>, n: nat, tx: TxId, t: Txn, vmid: int, related: seq<int>) {
    && n < |steps| && steps[n] == Begin(tx, t.spec, t.kind, t.cluster, vmid, related)
    && !ScopeRefused(t.spec, vmid, related) && t.targets == Targets(vmid, related)
  }

  // A transaction keeps what it was begun with.
  lemma Keeps(s: State, step: Step, tx: TxId)
    requires tx in Apply(s, step).txns
    ensures var t := Apply(s, step).txns[tx];
            if tx in s.txns
            then s.txns[tx].spec == t.spec && s.txns[tx].kind == t.kind && s.txns[tx].cluster == t.cluster && s.txns[tx].targets == t.targets
            else step.Begin? && step == Begin(tx, t.spec, t.kind, t.cluster, step.vmid, step.related)
                 && !ScopeRefused(t.spec, step.vmid, step.related) && t.targets == Targets(step.vmid, step.related)
  {
    hide KeyTaken, Inserted, Concluded, ScopeRefused, DbElsewhere, Targets;
  }

  lemma {:induction false} WasBegun(steps: seq<Step>, tx: TxId) returns (n: nat, vmid: int, related: seq<int>)
    requires tx in Run(steps).txns
    ensures BegunAt(steps, n, tx, Run(steps).txns[tx], vmid, related)
  {
    hide Apply;
    var last := |steps| - 1;
    var init := steps[..last];
    Keeps(Run(init), steps[last], tx);
    if tx in Run(init).txns {
      n, vmid, related := WasBegun(init, tx);
      assert init[n] == steps[n];
    } else {
      n, vmid, related := last, steps[last].vmid, steps[last].related;
    }
  }

  lemma ScopeTargets(spec: Spec, vmid: int, related: seq<int>)
    requires !ScopeRefused(spec, vmid, related)
    ensures if spec.operationType == "vm_clone" || spec.operationType == "vm_restore"
            then spec.source.Some? && spec.source.value != vmid
                 && forall v :: v in Targets(vmid, related) <==> v == vmid || v == spec.source.value
            else forall v :: v in Targets(vmid, related) <==> v == vmid
  {
    AcceptedScopes(spec, vmid, related);
    hide ScopeRefused, Targets;
  }

  // The moment it is granted, a clone or a restore holds open locks on its machine and on the
  // distinct source it named, and any other operation on its machine alone.
  lemma GrantLocksMachineAndSource(steps: seq<Step>, tx: TxId, token: Token)
    requires Grants(Run(steps), tx)
    ensures var t, db := Run(steps).txns[tx], Apply(Run(steps), Finish(tx, token)).db;
            exists n: nat, vmid, related :: BegunAt(steps, n, tx, t, vmid, related)
              && if t.spec.operationType == "vm_clone" || t.spec.operationType == "vm_restore"
                 then t.spec.source.Some? && t.spec.source.value != vmid
                      && KeysOf(db, t.spec.op) == {Key(t.cluster, vmid), Key(t.cluster, t.spec.source.value)}
                 else KeysOf(db, t.spec.op) == {Key(t.cluster, vmid)}
  {
    hide Run, Apply, KeysOf, ScopeRefused, Targets;
    GrantHoldsExactlyTheTargets(steps, tx, token);
    var t, db := Run(steps).txns[tx], Apply(Run(steps), Finish(tx, token)).db;
    var n, vmid, related := WasBegun(steps, tx);
    ScopeTargets(t.spec, vmid, related);
    var keys := set v | v in t.targets :: Key(t.cluster, v);
    assert vmid in t.targets && Key(t.cluster, vmid) in keys;
    if t.spec.operationType == "vm_clone" || t.spec.operationType == "vm_restore" {
      assert t.spec.source.value in t.targets;
      assert keys == {Key(t.cluster, vmid), Key(t.cluster, t.spec.source.value)};
    } else {
      assert keys == {Key(t.cluster, vmid)};
    }
  }

  // From then on it never holds a lock on another machine, and before it holds none at all.
  lemma OperationKeepsToItsTargets(steps: seq<Step>, op: OperationId, l: LockId)
    requires var db := Run(steps).db;
             l in db.locks && db.locks[l].isOpen && db.locks[l].owner == ForOperation(op)
    ensures var db := Run(steps).db;
            op in db.operations && Refers(db.operations[op].references, l, db.locks[l].key.vmid)
  {
    RunKeeps(steps);
    assert LockFits(Run(steps).db, l);
  }

  // Every step of an admission that grants no lease leaves the open locks, the operations and
  // the recoveries as they are.
  lemma OnlyGrantsChange(steps: seq<Step>, step: Step)
    requires !IsElsewhere(step) && !(step.Finish? && Grants(Run(steps), step.tx))
    ensures var s, s' := Run(steps), Apply(Run(steps), step);
            && OpenLocks(s'.db) == OpenLocks(s.db) && s'.db.operations == s.db.operations
            && s'.db.recoveries == s.db.recoveries && s'.grants == s.grants
  {
    hide Run, Grants, Replays, ApplyFinish, Inv, OpenLocks, Inserted, KeyTaken, DbFits;
    RunKeeps(steps);
    if step.Finish? { FinishCases(Run(steps), step.tx, step.token); }
  }

  // ----- idempotency scopes

  // No two operations share their idempotency scope.
  ghost predicate ScopesUnique(db: Db) {
    forall a, b :: a in db.operations && b in db.operations && db.operations[a].scope == db.operations[b].scope ==> a == b
  }

  lemma FinishScopes(s: State, tx: TxId, token: Token)
    requires ScopesUnique(s.db)
    ensures ScopesUnique(ApplyFinish(s, tx, token).db)
  {
    hide ReleasedAll;
  }

  lemma {:induction false} ScopesStayUnique(steps: seq<Step>)
    ensures ScopesUnique(Run(steps).db)
  {
    if steps != [] {
      var n := |steps| - 1;
      ScopesStayUnique(steps[..n]);
      if steps[n].Finish? {
        FinishScopes(Run(steps[..n]), steps[n].tx, steps[n].token);
        hide ApplyFinish, ScopesUnique;
      } else {
        hide ApplyFinish, KeyTaken, Inserted;
      }
    }
  }

  // ----- every lock is looked up before it is inserted

  function Looks(steps: seq<Step>, tx: TxId): nat {
    if steps == [] then 0 else Looks(steps[..|steps| - 1], tx) + if steps[|steps| - 1] == Look(tx) then 1 else 0
  }

  lemma LookStep(s: State, step: Step, tx: TxId)
    requires tx in Apply(s, step).txns
    ensures var t := Apply(s, step).txns[tx];
            var before := if tx in s.txns then s.txns[tx].taken + (if s.txns[tx].looked then 1 else 0) else 0;
            t.taken + (if t.looked then 1 else 0) <= before + (if step == Look(tx) then 1 else 0)
  {
    hide KeyTaken, Inserted, Concluded, ScopeRefused, DbElsewhere, Targets;
  }

  // A transaction has looked at least as often as it has inserted, and looks for a target once.
  lemma {:induction false} LooksBeforeInserting(steps: seq<Step>, tx: TxId)
    requires tx in Run(steps).txns
    ensures Run(steps).txns[tx].taken + (if Run(steps).txns[tx].looked then 1 else 0) <= Looks(steps, tx)
    ensures Run(steps).txns[tx].looked ==> Apply(Run(steps), Look(tx)) == Run(steps)
  {
    var n := |steps| - 1;
    hide Apply;
    LookStep(Run(steps[..n]), steps[n], tx);
    if tx in Run(steps[..n]).txns { LooksBeforeInserting(steps[..n], tx); }
    if Run(steps).txns[tx].looked { LookedAlready(Run(steps), tx); }
  }

  lemma LookedAlready(s: State, tx: TxId)
    requires tx in s.txns && s.txns[tx].looked
    ensures Apply(s, Look(tx)) == s
  {
  }

  // ----- what happens elsewhere

  // A lock released elsewhere is closed; one taken elsewhere is new, open and on a free machine, and
  // is refused while a transaction holds the connection; an operation created elsewhere is new and
  // has a new scope; a recovery moves on for a known operation. Nothing else changes.
  lemma ElsewhereExactly(s: State, step: Step)
    requires IsElsewhere(step)
    ensures Apply(s, step) == s.(db := Apply(s, step).db)
    ensures var db, db' := s.db, Apply(s, step).db;
            match step
            case ReleaseElsewhere(l) =>
              && db' == db.(locks := db'.locks) && db'.locks.Keys == db.locks.Keys
              && forall m :: m in db.locks ==> db'.locks[m] == if m == l then Lock(db.locks[m].key, db.locks[m].owner, false) else db.locks[m]
            case LockElsewhere(l, key, name) =>
              db' == if s.connection.None? && l !in db.locks && forall m :: m in db.locks && db.locks[m].isOpen ==> db.locks[m].key != key
                     then db.(locks := db.locks[l := Lock(key, Elsewhere(name), true)])
                     else db
            case CreateElsewhere(op, operation) =>
              db' == if op !in db.operations && forall other :: other in db.operations ==> db.operations[other].scope != operation.scope
                     then db.(operations := db.operations[op := operation])
                     else db
            case RecoverElsewhere(op, recovery) =>
              db' == if op in db.operations then db.(recoveries := db.recoveries[op := recovery]) else db
            case _ => true
  {
  }

  // ----- waiting

  // `a` is about to insert a lock row and cannot before `b` ends.
  predicate Waits(s: State, a: TxId, b: TxId) {
    && a != b && b in s.txns && Acquiring(s, a) && s.txns[a].looked
    && (s.connection == Some(b)
        || exists l :: l in s.txns[b].pending && s.txns[b].pending[l].key == Next(s.txns[a]))
  }

  ghost predicate WaitPath(s: State, path: seq<TxId>) {
    |path| >= 2 && forall i :: 0 <= i < |path| - 1 ==> Waits(s, path[i], path[i + 1])
  }

  // Transactions never wait for each other in a circle: all wait for the one that holds the
  // connection.
  lemma NoCircularWait(steps: seq<Step>, path: seq<TxId>)
    requires WaitPath(Run(steps), path)
    ensures path[0] != path[|path| - 1] && Run(steps).connection == Some(path[1])
  {
    RunKeeps(steps);
    var s := Run(steps);
    hide Run;
    WaitsForHolder(s, path[0], path[1]);
    var n := |path| - 2;
    WaitsForHolder(s, path[n], path[n + 1]);
  }

  lemma WaitsForHolder(s: State, a: TxId, b: TxId)
    requires Inv(s) && Waits(s, a, b)
    ensures s.connection == Some(b)
  {
    if l :| l in s.txns[b].pending && s.txns[b].pending[l].key == Next(s.txns[a]) {
      assert Refers(s.txns[b].references, l, s.txns[b].pending[l].key.vmid);
    }
  }

  // Exactly the holder of the connection is waited for, by everyone else who has looked; and to wait
  // means that no insertion can go ahead.
  lemma WaitsExactly(s: State, a: TxId, b: TxId)
    requires Inv(s)
    ensures Waits(s, a, b) <==> s.connection == Some(b) && a != b && Acquiring(s, a) && s.txns[a].looked
    ensures Waits(s, a, b) ==> forall l, grounds :: Apply(s, Insert(a, l, grounds)) == s
  {
    if Waits(s, a, b) { WaitsForHolder(s, a, b); }
    hide Inserted;
  }

  // The order of acquisition alone would suffice: a transaction that wants a lock another one
  // holds wants a lower target than that one does.
  predicate WantsHeld(a: Txn, b: Txn) {
    && a.taken < |a.targets| && b.taken < |b.targets| && a.cluster == b.cluster
    && a.targets[a.taken] in b.targets[..b.taken]
  }

  lemma {:induction false} AscendingOrderPreventsCircles(path: seq<Txn>)
    requires |path| >= 2 && forall i :: 0 <= i < |path| ==> Ascending(path[i].targets)
    requires forall i :: 0 <= i < |path| - 1 ==> WantsHeld(path[i], path[i + 1])
    ensures path[0].taken < |path[0].targets| && path[|path| - 1].taken < |path[|path| - 1].targets|
    ensures path[0].targets[path[0].taken] < path[|path| - 1].targets[path[|path| - 1].taken]
    ensures path[0] != path[|path| - 1]
  {
    var n := |path| - 1;
    assert WantsHeld(path[n - 1], path[n - 1 + 1]);
    if n > 1 {
      AscendingOrderPreventsCircles(path[..n]);
    }
  }

  // ----- one call without interruption

  function AfterTargets(s: State, tx: TxId, targets: seq<int>, n: nat, ids: int -> LockId, grounds: int -> Grounds): State
    requires n <= |targets|
  {
    if n == 0 then s
    else
      var t := targets[n - 1];
      ApplyInsert(ApplyLook(AfterTargets(s, tx, targets, n - 1, ids, grounds), tx), tx, ids(t), grounds(t))
  }

  function Lookup(db: Db, op: OperationId): Option<Operation> {
    if op in db.operations then Some(db.operations[op]) else None
  }

  // The transaction holds what a direct acquisition of its first `n` targets holds.
  ghost predicate Holds(s: State, u: State, tx: TxId, t: Txn, n: nat, r: Result<Taken, AdmissionError>) {
    && u.db == s.db && u.grants == s.grants
    && match r
       case Err(_) => tx !in u.txns
       case Ok(taken) =>
         && tx in u.txns && u.txns[tx] == t.(taken := n, references := taken.references, pending := u.txns[tx].pending)
         && OwnView(u.db, u.txns[tx]) == taken.db
         && (u.connection.None? || u.connection == Some(tx))
  }

  lemma OneMoreTarget(s: State, u: State, tx: TxId, t: Txn, n: nat, r: Taken, l: LockId, grounds: Grounds)
    requires n < |t.targets| && !t.looked && Holds(s, u, tx, t, n, Ok(r))
    ensures var next := ApplyInsert(ApplyLook(u, tx), tx, l, grounds);
            match Inserted(r.db, l, Key(t.cluster, t.targets[n]), ForOperation(t.spec.op), grounds)
            case Err(e) => Holds(s, next, tx, t, n + 1, Err(e))
            case Ok(db) => Holds(s, next, tx, t, n + 1, Ok(Taken(db, r.references + [Reference(l, t.targets[n])])))
  {
    hide KeyTaken;
  }

  lemma NothingHeld(s: State, tx: TxId, t: Txn)
    requires tx in s.txns && s.txns[tx] == t && s.connection.None?
    requires t.taken == 0 && !t.looked && t.references == [] && t.pending == map[]
    ensures Holds(s, s, tx, t, 0, Ok(Taken(s.db, [])))
  {
    assert OwnView(s.db, t) == s.db;
  }

  lemma NothingTakenOnce(u: State, tx: TxId, l: LockId, grounds: Grounds)
    requires tx !in u.txns
    ensures ApplyInsert(ApplyLook(u, tx), tx, l, grounds) == u
  {
  }

  lemma {:induction false} TargetsOneByOne(s: State, tx: TxId, t: Txn, n: nat, ids: int -> LockId, grounds: int -> Grounds)
    requires tx in s.txns && s.txns[tx] == t && s.connection.None? && n <= |t.targets|
    requires t.taken == 0 && !t.looked && t.references == [] && t.pending == map[]
    ensures Holds(s, AfterTargets(s, tx, t.targets, n, ids, grounds), tx, t, n,
                  AcquiredAll(s.db, t.spec, t.cluster, t.targets[..n], ids, grounds))
  {
    hide Inserted, ApplyInsert, ApplyLook, OwnView;
    if n == 0 {
      NothingHeld(s, tx, t);
    } else {
      TargetsOneByOne(s, tx, t, n - 1, ids, grounds);
      assert t.targets[..n][..n - 1] == t.targets[..n - 1];
      var u := AfterTargets(s, tx, t.targets, n - 1, ids, grounds);
      var r := AcquiredAll(s.db, t.spec, t.cluster, t.targets[..n - 1], ids, grounds);
      if r.Ok? {
        OneMoreTarget(s, u, tx, t, n - 1, r.value, ids(t.targets[n - 1]), grounds(t.targets[n - 1]));
      } else {
        NothingTakenOnce(u, tx, ids(t.targets[n - 1]), grounds(t.targets[n - 1]));
      }
    }
  }

  // A call that nothing interrupts does what the method of the session promises.
  lemma PrepareIsOneRun(s: State, tx: TxId, spec: Spec, kind: string, cluster: string, vmid: int, related: seq<int>,
                        ids: int -> LockId, grounds: int -> Grounds, token: Token)
    requires tx !in s.txns && s.connection.None?
    ensures var targets := Targets(vmid, related);
            var begun := ApplyBegin(s, tx, spec, kind, cluster, vmid, related);
            var done := ApplyFinish(AfterTargets(begun, tx, targets, |targets|, ids, grounds), tx, token);
            match Prepared(s.db, Lookup(s.db, spec.op), spec, kind, cluster, vmid, related, ids, grounds, token)
            case Err(_) => done.db == s.db && done.grants == s.grants
            case Ok(ended) =>
              && done.db == ended.db
              && done.grants == (match ended.outcome
                                 case Replayed => s.grants
                                 case Granted(granted, references) => s.grants + [Grant(spec.op, granted, references)])
  {
    var targets := Targets(vmid, related);
    var begun := ApplyBegin(s, tx, spec, kind, cluster, vmid, related);
    if tx in begun.txns {
      assert targets[..|targets|] == targets;
      TargetsOneByOne(begun, tx, begun.txns[tx], |targets|, ids, grounds);
      hide AfterTargets, AcquiredAll, Claimed, ScopeTaken, ReleasedAll;
    } else {
      NothingTaken(begun, tx, targets, |targets|, ids, grounds);
      hide AcquiredAll, Concluded;
    }
  }

  lemma {:induction false} NothingTaken(s: State, tx: TxId, targets: seq<int>, n: nat, ids: int -> LockId, grounds: int -> Grounds)
    requires tx !in s.txns && n <= |targets|
    ensures AfterTargets(s, tx, targets, n, ids, grounds) == s
  {
    if n > 0 { NothingTaken(s, tx, targets, n - 1, ids, grounds); }
  }
}
