/**
 The last enabled administrator under concurrent transactions.

 Demoting and disabling first lock every enabled administrator, row after row, then read the
 user, count, write and commit. Promoting and creating do not. The statement that takes the
 locks picks its rows when it starts and looks at each again once it has it.
 */
module AdminGuard {
  import opened Wrappers

  type UserId = string
  type TxId = nat

  datatype Role = Viewer | Operator | Admin

  datatype User = User(role: Role, enabled: bool) {
    predicate EnabledAdmin() {
      role.Admin? && enabled
    }
  }

  datatype Change = Promote | Demote(role: Role) | Disable {
    predicate Guarded() {
      !Promote?
    }
  }

  datatype Stage = Locking | Ready | Read | Decided | Written

  // `todo` are rows still to lock, `guarded` the administrators that are locked.
  datatype Txn = Txn(target: UserId, change: Change, stage: Stage, todo: set<UserId>, guarded: set<UserId>, seen: User)

  datatype State = State(users: map<UserId, User>, txns: map<TxId, Txn>)

  const INIT := State(map[], map[])

  datatype Step =
    | Create(user: UserId, row: User)
    | Begin(tx: TxId, target: UserId, change: Change)
    | LockRow(tx: TxId, user: UserId)
    | LocksTaken(tx: TxId)
    | ReadRow(tx: TxId)
    | Decide(tx: TxId)
    | WriteRow(tx: TxId)
    | Commit(tx: TxId)
    | Abort(tx: TxId)

  function EnabledAdmins(users: map<UserId, User>): set<UserId> {
    set u | u in users && users[u].EnabledAdmin()
  }

  // The rows a transaction keeps others from changing.
  function Held(t: Txn): set<UserId> {
    t.guarded + (if t.stage.Written? then {t.target} else {})
  }

  predicate LockedByOther(s: State, tx: TxId, u: UserId) {
    exists other :: other in s.txns && other != tx && u in Held(s.txns[other])
  }

  // Only what differs from the row as it was read is written.
  function Changed(change: Change, seen: User, row: User): User {
    match change
    case Promote => if seen.role.Admin? then row else row.(role := Admin)
    case Demote(role) => if seen.role == role then row else row.(role := role)
    case Disable => if seen.enabled then row.(enabled := false) else row
  }

  predicate InStage(s: State, tx: TxId, stage: Stage) {
    tx in s.txns && s.txns[tx].stage == stage
  }

  function Moved(s: State, tx: TxId, stage: Stage): State
    requires tx in s.txns
  {
    s.(txns := s.txns[tx := s.txns[tx].(stage := stage)])
  }

  function Ended(s: State, tx: TxId): State {
    s.(txns := s.txns - {tx})
  }

  function Begun(s: State, target: UserId, change: Change): Txn {
    var nobody := User(Viewer, false);
    if change.Guarded() then Txn(target, change, Locking, EnabledAdmins(s.users), {}, nobody)
    else Txn(target, change, Ready, {}, {}, nobody)
  }

  function ApplyLockRow(s: State, tx: TxId, u: UserId): State {
    if !InStage(s, tx, Locking) || u !in s.txns[tx].todo || LockedByOther(s, tx, u) then s
    else
      var t := s.txns[tx];
      var taken := if u in s.users && s.users[u].EnabledAdmin() then t.guarded + {u} else t.guarded;
      s.(txns := s.txns[tx := t.(todo := t.todo - {u}, guarded := taken)])
  }

  function ApplyDecide(s: State, tx: TxId): State {
    if !InStage(s, tx, Read) then s
    else
      var t := s.txns[tx];
      if t.change.Guarded() && t.seen.EnabledAdmin() && |EnabledAdmins(s.users)| <= 1 then Ended(s, tx)
      else Moved(s, tx, Decided)
  }

  function ApplyCommit(s: State, tx: TxId): State {
    if !InStage(s, tx, Written) then s
    else
      var t := s.txns[tx];
      var after := Ended(s, tx);
      if t.target !in s.users then after
      else after.(users := s.users[t.target := Changed(t.change, t.seen, s.users[t.target])])
  }

  function Apply(s: State, step: Step): State {
    match step
    case Create(u, row) => if u in s.users then s else s.(users := s.users[u := row])
    case Begin(tx, target, change) =>
      if tx in s.txns || change == Demote(Admin) then s else s.(txns := s.txns[tx := Begun(s, target, change)])
    case LockRow(tx, u) => ApplyLockRow(s, tx, u)
    case LocksTaken(tx) => if InStage(s, tx, Locking) && s.txns[tx].todo == {} then Moved(s, tx, Ready) else s
    case ReadRow(tx) =>
      if !InStage(s, tx, Ready) then s
      else if s.txns[tx].target !in s.users then Ended(s, tx)
      else Moved(s, tx, Read).(txns := s.txns[tx := s.txns[tx].(stage := Read, seen := s.users[s.txns[tx].target])])
    case Decide(tx) => ApplyDecide(s, tx)
    case WriteRow(tx) => if InStage(s, tx, Decided) && !LockedByOther(s, tx, s.txns[tx].target) then Moved(s, tx, Written) else s
    case Commit(tx) => ApplyCommit(s, tx)
    case Abort(tx) => Ended(s, tx)
  }

  // The state after the steps were taken from `s`.
  function After(s: State, steps: seq<Step>): State {
    if steps == [] then s else Apply(After(s, steps[..|steps| - 1]), steps[|steps| - 1])
  }

  function Run(steps: seq<Step>): State {
    After(INIT, steps)
  }

  // ----- what the guard relies on

  predicate HasAdmin(s: State) {
    EnabledAdmins(s.users) != {}
  }

  // The guard is in force: the transaction has finished its locking statement.
  predicate InForce(t: Txn) {
    t.change.Guarded() && !t.stage.Locking?
  }

  // Each of two transactions has locked the target of the other.
  predicate Crossed(s: State, g: TxId, h: TxId)
    requires g in s.txns && h in s.txns
  {
    s.txns[g].target in s.txns[h].guarded && s.txns[h].target in s.txns[g].guarded
  }

  // A guard comes into force that locked nobody, or beside another one in force with which it is
  // not crossed.
  predicate FaultyGuard(s: State, step: Step) {
    && step.LocksTaken? && InStage(s, step.tx, Locking) && s.txns[step.tx].todo == {}
    && (|| s.txns[step.tx].guarded == {}
        || exists other :: other in s.txns && other != step.tx && InForce(s.txns[other]) && !Crossed(s, step.tx, other))
  }

  ghost predicate TxnFits(s: State, t: Txn) {
    && t.change != Demote(Admin)
    && (forall u :: u in t.guarded ==> u in s.users && s.users[u].EnabledAdmin())
    && (InForce(t) ==> t.guarded != {})
    && (!t.change.Guarded() ==> t.guarded == {} && !t.stage.Locking?)
    && (t.change.Guarded() && (t.stage.Read? || t.stage.Decided? || t.stage.Written?) && t.target in t.guarded ==> t.seen.EnabledAdmin())
    // Having counted, another administrator is sure to stay.
    && (t.change.Guarded() && (t.stage.Decided? || t.stage.Written?) ==> exists u :: Spared(s, t.target, u))
  }

  predicate Spared(s: State, target: UserId, u: UserId) {
    u in s.users && u != target && s.users[u].EnabledAdmin()
  }

  ghost predicate AllFit(s: State) {
    forall tx :: tx in s.txns ==> TxnFits(s, s.txns[tx])
  }

  // No row is held twice.
  ghost predicate Exclusive(s: State) {
    forall a, b, u :: a in s.txns && b in s.txns && u in Held(s.txns[a]) && u in Held(s.txns[b]) ==> a == b
  }

  ghost predicate GuardsCrossed(s: State) {
    forall a, b :: a in s.txns && b in s.txns && a != b && InForce(s.txns[a]) && InForce(s.txns[b]) ==> Crossed(s, a, b)
  }

  ghost predicate Inv(s: State) {
    AllFit(s) && Exclusive(s) && GuardsCrossed(s)
  }

  lemma CrossedOn(s: State, s': State)
    requires GuardsCrossed(s)
    requires forall x :: x in s'.txns && InForce(s'.txns[x]) ==>
      x in s.txns && InForce(s.txns[x]) && s'.txns[x].target == s.txns[x].target && s'.txns[x].guarded == s.txns[x].guarded
    ensures GuardsCrossed(s')
  {
    forall a, b | a in s'.txns && b in s'.txns && a != b && InForce(s'.txns[a]) && InForce(s'.txns[b]) ensures Crossed(s', a, b) {
      assert Crossed(s, a, b);
    }
  }

  lemma ExclusiveOn(s: State, s': State)
    requires Exclusive(s)
    requires forall x :: x in s'.txns ==> Held(s'.txns[x]) == {} || (x in s.txns && Held(s'.txns[x]) <= Held(s.txns[x]))
    ensures Exclusive(s')
  {
    hide Held;
  }

  // A row that nobody else holds is taken.
  lemma ExclusiveTakes(s: State, tx: TxId, t: Txn, u: UserId)
    requires Exclusive(s) && tx in s.txns && !LockedByOther(s, tx, u)
    requires Held(t) <= Held(s.txns[tx]) + {u}
    ensures Exclusive(s.(txns := s.txns[tx := t]))
  {
    hide Held;
  }

  // A transaction that has written is the only one with its row locked, and the only guard.
  lemma WriterAlone(s: State, tx: TxId)
    requires Exclusive(s) && GuardsCrossed(s) && InStage(s, tx, Written)
    ensures forall x :: x in s.txns && x != tx ==>
      s.txns[tx].target !in s.txns[x].guarded && !(InForce(s.txns[tx]) && InForce(s.txns[x]))
  {
    var t := s.txns[tx];
    forall x | x in s.txns && x != tx ensures t.target !in s.txns[x].guarded && !(InForce(t) && InForce(s.txns[x])) {
      assert t.target in Held(t);
      assert t.target !in Held(s.txns[x]);
    }
  }

  // Another row than `target` among two administrators.
  lemma AnotherAdmin(users: map<UserId, User>, target: UserId) returns (u: UserId)
    requires |EnabledAdmins(users)| > 1
    ensures u in EnabledAdmins(users) && u != target
  {
    var rest := EnabledAdmins(users) - {target};
    assert |EnabledAdmins(users)| <= |rest| + 1;
    u :| u in rest;
  }

  lemma CommitFits(s: State, tx: TxId)
    requires Inv(s) && InStage(s, tx, Written)
    ensures AllFit(ApplyCommit(s, tx))
  {
    WriterAlone(s, tx);
    hide Exclusive, GuardsCrossed;
    var s' := ApplyCommit(s, tx);
    var t := s.txns[tx];
    forall x | x in s'.txns ensures TxnFits(s', s'.txns[x]) {
      var other := s.txns[x];
      assert TxnFits(s, other) && TxnFits(s, t);
      if other.change.Guarded() && (other.stage.Decided? || other.stage.Written?) {
        var u :| Spared(s, other.target, u);
        assert Spared(s', other.target, u);
      }
    }
  }

  lemma CommitLeavesAdmin(s: State, tx: TxId)
    requires Inv(s) && InStage(s, tx, Written) && HasAdmin(s)
    ensures HasAdmin(ApplyCommit(s, tx))
  {
    hide Exclusive, GuardsCrossed;
    var t := s.txns[tx];
    assert TxnFits(s, t);
    var u: UserId;
    if t.change.Guarded() {
      u :| Spared(s, t.target, u);
    } else {
      u :| u in EnabledAdmins(s.users);
    }
    assert u in EnabledAdmins(ApplyCommit(s, tx).users);
  }

  lemma CommitKeeps(s: State, tx: TxId)
    requires Inv(s)
    ensures Inv(ApplyCommit(s, tx))
    ensures HasAdmin(s) ==> HasAdmin(ApplyCommit(s, tx))
  {
    if InStage(s, tx, Written) {
      CommitFits(s, tx);
      if HasAdmin(s) { CommitLeavesAdmin(s, tx); }
      hide AllFit, Exclusive, GuardsCrossed, HasAdmin;
      CrossedOn(s, ApplyCommit(s, tx));
      ExclusiveOn(s, ApplyCommit(s, tx));
    }
  }

  // A commit gives its target what was asked for unless the row already had it when it was read;
  // the other field of the row, and every other row, stay.
  lemma CommitWrites(s: State, tx: TxId)
    requires InStage(s, tx, Written) && s.txns[tx].target in s.users
    ensures var t, users := s.txns[tx], ApplyCommit(s, tx).users;
            var row := s.users[t.target];
            && users == s.users[t.target := users[t.target]]
            && match t.change
               case Promote => users[t.target] == (if t.seen.role == Admin then row else User(Admin, row.enabled))
               case Demote(role) => users[t.target] == (if t.seen.role == role then row else User(role, row.enabled))
               case Disable => users[t.target] == (if !t.seen.enabled then row else User(row.role, false))
  {
  }

  // New rows change nothing for a transaction.
  lemma FitsOnward(s: State, s': State, t: Txn)
    requires TxnFits(s, t) && forall u :: u in s.users ==> u in s'.users && s'.users[u] == s.users[u]
    ensures TxnFits(s', t)
  {
    if t.change.Guarded() && (t.stage.Decided? || t.stage.Written?) {
      var u :| Spared(s, t.target, u);
      assert Spared(s', t.target, u);
    }
  }

  lemma LocksKeep(s: State, tx: TxId, u: UserId)
    requires Inv(s)
    ensures Inv(ApplyLockRow(s, tx, u))
  {
    hide Exclusive, GuardsCrossed;
    var s' := ApplyLockRow(s, tx, u);
    forall x | x in s'.txns ensures TxnFits(s', s'.txns[x]) {
      assert TxnFits(s, s.txns[x]);
      FitsOnward(s, s', s.txns[x]);
    }
    hide TxnFits;
    CrossedOn(s, s');
    if s' != s { ExclusiveTakes(s, tx, s'.txns[tx], u); }
  }

  lemma DecideFits(s: State, tx: TxId)
    requires AllFit(s)
    ensures AllFit(ApplyDecide(s, tx))
  {
    var s' := ApplyDecide(s, tx);
    forall x | x in s'.txns ensures TxnFits(s', s'.txns[x]) {
      assert TxnFits(s, s.txns[x]);
      if x == tx && InStage(s, tx, Read) && s.txns[tx].change.Guarded() {
        var t := s.txns[tx];
        if t.seen.EnabledAdmin() {
          var u := AnotherAdmin(s.users, t.target);
          assert Spared(s', s'.txns[x].target, u);
        } else {
          var u :| u in t.guarded;
          assert Spared(s', s'.txns[x].target, u);
        }
      } else if s.txns[x].change.Guarded() && (s.txns[x].stage.Decided? || s.txns[x].stage.Written?) {
        var u :| Spared(s, s.txns[x].target, u);
        assert Spared(s', s'.txns[x].target, u);
      }
    }
  }

  lemma DecideKeeps(s: State, tx: TxId)
    requires Inv(s)
    ensures Inv(ApplyDecide(s, tx))
  {
    hide AllFit, Exclusive, GuardsCrossed, EnabledAdmins;
    DecideFits(s, tx);
    CrossedOn(s, ApplyDecide(s, tx));
    ExclusiveOn(s, ApplyDecide(s, tx));
  }

  // A transaction moves on without a new lock.
  lemma MoveKeeps(s: State, tx: TxId, t: Txn)
    requires Inv(s) && tx in s.txns && TxnFits(s, t) && Held(t) <= Held(s.txns[tx])
    requires InForce(t) ==> InForce(s.txns[tx]) && t.target == s.txns[tx].target && t.guarded == s.txns[tx].guarded
    ensures Inv(s.(txns := s.txns[tx := t]))
  {
    hide Exclusive, GuardsCrossed, Held;
    var s' := s.(txns := s.txns[tx := t]);
    forall x | x in s'.txns ensures TxnFits(s', s'.txns[x]) {
      assert TxnFits(s, s'.txns[x]) by {
        if x != tx { assert TxnFits(s, s.txns[x]); }
      }
      FitsOnward(s, s', s'.txns[x]);
    }
    hide TxnFits;
    CrossedOn(s, s');
    ExclusiveOn(s, s');
  }

  lemma ReadKeeps(s: State, tx: TxId)
    requires Inv(s)
    ensures Inv(Apply(s, ReadRow(tx))) && Apply(s, ReadRow(tx)).users == s.users
  {
    hide AllFit, Exclusive, GuardsCrossed;
    if InStage(s, tx, Ready) {
      if s.txns[tx].target !in s.users {
        EndKeeps(s, tx);
      } else {
        ReadFits(s, tx);
        MoveKeeps(s, tx, s.txns[tx].(stage := Read, seen := s.users[s.txns[tx].target]));
      }
    }
  }

  lemma ReadFits(s: State, tx: TxId)
    requires AllFit(s) && InStage(s, tx, Ready) && s.txns[tx].target in s.users
    ensures TxnFits(s, s.txns[tx].(stage := Read, seen := s.users[s.txns[tx].target]))
  {
    assert TxnFits(s, s.txns[tx]);
  }

  lemma WriteKeeps(s: State, tx: TxId)
    requires Inv(s)
    ensures Inv(Apply(s, WriteRow(tx))) && Apply(s, WriteRow(tx)).users == s.users
  {
    hide Exclusive, GuardsCrossed;
    var s' := Apply(s, WriteRow(tx));
    forall x | x in s'.txns ensures TxnFits(s', s'.txns[x]) {
      assert TxnFits(s, s.txns[x]);
      FitsOnward(s, s', s.txns[x]);
    }
    hide TxnFits;
    CrossedOn(s, s');
    if s' != s { ExclusiveTakes(s, tx, s'.txns[tx], s.txns[tx].target); }
  }

  lemma EndKeeps(s: State, tx: TxId)
    requires Inv(s)
    ensures Inv(Ended(s, tx))
  {
    hide Exclusive, GuardsCrossed;
    forall x | x in Ended(s, tx).txns ensures TxnFits(Ended(s, tx), s.txns[x]) {
      FitsOnward(s, Ended(s, tx), s.txns[x]);
    }
    hide TxnFits;
    CrossedOn(s, Ended(s, tx));
    ExclusiveOn(s, Ended(s, tx));
  }

  lemma ForceCrosses(s: State, tx: TxId)
    requires GuardsCrossed(s) && InStage(s, tx, Locking) && s.txns[tx].todo == {} && !FaultyGuard(s, LocksTaken(tx))
    ensures GuardsCrossed(Moved(s, tx, Ready))
  {
    var s' := Moved(s, tx, Ready);
    forall a, b | a in s'.txns && b in s'.txns && a != b && InForce(s'.txns[a]) && InForce(s'.txns[b]) ensures Crossed(s', a, b) {
      if a == tx {
        assert Crossed(s, tx, b);
      } else if b == tx {
        assert Crossed(s, tx, a);
      } else {
        assert Crossed(s, a, b);
      }
    }
  }

  lemma ForceKeeps(s: State, tx: TxId)
    requires Inv(s) && !FaultyGuard(s, LocksTaken(tx))
    ensures Inv(Apply(s, LocksTaken(tx))) && Apply(s, LocksTaken(tx)).users == s.users
  {
    if InStage(s, tx, Locking) && s.txns[tx].todo == {} {
      ForceCrosses(s, tx);
      hide Exclusive, GuardsCrossed;
      var s' := Moved(s, tx, Ready);
      forall x | x in s'.txns ensures TxnFits(s', s'.txns[x]) {
        assert TxnFits(s, s.txns[x]);
        FitsOnward(s, s', s.txns[x]);
      }
      hide TxnFits, FaultyGuard;
      ExclusiveOn(s, s');
    }
  }

  // A guard that holds all administrators excludes every other guard.
  lemma GuardsExclude(s: State, tx: TxId)
    requires Inv(s) && InStage(s, tx, Locking) && s.txns[tx].guarded == EnabledAdmins(s.users)
    ensures forall b :: b in s.txns && InForce(s.txns[b]) ==> b == tx
  {
    forall b | b in s.txns && InForce(s.txns[b]) ensures b == tx {
      assert TxnFits(s, s.txns[b]);
      var u :| u in s.txns[b].guarded;
      assert u in Held(s.txns[b]) && u in Held(s.txns[tx]);
    }
  }

  lemma BeginKeeps(s: State, tx: TxId, target: UserId, change: Change)
    requires Inv(s)
    ensures Inv(Apply(s, Begin(tx, target, change)))
    ensures Apply(s, Begin(tx, target, change)).users == s.users
  {
    hide Exclusive, GuardsCrossed;
    var s' := Apply(s, Begin(tx, target, change));
    forall x | x in s'.txns ensures TxnFits(s', s'.txns[x]) {
      if x in s.txns {
        assert TxnFits(s, s.txns[x]);
        FitsOnward(s, s', s.txns[x]);
      }
    }
    hide TxnFits, EnabledAdmins;
    CrossedOn(s, s');
    ExclusiveOn(s, s');
  }

  lemma CreateKeeps(s: State, u: UserId, row: User)
    requires Inv(s)
    ensures Inv(Apply(s, Create(u, row)))
    ensures HasAdmin(s) ==> HasAdmin(Apply(s, Create(u, row)))
  {
    hide Exclusive, GuardsCrossed;
    var s' := Apply(s, Create(u, row));
    forall x | x in s'.txns ensures TxnFits(s', s'.txns[x]) {
      assert TxnFits(s, s.txns[x]);
      FitsOnward(s, s', s.txns[x]);
    }
    hide TxnFits;
    CrossedOn(s, s');
    ExclusiveOn(s, s');
    if HasAdmin(s) {
      var a :| a in EnabledAdmins(s.users);
      assert a in EnabledAdmins(s'.users);
    }
  }

  lemma StepKeeps(s: State, step: Step)
    requires Inv(s) && !FaultyGuard(s, step)
    ensures Inv(Apply(s, step))
    ensures HasAdmin(s) ==> HasAdmin(Apply(s, step))
  {
    match step
    case Create(u, row) => CreateKeeps(s, u, row); hide Inv;
    case Begin(tx, target, change) => BeginKeeps(s, tx, target, change); hide Inv;
    case LockRow(tx, u) => LocksKeep(s, tx, u); hide Inv;
    case Decide(tx) => DecideKeeps(s, tx); hide Inv;
    case Commit(tx) => CommitKeeps(s, tx); hide Inv;
    case LocksTaken(tx) => ForceKeeps(s, tx); hide Inv;
    case ReadRow(tx) => ReadKeeps(s, tx); hide Inv;
    case WriteRow(tx) => WriteKeeps(s, tx); hide Inv;
    case Abort(tx) => EndKeeps(s, tx); hide Inv;
  }

  ghost predicate NoFaultyGuard(steps: seq<Step>) {
    forall n :: 0 <= n < |steps| ==> !FaultyGuard(Run(steps[..n]), steps[n])
  }

  lemma NoFaultyGuardBefore(steps: seq<Step>)
    requires NoFaultyGuard(steps) && steps != []
    ensures NoFaultyGuard(steps[..|steps| - 1]) && !FaultyGuard(Run(steps[..|steps| - 1]), steps[|steps| - 1])
  {
    hide FaultyGuard, Run;
    var init := steps[..|steps| - 1];
    assert forall n :: 0 <= n < |init| ==> init[..n] == steps[..n] && init[n] == steps[n];
    assert steps[..|init|] == init;
  }

  lemma {:induction false} RunKeeps(steps: seq<Step>)
    requires NoFaultyGuard(steps)
    ensures Inv(Run(steps))
  {
    if steps != [] {
      hide NoFaultyGuard, FaultyGuard, Apply, Inv;
      NoFaultyGuardBefore(steps);
      RunKeeps(steps[..|steps| - 1]);
      StepKeeps(Run(steps[..|steps| - 1]), steps[|steps| - 1]);
    }
  }

  // The users have an administrator who is enabled.
  ghost predicate SomeAdmin(users: map<UserId, User>) {
    exists u :: u in users && users[u].role == Admin && users[u].enabled
  }

  lemma SomeAdminExactly(s: State)
    ensures HasAdmin(s) <==> SomeAdmin(s.users)
  {
    if u :| u in EnabledAdmins(s.users) { assert s.users[u].role == Admin; }
    if u :| u in s.users && s.users[u].role == Admin && s.users[u].enabled { assert u in EnabledAdmins(s.users); }
  }

  // Once an enabled administrator exists one always does, in every run in which no guard comes
  // into force empty or beside another one with which it is not crossed. Administrators may
  // appear at any time.
  lemma {:induction false} AdminStays(steps: seq<Step>, n: nat)
    requires NoFaultyGuard(steps) && n <= |steps| && SomeAdmin(Run(steps[..n]).users)
    ensures SomeAdmin(Run(steps).users)
    decreases |steps|
  {
    hide NoFaultyGuard, FaultyGuard, Apply, Inv, HasAdmin, SomeAdmin;
    if n == |steps| {
      assert steps[..n] == steps;
    } else {
      var init := steps[..|steps| - 1];
      NoFaultyGuardBefore(steps);
      assert init[..n] == steps[..n];
      AdminStays(init, n);
      RunKeeps(init);
      SomeAdminExactly(Run(init));
      StepKeeps(Run(init), steps[|init|]);
      SomeAdminExactly(Run(steps));
    }
  }

  // ----- what a guard can lock

  // The transaction was begun at step `n` and has locked, or will lock, administrators of then only.
  ghost predicate PickedAt(steps: seq<Step>, n: nat, tx: TxId, t: Txn) {
    && n < |steps| && steps[n] == Begin(tx, t.target, t.change)
    && forall u :: u in t.guarded + t.todo ==>
         u in Run(steps[..n]).users && Run(steps[..n]).users[u].role == Admin && Run(steps[..n]).users[u].enabled
  }

  lemma PickStep(s: State, step: Step, tx: TxId)
    requires tx in Apply(s, step).txns
    ensures var t := Apply(s, step).txns[tx];
            if tx in s.txns
            then t.target == s.txns[tx].target && t.change == s.txns[tx].change && t.guarded + t.todo <= s.txns[tx].guarded + s.txns[tx].todo
            else step == Begin(tx, t.target, t.change) && t.guarded + t.todo <= EnabledAdmins(s.users)
  {
    hide LockedByOther;
  }

  // A guard only ever locks rows that were enabled administrators when its statement began.
  lemma {:induction false} LocksWhatItPicked(steps: seq<Step>, tx: TxId) returns (n: nat)
    requires tx in Run(steps).txns
    ensures PickedAt(steps, n, tx, Run(steps).txns[tx])
  {
    hide Apply;
    var last := |steps| - 1;
    var init := steps[..last];
    assert Run(steps) == Apply(Run(init), steps[last]);
    PickStep(Run(init), steps[last], tx);
    if tx in Run(init).txns {
      n := LocksWhatItPicked(init, tx);
      assert init[..n] == steps[..n] && init[n] == steps[n];
    } else {
      n := last;
    }
  }

  // ----- what can be reached

  ghost predicate Reaches(s: State, s': State) {
    exists more: seq<Step> :: After(s, more) == s'
  }

  lemma ReachSelf(s: State)
    ensures Reaches(s, s)
  {
    assert After(s, []) == s;
  }

  lemma ReachStep(s: State, mid: State, step: Step)
    requires Reaches(s, mid)
    ensures Reaches(s, Apply(mid, step))
  {
    hide Apply;
    var more: seq<Step> :| After(s, more) == mid;
    assert (more + [step])[..|more|] == more;
    assert After(s, more + [step]) == Apply(mid, step);
  }

  lemma {:induction false} AfterJoin(s: State, one: seq<Step>, two: seq<Step>)
    ensures After(s, one + two) == After(After(s, one), two)
    decreases |two|
  {
    hide Apply;
    if two == [] {
      assert one + two == one;
    } else {
      assert (one + two)[..|one + two| - 1] == one + two[..|two| - 1];
      AfterJoin(s, one, two[..|two| - 1]);
    }
  }

  lemma ReachOn(s: State, mid: State, s': State)
    requires Reaches(s, mid) && Reaches(mid, s')
    ensures Reaches(s, s')
  {
    var one: seq<Step> :| After(s, one) == mid;
    var two: seq<Step> :| After(mid, two) == s';
    AfterJoin(s, one, two);
  }

  predicate Unlocked(s: State, u: UserId) {
    forall x :: x in s.txns ==> u !in Held(s.txns[x])
  }

  // ----- one transaction `q` at `t`, the others as in `s`

  function With(s: State, q: TxId, t: Txn): State {
    s.(txns := s.txns[q := t])
  }

  lemma LockStep(s: State, q: TxId, t: Txn, u: UserId)
    requires t.stage.Locking? && u in t.todo && !LockedByOther(s, q, u)
    ensures var taken := if u in EnabledAdmins(s.users) then t.guarded + {u} else t.guarded;
            Apply(With(s, q, t), LockRow(q, u)) == With(s, q, t.(todo := t.todo - {u}, guarded := taken))
  {
    assert !LockedByOther(With(s, q, t), q, u);
  }

  lemma ForceStep(s: State, q: TxId, t: Txn)
    requires t.stage.Locking? && t.todo == {}
    ensures Apply(With(s, q, t), LocksTaken(q)) == With(s, q, t.(stage := Ready))
  {
  }

  lemma ReadStep(s: State, q: TxId, t: Txn)
    requires t.stage.Ready? && t.target in s.users
    ensures Apply(With(s, q, t), ReadRow(q)) == With(s, q, t.(stage := Read, seen := s.users[t.target]))
  {
    hide EnabledAdmins;
  }

  lemma DecideStep(s: State, q: TxId, t: Txn)
    requires t.stage.Read? && (t.change.Guarded() && t.seen.EnabledAdmin() ==> |EnabledAdmins(s.users)| > 1)
    ensures Apply(With(s, q, t), Decide(q)) == With(s, q, t.(stage := Decided))
  {
    hide EnabledAdmins;
  }

  lemma WriteStep(s: State, q: TxId, t: Txn)
    requires t.stage.Decided? && !LockedByOther(s, q, t.target)
    ensures Apply(With(s, q, t), WriteRow(q)) == With(s, q, t.(stage := Written))
  {
    hide EnabledAdmins;
    assert !LockedByOther(With(s, q, t), q, t.target);
  }

  function Done(s: State, q: TxId, t: Txn): State
    requires t.target in s.users
  {
    State(s.users[t.target := Changed(t.change, t.seen, s.users[t.target])], s.txns - {q})
  }

  lemma CommitStep(s: State, q: TxId, t: Txn)
    requires t.stage.Written? && t.target in s.users
    ensures Apply(With(s, q, t), Commit(q)) == Done(s, q, t)
  {
    hide EnabledAdmins;
    assert s.txns[q := t] - {q} == s.txns - {q};
  }

  // A transaction that has its locks and is left alone.
  lemma Passes(s: State, q: TxId, t: Txn)
    requires t.stage.Ready? && t.target in s.users && !LockedByOther(s, q, t.target)
    requires t.change.Guarded() ==> |EnabledAdmins(s.users)| > 1
    ensures Reaches(With(s, q, t), Done(s, q, t.(seen := s.users[t.target])))
  {
    hide Reaches, Apply, EnabledAdmins, LockedByOther, Changed, With;
    var one := t.(stage := Read, seen := s.users[t.target]);
    ReachSelf(With(s, q, t));
    ReadStep(s, q, t);
    ReachStep(With(s, q, t), With(s, q, t), ReadRow(q));
    DecideStep(s, q, one);
    ReachStep(With(s, q, t), With(s, q, one), Decide(q));
    WriteStep(s, q, one.(stage := Decided));
    ReachStep(With(s, q, t), With(s, q, one.(stage := Decided)), WriteRow(q));
    CommitStep(s, q, one.(stage := Written));
    ReachStep(With(s, q, t), With(s, q, one.(stage := Written)), Commit(q));
  }

  lemma Starts(s: State, q: TxId, target: UserId, change: Change)
    requires q !in s.txns && change != Demote(Admin)
    ensures Reaches(s, With(s, q, Begun(s, target, change)))
  {
    ReachSelf(s);
    ReachStep(s, s, Begin(q, target, change));
    hide Reaches;
  }

  // A promotion on its own.
  lemma Promotes(s: State, q: TxId, u: UserId)
    requires q !in s.txns && u in s.users && Unlocked(s, u) && !s.users[u].role.Admin?
    ensures Reaches(s, s.(users := s.users[u := s.users[u].(role := Admin)]))
  {
    hide Reaches, EnabledAdmins;
    var t := Begun(s, u, Promote);
    Starts(s, q, u, Promote);
    Passes(s, q, t);
    assert s.txns - {q} == s.txns;
    ReachOn(s, With(s, q, t), s.(users := s.users[u := s.users[u].(role := Admin)]));
  }

  // A guarded change on its own, with two administrators.
  lemma GuardTaken(s: State, q: TxId, target: UserId, other: UserId, change: Change)
    requires q !in s.txns && change.Guarded() && change != Demote(Admin) && target != other
    requires EnabledAdmins(s.users) == {target, other} && Unlocked(s, target) && Unlocked(s, other)
    ensures Reaches(s, With(s, q, Txn(target, change, Ready, {}, {target, other}, User(Viewer, false))))
  {
    hide Reaches, Apply, EnabledAdmins, With;
    var t := Txn(target, change, Locking, {target, other}, {}, User(Viewer, false));
    Starts(s, q, target, change);
    LockStep(s, q, t, target);
    ReachStep(s, With(s, q, t), LockRow(q, target));
    var one := t.(todo := {other}, guarded := {target});
    assert {target, other} - {target} == {other} && {} + {target} == {target};
    LockStep(s, q, one, other);
    ReachStep(s, With(s, q, one), LockRow(q, other));
    var two := t.(todo := {}, guarded := {target, other});
    assert {other} - {other} == {} && {target} + {other} == {target, other};
    ForceStep(s, q, two);
    ReachStep(s, With(s, q, two), LocksTaken(q));
  }

  lemma TwoAdmins(s: State, target: UserId, other: UserId, q: TxId)
    requires EnabledAdmins(s.users) == {target, other} && target != other && Unlocked(s, target)
    ensures |EnabledAdmins(s.users)| > 1 && target in s.users && !LockedByOther(s, q, target)
  {
    assert target in EnabledAdmins(s.users);
  }

  lemma GuardedChange(s: State, q: TxId, target: UserId, other: UserId, change: Change)
    requires q !in s.txns && change.Guarded() && change != Demote(Admin) && target != other
    requires EnabledAdmins(s.users) == {target, other} && Unlocked(s, target) && Unlocked(s, other)
    ensures target in s.users
            && Reaches(s, s.(users := s.users[target := Changed(change, s.users[target], s.users[target])]))
  {
    hide Reaches, Changed, EnabledAdmins, LockedByOther, With, Unlocked;
    TwoAdmins(s, target, other, q);
    var t := Txn(target, change, Ready, {}, {target, other}, User(Viewer, false));
    GuardTaken(s, q, target, other, change);
    Passes(s, q, t);
    assert s.txns - {q} == s.txns;
    ReachOn(s, With(s, q, t), s.(users := s.users[target := Changed(change, s.users[target], s.users[target])]));
  }

  // ----- a guard that locked nobody

  // The guard of `tx` came into force without an administrator to lock, and its change would
  // still take the right from its target if the target had it.
  predicate EmptyGuard(s: State, tx: TxId) {
    && InStage(s, tx, Ready)
    && var t := s.txns[tx];
       && t.change.Guarded() && t.change != Demote(Admin) && t.guarded == {} && Unlocked(s, t.target)
       && t.target in s.users && s.users[t.target].enabled && t.change != Demote(s.users[t.target].role)
  }

  lemma RightLost(s: State, tx: TxId, row: User)
    requires InStage(s, tx, Read) && Unlocked(s, s.txns[tx].target)
    requires var t := s.txns[tx];
             && t.change.Guarded() && t.change != Demote(Admin) && t.seen == row && !row.role.Admin? && row.enabled && t.change != Demote(row.role)
             && t.target in s.users && s.users[t.target] == row.(role := Admin)
             && EnabledAdmins(s.users) == {t.target}
    ensures exists s' :: Reaches(s, s') && !HasAdmin(s')
  {
    hide Reaches;
    var t := s.txns[tx];
    ReachSelf(s);
    ReachStep(s, s, Decide(tx));
    ReachStep(s, Apply(s, Decide(tx)), WriteRow(tx));
    var two := s.(txns := s.txns[tx := t.(stage := Written)]);
    assert Apply(Apply(s, Decide(tx)), WriteRow(tx)) == two;
    ReachStep(s, two, Commit(tx));
    var three := Apply(two, Commit(tx));
    forall u ensures u !in EnabledAdmins(three.users) {
      assert u in EnabledAdmins(s.users) <==> u == t.target;
    }
    assert EnabledAdmins(three.users) == {};
  }

  // From every state with such a guard and no administrator, one can appear and be lost again.
  lemma EmptyGuardLoses(s: State, tx: TxId)
    requires EmptyGuard(s, tx) && !HasAdmin(s)
    ensures exists mid, s' :: Reaches(s, mid) && HasAdmin(mid) && Reaches(mid, s') && !HasAdmin(s')
  {
    hide Reaches;
    var t := s.txns[tx];
    var row := s.users[t.target];
    assert t.target !in EnabledAdmins(s.users);
    ReachSelf(s);
    ReachStep(s, s, ReadRow(tx));
    var read := s.(txns := s.txns[tx := t.(stage := Read, seen := row)]);
    assert Apply(s, ReadRow(tx)) == read;
    Promotes(read, Unused(s.txns.Keys), t.target);
    var mid := read.(users := s.users[t.target := row.(role := Admin)]);
    ReachOn(s, read, mid);
    assert EnabledAdmins(mid.users) == {t.target} by {
      forall u ensures u in EnabledAdmins(mid.users) <==> u == t.target {
        assert u !in EnabledAdmins(s.users);
      }
    }
    RightLost(mid, tx, row);
    assert HasAdmin(mid);
  }

  // Such a state is reached with one user who is no administrator.
  lemma EmptyGuardHappens()
    ensures exists s :: Reaches(INIT, s) && EmptyGuard(s, 0) && !HasAdmin(s)
  {
    hide Reaches;
    var a, b, c := Create("user", User(Operator, true)), Begin(0, "user", Disable), LocksTaken(0);
    ReachSelf(INIT);
    ReachStep(INIT, INIT, a);
    var one := Apply(INIT, a);
    assert EnabledAdmins(one.users) == {};
    ReachStep(INIT, one, b);
    ReachStep(INIT, Apply(one, b), c);
    var s := Apply(Apply(one, b), c);
    assert EmptyGuard(s, 0) && !HasAdmin(s);
  }

  // ----- two guards in force

  // Two guards have come into force, on the two administrators there are.
  ghost predicate Overlap(s: State, g: TxId, h: TxId) {
    && g != h && InStage(s, g, Ready) && InStage(s, h, Ready)
    && var a, b := s.txns[g], s.txns[h];
       && a.change.Guarded() && a.change != Demote(Admin) && b.change.Guarded() && b.change != Demote(Admin)
       && a.target != b.target && EnabledAdmins(s.users) == {a.target, b.target}
       && a.guarded !! b.guarded
       && forall x :: x in s.txns && x != g && x != h ==> a.target !in Held(s.txns[x]) && b.target !in Held(s.txns[x])
  }

  // The steps by which the two transactions go on and end.
  predicate EndsOne(step: Step, g: TxId, h: TxId) {
    (step.ReadRow? || step.Decide? || step.WriteRow? || step.Commit? || step.Abort?) && (step.tx == g || step.tx == h)
  }

  ghost predicate Ending(steps: seq<Step>, g: TxId, h: TxId) {
    forall k :: 0 <= k < |steps| ==> EndsOne(steps[k], g, h)
  }

  // The two can lose the last administrator by themselves.
  ghost predicate CanLose(s: State, g: TxId, h: TxId) {
    exists more :: Ending(more, g, h) && !HasAdmin(After(s, more))
  }

  lemma EightSteps(s: State, a: Step, b: Step, c: Step, d: Step, e: Step, f: Step, g: Step, h: Step)
    ensures After(s, [a, b, c, d, e, f, g, h])
            == Apply(Apply(Apply(Apply(Apply(Apply(Apply(Apply(s, a), b), c), d), e), f), g), h)
  {
    FourSteps(s, a, b, c, d);
    FourSteps(After(s, [a, b, c, d]), e, f, g, h);
    hide Apply, After;
    assert [a, b, c, d, e, f, g, h] == [a, b, c, d] + [e, f, g, h];
    AfterJoin(s, [a, b, c, d], [e, f, g, h]);
  }

  lemma FourSteps(s: State, a: Step, b: Step, c: Step, d: Step)
    ensures After(s, [a, b, c, d]) == Apply(Apply(Apply(Apply(s, a), b), c), d)
  {
    hide Apply;
    assert [a, b, c, d][..3] == [a, b, c] && [a, b, c][..2] == [a, b] && [a, b][..1] == [a] && [a][..0] == [];
    assert After(s, []) == s;
    assert After(s, [a]) == Apply(s, a);
    assert After(s, [a, b]) == Apply(Apply(s, a), b);
    assert After(s, [a, b, c]) == Apply(Apply(Apply(s, a), b), c);
  }

  // Both read and count, and both find two.
  lemma BothDecide(s: State, g: TxId, h: TxId)
    requires Overlap(s, g, h)
    ensures var a, b := s.txns[g], s.txns[h];
            && a.target in s.users && b.target in s.users
            && Apply(Apply(Apply(Apply(s, ReadRow(g)), ReadRow(h)), Decide(g)), Decide(h))
               == With(With(s, g, a.(stage := Decided, seen := s.users[a.target])), h, b.(stage := Decided, seen := s.users[b.target]))
  {
    var a, b := s.txns[g], s.txns[h];
    assert a.target in EnabledAdmins(s.users) && b.target in EnabledAdmins(s.users);
    assert |EnabledAdmins(s.users)| == 2;
    var a', b' := a.(stage := Read, seen := s.users[a.target]), b.(stage := Read, seen := s.users[b.target]);
    assert With(s, g, a) == s && With(With(s, g, a'), h, b) == With(s, g, a');
    assert With(With(s, g, a'), h, b') == With(With(s, h, b'), g, a');
    assert With(With(s, g, a'.(stage := Decided)), h, b') == With(With(s, h, b'), g, a'.(stage := Decided));
    hide Apply, EnabledAdmins, Overlap;
    ReadStep(s, g, a);
    ReadStep(With(s, g, a'), h, b);
    DecideStep(With(s, h, b'), g, a');
    DecideStep(With(s, g, a'.(stage := Decided)), h, b');
  }

  // The one whose target is free commits first, then the other.
  lemma BothWrite(s: State, g: TxId, h: TxId, a: Txn, b: Txn)
    requires g != h && a.stage.Decided? && b.stage.Decided? && a.target != b.target
    requires a.target in s.users && b.target in s.users && a.target !in b.guarded
    requires forall x :: x in s.txns && x != g && x != h ==> a.target !in Held(s.txns[x]) && b.target !in Held(s.txns[x])
    ensures var s4 := With(With(s, g, a), h, b);
            Apply(Apply(Apply(Apply(s4, WriteRow(g)), Commit(g)), WriteRow(h)), Commit(h)) == Done(Done(s, g, a), h, b)
  {
    hide Apply, Changed;
    var withB := With(s, h, b);
    assert !LockedByOther(withB, g, a.target);
    assert With(With(s, g, a), h, b) == With(withB, g, a);
    WriteStep(withB, g, a);
    CommitStep(withB, g, a.(stage := Written));
    var left := Done(s, g, a);
    assert s.txns[h := b] - {g} == (s.txns - {g})[h := b];
    assert Done(withB, g, a.(stage := Written)) == With(left, h, b);
    assert !LockedByOther(left, h, b.target);
    WriteStep(left, h, b);
    CommitStep(left, h, b.(stage := Written));
  }

  lemma BothCommit(s: State, g: TxId, h: TxId)
    requires Overlap(s, g, h) && s.txns[g].target !in s.txns[h].guarded
    ensures var s4 := Apply(Apply(Apply(Apply(s, ReadRow(g)), ReadRow(h)), Decide(g)), Decide(h));
            !HasAdmin(Apply(Apply(Apply(Apply(s4, WriteRow(g)), Commit(g)), WriteRow(h)), Commit(h)))
  {
    hide Apply;
    BothDecide(s, g, h);
    var a, b := s.txns[g], s.txns[h];
    var a', b' := a.(stage := Decided, seen := s.users[a.target]), b.(stage := Decided, seen := s.users[b.target]);
    BothWrite(s, g, h, a', b');
    var last := Done(Done(s, g, a'), h, b');
    forall u ensures u !in EnabledAdmins(last.users) {
      assert u in EnabledAdmins(s.users) <==> u == a.target || u == b.target;
    }
  }

  lemma UncrossedLoses(s: State, g: TxId, h: TxId)
    requires Overlap(s, g, h) && s.txns[g].target !in s.txns[h].guarded
    ensures CanLose(s, g, h)
  {
    hide Apply, After, HasAdmin, Overlap;
    BothCommit(s, g, h);
    EightSteps(s, ReadRow(g), ReadRow(h), Decide(g), Decide(h), WriteRow(g), Commit(g), WriteRow(h), Commit(h));
    var more := [ReadRow(g), ReadRow(h), Decide(g), Decide(h), WriteRow(g), Commit(g), WriteRow(h), Commit(h)];
    assert Ending(more, g, h);
  }

  // What crossed guards keep: while both are there neither can write, and whichever is left
  // alone leaves the other's target an administrator.
  ghost predicate Standoff(s: State, s': State, g: TxId, h: TxId)
    requires g in s.txns && h in s.txns
  {
    var a, b := s.txns[g].target, s.txns[h].target;
    && (g in s'.txns ==> s'.txns[g].target == a && s'.txns[g].guarded == s.txns[g].guarded)
    && (h in s'.txns ==> s'.txns[h].target == b && s'.txns[h].guarded == s.txns[h].guarded)
    && (g in s'.txns && h in s'.txns ==>
          s'.users == s.users && !s'.txns[g].stage.Written? && !s'.txns[h].stage.Written?)
    && (g in s'.txns ==> b in EnabledAdmins(s'.users))
    && (h in s'.txns ==> a in EnabledAdmins(s'.users))
    && HasAdmin(s')
  }

  lemma StandoffStep(s: State, s': State, g: TxId, h: TxId, step: Step)
    requires Overlap(s, g, h) && Crossed(s, g, h) && Standoff(s, s', g, h) && EndsOne(step, g, h)
    ensures Standoff(s, Apply(s', step), g, h)
  {
    var next := Apply(s', step);
    if step.Commit? && InStage(s', step.tx, Written) {
      var u := if step.tx == g then s.txns[h].target else s.txns[g].target;
      assert u in EnabledAdmins(next.users);
    } else {
      assert next.users == s'.users;
    }
  }

  lemma {:induction false} CrossedKeeps(s: State, g: TxId, h: TxId, more: seq<Step>)
    requires Overlap(s, g, h) && Crossed(s, g, h) && Ending(more, g, h)
    ensures Standoff(s, After(s, more), g, h)
  {
    if more == [] {
      var a, b := s.txns[g].target, s.txns[h].target;
      assert a in EnabledAdmins(s.users) && b in EnabledAdmins(s.users);
    } else {
      var n := |more| - 1;
      assert EndsOne(more[n], g, h);
      assert forall k :: 0 <= k < n ==> more[..n][k] == more[k];
      CrossedKeeps(s, g, h, more[..n]);
      StandoffStep(s, After(s, more[..n]), g, h, more[n]);
      hide Apply, Standoff, Overlap, Crossed;
    }
  }

  lemma OverlapSymmetric(s: State, g: TxId, h: TxId)
    requires Overlap(s, g, h)
    ensures Overlap(s, h, g) && (CanLose(s, h, g) ==> CanLose(s, g, h))
  {
    assert {s.txns[g].target, s.txns[h].target} == {s.txns[h].target, s.txns[g].target};
    hide After;
    if CanLose(s, h, g) {
      var more :| Ending(more, h, g) && !HasAdmin(After(s, more));
      assert forall k :: 0 <= k < |more| ==> EndsOne(more[k], h, g);
      assert Ending(more, g, h);
    }
  }

  // Two guards in force on the only two administrators lose them by themselves, unless each
  // has locked the other's target.
  lemma OverlapLosesExactly(s: State, g: TxId, h: TxId)
    requires Overlap(s, g, h)
    ensures CanLose(s, g, h) <==> !Crossed(s, g, h)
  {
    OverlapSymmetric(s, g, h);
    if s.txns[g].target !in s.txns[h].guarded {
      UncrossedLoses(s, g, h);
    } else if s.txns[h].target !in s.txns[g].guarded {
      UncrossedLoses(s, h, g);
    } else {
      forall more | Ending(more, g, h) ensures HasAdmin(After(s, more)) { CrossedKeeps(s, g, h, more); }
    }
    hide After, Overlap;
  }

  // The step that puts a second guard in force is faulty exactly when the two can lose the two
  // administrators there are from then on.
  lemma FaultyExactlyWhenLosing(s: State, g: TxId, h: TxId)
    requires Inv(s) && g != h && InStage(s, g, Locking) && InStage(s, h, Ready)
    requires var a, b := s.txns[g], s.txns[h];
             && a.todo == {} && a.guarded != {} && a.change.Guarded() && b.change.Guarded()
             && a.target != b.target && EnabledAdmins(s.users) == {a.target, b.target}
    requires forall x :: x in s.txns && x != g && x != h ==>
      s.txns[g].target !in Held(s.txns[x]) && s.txns[h].target !in Held(s.txns[x])
    ensures FaultyGuard(s, LocksTaken(g)) <==> CanLose(Apply(s, LocksTaken(g)), g, h)
  {
    hide After, EnabledAdmins, CanLose;
    var s' := Moved(s, g, Ready);
    OnlyGuardBeside(s, g, h);
    assert TxnFits(s, s.txns[g]) && TxnFits(s, s.txns[h]);
    assert s.txns[g].guarded !! s.txns[h].guarded by {
      forall u | u in s.txns[g].guarded ensures u !in s.txns[h].guarded {
        assert u in Held(s.txns[g]);
        assert u !in Held(s.txns[h]);
      }
    }
    hide Inv;
    OverlapLosesExactly(s', g, h);
  }

  lemma OnlyGuardBeside(s: State, g: TxId, h: TxId)
    requires Inv(s) && g in s.txns && h in s.txns && InForce(s.txns[h])
    requires forall x :: x in s.txns && x != g && x != h ==> s.txns[h].target !in Held(s.txns[x])
    ensures forall x :: x in s.txns && x != g && x != h ==> !InForce(s.txns[x])
  {
    forall x | x in s.txns && x != g && x != h ensures !InForce(s.txns[x]) {
      assert s.txns[h].target !in Held(s.txns[x]);
    }
  }

  // ----- two guards that each locked somebody

  const ADMIN := User(Admin, true)
  const PLAIN := User(Viewer, true)
  const GONE := User(Admin, false)

  function Guarding(target: UserId, stage: Stage, todo: set<UserId>, guarded: set<UserId>): Txn {
    Txn(target, Disable, stage, todo, guarded, User(Viewer, false))
  }

  function Three(u: User, x: User, w: User): map<UserId, User> {
    map["u" := u, "x" := x, "w" := w]
  }

  lemma ThreeChanged(u: User, x: User, w: User, row: User)
    ensures Three(u, x, w)["u" := row] == Three(row, x, w)
    ensures Three(u, x, w)["x" := row] == Three(u, row, w)
    ensures Three(u, x, w)["w" := row] == Three(u, x, row)
    ensures EnabledAdmins(Three(u, x, w)) == (if u.EnabledAdmin() then {"u"} else {})
                                             + (if x.EnabledAdmin() then {"x"} else {}) + (if w.EnabledAdmin() then {"w"} else {})
  {
  }

  // Two administrators and one plain user.
  lemma ThreeUsers()
    ensures Reaches(INIT, State(Three(ADMIN, ADMIN, PLAIN), map[]))
  {
    hide Reaches;
    ReachSelf(INIT);
    ReachStep(INIT, INIT, Create("u", ADMIN));
    ReachStep(INIT, State(map["u" := ADMIN], map[]), Create("x", ADMIN));
    ReachStep(INIT, State(map["u" := ADMIN, "x" := ADMIN], map[]), Create("w", PLAIN));
  }

  // Transaction 0 picks both administrators. Before it locks one of them the first loses the
  // right, the third user gets it, and the second is disabled.
  lemma SnapshotAges()
    ensures var g := Guarding("u", Locking, {"u", "x"}, {});
            Reaches(State(Three(ADMIN, ADMIN, PLAIN), map[]), State(Three(PLAIN, GONE, ADMIN), map[0 := g]))
  {
    hide Reaches;
    var g := Guarding("u", Locking, {"u", "x"}, {});
    var one, two := State(Three(ADMIN, ADMIN, PLAIN), map[]), State(Three(ADMIN, ADMIN, PLAIN), map[0 := g]);
    var three, four := State(Three(PLAIN, ADMIN, PLAIN), map[0 := g]), State(Three(PLAIN, ADMIN, ADMIN), map[0 := g]);
    ThreeChanged(ADMIN, ADMIN, PLAIN, PLAIN);
    ThreeChanged(PLAIN, ADMIN, PLAIN, ADMIN);
    ThreeChanged(PLAIN, ADMIN, ADMIN, GONE);
    hide EnabledAdmins;
    assert EnabledAdmins(one.users) == {"u", "x"} && EnabledAdmins(four.users) == {"x", "w"};
    Starts(one, 0, "u", Disable);
    assert With(one, 0, g) == two;
    GuardedChange(two, 1, "u", "x", Demote(Viewer));
    ReachOn(one, two, three);
    Promotes(three, 1, "w");
    ReachOn(one, three, four);
    GuardedChange(four, 1, "x", "w", Disable);
    ReachOn(one, four, State(Three(PLAIN, GONE, ADMIN), map[0 := g]));
  }

  // Transaction 1 locks the third user.
  lemma ThirdLocks()
    ensures var g, h := Guarding("u", Locking, {"u", "x"}, {}), Guarding("w", Ready, {}, {"w"});
            Reaches(State(Three(PLAIN, GONE, ADMIN), map[0 := g]), State(Three(PLAIN, GONE, ADMIN), map[0 := g, 1 := h]))
  {
    ThreeChanged(PLAIN, GONE, ADMIN, PLAIN);
    hide Reaches, Apply, EnabledAdmins;
    var s := State(Three(PLAIN, GONE, ADMIN), map[0 := Guarding("u", Locking, {"u", "x"}, {})]);
    var h := Guarding("w", Locking, {"w"}, {});
    assert EnabledAdmins(s.users) == {"w"};
    Starts(s, 1, "w", Disable);
    LockStep(s, 1, h, "w");
    ReachStep(s, With(s, 1, h), LockRow(1, "w"));
    var held := Guarding("w", Locking, {}, {"w"});
    assert h.todo - {"w"} == {} && h.guarded + {"w"} == {"w"};
    ForceStep(s, 1, held);
    ReachStep(s, With(s, 1, held), LocksTaken(1));
    assert With(s, 1, held.(stage := Ready)) == State(s.users, map[0 := s.txns[0], 1 := held.(stage := Ready)]);
  }

  // The first becomes administrator again, and transaction 0 locks the first.
  lemma LateLocks()
    ensures var g, h := Guarding("u", Locking, {"u", "x"}, {}), Guarding("w", Ready, {}, {"w"});
            Reaches(State(Three(PLAIN, GONE, ADMIN), map[0 := g, 1 := h]),
                    State(Three(ADMIN, GONE, ADMIN), map[0 := Guarding("u", Ready, {}, {"u"}), 1 := h]))
  {
    ThreeChanged(PLAIN, GONE, ADMIN, ADMIN);
    ThreeChanged(ADMIN, GONE, ADMIN, ADMIN);
    hide Reaches, EnabledAdmins;
    var g, h := Guarding("u", Locking, {"u", "x"}, {}), Guarding("w", Ready, {}, {"w"});
    var one, two := State(Three(PLAIN, GONE, ADMIN), map[0 := g, 1 := h]), State(Three(ADMIN, GONE, ADMIN), map[0 := g, 1 := h]);
    var locked := Guarding("u", Ready, {}, {"u"});
    Promotes(one, 2, "u");
    FirstLocks(two);
    ReachOn(one, two, With(two, 0, locked));
    assert With(two, 0, locked) == State(two.users, map[0 := locked, 1 := h]);
  }

  lemma FirstLocks(s: State)
    requires 0 in s.txns && s.txns[0] == Guarding("u", Locking, {"u", "x"}, {})
    requires "u" in EnabledAdmins(s.users) && "x" !in EnabledAdmins(s.users)
    requires !LockedByOther(s, 0, "u") && !LockedByOther(s, 0, "x")
    ensures Reaches(s, With(s, 0, Guarding("u", Ready, {}, {"u"})))
  {
    hide Reaches, Apply, EnabledAdmins, LockedByOther;
    var g := s.txns[0];
    assert s == With(s, 0, g);
    ReachSelf(s);
    LockStep(s, 0, g, "x");
    ReachStep(s, s, LockRow(0, "x"));
    var one := Guarding("u", Locking, {"u", "x"} - {"x"}, {});
    LockStep(s, 0, one, "u");
    ReachStep(s, With(s, 0, one), LockRow(0, "u"));
    var two := Guarding("u", Locking, {}, {"u"});
    assert {"u", "x"} - {"x"} - {"u"} == {} && {} + {"u"} == {"u"};
    ForceStep(s, 0, two);
    ReachStep(s, With(s, 0, two), LocksTaken(0));
  }

  // A guard that missed an administrator loses the last one, though it locked somebody: two of
  // them come into force side by side, count two administrators each and take both away.
  lemma MissedAdminLoses()
    ensures exists s :: Reaches(INIT, s) && Overlap(s, 0, 1) && s.txns[0].guarded != {} && s.txns[1].guarded != {}
                        && !Crossed(s, 0, 1) && CanLose(s, 0, 1)
  {
    var g, h := Guarding("u", Locking, {"u", "x"}, {}), Guarding("w", Ready, {}, {"w"});
    var one, two := State(Three(ADMIN, ADMIN, PLAIN), map[]), State(Three(PLAIN, GONE, ADMIN), map[0 := g]);
    var three := State(two.users, map[0 := g, 1 := h]);
    var s := State(Three(ADMIN, GONE, ADMIN), map[0 := Guarding("u", Ready, {}, {"u"}), 1 := h]);
    ThreeUsers();
    SnapshotAges();
    ThirdLocks();
    LateLocks();
    ReachOn(INIT, one, two);
    ReachOn(INIT, two, three);
    ReachOn(INIT, three, s);
    hide Reaches;
    ThreeChanged(ADMIN, GONE, ADMIN, ADMIN);
    assert EnabledAdmins(s.users) == {"u", "w"};
    OverlapLosesExactly(s, 0, 1);
  }
}
