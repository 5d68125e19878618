/**
 Sessions over whole runs of concurrent calls.

 A call that reads a row and writes it later takes two steps, so calls overlap; a bulk
 revocation is one statement. Calls read the clock when they start, and the clock never
 goes back.
 */
module AccountRuns {
  import opened Wrappers
  import opened Accounts

  type CallId = nat

  datatype Call =
    | Authenticating(token: Token, now: int)
    | SessionSeen(session: SessionId, user: UserId, now: int)
    | Revoking(session: SessionId, now: int)

  // A token was accepted for a session by a call.
  datatype Accepted = Accepted(call: CallId, session: SessionId)

  datatype State = State(clock: int, db: Db, calls: map<CallId, Call>, log: seq<Accepted>)

  const INIT := State(0, Db(map[], map[]), map[], [])

  datatype Step =
    | Tick(passed: nat)
    | NewUser(user: UserId, row: User)
    | SetRole(user: UserId, role: string)
    | Login(session: SessionId, user: UserId, token: Token, ttl: int)
    | Disable(user: UserId, last: bool, now: int)
    | Reset(user: UserId, password: string, now: int)
    | ChangeOwn(user: UserId, current: string, password: string, spared: Option<SessionId>, now: int)
    | StartAuthentication(call: CallId, token: Token)
    | ReadSession(call: CallId)
    | ReadOwner(call: CallId)
    | StartRevokeToken(call: CallId, token: Token, now: int)
    | StartRevokeById(call: CallId, session: SessionId, now: int)
    | WriteRevocation(call: CallId)
    | EndCall(call: CallId)

  function Done(s: State, c: CallId): State {
    s.(calls := s.calls - {c})
  }

  ghost function ApplyReadSession(s: State, c: CallId): State {
    if c !in s.calls || !s.calls[c].Authenticating? then s
    else
      var call := s.calls[c];
      var sid := Find(s.db, call.token);
      if sid.None? || !StatusAt(s.db.sessions[sid.value], call.now).Active? then Done(s, c)
      else s.(calls := s.calls[c := SessionSeen(sid.value, s.db.sessions[sid.value].user, call.now)])
  }

  // The owner decides: the token is accepted, or the session will be revoked.
  function ApplyReadOwner(s: State, c: CallId): State {
    if c !in s.calls || !s.calls[c].SessionSeen? then s
    else
      var call := s.calls[c];
      if EnabledUser(s.db, call.user) then Done(s, c).(log := s.log + [Accepted(c, call.session)])
      else s.(calls := s.calls[c := Revoking(call.session, call.now)])
  }

  ghost function ApplyStartRevoke(s: State, c: CallId, sid: Option<SessionId>, now: int, anyUnrevoked: bool): State {
    if c in s.calls || now > s.clock || sid.None? || sid.value !in s.db.sessions then s
    else
      var row := s.db.sessions[sid.value];
      if (if anyUnrevoked then row.revokedAt.None? else row.user in s.db.users && StatusAt(row, now).Active?)
      then s.(calls := s.calls[c := Revoking(sid.value, now)])
      else s
  }

  function ApplyWrite(s: State, c: CallId): State {
    if c !in s.calls || !s.calls[c].Revoking? then s
    else Done(s, c).(db := RevokedNow(s.db, s.calls[c].session, s.calls[c].now))
  }

  predicate IsAccount(step: Step) {
    step.NewUser? || step.SetRole? || step.Login? || step.Disable? || step.Reset? || step.ChangeOwn?
  }

  function DbAfter(s: State, step: Step): Db
    requires IsAccount(step)
  {
    var db := s.db;
    match step
    case NewUser(u, row) => if u in db.users then db else db.(users := db.users[u := row])
    case SetRole(u, role) => if u in db.users then db.(users := db.users[u := db.users[u].(role := role)]) else db
    case Login(sid, u, token, ttl) =>
      if sid in db.sessions || WithToken(db, token) != {} || u !in db.users then db
      else db.(sessions := db.sessions[sid := Session(u, token, s.clock + ttl, None)])
    case Disable(u, last, now) =>
      if u !in db.users || last || now > s.clock then db
      else RevokeAll(db.(users := db.users[u := db.users[u].(enabled := false)]), u, now, None)
    case Reset(u, password, now) =>
      if u !in db.users || now > s.clock then db
      else RevokeAll(db.(users := db.users[u := db.users[u].(password := password)]), u, now, None)
    case ChangeOwn(u, current, password, spared, now) =>
      if !EnabledUser(db, u) || db.users[u].password != current || now > s.clock then db
      else RevokeAll(db.(users := db.users[u := db.users[u].(password := password)]), u, now, spared)
  }

  ghost function Apply(s: State, step: Step): State {
    match step
    case Tick(passed) => s.(clock := s.clock + passed)
    case NewUser(_, _) => s.(db := DbAfter(s, step))
    case SetRole(_, _) => s.(db := DbAfter(s, step))
    case Login(_, _, _, _) => s.(db := DbAfter(s, step))
    case Disable(_, _, _) => s.(db := DbAfter(s, step))
    case Reset(_, _, _) => s.(db := DbAfter(s, step))
    case ChangeOwn(_, _, _, _, _) => s.(db := DbAfter(s, step))
    case StartAuthentication(c, token) => if c in s.calls then s else s.(calls := s.calls[c := Authenticating(token, s.clock)])
    case ReadSession(c) => ApplyReadSession(s, c)
    case ReadOwner(c) => ApplyReadOwner(s, c)
    case StartRevokeToken(c, token, now) => ApplyStartRevoke(s, c, Find(s.db, token), now, true)
    case StartRevokeById(c, sid, now) => ApplyStartRevoke(s, c, Some(sid), now, false)
    case WriteRevocation(c) => ApplyWrite(s, c)
    case EndCall(c) => Done(s, c)
  }

  ghost function Run(steps: seq<Step>): State {
    if steps == [] then INIT else Apply(Run(steps[..|steps| - 1]), steps[|steps| - 1])
  }

  // ----- what later states keep

  // Sessions keep their owner, token and end; a revocation is never taken back.
  predicate SessionEvolves(db: Db, db': Db, sid: SessionId) {
    sid in db.sessions ==>
      && sid in db'.sessions
      && db'.sessions[sid].(revokedAt := None) == db.sessions[sid].(revokedAt := None)
      && (db.sessions[sid].revokedAt.Some? ==> db'.sessions[sid].revokedAt.Some?)
  }

  // Nobody is enabled again.
  predicate UserEvolves(db: Db, db': Db, u: UserId) {
    u in db.users ==> u in db'.users && (db'.users[u].enabled ==> db.users[u].enabled)
  }

  ghost predicate Evolves(s: State, s': State) {
    && s.clock <= s'.clock
    && (forall sid :: SessionEvolves(s.db, s'.db, sid))
    && (forall u :: UserEvolves(s.db, s'.db, u))
  }

  lemma AccountEvolves(s: State, step: Step)
    requires IsAccount(step)
    ensures Evolves(s, s.(db := DbAfter(s, step)))
  {
  }

  lemma StepEvolves(s: State, step: Step)
    ensures Evolves(s, Apply(s, step))
  {
    if IsAccount(step) {
      AccountEvolves(s, step);
      hide DbAfter;
    }
  }

  lemma StaysSame(s: State)
    ensures Evolves(s, s)
  {
  }

  lemma EvolvesOn(s: State, mid: State, s': State)
    requires Evolves(s, mid) && Evolves(mid, s')
    ensures Evolves(s, s')
  {
    forall sid ensures SessionEvolves(s.db, s'.db, sid) {
      assert SessionEvolves(s.db, mid.db, sid) && SessionEvolves(mid.db, s'.db, sid);
    }
    forall u ensures UserEvolves(s.db, s'.db, u) {
      assert UserEvolves(s.db, mid.db, u) && UserEvolves(mid.db, s'.db, u);
    }
  }

  // Over any continuation of a run sessions and their revocations persist, and nobody is
  // enabled again.
  lemma {:induction false} RunEvolves(steps: seq<Step>, rest: seq<Step>)
    ensures Evolves(Run(steps), Run(steps + rest))
    decreases |rest|
  {
    if rest == [] {
      assert steps + rest == steps;
      StaysSame(Run(steps));
    } else {
      hide Apply, Evolves;
      var n := |rest| - 1;
      assert (steps + rest)[..|steps + rest| - 1] == steps + rest[..n];
      RunEvolves(steps, rest[..n]);
      StepEvolves(Run(steps + rest[..n]), rest[n]);
      EvolvesOn(Run(steps), Run(steps + rest[..n]), Run(steps + rest));
    }
  }

  // Every session has an owner row, calls see sessions that exist, and tokens are unique.
  ghost predicate Inv(s: State) {
    && (forall sid :: sid in s.db.sessions ==> s.db.sessions[sid].user in s.db.users)
    && (forall c :: c in s.calls && s.calls[c].SessionSeen? ==>
          s.calls[c].session in s.db.sessions && s.db.sessions[s.calls[c].session].user == s.calls[c].user)
    && Sole(s.db)
  }

  // A login takes a new token only.
  lemma TokensKept(s: State, step: Step)
    requires Sole(s.db)
    ensures Sole(Apply(s, step).db)
  {
    if step.Login? {
      assert forall other :: other in s.db.sessions ==> other in WithToken(s.db, s.db.sessions[other].token);
    }
  }

  lemma OwnersKept(s: State, step: Step)
    requires Inv(s)
    ensures var db := Apply(s, step).db; forall sid :: sid in db.sessions ==> db.sessions[sid].user in db.users
  {
  }

  lemma StepKeeps(s: State, step: Step)
    requires Inv(s)
    ensures Inv(Apply(s, step))
  {
    StepEvolves(s, step);
    OwnersKept(s, step);
    TokensKept(s, step);
    var s' := Apply(s, step);
    hide DbAfter, StatusAt, EnabledUser, Sole;
    forall c | c in s'.calls && s'.calls[c].SessionSeen?
      ensures s'.calls[c].session in s'.db.sessions && s'.db.sessions[s'.calls[c].session].user == s'.calls[c].user
    {
      assert SessionEvolves(s.db, s'.db, s'.calls[c].session);
    }
  }

  lemma {:induction false} RunKeeps(steps: seq<Step>)
    ensures Inv(Run(steps))
  {
    if steps != [] {
      RunKeeps(steps[..|steps| - 1]);
      StepKeeps(Run(steps[..|steps| - 1]), steps[|steps| - 1]);
    }
  }

  // ----- dead sessions stay dead

  lemma DeadOnward(s: State, s': State, sid: SessionId, now: int, now': int)
    requires Inv(s) && Evolves(s, s') && now <= now' && Dead(s.db, sid, now)
    ensures Dead(s'.db, sid, now')
  {
    assert SessionEvolves(s.db, s'.db, sid) && UserEvolves(s.db, s'.db, s.db.sessions[sid].user);
  }

  // The call saw the session alive, or still reads the clock of a time when it was.
  predicate SawAlive(s: State, c: CallId, sid: SessionId) {
    c in s.calls && sid in s.db.sessions &&
    match s.calls[c]
    case Authenticating(token, now) => s.db.sessions[sid].token == token && !Dead(s.db, sid, now)
    case SessionSeen(session, user, _) => session == sid && EnabledUser(s.db, user)
    case Revoking(_, _) => false
  }

  // How often the call number was accepted for the session.
  function Acceptances(s: State, c: CallId, sid: SessionId): nat {
    multiset(s.log)[Accepted(c, sid)]
  }

  lemma UnseenStays(s: State, step: Step, c: CallId, sid: SessionId)
    requires Inv(s) && Dead(s.db, sid, s.clock) && !SawAlive(s, c, sid)
    ensures var s' := Apply(s, step); Dead(s'.db, sid, s'.clock) && !SawAlive(s', c, sid)
  {
    var s' := Apply(s, step);
    StepEvolves(s, step);
    DeadOnward(s, s', sid, s.clock, s'.clock);
    assert SessionEvolves(s.db, s'.db, sid);
    if c in s'.calls && s'.calls[c].Authenticating? && c in s.calls && s.calls[c] == s'.calls[c] && Dead(s.db, sid, s.calls[c].now) {
      DeadOnward(s, s', sid, s.calls[c].now, s.calls[c].now);
    }
    if c in s'.calls && s'.calls[c].SessionSeen? {
      assert UserEvolves(s.db, s'.db, s'.calls[c].user);
    }
    hide DbAfter, Evolves;
  }

  // Only reading the owner accepts, and it accepts the call's own session once.
  lemma AcceptanceStep(s: State, step: Step, c: CallId, sid: SessionId)
    ensures Acceptances(Apply(s, step), c, sid)
            == Acceptances(s, c, sid) + (if step == ReadOwner(c) && c in s.calls && s.calls[c].SessionSeen?
                                            && s.calls[c].session == sid && EnabledUser(s.db, s.calls[c].user) then 1 else 0)
  {
    hide DbAfter, EnabledUser;
  }

  // A session that is revoked, expired or owned by a disabled user stays so, and in no
  // continuation is it accepted once more by a call that had not seen it alive. Other calls, and
  // calls that take the same number later, make no difference.
  lemma {:induction false} DeadStaysDead(steps: seq<Step>, rest: seq<Step>, c: CallId, sid: SessionId)
    requires var s := Run(steps); Dead(s.db, sid, s.clock) && !SawAlive(s, c, sid)
    ensures var s, s' := Run(steps), Run(steps + rest);
            && Dead(s'.db, sid, s'.clock) && !SawAlive(s', c, sid)
            && Acceptances(s', c, sid) == Acceptances(s, c, sid)
    decreases |rest|
  {
    if rest == [] {
      assert steps + rest == steps;
    } else {
      hide Apply, Inv, Dead, Acceptances;
      var n := |rest| - 1;
      assert (steps + rest)[..|steps + rest| - 1] == steps + rest[..n];
      DeadStaysDead(steps, rest[..n], c, sid);
      RunKeeps(steps + rest[..n]);
      UnseenStays(Run(steps + rest[..n]), rest[n], c, sid);
      AcceptanceStep(Run(steps + rest[..n]), rest[n], c, sid);
    }
  }

  // The number was free at some time after the session had died: whoever takes it afterwards is
  // never accepted for the session.
  lemma LaterCallsAreRefused(steps: seq<Step>, mid: seq<Step>, rest: seq<Step>, c: CallId, sid: SessionId)
    requires Dead(Run(steps).db, sid, Run(steps).clock) && c !in Run(steps + mid).calls
    ensures Acceptances(Run(steps + mid + rest), c, sid) == Acceptances(Run(steps + mid), c, sid)
  {
    RunKeeps(steps);
    RunEvolves(steps, mid);
    var s, s' := Run(steps), Run(steps + mid);
    hide Run;
    DeadOnward(s, s', sid, s.clock, s'.clock);
    DeadStaysDead(steps + mid, rest, c, sid);
  }

  // A dead session can be accepted once more under a call number exactly when the call in flight
  // under it saw the session alive.
  lemma AcceptedAgainExactlyWhenSeen(steps: seq<Step>, c: CallId, sid: SessionId)
    requires Dead(Run(steps).db, sid, Run(steps).clock)
    ensures (exists rest :: Acceptances(Run(steps + rest), c, sid) > Acceptances(Run(steps), c, sid))
            <==> SawAlive(Run(steps), c, sid)
  {
    hide Run, Acceptances;
    if SawAlive(Run(steps), c, sid) {
      SeenIsAccepted(steps, c, sid);
    } else {
      forall rest ensures Acceptances(Run(steps + rest), c, sid) == Acceptances(Run(steps), c, sid) {
        DeadStaysDead(steps, rest, c, sid);
      }
    }
  }

  lemma SeenIsAccepted(steps: seq<Step>, c: CallId, sid: SessionId)
    requires SawAlive(Run(steps), c, sid)
    ensures exists rest :: Acceptances(Run(steps + rest), c, sid) > Acceptances(Run(steps), c, sid)
  {
    RunKeeps(steps);
    var s := Run(steps);
    if s.calls[c].Authenticating? {
      AliveIsSeen(s, c, sid);
      var one := steps + [ReadSession(c)];
      Then(steps, ReadSession(c));
      Then(one, ReadOwner(c));
      AcceptanceStep(s, ReadSession(c), c, sid);
      AcceptanceStep(Run(one), ReadOwner(c), c, sid);
      hide Run, Apply, Acceptances;
      assert steps + [ReadSession(c), ReadOwner(c)] == one + [ReadOwner(c)];
    } else {
      Then(steps, ReadOwner(c));
      AcceptanceStep(s, ReadOwner(c), c, sid);
      hide Run, Apply, Acceptances;
    }
  }

  lemma AliveIsSeen(s: State, c: CallId, sid: SessionId)
    requires Inv(s) && SawAlive(s, c, sid) && s.calls[c].Authenticating?
    ensures var s' := Apply(s, ReadSession(c));
            && c in s'.calls && s'.calls[c].SessionSeen? && s'.calls[c].session == sid
            && EnabledUser(s'.db, s'.calls[c].user)
  {
    assert sid in WithToken(s.db, s.calls[c].token);
    assert Find(s.db, s.calls[c].token) == Some(sid);
  }

  // ----- what the account operations leave

  // The step changes the row of the user, and to what.
  predicate UserStep(s: State, step: Step, row: User, row': User, u: UserId) {
    match step
    case SetRole(v, role) => row' == if v == u then User(role, row.enabled, row.password) else row
    case Disable(v, last, now) => row' == if v == u && !last && now <= s.clock then User(row.role, false, row.password) else row
    case Reset(v, password, now) => row' == if v == u && now <= s.clock then User(row.role, row.enabled, password) else row
    case ChangeOwn(v, current, password, _, now) =>
      row' == if v == u && row.enabled && row.password == current && now <= s.clock then User(row.role, row.enabled, password) else row
    case _ => row' == row
  }

  // A user row is created as asked for, changed by its own operations only, and never removed.
  lemma UsersChangeExactly(s: State, step: Step, u: UserId)
    ensures var s' := Apply(s, step);
            if u in s.db.users then u in s'.db.users && UserStep(s, step, s.db.users[u], s'.db.users[u], u)
            else u in s'.db.users <==> step.NewUser? && step.user == u
    ensures u !in s.db.users && u in Apply(s, step).db.users ==> Apply(s, step).db.users[u] == step.row
  {
  }

  // An accepted disabling or password change ends every session of the user, except the one a
  // user spares when changing the own password.
  predicate Ends(s: State, step: Step, u: UserId, sid: SessionId) {
    && u in s.db.users && sid in s.db.sessions && s.db.sessions[sid].user == u
    && match step
       case Disable(v, last, now) => v == u && !last && now <= s.clock
       case Reset(v, _, now) => v == u && now <= s.clock
       case ChangeOwn(v, current, _, spared, now) =>
         v == u && s.db.users[u].enabled && s.db.users[u].password == current && now <= s.clock && spared != Some(sid)
       case _ => false
  }

  lemma EndedIsDead(s: State, step: Step, u: UserId, sid: SessionId)
    requires Ends(s, step, u, sid)
    ensures Dead(Apply(s, step).db, sid, Apply(s, step).clock)
  {
  }

  // From then on no later call is accepted for the session, whatever else happens.
  lemma EndedSessionsStayOut(steps: seq<Step>, step: Step, mid: seq<Step>, rest: seq<Step>, u: UserId, sid: SessionId, c: CallId)
    requires Ends(Run(steps), step, u, sid) && c !in Run(steps + [step] + mid).calls
    ensures Acceptances(Run(steps + [step] + mid + rest), c, sid) == Acceptances(Run(steps + [step] + mid), c, sid)
  {
    Then(steps, step);
    EndedIsDead(Run(steps), step, u, sid);
    hide Run, Apply, Dead, Ends;
    LaterCallsAreRefused(steps + [step], mid, rest, c, sid);
  }

  // A call that finds the owner of its session disabled revokes the session.
  lemma DisabledOwnerRevokes(steps: seq<Step>, c: CallId)
    requires c in Run(steps).calls && Run(steps).calls[c].SessionSeen?
    requires var db, user := Run(steps).db, Run(steps).calls[c].user; user !in db.users || !db.users[user].enabled
    ensures RevokedAt(Run(steps + [ReadOwner(c)] + [WriteRevocation(c)]).db, Run(steps).calls[c].session, Run(steps).calls[c].now)
  {
    RunKeeps(steps);
    Then(steps, ReadOwner(c));
    Then(steps + [ReadOwner(c)], WriteRevocation(c));
    hide Run;
  }

  // ----- every call ends once

  // How the call can end: accepted, with its revocation written, refused, or given up.
  ghost predicate EndsCall(s: State, step: Step, c: CallId) {
    c in s.calls &&
    match step
    case ReadOwner(d) => d == c && s.calls[c].SessionSeen? && s.calls[c].user in s.db.users && s.db.users[s.calls[c].user].enabled
    case WriteRevocation(d) => d == c && s.calls[c].Revoking?
    case EndCall(d) => d == c
    case ReadSession(d) => d == c && s.calls[c].Authenticating? && !ReadsAlive(s, s.calls[c].token, s.calls[c].now)
    case _ => false
  }

  // The token belongs to a session that is neither revoked nor expired.
  predicate ReadsAlive(s: State, token: Token, now: int) {
    exists sid :: sid in s.db.sessions && s.db.sessions[sid].token == token
                  && s.db.sessions[sid].revokedAt.None? && now < s.db.sessions[sid].expires
  }

  // A call is in flight from its beginning to one of these ends, neither shorter nor longer.
  lemma CallsEndExactly(s: State, step: Step, c: CallId)
    requires Inv(s) && c in s.calls
    ensures c in Apply(s, step).calls <==> !EndsCall(s, step, c)
  {
    if step.ReadSession? && step.call == c && s.calls[c].Authenticating? {
      var token := s.calls[c].token;
      if sid :| sid in s.db.sessions && s.db.sessions[sid].token == token {
        assert sid in WithToken(s.db, token);
        assert Find(s.db, token) == Some(sid);
      }
    }
    hide DbAfter;
  }

  // A call begins only when it is asked to, and a revocation only of a session it may revoke.
  lemma CallsBeginExactly(s: State, step: Step, c: CallId)
    requires Inv(s) && c !in s.calls
    ensures var s' := Apply(s, step);
            c in s'.calls <==>
              match step
              case StartAuthentication(d, _) => d == c
              case StartRevokeToken(d, token, now) =>
                d == c && now <= s.clock && exists sid :: sid in s.db.sessions && s.db.sessions[sid].token == token && s.db.sessions[sid].revokedAt.None?
              case StartRevokeById(d, sid, now) =>
                d == c && now <= s.clock && sid in s.db.sessions && s.db.sessions[sid].revokedAt.None? && now < s.db.sessions[sid].expires
              case _ => false
  {
    if step.StartRevokeToken? {
      if sid :| sid in s.db.sessions && s.db.sessions[sid].token == step.token {
        assert sid in WithToken(s.db, step.token);
        assert Find(s.db, step.token) == Some(sid);
      }
    }
    hide DbAfter;
  }

  function Begun(steps: seq<Step>, c: CallId): nat {
    if steps == [] then 0
    else Begun(steps[..|steps| - 1], c) + if IsStartOf(steps[|steps| - 1], c) then 1 else 0
  }

  predicate IsStartOf(step: Step, c: CallId) {
    (step.StartAuthentication? || step.StartRevokeToken? || step.StartRevokeById?) && step.call == c
  }

  // How often the call number was accepted, for whatever session.
  function AcceptedTimes(log: seq<Accepted>, c: CallId): nat {
    if log == [] then 0 else AcceptedTimes(log[..|log| - 1], c) + if log[|log| - 1].call == c then 1 else 0
  }

  lemma AcceptedStep(s: State, step: Step, c: CallId)
    ensures var s' := Apply(s, step);
            AcceptedTimes(s'.log, c) + (if c in s'.calls then 1 else 0)
            <= AcceptedTimes(s.log, c) + (if c in s.calls then 1 else 0) + (if IsStartOf(step, c) then 1 else 0)
  {
    hide DbAfter, Find;
    if step.ReadOwner? { assert forall a: Accepted :: (s.log + [a])[..|s.log|] == s.log; }
  }

  // A call number is accepted at most as often as a call was begun under it.
  lemma {:induction false} AcceptedOncePerCall(steps: seq<Step>, c: CallId)
    ensures AcceptedTimes(Run(steps).log, c) + (if c in Run(steps).calls then 1 else 0) <= Begun(steps, c)
  {
    hide Apply;
    if steps != [] {
      var n := |steps| - 1;
      AcceptedOncePerCall(steps[..n], c);
      AcceptedStep(Run(steps[..n]), steps[n], c);
    }
  }

  // ----- what was accepted was alive

  // The call started at step `i` with the token of the session, and read the session at step `m`:
  // it was not revoked, and had not expired by the clock of the start.
  ghost predicate ReadAlive(steps: seq<Step>, i: nat, m: nat, c: CallId, sid: SessionId) {
    && i < m < |steps|
    && steps[i].StartAuthentication? && steps[i].call == c && steps[m] == ReadSession(c)
    && var db := Run(steps[..m]).db;
       && sid in db.sessions && db.sessions[sid].token == steps[i].token
       && db.sessions[sid].revokedAt.None? && Run(steps[..i]).clock < db.sessions[sid].expires
  }

  lemma {:induction false} StartedAt(steps: seq<Step>, c: CallId) returns (i: nat)
    requires c in Run(steps).calls && Run(steps).calls[c].Authenticating?
    ensures i < |steps| && steps[i] == StartAuthentication(c, Run(steps).calls[c].token)
    ensures Run(steps[..i]).clock == Run(steps).calls[c].now
  {
    var last := |steps| - 1;
    var init := steps[..last];
    hide DbAfter, ApplyStartRevoke;
    if c in Run(init).calls && Run(init).calls[c] == Run(steps).calls[c] {
      hide Apply;
      i := StartedAt(init, c);
      assert init[..i] == steps[..i] && init[i] == steps[i];
    } else {
      i := last;
    }
  }

  lemma {:induction false} SeenAt(steps: seq<Step>, c: CallId) returns (i: nat, m: nat)
    requires c in Run(steps).calls && Run(steps).calls[c].SessionSeen?
    ensures ReadAlive(steps, i, m, c, Run(steps).calls[c].session)
    ensures Run(steps).calls[c].session in Run(steps).db.sessions
            && Run(steps).db.sessions[Run(steps).calls[c].session].user == Run(steps).calls[c].user
  {
    RunKeeps(steps);
    var last := |steps| - 1;
    var init := steps[..last];
    hide DbAfter, Inv;
    if c in Run(init).calls && Run(init).calls[c] == Run(steps).calls[c] {
      hide Apply;
      i, m := SeenAt(init, c);
      assert init[..i] == steps[..i] && init[i] == steps[i] && init[..m] == steps[..m] && init[m] == steps[m];
    } else {
      i := StartedAt(init, c);
      m := last;
      assert init[..i] == steps[..i] && init[i] == steps[i];
    }
  }

  // The call read the session alive, and its owner as enabled at step `n` after that.
  ghost predicate AcceptedAlive(steps: seq<Step>, i: nat, m: nat, n: nat, c: CallId, sid: SessionId) {
    && ReadAlive(steps, i, m, c, sid) && m < n < |steps| && steps[n] == ReadOwner(c)
    && var db := Run(steps[..n]).db;
       sid in db.sessions && db.sessions[sid].user in db.users && db.users[db.sessions[sid].user].enabled
  }

  lemma AliveOn(steps: seq<Step>, i: nat, m: nat, n: nat, c: CallId, sid: SessionId)
    requires steps != [] && AcceptedAlive(steps[..|steps| - 1], i, m, n, c, sid)
    ensures AcceptedAlive(steps, i, m, n, c, sid)
  {
    hide Run;
    var init := steps[..|steps| - 1];
    assert init[..i] == steps[..i] && init[..m] == steps[..m] && init[..n] == steps[..n];
    assert init[i] == steps[i] && init[m] == steps[m] && init[n] == steps[n];
  }

  lemma NewlyAccepted(s: State, step: Step, c: CallId, sid: SessionId)
    requires Accepted(c, sid) in Apply(s, step).log && Accepted(c, sid) !in s.log
    ensures step == ReadOwner(c) && c in s.calls && s.calls[c].SessionSeen? && s.calls[c].session == sid
    ensures s.calls[c].user in s.db.users && s.db.users[s.calls[c].user].enabled
  {
    hide DbAfter;
  }

  // Whoever was accepted for a session had read it unrevoked and unexpired, and after that its
  // owner as enabled.
  lemma {:induction false} AcceptedWasAlive(steps: seq<Step>, c: CallId, sid: SessionId)
    requires Accepted(c, sid) in Run(steps).log
    ensures exists i: nat, m: nat, n: nat :: AcceptedAlive(steps, i, m, n, c, sid)
  {
    hide Apply, ReadAlive, AcceptedAlive;
    if steps != [] {
      var last := |steps| - 1;
      var init := steps[..last];
      if Accepted(c, sid) in Run(init).log {
        AcceptedWasAlive(init, c, sid);
        var i: nat, m: nat, n: nat :| AcceptedAlive(init, i, m, n, c, sid);
        AliveOn(steps, i, m, n, c, sid);
      } else {
        NewlyAccepted(Run(init), steps[last], c, sid);
        var i, m := SeenAt(init, c);
        AliveNow(steps, i, m, c, sid);
      }
    }
  }

  lemma AliveNow(steps: seq<Step>, i: nat, m: nat, c: CallId, sid: SessionId)
    requires steps != [] && ReadAlive(steps[..|steps| - 1], i, m, c, sid) && steps[|steps| - 1] == ReadOwner(c)
    requires var db := Run(steps[..|steps| - 1]).db;
             sid in db.sessions && db.sessions[sid].user in db.users && db.users[db.sessions[sid].user].enabled
    ensures AcceptedAlive(steps, i, m, |steps| - 1, c, sid)
  {
    hide Run;
    var init := steps[..|steps| - 1];
    assert init[..i] == steps[..i] && init[..m] == steps[..m] && init[i] == steps[i] && init[m] == steps[m];
  }

  // ----- the time of a revocation

  // No revocation time that is set changes.
  ghost predicate TimesKept(s: State, s': State) {
    forall sid :: sid in s.db.sessions && s.db.sessions[sid].revokedAt.Some? ==>
      sid in s'.db.sessions && s'.db.sessions[sid].revokedAt == s.db.sessions[sid].revokedAt
  }

  // The step writes a revocation over one that was made at another time.
  predicate LateWrite(s: State, step: Step) {
    && step.WriteRevocation? && step.call in s.calls && s.calls[step.call].Revoking?
    && var call := s.calls[step.call];
       && call.session in s.db.sessions && s.db.sessions[call.session].revokedAt.Some?
       && s.db.sessions[call.session].revokedAt.value != call.now
  }

  lemma StepKeepsTimes(s: State, step: Step)
    ensures TimesKept(s, Apply(s, step)) <==> !LateWrite(s, step)
  {
    var s' := Apply(s, step);
    if step.WriteRevocation? && step.call in s.calls && s.calls[step.call].Revoking? {
      var sid := s.calls[step.call].session;
      assert sid in s.db.sessions ==> s'.db.sessions[sid].revokedAt == Some(s.calls[step.call].now);
    }
  }

  ghost predicate KeptAt(steps: seq<Step>, n: nat)
    requires n < |steps|
  {
    TimesKept(Run(steps[..n]), Run(steps[..n + 1]))
  }

  // The call has read the session as one to be revoked, or as alive, and acts on it later.
  predicate Holds(s: State, c: CallId, sid: SessionId) {
    c in s.calls && (s.calls[c].SessionSeen? || s.calls[c].Revoking?) && s.calls[c].session == sid
  }

  predicate Unrevoked(db: Db, sid: SessionId) {
    sid in db.sessions && db.sessions[sid].revokedAt.None?
  }

  predicate RevokedAt(db: Db, sid: SessionId, time: int) {
    sid in db.sessions && db.sessions[sid].revokedAt == Some(time)
  }

  // The step turned the session from unrevoked to revoked at `time`.
  ghost predicate RevokedBy(steps: seq<Step>, j: nat, sid: SessionId, time: int)
    requires j < |steps|
  {
    Unrevoked(Run(steps[..j]).db, sid) && RevokedAt(Run(steps[..j + 1]).db, sid, time)
  }

  ghost predicate HeldSince(steps: seq<Step>, j: nat, n: nat, c: CallId, sid: SessionId)
    requires n <= |steps|
  {
    forall m :: j <= m <= n ==> Holds(Run(steps[..m]), c, sid)
  }

  // Step `n` writes the revocation of a session that the call has held since before another
  // step revoked it at another time.
  ghost predicate OvertakenAt(steps: seq<Step>, n: nat)
    requires n < |steps|
  {
    var s, step := Run(steps[..n]), steps[n];
    && step.WriteRevocation? && step.call in s.calls && s.calls[step.call].Revoking?
    && exists j: nat, time: int ::
         && j < n && HeldSince(steps, j, n, step.call, s.calls[step.call].session)
         && RevokedBy(steps, j, s.calls[step.call].session, time) && time != s.calls[step.call].now
  }

  // A call begins to hold a session while it is not revoked.
  lemma BeginsUnrevoked(s: State, step: Step, c: CallId, sid: SessionId)
    requires !Holds(s, c, sid) && Holds(Apply(s, step), c, sid)
    ensures Apply(s, step).db == s.db && Unrevoked(s.db, sid)
  {
    hide DbAfter;
  }

  // A call that holds a revoked session held it when it was revoked.
  lemma {:induction false} HeldWhenRevoked(steps: seq<Step>, n: nat, c: CallId, sid: SessionId) returns (j: nat, time: int)
    requires n <= |steps| && Holds(Run(steps[..n]), c, sid) && !Unrevoked(Run(steps[..n]).db, sid)
    ensures j < n && HeldSince(steps, j, n, c, sid) && RevokedBy(steps, j, sid, time)
    decreases n
  {
    hide Apply, Inv;
    if n == 0 {
      assert false;
    } else {
      assert steps[..n][..n - 1] == steps[..n - 1];
      var before, after := Run(steps[..n - 1]), Run(steps[..n]);
      assert after == Apply(before, steps[n - 1]);
      if !Holds(before, c, sid) { BeginsUnrevoked(before, steps[n - 1], c, sid); }
      if Unrevoked(before.db, sid) {
        StepEvolves(before, steps[n - 1]);
        assert SessionEvolves(before.db, after.db, sid);
        j, time := n - 1, after.db.sessions[sid].revokedAt.value;
      } else {
        j, time := HeldWhenRevoked(steps, n - 1, c, sid);
      }
    }
  }

  // While the times are kept, a revocation time stays what it was.
  lemma {:induction false} TimeStays(steps: seq<Step>, j: nat, n: nat, sid: SessionId, time: int)
    requires j <= n <= |steps| && RevokedAt(Run(steps[..j]).db, sid, time)
    requires forall m :: j <= m < n ==> KeptAt(steps, m)
    ensures RevokedAt(Run(steps[..n]).db, sid, time)
    decreases n
  {
    hide Run;
    if j < n {
      TimeStays(steps, j, n - 1, sid, time);
      assert KeptAt(steps, n - 1);
    }
  }

  lemma LateExactlyWhenNotKept(steps: seq<Step>, n: nat)
    requires n < |steps|
    ensures KeptAt(steps, n) <==> !LateWrite(Run(steps[..n]), steps[n])
  {
    assert steps[..n + 1][..n] == steps[..n];
    StepKeepsTimes(Run(steps[..n]), steps[n]);
  }

  // As long as the times were kept before, a step changes one exactly when it was overtaken.
  lemma FirstChangeIsOvertaken(steps: seq<Step>, n: nat)
    requires n < |steps| && forall m :: 0 <= m < n ==> KeptAt(steps, m)
    ensures KeptAt(steps, n) <==> !OvertakenAt(steps, n)
  {
    hide Run, KeptAt, HeldSince, RevokedBy;
    LateExactlyWhenNotKept(steps, n);
    var s, step := Run(steps[..n]), steps[n];
    if step.WriteRevocation? && step.call in s.calls && s.calls[step.call].Revoking? {
      var c, sid := step.call, s.calls[step.call].session;
      if LateWrite(s, step) {
        var j, time := HeldWhenRevoked(steps, n, c, sid);
        RevokedThenKept(steps, j, n, sid, time);
      }
      if j: nat, time: int :| j < n && HeldSince(steps, j, n, c, sid) && RevokedBy(steps, j, sid, time) && time != s.calls[c].now {
        RevokedThenKept(steps, j, n, sid, time);
      }
    }
  }

  lemma RevokedThenKept(steps: seq<Step>, j: nat, n: nat, sid: SessionId, time: int)
    requires j < n <= |steps| && RevokedBy(steps, j, sid, time)
    requires forall m :: 0 <= m < n ==> KeptAt(steps, m)
    ensures RevokedAt(Run(steps[..n]).db, sid, time)
  {
    TimeStays(steps, j + 1, n, sid, time);
  }

  // In a run the revocation times that are set stay as they are exactly when no call writes a
  // revocation after another one has revoked, at another time, the session that it holds.
  lemma TimesExactlyKept(steps: seq<Step>)
    ensures (forall n :: 0 <= n < |steps| ==> KeptAt(steps, n)) <==> (forall n :: 0 <= n < |steps| ==> !OvertakenAt(steps, n))
  {
    hide KeptAt, OvertakenAt;
    if forall n :: 0 <= n < |steps| ==> KeptAt(steps, n) {
      forall n | 0 <= n < |steps| ensures !OvertakenAt(steps, n) { FirstChangeIsOvertaken(steps, n); }
    }
    if forall n :: 0 <= n < |steps| ==> !OvertakenAt(steps, n) {
      NeverOvertaken(steps, |steps|);
    }
  }

  lemma {:induction false} NeverOvertaken(steps: seq<Step>, n: nat)
    requires n <= |steps| && forall m :: 0 <= m < |steps| ==> !OvertakenAt(steps, m)
    ensures forall m :: 0 <= m < n ==> KeptAt(steps, m)
    decreases n
  {
    hide KeptAt, OvertakenAt;
    if n > 0 {
      NeverOvertaken(steps, n - 1);
      FirstChangeIsOvertaken(steps, n - 1);
    }
  }

  // Two calls that revoke the same session can both write, and the later write loses the time of
  // the earlier one.
  lemma OverlappingRevocations()
    ensures exists steps: seq<Step>, n: nat :: n < |steps| && OvertakenAt(steps, n) && !KeptAt(steps, n)
  {
    var s0 := INIT.(db := Db(map["u" := User("viewer", true, "p")], map["s" := Session("u", "t", 9, None)]));
    var a, b := NewUser("u", User("viewer", true, "p")), Login("s", "u", "t", 9);
    Then([], a);
    Then([a], b);
    assert [] + [a] == [a] && [a] + [b] == [a, b];
    assert Run([]) == INIT;
    assert Run([a, b]) == s0;
    var c, d, e, f := StartRevokeById(1, "s", 0), Tick(1), StartRevokeById(2, "s", 1), WriteRevocation(1);
    Then([a, b], c);
    Then([a, b] + [c], d);
    Then([a, b] + [c] + [d], e);
    Then([a, b] + [c] + [d] + [e], f);
    var steps := [a, b] + [c] + [d] + [e] + [f];
    hide Run, OvertakenAt, KeptAt;
    var s4 := Apply(Apply(Apply(s0, c), d), e);
    assert s4 == s0.(clock := 1, calls := map[1 := Revoking("s", 0), 2 := Revoking("s", 1)]);
    assert Run(steps) == Apply(s4, f);
    assert LateWrite(Run(steps), WriteRevocation(2));
    LateIsOvertaken(steps, WriteRevocation(2));
  }

  // A late write ends a run in which some step was overtaken and lost a time.
  lemma LateIsOvertaken(steps: seq<Step>, step: Step)
    requires LateWrite(Run(steps), step)
    ensures exists all: seq<Step>, n: nat :: n < |all| && OvertakenAt(all, n) && !KeptAt(all, n)
  {
    var all := steps + [step];
    assert all[..|steps|] == steps;
    LateExactlyWhenNotKept(all, |steps|);
    hide Run, LateWrite, OvertakenAt, KeptAt;
    FirstLost(all, |steps|);
  }

  lemma {:induction false} FirstLost(steps: seq<Step>, n: nat)
    requires n < |steps| && !KeptAt(steps, n)
    ensures exists m: nat :: m < |steps| && OvertakenAt(steps, m) && !KeptAt(steps, m)
    decreases n
  {
    hide OvertakenAt, KeptAt;
    if m: nat :| m < n && !KeptAt(steps, m) {
      FirstLost(steps, m);
    } else {
      FirstChangeIsOvertaken(steps, n);
    }
  }

  lemma Then(steps: seq<Step>, step: Step)
    ensures Run(steps + [step]) == Apply(Run(steps), step)
  {
    assert (steps + [step])[..|steps|] == steps;
  }
}
