/**
 User accounts and login sessions: what each account operation does to the rows.
 */
module Accounts {
  import opened Wrappers

  type UserId = string
  type SessionId = string
  type Token = string

  datatype User = User(role: string, enabled: bool, password: string)

  // Tokens stand for their hashes.
  datatype Session = Session(user: UserId, token: Token, expires: int, revokedAt: Option<int>)

  datatype Status = Active | Expired | Revoked

  datatype Db = Db(users: map<UserId, User>, sessions: map<SessionId, Session>)

  datatype AccountError = UserNotFound | UserExists | PasswordInvalid | LastEnabledAdmin | SessionNotFound

  function StatusAt(s: Session, now: int): (r: Status)
    ensures r.Active? <==> s.revokedAt.None? && now < s.expires
    ensures r.Revoked? <==> s.revokedAt.Some?
  {
    if s.revokedAt.Some? then Revoked else if s.expires <= now then Expired else Active
  }

  // ----- bulk revocation

  // The sessions one bulk revocation hits; `spared` is left out of it.
  function Hit(db: Db, user: UserId, now: int, spared: Option<SessionId>): set<SessionId> {
    set sid | sid in db.sessions && db.sessions[sid].user == user && StatusAt(db.sessions[sid], now).Active? && Some(sid) != spared
  }

  function RevokeAll(db: Db, user: UserId, now: int, spared: Option<SessionId>): Db {
    db.(sessions := map sid | sid in db.sessions ::
      if sid in Hit(db, user, now, spared) then db.sessions[sid].(revokedAt := Some(now)) else db.sessions[sid])
  }

  function NewlyRevoked(db: Db, db': Db): set<SessionId> {
    set sid | sid in db.sessions && sid in db'.sessions && db.sessions[sid].revokedAt.None? && db'.sessions[sid].revokedAt.Some?
  }

  // A bulk revocation turns the user's active sessions, the spared one aside, from active to
  // revoked, and touches no other.
  lemma RevokeAllExact(db: Db, user: UserId, now: int, spared: Option<SessionId>)
    ensures var db' := RevokeAll(db, user, now, spared);
            && NewlyRevoked(db, db') == Hit(db, user, now, spared)
            && db'.users == db.users && db'.sessions.Keys == db.sessions.Keys
            && (forall sid :: sid in db'.sessions && db'.sessions[sid].user == user && Some(sid) != spared ==>
                  !StatusAt(db'.sessions[sid], now).Active?)
            && (forall sid :: sid in db.sessions && sid !in Hit(db, user, now, spared) ==> db'.sessions[sid] == db.sessions[sid])
            && (forall sid :: sid in Hit(db, user, now, spared) ==>
                  StatusAt(db.sessions[sid], now).Active? && db'.sessions[sid] == db.sessions[sid].(revokedAt := Some(now)))
            && (forall sid :: sid in NewlyRevoked(db, db') <==>
                  && sid in db.sessions && db.sessions[sid].user == user && Some(sid) != spared
                  && db.sessions[sid].revokedAt.None? && now < db.sessions[sid].expires)
  {
  }

  // ----- single sessions

  predicate Sole(db: Db) {
    forall a, b :: a in db.sessions && b in db.sessions && db.sessions[a].token == db.sessions[b].token ==> a == b
  }

  function WithToken(db: Db, token: Token): set<SessionId> {
    set sid | sid in db.sessions && db.sessions[sid].token == token
  }

  // The session a token belongs to. Tokens are unique, so there is at most one.
  ghost function Find(db: Db, token: Token): (r: Option<SessionId>)
    ensures r.Some? ==> r.value in db.sessions && db.sessions[r.value].token == token
    ensures r.None? <==> WithToken(db, token) == {}
  {
    if WithToken(db, token) == {} then None else var sid :| sid in WithToken(db, token); Some(sid)
  }

  function RevokedNow(db: Db, sid: SessionId, now: int): Db {
    if sid in db.sessions then db.(sessions := db.sessions[sid := db.sessions[sid].(revokedAt := Some(now))]) else db
  }

  function EnabledUser(db: Db, user: UserId): bool {
    user in db.users && db.users[user].enabled
  }

  // A session that will not authenticate at `now`, nor ever after.
  predicate Dead(db: Db, sid: SessionId, now: int) {
    && sid in db.sessions
    && (!StatusAt(db.sessions[sid], now).Active? || !EnabledUser(db, db.sessions[sid].user))
  }

  /** The account tables, changed one call at a time. */
  class Store {
    var users: map<UserId, User>
    var sessions: map<SessionId, Session>

    constructor (db: Db)
      ensures View() == db
    {
      users, sessions := db.users, db.sessions;
    }

    function View(): Db
      reads this
    {
      Db(users, sessions)
    }

    method CreateUser(user: UserId, row: User) returns (r: Result<(), AccountError>)
      modifies this`users
      ensures r.Ok? <==> user !in old(users)
      ensures users == if r.Ok? then old(users)[user := row] else old(users)
    {
      if user in users { return Err(UserExists); }
      users := users[user := row];
      return Ok(());
    }

    method CreateSession(sid: SessionId, user: UserId, token: Token, now: int, ttl: int)
      requires sid !in sessions && WithToken(View(), token) == {}
      modifies this`sessions
      ensures sessions == old(sessions)[sid := Session(user, token, now + ttl, None)]
      ensures old(Sole(View())) ==> Sole(View())
    {
      assert forall other :: other in sessions ==> other in WithToken(View(), sessions[other].token);
      sessions := sessions[sid := Session(user, token, now + ttl, None)];
    }

    method RevokeActiveSessions(user: UserId, now: int, spared: Option<SessionId>) returns (revoked: nat)
      modifies this`sessions
      ensures View() == RevokeAll(old(View()), user, now, spared)
      ensures revoked == |NewlyRevoked(old(View()), View())|
    {
      var hit := Hit(View(), user, now, spared);
      RevokeAllExact(View(), user, now, spared);
      sessions := map sid | sid in sessions :: if sid in hit then sessions[sid].(revokedAt := Some(now)) else sessions[sid];
      revoked := |hit|;
    }

    // `last` says that the user is the last enabled administrator.
    method DisableUser(user: UserId, last: bool, now: int) returns (r: Result<nat, AccountError>)
      modifies this
      ensures r.Ok? <==> user in old(users) && !last
      ensures r.Ok? ==>
        && users == old(users)[user := old(users)[user].(enabled := false)]
        && sessions == RevokeAll(old(View()), user, now, None).sessions
        && r.value == |NewlyRevoked(old(View()), View())|
        && forall sid :: sid in sessions && sessions[sid].user == user ==> Dead(View(), sid, now)
      ensures r.Err? ==> View() == old(View())
    {
      if user !in users { return Err(UserNotFound); }
      if last { return Err(LastEnabledAdmin); }
      users := users[user := users[user].(enabled := false)];
      var revoked := RevokeActiveSessions(user, now, None);
      RevokeAllExact(old(View()), user, now, None);
      return Ok(revoked);
    }

    method ResetPassword(user: UserId, password: string, now: int) returns (r: Result<nat, AccountError>)
      modifies this
      ensures r.Ok? <==> user in old(users)
      ensures r.Ok? ==>
        && users == old(users)[user := old(users)[user].(password := password)]
        && sessions == RevokeAll(old(View()), user, now, None).sessions
        && r.value == |NewlyRevoked(old(View()), View())|
        && forall sid :: sid in sessions && sessions[sid].user == user ==> Dead(View(), sid, now)
      ensures r.Err? ==> View() == old(View())
    {
      if user !in users { return Err(UserNotFound); }
      users := users[user := users[user].(password := password)];
      var revoked := RevokeActiveSessions(user, now, None);
      RevokeAllExact(old(View()), user, now, None);
      return Ok(revoked);
    }

    method ChangeOwnPassword(user: UserId, current: string, password: string, spared: Option<SessionId>, now: int)
      returns (r: Result<nat, AccountError>)
      modifies this
      ensures r.Ok? <==> EnabledUser(old(View()), user) && old(users)[user].password == current
      ensures r.Ok? ==>
        && users == old(users)[user := old(users)[user].(password := password)]
        && sessions == RevokeAll(old(View()), user, now, spared).sessions
        && r.value == |NewlyRevoked(old(View()), View())|
        && (forall sid :: sid in sessions && sessions[sid].user == user && Some(sid) != spared ==> Dead(View(), sid, now))
        && (spared.Some? && spared.value in sessions ==> sessions[spared.value] == old(sessions)[spared.value])
      ensures r.Err? ==> View() == old(View())
    {
      if user !in users || !users[user].enabled { return Err(UserNotFound); }
      if users[user].password != current { return Err(PasswordInvalid); }
      users := users[user := users[user].(password := password)];
      var revoked := RevokeActiveSessions(user, now, spared);
      RevokeAllExact(old(View()), user, now, spared);
      return Ok(revoked);
    }

    method ActorForSessionToken(sid: Option<SessionId>, token: Token, now: int) returns (actor: Option<UserId>)
      requires sid == Find(View(), token)
      modifies this`sessions
      ensures actor.Some? <==> sid.Some? && !Dead(old(View()), sid.value, now)
      ensures actor.Some? ==>
        && old(sessions)[sid.value].revokedAt.None? && now < old(sessions)[sid.value].expires
        && actor.value in users && users[actor.value].enabled
      ensures actor.Some? ==> actor.value == old(sessions)[sid.value].user && View() == old(View())
      ensures actor.None? ==>
        View() == (if sid.Some? && StatusAt(old(sessions)[sid.value], now).Active? then RevokedNow(old(View()), sid.value, now)
                   else old(View()))
    {
      if sid.None? || sessions[sid.value].revokedAt.Some? { return None; }
      var row := sessions[sid.value];
      if row.expires <= now { return None; }
      if row.user !in users || !users[row.user].enabled {
        sessions := sessions[sid.value := row.(revokedAt := Some(now))];
        return None;
      }
      return Some(row.user);
    }

    method RevokeSessionToken(sid: Option<SessionId>, token: Token, now: int) returns (revoked: bool)
      requires sid == Find(View(), token)
      modifies this`sessions
      ensures revoked <==> sid.Some? && old(sessions)[sid.value].revokedAt.None?
      ensures View() == if revoked then RevokedNow(old(View()), sid.value, now) else old(View())
    {
      if sid.None? || sessions[sid.value].revokedAt.Some? { return false; }
      sessions := sessions[sid.value := sessions[sid.value].(revokedAt := Some(now))];
      return true;
    }

    method RevokeSessionById(sid: SessionId, now: int) returns (r: Result<(bool, Status), AccountError>)
      modifies this`sessions
      ensures r.Ok? <==> sid in old(sessions) && old(sessions)[sid].user in users
      ensures r.Ok? ==>
        && r.value.1 == StatusAt(old(sessions)[sid], now)
        && r.value.0 == StatusAt(old(sessions)[sid], now).Active?
        && r.value.0 == (NewlyRevoked(old(View()), View()) == {sid})
        && View() == if r.value.0 then RevokedNow(old(View()), sid, now) else old(View())
      ensures r.Err? ==> View() == old(View())
    {
      if sid !in sessions || sessions[sid].user !in users { return Err(SessionNotFound); }
      var status := StatusAt(sessions[sid], now);
      if status.Active? {
        sessions := sessions[sid := sessions[sid].(revokedAt := Some(now))];
        assert sid in NewlyRevoked(old(View()), View());
      } else {
        assert sid !in NewlyRevoked(old(View()), View());
      }
      return Ok((status.Active?, status));
    }
  }
}
