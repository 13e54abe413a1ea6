/** Password login, lockout and opaque sessions (app/authentication/service.py). */
module Authentication {
  import opened Options

  type Time = int
  type UserId = int
  type SessionId = string
  type Email = string

  /** `session_ttl`, `login_max_failures` and `lockout_duration`. */
  datatype Config = Config(ttl: Time, maxFailures: nat, lockout: Time)

  /** The ranges app/config.py enforces on the three settings. */
  predicate ValidConfig(cfg: Config) {
    cfg.ttl > 0 && cfg.maxFailures >= 1 && cfg.lockout > 0
  }

  /** Argon2 verification and the SHA-256 token digest, as arbitrary functions. */
  datatype Crypto = Crypto(verify: (string, string) -> bool, digest: string -> string)

  datatype UserStatus = UserActive | UserDisabled
  datatype User = User(status: UserStatus, isServiceAccount: bool, passwordHash: string, failedLoginCount: nat, lockedUntil: Option<Time>)

  datatype SessionStatus = SessionActive | SessionRevoked | SessionExpired
  datatype Session = Session(userId: UserId, tokenHash: string, status: SessionStatus, revokedAt: Option<Time>, expiresAt: Time)

  /** `emails` and `sessionIds` are the unique indexes on normalized_email and token_hash. */
  datatype State = State(users: map<UserId, User>, emails: map<Email, UserId>, sessions: map<SessionId, Session>, sessionIds: map<string, SessionId>)

  const EMPTY := State(map[], map[], map[], map[])

  /** `rehash` is the new hash when the stored one uses outdated parameters; `newHash` is absent when the
      password policy rejects the new password. */
  datatype Request =
    | CreateUser(id: UserId, email: Email, newHash: Option<string>)
    | Login(email: Email, password: string, token: string, sessionId: SessionId, rehash: Option<string>)
    | Resolve(token: string)
    | RevokeSession(sessionId: SessionId, owner: UserId)
    | RevokeAll(userId: UserId)
    | SetPassword(userId: UserId, newHash: Option<string>)
    | ChangePassword(userId: UserId, current: string, newHash: Option<string>)
    | SetEnabled(userId: UserId, enabled: bool)

  datatype Result =
    | Done
    | LoggedIn(userId: UserId, sessionId: SessionId)
    | Resolved(userId: UserId, sessionId: SessionId)
    | Revoked(changed: bool)
    | RevokedMany(count: nat)
    | InvalidCredentials
    | TemporarilyLocked
    | WasRevoked
    | WasExpired
    | IdentityDisabled
    | Invalid
    | Conflict

  predicate Locked(user: User, now: Time) {
    user.lockedUntil.Some? && user.lockedUntil.value > now
  }

  predicate MayVerify(user: User, now: Time) {
    user.status == UserActive && !user.isServiceAccount && !Locked(user, now)
  }

  predicate PasswordMatches(crypto: Crypto, user: User, password: string) {
    user.passwordHash != "" && crypto.verify(user.passwordHash, password)
  }

  function AfterFailure(cfg: Config, user: User, now: Time): User {
    var count := user.failedLoginCount + 1;
    user.(failedLoginCount := count,
          lockedUntil := if count >= cfg.maxFailures then Some(now + cfg.lockout) else user.lockedUntil)
  }

  function AfterSuccess(user: User, rehash: Option<string>): User {
    user.(passwordHash := if rehash.Some? then rehash.value else user.passwordHash, failedLoginCount := 0, lockedUntil := None)
  }

  /** A raised exception inside the transaction leaves the state as it was. */
  function LoginStep(cfg: Config, crypto: Crypto, s: State, now: Time, r: Request): (State, Result)
    requires r.Login? && IndexesMatch(s)
  {
    if r.email !in s.emails then (s, InvalidCredentials)
    else
      var id := s.emails[r.email];
      var user := s.users[id];
      if user.status != UserActive || user.isServiceAccount then (s, InvalidCredentials)
      else if Locked(user, now) then (s, TemporarilyLocked)
      else if !PasswordMatches(crypto, user, r.password) then
        (s.(users := s.users[id := AfterFailure(cfg, user, now)]), InvalidCredentials)
      else if |r.token| < 32 then (s, Invalid)
      else if r.sessionId in s.sessions || crypto.digest(r.token) in s.sessionIds then (s, Conflict)
      else
        (s.(users := s.users[id := AfterSuccess(user, r.rehash)],
            sessions := s.sessions[r.sessionId := Session(id, crypto.digest(r.token), SessionActive, None, now + cfg.ttl)],
            sessionIds := s.sessionIds[crypto.digest(r.token) := r.sessionId]),
         LoggedIn(id, r.sessionId))
  }

  function ResolveStep(crypto: Crypto, s: State, now: Time, token: string): (State, Result)
    requires IndexesMatch(s)
  {
    if |token| < 32 || |token| > 2048 then (s, InvalidCredentials)
    else if crypto.digest(token) !in s.sessionIds then (s, InvalidCredentials)
    else
      var id := s.sessionIds[crypto.digest(token)];
      var session := s.sessions[id];
      if session.status != SessionActive || session.revokedAt.Some? then (s, WasRevoked)
      else if session.expiresAt <= now then
        (s.(sessions := s.sessions[id := session.(status := SessionExpired)]), WasExpired)
      else if session.userId !in s.users || s.users[session.userId].status != UserActive then (s, IdentityDisabled)
      else (s, Resolved(session.userId, id))
  }

  function Revoke(session: Session, now: Time): Session {
    if session.status == SessionActive then session.(status := SessionRevoked, revokedAt := Some(now)) else session
  }

  /** The UPDATE of `_revoke_sessions_in_transaction`. */
  function RevokeUser(sessions: map<SessionId, Session>, userId: UserId, now: Time): map<SessionId, Session> {
    map id | id in sessions :: if sessions[id].userId == userId then Revoke(sessions[id], now) else sessions[id]
  }

  function ActiveSessions(sessions: map<SessionId, Session>, userId: UserId): set<SessionId> {
    set id | id in sessions && sessions[id].userId == userId && sessions[id].status == SessionActive
  }

  function RevokeSessionStep(s: State, now: Time, id: SessionId, owner: UserId): (State, Result) {
    if id !in s.sessions then (s, Revoked(false))
    else if s.sessions[id].userId != owner then (s, InvalidCredentials)
    else (s.(sessions := s.sessions[id := Revoke(s.sessions[id], now)]), Revoked(s.sessions[id].status == SessionActive))
  }

  function WithPassword(s: State, now: Time, userId: UserId, hash: string): State
    requires userId in s.users
  {
    s.(users := s.users[userId := s.users[userId].(passwordHash := hash, failedLoginCount := 0, lockedUntil := None)],
       sessions := RevokeUser(s.sessions, userId, now))
  }

  function SetPasswordStep(s: State, now: Time, userId: UserId, newHash: Option<string>): (State, Result) {
    if newHash.None? || userId !in s.users || s.users[userId].isServiceAccount then (s, Invalid)
    else (WithPassword(s, now, userId, newHash.value), Done)
  }

  function ChangePasswordStep(crypto: Crypto, s: State, now: Time, userId: UserId, current: string, newHash: Option<string>): (State, Result) {
    if newHash.None? then (s, Invalid)
    else if userId !in s.users || !(s.users[userId].status == UserActive && !s.users[userId].isServiceAccount
                                    && PasswordMatches(crypto, s.users[userId], current)) then (s, InvalidCredentials)
    else (WithPassword(s, now, userId, newHash.value), RevokedMany(|ActiveSessions(s.sessions, userId)|))
  }

  function SetEnabledStep(s: State, now: Time, userId: UserId, enabled: bool): (State, Result) {
    if userId !in s.users then (s, Invalid)
    else (s.(users := s.users[userId := s.users[userId].(status := if enabled then UserActive else UserDisabled)],
             sessions := if enabled then s.sessions else RevokeUser(s.sessions, userId, now)), Done)
  }

  function CreateUserStep(s: State, id: UserId, email: Email, newHash: Option<string>): (State, Result) {
    if newHash.None? then (s, Invalid)
    else if id in s.users || email in s.emails then (s, Conflict)
    else (s.(users := s.users[id := User(UserActive, false, newHash.value, 0, None)], emails := s.emails[email := id]), Done)
  }

  /** Foreign keys and unique indexes. */
  ghost predicate IndexesMatch(s: State) {
    && (forall email :: email in s.emails ==> s.emails[email] in s.users)
    && (forall hash :: hash in s.sessionIds ==> s.sessionIds[hash] in s.sessions && s.sessions[s.sessionIds[hash]].tokenHash == hash)
    && (forall id :: id in s.sessions ==> s.sessions[id].tokenHash in s.sessionIds && s.sessionIds[s.sessions[id].tokenHash] == id)
    && (forall id :: id in s.sessions ==> s.sessions[id].userId in s.users)
  }

  function Apply(cfg: Config, crypto: Crypto, s: State, now: Time, r: Request): (o: (State, Result))
    requires IndexesMatch(s)
    ensures IndexesMatch(o.0)
  {
    match r
    case CreateUser(id, email, newHash) => CreateUserStep(s, id, email, newHash)
    case Login(_, _, _, _, _) => LoginStep(cfg, crypto, s, now, r)
    case Resolve(token) => ResolveStep(crypto, s, now, token)
    case RevokeSession(id, owner) => RevokeSessionStep(s, now, id, owner)
    case RevokeAll(userId) =>
      (s.(sessions := RevokeUser(s.sessions, userId, now)), RevokedMany(|ActiveSessions(s.sessions, userId)|))
    case SetPassword(userId, newHash) => SetPasswordStep(s, now, userId, newHash)
    case ChangePassword(userId, current, newHash) => ChangePasswordStep(crypto, s, now, userId, current, newHash)
    case SetEnabled(userId, enabled) => SetEnabledStep(s, now, userId, enabled)
  }

  /** The service over its tables. Every operation is one transaction. */
  class AuthenticationService {
    const cfg: Config
    const crypto: Crypto
    var users: map<UserId, User>
    var emails: map<Email, UserId>
    var sessions: map<SessionId, Session>
    var sessionIds: map<string, SessionId>

    ghost function Current(): State
      reads this
    {
      State(users, emails, sessions, sessionIds)
    }

    ghost predicate Valid()
      reads this
    {
      IndexesMatch(Current())
    }

    constructor (cfg: Config, crypto: Crypto)
      ensures Valid() && Current() == EMPTY && this.cfg == cfg && this.crypto == crypto
    {
      this.cfg, this.crypto := cfg, crypto;
      users, emails, sessions, sessionIds := map[], map[], map[], map[];
    }

    method CreateUser(now: Time, id: UserId, email: Email, newHash: Option<string>) returns (result: Result)
      requires Valid()
      modifies this
      ensures Valid() && (Current(), result) == Apply(cfg, crypto, old(Current()), now, Request.CreateUser(id, email, newHash))
    {
      if newHash.None? {
        return Invalid;
      }
      if id in users || email in emails {
        return Conflict;
      }
      users := users[id := User(UserActive, false, newHash.value, 0, None)];
      emails := emails[email := id];
      result := Done;
    }

    method AuthenticatePassword(now: Time, email: Email, password: string, token: string, sessionId: SessionId, rehash: Option<string>)
      returns (result: Result)
      requires Valid()
      modifies this
      ensures Valid() && (Current(), result) == Apply(cfg, crypto, old(Current()), now, Login(email, password, token, sessionId, rehash))
    {
      if email !in emails {
        return InvalidCredentials;
      }
      var id := emails[email];
      var user := users[id];
      if user.status != UserActive || user.isServiceAccount {
        return InvalidCredentials;
      }
      if Locked(user, now) {
        return TemporarilyLocked;
      }
      if !PasswordMatches(crypto, user, password) {
        user := user.(failedLoginCount := user.failedLoginCount + 1);
        if user.failedLoginCount >= cfg.maxFailures {
          user := user.(lockedUntil := Some(now + cfg.lockout));
        }
        users := users[id := user];
        return InvalidCredentials;
      }
      result := OpenSession(now, email, password, token, sessionId, rehash);
    }

    /** The password was right: a new session under a fresh token. */
    method OpenSession(now: Time, email: Email, password: string, token: string, sessionId: SessionId, rehash: Option<string>)
      returns (result: Result)
      requires Valid() && email in emails && MayVerify(users[emails[email]], now) && PasswordMatches(crypto, users[emails[email]], password)
      modifies this
      ensures Valid() && (Current(), result) == LoginStep(cfg, crypto, old(Current()), now, Login(email, password, token, sessionId, rehash))
    {
      var id := emails[email];
      var user := users[id];
      if |token| < 32 {
        return Invalid;
      }
      var hash := crypto.digest(token);
      if sessionId in sessions || hash in sessionIds {
        return Conflict;
      }
      if rehash.Some? {
        user := user.(passwordHash := rehash.value);
      }
      users := users[id := user.(failedLoginCount := 0, lockedUntil := None)];
      sessions := sessions[sessionId := Session(id, hash, SessionActive, None, now + cfg.ttl)];
      sessionIds := sessionIds[hash := sessionId];
      result := LoggedIn(id, sessionId);
    }

    method ResolveSession(now: Time, token: string) returns (result: Result)
      requires Valid()
      modifies this
      ensures Valid() && (Current(), result) == Apply(cfg, crypto, old(Current()), now, Resolve(token))
    {
      if |token| < 32 || |token| > 2048 {
        return InvalidCredentials;
      }
      var hash := crypto.digest(token);
      if hash !in sessionIds {
        return InvalidCredentials;
      }
      var id := sessionIds[hash];
      var session := sessions[id];
      if session.status != SessionActive || session.revokedAt.Some? {
        result := WasRevoked;
      } else if session.expiresAt <= now {
        sessions := sessions[id := session.(status := SessionExpired)];
        result := WasExpired;
      } else if session.userId !in users || users[session.userId].status != UserActive {
        result := IdentityDisabled;
      } else {
        result := Resolved(session.userId, id);
      }
    }

    method RevokeSession(now: Time, sessionId: SessionId, owner: UserId) returns (result: Result)
      requires Valid()
      modifies this
      ensures Valid() && (Current(), result) == Apply(cfg, crypto, old(Current()), now, Request.RevokeSession(sessionId, owner))
    {
      if sessionId !in sessions {
        return Revoked(false);
      }
      var session := sessions[sessionId];
      if session.userId != owner {
        return InvalidCredentials;
      }
      if session.status == SessionActive {
        sessions := sessions[sessionId := session.(status := SessionRevoked, revokedAt := Some(now))];
        return Revoked(true);
      }
      assert sessions == sessions[sessionId := session];
      result := Revoked(false);
    }

    method RevokeSessionsInTransaction(now: Time, userId: UserId) returns (count: nat)
      modifies this`sessions
      ensures sessions == RevokeUser(old(sessions), userId, now)
      ensures count == |ActiveSessions(old(sessions), userId)|
    {
      var active := ActiveSessions(sessions, userId);
      sessions := map id | id in sessions ::
        if id in active then sessions[id].(status := SessionRevoked, revokedAt := Some(now)) else sessions[id];
      count := |active|;
    }

    method RevokeAllUserSessions(now: Time, userId: UserId) returns (result: Result)
      requires Valid()
      modifies this
      ensures Valid() && (Current(), result) == Apply(cfg, crypto, old(Current()), now, RevokeAll(userId))
    {
      var count := RevokeSessionsInTransaction(now, userId);
      result := RevokedMany(count);
    }

    method SetPassword(now: Time, userId: UserId, newHash: Option<string>) returns (result: Result)
      requires Valid()
      modifies this
      ensures Valid() && (Current(), result) == Apply(cfg, crypto, old(Current()), now, Request.SetPassword(userId, newHash))
    {
      if newHash.None? || userId !in users || users[userId].isServiceAccount {
        return Invalid;
      }
      users := users[userId := users[userId].(passwordHash := newHash.value, failedLoginCount := 0, lockedUntil := None)];
      var _ := RevokeSessionsInTransaction(now, userId);
      result := Done;
    }

    method ChangePassword(now: Time, userId: UserId, current: string, newHash: Option<string>) returns (result: Result)
      requires Valid()
      modifies this
      ensures Valid() && (Current(), result) == Apply(cfg, crypto, old(Current()), now, Request.ChangePassword(userId, current, newHash))
    {
      if newHash.None? {
        return Invalid;
      }
      if userId !in users || users[userId].status != UserActive || users[userId].isServiceAccount
         || !PasswordMatches(crypto, users[userId], current) {
        return InvalidCredentials;
      }
      users := users[userId := users[userId].(passwordHash := newHash.value, failedLoginCount := 0, lockedUntil := None)];
      var count := RevokeSessionsInTransaction(now, userId);
      result := RevokedMany(count);
    }

    method SetUserEnabled(now: Time, userId: UserId, enabled: bool) returns (result: Result)
      requires Valid()
      modifies this
      ensures Valid() && (Current(), result) == Apply(cfg, crypto, old(Current()), now, SetEnabled(userId, enabled))
    {
      if userId !in users {
        return Invalid;
      }
      users := users[userId := users[userId].(status := if enabled then UserActive else UserDisabled)];
      if !enabled {
        var _ := RevokeSessionsInTransaction(now, userId);
      }
      result := Done;
    }
  }
}
