/** What whole runs of the authentication service guarantee: which tokens resolve, and how often a password
    can be tried. The inductions follow one session row, or one account, along a run. */
module AuthenticationHistory {
  import opened Options
  import opened Authentication

  datatype Event = Event(time: Time, request: Request)

  /** Events, the answer to each, and the states between them. */
  datatype Run = Run(events: seq<Event>, answers: seq<Result>, states: seq<State>)

  ghost predicate Steps(cfg: Config, crypto: Crypto, s: State, e: Event, answer: Result, s': State) {
    IndexesMatch(s) && Apply(cfg, crypto, s, e.time, e.request) == (s', answer)
  }

  /** A run of the service from the empty database, under a clock that never goes back. */
  ghost predicate IsRun(cfg: Config, crypto: Crypto, r: Run) {
    && |r.answers| == |r.events| && |r.states| == |r.events| + 1 && r.states[0] == EMPTY
    && (forall k :: 0 <= k < |r.events| ==> Steps(cfg, crypto, r.states[k], r.events[k], r.answers[k], r.states[k + 1]))
    && Monotone(r.events)
  }

  ghost predicate Monotone(events: seq<Event>) {
    forall i, j :: 0 <= i < j < |events| ==> events[i].time <= events[j].time
  }

  ghost predicate Injective(f: string -> string) {
    forall a, b :: f(a) == f(b) ==> a == b
  }

  ghost function Last(r: Run): State
    requires |r.states| > 0
  {
    r.states[|r.states| - 1]
  }

  /** Event `i` is the successful login that handed out `token` as session `id` of `user`. */
  ghost predicate Issued(r: Run, i: nat, token: string, user: UserId, id: SessionId) {
    && i < |r.events| == |r.answers| && r.events[i].request.Login? && r.events[i].request.token == token
    && r.answers[i] == LoggedIn(user, id)
  }

  /** The request revokes session `id` of `user`, or all sessions of `user`. */
  predicate Kills(request: Request, answer: Result, user: UserId, id: SessionId) {
    match request
    case RevokeSession(sessionId, owner) => sessionId == id && owner == user
    case RevokeAll(userId) => userId == user
    case SetPassword(userId, _) => userId == user && answer == Done
    case ChangePassword(userId, _, _) => userId == user && answer.RevokedMany?
    case SetEnabled(userId, enabled) => userId == user && !enabled
    case _ => false
  }

  ghost predicate EndedBetween(r: Run, i: nat, n: nat, user: UserId, id: SessionId)
    requires n <= |r.events| == |r.answers|
  {
    exists j :: i < j < n && Kills(r.events[j].request, r.answers[j], user, id)
  }

  /** A resolve of a token with this hash was told that the session is over its expiry. */
  predicate Expires(crypto: Crypto, request: Request, answer: Result, hash: string) {
    request.Resolve? && crypto.digest(request.token) == hash && answer == WasExpired
  }

  ghost predicate ExpiredBetween(crypto: Crypto, r: Run, i: nat, n: nat, hash: string)
    requires n <= |r.events| == |r.answers|
  {
    exists j :: i < j < n && Expires(crypto, r.events[j].request, r.answers[j], hash)
  }

  ghost function RowOf(s: State, id: SessionId): Option<Session> {
    if id in s.sessions then Some(s.sessions[id]) else None
  }

  /** What one event does to the row of session `id`. */
  ghost predicate RowEffect(cfg: Config, crypto: Crypto, before: Option<Session>, e: Event, answer: Result, id: SessionId, after: Option<Session>) {
    && (before.None? && after.Some? ==> e.request.Login? && answer == LoggedIn(after.value.userId, id))
    && (e.request.Login? && answer.LoggedIn? && answer.sessionId == id ==>
          after == Some(Session(answer.userId, crypto.digest(e.request.token), SessionActive, None, e.time + cfg.ttl)))
    && (before.Some? ==>
          && !(answer.LoggedIn? && answer.sessionId == id)
          && after.Some?
          && (Expires(crypto, e.request, answer, before.value.tokenHash) ==> before.value.status == SessionActive && before.value.expiresAt <= e.time)
          && after.value == (if Expires(crypto, e.request, answer, before.value.tokenHash) then before.value.(status := SessionExpired)
                             else if before.value.status == SessionActive && Kills(e.request, answer, before.value.userId, id) then
                               before.value.(status := SessionRevoked, revokedAt := Some(e.time))
                             else before.value))
  }

  lemma StepRowEffect(cfg: Config, crypto: Crypto, s: State, e: Event, answer: Result, s': State, id: SessionId)
    requires Steps(cfg, crypto, s, e, answer, s')
    ensures RowEffect(cfg, crypto, RowOf(s, id), e, answer, id, RowOf(s', id))
  {
    match e.request
    case Login(_, _, _, _, _) => LoginRowEffect(cfg, crypto, s, e, answer, s', id);
    case Resolve(token) => ResolveRowEffect(cfg, crypto, s, e, answer, s', id);
    case RevokeSession(_, _) => RevokeRowEffect(cfg, crypto, s, e, answer, s', id);
    case SetPassword(_, _) => SetPasswordRowEffect(cfg, crypto, s, e, answer, s', id);
    case ChangePassword(_, _, _) => ChangePasswordRowEffect(cfg, crypto, s, e, answer, s', id);
    case SetEnabled(_, _) => SetEnabledRowEffect(cfg, crypto, s, e, answer, s', id);
    case _ =>
  }

  lemma ResolveRowEffect(cfg: Config, crypto: Crypto, s: State, e: Event, answer: Result, s': State, id: SessionId)
    requires IndexesMatch(s) && e.request.Resolve? && ResolveStep(crypto, s, e.time, e.request.token) == (s', answer)
    ensures RowEffect(cfg, crypto, RowOf(s, id), e, answer, id, RowOf(s', id))
  {
  }

  lemma RevokeRowEffect(cfg: Config, crypto: Crypto, s: State, e: Event, answer: Result, s': State, id: SessionId)
    requires e.request.RevokeSession? && RevokeSessionStep(s, e.time, e.request.sessionId, e.request.owner) == (s', answer)
    ensures RowEffect(cfg, crypto, RowOf(s, id), e, answer, id, RowOf(s', id))
  {
  }

  lemma SetPasswordRowEffect(cfg: Config, crypto: Crypto, s: State, e: Event, answer: Result, s': State, id: SessionId)
    requires e.request.SetPassword? && SetPasswordStep(s, e.time, e.request.userId, e.request.newHash) == (s', answer)
    ensures RowEffect(cfg, crypto, RowOf(s, id), e, answer, id, RowOf(s', id))
  {
  }

  lemma ChangePasswordRowEffect(cfg: Config, crypto: Crypto, s: State, e: Event, answer: Result, s': State, id: SessionId)
    requires e.request.ChangePassword?
    requires ChangePasswordStep(crypto, s, e.time, e.request.userId, e.request.current, e.request.newHash) == (s', answer)
    ensures RowEffect(cfg, crypto, RowOf(s, id), e, answer, id, RowOf(s', id))
  {
  }

  lemma SetEnabledRowEffect(cfg: Config, crypto: Crypto, s: State, e: Event, answer: Result, s': State, id: SessionId)
    requires IndexesMatch(s) && e.request.SetEnabled? && SetEnabledStep(s, e.time, e.request.userId, e.request.enabled) == (s', answer)
    ensures RowEffect(cfg, crypto, RowOf(s, id), e, answer, id, RowOf(s', id))
  {
  }

  lemma LoginRowEffect(cfg: Config, crypto: Crypto, s: State, e: Event, answer: Result, s': State, id: SessionId)
    requires IndexesMatch(s) && e.request.Login? && LoginStep(cfg, crypto, s, e.time, e.request) == (s', answer)
    ensures RowEffect(cfg, crypto, RowOf(s, id), e, answer, id, RowOf(s', id))
  {
    if answer.LoggedIn? {
      assert answer.sessionId !in s.sessions;
    } else {
      assert s'.sessions == s.sessions;
    }
  }

  /** What the requests and answers say of an account: whether it may log in, its password hash, and how many
      comparisons of a login have failed since the account was created, logged in or got a new password, the last of
      them when. */
  datatype Account = Account(active: bool, hash: string, failures: nat, lastFailure: Time)

  function NewHash(request: Request): Option<string> {
    match request
    case CreateUser(_, _, newHash) => newHash
    case Login(_, _, _, _, rehash) => rehash
    case SetPassword(_, newHash) => newHash
    case ChangePassword(_, _, newHash) => newHash
    case _ => None
  }

  /** The request succeeded in replacing the password of this account. */
  predicate Replaces(request: Request, answer: Result, user: UserId) {
    || (request.SetPassword? && request.userId == user && answer == Done)
    || (request.ChangePassword? && request.userId == user && answer.RevokedMany?)
  }

  predicate LogsIn(request: Request, answer: Result, user: UserId) {
    request.Login? && answer.LoggedIn? && answer.userId == user
  }

  predicate Creates(request: Request, answer: Result, user: UserId) {
    request.CreateUser? && request.id == user && answer == Done
  }

  /** Who owns the address after the first `n` events. */
  ghost function OwnerAt(r: Run, n: nat, email: Email): Option<UserId>
    requires n <= |r.events| == |r.answers|
  {
    if n == 0 then None
    else
      var e := r.events[n - 1].request;
      if e.CreateUser? && e.email == email && r.answers[n - 1] == Done then Some(e.id) else OwnerAt(r, n - 1, email)
  }

  function HashOr(hash: Option<string>, otherwise: string): string {
    if hash.Some? then hash.value else otherwise
  }

  /** What one more answered request makes of an account; `owns` says that a login is on the account's address. */
  function AccountAfter(before: Option<Account>, e: Event, answer: Result, user: UserId, owns: bool): Option<Account> {
    if Creates(e.request, answer, user) then Some(Account(true, HashOr(NewHash(e.request), ""), 0, 0))
    else if before.None? then None
    else if Replaces(e.request, answer, user) || LogsIn(e.request, answer, user) then
      Some(before.value.(hash := HashOr(NewHash(e.request), before.value.hash), failures := 0))
    else if e.request.Login? && owns && answer == InvalidCredentials && before.value.active then
      Some(before.value.(failures := before.value.failures + 1, lastFailure := e.time))
    else if e.request.SetEnabled? && e.request.userId == user then Some(before.value.(active := e.request.enabled))
    else before
  }

  ghost predicate OwnsAt(r: Run, n: nat, request: Request, user: UserId)
    requires n <= |r.events| == |r.answers|
  {
    request.Login? && OwnerAt(r, n, request.email) == Some(user)
  }

  ghost function AccountAt(r: Run, n: nat, user: UserId): Option<Account>
    requires n <= |r.events| == |r.answers|
  {
    if n == 0 then None
    else
      AccountAfter(AccountAt(r, n - 1, user), r.events[n - 1], r.answers[n - 1], user, OwnsAt(r, n - 1, r.events[n - 1].request, user))
  }

  /** The row says what the history says. */
  ghost predicate RowMatches(cfg: Config, account: Option<Account>, s: State, user: UserId) {
    && (account.Some? <==> user in s.users)
    && (account.Some? ==>
          var u := s.users[user];
          && (account.value.active <==> u.status == UserActive) && !u.isServiceAccount
          && u.passwordHash == account.value.hash && u.failedLoginCount == account.value.failures
          && (ValidConfig(cfg) ==>
                u.lockedUntil == if account.value.failures >= cfg.maxFailures then Some(account.value.lastFailure + cfg.lockout) else None))
  }

  lemma LoginMatches(cfg: Config, crypto: Crypto, s: State, e: Event, answer: Result, s': State, user: UserId, before: Option<Account>, owns: bool)
    requires IndexesMatch(s) && e.request.Login? && LoginStep(cfg, crypto, s, e.time, e.request) == (s', answer)
    requires owns <==> e.request.email in s.emails && s.emails[e.request.email] == user
    requires RowMatches(cfg, before, s, user)
    ensures RowMatches(cfg, AccountAfter(before, e, answer, user, owns), s', user)
  {
    if owns {
    } else {
      assert user in s'.users <==> user in s.users;
      assert user in s.users ==> s'.users[user] == s.users[user];
      assert !LogsIn(e.request, answer, user);
    }
  }

  lemma CreateMatches(cfg: Config, crypto: Crypto, s: State, e: Event, answer: Result, s': State, user: UserId, before: Option<Account>)
    requires e.request.CreateUser? && CreateUserStep(s, e.request.id, e.request.email, e.request.newHash) == (s', answer)
    requires RowMatches(cfg, before, s, user)
    ensures RowMatches(cfg, AccountAfter(before, e, answer, user, false), s', user)
  {
  }

  lemma SetPasswordMatches(cfg: Config, crypto: Crypto, s: State, e: Event, answer: Result, s': State, user: UserId, before: Option<Account>)
    requires e.request.SetPassword? && SetPasswordStep(s, e.time, e.request.userId, e.request.newHash) == (s', answer)
    requires RowMatches(cfg, before, s, user)
    ensures RowMatches(cfg, AccountAfter(before, e, answer, user, false), s', user)
  {
  }

  lemma ChangePasswordMatches(cfg: Config, crypto: Crypto, s: State, e: Event, answer: Result, s': State, user: UserId, before: Option<Account>)
    requires e.request.ChangePassword?
    requires ChangePasswordStep(crypto, s, e.time, e.request.userId, e.request.current, e.request.newHash) == (s', answer)
    requires RowMatches(cfg, before, s, user)
    ensures RowMatches(cfg, AccountAfter(before, e, answer, user, false), s', user)
  {
  }

  lemma SetEnabledMatches(cfg: Config, crypto: Crypto, s: State, e: Event, answer: Result, s': State, user: UserId, before: Option<Account>)
    requires e.request.SetEnabled? && SetEnabledStep(s, e.time, e.request.userId, e.request.enabled) == (s', answer)
    requires RowMatches(cfg, before, s, user)
    ensures RowMatches(cfg, AccountAfter(before, e, answer, user, false), s', user)
  {
  }

  lemma StepMatches(cfg: Config, crypto: Crypto, s: State, e: Event, answer: Result, s': State, user: UserId, before: Option<Account>, owns: bool)
    requires Steps(cfg, crypto, s, e, answer, s')
    requires owns <==> e.request.Login? && e.request.email in s.emails && s.emails[e.request.email] == user
    requires RowMatches(cfg, before, s, user)
    ensures RowMatches(cfg, AccountAfter(before, e, answer, user, owns), s', user)
  {
    match e.request
    case CreateUser(_, _, _) => CreateMatches(cfg, crypto, s, e, answer, s', user, before);
    case Login(_, _, _, _, _) => LoginMatches(cfg, crypto, s, e, answer, s', user, before, owns);
    case SetPassword(_, _) => SetPasswordMatches(cfg, crypto, s, e, answer, s', user, before);
    case ChangePassword(_, _, _) => ChangePasswordMatches(cfg, crypto, s, e, answer, s', user, before);
    case SetEnabled(_, _) => SetEnabledMatches(cfg, crypto, s, e, answer, s', user, before);
    case Resolve(token) => ResolveKeepsUsers(crypto, s, e.time, token);
    case _ =>
  }

  lemma ResolveKeepsUsers(crypto: Crypto, s: State, now: Time, token: string)
    requires IndexesMatch(s)
    ensures ResolveStep(crypto, s, now, token).0.users == s.users
  {
  }

  function Indexed(s: State, email: Email): Option<UserId> {
    if email in s.emails then Some(s.emails[email]) else None
  }

  lemma StepIndexes(cfg: Config, crypto: Crypto, s: State, e: Event, answer: Result, s': State, email: Email)
    requires Steps(cfg, crypto, s, e, answer, s')
    ensures Indexed(s', email)
            == if e.request.CreateUser? && e.request.email == email && answer == Done then Some(e.request.id) else Indexed(s, email)
  {
  }

  lemma {:induction false} OwnerIsIndexed(cfg: Config, crypto: Crypto, r: Run, n: nat, email: Email)
    requires IsRun(cfg, crypto, r) && n <= |r.events|
    ensures OwnerAt(r, n, email) == Indexed(r.states[n], email)
  {
    if n > 0 {
      OwnerIsIndexed(cfg, crypto, r, n - 1, email);
      StepIndexes(cfg, crypto, r.states[n - 1], r.events[n - 1], r.answers[n - 1], r.states[n - 1 + 1], email);
    }
  }

  /** In every run each account row is what the requests and answers so far make of it. */
  lemma {:induction false} AccountFollowsHistory(cfg: Config, crypto: Crypto, r: Run, n: nat, user: UserId)
    requires IsRun(cfg, crypto, r) && n <= |r.events|
    ensures RowMatches(cfg, AccountAt(r, n, user), r.states[n], user)
  {
    if n > 0 {
      AccountFollowsHistory(cfg, crypto, r, n - 1, user);
      var before, e := AccountAt(r, n - 1, user), r.events[n - 1];
      assert Steps(cfg, crypto, r.states[n - 1], e, r.answers[n - 1], r.states[n - 1 + 1]);
      if e.request.Login? {
        OwnerIsIndexed(cfg, crypto, r, n - 1, e.request.email);
      }
      StepMatches(cfg, crypto, r.states[n - 1], e, r.answers[n - 1], r.states[n], user, before, OwnsAt(r, n - 1, e.request, user));
    }
  }

  /** Some login of the run already took this session id. */
  ghost predicate IdTaken(r: Run, n: nat, id: SessionId)
    requires n <= |r.events| == |r.answers|
  {
    exists i: nat :: i < n && r.answers[i].LoggedIn? && r.answers[i].sessionId == id
  }

  /** Some login of the run already handed out a token with this digest. */
  ghost predicate DigestTaken(crypto: Crypto, r: Run, n: nat, hash: string)
    requires n <= |r.events| == |r.answers|
  {
    exists i: nat :: i < n && r.answers[i].LoggedIn? && r.events[i].request.Login? && crypto.digest(r.events[i].request.token) == hash
  }

  lemma StepTakes(cfg: Config, crypto: Crypto, s: State, e: Event, answer: Result, s': State, id: SessionId, hash: string)
    requires Steps(cfg, crypto, s, e, answer, s')
    ensures answer.LoggedIn? ==> e.request.Login?
    ensures id in s'.sessions <==> id in s.sessions || (answer.LoggedIn? && answer.sessionId == id)
    ensures hash in s'.sessionIds <==> hash in s.sessionIds || (answer.LoggedIn? && crypto.digest(e.request.token) == hash)
  {
    StepRowEffect(cfg, crypto, s, e, answer, s', id);
    if e.request.Login? {
      LoginTakes(cfg, crypto, s, e, answer, s', hash);
    } else {
      OthersTakeNone(cfg, crypto, s, e, answer, s');
    }
  }

  lemma OthersTakeNone(cfg: Config, crypto: Crypto, s: State, e: Event, answer: Result, s': State)
    requires Steps(cfg, crypto, s, e, answer, s') && !e.request.Login?
    ensures !answer.LoggedIn? && s'.sessionIds == s.sessionIds
  {
  }

  lemma LoginTakes(cfg: Config, crypto: Crypto, s: State, e: Event, answer: Result, s': State, hash: string)
    requires IndexesMatch(s) && e.request.Login? && LoginStep(cfg, crypto, s, e.time, e.request) == (s', answer)
    ensures hash in s'.sessionIds <==> hash in s.sessionIds || (answer.LoggedIn? && crypto.digest(e.request.token) == hash)
  {
  }

  lemma {:induction false} IdIsStored(cfg: Config, crypto: Crypto, r: Run, n: nat, id: SessionId)
    requires IsRun(cfg, crypto, r) && n <= |r.events|
    ensures IdTaken(r, n, id) <==> id in r.states[n].sessions
  {
    if n > 0 {
      IdIsStored(cfg, crypto, r, n - 1, id);
      StepTakes(cfg, crypto, r.states[n - 1], r.events[n - 1], r.answers[n - 1], r.states[n - 1 + 1], id, "");
    }
  }

  lemma {:induction false} DigestIsStored(cfg: Config, crypto: Crypto, r: Run, n: nat, hash: string)
    requires IsRun(cfg, crypto, r) && n <= |r.events|
    ensures DigestTaken(crypto, r, n, hash) <==> hash in r.states[n].sessionIds
  {
    if n > 0 {
      DigestIsStored(cfg, crypto, r, n - 1, hash);
      StepTakes(cfg, crypto, r.states[n - 1], r.events[n - 1], r.answers[n - 1], r.states[n - 1 + 1], "", hash);
    }
  }

  /** At least `maxFailures` comparisons have failed since the last reset, the last less than a lockout ago. */
  predicate LockedBy(cfg: Config, account: Account, now: Time) {
    account.failures >= cfg.maxFailures && now < account.lastFailure + cfg.lockout
  }

  /** In every run the answer to a login is decided by the requests and answers before it. */
  lemma LoginAnswersExactly(cfg: Config, crypto: Crypto, r: Run, now: Time, email: Email, password: string, token: string, sessionId: SessionId,
                            rehash: Option<string>)
    requires ValidConfig(cfg) && IsRun(cfg, crypto, r)
    ensures IndexesMatch(Last(r))
    ensures var n := |r.events|;
            var owner := OwnerAt(r, n, email);
            var account := if owner.Some? then AccountAt(r, n, owner.value) else None;
            var answer := Apply(cfg, crypto, Last(r), now, Login(email, password, token, sessionId, rehash)).1;
            && (owner.Some? ==> account.Some?)
            && answer == (if account.None? || !account.value.active then InvalidCredentials
                          else if LockedBy(cfg, account.value, now) then TemporarilyLocked
                          else if account.value.hash == "" || !crypto.verify(account.value.hash, password) then InvalidCredentials
                          else if |token| < 32 then Invalid
                          else if IdTaken(r, n, sessionId) || DigestTaken(crypto, r, n, crypto.digest(token)) then Conflict
                          else LoggedIn(owner.value, sessionId))
  {
    var n := |r.events|;
    RunIndexesMatch(cfg, crypto, r);
    OwnerIsIndexed(cfg, crypto, r, n, email);
    IdIsStored(cfg, crypto, r, n, sessionId);
    DigestIsStored(cfg, crypto, r, n, crypto.digest(token));
    if email in Last(r).emails {
      AccountFollowsHistory(cfg, crypto, r, n, Last(r).emails[email]);
    }
  }

  /** A user is created exactly when neither the id nor the address is taken. */
  lemma CreationAnswersExactly(cfg: Config, crypto: Crypto, r: Run, now: Time, user: UserId, email: Email, newHash: Option<string>)
    requires IsRun(cfg, crypto, r)
    ensures IndexesMatch(Last(r))
    ensures var n := |r.events|;
            Apply(cfg, crypto, Last(r), now, CreateUser(user, email, newHash)).1
            == if newHash.None? then Invalid
               else if AccountAt(r, n, user).Some? || OwnerAt(r, n, email).Some? then Conflict
               else Done
  {
    RunIndexesMatch(cfg, crypto, r);
    OwnerIsIndexed(cfg, crypto, r, |r.events|, email);
    AccountFollowsHistory(cfg, crypto, r, |r.events|, user);
  }

  /** A password is replaced exactly when the account exists and, by its owner, when it is active and the current
      password is given; whether the account is locked does not matter. */
  lemma PasswordAnswersExactly(cfg: Config, crypto: Crypto, r: Run, now: Time, user: UserId, current: string, newHash: Option<string>)
    requires IsRun(cfg, crypto, r)
    ensures IndexesMatch(Last(r))
    ensures var account := AccountAt(r, |r.events|, user);
            && (Apply(cfg, crypto, Last(r), now, SetPassword(user, newHash)).1 == Done <==> newHash.Some? && account.Some?)
            && (Apply(cfg, crypto, Last(r), now, ChangePassword(user, current, newHash)).1.RevokedMany?
                <==> newHash.Some? && account.Some? && account.value.active && account.value.hash != ""
                     && crypto.verify(account.value.hash, current))
  {
    RunIndexesMatch(cfg, crypto, r);
    AccountFollowsHistory(cfg, crypto, r, |r.events|, user);
  }

  /** The row of session `id` in every state of the run. */
  ghost function Rows(r: Run, id: SessionId): seq<Option<Session>> {
    seq(|r.states|, k requires 0 <= k < |r.states| => RowOf(r.states[k], id))
  }

  ghost predicate RowsEvolve(cfg: Config, crypto: Crypto, r: Run, rows: seq<Option<Session>>, id: SessionId) {
    && |rows| == |r.events| + 1 == |r.answers| + 1 && rows[0].None?
    && forall k :: 0 <= k < |r.events| ==> RowEffect(cfg, crypto, rows[k], r.events[k], r.answers[k], id, rows[k + 1])
  }

  lemma RunRowsEvolve(cfg: Config, crypto: Crypto, r: Run, id: SessionId)
    requires IsRun(cfg, crypto, r)
    ensures RowsEvolve(cfg, crypto, r, Rows(r, id), id)
  {
    forall k | 0 <= k < |r.events|
      ensures RowEffect(cfg, crypto, Rows(r, id)[k], r.events[k], r.answers[k], id, Rows(r, id)[k + 1])
    {
      StepRowEffect(cfg, crypto, r.states[k], r.events[k], r.answers[k], r.states[k + 1], id);
    }
  }

  /** A session row after the login at event `i` and before event `n`: it keeps its owner, hash and expiry, and is
      active until an event ends it or a resolve finds it expired, whichever comes first. */
  ghost predicate Follows(cfg: Config, crypto: Crypto, r: Run, i: nat, n: nat, token: string, user: UserId, id: SessionId, row: Session)
    requires i < n <= |r.events| == |r.answers|
  {
    && row.userId == user && row.tokenHash == crypto.digest(token) && row.expiresAt == r.events[i].time + cfg.ttl
    && (row.status == SessionExpired <==> ExpiredBetween(crypto, r, i, n, row.tokenHash))
    && (row.status == SessionExpired ==> row.expiresAt <= r.events[n - 1].time)
    && (row.status == SessionRevoked ==> EndedBetween(r, i, n, user, id))
    && (row.status == SessionActive ==> !EndedBetween(r, i, n, user, id))
    && (row.status != SessionRevoked ==> row.revokedAt.None?)
  }

  lemma {:induction false} RowFollowsHistory(cfg: Config, crypto: Crypto, r: Run, rows: seq<Option<Session>>, i: nat, n: nat, token: string, user: UserId, id: SessionId)
    requires RowsEvolve(cfg, crypto, r, rows, id) && Monotone(r.events)
    requires i < n <= |r.events| && Issued(r, i, token, user, id)
    ensures rows[n].Some? && Follows(cfg, crypto, r, i, n, token, user, id, rows[n].value)
    decreases n
  {
    assert RowEffect(cfg, crypto, rows[n - 1], r.events[n - 1], r.answers[n - 1], id, rows[n]);
    if n > i + 1 {
      RowFollowsHistory(cfg, crypto, r, rows, i, n - 1, token, user, id);
      if Kills(r.events[n - 1].request, r.answers[n - 1], user, id) {
        assert EndedBetween(r, i, n, user, id);
      } else {
        assert EndedBetween(r, i, n - 1, user, id) <==> EndedBetween(r, i, n, user, id);
      }
    }
  }

  /** Every session row was created by some login of the run. */
  lemma {:induction false} RowHasOrigin(cfg: Config, crypto: Crypto, r: Run, rows: seq<Option<Session>>, n: nat, id: SessionId) returns (i: nat, user: UserId)
    requires RowsEvolve(cfg, crypto, r, rows, id)
    requires n <= |r.events| && rows[n].Some?
    ensures i < n && r.events[i].request.Login? && Issued(r, i, r.events[i].request.token, user, id)
    decreases n
  {
    assert RowEffect(cfg, crypto, rows[n - 1], r.events[n - 1], r.answers[n - 1], id, rows[n]);
    if rows[n - 1].Some? {
      i, user := RowHasOrigin(cfg, crypto, r, rows, n - 1, id);
    } else {
      i, user := n - 1, rows[n].value.userId;
    }
  }

  /** Some login of the run issued the token less than the session lifetime ago, its user is active now, and
      nothing since has ended the session. */
  ghost predicate LiveToken(cfg: Config, r: Run, now: Time, token: string)
    requires |r.events| == |r.answers| && |r.states| > 0
  {
    exists i: nat, user, id :: Issued(r, i, token, user, id) && Unended(cfg, r, now, i, user, id)
  }

  ghost predicate Unended(cfg: Config, r: Run, now: Time, i: nat, user: UserId, id: SessionId)
    requires |r.events| == |r.answers| && |r.states| > 0
  {
    && i < |r.events| && now < r.events[i].time + cfg.ttl
    && AccountAt(r, |r.events|, user).Some? && AccountAt(r, |r.events|, user).value.active
    && !EndedBetween(r, i, |r.events|, user, id)
  }

  lemma RunIndexesMatch(cfg: Config, crypto: Crypto, r: Run)
    requires IsRun(cfg, crypto, r)
    ensures IndexesMatch(Last(r))
  {
    if |r.events| > 0 {
      var k := |r.events| - 1;
      assert Steps(cfg, crypto, r.states[k], r.events[k], r.answers[k], r.states[k + 1]);
    }
  }

  /** The stored row that makes a token resolve. */
  ghost predicate Accepts(s: State, now: Time, hash: string) {
    && hash in s.sessionIds && s.sessionIds[hash] in s.sessions
    && var row := s.sessions[s.sessionIds[hash]];
       row.status == SessionActive && row.revokedAt.None? && now < row.expiresAt
       && row.userId in s.users && s.users[row.userId].status == UserActive
  }

  lemma ResolveAccepts(crypto: Crypto, s: State, now: Time, token: string)
    requires IndexesMatch(s)
    ensures ResolveStep(crypto, s, now, token).1.Resolved? <==> 32 <= |token| <= 2048 && Accepts(s, now, crypto.digest(token))
  {
  }

  /** `resolve_session` accepts a token at `now` exactly when it is live. The upper length limit is the code's
      own: a token longer than 2048 characters would be issued but never accepted (the default factory gives 64). */
  lemma ResolvesExactlyLiveTokens(cfg: Config, crypto: Crypto, r: Run, now: Time, token: string)
    requires IsRun(cfg, crypto, r) && Injective(crypto.digest)
    requires forall i :: 0 <= i < |r.events| ==> r.events[i].time <= now
    ensures IndexesMatch(Last(r))
    ensures Apply(cfg, crypto, Last(r), now, Resolve(token)).1.Resolved?
            <==> 32 <= |token| <= 2048 && LiveToken(cfg, r, now, token)
  {
    RunIndexesMatch(cfg, crypto, r);
    ResolveAccepts(crypto, Last(r), now, token);
    if Accepts(Last(r), now, crypto.digest(token)) {
      AcceptedIsLive(cfg, crypto, r, now, token);
    }
    if LiveToken(cfg, r, now, token) {
      LiveIsAccepted(cfg, crypto, r, now, token);
    }
  }

  lemma AcceptedIsLive(cfg: Config, crypto: Crypto, r: Run, now: Time, token: string)
    requires IsRun(cfg, crypto, r) && Injective(crypto.digest) && IndexesMatch(Last(r))
    requires Accepts(Last(r), now, crypto.digest(token))
    ensures LiveToken(cfg, r, now, token)
  {
    var id := Last(r).sessionIds[crypto.digest(token)];
    RunRowsEvolve(cfg, crypto, r, id);
    var i, user := RowHasOrigin(cfg, crypto, r, Rows(r, id), |r.events|, id);
    RowFollowsHistory(cfg, crypto, r, Rows(r, id), i, |r.events|, r.events[i].request.token, user, id);
    assert r.events[i].request.token == token;
    AccountFollowsHistory(cfg, crypto, r, |r.events|, user);
    assert Unended(cfg, r, now, i, user, id);
  }

  lemma LiveIsAccepted(cfg: Config, crypto: Crypto, r: Run, now: Time, token: string)
    requires IsRun(cfg, crypto, r) && IndexesMatch(Last(r)) && LiveToken(cfg, r, now, token)
    requires forall i :: 0 <= i < |r.events| ==> r.events[i].time <= now
    ensures Accepts(Last(r), now, crypto.digest(token))
  {
    var i: nat, user, id :| Issued(r, i, token, user, id) && Unended(cfg, r, now, i, user, id);
    RunRowsEvolve(cfg, crypto, r, id);
    RowFollowsHistory(cfg, crypto, r, Rows(r, id), i, |r.events|, token, user, id);
    AccountFollowsHistory(cfg, crypto, r, |r.events|, user);
  }

  /** Event `i` is a login that handed out a token with this digest. */
  ghost predicate HandedOut(crypto: Crypto, r: Run, i: nat, hash: string)
    requires |r.events| == |r.answers|
  {
    && i < |r.events| && r.events[i].request.Login? && r.answers[i].LoggedIn?
    && crypto.digest(r.events[i].request.token) == hash
  }

  /** How `resolve_session` must answer for a token handed out by event `i`. */
  ghost function ResolveAnswer(cfg: Config, crypto: Crypto, r: Run, now: Time, i: nat, hash: string): Result
    requires |r.events| == |r.answers| && HandedOut(crypto, r, i, hash)
  {
    var n, user, id := |r.events|, r.answers[i].userId, r.answers[i].sessionId;
    var account := AccountAt(r, n, user);
    if EndedBetween(r, i, n, user, id) || ExpiredBetween(crypto, r, i, n, hash) then WasRevoked
    else if r.events[i].time + cfg.ttl <= now then WasExpired
    else if account.None? || !account.value.active then IdentityDisabled
    else Resolved(user, id)
  }

  /** In every run the answer to a resolve is decided by the requests and answers before it: nothing but a handed-out
      token of permitted length is known, and for such a token the login that handed it out decides. */
  lemma ResolveAnswersExactly(cfg: Config, crypto: Crypto, r: Run, now: Time, token: string)
    requires IsRun(cfg, crypto, r)
    ensures IndexesMatch(Last(r))
    ensures Apply(cfg, crypto, Last(r), now, Resolve(token)).1 == InvalidCredentials
            <==> !(32 <= |token| <= 2048) || !DigestTaken(crypto, r, |r.events|, crypto.digest(token))
    ensures forall i: nat :: HandedOut(crypto, r, i, crypto.digest(token)) && 32 <= |token| <= 2048 ==>
              Apply(cfg, crypto, Last(r), now, Resolve(token)).1 == ResolveAnswer(cfg, crypto, r, now, i, crypto.digest(token))
  {
    RunIndexesMatch(cfg, crypto, r);
    DigestIsStored(cfg, crypto, r, |r.events|, crypto.digest(token));
    if 32 <= |token| <= 2048 {
      forall i: nat | HandedOut(crypto, r, i, crypto.digest(token))
        ensures ResolveStep(crypto, Last(r), now, token).1 == ResolveAnswer(cfg, crypto, r, now, i, crypto.digest(token))
      {
        HandedOutAnswers(cfg, crypto, r, now, token, i);
      }
    }
  }

  lemma HandedOutAnswers(cfg: Config, crypto: Crypto, r: Run, now: Time, token: string, i: nat)
    requires IsRun(cfg, crypto, r) && IndexesMatch(Last(r)) && HandedOut(crypto, r, i, crypto.digest(token)) && 32 <= |token| <= 2048
    ensures ResolveStep(crypto, Last(r), now, token).1 == ResolveAnswer(cfg, crypto, r, now, i, crypto.digest(token))
  {
    var user, id := r.answers[i].userId, r.answers[i].sessionId;
    RunRowsEvolve(cfg, crypto, r, id);
    RowFollowsHistory(cfg, crypto, r, Rows(r, id), i, |r.events|, r.events[i].request.token, user, id);
    AccountFollowsHistory(cfg, crypto, r, |r.events|, user);
    assert Last(r).sessionIds[crypto.digest(token)] == id;
  }

  /** Session `id` of `user` was handed out and has been neither ended nor found expired since. */
  ghost predicate OpenSession(crypto: Crypto, r: Run, user: UserId, id: SessionId)
    requires |r.events| == |r.answers|
  {
    exists i: nat :: i < |r.events| && r.events[i].request.Login? && r.answers[i] == LoggedIn(user, id)
      && !EndedBetween(r, i, |r.events|, user, id) && !ExpiredBetween(crypto, r, i, |r.events|, crypto.digest(r.events[i].request.token))
  }

  /** In every run the stored sessions with status active are the open ones. */
  lemma ActiveSessionsAreOpen(cfg: Config, crypto: Crypto, r: Run, user: UserId, id: SessionId)
    requires IsRun(cfg, crypto, r)
    ensures id in ActiveSessions(Last(r).sessions, user) <==> OpenSession(crypto, r, user, id)
  {
    RunRowsEvolve(cfg, crypto, r, id);
    if id in Last(r).sessions {
      var i, owner := RowHasOrigin(cfg, crypto, r, Rows(r, id), |r.events|, id);
      RowFollowsHistory(cfg, crypto, r, Rows(r, id), i, |r.events|, r.events[i].request.token, owner, id);
    }
    if OpenSession(crypto, r, user, id) {
      var i: nat :| i < |r.events| && r.events[i].request.Login? && r.answers[i] == LoggedIn(user, id)
        && !EndedBetween(r, i, |r.events|, user, id) && !ExpiredBetween(crypto, r, i, |r.events|, crypto.digest(r.events[i].request.token));
      RowFollowsHistory(cfg, crypto, r, Rows(r, id), i, |r.events|, r.events[i].request.token, user, id);
    }
  }

  /** Some login of the run opened this session for another user. */
  ghost predicate OthersSession(r: Run, user: UserId, id: SessionId)
    requires |r.events| == |r.answers|
  {
    exists i: nat :: i < |r.events| && r.answers[i].LoggedIn? && r.answers[i].sessionId == id && r.answers[i].userId != user
  }

  /** Revoking one session is refused to anyone but its owner, and otherwise reports whether it was open. */
  lemma RevocationAnswersExactly(cfg: Config, crypto: Crypto, r: Run, now: Time, user: UserId, id: SessionId)
    requires IsRun(cfg, crypto, r)
    ensures IndexesMatch(Last(r))
    ensures Apply(cfg, crypto, Last(r), now, RevokeSession(id, user)).1
            == if OthersSession(r, user, id) then InvalidCredentials else Revoked(OpenSession(crypto, r, user, id))
  {
    RunIndexesMatch(cfg, crypto, r);
    RunRowsEvolve(cfg, crypto, r, id);
    ActiveSessionsAreOpen(cfg, crypto, r, user, id);
    OthersAreStored(cfg, crypto, r, user, id);
  }

  lemma OthersAreStored(cfg: Config, crypto: Crypto, r: Run, user: UserId, id: SessionId)
    requires IsRun(cfg, crypto, r)
    ensures OthersSession(r, user, id) <==> id in Last(r).sessions && Last(r).sessions[id].userId != user
  {
    RunRowsEvolve(cfg, crypto, r, id);
    if id in Last(r).sessions {
      var i, owner := RowHasOrigin(cfg, crypto, r, Rows(r, id), |r.events|, id);
      RowFollowsHistory(cfg, crypto, r, Rows(r, id), i, |r.events|, r.events[i].request.token, owner, id);
    }
    if OthersSession(r, user, id) {
      var i: nat :| i < |r.events| && r.answers[i].LoggedIn? && r.answers[i].sessionId == id && r.answers[i].userId != user;
      StepTakes(cfg, crypto, r.states[i], r.events[i], r.answers[i], r.states[i + 1], id, "");
      RowFollowsHistory(cfg, crypto, r, Rows(r, id), i, |r.events|, r.events[i].request.token, r.answers[i].userId, id);
    }
  }

  /** Revoking all sessions of a user counts the open ones. */
  lemma RevokingAllCountsOpen(cfg: Config, crypto: Crypto, r: Run, now: Time, user: UserId)
    requires IsRun(cfg, crypto, r)
    ensures IndexesMatch(Last(r))
    ensures exists open: set<SessionId> :: (forall id :: id in open <==> OpenSession(crypto, r, user, id))
              && Apply(cfg, crypto, Last(r), now, RevokeAll(user)).1 == RevokedMany(|open|)
  {
    RunIndexesMatch(cfg, crypto, r);
    forall id
      ensures id in ActiveSessions(Last(r).sessions, user) <==> OpenSession(crypto, r, user, id)
    {
      ActiveSessionsAreOpen(cfg, crypto, r, user, id);
    }
    assert Apply(cfg, crypto, Last(r), now, RevokeAll(user)).1 == RevokedMany(|ActiveSessions(Last(r).sessions, user)|);
  }

  /** Disabling a user ends the sessions issued so far for good, whatever re-enabling follows. */
  lemma ReenablingRevivesNothing(cfg: Config, crypto: Crypto, r: Run, now: Time, i: nat, j: nat, token: string, user: UserId, id: SessionId)
    requires IsRun(cfg, crypto, r)
    requires Issued(r, i, token, user, id) && i < j < |r.events| && r.events[j].request == SetEnabled(user, false)
    ensures IndexesMatch(Last(r)) && !Apply(cfg, crypto, Last(r), now, Resolve(token)).1.Resolved?
  {
    RunIndexesMatch(cfg, crypto, r);
    RunRowsEvolve(cfg, crypto, r, id);
    RowFollowsHistory(cfg, crypto, r, Rows(r, id), i, |r.events|, token, user, id);
    assert Kills(r.events[j].request, r.answers[j], user, id);
    ResolveAccepts(crypto, Last(r), now, token);
  }

  /** The event is a login on this account whose password is actually compared. */
  ghost predicate Verifies(s: State, e: Event, user: UserId) {
    && e.request.Login? && e.request.email in s.emails && s.emails[e.request.email] == user
    && user in s.users && MayVerify(s.users[user], e.time)
  }

  /** The event proves knowledge of the account's password, or replaces it. */
  ghost predicate Resets(crypto: Crypto, s: State, e: Event, answer: Result, user: UserId) {
    || (Verifies(s, e, user) && PasswordMatches(crypto, s.users[user], e.request.password))
    || (e.request.SetPassword? && e.request.userId == user && answer == Done)
    || (e.request.ChangePassword? && e.request.userId == user && answer.RevokedMany?)
  }

  ghost predicate VerifiesAt(r: Run, k: nat, user: UserId)
    requires k < |r.events| < |r.states|
  {
    Verifies(r.states[k], r.events[k], user)
  }

  ghost predicate ResetsAt(crypto: Crypto, r: Run, k: nat, user: UserId)
    requires k < |r.events| < |r.states| && |r.events| == |r.answers|
  {
    Resets(crypto, r.states[k], r.events[k], r.answers[k], user)
  }

  /** How many events in `[a, b)` compare a password for this account. */
  ghost function VerifyCount(r: Run, a: nat, b: nat, user: UserId): nat
    requires a <= b <= |r.events| < |r.states|
  {
    if a == b then 0 else VerifyCount(r, a, b - 1, user) + if VerifiesAt(r, b - 1, user) then 1 else 0
  }

  /** What one event that is not a reset does to the counters of an account. */
  ghost predicate CounterEffect(cfg: Config, before: User, verifies: bool, now: Time, after: User) {
    if verifies then !Locked(before, now) && after == AfterFailure(cfg, before, now)
    else after.failedLoginCount == before.failedLoginCount && after.lockedUntil == before.lockedUntil
  }

  lemma StepCounterEffect(cfg: Config, crypto: Crypto, s: State, e: Event, answer: Result, s': State, user: UserId)
    requires Steps(cfg, crypto, s, e, answer, s') && user in s.users
    ensures user in s'.users
    ensures !Resets(crypto, s, e, answer, user) ==> CounterEffect(cfg, s.users[user], Verifies(s, e, user), e.time, s'.users[user])
  {
    match e.request
    case Login(_, _, _, _, _) => LoginCounterEffect(cfg, crypto, s, e, answer, s', user);
    case Resolve(_) => assert s'.users == s.users;
    case RevokeSession(_, _) => assert s'.users == s.users;
    case _ =>
  }

  lemma LoginCounterEffect(cfg: Config, crypto: Crypto, s: State, e: Event, answer: Result, s': State, user: UserId)
    requires IndexesMatch(s) && e.request.Login? && LoginStep(cfg, crypto, s, e.time, e.request) == (s', answer) && user in s.users
    ensures user in s'.users
    ensures !Resets(crypto, s, e, answer, user) ==> CounterEffect(cfg, s.users[user], Verifies(s, e, user), e.time, s'.users[user])
  {
    if e.request.email in s.emails && s.emails[e.request.email] != user {
      assert s'.users[user] == s.users[user];
    }
  }

  /** Once the limit is reached every further comparison waits out a full lockout. */
  ghost predicate LockedOut(cfg: Config, u: User, start: Time, count: nat) {
    && u.failedLoginCount >= count
    && (count >= cfg.maxFailures ==>
          u.lockedUntil.Some? && u.lockedUntil.value >= start + (count - cfg.maxFailures + 1) * cfg.lockout)
  }

  /** One event that is no reset keeps the account on the schedule. */
  lemma LockedOutStep(cfg: Config, before: User, verifies: bool, now: Time, after: User, start: Time, count: nat)
    requires ValidConfig(cfg) && start <= now && LockedOut(cfg, before, start, count) && CounterEffect(cfg, before, verifies, now, after)
    ensures LockedOut(cfg, after, start, count + if verifies then 1 else 0)
  {
    if verifies {
      LockedOutOneMore(cfg, before, start, count, now);
    }
  }

  lemma LockedOutOneMore(cfg: Config, u: User, start: Time, count: nat, now: Time)
    requires ValidConfig(cfg) && start <= now && LockedOut(cfg, u, start, count) && !Locked(u, now)
    ensures LockedOut(cfg, AfterFailure(cfg, u, now), start, count + 1)
  {
    var k := count - cfg.maxFailures + 1;
    assert (k + 1) * cfg.lockout == k * cfg.lockout + cfg.lockout;
  }

  lemma {:induction false} LockAdvances(cfg: Config, crypto: Crypto, r: Run, a: nat, b: nat, user: UserId)
    requires ValidConfig(cfg) && IsRun(cfg, crypto, r) && a <= b <= |r.events| && a < |r.events|
    requires user in r.states[a].users
    requires forall k :: a <= k < b ==> !ResetsAt(crypto, r, k, user)
    ensures user in r.states[b].users && LockedOut(cfg, r.states[b].users[user], r.events[a].time, VerifyCount(r, a, b, user))
    decreases b
  {
    if a < b {
      LockAdvances(cfg, crypto, r, a, b - 1, user);
      assert !ResetsAt(crypto, r, b - 1, user);
      StepCounterEffect(cfg, crypto, r.states[b - 1], r.events[b - 1], r.answers[b - 1], r.states[b], user);
      LockedOutStep(cfg, r.states[b - 1].users[user], VerifiesAt(r, b - 1, user), r.events[b - 1].time, r.states[b].users[user],
                    r.events[a].time, VerifyCount(r, a, b - 1, user));
    }
  }

  lemma LastComparisonWaited(cfg: Config, crypto: Crypto, r: Run, a: nat, b: nat, user: UserId) returns (extra: nat)
    requires ValidConfig(cfg) && IsRun(cfg, crypto, r) && a < b <= |r.events|
    requires user in r.states[a].users && VerifiesAt(r, b - 1, user)
    requires forall k :: a <= k < b - 1 ==> !ResetsAt(crypto, r, k, user)
    ensures VerifyCount(r, a, b, user) <= cfg.maxFailures + extra
    ensures extra * cfg.lockout <= r.events[b - 1].time - r.events[a].time
  {
    LockAdvances(cfg, crypto, r, a, b - 1, user);
    var count := VerifyCount(r, a, b - 1, user);
    extra := if count >= cfg.maxFailures then count + 1 - cfg.maxFailures else 0;
    assert a < b - 1 ==> r.events[a].time <= r.events[b - 1].time;
  }

  lemma {:induction false} ComparisonsWaited(cfg: Config, crypto: Crypto, r: Run, a: nat, b: nat, user: UserId) returns (extra: nat)
    requires ValidConfig(cfg) && IsRun(cfg, crypto, r) && a < b <= |r.events|
    requires user in r.states[a].users
    requires forall k :: a <= k < b - 1 ==> !ResetsAt(crypto, r, k, user)
    ensures VerifyCount(r, a, b, user) <= cfg.maxFailures + extra
    ensures extra * cfg.lockout <= r.events[b - 1].time - r.events[a].time
    decreases b
  {
    if VerifiesAt(r, b - 1, user) {
      extra := LastComparisonWaited(cfg, crypto, r, a, b, user);
    } else if a < b - 1 {
      extra := ComparisonsWaited(cfg, crypto, r, a, b - 1, user);
    } else {
      extra := 0;
    }
  }

  /** Between resets, the passwords that logins compare for one account in a window number at most the failure limit plus
      one for each full lockout that fits in the window. A comparison that succeeds and so ends the window
      counts too. */
  lemma GuessesAreBounded(cfg: Config, crypto: Crypto, r: Run, a: nat, b: nat, user: UserId)
    requires ValidConfig(cfg) && IsRun(cfg, crypto, r) && a < b <= |r.events|
    requires user in r.states[a].users
    requires forall k :: a <= k < b - 1 ==> !ResetsAt(crypto, r, k, user)
    ensures VerifyCount(r, a, b, user) <= cfg.maxFailures + (r.events[b - 1].time - r.events[a].time) / cfg.lockout
  {
    var extra := ComparisonsWaited(cfg, crypto, r, a, b, user);
    WithinQuotient(VerifyCount(r, a, b, user), cfg.maxFailures, extra, cfg.lockout, r.events[b - 1].time - r.events[a].time);
  }

  lemma WithinQuotient(count: int, limit: int, extra: int, d: int, n: int)
    requires d > 0 && count <= limit + extra && extra * d <= n
    ensures count <= limit + n / d
  {
    QuotientBound(extra, d, n);
  }

  lemma QuotientBound(q: int, d: int, n: int)
    requires d > 0 && q * d <= n
    ensures q <= n / d
  {
    var r := n / d;
    assert n == d * r + n % d;
    assert (q - r) * d == q * d - r * d;
    if q - r >= 1 {
      Grows(q - r, d);
    }
  }

  lemma Grows(k: int, d: int)
    requires k >= 1 && d > 0
    ensures k * d >= d
  {
  }
}
