/** The in-memory identity provider: accounts behind an email index, sessions and TOTP
    enrolment. Provider state is outside every database transaction. */
module IdentityProvider {
  import opened Sorting
  import opened Wrappers
  import opened Rbac
  import opened Uuids

  type Id = Text
  type EmailKey = (Archetype, Text)

  datatype Account = Account(
    userId: Id, archetype: Archetype, email: Text, passwordHash: Text,
    emailVerified: bool, disabled: bool, totpSecret: Option<Text>, totpConfirmed: bool)

  datatype SessionRecord = SessionRecord(
    sessionId: Id, userId: Id, archetype: Archetype, issuedAt: int, expiresAt: int, device: Option<Text>, revoked: bool)

  datatype ProviderUser = ProviderUser(
    userId: Id, archetype: Archetype, email: Text, emailVerified: bool, totpEnrolled: bool, disabled: bool)

  datatype Session = Session(
    sessionId: Id, userId: Id, archetype: Archetype, issuedAt: int, expiresAt: int, device: Option<Text>)

  datatype Error =
    | AuthError
    | AuthenticationFailed
    | AccountDisabled
    | SessionNotFound
    | SessionRevoked
    | TotpAlreadyEnrolled
    | TotpNotEnrolled
    | UnknownRoleName
    | RoleScopeError
    | CredentialInDetails
    | KeyError
    | DatabaseError

  datatype Result<+T> = Ok(value: T) | Raise(error: Error)

  /** Case folding, the password hash, the one-time-password check and the session lifetime. */
  datatype Config = Config(
    lower: Text -> Text, verifies: (Text, Text) -> bool, stale: Text -> bool,
    totp: (Text, Text, int) -> bool, sessionTtl: int)

  datatype Provider = Provider(accounts: map<Id, Account>, emailIndex: map<EmailKey, Id>, sessions: map<Id, SessionRecord>)

  const EMPTY_PROVIDER := Provider(map[], map[], map[])

  function View(a: Account): ProviderUser {
    ProviderUser(a.userId, a.archetype, a.email, a.emailVerified, a.totpConfirmed, a.disabled)
  }

  function SessionView(s: SessionRecord): Session {
    Session(s.sessionId, s.userId, s.archetype, s.issuedAt, s.expiresAt, s.device)
  }

  function Put(p: Provider, a: Account): Provider {
    p.(accounts := p.accounts[a.userId := a])
  }

  // ---- What each operation does to the provider ----------------------------------------------

  function Registered(c: Config, p: Provider, archetype: Archetype, email: Text, hash: Text, userId: Id): (Provider, Result<ProviderUser>) {
    var key := (archetype, c.lower(email));
    if key in p.emailIndex then (p, Raise(AuthError))
    else
      var a := Account(userId, archetype, email, hash, false, false, None, false);
      (Put(p, a).(emailIndex := p.emailIndex[key := userId]), Ok(View(a)))
  }

  function FindByEmail(c: Config, p: Provider, archetype: Archetype, email: Text): Option<Id> {
    var key := (archetype, c.lower(email));
    if key in p.emailIndex then Some(p.emailIndex[key]) else None
  }

  function FoundUser(c: Config, p: Provider, archetype: Archetype, email: Text): Result<Option<ProviderUser>> {
    match FindByEmail(c, p, archetype, email)
    case None => Ok(None)
    case Some(userId) => if userId !in p.accounts then Raise(KeyError) else Ok(Some(View(p.accounts[userId])))
  }

  function Authenticated(c: Config, p: Provider, archetype: Archetype, email: Text, password: Text, rehash: Text): (Provider, Result<ProviderUser>)
  {
    match FindByEmail(c, p, archetype, email)
    case None => (p, Raise(AuthenticationFailed))
    case Some(userId) =>
      if userId !in p.accounts then (p, Raise(KeyError)) else
      var a := p.accounts[userId];
      if !c.verifies(a.passwordHash, password) then (p, Raise(AuthenticationFailed))
      else if a.disabled then (p, Raise(AccountDisabled))
      else if c.stale(a.passwordHash) then (p.(accounts := p.accounts[userId := a.(passwordHash := rehash)]), Ok(View(a)))
      else (p, Ok(View(a)))
  }

  function EmailVerified(p: Provider, userId: Id): (Provider, Result<ProviderUser>) {
    if userId !in p.accounts then (p, Raise(AuthError))
    else
      var a := p.accounts[userId].(emailVerified := true);
      (p.(accounts := p.accounts[userId := a]), Ok(View(a)))
  }

  function PasswordChanged(p: Provider, userId: Id, hash: Text): (Provider, Result<()>) {
    if userId !in p.accounts then (p, Raise(AuthError))
    else (p.(accounts := p.accounts[userId := p.accounts[userId].(passwordHash := hash)]), Ok(()))
  }

  function SessionIssued(c: Config, p: Provider, userId: Id, sessionId: Id, device: Option<Text>, now: int): (Provider, Result<Session>) {
    if userId !in p.accounts then (p, Raise(AuthError))
    else if p.accounts[userId].disabled then (p, Raise(AccountDisabled))
    else
      var s := SessionRecord(sessionId, userId, p.accounts[userId].archetype, now, now + c.sessionTtl, device, false);
      (p.(sessions := p.sessions[sessionId := s]), Ok(SessionView(s)))
  }

  function SessionFound(p: Provider, sessionId: Id, now: int): Result<Session> {
    if sessionId !in p.sessions then Raise(SessionNotFound)
    else if p.sessions[sessionId].revoked || now >= p.sessions[sessionId].expiresAt then Raise(SessionRevoked)
    else Ok(SessionView(p.sessions[sessionId]))
  }

  function SessionEnded(p: Provider, sessionId: Id): Provider {
    if sessionId in p.sessions
    then p.(sessions := p.sessions[sessionId := p.sessions[sessionId].(revoked := true)])
    else p
  }

  function AllSessionsEnded(p: Provider, userId: Id): Provider {
    p.(sessions := map s | s in p.sessions ::
         if p.sessions[s].userId == userId then p.sessions[s].(revoked := true) else p.sessions[s])
  }

  function TotpEnrolled(p: Provider, userId: Id, secret: Text): (Provider, Result<Text>) {
    if userId !in p.accounts then (p, Raise(AuthError))
    else if p.accounts[userId].totpConfirmed then (p, Raise(TotpAlreadyEnrolled))
    else
      (p.(accounts := p.accounts[userId := p.accounts[userId].(totpSecret := Some(secret), totpConfirmed := false)]), Ok(secret))
  }

  function TotpVerified(c: Config, p: Provider, userId: Id, code: Text, now: int): (Provider, Result<bool>) {
    if userId !in p.accounts then (p, Raise(AuthError))
    else
      match p.accounts[userId].totpSecret
      case None => (p, Raise(TotpNotEnrolled))
      case Some(secret) =>
        if c.totp(secret, code, now)
        then (p.(accounts := p.accounts[userId := p.accounts[userId].(totpConfirmed := true)]), Ok(true))
        else (p, Ok(false))
  }

  function Disabled(p: Provider, userId: Id): (Provider, Result<()>) {
    if userId !in p.accounts then (p, Raise(AuthError))
    else
      var q := p.(accounts := p.accounts[userId := p.accounts[userId].(disabled := true)]);
      (AllSessionsEnded(q, userId), Ok(()))
  }

  // ---- The provider object --------------------------------------------------------------------

  class InMemoryIdentityProvider {
    const config: Config
    var accounts: map<Id, Account>
    var emailIndex: map<EmailKey, Id>
    var sessions: map<Id, SessionRecord>

    function State(): Provider
      reads this
    {
      Provider(accounts, emailIndex, sessions)
    }

    constructor (config: Config)
      ensures State() == EMPTY_PROVIDER && this.config == config
    {
      this.config := config;
      accounts, emailIndex, sessions := map[], map[], map[];
    }

    /** The user id is a new random UUID. */
    method Register(archetype: Archetype, email: Text, hash: Text, userId: Id) returns (r: Result<ProviderUser>)
      requires userId !in accounts
      modifies this
      ensures (State(), r) == Registered(config, old(State()), archetype, email, hash, userId)
    {
      var key := (archetype, config.lower(email));
      if key in emailIndex { return Raise(AuthError); }
      var account := Account(userId, archetype, email, hash, false, false, None, false);
      accounts := accounts[userId := account];
      emailIndex := emailIndex[key := userId];
      return Ok(View(account));
    }

    method FindUserByEmail(archetype: Archetype, email: Text) returns (r: Result<Option<ProviderUser>>)
      ensures r == FoundUser(config, State(), archetype, email)
    {
      var key := (archetype, config.lower(email));
      if key !in emailIndex { return Ok(None); }
      var userId := emailIndex[key];
      if userId !in accounts { return Raise(KeyError); }
      return Ok(Some(View(accounts[userId])));
    }

    method Authenticate(archetype: Archetype, email: Text, password: Text, rehash: Text) returns (r: Result<ProviderUser>)
      modifies this
      ensures (State(), r) == Authenticated(config, old(State()), archetype, email, password, rehash)
    {
      var key := (archetype, config.lower(email));
      if key !in emailIndex { return Raise(AuthenticationFailed); }
      var userId := emailIndex[key];
      if userId !in accounts { return Raise(KeyError); }
      var account := accounts[userId];
      if !config.verifies(account.passwordHash, password) { return Raise(AuthenticationFailed); }
      if account.disabled { return Raise(AccountDisabled); }
      if config.stale(account.passwordHash) {
        accounts := accounts[userId := account.(passwordHash := rehash)];
      }
      return Ok(View(account));
    }

    method MarkEmailVerified(userId: Id) returns (r: Result<ProviderUser>)
      modifies this
      ensures (State(), r) == EmailVerified(old(State()), userId)
    {
      if userId !in accounts { return Raise(AuthError); }
      accounts := accounts[userId := accounts[userId].(emailVerified := true)];
      return Ok(View(accounts[userId]));
    }

    method ChangePassword(userId: Id, hash: Text) returns (r: Result<()>)
      modifies this
      ensures (State(), r) == PasswordChanged(old(State()), userId, hash)
    {
      if userId !in accounts { return Raise(AuthError); }
      accounts := accounts[userId := accounts[userId].(passwordHash := hash)];
      return Ok(());
    }

    /** The session id is a new random UUID. */
    method IssueSession(userId: Id, sessionId: Id, device: Option<Text>, now: int) returns (r: Result<Session>)
      requires sessionId !in sessions
      modifies this
      ensures (State(), r) == SessionIssued(config, old(State()), userId, sessionId, device, now)
    {
      if userId !in accounts { return Raise(AuthError); }
      var account := accounts[userId];
      if account.disabled { return Raise(AccountDisabled); }
      var record := SessionRecord(sessionId, userId, account.archetype, now, now + config.sessionTtl, device, false);
      sessions := sessions[sessionId := record];
      return Ok(SessionView(record));
    }

    method GetSession(sessionId: Id, now: int) returns (r: Result<Session>)
      ensures r.Ok? <==> sessionId in sessions && !sessions[sessionId].revoked && now < sessions[sessionId].expiresAt
      ensures r == SessionFound(State(), sessionId, now)
    {
      if sessionId !in sessions { return Raise(SessionNotFound); }
      var record := sessions[sessionId];
      if record.revoked { return Raise(SessionRevoked); }
      if now >= record.expiresAt { return Raise(SessionRevoked); }
      return Ok(SessionView(record));
    }

    method RevokeSession(sessionId: Id)
      modifies this
      ensures State() == SessionEnded(old(State()), sessionId)
    {
      if sessionId in sessions {
        sessions := sessions[sessionId := sessions[sessionId].(revoked := true)];
      }
    }

    method RevokeAllSessions(userId: Id)
      modifies this
      ensures State() == AllSessionsEnded(old(State()), userId)
    {
      var rest := sessions.Keys;
      while rest != {}
        invariant rest <= sessions.Keys == old(sessions).Keys
        invariant accounts == old(accounts) && emailIndex == old(emailIndex)
        invariant forall s :: s in rest ==> sessions[s] == old(sessions)[s]
        invariant forall s :: s in sessions && s !in rest ==> sessions[s] == AllSessionsEnded(old(State()), userId).sessions[s]
        decreases |rest|
      {
        var s :| s in rest;
        rest := rest - {s};
        if sessions[s].userId == userId {
          sessions := sessions[s := sessions[s].(revoked := true)];
        }
      }
      assert sessions == AllSessionsEnded(old(State()), userId).sessions;
    }

    method EnrolTotp(userId: Id, secret: Text) returns (r: Result<Text>)
      modifies this
      ensures (State(), r) == TotpEnrolled(old(State()), userId, secret)
    {
      if userId !in accounts { return Raise(AuthError); }
      if accounts[userId].totpConfirmed { return Raise(TotpAlreadyEnrolled); }
      accounts := accounts[userId := accounts[userId].(totpSecret := Some(secret), totpConfirmed := false)];
      return Ok(secret);
    }

    method VerifyTotp(userId: Id, code: Text, now: int) returns (r: Result<bool>)
      modifies this
      ensures (State(), r) == TotpVerified(config, old(State()), userId, code, now)
    {
      if userId !in accounts { return Raise(AuthError); }
      var account := accounts[userId];
      if account.totpSecret.None? { return Raise(TotpNotEnrolled); }
      if config.totp(account.totpSecret.value, code, now) {
        accounts := accounts[userId := account.(totpConfirmed := true)];
        return Ok(true);
      }
      return Ok(false);
    }

    method DisableAccount(userId: Id) returns (r: Result<()>)
      modifies this
      ensures (State(), r) == Disabled(old(State()), userId)
    {
      if userId !in accounts { return Raise(AuthError); }
      accounts := accounts[userId := accounts[userId].(disabled := true)];
      RevokeAllSessions(userId);
      return Ok(());
    }
  }

  // ---- Every call, and what every call keeps ---------------------------------------------------

  datatype Call =
    | Register(archetype: Archetype, email: Text, hash: Text, userId: Id)
    | Authenticate(archetype: Archetype, email: Text, password: Text, rehash: Text)
    | MarkEmailVerified(userId: Id)
    | ChangePassword(userId: Id, hash: Text)
    | IssueSession(userId: Id, sessionId: Id, device: Option<Text>)
    | RevokeSession(sessionId: Id)
    | RevokeAllSessions(userId: Id)
    | EnrolTotp(userId: Id, secret: Text)
    | VerifyTotp(userId: Id, code: Text)
    | DisableAccount(userId: Id)

  predicate IsOwn(id: Id) { OwnText(id) }

  /** Every account id is the own text of a uuid. */
  ghost predicate OwnIds(ids: set<Id>) {
    forall id {:trigger IsOwn(id)} :: id in ids ==> IsOwn(id)
  }

  /** Random UUIDs do not repeat, and an account's id is the own text of one. */
  predicate UsesNewIds(p: Provider, call: Call) {
    && (call.Register? ==> call.userId !in p.accounts && IsOwn(call.userId))
    && (call.IssueSession? ==> call.sessionId !in p.sessions)
  }

  function Perform(c: Config, p: Provider, call: Call, now: int): Provider {
    match call
    case Register(archetype, email, hash, userId) => Registered(c, p, archetype, email, hash, userId).0
    case Authenticate(archetype, email, password, rehash) => Authenticated(c, p, archetype, email, password, rehash).0
    case MarkEmailVerified(userId) => EmailVerified(p, userId).0
    case ChangePassword(userId, hash) => PasswordChanged(p, userId, hash).0
    case IssueSession(userId, sessionId, device) => SessionIssued(c, p, userId, sessionId, device, now).0
    case RevokeSession(sessionId) => SessionEnded(p, sessionId)
    case RevokeAllSessions(userId) => AllSessionsEnded(p, userId)
    case EnrolTotp(userId, secret) => TotpEnrolled(p, userId, secret).0
    case VerifyTotp(userId, code) => TotpVerified(c, p, userId, code, now).0
    case DisableAccount(userId) => Disabled(p, userId).0
  }

  predicate Matches(c: Config, a: Account, archetype: Archetype, email: Text) {
    a.archetype == archetype && c.lower(a.email) == c.lower(email)
  }

  function KeyOf(c: Config, a: Account): EmailKey { (a.archetype, c.lower(a.email)) }

  /** The index holds exactly the accounts, each under its own archetype and folded email. */
  ghost predicate IndexAgrees(c: Config, p: Provider) {
    && (forall key :: key in p.emailIndex ==> p.emailIndex[key] in p.accounts && KeyOf(c, p.accounts[p.emailIndex[key]]) == key)
    && (forall id :: id in p.accounts ==> KeyOf(c, p.accounts[id]) in p.emailIndex && p.emailIndex[KeyOf(c, p.accounts[id])] == id)
  }

  predicate AccountOk(id: Id, a: Account) {
    a.userId == id && (a.totpConfirmed ==> a.totpSecret.Some?)
  }

  ghost predicate AccountsOk(accounts: map<Id, Account>) {
    forall id :: id in accounts ==> AccountOk(id, accounts[id])
  }

  /** A session belongs to an account of its archetype, and to a live one unless revoked. */
  predicate SessionOk(accounts: map<Id, Account>, id: Id, s: SessionRecord) {
    && s.sessionId == id
    && s.userId in accounts
    && s.archetype == accounts[s.userId].archetype
    && (accounts[s.userId].disabled ==> s.revoked)
  }

  ghost predicate SessionsOk(accounts: map<Id, Account>, sessions: map<Id, SessionRecord>) {
    forall s :: s in sessions ==> SessionOk(accounts, s, sessions[s])
  }

  ghost predicate ProviderInv(c: Config, p: Provider) {
    IndexAgrees(c, p) && AccountsOk(p.accounts) && SessionsOk(p.accounts, p.sessions)
  }

  /** The index lookup is a linear scan over the accounts: the same hit, the same miss, no two
      accounts with one archetype and folded email, and no dangling entry. */
  lemma IndexIsLinearScan(c: Config, p: Provider, archetype: Archetype, email: Text)
    requires IndexAgrees(c, p)
    ensures FoundUser(c, p, archetype, email) == Ok(None) <==> forall id :: id in p.accounts ==> !Matches(c, p.accounts[id], archetype, email)
    ensures forall id :: id in p.accounts && Matches(c, p.accounts[id], archetype, email) ==>
              FoundUser(c, p, archetype, email) == Ok(Some(View(p.accounts[id])))
    ensures forall x, y :: x in p.accounts && y in p.accounts && KeyOf(c, p.accounts[x]) == KeyOf(c, p.accounts[y]) ==> x == y
    ensures FoundUser(c, p, archetype, email).Ok?
  {
    forall id | id in p.accounts && Matches(c, p.accounts[id], archetype, email)
      ensures FindByEmail(c, p, archetype, email) == Some(id)
    {
      assert KeyOf(c, p.accounts[id]) == (archetype, c.lower(email));
    }
    var found := FindByEmail(c, p, archetype, email);
    if found.Some? {
      assert Matches(c, p.accounts[found.value], archetype, email);
    }
  }

  ghost predicate AccountEvolves(a: Account, b: Account) {
    && b.userId == a.userId && b.archetype == a.archetype && b.email == a.email
    && (a.disabled ==> b.disabled)
    && (a.emailVerified ==> b.emailVerified)
    && (a.totpConfirmed ==> b.totpConfirmed && b.totpSecret == a.totpSecret)
  }

  ghost predicate SessionEvolves(a: SessionRecord, b: SessionRecord) {
    b == a.(revoked := b.revoked) && (a.revoked ==> b.revoked)
  }

  ghost predicate AccountsEvolve(a: map<Id, Account>, b: map<Id, Account>) {
    forall id :: id in a ==> id in b && AccountEvolves(a[id], b[id])
  }

  ghost predicate SessionsEvolve(a: map<Id, SessionRecord>, b: map<Id, SessionRecord>, since: int) {
    && (forall s :: s in a ==> s in b && SessionEvolves(a[s], b[s]))
    && (forall s :: s in b && s !in a ==> b[s].issuedAt >= since)
  }

  /** What time never undoes: accounts and sessions stay, disabled accounts stay disabled, a
      confirmed TOTP secret stays what it is, revoked sessions stay revoked, and sessions that
      are new were issued since. */
  ghost predicate Evolves(p: Provider, q: Provider, since: int) {
    AccountsEvolve(p.accounts, q.accounts) && SessionsEvolve(p.sessions, q.sessions, since)
  }

  lemma EvolvesTransitive(p: Provider, q: Provider, r: Provider, since: int, later: int)
    requires Evolves(p, q, since) && Evolves(q, r, later) && since <= later
    ensures Evolves(p, r, since)
  {}

  lemma UnchangedEvolves(p: Provider, now: int)
    ensures AccountsEvolve(p.accounts, p.accounts) && SessionsEvolve(p.sessions, p.sessions, now)
  {}

  lemma SessionChangeKeepsInv(c: Config, p: Provider, q: Provider, now: int)
    requires ProviderInv(c, p) && q == p.(sessions := q.sessions)
    requires SessionsOk(p.accounts, q.sessions) && SessionsEvolve(p.sessions, q.sessions, now)
    ensures ProviderInv(c, q) && Evolves(p, q, now)
  {
    UnchangedEvolves(p, now);
    assert q.accounts == p.accounts && q.emailIndex == p.emailIndex;
  }

  lemma IssueKeepsInv(c: Config, p: Provider, userId: Id, sessionId: Id, device: Option<Text>, now: int)
    requires ProviderInv(c, p) && sessionId !in p.sessions
    ensures ProviderInv(c, SessionIssued(c, p, userId, sessionId, device, now).0)
    ensures Evolves(p, SessionIssued(c, p, userId, sessionId, device, now).0, now)
  {
    var q := SessionIssued(c, p, userId, sessionId, device, now).0;
    UnchangedEvolves(p, now);
    if q != p { SessionChangeKeepsInv(c, p, q, now); }
  }

  lemma EndKeepsInv(c: Config, p: Provider, sessionId: Id, now: int)
    requires ProviderInv(c, p)
    ensures ProviderInv(c, SessionEnded(p, sessionId)) && Evolves(p, SessionEnded(p, sessionId), now)
  {
    SessionChangeKeepsInv(c, p, SessionEnded(p, sessionId), now);
  }

  lemma EndAllKeepsInv(c: Config, p: Provider, userId: Id, now: int)
    requires ProviderInv(c, p)
    ensures ProviderInv(c, AllSessionsEnded(p, userId)) && Evolves(p, AllSessionsEnded(p, userId), now)
  {
    SessionChangeKeepsInv(c, p, AllSessionsEnded(p, userId), now);
  }

  lemma SameKeysIndexAgrees(c: Config, p: Provider, q: Provider)
    requires IndexAgrees(c, p) && q.emailIndex == p.emailIndex && q.accounts.Keys == p.accounts.Keys
    requires forall id :: id in p.accounts ==> q.accounts[id].archetype == p.accounts[id].archetype && q.accounts[id].email == p.accounts[id].email
    ensures IndexAgrees(c, q)
  {
    assert forall id :: id in p.accounts ==> KeyOf(c, q.accounts[id]) == KeyOf(c, p.accounts[id]);
  }

  lemma RegisterKeepsIndex(c: Config, p: Provider, a: Account)
    requires IndexAgrees(c, p) && a.userId !in p.accounts && KeyOf(c, a) !in p.emailIndex
    ensures IndexAgrees(c, Put(p, a).(emailIndex := p.emailIndex[KeyOf(c, a) := a.userId]))
  {
    assert forall id :: id in p.accounts ==> KeyOf(c, p.accounts[id]) != KeyOf(c, a);
  }

  lemma RegisterKeepsInv(c: Config, p: Provider, archetype: Archetype, email: Text, hash: Text, userId: Id, now: int)
    requires ProviderInv(c, p) && userId !in p.accounts
    ensures ProviderInv(c, Registered(c, p, archetype, email, hash, userId).0)
    ensures Evolves(p, Registered(c, p, archetype, email, hash, userId).0, now)
  {
    UnchangedEvolves(p, now);
    if (archetype, c.lower(email)) !in p.emailIndex {
      RegisterKeepsIndex(c, p, Account(userId, archetype, email, hash, false, false, None, false));
    }
  }

  lemma AccountUpdateKeepsInv(c: Config, p: Provider, a: Account, now: int)
    requires ProviderInv(c, p) && a.userId in p.accounts && AccountEvolves(p.accounts[a.userId], a)
    requires AccountOk(a.userId, a)
    ensures IndexAgrees(c, Put(p, a)) && AccountsOk(Put(p, a).accounts)
    ensures a.disabled == p.accounts[a.userId].disabled ==> ProviderInv(c, Put(p, a))
    ensures Evolves(p, Put(p, a), now)
  {
    SameKeysIndexAgrees(c, p, Put(p, a));
    UnchangedEvolves(p, now);
  }

  lemma DisableKeepsInv(c: Config, p: Provider, userId: Id, now: int)
    requires ProviderInv(c, p)
    ensures ProviderInv(c, Disabled(p, userId).0) && Evolves(p, Disabled(p, userId).0, now)
  {
    UnchangedEvolves(p, now);
    if userId in p.accounts {
      var a := p.accounts[userId].(disabled := true);
      AccountUpdateKeepsInv(c, p, a, now);
      EndAllKeepsInv(c, p, userId, now);
      var q := Disabled(p, userId).0;
      assert q.accounts == Put(p, a).accounts && q.sessions == AllSessionsEnded(p, userId).sessions;
      SameKeysIndexAgrees(c, p, q);
    }
  }

  /** Authentication changes nothing but a stale hash. */
  lemma AuthenticateUpgrades(c: Config, p: Provider, archetype: Archetype, email: Text, password: Text, rehash: Text)
    ensures var q := Authenticated(c, p, archetype, email, password, rehash).0;
            q == p || (exists id :: id in p.accounts && q == p.(accounts := p.accounts[id := p.accounts[id].(passwordHash := rehash)]))
  {}

  lemma AuthenticateKeepsInv(c: Config, p: Provider, archetype: Archetype, email: Text, password: Text, rehash: Text, now: int)
    requires ProviderInv(c, p)
    ensures ProviderInv(c, Authenticated(c, p, archetype, email, password, rehash).0)
    ensures Evolves(p, Authenticated(c, p, archetype, email, password, rehash).0, now)
  {
    AuthenticateUpgrades(c, p, archetype, email, password, rehash);
    var q := Authenticated(c, p, archetype, email, password, rehash).0;
    if q == p {
      UnchangedEvolves(p, now);
    } else {
      var id :| id in p.accounts && q == p.(accounts := p.accounts[id := p.accounts[id].(passwordHash := rehash)]);
      AccountUpdateKeepsInv(c, p, p.accounts[id].(passwordHash := rehash), now);
    }
  }

  lemma VerifiedKeepsInv(c: Config, p: Provider, userId: Id, now: int)
    requires ProviderInv(c, p)
    ensures ProviderInv(c, EmailVerified(p, userId).0) && Evolves(p, EmailVerified(p, userId).0, now)
  {
    UnchangedEvolves(p, now);
    if userId in p.accounts { AccountUpdateKeepsInv(c, p, p.accounts[userId].(emailVerified := true), now); }
  }

  lemma PasswordKeepsInv(c: Config, p: Provider, userId: Id, hash: Text, now: int)
    requires ProviderInv(c, p)
    ensures ProviderInv(c, PasswordChanged(p, userId, hash).0) && Evolves(p, PasswordChanged(p, userId, hash).0, now)
  {
    UnchangedEvolves(p, now);
    if userId in p.accounts { AccountUpdateKeepsInv(c, p, p.accounts[userId].(passwordHash := hash), now); }
  }

  lemma EnrolKeepsInv(c: Config, p: Provider, userId: Id, secret: Text, now: int)
    requires ProviderInv(c, p)
    ensures ProviderInv(c, TotpEnrolled(p, userId, secret).0) && Evolves(p, TotpEnrolled(p, userId, secret).0, now)
  {
    UnchangedEvolves(p, now);
    if userId in p.accounts && !p.accounts[userId].totpConfirmed {
      AccountUpdateKeepsInv(c, p, p.accounts[userId].(totpSecret := Some(secret), totpConfirmed := false), now);
    }
  }

  lemma CodeKeepsInv(c: Config, p: Provider, userId: Id, code: Text, now: int)
    requires ProviderInv(c, p)
    ensures ProviderInv(c, TotpVerified(c, p, userId, code, now).0) && Evolves(p, TotpVerified(c, p, userId, code, now).0, now)
  {
    UnchangedEvolves(p, now);
    if userId in p.accounts && p.accounts[userId].totpSecret.Some? {
      AccountUpdateKeepsInv(c, p, p.accounts[userId].(totpConfirmed := true), now);
    }
  }

  /** Every provider call keeps the invariant and undoes nothing that is settled. */
  lemma CallKeepsInv(c: Config, p: Provider, call: Call, now: int)
    requires ProviderInv(c, p) && UsesNewIds(p, call)
    ensures ProviderInv(c, Perform(c, p, call, now))
    ensures Evolves(p, Perform(c, p, call, now), now)
  {
    match call {
      case Register(archetype, email, hash, userId) => RegisterKeepsInv(c, p, archetype, email, hash, userId, now);
      case Authenticate(archetype, email, password, rehash) => AuthenticateKeepsInv(c, p, archetype, email, password, rehash, now);
      case IssueSession(userId, sessionId, device) => IssueKeepsInv(c, p, userId, sessionId, device, now);
      case RevokeSession(sessionId) => EndKeepsInv(c, p, sessionId, now);
      case RevokeAllSessions(userId) => EndAllKeepsInv(c, p, userId, now);
      case DisableAccount(userId) => DisableKeepsInv(c, p, userId, now);
      case MarkEmailVerified(userId) => VerifiedKeepsInv(c, p, userId, now);
      case ChangePassword(userId, hash) => PasswordKeepsInv(c, p, userId, hash, now);
      case EnrolTotp(userId, secret) => EnrolKeepsInv(c, p, userId, secret, now);
      case VerifyTotp(userId, code) => CodeKeepsInv(c, p, userId, code, now);
    }
  }

  lemma CallKeepsOwnIds(c: Config, p: Provider, call: Call, now: int)
    requires OwnIds(p.accounts.Keys) && UsesNewIds(p, call)
    ensures OwnIds(Perform(c, p, call, now).accounts.Keys)
  {
    var q := Perform(c, p, call, now);
    assert q.accounts.Keys <= if call.Register? then p.accounts.Keys + {call.userId} else p.accounts.Keys;
  }

  /** After revoking all of a user's sessions none of them is live at any time. */
  lemma AllSessionsEndedAreDead(p: Provider, userId: Id, s: Id, now: int)
    requires s in p.sessions && p.sessions[s].userId == userId
    ensures SessionFound(AllSessionsEnded(p, userId), s, now) == Raise(SessionRevoked)
  {}

  /** A revoked session never answers again, whatever calls follow. */
  lemma RevokedStaysDead(p: Provider, q: Provider, since: int, s: Id, now: int)
    requires Evolves(p, q, since) && s in p.sessions && p.sessions[s].revoked
    ensures SessionFound(q, s, now) == Raise(SessionRevoked)
  {
    assert SessionEvolves(p.sessions[s], q.sessions[s]);
  }
}
