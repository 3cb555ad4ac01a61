/** What each operation of the service leaves behind: the row it records, column by column, what
    it does to accounts and sessions, and what stands when the row cannot be written. */
module ServiceLaws {
  import opened Sorting
  import opened Wrappers
  import opened Rbac
  import opened IdentityProvider
  import opened RoleStore
  import opened AuditTrail
  import opened AuthService
  import opened ProviderLaws
  import opened RoleLaws
  import opened Uuids
  import AuthSafety
  import AuthRuns

  // ---- Recording ----------------------------------------------------------------------------------

  /** The key spells the word, each of its letters in either case. */
  predicate InAnyCase(key: string, word: string) {
    |key| == |word| && forall i :: 0 <= i < |key| ==>
      key[i] == word[i] || ('A' <= key[i] <= 'Z' && key[i] as int + 32 == word[i] as int)
  }

  predicate NamesCredential(key: string) {
    || InAnyCase(key, "password") || InAnyCase(key, "plaintext") || InAnyCase(key, "new_password")
    || InAnyCase(key, "old_password") || InAnyCase(key, "totp_secret") || InAnyCase(key, "secret")
    || InAnyCase(key, "password_hash") || InAnyCase(key, "code") || InAnyCase(key, "totp_code")
  }

  lemma LoweredIff(key: string, word: string)
    requires forall i :: 0 <= i < |word| ==> 'a' <= word[i] <= 'z' || word[i] == '_'
    ensures LowerKey(key) == word <==> InAnyCase(key, word)
  {
    if InAnyCase(key, word) {
      assert forall i :: 0 <= i < |key| ==> LowerKey(key)[i] == word[i];
    }
    if LowerKey(key) == word {
      assert forall i :: 0 <= i < |key| ==> LowerChar(key[i]) == LowerKey(key)[i] == word[i];
    }
  }

  lemma ForbiddenIff(key: string)
    ensures LowerKey(key) in FORBIDDEN <==> NamesCredential(key)
  {
    LoweredIff(key, "password");
    LoweredIff(key, "plaintext");
    LoweredIff(key, "new_password");
    LoweredIff(key, "old_password");
    LoweredIff(key, "totp_secret");
    LoweredIff(key, "secret");
    LoweredIff(key, "password_hash");
    LoweredIff(key, "code");
    LoweredIff(key, "totp_code");
  }

  /** The guard refuses exactly the details with a key that spells one of the nine words, in any
      mixture of upper and lower case. */
  lemma GuardIff(details: Details)
    ensures CarriesCredential(details) <==> exists key :: key in details && NamesCredential(key)
  {
    forall key | key in details ensures LowerKey(key) in FORBIDDEN <==> NamesCredential(key) {
      ForbiddenIff(key);
    }
  }

  /** The row holds the event's own columns, its user as the id that the text spells. */
  predicate HoldsEvent(row: AuditRow, e: AuditEvent) {
    && row.eventId == e.eventId && row.kind == e.kind && row.occurredAt == e.occurredAt && row.details == e.details
    && ReadsOptional(e.userId, row.userId)
  }

  /** The database takes the row of an event about this user. */
  predicate Writable(tx: Tx, userId: Option<Id>, fault: bool) {
    !tx.aborted && !fault && (userId.Some? ==> IsUser(tx.tables.users, userId.value))
  }

  /** One row is added and mirrored, and nothing else of the unit of work changes. */
  predicate AddsRow(tx: Tx, mirrored: seq<AuditEvent>, tx': Tx, mirrored': seq<AuditEvent>, e: AuditEvent) {
    && tx' == tx.(tables := tx.tables.(audit := tx'.tables.audit))
    && |tx'.tables.audit| == |tx.tables.audit| + 1 && tx'.tables.audit[..|tx.tables.audit|] == tx.tables.audit
    && HoldsEvent(tx'.tables.audit[|tx.tables.audit|], e)
    && mirrored' == mirrored + [e]
  }

  /** Recording refuses credentials before it touches anything, aborts the unit of work when the
      database refuses the row, and otherwise adds the row and mirrors the event. */
  lemma RecordsIff(tx: Tx, mirrored: seq<AuditEvent>, e: AuditEvent, fault: bool)
    ensures var (tx', mirrored', r) := Recorded(tx, mirrored, e, fault);
            && (r == Raise(CredentialInDetails) <==> exists key :: key in e.details && NamesCredential(key))
            && (r == Raise(DatabaseError)
                <==> (forall key :: key in e.details ==> !NamesCredential(key)) && !Writable(tx, e.userId, fault))
            && (r == Raise(CredentialInDetails) ==> tx' == tx && mirrored' == mirrored)
            && (r == Raise(DatabaseError) ==> tx' == tx.(aborted := true) && mirrored' == mirrored)
            && (r.Raise? ==> r.error == CredentialInDetails || r.error == DatabaseError)
            && (r.Ok? ==> r.value == e && AddsRow(tx, mirrored, tx', mirrored', e))
  {
    GuardIff(e.details);
  }

  // ---- What an operation records ----------------------------------------------------------------------

  /** The unit of work from s to t: the row of the event, or none and an aborted transaction when
      the database refuses it. The provider is not part of the unit of work. */
  predicate Records(s: Scene, t: Scene, e: AuditEvent, fault: bool) {
    if Writable(s.tx, e.userId, fault) then AddsRow(s.tx, s.mirrored, t.tx, t.mirrored, e)
    else t.tx == s.tx.(aborted := true) && t.mirrored == s.mirrored
  }

  /** An operation's own verdict stands unless its row is refused. */
  function Unless<T>(s: Scene, userId: Option<Id>, fault: bool, r: Result<T>): Result<T> {
    if Writable(s.tx, userId, fault) then r else Raise(DatabaseError)
  }

  lemma PlainDetails(details: Details)
    requires details.Keys <= {"archetype", "email", "sessions_revoked", "session_id", "purpose", "factor", "disabled_by", "role", "granted_by", "customer_id", "revoked_by"}
    ensures forall key :: key in details ==> !NamesCredential(key)
  {
    forall key | key in details ensures !NamesCredential(key) {
      assert key in details.Keys && key[0] != '_';
    }
  }

  lemma AuditedRecords<T>(s: Scene, kind: EventKind, userId: Option<Id>, details: Details, stamp: Stamp, r: Result<T>)
    requires details.Keys <= {"archetype", "email", "sessions_revoked", "session_id", "purpose", "factor", "disabled_by", "role", "granted_by", "customer_id", "revoked_by"}
    ensures var (t, v) := Audited(s, kind, userId, details, stamp, r);
            && t.provider == s.provider && v == Unless(s, userId, stamp.fault, r)
            && Records(s, t, AuditEvent(stamp.eventId, kind, stamp.at, userId, details), stamp.fault)
  {
    PlainDetails(details);
    RecordsIff(s.tx, s.mirrored, AuditEvent(stamp.eventId, kind, stamp.at, userId, details), stamp.fault);
  }

  function Named(id: Option<Id>): Detail {
    if id.Some? then TextDetail(id.value) else Null
  }

  // ---- Logging in ---------------------------------------------------------------------------------------

  function Label(archetype: Archetype): Text {
    Ascii(if archetype == Operator then "operator" else if archetype == BrandCustomer then "brand_customer" else "foundation_internal")
  }

  /** The right password of an enabled account logs in and records login_success of that user. */
  lemma LogInRecordsSuccess(c: Config, s: Scene, archetype: Archetype, email: Text, password: Text, rehash: Text, stamp: Stamp, id: Id)
    requires ProviderInv(c, s.provider)
    requires Opens(c, s.provider, archetype, email, password, id) && !s.provider.accounts[id].disabled
    ensures var a := s.provider.accounts[id];
            var (t, r) := LoggedIn(c, s, archetype, email, password, rehash, stamp);
            && (r.Ok? <==> Writable(s.tx, Some(id), stamp.fault))
            && (r.Ok? ==> Shows(r.value, a) && r.value.userId == id)
            && (r.Raise? ==> r.error == DatabaseError)
            && Records(s, t, AuditEvent(stamp.eventId, LoginSuccess, stamp.at, Some(id), map["archetype" := TextDetail(Label(archetype))]), stamp.fault)
            && t.provider == if c.stale(a.passwordHash) then Put(s.provider, a.(passwordHash := rehash)) else s.provider
  {
    OwnerLogsInIff(c, s.provider, archetype, email, password, rehash, id);
    var (p, r) := Authenticated(c, s.provider, archetype, email, password, rehash);
    AuditedRecords(s.(provider := p), LoginSuccess, Some(id), SuccessDetails(archetype), stamp, r);
  }

  /** Anything else records login_failure of the address and of no user, and names its error. */
  lemma LogInRecordsFailure(c: Config, s: Scene, archetype: Archetype, email: Text, password: Text, rehash: Text, stamp: Stamp)
    requires ProviderInv(c, s.provider)
    requires forall id :: Opens(c, s.provider, archetype, email, password, id) ==> s.provider.accounts[id].disabled
    ensures var (t, r) := LoggedIn(c, s, archetype, email, password, rehash, stamp);
            && r == Unless(s, None, stamp.fault,
                           Raise(if exists id :: Opens(c, s.provider, archetype, email, password, id) then AccountDisabled else AuthenticationFailed))
            && Records(s, t, AuditEvent(stamp.eventId, LoginFailure, stamp.at, None,
                                        map["archetype" := TextDetail(Label(archetype)), "email" := TextDetail(email)]), stamp.fault)
            && t.provider == s.provider
  {
    AuthenticatesIff(c, s.provider, archetype, email, password, rehash);
    var (p, r) := Authenticated(c, s.provider, archetype, email, password, rehash);
    AuditedRecords(s.(provider := p), LoginFailure, None, FailureDetails(archetype, email), stamp, r);
  }

  // ---- Passwords and sessions -----------------------------------------------------------------------------

  /** A password change of a known account takes effect whatever becomes of its row: exactly the
      passwords of the new hash log in, and all the user's sessions are over; nobody else notices. */
  lemma PasswordChangeRecords(c: Config, s: Scene, userId: Id, hash: Text, stamp: Stamp, password: Text, rehash: Text, session: Id, now: int)
    requires ProviderInv(c, s.provider)
    ensures var (t, r) := ChangedPassword(s, userId, hash, stamp);
            if userId !in s.provider.accounts then t == s && r == Raise(AuthError)
            else
              var a := s.provider.accounts[userId];
              && r == Unless(s, Some(userId), stamp.fault, Ok(()))
              && Records(s, t, AuditEvent(stamp.eventId, PasswordChange, stamp.at, Some(userId), map["sessions_revoked" := Flag(true)]), stamp.fault)
              && (Authenticated(c, t.provider, a.archetype, a.email, password, rehash).1.Ok? <==> c.verifies(hash, password) && !a.disabled)
              && (forall id :: id in s.provider.accounts && id != userId ==>
                    id in t.provider.accounts && t.provider.accounts[id] == s.provider.accounts[id])
              && EndsExactly(s.provider, t.provider, userId, session, now)
  {
    if userId in s.provider.accounts {
      var (p, r) := PasswordChanged(s.provider, userId, hash);
      NewPasswordLogsIn(c, s.provider, userId, hash, now, password, rehash);
      AllEndedAreRevoked(p, userId, session, now);
      SameAccountsLogIn(c, p, AllSessionsEnded(p, userId), s.provider.accounts[userId], password, rehash);
      AuditedRecords(s.(provider := AllSessionsEnded(p, userId)), PasswordChange, Some(userId), map["sessions_revoked" := Flag(true)], stamp, r);
    }
  }

  /** Of all sessions, exactly the user's are over. */
  predicate EndsExactly(p: Provider, q: Provider, userId: Id, session: Id, now: int) {
    SessionFound(q, session, now)
    == if session in p.sessions && p.sessions[session].userId == userId then Raise(SessionRevoked) else SessionFound(p, session, now)
  }

  lemma SameAccountsLogIn(c: Config, p: Provider, q: Provider, a: Account, password: Text, rehash: Text)
    requires q.accounts == p.accounts && q.emailIndex == p.emailIndex
    ensures Authenticated(c, q, a.archetype, a.email, password, rehash).1 == Authenticated(c, p, a.archetype, a.email, password, rehash).1
  {}

  /** A logout ends the one session and no other, and records session_revoke, whoever it is about. */
  lemma LogOutRecords(s: Scene, sessionId: Id, owner: Option<Id>, stamp: Stamp, session: Id, now: int)
    ensures var (t, r) := LoggedOut(s, sessionId, owner, stamp);
            && r == Unless(s, owner, stamp.fault, Ok(()))
            && Records(s, t, AuditEvent(stamp.eventId, SessionRevoke, stamp.at, owner, map["session_id" := TextDetail(sessionId)]), stamp.fault)
            && t.provider.accounts == s.provider.accounts
            && (SessionFound(t.provider, session, now)
                == if session == sessionId && session in s.provider.sessions then Raise(SessionRevoked) else SessionFound(s.provider, session, now))
  {
    EndedSessionIsRevoked(s.provider, sessionId, session, now);
    AuditedRecords(s.(provider := SessionEnded(s.provider, sessionId)), SessionRevoke, owner, map["session_id" := TextDetail(sessionId)], stamp, Ok(()));
  }

  /** Disabling shuts the account out and ends its sessions whatever becomes of its row. */
  lemma DisableRecords(c: Config, s: Scene, userId: Id, disabledBy: Option<Id>, stamp: Stamp, password: Text, rehash: Text, session: Id, now: int)
    requires ProviderInv(c, s.provider)
    ensures var (t, r) := DisabledAccount(s, userId, disabledBy, stamp);
            if userId !in s.provider.accounts then t == s && r == Raise(AuthError)
            else
              var a := s.provider.accounts[userId];
              && r == Unless(s, Some(userId), stamp.fault, Ok(()))
              && Records(s, t, AuditEvent(stamp.eventId, AccountDisable, stamp.at, Some(userId),
                                          map["disabled_by" := Named(disabledBy)]), stamp.fault)
              && Authenticated(c, t.provider, a.archetype, a.email, password, rehash).1
                 == Raise(if c.verifies(a.passwordHash, password) then AccountDisabled else AuthenticationFailed)
              && (forall id :: id in s.provider.accounts && id != userId ==>
                    id in t.provider.accounts && t.provider.accounts[id] == s.provider.accounts[id])
              && EndsExactly(s.provider, t.provider, userId, session, now)
  {
    if userId in s.provider.accounts {
      var (p, r) := Disabled(s.provider, userId);
      DisabledIsShutOut(c, s.provider, userId, now, password, rehash, session, None);
      AuditedRecords(s.(provider := p), AccountDisable, Some(userId), map["disabled_by" := OptionalText(disabledBy)], stamp, r);
    }
  }

  // ---- One-time passwords ----------------------------------------------------------------------------------

  /** Beginning an enrolment: refused for an unknown user or a confirmed secret, and otherwise the
      secret, whose codes the provider then accepts even if the row is refused. */
  lemma EnrolmentRecords(c: Config, s: Scene, userId: Id, secret: Text, stamp: Stamp, code: Text, now: int)
    requires ProviderInv(c, s.provider)
    ensures var (t, r) := BegunTotp(s, userId, secret, stamp);
            if userId !in s.provider.accounts then t == s && r == Raise(AuthError)
            else if s.provider.accounts[userId].totpConfirmed then t == s && r == Raise(TotpAlreadyEnrolled)
            else
              && r == Unless(s, Some(userId), stamp.fault, Ok(secret))
              && Records(s, t, AuditEvent(stamp.eventId, MfaChallengeIssued, stamp.at, Some(userId),
                                          map["purpose" := TextDetail(Ascii("totp_enrolment"))]), stamp.fault)
              && TotpVerified(c, t.provider, userId, code, now).1 == Ok(c.totp(secret, code, now))
              && t.provider == Put(s.provider, s.provider.accounts[userId].(totpSecret := Some(secret)))
  {
    EnrolledSecretDecides(c, s.provider, userId, secret, now, code);
    var (p, r) := TotpEnrolled(s.provider, userId, secret);
    if r.Ok? {
      AuditedRecords(s.(provider := p), MfaChallengeIssued, Some(userId), map["purpose" := TextDetail(Ascii("totp_enrolment"))], stamp, r);
    }
  }

  /** Checking a code answers whether the stored secret accepts it, and records a success or a
      failure accordingly. */
  lemma CodeRecords(c: Config, s: Scene, userId: Id, code: Text, now: int, stamp: Stamp)
    requires ProviderInv(c, s.provider)
    ensures var (t, r) := CheckedTotp(c, s, userId, code, now, stamp);
            if userId !in s.provider.accounts then t == s && r == Raise(AuthError)
            else if s.provider.accounts[userId].totpSecret.None? then t == s && r == Raise(TotpNotEnrolled)
            else
              var accepted := c.totp(s.provider.accounts[userId].totpSecret.value, code, now);
              && r == Unless(s, Some(userId), stamp.fault, Ok(accepted))
              && Records(s, t, AuditEvent(stamp.eventId, if accepted then MfaChallengeSuccess else MfaChallengeFailure, stamp.at, Some(userId),
                                          map["factor" := TextDetail(Ascii("totp"))]), stamp.fault)
              && t.provider == if accepted then Put(s.provider, s.provider.accounts[userId].(totpConfirmed := true)) else s.provider
  {
    CodeAcceptedIff(c, s.provider, userId, code, now);
    var (p, r) := TotpVerified(c, s.provider, userId, code, now);
    if r.Ok? {
      AuditedRecords(s.(provider := p), if r.value then MfaChallengeSuccess else MfaChallengeFailure, Some(userId),
                     map["factor" := TextDetail(Ascii("totp"))], stamp, r);
    }
  }

  // ---- Roles ---------------------------------------------------------------------------------------------------

  /** A grant that is made is recorded as role_grant with all it was asked for, in the same unit of
      work; a grant that is refused is not recorded. Sessions are not touched. */
  lemma GrantRecords(cats: Catalogues, s: Scene, userId: Id, archetype: Archetype, role: Text, grantedBy: Option<Id>, customerId: Option<Text>,
                     moment: int, fault: bool, stamp: Stamp)
    ensures var (tx, g) := Granted(cats, s.tx, userId, archetype, role, grantedBy, customerId, moment, fault);
            var (t, r) := AssignedRole(cats, s, userId, archetype, role, grantedBy, customerId, moment, fault, stamp);
            && t.provider == s.provider
            && (g.Raise? ==> t == s.(tx := tx) && r == g)
            && (g.Ok? ==>
                  && r == Unless(s, Some(userId), stamp.fault, g)
                  && Records(s.(tx := tx), t, AuditEvent(stamp.eventId, RoleGrant, stamp.at, Some(userId),
                                                         map["role" := TextDetail(role), "granted_by" := Named(grantedBy), "customer_id" := Named(customerId)]),
                             stamp.fault))
  {
    var (tx, g) := Granted(cats, s.tx, userId, archetype, role, grantedBy, customerId, moment, fault);
    if g.Ok? {
      AuditedRecords(s.(tx := tx), RoleGrant, Some(userId), GrantDetails(role, grantedBy, customerId), stamp, g);
    }
  }

  /** A revocation that finds a live grant ends the sessions named by the caller's own text and is
      recorded as role_revoke; one that finds none does neither, and a refused one is an error. */
  lemma RevocationRecords(cats: Catalogues, s: Scene, userId: Id, role: Text, grantedAt: int, revokedBy: Option<Id>, moment: int, fault: bool,
                          stamp: Stamp, session: Id, now: int)
    requires RowsOk(cats, s.tx.tables.users, s.tx.tables.roles)
    ensures var rows := s.tx.tables.roles;
            var (tx, g) := Revoked(s.tx, userId, role, grantedAt, moment, fault);
            var (t, r) := RevokedRole(s, userId, role, grantedAt, revokedBy, moment, fault, stamp);
            && t.provider.accounts == s.provider.accounts
            && if g.Raise? || forall i :: 0 <= i < |rows| ==> !Names(rows[i], userId, role, grantedAt)
               then t == s.(tx := tx) && r == (if g.Raise? then g else Ok(false))
               else
                 && r == Unless(s, Some(userId), stamp.fault, Ok(true))
                 && Records(s.(tx := tx), t, AuditEvent(stamp.eventId, RoleRevoke, stamp.at, Some(userId),
                                                        map["role" := TextDetail(role), "revoked_by" := Named(revokedBy)]), stamp.fault)
                 && EndsExactly(s.provider, t.provider, userId, session, now)
  {
    RevokesIff(cats, s.tx, userId, role, grantedAt, moment, fault);
    var (tx, g) := Revoked(s.tx, userId, role, grantedAt, moment, fault);
    if g == Ok(true) {
      AllEndedAreRevoked(s.provider, userId, session, now);
      AuditedRecords(s.(tx := tx, provider := AllSessionsEnded(s.provider, userId)), RoleRevoke, Some(userId), RevokeDetails(role, revokedBy), stamp, g);
    }
  }

  // ---- In every reachable state ------------------------------------------------------------------------------------

  /** The three verdicts on a log-in, when its row can be written. */
  ghost predicate LogsInRight(c: Config, s: Scene, archetype: Archetype, email: Text, password: Text, fault: bool, r: Result<ProviderUser>) {
    var p := s.provider;
    && (r.Ok? <==> exists id :: Opens(c, p, archetype, email, password, id) && !p.accounts[id].disabled && Writable(s.tx, Some(id), fault))
    && (r == Raise(AccountDisabled)
        <==> Writable(s.tx, None, fault) && exists id :: Opens(c, p, archetype, email, password, id) && p.accounts[id].disabled)
    && (r == Raise(AuthenticationFailed) <==> Writable(s.tx, None, fault) && forall id :: !Opens(c, p, archetype, email, password, id))
    && (r.Ok? ==> Opens(c, p, archetype, email, password, r.value.userId) && Shows(r.value, p.accounts[r.value.userId]))
  }

  lemma LogInIsRight(c: Config, s: Scene, archetype: Archetype, email: Text, password: Text, rehash: Text, stamp: Stamp)
    requires ProviderInv(c, s.provider)
    ensures LogsInRight(c, s, archetype, email, password, stamp.fault, LoggedIn(c, s, archetype, email, password, rehash, stamp).1)
  {
    if id :| Opens(c, s.provider, archetype, email, password, id) {
      OneOwner(c, s.provider, archetype, email, id);
      if s.provider.accounts[id].disabled {
        LogInRecordsFailure(c, s, archetype, email, password, rehash, stamp);
      } else {
        LogInRecordsSuccess(c, s, archetype, email, password, rehash, stamp, id);
      }
    } else {
      LogInRecordsFailure(c, s, archetype, email, password, rehash, stamp);
    }
  }

  /** After every run, whoever opens an enabled account gets in if the row can be written, and
      nobody else does. */
  lemma ReachableLogIn(y: AuthSafety.System, clock: int, steps: seq<AuthSafety.Step>, archetype: Archetype, email: Text, password: Text,
                       rehash: Text, stamp: Stamp)
    requires AuthRuns.AllAdmissible(y, AuthRuns.Fresh(clock), steps)
    ensures var s := AuthRuns.Run(y, AuthRuns.Fresh(clock), steps).scene;
            LogsInRight(y.config, s, archetype, email, password, stamp.fault,
                        LoggedIn(y.config, s, archetype, email, password, rehash, stamp).1)
  {
    AuthRuns.FreshInv(y, clock);
    AuthRuns.RunKeepsInv(y, AuthRuns.Fresh(clock), steps);
    LogInIsRight(y.config, AuthRuns.Run(y, AuthRuns.Fresh(clock), steps).scene, archetype, email, password, rehash, stamp);
  }
}
