/** What each identity-provider operation means to whoever calls the provider next: who logs in,
    which sessions answer, which codes are accepted. */
module ProviderLaws {
  import opened Sorting
  import opened Wrappers
  import opened Rbac
  import opened IdentityProvider

  /** The account that the address belongs to. */
  predicate BelongsTo(c: Config, p: Provider, archetype: Archetype, email: Text, id: Id) {
    id in p.accounts && Matches(c, p.accounts[id], archetype, email)
  }

  /** The address and the password are those of this account. */
  predicate Opens(c: Config, p: Provider, archetype: Archetype, email: Text, password: Text, id: Id) {
    BelongsTo(c, p, archetype, email, id) && c.verifies(p.accounts[id].passwordHash, password)
  }

  /** A view shows the account's own columns. */
  predicate Shows(u: ProviderUser, a: Account) {
    && u.userId == a.userId && u.archetype == a.archetype && u.email == a.email
    && u.emailVerified == a.emailVerified && u.totpEnrolled == a.totpConfirmed && u.disabled == a.disabled
  }

  lemma OneOwner(c: Config, p: Provider, archetype: Archetype, email: Text, id: Id)
    requires ProviderInv(c, p) && BelongsTo(c, p, archetype, email, id)
    ensures FindByEmail(c, p, archetype, email) == Some(id) && p.accounts[id].userId == id
    ensures forall other :: BelongsTo(c, p, archetype, email, other) ==> other == id
  {
    assert KeyOf(c, p.accounts[id]) == (archetype, c.lower(email));
    assert AccountOk(id, p.accounts[id]);
    forall other | BelongsTo(c, p, archetype, email, other) ensures other == id {
      assert KeyOf(c, p.accounts[other]) == (archetype, c.lower(email));
    }
  }

  lemma NoOwner(c: Config, p: Provider, archetype: Archetype, email: Text)
    requires ProviderInv(c, p) && forall id :: !BelongsTo(c, p, archetype, email, id)
    ensures FindByEmail(c, p, archetype, email) == None
  {
    var found := FindByEmail(c, p, archetype, email);
    if found.Some? { assert BelongsTo(c, p, archetype, email, found.value); }
  }

  // ---- Logging in -------------------------------------------------------------------------------

  /** What becomes of an attempt at the address of an account. */
  lemma OwnerLogsInIff(c: Config, p: Provider, archetype: Archetype, email: Text, password: Text, rehash: Text, id: Id)
    requires ProviderInv(c, p) && BelongsTo(c, p, archetype, email, id)
    ensures var a := p.accounts[id];
            var (q, r) := Authenticated(c, p, archetype, email, password, rehash);
            && (r.Ok? <==> c.verifies(a.passwordHash, password) && !a.disabled)
            && (r == Raise(AccountDisabled) <==> c.verifies(a.passwordHash, password) && a.disabled)
            && (r == Raise(AuthenticationFailed) <==> !c.verifies(a.passwordHash, password))
            && (r.Ok? ==> Shows(r.value, a) && r.value.userId == id)
            && q == (if r.Ok? && c.stale(a.passwordHash) then Put(p, a.(passwordHash := rehash)) else p)
  {
    OneOwner(c, p, archetype, email, id);
  }

  lemma StrangerNeverLogsIn(c: Config, p: Provider, archetype: Archetype, email: Text, password: Text, rehash: Text)
    requires ProviderInv(c, p) && forall id :: !BelongsTo(c, p, archetype, email, id)
    ensures Authenticated(c, p, archetype, email, password, rehash) == (p, Raise(AuthenticationFailed))
  {
    NoOwner(c, p, archetype, email);
  }

  /** Who gets in: authentication succeeds exactly when some account of the archetype and folded
      email verifies the password and is not disabled, and shows that account; the right password
      of a disabled account gives AccountDisabled, and everything else AuthenticationFailed. */
  lemma AuthenticatesIff(c: Config, p: Provider, archetype: Archetype, email: Text, password: Text, rehash: Text)
    requires ProviderInv(c, p)
    ensures var r := Authenticated(c, p, archetype, email, password, rehash).1;
            && (r.Ok? <==> exists id :: Opens(c, p, archetype, email, password, id) && !p.accounts[id].disabled)
            && (r == Raise(AccountDisabled)
                <==> exists id :: Opens(c, p, archetype, email, password, id) && p.accounts[id].disabled)
            && (r.Raise? ==> r.error == AccountDisabled || r.error == AuthenticationFailed)
            && (r.Ok? ==> Opens(c, p, archetype, email, password, r.value.userId) && Shows(r.value, p.accounts[r.value.userId]))
  {
    if id :| BelongsTo(c, p, archetype, email, id) {
      OneOwner(c, p, archetype, email, id);
      OwnerLogsInIff(c, p, archetype, email, password, rehash, id);
    } else {
      StrangerNeverLogsIn(c, p, archetype, email, password, rehash);
    }
  }

  /** Registration succeeds exactly for an address that belongs to nobody; then exactly the
      passwords that the stored hash verifies log in there, to an account with nothing set. */
  lemma RegisteredLogsIn(c: Config, p: Provider, archetype: Archetype, email: Text, hash: Text, userId: Id, now: int, password: Text, rehash: Text)
    requires ProviderInv(c, p) && userId !in p.accounts
    ensures var (q, r) := Registered(c, p, archetype, email, hash, userId);
            && (r.Ok? <==> forall id :: !BelongsTo(c, p, archetype, email, id))
            && (r.Raise? ==> q == p && r.error == AuthError)
            && (r.Ok? ==>
                  && r.value == ProviderUser(userId, archetype, email, false, false, false)
                  && (Authenticated(c, q, archetype, email, password, rehash).1
                      == if c.verifies(hash, password) then r else Raise(AuthenticationFailed))
                  && (forall id :: id in p.accounts ==> id in q.accounts && q.accounts[id] == p.accounts[id]))
  {
    var (q, r) := Registered(c, p, archetype, email, hash, userId);
    if id :| BelongsTo(c, p, archetype, email, id) {
      OneOwner(c, p, archetype, email, id);
    } else {
      NoOwner(c, p, archetype, email);
      RegisterKeepsInv(c, p, archetype, email, hash, userId, now);
      assert BelongsTo(c, q, archetype, email, userId);
      OwnerLogsInIff(c, q, archetype, email, password, rehash, userId);
    }
  }

  /** After a password change exactly the passwords that the new hash verifies log in to the
      account, while it is enabled; every other account and every session is as before. */
  lemma NewPasswordLogsIn(c: Config, p: Provider, userId: Id, hash: Text, now: int, password: Text, rehash: Text)
    requires ProviderInv(c, p)
    ensures var (q, r) := PasswordChanged(p, userId, hash);
            && (r.Ok? <==> userId in p.accounts)
            && (r.Raise? ==> q == p && r.error == AuthError)
            && (r.Ok? ==>
                  var a := p.accounts[userId];
                  && (Authenticated(c, q, a.archetype, a.email, password, rehash).1.Ok? <==> c.verifies(hash, password) && !a.disabled)
                  && q.sessions == p.sessions
                  && (forall id :: id in p.accounts && id != userId ==> id in q.accounts && q.accounts[id] == p.accounts[id]))
  {
    if userId in p.accounts {
      var q, a := PasswordChanged(p, userId, hash).0, p.accounts[userId];
      PasswordKeepsInv(c, p, userId, hash, now);
      assert BelongsTo(c, q, a.archetype, a.email, userId);
      OwnerLogsInIff(c, q, a.archetype, a.email, password, rehash, userId);
    }
  }

  /** Marking the address verified shows in the account's view, and nowhere else. */
  lemma VerifiedShows(c: Config, p: Provider, userId: Id, now: int)
    requires ProviderInv(c, p)
    ensures var (q, r) := EmailVerified(p, userId);
            && (r.Ok? <==> userId in p.accounts)
            && (r.Raise? ==> q == p && r.error == AuthError)
            && (r.Ok? ==>
                  var a := p.accounts[userId];
                  && FoundUser(c, q, a.archetype, a.email) == Ok(Some(r.value))
                  && r.value == ProviderUser(userId, a.archetype, a.email, true, a.totpConfirmed, a.disabled)
                  && q == Put(p, a.(emailVerified := true)))
  {
    if userId in p.accounts {
      var q, a := EmailVerified(p, userId).0, p.accounts[userId];
      assert AccountOk(userId, a);
      VerifiedKeepsInv(c, p, userId, now);
      assert BelongsTo(c, q, a.archetype, a.email, userId);
      OneOwner(c, q, a.archetype, a.email, userId);
    }
  }

  // ---- Sessions ---------------------------------------------------------------------------------

  /** An issued session answers, as what it is, exactly until its lifetime is over; it is issued
      to existing and enabled accounts only, and leaves every other session alone. */
  lemma IssuedSessionAnswers(c: Config, p: Provider, userId: Id, sessionId: Id, device: Option<Text>, now: int, s: Id, later: int)
    requires ProviderInv(c, p)
    ensures var (q, r) := SessionIssued(c, p, userId, sessionId, device, now);
            && (r.Ok? <==> userId in p.accounts && !p.accounts[userId].disabled)
            && (r.Raise? ==> q == p && r.error == if userId in p.accounts then AccountDisabled else AuthError)
            && (r.Ok? ==>
                  && r.value == Session(sessionId, userId, p.accounts[userId].archetype, now, now + c.sessionTtl, device)
                  && q.accounts == p.accounts
                  && SessionFound(q, s, later)
                     == if s != sessionId then SessionFound(p, s, later)
                        else if later < now + c.sessionTtl then r else Raise(SessionRevoked))
  {}

  /** Ending a session stops that one, whenever it exists, and no other. */
  lemma EndedSessionIsRevoked(p: Provider, sessionId: Id, s: Id, now: int)
    ensures SessionEnded(p, sessionId).accounts == p.accounts
    ensures SessionFound(SessionEnded(p, sessionId), s, now)
            == if s == sessionId && s in p.sessions then Raise(SessionRevoked) else SessionFound(p, s, now)
  {}

  /** Ending all of a user's sessions stops exactly those. */
  lemma AllEndedAreRevoked(p: Provider, userId: Id, s: Id, now: int)
    ensures AllSessionsEnded(p, userId).accounts == p.accounts
    ensures SessionFound(AllSessionsEnded(p, userId), s, now)
            == if s in p.sessions && p.sessions[s].userId == userId then Raise(SessionRevoked) else SessionFound(p, s, now)
  {}

  /** A disabled account has no session that answers, gets no new one, and turns its own password
      away with AccountDisabled; other accounts and their sessions are as before. */
  lemma DisabledIsShutOut(c: Config, p: Provider, userId: Id, now: int, password: Text, rehash: Text, s: Id, device: Option<Text>)
    requires ProviderInv(c, p)
    ensures var (q, r) := Disabled(p, userId);
            && (r.Ok? <==> userId in p.accounts)
            && (r.Raise? ==> q == p && r.error == AuthError)
            && (r.Ok? ==>
                  var a := p.accounts[userId];
                  && Authenticated(c, q, a.archetype, a.email, password, rehash).1
                     == (if c.verifies(a.passwordHash, password) then Raise(AccountDisabled) else Raise(AuthenticationFailed))
                  && SessionIssued(c, q, userId, s, device, now) == (q, Raise(AccountDisabled))
                  && SessionFound(q, s, now)
                     == (if s in p.sessions && p.sessions[s].userId == userId then Raise(SessionRevoked) else SessionFound(p, s, now))
                  && (forall id :: id in p.accounts && id != userId ==> id in q.accounts && q.accounts[id] == p.accounts[id]))
  {
    if userId in p.accounts {
      var q, a := Disabled(p, userId).0, p.accounts[userId];
      DisableKeepsInv(c, p, userId, now);
      assert BelongsTo(c, q, a.archetype, a.email, userId);
      OwnerLogsInIff(c, q, a.archetype, a.email, password, rehash, userId);
    }
  }

  // ---- One-time passwords -------------------------------------------------------------------------

  /** The answer to a code is true exactly when the stored secret accepts it; a true answer
      confirms the enrolment and nothing else, and any other changes nothing. */
  lemma CodeAcceptedIff(c: Config, p: Provider, userId: Id, code: Text, now: int)
    requires ProviderInv(c, p)
    ensures var (q, r) := TotpVerified(c, p, userId, code, now);
            && (r == Raise(AuthError) <==> userId !in p.accounts)
            && (r == Raise(TotpNotEnrolled) <==> userId in p.accounts && p.accounts[userId].totpSecret.None?)
            && (r == Ok(true) <==> userId in p.accounts && p.accounts[userId].totpSecret.Some?
                                   && c.totp(p.accounts[userId].totpSecret.value, code, now))
            && (r == Ok(false) <==> userId in p.accounts && p.accounts[userId].totpSecret.Some?
                                    && !c.totp(p.accounts[userId].totpSecret.value, code, now))
            && q == (if r == Ok(true) then Put(p, p.accounts[userId].(totpConfirmed := true)) else p)
  {
    if userId in p.accounts { assert AccountOk(userId, p.accounts[userId]); }
  }

  /** Enrolment is refused exactly once confirmed, and otherwise returns the secret whose codes
      are then accepted; the account counts as enrolled only after the first of them. */
  lemma EnrolledSecretDecides(c: Config, p: Provider, userId: Id, secret: Text, now: int, code: Text)
    requires ProviderInv(c, p)
    ensures var (q, r) := TotpEnrolled(p, userId, secret);
            && (r == Raise(AuthError) <==> userId !in p.accounts)
            && (r == Raise(TotpAlreadyEnrolled) <==> userId in p.accounts && p.accounts[userId].totpConfirmed)
            && (r.Raise? ==> q == p && (r.error == AuthError || r.error == TotpAlreadyEnrolled))
            && (r.Ok? ==>
                  && r.value == secret && userId in q.accounts && !q.accounts[userId].totpConfirmed
                  && TotpVerified(c, q, userId, code, now).1 == Ok(c.totp(secret, code, now))
                  && q == Put(p, p.accounts[userId].(totpSecret := Some(secret))))
  {
    if userId in p.accounts { assert AccountOk(userId, p.accounts[userId]); }
  }
}
