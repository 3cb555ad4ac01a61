/** Runs of the authentication service across transactions, and what holds after all of them:
    dead sessions stay dead, and the audit rows account for the role grants. */
module AuthSafety {
  import opened Sorting
  import opened Wrappers
  import opened Rbac
  import opened Uuids
  import opened IdentityProvider
  import opened RoleStore
  import opened AuditTrail
  import opened AuthService

  datatype World = World(scene: Scene, committed: Tables, clock: int)

  datatype Action =
    | Surface(call: Call)                                  // a surface uses the provider directly
    | CreateUser(newUser: Id, newArchetype: Archetype)     // a surface inserts a user_account row
    | LogIn(archetype: Archetype, email: Text, password: Text, rehash: Text)
    | NewPassword(userId: Id, hash: Text)
    | LogOut(sessionId: Id, owner: Option<Id>)
    | BeginTotp(userId: Id, secret: Text)
    | CheckTotp(userId: Id, code: Text)
    | Disable(userId: Id, disabledBy: Option<Id>)
    | Assign(userId: Id, grantArchetype: Archetype, role: Text, grantedBy: Option<Id>, customerId: Option<Text>)
    | Revoke(userId: Id, role: Text, grantedAt: int, revokedBy: Option<Id>)
    | Commit
    | Rollback

  /** An action, the time that passes before it and between its clock readings, the id of its
      audit event, and which of its statements fail. */
  datatype Step = Step(action: Action, elapsed: nat, lag: nat, eventId: Id, fault: bool, auditFault: bool)

  datatype System = System(config: Config, catalogues: Catalogues)

  function Start(step: Step, w: World): int { w.clock + step.elapsed }
  function Finish(step: Step, w: World): int { w.clock + step.elapsed + step.lag }

  function Inserted(tx: Tx, userId: Id, archetype: Archetype, fault: bool): Tx {
    match ReadUuid(userId)
    case None => tx.(aborted := true)
    case Some(u) =>
      if tx.aborted || fault || u in tx.tables.users then tx.(aborted := true)
      else tx.(tables := tx.tables.(users := tx.tables.users[u := archetype]))
  }

  function Acted(y: System, s: Scene, step: Step, start: int, finish: int): Scene
  {
    var stamp := Stamp(step.eventId, finish, step.auditFault);
    match step.action
    case Surface(call) => s.(provider := Perform(y.config, s.provider, call, start))
    case CreateUser(user, archetype) => s.(tx := Inserted(s.tx, user, archetype, step.fault))
    case LogIn(archetype, email, password, rehash) => LoggedIn(y.config, s, archetype, email, password, rehash, stamp).0
    case NewPassword(user, hash) => ChangedPassword(s, user, hash, stamp).0
    case LogOut(session, owner) => LoggedOut(s, session, owner, stamp).0
    case BeginTotp(user, secret) => BegunTotp(s, user, secret, stamp).0
    case CheckTotp(user, code) => CheckedTotp(y.config, s, user, code, start, stamp).0
    case Disable(user, disabledBy) => DisabledAccount(s, user, disabledBy, stamp).0
    case Assign(user, archetype, role, grantedBy, customerId) =>
      AssignedRole(y.catalogues, s, user, archetype, role, grantedBy, customerId, start, step.fault, stamp).0
    case Revoke(user, role, grantedAt, revokedBy) =>
      RevokedRole(s, user, role, grantedAt, revokedBy, start, step.fault, stamp).0
    case Commit => s
    case Rollback => s
  }

  /** Ending the transaction without keeping its rows. */
  predicate Discards(w: World, action: Action) {
    action.Rollback? || (action.Commit? && w.scene.tx.aborted)
  }

  function Next(y: System, w: World, step: Step): World
  {
    var finish := Finish(step, w);
    if Discards(w, step.action) then World(w.scene.(tx := Tx(w.committed, false)), w.committed, finish)
    else if step.action.Commit? then World(w.scene, w.scene.tx.tables, finish)
    else World(Acted(y, w.scene, step, Start(step, w), finish), w.committed, finish)
  }

  predicate Admissible(w: World, step: Step) {
    step.action.Surface? ==> UsesNewIds(w.scene.provider, step.action.call)
  }

  // ---- What every step keeps ----------------------------------------------------------------

  /** Every session of the user issued before the instant is revoked. */
  ghost predicate DeadBefore(p: Provider, userId: Id, at: int) {
    forall s :: s in p.sessions && p.sessions[s].userId == userId && p.sessions[s].issuedAt < at ==> p.sessions[s].revoked
  }

  predicate EndsSessions(kind: EventKind) {
    kind == PasswordChange || kind == AccountDisable || kind == RoleRevoke
  }

  /** The provider shows what the event says was done. */
  ghost predicate EventTrue(p: Provider, e: AuditEvent) {
    && (EndsSessions(e.kind) ==> e.userId.Some? && DeadBefore(p, e.userId.value, e.occurredAt))
    && (e.kind == PasswordChange ==> e.userId.Some? && e.userId.value in p.accounts)
    && (e.kind == AccountDisable ==> e.userId.Some? && e.userId.value in p.accounts && p.accounts[e.userId.value].disabled)
    && (e.kind == MfaChallengeSuccess ==> e.userId.Some? && e.userId.value in p.accounts && p.accounts[e.userId.value].totpConfirmed)
  }

  ghost predicate EventsTrue(p: Provider, events: seq<AuditEvent>, clock: int) {
    forall i :: 0 <= i < |events| ==> EventTrue(p, events[i]) && events[i].occurredAt <= clock
  }

  ghost predicate TxOk(y: System, tx: Tx) {
    && RowsOk(y.catalogues, tx.tables.users, tx.tables.roles)
    && (!tx.aborted ==> Conserves(tx.tables))
  }

  ghost predicate MirrorOk(w: World) {
    && w.committed.audit <= w.scene.tx.tables.audit
    && Subsequence(w.scene.tx.tables.audit, Map(RowOf, w.scene.mirrored))
  }

  ghost predicate Inv(y: System, w: World) {
    && ProviderInv(y.config, w.scene.provider)
    && OwnIds(w.scene.provider.accounts.Keys)
    && EventsTrue(w.scene.provider, w.scene.mirrored, w.clock)
    && TxOk(y, w.scene.tx)
    && TxOk(y, Tx(w.committed, false))
    && MirrorOk(w)
  }

  /** Events stay true as the provider evolves. */
  lemma EventStaysTrue(p: Provider, q: Provider, e: AuditEvent, since: int)
    requires EventTrue(p, e) && Evolves(p, q, since) && e.occurredAt <= since
    ensures EventTrue(q, e)
  {
    if EndsSessions(e.kind) {
      forall s | s in q.sessions && q.sessions[s].userId == e.userId.value && q.sessions[s].issuedAt < e.occurredAt
        ensures q.sessions[s].revoked
      {
        assert s in p.sessions && SessionEvolves(p.sessions[s], q.sessions[s]);
      }
    }
    if e.userId.Some? && e.userId.value in p.accounts {
      assert AccountEvolves(p.accounts[e.userId.value], q.accounts[e.userId.value]);
    }
  }

  lemma EventsStayTrue(p: Provider, q: Provider, events: seq<AuditEvent>, clock: int, since: int, later: int)
    requires EventsTrue(p, events, clock) && Evolves(p, q, since) && clock <= since <= later
    ensures EventsTrue(q, events, later)
  {
    forall i | 0 <= i < |events| ensures EventTrue(q, events[i]) && events[i].occurredAt <= later {
      EventStaysTrue(p, q, events[i], since);
    }
  }

  /** An operation that leaves the tables alone, or appends one row and mirrors it. */
  ghost predicate AtMostOneRow(s: Scene, t: Scene, e: AuditEvent) {
    || (t.tx.tables.audit == s.tx.tables.audit && t.mirrored == s.mirrored)
    || (t.tx.tables.audit == s.tx.tables.audit + [RowOf(e)] && t.mirrored == s.mirrored + [e])
  }

  lemma MirrorKept(w: World, t: Scene, e: AuditEvent, finish: int)
    requires MirrorOk(w) && AtMostOneRow(w.scene, t, e)
    ensures MirrorOk(World(t, w.committed, finish))
  {
    SubsequenceBoth(w.scene.tx.tables.audit, Map(RowOf, w.scene.mirrored), RowOf(e));
    assert Map(RowOf, w.scene.mirrored + [e]) == Map(RowOf, w.scene.mirrored) + [RowOf(e)];
  }

  // ---- The provider side of a step ------------------------------------------------------------

  lemma EndedAreDead(p: Provider, userId: Id, at: int)
    ensures DeadBefore(AllSessionsEnded(p, userId), userId, at)
  {}

  /** What an audited operation must show for the world to stay good. */
  ghost predicate Shows(y: System, s: Scene, t: Scene, e: AuditEvent, start: int) {
    && ProviderInv(y.config, t.provider)
    && Evolves(s.provider, t.provider, start)
    && AtMostOneRow(s, t, e)
    && (t.mirrored != s.mirrored ==> EventTrue(t.provider, e))
  }

  lemma AuditedShows<T>(y: System, s: Scene, p: Provider, tx: Tx, kind: EventKind, userId: Option<Id>, details: Details, stamp: Stamp, start: int, result: Result<T>)
    requires ProviderInv(y.config, p) && Evolves(s.provider, p, start)
    requires EventTrue(p, AuditEvent(stamp.eventId, kind, stamp.at, userId, details))
    requires tx.tables.audit == s.tx.tables.audit
    ensures Shows(y, s, Audited(Scene(p, tx, s.mirrored), kind, userId, details, stamp, result).0, AuditEvent(stamp.eventId, kind, stamp.at, userId, details), start)
  {}

  lemma UnchangedShows(y: System, s: Scene, t: Scene, e: AuditEvent, start: int)
    requires ProviderInv(y.config, s.provider) && t.provider == s.provider && t.mirrored == s.mirrored
    requires t.tx.tables.audit == s.tx.tables.audit
    ensures Shows(y, s, t, e, start)
  {
    UnchangedEvolves(s.provider, start);
  }

  lemma LogInShows(y: System, s: Scene, archetype: Archetype, email: Text, password: Text, rehash: Text, stamp: Stamp, start: int) returns (e: AuditEvent)
    requires ProviderInv(y.config, s.provider)
    ensures e.occurredAt == stamp.at && Shows(y, s, LoggedIn(y.config, s, archetype, email, password, rehash, stamp).0, e, start)
  {
    AuthenticateKeepsInv(y.config, s.provider, archetype, email, password, rehash, start);
    var (p, r) := Authenticated(y.config, s.provider, archetype, email, password, rehash);
    match r {
      case Raise(_) =>
        e := AuditEvent(stamp.eventId, LoginFailure, stamp.at, None, FailureDetails(archetype, email));
        AuditedShows(y, s, p, s.tx, LoginFailure, None, FailureDetails(archetype, email), stamp, start, r);
      case Ok(user) =>
        e := AuditEvent(stamp.eventId, LoginSuccess, stamp.at, Some(user.userId), SuccessDetails(archetype));
        AuditedShows(y, s, p, s.tx, LoginSuccess, Some(user.userId), SuccessDetails(archetype), stamp, start, r);
    }
  }

  lemma NewPasswordShows(y: System, s: Scene, userId: Id, hash: Text, stamp: Stamp, start: int) returns (e: AuditEvent)
    requires ProviderInv(y.config, s.provider)
    ensures e.occurredAt == stamp.at && Shows(y, s, ChangedPassword(s, userId, hash, stamp).0, e, start)
  {
    var details: Details := map["sessions_revoked" := Flag(true)];
    e := AuditEvent(stamp.eventId, PasswordChange, stamp.at, Some(userId), details);
    var (p, r) := PasswordChanged(s.provider, userId, hash);
    if r.Raise? {
      UnchangedShows(y, s, s, e, start);
    } else {
      PasswordKeepsInv(y.config, s.provider, userId, hash, start);
      EndAllKeepsInv(y.config, p, userId, start);
      EvolvesTransitive(s.provider, p, AllSessionsEnded(p, userId), start, start);
      EndedAreDead(p, userId, stamp.at);
      AuditedShows(y, s, AllSessionsEnded(p, userId), s.tx, PasswordChange, Some(userId), details, stamp, start, r);
    }
  }

  lemma LogOutShows(y: System, s: Scene, sessionId: Id, owner: Option<Id>, stamp: Stamp, start: int) returns (e: AuditEvent)
    requires ProviderInv(y.config, s.provider)
    ensures e.occurredAt == stamp.at && Shows(y, s, LoggedOut(s, sessionId, owner, stamp).0, e, start)
  {
    var details: Details := map["session_id" := TextDetail(sessionId)];
    e := AuditEvent(stamp.eventId, SessionRevoke, stamp.at, owner, details);
    EndKeepsInv(y.config, s.provider, sessionId, start);
    AuditedShows(y, s, SessionEnded(s.provider, sessionId), s.tx, SessionRevoke, owner, details, stamp, start, Ok(()));
  }

  lemma BeginTotpShows(y: System, s: Scene, userId: Id, secret: Text, stamp: Stamp, start: int) returns (e: AuditEvent)
    requires ProviderInv(y.config, s.provider)
    ensures e.occurredAt == stamp.at && Shows(y, s, BegunTotp(s, userId, secret, stamp).0, e, start)
  {
    var details: Details := map["purpose" := TextDetail(Ascii("totp_enrolment"))];
    e := AuditEvent(stamp.eventId, MfaChallengeIssued, stamp.at, Some(userId), details);
    var (p, r) := TotpEnrolled(s.provider, userId, secret);
    if r.Raise? {
      UnchangedShows(y, s, s, e, start);
    } else {
      EnrolKeepsInv(y.config, s.provider, userId, secret, start);
      AuditedShows(y, s, p, s.tx, MfaChallengeIssued, Some(userId), details, stamp, start, r);
    }
  }

  lemma CheckTotpShows(y: System, s: Scene, userId: Id, code: Text, stamp: Stamp, start: int) returns (e: AuditEvent)
    requires ProviderInv(y.config, s.provider)
    ensures e.occurredAt == stamp.at && Shows(y, s, CheckedTotp(y.config, s, userId, code, start, stamp).0, e, start)
  {
    var details: Details := map["factor" := TextDetail(Ascii("totp"))];
    var (p, r) := TotpVerified(y.config, s.provider, userId, code, start);
    if r.Raise? {
      e := AuditEvent(stamp.eventId, MfaChallengeFailure, stamp.at, Some(userId), details);
      UnchangedShows(y, s, s, e, start);
    } else {
      var kind := if r.value then MfaChallengeSuccess else MfaChallengeFailure;
      e := AuditEvent(stamp.eventId, kind, stamp.at, Some(userId), details);
      CodeKeepsInv(y.config, s.provider, userId, code, start);
      GoodCodeConfirms(y.config, s.provider, userId, code, start);
      AuditedShows(y, s, p, s.tx, kind, Some(userId), details, stamp, start, r);
    }
  }

  lemma GoodCodeConfirms(c: Config, p: Provider, userId: Id, code: Text, now: int)
    ensures var (q, r) := TotpVerified(c, p, userId, code, now);
            r == Ok(true) ==> userId in q.accounts && q.accounts[userId].totpConfirmed
  {}

  lemma DisableShows(y: System, s: Scene, userId: Id, disabledBy: Option<Id>, stamp: Stamp, start: int) returns (e: AuditEvent)
    requires ProviderInv(y.config, s.provider)
    ensures e.occurredAt == stamp.at && Shows(y, s, DisabledAccount(s, userId, disabledBy, stamp).0, e, start)
  {
    var details: Details := map["disabled_by" := OptionalText(disabledBy)];
    e := AuditEvent(stamp.eventId, AccountDisable, stamp.at, Some(userId), details);
    var (p, r) := Disabled(s.provider, userId);
    if r.Raise? {
      UnchangedShows(y, s, s, e, start);
    } else {
      DisableKeepsInv(y.config, s.provider, userId, start);
      EndedAreDead(s.provider, userId, stamp.at);
      AuditedShows(y, s, p, s.tx, AccountDisable, Some(userId), details, stamp, start, r);
    }
  }

  lemma AssignShows(y: System, s: Scene, userId: Id, archetype: Archetype, role: Text, grantedBy: Option<Id>, customerId: Option<Text>,
                    fault: bool, stamp: Stamp, start: int) returns (e: AuditEvent)
    requires ProviderInv(y.config, s.provider)
    ensures e == AuditEvent(stamp.eventId, RoleGrant, stamp.at, Some(userId), GrantDetails(role, grantedBy, customerId))
    ensures Shows(y, s, AssignedRole(y.catalogues, s, userId, archetype, role, grantedBy, customerId, start, fault, stamp).0, e, start)
  {
    var details := GrantDetails(role, grantedBy, customerId);
    e := AuditEvent(stamp.eventId, RoleGrant, stamp.at, Some(userId), details);
    var (tx, r) := Granted(y.catalogues, s.tx, userId, archetype, role, grantedBy, customerId, start, fault);
    if r.Raise? {
      UnchangedShows(y, s, s.(tx := tx), e, start);
    } else {
      UnchangedEvolves(s.provider, start);
      AuditedShows(y, s, s.provider, tx, RoleGrant, Some(userId), details, stamp, start, r);
    }
  }

  lemma RevokeShows(y: System, s: Scene, userId: Id, role: Text, grantedAt: int, revokedBy: Option<Id>,
                    fault: bool, stamp: Stamp, start: int) returns (e: AuditEvent)
    requires ProviderInv(y.config, s.provider)
    ensures e == AuditEvent(stamp.eventId, RoleRevoke, stamp.at, Some(userId), RevokeDetails(role, revokedBy))
    ensures Shows(y, s, RevokedRole(s, userId, role, grantedAt, revokedBy, start, fault, stamp).0, e, start)
  {
    var details := RevokeDetails(role, revokedBy);
    e := AuditEvent(stamp.eventId, RoleRevoke, stamp.at, Some(userId), details);
    var (tx, r) := Revoked(s.tx, userId, role, grantedAt, start, fault);
    if r.Raise? || !r.value {
      UnchangedShows(y, s, s.(tx := tx), e, start);
    } else {
      EndAllKeepsInv(y.config, s.provider, userId, start);
      EndedAreDead(s.provider, userId, stamp.at);
      AuditedShows(y, s, AllSessionsEnded(s.provider, userId), tx, RoleRevoke, Some(userId), details, stamp, start, r);
    }
  }

  lemma ActionShows(y: System, s: Scene, step: Step, start: int, finish: int) returns (e: AuditEvent)
    requires ProviderInv(y.config, s.provider)
    requires step.action.Surface? ==> UsesNewIds(s.provider, step.action.call)
    ensures e.occurredAt == finish
    ensures Shows(y, s, Acted(y, s, step, start, finish), e, start)
  {
    var stamp := Stamp(step.eventId, finish, step.auditFault);
    match step.action {
      case Surface(call) =>
        CallKeepsInv(y.config, s.provider, call, start);
        e := AuditEvent(step.eventId, LoginFailure, finish, None, map[]);
      case CreateUser(user, archetype) =>
        e := AuditEvent(step.eventId, LoginFailure, finish, None, map[]);
        UnchangedShows(y, s, s.(tx := Inserted(s.tx, user, archetype, step.fault)), e, start);
      case LogIn(archetype, email, password, rehash) => e := LogInShows(y, s, archetype, email, password, rehash, stamp, start);
      case NewPassword(user, hash) => e := NewPasswordShows(y, s, user, hash, stamp, start);
      case LogOut(session, owner) => e := LogOutShows(y, s, session, owner, stamp, start);
      case BeginTotp(user, secret) => e := BeginTotpShows(y, s, user, secret, stamp, start);
      case CheckTotp(user, code) => e := CheckTotpShows(y, s, user, code, stamp, start);
      case Disable(user, disabledBy) => e := DisableShows(y, s, user, disabledBy, stamp, start);
      case Assign(user, archetype, role, grantedBy, customerId) =>
        e := AssignShows(y, s, user, archetype, role, grantedBy, customerId, step.fault, stamp, start);
      case Revoke(user, role, grantedAt, revokedBy) =>
        e := RevokeShows(y, s, user, role, grantedAt, revokedBy, step.fault, stamp, start);
      case _ =>
        e := AuditEvent(step.eventId, LoginFailure, finish, None, map[]);
        UnchangedShows(y, s, s, e, start);
    }
  }

  // ---- The table side of a step ------------------------------------------------------------------

  lemma NoRoleNoWeight(audit: seq<AuditRow>, e: AuditRow)
    requires e.kind != RoleGrant && e.kind != RoleRevoke
    ensures forall u, r :: Balance(audit + [e], u, r) == Balance(audit, u, r)
  {
    forall u, r ensures Balance(audit + [e], u, r) == Balance(audit, u, r) { BalanceAppend(audit, e, u, r); }
  }

  lemma AuditedKeepsTx<T>(y: System, s: Scene, kind: EventKind, userId: Option<Id>, details: Details, stamp: Stamp, result: Result<T>)
    requires TxOk(y, s.tx) && kind != RoleGrant && kind != RoleRevoke
    ensures TxOk(y, Audited(s, kind, userId, details, stamp, result).0.tx)
  {
    NoRoleNoWeight(s.tx.tables.audit, RowOf(AuditEvent(stamp.eventId, kind, stamp.at, userId, details)));
  }

  /** The service's own role details pass the credential guard. */
  lemma RoleDetailsAreClean(role: Text, by1: Option<Id>, customerId: Option<Text>)
    ensures !CarriesCredential(GrantDetails(role, by1, customerId))
    ensures !CarriesCredential(RevokeDetails(role, by1))
  {
    assert LowerKey("role") == "role";
    assert LowerKey("granted_by") == "granted_by";
    assert LowerKey("customer_id") == "customer_id";
    assert LowerKey("revoked_by") == "revoked_by";
  }

  lemma GrantConserves(t: Tables, row: Row, e: AuditRow)
    requires Conserves(t) && row.revokedAt.None?
    requires e.kind == RoleGrant && e.userId == Some(row.userId) && "role" in e.details && e.details["role"] == TextDetail(row.role)
    ensures Conserves(t.(roles := t.roles + [row], audit := t.audit + [e]))
  {
    forall u, r ensures Balance(t.audit + [e], u, r) == LiveCount(t.roles + [row], u, r) {
      BalanceAppend(t.audit, e, u, r);
      LiveCountAppend(t.roles, row, u, r);
    }
  }

  lemma GrantedThenRecorded(y: System, tx: Tx, mirrored: seq<AuditEvent>, row: Row, e: AuditEvent, fault: bool)
    requires TxOk(y, tx) && !tx.aborted && row.revokedAt.None? && !CarriesCredential(e.details)
    requires RowsOk(y.catalogues, tx.tables.users, tx.tables.roles + [row])
    requires RowOf(e).kind == RoleGrant && RowOf(e).userId == Some(row.userId) && "role" in e.details && e.details["role"] == TextDetail(row.role)
    ensures TxOk(y, Recorded(tx.(tables := tx.tables.(roles := tx.tables.roles + [row])), mirrored, e, fault).0)
  {
    GrantConserves(tx.tables, row, RowOf(e));
  }

  lemma AssignKeepsTx(y: System, s: Scene, userId: Id, archetype: Archetype, role: Text, grantedBy: Option<Id>, customerId: Option<Text>,
                      fault: bool, stamp: Stamp, start: int)
    requires TxOk(y, s.tx)
    ensures TxOk(y, AssignedRole(y.catalogues, s, userId, archetype, role, grantedBy, customerId, start, fault, stamp).0.tx)
  {
    GrantKeepsRows(y.catalogues, s.tx, userId, archetype, role, grantedBy, customerId, start, fault);
    RoleDetailsAreClean(role, grantedBy, customerId);
    var row := ReadAssignment(RoleRow(userId, archetype, role, start, grantedBy, None, customerId));
    var e := AuditEvent(stamp.eventId, RoleGrant, stamp.at, Some(userId), GrantDetails(role, grantedBy, customerId));
    if Granted(y.catalogues, s.tx, userId, archetype, role, grantedBy, customerId, start, fault).1.Ok? {
      GrantedThenRecorded(y, s.tx, s.mirrored, row.value, e, stamp.fault);
    }
  }

  lemma RevokeConserves(cats: Catalogues, t: Tables, userId: Uuid, role: Text, grantedAt: int, moment: int, e: AuditRow)
    requires Conserves(t) && RowsOk(cats, t.users, t.roles)
    requires e.kind == RoleRevoke && e.userId == Some(userId) && "role" in e.details && e.details["role"] == TextDetail(role)
    ensures RowCount(t.roles, userId, role, grantedAt) == 1 ==>
              Conserves(t.(roles := Updated(t.roles, userId, role, grantedAt, moment), audit := t.audit + [e]))
    ensures RowCount(t.roles, userId, role, grantedAt) != 1 ==>
              Conserves(t.(roles := Updated(t.roles, userId, role, grantedAt, moment)))
  {
    AtMostOneHit(cats, t.users, t.roles, userId, role, grantedAt);
    forall u, r
      ensures LiveCount(Updated(t.roles, userId, role, grantedAt, moment), u, r)
              == LiveCount(t.roles, u, r) - if u == userId && r == role then RowCount(t.roles, userId, role, grantedAt) else 0
      ensures Balance(t.audit + [e], u, r) == Balance(t.audit, u, r) + Weight(e, u, r)
    {
      UpdatedCount(t.roles, userId, role, grantedAt, moment, u, r);
      BalanceAppend(t.audit, e, u, r);
    }
  }

  lemma RevokeKeepsTx(y: System, s: Scene, userId: Id, role: Text, grantedAt: int, revokedBy: Option<Id>, fault: bool, stamp: Stamp, start: int)
    requires TxOk(y, s.tx)
    ensures TxOk(y, RevokedRole(s, userId, role, grantedAt, revokedBy, start, fault, stamp).0.tx)
  {
    RoleDetailsAreClean(role, revokedBy, None);
    var id := ReadUuid(userId);
    if id.Some? {
      UpdateKeepsRows(y.catalogues, s.tx.tables.users, s.tx.tables.roles, id.value, role, grantedAt, start);
      var e := AuditEvent(stamp.eventId, RoleRevoke, stamp.at, Some(userId), RevokeDetails(role, revokedBy));
      if !s.tx.aborted {
        RevokeConserves(y.catalogues, s.tx.tables, id.value, role, grantedAt, start, RowOf(e));
      }
    }
  }

  lemma CreateUserKeepsTx(y: System, tx: Tx, userId: Id, archetype: Archetype, fault: bool)
    requires TxOk(y, tx)
    ensures TxOk(y, Inserted(tx, userId, archetype, fault))
  {}

  lemma ActionKeepsTx(y: System, s: Scene, step: Step, start: int, finish: int)
    requires TxOk(y, s.tx)
    ensures TxOk(y, Acted(y, s, step, start, finish).tx)
  {
    var stamp := Stamp(step.eventId, finish, step.auditFault);
    match step.action {
      case CreateUser(user, archetype) => CreateUserKeepsTx(y, s.tx, user, archetype, step.fault);
      case Assign(user, archetype, role, grantedBy, customerId) =>
        AssignKeepsTx(y, s, user, archetype, role, grantedBy, customerId, step.fault, stamp, start);
      case Revoke(user, role, grantedAt, revokedBy) => RevokeKeepsTx(y, s, user, role, grantedAt, revokedBy, step.fault, stamp, start);
      case LogIn(archetype, email, password, rehash) => LogInKeepsTx(y, s, archetype, email, password, rehash, stamp);
      case NewPassword(user, hash) => NewPasswordKeepsTx(y, s, user, hash, stamp);
      case LogOut(session, owner) => LogOutKeepsTx(y, s, session, owner, stamp);
      case BeginTotp(user, secret) => BeginTotpKeepsTx(y, s, user, secret, stamp);
      case CheckTotp(user, code) => CheckTotpKeepsTx(y, s, user, code, start, stamp);
      case Disable(user, disabledBy) => DisableKeepsTx(y, s, user, disabledBy, stamp);
      case _ =>
    }
  }

  lemma LogInKeepsTx(y: System, s: Scene, archetype: Archetype, email: Text, password: Text, rehash: Text, stamp: Stamp)
    requires TxOk(y, s.tx)
    ensures TxOk(y, LoggedIn(y.config, s, archetype, email, password, rehash, stamp).0.tx)
  {
    var (p, r) := Authenticated(y.config, s.provider, archetype, email, password, rehash);
    if r.Raise? {
      AuditedKeepsTx(y, s.(provider := p), LoginFailure, None, FailureDetails(archetype, email), stamp, r);
    } else {
      AuditedKeepsTx(y, s.(provider := p), LoginSuccess, Some(r.value.userId), SuccessDetails(archetype), stamp, r);
    }
  }

  lemma NewPasswordKeepsTx(y: System, s: Scene, userId: Id, hash: Text, stamp: Stamp)
    requires TxOk(y, s.tx)
    ensures TxOk(y, ChangedPassword(s, userId, hash, stamp).0.tx)
  {
    var (p, r) := PasswordChanged(s.provider, userId, hash);
    AuditedKeepsTx(y, s.(provider := AllSessionsEnded(p, userId)), PasswordChange, Some(userId), map["sessions_revoked" := Flag(true)], stamp, r);
  }

  lemma LogOutKeepsTx(y: System, s: Scene, sessionId: Id, owner: Option<Id>, stamp: Stamp)
    requires TxOk(y, s.tx)
    ensures TxOk(y, LoggedOut(s, sessionId, owner, stamp).0.tx)
  {
    AuditedKeepsTx(y, s.(provider := SessionEnded(s.provider, sessionId)), SessionRevoke, owner, map["session_id" := TextDetail(sessionId)], stamp, Ok(()));
  }

  lemma BeginTotpKeepsTx(y: System, s: Scene, userId: Id, secret: Text, stamp: Stamp)
    requires TxOk(y, s.tx)
    ensures TxOk(y, BegunTotp(s, userId, secret, stamp).0.tx)
  {
    var (p, r) := TotpEnrolled(s.provider, userId, secret);
    AuditedKeepsTx(y, s.(provider := p), MfaChallengeIssued, Some(userId), map["purpose" := TextDetail(Ascii("totp_enrolment"))], stamp, r);
  }

  lemma CheckTotpKeepsTx(y: System, s: Scene, userId: Id, code: Text, now: int, stamp: Stamp)
    requires TxOk(y, s.tx)
    ensures TxOk(y, CheckedTotp(y.config, s, userId, code, now, stamp).0.tx)
  {
    var (p, r) := TotpVerified(y.config, s.provider, userId, code, now);
    if r.Ok? {
      AuditedKeepsTx(y, s.(provider := p), if r.value then MfaChallengeSuccess else MfaChallengeFailure, Some(userId),
                     map["factor" := TextDetail(Ascii("totp"))], stamp, r);
    }
  }

  lemma DisableKeepsTx(y: System, s: Scene, userId: Id, disabledBy: Option<Id>, stamp: Stamp)
    requires TxOk(y, s.tx)
    ensures TxOk(y, DisabledAccount(s, userId, disabledBy, stamp).0.tx)
  {
    var (p, r) := Disabled(s.provider, userId);
    AuditedKeepsTx(y, s.(provider := p), AccountDisable, Some(userId), map["disabled_by" := OptionalText(disabledBy)], stamp, r);
  }

  /** Only registration adds accounts. */
  lemma ActionKeepsOwnIds(y: System, s: Scene, step: Step, start: int, finish: int)
    requires OwnIds(s.provider.accounts.Keys) && (step.action.Surface? ==> UsesNewIds(s.provider, step.action.call))
    ensures OwnIds(Acted(y, s, step, start, finish).provider.accounts.Keys)
  {
    if step.action.Surface? {
      CallKeepsOwnIds(y.config, s.provider, step.action.call, start);
    } else {
      ActionKeepsAccounts(y, s, step, start, finish);
    }
  }

  lemma ActionKeepsAccounts(y: System, s: Scene, step: Step, start: int, finish: int)
    requires !step.action.Surface?
    ensures Acted(y, s, step, start, finish).provider.accounts.Keys == s.provider.accounts.Keys
  {
    var stamp := Stamp(step.eventId, finish, step.auditFault);
    match step.action {
      case LogIn(archetype, email, password, rehash) => LogInKeepsAccounts(y, s, archetype, email, password, rehash, stamp);
      case NewPassword(user, hash) => NewPasswordKeepsAccounts(s, user, hash, stamp);
      case BeginTotp(user, secret) => BeginTotpKeepsAccounts(s, user, secret, stamp);
      case CheckTotp(user, code) => CheckTotpKeepsAccounts(y, s, user, code, start, stamp);
      case Disable(user, disabledBy) => DisableKeepsAccounts(s, user, disabledBy, stamp);
      case _ =>
    }
  }

  lemma LogInKeepsAccounts(y: System, s: Scene, archetype: Archetype, email: Text, password: Text, rehash: Text, stamp: Stamp)
    ensures LoggedIn(y.config, s, archetype, email, password, rehash, stamp).0.provider.accounts.Keys == s.provider.accounts.Keys
  {}

  lemma NewPasswordKeepsAccounts(s: Scene, userId: Id, hash: Text, stamp: Stamp)
    ensures ChangedPassword(s, userId, hash, stamp).0.provider.accounts.Keys == s.provider.accounts.Keys
  {}

  lemma BeginTotpKeepsAccounts(s: Scene, userId: Id, secret: Text, stamp: Stamp)
    ensures BegunTotp(s, userId, secret, stamp).0.provider.accounts.Keys == s.provider.accounts.Keys
  {}

  lemma CheckTotpKeepsAccounts(y: System, s: Scene, userId: Id, code: Text, now: int, stamp: Stamp)
    ensures CheckedTotp(y.config, s, userId, code, now, stamp).0.provider.accounts.Keys == s.provider.accounts.Keys
  {}

  lemma DisableKeepsAccounts(s: Scene, userId: Id, disabledBy: Option<Id>, stamp: Stamp)
    ensures DisabledAccount(s, userId, disabledBy, stamp).0.provider.accounts.Keys == s.provider.accounts.Keys
  {}

  // ---- Every step and every run ----------------------------------------------------------------

  /** The same committed tables as those of the transaction. */
  lemma RollbackKeepsMirror(w: World)
    requires MirrorOk(w)
    ensures Subsequence(w.committed.audit, Map(RowOf, w.scene.mirrored))
  {
    SubsequencePrefix(w.scene.tx.tables.audit, |w.committed.audit|, Map(RowOf, w.scene.mirrored));
    assert w.scene.tx.tables.audit[..|w.committed.audit|] == w.committed.audit;
  }

  lemma SceneKeepsInv(y: System, w: World, t: Scene, e: AuditEvent, start: int, finish: int)
    requires Inv(y, w) && w.clock <= start <= finish && e.occurredAt == finish
    requires Shows(y, w.scene, t, e, start) && TxOk(y, t.tx) && OwnIds(t.provider.accounts.Keys)
    ensures Inv(y, World(t, w.committed, finish))
    ensures Evolves(w.scene.provider, t.provider, w.clock)
  {
    EventsStayTrue(w.scene.provider, t.provider, w.scene.mirrored, w.clock, start, finish);
    MirrorKept(w, t, e, finish);
  }

  lemma ActionKeepsInv(y: System, w: World, step: Step)
    requires Inv(y, w) && Admissible(w, step)
    ensures Inv(y, World(Acted(y, w.scene, step, Start(step, w), Finish(step, w)), w.committed, Finish(step, w)))
    ensures Evolves(w.scene.provider, Acted(y, w.scene, step, Start(step, w), Finish(step, w)).provider, w.clock)
  {
    var start, finish := Start(step, w), Finish(step, w);
    var e := ActionShows(y, w.scene, step, start, finish);
    ActionKeepsTx(y, w.scene, step, start, finish);
    ActionKeepsOwnIds(y, w.scene, step, start, finish);
    SceneKeepsInv(y, w, Acted(y, w.scene, step, start, finish), e, start, finish);
  }

  lemma EndKeepsAll(y: System, w: World, step: Step)
    requires Inv(y, w) && (step.action.Commit? || step.action.Rollback?)
    ensures Inv(y, Next(y, w, step)) && Next(y, w, step).scene.provider == w.scene.provider
  {
    RollbackKeepsMirror(w);
    UnchangedEvolves(w.scene.provider, w.clock);
    EventsStayTrue(w.scene.provider, w.scene.provider, w.scene.mirrored, w.clock, w.clock, Finish(step, w));
  }

  lemma StepKeepsInv(y: System, w: World, step: Step)
    requires Inv(y, w) && Admissible(w, step)
    ensures Inv(y, Next(y, w, step))
    ensures Evolves(w.scene.provider, Next(y, w, step).scene.provider, w.clock)
  {
    if step.action.Commit? || step.action.Rollback? {
      EndKeepsAll(y, w, step);
      UnchangedEvolves(w.scene.provider, w.clock);
    } else {
      ActionKeepsInv(y, w, step);
    }
  }
}
