/** The composed authentication service: each operation acts on the provider, which no rollback
    reaches, and on the caller's unit of work, and records what it did. */
module AuthService {
  import opened Sorting
  import opened Wrappers
  import opened Rbac
  import opened IdentityProvider
  import opened RoleStore
  import opened AuditTrail

  /** What one operation can touch. */
  datatype Scene = Scene(provider: Provider, tx: Tx, mirrored: seq<AuditEvent>)

  /** The audit event of an operation: its id and instant, and whether its INSERT fails. */
  datatype Stamp = Stamp(eventId: Id, at: int, fault: bool)

  function OptionalText(t: Option<Text>): Detail {
    match t case None => Null case Some(x) => TextDetail(x)
  }

  function ArchetypeName(a: Archetype): Text {
    match a
    case Operator => Ascii("operator")
    case BrandCustomer => Ascii("brand_customer")
    case FoundationInternal => Ascii("foundation_internal")
  }

  function FailureDetails(archetype: Archetype, email: Text): Details {
    map["archetype" := TextDetail(ArchetypeName(archetype)), "email" := TextDetail(email)]
  }

  function SuccessDetails(archetype: Archetype): Details { map["archetype" := TextDetail(ArchetypeName(archetype))] }

  function GrantDetails(role: Text, grantedBy: Option<Id>, customerId: Option<Text>): Details {
    map["role" := TextDetail(role), "granted_by" := OptionalText(grantedBy), "customer_id" := OptionalText(customerId)]
  }

  function RevokeDetails(role: Text, revokedBy: Option<Id>): Details {
    map["role" := TextDetail(role), "revoked_by" := OptionalText(revokedBy)]
  }

  // ---- What each operation does -----------------------------------------------------------

  /** Record an event; the operation's own result stands unless recording raises. */
  function Audited<T>(s: Scene, kind: EventKind, userId: Option<Id>, details: Details, stamp: Stamp, result: Result<T>): (Scene, Result<T>) {
    var (tx, mirrored, r) := Recorded(s.tx, s.mirrored, AuditEvent(stamp.eventId, kind, stamp.at, userId, details), stamp.fault);
    (Scene(s.provider, tx, mirrored), match r case Ok(_) => result case Raise(e) => Raise(e))
  }

  function LoggedIn(c: Config, s: Scene, archetype: Archetype, email: Text, password: Text, rehash: Text, stamp: Stamp): (Scene, Result<ProviderUser>)
  {
    var (p, r) := Authenticated(c, s.provider, archetype, email, password, rehash);
    match r
    case Raise(_) => Audited(s.(provider := p), LoginFailure, None, FailureDetails(archetype, email), stamp, r)
    case Ok(user) => Audited(s.(provider := p), LoginSuccess, Some(user.userId), SuccessDetails(archetype), stamp, r)
  }

  function ChangedPassword(s: Scene, userId: Id, hash: Text, stamp: Stamp): (Scene, Result<()>) {
    var (p, r) := PasswordChanged(s.provider, userId, hash);
    match r
    case Raise(_) => (s, r)
    case Ok(_) =>
      Audited(s.(provider := AllSessionsEnded(p, userId)), PasswordChange, Some(userId), map["sessions_revoked" := Flag(true)], stamp, r)
  }

  function LoggedOut(s: Scene, sessionId: Id, userId: Option<Id>, stamp: Stamp): (Scene, Result<()>) {
    Audited(s.(provider := SessionEnded(s.provider, sessionId)), SessionRevoke, userId, map["session_id" := TextDetail(sessionId)], stamp, Ok(()))
  }

  function BegunTotp(s: Scene, userId: Id, secret: Text, stamp: Stamp): (Scene, Result<Text>) {
    var (p, r) := TotpEnrolled(s.provider, userId, secret);
    match r
    case Raise(_) => (s, r)
    case Ok(_) =>
      Audited(s.(provider := p), MfaChallengeIssued, Some(userId), map["purpose" := TextDetail(Ascii("totp_enrolment"))], stamp, r)
  }

  function CheckedTotp(c: Config, s: Scene, userId: Id, code: Text, now: int, stamp: Stamp): (Scene, Result<bool>) {
    var (p, r) := TotpVerified(c, s.provider, userId, code, now);
    match r
    case Raise(_) => (s, r)
    case Ok(verified) =>
      Audited(s.(provider := p), if verified then MfaChallengeSuccess else MfaChallengeFailure, Some(userId),
              map["factor" := TextDetail(Ascii("totp"))], stamp, r)
  }

  function DisabledAccount(s: Scene, userId: Id, disabledBy: Option<Id>, stamp: Stamp): (Scene, Result<()>) {
    var (p, r) := Disabled(s.provider, userId);
    match r
    case Raise(_) => (s, r)
    case Ok(_) => Audited(s.(provider := p), AccountDisable, Some(userId), map["disabled_by" := OptionalText(disabledBy)], stamp, r)
  }

  function AssignedRole(cats: Catalogues, s: Scene, userId: Id, archetype: Archetype, role: Text, grantedBy: Option<Id>,
                        customerId: Option<Text>, moment: int, fault: bool, stamp: Stamp): (Scene, Result<Assignment>)
  {
    var (tx, r) := Granted(cats, s.tx, userId, archetype, role, grantedBy, customerId, moment, fault);
    match r
    case Raise(_) => (s.(tx := tx), r)
    case Ok(_) => Audited(s.(tx := tx), RoleGrant, Some(userId), GrantDetails(role, grantedBy, customerId), stamp, r)
  }

  function RevokedRole(s: Scene, userId: Id, role: Text, grantedAt: int, revokedBy: Option<Id>, moment: int, fault: bool, stamp: Stamp): (Scene, Result<bool>) {
    var (tx, r) := Revoked(s.tx, userId, role, grantedAt, moment, fault);
    match r
    case Raise(_) => (s.(tx := tx), r)
    case Ok(revoked) =>
      if revoked
      then Audited(s.(tx := tx, provider := AllSessionsEnded(s.provider, userId)), RoleRevoke, Some(userId), RevokeDetails(role, revokedBy), stamp, r)
      else (s.(tx := tx), r)
  }

  // ---- The service object -----------------------------------------------------------------

  class Service {
    const provider: InMemoryIdentityProvider
    const trail: Trail
    const catalogues: Catalogues
    const known: set<Permission>

    constructor (provider: InMemoryIdentityProvider, trail: Trail, catalogues: Catalogues, known: set<Permission>)
      ensures this.provider == provider && this.trail == trail && this.catalogues == catalogues && this.known == known
    {
      this.provider, this.trail, this.catalogues, this.known := provider, trail, catalogues, known;
    }

    function SceneOf(connection: Connection): Scene
      reads provider, trail, connection
    {
      Scene(provider.State(), connection.State(), trail.mirrored)
    }

    method Record<T>(connection: Connection, kind: EventKind, userId: Option<Id>, details: Details, stamp: Stamp, result: Result<T>)
      returns (r: Result<T>)
      modifies trail, connection
      ensures (SceneOf(connection), r) == Audited(old(SceneOf(connection)), kind, userId, details, stamp, result)
      ensures connection.committed == old(connection.committed)
    {
      var recorded := trail.Record(connection, AuditEvent(stamp.eventId, kind, stamp.at, userId, details), stamp.fault);
      r := if recorded.Ok? then result else Raise(recorded.error);
    }

    method Authenticate(connection: Connection, archetype: Archetype, email: Text, password: Text, rehash: Text, stamp: Stamp)
      returns (r: Result<ProviderUser>)
      modifies provider, trail, connection
      ensures (SceneOf(connection), r) == LoggedIn(provider.config, old(SceneOf(connection)), archetype, email, password, rehash, stamp)
      ensures connection.committed == old(connection.committed)
    {
      r := provider.Authenticate(archetype, email, password, rehash);
      if r.Raise? {
        r := Record(connection, LoginFailure, None, FailureDetails(archetype, email), stamp, r);
      } else {
        r := Record(connection, LoginSuccess, Some(r.value.userId), SuccessDetails(archetype), stamp, r);
      }
    }

    method ChangePassword(connection: Connection, userId: Id, hash: Text, stamp: Stamp) returns (r: Result<()>)
      modifies provider, trail, connection
      ensures (SceneOf(connection), r) == ChangedPassword(old(SceneOf(connection)), userId, hash, stamp)
      ensures connection.committed == old(connection.committed)
    {
      r := provider.ChangePassword(userId, hash);
      if r.Raise? { return; }
      provider.RevokeAllSessions(userId);
      r := Record(connection, PasswordChange, Some(userId), map["sessions_revoked" := Flag(true)], stamp, r);
    }

    method RevokeSession(connection: Connection, sessionId: Id, userId: Option<Id>, stamp: Stamp) returns (r: Result<()>)
      modifies provider, trail, connection
      ensures (SceneOf(connection), r) == LoggedOut(old(SceneOf(connection)), sessionId, userId, stamp)
      ensures connection.committed == old(connection.committed)
    {
      provider.RevokeSession(sessionId);
      r := Record(connection, SessionRevoke, userId, map["session_id" := TextDetail(sessionId)], stamp, Ok(()));
    }

    method EnrolTotp(connection: Connection, userId: Id, secret: Text, stamp: Stamp) returns (r: Result<Text>)
      modifies provider, trail, connection
      ensures (SceneOf(connection), r) == BegunTotp(old(SceneOf(connection)), userId, secret, stamp)
      ensures connection.committed == old(connection.committed)
    {
      r := provider.EnrolTotp(userId, secret);
      if r.Raise? { return; }
      r := Record(connection, MfaChallengeIssued, Some(userId), map["purpose" := TextDetail(Ascii("totp_enrolment"))], stamp, r);
    }

    method VerifyTotp(connection: Connection, userId: Id, code: Text, now: int, stamp: Stamp) returns (r: Result<bool>)
      modifies provider, trail, connection
      ensures (SceneOf(connection), r) == CheckedTotp(provider.config, old(SceneOf(connection)), userId, code, now, stamp)
      ensures connection.committed == old(connection.committed)
    {
      r := provider.VerifyTotp(userId, code, now);
      if r.Raise? { return; }
      r := Record(connection, if r.value then MfaChallengeSuccess else MfaChallengeFailure, Some(userId),
                  map["factor" := TextDetail(Ascii("totp"))], stamp, r);
    }

    method DisableAccount(connection: Connection, userId: Id, disabledBy: Option<Id>, stamp: Stamp) returns (r: Result<()>)
      modifies provider, trail, connection
      ensures (SceneOf(connection), r) == DisabledAccount(old(SceneOf(connection)), userId, disabledBy, stamp)
      ensures connection.committed == old(connection.committed)
    {
      r := provider.DisableAccount(userId);
      if r.Raise? { return; }
      r := Record(connection, AccountDisable, Some(userId), map["disabled_by" := OptionalText(disabledBy)], stamp, r);
    }

    method AssignRole(connection: Connection, userId: Id, archetype: Archetype, role: Text, grantedBy: Option<Id>,
                      customerId: Option<Text>, moment: int, fault: bool, stamp: Stamp) returns (r: Result<Assignment>)
      modifies trail, connection
      ensures (SceneOf(connection), r)
              == AssignedRole(catalogues, old(SceneOf(connection)), userId, archetype, role, grantedBy, customerId, moment, fault, stamp)
      ensures connection.committed == old(connection.committed)
    {
      r := GrantRole(catalogues, connection, userId, archetype, role, grantedBy, customerId, moment, fault);
      if r.Raise? { return; }
      r := Record(connection, RoleGrant, Some(userId), GrantDetails(role, grantedBy, customerId), stamp, r);
    }

    method RevokeRole(connection: Connection, userId: Id, role: Text, grantedAt: int, revokedBy: Option<Id>, moment: int, fault: bool, stamp: Stamp)
      returns (r: Result<bool>)
      modifies provider, trail, connection
      ensures (SceneOf(connection), r) == RevokedRole(old(SceneOf(connection)), userId, role, grantedAt, revokedBy, moment, fault, stamp)
      ensures connection.committed == old(connection.committed)
    {
      r := RoleStore.RevokeRole(connection, userId, role, grantedAt, moment, fault);
      if r.Raise? || !r.value { return; }
      provider.RevokeAllSessions(userId);
      r := Record(connection, RoleRevoke, Some(userId), RevokeDetails(role, revokedBy), stamp, r);
    }

    method HasPermission(connection: Connection, userId: Id, archetype: Archetype, permission: Permission, customerId: Option<Text>)
      returns (r: Answer)
      modifies connection`aborted
      ensures r == PermissionAnswer(known, catalogues, old(connection.State()), userId, archetype, permission, customerId)
      ensures connection.aborted == (old(connection.aborted) || r == RaisesDatabaseError)
    {
      if permission !in known { return RaisesUnknownPermission; }
      var held := LiveRoleIdentifiers(connection, userId, customerId);
      if held.Raise? { return RaisesDatabaseError; }
      var resolved := ResolvePermissions(catalogues(archetype), held.value);
      match resolved {
        case UnknownRole => return RaisesUnknownRole;
        case Resolved(permissions) => return Answered(permission in permissions);
      }
    }
  }
}
