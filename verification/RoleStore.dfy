/** The authentication tables and the role store over user_role_assignment. A Tx is one unit of
    work: what it sees of the tables, and whether a failed statement has aborted it. Callers
    pass ids as texts; the tables hold uuids, so that every spelling of an id is one id. */
module RoleStore {
  import opened Sorting
  import opened Wrappers
  import opened Rbac
  import opened IdentityProvider
  import opened Uuids

  /** A grant, with ids as the tables hold them or as a caller spells them. */
  datatype RoleRow<I> = RoleRow(
    userId: I, archetype: Archetype, role: Text, grantedAt: int, grantedBy: Option<I>, revokedAt: Option<int>, customerId: Option<I>)

  type Row = RoleRow<Uuid>
  type Assignment = RoleRow<Text>

  datatype EventKind =
    | LoginSuccess | LoginFailure | MfaChallengeIssued | MfaChallengeSuccess | MfaChallengeFailure
    | PasswordChange | RoleGrant | RoleRevoke | AccountDisable | SessionRevoke

  datatype Detail = Null | TextDetail(t: Text) | Flag(b: bool)
  type Details = map<string, Detail>

  datatype AuditEvent = AuditEvent(eventId: Id, kind: EventKind, occurredAt: int, userId: Option<Id>, details: Details)

  datatype AuditRow = AuditRow(eventId: Id, kind: EventKind, occurredAt: int, userId: Option<Uuid>, details: Details)

  /** user_account (id to archetype), user_role_assignment and auth_audit_event. */
  datatype Tables = Tables(users: map<Uuid, Archetype>, roles: seq<Row>, audit: seq<AuditRow>)

  datatype Tx = Tx(tables: Tables, aborted: bool)

  type Catalogues = Archetype -> Catalogue

  function Fail<T>(tx: Tx): (Tx, Result<T>) {
    (tx.(aborted := true), Raise(DatabaseError))
  }

  /** What a nullable uuid column makes of a text; None is the error it raises. */
  function ReadOptional(t: Option<Text>): Option<Option<Uuid>> {
    match t
    case None => Some(None)
    case Some(x) => match ReadUuid(x) case None => None case Some(u) => Some(Some(u))
  }

  function ReadAssignment(a: Assignment): Option<Row> {
    match (ReadUuid(a.userId), ReadOptional(a.grantedBy), ReadOptional(a.customerId))
    case (Some(u), Some(g), Some(c)) => Some(RoleRow(u, a.archetype, a.role, a.grantedAt, g, a.revokedAt, c))
    case _ => None
  }

  // ---- Granting ---------------------------------------------------------------------------

  predicate ScopeOk<I>(archetype: Archetype, customerId: Option<I>) {
    archetype.BrandCustomer? <==> customerId.Some?
  }

  method CheckCustomerScope(archetype: Archetype, customerId: Option<Text>) returns (r: Result<()>)
    ensures r == if ScopeOk(archetype, customerId) then Ok(()) else Raise(RoleScopeError)
  {
    if archetype == BrandCustomer && customerId == None { return Raise(RoleScopeError); }
    if archetype != BrandCustomer && customerId != None { return Raise(RoleScopeError); }
    return Ok(());
  }

  predicate SamePrimaryKey(a: Row, b: Row) {
    a.userId == b.userId && a.role == b.role && a.grantedAt == b.grantedAt
  }

  /** The foreign keys, the primary key and the CHECK of user_role_assignment. */
  predicate Insertable(t: Tables, row: Row) {
    && row.userId in t.users && t.users[row.userId] == row.archetype
    && (row.grantedBy.Some? ==> row.grantedBy.value in t.users)
    && ScopeOk(row.archetype, row.customerId)
    && forall i :: 0 <= i < |t.roles| ==> !SamePrimaryKey(t.roles[i], row)
  }

  /** A fault is a failure of the statement that the tables do not explain. */
  function Granted(cats: Catalogues, tx: Tx, userId: Id, archetype: Archetype, role: Text, grantedBy: Option<Id>,
                   customerId: Option<Text>, moment: int, fault: bool): (Tx, Result<Assignment>)
  {
    var a: Assignment := RoleRow(userId, archetype, role, moment, grantedBy, None, customerId);
    if role !in cats(archetype).roles then (tx, Raise(UnknownRoleName))
    else if !ScopeOk(archetype, customerId) then (tx, Raise(RoleScopeError))
    else
      match ReadAssignment(a)
      case None => Fail(tx)
      case Some(row) =>
        if tx.aborted || fault || !Insertable(tx.tables, row) then Fail(tx)
        else (tx.(tables := tx.tables.(roles := tx.tables.roles + [row])), Ok(a))
  }

  // ---- Revoking ---------------------------------------------------------------------------

  predicate IsHit(row: Row, userId: Uuid, role: Text, grantedAt: int) {
    row.userId == userId && row.role == role && row.grantedAt == grantedAt && row.revokedAt.None?
  }

  /** The UPDATE ... WHERE ... AND revoked_at IS NULL. */
  function Updated(rows: seq<Row>, userId: Uuid, role: Text, grantedAt: int, moment: int): (r: seq<Row>)
    ensures |r| == |rows|
  {
    seq(|rows|, i requires 0 <= i < |rows| =>
      if IsHit(rows[i], userId, role, grantedAt) then rows[i].(revokedAt := Some(moment)) else rows[i])
  }

  function RowCount(rows: seq<Row>, userId: Uuid, role: Text, grantedAt: int): nat {
    if |rows| == 0 then 0
    else
      RowCount(rows[..|rows| - 1], userId, role, grantedAt) + if IsHit(rows[|rows| - 1], userId, role, grantedAt) then 1 else 0
  }

  function Revoked(tx: Tx, userId: Id, role: Text, grantedAt: int, moment: int, fault: bool): (Tx, Result<bool>) {
    match ReadUuid(userId)
    case None => Fail(tx)
    case Some(u) =>
      if tx.aborted || fault then Fail(tx)
      else
        (tx.(tables := tx.tables.(roles := Updated(tx.tables.roles, u, role, grantedAt, moment))),
         Ok(RowCount(tx.tables.roles, u, role, grantedAt) == 1))
  }

  // ---- Reading ----------------------------------------------------------------------------

  predicate IsLive(row: Row, userId: Uuid, customerId: Option<Uuid>) {
    row.userId == userId && row.revokedAt.None? && (customerId.Some? ==> row.customerId == customerId)
  }

  function Live(rows: seq<Row>, userId: Uuid, customerId: Option<Uuid>): seq<Row> {
    Filter((row: Row) => IsLive(row, userId, customerId), rows)
  }

  function LiveRoles(rows: seq<Row>, userId: Uuid, customerId: Option<Uuid>): set<Text> {
    set row | row in Live(rows, userId, customerId) :: row.role
  }

  /** The query's parameters are ones that the uuid columns read. */
  predicate Readable(userId: Id, customerId: Option<Text>) {
    ReadUuid(userId).Some? && ReadOptional(customerId).Some?
  }

  function PermissionAnswer(known: set<Permission>, cats: Catalogues, tx: Tx, userId: Id, archetype: Archetype,
                            permission: Permission, customerId: Option<Text>): Answer
  {
    if permission !in known then RaisesUnknownPermission
    else if tx.aborted || !Readable(userId, customerId) then RaisesDatabaseError
    else
      HasPermission(cats(archetype), LiveRoles(tx.tables.roles, ReadUuid(userId).value, ReadOptional(customerId).value), permission)
  }

  // ---- The connection object -----------------------------------------------------------------

  class Connection {
    var users: map<Uuid, Archetype>
    var roles: seq<Row>
    var audit: seq<AuditRow>
    var aborted: bool
    var committed: Tables

    function State(): Tx
      reads this
    {
      Tx(Tables(users, roles, audit), aborted)
    }

    constructor ()
      ensures State() == Tx(Tables(map[], [], []), false) && committed == Tables(map[], [], [])
    {
      users, roles, audit, aborted := map[], [], [], false;
      committed := Tables(map[], [], []);
    }

    /** COMMIT; of an aborted transaction, the database makes it a ROLLBACK. */
    method Commit()
      modifies this
      ensures committed == if old(aborted) then old(committed) else old(State()).tables
      ensures State() == Tx(committed, false)
    {
      if aborted {
        users, roles, audit := committed.users, committed.roles, committed.audit;
      } else {
        committed := Tables(users, roles, audit);
      }
      aborted := false;
    }

    method Rollback()
      modifies this
      ensures committed == old(committed) && State() == Tx(committed, false)
    {
      users, roles, audit, aborted := committed.users, committed.roles, committed.audit, false;
    }
  }

  method GrantRole(cats: Catalogues, connection: Connection, userId: Id, archetype: Archetype, role: Text, grantedBy: Option<Id>,
                   customerId: Option<Text>, moment: int, fault: bool) returns (r: Result<Assignment>)
    modifies connection
    ensures (connection.State(), r) == Granted(cats, old(connection.State()), userId, archetype, role, grantedBy, customerId, moment, fault)
    ensures connection.committed == old(connection.committed)
  {
    if role !in cats(archetype).roles { return Raise(UnknownRoleName); }
    var scope := CheckCustomerScope(archetype, customerId);
    if scope.Raise? { return Raise(scope.error); }
    var assignment: Assignment := RoleRow(userId, archetype, role, moment, grantedBy, None, customerId);
    var row := ReadAssignment(assignment);
    if row.None? || connection.aborted || fault || !Insertable(connection.State().tables, row.value) {
      connection.aborted := true;
      return Raise(DatabaseError);
    }
    connection.roles := connection.roles + [row.value];
    return Ok(assignment);
  }

  method RevokeRole(connection: Connection, userId: Id, role: Text, grantedAt: int, moment: int, fault: bool) returns (r: Result<bool>)
    modifies connection
    ensures (connection.State(), r) == Revoked(old(connection.State()), userId, role, grantedAt, moment, fault)
    ensures connection.committed == old(connection.committed)
  {
    var id := ReadUuid(userId);
    if id.None? || connection.aborted || fault {
      connection.aborted := true;
      return Raise(DatabaseError);
    }
    var rowcount := RowCount(connection.roles, id.value, role, grantedAt);
    connection.roles := Updated(connection.roles, id.value, role, grantedAt, moment);
    return Ok(rowcount == 1);
  }

  method LiveRoleIdentifiers(connection: Connection, userId: Id, customerId: Option<Text>) returns (r: Result<set<Text>>)
    modifies connection`aborted
    ensures connection.aborted <==> old(connection.aborted) || !Readable(userId, customerId)
    ensures r.Raise? <==> connection.aborted
    ensures r.Raise? ==> r.error == DatabaseError
    ensures r.Ok? ==> r.value == LiveRoles(connection.roles, ReadUuid(userId).value, ReadOptional(customerId).value)
  {
    if connection.aborted || !Readable(userId, customerId) {
      connection.aborted := true;
      return Raise(DatabaseError);
    }
    return Ok(LiveRoles(connection.roles, ReadUuid(userId).value, ReadOptional(customerId).value));
  }

  /** The identifiers read are exactly the roles of the user's live rows in scope. */
  lemma LiveRolesAreRows(rows: seq<Row>, userId: Uuid, customerId: Option<Uuid>)
    ensures forall x :: x in LiveRoles(rows, userId, customerId) <==>
              exists i :: 0 <= i < |rows| && rows[i].role == x && IsLive(rows[i], userId, customerId)
  {
    forall x ensures x in LiveRoles(rows, userId, customerId) <==>
              exists i :: 0 <= i < |rows| && rows[i].role == x && IsLive(rows[i], userId, customerId)
    {
      if i :| 0 <= i < |rows| && rows[i].role == x && IsLive(rows[i], userId, customerId) {
        assert rows[i] in Live(rows, userId, customerId);
      }
      if x in LiveRoles(rows, userId, customerId) {
        var row :| row in Live(rows, userId, customerId) && row.role == x;
        var i :| 0 <= i < |rows| && rows[i] == row;
      }
    }
  }

  // ---- What the tables always satisfy -----------------------------------------------------------

  ghost predicate RowOk(cats: Catalogues, users: map<Uuid, Archetype>, row: Row) {
    && row.userId in users && users[row.userId] == row.archetype
    && row.role in cats(row.archetype).roles
    && ScopeOk(row.archetype, row.customerId)
  }

  ghost predicate RowsOk(cats: Catalogues, users: map<Uuid, Archetype>, rows: seq<Row>) {
    && (forall i :: 0 <= i < |rows| ==> RowOk(cats, users, rows[i]))
    && (forall i, j :: 0 <= i < j < |rows| ==> !SamePrimaryKey(rows[i], rows[j]))
  }

  lemma GrantKeepsRows(cats: Catalogues, tx: Tx, userId: Id, archetype: Archetype, role: Text, grantedBy: Option<Id>,
                       customerId: Option<Text>, moment: int, fault: bool)
    requires RowsOk(cats, tx.tables.users, tx.tables.roles)
    ensures RowsOk(cats, tx.tables.users, Granted(cats, tx, userId, archetype, role, grantedBy, customerId, moment, fault).0.tables.roles)
  {}

  lemma UpdateKeepsRows(cats: Catalogues, users: map<Uuid, Archetype>, rows: seq<Row>, userId: Uuid, role: Text, grantedAt: int, moment: int)
    requires RowsOk(cats, users, rows)
    ensures RowsOk(cats, users, Updated(rows, userId, role, grantedAt, moment))
  {}

  /** How many live grants of a role a user has. */
  function LiveCount(rows: seq<Row>, userId: Uuid, role: Text): nat {
    if |rows| == 0 then 0
    else
      LiveCount(rows[..|rows| - 1], userId, role) +
      if IsLive(rows[|rows| - 1], userId, None) && rows[|rows| - 1].role == role then 1 else 0
  }

  lemma LiveCountAppend(rows: seq<Row>, row: Row, userId: Uuid, role: Text)
    ensures LiveCount(rows + [row], userId, role)
            == LiveCount(rows, userId, role) + if IsLive(row, userId, None) && row.role == role then 1 else 0
  {
    assert (rows + [row])[..|rows|] == rows;
  }

  /** An update takes away as many live grants of its own role as it hits, and no others. */
  lemma {:induction false} UpdatedCount(rows: seq<Row>, userId: Uuid, role: Text, grantedAt: int, moment: int, u: Uuid, r: Text)
    ensures LiveCount(Updated(rows, userId, role, grantedAt, moment), u, r)
            == LiveCount(rows, u, r) - if u == userId && r == role then RowCount(rows, userId, role, grantedAt) else 0
  {
    if |rows| > 0 {
      var n := |rows| - 1;
      UpdatedCount(rows[..n], userId, role, grantedAt, moment, u, r);
      assert Updated(rows, userId, role, grantedAt, moment)[..n] == Updated(rows[..n], userId, role, grantedAt, moment);
    }
  }

  /** The primary key lets an update hit at most one row. */
  lemma {:induction false} AtMostOneHit(cats: Catalogues, users: map<Uuid, Archetype>, rows: seq<Row>, userId: Uuid, role: Text, grantedAt: int)
    requires RowsOk(cats, users, rows)
    ensures RowCount(rows, userId, role, grantedAt) <= 1
    ensures RowCount(rows, userId, role, grantedAt) == 1 <==> exists i :: 0 <= i < |rows| && IsHit(rows[i], userId, role, grantedAt)
  {
    if |rows| > 0 {
      var n := |rows| - 1;
      AtMostOneHit(cats, users, rows[..n], userId, role, grantedAt);
      if IsHit(rows[n], userId, role, grantedAt) {
        forall i | 0 <= i < n ensures !IsHit(rows[..n][i], userId, role, grantedAt) {
          assert !SamePrimaryKey(rows[i], rows[n]);
        }
      } else if RowCount(rows[..n], userId, role, grantedAt) == 1 {
        var i :| 0 <= i < n && IsHit(rows[..n][i], userId, role, grantedAt);
        assert IsHit(rows[i], userId, role, grantedAt);
      } else {
        assert forall i :: 0 <= i < n ==> !IsHit(rows[..n][i], userId, role, grantedAt) && rows[..n][i] == rows[i];
      }
    }
  }

  // ---- What a permission check means ----------------------------------------------------------------

  ghost predicate Confers(cats: Catalogues, row: Row, userId: Uuid, customerId: Option<Uuid>, permission: Permission) {
    && IsLive(row, userId, customerId)
    && row.role in cats(row.archetype).roles
    && !cats(row.archetype).roles[row.role].flaggedOff
    && permission in cats(row.archetype).roles[row.role].permissions
  }

  /** For the user's own archetype, however the id is spelled, the check never raises UnknownRole,
      and it answers true exactly when some live, in-scope, unflagged grant confers the
      permission. */
  lemma PermissionMeansAGrant(known: set<Permission>, cats: Catalogues, tx: Tx, userId: Id, archetype: Archetype,
                              permission: Permission, customerId: Option<Text>)
    requires RowsOk(cats, tx.tables.users, tx.tables.roles)
    requires permission in known && !tx.aborted && Readable(userId, customerId)
    requires var u := ReadUuid(userId).value; u in tx.tables.users ==> tx.tables.users[u] == archetype
    ensures PermissionAnswer(known, cats, tx, userId, archetype, permission, customerId)
            == Answered(exists i :: 0 <= i < |tx.tables.roles|
                          && Confers(cats, tx.tables.roles[i], ReadUuid(userId).value, ReadOptional(customerId).value, permission))
  {
    RolesMeanAGrant(cats, tx.tables.users, tx.tables.roles, ReadUuid(userId).value, archetype, permission, ReadOptional(customerId).value);
  }

  lemma RolesMeanAGrant(cats: Catalogues, users: map<Uuid, Archetype>, rows: seq<Row>, userId: Uuid, archetype: Archetype,
                        permission: Permission, customerId: Option<Uuid>)
    requires RowsOk(cats, users, rows) && (userId in users ==> users[userId] == archetype)
    ensures HasPermission(cats(archetype), LiveRoles(rows, userId, customerId), permission)
            == Answered(exists i :: 0 <= i < |rows| && Confers(cats, rows[i], userId, customerId, permission))
  {
    LiveRolesAreRows(rows, userId, customerId);
    var held := LiveRoles(rows, userId, customerId);
    forall x | x in held ensures x in cats(archetype).roles {
      var i :| 0 <= i < |rows| && rows[i].role == x && IsLive(rows[i], userId, customerId);
    }
    if i :| 0 <= i < |rows| && Confers(cats, rows[i], userId, customerId, permission) {
      GrantIsHeld(cats, rows, i, userId, archetype, permission, customerId);
    }
    if permission in Resolve(cats(archetype), held).permissions {
      var i := HeldIsGranted(cats, rows, userId, archetype, permission, customerId);
    }
  }

  lemma GrantIsHeld(cats: Catalogues, rows: seq<Row>, i: nat, userId: Uuid, archetype: Archetype, permission: Permission, customerId: Option<Uuid>)
    requires i < |rows| && rows[i].archetype == archetype && Confers(cats, rows[i], userId, customerId, permission)
    requires LiveRoles(rows, userId, customerId) <= cats(archetype).roles.Keys
    ensures permission in Resolve(cats(archetype), LiveRoles(rows, userId, customerId)).permissions
  {
    LiveRolesAreRows(rows, userId, customerId);
    assert rows[i].role in LiveRoles(rows, userId, customerId);
  }

  lemma HeldIsGranted(cats: Catalogues, rows: seq<Row>, userId: Uuid, archetype: Archetype, permission: Permission, customerId: Option<Uuid>)
    returns (i: nat)
    requires forall k :: 0 <= k < |rows| && rows[k].userId == userId ==> rows[k].archetype == archetype
    requires LiveRoles(rows, userId, customerId) <= cats(archetype).roles.Keys
    requires permission in Resolve(cats(archetype), LiveRoles(rows, userId, customerId)).permissions
    ensures i < |rows| && Confers(cats, rows[i], userId, customerId, permission)
  {
    LiveRolesAreRows(rows, userId, customerId);
    var c := cats(archetype);
    var id :| id in LiveRoles(rows, userId, customerId) && !c.roles[id].flaggedOff && permission in c.roles[id].permissions;
    i :| 0 <= i < |rows| && rows[i].role == id && IsLive(rows[i], userId, customerId);
  }

  /** For any archetype the check raises UnknownRole exactly when the user holds, in scope, a role
      whose name that archetype's catalogue does not have. */
  lemma UnknownRoleIffForeignName(known: set<Permission>, cats: Catalogues, tx: Tx, userId: Id, archetype: Archetype,
                                  permission: Permission, customerId: Option<Text>)
    requires permission in known && !tx.aborted && Readable(userId, customerId)
    ensures PermissionAnswer(known, cats, tx, userId, archetype, permission, customerId) == RaisesUnknownRole <==>
            exists i :: 0 <= i < |tx.tables.roles|
                        && IsLive(tx.tables.roles[i], ReadUuid(userId).value, ReadOptional(customerId).value)
                        && tx.tables.roles[i].role !in cats(archetype).roles
  {
    var rows, u, c := tx.tables.roles, ReadUuid(userId).value, ReadOptional(customerId).value;
    LiveRolesAreRows(rows, u, c);
    var held := LiveRoles(rows, u, c);
    if i :| 0 <= i < |rows| && IsLive(rows[i], u, c) && rows[i].role !in cats(archetype).roles {
      assert rows[i].role in held;
    }
    if !(held <= cats(archetype).roles.Keys) {
      var x :| x in held && x !in cats(archetype).roles.Keys;
      var i :| 0 <= i < |rows| && rows[i].role == x && IsLive(rows[i], u, c);
    }
  }

  /** Only rows that are live for this user in this scope matter to a check. */
  lemma SameLiveRowsSameRoles(a: seq<Row>, b: seq<Row>, userId: Uuid, customerId: Option<Uuid>)
    requires |a| <= |b|
    requires forall i :: 0 <= i < |a| && (IsLive(a[i], userId, customerId) || IsLive(b[i], userId, customerId)) ==> a[i] == b[i]
    requires forall i :: |a| <= i < |b| ==> !IsLive(b[i], userId, customerId)
    ensures LiveRoles(a, userId, customerId) == LiveRoles(b, userId, customerId)
  {
    LiveRolesAreRows(a, userId, customerId);
    LiveRolesAreRows(b, userId, customerId);
    forall x ensures x in LiveRoles(a, userId, customerId) <==> x in LiveRoles(b, userId, customerId) {
      if i :| 0 <= i < |a| && a[i].role == x && IsLive(a[i], userId, customerId) {
        assert b[i].role == x && IsLive(b[i], userId, customerId);
      }
      if i :| 0 <= i < |b| && b[i].role == x && IsLive(b[i], userId, customerId) {
        assert a[i].role == x && IsLive(a[i], userId, customerId);
      }
    }
  }

  lemma GrantedRows(cats: Catalogues, tx: Tx, userId: Id, archetype: Archetype, role: Text, grantedBy: Option<Id>,
                    customerId: Option<Text>, moment: int, fault: bool)
    ensures var rows := Granted(cats, tx, userId, archetype, role, grantedBy, customerId, moment, fault).0.tables.roles;
            || rows == tx.tables.roles
            || (|rows| == |tx.tables.roles| + 1 && rows[..|tx.tables.roles|] == tx.tables.roles
                && Some(rows[|tx.tables.roles|].userId) == ReadUuid(userId)
                && Some(rows[|tx.tables.roles|].customerId) == ReadOptional(customerId))
  {}

  lemma AppendedElsewhere(a: seq<Row>, b: seq<Row>, u: Uuid, c: Option<Uuid>)
    requires a == b || (|b| == |a| + 1 && b[..|a|] == a && !IsLive(b[|a|], u, c))
    ensures LiveRoles(a, u, c) == LiveRoles(b, u, c)
  {
    assert forall i :: 0 <= i < |a| && |a| <= |b| ==> b[..|a|][i] == b[i];
    SameLiveRowsSameRoles(a, b, u, c);
  }

  /** Isolation: within a customer's scope, a grant under another customer or to another user
      changes no answer. */
  lemma GrantElsewhereChangesNoAnswer(known: set<Permission>, cats: Catalogues, tx: Tx, userId: Id, archetype: Archetype, permission: Permission,
                                      customer: Text, who: Id, whose: Archetype, role: Text, granter: Option<Id>, other: Option<Text>, moment: int)
    requires ReadUuid(userId).Some? && ReadUuid(customer).Some?
    requires ReadOptional(other) != Some(ReadUuid(customer)) || ReadUuid(who) != ReadUuid(userId)
    ensures var after := Granted(cats, tx, who, whose, role, granter, other, moment, false).0;
            after.aborted == tx.aborted ==>
              PermissionAnswer(known, cats, after, userId, archetype, permission, Some(customer))
              == PermissionAnswer(known, cats, tx, userId, archetype, permission, Some(customer))
  {
    var after := Granted(cats, tx, who, whose, role, granter, other, moment, false).0;
    GrantedRows(cats, tx, who, whose, role, granter, other, moment, false);
    AppendedElsewhere(tx.tables.roles, after.tables.roles, ReadUuid(userId).value, ReadUuid(customer));
  }

  /** Likewise for a revocation that hits no grant of this user under this customer. */
  lemma RevokeElsewhereChangesNoAnswer(known: set<Permission>, cats: Catalogues, tx: Tx, userId: Id, archetype: Archetype, permission: Permission,
                                       customer: Text, who: Id, role: Text, grantedAt: int, moment: int)
    requires !tx.aborted && ReadUuid(userId).Some? && ReadUuid(customer).Some? && ReadUuid(who).Some?
    requires forall i :: 0 <= i < |tx.tables.roles| && IsHit(tx.tables.roles[i], ReadUuid(who).value, role, grantedAt) ==>
               tx.tables.roles[i].customerId != ReadUuid(customer) || ReadUuid(who) != ReadUuid(userId)
    ensures PermissionAnswer(known, cats, Revoked(tx, who, role, grantedAt, moment, false).0, userId, archetype, permission, Some(customer))
            == PermissionAnswer(known, cats, tx, userId, archetype, permission, Some(customer))
  {
    SameLiveRowsSameRoles(tx.tables.roles, Revoked(tx, who, role, grantedAt, moment, false).0.tables.roles,
                          ReadUuid(userId).value, ReadUuid(customer));
  }
}
