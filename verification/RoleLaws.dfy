/** What granting, revoking and checking mean for the rows of user_role_assignment and for the
    roles that a user holds. */
module RoleLaws {
  import opened Sorting
  import opened Wrappers
  import opened Rbac
  import opened IdentityProvider
  import opened RoleStore
  import opened Uuids

  /** The text is a spelling of the id. */
  predicate Reads(t: Id, u: Uuid) {
    ReadUuid(t) == Some(u)
  }

  predicate ReadsOptional(t: Option<Text>, u: Option<Uuid>) {
    match t
    case None => u.None?
    case Some(x) => u.Some? && Reads(x, u.value)
  }

  /** The text is a spelling of an id in the table. */
  predicate IsUser(users: map<Uuid, Archetype>, t: Id) {
    match ReadUuid(t) case None => false case Some(u) => u in users
  }

  // ---- Granting ---------------------------------------------------------------------------------

  /** The database takes the row of a grant: its ids are read, the user has the archetype, the
      granter exists, and the user was not granted the role at that very instant. */
  predicate Grantable(tx: Tx, userId: Id, archetype: Archetype, role: Text, grantedBy: Option<Id>, customerId: Option<Text>, moment: int, fault: bool) {
    && !tx.aborted && !fault
    && IsUser(tx.tables.users, userId) && tx.tables.users[ReadUuid(userId).value] == archetype
    && (grantedBy.Some? ==> IsUser(tx.tables.users, grantedBy.value))
    && (customerId.Some? ==> ReadUuid(customerId.value).Some?)
    && forall i :: 0 <= i < |tx.tables.roles| ==>
         !(Reads(userId, tx.tables.roles[i].userId) && tx.tables.roles[i].role == role && tx.tables.roles[i].grantedAt == moment)
  }

  /** A grant is refused for an unknown role, then for a customer where none belongs or none
      where one does, and then by the database; what is granted comes back as it was spelled. */
  lemma GrantsIff(cats: Catalogues, tx: Tx, userId: Id, archetype: Archetype, role: Text, grantedBy: Option<Id>, customerId: Option<Text>,
                  moment: int, fault: bool)
    ensures var (t, r) := Granted(cats, tx, userId, archetype, role, grantedBy, customerId, moment, fault);
            && (r == Raise(UnknownRoleName) <==> role !in cats(archetype).roles)
            && (r == Raise(RoleScopeError) <==> role in cats(archetype).roles && (archetype == BrandCustomer) != customerId.Some?)
            && (r.Ok? <==> role in cats(archetype).roles && (archetype == BrandCustomer) == customerId.Some?
                           && Grantable(tx, userId, archetype, role, grantedBy, customerId, moment, fault))
            && (r.Raise? ==> t == tx.(aborted := tx.aborted || r.error == DatabaseError)
                             && (r.error == UnknownRoleName || r.error == RoleScopeError || r.error == DatabaseError))
            && (r.Ok? ==>
                  && r.value.userId == userId && r.value.archetype == archetype && r.value.role == role && r.value.grantedAt == moment
                  && r.value.grantedBy == grantedBy && r.value.revokedAt == None && r.value.customerId == customerId)
  {}

  /** A grant adds one live row, with the ids that its texts spell, and touches nothing else; its
      user then holds the role, everywhere and under its customer. */
  lemma GrantAddsARow(cats: Catalogues, tx: Tx, userId: Id, archetype: Archetype, role: Text, grantedBy: Option<Id>, customerId: Option<Text>,
                      moment: int, fault: bool)
    requires Granted(cats, tx, userId, archetype, role, grantedBy, customerId, moment, fault).1.Ok?
    ensures var t, n := Granted(cats, tx, userId, archetype, role, grantedBy, customerId, moment, fault).0, |tx.tables.roles|;
            && t == tx.(tables := tx.tables.(roles := t.tables.roles))
            && |t.tables.roles| == n + 1 && t.tables.roles[..n] == tx.tables.roles
            && var row := t.tables.roles[n];
            && Reads(userId, row.userId) && row.archetype == archetype && row.role == role && row.grantedAt == moment
            && ReadsOptional(grantedBy, row.grantedBy) && row.revokedAt == None && ReadsOptional(customerId, row.customerId)
            && role in LiveRoles(t.tables.roles, row.userId, None) && role in LiveRoles(t.tables.roles, row.userId, row.customerId)
  {
    var t := Granted(cats, tx, userId, archetype, role, grantedBy, customerId, moment, fault).0;
    var rows, n := t.tables.roles, |tx.tables.roles|;
    assert rows[n].role == role && IsLive(rows[n], rows[n].userId, None) && IsLive(rows[n], rows[n].userId, rows[n].customerId);
    LiveRolesAreRows(rows, rows[n].userId, None);
    LiveRolesAreRows(rows, rows[n].userId, rows[n].customerId);
  }

  // ---- Revoking ---------------------------------------------------------------------------------

  /** The live grant of the role made to the user at the instant. */
  predicate Names(row: Row, userId: Id, role: Text, grantedAt: int) {
    Reads(userId, row.userId) && row.role == role && row.grantedAt == grantedAt && row.revokedAt == None
  }

  /** A revocation is true exactly when a live grant has that user, role and instant; that row is
      stamped with the moment, and it and every other row keep all else. */
  lemma RevokesIff(cats: Catalogues, tx: Tx, userId: Id, role: Text, grantedAt: int, moment: int, fault: bool)
    requires RowsOk(cats, tx.tables.users, tx.tables.roles)
    ensures var rows := tx.tables.roles;
            var (t, r) := Revoked(tx, userId, role, grantedAt, moment, fault);
            && (r.Ok? <==> !tx.aborted && !fault && ReadUuid(userId).Some?)
            && (r.Raise? ==> r.error == DatabaseError && t == tx.(aborted := true))
            && (r == Ok(true) <==> r.Ok? && exists i :: 0 <= i < |rows| && Names(rows[i], userId, role, grantedAt))
            && (r.Ok? ==> t == tx.(tables := tx.tables.(roles := t.tables.roles)) && |t.tables.roles| == |rows|)
            && (r.Ok? ==> forall i :: 0 <= i < |rows| ==>
                  t.tables.roles[i] == if Names(rows[i], userId, role, grantedAt) then rows[i].(revokedAt := Some(moment)) else rows[i])
  {
    var id := ReadUuid(userId);
    if id.Some? {
      AtMostOneHit(cats, tx.tables.users, tx.tables.roles, id.value, role, grantedAt);
      assert forall row :: IsHit(row, id.value, role, grantedAt) <==> Names(row, userId, role, grantedAt);
    }
  }

  /** After it the user holds exactly the roles that some live grant in scope gives, other than the
      revoked grant itself. */
  lemma RevokedRoleIsLost(cats: Catalogues, tx: Tx, userId: Id, role: Text, grantedAt: int, moment: int, fault: bool, u: Uuid,
                          customerId: Option<Uuid>, x: Text)
    requires RowsOk(cats, tx.tables.users, tx.tables.roles) && Reads(userId, u)
    requires Revoked(tx, userId, role, grantedAt, moment, fault).1.Ok?
    ensures var rows, after := tx.tables.roles, Revoked(tx, userId, role, grantedAt, moment, fault).0.tables.roles;
            x in LiveRoles(after, u, customerId) <==>
              exists i :: 0 <= i < |rows| && IsLive(rows[i], u, customerId) && rows[i].role == x
                          && (x == role ==> rows[i].grantedAt != grantedAt)
  {
    var rows, after := tx.tables.roles, Revoked(tx, userId, role, grantedAt, moment, fault).0.tables.roles;
    RevokesIff(cats, tx, userId, role, grantedAt, moment, fault);
    LiveRolesAreRows(after, u, customerId);
    forall i | 0 <= i < |rows|
      ensures after[i].role == rows[i].role && after[i].grantedAt == rows[i].grantedAt
      ensures IsLive(after[i], u, customerId) <==> IsLive(rows[i], u, customerId) && !(rows[i].role == role && rows[i].grantedAt == grantedAt)
    {}
  }

  // ---- Checking ---------------------------------------------------------------------------------

  /** Which error a check raises: an unknown permission before anything is read, then a database
      error; the rest is the catalogue's answer for the roles held. */
  lemma ChecksIff(known: set<Permission>, cats: Catalogues, tx: Tx, userId: Id, archetype: Archetype, permission: Permission, customerId: Option<Text>)
    ensures var a := PermissionAnswer(known, cats, tx, userId, archetype, permission, customerId);
            && (a == RaisesUnknownPermission <==> permission !in known)
            && (a == RaisesDatabaseError
                <==> permission in known
                     && (tx.aborted || ReadUuid(userId).None? || (customerId.Some? && ReadUuid(customerId.value).None?)))
  {}

  /** A grant is usable at once: its user has every permission of the role, unless a flag is on,
      for any spelling of the ids. */
  lemma GrantIsUsable(known: set<Permission>, cats: Catalogues, tx: Tx, userId: Id, archetype: Archetype, role: Text, grantedBy: Option<Id>,
                      customerId: Option<Text>, moment: int, permission: Permission, spelling: Id)
    requires RowsOk(cats, tx.tables.users, tx.tables.roles)
    requires Granted(cats, tx, userId, archetype, role, grantedBy, customerId, moment, false).1.Ok?
    requires ReadUuid(spelling) == ReadUuid(userId) && permission in known
    requires !cats(archetype).roles[role].flaggedOff && permission in cats(archetype).roles[role].permissions
    ensures var t := Granted(cats, tx, userId, archetype, role, grantedBy, customerId, moment, false).0;
            && PermissionAnswer(known, cats, t, spelling, archetype, permission, None) == Answered(true)
            && PermissionAnswer(known, cats, t, spelling, archetype, permission, customerId) == Answered(true)
  {
    var t, n := Granted(cats, tx, userId, archetype, role, grantedBy, customerId, moment, false).0, |tx.tables.roles|;
    GrantAddsARow(cats, tx, userId, archetype, role, grantedBy, customerId, moment, false);
    GrantKeepsRows(cats, tx, userId, archetype, role, grantedBy, customerId, moment, false);
    assert t.tables.users == tx.tables.users && !t.aborted;
    PermissionMeansAGrant(known, cats, t, spelling, archetype, permission, None);
    PermissionMeansAGrant(known, cats, t, spelling, archetype, permission, customerId);
    assert Confers(cats, t.tables.roles[n], t.tables.roles[n].userId, None, permission);
    assert Confers(cats, t.tables.roles[n], t.tables.roles[n].userId, t.tables.roles[n].customerId, permission);
  }
}
