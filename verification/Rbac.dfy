/** Role catalogues over a common permission model, and what a set of held roles confers. */
module Rbac {
  import opened Sorting
  import opened Wrappers

  datatype Archetype = Operator | BrandCustomer | FoundationInternal

  type Permission = Text

  datatype Role = Role(identifier: Text, archetype: Archetype, permissions: set<Permission>, flaggedOff: bool)
  datatype Catalogue = Catalogue(archetype: Archetype, roles: map<Text, Role>)

  datatype Resolution = UnknownRole | Resolved(permissions: set<Permission>)
  datatype Answer = RaisesUnknownRole | RaisesUnknownPermission | RaisesDatabaseError | Answered(granted: bool)

  predicate PinnedRole(archetype: Archetype, identifier: Text, role: Role) {
    role.identifier == identifier && role.archetype == archetype
  }

  ghost predicate Pinned(c: Catalogue) {
    forall id :: id in c.roles ==> PinnedRole(c.archetype, id, c.roles[id])
  }

  /** __post_init__: None is the raised ValueError. */
  method NewCatalogue(archetype: Archetype, roles: map<Text, Role>) returns (r: Option<Catalogue>)
    ensures r.Some? <==> Pinned(Catalogue(archetype, roles))
    ensures r.Some? ==> r.value == Catalogue(archetype, roles)
  {
    var rest := roles.Keys;
    while rest != {}
      invariant rest <= roles.Keys
      invariant forall id :: id in roles && id !in rest ==> PinnedRole(archetype, id, roles[id])
      decreases |rest|
    {
      var id :| id in rest;
      if !PinnedRole(archetype, id, roles[id]) { return None; }
      rest := rest - {id};
    }
    return Some(Catalogue(archetype, roles));
  }

  /** An unknown identifier raises, wherever it comes; a role flagged off confers nothing. */
  function Resolve(c: Catalogue, held: set<Text>): Resolution {
    if held <= c.roles.Keys
    then Resolved(set id, p | id in held && !c.roles[id].flaggedOff && p in c.roles[id].permissions :: p)
    else UnknownRole
  }

  method ResolvePermissions(c: Catalogue, held: set<Text>) returns (r: Resolution)
    ensures r == Resolve(c, held)
  {
    var resolved: set<Permission> := {};
    var rest := held;
    while rest != {}
      invariant rest <= held && held - rest <= c.roles.Keys
      invariant resolved == set id, p | id in held - rest && !c.roles[id].flaggedOff && p in c.roles[id].permissions :: p
      decreases |rest|
    {
      var id :| id in rest;
      if id !in c.roles { return UnknownRole; }
      var role := c.roles[id];
      rest := rest - {id};
      if !role.flaggedOff {
        resolved := resolved + role.permissions;
      }
    }
    return Resolved(resolved);
  }

  function HasPermission(c: Catalogue, held: set<Text>, permission: Permission): Answer {
    match Resolve(c, held)
    case UnknownRole => RaisesUnknownRole
    case Resolved(permissions) => Answered(permission in permissions)
  }
}
