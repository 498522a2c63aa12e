/** The per-request capability record every controller builds in its
    constructor middleware: five booleans, each the answer of `$user->can`
    for one fixed ability name. */
module Gate {
  import opened Database

  /** The `permissions` array a controller keeps for the rest of the request
      (mirrored on the client as the `PermissionType` record). */
  datatype Caps = Caps(list: bool, view: bool, create: bool, update: bool, delete: bool)

  /** The five ability names a controller asks about. */
  datatype GateNames = GateNames(list: string, view: string, create: string, update: string, delete: string)

  /** One `can` per action; `granted` holds the ability names `can` answers true for. */
  function Resolve(granted: set<string>, names: GateNames): (c: Caps)
  {
    Caps(names.list in granted, names.view in granted, names.create in granted,
         names.update in granted, names.delete in granted)
  }

  /** The permission names a user holds through the roles assigned to it. */
  function RoleDerivedNames(db: Db, user: Id): (r: set<string>)
    ensures forall name :: name in r <==>
      exists p :: p in db.permissions && db.permissions[p].name == name && HoldsThroughRole(db, user, p)
  {
    set p | p in db.permissions && HoldsThroughRole(db, user, p) :: db.permissions[p].name
  }

  predicate HoldsThroughRole(db: Db, user: Id, p: Id)
  {
    exists e :: e in db.userRoles && e.0 == user && (e.1, p) in db.rolePermissions
  }

  /** Whether a user may do what one ability name allows: some role assigned
      to the user holds a stored permission of that name. */
  ghost predicate Allows(db: Db, user: Id, ability: string)
  {
    exists role, p :: (user, role) in db.userRoles && (role, p) in db.rolePermissions
      && p in db.permissions && db.permissions[p].name == ability
  }

  /** The capability record a user's request resolves to: each boolean is set
      exactly when a role of the user grants the matching ability. */
  lemma ResolveThroughRoles(db: Db, user: Id, names: GateNames)
    ensures var c := Resolve(RoleDerivedNames(db, user), names);
      && (c.list <==> Allows(db, user, names.list))
      && (c.view <==> Allows(db, user, names.view))
      && (c.create <==> Allows(db, user, names.create))
      && (c.update <==> Allows(db, user, names.update))
      && (c.delete <==> Allows(db, user, names.delete))
  {
  }
}
