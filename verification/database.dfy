/** The three tables of the back office (permissions, roles, users) and the
    join tables that link them, as one immutable value. Every handler and
    seeder is a function from one such value to the next.

    Rows are keyed by auto-increment identifiers; a join table is a set of
    (owner, related) pairs, so an edge exists at most once. The join tables
    carry foreign keys that cascade on the related side only (`permission_id`,
    `role_id`); the owner side of the polymorphic tables (`model_id`) has
    none. So a query-builder delete leaves the links the deleted rows own
    behind, and so does an Eloquent delete unless its model events detach
    them: they do for a user's roles and not for a permission's own links. */
module Database {
  import opened Common

  type Id = nat

  /** A wall-clock instant (`date('Y-m-d H:i:s')`, `now()`), always supplied by the caller. */
  type Stamp = nat

  /** A row of the `permissions` or `roles` table: both carry a name and the two timestamps. */
  datatype Entry = Entry(name: string, createdAt: Stamp, updatedAt: Stamp)

  /** A stored password. Hashing is not modelled: the value is only ever stored, never compared. */
  datatype Secret = Secret(plain: string)

  datatype User = User(
    name: string,
    email: string,
    password: Option<Secret>,
    emailVerifiedAt: Option<Stamp>,
    createdAt: Stamp,
    updatedAt: Stamp)

  /** A join table: (owner id, related id) pairs. */
  type Edges = set<(Id, Id)>

  datatype Db = Db(
    permissions: map<Id, Entry>,
    roles: map<Id, Entry>,
    users: map<Id, User>,
    rolePermissions: Edges,   // (role, permission)
    permissionLinks: Edges,   // (permission, permission): the `permissions()` relation of a permission
    userRoles: Edges,         // (user, role)
    nextPermission: Id,
    nextRole: Id,
    nextUser: Id)

  /** A freshly migrated database: no rows, every counter at 1. */
  const Empty: Db := Db(map[], map[], map[], {}, {}, {}, 1, 1, 1)

  /** Identifiers are below their table's counter; every edge points at an
      existing row (the foreign keys); an edge's owner may be a deleted row, but
      always one whose identifier was already handed out (no foreign key on
      `model_id`, and the counters never go back). */
  predicate Wellformed(db: Db)
  {
    && (forall id :: id in db.permissions ==> id < db.nextPermission)
    && (forall id :: id in db.roles ==> id < db.nextRole)
    && (forall id :: id in db.users ==> id < db.nextUser)
    && (forall e :: e in db.rolePermissions ==> e.0 in db.roles && e.1 in db.permissions)
    && (forall e :: e in db.permissionLinks ==> e.0 < db.nextPermission && e.1 in db.permissions)
    && (forall e :: e in db.userRoles ==> e.0 < db.nextUser && e.1 in db.roles)
  }

  /** No link is owned by a row that no longer exists. */
  predicate NoOrphans(db: Db)
  {
    && (forall e :: e in db.permissionLinks ==> e.0 in db.permissions)
    && (forall e :: e in db.userRoles ==> e.0 in db.users)
  }

  // ----- names -----

  predicate NameTaken(m: map<Id, Entry>, name: string)
  {
    exists id :: id in m && m[id].name == name
  }

  /** `where('name', $name)->whereNot('id', $self)`: some other row carries the name. */
  predicate NameTakenByOther(m: map<Id, Entry>, name: string, self: Id)
  {
    exists id :: id in m && id != self && m[id].name == name
  }

  predicate UniqueNames(m: map<Id, Entry>)
  {
    forall a, b :: a in m && b in m && m[a].name == m[b].name ==> a == b
  }

  predicate UserNameTaken(users: map<Id, User>, name: string)
  {
    exists id :: id in users && users[id].name == name
  }

  predicate UserNameTakenByOther(users: map<Id, User>, name: string, self: Id)
  {
    exists id :: id in users && id != self && users[id].name == name
  }

  predicate EmailTaken(users: map<Id, User>, email: string)
  {
    exists id :: id in users && users[id].email == email
  }

  predicate UniqueUserNames(users: map<Id, User>)
  {
    forall a, b :: a in users && b in users && users[a].name == users[b].name ==> a == b
  }

  predicate UniqueEmails(users: map<Id, User>)
  {
    forall a, b :: a in users && b in users && users[a].email == users[b].email ==> a == b
  }

  /** The name-uniqueness the controllers maintain for every table. */
  predicate UniqueNamesEverywhere(db: Db)
  {
    UniqueNames(db.permissions) && UniqueNames(db.roles) && UniqueUserNames(db.users)
  }

  /** The lowest identifier in `keys` among `from .. bound - 1` (`->first()` by primary key). */
  function Least(keys: set<Id>, from: nat, bound: nat): (r: Option<Id>)
    decreases bound - from
    ensures r.Some? ==> r.value in keys && from <= r.value < bound
    ensures r.Some? ==> forall j :: from <= j < r.value ==> j !in keys
    ensures r.None? ==> forall j :: from <= j < bound ==> j !in keys
  {
    if from >= bound then None
    else if from in keys then Some(from)
    else Least(keys, from + 1, bound)
  }

  /** The first row of `m` carrying `name`, by identifier. */
  function FindByName(m: map<Id, Entry>, name: string, bound: nat): (r: Option<Id>)
    ensures r.Some? ==> r.value in m && m[r.value].name == name
    ensures r.None? && (forall id :: id in m ==> id < bound) ==> !NameTaken(m, name)
  {
    var keys := set id | id in m && m[id].name == name;
    var r := Least(keys, 0, bound);
    assert r.None? && (forall id :: id in m ==> id < bound) ==> forall id :: id in m ==> id !in keys;
    r
  }

  // ----- join tables -----

  /** The ids `owner` is linked to. */
  function Related(edges: Edges, owner: Id): set<Id>
  {
    set e | e in edges && e.0 == owner :: e.1
  }

  /** `sync`: the owner's links become exactly `targets`; other owners keep theirs. */
  function Sync(edges: Edges, owner: Id, targets: set<Id>): (r: Edges)
    ensures Related(r, owner) == targets
    ensures forall e: (Id, Id) :: e.0 != owner ==> (e in r <==> e in edges)
  {
    var kept := set e | e in edges && e.0 != owner;
    var added := set t | t in targets :: (owner, t);
    var r := kept + added;
    assert forall t :: t in targets ==> (owner, t) in r;
    r
  }

  /** `assignRole`: the owner's links grow by `targets`; other owners keep theirs. */
  function Attach(edges: Edges, owner: Id, targets: set<Id>): (r: Edges)
    ensures Related(r, owner) == Related(edges, owner) + targets
    ensures forall e: (Id, Id) :: e.0 != owner ==> (e in r <==> e in edges)
  {
    var r := edges + set t | t in targets :: (owner, t);
    assert forall t :: t in targets ==> (owner, t) in r;
    assert forall e :: e in edges && e.0 == owner ==> e.1 in Related(r, owner);
    r
  }

  /** The edges whose owner is not in `left` and whose target is not in `right`. */
  function Detach(edges: Edges, left: set<Id>, right: set<Id>): (r: Edges)
    ensures forall e :: e in r <==> e in edges && e.0 !in left && e.1 !in right
  {
    set e | e in edges && e.0 !in left && e.1 !in right
  }

  /** Syncing to the current links changes nothing. */
  lemma SyncCurrent(edges: Edges, owner: Id)
    ensures Sync(edges, owner, Related(edges, owner)) == edges
  {
    var r := Sync(edges, owner, Related(edges, owner));
    forall e | e in edges
      ensures e in r
    {
      if e.0 == owner {
        assert e.1 in Related(edges, owner);
        assert e.1 in Related(r, owner);
      }
    }
    forall e | e in r
      ensures e in edges
    {
      if e.0 == owner {
        assert e.1 in Related(r, owner);
      }
    }
  }

  /** Synchronising twice with the same set is the same as once. */
  lemma SyncIdempotent(edges: Edges, owner: Id, targets: set<Id>)
    ensures Sync(Sync(edges, owner, targets), owner, targets) == Sync(edges, owner, targets)
  {
    SyncCurrent(Sync(edges, owner, targets), owner);
  }

  // ----- row operations -----

  function AddPermission(db: Db, row: Entry): (r: (Db, Id))
    ensures r.1 == db.nextPermission
    ensures r.0 == db.(permissions := db.permissions[r.1 := row], nextPermission := r.1 + 1)
  {
    (db.(permissions := db.permissions[db.nextPermission := row], nextPermission := db.nextPermission + 1),
     db.nextPermission)
  }

  function AddRole(db: Db, row: Entry): (r: (Db, Id))
    ensures r.1 == db.nextRole
    ensures r.0 == db.(roles := db.roles[r.1 := row], nextRole := r.1 + 1)
  {
    (db.(roles := db.roles[db.nextRole := row], nextRole := db.nextRole + 1), db.nextRole)
  }

  function AddUser(db: Db, row: User): (r: (Db, Id))
    ensures r.1 == db.nextUser
    ensures r.0 == db.(users := db.users[r.1 := row], nextUser := r.1 + 1)
  {
    (db.(users := db.users[db.nextUser := row], nextUser := db.nextUser + 1), db.nextUser)
  }

  /** Inserting a row keeps the database well formed, and the new row starts
      with no links: an edge left behind by a deleted row never names it. */
  lemma AddUserWellformed(db: Db, row: User)
    requires Wellformed(db)
    ensures var (r, id) := AddUser(db, row);
      && Wellformed(r)
      && id !in db.users
      && Related(db.userRoles, id) == {}
      && r.users.Keys - db.users.Keys == {id}
      && r.users[id] == row
      && (forall u :: u in db.users ==> u in r.users && r.users[u] == db.users[u])
  {
    var (r, id) := AddUser(db, row);
    assert id !in db.users;
    assert r.users.Keys == db.users.Keys + {id};
  }

  lemma AddPermissionWellformed(db: Db, row: Entry)
    requires Wellformed(db)
    ensures Wellformed(AddPermission(db, row).0)
    ensures AddPermission(db, row).1 !in db.permissions
    ensures Related(db.permissionLinks, AddPermission(db, row).1) == {}
  {
  }

  lemma AddRoleWellformed(db: Db, row: Entry)
    requires Wellformed(db)
    ensures Wellformed(AddRole(db, row).0)
    ensures AddRole(db, row).1 !in db.roles
  {
  }

  /** `$permission->delete()`: the foreign keys remove the edges that point at
      the row. The package's deleting hook detaches a model's own permission
      links for every model but a permission, so the links this row owns stay,
      as they do after the bulk delete. */
  function DeletePermission(db: Db, id: Id): (r: Db)
    ensures r.permissions.Keys == db.permissions.Keys - {id}
    ensures forall k :: k in r.permissions ==> r.permissions[k] == db.permissions[k]
    ensures forall e :: e in r.rolePermissions <==> e in db.rolePermissions && e.1 != id
    ensures forall e :: e in r.permissionLinks <==> e in db.permissionLinks && e.1 != id
    ensures r.roles == db.roles && r.users == db.users && r.userRoles == db.userRoles
    ensures r.nextPermission == db.nextPermission && r.nextRole == db.nextRole && r.nextUser == db.nextUser
  {
    DeletePermissions(db, {id})
  }

  /** `Permission::whereIn('id', $ids)->delete()`: one SQL statement and no
      model events. The foreign keys remove the edges pointing at the deleted
      rows; the links those rows own stay in the table. */
  function DeletePermissions(db: Db, ids: set<Id>): (r: Db)
    ensures r.permissions.Keys == db.permissions.Keys - ids
    ensures forall id :: id in r.permissions ==> r.permissions[id] == db.permissions[id]
    ensures forall e :: e in r.rolePermissions <==> e in db.rolePermissions && e.1 !in ids
    ensures forall e :: e in r.permissionLinks <==> e in db.permissionLinks && e.1 !in ids
    ensures r.roles == db.roles && r.users == db.users && r.userRoles == db.userRoles
    ensures r.nextPermission == db.nextPermission && r.nextRole == db.nextRole && r.nextUser == db.nextUser
  {
    db.(permissions := db.permissions - ids,
        rolePermissions := Detach(db.rolePermissions, {}, ids),
        permissionLinks := Detach(db.permissionLinks, {}, ids))
  }

  /** `Role::whereIn('id', $ids)->delete()` and `$role->delete()` alike: both
      join tables hold roles on their foreign-key side, so every edge naming a
      deleted role goes. */
  function DeleteRoles(db: Db, ids: set<Id>): (r: Db)
    ensures r.roles.Keys == db.roles.Keys - ids
    ensures forall id :: id in r.roles ==> r.roles[id] == db.roles[id]
    ensures forall e :: e in r.rolePermissions <==> e in db.rolePermissions && e.0 !in ids
    ensures forall e :: e in r.userRoles <==> e in db.userRoles && e.1 !in ids
    ensures r.permissions == db.permissions && r.users == db.users && r.permissionLinks == db.permissionLinks
    ensures r.nextPermission == db.nextPermission && r.nextRole == db.nextRole && r.nextUser == db.nextUser
  {
    db.(roles := db.roles - ids,
        rolePermissions := Detach(db.rolePermissions, ids, {}),
        userRoles := Detach(db.userRoles, {}, ids))
  }

  /** `$user->delete()`: the `HasRoles` deleting hook detaches the user's roles. */
  function DeleteUser(db: Db, id: Id): (r: Db)
    ensures r.users.Keys == db.users.Keys - {id}
    ensures forall k :: k in r.users ==> r.users[k] == db.users[k]
    ensures forall e :: e in r.userRoles <==> e in db.userRoles && e.0 != id
    ensures r.permissions == db.permissions && r.roles == db.roles
    ensures r.rolePermissions == db.rolePermissions && r.permissionLinks == db.permissionLinks
    ensures r.nextPermission == db.nextPermission && r.nextRole == db.nextRole && r.nextUser == db.nextUser
  {
    db.(users := db.users - {id}, userRoles := Detach(db.userRoles, {id}, {}))
  }

  /** `User::whereIn('id', $ids)->delete()`: no model events and no foreign key
      on `model_id`, so the deleted users' role links stay in the table. */
  function DeleteUsers(db: Db, ids: set<Id>): (r: Db)
    ensures r.users.Keys == db.users.Keys - ids
    ensures forall id :: id in r.users ==> r.users[id] == db.users[id]
    ensures r.userRoles == db.userRoles
    ensures r.permissions == db.permissions && r.roles == db.roles
    ensures r.rolePermissions == db.rolePermissions && r.permissionLinks == db.permissionLinks
    ensures r.nextPermission == db.nextPermission && r.nextRole == db.nextRole && r.nextUser == db.nextUser
  {
    db.(users := db.users - ids)
  }

  // Every delete keeps the database well formed and the surviving names unique.

  /** The single permission delete leaves an orphan exactly when the row owned
      a link to another permission. */
  lemma DeletePermissionPreserves(db: Db, id: Id)
    requires Wellformed(db) && UniqueNamesEverywhere(db)
    ensures Wellformed(DeletePermission(db, id)) && UniqueNamesEverywhere(DeletePermission(db, id))
    ensures NoOrphans(db) ==> (NoOrphans(DeletePermission(db, id)) <==> Related(db.permissionLinks, id) <= {id})
  {
    var r := DeletePermission(db, id);
    if NoOrphans(db) && !(Related(db.permissionLinks, id) <= {id}) {
      var x :| x in Related(db.permissionLinks, id) && x != id;
      assert (id, x) in r.permissionLinks;
    }
  }

  lemma DeletePermissionsPreserves(db: Db, ids: set<Id>)
    requires Wellformed(db) && UniqueNamesEverywhere(db)
    ensures Wellformed(DeletePermissions(db, ids)) && UniqueNamesEverywhere(DeletePermissions(db, ids))
  {
  }

  lemma DeleteRolesPreserves(db: Db, ids: set<Id>)
    requires Wellformed(db) && UniqueNamesEverywhere(db)
    ensures Wellformed(DeleteRoles(db, ids)) && UniqueNamesEverywhere(DeleteRoles(db, ids))
    ensures NoOrphans(db) ==> NoOrphans(DeleteRoles(db, ids))
  {
  }

  lemma DeleteUserPreserves(db: Db, id: Id)
    requires Wellformed(db) && UniqueNamesEverywhere(db)
    ensures Wellformed(DeleteUser(db, id)) && UniqueNamesEverywhere(DeleteUser(db, id))
    ensures UniqueEmails(db.users) ==> UniqueEmails(DeleteUser(db, id).users)
    ensures NoOrphans(db) ==> NoOrphans(DeleteUser(db, id))
  {
  }

  lemma DeleteUsersPreserves(db: Db, ids: set<Id>)
    requires Wellformed(db) && UniqueNamesEverywhere(db)
    ensures Wellformed(DeleteUsers(db, ids)) && UniqueNamesEverywhere(DeleteUsers(db, ids))
    ensures UniqueEmails(db.users) ==> UniqueEmails(DeleteUsers(db, ids).users)
  {
  }

  /** A bulk delete of a user holding a role leaves an orphan link behind. */
  lemma DeleteUsersLeavesOrphans(db: Db, ids: set<Id>, user: Id, role: Id)
    requires user in ids && user in db.users && (user, role) in db.userRoles
    ensures !NoOrphans(DeleteUsers(db, ids))
  {
    assert (user, role) in DeleteUsers(db, ids).userRoles;
  }

  /** A bulk delete of a permission owning a link to a surviving permission
      leaves an orphan link behind. */
  lemma DeletePermissionsLeavesOrphans(db: Db, ids: set<Id>, owner: Id, target: Id)
    requires owner in ids && owner in db.permissions && target !in ids && (owner, target) in db.permissionLinks
    ensures !NoOrphans(DeletePermissions(db, ids))
  {
    assert (owner, target) in DeletePermissions(db, ids).permissionLinks;
  }
}
