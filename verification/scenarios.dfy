/** Consequences that span several parts of the system: what a fresh install
    lets the administrator do, and a bulk delete from the server-side table
    down to the database. */
module Scenarios {
  import opened Common
  import opened Text
  import opened Database
  import opened Gate
  import opened Http
  import opened Validation
  import PermissionSeeder
  import AdminUserSeeder
  import PermissionController
  import RoleController
  import UserController
  import DatatableServer

  /** After seeding `names` into a database with no permissions yet, the first
      user holds, through its roles, exactly those names. */
  lemma SeededNamesHeldByFirstUser(db: Db, names: seq<string>, now: Stamp, first: Id)
    requires Wellformed(db) && db.permissions == map[]
    requires first in db.users && forall v :: v in db.users ==> first <= v
    ensures RoleDerivedNames(PermissionSeeder.Seed(db, names, now), first) == PermissionSeeder.NameSet(names)
  {
    var r := PermissionSeeder.Seed(db, names, now);
    var role := PermissionSeeder.DefaultRoleId(db, names, now);
    SeedGrantsEverything(db, names, now);
    SeedPromotesFirst(db, names, now, first);
    SeedNamesOnEmpty(db, names, now);
    HeldThroughOneRole(r, first, role);
  }

  lemma SeedGrantsEverything(db: Db, names: seq<string>, now: Stamp)
    requires Wellformed(db) && db.permissions == map[]
    ensures var r := PermissionSeeder.Seed(db, names, now);
      Related(r.rolePermissions, PermissionSeeder.DefaultRoleId(db, names, now)) == r.permissions.Keys
  {
    PermissionSeeder.SeedRoleEffect(db, names, now);
  }

  lemma SeedPromotesFirst(db: Db, names: seq<string>, now: Stamp, first: Id)
    requires Wellformed(db)
    requires first in db.users && forall v :: v in db.users ==> first <= v
    ensures PermissionSeeder.DefaultRoleId(db, names, now) in Related(PermissionSeeder.Seed(db, names, now).userRoles, first)
  {
    PermissionSeeder.SeedUsersEffect(db, names, now);
  }

  lemma SeedNamesOnEmpty(db: Db, names: seq<string>, now: Stamp)
    requires Wellformed(db) && db.permissions == map[]
    ensures PermissionSeeder.Names(PermissionSeeder.Seed(db, names, now).permissions) == PermissionSeeder.NameSet(names)
  {
    PermissionSeeder.SeedPermissionsEffect(db, names, now);
  }

  /** A user linked to a role that holds every permission holds every permission name. */
  lemma HeldThroughOneRole(db: Db, user: Id, role: Id)
    requires role in Related(db.userRoles, user)
    requires Related(db.rolePermissions, role) == db.permissions.Keys
    ensures RoleDerivedNames(db, user) == PermissionSeeder.Names(db.permissions)
  {
    var e :| e in db.userRoles && e.0 == user && e.1 == role;
    forall p | p in db.permissions
      ensures HoldsThroughRole(db, user, p)
    {
      assert p in Related(db.rolePermissions, role);
      assert (role, p) in db.rolePermissions;
    }
  }

  /** The permission seeder itself: the first user ends up with exactly the ten seeded names. */
  lemma FirstUserHoldsSeedNames(db: Db, now: Stamp, first: Id)
    requires Wellformed(db) && db.permissions == map[]
    requires first in db.users && forall v :: v in db.users ==> first <= v
    ensures RoleDerivedNames(PermissionSeeder.Run(db, now), first) == PermissionSeeder.SeedNameLiterals
  {
    SeededNamesHeldByFirstUser(db, PermissionSeeder.SeedNames(), now, first);
    PermissionSeeder.SeedNameSet();
  }

  /** Both seeders, in order, on a freshly migrated database. */
  function FreshInstall(now: Stamp): Db
  {
    PermissionSeeder.Run(AdminUserSeeder.Run(Empty, now), now)
  }

  /** The administrator account is user 1 and the only user. */
  lemma AdminIsFirstUser(now: Stamp)
    ensures AdminUserSeeder.Run(Empty, now).users == map[1 := AdminUserSeeder.Admin(now)]
    ensures AdminUserSeeder.Run(Empty, now).permissions == map[]
  {
  }

  /** On a fresh install the administrator holds exactly the ten seeded names. */
  lemma FreshInstallGrants(now: Stamp)
    ensures RoleDerivedNames(FreshInstall(now), 1) == PermissionSeeder.SeedNameLiterals
  {
    AdminIsFirstUser(now);
    FirstUserHoldsSeedNames(AdminUserSeeder.Run(Empty, now), now, 1);
  }

  /** Holding the ten seeded names allows everything on permissions and nothing
      on roles or users: the seeder creates "Role Lists" and the like, while
      those controllers ask for "List roles" and "User Lists". */
  lemma SeedNamesCaps(ctx: Ctx)
    requires ctx.granted == PermissionSeeder.SeedNameLiterals
    ensures PermissionController.CapsOf(ctx) == Caps(true, true, true, true, true)
    ensures RoleController.CapsOf(ctx) == Caps(false, false, false, false, false)
    ensures UserController.CapsOf(ctx) == Caps(false, false, false, false, false)
  {
  }

  /** So the administrator of a fresh install can manage permissions only. */
  lemma FreshInstallCaps(now: Stamp, isEmail: string -> bool)
    ensures var ctx := Ctx(RoleDerivedNames(FreshInstall(now), 1), now, isEmail);
      && PermissionController.CapsOf(ctx) == Caps(true, true, true, true, true)
      && RoleController.CapsOf(ctx) == Caps(false, false, false, false, false)
      && UserController.CapsOf(ctx) == Caps(false, false, false, false, false)
  {
    FreshInstallGrants(now);
    SeedNamesCaps(Ctx(RoleDerivedNames(FreshInstall(now), 1), now, isEmail));
  }

  /** The row keys a server-side table selects: each row's id as decimal text. */
  function Selection(ids: seq<Id>): (s: seq<string>)
    ensures |s| == |ids|
    ensures forall i :: 0 <= i < |ids| ==> ParseNat(s[i]) == Some(ids[i])
  {
    var s := seq(|ids|, i requires 0 <= i < |ids| => NatToString(ids[i]));
    forall i | 0 <= i < |ids|
      ensures ParseNat(s[i]) == Some(ids[i])
    {
      ParseNatRoundTrip(ids[i]);
    }
    s
  }

  /** The ids a bulk request for a selection names are exactly the selected ones. */
  lemma BulkRequestIds(ids: seq<Id>)
    ensures IdsOf(DatatableServer.BulkRequest(Selection(ids))["ids"].items) == set i | 0 <= i < |ids| :: ids[i]
  {
    var items := DatatableServer.BulkRequest(Selection(ids))["ids"].items;
    assert items == seq(|ids|, i requires 0 <= i < |ids| => Str(NatToString(ids[i])));
    IdsOfDecimals(ids);
  }

  /** Deleting the selected rows of the permission table removes exactly those
      permissions, and reports whether any existed. */
  lemma BulkDeletePermissions(caps: Caps, ctx: Ctx, db: Db, ids: seq<Id>)
    requires caps.delete && ids != []
    ensures var r := PermissionController.Destroys(caps, ctx, db, DatatableServer.BulkRequest(Selection(ids)));
      && r.db.permissions.Keys == db.permissions.Keys - (set i | 0 <= i < |ids| :: ids[i])
      && (r.response == Ok(PermissionController.Removed(exists i :: 0 <= i < |ids| && ids[i] in db.permissions)))
  {
    BulkRequestIds(ids);
    var chosen := set i | 0 <= i < |ids| :: ids[i];
    if exists i :: 0 <= i < |ids| && ids[i] in db.permissions {
      var i :| 0 <= i < |ids| && ids[i] in db.permissions;
      assert ids[i] in chosen * db.permissions.Keys;
    }
  }

  /** The same for the user table; the selected users' role links stay behind. */
  lemma BulkDeleteUsers(caps: Caps, ctx: Ctx, db: Db, ids: seq<Id>)
    requires caps.delete && ids != []
    ensures var r := UserController.Destroys(caps, ctx, db, DatatableServer.BulkRequest(Selection(ids)));
      && r.db.users.Keys == db.users.Keys - (set i | 0 <= i < |ids| :: ids[i])
      && r.db.userRoles == db.userRoles
  {
    BulkRequestIds(ids);
  }
}
