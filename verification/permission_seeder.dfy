/** `PermissionSeeder::run`: make sure the ten module permissions and the
    "Super Admin" role exist, give that role every permission, and make the
    first user a Super Admin and nothing else. Every step looks rows up by
    name before creating them, so running the seeder again changes nothing. */
module PermissionSeeder {
  import opened Common
  import opened Database

  const Modules: seq<string> := ["Permission", "Role"]
  const Actions: seq<string> := ["List", "View", "Create", "Update", "Delete"]
  const ExtraPermissions: seq<string> := []
  const DefaultRole := "Super Admin"

  /** `Str::plural` on the five action words, all of which take a plain "s". */
  function Plural(word: string): string
  {
    word + "s"
  }

  /** `$module . ' ' . Str::plural($action)` for each action. */
  function Prefixed(area: string, actions: seq<string>): (r: seq<string>)
    ensures |r| == |actions|
    ensures forall j :: 0 <= j < |actions| ==> r[j] == area + " " + Plural(actions[j])
  {
    seq(|actions|, j requires 0 <= j < |actions| => area + " " + Plural(actions[j]))
  }

  /** The names of the nested module/action loop, in creation order. */
  function ModuleNames(modules: seq<string>, actions: seq<string>): (r: seq<string>)
    ensures |r| == |modules| * |actions|
  {
    if modules == [] then [] else Prefixed(modules[0], actions) + ModuleNames(modules[1..], actions)
  }

  /** Every name the seeder creates. */
  function SeedNames(): seq<string>
  {
    ModuleNames(Modules, Actions) + ExtraPermissions
  }

  /** The seeder creates exactly these ten names, in this order. */
  lemma SeedNamesExact()
    ensures SeedNames() == [
      "Permission Lists", "Permission Views", "Permission Creates", "Permission Updates", "Permission Deletes",
      "Role Lists", "Role Views", "Role Creates", "Role Updates", "Role Deletes"]
  {
    assert Modules[1..] == ["Role"];
    assert Modules[1..][1..] == [];
    var p := Prefixed("Permission", Actions);
    var q := Prefixed("Role", Actions);
    assert p[0] == "Permission Lists" && p[1] == "Permission Views" && p[2] == "Permission Creates";
    assert p[3] == "Permission Updates" && p[4] == "Permission Deletes";
    assert q[0] == "Role Lists" && q[1] == "Role Views" && q[2] == "Role Creates";
    assert q[3] == "Role Updates" && q[4] == "Role Deletes";
    assert ModuleNames(Modules, Actions) == p + q;
  }

  /** The set of names of a list. */
  function NameSet(names: seq<string>): set<string>
  {
    set i | 0 <= i < |names| :: names[i]
  }

  /** The names the rows of a table carry. */
  function Names(m: map<Id, Entry>): set<string>
  {
    set id | id in m :: m[id].name
  }

  predicate Below(m: map<Id, Entry>, next: Id)
  {
    forall id :: id in m ==> id < next
  }

  /** `firstOrCreate(['name' => $name])` on a table whose ids are below `next`:
      the lowest-numbered row carrying the name, or a new row with the next id. */
  function FirstOrCreate(m: map<Id, Entry>, next: Id, name: string, now: Stamp): (r: (map<Id, Entry>, Id, Id))
    requires Below(m, next)
    ensures Below(r.0, r.1) && next <= r.1
    ensures r.2 in r.0 && r.0[r.2].name == name
    ensures forall id :: id in r.0 && id < r.2 ==> r.0[id].name != name
    ensures NameTaken(m, name) ==> r.0 == m && r.1 == next
    ensures !NameTaken(m, name) ==> r.0 == m[next := Entry(name, now, now)] && r.1 == next + 1 && r.2 == next
    ensures Names(r.0) == Names(m) + {name}
    ensures UniqueNames(m) ==> UniqueNames(r.0)
  {
    var keys := set id | id in m && m[id].name == name;
    assert forall id :: id in m && m[id].name == name ==> id in keys;
    match Least(keys, 0, next)
    case Some(id) =>
      assert name in Names(m);
      (m, next, id)
    case None =>
      assert !NameTaken(m, name);
      var grown := m[next := Entry(name, now, now)];
      assert next !in m;
      assert Names(grown) == Names(m) + {name} by {
        assert forall id :: id in m ==> grown[id] == m[id];
        assert grown[next].name == name;
      }
      (grown, next + 1, next)
  }

  lemma NameSetCons(names: seq<string>)
    requires names != []
    ensures NameSet(names) == {names[0]} + NameSet(names[1..])
  {
    forall i | 0 <= i < |names|
      ensures names[i] in {names[0]} + NameSet(names[1..])
    {
      if i > 0 {
        assert names[1..][i - 1] == names[i];
      }
    }
  }

  /** `firstOrCreate` for each name in turn. */
  function CreateAll(m: map<Id, Entry>, next: Id, names: seq<string>, now: Stamp): (r: (map<Id, Entry>, Id))
    requires Below(m, next)
    decreases |names|
    ensures Below(r.0, r.1) && next <= r.1
    ensures forall id :: id in m ==> id in r.0 && r.0[id] == m[id]
    ensures Names(r.0) == Names(m) + NameSet(names)
    ensures NameSet(names) <= Names(m) ==> r == (m, next)
    ensures UniqueNames(m) ==> UniqueNames(r.0)
  {
    if names == [] then (m, next)
    else
      var (m1, next1, _) := FirstOrCreate(m, next, names[0], now);
      var r := CreateAll(m1, next1, names[1..], now);
      NameSetCons(names);
      r
  }

  /** The lowest id at or below `p` whose row carries `name`. */
  function FirstNamed(m: map<Id, Entry>, name: string, p: Id): (q: Id)
    requires p in m && m[p].name == name
    decreases p
    ensures q in m && m[q].name == name && q <= p
    ensures forall k :: k in m && k < q ==> m[k].name != name
  {
    var below := set k | k in m && k < p && m[k].name == name;
    assert forall k :: k in m && k < p && m[k].name == name ==> k in below;
    if below == {} then p
    else
      var k :| k in below;
      FirstNamed(m, name, k)
  }

  /** The permission ids `syncPermissions` resolves a list of names to: for each
      name, the first row carrying it. */
  function FirstHolders(m: map<Id, Entry>): (r: set<Id>)
    ensures r <= m.Keys
    ensures Names(m) == (set id | id in r :: m[id].name)
    ensures UniqueNames(m) ==> r == m.Keys
  {
    var r := set p | p in m && forall q :: q in m && q < p ==> m[q].name != m[p].name;
    forall name | name in Names(m)
      ensures exists p :: p in r && m[p].name == name
    {
      var p :| p in m && m[p].name == name;
      var first := FirstNamed(m, name, p);
      assert first in r;
    }
    r
  }

  // ----- the four steps of `run` -----

  /** The permissions loops, over the names they create. */
  function SeedPermissions(db: Db, names: seq<string>, now: Stamp): (r: Db)
    requires Wellformed(db)
    ensures Wellformed(r)
    ensures forall id :: id in db.permissions ==> id in r.permissions && r.permissions[id] == db.permissions[id]
    ensures Names(r.permissions) == Names(db.permissions) + NameSet(names)
    ensures NameSet(names) <= Names(db.permissions) ==> r == db
    ensures UniqueNames(db.permissions) ==> UniqueNames(r.permissions)
    ensures r.roles == db.roles && r.users == db.users
    ensures r.rolePermissions == db.rolePermissions && r.permissionLinks == db.permissionLinks && r.userRoles == db.userRoles
    ensures r.nextRole == db.nextRole && r.nextUser == db.nextUser
  {
    assert Below(db.permissions, db.nextPermission);
    var grown := CreateAll(db.permissions, db.nextPermission, names, now);
    GrownWellformed(db, grown.0, grown.1);
    db.(permissions := grown.0, nextPermission := grown.1)
  }

  /** Replacing the permissions by a larger table with a valid counter keeps the database well formed. */
  lemma GrownWellformed(db: Db, m: map<Id, Entry>, next: Id)
    requires Wellformed(db) && Below(m, next) && db.permissions.Keys <= m.Keys && db.nextPermission <= next
    ensures Wellformed(db.(permissions := m, nextPermission := next))
  {
  }

  /** `Role::firstOrCreate(['name' => 'Super Admin'])`. */
  function SeedRole(db: Db, now: Stamp): (r: (Db, Id))
    requires Wellformed(db)
    ensures Wellformed(r.0)
    ensures r.1 in r.0.roles && r.0.roles[r.1].name == DefaultRole
    ensures forall id :: id in r.0.roles && id < r.1 ==> r.0.roles[id].name != DefaultRole
    ensures NameTaken(db.roles, DefaultRole) ==> r.0 == db
    ensures r.0.roles.Keys <= db.roles.Keys + {r.1}
    ensures forall id :: id in db.roles ==> id in r.0.roles && r.0.roles[id] == db.roles[id]
    ensures UniqueNames(db.roles) ==> UniqueNames(r.0.roles)
    ensures r.0.permissions == db.permissions && r.0.users == db.users
    ensures r.0.rolePermissions == db.rolePermissions && r.0.permissionLinks == db.permissionLinks && r.0.userRoles == db.userRoles
    ensures r.0.nextPermission == db.nextPermission && r.0.nextUser == db.nextUser
  {
    var (roles, next, role) := FirstOrCreate(db.roles, db.nextRole, DefaultRole, now);
    (db.(roles := roles, nextRole := next), role)
  }

  /** `$role->syncPermissions(Permission::all()->pluck('name'))`. */
  function GrantAll(db: Db, role: Id): (r: Db)
    requires Wellformed(db) && role in db.roles
    ensures Wellformed(r)
    ensures r == db.(rolePermissions := r.rolePermissions)
    ensures Names(db.permissions) == (set p | p in Related(r.rolePermissions, role) :: db.permissions[p].name)
    ensures UniqueNames(db.permissions) ==> Related(r.rolePermissions, role) == db.permissions.Keys
    ensures forall e: (Id, Id) :: e.0 != role ==> (e in r.rolePermissions <==> e in db.rolePermissions)
  {
    var r := db.(rolePermissions := Sync(db.rolePermissions, role, FirstHolders(db.permissions)));
    assert forall e | e in r.rolePermissions && e.0 == role :: e.1 in Related(r.rolePermissions, role);
    r
  }

  /** The first user by id (`User::first()`), if there is one. */
  function FirstUser(db: Db): (u: Option<Id>)
    requires Wellformed(db)
    ensures u.None? <==> db.users == map[]
    ensures u.Some? ==> u.value in db.users && forall v :: v in db.users ==> u.value <= v
  {
    var u := Least(db.users.Keys, 0, db.nextUser);
    if u.None? then
      assert forall v :: v in db.users ==> v < db.nextUser;
      u
    else u
  }

  /** `$user->syncRoles(['Super Admin'])` on the first user. */
  function PromoteFirstUser(db: Db, role: Id): (r: Db)
    requires Wellformed(db) && role in db.roles
    ensures Wellformed(r)
    ensures r == db.(userRoles := r.userRoles)
    ensures FirstUser(db).None? ==> r == db
    ensures FirstUser(db).Some? ==> Related(r.userRoles, FirstUser(db).value) == {role}
    ensures forall e: (Id, Id) :: FirstUser(db) != Some(e.0) ==> (e in r.userRoles <==> e in db.userRoles)
  {
    match FirstUser(db)
    case None => db
    case Some(first) =>
      var r := db.(userRoles := Sync(db.userRoles, first, {role}));
      assert forall e | e in r.userRoles && e.0 == first :: e.1 in Related(r.userRoles, first);
      r
  }

  /** The body of `run`, for the list of names its loops create. */
  function Seed(db: Db, names: seq<string>, now: Stamp): (r: Db)
    requires Wellformed(db)
    ensures Wellformed(r)
  {
    var seeded := SeedPermissions(db, names, now);
    var (withRole, role) := SeedRole(seeded, now);
    PromoteFirstUser(GrantAll(withRole, role), role)
  }

  /** `PermissionSeeder::run` on a well-formed database. */
  function Run(db: Db, now: Stamp): (r: Db)
    requires Wellformed(db)
    ensures Wellformed(r)
  {
    Seed(db, SeedNames(), now)
  }

  /** The role the run settles on: the first "Super Admin". */
  function DefaultRoleId(db: Db, names: seq<string>, now: Stamp): Id
    requires Wellformed(db)
  {
    SeedRole(SeedPermissions(db, names, now), now).1
  }

  // ----- what a run leaves behind -----

  /** Existing permissions stay; the seed names are added and nothing else. */
  lemma SeedPermissionsEffect(db: Db, names: seq<string>, now: Stamp)
    requires Wellformed(db)
    ensures var r := Seed(db, names, now);
      && (forall id :: id in db.permissions ==> id in r.permissions && r.permissions[id] == db.permissions[id])
      && Names(r.permissions) == Names(db.permissions) + NameSet(names)
      && (UniqueNames(db.permissions) ==> UniqueNames(r.permissions))
  {
  }

  /** "Super Admin" exists, holds every permission, and is the only role that may be added. */
  lemma SeedRoleEffect(db: Db, names: seq<string>, now: Stamp)
    requires Wellformed(db)
    ensures var r := Seed(db, names, now); var role := DefaultRoleId(db, names, now);
      && role in r.roles && r.roles[role].name == DefaultRole
      && r.roles.Keys <= db.roles.Keys + {role}
      && (forall id :: id in db.roles ==> r.roles[id] == db.roles[id])
      && Names(r.permissions) == (set p | p in Related(r.rolePermissions, role) :: r.permissions[p].name)
      && (UniqueNames(db.permissions) ==> Related(r.rolePermissions, role) == r.permissions.Keys)
      && (forall e: (Id, Id) :: e.0 != role ==> (e in r.rolePermissions <==> e in db.rolePermissions))
      && (UniqueNames(db.roles) ==> UniqueNames(r.roles))
  {
    var seeded := SeedPermissions(db, names, now);
    var (withRole, role) := SeedRole(seeded, now);
    var granted := GrantAll(withRole, role);
    var r := PromoteFirstUser(granted, role);
    assert r.roles == withRole.roles && r.permissions == seeded.permissions && r.rolePermissions == granted.rolePermissions;
  }

  /** Users are untouched; the first one's roles become exactly "Super Admin",
      and with no users no role assignment changes. */
  lemma SeedUsersEffect(db: Db, names: seq<string>, now: Stamp)
    requires Wellformed(db)
    ensures var r := Seed(db, names, now);
      && r.users == db.users
      && (db.users == map[] ==> r.userRoles == db.userRoles)
      && (forall u :: u in db.users && (forall v :: v in db.users ==> u <= v) ==>
            Related(r.userRoles, u) == {DefaultRoleId(db, names, now)})
      && (forall e: (Id, Id) :: (exists v :: v in db.users && v < e.0) ==> (e in r.userRoles <==> e in db.userRoles))
  {
    var seeded := SeedPermissions(db, names, now);
    var (withRole, role) := SeedRole(seeded, now);
    var granted := GrantAll(withRole, role);
    assert Seed(db, names, now) == PromoteFirstUser(granted, role);
    PromoteEffect(granted, role, db.users, db.userRoles);
  }

  /** Promoting the first user of a table, stated against that table. */
  lemma PromoteEffect(db: Db, role: Id, users: map<Id, User>, userRoles: Edges)
    requires Wellformed(db) && role in db.roles
    requires db.users == users && db.userRoles == userRoles
    ensures var r := PromoteFirstUser(db, role);
      && r.users == users
      && (users == map[] ==> r.userRoles == userRoles)
      && (forall u :: u in users && (forall v :: v in users ==> u <= v) ==> Related(r.userRoles, u) == {role})
      && (forall e: (Id, Id) :: (exists v :: v in users && v < e.0) ==> (e in r.userRoles <==> e in userRoles))
  {
  }

  /** Running the seeder a second time, at any later time, changes nothing. */
  lemma SeedIdempotent(db: Db, names: seq<string>, now: Stamp, later: Stamp)
    requires Wellformed(db)
    ensures Seed(Seed(db, names, now), names, later) == Seed(db, names, now)
  {
    var r := Seed(db, names, now);
    var seeded := SeedPermissions(db, names, now);
    var (withRole, role) := SeedRole(seeded, now);
    var granted := GrantAll(withRole, role);
    assert r == PromoteFirstUser(granted, role);
    // the second run finds every name and the same role
    var seeded2 := SeedPermissions(r, names, later);
    assert seeded2 == r;
    var (withRole2, role2) := SeedRole(seeded2, later);
    assert withRole2 == r;
    assert role2 == role;
    SyncIdempotent(withRole.rolePermissions, role, FirstHolders(withRole.permissions));
    var granted2 := GrantAll(withRole2, role);
    assert granted2 == r;
    assert FirstUser(r) == FirstUser(db);
    match FirstUser(db)
    case None =>
    case Some(first) =>
      SyncIdempotent(granted.userRoles, first, {role});
  }

  /** `run` itself is idempotent. */
  lemma RunIdempotent(db: Db, now: Stamp, later: Stamp)
    requires Wellformed(db)
    ensures Run(Run(db, now), later) == Run(db, now)
  {
    SeedIdempotent(db, SeedNames(), now, later);
  }

  const SeedNameLiterals: set<string> := {
    "Permission Lists", "Permission Views", "Permission Creates", "Permission Updates", "Permission Deletes",
    "Role Lists", "Role Views", "Role Creates", "Role Updates", "Role Deletes"}

  lemma SeedNameSet()
    ensures NameSet(SeedNames()) == SeedNameLiterals
  {
    SeedNamesExact();
    LiteralNameSet();
  }

  lemma LiteralNameSet()
    ensures NameSet([
      "Permission Lists", "Permission Views", "Permission Creates", "Permission Updates", "Permission Deletes",
      "Role Lists", "Role Views", "Role Creates", "Role Updates", "Role Deletes"]) == SeedNameLiterals
  {
    var s := [
      "Permission Lists", "Permission Views", "Permission Creates", "Permission Updates", "Permission Deletes",
      "Role Lists", "Role Views", "Role Creates", "Role Updates", "Role Deletes"];
    assert forall i :: 0 <= i < |s| ==> s[i] in NameSet(s);
    forall x | x in SeedNameLiterals
      ensures x in NameSet(s)
    {
      assert x == s[0] || x == s[1] || x == s[2] || x == s[3] || x == s[4]
          || x == s[5] || x == s[6] || x == s[7] || x == s[8] || x == s[9];
    }
  }

  /** After `run`, the permission names are the old ones plus exactly the ten seed names. */
  lemma RunNames(db: Db, now: Stamp)
    requires Wellformed(db)
    ensures Names(Run(db, now).permissions) == Names(db.permissions) + SeedNameLiterals
  {
    SeedPermissionsEffect(db, SeedNames(), now);
    SeedNameSet();
  }
}
