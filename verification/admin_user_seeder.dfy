/** `AdminUserSeeder::run`: create the administrator account unless a user
    with its e-mail address already exists. */
module AdminUserSeeder {
  import opened Common
  import opened Database

  const AdminName := "Super Admin"
  const AdminEmail := "admin@gmail.com"
  const AdminPassword := "rahasia"

  /** The account the seeder creates at time `now`; its address counts as verified. */
  function Admin(now: Stamp): User
  {
    User(AdminName, AdminEmail, Some(Secret(AdminPassword)), Some(now), now, now)
  }

  function Run(db: Db, now: Stamp): (r: Db)
    requires Wellformed(db)
    ensures Wellformed(r)
    ensures EmailTaken(r.users, AdminEmail)
    ensures EmailTaken(db.users, AdminEmail) <==> r == db
    ensures forall id :: id in db.users ==> id in r.users && r.users[id] == db.users[id]
    ensures forall id :: id in r.users && id !in db.users ==> r.users[id] == Admin(now)
    ensures |r.users.Keys - db.users.Keys| <= 1
    ensures r == db.(users := r.users, nextUser := r.nextUser)
  {
    if EmailTaken(db.users, AdminEmail) then db
    else
      var (added, id) := AddUser(db, Admin(now));
      AddUserWellformed(db, Admin(now));
      assert added.users[id].email == AdminEmail;
      added
  }

  /** A second run, at any time, changes nothing. */
  lemma RunIdempotent(db: Db, now: Stamp, later: Stamp)
    requires Wellformed(db)
    ensures Run(Run(db, now), later) == Run(db, now)
  {
  }

  /** The seeder never gives two accounts the same address. */
  lemma RunKeepsEmailsUnique(db: Db, now: Stamp)
    requires Wellformed(db) && UniqueEmails(db.users)
    ensures UniqueEmails(Run(db, now).users)
  {
  }

  /** It only looks at the e-mail: an existing user already called "Super Admin"
      under another address ends up sharing its name with the new account. */
  lemma RunCanDuplicateName(db: Db, now: Stamp, other: Id)
    requires Wellformed(db) && other in db.users && db.users[other].name == AdminName
    requires !EmailTaken(db.users, AdminEmail)
    ensures !UniqueUserNames(Run(db, now).users)
  {
    var r := Run(db, now);
    assert r.users[db.nextUser].name == AdminName;
    assert r.users[other].name == AdminName;
  }
}
