/** `UserController`: the user accounts. Store checks the name before the
    e-mail and then gives the new user the submitted roles; update renames and
    rewrites the account but never re-checks the e-mail and never changes the
    user's roles. */
module UserController {
  import opened Common
  import opened Database
  import opened Text
  import opened Gate
  import opened Http
  import opened Validation
  import opened Requests
  import opened Middleware

  const Gates := GateNames("User Lists", "User Views", "User Creates", "User Updates", "User Deletes")

  const NameUsed := "User name has been used"
  const EmailUsed := "Email has been used"

  const UpdateRoute := "user.update"

  datatype Body =
    | ListPage(caps: Caps)
    | FormPage(caps: Caps, kind: FormKind, form: Option<(Id, User, set<Id>)>, catalog: map<Id, Entry>) // UserForm: the user, its role ids, and `role_data`
    | Resource(id: Id, row: User)
    | Removed(any: bool)
    | Rows(rows: map<Id, User>)

  /** `UserRequest` asks for "User Updates" on both routes that use it. */
  lemma RequestAbility()
    ensures UserAbility(UserStoreRoute) == Gates.update
    ensures UserAbility(UpdateRoute) == Gates.update
  {
  }

  lemma DuplicatesNotRuleMessages()
    ensures !RuleMessages(Duplicate("name", NameUsed))
    ensures !RuleMessages(Duplicate("email", EmailUsed))
    ensures Duplicate("name", NameUsed) != Duplicate("email", EmailUsed)
  {
    DuplicateNotRuleMessages("name", NameUsed);
    DuplicateNotRuleMessages("email", EmailUsed);
    assert "name" in Duplicate("name", NameUsed) && "name" !in Duplicate("email", EmailUsed);
  }

  /** A payload `UserRequest` lets through on `user.store`. */
  predicate AdmissibleStore(ctx: Ctx, input: Input)
  {
    && Gates.update in ctx.granted
    && NameOk(Lookup(input, "name"))
    && EmailOk(Lookup(input, "email"), ctx.isEmail)
    && PasswordOk(Lookup(input, "password"))
    && RolesOk(Lookup(input, "roles"))
    && RoleItemsOk(Lookup(input, "roles"))
  }

  /** A payload `UserRequest` lets through on `user.update`: every field optional. */
  predicate AdmissibleUpdate(ctx: Ctx, input: Input)
  {
    && Gates.update in ctx.granted
    && (Lookup(input, "name").None? || NameOk(Lookup(input, "name")))
    && (Lookup(input, "email").None? || EmailOk(Lookup(input, "email"), ctx.isEmail))
    && PasswordOk(Lookup(input, "password"))
    && (Lookup(input, "roles").None? || RolesOk(Lookup(input, "roles")))
    && RoleItemsOk(Lookup(input, "roles"))
  }

  /** A password sent as a list, which the validator's `min:8` lets through but
      the model cannot store. */
  predicate PasswordIsList(input: Input)
  {
    "password" in input && input["password"].Arr?
  }

  /** The password a payload sets, if any. */
  function PasswordOf(data: Input): (p: Option<Secret>)
    ensures p.Some? <==> TextField(data, "password").Some?
    ensures p.Some? ==> p.value == Secret(TextField(data, "password").value)
  {
    match TextField(data, "password")
    case None => None
    case Some(s) => Some(Secret(s))
  }

  function Index(caps: Caps, db: Db): (r: Step<Body>)
    ensures r.db == db
    ensures r.response == (if caps.list then Ok(ListPage(caps)) else Forbidden)
  {
    if !caps.list then Step(Forbidden, db) else Step(Ok(ListPage(caps)), db)
  }

  /** `create`: the empty form with the role catalogue. */
  function CreatePage(caps: Caps, db: Db): (r: Step<Body>)
    ensures r.db == db
    ensures r.response == (if caps.create then Ok(FormPage(caps, CreateForm, None, db.roles)) else Forbidden)
  {
    if !caps.create then Step(Forbidden, db) else Step(Ok(FormPage(caps, CreateForm, None, db.roles)), db)
  }

  /** `store`. */
  function Store(caps: Caps, ctx: Ctx, db: Db, input: Input): (r: Step<Body>)
    ensures r.db != db ==> r.response.Created?
    ensures r.response.Forbidden? <==> Gates.update !in ctx.granted || (AdmissibleStore(ctx, input) && !caps.create)
    ensures Gates.update in ctx.granted && !AdmissibleStore(ctx, input) ==>
      r == Step(Invalid(Validate(UserRules(UserStoreRoute), input, ctx.isEmail)), db)
    ensures r.response == Invalid(Duplicate("name", NameUsed)) <==>
      AdmissibleStore(ctx, input) && caps.create && UserNameFound(db.users, input)
    ensures r.response == Invalid(Duplicate("email", EmailUsed)) <==>
      AdmissibleStore(ctx, input) && caps.create && !UserNameFound(db.users, input)
      && EmailTaken(db.users, input["email"].s)
    ensures r.response.Created? <==>
      AdmissibleStore(ctx, input) && caps.create && !UserNameFound(db.users, input)
      && !EmailTaken(db.users, input["email"].s)
      && TextField(input, "name").Some? && !PasswordIsList(input)
    ensures r.response.ServerError? <==>
      AdmissibleStore(ctx, input) && caps.create && !UserNameFound(db.users, input)
      && !EmailTaken(db.users, input["email"].s)
      && (TextField(input, "name").None? || PasswordIsList(input))
    ensures r.response.Created? ==>
      var id := db.nextUser;
      && r.response.body == Resource(id, User(TextField(input, "name").value, input["email"].s, PasswordOf(input), None, ctx.now, ctx.now))
      && r.db == db.(users := db.users[id := r.response.body.row], nextUser := id + 1, userRoles := r.db.userRoles)
      && Related(r.db.userRoles, id) == Related(db.userRoles, id) + IdsOf(input["roles"].items) * db.roles.Keys
      && (forall e: (Id, Id) :: e.0 != id ==> (e in r.db.userRoles <==> e in db.userRoles))
  {
    UserStoreRulesMeaning(input, ctx.isEmail);
    UserValidatedFields(UserStoreRoute);
    DuplicatesNotRuleMessages();
    match Check(UserAbility(UserStoreRoute), ctx.granted, UserRules(UserStoreRoute), input, ctx.isEmail)
    case Denied => Step(Forbidden, db)
    case Rejected(errors) => Step(Invalid(errors), db)
    case Accepted(data) =>
      ValidatedUserFields(input, data);
      if !caps.create then Step(Forbidden, db) else Insert(ctx, db, data)
  }

  /** The body of `store` once the request is authorized and valid: the name is
      checked, then the e-mail, then the row and its roles are written. A name
      or password that is not text gets through the checks and fails in
      `User::create`. */
  function Insert(ctx: Ctx, db: Db, data: Input): (r: Step<Body>)
    requires "email" in data && data["email"].Str? && "roles" in data && data["roles"].Arr?
    ensures r.db != db ==> r.response.Created?
    ensures r.response.ServerError? || r.response.Created?
      || r.response == Invalid(Duplicate("name", NameUsed)) || r.response == Invalid(Duplicate("email", EmailUsed))
    ensures r.response == Invalid(Duplicate("name", NameUsed)) <==> UserNameFound(db.users, data)
    ensures r.response == Invalid(Duplicate("email", EmailUsed)) <==>
      !UserNameFound(db.users, data) && EmailTaken(db.users, data["email"].s)
    ensures r.response.Created? <==>
      !UserNameFound(db.users, data) && !EmailTaken(db.users, data["email"].s)
      && TextField(data, "name").Some? && !PasswordIsList(data)
    ensures r.response.Created? ==>
      var id := db.nextUser;
      && r.response.body == Resource(id, User(TextField(data, "name").value, data["email"].s, PasswordOf(data), None, ctx.now, ctx.now))
      && r.db == db.(users := db.users[id := r.response.body.row], nextUser := id + 1, userRoles := r.db.userRoles)
      && Related(r.db.userRoles, id) == Related(db.userRoles, id) + IdsOf(data["roles"].items) * db.roles.Keys
      && (forall e: (Id, Id) :: e.0 != id ==> (e in r.db.userRoles <==> e in db.userRoles))
  {
    DuplicatesNotRuleMessages();
    var email := data["email"].s;
    if UserNameFound(db.users, data) then Step(Invalid(Duplicate("name", NameUsed)), db)
    else if EmailTaken(db.users, email) then Step(Invalid(Duplicate("email", EmailUsed)), db)
    else match TextField(data, "name")
      case None => Step(ServerError, db)
      case Some(name) =>
        if PasswordIsList(data) then Step(ServerError, db)
        else
          var row := User(name, email, PasswordOf(data), None, ctx.now, ctx.now);
          var id := db.nextUser;
          var added := db.(users := db.users[id := row], nextUser := id + 1);
          Step(Created(Resource(id, row)), added.(userRoles := Attach(db.userRoles, id, IdsOf(data["roles"].items) * db.roles.Keys)))
  }

  /** A successful insert keeps the database well formed, names and e-mails unique. */
  lemma InsertPreserves(ctx: Ctx, db: Db, data: Input)
    requires "email" in data && data["email"].Str? && "roles" in data && data["roles"].Arr?
    requires Wellformed(db) && UniqueNamesEverywhere(db) && UniqueEmails(db.users)
    ensures Wellformed(Insert(ctx, db, data).db)
    ensures UniqueNamesEverywhere(Insert(ctx, db, data).db)
    ensures UniqueEmails(Insert(ctx, db, data).db.users)
  {
    var r := Insert(ctx, db, data);
    if r.response.Created? {
      var id := db.nextUser;
      AddUserWellformed(db, r.response.body.row);
      forall e | e in r.db.userRoles
        ensures e.0 < r.db.nextUser && e.1 in r.db.roles
      {
        if e.0 != id {
          assert e in db.userRoles;
        } else {
          assert e.1 in Related(r.db.userRoles, id);
        }
      }
    }
  }

  /** The form payload of `show` and `edit`: the user, its role ids, and every role. */
  function Form(caps: Caps, kind: FormKind, db: Db, id: Id): (b: Body)
    requires id in db.users
    ensures b.FormPage? && b.form.Some? && b.catalog == db.roles
    ensures b.form.value.0 == id && b.form.value.1 == db.users[id]
    ensures forall role :: role in b.form.value.2 <==> (id, role) in db.userRoles
  {
    FormPage(caps, kind, Some((id, db.users[id], Related(db.userRoles, id))), db.roles)
  }

  function Show(caps: Caps, db: Db, id: Id): (r: Step<Body>)
    ensures r.db == db
    ensures id !in db.users ==> r.response == NotFound
    ensures id in db.users ==> r.response == (if caps.view then Ok(Form(caps, ShowForm, db, id)) else Forbidden)
  {
    if id !in db.users then Step(NotFound, db)
    else if !caps.view then Step(Forbidden, db)
    else Step(Ok(Form(caps, ShowForm, db, id)), db)
  }

  function Edit(caps: Caps, db: Db, id: Id): (r: Step<Body>)
    ensures r.db == db
    ensures id !in db.users ==> r.response == NotFound
    ensures id in db.users ==> r.response == (if caps.update then Ok(Form(caps, EditForm, db, id)) else Forbidden)
  {
    if id !in db.users then Step(NotFound, db)
    else if !caps.update then Step(Forbidden, db)
    else Step(Ok(Form(caps, EditForm, db, id)), db)
  }

  /** The account after `$user->update($data)`: the sent fields replace the stored ones. */
  function Revised(old_: User, name: string, data: Input, now: Stamp): (u: User)
    ensures u.name == name && u.updatedAt == now && u.createdAt == old_.createdAt
    ensures u.emailVerifiedAt == old_.emailVerifiedAt
    ensures u.email == (if TextField(data, "email").Some? then TextField(data, "email").value else old_.email)
    ensures u.password == (if PasswordOf(data).Some? then PasswordOf(data) else old_.password)
  {
    old_.(name := name,
          email := if TextField(data, "email").Some? then TextField(data, "email").value else old_.email,
          password := if PasswordOf(data).Some? then PasswordOf(data) else old_.password,
          updatedAt := now)
  }

  /** The body of `update` once `UserRequest` has accepted `data`. */
  function Apply(caps: Caps, ctx: Ctx, db: Db, id: Id, data: Input): (r: Step<Body>)
    requires id in db.users
    ensures r.db != db ==> r.response.Ok?
    ensures !caps.update ==> r == Step(Forbidden, db)
    ensures caps.update && !UserNameFoundByOther(db.users, data, id) && TextField(data, "name").None? ==>
      r == Step(ServerError, db)
    ensures r.response == Invalid(Duplicate("name", NameUsed)) <==>
      caps.update && UserNameFoundByOther(db.users, data, id)
    ensures r.response.Ok? <==>
      caps.update && !UserNameFoundByOther(db.users, data, id)
      && TextField(data, "name").Some? && !PasswordIsList(data)
    ensures r.response.Ok? ==>
      var row := Revised(db.users[id], TextField(data, "name").value, data, ctx.now);
      r == Step(Ok(Resource(id, row)), db.(users := db.users[id := row]))
    ensures r.response.Forbidden? || r.response.ServerError? || r.response.Ok? || r.response == Invalid(Duplicate("name", NameUsed))
  {
    if !caps.update then Step(Forbidden, db)
    else if UserNameFoundByOther(db.users, data, id) then Step(Invalid(Duplicate("name", NameUsed)), db)
    else match TextField(data, "name")
      case None => Step(ServerError, db)
      case Some(name) =>
        if PasswordIsList(data) then Step(ServerError, db)
        else
          // `users` is never among the validated fields, so the role sync is skipped
          var row := Revised(db.users[id], name, data, ctx.now);
          Step(Ok(Resource(id, row)), db.(users := db.users[id := row]))
  }

  /** What the handler reads of the validated data is what was sent. */
  lemma ValidatedUserFields(input: Input, data: Input)
    requires data.Keys == input.Keys * {"name", "email", "password", "roles"}
    requires forall k :: k in data ==> data[k] == input[k]
    ensures TextField(data, "name") == TextField(input, "name")
    ensures NameKey(data) == NameKey(input)
    ensures TextField(data, "email") == TextField(input, "email")
    ensures PasswordOf(data) == PasswordOf(input)
    ensures PasswordIsList(data) == PasswordIsList(input)
    ensures "roles" in data <==> "roles" in input
    ensures "roles" in data ==> data["roles"] == input["roles"]
    ensures "email" in data <==> "email" in input
    ensures "email" in data ==> data["email"] == input["email"]
    ensures Given(data, "users").None?
  {
  }

  /** `update`. */
  function Update(caps: Caps, ctx: Ctx, db: Db, id: Id, input: Input): (r: Step<Body>)
    ensures id !in db.users ==> r == Step(NotFound, db)
    ensures r.db != db ==> r.response.Ok?
    ensures id in db.users ==>
      (r.response.Forbidden? <==> Gates.update !in ctx.granted || (AdmissibleUpdate(ctx, input) && !caps.update))
    ensures id in db.users && Gates.update in ctx.granted && !AdmissibleUpdate(ctx, input) ==>
      r == Step(Invalid(Validate(UserRules(UpdateRoute), input, ctx.isEmail)), db)
    ensures (id in db.users && AdmissibleUpdate(ctx, input) && caps.update
             && !UserNameFoundByOther(db.users, input, id) && TextField(input, "name").None?) ==>
      r == Step(ServerError, db)
    ensures id in db.users ==>
      (r.response == Invalid(Duplicate("name", NameUsed)) <==>
        AdmissibleUpdate(ctx, input) && caps.update && UserNameFoundByOther(db.users, input, id))
    ensures r.response.Ok? <==>
      id in db.users && AdmissibleUpdate(ctx, input) && caps.update
      && !UserNameFoundByOther(db.users, input, id)
      && TextField(input, "name").Some? && !PasswordIsList(input)
    ensures r.response.Ok? ==>
      var row := Revised(db.users[id], TextField(input, "name").value, input, ctx.now);
      && r.response.body == Resource(id, row)
      && r.db == db.(users := db.users[id := row])
  {
    UserUpdateRulesMeaning(UpdateRoute, input, ctx.isEmail);
    UserValidatedFields(UpdateRoute);
    DuplicatesNotRuleMessages();
    if id !in db.users then Step(NotFound, db)
    else match Check(UserAbility(UpdateRoute), ctx.granted, UserRules(UpdateRoute), input, ctx.isEmail)
    case Denied => Step(Forbidden, db)
    case Rejected(errors) => Step(Invalid(errors), db)
    case Accepted(data) =>
      ValidatedUserFields(input, data);
      Apply(caps, ctx, db, id, data)
  }

  /** As written, an accepted update never changes the user's roles: the sync
      waits for a `users` field the request never validates, so the role list
      the form sends is dropped. */
  lemma UpdateIgnoresSentRoles(caps: Caps, ctx: Ctx, db: Db, id: Id, input: Input)
    requires Update(caps, ctx, db, id, input).response.Ok? && "roles" in input
    ensures input["roles"].Arr?
    ensures Update(caps, ctx, db, id, input).db.userRoles == db.userRoles
    ensures Related(Update(caps, ctx, db, id, input).db.userRoles, id) == Related(db.userRoles, id)
  {
  }

  /** `update` as evidently intended: the same checks and row write, and when
      a role list was sent, the user's roles become exactly the stored roles it
      names (`syncRoles($data['roles'])`). */
  function UpdateSyncingRoles(caps: Caps, ctx: Ctx, db: Db, id: Id, input: Input): (r: Step<Body>)
    ensures r.response == Update(caps, ctx, db, id, input).response
    ensures r.db.users == Update(caps, ctx, db, id, input).db.users
    ensures r.response.Ok? && "roles" in input ==>
      && input["roles"].Arr?
      && Related(r.db.userRoles, id) == IdsOf(input["roles"].items) * db.roles.Keys
      && (forall e: (Id, Id) :: e.0 != id ==> (e in r.db.userRoles <==> e in db.userRoles))
    ensures !(r.response.Ok? && "roles" in input) ==> r == Update(caps, ctx, db, id, input)
  {
    var step := Update(caps, ctx, db, id, input);
    if step.response.Ok? && "roles" in input then
      assert input["roles"].Arr?;
      step.(db := step.db.(userRoles := Sync(db.userRoles, id, IdsOf(input["roles"].items) * db.roles.Keys)))
    else step
  }

  /** The corrected update keeps the database well formed. */
  lemma UpdateSyncingRolesPreserves(caps: Caps, ctx: Ctx, db: Db, id: Id, input: Input)
    requires Wellformed(db)
    ensures Wellformed(UpdateSyncingRoles(caps, ctx, db, id, input).db)
  {
    var r := UpdateSyncingRoles(caps, ctx, db, id, input);
    if r.response.Ok? && "roles" in input {
      assert id in db.users;
      forall e | e in r.db.userRoles
        ensures e.0 < r.db.nextUser && e.1 in r.db.roles
      {
        if e.0 == id {
          assert e.1 in Related(r.db.userRoles, id);
        }
      }
    }
  }

  /** `destroy`: an Eloquent delete, so the user's role links go with the row. */
  function Destroy(caps: Caps, db: Db, id: Id): (r: Step<Body>)
    ensures id !in db.users ==> r == Step(NotFound, db)
    ensures id in db.users && !caps.delete ==> r == Step(Forbidden, db)
    ensures id in db.users && caps.delete ==>
      && r.response == Ok(Removed(true))
      && r.db.users.Keys == db.users.Keys - {id}
      && (forall e :: e in r.db.userRoles <==> e in db.userRoles && e.0 != id)
      && r.db == DeleteUser(db, id)
  {
    if id !in db.users then Step(NotFound, db)
    else if !caps.delete then Step(Forbidden, db)
    else Step(Ok(Removed(true)), DeleteUser(db, id))
  }

  /** `destroys`: one query-builder delete, so the deleted users' role links stay. */
  function Destroys(caps: Caps, ctx: Ctx, db: Db, input: Input): (r: Step<Body>)
    ensures !caps.delete ==> r == Step(Forbidden, db)
    ensures caps.delete && !("ids" in input && input["ids"].Arr? && |input["ids"].items| > 0) ==>
      r.db == db && r.response.Unprocessable?
    ensures caps.delete && "ids" in input && input["ids"].Arr? && |input["ids"].items| > 0 ==>
      var ids := IdsOf(input["ids"].items);
      && r.response == Ok(Removed(ids * db.users.Keys != {}))
      && r.db.users.Keys == db.users.Keys - ids
      && r.db.userRoles == db.userRoles
      && r.db == DeleteUsers(db, ids)
  {
    BulkRulesMeaning(input, ctx.isEmail);
    if !caps.delete then Step(Forbidden, db)
    else
      var errors := Validate(BulkRules, input, ctx.isEmail);
      if errors != map[] then Step(Unprocessable(errors), db)
      else
        var ids := IdsOf(input["ids"].items);
        Step(Ok(Removed(ids * db.users.Keys != {})), DeleteUsers(db, ids))
  }

  function Datatables(caps: Caps, db: Db): (r: Step<Body>)
    ensures r.db == db
    ensures r.response == (if caps.list then Ok(Rows(db.users)) else Forbidden)
  {
    if !caps.list then Step(Forbidden, db) else Step(Ok(Rows(db.users)), db)
  }

  // ----- the controller as a whole -----

  datatype Action =
    | GetIndex
    | GetCreate
    | PostStore(input: Input)
    | GetShow(id: Id)
    | GetEdit(id: Id)
    | PutUpdate(id: Id, input: Input)
    | DeleteOne(id: Id)
    | DeleteMany(input: Input)
    | PostDatatables

  function CapsOf(ctx: Ctx): (c: Caps)
    ensures c.list <==> "User Lists" in ctx.granted
    ensures c.view <==> "User Views" in ctx.granted
    ensures c.create <==> "User Creates" in ctx.granted
    ensures c.update <==> "User Updates" in ctx.granted
    ensures c.delete <==> "User Deletes" in ctx.granted
  {
    Resolve(ctx.granted, Gates)
  }

  function Guard(caps: Caps, a: Action): bool
  {
    match a
    case GetIndex => caps.list
    case PostDatatables => caps.list
    case GetCreate => caps.create
    case PostStore(_) => caps.create
    case GetShow(_) => caps.view
    case GetEdit(_) => caps.update
    case PutUpdate(_, _) => caps.update
    case DeleteOne(_) => caps.delete
    case DeleteMany(_) => caps.delete
  }

  /** The controller's routes: each action goes to its handler with the
      booleans the constructor computed and the payload as the global
      middleware left it. Pages and listings only read, and a write happens
      only with a successful answer. */
  function Handle(ctx: Ctx, db: Db, a: Action): (r: Step<Body>)
    ensures a.GetIndex? || a.GetCreate? || a.GetShow? || a.GetEdit? || a.PostDatatables? ==> r.db == db
    ensures r.db != db ==> r.response.Created? || r.response.Ok?
  {
    var caps := CapsOf(ctx);
    match a
    case GetIndex => Index(caps, db)
    case GetCreate => CreatePage(caps, db)
    case PostStore(input) => Store(caps, ctx, db, Prepare(input))
    case GetShow(id) => Show(caps, db, id)
    case GetEdit(id) => Edit(caps, db, id)
    case PutUpdate(id, input) => Update(caps, ctx, db, id, Prepare(input))
    case DeleteOne(id) => Destroy(caps, db, id)
    case DeleteMany(input) => Destroys(caps, ctx, db, Prepare(input))
    case PostDatatables => Datatables(caps, db)
  }

  function Bound(a: Action): Option<Id>
  {
    match a
    case GetShow(id) => Some(id)
    case GetEdit(id) => Some(id)
    case PutUpdate(id, _) => Some(id)
    case DeleteOne(id) => Some(id)
    case _ => None
  }

  /** A false boolean is a refusal that writes nothing: Forbidden, unless the row
      is missing (404) or `UserRequest` rejected the payload first (400). */
  lemma DeniedChangesNothing(ctx: Ctx, db: Db, a: Action)
    requires !Guard(CapsOf(ctx), a)
    ensures Handle(ctx, db, a).db == db
    ensures Handle(ctx, db, a).response.Refused()
    ensures (Bound(a).None? || Bound(a).value in db.users) && !(a.PostStore? || a.PutUpdate?) ==>
      Handle(ctx, db, a).response == Forbidden
    ensures a.PostStore? && AdmissibleStore(ctx, Prepare(a.input)) ==> Handle(ctx, db, a).response == Forbidden
    ensures a.PutUpdate? && a.id in db.users && AdmissibleUpdate(ctx, Prepare(a.input)) ==> Handle(ctx, db, a).response == Forbidden
  {
  }

  /** The account store writes, read off the request: the name, e-mail and
      password as sent (no password when none was sent), not verified, and
      stamped with the clock. */
  lemma StoreWritesSentFields(caps: Caps, ctx: Ctx, db: Db, input: Input)
    requires Store(caps, ctx, db, input).response.Created?
    ensures var u := Store(caps, ctx, db, input).db.users[db.nextUser];
      && input["name"] == Str(u.name)
      && input["email"] == Str(u.email)
      && ("password" in input ==> u.password.Some? && input["password"] == Str(u.password.value.plain))
      && ("password" !in input ==> u.password.None?)
      && u.emailVerifiedAt.None? && u.createdAt == ctx.now && u.updatedAt == ctx.now
  {
  }

  /** The account update writes, read off the request: each field sent
      replaces the stored one as it was sent, each field left out keeps its
      value, and nothing else about the user changes but the update stamp. */
  lemma UpdateWritesSentFields(caps: Caps, ctx: Ctx, db: Db, id: Id, input: Input)
    requires Update(caps, ctx, db, id, input).response.Ok?
    ensures var r := Update(caps, ctx, db, id, input);
      && id in db.users && r.db.users.Keys == db.users.Keys
      && input["name"] == Str(r.db.users[id].name)
      && ("email" in input ==> input["email"] == Str(r.db.users[id].email))
      && ("email" !in input ==> r.db.users[id].email == db.users[id].email)
      && ("password" in input ==>
            r.db.users[id].password.Some? && input["password"] == Str(r.db.users[id].password.value.plain))
      && ("password" !in input ==> r.db.users[id].password == db.users[id].password)
      && r.db.users[id].emailVerifiedAt == db.users[id].emailVerifiedAt
      && r.db.users[id].createdAt == db.users[id].createdAt && r.db.users[id].updatedAt == ctx.now
      && (forall u :: u in db.users && u != id ==> r.db.users[u] == db.users[u])
      && r.db.userRoles == db.userRoles
  {
  }

  /** A name sent as a one-element list passes the name rules; both duplicate
      queries still run, the name one on the list's element, and only then
      does `User::create` fail on the list. */
  lemma ListNameChecked(ctx: Ctx, db: Db, input: Input, name: string)
    requires "name" in input && input["name"] == Arr([Str(name)])
    requires AdmissibleStore(ctx, input) && CapsOf(ctx).create
    ensures Store(CapsOf(ctx), ctx, db, input).response ==
      if UserNameTaken(db.users, name) then Invalid(Duplicate("name", NameUsed))
      else if EmailTaken(db.users, input["email"].s) then Invalid(Duplicate("email", EmailUsed))
      else ServerError
  {
    WhereKeyOfList(Str(name), []);
    assert [Str(name)] + [] == [Str(name)];
    assert NameKey(input) == Some(name) && TextField(input, "name").None?;
    DuplicatesNotRuleMessages();
  }

  /** When both the name and the e-mail are taken, the error names the name. */
  lemma NameCheckedBeforeEmail(ctx: Ctx, db: Db, input: Input)
    requires AdmissibleStore(ctx, Prepare(input)) && CapsOf(ctx).create
    requires UserNameFound(db.users, Prepare(input)) && EmailTaken(db.users, Prepare(input)["email"].s)
    ensures Handle(ctx, db, PostStore(input)) == Step(Invalid(Duplicate("name", NameUsed)), db)
  {
  }

  /** Only store and the single delete touch the role links: store adds the new
      user's, `destroy` removes the user's; update and the bulk delete never
      change them. */
  lemma RolesChangeOnlyByStoreOrDelete(ctx: Ctx, db: Db, a: Action)
    requires Wellformed(db)
    ensures !(a.PostStore? || a.DeleteOne?) ==> Handle(ctx, db, a).db.userRoles == db.userRoles
    ensures a.PostStore? ==> forall u :: u in db.users ==> Related(Handle(ctx, db, a).db.userRoles, u) == Related(db.userRoles, u)
  {
    if a.PostStore? {
      var r := Handle(ctx, db, a);
      forall u | u in db.users
        ensures Related(r.db.userRoles, u) == Related(db.userRoles, u)
      {
        if r.response.Created? {
          assert u != db.nextUser;
          assert forall e: (Id, Id) :: e.0 == u ==> (e in r.db.userRoles <==> e in db.userRoles);
        }
      }
    }
  }

  lemma StorePreserves(ctx: Ctx, db: Db, input: Input)
    requires Wellformed(db) && UniqueNamesEverywhere(db) && UniqueEmails(db.users)
    ensures Wellformed(Store(CapsOf(ctx), ctx, db, input).db)
    ensures UniqueNamesEverywhere(Store(CapsOf(ctx), ctx, db, input).db)
    ensures UniqueEmails(Store(CapsOf(ctx), ctx, db, input).db.users)
  {
    UserStoreRulesMeaning(input, ctx.isEmail);
    UserValidatedFields(UserStoreRoute);
    match Check(UserAbility(UserStoreRoute), ctx.granted, UserRules(UserStoreRoute), input, ctx.isEmail)
    case Accepted(data) =>
      ValidatedUserFields(input, data);
      if CapsOf(ctx).create {
        InsertPreserves(ctx, db, data);
      }
    case _ =>
  }

  /** Update keeps the database well formed and user names unique. */
  lemma UpdatePreserves(ctx: Ctx, db: Db, id: Id, input: Input)
    requires Wellformed(db) && UniqueNamesEverywhere(db)
    ensures Wellformed(Update(CapsOf(ctx), ctx, db, id, input).db)
    ensures UniqueNamesEverywhere(Update(CapsOf(ctx), ctx, db, id, input).db)
  {
    var r := Update(CapsOf(ctx), ctx, db, id, input);
    if r.response.Ok? {
      assert r.db.users.Keys == db.users.Keys;
    }
  }

  /** Every handler keeps the database well formed and user names unique. */
  lemma HandlePreserves(ctx: Ctx, db: Db, a: Action)
    requires Wellformed(db) && UniqueNamesEverywhere(db) && UniqueEmails(db.users)
    ensures Wellformed(Handle(ctx, db, a).db) && UniqueNamesEverywhere(Handle(ctx, db, a).db)
    ensures !a.PutUpdate? ==> UniqueEmails(Handle(ctx, db, a).db.users)
  {
    match a
    case PostStore(input) => StorePreserves(ctx, db, Prepare(input));
    case PutUpdate(id, input) => UpdatePreserves(ctx, db, id, Prepare(input));
    case DeleteOne(id) => DeleteUserPreserves(db, id);
    case DeleteMany(input) =>
      var data := Prepare(input);
      if "ids" in data && data["ids"].Arr? {
        DeleteUsersPreserves(db, IdsOf(data["ids"].items));
      }
    case GetIndex =>
    case GetCreate =>
    case GetShow(_) =>
    case GetEdit(_) =>
    case PostDatatables =>
  }

  /** An empty password reaches the request as null, which `min:8` refuses:
      the store, and the update of any existing user, answer 400 with a bag
      naming the password, and write nothing. */
  lemma EmptyPasswordRefused(ctx: Ctx, db: Db, id: Id, input: Input)
    requires "password" in input && input["password"] == Str("")
    requires Gates.update in ctx.granted
    ensures var r := Handle(ctx, db, PostStore(input));
      r.db == db && r.response.Invalid? && "password" in r.response.errors
    ensures id in db.users ==> var r := Handle(ctx, db, PutUpdate(id, input));
      r.db == db && r.response.Invalid? && "password" in r.response.errors
  {
    var data := Prepare(input);
    HandleWrites(ctx, db, id, input);
    assert data["password"] == Null;
    assert !PasswordOk(Lookup(data, "password"));
    PasswordInBag(UserStoreRoute, data, ctx.isEmail);
    PasswordInBag(UpdateRoute, data, ctx.isEmail);
  }

  /** Store and update receive the payload as the middleware left it. */
  lemma HandleWrites(ctx: Ctx, db: Db, id: Id, input: Input)
    ensures Handle(ctx, db, PostStore(input)) == Store(CapsOf(ctx), ctx, db, Prepare(input))
    ensures Handle(ctx, db, PutUpdate(id, input)) == Update(CapsOf(ctx), ctx, db, id, Prepare(input))
  {
  }

  /** The validator's bag for a null password names the password, on every route. */
  lemma PasswordInBag(route: string, data: Input, isEmail: string -> bool)
    requires "password" in data && data["password"] == Null
    ensures "password" in Validate(UserRules(route), data, isEmail)
  {
    var rs := UserRules(route);
    UserValidatedFields(route);
    assert rs[2].0 == Field("password");
    assert rs[2].1 == [Min(8)] || rs[2].1 == [Sometimes, Min(8)];
    PasswordRulesMeaning(Lookup(data, "password"), isEmail);
    ErrorKeysInBag(rs, 2, data, isEmail);
  }

  /** A role sent as blank text reaches the request as null, which `numeric`
      refuses: the store, and the update of any existing user, answer 400 and
      write nothing. */
  lemma BlankRoleRefused(ctx: Ctx, db: Db, id: Id, input: Input, j: nat)
    requires "roles" in input && input["roles"].Arr? && j < |input["roles"].items|
    requires input["roles"].items[j].Str? && IsBlank(input["roles"].items[j].s)
    requires Gates.update in ctx.granted
    ensures var r := Handle(ctx, db, PostStore(input));
      r.db == db && r.response.Invalid?
    ensures id in db.users ==> var r := Handle(ctx, db, PutUpdate(id, input));
      r.db == db && r.response.Invalid?
  {
    var data := Prepare(input);
    HandleWrites(ctx, db, id, input);
    assert data["roles"].items[j] == Null;
    assert !RoleItemsOk(Lookup(data, "roles"));
  }

  /** Every stored password is text that was sent with at least one character:
      an empty one never reaches the store. */
  lemma StoredPasswordNotEmpty(ctx: Ctx, db: Db, input: Input)
    requires Handle(ctx, db, PostStore(input)).response.Created?
    ensures var u := Handle(ctx, db, PostStore(input)).db.users[db.nextUser];
      u.password.None? || u.password.value.plain != ""
  {
    var data := Prepare(input);
    StoreWritesSentFields(CapsOf(ctx), ctx, db, data);
    if "password" in data {
      assert Settled(data["password"], "password" !in Untrimmed);
    }
  }

  /** The name is trimmed before the duplicate queries: a taken name sent
      with blank runs around it is refused as a duplicate, and nothing is written. */
  lemma PaddedNameIsDuplicate(ctx: Ctx, db: Db, input: Input, lead: string, name: string, trail: string)
    requires "name" in input && input["name"] == Str(lead + name + trail)
    requires IsBlank(lead) && IsBlank(trail) && NoPadding(name)
    requires UserNameTaken(db.users, name)
    requires AdmissibleStore(ctx, Prepare(input)) && CapsOf(ctx).create
    ensures Handle(ctx, db, PostStore(input)) == Step(Invalid(Duplicate("name", NameUsed)), db)
  {
    HandleWrites(ctx, db, 0, input);
    PreparedText(input, "name", lead, name, trail);
    assert UserNameFound(db.users, Prepare(input));
  }

  /** Update does not re-check the e-mail: it can give two accounts the same address. */
  lemma UpdateCanDuplicateEmail(ctx: Ctx, db: Db, id: Id, other: Id, input: Input)
    requires id in db.users && other in db.users && id != other && UniqueUserNames(db.users)
    requires AdmissibleUpdate(ctx, Prepare(input)) && CapsOf(ctx).update && !PasswordIsList(Prepare(input))
    requires TextField(Prepare(input), "name") == Some(db.users[id].name)
    requires TextField(Prepare(input), "email") == Some(db.users[other].email)
    ensures Handle(ctx, db, PutUpdate(id, input)).response.Ok?
    ensures Handle(ctx, db, PutUpdate(id, input)).db.users[id].email == db.users[other].email
    ensures Handle(ctx, db, PutUpdate(id, input)).db.users[other] == db.users[other]
  {
  }
}
