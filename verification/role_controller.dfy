/** `RoleController`: the role catalogue. Its capability record asks about
    ability names of its own ("List roles", ...), which differ from the
    "Role Lists" style names the permission seeder creates; writes go through
    `RoleRequest` and never touch a role's permissions. */
module RoleController {
  import opened Common
  import opened Database
  import opened Gate
  import opened Http
  import opened Validation
  import opened Requests
  import opened Middleware

  const Gates := GateNames("List roles", "View role", "Create role", "Update role", "Delete role")

  const NameUsed := "Role name has been used"

  const StoreRoute := "role.store"
  const UpdateRoute := "role.update"

  datatype Body =
    | ListPage(caps: Caps, roles: map<Id, Entry>)            // the RoleList page with `role_data`
    | FormPage(caps: Caps, kind: FormKind, role: Option<(Id, Entry)>) // the RoleForm page
    | Resource(id: Id, row: Entry)                            // a RoleResource
    | Removed(any: bool)

  /** `RoleRequest` asks for "Role Updates" on both routes that use it. */
  lemma RequestAbility()
    ensures RoleAbility(StoreRoute) == "Role Updates"
    ensures RoleAbility(UpdateRoute) == "Role Updates"
  {
  }

  /** A payload `RoleRequest` lets through. */
  predicate Admissible(ctx: Ctx, input: Input)
  {
    "Role Updates" in ctx.granted && NameOk(Lookup(input, "name")) && AssociationOk(Lookup(input, "permissions"))
  }

  /** `index`: the list page with every role, behind `list`. */
  function Index(caps: Caps, db: Db): (r: Step<Body>)
    ensures r.db == db
    ensures r.response == (if caps.list then Ok(ListPage(caps, db.roles)) else Forbidden)
  {
    if !caps.list then Step(Forbidden, db) else Step(Ok(ListPage(caps, db.roles)), db)
  }

  /** `create`: the empty form, behind `create`. */
  function CreatePage(caps: Caps, db: Db): (r: Step<Body>)
    ensures r.db == db
    ensures r.response == (if caps.create then Ok(FormPage(caps, CreateForm, None)) else Forbidden)
  {
    if !caps.create then Step(Forbidden, db) else Step(Ok(FormPage(caps, CreateForm, None)), db)
  }

  /** `store`: a new role with the given name, and no permissions. */
  function Store(caps: Caps, ctx: Ctx, db: Db, input: Input): (r: Step<Body>)
    ensures r.db != db ==> r.response.Created?
    ensures r.response.Forbidden? <==> "Role Updates" !in ctx.granted || (Admissible(ctx, input) && !caps.create)
    ensures "Role Updates" in ctx.granted && !Admissible(ctx, input) ==>
      r == Step(Invalid(Validate(RoleRules, input, ctx.isEmail)), db)
    ensures r.response == Invalid(Duplicate("name", NameUsed)) <==>
      Admissible(ctx, input) && caps.create && NameFound(db.roles, input)
    ensures r.response.ServerError? <==>
      Admissible(ctx, input) && caps.create && !NameFound(db.roles, input) && TextField(input, "name").None?
    ensures r.response.Created? <==>
      Admissible(ctx, input) && caps.create && !NameFound(db.roles, input) && TextField(input, "name").Some?
    ensures r.response.Created? ==>
      var id := db.nextRole;
      && r.response.body == Resource(id, Entry(TextField(input, "name").value, ctx.now, ctx.now))
      && r.db == db.(roles := db.roles[id := r.response.body.row], nextRole := id + 1)
  {
    RoleRulesMeaningAlias(input, ctx.isEmail);
    DuplicateNotRuleMessages("name", NameUsed);
    match Check(RoleAbility(StoreRoute), ctx.granted, RoleRules, input, ctx.isEmail)
    case Denied => Step(Forbidden, db)
    case Rejected(errors) => Step(Invalid(errors), db)
    case Accepted(data) =>
      NamedEntityData(input, data);
      if !caps.create then Step(Forbidden, db)
      else if NameFound(db.roles, data) then Step(Invalid(Duplicate("name", NameUsed)), db)
      else match TextField(data, "name")
        case None => Step(ServerError, db)
        case Some(name) =>
          var (added, id) := AddRole(db, Entry(name, ctx.now, ctx.now));
          Step(Created(Resource(id, Entry(name, ctx.now, ctx.now))), added)
  }

  lemma RoleRulesMeaningAlias(input: Input, isEmail: string -> bool)
    ensures Passes(RoleRules, input, isEmail) <==>
      NameOk(Lookup(input, "name")) && AssociationOk(Lookup(input, "permissions"))
    ensures FieldNames(RoleRules) == {"name", "permissions"}
  {
    PermissionRulesMeaning(input, isEmail);
    NamedEntityFields();
  }

  /** `show`: the form in show mode, carrying the role row itself. */
  function Show(caps: Caps, db: Db, id: Id): (r: Step<Body>)
    ensures r.db == db
    ensures id !in db.roles ==> r.response == NotFound
    ensures id in db.roles ==> r.response == (if caps.view then Ok(FormPage(caps, ShowForm, Some((id, db.roles[id])))) else Forbidden)
  {
    if id !in db.roles then Step(NotFound, db)
    else if !caps.view then Step(Forbidden, db)
    else Step(Ok(FormPage(caps, ShowForm, Some((id, db.roles[id])))), db)
  }

  /** `edit`: as `show`, behind `update`. */
  function Edit(caps: Caps, db: Db, id: Id): (r: Step<Body>)
    ensures r.db == db
    ensures id !in db.roles ==> r.response == NotFound
    ensures id in db.roles ==> r.response == (if caps.update then Ok(FormPage(caps, EditForm, Some((id, db.roles[id])))) else Forbidden)
  {
    if id !in db.roles then Step(NotFound, db)
    else if !caps.update then Step(Forbidden, db)
    else Step(Ok(FormPage(caps, EditForm, Some((id, db.roles[id])))), db)
  }

  /** `update`: renames the role; its permissions stay as they are. */
  function Update(caps: Caps, ctx: Ctx, db: Db, id: Id, input: Input): (r: Step<Body>)
    ensures id !in db.roles ==> r == Step(NotFound, db)
    ensures r.db != db ==> r.response.Ok?
    ensures id in db.roles ==>
      (r.response.Forbidden? <==> "Role Updates" !in ctx.granted || (Admissible(ctx, input) && !caps.update))
    ensures id in db.roles && "Role Updates" in ctx.granted && !Admissible(ctx, input) ==>
      r == Step(Invalid(Validate(RoleRules, input, ctx.isEmail)), db)
    ensures id in db.roles ==>
      (r.response == Invalid(Duplicate("name", NameUsed)) <==>
        Admissible(ctx, input) && caps.update && NameFoundByOther(db.roles, input, id))
    ensures id in db.roles ==>
      (r.response.ServerError? <==>
        Admissible(ctx, input) && caps.update && !NameFoundByOther(db.roles, input, id) && TextField(input, "name").None?)
    ensures r.response.Ok? <==>
      id in db.roles && Admissible(ctx, input) && caps.update
      && !NameFoundByOther(db.roles, input, id) && TextField(input, "name").Some?
    ensures r.response.Ok? ==>
      var row := db.roles[id].(name := TextField(input, "name").value, updatedAt := ctx.now);
      && r.response.body == Resource(id, row)
      && r.db == db.(roles := db.roles[id := row])
  {
    RoleRulesMeaningAlias(input, ctx.isEmail);
    DuplicateNotRuleMessages("name", NameUsed);
    if id !in db.roles then Step(NotFound, db)
    else match Check(RoleAbility(UpdateRoute), ctx.granted, RoleRules, input, ctx.isEmail)
    case Denied => Step(Forbidden, db)
    case Rejected(errors) => Step(Invalid(errors), db)
    case Accepted(data) =>
      NamedEntityData(input, data);
      if !caps.update then Step(Forbidden, db)
      else if NameFoundByOther(db.roles, data, id) then Step(Invalid(Duplicate("name", NameUsed)), db)
      else match TextField(data, "name")
        case None => Step(ServerError, db)
        case Some(name) =>
          var row := db.roles[id].(name := name, updatedAt := ctx.now);
          Step(Ok(Resource(id, row)), db.(roles := db.roles[id := row]))
  }

  /** `destroy`: deletes the bound role with its edges. */
  function Destroy(caps: Caps, db: Db, id: Id): (r: Step<Body>)
    ensures id !in db.roles ==> r == Step(NotFound, db)
    ensures id in db.roles && !caps.delete ==> r == Step(Forbidden, db)
    ensures id in db.roles && caps.delete ==>
      && r.response == Ok(Removed(true))
      && r.db.roles.Keys == db.roles.Keys - {id}
      && r.db == DeleteRoles(db, {id})
  {
    if id !in db.roles then Step(NotFound, db)
    else if !caps.delete then Step(Forbidden, db)
    else Step(Ok(Removed(true)), DeleteRoles(db, {id}))
  }

  /** `destroys`: deletes every listed role; ids naming no role are skipped. */
  function Destroys(caps: Caps, ctx: Ctx, db: Db, input: Input): (r: Step<Body>)
    ensures !caps.delete ==> r == Step(Forbidden, db)
    ensures caps.delete && !("ids" in input && input["ids"].Arr? && |input["ids"].items| > 0) ==>
      r.db == db && r.response.Unprocessable?
    ensures caps.delete && "ids" in input && input["ids"].Arr? && |input["ids"].items| > 0 ==>
      var ids := IdsOf(input["ids"].items);
      && r.response == Ok(Removed(ids * db.roles.Keys != {}))
      && r.db.roles.Keys == db.roles.Keys - ids
      && r.db == DeleteRoles(db, ids)
  {
    BulkRulesMeaning(input, ctx.isEmail);
    if !caps.delete then Step(Forbidden, db)
    else
      var errors := Validate(BulkRules, input, ctx.isEmail);
      if errors != map[] then Step(Unprocessable(errors), db)
      else
        var ids := IdsOf(input["ids"].items);
        Step(Ok(Removed(ids * db.roles.Keys != {})), DeleteRoles(db, ids))
  }

  // ----- the controller as a whole -----

  datatype Action =
    | GetIndex
    | GetCreate
    | PostStore(input: Input)
    | GetShow(id: Id)
    | GetEdit(id: Id)
    | PutUpdate(id: Id, input: Input)
    | DeleteOne(id: Id)
    | DeleteMany(input: Input)

  function CapsOf(ctx: Ctx): (c: Caps)
    ensures c.list <==> "List roles" in ctx.granted
    ensures c.view <==> "View role" in ctx.granted
    ensures c.create <==> "Create role" in ctx.granted
    ensures c.update <==> "Update role" in ctx.granted
    ensures c.delete <==> "Delete role" in ctx.granted
  {
    Resolve(ctx.granted, Gates)
  }

  function Guard(caps: Caps, a: Action): bool
  {
    match a
    case GetIndex => caps.list
    case GetCreate => caps.create
    case PostStore(_) => caps.create
    case GetShow(_) => caps.view
    case GetEdit(_) => caps.update
    case PutUpdate(_, _) => caps.update
    case DeleteOne(_) => caps.delete
    case DeleteMany(_) => caps.delete
  }

  /** The controller's routes: each action goes to its handler with the
      booleans the constructor computed and the payload as the global
      middleware left it. Pages and listings only read, and a write happens
      only with a successful answer. */
  function Handle(ctx: Ctx, db: Db, a: Action): (r: Step<Body>)
    ensures a.GetIndex? || a.GetCreate? || a.GetShow? || a.GetEdit? ==> r.db == db
    ensures r.db != db ==> r.response.Created? || r.response.Ok?
  {
    var caps := CapsOf(ctx);
    match a
    case GetIndex => Index(caps, db)
    case GetCreate => CreatePage(caps, db)
    case PostStore(input) => Store(caps, ctx, db, Prepare(input))
    case GetShow(id) => Show(caps, db, id)
    case GetEdit(id) => Edit(caps, db, id)
    case PutUpdate(id, input) => Update(caps, ctx, db, id, Prepare(input))
    case DeleteOne(id) => Destroy(caps, db, id)
    case DeleteMany(input) => Destroys(caps, ctx, db, Prepare(input))
  }

  function Bound(a: Action): Option<Id>
  {
    match a
    case GetShow(id) => Some(id)
    case GetEdit(id) => Some(id)
    case PutUpdate(id, _) => Some(id)
    case DeleteOne(id) => Some(id)
    case _ => None
  }

  /** A false boolean is a refusal that writes nothing: Forbidden, unless the row
      is missing (404) or `RoleRequest` rejected the payload first (400). */
  lemma DeniedChangesNothing(ctx: Ctx, db: Db, a: Action)
    requires !Guard(CapsOf(ctx), a)
    ensures Handle(ctx, db, a).db == db
    ensures Handle(ctx, db, a).response.Refused()
    ensures (Bound(a).None? || Bound(a).value in db.roles) && !(a.PostStore? || a.PutUpdate?) ==>
      Handle(ctx, db, a).response == Forbidden
    ensures (a.PostStore? || (a.PutUpdate? && a.id in db.roles)) && Admissible(ctx, Prepare(a.input)) ==>
      Handle(ctx, db, a).response == Forbidden
  {
  }

  /** No role handler adds or removes a role's permission except by deleting the role. */
  lemma RolePermissionsOnlyShrink(ctx: Ctx, db: Db, a: Action)
    ensures Handle(ctx, db, a).db.rolePermissions <= db.rolePermissions
    ensures !(a.DeleteOne? || a.DeleteMany?) ==> Handle(ctx, db, a).db.rolePermissions == db.rolePermissions
  {
  }

  lemma StorePreserves(ctx: Ctx, db: Db, input: Input)
    requires Wellformed(db) && UniqueNamesEverywhere(db)
    ensures Wellformed(Store(CapsOf(ctx), ctx, db, input).db)
    ensures UniqueNamesEverywhere(Store(CapsOf(ctx), ctx, db, input).db)
  {
    var r := Store(CapsOf(ctx), ctx, db, input);
    if r.response.Created? {
      AddRoleWellformed(db, r.response.body.row);
    }
  }

  lemma UpdatePreserves(ctx: Ctx, db: Db, id: Id, input: Input)
    requires Wellformed(db) && UniqueNamesEverywhere(db)
    ensures Wellformed(Update(CapsOf(ctx), ctx, db, id, input).db)
    ensures UniqueNamesEverywhere(Update(CapsOf(ctx), ctx, db, id, input).db)
  {
  }

  /** Every handler keeps the database well formed and the role names unique. */
  lemma HandlePreserves(ctx: Ctx, db: Db, a: Action)
    requires Wellformed(db) && UniqueNamesEverywhere(db)
    ensures Wellformed(Handle(ctx, db, a).db) && UniqueNamesEverywhere(Handle(ctx, db, a).db)
  {
    match a
    case PostStore(input) => StorePreserves(ctx, db, Prepare(input));
    case PutUpdate(id, input) => UpdatePreserves(ctx, db, id, Prepare(input));
    case DeleteOne(id) => DeleteRolesPreserves(db, {id});
    case DeleteMany(input) =>
      var data := Prepare(input);
      if "ids" in data && data["ids"].Arr? {
        DeleteRolesPreserves(db, IdsOf(data["ids"].items));
      }
    case _ =>
  }

  /** Saving a role under its own current name is not a duplicate. */
  lemma UpdateKeepsOwnName(ctx: Ctx, db: Db, id: Id, input: Input)
    requires id in db.roles && UniqueNames(db.roles)
    requires Admissible(ctx, Prepare(input)) && CapsOf(ctx).update
    requires TextField(Prepare(input), "name") == Some(db.roles[id].name)
    ensures Handle(ctx, db, PutUpdate(id, input)).response.Ok?
  {
  }
}
