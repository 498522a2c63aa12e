/** `PermissionController`: the permission catalogue behind five abilities.
    Every handler first consults the capability record built from the acting
    user's abilities; the write handlers also go through `PermissionRequest`,
    whose authorization and validation run before the handler body. */
module PermissionController {
  import opened Common
  import opened Text
  import opened Database
  import opened Gate
  import opened Http
  import opened Validation
  import opened Requests
  import opened Middleware

  /** The ability names the constructor middleware asks `can` about. */
  const Gates := GateNames("Permission Lists", "Permission Views", "Permission Creates", "Permission Updates", "Permission Deletes")

  const NameUsed := "Permission name has been used"

  const StoreRoute := "permission.store"
  const UpdateRoute := "permission.update"

  /** What a successful handler sends back. */
  datatype Body =
    | ListPage(caps: Caps)                                      // the PermissionList page
    | FormPage(caps: Caps, kind: FormKind, catalog: map<Id, Entry>) // the PermissionForm page
    | Resource(id: Id, row: Entry)                              // a PermissionResource
    | Removed(any: bool)                                        // the boolean of a delete
    | Rows(rows: map<Id, Entry>)                                // the rows handed to the table server

  /** The ability `PermissionRequest` demands on the routes that use it. */
  lemma RequestAbility()
    ensures PermissionAbility(StoreRoute) == Gates.update
    ensures PermissionAbility(UpdateRoute) == Gates.update
  {
  }

  /** A payload `PermissionRequest` lets through for an actor holding `ability`. */
  predicate Admissible(ctx: Ctx, input: Input)
  {
    Gates.update in ctx.granted && NameOk(Lookup(input, "name")) && AssociationOk(Lookup(input, "permissions"))
  }

  /** `sync($data['permissions'])` when it is set; ids naming no permission are dropped. */
  function Link(db: Db, id: Id, data: Input): (r: Db)
    ensures r.permissions == db.permissions && r.roles == db.roles && r.users == db.users
    ensures r.rolePermissions == db.rolePermissions && r.userRoles == db.userRoles
    ensures r.nextPermission == db.nextPermission && r.nextRole == db.nextRole && r.nextUser == db.nextUser
    ensures forall e: (Id, Id) :: e.0 != id ==> (e in r.permissionLinks <==> e in db.permissionLinks)
    ensures Given(data, "permissions").None? ==> r.permissionLinks == db.permissionLinks
    ensures Given(data, "permissions").Some? ==>
      Related(r.permissionLinks, id) == IdsOf(AsList(data["permissions"])) * db.permissions.Keys
  {
    match Given(data, "permissions")
    case None => db
    case Some(v) => db.(permissionLinks := Sync(db.permissionLinks, id, IdsOf(AsList(v)) * db.permissions.Keys))
  }

  /** `index`: the list page, behind `list`. */
  function Index(caps: Caps, db: Db): (r: Step<Body>)
    ensures r.db == db
    ensures r.response == (if caps.list then Ok(ListPage(caps)) else Forbidden)
  {
    if !caps.list then Step(Forbidden, db) else Step(Ok(ListPage(caps)), db)
  }

  /** `create`: the empty form with the whole catalogue, behind `create`. */
  function CreatePage(caps: Caps, db: Db): (r: Step<Body>)
    ensures r.db == db
    ensures r.response.Forbidden? <==> !caps.create
    ensures r.response.Ok? ==> r.response.body == FormPage(caps, CreateForm, db.permissions)
  {
    if !caps.create then Step(Forbidden, db) else Step(Ok(FormPage(caps, CreateForm, db.permissions)), db)
  }

  /** `store`. */
  function Store(caps: Caps, ctx: Ctx, db: Db, input: Input): (r: Step<Body>)
    ensures r.db != db ==> r.response.Created?
    ensures r.response.Forbidden? <==> Gates.update !in ctx.granted || (Admissible(ctx, input) && !caps.create)
    ensures Gates.update in ctx.granted && !Admissible(ctx, input) ==>
      r == Step(Invalid(Validate(PermissionRules, input, ctx.isEmail)), db)
    ensures r.response == Invalid(Duplicate("name", NameUsed)) <==>
      Admissible(ctx, input) && caps.create && NameFound(db.permissions, input)
    ensures r.response.ServerError? <==>
      Admissible(ctx, input) && caps.create && !NameFound(db.permissions, input) && TextField(input, "name").None?
    ensures r.response.Created? <==>
      Admissible(ctx, input) && caps.create && !NameFound(db.permissions, input) && TextField(input, "name").Some?
    ensures r.response.Created? ==>
      var id := db.nextPermission;
      && r.response.body == Resource(id, Entry(TextField(input, "name").value, ctx.now, ctx.now))
      && r.db == db.(permissions := db.permissions[id := r.response.body.row], nextPermission := id + 1,
                     permissionLinks := r.db.permissionLinks)
      && (forall e: (Id, Id) :: e.0 != id ==> (e in r.db.permissionLinks <==> e in db.permissionLinks))
      && (Given(input, "permissions").None? ==> r.db.permissionLinks == db.permissionLinks)
      && (Given(input, "permissions").Some? ==>
            Related(r.db.permissionLinks, id) == IdsOf(AsList(input["permissions"])) * r.db.permissions.Keys)
  {
    PermissionRulesMeaning(input, ctx.isEmail);
    NamedEntityFields();
    DuplicateNotRuleMessages("name", NameUsed);
    match Check(PermissionAbility(StoreRoute), ctx.granted, PermissionRules, input, ctx.isEmail)
    case Denied => Step(Forbidden, db)
    case Rejected(errors) => Step(Invalid(errors), db)
    case Accepted(data) =>
      NamedEntityData(input, data);
      if !caps.create then Step(Forbidden, db) else Insert(ctx, db, data)
  }

  /** The body of `store` once the request is authorized and valid. The
      duplicate query runs on whatever was sent; a name that is not text
      survives it only to fail in `Permission::create`. */
  function Insert(ctx: Ctx, db: Db, data: Input): (r: Step<Body>)
    ensures r.db != db ==> r.response.Created?
    ensures r.response.ServerError? || r.response == Invalid(Duplicate("name", NameUsed)) || r.response.Created?
    ensures r.response == Invalid(Duplicate("name", NameUsed)) <==> NameFound(db.permissions, data)
    ensures r.response.ServerError? <==> !NameFound(db.permissions, data) && TextField(data, "name").None?
    ensures r.response.Created? ==>
      var id := db.nextPermission;
      && TextField(data, "name").Some?
      && r.response.body == Resource(id, Entry(TextField(data, "name").value, ctx.now, ctx.now))
      && r.db == db.(permissions := db.permissions[id := r.response.body.row], nextPermission := id + 1,
                     permissionLinks := r.db.permissionLinks)
      && (forall e: (Id, Id) :: e.0 != id ==> (e in r.db.permissionLinks <==> e in db.permissionLinks))
      && (Given(data, "permissions").None? ==> r.db.permissionLinks == db.permissionLinks)
      && (Given(data, "permissions").Some? ==>
            Related(r.db.permissionLinks, id) == IdsOf(AsList(data["permissions"])) * r.db.permissions.Keys)
  {
    if NameFound(db.permissions, data) then Step(Invalid(Duplicate("name", NameUsed)), db)
    else match TextField(data, "name")
      case None => Step(ServerError, db)
      case Some(name) =>
        var (added, id) := AddPermission(db, Entry(name, ctx.now, ctx.now));
        var linked := Link(added, id, data);
        assert linked.permissions[id] == Entry(name, ctx.now, ctx.now);
        Step(Created(Resource(id, linked.permissions[id])), linked)
  }

  /** `show`: the form in show mode. The page receives the catalogue only, the
      row itself being overwritten by the second `permission_data` entry. */
  function Show(caps: Caps, db: Db, id: Id): (r: Step<Body>)
    ensures r.db == db
    ensures id !in db.permissions ==> r.response == NotFound
    ensures id in db.permissions ==> r.response == (if caps.view then Ok(FormPage(caps, ShowForm, db.permissions)) else Forbidden)
  {
    if id !in db.permissions then Step(NotFound, db)
    else if !caps.view then Step(Forbidden, db)
    else Step(Ok(FormPage(caps, ShowForm, db.permissions)), db)
  }

  /** `edit`: as `show`, behind `update`. */
  function Edit(caps: Caps, db: Db, id: Id): (r: Step<Body>)
    ensures r.db == db
    ensures id !in db.permissions ==> r.response == NotFound
    ensures id in db.permissions ==> r.response == (if caps.update then Ok(FormPage(caps, EditForm, db.permissions)) else Forbidden)
  {
    if id !in db.permissions then Step(NotFound, db)
    else if !caps.update then Step(Forbidden, db)
    else Step(Ok(FormPage(caps, EditForm, db.permissions)), db)
  }

  /** `update`. */
  function Update(caps: Caps, ctx: Ctx, db: Db, id: Id, input: Input): (r: Step<Body>)
    ensures id !in db.permissions ==> r == Step(NotFound, db)
    ensures r.db != db ==> r.response.Ok?
    ensures id in db.permissions ==>
      (r.response.Forbidden? <==> Gates.update !in ctx.granted || (Admissible(ctx, input) && !caps.update))
    ensures id in db.permissions && Gates.update in ctx.granted && !Admissible(ctx, input) ==>
      r == Step(Invalid(Validate(PermissionRules, input, ctx.isEmail)), db)
    ensures id in db.permissions ==>
      (r.response == Invalid(Duplicate("name", NameUsed)) <==>
        Admissible(ctx, input) && caps.update && NameFoundByOther(db.permissions, input, id))
    ensures id in db.permissions ==>
      (r.response.ServerError? <==>
        Admissible(ctx, input) && caps.update && !NameFoundByOther(db.permissions, input, id) && TextField(input, "name").None?)
    ensures r.response.Ok? <==>
      id in db.permissions && Admissible(ctx, input) && caps.update
      && !NameFoundByOther(db.permissions, input, id) && TextField(input, "name").Some?
    ensures r.response.Ok? ==>
      var row := db.permissions[id].(name := TextField(input, "name").value, updatedAt := ctx.now);
      && r.response.body == Resource(id, row)
      && r.db == db.(permissions := db.permissions[id := row], permissionLinks := r.db.permissionLinks)
      && (forall e: (Id, Id) :: e.0 != id ==> (e in r.db.permissionLinks <==> e in db.permissionLinks))
      && (Given(input, "permissions").None? ==> r.db.permissionLinks == db.permissionLinks)
      && (Given(input, "permissions").Some? ==>
            Related(r.db.permissionLinks, id) == IdsOf(AsList(input["permissions"])) * db.permissions.Keys)
  {
    PermissionRulesMeaning(input, ctx.isEmail);
    NamedEntityFields();
    DuplicateNotRuleMessages("name", NameUsed);
    if id !in db.permissions then Step(NotFound, db)
    else match Check(PermissionAbility(UpdateRoute), ctx.granted, PermissionRules, input, ctx.isEmail)
    case Denied => Step(Forbidden, db)
    case Rejected(errors) => Step(Invalid(errors), db)
    case Accepted(data) =>
      NamedEntityData(input, data);
      if !caps.update then Step(Forbidden, db) else Rewrite(ctx, db, id, data)
  }

  /** The body of `update` once the row is bound and the request is authorized and valid. */
  function Rewrite(ctx: Ctx, db: Db, id: Id, data: Input): (r: Step<Body>)
    requires id in db.permissions
    ensures r.db != db ==> r.response.Ok?
    ensures r.response.ServerError? || r.response == Invalid(Duplicate("name", NameUsed)) || r.response.Ok?
    ensures r.response == Invalid(Duplicate("name", NameUsed)) <==> NameFoundByOther(db.permissions, data, id)
    ensures r.response.ServerError? <==> !NameFoundByOther(db.permissions, data, id) && TextField(data, "name").None?
    ensures r.response.Ok? ==>
      var row := db.permissions[id].(name := TextField(data, "name").value, updatedAt := ctx.now);
      && TextField(data, "name").Some?
      && r.response.body == Resource(id, row)
      && r.db == db.(permissions := db.permissions[id := row], permissionLinks := r.db.permissionLinks)
      && (forall e: (Id, Id) :: e.0 != id ==> (e in r.db.permissionLinks <==> e in db.permissionLinks))
      && (Given(data, "permissions").None? ==> r.db.permissionLinks == db.permissionLinks)
      && (Given(data, "permissions").Some? ==>
            Related(r.db.permissionLinks, id) == IdsOf(AsList(data["permissions"])) * db.permissions.Keys)
  {
    if NameFoundByOther(db.permissions, data, id) then Step(Invalid(Duplicate("name", NameUsed)), db)
    else match TextField(data, "name")
      case None => Step(ServerError, db)
      case Some(name) =>
        var row := db.permissions[id].(name := name, updatedAt := ctx.now);
        var linked := Link(db.(permissions := db.permissions[id := row]), id, data);
        Step(Ok(Resource(id, row)), linked)
  }

  /** `destroy`: deletes the bound row. */
  function Destroy(caps: Caps, db: Db, id: Id): (r: Step<Body>)
    ensures id !in db.permissions ==> r == Step(NotFound, db)
    ensures id in db.permissions && !caps.delete ==> r == Step(Forbidden, db)
    ensures id in db.permissions && caps.delete ==>
      && r.response == Ok(Removed(true))
      && r.db.permissions.Keys == db.permissions.Keys - {id}
      && r.db == DeletePermission(db, id)
  {
    if id !in db.permissions then Step(NotFound, db)
    else if !caps.delete then Step(Forbidden, db)
    else Step(Ok(Removed(true)), DeletePermission(db, id))
  }

  /** `destroys`: deletes every listed row; ids naming no row are skipped. The
      delete runs in the query builder, so the links the deleted rows own stay. */
  function Destroys(caps: Caps, ctx: Ctx, db: Db, input: Input): (r: Step<Body>)
    ensures !caps.delete ==> r == Step(Forbidden, db)
    ensures caps.delete && !("ids" in input && input["ids"].Arr? && |input["ids"].items| > 0) ==>
      r.db == db && r.response.Unprocessable?
    ensures caps.delete && "ids" in input && input["ids"].Arr? && |input["ids"].items| > 0 ==>
      var ids := IdsOf(input["ids"].items);
      && r.response == Ok(Removed(ids * db.permissions.Keys != {}))
      && r.db.permissions.Keys == db.permissions.Keys - ids
      && (forall e :: e in r.db.permissionLinks <==> e in db.permissionLinks && e.1 !in ids)
      && r.db == DeletePermissions(db, ids)
  {
    BulkRulesMeaning(input, ctx.isEmail);
    if !caps.delete then Step(Forbidden, db)
    else
      var errors := Validate(BulkRules, input, ctx.isEmail);
      if errors != map[] then Step(Unprocessable(errors), db)
      else
        var ids := IdsOf(input["ids"].items);
        Step(Ok(Removed(ids * db.permissions.Keys != {})), DeletePermissions(db, ids))
  }

  /** `datatables`: the rows for the server-side table, behind `list`. */
  function Datatables(caps: Caps, db: Db): (r: Step<Body>)
    ensures r.db == db
    ensures r.response == (if caps.list then Ok(Rows(db.permissions)) else Forbidden)
  {
    if !caps.list then Step(Forbidden, db) else Step(Ok(Rows(db.permissions)), db)
  }

  // ----- the controller as a whole -----

  datatype Action =
    | GetIndex
    | GetCreate
    | PostStore(input: Input)
    | GetShow(id: Id)
    | GetEdit(id: Id)
    | PutUpdate(id: Id, input: Input)
    | DeleteOne(id: Id)
    | DeleteMany(input: Input)
    | PostDatatables

  /** The capability record, built once per request. */
  function CapsOf(ctx: Ctx): (c: Caps)
    ensures c.list <==> "Permission Lists" in ctx.granted
    ensures c.view <==> "Permission Views" in ctx.granted
    ensures c.create <==> "Permission Creates" in ctx.granted
    ensures c.update <==> "Permission Updates" in ctx.granted
    ensures c.delete <==> "Permission Deletes" in ctx.granted
  {
    Resolve(ctx.granted, Gates)
  }

  /** The boolean a handler checks. */
  function Guard(caps: Caps, a: Action): bool
  {
    match a
    case GetIndex => caps.list
    case PostDatatables => caps.list
    case GetCreate => caps.create
    case PostStore(_) => caps.create
    case GetShow(_) => caps.view
    case GetEdit(_) => caps.update
    case PutUpdate(_, _) => caps.update
    case DeleteOne(_) => caps.delete
    case DeleteMany(_) => caps.delete
  }

  /** The controller's routes: each action goes to its handler with the
      booleans the constructor computed and the payload as the global
      middleware left it. Pages and listings only read, and a write happens
      only with a successful answer. */
  function Handle(ctx: Ctx, db: Db, a: Action): (r: Step<Body>)
    ensures a.GetIndex? || a.GetCreate? || a.GetShow? || a.GetEdit? || a.PostDatatables? ==> r.db == db
    ensures r.db != db ==> r.response.Created? || r.response.Ok?
  {
    var caps := CapsOf(ctx);
    match a
    case GetIndex => Index(caps, db)
    case GetCreate => CreatePage(caps, db)
    case PostStore(input) => Store(caps, ctx, db, Prepare(input))
    case GetShow(id) => Show(caps, db, id)
    case GetEdit(id) => Edit(caps, db, id)
    case PutUpdate(id, input) => Update(caps, ctx, db, id, Prepare(input))
    case DeleteOne(id) => Destroy(caps, db, id)
    case DeleteMany(input) => Destroys(caps, ctx, db, Prepare(input))
    case PostDatatables => Datatables(caps, db)
  }

  /** The row an action is bound to, if any. */
  function Bound(a: Action): Option<Id>
  {
    match a
    case GetShow(id) => Some(id)
    case GetEdit(id) => Some(id)
    case PutUpdate(id, _) => Some(id)
    case DeleteOne(id) => Some(id)
    case _ => None
  }

  /** A false boolean is a refusal that writes nothing: Forbidden, unless the row
      is missing (404) or `PermissionRequest` rejected the payload first (400). */
  lemma DeniedChangesNothing(ctx: Ctx, db: Db, a: Action)
    requires !Guard(CapsOf(ctx), a)
    ensures Handle(ctx, db, a).db == db
    ensures Handle(ctx, db, a).response.Refused()
    ensures (Bound(a).None? || Bound(a).value in db.permissions) && !(a.PostStore? || a.PutUpdate?) ==>
      Handle(ctx, db, a).response == Forbidden
    ensures (a.PostStore? || (a.PutUpdate? && a.id in db.permissions)) && Admissible(ctx, Prepare(a.input)) ==>
      Handle(ctx, db, a).response == Forbidden
  {
  }

  /** Writing row `id` under a name no other row carries, with only that row's
      links changed and every new link pointing at an existing row, keeps the
      database well formed and the names unique. */
  lemma RewritePreserves(db: Db, r: Db, id: Id, row: Entry, next: Id)
    requires Wellformed(db) && UniqueNamesEverywhere(db)
    requires id < next && db.nextPermission <= next
    requires r == db.(permissions := db.permissions[id := row], nextPermission := next, permissionLinks := r.permissionLinks)
    requires !NameTakenByOther(db.permissions, row.name, id)
    requires forall e: (Id, Id) :: e.0 != id ==> (e in r.permissionLinks <==> e in db.permissionLinks)
    requires Related(r.permissionLinks, id) <= r.permissions.Keys
    ensures Wellformed(r) && UniqueNamesEverywhere(r)
  {
    forall e | e in r.permissionLinks
      ensures e.0 < r.nextPermission && e.1 in r.permissions
    {
      if e.0 != id {
        assert e in db.permissionLinks;
      } else {
        assert e.1 in Related(r.permissionLinks, id);
      }
    }
  }

  lemma StorePreserves(ctx: Ctx, db: Db, input: Input)
    requires Wellformed(db) && UniqueNamesEverywhere(db)
    ensures Wellformed(Store(CapsOf(ctx), ctx, db, input).db)
    ensures UniqueNamesEverywhere(Store(CapsOf(ctx), ctx, db, input).db)
  {
    var r := Store(CapsOf(ctx), ctx, db, input);
    if r.response.Created? {
      var id := db.nextPermission;
      if Given(input, "permissions").None? {
        assert forall e :: e in db.permissionLinks ==> e.0 != id;
        assert Related(r.db.permissionLinks, id) == {};
      }
      RewritePreserves(db, r.db, id, r.response.body.row, id + 1);
    }
  }

  lemma UpdatePreserves(ctx: Ctx, db: Db, id: Id, input: Input)
    requires Wellformed(db) && UniqueNamesEverywhere(db)
    ensures Wellformed(Update(CapsOf(ctx), ctx, db, id, input).db)
    ensures UniqueNamesEverywhere(Update(CapsOf(ctx), ctx, db, id, input).db)
  {
    var r := Update(CapsOf(ctx), ctx, db, id, input);
    if r.response.Ok? {
      if Given(input, "permissions").None? {
        assert Related(r.db.permissionLinks, id) == Related(db.permissionLinks, id);
      }
      RewritePreserves(db, r.db, id, r.response.body.row, db.nextPermission);
    }
  }

  /** Every handler keeps the table well formed and its names unique. */
  lemma HandlePreserves(ctx: Ctx, db: Db, a: Action)
    requires Wellformed(db) && UniqueNamesEverywhere(db)
    ensures Wellformed(Handle(ctx, db, a).db) && UniqueNamesEverywhere(Handle(ctx, db, a).db)
  {
    match a
    case PostStore(input) => StorePreserves(ctx, db, Prepare(input));
    case PutUpdate(id, input) => UpdatePreserves(ctx, db, id, Prepare(input));
    case DeleteOne(id) => DeletePermissionPreserves(db, id);
    case DeleteMany(input) =>
      var data := Prepare(input);
      if "ids" in data && data["ids"].Arr? {
        DeletePermissionsPreserves(db, IdsOf(data["ids"].items));
      }
    case _ =>
  }

  /** Posting the same name twice creates it once; the second post is a 400 naming the field. */
  lemma StoreTwice(ctx: Ctx, db: Db, input: Input)
    requires Admissible(ctx, Prepare(input)) && CapsOf(ctx).create && TextField(Prepare(input), "name").Some?
    requires !NameTaken(db.permissions, TextField(Prepare(input), "name").value)
    ensures Handle(ctx, db, PostStore(input)).response.Created?
    ensures var once := Handle(ctx, db, PostStore(input)).db;
      Handle(ctx, once, PostStore(input)) == Step(Invalid(Duplicate("name", NameUsed)), once)
  {
    var once := Handle(ctx, db, PostStore(input)).db;
    assert once.permissions[db.nextPermission].name == TextField(Prepare(input), "name").value;
  }

  /** A name sent as a one-element list passes the name rules, and the
      duplicate query compares its element: a taken name is the duplicate 400,
      a free one reaches `Permission::create`, which cannot store a list. */
  lemma ListNameChecked(ctx: Ctx, db: Db, input: Input, name: string)
    requires "name" in input && Prepare(input)["name"] == Arr([Str(name)])
    requires Admissible(ctx, Prepare(input)) && CapsOf(ctx).create
    ensures Handle(ctx, db, PostStore(input)).response ==
      if NameTaken(db.permissions, name) then Invalid(Duplicate("name", NameUsed)) else ServerError
  {
    WhereKeyOfList(Str(name), []);
    assert [Str(name)] + [] == [Str(name)];
  }

  /** Saving a row under its own current name is not a duplicate. */
  lemma UpdateKeepsOwnName(ctx: Ctx, db: Db, id: Id, input: Input)
    requires id in db.permissions && UniqueNames(db.permissions)
    requires Admissible(ctx, Prepare(input)) && CapsOf(ctx).update
    requires TextField(Prepare(input), "name") == Some(db.permissions[id].name)
    ensures Handle(ctx, db, PutUpdate(id, input)).response.Ok?
  {
  }

  /** A blank `permissions` reaches the controller as null, so `isset` is
      false and no update, accepted or not, touches any link. */
  lemma BlankPermissionsKeepLinks(ctx: Ctx, db: Db, id: Id, input: Input)
    requires "permissions" in input && input["permissions"].Str? && IsBlank(input["permissions"].s)
    ensures Handle(ctx, db, PutUpdate(id, input)).db.permissionLinks == db.permissionLinks
  {
    HandleWrites(ctx, db, id, input);
    assert Prepare(input)["permissions"] == Null;
  }

  /** The name is trimmed before the duplicate query: a taken name sent with
      blank runs around it is refused as a duplicate, and nothing is written. */
  lemma PaddedNameIsDuplicate(ctx: Ctx, db: Db, input: Input, lead: string, name: string, trail: string)
    requires "name" in input && input["name"] == Str(lead + name + trail)
    requires IsBlank(lead) && IsBlank(trail) && NoPadding(name)
    requires NameTaken(db.permissions, name)
    requires Admissible(ctx, Prepare(input)) && CapsOf(ctx).create
    ensures Handle(ctx, db, PostStore(input)) == Step(Invalid(Duplicate("name", NameUsed)), db)
  {
    HandleWrites(ctx, db, 0, input);
    PreparedText(input, "name", lead, name, trail);
    assert NameFound(db.permissions, Prepare(input));
  }

  /** Store and update receive the payload as the middleware left it. */
  lemma HandleWrites(ctx: Ctx, db: Db, id: Id, input: Input)
    ensures Handle(ctx, db, PostStore(input)) == Store(CapsOf(ctx), ctx, db, Prepare(input))
    ensures Handle(ctx, db, PutUpdate(id, input)) == Update(CapsOf(ctx), ctx, db, id, Prepare(input))
  {
  }

  /** After a row is destroyed, showing it is a 404. */
  lemma DestroyThenShow(ctx: Ctx, db: Db, id: Id)
    requires id in db.permissions && CapsOf(ctx).delete
    ensures Handle(ctx, Handle(ctx, db, DeleteOne(id)).db, GetShow(id)).response == NotFound
  {
  }
}
