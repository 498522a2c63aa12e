/** The role form page: the props the controller renders it with, its
    client-side schema, its defaults, the permission checkboxes and the
    request a submit sends. */
module RoleForm {
  import opened Common
  import opened Database
  import opened Forms

  /** The form's values. `permissions` is absent (`undefined`) when the page
      was given a role row without that key; an entry may be `null`. */
  datatype Values = Values(id: Option<int>, name: string, permissions: Option<seq<Option<int>>>)

  /** One entry of the `permission_data` prop: a checkbox and its label. */
  datatype PermissionItem = PermissionItem(id: int, name: string)

  /** The page's props: `role_data` and `permission_data`, each possibly not sent. */
  datatype Props = Props(roleData: Option<Values>, permissionData: Option<seq<PermissionItem>>)

  /** The library's default message for a failed `.min(1)` on a string. */
  const NameTooShort := "String must contain at least 1 character(s)"

  /** The library's message for a required field that is `undefined`. */
  const Required := "Required"

  /** `FormSchema`: the complaints keyed by field. Identifiers and permission
      entries are typed, so only an empty name or a missing permission list
      can be refused. */
  function Issues(v: Values): (r: map<string, string>)
    ensures "name" in r <==> v.name == ""
    ensures "permissions" in r <==> v.permissions.None?
    ensures "name" in r ==> r["name"] == NameTooShort
    ensures "permissions" in r ==> r["permissions"] == Required
    ensures r.Keys <= {"name", "permissions"}
    ensures r == map[] <==> v.name != "" && v.permissions.Some?
  {
    var name := if |v.name| < 1 then map["name" := NameTooShort] else map[];
    var permissions := if v.permissions.None? then map["permissions" := Required] else map[];
    assert "name" !in permissions;
    var r := name + permissions;
    assert v.name == "" ==> "name" in r;
    assert v.permissions.None? ==> "permissions" in r;
    r
  }

  /** The values a create page starts from. */
  const Defaults := Values(None, "", Some([]))

  /** The page uses the server's role when it sent one, the defaults otherwise. */
  function Start(roleData: Option<Values>): (v: Values)
    ensures roleData.Some? ==> v == roleData.value
    ensures roleData.None? ==> v.id.None? && v.name == "" && v.permissions == Some([])
  {
    if roleData.Some? then roleData.value else Defaults
  }

  /** The blank create form is refused for its name alone, and no box starts ticked. */
  lemma DefaultsRefusedForName(permission: int)
    ensures Issues(Start(None)).Keys == {"name"}
    ensures !IsChecked(Start(None).permissions.value, Some(permission))
  {
  }

  /** The checkbox list (`permission_data.map`): one box per catalogue entry,
      checked when the form's list holds its identifier. Mapping over a
      catalogue that was not sent throws, and the page does not render. */
  function Boxes(v: Values, catalogue: Option<seq<PermissionItem>>): (r: Option<seq<bool>>)
    ensures r.None? <==> catalogue.None?
    ensures r.Some? ==> |r.value| == |catalogue.value|
    ensures r.Some? ==> forall i :: 0 <= i < |r.value| ==>
      (r.value[i] <==> v.permissions.Some? && IsChecked(v.permissions.value, Some(catalogue.value[i].id)))
  {
    match catalogue
    case None => None
    case Some(items) =>
      Some(seq(|items|, i requires 0 <= i < |items| =>
        v.permissions.Some? && IsChecked(v.permissions.value, Some(items[i].id))))
  }

  /** Ticking or clearing one permission box. With no list, ticking spreads
      `undefined` and throws (no result); clearing filters `undefined`, which
      leaves the field `undefined`. */
  function TogglePermission(v: Values, permission: int, checked: bool): (r: Option<Values>)
    ensures r.None? <==> v.permissions.None? && checked
    ensures r.Some? ==> r.value.id == v.id && r.value.name == v.name
    ensures r.Some? ==> (r.value.permissions.Some? <==> v.permissions.Some?)
    ensures r.Some? && v.permissions.Some? ==> IsChecked(r.value.permissions.value, Some(permission)) == checked
  {
    match v.permissions
    case None => if checked then None else Some(v)
    case Some(list) => Some(v.(permissions := Some(Toggle(list, Some(permission), checked))))
  }

  /** A box shows checked exactly after it was last ticked, whatever the other boxes do. */
  lemma ToggleOtherKeepsChecked(v: Values, permission: int, checked: bool, other: int)
    requires other != permission
    ensures var r := TogglePermission(v, permission, checked);
      r.Some? && v.permissions.Some? ==>
        IsChecked(r.value.permissions.value, Some(other)) == IsChecked(v.permissions.value, Some(other))
  {
    if v.permissions.Some? {
      var list := v.permissions.value;
      ToggleCounts(list, Some(permission), checked, Some(other));
      assert Some(other) in list <==> multiset(list)[Some(other)] > 0;
    }
  }

  /** What a visitor does on the page before submitting. */
  datatype FormEdit = Rename(name: string) | Tick(permission: int, checked: bool)

  /** The form's values after a run of edits, or nothing once one of them threw. */
  function Perform(v: Values, edits: seq<FormEdit>): (r: Option<Values>)
    decreases |edits|
  {
    if edits == [] then Some(v)
    else
      var next := match edits[0]
        case Rename(name) => Some(v.(name := name))
        case Tick(permission, checked) => TogglePermission(v, permission, checked);
      if next.None? then None else Perform(next.value, edits[1..])
  }

  /** No run of edits gives a form without a permission list one: renaming
      keeps the field as it is, and ticking either throws or keeps it absent. */
  lemma {:induction false} EditsKeepPermissionsAbsent(v: Values, edits: seq<FormEdit>)
    requires v.permissions.None?
    ensures Perform(v, edits).Some? ==> Perform(v, edits).value.permissions.None?
    decreases |edits|
  {
    if edits != [] {
      var next := match edits[0]
        case Rename(name) => Some(v.(name := name))
        case Tick(permission, checked) => TogglePermission(v, permission, checked);
      if next.Some? {
        EditsKeepPermissionsAbsent(next.value, edits[1..]);
      }
    }
  }

  /** A submit of the form's values. The schema must accept them; the update
      target is the identifier the page was opened with, not the submitted one. */
  function SubmitRole(mode: Mode, roleData: Option<Values>, data: Values): (r: Option<Request<Values>>)
    ensures r.None? <==> data.name == "" || data.permissions.None?
    ensures r.Some? && mode == EditMode ==> (r.value.Put? <==> Truthy(Start(roleData).id))
    ensures r.Some? && r.value.Put? ==> r.value.route == "role.update" && Some(r.value.id) == Start(roleData).id
    ensures r.Some? && r.value.Post? ==> mode == CreateMode && r.value.route == "role.store"
  {
    if Issues(data) == map[] then Some(Submit("role", mode, Start(roleData).id, data)) else None
  }

  /** An edit page opened without a role never sends an update. */
  lemma EditWithoutRoleSendsNothing(data: Values)
    ensures forall r :: SubmitRole(EditMode, None, data) == Some(r) ==> r == NoRequest
  {
  }

  // ----- the props the controller sends -----

  /** The bare role row as the page receives it: identifier and name, and no
      `permissions` key. */
  function RowValues(id: Id, row: Entry): Values
  {
    Values(Some(id), row.name, None)
  }

  /** `create`, `show` and `edit` as written: the create page gets no role, the
      show and edit pages get the bound role's bare row, and none of them gets
      a permission catalogue. */
  function ControllerProps(role: Option<(Id, Entry)>): (p: Props)
    ensures p.permissionData.None?
    ensures role.None? <==> p.roleData.None?
    ensures role.Some? ==> p.roleData.value.id == Some(role.value.0 as int) && p.roleData.value.permissions.None?
  {
    match role
    case None => Props(None, None)
    case Some((id, row)) => Props(Some(RowValues(id, row)), None)
  }

  /** As written, no role page renders its checkboxes, and the edit page never
      sends its update: its values lack the permission list, the schema refuses
      them for it, and no run of edits brings the list back. */
  lemma AsWrittenEditNeverUpdates(id: Id, row: Entry, edits: seq<FormEdit>)
    ensures Boxes(Start(ControllerProps(None).roleData), ControllerProps(None).permissionData).None?
    ensures var p := ControllerProps(Some((id, row)));
      && Boxes(Start(p.roleData), p.permissionData).None?
      && Issues(Start(p.roleData))["permissions"] == Required
      && SubmitRole(EditMode, p.roleData, Start(p.roleData)) == None
      && (Perform(Start(p.roleData), edits).Some? ==>
            SubmitRole(EditMode, p.roleData, Perform(Start(p.roleData), edits).value) == None)
  {
    var p := ControllerProps(Some((id, row)));
    EditsKeepPermissionsAbsent(Start(p.roleData), edits);
  }

  /** The role's permission identifiers as the schema's nullable entries. */
  function Nullable(ids: seq<Id>): (r: seq<Option<int>>)
    ensures |r| == |ids|
    ensures forall i :: 0 <= i < |ids| ==> r[i] == Some(ids[i] as int)
  {
    seq(|ids|, i requires 0 <= i < |ids| => Some(ids[i] as int))
  }

  /** The props as the page needs them: the role row with its permission
      identifiers, and the permission catalogue on every page. */
  function CorrectedProps(role: Option<(Id, Entry)>, granted: seq<Id>, catalogue: seq<PermissionItem>): (p: Props)
    ensures p.permissionData == Some(catalogue)
    ensures role.None? <==> p.roleData.None?
    ensures role.Some? ==> p.roleData.value.permissions.Some?
  {
    match role
    case None => Props(None, Some(catalogue))
    case Some((id, row)) => Props(Some(Values(Some(id), row.name, Some(Nullable(granted)))), Some(catalogue))
  }

  /** With the corrected props, the edit page of a stored role draws each box
      checked exactly when the role holds that permission, and submitting the
      loaded values puts them to the role's update route. */
  lemma CorrectedEditUpdates(db: Db, id: Id, granted: seq<Id>, catalogue: seq<PermissionItem>)
    requires id in db.roles && db.roles[id].name != "" && id != 0
    requires forall g :: g in granted <==> (id, g) in db.rolePermissions
    ensures var p := CorrectedProps(Some((id, db.roles[id])), granted, catalogue);
      && Boxes(Start(p.roleData), p.permissionData).Some?
      && (forall i :: 0 <= i < |catalogue| ==>
            (Boxes(Start(p.roleData), p.permissionData).value[i] <==>
              catalogue[i].id >= 0 && (id, catalogue[i].id as Id) in db.rolePermissions))
      && SubmitRole(EditMode, p.roleData, Start(p.roleData)) == Some(Put("role.update", id, Start(p.roleData)))
  {
    var p := CorrectedProps(Some((id, db.roles[id])), granted, catalogue);
    var list := Nullable(granted);
    assert Start(p.roleData).permissions == Some(list);
    forall i | 0 <= i < |catalogue|
      ensures IsChecked(list, Some(catalogue[i].id)) <==>
        catalogue[i].id >= 0 && (id, catalogue[i].id as Id) in db.rolePermissions
    {
      var x := catalogue[i].id;
      if Some(x) in list {
        var k :| 0 <= k < |list| && list[k] == Some(x);
        assert granted[k] in granted;
      }
      if x >= 0 && (id, x as Id) in db.rolePermissions {
        var k :| 0 <= k < |granted| && granted[k] == x as Id;
        assert list[k] == Some(x);
      }
    }
  }
}
