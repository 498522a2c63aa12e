/** The user form page: its client-side schema, its default values, the role
    checkboxes and the request a submit sends. */
module UserForm {
  import opened Common
  import opened Forms

  /** The form's values; `password` is absent when the field was never set. */
  datatype Values = Values(id: Option<int>, name: string, roles: seq<int>, email: string, password: Option<string>)

  /** One schema complaint: the field and its message. */
  datatype Issue = Issue(path: string, message: string)

  predicate HasUpper(s: string)
  {
    exists i :: 0 <= i < |s| && 'A' <= s[i] <= 'Z'
  }

  /** The checks of one field run in order and every failing one is reported. */
  function NameIssues(name: string): seq<Issue>
  {
    if |name| < 1 then [Issue("name", "Name is required")] else []
  }

  function RolesIssues(roles: seq<int>): seq<Issue>
  {
    if |roles| < 1 then [Issue("roles", "Role is required")] else []
  }

  /** `z.string().email()` (the library's default message) then `.min(1)`. */
  function EmailIssues(email: string, isEmail: string -> bool): seq<Issue>
  {
    (if isEmail(email) then [] else [Issue("email", "Invalid email")])
    + (if |email| < 1 then [Issue("email", "Email is required")] else [])
  }

  /** `.min(8)` then `.regex(/[A-Z]/)`, skipped when the field is absent. */
  function PasswordIssues(password: Option<string>): seq<Issue>
  {
    match password
    case None => []
    case Some(p) =>
      (if |p| < 8 then [Issue("password", "Password minimum length is 8")] else [])
      + (if HasUpper(p) then [] else [Issue("password", "Password must contain at least one uppercase letter")])
  }

  /** Every complaint of `FormSchema`, in field order. */
  function Issues(v: Values, isEmail: string -> bool): (r: seq<Issue>)
    ensures r == [] <==> Acceptable(v, isEmail)
    ensures forall i :: 0 <= i < |r| ==> r[i].path in {"name", "roles", "email", "password"}
  {
    NameIssues(v.name) + RolesIssues(v.roles) + EmailIssues(v.email, isEmail) + PasswordIssues(v.password)
  }

  /** What the schema accepts, field by field. */
  predicate Acceptable(v: Values, isEmail: string -> bool)
  {
    && v.name != ""
    && v.roles != []
    && isEmail(v.email) && v.email != ""
    && (v.password.Some? ==> |v.password.value| >= 8 && HasUpper(v.password.value))
  }

  /** Some complaint concerns `path`. */
  predicate Reports(issues: seq<Issue>, path: string)
  {
    exists i :: 0 <= i < |issues| && issues[i].path == path
  }

  lemma ReportsConcat(a: seq<Issue>, b: seq<Issue>, path: string)
    ensures Reports(a + b, path) <==> Reports(a, path) || Reports(b, path)
  {
    if Reports(a + b, path) {
      var i :| 0 <= i < |a + b| && (a + b)[i].path == path;
      if i >= |a| {
        assert b[i - |a|].path == path;
      }
    }
    if Reports(a, path) {
      var i :| 0 <= i < |a| && a[i].path == path;
      assert (a + b)[i].path == path;
    }
    if Reports(b, path) {
      var i :| 0 <= i < |b| && b[i].path == path;
      assert (a + b)[|a| + i].path == path;
    }
  }

  /** A field is reported exactly when its own check fails. */
  lemma IssuePaths(v: Values, isEmail: string -> bool)
    ensures Reports(Issues(v, isEmail), "name") <==> v.name == ""
    ensures Reports(Issues(v, isEmail), "roles") <==> v.roles == []
    ensures Reports(Issues(v, isEmail), "email") <==> !isEmail(v.email) || v.email == ""
    ensures Reports(Issues(v, isEmail), "password") <==>
      (v.password.Some? && (|v.password.value| < 8 || !HasUpper(v.password.value)))
  {
    NameReported(v, isEmail);
    RolesReported(v, isEmail);
    EmailReported(v, isEmail);
    PasswordReported(v, isEmail);
  }

  lemma NameReported(v: Values, isEmail: string -> bool)
    ensures Reports(Issues(v, isEmail), "name") <==> v.name == ""
  {
    var n := NameIssues(v.name);
    var ro := RolesIssues(v.roles);
    var e := EmailIssues(v.email, isEmail);
    var p := PasswordIssues(v.password);
    assert Issues(v, isEmail) == n + ro + e + p;
    ReportsOf(n, ro, e, p, "name");
    if v.name == "" {
      assert n[0].path == "name";
    }
  }

  lemma RolesReported(v: Values, isEmail: string -> bool)
    ensures Reports(Issues(v, isEmail), "roles") <==> v.roles == []
  {
    var n := NameIssues(v.name);
    var ro := RolesIssues(v.roles);
    var e := EmailIssues(v.email, isEmail);
    var p := PasswordIssues(v.password);
    assert Issues(v, isEmail) == n + ro + e + p;
    ReportsOf(n, ro, e, p, "roles");
    if v.roles == [] {
      assert ro[0].path == "roles";
    }
  }

  lemma EmailReported(v: Values, isEmail: string -> bool)
    ensures Reports(Issues(v, isEmail), "email") <==> !isEmail(v.email) || v.email == ""
  {
    var n := NameIssues(v.name);
    var ro := RolesIssues(v.roles);
    var e := EmailIssues(v.email, isEmail);
    var p := PasswordIssues(v.password);
    assert Issues(v, isEmail) == n + ro + e + p;
    ReportsOf(n, ro, e, p, "email");
    if !isEmail(v.email) || v.email == "" {
      assert e[0].path == "email";
    }
  }

  lemma PasswordReported(v: Values, isEmail: string -> bool)
    ensures Reports(Issues(v, isEmail), "password") <==> (v.password.Some? && (|v.password.value| < 8 || !HasUpper(v.password.value)))
  {
    var n := NameIssues(v.name);
    var ro := RolesIssues(v.roles);
    var e := EmailIssues(v.email, isEmail);
    var p := PasswordIssues(v.password);
    assert Issues(v, isEmail) == n + ro + e + p;
    ReportsOf(n, ro, e, p, "password");
    if (v.password.Some? && (|v.password.value| < 8 || !HasUpper(v.password.value))) {
      assert p[0].path == "password";
    }
  }

  lemma ReportsOf(n: seq<Issue>, ro: seq<Issue>, e: seq<Issue>, p: seq<Issue>, path: string)
    ensures Reports(n + ro + e + p, path) <==> Reports(n, path) || Reports(ro, path) || Reports(e, path) || Reports(p, path)
  {
    ReportsConcat(n, ro, path);
    ReportsConcat(n + ro, e, path);
    ReportsConcat(n + ro + e, p, path);
  }

  /** The values a create page starts from. */
  const Defaults := Values(None, "", [], "", Some(""))

  /** The page uses the server's values when it sent any, the defaults otherwise. */
  function Start(formData: Option<Values>): (v: Values)
    ensures formData.Some? ==> v == formData.value
    ensures formData.None? ==> v.id.None? && v.name == "" && v.roles == []
  {
    if formData.Some? then formData.value else Defaults
  }

  /** The blank create form cannot be sent: even its empty password is refused,
      so an absent password is possible only on a page the server filled in. */
  lemma DefaultsRefused(isEmail: string -> bool)
    ensures !Acceptable(Start(None), isEmail)
    ensures Issue("password", "Password minimum length is 8") in Issues(Start(None), isEmail)
  {
    assert PasswordIssues(Some("")) == [Issue("password", "Password minimum length is 8"),
                                        Issue("password", "Password must contain at least one uppercase letter")];
    var all := Issues(Defaults, isEmail);
    var prefix := NameIssues("") + RolesIssues([]) + EmailIssues("", isEmail);
    assert all == prefix + PasswordIssues(Some(""));
    assert all[|prefix|] == Issue("password", "Password minimum length is 8");
  }

  /** Ticking or clearing one role box. */
  function ToggleRole(v: Values, role: int, checked: bool): (r: Values)
    ensures r.roles == Toggle(v.roles, role, checked)
    ensures r == v.(roles := r.roles)
  {
    v.(roles := Toggle(v.roles, role, checked))
  }

  /** Clearing a box removes that role only; ticking it adds one occurrence. */
  lemma ToggleRoleKeepsOthers(v: Values, role: int, checked: bool, other: int)
    requires other != role
    ensures IsChecked(ToggleRole(v, role, checked).roles, other) == IsChecked(v.roles, other)
    ensures IsChecked(ToggleRole(v, role, checked).roles, role) == checked
  {
    ToggleCounts(v.roles, role, checked, other);
    assert other in v.roles <==> multiset(v.roles)[other] > 0;
  }

  /** A submit of accepted values; the update target is the submitted `id`. */
  function SubmitUser(mode: Mode, data: Values, isEmail: string -> bool): (r: Option<Request<Values>>)
    ensures r.None? <==> !Acceptable(data, isEmail)
    ensures r.Some? && mode == EditMode ==> (r.value.Put? <==> Truthy(data.id))
    ensures r.Some? && r.value.Put? ==> r.value.route == "user.update" && Some(r.value.id) == data.id
    ensures r.Some? && r.value.Post? ==> mode == CreateMode && r.value.route == "user.store"
  {
    if Issues(data, isEmail) == [] then Some(Submit("user", mode, data.id, data)) else None
  }
}
