/** The three form-request classes: which ability `authorize()` asks for,
    the `rules()` arrays, and what resolving a request yields before the
    controller body runs (a refusal, the 400 message bag, or the validated
    fields). */
module Requests {
  import opened Common
  import opened Text
  import opened Database
  import opened Http
  import opened Validation

  /** `'name' => ['required', 'max:255', 'min:1']`, shared by all three request classes. */
  const NameRules: seq<Rule> := [Required, Max(255), Min(1)]

  /** `'permissions' => ['nullable', 'array']`. */
  const AssociationRules: seq<Rule> := [Nullable, IsArray]

  /** `PermissionRequest::rules()`. */
  const PermissionRules: RuleSet := [(Field("name"), NameRules), (Field("permissions"), AssociationRules)]

  /** `RoleRequest::rules()`. */
  const RoleRules: RuleSet := [(Field("name"), NameRules), (Field("permissions"), AssociationRules)]

  /** `$request->validate(['ids' => 'required|array'])` in every `destroys`. */
  const BulkRules: RuleSet := [(Field("ids"), [Required, IsArray])]

  /** The route on which `UserRequest` keeps its rules as written. */
  const UserStoreRoute := "user.store"

  /** `UserRequest::rules()` before the route check. */
  const UserBaseRules: RuleSet := [
    (Field("name"), NameRules),
    (Field("email"), [Required, Email]),
    (Field("password"), [Min(8)]),
    (Field("roles"), [Required, IsArray]),
    (Each("roles"), [Numeric])
  ]

  /** The `foreach ($rules as &$rule) array_unshift($rule, 'sometimes')` loop. */
  function PrefixSometimes(ruleSet: RuleSet): (r: RuleSet)
    ensures |r| == |ruleSet|
    ensures forall i :: 0 <= i < |r| ==> r[i].0 == ruleSet[i].0 && r[i].1 == [Sometimes] + ruleSet[i].1
  {
    if ruleSet == [] then []
    else [(ruleSet[0].0, [Sometimes] + ruleSet[0].1)] + PrefixSometimes(ruleSet[1..])
  }

  /** `UserRequest::rules()`: on every route but `user.store`, each field may be omitted. */
  function UserRules(route: string): RuleSet
  {
    if route == UserStoreRoute then UserBaseRules else PrefixSometimes(UserBaseRules)
  }

  /** `authorize()`: the create route asks for the create ability, every other route for the update ability. */
  function Ability(route: string, createRoute: string, creates: string, updates: string): (a: string)
    ensures a == creates <==> route == createRoute || creates == updates
    ensures a == creates || a == updates
  {
    if route == createRoute then creates else updates
  }

  function PermissionAbility(route: string): string
  {
    Ability(route, "permission.create", "Permission Creates", "Permission Updates")
  }

  function RoleAbility(route: string): string
  {
    Ability(route, "role.create", "Role Creates", "Role Updates")
  }

  function UserAbility(route: string): string
  {
    Ability(route, "user.create", "User Creates", "User Updates")
  }

  /** What resolving a form request gives the controller. */
  datatype Outcome = Denied | Rejected(errors: Errors) | Accepted(data: Input)

  /** Resolving a form request: `authorize()` first, then the rules; either
      failure ends the request before the controller body runs. */
  function Check(ability: string, granted: set<string>, ruleSet: RuleSet, input: Input, isEmail: string -> bool): (o: Outcome)
    ensures o.Denied? <==> ability !in granted
    ensures o.Rejected? <==> ability in granted && !Passes(ruleSet, input, isEmail)
    ensures o.Rejected? ==> o.errors != map[] && o.errors == Validate(ruleSet, input, isEmail)
    ensures o.Accepted? ==> o.data.Keys == input.Keys * FieldNames(ruleSet)
    ensures o.Accepted? ==> forall k :: k in o.data ==> o.data[k] == input[k]
  {
    if ability !in granted then Denied
    else
      var errors := Validate(ruleSet, input, isEmail);
      if errors != map[] then Rejected(errors) else Accepted(Validated(ruleSet, input))
  }

  /** `failedAuthorization` / `failedValidation` as responses: 403, or 400 with the message bag. */
  function Refusal<T>(o: Outcome): (r: Response<T>)
    requires !o.Accepted?
    ensures r.Status() == (if o.Denied? then 403 else 400)
    ensures o.Rejected? ==> r == Invalid(o.errors)
  {
    if o.Denied? then Forbidden else Invalid(o.errors)
  }

  /** A validated field that arrived as text. */
  function TextField(data: Input, key: string): (r: Option<string>)
    ensures r.Some? <==> key in data && data[key].Str?
    ensures r.Some? ==> data[key] == Str(r.value)
  {
    if key in data && data[key].Str? then Some(data[key].s) else None
  }

  /** `isset($data[key])`: present and not null. */
  function Given(data: Input, key: string): (r: Option<Value>)
    ensures r.Some? <==> key in data && !data[key].Null?
    ensures r.Some? ==> r.value == data[key]
  {
    if key in data && !data[key].Null? then Some(data[key]) else None
  }

  // ----- what the duplicate-name query compares -----

  /** `Arr::flatten`: the scalars of a value, depth first. */
  function Leaves(v: Value): (r: seq<Value>)
    decreases v
    ensures forall i :: 0 <= i < |r| ==> !r[i].Arr?
  {
    match v
    case Arr(items) => LeavesOf(items)
    case _ => [v]
  }

  function LeavesOf(items: seq<Value>): (r: seq<Value>)
    decreases items
    ensures forall i :: 0 <= i < |r| ==> !r[i].Arr?
  {
    if items == [] then [] else Leaves(items[0]) + LeavesOf(items[1..])
  }

  /** The text `where($column, $value)` compares the column with. Text binds
      itself; a list binds its first scalar (the query builder's
      `head(Arr::flatten($value))`); a null, or a list whose first scalar is
      null, matches no row. */
  function WhereKey(v: Value): (r: Option<string>)
    ensures v.Str? ==> r == Some(v.s)
    ensures v.Null? ==> r.None?
  {
    var leaves := Leaves(v);
    if leaves != [] && leaves[0].Str? then Some(leaves[0].s) else None
  }

  /** A list compares like its first element that holds a scalar: elements
      that flatten to nothing are skipped. */
  lemma {:induction false} WhereKeyOfList(first: Value, rest: seq<Value>)
    ensures Leaves(first) != [] ==> WhereKey(Arr([first] + rest)) == WhereKey(first)
    ensures Leaves(first) == [] ==> WhereKey(Arr([first] + rest)) == WhereKey(Arr(rest))
  {
    var items := [first] + rest;
    assert items[0] == first && items[1..] == rest;
    assert Leaves(Arr(items)) == Leaves(first) + LeavesOf(rest);
    assert Leaves(Arr(rest)) == LeavesOf(rest);
    if Leaves(first) != [] {
      assert Leaves(Arr(items))[0] == Leaves(first)[0];
    }
  }

  /** What the duplicate-name query of a controller binds for the validated
      `name`; None when the field is absent (the handler then fails anyway). */
  function NameKey(data: Input): (r: Option<string>)
    ensures TextField(data, "name").Some? ==> r == TextField(data, "name")
    ensures "name" !in data ==> r.None?
  {
    if "name" in data then WhereKey(data["name"]) else None
  }

  /** `Model::where('name', $data['name'])` finds a row of `m`. */
  predicate NameFound(m: map<Id, Entry>, data: Input)
  {
    NameKey(data).Some? && NameTaken(m, NameKey(data).value)
  }

  /** The same query narrowed by `whereNot('id', $self)`. */
  predicate NameFoundByOther(m: map<Id, Entry>, data: Input, self: Id)
  {
    NameKey(data).Some? && NameTakenByOther(m, NameKey(data).value, self)
  }

  predicate UserNameFound(users: map<Id, User>, data: Input)
  {
    NameKey(data).Some? && UserNameTaken(users, NameKey(data).value)
  }

  predicate UserNameFoundByOther(users: map<Id, User>, data: Input, self: Id)
  {
    NameKey(data).Some? && UserNameTakenByOther(users, NameKey(data).value, self)
  }

  // ----- what the rules accept, field by field -----

  /** `required|max:255|min:1`: present, filled, at most 255 long. */
  predicate NameOk(v: Option<Value>)
  {
    v.Some? && Filled(v.value) && Size(v.value) <= 255
  }

  /** `nullable|array`: absent, null, an array, or a blank string (which the validator skips). */
  predicate AssociationOk(v: Option<Value>)
  {
    v.None? || v.value.Null? || v.value.Arr? || (v.value.Str? && IsBlank(v.value.s))
  }

  /** `required|email`. */
  predicate EmailOk(v: Option<Value>, isEmail: string -> bool)
  {
    v.Some? && v.value.Str? && !IsBlank(v.value.s) && isEmail(v.value.s)
  }

  /** `min:8` with no `required`: absent or blank passes, anything else needs 8. */
  predicate PasswordOk(v: Option<Value>)
  {
    v.None? || (v.value.Str? && IsBlank(v.value.s)) || Size(v.value) >= 8
  }

  /** `required|array`. */
  predicate RolesOk(v: Option<Value>)
  {
    v.Some? && v.value.Arr? && |v.value.items| > 0
  }

  /** `roles.*` => `numeric`, for every element of a submitted array. */
  predicate RoleItemsOk(v: Option<Value>)
  {
    v.Some? && v.value.Arr? ==>
      forall j :: 0 <= j < |v.value.items| ==> RoleItemOk(v.value.items[j])
  }

  predicate RoleItemOk(item: Value)
  {
    item.Str? && (IsBlank(item.s) || IsNumericText(item.s))
  }

  lemma NameRulesMeaning(v: Option<Value>, isEmail: string -> bool)
    ensures AttributePasses(NameRules, v, isEmail) <==> NameOk(v)
    ensures AttributePasses([Sometimes] + NameRules, v, isEmail) <==> v.None? || NameOk(v)
  {
    var rs := NameRules;
    var srs := [Sometimes] + NameRules;
    assert rs[0] == Required && rs[1] == Max(255) && rs[2] == Min(1);
    assert srs[0] == Sometimes && srs[1] == Required && srs[2] == Max(255) && srs[3] == Min(1);
    assert Sometimes in srs;
    if v.Some? && Filled(v.value) {
      assert Size(v.value) >= 1 by {
        if v.value.Str? { assert !IsBlank(v.value.s); }
      }
    }
  }

  lemma AssociationRulesMeaning(v: Option<Value>, isEmail: string -> bool)
    ensures AttributePasses(AssociationRules, v, isEmail) <==> AssociationOk(v)
  {
    var rs := AssociationRules;
    assert rs[0] == Nullable && rs[1] == IsArray;
    assert Nullable in rs;
  }

  /** PermissionRequest (and RoleRequest, whose rules are the same): `name` is
      required with 1 to 255 characters and `permissions` is null, absent or an array. */
  lemma PermissionRulesMeaning(input: Input, isEmail: string -> bool)
    ensures Passes(PermissionRules, input, isEmail) <==>
      NameOk(Lookup(input, "name")) && AssociationOk(Lookup(input, "permissions"))
    ensures Passes(RoleRules, input, isEmail) <==>
      NameOk(Lookup(input, "name")) && AssociationOk(Lookup(input, "permissions"))
  {
    NameRulesMeaning(Lookup(input, "name"), isEmail);
    AssociationRulesMeaning(Lookup(input, "permissions"), isEmail);
    assert PermissionRules[0] == (Field("name"), NameRules);
    assert PermissionRules[1] == (Field("permissions"), AssociationRules);
    assert RoleRules == PermissionRules;
  }

  lemma EmailRulesMeaning(v: Option<Value>, isEmail: string -> bool)
    ensures AttributePasses([Required, Email], v, isEmail) <==> EmailOk(v, isEmail)
    ensures AttributePasses([Sometimes, Required, Email], v, isEmail) <==> v.None? || EmailOk(v, isEmail)
  {
    var rs := [Required, Email];
    var srs := [Sometimes, Required, Email];
    assert rs[0] == Required && rs[1] == Email;
    assert srs[0] == Sometimes && srs[1] == Required && srs[2] == Email;
    assert Sometimes in srs && Nullable !in rs && Nullable !in srs;
  }

  lemma PasswordRulesMeaning(v: Option<Value>, isEmail: string -> bool)
    ensures AttributePasses([Min(8)], v, isEmail) <==> PasswordOk(v)
    ensures AttributePasses([Sometimes, Min(8)], v, isEmail) <==> PasswordOk(v)
  {
    var rs := [Min(8)];
    var srs := [Sometimes, Min(8)];
    assert rs[0] == Min(8);
    assert srs[0] == Sometimes && srs[1] == Min(8);
    assert Sometimes in srs && Nullable !in rs && Nullable !in srs;
  }

  lemma RolesRulesMeaning(v: Option<Value>, isEmail: string -> bool)
    ensures AttributePasses([Required, IsArray], v, isEmail) <==> RolesOk(v)
    ensures AttributePasses([Sometimes, Required, IsArray], v, isEmail) <==> v.None? || RolesOk(v)
  {
    var rs := [Required, IsArray];
    var srs := [Sometimes, Required, IsArray];
    assert rs[0] == Required && rs[1] == IsArray;
    assert srs[0] == Sometimes && srs[1] == Required && srs[2] == IsArray;
    assert Sometimes in srs && Nullable !in rs && Nullable !in srs;
  }

  lemma RoleItemRulesMeaning(item: Value, isEmail: string -> bool)
    ensures AttributePasses([Numeric], Some(item), isEmail) <==> RoleItemOk(item)
    ensures AttributePasses([Sometimes, Numeric], Some(item), isEmail) <==> RoleItemOk(item)
  {
    var rs := [Numeric];
    var srs := [Sometimes, Numeric];
    assert rs[0] == Numeric;
    assert srs[0] == Sometimes && srs[1] == Numeric;
    assert Nullable !in rs && Nullable !in srs;
  }

  /** `roles.*` under the given element rules passes exactly when every element is numeric. */
  lemma RoleItemsMeaning(rules: seq<Rule>, input: Input, isEmail: string -> bool)
    requires rules == [Numeric] || rules == [Sometimes, Numeric]
    ensures TargetErrors(Each("roles"), rules, input, isEmail) == map[] <==> RoleItemsOk(Lookup(input, "roles"))
  {
    if "roles" in input && input["roles"].Arr? {
      var items := input["roles"].items;
      forall j | 0 <= j < |items|
        ensures AttributePasses(rules, Some(items[j]), isEmail) <==> RoleItemOk(items[j])
      {
        RoleItemRulesMeaning(items[j], isEmail);
      }
    }
  }

  /** A five-target rule set passes exactly when each of its targets does. */
  lemma PassesFive(ruleSet: RuleSet, input: Input, isEmail: string -> bool)
    requires |ruleSet| == 5
    ensures Passes(ruleSet, input, isEmail) <==>
      && TargetErrors(ruleSet[0].0, ruleSet[0].1, input, isEmail) == map[]
      && TargetErrors(ruleSet[1].0, ruleSet[1].1, input, isEmail) == map[]
      && TargetErrors(ruleSet[2].0, ruleSet[2].1, input, isEmail) == map[]
      && TargetErrors(ruleSet[3].0, ruleSet[3].1, input, isEmail) == map[]
      && TargetErrors(ruleSet[4].0, ruleSet[4].1, input, isEmail) == map[]
  {
    var each := forall i :: 0 <= i < |ruleSet| ==> TargetErrors(ruleSet[i].0, ruleSet[i].1, input, isEmail) == map[];
    assert Passes(ruleSet, input, isEmail) == each;
    if TargetErrors(ruleSet[0].0, ruleSet[0].1, input, isEmail) == map[]
      && TargetErrors(ruleSet[1].0, ruleSet[1].1, input, isEmail) == map[]
      && TargetErrors(ruleSet[2].0, ruleSet[2].1, input, isEmail) == map[]
      && TargetErrors(ruleSet[3].0, ruleSet[3].1, input, isEmail) == map[]
      && TargetErrors(ruleSet[4].0, ruleSet[4].1, input, isEmail) == map[]
    {
      forall i | 0 <= i < |ruleSet|
        ensures TargetErrors(ruleSet[i].0, ruleSet[i].1, input, isEmail) == map[]
      {
        assert i == 0 || i == 1 || i == 2 || i == 3 || i == 4;
      }
    }
  }

  /** On `user.store`: `name` (1..255), `email` and a non-empty `roles` array are
      required, every role is numeric, and `password`, never required, needs 8
      characters when given. */
  lemma UserStoreRulesMeaning(input: Input, isEmail: string -> bool)
    ensures Passes(UserRules(UserStoreRoute), input, isEmail) <==>
      && NameOk(Lookup(input, "name"))
      && EmailOk(Lookup(input, "email"), isEmail)
      && PasswordOk(Lookup(input, "password"))
      && RolesOk(Lookup(input, "roles"))
      && RoleItemsOk(Lookup(input, "roles"))
  {
    var rs := UserRules(UserStoreRoute);
    assert rs == UserBaseRules;
    assert rs[0] == (Field("name"), NameRules);
    assert rs[1] == (Field("email"), [Required, Email]);
    assert rs[2] == (Field("password"), [Min(8)]);
    assert rs[3] == (Field("roles"), [Required, IsArray]);
    assert rs[4] == (Each("roles"), [Numeric]);
    PassesFive(rs, input, isEmail);
    NameRulesMeaning(Lookup(input, "name"), isEmail);
    EmailRulesMeaning(Lookup(input, "email"), isEmail);
    PasswordRulesMeaning(Lookup(input, "password"), isEmail);
    RolesRulesMeaning(Lookup(input, "roles"), isEmail);
    RoleItemsMeaning([Numeric], input, isEmail);
  }

  /** On every other route each field may be left out; a field that is sent
      must satisfy the same rule as on `user.store`. */
  lemma UserUpdateRulesMeaning(route: string, input: Input, isEmail: string -> bool)
    requires route != UserStoreRoute
    ensures Passes(UserRules(route), input, isEmail) <==>
      && (Lookup(input, "name").None? || NameOk(Lookup(input, "name")))
      && (Lookup(input, "email").None? || EmailOk(Lookup(input, "email"), isEmail))
      && PasswordOk(Lookup(input, "password"))
      && (Lookup(input, "roles").None? || RolesOk(Lookup(input, "roles")))
      && RoleItemsOk(Lookup(input, "roles"))
  {
    var rs := UserRules(route);
    var base := UserBaseRules;
    assert rs == PrefixSometimes(base);
    assert base[0] == (Field("name"), NameRules);
    assert base[1] == (Field("email"), [Required, Email]);
    assert base[2] == (Field("password"), [Min(8)]);
    assert base[3] == (Field("roles"), [Required, IsArray]);
    assert base[4] == (Each("roles"), [Numeric]);
    assert [Sometimes] + [Required, Email] == [Sometimes, Required, Email];
    assert [Sometimes] + [Min(8)] == [Sometimes, Min(8)];
    assert [Sometimes] + [Required, IsArray] == [Sometimes, Required, IsArray];
    assert [Sometimes] + [Numeric] == [Sometimes, Numeric];
    assert rs[0] == (Field("name"), [Sometimes] + NameRules);
    assert rs[1] == (Field("email"), [Sometimes, Required, Email]);
    assert rs[2] == (Field("password"), [Sometimes, Min(8)]);
    assert rs[3] == (Field("roles"), [Sometimes, Required, IsArray]);
    assert rs[4] == (Each("roles"), [Sometimes, Numeric]);
    PassesFive(rs, input, isEmail);
    NameRulesMeaning(Lookup(input, "name"), isEmail);
    EmailRulesMeaning(Lookup(input, "email"), isEmail);
    PasswordRulesMeaning(Lookup(input, "password"), isEmail);
    RolesRulesMeaning(Lookup(input, "roles"), isEmail);
    RoleItemsMeaning([Sometimes, Numeric], input, isEmail);
  }

  /** The fields `validated()` can return for a user request: never `users`. */
  lemma UserValidatedFields(route: string)
    ensures FieldNames(UserRules(route)) == {"name", "email", "password", "roles"}
  {
    var rs := UserRules(route);
    assert rs[0].0 == Field("name") && rs[1].0 == Field("email") && rs[2].0 == Field("password");
    assert rs[3].0 == Field("roles") && rs[4].0 == Each("roles");
    assert |rs| == 5;
    assert forall i :: 0 <= i < 5 && rs[i].0.Field? ==> rs[i].0.name in {"name", "email", "password", "roles"};
  }

  lemma NamedEntityFields()
    ensures FieldNames(PermissionRules) == {"name", "permissions"}
    ensures FieldNames(RoleRules) == {"name", "permissions"}
  {
    assert PermissionRules[0].0 == Field("name") && PermissionRules[1].0 == Field("permissions");
    assert RoleRules == PermissionRules;
  }

  /** The validated payload of a permission or role request carries the
      submitted name and association list unchanged. */
  lemma NamedEntityData(input: Input, data: Input)
    requires data.Keys == input.Keys * {"name", "permissions"}
    requires forall k :: k in data ==> data[k] == input[k]
    ensures TextField(data, "name") == TextField(input, "name")
    ensures NameKey(data) == NameKey(input)
    ensures Given(data, "permissions") == Given(input, "permissions")
  {
  }

  /** A bulk delete is accepted exactly when `ids` is a non-empty array. */
  lemma BulkRulesMeaning(input: Input, isEmail: string -> bool)
    ensures Passes(BulkRules, input, isEmail) <==> "ids" in input && input["ids"].Arr? && |input["ids"].items| > 0
  {
    RolesRulesMeaning(Lookup(input, "ids"), isEmail);
    assert BulkRules[0] == (Field("ids"), [Required, IsArray]);
  }
}
