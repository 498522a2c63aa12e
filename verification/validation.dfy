/** The part of Laravel's validator the request classes rely on: a request
    payload as a tree of values, the rules named in the `rules()` arrays, and
    the order in which the validator runs and skips them.

    - `sometimes`: an absent field is not validated at all;
    - only an implicit rule (`required`) runs on an absent field or on a blank
      string; every other rule is skipped there;
    - `nullable`: a null value skips every other non-implicit rule;
    - after an implicit rule fails, the remaining rules of that field are skipped;
    - `field.*` applies its rules to every element when `field` is an array. */
module Validation {
  import opened Common
  import opened Text
  import opened Database
  import opened Http

  /** A submitted value. Numbers arrive as their decimal text. */
  datatype Value = Null | Str(s: string) | Arr(items: seq<Value>)

  type Input = map<string, Value>

  datatype Rule = Sometimes | Required | Nullable | IsArray | Email | Numeric | Min(n: nat) | Max(n: nat)
  {
    /** The rule's key in the message bag (its text comes from language files). */
    function Key(): string
    {
      match this
      case Sometimes => "sometimes"
      case Required => "required"
      case Nullable => "nullable"
      case IsArray => "array"
      case Email => "email"
      case Numeric => "numeric"
      case Min(_) => "min"
      case Max(_) => "max"
    }

    predicate Implicit() { Required? }
  }

  /** A message the validator can put in the bag: the key of one of its rules. */
  predicate IsRuleKey(m: string)
  {
    m in {"sometimes", "required", "nullable", "array", "email", "numeric", "min", "max"}
  }

  /** Every message of a bag comes from a rule. */
  predicate RuleMessages(errors: Errors)
  {
    forall k :: k in errors ==> forall j :: 0 <= j < |errors[k]| ==> IsRuleKey(errors[k][j])
  }

  /** A controller's own duplicate-name body can never be mistaken for a
      validator's bag, as long as its message is not a rule key. */
  lemma DuplicateNotRuleMessages(field: string, message: string)
    requires !IsRuleKey(message)
    ensures !RuleMessages(Duplicate(field, message))
  {
    assert Duplicate(field, message)[field][0] == message;
  }

  /** `'name'` or `'name.*'`. */
  datatype Target = Field(name: string) | Each(name: string)

  type RuleSet = seq<(Target, seq<Rule>)>

  function Lookup(input: Input, name: string): Option<Value>
  {
    if name in input then Some(input[name]) else None
  }

  /** The size `min`/`max` compare: character count, element count, 0 for null. */
  function Size(v: Value): nat
  {
    match v
    case Null => 0
    case Str(s) => |s|
    case Arr(items) => |items|
  }

  /** What `required` accepts: not null, not a blank string, not an empty array. */
  predicate Filled(v: Value)
  {
    match v
    case Null => false
    case Str(s) => !IsBlank(s)
    case Arr(items) => |items| > 0
  }

  predicate Holds(r: Rule, v: Option<Value>, isEmail: string -> bool)
  {
    match r
    case Sometimes => true
    case Nullable => true
    case Required => v.Some? && Filled(v.value)
    case IsArray => v.Some? && v.value.Arr?
    case Email => v.Some? && v.value.Str? && isEmail(v.value.s)
    case Numeric => v.Some? && v.value.Str? && IsNumericText(v.value.s)
    case Min(n) => v.Some? && Size(v.value) >= n
    case Max(n) => v.Some? && Size(v.value) <= n
  }

  /** Whether the validator runs `r` on this value at all. */
  predicate Applies(r: Rule, rules: seq<Rule>, v: Option<Value>)
  {
    r.Implicit() || (v.Some? && !(v.value.Str? && IsBlank(v.value.s)) && !(Nullable in rules && v.value.Null?))
  }

  /** The keys of the rules of `pending` that fail, stopping after a failing implicit rule. */
  function Failures(rules: seq<Rule>, pending: seq<Rule>, v: Option<Value>, isEmail: string -> bool): (r: seq<string>)
    ensures r == [] <==> forall i :: 0 <= i < |pending| ==> !Applies(pending[i], rules, v) || Holds(pending[i], v, isEmail)
    ensures forall j :: 0 <= j < |r| ==> IsRuleKey(r[j])
  {
    if pending == [] then []
    else
      var rule := pending[0];
      var rest := Failures(rules, pending[1..], v, isEmail);
      assert forall i :: 1 <= i < |pending| ==> pending[i] == pending[1..][i - 1];
      if !Applies(rule, rules, v) || Holds(rule, v, isEmail) then rest
      else if rule.Implicit() then [rule.Key()]
      else [rule.Key()] + rest
  }

  /** The failures of one attribute; `sometimes` skips an absent one entirely. */
  function AttributeFailures(rules: seq<Rule>, v: Option<Value>, isEmail: string -> bool): (r: seq<string>)
    ensures forall j :: 0 <= j < |r| ==> IsRuleKey(r[j])
  {
    if Sometimes in rules && v.None? then [] else Failures(rules, rules, v, isEmail)
  }

  predicate AttributePasses(rules: seq<Rule>, v: Option<Value>, isEmail: string -> bool)
  {
    AttributeFailures(rules, v, isEmail) == []
  }

  /** Errors of `name.*`, keyed `name.0`, `name.1`, ... */
  function ItemErrors(name: string, items: seq<Value>, from: nat, rules: seq<Rule>, isEmail: string -> bool): (r: Errors)
    decreases |items| - from
    ensures r == map[] <==> forall j :: from <= j < |items| ==> AttributePasses(rules, Some(items[j]), isEmail)
    ensures RuleMessages(r)
  {
    if from >= |items| then map[]
    else
      var f := AttributeFailures(rules, Some(items[from]), isEmail);
      var key := name + "." + NatToString(from);
      var here: Errors := if f == [] then map[] else map[key := f];
      var rest := ItemErrors(name, items, from + 1, rules, isEmail);
      assert f != [] ==> key in here;
      assert (here + rest).Keys == here.Keys + rest.Keys;
      here + rest
  }

  function TargetErrors(t: Target, rules: seq<Rule>, input: Input, isEmail: string -> bool): (r: Errors)
    ensures t.Field? ==> (r == map[] <==> AttributePasses(rules, Lookup(input, t.name), isEmail))
    ensures t.Each? ==> (r == map[] <==>
      (t.name in input && input[t.name].Arr? ==>
         forall j :: 0 <= j < |input[t.name].items| ==> AttributePasses(rules, Some(input[t.name].items[j]), isEmail)))
    ensures RuleMessages(r)
  {
    match t
    case Field(n) =>
      var f := AttributeFailures(rules, Lookup(input, n), isEmail);
      if f == [] then map[] else assert n in map[n := f]; map[n := f]
    case Each(n) =>
      if n in input && input[n].Arr? then ItemErrors(n, input[n].items, 0, rules, isEmail) else map[]
  }

  /** The message bag of a whole rule set. */
  function Validate(ruleSet: RuleSet, input: Input, isEmail: string -> bool): (r: Errors)
    ensures r == map[] <==> forall i :: 0 <= i < |ruleSet| ==> TargetErrors(ruleSet[i].0, ruleSet[i].1, input, isEmail) == map[]
    ensures RuleMessages(r)
  {
    if ruleSet == [] then map[]
    else
      var here := TargetErrors(ruleSet[0].0, ruleSet[0].1, input, isEmail);
      var rest := Validate(ruleSet[1..], input, isEmail);
      assert forall i :: 1 <= i < |ruleSet| ==> ruleSet[i] == ruleSet[1..][i - 1];
      assert (here + rest).Keys == here.Keys + rest.Keys;
      here + rest
  }

  /** A field whose own rules fail is a key of the whole bag. */
  lemma {:induction false} ErrorKeysInBag(ruleSet: RuleSet, i: nat, input: Input, isEmail: string -> bool)
    requires i < |ruleSet| && ruleSet[i].0.Field?
    requires !AttributePasses(ruleSet[i].1, Lookup(input, ruleSet[i].0.name), isEmail)
    ensures ruleSet[i].0.name in Validate(ruleSet, input, isEmail)
    decreases i
  {
    var here := TargetErrors(ruleSet[0].0, ruleSet[0].1, input, isEmail);
    var rest := Validate(ruleSet[1..], input, isEmail);
    assert Validate(ruleSet, input, isEmail) == here + rest;
    if i == 0 {
      assert ruleSet[0].0.name in here;
    } else {
      assert ruleSet[1..][i - 1] == ruleSet[i];
      ErrorKeysInBag(ruleSet[1..], i - 1, input, isEmail);
    }
  }

  predicate Passes(ruleSet: RuleSet, input: Input, isEmail: string -> bool)
  {
    Validate(ruleSet, input, isEmail) == map[]
  }

  /** The top-level fields a rule set names. */
  function FieldNames(ruleSet: RuleSet): set<string>
  {
    set i | 0 <= i < |ruleSet| && ruleSet[i].0.Field? :: ruleSet[i].0.name
  }

  /** `validated()`: the submitted fields that have rules, and nothing else. */
  function Validated(ruleSet: RuleSet, input: Input): (r: Input)
    ensures r.Keys == input.Keys * FieldNames(ruleSet)
    ensures forall k :: k in r ==> r[k] == input[k]
  {
    map k | k in input && k in FieldNames(ruleSet) :: input[k]
  }

  /** PHP's `(array)` cast: an array stays, any other value becomes a one-element list. */
  function AsList(v: Value): seq<Value>
  {
    if v.Arr? then v.items else [v]
  }

  /** The row ids a list of submitted values names: the elements that are decimal texts. */
  function IdsOf(items: seq<Value>): (ids: set<Id>)
    ensures forall i :: 0 <= i < |items| && items[i].Str? && ParseNat(items[i].s).Some? ==> ParseNat(items[i].s).value in ids
    ensures forall n :: n in ids ==> exists i :: 0 <= i < |items| && items[i].Str? && ParseNat(items[i].s) == Some(n)
  {
    set i | 0 <= i < |items| && items[i].Str? && ParseNat(items[i].s).Some? :: ParseNat(items[i].s).value
  }

  /** Identifiers sent as their decimal texts are read back exactly. */
  lemma IdsOfDecimals(ids: seq<Id>)
    ensures IdsOf(seq(|ids|, i requires 0 <= i < |ids| => Str(NatToString(ids[i])))) == set i | 0 <= i < |ids| :: ids[i]
  {
    var items := seq(|ids|, i requires 0 <= i < |ids| => Str(NatToString(ids[i])));
    forall i | 0 <= i < |ids|
      ensures ParseNat(items[i].s) == Some(ids[i])
    {
      ParseNatRoundTrip(ids[i]);
    }
  }
}
