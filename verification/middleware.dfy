/** Laravel's global `TrimStrings` and `ConvertEmptyStringsToNull` middleware,
    in the order the HTTP kernel runs them: every payload reaches the form
    requests and the controllers only after both have rewritten it. */
module Middleware {
  import opened Text
  import opened Validation

  /** The fields `TrimStrings` leaves as they were sent. */
  const Untrimmed: set<string> := {"current_password", "password", "password_confirmation"}

  /** What a value looks like once both middleware have run on it: no text is
      empty, and text that was trimmed has no blank run at either end. */
  predicate Settled(v: Value, trimmed: bool)
    decreases v
  {
    match v
    case Null => true
    case Str(s) => s != "" && (trimmed ==> NoPadding(s))
    case Arr(items) => forall j :: 0 <= j < |items| ==> Settled(items[j], true)
  }

  /** One submitted value after both middleware: text is trimmed unless its
      field is exempt, and text left empty becomes null. The elements of a
      list are always trimmed, because their keys (`roles.0`, ...) are not in
      the exempt list. */
  function PrepareValue(v: Value, trim: bool): (r: Value)
    decreases v
    ensures Settled(r, trim)
    ensures v.Null? ==> r.Null?
    ensures v.Str? && trim ==> (r.Null? <==> IsBlank(v.s)) && (r.Str? ==> r.s == Trim(v.s))
    ensures v.Str? && !trim ==> (r.Null? <==> v.s == "") && (r.Str? ==> r.s == v.s)
    ensures v.Arr? ==> r.Arr? && |r.items| == |v.items|
  {
    match v
    case Null => Null
    case Str(s) =>
      var t := if trim then Trim(s) else s;
      if t == "" then Null else Str(t)
    case Arr(items) =>
      Arr(seq(|items|, j requires 0 <= j < |items| => PrepareValue(items[j], true)))
  }

  /** The payload the form requests see. */
  function Prepare(input: Input): (r: Input)
    ensures r.Keys == input.Keys
    ensures forall k :: k in r ==> Settled(r[k], k !in Untrimmed)
  {
    map k | k in input :: PrepareValue(input[k], k !in Untrimmed)
  }

  /** The middleware leave a value alone exactly when it is already settled. */
  lemma PrepareValueFixes(v: Value, trim: bool)
    ensures PrepareValue(v, trim) == v <==> Settled(v, trim)
  {
    if Settled(v, trim) {
      SettledFixed(v, trim);
    }
  }

  lemma {:induction false} SettledFixed(v: Value, trim: bool)
    requires Settled(v, trim)
    ensures PrepareValue(v, trim) == v
    decreases v
  {
    match v
    case Null =>
    case Str(s) => TextFixed(s, trim);
    case Arr(items) =>
      forall j | 0 <= j < |items|
        ensures PrepareValue(items[j], true) == items[j]
      {
        SettledFixed(items[j], true);
      }
      ItemsFixed(items);
  }

  /** Text that is not empty, and unpadded where it is trimmed, is left alone. */
  lemma TextFixed(s: string, trim: bool)
    requires s != "" && (trim ==> NoPadding(s))
    ensures PrepareValue(Str(s), trim) == Str(s)
  {
    if trim {
      TrimUnpadded(s);
    }
  }

  /** A list whose elements are each left alone is left alone. */
  lemma ItemsFixed(items: seq<Value>)
    requires forall j :: 0 <= j < |items| ==> PrepareValue(items[j], true) == items[j]
    ensures PrepareValue(Arr(items), true) == Arr(items) && PrepareValue(Arr(items), false) == Arr(items)
  {
    assert seq(|items|, j requires 0 <= j < |items| => PrepareValue(items[j], true)) == items;
  }

  /** A payload the middleware leave alone is one whose every field is settled. */
  lemma PrepareFixes(input: Input)
    ensures Prepare(input) == input <==> forall k :: k in input ==> Settled(input[k], k !in Untrimmed)
  {
    if forall k :: k in input ==> Settled(input[k], k !in Untrimmed) {
      forall k | k in input
        ensures Prepare(input)[k] == input[k]
      {
        PrepareValueFixes(input[k], k !in Untrimmed);
      }
    }
  }

  /** Running the middleware a second time changes nothing. */
  lemma PrepareIdempotent(input: Input)
    ensures Prepare(Prepare(input)) == Prepare(input)
  {
    PrepareFixes(Prepare(input));
  }

  /** A field sent as text between blank runs arrives as the text alone, and
      a blank text arrives as null. */
  lemma PreparedText(input: Input, key: string, lead: string, s: string, trail: string)
    requires key in input && key !in Untrimmed
    requires input[key] == Str(lead + s + trail)
    requires IsBlank(lead) && IsBlank(trail) && NoPadding(s)
    ensures Prepare(input)[key] == if s == "" then Null else Str(s)
  {
    TrimPadded(lead, s, trail);
  }
}
