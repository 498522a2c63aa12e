/** Character-level helpers shared by the server and the client model:
    decimal text of identifiers, ASCII lower-casing, substring search,
    PHP's blank test and the integer form of PHP's `is_numeric`. */
module Text {
  import opened Common

  predicate IsDigit(c: char) { '0' <= c <= '9' }

  predicate AllDigits(s: string) { forall i :: 0 <= i < |s| ==> IsDigit(s[i]) }

  function DigitChar(d: nat): (c: char)
    requires d < 10
    ensures IsDigit(c) && c as int - '0' as int == d
  {
    ('0' as int + d) as char
  }

  /** The number a run of decimal digits denotes (leading zeros allowed). */
  function DigitsValue(s: string): nat
    requires AllDigits(s)
  {
    if s == [] then 0
    else DigitsValue(s[..|s| - 1]) * 10 + (s[|s| - 1] as int - '0' as int)
  }

  /** Decimal text of a non-negative integer, as JavaScript's `String(n)` and
      PHP's string conversion write it: no sign, no leading zeros. */
  function NatToString(n: nat): (s: string)
    ensures |s| >= 1 && AllDigits(s)
    ensures s[0] == '0' ==> n == 0
  {
    if n < 10 then [DigitChar(n)] else NatToString(n / 10) + [DigitChar(n % 10)]
  }

  /** Reads an identifier sent as text (`"12"`); anything but a non-empty run
      of digits names no row. */
  function ParseNat(s: string): (r: Option<nat>)
    ensures r.Some? <==> |s| > 0 && AllDigits(s)
  {
    if |s| > 0 && AllDigits(s) then Some(DigitsValue(s)) else None
  }

  /** Writing an identifier as text and reading it back gives the identifier. */
  lemma {:induction false} ParseNatRoundTrip(n: nat)
    ensures ParseNat(NatToString(n)) == Some(n)
  {
    DigitsOfNat(n);
  }

  lemma {:induction false} DigitsOfNat(n: nat)
    ensures DigitsValue(NatToString(n)) == n
  {
    if n >= 10 {
      var prefix := NatToString(n / 10);
      var s := prefix + [DigitChar(n % 10)];
      assert s[..|s| - 1] == prefix;
      DigitsOfNat(n / 10);
    }
  }

  /** ASCII lower-casing; letters outside A-Z are kept as they are. */
  function LowerChar(c: char): char
  {
    if 'A' <= c <= 'Z' then (c as int + 32) as char else c
  }

  function Lower(s: string): (r: string)
    ensures |r| == |s|
    ensures forall i :: 0 <= i < |s| ==> r[i] == LowerChar(s[i])
  {
    seq(|s|, i requires 0 <= i < |s| => LowerChar(s[i]))
  }

  /** `s.includes(sub)`: `sub` occurs in `s` at some position. */
  predicate Contains(s: string, sub: string)
  {
    exists i :: 0 <= i <= |s| && OccursAt(s, sub, i)
  }

  predicate OccursAt(s: string, sub: string, i: nat)
  {
    i + |sub| <= |s| && s[i..i + |sub|] == sub
  }

  /** Every string contains the empty string. */
  lemma ContainsEmpty(s: string)
    ensures Contains(s, "")
  {
    assert OccursAt(s, "", 0);
  }

  /** The characters PHP's `trim` removes by default. */
  predicate IsTrimmed(c: char)
  {
    c == ' ' || c == '\t' || c == '\n' || c == '\r' || c == '\0' || c == '\U{B}'
  }

  /** `trim($s) === ''`. */
  predicate IsBlank(s: string)
  {
    forall i :: 0 <= i < |s| ==> IsTrimmed(s[i])
  }

  /** `s` has no character `trim` removes at either end. */
  predicate NoPadding(s: string)
  {
    s == [] || (!IsTrimmed(s[0]) && !IsTrimmed(s[|s| - 1]))
  }

  /** `ltrim`: the suffix of `s` left after its leading blank run. */
  function TrimStart(s: string): (r: string)
    ensures |r| <= |s| && r == s[|s| - |r|..]
    ensures IsBlank(s[..|s| - |r|])
    ensures r == [] || !IsTrimmed(r[0])
  {
    if s != [] && IsTrimmed(s[0]) then
      var r := TrimStart(s[1..]);
      assert s[..|s| - |r|] == [s[0]] + s[1..][..|s| - 1 - |r|];
      r
    else s
  }

  /** `rtrim`: the prefix of `s` left before its trailing blank run. */
  function TrimEnd(s: string): (r: string)
    ensures |r| <= |s| && r == s[..|r|]
    ensures IsBlank(s[|r|..])
    ensures r == [] || !IsTrimmed(r[|r| - 1])
  {
    if s != [] && IsTrimmed(s[|s| - 1]) then
      var r := TrimEnd(s[..|s| - 1]);
      assert s[|r|..] == s[..|s| - 1][|r|..] + [s[|s| - 1]];
      r
    else s
  }

  /** PHP's `trim`: both blank runs removed. Nothing is left exactly when the
      text was blank. */
  function Trim(s: string): (r: string)
    ensures NoPadding(r)
    ensures r == [] <==> IsBlank(s)
  {
    var t := TrimStart(s);
    var r := TrimEnd(t);
    assert t != [] ==> r != [] && r[0] == t[0] by {
      assert t[0..] == t;
    }
    assert t == [] ==> s[..|s|] == s;
    assert t != [] ==> t[0] == s[|s| - |t|];
    r
  }

  /** A blank run before text whose first character stays is all `ltrim` removes. */
  lemma {:induction false} TrimStartOf(lead: string, t: string)
    requires IsBlank(lead)
    requires t == [] || !IsTrimmed(t[0])
    ensures TrimStart(lead + t) == t
    decreases |lead|
  {
    if lead == [] {
      assert lead + t == t;
    } else {
      assert (lead + t)[0] == lead[0];
      assert (lead + t)[1..] == lead[1..] + t;
      TrimStartOf(lead[1..], t);
    }
  }

  /** A blank run after text whose last character stays is all `rtrim` removes. */
  lemma {:induction false} TrimEndOf(t: string, trail: string)
    requires IsBlank(trail)
    requires t == [] || !IsTrimmed(t[|t| - 1])
    ensures TrimEnd(t + trail) == t
    decreases |trail|
  {
    if trail == [] {
      assert t + trail == t;
    } else {
      var n := |t + trail|;
      assert (t + trail)[n - 1] == trail[|trail| - 1];
      assert (t + trail)[..n - 1] == t + trail[..|trail| - 1];
      TrimEndOf(t, trail[..|trail| - 1]);
    }
  }

  /** `trim` gives back exactly the text between the blank runs around it. */
  lemma TrimPadded(lead: string, s: string, trail: string)
    requires IsBlank(lead) && IsBlank(trail) && NoPadding(s)
    ensures Trim(lead + s + trail) == s
  {
    if s == [] {
      assert lead + s + trail == lead + trail;
      assert IsBlank(lead + trail);
    } else {
      assert lead + s + trail == lead + (s + trail);
      assert (s + trail)[0] == s[0];
      TrimStartOf(lead, s + trail);
      TrimEndOf(s, trail);
    }
  }

  /** Text with no blank run at either end is what `trim` gives back. */
  lemma TrimUnpadded(s: string)
    requires NoPadding(s)
    ensures Trim(s) == s
  {
    assert TrimStart(s) == s;
    assert TrimEnd(s) == s;
  }

  /** Trimming twice is trimming once. */
  lemma TrimIdempotent(s: string)
    ensures Trim(Trim(s)) == Trim(s)
  {
    TrimUnpadded(Trim(s));
  }

  /** Integer form of PHP's `is_numeric`: an optional sign and at least one digit. */
  predicate IsNumericText(s: string)
  {
    if |s| > 0 && (s[0] == '+' || s[0] == '-') then |s| > 1 && AllDigits(s[1..])
    else |s| > 0 && AllDigits(s)
  }
}
