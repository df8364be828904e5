/** The parts of the JavaScript runtime that the address parser leans on:
    the values its fields hold, the character classes `\s`, `\d` and `\w`
    of its regular expressions, `parseInt(s, 10)`, `Array.prototype.join`
    and the `x || y` coercion it applies to extracted values. */
module Js {

  datatype Option<T> = None | Some(value: T)

  /** A value stored in one of the address fields. `Undefined` is a field
      never assigned, or assigned `undefined`. */
  datatype Value = Undefined | Str(s: string) | Num(n: int)

  /** `\s` of a JavaScript regular expression; `parseInt` skips the same
      characters (white space and line terminators). */
  predicate IsSpace(c: char) {
    || c == '\t' || c == '\n' || c == '\U{000B}' || c == '\U{000C}' || c == '\r'
    || c == ' ' || c == '\U{00A0}' || c == '\U{1680}'
    || ('\U{2000}' <= c <= '\U{200A}')
    || c == '\U{2028}' || c == '\U{2029}' || c == '\U{202F}' || c == '\U{205F}'
    || c == '\U{3000}' || c == '\U{FEFF}'
  }

  /** `\d`: an ASCII decimal digit. */
  predicate IsDigit(c: char) {
    '0' <= c <= '9'
  }

  /** `\w`: an ASCII letter, digit or underscore. */
  predicate IsWordChar(c: char) {
    ('a' <= c <= 'z') || ('A' <= c <= 'Z') || IsDigit(c) || c == '_'
  }

  /** `/^\d+$/`: one or more digits and nothing else. */
  predicate AllDigits(s: string) {
    |s| > 0 && forall i :: 0 <= i < |s| ==> IsDigit(s[i])
  }

  /** The value of a string of decimal digits. */
  function DigitsValue(d: string): (v: nat)
    requires forall i :: 0 <= i < |d| ==> IsDigit(d[i])
  {
    if d == [] then 0
    else DigitsValue(d[..|d| - 1]) * 10 + DigitValue(d[|d| - 1])
  }

  function DigitValue(c: char): nat
    requires IsDigit(c)
  {
    c as int - '0' as int
  }

  /** The longest run of digits at the start of `s`. */
  function DigitPrefix(s: string): (d: string)
    ensures |d| <= |s| && d == s[..|d|]
    ensures forall i :: 0 <= i < |d| ==> IsDigit(d[i])
    ensures |d| < |s| ==> !IsDigit(s[|d|])
  {
    if s != [] && IsDigit(s[0]) then [s[0]] + DigitPrefix(s[1..]) else []
  }

  /** `s` without its leading white space. */
  function TrimStart(s: string): (t: string)
    ensures |t| <= |s|
  {
    if s != [] && IsSpace(s[0]) then TrimStart(s[1..]) else s
  }

  /** `parseInt(s, 10)`: `None` stands for `NaN`. Leading white space is
      skipped, one sign is accepted, and the longest digit prefix after it
      is read; whatever follows is ignored. */
  function ParseInt(s: string): Option<int> {
    var t := TrimStart(s);
    var negative := |t| > 0 && t[0] == '-';
    var u := if |t| > 0 && (t[0] == '-' || t[0] == '+') then t[1..] else t;
    var d := DigitPrefix(u);
    if d == [] then None
    else
      var n: int := if negative then 0 - DigitsValue(d) else DigitsValue(d);
      Some(n)
  }

  /** `!isNaN(parseInt(s, 10))`, the test the street segmenter uses to tell
      a number part from a name part: after the leading white space, a
      digit, or a sign and a digit (lemma `IsNumericParses`). */
  predicate IsNumeric(s: string) {
    NumericFrom(s, 0)
  }

  /** The numeric test on `s` from position `i` on. */
  predicate NumericFrom(s: string, i: nat)
    requires i <= |s|
    decreases |s| - i
  {
    if i < |s| && IsSpace(s[i]) then NumericFrom(s, i + 1)
    else (i < |s| && IsDigit(s[i])) || (i + 1 < |s| && (s[i] == '-' || s[i] == '+') && IsDigit(s[i + 1]))
  }

  /** `parseInt(v, 10) || v` for an extracted value `v` (a string, or
      `undefined` when nothing matched). `NaN` and `0` are falsy, so the
      integer is kept only when it is nonzero. */
  function FieldValue(v: Option<string>): Value {
    match v
    case None => Undefined
    case Some(s) =>
      match ParseInt(s)
      case Some(n) => if n != 0 then Num(n) else Str(s)
      case None => Str(s)
  }

  /** `xs.join(sep)`. */
  function Join(sep: string, xs: seq<string>): string {
    if xs == [] then ""
    else if |xs| == 1 then xs[0]
    else xs[0] + sep + Join(sep, xs[1..])
  }

  /** `s.replace(/c/g, '')` for a single character `c`: every occurrence
      of `c` goes, and every other character stays as often as it was. */
  function RemoveChar(s: string, c: char): (r: string)
    ensures c !in r
    ensures forall x :: x in r ==> x in s
    ensures multiset(r) == multiset(s)[c := 0]
  {
    if s == [] then []
    else
      assert s == [s[0]] + s[1..];
      (if s[0] == c then [] else [s[0]]) + RemoveChar(s[1..], c)
  }

  /** Removing a character keeps the order of what stays: the removal
      from a concatenation is the concatenation of the removals. */
  lemma {:induction false} RemoveCharAppend(a: string, b: string, c: char)
    ensures RemoveChar(a + b, c) == RemoveChar(a, c) + RemoveChar(b, c)
    decreases |a|
  {
    if a == [] {
      assert a + b == b;
    } else {
      assert (a + b)[0] == a[0] && (a + b)[1..] == a[1..] + b;
      RemoveCharAppend(a[1..], b, c);
    }
  }

  /** The strings of `xs` that are not empty, in order: the effect of
      `.filter(x => x.length)` and of `if (x)` on a list of strings. */
  function NonEmpty(xs: seq<string>): (r: seq<string>)
    ensures |r| <= |xs|
    ensures forall t :: t in r <==> t in xs && t != ""
  {
    if xs == [] then []
    else (if xs[0] == "" then [] else [xs[0]]) + NonEmpty(xs[1..])
  }

  // ---------------------------------------------------------------------
  // Properties

  /** `TrimStart` removes a prefix made of white space only, and stops at
      the first other character. */
  lemma {:induction false} TrimStartFacts(s: string)
    ensures var t := TrimStart(s);
      && t == s[|s| - |t|..]
      && (forall k :: 0 <= k < |s| - |t| ==> IsSpace(s[k]))
      && (t == [] || !IsSpace(t[0]))
    decreases |s|
  {
    if s != [] && IsSpace(s[0]) {
      TrimStartFacts(s[1..]);
      var t := TrimStart(s);
      forall k | 0 <= k < |s| - |t|
        ensures IsSpace(s[k])
      {
        if k > 0 {
          assert s[k] == s[1..][k - 1];
        }
      }
    }
  }

  /** From position `i` on, the numeric test looks at the text left once
      the white space is trimmed. */
  lemma {:induction false} NumericFromTrimmed(s: string, i: nat)
    requires i <= |s|
    ensures var t := TrimStart(s[i..]);
      NumericFrom(s, i) <==> (|t| > 0 && IsDigit(t[0])) || (|t| > 1 && (t[0] == '-' || t[0] == '+') && IsDigit(t[1]))
    decreases |s| - i
  {
    if i < |s| && IsSpace(s[i]) {
      assert s[i..][1..] == s[i + 1..];
      NumericFromTrimmed(s, i + 1);
    } else if i < |s| {
      assert TrimStart(s[i..]) == s[i..];
    }
  }

  /** The numeric test is `parseInt` not giving `NaN`. */
  lemma IsNumericParses(s: string)
    ensures IsNumeric(s) <==> ParseInt(s).Some?
  {
    NumericFromTrimmed(s, 0);
    assert s[0..] == s;
    var t := TrimStart(s);
    var u := if |t| > 0 && (t[0] == '-' || t[0] == '+') then t[1..] else t;
    assert DigitPrefix(u) != [] <==> u != [] && IsDigit(u[0]);
  }

  /** A run of digits, read as a whole, is what `parseInt` reads. */
  lemma {:induction false} DigitPrefixOfDigits(d: string, rest: string)
    requires forall i :: 0 <= i < |d| ==> IsDigit(d[i])
    requires rest == [] || !IsDigit(rest[0])
    ensures DigitPrefix(d + rest) == d
  {
    if d != [] {
      assert (d + rest)[1..] == d[1..] + rest;
      DigitPrefixOfDigits(d[1..], rest);
    } else {
      assert d + rest == rest;
    }
  }

  /** `/^\d+$/` implies that `parseInt` reads the whole string. */
  lemma AllDigitsParse(s: string)
    requires AllDigits(s)
    ensures ParseInt(s) == Some(DigitsValue(s))
  {
    assert !IsSpace(s[0]);
    assert TrimStart(s) == s;
    DigitPrefixOfDigits(s, []);
    assert s + [] == s;
  }

  /** A value that starts with a nonzero integer becomes that integer,
      whatever follows it (`"12abc"` becomes 12). */
  lemma LeadingIntegerWins(d: string, rest: string)
    requires AllDigits(d) && DigitsValue(d) != 0
    requires rest == [] || !IsDigit(rest[0])
    ensures FieldValue(Some(d + rest)) == Num(DigitsValue(d))
  {
    var s := d + rest;
    assert s[0] == d[0] && IsDigit(s[0]) && !IsSpace(s[0]);
    assert TrimStart(s) == s;
    DigitPrefixOfDigits(d, rest);
    assert ParseInt(s) == Some(DigitsValue(d));
  }

  /** A value whose first character is neither white space, a sign nor a
      digit (every label of the pattern tables) stays a string. */
  lemma LabelStaysString(s: string)
    requires s != [] && !IsSpace(s[0]) && !IsDigit(s[0]) && s[0] != '-' && s[0] != '+'
    ensures FieldValue(Some(s)) == Str(s)
  {
    assert TrimStart(s) == s;
  }

  /** `"0"` is falsy after `parseInt`, so it stays the string `"0"`. */
  lemma ZeroStaysString()
    ensures FieldValue(Some("0")) == Str("0")
  {
    assert TrimStart("0") == "0";
    DigitPrefixOfDigits("0", []);
    assert "0" + [] == "0";
  }

  /** The example of the source's coercion rule: `"12abc"` becomes 12. */
  lemma TwelveAbcBecomesTwelve()
    ensures FieldValue(Some("12abc")) == Num(12)
  {
    assert DigitsValue("12") == 12 by {
      assert "12"[..1] == "1";
      assert DigitsValue("1") == 1 by { assert "1"[..0] == ""; }
    }
    LeadingIntegerWins("12", "abc");
    assert "12" + "abc" == "12abc";
  }

  /** A sign is read too: `"-7"` becomes -7. */
  lemma NegativeBecomesNumber()
    ensures FieldValue(Some("-7")) == Num(-7)
  {
    var t := "-7";
    assert !IsSpace(t[0]);
    assert TrimStart(t) == t;
    assert t[1..] == "7";
    DigitPrefixOfDigits("7", []);
    assert "7" + [] == "7";
    assert DigitsValue("7") == 7 by { assert "7"[..0] == ""; }
  }

  /** Filtering a list extended by one string filters the list and then
      keeps that string if it is not empty. */
  lemma {:induction false} NonEmptyAppend(xs: seq<string>, x: string)
    ensures NonEmpty(xs + [x]) == NonEmpty(xs) + (if x == "" then [] else [x])
    decreases |xs|
  {
    if xs == [] {
      assert [] + [x] == [x];
      assert NonEmpty([x]) == (if x == "" then [] else [x]) + NonEmpty([]);
    } else {
      assert (xs + [x])[0] == xs[0];
      assert (xs + [x])[1..] == xs[1..] + [x];
      NonEmptyAppend(xs[1..], x);
      AppendAssoc(if xs[0] == "" then [] else [xs[0]], NonEmpty(xs[1..]), if x == "" then [] else [x]);
    }
  }

  lemma AppendAssoc(a: seq<string>, b: seq<string>, c: seq<string>)
    ensures a + (b + c) == (a + b) + c
  {
  }

  /** A string joined from two or more parts contains the separator. */
  lemma {:induction false} JoinContainsSeparator(sep: char, xs: seq<string>)
    requires |xs| >= 2
    ensures sep in Join([sep], xs)
  {
    assert Join([sep], xs) == xs[0] + [sep] + Join([sep], xs[1..]);
    assert (xs[0] + [sep] + Join([sep], xs[1..]))[|xs[0]|] == sep;
  }

  /** Every character of a join comes from a part or from the separator. */
  lemma {:induction false} JoinChars(sep: string, xs: seq<string>, c: char)
    requires c in Join(sep, xs)
    ensures c in sep || exists t :: t in xs && c in t
  {
    if |xs| == 1 {
      assert xs[0] in xs;
    } else if |xs| >= 2 {
      var rest := Join(sep, xs[1..]);
      assert Join(sep, xs) == xs[0] + sep + rest;
      if c in xs[0] {
        assert xs[0] in xs;
      } else if c !in sep {
        assert c in rest;
        JoinChars(sep, xs[1..], c);
        var t :| t in xs[1..] && c in t;
        assert t in xs;
      }
    }
  }
}
