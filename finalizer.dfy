/** The two text transformations of `Address#finalize`: the leftover tokens
    become regions (joined by spaces, split at a comma with at most one
    white space after it, empty pieces dropped), and ordinal suffixes
    after digits are removed from the street name. */
module Finalizer {
  import opened Js

  // ---------------------------------------------------------------------
  // Regions: `parts.join(' ').split(/\,\s?/).filter(len)`

  /** The index of the first comma, or `|s|` when there is none. */
  function CommaIndex(s: string): (i: nat)
    ensures i <= |s|
    ensures forall k :: 0 <= k < i ==> s[k] != ','
    ensures i < |s| ==> s[i] == ','
  {
    if s == [] || s[0] == ',' then 0 else 1 + CommaIndex(s[1..])
  }

  /** `s.split(/\,\s?/)`: the pieces between separators, where a separator
      is a comma together with the one white-space character after it, if
      any. */
  function RegionPieces(s: string): (r: seq<string>)
    ensures |r| >= 1
    decreases |s|
  {
    var i := CommaIndex(s);
    if i == |s| then [s]
    else
      var j := if i + 1 < |s| && IsSpace(s[i + 1]) then i + 2 else i + 1;
      [s[..i]] + RegionPieces(s[j..])
  }

  /** The `regions` field that `finalize` computes from the tokens. */
  function Regions(parts: seq<string>): seq<string> {
    NonEmpty(RegionPieces(Join(" ", parts)))
  }

  // ---------------------------------------------------------------------
  // Ordinals: `street.replace(/(\d+)(th|rd|nd|st)\b/g, '$1')`

  /** The end of the run of digits starting at `i`. */
  function DigitRunEnd(s: string, i: nat): (j: nat)
    requires i <= |s|
    ensures i <= j <= |s|
    ensures forall k :: i <= k < j ==> IsDigit(s[k])
    ensures j < |s| ==> !IsDigit(s[j])
    decreases |s| - i
  {
    if i == |s| || !IsDigit(s[i]) then i else DigitRunEnd(s, i + 1)
  }

  /** One of the four lower-case suffixes `th`, `rd`, `nd`, `st`. */
  predicate IsOrdinalSuffix(a: char, b: char) {
    (a == 't' && b == 'h') || (a == 'r' && b == 'd') || (a == 'n' && b == 'd') || (a == 's' && b == 't')
  }

  /** An ordinal suffix at `j`, followed by a word boundary (`\b`: the end
      of the string or a character outside `\w`). */
  predicate OrdinalAt(s: string, j: nat) {
    j + 2 <= |s| && IsOrdinalSuffix(s[j], s[j + 1]) && (j + 2 == |s| || !IsWordChar(s[j + 2]))
  }

  /** The global replacement, scanning from the left: at a digit, the whole
      digit run followed by a suffix and a boundary is one match, replaced
      by its digits; a shorter digit run cannot match, since a digit is
      never the first letter of a suffix. Anything else is copied and the
      scan moves on by one character. */
  function StripOrdinals(s: string): (r: string)
    ensures |r| <= |s|
    decreases |s|
  {
    if s == [] then []
    else if IsDigit(s[0]) && OrdinalAt(s, DigitRunEnd(s, 0)) then
      var j := DigitRunEnd(s, 0);
      s[..j] + StripOrdinals(s[j + 2..])
    else [s[0]] + StripOrdinals(s[1..])
  }

  /** Reference definition: character `k` is a suffix letter the
      replacement removes when it and the next one, or the one before it
      and it, are a suffix that directly follows a digit and is followed
      by a boundary. */
  predicate SuffixLetter(s: string, k: nat)
    requires k < |s|
  {
    || (k >= 1 && IsDigit(s[k - 1]) && OrdinalAt(s, k))
    || (k >= 2 && IsDigit(s[k - 2]) && OrdinalAt(s, k - 1))
  }

  /** The characters from `i` on, without the suffix letters. */
  function KeepNonOrdinals(s: string, i: nat): string
    requires i <= |s|
    decreases |s| - i
  {
    if i == |s| then [] else (if SuffixLetter(s, i) then [] else [s[i]]) + KeepNonOrdinals(s, i + 1)
  }

  // ---------------------------------------------------------------------
  // Properties of the regions

  /** No region contains a comma. */
  lemma {:induction false} RegionPiecesHaveNoComma(s: string)
    ensures forall t :: t in RegionPieces(s) ==> ',' !in t
    decreases |s|
  {
    var i := CommaIndex(s);
    if i < |s| {
      var j := if i + 1 < |s| && IsSpace(s[i + 1]) then i + 2 else i + 1;
      RegionPiecesHaveNoComma(s[j..]);
      assert ',' !in s[..i];
    }
  }

  /** The first comma is the one after a comma-free prefix. */
  lemma CommaAfter(a: string, b: string)
    requires ',' !in a
    ensures CommaIndex(a + b) == |a| + CommaIndex(b)
  {
    if a != [] {
      assert (a + b)[0] == a[0];
      assert (a + b)[1..] == a[1..] + b;
      CommaAfter(a[1..], b);
    } else {
      assert a + b == b;
    }
  }

  /** The split cuts at the first comma; a comma not followed by white
      space is a separator on its own. */
  lemma SplitAtBareComma(a: string, b: string)
    requires ',' !in a
    requires b == [] || !IsSpace(b[0])
    ensures RegionPieces(a + "," + b) == [a] + RegionPieces(b)
  {
    var s := a + ("," + b);
    assert s == a + "," + b;
    CommaAfter(a, "," + b);
    assert s[..|a|] == a && s[|a| + 1..] == b;
  }

  /** One white-space character after the comma belongs to the separator. */
  lemma SplitAtSpacedComma(a: string, c: char, b: string)
    requires ',' !in a && IsSpace(c)
    ensures RegionPieces(a + "," + [c] + b) == [a] + RegionPieces(b)
  {
    var s := a + ("," + [c] + b);
    assert s == a + "," + [c] + b;
    CommaAfter(a, "," + [c] + b);
    assert s[|a| + 1] == c;
    assert s[..|a|] == a && s[|a| + 2..] == b;
  }

  /** Every comma is directly followed by a space. */
  predicate CommasSpaced(s: string) {
    forall k :: 0 <= k < |s| && s[k] == ',' ==> k + 1 < |s| && s[k + 1] == ' '
  }

  lemma CommasSpacedSuffix(s: string, m: nat)
    requires CommasSpaced(s) && m <= |s|
    ensures CommasSpaced(s[m..])
  {
    var rest := s[m..];
    forall k | 0 <= k < |rest| && rest[k] == ','
      ensures k + 1 < |rest| && rest[k + 1] == ' '
    {
      assert rest[k] == s[m + k];
    }
  }

  /** When every comma is followed by a space, joining the pieces with
      `", "` gives back the text. */
  lemma {:induction false} RegionsRoundTrip(s: string)
    requires CommasSpaced(s)
    ensures Join(", ", RegionPieces(s)) == s
    decreases |s|
  {
    var i := CommaIndex(s);
    if i < |s| {
      assert i + 1 < |s| && s[i + 1] == ' ';
      var rest := s[i + 2..];
      var r := RegionPieces(rest);
      assert RegionPieces(s) == [s[..i]] + r;
      assert Join(", ", r) == rest by {
        CommasSpacedSuffix(s, i + 2);
        RegionsRoundTrip(rest);
      }
      calc {
        Join(", ", [s[..i]] + r);
      == { JoinCons(", ", s[..i], r); }
        s[..i] + ", " + rest;
      == { assert s[i..i + 2] == ", "; }
        s;
      }
    }
  }

  lemma JoinCons(sep: string, x: string, xs: seq<string>)
    requires xs != []
    ensures Join(sep, [x] + xs) == x + sep + Join(sep, xs)
  {
    assert ([x] + xs)[1..] == xs;
  }

  /** Without commas in the tokens there is at most one region: the tokens
      joined by a space, or none when that is empty. */
  lemma AtMostOneRegion(parts: seq<string>)
    requires forall t :: t in parts ==> ',' !in t
    ensures |Regions(parts)| <= 1
    ensures Join(" ", parts) != "" ==> Regions(parts) == [Join(" ", parts)]
    ensures Join(" ", parts) == "" ==> Regions(parts) == []
  {
    var s := Join(" ", parts);
    if ',' in s {
      JoinChars(" ", parts, ',');
      assert false;
    }
    assert CommaIndex(s) == |s|;
    assert RegionPieces(s) == [s];
    assert NonEmpty([s]) == (if s == "" then [] else [s]) + NonEmpty([]);
  }

  /** A second `finalize` finds no tokens, and so sets no region. */
  lemma NoTokensNoRegions()
    ensures Regions([]) == []
  {
    assert RegionPieces("") == [""];
    assert NonEmpty([""]) == [] + NonEmpty([]);
  }

  // ---------------------------------------------------------------------
  // Properties of the ordinal stripping

  /** A digit run followed by a suffix and a boundary loses the suffix:
      `3rd Avenue` becomes `3 Avenue`. */
  lemma OrdinalStripped(d: string, a: char, b: char, rest: string)
    requires AllDigits(d) && IsOrdinalSuffix(a, b)
    requires rest == [] || !IsWordChar(rest[0])
    ensures StripOrdinals(d + [a, b] + rest) == d + StripOrdinals(rest)
  {
    var s := d + [a, b] + rest;
    assert s[|d|] == a;
    assert forall k :: 0 <= k < |d| ==> s[k] == d[k];
    var j := DigitRunEnd(s, 0);
    assert j == |d|;
    assert OrdinalAt(s, j) by {
      assert s[j + 1] == b;
      if j + 2 < |s| {
        assert s[j + 2] == rest[0];
      }
    }
    assert s[..j] == d && s[j + 2..] == rest;
  }

  /** Text without any of the letters `t`, `r`, `n`, `s` has no suffix to
      strip and is unchanged: upper-case suffixes (`3RD`) stay. */
  lemma {:induction false} NoSuffixLettersUnchanged(s: string)
    requires forall k :: 0 <= k < |s| ==> s[k] != 't' && s[k] != 'r' && s[k] != 'n' && s[k] != 's'
    ensures StripOrdinals(s) == s
    decreases |s|
  {
    if s != [] {
      if IsDigit(s[0]) {
        var j := DigitRunEnd(s, 0);
        assert !OrdinalAt(s, j) by {
          if j + 2 <= |s| {
            assert s[j] != 't' && s[j] != 'r' && s[j] != 'n' && s[j] != 's';
          }
        }
      }
      NoSuffixLettersUnchanged(s[1..]);
      assert s == [s[0]] + s[1..];
    }
  }

  /** A suffix inside a word stays: `4thly` and `21st3` keep their
      letters, since no boundary follows the suffix. */
  lemma SuffixInsideWordKept(d: string, a: char, b: char, c: char, rest: string)
    requires AllDigits(d) && IsOrdinalSuffix(a, b) && IsWordChar(c)
    ensures StripOrdinals(d + [a, b, c] + rest) == d + StripOrdinals([a, b, c] + rest)
  {
    DigitsCopied(d, [a, b, c] + rest);
    assert d + [a, b, c] + rest == d + ([a, b, c] + rest);
  }

  /** A digit run is copied when no suffix-and-boundary follows it. */
  lemma {:induction false} DigitsCopied(d: string, rest: string)
    requires forall k :: 0 <= k < |d| ==> IsDigit(d[k])
    requires rest != [] && !IsDigit(rest[0]) && !OrdinalAt(rest, 0)
    ensures StripOrdinals(d + rest) == d + StripOrdinals(rest)
    decreases |d|
  {
    if d != [] {
      var s := d + rest;
      assert !OrdinalAt(s, DigitRunEnd(s, 0)) by {
        DigitRunOfDigits(d, rest);
        OrdinalAfterDigits(d, rest);
      }
      assert s[0] == d[0];
      assert s[1..] == d[1..] + rest;
      DigitsCopied(d[1..], rest);
      ConsAppend(d, StripOrdinals(rest));
    } else {
      assert d + rest == rest;
    }
  }

  lemma ConsAppend(d: string, t: string)
    requires d != []
    ensures [d[0]] + (d[1..] + t) == d + t
  {
    assert [d[0]] + d[1..] == d;
  }

  /** The digit run at the start of `d + rest` is `d`. */
  lemma DigitRunOfDigits(d: string, rest: string)
    requires forall k :: 0 <= k < |d| ==> IsDigit(d[k])
    requires rest != [] && !IsDigit(rest[0])
    ensures DigitRunEnd(d + rest, 0) == |d|
  {
    var s := d + rest;
    assert forall k :: 0 <= k < |d| ==> s[k] == d[k];
    assert s[|d|] == rest[0];
  }

  /** A suffix right after `d` is a suffix at the start of `rest`. */
  lemma OrdinalAfterDigits(d: string, rest: string)
    ensures OrdinalAt(d + rest, |d|) <==> OrdinalAt(rest, 0)
  {
    var s := d + rest;
    if |rest| >= 2 {
      assert s[|d|] == rest[0] && s[|d| + 1] == rest[1];
      if |rest| > 2 {
        assert s[|d| + 2] == rest[2];
      }
    }
  }

  /** The digit run of a suffix of `s` is the digit run of `s`. */
  lemma {:induction false} DigitRunShift(s: string, i: nat, k: nat)
    requires i <= k <= |s|
    ensures DigitRunEnd(s[i..], k - i) == DigitRunEnd(s, k) - i
    decreases |s| - k
  {
    if k < |s| {
      assert s[i..][k - i] == s[k];
      if IsDigit(s[k]) {
        DigitRunShift(s, i, k + 1);
      }
    }
  }

  /** A suffix of `s` has an ordinal where `s` has one. */
  lemma OrdinalShift(s: string, i: nat, j: nat)
    requires i <= j && i <= |s|
    ensures OrdinalAt(s[i..], j - i) <==> OrdinalAt(s, j)
  {
    if j + 2 <= |s| {
      assert s[i..][j - i] == s[j] && s[i..][j - i + 1] == s[j + 1];
      if j + 2 < |s| {
        assert s[i..][j - i + 2] == s[j + 2];
      }
    }
  }

  /** The digits of a run are no suffix letters, so the reference copies
      them. */
  lemma {:induction false} KeepDigitRun(s: string, k: nat, j: nat)
    requires k <= j <= |s|
    requires forall m :: k <= m < j ==> IsDigit(s[m])
    ensures KeepNonOrdinals(s, k) == s[k..j] + KeepNonOrdinals(s, j)
    decreases j - k
  {
    if k < j {
      DigitKept(s, k);
      KeepStep(s, k);
      KeepDigitRun(s, k + 1, j);
      ConsSlice(s, k, j, KeepNonOrdinals(s, j));
    }
  }

  /** Putting a character back in front of the rest of a slice. */
  lemma ConsSlice(s: string, k: nat, j: nat, t: string)
    requires k < j <= |s|
    ensures [s[k]] + (s[k + 1..j] + t) == s[k..j] + t
  {
    assert s[k..j] == [s[k]] + s[k + 1..j];
  }

  /** The reference copies a character that is no suffix letter. */
  lemma KeepStep(s: string, k: nat)
    requires k < |s| && !SuffixLetter(s, k)
    ensures KeepNonOrdinals(s, k) == [s[k]] + KeepNonOrdinals(s, k + 1)
  {
  }

  /** A digit is no suffix letter: both letters of a suffix are letters. */
  lemma DigitKept(s: string, k: nat)
    requires k < |s| && IsDigit(s[k])
    ensures !SuffixLetter(s, k)
  {
    assert k >= 1 ==> !OrdinalAt(s, k - 1);
    assert !OrdinalAt(s, k);
  }

  /** The replacement at a digit run followed by a suffix and a
      boundary: the digits stay and the scan resumes after the suffix. */
  lemma StripMatchStep(s: string, i: nat, j: nat)
    requires i < |s| && IsDigit(s[i]) && j == DigitRunEnd(s, i) && OrdinalAt(s, j)
    ensures StripOrdinals(s[i..]) == s[i..j] + StripOrdinals(s[j + 2..])
  {
    var t := s[i..];
    assert t[0] == s[i];
    DigitRunShift(s, i, i);
    OrdinalShift(s, i, j);
    assert t[..j - i] == s[i..j] && t[j - i + 2..] == s[j + 2..];
  }

  /** The two letters of a suffix that follows a digit and is followed
      by a boundary are both suffix letters, so the reference drops them. */
  lemma SuffixDropped(s: string, j: nat)
    requires j >= 1 && OrdinalAt(s, j) && IsDigit(s[j - 1])
    ensures KeepNonOrdinals(s, j) == KeepNonOrdinals(s, j + 2)
  {
    assert SuffixLetter(s, j);
    assert SuffixLetter(s, j + 1);
  }

  /** The character after such a suffix is no suffix letter: the two
      characters before it are letters, not digits. */
  lemma AfterSuffixKept(s: string, j: nat)
    requires OrdinalAt(s, j) && j + 2 < |s|
    ensures !SuffixLetter(s, j + 2)
  {
    assert !IsDigit(s[j]) && !IsDigit(s[j + 1]);
  }

  /** The reference at the same place: the digits stay, the suffix goes,
      and the character after the boundary is no suffix letter. */
  lemma KeepMatchStep(s: string, i: nat, j: nat)
    requires i < |s| && j == DigitRunEnd(s, i) && i < j && OrdinalAt(s, j)
    ensures KeepNonOrdinals(s, i) == s[i..j] + KeepNonOrdinals(s, j + 2)
    ensures j + 2 < |s| ==> !SuffixLetter(s, j + 2)
  {
    KeepDigitRun(s, i, j);
    SuffixDropped(s, j);
    if j + 2 < |s| {
      AfterSuffixKept(s, j);
    }
  }

  /** The replacement anywhere else copies one character. */
  lemma StripCopyStep(s: string, i: nat)
    requires i < |s| && !(IsDigit(s[i]) && OrdinalAt(s, DigitRunEnd(s, i)))
    ensures StripOrdinals(s[i..]) == [s[i]] + StripOrdinals(s[i + 1..])
  {
    var t := s[i..];
    assert t[0] == s[i];
    DigitRunShift(s, i, i);
    OrdinalShift(s, i, DigitRunEnd(s, i));
    assert t[1..] == s[i + 1..];
  }

  /** The reference there copies it too, and the next character is no
      suffix letter. */
  lemma KeepCopyStep(s: string, i: nat)
    requires i < |s| && !SuffixLetter(s, i) && !(IsDigit(s[i]) && OrdinalAt(s, DigitRunEnd(s, i)))
    ensures KeepNonOrdinals(s, i) == [s[i]] + KeepNonOrdinals(s, i + 1)
    ensures i + 1 < |s| ==> !SuffixLetter(s, i + 1)
  {
    if i + 1 < |s| && IsDigit(s[i]) && !IsDigit(s[i + 1]) {
      assert DigitRunEnd(s, i) == i + 1;
    }
  }

  /** From a position that is no suffix letter, the left-to-right
      replacement of `s[i..]` keeps exactly the characters that are no
      suffix letters. */
  lemma {:induction false} StripOrdinalsKeeps(s: string, i: nat)
    requires i <= |s| && (i < |s| ==> !SuffixLetter(s, i))
    ensures StripOrdinals(s[i..]) == KeepNonOrdinals(s, i)
    decreases |s| - i, 1
  {
    if i < |s| {
      if IsDigit(s[i]) && OrdinalAt(s, DigitRunEnd(s, i)) {
        MatchKeeps(s, i, DigitRunEnd(s, i));
      } else {
        CopyKeeps(s, i);
      }
    } else {
      assert s[i..] == [];
    }
  }

  /** The case of a match at `i`. */
  lemma {:induction false} MatchKeeps(s: string, i: nat, j: nat)
    requires i < |s| && IsDigit(s[i]) && j == DigitRunEnd(s, i) && OrdinalAt(s, j)
    ensures StripOrdinals(s[i..]) == KeepNonOrdinals(s, i)
    decreases |s| - i, 0
  {
    DigitKept(s, i);
    KeepMatchStep(s, i, j);
    StripOrdinalsKeeps(s, j + 2);
    calc {
      StripOrdinals(s[i..]);
    == { StripMatchStep(s, i, j); }
      s[i..j] + StripOrdinals(s[j + 2..]);
    ==
      s[i..j] + KeepNonOrdinals(s, j + 2);
    }
  }

  /** The case of a copied character at `i`. */
  lemma {:induction false} CopyKeeps(s: string, i: nat)
    requires i < |s| && !SuffixLetter(s, i) && !(IsDigit(s[i]) && OrdinalAt(s, DigitRunEnd(s, i)))
    ensures StripOrdinals(s[i..]) == KeepNonOrdinals(s, i)
    decreases |s| - i, 0
  {
    StripCopyStep(s, i);
    KeepCopyStep(s, i);
    StripOrdinalsKeeps(s, i + 1);
  }

  /** The whole replacement removes exactly the suffix letters: every
      digit run followed by a suffix and a boundary loses the suffix,
      wherever it stands, and nothing else changes. */
  lemma OrdinalsRemoved(s: string)
    ensures StripOrdinals(s) == KeepNonOrdinals(s, 0)
  {
    assert s[0..] == s;
    StripOrdinalsKeeps(s, 0);
  }

  /** A character that is not a digit is copied, and the replacement goes
      on after it. */
  lemma NonDigitCopied(c: char, r: string)
    requires !IsDigit(c)
    ensures StripOrdinals([c] + r) == [c] + StripOrdinals(r)
  {
    assert ([c] + r)[1..] == r;
  }
}
