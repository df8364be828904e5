/** The four text rewrites the English parser cleans its input with
    (parsers/en.js:104-129), each a JavaScript `String.prototype.replace`
    with a fixed pattern, written out here character by character. */
module EnCleaners {
  import opened Js
  import opened Finalizer

  // ---------------------------------------------------------------------
  // Character tests shared by the patterns

  /** Upper case as the `i` flag compares ASCII letters: a letter of the
      pattern matches itself in either case and nothing else. */
  function Upper(c: char): char {
    if 'a' <= c <= 'z' then (c as int - 32) as char else c
  }

  /** The upper-case word `w` at `i`, in any case. */
  predicate LiteralAt(s: string, i: nat, w: string) {
    i + |w| <= |s| && forall k :: i <= k < i + |w| ==> Upper(s[k]) == w[k - i]
  }

  /** The end of the run of `\s` characters starting at `i`. */
  function SpaceRunEnd(s: string, i: nat): (j: nat)
    requires i <= |s|
    ensures i <= j <= |s|
    ensures forall k :: i <= k < j ==> IsSpace(s[k])
    ensures j < |s| ==> !IsSpace(s[j])
    decreases |s| - i
  {
    if i == |s| || !IsSpace(s[i]) then i else SpaceRunEnd(s, i + 1)
  }

  /** A run of spaces from `i` to `j` that stops at `j` is the run. */
  lemma {:induction false} SpaceRunIs(s: string, i: nat, j: nat)
    requires i <= j <= |s|
    requires forall k :: i <= k < j ==> IsSpace(s[k])
    requires j < |s| ==> !IsSpace(s[j])
    ensures SpaceRunEnd(s, i) == j
    decreases j - i
  {
    if i < j {
      SpaceRunIs(s, i + 1, j);
    }
  }

  /** The same for a run of digits. */
  lemma {:induction false} DigitRunIs(s: string, i: nat, j: nat)
    requires i <= j <= |s|
    requires forall k :: i <= k < j ==> IsDigit(s[k])
    requires j < |s| ==> !IsDigit(s[j])
    ensures DigitRunEnd(s, i) == j
    decreases j - i
  {
    if i < j {
      DigitRunIs(s, i + 1, j);
    }
  }

  /** The characters of a slice are characters of the string. */
  lemma SliceChars(s: string, a: nat, b: nat)
    requires a <= b <= |s|
    ensures forall x :: x in s[a..b] ==> x in s
  {
    forall x | x in s[a..b] ensures x in s {
      var k :| 0 <= k < b - a && s[a..b][k] == x;
      assert s[a + k] == x;
    }
  }

  // ---------------------------------------------------------------------
  // `input.replace(/(\w{1,2})\./g, '$1')`

  /** A `.` right after a word character. */
  predicate WordDot(s: string, i: nat)
    requires i < |s|
  {
    i > 0 && s[i] == '.' && IsWordChar(s[i - 1])
  }

  /** The global replacement scanning from `i`: at two word characters and
      a dot the greedy `\w{1,2}` takes both, at one word character and a
      dot it takes one; the match is replaced by its word characters and
      the scan resumes after the dot. Anywhere else one character is
      copied and the scan moves on. */
  function StripDotsFrom(s: string, i: nat): string
    requires i <= |s|
    decreases |s| - i
  {
    if i + 2 < |s| && IsWordChar(s[i]) && IsWordChar(s[i + 1]) && s[i + 2] == '.' then
      [s[i], s[i + 1]] + StripDotsFrom(s, i + 3)
    else if i + 1 < |s| && IsWordChar(s[i]) && s[i + 1] == '.' then
      [s[i]] + StripDotsFrom(s, i + 2)
    else if i < |s| then
      [s[i]] + StripDotsFrom(s, i + 1)
    else []
  }

  /** The first cleaner: remove trailing dots from one- or two-letter
      abbreviations (parsers/en.js:106-108). */
  function StripAbbreviationDots(s: string): string {
    StripDotsFrom(s, 0)
  }

  /** Reference definition: the characters from `i` on, without the dots
      that directly follow a word character. */
  function KeepNonWordDots(s: string, i: nat): string
    requires i <= |s|
    decreases |s| - i
  {
    if i == |s| then [] else (if WordDot(s, i) then [] else [s[i]]) + KeepNonWordDots(s, i + 1)
  }

  /** Wherever the scan resumes, the character there is not a dot after a
      word character, and from there on the scan deletes exactly such dots. */
  /** One step of both at two word characters and a dot. */
  lemma PairDotStep(s: string, i: nat)
    requires i + 2 < |s| && IsWordChar(s[i]) && IsWordChar(s[i + 1]) && s[i + 2] == '.' && !WordDot(s, i)
    ensures StripDotsFrom(s, i) == [s[i], s[i + 1]] + StripDotsFrom(s, i + 3)
    ensures KeepNonWordDots(s, i) == [s[i], s[i + 1]] + KeepNonWordDots(s, i + 3)
    ensures i + 3 < |s| ==> !WordDot(s, i + 3)
  {
    var rest := KeepNonWordDots(s, i + 3);
    assert !WordDot(s, i + 1) && WordDot(s, i + 2);
    assert KeepNonWordDots(s, i + 2) == rest;
    assert KeepNonWordDots(s, i + 1) == [s[i + 1]] + rest;
    assert [s[i], s[i + 1]] + rest == [s[i]] + ([s[i + 1]] + rest);
  }

  /** One step of both at one word character and a dot. */
  lemma SingleDotStep(s: string, i: nat)
    requires i + 1 < |s| && IsWordChar(s[i]) && s[i + 1] == '.' && !WordDot(s, i)
    ensures StripDotsFrom(s, i) == [s[i]] + StripDotsFrom(s, i + 2)
    ensures KeepNonWordDots(s, i) == [s[i]] + KeepNonWordDots(s, i + 2)
    ensures i + 2 < |s| ==> !WordDot(s, i + 2)
  {
    assert !IsWordChar(s[i + 1]);
    assert WordDot(s, i + 1);
    assert KeepNonWordDots(s, i + 1) == KeepNonWordDots(s, i + 2);
  }

  /** One step of both anywhere else: the character is copied, and the
      next one is not a dot after a word character. */
  lemma CopyStep(s: string, i: nat)
    requires i < |s| && !WordDot(s, i)
    requires !(i + 2 < |s| && IsWordChar(s[i]) && IsWordChar(s[i + 1]) && s[i + 2] == '.')
    requires !(i + 1 < |s| && IsWordChar(s[i]) && s[i + 1] == '.')
    ensures StripDotsFrom(s, i) == [s[i]] + StripDotsFrom(s, i + 1)
    ensures KeepNonWordDots(s, i) == [s[i]] + KeepNonWordDots(s, i + 1)
    ensures i + 1 < |s| ==> !WordDot(s, i + 1)
  {
  }

  lemma {:induction false} StripDotsFromKeeps(s: string, i: nat)
    requires i <= |s| && (i < |s| ==> !WordDot(s, i))
    ensures StripDotsFrom(s, i) == KeepNonWordDots(s, i)
    decreases |s| - i
  {
    if i + 2 < |s| && IsWordChar(s[i]) && IsWordChar(s[i + 1]) && s[i + 2] == '.' {
      PairDotStep(s, i);
      StripDotsFromKeeps(s, i + 3);
    } else if i + 1 < |s| && IsWordChar(s[i]) && s[i + 1] == '.' {
      SingleDotStep(s, i);
      StripDotsFromKeeps(s, i + 2);
    } else if i < |s| {
      CopyStep(s, i);
      StripDotsFromKeeps(s, i + 1);
    }
  }

  /** Every `.` directly after a word character is deleted, and nothing
      else changes. */
  lemma AbbreviationDotsRemoved(s: string)
    ensures StripAbbreviationDots(s) == KeepNonWordDots(s, 0)
  {
    StripDotsFromKeeps(s, 0);
  }

  /** A dot after a dot is kept by this cleaner (it is the second one
      that turns it into a space). */
  lemma SecondDotKept()
    ensures StripAbbreviationDots("A..") == "A."
  {
    var s := "A..";
    assert !WordDot(s, 0) && WordDot(s, 1) && !WordDot(s, 2);
    AbbreviationDotsRemoved(s);
    assert KeepNonWordDots(s, 3) == [];
  }

  // ---------------------------------------------------------------------
  // `input.replace(/(\.|,)/g, ' ')`

  /** The second cleaner: every dot and comma becomes a space
      (parsers/en.js:111-113). */
  function DotsCommasToSpaces(s: string): (r: string)
    decreases |s|
  {
    if s == [] then []
    else [if s[0] == '.' || s[0] == ',' then ' ' else s[0]] + DotsCommasToSpaces(s[1..])
  }

  /** The text keeps its length, every other character stays where it was,
      and no dot or comma is left. */
  lemma {:induction false} DotsCommasReplaced(s: string)
    ensures var r := DotsCommasToSpaces(s);
      && |r| == |s|
      && (forall i :: 0 <= i < |s| ==> r[i] == if s[i] == '.' || s[i] == ',' then ' ' else s[i])
      && '.' !in r && ',' !in r
    decreases |s|
  {
    if s != [] {
      DotsCommasReplaced(s[1..]);
      var r := DotsCommasToSpaces(s);
      assert r[1..] == DotsCommasToSpaces(s[1..]);
      forall i | 1 <= i < |s| ensures r[i] == if s[i] == '.' || s[i] == ',' then ' ' else s[i] {
        assert r[i] == r[1..][i - 1] && s[i] == s[1..][i - 1];
      }
    }
  }

  // ---------------------------------------------------------------------
  // `input.replace(/^\s*SHOP\s?(\d*)\,?\s*/i, '$1/')`

  /** Where the match of the third cleaner's pattern puts the digits
      (from `digitsFrom` to `digitsTo`) and where the text after it starts. */
  datatype ShopMatch = ShopMatch(digitsFrom: nat, digitsTo: nat, restFrom: nat)

  /** The match of `^\s*SHOP\s?(\d*)\,?\s*` with the `i` flag: `SHOP`, in any case,
      after optional white space, then one optional white-space character,
      the digits, an optional comma and any white space after them. Every
      part after `SHOP` is optional, so the greedy path is the match;
      before `SHOP` the greedy `\s*` is the only way to reach an `S`. */
  function FindShop(s: string): (r: Option<ShopMatch>)
    ensures r.Some? ==> r.value.digitsFrom <= r.value.digitsTo <= r.value.restFrom <= |s|
  {
    var i := SpaceRunEnd(s, 0);
    if LiteralAt(s, i, "SHOP") then
      var d := OptionalSpace(s, i + 4);
      var n := DigitRunEnd(s, d);
      var c := OptionalComma(s, n);
      Some(ShopMatch(d, n, SpaceRunEnd(s, c)))
    else None
  }

  /** Past the optional `\s?` at `j`. */
  function OptionalSpace(s: string, j: nat): (k: nat)
    requires j <= |s|
    ensures j <= k <= j + 1 && k <= |s|
    ensures k == j + 1 <==> j < |s| && IsSpace(s[j])
  {
    if j < |s| && IsSpace(s[j]) then j + 1 else j
  }

  /** Past the optional `\,?` at `j`. */
  function OptionalComma(s: string, j: nat): (k: nat)
    requires j <= |s|
    ensures j <= k <= j + 1 && k <= |s|
    ensures k == j + 1 <==> j < |s| && s[j] == ','
  {
    if j < |s| && s[j] == ',' then j + 1 else j
  }

  /** The third cleaner: the match is replaced by its digits and a `/`
      (parsers/en.js:116-118). */
  function ShopToUnit(s: string): string {
    match FindShop(s)
    case None => s
    case Some(m) => s[m.digitsFrom..m.digitsTo] + "/" + s[m.restFrom..]
  }

  /** The match read off positions: white space up to `i`, `SHOP` at `i`,
      the optional white space up to `d`, digits up to `n`, the optional
      comma up to `c` and white space up to `w`, each part as long as it
      can be. The text becomes the digits, a `/` and what follows `w`. */
  lemma ShopRewrite(s: string, i: nat, d: nat, n: nat, c: nat, w: nat)
    requires i + 4 <= d <= n <= c <= w <= |s| && d <= i + 5 && c <= n + 1
    requires forall k :: 0 <= k < i ==> IsSpace(s[k])
    requires LiteralAt(s, i, "SHOP")
    requires d == i + 5 ==> IsSpace(s[i + 4])
    requires d == i + 4 ==> d == |s| || !IsSpace(s[d])
    requires forall k :: d <= k < n ==> IsDigit(s[k])
    requires n < |s| ==> !IsDigit(s[n])
    requires c == n + 1 ==> s[n] == ','
    requires c == n ==> n == |s| || s[n] != ','
    requires forall k :: c <= k < w ==> IsSpace(s[k])
    requires w < |s| ==> !IsSpace(s[w])
    ensures FindShop(s) == Some(ShopMatch(d, n, w))
    ensures ShopToUnit(s) == s[d..n] + "/" + s[w..]
  {
    SpaceRunIs(s, 0, i);
    DigitRunIs(s, d, n);
    SpaceRunIs(s, c, w);
    ShopSteps(s, i, d, n, c, w);
  }

  /** `FindShop` read off the results of its steps. */
  lemma ShopSteps(s: string, i: nat, d: nat, n: nat, c: nat, w: nat)
    requires SpaceRunEnd(s, 0) == i && LiteralAt(s, i, "SHOP")
    requires d == OptionalSpace(s, i + 4)
    requires DigitRunEnd(s, d) == n
    requires c == OptionalComma(s, n)
    requires SpaceRunEnd(s, c) == w
    ensures FindShop(s) == Some(ShopMatch(d, n, w))
  {
  }

  /** Where the match of `SHOP 5 12 X` lies. */
  lemma ShopExampleMatch()
    ensures FindShop("SHOP 5 12 X") == Some(ShopMatch(5, 6, 7))
  {
    var s := "SHOP 5 12 X";
    assert LiteralAt(s, 0, "SHOP") by {
      assert Upper(s[0]) == 'S' && Upper(s[1]) == 'H' && Upper(s[2]) == 'O' && Upper(s[3]) == 'P';
    }
    assert IsSpace(s[4]) && IsDigit(s[5]) && IsSpace(s[6]) && !IsSpace(s[7]);
    ShopRewrite(s, 0, 5, 6, 6, 7);
  }

  /** `SHOP 5 12 X` becomes `5/12 X`. */
  lemma ShopExample()
    ensures ShopToUnit("SHOP 5 12 X") == "5/12 X"
  {
    var s := "SHOP 5 12 X";
    ShopExampleMatch();
    assert s[5..6] == "5" && s[7..] == "12 X";
    assert "5" + "/" + "12 X" == "5/12 X";
  }

  /** Text that does not begin with `SHOP` (after white space) is kept. */
  lemma NoShopKept(s: string)
    requires !LiteralAt(s, SpaceRunEnd(s, 0), "SHOP")
    ensures ShopToUnit(s) == s
  {
  }

  /** The rewrite deletes characters and adds a `/`, nothing else. */
  lemma ShopAddsOnlySlash(s: string, x: char)
    requires x in ShopToUnit(s)
    ensures x in s || x == '/'
  {
    match FindShop(s)
    case None =>
    case Some(m) =>
      SliceChars(s, m.digitsFrom, m.digitsTo);
      SliceChars(s, m.restFrom, |s|);
      assert s[m.restFrom..] == s[m.restFrom..|s|];
  }

  // ---------------------------------------------------------------------
  // `input.replace(/W1\sW2/i, abbr)`, four times

  /** `w1`, one `\s` character and `w2` at `i`, in any case. */
  predicate PairAt(s: string, i: nat, w1: string, w2: string) {
    LiteralAt(s, i, w1) && i + |w1| < |s| && IsSpace(s[i + |w1|]) && LiteralAt(s, i + |w1| + 1, w2)
  }

  /** The leftmost occurrence at or after `i`. */
  function FindPair(s: string, w1: string, w2: string, i: nat): (r: Option<nat>)
    requires i <= |s|
    ensures r.Some? ==> i <= r.value && PairAt(s, r.value, w1, w2)
    ensures r.Some? ==> forall k :: i <= k < r.value ==> !PairAt(s, k, w1, w2)
    ensures r.None? ==> forall k :: i <= k ==> !PairAt(s, k, w1, w2)
    decreases |s| - i
  {
    if i == |s| then None
    else if PairAt(s, i, w1, w2) then Some(i)
    else FindPair(s, w1, w2, i + 1)
  }

  /** A non-global replacement: only the leftmost occurrence is replaced. */
  function ReplaceFirst(s: string, w1: string, w2: string, abbr: string): string {
    match FindPair(s, w1, w2, 0)
    case None => s
    case Some(i) => s[..i] + abbr + s[i + |w1| + 1 + |w2|..]
  }

  /** The fourth cleaner: `SOUTH EAST`, `SOUTH WEST`, `NORTH EAST` and
      `NORTH WEST` become `SE`, `SW`, `NE` and `NW`, in that order
      (parsers/en.js:121-127). */
  function TightenCompass(s: string): string {
    var a := ReplaceFirst(s, "SOUTH", "EAST", "SE");
    var b := ReplaceFirst(a, "SOUTH", "WEST", "SW");
    var c := ReplaceFirst(b, "NORTH", "EAST", "NE");
    ReplaceFirst(c, "NORTH", "WEST", "NW")
  }

  /** A shifted copy keeps a word. */
  lemma LiteralShift(s: string, t: string, i: nat, i2: nat, w: string)
    requires LiteralAt(s, i, w) && i2 + |w| <= |t|
    requires forall k :: i <= k < i + |w| ==> t[k - i + i2] == s[k]
    ensures LiteralAt(t, i2, w)
  {
    forall m | i2 <= m < i2 + |w| ensures Upper(t[m]) == w[m - i2] {
      assert t[m] == s[m - i2 + i];
    }
  }

  /** A shifted copy keeps an occurrence. */
  lemma PairShift(s: string, t: string, j: nat, j2: nat, w1: string, w2: string)
    requires PairAt(s, j, w1, w2) && j2 + |w1| + 1 + |w2| <= |t|
    requires forall k :: j <= k < j + |w1| + 1 + |w2| ==> t[k - j + j2] == s[k]
    ensures PairAt(t, j2, w1, w2)
  {
    LiteralShift(s, t, j, j2, w1);
    assert t[j2 + |w1|] == s[j + |w1|];
    LiteralShift(s, t, j + |w1| + 1, j2 + |w1| + 1, w2);
  }

  /** After a replacement, the text past the replaced part is the text
      past `e` in the original. */
  lemma ReplacedTail(s: string, f: nat, e: nat, abbr: string, m: nat)
    requires f <= e && e + m < |s|
    ensures (s[..f] + abbr + s[e..])[f + |abbr| + m] == s[e + m]
  {
  }

  /** Only the first occurrence goes: an occurrence after the end of the
      first one (here at `j`) is still there, moved by the difference in
      length. */
  lemma LaterPairKept(s: string, w1: string, w2: string, abbr: string, i: nat, j: nat)
    requires PairAt(s, i, w1, w2) && PairAt(s, j, w1, w2) && i + |w1| + 1 + |w2| <= j
    ensures PairAt(ReplaceFirst(s, w1, w2, abbr), j - (|w1| + 1 + |w2|) + |abbr|, w1, w2)
  {
    var r := ReplaceFirst(s, w1, w2, abbr);
    var j' := j - (|w1| + 1 + |w2|) + |abbr|;
    assert PairAt(r, j', w1, w2) by {
      var f := FindPair(s, w1, w2, 0).value;
      var e := f + |w1| + 1 + |w2|;
      assert r == s[..f] + abbr + s[e..];
      assert |r| - j' == |s| - j;
      forall k | j <= k < |s| ensures r[k - j + j'] == s[k] {
        ReplacedTail(s, f, e, abbr, k - e);
      }
      PairShift(s, r, j, j', w1, w2);
    }
  }

  /** The replacement adds no character other than those of `abbr`. */
  lemma ReplaceFirstChars(s: string, w1: string, w2: string, abbr: string, x: char)
    requires x in ReplaceFirst(s, w1, w2, abbr)
    ensures x in s || x in abbr
  {
    match FindPair(s, w1, w2, 0)
    case None =>
    case Some(i) =>
      var e := i + |w1| + 1 + |w2|;
      SliceChars(s, 0, i);
      SliceChars(s, e, |s|);
      assert s[..i] == s[0..i] && s[e..] == s[e..|s|];
  }

  /** The compass cleaner adds only letters of `SE`, `SW`, `NE`, `NW`. */
  lemma CompassChars(s: string, x: char)
    requires x in TightenCompass(s)
    ensures x in s || x in "SENW"
  {
    var a := ReplaceFirst(s, "SOUTH", "EAST", "SE");
    var b := ReplaceFirst(a, "SOUTH", "WEST", "SW");
    var c := ReplaceFirst(b, "NORTH", "EAST", "NE");
    ReplaceFirstChars(c, "NORTH", "WEST", "NW", x);
    if x in c {
      ReplaceFirstChars(b, "NORTH", "EAST", "NE", x);
      if x in b {
        ReplaceFirstChars(a, "SOUTH", "WEST", "SW", x);
        if x in a {
          ReplaceFirstChars(s, "SOUTH", "EAST", "SE", x);
        }
      }
    }
  }
}
