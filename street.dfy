/** The street segmenter of `Address#extractStreet` and
    `Address#_extractStreetParts`: find a street-type token scanning from
    the right, drop it and everything after it, and split the tokens just
    before it into a street name and a building number. */
module StreetSegmenter {
  import opened Js
  import opened RegExps
  import opened Compiler

  // ---------------------------------------------------------------------
  // _extractStreetParts

  /** The start of the longest run of tokens ending just before `hi` that
      are all numeric (`numeric`) or all non-numeric (`!numeric`). */
  function RunStart(p: seq<string>, hi: nat, numeric: bool): (lo: nat)
    requires hi <= |p|
    ensures lo <= hi
    decreases hi
  {
    if hi == 0 || IsNumeric(p[hi - 1]) != numeric then hi else RunStart(p, hi - 1, numeric)
  }

  /** The run is uniform and cannot be extended to the left. */
  lemma {:induction false} RunStartRun(p: seq<string>, hi: nat, numeric: bool)
    requires hi <= |p|
    ensures forall k {:trigger IsNumeric(p[k])} :: RunStart(p, hi, numeric) <= k < hi ==> IsNumeric(p[k]) == numeric
    ensures RunStart(p, hi, numeric) > 0 ==> IsNumeric(p[RunStart(p, hi, numeric) - 1]) != numeric
    decreases hi
  {
    if hi > 0 && IsNumeric(p[hi - 1]) == numeric {
      RunStartRun(p, hi - 1, numeric);
      assert RunStart(p, hi, numeric) == RunStart(p, hi - 1, numeric);
    } else {
      assert RunStart(p, hi, numeric) == hi;
    }
  }

  /** The first street-name token: token `indx` is always one, and so is
      every non-numeric token directly before the name. */
  function NameStart(p: seq<string>, indx: int): nat
    requires -1 <= indx < |p|
  {
    if indx < 0 then 0 else RunStart(p, indx, false)
  }

  /** The first number token: the numeric run directly before the name. */
  function NumberStart(p: seq<string>, indx: int): nat
    requires -1 <= indx < |p|
  {
    RunStart(p, NameStart(p, indx), true)
  }

  /** `this.number` after line 74: an integer when it is all digits. */
  function NumberValue(t: string): Value {
    if AllDigits(t) then Num(DigitsValue(t)) else Str(t)
  }

  datatype Segmented = Segmented(rest: seq<string>, street: string, number: Value)

  /** What `_extractStreetParts(indx)` leaves: the tokens outside the
      removed block, the name tokens joined by a space without commas, and
      the number tokens joined by `/` (`''` when there are none). */
  function Segment(p: seq<string>, indx: int): Segmented
    requires -1 <= indx < |p|
  {
    var s := NameStart(p, indx);
    var n := NumberStart(p, indx);
    Segmented(p[..n] + p[indx + 1..],
              RemoveChar(Join(" ", p[s..indx + 1]), ','),
              NumberValue(if n < s then Join("/", p[n..s]) else ""))
  }

  // ---------------------------------------------------------------------
  // extractStreet

  datatype StreetState = StreetState(parts: seq<string>, streetType: Option<string>, street: Option<string>, number: Value)

  /** The first street pattern (from `k0` on) that matches `t`. */
  function FirstPattern(regexes: seq<Compiled>, e: Engine, t: string, k0: nat): (r: Option<nat>)
    requires k0 <= |regexes|
    ensures r.Some? ==> k0 <= r.value < |regexes| && Test(e, regexes[r.value].re, t)
    ensures r.Some? ==> forall k :: k0 <= k < r.value ==> !Test(e, regexes[k].re, t)
    ensures r.None? ==> forall k :: k0 <= k < |regexes| ==> !Test(e, regexes[k].re, t)
    decreases |regexes| - k0
  {
    if k0 == |regexes| then None
    else if Test(e, regexes[k0].re, t) then Some(k0)
    else FirstPattern(regexes, e, t, k0 + 1)
  }

  lemma FirstPatternSkip(regexes: seq<Compiled>, e: Engine, t: string, k: nat)
    requires k < |regexes| && !Test(e, regexes[k].re, t)
    ensures FirstPattern(regexes, e, t, k) == FirstPattern(regexes, e, t, k + 1)
  {
  }

  /** Accepting the street type at `partIdx` with pattern name `name`:
      the name (or the token when the name is empty) becomes `streetType`,
      the list is cut to the tokens before it, and those are segmented from
      the last one (address.js:224-235). */
  function Accept(st: StreetState, name: string, partIdx: nat): StreetState
    requires 0 < partIdx < |st.parts|
  {
    var seg := Segment(st.parts[..partIdx], partIdx - 1);
    StreetState(seg.rest, Some(if name != "" then name else st.parts[partIdx]), Some(seg.street), seg.number)
  }

  /** One pass of the token loop: token 0 is never accepted, and an index
      past the shortened list reads `undefined`, which matches no street
      pattern. The pattern loop's `break` ends only the pattern loop. */
  function StreetStep(st: StreetState, regexes: seq<Compiled>, e: Engine, partIdx: nat): StreetState {
    if 0 < partIdx < |st.parts| then
      match FirstPattern(regexes, e, st.parts[partIdx], 0)
      case Some(k) => Accept(st, regexes[k].name, partIdx)
      case None => st
    else st
  }

  /** The pass at `partIdx` when pattern `k` is the first to match a token
      past the first. */
  lemma StepAccepts(st: StreetState, regexes: seq<Compiled>, e: Engine, partIdx: nat, k: nat)
    requires 0 < partIdx < |st.parts| && k < |regexes|
    requires FirstPattern(regexes, e, st.parts[partIdx], 0) == FirstPattern(regexes, e, st.parts[partIdx], k)
    requires Test(e, regexes[k].re, st.parts[partIdx])
    ensures StreetStep(st, regexes, e, partIdx) == Accept(st, regexes[k].name, partIdx)
  {
  }

  /** The token loop from `partIdx - 1` down to 0 (address.js:216-239). */
  function StreetScan(st: StreetState, regexes: seq<Compiled>, e: Engine, partIdx: nat): StreetState
    decreases partIdx
  {
    if partIdx == 0 then st
    else StreetScan(StreetStep(st, regexes, e, partIdx - 1), regexes, e, partIdx - 1)
  }

  /** What `extractStreet(regexes)` computes. */
  function ExtractedStreet(st: StreetState, regexes: seq<Compiled>, e: Engine): StreetState {
    StreetScan(st, regexes, e, |st.parts|)
  }

  predicate MatchesSomePattern(regexes: seq<Compiled>, e: Engine, t: string) {
    exists k :: 0 <= k < |regexes| && Test(e, regexes[k].re, t)
  }

  // ---------------------------------------------------------------------
  // Properties of the segmentation

  /** The removed tokens are one block ending at `indx`: the tokens before
      it and after `indx` are untouched. The name is token `indx` with the
      non-numeric tokens directly before it; the number tokens are the
      numeric run before the name, and the walk stops at the first
      non-numeric token before them, or at the start of the list. */
  lemma SegmentBlock(p: seq<string>, indx: nat)
    requires indx < |p|
    ensures var s := NameStart(p, indx);
      var n := NumberStart(p, indx);
      && n <= s <= indx
      && Segment(p, indx).rest == p[..n] + p[indx + 1..]
      && (forall k {:trigger IsNumeric(p[k])} :: s <= k < indx ==> !IsNumeric(p[k]))
      && (s > 0 ==> IsNumeric(p[s - 1]))
      && (forall k {:trigger IsNumeric(p[k])} :: n <= k < s ==> IsNumeric(p[k]))
      && (n > 0 ==> n == s || !IsNumeric(p[n - 1]))
  {
    RunStartRun(p, indx, false);
    RunStartRun(p, NameStart(p, indx), true);
  }

  /** Tokens `lo` to `hi - 1` are all numeric (`numeric`) or all
      non-numeric (`!numeric`). */
  predicate Uniform(p: seq<string>, lo: nat, hi: nat, numeric: bool)
    requires lo <= hi <= |p|
    decreases hi
  {
    lo == hi || (IsNumeric(p[hi - 1]) == numeric && Uniform(p, lo, hi - 1, numeric))
  }

  lemma {:induction false} UniformAt(p: seq<string>, lo: nat, hi: nat, numeric: bool, k: int)
    requires lo <= hi <= |p| && Uniform(p, lo, hi, numeric)
    ensures lo <= k < hi ==> IsNumeric(p[k]) == numeric
    decreases hi
  {
    if lo <= k < hi - 1 {
      UniformAt(p, lo, hi - 1, numeric, k);
    }
  }

  /** The run `RunStart` finds is uniform, and the token before it is not
      part of it. */
  lemma {:induction false} RunStartUniform(p: seq<string>, hi: nat, numeric: bool)
    requires hi <= |p|
    ensures Uniform(p, RunStart(p, hi, numeric), hi, numeric)
    ensures RunStart(p, hi, numeric) > 0 ==> IsNumeric(p[RunStart(p, hi, numeric) - 1]) != numeric
    decreases hi
  {
    if hi > 0 && IsNumeric(p[hi - 1]) == numeric {
      RunStartUniform(p, hi - 1, numeric);
      assert RunStart(p, hi, numeric) == RunStart(p, hi - 1, numeric);
    } else {
      assert RunStart(p, hi, numeric) == hi;
    }
  }

  /** The block boundaries of `Segment(p, indx)` as plain numbers: the
      name is `p[s..indx + 1]`, the number tokens `p[n..s]`. */
  lemma SegmentShape(p: seq<string>, indx: int) returns (s: nat, n: nat)
    requires -1 <= indx < |p|
    ensures s == NameStart(p, indx) && n == NumberStart(p, indx)
    ensures n <= s <= indx + 1 && (indx >= 0 ==> s <= indx)
    ensures indx >= 0 ==> Uniform(p, s, indx, false)
    ensures s > 0 ==> IsNumeric(p[s - 1]) && n < s
    ensures Uniform(p, n, s, true)
    ensures n > 0 ==> !IsNumeric(p[n - 1])
  {
    s := NameStart(p, indx);
    n := NumberStart(p, indx);
    if indx >= 0 {
      RunStartUniform(p, indx, false);
      RunStartUniform(p, s, true);
      if s > 0 {
        assert n == RunStart(p, s - 1, true);
      }
    }
  }

  // ---------------------------------------------------------------------
  // The walk of `_extractStreetParts`

  /** The state of the walk with token `index` next: the tokens from
      `index + 1` to `indx` are out of the list, the name tokens among them
      in `streetParts` and the number tokens in `numberParts`; the number
      phase has started exactly when the walk is past the name. */
  predicate WalkAt(p: seq<string>, indx: int, s: nat, n: nat, index: int, parts: seq<string>,
                   streetParts: seq<string>, numberParts: Option<seq<string>>, numberMode: bool)
  {
    && n <= s <= indx + 1 <= |p|
    && -1 <= index <= indx && n - 1 <= index
    && parts == p[..index + 1] + p[indx + 1..]
    && (numberMode <==> index < s - 1)
    && streetParts == p[(if numberMode then s else index + 1)..indx + 1]
    && numberParts == (if numberMode then Some(p[index + 1..s]) else None)
  }

  lemma WalkStart(p: seq<string>, indx: int)
    requires -1 <= indx < |p|
    ensures WalkAt(p, indx, NameStart(p, indx), NumberStart(p, indx), indx, p, [], None, false)
  {
    var s, n := SegmentShape(p, indx);
    assert p[..indx + 1] + p[indx + 1..] == p;
  }

  /** One pass of the loop: token `index` joins the street (the first
      token, or a non-numeric one) or the number, and leaves the list. */
  lemma WalkNext(p: seq<string>, indx: int, index: int, parts: seq<string>,
                 streetParts: seq<string>, numberParts: Option<seq<string>>, numberMode: bool)
    requires -1 <= indx < |p|
    requires WalkAt(p, indx, NameStart(p, indx), NumberStart(p, indx), index, parts, streetParts, numberParts, numberMode)
    requires index >= 0 && (!numberMode || IsNumeric(parts[index]))
    ensures |streetParts| < 1 || !IsNumeric(parts[index]) ==>
      WalkAt(p, indx, NameStart(p, indx), NumberStart(p, indx), index - 1, parts[..index] + parts[index + 1..],
             [parts[index]] + streetParts, numberParts, numberMode)
    ensures !(|streetParts| < 1 || !IsNumeric(parts[index])) ==>
      WalkAt(p, indx, NameStart(p, indx), NumberStart(p, indx), index - 1, parts[..index] + parts[index + 1..],
             streetParts, Some([parts[index]] + (if numberParts.Some? then numberParts.value else [])), true)
  {
    var s, n := SegmentShape(p, indx);
    assert parts[index] == p[index];
    UniformAt(p, s, indx, false, index);
    UniformAt(p, n, s, true, index);
    assert parts[..index] + parts[index + 1..] == p[..index] + p[indx + 1..] by {
      assert parts[..index] == p[..index];
      assert parts[index + 1..] == p[indx + 1..];
    }
    if |streetParts| < 1 || !IsNumeric(parts[index]) {
      assert [p[index]] + p[index + 1..indx + 1] == p[index..indx + 1];
    } else {
      if !numberMode {
        assert index == s - 1;
      }
      assert [p[index]] + p[index + 1..s] == p[index..s];
    }
  }

  /** Where the walk stops: at the token before the number tokens, in the
      number phase exactly when there are number tokens. */
  lemma WalkStops(p: seq<string>, indx: int, index: int, parts: seq<string>,
                  streetParts: seq<string>, numberParts: Option<seq<string>>, numberMode: bool)
    requires -1 <= indx < |p|
    requires WalkAt(p, indx, NameStart(p, indx), NumberStart(p, indx), index, parts, streetParts, numberParts, numberMode)
    requires !(index >= 0 && (!numberMode || IsNumeric(parts[index])))
    ensures index + 1 == NumberStart(p, indx)
  {
    var s, n := SegmentShape(p, indx);
    if index >= 0 {
      assert parts[index] == p[index];
      UniformAt(p, n, s, true, index);
    }
  }

  /** When the walk stops, the name is `p[s..indx + 1]`, the number tokens
      `p[n..s]`, and the rest of the list is what precedes them. */
  lemma WalkEnd(p: seq<string>, indx: int, index: int, parts: seq<string>,
                streetParts: seq<string>, numberParts: Option<seq<string>>, numberMode: bool)
    requires -1 <= indx < |p|
    requires WalkAt(p, indx, NameStart(p, indx), NumberStart(p, indx), index, parts, streetParts, numberParts, numberMode)
    requires !(index >= 0 && (!numberMode || IsNumeric(parts[index])))
    ensures parts == p[..NumberStart(p, indx)] + p[indx + 1..]
    ensures streetParts == p[NameStart(p, indx)..indx + 1]
    ensures numberParts == if NumberStart(p, indx) < NameStart(p, indx)
      then Some(p[NumberStart(p, indx)..NameStart(p, indx)]) else None
  {
    WalkStops(p, indx, index, parts, streetParts, numberParts, numberMode);
    WalkEndAt(p, indx, NameStart(p, indx), NumberStart(p, indx), index, parts, streetParts, numberParts, numberMode);
  }

  /** The exit of the walk, for any name start `s` and number start `n`. */
  lemma WalkEndAt(p: seq<string>, indx: int, s: nat, n: nat, index: int, parts: seq<string>,
                  streetParts: seq<string>, numberParts: Option<seq<string>>, numberMode: bool)
    requires WalkAt(p, indx, s, n, index, parts, streetParts, numberParts, numberMode)
    requires index + 1 == n
    ensures parts == p[..n] + p[indx + 1..]
    ensures streetParts == p[s..indx + 1]
    ensures numberParts == if n < s then Some(p[n..s]) else None
  {
    if !numberMode {
      assert index + 1 == s;
    }
  }

  /** `number` is an integer exactly when there is one number token and it
      is all digits; with no number token it is `''`. */
  lemma {:induction false} NumberIsIntegerIff(p: seq<string>, indx: nat)
    requires indx < |p|
    ensures var s := NameStart(p, indx);
      var n := NumberStart(p, indx);
      && (Segment(p, indx).number.Num? <==> n + 1 == s && AllDigits(p[n]))
      && (n == s ==> Segment(p, indx).number == Str(""))
  {
    var s := NameStart(p, indx);
    var n := NumberStart(p, indx);
    if n + 1 == s {
      assert p[n..s] == [p[n]];
    } else if n + 1 < s {
      var t := Join("/", p[n..s]);
      JoinContainsSeparator('/', p[n..s]);
      assert !AllDigits(t) by {
        var j :| 0 <= j < |t| && t[j] == '/';
      }
    } else {
      assert !AllDigits("");
    }
  }

  /** Segmentation never adds a token. */
  lemma SegmentSubset(p: seq<string>, indx: int)
    requires -1 <= indx < |p|
    ensures forall t :: t in Segment(p, indx).rest ==> t in p
  {
    var n := NumberStart(p, indx);
    assert forall t :: t in p[..n] ==> t in p;
    assert forall t :: t in p[indx + 1..] ==> t in p;
  }

  /** Two numbers before a one-word name merge into one number joined by
      `/`, which is then a string: `[12, 34, Smith]` gives name `Smith` and
      number `'12/34'`. */
  lemma NumbersMergeWithSlash(a: string, b: string, name: string)
    requires IsNumeric(a) && IsNumeric(b) && !IsNumeric(name) && ',' !in name
    ensures Segment([a, b, name], 2) == Segmented([], name, Str(a + "/" + b))
  {
    var p := [a, b, name];
    assert NameStart(p, 2) == 2 && NumberStart(p, 2) == 0 by {
      assert RunStart(p, 2, false) == 2;
      assert RunStart(p, 1, true) == 0;
    }
    assert p[..0] + p[3..] == [];
    assert Join(" ", p[2..3]) == name by { assert p[2..3] == [name]; }
    assert Join("/", p[0..2]) == a + "/" + b by {
      assert p[0..2] == [a, b];
      JoinPair("/", a, b);
    }
    var t := a + "/" + b;
    assert !AllDigits(t) by { assert t[|a|] == '/'; }
    NoCommaKept(name);
  }


  lemma JoinPair(sep: string, a: string, b: string)
    ensures Join(sep, [a, b]) == a + sep + b
  {
    assert [a, b][1..] == [b];
  }

  /** A string without a comma keeps all its characters. */
  lemma {:induction false} NoCommaKept(s: string)
    requires ',' !in s
    ensures RemoveChar(s, ',') == s
  {
    if s != [] {
      NoCommaKept(s[1..]);
    }
  }

  // ---------------------------------------------------------------------
  // Properties of the street scan

  /** A pass at a token no pattern matches changes nothing. */
  lemma StepIdle(st: StreetState, regexes: seq<Compiled>, e: Engine, j: nat)
    requires 0 < j < |st.parts| ==> !MatchesSomePattern(regexes, e, st.parts[j])
    ensures StreetStep(st, regexes, e, j) == st
  {
  }

  /** Passes that cannot accept anything skip. */
  lemma {:induction false} StreetScanSkip(st: StreetState, regexes: seq<Compiled>, e: Engine, lo: nat, hi: nat)
    requires lo <= hi
    requires forall j :: lo <= j < hi && 0 < j < |st.parts| ==> !MatchesSomePattern(regexes, e, st.parts[j])
    ensures StreetScan(st, regexes, e, hi) == StreetScan(st, regexes, e, lo)
    decreases hi
  {
    if hi > lo {
      var j := hi - 1;
      StepIdle(st, regexes, e, j);
      StreetScanSkip(st, regexes, e, lo, j);
    }
  }

  /** Token 0 is never a street type: unless some later token matches a
      street pattern, nothing changes (a one-token list never has one). */
  lemma NoStreetTypePastFirst(st: StreetState, regexes: seq<Compiled>, e: Engine)
    requires forall j :: 0 < j < |st.parts| ==> !MatchesSomePattern(regexes, e, st.parts[j])
    ensures ExtractedStreet(st, regexes, e) == st
  {
    StreetScanSkip(st, regexes, e, 0, |st.parts|);
  }

  /** The rightmost token past the first that matches a street pattern is
      accepted with the first pattern matching it, and the scan then goes
      on leftward over the tokens the segmentation left. */
  lemma RightmostAccepted(st: StreetState, regexes: seq<Compiled>, e: Engine, i: nat)
    requires 0 < i < |st.parts| && MatchesSomePattern(regexes, e, st.parts[i])
    requires forall j :: i < j < |st.parts| ==> !MatchesSomePattern(regexes, e, st.parts[j])
    ensures FirstPattern(regexes, e, st.parts[i], 0).Some?
    ensures var k := FirstPattern(regexes, e, st.parts[i], 0).value;
      ExtractedStreet(st, regexes, e) == StreetScan(Accept(st, regexes[k].name, i), regexes, e, i)
  {
    StreetScanSkip(st, regexes, e, i + 1, |st.parts|);
  }

  /** When no token the segmentation left (past the first) matches, the
      first acceptance is final. */
  lemma SingleAcceptance(st: StreetState, regexes: seq<Compiled>, e: Engine, i: nat, k: nat)
    requires 0 < i < |st.parts| && k < |regexes|
    requires FirstPattern(regexes, e, st.parts[i], 0) == Some(k)
    requires forall j :: i < j < |st.parts| ==> !MatchesSomePattern(regexes, e, st.parts[j])
    requires var a := Accept(st, regexes[k].name, i);
      forall j :: 0 < j < |a.parts| ==> !MatchesSomePattern(regexes, e, a.parts[j])
    ensures ExtractedStreet(st, regexes, e) == Accept(st, regexes[k].name, i)
  {
    RightmostAccepted(st, regexes, e, i);
    StreetScanSkip(Accept(st, regexes[k].name, i), regexes, e, 0, i);
  }

  /** Once set, `streetType` stays set; `street` is set with it. */
  lemma {:induction false} StreetScanKeepsFound(st: StreetState, regexes: seq<Compiled>, e: Engine, partIdx: nat)
    requires st.streetType.Some? <==> st.street.Some?
    ensures var r := StreetScan(st, regexes, e, partIdx);
      (r.streetType.Some? <==> r.street.Some?) && (st.streetType.Some? ==> r.streetType.Some?)
    decreases partIdx
  {
    if partIdx > 0 {
      StreetScanKeepsFound(StreetStep(st, regexes, e, partIdx - 1), regexes, e, partIdx - 1);
    }
  }

  /** A street type is found exactly when some token past the first matches
      a street pattern. */
  lemma StreetFoundIff(st: StreetState, regexes: seq<Compiled>, e: Engine)
    requires st.streetType.None? && st.street.None?
    ensures var r := ExtractedStreet(st, regexes, e);
      && (r.streetType.Some? <==> exists j :: 0 < j < |st.parts| && MatchesSomePattern(regexes, e, st.parts[j]))
      && (r.streetType.Some? <==> r.street.Some?)
  {
    StreetScanKeepsFound(st, regexes, e, |st.parts|);
    if exists j :: 0 < j < |st.parts| && MatchesSomePattern(regexes, e, st.parts[j]) {
      var i := RightmostMatch(st.parts, regexes, e);
      RightmostAccepted(st, regexes, e, i);
      var k := FirstPattern(regexes, e, st.parts[i], 0).value;
      StreetScanKeepsFound(Accept(st, regexes[k].name, i), regexes, e, i);
    } else {
      NoStreetTypePastFirst(st, regexes, e);
    }
  }

  /** The rightmost token past the first that matches some pattern. */
  lemma RightmostMatch(ts: seq<string>, regexes: seq<Compiled>, e: Engine) returns (i: nat)
    requires exists j :: 0 < j < |ts| && MatchesSomePattern(regexes, e, ts[j])
    ensures 0 < i < |ts| && MatchesSomePattern(regexes, e, ts[i])
    ensures forall j :: i < j < |ts| ==> !MatchesSomePattern(regexes, e, ts[j])
  {
    i := |ts| - 1;
    while !MatchesSomePattern(regexes, e, ts[i])
      invariant 0 < i < |ts|
      invariant forall j :: i < j < |ts| ==> !MatchesSomePattern(regexes, e, ts[j])
      invariant exists j :: 0 < j <= i && MatchesSomePattern(regexes, e, ts[j])
      decreases i
    {
      i := i - 1;
    }
  }

  /** The street scan never adds a token. */
  lemma {:induction false} StreetScanSubset(st: StreetState, regexes: seq<Compiled>, e: Engine, partIdx: nat, orig: seq<string>)
    requires forall t :: t in st.parts ==> t in orig
    ensures forall t :: t in StreetScan(st, regexes, e, partIdx).parts ==> t in orig
    decreases partIdx
  {
    if partIdx > 0 {
      var j := partIdx - 1;
      var st' := StreetStep(st, regexes, e, j);
      if 0 < j < |st.parts| {
        var pre := st.parts[..j];
        SegmentSubset(pre, j - 1);
        assert forall t :: t in pre ==> t in st.parts;
      }
      StreetScanSubset(st', regexes, e, j, orig);
    }
  }

  /** A match further left among the leftover tokens overwrites the street
      results: in `Main Rd 12 Smith St`, `St` is accepted first (name
      `Smith`, number 12), then `Rd`, which leaves name `Main` and no
      number. */
  lemma LaterMatchOverwrites(e: Engine, rd: Regex, st: Regex, w1: string, t1: string, n: string, w2: string, t2: string)
    requires !IsNumeric(w1) && !IsNumeric(t1) && IsNumeric(n) && !IsNumeric(w2)
    requires ',' !in w1 && ',' !in w2
    requires !Test(e, rd, t2) && Test(e, st, t2) && Test(e, rd, t1)
    ensures ExtractedStreet(StreetState([w1, t1, n, w2, t2], None, None, Undefined),
                            [Compiled("RD", rd), Compiled("ST", st)], e)
         == StreetState([], Some("RD"), Some(w1), Str(""))
  {
    var regexes := [Compiled("RD", rd), Compiled("ST", st)];
    var s0 := StreetState([w1, t1, n, w2, t2], None, None, Undefined);
    var s1 := StreetState([w1, t1], Some("ST"), Some(w2), NumberValue(n));
    var s2 := StreetState([], Some("RD"), Some(w1), Str(""));
    assert StreetStep(s0, regexes, e, 4) == s1 by {
      assert FirstPattern(regexes, e, t2, 0) == Some(1);
      AcceptAfterNumber(s0, w1, t1, n, w2, t2);
    }
    assert StreetStep(s1, regexes, e, 1) == s2 by {
      assert FirstPattern(regexes, e, t1, 0) == Some(0);
      AcceptFirstWord(s1, w1, t1);
    }
    // indices 3 and 2 are past the end of `s1.parts`
    assert StreetScan(s0, regexes, e, 5) == StreetScan(s1, regexes, e, 4);
    assert StreetScan(s1, regexes, e, 4) == StreetScan(s1, regexes, e, 2);
    assert StreetScan(s1, regexes, e, 2) == StreetScan(s2, regexes, e, 1);
  }

  lemma AcceptAfterNumber(s0: StreetState, w1: string, t1: string, n: string, w2: string, t2: string)
    requires s0 == StreetState([w1, t1, n, w2, t2], None, None, Undefined)
    requires !IsNumeric(t1) && IsNumeric(n) && !IsNumeric(w2) && ',' !in w2
    ensures Accept(s0, "ST", 4) == StreetState([w1, t1], Some("ST"), Some(w2), NumberValue(n))
  {
    var q := s0.parts[..4];
    assert q == [w1, t1, n, w2];
    assert NameStart(q, 3) == 3 && NumberStart(q, 3) == 2 by {
      assert RunStart(q, 3, false) == 3;
      assert RunStart(q, 2, true) == 2;
    }
    assert q[..2] + q[4..] == [w1, t1];
    assert Join(" ", q[3..4]) == w2 by { assert q[3..4] == [w2]; }
    assert Join("/", q[2..3]) == n by { assert q[2..3] == [n]; }
    NoCommaKept(w2);
  }

  lemma AcceptFirstWord(s1: StreetState, w1: string, t1: string)
    requires s1.parts == [w1, t1] && ',' !in w1
    ensures Accept(s1, "RD", 1) == StreetState([], Some("RD"), Some(w1), Str(""))
  {
    var q := s1.parts[..1];
    assert q == [w1];
    assert Join(" ", q[0..1]) == w1 by { assert q[0..1] == [w1]; }
    NoCommaKept(w1);
    assert !AllDigits("");
  }
}
