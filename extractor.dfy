/** The field extractor of `Address#extract`: find a token matching one of
    several patterns, remove it from the token list and derive the field's
    value from it. This module gives the reference definition of what one
    call computes, as functions over the token list, and proves what that
    means for the options the parser uses. */
module FieldExtractor {
  import opened Js
  import opened RegExps

  /** The fields `extract` fills; the source names them by string
      (`this[fieldName]`), the model by this enumeration. */
  datatype Field = Unit | Country | Province | City | Direction

  /** A pattern list (capture 1 gives the value) or a label-keyed object
      (the key gives the value), in key order. */
  datatype Patterns = Unlabeled(regexes: seq<Regex>) | Labeled(entries: seq<LabeledRegex>)
  datatype LabeledRegex = LabeledRegex(key: string, re: Regex)

  /** `sideness`: `'none'`, or `'right'`, which moves the tokens after the
      match into `<field>Post`. */
  datatype Sideness = NoSide | Right

  datatype Options = Options(breakout: bool, sideness: Sideness)

  /** `opts` left out: no breakout and `sideness` `'none'`. */
  const NoOptions := Options(false, NoSide)

  /** `regexes[i]` with `lookups[i]` after the object-to-array conversion
      (address.js:123-134); a pattern list has no lookups. */
  datatype Candidate = Candidate(lookup: Option<string>, re: Regex)

  function Candidates(p: Patterns): seq<Candidate> {
    match p
    case Unlabeled(rs) => seq(|rs|, i requires 0 <= i < |rs| => Candidate(None, rs[i]))
    case Labeled(es) => seq(|es|, i requires 0 <= i < |es| => Candidate(Some(es[i].key), es[i].re))
  }

  /** `lookups[rgxIdx] || match[1]`: a non-empty key, else capture 1. */
  function MatchValue(lookup: Option<string>, m: MatchResult): Option<string>
    requires m.Match?
  {
    if lookup.Some? && lookup.value != "" then lookup else m.group1
  }

  /** The state of the scan: the token list, the value found so far, the
      `<field>Post` list if this call assigned one, and whether a breakout
      has ended the scan. */
  datatype Scan = Scan(parts: seq<string>, value: Option<string>, post: Option<seq<string>>, done: bool)

  /** `parts.splice(i, 1)`: the list without entry i. */
  function Splice(ts: seq<string>, i: nat): (r: seq<string>)
    requires i < |ts|
    ensures |r| == |ts| - 1
  {
    ts[..i] + ts[i + 1..]
  }

  /** What the splice keeps: the tokens before `i` and the tokens after it. */
  lemma SpliceParts(ts: seq<string>, i: nat)
    requires i < |ts|
    ensures Splice(ts, i)[..i] == ts[..i] && Splice(ts, i)[i..] == ts[i + 1..]
    ensures forall t :: t in Splice(ts, i) ==> t in ts
  {
    var r := Splice(ts, i);
    assert r[..i] == ts[..i];
    assert r[i..] == ts[i + 1..];
    forall t | t in r
      ensures t in ts
    {
      var k :| 0 <= k < |r| && r[k] == t;
      if k < i {
        assert r[k] == ts[k];
      } else {
        assert r[k] == ts[k + 1];
      }
    }
  }

  /** The inner loop of `finder` for one candidate, from token `ii - 1`
      down to token 0 (address.js:140-167). */
  function ScanTokens(s: Scan, c: Candidate, ii: nat, opts: Options, e: Engine): Scan
    requires ii <= |s.parts|
    decreases ii
  {
    if ii == 0 then s
    else
      var i := ii - 1;
      var m := e.exec(c.re, s.parts[i]);
      if m.NoMatch? then ScanTokens(s, c, i, opts, e)
      else
        var rest := Splice(s.parts, i);
        var v := MatchValue(c.lookup, m);
        var s' := if opts.sideness == Right
                  then Scan(rest[..i], v, Some(rest[i..]), false)
                  else Scan(rest, v, s.post, false);
        if opts.breakout then s'.(done := true) else ScanTokens(s', c, i, opts, e)
  }

  /** The outer loop of `finder`: the candidates in order, each scanning the
      tokens the earlier ones left, until a breakout (address.js:139). */
  function ScanCandidates(s: Scan, cs: seq<Candidate>, opts: Options, e: Engine): Scan
    decreases |cs|
  {
    if s.done || cs == [] then s
    else ScanCandidates(ScanTokens(s, cs[0], |s.parts|, opts, e), cs[1..], opts, e)
  }

  /** What one `extract` call computes from the tokens. */
  function Extracted(parts: seq<string>, p: Patterns, opts: Options, e: Engine): Scan {
    ScanCandidates(Scan(parts, None, None, false), Candidates(p), opts, e)
  }

  // ---------------------------------------------------------------------
  // Reference definitions

  datatype Hit = Hit(k: nat, i: nat)

  /** The rightmost token below `ii` that `re` matches. */
  function RightmostHit(ts: seq<string>, re: Regex, e: Engine, ii: nat): (r: Option<nat>)
    requires ii <= |ts|
    ensures r.Some? ==> r.value < ii && Test(e, re, ts[r.value])
    ensures r.Some? ==> forall j :: r.value < j < ii ==> !Test(e, re, ts[j])
    ensures r.None? ==> forall j :: 0 <= j < ii ==> !Test(e, re, ts[j])
    decreases ii
  {
    if ii == 0 then None
    else if Test(e, re, ts[ii - 1]) then Some(ii - 1)
    else RightmostHit(ts, re, e, ii - 1)
  }

  /** The first candidate (from `k0` on) that matches any token, with the
      rightmost token it matches. */
  function FirstHit(ts: seq<string>, cs: seq<Candidate>, e: Engine, k0: nat): (r: Option<Hit>)
    requires k0 <= |cs|
    ensures r.Some? ==> k0 <= r.value.k < |cs| && r.value.i < |ts|
    ensures r.Some? ==> Test(e, cs[r.value.k].re, ts[r.value.i])
    ensures r.Some? ==> forall j :: r.value.i < j < |ts| ==> !Test(e, cs[r.value.k].re, ts[j])
    ensures r.Some? ==> forall k, j :: k0 <= k < r.value.k && 0 <= j < |ts| ==> !Test(e, cs[k].re, ts[j])
    ensures r.None? ==> forall k, j :: k0 <= k < |cs| && 0 <= j < |ts| ==> !Test(e, cs[k].re, ts[j])
    decreases |cs| - k0
  {
    if k0 == |cs| then None
    else
      match RightmostHit(ts, cs[k0].re, e, |ts|)
      case Some(i) => Some(Hit(k0, i))
      case None => FirstHit(ts, cs, e, k0 + 1)
  }

  /** `ts` without the tokens `re` matches. */
  function FilterOut(ts: seq<string>, re: Regex, e: Engine): (r: seq<string>)
    decreases |ts|
  {
    if ts == [] then []
    else
      var last := ts[|ts| - 1];
      assert ts == ts[..|ts| - 1] + [last];
      FilterOut(ts[..|ts| - 1], re, e) + (if Test(e, re, last) then [] else [last])
  }

  /** The leftmost token `re` matches. */
  function LeftmostHit(ts: seq<string>, re: Regex, e: Engine): (r: Option<nat>)
    ensures r.Some? ==> r.value < |ts| && Test(e, re, ts[r.value])
    ensures r.Some? ==> forall j :: 0 <= j < r.value ==> !Test(e, re, ts[j])
    ensures r.None? ==> forall j :: 0 <= j < |ts| ==> !Test(e, re, ts[j])
    decreases |ts|
  {
    if ts == [] then None
    else if Test(e, re, ts[0]) then Some(0)
    else match LeftmostHit(ts[1..], re, e)
      case None => None
      case Some(j) => Some(j + 1)
  }

  /** The value a candidate's pass leaves: from its leftmost match, or `v`
      when it matches nothing. */
  function HitValue(ts: seq<string>, c: Candidate, e: Engine, v: Option<string>): Option<string> {
    match LeftmostHit(ts, c.re, e)
    case None => v
    case Some(j) => MatchValue(c.lookup, e.exec(c.re, ts[j]))
  }

  /** The tokens left after every candidate has removed all it matches. */
  function Survivors(ts: seq<string>, cs: seq<Candidate>, e: Engine): seq<string>
    decreases |cs|
  {
    if cs == [] then ts else Survivors(FilterOut(ts, cs[0].re, e), cs[1..], e)
  }

  /** The value after every candidate's pass over the tokens left to it. */
  function SweepValue(ts: seq<string>, cs: seq<Candidate>, e: Engine, v: Option<string>): Option<string>
    decreases |cs|
  {
    if cs == [] then v
    else SweepValue(FilterOut(ts, cs[0].re, e), cs[1..], e, HitValue(ts, cs[0], e, v))
  }

  // ---------------------------------------------------------------------
  // Properties

  /** Tokens no match touches are skipped. */
  lemma {:induction false} ScanTokensSkip(s: Scan, c: Candidate, lo: nat, ii: nat, opts: Options, e: Engine)
    requires lo <= ii <= |s.parts|
    requires forall j :: lo <= j < ii ==> !Test(e, c.re, s.parts[j])
    ensures ScanTokens(s, c, ii, opts, e) == ScanTokens(s, c, lo, opts, e)
    decreases ii
  {
    if ii > lo {
      ScanTokensSkip(s, c, lo, ii - 1, opts, e);
    }
  }

  /** Candidates that match no token change nothing. */
  lemma {:induction false} ScanCandidatesSkip(s: Scan, cs: seq<Candidate>, k: nat, opts: Options, e: Engine)
    requires k <= |cs| && !s.done
    requires forall k', j :: 0 <= k' < k && 0 <= j < |s.parts| ==> !Test(e, cs[k'].re, s.parts[j])
    ensures ScanCandidates(s, cs, opts, e) == ScanCandidates(s, cs[k..], opts, e)
    decreases k
  {
    if k > 0 {
      ScanTokensSkip(s, cs[0], 0, |s.parts|, opts, e);
      assert ScanTokens(s, cs[0], |s.parts|, opts, e) == s;
      var cs' := cs[1..];
      forall k', j | 0 <= k' < k - 1 && 0 <= j < |s.parts|
        ensures !Test(e, cs'[k'].re, s.parts[j])
      {
        assert cs'[k'] == cs[k' + 1];
      }
      ScanCandidatesSkip(s, cs', k - 1, opts, e);
      assert cs'[k - 1..] == cs[k..];
    }
  }

  /** With `breakout`, the first candidate that matches any token wins,
      and only its rightmost matching token is removed; the value is that
      candidate's key, or capture 1; with `sideness: 'right'` the tokens
      after the match become the Post list. Nothing matching changes
      nothing and leaves the value undefined. */
  lemma BreakoutExtraction(parts: seq<string>, p: Patterns, opts: Options, e: Engine)
    requires opts.breakout
    ensures var r := Extracted(parts, p, opts, e);
      var cs := Candidates(p);
      match FirstHit(parts, cs, e, 0)
      case None => r == Scan(parts, None, None, false)
      case Some(h) =>
        var v := MatchValue(cs[h.k].lookup, e.exec(cs[h.k].re, parts[h.i]));
        if opts.sideness == Right
        then r == Scan(parts[..h.i], v, Some(parts[h.i + 1..]), true)
        else r == Scan(parts[..h.i] + parts[h.i + 1..], v, None, true)
  {
    var cs := Candidates(p);
    var s := Scan(parts, None, None, false);
    match FirstHit(parts, cs, e, 0)
    case None =>
      ScanCandidatesSkip(s, cs, |cs|, opts, e);
      assert cs[|cs|..] == [];
    case Some(h) =>
      ScanCandidatesSkip(s, cs, h.k, opts, e);
      var c := cs[h.k];
      ScanTokensSkip(s, c, h.i + 1, |parts|, opts, e);
      SpliceParts(parts, h.i);
      var r := ScanTokens(s, c, |parts|, opts, e);
      assert r.done;
      assert ScanCandidates(s, cs[h.k..], opts, e) == ScanCandidates(r, cs[h.k + 1..], opts, e);
  }

  lemma {:induction false} FilterOutAppend(ts: seq<string>, t: string, re: Regex, e: Engine)
    ensures FilterOut(ts + [t], re, e) == FilterOut(ts, re, e) + (if Test(e, re, t) then [] else [t])
  {
    assert (ts + [t])[..|ts + [t]| - 1] == ts;
  }

  /** Without breakout and with no sideness, one candidate's pass over the
      tokens below `ii` removes every token the candidate matches there and
      leaves the value of the leftmost of them (the last one found). */
  lemma {:induction false} ScanTokensSweep(s: Scan, c: Candidate, ii: nat, opts: Options, e: Engine)
    requires !opts.breakout && opts.sideness == NoSide && !s.done
    requires ii <= |s.parts|
    ensures ScanTokens(s, c, ii, opts, e) == SweepResult(s, c, ii, e)
    decreases ii
  {
    var p := s.parts;
    if ii == 0 {
      assert p[..0] == [] && p[0..] == p;
    } else {
      var i := ii - 1;
      var m := e.exec(c.re, p[i]);
      if m.NoMatch? {
        ScanTokensSweep(s, c, i, opts, e);
        SweepStepMiss(s, c, ii, opts, e);
      } else {
        var s' := Scan(Splice(p, i), MatchValue(c.lookup, m), s.post, false);
        ScanTokensSweep(s', c, i, opts, e);
        SweepStepHit(s, c, ii, opts, e);
      }
    }
  }

  /** The state `ScanTokensSweep` promises. */
  function SweepResult(s: Scan, c: Candidate, ii: nat, e: Engine): Scan
    requires ii <= |s.parts|
  {
    Scan(FilterOut(s.parts[..ii], c.re, e) + s.parts[ii..], HitValue(s.parts[..ii], c, e, s.value), s.post, false)
  }

  lemma SweepStepMiss(s: Scan, c: Candidate, ii: nat, opts: Options, e: Engine)
    requires !opts.breakout && opts.sideness == NoSide && !s.done
    requires 0 < ii <= |s.parts| && e.exec(c.re, s.parts[ii - 1]).NoMatch?
    requires ScanTokens(s, c, ii - 1, opts, e) == SweepResult(s, c, ii - 1, e)
    ensures ScanTokens(s, c, ii, opts, e) == SweepResult(s, c, ii, e)
  {
    var p := s.parts;
    var i := ii - 1;
    var pre := p[..i];
    assert p[..ii] == pre + [p[i]];
    FilterOutAppend(pre, p[i], c.re, e);
    assert p[i..] == [p[i]] + p[ii..];
    assert FilterOut(p[..ii], c.re, e) + p[ii..] == FilterOut(pre, c.re, e) + p[i..];
    HitValueAppendMiss(pre, p[i], c, e, s.value);
  }

  lemma SweepStepHit(s: Scan, c: Candidate, ii: nat, opts: Options, e: Engine)
    requires !opts.breakout && opts.sideness == NoSide && !s.done
    requires 0 < ii <= |s.parts| && e.exec(c.re, s.parts[ii - 1]).Match?
    requires var s' := Scan(Splice(s.parts, ii - 1), MatchValue(c.lookup, e.exec(c.re, s.parts[ii - 1])), s.post, false);
      ScanTokens(s', c, ii - 1, opts, e) == SweepResult(s', c, ii - 1, e)
    ensures ScanTokens(s, c, ii, opts, e) == SweepResult(s, c, ii, e)
  {
    var p := s.parts;
    var i := ii - 1;
    var pre := p[..i];
    var q := Splice(p, i);
    var u := MatchValue(c.lookup, e.exec(c.re, p[i]));
    var s' := Scan(q, u, s.post, false);
    assert ScanTokens(s, c, ii, opts, e) == ScanTokens(s', c, i, opts, e);
    assert p[..ii] == pre + [p[i]];
    FilterOutAppend(pre, p[i], c.re, e);
    assert q[..i] == pre;
    assert q[i..] == p[ii..];
    HitValueAppendHit(pre, p[i], c, e, s.value);
  }

  lemma HitValueAppendMiss(ts: seq<string>, t: string, c: Candidate, e: Engine, v: Option<string>)
    requires !Test(e, c.re, t)
    ensures HitValue(ts + [t], c, e, v) == HitValue(ts, c, e, v)
  {
    LeftmostAppendMiss(ts, t, c.re, e);
    var h := LeftmostHit(ts, c.re, e);
    if h.Some? {
      assert (ts + [t])[h.value] == ts[h.value];
    }
  }

  lemma HitValueAppendHit(ts: seq<string>, t: string, c: Candidate, e: Engine, v: Option<string>)
    requires Test(e, c.re, t)
    ensures HitValue(ts + [t], c, e, v) == HitValue(ts, c, e, MatchValue(c.lookup, e.exec(c.re, t)))
  {
    LeftmostAppendHit(ts, t, c.re, e);
    var h := LeftmostHit(ts, c.re, e);
    if h.Some? {
      assert (ts + [t])[h.value] == ts[h.value];
    } else {
      assert (ts + [t])[|ts|] == t;
    }
  }

  lemma LeftmostAppendMiss(ts: seq<string>, t: string, re: Regex, e: Engine)
    requires !Test(e, re, t)
    ensures LeftmostHit(ts + [t], re, e) == LeftmostHit(ts, re, e)
  {
    var a := LeftmostHit(ts + [t], re, e);
    var b := LeftmostHit(ts, re, e);
    assert forall j :: 0 <= j < |ts| ==> (ts + [t])[j] == ts[j];
    if a.Some? && b.Some? {
      assert a.value == b.value;
    }
  }

  lemma LeftmostAppendHit(ts: seq<string>, t: string, re: Regex, e: Engine)
    requires Test(e, re, t)
    ensures LeftmostHit(ts + [t], re, e) ==
      (if LeftmostHit(ts, re, e).Some? then LeftmostHit(ts, re, e) else Some(|ts|))
  {
    var a := LeftmostHit(ts + [t], re, e);
    var b := LeftmostHit(ts, re, e);
    assert forall j :: 0 <= j < |ts| ==> (ts + [t])[j] == ts[j];
    assert (ts + [t])[|ts|] == t;
    if b.Some? {
      assert a.value == b.value;
    }
  }

  /** Without breakout and with no sideness, every token some candidate
      matches is removed (each candidate scanning what the earlier ones
      left), and the value comes from the last candidate that matched
      anything, at its leftmost match. No Post list is assigned. */
  lemma SweepExtraction(parts: seq<string>, p: Patterns, opts: Options, e: Engine)
    requires !opts.breakout && opts.sideness == NoSide
    ensures var cs := Candidates(p);
      Extracted(parts, p, opts, e) == Scan(Survivors(parts, cs, e), SweepValue(parts, cs, e, None), None, false)
  {
    SweepCandidates(Scan(parts, None, None, false), Candidates(p), opts, e);
  }

  lemma {:induction false} SweepCandidates(s: Scan, cs: seq<Candidate>, opts: Options, e: Engine)
    requires !opts.breakout && opts.sideness == NoSide && !s.done
    ensures ScanCandidates(s, cs, opts, e) ==
      Scan(Survivors(s.parts, cs, e), SweepValue(s.parts, cs, e, s.value), s.post, false)
    decreases |cs|
  {
    if cs != [] {
      ScanTokensSweep(s, cs[0], |s.parts|, opts, e);
      assert s.parts[..|s.parts|] == s.parts;
      assert FilterOut(s.parts, cs[0].re, e) + [] == FilterOut(s.parts, cs[0].re, e);
      assert s.parts[|s.parts|..] == [];
      var s' := ScanTokens(s, cs[0], |s.parts|, opts, e);
      assert s'.parts == FilterOut(s.parts, cs[0].re, e);
      SweepCandidates(s', cs[1..], opts, e);
    }
  }

  /** A token is kept exactly when `re` does not match it. */
  lemma {:induction false} FilterOutMembers(ts: seq<string>, re: Regex, e: Engine, t: string)
    ensures t in FilterOut(ts, re, e) <==> t in ts && !Test(e, re, t)
    decreases |ts|
  {
    if ts != [] {
      var init := ts[..|ts| - 1];
      var last := ts[|ts| - 1];
      assert ts == init + [last];
      FilterOutMembers(init, re, e, t);
    }
  }

  /** A token survives exactly when no candidate matches it. */
  lemma {:induction false} SurvivorsSpec(ts: seq<string>, cs: seq<Candidate>, e: Engine, t: string)
    ensures t in Survivors(ts, cs, e) <==> t in ts && forall k :: 0 <= k < |cs| ==> !Test(e, cs[k].re, t)
    decreases |cs|
  {
    if cs != [] {
      SurvivorsSpec(FilterOut(ts, cs[0].re, e), cs[1..], e, t);
      FilterOutMembers(ts, cs[0].re, e, t);
      assert forall k :: 1 <= k < |cs| ==> cs[1..][k - 1] == cs[k];
      if t in ts && !Test(e, cs[0].re, t) && (forall k :: 0 <= k < |cs| - 1 ==> !Test(e, cs[1..][k].re, t)) {
        forall k | 0 <= k < |cs| ensures !Test(e, cs[k].re, t) {
          if k > 0 { assert cs[1..][k - 1] == cs[k]; }
        }
      }
    }
  }

  /** Whatever the options, the tokens left and the Post list are drawn
      from the tokens before the call. */
  lemma {:induction false} ScanTokensSubset(s: Scan, c: Candidate, ii: nat, opts: Options, e: Engine, orig: seq<string>)
    requires ii <= |s.parts|
    requires forall t :: t in s.parts ==> t in orig
    requires s.post.Some? ==> forall t :: t in s.post.value ==> t in orig
    ensures var r := ScanTokens(s, c, ii, opts, e);
      (forall t :: t in r.parts ==> t in orig) && (r.post.Some? ==> forall t :: t in r.post.value ==> t in orig)
    decreases ii
  {
    if ii > 0 {
      var i := ii - 1;
      if e.exec(c.re, s.parts[i]).Match? {
        var rest := Splice(s.parts, i);
        SpliceParts(s.parts, i);
        assert forall t :: t in rest[..i] ==> t in rest;
        assert forall t :: t in rest[i..] ==> t in rest;
        var v := MatchValue(c.lookup, e.exec(c.re, s.parts[i]));
        var s' := if opts.sideness == Right
                  then Scan(rest[..i], v, Some(rest[i..]), false)
                  else Scan(rest, v, s.post, false);
        if !opts.breakout {
          ScanTokensSubset(s', c, i, opts, e, orig);
        }
      } else {
        ScanTokensSubset(s, c, i, opts, e, orig);
      }
    }
  }

  lemma {:induction false} ScanCandidatesSubset(s: Scan, cs: seq<Candidate>, opts: Options, e: Engine, orig: seq<string>)
    requires forall t :: t in s.parts ==> t in orig
    requires s.post.Some? ==> forall t :: t in s.post.value ==> t in orig
    ensures var r := ScanCandidates(s, cs, opts, e);
      (forall t :: t in r.parts ==> t in orig) && (r.post.Some? ==> forall t :: t in r.post.value ==> t in orig)
    decreases |cs|
  {
    if !s.done && cs != [] {
      ScanTokensSubset(s, cs[0], |s.parts|, opts, e, orig);
      ScanCandidatesSubset(ScanTokens(s, cs[0], |s.parts|, opts, e), cs[1..], opts, e, orig);
    }
  }

  /** `extract` never adds a token: what is left, and the Post list, come
      from the tokens it was given. */
  lemma ExtractedSubset(parts: seq<string>, p: Patterns, opts: Options, e: Engine)
    ensures var r := Extracted(parts, p, opts, e);
      (forall t :: t in r.parts ==> t in parts) && (r.post.Some? ==> forall t :: t in r.post.value ==> t in parts)
  {
    ScanCandidatesSubset(Scan(parts, None, None, false), Candidates(p), opts, e, parts);
  }

  /** Without `sideness: 'right'` no Post list is assigned. */
  lemma NoSideNoPost(parts: seq<string>, p: Patterns, opts: Options, e: Engine)
    requires opts.sideness == NoSide
    ensures Extracted(parts, p, opts, e).post == None
  {
    if opts.breakout {
      BreakoutExtraction(parts, p, opts, e);
    } else {
      SweepExtraction(parts, p, opts, e);
    }
  }
}
