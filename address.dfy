/** The `Address` object of address.js: the text being parsed, its token
    list, and the fields the parsing steps fill in. Each method updates the
    object in place, as the source's methods do, and is proved against the
    function that defines its result; the properties of those functions
    are proved in their own modules. */
module AddressParser {
  import opened Js
  import opened RegExps
  import opened Compiler
  import opened Cleaning
  import opened Tokenizer
  import opened FieldExtractor
  import opened StreetSegmenter
  import opened Finalizer

  /** How `finalize` ended: normally, or with the `TypeError` it raises
      when no street was found (`this.street` is `undefined`). */
  datatype Status = Completed | Threw

  /** The Post lists after a call that assigned `post` (or nothing) to
      `field`. */
  function PostsAfter(m: map<Field, seq<string>>, field: Field, post: Option<seq<string>>): (r: map<Field, seq<string>>)
  {
    if post.Some? then m[field := post.value] else m
  }

  /** A later `<field>Post` assignment replaces an earlier one. */
  lemma PostsReassigned(m: map<Field, seq<string>>, field: Field, post: Option<seq<string>>, v: seq<string>)
    ensures PostsAfter(m, field, post)[field := v] == PostsAfter(m, field, Some(v))
  {
  }

  /** One step of the token loop at a matching token. */
  lemma ScanHit(ts: seq<string>, value: Option<string>, post: Option<seq<string>>, c: Candidate, i: nat, opts: Options, e: Engine)
    requires i < |ts| && e.exec(c.re, ts[i]).Match?
    ensures var rest := Splice(ts, i);
      var v := MatchValue(c.lookup, e.exec(c.re, ts[i]));
      var s1 := if opts.sideness == Right then Scan(rest[..i], v, Some(rest[i..]), false) else Scan(rest, v, post, false);
      ScanTokens(Scan(ts, value, post, false), c, i + 1, opts, e)
        == if opts.breakout then s1.(done := true) else ScanTokens(s1, c, i, opts, e)
  {
  }

  /** One step of the token loop at a token that does not match. */
  lemma ScanMiss(s: Scan, c: Candidate, i: nat, opts: Options, e: Engine)
    requires i < |s.parts| && e.exec(c.re, s.parts[i]).NoMatch?
    ensures ScanTokens(s, c, i + 1, opts, e) == ScanTokens(s, c, i, opts, e)
  {
  }

  /** Every field of an address, as one value. */
  datatype Fields = Fields(
    text: string,
    parts: seq<string>,
    values: map<Field, Value>,
    posts: map<Field, seq<string>>,
    streetType: Option<string>,
    street: Option<string>,
    number: Value,
    regions: Option<seq<string>>)

  datatype Outcome = Outcome(fields: Fields, status: Status)

  /** What `finalize` leaves of the fields, and whether it threw: it sets
      the regions from the remaining tokens, and only when a street is set
      does it clear the tokens and strip ordinals from the street. */
  function Finalized(f: Fields): (r: Outcome)
    ensures r.fields.text == f.text && r.fields.values == f.values && r.fields.posts == f.posts
    ensures r.fields.streetType == f.streetType && r.fields.number == f.number
    ensures r.fields.regions == Some(Regions(f.parts))
    ensures r.status == Threw <==> f.street.None?
    ensures r.status == Threw ==> r.fields.parts == f.parts && r.fields.street == None
    ensures r.status == Completed ==> r.fields.parts == [] && r.fields.street == Some(StripOrdinals(f.street.value))
  {
    var regions := Some(Regions(f.parts));
    if f.street.None? then
      Outcome(f.(regions := regions), Threw)
    else
      Outcome(f.(regions := regions, parts := [], street := Some(StripOrdinals(f.street.value))), Completed)
  }

  class Address {
    var text: string
    var parts: seq<string>
    /** `unit`, `country`, `province`, `city` and `direction`. */
    var values: map<Field, Value>
    /** `countryPost`, `provincePost`, ... */
    var posts: map<Field, seq<string>>
    var streetType: Option<string>
    var street: Option<string>
    var number: Value
    var regions: Option<seq<string>>

    function AllFields(): Fields
      reads this
    {
      Fields(text, parts, values, posts, streetType, street, number, regions)
    }

    /** The fields `extractStreet` reads and writes. */
    function StreetFields(): StreetState
      reads this
    {
      StreetState(parts, streetType, street, number)
    }

    /** `new Address(text)`: the text, no tokens, no field set
        (address.js:9-16). */
    constructor (text: string)
      ensures AllFields() == Fields(text, [], map[], map[], None, None, Undefined, None)
    {
      this.text := text;
      parts := [];
      values := map[];
      posts := map[];
      streetType := None;
      street := None;
      number := Undefined;
      regions := None;
    }

    /** `clean(cleaners)`: each cleaner in turn rewrites the text
        (address.js:84-99). */
    method Clean(cleaners: seq<Cleaner>, e: Engine)
      modifies this`text
      ensures text == Cleaned(e, old(text), cleaners)
    {
      var ii := 0;
      while ii < |cleaners|
        invariant 0 <= ii <= |cleaners|
        invariant text == Cleaned(e, old(text), cleaners[..ii])
      {
        var c := cleaners[ii];
        if c.Rewrite? {
          text := c.f(text);
        } else if c.Delete? {
          text := e.deleteMatch(c.re, text);
        }
        assert cleaners[..ii + 1][..ii] == cleaners[..ii];
        ii := ii + 1;
      }
      assert cleaners[..|cleaners|] == cleaners;
    }

    /** `split(separator)`: the pieces of the text between separators, the
        empty ones left out (address.js:270-282). The default separator
        `' '` is `c => c == ' '`. */
    method Split(isSep: char -> bool)
      modifies this`parts
      ensures parts == Tokens(text, isSep)
    {
      var newParts := Pieces(text, isSep);
      parts := [];
      var ii := 0;
      while ii < |newParts|
        invariant 0 <= ii <= |newParts|
        invariant parts == NonEmpty(newParts[..ii])
      {
        if newParts[ii] != "" {
          parts := parts + [newParts[ii]];
        }
        NonEmptyAppend(newParts[..ii], newParts[ii]);
        assert newParts[..ii + 1] == newParts[..ii] + [newParts[ii]];
        ii := ii + 1;
      }
      assert newParts[..|newParts|] == newParts;
    }

    /** The token loop of `finder` for candidate `c` (address.js:140-167):
        from the right, each token `c` matches is spliced out and gives the
        value; with `sideness` `right` the tokens after it become the
        `<field>Post` list and are cut off; with `breakout` the first match
        ends the search. */
    method FindTokens(field: Field, c: Candidate, opts: Options, e: Engine, value0: Option<string>,
                      ghost post0: Option<seq<string>>, ghost posts0: map<Field, seq<string>>)
      returns (value: Option<string>, ghost post: Option<seq<string>>, out: bool)
      requires posts == PostsAfter(posts0, field, post0)
      modifies this`parts, this`posts
      ensures Scan(parts, value, post, out) == ScanTokens(Scan(old(parts), value0, post0, false), c, |old(parts)|, opts, e)
      ensures posts == PostsAfter(posts0, field, post)
    {
      ghost var target := ScanTokens(Scan(parts, value0, post0, false), c, |parts|, opts, e);
      value, post, out := value0, post0, false;
      var ii := |parts|;
      while ii > 0 && !out
        invariant 0 <= ii <= |parts|
        invariant posts == PostsAfter(posts0, field, post)
        invariant !out ==> ScanTokens(Scan(parts, value, post, false), c, ii, opts, e) == target
        invariant out ==> Scan(parts, value, post, true) == target
      {
        ii := ii - 1;
        var m := e.exec(c.re, parts[ii]);
        if m.Match? {
          ScanHit(parts, value, post, c, ii, opts, e);
          var rest := Splice(parts, ii);
          value := MatchValue(c.lookup, m);
          if opts.sideness == Right {
            PostsReassigned(posts0, field, post, rest[ii..]);
            posts := posts[field := rest[ii..]];
            post := Some(rest[ii..]);
            parts := rest[..ii];
          } else {
            parts := rest;
          }
          if opts.breakout {
            out := true;
          }
        } else {
          ScanMiss(Scan(parts, value, post, false), c, ii, opts, e);
        }
      }
    }

    /** `extract(fieldName, regexes, opts)`: the `finder` loops over the
        candidates, each scanning the tokens the earlier ones left, until
        a breakout; then the field is set from the last value found
        (address.js:109-175). */
    method Extract(field: Field, p: Patterns, opts: Options, e: Engine)
      modifies this`parts, this`values, this`posts
      ensures parts == Extracted(old(parts), p, opts, e).parts
      ensures values == old(values)[field := FieldValue(Extracted(old(parts), p, opts, e).value)]
      ensures posts == PostsAfter(old(posts), field, Extracted(old(parts), p, opts, e).post)
    {
      var regexes := Candidates(p);
      var value: Option<string> := None;
      ghost var post: Option<seq<string>> := None;
      ghost var posts0 := posts;
      ghost var target := Extracted(parts, p, opts, e);
      var out := false;
      var rgxIdx := 0;
      while rgxIdx < |regexes| && !out
        invariant 0 <= rgxIdx <= |regexes|
        invariant values == old(values)
        invariant posts == PostsAfter(posts0, field, post)
        invariant !out ==> ScanCandidates(Scan(parts, value, post, false), regexes[rgxIdx..], opts, e) == target
        invariant out ==> Scan(parts, value, post, true) == target
      {
        assert regexes[rgxIdx..][1..] == regexes[rgxIdx + 1..];
        value, post, out := FindTokens(field, regexes[rgxIdx], opts, e, value, post, posts0);
        rgxIdx := rgxIdx + 1;
      }
      if !out {
        assert regexes[rgxIdx..] == [];
      }
      values := values[field := FieldValue(value)];
    }

    /** The loop of `_extractStreetParts(indx)` (address.js:42-66): it
        takes token `indx` and the non-numeric tokens before it out of the
        list as the street name, then the numeric tokens before those as
        the number. */
    method WalkStreetParts(indx: int) returns (streetParts: seq<string>, numberParts: Option<seq<string>>)
      requires -1 <= indx < |parts|
      modifies this`parts
      ensures parts == old(parts)[..NumberStart(old(parts), indx)] + old(parts)[indx + 1..]
      ensures streetParts == old(parts)[NameStart(old(parts), indx)..indx + 1]
      ensures numberParts == if NumberStart(old(parts), indx) < NameStart(old(parts), indx)
        then Some(old(parts)[NumberStart(old(parts), indx)..NameStart(old(parts), indx)]) else None
    {
      ghost var p := parts;
      WalkStart(p, indx);
      var index := indx;
      streetParts := [];
      numberParts := None;
      // whether `testFn` has been replaced by the numeric test
      var numberMode := false;
      while index >= 0 && (!numberMode || IsNumeric(parts[index]))
        invariant WalkAt(p, indx, NameStart(p, indx), NumberStart(p, indx), index, parts, streetParts, numberParts, numberMode)
        decreases index
      {
        WalkNext(p, indx, index, parts, streetParts, numberParts, numberMode);
        var alphaPart := !IsNumeric(parts[index]);
        if |streetParts| < 1 || alphaPart {
          streetParts := [parts[index]] + streetParts;
        } else {
          numberParts := Some([parts[index]] + (if numberParts.Some? then numberParts.value else []));
          numberMode := true;
        }
        parts := parts[..index] + parts[index + 1..];
        index := index - 1;
      }
      WalkEnd(p, indx, index, parts, streetParts, numberParts, numberMode);
    }

    /** `_extractStreetParts(indx)`: the walk, then the street is the name
        tokens joined by spaces without commas, and the number the number
        tokens joined by `/`, an integer when all digits (address.js:35-75).
        Its one caller passes the index of the last token. */
    method ExtractStreetParts(indx: int)
      requires -1 <= indx < |parts|
      modifies this`parts, this`street, this`number
      ensures parts == Segment(old(parts), indx).rest
      ensures street == Some(Segment(old(parts), indx).street)
      ensures number == Segment(old(parts), indx).number
    {
      var streetParts, numberParts := WalkStreetParts(indx);
      var numberText := if numberParts.Some? then Join("/", numberParts.value) else "";
      street := Some(RemoveChar(Join(" ", streetParts), ','));
      number := NumberValue(numberText);
    }

    /** The accepting branch of `extractStreet`'s pattern loop: the
        pattern's name, or the token when the name is empty, becomes the
        street type, the list is cut before the token, and what is left is
        segmented from its last token (address.js:224-235). */
    method AcceptStreetType(partIdx: nat, name: string)
      requires 0 < partIdx < |parts|
      modifies this`parts, this`streetType, this`street, this`number
      ensures StreetFields() == Accept(old(StreetFields()), name, partIdx)
    {
      streetType := Some(if name != "" then name else parts[partIdx]);
      parts := parts[..partIdx];
      ExtractStreetParts(partIdx - 1);
    }

    /** `extractStreet(regexes)`: scan the tokens from the right; at the
        first pattern matching a token past the first, record the street
        type, cut the list there and segment what precedes it; the scan
        goes on leftward (address.js:183-242). */
    method ExtractStreet(regexes: seq<Compiled>, e: Engine)
      modifies this`parts, this`streetType, this`street, this`number
      ensures StreetFields() == ExtractedStreet(old(StreetFields()), regexes, e)
    {
      ghost var target := ExtractedStreet(StreetFields(), regexes, e);
      var partIdx := |parts|;
      while partIdx > 0
        invariant 0 <= partIdx
        invariant StreetScan(StreetFields(), regexes, e, partIdx) == target
        decreases partIdx
      {
        partIdx := partIdx - 1;
        ghost var before := StreetFields();
        var rgxIdx := 0;
        while rgxIdx < |regexes|
          invariant 0 <= rgxIdx <= |regexes|
          invariant StreetFields() == before
          invariant 0 < partIdx < |parts| ==>
            FirstPattern(regexes, e, parts[partIdx], 0) == FirstPattern(regexes, e, parts[partIdx], rgxIdx)
        {
          if partIdx < |parts| && Test(e, regexes[rgxIdx].re, parts[partIdx]) && partIdx > 0 {
            StepAccepts(before, regexes, e, partIdx, rgxIdx);
            AcceptStreetType(partIdx, regexes[rgxIdx].name);
            break;
          }
          if 0 < partIdx < |parts| {
            FirstPatternSkip(regexes, e, parts[partIdx], rgxIdx);
          }
          rgxIdx := rgxIdx + 1;
        }
        assert StreetFields() == StreetStep(before, regexes, e, partIdx);
      }
    }

    /** `finalize()`: the tokens become regions; then the street loses its
        ordinal suffixes and the tokens are cleared, unless no street was
        found, in which case the call throws with only the regions set
        (address.js:250-263). */
    method Finalize() returns (status: Status)
      modifies this`regions, this`street, this`parts
      ensures Outcome(AllFields(), status) == Finalized(old(AllFields()))
    {
      regions := Some(Regions(parts));
      if street.None? {
        return Threw;
      }
      street := Some(StripOrdinals(street.value));
      parts := [];
      return Completed;
    }
  }
}
