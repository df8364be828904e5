/** The tokenizer of `Address#split`: `text.split(separator)` with the
    empty pieces dropped. The separator is a set of single characters: the
    default `' '`, or `/\s/` as the English parser passes it. */
module Tokenizer {
  import opened Js

  /** `s.split(sep)` for a one-character separator class: the pieces
      between separators, empty ones included. */
  function Pieces(s: string, isSep: char -> bool): (r: seq<string>)
    ensures |r| >= 1
    decreases |s|
  {
    if s == [] then [""]
    else
      var rest := Pieces(s[1..], isSep);
      if isSep(s[0]) then [""] + rest
      else [[s[0]] + rest[0]] + rest[1..]
  }

  /** The tokens `split` leaves in `parts`. */
  function Tokens(s: string, isSep: char -> bool): seq<string> {
    NonEmpty(Pieces(s, isSep))
  }

  /** The characters of `s` that are not separators, in order. */
  function Kept(s: string, isSep: char -> bool): string
    decreases |s|
  {
    if s == [] then [] else (if isSep(s[0]) then [] else [s[0]]) + Kept(s[1..], isSep)
  }

  function Concat(xs: seq<string>): string {
    if xs == [] then [] else xs[0] + Concat(xs[1..])
  }

  // ---------------------------------------------------------------------
  // Properties

  /** No piece contains a separator. */
  lemma {:induction false} PiecesHaveNoSeparator(s: string, isSep: char -> bool)
    ensures forall p, c :: p in Pieces(s, isSep) && c in p ==> !isSep(c)
    decreases |s|
  {
    if s != [] {
      PiecesHaveNoSeparator(s[1..], isSep);
      var rest := Pieces(s[1..], isSep);
      if !isSep(s[0]) {
        assert forall c :: c in [s[0]] + rest[0] ==> c == s[0] || c in rest[0];
        assert forall p :: p in rest[1..] ==> p in rest;
      }
    }
  }

  /** Concatenated, the pieces are exactly the non-separator characters. */
  lemma {:induction false} PiecesConserveChars(s: string, isSep: char -> bool)
    ensures Concat(Pieces(s, isSep)) == Kept(s, isSep)
    decreases |s|
  {
    if s != [] {
      PiecesConserveChars(s[1..], isSep);
      var rest := Pieces(s[1..], isSep);
      if isSep(s[0]) {
        assert Concat([""] + rest) == "" + Concat(rest);
        assert "" + Concat(rest) == Concat(rest);
      } else {
        var r := [[s[0]] + rest[0]] + rest[1..];
        assert r[1..] == rest[1..];
        assert Concat(rest) == rest[0] + Concat(rest[1..]);
      }
    }
  }

  lemma {:induction false} ConcatNonEmpty(xs: seq<string>)
    ensures Concat(NonEmpty(xs)) == Concat(xs)
  {
    if xs != [] {
      ConcatNonEmpty(xs[1..]);
      assert NonEmpty(xs) == (if xs[0] == "" then [] else [xs[0]]) + NonEmpty(xs[1..]);
      if xs[0] == "" {
        assert NonEmpty(xs) == NonEmpty(xs[1..]);
        assert Concat(xs) == "" + Concat(xs[1..]);
        assert "" + Concat(xs[1..]) == Concat(xs[1..]);
      } else {
        assert ([xs[0]] + NonEmpty(xs[1..]))[1..] == NonEmpty(xs[1..]);
      }
    }
  }

  /** The tokens are not empty, contain no separator, and together hold
      exactly the text's non-separator characters in order. */
  lemma Tokenized(s: string, isSep: char -> bool)
    ensures forall t :: t in Tokens(s, isSep) ==> t != ""
    ensures forall t, c :: t in Tokens(s, isSep) && c in t ==> !isSep(c)
    ensures Concat(Tokens(s, isSep)) == Kept(s, isSep)
  {
    PiecesHaveNoSeparator(s, isSep);
    PiecesConserveChars(s, isSep);
    ConcatNonEmpty(Pieces(s, isSep));
  }

  /** With a one-character separator `c`, joining the pieces with `c`
      gives the text back. */
  lemma {:induction false} SplitJoinRoundTrip(s: string, isSep: char -> bool, c: char)
    requires forall x :: isSep(x) <==> x == c
    ensures Join([c], Pieces(s, isSep)) == s
    decreases |s|
  {
    if s != [] {
      SplitJoinRoundTrip(s[1..], isSep, c);
      var rest := Pieces(s[1..], isSep);
      if isSep(s[0]) {
        assert Join([c], [""] + rest) == "" + [c] + Join([c], rest);
      } else if |rest| == 1 {
        assert Join([c], [[s[0]] + rest[0]]) == [s[0]] + rest[0];
      } else {
        JoinExtendFirst([c], s[0], rest);
      }
    }
  }

  /** Putting a character in front of the first part puts it in front of
      the join. */
  lemma JoinExtendFirst(sep: string, a: char, xs: seq<string>)
    requires |xs| >= 2
    ensures Join(sep, [[a] + xs[0]] + xs[1..]) == [a] + Join(sep, xs)
  {
    var r := [[a] + xs[0]] + xs[1..];
    assert r[1..] == xs[1..];
    var j := Join(sep, xs[1..]);
    assert Join(sep, r) == ([a] + xs[0]) + sep + j;
    assert Join(sep, xs) == xs[0] + sep + j;
    assert ([a] + xs[0]) + sep + j == [a] + (xs[0] + sep + j);
  }

  lemma {:induction false} KeptChars(s: string, isSep: char -> bool, x: char)
    requires x in Kept(s, isSep)
    ensures x in s
    decreases |s|
  {
    if s != [] && x !in (if isSep(s[0]) then [] else [s[0]]) {
      KeptChars(s[1..], isSep, x);
    }
  }

  lemma {:induction false} ConcatChars(xs: seq<string>, t: string, x: char)
    requires t in xs && x in t
    ensures x in Concat(xs)
  {
    if xs[0] != t {
      ConcatChars(xs[1..], t, x);
    }
  }

  /** Every character of a token is a character of the text. */
  lemma TokenCharsFromText(s: string, isSep: char -> bool, t: string, x: char)
    requires t in Tokens(s, isSep) && x in t
    ensures x in s
  {
    Tokenized(s, isSep);
    ConcatChars(Tokens(s, isSep), t, x);
    KeptChars(s, isSep, x);
  }
}
