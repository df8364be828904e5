/** The cleaner of `Address#clean`: an ordered list of rewrite rules
    applied to the text, each rule's output feeding the next. */
module Cleaning {
  import opened RegExps

  /** A cleaner is a function (called on the text), a `RegExp` (its first
      match, or every match for a global one, is deleted) or anything else,
      which is skipped. */
  datatype Cleaner = Rewrite(f: string -> string) | Delete(re: Regex) | Ignored

  /** One cleaner applied to the text (address.js:90-95). */
  function Apply(e: Engine, c: Cleaner, text: string): string {
    match c
    case Rewrite(f) => f(text)
    case Delete(re) => e.deleteMatch(re, text)
    case Ignored => text
  }

  /** The text after every cleaner of `cs`, in list order. */
  function Cleaned(e: Engine, text: string, cs: seq<Cleaner>): string
    decreases |cs|
  {
    if cs == [] then text
    else Apply(e, cs[|cs| - 1], Cleaned(e, text, cs[..|cs| - 1]))
  }

  /** Cleaning with `a` and then with `b` is cleaning with `a + b`. */
  lemma {:induction false} CleanedCompose(e: Engine, text: string, a: seq<Cleaner>, b: seq<Cleaner>)
    ensures Cleaned(e, text, a + b) == Cleaned(e, Cleaned(e, text, a), b)
    decreases |b|
  {
    if b == [] {
      assert a + b == a;
    } else {
      var b' := b[..|b| - 1];
      assert (a + b)[..|a + b| - 1] == a + b';
      assert (a + b)[|a + b| - 1] == b[|b| - 1];
      CleanedCompose(e, text, a, b');
    }
  }

  /** The first cleaner sees the original text and the rest see its output. */
  lemma CleanedFirstFeedsRest(e: Engine, text: string, c: Cleaner, rest: seq<Cleaner>)
    ensures Cleaned(e, text, [c] + rest) == Cleaned(e, Apply(e, c, text), rest)
  {
    CleanedCompose(e, text, [c], rest);
    assert [c][..0] == [];
  }

  /** Cleaners that are neither functions nor patterns change nothing. */
  lemma {:induction false} IgnoredChangeNothing(e: Engine, text: string, cs: seq<Cleaner>)
    requires forall i :: 0 <= i < |cs| ==> cs[i].Ignored?
    ensures Cleaned(e, text, cs) == text
    decreases |cs|
  {
    if cs != [] {
      IgnoredChangeNothing(e, text, cs[..|cs| - 1]);
    }
  }
}
