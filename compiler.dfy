/** The pattern compiler of `parsers/compiler.js`: every raw pattern of a
    `(name, pattern)` table is rewritten by `reStreetCleaner` to a whole-
    token pattern and compiled case-insensitively. */
module Compiler {
  import opened RegExps

  datatype Entry = Entry(name: string, pattern: string)
  datatype Compiled = Compiled(name: string, re: Regex)

  /** The characters JavaScript's `.` does not match. */
  predicate IsLineTerminator(c: char) {
    c == '\n' || c == '\r' || c == '\U{2028}' || c == '\U{2029}'
  }

  predicate HasLineTerminator(s: string) {
    exists i :: 0 <= i < |s| && IsLineTerminator(s[i])
  }

  /** `raw.replace(/^\^?(.*)\,?\$?$/, '^$1,?$')`. The greedy `(.*)` takes
      everything after an optional leading `^`, so the optional `,` and
      `$` of the cleaner always match empty. Without the `m` flag the final
      `$` is only the end of the string, which `(.*)` cannot reach across a
      line terminator: then nothing matches and `raw` is kept. */
  function CleanSource(raw: string): string {
    if HasLineTerminator(raw) then raw
    else "^" + (if |raw| > 0 && raw[0] == '^' then raw[1..] else raw) + ",?$"
  }

  /** One compiled entry: `[name, new RegExp(CleanSource(raw), 'i')]`. */
  function CompileEntry(e: Entry): Compiled {
    Compiled(e.name, Regex(CleanSource(e.pattern), true))
  }

  /** The order-preserving map the countdown loop computes. */
  function CompiledTable(table: seq<Entry>): (r: seq<Compiled>)
    ensures |r| == |table|
    ensures forall i :: 0 <= i < |table| ==> r[i] == CompileEntry(table[i])
  {
    seq(|table|, i requires 0 <= i < |table| => CompileEntry(table[i]))
  }

  /** `compiler(textRegexes)`: fills `regexes[ii]` from the last entry down
      to the first. Entry i of the result comes from entry i of the input
      and keeps its name. */
  method Compile(textRegexes: seq<Entry>) returns (regexes: seq<Compiled>)
    ensures regexes == CompiledTable(textRegexes)
    ensures |regexes| == |textRegexes|
    ensures forall i :: 0 <= i < |textRegexes| ==>
      regexes[i].name == textRegexes[i].name &&
      regexes[i].re == Regex(CleanSource(textRegexes[i].pattern), true)
  {
    var a := new Compiled[|textRegexes|];
    var ii := |textRegexes|;
    while ii > 0
      invariant 0 <= ii <= a.Length
      invariant forall j :: ii <= j < a.Length ==> a[j] == CompileEntry(textRegexes[j])
    {
      ii := ii - 1;
      a[ii] := Compiled(textRegexes[ii].name, Regex(CleanSource(textRegexes[ii].pattern), true));
    }
    regexes := a[..];
  }

  // ---------------------------------------------------------------------
  // Properties

  /** A pattern on one line becomes `^…,?$`: anchored at the start, and at
      the end after an optional comma. */
  lemma Anchored(raw: string)
    requires !HasLineTerminator(raw)
    ensures var src := CleanSource(raw);
      |src| >= 4 && src[0] == '^' && src[|src| - 3..] == ",?$"
  {
  }

  /** A leading `^` in a one-line raw pattern makes no difference. */
  lemma CaretIgnored(raw: string)
    requires raw == [] || raw[0] != '^'
    requires !HasLineTerminator(raw)
    ensures CleanSource("^" + raw) == CleanSource(raw)
  {
    var x := "^" + raw;
    assert x[1..] == raw;
    forall i | 1 <= i < |x| ensures x[i] == raw[i - 1] { }
  }

  /** Only one `^` is removed, and a trailing `$` or `,` is kept. */
  lemma NotStripped()
    ensures CleanSource("^^AB") == "^^AB,?$"
    ensures CleanSource("AB$") == "^AB$,?$"
    ensures CleanSource("AB,") == "^AB,,?$"
  {
    assert !HasLineTerminator("^^AB");
    assert !HasLineTerminator("AB$");
    assert !HasLineTerminator("AB,");
  }

  /** A multi-line pattern is left as it is. */
  lemma MultiLineKept(raw: string)
    requires HasLineTerminator(raw)
    ensures CleanSource(raw) == raw
  {
  }

  /** Every compiled matcher is case-insensitive and keeps the label of
      its entry. */
  lemma {:induction false} CompiledTableFacts(table: seq<Entry>, i: nat)
    requires i < |table|
    ensures CompiledTable(table)[i].re.ignoreCase
    ensures CompiledTable(table)[i].name == table[i].name
  {
  }

  /** An empty table compiles to an empty one. */
  lemma EmptyTableCompiled()
    ensures CompiledTable([]) == []
  {
  }
}
