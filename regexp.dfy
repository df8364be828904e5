/** Regular expressions as data. The parser never inspects a pattern: it
    hands it to the JavaScript regular-expression engine, which this model
    keeps abstract. A `Regex` is what `new RegExp(source, flags)` or a
    literal `/source/flags` denotes; equal values behave alike. */
module RegExps {
  import opened Js

  datatype Regex = Regex(source: string, ignoreCase: bool)

  /** The result of `re.exec(s)`: `null`, or a match whose capture group 1
      is `undefined` or a string. */
  datatype MatchResult = NoMatch | Match(group1: Option<string>)

  /** The engine: `exec` is `RegExp.prototype.exec`; `deleteMatch(re, s)` is
      `s.replace(re, '')`. No pattern the parser uses is global or sticky,
      so neither depends on state left by an earlier call. */
  datatype Engine = Engine(
    exec: (Regex, string) -> MatchResult,
    deleteMatch: (Regex, string) -> string)

  /** `re.test(s)`. */
  predicate Test(e: Engine, re: Regex, s: string) {
    e.exec(re, s).Match?
  }
}
