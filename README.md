# addressit: the address parser, modelled in Dafny

This project models the core of the `addressit` JavaScript library, which
parses a free-form postal address. Parsing drives one `Address` object
through a fixed chain of mutating steps:

1. `clean` rewrites the text with an ordered list of cleaners.
2. `split` cuts the text into a token list `parts`.
3. `extract` runs once per field (unit, country, province, city,
   direction). Each run removes matching tokens and sets the field.
4. `extractStreet` finds a street-type token from the right. It drops that
   token and everything after it, and splits the tokens just before it into
   a street name and a building number.
5. `finalize` turns the leftover tokens into `regions`, strips ordinal
   suffixes from the street and clears the tokens.

The English parser supplies the cleaners, the pattern tables and the order
of the steps. The pattern compiler turns the English street-type table into
whole-token, case-insensitive patterns.

## How it is modelled

- `Address` is a class (`AddressParser.Address`). Its fields are the ones
  the JavaScript object carries: `text`, `parts`, the five extracted values,
  the `<field>Post` lists, `streetType`, `street`, `number` and `regions`.
  Each method changes only the fields it names in `modifies`. Each method's
  `ensures` sets its new state equal to a pure function of the old state.
  The lemmas are proved about those functions.
- The loops of the source stay loops:
  - the countdown loop of the compiler;
  - the cleaner loop;
  - the split loop;
  - the two nested loops of `extract`'s `finder`;
  - the token loop of `extractStreet`;
  - the `while` walk of `_extractStreetParts`.
  The compiler fills an `array`, the cleaner loop rewrites `text`, the
  split loop builds a new token list, and the other loops splice `parts`
  in place.
- Regular expressions are data (`RegExps.Regex`: source text and the `i`
  flag). The JavaScript engine is one abstract `Engine` value:
  - `exec` gives `null` or capture group 1;
  - `deleteMatch` is `s.replace(re, '')`.
  Equal patterns behave alike. The NU/YT result below needs nothing more.
  There is one exception: the four English cleaners use fixed patterns, so
  they are written out character by character (`EnCleaners`).
- JavaScript values are `Js.Value` (`undefined`, a string or an integer).
  `parseInt(s, 10)` follows the source's reading of the text (leading
  white space, sign, digit prefix), and so does the coercion
  `parseInt(v, 10) || v`. The number read is an exact integer, not an
  IEEE double.
- A `TypeError` thrown by `finalize` is the `Threw` status.
- `En.Parse` is the exported function of the English parser. It compiles
  the street table, then runs `En.Drive` with the English tables. Its
  result equals `En.Parsed(English, input, e)`. The properties of a whole
  parse are lemmas about `Parsed`. Most of them hold for any grammar that
  uses the English cleaners or the English province table;
  `En.EnglishParse` collects them for the English grammar itself.

## Behaviour worth knowing

- `finalize` throws a `TypeError` when no street type was found, because
  it calls `replace` on an undefined `street` (address.js:257,
  `En.ThrowsIffNoStreetType`).
- A second `finalize` finds no tokens and sets `regions` to `[]`
  (address.js:252-260, `Finalizer.NoTokensNoRegions`).
- The street table compiles `STREET` under the label `ST`
  (parsers/en.js:19-97, `En.StreetLabelIsST`).
- Tokens are not conserved:
  - tokens after the street type are dropped (address.js:226);
  - the unit pattern `^(\d+)\/(.*)` keeps only the digits
    (parsers/en.js:135-138);
  - a labelled match keeps the label and drops the token (address.js:155).
- A field value becomes a number whenever it has a nonzero leading
  integer: `"12abc"` becomes 12 and `"0"` stays a string (address.js:172,
  `Js.TwelveAbcBecomesTwelve`, `Js.ZeroStaysString`).
- The compiler keeps a trailing `$` or comma of a raw pattern, because the
  greedy `(.*)` takes them (parsers/compiler.js:6-11,
  `Compiler.NotStripped`).
- Without breakout, `extract` removes every token each pattern matches,
  not at most one (address.js:139-168, `FieldExtractor.SweepExtraction`).

## Model

| member | source | states |
|---|---|---|
| AddressParser.Finalized | address.js:250-263 | on the fields record, `finalize` changes only `regions`, `parts` and `street`, and throws exactly when no street is set |
| AddressParser.Address.constructor | address.js:9-16 | a new address holds the text, no tokens and no field set |
| AddressParser.Address.Clean | address.js:84-99 | the text becomes `Cleaned` of the old text: each cleaner in list order, each output feeding the next |
| AddressParser.Address.Split | address.js:270-282 | `parts` becomes exactly the non-empty pieces of the text at a one-character separator, in order |
| AddressParser.Address.FindTokens | address.js:140-167 | the countdown token loop for one pattern computes `ScanTokens` and records the Post list it assigns |
| AddressParser.Address.Extract | address.js:109-175 | `parts`, the field value (coerced) and the Post list all become those of `Extracted`; no other field changes |
| AddressParser.Address.WalkStreetParts | address.js:42-66 | the walk removes the block from the number start to `indx` and returns the name tokens and the number tokens |
| AddressParser.Address.ExtractStreetParts | address.js:35-75 | `parts`, `street` and `number` become those of `Segment(old parts, indx)` |
| AddressParser.Address.AcceptStreetType | address.js:223-235 | the street fields become `Accept` of the old ones: the pattern label, or the token when the label is empty, as street type, the list cut before the token, and the tokens before it segmented from the last one |
| AddressParser.Address.ExtractStreet | address.js:183-242 | the street fields become `ExtractedStreet` of the old ones |
| AddressParser.Address.Finalize | address.js:250-263 | the new fields and the status are `Finalized` of the old fields: `regions` is set from the old tokens; with no street it throws and keeps the tokens; otherwise the tokens are cleared and the street loses ordinal suffixes |
| Cleaning.Apply | address.js:90-95 | one cleaner: a function rewrites the text, a pattern is deleted from it, anything else leaves it; see `CleanedFirstFeedsRest` and `IgnoredChangeNothing` |
| Cleaning.Cleaned | address.js:84-99 | the cleaner loop as a fold over the list; see `CleanedCompose`, `CleanedFirstFeedsRest` and `IgnoredChangeNothing` |
| Cleaning.CleanedCompose | address.js:89-96 | cleaning with `a` and then `b` is cleaning with `a + b` |
| Cleaning.CleanedFirstFeedsRest | address.js:89-96 | the first cleaner sees the original text and the rest see its output |
| Cleaning.IgnoredChangeNothing | address.js:89-96 | entries that are neither functions nor patterns leave the text unchanged, so an empty list does too |
| Tokenizer.Tokens | address.js:270-282 | `split` followed by dropping empty pieces; see `Tokenized`, `TokenCharsFromText` and `SplitJoinRoundTrip` |
| Tokenizer.Pieces | address.js:272 | `split` always yields at least one piece |
| Tokenizer.PiecesHaveNoSeparator | address.js:272 | no piece contains a separator |
| Tokenizer.PiecesConserveChars | address.js:272 | the pieces together are the non-separator characters, in order |
| Tokenizer.Tokenized | address.js:270-282 | no token is empty or holds a separator, and the tokens together are the non-separator characters |
| Tokenizer.SplitJoinRoundTrip | address.js:272 | with a one-character separator, joining the pieces gives back the text |
| Tokenizer.TokenCharsFromText | address.js:270-282 | every character of a token is a character of the text |
| Js.DigitPrefix | address.js:172 | the longest leading run of digits |
| Js.ParseInt | address.js:45 | `parseInt(s, 10)`; see `IsNumericParses`, `DigitPrefixOfDigits` and `AllDigitsParse` |
| Js.TrimStart | address.js:172 | the white space `parseInt` skips is never longer than the text |
| Js.TrimStartFacts | address.js:172 | the trimmed prefix is white space only, and the rest does not start with white space |
| Js.IsNumericParses | address.js:45 | `!isNaN(parseInt(s, 10))` holds exactly when `parseInt` gives a number |
| Js.NumericFromTrimmed | address.js:45 | the numeric test at a position looks at the text after white space |
| Js.DigitPrefixOfDigits | address.js:74 | a digit run followed by a non-digit is the prefix `parseInt` reads |
| Js.AllDigitsParse | address.js:74 | for an all-digit string, `parseInt` reads the whole string |
| Js.FieldValue | address.js:172 | the coercion of an extracted value to a number when it has a nonzero leading integer; see `LeadingIntegerWins`, `LabelStaysString`, `ZeroStaysString`, `TwelveAbcBecomesTwelve` and `NegativeBecomesNumber` |
| Js.LeadingIntegerWins | address.js:172 | a value with a nonzero leading integer becomes that integer |
| Js.LabelStaysString | address.js:172 | a value starting with no space, digit or sign stays a string |
| Js.ZeroStaysString | address.js:172 | `"0"` is falsy after `parseInt` and stays a string |
| Js.TwelveAbcBecomesTwelve | address.js:172 | `"12abc"` becomes 12 |
| Js.NegativeBecomesNumber | address.js:172 | `"-7"` becomes -7 |
| Js.RemoveChar | address.js:71 | every occurrence of the character goes and every other character stays as often as it was: no occurrence is left, and the multiset of the result is that of the input with the character removed |
| Js.RemoveCharAppend | address.js:71 | the removal keeps the order of what stays: removing from a concatenation concatenates the removals |
| Js.NonEmpty | address.js:252-254 | the kept strings are exactly the non-empty ones |
| Js.NonEmptyAppend | address.js:276-278 | filtering a list extended by one string extends the filtered list when that string is non-empty |
| Js.JoinContainsSeparator | address.js:70 | a join of two or more parts contains the separator |
| Js.JoinChars | address.js:70-71 | every character of a join comes from a part or the separator |
| FieldExtractor.Splice | address.js:154 | `splice(i, 1)` removes exactly entry i |
| FieldExtractor.SpliceParts | address.js:154 | the splice keeps the tokens before i and after i, and adds none |
| FieldExtractor.RightmostHit | address.js:140-141 | the rightmost matching token below `ii` |
| FieldExtractor.FirstHit | address.js:139-141 | the first pattern, in key order, that matches any token, and its rightmost match; earlier patterns match nothing |
| FieldExtractor.LeftmostHit | address.js:140-155 | the leftmost matching token |
| FieldExtractor.ScanTokens | address.js:140-167 | the countdown token loop for one pattern; see `ScanTokensSkip`, `ScanTokensSweep` and `ScanTokensSubset` |
| FieldExtractor.ScanCandidates | address.js:139-168 | the loop over the patterns in key order; see `ScanCandidatesSkip`, `SweepCandidates` and `ScanCandidatesSubset` |
| FieldExtractor.Extracted | address.js:109-175 | one `extract` call; see `BreakoutExtraction`, `SweepExtraction`, `ExtractedSubset` and `NoSideNoPost` |
| FieldExtractor.ScanTokensSkip | address.js:140-144 | tokens no pattern matches are passed over |
| FieldExtractor.ScanCandidatesSkip | address.js:139-168 | patterns that match no token change nothing |
| FieldExtractor.BreakoutExtraction | address.js:123-165 | with breakout, only the rightmost match of the first matching pattern is removed, and the value is its label or capture 1; with `right`, the tokens after it go to the Post list; with no match nothing changes |
| FieldExtractor.ScanTokensSweep | address.js:140-167 | without breakout or sideness, one pattern's pass removes all its matches and keeps the value of the leftmost |
| FieldExtractor.SweepStepMiss | address.js:140-144 | one step of that pass at a non-matching token |
| FieldExtractor.SweepStepHit | address.js:140-155 | one step of that pass at a matching token |
| FieldExtractor.SweepExtraction | address.js:139-168 | without breakout, every token that some pattern matches is removed, and the value comes from the last pattern that matched anything |
| FieldExtractor.SweepCandidates | address.js:139-168 | the same for any starting state |
| FieldExtractor.FilterOutMembers | address.js:154 | a token is kept exactly when the pattern does not match it |
| FieldExtractor.SurvivorsSpec | address.js:139-168 | a token survives exactly when no pattern matches it |
| FieldExtractor.ScanTokensSubset | address.js:154-161 | the tokens left and the Post list come from the original tokens |
| FieldExtractor.ScanCandidatesSubset | address.js:139-168 | the same over all patterns |
| FieldExtractor.ExtractedSubset | address.js:109-175 | `extract` never adds a token |
| FieldExtractor.NoSideNoPost | address.js:117-162 | with no sideness, no Post list is assigned |
| StreetSegmenter.RunStart | address.js:44-66 | the start of the longest uniform run ending before `hi` |
| StreetSegmenter.RunStartRun | address.js:44-66 | that run is uniform and cannot be extended to the left |
| StreetSegmenter.Segment | address.js:35-75 | `_extractStreetParts` on a token list; see `SegmentBlock`, `NumberIsIntegerIff`, `SegmentSubset` and `NumbersMergeWithSlash` |
| StreetSegmenter.SegmentBlock | address.js:35-75 | the removed tokens are one block ending at `indx`: the name is token `indx` and the non-numeric tokens before it, then comes the numeric run, and the walk stops at a non-numeric token or at the start |
| StreetSegmenter.SegmentShape | address.js:44-68 | the block boundaries as plain numbers |
| StreetSegmenter.WalkNext | address.js:44-67 | one pass of the walk keeps the walk invariant |
| StreetSegmenter.WalkEnd | address.js:44-68 | when the walk stops, the name, number and remaining tokens are those of `Segment` |
| StreetSegmenter.NumberIsIntegerIff | address.js:70-74 | `number` is an integer exactly when there is one number token and it is all digits; with none it is `''` |
| StreetSegmenter.SegmentSubset | address.js:35-75 | segmentation never adds a token |
| StreetSegmenter.NumbersMergeWithSlash | address.js:35-75 | `[12, 34, Smith]` gives street `Smith` and number `'12/34'` |
| StreetSegmenter.NoCommaKept | address.js:71 | deleting commas from a comma-free string changes nothing |
| StreetSegmenter.FirstPattern | address.js:219-223 | the first street pattern matching a token |
| StreetSegmenter.Accept | address.js:223-235 | the street fields after an accepted street type; see `AcceptStreetType` and `LaterMatchOverwrites` |
| StreetSegmenter.StreetStep | address.js:219-238 | one pass of the street loop at one token; see `StepIdle` and `RightmostAccepted` |
| StreetSegmenter.StreetScan | address.js:216-239 | the street loop from a token index down to 1; see `StreetScanSkip`, `StreetScanKeepsFound`, `StreetScanSubset` and `RightmostAccepted` |
| StreetSegmenter.ExtractedStreet | address.js:183-242 | `extractStreet`; see `StreetFoundIff`, `RightmostAccepted`, `SingleAcceptance`, `NoStreetTypePastFirst` and `LaterMatchOverwrites` |
| StreetSegmenter.StepIdle | address.js:219-238 | a pass at a token no pattern matches changes nothing |
| StreetSegmenter.StreetScanSkip | address.js:216-239 | passes that cannot accept anything are skipped |
| StreetSegmenter.NoStreetTypePastFirst | address.js:223 | token 0 is never a street type |
| StreetSegmenter.RightmostAccepted | address.js:216-239 | the rightmost matching token past the first is accepted first, then the scan goes on leftward over the leftover tokens |
| StreetSegmenter.SingleAcceptance | address.js:216-239 | when no leftover token matches, the first acceptance is final |
| StreetSegmenter.StreetScanKeepsFound | address.js:216-239 | once set, `streetType` stays set, and `street` is set with it |
| StreetSegmenter.StreetFoundIff | address.js:216-239 | a street type is found exactly when some token past the first matches a street pattern |
| StreetSegmenter.RightmostMatch | address.js:216-223 | the rightmost token past the first that matches |
| StreetSegmenter.StreetScanSubset | address.js:216-239 | the street scan never adds a token |
| StreetSegmenter.LaterMatchOverwrites | address.js:216-238 | in `Main Rd 12 Smith St`, `St` is accepted first, then `Rd` overwrites the street (`Main`) and the number (`''`) |
| Finalizer.Regions | address.js:252-254 | the regions built from the leftover tokens; see `AtMostOneRegion`, `NoTokensNoRegions` and `RegionPiecesHaveNoComma` |
| Finalizer.CommaIndex | address.js:252 | the first comma |
| Finalizer.RegionPieces | address.js:252 | the split yields at least one piece |
| Finalizer.RegionPiecesHaveNoComma | address.js:252 | no region holds a comma |
| Finalizer.CommaAfter | address.js:252 | the first comma comes after a comma-free prefix |
| Finalizer.SplitAtBareComma | address.js:252 | the split cuts at a comma |
| Finalizer.SplitAtSpacedComma | address.js:252 | one white-space character after the comma belongs to the separator |
| Finalizer.RegionsRoundTrip | address.js:252 | when every comma is followed by a space, joining the pieces with `, ` gives back the text |
| Finalizer.AtMostOneRegion | address.js:252-254 | comma-free tokens give at most one region: the tokens joined by spaces, or none |
| Finalizer.NoTokensNoRegions | address.js:252-260 | a second `finalize` finds no tokens and sets `regions` to `[]` |
| Finalizer.DigitRunEnd | address.js:257 | the end of a digit run |
| Finalizer.StripOrdinals | address.js:257 | the replacement never lengthens the street |
| Finalizer.OrdinalStripped | address.js:257 | a digit run followed by `th`, `rd`, `nd` or `st` and a boundary loses the suffix |
| Finalizer.KeepNonOrdinals | address.js:257 | reference definition: the text without its suffix letters, a suffix letter being one of two characters that form `th`, `rd`, `nd` or `st` directly after a digit and before a boundary |
| Finalizer.OrdinalsRemoved | address.js:257 | the left-to-right global replacement equals the reference: every ordinal suffix loses its letters wherever it stands in the text, and nothing else changes |
| Finalizer.NonDigitCopied | address.js:257 | a character that is not a digit is copied and the replacement goes on after it |
| Finalizer.NoSuffixLettersUnchanged | address.js:257 | text without the letters `t`, `r`, `n`, `s` is unchanged, so `3RD` stays |
| Finalizer.SuffixInsideWordKept | address.js:257 | a suffix followed by a word character stays |
| Finalizer.DigitsCopied | address.js:257 | a digit run with no suffix after it is copied |
| Finalizer.OrdinalAfterDigits | address.js:257 | a suffix right after the digits is a suffix at the start of the rest |
| Compiler.CleanSource | parsers/compiler.js:6-11 | the `reStreetCleaner` rewrite of one raw pattern; see `Anchored`, `CaretIgnored`, `NotStripped` and `MultiLineKept` |
| Compiler.CompileEntry | parsers/compiler.js:10-13 | one compiled entry; see `CompiledTableFacts` |
| Compiler.CompiledTable | parsers/compiler.js:4-17 | the order-preserving map: same length, and entry i compiled from input entry i |
| Compiler.Compile | parsers/compiler.js:4-17 | the countdown loop computes the order-preserving map `CompiledTable`: the same length, and entry i keeps its label, gets pattern `CleanSource` of its raw pattern and is case-insensitive |
| Compiler.Anchored | parsers/compiler.js:6-11 | a one-line pattern becomes `^…,?$` |
| Compiler.CaretIgnored | parsers/compiler.js:6 | `^X` and `X` compile to the same source |
| Compiler.NotStripped | parsers/compiler.js:6-11 | only one `^` is removed, and a trailing `$` or `,` is kept |
| Compiler.MultiLineKept | parsers/compiler.js:6-11 | a pattern containing a line terminator is not rewritten |
| Compiler.CompiledTableFacts | parsers/compiler.js:9-13 | every entry is case-insensitive and keeps its label |
| Compiler.EmptyTableCompiled | parsers/compiler.js:4-17 | an empty table compiles to an empty one |
| EnCleaners.StripAbbreviationDots | parsers/en.js:106-108 | the first cleaner; see `StripDotsFromKeeps`, `AbbreviationDotsRemoved` and `SecondDotKept` |
| EnCleaners.DotsCommasToSpaces | parsers/en.js:111-113 | the second cleaner; see `DotsCommasReplaced` |
| EnCleaners.ShopToUnit | parsers/en.js:116-118 | the SHOP cleaner; see `ShopRewrite`, `NoShopKept`, `ShopExample` and `ShopAddsOnlySlash` |
| EnCleaners.TightenCompass | parsers/en.js:121-127 | the compass cleaner; see `CompassChars` and `LaterPairKept` |
| EnCleaners.SpaceRunEnd | parsers/en.js:116-118 | the end of a run of `\s` |
| EnCleaners.StripDotsFromKeeps | parsers/en.js:106-108 | the global scan of `(\w{1,2})\.` equals the reference `KeepNonWordDots` from any resumable position |
| EnCleaners.AbbreviationDotsRemoved | parsers/en.js:106-108 | the first cleaner deletes exactly the dots that directly follow a word character |
| EnCleaners.SecondDotKept | parsers/en.js:106-108 | `A..` becomes `A.` |
| EnCleaners.DotsCommasReplaced | parsers/en.js:111-113 | the second cleaner keeps the length, turns each dot and comma into a space, keeps every other character, and leaves no dot or comma |
| EnCleaners.FindShop | parsers/en.js:116-118 | the match positions of `^\s*SHOP\s?(\d*)\,?\s*` are ordered within the text |
| EnCleaners.OptionalSpace | parsers/en.js:116-118 | `\s?` takes one character exactly when it is white space |
| EnCleaners.OptionalComma | parsers/en.js:116-118 | `\,?` takes one character exactly when it is a comma |
| EnCleaners.ShopRewrite | parsers/en.js:116-118 | read off its positions, a leading `SHOP` match is replaced by its digits and `/` |
| EnCleaners.ShopExampleMatch | parsers/en.js:116-118 | where the match of `SHOP 5 12 X` lies |
| EnCleaners.ShopExample | parsers/en.js:116-118 | `SHOP 5 12 X` becomes `5/12 X` |
| EnCleaners.NoShopKept | parsers/en.js:116-118 | text that does not start with `SHOP` is kept |
| EnCleaners.ShopAddsOnlySlash | parsers/en.js:116-118 | the rewrite adds no character except `/` |
| EnCleaners.FindPair | parsers/en.js:121-127 | the leftmost case-insensitive occurrence of `W1\sW2` |
| EnCleaners.LaterPairKept | parsers/en.js:121-127 | only the first occurrence is replaced; a later one survives |
| EnCleaners.ReplaceFirstChars | parsers/en.js:121-127 | a replacement adds only characters of its abbreviation |
| EnCleaners.CompassChars | parsers/en.js:121-127 | the compass cleaner adds only the letters of `SE`, `SW`, `NE`, `NW` |
| En.Extractions | parsers/en.js:135-180 | the five extraction steps in order, each on the tokens the previous one left; see `ExtractAll`, `ScanValuesMeaning` and `RegionStageSplits` |
| En.RunStages | parsers/en.js:101-183 | the stages before `finalize`; see `TokensHaveNoComma`, `StreetPartsFromTokens` and `ThrowsIffNoStreetType` |
| En.Prepared | parsers/en.js:101-183 | the fields before `finalize`; see `Prepare` and `StreetPartsFromTokens` |
| En.Parsed | parsers/en.js:101-186 | one whole parse; see `Drive`, `ThrowsIffNoStreetType`, `AtMostOneRegionParsed`, `ParsedProvinceNeverNU` and `EnglishParse` |
| En.ScanValuesMeaning | parsers/en.js:135-180 | after the five steps every field is set, to its step's coerced value |
| En.ScanPostsMeaning | parsers/en.js:135-180 | a field has a Post list exactly when its step recorded one |
| En.ExtractAll | parsers/en.js:135-180 | the five extraction steps, in order, leave the tokens, values and Post lists that `Extractions` gives |
| En.Prepare | parsers/en.js:101-183 | the steps before `finalize` leave the fields `Prepared` gives |
| En.Drive | parsers/en.js:101-186 | one address through clean, split on single white-space characters, unit, country, province, city, direction, street and finalize leaves `Parsed`, and the same status |
| En.Parse | parsers/en.js:19-186 | the exported function compiles the street table and leaves `Parsed(English, …)` |
| En.CleanersInOrder | parsers/en.js:104-129 | the four cleaners apply in order: abbreviation dots, dots and commas, SHOP, compass |
| En.CleanedHasNoDotOrComma | parsers/en.js:106-127 | no dot and no comma survives the cleaners |
| En.LastCleanersAddNoDotOrComma | parsers/en.js:116-127 | the SHOP and compass cleaners add no dot and no comma |
| En.TokensHaveNoComma | parsers/en.js:104-132 | no token holds a comma |
| En.StreetPartsFromTokens | parsers/en.js:135-183 | the tokens left at `finalize` are tokens of the split text |
| En.AtMostOneRegionParsed | parsers/en.js:101-186 | a parse leaves at most one region |
| En.ThrowsIffNoStreetType | parsers/en.js:182-186 | a parse throws exactly when no street type was found, that is, when no token past the first left for the street step matches; otherwise no tokens remain and a street is set |
| En.UnitHasNoPost | parsers/en.js:135-138 | the unit step never records a Post list |
| En.RegionStageSplits | parsers/en.js:141-180 | a region step either changes nothing, or keeps the tokens before the hit, drops the hit and records the tokens after it as the Post list |
| En.ProvinceNeverNU | parsers/en.js:147-162 | the province step never yields `NU`, because `YT` comes first with the same pattern |
| En.ParsedProvinceNeverNU | parsers/en.js:147-162 | a parse never records the province `NU` |
| En.UnitStageRemovesMatches | parsers/en.js:135-138 | the unit step removes every token either unit pattern matches, and only those |
| En.StreetLabelIsST | parsers/en.js:19-97 | the street table has 73 entries, and the entry matching `ST`, `STREET` and `STR` is compiled, anchored and case-insensitive, under the label `ST` |
| En.EnglishParse | parsers/en.js:101-186 | a parse with the English tables: at most one region, no `unitPost`, never the province `NU`, and a throw exactly when no street type was found |

## Left out

- Regular-expression matching is abstract (the `Engine` value). The
  exception is the four English cleaners, which are written out. The
  properties that depend on what a pattern matches are stated for any
  engine.
- `locateBestStreetPart` (address.js:196-213) is never called, so it is not
  modelled.
- `reSplitStreet` is passed to `extractStreet` but only used in commented-out
  code, so the model leaves it out. For the same reason the model does not
  include the commented-out capture-2 replacement in `extract`.
- The empty `sideness: 'left'` branch does nothing, so it is modelled as no
  sideness.
- `toString` (address.js:289-304) formats the result for display and is not
  part of the parse.
- The `instanceof` shim in the constructor (address.js:10-12) only makes
  `new` optional, so it is not modelled.
- Dynamic field names (`this[fieldName]`) are an enum (`FieldExtractor.Field`)
  and two maps (`values`, `posts`).
- An index past the end of the shortened token list reads `undefined`. The
  model treats that read as a match failure; no English street pattern
  matches the string `undefined`.
- En.Parse: the module compiles the street table once, when it is loaded.
  The model compiles it on each call. The result is the same.
- `regions` often includes street and city names that the extractors did
  not take. The model computes exactly what the code computes and makes no
  claim about what those regions mean.
- Js.ParseInt: JavaScript's `parseInt` returns an IEEE double; the model
  returns the exact integer. Rounding above 2^53 and overflow to
  `Infinity` for very long digit runs are not modelled.
- Js.FieldValue: built on `Js.ParseInt`, so the stored number is exact,
  with no rounding above 2^53 and no `Infinity`.
- StreetSegmenter.NumberValue: the building number read by `parseInt` at
  address.js:74 is exact in the same way.
- AddressParser.Address.Split: `split` accepts any string or regular
  expression as separator; the model models only separators that match
  exactly one character, given as a predicate. That covers the `' '`
  default and the English parser's `/\s/` (parsers/en.js:132), but not
  multi-character or empty-matching separators.
- Strings are Dafny strings, sequences of Unicode scalar values, while
  JavaScript strings are sequences of UTF-16 code units. A lone surrogate
  cannot be written in the model, and a character outside the Basic
  Multilingual Plane is one character here but two code units in
  JavaScript. The written-out cleaners and the ordinal replacement only
  look for ASCII characters and white space, each one code unit either
  way, and copy every other character, so they do not depend on the
  difference.
