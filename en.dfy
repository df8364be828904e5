/** The English parser of parsers/en.js: the street-type table compiled by
    the pattern compiler, the label tables of the other fields, the four
    cleaners, and the fixed order in which one `Address` goes through the
    parsing steps. */
module En {
  import opened Js
  import opened RegExps
  import opened Compiler
  import opened Cleaning
  import opened Tokenizer
  import opened FieldExtractor
  import opened StreetSegmenter
  import opened Finalizer
  import opened AddressParser
  import opened EnCleaners

  // ---------------------------------------------------------------------
  // Tables (parsers/en.js:19-97, 135-180)

  /** The street types with their raw patterns, in source order; the
      entries commented out in the source are left out. */
  const StreetTable: seq<Entry> := [
    Entry("AL", "ALLE?Y|AL"),
    Entry("AP", "APP(ROACH)?"),
    Entry("AR", "ARC(ADE)?"),
    Entry("AV", "AV(E|ENUE)?"),
    Entry("BA", "(BAY|BA|BY)"),
    Entry("BV", "(BOULEVARD|BLVD|BV|BLV)"),
    Entry("BROW", "BROW"),
    Entry("BYPASS", "BYPA(SS)?"),
    Entry("CA", "CA(PE)?"),
    Entry("CAUSEWAY", "C(AUSE)?WAY"),
    Entry("CE", "(CENTRE|CENTER|CE|CTR)"),
    Entry("CI", "CI(RCLE)?|CIR"),
    Entry("CIRCUIT", "(CIRCUIT|CCT)"),
    Entry("CIRCUS", "CIRC(US)?"),
    Entry("CL", "CL(OSE)?"),
    Entry("CM", "(COMMON|CM|CMN)"),
    Entry("COPSE", "CO?PSE"),
    Entry("CORNER", "(CORNER|CNR)"),
    Entry("CV", "(COVE|CV)"),
    Entry("CO", "C(OUR)?T|CRT|CO"),
    Entry("CR", "CR(ES)?(CENT)?"),
    Entry("DR", "DR(IVE)?|DRV"),
    Entry("ESPLANANDE", "ESP(LANANDE)?"),
    Entry("FREEWAY", "F(REE)?WAY"),
    Entry("FRONTAGE", "(FRONTAGE|FRNT)"),
    Entry("GD", "(GARDENS?|GD|GDNS?|GARS?)"),
    Entry("GA", "(GATE|GA|GT)"),
    Entry("GLADE", "(GLADE|GLD)"),
    Entry("GREEN", "GR(EE)?N|GR"),
    Entry("GV", "GROVE|GR?V"),
    Entry("HE", "HE(ATH)?"),
    Entry("HT", "(H(EIGH)?TS|HT)"),
    Entry("HI", "(HI(GHWAY)?|HWY)"),
    Entry("HL", "(HILLS?|HL)"),
    Entry("IS", "(IS(LAND)?|ISLE)"),
    Entry("LD", "(LD|LANDING)"),
    Entry("LN", "(LANE|LN)"),
    Entry("LI", "(LI(NK)?|LN?K)"),
    Entry("LOOP", "LOOP"),
    Entry("MALL", "MALL"),
    Entry("MR", "M(ANO)?R"),
    Entry("ME", "(MEWS?|ME|MW)"),
    Entry("MT", "(M(OUN)?T|MNT)"),
    Entry("PACKET", "(PACKET|PCKT)"),
    Entry("PR", "(P(ARA)?DE|PRD?|PRDE)"),
    Entry("PA", "(P(AR)?K|PA)"),
    Entry("PY", "(P(ARKWA)?Y|PKWY)"),
    Entry("PS", "(PASSAGE|P(AS)?S)"),
    Entry("PH", "P(AT)?H"),
    Entry("PL", "PL(ACE)?"),
    Entry("PZ", "(PLAZA|PZ|PLZ)"),
    Entry("PT", "(P(OIN)?T|PNT)"),
    Entry("PROMENADE", "PROM(ENADE)?"),
    Entry("RESERVE", "RES(ERVE)?"),
    Entry("RI", "RI(SE)?"),
    Entry("RD", "R(OA)?D"),
    Entry("RO", "ROW?"),
    Entry("SQ", "SQ(UARE)?"),
    Entry("ST", "(ST(REET)?|STR)"),
    Entry("STRIP", "STRI?P"),
    Entry("TARN", "TARN"),
    Entry("TC", "(T(ERRA)?CE|TC)"),
    Entry("THOROUGHFARE", "(THOROUGHFARE|TFRE)"),
    Entry("TRACK", "TRACK?"),
    Entry("TR", "TR(AIL)?"),
    Entry("TRUNKWAY", "T(RUNK)?WAY"),
    Entry("VW", "V(IE)?W"),
    Entry("VI", "VI(LAS)?"),
    Entry("VISTA", "VI?STA"),
    Entry("WK", "W(AL)?K"),
    Entry("WY", "WA?Y"),
    Entry("WALKWAY", "W(ALK)?WAY"),
    Entry("YARD", "YARD")
  ]

  /** `/^(?:\#|APT|APARTMENT)\s?(\d+)/` and `/^(\d+)\/(.*)/`, without the
      `i` flag; capture 1 is the unit number. */
  const UnitNumbered := Regex("^(?:\\#|APT|APARTMENT)\\s?(\\d+)", false)
  const UnitSlashed := Regex("^(\\d+)\\/(.*)", false)
  const UnitPatterns := Unlabeled([UnitNumbered, UnitSlashed])

  const CountryPatterns := Labeled([
    LabeledRegex("AU", Regex("^AUSTRAL", true)),
    LabeledRegex("US", Regex("(^UNITED\\sSTATES|^U\\.?S\\.?A?$)", true)),
    LabeledRegex("CANADA", Regex("(^CA(NADA)?$)", true))
  ])

  /** `YT` and `NU` have the same pattern. */
  const YukonPattern := Regex("^(YU?K?(ON)?T?)", true)

  const ProvincePatterns := Labeled([
    LabeledRegex("ALBERTA", Regex("^(AL(BER)?(TA)?|A\\.?B\\.?)$", true)),
    LabeledRegex("ON", Regex("^(O\\.?N\\.?T\\.?$|ON(TARIO)?)$", true)),
    LabeledRegex("BC", Regex("^(BC|B\\.C(\\.)?|BRITISH\\sCOLUMBIA)$", true)),
    LabeledRegex("QC", Regex("^(QC$|QUEBEC|PQ)", true)),
    LabeledRegex("NS", Regex("^(NS|NOVA\\sSCOTIA)", true)),
    LabeledRegex("NB", Regex("^(NB|NEW\\sBRUNSWICK)", true)),
    LabeledRegex("MB", Regex("^(M(ANITO)?BA?)", true)),
    LabeledRegex("PE", Regex("^(P(RINCE\\s)?E(DWARD\\s)?I?(SLAND)?)", true)),
    LabeledRegex("SK", Regex("^(S(AS)?K(ATCHEWAN)?)", true)),
    LabeledRegex("NL", Regex("^(N(EW)?F(OUN)?D?L?(AN)?D?)|NL$", true)),
    LabeledRegex("NT", Regex("^(NORTH\\sWEST\\sTERRITORIES|NWT|NT|N\\.W\\.T\\.)", true)),
    LabeledRegex("YT", YukonPattern),
    LabeledRegex("NU", YukonPattern)
  ])

  const CityPatterns := Labeled([
    LabeledRegex("CALGARY", Regex("^CAL(GARY)?$", true)),
    LabeledRegex("AIRDRIE", Regex("^AIRDRIE$", true)),
    LabeledRegex("EDMONTON", Regex("^EDMONTON$", true)),
    LabeledRegex("COCHRANE", Regex("^COCHRANE$", true)),
    LabeledRegex("OKOTOKS", Regex("^OKOTOKS$", true)),
    LabeledRegex("CHESTERMERE", Regex("^CHESTERMERE$", true))
  ])

  const DirectionPatterns := Labeled([
    LabeledRegex("NW", Regex("^NW", true)),
    LabeledRegex("NE", Regex("^NE", true)),
    LabeledRegex("SW", Regex("^SW", true)),
    LabeledRegex("SE", Regex("^SE", true))
  ])

  /** `{breakout: true, sideness: 'right'}`, the options of the country,
      province, city and direction steps. */
  const RegionOptions := Options(true, Right)

  /** The cleaners, in order (parsers/en.js:104-129). */
  const Cleaners: seq<Cleaner> := [
    Rewrite(StripAbbreviationDots),
    Rewrite(DotsCommasToSpaces),
    Rewrite(ShopToUnit),
    Rewrite(TightenCompass)
  ]

  // ---------------------------------------------------------------------
  // The pipeline (parsers/en.js:101-186)

  /** The tables one parser drives an address with: its cleaners, the
      patterns of the five extraction steps and the compiled street types. */
  datatype Grammar = Grammar(
    cleaners: seq<Cleaner>,
    unit: Patterns,
    country: Patterns,
    province: Patterns,
    city: Patterns,
    direction: Patterns,
    streets: seq<Compiled>)

  /** The English grammar, with the street table compiled as the module
      does when it is loaded. */
  const English := Grammar(Cleaners, UnitPatterns, CountryPatterns, ProvincePatterns,
    CityPatterns, DirectionPatterns, CompiledTable(StreetTable))

  /** What each step leaves: the cleaned text, the tokens, the five
      extractions and the street step. */
  datatype Stages = Stages(text: string, tokens: seq<string>, scans: Scans, street: StreetState)

  /** What the unit, country, province, city and direction steps leave. */
  datatype Scans = Scans(unit: Scan, country: Scan, province: Scan, city: Scan, direction: Scan)

  function Extractions(tokens: seq<string>, g: Grammar, e: Engine): Scans {
    var unit := Extracted(tokens, g.unit, NoOptions, e);
    var country := Extracted(unit.parts, g.country, RegionOptions, e);
    var province := Extracted(country.parts, g.province, RegionOptions, e);
    var city := Extracted(province.parts, g.city, RegionOptions, e);
    var direction := Extracted(city.parts, g.direction, RegionOptions, e);
    Scans(unit, country, province, city, direction)
  }

  function RunStages(g: Grammar, input: string, e: Engine): Stages {
    var text := Cleaned(e, input, g.cleaners);
    var tokens := Tokens(text, IsSpace);
    var scans := Extractions(tokens, g, e);
    var street := ExtractedStreet(StreetState(scans.direction.parts, None, None, Undefined), g.streets, e);
    Stages(text, tokens, scans, street)
  }

  /** The step that extracts `f`. */
  function ScanOf(x: Scans, f: Field): Scan {
    match f
    case Unit => x.unit
    case Country => x.country
    case Province => x.province
    case City => x.city
    case Direction => x.direction
  }

  /** The field values the five extraction steps leave. */
  function ScanValues(x: Scans): map<Field, Value> {
    map[][Unit := FieldValue(x.unit.value)][Country := FieldValue(x.country.value)]
      [Province := FieldValue(x.province.value)][City := FieldValue(x.city.value)]
      [Direction := FieldValue(x.direction.value)]
  }

  /** The post-token lists the five extraction steps leave. */
  function ScanPosts(x: Scans): map<Field, seq<string>> {
    PostsAfter(PostsAfter(PostsAfter(PostsAfter(PostsAfter(map[], Unit, x.unit.post),
      Country, x.country.post), Province, x.province.post), City, x.city.post), Direction, x.direction.post)
  }

  /** Every field is set, to its step's value coerced as
      `parseInt(v, 10) || v`. */
  lemma ScanValuesMeaning(x: Scans, f: Field)
    ensures f in ScanValues(x) && ScanValues(x)[f] == FieldValue(ScanOf(x, f).value)
  {
    var m := ScanValues(x);
    match f
    case Unit => assert m[Unit] == FieldValue(x.unit.value);
    case Country => assert m[Country] == FieldValue(x.country.value);
    case Province => assert m[Province] == FieldValue(x.province.value);
    case City => assert m[City] == FieldValue(x.city.value);
    case Direction =>
  }

  /** A field has a post-token list exactly when its step recorded one,
      and it is that list. */
  lemma ScanPostsMeaning(x: Scans, f: Field)
    ensures f in ScanPosts(x) <==> ScanOf(x, f).post.Some?
    ensures f in ScanPosts(x) ==> ScanPosts(x)[f] == ScanOf(x, f).post.value
  {
    var m1 := PostsAfter(map[], Unit, x.unit.post);
    var m2 := PostsAfter(m1, Country, x.country.post);
    var m3 := PostsAfter(m2, Province, x.province.post);
    var m4 := PostsAfter(m3, City, x.city.post);
    var m5 := PostsAfter(m4, Direction, x.direction.post);
    assert ScanPosts(x) == m5;
    match f
    case Unit => assert (f in m5 <==> f in m1) && (f in m5 ==> m5[f] == m1[f]);
    case Country => assert (f in m5 <==> f in m2) && (f in m5 ==> m5[f] == m2[f]);
    case Province => assert (f in m5 <==> f in m3) && (f in m5 ==> m5[f] == m3[f]);
    case City => assert (f in m5 <==> f in m4) && (f in m5 ==> m5[f] == m4[f]);
    case Direction =>
  }

  /** The fields of the address once the street step is done. */
  function Prepared(g: Grammar, input: string, e: Engine): Fields {
    var st := RunStages(g, input, e);
    Fields(st.text, st.street.parts, ScanValues(st.scans), ScanPosts(st.scans),
      st.street.streetType, st.street.street, st.street.number, None)
  }

  /** The address a parse leaves, and whether `finalize` threw. */
  function Parsed(g: Grammar, input: string, e: Engine): Outcome {
    Finalized(Prepared(g, input, e))
  }

  /** One address driven through clean, split on single white-space
      characters, unit, country, province, city, direction, street and
      finalize, in that order (parsers/en.js:101-186). */
  method Drive(g: Grammar, input: string, e: Engine) returns (address: Address, status: Status)
    ensures fresh(address)
    ensures address.AllFields() == Parsed(g, input, e).fields
    ensures status == Parsed(g, input, e).status
  {
    address := Prepare(g, input, e);
    status := address.Finalize();
  }

  /** The steps before `finalize`. */
  method Prepare(g: Grammar, input: string, e: Engine) returns (address: Address)
    ensures fresh(address)
    ensures address.AllFields() == Prepared(g, input, e)
  {
    ghost var st := RunStages(g, input, e);
    address := new Address(input);
    assert address.streetType == None && address.street == None && address.number == Undefined;
    assert address.values == map[] && address.posts == map[] && address.regions == None;
    address.Clean(g.cleaners, e);
    assert address.text == st.text;
    address.Split(IsSpace);
    assert address.parts == st.tokens;
    ExtractAll(address, g, e);
    assert address.StreetFields() == StreetState(st.scans.direction.parts, None, None, Undefined);
    address.ExtractStreet(g.streets, e);
    assert address.StreetFields() == st.street;
  }

  /** The unit, country, province, city and direction steps, on an address
      none of whose fields are set yet. */
  method ExtractAll(address: Address, g: Grammar, e: Engine)
    requires address.values == map[] && address.posts == map[]
    modifies address`parts, address`values, address`posts
    ensures address.parts == Extractions(old(address.parts), g, e).direction.parts
    ensures address.values == ScanValues(Extractions(old(address.parts), g, e))
    ensures address.posts == ScanPosts(Extractions(old(address.parts), g, e))
  {
    ghost var x := Extractions(address.parts, g, e);
    ghost var values: map<Field, Value> := map[];
    ghost var posts: map<Field, seq<string>> := map[];
    address.Extract(Unit, g.unit, NoOptions, e);
    values, posts := values[Unit := FieldValue(x.unit.value)], PostsAfter(posts, Unit, x.unit.post);
    assert address.parts == x.unit.parts && address.values == values && address.posts == posts;
    address.Extract(Country, g.country, RegionOptions, e);
    values, posts := values[Country := FieldValue(x.country.value)], PostsAfter(posts, Country, x.country.post);
    assert address.parts == x.country.parts && address.values == values && address.posts == posts;
    address.Extract(Province, g.province, RegionOptions, e);
    values, posts := values[Province := FieldValue(x.province.value)], PostsAfter(posts, Province, x.province.post);
    assert address.parts == x.province.parts && address.values == values && address.posts == posts;
    address.Extract(City, g.city, RegionOptions, e);
    values, posts := values[City := FieldValue(x.city.value)], PostsAfter(posts, City, x.city.post);
    assert address.parts == x.city.parts && address.values == values && address.posts == posts;
    address.Extract(Direction, g.direction, RegionOptions, e);
  }

  /** The exported function of parsers/en.js, which compiles the street
      table and parses with the English tables. */
  method Parse(input: string, e: Engine) returns (address: Address, status: Status)
    ensures fresh(address)
    ensures address.AllFields() == Parsed(English, input, e).fields
    ensures status == Parsed(English, input, e).status
  {
    var streets := Compile(StreetTable);
    assert streets == CompiledTable(StreetTable);
    address, status := Drive(Grammar(Cleaners, UnitPatterns, CountryPatterns, ProvincePatterns,
      CityPatterns, DirectionPatterns, streets), input, e);
  }

  // ---------------------------------------------------------------------
  // Properties

  /** The cleaners run in the order they are listed. */
  lemma CleanersInOrder(e: Engine, text: string)
    ensures Cleaned(e, text, Cleaners) == TightenCompass(ShopToUnit(DotsCommasToSpaces(StripAbbreviationDots(text))))
  {
    var cs := Cleaners;
    assert cs[..1][..0] == [] && cs[..2][..1] == cs[..1] && cs[..3][..2] == cs[..2] && cs[..4][..3] == cs[..3];
    assert Cleaned(e, text, cs[..1]) == StripAbbreviationDots(text);
    assert Cleaned(e, text, cs[..2]) == DotsCommasToSpaces(StripAbbreviationDots(text));
    assert Cleaned(e, text, cs[..3]) == ShopToUnit(DotsCommasToSpaces(StripAbbreviationDots(text)));
    assert cs[..4] == cs;
  }

  /** No dot and no comma survives the cleaners: the second one turns
      them all into spaces, and the later two add only `/` and compass
      letters. */
  lemma CleanedHasNoDotOrComma(e: Engine, text: string)
    ensures '.' !in Cleaned(e, text, Cleaners) && ',' !in Cleaned(e, text, Cleaners)
  {
    CleanersInOrder(e, text);
    var b := DotsCommasToSpaces(StripAbbreviationDots(text));
    DotsCommasReplaced(StripAbbreviationDots(text));
    LastCleanersAddNoDotOrComma(b, '.');
    LastCleanersAddNoDotOrComma(b, ',');
  }

  /** The SHOP and compass cleaners add no dot and no comma. */
  lemma LastCleanersAddNoDotOrComma(b: string, x: char)
    requires x == '.' || x == ','
    requires x !in b
    ensures x !in TightenCompass(ShopToUnit(b))
  {
    var c := ShopToUnit(b);
    if x in TightenCompass(c) {
      CompassChars(c, x);
      ShopAddsOnlySlash(b, x);
      assert false;
    }
  }

  /** Every token a parse works on comes from the cleaned text, so none
      holds a comma. */
  lemma TokensHaveNoComma(g: Grammar, input: string, e: Engine)
    requires g.cleaners == Cleaners
    ensures forall t :: t in RunStages(g, input, e).tokens ==> ',' !in t
  {
    var st := RunStages(g, input, e);
    CleanedHasNoDotOrComma(e, input);
    forall t | t in st.tokens
      ensures ',' !in t
    {
      if ',' in t {
        TokenCharsFromText(st.text, IsSpace, t, ',');
        assert false;
      }
    }
  }

  /** The tokens left for the street step are tokens of the split text. */
  lemma StreetPartsFromTokens(g: Grammar, input: string, e: Engine)
    ensures var st := RunStages(g, input, e);
      forall t :: t in st.street.parts ==> t in st.tokens
  {
    var st := RunStages(g, input, e);
    var x := st.scans;
    ExtractedSubset(st.tokens, g.unit, NoOptions, e);
    ExtractedSubset(x.unit.parts, g.country, RegionOptions, e);
    ExtractedSubset(x.country.parts, g.province, RegionOptions, e);
    ExtractedSubset(x.province.parts, g.city, RegionOptions, e);
    ExtractedSubset(x.city.parts, g.direction, RegionOptions, e);
    var s0 := StreetState(x.direction.parts, None, None, Undefined);
    StreetScanSubset(s0, g.streets, e, |s0.parts|, x.direction.parts);
  }

  /** Since the cleaned text holds no comma, `finalize` always leaves at
      most one region: the remaining tokens joined by spaces. */
  lemma AtMostOneRegionParsed(g: Grammar, input: string, e: Engine)
    requires g.cleaners == Cleaners
    ensures var f := Parsed(g, input, e).fields;
      f.regions.Some? && |f.regions.value| <= 1
  {
    var st := RunStages(g, input, e);
    TokensHaveNoComma(g, input, e);
    StreetPartsFromTokens(g, input, e);
    AtMostOneRegion(st.street.parts);
  }

  /** `finalize` throws exactly when no street type was found, that is,
      when no token after the first left for the street step matches a
      street pattern; otherwise it leaves no unconsumed tokens. */
  lemma ThrowsIffNoStreetType(g: Grammar, input: string, e: Engine)
    ensures var st := RunStages(g, input, e);
      var o := Parsed(g, input, e);
      var p := st.scans.direction.parts;
      && (o.status == Threw <==> o.fields.streetType.None?)
      && (o.status == Completed <==> exists j :: 0 < j < |p| && MatchesSomePattern(g.streets, e, p[j]))
      && (o.status == Completed ==> o.fields.parts == [] && o.fields.street.Some?)
  {
    var st := RunStages(g, input, e);
    StreetFoundIff(StreetState(st.scans.direction.parts, None, None, Undefined), g.streets, e);
  }

  /** The unit step has no sideness, so it never records a `unitPost`. */
  lemma UnitHasNoPost(g: Grammar, input: string, e: Engine)
    ensures Unit !in Parsed(g, input, e).fields.posts
  {
    var st := RunStages(g, input, e);
    NoSideNoPost(st.tokens, g.unit, NoOptions, e);
    ScanPostsMeaning(st.scans, Unit);
  }

  /** A region step either finds nothing and changes nothing, or keeps the
      tokens before the hit, drops the hit and records the tokens after it
      as the `<field>Post` list. */
  lemma RegionStageSplits(parts: seq<string>, p: Patterns, e: Engine)
    ensures var r := Extracted(parts, p, RegionOptions, e);
      && (r.post.None? ==> r.parts == parts && r.value.None?)
      && (r.post.Some? ==> |r.parts| < |parts| && parts == r.parts + [parts[|r.parts|]] + r.post.value)
  {
    BreakoutExtraction(parts, p, RegionOptions, e);
    var cs := Candidates(p);
    var h := FirstHit(parts, cs, e, 0);
    if h.Some? {
      var i := h.value.i;
      assert parts == parts[..i] + [parts[i]] + parts[i + 1..];
    }
  }

  /** `YT` comes before `NU` with the same pattern, so the province step
      never yields `NU`. */
  lemma ProvinceNeverNU(parts: seq<string>, e: Engine)
    ensures Extracted(parts, ProvincePatterns, RegionOptions, e).value != Some("NU")
  {
    BreakoutExtraction(parts, ProvincePatterns, RegionOptions, e);
    var cs := Candidates(ProvincePatterns);
    assert |cs| == 13 && cs[11].re == cs[12].re;
    match FirstHit(parts, cs, e, 0)
    case None =>
    case Some(h) =>
      assert h.k != 12;
      assert cs[h.k].lookup.Some? && cs[h.k].lookup.value != "" && cs[h.k].lookup.value != "NU";
  }

  /** So a parse never records the province `NU`. */
  lemma ParsedProvinceNeverNU(g: Grammar, input: string, e: Engine)
    requires g.province == ProvincePatterns
    ensures Parsed(g, input, e).fields.values[Province] != Str("NU")
  {
    var st := RunStages(g, input, e);
    ProvinceNeverNU(st.scans.country.parts, e);
    ScanValuesMeaning(st.scans, Province);
  }

  /** The unit step removes every token either unit pattern matches, and
      only those. */
  lemma UnitStageRemovesMatches(tokens: seq<string>, e: Engine, t: string)
    ensures t in Extracted(tokens, UnitPatterns, NoOptions, e).parts <==>
      t in tokens && !Test(e, UnitNumbered, t) && !Test(e, UnitSlashed, t)
  {
    SweepExtraction(tokens, UnitPatterns, NoOptions, e);
    var cs := Candidates(UnitPatterns);
    SurvivorsSpec(tokens, cs, e, t);
    assert cs == [Candidate(None, UnitNumbered), Candidate(None, UnitSlashed)];
  }

  /** The street table has 73 entries, and `STREET` is compiled under the
      label `ST`. */
  lemma StreetLabelIsST()
    ensures |CompiledTable(StreetTable)| == 73
    ensures CompiledTable(StreetTable)[58] == Compiled("ST", Regex("^(ST(REET)?|STR),?$", true))
  {
    assert StreetTable[58] == Entry("ST", "(ST(REET)?|STR)");
    assert !HasLineTerminator("(ST(REET)?|STR)");
  }

  /** What a parse with the English tables (the result of `Parse`) always
      satisfies: at most one region, no `unitPost`, never the province
      `NU`, and a throw exactly when no street type was found. */
  lemma EnglishParse(input: string, e: Engine)
    ensures var o := Parsed(English, input, e);
      && o.fields.regions.Some? && |o.fields.regions.value| <= 1
      && Unit !in o.fields.posts
      && o.fields.values[Province] != Str("NU")
      && (o.status == Threw <==> o.fields.streetType.None?)
  {
    AtMostOneRegionParsed(English, input, e);
    UnitHasNoPost(English, input, e);
    ParsedProvinceNeverNU(English, input, e);
    ThrowsIffNoStreetType(English, input, e);
  }
}
