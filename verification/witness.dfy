/**
  The example of main.cpp: its WKT input, the tree the parser builds from it,
  and the `find` query it makes.

  The input is written below as the concatenation of its values' texts (a
  quoted string is `Q(body)`), which reads, piece by piece, as the one-line
  literal of main.cpp.
 */
module Witness {
  import opened Text
  import opened Tokens
  import opened Builder
  import opened Printer
  import opened Search

  // ---------------------------------------------------------------- building the tree

  function Arr(name: string, cs: seq<Node>): Node { Node(Array, name, false, cs) }
  function Str(t: string): Node { Node(String, t, false, []) }
  /** A number without a '.', and one with: the parser flags only the second as a double. */
  function Int(t: string): Node { Node(Primitive, t, false, []) }
  function Real(t: string): Node { Node(Primitive, t, true, []) }

  /** A string body between double quotes, as the notation writes it. */
  function Q(t: string): string { "\"" + t + "\"" }

  function Authority(code: string): Node { Arr("AUTHORITY", [Str("EPSG"), Str(code)]) }
  function Parameter(name: string, value: Node): Node { Arr("PARAMETER", [Str(name), value]) }

  const Spheroid := Arr("SPHEROID", [Str("WGS84"), Int("6378137"), Real("298.257223563"), Authority("7030")])
  const Towgs84 := Arr("TOWGS84", [Int("0"), Int("0"), Int("0"), Int("0"), Int("0"), Int("0"), Int("0")])
  const Datum := Arr("DATUM", [Str("WGS_1984"), Spheroid, Towgs84, Authority("6326")])
  const Primem := Arr("PRIMEM", [Str("Greenwich"), Int("0"), Authority("8901")])
  const Degree := Arr("UNIT", [Str("degree"), Real("0.0174532925199433"), Authority("9108")])
  const Geogcs := Arr("GEOGCS", [Str("WGS84"), Datum, Primem, Degree, Authority("4326")])
  const Projection := Arr("PROJECTION", [Str("Transverse_Mercator")])
  const Meter := Arr("UNIT", [Str("Meter"), Int("1")])

  /** The tree of main.cpp's input: a projected system whose GEOGCS holds the first UNIT. */
  const MainTree := Arr("PROJCS", [
    Str("UTM Zone 24, Southern Hemisphere"),
    Geogcs,
    Projection,
    Parameter("latitude_of_origin", Int("0")),
    Parameter("central_meridian", Int("-39")),
    Parameter("scale_factor", Real("0.9996")),
    Parameter("false_easting", Int("500000")),
    Parameter("false_northing", Int("10000000")),
    Meter,
    Authority("32724")])

  // ---------------------------------------------------------------- the input text

  /**
    The notation's layout for items already written out: `NAME[i1,...,ik]`.
    It places brackets and commas exactly as `Print` does for an array, but on
    texts rather than trees, so that the input can be written without
    evaluating `Print` on the whole tree; `PrintMainTree` proves the two agree.
   */
  function Wkt(name: string, items: seq<string>): string
    requires |items| > 0
  {
    name + "[" + Items(items, 0)
  }

  function Items(ts: seq<string>, i: nat): string
    requires i < |ts|
    decreases |ts| - i
  {
    ts[i] + (if i + 1 == |ts| then "]" else "," + Items(ts, i + 1))
  }

  function AuthorityText(code: string): string { Wkt("AUTHORITY", [Q("EPSG"), Q(code)]) }
  function ParameterText(name: string, value: string): string { Wkt("PARAMETER", [Q(name), value]) }

  const SpheroidText := Wkt("SPHEROID", [Q("WGS84"), "6378137", "298.257223563", AuthorityText("7030")])
  const Towgs84Text := Wkt("TOWGS84", ["0", "0", "0", "0", "0", "0", "0"])
  const DatumText := Wkt("DATUM", [Q("WGS_1984"), SpheroidText, Towgs84Text, AuthorityText("6326")])
  const PrimemText := Wkt("PRIMEM", [Q("Greenwich"), "0", AuthorityText("8901")])
  const DegreeText := Wkt("UNIT", [Q("degree"), "0.0174532925199433", AuthorityText("9108")])
  const GeogcsText := Wkt("GEOGCS", [Q("WGS84"), DatumText, PrimemText, DegreeText, AuthorityText("4326")])
  const ProjectionText := Wkt("PROJECTION", [Q("Transverse_Mercator")])
  const MeterText := Wkt("UNIT", [Q("Meter"), "1"])

  /** main.cpp's input. */
  const MainInput := Wkt("PROJCS", [
    Q("UTM Zone 24, Southern Hemisphere"),
    GeogcsText,
    ProjectionText,
    ParameterText("latitude_of_origin", "0"),
    ParameterText("central_meridian", "-39"),
    ParameterText("scale_factor", "0.9996"),
    ParameterText("false_easting", "500000"),
    ParameterText("false_northing", "10000000"),
    MeterText,
    AuthorityText("32724")])

  // ---------------------------------------------------------------- printing the tree

  lemma {:induction false} ItemsPrint(n: Node, ts: seq<string>, k: nat)
    requires k < |ts| == |n.children|
    requires forall j :: 0 <= j < |ts| ==> ts[j] == Print(n.children[j])
    ensures PrintItems(n, k) == Items(ts, k)
    decreases |ts| - k
  {
    if k + 1 < |ts| {
      ItemsPrint(n, ts, k + 1);
    }
  }

  /** An array prints as the layout of its printed children. */
  lemma PrintWkt(n: Node, ts: seq<string>)
    requires n.kind == Array && 0 < |ts| == |n.children|
    requires forall j :: 0 <= j < |ts| ==> ts[j] == Print(n.children[j])
    ensures Print(n) == Wkt(n.text, ts)
  {
    ItemsPrint(n, ts, 0);
  }

  lemma PrintLeaves(s: string, t: string)
    ensures Print(Str(s)) == Q(s) && Print(Int(t)) == t && Print(Real(t)) == t
  {
  }

  lemma PrintAuthority(code: string)
    ensures Print(Authority(code)) == AuthorityText(code)
  {
    PrintLeaves("EPSG", "");
    PrintLeaves(code, "");
    PrintWkt(Authority(code), [Q("EPSG"), Q(code)]);
  }

  lemma PrintParameter(name: string, value: Node)
    requires value.kind == Primitive
    ensures Print(Parameter(name, value)) == ParameterText(name, value.text)
  {
    PrintLeaves(name, value.text);
    PrintWkt(Parameter(name, value), [Q(name), value.text]);
  }

  lemma PrintSpheroid()
    ensures Print(Spheroid) == SpheroidText
  {
    PrintLeaves("WGS84", "6378137");
    PrintLeaves("WGS84", "298.257223563");
    PrintAuthority("7030");
    PrintWkt(Spheroid, [Q("WGS84"), "6378137", "298.257223563", AuthorityText("7030")]);
  }

  lemma PrintTowgs84()
    ensures Print(Towgs84) == Towgs84Text
  {
    PrintLeaves("", "0");
    PrintWkt(Towgs84, ["0", "0", "0", "0", "0", "0", "0"]);
  }

  lemma PrintDatum()
    ensures Print(Datum) == DatumText
  {
    PrintSpheroid();
    PrintTowgs84();
    DatumLayout(Spheroid, Towgs84);
  }

  lemma DatumLayout(spheroid: Node, towgs84: Node)
    requires Print(spheroid) == SpheroidText && Print(towgs84) == Towgs84Text
    ensures Print(Arr("DATUM", [Str("WGS_1984"), spheroid, towgs84, Authority("6326")])) == DatumText
  {
    PrintLeaves("WGS_1984", "");
    PrintAuthority("6326");
    PrintWkt(Arr("DATUM", [Str("WGS_1984"), spheroid, towgs84, Authority("6326")]),
      [Q("WGS_1984"), SpheroidText, Towgs84Text, AuthorityText("6326")]);
  }

  lemma PrintPrimem()
    ensures Print(Primem) == PrimemText
  {
    PrintLeaves("Greenwich", "0");
    PrintAuthority("8901");
    PrintWkt(Primem, [Q("Greenwich"), "0", AuthorityText("8901")]);
  }

  lemma PrintDegree()
    ensures Print(Degree) == DegreeText
  {
    PrintLeaves("degree", "0.0174532925199433");
    PrintAuthority("9108");
    PrintWkt(Degree, [Q("degree"), "0.0174532925199433", AuthorityText("9108")]);
  }

  lemma PrintGeogcs()
    ensures Print(Geogcs) == GeogcsText
  {
    PrintDatum();
    PrintPrimem();
    PrintDegree();
    GeogcsLayout(Datum, Primem, Degree);
  }

  lemma GeogcsLayout(datum: Node, primem: Node, degree: Node)
    requires Print(datum) == DatumText && Print(primem) == PrimemText && Print(degree) == DegreeText
    ensures Print(Arr("GEOGCS", [Str("WGS84"), datum, primem, degree, Authority("4326")])) == GeogcsText
  {
    PrintLeaves("WGS84", "");
    PrintAuthority("4326");
    PrintWkt(Arr("GEOGCS", [Str("WGS84"), datum, primem, degree, Authority("4326")]),
      [Q("WGS84"), DatumText, PrimemText, DegreeText, AuthorityText("4326")]);
  }

  lemma PrintProjectionAndMeter()
    ensures Print(Projection) == ProjectionText && Print(Meter) == MeterText
  {
    PrintLeaves("Transverse_Mercator", "1");
    PrintWkt(Projection, [Q("Transverse_Mercator")]);
    PrintLeaves("Meter", "1");
    PrintWkt(Meter, [Q("Meter"), "1"]);
  }

  /** Printing the tree gives back main.cpp's input. */
  lemma PrintMainTree()
    ensures Print(MainTree) == MainInput
  {
    PrintGeogcs();
    PrintProjectionAndMeter();
    MainLayout(Geogcs, Projection, Meter);
  }

  lemma MainLayout(geogcs: Node, projection: Node, meter: Node)
    requires Print(geogcs) == GeogcsText && Print(projection) == ProjectionText && Print(meter) == MeterText
    ensures Print(Arr("PROJCS", [
      Str("UTM Zone 24, Southern Hemisphere"), geogcs, projection,
      Parameter("latitude_of_origin", Int("0")), Parameter("central_meridian", Int("-39")),
      Parameter("scale_factor", Real("0.9996")), Parameter("false_easting", Int("500000")),
      Parameter("false_northing", Int("10000000")), meter, Authority("32724")])) == MainInput
  {
    PrintLeaves("UTM Zone 24, Southern Hemisphere", "");
    PrintParameter("latitude_of_origin", Int("0"));
    PrintParameter("central_meridian", Int("-39"));
    PrintParameter("scale_factor", Real("0.9996"));
    PrintParameter("false_easting", Int("500000"));
    PrintParameter("false_northing", Int("10000000"));
    PrintAuthority("32724");
    PrintWkt(Arr("PROJCS", [
      Str("UTM Zone 24, Southern Hemisphere"), geogcs, projection,
      Parameter("latitude_of_origin", Int("0")), Parameter("central_meridian", Int("-39")),
      Parameter("scale_factor", Real("0.9996")), Parameter("false_easting", Int("500000")),
      Parameter("false_northing", Int("10000000")), meter, Authority("32724")]), [
      Q("UTM Zone 24, Southern Hemisphere"),
      GeogcsText,
      ProjectionText,
      ParameterText("latitude_of_origin", "0"),
      ParameterText("central_meridian", "-39"),
      ParameterText("scale_factor", "0.9996"),
      ParameterText("false_easting", "500000"),
      ParameterText("false_northing", "10000000"),
      MeterText,
      AuthorityText("32724")]);
  }


  // ---------------------------------------------------------------- the tree is well formed

  /**
    A number's text as the number scanner produces it, without and with a
    '.': the primitive case of `Builder.Lexical`, split by the double flag so
    that each literal is checked once, on its own.
   */
  predicate IntText(t: string) {
    |t| > 0 && IsNumberStart(t[0]) && AllChars(IsNumberChar, t) && '.' !in t
  }

  predicate RealText(t: string) {
    |t| > 0 && IsNumberStart(t[0]) && AllChars(IsNumberChar, t) && '.' in t
  }

  lemma ArrayNames()
    ensures IsIdentifier("PROJCS") && IsIdentifier("GEOGCS") && IsIdentifier("DATUM")
    ensures IsIdentifier("SPHEROID") && IsIdentifier("TOWGS84") && IsIdentifier("AUTHORITY")
    ensures IsIdentifier("PRIMEM") && IsIdentifier("UNIT") && IsIdentifier("PROJECTION") && IsIdentifier("PARAMETER")
  {
  }

  lemma IntTexts()
    ensures IntText("0") && IntText("1") && IntText("6378137") && IntText("-39")
    ensures IntText("500000") && IntText("10000000")
  {
  }

  lemma RealTexts()
    ensures RealText("298.257223563") && RealText("0.0174532925199433") && RealText("0.9996")
  {
  }

  lemma StringBodies()
    ensures '"' !in "EPSG" && '"' !in "7030" && '"' !in "6326" && '"' !in "8901" && '"' !in "9108"
    ensures '"' !in "4326" && '"' !in "32724" && '"' !in "WGS84" && '"' !in "WGS_1984"
    ensures '"' !in "Greenwich" && '"' !in "degree" && '"' !in "Meter"
  {
  }

  lemma LongStringBodies()
    ensures '"' !in "Transverse_Mercator" && '"' !in "latitude_of_origin" && '"' !in "central_meridian"
    ensures '"' !in "scale_factor" && '"' !in "false_easting" && '"' !in "false_northing"
  {
  }

  lemma TitleBody()
    ensures '"' !in "UTM Zone 24, Southern Hemisphere"
  {
  }

  lemma WellFormedArray(name: string, cs: seq<Node>)
    requires IsIdentifier(name) && |cs| > 0
    requires forall k :: 0 <= k < |cs| ==> WellFormed(cs[k])
    ensures WellFormed(Arr(name, cs))
  {
  }

  lemma WellFormedString(s: string)
    requires '"' !in s
    ensures WellFormed(Str(s))
  {
  }

  lemma WellFormedInt(t: string)
    requires IntText(t)
    ensures WellFormed(Int(t))
  {
  }

  lemma WellFormedReal(t: string)
    requires RealText(t)
    ensures WellFormed(Real(t))
  {
  }

  lemma WellFormedAuthority(code: string)
    requires '"' !in code && '"' !in "EPSG" && IsIdentifier("AUTHORITY")
    ensures WellFormed(Authority(code))
  {
    WellFormedString("EPSG");
    WellFormedString(code);
    WellFormedArray("AUTHORITY", [Str("EPSG"), Str(code)]);
  }

  lemma WellFormedParameter(name: string, value: Node)
    requires '"' !in name && WellFormed(value) && IsIdentifier("PARAMETER")
    ensures WellFormed(Parameter(name, value))
  {
    WellFormedString(name);
    WellFormedArray("PARAMETER", [Str(name), value]);
  }

  lemma WellFormedSpheroid(axis: Node, flattening: Node)
    requires WellFormed(axis) && WellFormed(flattening)
    ensures WellFormed(Arr("SPHEROID", [Str("WGS84"), axis, flattening, Authority("7030")]))
  {
    ArrayNames();
    StringBodies();
    WellFormedString("WGS84");
    WellFormedAuthority("7030");
    WellFormedArray("SPHEROID", [Str("WGS84"), axis, flattening, Authority("7030")]);
  }

  lemma WellFormedTowgs84()
    ensures WellFormed(Towgs84)
  {
    ArrayNames();
    IntTexts();
    WellFormedInt("0");
    WellFormedArray("TOWGS84", [Int("0"), Int("0"), Int("0"), Int("0"), Int("0"), Int("0"), Int("0")]);
  }

  lemma WellFormedDatum(spheroid: Node, towgs84: Node)
    requires WellFormed(spheroid) && WellFormed(towgs84)
    ensures WellFormed(Arr("DATUM", [Str("WGS_1984"), spheroid, towgs84, Authority("6326")]))
  {
    ArrayNames();
    StringBodies();
    WellFormedString("WGS_1984");
    WellFormedAuthority("6326");
    WellFormedArray("DATUM", [Str("WGS_1984"), spheroid, towgs84, Authority("6326")]);
  }

  lemma WellFormedPrimem()
    ensures WellFormed(Primem)
  {
    ArrayNames();
    IntTexts();
    StringBodies();
    WellFormedString("Greenwich");
    WellFormedInt("0");
    WellFormedAuthority("8901");
    WellFormedArray("PRIMEM", [Str("Greenwich"), Int("0"), Authority("8901")]);
  }

  lemma WellFormedDegree(value: Node)
    requires WellFormed(value)
    ensures WellFormed(Arr("UNIT", [Str("degree"), value, Authority("9108")]))
  {
    ArrayNames();
    StringBodies();
    WellFormedString("degree");
    WellFormedAuthority("9108");
    WellFormedArray("UNIT", [Str("degree"), value, Authority("9108")]);
  }

  lemma WellFormedReals()
    ensures WellFormed(Real("298.257223563")) && WellFormed(Real("0.0174532925199433")) && WellFormed(Real("0.9996"))
  {
    RealTexts();
    WellFormedReal("298.257223563");
    WellFormedReal("0.0174532925199433");
    WellFormedReal("0.9996");
  }

  lemma WellFormedGeogcs(datum: Node, primem: Node, degree: Node)
    requires WellFormed(datum) && WellFormed(primem) && WellFormed(degree)
    ensures WellFormed(Arr("GEOGCS", [Str("WGS84"), datum, primem, degree, Authority("4326")]))
  {
    ArrayNames();
    StringBodies();
    WellFormedString("WGS84");
    WellFormedAuthority("4326");
    WellFormedArray("GEOGCS", [Str("WGS84"), datum, primem, degree, Authority("4326")]);
  }

  lemma WellFormedProjectionAndMeter()
    ensures WellFormed(Projection) && WellFormed(Meter)
  {
    ArrayNames();
    IntTexts();
    StringBodies();
    LongStringBodies();
    WellFormedString("Transverse_Mercator");
    WellFormedArray("PROJECTION", [Str("Transverse_Mercator")]);
    WellFormedString("Meter");
    WellFormedInt("1");
    WellFormedArray("UNIT", [Str("Meter"), Int("1")]);
  }

  lemma WellFormedParameters()
    ensures WellFormed(Parameter("latitude_of_origin", Int("0"))) && WellFormed(Parameter("central_meridian", Int("-39")))
    ensures WellFormed(Parameter("scale_factor", Real("0.9996"))) && WellFormed(Parameter("false_easting", Int("500000")))
    ensures WellFormed(Parameter("false_northing", Int("10000000")))
  {
    ArrayNames();
    IntTexts();
    RealTexts();
    LongStringBodies();
    WellFormedInt("0");
    WellFormedInt("-39");
    WellFormedReal("0.9996");
    WellFormedInt("500000");
    WellFormedInt("10000000");
    WellFormedParameter("latitude_of_origin", Int("0"));
    WellFormedParameter("central_meridian", Int("-39"));
    WellFormedParameter("scale_factor", Real("0.9996"));
    WellFormedParameter("false_easting", Int("500000"));
    WellFormedParameter("false_northing", Int("10000000"));
  }

  lemma WellFormedTitle()
    ensures WellFormed(Str("UTM Zone 24, Southern Hemisphere")) && WellFormed(Authority("32724"))
  {
    ArrayNames();
    StringBodies();
    TitleBody();
    WellFormedString("UTM Zone 24, Southern Hemisphere");
    WellFormedAuthority("32724");
  }

  /** An array of ten well-formed items, as many as the PROJCS array holds, is well formed. */
  lemma WellFormedTenItems(name: string, a: Node, b: Node, c: Node, d: Node, e: Node, f: Node, g: Node, h: Node, i: Node, j: Node)
    requires IsIdentifier(name)
    requires WellFormed(a) && WellFormed(b) && WellFormed(c) && WellFormed(d) && WellFormed(e)
    requires WellFormed(f) && WellFormed(g) && WellFormed(h) && WellFormed(i) && WellFormed(j)
    ensures WellFormed(Arr(name, [a, b, c, d, e, f, g, h, i, j]))
  {
    WellFormedArray(name, [a, b, c, d, e, f, g, h, i, j]);
  }

  lemma WellFormedMainTree()
    ensures WellFormed(MainTree)
  {
    IntTexts();
    WellFormedInt("6378137");
    WellFormedReals();
    WellFormedSpheroid(Int("6378137"), Real("298.257223563"));
    WellFormedTowgs84();
    WellFormedDatum(Spheroid, Towgs84);
    WellFormedPrimem();
    WellFormedDegree(Real("0.0174532925199433"));
    WellFormedGeogcs(Datum, Primem, Degree);
    WellFormedProjectionAndMeter();
    WellFormedParameters();
    WellFormedTitle();
    ArrayNames();
    WellFormedTenItems("PROJCS", Str("UTM Zone 24, Southern Hemisphere"), Geogcs, Projection,
      Parameter("latitude_of_origin", Int("0")), Parameter("central_meridian", Int("-39")),
      Parameter("scale_factor", Real("0.9996")), Parameter("false_easting", Int("500000")),
      Parameter("false_northing", Int("10000000")), Meter, Authority("32724"));
  }

  /**
    main.cpp's call: parsing its input into a default-constructed root (no
    label, no children, not a double, kind unset) returns no error and fills
    the root with exactly the tree above.
   */
  lemma MainParses(root: Node)
    requires root.text == "" && !root.isDouble && root.children == []
    ensures GeoParser(MainInput, root) == Finished(NoError, MainTree)
  {
    PrintMainTree();
    WellFormedMainTree();
    ParsePrintRoundTrip(MainTree, root);
  }

  // ---------------------------------------------------------------- main.cpp's query

  /** A child the search passes over for `key`: not an array, or an array in which `key` is nowhere. */
  predicate Passes(c: Node, key: string) {
    c.kind != Array || (c.text != key && Find(c, key) == None)
  }

  /** The search moves past children it passes over. */
  lemma {:induction false} FindInPasses(n: Node, i: nat, k: nat, key: string)
    requires i <= k <= |n.children|
    requires forall j :: i <= j < k ==> Passes(n.children[j], key)
    ensures FindIn(n, i, key) == FindIn(n, k, key)
    decreases k - i
  {
    if i < k {
      FindInPasses(n, i + 1, k, key);
    }
  }

  /** A node none of whose children holds `key`, and not labelled `key` itself, does not hold it. */
  lemma FindMisses(n: Node, key: string)
    requires n.text != key
    requires forall j :: 0 <= j < |n.children| ==> Passes(n.children[j], key)
    ensures Find(n, key) == None
  {
    FindInPasses(n, 0, |n.children|, key);
  }

  lemma AuthorityMisses(code: string, key: string)
    requires key != "AUTHORITY"
    ensures Find(Authority(code), key) == None
  {
    FindMisses(Authority(code), key);
  }

  lemma DatumMisses(key: string)
    requires key != "DATUM" && key != "SPHEROID" && key != "TOWGS84" && key != "AUTHORITY"
    ensures Find(Datum, key) == None
  {
    AuthorityMisses("7030", key);
    FindMisses(Spheroid, key);
    FindMisses(Towgs84, key);
    AuthorityMisses("6326", key);
    FindMisses(Datum, key);
  }

  lemma PrimemMisses(key: string)
    requires key != "PRIMEM" && key != "AUTHORITY"
    ensures Find(Primem, key) == None
  {
    AuthorityMisses("8901", key);
    FindMisses(Primem, key);
  }

  /** Within GEOGCS, the search for "UNIT" passes DATUM and PRIMEM and stops at the UNIT that follows. */
  lemma GeogcsFindsUnit(key: string)
    requires key == "UNIT"
    ensures Find(Geogcs, key) == Some([3])
  {
    DatumMisses(key);
    PrimemMisses(key);
    FindInPasses(Geogcs, 0, 3, key);
  }

  /**
    main.cpp's query `find(&root, "UNIT")` returns the angular UNIT nested
    in GEOGCS (path [1,3]), not the linear UNIT["Meter",1] that is a direct
    child of the root (path [8]): both match, and the nested one comes first
    in pre-order.
   */
  lemma MainFindsNestedUnit(key: string)
    requires key == "UNIT"
    ensures Find(MainTree, key) == Some([1, 3])
    ensures At(MainTree, [1, 3]) == Degree
    ensures Match(MainTree, [8], key) && At(MainTree, [8]) == Meter
    ensures PreOrderLe([1, 3], [8])
  {
    GeogcsFindsUnit(key);
    FindInPasses(MainTree, 0, 1, key);
    assert [1] + [3] == [1, 3];
    assert [1, 3][1..] == [3] && [3][1..] == [] && [8][1..] == [];
  }

  lemma GeogcsMisses(key: string)
    requires key != "GEOGCS" && key != "DATUM" && key != "SPHEROID" && key != "TOWGS84"
    requires key != "AUTHORITY" && key != "PRIMEM" && key != "UNIT"
    ensures Find(Geogcs, key) == None
  {
    DatumMisses(key);
    PrimemMisses(key);
    AuthorityMisses("9108", key);
    FindMisses(Degree, key);
    AuthorityMisses("4326", key);
    FindMisses(Geogcs, key);
  }

  /**
    "Meter" is the label of a string, and strings are never searched: the
    query comes back empty although the text occurs in the tree.
   */
  lemma MainMissesStringLabel(key: string)
    requires key == "Meter"
    ensures Find(MainTree, key) == None
    ensures MainTree.children[8].children[0] == Str(key)
  {
    GeogcsMisses(key);
    FindMisses(Projection, key);
    FindMisses(Parameter("latitude_of_origin", Int("0")), key);
    FindMisses(Parameter("central_meridian", Int("-39")), key);
    FindMisses(Parameter("scale_factor", Real("0.9996")), key);
    FindMisses(Parameter("false_easting", Int("500000")), key);
    FindMisses(Parameter("false_northing", Int("10000000")), key);
    FindMisses(Meter, key);
    AuthorityMisses("32724", key);
    FindMisses(MainTree, key);
  }
}
