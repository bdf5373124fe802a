/** What parsing and printing promise about each other. */
module MediaTypeRoundTrips {
  import opened Basics
  import opened Strings
  import opened MediaTypes

  // ---------- Which inputs are accepted ----------

  lemma CutFree(a: string, b: string, rest: string)
    requires rest == a + "+" + b && '/' !in rest
    ensures '/' !in a && '/' !in b
  {
    assert forall i :: 0 <= i < |a| ==> a[i] == rest[i];
    assert forall i :: 0 <= i < |b| ==> b[i] == rest[|a| + 1 + i];
  }

  lemma CutAt(s: string, k: nat)
    requires k < |s|
    ensures s == s[..k] + [s[k]] + s[k + 1..]
  {
  }

  lemma PanicParts(s: string) returns (a: string, b: string, c: string)
    requires ParsePlain(s) == Panics
    ensures s == a + "+" + b + "/" + c && '/' !in a + b + c
  {
    TwoParts(s, '/');
    var front, plus := Split(s, '/')[0], IndexOf(s, '+');
    a, b, c := front[..plus], front[plus + 1..], Split(s, '/')[1];
    assert front[plus] == s[plus];
    CutAt(front, plus);
    CutFree(a, b, front);
  }

  lemma PlusInFront(s: string, a: string)
    requires |a| < |s| && s[|a|] == '+'
    ensures 0 <= IndexOf(s, '+') <= |a|
  {
    assert s[|a|] in s;
    var r := IndexOf(s, '+');
    assert forall j :: 0 <= j < r ==> s[j] in s[..r];
  }

  lemma PanicsOn(a: string, b: string, c: string)
    requires '/' !in a + b + c
    ensures ParsePlain(a + "+" + b + "/" + c) == Panics
  {
    var front := a + "+" + b;
    assert forall x :: x in a + b + c <==> x in a || x in b || x in c;
    assert '/' !in front;
    SplitInTwo(front, '/', c);
    IndexAfter(front, '/', c);
    PlusInFront(front + ['/'] + c, a);
  }

  /**
   Behind the conversions, parsing stops with a run-time error exactly when a plus sign comes before the only
   slash.
   */
  lemma PlainPanicsIff(s: string)
    ensures ParsePlain(s) == Panics <==>
      exists a: string, b: string, c: string :: s == a + "+" + b + "/" + c && '/' !in a + b + c
  {
    if ParsePlain(s) == Panics {
      var a, b, c := PanicParts(s);
    }
    forall a: string, b: string, c: string | s == a + "+" + b + "/" + c && '/' !in a + b + c
      ensures ParsePlain(s) == Panics
    {
      PanicsOn(a, b, c);
    }
  }

  lemma ApplicationNeverPanics(s: string)
    requires Split(s, '/')[0] == "application"
    ensures ParsePlain(s) != Panics
  {
    if |Split(s, '/')| == 2 {
      TwoParts(s, '/');
      assert forall k :: 0 <= k < |"application"| ==> s[k] in "application";
    }
  }

  lemma ConvertOnce(s: string)
    ensures Convert(s, [DefaultMediaTypeConversions]) ==
      match DefaultMediaTypeConversions(s) {
        case Failed => None
        case Unchanged => Some(s)
        case Converted(t) => Some(t)
      }
  {
    var all := [DefaultMediaTypeConversions];
    assert all[0] == DefaultMediaTypeConversions && all[1..] == [];
  }

  lemma FirstPart(s: string, a: string, sep: char)
    requires sep !in a && |a| < |s| && s[..|a| + 1] == a + [sep]
    ensures Split(s, sep)[0] == a
  {
    IndexAfter(a, sep, s[|a| + 1..]);
    assert s == a + [sep] + s[|a| + 1..];
  }

  lemma LegacyResults(s: string)
    requires DefaultMediaTypeConversions(s).Converted?
    ensures |DefaultMediaTypeConversions(s).result| >= 12
    ensures DefaultMediaTypeConversions(s).result[..12] == "application" + ['/']
  {
    var t := DefaultMediaTypeConversions(s).result;
    assert LANDSCAPER_TYPES[..12] == "application" + ['/'];
    assert t[..12] == LANDSCAPER_TYPES[..12];
  }

  /** What comes out of the default conversions starts with `application/`. */
  lemma ConvertedIsApplication(s: string)
    requires DefaultMediaTypeConversions(s).Converted?
    ensures Split(DefaultMediaTypeConversions(s).result, '/')[0] == "application"
  {
    LegacyResults(s);
    FirstPart(DefaultMediaTypeConversions(s).result, "application", '/');
  }

  lemma LegacyStart()
    ensures |BLUEPRINT_V0| > 12 && BLUEPRINT_V0[..12] == "application" + ['/']
    ensures |JSON_SCHEMA_V0| > 12 && JSON_SCHEMA_V0[..12] == "application" + ['/']
  {
    assert LANDSCAPER_TYPES[..12] == "application" + ['/'];
  }

  /** The default conversion neither causes nor prevents the run-time error. */
  lemma ConversionKeepsPanics(s: string)
    ensures ParseResult(s, []) == Panics <==> ParsePlain(s) == Panics
  {
    assert [] + [DefaultMediaTypeConversions] == [DefaultMediaTypeConversions];
    ConvertOnce(s);
    if DefaultMediaTypeConversions(s).Converted? {
      ConvertedIsApplication(s);
      ApplicationNeverPanics(DefaultMediaTypeConversions(s).result);
      LegacyStart();
      FirstPart(s, "application", '/');
      ApplicationNeverPanics(s);
    }
  }

  /** Parsing stops with a run-time error exactly when a plus sign comes before the only slash. */
  lemma PanicsIff(s: string)
    ensures ParseResult(s, []) == Panics <==>
      exists a: string, b: string, c: string :: s == a + "+" + b + "/" + c && '/' !in a + b + c
  {
    ConversionKeepsPanics(s);
    PlainPanicsIff(s);
  }

  // ---------- Parse, then print ----------

  lemma ClassifyKeeps(mt: MediaType, tree: string)
    ensures var r := Classify(mt, tree);
      r.orig == mt.orig && r.typ == mt.typ && r.suffix == mt.suffix && r.compressionFormat == mt.compressionFormat
  {
  }

  lemma UnsuffixedParts(s: string)
    ensures var mt := Unsuffixed(s);
      && mt.orig == s && mt.compressionFormat == None
      && mt.ToString() == s
      && (mt.suffix.None? <==> '+' !in s)
      && (mt.suffix.None? ==> mt.typ == s)
  {
    var plus := IndexOf(s, '+');
    if 0 <= plus {
      assert s == s[..plus] + "+" + s[plus + 1..];
    }
  }

  /**
   Printing an accepted media type gives it back exactly when its type part is `application` or it has no plus
   sign.
   */
  lemma PrintOfParse(s: string)
    requires ParsePlain(s).Parsed?
    ensures var mt := ParsePlain(s).mediaType;
      && mt.orig == s && mt.compressionFormat == None
      && (mt.ToString() == s <==> Split(s, '/')[0] == "application" || '+' !in s)
  {
    UnsuffixedParts(s);
    if Split(s, '/')[0] == "application" {
      ClassifyKeeps(Unsuffixed(s), Subtype(s));
    }
  }

  lemma BlueprintTypeLiteral()
    ensures BLUEPRINT_V0 == "application/vnd.gardener.landscaper.blueprint.v1+tar+gzip"
  {
  }

  lemma SchemaTypeLiteral()
    ensures JSON_SCHEMA_V0 == "application/vnd.gardener.landscaper.jsonscheme.v1+json"
  {
  }

  lemma BlueprintLayerLiteral()
    ensures BLUEPRINT_LAYER_V1 + "+" + GZIP == "application/vnd.gardener.landscaper.blueprint.layer.v1.tar+gzip"
  {
    assert "blueprint.layer.v1.tar" + "+" + GZIP == "blueprint.layer.v1.tar+gzip";
    Associative(LANDSCAPER_TYPES, "blueprint.layer.v1.tar", "+" + GZIP);
  }

  lemma SchemaLayerLiteral()
    ensures JSON_SCHEMA_V1 == "application/vnd.gardener.landscaper.jsonschema.layer.v1.json"
  {
  }

  /** What the legacy types become, and that nothing else is converted. */
  lemma LegacyConversions(s: string)
    ensures DefaultMediaTypeConversions("application/vnd.gardener.landscaper.blueprint.v1+tar+gzip") ==
      Converted("application/vnd.gardener.landscaper.blueprint.layer.v1.tar+gzip")
    ensures DefaultMediaTypeConversions("application/vnd.gardener.landscaper.jsonscheme.v1+json") ==
      Converted("application/vnd.gardener.landscaper.jsonschema.layer.v1.json")
    ensures DefaultMediaTypeConversions(s) == Unchanged <==>
      && s != "application/vnd.gardener.landscaper.blueprint.v1+tar+gzip"
      && s != "application/vnd.gardener.landscaper.jsonscheme.v1+json"
  {
    BlueprintTypeLiteral();
    SchemaTypeLiteral();
    BlueprintLayerLiteral();
    SchemaLayerLiteral();
    assert |BLUEPRINT_V0| == 57 && |JSON_SCHEMA_V0| == 54;
  }

  /** The result of the default conversion needs no further one. */
  lemma DefaultConversionOnce(s: string)
    ensures var c := Convert(s, [DefaultMediaTypeConversions]);
      c.Some? && DefaultMediaTypeConversions(c.value) == Unchanged
  {
    ConvertOnce(s);
    assert |BLUEPRINT_LAYER_V1 + "+" + GZIP| == 63;
    assert |BLUEPRINT_V0| == 57 && |JSON_SCHEMA_V0| == 54 && |JSON_SCHEMA_V1| == 60;
  }

  lemma NoConversion(s: string)
    requires DefaultMediaTypeConversions(s) == Unchanged
    ensures ParseResult(s, []) == ParsePlain(s)
  {
    assert [] + [DefaultMediaTypeConversions] == [DefaultMediaTypeConversions];
    ConvertOnce(s);
  }

  /** If a text is taken for the type `c`, which is no application type, the text is `c`. */
  lemma PrintedTwice(t: string, c: string)
    ensures var r := ParseResult(t, []);
      r.Parsed? && r.mediaType.orig == c && Split(c, '/')[0] != "application" ==> t == c
  {
    var r := ParseResult(t, []);
    if r.Parsed? && r.mediaType.orig == c && Split(c, '/')[0] != "application" {
      assert [] + [DefaultMediaTypeConversions] == [DefaultMediaTypeConversions];
      var converted := Convert(t, [DefaultMediaTypeConversions]).value;
      ConvertOnce(t);
      PrintOfParse(converted);
      if DefaultMediaTypeConversions(t).Converted? {
        ConvertedIsApplication(t);
      }
    }
  }

  /**
   An accepted media type, legacy or not, prints as its converted form, and parsing the print gives the same
   record, exactly when the converted form is an application type or has no plus sign.
   */
  lemma ParsePrintParseIff(s: string)
    requires ParseResult(s, []).Parsed?
    ensures Convert(s, [DefaultMediaTypeConversions]).Some?
    ensures var mt, c := ParseResult(s, []).mediaType, Convert(s, [DefaultMediaTypeConversions]).value;
      var faithful := Split(c, '/')[0] == "application" || '+' !in c;
      && mt.orig == c
      && (mt.ToString() == c <==> faithful)
      && (ParseResult(mt.ToString(), []) == ParseResult(s, []) <==> faithful)
  {
    assert [] + [DefaultMediaTypeConversions] == [DefaultMediaTypeConversions];
    var mt, c := ParseResult(s, []).mediaType, Convert(s, [DefaultMediaTypeConversions]).value;
    PrintOfParse(c);
    DefaultConversionOnce(s);
    NoConversion(c);
    if Split(c, '/')[0] != "application" && ParseResult(mt.ToString(), []) == ParseResult(s, []) {
      PrintedTwice(mt.ToString(), c);
    }
  }

  /** Outside `application` no default conversion fires. */
  lemma ForeignIsNotLegacy(t: string, rest: string)
    requires t != "application" && '/' !in t
    ensures DefaultMediaTypeConversions(t + ['/'] + rest) == Unchanged
  {
    var s := t + ['/'] + rest;
    IndexAfter(t, '/', rest);
    assert Split(s, '/')[0] == t;
    LegacyStart();
    FirstPart(BLUEPRINT_V0, "application", '/');
    FirstPart(JSON_SCHEMA_V0, "application", '/');
  }

  function Suffixed(t: string, suffix: Option<string>): string {
    if suffix.None? then t else t + "+" + suffix.value
  }

  lemma SpelledPlus(t: string, suffix: Option<string>)
    requires '+' !in t
    ensures var s := Suffixed(t, suffix);
      Unsuffixed(s) == NewType(t).(orig := s, suffix := suffix) && IndexOf(s, '+') == if suffix.None? then -1 else |t|
  {
    if suffix.Some? {
      var s := Suffixed(t, suffix);
      assert s == t + ['+'] + suffix.value;
      IndexAfter(t, '+', suffix.value);
      assert s[..|t|] == t && s[|t| + 1..] == suffix.value;
    }
  }

  /**
   The failing side, all of it that has one suffix: outside `application` the suffix stays part of the type,
   and the print has it twice.
   */
  lemma ForeignSuffixPrintedTwice(t: string, subtype: string, suffix: string)
    requires t != "application" && '/' !in t && '/' !in subtype && '/' !in suffix && '+' !in t && '+' !in subtype
    ensures var s := t + ['/'] + subtype + ['+'] + suffix; var r := ParseResult(s, []);
      r.Parsed? && r.mediaType.ToString() == s + "+" + suffix && ParseResult(s + "+" + suffix, []) != r
  {
    var front := t + ['/'] + subtype;
    var rest := subtype + ['+'] + suffix;
    var s := front + ['+'] + suffix;
    assert s == t + ['/'] + rest;
    SplitInTwo(t, '/', rest);
    IndexAfter(t, '/', rest);
    assert s == Suffixed(front, Some(suffix));
    SpelledPlus(front, Some(suffix));
    ForeignIsNotLegacy(t, rest);
    NoConversion(s);
    ConvertOnce(s);
    ParsePrintParseIff(s);
  }

  /** For example: */
  lemma LinkedDataPrintedTwice()
    ensures var r := ParseResult("text/ld+json", []);
      r.Parsed? && r.mediaType.ToString() == "text/ld+json+json" && ParseResult("text/ld+json+json", []) != r
  {
    assert "text" + ['/'] + "ld" + ['+'] + "json" == "text/ld+json";
    assert "text/ld+json" + "+" + "json" == "text/ld+json+json";
    ForeignSuffixPrintedTwice("text", "ld", "json");
  }

  // ---------- Print, then parse ----------

  /** A part of the grammar: no dot, no slash, no plus sign. */
  predicate Segment(s: string) {
    '.' !in s && '/' !in s && '+' !in s
  }

  predicate Segments(parts: seq<string>) {
    forall i :: 0 <= i < |parts| ==> Segment(parts[i])
  }

  /** `application/` and the dotted parts, followed by the suffix if there is one. */
  function Spell(parts: seq<string>, suffix: Option<string>): string {
    Suffixed("application/" + Join(parts, '.'), suffix)
  }

  lemma SpelledSlash(tree: string, suffix: Option<string>)
    requires '/' !in tree && (suffix.Some? ==> '/' !in suffix.value)
    ensures var s := Suffixed("application/" + tree, suffix);
      Split(s, '/') == ["application", Suffixed(tree, suffix)] && IndexOf(s, '/') == 11
  {
    var s, subtype := Suffixed("application/" + tree, suffix), Suffixed(tree, suffix);
    assert s == "application" + ['/'] + subtype;
    assert '/' !in subtype;
    SplitInTwo("application", '/', subtype);
    IndexAfter("application", '/', subtype);
  }

  lemma SpelledSubtype(tree: string, suffix: Option<string>)
    requires '/' !in tree && '+' !in tree && (suffix.Some? ==> '/' !in suffix.value)
    ensures var s := Suffixed("application/" + tree, suffix);
      !(0 <= IndexOf(s, '+') < IndexOf(s, '/')) && Subtype(s) == tree
  {
    var t := "application/" + tree;
    SpelledSlash(tree, suffix);
    SpelledPlus(t, suffix);
    assert Suffixed(t, suffix)[..|t|] == t && t[12..] == tree;
  }

  /** How a spelled type is taken apart. */
  lemma ParseSpelled(parts: seq<string>, suffix: Option<string>)
    requires parts != [] && Segments(parts) && (suffix.Some? ==> '/' !in suffix.value)
    ensures var s, t := Spell(parts, suffix), "application/" + Join(parts, '.');
      ParsePlain(s) == Parsed(Classify(NewType(t).(orig := s, suffix := suffix), Join(parts, '.')))
  {
    var tree := Join(parts, '.');
    var t, s := "application/" + tree, Spell(parts, suffix);
    JoinFree(parts, '.', '/');
    JoinFree(parts, '.', '+');
    SpelledSlash(tree, suffix);
    SpelledPlus(t, suffix);
    SpelledSubtype(tree, suffix);
  }

  lemma LayerClassified(prefix: seq<string>, version: string, file: string, mt: MediaType)
    requires prefix != [] && Segments(prefix) && Segment(version) && Segment(file)
    ensures Classify(mt, Join(prefix + ["layer", version, file], '.')) ==
      if version == "config" then mt.(format := OCIConfigFormat, fileFormat := mt.suffix, version := Some(file))
      else mt.(format := OCILayerFormat, fileFormat := Some(file), version := Some(version))
  {
    var parts := prefix + ["layer", version, file];
    SplitOfJoin(parts, '.');
  }

  lemma ConfigClassified(prefix: seq<string>, version: string, mt: MediaType)
    requires prefix != [] && Segments(prefix) && Segment(version)
    ensures Classify(mt, Join(prefix + ["config", version], '.')) ==
      mt.(format := OCIConfigFormat, fileFormat := mt.suffix, version := Some(version))
  {
    var parts := prefix + ["config", version];
    SplitOfJoin(parts, '.');
  }

  // The legacy types, spelled out in parts.

  function LegacyParts(kind: string): seq<string> {
    ["vnd", "gardener", "landscaper", kind, "v1"]
  }

  lemma LegacySegments(kind: string)
    requires Segment(kind)
    ensures Segments(LegacyParts(kind))
  {
  }

  lemma LandscaperLiteral()
    ensures "landscaper" + ['.'] == "landscaper." && "gardener" + ['.'] == "gardener." && "vnd" + ['.'] == "vnd."
    ensures "gardener." + "landscaper." == "gardener.landscaper."
    ensures "vnd." + "gardener.landscaper." == "vnd.gardener.landscaper."
  {
  }

  lemma LandscaperTree(x: string)
    ensures "vnd" + ['.'] + ("gardener" + ['.'] + ("landscaper" + ['.'] + x)) == "vnd.gardener.landscaper." + x
  {
    LandscaperLiteral();
    Associative("landscaper", ['.'], x);
    Associative("gardener", ['.'], "landscaper." + x);
    Associative("vnd", ['.'], "gardener.landscaper." + x);
    Associative("gardener.", "landscaper.", x);
    Associative("vnd.", "gardener.landscaper.", x);
  }

  /** Joining parts behind those of the landscaper. */
  lemma JoinBehindLandscaper(rest: seq<string>)
    requires rest != []
    ensures Join(["vnd", "gardener", "landscaper"] + rest, '.') == "vnd.gardener.landscaper." + Join(rest, '.')
  {
    JoinCons("landscaper", rest, '.');
    JoinCons("gardener", ["landscaper"] + rest, '.');
    JoinCons("vnd", ["gardener"] + (["landscaper"] + rest), '.');
    assert ["vnd", "gardener", "landscaper"] + rest == ["vnd"] + (["gardener"] + (["landscaper"] + rest));
    LandscaperTree(Join(rest, '.'));
  }

  lemma TypesLiteral()
    ensures "application/" + "vnd.gardener.landscaper." == LANDSCAPER_TYPES
  {
  }

  lemma SpellLandscaper(rest: seq<string>, suffix: Option<string>)
    requires rest != []
    ensures Spell(["vnd", "gardener", "landscaper"] + rest, suffix) ==
      LANDSCAPER_TYPES + Suffixed(Join(rest, '.'), suffix)
  {
    JoinBehindLandscaper(rest);
    TypesLiteral();
    Associative("application/", "vnd.gardener.landscaper.", Join(rest, '.'));
    if suffix.Some? {
      Associative(LANDSCAPER_TYPES, Join(rest, '.'), "+");
      Associative(LANDSCAPER_TYPES, Join(rest, '.') + "+", suffix.value);
    }
  }

  lemma SpellLegacy(kind: string, suffix: string)
    ensures Spell(LegacyParts(kind), Some(suffix)) == LANDSCAPER_TYPES + (kind + ".v1" + "+" + suffix)
  {
    JoinCons(kind, ["v1"], '.');
    assert [kind] + ["v1"] == [kind, "v1"];
    assert kind + ['.'] + "v1" == kind + ".v1";
    assert LegacyParts(kind) == ["vnd", "gardener", "landscaper"] + [kind, "v1"];
    SpellLandscaper([kind, "v1"], Some(suffix));
  }

  lemma BlueprintLiteral()
    ensures "blueprint" + ".v1" + "+" + "tar+gzip" == "blueprint.v1+tar+gzip"
  {
  }

  lemma SchemaLiteral()
    ensures "jsonscheme" + ".v1" + "+" + "json" == "jsonscheme.v1+json"
  {
  }

  /** A spelling determines its parts. */
  lemma SameParts(parts: seq<string>, suffix: Option<string>, parts': seq<string>, suffix': Option<string>)
    requires parts != [] && Segments(parts) && parts' != [] && Segments(parts')
    requires Spell(parts, suffix) == Spell(parts', suffix')
    ensures parts == parts'
  {
    var t, t' := "application/" + Join(parts, '.'), "application/" + Join(parts', '.');
    JoinFree(parts, '.', '+');
    JoinFree(parts', '.', '+');
    SpelledPlus(t, suffix);
    SpelledPlus(t', suffix');
    assert t == t';
    assert t[12..] == Join(parts, '.') && t'[12..] == Join(parts', '.');
    SplitOfJoin(parts, '.');
    SplitOfJoin(parts', '.');
  }

  lemma ShapeIsNot(parts: seq<string>, suffix: Option<string>, kind: string, suffix': Option<string>)
    requires |parts| >= 3 && Segments(parts)
    requires parts[|parts| - 2] == "config" || parts[|parts| - 3] == "layer"
    requires Segment(kind) && kind != "config"
    ensures Spell(parts, suffix) != Spell(LegacyParts(kind), suffix')
  {
    LegacySegments(kind);
    assert LegacyParts(kind)[2] != "layer";
    if Spell(parts, suffix) == Spell(LegacyParts(kind), suffix') {
      SameParts(parts, suffix, LegacyParts(kind), suffix');
    }
  }

  lemma ShapeIsNotBlueprint(parts: seq<string>, suffix: Option<string>)
    requires |parts| >= 3 && Segments(parts)
    requires parts[|parts| - 2] == "config" || parts[|parts| - 3] == "layer"
    ensures Spell(parts, suffix) != BLUEPRINT_V0
  {
    ShapeIsNot(parts, suffix, "blueprint", Some("tar+gzip"));
    SpellLegacy("blueprint", "tar+gzip");
    BlueprintLiteral();
  }

  lemma ShapeIsNotSchema(parts: seq<string>, suffix: Option<string>)
    requires |parts| >= 3 && Segments(parts)
    requires parts[|parts| - 2] == "config" || parts[|parts| - 3] == "layer"
    ensures Spell(parts, suffix) != JSON_SCHEMA_V0
  {
    ShapeIsNot(parts, suffix, "jsonscheme", Some("json"));
    SpellLegacy("jsonscheme", "json");
    SchemaLiteral();
  }

  /** Neither legacy type has the layer or config shape. */
  lemma ShapeIsNotLegacy(parts: seq<string>, suffix: Option<string>)
    requires |parts| >= 3 && Segments(parts)
    requires parts[|parts| - 2] == "config" || parts[|parts| - 3] == "layer"
    ensures DefaultMediaTypeConversions(Spell(parts, suffix)) == Unchanged
  {
    ShapeIsNotBlueprint(parts, suffix);
    ShapeIsNotSchema(parts, suffix);
  }

  /** A layer type written after the grammar parses into exactly its parts, unless its version is spelled `config`. */
  lemma LayerGrammar(prefix: seq<string>, version: string, file: string, comp: Option<string>)
    requires prefix != [] && Segments(prefix) && Segment(version) && Segment(file)
    requires comp.Some? ==> '/' !in comp.value
    ensures var parts := prefix + ["layer", version, file];
      var s, t := Spell(parts, comp), "application/" + Join(parts, '.');
      ParseResult(s, []) == Parsed(
        if version == "config" then MediaType(s, OCIConfigFormat, t, comp, Some(file), comp, None)
        else MediaType(s, OCILayerFormat, t, comp, Some(version), Some(file), None))
  {
    var parts := prefix + ["layer", version, file];
    var t := "application/" + Join(parts, '.');
    ParseSpelled(parts, comp);
    LayerClassified(prefix, version, file, NewType(t).(orig := Spell(parts, comp), suffix := comp));
    ShapeIsNotLegacy(parts, comp);
    NoConversion(Spell(parts, comp));
  }

  /** A config type written after the grammar parses into exactly its parts. */
  lemma ConfigGrammar(prefix: seq<string>, version: string, file: Option<string>)
    requires prefix != [] && Segments(prefix) && Segment(version)
    requires file.Some? ==> '/' !in file.value
    ensures var parts := prefix + ["config", version];
      var s, t := Spell(parts, file), "application/" + Join(parts, '.');
      ParseResult(s, []) == Parsed(MediaType(s, OCIConfigFormat, t, file, Some(version), file, None))
  {
    var parts := prefix + ["config", version];
    var t := "application/" + Join(parts, '.');
    ParseSpelled(parts, file);
    ConfigClassified(prefix, version, NewType(t).(orig := Spell(parts, file), suffix := file));
    ShapeIsNotLegacy(parts, file);
    NoConversion(Spell(parts, file));
  }

  // ---------- Recognition ----------

  predicate LayerParts(prefix: seq<string>, version: string, file: string, comp: Option<string>) {
    prefix != [] && Segments(prefix) && Segment(version) && Segment(file) && (comp.Some? ==> '/' !in comp.value)
  }

  predicate ConfigParts(prefix: seq<string>, version: string, file: Option<string>) {
    prefix != [] && Segments(prefix) && Segment(version) && (file.Some? ==> '/' !in file.value)
  }

  lemma CutBehind(s: string, h: nat, k: nat)
    requires h <= k < |s|
    ensures s[h..] == s[h..k] + [s[k]] + s[k + 1..]
    ensures s == s[..h] + s[h..k] + [s[k]] + s[k + 1..]
  {
  }

  lemma FirstBehind(s: string, head: string, c: char, k: nat)
    requires c !in head && |head| <= |s| && s[..|head|] == head
    requires k < |s| && s[k] == c && c !in s[..k]
    ensures |head| <= k && c !in s[|head|..k]
  {
    assert forall i :: 0 <= i < |head| ==> s[i] == head[i] && head[i] in head;
    assert forall i :: 0 <= i < k ==> s[i] in s[..k];
  }

  lemma CutSuffix(s: string, head: string, rest: string, c: char)
    requires c !in head && s == head + rest
    ensures var k := IndexOf(s, c);
      0 <= k ==>
        && |head| <= k && c !in s[|head|..k] && rest == s[|head|..k] + [c] + s[k + 1..]
        && s == head + s[|head|..k] + [c] + s[k + 1..]
  {
    var k := IndexOf(s, c);
    assert s[..|head|] == head && s[|head|..] == rest;
    if 0 <= k {
      FirstBehind(s, head, c, k);
      CutBehind(s, |head|, k);
    }
  }

  /** An application type is its subtype behind `application/`, and its suffix. */
  lemma SpelledBySubtype(s: string)
    requires ParsePlain(s).Parsed? && Split(s, '/')[0] == "application"
    ensures s == Suffixed("application/" + Subtype(s), Unsuffixed(s).suffix)
    ensures '/' !in Subtype(s) && '+' !in Subtype(s)
    ensures Unsuffixed(s).suffix.Some? ==> '/' !in Unsuffixed(s).suffix.value
  {
    TwoParts(s, '/');
    var head, rest := "application/", Split(s, '/')[1];
    assert "application" + ['/'] == head;
    CutSuffix(s, head, rest, '+');
    if 0 <= IndexOf(s, '+') {
      assert Subtype(s) == s[|head|..IndexOf(s, '+')];
      CutFree(Subtype(s), Unsuffixed(s).suffix.value, rest);
    } else {
      assert Subtype(s) == s[|head|..] == rest;
    }
  }

  lemma {:induction false} PartsFree(s: string, sep: char, c: char)
    requires c !in s
    ensures Free(Split(s, sep), c)
    decreases |s|
  {
    var i := IndexOf(s, sep);
    if 0 <= i {
      PartsFree(s[i + 1..], sep, c);
    }
  }

  /** Hence it is a spelling of the dot-separated parts of the subtype. */
  lemma SpelledBySplit(s: string) returns (parts: seq<string>, suffix: Option<string>)
    requires ParsePlain(s).Parsed? && Split(s, '/')[0] == "application"
    ensures parts == Split(Subtype(s), '.') && Segments(parts) && (suffix.Some? ==> '/' !in suffix.value)
    ensures s == Spell(parts, suffix)
  {
    SpelledBySubtype(s);
    parts, suffix := Split(Subtype(s), '.'), Unsuffixed(s).suffix;
    JoinOfSplit(Subtype(s), '.');
    PartsFree(Subtype(s), '.', '/');
    PartsFree(Subtype(s), '.', '+');
  }

  lemma ParsedByShape(s: string)
    requires ParsePlain(s).Parsed?
    ensures ParsePlain(s).mediaType.format != DefaultFormat ==>
      Split(s, '/')[0] == "application" && ParsePlain(s).mediaType == Classify(Unsuffixed(s), Subtype(s))
  {
  }

  lemma ClassifiedShape(mt: MediaType, tree: string)
    requires mt.format == DefaultFormat && Classify(mt, tree).format != DefaultFormat
    ensures var p := Split(tree, '.');
      if Classify(mt, tree).format == OCIConfigFormat then |p| > 2 && p[|p| - 2] == "config"
      else |p| > 3 && p[|p| - 3] == "layer" && p[|p| - 2] != "config"
  {
  }

  /** Which shape the reported format stands for. */
  lemma FormatShape(s: string)
    requires ParsePlain(s).Parsed?
    ensures ParsePlain(s).mediaType.format != DefaultFormat ==>
      var p := Split(Subtype(s), '.');
      && Split(s, '/')[0] == "application"
      && if ParsePlain(s).mediaType.format == OCIConfigFormat then |p| > 2 && p[|p| - 2] == "config"
         else |p| > 3 && p[|p| - 3] == "layer" && p[|p| - 2] != "config"
  {
    ParsedByShape(s);
    if ParsePlain(s).mediaType.format != DefaultFormat {
      ClassifiedShape(Unsuffixed(s), Subtype(s));
    }
  }

  lemma LastParts(parts: seq<string>, k: nat)
    requires Segments(parts) && k < |parts|
    ensures Segments(parts[..k]) && Segments(parts[k..]) && parts == parts[..k] + parts[k..]
  {
  }

  lemma LayerSplit(parts: seq<string>) returns (prefix: seq<string>, version: string, file: string)
    requires Segments(parts) && |parts| > 3 && parts[|parts| - 3] == "layer"
    ensures prefix != [] && Segments(prefix) && Segment(version) && Segment(file)
    ensures version == parts[|parts| - 2] && parts == prefix + ["layer", version, file]
  {
    var n := |parts|;
    prefix, version, file := parts[..n - 3], parts[n - 2], parts[n - 1];
    LastParts(parts, n - 3);
    assert parts[n - 3..] == [parts[n - 3], version, file];
  }

  lemma LayerSpelled(prefix: seq<string>, version: string, file: string, comp: Option<string>)
    requires LayerParts(prefix, version, file, comp) && version != "config"
    ensures var r := ParsePlain(Spell(prefix + ["layer", version, file], comp));
      r.Parsed? && r.mediaType.format == OCILayerFormat
  {
    var parts := prefix + ["layer", version, file];
    ParseSpelled(parts, comp);
    LayerClassified(prefix, version, file,
                    NewType("application/" + Join(parts, '.')).(orig := Spell(parts, comp), suffix := comp));
  }

  ghost predicate IsLayerType(s: string) {
    exists prefix, version, file, comp ::
      LayerParts(prefix, version, file, comp) && version != "config"
        && s == Spell(prefix + ["layer", version, file], comp)
  }

  /** The parser reports a layer exactly for the layer grammar with a version other than `config`. */
  lemma LayerRecognizedIff(s: string)
    requires ParsePlain(s).Parsed?
    ensures ParsePlain(s).mediaType.format == OCILayerFormat <==> IsLayerType(s)
  {
    if ParsePlain(s).mediaType.format == OCILayerFormat {
      FormatShape(s);
      var parts, comp := SpelledBySplit(s);
      var prefix, version, file := LayerSplit(parts);
      assert s == Spell(prefix + ["layer", version, file], comp);
    }
    if IsLayerType(s) {
      var prefix, version, file, comp :|
        LayerParts(prefix, version, file, comp) && version != "config"
        && s == Spell(prefix + ["layer", version, file], comp);
      LayerSpelled(prefix, version, file, comp);
    }
  }

  lemma ConfigSplit(parts: seq<string>) returns (prefix: seq<string>, version: string)
    requires Segments(parts) && |parts| > 2 && parts[|parts| - 2] == "config"
    ensures prefix != [] && Segments(prefix) && Segment(version) && parts == prefix + ["config", version]
  {
    var n := |parts|;
    prefix, version := parts[..n - 2], parts[n - 1];
    LastParts(parts, n - 2);
    assert parts[n - 2..] == [parts[n - 2], version];
  }

  lemma ConfigSpelled(prefix: seq<string>, version: string, file: Option<string>)
    requires ConfigParts(prefix, version, file)
    ensures var r := ParsePlain(Spell(prefix + ["config", version], file));
      r.Parsed? && r.mediaType.format == OCIConfigFormat
  {
    var parts := prefix + ["config", version];
    ParseSpelled(parts, file);
    ConfigClassified(prefix, version,
                     NewType("application/" + Join(parts, '.')).(orig := Spell(parts, file), suffix := file));
  }

  ghost predicate IsConfigType(s: string) {
    exists prefix, version, file :: ConfigParts(prefix, version, file) && s == Spell(prefix + ["config", version], file)
  }

  /** The parser reports a config exactly for the config grammar. */
  lemma ConfigRecognizedIff(s: string)
    requires ParsePlain(s).Parsed?
    ensures ParsePlain(s).mediaType.format == OCIConfigFormat <==> IsConfigType(s)
  {
    if ParsePlain(s).mediaType.format == OCIConfigFormat {
      FormatShape(s);
      var parts, file := SpelledBySplit(s);
      var prefix, version := ConfigSplit(parts);
      assert s == Spell(prefix + ["config", version], file);
    }
    if IsConfigType(s) {
      var prefix, version, file :| ConfigParts(prefix, version, file) && s == Spell(prefix + ["config", version], file);
      ConfigSpelled(prefix, version, file);
    }
  }

  // ---------- Build, print, then parse ----------

  /**
   The question for any compression asks an accepted type, whatever it was converted from, for an empty suffix:
   parsing never finds a compression.
   */
  lemma AnyCompressionIff(s: string, conversions: seq<string -> Conversion>)
    requires ParseResult(s, conversions).Parsed?
    ensures var mt := ParseResult(s, conversions).mediaType;
      mt.compressionFormat == None && (mt.IsCompressed("") <==> mt.suffix == Some(""))
  {
    PrintOfParse(Convert(s, conversions + [DefaultMediaTypeConversions]).value);
  }

  /** A layer type as it is built, with a compression or without. */
  function BuildLayer(t: string, comp: Option<string>): MediaType {
    var layer := NewType(t).(format := OCILayerFormat);
    if comp.Some? then layer.WithCompression(comp.value) else layer
  }

  /**
   Parsing what a layer builder prints finds version and file format, and keeps the compression as suffix only:
   the question for the compression by name is answered alike, the question for any compression is not.
   */
  lemma BuiltLayer(prefix: seq<string>, version: string, file: string, comp: Option<string>)
    requires LayerParts(prefix, version, file, comp) && version != "config"
    ensures var built := BuildLayer("application/" + Join(prefix + ["layer", version, file], '.'), comp);
      var parsed := built.(orig := built.ToString(), version := Some(version), fileFormat := Some(file),
                           compressionFormat := None);
      && ParseResult(built.ToString(), []) == Parsed(parsed)
      && parsed.ToString() == built.ToString()
      && (forall c :: parsed.HasFileFormat(c) <==> c == "" || c == file)
      && (parsed.HasSuffix("") <==> comp.Some?) && (forall c :: c != "" ==> (parsed.HasSuffix(c) <==> comp == Some(c)))
      && (forall c :: c != "" ==> (built.IsCompressed(c) <==> parsed.IsCompressed(c)))
      && (built.IsCompressed("") <==> comp.Some?) && (parsed.IsCompressed("") <==> comp == Some(""))
  {
    LayerGrammar(prefix, version, file, comp);
  }

  /** Parsing what a config builder prints adds the version to what was built. */
  lemma BuiltConfig(prefix: seq<string>, version: string, file: string)
    requires ConfigParts(prefix, version, Some(file))
    ensures var built := NewType("application/" + Join(prefix + ["config", version], '.'))
        .(format := OCIConfigFormat).WithFileFormat(file);
      ParseResult(built.ToString(), []) == Parsed(built.(orig := built.ToString(), version := Some(version)))
  {
    ConfigGrammar(prefix, version, Some(file));
  }
}
