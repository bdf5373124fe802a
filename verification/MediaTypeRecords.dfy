/** Which record parsing yields: for every accepted text, and conversion by conversion. */
module MediaTypeRecords {
  import opened Basics
  import opened Strings
  import opened MediaTypes
  import opened MediaTypeRoundTrips

  // ---------- Conversions ----------

  /**
   The given conversions take their turn from first to last, before the default one; the first that fails ends
   parsing.
   */
  lemma ConversionStep(s: string, first: string -> Conversion, rest: seq<string -> Conversion>)
    ensures ParseResult(s, [first] + rest) ==
      match first(s) {
        case Failed => ConversionError
        case Unchanged => ParseResult(s, rest)
        case Converted(t) => ParseResult(t, rest)
      }
  {
    var all := [first] + rest + [DefaultMediaTypeConversions];
    assert all[0] == first && all[1..] == rest + [DefaultMediaTypeConversions];
  }

  // ---------- Legacy types ----------

  /** The layer types of the landscaper. */
  function LayerParts(kind: string, file: string): seq<string> {
    ["vnd", "gardener", "landscaper", kind, "layer", "v1", file]
  }

  lemma LandscaperPrefix(kind: string)
    requires Segment(kind)
    ensures Segments(["vnd", "gardener", "landscaper", kind]) && Segment("v1") && "v1" != "config"
  {
  }

  lemma LayerSegments(kind: string, file: string)
    requires Segment(kind) && Segment(file)
    ensures Segments(LayerParts(kind, file))
  {
    LandscaperPrefix(kind);
    assert Segment("layer");
  }

  lemma LandscaperLayer(kind: string, file: string, comp: Option<string>)
    requires Segment(kind) && Segment(file) && (comp.Some? ==> '/' !in comp.value)
    ensures var s, t := Spell(LayerParts(kind, file), comp), Spell(LayerParts(kind, file), None);
      && ParsePlain(s) == Parsed(MediaType(s, OCILayerFormat, t, comp, Some("v1"), Some(file), None))
      && DefaultMediaTypeConversions(s) == Unchanged
  {
    var prefix, parts := ["vnd", "gardener", "landscaper", kind], LayerParts(kind, file);
    assert parts == prefix + ["layer", "v1", file];
    LandscaperPrefix(kind);
    LayerGrammar(prefix, "v1", file, comp);
    LayerSegments(kind, file);
    ShapeIsNotLegacy(parts, comp);
    NoConversion(Spell(parts, comp));
  }

  lemma JoinLayer(kind: string, file: string)
    ensures Join([kind, "layer", "v1", file], '.') == kind + (['.'] + ("layer" + ['.'] + ("v1" + ['.'] + file)))
  {
    JoinCons("v1", [file], '.');
    JoinCons("layer", ["v1"] + [file], '.');
    JoinCons(kind, ["layer"] + (["v1"] + [file]), '.');
    assert [kind, "layer", "v1", file] == [kind] + (["layer"] + (["v1"] + [file]));
    Associative(kind, ['.'], "layer" + ['.'] + ("v1" + ['.'] + file));
  }

  lemma BlueprintTail()
    ensures "blueprint" + (['.'] + ("layer" + ['.'] + ("v1" + ['.'] + "tar"))) == "blueprint.layer.v1.tar"
  {
    assert "layer" + ['.'] + ("v1" + ['.'] + "tar") == "layer.v1.tar";
  }

  lemma BlueprintEnds()
    ensures LANDSCAPER_TYPES + "blueprint.layer.v1.tar" == "application/vnd.gardener.landscaper.blueprint.layer.v1.tar"
    ensures LANDSCAPER_TYPES + ("blueprint.layer.v1.tar" + "+" + "gzip") ==
      "application/vnd.gardener.landscaper.blueprint.layer.v1.tar+gzip"
  {
    assert "blueprint.layer.v1.tar" + "+" + "gzip" == "blueprint.layer.v1.tar+gzip";
  }

  lemma BlueprintSpelled()
    ensures Spell(LayerParts("blueprint", "tar"), None) == "application/vnd.gardener.landscaper.blueprint.layer.v1.tar"
    ensures Spell(LayerParts("blueprint", "tar"), Some("gzip")) ==
      "application/vnd.gardener.landscaper.blueprint.layer.v1.tar+gzip"
  {
    var rest := ["blueprint", "layer", "v1", "tar"];
    assert LayerParts("blueprint", "tar") == ["vnd", "gardener", "landscaper"] + rest;
    SpellLandscaper(rest, None);
    SpellLandscaper(rest, Some("gzip"));
    JoinLayer("blueprint", "tar");
    BlueprintTail();
    BlueprintEnds();
  }

  lemma SchemaTail()
    ensures "jsonschema" + (['.'] + ("layer" + ['.'] + ("v1" + ['.'] + "json"))) == "jsonschema.layer.v1.json"
  {
    assert "layer" + ['.'] + ("v1" + ['.'] + "json") == "layer.v1.json";
  }

  lemma SchemaSpelled()
    ensures Spell(LayerParts("jsonschema", "json"), None) ==
      "application/vnd.gardener.landscaper.jsonschema.layer.v1.json"
  {
    var rest := ["jsonschema", "layer", "v1", "json"];
    assert LayerParts("jsonschema", "json") == ["vnd", "gardener", "landscaper"] + rest;
    SpellLandscaper(rest, None);
    JoinLayer("jsonschema", "json");
    SchemaTail();
    SchemaLayerLiteral();
  }

  /** The legacy blueprint type parses as a compressed blueprint layer. */
  lemma LegacyBlueprintRecord()
    ensures ParseResult("application/vnd.gardener.landscaper.blueprint.v1+tar+gzip", []) == Parsed(MediaType(
      "application/vnd.gardener.landscaper.blueprint.layer.v1.tar+gzip", OCILayerFormat,
      "application/vnd.gardener.landscaper.blueprint.layer.v1.tar", Some("gzip"), Some("v1"), Some("tar"), None))
  {
    var s := "application/vnd.gardener.landscaper.blueprint.v1+tar+gzip";
    LegacyConversions(s);
    assert [] + [DefaultMediaTypeConversions] == [DefaultMediaTypeConversions];
    ConvertOnce(s);
    LandscaperLayer("blueprint", "tar", Some("gzip"));
    BlueprintSpelled();
  }

  /** The legacy schema type parses as a schema layer. */
  lemma LegacySchemaRecord()
    ensures ParseResult("application/vnd.gardener.landscaper.jsonscheme.v1+json", []) == Parsed(MediaType(
      "application/vnd.gardener.landscaper.jsonschema.layer.v1.json", OCILayerFormat,
      "application/vnd.gardener.landscaper.jsonschema.layer.v1.json", None, Some("v1"), Some("json"), None))
  {
    var s := "application/vnd.gardener.landscaper.jsonscheme.v1+json";
    LegacyConversions(s);
    assert [] + [DefaultMediaTypeConversions] == [DefaultMediaTypeConversions];
    ConvertOnce(s);
    LandscaperLayer("jsonschema", "json", None);
    SchemaSpelled();
  }

  // ---------- Other types ----------

  lemma ForeignFront(t: string, subtype: string, suffix: Option<string>)
    requires '/' !in t && '/' !in subtype && (suffix.Some? ==> '/' !in suffix.value)
    ensures var s := Suffixed(t + ['/'] + subtype, suffix);
      && s == t + ['/'] + Suffixed(subtype, suffix)
      && Split(s, '/') == [t, Suffixed(subtype, suffix)] && IndexOf(s, '/') == |t|
  {
    var rest := Suffixed(subtype, suffix);
    assert '/' !in rest;
    assert Suffixed(t + ['/'] + subtype, suffix) == t + ['/'] + rest;
    SplitInTwo(t, '/', rest);
    IndexAfter(t, '/', rest);
  }

  lemma MiddleOf(s: string, t: string, subtype: string, last: string)
    requires s == t + ['/'] + subtype + last
    ensures s[|t| + 1..|t| + 1 + |subtype|] == subtype
    ensures last == "" ==> s[|t| + 1..] == subtype
  {
  }

  lemma ForeignSubtype(t: string, subtype: string, suffix: Option<string>)
    requires '/' !in t && '+' !in t && '/' !in subtype && '+' !in subtype && (suffix.Some? ==> '/' !in suffix.value)
    ensures var s := Suffixed(t + ['/'] + subtype, suffix);
      !(0 <= IndexOf(s, '+') < IndexOf(s, '/')) && Subtype(s) == subtype
  {
    var front := t + ['/'] + subtype;
    var s := Suffixed(front, suffix);
    ForeignFront(t, subtype, suffix);
    SpelledPlus(front, suffix);
    MiddleOf(s, t, subtype, if suffix.Some? then "+" + suffix.value else "");
  }

  /** Outside `application` the type keeps its suffix, and the subtype is the file format. */
  lemma ForeignRecord(t: string, subtype: string, suffix: Option<string>)
    requires t != "application" && '/' !in t && '+' !in t && '/' !in subtype && '+' !in subtype
    requires suffix.Some? ==> '/' !in suffix.value
    ensures var s := Suffixed(t + ['/'] + subtype, suffix);
      ParseResult(s, []) == Parsed(MediaType(s, DefaultFormat, s, suffix, None, Some(subtype), None))
  {
    var front, rest := t + ['/'] + subtype, Suffixed(subtype, suffix);
    var s := Suffixed(front, suffix);
    ForeignFront(t, subtype, suffix);
    SpelledPlus(front, suffix);
    ForeignIsNotLegacy(t, rest);
    NoConversion(s);
    ForeignSubtype(t, subtype, suffix);
  }

  /** An application type that has neither shape and is no legacy type has its suffix taken apart, and nothing else. */
  lemma PlainRecord(parts: seq<string>, suffix: Option<string>)
    requires parts != [] && Segments(parts) && (suffix.Some? ==> '/' !in suffix.value)
    requires !(|parts| > 2 && parts[|parts| - 2] == "config") && !(|parts| > 3 && parts[|parts| - 3] == "layer")
    requires Spell(parts, suffix) != "application/vnd.gardener.landscaper.blueprint.v1+tar+gzip"
    requires Spell(parts, suffix) != "application/vnd.gardener.landscaper.jsonscheme.v1+json"
    ensures var s := Spell(parts, suffix);
      && ParseResult(s, []) == Parsed(MediaType(s, DefaultFormat, Spell(parts, None), suffix, None, None, None))
      && forall c :: !ParseResult(s, []).mediaType.HasFileFormat(c)
  {
    var s := Spell(parts, suffix);
    LegacyConversions(s);
    NoConversion(s);
    ParseSpelled(parts, suffix);
    SplitOfJoin(parts, '.');
  }

  // ---------- Rejected texts ----------

  lemma OneSlashIff(s: string)
    ensures ParsePlain(s) != InvalidType <==> exists a: string, b: string :: s == a + "/" + b && '/' !in a + b
  {
    if ParsePlain(s) != InvalidType {
      TwoParts(s, '/');
      var p := Split(s, '/');
      assert s == p[0] + "/" + p[1] && '/' !in p[0] + p[1];
    }
    forall a: string, b: string | s == a + "/" + b && '/' !in a + b ensures |Split(s, '/')| == 2 {
      assert forall x :: x in a + b <==> x in a || x in b;
      assert s == a + ['/'] + b;
      SplitInTwo(a, '/', b);
    }
  }

  lemma LegacyParsed()
    ensures ParsePlain("application/vnd.gardener.landscaper.blueprint.v1+tar+gzip").Parsed?
    ensures ParsePlain("application/vnd.gardener.landscaper.jsonscheme.v1+json").Parsed?
  {
    LegacySegments("blueprint");
    LegacySegments("jsonscheme");
    ParseSpelled(LegacyParts("blueprint"), Some("tar+gzip"));
    ParseSpelled(LegacyParts("jsonscheme"), Some("json"));
    SpellLegacy("blueprint", "tar+gzip");
    SpellLegacy("jsonscheme", "json");
    BlueprintLiteral();
    SchemaLiteral();
    BlueprintTypeLiteral();
    SchemaTypeLiteral();
  }

  /** A text is rejected as no media type exactly when it does not contain one single slash. */
  lemma InvalidIff(s: string)
    ensures ParseResult(s, []) == InvalidType <==> !exists a: string, b: string :: s == a + "/" + b && '/' !in a + b
  {
    OneSlashIff(s);
    LegacyConversions(s);
    if DefaultMediaTypeConversions(s) == Unchanged {
      NoConversion(s);
    } else {
      LegacyBlueprintRecord();
      LegacySchemaRecord();
      LegacyParsed();
    }
  }

  /** A compression that is given without a suffix is printed like one. */
  lemma CompressionPrinted(mt: MediaType, comp: string)
    requires mt.suffix.None? && mt.compressionFormat == Some(comp)
    ensures mt.ToString() == mt.typ + "+" + comp == mt.WithCompression(comp).ToString()
  {
  }
}
