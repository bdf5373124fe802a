/** Parsing, printing and building of media types. */
module MediaTypes {
  import opened Basics
  import opened Strings

  datatype Format = DefaultFormat | OCIConfigFormat | OCILayerFormat

  datatype MediaType = MediaType(
    orig: string,
    format: Format,
    typ: string,
    suffix: Option<string>,
    version: Option<string>,
    fileFormat: Option<string>,
    compressionFormat: Option<string>)
  {
    /** The printed form. */
    function ToString(): string {
      var s := if compressionFormat.Some? && suffix.None? then compressionFormat else suffix;
      if s.Some? then typ + "+" + s.value else typ
    }

    predicate HasSuffix(wanted: string) {
      suffix.Some? && (wanted == "" || suffix.value == wanted)
    }

    predicate IsCompressed(wanted: string) {
      if compressionFormat.None? then suffix.Some? && suffix.value == wanted
      else wanted == "" || compressionFormat.value == wanted
    }

    predicate HasFileFormat(wanted: string) {
      fileFormat.Some? && (wanted == "" || fileFormat.value == wanted)
    }

    function WithCompression(comp: string): MediaType {
      this.(compressionFormat := Some(comp), suffix := Some(comp))
    }

    function WithFileFormat(file: string): MediaType {
      this.(fileFormat := Some(file), suffix := Some(file))
    }
  }

  function NewType(t: string): MediaType {
    MediaType("", DefaultFormat, t, None, None, None, None)
  }

  class Builder {
    var mediaType: MediaType

    constructor (t: string)
      ensures mediaType == NewType(t)
    {
      mediaType := NewType(t);
    }

    method Compression(comp: string) returns (b: Builder)
      modifies this
      ensures b == this && mediaType == old(mediaType).WithCompression(comp)
    {
      mediaType := mediaType.(compressionFormat := Some(comp));
      mediaType := mediaType.(suffix := Some(comp));
      b := this;
    }

    method FileFormat(format: string) returns (b: Builder)
      modifies this
      ensures b == this && mediaType == old(mediaType).WithFileFormat(format)
    {
      mediaType := mediaType.(fileFormat := Some(format));
      mediaType := mediaType.(suffix := Some(format));
      b := this;
    }

    method IsConfigType() returns (b: Builder)
      modifies this
      ensures b == this && mediaType == old(mediaType).(format := OCIConfigFormat)
    {
      mediaType := mediaType.(format := OCIConfigFormat);
      b := this;
    }

    method IsLayerType() returns (b: Builder)
      modifies this
      ensures b == this && mediaType == old(mediaType).(format := OCILayerFormat)
    {
      mediaType := mediaType.(format := OCILayerFormat);
      b := this;
    }

    method Build() returns (mt: MediaType)
      ensures mt == mediaType
    {
      mt := mediaType;
    }

    method String() returns (s: string)
      ensures s == mediaType.ToString()
    {
      var mt := Build();
      s := mt.ToString();
    }
  }

  // ---------- Legacy conversions ----------

  const LANDSCAPER_TYPES := "application/vnd.gardener.landscaper."
  const BLUEPRINT_V0 := LANDSCAPER_TYPES + "blueprint.v1+tar+gzip"
  const BLUEPRINT_LAYER_V1 := LANDSCAPER_TYPES + "blueprint.layer.v1.tar"
  const JSON_SCHEMA_V0 := LANDSCAPER_TYPES + "jsonscheme.v1+json"
  const JSON_SCHEMA_V1 := LANDSCAPER_TYPES + "jsonschema.layer.v1.json"
  const GZIP := "gzip"

  datatype Conversion = Converted(result: string) | Unchanged | Failed

  function DefaultMediaTypeConversions(mediaType: string): Conversion {
    if mediaType == BLUEPRINT_V0 then Converted(NewType(BLUEPRINT_LAYER_V1).WithCompression(GZIP).ToString())
    else if mediaType == JSON_SCHEMA_V0 then Converted(JSON_SCHEMA_V1)
    else Unchanged
  }

  /** The media type after all conversions, or None if one fails. */
  function Convert(mediaType: string, conversions: seq<string -> Conversion>): Option<string>
    decreases |conversions|
  {
    if conversions == [] then Some(mediaType)
    else
      match conversions[0](mediaType)
      case Failed => None
      case Unchanged => Convert(mediaType, conversions[1..])
      case Converted(t) => Convert(t, conversions[1..])
  }

  // ---------- Parsing ----------

  /** `Panics` stands for the run-time error of slicing with a lower bound above the upper one. */
  datatype ParseOutcome = Parsed(mediaType: MediaType) | InvalidType | ConversionError | Panics

  /**
   The version and file format that the dotted part of an application type carries, if it has the config or
   layer shape.
   */
  function Classify(mt: MediaType, tree: string): MediaType {
    var p := Split(tree, '.');
    var n := |p|;
    if n > 2 && p[n - 2] == "config" then
      mt.(format := OCIConfigFormat, fileFormat := mt.suffix, version := Some(p[n - 1]))
    else if n > 3 && p[n - 3] == "layer" then
      mt.(format := OCILayerFormat, fileFormat := Some(p[n - 1]), version := Some(p[n - 2]))
    else mt
  }

  /** The media type without its suffix, the suffix apart. */
  function Unsuffixed(s: string): MediaType {
    var plus := IndexOf(s, '+');
    if plus < 0 then NewType(s).(orig := s)
    else NewType(s[..plus]).(orig := s, suffix := Some(s[plus + 1..]))
  }

  /** What stands between the slash and the suffix. */
  function Subtype(s: string): string
    requires !(0 <= IndexOf(s, '+') < IndexOf(s, '/'))
  {
    var slash, plus := IndexOf(s, '/'), IndexOf(s, '+');
    if plus < 0 then s[slash + 1..] else assert slash != plus; s[slash + 1..plus]
  }

  /** The outcome for a media type that needs no conversion. */
  function ParsePlain(s: string): ParseOutcome {
    var p := Split(s, '/');
    if |p| != 2 then InvalidType
    else if 0 <= IndexOf(s, '+') < IndexOf(s, '/') then Panics
    else if p[0] != "application" then Parsed(Unsuffixed(s).(typ := s, fileFormat := Some(Subtype(s))))
    else Parsed(Classify(Unsuffixed(s), Subtype(s)))
  }

  function ParseResult(mediaType: string, conversions: seq<string -> Conversion>): ParseOutcome {
    match Convert(mediaType, conversions + [DefaultMediaTypeConversions])
    case None => ConversionError
    case Some(s) => ParsePlain(s)
  }

  /** Where the part behind the slash begins. */
  lemma TreeStart(mediaType: string)
    requires |Split(mediaType, '/')| == 2
    ensures var tree := Split(mediaType, '/')[1];
      && |mediaType| == IndexOf(mediaType, '/') + 1 + |tree|
      && mediaType[IndexOf(mediaType, '/') + 1..] == tree
  {
    TwoParts(mediaType, '/');
  }

  lemma PlusIsNoSlash(mediaType: string)
    requires 0 <= IndexOf(mediaType, '/')
    ensures IndexOf(mediaType, '+') != IndexOf(mediaType, '/')
  {
    assert mediaType[IndexOf(mediaType, '/')] == '/';
  }

  /** The last part of the parser: the config or layer shape. */
  method DetectFormat(plain: MediaType, tree: string) returns (mt: MediaType)
    ensures mt == Classify(plain, tree)
  {
    mt := plain;
    var splitType := Split(tree, '.');
    var n := |splitType|;
    if n > 2 && splitType[n - 2] == "config" {
      mt := mt.(format := OCIConfigFormat);
      mt := mt.(fileFormat := mt.suffix);
      mt := mt.(version := Some(splitType[n - 1]));
    } else if n > 3 && splitType[n - 3] == "layer" {
      mt := mt.(format := OCILayerFormat);
      mt := mt.(fileFormat := Some(splitType[n - 1]));
      mt := mt.(version := Some(splitType[n - 2]));
    }
  }

  /** The part of the parser behind the conversions. */
  method ParseConverted(mediaType: string) returns (r: ParseOutcome)
    ensures r == ParsePlain(mediaType)
  {
    var splitType := Split(mediaType, '/');
    if |splitType| != 2 {
      return InvalidType;
    }
    var mt := NewType(mediaType).(orig := mediaType);
    var tree := splitType[1];
    var suffixIndex := IndexOf(mediaType, '+');
    var low := |mediaType| - |tree|;
    TreeStart(mediaType);
    PlusIsNoSlash(mediaType);
    if suffixIndex > -1 {
      mt := mt.(suffix := Some(mediaType[suffixIndex + 1..]));
      mt := mt.(typ := mediaType[..suffixIndex]);
      if low > suffixIndex {
        return Panics;
      }
      tree := mediaType[low..suffixIndex];
    }
    if splitType[0] != "application" {
      mt := mt.(typ := mediaType);
      mt := mt.(fileFormat := Some(tree));
      return Parsed(mt);
    }
    mt := DetectFormat(mt, tree);
    r := Parsed(mt);
  }

  method Parse(mediaType: string, conversions: seq<string -> Conversion>) returns (r: ParseOutcome)
    ensures r == ParseResult(mediaType, conversions)
  {
    var all := conversions + [DefaultMediaTypeConversions];
    var current := mediaType;
    for i := 0 to |all|
      invariant Convert(current, all[i..]) == Convert(mediaType, all)
    {
      assert all[i..][1..] == all[i + 1..];
      match all[i](current) {
        case Failed => return ConversionError;
        case Unchanged =>
        case Converted(t) => current := t;
      }
    }
    r := ParseConverted(current);
  }
}
