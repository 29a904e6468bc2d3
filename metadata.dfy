/** The addon descriptor and parse_metadata. The XML library is outside the
    model: a descriptor arrives as what ElementTree.parse produced for it. */
module Metadata {
  import opened Wrappers
  import opened Validate

  /** An ElementTree element: its tag, attributes, the text before its first
      child, its children and the tail text after its end tag (None where
      ElementTree has None). The builder reads two attributes of a descriptor
      root and appends descriptor roots as children of the index root; the
      rest of each descriptor, text included, is carried along untouched. */
  datatype Element = Element(tag: string, attributes: map<string, string>, text: Option<string>,
                             children: seq<Element>, tail: Option<string>)

  /** `element.get(key)`: the attribute's value, or None when it is absent. */
  function Get(e: Element, key: string): (r: Option<string>)
    ensures r.Some? <==> key in e.attributes
    ensures r.Some? ==> r.value == e.attributes[key]
  {
    if key in e.attributes then Some(e.attributes[key]) else None
  }

  /** The `Metadata` named tuple: identity plus the whole descriptor tree. */
  datatype AddonMetadata = AddonMetadata(id: string, version: string, root: Element)

  /** What ElementTree.parse did with a descriptor file: the file could not be
      opened (IOError), it was not well-formed XML (ParseError), or a tree. */
  datatype Parsed = Unopenable | NotWellFormed | Tree(root: Element)

  /** parse_metadata: an unreadable file is reported with its path, a
      malformed one propagates the parser's error, then the id is checked and
      only after it the version; the first failing check decides the error. */
  function ParseMetadata(parsed: Parsed, path: string): (r: Result<AddonMetadata>)
    ensures parsed.Unopenable? ==> r == Err(MetadataUnopenable(path))
    ensures parsed.NotWellFormed? ==> r == Err(MetadataMalformed(path))
    ensures parsed.Tree? && !ValidId(Get(parsed.root, "id")) ==>
      r == Err(InvalidAddonId(Get(parsed.root, "id")))
    ensures parsed.Tree? && ValidId(Get(parsed.root, "id")) && !ValidVersion(Get(parsed.root, "version")) ==>
      r == Err(InvalidAddonVersion(Get(parsed.root, "version")))
    ensures r.Ok? <==>
      parsed.Tree? && ValidId(Get(parsed.root, "id")) && ValidVersion(Get(parsed.root, "version"))
    ensures r.Ok? ==>
      && r.value.root == parsed.root
      && Get(parsed.root, "id") == Some(r.value.id)
      && Get(parsed.root, "version") == Some(r.value.version)
  {
    match parsed
    case Unopenable => Err(MetadataUnopenable(path))
    case NotWellFormed => Err(MetadataMalformed(path))
    case Tree(root) =>
      var id := Get(root, "id");
      var version := Get(root, "version");
      if !ValidId(id) then Err(InvalidAddonId(id))
      else if !ValidVersion(version) then Err(InvalidAddonVersion(version))
      else Ok(AddonMetadata(id.value, version.value, root))
  }

  /** Whatever parse_metadata returns carries an id whose first character (if
      any) is an identifier character and a version of the documented shape. */
  lemma ParsedMetadataIsValid(parsed: Parsed, path: string)
    requires ParseMetadata(parsed, path).Ok?
    ensures var m := ParseMetadata(parsed, path).value;
      (m.id == "" || IdChar(m.id[0])) && VersionShape(m.version)
  {
    var m := ParseMetadata(parsed, path).value;
    ValidVersionSound(m.version);
  }
}
