// The structs that patch fields hold: content blocks with their annotations and resources, the state
// of a child session and its capabilities. A content block is one struct for five variants, and which
// of its fields are demanded or ignored depends on the variant.
module ContentBlocks {
  import opened Wrappers
  import opened Messages
  import opened Structs

  const INT64 := Integer(-TWO63, TWO63 - 1)
  const INT32 := Integer(-0x8000_0000, 0x7fff_ffff)
  const UINT64 := Integer(0, 2 * TWO63 - 1)

  const ANNOTATIONS := [
    Member("_meta", Meta, Strict), Member("audience", Roles, Lenient),
    Member("lastModified", Text, Tolerant), Member("priority", Number, Tolerant)]

  const RESOURCE := [
    Member("_meta", Meta, Strict), Member("blob", Text, Strict), Member("mimeType", Text, Tolerant),
    Member("text", Text, Strict), Member("uri", Text, Always)]

  const CANCEL := [Member("_meta", Meta, Strict)]

  const CAPABILITIES := [Member("_meta", Meta, Strict), Member("cancel", Struct(CANCEL), Tolerant)]

  const ERROR := [Member("code", INT32, Always), Member("data", Any, Tolerant), Member("message", Text, Always)]

  const USAGE := [
    Member("_meta", Meta, Strict), Member("cachedReadTokens", UINT64, Tolerant), Member("cachedWriteTokens", UINT64, Tolerant),
    Member("inputTokens", UINT64, Always), Member("outputTokens", UINT64, Always), Member("thoughtTokens", UINT64, Tolerant),
    Member("totalTokens", UINT64, Always)]

  const STATE := [
    Member("state", Text, Always), Member("_meta", Meta, Strict), Member("error", Struct(ERROR), Tolerant),
    Member("stopReason", Any, Strict), Member("usage", Struct(USAGE), Tolerant)]

  const KNOWN_BLOCKS := {"text", "image", "audio", "resource_link", "resource"}

  // A value field: written even when zero in the variant that is about it.
  function ValueMode(forced: bool): Mode { if forced then Forced else Omitted }

  predicate IsMedia(kind: string) { kind == "image" || kind == "audio" }

  function MimeMode(kind: string): Mode {
    if IsMedia(kind) then Demanded else if kind == "resource_link" then Lenient else Ignored
  }

  function UriMode(kind: string): Mode {
    if kind == "resource_link" then Demanded else if kind == "image" then Lenient else Ignored
  }

  function BlockMembers(kind: string): seq<Member> {
    [Member("_meta", Meta, Strict),
     Member("annotations", Struct(ANNOTATIONS), Tolerant),
     Member("data", Text, ValueMode(IsMedia(kind))),
     Member("description", Text, Tolerant),
     Member("mimeType", Text, MimeMode(kind)),
     Member("name", Text, ValueMode(kind == "resource_link")),
     Member("resource", Struct(RESOURCE), ValueMode(kind == "resource")),
     Member("size", INT64, Tolerant),
     Member("text", Text, ValueMode(kind == "text")),
     Member("title", Text, Tolerant),
     Member("uri", Text, UriMode(kind))]
  }

  datatype Block = Block(kind: string, fields: Fields)

  predicate OfBlock(b: Block) { b.fields.Keys <= NamesOf(BlockMembers(b.kind)) && OfMembers(BlockMembers(b.kind), b.fields) }

  // ContentBlock.MarshalJSON and UnmarshalJSON.
  function EncodeBlock(b: Block): Json { JObj(EncodeMembers(BlockMembers(b.kind), b.fields)["type" := JStr(b.kind)]) }

  function DecodeBlock(j: Json): Option<Block> {
    if !j.JObj? && !j.JNull? then None
    else
      var raw := if j.JObj? then j.fields else map[];
      match if "type" in raw then DecodeText(raw["type"]) else Some("")
      case None => None
      case Some(kind) =>
        match DecodeMembers(BlockMembers(kind), raw)
        case None => None
        case Some(fields) => Some(Block(kind, fields))
  }

  function NormalBlock(b: Block): Block { Block(b.kind, NormalMembers(BlockMembers(b.kind), b.fields)) }

  predicate FixedBlock(b: Block) { FixedMembers(BlockMembers(b.kind), b.fields) }

  // ---------------------------------------------------------------------------------------------
  // The tables are well formed

  // Length and first two letters, which differ between the fields of each struct here except for the
  // token counts, told apart by their seventh letter.
  function Mark(name: string): int {
    if |name| < 2 then 0
    else if |name| >= 16 then 1_000_000 * |name| + name[6] as int
    else 1_000_000 * |name| + 1000 * name[1] as int + name[0] as int
  }

  lemma MarkedApart(ms: seq<Member>, marks: seq<int>)
    requires |marks| == |ms| && forall i :: 0 <= i < |ms| ==> Mark(ms[i].name) == marks[i]
    requires forall i, j :: 0 <= i < j < |marks| ==> marks[i] != marks[j]
    ensures Apart(ms)
  {}

  lemma {:induction false} AllWellFormed(ms: seq<Member>)
    requires forall i :: 0 <= i < |ms| ==> WellFormedMember(ms[i])
    ensures WellFormedMembers(ms)
  {
    if ms != [] {
      forall i | 0 <= i < |ms[1..]| ensures WellFormedMember(ms[1..][i]) {
        assert ms[1..][i] == ms[i + 1];
      }
      AllWellFormed(ms[1..]);
    }
  }

  // A field of scalar, list or opaque type.
  predicate Simple(m: Member) {
    && !m.shape.Struct? && (m.shape.Integer? ==> m.shape.lo <= 0 <= m.shape.hi)
    && (m.mode.Always? ==> m.shape.Text? || m.shape.Integer? || m.shape.Number?)
  }

  lemma StructWellFormed(ms: seq<Member>, marks: seq<int>)
    requires |marks| == |ms| && forall i :: 0 <= i < |ms| ==> Mark(ms[i].name) == marks[i]
    requires forall i, j :: 0 <= i < j < |marks| ==> marks[i] != marks[j]
    requires forall i :: 0 <= i < |ms| ==> Basic(ms[i]) && (Simple(ms[i]) || WellFormedMember(ms[i]))
    ensures WellFormed(Struct(ms))
  {
    MarkedApart(ms, marks);
    forall i | 0 <= i < |ms| ensures WellFormedMember(ms[i]) {}
    AllWellFormed(ms);
    forall m | m in ms ensures Basic(m) {
      var i :| 0 <= i < |ms| && ms[i] == m;
    }
  }

  lemma AnnotationsTable()
    ensures WellFormed(Struct(ANNOTATIONS))
  {
    hide WellFormedMembers;
    StructWellFormed(ANNOTATIONS, [5109095, 8117097, 12097108, 8114112]);
  }

  lemma ResourceTable()
    ensures WellFormed(Struct(RESOURCE))
  {
    hide WellFormedMembers;
    StructWellFormed(RESOURCE, [5109095, 4108098, 8105109, 4101116, 3114117]);
  }

  lemma CapabilitiesTable()
    ensures WellFormed(Struct(CAPABILITIES))
  {
    StructWellFormed(CANCEL, [5109095]);
    hide WellFormedMembers;
    StructWellFormed(CAPABILITIES, [5109095, 6097099]);
  }

  lemma ErrorTable()
    ensures WellFormed(Struct(ERROR))
  {
    hide WellFormedMembers;
    StructWellFormed(ERROR, [4111099, 4097100, 7101109]);
  }

  lemma UsageTable()
    ensures WellFormed(Struct(USAGE))
  {
    hide WellFormedMembers;
    StructWellFormed(USAGE, [5109095, 16000082, 17000087, 11110105, 12117111, 13104116, 11111116]);
  }

  lemma StateTable()
    ensures WellFormed(Struct(STATE))
  {
    ErrorTable();
    UsageTable();
    hide WellFormedMembers, ERROR, USAGE;
    StructWellFormed(STATE, [5116115, 5109095, 5114101, 10116115, 5115117]);
  }

  const BLOCK_NAMES := ["_meta", "annotations", "data", "description", "mimeType", "name", "resource", "size", "text", "title", "uri"]
  const BLOCK_MARKS := [5109095, 11110097, 4097100, 11101100, 8105109, 4097110, 8101114, 4105115, 4101116, 5105116, 3114117]

  lemma BlockNames(kind: string)
    ensures |BlockMembers(kind)| == |BLOCK_NAMES|
    ensures forall i :: 0 <= i < |BLOCK_NAMES| ==> BlockMembers(kind)[i].name == BLOCK_NAMES[i]
  {}

  lemma BlockMarks()
    ensures |BLOCK_MARKS| == |BLOCK_NAMES| && forall i :: 0 <= i < |BLOCK_NAMES| ==> Mark(BLOCK_NAMES[i]) == BLOCK_MARKS[i]
    ensures Mark("type") !in BLOCK_MARKS
    ensures forall i, j :: 0 <= i < j < |BLOCK_MARKS| ==> BLOCK_MARKS[i] != BLOCK_MARKS[j]
  {
    assert Mark("type") == 4121116;
  }

  lemma BlockWellFormed(kind: string)
    ensures WellFormedMembers(BlockMembers(kind))
  {
    AnnotationsTable();
    ResourceTable();
    hide WellFormedMembers, Apart, ANNOTATIONS, RESOURCE;
    AllWellFormed(BlockMembers(kind));
  }

  lemma BlockTable(kind: string)
    ensures Apart(BlockMembers(kind)) && WellFormedMembers(BlockMembers(kind))
    ensures "type" !in NamesOf(BlockMembers(kind))
  {
    BlockNames(kind);
    BlockMarks();
    BlockWellFormed(kind);
    hide BlockMembers, Mark, BLOCK_NAMES, BLOCK_MARKS, WellFormedMembers;
    MarkedApart(BlockMembers(kind), BLOCK_MARKS);
    forall i | 0 <= i < |BlockMembers(kind)| ensures BlockMembers(kind)[i].name != "type" {
      assert BLOCK_MARKS[i] in BLOCK_MARKS;
    }
  }

  // ---------------------------------------------------------------------------------------------
  // Round trips

  // A block decodes to its normal form, never to an error.
  lemma BlockBack(b: Block)
    requires OfBlock(b)
    ensures DecodeBlock(EncodeBlock(b)) == Some(NormalBlock(b))
  {
    var ms := BlockMembers(b.kind);
    var raw := EncodeMembers(ms, b.fields)["type" := JStr(b.kind)];
    BlockTable(b.kind);
    hide BlockMembers;
    forall i | 0 <= i < |ms| ensures Lookup(raw, ms[i].name) == EncodeMember(ms[i], Lookup(b.fields, ms[i].name)) {
      EncodedAt(ms, b.fields, i);
      assert ms[i].name in NamesOf(ms);
    }
    MembersBack(ms, b.fields, raw);
  }

  // Exactly the fixed blocks come back as they are, and exactly they are written the same again.
  lemma BlockShows(b: Block)
    requires OfBlock(b)
    ensures NormalBlock(b) == b <==> FixedBlock(b)
    ensures EncodeBlock(NormalBlock(b)) == EncodeBlock(b) <==> FixedBlock(b)
  {
    var ms := BlockMembers(b.kind);
    var normal := NormalMembers(ms, b.fields);
    BlockTable(b.kind);
    hide BlockMembers;
    forall i | 0 <= i < |ms| ensures Lookup(normal, ms[i].name) == NormalMember(ms[i], Lookup(b.fields, ms[i].name)) {
      NormalAt(ms, b.fields, i);
    }
    MembersShow(ms, b.fields, normal);
    NormalKeys(ms, b.fields);
    SameFields(ms, b.fields, normal);
    EncodedKeys(ms, b.fields);
    EncodedKeys(ms, normal);
    var x, y := EncodeMembers(ms, b.fields), EncodeMembers(ms, normal);
    assert x["type" := JStr(b.kind)] - {"type"} == x && y["type" := JStr(b.kind)] - {"type"} == y;
  }

  // Structs of scalar, string and metadata fields lose nothing.
  predicate Lossless(shape: Shape)
    decreases shape
  {
    match shape
    case Any => false
    case Texts => false
    case Roles => false
    case Struct(ms) => LosslessMembers(ms)
    case _ => true
  }

  predicate LosslessMembers(ms: seq<Member>)
    decreases ms
  {
    ms != [] ==> Lossless(ms[0].shape) && Basic(ms[0]) && LosslessMembers(ms[1..])
  }

  lemma {:induction false} LosslessFixed(shape: Shape, v: Value)
    requires Lossless(shape) && OfShape(shape, v)
    ensures Fixed(shape, v)
    decreases shape
  {
    if shape.Struct? {
      LosslessMembersFixed(shape.members, v.fields);
    }
  }

  lemma {:induction false} LosslessMembersFixed(ms: seq<Member>, fields: Fields)
    requires LosslessMembers(ms) && OfMembers(ms, fields)
    ensures FixedMembers(ms, fields)
    decreases ms
  {
    if ms != [] {
      if Lookup(fields, ms[0].name).Some? {
        LosslessFixed(ms[0].shape, fields[ms[0].name]);
      }
      LosslessMembersFixed(ms[1..], fields);
    }
  }

  lemma {:induction false} FixedEach(ms: seq<Member>, fields: Fields)
    ensures FixedMembers(ms, fields) <==> forall i :: 0 <= i < |ms| ==> FixedMember(ms[i], Lookup(fields, ms[i].name))
  {
    if ms != [] {
      FixedEach(ms[1..], fields);
      forall i | 0 <= i < |ms[1..]| ensures ms[1..][i] == ms[i + 1] {}
      assert forall i :: 0 < i < |ms| ==> ms[i] == ms[1..][i - 1];
    }
  }

  lemma {:induction false} OfEach(ms: seq<Member>, fields: Fields, i: nat)
    requires OfMembers(ms, fields) && i < |ms|
    ensures OfMember(ms[i], Lookup(fields, ms[i].name))
  {
    if i > 0 {
      OfEach(ms[1..], fields, i - 1);
    }
  }

  // What a caller can check of a block: media carry their MIME type and links their URI, neither is set
  // where the variant does not read it, and the audience, if given, is a list of known roles.
  predicate Careful(b: Block) {
    && MimeCareful(b.kind, "mimeType" in b.fields)
    && UriCareful(b.kind, "uri" in b.fields)
    && ("annotations" in b.fields ==> AudienceKnown(b.fields["annotations"]))
  }

  predicate MimeCareful(kind: string, given: bool) { if given then IsMedia(kind) || kind == "resource_link" else !IsMedia(kind) }

  predicate UriCareful(kind: string, given: bool) { if given then kind == "image" || kind == "resource_link" else kind != "resource_link" }

  predicate AudienceKnown(annotations: Value) {
    annotations.StructV? && "audience" in annotations.fields ==>
      var audience := annotations.fields["audience"];
      audience.RolesV? && audience.roles.Some? && forall r :: r in audience.roles.value ==> r == "assistant" || r == "user"
  }

  lemma AnnotationsFixed(v: Value)
    requires OfShape(Struct(ANNOTATIONS), v)
    ensures Fixed(Struct(ANNOTATIONS), v) <==> AudienceKnown(v)
  {
    var fields := v.fields;
    FixedEach(ANNOTATIONS, fields);
    AnnotationScalars(fields);
    AudienceFixed(fields);
    assert |ANNOTATIONS| == 4 && ANNOTATIONS[0].name == "_meta" && ANNOTATIONS[1].name == "audience"
      && ANNOTATIONS[2].name == "lastModified" && ANNOTATIONS[3].name == "priority";
    hide FixedMembers, OfMembers, OfMember, FixedMember, AudienceKnown, ANNOTATIONS;
  }

  lemma AudienceFixed(fields: Fields)
    requires OfMembers(ANNOTATIONS, fields)
    ensures FixedMember(ANNOTATIONS[1], Lookup(fields, "audience")) <==> AudienceKnown(StructV(fields))
  {
    OfEach(ANNOTATIONS, fields, 1);
    hide OfMembers;
  }

  lemma AnnotationScalars(fields: Fields)
    requires OfMembers(ANNOTATIONS, fields)
    ensures FixedMember(ANNOTATIONS[0], Lookup(fields, "_meta"))
    ensures FixedMember(ANNOTATIONS[2], Lookup(fields, "lastModified"))
    ensures FixedMember(ANNOTATIONS[3], Lookup(fields, "priority"))
  {
    OfEach(ANNOTATIONS, fields, 0);
    OfEach(ANNOTATIONS, fields, 2);
    OfEach(ANNOTATIONS, fields, 3);
    hide OfMembers;
  }

  // The exact condition, in terms of the block itself.
  lemma CarefulBlocks(b: Block)
    requires OfBlock(b)
    ensures FixedBlock(b) <==> Careful(b)
  {
    var ms := BlockMembers(b.kind);
    FixedEach(ms, b.fields);
    OfEach(ms, b.fields, 1);
    OfEach(ms, b.fields, 6);
    if "annotations" in b.fields {
      AnnotationsFixed(b.fields["annotations"]);
    }
    if "resource" in b.fields {
      ResourceFixed(b.fields["resource"]);
    }
    hide FixedMembers, OfMembers, AudienceKnown, ANNOTATIONS, RESOURCE;
    FixedOne(b);
  }

  lemma ResourceFixed(v: Value)
    requires OfShape(Struct(RESOURCE), v)
    ensures Fixed(Struct(RESOURCE), v)
  {
    assert LosslessMembers(RESOURCE) by { LosslessEach(RESOURCE); }
    LosslessFixed(Struct(RESOURCE), v);
  }

  lemma {:induction false} LosslessEach(ms: seq<Member>)
    requires forall i :: 0 <= i < |ms| ==> Lossless(ms[i].shape) && Basic(ms[i])
    ensures LosslessMembers(ms)
  {
    if ms != [] {
      forall i | 0 <= i < |ms[1..]| ensures Lossless(ms[1..][i].shape) && Basic(ms[1..][i]) {
        assert ms[1..][i] == ms[i + 1];
      }
      LosslessEach(ms[1..]);
    }
  }

  lemma FixedOne(b: Block)
    requires OfBlock(b)
    requires "annotations" in b.fields ==> (Fixed(Struct(ANNOTATIONS), b.fields["annotations"]) <==> AudienceKnown(b.fields["annotations"]))
    requires "resource" in b.fields ==> Fixed(Struct(RESOURCE), b.fields["resource"])
    ensures FixedBlock(b) <==> Careful(b)
  {
    var ms := BlockMembers(b.kind);
    FixedEach(ms, b.fields);
    BlockAt(b.kind);
    ModesMean(b.kind);
    hide FixedMembers, OfMembers, OfBlock, BlockMembers, AudienceKnown, ANNOTATIONS, RESOURCE;
    hide IsMedia, MimeMode, UriMode, MimeCareful, UriCareful, ValueMode, Fixed;
    forall i | 0 <= i < |ms| && i != 1 && i != 6 && ms[i].name in b.fields ensures Fixed(ms[i].shape, b.fields[ms[i].name]) {
      ScalarFixed(b, i);
    }
    assert FixedMember(ms[1], Lookup(b.fields, "annotations"))
      <==> ("annotations" in b.fields ==> AudienceKnown(b.fields["annotations"]));
    assert FixedMember(ms[4], Lookup(b.fields, "mimeType")) <==> MimeCareful(b.kind, "mimeType" in b.fields);
    assert FixedMember(ms[10], Lookup(b.fields, "uri")) <==> UriCareful(b.kind, "uri" in b.fields);
    assert forall i :: 0 <= i < |ms| && i != 1 && i != 4 && i != 10 ==> FixedMember(ms[i], Lookup(b.fields, ms[i].name));
  }

  lemma BlockAt(kind: string)
    ensures var ms := BlockMembers(kind);
            && |ms| == 11
            && ms[1] == Member("annotations", Struct(ANNOTATIONS), Tolerant)
            && ms[4] == Member("mimeType", Text, MimeMode(kind))
            && ms[6].name == "resource" && ms[6].shape == Struct(RESOURCE)
            && ms[10] == Member("uri", Text, UriMode(kind))
            && forall i :: 0 <= i < |ms| && i != 4 && i != 10 ==> !ms[i].mode.Demanded? && !ms[i].mode.Ignored?
  {}

  lemma ModesMean(kind: string)
    ensures MimeMode(kind).Demanded? <==> !MimeCareful(kind, false)
    ensures MimeMode(kind).Ignored? <==> !MimeCareful(kind, true)
    ensures UriMode(kind).Demanded? <==> !UriCareful(kind, false)
    ensures UriMode(kind).Ignored? <==> !UriCareful(kind, true)
    ensures forall forced :: Basic(Member("", Text, ValueMode(forced))) == false && !ValueMode(forced).Demanded? && !ValueMode(forced).Ignored?
  {
    assert |"image"| == 5 && |"audio"| == 5 && |"resource_link"| == 13;
  }

  lemma ScalarFixed(b: Block, i: nat)
    requires OfBlock(b) && i < |BlockMembers(b.kind)| && i != 1 && i != 6 && BlockMembers(b.kind)[i].name in b.fields
    ensures Fixed(BlockMembers(b.kind)[i].shape, b.fields[BlockMembers(b.kind)[i].name])
  {
    var ms := BlockMembers(b.kind);
    OfEach(ms, b.fields, i);
    BlockScalars(b.kind);
    hide OfMembers, BlockMembers;
    LosslessFixed(ms[i].shape, b.fields[ms[i].name]);
  }

  lemma BlockScalars(kind: string)
    ensures var ms := BlockMembers(kind);
            forall i :: 0 <= i < |ms| && i != 1 && i != 6 ==> ms[i].shape.Text? || ms[i].shape.Integer? || ms[i].shape.Meta?
  {}

  lemma {:induction false} OfAll(ms: seq<Member>, fields: Fields)
    requires forall i :: 0 <= i < |ms| ==> OfMember(ms[i], Lookup(fields, ms[i].name))
    ensures OfMembers(ms, fields)
  {
    if ms != [] {
      forall i | 0 <= i < |ms[1..]| ensures OfMember(ms[1..][i], Lookup(fields, ms[1..][i].name)) {
        assert ms[1..][i] == ms[i + 1];
      }
      OfAll(ms[1..], fields);
    }
  }

  // A struct with one field.
  lemma LoneField(ms: seq<Member>, i: nat, v: Value)
    requires i < |ms| && Apart(ms) && (forall k :: 0 <= k < |ms| ==> !ms[k].mode.Always?) && OfMember(ms[i], Some(v))
    ensures OfMembers(ms, map[ms[i].name := v]) && ms[i].name in NamesOf(ms)
  {
    var fields := map[ms[i].name := v];
    forall k | 0 <= k < |ms| ensures OfMember(ms[k], Lookup(fields, ms[k].name)) {
      assert k != i ==> ms[k].name != ms[i].name;
    }
    OfAll(ms, fields);
  }

  lemma LoneBlocks(kind: string, text: string)
    ensures text != "" ==> OfBlock(Block(kind, map["data" := TextV(text)]))
    ensures OfBlock(Block(kind, map["mimeType" := TextV(text)]))
  {
    BlockTable(kind);
    BlockTexts(kind);
    var ms := BlockMembers(kind);
    hide BlockMembers, OfMembers, Apart;
    if text != "" {
      LoneField(ms, 2, TextV(text));
    }
    LoneField(ms, 4, TextV(text));
  }

  lemma BlockTexts(kind: string)
    ensures var ms := BlockMembers(kind);
            && |ms| == 11 && (forall k :: 0 <= k < |ms| ==> !ms[k].mode.Always?)
            && ms[2].name == "data" && ms[2].shape.Text? && ms[4].name == "mimeType" && ms[4].shape.Text?
            && !ms[4].mode.Omitted? && !ms[4].mode.Forced?
  {}

  // An image without a MIME type: it is written as null, read as the empty string, and written as the
  // empty string from then on.
  lemma ImageWithoutMimeType(data: string)
    requires data != ""
    ensures var b := Block("image", map["data" := TextV(data)]);
            OfBlock(b) && !Careful(b) && NormalBlock(b) != b && EncodeBlock(NormalBlock(b)) != EncodeBlock(b)
  {
    var b := Block("image", map["data" := TextV(data)]);
    LoneBlocks("image", data);
    assert !Careful(b) by { assert |"data"| != |"mimeType"|; }
    hide OfBlock, Careful, NormalBlock, EncodeBlock, FixedBlock;
    CarefulBlocks(b);
    BlockShows(b);
  }

  // A text with a MIME type: the type is written but not read.
  lemma TextWithMimeType(mime: string)
    ensures var b := Block("text", map["mimeType" := TextV(mime)]);
            OfBlock(b) && !Careful(b) && NormalBlock(b) != b && EncodeBlock(NormalBlock(b)) != EncodeBlock(b)
  {
    var b := Block("text", map["mimeType" := TextV(mime)]);
    LoneBlocks("text", mime);
    assert !Careful(b) by { assert |"text"| != |"image"| && |"text"| != |"resource_link"|; }
    hide OfBlock, Careful, NormalBlock, EncodeBlock, FixedBlock;
    CarefulBlocks(b);
    BlockShows(b);
  }

  // Capabilities always come back as they are; a state does unless its stop reason or its error's data
  // is set to something that encodes as null.
  lemma CapabilitiesFixed(v: Value)
    requires OfShape(Struct(CAPABILITIES), v)
    ensures Fixed(Struct(CAPABILITIES), v)
  {
    assert LosslessMembers(CANCEL) by { LosslessEach(CANCEL); }
    assert LosslessMembers(CAPABILITIES) by { LosslessEach(CAPABILITIES); }
    LosslessFixed(Struct(CAPABILITIES), v);
  }

  predicate NullHeld(v: Value, name: string) { v.StructV? && name in v.fields && v.fields[name] == AnyV(JNull) }

  predicate StateCareful(v: Value) {
    !NullHeld(v, "stopReason") && (v.StructV? && "error" in v.fields ==> !NullHeld(v.fields["error"], "data"))
  }

  lemma ErrorFixed(v: Value)
    requires OfShape(Struct(ERROR), v)
    ensures Fixed(Struct(ERROR), v) <==> !NullHeld(v, "data")
  {
    FixedEach(ERROR, v.fields);
    OfEach(ERROR, v.fields, 0);
    OfEach(ERROR, v.fields, 1);
    OfEach(ERROR, v.fields, 2);
    hide FixedMembers, OfMembers;
  }

  lemma UsageFixed(v: Value)
    requires OfShape(Struct(USAGE), v)
    ensures Fixed(Struct(USAGE), v)
  {
    assert LosslessMembers(USAGE) by { LosslessEach(USAGE); }
    LosslessFixed(Struct(USAGE), v);
  }

  lemma StateFixed(v: Value)
    requires OfShape(Struct(STATE), v)
    ensures Fixed(Struct(STATE), v) <==> StateCareful(v)
  {
    var fields := v.fields;
    FixedEach(STATE, fields);
    StateScalars(fields);
    StateStructs(fields);
    assert |STATE| == 5 && STATE[0].name == "state" && STATE[1].name == "_meta" && STATE[2].name == "error"
      && STATE[3].name == "stopReason" && STATE[4].name == "usage";
    hide FixedMembers, OfMembers, OfMember, FixedMember, NullHeld, STATE;
  }

  lemma StateStructs(fields: Fields)
    requires OfMembers(STATE, fields)
    ensures FixedMember(STATE[2], Lookup(fields, "error")) <==> ("error" in fields ==> !NullHeld(fields["error"], "data"))
    ensures FixedMember(STATE[4], Lookup(fields, "usage"))
  {
    OfEach(STATE, fields, 2);
    OfEach(STATE, fields, 4);
    hide OfMembers;
    if "error" in fields {
      ErrorFixed(fields["error"]);
    }
    if "usage" in fields {
      UsageFixed(fields["usage"]);
    }
    hide Fixed, NullHeld, ERROR, USAGE;
  }

  lemma StateScalars(fields: Fields)
    requires OfMembers(STATE, fields)
    ensures FixedMember(STATE[0], Lookup(fields, "state")) && FixedMember(STATE[1], Lookup(fields, "_meta"))
    ensures FixedMember(STATE[3], Lookup(fields, "stopReason")) <==> !NullHeld(StructV(fields), "stopReason")
  {
    OfEach(STATE, fields, 0);
    OfEach(STATE, fields, 1);
    OfEach(STATE, fields, 3);
    hide OfMembers, ERROR, USAGE;
  }

  // ---------------------------------------------------------------------------------------------
  // What does not decode

  predicate BadResource(j: Json) {
    !j.JObj? || BadObject(j.fields, "_meta") || BadText(j.fields, "blob") || BadText(j.fields, "text") || BadText(j.fields, "uri")
  }

  lemma ResourceRefused(j: Json)
    requires j != JNull
    ensures Decode(Struct(RESOURCE), j).None? <==> BadResource(j)
  {
    if j.JObj? {
      MembersRefuse(RESOURCE, j.fields);
      ScalarRefuses(RESOURCE[0], j.fields);
      ScalarRefuses(RESOURCE[1], j.fields);
      ScalarRefuses(RESOURCE[2], j.fields);
      ScalarRefuses(RESOURCE[3], j.fields);
      ScalarRefuses(RESOURCE[4], j.fields);
      hide DecodeMembers, DecodeMember, BadText, BadObject;
      assert |RESOURCE| == 5;
      assert DecodeMember(RESOURCE[4], Lookup(j.fields, RESOURCE[4].name)).None? <==> BadText(j.fields, "uri");
    }
  }

  // What a block of this type refuses: metadata that is no object; data, a name or a text that is no
  // string; a resource that does not decode; the MIME type of an image or an audio, and the URI of a
  // link, that are no strings. Everything else is forgiven.
  predicate BadBlock(kind: string, raw: map<string, Json>) {
    || BadObject(raw, "_meta") || BadText(raw, "data") || BadText(raw, "name") || BadText(raw, "text")
    || ("resource" in raw && raw["resource"] != JNull && BadResource(raw["resource"]))
    || ((kind == "image" || kind == "audio") && BadText(raw, "mimeType"))
    || (kind == "resource_link" && BadText(raw, "uri"))
  }

  // The same by position in the table.
  predicate BadAt(kind: string, raw: map<string, Json>, i: nat) {
    if i == 0 then BadObject(raw, "_meta")
    else if i == 2 then BadText(raw, "data")
    else if i == 4 then (kind == "image" || kind == "audio") && BadText(raw, "mimeType")
    else if i == 5 then BadText(raw, "name")
    else if i == 6 then "resource" in raw && raw["resource"] != JNull && BadResource(raw["resource"])
    else if i == 8 then BadText(raw, "text")
    else i == 10 && kind == "resource_link" && BadText(raw, "uri")
  }

  lemma MemberRefuses(kind: string, raw: map<string, Json>, i: nat)
    requires i < |BlockMembers(kind)|
    ensures DecodeMember(BlockMembers(kind)[i], Lookup(raw, BlockMembers(kind)[i].name)).None? <==> BadAt(kind, raw, i)
  {
    var m := BlockMembers(kind)[i];
    if i == 6 {
      ResourceMember(m, raw);
    } else if m.shape.Text? || m.shape.Meta? {
      ScalarRefuses(m, raw);
    } else {
      ForgivingRefuses(m, raw);
    }
    hide DecodeMember, BadText, BadObject, BadResource, RESOURCE, ANNOTATIONS;
  }

  lemma BlockMembersRefuse(kind: string, raw: map<string, Json>)
    ensures DecodeMembers(BlockMembers(kind), raw).None? <==> BadBlock(kind, raw)
  {
    var ms := BlockMembers(kind);
    MembersRefuse(ms, raw);
    BlockNames(kind);
    forall i | 0 <= i < |ms| ensures DecodeMember(ms[i], Lookup(raw, ms[i].name)).None? <==> BadAt(kind, raw, i) {
      MemberRefuses(kind, raw, i);
    }
    hide DecodeMembers, DecodeMember, BlockMembers, BadText, BadObject, BadResource;
    assert |ms| == 11;
    SomeBadAt(kind, raw);
  }

  lemma SomeBadAt(kind: string, raw: map<string, Json>)
    ensures (exists i :: 0 <= i < 11 && BadAt(kind, raw, i)) <==> BadBlock(kind, raw)
  {
    hide BadText, BadObject, BadResource;
    assert BadBlock(kind, raw) ==>
      BadAt(kind, raw, 0) || BadAt(kind, raw, 2) || BadAt(kind, raw, 4) || BadAt(kind, raw, 5) || BadAt(kind, raw, 6)
      || BadAt(kind, raw, 8) || BadAt(kind, raw, 10);
  }

  lemma ResourceMember(m: Member, raw: map<string, Json>)
    requires m.shape == Struct(RESOURCE) && (m.mode.Omitted? || m.mode.Forced?)
    ensures DecodeMember(m, Lookup(raw, m.name)).None? <==> m.name in raw && raw[m.name] != JNull && BadResource(raw[m.name])
  {
    if m.name in raw && raw[m.name] != JNull {
      ResourceRefused(raw[m.name]);
    }
    hide BadResource, RESOURCE;
  }

  // Exactly what is refused as a content block, in terms of its JSON.
  lemma BlockRefused(j: Json)
    ensures DecodeBlock(j).None?
      <==> match j
           case JNull => false
           case JObj(raw) => BadText(raw, "type") || BadBlock(if "type" in raw && raw["type"].JStr? then raw["type"].s else "", raw)
           case _ => true
  {
    var raw := if j.JObj? then j.fields else map[];
    BlockMembersRefuse(if "type" in raw && raw["type"].JStr? then raw["type"].s else "", raw);
    hide DecodeMembers, BlockMembers, BadResource;
  }

  // ---------------------------------------------------------------------------------------------
  // What is written and read, member by member, in terms of the JSON

  // The members that a block of this type writes even when they are unset: null for a pointer, the zero
  // value otherwise.
  function Unset(kind: string, name: string): Option<Json> {
    if (kind == "image" || kind == "audio") && name == "data" then Some(JStr(""))
    else if (kind == "image" || kind == "audio") && name == "mimeType" then Some(JNull)
    else if kind == "resource_link" && name == "name" then Some(JStr(""))
    else if kind == "resource_link" && name == "uri" then Some(JNull)
    else if kind == "text" && name == "text" then Some(JStr(""))
    else if kind == "resource" && name == "resource" then Some(JObj(map["uri" := JStr("")]))
    else None
  }

  lemma UnsetMember(kind: string, i: nat)
    requires i < |BlockMembers(kind)|
    ensures EncodeMember(BlockMembers(kind)[i], None) == Unset(kind, BLOCK_NAMES[i])
  {
    BlockNames(kind);
    if i == 6 {
      ZeroResource();
    }
    hide RESOURCE, ANNOTATIONS;
  }

  lemma ZeroResource()
    ensures Zero(Struct(RESOURCE)) == StructV(map["uri" := TextV("")])
    ensures Encode(Struct(RESOURCE), Zero(Struct(RESOURCE))) == JObj(map["uri" := JStr("")])
  {
    assert RESOURCE[1..][1..][1..][1..] == [RESOURCE[4]] && RESOURCE[1..][1..][1..] == RESOURCE[3..];
    assert ZeroFields([RESOURCE[4]]) == map["uri" := TextV("")];
    assert ZeroFields(RESOURCE[3..]) == map["uri" := TextV("")];
    assert RESOURCE[1..][1..] == RESOURCE[2..];
    assert ZeroFields(RESOURCE[2..]) == map["uri" := TextV("")];
    assert ZeroFields(RESOURCE[1..]) == map["uri" := TextV("")];
    var fields := map["uri" := TextV("")];
    forall i | 0 <= i < 5 ensures Lookup(EncodeMembers(RESOURCE, fields), RESOURCE[i].name) == EncodeMember(RESOURCE[i], Lookup(fields, RESOURCE[i].name)) {
      ResourceTable();
      EncodedAt(RESOURCE, fields, i);
    }
    EncodedKeys(RESOURCE, fields);
  }

  // Exactly what a block writes: its type, every member that is set by its own encoding, and of the unset
  // ones those its type cannot do without.
  lemma BlockWritten(b: Block, i: nat)
    requires i < |BLOCK_NAMES|
    ensures var f, name := EncodeBlock(b).fields, BLOCK_NAMES[i];
            && "type" in f && f["type"] == JStr(b.kind)
            && Lookup(f, name) == if name in b.fields then Some(Encode(BlockShape(name), b.fields[name])) else Unset(b.kind, name)
  {
    var ms := BlockMembers(b.kind);
    BlockNames(b.kind);
    BlockTable(b.kind);
    EncodedAt(ms, b.fields, i);
    UnsetMember(b.kind, i);
    ShapeAt(b.kind, i);
    assert ms[i] in ms && ms[i].name in NamesOf(ms);
    hide BlockMembers, EncodeMembers, Unset, BlockShape, BLOCK_NAMES;
  }

  function BlockShape(name: string): Shape {
    if name == "_meta" then Meta
    else if name == "annotations" then Struct(ANNOTATIONS)
    else if name == "resource" then Struct(RESOURCE)
    else if name == "size" then Integer(-TWO63, TWO63 - 1)
    else Text
  }

  lemma ShapeAt(kind: string, i: nat)
    requires i < |BlockMembers(kind)|
    ensures BlockMembers(kind)[i].shape == BlockShape(BLOCK_NAMES[i])
  {
    hide RESOURCE, ANNOTATIONS;
    assert BLOCK_NAMES[i] == BlockMembers(kind)[i].name by { BlockNames(kind); }
  }

  // What is read of a member that was not refused.
  predicate Given(raw: map<string, Json>, name: string) { name in raw && raw[name] != JNull }

  function Forgiven(raw: map<string, Json>, name: string): Option<Value> {
    if !Given(raw, name) then None else Some(TextV(if raw[name].JStr? then raw[name].s else ""))
  }

  function Nonempty(raw: map<string, Json>, name: string): Option<Value> {
    if name in raw && raw[name].JStr? && raw[name].s != "" then Some(TextV(raw[name].s)) else None
  }

  function Proper(raw: map<string, Json>, name: string): Option<Value> {
    if name in raw && raw[name].JStr? then Some(TextV(raw[name].s)) else None
  }

  function Pointed(raw: map<string, Json>, name: string): Option<Value> {
    if name in raw then Some(TextV(if raw[name].JStr? then raw[name].s else "")) else None
  }

  // Member by member: metadata as it is; data, name and text unless they are empty; description and title
  // with the empty text in place of anything else; the MIME type and the URI as the type of the block has
  // them; the size with zero in place of anything else; annotations with empty ones in place of anything
  // else; a resource unless it says nothing.
  function Reading(kind: string, raw: map<string, Json>, name: string): Option<Value> {
    if name == "_meta" then (if Given(raw, name) && raw[name].JObj? then Some(MetaV(raw[name].fields)) else None)
    else if name == "data" || name == "name" || name == "text" then Nonempty(raw, name)
    else if name == "description" || name == "title" then Forgiven(raw, name)
    else if name == "mimeType" then
      if kind == "image" || kind == "audio" then Pointed(raw, name) else if kind == "resource_link" then Proper(raw, name) else None
    else if name == "uri" then
      if kind == "resource_link" then Pointed(raw, name) else if kind == "image" then Proper(raw, name) else None
    else if !Given(raw, name) then None
    else if name == "size" then
      Some(NumV(if raw[name].JNum? && -TWO63 <= raw[name].n < TWO63 then raw[name].n else 0))
    else if name == "annotations" then
      Some(match Decode(Struct(ANNOTATIONS), raw[name]) case Some(v) => v case None => StructV(map[]))
    else
      match Decode(Struct(RESOURCE), raw[name])
      case Some(v) => if v == StructV(map["uri" := TextV("")]) then None else Some(v)
      case None => None
  }

  lemma TextReads(kind: string, raw: map<string, Json>, i: nat)
    requires i < |BlockMembers(kind)| && i != 0 && i != 1 && i != 6 && i != 7
    requires var m := BlockMembers(kind)[i]; DecodeMember(m, Lookup(raw, m.name)).Some?
    ensures var m := BlockMembers(kind)[i]; DecodeMember(m, Lookup(raw, m.name)).value == Reading(kind, raw, m.name)
  {
    hide RESOURCE, ANNOTATIONS;
  }

  lemma OtherReads(kind: string, raw: map<string, Json>, i: nat)
    requires i < |BlockMembers(kind)| && (i == 0 || i == 1 || i == 6 || i == 7)
    requires var m := BlockMembers(kind)[i]; DecodeMember(m, Lookup(raw, m.name)).Some?
    ensures var m := BlockMembers(kind)[i]; DecodeMember(m, Lookup(raw, m.name)).value == Reading(kind, raw, m.name)
  {
    if i == 1 {
      NoAnnotations();
    } else if i == 6 {
      ZeroResource();
    }
    hide RESOURCE, ANNOTATIONS;
  }

  lemma MemberReads(kind: string, raw: map<string, Json>, i: nat)
    requires i < |BlockMembers(kind)|
    requires var m := BlockMembers(kind)[i]; DecodeMember(m, Lookup(raw, m.name)).Some?
    ensures var m := BlockMembers(kind)[i]; DecodeMember(m, Lookup(raw, m.name)).value == Reading(kind, raw, m.name)
  {
    if i == 0 || i == 1 || i == 6 || i == 7 {
      OtherReads(kind, raw, i);
    } else {
      TextReads(kind, raw, i);
    }
  }

  lemma NoAnnotations()
    ensures Zero(Struct(ANNOTATIONS)) == StructV(map[])
  {
    forall m | m in ANNOTATIONS ensures !m.mode.Always? {}
    NothingZero(ANNOTATIONS);
  }

  lemma {:induction false} NothingZero(ms: seq<Member>)
    requires forall m :: m in ms ==> !m.mode.Always?
    ensures ZeroFields(ms) == map[]
  {
    if ms != [] {
      assert ms[0] in ms;
      NothingZero(ms[1..]);
    }
  }

  // Exactly what is read of a block.
  lemma BlockRead(j: Json, i: nat)
    requires DecodeBlock(j).Some? && i < |BLOCK_NAMES|
    ensures var raw, b := if j.JObj? then j.fields else map[], DecodeBlock(j).value;
            && b.kind == (if "type" in raw && raw["type"].JStr? then raw["type"].s else "")
            && b.fields.Keys <= NamesOf(BlockMembers(b.kind))
            && Lookup(b.fields, BLOCK_NAMES[i]) == Reading(b.kind, raw, BLOCK_NAMES[i])
  {
    var raw, kind := if j.JObj? then j.fields else map[], DecodeBlock(j).value.kind;
    var ms := BlockMembers(kind);
    BlockNames(kind);
    BlockTable(kind);
    DecodedKeys(ms, raw);
    DecodedAt(ms, raw, i);
    MemberReads(kind, raw, i);
    hide BlockMembers, DecodeMembers, DecodeMember, Reading, BLOCK_NAMES;
  }

  // ---------------------------------------------------------------------------------------------
  // The structs inside

  predicate BadInteger(raw: map<string, Json>, name: string, lo: int, hi: int) {
    name in raw && !raw[name].JNull? && !(raw[name].JNum? && lo <= raw[name].n <= hi)
  }

  lemma IntegerRefuses(m: Member, raw: map<string, Json>)
    requires m.shape.Integer? && m.mode.Always?
    ensures DecodeMember(m, Lookup(raw, m.name)).None? <==> BadInteger(raw, m.name, m.shape.lo, m.shape.hi)
  {}

  predicate SetAlike(raw: map<string, Json>, fields: Fields, name: string) { name in fields <==> Given(raw, name) }

  lemma MemberSet(ms: seq<Member>, raw: map<string, Json>, i: nat)
    requires Apart(ms) && i < |ms| && DecodeMembers(ms, raw).Some? && (ms[i].mode.Strict? || ms[i].mode.Tolerant?)
    ensures SetAlike(raw, DecodeMembers(ms, raw).value, ms[i].name)
  {
    DecodedAt(ms, raw, i);
    PointerSet(ms[i], raw);
  }

  // Annotations are refused for their metadata only, and every other member that is there is set, but an
  // audience only when it is a list.
  lemma AnnotationsRead(raw: map<string, Json>)
    ensures DecodeMembers(ANNOTATIONS, raw).None? <==> BadObject(raw, "_meta")
    ensures DecodeMembers(ANNOTATIONS, raw).Some? ==>
              var f := DecodeMembers(ANNOTATIONS, raw).value;
              SetAlike(raw, f, "lastModified") && SetAlike(raw, f, "priority") && ("audience" in f <==> "audience" in raw && raw["audience"].JArr?)
  {
    AnnotationsTable();
    MembersRefuse(ANNOTATIONS, raw);
    ScalarRefuses(ANNOTATIONS[0], raw);
    ForgivingRefuses(ANNOTATIONS[1], raw);
    ForgivingRefuses(ANNOTATIONS[2], raw);
    ForgivingRefuses(ANNOTATIONS[3], raw);
    if DecodeMembers(ANNOTATIONS, raw).Some? {
      DecodedAt(ANNOTATIONS, raw, 1);
      PointerSet(ANNOTATIONS[1], raw);
      MemberSet(ANNOTATIONS, raw, 2);
      MemberSet(ANNOTATIONS, raw, 3);
    }
    hide DecodeMembers, DecodeMember, BadObject;
    assert |ANNOTATIONS| == 4;
  }

  // A state is refused for its name and its metadata only, and whatever else is there is set.
  lemma StateRead(raw: map<string, Json>)
    ensures DecodeMembers(STATE, raw).None? <==> BadText(raw, "state") || BadObject(raw, "_meta")
    ensures DecodeMembers(STATE, raw).Some? ==>
              var f := DecodeMembers(STATE, raw).value;
              SetAlike(raw, f, "error") && SetAlike(raw, f, "stopReason") && SetAlike(raw, f, "usage")
  {
    StateTable();
    hide ERROR, USAGE;
    MembersRefuse(STATE, raw);
    ScalarRefuses(STATE[0], raw);
    ScalarRefuses(STATE[1], raw);
    ForgivingRefuses(STATE[2], raw);
    assert DecodeMember(STATE[3], Lookup(raw, STATE[3].name)).Some?;
    ForgivingRefuses(STATE[4], raw);
    if DecodeMembers(STATE, raw).Some? {
      MemberSet(STATE, raw, 2);
      MemberSet(STATE, raw, 3);
      MemberSet(STATE, raw, 4);
    }
    hide DecodeMembers, DecodeMember, BadText, BadObject;
    assert |STATE| == 5;
  }

  // The error of a state is refused for its code or its message.
  lemma ErrorRead(raw: map<string, Json>)
    ensures DecodeMembers(ERROR, raw).None? <==> BadInteger(raw, "code", -0x8000_0000, 0x7fff_ffff) || BadText(raw, "message")
    ensures DecodeMembers(ERROR, raw).Some? ==> SetAlike(raw, DecodeMembers(ERROR, raw).value, "data")
  {
    ErrorTable();
    MembersRefuse(ERROR, raw);
    IntegerRefuses(ERROR[0], raw);
    ForgivingRefuses(ERROR[1], raw);
    ScalarRefuses(ERROR[2], raw);
    if DecodeMembers(ERROR, raw).Some? {
      MemberSet(ERROR, raw, 1);
    }
    hide DecodeMembers, DecodeMember, BadText, BadInteger;
    assert |ERROR| == 3;
  }

  predicate BadCount(raw: map<string, Json>, name: string) { BadInteger(raw, name, 0, 2 * TWO63 - 1) }

  // A usage is refused for its metadata or one of the three counts it must have.
  lemma UsageRead(raw: map<string, Json>)
    ensures DecodeMembers(USAGE, raw).None?
      <==> BadObject(raw, "_meta") || BadCount(raw, "inputTokens") || BadCount(raw, "outputTokens") || BadCount(raw, "totalTokens")
    ensures DecodeMembers(USAGE, raw).Some? ==>
              var f := DecodeMembers(USAGE, raw).value;
              SetAlike(raw, f, "cachedReadTokens") && SetAlike(raw, f, "cachedWriteTokens") && SetAlike(raw, f, "thoughtTokens")
  {
    UsageTable();
    MembersRefuse(USAGE, raw);
    ScalarRefuses(USAGE[0], raw);
    ForgivingRefuses(USAGE[1], raw);
    ForgivingRefuses(USAGE[2], raw);
    IntegerRefuses(USAGE[3], raw);
    IntegerRefuses(USAGE[4], raw);
    ForgivingRefuses(USAGE[5], raw);
    IntegerRefuses(USAGE[6], raw);
    if DecodeMembers(USAGE, raw).Some? {
      MemberSet(USAGE, raw, 1);
      MemberSet(USAGE, raw, 2);
      MemberSet(USAGE, raw, 5);
    }
    hide DecodeMembers, DecodeMember, BadObject, BadInteger;
    assert |USAGE| == 7;
  }

  lemma CapabilitiesRead(raw: map<string, Json>)
    ensures DecodeMembers(CAPABILITIES, raw).None? <==> BadObject(raw, "_meta")
    ensures DecodeMembers(CAPABILITIES, raw).Some? ==> SetAlike(raw, DecodeMembers(CAPABILITIES, raw).value, "cancel")
  {
    CapabilitiesTable();
    MembersRefuse(CAPABILITIES, raw);
    ScalarRefuses(CAPABILITIES[0], raw);
    ForgivingRefuses(CAPABILITIES[1], raw);
    if DecodeMembers(CAPABILITIES, raw).Some? {
      MemberSet(CAPABILITIES, raw, 1);
    }
    hide DecodeMembers, DecodeMember, BadObject, CANCEL;
    assert |CAPABILITIES| == 2;
  }
}
