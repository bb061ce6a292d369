// Patch objects whose optional fields have three states on the wire: left out, explicit null, or a
// value. The codecs of SessionMessage, SubagentUpdate and McpError are one algorithm over different
// tables of fields.
module Patches {
  import opened Wrappers
  import opened Messages
  import S = Structs
  import C = ContentBlocks

  // A list of content blocks, or a value of some shape.
  datatype Kind = ContentKind | ShapeKind(shape: S.Shape)

  // strict: a value that cannot be decoded fails the whole message instead of being left out.
  datatype Field = Field(name: string, kind: Kind, strict: bool)

  // The fields without a null state, which are always written.
  datatype PlainField = PlainField(name: string, number: bool)

  datatype Table = Table(plain: seq<PlainField>, fields: seq<Field>)

  const META := ShapeKind(S.Meta)
  const TEXT := ShapeKind(S.Text)

  const SESSION_MESSAGE := Table(
    [PlainField("messageId", false)],
    [Field("_meta", META, false), Field("content", ContentKind, false),
     Field("recipientMessageId", TEXT, false), Field("recipientSessionId", TEXT, false),
     Field("senderMessageId", TEXT, false), Field("senderSessionId", TEXT, false)])

  const SUBAGENT_UPDATE := Table(
    [PlainField("sessionId", false)],
    [Field("_meta", META, false), Field("additionalDirectories", ShapeKind(S.Texts), true),
     Field("capabilities", ShapeKind(S.Struct(C.CAPABILITIES)), false), Field("cwd", TEXT, true),
     Field("description", TEXT, false), Field("state", ShapeKind(S.Struct(C.STATE)), false), Field("title", TEXT, false)])

  const MCP_ERROR := Table(
    [PlainField("code", true), PlainField("message", false)],
    [Field("data", ShapeKind(S.Any), true)])

  // Content(None) is a pointer to a nil slice, which encodes as null.
  datatype Value = Content(items: Option<seq<C.Block>>) | Held(shape: S.Shape, value: S.Value)

  datatype Plain = PlainText(text: string) | PlainNumber(n: int)

  datatype Patch = Patch(plain: map<string, Plain>, values: map<string, Value>, nullFields: seq<string>)

  // ---------------------------------------------------------------------------------------------
  // Typed values

  predicate HasKind(v: Value, kind: Kind) {
    match kind
    case ContentKind => v.Content? && (v.items.Some? ==> forall b :: b in v.items.value ==> C.OfBlock(b))
    case ShapeKind(shape) => v.Held? && v.shape == shape && S.OfShape(shape, v.value)
  }

  predicate KindWellFormed(kind: Kind) { kind.ShapeKind? ==> S.WellFormed(kind.shape) }

  function EncodeBlocks(bs: seq<C.Block>): seq<Json> { seq(|bs|, i requires 0 <= i < |bs| => C.EncodeBlock(bs[i])) }

  function EncodeValue(v: Value): Json {
    match v
    case Content(None) => JNull
    case Content(Some(bs)) => JArr(EncodeBlocks(bs))
    case Held(shape, value) => S.Encode(shape, value)
  }

  // Blocks that cannot be decoded, or are of a type this version does not know, are dropped.
  function DecodeBlocks(js: seq<Json>): seq<C.Block> {
    if js == [] then []
    else
      var b := C.DecodeBlock(js[0]);
      (if b.Some? && b.value.kind in C.KNOWN_BLOCKS then [b.value] else []) + DecodeBlocks(js[1..])
  }

  function DecodeValue(kind: Kind, j: Json): Option<Value>
    requires j != JNull
  {
    match kind
    case ContentKind => if j.JArr? then Some(Content(Some(DecodeBlocks(j.items)))) else None
    case ShapeKind(shape) => match S.Decode(shape, j) case None => None case Some(v) => Some(Held(shape, v))
  }

  // What comes back of a value: blocks of known type, and everything in its normal form.
  function CleanBlocks(bs: seq<C.Block>): seq<C.Block> {
    if bs == [] then [] else (if bs[0].kind in C.KNOWN_BLOCKS then [C.NormalBlock(bs[0])] else []) + CleanBlocks(bs[1..])
  }

  function Clean(v: Value): Value {
    match v
    case Content(None) => v
    case Content(Some(bs)) => Content(Some(CleanBlocks(bs)))
    case Held(shape, value) => Held(shape, S.Normal(shape, value))
  }

  // The values that come back as they are.
  predicate Settled(v: Value) {
    match v
    case Content(o) => o.Some? && forall b :: b in o.value ==> b.kind in C.KNOWN_BLOCKS && C.FixedBlock(b)
    case Held(shape, value) => S.Fixed(shape, value)
  }

  lemma {:induction false} BlocksBack(bs: seq<C.Block>)
    requires forall b :: b in bs ==> C.OfBlock(b)
    ensures DecodeBlocks(EncodeBlocks(bs)) == CleanBlocks(bs)
  {
    if bs != [] {
      hide C.OfBlock, C.EncodeBlock, C.DecodeBlock, C.NormalBlock;
      assert EncodeBlocks(bs)[1..] == EncodeBlocks(bs[1..]);
      assert bs[0] in bs && EncodeBlocks(bs)[0] == C.EncodeBlock(bs[0]);
      C.BlockBack(bs[0]);
      assert C.NormalBlock(bs[0]).kind == bs[0].kind by { SameKind(bs[0]); }
      BlocksBack(bs[1..]);
    }
  }

  lemma SameKind(b: C.Block)
    ensures C.NormalBlock(b).kind == b.kind
  {}

  lemma ValueBack(kind: Kind, v: Value)
    requires KindWellFormed(kind) && HasKind(v, kind) && EncodeValue(v) != JNull
    ensures DecodeValue(kind, EncodeValue(v)) == Some(Clean(v))
  {
    match v
    case Content(Some(bs)) => BlocksBack(bs);
    case Held(shape, value) => S.Back(shape, value);
    case _ =>
  }

  predicate SettledBlock(b: C.Block) { b.kind in C.KNOWN_BLOCKS && C.FixedBlock(b) }

  lemma SettledCons(b: C.Block, rest: seq<C.Block>)
    ensures Settled(Content(Some([b] + rest))) <==> SettledBlock(b) && Settled(Content(Some(rest)))
  {
    hide C.FixedBlock;
    assert forall x :: x in [b] + rest <==> x == b || x in rest;
  }

  lemma ConsSame<T>(a: T, x: seq<T>, b: T, y: seq<T>)
    ensures [a] + x == [b] + y <==> a == b && x == y
  {
    if [a] + x == [b] + y {
      assert a == ([a] + x)[0] && b == ([b] + y)[0] && x == ([a] + x)[1..] && y == ([b] + y)[1..];
    }
  }

  lemma {:induction false} BlocksShow(bs: seq<C.Block>)
    requires forall b :: b in bs ==> C.OfBlock(b)
    ensures |CleanBlocks(bs)| <= |bs|
    ensures CleanBlocks(bs) == bs <==> Settled(Content(Some(bs)))
    ensures EncodeBlocks(CleanBlocks(bs)) == EncodeBlocks(bs) <==> Settled(Content(Some(bs)))
  {
    if bs != [] {
      assert bs[0] in bs && bs == [bs[0]] + bs[1..];
      BlocksShow(bs[1..]);
      C.BlockShows(bs[0]);
      BlocksShowCons(bs[0], bs[1..]);
    } else {
      assert forall b :: b !in bs;
    }
  }

  lemma BlocksShowCons(b: C.Block, rest: seq<C.Block>)
    requires C.NormalBlock(b) == b <==> C.FixedBlock(b)
    requires C.EncodeBlock(C.NormalBlock(b)) == C.EncodeBlock(b) <==> C.FixedBlock(b)
    requires |CleanBlocks(rest)| <= |rest|
    requires CleanBlocks(rest) == rest <==> Settled(Content(Some(rest)))
    requires EncodeBlocks(CleanBlocks(rest)) == EncodeBlocks(rest) <==> Settled(Content(Some(rest)))
    ensures |CleanBlocks([b] + rest)| <= |rest| + 1
    ensures CleanBlocks([b] + rest) == [b] + rest <==> Settled(Content(Some([b] + rest)))
    ensures EncodeBlocks(CleanBlocks([b] + rest)) == EncodeBlocks([b] + rest) <==> Settled(Content(Some([b] + rest)))
  {
    SettledCons(b, rest);
    hide C.EncodeBlock, C.NormalBlock, C.FixedBlock, C.KNOWN_BLOCKS, Settled;
    var n, clean := C.NormalBlock(b), CleanBlocks(rest);
    assert ([b] + rest)[1..] == rest;
    EncodeCons(b, rest);
    EncodeCons(n, clean);
    hide EncodeBlocks;
    if b.kind in C.KNOWN_BLOCKS {
      assert CleanBlocks([b] + rest) == [n] + clean;
      ConsSame(n, clean, b, rest);
      ConsSame(C.EncodeBlock(n), EncodeBlocks(clean), C.EncodeBlock(b), EncodeBlocks(rest));
    } else {
      assert CleanBlocks([b] + rest) == clean;
      EncodeLength(clean);
      EncodeLength([b] + rest);
    }
  }

  lemma EncodeCons(b: C.Block, rest: seq<C.Block>)
    ensures EncodeBlocks([b] + rest) == [C.EncodeBlock(b)] + EncodeBlocks(rest)
  {
    hide C.EncodeBlock;
  }

  lemma EncodeLength(bs: seq<C.Block>)
    ensures |EncodeBlocks(bs)| == |bs|
  {}

  // Exactly the settled values come back as they are, and exactly they are written the same again.
  lemma CleanShows(kind: Kind, v: Value)
    requires KindWellFormed(kind) && HasKind(v, kind) && EncodeValue(v) != JNull
    ensures EncodeValue(Clean(v)) == EncodeValue(v) <==> Settled(v)
    ensures Clean(v) == v <==> Settled(v)
    ensures EncodeValue(Clean(v)) != JNull
  {
    match v
    case Content(Some(bs)) => BlocksShow(bs);
    case Held(shape, value) => S.Shows(shape, value);
    case _ =>
  }

  // The same for the fields of the two messages, in terms a caller can check.
  lemma SettledContent(bs: seq<C.Block>)
    requires forall b :: b in bs ==> C.OfBlock(b)
    ensures Settled(Content(Some(bs))) <==> forall b :: b in bs ==> Known(b.kind) && C.Careful(b)
  {
    assert forall k: string :: k in C.KNOWN_BLOCKS <==> Known(k);
    forall b | b in bs ensures C.FixedBlock(b) <==> C.Careful(b) {
      C.CarefulBlocks(b);
    }
    hide C.FixedBlock, C.Careful, Known;
  }

  lemma SettledFields(f: Field, v: Value)
    requires (f in SUBAGENT_UPDATE.fields || f in SESSION_MESSAGE.fields) && HasKind(v, f.kind) && EncodeValue(v) != JNull && f.kind.ShapeKind?
    ensures Settled(v) <==> (f.kind.shape == S.Struct(C.STATE) ==> C.StateCareful(v.value))
  {
    if f.kind.shape == S.Struct(C.STATE) {
      C.StateFixed(v.value);
    } else if f.kind.shape == S.Struct(C.CAPABILITIES) {
      C.CapabilitiesFixed(v.value);
    }
  }

  // ---------------------------------------------------------------------------------------------
  // Encoding

  function NamesOf(fields: seq<Field>): set<string> { set f | f in fields :: f.name }

  function FieldNames(t: Table): set<string> { NamesOf(t.fields) }

  function PlainNames(t: Table): set<string> { set f | f in t.plain :: f.name }

  predicate WellFormed(t: Table) {
    && (forall f, g :: f in t.fields && g in t.fields && f.name == g.name ==> f == g)
    && (forall f, g :: f in t.plain && g in t.plain && f.name == g.name ==> f == g)
    && FieldNames(t) !! PlainNames(t)
    && (forall f :: f in t.fields ==> KindWellFormed(f.kind))
  }

  const INT32_MAX := 0x7fff_ffff

  predicate PlainTyped(f: PlainField, x: Plain) {
    if f.number then x.PlainNumber? && -INT32_MAX - 1 <= x.n <= INT32_MAX else x.PlainText?
  }

  // The values the Go types allow; NullFields may hold any strings in any order.
  predicate Typed(t: Table, p: Patch) {
    && p.plain.Keys == PlainNames(t) && (forall f :: f in t.plain ==> PlainTyped(f, p.plain[f.name]))
    && p.values.Keys <= FieldNames(t) && (forall f :: f in t.fields && f.name in p.values ==> HasKind(p.values[f.name], f.kind))
  }

  // The three states of a field.
  datatype Slot = Omitted | Null | Set(value: Value)

  function SlotOf(p: Patch, name: string): Slot {
    if name in p.nullFields then Null
    else if name !in p.values then Omitted
    else if EncodeValue(p.values[name]) == JNull then Null
    else Set(p.values[name])
  }

  function EncodePlain(x: Plain): Json {
    match x
    case PlainText(s) => JStr(s)
    case PlainNumber(n) => JNum(n)
  }

  function EncodeSlot(s: Slot): Json
    requires s != Omitted
  {
    if s.Null? then JNull else EncodeValue(s.value)
  }

  // What is on the wire: the plain fields, and every field that is not omitted.
  function Encode(t: Table, p: Patch): map<string, Json>
    requires p.plain.Keys == PlainNames(t)
  {
    map name | name in PlainNames(t) + FieldNames(t) && (name in PlainNames(t) || SlotOf(p, name) != Omitted)
      :: if name in PlainNames(t) then EncodePlain(p.plain[name]) else EncodeSlot(SlotOf(p, name))
  }

  // MarshalJSON: first the values that are set, then the null marks over them.
  method Marshal(t: Table, p: Patch) returns (j: Json)
    requires WellFormed(t) && Typed(t, p)
    ensures j == JObj(Encode(t, p))
  {
    hide EncodeValue, EncodePlain, Encode, SlotOf;
    var values := WriteValues(t.fields, p.values);
    var w := MarkNulls(t.fields, p.nullFields, values);
    var plain := map name | name in p.plain :: EncodePlain(p.plain[name]);
    forall name | name in FieldNames(t)
      ensures (name in w <==> SlotOf(p, name) != Omitted) && (name in w ==> w[name] == EncodeSlot(SlotOf(p, name)))
    {
      WrittenIsSlot(t, p, name, values, w);
    }
    WireIsEncode(t, p, plain, w);
    return JObj(plain + w);
  }

  lemma WrittenIsSlot(t: Table, p: Patch, name: string, values: map<string, Json>, w: map<string, Json>)
    requires name in FieldNames(t)
    requires name in values <==> name in p.values
    requires name in values ==> values[name] == EncodeValue(p.values[name])
    requires name in w <==> name in values || name in p.nullFields
    requires name in w ==> w[name] == if name in p.nullFields then JNull else values[name]
    ensures (name in w <==> SlotOf(p, name) != Omitted) && (name in w ==> w[name] == EncodeSlot(SlotOf(p, name)))
  {}

  lemma WireIsEncode(t: Table, p: Patch, plain: map<string, Json>, w: map<string, Json>)
    requires WellFormed(t) && p.plain.Keys == PlainNames(t) && w.Keys <= FieldNames(t)
    requires forall name :: name in FieldNames(t) ==> (name in w <==> SlotOf(p, name) != Omitted) && (name in w ==> w[name] == EncodeSlot(SlotOf(p, name)))
    requires plain == map name | name in p.plain :: EncodePlain(p.plain[name])
    ensures plain + w == Encode(t, p)
  {
    hide EncodePlain, SlotOf, EncodeSlot, FieldNames, PlainNames;
  }

  method WriteValues(fields: seq<Field>, values: map<string, Value>) returns (w: map<string, Json>)
    ensures w.Keys == values.Keys * NamesOf(fields)
    ensures forall name :: name in w ==> w[name] == EncodeValue(values[name])
  {
    w := map[];
    for i := 0 to |fields|
      invariant w.Keys == values.Keys * NamesOf(fields[..i])
      invariant forall name :: name in w ==> w[name] == EncodeValue(values[name])
    {
      hide EncodeValue;
      assert fields[..i + 1] == fields[..i] + [fields[i]];
      if fields[i].name in values {
        w := w[fields[i].name := EncodeValue(values[fields[i].name])];
      }
    }
    assert fields[..|fields|] == fields;
  }

  method MarkNulls(fields: seq<Field>, nullFields: seq<string>, values: map<string, Json>) returns (w: map<string, Json>)
    ensures forall name :: name in w <==> name in values || (name in NamesOf(fields) && name in nullFields)
    ensures forall name :: name in w ==> w[name] == if name in NamesOf(fields) && name in nullFields then JNull else values[name]
  {
    w := values;
    for i := 0 to |fields|
      invariant forall name :: name in w <==> name in values || (name in NamesOf(fields[..i]) && name in nullFields)
      invariant forall name :: name in w ==> w[name] == if name in NamesOf(fields[..i]) && name in nullFields then JNull else values[name]
    {
      assert fields[..i + 1] == fields[..i] + [fields[i]];
      if fields[i].name in nullFields {
        w := w[fields[i].name := JNull];
      }
    }
    assert fields[..|fields|] == fields;
  }

  // ---------------------------------------------------------------------------------------------
  // Decoding

  // The names of the fields in table order, restricted to a set.
  function InOrder(fields: seq<Field>, names: set<string>): seq<string> {
    if fields == [] then []
    else
      var last := fields[|fields| - 1];
      InOrder(fields[..|fields| - 1], names) + if last.name in names then [last.name] else []
  }

  function NullNames(m: map<string, Json>): set<string> { set name | name in m && m[name] == JNull }

  predicate Present(name: string, m: map<string, Json>) { name in m && m[name] != JNull }

  predicate Readable(f: Field, m: map<string, Json>) { Present(f.name, m) && DecodeValue(f.kind, m[f.name]).Some? }

  predicate Undecodable(f: Field, m: map<string, Json>) { f.strict && Present(f.name, m) && DecodeValue(f.kind, m[f.name]).None? }

  // A plain field that is absent or null stays at its zero value.
  function ReadPlain(f: PlainField, m: map<string, Json>): Option<Plain> {
    if !Present(f.name, m) then Some(if f.number then PlainNumber(0) else PlainText(""))
    else match m[f.name]
      case JNum(n) => if f.number && -INT32_MAX - 1 <= n <= INT32_MAX then Some(PlainNumber(n)) else None
      case JStr(s) => if f.number then None else Some(PlainText(s))
      case _ => None
  }

  predicate DecodeFails(t: Table, m: map<string, Json>) {
    (exists f :: f in t.plain && ReadPlain(f, m).None?) || (exists f :: f in t.fields && Undecodable(f, m))
  }

  function MembersOf(j: Json): Option<map<string, Json>> {
    match j
    case JObj(m) => Some(m)
    case JNull => Some(map[])
    case _ => None
  }

  // What the decoder makes of a message; None is an error.
  function Decode(t: Table, j: Json): Option<Patch> {
    match MembersOf(j)
    case None => None
    case Some(m) =>
      var plain, values := DecodePlain(t.plain, m), DecodeFields(t.fields, m);
      if plain.None? || values.None? then None
      else Some(Patch(plain.value, values.value, InOrder(t.fields, NullNames(m))))
  }

  function DecodePlain(fs: seq<PlainField>, m: map<string, Json>): Option<map<string, Plain>> {
    if fs == [] then Some(map[])
    else
      var f, rest := fs[|fs| - 1], DecodePlain(fs[..|fs| - 1], m);
      if rest.None? || ReadPlain(f, m).None? then None else Some(rest.value[f.name := ReadPlain(f, m).value])
  }

  // None is an error, Some(None) leaves the field unset.
  function ReadField(f: Field, m: map<string, Json>): Option<Option<Value>> {
    if !Present(f.name, m) then Some(None)
    else match DecodeValue(f.kind, m[f.name])
      case Some(v) => Some(Some(v))
      case None => if f.strict then None else Some(None)
  }

  function DecodeFields(fs: seq<Field>, m: map<string, Json>): Option<map<string, Value>> {
    if fs == [] then Some(map[])
    else
      var f, rest := fs[|fs| - 1], DecodeFields(fs[..|fs| - 1], m);
      match ReadField(f, m)
      case None => None
      case Some(None) => rest
      case Some(Some(v)) => if rest.None? then None else Some(rest.value[f.name := v])
  }

  // The fields one by one: readable ones are set, an undecodable strict one is an error.
  ghost predicate EachRead(fs: seq<Field>, m: map<string, Json>, r: Option<map<string, Value>>) {
    && (r.None? <==> exists f :: f in fs && Undecodable(f, m))
    && (r.Some? ==> r.value.Keys <= NamesOf(fs))
    && (r.Some? ==> forall f :: f in fs ==> (f.name in r.value <==> Readable(f, m)))
    && (r.Some? ==> forall f :: f in fs && Readable(f, m) ==> r.value[f.name] == DecodeValue(f.kind, m[f.name]).value)
  }

  lemma ReadMeans(f: Field, m: map<string, Json>)
    ensures ReadField(f, m).None? <==> Undecodable(f, m)
    ensures ReadField(f, m).Some? ==> (ReadField(f, m).value.Some? <==> Readable(f, m))
    ensures Readable(f, m) ==> ReadField(f, m) == Some(Some(DecodeValue(f.kind, m[f.name]).value))
  {}

  lemma {:induction false} DecodesEach(fs: seq<Field>, m: map<string, Json>)
    requires forall f, g :: f in fs && g in fs && f.name == g.name ==> f == g
    ensures EachRead(fs, m, DecodeFields(fs, m))
  {
    if fs != [] {
      var f, rest := fs[|fs| - 1], fs[..|fs| - 1];
      assert fs == rest + [f] && forall g :: g in fs <==> g in rest || g == f;
      DecodesEach(rest, m);
      hide EachRead, ReadField;
      EachReadSnoc(rest, f, m, DecodeFields(rest, m));
    }
  }

  function Add(r: Option<map<string, Value>>, name: string, o: Option<Option<Value>>): Option<map<string, Value>> {
    match o
    case None => None
    case Some(None) => r
    case Some(Some(v)) => if r.None? then None else Some(r.value[name := v])
  }

  lemma EachReadSnoc(rest: seq<Field>, f: Field, m: map<string, Json>, r: Option<map<string, Value>>)
    requires EachRead(rest, m, r) && forall g :: g in rest && g.name == f.name ==> g == f
    ensures EachRead(rest + [f], m, Add(r, f.name, ReadField(f, m)))
  {
    ReadMeans(f, m);
    hide DecodeValue, Undecodable, ReadField;
    var fs := rest + [f];
    assert forall g :: g in fs <==> g in rest || g == f;
    assert NamesOf(fs) == NamesOf(rest) + {f.name};
    assert Readable(f, m) ==> Present(f.name, m) by { ReadablePresent(f, m); }
    hide Readable;
  }

  lemma ReadablePresent(f: Field, m: map<string, Json>)
    ensures Readable(f, m) ==> Present(f.name, m)
  {}

  // One more field.
  lemma DecodePlainAt(fs: seq<PlainField>, i: nat, m: map<string, Json>)
    requires i < |fs|
    ensures var rest := DecodePlain(fs[..i], m);
            DecodePlain(fs[..i + 1], m) == if rest.None? || ReadPlain(fs[i], m).None? then None else Some(rest.value[fs[i].name := ReadPlain(fs[i], m).value])
  {
    hide ReadPlain;
    assert fs[..i + 1][..i] == fs[..i] && fs[..i + 1][i] == fs[i];
  }

  lemma DecodeFieldsAt(fs: seq<Field>, i: nat, m: map<string, Json>)
    requires i < |fs|
    ensures DecodeFields(fs[..i + 1], m) == Add(DecodeFields(fs[..i], m), fs[i].name, ReadField(fs[i], m))
    ensures InOrder(fs[..i + 1], NullNames(m))
         == InOrder(fs[..i], NullNames(m)) + if fs[i].name in m && m[fs[i].name] == JNull then [fs[i].name] else []
  {
    hide ReadField;
    assert fs[..i + 1][..i] == fs[..i] && fs[..i + 1][i] == fs[i];
  }

  lemma {:induction false} PlainFailsOn(fs: seq<PlainField>, i: nat, m: map<string, Json>)
    requires i <= |fs| && DecodePlain(fs[..i], m).None?
    ensures DecodePlain(fs, m).None?
    decreases |fs|
  {
    if i == |fs| {
      assert fs[..i] == fs;
    } else {
      assert fs[..|fs| - 1][..i] == fs[..i];
      PlainFailsOn(fs[..|fs| - 1], i, m);
    }
  }

  lemma {:induction false} FieldsFailOn(fs: seq<Field>, i: nat, m: map<string, Json>)
    requires i <= |fs| && DecodeFields(fs[..i], m).None?
    ensures DecodeFields(fs, m).None?
    decreases |fs|
  {
    if i == |fs| {
      assert fs[..i] == fs;
    } else {
      assert fs[..|fs| - 1][..i] == fs[..i];
      FieldsFailOn(fs[..|fs| - 1], i, m);
    }
  }

  ghost predicate Decoded(t: Table, m: map<string, Json>, p: Patch) {
    && p.plain.Keys == PlainNames(t) && (forall f :: f in t.plain ==> Some(p.plain[f.name]) == ReadPlain(f, m))
    && p.values.Keys <= FieldNames(t)
    && (forall f :: f in t.fields ==> (f.name in p.values <==> Readable(f, m)))
    && (forall f :: f in t.fields && Readable(f, m) ==> p.values[f.name] == DecodeValue(f.kind, m[f.name]).value)
    && p.nullFields == InOrder(t.fields, NullNames(m))
  }

  method Unmarshal(t: Table, j: Json) returns (r: Option<Patch>)
    requires WellFormed(t)
    ensures r.None? <==> MembersOf(j).None? || DecodeFails(t, MembersOf(j).value)
    ensures r.Some? ==> Decoded(t, MembersOf(j).value, r.value)
    ensures r == Decode(t, j)
  {
    if MembersOf(j).None? {
      return None;
    }
    var m := MembersOf(j).value;
    var plain := ReadPlains(t, m);
    if plain.None? {
      return None;
    }
    var values, nullFields := ReadFields(t, m);
    if values.None? {
      return None;
    }
    return Some(Patch(plain.value, values.value, nullFields));
  }

  ghost predicate EachPlain(fs: seq<PlainField>, m: map<string, Json>, r: Option<map<string, Plain>>) {
    && (r.None? <==> exists f :: f in fs && ReadPlain(f, m).None?)
    && (r.Some? ==> r.value.Keys == set f | f in fs :: f.name)
    && (r.Some? ==> forall f :: f in fs ==> Some(r.value[f.name]) == ReadPlain(f, m))
  }

  lemma {:induction false} DecodesPlain(fs: seq<PlainField>, m: map<string, Json>)
    requires forall f, g :: f in fs && g in fs && f.name == g.name ==> f == g
    ensures EachPlain(fs, m, DecodePlain(fs, m))
  {
    if fs != [] {
      hide ReadPlain;
      var f, rest := fs[|fs| - 1], fs[..|fs| - 1];
      assert fs == rest + [f] && forall g :: g in fs <==> g in rest || g == f;
      DecodesPlain(rest, m);
    }
  }

  method ReadPlains(t: Table, m: map<string, Json>) returns (r: Option<map<string, Plain>>)
    requires WellFormed(t)
    ensures EachPlain(t.plain, m, r) && r == DecodePlain(t.plain, m)
  {
    hide EachPlain, ReadPlain, DecodePlain;
    DecodesPlain(t.plain, m);
    assert DecodePlain([], m) == Some(map[]) by { NoneDecoded(m); }
    assert t.plain[..0] == [];
    var plain: map<string, Plain> := map[];
    for i := 0 to |t.plain|
      invariant DecodePlain(t.plain[..i], m) == Some(plain)
    {
      var f := t.plain[i];
      DecodePlainAt(t.plain, i, m);
      var x := ReadPlain(f, m);
      if x.None? {
        PlainFailsOn(t.plain, i + 1, m);
        return None;
      }
      plain := plain[f.name := x.value];
    }
    assert t.plain[..|t.plain|] == t.plain;
    return Some(plain);
  }

  method ReadFields(t: Table, m: map<string, Json>) returns (r: Option<map<string, Value>>, nullFields: seq<string>)
    requires WellFormed(t)
    ensures EachRead(t.fields, m, r) && (r.Some? ==> nullFields == InOrder(t.fields, NullNames(m)))
    ensures r == DecodeFields(t.fields, m)
  {
    hide EachRead, DecodeValue, ReadField, InOrder, NullNames, DecodeFields;
    DecodesEach(t.fields, m);
    assert DecodeFields([], m) == Some(map[]) by { NoneDecoded(m); }
    assert t.fields[..0] == [];
    var values: map<string, Value> := map[];
    nullFields := [];
    NoneInOrder(NullNames(m));
    for i := 0 to |t.fields|
      invariant DecodeFields(t.fields[..i], m) == Some(values)
      invariant nullFields == InOrder(t.fields[..i], NullNames(m))
    {
      var f := t.fields[i];
      DecodeFieldsAt(t.fields, i, m);
      NullReadsNothing(f, m);
      if f.name in m && m[f.name] == JNull {
        nullFields := nullFields + [f.name];
      } else {
        match ReadField(f, m) {
          case None =>
            FieldsFailOn(t.fields, i + 1, m);
            return None, nullFields;
          case Some(None) =>
          case Some(Some(v)) => values := values[f.name := v];
        }
      }
    }
    assert t.fields[..|t.fields|] == t.fields;
    return Some(values), nullFields;
  }

  lemma NoneDecoded(m: map<string, Json>)
    ensures DecodePlain([], m) == Some(map[]) && DecodeFields([], m) == Some(map[])
  {}

  lemma NullReadsNothing(f: Field, m: map<string, Json>)
    ensures f.name in m && m[f.name] == JNull ==> ReadField(f, m) == Some(None)
  {}

  lemma NoneInOrder(names: set<string>)
    ensures InOrder([], names) == []
  {}

  // ---------------------------------------------------------------------------------------------
  // Round trips

  function NullSlots(t: Table, p: Patch): set<string> { set name | name in FieldNames(t) && SlotOf(p, name) == Null }

  // The value with one representation per wire state: null marks in table order without repeats or
  // unknown names, no value under a null mark, no value that would encode as null, no dropped blocks.
  function Canon(t: Table, p: Patch): Patch {
    Patch(p.plain,
          map name | name in FieldNames(t) && SlotOf(p, name).Set? :: Clean(SlotOf(p, name).value),
          InOrder(t.fields, NullSlots(t, p)))
  }

  lemma {:induction false} InOrderHolds(fields: seq<Field>, names: set<string>)
    ensures forall name :: name in InOrder(fields, names) <==> name in names && exists f :: f in fields && f.name == name
  {
    if fields != [] {
      InOrderHolds(fields[..|fields| - 1], names);
      assert forall f :: f in fields <==> f in fields[..|fields| - 1] || f == fields[|fields| - 1];
    }
  }

  lemma {:induction false} InOrderSame(fields: seq<Field>, a: set<string>, b: set<string>)
    requires forall f :: f in fields ==> (f.name in a <==> f.name in b)
    ensures InOrder(fields, a) == InOrder(fields, b)
  {
    if fields != [] {
      InOrderSame(fields[..|fields| - 1], a, b);
    }
  }

  // Omitted, null and value stay apart.
  lemma SlotsSurvive(t: Table, p: Patch, name: string)
    requires WellFormed(t) && Typed(t, p) && name in FieldNames(t)
    ensures SlotOf(Canon(t, p), name) == match SlotOf(p, name)
      case Set(v) => Set(Clean(v))
      case other => other
  {
    InOrderHolds(t.fields, NullSlots(t, p));
    if SlotOf(p, name).Set? {
      var f :| f in t.fields && f.name == name;
      CleanShows(f.kind, p.values[name]);
    }
  }

  lemma SlotBack(t: Table, p: Patch, f: Field)
    requires WellFormed(t) && Typed(t, p) && f in t.fields
    ensures (f.name in Encode(t, p) <==> SlotOf(p, f.name) != Omitted)
    ensures f.name in Encode(t, p) ==> (Encode(t, p)[f.name] == JNull <==> SlotOf(p, f.name).Null?)
    ensures SlotOf(p, f.name).Set? ==> Readable(f, Encode(t, p)) && DecodeValue(f.kind, Encode(t, p)[f.name]) == Some(Clean(SlotOf(p, f.name).value))
    ensures !Undecodable(f, Encode(t, p)) && (Readable(f, Encode(t, p)) <==> SlotOf(p, f.name).Set?)
  {
    assert f.name in FieldNames(t);
    if SlotOf(p, f.name).Set? {
      ValueBack(f.kind, p.values[f.name]);
    }
  }

  // What the decoder finds of every field.
  ghost predicate Found(t: Table, p: Patch, m: map<string, Json>) {
    && (forall f :: f in t.fields ==> !Undecodable(f, m) && (Readable(f, m) <==> SlotOf(p, f.name).Set?))
    && (forall f :: f in t.fields && Readable(f, m) ==> DecodeValue(f.kind, m[f.name]) == Some(Clean(SlotOf(p, f.name).value)))
    && (forall f :: f in t.fields ==> (f.name in NullNames(m) <==> f.name in NullSlots(t, p)))
    && (forall f :: f in t.plain && f.name in p.plain ==> ReadPlain(f, m) == Some(p.plain[f.name]))
  }

  lemma EncodeIsFound(t: Table, p: Patch)
    requires WellFormed(t) && Typed(t, p)
    ensures Found(t, p, Encode(t, p))
  {
    var m := Encode(t, p);
    forall f | f in t.fields
      ensures !Undecodable(f, m) && (Readable(f, m) <==> SlotOf(p, f.name).Set?)
      ensures Readable(f, m) ==> DecodeValue(f.kind, m[f.name]) == Some(Clean(SlotOf(p, f.name).value))
      ensures f.name in NullNames(m) <==> f.name in NullSlots(t, p)
    {
      hide DecodeValue, Clean, EncodeValue, WellFormed, Typed, Encode, SlotOf, EncodeSlot, Readable, Undecodable;
      SlotBack(t, p, f);
      assert f.name in FieldNames(t);
    }
    forall f | f in t.plain && f.name in p.plain ensures ReadPlain(f, m) == Some(p.plain[f.name]) {
      assert f.name in PlainNames(t);
    }
  }

  lemma FoundIsCanon(t: Table, p: Patch, m: map<string, Json>, r: Patch)
    requires Typed(t, p) && Found(t, p, m) && Decoded(t, m, r)
    ensures r == Canon(t, p)
  {
    hide DecodeValue, Clean, EncodeValue, InOrder, SlotOf, Readable, Undecodable, ReadPlain;
    InOrderSame(t.fields, NullNames(m), NullSlots(t, p));
    assert r.plain == p.plain;
    assert r.values == Canon(t, p).values;
  }

  lemma NothingFails(t: Table, p: Patch, m: map<string, Json>)
    requires Typed(t, p) && Found(t, p, m)
    ensures !DecodeFails(t, m)
  {
    hide DecodeValue, Clean, EncodeValue, SlotOf, Readable, Undecodable, ReadPlain;
    forall f | f in t.plain ensures f.name in p.plain {
      assert f.name in PlainNames(t);
    }
  }

  lemma PlainKeys(t: Table, p: Patch)
    requires Typed(t, p)
    ensures p.plain.Keys == PlainNames(t)
  {}

  // What the decoder returns is what its contract says of the fields one by one.
  lemma DecodeMeans(t: Table, m: map<string, Json>)
    requires WellFormed(t)
    ensures Decode(t, JObj(m)).None? <==> DecodeFails(t, m)
    ensures Decode(t, JObj(m)).Some? ==> Decoded(t, m, Decode(t, JObj(m)).value)
  {
    DecodesPlain(t.plain, m);
    DecodesEach(t.fields, m);
    hide DecodePlain, DecodeFields, InOrder, Undecodable, Readable, ReadPlain, DecodeValue;
  }

  // decode(encode(v)) is the canonical form of v.
  lemma DecodesBack(t: Table, p: Patch)
    requires WellFormed(t) && Typed(t, p)
    ensures p.plain.Keys == PlainNames(t) && Decode(t, JObj(Encode(t, p))) == Some(Canon(t, p))
  {
    assert p.plain.Keys == PlainNames(t) by { PlainKeys(t, p); }
    EncodeIsFound(t, p);
    DecodeMeans(t, Encode(t, p));
    hide Encode, Canon, Decoded, Typed, WellFormed, Undecodable, ReadPlain, Decode;
    NothingFails(t, p, Encode(t, p));
    FoundIsCanon(t, p, Encode(t, p), Decode(t, JObj(Encode(t, p))).value);
  }

  method RoundTrip(t: Table, p: Patch) returns (r: Option<Patch>)
    requires WellFormed(t) && Typed(t, p)
    ensures r == Some(Canon(t, p))
  {
    hide Encode, Canon, Decoded, Typed, WellFormed, Undecodable, ReadPlain, Decode;
    var j := Marshal(t, p);
    r := Unmarshal(t, j);
    DecodesBack(t, p);
  }

  // What the fields show: each is written the same again exactly when its value is settled.
  ghost predicate SlotsShow(t: Table, p: Patch) {
    forall name :: name in FieldNames(t) ==>
      && (SlotOf(Canon(t, p), name) != Omitted <==> SlotOf(p, name) != Omitted)
      && (SlotOf(p, name) != Omitted ==>
            (EncodeSlot(SlotOf(Canon(t, p), name)) == EncodeSlot(SlotOf(p, name)) <==> (SlotOf(p, name).Set? ==> Settled(SlotOf(p, name).value))))
  }

  lemma AllSlotsShow(t: Table, p: Patch)
    requires WellFormed(t) && Typed(t, p)
    ensures SlotsShow(t, p)
  {
    forall name | name in FieldNames(t)
      ensures SlotOf(Canon(t, p), name) != Omitted <==> SlotOf(p, name) != Omitted
      ensures SlotOf(p, name) != Omitted ==>
        (EncodeSlot(SlotOf(Canon(t, p), name)) == EncodeSlot(SlotOf(p, name)) <==> (SlotOf(p, name).Set? ==> Settled(SlotOf(p, name).value)))
    {
      SlotsSurvive(t, p, name);
      if SlotOf(p, name).Set? {
        var f :| f in t.fields && f.name == name;
        CleanShows(f.kind, p.values[name]);
      }
      hide Canon, Settled, Clean, EncodeValue;
    }
  }

  // encode(decode(encode(v))) is encode(v) exactly when every value that is written is settled.
  lemma EncodesTheSameAgain(t: Table, p: Patch)
    requires WellFormed(t) && Typed(t, p)
    ensures Encode(t, Canon(t, p)) == Encode(t, p) <==> forall name :: name in FieldNames(t) && SlotOf(p, name).Set? ==> Settled(SlotOf(p, name).value)
  {
    hide EncodeValue, Clean, InOrder, Settled;
    var c := Canon(t, p);
    AllSlotsShow(t, p);
    hide SlotOf;
    assert Encode(t, c).Keys == Encode(t, p).Keys;
    forall name | name in FieldNames(t) && name in Encode(t, p)
      ensures Encode(t, p)[name] == EncodeSlot(SlotOf(p, name)) && Encode(t, c)[name] == EncodeSlot(SlotOf(c, name)) {}
  }

  // The exact conditions for SessionMessage, in terms of its content: the blocks are of known types and
  // careful.
  lemma SessionMessageExact(p: Patch)
    requires Typed(SESSION_MESSAGE, p)
    ensures Encode(SESSION_MESSAGE, Canon(SESSION_MESSAGE, p)) == Encode(SESSION_MESSAGE, p) <==> ContentCareful(p)
  {
    SessionMessageTable();
    ContentIsField();
    hide SESSION_MESSAGE, WellFormed, Typed, Encode, Canon, Settled, ContentCareful, EncodeValue;
    EncodesTheSameAgain(SESSION_MESSAGE, p);
    forall name | name in FieldNames(SESSION_MESSAGE) && SlotOf(p, name).Set?
      ensures Settled(SlotOf(p, name).value) <==> (name == "content" ==> ContentCareful(p))
    {
      var f :| f in SESSION_MESSAGE.fields && f.name == name;
      SessionField(p, f);
    }
    assert !SlotOf(p, "content").Set? ==> ContentCareful(p) by { NoContent(p); }
  }

  lemma ContentIsField()
    ensures "content" in FieldNames(SESSION_MESSAGE)
  {
    assert SESSION_MESSAGE.fields[1] in SESSION_MESSAGE.fields && SESSION_MESSAGE.fields[1].name == "content";
  }

  lemma NoContent(p: Patch)
    ensures !SlotOf(p, "content").Set? ==> ContentCareful(p)
  {}

  predicate ContentCareful(p: Patch) {
    SlotOf(p, "content").Set? && p.values["content"].Content? && p.values["content"].items.Some? ==>
      forall b :: b in p.values["content"].items.value ==> Known(b.kind) && C.Careful(b)
  }

  predicate Known(kind: string) {
    kind == "text" || kind == "image" || kind == "audio" || kind == "resource_link" || kind == "resource"
  }

  lemma SessionField(p: Patch, f: Field)
    requires Typed(SESSION_MESSAGE, p) && f in SESSION_MESSAGE.fields && SlotOf(p, f.name).Set?
    ensures Settled(p.values[f.name]) <==> (f.name == "content" ==> ContentCareful(p))
  {
    var v := p.values[f.name];
    assert HasKind(v, f.kind);
    ContentFieldIsOne(f);
    hide SESSION_MESSAGE, Typed, Settled, Known, C.Careful, ReadPlain, DecodeValue, EncodeValue;
    if f.kind.ContentKind? {
      SettledContent(v.items.value);
    } else {
      SettledFields(f, v);
    }
  }

  lemma ContentFieldIsOne(f: Field)
    requires f in SESSION_MESSAGE.fields
    ensures f.name == "content" <==> f.kind.ContentKind?
    ensures f.kind.ShapeKind? ==> f.kind.shape != S.Struct(C.STATE)
  {
    SessionMessageTable();
    assert SESSION_MESSAGE.fields[1] in SESSION_MESSAGE.fields;
  }

  // For SubagentUpdate: the state has no stop reason or error data that encodes as null.
  lemma SubagentUpdateExact(p: Patch)
    requires Typed(SUBAGENT_UPDATE, p)
    ensures Encode(SUBAGENT_UPDATE, Canon(SUBAGENT_UPDATE, p)) == Encode(SUBAGENT_UPDATE, p)
      <==> (SlotOf(p, "state").Set? && p.values["state"].Held? ==> C.StateCareful(p.values["state"].value))
  {
    SubagentUpdateTable();
    StateIsField();
    hide SUBAGENT_UPDATE, WellFormed, Typed, Encode, Canon, Settled, C.StateCareful, EncodeValue;
    EncodesTheSameAgain(SUBAGENT_UPDATE, p);
    forall name | name in FieldNames(SUBAGENT_UPDATE) && SlotOf(p, name).Set?
      ensures p.values[name].Held? && (Settled(SlotOf(p, name).value) <==> (name == "state" ==> C.StateCareful(p.values[name].value)))
    {
      var f :| f in SUBAGENT_UPDATE.fields && f.name == name;
      UpdateField(p, f);
    }
  }

  lemma StateIsField()
    ensures "state" in FieldNames(SUBAGENT_UPDATE)
  {
    assert SUBAGENT_UPDATE.fields[5] in SUBAGENT_UPDATE.fields && SUBAGENT_UPDATE.fields[5].name == "state";
  }

  lemma UpdateField(p: Patch, f: Field)
    requires Typed(SUBAGENT_UPDATE, p) && f in SUBAGENT_UPDATE.fields && SlotOf(p, f.name).Set?
    ensures p.values[f.name].Held?
    ensures Settled(p.values[f.name]) <==> (f.name == "state" ==> C.StateCareful(p.values[f.name].value))
  {
    var v := p.values[f.name];
    assert HasKind(v, f.kind);
    StateFieldIsOne(f);
    hide SUBAGENT_UPDATE, Typed, Settled;
    SettledFields(f, v);
  }

  lemma StateFieldIsOne(f: Field)
    requires f in SUBAGENT_UPDATE.fields
    ensures f.kind.ShapeKind? && (f.name == "state" <==> f.kind.shape == S.Struct(C.STATE))
  {
    SubagentUpdateTable();
    assert |C.STATE| != |C.CAPABILITIES|;
    hide C.STATE, C.CAPABILITIES;
    assert SUBAGENT_UPDATE.fields[5] in SUBAGENT_UPDATE.fields;
  }

  // A message with an image that has no MIME type is typed, has no null mark and no null value, and is
  // still neither returned unchanged nor written the same again.
  lemma ImageMessage(id: string, data: string)
    requires data != ""
    ensures var b := C.Block("image", map["data" := S.TextV(data)]);
            var p := Patch(map["messageId" := PlainText(id)], map["content" := Content(Some([b]))], []);
            && Typed(SESSION_MESSAGE, p)
            && Canon(SESSION_MESSAGE, p) != p && Encode(SESSION_MESSAGE, Canon(SESSION_MESSAGE, p)) != Encode(SESSION_MESSAGE, p)
  {
    var b := C.Block("image", map["data" := S.TextV(data)]);
    var p := Patch(map["messageId" := PlainText(id)], map["content" := Content(Some([b]))], []);
    C.ImageWithoutMimeType(data);
    hide C.OfBlock, C.Careful, C.EncodeBlock, C.NormalBlock, SESSION_MESSAGE, Canon, Encode;
    assert HasKind(p.values["content"], ContentKind);
    assert !ContentCareful(p) by { assert b in p.values["content"].items.value; }
    hide Typed, ContentCareful, HasKind, SlotOf;
    ContentOnly(p);
    SessionMessageExact(p);
  }

  lemma ContentNames()
    ensures PlainNames(SESSION_MESSAGE) == {"messageId"} && "content" in FieldNames(SESSION_MESSAGE)
    ensures forall f :: f in SESSION_MESSAGE.plain ==> f.name == "messageId" && !f.number
  {
    assert SESSION_MESSAGE.plain[0] in SESSION_MESSAGE.plain && SESSION_MESSAGE.fields[1] in SESSION_MESSAGE.fields;
  }

  lemma ContentOnly(p: Patch)
    requires p.plain.Keys == {"messageId"} && p.plain["messageId"].PlainText? && p.values.Keys == {"content"} && HasKind(p.values["content"], ContentKind)
    ensures Typed(SESSION_MESSAGE, p)
  {
    ContentNames();
    forall f | f in SESSION_MESSAGE.fields && f.name == "content" ensures f.kind == ContentKind {
      ContentFieldIsOne(f);
    }
    hide HasKind, SESSION_MESSAGE;
  }

  lemma ValuesShow(t: Table, p: Patch)
    requires WellFormed(t) && Typed(t, p)
    ensures forall name :: name in p.values ==> name in FieldNames(t)
    ensures forall name :: name in p.values && EncodeValue(p.values[name]) != JNull ==> (Clean(p.values[name]) == p.values[name] <==> Settled(p.values[name]))
  {
    forall name | name in p.values && EncodeValue(p.values[name]) != JNull
      ensures Clean(p.values[name]) == p.values[name] <==> Settled(p.values[name])
    {
      assert name in FieldNames(t);
      var f :| f in t.fields && f.name == name;
      CleanShows(f.kind, p.values[name]);
    }
  }

  // A value comes back unchanged exactly when it is in canonical form already.
  lemma CanonicalValues(t: Table, p: Patch)
    requires WellFormed(t) && Typed(t, p)
    ensures Canon(t, p) == p <==>
      && p.nullFields == InOrder(t.fields, set name | name in p.nullFields)
      && (forall name :: name in p.values ==> name !in p.nullFields && EncodeValue(p.values[name]) != JNull && Settled(p.values[name]))
  {
    ValuesShow(t, p);
    InOrderHolds(t.fields, NullSlots(t, p));
    InOrderHolds(t.fields, set name | name in p.nullFields);
    SameValues(t, p);
    hide EncodeValue, Clean, InOrder, Settled, HasKind, KindWellFormed;
    if forall name :: name in p.values ==> Kept(p, name) {
      InOrderSame(t.fields, NullSlots(t, p), set name | name in p.nullFields);
    }
  }

  predicate Kept(p: Patch, name: string)
    requires name in p.values
  {
    name !in p.nullFields && EncodeValue(p.values[name]) != JNull && Settled(p.values[name])
  }

  lemma SameValues(t: Table, p: Patch)
    requires forall name :: name in p.values ==> name in FieldNames(t)
    requires forall name :: name in p.values && EncodeValue(p.values[name]) != JNull ==> (Clean(p.values[name]) == p.values[name] <==> Settled(p.values[name]))
    ensures Canon(t, p).values == p.values <==> forall name :: name in p.values ==> Kept(p, name)
  {
    hide EncodeValue, Clean, InOrder, Settled, FieldNames;
    var canon := Canon(t, p).values;
    forall name | name in p.values ensures (name in canon && canon[name] == p.values[name]) <==> Kept(p, name) {}
    if forall name :: name in p.values ==> Kept(p, name) {
      assert canon.Keys == p.values.Keys;
    }
  }

  // Marks that differ from field to field, and from the plain fields, tell the names apart.
  lemma MarkedApart(t: Table, mark: string -> int, marks: seq<int>, plain: seq<int>)
    requires |marks| == |t.fields| && forall i :: 0 <= i < |marks| ==> mark(t.fields[i].name) == marks[i]
    requires |plain| == |t.plain| && forall i :: 0 <= i < |plain| ==> mark(t.plain[i].name) == plain[i]
    requires forall i, j :: 0 <= i < j < |marks| ==> marks[i] != marks[j]
    requires forall i, j :: 0 <= i < j < |plain| ==> plain[i] != plain[j]
    requires forall i, j :: 0 <= i < |marks| && 0 <= j < |plain| ==> marks[i] != plain[j]
    requires forall i :: 0 <= i < |t.fields| ==> KindWellFormed(t.fields[i].kind)
    ensures WellFormed(t)
  {}

  // The length, and the letter nine places from the end ('M' or 'S' in the longest names) or the second.
  function Mark(name: string): int {
    if |name| < 2 then 0 else 1000 * |name| + (if |name| >= 15 then name[|name| - 9] else name[1]) as int
  }

  lemma SessionMessageTable()
    ensures WellFormed(SESSION_MESSAGE)
  {
    hide WellFormed;
    MarkedApart(SESSION_MESSAGE, Mark, [5109, 7111, 18077, 18083, 15077, 15083], [9101]);
  }

  lemma Scalars()
    ensures S.WellFormed(S.Text) && S.WellFormed(S.Texts) && S.WellFormed(S.Meta)
  {}

  lemma SubagentUpdateTable()
    ensures WellFormed(SUBAGENT_UPDATE)
  {
    C.CapabilitiesTable();
    C.StateTable();
    hide WellFormed, S.WellFormed, C.STATE, C.CAPABILITIES;
    assert S.WellFormed(S.Text) && S.WellFormed(S.Texts) && S.WellFormed(S.Meta) by { Scalars(); }
    MarkedApart(SUBAGENT_UPDATE, Mark, [5109, 21114, 12097, 3119, 11101, 5116, 5105], [9101]);
  }

  lemma McpErrorTable()
    ensures WellFormed(MCP_ERROR)
  {}

  // ---------------------------------------------------------------------------------------------
  // What does not decode, in terms of the JSON

  predicate BadNumber(m: map<string, Json>, name: string) {
    name in m && !m[name].JNull? && !(m[name].JNum? && -INT32_MAX - 1 <= m[name].n <= INT32_MAX)
  }

  predicate BadTexts(m: map<string, Json>, name: string) {
    name in m && !m[name].JNull? && !(m[name].JArr? && forall x :: x in m[name].items ==> x.JStr? || x.JNull?)
  }

  lemma PlainRefuses(f: PlainField, m: map<string, Json>)
    ensures ReadPlain(f, m).None? <==> if f.number then BadNumber(m, f.name) else S.BadText(m, f.name)
  {}

  lemma TextsRefuse(f: Field, m: map<string, Json>)
    requires f.kind == ShapeKind(S.Texts) && f.strict
    ensures Undecodable(f, m) <==> BadTexts(m, f.name)
  {
    if Present(f.name, m) && m[f.name].JArr? {
      var items := m[f.name].items;
      assert S.DecodeTexts(items).Some? <==> forall i :: 0 <= i < |items| ==> S.DecodeText(items[i]).Some?;
      assert (forall x :: x in items ==> x.JStr? || x.JNull?) <==> forall i :: 0 <= i < |items| ==> items[i].JStr? || items[i].JNull?;
    }
  }

  lemma TextRefuses(f: Field, m: map<string, Json>)
    requires f.kind == TEXT && f.strict
    ensures Undecodable(f, m) <==> S.BadText(m, f.name)
  {}

  // A list of blocks is read block by block: one that does not decode, or is of an unknown type, is left
  // out and has no effect on the others.
  lemma OneBlockRead(j: Json)
    ensures DecodeBlocks([j]) == if C.DecodeBlock(j).Some? && Known(C.DecodeBlock(j).value.kind) then [C.DecodeBlock(j).value] else []
  {
    assert [j][1..] == [];
    assert DecodeBlocks([]) == [];
  }

  lemma {:induction false} BlocksReadApart(js: seq<Json>, ks: seq<Json>)
    ensures DecodeBlocks(js + ks) == DecodeBlocks(js) + DecodeBlocks(ks)
  {
    hide C.DecodeBlock;
    if js == [] {
      assert js + ks == ks;
    } else {
      assert (js + ks)[1..] == js[1..] + ks;
      BlocksReadApart(js[1..], ks);
    }
  }

  // null reads as the empty object, and nothing but an object reads otherwise.
  lemma OnlyObjectsRead(t: Table, j: Json)
    requires !j.JObj?
    ensures Decode(t, j) == if j.JNull? then Decode(t, JObj(map[])) else None
  {}

  // A session message is refused for its identifier only; everything else in it is forgiven.
  lemma SessionMessageRefused(m: map<string, Json>)
    ensures Decode(SESSION_MESSAGE, JObj(m)).None? <==> S.BadText(m, "messageId")
  {
    PlainRefuses(SESSION_MESSAGE.plain[0], m);
    assert SESSION_MESSAGE.plain[0] in SESSION_MESSAGE.plain;
    hide ReadPlain, DecodeValue, S.BadText, Decode, WellFormed;
    SessionMessageTable();
    DecodeMeans(SESSION_MESSAGE, m);
  }

  // An update of a child session is refused for its identifier, its directories or its working directory.
  lemma SubagentUpdateRefused(m: map<string, Json>)
    ensures Decode(SUBAGENT_UPDATE, JObj(m)).None?
      <==> S.BadText(m, "sessionId") || BadTexts(m, "additionalDirectories") || S.BadText(m, "cwd")
  {
    var t := SUBAGENT_UPDATE;
    PlainRefuses(t.plain[0], m);
    TextsRefuse(t.fields[1], m);
    TextRefuses(t.fields[3], m);
    assert t.plain[0] in t.plain && t.fields[1] in t.fields && t.fields[3] in t.fields;
    assert forall f :: f in t.fields && f.strict ==> f == t.fields[1] || f == t.fields[3];
    hide ReadPlain, DecodeValue, S.BadText, BadTexts, Decode, WellFormed;
    SubagentUpdateTable();
    DecodeMeans(t, m);
  }

  // An MCP error is refused for its code or its message; its data may be anything.
  lemma McpErrorRefused(m: map<string, Json>)
    ensures Decode(MCP_ERROR, JObj(m)).None? <==> BadNumber(m, "code") || S.BadText(m, "message")
  {
    var t := MCP_ERROR;
    PlainRefuses(t.plain[0], m);
    PlainRefuses(t.plain[1], m);
    assert t.plain[0] in t.plain && t.plain[1] in t.plain;
    assert forall f :: f in t.fields ==> !Undecodable(f, m);
    hide ReadPlain, S.BadText, BadNumber, Decode, WellFormed;
    McpErrorTable();
    DecodeMeans(t, m);
  }
}
