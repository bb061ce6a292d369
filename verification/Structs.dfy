// Go structs as their JSON codecs see them. A shape says what a type is; a member says how one field
// is written and read. The codec of a struct is the codec of its members one by one, so what a struct
// loses on the way through JSON is what its members lose.
module Structs {
  import opened Wrappers
  import opened Messages

  datatype Shape =
    | Text
    | Integer(lo: int, hi: int)
    | Number
    | Meta                          // map[string]any
    | Any
    | Texts                         // *[]string
    | Roles                         // *[]Role, of which only the known ones are read
    | Struct(members: seq<Member>)

  datatype Member = Member(name: string, shape: Shape, mode: Mode)

  datatype Mode =
    | Always     // always written; absent or null leaves the zero value
    | Strict     // written when set; null is unset; anything undecodable fails the struct
    | Tolerant   // the same, but an undecodable value leaves a pointer to the zero value
    | Lenient    // the same, but an undecodable value leaves the field unset
    | Omitted    // a value, not a pointer: written unless zero
    | Forced     // the same, but written even when zero
    | Demanded   // a pointer written even when unset, as null; null is read as the zero value
    | Ignored    // written when set, never read

  // A value of a shape. RolesV(None) and TextsV(None) are pointers to a nil slice. A field that is
  // unset, or that holds the zero value its absence stands for, is not in the map.
  datatype Value =
    | TextV(text: string)
    | NumV(n: int)
    | MetaV(meta: map<string, Json>)
    | AnyV(json: Json)
    | TextsV(texts: Option<seq<string>>)
    | RolesV(roles: Option<seq<string>>)
    | StructV(fields: Fields)

  type Fields = map<string, Value>

  function Lookup<T>(fields: map<string, T>, name: string): Option<T> {
    if name in fields then Some(fields[name]) else None
  }

  const KNOWN_ROLES := {"assistant", "user"}

  // ---------------------------------------------------------------------------------------------
  // Types

  function Zero(shape: Shape): Value
    decreases shape
  {
    match shape
    case Text => TextV("")
    case Integer(_, _) => NumV(0)
    case Number => NumV(0)
    case Meta => MetaV(map[])
    case Any => AnyV(JNull)
    case Texts => TextsV(None)
    case Roles => RolesV(None)
    case Struct(members) => StructV(ZeroFields(members))
  }

  function ZeroFields(ms: seq<Member>): Fields
    decreases ms
  {
    if ms == [] then map[]
    else if ms[0].mode.Always? then ZeroFields(ms[1..])[ms[0].name := Zero(ms[0].shape)]
    else ZeroFields(ms[1..])
  }

  predicate Apart(ms: seq<Member>) { forall i, j :: 0 <= i < j < |ms| ==> ms[i].name != ms[j].name }

  function NamesOf(ms: seq<Member>): set<string> { set m | m in ms :: m.name }

  predicate Basic(m: Member) { m.mode.Always? || m.mode.Strict? || m.mode.Tolerant? || m.mode.Lenient? }

  // The shapes the generator uses: names distinct, plain members scalar, the special modes only at the
  // outermost level.
  predicate WellFormed(shape: Shape)
    decreases shape
  {
    match shape
    case Integer(lo, hi) => lo <= 0 <= hi
    case Struct(ms) => Apart(ms) && (forall m :: m in ms ==> Basic(m)) && WellFormedMembers(ms)
    case _ => true
  }

  predicate WellFormedMembers(ms: seq<Member>)
    decreases ms
  {
    ms != [] ==> WellFormedMember(ms[0]) && WellFormedMembers(ms[1..])
  }

  predicate WellFormedMember(m: Member)
    decreases m
  {
    && WellFormed(m.shape)
    && (m.mode.Always? ==> m.shape.Text? || m.shape.Integer? || m.shape.Number?)
    && (!Basic(m) ==> m.shape.Text? || m.shape.Struct?)
  }

  predicate OfShape(shape: Shape, v: Value)
    decreases shape
  {
    match shape
    case Text => v.TextV?
    case Integer(lo, hi) => v.NumV? && lo <= v.n <= hi
    case Number => v.NumV?
    case Meta => v.MetaV?
    case Any => v.AnyV?
    case Texts => v.TextsV?
    case Roles => v.RolesV?
    case Struct(ms) => v.StructV? && v.fields.Keys <= NamesOf(ms) && OfMembers(ms, v.fields)
  }

  predicate OfMembers(ms: seq<Member>, fields: Fields)
    decreases ms
  {
    ms != [] ==> OfMember(ms[0], Lookup(fields, ms[0].name)) && OfMembers(ms[1..], fields)
  }

  predicate OfMember(m: Member, o: Option<Value>)
    decreases m
  {
    && (m.mode.Always? ==> o.Some?)
    && (o.Some? ==> OfShape(m.shape, o.value))
    && (o.Some? && (m.mode.Omitted? || m.mode.Forced?) ==> o.value != Zero(m.shape))
  }

  // ---------------------------------------------------------------------------------------------
  // Encoding

  function EncodeTexts(ts: seq<string>): seq<Json> { seq(|ts|, i requires 0 <= i < |ts| => JStr(ts[i])) }

  function Encode(shape: Shape, v: Value): Json
    decreases shape
  {
    match v
    case TextV(t) => JStr(t)
    case NumV(n) => JNum(n)
    case MetaV(m) => JObj(m)
    case AnyV(j) => j
    case TextsV(o) => if o.Some? then JArr(EncodeTexts(o.value)) else JNull
    case RolesV(o) => if o.Some? then JArr(EncodeTexts(o.value)) else JNull
    case StructV(fields) => JObj(if shape.Struct? then EncodeMembers(shape.members, fields) else map[])
  }

  function EncodeMembers(ms: seq<Member>, fields: Fields): map<string, Json>
    decreases ms
  {
    if ms == [] then map[]
    else match EncodeMember(ms[0], Lookup(fields, ms[0].name))
      case None => EncodeMembers(ms[1..], fields)
      case Some(j) => EncodeMembers(ms[1..], fields)[ms[0].name := j]
  }

  function EncodeMember(m: Member, o: Option<Value>): Option<Json>
    decreases m
  {
    match o
    case Some(v) => Some(Encode(m.shape, v))
    case None =>
      match m.mode
      case Forced => Some(Encode(m.shape, Zero(m.shape)))
      case Demanded => Some(JNull)
      case _ => None
  }

  // ---------------------------------------------------------------------------------------------
  // Decoding

  // null in place of a string leaves the empty string.
  function DecodeText(j: Json): Option<string> {
    match j
    case JStr(s) => Some(s)
    case JNull => Some("")
    case _ => None
  }

  function DecodeTexts(js: seq<Json>): Option<seq<string>> {
    if forall i :: 0 <= i < |js| ==> DecodeText(js[i]).Some?
    then Some(seq(|js|, i requires 0 <= i < |js| && DecodeText(js[i]).Some? => DecodeText(js[i]).value))
    else None
  }

  // Elements that are no known role are skipped.
  function DecodeRoles(js: seq<Json>): seq<string> {
    if js == [] then []
    else (if js[0].JStr? && js[0].s in KNOWN_ROLES then [js[0].s] else []) + DecodeRoles(js[1..])
  }

  function Decode(shape: Shape, j: Json): Option<Value>
    requires j != JNull
    decreases shape
  {
    match shape
    case Text => if j.JStr? then Some(TextV(j.s)) else None
    case Integer(lo, hi) => if j.JNum? && lo <= j.n <= hi then Some(NumV(j.n)) else None
    case Number => if j.JNum? then Some(NumV(j.n)) else None
    case Meta => if j.JObj? then Some(MetaV(j.fields)) else None
    case Any => Some(AnyV(j))
    case Texts => if j.JArr? && DecodeTexts(j.items).Some? then Some(TextsV(DecodeTexts(j.items))) else None
    case Roles => if j.JArr? then Some(RolesV(Some(DecodeRoles(j.items)))) else None
    case Struct(ms) =>
      if !j.JObj? then None
      else match DecodeMembers(ms, j.fields) case None => None case Some(fields) => Some(StructV(fields))
  }

  // None: the struct does not decode.
  function DecodeMembers(ms: seq<Member>, raw: map<string, Json>): Option<Fields>
    decreases ms
  {
    if ms == [] then Some(map[])
    else
      var first, rest := DecodeMember(ms[0], Lookup(raw, ms[0].name)), DecodeMembers(ms[1..], raw);
      if first.None? || rest.None? then None
      else if first.value.None? then rest
      else Some(rest.value[ms[0].name := first.value.value])
  }

  // None: the struct does not decode; Some(None): the field is unset.
  function DecodeMember(m: Member, raw: Option<Json>): Option<Option<Value>>
    decreases m
  {
    if m.mode.Ignored? then Some(None)
    else if raw.None? then Some(if m.mode.Always? then Some(Zero(m.shape)) else None)
    else if raw.value == JNull then Some(if m.mode.Always? || m.mode.Demanded? then Some(Zero(m.shape)) else None)
    else match Decode(m.shape, raw.value)
      case Some(v) => Some(if (m.mode.Omitted? || m.mode.Forced?) && v == Zero(m.shape) then None else Some(v))
      case None =>
        if m.mode.Tolerant? then Some(Some(Zero(m.shape)))
        else if m.mode.Lenient? then Some(None)
        else None
  }

  // ---------------------------------------------------------------------------------------------
  // What comes back

  function KnownRoles(rs: seq<string>): seq<string> {
    if rs == [] then [] else (if rs[0] in KNOWN_ROLES then [rs[0]] else []) + KnownRoles(rs[1..])
  }

  function Normal(shape: Shape, v: Value): Value
    decreases shape
  {
    match v
    case RolesV(Some(rs)) => RolesV(Some(KnownRoles(rs)))
    case StructV(fields) => if shape.Struct? then StructV(NormalMembers(shape.members, fields)) else v
    case _ => v
  }

  function NormalMembers(ms: seq<Member>, fields: Fields): Fields
    decreases ms
  {
    if ms == [] then map[]
    else match NormalMember(ms[0], Lookup(fields, ms[0].name))
      case None => NormalMembers(ms[1..], fields)
      case Some(v) => NormalMembers(ms[1..], fields)[ms[0].name := v]
  }

  function NormalMember(m: Member, o: Option<Value>): Option<Value>
    decreases m
  {
    if m.mode.Ignored? then None
    else if o.None? then if m.mode.Demanded? then Some(Zero(m.shape)) else None
    else if Encode(m.shape, o.value) == JNull then None
    else
      var v := Normal(m.shape, o.value);
      if (m.mode.Omitted? || m.mode.Forced?) && v == Zero(m.shape) then None else Some(v)
  }

  // The values that come back as they are: every role is known, nothing set encodes as null, what is
  // demanded is set and what is ignored is not.
  predicate Fixed(shape: Shape, v: Value)
    decreases shape
  {
    match v
    case AnyV(j) => j != JNull
    case TextsV(o) => o.Some?
    case RolesV(o) => o.Some? && forall r :: r in o.value ==> r in KNOWN_ROLES
    case StructV(fields) => shape.Struct? ==> FixedMembers(shape.members, fields)
    case _ => true
  }

  predicate FixedMembers(ms: seq<Member>, fields: Fields)
    decreases ms
  {
    ms != [] ==> FixedMember(ms[0], Lookup(fields, ms[0].name)) && FixedMembers(ms[1..], fields)
  }

  predicate FixedMember(m: Member, o: Option<Value>)
    decreases m
  {
    && (o.Some? ==> Fixed(m.shape, o.value))
    && (m.mode.Demanded? ==> o.Some?)
    && (m.mode.Ignored? ==> o.None?)
  }

  // ---------------------------------------------------------------------------------------------
  // Lists

  lemma TextsBack(ts: seq<string>)
    ensures DecodeTexts(EncodeTexts(ts)) == Some(ts)
  {
    var js := EncodeTexts(ts);
    forall i | 0 <= i < |js| ensures DecodeText(js[i]) == Some(ts[i]) {}
    assert DecodeTexts(js).value == ts;
  }

  lemma {:induction false} RolesBack(rs: seq<string>)
    ensures DecodeRoles(EncodeTexts(rs)) == KnownRoles(rs)
  {
    if rs != [] {
      assert EncodeTexts(rs)[1..] == EncodeTexts(rs[1..]);
      RolesBack(rs[1..]);
    }
  }

  lemma {:induction false} KnownRolesShow(rs: seq<string>)
    ensures |KnownRoles(rs)| <= |rs| && forall r :: r in KnownRoles(rs) ==> r in KNOWN_ROLES
    ensures |KnownRoles(rs)| == |rs| <==> forall r :: r in rs ==> r in KNOWN_ROLES
    ensures |KnownRoles(rs)| == |rs| ==> KnownRoles(rs) == rs
  {
    if rs != [] {
      KnownRolesShow(rs[1..]);
      assert rs == [rs[0]] + rs[1..];
    }
  }

  // ---------------------------------------------------------------------------------------------
  // decode(encode(v)) is the normal form of v

  lemma {:induction false} EncodedAt(ms: seq<Member>, fields: Fields, i: nat)
    requires Apart(ms) && i < |ms|
    ensures Lookup(EncodeMembers(ms, fields), ms[i].name) == EncodeMember(ms[i], Lookup(fields, ms[i].name))
    decreases ms
  {
    EncodedKeys(ms[1..], fields);
    if i == 0 {
      assert forall m :: m in ms[1..] ==> m.name != ms[0].name;
    } else {
      EncodedAt(ms[1..], fields, i - 1);
    }
  }

  lemma {:induction false} EncodedKeys(ms: seq<Member>, fields: Fields)
    ensures EncodeMembers(ms, fields).Keys <= NamesOf(ms)
    decreases ms
  {
    if ms != [] {
      EncodedKeys(ms[1..], fields);
      assert NamesOf(ms) == NamesOf(ms[1..]) + {ms[0].name};
    }
  }

  lemma {:induction false} Back(shape: Shape, v: Value)
    requires WellFormed(shape) && OfShape(shape, v) && Encode(shape, v) != JNull
    ensures Decode(shape, Encode(shape, v)) == Some(Normal(shape, v))
    decreases shape
  {
    match shape
    case Texts => TextsBack(v.texts.value);
    case Roles => RolesBack(v.roles.value);
    case Struct(ms) =>
      forall i | 0 <= i < |ms|
        ensures Lookup(EncodeMembers(ms, v.fields), ms[i].name) == EncodeMember(ms[i], Lookup(v.fields, ms[i].name))
      {
        EncodedAt(ms, v.fields, i);
      }
      MembersBack(ms, v.fields, EncodeMembers(ms, v.fields));
    case _ =>
  }

  lemma {:induction false} MembersBack(ms: seq<Member>, fields: Fields, raw: map<string, Json>)
    requires WellFormedMembers(ms) && OfMembers(ms, fields)
    requires forall i :: 0 <= i < |ms| ==> Lookup(raw, ms[i].name) == EncodeMember(ms[i], Lookup(fields, ms[i].name))
    ensures DecodeMembers(ms, raw) == Some(NormalMembers(ms, fields))
    decreases ms
  {
    if ms != [] {
      MemberBack(ms[0], Lookup(fields, ms[0].name));
      forall i | 0 <= i < |ms[1..]|
        ensures Lookup(raw, ms[1..][i].name) == EncodeMember(ms[1..][i], Lookup(fields, ms[1..][i].name))
      {
        assert ms[1..][i] == ms[i + 1];
      }
      MembersBack(ms[1..], fields, raw);
    }
  }

  lemma {:induction false} MemberBack(m: Member, o: Option<Value>)
    requires WellFormedMember(m) && OfMember(m, o)
    ensures DecodeMember(m, EncodeMember(m, o)) == Some(NormalMember(m, o))
    decreases m
  {
    if o.Some? {
      if Encode(m.shape, o.value) != JNull {
        Back(m.shape, o.value);
      }
    } else if m.mode.Forced? {
      ZeroIsFixed(m.shape);
    }
  }

  // The zero value of a type comes back as it is.
  lemma {:induction false} ZeroIsFixed(shape: Shape)
    requires WellFormed(shape) && (shape.Text? || shape.Struct?)
    ensures Decode(shape, Encode(shape, Zero(shape))) == Some(Zero(shape))
  {
    if shape.Struct? {
      var ms := shape.members;
      forall i | 0 <= i < |ms|
        ensures Lookup(EncodeMembers(ms, ZeroFields(ms)), ms[i].name) == EncodeMember(ms[i], Lookup(ZeroFields(ms), ms[i].name))
        ensures Lookup(ZeroFields(ms), ms[i].name) == if ms[i].mode.Always? then Some(Zero(ms[i].shape)) else None
      {
        EncodedAt(ms, ZeroFields(ms), i);
        ZeroAt(ms, i);
        assert ms[i] in ms && Basic(ms[i]);
      }
      forall i | 0 <= i < |ms|
        ensures Lookup(EncodeMembers(ms, ZeroFields(ms)), ms[i].name) == if ms[i].mode.Always? then Some(Encode(ms[i].shape, Zero(ms[i].shape))) else None
      {
        assert ms[i] in ms && Basic(ms[i]);
      }
      ZeroBack(ms, EncodeMembers(ms, ZeroFields(ms)));
    }
  }

  lemma {:induction false} ZeroAt(ms: seq<Member>, i: nat)
    requires Apart(ms) && i < |ms|
    ensures Lookup(ZeroFields(ms), ms[i].name) == if ms[i].mode.Always? then Some(Zero(ms[i].shape)) else None
    decreases ms
  {
    ZeroKeys(ms[1..]);
    if i == 0 {
      assert forall m :: m in ms[1..] ==> m.name != ms[0].name;
    } else {
      ZeroAt(ms[1..], i - 1);
    }
  }

  lemma {:induction false} ZeroKeys(ms: seq<Member>)
    ensures ZeroFields(ms).Keys <= NamesOf(ms)
    decreases ms
  {
    if ms != [] {
      ZeroKeys(ms[1..]);
      assert NamesOf(ms) == NamesOf(ms[1..]) + {ms[0].name};
    }
  }

  lemma {:induction false} ZeroBack(ms: seq<Member>, raw: map<string, Json>)
    requires WellFormedMembers(ms) && forall m :: m in ms ==> Basic(m)
    requires forall i :: 0 <= i < |ms| ==> Lookup(raw, ms[i].name) == if ms[i].mode.Always? then Some(Encode(ms[i].shape, Zero(ms[i].shape))) else None
    ensures DecodeMembers(ms, raw) == Some(ZeroFields(ms))
    decreases ms
  {
    if ms != [] {
      forall i | 0 <= i < |ms[1..]|
        ensures Lookup(raw, ms[1..][i].name) == if ms[1..][i].mode.Always? then Some(Encode(ms[1..][i].shape, Zero(ms[1..][i].shape))) else None
      {
        assert ms[1..][i] == ms[i + 1];
      }
      ZeroBack(ms[1..], raw);
      assert ms[0] in ms && Basic(ms[0]);
      ZeroMember(ms[0]);
    }
  }

  lemma ZeroMember(m: Member)
    requires WellFormedMember(m) && Basic(m)
    ensures DecodeMember(m, if m.mode.Always? then Some(Encode(m.shape, Zero(m.shape))) else None) == Some(if m.mode.Always? then Some(Zero(m.shape)) else None)
  {}

  // ---------------------------------------------------------------------------------------------
  // Exactly the fixed values come back as they are, and exactly they are written the same again

  lemma {:induction false} Shows(shape: Shape, v: Value)
    requires WellFormed(shape) && OfShape(shape, v) && Encode(shape, v) != JNull
    ensures Normal(shape, v) == v <==> Fixed(shape, v)
    ensures Encode(shape, Normal(shape, v)) == Encode(shape, v) <==> Fixed(shape, v)
    ensures Encode(shape, Normal(shape, v)) != JNull
    decreases shape
  {
    match shape
    case Roles =>
      KnownRolesShow(v.roles.value);
      assert |EncodeTexts(KnownRoles(v.roles.value))| == |KnownRoles(v.roles.value)|;
    case Struct(ms) =>
      var fields := NormalMembers(ms, v.fields);
      forall i | 0 <= i < |ms| ensures Lookup(fields, ms[i].name) == NormalMember(ms[i], Lookup(v.fields, ms[i].name)) {
        NormalAt(ms, v.fields, i);
      }
      MembersShow(ms, v.fields, fields);
      NormalKeys(ms, v.fields);
      SameFields(ms, v.fields, fields);
    case _ =>
  }

  ghost predicate Agree(ms: seq<Member>, a: Fields, b: Fields) {
    forall i :: 0 <= i < |ms| ==> Lookup(a, ms[i].name) == Lookup(b, ms[i].name)
  }

  lemma SameFields(ms: seq<Member>, a: Fields, b: Fields)
    requires a.Keys <= NamesOf(ms) && b.Keys <= NamesOf(ms)
    ensures Agree(ms, a, b) <==> a == b
  {
    if Agree(ms, a, b) {
      forall name ensures Lookup(a, name) == Lookup(b, name) {
        if name in NamesOf(ms) {
          var i :| 0 <= i < |ms| && ms[i].name == name;
        }
      }
      assert forall name :: name in a <==> Lookup(a, name).Some?;
      assert a.Keys == b.Keys;
      assert forall name :: name in a ==> Lookup(a, name) == Some(a[name]);
    }
  }

  lemma {:induction false} NormalAt(ms: seq<Member>, fields: Fields, i: nat)
    requires Apart(ms) && i < |ms|
    ensures Lookup(NormalMembers(ms, fields), ms[i].name) == NormalMember(ms[i], Lookup(fields, ms[i].name))
    decreases ms
  {
    NormalKeys(ms[1..], fields);
    if i == 0 {
      assert forall m :: m in ms[1..] ==> m.name != ms[0].name;
    } else {
      NormalAt(ms[1..], fields, i - 1);
    }
  }

  lemma {:induction false} NormalKeys(ms: seq<Member>, fields: Fields)
    ensures NormalMembers(ms, fields).Keys <= NamesOf(ms)
    decreases ms
  {
    if ms != [] {
      NormalKeys(ms[1..], fields);
      assert NamesOf(ms) == NamesOf(ms[1..]) + {ms[0].name};
    }
  }

  lemma {:induction false} MembersShow(ms: seq<Member>, fields: Fields, normal: Fields)
    requires Apart(ms) && WellFormedMembers(ms) && OfMembers(ms, fields)
    requires forall i :: 0 <= i < |ms| ==> Lookup(normal, ms[i].name) == NormalMember(ms[i], Lookup(fields, ms[i].name))
    ensures Agree(ms, fields, normal) <==> FixedMembers(ms, fields)
    ensures EncodeMembers(ms, normal) == EncodeMembers(ms, fields) <==> FixedMembers(ms, fields)
    decreases ms
  {
    if ms != [] {
      MemberShows(ms[0], Lookup(fields, ms[0].name));
      forall i | 0 <= i < |ms[1..]| ensures Lookup(normal, ms[1..][i].name) == NormalMember(ms[1..][i], Lookup(fields, ms[1..][i].name)) {
        assert ms[1..][i] == ms[i + 1];
      }
      MembersShow(ms[1..], fields, normal);
      AgreeSplit(ms, fields, normal);
      EncodeSplit(ms, fields, normal);
    }
  }

  lemma AgreeSplit(ms: seq<Member>, a: Fields, b: Fields)
    requires ms != []
    ensures Agree(ms, a, b) <==> Lookup(a, ms[0].name) == Lookup(b, ms[0].name) && Agree(ms[1..], a, b)
  {
    forall i | 0 <= i < |ms[1..]| ensures ms[1..][i] == ms[i + 1] {}
    if Lookup(a, ms[0].name) == Lookup(b, ms[0].name) && Agree(ms[1..], a, b) {
      forall i | 0 <= i < |ms| ensures Lookup(a, ms[i].name) == Lookup(b, ms[i].name) {
        if i > 0 {
          assert ms[1..][i - 1] == ms[i];
        }
      }
    }
  }

  function Put<T>(m: map<string, T>, name: string, o: Option<T>): map<string, T> {
    if o.Some? then m[name := o.value] else m
  }

  lemma PutSame<T>(x: map<string, T>, y: map<string, T>, name: string, a: Option<T>, b: Option<T>)
    requires name !in x && name !in y
    ensures Put(x, name, a) == Put(y, name, b) <==> a == b && x == y
  {
    assert Put(x, name, a) - {name} == x && Put(y, name, b) - {name} == y;
    assert Lookup(Put(x, name, a), name) == a && Lookup(Put(y, name, b), name) == b;
  }

  lemma EncodeSplit(ms: seq<Member>, a: Fields, b: Fields)
    requires ms != [] && Apart(ms)
    ensures EncodeMembers(ms, a) == EncodeMembers(ms, b)
      <==> EncodeMember(ms[0], Lookup(a, ms[0].name)) == EncodeMember(ms[0], Lookup(b, ms[0].name))
           && EncodeMembers(ms[1..], a) == EncodeMembers(ms[1..], b)
  {
    hide EncodeMember;
    EncodedKeys(ms[1..], a);
    EncodedKeys(ms[1..], b);
    PutSame(EncodeMembers(ms[1..], a), EncodeMembers(ms[1..], b), ms[0].name,
      EncodeMember(ms[0], Lookup(a, ms[0].name)), EncodeMember(ms[0], Lookup(b, ms[0].name)));
  }

  lemma {:induction false} MemberShows(m: Member, o: Option<Value>)
    requires WellFormedMember(m) && OfMember(m, o)
    ensures NormalMember(m, o) == o <==> FixedMember(m, o)
    ensures EncodeMember(m, NormalMember(m, o)) == EncodeMember(m, o) <==> FixedMember(m, o)
    decreases m
  {
    if o.Some? && Encode(m.shape, o.value) != JNull {
      Shows(m.shape, o.value);
    }
  }

  // ---------------------------------------------------------------------------------------------
  // What is decoded is of its type

  lemma {:induction false} ZeroTyped(shape: Shape)
    requires WellFormed(shape)
    ensures OfShape(shape, Zero(shape))
    decreases shape
  {
    if shape.Struct? {
      var ms := shape.members;
      ZeroKeys(ms);
      forall i | 0 <= i < |ms| ensures Lookup(ZeroFields(ms), ms[i].name) == if ms[i].mode.Always? then Some(Zero(ms[i].shape)) else None {
        ZeroAt(ms, i);
      }
      ZeroMembersTyped(ms, ZeroFields(ms));
    }
  }

  lemma {:induction false} ZeroMembersTyped(ms: seq<Member>, fields: Fields)
    requires WellFormedMembers(ms) && (forall m :: m in ms ==> Basic(m))
    requires forall i :: 0 <= i < |ms| ==> Lookup(fields, ms[i].name) == if ms[i].mode.Always? then Some(Zero(ms[i].shape)) else None
    ensures OfMembers(ms, fields)
    decreases ms
  {
    if ms != [] {
      assert ms[0] in ms;
      ZeroTyped(ms[0].shape);
      forall i | 0 <= i < |ms[1..]| ensures ms[1..][i] == ms[i + 1] {}
      ZeroMembersTyped(ms[1..], fields);
    }
  }

  lemma {:induction false} DecodedKeys(ms: seq<Member>, raw: map<string, Json>)
    requires DecodeMembers(ms, raw).Some?
    ensures DecodeMembers(ms, raw).value.Keys <= NamesOf(ms)
    decreases ms
  {
    if ms != [] {
      DecodedKeys(ms[1..], raw);
      assert NamesOf(ms) == NamesOf(ms[1..]) + {ms[0].name};
    }
  }

  lemma {:induction false} DecodedAt(ms: seq<Member>, raw: map<string, Json>, i: nat)
    requires Apart(ms) && i < |ms| && DecodeMembers(ms, raw).Some?
    ensures DecodeMember(ms[i], Lookup(raw, ms[i].name)) == Some(Lookup(DecodeMembers(ms, raw).value, ms[i].name))
    decreases ms
  {
    DecodedKeys(ms[1..], raw);
    if i == 0 {
      assert forall m :: m in ms[1..] ==> m.name != ms[0].name;
    } else {
      DecodedAt(ms[1..], raw, i - 1);
    }
  }

  // Whatever is decoded is a value the type allows, numbers within their range included.
  lemma {:induction false} DecodedIsTyped(shape: Shape, j: Json)
    requires WellFormed(shape) && j != JNull && Decode(shape, j).Some?
    ensures OfShape(shape, Decode(shape, j).value)
    decreases shape
  {
    if shape.Struct? {
      var ms := shape.members;
      DecodedKeys(ms, j.fields);
      forall i | 0 <= i < |ms|
        ensures DecodeMember(ms[i], Lookup(j.fields, ms[i].name)) == Some(Lookup(DecodeMembers(ms, j.fields).value, ms[i].name))
      {
        DecodedAt(ms, j.fields, i);
      }
      MembersTyped(ms, j.fields, DecodeMembers(ms, j.fields).value);
    }
  }

  lemma {:induction false} MembersTyped(ms: seq<Member>, raw: map<string, Json>, fields: Fields)
    requires WellFormedMembers(ms)
    requires forall i :: 0 <= i < |ms| ==> DecodeMember(ms[i], Lookup(raw, ms[i].name)) == Some(Lookup(fields, ms[i].name))
    ensures OfMembers(ms, fields)
    decreases ms
  {
    if ms != [] {
      MemberTyped(ms[0], Lookup(raw, ms[0].name));
      forall i | 0 <= i < |ms[1..]| ensures ms[1..][i] == ms[i + 1] {}
      MembersTyped(ms[1..], raw, fields);
    }
  }

  lemma {:induction false} MemberTyped(m: Member, raw: Option<Json>)
    requires WellFormedMember(m) && DecodeMember(m, raw).Some?
    ensures OfMember(m, DecodeMember(m, raw).value)
    decreases m
  {
    ZeroTyped(m.shape);
    if raw.Some? && raw.value != JNull && Decode(m.shape, raw.value).Some? {
      DecodedIsTyped(m.shape, raw.value);
    }
  }

  // ---------------------------------------------------------------------------------------------
  // What does not decode

  // A struct is refused exactly when one of its members refuses what stands under its name.
  lemma {:induction false} MembersRefuse(ms: seq<Member>, raw: map<string, Json>)
    ensures DecodeMembers(ms, raw).None? <==> exists i :: 0 <= i < |ms| && DecodeMember(ms[i], Lookup(raw, ms[i].name)).None?
  {
    if ms != [] {
      MembersRefuse(ms[1..], raw);
      if i :| 0 <= i < |ms[1..]| && DecodeMember(ms[1..][i], Lookup(raw, ms[1..][i].name)).None? {
        assert ms[i + 1] == ms[1..][i];
      }
      if i :| 0 <= i < |ms| && DecodeMember(ms[i], Lookup(raw, ms[i].name)).None? {
        assert i > 0 ==> ms[1..][i - 1] == ms[i];
      }
    }
  }

  // Something stands under the name that is neither null nor of this type.
  predicate BadText(raw: map<string, Json>, name: string) { name in raw && !raw[name].JNull? && !raw[name].JStr? }

  predicate BadObject(raw: map<string, Json>, name: string) { name in raw && !raw[name].JNull? && !raw[name].JObj? }

  // A member of text or metadata refuses it unless its mode forgives.
  lemma ScalarRefuses(m: Member, raw: map<string, Json>)
    requires m.shape.Text? || m.shape.Meta?
    ensures DecodeMember(m, Lookup(raw, m.name)).None?
      <==> !m.mode.Ignored? && !m.mode.Tolerant? && !m.mode.Lenient? && if m.shape.Text? then BadText(raw, m.name) else BadObject(raw, m.name)
  {}

  lemma ForgivingRefuses(m: Member, raw: map<string, Json>)
    requires m.mode.Tolerant? || m.mode.Lenient? || m.mode.Ignored?
    ensures DecodeMember(m, Lookup(raw, m.name)).Some?
  {}

  // A pointer member that is not refused is set exactly when something other than null stands under its
  // name; a lenient one, when that also decodes.
  lemma PointerSet(m: Member, raw: map<string, Json>)
    requires DecodeMember(m, Lookup(raw, m.name)).Some?
    ensures var o := DecodeMember(m, Lookup(raw, m.name)).value;
            && (m.mode.Strict? || m.mode.Tolerant? ==> (o.Some? <==> m.name in raw && raw[m.name] != JNull))
            && (m.mode.Lenient? ==> (o.Some? <==> m.name in raw && raw[m.name] != JNull && Decode(m.shape, raw[m.name]).Some?))
            && (o.Some? && m.mode.Tolerant? && Decode(m.shape, raw[m.name]).None? ==> o.value == Zero(m.shape))
            && (o.Some? && m.name in raw && raw[m.name] != JNull && Decode(m.shape, raw[m.name]).Some? ==> o == Decode(m.shape, raw[m.name]))
  {}

  // An audience is any list, read role by role: an element that is no known role is left out and has no
  // effect on the others.
  lemma OneRoleRead(j: Json)
    ensures Decode(Roles, JArr([j]))
      == Some(RolesV(Some(if j == JStr("assistant") then ["assistant"] else if j == JStr("user") then ["user"] else [])))
  {
    assert [j][1..] == [] && DecodeRoles([]) == [];
    assert JArr([j]).items == [j] && [j][0] == j;
    assert DecodeRoles([j]) == if j.JStr? && j.s in KNOWN_ROLES then [j.s] else [];
  }

  lemma {:induction false} RolesReadApart(js: seq<Json>, ks: seq<Json>)
    ensures DecodeRoles(js + ks) == DecodeRoles(js) + DecodeRoles(ks)
  {
    if js == [] {
      assert js + ks == ks;
    } else {
      assert (js + ks)[1..] == js[1..] + ks;
      RolesReadApart(js[1..], ks);
    }
  }
}
