// Unions of objects told apart by one required key each. The generator accepts a union when every
// branch has exactly one required key, all different; the codec it then writes picks the first branch
// in schema order whose key is present, both when it encodes and when it decodes.
module RequiredKeys {
  import opened Wrappers
  import opened Messages
  import opened Schemas
  import opened Unions

  // ---------------------------------------------------------------------------------------------
  // Which unions are accepted

  // The one key every full choice of the branch requires.
  ghost predicate OnlyKey(defs: Defs, b: Schema, key: string) {
    forall k :: AlwaysDemanded(defs, b, k) <==> k == key
  }

  // The branch is selected by the key: the key carries a value that is neither constant nor nullable.
  ghost predicate Carries(defs: Defs, b: Schema, key: string, properties: map<string, Schema>) {
    && OnlyKey(defs, b, key) && Gathered(defs, b, properties)
    && key in properties && !properties[key].isConst && !properties[key].nullable
  }

  ghost predicate Unfit(defs: Defs, branches: seq<Schema>, i: nat)
    requires i < |branches|
  {
    || (forall key :: !OnlyKey(defs, branches[i], key))
    || (exists j, key :: 0 <= j < i && OnlyKey(defs, branches[j], key) && OnlyKey(defs, branches[i], key))
    || (exists key, properties :: OnlyKey(defs, branches[i], key) && Gathered(defs, branches[i], properties) && !Carries(defs, branches[i], key, properties))
  }

  // Every branch so far has its own key.
  ghost predicate Accepted(defs: Defs, branches: seq<Schema>, keys: seq<string>, carriers: seq<map<string, Schema>>) {
    && |branches| == |keys| == |carriers| && Distinct(keys)
    && forall i :: 0 <= i < |keys| ==> Carries(defs, branches[i], keys[i], carriers[i])
  }

  ghost predicate Refused(defs: Defs, s: Schema) {
    || |s.anyOf| < 2 || s.required != [] || s.properties != []
    || exists i :: 0 <= i < |s.anyOf| && Unfit(defs, s.anyOf, i)
  }

  // None is the panic on an unresolved reference; keys and carriers are what the code then generates from.
  method HasRequiredKeyBranches(defs: Defs, s: Schema, ghost rank: map<string, nat>, ghost height: nat)
      returns (ok: Option<bool>, keys: seq<string>, carriers: seq<map<string, Schema>>)
    requires Acyclic(defs, rank) && forall b :: b in s.anyOf ==> Below(defs, rank, b, height)
    ensures ok == Some(true) ==> |s.anyOf| >= 2 && s.required == [] && s.properties == [] && Accepted(defs, s.anyOf, keys, carriers)
    ensures ok == Some(false) && (forall n :: n in defs ==> Distinct(defs[n].required)) ==> Refused(defs, s)
    ensures ok.None? ==> exists b :: b in s.anyOf && Broken(defs, b)
  {
    keys, carriers := [], [];
    if |s.anyOf| < 2 || s.required != [] || s.properties != [] {
      ok := Some(false);
      return;
    }
    assert s.anyOf[..0] == [];
    for i := 0 to |s.anyOf|
      invariant Accepted(defs, s.anyOf[..i], keys, carriers)
    {
      hide Accepted, Carries, Gathered, AlwaysDemanded, Acyclic, Broken, Unfit;
      var branch := s.anyOf[i];
      assert branch in s.anyOf;
      var required := VariantRequired(defs, branch, rank, height);
      if required.None? {
        return None, keys, carriers;
      }
      if |required.value| != 1 || required.value[0] in keys {
        Rejected(defs, s.anyOf, i, required.value, keys, carriers);
        return Some(false), keys, carriers;
      }
      var key := required.value[0];
      OneKey(defs, branch, required.value);
      var properties := VariantProperties(defs, branch, rank, height);
      if properties.None? {
        return None, keys, carriers;
      }
      if key !in properties.value || properties.value[key].isConst || properties.value[key].nullable {
        UnfitCarrier(defs, s.anyOf, i, key, properties.value);
        return Some(false), keys, carriers;
      }
      AcceptedMore(defs, s.anyOf, i, keys, carriers, key, properties.value);
      keys, carriers := keys + [key], carriers + [properties.value];
    }
    assert s.anyOf[..|s.anyOf|] == s.anyOf;
    ok := Some(true);
  }

  lemma OneKey(defs: Defs, b: Schema, required: seq<string>)
    requires |required| == 1 && forall key :: key in required <==> AlwaysDemanded(defs, b, key)
    ensures OnlyKey(defs, b, required[0])
  {}

  lemma UnfitCarrier(defs: Defs, branches: seq<Schema>, i: nat, key: string, properties: map<string, Schema>)
    requires i < |branches| && OnlyKey(defs, branches[i], key) && Gathered(defs, branches[i], properties)
    requires key !in properties || properties[key].isConst || properties[key].nullable
    ensures Unfit(defs, branches, i)
  {
    hide OnlyKey, Gathered;
    assert !Carries(defs, branches[i], key, properties);
  }

  lemma AcceptedMore(defs: Defs, branches: seq<Schema>, i: nat, keys: seq<string>, carriers: seq<map<string, Schema>>,
                     key: string, properties: map<string, Schema>)
    requires i < |branches| && Accepted(defs, branches[..i], keys, carriers) && key !in keys
    requires OnlyKey(defs, branches[i], key) && Gathered(defs, branches[i], properties)
    requires key in properties && !properties[key].isConst && !properties[key].nullable
    ensures Accepted(defs, branches[..i + 1], keys + [key], carriers + [properties])
  {
    hide OnlyKey, Gathered;
    assert Carries(defs, branches[i], key, properties);
    forall k | 0 <= k < i ensures Carries(defs, branches[..i + 1][k], (keys + [key])[k], (carriers + [properties])[k]) {
      assert Carries(defs, branches[..i][k], keys[k], carriers[k]);
    }
  }

  lemma Rejected(defs: Defs, branches: seq<Schema>, i: nat, required: seq<string>, keys: seq<string>, carriers: seq<map<string, Schema>>)
    requires i < |branches| && Accepted(defs, branches[..i], keys, carriers)
    requires forall key :: key in required <==> AlwaysDemanded(defs, branches[i], key)
    requires |required| != 1 || required[0] in keys
    ensures Distinct(required) ==> Unfit(defs, branches, i)
  {
    hide AlwaysDemanded, Gathered;
    if |required| == 1 {
      var j :| 0 <= j < i && keys[j] == required[0];
      assert Carries(defs, branches[..i][j], keys[j], carriers[j]);
      OneKey(defs, branches[i], required);
    } else if Distinct(required) {
      forall key ensures !OnlyKey(defs, branches[i], key) {
        var other := if required == [] then key else if required[0] == key then required[1] else required[0];
        assert other in required <==> other != key;
      }
    }
  }

  // ---------------------------------------------------------------------------------------------
  // The generated codec. A value is the fields that are set; every field is written by the encoder of
  // the values and read by a decoder of its own.

  datatype Field<!V> = Field(name: string, tolerant: bool, decode: Json -> Option<V>)

  datatype Demand = Demand(required: seq<string>, nonNull: seq<string>)

  datatype Carrier<!V> = Carrier(key: string, allowsNull: bool, demand: Option<Demand>, fields: seq<Field<V>>)

  datatype Codec<!V> = Codec(encode: V -> Json, carriers: seq<Carrier<V>>)

  ghost function Names<V>(fields: seq<Field<V>>): set<string> { set f | f in fields :: f.name }

  // The codec of an accepted union: different keys, each among its own branch's properties.
  ghost predicate Sound<V(!new)>(codec: Codec<V>) {
    var table := codec.carriers;
    && (forall i, j :: 0 <= i < j < |table| ==> table[i].key != table[j].key)
    && (forall i :: 0 <= i < |table| ==> table[i].key in Names(table[i].fields))
    && (forall i :: 0 <= i < |table| ==> OneDecoder(table[i]))
  }

  ghost predicate OneDecoder<V(!new)>(c: Carrier<V>) {
    forall f, g :: f in c.fields && g in c.fields && f.name == g.name ==> f == g
  }

  ghost predicate Generated<V(!new)>(codec: Codec<V>, keys: seq<string>, carriers: seq<map<string, Schema>>) {
    var table := codec.carriers;
    && |table| == |keys| == |carriers|
    && forall i :: 0 <= i < |table| ==>
         table[i].key == keys[i] && Names(table[i].fields) == carriers[i].Keys && OneDecoder(table[i])
  }

  lemma AcceptedTableIsSound<V(!new)>(defs: Defs, branches: seq<Schema>, codec: Codec<V>, keys: seq<string>, carriers: seq<map<string, Schema>>)
    requires Accepted(defs, branches, keys, carriers) && Generated(codec, keys, carriers)
    ensures Sound(codec)
  {
    hide OnlyKey, Gathered, OneDecoder;
    var table := codec.carriers;
    forall i | 0 <= i < |table| ensures table[i].key in Names(table[i].fields) {
      assert Carries(defs, branches[i], keys[i], carriers[i]);
    }
  }

  // The first branch in schema order whose key is present.
  predicate Chosen<V>(table: seq<Carrier<V>>, present: set<string>, i: nat) {
    i < |table| && table[i].key in present && forall j :: 0 <= j < i ==> table[j].key !in present
  }

  predicate NoneChosen<V>(table: seq<Carrier<V>>, present: set<string>) {
    forall i :: 0 <= i < |table| ==> table[i].key !in present
  }

  // What a branch writes of a value: its own fields.
  ghost function Wire<V(!new)>(codec: Codec<V>, c: Carrier<V>, v: map<string, V>): map<string, Json> {
    map name | name in v && name in Names(c.fields) :: codec.encode(v[name])
  }

  // Whether the decoder lets this carrier value through.
  predicate Meets<V>(c: Carrier<V>, x: Json) {
    && (x == JNull ==> c.allowsNull)
    && (c.demand.Some? ==> RequireProperties(x, c.demand.value))
  }

  // requireJSONProperties; null has no properties, anything else that is not an object is an error.
  predicate RequireProperties(x: Json, demand: Demand) {
    && (x.JNull? || x.JObj?)
    && var fields := if x.JObj? then x.fields else map[];
       && (forall n :: n in demand.required ==> n in fields)
       && (forall n :: n in demand.nonNull && n in fields ==> fields[n] != JNull)
  }

  method Marshal<V(!new)>(codec: Codec<V>, v: map<string, V>) returns (j: Option<Json>)
    ensures j.None? <==> NoneChosen(codec.carriers, v.Keys)
    ensures forall i: nat :: Chosen(codec.carriers, v.Keys, i) ==> j == Some(JObj(Wire(codec, codec.carriers[i], v)))
  {
    var table := codec.carriers;
    for i := 0 to |table|
      invariant forall k :: 0 <= k < i ==> table[k].key !in v
    {
      if table[i].key in v {
        var body: map<string, Json> := map[];
        for k := 0 to |table[i].fields|
          invariant body == map name | name in v && name in Names(table[i].fields[..k]) :: codec.encode(v[name])
        {
          var f := table[i].fields[k];
          assert table[i].fields[..k + 1] == table[i].fields[..k] + [f];
          if f.name in v {
            body := body[f.name := codec.encode(v[f.name])];
          }
        }
        assert table[i].fields[..|table[i].fields|] == table[i].fields;
        return Some(JObj(body));
      }
    }
    return None;
  }

  // What one field of the chosen branch leaves in the value: a null its type has no value for changes
  // nothing, a tolerant field ignores what it cannot decode.
  predicate Fails<V>(f: Field<V>, raw: map<string, Json>) {
    f.name in raw && f.decode(raw[f.name]).None? && raw[f.name] != JNull && !f.tolerant
  }

  predicate Kept<V>(f: Field<V>, raw: map<string, Json>) { f.name in raw && f.decode(raw[f.name]).Some? }

  ghost predicate Decoded<V(!new)>(c: Carrier<V>, raw: map<string, Json>, r: Result<map<string, V>, string>)
    requires c.key in raw
  {
    if !Meets(c, raw[c.key]) || exists f :: f in c.fields && Fails(f, raw) then r.Fail?
    else r.Ok? && DecodedFields(c.fields, raw, r.value)
  }

  ghost predicate DecodedFields<V(!new)>(fields: seq<Field<V>>, raw: map<string, Json>, decoded: map<string, V>) {
    && (forall f :: f in fields ==> (f.name in decoded <==> Kept(f, raw)))
    && (forall f :: f in fields && Kept(f, raw) ==> decoded[f.name] == f.decode(raw[f.name]).value)
    && decoded.Keys <= Names(fields)
  }

  method Unmarshal<V(!new)>(codec: Codec<V>, j: Json) returns (r: Result<map<string, V>, string>)
    requires Sound(codec)
    ensures (j.JObj? && !NoneChosen(codec.carriers, j.fields.Keys)) || r.Fail?
    ensures j.JObj? ==> forall i: nat :: Chosen(codec.carriers, j.fields.Keys, i) ==> Decoded(codec.carriers[i], j.fields, r)
  {
    if !j.JObj? {
      return Fail("requires one of the keys");
    }
    hide Decoded, Sound;
    assert forall i :: 0 <= i < |codec.carriers| ==> OneDecoder(codec.carriers[i]) by { SoundDecoders(codec); }
    for i := 0 to |codec.carriers|
      invariant forall k :: 0 <= k < i ==> codec.carriers[k].key !in j.fields
    {
      if codec.carriers[i].key in j.fields {
        r := DecodeCarrier(codec.carriers[i], j.fields);
        return;
      }
    }
    return Fail("requires one of the keys");
  }

  lemma SoundDecoders<V(!new)>(codec: Codec<V>)
    requires Sound(codec)
    ensures forall i :: 0 <= i < |codec.carriers| ==> OneDecoder(codec.carriers[i])
  {}

  method DecodeCarrier<V(!new)>(c: Carrier<V>, raw: map<string, Json>) returns (r: Result<map<string, V>, string>)
    requires c.key in raw && OneDecoder(c)
    ensures Decoded(c, raw, r)
  {
    if !c.allowsNull && raw[c.key] == JNull {
      return Fail("must not be null");
    }
    if c.demand.Some? && !RequireProperties(raw[c.key], c.demand.value) {
      return Fail("missing or null required property");
    }
    var decoded: map<string, V> := map[];
    for k := 0 to |c.fields|
      invariant forall f :: f in c.fields[..k] ==> !Fails(f, raw)
      invariant DecodedFields(c.fields[..k], raw, decoded)
    {
      var f := c.fields[k];
      assert c.fields[..k + 1] == c.fields[..k] + [f];
      assert forall g :: g in c.fields[..k] ==> g in c.fields;
      if f.name in raw {
        var x := f.decode(raw[f.name]);
        if x.Some? {
          decoded := decoded[f.name := x.value];
        } else if raw[f.name] != JNull && !f.tolerant {
          assert Fails(f, raw);
          return Fail("cannot decode a field");
        }
      }
    }
    assert c.fields[..|c.fields|] == c.fields;
    return Ok(decoded);
  }

  // What is missing or null is refused, by name; null itself is no object but has nothing to refuse
  // unless something is required of it.
  lemma RefusedRequirements(x: Json, demand: Demand)
    ensures RequireProperties(x, demand) <==>
      && (x.JObj? || (x.JNull? && demand.required == []))
      && !(exists n :: n in demand.required && (x.JObj? ==> n !in x.fields))
      && !(exists n :: n in demand.nonNull && x.JObj? && n in x.fields && x.fields[n].JNull?)
  {
    if demand.required != [] {
      assert demand.required[0] in demand.required;
    }
  }

  // ---------------------------------------------------------------------------------------------
  // Round trips

  // What the encoder wrote for branch i is decoded as branch i: no earlier key can be in it, although
  // the branch may list a later branch's key as an ordinary property of its own.
  lemma SameBranch<V(!new)>(codec: Codec<V>, v: map<string, V>, i: nat)
    requires Sound(codec) && Chosen(codec.carriers, v.Keys, i)
    ensures Chosen(codec.carriers, Wire(codec, codec.carriers[i], v).Keys, i)
  {}

  // What a field's own codec makes of its value.
  function ReadBack<V>(codec: Codec<V>, f: Field<V>, x: V): Option<V> { f.decode(codec.encode(x)) }

  // A field that its decoder refuses: not as null, and not to be tolerated.
  predicate Refuses<V>(codec: Codec<V>, f: Field<V>, x: V) {
    ReadBack(codec, f, x).None? && codec.encode(x) != JNull && !f.tolerant
  }

  // Decoding gives the branch's own fields back as their codecs read them, unless the carrier or one of
  // the fields is refused.
  ghost predicate Restored<V(!new)>(codec: Codec<V>, c: Carrier<V>, v: map<string, V>, r: Result<map<string, V>, string>) {
    && c.key in v
    && (r.Ok? <==> Meets(c, codec.encode(v[c.key])) && forall f :: f in c.fields && f.name in v ==> !Refuses(codec, f, v[f.name]))
    && (r.Ok? ==> r.value.Keys <= Names(c.fields))
    && (r.Ok? ==> forall f :: f in c.fields ==> (f.name in r.value <==> f.name in v && ReadBack(codec, f, v[f.name]).Some?))
    && (r.Ok? ==> forall f :: f in c.fields && f.name in r.value ==> Some(r.value[f.name]) == ReadBack(codec, f, v[f.name]))
    && (r.Ok? ==> (r.value == v <==> v.Keys <= Names(c.fields) && forall f :: f in c.fields && f.name in v ==> ReadBack(codec, f, v[f.name]) == Some(v[f.name])))
  }

  lemma DecodesToOwn<V(!new)>(codec: Codec<V>, v: map<string, V>, i: nat, r: Result<map<string, V>, string>)
    requires Sound(codec) && Chosen(codec.carriers, v.Keys, i)
    requires var c := codec.carriers[i]; c.key in Wire(codec, c, v) && Decoded(c, Wire(codec, c, v), r)
    ensures Restored(codec, codec.carriers[i], v, r)
  {
    var c, raw := codec.carriers[i], Wire(codec, codec.carriers[i], v);
    forall f | f in c.fields
      ensures (f.name in raw <==> f.name in v) && (f.name in raw ==> raw[f.name] == codec.encode(v[f.name]))
    {}
    hide Wire;
    assert forall f :: f in c.fields ==> (Fails(f, raw) <==> f.name in v && Refuses(codec, f, v[f.name]));
    if r.Ok? {
      assert forall f :: f in c.fields ==> (f.name in r.value <==> f.name in v && ReadBack(codec, f, v[f.name]).Some?);
      SameValues(codec, c, v, r.value);
    }
  }

  lemma SameValues<V(!new)>(codec: Codec<V>, c: Carrier<V>, v: map<string, V>, back: map<string, V>)
    requires back.Keys <= Names(c.fields)
    requires forall f :: f in c.fields ==> (f.name in back <==> f.name in v && ReadBack(codec, f, v[f.name]).Some?)
    requires forall f :: f in c.fields && f.name in back ==> Some(back[f.name]) == ReadBack(codec, f, v[f.name])
    ensures back == v <==> v.Keys <= Names(c.fields) && forall f :: f in c.fields && f.name in v ==> ReadBack(codec, f, v[f.name]) == Some(v[f.name])
  {
    hide ReadBack;
    if v.Keys <= Names(c.fields) && forall f :: f in c.fields && f.name in v ==> ReadBack(codec, f, v[f.name]) == Some(v[f.name]) {
      forall name | name in v ensures name in back && back[name] == v[name] {
        var f :| f in c.fields && f.name == name;
      }
      forall name | name in back ensures name in v {
        var f :| f in c.fields && f.name == name;
      }
      assert back.Keys == v.Keys;
    }
  }

  // Encoding and decoding again: an error exactly when no key is set, or the chosen carrier or one of
  // its branch's fields is refused; otherwise the chosen branch's own fields as their codecs read them,
  // which is the value itself exactly when nothing outside that branch was set and no field's codec
  // changes anything.
  method RoundTrip<V(!new)>(codec: Codec<V>, v: map<string, V>) returns (r: Result<map<string, V>, string>)
    requires Sound(codec)
    ensures NoneChosen(codec.carriers, v.Keys) ==> r.Fail?
    ensures forall i: nat :: Chosen(codec.carriers, v.Keys, i) ==> Restored(codec, codec.carriers[i], v, r)
  {
    hide Sound, Wire, Restored, Decoded;
    var j := Marshal(codec, v);
    if j.None? {
      return Fail("requires one of the keys");
    }
    r := Unmarshal(codec, j.value);
    forall i: nat | Chosen(codec.carriers, v.Keys, i) ensures Restored(codec, codec.carriers[i], v, r) {
      SameBranch(codec, v, i);
      DecodesToOwn(codec, v, i, r);
    }
  }
}
