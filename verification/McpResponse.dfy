// The codec of MessageMcpResponse, the required-key union with the branches "result" and "error".
// The error branch holds an McpError, which is read by its own three-state decoder.
module McpResponse {
  import opened Wrappers
  import opened Messages
  import opened RequiredKeys
  import P = Patches

  // What the fields hold: metadata, an opaque result (whose null is a value), or an McpError.
  datatype Value = MetaValue(meta: map<string, Json>) | ResultValue(json: Json) | ErrorValue(error: P.Patch)

  type Response = map<string, Value>

  function EncodeField(v: Value): Json {
    match v
    case MetaValue(m) => JObj(m)
    case ResultValue(j) => j
    case ErrorValue(e) => if e.plain.Keys == P.PlainNames(P.MCP_ERROR) then JObj(P.Encode(P.MCP_ERROR, e)) else JNull
  }

  function DecodeMeta(j: Json): Option<Value> { if j.JObj? then Some(MetaValue(j.fields)) else None }

  function DecodeResult(j: Json): Option<Value> { Some(ResultValue(j)) }

  function DecodeError(j: Json): Option<Value> {
    match P.Decode(P.MCP_ERROR, j)
    case Some(e) => Some(ErrorValue(e))
    case None => None
  }

  const META: Field<Value> := Field("_meta", true, DecodeMeta)
  const RESULT: Carrier<Value> := Carrier("result", true, None, [META, Field("result", false, DecodeResult)])
  const ERROR: Carrier<Value> := Carrier("error", false, Some(Demand(["code", "message"], ["code", "message"])), [META, Field("error", false, DecodeError)])
  const CODEC: Codec<Value> := Codec(EncodeField, [RESULT, ERROR])

  lemma NamesApart()
    ensures "result" != "error" && "_meta" != "error" && "_meta" != "result"
  {
    assert |"result"| != |"error"| && "_meta"[0] != "error"[0] && |"_meta"| != |"result"|;
  }

  lemma CodecIsSound()
    ensures Sound(CODEC)
  {
    NamesApart();
    assert RESULT.fields[1] in RESULT.fields && ERROR.fields[1] in ERROR.fields;
  }

  // The values the Go type allows.
  predicate Typed(v: Response) {
    && v.Keys <= {"_meta", "result", "error"}
    && ("_meta" in v ==> v["_meta"].MetaValue?)
    && ("result" in v ==> v["result"].ResultValue?)
    && ("error" in v ==> v["error"].ErrorValue? && P.Typed(P.MCP_ERROR, v["error"].error))
  }

  // What comes back: the result if there is one, otherwise the error in its canonical form.
  function Returned(v: Response): Response
    requires Typed(v)
  {
    map name | name in v && (name == "_meta" || name == "result" || "result" !in v)
      :: if name == "error" then ErrorValue(P.Canon(P.MCP_ERROR, v[name].error)) else v[name]
  }

  lemma ErrorReadsBack(e: P.Patch)
    requires P.Typed(P.MCP_ERROR, e)
    ensures ReadBack(CODEC, ERROR.fields[1], ErrorValue(e)) == Some(ErrorValue(P.Canon(P.MCP_ERROR, e)))
    ensures Meets(ERROR, EncodeField(ErrorValue(e)))
  {
    P.McpErrorTable();
    P.DecodesBack(P.MCP_ERROR, e);
    ErrorMeets(e);
    hide P.Typed, P.Decode, P.Encode, P.Canon, P.WellFormed, Meets;
  }

  // An encoded McpError has a code and a message, neither of them null.
  lemma ErrorMeets(e: P.Patch)
    requires P.Typed(P.MCP_ERROR, e)
    ensures e.plain.Keys == P.PlainNames(P.MCP_ERROR) && Meets(ERROR, JObj(P.Encode(P.MCP_ERROR, e)))
  {
    var code, message := P.MCP_ERROR.plain[0], P.MCP_ERROR.plain[1];
    assert code in P.MCP_ERROR.plain && message in P.MCP_ERROR.plain;
    assert P.PlainTyped(code, e.plain["code"]) && P.PlainTyped(message, e.plain["message"]);
  }

  lemma OthersReadBack(v: Value)
    ensures v.MetaValue? ==> ReadBack(CODEC, META, v) == Some(v)
    ensures v.ResultValue? ==> ReadBack(CODEC, RESULT.fields[1], v) == Some(v) && Meets(RESULT, EncodeField(v))
  {}

  // A branch of metadata and one other field, whose codecs refuse nothing.
  lemma BranchReturned(c: Carrier<Value>, own: Field<Value>, v: Response, x: Value, r: Result<Response, string>)
    requires c.fields == [META, own] && own.name == c.key != "_meta" && c.key in v && Restored(CODEC, c, v, r)
    requires Meets(c, EncodeField(v[c.key])) && ReadBack(CODEC, own, v[c.key]) == Some(x)
    requires "_meta" in v ==> ReadBack(CODEC, META, v["_meta"]) == Some(v["_meta"])
    ensures r == Ok(map name | name in v && (name == "_meta" || name == c.key) :: if name == c.key then x else v[name])
  {
    assert META in c.fields && own in c.fields && forall f :: f in c.fields ==> f == META || f == own;
    assert META.name == "_meta" && CODEC.encode == EncodeField;
    hide ReadBack, Meets, META, CODEC;
    assert r.Ok?;
    var back := map name | name in v && (name == "_meta" || name == c.key) :: if name == c.key then x else v[name];
    assert forall name :: name in r.value ==> name == "_meta" || name == c.key;
    assert r.value.Keys == back.Keys;
    assert r.value == back;
  }

  lemma MetaReadsBack(v: Response)
    requires Typed(v)
    ensures "_meta" in v ==> ReadBack(CODEC, META, v["_meta"]) == Some(v["_meta"])
  {
    hide P.Typed;
    if "_meta" in v {
      OthersReadBack(v["_meta"]);
    }
  }

  lemma ResultReturned(v: Response, r: Result<Response, string>)
    requires Typed(v) && "result" in v && Restored(CODEC, RESULT, v, r)
    ensures r == Ok(Returned(v))
  {
    NamesApart();
    OthersReadBack(v["result"]);
    MetaReadsBack(v);
    hide ReadBack, Meets, P.Typed, P.Canon, Restored;
    BranchReturned(RESULT, RESULT.fields[1], v, v["result"], r);
    assert r.value == Returned(v);
  }

  lemma ErrorReturned(v: Response, r: Result<Response, string>)
    requires Typed(v) && "result" !in v && "error" in v && Restored(CODEC, ERROR, v, r)
    ensures r == Ok(Returned(v))
  {
    HeldError(v);
    MetaReadsBack(v);
    ReturnedError(v);
    hide Typed, Returned, ReadBack, Meets, Restored, EncodeField, P.Typed, P.Canon, P.MCP_ERROR;
    BranchReturned(ERROR, ERROR.fields[1], v, ErrorValue(P.Canon(P.MCP_ERROR, v["error"].error)), r);
  }

  lemma HeldError(v: Response)
    requires Typed(v) && "error" in v
    ensures v["error"].ErrorValue? && ERROR.key == "error" != "_meta" && ERROR.fields == [META, ERROR.fields[1]] && ERROR.fields[1].name == "error"
    ensures ReadBack(CODEC, ERROR.fields[1], v["error"]) == Some(ErrorValue(P.Canon(P.MCP_ERROR, v["error"].error)))
    ensures Meets(ERROR, EncodeField(v["error"]))
  {
    NamesApart();
    hide P.Typed, P.Canon, P.MCP_ERROR, P.Encode, ReadBack, Meets;
    ErrorReadsBack(v["error"].error);
  }

  lemma ReturnedError(v: Response)
    requires Typed(v) && "result" !in v && "error" in v
    ensures Returned(v) == map name | name in v && (name == "_meta" || name == "error")
              :: if name == "error" then ErrorValue(P.Canon(P.MCP_ERROR, v["error"].error)) else v[name]
  {
    hide P.Typed, P.Canon, P.MCP_ERROR;
  }

  // The round trip of every response: an error when neither branch is set, otherwise the result as it
  // is or the error in its canonical form, with the metadata.
  method RoundTrip(v: Response) returns (r: Result<Response, string>)
    requires Typed(v)
    ensures "result" in v || "error" in v ==> r == Ok(Returned(v))
    ensures r.Fail? <==> "result" !in v && "error" !in v
  {
    CodecIsSound();
    r := RequiredKeys.RoundTrip(CODEC, v);
    assert CODEC.carriers == [RESULT, ERROR];
    if "result" in v {
      assert Chosen(CODEC.carriers, v.Keys, 0);
      ResultReturned(v, r);
    } else if "error" in v {
      assert Chosen(CODEC.carriers, v.Keys, 1);
      ErrorReturned(v, r);
    } else {
      assert NoneChosen(CODEC.carriers, v.Keys);
    }
  }

  // A response comes back as it is exactly when it does not hold both outcomes, and its error, if any,
  // is canonical.
  lemma ReturnedExactly(v: Response)
    requires Typed(v) && ("result" in v || "error" in v)
    ensures Returned(v) == v <==> ("error" in v ==> "result" !in v && P.Canon(P.MCP_ERROR, v["error"].error) == v["error"].error)
  {
    NamesApart();
    hide P.Typed, P.Canon;
    if "error" in v ==> "result" !in v && P.Canon(P.MCP_ERROR, v["error"].error) == v["error"].error {
      assert Returned(v).Keys == v.Keys;
    }
  }

  // ---------------------------------------------------------------------------------------------
  // The constructors

  function ResultResponse(result: Json): Response { map["result" := ResultValue(result)] }

  function ErrorResponse(e: P.Patch): Response { map["error" := ErrorValue(e)] }

  // Null marks that are exactly what the decoder would write, and no data under a mark or that encodes
  // as null.
  predicate CanonicalError(e: P.Patch) {
    && (e.nullFields == [] || e.nullFields == ["data"])
    && ("data" in e.values ==> e.nullFields == [] && P.EncodeValue(e.values["data"]) != JNull)
  }

  lemma CanonicalErrors(e: P.Patch)
    requires P.Typed(P.MCP_ERROR, e)
    ensures P.Canon(P.MCP_ERROR, e) == e <==> CanonicalError(e)
  {
    P.McpErrorTable();
    P.CanonicalValues(P.MCP_ERROR, e);
    DataIsAny(e);
    OneMark(e.nullFields);
    hide P.Canon, P.WellFormed, P.Typed, P.EncodeValue, P.Settled, P.InOrder;
  }

  lemma DataIsAny(e: P.Patch)
    requires P.Typed(P.MCP_ERROR, e)
    ensures e.values.Keys <= {"data"}
    ensures "data" in e.values && P.EncodeValue(e.values["data"]) != JNull ==> P.Settled(e.values["data"])
  {
    var f := P.MCP_ERROR.fields[0];
    assert f in P.MCP_ERROR.fields && f.name == "data";
    assert P.FieldNames(P.MCP_ERROR) == {"data"};
  }

  lemma OneMark(marks: seq<string>)
    ensures marks == P.InOrder(P.MCP_ERROR.fields, set name | name in marks) <==> marks == [] || marks == ["data"]
  {
    var fs := P.MCP_ERROR.fields;
    assert fs[..0] == [] && P.InOrder(fs[..0], set name | name in marks) == [];
    assert P.InOrder(fs, set name | name in marks) == if "data" in marks then ["data"] else [];
  }

  // A constructed result comes back unchanged; a constructed error comes back in its canonical form,
  // which is the error itself exactly when it was canonical.
  method ConstructedRoundTrip(result: Json, e: P.Patch) returns (r: Result<Response, string>, s: Result<Response, string>)
    requires P.Typed(P.MCP_ERROR, e)
    ensures r == Ok(ResultResponse(result))
    ensures s == Ok(ErrorResponse(P.Canon(P.MCP_ERROR, e)))
    ensures s == Ok(ErrorResponse(e)) <==> CanonicalError(e)
  {
    CanonicalErrors(e);
    hide P.Typed, P.Canon, CanonicalError;
    OutcomeOnly(result, e);
    hide Returned;
    r := RoundTrip(ResultResponse(result));
    s := RoundTrip(ErrorResponse(e));
    SameError(P.Canon(P.MCP_ERROR, e), e);
  }

  lemma OutcomeOnly(result: Json, e: P.Patch)
    requires P.Typed(P.MCP_ERROR, e)
    ensures Typed(ResultResponse(result)) && Returned(ResultResponse(result)) == ResultResponse(result)
    ensures Typed(ErrorResponse(e)) && Returned(ErrorResponse(e)) == ErrorResponse(P.Canon(P.MCP_ERROR, e))
  {
    NamesApart();
    hide P.Typed, P.Canon;
  }

  lemma SameError(d: P.Patch, e: P.Patch)
    ensures ErrorResponse(d) == ErrorResponse(e) <==> d == e
  {
    assert ErrorResponse(e)["error"].error == e && ErrorResponse(d)["error"].error == d;
  }

  // Two errors that do not come back: one marks an unknown field, one hides its data under a mark.
  lemma ChangedErrors(code: int, text: string, data: Json)
    requires -P.INT32_MAX - 1 <= code <= P.INT32_MAX
    ensures var plain := map["code" := P.PlainNumber(code), "message" := P.PlainText(text)];
            var bogus := P.Patch(plain, map[], ["bogus"]);
            var hidden := P.Patch(plain, map["data" := P.Held(P.S.Any, P.S.AnyV(data))], ["data"]);
            && P.Typed(P.MCP_ERROR, bogus) && P.Canon(P.MCP_ERROR, bogus) != bogus
            && P.Typed(P.MCP_ERROR, hidden) && P.Canon(P.MCP_ERROR, hidden) != hidden
  {
    var plain := map["code" := P.PlainNumber(code), "message" := P.PlainText(text)];
    var bogus := P.Patch(plain, map[], ["bogus"]);
    var hidden := P.Patch(plain, map["data" := P.Held(P.S.Any, P.S.AnyV(data))], ["data"]);
    ErrorTyped(bogus);
    ErrorTyped(hidden);
    hide P.Typed, P.Canon;
    CanonicalErrors(bogus);
    CanonicalErrors(hidden);
    assert |"bogus"| != |"data"|;
    assert ["bogus"][0] != ["data"][0];
  }

  lemma ErrorTyped(e: P.Patch)
    requires e.plain.Keys == {"code", "message"} && e.plain["message"].PlainText?
    requires e.plain["code"].PlainNumber? && -P.INT32_MAX - 1 <= e.plain["code"].n <= P.INT32_MAX
    requires e.values.Keys <= {"data"} && ("data" in e.values ==> e.values["data"].Held? && e.values["data"].shape.Any? && e.values["data"].value.AnyV?)
    ensures P.Typed(P.MCP_ERROR, e)
  {
    assert P.MCP_ERROR.fields[0] in P.MCP_ERROR.fields;
    assert P.MCP_ERROR.plain[0] in P.MCP_ERROR.plain && P.MCP_ERROR.plain[1] in P.MCP_ERROR.plain;
    assert P.PlainNames(P.MCP_ERROR) == {"code", "message"};
    assert P.FieldNames(P.MCP_ERROR) == {"data"};
    assert |"code"| != |"message"|;
  }

  // ---------------------------------------------------------------------------------------------
  // What does not decode, in terms of the JSON

  // An error must be an object with a code and a message, neither of them null or of the wrong type.
  predicate BadError(j: Json) {
    || !j.JObj?
    || "code" !in j.fields || "message" !in j.fields || !j.fields["message"].JStr?
    || !(j.fields["code"].JNum? && -P.INT32_MAX - 1 <= j.fields["code"].n <= P.INT32_MAX)
  }

  lemma ErrorRefused(j: Json)
    ensures BadError(j) <==> j.JNull? || !RequireProperties(j, Demand(["code", "message"], ["code", "message"])) || DecodeError(j).None?
  {
    assert "code" in ["code", "message"] && "message" in ["code", "message"];
    if j.JObj? {
      P.McpErrorRefused(j.fields);
      hide P.Decode, P.MCP_ERROR;
    }
  }

  // A response is refused when it has neither outcome, or no result and an error that is malformed.
  method Read(j: Json) returns (r: Result<Response, string>)
    ensures r.Fail? <==> !j.JObj? || ("result" !in j.fields && ("error" !in j.fields || BadError(j.fields["error"])))
    ensures r.Ok? ==> ("result" in r.value <==> "result" in j.fields) && ("result" in r.value ==> r.value["result"] == ResultValue(j.fields["result"]))
    ensures r.Ok? && "result" !in j.fields ==> "error" in r.value && Some(r.value["error"]) == DecodeError(j.fields["error"])
  {
    CodecIsSound();
    NamesApart();
    r := RequiredKeys.Unmarshal(CODEC, j);
    if j.JObj? {
      var raw := j.fields;
      if "result" in raw {
        assert Chosen(CODEC.carriers, raw.Keys, 0);
        ResultRead(raw, r);
      } else if "error" in raw {
        assert Chosen(CODEC.carriers, raw.Keys, 1);
        ErrorRefused(raw["error"]);
        ErrorRead(raw, r);
      } else {
        assert NoneChosen(CODEC.carriers, raw.Keys);
      }
    }
  }

  lemma ResultRead(raw: map<string, Json>, r: Result<Response, string>)
    requires "result" in raw && Decoded(RESULT, raw, r)
    ensures r.Ok? && "result" in r.value && r.value["result"] == ResultValue(raw["result"])
  {
    NamesApart();
    var own := RESULT.fields[1];
    assert own in RESULT.fields && forall f :: f in RESULT.fields ==> f == META || f == own;
    assert Kept(own, raw);
  }

  lemma ErrorRead(raw: map<string, Json>, r: Result<Response, string>)
    requires "error" in raw && Decoded(ERROR, raw, r)
    ensures var j := raw["error"];
            r.Fail? <==> j.JNull? || !RequireProperties(j, Demand(["code", "message"], ["code", "message"])) || DecodeError(j).None?
    ensures r.Ok? ==> "error" in r.value && Some(r.value["error"]) == DecodeError(raw["error"]) && "result" !in r.value
  {
    NamesApart();
    var own := ERROR.fields[1];
    assert own in ERROR.fields && forall f :: f in ERROR.fields ==> f == META || f == own;
    hide DecodeError, RequireProperties;
    assert r.Ok? ==> r.value.Keys <= {"_meta", "error"};
  }
}
