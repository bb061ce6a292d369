// JSON-RPC 2.0 messages and their wire form (sections 4, 4.1, 5 and 5.1 of the JSON-RPC 2.0
// Specification): one combined wire object carries requests, notifications and responses, and the
// decoder works out again which of the three it was. Numeric identifiers travel through float64.
module Messages {
  import opened Wrappers

  datatype Json =
    | JNull
    | JBool(b: bool)
    | JNum(n: int)
    | JStr(s: string)
    | JArr(items: seq<Json>)
    | JObj(fields: map<string, Json>)

  // A raw JSON field: None is the empty raw message, which is never written.
  type Raw = Option<Json>

  datatype ID = NoID | IntID(i: int) | StrID(s: string)

  predicate IsValid(id: ID) { id != NoID }

  datatype WireError = WireError(code: int, message: string, data: Raw)

  // A Go error value: a wire error, an opaque error, or one that wraps another with %w.
  datatype Err = Wire(w: WireError) | Plain(text: string) | Wrap(text: string, inner: Err)

  function Text(e: Err): string {
    match e
    case Wire(w) => w.message
    case Plain(text) => text
    case Wrap(text, _) => text
  }

  const ErrParse := Wire(WireError(-32700, "parse error", None))
  const ErrInvalidRequest := Wire(WireError(-32600, "invalid request", None))
  const ErrMethodNotFound := Wire(WireError(-32601, "method not found", None))
  const ErrInternal := Wire(WireError(-32603, "internal error", None))
  const ErrUnknown := Wire(WireError(-32001, "unknown error", None))
  const ErrServerClosing := Wire(WireError(-32004, "server is closing", None))
  const ErrClientClosing := Wire(WireError(-32003, "client is closing", None))
  const ErrRejected := Wire(WireError(-32005, "rejected by transport", None))
  const ErrNotHandled := Plain("JSON RPC not handled")

  // errors.Is against a wire error: some error in the chain is a wire error with the same code.
  predicate IsCode(e: Err, code: int) {
    match e
    case Wire(w) => w.code == code
    case Plain(_) => false
    case Wrap(_, inner) => IsCode(inner, code)
  }

  // errors.As: the first wire error in the chain.
  function FirstWire(e: Err): Option<WireError> {
    match e
    case Wire(w) => Some(w)
    case Plain(_) => None
    case Wrap(_, inner) => FirstWire(inner)
  }

  function ToWireError(e: Err): WireError {
    match e
    case Wire(w) => w
    case _ =>
      var code := match FirstWire(e) case Some(w) => w.code case None => 0;
      WireError(code, Text(e), None)
  }

  // The errors that unwrapping leads through, outermost first.
  function Chain(e: Err): seq<Err> { if e.Wrap? then [e] + Chain(e.inner) else [e] }

  // The codes of section 5.1 of the JSON-RPC 2.0 Specification, and this implementation's own.
  lemma Codes()
    ensures IsCode(ErrParse, -32700) && IsCode(ErrInvalidRequest, -32600) && IsCode(ErrMethodNotFound, -32601) && IsCode(ErrInternal, -32603)
    ensures IsCode(ErrUnknown, -32001) && IsCode(ErrClientClosing, -32003) && IsCode(ErrServerClosing, -32004) && IsCode(ErrRejected, -32005)
    ensures forall code :: !IsCode(ErrNotHandled, code)
  {}

  // Carrying a code is having a wire error with that code anywhere in the chain.
  lemma {:induction false} IsCodeInChain(e: Err, code: int)
    ensures IsCode(e, code) <==> exists x :: x in Chain(e) && x.Wire? && x.w.code == code
  {
    if e.Wrap? {
      IsCodeInChain(e.inner, code);
      assert forall x :: x in Chain(e) <==> x == e || x in Chain(e.inner);
    } else {
      assert e in Chain(e);
    }
  }

  // How an error reads on the other side: always as a wire error with the same text; a wire error reads
  // as itself; anything else has no data, and the code it carries, or 0 when it carries none.
  ghost predicate ReadsAs(e: Err, f: Err) {
    && f.Wire? && f.w.message == Text(e)
    && (e.Wire? ==> f == e)
    && (!e.Wire? ==> f.w.data == None)
    && (forall code :: IsCode(e, code) ==> f.w.code == code)
    && ((forall code :: !IsCode(e, code)) ==> f.w.code == 0)
  }

  lemma {:induction false} FirstWireCarries(e: Err)
    ensures FirstWire(e).Some? ==> forall code :: IsCode(e, code) <==> code == FirstWire(e).value.code
    ensures FirstWire(e).None? ==> forall code :: !IsCode(e, code)
  {
    if e.Wrap? {
      FirstWireCarries(e.inner);
    }
  }

  lemma FlattenedReadsAs(e: Err)
    ensures ReadsAs(e, Wire(ToWireError(e)))
  {
    FirstWireCarries(e);
    if e.Wire? {
      assert IsCode(e, e.w.code);
    }
    if FirstWire(e).Some? {
      assert IsCode(e, FirstWire(e).value.code);
    }
  }

  datatype Message =
    | Request(id: ID, methodName: string, params: Raw)
    | Response(id: ID, result: Raw, error: Option<Err>)

  predicate IsCall(m: Message) { m.Request? && IsValid(m.id) }

  // ---------------------------------------------------------------------------------------------
  // float64 identifiers

  const TWO52: int := 0x10_0000_0000_0000
  const TWO53: int := 0x20_0000_0000_0000
  const TWO63: int := 0x8000_0000_0000_0000

  predicate IsInt64(i: int) { -TWO63 <= i < TWO63 }

  // The spacing of float64 values around n: the power of two that leaves 53 significant bits.
  function Spacing(n: nat): (q: nat)
    ensures q >= 1
  {
    if n < TWO53 then 1 else 2 * Spacing(n / 2)
  }

  // Round to the nearest float64, ties to the even significand.
  function RoundNat(n: nat): nat {
    var q := Spacing(n);
    var low := n - n % q;
    if 2 * (n % q) < q then low
    else if 2 * (n % q) > q then low + q
    else if (n / q) % 2 == 0 then low
    else low + q
  }

  function Float64(i: int): int { if i >= 0 then RoundNat(i) else 0 - RoundNat(-i) }

  // int64(v) of an integral float64; an out-of-range value gives the smallest int64 (amd64).
  function FloatToInt64(v: int): int { if IsInt64(v) then v else -TWO63 }

  // i survives the trip through float64: its magnitude has at most 53 significant bits.
  predicate Exact(i: int) { (if i >= 0 then i else -i) % Spacing(if i >= 0 then i else -i) == 0 }

  predicate ExactID(id: ID) { id.IntID? ==> Exact(id.i) }

  predicate Int64ID(id: ID) { id.IntID? ==> IsInt64(id.i) }

  lemma RoundFixed(n: nat)
    ensures RoundNat(n) == n <==> n % Spacing(n) == 0
  {
    var q := Spacing(n);
    assert n % q < q;
  }

  lemma FloatFixed(i: int)
    requires IsInt64(i)
    ensures FloatToInt64(Float64(i)) == i <==> Exact(i)
  {
    RoundFixed(if i >= 0 then i else -i);
    if i == -TWO63 {
      MinInt64Exact();
    }
  }

  // -2^63 is itself a float64, so the out-of-range default never disagrees with it.
  lemma MinInt64Exact()
    ensures Exact(-TWO63)
  {
    SpacingOfScaled(TWO53, 10);
    assert TWO63 == TWO53 * Pow2(10);
    assert Spacing(TWO53) == 2;
  }

  function Pow2(k: nat): (p: nat)
    ensures p >= 1
  {
    if k == 0 then 1 else 2 * Pow2(k - 1)
  }

  lemma {:induction false} SpacingOfScaled(n: nat, k: nat)
    requires n >= TWO53
    ensures Spacing(n * Pow2(k)) == Spacing(n) * Pow2(k)
  {
    if k > 0 {
      MulTwice(n, Pow2(k - 1));
      MulTwice(Spacing(n), Pow2(k - 1));
      MulAtLeast(n, Pow2(k - 1));
      SpacingOfDouble(n * Pow2(k - 1));
      SpacingOfScaled(n, k - 1);
    }
  }

  lemma SpacingOfDouble(m: nat)
    requires m >= TWO52
    ensures Spacing(2 * m) == 2 * Spacing(m)
  {
    assert (2 * m) / 2 == m;
  }

  lemma MulTwice(n: nat, p: nat)
    ensures n * (2 * p) == 2 * (n * p)
  {}

  lemma MulAtLeast(n: nat, p: nat)
    requires p >= 1
    ensures n * p >= n
  {
    assert n * p == n + n * (p - 1);
  }

  // Every identifier of magnitude at most 2^53 survives.
  lemma SmallExact(i: int)
    requires -TWO53 <= i <= TWO53
    ensures Exact(i)
  {
    assert Spacing(TWO53) == 2;
  }

  // The bound is tight: 2^53 + 1 comes back as 2^53, the identifier of another call.
  lemma FirstInexact()
    ensures IsInt64(TWO53 + 1) && !Exact(TWO53 + 1)
    ensures FloatToInt64(Float64(TWO53 + 1)) == TWO53
  {
    assert (TWO53 + 1) / 2 == TWO52;
    assert Spacing(TWO53 + 1) == 2;
    assert (TWO53 + 1) % 2 == 1;
    assert TWO52 % 2 == 0;
  }

  // Every n lies between two neighbours that are multiples of its spacing, a power of two that leaves 53
  // bits: below 2^53 every number is one, and above the quotient has exactly 53 bits.
  lemma {:induction false} SpacingLeaves53(n: nat)
    ensures n < TWO53 ==> Spacing(n) == 1
    ensures n >= TWO53 ==> TWO52 <= n / Spacing(n) < TWO53
    ensures exists k: nat :: Spacing(n) == Pow2(k)
  {
    if n < TWO53 {
      assert Pow2(0) == 1;
    } else {
      SpacingLeaves53(n / 2);
      var k: nat :| Spacing(n / 2) == Pow2(k);
      assert Pow2(k + 1) == Spacing(n);
      HalfQuotient(n, Spacing(n / 2));
    }
  }

  lemma HalfQuotient(n: nat, q: nat)
    requires q >= 1
    ensures n / (2 * q) == (n / 2) / q
  {
    var a, r := (n / 2) / q, (n / 2) % q;
    assert n / 2 == q * a + r;
    assert n == 2 * (n / 2) + n % 2;
    assert n == (2 * q) * a + (2 * r + n % 2);
    QuotientIs(n, 2 * q, a, 2 * r + n % 2);
  }

  lemma QuotientIs(n: nat, q: nat, a: nat, r: nat)
    requires n == q * a + r && r < q
    ensures n / q == a
  {
    var d: int := n / q - a;
    assert n == q * (n / q) + n % q;
    assert q * (n / q) == q * a + q * d;
    assert d >= 1 ==> q * d >= q;
    assert d <= -1 ==> q * d + q <= 0;
  }

  // The float64 nearest to n is one of those neighbours, at most half a spacing away, and of two equally
  // near ones the one with the even quotient.
  lemma NearestEven(n: nat) returns (b: nat)
    ensures var q, v := Spacing(n), RoundNat(n);
            v == q * b && 2 * (v - n) <= q && 2 * (n - v) <= q && (2 * (v - n) == q || 2 * (n - v) == q ==> b % 2 == 0)
  {
    var q, a, r := Spacing(n), n / Spacing(n), n % Spacing(n);
    RoundCases(n);
    var low := Neighbours(n, q);
    hide Spacing, RoundNat;
    b := if 2 * r < q || (2 * r == q && a % 2 == 0) then a else a + 1;
  }

  lemma RoundCases(n: nat)
    ensures var q, r := Spacing(n), n % Spacing(n);
            RoundNat(n) == if 2 * r < q || (2 * r == q && (n / q) % 2 == 0) then n - r else n - r + q
  {}

  lemma Neighbours(n: nat, q: nat) returns (low: nat)
    requires q >= 1
    ensures low == n - n % q && low == q * (n / q) && low + q == q * (n / q + 1) && n % q < q
  {
    low := n - n % q;
    assert q * (n / q + 1) == q * (n / q) + q;
  }

  // What a numeric identifier is after one trip.
  function Carried(i: int): int { FloatToInt64(Float64(i)) }

  lemma {:induction false} SpacingAtMost(n: nat)
    requires n >= TWO53
    ensures Spacing(n) >= 2 && TWO52 * Spacing(n) <= n
  {
    if n / 2 >= TWO53 {
      SpacingAtMost(n / 2);
    } else {
      assert Spacing(n / 2) == 1;
    }
  }

  lemma MultipleBelow(n: nat, q: nat, k: nat)
    requires q >= 1 && k * q <= n
    ensures k * q <= n - n % q
  {
    var d: int := n / q - k;
    assert n == q * (n / q) + n % q && q * (n / q) == q * k + q * d;
    assert d < 0 ==> q * d + q <= 0;
    assert d >= 0 ==> q * d >= 0;
  }

  lemma RoundAtLeast(n: nat)
    requires n >= TWO53
    ensures RoundNat(n) >= TWO53
  {
    SpacingAtMost(n);
    MultipleBelow(n, Spacing(n), TWO52);
  }

  // An identifier that arrives below 2^53 is the one that was sent.
  lemma SmallCarried(i: int)
    requires 0 < Carried(i) < TWO53
    ensures Carried(i) == i
  {
    if i >= TWO53 {
      RoundAtLeast(i);
    }
  }

  // ---------------------------------------------------------------------------------------------
  // The combined wire object

  datatype WireID = IdNil | IdNum(n: int) | IdStr(s: string) | IdOther

  datatype WireCombined = WireCombined(
    version: string, id: WireID, methodName: string, params: Raw, result: Raw, error: Option<WireError>)

  const WIRE_VERSION := "2.0"

  function IdValue(id: ID): WireID {
    match id
    case NoID => IdNil
    case IntID(i) => IdNum(i)
    case StrID(s) => IdStr(s)
  }

  function Marshal(m: Message): WireCombined {
    var w := WireCombined(WIRE_VERSION, IdValue(m.id), "", None, None, None);
    match m
    case Request(_, methodName, params) => w.(methodName := methodName, params := params)
    case Response(_, result, error) =>
      w.(result := result, error := if error.Some? then Some(ToWireError(error.value)) else None)
  }

  // The object fields with one more field, unless its value is empty.
  function With(fields: map<string, Json>, name: string, value: Raw): map<string, Json> {
    if value.Some? then fields[name := value.value] else fields
  }

  function IdJson(id: WireID): Raw {
    match id
    case IdNum(n) => Some(JNum(n))
    case IdStr(s) => Some(JStr(s))
    case _ => None
  }

  function ErrorJson(e: WireError): Json {
    JObj(With(map["code" := JNum(e.code), "message" := JStr(e.message)], "data", e.data))
  }

  // The object's JSON form: an absent identifier, an empty method, empty raw fields and a nil error
  // are omitted; the identifiers 0 and "" are not.
  function WireJson(w: WireCombined): Json {
    var f0 := map["jsonrpc" := JStr(w.version)];
    var f1 := With(f0, "id", IdJson(w.id));
    var f2 := With(f1, "method", if w.methodName == "" then None else Some(JStr(w.methodName)));
    var f3 := With(f2, "params", w.params);
    var f4 := With(f3, "result", w.result);
    JObj(With(f4, "error", if w.error.Some? then Some(ErrorJson(w.error.value)) else None))
  }

  function EncodeMessage(m: Message): Json { WireJson(Marshal(m)) }

  function Field(fields: map<string, Json>, name: string): Raw {
    if name in fields then Some(fields[name]) else None
  }

  // A string field: absent or null leaves the zero value, any other type is an error.
  function StringField(v: Raw): Option<string> {
    match v
    case None => Some("")
    case Some(JNull) => Some("")
    case Some(JStr(s)) => Some(s)
    case _ => None
  }

  // A field of type any: numbers become float64.
  function AnyID(v: Raw): WireID {
    match v
    case None => IdNil
    case Some(JNull) => IdNil
    case Some(JNum(n)) => IdNum(Float64(n))
    case Some(JStr(s)) => IdStr(s)
    case _ => IdOther
  }

  function ErrorField(v: Raw): Option<Option<WireError>> {
    match v
    case None => Some(None)
    case Some(JNull) => Some(None)
    case Some(JObj(f)) =>
      var code := Field(f, "code");
      var message := StringField(Field(f, "message"));
      if message.None? then None
      else if code.None? || code.value.JNull? then Some(Some(WireError(0, message.value, Field(f, "data"))))
      else if code.value.JNum? then Some(Some(WireError(code.value.n, message.value, Field(f, "data"))))
      else None
    case _ => None
  }

  function Unmarshal(j: Json): Option<WireCombined> {
    if !j.JObj? then None else
    var version := StringField(Field(j.fields, "jsonrpc"));
    var methodName := StringField(Field(j.fields, "method"));
    var error := ErrorField(Field(j.fields, "error"));
    if version.None? || methodName.None? || error.None? then None
    else Some(WireCombined(version.value, AnyID(Field(j.fields, "id")), methodName.value,
                           Field(j.fields, "params"), Field(j.fields, "result"), error.value))
  }

  function MakeID(v: WireID): Option<ID> {
    match v
    case IdNil => Some(NoID)
    case IdNum(n) => Some(IntID(FloatToInt64(n)))
    case IdStr(s) => Some(StrID(s))
    case IdOther => None
  }

  function DecodeMessage(j: Json): Result<Message, Err> {
    var w := Unmarshal(j);
    if w.None? then Fail(ErrParse)
    else if w.value.version != WIRE_VERSION then Fail(Plain("invalid message version tag"))
    else
      var id := MakeID(w.value.id);
      if id.None? then Fail(ErrParse)
      else if w.value.methodName != "" then Ok(Request(id.value, w.value.methodName, w.value.params))
      else if !IsValid(id.value) then Fail(ErrInvalidRequest)
      else Ok(Response(id.value, w.value.result,
                       if w.value.error.Some? then Some(Wire(w.value.error.value)) else None))
  }

  // The encoding, member by member: nothing but what the message has to say, and an error by its text, its
  // code and its data.
  lemma EncodedMembers(m: Message)
    ensures EncodeMessage(m).JObj?
    ensures var f := EncodeMessage(m).fields;
            && f.Keys <= {"jsonrpc", "id", "method", "params", "result", "error"}
            && Field(f, "jsonrpc") == Some(JStr("2.0"))
            && Field(f, "id") == (match m.id case NoID => None case IntID(i) => Some(JNum(i)) case StrID(s) => Some(JStr(s)))
            && Field(f, "method") == (if m.Request? && m.methodName != "" then Some(JStr(m.methodName)) else None)
            && Field(f, "params") == (if m.Request? then m.params else None)
            && Field(f, "result") == (if m.Response? then m.result else None)
            && (Field(f, "error").Some? <==> m.Response? && m.error.Some?)
            && (Field(f, "error").Some? ==> SaysError(Field(f, "error").value, m.error.value))
  {
    WireFields(Marshal(m));
    if m.Response? && m.error.Some? {
      ErrorMembers(m.error.value);
    }
  }

  ghost predicate SaysError(j: Json, e: Err) {
    && j.JObj? && j.fields.Keys <= {"code", "message", "data"}
    && Field(j.fields, "message") == Some(JStr(Text(e)))
    && Field(j.fields, "data") == (if e.Wire? then e.w.data else None)
    && (exists code :: Field(j.fields, "code") == Some(JNum(code)) && if exists own :: IsCode(e, own) then IsCode(e, code) else code == 0)
  }

  lemma ErrorMembers(e: Err)
    ensures SaysError(ErrorJson(ToWireError(e)), e)
  {
    NamesDistinct();
    FirstWireCarries(e);
    var w := ToWireError(e);
    assert Field(ErrorJson(w).fields, "code") == Some(JNum(w.code));
    assert Field(ErrorJson(w).fields, "message") == Some(JStr(w.message));
    assert Field(ErrorJson(w).fields, "data") == w.data;
    if FirstWire(e).Some? {
      assert IsCode(e, FirstWire(e).value.code);
    }
  }

  predicate IsText(v: Raw) { v.None? || v.value.JNull? || v.value.JStr? }

  predicate Nonempty(v: Raw) { v.Some? && v.value.JStr? && v.value.s != "" }

  // What is accepted: an object of version 2.0 whose identifier is a number or a string or is missing,
  // whose error is well formed or missing, and that names a method or carries an identifier.
  predicate Acceptable(j: Json) {
    && j.JObj? && Field(j.fields, "jsonrpc") == Some(JStr("2.0")) && IsText(Field(j.fields, "method"))
    && (var id := Field(j.fields, "id");
        && (id.None? || id.value.JNull? || id.value.JNum? || id.value.JStr?)
        && (Nonempty(Field(j.fields, "method")) || (id.Some? && !id.value.JNull?)))
    && (var error := Field(j.fields, "error");
        error.None? || error.value.JNull?
        || (error.value.JObj? && IsText(Field(error.value.fields, "message"))
            && (var code := Field(error.value.fields, "code"); code.None? || code.value.JNull? || code.value.JNum?)))
  }

  predicate ReadsError(j: Json, e: Err) {
    && j.JObj? && e.Wire? && e.w.data == Field(j.fields, "data")
    && JStr(e.w.message) == (if Nonempty(Field(j.fields, "message")) then j.fields["message"] else JStr(""))
    && JNum(e.w.code) == (if "code" in j.fields && j.fields["code"].JNum? then j.fields["code"] else JNum(0))
  }

  // Decoding any JSON, exactly: what is accepted, and that a method makes it a request.
  lemma DecodesExactly(j: Json)
    ensures DecodeMessage(j).Ok? <==> Acceptable(j)
    ensures DecodeMessage(j).Ok? ==>
              var d := DecodeMessage(j).value;
              && (d.Request? <==> Nonempty(Field(j.fields, "method")))
              && (d.Request? ==> Some(JStr(d.methodName)) == Field(j.fields, "method") && d.params == Field(j.fields, "params"))
              && (d.Response? ==> d.result == Field(j.fields, "result"))
              && (d.Response? ==> (d.error.Some? <==> Field(j.fields, "error").Some? && !Field(j.fields, "error").value.JNull?))
              && (d.Response? && d.error.Some? ==> ReadsError(Field(j.fields, "error").value, d.error.value))
              && (d.id.StrID? <==> Field(j.fields, "id").Some? && Field(j.fields, "id").value.JStr?)
              && (d.id.StrID? ==> Field(j.fields, "id") == Some(JStr(d.id.s)))
              && (d.id.IntID? <==> Field(j.fields, "id").Some? && Field(j.fields, "id").value.JNum?)
              && (d.id.IntID? ==> d.id.i == Carried(Field(j.fields, "id").value.n))
  {
    hide Float64, FloatToInt64;
  }

  // ---------------------------------------------------------------------------------------------
  // Round trip

  // What a message becomes on the other side: a response's error is flattened to a wire error.
  function Canon(m: Message): Message {
    match m
    case Request(_, _, _) => m
    case Response(id, result, error) =>
      Response(id, result, if error.Some? then Some(Wire(ToWireError(error.value))) else None)
  }

  // A request arrives as it is; a response with the same identifier and result, and with an error
  // exactly when there was one, which then reads as it should.
  ghost predicate ArrivesAs(m: Message, d: Message) {
    match m
    case Request(_, _, _) => d == m
    case Response(id, result, error) => d.Response? && d.id == id && SameOutcome(m, d)
  }

  ghost predicate SameOutcome(m: Message, d: Message)
    requires m.Response? && d.Response?
  {
    && d.result == m.result && (d.error.Some? <==> m.error.Some?)
    && (m.error.Some? ==> ReadsAs(m.error.value, d.error.value))
  }

  lemma CanonArrives(m: Message)
    ensures ArrivesAs(m, Canon(m))
  {
    if m.Response? && m.error.Some? {
      FlattenedReadsAs(m.error.value);
    }
    hide ReadsAs;
  }

  // What a caller can check before sending: a request names a method, a response carries an
  // identifier, and a numeric identifier has at most 53 significant bits.
  predicate Sendable(m: Message) {
    && ExactID(m.id)
    && (m.Request? ==> m.methodName != "")
    && (m.Response? ==> IsValid(m.id))
  }

  // The member names of the wire object and of the error object are pairwise distinct.
  lemma NamesDistinct()
    ensures |"jsonrpc"| == 7 && |"id"| == 2 && |"method"| == 6 && |"params"| == 6 && |"result"| == 6
    ensures |"error"| == 5 && |"code"| == 4 && |"message"| == 7 && |"data"| == 4
    ensures "jsonrpc" != "message" && "method" != "params" && "params" != "result" && "method" != "result"
    ensures "code" != "data"
  {
    assert "jsonrpc"[0] == 'j' && "message"[0] == 'm';
    assert "method"[0] == 'm' && "params"[0] == 'p' && "result"[0] == 'r';
    assert "code"[0] == 'c' && "data"[0] == 'd';
  }

  lemma WireFields(w: WireCombined)
    ensures var f := WireJson(w).fields;
            && Field(f, "jsonrpc") == Some(JStr(w.version))
            && Field(f, "id") == IdJson(w.id)
            && Field(f, "method") == (if w.methodName == "" then None else Some(JStr(w.methodName)))
            && Field(f, "params") == w.params
            && Field(f, "result") == w.result
            && Field(f, "error") == (if w.error.Some? then Some(ErrorJson(w.error.value)) else None)
  {
    NamesDistinct();
  }

  lemma ErrorFieldJson(e: WireError)
    ensures ErrorField(Some(ErrorJson(e))) == Some(Some(e))
  {
    NamesDistinct();
    var f := ErrorJson(e).fields;
    assert Field(f, "code") == Some(JNum(e.code));
    assert Field(f, "message") == Some(JStr(e.message));
    assert Field(f, "data") == e.data;
  }

  lemma UnmarshalMarshal(m: Message)
    ensures Unmarshal(EncodeMessage(m)) == Some(Marshal(m).(id := AnyID(IdJson(IdValue(m.id)))))
  {
    var w := Marshal(m);
    WireFields(w);
    if w.error.Some? {
      ErrorFieldJson(w.error.value);
    }
  }

  // The message round trip, exactly: a message with an int64 identifier arrives as itself, its error
  // read as it should, if and only if it is sendable.
  lemma RoundTrip(m: Message)
    requires Int64ID(m.id)
    ensures DecodeMessage(EncodeMessage(m)) == Ok(Canon(m)) <==> Sendable(m)
    ensures (exists d :: DecodeMessage(EncodeMessage(m)) == Ok(d) && ArrivesAs(m, d)) <==> Sendable(m)
  {
    UnmarshalMarshal(m);
    CanonArrives(m);
    if m.id.IntID? {
      FloatFixed(m.id.i);
    }
    hide ReadsAs, EncodeMessage, Unmarshal;
    if d :| DecodeMessage(EncodeMessage(m)) == Ok(d) && ArrivesAs(m, d) {
      assert Sendable(m);
    }
  }

  // The error of a response that was read: a wire error arrives as it was, data included, and whatever
  // code the sent error carried, the read one carries.
  lemma ErrorsArrive(id: ID, result: Raw, e: Err, d: Message)
    requires DecodeMessage(EncodeMessage(Response(id, result, Some(e)))) == Ok(d)
    ensures d.Response? && d.result == result && d.error.Some? && ReadsAs(e, d.error.value)
    ensures e.Wire? ==> d.error == Some(e)
    ensures forall code :: IsCode(e, code) ==> IsCode(d.error.value, code)
  {
    UnmarshalMarshal(Response(id, result, Some(e)));
    FlattenedReadsAs(e);
    hide EncodeMessage, Unmarshal;
  }

  // Wrapping an error changes its text and drops its data, never the code it arrives with.
  lemma WrappingKeepsCode(id: ID, result: Raw, text: string, inner: Err, d: Message, x: Message)
    requires DecodeMessage(EncodeMessage(Response(id, result, Some(Wrap(text, inner))))) == Ok(d)
    requires DecodeMessage(EncodeMessage(Response(id, result, Some(inner)))) == Ok(x)
    ensures d.Response? && x.Response? && d.error.Some? && x.error.Some? && d.error.value.Wire? && x.error.value.Wire?
    ensures d.error.value.w == WireError(x.error.value.w.code, text, None)
  {
    ErrorsArrive(id, result, Wrap(text, inner), d);
    ErrorsArrive(id, result, inner, x);
    FirstWireCarries(inner);
    hide EncodeMessage, DecodeMessage;
    if FirstWire(inner).Some? {
      assert IsCode(inner, FirstWire(inner).value.code) && IsCode(Wrap(text, inner), FirstWire(inner).value.code);
    } else {
      assert forall code :: IsCode(Wrap(text, inner), code) <==> IsCode(inner, code);
    }
  }

  // Flattening twice is flattening once.
  lemma CanonIdempotent(m: Message)
    ensures Canon(Canon(m)) == Canon(m)
    ensures ArrivesAs(m, Canon(m))
  {
    CanonArrives(m);
  }

  // A call without a method name is indistinguishable on the wire from an empty success response:
  // the peer decodes it as the answer to its own call with the same identifier.
  lemma EmptyMethodIsResponse(id: ID, params: Raw)
    requires IsValid(id) && Int64ID(id) && ExactID(id)
    ensures DecodeMessage(EncodeMessage(Request(id, "", params))) == Ok(Response(id, None, None))
  {
    UnmarshalMarshal(Request(id, "", params));
    if id.IntID? {
      FloatFixed(id.i);
    }
  }

  // Whatever arrives under a valid identifier was sent under one that float64 maps to it.
  lemma DecodedShape(m: Message, d: Message)
    requires DecodeMessage(EncodeMessage(m)) == Ok(d)
    ensures d.Request? ==> m.Request? && m.methodName == d.methodName && m.params == d.params
    ensures m.Response? ==> d.Response?
    ensures d.Response? && m.Request? ==> m.methodName == ""
    ensures Int64ID(m.id) && ExactID(m.id) ==> d.id == m.id
    ensures m.Response? ==> SameOutcome(m, d)
    ensures m.Response? && d.id == m.id ==> d == Canon(m)
    ensures d.id.IntID? <==> m.id.IntID?
    ensures m.id.IntID? ==> d.id == IntID(Carried(m.id.i))
    ensures IsValid(d.id) <==> IsValid(m.id)
  {
    UnmarshalMarshal(m);
    CanonArrives(m);
    hide ReadsAs;
    if m.id.IntID? && IsInt64(m.id.i) {
      FloatFixed(m.id.i);
    }
  }
}
