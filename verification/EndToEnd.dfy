// Between two peers, a call is answered by its own answer: what the peer made of exactly that
// request. Two limits are real, and a run shows each: a message without a method name is read as an
// answer, and the identifiers 2^53 and 2^53 + 1 are no longer told apart.
module EndToEnd {
  import opened Wrappers
  import opened Messages
  import opened Connection
  import opened ConnectionInvariant
  import opened ConnectionRequests
  import opened ConnectionTheorems
  import opened ConnectionRuns
  import opened Peers

  // What a user of a connection can check before calling it: every call and notification names a
  // method.
  predicate MethodsNamed(c: Conn) {
    && (forall k :: 0 <= k < |c.calls| ==> c.calls[k].methodName != "")
    && (forall n :: 0 <= n < |c.notes| ==> c.notes[n].methodName != "")
  }

  // An identifier that no other of n calls can be mistaken for: any below 2^53, however many calls
  // there are, and 2^53 itself while no call goes beyond it.
  predicate Safe(n: nat, i: int) { 0 < i < TWO53 || (i == TWO53 && n <= TWO53) }

  lemma CallIDExact(k: nat)
    requires k < TWO53
    ensures ExactID(CallID(k)) && Int64ID(CallID(k)) && Carried(k + 1) == k + 1
  {
    SmallExact(k + 1);
    FloatFixed(k + 1);
  }

  lemma CarriedSafe(n: nat, i: int, k: nat)
    requires Safe(n, i) && k < n && Carried(k + 1) == i
    ensures k + 1 == i
  {
    if i < TWO53 {
      SmallCarried(k + 1);
    } else {
      CallIDExact(k);
    }
  }

  // Two trips are as safe as one.
  lemma CarriedTwice(n: nat, i: int, k: nat)
    requires Safe(n, i) && k < n && Carried(Carried(k + 1)) == i
    ensures k + 1 == i
  {
    hide Carried;
    if i < TWO53 {
      SmallCarried(Carried(k + 1));
      SmallCarried(k + 1);
    } else {
      CallIDExact(k);
    }
  }

  predicate SafeID(n: nat, id: ID) { id.IntID? && Safe(n, id.i) }

  // A call that the peer accepted was written by exactly one call of this side; it is that call, and
  // under a safe identifier it still carries the call's own.
  lemma RequestOrigin(p: Link, r: nat) returns (k: nat)
    requires LinkInv(p) && r < |p.b.reqs| && IsValid(p.b.reqs[r].msg.id)
    ensures k < |p.a.calls| && p.a.calls[k].sentAt == Some(p.b.reqs[r].at)
    ensures p.b.reqs[r].msg == Request(IntID(Carried(k + 1)), p.a.calls[k].methodName, p.a.calls[k].params)
    ensures SafeID(|p.a.calls|, p.b.reqs[r].msg.id) ==> p.b.reqs[r].msg == CallRequest(p.a.calls[k], k)
  {
    hide LinkInv, Carried;
    k := RequestWriter(p, r);
    if SafeID(|p.a.calls|, p.b.reqs[r].msg.id) {
      CarriedSafe(|p.a.calls|, p.b.reqs[r].msg.id.i, k);
    }
  }

  lemma RequestWriter(p: Link, r: nat) returns (k: nat)
    requires LinkInv(p) && r < |p.b.reqs| && IsValid(p.b.reqs[r].msg.id)
    ensures k < |p.a.calls| && p.a.calls[k].sentAt == Some(p.b.reqs[r].at)
    ensures p.b.reqs[r].msg == Request(IntID(Carried(k + 1)), p.a.calls[k].methodName, p.a.calls[k].params)
  {
    var at := p.b.reqs[r].at;
    hide LinkInv, Inv, Carried, EncodeMessage, DecodeMessage, CallRequest;
    RequestFromStream(p, r);
    RequestSent(p.a.sent[at].msg, p.b.reqs[r].msg);
    k := CallWriter(p.a, at);
    CallArrives(p.a.calls[k], k, p.b.reqs[r].msg);
  }

  lemma RequestSent(m: Message, d: Message)
    requires d.Request? && DecodeMessage(EncodeMessage(m)) == Ok(d)
    ensures m.Request? && (IsValid(d.id) <==> IsValid(m.id))
  {
    hide EncodeMessage, DecodeMessage, Carried, SameOutcome, Canon;
    DecodedShape(m, d);
  }

  lemma CallArrives(a: Call, k: nat, d: Message)
    requires d.Request? && DecodeMessage(EncodeMessage(CallRequest(a, k))) == Ok(d)
    ensures d == Request(IntID(Carried(k + 1)), a.methodName, a.params)
  {
    hide EncodeMessage, DecodeMessage, Carried, SameOutcome, Canon;
    DecodedShape(CallRequest(a, k), d);
  }

  // Only calls are written as requests with an identifier.
  lemma CallWriter(c: Conn, at: nat) returns (k: nat)
    requires Inv(c) && at < |c.sent| && c.sent[at].msg.Request? && IsValid(c.sent[at].msg.id)
    ensures k < |c.calls| && c.calls[k].sentAt == Some(at) && c.sent[at].msg == CallRequest(c.calls[k], k)
  {
    hide Inv;
    SentByItsWriter(c, at);
    match c.sent[at].origin
    case FromCall(k1) => k := k1;
    case FromNote(_) => assert false;
    case FromReq(r) =>
      RepliesAreResponses(c, r, c.sent[at].msg);
      assert false;
  }

  lemma RequestFromStream(p: Link, r: nat)
    requires LinkInv(p) && r < |p.b.reqs|
    ensures var at := p.b.reqs[r].at;
            Inv(p.a) && at < |p.a.sent| && p.b.reqs[r].msg.Request? && DecodeMessage(EncodeMessage(p.a.sent[at].msg)) == Ok(p.b.reqs[r].msg)
  {
    RequestsWereRead(p.b, r);
    hide Inv, EncodeMessage, DecodeMessage;
  }

  lemma RequestsWereRead(c: Conn, r: nat)
    requires Inv(c) && r < |c.reqs|
    ensures c.reqs[r].at < |c.received| && c.received[c.reqs[r].at] == c.reqs[r].msg && c.reqs[r].msg.Request?
  {
    ReqIsOk(c, r);
    hide CallsInv, NotesInv, ReqsInv, HostsInv, CountInv, DispatchInv, SentInv, BrokenInv, ReaderInv, DoneInv, ReqOk;
  }

  lemma RepliesAreResponses(c: Conn, r: nat, m: Message)
    requires Inv(c) && r < |c.reqs| && c.reqs[r].reply == Some(m)
    ensures m.Response? && m.id == c.reqs[r].msg.id && IsValid(m.id) && c.reqs[r].outcome.Some? && !c.reqs[r].dup
    ensures Settle(c.reqs[r].msg.id, NameOf(c.reqs[r].msg), c.reqs[r].outcome.value).reply == Some(m)
  {
    ReqIsOk(c, r);
    hide Inv;
  }

  // Positions in the input tell requests apart.
  lemma SamePlaceSameRequest(c: Conn, r: nat, r': nat)
    requires Inv(c) && r < |c.reqs| && r' < |c.reqs| && c.reqs[r].at == c.reqs[r'].at
    ensures r == r'
  {
    hide CallsInv, NotesInv, ReqsInv, HostsInv, CountInv, DispatchInv, SentInv, BrokenInv, ReaderInv, DoneInv;
  }

  // The peer accepts each call with a safe identifier at most once.
  lemma AcceptedOnce(p: Link, r: nat, r': nat)
    requires LinkInv(p) && r < |p.b.reqs| && r' < |p.b.reqs|
    requires SafeID(|p.a.calls|, p.b.reqs[r].msg.id) && p.b.reqs[r].msg.id == p.b.reqs[r'].msg.id
    ensures r == r'
  {
    hide Inv;
    var k := RequestOrigin(p, r);
    var k' := RequestOrigin(p, r');
    SamePlaceSameRequest(p.b, r, r');
  }

  // Between two such peers no safe identifier is ever found already in use.
  lemma NeverInUse(p: Link, r: nat)
    requires LinkReachable(p) && r < |p.b.reqs| && (IsValid(p.b.reqs[r].msg.id) ==> SafeID(|p.a.calls|, p.b.reqs[r].msg.id))
    ensures !p.b.reqs[r].dup
  {
    LinkReachableInv(p);
    hide LinkInv;
    if p.b.reqs[r].dup {
      var r' := DuplicateOf(p, r);
      AcceptedOnce(p, r, r');
    }
  }

  lemma DuplicateOf(p: Link, r: nat) returns (r': nat)
    requires LinkInv(p) && r < |p.b.reqs| && p.b.reqs[r].dup
    ensures r' < r && p.b.reqs[r'].msg.id == p.b.reqs[r].msg.id && IsValid(p.b.reqs[r].msg.id)
  {
    ReqIsOk(p.b, r);
    hide CallsInv, NotesInv, ReqsInv, HostsInv, CountInv, DispatchInv, SentInv, BrokenInv, ReaderInv, DoneInv, ReqOk;
    assert EarlierSameID(p.b.reqs, r);
    r' :| 0 <= r' < r && p.b.reqs[r'].msg.id == p.b.reqs[r].msg.id;
  }

  // ---------------------------------------------------------------------------------------------
  // The theorem

  // What a caller is told of an outcome on the other side: its error whenever it has one, under the text
  // and code it carries, with an unhandled method reported by its name; the value when there is no error;
  // an internal error when there is neither.
  ghost predicate Told(o: Outcome, name: string, m: Message) {
    && m.Response?
    && match o.err
       case Some(e) =>
         && m.result.None? && m.error.Some? && m.error.value.Wire?
         && (if Unhandled(e) then m.error.value.w.code == -32601 && EndsWith(m.error.value.w.message, Quoted(name))
             else ReadsAs(e, m.error.value))
       case None =>
         match o.produced
         case Value(j) => m.result == Some(j) && m.error.None?
         case Nothing => m.result.None? && m.error.Some? && m.error.value.Wire? && m.error.value.w.code == -32603
         case Unmarshalable => false
  }

  lemma TellsTold(o: Outcome, name: string, reply: Message, m: Message)
    requires Tells(o, name, reply) && m.Response? && SameOutcome(reply, m)
    ensures Told(o, name, m)
  {}

  // Request r of the peer is call k, answered by what was made of it, at place `at` of the stream.
  ghost predicate AnsweredBy(p: Link, k: nat, r: nat, at: nat, m: Message)
    requires k < |p.a.calls|
  {
    && r < |p.b.reqs|
    && p.b.reqs[r].msg == CallRequest(p.a.calls[k], k) && !p.b.reqs[r].dup
    && p.b.reqs[r].sentAt == Some(at) && p.b.reqs[r].outcome.Some?
    && m.id == CallID(k) && Told(p.b.reqs[r].outcome.value, p.a.calls[k].methodName, m)
  }

  lemma AnswerWasRead(c: Conn, k: nat)
    requires Inv(c) && k < |c.calls| && c.calls[k].answer.Some? && c.calls[k].answer.value.at.Some?
    ensures var at := c.calls[k].answer.value.at.value;
            at < |c.received| && c.received[at] == c.calls[k].answer.value.msg
    ensures c.calls[k].answer.value.msg.Response? && c.calls[k].answer.value.msg.id == CallID(k)
  {
    hide NotesInv, ReqsInv, HostsInv, CountInv, DispatchInv, SentInv, BrokenInv, ReaderInv, DoneInv;
    assert CallOk(c.calls[k], k, c.s.outgoingCalls);
  }

  // A request or notification written without a method name.
  predicate Unnamed(m: Message) { m.Request? && m.methodName == "" }

  // Any other message that this side reads as a response is the peer's reply to one of its requests.
  lemma ResponseOrigin(p: Link, at: nat) returns (r: nat)
    requires LinkInv(p) && at < |p.a.received| && p.a.received[at].Response? && !Unnamed(p.b.sent[at].msg)
    ensures r < |p.b.reqs| && p.b.reqs[r].sentAt == Some(at) && p.b.reqs[r].reply == Some(p.b.sent[at].msg)
    ensures p.b.sent[at].origin == FromReq(r)
  {
    hide Inv;
    var m := p.b.sent[at];
    SentByItsWriter(p.b, at);
    DecodedShape(m.msg, p.a.received[at]);
    match m.origin
    case FromCall(_) => assert false;
    case FromNote(_) => assert false;
    case FromReq(r1) => r := r1;
  }

  lemma CarriedOnce(k: nat, k': nat, n: nat)
    requires k == k' && k < n && Safe(n, k + 1)
    ensures Carried(k' + 1) == k + 1
  {
    CallIDExact(k);
  }

  lemma ReplyTells(c: Conn, r: nat)
    requires Inv(c) && r < |c.reqs| && c.reqs[r].reply.Some?
    ensures c.reqs[r].msg.Request? && c.reqs[r].outcome.Some? && IsValid(c.reqs[r].id)
    ensures Tells(c.reqs[r].outcome.value, c.reqs[r].msg.methodName, c.reqs[r].reply.value)
  {
    ReqIsOk(c, r);
    hide Inv;
    SettleTells(c.reqs[r].id, NameOf(c.reqs[r].msg), c.reqs[r].outcome.value);
  }

  lemma AnsweredByOwn(p: Link, k: nat) returns (r: nat)
    requires LinkInv(p)
    requires k < |p.a.calls| && Safe(|p.a.calls|, k + 1) && p.a.calls[k].answer.Some? && p.a.calls[k].answer.value.at.Some?
    requires p.a.calls[k].answer.value.at.value < |p.b.sent| && !Unnamed(p.b.sent[p.a.calls[k].answer.value.at.value].msg)
    ensures AnsweredBy(p, k, r, p.a.calls[k].answer.value.at.value, p.a.calls[k].answer.value.msg)
  {
    hide Inv, Settle;
    var at := p.a.calls[k].answer.value.at.value;
    AnswerWasRead(p.a, k);
    r := ResponseOrigin(p, at);
    var reply := p.b.sent[at].msg;
    RepliesAreResponses(p.b, r, reply);
    var k' := RequestOrigin(p, r);
    DecodedShape(reply, p.a.received[at]);
    ReplyTells(p.b, r);
    TellsTold(p.b.reqs[r].outcome.value, p.b.reqs[r].msg.methodName, reply, p.a.received[at]);
    hide Told, SameOutcome, Tells;
    CarriedTwice(|p.a.calls|, k + 1, k');
    CarriedOnce(k, k', |p.a.calls|);
  }

  // Exactly when: a call retired by a message of the stream was answered by what the peer made of that
  // call if and only if the message was not an unnamed one.
  lemma AnsweredExactly(p: Link, k: nat)
    requires LinkReachable(p)
    requires k < |p.a.calls| && Safe(|p.a.calls|, k + 1) && p.a.calls[k].answer.Some? && p.a.calls[k].answer.value.at.Some?
    ensures var at := p.a.calls[k].answer.value.at.value;
            at < |p.b.sent| && ((exists r: nat :: AnsweredBy(p, k, r, at, p.a.calls[k].answer.value.msg)) <==> !Unnamed(p.b.sent[at].msg))
  {
    LinkReachableInv(p);
    hide Inv, Settle;
    var at, m := p.a.calls[k].answer.value.at.value, p.a.calls[k].answer.value.msg;
    AnswerWasRead(p.a, k);
    if !Unnamed(p.b.sent[at].msg) {
      var r := AnsweredByOwn(p, k);
    }
    forall r: nat | AnsweredBy(p, k, r, at, m) ensures !Unnamed(p.b.sent[at].msg) {
      WriterOf(p.b, r, at);
    }
  }

  lemma WriterOf(c: Conn, r: nat, at: nat)
    requires Inv(c) && r < |c.reqs| && c.reqs[r].sentAt == Some(at) && at < |c.sent|
    ensures c.sent[at].msg.Response?
  {
    hide CallsInv, NotesInv, HostsInv, CountInv, DispatchInv, ReceivedInv, BrokenInv, ReaderInv, DoneInv;
    SentByItsWriter(c, at);
    RepliesAreResponses(c, r, c.sent[at].msg);
  }

  lemma NamedWrites(c: Conn, at: nat)
    requires Inv(c) && MethodsNamed(c) && at < |c.sent|
    ensures !Unnamed(c.sent[at].msg)
  {
    SentByItsWriter(c, at);
    match c.sent[at].origin
    case FromReq(r) => RepliesAreResponses(c, r, c.sent[at].msg);
    case _ =>
  }

  // In every run of two peers: a call under a safe identifier that was retired by a response read from
  // the stream was answered by what the peer made of exactly that call. The peer accepted it once,
  // resolved it once and answered it once, at the very place the response was read from.
  lemma AnswersAreOwn(p: Link, k: nat)
    requires LinkReachable(p) && MethodsNamed(p.b)
    requires k < |p.a.calls| && Safe(|p.a.calls|, k + 1) && p.a.calls[k].answer.Some? && p.a.calls[k].answer.value.at.Some?
    ensures var at := p.a.calls[k].answer.value.at.value;
            exists r: nat :: AnsweredBy(p, k, r, at, p.a.calls[k].answer.value.msg)
                        && p.b.reqs[r].passes <= 1
                        && (forall r' :: 0 <= r' < |p.b.reqs| && p.b.reqs[r'].msg.id == CallID(k) ==> r' == r)
                        && (forall i :: 0 <= i < |p.b.sent| && p.b.sent[i].msg.Response? && p.b.sent[i].msg.id == CallID(k) ==> i == at)
  {
    LinkReachableInv(p);
    hide Inv, LinkInv, Settle;
    var at := p.a.calls[k].answer.value.at.value;
    StreamPlace(p, k);
    NamedWrites(p.b, at);
    var r := AnsweredByOwn(p, k);
    forall r' | 0 <= r' < |p.b.reqs| && p.b.reqs[r'].msg.id == CallID(k) ensures r' == r {
      AcceptedOnce(p, r', r);
    }
    forall i | 0 <= i < |p.b.sent| && p.b.sent[i].msg.Response? && p.b.sent[i].msg.id == CallID(k) ensures i == at {
      AnsweredOnce(p, k, r, i);
    }
    PassesOnce(p, r);
  }

  lemma StreamPlace(p: Link, k: nat)
    requires LinkInv(p) && k < |p.a.calls| && p.a.calls[k].answer.Some? && p.a.calls[k].answer.value.at.Some?
    ensures p.a.calls[k].answer.value.at.value < |p.b.sent| && Inv(p.b)
  {
    AnswerWasRead(p.a, k);
    hide Inv;
  }

  lemma PassesOnce(p: Link, r: nat)
    requires LinkInv(p) && r < |p.b.reqs|
    ensures p.b.reqs[r].passes <= 1
  {
    hide Inv;
    ReqIsOk(p.b, r);
  }

  lemma AnsweredOnce(p: Link, k: nat, r: nat, i: nat)
    requires LinkInv(p) && Safe(|p.a.calls|, k + 1) && r < |p.b.reqs| && p.b.reqs[r].msg.id == CallID(k)
    requires i < |p.b.sent| && p.b.sent[i].msg.Response? && p.b.sent[i].msg.id == CallID(k)
    ensures p.b.reqs[r].sentAt == Some(i)
  {
    hide Inv, Settle;
    SentByItsWriter(p.b, i);
    match p.b.sent[i].origin
    case FromCall(_) => assert false;
    case FromNote(_) => assert false;
    case FromReq(r1) =>
      RepliesAreResponses(p.b, r1, p.b.sent[i].msg);
      AcceptedOnce(p, r, r1);
  }

  // ---------------------------------------------------------------------------------------------
  // The limits

  // A connection whose first call, to the given method, has been written.
  function Written(c: Conn, name: string): Conn {
    var call := Call(name, None, Returned, true, None, 0, Some(0));
    c.(calls := [call], s := c.s.(outgoingCalls := map[CallID(0) := 0]),
       sent := [Sent(CallRequest(call, 0), FromCall(0))])
  }

  const Opened := Start(Initial())

  function Registered(c: Conn, name: string, pc: WritePc): Conn {
    c.(calls := [Call(name, None, Sending(pc), true, None, 0, None)], s := c.s.(outgoingCalls := map[CallID(0) := 0]))
  }

  // The four steps that bring a first call to the Writer.
  lemma FirstCall(c: Conn, name: string)
    requires c == Initial() || c == Opened
    ensures |CallStart(c, name, None, None).calls| == 1 && CallStart(c, name, None, None).calls[0].pc.Registering?
    ensures CallRegister(CallStart(c, name, None, None), 0) == Registered(c, name, AtGate)
    ensures Writes(Registered(c, name, AtGate), FromCall(0), AtGate)
    ensures WriteGate(Registered(c, name, AtGate), FromCall(0), false) == Registered(c, name, AtWriter)
    ensures Writes(Registered(c, name, AtWriter), FromCall(0), AtWriter)
    ensures WriteDo(Registered(c, name, AtWriter), FromCall(0), None, false) == Written(c, name)
  {}

  lemma FreshReachable()
    ensures LinkReachable(Fresh)
  {
    assert CanPlay(Fresh, []) && Play(Fresh, []) == Fresh;
  }

  // The peer's first call reaches the stream.
  lemma PeerCalls(name: string)
    ensures LinkReachable(Link(Initial(), Written(Initial(), name)))
  {
    FreshReachable();
    FirstCall(Initial(), name);
    hide LinkReachable, WriteDo, WriteGate, CallRegister, CallStart, Written, Registered, Initial, Enabled, Apply;
    OnCallStart(Initial(), name, None);
    LocalB(Fresh, LCallStart(name, None, None), CallStart(Initial(), name, None, None));
    OnCallRegister(CallStart(Initial(), name, None, None), 0);
    LocalB(Link(Initial(), CallStart(Initial(), name, None, None)), LCallRegister(0), Registered(Initial(), name, AtGate));
    OnWriteGate(Registered(Initial(), name, AtGate), FromCall(0));
    LocalB(Link(Initial(), Registered(Initial(), name, AtGate)), LWriteGate(FromCall(0), false), Registered(Initial(), name, AtWriter));
    OnWriteDo(Registered(Initial(), name, AtWriter), FromCall(0));
    LocalB(Link(Initial(), Registered(Initial(), name, AtWriter)), LWriteDo(FromCall(0), None, false), Written(Initial(), name));
  }

  // So does this side's, after its reader has started.
  lemma ThisSideStarts(b: Conn, name: string)
    requires LinkReachable(Link(Initial(), b))
    ensures LinkReachable(Link(CallStart(Opened, name, None, None), b))
  {
    hide Inv, LinkReachable;
    ReachNext(Link(Initial(), b), MoveA(LStart));
    ReachNext(Link(Opened, b), MoveA(LCallStart(name, None, None)));
  }

  lemma ThisSideCalls(b: Conn, name: string)
    requires LinkReachable(Link(Initial(), b))
    ensures LinkReachable(Link(Written(Opened, name), b))
  {
    ThisSideStarts(b, name);
    FirstCall(Opened, name);
    hide Inv, LinkReachable, WriteDo, WriteGate, CallRegister, Written;
    ReachNext(Link(CallStart(Opened, name, None, None), b), MoveA(LCallRegister(0)));
    ReachNext(Link(Registered(Opened, name, AtGate), b), MoveA(LWriteGate(FromCall(0), false)));
    ReachNext(Link(Registered(Opened, name, AtWriter), b), MoveA(LWriteDo(FromCall(0), None, false)));
  }

  // The peer calls without a method name while this side's first call is on its way: this side takes
  // the peer's call for the answer to its own, although the peer has not read anything yet.
  lemma UnnamedCallRetiresPeer(name: string) returns (p: Link)
    ensures LinkReachable(p) && |p.a.calls| == 1 && p.a.calls[0].methodName == name
    ensures p.b.reqs == [] && p.b.received == []
    ensures p.a.calls[0].answer == Some(Answer(Response(CallID(0), None, None), Some(0)))
  {
    var a, b := Written(Opened, name), Written(Initial(), "");
    var msg := Response(CallID(0), None, None);
    PeerCalls("");
    ThisSideCalls(b, name);
    CallIDExact(0);
    EmptyMethodIsResponse(CallID(0), None);
    MistakenAnswer(name, msg);
    assert FromStream(a, b, LReadResponse(msg)) by {
      hide EncodeMessage, DecodeMessage;
    }
    hide LinkReachable, Enabled, Apply, ReadResponse, Deliver, Written, Opened, Initial, FromStream;
    OnReadResponse(a, msg);
    StepA(Link(a, b), LReadResponse(msg), ReadResponse(a, msg));
    OnDeliver(ReadResponse(a, msg));
    LocalA(Link(ReadResponse(a, msg), b), LDeliver, Deliver(ReadResponse(a, msg)));
    p := Link(Deliver(ReadResponse(a, msg)), b);
  }

  // This side's first call, retired by the answer it took the peer's call for.
  lemma MistakenAnswer(name: string, msg: Message)
    requires msg == Response(CallID(0), None, None)
    ensures Written(Opened, name).reader.ReadLoop?
    ensures var c := ReadResponse(Written(Opened, name), msg);
            && c.reader.Delivering? && c.reader.at < |c.received| && TracksKnown(c)
            && |Deliver(c).calls| == 1 && Deliver(c).calls[0].methodName == name
            && Deliver(c).calls[0].answer == Some(Answer(msg, Some(0)))
    ensures Written(Initial(), "").reqs == [] && Written(Initial(), "").received == []
  {}
}
