// The second limit of the end-to-end theorem, as a run. After 2^53 - 1 calls that never reached the
// wire, two calls are written under the identifiers 2^53 and 2^53 + 1. The peer reads both as 2^53, and
// its answer to the later call retires the earlier one.
module Confusion {
  import opened Wrappers
  import opened Messages
  import opened Connection
  import opened ConnectionRuns
  import opened Peers
  import opened EndToEnd

  // ---------------------------------------------------------------------------------------------
  // This side's calls

  // A call whose parameters did not marshal, which still took an identifier.
  function LostCall(k: nat): Call {
    Call("lost", None, Returned, false,
         Some(Answer(Response(CallID(k), None, Some(Wrap("marshaling call parameters: " + "bad", Plain("bad")))), None)), 1, None)
  }

  function Lost(n: nat): (calls: seq<Call>)
    ensures |calls| == n
  {
    seq(n, k requires 0 <= k < n => LostCall(k))
  }

  lemma {:induction false} CallsGetLost(n: nat)
    ensures LinkReachable(Link(Initial().(calls := Lost(n)), Initial()))
  {
    if n == 0 {
      FreshReachable();
      assert Initial().(calls := Lost(0)) == Initial();
    } else {
      CallsGetLost(n - 1);
      hide LinkReachable;
      var c := Initial().(calls := Lost(n - 1));
      assert Lost(n) == Lost(n - 1) + [LostCall(n - 1)];
      OnCallStart(c, "lost", Some(Plain("bad")));
      assert CallStart(c, "lost", None, Some(Plain("bad"))) == Initial().(calls := Lost(n));
      hide Enabled, Apply, Initial, Lost, CallStart;
      LocalA(Link(c, Initial()), LCallStart("lost", None, Some(Plain("bad"))), Initial().(calls := Lost(n)));
    }
  }

  // The reader started, the lost calls, and after them the given ones, some of them tracked.
  function Calling(n: nat, more: seq<Call>, tracked: map<ID, nat>, sent: seq<Sent>): Conn {
    Opened.(calls := Lost(n) + more, s := Opened.s.(outgoingCalls := tracked), sent := sent)
  }

  function NewCall(name: string): Call { Call(name, None, Registering, false, None, 0, None) }

  function AtPc(name: string, w: WritePc): Call { Call(name, None, Sending(w), true, None, 0, None) }

  function WrittenCall(name: string, at: nat): Call { Call(name, None, Returned, true, None, 0, Some(at)) }

  function Tracked(n: nat): map<ID, nat> { map[CallID(n) := n] }

  function Both(n: nat): map<ID, nat> { map[CallID(n) := n, CallID(n + 1) := n + 1] }

  function CallRequestOf(n: nat, name: string): Sent { Sent(Request(CallID(n), name, None), FromCall(n)) }

  lemma ReaderStarts(n: nat)
    ensures Start(Initial().(calls := Lost(n))) == Calling(n, [], map[], [])
  {
    assert Lost(n) + [] == Lost(n);
  }

  lemma FirstCalls(n: nat, one: string)
    ensures CallStart(Calling(n, [], map[], []), one, None, None) == Calling(n, [NewCall(one)], map[], [])
    ensures CallRegister(Calling(n, [NewCall(one)], map[], []), n) == Calling(n, [AtPc(one, AtGate)], Tracked(n), [])
    ensures Writes(Calling(n, [AtPc(one, AtGate)], Tracked(n), []), FromCall(n), AtGate)
    ensures WriteGate(Calling(n, [AtPc(one, AtGate)], Tracked(n), []), FromCall(n), false) == Calling(n, [AtPc(one, AtWriter)], Tracked(n), [])
  {
    hide Lost;
  }

  lemma SecondCalls(n: nat, one: string, two: string)
    ensures CallStart(Calling(n, [AtPc(one, AtWriter)], Tracked(n), []), two, None, None)
         == Calling(n, [AtPc(one, AtWriter), NewCall(two)], Tracked(n), [])
    ensures CallRegister(Calling(n, [AtPc(one, AtWriter), NewCall(two)], Tracked(n), []), n + 1)
         == Calling(n, [AtPc(one, AtWriter), AtPc(two, AtGate)], Both(n), [])
    ensures Writes(Calling(n, [AtPc(one, AtWriter), AtPc(two, AtGate)], Both(n), []), FromCall(n + 1), AtGate)
    ensures WriteGate(Calling(n, [AtPc(one, AtWriter), AtPc(two, AtGate)], Both(n), []), FromCall(n + 1), false)
         == Calling(n, [AtPc(one, AtWriter), AtPc(two, AtWriter)], Both(n), [])
  {
    hide Lost;
    assert Tracked(n)[CallID(n + 1) := n + 1] == Both(n);
  }

  // The second call is the first to reach the Writer.
  lemma BothWrite(n: nat, one: string, two: string)
    ensures Writes(Calling(n, [AtPc(one, AtWriter), AtPc(two, AtWriter)], Both(n), []), FromCall(n + 1), AtWriter)
    ensures WriteDo(Calling(n, [AtPc(one, AtWriter), AtPc(two, AtWriter)], Both(n), []), FromCall(n + 1), None, false)
         == Calling(n, [AtPc(one, AtWriter), WrittenCall(two, 0)], Both(n), [CallRequestOf(n + 1, two)])
    ensures Writes(Calling(n, [AtPc(one, AtWriter), WrittenCall(two, 0)], Both(n), [CallRequestOf(n + 1, two)]), FromCall(n), AtWriter)
    ensures WriteDo(Calling(n, [AtPc(one, AtWriter), WrittenCall(two, 0)], Both(n), [CallRequestOf(n + 1, two)]), FromCall(n), None, false)
         == TwoWritten(n, one, two)
  {
    hide Lost;
  }

  function TwoWritten(n: nat, one: string, two: string): Conn {
    Calling(n, [WrittenCall(one, 1), WrittenCall(two, 0)], Both(n), [CallRequestOf(n + 1, two), CallRequestOf(n, one)])
  }

  lemma OneCallReaches(n: nat, one: string)
    ensures LinkReachable(Link(Calling(n, [AtPc(one, AtWriter)], Tracked(n), []), Initial()))
  {
    CallsGetLost(n);
    ReaderStarts(n);
    FirstCalls(n, one);
    var b := Initial();
    hide LinkReachable, Enabled, Apply, Start, CallStart, CallRegister, WriteGate, Writes;
    OnStart(Initial().(calls := Lost(n)));
    LocalA(Link(Initial().(calls := Lost(n)), b), LStart, Calling(n, [], map[], []));
    OnCallStart(Calling(n, [], map[], []), one, None);
    LocalA(Link(Calling(n, [], map[], []), b), LCallStart(one, None, None), Calling(n, [NewCall(one)], map[], []));
    OnCallRegister(Calling(n, [NewCall(one)], map[], []), n);
    LocalA(Link(Calling(n, [NewCall(one)], map[], []), b), LCallRegister(n), Calling(n, [AtPc(one, AtGate)], Tracked(n), []));
    OnWriteGate(Calling(n, [AtPc(one, AtGate)], Tracked(n), []), FromCall(n));
    LocalA(Link(Calling(n, [AtPc(one, AtGate)], Tracked(n), []), b), LWriteGate(FromCall(n), false), Calling(n, [AtPc(one, AtWriter)], Tracked(n), []));
  }

  lemma TwoCallsReach(n: nat, one: string, two: string)
    ensures LinkReachable(Link(TwoWritten(n, one, two), Initial()))
  {
    OneCallReaches(n, one);
    SecondCalls(n, one, two);
    BothWrite(n, one, two);
    var b := Initial();
    var c0 := Calling(n, [AtPc(one, AtWriter)], Tracked(n), []);
    var c1 := Calling(n, [AtPc(one, AtWriter), NewCall(two)], Tracked(n), []);
    var c2 := Calling(n, [AtPc(one, AtWriter), AtPc(two, AtGate)], Both(n), []);
    var c3 := Calling(n, [AtPc(one, AtWriter), AtPc(two, AtWriter)], Both(n), []);
    var c4 := Calling(n, [AtPc(one, AtWriter), WrittenCall(two, 0)], Both(n), [CallRequestOf(n + 1, two)]);
    hide LinkReachable, Enabled, Apply, CallStart, CallRegister, WriteGate, WriteDo, Writes;
    OnCallStart(c0, two, None);
    LocalA(Link(c0, b), LCallStart(two, None, None), c1);
    OnCallRegister(c1, n + 1);
    LocalA(Link(c1, b), LCallRegister(n + 1), c2);
    OnWriteGate(c2, FromCall(n + 1));
    LocalA(Link(c2, b), LWriteGate(FromCall(n + 1), false), c3);
    OnWriteDo(c3, FromCall(n + 1));
    LocalA(Link(c3, b), LWriteDo(FromCall(n + 1), None, false), c4);
    OnWriteDo(c4, FromCall(n));
    LocalA(Link(c4, b), LWriteDo(FromCall(n), None, false), TwoWritten(n, one, two));
  }

  // ---------------------------------------------------------------------------------------------
  // The peer's answer

  function Asked(id: ID, two: string, phase: Phase, o: Option<Outcome>, reply: Option<Message>, at: Option<nat>): Req {
    Req(Request(id, two, None), 0, id, false, false, OnReader, phase, o, reply, at, false, 0, 0, false)
  }

  function Serving(id: ID, q: Req, incoming: int, byID: map<ID, nat>, sent: seq<Sent>): Conn {
    Opened.(reqs := [q], received := [q.msg], reader := Accepting(0), sent := sent,
            s := Opened.s.(incoming := incoming, incomingByID := byID))
  }

  function Given(j: Json): Option<Outcome> { Some(Outcome(Value(j), None)) }

  lemma PeerAccepts(id: ID, two: string, j: Json)
    requires IsValid(id)
    ensures Start(Initial()) == Opened
    ensures ReadRequest(Opened, Request(id, two, None)) == Serving(id, Asked(id, two, Arrived, None, None, None), 0, map[], [])
    ensures Accept(Serving(id, Asked(id, two, Arrived, None, None, None), 0, map[], []))
         == Serving(id, Asked(id, two, Preempting, None, None, None), 1, map[id := 0], [])
    ensures Preempt(Serving(id, Asked(id, two, Preempting, None, None, None), 1, map[id := 0], []), Given(j))
         == Serving(id, Asked(id, two, Resolving, Given(j), None, None), 1, map[id := 0], [])
  {}

  lemma PeerReplies(id: ID, two: string, j: Json)
    requires IsValid(id)
    ensures var reply := Response(id, Some(j), None);
            && Process(Serving(id, Asked(id, two, Resolving, Given(j), None, None), 1, map[id := 0], []), 0)
               == Serving(id, Asked(id, two, Answering(AtGate), Given(j), Some(reply), None), 1, map[], [])
            && Writes(Serving(id, Asked(id, two, Answering(AtGate), Given(j), Some(reply), None), 1, map[], []), FromReq(0), AtGate)
            && WriteGate(Serving(id, Asked(id, two, Answering(AtGate), Given(j), Some(reply), None), 1, map[], []), FromReq(0), false)
               == Serving(id, Asked(id, two, Answering(AtWriter), Given(j), Some(reply), None), 1, map[], [])
            && Writes(Serving(id, Asked(id, two, Answering(AtWriter), Given(j), Some(reply), None), 1, map[], []), FromReq(0), AtWriter)
            && WriteDo(Serving(id, Asked(id, two, Answering(AtWriter), Given(j), Some(reply), None), 1, map[], []), FromReq(0), None, false)
               == Replied(id, two, j)
  {
    assert map[id := 0] - {id} == map[];
  }

  function Replied(id: ID, two: string, j: Json): Conn {
    var reply := Response(id, Some(j), None);
    Serving(id, Asked(id, two, Closing, Given(j), Some(reply), Some(0)), 1, map[], [Sent(reply, FromReq(0))])
  }

  // The peer reads the first message of the stream and takes it in.
  lemma PeerResolves(a: Conn, id: ID, two: string, j: Json)
    requires LinkReachable(Link(a, Initial())) && IsValid(id) && two != ""
    requires a.sent != [] && DecodeMessage(EncodeMessage(a.sent[0].msg)) == Ok(Request(id, two, None))
    ensures LinkReachable(Link(a, Serving(id, Asked(id, two, Resolving, Given(j), None, None), 1, map[id := 0], [])))
  {
    PeerAccepts(id, two, j);
    Readers();
    var b0 := Serving(id, Asked(id, two, Arrived, None, None, None), 0, map[], []);
    var b1 := Serving(id, Asked(id, two, Preempting, None, None, None), 1, map[id := 0], []);
    hide LinkReachable, Enabled, Apply, EncodeMessage, DecodeMessage, Start, ReadRequest, Accept, Preempt, Initial;
    OnStart(Initial());
    LocalB(Link(a, Initial()), LStart, Opened);
    OnReadRequest(Opened, Request(id, two, None));
    StepB(Link(a, Opened), LReadRequest(Request(id, two, None)), b0);
    OnAccept(b0);
    LocalB(Link(a, b0), LAccept, b1);
    OnPreempt(b1, Given(j));
    LocalB(Link(a, b1), LPreempt(Given(j)), Serving(id, Asked(id, two, Resolving, Given(j), None, None), 1, map[id := 0], []));
  }

  // The preempter's result is written as the answer.
  lemma PeerAnswers(a: Conn, id: ID, two: string, j: Json)
    requires LinkReachable(Link(a, Initial())) && IsValid(id) && two != ""
    requires a.sent != [] && DecodeMessage(EncodeMessage(a.sent[0].msg)) == Ok(Request(id, two, None))
    ensures LinkReachable(Link(a, Replied(id, two, j)))
  {
    PeerResolves(a, id, two, j);
    PeerReplies(id, two, j);
    var reply := Response(id, Some(j), None);
    var b2 := Serving(id, Asked(id, two, Resolving, Given(j), None, None), 1, map[id := 0], []);
    var b3 := Serving(id, Asked(id, two, Answering(AtGate), Given(j), Some(reply), None), 1, map[], []);
    var b4 := Serving(id, Asked(id, two, Answering(AtWriter), Given(j), Some(reply), None), 1, map[], []);
    hide LinkReachable, Enabled, Apply, EncodeMessage, DecodeMessage, Initial, Process, WriteGate, WriteDo, Writes;
    OnProcess(b2, 0);
    LocalB(Link(a, b2), LProcess(0), b3);
    OnWriteGate(b3, FromReq(0));
    LocalB(Link(a, b3), LWriteGate(FromReq(0), false), b4);
    OnWriteDo(b4, FromReq(0));
    LocalB(Link(a, b4), LWriteDo(FromReq(0), None, false), Replied(id, two, j));
  }

  lemma Readers()
    ensures Opened.received == [] && Opened.reader.ReadLoop? && Initial().reader.NotStarted?
  {}

  // ---------------------------------------------------------------------------------------------
  // The confusion

  lemma BothBecomeOne()
    ensures Carried(TWO53) == TWO53 && Carried(TWO53 + 1) == TWO53
  {
    SmallExact(TWO53);
    FloatFixed(TWO53);
    FirstInexact();
  }

  lemma WireForms(two: string, j: Json)
    requires two != ""
    ensures DecodeMessage(EncodeMessage(Request(IntID(TWO53 + 1), two, None))) == Ok(Request(IntID(TWO53), two, None))
    ensures DecodeMessage(EncodeMessage(Response(IntID(TWO53), Some(j), None))) == Ok(Response(IntID(TWO53), Some(j), None))
  {
    BothBecomeOne();
    UnmarshalMarshal(Request(IntID(TWO53 + 1), two, None));
    UnmarshalMarshal(Response(IntID(TWO53), Some(j), None));
    hide Float64, FloatToInt64, EncodeMessage, Unmarshal;
  }

  // Call 2^53 is retired with the outcome of call 2^53 + 1: the peer has read one message, the later
  // call's, and its result is what the earlier call gets.
  lemma LaterAnswerRetiresEarlier(one: string, two: string, j: Json) returns (p: Link, k: nat)
    requires two != ""
    ensures LinkReachable(p) && k + 2 == |p.a.calls| && CallID(k) == IntID(TWO53)
    ensures p.a.calls[k].methodName == one && p.a.calls[k + 1].methodName == two
    ensures p.a.calls[k].answer == Some(Answer(Response(CallID(k), Some(j), None), Some(0)))
    ensures |p.b.received| == 1 && |p.b.reqs| == 1 && p.b.reqs[0].at < |p.a.sent| && p.a.sent[p.b.reqs[0].at].origin == FromCall(k + 1)
    ensures p.b.reqs[0].sentAt == Some(0) && p.b.reqs[0].outcome == Given(j)
  {
    k := TWO53 - 1;
    var id := IntID(TWO53);
    var reply := Response(id, Some(j), None);
    var a, b := TwoWritten(k, one, two), Replied(id, two, j);
    TwoCallsReach(k, one, two);
    WireForms(two, j);
    PeerAnswers(a, id, two, j);
    ReadsReply(k, one, two, reply);
    AboutPeer(k, id, one, two, j);
    hide LinkReachable, EncodeMessage, DecodeMessage, TwoWritten, Replied, ReadResponse, Deliver;
    ReplyIsDelivered(a, b, reply);
    p := Link(Deliver(ReadResponse(a, reply)), b);
  }

  lemma AboutPeer(k: nat, id: ID, one: string, two: string, j: Json)
    ensures var a, b := TwoWritten(k, one, two), Replied(id, two, j);
            && |b.received| == 1 && |b.reqs| == 1 && b.reqs[0].at == 0 && b.reqs[0].sentAt == Some(0) && b.reqs[0].outcome == Given(j)
            && |b.sent| == 1 && b.sent[0].msg == Response(id, Some(j), None)
            && |a.sent| == 2 && a.sent[0] == CallRequestOf(k + 1, two)
  {
    hide Lost;
  }

  lemma ReplyIsDelivered(a: Conn, b: Conn, reply: Message)
    requires LinkReachable(Link(a, b)) && a.reader.ReadLoop? && a.received == [] && reply.Response?
    requires |b.sent| == 1 && DecodeMessage(EncodeMessage(b.sent[0].msg)) == Ok(reply)
    requires TracksKnown(ReadResponse(a, reply))
    ensures var c := ReadResponse(a, reply);
            c.reader == Delivering(0) && |c.received| == 1 && LinkReachable(Link(Deliver(c), b))
  {
    var c := ReadResponse(a, reply);
    assert c.reader == Delivering(0) && c.received == [reply];
    hide LinkReachable, Enabled, Apply, EncodeMessage, DecodeMessage, Deliver, TracksKnown;
    OnReadResponse(a, reply);
    StepA(Link(a, b), LReadResponse(reply), c);
    OnDeliver(c);
    LocalA(Link(c, b), LDeliver, Deliver(c));
  }

  lemma ReadsReply(k: nat, one: string, two: string, reply: Message)
    requires reply.Response? && reply.id == CallID(k)
    ensures var a := TwoWritten(k, one, two);
            var c := ReadResponse(a, reply);
            && a.reader.ReadLoop? && a.received == [] && c.reader == Delivering(0) && c.received == [reply] && TracksKnown(c)
            && var d := Deliver(c);
               && |d.calls| == k + 2 && d.sent == a.sent
               && d.calls[k].answer == Some(Answer(reply, Some(0))) && d.calls[k].methodName == one && d.calls[k + 1].methodName == two
  {
    hide Lost;
    assert CallID(k) in Both(k) && Both(k)[CallID(k)] == k;
  }
}
