// What no step of a connection ever takes back: histories only grow, answers and outcomes are final,
// requests only move forward, and a shutdown is never undone. During a shutdown, moreover, the
// tracked calls and the queue only shrink, and nothing passes the gate to the Writer any more.
module ConnectionEvolution {
  import opened Wrappers
  import opened Messages
  import opened Connection
  import opened ConnectionInvariant
  import opened ConnectionRuns

  function Rank(p: Phase): nat {
    match p
    case Arrived => 0
    case Preempting => 1
    case Enqueueing => 2
    case Queued => 3
    case Dequeued => 4
    case Stale => 5
    case Handling => 6
    case Resolving => 7
    case Answering(_) => 8
    case Closing => 9
    case Releasing => 10
    case Gone => 11
  }

  predicate Stays<T(==)>(p: Option<T>, q: Option<T>) { p.Some? ==> q == p }

  predicate CallGrows(p: Call, q: Call) {
    && q.methodName == p.methodName && q.params == p.params
    && (p.registered ==> q.registered) && Stays(p.answer, q.answer) && Stays(p.sentAt, q.sentAt)
  }

  predicate ReqGrows(p: Req, q: Req) {
    && q.msg == p.msg && q.at == p.at
    && (p.dup ==> q.dup) && (p.cancelled ==> q.cancelled) && (p.released ==> q.released)
    && Stays(p.outcome, q.outcome) && Stays(p.sentAt, q.sentAt)
    && Rank(p.phase) <= Rank(q.phase) && p.passes <= q.passes
  }

  predicate CallsGrow(p: seq<Call>, q: seq<Call>) {
    |p| <= |q| && forall k :: 0 <= k < |p| ==> CallGrows(p[k], q[k])
  }

  predicate ReqsGrow(p: seq<Req>, q: seq<Req>) {
    |p| <= |q| && forall r :: 0 <= r < |p| ==> ReqGrows(p[r], q[r])
  }

  predicate StateGrows(s: InFlight, t: InFlight) {
    && (s.connClosing ==> t.connClosing) && Stays(s.readErr, t.readErr) && Stays(s.writeErr, t.writeErr)
  }

  predicate Suffix(t: seq<nat>, s: seq<nat>) {
    |t| <= |s| && forall i :: 0 <= i < |t| ==> t[i] == s[|s| - |t| + i]
  }

  predicate SubMap(t: map<ID, nat>, s: map<ID, nat>) { forall id :: id in t ==> id in s && t[id] == s[id] }

  // Nothing passes the gate, and what is written had passed it before.
  ghost predicate GateShut(c: Conn, d: Conn) {
    && (forall w :: Writes(d, w, AtWriter) ==> Writes(c, w, AtWriter))
    && (forall i :: |c.sent| <= i < |d.sent| ==> Writes(c, d.sent[i].origin, AtWriter))
  }

  // The tracked calls and the queue only shrink.
  predicate Drains(s: InFlight, t: InFlight) {
    SubMap(t.outgoingCalls, s.outgoingCalls) && Suffix(t.handlerQueue, s.handlerQueue)
  }

  ghost predicate Evolves(c: Conn, d: Conn) {
    && CallsGrow(c.calls, d.calls) && |c.notes| <= |d.notes| && ReqsGrow(c.reqs, d.reqs)
    && RestGrows(c, d)
    && (ShuttingDown(c.s) ==> GateShut(c, d))
  }

  // The part of the evolution that is about neither calls, notifications nor requests.
  ghost predicate RestGrows(c: Conn, d: Conn) {
    && c.received <= d.received && c.sent <= d.sent && c.starts <= d.starts
    && StateGrows(c.s, d.s) && (c.done ==> d.done)
    && c.closings <= d.closings && c.doneCloses <= d.doneCloses
    && (ShuttingDown(c.s) ==> Drains(c.s, d.s))
    && (c.reader.Exited? ==> d.reader.Exited?)
  }

  lemma EvolveNone(c: Conn, d: Conn)
    requires RestGrows(c, d) && d.calls == c.calls && d.notes == c.notes && d.reqs == c.reqs && d.sent == c.sent
    ensures Evolves(c, d)
  {
    hide RestGrows;
  }

  lemma EvolveCall(c: Conn, d: Conn, k: nat)
    requires RestGrows(c, d) && d.notes == c.notes && d.reqs == c.reqs && d.sent == c.sent
    requires k < |c.calls| == |d.calls| && CallGrows(c.calls[k], d.calls[k]) && d.calls == c.calls[k := d.calls[k]]
    requires ShuttingDown(c.s) && d.calls[k].pc == Sending(AtWriter) ==> c.calls[k].pc == Sending(AtWriter)
    ensures Evolves(c, d)
  {
    hide RestGrows;
  }

  lemma EvolveNote(c: Conn, d: Conn, n: nat)
    requires RestGrows(c, d) && d.calls == c.calls && d.reqs == c.reqs && d.sent == c.sent
    requires n < |c.notes| == |d.notes| && d.notes == c.notes[n := d.notes[n]]
    requires ShuttingDown(c.s) && d.notes[n].pc == Publishing(AtWriter) ==> c.notes[n].pc == Publishing(AtWriter)
    ensures Evolves(c, d)
  {
    hide RestGrows;
  }

  lemma EvolveReq(c: Conn, d: Conn, r: nat)
    requires RestGrows(c, d) && d.calls == c.calls && d.notes == c.notes && d.sent == c.sent
    requires r < |c.reqs| == |d.reqs| && ReqGrows(c.reqs[r], d.reqs[r]) && d.reqs == c.reqs[r := d.reqs[r]]
    requires ShuttingDown(c.s) ==> d.reqs[r].phase != Answering(AtWriter)
    ensures Evolves(c, d)
  {
    hide RestGrows;
  }

  // A critical section evolves the state if its body does.
  lemma EvolveSection(c: Conn, c1: Conn)
    requires Evolves(c, c1)
    ensures Evolves(c, Epilogue(c1))
  {
    EvolveEpilogue(c1);
    hide Epilogue;
    EvolvesTransitive(c, c1, Epilogue(c1));
  }

  lemma EvolveCallStart(c: Conn, name: string, params: Raw, failure: Option<Err>)
    ensures Evolves(c, CallStart(c, name, params, failure))
  {}

  lemma EvolveCallRegister(c: Conn, k: nat)
    requires k < |c.calls|
    ensures Evolves(c, CallRegister(c, k))
  {
    hide Evolves;
    EvolveCall(c, CallRegister(c, k), k);
  }

  lemma EvolveCallRefuse(c: Conn, k: nat)
    requires k < |c.calls| && c.calls[k].pc.Refused?
    ensures Evolves(c, CallRefuse(c, k))
  {
    hide Evolves;
    var d := CallRefuse(c, k);
    assert d.calls == c.calls[k := d.calls[k]];
    EvolveCall(c, d, k);
  }

  lemma EvolveRetireTracked(c: Conn, k: nat, err: Err)
    requires k < |c.calls|
    ensures Evolves(c, Epilogue(RetireTracked(c, k, err)))
  {
    hide Evolves, Epilogue;
    var d := RetireTracked(c, k, err);
    assert d.calls == c.calls[k := d.calls[k]];
    EvolveCall(c, d, k);
    EvolveSection(c, d);
  }

  lemma EvolveCallRetire(c: Conn, k: nat)
    requires k < |c.calls| && c.calls[k].pc.Retiring?
    ensures Evolves(c, CallRetire(c, k))
  {
    hide Evolves, RetireTracked, Epilogue;
    var c1 := c.(calls := c.calls[k := c.calls[k].(pc := Returned)]);
    EvolveCall(c, c1, k);
    EvolveRetireTracked(c1, k, c.calls[k].pc.err);
    EvolvesTransitive(c, c1, CallRetire(c, k));
  }

  lemma EvolveNotifyStart(c: Conn, name: string, params: Raw)
    ensures Evolves(c, NotifyStart(c, name, params))
  {}

  lemma EvolveNotifyAdmit(c: Conn, n: nat, marshals: bool)
    requires n < |c.notes|
    ensures Evolves(c, NotifyAdmit(c, n, marshals))
  {
    hide Evolves, NotifyRefused;
    EvolveNote(c, NotifyAdmit(c, n, marshals), n);
  }

  lemma EvolveNotifyFinish(c: Conn, n: nat)
    requires n < |c.notes|
    ensures Evolves(c, NotifyFinish(c, n))
  {
    hide Evolves;
    EvolveNote(c, NotifyFinish(c, n), n);
  }

  // ---------------------------------------------------------------------------------------------
  // write

  lemma EvolveAtWrite(c: Conn, w: Origin, pc: WritePc)
    requires Exists(c, w) && (w.FromReq? ==> c.reqs[w.r].phase.Answering?)
    requires ShuttingDown(c.s) ==> pc != AtWriter
    ensures Evolves(c, AtWrite(c, w, pc))
  {
    hide Evolves;
    match w
    case FromCall(k) => EvolveCall(c, AtWrite(c, w, pc), k);
    case FromNote(n) => EvolveNote(c, AtWrite(c, w, pc), n);
    case FromReq(r) => EvolveReq(c, AtWrite(c, w, pc), r);
  }

  lemma EvolveAfterWrite(c: Conn, w: Origin, err: Option<Err>)
    requires Exists(c, w) && (w.FromReq? ==> c.reqs[w.r].phase.Answering?)
    ensures Evolves(c, AfterWrite(c, w, err))
  {
    hide Evolves;
    match w
    case FromCall(k) => EvolveCall(c, AfterWrite(c, w, err), k);
    case FromNote(n) => EvolveNote(c, AfterWrite(c, w, err), n);
    case FromReq(r) => EvolveReq(c, AfterWrite(c, w, err), r);
  }

  lemma EvolveFailed(c: Conn, w: Origin, err: Err, ctxDone: bool)
    requires Exists(c, w) && (w.FromReq? ==> c.reqs[w.r].phase.Answering?)
    ensures Evolves(c, Failed(c, w, err, ctxDone))
  {
    hide Evolves;
    EvolveAtWrite(c, w, AtRecord(err));
    EvolveAfterWrite(c, w, Some(err));
  }

  lemma EvolveEpilogue(c: Conn)
    ensures Evolves(c, Epilogue(c))
  {
    EvolveNone(c, Epilogue(c));
  }

  lemma EvolveWriteGate(c: Conn, w: Origin, ctxDone: bool)
    requires Writes(c, w, AtGate)
    ensures Evolves(c, WriteGate(c, w, ctxDone))
  {
    EpilogueFrame(c);
    EvolveEpilogue(c);
    hide Evolves, Epilogue, Failed, AtWrite;
    var e := ShutdownErr(c.s, ErrServerClosing);
    if e.Some? {
      EvolveFailed(Epilogue(c), w, e.value, ctxDone);
    } else {
      EvolveAtWrite(Epilogue(c), w, AtWriter);
    }
    EvolvesTransitive(c, Epilogue(c), WriteGate(c, w, ctxDone));
  }

  lemma EpilogueFrame(c: Conn)
    ensures Epilogue(c).calls == c.calls && Epilogue(c).notes == c.notes && Epilogue(c).reqs == c.reqs
    ensures Epilogue(c).s == c.s.(closer := Epilogue(c).s.closer)
  {}

  // Writing a message whose writer had passed the gate.
  lemma EvolveMarkSent(c: Conn, w: Origin)
    requires Writes(c, w, AtWriter)
    requires w.FromCall? ==> c.calls[w.k].sentAt.None?
    requires w.FromReq? ==> c.reqs[w.r].sentAt.None?
    ensures Evolves(c, MarkSent(c, w))
  {
    var d := MarkSent(c, w);
    forall w1 ensures Writes(d, w1, AtWriter) ==> Writes(c, w1, AtWriter) {}
  }

  lemma UnsentWriter(c: Conn, w: Origin)
    requires Inv(c) && Writes(c, w, AtWriter)
    ensures w.FromCall? ==> c.calls[w.k].sentAt.None?
    ensures w.FromReq? ==> c.reqs[w.r].sentAt.None?
  {
    hide CallsInv, NotesInv, ReqsInv, HostsInv, CountInv, ReceivedInv, BrokenInv, DispatchInv, ReaderInv, DoneInv;
  }

  lemma EvolveWriteDo(c: Conn, w: Origin, failure: Option<Err>, ctxDone: bool)
    requires Inv(c) && Writes(c, w, AtWriter)
    ensures Evolves(c, WriteDo(c, w, failure, ctxDone))
  {
    UnsentWriter(c, w);
    hide Inv, Evolves, Failed;
    match failure
    case Some(e) => EvolveFailed(c, w, e, ctxDone);
    case None =>
      var c1 := MarkSent(c, w);
      EvolveMarkSent(c, w);
      EvolveAfterWrite(c1, w, None);
      EvolvesTransitive(c, c1, AfterWrite(c1, w, None));
  }

  lemma EvolveBreakWriter(c: Conn, err: Err)
    ensures Evolves(c, BreakWriter(c, err))
  {
    var d := BreakWriter(c, err);
    BrokenRestGrows(c, err);
    CancelledGrow(c.reqs, c.s.incomingByID.Values);
    BrokenGateShut(c, err);
    hide RestGrows, ReqsGrow, GateShut, CancelAll;
  }

  lemma BrokenRestGrows(c: Conn, err: Err)
    ensures RestGrows(c, BreakWriter(c, err))
  {
    hide CancelAll;
  }

  lemma BrokenGateShut(c: Conn, err: Err)
    ensures GateShut(c, BreakWriter(c, err))
  {
    hide Suffix, SubMap;
  }

  lemma CancelledGrow(reqs: seq<Req>, which: set<nat>)
    ensures ReqsGrow(reqs, reqs) && ReqsGrow(reqs, CancelAll(reqs, which))
  {}

  lemma EvolveWriteRecord(c: Conn, w: Origin)
    requires Recording(c, w)
    ensures Evolves(c, WriteRecord(c, w))
  {
    var err := RecordErr(c, w);
    var c1 := BreakWriter(c, err);
    EvolveBreakWriter(c, err);
    EvolveEpilogue(c1);
    EpilogueFrame(c1);
    hide Evolves, Epilogue;
    EvolveAfterWrite(Epilogue(c1), w, Some(err));
    EvolvesTransitive(c, c1, Epilogue(c1));
    EvolvesTransitive(c, Epilogue(c1), WriteRecord(c, w));
  }

  // ---------------------------------------------------------------------------------------------
  // Reader, dispatcher, handlers

  lemma EvolveDeliver(c: Conn)
    requires c.reader.Delivering? && c.reader.at < |c.received| && TracksKnown(c)
    ensures Evolves(c, Deliver(c))
  {
    hide Evolves;
    var d := Deliver(c);
    var id := c.received[c.reader.at].id;
    if id in c.s.outgoingCalls {
      EvolveCall(c, d, c.s.outgoingCalls[id]);
    } else {
      EvolveNone(c, d);
    }
  }

  lemma EvolveReaderExit(c: Conn)
    requires Inv(c) && c.reader.ReadFailed?
    ensures Evolves(c, ReaderExit(c))
  {
    hide CallsInv, NotesInv, ReqsInv, HostsInv, CountInv, ReceivedInv, BrokenInv, DispatchInv, SentInv, DoneInv;
  }

  lemma EvolveReadRequest(c: Conn, msg: Message)
    requires msg.Request? && c.reader.ReadLoop?
    ensures Evolves(c, ReadRequest(c, msg))
  {}

  lemma EvolveReadResponse(c: Conn, msg: Message)
    requires c.reader.ReadLoop?
    ensures Evolves(c, ReadResponse(c, msg))
  {
    hide Evolves;
    EvolveNone(c, ReadResponse(c, msg));
  }

  lemma EvolveStart(c: Conn)
    requires c.reader.NotStarted?
    ensures Evolves(c, Start(c))
  {
    hide Evolves;
    EvolveNone(c, Start(c));
  }

  lemma EvolveClose(c: Conn)
    ensures Evolves(c, Close(c))
  {
    hide Evolves;
    EvolveNone(c, Close(c));
  }

  lemma EvolveCancelLookup(c: Conn, id: ID)
    ensures Evolves(c, CancelLookup(c, id))
  {
    hide Evolves, Epilogue;
    var c1 := if id in c.s.incomingByID then c.(cancels := c.cancels + {c.s.incomingByID[id]}) else c;
    EvolveNone(c, c1);
    EvolveSection(c, c1);
  }

  lemma EvolveCancelFire(c: Conn, r: nat)
    requires r < |c.reqs|
    ensures Evolves(c, CancelFire(c, r))
  {
    hide Evolves;
    EvolveReqSame(c, CancelFire(c, r), r);
  }

  // A request may also stay where it is.
  lemma EvolveReqSame(c: Conn, d: Conn, r: nat)
    requires RestGrows(c, d) && d.calls == c.calls && d.notes == c.notes && d.sent == c.sent
    requires r < |c.reqs| == |d.reqs| && ReqGrows(c.reqs[r], d.reqs[r]) && d.reqs == c.reqs[r := d.reqs[r]]
    requires d.reqs[r].phase == c.reqs[r].phase && d.reqs[r].reply == c.reqs[r].reply
    ensures Evolves(c, d)
  {
    hide RestGrows;
  }

  lemma UnresolvedReq(c: Conn, r: nat)
    requires Inv(c) && r < |c.reqs| && Rank(c.reqs[r].phase) < 7
    ensures c.reqs[r].outcome.None?
  {
    hide CallsInv, NotesInv, HostsInv, CountInv, ReceivedInv, BrokenInv, DispatchInv, SentInv, DoneInv, ReaderInv;
    assert ReqOk(c.reqs[r]);
  }

  lemma AcceptSectionGrows(c: Conn)
    requires AcceptingAt(c, Arrived) && c.reqs[c.reader.r].outcome.None?
    ensures var d := AcceptSection(c);
            && |d.reqs| == |c.reqs| && d.reqs == c.reqs[c.reader.r := d.reqs[c.reader.r]] && d.calls == c.calls
            && ReqGrows(c.reqs[c.reader.r], d.reqs[c.reader.r]) && RestGrows(c, d)
  {
    var q := c.reqs[c.reader.r];
    assert ReqGrows(q, AcceptedReq(c.s, q));
    hide AcceptedReq, ReqGrows;
  }

  lemma EvolveAccept(c: Conn)
    requires Inv(c) && AcceptingAt(c, Arrived)
    ensures Evolves(c, Accept(c))
  {
    UnresolvedReq(c, c.reader.r);
    hide Inv, Evolves, Epilogue, AcceptSection, ReqGrows, RestGrows;
    AcceptSectionGrows(c);
    EvolveReq(c, AcceptSection(c), c.reader.r);
    EvolveSection(c, AcceptSection(c));
  }

  lemma EvolveFromOutside(c: Conn, r: nat, o: Outcome)
    requires r < |c.reqs| && c.reqs[r].outcome.None? && Rank(c.reqs[r].phase) < 7
    ensures Evolves(c, SetReq(NoteBreach(c, c.reqs[r].id, o), r, FromOutside(c.reqs[r], o)))
  {
    hide Evolves, Conforms;
    EvolveReq(c, SetReq(NoteBreach(c, c.reqs[r].id, o), r, FromOutside(c.reqs[r], o)), r);
  }

  lemma EvolvePreempt(c: Conn, decision: Option<Outcome>)
    requires Inv(c) && AcceptingAt(c, Preempting)
    ensures Evolves(c, Preempt(c, decision))
  {
    UnresolvedReq(c, c.reader.r);
    hide Inv, Evolves;
    if decision.Some? {
      EvolveFromOutside(c, c.reader.r, decision.value);
    } else {
      EvolveReq(c, Preempt(c, decision), c.reader.r);
    }
  }

  lemma EvolveEnqueue(c: Conn)
    requires Inv(c) && AcceptingAt(c, Enqueueing)
    ensures Evolves(c, Enqueue(c))
  {
    UnresolvedReq(c, c.reader.r);
    hide Inv, Evolves, Epilogue;
    EvolveReq(c, EnqueueSection(c), c.reader.r);
    EvolveSection(c, EnqueueSection(c));
  }

  lemma EvolveDequeue(c: Conn)
    requires Inv(c) && c.dispatcher.Looping?
    requires c.s.handlerQueue != [] ==> c.s.handlerQueue[0] < |c.reqs|
    ensures Evolves(c, Dequeue(c))
  {
    hide Inv, Evolves, Epilogue;
    if c.s.handlerQueue != [] {
      QueueHead(c);
      var r := c.s.handlerQueue[0];
      var c1 := SetReq(c, r, c.reqs[r].(phase := Dequeued, host := OnDispatcher))
                .(s := c.s.(handlerQueue := c.s.handlerQueue[1..]), dispatcher := Serving(r));
      EvolveReq(c, c1, r);
      EvolveSection(c, c1);
    } else {
      var c1 := c.(s := c.s.(handlerRunning := false), dispatcher := Off);
      EvolveNone(c, c1);
      EvolveSection(c, c1);
    }
  }

  lemma QueueHead(c: Conn)
    requires Inv(c) && c.s.handlerQueue != []
    ensures ReqAt(c, c.s.handlerQueue[0], Queued)
  {
    hide CallsInv, NotesInv, ReqsInv, HostsInv, CountInv, ReceivedInv, BrokenInv, SentInv, DoneInv, ReaderInv;
  }

  lemma EvolveCheckContext(c: Conn)
    requires ServingAt(c, Dequeued)
    ensures Evolves(c, CheckContext(c))
  {
    hide Evolves;
    EvolveReq(c, CheckContext(c), c.dispatcher.r);
  }

  lemma EvolveStaleResult(c: Conn)
    requires Inv(c) && ServingAt(c, Stale)
    ensures Evolves(c, StaleResult(c))
  {
    UnresolvedReq(c, c.dispatcher.r);
    hide Inv, Evolves;
    EvolveReq(c, StaleResult(c), c.dispatcher.r);
  }

  lemma EvolveAsync(c: Conn, r: nat)
    requires r < |c.reqs|
    ensures Evolves(c, Async(c, r))
  {
    hide Evolves;
    EvolveReqSame(c, Async(c, r), r);
  }

  lemma EvolveHandler(c: Conn, r: nat, o: Outcome)
    requires Inv(c) && ReqAt(c, r, Handling)
    ensures Evolves(c, HandleReturn(c, r, o))
  {
    hide Inv, Evolves;
    UnresolvedReq(c, r);
    EvolveFromOutside(c, r, o);
  }

  lemma EvolveProcess(c: Conn, r: nat)
    requires ReqAt(c, r, Resolving) && c.reqs[r].outcome.Some?
    ensures Evolves(c, Process(c, r))
  {
    hide Evolves, Settle, Epilogue;
    var q := c.reqs[r];
    var st := Settle(q.id, NameOf(q.msg), q.outcome.value);
    if IsValid(q.id) {
      var c1 := SetReq(c.(complaints := c.complaints + st.complaints), r,
                       q.(reply := st.reply, phase := if st.reply.Some? then Answering(AtGate) else Closing))
                .(s := c.s.(incomingByID := c.s.incomingByID - {q.id}));
      EvolveReq(c, c1, r);
      EvolveSection(c, c1);
    } else {
      EvolveReq(c, Process(c, r), r);
    }
  }

  lemma FinishHost(c: Conn, r: nat)
    requires Inv(c) && ReqAt(c, r, Closing)
    ensures c.reqs[r].host.OnReader? ==> c.reader == Accepting(r)
  {
    hide CallsInv, NotesInv, ReqsInv, CountInv, ReceivedInv, BrokenInv, SentInv, DoneInv, ReaderInv, DispatchInv;
  }

  lemma EvolveFinish(c: Conn, r: nat)
    requires Inv(c) && ReqAt(c, r, Closing)
    ensures Evolves(c, Finish(c, r))
  {
    FinishHost(c, r);
    hide Inv, Evolves, Epilogue;
    EvolveReq(c, FinishSection(c, r), r);
    EvolveSection(c, FinishSection(c, r));
  }

  lemma EvolveRelease(c: Conn, r: nat)
    requires ReqAt(c, r, Releasing)
    ensures Evolves(c, Release(c, r))
  {
    hide Evolves;
    EvolveReq(c, Release(c, r), r);
  }

  // ---------------------------------------------------------------------------------------------
  // Steps and runs

  lemma EvolveOutgoing(c: Conn, l: Label)
    requires Inv(c) && Enabled(c, l)
    requires l.LCallStart? || l.LCallRegister? || l.LCallRefuse? || l.LCallRetire? || l.LUserRetire?
             || l.LNotifyStart? || l.LNotifyAdmit? || l.LNotifyFinish? || l.LWriteGate? || l.LWriteDo? || l.LWriteRecord?
    ensures Evolves(c, Apply(c, l))
  {
    hide Inv, Evolves, CallRegister, CallRetire, RetireTracked, NotifyAdmit, NotifyFinish, WriteGate, WriteDo, WriteRecord;
    match l
    case LCallStart(name, params, failure) => EvolveCallStart(c, name, params, failure);
    case LCallRegister(k) => EvolveCallRegister(c, k);
    case LCallRefuse(k) => EvolveCallRefuse(c, k);
    case LCallRetire(k) => EvolveCallRetire(c, k);
    case LUserRetire(k, err) => EvolveRetireTracked(c, k, err);
    case LNotifyStart(name, params) => EvolveNotifyStart(c, name, params);
    case LNotifyAdmit(n, marshals) => EvolveNotifyAdmit(c, n, marshals);
    case LNotifyFinish(n) => EvolveNotifyFinish(c, n);
    case LWriteGate(w, ctxDone) => EvolveWriteGate(c, w, ctxDone);
    case LWriteDo(w, failure, ctxDone) => EvolveWriteDo(c, w, failure, ctxDone);
    case LWriteRecord(w) => EvolveWriteRecord(c, w);
  }

  lemma EvolveReading(c: Conn, l: Label)
    requires Inv(c) && Enabled(c, l)
    requires l.LStart? || l.LReadRequest? || l.LReadResponse? || l.LReadFail? || l.LDeliver? || l.LReaderExit?
             || l.LAccept? || l.LPreempt? || l.LEnqueue? || l.LCancelLookup? || l.LCancelFire? || l.LClose?
    ensures Evolves(c, Apply(c, l))
  {
    hide Inv, Evolves, Accept, Enqueue, Preempt, Deliver, ReaderExit, Start, CancelLookup, CancelFire, Close;
    match l
    case LStart => EvolveStart(c);
    case LReadRequest(msg) => EvolveReadRequest(c, msg);
    case LReadResponse(msg) => EvolveReadResponse(c, msg);
    case LReadFail(_) => EvolveNone(c, Apply(c, l));
    case LDeliver => EvolveDeliver(c);
    case LReaderExit => EvolveReaderExit(c);
    case LAccept => EvolveAccept(c);
    case LPreempt(decision) => EvolvePreempt(c, decision);
    case LEnqueue => EvolveEnqueue(c);
    case LCancelLookup(id) => EvolveCancelLookup(c, id);
    case LCancelFire(r) => EvolveCancelFire(c, r);
    case LClose => EvolveClose(c);
  }

  lemma EvolveHandling(c: Conn, l: Label)
    requires Inv(c) && Enabled(c, l)
    requires l.LDequeue? || l.LCheckContext? || l.LStaleResult? || l.LResume? || l.LAsync? || l.LHandleReturn?
             || l.LProcess? || l.LFinish? || l.LRelease?
    ensures Evolves(c, Apply(c, l))
  {
    hide Inv, Evolves, Dequeue, CheckContext, StaleResult, Async, HandleReturn, Process, Finish, Release;
    match l
    case LDequeue => EvolveDequeue(c);
    case LCheckContext => EvolveCheckContext(c);
    case LStaleResult => EvolveStaleResult(c);
    case LResume => EvolveNone(c, Apply(c, l));
    case LAsync(r) => EvolveAsync(c, r);
    case LHandleReturn(r, o) => EvolveHandler(c, r, o);
    case LProcess(r) => EvolveProcess(c, r);
    case LFinish(r) => EvolveFinish(c, r);
    case LRelease(r) => EvolveRelease(c, r);
  }

  lemma StepEvolves(c: Conn, l: Label)
    requires Inv(c) && Enabled(c, l)
    ensures Evolves(c, Apply(c, l))
  {
    hide Inv, Apply, Enabled, Evolves;
    match l
    case LCallStart(_, _, _) => EvolveOutgoing(c, l);
    case LCallRegister(_) => EvolveOutgoing(c, l);
    case LCallRefuse(_) => EvolveOutgoing(c, l);
    case LCallRetire(_) => EvolveOutgoing(c, l);
    case LUserRetire(_, _) => EvolveOutgoing(c, l);
    case LNotifyStart(_, _) => EvolveOutgoing(c, l);
    case LNotifyAdmit(_, _) => EvolveOutgoing(c, l);
    case LNotifyFinish(_) => EvolveOutgoing(c, l);
    case LWriteGate(_, _) => EvolveOutgoing(c, l);
    case LWriteDo(_, _, _) => EvolveOutgoing(c, l);
    case LWriteRecord(_) => EvolveOutgoing(c, l);
    case LDequeue => EvolveHandling(c, l);
    case LCheckContext => EvolveHandling(c, l);
    case LStaleResult => EvolveHandling(c, l);
    case LResume => EvolveHandling(c, l);
    case LAsync(_) => EvolveHandling(c, l);
    case LHandleReturn(_, _) => EvolveHandling(c, l);
    case LProcess(_) => EvolveHandling(c, l);
    case LFinish(_) => EvolveHandling(c, l);
    case LRelease(_) => EvolveHandling(c, l);
    case _ => EvolveReading(c, l);
  }

  lemma EvolvesTransitive(c: Conn, d: Conn, e: Conn)
    requires Evolves(c, d) && Evolves(d, e)
    ensures Evolves(c, e)
  {
    forall k | 0 <= k < |c.calls| ensures CallGrows(c.calls[k], e.calls[k]) {
      assert CallGrows(c.calls[k], d.calls[k]) && CallGrows(d.calls[k], e.calls[k]);
    }
    forall r | 0 <= r < |c.reqs| ensures ReqGrows(c.reqs[r], e.reqs[r]) {
      assert ReqGrows(c.reqs[r], d.reqs[r]) && ReqGrows(d.reqs[r], e.reqs[r]);
    }
  }

  // Over any continuation of any reachable state: what was recorded stays recorded.
  lemma {:induction false} RunEvolves(c: Conn, ls: seq<Label>)
    requires Inv(c) && CanRun(c, ls)
    ensures Evolves(c, RunFrom(c, ls))
    decreases |ls|
  {
    hide Inv, Apply, Enabled;
    if ls != [] {
      StepKeepsInv(c, ls[0]);
      StepEvolves(c, ls[0]);
      RunEvolves(Apply(c, ls[0]), ls[1..]);
      EvolvesTransitive(c, Apply(c, ls[0]), RunFrom(c, ls));
    }
  }
}
