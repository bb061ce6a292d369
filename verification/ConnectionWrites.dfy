// Every step of `write` keeps the invariant, whichever of its three callers performs it.
module ConnectionWrites {
  import opened Wrappers
  import opened Messages
  import opened Connection
  import opened ConnectionInvariant
  import opened ConnectionSteps
  import opened ConnectionRequests
  import opened Sums

  // ---------------------------------------------------------------------------------------------
  // Moving within and out of write

  lemma KeepCallPc(c: Conn, k: nat, pc: CallPc)
    requires Inv(c) && k < |c.calls| && c.calls[k].pc.Sending?
    requires pc.Sending? || pc.Retiring?
    ensures Inv(c.(calls := c.calls[k := c.calls[k].(pc := pc)]))
  {
    hide NotesInv, ReqsInv, HostsInv, CountInv, DispatchInv, BrokenInv, SentInv, ReceivedInv, DoneInv, ReaderInv;
    UnsentCall(c, k);
    KeepCallHistories(c, k, c.calls[k].(pc := pc));
  }

  lemma KeepNotePc(c: Conn, n: nat, pc: NotePc)
    requires Inv(c) && n < |c.notes| && c.notes[n].pc.Publishing?
    requires pc.Publishing? || pc.Finishing?
    ensures Inv(c.(notes := c.notes[n := c.notes[n].(pc := pc)]))
  {
    hide CallsInv, ReqsInv, HostsInv, CountInv, DispatchInv, BrokenInv, SentInv, ReceivedInv, DoneInv, ReaderInv;
    UnsentNote(c, n);
    KeepNoteHistories(c, n, c.notes[n].(pc := pc));
    SumUpdate(c.notes, n, c.notes[n].(pc := pc), Outstanding);
  }

  lemma KeepReqPc(c: Conn, r: nat, phase: Phase)
    requires Inv(c) && r < |c.reqs| && c.reqs[r].phase.Answering?
    requires phase.Answering? || phase.Closing?
    ensures Inv(SetReq(c, r, c.reqs[r].(phase := phase)))
  {
    hide Inv;
    ReqIsOk(c, r);
    KeepLocal(c, r, c.reqs[r].(phase := phase));
  }

  lemma KeepAtWrite(c: Conn, w: Origin, pc: WritePc)
    requires Inv(c) && InWrite(c, w)
    ensures Inv(AtWrite(c, w, pc))
  {
    hide Inv;
    match w
    case FromCall(k) => KeepCallPc(c, k, Sending(pc));
    case FromNote(n) => KeepNotePc(c, n, Publishing(pc));
    case FromReq(r) => KeepReqPc(c, r, Answering(pc));
  }

  lemma KeepAfterWrite(c: Conn, w: Origin, err: Option<Err>)
    requires Inv(c) && InWrite(c, w) && err.Some?
    ensures Inv(AfterWrite(c, w, err))
  {
    hide Inv;
    match w
    case FromCall(k) => KeepCallPc(c, k, Retiring(err.value));
    case FromNote(n) => KeepNotePc(c, n, Finishing);
    case FromReq(r) => KeepReqPc(c, r, Closing);
  }

  lemma KeepFailed(c: Conn, w: Origin, err: Err, ctxDone: bool)
    requires Inv(c) && InWrite(c, w)
    ensures Inv(Failed(c, w, err, ctxDone))
  {
    hide Inv;
    if !ctxDone && !IsCode(err, -32005) {
      KeepAtWrite(c, w, AtRecord(err));
    } else {
      KeepAfterWrite(c, w, Some(err));
    }
  }

  // A critical section that only reads ends where it began.
  lemma ReadOnlyEpilogue(c: Conn)
    requires Inv(c)
    ensures Epilogue(c) == c
  {
    hide Core;
    EpilogueNoOp(c);
  }

  lemma KeepWriteGate(c: Conn, w: Origin, ctxDone: bool)
    requires Inv(c) && Writes(c, w, AtGate) && (w.FromReq? ==> !ctxDone)
    ensures Inv(WriteGate(c, w, ctxDone))
  {
    hide Inv, Epilogue;
    ReadOnlyEpilogue(c);
    match ShutdownErr(c.s, ErrServerClosing)
    case Some(e) => KeepFailed(c, w, e, ctxDone);
    case None => KeepAtWrite(c, w, AtWriter);
  }

  // ---------------------------------------------------------------------------------------------
  // The write itself

  // A successful write is recorded with its writer, which leaves write in the same step.
  lemma SentByCall(c: Conn, k: nat)
    requires SentInv(c.sent, c.calls, c.notes, c.reqs) && k < |c.calls| && c.calls[k].pc.Sending?
    ensures SentInv(c.sent + [Sent(CallRequest(c.calls[k], k), FromCall(k))],
                    c.calls[k := c.calls[k].(sentAt := Some(|c.sent|), pc := Returned)], c.notes, c.reqs)
  {
    UnsentCall(c, k);
  }

  lemma SentByNote(c: Conn, n: nat)
    requires SentInv(c.sent, c.calls, c.notes, c.reqs) && n < |c.notes| && c.notes[n].pc.Publishing?
    ensures SentInv(c.sent + [Sent(Request(NoID, c.notes[n].methodName, c.notes[n].params), FromNote(n))],
                    c.calls, c.notes[n := c.notes[n].(sentAt := Some(|c.sent|), pc := Finishing)], c.reqs)
  {
    UnsentNote(c, n);
  }

  lemma SentByReq(c: Conn, r: nat)
    requires SentInv(c.sent, c.calls, c.notes, c.reqs) && r < |c.reqs| && c.reqs[r].phase.Answering? && c.reqs[r].reply.Some?
    ensures SentInv(c.sent + [Sent(c.reqs[r].reply.value, FromReq(r))], c.calls, c.notes,
                    c.reqs[r := c.reqs[r].(sentAt := Some(|c.sent|), phase := Closing)])
  {
    UnsentReq(c, r);
  }

  lemma KeepWrittenCall(c: Conn, k: nat)
    requires Inv(c) && Writes(c, FromCall(k), AtWriter)
    ensures Inv(WriteDo(c, FromCall(k), None, false))
  {
    hide NotesInv, ReqsInv, HostsInv, CountInv, DispatchInv, BrokenInv, SentInv, DoneInv, ReaderInv;
    SentByCall(c, k);
    var call := c.calls[k].(sentAt := Some(|c.sent|), pc := Returned);
    assert WriteDo(c, FromCall(k), None, false).calls == c.calls[k := call];
  }

  lemma KeepWrittenNote(c: Conn, n: nat)
    requires Inv(c) && Writes(c, FromNote(n), AtWriter)
    ensures Inv(WriteDo(c, FromNote(n), None, false))
  {
    hide CallsInv, ReqsInv, HostsInv, CountInv, DispatchInv, BrokenInv, SentInv, ReceivedInv, DoneInv, ReaderInv;
    SentByNote(c, n);
    var note := c.notes[n].(sentAt := Some(|c.sent|), pc := Finishing);
    assert WriteDo(c, FromNote(n), None, false).notes == c.notes[n := note];
    SumUpdate(c.notes, n, note, Outstanding);
  }

  lemma WrittenReceived(c: Conn, r: nat, q: Req)
    requires ReceivedInv(c.received, c.calls, c.reqs) && r < |c.reqs|
    requires q.msg == c.reqs[r].msg && q.at == c.reqs[r].at && q.dup == c.reqs[r].dup
    ensures ReceivedInv(c.received, c.calls, c.reqs[r := q])
  {
    var reqs := c.reqs[r := q];
    EarlierKept(c.reqs, reqs);
  }

  lemma KeepWrittenReq(c: Conn, r: nat)
    requires Inv(c) && Writes(c, FromReq(r), AtWriter)
    ensures Inv(WriteDo(c, FromReq(r), None, false))
  {
    hide CallsInv, NotesInv, ReqsInv, CountInv, DispatchInv, SentInv, ReceivedInv, DoneInv, ReaderInv, ReqOk;
    SentByReq(c, r);
    var q := c.reqs[r].(sentAt := Some(|c.sent|), phase := Closing);
    WrittenFacts(c, r);
    WrittenReceived(c, r, q);
    KeepDispatch(c, r, q);
    KeepReqsLocalHost(c.reqs, c.s.incomingByID, r, q);
    KeepCount(c.reqs, c.s.incoming, r, q);
    ReleaseReader(c, r, q);
    assert WriteDo(c, FromReq(r), None, false).reqs == c.reqs[r := q];
  }

  lemma WrittenFacts(c: Conn, r: nat)
    requires Inv(c) && Writes(c, FromReq(r), AtWriter)
    ensures ReqOk(c.reqs[r].(sentAt := Some(|c.sent|), phase := Closing))
  {
    ReqIsOk(c, r);
  }

  lemma KeepWriteDo(c: Conn, w: Origin, failure: Option<Err>, ctxDone: bool)
    requires Inv(c) && Writes(c, w, AtWriter) && (w.FromReq? ==> !ctxDone)
    ensures Inv(WriteDo(c, w, failure, ctxDone))
  {
    hide Inv;
    if failure.Some? {
      KeepFailed(c, w, failure.value, ctxDone);
    } else {
      match w
      case FromCall(k) => KeepWrittenCall(c, k);
      case FromNote(n) => KeepWrittenNote(c, n);
      case FromReq(r) => KeepWrittenReq(c, r);
    }
  }

  // ---------------------------------------------------------------------------------------------
  // Recording a failure

  // Cancelling requests changes none of the facts that do not mention cancellation.
  lemma CancelAllReqs(c: Conn, which: set<nat>)
    requires ReqsInv(c.reqs, c.s.incomingByID) && HostsInv(c.reqs, c.reader, c.dispatcher)
    ensures var reqs := CancelAll(c.reqs, which);
            ReqsInv(reqs, c.s.incomingByID) && HostsInv(reqs, c.reader, c.dispatcher)
  {}

  lemma CancelAllCount(reqs: seq<Req>, incoming: int, which: set<nat>)
    requires CountInv(reqs, incoming)
    ensures CountInv(CancelAll(reqs, which), incoming)
  {
    SumSame(reqs, CancelAll(reqs, which), InCount);
  }

  lemma CancelAllDispatch(c: Conn, which: set<nat>)
    requires DispatchInv(c.reqs, c.s.handlerQueue, c.s.handlerRunning, c.dispatcher, c.starts)
    ensures DispatchInv(CancelAll(c.reqs, which), c.s.handlerQueue, c.s.handlerRunning, c.dispatcher, c.starts)
  {}

  lemma CancelAllSent(c: Conn, which: set<nat>)
    requires SentInv(c.sent, c.calls, c.notes, c.reqs)
    ensures SentInv(c.sent, c.calls, c.notes, CancelAll(c.reqs, which))
  {}

  lemma CancelAllReceived(c: Conn, which: set<nat>)
    requires ReceivedInv(c.received, c.calls, c.reqs)
    ensures ReceivedInv(c.received, c.calls, CancelAll(c.reqs, which))
  {
    EarlierKept(c.reqs, CancelAll(c.reqs, which));
  }

  // Every waiting call is tracked, so cancelling what is tracked reaches all of them.
  lemma CancelTracked(reqs: seq<Req>, byID: map<ID, nat>)
    requires ReqsInv(reqs, byID)
    ensures BrokenInv(CancelAll(reqs, byID.Values), true)
  {
    forall r | 0 <= r < |reqs| && Tracked(reqs[r]) ensures r in byID.Values {
      assert byID[reqs[r].id] == r;
    }
  }

  lemma KeepBreakWriter(c: Conn, err: Err)
    requires Inv(c)
    ensures Inv(Epilogue(BreakWriter(c, err)))
  {
    hide CallsInv, NotesInv, ReqsInv, HostsInv, CountInv, DispatchInv, SentInv, ReceivedInv, BrokenInv, ReqOk;
    var which := c.s.incomingByID.Values;
    if c.s.writeErr.Some? {
      ReadOnlyEpilogue(c);
    } else {
      CancelAllReqs(c, which);
      CancelAllCount(c.reqs, c.s.incoming, which);
      CancelAllDispatch(c, which);
      CancelAllSent(c, which);
      CancelAllReceived(c, which);
      CancelTracked(c.reqs, c.s.incomingByID);
      EpilogueInv(BreakWriter(c, err));
    }
  }

  lemma KeepWriteRecord(c: Conn, w: Origin)
    requires Inv(c) && Recording(c, w)
    ensures Inv(WriteRecord(c, w))
  {
    hide Inv;
    KeepBreakWriter(c, RecordErr(c, w));
    KeepAfterWrite(Epilogue(BreakWriter(c, RecordErr(c, w))), w, Some(RecordErr(c, w)));
  }
}
