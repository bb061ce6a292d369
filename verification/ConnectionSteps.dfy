// Every step of a connection keeps the invariant.
module ConnectionSteps {
  import opened Wrappers
  import opened Messages
  import opened Connection
  import opened ConnectionInvariant
  import opened Sums

  // ---------------------------------------------------------------------------------------------
  // Calls

  // A call that keeps its request and has not been written may change its progress freely.
  lemma KeepCallHistories(c: Conn, k: nat, call: Call)
    requires k < |c.calls| && SentInv(c.sent, c.calls, c.notes, c.reqs) && ReceivedInv(c.received, c.calls, c.reqs)
    requires call.methodName == c.calls[k].methodName && call.params == c.calls[k].params && call.sentAt == c.calls[k].sentAt
    requires call.sentAt.Some? ==> call.pc.Returned?
    requires call.answer == c.calls[k].answer || call.answer.None? || call.answer.value.at.None?
             || (call.answer.value.at.value < |c.received| && c.received[call.answer.value.at.value] == call.answer.value.msg)
    ensures SentInv(c.sent, c.calls[k := call], c.notes, c.reqs) && ReceivedInv(c.received, c.calls[k := call], c.reqs)
  {}

  lemma KeepCallStart(c: Conn, name: string, params: Raw, failure: Option<Err>)
    requires Inv(c)
    ensures Inv(CallStart(c, name, params, failure))
  {
    hide NotesInv, ReqsInv, HostsInv, CountInv, DispatchInv, BrokenInv;
  }

  lemma KeepCallRegister(c: Conn, k: nat)
    requires Inv(c) && k < |c.calls| && c.calls[k].pc.Registering?
    ensures Inv(CallRegister(c, k))
  {
    hide NotesInv, ReqsInv, HostsInv, CountInv, DispatchInv, BrokenInv, SentInv, ReceivedInv;
    var call := if ShuttingDown(c.s) then c.calls[k].(pc := Refused(ShutdownErr(c.s, ErrClientClosing).value))
                else c.calls[k].(pc := Sending(AtGate), registered := true);
    UnsentCall(c, k);
    KeepCallHistories(c, k, call);
    var c1 := if ShuttingDown(c.s) then c.(calls := c.calls[k := call])
              else c.(calls := c.calls[k := call], s := c.s.(outgoingCalls := c.s.outgoingCalls[CallID(k) := k]));
    assert CallsInv(c1.calls, c1.s.outgoingCalls);
    EpilogueInv(c1);
  }

  lemma UnsentCall(c: Conn, k: nat)
    requires k < |c.calls| && !c.calls[k].pc.Returned? && SentInv(c.sent, c.calls, c.notes, c.reqs)
    ensures c.calls[k].sentAt.None?
  {}

  lemma KeepCallRefuse(c: Conn, k: nat)
    requires Inv(c) && k < |c.calls| && c.calls[k].pc.Refused?
    ensures Inv(CallRefuse(c, k))
  {
    hide NotesInv, ReqsInv, HostsInv, CountInv, DispatchInv, BrokenInv, SentInv, ReceivedInv;
    UnsentCall(c, k);
    var c1 := CallRefuse(c, k);
    KeepCallHistories(c, k, c1.calls[k]);
    assert CallOk(c.calls[k], k, c.s.outgoingCalls);
    assert c1.calls == c.calls[k := c1.calls[k]];
  }

  // Connection.Retire, seen from any goroutine.
  lemma KeepRetireTracked(c: Conn, k: nat, err: Err)
    requires Inv(c) && k < |c.calls| && (CallID(k) in c.s.outgoingCalls ==> c.calls[k].registered)
    ensures Inv(Epilogue(RetireTracked(c, k, err)))
  {
    hide NotesInv, ReqsInv, HostsInv, CountInv, DispatchInv, BrokenInv, SentInv, ReceivedInv;
    var c1 := RetireTracked(c, k, err);
    SentCallReturned(c, k);
    KeepCallHistories(c, k, c1.calls[k]);
    assert CallOk(c.calls[k], k, c.s.outgoingCalls);
    assert c1.calls == c.calls[k := c1.calls[k]];
    assert CallsInv(c1.calls, c1.s.outgoingCalls);
    EpilogueInv(c1);
  }

  lemma SentCallReturned(c: Conn, k: nat)
    requires k < |c.calls| && SentInv(c.sent, c.calls, c.notes, c.reqs)
    ensures c.calls[k].sentAt.Some? ==> c.calls[k].pc.Returned?
  {}

  lemma KeepCallReturn(c: Conn, k: nat)
    requires Inv(c) && k < |c.calls| && c.calls[k].pc.Retiring? && c.calls[k].answer.Some?
    ensures Inv(c.(calls := c.calls[k := c.calls[k].(pc := Returned)]))
  {
    hide NotesInv, ReqsInv, HostsInv, CountInv, DispatchInv, BrokenInv, SentInv, ReceivedInv;
    UnsentCall(c, k);
    KeepCallHistories(c, k, c.calls[k].(pc := Returned));
  }

  // A call that could not be written has been retired by the time it returns.
  lemma KeepCallRetire(c: Conn, k: nat)
    requires Inv(c) && k < |c.calls| && c.calls[k].pc.Retiring?
    ensures Inv(CallRetire(c, k))
  {
    hide Inv, RetireTracked, Epilogue;
    CallRegistered(c, k);
    KeepRetireTracked(c, k, c.calls[k].pc.err);
    RetireAnswers(c, k, c.calls[k].pc.err);
    RetireReturned(c, k, c.calls[k].pc.err);
    var d := RetireTracked(c, k, c.calls[k].pc.err);
    EpilogueOfCalls(d, d.calls[k := d.calls[k].(pc := Returned)]);
    KeepCallReturn(Epilogue(d), k);
  }

  lemma RetireAnswers(c: Conn, k: nat, err: Err)
    requires Inv(c) && k < |c.calls| && c.calls[k].registered
    ensures RetireTracked(c, k, err).calls[k].answer.Some?
  {
    hide NotesInv, ReqsInv, HostsInv, CountInv, DispatchInv, BrokenInv, SentInv, ReceivedInv, DoneInv, ReaderInv;
    assert CallOk(c.calls[k], k, c.s.outgoingCalls);
  }

  // Whether the call is said to have returned before or after it is retired makes no difference.
  lemma RetireReturned(c: Conn, k: nat, err: Err)
    requires k < |c.calls|
    ensures var d := RetireTracked(c, k, err);
            && |d.calls| == |c.calls| && d.calls[k].pc == c.calls[k].pc
            && RetireTracked(c.(calls := c.calls[k := c.calls[k].(pc := Returned)]), k, err)
               == d.(calls := d.calls[k := d.calls[k].(pc := Returned)])
  {}

  lemma EpilogueOfCalls(c: Conn, calls: seq<Call>)
    ensures Epilogue(c.(calls := calls)) == Epilogue(c).(calls := calls)
    ensures Epilogue(c).calls == c.calls
  {}

  lemma CallRegistered(c: Conn, k: nat)
    requires Inv(c) && k < |c.calls|
    ensures c.calls[k].pc.Retiring? || CallID(k) in c.s.outgoingCalls ==> c.calls[k].registered
  {
    assert CallOk(c.calls[k], k, c.s.outgoingCalls);
  }

  lemma KeepUserRetire(c: Conn, k: nat, err: Err)
    requires Inv(c) && k < |c.calls| && c.calls[k].pc.Returned?
    ensures Inv(Apply(c, LUserRetire(k, err)))
  {
    hide Inv;
    CallRegistered(c, k);
    KeepRetireTracked(c, k, err);
  }

  // ---------------------------------------------------------------------------------------------
  // Notifications

  // A notification that keeps its request and has not been written may change its progress freely.
  lemma KeepNoteHistories(c: Conn, n: nat, note: Note)
    requires n < |c.notes| && SentInv(c.sent, c.calls, c.notes, c.reqs)
    requires note.methodName == c.notes[n].methodName && note.params == c.notes[n].params && note.sentAt == c.notes[n].sentAt
    requires note.sentAt.Some? ==> !note.pc.Admitting? && !note.pc.Publishing?
    ensures SentInv(c.sent, c.calls, c.notes[n := note], c.reqs)
  {}

  lemma UnsentNote(c: Conn, n: nat)
    requires n < |c.notes| && SentInv(c.sent, c.calls, c.notes, c.reqs)
    requires c.notes[n].pc.Admitting? || c.notes[n].pc.Publishing?
    ensures c.notes[n].sentAt.None?
  {}

  lemma KeepNotifyStart(c: Conn, name: string, params: Raw)
    requires Inv(c)
    ensures Inv(NotifyStart(c, name, params))
  {
    hide CallsInv, ReqsInv, HostsInv, CountInv, DispatchInv, BrokenInv, ReceivedInv;
    SumAppend(c.notes, Note(name, params, Admitting, None), Outstanding);
  }

  // Work in flight keeps the connection from being idle.
  lemma TrackedMeansIncoming(c: Conn)
    requires Inv(c) && c.s.incomingByID != map[]
    ensures c.s.incoming > 0
  {
    var id :| id in c.s.incomingByID;
    SumAtLeast(c.reqs, c.s.incomingByID[id], InCount);
  }

  // A notification admitted during a shutdown finds a call still in flight, so nothing was idle.
  lemma AdmittedMeansBusy(c: Conn)
    requires Inv(c) && !NotifyRefused(c)
    ensures !(Idle(c.s) && ShuttingDown(c.s)) && !c.done
  {
    hide CallsInv, ReqsInv, HostsInv, CountInv, DispatchInv, BrokenInv, SentInv, ReceivedInv;
    if c.s.incomingByID != map[] {
      TrackedMeansIncoming(c);
    }
  }

  lemma KeepNotifyAdmit(c: Conn, n: nat, marshals: bool)
    requires Inv(c) && n < |c.notes| && c.notes[n].pc.Admitting?
    ensures Inv(NotifyAdmit(c, n, marshals))
  {
    hide CallsInv, ReqsInv, HostsInv, CountInv, DispatchInv, BrokenInv, SentInv, ReceivedInv, DoneInv;
    var note := c.notes[n].(pc := if NotifyRefused(c) then Settled else if marshals then Publishing(AtGate) else Finishing);
    UnsentNote(c, n);
    KeepNoteHistories(c, n, note);
    SumUpdate(c.notes, n, note, Outstanding);
    var c1 := c.(notes := c.notes[n := note]);
    if NotifyRefused(c) {
      EpilogueKeepsPending(c, c1);
    } else {
      AdmittedMeansBusy(c);
      var c2 := c1.(s := c.s.(outgoingNotifications := c.s.outgoingNotifications + 1));
      SomeBusyPending(c, c2);
      EpilogueInv(c2);
    }
  }

  // A section that leaves the shared state as it was leaves the completion state right.
  lemma EpilogueKeepsPending(c: Conn, c1: Conn)
    requires Inv(c) && Core(c1) && c1.s == c.s && c1.done == c.done && c1.closings == c.closings && c1.doneCloses == c.doneCloses
    ensures Inv(Epilogue(c1))
  {
    hide Core;
    EpilogueInv(c1);
  }

  lemma SomeBusyPending(c: Conn, c1: Conn)
    requires DoneInv(c.s, c.done, c.closings, c.doneCloses) && !c.done
    requires c1.s.closer == c.s.closer && c1.done == c.done && c1.closings == c.closings && c1.doneCloses == c.doneCloses
    ensures Pending(c1)
  {}

  lemma KeepNotifyFinish(c: Conn, n: nat)
    requires Inv(c) && n < |c.notes| && c.notes[n].pc.Finishing?
    ensures Inv(NotifyFinish(c, n))
  {
    hide CallsInv, ReqsInv, HostsInv, CountInv, DispatchInv, BrokenInv, SentInv, ReceivedInv;
    var note := c.notes[n].(pc := Settled);
    KeepNoteHistories(c, n, note);
    SumUpdate(c.notes, n, note, Outstanding);
    SumAtLeast(c.notes, n, Outstanding);
    EpilogueInv(c.(notes := c.notes[n := note], s := c.s.(outgoingNotifications := c.s.outgoingNotifications - 1)));
  }

  // ---------------------------------------------------------------------------------------------
  // Requests

  // Duplicates stay duplicates while messages keep their identifiers.
  lemma EarlierKept(reqs: seq<Req>, reqs': seq<Req>)
    requires |reqs| <= |reqs'| && forall r :: 0 <= r < |reqs| ==> reqs'[r].msg.id == reqs[r].msg.id
    ensures forall r :: 0 <= r < |reqs| && EarlierSameID(reqs, r) ==> EarlierSameID(reqs', r)
  {
    forall r | 0 <= r < |reqs| && EarlierSameID(reqs, r) ensures EarlierSameID(reqs', r) {
      var r2 :| 0 <= r2 < r && reqs[r2].msg.id == reqs[r].msg.id;
      assert reqs'[r2].msg.id == reqs'[r].msg.id;
    }
  }

  // A request that keeps its message, and its reply once written, may change its progress freely.
  lemma KeepReqHistories(c: Conn, r: nat, q: Req)
    requires r < |c.reqs| && SentInv(c.sent, c.calls, c.notes, c.reqs) && ReceivedInv(c.received, c.calls, c.reqs)
    requires q.msg == c.reqs[r].msg && q.at == c.reqs[r].at && q.sentAt == c.reqs[r].sentAt
    requires q.dup ==> c.reqs[r].dup || EarlierSameID(c.reqs, r)
    requires q.sentAt.Some? ==> PastWrite(q.phase) && q.reply == c.reqs[r].reply
    ensures SentInv(c.sent, c.calls, c.notes, c.reqs[r := q]) && ReceivedInv(c.received, c.calls, c.reqs[r := q])
  {
    var reqs := c.reqs[r := q];
    EarlierKept(c.reqs, reqs);
  }

  lemma UnsentReq(c: Conn, r: nat)
    requires r < |c.reqs| && SentInv(c.sent, c.calls, c.notes, c.reqs) && !PastWrite(c.reqs[r].phase)
    ensures c.reqs[r].sentAt.None?
  {}

  // A request that neither joins nor leaves the queue or a handler.
  lemma KeepDispatch(c: Conn, r: nat, q: Req)
    requires r < |c.reqs|
    requires DispatchInv(c.reqs, c.s.handlerQueue, c.s.handlerRunning, c.dispatcher, c.starts)
    requires q.phase.Queued? <==> c.reqs[r].phase.Queued?
    requires q.host.OnHandler? <==> c.reqs[r].host.OnHandler?
    ensures DispatchInv(c.reqs[r := q], c.s.handlerQueue, c.s.handlerRunning, c.dispatcher, c.starts)
  {}

  // What a request may change while it stays on its goroutine and touches no counter, map or queue.
  ghost predicate LocalChange(p: Req, q: Req) {
    && ReqOk(q)
    && q.msg == p.msg && q.at == p.at && q.sentAt == p.sentAt && q.id == p.id && q.dup == p.dup && q.host == p.host
    && q.phase.Gone? == p.phase.Gone? && InCount(q) == InCount(p) && Tracked(q) == Tracked(p)
    && (p.released ==> q.released)
    && (p.cancelled ==> q.cancelled)
    && q.phase.Queued? == p.phase.Queued?
    && (q.phase.Dequeued? ==> p.phase.Dequeued?)
    && (q.sentAt.Some? ==> PastWrite(q.phase) && q.reply == p.reply)
  }

  lemma KeepReqsLocal(reqs: seq<Req>, byID: map<ID, nat>, r: nat, q: Req)
    requires ReqsInv(reqs, byID) && r < |reqs| && LocalChange(reqs[r], q)
    ensures ReqsInv(reqs[r := q], byID)
  {
    hide ReqOk;
  }

  lemma KeepLocal(c: Conn, r: nat, q: Req)
    requires Inv(c) && r < |c.reqs| && LocalChange(c.reqs[r], q) && (q.breach ==> c.reqs[r].breach || c.breaches > 0)
    ensures Inv(SetReq(c, r, q))
  {
    hide CallsInv, NotesInv, DispatchInv, SentInv, ReceivedInv, ReqsInv, CountInv, DoneInv, ReqOk;
    KeepReqHistories(c, r, q);
    KeepDispatch(c, r, q);
    KeepReqsLocal(c.reqs, c.s.incomingByID, r, q);
    KeepCount(c.reqs, c.s.incoming, r, q);
    assert HostsInv(c.reqs[r := q], c.reader, c.dispatcher);
  }

  lemma KeepCount(reqs: seq<Req>, incoming: int, r: nat, q: Req)
    requires CountInv(reqs, incoming) && r < |reqs|
    ensures CountInv(reqs[r := q], incoming - InCount(reqs[r]) + InCount(q))
    ensures incoming >= InCount(reqs[r])
  {
    SumUpdate(reqs, r, q, InCount);
    SumAtLeast(reqs, r, InCount);
  }

  lemma KeepReadRequest(c: Conn, msg: Message)
    requires Inv(c) && c.reader.ReadLoop? && msg.Request?
    ensures Inv(ReadRequest(c, msg))
  {
    hide CallsInv, NotesInv, DispatchInv, SentInv, ReceivedInv, ReqsInv, CountInv, DoneInv;
    var q := Req(msg, |c.received|, msg.id, false, false, OnReader, Arrived, None, None, None, false, 0, 0, false);
    ArriveCount(c.reqs, c.s.incoming, q);
    ArriveHistories(c, q);
    ArriveDispatch(c, q);
    ArriveReqs(c.reqs, c.s.incomingByID, q);
  }

  lemma ArriveCount(reqs: seq<Req>, incoming: int, q: Req)
    requires CountInv(reqs, incoming) && q.phase.Arrived?
    ensures CountInv(reqs + [q], incoming)
  {
    SumAppend(reqs, q, InCount);
  }

  lemma ArriveReqs(reqs: seq<Req>, byID: map<ID, nat>, q: Req)
    requires ReqsInv(reqs, byID) && ReqOk(q) && q.phase.Arrived?
    ensures ReqsInv(reqs + [q], byID)
  {
    hide ReqOk;
  }

  lemma ArriveHistories(c: Conn, q: Req)
    requires SentInv(c.sent, c.calls, c.notes, c.reqs) && ReceivedInv(c.received, c.calls, c.reqs)
    requires q.at == |c.received| && q.sentAt.None? && !q.dup
    ensures SentInv(c.sent, c.calls, c.notes, c.reqs + [q]) && ReceivedInv(c.received + [q.msg], c.calls, c.reqs + [q])
  {
    var reqs := c.reqs + [q];
    EarlierKept(c.reqs, reqs);
  }

  lemma ArriveDispatch(c: Conn, q: Req)
    requires DispatchInv(c.reqs, c.s.handlerQueue, c.s.handlerRunning, c.dispatcher, c.starts)
    requires !q.phase.Queued? && !q.host.OnHandler?
    ensures DispatchInv(c.reqs + [q], c.s.handlerQueue, c.s.handlerRunning, c.dispatcher, c.starts)
    ensures c.dispatcher.Serving? ==> c.dispatcher.r < |c.reqs|
  {}

  lemma KeepReadResponse(c: Conn, msg: Message)
    requires Inv(c) && c.reader.ReadLoop? && msg.Response?
    ensures Inv(ReadResponse(c, msg))
  {
    assert ReceivedInv(c.received + [msg], c.calls, c.reqs);
    hide CallsInv, NotesInv, CountInv, ReqsInv, DispatchInv, SentInv, ReceivedInv;
  }

  lemma KeepStart(c: Conn)
    requires Inv(c) && c.reader.NotStarted?
    ensures Inv(Start(c))
  {
    hide CallsInv, NotesInv, CountInv, ReqsInv, DispatchInv, SentInv, ReceivedInv;
    EpilogueInv(if c.done then c.(reader := Exited) else c.(s := c.s.(reading := true), reader := ReadLoop));
  }

  lemma KeepReadFail(c: Conn, err: Err)
    requires Inv(c) && c.reader.ReadLoop?
    ensures Inv(c.(reader := ReadFailed(err)))
  {
    hide CallsInv, NotesInv, CountInv, ReqsInv, DispatchInv, SentInv, ReceivedInv;
  }
}
