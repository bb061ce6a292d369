// Safety of a connection over every run: completion, retirement of calls, conservation of incoming
// work, ownership of identifiers, dispatch order and write failure.
module ConnectionTheorems {
  import opened Wrappers
  import opened Messages
  import opened Connection
  import opened ConnectionInvariant
  import opened ConnectionRequests
  import opened ConnectionRuns
  import opened ConnectionEvolution
  import opened Sums

  // ---------------------------------------------------------------------------------------------
  // Completion

  // In every reachable state the connection is done if and only if it is idle, shutting down and no
  // longer reading; the closer is invoked at most once, only in an idle state of a shutdown, and has
  // been invoked in every such state; done closes once; and none of the program's own panics (busy when
  // already done, retired twice, incoming already zero) ever happens.
  lemma DoneExactly(c: Conn)
    requires Reachable(c)
    ensures c.done <==> Idle(c.s) && ShuttingDown(c.s) && !c.s.reading
    ensures |c.closings| <= 1 && (|c.closings| == 1 <==> !c.s.closer)
    ensures forall i :: 0 <= i < |c.closings| ==> Idle(c.closings[i]) && ShuttingDown(c.closings[i])
    ensures Idle(c.s) && ShuttingDown(c.s) ==> |c.closings| == 1
    ensures c.doneCloses <= 1 && (c.doneCloses == 1 <==> c.done)
    ensures c.panics == []
  {
    ReachableInv(c);
    hide CallsInv, NotesInv, ReqsInv, HostsInv, CountInv, DispatchInv, SentInv, ReceivedInv, BrokenInv, ReaderInv;
  }

  // internalErrorf is unreachable while user code keeps the Handler contract.
  lemma ContractMeansNoComplaints(c: Conn)
    requires Reachable(c) && c.breaches == 0
    ensures c.complaints == 0
    ensures forall r :: 0 <= r < |c.reqs| && c.reqs[r].outcome.Some? ==> Conforms(c.reqs[r].id, c.reqs[r].outcome.value)
  {
    ReachableInv(c);
    forall r | 0 <= r < |c.reqs| ensures ReqOk(c.reqs[r]) { ReqIsOk(c, r); }
    hide CallsInv, NotesInv, ReqsInv, HostsInv, CountInv, DispatchInv, SentInv, ReceivedInv, BrokenInv, ReaderInv, DoneInv;
  }

  lemma DoneHolds(c: Conn)
    requires Inv(c)
    ensures c.done <==> Idle(c.s) && ShuttingDown(c.s) && !c.s.reading
  {
    hide CallsInv, NotesInv, ReqsInv, HostsInv, CountInv, DispatchInv, SentInv, ReceivedInv, BrokenInv, ReaderInv;
  }

  // Over any continuation of a reachable state: a connection that is done stays done, idle and not
  // reading; a shutdown is never undone and its recorded errors never change; answers and outcomes
  // are final; nothing leaves the histories of what was read, written and handled.
  lemma NothingIsTakenBack(c: Conn, ls: seq<Label>)
    requires Reachable(c) && CanRun(c, ls)
    ensures var d := RunFrom(c, ls);
            && (c.done ==> d.done && Idle(d.s) && !d.s.reading)
            && (ShuttingDown(c.s) ==> ShuttingDown(d.s))
            && Stays(c.s.readErr, d.s.readErr) && Stays(c.s.writeErr, d.s.writeErr)
            && c.received <= d.received && c.sent <= d.sent && c.starts <= d.starts
            && |c.calls| <= |d.calls| && |c.reqs| <= |d.reqs|
            && (forall k :: 0 <= k < |c.calls| ==> Stays(c.calls[k].answer, d.calls[k].answer))
            && (forall r :: 0 <= r < |c.reqs| ==> Stays(c.reqs[r].outcome, d.reqs[r].outcome) && Rank(c.reqs[r].phase) <= Rank(d.reqs[r].phase))
  {
    hide Inv, Apply, Enabled;
    ReachableInv(c);
    RunEvolves(c, ls);
    RunKeepsInv(c, ls);
    DoneHolds(RunFrom(c, ls));
  }

  // The ratchet of a shutdown, over any continuation: the tracked calls and the handler queue never
  // gain an element, and whatever still reaches the Writer had passed the gate before the shutdown.
  lemma ShutdownRatchets(c: Conn, ls: seq<Label>)
    requires Reachable(c) && ShuttingDown(c.s) && CanRun(c, ls)
    ensures var d := RunFrom(c, ls);
            && ShuttingDown(d.s)
            && (forall id :: id in d.s.outgoingCalls ==> id in c.s.outgoingCalls && d.s.outgoingCalls[id] == c.s.outgoingCalls[id])
            && Suffix(d.s.handlerQueue, c.s.handlerQueue)
            && (forall i :: |c.sent| <= i < |d.sent| ==> Writes(c, d.sent[i].origin, AtWriter))
  {
    hide Inv, Apply, Enabled;
    ReachableInv(c);
    RunEvolves(c, ls);
  }

  // ---------------------------------------------------------------------------------------------
  // Outgoing calls

  // Every call is retired at most once; a call that has returned is either retired or still
  // tracked; and when the connection is done, every call ever tracked has been retired.
  lemma CallsRetiredOnce(c: Conn, k: nat)
    requires Reachable(c) && k < |c.calls|
    ensures c.calls[k].retires <= 1 && (c.calls[k].retires == 1 <==> c.calls[k].answer.Some?)
    ensures c.calls[k].pc.Returned? ==> c.calls[k].answer.Some? || (CallID(k) in c.s.outgoingCalls && c.s.outgoingCalls[CallID(k)] == k)
    ensures CallID(k) in c.s.outgoingCalls ==> c.calls[k].answer.None?
    ensures c.done && c.calls[k].registered ==> c.calls[k].retires == 1
  {
    ReachableInv(c);
    DoneHolds(c);
    hide NotesInv, ReqsInv, HostsInv, CountInv, DispatchInv, SentInv, ReceivedInv, BrokenInv, ReaderInv, DoneInv;
    assert CallOk(c.calls[k], k, c.s.outgoingCalls);
  }

  // ---------------------------------------------------------------------------------------------
  // Incoming requests

  predicate Accepted(q: Req) { !q.phase.Arrived? }

  // The incoming counter is the number of accepted requests that have not passed the end of
  // processResult; each passes it at most once, and exactly once by the time the connection is done.
  lemma IncomingConserved(c: Conn)
    requires Reachable(c)
    ensures c.s.incoming == Sum(c.reqs, InCount)
    ensures forall r :: 0 <= r < |c.reqs| ==> c.reqs[r].passes <= 1
    ensures forall r :: 0 <= r < |c.reqs| && Accepted(c.reqs[r]) ==> (InCount(c.reqs[r]) == 1 <==> c.reqs[r].passes == 0)
    ensures c.done ==> forall r :: 0 <= r < |c.reqs| ==> c.reqs[r].passes == 1
  {
    ReachableInv(c);
    DoneHolds(c);
    forall r | 0 <= r < |c.reqs|
      ensures c.reqs[r].passes <= 1 && (Accepted(c.reqs[r]) ==> (InCount(c.reqs[r]) == 1 <==> c.reqs[r].passes == 0))
      ensures c.done ==> c.reqs[r].passes == 1
    {
      ReqIsOk(c, r);
      if c.reqs[r].phase.Arrived? {
        ArrivedMeansReading(c, r);
      }
      CountAtLeast(c, r);
    }
    hide CallsInv, NotesInv, ReqsInv, HostsInv, DispatchInv, SentInv, ReceivedInv, BrokenInv, ReaderInv, DoneInv;
  }

  lemma CountAtLeast(c: Conn, r: nat)
    requires Inv(c) && r < |c.reqs|
    ensures c.s.incoming >= InCount(c.reqs[r])
  {
    SumAtLeast(c.reqs, r, InCount);
    hide CallsInv, NotesInv, ReqsInv, HostsInv, DispatchInv, SentInv, ReceivedInv, BrokenInv, ReaderInv, DoneInv;
  }

  lemma ArrivedMeansReading(c: Conn, r: nat)
    requires Inv(c) && r < |c.reqs| && c.reqs[r].phase.Arrived?
    ensures c.s.reading
  {
    ReqIsOk(c, r);
    hide CallsInv, NotesInv, ReqsInv, HostsInv, CountInv, DispatchInv, SentInv, ReceivedInv, BrokenInv, DoneInv;
  }

  lemma OwnEntry(c: Conn, r: nat)
    requires Inv(c) && r < |c.reqs| && Tracked(c.reqs[r])
    ensures c.reqs[r].id in c.s.incomingByID && c.s.incomingByID[c.reqs[r].id] == r && c.reqs[r].id == c.reqs[r].msg.id
  {
    CoreReqs(c);
    ReqIsOk(c, r);
    hide Inv;
  }

  // When processResult deletes a call's identifier, the entry it deletes is the call's own.
  lemma DeletesOwnEntry(c: Conn, r: nat)
    requires Reachable(c) && ReqAt(c, r, Resolving) && c.reqs[r].outcome.Some? && IsValid(c.reqs[r].id)
    ensures c.reqs[r].id in c.s.incomingByID && c.s.incomingByID[c.reqs[r].id] == r
    ensures c.reqs[r].id == c.reqs[r].msg.id
    ensures Process(c, r).s.incomingByID == c.s.incomingByID - {c.reqs[r].id}
  {
    ReachableInv(c);
    hide Inv, Settle;
    OwnEntry(c, r);
  }

  predicate Unhandled(e: Err) { e == ErrNotHandled || e == ErrMethodNotFound }

  predicate EndsWith(s: string, end: string) { |s| >= |end| && s[|s| - |end|..] == end }

  // The response that an outcome of a call of this method demands (section 5 of the JSON-RPC 2.0
  // Specification): an error whenever there is one, even beside a value, and an unhandled method is
  // reported by its name; the value when there is no error; an internal error when there is neither. No
  // response tells of a value that cannot be marshaled.
  predicate Tells(o: Outcome, name: string, m: Message) {
    && m.Response?
    && match o.err
       case Some(e) =>
         && m.result.None? && m.error.Some?
         && (if Unhandled(e) then IsCode(m.error.value, -32601) && EndsWith(Text(m.error.value), Quoted(name)) else m.error == Some(e))
       case None =>
         match o.produced
         case Value(j) => m.result == Some(j) && m.error.None?
         case Nothing => m.result.None? && m.error.Some? && IsCode(m.error.value, -32603)
         case Unmarshalable => false
  }

  // processResult sends a call what its outcome demands, unless it cannot be marshaled, and sends
  // anything else nothing.
  lemma SettleTells(id: ID, name: string, o: Outcome)
    ensures var reply := Settle(id, name, o).reply;
            && (reply.None? <==> !IsValid(id) || o == Outcome(Unmarshalable, None))
            && (reply.Some? ==> Tells(o, name, reply.value) && reply.value.id == id)
  {}

  // Sections 4.1 and 5 of the JSON-RPC 2.0 Specification: whatever is written on behalf of a request
  // is a response under that request's own identifier, written once, and the one that its own outcome
  // demands; notifications and duplicates are never answered.
  lemma ResponsesOwnTheirID(c: Conn, i: nat, r: nat)
    requires Reachable(c) && i < |c.sent| && c.sent[i].origin == FromReq(r)
    ensures r < |c.reqs| && IsCall(c.reqs[r].msg) && !c.reqs[r].dup
    ensures c.sent[i].msg.Response? && c.sent[i].msg.id == c.reqs[r].msg.id
    ensures c.reqs[r].outcome.Some? && Tells(c.reqs[r].outcome.value, c.reqs[r].msg.methodName, c.sent[i].msg)
    ensures forall j :: 0 <= j < |c.sent| && c.sent[j].origin == FromReq(r) ==> j == i
  {
    ReachableInv(c);
    SentByItsWriter(c, i);
    forall j | 0 <= j < |c.sent| && c.sent[j].origin == FromReq(r) ensures j == i {
      SentByItsWriter(c, j);
    }
    ReqIsOk(c, r);
    hide Inv;
    var q := c.reqs[r];
    SettleTells(q.id, NameOf(q.msg), q.outcome.value);
  }

  lemma SentByItsWriter(c: Conn, i: nat)
    requires Inv(c) && i < |c.sent|
    ensures SentOk(c.sent[i], i, c.calls, c.notes, c.reqs)
  {
    hide CallsInv, NotesInv, ReqsInv, HostsInv, CountInv, DispatchInv, ReceivedInv, BrokenInv, ReaderInv, DoneInv;
  }

  // ---------------------------------------------------------------------------------------------
  // Dispatch

  // The dispatcher runs exactly while handlerRunning is set, and a waiting request implies that it
  // does; handlers started in arrival order; only the last of them may still hold the dispatcher.
  lemma DispatchOrder(c: Conn)
    requires Reachable(c)
    ensures c.s.handlerRunning <==> !c.dispatcher.Off?
    ensures (exists r :: 0 <= r < |c.reqs| && c.reqs[r].phase.Queued?) <==> c.s.handlerQueue != []
    ensures c.s.handlerQueue != [] ==> !c.dispatcher.Off?
    ensures Increasing(c.starts) && Increasing(c.s.handlerQueue)
    ensures forall i, j :: 0 <= i < |c.starts| && 0 <= j < |c.s.handlerQueue| ==> c.starts[i] < c.s.handlerQueue[j]
    ensures forall i :: 0 <= i < |c.starts| ==> c.starts[i] < |c.reqs|
    ensures forall i :: 0 <= i < |c.starts| && !c.reqs[c.starts[i]].released ==> c.dispatcher == Awaiting(c.starts[i])
    ensures forall r :: 0 <= r < |c.reqs| ==> c.reqs[r].releases <= 1
    ensures forall r :: 0 <= r < |c.reqs| && r !in c.starts ==> c.reqs[r].releases == 0
  {
    ReachableInv(c);
    forall r | 0 <= r < |c.reqs| ensures c.reqs[r].releases <= 1 && HostOk(c.reqs[r], r, c.reader, c.dispatcher) {
      ReqIsOk(c, r);
    }
    hide CallsInv, NotesInv, ReqsInv, HostsInv, CountInv, SentInv, ReceivedInv, BrokenInv, ReaderInv, DoneInv;
    if c.s.handlerQueue != [] {
      assert c.reqs[c.s.handlerQueue[0]].phase.Queued?;
    }
  }

  // By the time the connection is done every handler that started has released the dispatcher, each
  // exactly once.
  lemma ReleasedByTheEnd(c: Conn)
    requires Reachable(c) && c.done
    ensures forall i :: 0 <= i < |c.starts| ==> c.starts[i] < |c.reqs| && c.reqs[c.starts[i]].releases == 1
    ensures c.dispatcher.Off?
  {
    DispatchOrder(c);
    ReachableInv(c);
    DoneHolds(c);
    forall i | 0 <= i < |c.starts| ensures c.reqs[c.starts[i]].releases == 1 {
      ReqIsOk(c, c.starts[i]);
    }
  }

  // A handler starts only after every earlier one has called Async or finished.
  lemma StartsAfterRelease(c: Conn)
    requires Reachable(c) && ServingAt(c, Dequeued)
    ensures forall i :: 0 <= i < |c.starts| ==> c.starts[i] < |c.reqs| && c.reqs[c.starts[i]].released && c.starts[i] < c.dispatcher.r
  {
    DispatchOrder(c);
    ReachableInv(c);
    hide CallsInv, NotesInv, ReqsInv, HostsInv, CountInv, SentInv, ReceivedInv, BrokenInv, ReaderInv, DoneInv;
  }

  // ---------------------------------------------------------------------------------------------
  // Write failure

  // Once the writer is broken, a call still waiting for the dispatcher never reaches the Handler.
  lemma NoHandlerAfterWriteErr(c: Conn)
    requires Reachable(c) && c.s.writeErr.Some? && ServingAt(c, Dequeued) && IsValid(c.reqs[c.dispatcher.r].id)
    ensures CheckContext(c).starts == c.starts
    ensures CheckContext(c).reqs[c.dispatcher.r].phase.Stale?
  {
    ReachableInv(c);
    hide CallsInv, NotesInv, ReqsInv, HostsInv, CountInv, SentInv, ReceivedInv, DispatchInv, ReaderInv, DoneInv;
  }
}
