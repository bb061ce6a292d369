// Every step of an incoming request, of the reader and of the dispatcher keeps the invariant.
module ConnectionRequests {
  import opened Wrappers
  import opened Messages
  import opened Connection
  import opened ConnectionInvariant
  import opened ConnectionSteps
  import opened Sums

  // ---------------------------------------------------------------------------------------------
  // Steps that stay on one goroutine

  lemma ReqIsOk(c: Conn, r: nat)
    requires Inv(c) && r < |c.reqs|
    ensures ReqOk(c.reqs[r]) && HostOk(c.reqs[r], r, c.reader, c.dispatcher)
    ensures !PastWrite(c.reqs[r].phase) ==> c.reqs[r].sentAt.None?
  {}

  // An outcome from user code, conforming or not.
  lemma KeepFromOutside(c: Conn, r: nat, o: Outcome)
    requires Inv(c) && (ReqAt(c, r, Preempting) || ReqAt(c, r, Handling))
    ensures Inv(SetReq(NoteBreach(c, c.reqs[r].id, o), r, FromOutside(c.reqs[r], o)))
  {
    hide Inv;
    ReqIsOk(c, r);
    KeepBreaches(c, NoteBreach(c, c.reqs[r].id, o).breaches);
    KeepLocal(NoteBreach(c, c.reqs[r].id, o), r, FromOutside(c.reqs[r], o));
  }

  lemma KeepPreempt(c: Conn, decision: Option<Outcome>)
    requires Inv(c) && AcceptingAt(c, Preempting)
    ensures Inv(Preempt(c, decision))
  {
    hide Inv;
    var r := c.reader.r;
    ReqIsOk(c, r);
    if decision.Some? {
      KeepFromOutside(c, r, decision.value);
    } else {
      KeepLocal(c, r, c.reqs[r].(phase := Enqueueing));
    }
  }

  lemma KeepStaleResult(c: Conn)
    requires Inv(c) && ServingAt(c, Stale)
    ensures Inv(StaleResult(c))
  {
    hide Core;
    var r := c.dispatcher.r;
    ReqIsOk(c, r);
    var err := if c.s.writeErr.Some? then WrapErr(ErrServerClosing, c.s.writeErr.value) else Canceled;
    var q := Resolve(c.reqs[r], Nothing, Some(err));
    KeepLocal(c, r, q);
    EpilogueKeepsPending(c, SetReq(c, r, q));
  }

  lemma KeepBreaches(c: Conn, breaches: nat)
    requires Inv(c) && breaches >= c.breaches
    ensures Inv(c.(breaches := breaches))
  {
    hide CallsInv, NotesInv, ReqsInv, HostsInv, CountInv, ReaderInv, DispatchInv, BrokenInv, SentInv, ReceivedInv, DoneInv;
  }

  lemma KeepAsync(c: Conn, r: nat)
    requires Inv(c) && r < |c.reqs| && c.reqs[r].host.OnHandler?
    ensures Inv(Async(c, r))
  {
    hide Inv;
    if c.reqs[r].released {
      KeepBreaches(c, c.breaches + 1);
    } else {
      ReqIsOk(c, r);
      KeepLocal(c, r, ReleaseChannel(c.reqs[r]));
    }
  }

  lemma KeepHandleReturn(c: Conn, r: nat, o: Outcome)
    requires Inv(c) && ReqAt(c, r, Handling)
    ensures Inv(HandleReturn(c, r, o))
  {
    hide Inv;
    KeepFromOutside(c, r, o);
  }

  // The set of requests about to be cancelled may shrink, and grow by known requests.
  lemma KeepCancels(c: Conn, cancels: set<nat>)
    requires Inv(c) && forall r :: r in cancels ==> r < |c.reqs|
    ensures Inv(c.(cancels := cancels))
  {
    hide CallsInv, NotesInv, ReqsInv, HostsInv, CountInv, ReaderInv, DispatchInv, BrokenInv, SentInv, ReceivedInv, DoneInv;
  }

  lemma KnownCancels(c: Conn)
    requires Inv(c)
    ensures forall r :: r in c.cancels ==> r < |c.reqs|
  {
    hide CallsInv, NotesInv, ReqsInv, HostsInv, CountInv, ReaderInv, DispatchInv, BrokenInv, SentInv, ReceivedInv, DoneInv;
  }

  lemma KeepCancelFire(c: Conn, r: nat)
    requires Inv(c) && r in c.cancels && r < |c.reqs|
    ensures Inv(CancelFire(c, r))
  {
    hide Inv;
    ReqIsOk(c, r);
    KnownCancels(c);
    KeepLocal(c, r, c.reqs[r].(cancelled := true));
    KeepCancels(SetReq(c, r, c.reqs[r].(cancelled := true)), c.cancels - {r});
  }

  lemma KeepCancelLookup(c: Conn, id: ID)
    requires Inv(c)
    ensures Inv(CancelLookup(c, id))
  {
    hide Core, DoneInv;
    TracksRequests(c, id);
    KnownCancels(c);
    var c1 := if id in c.s.incomingByID then c.(cancels := c.cancels + {c.s.incomingByID[id]}) else c;
    KeepCancels(c, c1.cancels);
    EpilogueKeepsPending(c, c1);
  }

  lemma TracksRequests(c: Conn, id: ID)
    requires Inv(c)
    ensures id in c.s.incomingByID ==> c.s.incomingByID[id] < |c.reqs| && Tracked(c.reqs[c.s.incomingByID[id]])
    ensures id in c.s.incomingByID ==> c.reqs[c.s.incomingByID[id]].id == id
  {}

  lemma KeepClose(c: Conn)
    requires Inv(c)
    ensures Inv(Close(c))
  {
    hide CallsInv, NotesInv, ReqsInv, HostsInv, CountInv, DispatchInv, BrokenInv, SentInv, ReceivedInv;
    EpilogueInv(c.(s := c.s.(connClosing := true)));
  }

  // ---------------------------------------------------------------------------------------------
  // The reader

  lemma KeepDeliver(c: Conn)
    requires Inv(c) && c.reader.Delivering? && c.reader.at < |c.received| && TracksKnown(c)
    ensures Inv(Deliver(c))
  {
    hide NotesInv, ReqsInv, CountInv, DispatchInv, BrokenInv, SentInv, ReceivedInv;
    var msg := c.received[c.reader.at];
    if msg.id in c.s.outgoingCalls {
      var k := c.s.outgoingCalls[msg.id];
      var c1 := Retire(c.(reader := ReadLoop, s := c.s.(outgoingCalls := c.s.outgoingCalls - {msg.id})), k,
                       Answer(msg, Some(c.reader.at)));
      SentCallReturned(c, k);
      KeepCallHistories(c, k, c1.calls[k]);
      assert CallOk(c.calls[k], k, c.s.outgoingCalls);
      assert CallsInv(c1.calls, c1.s.outgoingCalls) by { hide HostsInv, ReaderInv, DoneInv; }
      EpilogueInv(c1);
    } else {
      EpilogueKeepsPending(c, c.(reader := ReadLoop));
    }
  }

  lemma KeepReaderExit(c: Conn)
    requires Inv(c) && c.reader.ReadFailed?
    ensures Inv(ReaderExit(c))
  {
    hide NotesInv, ReqsInv, CountInv, DispatchInv, BrokenInv, SentInv, ReceivedInv;
    var tracked := c.s.outgoingCalls.Values;
    var calls := RetireAll(c.calls, tracked, c.reader.err);
    RetireAllCalls(c.calls, c.s.outgoingCalls, c.reader.err);
    RetireAllHistories(c, tracked, c.reader.err);
    EpilogueInv(c.(s := c.s.(reading := false, readErr := Some(c.reader.err), outgoingCalls := map[]),
                   calls := calls, reader := Exited));
  }

  lemma RetireAllCalls(calls: seq<Call>, oc: map<ID, nat>, err: Err)
    requires CallsInv(calls, oc)
    ensures CallsInv(RetireAll(calls, oc.Values, err), map[])
    ensures !AnyAnswered(calls, oc.Values)
  {
    forall k | 0 <= k < |calls|
      ensures CallOk(RetireAll(calls, oc.Values, err)[k], k, map[])
      ensures !(k in oc.Values && calls[k].answer.Some?)
    {
      assert CallOk(calls[k], k, oc);
      if CallID(k) in oc {
        assert oc[CallID(k)] == k;
      }
    }
  }

  lemma RetireAllHistories(c: Conn, which: set<nat>, err: Err)
    requires SentInv(c.sent, c.calls, c.notes, c.reqs) && ReceivedInv(c.received, c.calls, c.reqs)
    ensures var calls := RetireAll(c.calls, which, err);
            SentInv(c.sent, calls, c.notes, c.reqs) && ReceivedInv(c.received, calls, c.reqs)
  {
    var calls := RetireAll(c.calls, which, err);
    assert forall k :: 0 <= k < |calls| ==> OnlyAnswered(c.calls[k], calls[k]);
    hide RetireAll;
    SentAnswered(c.sent, c.calls, calls, c.notes, c.reqs);
    ReceivedAnswered(c.received, c.calls, calls, c.reqs);
  }

  // At most a local answer was added.
  predicate OnlyAnswered(p: Call, q: Call) {
    q == p.(answer := q.answer, retires := q.retires) && (q.answer == p.answer || (q.answer.Some? && q.answer.value.at.None?))
  }

  lemma SentAnswered(sent: seq<Sent>, calls: seq<Call>, after: seq<Call>, notes: seq<Note>, reqs: seq<Req>)
    requires SentInv(sent, calls, notes, reqs) && |after| == |calls|
    requires forall k :: 0 <= k < |calls| ==> OnlyAnswered(calls[k], after[k])
    ensures SentInv(sent, after, notes, reqs)
  {
    forall i | 0 <= i < |sent| ensures SentOk(sent[i], i, after, notes, reqs) {
      assert SentOk(sent[i], i, calls, notes, reqs);
    }
    hide SentOk;
  }

  lemma ReceivedAnswered(received: seq<Message>, calls: seq<Call>, after: seq<Call>, reqs: seq<Req>)
    requires ReceivedInv(received, calls, reqs) && |after| == |calls|
    requires forall k :: 0 <= k < |calls| ==> OnlyAnswered(calls[k], after[k])
    ensures ReceivedInv(received, after, reqs)
  {
    hide EarlierSameID;
  }

  // While the reader accepts a request, the connection cannot be done.
  lemma AcceptingBusy(c: Conn)
    requires Inv(c) && Active(c.reader)
    ensures !c.done && c.s.reading
    ensures c.reader.Accepting? ==> c.reader.r + 1 == |c.reqs|
  {
    hide CallsInv, NotesInv, ReqsInv, HostsInv, CountInv, DispatchInv, BrokenInv, SentInv, ReceivedInv;
  }

  // A request that stays on the reader while it is counted, tracked or resolved.
  lemma KeepAcceptCore(c: Conn, q: Req, byID: map<ID, nat>)
    requires Inv(c) && AcceptingAt(c, Arrived) && ReqOk(q)
    requires q.host.OnReader? && (q.phase.Preempting? || q.phase.Resolving?)
    requires q.msg == c.reqs[c.reader.r].msg && q.at == c.reqs[c.reader.r].at && q.sentAt.None?
    requires q.breach == c.reqs[c.reader.r].breach
    requires q.dup ==> EarlierSameID(c.reqs, c.reader.r)
    requires ReqsInv(c.reqs[c.reader.r := q], byID)
    ensures var c1 := SetReq(c, c.reader.r, q).(s := c.s.(incoming := c.s.incoming + 1, incomingByID := byID));
            Core(c1) && Inv(Epilogue(c1))
  {
    hide CallsInv, NotesInv, ReqsInv, CountInv, DispatchInv, SentInv, ReceivedInv, ReqOk;
    var r := c.reader.r;
    ReqIsOk(c, r);
    assert c.reqs[r].phase.Arrived? && c.reqs[r].host.OnReader? && c.reqs[r].sentAt.None? by { HostOfArrived(c, r); }
    KeepReqHistories(c, r, q);
    KeepDispatch(c, r, q);
    KeepCount(c.reqs, c.s.incoming, r, q);
    AcceptingBusy(c);
    EpilogueInv(SetReq(c, r, q).(s := c.s.(incoming := c.s.incoming + 1, incomingByID := byID)));
  }

  lemma HostOfArrived(c: Conn, r: nat)
    requires Inv(c) && ReqAt(c, r, Arrived)
    ensures c.reqs[r].host.OnReader? && c.reqs[r].sentAt.None? && !c.reqs[r].dup
  {
    ReqIsOk(c, r);
  }

  // An identifier in use belongs to an earlier request that is still being processed.
  lemma InUseIsEarlier(c: Conn)
    requires Inv(c) && AcceptingAt(c, Arrived)
    requires IsValid(c.reqs[c.reader.r].id) && c.reqs[c.reader.r].id in c.s.incomingByID
    ensures EarlierSameID(c.reqs, c.reader.r)
    ensures c.reqs[c.reader.r].id == c.reqs[c.reader.r].msg.id
  {
    hide Inv;
    var r := c.reader.r;
    var r' := c.s.incomingByID[c.reqs[r].id];
    TracksRequests(c, c.reqs[r].id);
    ReqIsOk(c, r);
    ReqIsOk(c, r');
    AcceptingBusy(c);
    assert c.reqs[r'].msg.id == c.reqs[r].msg.id;
  }

  lemma UntrackedReqs(reqs: seq<Req>, byID: map<ID, nat>, r: nat, q: Req)
    requires ReqsInv(reqs, byID) && r < |reqs| && !Tracked(reqs[r]) && !Tracked(q) && ReqOk(q)
    ensures ReqsInv(reqs[r := q], byID)
  {
    hide ReqOk;
  }

  lemma TrackReqs(reqs: seq<Req>, byID: map<ID, nat>, r: nat, q: Req)
    requires ReqsInv(reqs, byID) && r < |reqs| && !Tracked(reqs[r]) && Tracked(q) && ReqOk(q) && q.id !in byID
    ensures ReqsInv(reqs[r := q], byID[q.id := r])
  {
    hide ReqOk;
  }

  lemma UntrackReqs(reqs: seq<Req>, byID: map<ID, nat>, r: nat, q: Req)
    requires ReqsInv(reqs, byID) && r < |reqs| && Tracked(reqs[r]) && !Tracked(q) && ReqOk(q)
    ensures ReqsInv(reqs[r := q], byID - {reqs[r].id})
  {
    hide ReqOk;
  }

  lemma KeepAcceptNotification(c: Conn)
    requires Inv(c) && AcceptingAt(c, Arrived) && !IsValid(c.reqs[c.reader.r].id)
    ensures Inv(Accept(c))
  {
    hide Core, DoneInv, Epilogue;
    var r := c.reader.r;
    var q := c.reqs[r].(phase := Preempting);
    ReqIsOk(c, r);
    HostOfArrived(c, r);
    CoreReqs(c);
    UntrackedReqs(c.reqs, c.s.incomingByID, r, q);
    KeepAcceptCore(c, q, c.s.incomingByID);
    assert Accept(c) == Epilogue(SetReq(c, r, q).(s := c.s.(incoming := c.s.incoming + 1)));
  }

  lemma KeepAcceptDuplicate(c: Conn)
    requires Inv(c) && AcceptingAt(c, Arrived)
    requires IsValid(c.reqs[c.reader.r].id) && c.reqs[c.reader.r].id in c.s.incomingByID
    ensures Inv(Accept(c))
  {
    hide Core, DoneInv, Epilogue;
    var r := c.reader.r;
    ReqIsOk(c, r);
    HostOfArrived(c, r);
    CoreReqs(c);
    InUseIsEarlier(c);
    var q := Resolve(c.reqs[r].(id := NoID, dup := true), Nothing, Some(InUse));
    UntrackedReqs(c.reqs, c.s.incomingByID, r, q);
    KeepAcceptCore(c, q, c.s.incomingByID);
    assert Accept(c) == Epilogue(SetReq(c, r, q).(s := c.s.(incoming := c.s.incoming + 1)));
  }

  // The first critical section of acceptRequest on a call whose identifier is free.
  function TrackedCall(c: Conn, q: Req): Conn
    requires c.reader.Accepting? && c.reader.r < |c.reqs|
  {
    SetReq(c, c.reader.r, q).(s := c.s.(incoming := c.s.incoming + 1, incomingByID := c.s.incomingByID[q.id := c.reader.r]))
  }

  lemma KeepTrackedCall(c: Conn, q: Req)
    requires Inv(c) && AcceptingAt(c, Arrived)
    requires IsValid(c.reqs[c.reader.r].id) && c.reqs[c.reader.r].id !in c.s.incomingByID
    requires q == c.reqs[c.reader.r].(phase := q.phase, outcome := q.outcome)
    requires (q.phase.Preempting? && q.outcome.None?) || (q.phase.Resolving? && q.outcome.Some? && Conforms(q.id, q.outcome.value))
    ensures Inv(Epilogue(TrackedCall(c, q)))
  {
    hide Core, DoneInv, Epilogue;
    var r := c.reader.r;
    ReqIsOk(c, r);
    HostOfArrived(c, r);
    CoreReqs(c);
    TrackReqs(c.reqs, c.s.incomingByID, r, q);
    KeepAcceptCore(c, q, c.s.incomingByID[q.id := r]);
  }

  lemma KeepAcceptCall(c: Conn)
    requires Inv(c) && AcceptingAt(c, Arrived)
    requires IsValid(c.reqs[c.reader.r].id) && c.reqs[c.reader.r].id !in c.s.incomingByID
    ensures Inv(Accept(c))
  {
    hide Inv, Epilogue;
    ReqIsOk(c, c.reader.r);
    var e := ShutdownErr(c.s, ErrServerClosing);
    KeepTrackedCall(c, if e.Some? then Resolve(c.reqs[c.reader.r], Nothing, Some(e.value))
                       else c.reqs[c.reader.r].(phase := Preempting));
  }

  lemma KeepAccept(c: Conn)
    requires Inv(c) && AcceptingAt(c, Arrived)
    ensures Inv(Accept(c))
  {
    hide Inv, Accept;
    if !IsValid(c.reqs[c.reader.r].id) {
      KeepAcceptNotification(c);
    } else if c.reqs[c.reader.r].id in c.s.incomingByID {
      KeepAcceptDuplicate(c);
    } else {
      KeepAcceptCall(c);
    }
  }

  lemma CoreReqs(c: Conn)
    requires Inv(c)
    ensures ReqsInv(c.reqs, c.s.incomingByID)
  {}

  // ---------------------------------------------------------------------------------------------
  // The queue, the dispatcher and the handlers

  lemma KeepEnqueueRefused(c: Conn)
    requires Inv(c) && AcceptingAt(c, Enqueueing) && ShuttingDown(c.s)
    ensures Inv(Enqueue(c))
  {
    hide Core, DoneInv, Epilogue;
    var r := c.reader.r;
    ReqIsOk(c, r);
    var q := Resolve(c.reqs[r], Nothing, Some(ShutdownErr(c.s, ErrServerClosing).value));
    KeepLocal(c, r, q);
    EpilogueKeepsPending(c, SetReq(c, r, q));
  }

  lemma EnqueueDispatch(c: Conn, q: Req)
    requires DispatchInv(c.reqs, c.s.handlerQueue, c.s.handlerRunning, c.dispatcher, c.starts)
    requires c.reader.Accepting? && c.reader.r + 1 == |c.reqs|
    requires c.reqs[c.reader.r].host.OnReader? && !c.reqs[c.reader.r].phase.Queued?
    requires c.dispatcher != Serving(c.reader.r)
    requires q.phase.Queued? && !q.host.OnHandler?
    ensures DispatchInv(c.reqs[c.reader.r := q], c.s.handlerQueue + [c.reader.r], true,
                        if c.s.handlerRunning then c.dispatcher else Looping, c.starts)
  {}

  lemma EnqueueHosts(c: Conn, q: Req)
    requires HostsInv(c.reqs, c.reader, c.dispatcher) && c.reader.Accepting? && c.reader.r < |c.reqs|
    requires c.s.handlerRunning <==> !c.dispatcher.Off?
    requires q.host.InQueue? && c.reqs[c.reader.r].host.OnReader?
    ensures HostsInv(c.reqs[c.reader.r := q], ReadLoop, if c.s.handlerRunning then c.dispatcher else Looping)
  {}

  lemma KeepEnqueue(c: Conn)
    requires Inv(c) && AcceptingAt(c, Enqueueing)
    ensures Inv(Enqueue(c))
  {
    hide CallsInv, NotesInv, ReqsInv, HostsInv, CountInv, DispatchInv, SentInv, ReceivedInv, DoneInv, ReqOk;
    if ShuttingDown(c.s) {
      KeepEnqueueRefused(c);
    } else {
      var r := c.reader.r;
      var q := c.reqs[r].(phase := Queued, host := InQueue);
      EnqueueingFacts(c);
      KeepReqHistories(c, r, q);
      KeepReqsLocalHost(c.reqs, c.s.incomingByID, r, q);
      KeepCount(c.reqs, c.s.incoming, r, q);
      EnqueueDispatch(c, q);
      EnqueueHosts(c, q);
      var c1 := SetReq(c, r, q).(s := c.s.(handlerQueue := c.s.handlerQueue + [r], handlerRunning := true),
                                 dispatcher := if c.s.handlerRunning then c.dispatcher else Looping,
                                 reader := ReadLoop);
      assert Core(c1);
      SomeBusyPending(c, c1);
      EpilogueInv(c1);
    }
  }

  lemma EnqueueingFacts(c: Conn)
    requires Inv(c) && AcceptingAt(c, Enqueueing)
    ensures var r := c.reader.r;
            && r + 1 == |c.reqs| && c.reqs[r].host.OnReader? && c.dispatcher != Serving(r) && !c.done
            && c.reqs[r].sentAt.None? && ReqOk(c.reqs[r].(phase := Queued, host := InQueue))
            && (c.s.handlerRunning <==> !c.dispatcher.Off?)
  {
    ReqIsOk(c, c.reader.r);
    AcceptingBusy(c);
    hide CallsInv, NotesInv, ReqsInv, HostsInv, CountInv, SentInv, ReceivedInv, DoneInv, BrokenInv, ReaderInv;
  }

  // Moving between goroutines does not disturb the identifier map.
  lemma KeepReqsLocalHost(reqs: seq<Req>, byID: map<ID, nat>, r: nat, q: Req)
    requires ReqsInv(reqs, byID) && r < |reqs| && ReqOk(q)
    requires q.id == reqs[r].id && Tracked(q) == Tracked(reqs[r])
    ensures ReqsInv(reqs[r := q], byID)
  {
    hide ReqOk;
  }

  lemma DispatchFacts(c: Conn)
    requires Inv(c)
    ensures c.s.handlerRunning <==> !c.dispatcher.Off?
    ensures !c.dispatcher.Off? ==> !c.done
    ensures c.dispatcher.Off? ==> c.s.handlerQueue == []
    ensures c.dispatcher.Serving? || c.dispatcher.Awaiting? ==> c.dispatcher.r < |c.reqs|
    ensures c.s.handlerQueue != [] ==> c.s.handlerQueue[0] < |c.reqs| && c.reqs[c.s.handlerQueue[0]].phase.Queued?
    ensures c.s.handlerQueue == [] ==> forall r :: 0 <= r < |c.reqs| ==> !c.reqs[r].phase.Queued?
  {
    hide CallsInv, NotesInv, ReqsInv, HostsInv, CountInv, SentInv, ReceivedInv, BrokenInv, ReaderInv;
  }

  lemma DequeueDispatch(c: Conn, q: Req)
    requires DispatchInv(c.reqs, c.s.handlerQueue, c.s.handlerRunning, c.dispatcher, c.starts)
    requires c.s.handlerQueue != [] && c.dispatcher.Looping?
    requires !q.phase.Queued? && !q.host.OnHandler? && !c.reqs[c.s.handlerQueue[0]].host.OnHandler?
    ensures var r := c.s.handlerQueue[0];
            DispatchInv(c.reqs[r := q], c.s.handlerQueue[1..], true, Serving(r), c.starts)
  {
    var r := c.s.handlerQueue[0];
    var queue := c.s.handlerQueue[1..];
    var reqs := c.reqs[r := q];
    forall r1 | 0 <= r1 < |reqs| && reqs[r1].phase.Queued? ensures r1 in queue {
      assert r1 in c.s.handlerQueue;
    }
    forall i | 0 <= i < |queue| ensures queue[i] < |reqs| && reqs[queue[i]].phase.Queued? && r < queue[i] {
      assert queue[i] == c.s.handlerQueue[i + 1];
    }
  }

  lemma DequeueHosts(c: Conn, r: nat, q: Req)
    requires HostsInv(c.reqs, c.reader, c.dispatcher) && c.dispatcher.Looping? && r < |c.reqs|
    requires c.reqs[r].host.InQueue? && q.host.OnDispatcher? && !q.phase.Gone? && !q.released
    ensures HostsInv(c.reqs[r := q], c.reader, Serving(r))
  {}

  lemma KeepDequeue(c: Conn)
    requires Inv(c) && c.dispatcher.Looping? && (c.s.handlerQueue != [] ==> c.s.handlerQueue[0] < |c.reqs|)
    ensures Inv(Dequeue(c))
  {
    hide CallsInv, NotesInv, ReqsInv, HostsInv, CountInv, DispatchInv, SentInv, ReceivedInv, DoneInv, ReqOk;
    DispatchFacts(c);
    if c.s.handlerQueue != [] {
      var r := c.s.handlerQueue[0];
      var q := c.reqs[r].(phase := Dequeued, host := OnDispatcher);
      QueuedFacts(c, r);
      KeepReqHistories(c, r, q);
      KeepReqsLocalHost(c.reqs, c.s.incomingByID, r, q);
      KeepCount(c.reqs, c.s.incoming, r, q);
      DequeueDispatch(c, q);
      DequeueHosts(c, r, q);
      var c1 := SetReq(c, r, q).(s := c.s.(handlerQueue := c.s.handlerQueue[1..]), dispatcher := Serving(r));
      assert Core(c1);
      SomeBusyPending(c, c1);
      EpilogueInv(c1);
    } else {
      var c1 := c.(s := c.s.(handlerRunning := false), dispatcher := Off);
      StopDispatch(c);
      SomeBusyPending(c, c1);
      EpilogueInv(c1);
    }
  }

  lemma QueuedFacts(c: Conn, r: nat)
    requires Inv(c) && ReqAt(c, r, Queued)
    ensures c.reqs[r].host.InQueue? && c.reqs[r].sentAt.None? && !c.reqs[r].released
    ensures ReqOk(c.reqs[r].(phase := Dequeued, host := OnDispatcher))
  {
    ReqIsOk(c, r);
  }

  lemma StopDispatch(c: Conn)
    requires Inv(c) && c.dispatcher.Looping? && c.s.handlerQueue == []
    ensures DispatchInv(c.reqs, c.s.handlerQueue, false, Off, c.starts) && HostsInv(c.reqs, c.reader, Off)
  {
    hide CallsInv, NotesInv, ReqsInv, CountInv, SentInv, ReceivedInv, DoneInv, BrokenInv, ReaderInv;
  }

  lemma KeepResume(c: Conn)
    requires Inv(c) && c.dispatcher.Awaiting? && c.dispatcher.r < |c.reqs| && c.reqs[c.dispatcher.r].released
    ensures Inv(c.(dispatcher := Looping))
  {
    hide CallsInv, NotesInv, ReqsInv, CountInv, SentInv, ReceivedInv, DoneInv, BrokenInv, ReaderInv;
  }

  lemma HandleDispatch(c: Conn, q: Req)
    requires DispatchInv(c.reqs, c.s.handlerQueue, c.s.handlerRunning, c.dispatcher, c.starts)
    requires c.dispatcher.Serving? && !c.reqs[c.dispatcher.r].phase.Queued? && !q.phase.Queued? && q.host.OnHandler?
    ensures var r := c.dispatcher.r;
            DispatchInv(c.reqs[r := q], c.s.handlerQueue, c.s.handlerRunning, Awaiting(r), c.starts + [r])
  {
    var r := c.dispatcher.r;
    var starts := c.starts + [r];
    assert starts[|c.starts|] == r;
    forall r1 | 0 <= r1 < |c.reqs| && c.reqs[r := q][r1].host.OnHandler? ensures r1 in starts {
      assert r1 != r ==> r1 in c.starts;
    }
  }

  lemma HandleHosts(c: Conn, q: Req)
    requires HostsInv(c.reqs, c.reader, c.dispatcher) && c.dispatcher.Serving? && c.dispatcher.r < |c.reqs|
    requires c.reqs[c.dispatcher.r].host.OnDispatcher? && q.host.OnHandler?
    ensures HostsInv(c.reqs[c.dispatcher.r := q], c.reader, Awaiting(c.dispatcher.r))
  {}

  lemma KeepCheckContext(c: Conn)
    requires Inv(c) && ServingAt(c, Dequeued)
    ensures Inv(CheckContext(c))
  {
    hide CallsInv, NotesInv, ReqsInv, HostsInv, CountInv, DispatchInv, SentInv, ReceivedInv, DoneInv, ReqOk;
    var r := c.dispatcher.r;
    DequeuedFacts(c, r);
    if c.reqs[r].cancelled {
      KeepLocal(c, r, c.reqs[r].(phase := Stale));
    } else {
      var q := c.reqs[r].(phase := Handling, host := OnHandler);
      KeepReqHistories(c, r, q);
      KeepReqsLocalHost(c.reqs, c.s.incomingByID, r, q);
      KeepCount(c.reqs, c.s.incoming, r, q);
      HandleDispatch(c, q);
      HandleHosts(c, q);
    }
  }

  lemma DequeuedFacts(c: Conn, r: nat)
    requires Inv(c) && ReqAt(c, r, Dequeued)
    ensures c.reqs[r].host.OnDispatcher? && c.reqs[r].sentAt.None? && !c.reqs[r].released
    ensures ReqOk(c.reqs[r].(phase := Handling, host := OnHandler)) && ReqOk(c.reqs[r].(phase := Stale))
  {
    ReqIsOk(c, r);
  }

  // ---------------------------------------------------------------------------------------------
  // processResult

  lemma KeepProcess(c: Conn, r: nat)
    requires Inv(c) && ReqAt(c, r, Resolving) && c.reqs[r].outcome.Some?
    ensures Inv(Process(c, r))
  {
    hide Inv, Epilogue, ReqOk, HostOk, Settle, Conforms;
    ReqIsOk(c, r);
    var q := c.reqs[r];
    SettledFacts(q);
    var st := Settle(q.id, NameOf(q.msg), q.outcome.value);
    ComplaintsExact(q.id, NameOf(q.msg), q.outcome.value);
    if q.breach {
      BreachesKnown(c, r);
    }
    KeepComplaints(c, c.complaints + st.complaints);
    var c1 := c.(complaints := c.complaints + st.complaints);
    if IsValid(q.id) {
      KeepAnswer(c1, r, q.(reply := st.reply, phase := if st.reply.Some? then Answering(AtGate) else Closing));
    } else {
      KeepUnanswered(c1, r);
    }
  }

  // What is never answered leaves no trace but its phase.
  lemma KeepUnanswered(c: Conn, r: nat)
    requires Inv(c) && ReqAt(c, r, Resolving) && ReqOk(c.reqs[r].(phase := Closing)) && !IsValid(c.reqs[r].id)
    ensures Inv(SetReq(c, r, c.reqs[r].(phase := Closing)))
  {
    hide Inv, ReqOk;
    KeepLocal(c, r, c.reqs[r].(phase := Closing));
  }

  lemma SettledFacts(q: Req)
    requires ReqOk(q) && q.phase.Resolving?
    ensures !IsValid(q.id) ==> ReqOk(q.(phase := Closing))
    ensures IsValid(q.id) ==>
              var reply := Settle(q.id, NameOf(q.msg), q.outcome.value).reply;
              ReqOk(q.(reply := reply, phase := if reply.Some? then Answering(AtGate) else Closing))
    ensures q.breach || Conforms(q.id, q.outcome.value)
  {}

  // internalErrorf is called exactly when the outcome breaches the contract.
  lemma ComplaintsExact(id: ID, name: string, o: Outcome)
    ensures Settle(id, name, o).complaints == 0 <==> Conforms(id, o)
  {}

  lemma KeepComplaints(c: Conn, complaints: nat)
    requires Inv(c) && (complaints == c.complaints || c.breaches > 0)
    ensures Inv(c.(complaints := complaints))
  {
    hide CallsInv, NotesInv, ReqsInv, HostsInv, CountInv, ReaderInv, DispatchInv, BrokenInv, SentInv, ReceivedInv, DoneInv;
  }

  lemma BreachesKnown(c: Conn, r: nat)
    requires Inv(c) && r < |c.reqs| && c.reqs[r].breach
    ensures c.breaches > 0
  {
    hide CallsInv, NotesInv, ReqsInv, HostsInv, CountInv, ReaderInv, DispatchInv, BrokenInv, SentInv, ReceivedInv, DoneInv;
  }

  // The request leaves the identifier map before its response is written.
  lemma KeepAnswer(c: Conn, r: nat, q: Req)
    requires Inv(c) && ReqAt(c, r, Resolving) && IsValid(c.reqs[r].id) && ReqOk(q)
    requires q.phase.Answering? || q.phase.Closing?
    requires q == c.reqs[r].(phase := q.phase, reply := q.reply)
    ensures Inv(Epilogue(SetReq(c, r, q).(s := c.s.(incomingByID := c.s.incomingByID - {c.reqs[r].id}))))
  {
    hide CallsInv, NotesInv, ReqsInv, CountInv, DispatchInv, SentInv, ReceivedInv, ReqOk;
    ReqIsOk(c, r);
    KeepReqHistories(c, r, q);
    KeepDispatch(c, r, q);
    CoreReqs(c);
    UntrackReqs(c.reqs, c.s.incomingByID, r, q);
    KeepCount(c.reqs, c.s.incoming, r, q);
    EpilogueInv(SetReq(c, r, q).(s := c.s.(incomingByID := c.s.incomingByID - {c.reqs[r].id})));
  }

  function AfterFinish(q: Req): Req {
    q.(cancelled := true, passes := q.passes + 1, phase := if q.host == OnHandler then Releasing else Gone)
  }

  lemma FinishHosts(c: Conn, r: nat)
    requires HostsInv(c.reqs, c.reader, c.dispatcher) && r < |c.reqs| && !c.reqs[r].phase.Gone? && !c.reqs[r].host.InQueue?
    ensures HostsInv(c.reqs[r := AfterFinish(c.reqs[r])],
                     if c.reqs[r].host == OnReader then ReadLoop else c.reader,
                     if c.reqs[r].host == OnDispatcher then Looping else c.dispatcher)
  {}

  lemma FinishDispatch(c: Conn, r: nat)
    requires DispatchInv(c.reqs, c.s.handlerQueue, c.s.handlerRunning, c.dispatcher, c.starts)
    requires ReqAt(c, r, Closing) && (c.reqs[r].host == OnDispatcher ==> c.dispatcher == Serving(r))
    ensures DispatchInv(c.reqs[r := AfterFinish(c.reqs[r])], c.s.handlerQueue, c.s.handlerRunning,
                        if c.reqs[r].host == OnDispatcher then Looping else c.dispatcher, c.starts)
  {}

  lemma FinishFacts(c: Conn, r: nat)
    requires Inv(c) && ReqAt(c, r, Closing)
    ensures !c.reqs[r].host.InQueue? && ReqOk(AfterFinish(c.reqs[r])) && c.s.incoming > 0 && !c.done
    ensures c.reqs[r].host == OnDispatcher ==> c.dispatcher == Serving(r)
    ensures c.reqs[r].host == OnReader ==> c.reader == Accepting(r)
  {
    ReqIsOk(c, r);
    KeepCount(c.reqs, c.s.incoming, r, c.reqs[r]);
    hide CallsInv, NotesInv, ReqsInv, HostsInv, CountInv, ReaderInv, DispatchInv, BrokenInv, SentInv, ReceivedInv;
  }

  lemma KeepFinish(c: Conn, r: nat)
    requires Inv(c) && ReqAt(c, r, Closing)
    ensures Inv(Finish(c, r))
  {
    hide CallsInv, NotesInv, ReqsInv, HostsInv, CountInv, DispatchInv, SentInv, ReceivedInv, DoneInv, ReqOk;
    var q := AfterFinish(c.reqs[r]);
    FinishFacts(c, r);
    KeepReqHistories(c, r, q);
    KeepReqsLocalHost(c.reqs, c.s.incomingByID, r, q);
    KeepCount(c.reqs, c.s.incoming, r, q);
    FinishHosts(c, r);
    FinishDispatch(c, r);
    var c1 := SetReq(c, r, q).(s := c.s.(incoming := c.s.incoming - 1),
                               reader := if c.reqs[r].host == OnReader then ReadLoop else c.reader,
                               dispatcher := if c.reqs[r].host == OnDispatcher then Looping else c.dispatcher);
    assert Core(c1);
    SomeBusyPending(c, c1);
    EpilogueInv(c1);
  }

  lemma KeepRelease(c: Conn, r: nat)
    requires Inv(c) && ReqAt(c, r, Releasing)
    ensures Inv(Release(c, r))
  {
    hide CallsInv, NotesInv, ReqsInv, CountInv, DispatchInv, SentInv, ReceivedInv, DoneInv, ReqOk, ReaderInv;
    var q := ReleaseChannel(c.reqs[r]).(phase := Gone);
    ReleasingFacts(c, r);
    KeepReqHistories(c, r, q);
    KeepReqsLocalHost(c.reqs, c.s.incomingByID, r, q);
    KeepCount(c.reqs, c.s.incoming, r, q);
    KeepDispatch(c, r, q);
    ReleaseReader(c, r, q);
  }

  lemma ReleaseReader(c: Conn, r: nat, q: Req)
    requires r < |c.reqs| && ReaderInv(c.reader, c.s, c.reqs, c.received)
    ensures ReaderInv(c.reader, c.s, c.reqs[r := q], c.received)
  {}

  lemma ReleasingFacts(c: Conn, r: nat)
    requires Inv(c) && ReqAt(c, r, Releasing)
    ensures c.reqs[r].host.OnHandler? && ReqOk(ReleaseChannel(c.reqs[r]).(phase := Gone))
  {
    ReqIsOk(c, r);
  }
}
