// The critical sections of a connection as they are written: fields updated in place under the state
// mutex, maps and queues reassigned, loops over the tracked calls. Every method is one critical
// section; it leaves exactly the state of the corresponding step, and so keeps the invariant.
module Engine {
  import opened Wrappers
  import opened Messages
  import opened Connection
  import opened ConnectionInvariant
  import opened ConnectionSteps
  import opened ConnectionRequests
  import opened ConnectionWrites

  lemma TracksCalls(c: Conn)
    requires Inv(c)
    ensures CallsInv(c.calls, c.s.outgoingCalls)
  {}

  // The calls tracked under an identifier that is no longer left.
  function Visited(oc: map<ID, nat>, left: set<ID>): set<nat> { set i | i in oc && i !in left :: oc[i] }

  lemma VisitedEnds(oc: map<ID, nat>)
    ensures Visited(oc, oc.Keys) == {} && Visited(oc, {}) == oc.Values
  {}

  // Retiring one more tracked call: it has no answer yet, since no two identifiers track one call.
  lemma RetireNext(calls: seq<Call>, oc: map<ID, nat>, left: set<ID>, id: ID, err: Err)
    requires CallsInv(calls, oc) && id in left && left <= oc.Keys
    ensures var now := RetireAll(calls, Visited(oc, left), err);
            && oc[id] < |now| == |calls| && now[oc[id]].answer.None?
            && RetireAll(calls, Visited(oc, left - {id}), err)
               == now[oc[id] := RetireOne(now[oc[id]], Answer(Response(id, None, Some(err)), None))]
  {
    var retired := Visited(oc, left);
    assert oc[id] !in retired;
    assert Visited(oc, left - {id}) == retired + {oc[id]};
    assert RetireAll(calls, retired, err)[oc[id]] == calls[oc[id]];
  }

  class SharedState {
    // inFlightState
    var connClosing: bool
    var reading: bool
    var readErr: Option<Err>
    var writeErr: Option<Err>
    var closer: bool
    var outgoingCalls: map<ID, nat>
    var outgoingNotifications: int
    var incoming: int
    var incomingByID: map<ID, nat>
    var handlerQueue: seq<nat>
    var handlerRunning: bool
    // the done channel, and the objects that goroutines hold
    var done: bool
    var calls: seq<Call>
    var notes: seq<Note>
    var reqs: seq<Req>
    // where the goroutines stand, and the histories
    ghost var rest: Conn

    ghost function State(): InFlight
      reads this
    {
      InFlight(connClosing, reading, readErr, writeErr, closer, outgoingCalls, outgoingNotifications, incoming,
               incomingByID, handlerQueue, handlerRunning)
    }

    ghost function View(): Conn
      reads this
    {
      rest.(s := State(), done := done, calls := calls, notes := notes, reqs := reqs)
    }

    ghost predicate Valid()
      reads this
    {
      Inv(View())
    }

    constructor ()
      ensures View() == Initial() && Valid()
    {
      connClosing, reading, readErr, writeErr, closer := false, false, None, None, true;
      outgoingCalls, outgoingNotifications, incoming, incomingByID := map[], 0, 0, map[];
      handlerQueue, handlerRunning, done := [], false, false;
      calls, notes, reqs, rest := [], [], [], Initial();
      new;
      InitialInv();
    }

    // idle
    predicate IsIdle()
      reads this
      ensures IsIdle() == Idle(State())
    {
      outgoingCalls == map[] && outgoingNotifications == 0 && incoming == 0 && !handlerRunning
    }

    // shuttingDown
    function ShutdownError(errClosing: Err): (e: Option<Err>)
      reads this
      ensures e == ShutdownErr(State(), errClosing)
      ensures e.Some? <==> ShuttingDown(State())
    {
      if connClosing then Some(errClosing)
      else if readErr.Some? then Some(WrapErr(errClosing, readErr.value))
      else if writeErr.Some? then Some(WrapErr(errClosing, writeErr.value))
      else None
    }

    // The end of updateInFlight.
    method EndUpdate()
      modifies this`rest, this`closer, this`done
      ensures View() == Epilogue(old(View()))
    {
      hide WrapErr, ShutdownErr, ShutdownError;
      if done {
        if !IsIdle() {
          rest := rest.(panics := rest.panics + [NonIdleWhenDone]);
        }
      } else if IsIdle() && ShutdownError(ErrUnknown).Some? {
        if closer {
          rest := rest.(closings := rest.closings + [State()]);
          closer := false;
        }
        if !reading {
          rest := rest.(doneCloses := rest.doneCloses + 1);
          done := true;
        }
      }
    }

    // AsyncCall.retire
    method RetireCall(k: nat, answer: Answer)
      requires k < |calls|
      modifies this`calls, this`rest
      ensures View() == Retire(old(View()), k, answer)
      ensures calls == old(calls)[k := RetireOne(old(calls)[k], answer)]
      ensures old(calls)[k].answer.None? ==> rest == old(rest)
    {
      if calls[k].answer.Some? {
        rest := rest.(panics := rest.panics + [RetiredTwice]);
        assert calls == calls[k := calls[k]];
      } else {
        calls := calls[k := calls[k].(answer := Some(answer), retires := calls[k].retires + 1)];
      }
    }

    method StartReader()
      requires Valid() && View().reader.NotStarted?
      modifies this`reading, this`rest, this`closer, this`done
      ensures View() == Start(old(View())) && Valid()
    {
      hide Inv, Epilogue;
      if done {
        rest := rest.(reader := Exited);
      } else {
        reading := true;
        rest := rest.(reader := ReadLoop);
      }
      EndUpdate();
      KeepStart(old(View()));
    }

    // The critical section of Call.
    method RegisterCall(k: nat) returns (err: Option<Err>)
      requires Valid() && k < |calls| && calls[k].pc.Registering?
      modifies this`outgoingCalls, this`calls, this`rest, this`closer, this`done
      ensures View() == CallRegister(old(View()), k) && Valid()
      ensures err.Some? <==> old(ShuttingDown(State()))
    {
      hide Inv, Epilogue;
      err := ShutdownError(ErrClientClosing);
      if err.Some? {
        calls := calls[k := calls[k].(pc := Refused(err.value))];
      } else {
        outgoingCalls := outgoingCalls[CallID(k) := k];
        calls := calls[k := calls[k].(pc := Sending(AtGate), registered := true)];
      }
      EndUpdate();
      KeepCallRegister(old(View()), k);
    }

    // The critical section of Connection.Retire, called by a user holding the returned call.
    method RetireByUser(k: nat, err: Err)
      requires Valid() && k < |calls| && calls[k].pc.Returned?
      modifies this`outgoingCalls, this`calls, this`rest, this`closer, this`done
      ensures View() == Epilogue(RetireTracked(old(View()), k, err)) && Valid()
    {
      hide Inv, Epilogue;
      if CallID(k) in outgoingCalls && outgoingCalls[CallID(k)] == k {
        outgoingCalls := outgoingCalls - {CallID(k)};
        RetireCall(k, Answer(Response(CallID(k), None, Some(err)), None));
      }
      EndUpdate();
      KeepUserRetire(old(View()), k, err);
    }

    // The first critical section of Notify.
    method AdmitNotification(n: nat, marshals: bool) returns (err: Option<Err>)
      requires Valid() && n < |notes| && notes[n].pc.Admitting?
      modifies this`outgoingNotifications, this`notes, this`rest, this`closer, this`done
      ensures View() == NotifyAdmit(old(View()), n, marshals) && Valid()
      ensures err.Some? <==> old(NotifyRefused(View()))
    {
      hide Inv, Epilogue, WrapErr, ShutdownErr, ShutdownError;
      err := None;
      if outgoingCalls == map[] && incomingByID == map[] {
        err := ShutdownError(ErrClientClosing);
      }
      if err.Some? {
        notes := notes[n := notes[n].(pc := Settled)];
      } else {
        outgoingNotifications := outgoingNotifications + 1;
        notes := notes[n := notes[n].(pc := if marshals then Publishing(AtGate) else Finishing)];
      }
      EndUpdate();
      KeepNotifyAdmit(old(View()), n, marshals);
    }

    // The deferred critical section of Notify.
    method FinishNotification(n: nat)
      requires Valid() && n < |notes| && notes[n].pc.Finishing?
      modifies this`outgoingNotifications, this`notes, this`rest, this`closer, this`done
      ensures View() == NotifyFinish(old(View()), n) && Valid()
    {
      hide Inv, Epilogue;
      outgoingNotifications := outgoingNotifications - 1;
      notes := notes[n := notes[n].(pc := Settled)];
      EndUpdate();
      KeepNotifyFinish(old(View()), n);
    }

    // The critical section of readIncoming on a response.
    method DeliverResponse(at: nat, msg: Message)
      requires Valid() && View().reader == Delivering(at) && at < |View().received| && View().received[at] == msg
      modifies this`outgoingCalls, this`calls, this`rest, this`closer, this`done
      ensures TracksKnown(old(View())) && View() == Deliver(old(View())) && Valid()
    {
      hide Inv, Epilogue, DeliverSection;
      TracksCalls(View());
      DeliverBody(at, msg);
      EndUpdate();
      KeepDeliver(old(View()));
    }

    method DeliverBody(at: nat, msg: Message)
      requires View().reader == Delivering(at) && at < |View().received| && View().received[at] == msg && TracksKnown(View())
      modifies this`outgoingCalls, this`calls, this`rest
      ensures View() == DeliverSection(old(View()))
    {
      rest := rest.(reader := ReadLoop);
      if msg.id in outgoingCalls {
        var k := outgoingCalls[msg.id];
        outgoingCalls := outgoingCalls - {msg.id};
        RetireCall(k, Answer(msg, Some(at)));
      }
    }

    // The last critical section of readIncoming: every call still tracked is retired.
    method ExitReader(err: Err)
      requires Valid() && View().reader == ReadFailed(err)
      modifies this`reading, this`readErr, this`outgoingCalls, this`calls, this`rest, this`closer, this`done
      ensures View() == ReaderExit(old(View())) && Valid()
    {
      hide Inv, Epilogue, ReaderExitSection;
      TracksCalls(View());
      ExitBody(err);
      EndUpdate();
      KeepReaderExit(old(View()));
    }

    method ExitBody(err: Err)
      requires CallsInv(calls, outgoingCalls) && View().reader == ReadFailed(err)
      modifies this`reading, this`readErr, this`outgoingCalls, this`calls, this`rest
      ensures View() == ReaderExitSection(old(View()))
    {
      hide RetireAll, AnyAnswered, CallsInv;
      RetireAllTracked(err);
      reading, readErr, outgoingCalls := false, Some(err), map[];
      rest := rest.(reader := Exited);
    }

    // Every tracked call is retired, whatever order the map gives them in.
    method RetireAllTracked(err: Err)
      requires CallsInv(calls, outgoingCalls)
      modifies this`calls, this`rest
      ensures calls == RetireAll(old(calls), outgoingCalls.Values, err) && rest == old(rest)
      ensures !AnyAnswered(old(calls), outgoingCalls.Values)
    {
      RetireAllCalls(calls, outgoingCalls, err);
      VisitedEnds(outgoingCalls);
      var left := outgoingCalls.Keys;
      assert calls == RetireAll(calls, {}, err);
      hide RetireAll, AnyAnswered, CallsInv, View, Visited, RetireOne;
      while left != {}
        invariant left <= outgoingCalls.Keys
        invariant calls == RetireAll(old(calls), Visited(outgoingCalls, left), err) && rest == old(rest)
        decreases left
      {
        var id :| id in left;
        var k := outgoingCalls[id];
        RetireNext(old(calls), outgoingCalls, left, id, err);
        RetireCall(k, Answer(Response(id, None, Some(err)), None));
        left := left - {id};
      }
    }

    // The first critical section of acceptRequest; it reports the error to respond with, if any.
    method AcceptRequest(r: nat) returns (err: Option<Err>)
      requires Valid() && View().reader == Accepting(r) && AcceptingAt(View(), Arrived)
      modifies this`incoming, this`incomingByID, this`reqs, this`rest, this`closer, this`done
      ensures View() == Accept(old(View())) && Valid()
      ensures r < |reqs| && (err.Some? <==> reqs[r].phase.Resolving?)
    {
      hide Inv, Epilogue, AcceptSection;
      err := AcceptBody(r);
      EndUpdate();
      KeepAccept(old(View()));
    }

    method AcceptBody(r: nat) returns (err: Option<Err>)
      requires View().reader == Accepting(r) && AcceptingAt(View(), Arrived)
      modifies this`incoming, this`incomingByID, this`reqs
      ensures View() == AcceptSection(old(View()))
      ensures r < |reqs| && (err.Some? <==> reqs[r].phase.Resolving?)
    {
      hide WrapErr;
      var q := reqs[r];
      err := None;
      incoming := incoming + 1;
      if IsValid(q.id) {
        if q.id in incomingByID {
          err := Some(InUse);
          q := q.(id := NoID, dup := true);
        } else {
          incomingByID := incomingByID[q.id := r];
          err := ShutdownError(ErrServerClosing);
        }
      }
      q := if err.Some? then Resolve(q, Nothing, err) else q.(phase := Preempting);
      assert q == AcceptedReq(old(State()), old(reqs)[r]);
      reqs := reqs[r := q];
    }

    // The last critical section of acceptRequest.
    method EnqueueRequest(r: nat) returns (err: Option<Err>)
      requires Valid() && View().reader == Accepting(r) && AcceptingAt(View(), Enqueueing)
      modifies this`handlerQueue, this`handlerRunning, this`reqs, this`rest, this`closer, this`done
      ensures View() == Enqueue(old(View())) && Valid()
      ensures err.Some? <==> old(ShuttingDown(State()))
    {
      hide Inv, Epilogue, EnqueueSection;
      err := EnqueueBody(r);
      EndUpdate();
      KeepEnqueue(old(View()));
    }

    method EnqueueBody(r: nat) returns (err: Option<Err>)
      requires View().reader == Accepting(r) && AcceptingAt(View(), Enqueueing)
      modifies this`handlerQueue, this`handlerRunning, this`reqs, this`rest
      ensures View() == EnqueueSection(old(View()))
      ensures err.Some? <==> old(ShuttingDown(State()))
    {
      hide WrapErr, ShutdownErr, ShutdownError;
      err := ShutdownError(ErrServerClosing);
      if err.Some? {
        reqs := reqs[r := Resolve(reqs[r], Nothing, err)];
      } else {
        handlerQueue := handlerQueue + [r];
        reqs := reqs[r := reqs[r].(phase := Queued, host := InQueue)];
        rest := rest.(reader := ReadLoop);
        if !handlerRunning {
          handlerRunning := true;
          rest := rest.(dispatcher := Looping);
        }
      }
    }

    // The first critical section of handleAsync: the next request, or none and the loop ends.
    method TakeNext() returns (next: Option<nat>)
      requires Valid() && View().dispatcher.Looping?
      modifies this`handlerQueue, this`handlerRunning, this`reqs, this`rest, this`closer, this`done
      ensures old(handlerQueue) != [] ==> old(handlerQueue)[0] < |old(reqs)|
      ensures View() == Dequeue(old(View())) && Valid()
      ensures next == if old(handlerQueue) != [] then Some(old(handlerQueue)[0]) else None
    {
      hide Inv, Epilogue, DequeueSection;
      DispatchFacts(View());
      next := TakeBody();
      EndUpdate();
      KeepDequeue(old(View()));
    }

    method TakeBody() returns (next: Option<nat>)
      requires handlerQueue != [] ==> handlerQueue[0] < |reqs|
      modifies this`handlerQueue, this`handlerRunning, this`reqs, this`rest
      ensures View() == DequeueSection(old(View()))
      ensures next == if old(handlerQueue) != [] then Some(old(handlerQueue)[0]) else None
    {
      if |handlerQueue| > 0 {
        var r := handlerQueue[0];
        next := Some(r);
        handlerQueue := handlerQueue[1..];
        reqs := reqs[r := reqs[r].(phase := Dequeued, host := OnDispatcher)];
        rest := rest.(dispatcher := Serving(r));
      } else {
        next := None;
        handlerRunning := false;
        rest := rest.(dispatcher := Off);
      }
    }

    // The critical section of processResult that frees the identifier.
    method FreeID(r: nat)
      requires Valid() && ReqAt(View(), r, Resolving) && reqs[r].outcome.Some? && IsValid(reqs[r].id)
      modifies this`incomingByID, this`reqs, this`rest, this`closer, this`done
      ensures View() == Process(old(View()), r) && Valid()
    {
      hide Inv, Epilogue, FreeIDSection;
      FreeIDBody(r);
      EndUpdate();
      KeepProcess(old(View()), r);
    }

    method FreeIDBody(r: nat)
      requires r < |reqs| && reqs[r].outcome.Some?
      modifies this`incomingByID, this`reqs, this`rest
      ensures View() == FreeIDSection(old(View()), r)
    {
      hide Settle;
      var q := reqs[r];
      var st := Settle(q.id, NameOf(q.msg), q.outcome.value);
      rest := rest.(complaints := rest.complaints + st.complaints);
      incomingByID := incomingByID - {q.id};
      reqs := reqs[r := q.(reply := st.reply, phase := if st.reply.Some? then Answering(AtGate) else Closing)];
    }

    // The last critical section of processResult.
    method LeaveCount(r: nat)
      requires Valid() && ReqAt(View(), r, Closing)
      modifies this`incoming, this`reqs, this`rest, this`closer, this`done
      ensures View() == Finish(old(View()), r) && Valid()
    {
      hide Inv, Epilogue, FinishSection;
      LeaveBody(r);
      EndUpdate();
      KeepFinish(old(View()), r);
    }

    method LeaveBody(r: nat)
      requires r < |reqs|
      modifies this`incoming, this`reqs, this`rest
      ensures View() == FinishSection(old(View()), r)
    {
      var q := reqs[r];
      reqs := reqs[r := q.(cancelled := true, passes := q.passes + 1, phase := if q.host == OnHandler then Releasing else Gone)];
      rest := rest.(reader := if q.host == OnReader then ReadLoop else rest.reader,
                    dispatcher := if q.host == OnDispatcher then Looping else rest.dispatcher);
      if incoming == 0 {
        rest := rest.(panics := rest.panics + [IncomingZero]);
      } else {
        incoming := incoming - 1;
      }
    }

    // The gate of write: it only reads.
    method CheckGate() returns (err: Option<Err>)
      requires Valid()
      modifies this`rest, this`closer, this`done
      ensures View() == old(View())
      ensures err == ShutdownErr(State(), ErrServerClosing)
    {
      hide Inv, Epilogue;
      err := ShutdownError(ErrServerClosing);
      EndUpdate();
      ReadOnlyEpilogue(old(View()));
    }

    // The recording section of write: the first failure breaks the writer and cancels every tracked call.
    method RecordWriteErr(err: Err)
      requires Valid()
      modifies this`writeErr, this`reqs, this`rest, this`closer, this`done
      ensures View() == Epilogue(BreakWriter(old(View()), err)) && Valid()
    {
      hide Inv, Epilogue, CancelAll;
      CoreReqs(View());
      if writeErr.None? {
        writeErr := Some(err);
        CancelTrackedCalls();
      }
      EndUpdate();
      KeepBreakWriter(old(View()), err);
    }

    // Every tracked request is cancelled, whatever order the map gives them in.
    method CancelTrackedCalls()
      requires ReqsInv(reqs, incomingByID)
      modifies this`reqs
      ensures reqs == CancelAll(old(reqs), incomingByID.Values)
    {
      hide ReqOk;
      var left := incomingByID.Keys;
      ghost var reached: set<nat> := {};
      while left != {}
        invariant left <= incomingByID.Keys
        invariant reached == set id | id in incomingByID && id !in left :: incomingByID[id]
        invariant reqs == CancelAll(old(reqs), reached)
        decreases left
      {
        var id :| id in left;
        var r := incomingByID[id];
        reqs := reqs[r := reqs[r].(cancelled := true)];
        left := left - {id};
        reached := reached + {r};
      }
      assert reached == incomingByID.Values;
    }

    // The critical section of Cancel: the request to cancel, if the identifier is in use.
    method FindForCancel(id: ID) returns (r: Option<nat>)
      requires Valid()
      modifies this`rest, this`closer, this`done
      ensures View() == CancelLookup(old(View()), id) && Valid()
      ensures r == if id in incomingByID then Some(incomingByID[id]) else None
    {
      hide Inv, Epilogue;
      r := None;
      if id in incomingByID {
        r := Some(incomingByID[id]);
        rest := rest.(cancels := rest.cancels + {incomingByID[id]});
      }
      EndUpdate();
      KeepCancelLookup(old(View()), id);
    }

    // The critical section of Close.
    method BeginClose()
      requires Valid()
      modifies this`connClosing, this`rest, this`closer, this`done
      ensures View() == Close(old(View())) && Valid()
    {
      hide Inv, Epilogue;
      connClosing := true;
      EndUpdate();
      KeepClose(old(View()));
    }
  }
}
