// A connection that takes in no new work finishes what it has: every internal step lowers a measure,
// some step is possible until the connection is done, and when nothing is left it is done.
module ConnectionTermination {
  import opened Wrappers
  import opened Messages
  import opened Connection
  import opened ConnectionInvariant
  import opened ConnectionRequests
  import opened ConnectionRuns
  import opened ConnectionEvolution
  import opened ConnectionTheorems
  import opened Sums

  // ---------------------------------------------------------------------------------------------
  // The measure: how many steps each activity still has before it.

  function WriteWork(w: WritePc): nat {
    match w case AtGate => 3 case AtWriter => 2 case AtRecord(_) => 1
  }

  function CallWork(call: Call): nat {
    match call.pc
    case Registering => 9
    case Refused(_) => 1
    case Sending(w) => 4 + WriteWork(w)
    case Retiring(_) => 1
    case Returned => 0
  }

  function NoteWork(note: Note): nat {
    match note.pc
    case Admitting => 9
    case Publishing(w) => 4 + WriteWork(w)
    case Finishing => 1
    case Settled => 0
  }

  function PhaseWork(p: Phase): nat {
    match p
    case Arrived => 30
    case Preempting => 28
    case Enqueueing => 26
    case Queued => 20
    case Dequeued => 17
    case Stale => 14
    case Handling => 15
    case Resolving => 12
    case Answering(w) => 6 + WriteWork(w)
    case Closing => 4
    case Releasing => 2
    case Gone => 0
  }

  function ReqWork(q: Req): nat { PhaseWork(q.phase) }

  function ReaderWork(reader: ReaderPc): nat {
    match reader
    case NotStarted => 1
    case Delivering(_) => 1
    case ReadFailed(_) => 1
    case _ => 0
  }

  function DispatcherWork(d: DispatcherPc): nat {
    match d case Off => 0 case Looping => 1 case Serving(_) => 2 case Awaiting(_) => 2
  }

  ghost function Measure(c: Conn): nat {
    Sum(c.calls, CallWork) + Sum(c.notes, NoteWork) + Sum(c.reqs, ReqWork)
    + ReaderWork(c.reader) + DispatcherWork(c.dispatcher) + |c.cancels|
  }

  // The environment brings new work (arrivals), or acts without bringing any.
  predicate Arrival(l: Label) {
    l.LCallStart? || l.LNotifyStart? || l.LReadRequest? || l.LReadResponse? || l.LReadFail? || l.LCancelLookup?
  }

  predicate Outside(l: Label) { l.LUserRetire? || l.LAsync? || l.LHandleReturn? || l.LClose? }

  predicate Internal(l: Label) { !Arrival(l) && !Outside(l) }

  // ---------------------------------------------------------------------------------------------
  // Each kind of step against the measure

  ghost function Rest(c: Conn): nat { ReaderWork(c.reader) + DispatcherWork(c.dispatcher) + |c.cancels| }

  lemma WorkNone(c: Conn, d: Conn)
    requires d.calls == c.calls && d.notes == c.notes && d.reqs == c.reqs
    ensures Measure(d) == Measure(c) - Rest(c) + Rest(d)
  {}

  lemma WorkCall(c: Conn, d: Conn, k: nat)
    requires d.notes == c.notes && d.reqs == c.reqs && k < |c.calls| == |d.calls| && d.calls == c.calls[k := d.calls[k]]
    ensures Measure(d) == Measure(c) - Rest(c) + Rest(d) - CallWork(c.calls[k]) + CallWork(d.calls[k])
  {
    SumUpdate(c.calls, k, d.calls[k], CallWork);
  }

  lemma WorkNote(c: Conn, d: Conn, n: nat)
    requires d.calls == c.calls && d.reqs == c.reqs && n < |c.notes| == |d.notes| && d.notes == c.notes[n := d.notes[n]]
    ensures Measure(d) == Measure(c) - Rest(c) + Rest(d) - NoteWork(c.notes[n]) + NoteWork(d.notes[n])
  {
    SumUpdate(c.notes, n, d.notes[n], NoteWork);
  }

  lemma WorkReq(c: Conn, d: Conn, r: nat)
    requires d.calls == c.calls && d.notes == c.notes && r < |c.reqs| == |d.reqs| && d.reqs == c.reqs[r := d.reqs[r]]
    ensures Measure(d) == Measure(c) - Rest(c) + Rest(d) - ReqWork(c.reqs[r]) + ReqWork(d.reqs[r])
  {
    SumUpdate(c.reqs, r, d.reqs[r], ReqWork);
  }

  // Cancelling and retiring move no program counter.
  lemma WorkSame(c: Conn, d: Conn)
    requires d.notes == c.notes && |d.calls| == |c.calls| && |d.reqs| == |c.reqs|
    requires forall k :: 0 <= k < |c.calls| ==> d.calls[k].pc == c.calls[k].pc
    requires forall r :: 0 <= r < |c.reqs| ==> d.reqs[r].phase == c.reqs[r].phase
    ensures Measure(d) == Measure(c) - Rest(c) + Rest(d)
  {
    SumSame(c.calls, d.calls, CallWork);
    SumSame(c.reqs, d.reqs, ReqWork);
  }

  lemma EpilogueWork(c: Conn)
    ensures Measure(Epilogue(c)) == Measure(c)
  {}

  lemma WorkCallStep(c: Conn, l: Label)
    requires Enabled(c, l) && (l.LCallRegister? || l.LCallRefuse? || l.LCallRetire? || l.LUserRetire?)
    ensures Measure(Apply(c, l)) <= Measure(c) && (!l.LUserRetire? ==> Measure(Apply(c, l)) < Measure(c))
  {
    hide Measure, Epilogue;
    match l
    case LCallRegister(k) =>
      var c1 := if ShuttingDown(c.s) then c.(calls := c.calls[k := c.calls[k].(pc := Refused(ShutdownErr(c.s, ErrClientClosing).value))])
                else c.(s := c.s.(outgoingCalls := c.s.outgoingCalls[CallID(k) := k]),
                        calls := c.calls[k := c.calls[k].(pc := Sending(AtGate), registered := true)]);
      WorkCall(c, c1, k);
      EpilogueWork(c1);
    case LCallRefuse(k) =>
      var d := CallRefuse(c, k);
      assert d.calls == c.calls[k := d.calls[k]];
      WorkCall(c, d, k);
    case LCallRetire(k) =>
      var c1 := RetireTracked(c.(calls := c.calls[k := c.calls[k].(pc := Returned)]), k, c.calls[k].pc.err);
      assert c1.calls == c.calls[k := c1.calls[k]];
      WorkCall(c, c1, k);
      EpilogueWork(c1);
    case LUserRetire(k, err) =>
      var c1 := RetireTracked(c, k, err);
      assert c1.calls == c.calls[k := c1.calls[k]];
      WorkCall(c, c1, k);
      EpilogueWork(c1);
  }

  lemma WorkNoteStep(c: Conn, l: Label)
    requires Enabled(c, l) && (l.LNotifyAdmit? || l.LNotifyFinish?)
    ensures Measure(Apply(c, l)) < Measure(c)
  {
    var n := l.n;
    var d := Apply(c, l);
    assert d.notes == c.notes[n := d.notes[n]];
    hide Measure;
    WorkNote(c, d, n);
  }

  lemma WorkAtWrite(c: Conn, w: Origin, pc: WritePc, pc': WritePc)
    requires Writes(c, w, pc) && WriteWork(pc') < WriteWork(pc)
    ensures Measure(AtWrite(c, w, pc')) < Measure(c)
  {
    hide Measure;
    match w
    case FromCall(k) => WorkCall(c, AtWrite(c, w, pc'), k);
    case FromNote(n) => WorkNote(c, AtWrite(c, w, pc'), n);
    case FromReq(r) => WorkReq(c, AtWrite(c, w, pc'), r);
  }

  lemma WorkAfterWrite(c: Conn, w: Origin, err: Option<Err>)
    requires InWrite(c, w)
    ensures Measure(AfterWrite(c, w, err)) < Measure(c)
  {
    hide Measure;
    match w
    case FromCall(k) => WorkCall(c, AfterWrite(c, w, err), k);
    case FromNote(n) => WorkNote(c, AfterWrite(c, w, err), n);
    case FromReq(r) => WorkReq(c, AfterWrite(c, w, err), r);
  }

  lemma WorkFailed(c: Conn, w: Origin, pc: WritePc, err: Err, ctxDone: bool)
    requires Writes(c, w, pc) && !pc.AtRecord?
    ensures Measure(Failed(c, w, err, ctxDone)) < Measure(c)
  {
    hide Measure;
    WorkAtWrite(c, w, pc, AtRecord(err));
    WorkAfterWrite(c, w, Some(err));
  }

  lemma WorkWriteGate(c: Conn, w: Origin, ctxDone: bool)
    requires Writes(c, w, AtGate)
    ensures Measure(WriteGate(c, w, ctxDone)) < Measure(c)
  {
    EpilogueWork(c);
    assert Writes(Epilogue(c), w, AtGate);
    hide Measure, Epilogue, Failed, AtWrite, Writes;
    var e := ShutdownErr(c.s, ErrServerClosing);
    if e.Some? {
      WorkFailed(Epilogue(c), w, AtGate, e.value, ctxDone);
    } else {
      WorkAtWrite(Epilogue(c), w, AtGate, AtWriter);
    }
  }

  lemma WorkMarkSent(c: Conn, w: Origin)
    requires Writes(c, w, AtWriter)
    ensures Measure(MarkSent(c, w)) == Measure(c) && InWrite(MarkSent(c, w), w)
  {
    hide Measure;
    match w
    case FromCall(k) => WorkCall(c, MarkSent(c, w), k);
    case FromNote(n) => WorkNote(c, MarkSent(c, w), n);
    case FromReq(r) => WorkReq(c, MarkSent(c, w), r);
  }

  lemma WorkWriteDo(c: Conn, w: Origin, failure: Option<Err>, ctxDone: bool)
    requires Writes(c, w, AtWriter)
    ensures Measure(WriteDo(c, w, failure, ctxDone)) < Measure(c)
  {
    hide Measure, Failed, AfterWrite, MarkSent;
    match failure
    case Some(e) => WorkFailed(c, w, AtWriter, e, ctxDone);
    case None =>
      WorkMarkSent(c, w);
      WorkAfterWrite(MarkSent(c, w), w, None);
  }

  lemma WorkWriteRecord(c: Conn, w: Origin)
    requires Recording(c, w)
    ensures Measure(WriteRecord(c, w)) < Measure(c)
  {
    var err := RecordErr(c, w);
    var c1 := BreakWriter(c, err);
    assert InWrite(c1, w) && InWrite(Epilogue(c1), w);
    WorkSame(c, c1);
    EpilogueWork(c1);
    hide Measure, Epilogue, BreakWriter, AfterWrite;
    BreakWriterRest(c, err);
    WorkAfterWrite(Epilogue(c1), w, Some(err));
  }

  lemma BreakWriterRest(c: Conn, err: Err)
    ensures Rest(BreakWriter(c, err)) == Rest(c)
  {}

  lemma WorkStart(c: Conn)
    requires c.reader.NotStarted?
    ensures Measure(Start(c)) < Measure(c)
  {
    hide Measure;
    WorkNone(c, Start(c));
  }

  lemma WorkClose(c: Conn)
    ensures Measure(Close(c)) == Measure(c)
  {
    hide Measure;
    WorkNone(c, Close(c));
  }

  lemma WorkDeliver(c: Conn)
    requires c.reader.Delivering? && c.reader.at < |c.received| && TracksKnown(c)
    ensures Measure(Deliver(c)) < Measure(c)
  {
    hide Measure;
    WorkSame(c, Deliver(c));
  }

  lemma WorkReaderExit(c: Conn)
    requires c.reader.ReadFailed?
    ensures Measure(ReaderExit(c)) < Measure(c)
  {
    hide Measure;
    WorkSame(c, ReaderExit(c));
  }

  lemma WorkAccept(c: Conn)
    requires AcceptingAt(c, Arrived)
    ensures Measure(Accept(c)) < Measure(c)
  {
    hide Measure, Epilogue;
    WorkReq(c, AcceptSection(c), c.reader.r);
    EpilogueWork(AcceptSection(c));
  }

  lemma WorkEnqueue(c: Conn)
    requires AcceptingAt(c, Enqueueing)
    ensures Measure(Enqueue(c)) < Measure(c)
  {
    hide Measure, Epilogue;
    WorkReq(c, EnqueueSection(c), c.reader.r);
    EpilogueWork(EnqueueSection(c));
  }

  lemma WorkPreempt(c: Conn, decision: Option<Outcome>)
    requires AcceptingAt(c, Preempting)
    ensures Measure(Preempt(c, decision)) < Measure(c)
  {
    hide Measure;
    WorkReq(c, Preempt(c, decision), c.reader.r);
  }

  lemma WorkCancelFire(c: Conn, r: nat)
    requires r < |c.reqs| && r in c.cancels
    ensures Measure(CancelFire(c, r)) < Measure(c)
  {
    hide Measure;
    WorkReq(c, CancelFire(c, r), r);
  }

  lemma WorkDequeue(c: Conn)
    requires c.dispatcher.Looping? && (c.s.handlerQueue != [] ==> ReqAt(c, c.s.handlerQueue[0], Queued))
    ensures Measure(Dequeue(c)) < Measure(c)
  {
    hide Measure;
    if c.s.handlerQueue != [] {
      WorkReq(c, Dequeue(c), c.s.handlerQueue[0]);
    } else {
      WorkNone(c, Dequeue(c));
    }
  }

  lemma WorkServing(c: Conn)
    requires c.dispatcher.Serving?
    ensures ServingAt(c, Dequeued) ==> Measure(CheckContext(c)) < Measure(c)
    ensures ServingAt(c, Stale) ==> Measure(StaleResult(c)) < Measure(c)
  {
    hide Measure;
    if ServingAt(c, Dequeued) {
      WorkReq(c, CheckContext(c), c.dispatcher.r);
    }
    if ServingAt(c, Stale) {
      WorkReq(c, StaleResult(c), c.dispatcher.r);
    }
  }

  lemma WorkAsync(c: Conn, r: nat)
    requires r < |c.reqs|
    ensures Measure(Async(c, r)) <= Measure(c)
  {
    hide Measure;
    WorkReq(c, Async(c, r), r);
  }

  lemma WorkHandler(c: Conn, r: nat, o: Outcome)
    requires ReqAt(c, r, Handling)
    ensures Measure(HandleReturn(c, r, o)) < Measure(c)
  {
    hide Measure;
    WorkReq(c, HandleReturn(c, r, o), r);
  }

  lemma WorkProcess(c: Conn, r: nat)
    requires ReqAt(c, r, Resolving) && c.reqs[r].outcome.Some?
    ensures Measure(Process(c, r)) < Measure(c)
  {
    hide Measure, Settle;
    WorkReq(c, Process(c, r), r);
  }

  lemma WorkFinish(c: Conn, r: nat)
    requires ReqAt(c, r, Closing) && HostOk(c.reqs[r], r, c.reader, c.dispatcher)
    ensures Measure(Finish(c, r)) < Measure(c)
  {
    hide Measure, Epilogue;
    WorkReq(c, FinishSection(c, r), r);
    EpilogueWork(FinishSection(c, r));
  }

  lemma WorkRelease(c: Conn, r: nat)
    requires ReqAt(c, r, Releasing)
    ensures Measure(Release(c, r)) < Measure(c)
  {
    hide Measure;
    WorkReq(c, Release(c, r), r);
  }

  // ---------------------------------------------------------------------------------------------
  // Steps and runs

  lemma WorkOutgoing(c: Conn, l: Label)
    requires Enabled(c, l)
    requires l.LCallRegister? || l.LCallRefuse? || l.LCallRetire? || l.LUserRetire?
             || l.LNotifyAdmit? || l.LNotifyFinish? || l.LWriteGate? || l.LWriteDo? || l.LWriteRecord?
    ensures Measure(Apply(c, l)) <= Measure(c) && (Internal(l) ==> Measure(Apply(c, l)) < Measure(c))
  {
    hide Measure, WriteGate, WriteDo, WriteRecord, NotifyAdmit, NotifyFinish, CallRegister, CallRefuse, CallRetire;
    match l
    case LWriteGate(w, ctxDone) => WorkWriteGate(c, w, ctxDone);
    case LWriteDo(w, failure, ctxDone) => WorkWriteDo(c, w, failure, ctxDone);
    case LWriteRecord(w) => WorkWriteRecord(c, w);
    case LNotifyAdmit(_, _) => WorkNoteStep(c, l);
    case LNotifyFinish(_) => WorkNoteStep(c, l);
    case _ => WorkCallStep(c, l);
  }

  lemma WorkIncoming(c: Conn, l: Label)
    requires Inv(c) && Enabled(c, l) && !Arrival(l)
    requires !(l.LCallRegister? || l.LCallRefuse? || l.LCallRetire? || l.LUserRetire?
               || l.LNotifyAdmit? || l.LNotifyFinish? || l.LWriteGate? || l.LWriteDo? || l.LWriteRecord?)
    ensures Measure(Apply(c, l)) <= Measure(c) && (Internal(l) ==> Measure(Apply(c, l)) < Measure(c))
  {
    hide Inv, Measure, Accept, Enqueue, Preempt, Deliver, ReaderExit, Start, CancelFire, Close, Dequeue, CheckContext,
         StaleResult, Async, HandleReturn, Process, Finish, Release;
    match l
    case LAccept => WorkAccept(c);
    case LPreempt(decision) => WorkPreempt(c, decision);
    case LEnqueue => WorkEnqueue(c);
    case LCancelFire(r) => WorkCancelFire(c, r);
    case LDequeue => DispatchFacts(c); WorkDequeue(c);
    case LCheckContext => WorkServing(c);
    case LStaleResult => WorkServing(c);
    case LResume => WorkNone(c, Apply(c, l));
    case LAsync(r) => WorkAsync(c, r);
    case LHandleReturn(r, o) => WorkHandler(c, r, o);
    case LProcess(r) => WorkProcess(c, r);
    case LFinish(r) => ReqIsOk(c, r); WorkFinish(c, r);
    case LRelease(r) => WorkRelease(c, r);
    case LStart => WorkStart(c);
    case LDeliver => WorkDeliver(c);
    case LReaderExit => WorkReaderExit(c);
    case LClose => WorkClose(c);
    case _ =>
  }

  // Without arrivals the measure never rises, and every internal step lowers it.
  lemma StepWorks(c: Conn, l: Label)
    requires Inv(c) && Enabled(c, l) && !Arrival(l)
    ensures Measure(Apply(c, l)) <= Measure(c) && (Internal(l) ==> Measure(Apply(c, l)) < Measure(c))
  {
    hide Inv, Measure, Apply, Enabled;
    if l.LCallRegister? || l.LCallRefuse? || l.LCallRetire? || l.LUserRetire?
       || l.LNotifyAdmit? || l.LNotifyFinish? || l.LWriteGate? || l.LWriteDo? || l.LWriteRecord? {
      WorkOutgoing(c, l);
    } else {
      WorkIncoming(c, l);
    }
  }

  function InternalSteps(ls: seq<Label>): nat {
    if ls == [] then 0 else (if Internal(ls[0]) then 1 else 0) + InternalSteps(ls[1..])
  }

  // However users, handlers and the scheduler interleave, a run that brings no new work has at most
  // Measure(c) internal steps.
  lemma {:induction false} InternalStepsBounded(c: Conn, ls: seq<Label>)
    requires Inv(c) && CanRun(c, ls) && forall i :: 0 <= i < |ls| ==> !Arrival(ls[i])
    ensures InternalSteps(ls) + Measure(RunFrom(c, ls)) <= Measure(c)
    decreases |ls|
  {
    hide Inv, Measure, Apply, Enabled;
    if ls != [] {
      StepKeepsInv(c, ls[0]);
      StepWorks(c, ls[0]);
      InternalStepsBounded(Apply(c, ls[0]), ls[1..]);
    }
  }

  // ---------------------------------------------------------------------------------------------
  // Nothing left means done, and something left means something can happen

  lemma {:induction false} SumPositive<T>(s: seq<T>, weight: T -> nat) returns (i: nat)
    requires Sum(s, weight) > 0
    ensures i < |s| && weight(s[i]) > 0
  {
    if weight(s[|s| - 1]) > 0 {
      i := |s| - 1;
    } else {
      i := SumPositive(s[..|s| - 1], weight);
    }
  }

  lemma ExitedFacts(c: Conn)
    requires Inv(c) && c.reader.Exited?
    ensures c.done || c.s.outgoingNotifications > 0 || c.s.incoming > 0 || !c.dispatcher.Off?
    ensures c.s.outgoingNotifications == Sum(c.notes, Outstanding) && c.s.incoming == Sum(c.reqs, InCount)
  {
    DispatchFacts(c);
    hide CallsInv, ReqsInv, HostsInv, DispatchInv, SentInv, ReceivedInv, BrokenInv;
  }

  // A label the state allows, that is either internal or the return of a handler.
  ghost predicate CanMove(c: Conn) {
    exists l: Label :: Enabled(c, l) && (Internal(l) || l.LHandleReturn?)
  }

  lemma Moves(c: Conn, l: Label)
    requires Enabled(c, l) && (Internal(l) || l.LHandleReturn?)
    ensures CanMove(c)
  {
    hide Enabled;
  }

  lemma WriterMoves(c: Conn, w: Origin)
    requires Writes(c, w, AtGate) || Writes(c, w, AtWriter) || Recording(c, w)
    ensures CanMove(c)
  {
    hide CanMove;
    if Writes(c, w, AtGate) {
      Moves(c, LWriteGate(w, false));
    } else if Writes(c, w, AtWriter) {
      Moves(c, LWriteDo(w, None, false));
    } else {
      Moves(c, LWriteRecord(w));
    }
  }

  lemma NoteMoves(c: Conn, n: nat)
    requires n < |c.notes| && Outstanding(c.notes[n]) > 0
    ensures CanMove(c)
  {
    hide CanMove;
    if c.notes[n].pc.Finishing? {
      Moves(c, LNotifyFinish(n));
    } else {
      WriterMoves(c, FromNote(n));
    }
  }

  // A request past the dispatcher's context check can always move.
  lemma LateReqMoves(c: Conn, r: nat)
    requires Inv(c) && r < |c.reqs|
    requires c.reqs[r].phase.Handling? || c.reqs[r].phase.Resolving? || c.reqs[r].phase.Answering?
             || c.reqs[r].phase.Closing? || c.reqs[r].phase.Releasing?
    ensures CanMove(c)
  {
    hide CanMove, Inv;
    ReqIsOk(c, r);
    match c.reqs[r].phase
    case Handling => Moves(c, LHandleReturn(r, Outcome(Nothing, None)));
    case Resolving => Moves(c, LProcess(r));
    case Answering(_) => WriterMoves(c, FromReq(r));
    case Closing => Moves(c, LFinish(r));
    case Releasing => Moves(c, LRelease(r));
  }

  lemma DispatcherMoves(c: Conn)
    requires Inv(c) && !c.dispatcher.Off?
    ensures CanMove(c)
  {
    hide CanMove, Inv;
    DispatchFacts(c);
    match c.dispatcher
    case Looping => Moves(c, LDequeue);
    case Serving(r) =>
      ReqIsOk(c, r);
      if c.reqs[r].phase.Dequeued? {
        Moves(c, LCheckContext);
      } else if c.reqs[r].phase.Stale? {
        Moves(c, LStaleResult);
      } else {
        LateReqMoves(c, r);
      }
    case Awaiting(r) =>
      if c.reqs[r].released {
        Moves(c, LResume);
      } else {
        AwaitedOnHandler(c);
        ReqIsOk(c, r);
        LateReqMoves(c, r);
      }
  }

  lemma AwaitedOnHandler(c: Conn)
    requires Inv(c) && c.dispatcher.Awaiting?
    ensures c.dispatcher.r < |c.reqs| && c.reqs[c.dispatcher.r].host.OnHandler?
  {
    hide CallsInv, NotesInv, ReqsInv, HostsInv, CountInv, SentInv, ReceivedInv, BrokenInv, ReaderInv, DoneInv;
  }

  lemma CountedReqMoves(c: Conn, r: nat)
    requires Inv(c) && c.reader.Exited? && r < |c.reqs| && InCount(c.reqs[r]) > 0
    ensures CanMove(c)
  {
    hide CanMove, Inv;
    ReqIsOk(c, r);
    DispatchFacts(c);
    if c.dispatcher.Off? {
      LateReqMoves(c, r);
    } else {
      DispatcherMoves(c);
    }
  }

  // With the reader gone, the connection is done or something can happen: a shutdown never deadlocks.
  lemma NoDeadlock(c: Conn)
    requires Reachable(c) && c.reader.Exited?
    ensures c.done || CanMove(c)
  {
    ReachableInv(c);
    ExitedFacts(c);
    hide CanMove, Inv;
    if c.s.outgoingNotifications > 0 {
      var n := SumPositive(c.notes, Outstanding);
      NoteMoves(c, n);
    } else if c.s.incoming > 0 {
      var r := SumPositive(c.reqs, InCount);
      CountedReqMoves(c, r);
    } else if !c.dispatcher.Off? {
      DispatcherMoves(c);
    }
  }

  // At measure zero with the reader gone, the connection is done.
  lemma QuietMeansDone(c: Conn)
    requires Reachable(c) && c.reader.Exited? && Measure(c) == 0
    ensures c.done
  {
    ReachableInv(c);
    ExitedFacts(c);
    NothingLeft(c);
    hide Inv;
    SumZero(c.notes, Outstanding);
    SumZero(c.reqs, InCount);
  }

  lemma NothingLeft(c: Conn)
    requires Measure(c) == 0
    ensures forall n :: 0 <= n < |c.notes| ==> Outstanding(c.notes[n]) == 0
    ensures forall r :: 0 <= r < |c.reqs| ==> InCount(c.reqs[r]) == 0
    ensures c.dispatcher.Off?
  {
    forall n | 0 <= n < |c.notes| ensures Outstanding(c.notes[n]) == 0 {
      SumAtLeast(c.notes, n, NoteWork);
    }
    forall r | 0 <= r < |c.reqs| ensures InCount(c.reqs[r]) == 0 {
      SumAtLeast(c.reqs, r, ReqWork);
    }
  }

  // Every shutdown ends: from any reachable state whose reader is gone, any run without new work that
  // cannot be continued by an internal step or a handler's return has closed the connection.
  lemma ShutdownEnds(c: Conn, ls: seq<Label>)
    requires Reachable(c) && c.reader.Exited? && CanRun(c, ls) && forall i :: 0 <= i < |ls| ==> !Arrival(ls[i])
    ensures InternalSteps(ls) <= Measure(c)
    ensures RunFrom(c, ls).reader.Exited? && (RunFrom(c, ls).done || CanMove(RunFrom(c, ls)))
  {
    hide Inv, Measure, Apply, Enabled, CanMove;
    ReachableInv(c);
    InternalStepsBounded(c, ls);
    ReachableOn(c, ls);
    RunEvolves(c, ls);
    NoDeadlock(RunFrom(c, ls));
  }

  lemma {:induction false} RunJoin(c: Conn, ls: seq<Label>, ms: seq<Label>)
    requires CanRun(c, ls) && CanRun(RunFrom(c, ls), ms)
    ensures CanRun(c, ls + ms) && RunFrom(c, ls + ms) == RunFrom(RunFrom(c, ls), ms)
    decreases |ls|
  {
    hide Apply, Enabled;
    if ls == [] {
      assert ls + ms == ms;
    } else {
      assert (ls + ms)[0] == ls[0] && (ls + ms)[1..] == ls[1..] + ms;
      RunJoin(Apply(c, ls[0]), ls[1..], ms);
    }
  }

  lemma ReachableOn(c: Conn, ls: seq<Label>)
    requires Reachable(c) && CanRun(c, ls)
    ensures Reachable(RunFrom(c, ls))
  {
    hide Apply, Enabled;
    var ms: seq<Label> :| CanRun(Initial(), ms) && RunFrom(Initial(), ms) == c;
    RunJoin(Initial(), ms, ls);
  }
}
