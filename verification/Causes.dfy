// What changes a connection, step by step: which steps shut it down, decide on a request, cancel one, or
// let a write through, each exactly.
module Causes {
  import opened Wrappers
  import opened Messages
  import opened Connection
  import opened ConnectionInvariant
  import opened ConnectionRequests
  import opened ConnectionRuns
  import opened ConnectionEvolution
  import opened ConnectionTheorems

  // The end of a critical section touches neither the recorded errors nor the requests.
  lemma EndKeepsErrors()
    ensures forall c: Conn :: Epilogue(c).s.connClosing == c.s.connClosing
                              && Epilogue(c).s.readErr == c.s.readErr && Epilogue(c).s.writeErr == c.s.writeErr
  {}

  lemma EndKeepsReqs()
    ensures forall c: Conn :: Epilogue(c).reqs == c.reqs
  {}

  predicate FromUsers(l: Label) {
    l.LCallStart? || l.LCallRegister? || l.LCallRefuse? || l.LCallRetire? || l.LUserRetire? || l.LNotifyStart?
    || l.LNotifyAdmit? || l.LNotifyFinish? || l.LCancelLookup? || l.LCancelFire? || l.LClose?
  }

  predicate FromReader(l: Label) {
    l.LStart? || l.LReadRequest? || l.LReadResponse? || l.LReadFail? || l.LDeliver? || l.LReaderExit?
    || l.LAccept? || l.LPreempt? || l.LEnqueue?
  }

  predicate FromHandlers(l: Label) {
    l.LDequeue? || l.LCheckContext? || l.LStaleResult? || l.LResume? || l.LAsync? || l.LHandleReturn?
    || l.LProcess? || l.LFinish? || l.LRelease?
  }

  predicate FromWriters(l: Label) { l.LWriteGate? || l.LWriteDo? || l.LWriteRecord? }

  predicate FromAcceptor(l: Label) { l.LAccept? || l.LPreempt? || l.LEnqueue? }

  // The handlers' steps that run a critical section.
  predicate InSection(l: Label) { l.LDequeue? || l.LStaleResult? || l.LProcess? || l.LFinish? }

  // ---------------------------------------------------------------------------------------------
  // Shutting down

  // Only Close closes, only the end of the reader breaks the reading side, with its own error, and only
  // the first recorded write error breaks the writing side.
  predicate ShutBy(c: Conn, l: Label, d: Conn) {
    && (d.s.connClosing <==> c.s.connClosing || l.LClose?)
    && d.s.readErr == (if l.LReaderExit? && c.reader.ReadFailed? then Some(c.reader.err) else c.s.readErr)
    && d.s.writeErr == (if l.LWriteRecord? && c.s.writeErr.None? && Recording(c, l.w) then Some(RecordErr(c, l.w)) else c.s.writeErr)
  }

  lemma UsersShut(c: Conn, l: Label)
    requires Enabled(c, l) && FromUsers(l)
    ensures ShutBy(c, l, Apply(c, l))
  {
    EndKeepsErrors();
    hide Epilogue, ShutdownErr, Recording, RecordErr;
  }

  lemma ReaderShuts(c: Conn, l: Label)
    requires Enabled(c, l) && FromReader(l)
    ensures ShutBy(c, l, Apply(c, l))
  {
    EndKeepsErrors();
    hide Epilogue, ShutdownErr, Conforms, AcceptedReq, Recording, RecordErr;
  }

  lemma HandlersShut(c: Conn, l: Label)
    requires Enabled(c, l) && FromHandlers(l)
    ensures ShutBy(c, l, Apply(c, l))
  {
    EndKeepsErrors();
    hide Epilogue, Settle, Conforms, Recording, RecordErr;
  }

  lemma WritersShut(c: Conn, l: Label)
    requires Enabled(c, l) && FromWriters(l)
    ensures ShutBy(c, l, Apply(c, l))
  {
    EndKeepsErrors();
    hide Epilogue, ShutdownErr, RecordErr;
  }

  lemma ShutdownsExactly(c: Conn, l: Label)
    requires Enabled(c, l)
    ensures ShutBy(c, l, Apply(c, l))
  {
    hide Apply, Enabled, ShutBy;
    if FromUsers(l) {
      UsersShut(c, l);
    } else if FromReader(l) {
      ReaderShuts(c, l);
    } else if FromHandlers(l) {
      HandlersShut(c, l);
    } else {
      WritersShut(c, l);
    }
  }

  // The reader ends with the error that its read failed with.
  lemma ReaderEndsWith(c: Conn, err: Err)
    requires c.reader.ReadLoop?
    ensures var d := Apply(c, LReadFail(err)); d.reader == ReadFailed(err) && ReaderExit(d).s.readErr == Some(err)
  {
    EndKeepsErrors();
    hide Epilogue;
  }

  // What the refusals of a shutdown say: why, unless it was closed on purpose.
  lemma RefusalsSayWhy(s: InFlight, errClosing: Err)
    requires ShuttingDown(s)
    ensures ShutdownErr(s, errClosing).Some?
    ensures var e := ShutdownErr(s, errClosing).value;
            && (s.connClosing ==> e == errClosing)
            && (!s.connClosing ==>
                  e.Wrap? && e.inner == errClosing
                  && Text(e) == Text(errClosing) + ": " + Text(if s.readErr.Some? then s.readErr.value else s.writeErr.value))
  {}

  // ---------------------------------------------------------------------------------------------
  // Deciding on a request

  // The step decides request r, which was not decided.
  predicate Decides(c: Conn, d: Conn, r: nat) {
    r < |d.reqs| && d.reqs[r].outcome.Some? && (r < |c.reqs| ==> c.reqs[r].outcome.None?)
  }

  // What it decides, in terms of who takes the step: a duplicate identifier and a call in a shutdown are
  // refused on arrival, anything not yet queued is refused in a shutdown, a cancelled request is not
  // handled, and otherwise it is what the preempter or the handler returned.
  ghost predicate Decided(c: Conn, l: Label, r: nat, o: Outcome)
    requires r < |c.reqs|
  {
    match l
    case LAccept =>
      && c.reader == Accepting(r) && IsValid(c.reqs[r].id) && o.produced.Nothing? && o.err.Some?
      && (if c.reqs[r].id in c.s.incomingByID then IsCode(o.err.value, -32600)
          else ShuttingDown(c.s) && IsOrWraps(o.err.value, ErrServerClosing))
    case LPreempt(decision) => c.reader == Accepting(r) && decision == Some(o)
    case LEnqueue =>
      c.reader == Accepting(r) && ShuttingDown(c.s) && o.produced.Nothing? && o.err.Some? && IsOrWraps(o.err.value, ErrServerClosing)
    case LStaleResult =>
      && c.dispatcher == Serving(r) && o.produced.Nothing? && o.err.Some?
      && (if c.s.writeErr.Some? then IsOrWraps(o.err.value, ErrServerClosing) else o.err.value == Canceled)
    case LHandleReturn(q, p) => q == r && o == p
    case _ => false
  }

  // Where a decision falls.
  predicate Falls(c: Conn, l: Label, r: nat)
    requires r < |c.reqs|
  {
    match l
    case LAccept => c.reader == Accepting(r) && IsValid(c.reqs[r].id) && (c.reqs[r].id in c.s.incomingByID || ShuttingDown(c.s))
    case LPreempt(decision) => c.reader == Accepting(r) && decision.Some?
    case LEnqueue => c.reader == Accepting(r) && ShuttingDown(c.s)
    case LStaleResult => c.dispatcher == Serving(r)
    case LHandleReturn(q, _) => q == r
    case _ => false
  }

  // The step decides what it should, and only where it should.
  ghost predicate DecidesRightly(c: Conn, l: Label, d: Conn, r: nat)
    requires r < |c.reqs|
  {
    && (Decides(c, d, r) <==> c.reqs[r].outcome.None? && Falls(c, l, r))
    && (Decides(c, d, r) ==> Decided(c, l, r, d.reqs[r].outcome.value))
  }

  predicate Deciding(l: Label) { l.LAccept? || l.LPreempt? || l.LEnqueue? || l.LStaleResult? || l.LHandleReturn? }

  predicate SameOutcomes(c: Conn, d: Conn) {
    |c.reqs| <= |d.reqs| && forall r :: 0 <= r < |c.reqs| ==> d.reqs[r].outcome == c.reqs[r].outcome
  }

  lemma UsersDecideNothing(c: Conn, l: Label)
    requires Enabled(c, l) && FromUsers(l)
    ensures SameOutcomes(c, Apply(c, l))
  {
    EndKeepsReqs();
    hide Epilogue, ShutdownErr;
  }

  // Moving through write changes nothing of a request but its phase and where it was written.
  predicate MovesOnly(c: Conn, d: Conn) {
    |d.reqs| == |c.reqs|
    && forall r :: 0 <= r < |c.reqs| ==>
      (d.reqs[r].outcome == c.reqs[r].outcome && d.reqs[r].cancelled == c.reqs[r].cancelled && d.reqs[r].released == c.reqs[r].released)
  }

  lemma WriteMoves(c: Conn, w: Origin, pc: WritePc, err: Option<Err>)
    requires Exists(c, w)
    ensures MovesOnly(c, AtWrite(c, w, pc)) && MovesOnly(c, AfterWrite(c, w, err))
    ensures Exists(AtWrite(c, w, pc), w)
  {}

  lemma FailedMoves(c: Conn, w: Origin, err: Err, ctxDone: bool)
    requires Exists(c, w)
    ensures MovesOnly(c, Failed(c, w, err, ctxDone))
  {
    WriteMoves(c, w, AtRecord(err), Some(err));
    hide AtWrite, AfterWrite, MovesOnly;
  }

  lemma GateMoves(c: Conn, w: Origin, ctxDone: bool)
    requires Exists(c, w)
    ensures MovesOnly(c, WriteGate(c, w, ctxDone))
  {
    EpilogueFrame(c);
    WriteMoves(Epilogue(c), w, AtWriter, None);
    match ShutdownErr(c.s, ErrServerClosing)
    case Some(e) => FailedMoves(Epilogue(c), w, e, ctxDone);
    case None =>
    hide AtWrite, Failed, Epilogue;
  }

  lemma DoMoves(c: Conn, w: Origin, failure: Option<Err>, ctxDone: bool)
    requires Writes(c, w, AtWriter)
    ensures MovesOnly(c, WriteDo(c, w, failure, ctxDone))
  {
    match failure
    case Some(e) =>
      FailedMoves(c, w, e, ctxDone);
    case None =>
      assert MovesOnly(c, MarkSent(c, w)) && Exists(MarkSent(c, w), w);
      WriteMoves(MarkSent(c, w), w, AtWriter, None);
      hide AfterWrite, MarkSent;
  }

  lemma RecordMoves(c: Conn, w: Origin)
    requires Recording(c, w)
    ensures MovesOnly(BreakWriter(c, RecordErr(c, w)), WriteRecord(c, w))
  {
    var d := BreakWriter(c, RecordErr(c, w));
    assert Exists(d, w);
    EpilogueFrame(d);
    hide AtWrite, AfterWrite, Epilogue, BreakWriter;
    WriteMoves(Epilogue(d), w, AtWriter, Some(RecordErr(c, w)));
  }

  lemma WritersDecideNothing(c: Conn, l: Label)
    requires Enabled(c, l) && FromWriters(l)
    ensures SameOutcomes(c, Apply(c, l))
  {
    hide WriteGate, WriteDo, WriteRecord;
    match l
    case LWriteGate(w, ctxDone) => GateMoves(c, w, ctxDone);
    case LWriteDo(w, failure, ctxDone) => DoMoves(c, w, failure, ctxDone);
    case LWriteRecord(w) => RecordMoves(c, w);
  }

  lemma ReaderDecidesNothing(c: Conn, l: Label)
    requires Enabled(c, l) && FromReader(l) && !Deciding(l)
    ensures SameOutcomes(c, Apply(c, l))
  {
    EndKeepsReqs();
    hide Epilogue;
  }

  lemma SectionsDecideNothing(c: Conn, l: Label)
    requires Enabled(c, l) && InSection(l) && !Deciding(l)
    ensures SameOutcomes(c, Apply(c, l))
  {
    EndKeepsReqs();
    hide Epilogue, Settle;
  }

  lemma HandlersDecideNothing(c: Conn, l: Label)
    requires Enabled(c, l) && FromHandlers(l) && !InSection(l) && !Deciding(l)
    ensures SameOutcomes(c, Apply(c, l))
  {
    hide Epilogue, Settle;
  }

  lemma AcceptDecides(c: Conn, r: nat)
    requires Enabled(c, LAccept) && r < |c.reqs|
    ensures DecidesRightly(c, LAccept, Apply(c, LAccept), r)
  {
    EndKeepsReqs();
    assert IsCode(InUse, -32600);
    hide Epilogue, ShutdownErr;
  }

  lemma ReaderDecides(c: Conn, l: Label, r: nat)
    requires Enabled(c, l) && (l.LPreempt? || l.LEnqueue?) && r < |c.reqs|
    ensures DecidesRightly(c, l, Apply(c, l), r)
  {
    EndKeepsReqs();
    hide Epilogue, ShutdownErr, Conforms;
  }

  lemma HandlersDecide(c: Conn, l: Label, r: nat)
    requires Enabled(c, l) && (l.LStaleResult? || l.LHandleReturn?) && r < |c.reqs|
    ensures DecidesRightly(c, l, Apply(c, l), r)
  {
    EndKeepsReqs();
    hide Epilogue, Conforms;
  }

  lemma DecisionsExactly(c: Conn, l: Label, r: nat)
    requires Enabled(c, l) && r < |c.reqs|
    ensures DecidesRightly(c, l, Apply(c, l), r)
  {
    hide Apply, Enabled, Decided;
    if l == LAccept {
      AcceptDecides(c, r);
    } else if l.LPreempt? || l.LEnqueue? {
      ReaderDecides(c, l, r);
    } else if l.LStaleResult? || l.LHandleReturn? {
      HandlersDecide(c, l, r);
    } else if FromUsers(l) {
      UsersDecideNothing(c, l);
    } else if FromWriters(l) {
      WritersDecideNothing(c, l);
    } else if FromReader(l) {
      ReaderDecidesNothing(c, l);
    } else if InSection(l) {
      SectionsDecideNothing(c, l);
    } else {
      HandlersDecideNothing(c, l);
    }
  }

  // ---------------------------------------------------------------------------------------------
  // Cancelling

  // A request's context is cancelled by whoever looked it up, by the end of its own processing, and by
  // the first write error while the request is tracked; by nothing else.
  predicate CancelledBy(c: Conn, l: Label, r: nat) {
    match l
    case LCancelFire(q) => q == r
    case LFinish(q) => q == r
    case LWriteRecord(_) => c.s.writeErr.None? && r in c.s.incomingByID.Values
    case _ => false
  }

  predicate CancelsRightly(c: Conn, l: Label, d: Conn) {
    |c.reqs| <= |d.reqs| && forall r :: 0 <= r < |c.reqs| ==> (d.reqs[r].cancelled <==> c.reqs[r].cancelled || CancelledBy(c, l, r))
  }

  lemma UsersCancel(c: Conn, l: Label)
    requires Enabled(c, l) && FromUsers(l)
    ensures CancelsRightly(c, l, Apply(c, l))
  {
    EndKeepsReqs();
    hide Epilogue, ShutdownErr;
  }

  lemma WritersCancel(c: Conn, l: Label)
    requires Enabled(c, l) && FromWriters(l)
    ensures CancelsRightly(c, l, Apply(c, l))
  {
    hide WriteGate, WriteDo, WriteRecord;
    match l
    case LWriteGate(w, ctxDone) => GateMoves(c, w, ctxDone);
    case LWriteDo(w, failure, ctxDone) => DoMoves(c, w, failure, ctxDone);
    case LWriteRecord(w) => RecordMoves(c, w);
  }

  lemma ReaderCancels(c: Conn, l: Label)
    requires Enabled(c, l) && FromReader(l)
    ensures CancelsRightly(c, l, Apply(c, l))
  {
    EndKeepsReqs();
    hide Epilogue, ShutdownErr, Conforms;
  }

  lemma SectionsCancel(c: Conn, l: Label)
    requires Enabled(c, l) && InSection(l)
    ensures CancelsRightly(c, l, Apply(c, l))
  {
    EndKeepsReqs();
    hide Epilogue, Settle, Conforms;
  }

  lemma HandlersCancel(c: Conn, l: Label)
    requires Enabled(c, l) && FromHandlers(l) && !InSection(l)
    ensures CancelsRightly(c, l, Apply(c, l))
  {
    hide Epilogue, Settle, Conforms;
  }

  lemma TrackedValues(c: Conn, r: nat)
    requires Inv(c) && r < |c.reqs|
    ensures r in c.s.incomingByID.Values <==> Tracked(c.reqs[r])
  {
    CoreReqs(c);
    hide Inv;
    if Tracked(c.reqs[r]) {
      assert c.reqs[r].id in c.s.incomingByID;
    }
  }

  lemma StepCancels(c: Conn, l: Label)
    requires Enabled(c, l)
    ensures CancelsRightly(c, l, Apply(c, l))
  {
    hide Apply, Enabled, CancelsRightly;
    if FromUsers(l) {
      UsersCancel(c, l);
    } else if FromWriters(l) {
      WritersCancel(c, l);
    } else if FromReader(l) {
      ReaderCancels(c, l);
    } else if InSection(l) {
      SectionsCancel(c, l);
    } else {
      HandlersCancel(c, l);
    }
  }

  lemma CancellationsExactly(c: Conn, l: Label, r: nat)
    requires Reachable(c) && Enabled(c, l) && r < |c.reqs|
    ensures r < |Apply(c, l).reqs|
    ensures Apply(c, l).reqs[r].cancelled
      <==> c.reqs[r].cancelled || l == LCancelFire(r) || l == LFinish(r) || (l.LWriteRecord? && c.s.writeErr.None? && Tracked(c.reqs[r]))
  {
    hide Apply, Enabled, Inv, Tracked;
    ReachableInv(c);
    TrackedValues(c, r);
    StepCancels(c, l);
  }

  // Cancel finds the one request still tracked under the identifier, if there is one.
  lemma CancelFinds(c: Conn, id: ID, r: nat)
    requires Reachable(c) && r < |c.reqs|
    ensures r in CancelLookup(c, id).cancels <==> r in c.cancels || (Tracked(c.reqs[r]) && c.reqs[r].id == id)
  {
    ReachableInv(c);
    CoreReqs(c);
    hide Inv;
  }

  // ---------------------------------------------------------------------------------------------
  // Releasing

  predicate ReleasedBy(l: Label, r: nat) { l == LAsync(r) || l == LRelease(r) }

  predicate ReleasesRightly(c: Conn, l: Label, d: Conn) {
    |c.reqs| <= |d.reqs| && forall r :: 0 <= r < |c.reqs| ==> (d.reqs[r].released <==> c.reqs[r].released || ReleasedBy(l, r))
  }

  lemma UsersRelease(c: Conn, l: Label)
    requires Enabled(c, l) && FromUsers(l)
    ensures ReleasesRightly(c, l, Apply(c, l))
  {
    EndKeepsReqs();
    hide Epilogue, ShutdownErr;
  }

  lemma WritersRelease(c: Conn, l: Label)
    requires Enabled(c, l) && FromWriters(l)
    ensures ReleasesRightly(c, l, Apply(c, l))
  {
    hide WriteGate, WriteDo, WriteRecord;
    match l
    case LWriteGate(w, ctxDone) => GateMoves(c, w, ctxDone);
    case LWriteDo(w, failure, ctxDone) => DoMoves(c, w, failure, ctxDone);
    case LWriteRecord(w) => RecordMoves(c, w);
  }

  lemma ReaderReleases(c: Conn, l: Label)
    requires Enabled(c, l) && FromReader(l) && !FromAcceptor(l)
    ensures ReleasesRightly(c, l, Apply(c, l))
  {
    EndKeepsReqs();
    hide Epilogue, ShutdownErr, Conforms;
  }

  lemma AcceptorReleases(c: Conn, l: Label)
    requires Enabled(c, l) && FromAcceptor(l)
    ensures ReleasesRightly(c, l, Apply(c, l))
  {
    EndKeepsReqs();
    hide Epilogue, ShutdownErr, Conforms;
  }

  lemma SectionsRelease(c: Conn, l: Label)
    requires Enabled(c, l) && InSection(l)
    ensures ReleasesRightly(c, l, Apply(c, l))
  {
    EndKeepsReqs();
    hide Epilogue, Settle, Conforms;
  }

  lemma HandlersRelease(c: Conn, l: Label)
    requires Enabled(c, l) && FromHandlers(l) && !InSection(l)
    ensures ReleasesRightly(c, l, Apply(c, l))
  {
    hide Epilogue, Settle, Conforms;
  }

  lemma StepReleases(c: Conn, l: Label)
    requires Enabled(c, l)
    ensures ReleasesRightly(c, l, Apply(c, l))
  {
    hide Apply, Enabled, ReleasesRightly;
    if FromUsers(l) {
      UsersRelease(c, l);
    } else if FromWriters(l) {
      WritersRelease(c, l);
    } else if FromAcceptor(l) {
      AcceptorReleases(c, l);
    } else if FromReader(l) {
      ReaderReleases(c, l);
    } else if InSection(l) {
      SectionsRelease(c, l);
    } else {
      HandlersRelease(c, l);
    }
  }

  lemma SecondAsync(c: Conn, r: nat)
    requires Enabled(c, LAsync(r)) && c.reqs[r].released
    ensures Apply(c, LAsync(r)).breaches == c.breaches + 1
  {}

  lemma ReleaseAtEnd(c: Conn, r: nat)
    requires Enabled(c, LRelease(r))
    ensures c.reqs[r].phase.Releasing?
  {}

  // The dispatcher is let go on by a request exactly when its handler calls Async or its goroutine ends,
  // after its result was processed; a second Async is the caller's breach.
  lemma ReleasesExactly(c: Conn, l: Label, r: nat)
    requires Enabled(c, l) && r < |c.reqs|
    ensures r < |Apply(c, l).reqs|
    ensures Apply(c, l).reqs[r].released <==> c.reqs[r].released || l == LAsync(r) || (l == LRelease(r) && c.reqs[r].phase.Releasing?)
    ensures l == LAsync(r) && c.reqs[r].released ==> Apply(c, l).breaches == c.breaches + 1
  {
    hide Apply, Enabled;
    StepReleases(c, l);
    if l == LAsync(r) && c.reqs[r].released {
      SecondAsync(c, r);
    } else if l == LRelease(r) {
      ReleaseAtEnd(c, r);
    }
  }

  // ---------------------------------------------------------------------------------------------
  // Letting through

  // A write passes the gate exactly outside a shutdown.
  lemma GateExactly(c: Conn, w: Origin, ctxDone: bool)
    requires Writes(c, w, AtGate)
    ensures Writes(WriteGate(c, w, ctxDone), w, AtWriter) <==> !ShuttingDown(c.s)
  {
    EpilogueFrame(c);
    hide Epilogue, IsCode, ShutdownErr;
  }

  // A notification is refused exactly in a shutdown with no call in flight: none of this side's that is
  // tracked and none of the peer's that is.
  lemma NotificationsExactly(c: Conn, n: nat, marshals: bool)
    requires Reachable(c) && n < |c.notes|
    ensures var d := NotifyAdmit(c, n, marshals);
            |d.notes| == |c.notes| && d.notes[n].pc ==
              if ShuttingDown(c.s) && NoCallInFlight(c) then Settled else if marshals then Publishing(AtGate) else Finishing
  {
    ReachableInv(c);
    hide Inv, NoCallInFlight;
    RefusedExactly(c);
    AdmitMoves(c, n, marshals);
  }

  ghost predicate NoCallInFlight(c: Conn) {
    && (forall k :: 0 <= k < |c.calls| ==> !(c.calls[k].registered && c.calls[k].answer.None?))
    && (forall r :: 0 <= r < |c.reqs| ==> !Tracked(c.reqs[r]))
  }

  lemma RefusedExactly(c: Conn)
    requires Inv(c)
    ensures NotifyRefused(c) <==> ShuttingDown(c.s) && NoCallInFlight(c)
  {
    CoreReqs(c);
    CoreCalls(c);
    hide Inv, Tracked;
    if c.s.outgoingCalls != map[] {
      var id :| id in c.s.outgoingCalls;
    }
    if c.s.incomingByID != map[] {
      var id :| id in c.s.incomingByID;
    }
  }

  lemma AdmitMoves(c: Conn, n: nat, marshals: bool)
    requires n < |c.notes|
    ensures var d := NotifyAdmit(c, n, marshals);
            |d.notes| == |c.notes| && d.notes[n].pc == if NotifyRefused(c) then Settled else if marshals then Publishing(AtGate) else Finishing
  {
    hide NotifyRefused;
  }

  lemma CoreCalls(c: Conn)
    requires Inv(c)
    ensures CallsInv(c.calls, c.s.outgoingCalls)
  {
    hide CallsInv, NotesInv, ReqsInv, HostsInv, CountInv, DispatchInv, BrokenInv, SentInv, ReceivedInv, ReaderInv, DoneInv;
  }

  // A request that was not preempted joins the end of the queue exactly outside a shutdown.
  lemma QueuedExactly(c: Conn)
    requires AcceptingAt(c, Enqueueing)
    ensures var d := Enqueue(c);
            if ShuttingDown(c.s) then d.s.handlerQueue == c.s.handlerQueue && d.reqs[c.reader.r].phase.Resolving?
            else d.s.handlerQueue == c.s.handlerQueue + [c.reader.r] && d.s.handlerRunning
  {}

  // The dispatcher hands the request it took to the handler exactly when its context is live.
  lemma HandledExactly(c: Conn)
    requires ServingAt(c, Dequeued)
    ensures var d := CheckContext(c);
            if c.reqs[c.dispatcher.r].cancelled then d.starts == c.starts && d.dispatcher == c.dispatcher
            else d.starts == c.starts + [c.dispatcher.r] && d.reqs[c.dispatcher.r].phase.Handling?
  {}
}
