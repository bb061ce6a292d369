// A request that reuses an identifier still in flight: what becomes of it from its arrival to its end,
// and that none of the steps taken for it disturbs, cancels or answers for anything else.
module Duplicates {
  import opened Wrappers
  import opened Messages
  import opened Connection
  import opened ConnectionInvariant
  import opened ConnectionRequests
  import opened ConnectionRuns
  import opened ConnectionEvolution
  import opened ConnectionTheorems

  // The steps that some goroutine takes for request r.
  predicate TakenFor(c: Conn, l: Label, r: nat) {
    match l
    case LAccept => c.reader == Accepting(r)
    case LPreempt(_) => c.reader == Accepting(r)
    case LEnqueue => c.reader == Accepting(r)
    case LDequeue => c.s.handlerQueue != [] && c.s.handlerQueue[0] == r
    case LCheckContext => c.dispatcher == Serving(r)
    case LStaleResult => c.dispatcher == Serving(r)
    case LResume => c.dispatcher == Awaiting(r)
    case LAsync(q) => q == r
    case LHandleReturn(q, _) => q == r
    case LProcess(q) => q == r
    case LFinish(q) => q == r
    case LRelease(q) => q == r
    case LWriteGate(w, _) => w == FromReq(r)
    case LWriteDo(w, _, _) => w == FromReq(r)
    case LWriteRecord(w) => w == FromReq(r)
    case _ => false
  }

  // Nothing was written, tracked, freed, cancelled by its user, queued, started or broken, and no call
  // or notification moved.
  predicate Unmoved(c: Conn, d: Conn) {
    && d.calls == c.calls && d.notes == c.notes
    && d.s.incomingByID == c.s.incomingByID && d.s.outgoingCalls == c.s.outgoingCalls
    && d.s.outgoingNotifications == c.s.outgoingNotifications
    && d.s.handlerQueue == c.s.handlerQueue && d.s.handlerRunning == c.s.handlerRunning
    && d.s.connClosing == c.s.connClosing && d.s.readErr == c.s.readErr && d.s.writeErr == c.s.writeErr
    && d.dispatcher == c.dispatcher && d.starts == c.starts && d.sent == c.sent && d.cancels == c.cancels
    && d.breaches == c.breaches && d.complaints == c.complaints && d.panics == c.panics
  }

  // Nothing moved but the record of request r.
  predicate Aside(c: Conn, d: Conn, r: nat) {
    && Unmoved(c, d)
    && |d.reqs| == |c.reqs| && (forall q :: 0 <= q < |c.reqs| && q != r ==> d.reqs[q] == c.reqs[q])
  }

  lemma AsideEpilogue(c: Conn, d: Conn, r: nat)
    requires Aside(c, d, r) && (d.done ==> Idle(d.s))
    ensures Aside(c, Epilogue(d), r)
  {}

  // ---------------------------------------------------------------------------------------------
  // Which steps they are

  lemma DuplicateIsRefused(c: Conn, r: nat)
    requires Inv(c) && r < |c.reqs| && c.reqs[r].dup
    ensures Rejected(c.reqs[r]) && c.reqs[r].id == NoID
  {
    ReqIsOk(c, r);
    hide Inv;
  }

  // Only processResult ever handles a request once it is known to be a duplicate.
  lemma DuplicateSteps(c: Conn, l: Label, r: nat)
    requires Inv(c) && Enabled(c, l) && TakenFor(c, l, r) && r < |c.reqs| && c.reqs[r].dup
    ensures l == LProcess(r) || l == LFinish(r)
  {
    DuplicateIsRefused(c, r);
    ReqIsOk(c, r);
    if l.LDequeue? { QueueHead(c); }
    hide Inv;
    if l.LResume? { AwaitedIsHandled(c); }
  }

  lemma AwaitedIsHandled(c: Conn)
    requires Inv(c) && c.dispatcher.Awaiting?
    ensures c.dispatcher.r < |c.reqs| && c.reqs[c.dispatcher.r].host.OnHandler?
  {
    hide CallsInv, NotesInv, ReqsInv, HostsInv, CountInv, ReaderInv, BrokenInv, SentInv, ReceivedInv, DoneInv;
  }

  lemma ReaderMarksNone(c: Conn, l: Label, r: nat)
    requires Enabled(c, l) && (l.LPreempt? || l.LEnqueue?) && r < |c.reqs| && !c.reqs[r].dup
    ensures |Apply(c, l).reqs| == |c.reqs| && !Apply(c, l).reqs[r].dup
  {
    hide Epilogue, ShutdownErr, Conforms;
    if l.LEnqueue? { EpilogueFrame(EnqueueSection(c)); }
  }

  lemma DispatcherMarksNone(c: Conn, l: Label, r: nat)
    requires Enabled(c, l) && (l.LDequeue? || l.LCheckContext? || l.LResume?) && r < |c.reqs| && !c.reqs[r].dup
    ensures |Apply(c, l).reqs| == |c.reqs| && !Apply(c, l).reqs[r].dup
  {
    hide Epilogue;
    if l.LDequeue? { EpilogueFrame(DequeueSection(c)); }
  }

  lemma StaleMarksNone(c: Conn, r: nat)
    requires Enabled(c, LStaleResult) && r < |c.reqs| && !c.reqs[r].dup
    ensures |Apply(c, LStaleResult).reqs| == |c.reqs| && !Apply(c, LStaleResult).reqs[r].dup
  {
    hide Epilogue;
    var err := if c.s.writeErr.Some? then WrapErr(ErrServerClosing, c.s.writeErr.value) else Canceled;
    EpilogueFrame(SetReq(c, c.dispatcher.r, Resolve(c.reqs[c.dispatcher.r], Nothing, Some(err))));
  }

  lemma HandlerMarksNone(c: Conn, l: Label, r: nat)
    requires Enabled(c, l) && (l.LAsync? || l.LHandleReturn? || l.LRelease?) && r < |c.reqs| && !c.reqs[r].dup
    ensures |Apply(c, l).reqs| == |c.reqs| && !Apply(c, l).reqs[r].dup
  {
    hide Conforms;
  }

  lemma ResultMarksNone(c: Conn, l: Label, r: nat)
    requires Enabled(c, l) && (l.LProcess? || l.LFinish?) && r < |c.reqs| && !c.reqs[r].dup
    ensures |Apply(c, l).reqs| == |c.reqs| && !Apply(c, l).reqs[r].dup
  {
    hide Epilogue, Settle;
    match l
    case LProcess(q) => EpilogueFrame(FreeIDSection(c, q));
    case LFinish(q) => EpilogueFrame(FinishSection(c, q));
  }

  lemma WriteMarksNone(c: Conn, l: Label, r: nat)
    requires Enabled(c, l) && (l.LWriteGate? || l.LWriteDo? || l.LWriteRecord?) && l.w == FromReq(r) && !c.reqs[r].dup
    ensures |Apply(c, l).reqs| == |c.reqs| && !Apply(c, l).reqs[r].dup
  {
    hide Epilogue, ShutdownErr;
    match l
    case LWriteGate(w, _) => EpilogueFrame(c);
    case LWriteDo(w, _, _) =>
    case LWriteRecord(w) => EpilogueFrame(BreakWriter(c, RecordErr(c, w)));
  }

  // Only acceptRequest finds a duplicate.
  lemma DuplicateArrives(c: Conn, l: Label, r: nat)
    requires Enabled(c, l) && TakenFor(c, l, r) && r < |c.reqs| && !c.reqs[r].dup
    requires r < |Apply(c, l).reqs| && Apply(c, l).reqs[r].dup
    ensures l == LAccept && c.reader == Accepting(r)
  {
    hide Apply, Enabled;
    match l
    case LAccept =>
    case LPreempt(_) => ReaderMarksNone(c, l, r);
    case LEnqueue => ReaderMarksNone(c, l, r);
    case LDequeue => DispatcherMarksNone(c, l, r);
    case LCheckContext => DispatcherMarksNone(c, l, r);
    case LStaleResult => StaleMarksNone(c, r);
    case LResume => DispatcherMarksNone(c, l, r);
    case LAsync(_) => HandlerMarksNone(c, l, r);
    case LHandleReturn(_, _) => HandlerMarksNone(c, l, r);
    case LRelease(_) => HandlerMarksNone(c, l, r);
    case LProcess(_) => ResultMarksNone(c, l, r);
    case LFinish(_) => ResultMarksNone(c, l, r);
    case _ => WriteMarksNone(c, l, r);
  }

  // ---------------------------------------------------------------------------------------------
  // What they leave alone

  // A duplicate counts as in flight, so the connection is not done while one is processed.
  lemma BusyWithDuplicate(c: Conn, r: nat)
    requires Inv(c) && r < |c.reqs| && (c.reqs[r].phase.Resolving? || c.reqs[r].phase.Closing?)
    ensures !c.done && c.s.incoming > 0
  {
    CountAtLeast(c, r);
    DoneHolds(c);
    hide Inv;
  }

  lemma AcceptedAside(c: Conn, r: nat)
    requires Inv(c) && c.reader == Accepting(r) && AcceptingAt(c, Arrived) && Accept(c).reqs[r].dup
    ensures Aside(c, Accept(c), r)
  {
    ReqIsOk(c, r);
    DoneHolds(c);
    ArrivedMeansReading(c, r);
    hide Inv, Epilogue, ShutdownErr, Aside;
    EpilogueFrame(AcceptSection(c));
    AcceptSectionAside(c, r);
    AsideEpilogue(c, AcceptSection(c), r);
  }

  lemma AcceptSectionAside(c: Conn, r: nat)
    requires c.reader == Accepting(r) && r < |c.reqs| && !c.reqs[r].dup && AcceptSection(c).reqs[r].dup
    ensures Aside(c, AcceptSection(c), r)
  {}

  lemma ProcessedAside(c: Conn, r: nat)
    requires Inv(c) && ReqAt(c, r, Resolving) && c.reqs[r].dup && c.reqs[r].outcome.Some?
    ensures Aside(c, Process(c, r), r)
  {
    DuplicateIsRefused(c, r);
    hide Inv;
    RefusalIsQuiet(NameOf(c.reqs[r].msg));
  }

  // processResult has nothing to send for a refused duplicate, and nothing to complain about.
  lemma RefusalIsQuiet(name: string)
    ensures Settle(NoID, name, Outcome(Nothing, Some(InUse))) == Settlement(None, 0)
  {}

  lemma FinishedAside(c: Conn, r: nat)
    requires Inv(c) && ReqAt(c, r, Closing) && c.reqs[r].dup
    ensures Aside(c, Finish(c, r), r)
  {
    DuplicateIsRefused(c, r);
    BusyWithDuplicate(c, r);
    hide Inv, Epilogue, Aside;
    FinishSectionAside(c, r);
    AsideEpilogue(c, FinishSection(c, r), r);
  }

  lemma FinishSectionAside(c: Conn, r: nat)
    requires r < |c.reqs| && c.reqs[r].host.OnReader? && c.s.incoming > 0
    ensures Aside(c, FinishSection(c, r), r)
  {}

  lemma TakenForDuplicate(c: Conn, l: Label, r: nat)
    requires Inv(c) && Enabled(c, l) && TakenFor(c, l, r)
    requires r < |Apply(c, l).reqs| && Apply(c, l).reqs[r].dup
    ensures r < |c.reqs| && Aside(c, Apply(c, l), r)
  {
    hide Aside, Inv;
    assert r < |c.reqs| by { TakenForKnown(c, l, r); }
    if c.reqs[r].dup {
      DuplicateSteps(c, l, r);
      hide Epilogue, Settle;
      if l == LProcess(r) { ProcessedAside(c, r); } else { FinishedAside(c, r); }
    } else {
      DuplicateArrives(c, l, r);
      AcceptedAside(c, r);
    }
  }

  lemma TakenForKnown(c: Conn, l: Label, r: nat)
    requires Enabled(c, l) && TakenFor(c, l, r)
    ensures r < |c.reqs|
  {}

  // Whatever step is taken for a request that is, or is thereby found to be, a duplicate leaves
  // everything else as it was: above all the entry of the earlier request and its context.
  lemma DuplicateIsHarmless(c: Conn, l: Label, r: nat)
    requires Reachable(c) && Enabled(c, l) && TakenFor(c, l, r)
    requires r < |Apply(c, l).reqs| && Apply(c, l).reqs[r].dup
    ensures r < |c.reqs| && Aside(c, Apply(c, l), r)
  {
    hide Aside, Inv, Apply, Enabled, TakenFor;
    ReachableInv(c);
    TakenForDuplicate(c, l, r);
  }

  // ---------------------------------------------------------------------------------------------
  // Over runs

  // Throughout any run, a duplicate stays one: refused under no identifier, never tracked, queued,
  // started or answered.
  lemma DuplicateForever(c: Conn, ls: seq<Label>, r: nat)
    requires Reachable(c) && CanRun(c, ls) && r < |c.reqs| && c.reqs[r].dup
    ensures var d := RunFrom(c, ls);
            && r < |d.reqs| && d.reqs[r].dup && d.reqs[r].id == NoID && Rejected(d.reqs[r])
            && (forall id :: id in d.s.incomingByID ==> d.s.incomingByID[id] != r)
            && r !in d.s.handlerQueue && r !in d.starts
            && (forall i :: 0 <= i < |d.sent| ==> d.sent[i].origin != FromReq(r))
  {
    hide Inv, Apply, Enabled;
    ReachableInv(c);
    RunEvolves(c, ls);
    RunKeepsInv(c, ls);
    var d := RunFrom(c, ls);
    DuplicateIsRefused(d, r);
    DuplicateIsNowhere(d, r);
  }

  lemma DuplicateIsNowhere(c: Conn, r: nat)
    requires Inv(c) && r < |c.reqs| && Rejected(c.reqs[r]) && c.reqs[r].id == NoID
    ensures forall id :: id in c.s.incomingByID ==> c.s.incomingByID[id] != r
    ensures r !in c.s.handlerQueue && r !in c.starts
    ensures forall i :: 0 <= i < |c.sent| ==> c.sent[i].origin != FromReq(r)
  {
    hide CallsInv, NotesInv, HostsInv, CountInv, ReaderInv, BrokenInv, ReceivedInv, DoneInv;
  }

  // The steps of a peer that sends nothing but duplicates: a request is read, or a step is taken for one
  // that is, or is thereby found to be, a duplicate.
  ghost predicate ForDuplicate(c: Conn, l: Label)
    requires Enabled(c, l)
  {
    l.LReadRequest? || exists r: nat :: r < |Apply(c, l).reqs| && TakenFor(c, l, r) && Apply(c, l).reqs[r].dup
  }

  ghost predicate OnlyDuplicates(c: Conn, ls: seq<Label>)
    requires CanRun(c, ls)
    decreases |ls|
  {
    ls != [] ==> ForDuplicate(c, ls[0]) && OnlyDuplicates(Apply(c, ls[0]), ls[1..])
  }

  // Nothing moved but the records of duplicates.
  predicate Undisturbed(c: Conn, d: Conn) {
    && Unmoved(c, d)
    && |c.reqs| <= |d.reqs| && (forall q :: 0 <= q < |c.reqs| && !d.reqs[q].dup ==> d.reqs[q] == c.reqs[q])
    && (forall q :: 0 <= q < |c.reqs| && c.reqs[q].dup ==> d.reqs[q].dup)
  }

  lemma UndisturbedTransitive(c: Conn, d: Conn, e: Conn)
    requires Undisturbed(c, d) && Undisturbed(d, e)
    ensures Undisturbed(c, e)
  {}

  lemma StepUndisturbed(c: Conn, l: Label)
    requires Inv(c) && Enabled(c, l) && ForDuplicate(c, l)
    ensures Undisturbed(c, Apply(c, l))
  {
    hide Inv;
    if l.LReadRequest? {
      ReadUndisturbed(c, l.msg);
    } else {
      hide Aside, Undisturbed, Apply, Enabled;
      var r: nat :| r < |Apply(c, l).reqs| && TakenFor(c, l, r) && Apply(c, l).reqs[r].dup;
      TakenForDuplicate(c, l, r);
      AsideUndisturbed(c, Apply(c, l), r);
    }
  }

  lemma ReadUndisturbed(c: Conn, msg: Message)
    requires msg.Request?
    ensures Undisturbed(c, ReadRequest(c, msg))
  {}

  lemma AsideUndisturbed(c: Conn, d: Conn, r: nat)
    requires Aside(c, d, r) && r < |d.reqs| && d.reqs[r].dup
    ensures Undisturbed(c, d)
  {}

  lemma {:induction false} DuplicatesRun(c: Conn, ls: seq<Label>)
    requires Inv(c) && CanRun(c, ls) && OnlyDuplicates(c, ls)
    ensures Undisturbed(c, RunFrom(c, ls))
    decreases |ls|
  {
    hide Inv, Apply, Enabled, Undisturbed, ForDuplicate;
    if ls == [] {
      ItselfUndisturbed(c);
    } else {
      StepKeepsInv(c, ls[0]);
      StepUndisturbed(c, ls[0]);
      DuplicatesRun(Apply(c, ls[0]), ls[1..]);
      UndisturbedTransitive(c, Apply(c, ls[0]), RunFrom(c, ls));
    }
  }

  lemma ItselfUndisturbed(c: Conn)
    ensures Undisturbed(c, c)
  {}

  // However many duplicates a peer sends, and wherever their handling stands, together they disturb
  // nothing.
  lemma DuplicatesDisturbNothing(c: Conn, ls: seq<Label>)
    requires Reachable(c) && CanRun(c, ls) && OnlyDuplicates(c, ls)
    ensures Undisturbed(c, RunFrom(c, ls))
  {
    hide Inv, Apply, Enabled, Undisturbed, ForDuplicate;
    ReachableInv(c);
    DuplicatesRun(c, ls);
  }
}
