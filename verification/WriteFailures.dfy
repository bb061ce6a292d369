// What breaks the write side of a connection, over every run: an error of a write whose context is
// live and that the transport did not reject, or the shutdown gate refusing such a write. Cancelled and
// rejected writes never do.
module WriteFailures {
  import opened Wrappers
  import opened Messages
  import opened Connection
  import opened ConnectionInvariant
  import opened ConnectionEvolution
  import opened ConnectionRuns

  const REJECTED := -32005

  // ---------------------------------------------------------------------------------------------
  // Only a write comes to record an error, or records it

  predicate RecordsCall(call: Call) { call.pc.Sending? && call.pc.w.AtRecord? }

  predicate RecordsNote(note: Note) { note.pc.Publishing? && note.pc.w.AtRecord? }

  predicate RecordsReq(q: Req) { q.phase.Answering? && q.phase.w.AtRecord? }

  predicate CallsRecordAlike(p: seq<Call>, q: seq<Call>) {
    && |p| <= |q|
    && (forall k :: 0 <= k < |p| && (RecordsCall(p[k]) || RecordsCall(q[k])) ==> p[k].pc == q[k].pc)
    && (forall k :: |p| <= k < |q| ==> !RecordsCall(q[k]))
  }

  predicate NotesRecordAlike(p: seq<Note>, q: seq<Note>) {
    && |p| <= |q|
    && (forall n :: 0 <= n < |p| && (RecordsNote(p[n]) || RecordsNote(q[n])) ==> p[n].pc == q[n].pc)
    && (forall n :: |p| <= n < |q| ==> !RecordsNote(q[n]))
  }

  predicate ReqsRecordAlike(p: seq<Req>, q: seq<Req>) {
    && |p| <= |q|
    && (forall r :: 0 <= r < |p| && (RecordsReq(p[r]) || RecordsReq(q[r])) ==> p[r].phase == q[r].phase)
    && (forall r :: |p| <= r < |q| ==> !RecordsReq(q[r]))
  }

  // The same errors are about to be recorded, and the same one has been.
  predicate RecordsAlike(c: Conn, d: Conn) {
    && CallsRecordAlike(c.calls, d.calls) && NotesRecordAlike(c.notes, d.notes) && ReqsRecordAlike(c.reqs, d.reqs)
    && d.s.writeErr == c.s.writeErr
  }

  lemma EpilogueRecords(c: Conn, d: Conn)
    requires RecordsAlike(c, d)
    ensures RecordsAlike(c, Epilogue(d))
  {
    hide CallsRecordAlike, NotesRecordAlike, ReqsRecordAlike;
  }

  predicate Writing(l: Label) { l.LWriteGate? || l.LWriteDo? || l.LWriteRecord? }

  lemma RegisterRecords(c: Conn, k: nat)
    requires k < |c.calls| && c.calls[k].pc.Registering?
    ensures RecordsAlike(c, CallRegister(c, k))
  {
    hide Epilogue;
    match ShutdownErr(c.s, ErrClientClosing)
    case Some(e) => EpilogueRecords(c, c.(calls := c.calls[k := c.calls[k].(pc := Refused(e))]));
    case None =>
      EpilogueRecords(c, c.(s := c.s.(outgoingCalls := c.s.outgoingCalls[CallID(k) := k]),
                            calls := c.calls[k := c.calls[k].(pc := Sending(AtGate), registered := true)]));
  }

  lemma RefuseRecords(c: Conn, k: nat)
    requires k < |c.calls| && c.calls[k].pc.Refused?
    ensures RecordsAlike(c, CallRefuse(c, k))
  {}

  lemma RetireRecords(c: Conn, d: Conn, k: nat, err: Err)
    requires RecordsAlike(c, d) && k < |d.calls|
    ensures RecordsAlike(c, Epilogue(RetireTracked(d, k, err)))
  {
    hide Epilogue;
    EpilogueRecords(c, RetireTracked(d, k, err));
  }

  lemma AdmitRecords(c: Conn, n: nat, marshals: bool)
    requires n < |c.notes| && c.notes[n].pc.Admitting?
    ensures RecordsAlike(c, NotifyAdmit(c, n, marshals))
  {
    hide Epilogue, NotifyRefused;
    if NotifyRefused(c) {
      EpilogueRecords(c, c.(notes := c.notes[n := c.notes[n].(pc := Settled)]));
    } else {
      EpilogueRecords(c, c.(s := c.s.(outgoingNotifications := c.s.outgoingNotifications + 1),
                            notes := c.notes[n := c.notes[n].(pc := if marshals then Publishing(AtGate) else Finishing)]));
    }
  }

  lemma NoteFinishRecords(c: Conn, n: nat)
    requires n < |c.notes| && c.notes[n].pc.Finishing?
    ensures RecordsAlike(c, NotifyFinish(c, n))
  {
    hide Epilogue;
    EpilogueRecords(c, c.(s := c.s.(outgoingNotifications := c.s.outgoingNotifications - 1),
                          notes := c.notes[n := c.notes[n].(pc := Settled)]));
  }

  lemma CallsDoNotRecord(c: Conn, l: Label)
    requires Enabled(c, l) && (l.LCallStart? || l.LCallRegister? || l.LCallRefuse? || l.LCallRetire? || l.LUserRetire?)
    ensures RecordsAlike(c, Apply(c, l))
  {
    hide RecordsAlike, CallRegister, CallRefuse, CallStart, RetireTracked, Epilogue;
    match l
    case LCallStart(name, params, failure) => CallStartRecords(c, name, params, failure);
    case LCallRegister(k) => RegisterRecords(c, k);
    case LCallRefuse(k) => RefuseRecords(c, k);
    case LCallRetire(k) =>
      CallReturnRecords(c, k);
      RetireRecords(c, c.(calls := c.calls[k := c.calls[k].(pc := Returned)]), k, c.calls[k].pc.err);
    case LUserRetire(k, err) => NothingRecords(c); RetireRecords(c, c, k, err);
  }

  lemma NothingRecords(c: Conn)
    ensures RecordsAlike(c, c)
  {}

  lemma CallReturnRecords(c: Conn, k: nat)
    requires k < |c.calls| && c.calls[k].pc.Retiring?
    ensures RecordsAlike(c, c.(calls := c.calls[k := c.calls[k].(pc := Returned)]))
  {}

  lemma CallStartRecords(c: Conn, name: string, params: Raw, failure: Option<Err>)
    ensures RecordsAlike(c, CallStart(c, name, params, failure))
  {}

  lemma NoteStartRecords(c: Conn, name: string, params: Raw)
    ensures RecordsAlike(c, NotifyStart(c, name, params))
  {}

  lemma UsersRecord(c: Conn, l: Label)
    requires Enabled(c, l) && (l.LClose? || l.LCancelLookup? || l.LCancelFire?)
    ensures RecordsAlike(c, Apply(c, l))
  {
    hide Epilogue;
    match l
    case LClose => EpilogueRecords(c, c.(s := c.s.(connClosing := true)));
    case LCancelLookup(id) => EpilogueRecords(c, if id in c.s.incomingByID then c.(cancels := c.cancels + {c.s.incomingByID[id]}) else c);
    case LCancelFire(_) =>
  }

  lemma NotesDoNotRecord(c: Conn, l: Label)
    requires Enabled(c, l) && (l.LNotifyStart? || l.LNotifyAdmit? || l.LNotifyFinish?)
    ensures RecordsAlike(c, Apply(c, l))
  {
    hide RecordsAlike, NotifyStart, NotifyAdmit, NotifyFinish;
    match l
    case LNotifyStart(name, params) => NoteStartRecords(c, name, params);
    case LNotifyAdmit(n, marshals) => AdmitRecords(c, n, marshals);
    case LNotifyFinish(n) => NoteFinishRecords(c, n);
  }

  lemma DeliverRecords(c: Conn)
    requires c.reader.Delivering? && c.reader.at < |c.received| && TracksKnown(c)
    ensures RecordsAlike(c, DeliverSection(c))
  {}

  lemma ExitRecords(c: Conn)
    requires c.reader.ReadFailed?
    ensures RecordsAlike(c, ReaderExitSection(c))
  {}

  lemma ReadRecords(c: Conn, l: Label)
    requires Enabled(c, l) && (l.LReadRequest? || l.LReadResponse? || l.LReadFail?)
    ensures RecordsAlike(c, Apply(c, l))
  {}

  lemma ReaderDoesNotRecord(c: Conn, l: Label)
    requires Enabled(c, l) && (l.LStart? || l.LDeliver? || l.LReaderExit?)
    ensures RecordsAlike(c, Apply(c, l))
  {
    hide Epilogue, DeliverSection, ReaderExitSection;
    match l
    case LStart =>
      EpilogueRecords(c, if c.done then c.(reader := Exited) else c.(s := c.s.(reading := true), reader := ReadLoop));
    case LDeliver =>
      DeliverRecords(c);
      EpilogueRecords(c, DeliverSection(c));
    case LReaderExit =>
      ExitRecords(c);
      EpilogueRecords(c, ReaderExitSection(c));
  }

  lemma SetReqRecords(c: Conn, d: Conn, r: nat)
    requires r < |c.reqs| && |d.reqs| == |c.reqs| && d.calls == c.calls && d.notes == c.notes && d.s.writeErr == c.s.writeErr
    requires d.reqs == c.reqs[r := d.reqs[r]] && !c.reqs[r].phase.Answering? && !d.reqs[r].phase.Answering?
    ensures RecordsAlike(c, d)
  {}

  lemma AcceptDoesNotRecord(c: Conn, l: Label)
    requires Enabled(c, l) && (l.LAccept? || l.LPreempt? || l.LEnqueue?)
    ensures RecordsAlike(c, Apply(c, l))
  {
    hide RecordsAlike, Epilogue, ShutdownErr;
    match l
    case LAccept =>
      SetReqRecords(c, AcceptSection(c), c.reader.r);
      EpilogueRecords(c, AcceptSection(c));
    case LPreempt(_) => SetReqRecords(c, Apply(c, l), c.reader.r);
    case LEnqueue =>
      SetReqRecords(c, EnqueueSection(c), c.reader.r);
      EpilogueRecords(c, EnqueueSection(c));
  }

  lemma QueueDoesNotRecord(c: Conn, l: Label)
    requires Inv(c) && Enabled(c, l) && (l.LDequeue? || l.LCheckContext? || l.LStaleResult? || l.LResume?)
    ensures RecordsAlike(c, Apply(c, l))
  {
    hide RecordsAlike, Epilogue, Inv;
    NothingRecords(c);
    match l
    case LDequeue =>
      if c.s.handlerQueue != [] { QueueHead(c); }
      DequeueRecords(c);
      EpilogueRecords(c, DequeueSection(c));
    case LCheckContext => SetReqRecords(c, Apply(c, l), c.dispatcher.r);
    case LStaleResult =>
      var err := if c.s.writeErr.Some? then WrapErr(ErrServerClosing, c.s.writeErr.value) else Canceled;
      var d := SetReq(c, c.dispatcher.r, Resolve(c.reqs[c.dispatcher.r], Nothing, Some(err)));
      SetReqRecords(c, d, c.dispatcher.r);
      EpilogueRecords(c, d);
    case LResume => ResumeRecords(c);
  }

  lemma DequeueRecords(c: Conn)
    requires c.s.handlerQueue != [] ==> c.s.handlerQueue[0] < |c.reqs| && c.reqs[c.s.handlerQueue[0]].phase.Queued?
    ensures RecordsAlike(c, DequeueSection(c))
  {}

  lemma ResumeRecords(c: Conn)
    ensures RecordsAlike(c, c.(dispatcher := Looping))
  {}

  lemma HandlersDoNotRecord(c: Conn, l: Label)
    requires Enabled(c, l) && (l.LAsync? || l.LHandleReturn? || l.LRelease?)
    ensures RecordsAlike(c, Apply(c, l))
  {
    hide RecordsAlike, Conforms;
    match l
    case LAsync(r) => AsyncRecords(c, r);
    case LHandleReturn(r, _) => SetReqRecords(c, Apply(c, l), r);
    case LRelease(r) => SetReqRecords(c, Apply(c, l), r);
  }

  lemma AsyncRecords(c: Conn, r: nat)
    requires r < |c.reqs|
    ensures RecordsAlike(c, Async(c, r))
  {}

  lemma ResultsDoNotRecord(c: Conn, l: Label)
    requires Enabled(c, l) && (l.LProcess? || l.LFinish?)
    ensures RecordsAlike(c, Apply(c, l))
  {
    hide Settle, Epilogue;
    match l
    case LProcess(r) => EpilogueRecords(c, FreeIDSection(c, r));
    case LFinish(r) => EpilogueRecords(c, FinishSection(c, r));
  }

  lemma OnlyWritesRecord(c: Conn, l: Label)
    requires Inv(c) && Enabled(c, l) && !Writing(l)
    ensures RecordsAlike(c, Apply(c, l))
  {
    hide Apply, Enabled, RecordsAlike, Inv;
    match l
    case LCallStart(_, _, _) => CallsDoNotRecord(c, l);
    case LCallRegister(_) => CallsDoNotRecord(c, l);
    case LCallRefuse(_) => CallsDoNotRecord(c, l);
    case LCallRetire(_) => CallsDoNotRecord(c, l);
    case LUserRetire(_, _) => CallsDoNotRecord(c, l);
    case LStart => ReaderDoesNotRecord(c, l);
    case LReadRequest(_) => ReadRecords(c, l);
    case LReadResponse(_) => ReadRecords(c, l);
    case LReadFail(_) => ReadRecords(c, l);
    case LDeliver => ReaderDoesNotRecord(c, l);
    case LReaderExit => ReaderDoesNotRecord(c, l);
    case LAccept => AcceptDoesNotRecord(c, l);
    case LPreempt(_) => AcceptDoesNotRecord(c, l);
    case LEnqueue => AcceptDoesNotRecord(c, l);
    case LProcess(_) => ResultsDoNotRecord(c, l);
    case LFinish(_) => ResultsDoNotRecord(c, l);
    case LRelease(_) => HandlersDoNotRecord(c, l);
    case LDequeue => QueueDoesNotRecord(c, l);
    case LCheckContext => QueueDoesNotRecord(c, l);
    case LStaleResult => QueueDoesNotRecord(c, l);
    case LResume => QueueDoesNotRecord(c, l);
    case LAsync(_) => HandlersDoNotRecord(c, l);
    case LHandleReturn(_, _) => HandlersDoNotRecord(c, l);
    case LClose => UsersRecord(c, l);
    case LCancelLookup(_) => UsersRecord(c, l);
    case LCancelFire(_) => UsersRecord(c, l);
    case _ => NotesDoNotRecord(c, l);
  }

  // ---------------------------------------------------------------------------------------------
  // A property of every error that is recorded or about to be

  ghost predicate AllErrors(c: Conn, ok: Err -> bool) {
    && (c.s.writeErr.Some? ==> ok(c.s.writeErr.value))
    && (forall k :: 0 <= k < |c.calls| && c.calls[k].pc.Sending? && c.calls[k].pc.w.AtRecord? ==> ok(c.calls[k].pc.w.err))
    && (forall n :: 0 <= n < |c.notes| && c.notes[n].pc.Publishing? && c.notes[n].pc.w.AtRecord? ==> ok(c.notes[n].pc.w.err))
    && (forall r :: 0 <= r < |c.reqs| && c.reqs[r].phase.Answering? && c.reqs[r].phase.w.AtRecord? ==> ok(c.reqs[r].phase.w.err))
  }

  lemma LessErrors(c: Conn, d: Conn, ok: Err -> bool)
    requires AllErrors(c, ok) && RecordsAlike(c, d)
    ensures AllErrors(d, ok)
  {}

  lemma ErrorsAtWrite(c: Conn, w: Origin, pc: WritePc, ok: Err -> bool)
    requires AllErrors(c, ok) && Exists(c, w) && (pc.AtRecord? ==> ok(pc.err))
    ensures AllErrors(AtWrite(c, w, pc), ok)
  {}

  lemma ErrorsAfterWrite(c: Conn, w: Origin, err: Option<Err>, ok: Err -> bool)
    requires AllErrors(c, ok) && Exists(c, w)
    ensures AllErrors(AfterWrite(c, w, err), ok)
  {}

  lemma ErrorsEpilogue(c: Conn, ok: Err -> bool)
    requires AllErrors(c, ok)
    ensures AllErrors(Epilogue(c), ok)
  {}

  // A failed write has this property to lend when its context is live and the transport did not reject
  // it, since only then is its error recorded.
  lemma ErrorsFailed(c: Conn, w: Origin, err: Err, ctxDone: bool, ok: Err -> bool)
    requires AllErrors(c, ok) && Exists(c, w) && (!ctxDone && !IsCode(err, REJECTED) ==> ok(err))
    ensures AllErrors(Failed(c, w, err, ctxDone), ok)
  {
    hide AllErrors;
    if !ctxDone && !IsCode(err, REJECTED) {
      ErrorsAtWrite(c, w, AtRecord(err), ok);
    } else {
      ErrorsAfterWrite(c, w, Some(err), ok);
    }
  }

  lemma ErrorsMarkSent(c: Conn, w: Origin, ok: Err -> bool)
    requires AllErrors(c, ok) && Writes(c, w, AtWriter)
    ensures AllErrors(MarkSent(c, w), ok) && Exists(MarkSent(c, w), w)
  {}

  // The error a step may bring: of the gate, or of the Writer.
  predicate Brings(c: Conn, l: Label, err: Err) {
    match l
    case LWriteGate(_, ctxDone) => !ctxDone && ShutdownErr(c.s, ErrServerClosing) == Some(err)
    case LWriteDo(_, failure, ctxDone) => !ctxDone && failure == Some(err) && !IsCode(err, REJECTED)
    case _ => false
  }

  lemma ErrorsGate(c: Conn, w: Origin, ctxDone: bool, ok: Err -> bool)
    requires AllErrors(c, ok) && Writes(c, w, AtGate)
    requires forall err :: Brings(c, LWriteGate(w, ctxDone), err) ==> ok(err)
    ensures AllErrors(WriteGate(c, w, ctxDone), ok)
  {
    ErrorsEpilogue(c, ok);
    assert Exists(Epilogue(c), w);
    hide AllErrors, Failed, AtWrite, Epilogue;
    match ShutdownErr(c.s, ErrServerClosing)
    case Some(e) =>
      assert !ctxDone ==> Brings(c, LWriteGate(w, ctxDone), e);
      ErrorsFailed(Epilogue(c), w, e, ctxDone, ok);
    case None => ErrorsAtWrite(Epilogue(c), w, AtWriter, ok);
  }

  lemma ErrorsDo(c: Conn, w: Origin, failure: Option<Err>, ctxDone: bool, ok: Err -> bool)
    requires AllErrors(c, ok) && Writes(c, w, AtWriter)
    requires forall err :: Brings(c, LWriteDo(w, failure, ctxDone), err) ==> ok(err)
    ensures AllErrors(WriteDo(c, w, failure, ctxDone), ok)
  {
    hide AllErrors, Failed, MarkSent, AfterWrite;
    match failure
    case Some(e) =>
      assert !ctxDone && !IsCode(e, REJECTED) ==> Brings(c, LWriteDo(w, failure, ctxDone), e);
      ErrorsFailed(c, w, e, ctxDone, ok);
    case None =>
      ErrorsMarkSent(c, w, ok);
      ErrorsAfterWrite(MarkSent(c, w), w, None, ok);
  }

  lemma ErrorsRecord(c: Conn, w: Origin, ok: Err -> bool)
    requires AllErrors(c, ok) && Recording(c, w)
    ensures AllErrors(WriteRecord(c, w), ok)
  {
    var err := RecordErr(c, w);
    assert ok(err);
    var c1 := BreakWriter(c, err);
    ErrorsBreak(c, err, ok);
    assert Exists(c1, w);
    ErrorsEpilogue(c1, ok);
    assert Exists(Epilogue(c1), w);
    hide AllErrors, AfterWrite, Epilogue, BreakWriter;
    ErrorsAfterWrite(Epilogue(c1), w, Some(err), ok);
  }

  lemma ErrorsBreak(c: Conn, err: Err, ok: Err -> bool)
    requires AllErrors(c, ok) && ok(err)
    ensures AllErrors(BreakWriter(c, err), ok)
  {}

  // Every recorded error was brought by a step: a property that holds of the errors so far holds of
  // those after a step, if it holds of what the step brings.
  lemma StepErrors(c: Conn, l: Label, ok: Err -> bool)
    requires Inv(c) && AllErrors(c, ok) && Enabled(c, l) && forall err :: Brings(c, l, err) ==> ok(err)
    ensures AllErrors(Apply(c, l), ok)
  {
    if !Writing(l) {
      hide AllErrors, Apply, Enabled, Inv;
      OnlyWritesRecord(c, l);
      LessErrors(c, Apply(c, l), ok);
    } else {
      hide AllErrors, WriteGate, WriteDo, WriteRecord, Inv;
      match l
      case LWriteGate(w, ctxDone) => ErrorsGate(c, w, ctxDone, ok);
      case LWriteDo(w, failure, ctxDone) => ErrorsDo(c, w, failure, ctxDone, ok);
      case LWriteRecord(w) => ErrorsRecord(c, w, ok);
    }
  }

  // The same over a run.
  ghost predicate RunBrings(c: Conn, ls: seq<Label>, ok: Err -> bool)
    requires CanRun(c, ls)
    decreases |ls|
  {
    ls != [] ==> (forall err :: Brings(c, ls[0], err) ==> ok(err)) && RunBrings(Apply(c, ls[0]), ls[1..], ok)
  }

  lemma {:induction false} RunErrors(c: Conn, ls: seq<Label>, ok: Err -> bool)
    requires Inv(c) && AllErrors(c, ok) && CanRun(c, ls) && RunBrings(c, ls, ok)
    ensures AllErrors(RunFrom(c, ls), ok)
    decreases |ls|
  {
    hide AllErrors, Apply, Enabled, Brings, Inv;
    if ls != [] {
      StepKeepsInv(c, ls[0]);
      StepErrors(c, ls[0], ok);
      RunErrors(Apply(c, ls[0]), ls[1..], ok);
    }
  }

  // ---------------------------------------------------------------------------------------------
  // The theorems

  predicate NotRejected(e: Err) { !IsCode(e, REJECTED) }

  // The gate refuses with the error of a closing server, alone or wrapping what closed the connection.
  lemma ClosingIsNoRejection(s: InFlight, err: Err)
    requires ShutdownErr(s, ErrServerClosing) == Some(err)
    ensures NotRejected(err)
  {
    assert !IsCode(ErrServerClosing, REJECTED);
  }

  lemma {:induction false} NothingRejectedIsBrought(c: Conn, ls: seq<Label>)
    requires CanRun(c, ls)
    ensures RunBrings(c, ls, NotRejected)
    decreases |ls|
  {
    if ls != [] {
      forall err | Brings(c, ls[0], err) ensures NotRejected(err) {
        if ls[0].LWriteGate? { ClosingIsNoRejection(c.s, err); }
      }
      hide Apply, Enabled, Brings;
      NothingRejectedIsBrought(Apply(c, ls[0]), ls[1..]);
    }
  }

  // In every reachable state the recorded write error is not a rejection.
  lemma RejectionNeverBreaks(c: Conn)
    requires Reachable(c)
    ensures c.s.writeErr.Some? ==> !IsCode(c.s.writeErr.value, REJECTED)
  {
    hide Apply, Enabled, Inv;
    InitialInv();
    var ls: seq<Label> :| CanRun(Initial(), ls) && RunFrom(Initial(), ls) == c;
    NothingRejectedIsBrought(Initial(), ls);
    RunErrors(Initial(), ls, NotRejected);
  }

  // A write fails under a live context without the transport rejecting it, or meets the gate shut under
  // a live context.
  predicate Harsh(c: Conn, l: Label) {
    || (l.LWriteDo? && l.failure.Some? && !l.ctxDone && !IsCode(l.failure.value, REJECTED))
    || (l.LWriteGate? && !l.ctxDone && ShuttingDown(c.s))
  }

  // A run without such a step.
  ghost predicate Gentle(c: Conn, ls: seq<Label>)
    requires CanRun(c, ls)
    decreases |ls|
  {
    ls != [] ==>
      && !Harsh(c, ls[0])
      && Gentle(Apply(c, ls[0]), ls[1..])
  }

  predicate Never(e: Err) { false }

  lemma {:induction false} GentleBringsNothing(c: Conn, ls: seq<Label>)
    requires CanRun(c, ls) && Gentle(c, ls)
    ensures RunBrings(c, ls, Never)
    decreases |ls|
  {
    if ls != [] {
      hide Apply, Enabled;
      GentleBringsNothing(Apply(c, ls[0]), ls[1..]);
    }
  }

  ghost predicate Unbroken(c: Conn) { c.s.writeErr.None? && forall w :: !Recording(c, w) }

  lemma UnbrokenErrors(c: Conn)
    ensures AllErrors(c, Never) <==> Unbroken(c)
  {
    if AllErrors(c, Never) {
      forall w ensures !Recording(c, w) {}
    } else if c.s.writeErr.None? {
      if k :| 0 <= k < |c.calls| && c.calls[k].pc.Sending? && c.calls[k].pc.w.AtRecord? {
        assert Recording(c, FromCall(k));
      } else if n :| 0 <= n < |c.notes| && c.notes[n].pc.Publishing? && c.notes[n].pc.w.AtRecord? {
        assert Recording(c, FromNote(n));
      } else {
        var r :| 0 <= r < |c.reqs| && c.reqs[r].phase.Answering? && c.reqs[r].phase.w.AtRecord?;
        assert Recording(c, FromReq(r));
      }
    }
  }

  lemma AlikeUnbroken(c: Conn, d: Conn)
    requires RecordsAlike(c, d)
    ensures Unbroken(c) <==> Unbroken(d)
  {
    if !Unbroken(c) && c.s.writeErr.None? {
      var w :| Recording(c, w);
      assert Recording(d, w);
    }
    if !Unbroken(d) && d.s.writeErr.None? {
      var w :| Recording(d, w);
      assert Recording(c, w);
    }
  }

  // A write that is not recording its error moves on without touching the errors of the others.
  lemma BrokenElsewhere(c: Conn, d: Conn, w: Origin)
    requires Exists(c, w) && !Recording(c, w) && !Unbroken(c)
    requires (exists err :: d == AfterWrite(c, w, err)) || (exists pc :: d == AtWrite(c, w, pc))
    ensures !Unbroken(d)
  {
    if c.s.writeErr.None? {
      var v :| Recording(c, v);
      assert Recording(d, v);
    }
  }

  lemma SentAlike(c: Conn, w: Origin)
    requires Writes(c, w, AtWriter)
    ensures RecordsAlike(c, MarkSent(c, w)) && Exists(MarkSent(c, w), w) && !Recording(MarkSent(c, w), w)
  {}

  lemma FailedElsewhere(c: Conn, w: Origin, err: Err, ctxDone: bool)
    requires Exists(c, w) && !Recording(c, w) && !Unbroken(c)
    ensures !Unbroken(Failed(c, w, err, ctxDone))
  {
    hide Unbroken, AtWrite, AfterWrite;
    BrokenElsewhere(c, Failed(c, w, err, ctxDone), w);
  }

  lemma GateStaysBroken(c: Conn, w: Origin, ctxDone: bool)
    requires Writes(c, w, AtGate) && !Unbroken(c)
    ensures !Unbroken(WriteGate(c, w, ctxDone))
  {
    NothingRecords(c);
    EpilogueRecords(c, c);
    AlikeUnbroken(c, Epilogue(c));
    assert Exists(Epilogue(c), w) && !Recording(Epilogue(c), w);
    hide Unbroken, AtWrite, Failed, Epilogue;
    match ShutdownErr(c.s, ErrServerClosing)
    case Some(e) => FailedElsewhere(Epilogue(c), w, e, ctxDone);
    case None => BrokenElsewhere(Epilogue(c), WriteGate(c, w, ctxDone), w);
  }

  lemma DoStaysBroken(c: Conn, w: Origin, failure: Option<Err>, ctxDone: bool)
    requires Writes(c, w, AtWriter) && !Unbroken(c)
    ensures !Unbroken(WriteDo(c, w, failure, ctxDone))
  {
    SentAlike(c, w);
    AlikeUnbroken(c, MarkSent(c, w));
    hide Unbroken, MarkSent, Failed, AfterWrite;
    match failure
    case Some(e) => FailedElsewhere(c, w, e, ctxDone);
    case None => BrokenElsewhere(MarkSent(c, w), WriteDo(c, w, failure, ctxDone), w);
  }

  lemma RecordBreaks(c: Conn, w: Origin)
    requires Recording(c, w)
    ensures WriteRecord(c, w).s.writeErr.Some?
  {}

  lemma BrokenStays(c: Conn, l: Label)
    requires Inv(c) && Enabled(c, l) && !Unbroken(c)
    ensures !Unbroken(Apply(c, l))
  {
    if !Writing(l) {
      hide Unbroken, Apply, Enabled, Inv;
      OnlyWritesRecord(c, l);
      AlikeUnbroken(c, Apply(c, l));
    } else {
      hide WriteGate, WriteDo, WriteRecord, Inv;
      match l
      case LWriteGate(w, ctxDone) => GateStaysBroken(c, w, ctxDone);
      case LWriteDo(w, failure, ctxDone) => DoStaysBroken(c, w, failure, ctxDone);
      case LWriteRecord(w) => RecordBreaks(c, w);
    }
  }

  lemma {:induction false} BrokenRuns(c: Conn, ls: seq<Label>)
    requires Inv(c) && CanRun(c, ls) && !Unbroken(c)
    ensures !Unbroken(RunFrom(c, ls))
    decreases |ls|
  {
    hide Inv, Unbroken, Apply, Enabled;
    if ls != [] {
      StepKeepsInv(c, ls[0]);
      BrokenStays(c, ls[0]);
      BrokenRuns(Apply(c, ls[0]), ls[1..]);
    }
  }

  // Such a step leaves an error to record.
  lemma HarshBreaks(c: Conn, l: Label)
    requires Enabled(c, l) && Harsh(c, l)
    ensures !Unbroken(Apply(c, l))
  {
    match l
    case LWriteDo(w, failure, _) =>
      assert Recording(AtWrite(c, w, AtRecord(failure.value)), w);
    case LWriteGate(w, _) =>
      var e := ShutdownErr(c.s, ErrServerClosing).value;
      ClosingIsNoRejection(c.s, e);
      assert Recording(AtWrite(Epilogue(c), w, AtRecord(e)), w);
  }

  lemma {:induction false} HarshRunsBreak(c: Conn, ls: seq<Label>)
    requires Inv(c) && CanRun(c, ls) && !Gentle(c, ls)
    ensures !Unbroken(RunFrom(c, ls))
    decreases |ls|
  {
    hide Inv, Unbroken, Apply, Enabled;
    StepKeepsInv(c, ls[0]);
    if Harsh(c, ls[0]) {
      HarshBreaks(c, ls[0]);
      BrokenRuns(Apply(c, ls[0]), ls[1..]);
    } else {
      HarshRunsBreak(Apply(c, ls[0]), ls[1..]);
    }
  }

  // A run leaves the connection unbroken exactly when every failed write was cancelled or rejected and
  // no write under a live context met the gate shut.
  lemma UnbrokenExactly(c: Conn, ls: seq<Label>)
    requires Reachable(c) && Unbroken(c) && CanRun(c, ls)
    ensures Unbroken(RunFrom(c, ls)) <==> Gentle(c, ls)
  {
    hide AllErrors, Unbroken, Apply, Enabled, Inv;
    ReachableInv(c);
    if Gentle(c, ls) {
      UnbrokenErrors(c);
      GentleBringsNothing(c, ls);
      RunErrors(c, ls, Never);
      UnbrokenErrors(RunFrom(c, ls));
    } else {
      HarshRunsBreak(c, ls);
    }
  }
}
