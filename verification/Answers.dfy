// What calls are answered with: on the side that handles them, the response that the outcome demands; on
// the side that made them, the message that was read or the error that ended them.
module Answers {
  import opened Wrappers
  import opened Messages
  import opened Connection
  import opened ConnectionInvariant
  import opened ConnectionRequests
  import opened ConnectionRuns
  import opened ConnectionEvolution
  import opened ConnectionTheorems

  // ---------------------------------------------------------------------------------------------
  // Outcomes and responses

  // Every accepted call that has been processed has the response its outcome demands, and has none
  // exactly when the handler returned nothing but a value that cannot be marshaled.
  lemma EveryCallHasItsReply(c: Conn, r: nat)
    requires Reachable(c) && r < |c.reqs| && IsCall(c.reqs[r].msg) && !c.reqs[r].dup
    requires c.reqs[r].outcome.Some? && !c.reqs[r].phase.Resolving?
    ensures c.reqs[r].reply.None? <==> c.reqs[r].outcome.value == Outcome(Unmarshalable, None)
    ensures c.reqs[r].reply.Some? ==>
              Tells(c.reqs[r].outcome.value, c.reqs[r].msg.methodName, c.reqs[r].reply.value) && c.reqs[r].reply.value.id == c.reqs[r].msg.id
  {
    ReachableInv(c);
    ReqIsOk(c, r);
    hide Inv;
    var q := c.reqs[r];
    SettleTells(q.id, NameOf(q.msg), q.outcome.value);
  }

  // ---------------------------------------------------------------------------------------------
  // What is written

  lemma EndsAlike()
    ensures forall c: Conn :: Epilogue(c).sent == c.sent && Epilogue(c).calls == c.calls
  {}

  // What the activity that reached the Writer has to say: its own call, its own notification, or the
  // reply to its own request.
  predicate Says(c: Conn, w: Origin, m: Message) {
    match w
    case FromCall(k) => k < |c.calls| && m == Request(IntID(k + 1), c.calls[k].methodName, c.calls[k].params)
    case FromNote(n) => n < |c.notes| && m == Request(NoID, c.notes[n].methodName, c.notes[n].params)
    case FromReq(r) => r < |c.reqs| && c.reqs[r].reply == Some(m)
  }

  lemma WriterWrites(c: Conn, w: Origin, failure: Option<Err>, ctxDone: bool)
    requires Writes(c, w, AtWriter)
    ensures failure.Some? ==> WriteDo(c, w, failure, ctxDone).sent == c.sent
    ensures failure.None? ==> exists m :: Says(c, w, m) && WriteDo(c, w, failure, ctxDone).sent == c.sent + [Sent(m, w)]
  {
    assert Says(c, w, Outgoing(c, w));
  }

  lemma UsersWriteNothing(c: Conn, l: Label)
    requires Enabled(c, l)
    requires l.LCallStart? || l.LCallRegister? || l.LCallRefuse? || l.LCallRetire? || l.LUserRetire? || l.LNotifyStart?
             || l.LNotifyAdmit? || l.LNotifyFinish? || l.LCancelLookup? || l.LCancelFire? || l.LClose?
    ensures Apply(c, l).sent == c.sent
  {
    EndsAlike();
    hide Epilogue, ShutdownErr;
  }

  lemma GateWritesNothing(c: Conn, l: Label)
    requires Enabled(c, l) && (l.LWriteGate? || l.LWriteRecord?)
    ensures Apply(c, l).sent == c.sent
  {
    EndsAlike();
    hide Epilogue, ShutdownErr;
  }

  lemma ReaderWritesNothing(c: Conn, l: Label)
    requires Enabled(c, l)
    requires l.LStart? || l.LReadRequest? || l.LReadResponse? || l.LReadFail? || l.LDeliver? || l.LReaderExit?
             || l.LAccept? || l.LPreempt? || l.LEnqueue?
    ensures Apply(c, l).sent == c.sent
  {
    EndsAlike();
    hide Epilogue, ShutdownErr, Conforms, AcceptedReq;
  }

  lemma HandlersWriteNothing(c: Conn, l: Label)
    requires Enabled(c, l)
    requires l.LDequeue? || l.LCheckContext? || l.LStaleResult? || l.LResume? || l.LAsync? || l.LHandleReturn?
             || l.LProcess? || l.LFinish? || l.LRelease?
    ensures Apply(c, l).sent == c.sent
  {
    EndsAlike();
    hide Epilogue, Settle, Conforms;
  }

  // A message reaches the stream exactly by a write that succeeds, and it is what its writer has to say.
  lemma WrittenExactly(c: Conn, l: Label)
    requires Enabled(c, l)
    ensures if l.LWriteDo? && l.failure.None? then exists m :: Says(c, l.w, m) && Apply(c, l).sent == c.sent + [Sent(m, l.w)]
            else Apply(c, l).sent == c.sent
  {
    hide Apply, Enabled;
    match l
    case LCallStart(_, _, _) => UsersWriteNothing(c, l);
    case LCallRegister(_) => UsersWriteNothing(c, l);
    case LCallRefuse(_) => UsersWriteNothing(c, l);
    case LCallRetire(_) => UsersWriteNothing(c, l);
    case LUserRetire(_, _) => UsersWriteNothing(c, l);
    case LNotifyStart(_, _) => UsersWriteNothing(c, l);
    case LNotifyAdmit(_, _) => UsersWriteNothing(c, l);
    case LNotifyFinish(_) => UsersWriteNothing(c, l);
    case LCancelLookup(_) => UsersWriteNothing(c, l);
    case LCancelFire(_) => UsersWriteNothing(c, l);
    case LClose => UsersWriteNothing(c, l);
    case LWriteGate(_, _) => GateWritesNothing(c, l);
    case LWriteRecord(_) => GateWritesNothing(c, l);
    case LWriteDo(w, failure, ctxDone) => OnWriter(c, w, failure, ctxDone);
    case LDequeue => HandlersWriteNothing(c, l);
    case LCheckContext => HandlersWriteNothing(c, l);
    case LStaleResult => HandlersWriteNothing(c, l);
    case LResume => HandlersWriteNothing(c, l);
    case LAsync(_) => HandlersWriteNothing(c, l);
    case LHandleReturn(_, _) => HandlersWriteNothing(c, l);
    case LProcess(_) => HandlersWriteNothing(c, l);
    case LFinish(_) => HandlersWriteNothing(c, l);
    case LRelease(_) => HandlersWriteNothing(c, l);
    case _ => ReaderWritesNothing(c, l);
  }

  lemma OnWriter(c: Conn, w: Origin, failure: Option<Err>, ctxDone: bool)
    requires Enabled(c, LWriteDo(w, failure, ctxDone))
    ensures var d := Apply(c, LWriteDo(w, failure, ctxDone));
            if failure.None? then exists m :: Says(c, w, m) && d.sent == c.sent + [Sent(m, w)] else d.sent == c.sent
  {
    WriterWrites(c, w, failure, ctxDone);
    hide WriteDo, Says;
  }

  // ---------------------------------------------------------------------------------------------
  // What retires a call

  // The answer a call is given when no response will come: no result, and this error.
  predicate Ends(a: Answer, k: nat, err: Err) { a == Answer(Response(IntID(k + 1), None, Some(err)), None) }

  predicate Tracks(c: Conn, k: nat) { CallID(k) in c.s.outgoingCalls && c.s.outgoingCalls[CallID(k)] == k }

  // The step answers call k, which had no answer.
  predicate Answered(c: Conn, l: Label, k: nat)
    requires Enabled(c, l)
  {
    k < |Apply(c, l).calls| && Apply(c, l).calls[k].answer.Some? && (k < |c.calls| ==> c.calls[k].answer.None?)
  }

  // The six ways a call comes to be answered, and the answer each gives: its parameters did not marshal;
  // it was refused in a shutdown; it could not be written; its user retired it; a response with its
  // identifier was read; the reader ended.
  ghost predicate Cause(c: Conn, l: Label, k: nat, a: Answer) {
    match l
    case LCallStart(_, _, failure) => k == |c.calls| && failure.Some? && exists e: Err :: Ends(a, k, e) && e.Wrap? && e.inner == failure.value
    case LCallRefuse(i) => i == k && exists e :: Ends(a, k, e) && IsOrWraps(e, ErrClientClosing)
    case LCallRetire(i) => i == k < |c.calls| && c.calls[k].pc.Retiring? && Ends(a, k, c.calls[k].pc.err) && Tracks(c, k)
    case LUserRetire(i, err) => i == k && Ends(a, k, err) && Tracks(c, k)
    case LDeliver =>
      && c.reader.Delivering? && c.reader.at < |c.received| && Tracks(c, k)
      && a == Answer(c.received[c.reader.at], Some(c.reader.at)) && a.msg.Response? && a.msg.id == IntID(k + 1)
    case LReaderExit => c.reader.ReadFailed? && Ends(a, k, c.reader.err) && Tracks(c, k)
    case _ => false
  }

  lemma StartAnswers(c: Conn, name: string, params: Raw, failure: Option<Err>, k: nat)
    requires Answered(c, LCallStart(name, params, failure), k)
    ensures Cause(c, LCallStart(name, params, failure), k, CallStart(c, name, params, failure).calls[k].answer.value)
  {}

  lemma RefuseAnswers(c: Conn, i: nat, k: nat)
    requires Inv(c) && Enabled(c, LCallRefuse(i)) && Answered(c, LCallRefuse(i), k)
    ensures Cause(c, LCallRefuse(i), k, CallRefuse(c, i).calls[k].answer.value)
  {
    CallIsOk(c, i);
    hide Inv;
  }

  lemma CallIsOk(c: Conn, k: nat)
    requires Inv(c) && k < |c.calls|
    ensures CallOk(c.calls[k], k, c.s.outgoingCalls)
    ensures CallID(k) in c.s.outgoingCalls ==> Tracks(c, k) && c.calls[k].answer.None? && c.calls[k].registered
  {
    hide NotesInv, ReqsInv, HostsInv, CountInv, DispatchInv, BrokenInv, SentInv, ReceivedInv, ReaderInv, DoneInv;
  }

  lemma RetireAnswers(c: Conn, l: Label, k: nat)
    requires Enabled(c, l) && (l.LCallRetire? || l.LUserRetire?) && Answered(c, l, k)
    ensures Cause(c, l, k, Apply(c, l).calls[k].answer.value)
  {
    EndsAlike();
    hide Epilogue;
  }

  lemma DeliverAnswers(c: Conn, k: nat)
    requires Inv(c) && Enabled(c, LDeliver) && Answered(c, LDeliver, k)
    ensures Cause(c, LDeliver, k, Deliver(c).calls[k].answer.value)
  {
    DeliveredFacts(c);
    hide Inv;
    EndsAlike();
    hide Epilogue;
  }

  lemma DeliveredFacts(c: Conn)
    requires Inv(c) && c.reader.Delivering?
    ensures c.reader.at < |c.received| && c.received[c.reader.at].Response?
    ensures forall id :: id in c.s.outgoingCalls ==> c.s.outgoingCalls[id] < |c.calls| && id == CallID(c.s.outgoingCalls[id])
  {
    hide NotesInv, ReqsInv, HostsInv, CountInv, DispatchInv, BrokenInv, SentInv, ReceivedInv, DoneInv;
  }

  lemma ExitAnswers(c: Conn, k: nat)
    requires Inv(c) && Enabled(c, LReaderExit) && Answered(c, LReaderExit, k)
    ensures Cause(c, LReaderExit, k, ReaderExit(c).calls[k].answer.value)
  {
    TrackedByOwn(c, k);
    hide Inv;
    EndsAlike();
    hide Epilogue;
  }

  lemma TrackedByOwn(c: Conn, k: nat)
    requires Inv(c)
    ensures k in c.s.outgoingCalls.Values <==> Tracks(c, k)
  {
    hide NotesInv, ReqsInv, HostsInv, CountInv, DispatchInv, BrokenInv, SentInv, ReceivedInv, ReaderInv, DoneInv;
    if k in c.s.outgoingCalls.Values {
      var id :| id in c.s.outgoingCalls && c.s.outgoingCalls[id] == k;
    }
  }

  // Nothing else answers a call.
  predicate Ending(l: Label) {
    l.LCallStart? || l.LCallRefuse? || l.LCallRetire? || l.LUserRetire? || l.LDeliver? || l.LReaderExit?
  }

  lemma UsersAnswerNothing(c: Conn, l: Label, k: nat)
    requires Enabled(c, l)
    requires l.LCallRegister? || l.LNotifyStart? || l.LNotifyAdmit? || l.LNotifyFinish? || l.LCancelLookup? || l.LCancelFire? || l.LClose?
    ensures !Answered(c, l, k)
  {
    EndsAlike();
    hide Epilogue, ShutdownErr;
  }

  lemma WritesAnswerNothing(c: Conn, l: Label, k: nat)
    requires Enabled(c, l) && (l.LWriteGate? || l.LWriteDo? || l.LWriteRecord?)
    ensures !Answered(c, l, k)
  {
    EndsAlike();
    hide Epilogue, ShutdownErr;
  }

  lemma ReaderAnswersNothing(c: Conn, l: Label, k: nat)
    requires Enabled(c, l)
    requires l.LStart? || l.LReadRequest? || l.LReadResponse? || l.LReadFail? || l.LAccept? || l.LPreempt? || l.LEnqueue?
    ensures !Answered(c, l, k)
  {
    EndsAlike();
    hide Epilogue, ShutdownErr, Conforms, AcceptedReq;
  }

  lemma HandlersAnswerNothing(c: Conn, l: Label, k: nat)
    requires Enabled(c, l)
    requires l.LDequeue? || l.LCheckContext? || l.LStaleResult? || l.LResume? || l.LAsync? || l.LHandleReturn?
             || l.LProcess? || l.LFinish? || l.LRelease?
    ensures !Answered(c, l, k)
  {
    EndsAlike();
    hide Epilogue, Settle, Conforms;
  }

  lemma OnlyRetiringAnswers(c: Conn, l: Label, k: nat)
    requires Enabled(c, l) && !Ending(l)
    ensures !Answered(c, l, k)
  {
    hide Apply, Enabled, Answered;
    match l
    case LCallRegister(_) => UsersAnswerNothing(c, l, k);
    case LNotifyStart(_, _) => UsersAnswerNothing(c, l, k);
    case LNotifyAdmit(_, _) => UsersAnswerNothing(c, l, k);
    case LNotifyFinish(_) => UsersAnswerNothing(c, l, k);
    case LCancelLookup(_) => UsersAnswerNothing(c, l, k);
    case LCancelFire(_) => UsersAnswerNothing(c, l, k);
    case LClose => UsersAnswerNothing(c, l, k);
    case LWriteGate(_, _) => WritesAnswerNothing(c, l, k);
    case LWriteDo(_, _, _) => WritesAnswerNothing(c, l, k);
    case LWriteRecord(_) => WritesAnswerNothing(c, l, k);
    case LDequeue => HandlersAnswerNothing(c, l, k);
    case LCheckContext => HandlersAnswerNothing(c, l, k);
    case LStaleResult => HandlersAnswerNothing(c, l, k);
    case LResume => HandlersAnswerNothing(c, l, k);
    case LAsync(_) => HandlersAnswerNothing(c, l, k);
    case LHandleReturn(_, _) => HandlersAnswerNothing(c, l, k);
    case LProcess(_) => HandlersAnswerNothing(c, l, k);
    case LFinish(_) => HandlersAnswerNothing(c, l, k);
    case LRelease(_) => HandlersAnswerNothing(c, l, k);
    case _ => ReaderAnswersNothing(c, l, k);
  }

  // Every answer has one of the six causes, and is the one that cause gives.
  lemma AnswerHasCause(c: Conn, l: Label, k: nat)
    requires Inv(c) && Enabled(c, l) && Answered(c, l, k)
    ensures Cause(c, l, k, Apply(c, l).calls[k].answer.value)
  {
    hide Inv, Cause, CallRefuse, CallStart, Deliver, ReaderExit;
    if !Ending(l) {
      OnlyRetiringAnswers(c, l, k);
    }
    match l
    case LCallStart(name, params, failure) => StartAnswers(c, name, params, failure, k);
    case LCallRefuse(i) => RefuseAnswers(c, i, k);
    case LCallRetire(_) => RetireAnswers(c, l, k);
    case LUserRetire(_, _) => RetireAnswers(c, l, k);
    case LDeliver => DeliverAnswers(c, k);
    case LReaderExit => ExitAnswers(c, k);
    case _ =>
  }

  // And where such a cause strikes, the call is answered: a step answers a call exactly when it refuses
  // it, or retires it, delivers to it or ends the reader while the call is tracked.
  predicate Strikes(c: Conn, l: Label, k: nat) {
    match l
    case LCallRefuse(i) => i == k
    case LCallRetire(i) => i == k && Tracks(c, k)
    case LUserRetire(i, _) => i == k && Tracks(c, k)
    case LDeliver => c.reader.Delivering? && c.reader.at < |c.received| && c.received[c.reader.at].id == CallID(k) && Tracks(c, k)
    case LReaderExit => Tracks(c, k)
    case _ => false
  }

  lemma RefusedIsAnswered(c: Conn, k: nat)
    requires Inv(c) && Enabled(c, LCallRefuse(k))
    ensures Answered(c, LCallRefuse(k), k)
  {
    CallIsOk(c, k);
    hide Inv;
  }

  lemma RetiredIsAnswered(c: Conn, l: Label, k: nat)
    requires Enabled(c, l) && (l.LCallRetire? || l.LUserRetire?) && k < |c.calls| && c.calls[k].answer.None? && Strikes(c, l, k)
    ensures Answered(c, l, k)
  {
    EndsAlike();
    hide Epilogue;
  }

  lemma DeliveredIsAnswered(c: Conn, k: nat)
    requires Enabled(c, LDeliver) && k < |c.calls| && c.calls[k].answer.None? && Strikes(c, LDeliver, k)
    ensures Answered(c, LDeliver, k)
  {
    EndsAlike();
    hide Epilogue;
  }

  lemma ExitedIsAnswered(c: Conn, k: nat)
    requires Inv(c) && Enabled(c, LReaderExit) && k < |c.calls| && c.calls[k].answer.None? && Strikes(c, LReaderExit, k)
    ensures Answered(c, LReaderExit, k)
  {
    TrackedByOwn(c, k);
    hide Inv;
    EndsAlike();
    hide Epilogue;
  }

  lemma AnswersExactly(c: Conn, l: Label, k: nat)
    requires Reachable(c) && Enabled(c, l) && k < |c.calls| && c.calls[k].answer.None?
    ensures Answered(c, l, k) <==> Strikes(c, l, k)
    ensures Answered(c, l, k) ==> Cause(c, l, k, Apply(c, l).calls[k].answer.value)
  {
    hide Inv, Apply, Enabled, Cause, Strikes;
    ReachableInv(c);
    if Answered(c, l, k) {
      AnswerHasCause(c, l, k);
      CauseStrikes(c, l, k, Apply(c, l).calls[k].answer.value);
    }
    if Strikes(c, l, k) {
      StruckIsAnswered(c, l, k);
    }
  }

  lemma CauseStrikes(c: Conn, l: Label, k: nat, a: Answer)
    requires k < |c.calls| && Cause(c, l, k, a)
    ensures Strikes(c, l, k)
  {}

  lemma StruckIsAnswered(c: Conn, l: Label, k: nat)
    requires Inv(c) && Enabled(c, l) && k < |c.calls| && c.calls[k].answer.None? && Strikes(c, l, k)
    ensures Answered(c, l, k)
  {
    hide Inv, Apply, Enabled, Answered;
    match l
    case LCallRefuse(_) => RefusedIsAnswered(c, k);
    case LCallRetire(_) => RetiredIsAnswered(c, l, k);
    case LUserRetire(_, _) => RetiredIsAnswered(c, l, k);
    case LDeliver => DeliveredIsAnswered(c, k);
    case LReaderExit => ExitedIsAnswered(c, k);
  }

  // A call is answered with an error unless its answer was read from the stream, and a call that has
  // returned without an answer has been written.
  lemma LocalAnswersAreErrors(c: Conn, k: nat)
    requires Reachable(c) && k < |c.calls|
    ensures c.calls[k].answer.Some? && c.calls[k].answer.value.at.None? ==> exists err :: Ends(c.calls[k].answer.value, k, err)
    ensures c.calls[k].pc.Returned? && c.calls[k].answer.None? ==>
              exists i :: 0 <= i < |c.sent| && c.sent[i] == Sent(Request(IntID(k + 1), c.calls[k].methodName, c.calls[k].params), FromCall(k))
  {
    ReachableInv(c);
    CallIsOk(c, k);
    if c.calls[k].answer.Some? && c.calls[k].answer.value.at.None? {
      hide Inv;
      assert Ends(c.calls[k].answer.value, k, c.calls[k].answer.value.msg.error.value);
    }
    if c.calls[k].pc.Returned? && c.calls[k].answer.None? {
      WrittenAt(c, k);
    }
  }

  lemma WrittenAt(c: Conn, k: nat)
    requires Inv(c) && k < |c.calls| && c.calls[k].sentAt.Some?
    ensures var i := c.calls[k].sentAt.value;
            i < |c.sent| && c.sent[i] == Sent(Request(IntID(k + 1), c.calls[k].methodName, c.calls[k].params), FromCall(k))
  {
    hide NotesInv, ReqsInv, HostsInv, CountInv, DispatchInv, BrokenInv, CallsInv, ReceivedInv, ReaderInv, DoneInv;
    SentByItsWriter(c, c.calls[k].sentAt.value);
  }

  // ---------------------------------------------------------------------------------------------
  // The error with which write fails

  // The call is on its way to being retired with this error.
  predicate FailsWith(c: Conn, k: nat, err: Err) {
    k < |c.calls| && (c.calls[k].pc == Retiring(err) || c.calls[k].pc == Sending(AtRecord(err)))
  }

  // The error of the shutdown, or of the Writer.
  predicate Fault(c: Conn, l: Label, k: nat, err: Err) {
    match l
    case LWriteGate(w, _) => w == FromCall(k) && ShutdownErr(c.s, ErrServerClosing) == Some(err)
    case LWriteDo(w, failure, _) => w == FromCall(k) && failure == Some(err)
    case _ => false
  }

  lemma WriteFault(c: Conn, l: Label, k: nat, err: Err)
    requires Enabled(c, l) && (l.LWriteGate? || l.LWriteDo? || l.LWriteRecord?)
    ensures FailsWith(Apply(c, l), k, err) && !FailsWith(c, k, err) ==> Fault(c, l, k, err)
    ensures Fault(c, l, k, err) ==> FailsWith(Apply(c, l), k, err)
  {
    EndsAlike();
    hide Epilogue, ShutdownErr, IsCode;
  }

  lemma ReaderFaultsNothing(c: Conn, l: Label, k: nat, err: Err)
    requires Inv(c) && Enabled(c, l)
    requires l.LStart? || l.LReadRequest? || l.LReadResponse? || l.LReadFail? || l.LAccept? || l.LPreempt? || l.LEnqueue? || l.LDeliver? || l.LReaderExit?
    ensures FailsWith(Apply(c, l), k, err) ==> FailsWith(c, k, err)
  {
    hide Inv;
    EndsAlike();
    hide Epilogue, ShutdownErr, Conforms, AcceptedReq;
  }

  lemma UsersFaultNothing(c: Conn, l: Label, k: nat, err: Err)
    requires Enabled(c, l)
    requires l.LNotifyStart? || l.LNotifyAdmit? || l.LNotifyFinish? || l.LCancelLookup? || l.LCancelFire? || l.LClose?
    ensures FailsWith(Apply(c, l), k, err) ==> FailsWith(c, k, err)
  {
    EndsAlike();
    hide Epilogue, ShutdownErr;
  }

  lemma CallsFaultNothing(c: Conn, l: Label, k: nat, err: Err)
    requires Enabled(c, l)
    requires l.LCallStart? || l.LCallRegister? || l.LCallRefuse? || l.LCallRetire? || l.LUserRetire?
    ensures FailsWith(Apply(c, l), k, err) ==> FailsWith(c, k, err)
  {
    EndsAlike();
    hide Epilogue, ShutdownErr;
  }

  lemma HandlersFaultNothing(c: Conn, l: Label, k: nat, err: Err)
    requires Enabled(c, l)
    requires l.LDequeue? || l.LCheckContext? || l.LStaleResult? || l.LResume? || l.LAsync? || l.LHandleReturn?
             || l.LProcess? || l.LFinish? || l.LRelease?
    ensures FailsWith(Apply(c, l), k, err) ==> FailsWith(c, k, err)
  {
    EndsAlike();
    hide Epilogue, Settle, Conforms;
  }

  // A call comes to be retired for a failed write exactly with the error its write failed with: the one
  // that the gate gives in a shutdown, or the Writer's own.
  lemma FaultsExactly(c: Conn, l: Label, k: nat, err: Err)
    requires Reachable(c) && Enabled(c, l)
    ensures FailsWith(Apply(c, l), k, err) ==> FailsWith(c, k, err) || Fault(c, l, k, err)
    ensures Fault(c, l, k, err) ==> FailsWith(Apply(c, l), k, err)
  {
    ReachableInv(c);
    hide Inv, Apply, Enabled, FailsWith;
    match l
    case LWriteGate(_, _) => WriteFault(c, l, k, err);
    case LWriteRecord(_) => WriteFault(c, l, k, err);
    case LWriteDo(_, _, _) => WriteFault(c, l, k, err);
    case LCallStart(_, _, _) => CallsFaultNothing(c, l, k, err);
    case LCallRegister(_) => CallsFaultNothing(c, l, k, err);
    case LCallRefuse(_) => CallsFaultNothing(c, l, k, err);
    case LCallRetire(_) => CallsFaultNothing(c, l, k, err);
    case LUserRetire(_, _) => CallsFaultNothing(c, l, k, err);
    case LNotifyStart(_, _) => UsersFaultNothing(c, l, k, err);
    case LNotifyAdmit(_, _) => UsersFaultNothing(c, l, k, err);
    case LNotifyFinish(_) => UsersFaultNothing(c, l, k, err);
    case LCancelLookup(_) => UsersFaultNothing(c, l, k, err);
    case LCancelFire(_) => UsersFaultNothing(c, l, k, err);
    case LClose => UsersFaultNothing(c, l, k, err);
    case LDequeue => HandlersFaultNothing(c, l, k, err);
    case LCheckContext => HandlersFaultNothing(c, l, k, err);
    case LStaleResult => HandlersFaultNothing(c, l, k, err);
    case LResume => HandlersFaultNothing(c, l, k, err);
    case LAsync(_) => HandlersFaultNothing(c, l, k, err);
    case LHandleReturn(_, _) => HandlersFaultNothing(c, l, k, err);
    case LProcess(_) => HandlersFaultNothing(c, l, k, err);
    case LFinish(_) => HandlersFaultNothing(c, l, k, err);
    case LRelease(_) => HandlersFaultNothing(c, l, k, err);
    case _ => ReaderFaultsNothing(c, l, k, err);
  }

  // ---------------------------------------------------------------------------------------------
  // Over runs

  // Whatever answer a call has at the end of a run, some step of the run had one of the six causes to
  // give it that very answer.
  lemma {:induction false} EveryAnswerHasACause(c: Conn, ls: seq<Label>, k: nat) returns (i: nat, at: Conn)
    requires Inv(c) && CanRun(c, ls) && k < |RunFrom(c, ls).calls| && RunFrom(c, ls).calls[k].answer.Some?
    requires k < |c.calls| ==> c.calls[k].answer.None?
    ensures i < |ls| && CanRun(c, ls[..i]) && at == RunFrom(c, ls[..i]) && Enabled(at, ls[i])
    ensures Cause(at, ls[i], k, RunFrom(c, ls).calls[k].answer.value)
    decreases |ls|
  {
    hide Inv, Apply, Enabled, Cause;
    var l, d := ls[0], Apply(c, ls[0]);
    StepKeepsInv(c, l);
    if k < |d.calls| && d.calls[k].answer.Some? {
      i, at := 0, c;
      assert Answered(c, l, k);
      AnswerHasCause(c, l, k);
      RunEvolves(d, ls[1..]);
    } else {
      var j;
      j, at := EveryAnswerHasACause(d, ls[1..], k);
      i := j + 1;
      assert ls[..i][1..] == ls[1..][..j];
    }
  }
}
