// Runs of a connection, and what holds over all of them.
module ConnectionRuns {
  import opened Wrappers
  import opened Messages
  import opened Connection
  import opened ConnectionInvariant
  import opened ConnectionSteps
  import opened ConnectionRequests
  import opened ConnectionWrites

  lemma KeepOutgoing(c: Conn, l: Label)
    requires Inv(c) && Enabled(c, l)
    requires l.LCallStart? || l.LCallRegister? || l.LCallRefuse? || l.LCallRetire? || l.LUserRetire?
             || l.LNotifyStart? || l.LNotifyAdmit? || l.LNotifyFinish? || l.LWriteGate? || l.LWriteDo? || l.LWriteRecord?
    ensures Inv(Apply(c, l))
  {
    hide Inv, CallRegister, CallRetire, RetireTracked, NotifyAdmit, NotifyFinish, WriteGate, WriteDo, WriteRecord;
    match l
    case LCallStart(name, params, failure) => KeepCallStart(c, name, params, failure);
    case LCallRegister(k) => KeepCallRegister(c, k);
    case LCallRefuse(k) => KeepCallRefuse(c, k);
    case LCallRetire(k) => KeepCallRetire(c, k);
    case LUserRetire(k, err) => KeepUserRetire(c, k, err);
    case LNotifyStart(name, params) => KeepNotifyStart(c, name, params);
    case LNotifyAdmit(n, marshals) => KeepNotifyAdmit(c, n, marshals);
    case LNotifyFinish(n) => KeepNotifyFinish(c, n);
    case LWriteGate(w, ctxDone) => KeepWriteGate(c, w, ctxDone);
    case LWriteDo(w, failure, ctxDone) => KeepWriteDo(c, w, failure, ctxDone);
    case LWriteRecord(w) => KeepWriteRecord(c, w);
  }

  lemma KeepReading(c: Conn, l: Label)
    requires Inv(c) && Enabled(c, l)
    requires l.LStart? || l.LReadRequest? || l.LReadResponse? || l.LReadFail? || l.LDeliver? || l.LReaderExit?
             || l.LAccept? || l.LPreempt? || l.LEnqueue? || l.LCancelLookup? || l.LCancelFire? || l.LClose?
    ensures Inv(Apply(c, l))
  {
    hide Inv, Accept, Enqueue, Preempt, Deliver, ReaderExit, Start, CancelLookup, CancelFire, Close;
    match l
    case LStart => KeepStart(c);
    case LReadRequest(msg) => KeepReadRequest(c, msg);
    case LReadResponse(msg) => KeepReadResponse(c, msg);
    case LReadFail(err) => KeepReadFail(c, err);
    case LDeliver => KeepDeliver(c);
    case LReaderExit => KeepReaderExit(c);
    case LAccept => KeepAccept(c);
    case LPreempt(decision) => KeepPreempt(c, decision);
    case LEnqueue => KeepEnqueue(c);
    case LCancelLookup(id) => KeepCancelLookup(c, id);
    case LCancelFire(r) => KeepCancelFire(c, r);
    case LClose => KeepClose(c);
  }

  lemma KeepHandling(c: Conn, l: Label)
    requires Inv(c) && Enabled(c, l)
    requires l.LDequeue? || l.LCheckContext? || l.LStaleResult? || l.LResume? || l.LAsync? || l.LHandleReturn?
             || l.LProcess? || l.LFinish? || l.LRelease?
    ensures Inv(Apply(c, l))
  {
    hide Inv, Dequeue, CheckContext, StaleResult, Async, HandleReturn, Process, Finish, Release;
    match l
    case LDequeue => KeepDequeue(c);
    case LCheckContext => KeepCheckContext(c);
    case LStaleResult => KeepStaleResult(c);
    case LResume => KeepResume(c);
    case LAsync(r) => KeepAsync(c, r);
    case LHandleReturn(r, o) => KeepHandleReturn(c, r, o);
    case LProcess(r) => KeepProcess(c, r);
    case LFinish(r) => KeepFinish(c, r);
    case LRelease(r) => KeepRelease(c, r);
  }

  // Every step of every goroutine keeps the invariant.
  lemma StepKeepsInv(c: Conn, l: Label)
    requires Inv(c) && Enabled(c, l)
    ensures Inv(Apply(c, l))
  {
    hide Inv, Apply, Enabled;
    match l
    case LCallStart(_, _, _) => KeepOutgoing(c, l);
    case LCallRegister(_) => KeepOutgoing(c, l);
    case LCallRefuse(_) => KeepOutgoing(c, l);
    case LCallRetire(_) => KeepOutgoing(c, l);
    case LUserRetire(_, _) => KeepOutgoing(c, l);
    case LNotifyStart(_, _) => KeepOutgoing(c, l);
    case LNotifyAdmit(_, _) => KeepOutgoing(c, l);
    case LNotifyFinish(_) => KeepOutgoing(c, l);
    case LWriteGate(_, _) => KeepOutgoing(c, l);
    case LWriteDo(_, _, _) => KeepOutgoing(c, l);
    case LWriteRecord(_) => KeepOutgoing(c, l);
    case LDequeue => KeepHandling(c, l);
    case LCheckContext => KeepHandling(c, l);
    case LStaleResult => KeepHandling(c, l);
    case LResume => KeepHandling(c, l);
    case LAsync(_) => KeepHandling(c, l);
    case LHandleReturn(_, _) => KeepHandling(c, l);
    case LProcess(_) => KeepHandling(c, l);
    case LFinish(_) => KeepHandling(c, l);
    case LRelease(_) => KeepHandling(c, l);
    case _ => KeepReading(c, l);
  }

  // A run: the labels taken from a state, in order.
  predicate CanRun(c: Conn, ls: seq<Label>)
    decreases |ls|
  {
    ls == [] || (Enabled(c, ls[0]) && CanRun(Apply(c, ls[0]), ls[1..]))
  }

  function RunFrom(c: Conn, ls: seq<Label>): Conn
    requires CanRun(c, ls)
    decreases |ls|
  {
    if ls == [] then c else RunFrom(Apply(c, ls[0]), ls[1..])
  }

  lemma {:induction false} RunKeepsInv(c: Conn, ls: seq<Label>)
    requires Inv(c) && CanRun(c, ls)
    ensures Inv(RunFrom(c, ls))
    decreases |ls|
  {
    hide Inv, Apply, Enabled;
    if ls != [] {
      StepKeepsInv(c, ls[0]);
      RunKeepsInv(Apply(c, ls[0]), ls[1..]);
    }
  }

  ghost predicate Reachable(c: Conn) {
    exists ls: seq<Label> :: CanRun(Initial(), ls) && RunFrom(Initial(), ls) == c
  }

  lemma ReachableInv(c: Conn)
    requires Reachable(c)
    ensures Inv(c)
  {
    hide Inv, Apply, Enabled;
    var ls :| CanRun(Initial(), ls) && RunFrom(Initial(), ls) == c;
    InitialInv();
    RunKeepsInv(Initial(), ls);
  }

  // ---------------------------------------------------------------------------------------------
  // Labels of the runs that are shown, one by one

  lemma OnStart(c: Conn)
    requires c.reader.NotStarted?
    ensures Enabled(c, LStart) && Apply(c, LStart) == Start(c)
  {}

  lemma OnCallStart(c: Conn, name: string, failure: Option<Err>)
    ensures Enabled(c, LCallStart(name, None, failure)) && Apply(c, LCallStart(name, None, failure)) == CallStart(c, name, None, failure)
  {}

  lemma OnCallRegister(c: Conn, k: nat)
    requires k < |c.calls| && c.calls[k].pc.Registering?
    ensures Enabled(c, LCallRegister(k)) && Apply(c, LCallRegister(k)) == CallRegister(c, k)
  {}

  lemma OnWriteGate(c: Conn, w: Origin)
    requires Writes(c, w, AtGate) && Exists(c, w)
    ensures Enabled(c, LWriteGate(w, false)) && Apply(c, LWriteGate(w, false)) == WriteGate(c, w, false)
  {}

  lemma OnWriteDo(c: Conn, w: Origin)
    requires Writes(c, w, AtWriter)
    ensures Enabled(c, LWriteDo(w, None, false)) && Apply(c, LWriteDo(w, None, false)) == WriteDo(c, w, None, false)
  {}

  lemma OnReadRequest(c: Conn, msg: Message)
    requires c.reader.ReadLoop? && msg.Request?
    ensures Enabled(c, LReadRequest(msg)) && Apply(c, LReadRequest(msg)) == ReadRequest(c, msg)
  {}

  lemma OnReadResponse(c: Conn, msg: Message)
    requires c.reader.ReadLoop? && msg.Response?
    ensures Enabled(c, LReadResponse(msg)) && Apply(c, LReadResponse(msg)) == ReadResponse(c, msg)
  {}

  lemma OnDeliver(c: Conn)
    requires c.reader.Delivering? && c.reader.at < |c.received| && TracksKnown(c)
    ensures Enabled(c, LDeliver) && Apply(c, LDeliver) == Deliver(c)
  {}

  lemma OnAccept(c: Conn)
    requires AcceptingAt(c, Arrived)
    ensures Enabled(c, LAccept) && Apply(c, LAccept) == Accept(c)
  {}

  lemma OnPreempt(c: Conn, d: Option<Outcome>)
    requires AcceptingAt(c, Preempting)
    ensures Enabled(c, LPreempt(d)) && Apply(c, LPreempt(d)) == Preempt(c, d)
  {}

  lemma OnProcess(c: Conn, r: nat)
    requires ReqAt(c, r, Resolving) && c.reqs[r].outcome.Some?
    ensures Enabled(c, LProcess(r)) && Apply(c, LProcess(r)) == Process(c, r)
  {}
}
