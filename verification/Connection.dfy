// One end of a JSON-RPC connection as a labelled transition system. Each body that the program runs
// under the state mutex is one atomic step; every call, notification and incoming request carries
// its own program counter; the Reader, Writer, Handler, Preempter and users are the environment and
// appear as label arguments. The panics of the program are recorded rather than assumed away.
module Connection {
  import opened Wrappers
  import opened Messages

  // ---------------------------------------------------------------------------------------------
  // State

  // Where a call of write stands: before the shutdown gate, past it, or about to record its error.
  datatype WritePc = AtGate | AtWriter | AtRecord(err: Err)

  datatype CallPc = Registering | Refused(err: Err) | Sending(w: WritePc) | Retiring(err: Err) | Returned

  // The response that retired a call, with its position in the input when it was read from there.
  datatype Answer = Answer(msg: Message, at: Option<nat>)

  // An AsyncCall together with the goroutine inside Call that drives it. Call number k has ID k+1.
  datatype Call = Call(
    methodName: string, params: Raw, pc: CallPc, registered: bool,
    answer: Option<Answer>, retires: nat, sentAt: Option<nat>)

  datatype NotePc = Admitting | Publishing(w: WritePc) | Finishing | Settled

  datatype Note = Note(methodName: string, params: Raw, pc: NotePc, sentAt: Option<nat>)

  // What a handler or preempter produced.
  datatype Produced = Nothing | Value(json: Json) | Unmarshalable
  datatype Outcome = Outcome(produced: Produced, err: Option<Err>)

  datatype Phase =
    | Arrived      // read, not yet counted
    | Preempting   // counted; the preempter decides
    | Enqueueing   // not preempted; about to join the queue
    | Queued
    | Dequeued     // taken by the dispatcher, context not yet checked
    | Stale        // the dispatcher found its context cancelled
    | Handling     // inside Handler.Handle
    | Resolving    // processResult entered with an outcome
    | Answering(w: WritePc)
    | Closing      // about to leave the incoming count
    | Releasing    // handler goroutine about to release the dispatcher
    | Gone

  datatype Host = OnReader | InQueue | OnDispatcher | OnHandler

  // An incomingRequest. `msg` is the request as read, from position `at` of the input; `id` is the
  // identifier field, which the program clears when the identifier is already in use.
  datatype Req = Req(
    msg: Message, at: nat, id: ID, dup: bool, cancelled: bool, host: Host, phase: Phase,
    outcome: Option<Outcome>, reply: Option<Message>, sentAt: Option<nat>,
    released: bool, releases: nat, passes: nat, breach: bool)

  datatype InFlight = InFlight(
    connClosing: bool, reading: bool, readErr: Option<Err>, writeErr: Option<Err>, closer: bool,
    outgoingCalls: map<ID, nat>, outgoingNotifications: int, incoming: int,
    incomingByID: map<ID, nat>, handlerQueue: seq<nat>, handlerRunning: bool)

  datatype ReaderPc = NotStarted | ReadLoop | Accepting(r: nat) | Delivering(at: nat) | ReadFailed(err: Err) | Exited

  datatype DispatcherPc = Off | Looping | Serving(r: nat) | Awaiting(r: nat)

  datatype Panic = NonIdleWhenDone | RetiredTwice | IncomingZero

  // Which activity a message was written by.
  datatype Origin = FromCall(k: nat) | FromNote(n: nat) | FromReq(r: nat)
  datatype Sent = Sent(msg: Message, origin: Origin)

  datatype Conn = Conn(
    s: InFlight, done: bool,
    calls: seq<Call>, notes: seq<Note>, reqs: seq<Req>,
    reader: ReaderPc, dispatcher: DispatcherPc, cancels: set<nat>,
    received: seq<Message>, sent: seq<Sent>, starts: seq<nat>,
    closings: seq<InFlight>, doneCloses: nat,
    breaches: nat, complaints: nat, panics: seq<Panic>)

  function Initial(): Conn {
    Conn(InFlight(false, false, None, None, true, map[], 0, 0, map[], [], false), false,
         [], [], [], NotStarted, Off, {}, [], [], [], [], 0, 0, 0, [])
  }

  // ---------------------------------------------------------------------------------------------
  // Reads of the state

  predicate Idle(s: InFlight) {
    s.outgoingCalls == map[] && s.outgoingNotifications == 0 && s.incoming == 0 && !s.handlerRunning
  }

  predicate ShuttingDown(s: InFlight) { s.connClosing || s.readErr.Some? || s.writeErr.Some? }

  function WrapErr(outer: Err, cause: Err): Err { Wrap(Text(outer) + ": " + Text(cause), outer) }

  function ShutdownErr(s: InFlight, errClosing: Err): (e: Option<Err>)
    ensures e.Some? <==> ShuttingDown(s)
    ensures e.Some? ==> e.value == errClosing || (e.value.Wrap? && e.value.inner == errClosing)
  {
    if s.connClosing then Some(errClosing)
    else if s.readErr.Some? then Some(WrapErr(errClosing, s.readErr.value))
    else if s.writeErr.Some? then Some(WrapErr(errClosing, s.writeErr.value))
    else None
  }

  function CallID(k: nat): ID { IntID(k + 1) }

  function CallRequest(call: Call, k: nat): Message { Request(CallID(k), call.methodName, call.params) }

  // ---------------------------------------------------------------------------------------------
  // The end of every critical section

  function Epilogue(c: Conn): Conn {
    if c.done then
      if Idle(c.s) then c else c.(panics := c.panics + [NonIdleWhenDone])
    else if Idle(c.s) && ShuttingDown(c.s) then
      var closed := if c.s.closer then c.(s := c.s.(closer := false), closings := c.closings + [c.s]) else c;
      if c.s.reading then closed else closed.(done := true, doneCloses := c.doneCloses + 1)
    else c
  }

  // ---------------------------------------------------------------------------------------------
  // Outgoing calls and notifications

  function RetireOne(call: Call, answer: Answer): Call {
    if call.answer.Some? then call else call.(answer := Some(answer), retires := call.retires + 1)
  }

  // AsyncCall.retire
  function Retire(c: Conn, k: nat, answer: Answer): Conn
    requires k < |c.calls|
  {
    c.(calls := c.calls[k := RetireOne(c.calls[k], answer)],
       panics := if c.calls[k].answer.Some? then c.panics + [RetiredTwice] else c.panics)
  }

  function CallStart(c: Conn, name: string, params: Raw, failure: Option<Err>): Conn {
    var k := |c.calls|;
    match failure
    case None => c.(calls := c.calls + [Call(name, params, Registering, false, None, 0, None)])
    case Some(e) =>
      var answer := Answer(Response(CallID(k), None, Some(Wrap("marshaling call parameters: " + Text(e), e))), None);
      c.(calls := c.calls + [Call(name, params, Returned, false, Some(answer), 1, None)])
  }

  function CallRegister(c: Conn, k: nat): Conn
    requires k < |c.calls|
  {
    match ShutdownErr(c.s, ErrClientClosing)
    case Some(e) => Epilogue(c.(calls := c.calls[k := c.calls[k].(pc := Refused(e))]))
    case None =>
      Epilogue(c.(s := c.s.(outgoingCalls := c.s.outgoingCalls[CallID(k) := k]),
                  calls := c.calls[k := c.calls[k].(pc := Sending(AtGate), registered := true)]))
  }

  function CallRefuse(c: Conn, k: nat): Conn
    requires k < |c.calls| && c.calls[k].pc.Refused?
  {
    var c1 := c.(calls := c.calls[k := c.calls[k].(pc := Returned)]);
    Retire(c1, k, Answer(Response(CallID(k), None, Some(c.calls[k].pc.err)), None))
  }

  // The body of Connection.Retire
  function RetireTracked(c: Conn, k: nat, err: Err): Conn
    requires k < |c.calls|
  {
    if CallID(k) in c.s.outgoingCalls && c.s.outgoingCalls[CallID(k)] == k then
      Retire(c.(s := c.s.(outgoingCalls := c.s.outgoingCalls - {CallID(k)})), k,
             Answer(Response(CallID(k), None, Some(err)), None))
    else c
  }

  function CallRetire(c: Conn, k: nat): Conn
    requires k < |c.calls| && c.calls[k].pc.Retiring?
  {
    Epilogue(RetireTracked(c.(calls := c.calls[k := c.calls[k].(pc := Returned)]), k, c.calls[k].pc.err))
  }

  function NotifyStart(c: Conn, name: string, params: Raw): Conn {
    c.(notes := c.notes + [Note(name, params, Admitting, None)])
  }

  predicate NotifyRefused(c: Conn) {
    c.s.outgoingCalls == map[] && c.s.incomingByID == map[] && ShuttingDown(c.s)
  }

  function NotifyAdmit(c: Conn, n: nat, marshals: bool): Conn
    requires n < |c.notes|
  {
    if NotifyRefused(c) then
      Epilogue(c.(notes := c.notes[n := c.notes[n].(pc := Settled)]))
    else
      Epilogue(c.(s := c.s.(outgoingNotifications := c.s.outgoingNotifications + 1),
                  notes := c.notes[n := c.notes[n].(pc := if marshals then Publishing(AtGate) else Finishing)]))
  }

  function NotifyFinish(c: Conn, n: nat): Conn
    requires n < |c.notes|
  {
    Epilogue(c.(s := c.s.(outgoingNotifications := c.s.outgoingNotifications - 1),
                notes := c.notes[n := c.notes[n].(pc := Settled)]))
  }

  // ---------------------------------------------------------------------------------------------
  // write

  predicate Writes(c: Conn, w: Origin, pc: WritePc) {
    match w
    case FromCall(k) => k < |c.calls| && c.calls[k].pc == Sending(pc)
    case FromNote(n) => n < |c.notes| && c.notes[n].pc == Publishing(pc)
    case FromReq(r) => r < |c.reqs| && c.reqs[r].phase == Answering(pc) && c.reqs[r].reply.Some?
  }

  predicate InWrite(c: Conn, w: Origin) {
    match w
    case FromCall(k) => k < |c.calls| && c.calls[k].pc.Sending?
    case FromNote(n) => n < |c.notes| && c.notes[n].pc.Publishing?
    case FromReq(r) => r < |c.reqs| && c.reqs[r].phase.Answering?
  }

  predicate Recording(c: Conn, w: Origin) {
    match w
    case FromCall(k) => k < |c.calls| && c.calls[k].pc.Sending? && c.calls[k].pc.w.AtRecord?
    case FromNote(n) => n < |c.notes| && c.notes[n].pc.Publishing? && c.notes[n].pc.w.AtRecord?
    case FromReq(r) => r < |c.reqs| && c.reqs[r].phase.Answering? && c.reqs[r].phase.w.AtRecord?
  }

  function RecordErr(c: Conn, w: Origin): Err
    requires Recording(c, w)
  {
    match w
    case FromCall(k) => c.calls[k].pc.w.err
    case FromNote(n) => c.notes[n].pc.w.err
    case FromReq(r) => c.reqs[r].phase.w.err
  }

  predicate Exists(c: Conn, w: Origin) {
    match w
    case FromCall(k) => k < |c.calls|
    case FromNote(n) => n < |c.notes|
    case FromReq(r) => r < |c.reqs|
  }

  function AtWrite(c: Conn, w: Origin, pc: WritePc): Conn
    requires Exists(c, w)
  {
    match w
    case FromCall(k) => c.(calls := c.calls[k := c.calls[k].(pc := Sending(pc))])
    case FromNote(n) => c.(notes := c.notes[n := c.notes[n].(pc := Publishing(pc))])
    case FromReq(r) => c.(reqs := c.reqs[r := c.reqs[r].(phase := Answering(pc))])
  }

  // What follows write in each of its three callers.
  function AfterWrite(c: Conn, w: Origin, err: Option<Err>): Conn
    requires Exists(c, w)
  {
    match w
    case FromCall(k) =>
      c.(calls := c.calls[k := c.calls[k].(pc := if err.Some? then Retiring(err.value) else Returned)])
    case FromNote(n) => c.(notes := c.notes[n := c.notes[n].(pc := Finishing)])
    case FromReq(r) => c.(reqs := c.reqs[r := c.reqs[r].(phase := Closing)])
  }

  // A failed write breaks the connection unless its context was cancelled or the transport rejected it.
  function Failed(c: Conn, w: Origin, err: Err, ctxDone: bool): Conn
    requires Exists(c, w)
  {
    if !ctxDone && !IsCode(err, -32005) then AtWrite(c, w, AtRecord(err)) else AfterWrite(c, w, Some(err))
  }

  function WriteGate(c: Conn, w: Origin, ctxDone: bool): Conn
    requires Exists(c, w)
  {
    match ShutdownErr(c.s, ErrServerClosing)
    case Some(e) => Failed(Epilogue(c), w, e, ctxDone)
    case None => AtWrite(Epilogue(c), w, AtWriter)
  }

  function Outgoing(c: Conn, w: Origin): Message
    requires Writes(c, w, AtWriter)
  {
    match w
    case FromCall(k) => CallRequest(c.calls[k], k)
    case FromNote(n) => Request(NoID, c.notes[n].methodName, c.notes[n].params)
    case FromReq(r) => c.reqs[r].reply.value
  }

  function MarkSent(c: Conn, w: Origin): Conn
    requires Writes(c, w, AtWriter)
  {
    var at := Some(|c.sent|);
    var c1 := c.(sent := c.sent + [Sent(Outgoing(c, w), w)]);
    match w
    case FromCall(k) => c1.(calls := c.calls[k := c.calls[k].(sentAt := at)])
    case FromNote(n) => c1.(notes := c.notes[n := c.notes[n].(sentAt := at)])
    case FromReq(r) => c1.(reqs := c.reqs[r := c.reqs[r].(sentAt := at)])
  }

  function WriteDo(c: Conn, w: Origin, failure: Option<Err>, ctxDone: bool): Conn
    requires Writes(c, w, AtWriter)
  {
    match failure
    case None => AfterWrite(MarkSent(c, w), w, None)
    case Some(e) => Failed(c, w, e, ctxDone)
  }

  function CancelAll(reqs: seq<Req>, which: set<nat>): seq<Req> {
    seq(|reqs|, i requires 0 <= i < |reqs| => if i in which then reqs[i].(cancelled := true) else reqs[i])
  }

  // The first recorded write error breaks the connection and cancels every tracked call.
  function BreakWriter(c: Conn, err: Err): Conn {
    if c.s.writeErr.Some? then c
    else c.(s := c.s.(writeErr := Some(err)), reqs := CancelAll(c.reqs, c.s.incomingByID.Values))
  }

  function WriteRecord(c: Conn, w: Origin): Conn
    requires Recording(c, w)
  {
    AfterWrite(Epilogue(BreakWriter(c, RecordErr(c, w))), w, Some(RecordErr(c, w)))
  }

  // ---------------------------------------------------------------------------------------------
  // The reader

  function Start(c: Conn): Conn {
    if c.done then Epilogue(c.(reader := Exited))
    else Epilogue(c.(s := c.s.(reading := true), reader := ReadLoop))
  }

  function ReadRequest(c: Conn, msg: Message): Conn
    requires msg.Request?
  {
    c.(received := c.received + [msg], reader := Accepting(|c.reqs|),
       reqs := c.reqs + [Req(msg, |c.received|, msg.id, false, false, OnReader, Arrived, None, None, None, false, 0, 0, false)])
  }

  function ReadResponse(c: Conn, msg: Message): Conn {
    c.(received := c.received + [msg], reader := Delivering(|c.received|))
  }

  predicate TracksKnown(c: Conn) { forall id :: id in c.s.outgoingCalls ==> c.s.outgoingCalls[id] < |c.calls| }

  function DeliverSection(c: Conn): Conn
    requires c.reader.Delivering? && c.reader.at < |c.received| && TracksKnown(c)
  {
    var msg := c.received[c.reader.at];
    var c1 := c.(reader := ReadLoop);
    if msg.id in c.s.outgoingCalls then
      Retire(c1.(s := c.s.(outgoingCalls := c.s.outgoingCalls - {msg.id})), c.s.outgoingCalls[msg.id],
             Answer(msg, Some(c.reader.at)))
    else c1
  }

  function Deliver(c: Conn): Conn
    requires c.reader.Delivering? && c.reader.at < |c.received| && TracksKnown(c)
  {
    Epilogue(DeliverSection(c))
  }

  function RetireAll(calls: seq<Call>, which: set<nat>, err: Err): seq<Call> {
    seq(|calls|, k requires 0 <= k < |calls| =>
      if k in which then RetireOne(calls[k], Answer(Response(CallID(k), None, Some(err)), None)) else calls[k])
  }

  predicate AnyAnswered(calls: seq<Call>, which: set<nat>) {
    exists k | 0 <= k < |calls| :: k in which && calls[k].answer.Some?
  }

  function ReaderExitSection(c: Conn): Conn
    requires c.reader.ReadFailed?
  {
    var tracked := c.s.outgoingCalls.Values;
    c.(s := c.s.(reading := false, readErr := Some(c.reader.err), outgoingCalls := map[]),
       calls := RetireAll(c.calls, tracked, c.reader.err),
       panics := if AnyAnswered(c.calls, tracked) then c.panics + [RetiredTwice] else c.panics,
       reader := Exited)
  }

  function ReaderExit(c: Conn): Conn
    requires c.reader.ReadFailed?
  {
    Epilogue(ReaderExitSection(c))
  }

  function SetReq(c: Conn, r: nat, q: Req): Conn
    requires r < |c.reqs|
  {
    c.(reqs := c.reqs[r := q])
  }

  function Resolve(q: Req, produced: Produced, err: Option<Err>): Req {
    q.(phase := Resolving, outcome := Some(Outcome(produced, err)))
  }

  const InUse := Wrap(Text(ErrInvalidRequest) + ": request ID already in use", ErrInvalidRequest)

  // What the first critical section of acceptRequest makes of the request: a call whose identifier
  // is in use is refused under no identifier, a call during a shutdown is refused, anything else
  // goes on to the preempter.
  function AcceptedReq(s: InFlight, q: Req): Req {
    if !IsValid(q.id) then q.(phase := Preempting)
    else if q.id in s.incomingByID then Resolve(q.(id := NoID, dup := true), Nothing, Some(InUse))
    else match ShutdownErr(s, ErrServerClosing)
         case Some(e) => Resolve(q, Nothing, Some(e))
         case None => q.(phase := Preempting)
  }

  function AcceptSection(c: Conn): Conn
    requires c.reader.Accepting? && c.reader.r < |c.reqs|
  {
    var r := c.reader.r;
    var id := c.reqs[r].id;
    var byID := if IsValid(id) && id !in c.s.incomingByID then c.s.incomingByID[id := r] else c.s.incomingByID;
    SetReq(c, r, AcceptedReq(c.s, c.reqs[r])).(s := c.s.(incoming := c.s.incoming + 1, incomingByID := byID))
  }

  function Accept(c: Conn): Conn
    requires c.reader.Accepting? && c.reader.r < |c.reqs|
  {
    Epilogue(AcceptSection(c))
  }

  // The Handler contract: a call yields either a marshalable value or an error, a notification no
  // value. (A handler also declares itself asynchronous at most once.)
  predicate Conforms(id: ID, o: Outcome) {
    if IsValid(id) then (o.produced.Value? && o.err.None?) || (o.produced.Nothing? && o.err.Some?)
    else o.produced.Nothing?
  }

  // An outcome produced by user code, noted when it breaches the contract.
  function FromOutside(q: Req, o: Outcome): Req {
    Resolve(q, o.produced, o.err).(breach := q.breach || !Conforms(q.id, o))
  }

  function NoteBreach(c: Conn, id: ID, o: Outcome): Conn {
    if Conforms(id, o) then c else c.(breaches := c.breaches + 1)
  }

  function Preempt(c: Conn, decision: Option<Outcome>): Conn
    requires c.reader.Accepting? && c.reader.r < |c.reqs|
  {
    var q := c.reqs[c.reader.r];
    match decision
    case None => SetReq(c, c.reader.r, q.(phase := Enqueueing))
    case Some(o) => SetReq(NoteBreach(c, q.id, o), c.reader.r, FromOutside(q, o))
  }

  // The last critical section of acceptRequest; it starts the dispatcher when none runs.
  function EnqueueSection(c: Conn): Conn
    requires c.reader.Accepting? && c.reader.r < |c.reqs|
  {
    var r := c.reader.r;
    var q := c.reqs[r];
    match ShutdownErr(c.s, ErrServerClosing)
    case Some(e) => SetReq(c, r, Resolve(q, Nothing, Some(e)))
    case None =>
      SetReq(c, r, q.(phase := Queued, host := InQueue))
      .(s := c.s.(handlerQueue := c.s.handlerQueue + [r], handlerRunning := true),
        dispatcher := if c.s.handlerRunning then c.dispatcher else Looping,
        reader := ReadLoop)
  }

  function Enqueue(c: Conn): Conn
    requires c.reader.Accepting? && c.reader.r < |c.reqs|
  {
    Epilogue(EnqueueSection(c))
  }

  // ---------------------------------------------------------------------------------------------
  // The dispatcher and the handlers

  function DequeueSection(c: Conn): Conn
    requires c.s.handlerQueue != [] ==> c.s.handlerQueue[0] < |c.reqs|
  {
    if c.s.handlerQueue != [] then
      var r := c.s.handlerQueue[0];
      SetReq(c, r, c.reqs[r].(phase := Dequeued, host := OnDispatcher))
      .(s := c.s.(handlerQueue := c.s.handlerQueue[1..]), dispatcher := Serving(r))
    else
      c.(s := c.s.(handlerRunning := false), dispatcher := Off)
  }

  function Dequeue(c: Conn): Conn
    requires c.s.handlerQueue != [] ==> c.s.handlerQueue[0] < |c.reqs|
  {
    Epilogue(DequeueSection(c))
  }

  function CheckContext(c: Conn): Conn
    requires c.dispatcher.Serving? && c.dispatcher.r < |c.reqs|
  {
    var r := c.dispatcher.r;
    var q := c.reqs[r];
    if q.cancelled then SetReq(c, r, q.(phase := Stale))
    else SetReq(c, r, q.(phase := Handling, host := OnHandler)).(dispatcher := Awaiting(r), starts := c.starts + [r])
  }

  const Canceled := Plain("context canceled")

  function StaleResult(c: Conn): Conn
    requires c.dispatcher.Serving? && c.dispatcher.r < |c.reqs|
  {
    var err := if c.s.writeErr.Some? then WrapErr(ErrServerClosing, c.s.writeErr.value) else Canceled;
    Epilogue(SetReq(c, c.dispatcher.r, Resolve(c.reqs[c.dispatcher.r], Nothing, Some(err))))
  }

  function ReleaseChannel(q: Req): Req {
    if q.released then q else q.(released := true, releases := q.releases + 1)
  }

  // Async, called with the handler's context by Handle itself or by a goroutine that outlives it.
  function Async(c: Conn, r: nat): Conn
    requires r < |c.reqs|
  {
    if c.reqs[r].released then c.(breaches := c.breaches + 1)  // the program panics on its caller
    else SetReq(c, r, ReleaseChannel(c.reqs[r]))
  }

  function HandleReturn(c: Conn, r: nat, o: Outcome): Conn
    requires r < |c.reqs|
  {
    SetReq(NoteBreach(c, c.reqs[r].id, o), r, FromOutside(c.reqs[r], o))
  }

  // ---------------------------------------------------------------------------------------------
  // processResult

  datatype Settlement = Settlement(reply: Option<Message>, complaints: nat)

  function Quoted(name: string): string { "\"" + name + "\"" }

  function DetailErr(name: string, err: Option<Err>): Option<Err> {
    if err == Some(ErrNotHandled) || err == Some(ErrMethodNotFound) then
      Some(Wrap(Text(ErrMethodNotFound) + ": " + Quoted(name), ErrMethodNotFound))
    else err
  }

  function NameOf(m: Message): string { if m.Request? then m.methodName else "" }

  // What processResult sends for an outcome, and how often it calls internalErrorf.
  function Settle(id: ID, name: string, o: Outcome): Settlement {
    var err := DetailErr(name, o.err);
    var both := o.produced != Nothing && err.Some?;
    var produced := if both then Nothing else o.produced;
    var n := if both then 1 else 0;
    if IsValid(id) then
      match produced
      case Nothing =>
        if err.None? then Settlement(Some(Response(id, None, Some(Wrap("internal error", ErrInternal)))), n + 1)
        else Settlement(Some(Response(id, None, err)), n)
      case Value(j) => Settlement(Some(Response(id, Some(j), err)), n)
      case Unmarshalable => Settlement(None, n + 1)
    else
      Settlement(None, if produced != Nothing then n + 1 else n)
  }

  // The critical section of processResult that frees the identifier before the response is written.
  function FreeIDSection(c: Conn, r: nat): Conn
    requires r < |c.reqs| && c.reqs[r].outcome.Some?
  {
    var q := c.reqs[r];
    var st := Settle(q.id, NameOf(q.msg), q.outcome.value);
    SetReq(c, r, q.(reply := st.reply, phase := if st.reply.Some? then Answering(AtGate) else Closing))
    .(s := c.s.(incomingByID := c.s.incomingByID - {q.id}), complaints := c.complaints + st.complaints)
  }

  function Process(c: Conn, r: nat): Conn
    requires r < |c.reqs| && c.reqs[r].outcome.Some?
  {
    var q := c.reqs[r];
    if IsValid(q.id) then Epilogue(FreeIDSection(c, r))
    else SetReq(c, r, q.(phase := Closing))
         .(complaints := c.complaints + Settle(q.id, NameOf(q.msg), q.outcome.value).complaints)
  }

  // The end of processResult: the request leaves the count and its goroutine moves on.
  function FinishSection(c: Conn, r: nat): Conn
    requires r < |c.reqs|
  {
    var q := c.reqs[r].(cancelled := true, passes := c.reqs[r].passes + 1,
                        phase := if c.reqs[r].host == OnHandler then Releasing else Gone);
    SetReq(c, r, q).(reader := if c.reqs[r].host == OnReader then ReadLoop else c.reader,
                     dispatcher := if c.reqs[r].host == OnDispatcher then Looping else c.dispatcher,
                     s := c.s.(incoming := if c.s.incoming == 0 then 0 else c.s.incoming - 1),
                     panics := if c.s.incoming == 0 then c.panics + [IncomingZero] else c.panics)
  }

  function Finish(c: Conn, r: nat): Conn
    requires r < |c.reqs|
  {
    Epilogue(FinishSection(c, r))
  }

  // releaser.release(true) when the handler goroutine ends.
  function Release(c: Conn, r: nat): Conn
    requires r < |c.reqs|
  {
    SetReq(c, r, ReleaseChannel(c.reqs[r]).(phase := Gone))
  }

  // ---------------------------------------------------------------------------------------------
  // Users

  function CancelLookup(c: Conn, id: ID): Conn {
    Epilogue(if id in c.s.incomingByID then c.(cancels := c.cancels + {c.s.incomingByID[id]}) else c)
  }

  function CancelFire(c: Conn, r: nat): Conn
    requires r < |c.reqs|
  {
    SetReq(c, r, c.reqs[r].(cancelled := true)).(cancels := c.cancels - {r})
  }

  function Close(c: Conn): Conn { Epilogue(c.(s := c.s.(connClosing := true))) }

  // ---------------------------------------------------------------------------------------------
  // The transition system

  datatype Label =
    | LStart
    | LCallStart(name: string, params: Raw, failure: Option<Err>)
    | LCallRegister(k: nat)
    | LCallRefuse(k: nat)
    | LCallRetire(k: nat)
    | LUserRetire(k: nat, err: Err)
    | LNotifyStart(name: string, params: Raw)
    | LNotifyAdmit(n: nat, marshals: bool)
    | LNotifyFinish(n: nat)
    | LWriteGate(w: Origin, ctxDone: bool)
    | LWriteDo(w: Origin, failure: Option<Err>, ctxDone: bool)
    | LWriteRecord(w: Origin)
    | LReadRequest(msg: Message)
    | LReadResponse(msg: Message)
    | LReadFail(err: Err)
    | LDeliver
    | LReaderExit
    | LAccept
    | LPreempt(decision: Option<Outcome>)
    | LEnqueue
    | LDequeue
    | LCheckContext
    | LStaleResult
    | LResume
    | LAsync(r: nat)
    | LHandleReturn(r: nat, o: Outcome)
    | LProcess(r: nat)
    | LFinish(r: nat)
    | LRelease(r: nat)
    | LCancelLookup(id: ID)
    | LCancelFire(r: nat)
    | LClose

  predicate ReqAt(c: Conn, r: nat, phase: Phase) { r < |c.reqs| && c.reqs[r].phase == phase }

  predicate AcceptingAt(c: Conn, phase: Phase) { c.reader.Accepting? && ReqAt(c, c.reader.r, phase) }

  predicate ServingAt(c: Conn, phase: Phase) { c.dispatcher.Serving? && ReqAt(c, c.dispatcher.r, phase) }

  predicate Enabled(c: Conn, l: Label) {
    match l
    case LStart => c.reader.NotStarted?
    case LCallStart(_, _, _) => true
    case LCallRegister(k) => k < |c.calls| && c.calls[k].pc.Registering?
    case LCallRefuse(k) => k < |c.calls| && c.calls[k].pc.Refused?
    case LCallRetire(k) => k < |c.calls| && c.calls[k].pc.Retiring?
    case LUserRetire(k, _) => k < |c.calls| && c.calls[k].pc.Returned?
    case LNotifyStart(_, _) => true
    case LNotifyAdmit(n, _) => n < |c.notes| && c.notes[n].pc.Admitting?
    case LNotifyFinish(n) => n < |c.notes| && c.notes[n].pc.Finishing?
    case LWriteGate(w, ctxDone) => Writes(c, w, AtGate) && (w.FromReq? ==> !ctxDone)
    case LWriteDo(w, _, ctxDone) => Writes(c, w, AtWriter) && (w.FromReq? ==> !ctxDone)
    case LWriteRecord(w) => Recording(c, w)
    case LReadRequest(msg) => c.reader.ReadLoop? && msg.Request?
    case LReadResponse(msg) => c.reader.ReadLoop? && msg.Response?
    case LReadFail(_) => c.reader.ReadLoop?
    case LDeliver => c.reader.Delivering? && c.reader.at < |c.received| && TracksKnown(c)
    case LReaderExit => c.reader.ReadFailed?
    case LAccept => AcceptingAt(c, Arrived)
    case LPreempt(_) => AcceptingAt(c, Preempting)
    case LEnqueue => AcceptingAt(c, Enqueueing)
    case LDequeue => c.dispatcher.Looping? && (c.s.handlerQueue != [] ==> c.s.handlerQueue[0] < |c.reqs|)
    case LCheckContext => ServingAt(c, Dequeued)
    case LStaleResult => ServingAt(c, Stale)
    case LResume => c.dispatcher.Awaiting? && c.dispatcher.r < |c.reqs| && c.reqs[c.dispatcher.r].released
    case LAsync(r) => r < |c.reqs| && c.reqs[r].host.OnHandler?
    case LHandleReturn(r, _) => ReqAt(c, r, Handling)
    case LProcess(r) => ReqAt(c, r, Resolving) && c.reqs[r].outcome.Some?
    case LFinish(r) => ReqAt(c, r, Closing)
    case LRelease(r) => ReqAt(c, r, Releasing)
    case LCancelLookup(_) => true
    case LCancelFire(r) => r in c.cancels && r < |c.reqs|
    case LClose => true
  }

  function Apply(c: Conn, l: Label): Conn
    requires Enabled(c, l)
  {
    match l
    case LStart => Start(c)
    case LCallStart(name, params, failure) => CallStart(c, name, params, failure)
    case LCallRegister(k) => CallRegister(c, k)
    case LCallRefuse(k) => CallRefuse(c, k)
    case LCallRetire(k) => CallRetire(c, k)
    case LUserRetire(k, err) => Epilogue(RetireTracked(c, k, err))
    case LNotifyStart(name, params) => NotifyStart(c, name, params)
    case LNotifyAdmit(n, marshals) => NotifyAdmit(c, n, marshals)
    case LNotifyFinish(n) => NotifyFinish(c, n)
    case LWriteGate(w, ctxDone) => WriteGate(c, w, ctxDone)
    case LWriteDo(w, failure, ctxDone) => WriteDo(c, w, failure, ctxDone)
    case LWriteRecord(w) => WriteRecord(c, w)
    case LReadRequest(msg) => ReadRequest(c, msg)
    case LReadResponse(msg) => ReadResponse(c, msg)
    case LReadFail(err) => c.(reader := ReadFailed(err))
    case LDeliver => Deliver(c)
    case LReaderExit => ReaderExit(c)
    case LAccept => Accept(c)
    case LPreempt(decision) => Preempt(c, decision)
    case LEnqueue => Enqueue(c)
    case LDequeue => Dequeue(c)
    case LCheckContext => CheckContext(c)
    case LStaleResult => StaleResult(c)
    case LResume => c.(dispatcher := Looping)
    case LAsync(r) => Async(c, r)
    case LHandleReturn(r, o) => HandleReturn(c, r, o)
    case LProcess(r) => Process(c, r)
    case LFinish(r) => Finish(c, r)
    case LRelease(r) => Release(c, r)
    case LCancelLookup(id) => CancelLookup(c, id)
    case LCancelFire(r) => CancelFire(c, r)
    case LClose => Close(c)
  }
}
