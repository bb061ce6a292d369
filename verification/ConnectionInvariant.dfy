// The inductive invariant of a connection: what holds whenever the state mutex is free, in every
// interleaving of users, reader, dispatcher and handlers.
module ConnectionInvariant {
  import opened Wrappers
  import opened Messages
  import opened Connection
  import opened Sums

  // ---------------------------------------------------------------------------------------------
  // Outgoing calls: tracked in the map exactly while registered and unanswered.

  predicate IsOrWraps(e: Err, base: Err) { e == base || (e.Wrap? && e.inner == base) }

  ghost predicate CallOk(call: Call, k: nat, oc: map<ID, nat>) {
    && (call.registered && call.answer.None? ==> CallID(k) in oc)
    && (call.pc.Registering? || call.pc.Refused? ==> !call.registered && call.answer.None?)
    && (call.pc.Sending? || call.pc.Retiring? ==> call.registered)
    && (call.pc.Returned? ==> call.registered || call.answer.Some?)
    && call.retires == (if call.answer.Some? then 1 else 0)
    && (call.answer.Some? ==> call.answer.value.msg.Response? && call.answer.value.msg.id == CallID(k))
    && (call.answer.Some? && !call.registered ==> call.answer.value.at.None?)
    && (call.answer.Some? && call.answer.value.at.None? ==> call.answer.value.msg.result.None? && call.answer.value.msg.error.Some?)
    && (call.pc.Refused? ==> IsOrWraps(call.pc.err, ErrClientClosing))
    && (call.pc.Returned? && call.sentAt.None? ==> call.answer.Some?)
  }

  ghost predicate CallsInv(calls: seq<Call>, oc: map<ID, nat>) {
    && (forall id :: id in oc ==> oc[id] < |calls| && id == CallID(oc[id]) && calls[oc[id]].registered && calls[oc[id]].answer.None?)
    && (forall k :: 0 <= k < |calls| ==> CallOk(calls[k], k, oc))
  }

  // ---------------------------------------------------------------------------------------------
  // Outgoing notifications

  ghost function Outstanding(note: Note): nat { if note.pc.Publishing? || note.pc.Finishing? then 1 else 0 }

  ghost predicate NotesInv(notes: seq<Note>, outgoing: int) { outgoing == Sum(notes, Outstanding) }

  // ---------------------------------------------------------------------------------------------
  // Incoming requests

  // The request counts as in flight.
  ghost function InCount(q: Req): nat {
    if q.phase.Arrived? || q.phase.Releasing? || q.phase.Gone? then 0 else 1
  }

  predicate BeforeDelete(p: Phase) {
    p.Preempting? || p.Enqueueing? || p.Queued? || p.Dequeued? || p.Stale? || p.Handling? || p.Resolving?
  }

  predicate Tracked(q: Req) { IsValid(q.id) && BeforeDelete(q.phase) }

  predicate Resolved(p: Phase) { p.Resolving? || p.Answering? || p.Closing? || p.Releasing? || p.Gone? }

  // What becomes of a request that reuses an identifier in flight: it is refused, and answered by nobody.
  predicate Rejected(q: Req) {
    && (q.phase.Resolving? || q.phase.Closing? || q.phase.Gone?) && q.host.OnReader?
    && q.outcome == Some(Outcome(Nothing, Some(InUse))) && q.reply.None?
  }

  ghost predicate ReqOk(q: Req) {
    && q.msg.Request?
    && (if q.dup then q.id == NoID && IsValid(q.msg.id) else q.id == q.msg.id)
    && (q.dup ==> Rejected(q))
    && (q.phase.Arrived? || q.phase.Preempting? || q.phase.Enqueueing? ==> q.host.OnReader?)
    && (q.phase.Queued? <==> q.host.InQueue?)
    && (q.phase.Dequeued? || q.phase.Stale? ==> q.host.OnDispatcher?)
    && (q.phase.Handling? || q.phase.Releasing? ==> q.host.OnHandler?)
    && (q.outcome.Some? <==> Resolved(q.phase))
    && (q.outcome.Some? && !q.breach ==> Conforms(q.id, q.outcome.value))
    && (q.reply.Some? ==> q.outcome.Some? && IsValid(q.id) && !q.phase.Resolving?
                          && q.reply == Settle(q.id, NameOf(q.msg), q.outcome.value).reply)
    && (q.phase.Answering? ==> q.reply.Some?)
    && (q.outcome.Some? && !q.phase.Resolving? && IsValid(q.id) ==> q.reply == Settle(q.id, NameOf(q.msg), q.outcome.value).reply)
    && q.passes == (if q.phase.Releasing? || q.phase.Gone? then 1 else 0)
    && q.releases == (if q.released then 1 else 0)
    && (q.released ==> q.host.OnHandler?)
    && (q.host.OnHandler? && q.phase.Gone? ==> q.released)
  }

  ghost predicate HostOk(q: Req, r: nat, reader: ReaderPc, dispatcher: DispatcherPc) {
    && (q.host.OnReader? && !q.phase.Gone? <==> reader == Accepting(r))
    && (q.host.OnDispatcher? && !q.phase.Gone? <==> dispatcher == Serving(r))
    && (q.host.OnHandler? && !q.released ==> dispatcher == Awaiting(r))
  }

  ghost predicate ReqsInv(reqs: seq<Req>, byID: map<ID, nat>) {
    && (forall r :: 0 <= r < |reqs| ==> ReqOk(reqs[r]))
    && (forall r :: 0 <= r < |reqs| && Tracked(reqs[r]) ==> reqs[r].id in byID && byID[reqs[r].id] == r)
    && (forall id :: id in byID ==> byID[id] < |reqs| && reqs[byID[id]].id == id && Tracked(reqs[byID[id]]))
  }

  ghost predicate HostsInv(reqs: seq<Req>, reader: ReaderPc, dispatcher: DispatcherPc) {
    forall r :: 0 <= r < |reqs| ==> HostOk(reqs[r], r, reader, dispatcher)
  }

  ghost predicate CountInv(reqs: seq<Req>, incoming: int) { incoming == Sum(reqs, InCount) }

  // ---------------------------------------------------------------------------------------------
  // The reader and the dispatcher

  predicate Active(reader: ReaderPc) { !reader.NotStarted? && !reader.Exited? }

  ghost predicate ReaderInv(reader: ReaderPc, s: InFlight, reqs: seq<Req>, received: seq<Message>) {
    && (Active(reader) <==> s.reading)
    && (reader.NotStarted? ==> reqs == [] && received == [])
    && (reader.Accepting? ==> reader.r + 1 == |reqs|)
    && (reader.Delivering? ==> reader.at + 1 == |received| && received[reader.at].Response?)
    && (s.readErr.Some? ==> reader.Exited?)
    && (reader.Exited? ==> ShuttingDown(s) && s.outgoingCalls == map[])
  }

  predicate Increasing(s: seq<nat>) { forall i, j :: 0 <= i < j < |s| ==> s[i] < s[j] }

  ghost predicate DispatchInv(reqs: seq<Req>, queue: seq<nat>, running: bool, dispatcher: DispatcherPc, starts: seq<nat>) {
    && (running <==> !dispatcher.Off?)
    && (queue != [] ==> !dispatcher.Off?)
    && Increasing(queue) && Increasing(starts)
    && (forall i :: 0 <= i < |queue| ==> queue[i] < |reqs| && reqs[queue[i]].phase.Queued?)
    && (forall r :: 0 <= r < |reqs| && reqs[r].phase.Queued? ==> r in queue)
    && (dispatcher.Serving? ==> dispatcher.r < |reqs|)
    && (dispatcher.Awaiting? ==> dispatcher.r < |reqs| && reqs[dispatcher.r].host.OnHandler?)
    && (forall i :: 0 <= i < |starts| ==> starts[i] < |reqs| && reqs[starts[i]].host.OnHandler?)
    && (forall r :: 0 <= r < |reqs| && reqs[r].host.OnHandler? ==> r in starts)
    && (forall i, j :: 0 <= i < |starts| && 0 <= j < |queue| ==> starts[i] < queue[j])
    && (dispatcher.Serving? ==> forall i :: 0 <= i < |starts| ==> starts[i] < dispatcher.r)
    && (dispatcher.Serving? ==> forall j :: 0 <= j < |queue| ==> dispatcher.r < queue[j])
  }

  // ---------------------------------------------------------------------------------------------
  // Write failure, histories, completion

  // Once the writer is broken, no waiting call still has a live context.
  ghost predicate BrokenInv(reqs: seq<Req>, broken: bool) {
    broken ==> forall r :: 0 <= r < |reqs| && (reqs[r].phase.Queued? || reqs[r].phase.Dequeued?) && IsValid(reqs[r].id)
                           ==> reqs[r].cancelled
  }

  ghost predicate SentOk(m: Sent, i: nat, calls: seq<Call>, notes: seq<Note>, reqs: seq<Req>) {
    match m.origin
    case FromCall(k) => k < |calls| && calls[k].sentAt == Some(i) && m.msg == CallRequest(calls[k], k)
    case FromNote(n) => n < |notes| && notes[n].sentAt == Some(i) && m.msg == Request(NoID, notes[n].methodName, notes[n].params)
    case FromReq(r) => r < |reqs| && reqs[r].sentAt == Some(i) && reqs[r].reply == Some(m.msg)
  }

  predicate PastWrite(p: Phase) { p.Closing? || p.Releasing? || p.Gone? }

  // Everything written is recorded with the one activity that wrote it, and an activity that has
  // written is past its write.
  ghost predicate SentInv(sent: seq<Sent>, calls: seq<Call>, notes: seq<Note>, reqs: seq<Req>) {
    && (forall i :: 0 <= i < |sent| ==> SentOk(sent[i], i, calls, notes, reqs))
    && (forall k :: 0 <= k < |calls| && calls[k].sentAt.Some?
          ==> calls[k].pc.Returned? && calls[k].sentAt.value < |sent| && sent[calls[k].sentAt.value].origin == FromCall(k))
    && (forall n :: 0 <= n < |notes| && notes[n].sentAt.Some? ==> !notes[n].pc.Admitting? && !notes[n].pc.Publishing?)
    && (forall r :: 0 <= r < |reqs| && reqs[r].sentAt.Some?
          ==> PastWrite(reqs[r].phase) && reqs[r].sentAt.value < |sent| && sent[reqs[r].sentAt.value].origin == FromReq(r))
  }

  ghost predicate EarlierSameID(reqs: seq<Req>, r: nat)
    requires r < |reqs|
  {
    exists r' :: 0 <= r' < r && reqs[r'].msg.id == reqs[r].msg.id
  }

  ghost predicate ReceivedInv(received: seq<Message>, calls: seq<Call>, reqs: seq<Req>) {
    && (forall r :: 0 <= r < |reqs| ==> reqs[r].at < |received| && received[reqs[r].at] == reqs[r].msg)
    && (forall r, r' :: 0 <= r < r' < |reqs| ==> reqs[r].at < reqs[r'].at)
    && (forall k :: 0 <= k < |calls| && calls[k].answer.Some? && calls[k].answer.value.at.Some?
                    ==> calls[k].answer.value.at.value < |received|
                        && received[calls[k].answer.value.at.value] == calls[k].answer.value.msg)
    && (forall r :: 0 <= r < |reqs| && reqs[r].dup ==> EarlierSameID(reqs, r))
  }

  // The connection is done exactly when it is idle, shutting down and no longer reading; the closer
  // has been invoked exactly when it is no longer held, which is so at every idle moment of a
  // shutdown, and it was invoked at such a moment; both close at most once.
  ghost predicate DoneInv(s: InFlight, done: bool, closings: seq<InFlight>, doneCloses: nat) {
    && (done <==> Idle(s) && ShuttingDown(s) && !s.reading)
    && |closings| == (if s.closer then 0 else 1)
    && (forall i :: 0 <= i < |closings| ==> Idle(closings[i]) && ShuttingDown(closings[i]))
    && doneCloses == (if done then 1 else 0)
    && (Idle(s) && ShuttingDown(s) ==> !s.closer)
  }

  // As long as user code keeps the contract, nothing calls internalErrorf.
  ghost predicate CleanInv(breaches: nat, complaints: nat, reqs: seq<Req>) {
    breaches == 0 ==> complaints == 0 && forall r :: 0 <= r < |reqs| ==> !reqs[r].breach
  }

  // Everything but the completion state.
  ghost predicate Core(c: Conn) {
    && CallsInv(c.calls, c.s.outgoingCalls)
    && NotesInv(c.notes, c.s.outgoingNotifications)
    && ReqsInv(c.reqs, c.s.incomingByID)
    && HostsInv(c.reqs, c.reader, c.dispatcher)
    && CountInv(c.reqs, c.s.incoming)
    && ReaderInv(c.reader, c.s, c.reqs, c.received)
    && DispatchInv(c.reqs, c.s.handlerQueue, c.s.handlerRunning, c.dispatcher, c.starts)
    && BrokenInv(c.reqs, c.s.writeErr.Some?)
    && SentInv(c.sent, c.calls, c.notes, c.reqs)
    && ReceivedInv(c.received, c.calls, c.reqs)
    && c.panics == []
    && CleanInv(c.breaches, c.complaints, c.reqs)
    && (forall r :: r in c.cancels ==> r < |c.reqs|)
  }

  ghost predicate Inv(c: Conn) { Core(c) && DoneInv(c.s, c.done, c.closings, c.doneCloses) }

  lemma InitialInv()
    ensures Inv(Initial())
  {}

  // ---------------------------------------------------------------------------------------------
  // The end of a critical section

  // What a critical section must leave behind for its end to close the connection correctly.
  ghost predicate Pending(c: Conn) {
    && (c.done ==> Idle(c.s) && ShuttingDown(c.s) && !c.s.reading && !c.s.closer)
    && |c.closings| == (if c.s.closer then 0 else 1)
    && (forall i :: 0 <= i < |c.closings| ==> Idle(c.closings[i]) && ShuttingDown(c.closings[i]))
    && c.doneCloses == (if c.done then 1 else 0)
  }

  lemma EpilogueInv(c: Conn)
    requires Core(c) && Pending(c)
    ensures Inv(Epilogue(c))
  {
    hide CallsInv, NotesInv, ReqsInv, HostsInv, CountInv, DispatchInv, BrokenInv, SentInv, ReceivedInv;
  }

  // A section that changes nothing changes nothing at its end either.
  lemma EpilogueNoOp(c: Conn)
    requires DoneInv(c.s, c.done, c.closings, c.doneCloses)
    ensures Epilogue(c) == c
  {}
}
