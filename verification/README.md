# Verified model of the ACP SDK

The SDK connects agents and clients over JSON-RPC 2.0. This project models the three parts whose
correctness does not show in any single function, and proves what they promise.

- **The connection engine** (`internal/jsonrpc2/conn.go`) is a labelled transition system
  (`Connection.dfy`). Every body that runs under the state mutex is one step; every call, notification
  and incoming request carries its own program counter; the shutdown gate of `write` and the write
  itself are two steps. Reader, Writer, Handler, Preempter and the users are the environment: their
  choices are arguments of the labels, in any order and with any result. The program's panics and its
  calls of `internalErrorf` are recorded in the state, not assumed away. `ConnectionInvariant.dfy`
  holds the inductive invariant, `ConnectionSteps.dfy`, `ConnectionRequests.dfy` and
  `ConnectionWrites.dfy` show that each step keeps it, and `ConnectionTheorems.dfy`,
  `ConnectionTermination.dfy`, `Answers.dfy`, `Causes.dfy`, `WriteFailures.dfy` and `Duplicates.dfy` draw
  the conclusions for every run. `Engine.dfy` writes the same critical sections as they are in the source, with fields updated in
  place and loops over the maps, and shows that each leaves exactly the state of its step. `Peers.dfy`
  and `EndToEnd.dfy` join two connections by reliable FIFO streams, and `Confusion.dfy` is a run of
  2^53 + 1 calls between them.
- **The wire** (`Messages.dfy`, `Framing.dfy`): the combined wire object and its decoding back into
  call, notification or response (sections 4, 4.1, 5 and 5.1 of the JSON-RPC 2.0 Specification),
  numeric identifiers through float64, and newline framing under any chunking of the stream.
- **The generators** (`internal/schemagen`): which definitions are emitted (`Schemas.dfy`), the keys of
  nested unions (`Unions.dfy`), the codecs of structs and content blocks (`Structs.dfy`,
  `ContentBlocks.dfy`), of three-state patches (`Patches.dfy`) and of required-key unions
  (`RequiredKeys.dfy`, `McpResponse.dfy`), identifiers (`Naming.dfy`) and the table of RPC operations
  with its dispatch (`Operations.dfy`).

`dafny verify dfyconfig.toml` checks everything.

## What turned out to be conditional

- A message whose method name is empty is indistinguishable on the wire from an empty response. A
  peer that makes such a call retires the other side's call with the same identifier, although nothing
  was ever asked of it (`UnnamedCallRetiresPeer` is such a run). Between two peers a call is answered by
  its own answer exactly when the message that answered it was not an unnamed one (`AnsweredExactly`).
- A numeric identifier survives the round trip exactly when it has at most 53 significant bits; 2^53 + 1
  comes back as 2^53, the identifier of another call. A call whose identifier is below 2^53 is safe
  however many calls there are; `LaterAnswerRetiresEarlier` is a run in which the call 2^53 is retired
  with the outcome of the call 2^53 + 1.
- A line survives the framing exactly when it holds no newline and does not end in a carriage return.
- A content block comes back as it is, and is written the same again, exactly when an image or an audio
  carries a MIME type and a resource link a URI, neither is set on a block whose type does not read it,
  and its audience names known roles only (`CarefulBlocks`). An image without a MIME type is written with
  null and read back with an empty one; a text loses its MIME type.
- Encoding a decoded patch gives the same text again exactly when every value that was written is one
  its own codec returns unchanged. For `SessionMessage` that is when all its blocks are of known types
  and careful in the sense above; for `SubagentUpdate`, when its state has no stop reason and no error
  data that encodes as null. A value that encodes as null comes back as a null mark, and a value under a
  null mark does not come back.
- Decoding what a required-key union encoded gives the value back exactly when nothing outside the
  chosen branch was set, the decoder accepts that branch's carrier, and each of its fields comes back
  from its own codec unchanged. An MCP response built from a result comes back unchanged; one built from
  an error comes back with the error in canonical form, which is the same error exactly when its null
  marks are none or `data` alone and it holds no data under the mark or that encodes as null.
- The operations of a schema are refused exactly when a definition has an unknown side or a name of no
  known form, two definitions fill one slot or disagree on the side, a slot is left empty, or two of the
  identifiers clash.
- Dispatch mistakes the kind of a message exactly when the endpoint handles the method in the other
  kind only: with one operation per method the generated switch does not look at the kind.

## Where the code and its prose differ

- `Close` is documented to answer later calls at once with `ErrServerClosing`. The gate of `write`
  refuses everything during a shutdown, so those responses are built but never reach the Writer
  (`ShutdownRatchets`). A response stopped by the gate is recorded as the write error and cancels every
  call still tracked, as a broken writer would.
- `incomingByID` can still gain an element during a shutdown (a call is tracked before it is refused);
  only the outgoing calls and the handler queue never grow.
- The comment on the number of calls in flight holds for outgoing calls only, for the same reason.

## Model

| member | source | states |
|---|---|---|
| `ConnectionRuns.StepKeepsInv` | internal/jsonrpc2/conn.go:77-743 | every step of every goroutine keeps the whole-system invariant |
| `ConnectionRuns.RunKeepsInv` | internal/jsonrpc2/conn.go:77-743 | so does every run, whatever the interleaving and the environment |
| `ConnectionInvariant.InitialInv` | internal/jsonrpc2/conn.go:194-207 | a new connection satisfies the invariant |
| `Connection.ShutdownErr` | internal/jsonrpc2/conn.go:130-148 | an error exactly when closing, read-broken or write-broken, and it is or wraps the error asked for |
| `ConnectionTheorems.DoneExactly` | internal/jsonrpc2/conn.go:77-125 | in every reachable state done holds iff idle, shutting down and not reading; the closer runs at most once, at an idle moment of a shutdown, and has run at every such moment; done closes once; no panic of the program is reachable |
| `ConnectionTheorems.ContractMeansNoComplaints` | internal/jsonrpc2/conn.go:649-703 | while Handler and Preempter keep their contract, internalErrorf is never called |
| `ConnectionTheorems.NothingIsTakenBack` | internal/jsonrpc2/conn.go:77-148 | over every continuation: done stays done, a shutdown stays, read and write errors never change, answers and outcomes are final, histories only grow |
| `ConnectionTheorems.ShutdownRatchets` | internal/jsonrpc2/conn.go:98-148 | once shutting down, tracked calls and the queue only shrink, and whatever still reaches the Writer had passed the gate before |
| `ConnectionEvolution.StepEvolves` | internal/jsonrpc2/conn.go:77-743 | one step never takes back an answer, an outcome, a recorded error or a history |
| `ConnectionEvolution.RunEvolves` | internal/jsonrpc2/conn.go:77-743 | neither does a run |
| `ConnectionTheorems.CallsRetiredOnce` | internal/jsonrpc2/conn.go:269-323 | a call is retired at most once in every interleaving of response, write failure, Retire and reader exit; a returned call is retired or tracked; when done, every call ever tracked has been retired |
| `ConnectionTheorems.IncomingConserved` | internal/jsonrpc2/conn.go:533-606 | incoming is the number of accepted requests before processResult's decrement; each passes it at most once, and exactly once by the time the connection is done |
| `ConnectionTheorems.DeletesOwnEntry` | internal/jsonrpc2/conn.go:661-677 | the identifier processResult deletes belongs to the request being processed |
| `Duplicates.DuplicateIsHarmless` | internal/jsonrpc2/conn.go:520-703 | whatever step is taken for a request that is, or is thereby found to be, a duplicate: every other request with its context, the identifier map, the calls, the queue and all that was written stay as they are |
| `Duplicates.DuplicateForever` | internal/jsonrpc2/conn.go:533-543 | over every continuation a duplicate stays refused under no identifier and is never tracked, queued, started or answered |
| `Duplicates.DuplicatesDisturbNothing` | internal/jsonrpc2/conn.go:520-703 | a run in which any number of duplicates are read and processed leaves everything but their own records as it was |
| `ConnectionTheorems.ResponsesOwnTheirID` | internal/jsonrpc2/conn.go:649-688 | what is written for a request is one response under its own identifier and the one its outcome demands: the error whenever there is one, an unhandled method reported by name, the value when there is no error, an internal error when there is neither; notifications and duplicates get none |
| `Answers.EveryCallHasItsReply` | internal/jsonrpc2/conn.go:649-688 | every processed call has that response, and has none exactly when its only outcome was a value that cannot be marshaled |
| `Answers.WrittenExactly` | internal/jsonrpc2/conn.go:707-719 | the stream gains a message exactly by a write that succeeds: the call's own request, the notification's, or the request's reply |
| `Answers.AnswersExactly` | internal/jsonrpc2/conn.go:269-323 | a step answers an open call exactly when it refuses it, or delivers to it, retires it or ends the reader while it is tracked, and with what that cause gives: the message read, the error of the failed write, the user's, the reader's, or one that is or wraps ErrClientClosing |
| `Answers.FaultsExactly` | internal/jsonrpc2/conn.go:707-742 | a call comes to be retired for a failed write exactly with the error of the gate in a shutdown or with the Writer's own |
| `Answers.LocalAnswersAreErrors` | internal/jsonrpc2/conn.go:260-308 | an answer not read from the stream has an error and no result; a returned call without an answer is on the stream |
| `Answers.EveryAnswerHasACause` | internal/jsonrpc2/conn.go:269-323 | over runs: some step had one of the six causes, unmarshalable parameters included, to give each answer |
| `Causes.DecisionsExactly` | internal/jsonrpc2/conn.go:520-646 | a step decides on a request exactly where it should: a duplicate or a call in a shutdown on arrival, anything not yet queued in a shutdown, a cancelled request before it is handled, and otherwise with exactly what the preempter or handler returned |
| `Causes.CancellationsExactly` | internal/jsonrpc2/conn.go:412-426 | a request's context is cancelled exactly by a Cancel that found it, by the end of its own processing, and by the first write error while it is tracked |
| `Causes.CancelFinds` | internal/jsonrpc2/conn.go:419-426 | Cancel finds exactly the tracked request with that identifier |
| `Causes.ShutdownsExactly` | internal/jsonrpc2/conn.go:464-516 | only Close closes, only the end of the reader breaks reading and with its own error, only the first recorded write error breaks writing |
| `Causes.ReaderEndsWith` | internal/jsonrpc2/conn.go:503-516 | the recorded read error is the one the read failed with |
| `Causes.RefusalsSayWhy` | internal/jsonrpc2/conn.go:130-148 | the refusals of a shutdown name its cause unless it was closed on purpose |
| `Causes.GateExactly` | internal/jsonrpc2/conn.go:707-719 | a write passes the gate exactly outside a shutdown |
| `Causes.NotificationsExactly` | internal/jsonrpc2/conn.go:238-251 | a notification is refused exactly in a shutdown with no call in flight in either direction |
| `Causes.QueuedExactly` | internal/jsonrpc2/conn.go:572-606 | a request not preempted joins the end of the queue exactly outside a shutdown |
| `Causes.HandledExactly` | internal/jsonrpc2/conn.go:624-643 | a dequeued request is handed to the handler exactly when its context is live |
| `Causes.ReleasesExactly` | internal/jsonrpc2/conn.go:330-364 | the dispatcher is let go on by a request exactly when its handler calls Async or its goroutine ends after processing; a second Async is the recorded panic |
| `ConnectionTheorems.DispatchOrder` | internal/jsonrpc2/conn.go:585-646 | handlerRunning iff the dispatcher is live; a waiting request implies it is; handlers start in arrival order; each release channel closes at most once |
| `ConnectionTheorems.ReleasedByTheEnd` | internal/jsonrpc2/conn.go:343-363 | when the connection is done every handler that started has closed its release channel, exactly once |
| `ConnectionTheorems.StartsAfterRelease` | internal/jsonrpc2/conn.go:610-646 | a handler starts only after all earlier ones called Async or finished |
| `ConnectionTheorems.NoHandlerAfterWriteErr` | internal/jsonrpc2/conn.go:612-635 | with a recorded write error, a queued call never reaches the Handler |
| `WriteFailures.RejectionNeverBreaks` | internal/jsonrpc2/conn.go:707-742 | in no reachable state is the recorded write error one the transport rejected |
| `WriteFailures.UnbrokenExactly` | internal/jsonrpc2/conn.go:707-742 | over every continuation of an unbroken state: no write error is recorded or on its way iff every failed write was cancelled or rejected and no write under a live context met the gate shut |
| `ConnectionTermination.StepWorks` | internal/jsonrpc2/conn.go:98-116 | a measure of the remaining work falls on every internal step and never grows but by arrivals |
| `ConnectionTermination.InternalStepsBounded` | internal/jsonrpc2/conn.go:98-116 | so a run without arrivals has at most that many internal steps |
| `ConnectionTermination.NoDeadlock` | internal/jsonrpc2/conn.go:98-116 | with the reader gone, a connection that is not done can move or waits for a handler |
| `ConnectionTermination.QuietMeansDone` | internal/jsonrpc2/conn.go:98-116 | with the reader gone and no work left, done is closed |
| `ConnectionTermination.ShutdownEnds` | internal/jsonrpc2/conn.go:464-475 | every continuation without arrivals is bounded and ends done or with a step to take |
| `Engine.SharedState.EndUpdate` | internal/jsonrpc2/conn.go:85-115 | the end of updateInFlight: close, finish or panic exactly as the step says |
| `Engine.SharedState.RetireCall` | internal/jsonrpc2/conn.go:379-388 | sets the response once; a second retirement is the recorded panic |
| `Engine.SharedState.StartReader` | internal/jsonrpc2/conn.go:209-222 | leaves the state of the start step; no reader starts once done |
| `Engine.SharedState.RegisterCall` | internal/jsonrpc2/conn.go:287-296 | tracks the call, or reports the shutdown |
| `Engine.SharedState.RetireByUser` | internal/jsonrpc2/conn.go:314-323 | retires the call iff it is still tracked under its identifier |
| `Engine.SharedState.AdmitNotification` | internal/jsonrpc2/conn.go:238-251 | counts the notification, or refuses it in a shutdown with no call in flight |
| `Engine.SharedState.FinishNotification` | internal/jsonrpc2/conn.go:230-236 | leaves the state of the finishing step |
| `Engine.SharedState.DeliverResponse` | internal/jsonrpc2/conn.go:491-499 | a response retires the call tracked under its identifier, if there is one |
| `Engine.SharedState.RetireAllTracked` | internal/jsonrpc2/conn.go:512-514 | the loop retires exactly the tracked calls, each for the first time, in whatever order the map gives |
| `Engine.SharedState.ExitReader` | internal/jsonrpc2/conn.go:506-516 | leaves the state of the reader's exit |
| `Engine.SharedState.AcceptRequest` | internal/jsonrpc2/conn.go:533-561 | counts and tracks the request, clears a duplicate identifier, refuses calls in a shutdown |
| `Engine.SharedState.EnqueueRequest` | internal/jsonrpc2/conn.go:572-606 | queues the request and starts the dispatcher when none runs, or refuses |
| `Engine.SharedState.TakeNext` | internal/jsonrpc2/conn.go:613-622 | takes the head of the queue, or lets the dispatcher exit |
| `Engine.SharedState.FreeID` | internal/jsonrpc2/conn.go:669-674 | frees the call's identifier before its response is written |
| `Engine.SharedState.LeaveCount` | internal/jsonrpc2/conn.go:694-701 | leaves the incoming count, which is never zero there |
| `Engine.SharedState.CheckGate` | internal/jsonrpc2/conn.go:713-715 | refuses exactly in a shutdown |
| `Engine.SharedState.RecordWriteErr` | internal/jsonrpc2/conn.go:732-739 | the first write error is kept, later ones are ignored |
| `Engine.SharedState.CancelTrackedCalls` | internal/jsonrpc2/conn.go:735-737 | the loop cancels exactly the tracked calls |
| `Engine.SharedState.FindForCancel` | internal/jsonrpc2/conn.go:419-426 | finds the tracked request with that identifier, if any |
| `Engine.SharedState.BeginClose` | internal/jsonrpc2/conn.go:468-475 | begins the shutdown |
| `Peers.PlayKeepsLinkInv` | internal/jsonrpc2/conn.go:477-501 | in every run of two peers each side has read a prefix of what the other wrote, decoded |
| `EndToEnd.AnswersAreOwn` | internal/jsonrpc2/conn.go:269-308 | a call with a safe identifier retired from the stream is told the outcome of exactly its own request, error, code and text or value, which the peer accepted once, processed once and answered once, at that place of the stream |
| `EndToEnd.AnsweredExactly` | internal/jsonrpc2/conn.go:491-499 | without the assumption on method names: the answer is the call's own iff the message that gave it was not an unnamed request |
| `EndToEnd.RequestOrigin` | internal/jsonrpc2/conn.go:477-490 | a call the peer accepted was written by one call of this side, at that place; under a safe identifier it is that call unchanged |
| `EndToEnd.AcceptedOnce` | internal/jsonrpc2/conn.go:520-561 | the peer accepts a call with a safe identifier at most once |
| `EndToEnd.NeverInUse` | internal/jsonrpc2/conn.go:537-542 | between two such peers no safe identifier is found already in use |
| `EndToEnd.UnnamedCallRetiresPeer` | internal/jsonrpc2/messages.go:174-207 | a run of two peers in which an unnamed call retires the other side's call |
| `Confusion.LaterAnswerRetiresEarlier` | internal/jsonrpc2/messages.go:30-40 | a run of two peers in which the call 2^53 is retired with the outcome of the call 2^53 + 1 |
| `Peers.BothSides` | internal/jsonrpc2/conn.go:477-501 | a reachable pair of peers is reachable turned around, so what holds of one side holds of the other |
| `Messages.NearestEven` | internal/jsonrpc2/messages.go:30-40 | a number becomes the nearest multiple of its spacing, the even one of two equally near |
| `Messages.SpacingLeaves53` | internal/jsonrpc2/messages.go:30-40 | which is the power of two that leaves 53 bits |
| `Messages.FloatFixed` | internal/jsonrpc2/messages.go:30-40 | an int64 comes back from float64 unchanged iff it has at most 53 significant bits |
| `Messages.SmallExact` | internal/jsonrpc2/messages.go:30-40 | every identifier of magnitude at most 2^53 has |
| `Messages.FirstInexact` | internal/jsonrpc2/messages.go:30-40 | 2^53 + 1 has not, and becomes 2^53 |
| `Messages.SmallCarried` | internal/jsonrpc2/messages.go:30-40 | an identifier that arrives below 2^53 is the one that was sent, whatever was sent |
| `Messages.UnmarshalMarshal` | internal/jsonrpc2/wire.go:52-59 | reading the wire object back gives it again, but for the number of the identifier |
| `Messages.RoundTrip` | internal/jsonrpc2/messages.go:108-207 | decode after encode gives the message back, its error read under its own text and the code it carries, iff a request names a method, a response has an identifier and the identifier is exact |
| `Messages.ErrorsArrive` | internal/jsonrpc2/messages.go:129-146 | a wire error arrives as it was, data included; whatever code the sent error carried, the read one carries, and 0 if it carried none |
| `Messages.WrappingKeepsCode` | internal/jsonrpc2/messages.go:129-146 | a wrapping error arrives under its own text with the code the wrapped one alone would arrive with |
| `Messages.IsCodeInChain` | internal/jsonrpc2/wire.go:86-92 | an error carries a code iff some wire error in its chain has it |
| `Messages.Codes` | internal/jsonrpc2/wire.go:14-50 | the codes of section 5.1 of the JSON-RPC 2.0 Specification and the implementation's own |
| `Messages.EncodedMembers` | internal/jsonrpc2/wire.go:52-74 | the encoding member by member: nothing but what the message has to say |
| `Messages.DecodesExactly` | internal/jsonrpc2/messages.go:174-207 | which JSON decodes, and into what |
| `Messages.EmptyMethodIsResponse` | internal/jsonrpc2/messages.go:174-207 | a call with an empty method decodes as an empty response |
| `Messages.DecodedShape` | internal/jsonrpc2/messages.go:174-207 | what a decoded message says about the one that was encoded |
| `Messages.CanonIdempotent` | internal/jsonrpc2/messages.go:129-146 | flattening an error once gives it its text, code and data on the other side, and flattening it again changes nothing |
| `Framing.FramingRoundTrip` | acp/transport.go:108-133 | the lines of a stream are the written encodings iff each is clean |
| `Framing.OpenEndRoundTrip` | acp/transport.go:113-129 | also when the last newline is missing |
| `Framing.LineReader.ReadLine` | acp/transport.go:113 | reads through the next newline whatever the chunks of the stream |
| `Framing.LineReader.ReadLoop` | acp/transport.go:111-131 | delivers exactly the lines of the stream and ends |
| `Framing.ReadBack` | acp/transport.go:108-133 | any chunking of a stream of clean encodings delivers them, in order |
| `Framing.IoConn.Write` | acp/transport.go:147-164 | appends one whole frame, or nothing under a cancelled context |
| `Framing.IoConn.Close` | acp/transport.go:166-172 | closes the stream once; every caller sees the first result |
| `Framing.EveryWriterInOrder` | acp/transport.go:147-164 | however writers interleave, the lines are a shuffle of the messages each of them wrote: every line belongs to one writer, and each writer's are whole and in its order |
| `RefClosure.Collector.Collect` | internal/schemagen/typegen/gen.go:224-250 | ends on cyclic definitions; adds only reachable names and leaves what it visited closed |
| `RefClosure.Collector.CollectFresh` | internal/schemagen/typegen/gen.go:194 | with a fresh seen map it adds exactly the reachable names |
| `RefClosure.ClosedHoldsReach` | internal/schemagen/typegen/gen.go:224-250 | a closed set that holds the roots holds everything reachable |
| `RefClosure.IgnoredTopLevelProtocolRefs` | internal/schemagen/typegen/gen.go:199-222 | exactly the protocol-only names: reached by a protocol branch, and neither by a public branch nor by a documented definition outside |
| `RefClosure.PublicDefinitionRefs` | internal/schemagen/typegen/gen.go:185-197 | exactly what documented, not ignored definitions reach, which are the standing ones |
| `RefClosure.EmittedDefinitions` | internal/schemagen/typegen/gen.go:18-36 | emitted are exactly the standing definitions and what they reach, and every defined name an emitted definition refers to is emitted |
| `Schemas.RefsExactly` | internal/schemagen/typegen/gen.go:224-250 | a schema refers to a name iff it or a schema nested in it at any depth does |
| `Unions.DemandedStep` | internal/schemagen/typegen/union.go:1076-1110 | every full choice requires a key iff the branch does or all nested branches do |
| `Unions.DeclaredStep` | internal/schemagen/typegen/union.go:1046-1074 | some full choice declares a key iff the branch does or some nested branch does |
| `Unions.IntersectStrings` | internal/schemagen/typegen/union.go:1112-1120 | the common keys |
| `Unions.VariantRequired` | internal/schemagen/typegen/union.go:1076-1091 | a key is required iff every full choice of nested branches requires it; in schema fields, the branch's own keys, those of the definition its single allOf reference names, and those all branches of that list; it panics iff some full choice ends at an unresolved reference; no key twice |
| `Unions.SchemaVariantRequired` | internal/schemagen/typegen/union.go:1093-1110 | the schema's own keys and those all its branches always require |
| `Unions.VariantProperties` | internal/schemagen/typegen/union.go:1046-1061 | a key is a property iff some full choice declares it; in schema fields, every property of the branch, of the definition it refers to and of the branches of that is there; own declarations win over the last nested branch, that over earlier ones, and those over the definition |
| `Unions.SchemaVariantProperties` | internal/schemagen/typegen/union.go:1063-1074 | the schema's properties under those of its branches, the last branch on top |
| `RequiredKeys.HasRequiredKeyBranches` | internal/schemagen/typegen/required_keys.go:13-35 | accepts only unions whose branches each have one always-required key of their own with a plain value; refuses only for such a reason |
| `RequiredKeys.AcceptedTableIsSound` | internal/schemagen/typegen/required_keys.go:37-130 | the table generated from an accepted union has different keys, each among its branch's fields |
| `RequiredKeys.Marshal` | internal/schemagen/typegen/required_keys.go:37-57 | the first present carrier in schema order with its branch's fields, an error when there is none |
| `RequiredKeys.Unmarshal` | internal/schemagen/typegen/required_keys.go:59-130 | the first present key in schema order decides; null, missing and undecodable fields as generated |
| `RequiredKeys.RefusedRequirements` | internal/schemagen/typegen/required_keys.go:59-130 | a carrier is refused iff it is no object, lacks a demanded property or has null where null is refused |
| `RequiredKeys.SameBranch` | internal/schemagen/typegen/required_keys.go:37-130 | the decoder selects the encoder's branch, even when that branch lists other branches' keys |
| `RequiredKeys.RoundTrip` | internal/schemagen/typegen/required_keys.go:37-130 | decode after encode fails iff no key is set or the chosen branch's carrier or a field is refused; else it gives the branch's fields as their own codecs read them, the value itself iff nothing else was set and no field changes |
| `McpResponse.Read` | acp/types_gen.go:3079-3126 | which JSON is refused: neither outcome, or no result and an error without a proper code and message; and what is read otherwise |
| `McpResponse.RoundTrip` | acp/types_gen.go:3042-3126 | an error iff neither outcome is set; otherwise the result as it is, or the error in canonical form, with the metadata |
| `McpResponse.ReturnedExactly` | acp/types_gen.go:3042-3126 | a response comes back as it is iff it does not hold both outcomes and its error is canonical |
| `McpResponse.CanonicalErrors` | acp/types_gen.go:2698-2740 | an McpError is canonical iff its null marks are none or data alone and it holds no data under the mark or that encodes as null |
| `McpResponse.ChangedErrors` | acp/types_gen.go:2698-2740 | two errors that do not come back: an unknown null mark, and data under its mark |
| `McpResponse.ConstructedRoundTrip` | acp/types_gen.go:3048-3126 | a constructed result comes back unchanged; a constructed error in canonical form, the same iff it is canonical |
| `Structs.Back` | acp/types_gen.go:6311-6389 | a struct's encoding decodes to its normal form, field by field as their modes read them |
| `Structs.Shows` | acp/types_gen.go:6311-6389 | the normal form is the value, and is encoded the same, iff every field of every nested struct comes back |
| `Structs.DecodedIsTyped` | acp/types_gen.go:6311-6389 | whatever is decoded is a value of its type, numbers in range included |
| `Structs.RolesReadApart` | acp/types_gen.go:109-153 | an audience is read element by element; one that is no known role (`OneRoleRead`) is left out without effect on the others |
| `ContentBlocks.BlockRefused` | acp/types_gen.go:1120-1188 | which JSON is refused as a block of each type |
| `ContentBlocks.BlockWritten` | acp/types_gen.go:1051-1112 | what a block writes, member by member: its type, each set member by its own encoding, and of the unset ones those its type cannot do without |
| `ContentBlocks.BlockRead` | acp/types_gen.go:1120-1188 | what is read of a block, member by member, and that nothing but the members of its type is |
| `ContentBlocks.AnnotationsRead` | acp/types_gen.go:109-153 | annotations are refused for their metadata only; what is there is set, an audience only when it is a list |
| `ContentBlocks.StateRead` | acp/types_gen.go:6311-6389 | a state is refused for its name and metadata only; what is there is set |
| `ContentBlocks.ErrorRead` | acp/types_gen.go:1976-1999 | its error is refused for a code that is no 32-bit integer or a message that is no text |
| `ContentBlocks.UsageRead` | acp/types_gen.go:7220-7262 | its usage is refused for its metadata or one of the three counts it must have |
| `ContentBlocks.CapabilitiesRead` | acp/types_gen.go:6506-6533 | capabilities are refused for their metadata only |
| `ContentBlocks.BlockBack` | acp/types_gen.go:1051-1188 | an encoded block decodes to its normal form, never to an error |
| `ContentBlocks.BlockShows` | acp/types_gen.go:1051-1188 | it comes back unchanged, and is written the same again, iff every field is one its codec returns |
| `ContentBlocks.CarefulBlocks` | acp/types_gen.go:1051-1188 | which is so iff MIME type and URI are set exactly where its type needs or allows them and its audience names known roles |
| `ContentBlocks.ImageWithoutMimeType` | acp/types_gen.go:1091-1145 | an image without a MIME type comes back changed and is written differently |
| `ContentBlocks.TextWithMimeType` | acp/types_gen.go:1051-1188 | so is a text with one |
| `ContentBlocks.StateFixed` | acp/types_gen.go:6311-6389 | a state comes back unchanged iff neither its stop reason nor its error's data is set to null |
| `Patches.Marshal` | acp/types_gen.go:7432-7490 | writes the set fields, and null for every marked one over its value |
| `Patches.Unmarshal` | acp/types_gen.go:7493-7578 | null marks in field order, tolerated and strict fields as generated |
| `Patches.RoundTrip` | acp/types_gen.go:7432-7578 | decode after encode is the canonical form, every value as its own codec reads it |
| `Patches.SlotsSurvive` | internal/schemagen/typegen/nulls.go:45-64 | omitted, null and value never merge |
| `Patches.EncodesTheSameAgain` | acp/types_gen.go:7581-7738 | encode after decode after encode is encode iff every value that is written is one its codec returns unchanged |
| `Patches.SessionMessageExact` | acp/types_gen.go:7432-7578 | for SessionMessage: iff its content, when written, has only careful blocks of known types |
| `Patches.SubagentUpdateExact` | acp/types_gen.go:7581-7738 | for SubagentUpdate: iff its state, when written, has no stop reason or error data that encodes as null |
| `Patches.ImageMessage` | acp/types_gen.go:7432-7578 | a message with an image that has no MIME type, and no mark or null value, comes back changed and is written differently |
| `Patches.CanonicalValues` | internal/schemagen/typegen/nulls.go:45-64 | a value comes back unchanged iff its null marks are in order, distinct and known, and every value is unmarked, does not encode as null and is one its codec returns |
| `Patches.SessionMessageRefused` | acp/types_gen.go:7493-7578 | a session message is refused iff its identifier is no string |
| `Patches.SubagentUpdateRefused` | acp/types_gen.go:7581-7738 | an update is refused iff its identifier, directories or working directory are malformed |
| `Patches.McpErrorRefused` | acp/types_gen.go:2718-2740 | an McpError is refused iff its code or message is malformed |
| `Patches.OnlyObjectsRead` | acp/types_gen.go:7493-7578 | null reads as the empty object and nothing else but an object is read |
| `Patches.BlocksReadApart` | acp/types_gen.go:7493-7578 | content is read block by block; one that is refused or of an unknown type (`OneBlockRead`) is left out without effect on the others |
| `Patches.SessionMessageTable` | acp/types_gen.go:7432-7486 | the field names of SessionMessage are distinct |
| `Patches.SubagentUpdateTable` | acp/types_gen.go:7581-7640 | so are those of SubagentUpdate |
| `Patches.McpErrorTable` | acp/types_gen.go:2698-2740 | and those of McpError |
| `Naming.PascalIdentifier` | internal/schemagen/typegen/const.go:300-323 | the loop over runes capitalises and joins exactly the maximal words |
| `Naming.SeparatorsVanish` | internal/schemagen/typegen/const.go:300-323 | separators only split, so different names can get one identifier |
| `Naming.DecimalReadsBack` | internal/schemagen/typegen/const.go:196 | decimal suffixes are injective |
| `Naming.UniqueConstName` | internal/schemagen/typegen/const.go:190-202 | ends for every finite used set, with the name itself or its first free suffix |
| `Naming.UniqueFieldNamesWithReserved` | internal/schemagen/typegen/const.go:240-256 | different JSON fields get different Go fields, none reserved |
| `Naming.FieldNames` | internal/schemagen/typegen/const.go:223-251 | the three special field names, and the initialism at the end of any other |
| `Naming.DefinitionNames` | internal/schemagen/typegen/const.go:272-283 | different definitions get different names |
| `Naming.SameDefinitionsSameNames` | internal/schemagen/typegen/const.go:272-283 | the names are determined by the set of definitions |
| `Naming.NamesIgnoreMapOrder` | internal/schemagen/typegen/gen.go:147-154 | so two map orders give the same names |
| `Operations.CollectOperations` | internal/schemagen/rpcgen/model.go:64-112 | returns iff no definition is rejected, no operation has two sides and no slot two definitions; then the table holds what the definitions say and nothing else, each operation handled where its side says |
| `Operations.AssignNames` | internal/schemagen/rpcgen/model.go:145-164 | constants are injective in the method; a notification that shares its method gets the suffix |
| `Operations.ValidateNames` | internal/schemagen/rpcgen/model.go:169-193 | passes iff Go names are distinct and no identifier is a type's or has two owners |
| `Operations.ConstantIsNoHandler` | internal/schemagen/rpcgen/model.go:177-192 | a constant and a handler interface that share an owner text still differ |
| `Operations.SortOperations` | internal/schemagen/rpcgen/model.go:134-139 | the same operations by constant, requests before notifications |
| `Operations.BuildOperations` | internal/schemagen/rpcgen/model.go:64-142 | panics iff the definitions cannot be collected, a needed slot is empty, or identifiers clash; else returns the operations of the definitions, named and in order; in the definitions' own fields, every side is known, every definition that is not the protocol's is in its slot, and agent, client, both and proxy methods are handled by those endpoints |
| `Operations.FaithfulDescribes` | internal/schemagen/rpcgen/sides.go:54-70 | that description in fields follows for whatever is collected faithfully |
| `Operations.NamesInFields` | internal/schemagen/rpcgen/model.go:145-164 | a Go name is the constant without its first word, with a suffix exactly for a notification that shares its method with a request |
| `Operations.BuiltIsOne` | internal/schemagen/rpcgen/model.go:113-142 | there is one such list of operations, so neither it nor a panic depends on the order maps are walked in |
| `Operations.ClashFreeExactly` | internal/schemagen/rpcgen/model.go:169-193 | validateNames passes iff names are distinct, constants injective, and no collision with types or between constants and interfaces |
| `Operations.DispatchGroups` | internal/schemagen/rpcgen/gen.go:115-122 | groups the handled operations by constant, in order: an operation is in an endpoint's groups iff its side gives the method to that endpoint |
| `Operations.GroupShape` | internal/schemagen/rpcgen/gen.go:124-134 | a group has at most two entries, the request first |
| `Operations.RouteMeaning` | internal/schemagen/rpcgen/gen.go:115-147 | a message reaches an operation of its method, of its own kind iff the endpoint handles one |

## Left out

- AnswersAreOwn: about calls with a safe identifier, below 2^53, or 2^53 itself while there is no later call; beyond, identifiers are confused (`LaterAnswerRetiresEarlier`), and which of the confused calls are in flight together is not worked out.
- AnsweredExactly: the same safe identifiers.
- RequestOrigin: the same safe identifiers for the message itself; the place it was written at is claimed for all.
- AcceptedOnce: the same safe identifiers.
- NeverInUse: the same safe identifiers.
- AcceptedTableIsSound: which carriers refuse null, and which nested properties they demand, is a parameter of the table and is not derived from the schema.
- VariantRequired: assumes that no definition nests itself, since on such a cycle the recursion does not return.
- VariantProperties: the same assumption; a property listed twice in one schema cannot occur in a map and is left open.
- HasRequiredKeyBranches: the reason for a refusal is claimed only when no schema lists a required key twice, since the code compares lengths of lists.
- UniqueFieldNamesWithReserved: parameter names and their keyword suffix are not modelled.
- ShutdownEnds: progress is in steps; fairness of the scheduler and real time are not modelled, and arrivals, handler returns and users' calls are the environment's.
- `Wait` and the error it aggregates, `closeErr`, `OnDone` and `Await`: what they report follows from the state without further protocol.
- A method name in an error text is put in quotes but not escaped.
- Identity comparison of `ErrNotHandled` and `ErrMethodNotFound` in `processResult` is comparison of values here; contexts are reduced to a cancelled flag.
- The wrap-around of the 64-bit call counter, which comes after the float64 bound.
- JSON is an abstract value: text, escaping, number syntax, fractional and repeated members, case-insensitive member names and parse errors inside a value are not modelled; compact encodings are assumed to hold no raw newline. Float64 conversion of an out-of-range number is that of amd64.
- The transport's read channel, cancellation of `Read`, subprocess and in-memory transports, and partial writes.
- In patches and content blocks, `any` values and metadata are identified with their JSON, so the change of number types inside them is not seen, and fractional numbers are abstract.
- Presence pointers and the flattened code of tagged unions, tolerant field decoders, constructors and plain structs: repetitive, and text rather than behaviour.
- Descriptions, comments, receiver names and rendering of the generated files; the envelope descriptions of operations.
- Library sorting is written as insertion; only its result matters. Unicode tables are parameters of the identifiers.
- The generated wrappers for calls and handlers, extension methods and the example programs.
- The Go memory model: every critical section is one atomic step.
