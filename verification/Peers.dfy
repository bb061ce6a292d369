// Two connections joined by reliable FIFO streams: what one side reads, in order, is what decoding
// makes of what the other side wrote. Either side may read later, or stop reading, but never reads
// anything else.
module Peers {
  import opened Wrappers
  import opened Messages
  import opened Connection
  import opened ConnectionInvariant
  import opened ConnectionRequests
  import opened ConnectionRuns
  import opened ConnectionEvolution
  import opened ConnectionTheorems

  datatype Link = Link(a: Conn, b: Conn)

  datatype Move = MoveA(l: Label) | MoveB(l: Label)

  // A read takes the next message of the stream.
  predicate FromStream(c: Conn, peer: Conn, l: Label) {
    l.LReadRequest? || l.LReadResponse? ==>
      |c.received| < |peer.sent| && DecodeMessage(EncodeMessage(peer.sent[|c.received|].msg)) == Ok(l.msg)
  }

  predicate CanMove(p: Link, m: Move) {
    match m
    case MoveA(l) => Enabled(p.a, l) && FromStream(p.a, p.b, l)
    case MoveB(l) => Enabled(p.b, l) && FromStream(p.b, p.a, l)
  }

  function Next(p: Link, m: Move): Link
    requires CanMove(p, m)
  {
    match m
    case MoveA(l) => p.(a := Apply(p.a, l))
    case MoveB(l) => p.(b := Apply(p.b, l))
  }

  predicate CanPlay(p: Link, ms: seq<Move>)
    decreases |ms|
  {
    ms == [] || (CanMove(p, ms[0]) && CanPlay(Next(p, ms[0]), ms[1..]))
  }

  function Play(p: Link, ms: seq<Move>): Link
    requires CanPlay(p, ms)
    decreases |ms|
  {
    if ms == [] then p else Play(Next(p, ms[0]), ms[1..])
  }

  const Fresh := Link(Initial(), Initial())

  ghost predicate LinkReachable(p: Link) {
    exists ms: seq<Move> :: CanPlay(Fresh, ms) && Play(Fresh, ms) == p
  }

  // ---------------------------------------------------------------------------------------------
  // The streams

  ghost predicate Delivered(received: seq<Message>, sent: seq<Sent>) {
    && |received| <= |sent|
    && forall j :: 0 <= j < |received| ==> DecodeMessage(EncodeMessage(sent[j].msg)) == Ok(received[j])
  }

  ghost predicate LinkInv(p: Link) {
    Inv(p.a) && Inv(p.b) && Delivered(p.a.received, p.b.sent) && Delivered(p.b.received, p.a.sent)
  }

  // Only the two read steps extend what a connection has read.
  lemma ReadsOnlyByReading(c: Conn, l: Label)
    requires Enabled(c, l)
    ensures Apply(c, l).received == if l.LReadRequest? || l.LReadResponse? then c.received + [l.msg] else c.received
  {
    hide Apply, Enabled;
    match l
    case LReadRequest(_) => ReadersRead(c, l);
    case LReadResponse(_) => ReadersRead(c, l);
    case LStart => ReadersRead(c, l);
    case LReadFail(_) => ReadersRead(c, l);
    case LDeliver => ReadersRead(c, l);
    case LReaderExit => ReadersRead(c, l);
    case LWriteGate(_, _) => GateReadsNothing(c, l);
    case LWriteDo(_, _, _) => WriteReadsNothing(c, l);
    case LWriteRecord(_) => WriteReadsNothing(c, l);
    case LAccept => AcceptReadsNothing(c, l);
    case LPreempt(_) => AcceptReadsNothing(c, l);
    case LEnqueue => AcceptReadsNothing(c, l);
    case LDequeue => HandlingReadsNothing(c, l);
    case LCheckContext => HandlingReadsNothing(c, l);
    case LStaleResult => HandlingReadsNothing(c, l);
    case LProcess(_) => HandlingReadsNothing(c, l);
    case LFinish(_) => HandlingReadsNothing(c, l);
    case LResume => HandlersReadNothing(c, l);
    case LAsync(_) => HandlersReadNothing(c, l);
    case LHandleReturn(_, _) => HandlersReadNothing(c, l);
    case LRelease(_) => HandlersReadNothing(c, l);
    case _ => UsersReadNothing(c, l);
  }

  lemma ReadersRead(c: Conn, l: Label)
    requires Enabled(c, l)
    requires l.LReadRequest? || l.LReadResponse? || l.LStart? || l.LReadFail? || l.LDeliver? || l.LReaderExit?
    ensures Apply(c, l).received == if l.LReadRequest? || l.LReadResponse? then c.received + [l.msg] else c.received
  {}

  lemma GateReadsNothing(c: Conn, l: Label)
    requires Enabled(c, l) && l.LWriteGate?
    ensures Apply(c, l).received == c.received
  {}

  lemma WriteReadsNothing(c: Conn, l: Label)
    requires Enabled(c, l) && (l.LWriteDo? || l.LWriteRecord?)
    ensures Apply(c, l).received == c.received
  {}

  lemma AcceptReadsNothing(c: Conn, l: Label)
    requires Enabled(c, l) && (l.LAccept? || l.LPreempt? || l.LEnqueue?)
    ensures Apply(c, l).received == c.received
  {}

  lemma HandlingReadsNothing(c: Conn, l: Label)
    requires Enabled(c, l) && (l.LDequeue? || l.LCheckContext? || l.LStaleResult? || l.LProcess? || l.LFinish?)
    ensures Apply(c, l).received == c.received
  {
    hide Settle;
  }

  lemma HandlersReadNothing(c: Conn, l: Label)
    requires Enabled(c, l) && (l.LResume? || l.LAsync? || l.LHandleReturn? || l.LRelease?)
    ensures Apply(c, l).received == c.received
  {}

  predicate UserStep(l: Label) {
    l.LCallStart? || l.LCallRegister? || l.LCallRefuse? || l.LCallRetire? || l.LUserRetire? || l.LNotifyStart?
    || l.LNotifyAdmit? || l.LNotifyFinish? || l.LCancelLookup? || l.LCancelFire? || l.LClose?
  }

  lemma UsersReadNothing(c: Conn, l: Label)
    requires Enabled(c, l) && UserStep(l)
    ensures Apply(c, l).received == c.received
  {}

  // A step of one side, seen with the stream on either side of it.
  lemma StepKeepsStreams(c: Conn, peer: Conn, l: Label)
    requires Inv(c) && Enabled(c, l) && FromStream(c, peer, l)
    requires Delivered(c.received, peer.sent) && Delivered(peer.received, c.sent)
    ensures Inv(Apply(c, l))
    ensures Delivered(Apply(c, l).received, peer.sent) && Delivered(peer.received, Apply(c, l).sent)
  {
    hide Inv, Apply, Enabled, EncodeMessage, DecodeMessage;
    StepKeepsInv(c, l);
    StepEvolves(c, l);
    ReadsOnlyByReading(c, l);
  }

  lemma MoveKeepsLinkInv(p: Link, m: Move)
    requires LinkInv(p) && CanMove(p, m)
    ensures LinkInv(Next(p, m))
  {
    hide Inv, Apply, Enabled, Delivered, FromStream;
    match m
    case MoveA(l) => StepKeepsStreams(p.a, p.b, l);
    case MoveB(l) => StepKeepsStreams(p.b, p.a, l);
  }

  lemma {:induction false} PlayKeepsLinkInv(p: Link, ms: seq<Move>)
    requires LinkInv(p) && CanPlay(p, ms)
    ensures LinkInv(Play(p, ms))
    decreases |ms|
  {
    hide LinkInv, CanMove, Next;
    if ms != [] {
      MoveKeepsLinkInv(p, ms[0]);
      PlayKeepsLinkInv(Next(p, ms[0]), ms[1..]);
    }
  }

  lemma LinkReachableInv(p: Link)
    requires LinkReachable(p)
    ensures LinkInv(p)
  {
    hide CanMove, Next;
    var ms: seq<Move> :| CanPlay(Fresh, ms) && Play(Fresh, ms) == p;
    InitialInv();
    PlayKeepsLinkInv(Fresh, ms);
  }

  lemma {:induction false} PlayJoin(p: Link, ms: seq<Move>, ns: seq<Move>)
    requires CanPlay(p, ms) && CanPlay(Play(p, ms), ns)
    ensures CanPlay(p, ms + ns) && Play(p, ms + ns) == Play(Play(p, ms), ns)
    decreases |ms|
  {
    hide CanMove, Next;
    if ms == [] {
      assert ms + ns == ns;
    } else {
      assert (ms + ns)[0] == ms[0] && (ms + ns)[1..] == ms[1..] + ns;
      PlayJoin(Next(p, ms[0]), ms[1..], ns);
    }
  }

  // Reachability, one move further.
  lemma ReachNext(p: Link, m: Move)
    requires LinkReachable(p) && CanMove(p, m)
    ensures LinkReachable(Next(p, m))
  {
    hide CanMove, Next;
    var ms: seq<Move> :| CanPlay(Fresh, ms) && Play(Fresh, ms) == p;
    assert CanPlay(p, [m]) && Play(p, [m]) == Next(p, m);
    PlayJoin(Fresh, ms, [m]);
  }

  lemma StepA(p: Link, l: Label, a: Conn)
    requires LinkReachable(p) && Enabled(p.a, l) && FromStream(p.a, p.b, l) && Apply(p.a, l) == a
    ensures LinkReachable(Link(a, p.b))
  {
    hide LinkReachable, Enabled, Apply, FromStream;
    ReachNext(p, MoveA(l));
  }

  lemma StepB(p: Link, l: Label, b: Conn)
    requires LinkReachable(p) && Enabled(p.b, l) && FromStream(p.b, p.a, l) && Apply(p.b, l) == b
    ensures LinkReachable(Link(p.a, b))
  {
    hide LinkReachable, Enabled, Apply, FromStream;
    ReachNext(p, MoveB(l));
  }

  // Steps that read nothing.
  lemma LocalA(p: Link, l: Label, a: Conn)
    requires LinkReachable(p) && !l.LReadRequest? && !l.LReadResponse? && Enabled(p.a, l) && Apply(p.a, l) == a
    ensures LinkReachable(Link(a, p.b))
  {
    hide LinkReachable, Enabled, Apply;
    assert FromStream(p.a, p.b, l);
    StepA(p, l, a);
  }

  lemma LocalB(p: Link, l: Label, b: Conn)
    requires LinkReachable(p) && !l.LReadRequest? && !l.LReadResponse? && Enabled(p.b, l) && Apply(p.b, l) == b
    ensures LinkReachable(Link(p.a, b))
  {
    hide LinkReachable, Enabled, Apply;
    assert FromStream(p.b, p.a, l);
    StepB(p, l, b);
  }

  // Either side may be called a: the pair can be turned around.
  function Turned(p: Link): Link { Link(p.b, p.a) }

  function TurnedMoves(ms: seq<Move>): seq<Move> {
    if ms == [] then [] else [if ms[0].MoveA? then MoveB(ms[0].l) else MoveA(ms[0].l)] + TurnedMoves(ms[1..])
  }

  lemma {:induction false} PlayTurned(p: Link, ms: seq<Move>)
    requires CanPlay(p, ms)
    ensures CanPlay(Turned(p), TurnedMoves(ms)) && Play(Turned(p), TurnedMoves(ms)) == Turned(Play(p, ms))
    decreases |ms|
  {
    hide Apply, Enabled, FromStream;
    if ms != [] {
      PlayTurned(Next(p, ms[0]), ms[1..]);
      assert TurnedMoves(ms)[1..] == TurnedMoves(ms[1..]);
    }
  }

  // What holds of one side in every run holds of the other.
  lemma BothSides(p: Link)
    requires LinkReachable(p)
    ensures LinkReachable(Turned(p))
  {
    hide CanMove, Next;
    var ms: seq<Move> :| CanPlay(Fresh, ms) && Play(Fresh, ms) == p;
    PlayTurned(Fresh, ms);
  }
}
