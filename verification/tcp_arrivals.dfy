/** Calls, timers and arriving segments keep the invariant. */
module TcpArrivals {
  import opened SeqSpace
  import opened TcpConn
  import opened TcpSystem
  import opened TcpInvariant
  import opened TcpSteps

  // ---------------------------------------------------------------- quiet steps

  /** Byte i of what an endpoint has received in order, read or not. */
  function Got(p: Peer, i: nat): byte
    requires i < |p.read| + |p.c.rxq|
  {
    if i < |p.read| then p.read[i] else p.c.rxq[i - |p.read|]
  }

  /** x' is x as far as its window, its stream position and what it received are concerned. */
  predicate SameStreams(x: Peer, x': Peer) {
    && x'.una == x.una && Transmitted(x') == Transmitted(x) && x'.c.sndWnd == x.c.sndWnd
    && |x'.read| + |x'.c.rxq| == |x.read| + |x.c.rxq| && x'.c.finReceived == x.c.finReceived
    && (forall i {:trigger Got(x', i)} :: 0 <= i < |x.read| + |x.c.rxq| ==> Got(x', i) == Got(x, i))
    && x'.c.rcvNxt == x.c.rcvNxt && (Live(x'.c.state) ==> Live(x.c.state))
  }

  lemma StreamSame(x: Peer, x': Peer, y: Peer)
    requires Stream(y, x) && SameStreams(x, x')
    ensures Stream(y, x')
  {
    forall i | 0 <= i < |x'.read| ensures x'.read[i] == y.sent[i] {
      assert Got(x', i) == Got(x, i);
    }
    forall i | 0 <= i < |x'.c.rxq| ensures x'.c.rxq[i] == y.sent[|x'.read| + i] {
      assert Got(x', |x'.read| + i) == Got(x, |x'.read| + i);
    }
  }

  lemma SameFrame(x: Peer, x': Peer, y: Peer, xy: set<Packet>, yx: set<Packet>, new_: set<Packet>)
    requires Pair(x, y, xy, yx) && Local(x') && Extends(x, x') && SameStreams(x, x') && PacketsOk(x', y, new_)
    ensures Pair(x', y, xy + new_, yx)
  {
    hide Wrap, PacketOk, Advertised, Local, Stream;
    StreamSame(x, x', y);
    Frame(x, x', y, xy, yx, new_);
  }

  lemma Quiet(x: Peer, x': Peer, y: Peer, xy: set<Packet>, yx: set<Packet>)
    requires Pair(x, y, xy, yx) && Local(x') && Extends(x, x') && SameStreams(x, x')
    ensures Pair(x', y, xy + Labels(x', []), yx)
  {
    hide Pair, Local, Extends, SameStreams, PacketOk;
    assert Labels(x', []) == {};
    SameFrame(x, x', y, xy, yx, {});
  }

  /** RST, the retransmit timer and freeing the control block all end in CLOSED. */
  lemma CloseKeeps(x: Peer, c: Conn, y: Peer, xy: set<Packet>, yx: set<Packet>)
    requires Pair(x, y, xy, yx) && x.c.state != Listen
    requires c == x.c.(state := Closed, soError := c.soError, active := c.active, rexmit := c.rexmit)
    ensures Pair(x.(c := c), y, xy + Labels(x.(c := c), []), yx)
  {
    hide Wrap, Cross, Covers;
    Quiet(x, x.(c := c), y, xy, yx);
  }

  /** The endpoint after a read of n bytes. */
  function Taken(x: Peer, n: nat): Peer
    requires n <= |x.c.rxq| <= CAPACITY
  {
    var c1 := x.c.(rxq := x.c.rxq[n..]);
    x.(c := c1.(rcvWnd := RxFree(c1)), read := x.read + x.c.rxq[..n])
  }

  lemma TakenNumbers(x: Peer, n: nat)
    requires Numbers(x) && n <= |x.c.rxq|
    ensures Numbers(Taken(x, n)) && Extends(x, Taken(x, n)) && Extends(x, x)
  {
    hide Wrap;
  }

  lemma TakenState(x: Peer, n: nat)
    requires StateFacts(x) && n <= |x.c.rxq| <= CAPACITY && x.c.rxq != []
    ensures StateFacts(Taken(x, n))
  {
    hide Wrap;
  }

  lemma RecvLocal(x: Peer, len: nat)
    requires Local(x) && Sane(x)
    ensures var x' := Handle(x, RecvCall(len)).0; Local(x') && Extends(x, x')
  {
    hide Wrap, Covers, Numbers, StateFacts, Extends;
    var n := Min(len, |x.c.rxq|);
    TakenNumbers(x, n);
    if x.c.rxq != [] && x.c.active {
      TakenState(x, n);
      assert Handle(x, RecvCall(len)).0 == Taken(x, n);
    } else {
      assert x.read + [] == x.read;
      assert Handle(x, RecvCall(len)).0 == x;
      SelfExtends(x);
    }
  }

  lemma RecvKeeps(x: Peer, y: Peer, xy: set<Packet>, yx: set<Packet>, len: nat)
    requires Pair(x, y, xy, yx) && Sane(x)
    ensures var (x', ws) := Handle(x, RecvCall(len)); Pair(x', y, xy + Labels(x', ws), yx)
  {
    hide Wrap, PacketsOk, Advertised, Local, RxFree;
    var (x', ws) := Handle(x, RecvCall(len));
    if x.c.rxq != [] && x.c.active {
      var n := Min(len, |x.c.rxq|);
      assert x'.read == x.read + x.c.rxq[..n] && x'.c.rxq == x.c.rxq[n..];
    }
    RecvLocal(x, len);
    Quiet(x, x', y, xy, yx);
  }

  // ---------------------------------------------------------------- acknowledgements

  lemma AckPacket(x: Peer, y: Peer)
    requires Numbers(x) && StateFacts(x) && Live(x.c.state) && Synced(y, x) && Rcv(x) <= Nxt(y) && Nxt(x) >= 1
    ensures PacketOk(x, y, Label(x, MakeWire(x.c, ACK, [])))
  {
    hide Wrap;
    LabelPos(x, Nxt(x));
  }

  lemma AckFacts(x: Peer, y: Peer, xy: set<Packet>, yx: set<Packet>)
    requires Pair(x, y, xy, yx) && Live(x.c.state)
    ensures Synced(y, x.(c := SendAck(x.c))) && Nxt(x) >= 1
  {
    hide Wrap, PacketOk, WithinWindow, Stream, Covers;
  }

  /** Sending a bare acknowledgement. */
  lemma AckKeeps(x: Peer, y: Peer, xy: set<Packet>, yx: set<Packet>)
    requires Pair(x, y, xy, yx) && Live(x.c.state)
    ensures var x' := x.(c := SendAck(x.c));
            Pair(x', y, xy + Labels(x', [MakeWire(x.c, ACK, [])]), yx)
  {
    hide Wrap, PacketOk, Cross, Covers, Synced;
    var x' := x.(c := SendAck(x.c));
    RcvBound(x, y, xy, yx);
    AckFacts(x, y, xy, yx);
    AckPacket(x', y);
    LabelsOne(x', MakeWire(x.c, ACK, []));
    SameFrame(x, x', y, xy, yx, Labels(x', [MakeWire(x.c, ACK, [])]));
  }

  lemma DelackKeeps(x: Peer, y: Peer, xy: set<Packet>, yx: set<Packet>)
    requires Pair(x, y, xy, yx) && Sane(x)
    ensures var (x', ws) := Handle(x, DelackFires); Pair(x', y, xy + Labels(x', ws), yx)
  {
    hide Wrap, PacketsOk, Advertised, Tiles;
    if x.c.delackPending && x.c.state != Closed {
      AckKeeps(x, y, xy, yx);
    } else {
      assert xy + Labels(x, []) == xy;
    }
  }

  // ---------------------------------------------------------------- our FIN

  function AfterFin(x: Peer): Peer {
    x.(c := Shutdown(x.c).0)
  }

  lemma FinFacts(x: Peer)
    requires Numbers(x) && StateFacts(x) && MaySend(x.c.state)
    ensures StateFacts(AfterFin(x)) && Nxt(AfterFin(x)) == Nxt(x) + 1
  {
    hide Wrap;
  }

  lemma FinNumbers(x: Peer)
    requires Numbers(x) && StateFacts(x) && MaySend(x.c.state)
    ensures Numbers(AfterFin(x)) && StateFacts(AfterFin(x)) && Extends(x, AfterFin(x))
    ensures Nxt(AfterFin(x)) == Nxt(x) + 1
  {
    hide Wrap, FinWasReceived;
    FinFacts(x);
    WrapAdd(x.c.iss, Nxt(x), 1);
  }

  lemma FinQueue(x: Peer)
    requires Numbers(x) && Queue(x) && StateFacts(x) && MaySend(x.c.state)
    ensures Queue(AfterFin(x))
  {
    hide Wrap, Tiles, Span;
    WrapAdd(x.c.iss, Nxt(x), 1);
    var e := Rexmit(x.c.sndNxt, Wrap(x.c.sndNxt + 1), [], FINACK);
    CoversSend(x.c.rexmit, e, x.c.iss, x.sent, x.sent, x.una, Nxt(x));
  }

  lemma FinPacket(x: Peer, y: Peer, xy: set<Packet>, yx: set<Packet>)
    requires Pair(x, y, xy, yx) && MaySend(x.c.state)
    ensures PacketOk(AfterFin(x), y, Label(AfterFin(x), MakeWire(x.c, FINACK, [])))
  {
    hide Wrap, PacketsOk, WithinWindow, Stream, Synced, Queue, Append;
    FinNumbers(x);
    RcvBound(x, y, xy, yx);
    LabelPos(AfterFin(x), Nxt(x));
  }

  lemma SentFinKeeps(x: Peer, y: Peer, xy: set<Packet>, yx: set<Packet>)
    requires Pair(x, y, xy, yx) && MaySend(x.c.state) && !x.c.finSent
    ensures var x' := AfterFin(x); Pair(x', y, xy + Labels(x', [MakeWire(x.c, FINACK, [])]), yx)
  {
    hide Wrap, Cross, PacketsOk, PacketOk, Numbers, Queue, Append, Extends, MakeWire, StateFacts;
    var x', w := AfterFin(x), MakeWire(x.c, FINACK, []);
    FinNumbers(x);
    FinQueue(x);
    FinPacket(x, y, xy, yx);
    LabelsOne(x', w);
    OnePacket(x', y, Label(x', w));
    SameFrame(x, x', y, xy, yx, Labels(x', [w]));
  }

  lemma ShutdownKeeps(x: Peer, y: Peer, xy: set<Packet>, yx: set<Packet>)
    requires Pair(x, y, xy, yx) && Sane(x)
    ensures var (x', ws) := Handle(x, ShutdownCall); Pair(x', y, xy + Labels(x', ws), yx)
  {
    hide Wrap, Pair, SendSegment, MakeWire;
    var (x', ws) := Handle(x, ShutdownCall);
    if x.c.finSent || !MaySend(x.c.state) {
      assert xy + Labels(x', ws) == xy;
    } else {
      SentFinKeeps(x, y, xy, yx);
    }
  }

  lemma OnePacket(x: Peer, y: Peer, k: Packet)
    requires PacketOk(x, y, k)
    ensures PacketsOk(x, y, {k})
  {
  }

  // ---------------------------------------------------------------- ACK processing

  /** k is one of y's segments and not stale for x. */
  predicate Arrives(x: Peer, y: Peer, k: Packet) {
    PacketOk(y, x, k) && NotStale(x, k) && !k.w.flags.rst
  }

  function AfterAck(x: Peer, w: Wire): Peer {
    var c := RxAck(x.c, w);
    x.(c := c, una := x.una + Wrap(c.sndUna - x.c.sndUna))
  }

  /** The wrapped comparison accepts exactly the acknowledgements of new data. */
  lemma AckMeaning(x: Peer, y: Peer, k: Packet)
    requires Numbers(x) && x.c.state != Listen && Arrives(x, y, k) && k.w.flags.ack
    ensures AckAcceptable(x.c, k.w) <==> x.una < k.ackPos
    ensures x.una < k.ackPos ==> Wrap(k.w.ackno - x.c.sndUna) == k.ackPos - x.una
  {
    SeqDiffExact(x.c.iss, k.ackPos, x.una);
    if x.una < k.ackPos {
      SeqDiffExact(x.c.iss, k.ackPos, Nxt(x));
      WrapDiff(x.c.iss, k.ackPos, x.una);
    }
  }

  lemma UnaIsNxt(x: Peer)
    requires Numbers(x) && x.c.state != Listen
    ensures x.c.sndUna == x.c.sndNxt <==> x.una == Nxt(x)
  {
    hide Wrap;
    WrapInjective(x.c.iss, x.una, Nxt(x));
  }

  lemma SpanBound(x: Peer)
    requires Numbers(x) && Queue(x) && x.c.state != Closed
    ensures Covers(x.c.rexmit, x.c.iss, x.sent, x.una, Nxt(x))
    ensures Span(x.c.rexmit) < TWO31
  {
  }

  /** An accepted acknowledgement, before the FIN_WAIT_1 edge. */
  function Acked(x: Peer, k: Packet): Peer {
    x.(una := k.ackPos,
    c := x.c.(sndUna := k.w.ackno, rexmit := RexmitAck(x.c.rexmit, k.w.ackno), sndWnd := k.w.window))
  }

  /** The endpoint once the acknowledgement is taken, before the FIN_WAIT_1 edge. */
  function Advanced(x: Peer, k: Packet): Peer {
    if k.w.flags.ack && x.una < k.ackPos then Acked(x, k) else x
  }

  lemma AdvancedNumbers(x: Peer, y: Peer, k: Packet)
    requires Numbers(x) && StateFacts(x) && Synchronised(x.c.state) && Arrives(x, y, k)
    ensures var x1 := Advanced(x, k);
            Numbers(x1) && Extends(x, x1) && Nxt(x1) == Nxt(x) && x1.una == x.una + Wrap(x1.c.sndUna - x.c.sndUna)
  {
    hide Wrap, SeqDiff, PacketOk, RexmitAck, FinWasSent, FinWasReceived;
    if k.w.flags.ack && x.una < k.ackPos { AckMeaning(x, y, k); AckedNumbers(x, y, k); }
    WrapZero();
  }

  lemma AfterAckIs(x: Peer, y: Peer, k: Packet)
    requires Numbers(x) && StateFacts(x) && Synchronised(x.c.state) && Arrives(x, y, k)
    ensures var x1 := Advanced(x, k);
            && Numbers(x1) && Extends(x, x1) && Nxt(x1) == Nxt(x)
            && AfterAck(x, k.w) == if x1.c.state == FinWait1 && x1.una == Nxt(x1) then x1.(c := x1.c.(state := FinWait2)) else x1
  {
    hide Wrap, SeqGt, SeqLe, Arrives, RexmitAck, Numbers, StateFacts, Extends;
    if k.w.flags.ack {
      AckMeaning(x, y, k);
    }
    var x1 := Advanced(x, k);
    AdvancedNumbers(x, y, k);
    UnaIsNxt(x1);
  }

  lemma WrapZero()
    ensures Wrap(0) == 0
  {
  }

  lemma AckedNumbers(x: Peer, y: Peer, k: Packet)
    requires Numbers(x) && StateFacts(x) && Synchronised(x.c.state) && Arrives(x, y, k)
    requires k.w.flags.ack && x.una < k.ackPos
    ensures Numbers(Acked(x, k)) && Extends(x, Acked(x, k))
  {
    hide Wrap;
  }

  lemma AckedQueue(x: Peer, y: Peer, k: Packet)
    requires Numbers(x) && StateFacts(x) && Queue(x) && Synchronised(x.c.state) && Arrives(x, y, k)
    requires k.w.flags.ack && x.una < k.ackPos
    ensures Queue(Acked(x, k))
  {
    hide Wrap, Covers, RexmitAck, FinWasSent, FinWasReceived;
    SpanBound(x);
    CoversAck(x.c.rexmit, x.c.iss, x.sent, x.una, k.ackPos, Nxt(x));
  }

  lemma AckLocal(x: Peer, y: Peer, k: Packet)
    requires Local(x) && Synchronised(x.c.state) && Arrives(x, y, k)
    ensures Local(AfterAck(x, k.w)) && Extends(x, AfterAck(x, k.w))
  {
    hide Wrap, AfterAck, Arrives, Covers, Carries, RexmitAck;
    AfterAckIs(x, y, k);
    if k.w.flags.ack && x.una < k.ackPos {
      AckedQueue(x, y, k);
    }
  }

  lemma AdvertisedBy(yx: set<Packet>, k: Packet)
    requires k in yx && !k.w.flags.rst
    ensures Advertised(yx, k.ackPos + k.w.window)
  {
  }

  lemma AckStreams(x: Peer, y: Peer, xy: set<Packet>, yx: set<Packet>, k: Packet)
    requires Pair(x, y, xy, yx) && Synchronised(x.c.state) && k in yx && Arrives(x, y, k)
    ensures var x' := AfterAck(x, k.w);
            Stream(y, x') && Synced(y, x') && x'.una <= Rcv(y) && Transmitted(x') <= CAPACITY + |y.read|
  {
    hide Wrap, AfterAck, Numbers, StateFacts, Queue, RexmitAck, WithinWindow, PacketsOk, Extends;
    AfterAckIs(x, y, k);
  }

  lemma AckWindow(x: Peer, y: Peer, xy: set<Packet>, yx: set<Packet>, k: Packet)
    requires Pair(x, y, xy, yx) && Synchronised(x.c.state) && k in yx && Arrives(x, y, k)
    ensures WithinWindow(AfterAck(x, k.w), yx)
  {
    hide Wrap, AfterAck, Numbers, Queue, RexmitAck, Advertised, Stream, Synced, PacketsOk, PacketOk, Extends, FinWasSent, FinWasReceived;
    AfterAckIs(x, y, k);
    AdvertisedBy(yx, k);
  }

  lemma AckStepKeeps(x: Peer, y: Peer, xy: set<Packet>, yx: set<Packet>, k: Packet)
    requires Pair(x, y, xy, yx) && Synchronised(x.c.state) && k in yx && Arrives(x, y, k)
    ensures Pair(AfterAck(x, k.w), y, xy + {}, yx)
  {
    hide Wrap, AfterAck, Local, Cross, Stream, Synced, WithinWindow, Extends, Arrives;
    assert Local(x);
    AckLocal(x, y, k);
    AckStreams(x, y, xy, yx, k);
    AckWindow(x, y, xy, yx, k);
    NoPackets(AfterAck(x, k.w), y);
    Frame(x, AfterAck(x, k.w), y, xy, yx, {});
  }

  // ---------------------------------------------------------------- data and FIN

  /** A segment that passes the sequence test starts at the next expected position. */
  lemma InOrder(x: Peer, y: Peer, xy: set<Packet>, yx: set<Packet>, k: Packet)
    requires Pair(x, y, xy, yx) && Live(x.c.state) && Arrives(x, y, k)
    ensures k.w.seqno == x.c.rcvNxt <==> k.pos == Rcv(x)
  {
    hide Wrap, PacketsOk, Queue, WithinWindow;
    WrapInjective(y.c.iss, k.pos, Rcv(x));
  }

  /** The receive buffer has room for every in-order segment: the drop branch of
      tcp_deliver_data is never taken. */
  lemma NothingDropped(x: Peer, y: Peer, xy: set<Packet>, yx: set<Packet>, k: Packet)
    requires Pair(x, y, xy, yx) && Live(x.c.state) && Arrives(x, y, k)
    requires k.w.data != [] && k.w.seqno == x.c.rcvNxt
    ensures |x.c.rxq| + |k.w.data| <= CAPACITY
    ensures !x.c.finReceived && k.pos == 1 + |x.read| + |x.c.rxq|
    ensures k.pos - 1 + |k.w.data| <= Transmitted(y) <= |y.sent|
    ensures Carries(k.w.data, y.sent, k.pos - 1)
  {
    hide Wrap, PacketsOk, Queue, WithinWindow;
    InOrder(x, y, xy, yx, k);
  }

  function AfterData(x: Peer, w: Wire): Peer
    requires Sane(x)
  {
    x.(c := RxData(x.c, w))
  }

  lemma DataIs(x: Peer, w: Wire)
    requires Sane(x) && |x.c.rxq| + |w.data| <= CAPACITY && w.data != []
    ensures AfterData(x, w).c.rxq == x.c.rxq + w.data && AfterData(x, w).c.rcvNxt == Wrap(x.c.rcvNxt + |w.data|)
    ensures var c := AfterData(x, w).c;
            c == x.c.(rxq := c.rxq, rcvNxt := c.rcvNxt, rcvWnd := RxFree(c), delackPending := c.delackPending)
    ensures AfterData(x, w) == x.(c := AfterData(x, w).c)
  {
    hide Wrap;
    assert w.data[..|w.data|] == w.data;
  }

  /** More bytes to read leave everything but the receive side alone. */
  lemma MoreToRead(x: Peer, x': Peer)
    requires Numbers(x) && |x.c.rxq| <= |x'.c.rxq| <= CAPACITY
    requires x' == x.(c := x'.c) && x'.c == x.c.(rxq := x'.c.rxq, rcvNxt := x'.c.rcvNxt, rcvWnd := RxFree(x'.c), delackPending := x'.c.delackPending)
    ensures Numbers(x') && Extends(x, x')
  {
    hide Wrap;
  }

  lemma DataState(x: Peer, x': Peer)
    requires StateFacts(x) && Queue(x) && Synchronised(x.c.state)
    requires x' == x.(c := x'.c) && x'.c == x.c.(rxq := x'.c.rxq, rcvNxt := x'.c.rcvNxt, rcvWnd := x'.c.rcvWnd, delackPending := x'.c.delackPending)
    ensures StateFacts(x') && Queue(x')
  {
    hide Wrap, Covers;
  }

  lemma DataLocal(x: Peer, w: Wire)
    requires Local(x) && Synchronised(x.c.state) && |x.c.rxq| + |w.data| <= CAPACITY && w.data != []
    ensures Local(AfterData(x, w)) && Extends(x, AfterData(x, w)) && Rcv(AfterData(x, w)) == Rcv(x) + |w.data|
    ensures AfterData(x, w).c.rxq == x.c.rxq + w.data && AfterData(x, w).c.rcvNxt == Wrap(x.c.rcvNxt + |w.data|)
  {
    hide Wrap, Numbers, StateFacts, Queue, Extends, RxData;
    assert Sane(x) by { NumbersSane(x); }
    DataIs(x, w);
    MoreToRead(x, AfterData(x, w));
    DataState(x, AfterData(x, w));
  }

  lemma NumbersSane(x: Peer)
    requires Numbers(x)
    ensures Sane(x)
  {
  }

  lemma SynchronisedLive(s: State)
    requires Synchronised(s)
    ensures Live(s)
  {
  }

  lemma DataStream(x: Peer, y: Peer, data: seq<byte>, x': Peer)
    requires Stream(y, x) && Synced(y, x) && Live(x.c.state) && !x.c.finReceived
    requires var n := |x.read| + |x.c.rxq|; n + |data| <= Transmitted(y) && Carries(data, y.sent, n)
    requires x'.c.rxq == x.c.rxq + data && x'.read == x.read && x'.c.finReceived == x.c.finReceived
    requires x'.c.rcvNxt == Wrap(x.c.rcvNxt + |data|)
    ensures Stream(y, x') && Synced(y, x')
  {
    hide Wrap;
    WrapAdd(y.c.iss, Rcv(x), |data|);
  }

  lemma DataKeeps(x: Peer, y: Peer, xy: set<Packet>, yx: set<Packet>, k: Packet)
    requires Pair(x, y, xy, yx) && Synchronised(x.c.state) && Arrives(x, y, k)
    requires k.w.data != [] && k.w.seqno == x.c.rcvNxt && Sane(x)
    ensures Pair(AfterData(x, k.w), y, xy + {}, yx)
  {
    hide Wrap, Numbers, StateFacts, Queue, PacketOk, PacketsOk, Advertised, Synchronised;
    assert Live(x.c.state) by { SynchronisedLive(x.c.state); }
    NothingDropped(x, y, xy, yx, k);
    var x' := AfterData(x, k.w);
    DataLocal(x, k.w);
    NoPackets(x', y);
    DataStream(x, y, k.w.data, x');
    Frame(x, x', y, xy, yx, {});
  }

  function AfterPeerFin(x: Peer): Peer {
    var c := RxFin(x.c);
    x.(c := SendAck(c).(state := FinState(c.state)))
  }

  lemma PeerFinLocal(x: Peer)
    requires Local(x) && Synchronised(x.c.state) && !x.c.finReceived
    ensures Local(AfterPeerFin(x)) && Extends(x, AfterPeerFin(x)) && Rcv(AfterPeerFin(x)) == Rcv(x) + 1
    ensures Live(AfterPeerFin(x).c.state) && Nxt(AfterPeerFin(x)) == Nxt(x) >= 1
  {
    hide Wrap, Covers;
  }

  lemma FinArrives(x: Peer, y: Peer, xy: set<Packet>, yx: set<Packet>, k: Packet)
    requires Pair(x, y, xy, yx) && Live(x.c.state) && Arrives(x, y, k)
    requires k.w.flags.fin && k.w.seqno == x.c.rcvNxt
    ensures !x.c.finReceived && y.c.finSent && |x.read| + |x.c.rxq| == Transmitted(y)
  {
    hide Wrap, PacketsOk, Queue, WithinWindow;
    InOrder(x, y, xy, yx, k);
  }

  lemma PeerFinKeeps(x: Peer, y: Peer, xy: set<Packet>, yx: set<Packet>, k: Packet)
    requires Pair(x, y, xy, yx) && Synchronised(x.c.state) && Arrives(x, y, k)
    requires k.w.flags.fin && k.w.seqno == x.c.rcvNxt
    ensures var x' := AfterPeerFin(x);
            Pair(x', y, xy + Labels(x', [MakeWire(RxFin(x.c), ACK, [])]), yx)
  {
    hide Wrap, Queue, PacketOk, PacketsOk, Advertised, Numbers, StateFacts;
    var x' := AfterPeerFin(x);
    FinArrives(x, y, xy, yx, k);
    RcvBound(x, y, xy, yx);
    PeerFinLocal(x);
    WrapAdd(y.c.iss, Rcv(x), 1);
    assert Synced(y, x');
    var w := MakeWire(x'.c, ACK, []);
    assert w == MakeWire(RxFin(x.c), ACK, []);
    AckPacket(x', y);
    LabelsOne(x', w);
    OnePacket(x', y, Label(x', w));
    Frame(x, x', y, xy, yx, Labels(x', [w]));
  }

  // ---------------------------------------------------------------- the synchronised states

  lemma AfterAckFields(x: Peer, w: Wire)
    requires Synchronised(x.c.state)
    ensures var x1 := AfterAck(x, w);
            && Synchronised(x1.c.state) && x1.c == RxAck(x.c, w) && Rcv(x1) == Rcv(x)
            && x1.sent == x.sent && x1.read == x.read
            && x1.una == x.una + Wrap(RxAck(x.c, w).sndUna - x.c.sndUna)
  {
  }

  lemma ArrivesAfterAck(x: Peer, y: Peer, k: Packet)
    requires Local(x) && Synchronised(x.c.state) && Arrives(x, y, k)
    ensures Arrives(AfterAck(x, k.w), y, k)
  {
    hide Wrap, AfterAck, Numbers, StateFacts, Queue, PacketOk;
    AckLocal(x, y, k);
    PacketSeen(x, AfterAck(x, k.w), y, k);
    assert NotStale(AfterAck(x, k.w), k) by { AfterAckIs(x, y, k); }
  }

  lemma PayloadKeeps(x: Peer, y: Peer, xy: set<Packet>, yx: set<Packet>, k: Packet)
    requires Pair(x, y, xy, yx) && Synchronised(x.c.state) && Arrives(x, y, k) && Sane(x)
    ensures var (c, ws) := RxPayload(x.c, k.w);
            Pair(x.(c := c), y, xy + Labels(x.(c := c), ws), yx) && c.sndUna == x.c.sndUna
  {
    hide Pair, Wrap, Arrives, Labels, Label, MakeWire, FinState;
    var (c, ws) := RxPayload(x.c, k.w);
    var x' := x.(c := c);
    if (|k.w.data| > 0 || k.w.flags.fin) && k.w.seqno != x.c.rcvNxt {
      AckKeeps(x, y, xy, yx);
    } else if k.w.flags.fin {
      FinAlone(x, y, k);
      PeerFinKeeps(x, y, xy, yx, k);
    } else {
      if |k.w.data| > 0 {
        DataKeeps(x, y, xy, yx, k);
      }
      LabelsNone(x');
      assert xy + {} == xy;
    }
  }

  lemma LabelsNone(x: Peer)
    ensures Labels(x, []) == {}
  {
  }

  lemma SynchronisedKeeps(x: Peer, y: Peer, xy: set<Packet>, yx: set<Packet>, k: Packet)
    requires Pair(x, y, xy, yx) && Synchronised(x.c.state) && k in yx && Arrives(x, y, k) && Sane(x)
    ensures var (c, ws) := RxSynchronised(x.c, k.w);
            var x' := x.(c := c, una := x.una + Wrap(c.sndUna - x.c.sndUna));
            Pair(x', y, xy + Labels(x', ws), yx)
  {
    hide Pair, Local, Wrap, AfterAck, Arrives, RxAck, RxPayload, Labels, Synchronised;
    PairLocal(x, y, xy, yx);
    AckStepKeeps(x, y, xy, yx, k);
    AfterAckFields(x, k.w);
    ArrivesAfterAck(x, y, k);
    assert xy + {} == xy;
    PairSane(AfterAck(x, k.w), y, xy, yx);
    PayloadKeeps(AfterAck(x, k.w), y, xy, yx, k);
  }

  lemma FinAlone(x: Peer, y: Peer, k: Packet)
    requires Arrives(x, y, k) && k.w.flags.fin
    ensures k.w.data == []
  {
  }

  lemma PairLocal(x: Peer, y: Peer, xy: set<Packet>, yx: set<Packet>)
    requires Pair(x, y, xy, yx)
    ensures Local(x) && Local(y)
  {
  }

  lemma PairFacts(x: Peer, y: Peer, xy: set<Packet>, yx: set<Packet>)
    requires Pair(x, y, xy, yx)
    ensures Numbers(x) && StateFacts(x) && Sane(x)
  {
  }

  // ---------------------------------------------------------------- handshake

  /** SYN at the listener. */
  lemma SynLocal(x: Peer, w: Wire)
    requires Local(x) && x.c.state == Listen && w.option == PeerAccepts(MSS_DEFAULT)
    ensures var x' := x.(c := HandleSyn(x.c, w).0);
            Local(x') && Extends(x, x') && Nxt(x') == 1 && Rcv(x') == 1 && x'.c.rcvNxt == Wrap(w.seqno + 1)
  {
    hide Wrap;
    var x' := x.(c := HandleSyn(x.c, w).0);
    WrapAdd(x.c.iss, 0, 1);
    WrapSame(x.c.iss);
    var e := Rexmit(x.c.iss, Wrap(x.c.iss + 1), [], SYNACK);
    assert x'.c.rexmit == Entry(e, Nothing);
    assert Span(Entry(e, Nothing)) == 1;
    assert Tiles(Entry(e, Nothing), x.c.iss, [], 0) by { assert EntryAt(e, x.c.iss, [], 0); }
  }

  lemma SynKeeps(x: Peer, y: Peer, xy: set<Packet>, yx: set<Packet>, k: Packet)
    requires Pair(x, y, xy, yx) && x.c.state == Listen && k in yx && Arrives(x, y, k)
    requires k.w.flags.syn && !k.w.flags.ack
    ensures var (c, ws) := HandleSyn(x.c, k.w);
            Pair(x.(c := c), y, xy + Labels(x.(c := c), ws), yx)
  {
    hide Wrap, Queue, PacketsOk, Advertised;
    var (c, ws) := HandleSyn(x.c, k.w);
    var x' := x.(c := c);
    SynLocal(x, k.w);
    WrapAdd(y.c.iss, 0, 1);
    AdvertisedBy(yx, k);
    LabelPos(x', 0);
    LabelsOne(x', ws[0]);
    assert PacketOk(x', y, Label(x', ws[0]));
    OnePacket(x', y, Label(x', ws[0]));
    Frame(x, x', y, xy, yx, Labels(x', ws));
  }

  /** The acknowledgement of our SYN moves the endpoint to ESTABLISHED. */
  function AfterHandshake(x: Peer, wnd: u32, rcvNxt: u32, irs: u32, mss: Mss): Peer {
    x.(una := 1, c := x.c.(sndUna := x.c.sndNxt, sndWnd := wnd, rcvNxt := rcvNxt, irs := irs, sndMss := mss,
    rexmit := RexmitAck(x.c.rexmit, x.c.sndNxt), state := Established))
  }

  lemma HandshakeLocal(x: Peer, wnd: u32, rcvNxt: u32, irs: u32, mss: Mss)
    requires Local(x) && (x.c.state == SynSent || x.c.state == SynReceived)
    requires wnd <= 65535 && mss <= MSS_DEFAULT
    ensures var x' := AfterHandshake(x, wnd, rcvNxt, irs, mss);
            Local(x') && Extends(x, x') && Nxt(x') == 1 && Rcv(x') == 1 && Transmitted(x') == 0
  {
    hide Wrap, Tiles, Span, RexmitAck;
    SpanBound(x);
    CoversAck(x.c.rexmit, x.c.iss, x.sent, 0, 1, 1);
  }

  lemma SynAckKeeps(x: Peer, y: Peer, xy: set<Packet>, yx: set<Packet>, k: Packet)
    requires Pair(x, y, xy, yx) && x.c.state == SynSent && k in yx && Arrives(x, y, k)
    requires k.w.flags.syn && k.w.flags.ack
    ensures k.w.ackno == x.c.sndNxt
    ensures var (c, ws) := RxSynSent(x.c, k.w);
            var x' := x.(c := c, una := 1);
            Pair(x', y, xy + Labels(x', ws), yx)
  {
    hide Wrap, Queue, PacketsOk, RexmitAck, Advertised;
    var c1 := AfterHandshake(x, k.w.window, Wrap(k.w.seqno + 1), k.w.seqno, MSS_DEFAULT);
    HandshakeLocal(x, k.w.window, Wrap(k.w.seqno + 1), k.w.seqno, MSS_DEFAULT);
    WrapAdd(y.c.iss, 0, 1);
    AdvertisedBy(yx, k);
    NoPackets(c1, y);
    Frame(x, c1, y, xy, yx, {});
    assert xy + {} == xy;
    AckKeeps(c1, y, xy, yx);
  }

  lemma AckOfSynAckKeeps(x: Peer, y: Peer, xy: set<Packet>, yx: set<Packet>, k: Packet)
    requires Pair(x, y, xy, yx) && x.c.state == SynReceived && k in yx && Arrives(x, y, k)
    requires k.w.flags.ack
    ensures var x' := AfterHandshake(x, x.c.sndWnd, x.c.rcvNxt, x.c.irs, x.c.sndMss);
            Pair(x', y, xy, yx)
  {
    hide Wrap, Queue, PacketsOk, RexmitAck, Advertised;
    var x' := AfterHandshake(x, x.c.sndWnd, x.c.rcvNxt, x.c.irs, x.c.sndMss);
    HandshakeLocal(x, x.c.sndWnd, x.c.rcvNxt, x.c.irs, x.c.sndMss);
    NoPackets(x', y);
    Frame(x, x', y, xy, yx, {});
    assert xy + {} == xy;
  }

  // ---------------------------------------------------------------- every arrival

  lemma Unchanged(x: Peer, y: Peer, xy: set<Packet>, yx: set<Packet>, ws: seq<Wire>)
    requires Pair(x, y, xy, yx) && forall w :: w in ws ==> w.flags == RSTACK
    ensures Pair(x, y, xy + Labels(x, ws), yx)
  {
    hide Wrap, Advertised, Local, Stream, Synced;
    assert PacketsOk(x, y, Labels(x, ws)) by {
      forall k | k in Labels(x, ws) ensures PacketOk(x, y, k) {}
    }
    assert Extends(x, x) by { SelfExtends(x); }
    Frame(x, x, y, xy, yx, Labels(x, ws));
  }

  lemma SelfExtends(x: Peer)
    requires Local(x)
    ensures Extends(x, x)
  {
  }

  lemma SynReceivedKeeps(x: Peer, y: Peer, xy: set<Packet>, yx: set<Packet>, k: Packet, full: bool)
    requires Pair(x, y, xy, yx) && x.c.state == SynReceived && k in yx && Arrives(x, y, k)
    ensures var c := RxSynReceived(x.c, k.w, full);
            var x' := x.(c := c, una := x.una + Wrap(c.sndUna - x.c.sndUna));
            Pair(x', y, xy + Labels(x', []), yx)
  {
    hide Pair, Wrap, PacketOk, Queue, RexmitAck, Labels;
    var c := RxSynReceived(x.c, k.w, full);
    PairLocal(x, y, xy, yx);
    WrapZero();
    if k.w.flags.ack && k.w.ackno == x.c.sndNxt {
      AckOfSynAckKeeps(x, y, xy, yx, k);
      WrapDiff(x.c.iss, 1, 0);
      WrapOne();
      var x1 := AfterHandshake(x, x.c.sndWnd, x.c.rcvNxt, x.c.irs, x.c.sndMss);
      if full {
        CloseKeeps(x1, c, y, xy, yx);
      } else {
        Unchanged(x1, y, xy, yx, []);
      }
    } else {
      Unchanged(x, y, xy, yx, []);
    }
  }

  lemma WrapSame(x: u32)
    ensures Wrap(x) == x
  {
  }

  lemma WrapOne()
    ensures Wrap(1) == 1
  {
  }

  lemma SynSentKeeps(x: Peer, y: Peer, xy: set<Packet>, yx: set<Packet>, k: Packet)
    requires Pair(x, y, xy, yx) && x.c.state == SynSent && k in yx && Arrives(x, y, k)
    ensures var (c, ws) := RxSynSent(x.c, k.w);
            var x' := x.(c := c, una := x.una + Wrap(c.sndUna - x.c.sndUna));
            Pair(x', y, xy + Labels(x', ws), yx)
  {
    hide Pair, Wrap, PacketOk, Queue, RexmitAck, Labels;
    PairLocal(x, y, xy, yx);
    WrapZero();
    if k.w.flags.syn && k.w.flags.ack {
      SynAckKeeps(x, y, xy, yx, k);
      WrapDiff(x.c.iss, 1, 0);
      WrapOne();
    } else {
      Unchanged(x, y, xy, yx, []);
    }
  }

  lemma RxKeeps(x: Peer, y: Peer, xy: set<Packet>, yx: set<Packet>, k: Packet, full: bool)
    requires Pair(x, y, xy, yx) && x.c.state != Listen && Sane(x)
    requires k in yx && PacketOk(y, x, k) && NotStale(x, k)
    ensures var (c, ws) := Rx(x.c, k.w, full);
            var x' := x.(c := c, una := x.una + Wrap(c.sndUna - x.c.sndUna));
            Pair(x', y, xy + Labels(x', ws), yx)
  {
    hide Pair, Wrap, PacketOk, Queue, RexmitAck, Labels, RxSynSent, RxSynReceived, RxSynchronised, Numbers;
    PairLocal(x, y, xy, yx);
    WrapZero();
    var (c, ws) := Rx(x.c, k.w, full);
    if k.w.flags.rst {
      CloseKeeps(x, c, y, xy, yx);
    } else if x.c.state == SynSent {
      SynSentKeeps(x, y, xy, yx, k);
    } else if x.c.state == SynReceived {
      SynReceivedKeeps(x, y, xy, yx, k, full);
    } else if Synchronised(x.c.state) {
      SynchronisedKeeps(x, y, xy, yx, k);
    } else if x.c.state == TimeWait {
      AckKeeps(x, y, xy, yx);
    } else {
      UnaIsNxt(x);
      Unchanged(x, y, xy, yx, []);
    }
  }

  lemma ResetsAreBare(x: Peer, y: Peer, k: Packet)
    requires PacketOk(x, y, k) && k.w.flags.rst
    ensures k.w.flags == RSTACK
  {
  }

  lemma ArriveKeeps(x: Peer, y: Peer, xy: set<Packet>, yx: set<Packet>, k: Packet, full: bool)
    requires Pair(x, y, xy, yx) && Sane(x) && k in yx && NotStale(x, k)
    ensures var (x', ws) := Handle(x, Arrive(k, full)); Pair(x', y, xy + Labels(x', ws), yx)
  {
    hide Wrap, PacketOk, Local, Stream, Synced, WithinWindow, Labels, Rx, HandleSyn;
    assert PacketOk(y, x, k);
    if x.c.state == Listen {
      if k.w.flags.syn && !k.w.flags.ack {
        if k.w.flags.rst { ResetsAreBare(y, x, k); }
        SynKeeps(x, y, xy, yx, k);
      } else {
        Unchanged(x, y, xy, yx, NoConnection(k.w));
      }
    } else if !x.c.active {
      Unchanged(x, y, xy, yx, NoConnection(k.w));
    } else {
      RxKeeps(x, y, xy, yx, k, full);
    }
  }
}
