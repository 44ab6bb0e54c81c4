/** What holds in every run of two endpoints over a network that loses, duplicates and reorders. */
module TcpTheorems {
  import opened SeqSpace
  import opened TcpConn
  import opened TcpSystem
  import opened TcpInvariant
  import opened TcpSteps
  import opened TcpArrivals

  // ---------------------------------------------------------------- the invariant over runs

  lemma ConnectNumbers(i: u32)
    ensures var p := Peer(Connect(Fresh(i)).0, 0, [], []);
            Numbers(p) && StateFacts(p) && Nxt(p) == 1 && Label(p, Connect(Fresh(i)).1[0]).pos == 0
  {
    hide Wrap, Append;
    var p := Peer(Connect(Fresh(i)).0, 0, [], []);
    WrapAdd(i, 0, 1);
    WrapSame(i);
    LabelPos(p, 0);
  }

  lemma ConnectQueue(i: u32)
    ensures Queue(Peer(Connect(Fresh(i)).0, 0, [], []))
  {
    hide Wrap;
    var p := Peer(Connect(Fresh(i)).0, 0, [], []);
    WrapAdd(i, 0, 1);
    WrapSame(i);
    var e := Rexmit(i, Wrap(i + 1), [], SYN);
    assert p.c.rexmit == Entry(e, Nothing);
    assert Span(Entry(e, Nothing)) == 1;
    assert Tiles(Entry(e, Nothing), i, [], 0) by { assert EntryAt(e, i, [], 0); }
  }

  lemma ConnectLocal(i: u32)
    ensures var p := Peer(Connect(Fresh(i)).0, 0, [], []);
            Local(p) && Nxt(p) == 1 && Label(p, Connect(Fresh(i)).1[0]).pos == 0
  {
    hide Numbers, StateFacts, Queue;
    ConnectNumbers(i);
    ConnectQueue(i);
  }

  lemma InitPacket(i: u32, y: Peer)
    ensures var (c, ws) := Connect(Fresh(i));
            var x := Peer(c, 0, [], []);
            ws == [ws[0]] && PacketOk(x, y, Label(x, ws[0]))
  {
    hide Wrap, Covers;
    ConnectLocal(i);
    WrapSame(i);
  }

  lemma InitPair(i: u32, j: u32)
    ensures var (c, ws) := Connect(Fresh(i));
            var x := Peer(c, 0, [], []);
            Pair(x, Peer(Fresh(j).(state := Listen), 0, [], []), Labels(x, ws), {})
  {
    hide Wrap, Local, PacketOk, SendSegment, MakeWire;
    var (c, ws) := Connect(Fresh(i));
    var x, y := Peer(c, 0, [], []), Peer(Fresh(j).(state := Listen), 0, [], []);
    ConnectLocal(i);
    ListenLocal(j);
    InitPacket(i, y);
    LabelsOne(x, ws[0]);
    OnePacket(x, y, Label(x, ws[0]));
    ConnectStreams(i, j);
  }

  lemma ConnectStreams(i: u32, j: u32)
    ensures var x := Peer(Connect(Fresh(i)).0, 0, [], []);
            var y := Peer(Fresh(j).(state := Listen), 0, [], []);
            && Stream(x, y) && Stream(y, x) && !Live(x.c.state) && !Live(y.c.state)
            && x.c.sndWnd == 0 && y.c.sndWnd == 0 && Transmitted(x) == 0 && Transmitted(y) == 0
  {
  }

  lemma InitInv(s: Sys)
    requires Init(s)
    ensures Inv(s)
  {
    hide Pair, Connect, Fresh, Labels;
    var i: u32, j: u32 :| var (c, ws) := Connect(Fresh(i));
      var p := Peer(c, 0, [], []);
      s == Sys(p, Peer(Fresh(j).(state := Listen), 0, [], []), Labels(p, ws), {});
    InitPair(i, j);
  }

  lemma ListenLocal(j: u32)
    ensures Local(Peer(Fresh(j).(state := Listen), 0, [], []))
  {
  }

  /** Any event at one endpoint keeps the invariant of both. */
  lemma HandleKeeps(x: Peer, y: Peer, xy: set<Packet>, yx: set<Packet>, e: Event)
    requires Pair(x, y, xy, yx) && Sane(x) && Enabled(x, yx, e)
    ensures var (x', ws) := Handle(x, e); Pair(x', y, xy + Labels(x', ws), yx)
  {
    hide Pair, Wrap, HandleArrival, SendTo, Shutdown, RecvFrom, DelackTimeout, Labels;
    match e
    case Arrive(k, full) => ArriveKeeps(x, y, xy, yx, k, full);
    case SendCall(data) => SendKeeps(x, y, xy, yx, data);
    case RecvCall(len) => RecvKeeps(x, y, xy, yx, len);
    case ShutdownCall => ShutdownKeeps(x, y, xy, yx);
    case DelackFires => DelackKeeps(x, y, xy, yx);
    case RexmitFires =>
      if x.c.state == Closed || !x.c.active || x.c.rexmit == Nothing {
        Unchanged(x, y, xy, yx, []);
      } else {
        assert x.c.state != Listen by { PairLocal(x, y, xy, yx); }
        CloseKeeps(x, RexmitTimeout(x.c), y, xy, yx);
      }
    case TimeWaitFires =>
      if x.c.state == TimeWait {
        CloseKeeps(x, Free(x.c), y, xy, yx);
      } else {
        Unchanged(x, y, xy, yx, []);
      }
  }

  lemma NextInv(s: Sys, s': Sys)
    requires Inv(s) && Next(s, s')
    ensures Inv(s')
  {
    hide Local, Cross, Handle, Labels, Enabled;
    var e :| || (Enabled(s.a, s.ba, e) && s' == StepA(s, e))
             || (Enabled(s.b, s.ab, e) && s' == Swap(StepA(Swap(s), e)));
    if Enabled(s.a, s.ba, e) && s' == StepA(s, e) {
      HandleKeeps(s.a, s.b, s.ab, s.ba, e);
    } else {
      HandleKeeps(s.b, s.a, s.ba, s.ab, e);
    }
  }

  lemma {:induction false} RunInv(r: seq<Sys>, i: nat)
    requires Run(r) && i < |r|
    ensures Inv(r[i])
  {
    hide Inv, Next, Init;
    if i == 0 {
      InitInv(r[0]);
    } else {
      RunInv(r, i - 1);
      NextInv(r[i - 1], r[i]);
    }
  }

  /** The system as either endpoint sees it. */
  function Seen(s: Sys, swap: bool): Sys {
    if swap then Swap(s) else s
  }

  lemma SeenInv(r: seq<Sys>, i: nat, swap: bool)
    requires Run(r) && i < |r|
    ensures Inv(Seen(r[i], swap))
  {
    hide Run, Local, Cross;
    RunInv(r, i);
  }

  // ---------------------------------------------------------------- end-to-end delivery

  /** In every run, what one side has read is a prefix of what the other side has sent, across
      any number of sequence-number wraparounds; once a FIN has been received nothing the peer
      transmitted is missing. */
  lemma EndToEndPrefix(r: seq<Sys>, i: nat)
    requires Run(r) && i < |r|
    ensures r[i].b.read <= r[i].a.sent && r[i].a.read <= r[i].b.sent
    ensures r[i].b.read + r[i].b.c.rxq <= r[i].a.sent && r[i].a.read + r[i].a.c.rxq <= r[i].b.sent
    ensures r[i].b.c.finReceived ==> |r[i].b.read| + |r[i].b.c.rxq| == Transmitted(r[i].a)
    ensures r[i].a.c.finReceived ==> |r[i].a.read| + |r[i].a.c.rxq| == Transmitted(r[i].b)
  {
    hide Run, Local, PacketOk;
    RunInv(r, i);
    assert Stream(r[i].a, r[i].b) && Stream(r[i].b, r[i].a);
  }

  // ---------------------------------------------------------------- flow control

  /** c' is c with more sent: only snd_nxt, the retransmit queue and the send buffer differ. */
  predicate OnlySends(c: Conn, c': Conn) {
    c' == c.(sndNxt := c'.sndNxt, rexmit := c'.rexmit, txq := c'.txq)
  }

  lemma {:induction false} OutputOnlySends(c: Conn)
    ensures OnlySends(c, Output(c).0)
    decreases |c.txq|
  {
    if CanTransmit(c) {
      hide Usable, Chunk, Output;
      OutputStep(c);
      OutputOnlySends(Transmit(c));
    } else {
      OutputStep(c);
    }
  }

  lemma OutputStep(c: Conn)
    ensures CanTransmit(c) ==> Output(c).0 == Output(Transmit(c)).0
    ensures !CanTransmit(c) ==> Output(c) == (c, [])
  {
  }

  lemma {:induction false} PushOnlySends(c: Conn, data: seq<byte>, n: nat)
    requires n <= |data| && |c.txq| <= CAPACITY
    ensures OnlySends(c, Push(c, data, n).0)
    decreases |data| - n
  {
    hide Output;
    if n == |data| {
    } else if |c.txq| < CAPACITY {
      PushOnlySends(c.(txq := c.txq + [data[n]]), data, n + 1);
    } else {
      OutputOnlySends(c);
      var c1 := Output(c).0;
      if |c1.txq| != CAPACITY {
        PushOnlySends(c1.(txq := c1.txq + [data[n]]), data, n + 1);
      }
    }
  }

  lemma SendOnlySends(c: Conn, data: seq<byte>)
    requires |c.txq| <= CAPACITY
    ensures OnlySends(c, SendTo(c, data).0)
  {
    hide Output, Push;
    if MaySend(c.state) {
      PushOnlySends(c, data, 0);
      OutputOnlySends(Push(c, data, 0).0);
    }
  }

  lemma RxGrows(c: Conn, w: Wire, full: bool)
    requires |c.rxq| <= CAPACITY
    ensures c.finReceived ==> Rx(c, w, full).0.finReceived
  {
    hide Wrap, RexmitAck, AckAcceptable, RxPayload;
    if !w.flags.rst && Synchronised(c.state) {
      PayloadGrows(RxAck(c, w), w);
    }
  }

  lemma PayloadGrows(c: Conn, w: Wire)
    requires |c.rxq| <= CAPACITY
    ensures c.finReceived ==> RxPayload(c, w).0.finReceived
  {
  }

  lemma HandleGrows(x: Peer, e: Event)
    requires Sane(x)
    ensures |x.read| <= |Handle(x, e).0.read| && (x.c.finReceived ==> Handle(x, e).0.c.finReceived)
  {
    hide Wrap, Rx, SendTo;
    match e
    case Arrive(k, full) => RxGrows(x.c, k.w, full);
    case SendCall(data) => SendOnlySends(x.c, data);
    case _ =>
  }

  /** RFC 793 section 3.7: no step moves an advertised right edge to the left. */
  lemma EdgeNeverMovesLeft(s: Sys, s': Sys)
    requires Inv(s) && Next(s, s')
    ensures Edge(s.a) <= Edge(s'.a) && Edge(s.b) <= Edge(s'.b)
  {
    hide Cross, StateFacts, Queue, Handle, Wrap;
    NextInv(s, s');
    EdgeIs(s.a); EdgeIs(s.b); EdgeIs(s'.a); EdgeIs(s'.b);
    var e :| || (Enabled(s.a, s.ba, e) && s' == StepA(s, e))
             || (Enabled(s.b, s.ab, e) && s' == Swap(StepA(Swap(s), e)));
    if Enabled(s.a, s.ba, e) && s' == StepA(s, e) {
      HandleGrows(s.a, e);
    } else {
      HandleGrows(s.b, e);
    }
  }

  lemma {:induction false} EdgeNeverMovesLeftInRun(r: seq<Sys>, i: nat, j: nat)
    requires Run(r) && i <= j < |r|
    ensures Edge(r[i].a) <= Edge(r[j].a) && Edge(r[i].b) <= Edge(r[j].b)
  {
    hide Next, Init, Inv, Edge;
    if i < j {
      EdgeNeverMovesLeftInRun(r, i, j - 1);
      RunInv(r, j - 1);
      EdgeNeverMovesLeft(r[j - 1], r[j]);
    }
  }

  /** Every data segment ever sent lies under a right edge its receiver had advertised. */
  lemma DataUnderAdvertisedEdge(r: seq<Sys>, i: nat, k: Packet)
    requires Run(r) && i < |r| && !k.w.flags.rst && k.w.data != []
    ensures k in r[i].ab ==> Advertised(r[i].ba, k.pos + |k.w.data|)
    ensures k in r[i].ba ==> Advertised(r[i].ab, k.pos + |k.w.data|)
  {
    hide Run, Local, Stream, Synced, Wrap;
    RunInv(r, i);
    var s := r[i];
    if k in s.ab { assert PacketOk(s.a, s.b, k); AdvertisedLess(s.ba, 1 + Transmitted(s.a), k.pos + |k.w.data|); }
    if k in s.ba { assert PacketOk(s.b, s.a, k); AdvertisedLess(s.ab, 1 + Transmitted(s.b), k.pos + |k.w.data|); }
  }

  lemma AdvertisedLess(yx: set<Packet>, n: int, m: int)
    requires Advertised(yx, n) && m <= n
    ensures Advertised(yx, m)
  {
  }

  /** In every run the "rx buffer full" branch is unreachable: a segment that reaches
      tcp_deliver_data fits, and the queue grows by exactly its bytes. */
  lemma ReceiveBufferNeverOverflows(r: seq<Sys>, i: nat, swap: bool, k: Packet)
    requires Run(r) && i < |r|
    ensures var s := Seen(r[i], swap);
            k in s.ba && NotStale(s.a, k) && !k.w.flags.rst && k.w.data != [] &&
            Synchronised(s.a.c.state) && k.w.seqno == s.a.c.rcvNxt ==>
              && |s.a.c.rxq| + |k.w.data| <= CAPACITY
              && Deliver(s.a.c, k.w.data).rxq == s.a.c.rxq + k.w.data
  {
    hide Run, Local, Stream, Synced, Wrap, PacketOk;
    var s := Seen(r[i], swap);
    SeenInv(r, i, swap);
    if !(k in s.ba && NotStale(s.a, k) && !k.w.flags.rst && k.w.data != [] &&
         Synchronised(s.a.c.state) && k.w.seqno == s.a.c.rcvNxt) { return; }
    PairSane(s.a, s.b, s.ab, s.ba);
    NothingDropped(s.a, s.b, s.ab, s.ba, k);
    assert k.w.data[..|k.w.data|] == k.w.data;
  }

  // ---------------------------------------------------------------- the segment buffer

  lemma {:induction false} SmallMssFits(c: Conn)
    requires c.sndMss <= MSS_DEFAULT
    ensures OutputFits(c)
    decreases |c.txq|
  {
    hide Usable, Wrap;
    if CanTransmit(c) { SmallMssFits(Transmit(c)); }
  }

  lemma {:induction false} SmallMssPushFits(c: Conn, data: seq<byte>, n: nat)
    requires c.sndMss <= MSS_DEFAULT && n <= |data| && |c.txq| <= CAPACITY
    ensures PushFits(c, data, n)
    decreases |data| - n
  {
    hide Output, OutputFits;
    if n < |data| {
      if |c.txq| < CAPACITY {
        SmallMssPushFits(c.(txq := c.txq + [data[n]]), data, n + 1);
      } else {
        SmallMssFits(c);
        OutputOnlySends(c);
        var c1 := Output(c).0;
        if |c1.txq| < CAPACITY { SmallMssPushFits(c1.(txq := c1.txq + [data[n]]), data, n + 1); }
      }
    }
  }

  lemma SmallMssSendFits(c: Conn, data: seq<byte>)
    requires c.sndMss <= MSS_DEFAULT && |c.txq| <= CAPACITY
    ensures SendFits(c, data)
  {
    hide Output, OutputFits, Push, PushFits;
    SmallMssPushFits(c, data, 0);
    PushOnlySends(c, data, 0);
    SmallMssFits(Push(c, data, 0).0);
  }

  /** In every run of two endpoints of this code, whatever is sent next, no chunk is longer than the
      segment buffer: the MSS option both send is the size of the buffer. */
  lemma ChunkFitsSegmentBuffer(r: seq<Sys>, i: nat, data: seq<byte>)
    requires Run(r) && i < |r|
    ensures Chunk(r[i].a.c) <= MSS_DEFAULT && Chunk(r[i].b.c) <= MSS_DEFAULT
    ensures Sane(r[i].a) && Sane(r[i].b) && SendFits(r[i].a.c, data) && SendFits(r[i].b.c, data)
  {
    hide Run, Cross, Wrap, StateFacts, Queue, SendFits;
    RunInv(r, i);
    SmallMssSendFits(r[i].a.c, data);
    SmallMssSendFits(r[i].b.c, data);
  }

  /** Once the peer's SYN has been taken, no event changes the MSS. */
  lemma MssFixed(x: Peer, e: Event)
    requires Sane(x) && x.c.state != Listen && x.c.state != SynSent
    ensures Handle(x, e).0.c.sndMss == x.c.sndMss
  {
    hide Wrap, SendTo, RexmitAck, AckAcceptable, RxPayload;
    match e
    case Arrive(k, full) => if Synchronised(x.c.state) { PayloadMss(RxAck(x.c, k.w), k.w); }
    case SendCall(data) => SendOnlySends(x.c, data);
    case _ =>
  }

  lemma PayloadMss(c: Conn, w: Wire)
    requires |c.rxq| <= CAPACITY
    ensures RxPayload(c, w).0.sndMss == c.sndMss
  {
  }

  /** The connection once it is established, with a queue and a window of any size. */
  function Loaded(c: Conn, q: seq<byte>, wnd: u16): Conn {
    c.(state := Established, txq := q, sndWnd := wnd)
  }

  ghost predicate AlwaysFits(c: Conn) {
    forall q: seq<byte>, wnd: u16 {:trigger Loaded(c, q, wnd)} :: |q| <= CAPACITY ==> OutputFits(Loaded(c, q, wnd))
  }

  lemma LargeChunk(c: Conn, n: nat)
    requires Wrap(c.sndNxt - c.sndUna) <= 1 && 0 < n <= c.sndMss && n <= 65534
    ensures var d := Loaded(c, seq(n, _ => 0), 65535); CanTransmit(d) && Chunk(d) == n
  {
  }

  /** Every chunk fits for all queues and windows exactly if the MSS is no more than the buffer. */
  lemma AlwaysFitsIff(c: Conn)
    requires Wrap(c.sndNxt - c.sndUna) <= 1
    ensures AlwaysFits(c) <==> c.sndMss <= MSS_DEFAULT
  {
    hide OutputFits, Chunk, Usable, Wrap;
    if c.sndMss <= MSS_DEFAULT {
      forall q: seq<byte>, wnd: u16 | |q| <= CAPACITY ensures OutputFits(Loaded(c, q, wnd)) { SmallMssFits(Loaded(c, q, wnd)); }
    } else {
      LargeChunk(c, 1461);
      TooLong(Loaded(c, seq(1461, _ => 0), 65535));
    }
  }

  lemma TooLong(c: Conn)
    requires CanTransmit(c) && Chunk(c) > MSS_DEFAULT
    ensures !OutputFits(c)
  {
  }

  /** tcp_handle_syn and the SYN_SENT arm take any MSS option of at least 536: after a SYN with option m
      every later chunk fits, for all queues and windows, exactly if m is at most 1460. */
  lemma PeerMssDecides(c: Conn, w: Wire, m: u16)
    requires w.option == PeerAccepts(m)
    ensures AlwaysFits(HandleSyn(c, w).0) <==> m <= MSS_DEFAULT
    ensures w.flags.syn && w.flags.ack && w.ackno == c.sndNxt ==> (AlwaysFits(RxSynSent(c, w).0) <==> m <= MSS_DEFAULT)
  {
    hide AlwaysFits, RexmitAck, Append;
    WrapOne();
    WrapZero();
    SynInFlight(c, w);
    AlwaysFitsIff(HandleSyn(c, w).0);
    if w.flags.syn && w.flags.ack && w.ackno == c.sndNxt { AlwaysFitsIff(RxSynSent(c, w).0); }
  }

  lemma SynInFlight(c: Conn, w: Wire)
    ensures var d := HandleSyn(c, w).0; Wrap(d.sndNxt - d.sndUna) == 1
  {
    hide Append;
  }

  /** A peer that announces 9000 bytes: 2000 queued bytes go out as one chunk. */
  lemma JumboPeerOverruns(c: Conn, w: Wire)
    requires w.option == PeerAccepts(9000)
    ensures var d := Loaded(HandleSyn(c, w).0, seq(2000, _ => 0), 65535);
            CanTransmit(d) && Chunk(d) == 2000 > MSS_DEFAULT && !OutputFits(d)
  {
    hide Append, Chunk, Usable, OutputFits;
    SynInFlight(c, w);
    LargeChunk(HandleSyn(c, w).0, 2000);
    TooLong(Loaded(HandleSyn(c, w).0, seq(2000, _ => 0), 65535));
  }

  // ---------------------------------------------------------------- retransmit queue

  /** In every run, for every live connection: the queue tiles the outstanding stream, its head
      holds snd_una, it is empty exactly when snd_una == snd_nxt, and less than 2^31 is in flight. */
  lemma RetransmitQueueTiles(r: seq<Sys>, i: nat, swap: bool)
    requires Run(r) && i < |r|
    ensures var p := Seen(r[i], swap).a;
            p.c.state != Closed && p.c.state != Listen ==>
            && Covers(p.c.rexmit, p.c.iss, p.sent, p.una, Nxt(p))
            && (p.c.rexmit == Nothing <==> p.c.sndUna == p.c.sndNxt)
            && p.c.sndUna == Wrap(p.c.iss + p.una) && p.c.sndNxt == Wrap(p.c.iss + Nxt(p))
            && Span(p.c.rexmit) < TWO31
  {
    hide Run, Cross, Wrap, Tiles, Span;
    SeenInv(r, i, swap);
    var p := Seen(r[i], swap).a;
    if p.c.state != Closed && p.c.state != Listen {
      SpanBound(p);
      UnaIsNxt(p);
    }
  }

  /** One round of tcp_output keeps the endpoint consistent exactly when ip_tx succeeds: a failed
      transmission has already consumed the sequence numbers of bytes still in the send buffer. */
  function AfterRound(x: Peer, ok: bool): Peer
    requires CanTransmit(x.c)
  {
    if ok then AfterTransmit(x) else x.(c := SendSegment(x.c, PSHACK, x.c.txq[..Chunk(x.c)]))
  }

  lemma RoundConsistentIffSent(x: Peer, ok: bool)
    requires Local(x) && CanTransmit(x.c)
    ensures Local(AfterRound(x, ok)) <==> ok
  {
    hide Queue, StateFacts, Wrap;
    if ok {
      TransmitLocal(x);
    } else {
      TransmitNumbers(x);
      var n := Chunk(x.c);
      WrapAdd(x.c.iss, Nxt(x), n);
      WrapInjective(x.c.iss, Nxt(x), Nxt(x) + n);
    }
  }

  // ---------------------------------------------------------------- closing

  /** In every run: fin_sent and fin_received are set exactly in the states that imply them, and in
      FIN_WAIT_2 and TIME_WAIT the peer has received our FIN and with it everything we sent. */
  lemma CloseBookkeeping(r: seq<Sys>, i: nat, swap: bool)
    requires Run(r) && i < |r|
    ensures var s := Seen(r[i], swap);
            && (s.a.c.state != Closed ==> s.a.c.finSent == FinWasSent(s.a.c.state)
                                          && s.a.c.finReceived == FinWasReceived(s.a.c.state))
            && (s.a.c.state == FinWait2 || s.a.c.state == TimeWait ==>
                  s.b.c.finReceived && |s.b.read| + |s.b.c.rxq| == Transmitted(s.a))
  {
    hide Run, PacketsOk, WithinWindow, Queue, Wrap;
    SeenInv(r, i, swap);
  }

  /** The state diagram of RFC 793 section 3.2. */
  predicate RfcEdge(s: State, t: State) {
    match s
    case Closed => t == Listen || t == SynSent
    case Listen => t == SynReceived || t == SynSent || t == Closed
    case SynSent => t == SynReceived || t == Established || t == Closed
    case SynReceived => t == FinWait1 || t == Established
    case Established => t == FinWait1 || t == CloseWait
    case FinWait1 => t == FinWait2 || t == Closing
    case FinWait2 => t == TimeWait
    case CloseWait => t == LastAck
    case Closing => t == TimeWait
    case LastAck => t == Closed
    case TimeWait => t == Closed
  }

  /** An edge, two edges taken by one segment, or an abort. */
  predicate RfcStep(s: State, t: State) {
    || t == s || t == Closed || RfcEdge(s, t)
    || (RfcEdge(s, FinWait2) && RfcEdge(FinWait2, t))
  }

  lemma RxIsRfc(c: Conn, w: Wire, full: bool)
    requires |c.rxq| <= CAPACITY
    ensures RfcStep(c.state, Rx(c, w, full).0.state)
  {
    hide Wrap, RexmitAck, AckAcceptable, Deliver;
    if !w.flags.rst && Synchronised(c.state) {
      var c1 := RxAck(c, w);
      assert c1.state == c.state || (c.state == FinWait1 && c1.state == FinWait2);
      assert RxData(c1, w).state == c1.state by { DeliverKeepsState(c1, w); }
    }
  }

  lemma DeliverKeepsState(c: Conn, w: Wire)
    requires |c.rxq| <= CAPACITY
    ensures RxData(c, w).state == c.state
  {
  }

  /** Every event moves a connection along the RFC 793 diagram or aborts it. */
  lemma TransitionsAreRfc(x: Peer, e: Event)
    requires Sane(x)
    ensures RfcStep(x.c.state, Handle(x, e).0.c.state)
  {
    hide Wrap, Rx, SendTo, RfcStep, Synchronised;
    assert RfcStep(x.c.state, x.c.state) by { RfcStay(x.c.state); }
    RfcNamed();
    match e
    case Arrive(k, full) => RxIsRfc(x.c, k.w, full);
    case SendCall(data) => SendOnlySends(x.c, data);
    case _ =>
  }

  lemma RfcStay(s: State)
    ensures RfcStep(s, s) && RfcStep(s, Closed)
  {
  }

  lemma RfcNamed()
    ensures RfcStep(Listen, SynReceived) && RfcStep(Established, FinWait1) && RfcStep(CloseWait, LastAck)
    ensures forall s :: RfcStep(s, Closed)
  {
  }

  /** CLOSING and LAST_ACK never see their FIN acknowledged, because neither arm advances snd_una:
      in every run the only way out is a reset or the retransmit timer. */
  lemma ClosingNeverCompletes(r: seq<Sys>, i: nat, swap: bool, e: Event)
    requires Run(r) && i < |r|
    ensures var s := Seen(r[i], swap);
            (s.a.c.state == Closing || s.a.c.state == LastAck) && Sane(s.a) && Handle(s.a, e).0.c.state != s.a.c.state ==>
              && Handle(s.a, e).0.c.state == Closed
              && (e.RexmitFires? || (e.Arrive? && e.k.w.flags.rst))
  {
    hide Run, Cross, Queue, Wrap, SendTo;
    SeenInv(r, i, swap);
    var x := Seen(r[i], swap).a;
    if (x.c.state == Closing || x.c.state == LastAck) && Sane(x) {
      UnaIsNxt(x);
      if e.SendCall? { SendOnlySends(x.c, e.data); }
    }
  }

  /** After our FIN no segment with data is sent. */
  lemma NoDataAfterFin(r: seq<Sys>, i: nat, swap: bool, e: Event, w: Wire)
    requires Run(r) && i < |r|
    ensures var s := Seen(r[i], swap);
            s.a.c.finSent && Sane(s.a) && w in Handle(s.a, e).1 ==> w.data == []
  {
    hide Run, Cross, Queue, Wrap, RexmitAck, AckAcceptable, Deliver, RxData;
    SeenInv(r, i, swap);
  }
}
