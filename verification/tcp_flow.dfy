/** The stream in flight has no gaps: in every run, whatever a receiver waits for and its peer has
    transmitted, SYN, data or FIN, was put on the wire as a segment that starts exactly there. */
module TcpFlow {
  import opened SeqSpace
  import opened TcpConn
  import opened TcpSystem
  import opened TcpInvariant
  import opened TcpSteps
  import opened TcpArrivals
  import opened TcpTheorems
  import opened TcpAcks

  // ---------------------------------------------------------------- segments that take up stream positions

  function End(k: Packet): nat { k.pos + SeqLen(k.w.flags, k.w.data) }

  /** k carries a SYN, a FIN or data. */
  predicate Fills(k: Packet) { !k.w.flags.rst && k.pos < End(k) }

  predicate Starts(xy: set<Packet>, n: int) {
    exists k :: k in xy && Fills(k) && k.pos == n
  }

  /** From position n on, nothing is missing: it is the end of what was transmitted, or a segment starts there. */
  predicate GoesOn(x: Peer, xy: set<Packet>, n: int) {
    n == Nxt(x) || Starts(xy, n)
  }

  predicate NoGaps(x: Peer, xy: set<Packet>) {
    && GoesOn(x, xy, 0)
    && forall k :: k in xy && Fills(k) ==> GoesOn(x, xy, End(k))
  }

  /** The receiver waits at a place where a segment starts, unless it has everything. */
  predicate Awaits(x: Peer, y: Peer, xy: set<Packet>) {
    Live(y.c.state) ==> GoesOn(x, xy, Rcv(y))
  }

  predicate Flow(x: Peer, y: Peer, xy: set<Packet>) {
    NoGaps(x, xy) && Awaits(x, y, xy)
  }

  // ---------------------------------------------------------------- the sender

  lemma StartsMore(xy: set<Packet>, more: set<Packet>, n: int)
    requires Starts(xy, n)
    ensures Starts(xy + more, n)
  {
    var k :| k in xy && Fills(k) && k.pos == n;
    assert k in xy + more;
  }

  /** A new segment takes up exactly the positions between the old and the new end. */
  predicate Adds(x: Peer, x': Peer, k: Packet) {
    Fills(k) && k.pos == Nxt(x) && End(k) == Nxt(x')
  }

  lemma GoesFurther(x: Peer, x': Peer, xy: set<Packet>, k: Packet, n: int)
    requires GoesOn(x, xy, n) && Adds(x, x', k)
    ensures GoesOn(x', xy + {k}, n)
  {
    if n == Nxt(x) { assert k in xy + {k}; } else { StartsMore(xy, {k}, n); }
  }

  lemma SendFlow(x: Peer, x': Peer, y: Peer, xy: set<Packet>, k: Packet)
    requires Flow(x, y, xy) && Adds(x, x', k)
    ensures Flow(x', y, xy + {k})
  {
    hide GoesOn, Fills;
    GoesFurther(x, x', xy, k, 0);
    forall j | j in xy + {k} && Fills(j) ensures GoesOn(x', xy + {k}, End(j)) {
      if j in xy { GoesFurther(x, x', xy, k, End(j)); } else { Reaches(x', xy + {k}); }
    }
    if Live(y.c.state) { GoesFurther(x, x', xy, k, Rcv(y)); }
  }

  lemma Reaches(x: Peer, xy: set<Packet>)
    ensures GoesOn(x, xy, Nxt(x))
  {
  }

  /** Segments without sequence length fill nothing. */
  lemma BareFlow(x: Peer, x': Peer, y: Peer, xy: set<Packet>, more: set<Packet>)
    requires Flow(x, y, xy) && Nxt(x') == Nxt(x) && forall k :: k in more ==> !Fills(k)
    ensures Flow(x', y, xy + more)
  {
    forall n | GoesOn(x, xy, n) ensures GoesOn(x', xy + more, n) {
      if n != Nxt(x) { StartsMore(xy, more, n); }
    }
  }

  lemma TransmitFlow(x: Peer, y: Peer, xy: set<Packet>, yx: set<Packet>)
    requires Pair(x, y, xy, yx) && CanTransmit(x.c) && Flow(x, y, xy)
    ensures Flow(AfterTransmit(x), y, xy + {Label(AfterTransmit(x), TransmitWire(x.c))})
  {
    hide Pair, Wrap, Flow, Usable, Chunk, Append;
    PairFacts(x, y, xy, yx);
    TransmitNumbers(x);
    assert x.c.sndNxt == Wrap(x.c.iss + Nxt(x));
    LabelPos(AfterTransmit(x), Nxt(x));
    SendFlow(x, AfterTransmit(x), y, xy, Label(AfterTransmit(x), TransmitWire(x.c)));
  }

  lemma {:induction false} OutputFlow(x: Peer, y: Peer, xy: set<Packet>, yx: set<Packet>)
    requires Pair(x, y, xy, yx) && Flow(x, y, xy)
    ensures var (c, ws) := Output(x.c); Flow(x.(c := c), y, xy + Labels(x.(c := c), ws))
    decreases |x.c.txq|
  {
    hide Pair, Wrap, Usable, Chunk, Flow, Labels;
    var (c, ws) := Output(x.c);
    var x' := x.(c := c);
    if !CanTransmit(x.c) {
      NoLabels(x', xy);
    } else {
      var x1 := AfterTransmit(x);
      var w := TransmitWire(x.c);
      TransmitKeeps(x, y, xy, yx);
      TransmitFlow(x, y, xy, yx);
      OutputFlow(x1, y, xy + {Label(x1, w)}, yx);
      OutputKeeps(x1, y, xy + {Label(x1, w)}, yx);
      LabelsOne(x1, w);
      JoinLabels(x1, x', xy, [w], Output(x1.c).1);
    }
  }

  lemma AppendFlow(x: Peer, y: Peer, xy: set<Packet>, b: byte)
    requires Flow(x, y, xy)
    ensures Flow(AfterAppend(x, b), y, xy)
  {
    hide Flow;
    BareFlow(x, AfterAppend(x, b), y, xy, {});
    assert xy + {} == xy;
  }

  lemma {:induction false} PushFlow(x: Peer, y: Peer, xy: set<Packet>, yx: set<Packet>, data: seq<byte>, n: nat)
    requires Pair(x, y, xy, yx) && Flow(x, y, xy) && MaySend(x.c.state) && n <= |data| && |x.c.txq| <= CAPACITY
    ensures var x' := AfterPush(x, data, n); Flow(x', y, xy + Labels(x', Push(x.c, data, n).1))
    decreases |data| - n
  {
    hide Pair, Wrap, Output, Labels, Flow;
    var x' := AfterPush(x, data, n);
    var (c, ws, m) := Push(x.c, data, n);
    if n == |data| {
      assert x' == x;
      NoLabels(x', xy);
    } else if |x.c.txq| < CAPACITY {
      var x1 := AfterAppend(x, data[n]);
      AppendKeeps(x, y, xy, yx, data[n]);
      AppendFlow(x, y, xy, data[n]);
      PushFlow(x1, y, xy, yx, data, n + 1);
      TakeOne(x.sent, data, n, m);
      assert x' == AfterPush(x1, data, n + 1);
    } else {
      var (c1, ws1) := Output(x.c);
      var x1 := x.(c := c1);
      OutputKeeps(x, y, xy, yx);
      OutputFlow(x, y, xy, yx);
      var xy1 := xy + Labels(x1, ws1);
      if |c1.txq| == CAPACITY {
        assert x' == x1;
      } else {
        var x2 := AfterAppend(x1, data[n]);
        AppendKeeps(x1, y, xy1, yx, data[n]);
        AppendFlow(x1, y, xy1, data[n]);
        PushFlow(x2, y, xy1, yx, data, n + 1);
        PushKeeps(x2, y, xy1, yx, data, n + 1);
        TakeOne(x.sent, data, n, m);
        assert x' == AfterPush(x2, data, n + 1);
        JoinLabels(x1, x', xy, ws1, Push(x2.c, data, n + 1).1);
      }
    }
  }

  lemma SendCallFlow(x: Peer, y: Peer, xy: set<Packet>, yx: set<Packet>, data: seq<byte>)
    requires Pair(x, y, xy, yx) && Flow(x, y, xy) && Sane(x)
    ensures var (x', ws) := Handle(x, SendCall(data)); Flow(x', y, xy + Labels(x', ws))
  {
    hide Pair, Wrap, Output, Push, Flow, Labels;
    var (x', ws) := Handle(x, SendCall(data));
    if !MaySend(x.c.state) {
      NoLabels(x', xy);
    } else {
      var (c1, ws1, n) := Push(x.c, data, 0);
      var x1 := AfterPush(x, data, 0);
      PushKeeps(x, y, xy, yx, data, 0);
      PushFlow(x, y, xy, yx, data, 0);
      OutputKeeps(x1, y, xy + Labels(x1, ws1), yx);
      OutputFlow(x1, y, xy + Labels(x1, ws1), yx);
      JoinLabels(x1, x', xy, ws1, Output(c1).1);
      assert data[0..n] == data[..n];
    }
  }

  lemma FinAdds(x: Peer)
    requires Numbers(x) && StateFacts(x) && MaySend(x.c.state) && !x.c.finSent
    ensures Adds(x, AfterFin(x), Label(AfterFin(x), MakeWire(x.c, FINACK, [])))
  {
    hide Wrap, Append, Carries, StateFacts, FinWasReceived, Extends;
    FinNumbers(x);
    LabelPos(AfterFin(x), Nxt(x));
  }

  lemma ShutdownFlow(x: Peer, y: Peer, xy: set<Packet>, yx: set<Packet>)
    requires Pair(x, y, xy, yx) && Flow(x, y, xy) && Sane(x)
    ensures var (x', ws) := Handle(x, ShutdownCall); Flow(x', y, xy + Labels(x', ws))
  {
    hide Pair, Wrap, Flow, Labels, Append, Adds, Numbers, StateFacts, MakeWire, SendSegment;
    var (x', ws) := Handle(x, ShutdownCall);
    if x.c.finSent || !MaySend(x.c.state) {
      NoLabels(x', xy);
    } else {
      PairFacts(x, y, xy, yx);
      FinAdds(x);
      LabelsOne(x', ws[0]);
      SendFlow(x, x', y, xy, Label(x', ws[0]));
    }
  }

  lemma SynFlow(x: Peer, y: Peer, xy: set<Packet>, yx: set<Packet>, k: Packet)
    requires Pair(x, y, xy, yx) && Flow(x, y, xy) && x.c.state == Listen && k in yx && Arrives(x, y, k)
    requires k.w.flags.syn && !k.w.flags.ack
    ensures var (c, ws) := HandleSyn(x.c, k.w); Flow(x.(c := c), y, xy + Labels(x.(c := c), ws))
  {
    hide Pair, Wrap, Flow, Labels, Append;
    var (c, ws) := HandleSyn(x.c, k.w);
    var x' := x.(c := c);
    PairLocal(x, y, xy, yx);
    SynLocal(x, k.w);
    WrapSame(x.c.iss);
    LabelPos(x', 0);
    LabelsOne(x', ws[0]);
    SendFlow(x, x', y, xy, Label(x', ws[0]));
  }

  /** Every other event sends acknowledgements and resets at most. */
  predicate Bare(ws: seq<Wire>) {
    forall w :: w in ws ==> w.flags.rst || SeqLen(w.flags, w.data) == 0
  }

  predicate SameSends(c: Conn, c': Conn) {
    c'.txq == c.txq && c'.finSent == c.finSent
  }

  lemma PayloadBare(c: Conn, w: Wire)
    requires |c.rxq| <= CAPACITY
    ensures Bare(RxPayload(c, w).1) && SameSends(c, RxPayload(c, w).0)
    ensures Synchronised(c.state) ==> Live(RxPayload(c, w).0.state)
  {
    hide Wrap;
  }

  lemma RxBare(c: Conn, w: Wire, full: bool)
    requires |c.rxq| <= CAPACITY && c.state != Listen
    ensures Bare(Rx(c, w, full).1) && SameSends(c, Rx(c, w, full).0) && Rx(c, w, full).0.state != Listen
  {
    hide Wrap, RexmitAck, AckAcceptable, RxPayload;
    if !w.flags.rst && Synchronised(c.state) { PayloadBare(RxAck(c, w), w); }
  }

  lemma BareLabels(x: Peer, x': Peer, y: Peer, xy: set<Packet>, ws: seq<Wire>)
    requires Flow(x, y, xy) && Nxt(x') == Nxt(x) && Bare(ws)
    ensures Flow(x', y, xy + Labels(x', ws))
  {
    hide Flow;
    BareFlow(x, x', y, xy, Labels(x', ws));
  }

  lemma ArriveFlow(x: Peer, y: Peer, xy: set<Packet>, yx: set<Packet>, k: Packet, full: bool)
    requires Pair(x, y, xy, yx) && Flow(x, y, xy) && Sane(x) && k in yx && NotStale(x, k)
    ensures var (x', ws) := Handle(x, Arrive(k, full)); Flow(x', y, xy + Labels(x', ws))
  {
    hide Pair, Wrap, Flow, Labels, Rx, HandleSyn, PacketOk, Bare;
    var (x', ws) := Handle(x, Arrive(k, full));
    if x.c.state == Listen && k.w.flags.syn && !k.w.flags.ack {
      assert !k.w.flags.rst by { ResetAcks(x, y, xy, yx, k); }
      Deliverable(x, y, xy, yx, k);
      SynFlow(x, y, xy, yx, k);
    } else {
      assert Bare(ws) && Nxt(x') == Nxt(x) by {
        if x.c.state != Listen && x.c.active { RxBare(x.c, k.w, full); } else { NoneBare(k.w); }
      }
      BareLabels(x, x', y, xy, ws);
    }
  }

  lemma NoneBare(w: Wire)
    ensures Bare(NoConnection(w))
  {
  }

  lemma ResetAcks(x: Peer, y: Peer, xy: set<Packet>, yx: set<Packet>, k: Packet)
    requires Pair(x, y, xy, yx) && k in yx
    ensures k.w.flags.rst ==> k.w.flags.ack
  {
    assert PacketOk(y, x, k);
  }

  /** What the endpoint sends leaves no gap, whatever the event. */
  lemma SenderFlow(x: Peer, y: Peer, xy: set<Packet>, yx: set<Packet>, e: Event)
    requires Pair(x, y, xy, yx) && Flow(x, y, xy) && Sane(x) && Enabled(x, yx, e)
    ensures var (x', ws) := Handle(x, e); Flow(x', y, xy + Labels(x', ws))
  {
    hide Pair, Wrap, Flow, Labels, HandleArrival, SendTo, Shutdown;
    var (x', ws) := Handle(x, e);
    match e
    case Arrive(k, full) => ArriveFlow(x, y, xy, yx, k, full);
    case SendCall(data) => SendCallFlow(x, y, xy, yx, data);
    case ShutdownCall => ShutdownFlow(x, y, xy, yx);
    case _ =>
      PairFacts(x, y, xy, yx);
      BareLabels(x, x', y, xy, ws);
  }

  // ---------------------------------------------------------------- the receiver

  /** A SYN takes position 0 alone. */
  lemma FirstIsSyn(y: Peer, x: Peer, k: Packet)
    requires PacketOk(y, x, k) && Fills(k) && k.pos == 0
    ensures End(k) == 1
  {
  }

  lemma AfterSyn(x: Peer, y: Peer, yx: set<Packet>)
    requires NoGaps(y, yx) && PacketsOk(y, x, yx) && Nxt(y) > 0
    ensures GoesOn(y, yx, 1)
  {
    hide PacketOk;
    var k :| k in yx && Fills(k) && k.pos == 0;
    FirstIsSyn(y, x, k);
  }

  /** A segment that was taken moves the receiver to its end. */
  lemma TakenMoves(x: Peer, x': Peer, ws: seq<Wire>, y: Peer, k: Packet)
    requires PacketOk(y, x, k) && !k.w.flags.rst && TakesPayload(x, x', ws, k)
    requires Expected(x, k) && (k.w.flags.fin ==> !x.c.finReceived)
    ensures Rcv(x') == End(k)
  {
    hide Told;
  }

  lemma TakenNothing(x: Peer, x': Peer, ws: seq<Wire>, k: Packet)
    requires TakesPayload(x, x', ws, k) && !(Expected(x, k) && (k.w.data != [] || k.w.flags.fin))
    ensures Rcv(x') == Rcv(x)
  {
    hide Told;
  }

  lemma SynchronisedAwaits(x: Peer, y: Peer, xy: set<Packet>, yx: set<Packet>, k: Packet)
    requires Pair(x, y, xy, yx) && Flow(y, x, yx) && Synchronised(x.c.state) && k in yx && Arrives(x, y, k) && Sane(x)
    ensures var (c, ws) := RxSynchronised(x.c, k.w);
            var x' := x.(c := c, una := x.una + Wrap(c.sndUna - x.c.sndUna)); GoesOn(y, yx, Rcv(x'))
  {
    hide Pair, Wrap, RxSynchronised, GoesOn, PacketOk, TakesPayload, PeerFinState;
    var (c, ws) := RxSynchronised(x.c, k.w);
    var x' := x.(c := c, una := x.una + Wrap(c.sndUna - x.c.sndUna));
    SynchronisedTakes(x, y, xy, yx, k);
    if Expected(x, k) && (k.w.data != [] || k.w.flags.fin) {
      InOrder(x, y, xy, yx, k);
      if k.w.flags.fin { FinArrives(x, y, xy, yx, k); }
      TakenMoves(x, x', ws, y, k);
      assert Fills(k);
    } else {
      TakenNothing(x, x', ws, k);
    }
  }

  /** A handshake segment leaves the endpoint waiting right behind the peer's SYN. */
  lemma HandshakeAwaits(x: Peer, y: Peer, xy: set<Packet>, yx: set<Packet>, k: Packet)
    requires Pair(x, y, xy, yx) && Flow(y, x, yx) && k in yx && !k.w.flags.rst
    requires x.c.state == Listen || x.c.state == SynSent
    ensures Rcv(x) == 1 && GoesOn(y, yx, 1)
  {
    hide Wrap, Queue, GoesOn, WithinWindow, Awaits, NoGaps;
    assert PacketOk(y, x, k);
    AfterSyn(x, y, yx);
  }

  lemma RcvStays(c: Conn, w: Wire, full: bool)
    requires |c.rxq| <= CAPACITY && c.state != Listen && !Synchronised(c.state)
    ensures var c' := Rx(c, w, full).0;
            && c'.rxq == c.rxq && c'.finReceived == c.finReceived
            && (Live(c'.state) ==> Live(c.state) || (c.state == SynSent && !w.flags.rst))
  {
    hide Wrap, RexmitAck;
  }

  lemma ArriveAwaits(x: Peer, y: Peer, xy: set<Packet>, yx: set<Packet>, k: Packet, full: bool)
    requires Pair(x, y, xy, yx) && Flow(y, x, yx) && Sane(x) && k in yx && NotStale(x, k)
    ensures Awaits(y, Handle(x, Arrive(k, full)).0, yx)
  {
    hide Pair, Wrap, GoesOn, Rx, PacketOk, NoGaps, RxSynchronised;
    if x.c.state == Listen {
      if k.w.flags.syn && !k.w.flags.ack {
        ResetAcks(x, y, xy, yx, k);
        HandshakeAwaits(x, y, xy, yx, k);
      }
    } else if x.c.active {
      if Synchronised(x.c.state) && !k.w.flags.rst {
        Deliverable(x, y, xy, yx, k);
        SynchronisedAwaits(x, y, xy, yx, k);
        assert Rx(x.c, k.w, full) == RxSynchronised(x.c, k.w) by { SynchronisedArm(x.c, k.w, full); }
      } else if k.w.flags.rst {
        ResetCloses(x.c, k.w, full);
      } else {
        RcvStays(x.c, k.w, full);
        if x.c.state == SynSent { HandshakeAwaits(x, y, xy, yx, k); }
      }
    }
  }

  lemma SynchronisedArm(c: Conn, w: Wire, full: bool)
    requires |c.rxq| <= CAPACITY && Synchronised(c.state) && !w.flags.rst
    ensures Rx(c, w, full) == RxSynchronised(c, w)
  {
  }

  lemma ResetCloses(c: Conn, w: Wire, full: bool)
    requires |c.rxq| <= CAPACITY && w.flags.rst
    ensures Rx(c, w, full).0.state == Closed
  {
  }

  lemma ReceiverAwaits(x: Peer, y: Peer, xy: set<Packet>, yx: set<Packet>, e: Event)
    requires Pair(x, y, xy, yx) && Flow(y, x, yx) && Sane(x) && Enabled(x, yx, e)
    ensures Flow(y, Handle(x, e).0, yx)
  {
    hide Pair, Wrap, HandleArrival, SendTo, NoGaps, GoesOn, Append;
    match e
    case Arrive(k, full) => ArriveAwaits(x, y, xy, yx, k, full);
    case SendCall(data) => SendOnlySends(x.c, data);
    case _ =>
  }

  // ---------------------------------------------------------------- every run

  predicate Flowing(s: Sys) {
    Flow(s.a, s.b, s.ab) && Flow(s.b, s.a, s.ba)
  }

  lemma NextFlows(s: Sys, s': Sys)
    requires Inv(s) && Flowing(s) && Next(s, s')
    ensures Flowing(s')
  {
    hide Pair, Flow, Handle, Labels, Enabled;
    var e :| || (Enabled(s.a, s.ba, e) && s' == StepA(s, e))
             || (Enabled(s.b, s.ab, e) && s' == Swap(StepA(Swap(s), e)));
    assert Pair(s.b, s.a, s.ba, s.ab) by { SwapPair(s); }
    if Enabled(s.a, s.ba, e) && s' == StepA(s, e) {
      SenderFlow(s.a, s.b, s.ab, s.ba, e);
      ReceiverAwaits(s.a, s.b, s.ab, s.ba, e);
    } else {
      SenderFlow(s.b, s.a, s.ba, s.ab, e);
      ReceiverAwaits(s.b, s.a, s.ba, s.ab, e);
    }
  }

  lemma SwapPair(s: Sys)
    requires Inv(s)
    ensures Pair(s.b, s.a, s.ba, s.ab)
  {
    hide Local, Cross;
  }

  lemma StartFlows(s: Sys)
    requires Init(s)
    ensures Flowing(s)
  {
    hide Wrap, Connect, Labels, Flow, Fresh;
    var i: u32, j: u32 :| var (c, ws) := Connect(Fresh(i));
      var p := Peer(c, 0, [], []);
      s == Sys(p, Peer(Fresh(j).(state := Listen), 0, [], []), Labels(p, ws), {});
    ConnectFlows(i, j);
  }

  lemma ConnectFlows(i: u32, j: u32)
    ensures var (c, ws) := Connect(Fresh(i));
            var x, y := Peer(c, 0, [], []), Peer(Fresh(j).(state := Listen), 0, [], []);
            Flow(x, y, Labels(x, ws)) && Flow(y, x, {})
  {
    hide Wrap, Labels, Append, Local;
    var (c, ws) := Connect(Fresh(i));
    var x := Peer(c, 0, [], []);
    ConnectLocal(i);
    LabelsOne(x, ws[0]);
    assert Label(x, ws[0]) in Labels(x, ws);
  }

  lemma {:induction false} RunFlows(r: seq<Sys>, i: nat)
    requires Run(r) && i < |r|
    ensures Flowing(r[i])
  {
    hide Next, Init, Inv, Flowing;
    if i == 0 {
      StartFlows(r[0]);
    } else {
      RunFlows(r, i - 1);
      RunInv(r, i - 1);
      NextFlows(r[i - 1], r[i]);
    }
  }

  /** k is in the network, starts where the endpoint waits, and receiving it moves the endpoint to its end. */
  predicate NextFor(s: Sys, k: Packet) {
    && k in s.ba && !k.w.flags.rst && k.pos == Rcv(s.a) < End(k)
    && (Sane(s.a) && NotStale(s.a, k) && Synchronised(s.a.c.state) ==> Rcv(Handle(s.a, Arrive(k, false)).0) == End(k))
  }

  lemma SegmentMoves(s: Sys, k: Packet)
    requires Inv(s) && Sane(s.a) && k in s.ba && NotStale(s.a, k) && Synchronised(s.a.c.state)
    requires Fills(k) && Expected(s.a, k)
    ensures Rcv(Handle(s.a, Arrive(k, false)).0) == End(k)
  {
    hide Pair, Wrap, RxSynchronised, PacketOk, TakesPayload, PeerFinState, Numbers;
    PairFacts(s.a, s.b, s.ab, s.ba);
    Deliverable(s.a, s.b, s.ab, s.ba, k);
    InOrder(s.a, s.b, s.ab, s.ba, k);
    if k.w.flags.fin { FinArrives(s.a, s.b, s.ab, s.ba, k); }
    SynchronisedTakes(s.a, s.b, s.ab, s.ba, k);
    var (x', ws) := Handle(s.a, Arrive(k, false));
    TakenMoves(s.a, x', ws, s.b, k);
  }

  /** In every run, an endpoint that has not received all its peer has transmitted waits for a segment
      that was sent, and that segment takes it further. */
  lemma NextSegmentIsThere(r: seq<Sys>, i: nat, swap: bool)
    requires Run(r) && i < |r|
    ensures var s := Seen(r[i], swap);
            Live(s.a.c.state) && Rcv(s.a) != Nxt(s.b) ==> exists k :: NextFor(s, k)
  {
    hide Run, Inv, NoGaps, Handle;
    RunFlows(r, i);
    SeenInv(r, i, swap);
    var s := Seen(r[i], swap);
    assert Flow(s.b, s.a, s.ba);
    if Live(s.a.c.state) && Rcv(s.a) != Nxt(s.b) {
      var k :| k in s.ba && Fills(k) && k.pos == Rcv(s.a);
      if Sane(s.a) && NotStale(s.a, k) && Synchronised(s.a.c.state) { SegmentMoves(s, k); }
      assert NextFor(s, k);
    }
  }

  // ---------------------------------------------------------------- send calls make progress

  /** The send loop stops only when the buffer is empty or the window is used up. */
  lemma {:induction false} OutputStops(c: Conn)
    ensures !CanTransmit(Output(c).0)
    decreases |c.txq|
  {
    hide Usable, Chunk;
    if CanTransmit(c) { OutputStops(Transmit(c)); }
  }

  lemma OutputIdle(c: Conn)
    requires !CanTransmit(c)
    ensures Output(c) == (c, [])
  {
  }

  /** The copy loop stops short of the data only with a full buffer that cannot be sent. */
  lemma {:induction false} PushStops(c: Conn, data: seq<byte>, n: nat)
    requires n <= |data| && |c.txq| <= CAPACITY && MaySend(c.state)
    ensures var (c', _, m) := Push(c, data, n); m < |data| ==> |c'.txq| == CAPACITY && !CanTransmit(c')
    decreases |data| - n
  {
    hide Output, CanTransmit;
    if n == |data| {
    } else if |c.txq| < CAPACITY {
      PushStops(c.(txq := c.txq + [data[n]]), data, n + 1);
    } else {
      var c1 := Output(c).0;
      OutputStops(c);
      if |c1.txq| != CAPACITY { PushStops(c1.(txq := c1.txq + [data[n]]), data, n + 1); }
    }
  }

  /** A send call that may send takes all the data or leaves the buffer full, and leaves nothing in the
      buffer unless the peer's window is used up. */
  lemma SendMeaning(r: seq<Sys>, i: nat, swap: bool, data: seq<byte>)
    requires Run(r) && i < |r| && Sane(Seen(r[i], swap).a) && MaySend(Seen(r[i], swap).a.c.state)
    ensures var x := Seen(r[i], swap).a;
            var x' := Handle(x, SendCall(data)).0;
            && x.sent <= x'.sent <= x.sent + data
            && (x'.sent == x.sent + data || |x'.c.txq| == CAPACITY)
            && (x'.c.txq == [] || Nxt(x') - x'.una >= x.c.sndWnd)
            && x'.una == x.una && x'.c.state == x.c.state && x'.c.rxq == x.c.rxq && x'.read == x.read
  {
    hide Run, Pair, Wrap, Output, Push, Usable, Numbers, StateFacts;
    var s := Seen(r[i], swap);
    SeenInv(r, i, swap);
    var x, x' := s.a, Handle(s.a, SendCall(data)).0;
    SendOnlySends(x.c, data);
    var (c1, _, n) := Push(x.c, data, 0);
    PushStops(x.c, data, 0);
    OutputStops(c1);
    if n < |data| { OutputIdle(c1); } else { assert data[..n] == data; }
    SendKeeps(s.a, s.b, s.ab, s.ba, data);
    PairFacts(x', s.b, s.ab + Labels(x', Handle(s.a, SendCall(data)).1), s.ba);
    UsableIs(x');
  }
}
