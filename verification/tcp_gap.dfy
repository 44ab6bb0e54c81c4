/** Runs in which ip_tx may fail.  A round of tcp_output whose transmission fails has consumed the
    sequence numbers of its chunk, but leaves the bytes in the send buffer; the next round sends them
    again under later numbers, and nothing ever fills the gap. */
module TcpGap {
  import opened SeqSpace
  import opened TcpConn
  import opened TcpSystem
  import opened TcpInvariant
  import opened TcpSteps
  import opened TcpArrivals
  import opened TcpTheorems

  /** s and t begin with the same n bytes. */
  predicate Agree(s: seq<byte>, t: seq<byte>, n: int) {
    0 <= n <= |s| && n <= |t| && forall i :: 0 <= i < n ==> t[i] == s[i]
  }

  /** A round of tcp_output that fails.  sent is the stream the sequence numbers count, so the chunk
      is in it once for the numbers it consumed and once for the bytes that stay in the buffer. */
  function FailRound(x: Peer): Peer
    requires CanTransmit(x.c) && 0 <= Transmitted(x)
  {
    var n := Chunk(x.c);
    x.(c := SendSegment(x.c, PSHACK, x.c.txq[..n]), sent := x.sent[..Transmitted(x) + n] + x.c.txq)
  }

  // ---------------------------------------------------------------- the invariant survives a failure

  /** x' is x with other bytes waiting to be sent. */
  predicate OtherPending(x: Peer, x': Peer) {
    && x' == x.(c := x.c.(txq := x'.c.txq), sent := x'.sent)
    && MaySend(x.c.state) && |x'.c.txq| <= CAPACITY
    && Transmitted(x') == Transmitted(x) && Agree(x.sent, x'.sent, Transmitted(x))
    && Carries(x'.c.txq, x'.sent, Transmitted(x'))
  }

  lemma CarriesOther(data: seq<byte>, s: seq<byte>, t: seq<byte>, at: int, n: int)
    requires Carries(data, s, at) && Agree(s, t, n) && at + |data| <= n
    ensures Carries(data, t, at)
  {
  }

  lemma {:induction false} TilesOther(q: Rexmits, iss: u32, s: seq<byte>, t: seq<byte>, lo: nat, n: int)
    requires Tiles(q, iss, s, lo) && Agree(s, t, n) && lo + Span(q) <= n + 1
    ensures Tiles(q, iss, t, lo)
    decreases q
  {
    hide Wrap, Agree, Carries;
    if q != Nothing {
      var e := q.head;
      if e.data != [] { CarriesOther(e.data, s, t, lo - 1, n); }
      assert EntryAt(e, iss, t, lo);
      TilesOther(q.tail, iss, s, t, lo + SeqLen(e.flags, e.data), n);
    }
  }

  lemma PendingLocal(x: Peer, x': Peer)
    requires Local(x) && OtherPending(x, x')
    ensures Local(x')
  {
    hide Wrap, Tiles, Span, Agree, Carries;
    TilesOther(x.c.rexmit, x.c.iss, x.sent, x'.sent, Nxt(x) - Span(x.c.rexmit), Transmitted(x));
  }

  lemma PendingPacket(x: Peer, x': Peer, y: Peer, k: Packet)
    requires OtherPending(x, x') && PacketOk(x, y, k)
    ensures PacketOk(x', y, k)
  {
    hide Wrap, Agree, Carries;
    if k.w.data != [] && !k.w.flags.rst { CarriesOther(k.w.data, x.sent, x'.sent, k.pos - 1, Transmitted(x)); }
    assert Agree(x.sent, x'.sent, Transmitted(x)) ==> Transmitted(x') <= |x'.sent|;
  }

  lemma PendingStream(x: Peer, x': Peer, y: Peer)
    requires OtherPending(x, x') && Stream(x, y)
    ensures Stream(x', y)
  {
    hide Agree, Carries;
    CarriesOther(y.read, x.sent, x'.sent, 0, Transmitted(x));
    CarriesOther(y.c.rxq, x.sent, x'.sent, |y.read|, Transmitted(x));
    assert Agree(x.sent, x'.sent, Transmitted(x)) ==> Transmitted(x') <= |x'.sent|;
  }

  /** What waits in the send buffer concerns nobody else. */
  lemma PendingKeeps(x: Peer, x': Peer, y: Peer, xy: set<Packet>, yx: set<Packet>)
    requires Pair(x, y, xy, yx) && OtherPending(x, x')
    ensures Pair(x', y, xy, yx)
  {
    hide Wrap, Local, Agree, Carries, PacketOk, Advertised;
    PendingLocal(x, x');
    PendingStream(x, x', y);
    forall k | k in xy ensures PacketOk(x', y, k) { PendingPacket(x, x', y, k); }
    forall k | k in yx ensures PacketOk(y, x', k) { PendingSeen(x, x', y, k); }
    assert Synced(x', y) && Synced(y, x') && Stream(y, x');
  }

  lemma PendingSeen(x: Peer, x': Peer, y: Peer, k: Packet)
    requires OtherPending(x, x') && PacketOk(y, x, k)
    ensures PacketOk(y, x', k)
  {
    hide Agree, Carries;
  }

  lemma FailPending(x: Peer)
    requires Numbers(x) && StateFacts(x) && CanTransmit(x.c)
    ensures OtherPending(AfterTransmit(x), FailRound(x)) && Transmitted(AfterTransmit(x)) == Transmitted(x) + Chunk(x.c)
    ensures Agree(x.sent, FailRound(x).sent, Transmitted(x) + Chunk(x.c)) && 0 < Chunk(x.c)
  {
    hide Wrap, Usable, Append, StateFacts;
    ChunkBounds(x);
    assert |FailRound(x).sent| == Transmitted(x) + Chunk(x.c) + |x.c.txq|;
  }

  lemma FewerPackets(x: Peer, y: Peer, xy: set<Packet>, k: Packet, yx: set<Packet>)
    requires Pair(x, y, xy + {k}, yx) && WithinWindow(y, xy)
    ensures Pair(x, y, xy, yx)
  {
    hide Local, PacketOk, Stream, Synced, WithinWindow;
    forall q | q in xy ensures PacketOk(x, y, q) { assert q in xy + {k}; }
  }

  /** A failed round keeps the invariant: to the peer it is a transmitted segment that was lost. */
  lemma FailKeeps(x: Peer, y: Peer, xy: set<Packet>, yx: set<Packet>)
    requires Pair(x, y, xy, yx) && CanTransmit(x.c)
    ensures 0 <= Transmitted(x) && Pair(FailRound(x), y, xy, yx)
  {
    hide Numbers, StateFacts, Queue, Stream, Synced, PacketsOk, WithinWindow, OtherPending, Wrap, Usable, Chunk, Append, CanTransmit;
    assert 0 <= Transmitted(x) by { SentAll(x); }
    var k := Label(AfterTransmit(x), TransmitWire(x.c));
    TransmitKeeps(x, y, xy, yx);
    FailPending(x);
    PendingKeeps(AfterTransmit(x), FailRound(x), y, xy + {k}, yx);
    FewerPackets(FailRound(x), y, xy, k, yx);
  }

  lemma SentAll(x: Peer)
    requires Numbers(x)
    ensures 0 <= Transmitted(x) <= |x.sent|
  {
  }

  // ---------------------------------------------------------------- runs

  /** What an endpoint does: an event as before, or a part of a send call, which stops in the middle
      when a round fails. */
  datatype Move = Step(e: Event) | Accept(b: byte) | Round | Failed

  predicate May(s: Sys, m: Move) {
    && Sane(s.a)
    && match m
       case Step(e) => Enabled(s.a, s.ba, e)
       case Accept(_) => MaySend(s.a.c.state) && |s.a.c.txq| < CAPACITY
       case Round => CanTransmit(s.a.c)
       case Failed => CanTransmit(s.a.c) && 0 <= Transmitted(s.a)
  }

  function Do(s: Sys, m: Move): Sys
    requires May(s, m)
  {
    match m
    case Step(e) => StepA(s, e)
    case Accept(b) => s.(a := AfterAppend(s.a, b))
    case Round => s.(a := AfterTransmit(s.a), ab := s.ab + {Label(AfterTransmit(s.a), TransmitWire(s.a.c))})
    case Failed => s.(a := FailRound(s.a))
  }

  /** The bytes the application hands over in a move. */
  function Asked(s: Sys, m: Move): seq<byte>
    requires May(s, m)
  {
    match m
    case Step(e) => if e.SendCall? && SendTo(s.a.c, e.data).2 >= 0 then e.data[..SendTo(s.a.c, e.data).2] else []
    case Accept(b) => [b]
    case _ => []
  }

  /** Where the stream has its first gap: the number of bytes before it. */
  datatype Hole = Whole | At(pos: nat)

  /** The system with the bytes the application of endpoint a has asked to send. */
  datatype Faulty = Faulty(s: Sys, asked: seq<byte>, hole: Hole)

  function HoleAfter(g: Faulty, m: Move): Hole
    requires May(g.s, m)
  {
    if m.Failed? && g.hole.Whole? then At(Transmitted(g.s.a)) else g.hole
  }

  ghost predicate FaultyNext(g: Faulty, g': Faulty) {
    exists m ::
      || (May(g.s, m) && g' == Faulty(Do(g.s, m), g.asked + Asked(g.s, m), HoleAfter(g, m)))
      || (May(Swap(g.s), m) && g' == g.(s := Swap(Do(Swap(g.s), m))))
  }

  /** Either endpoint may be the one that connected. */
  ghost predicate FaultyRun(r: seq<Faulty>) {
    && |r| > 0 && (Init(r[0].s) || Init(Swap(r[0].s))) && r[0].asked == [] && r[0].hole == Whole
    && forall i :: 0 <= i < |r| - 1 ==> FaultyNext(r[i], r[i + 1])
  }

  lemma DoInv(s: Sys, m: Move)
    requires Inv(s) && May(s, m)
    ensures Inv(Do(s, m))
  {
    hide Local, Cross, Handle, Labels, Enabled, CanTransmit, FailRound;
    match m
    case Step(e) => HandleKeeps(s.a, s.b, s.ab, s.ba, e);
    case Accept(b) => AppendKeeps(s.a, s.b, s.ab, s.ba, b);
    case Round => TransmitKeeps(s.a, s.b, s.ab, s.ba);
    case Failed => FailKeeps(s.a, s.b, s.ab, s.ba);
  }

  // ---------------------------------------------------------------- the gap

  function Received(y: Peer): nat { |y.read| + |y.c.rxq| }

  /** No segment carries the byte behind the first h. */
  predicate Clear(xy: set<Packet>, h: nat) {
    forall k :: k in xy && !k.w.flags.rst && k.w.data != [] ==> k.pos + |k.w.data| <= h + 1 || h + 1 < k.pos
  }

  predicate HoleOk(s: Sys, asked: seq<byte>, h: nat) {
    && h < Transmitted(s.a) && Agree(s.a.sent, asked, h) && Clear(s.ab, h)
    && Received(s.b) <= h && !s.b.c.finReceived
  }

  predicate FaultyInv(g: Faulty) {
    && Inv(g.s)
    && (g.hole.Whole? ==> g.asked == g.s.a.sent)
    && (g.hole.At? ==> HoleOk(g.s, g.asked, g.hole.pos))
  }

  /** The first failure opens the gap at what was transmitted so far. */
  lemma GapOpens(s: Sys)
    requires Inv(s) && CanTransmit(s.a.c)
    ensures 0 <= Transmitted(s.a) && HoleOk(s.(a := FailRound(s.a)), s.a.sent, Transmitted(s.a))
  {
    hide Wrap, Queue, Usable, Append, PacketsOk, WithinWindow, Synced;
    FailPending(s.a);
    assert Clear(s.ab, Transmitted(s.a)) by { DataTransmitted(s); }
    assert !s.a.c.finSent;
  }

  lemma DataTransmitted(s: Sys)
    requires Inv(s) && 0 <= Transmitted(s.a)
    ensures Clear(s.ab, Transmitted(s.a))
  {
    hide Wrap, Local, Stream, Synced, WithinWindow;
    forall k | k in s.ab ensures !k.w.flags.rst && k.w.data != [] ==> k.pos + |k.w.data| <= Transmitted(s.a) + 1 {
      assert PacketOk(s.a, s.b, k);
    }
  }

  // ---------------------------------------------------------------- the sender moves on

  lemma ClearMore(xy: set<Packet>, more: set<Packet>, h: nat)
    requires Clear(xy, h) && Clear(more, h)
    ensures Clear(xy + more, h)
  {
  }

  /** A transmitted chunk lies behind the gap. */
  lemma RoundClear(x: Peer, h: nat)
    requires Numbers(x) && StateFacts(x) && CanTransmit(x.c) && h < Transmitted(x)
    ensures Clear({Label(AfterTransmit(x), TransmitWire(x.c))}, h) && h < Transmitted(AfterTransmit(x))
  {
    hide Wrap, Usable, Append, Carries;
    TransmitNumbers(x);
    LabelPos(AfterTransmit(x), Nxt(x));
  }

  lemma {:induction false} OutputClear(x: Peer, y: Peer, xy: set<Packet>, yx: set<Packet>, h: nat)
    requires Pair(x, y, xy, yx) && h < Transmitted(x)
    ensures var (c, ws) := Output(x.c);
            Clear(Labels(x.(c := c), ws), h) && h < Transmitted(x.(c := c))
    decreases |x.c.txq|
  {
    hide Pair, Wrap, Usable, Chunk, Clear, Labels;
    var (c, ws) := Output(x.c);
    var x' := x.(c := c);
    if !CanTransmit(x.c) {
      ClearNone(x', h);
    } else {
      var x1 := AfterTransmit(x);
      var w := TransmitWire(x.c);
      PairFacts(x, y, xy, yx);
      RoundClear(x, h);
      TransmitKeeps(x, y, xy, yx);
      OutputClear(x1, y, xy + {Label(x1, w)}, yx, h);
      OutputKeeps(x1, y, xy + {Label(x1, w)}, yx);
      var ws1 := Output(x1.c).1;
      assert ws == [w] + ws1;
      LabelsAgree(x1, x', [w]);
      LabelsOne(x1, w);
      LabelsConcat(x', [w], ws1);
      ClearMore({Label(x1, w)}, Labels(x', ws1), h);
    }
  }

  lemma ClearNone(x: Peer, h: nat)
    ensures Clear(Labels(x, []), h)
  {
  }

  lemma {:induction false} PushClear(x: Peer, y: Peer, xy: set<Packet>, yx: set<Packet>, data: seq<byte>, n: nat, h: nat)
    requires Pair(x, y, xy, yx) && MaySend(x.c.state) && n <= |data| && |x.c.txq| <= CAPACITY && h < Transmitted(x)
    ensures var x' := AfterPush(x, data, n);
            Clear(Labels(x', Push(x.c, data, n).1), h) && h < Transmitted(x')
    decreases |data| - n
  {
    hide Pair, Wrap, Output, Labels, Clear;
    var x' := AfterPush(x, data, n);
    var (c, ws, m) := Push(x.c, data, n);
    if n == |data| {
      assert x' == x;
      ClearNone(x', h);
    } else if |x.c.txq| < CAPACITY {
      var x1 := AfterAppend(x, data[n]);
      AppendKeeps(x, y, xy, yx, data[n]);
      PushClear(x1, y, xy, yx, data, n + 1, h);
      TakeOne(x.sent, data, n, m);
      assert x' == AfterPush(x1, data, n + 1);
    } else {
      var (c1, ws1) := Output(x.c);
      var x1 := x.(c := c1);
      OutputKeeps(x, y, xy, yx);
      OutputClear(x, y, xy, yx, h);
      var xy1 := xy + Labels(x1, ws1);
      if |c1.txq| == CAPACITY {
        assert x' == x1;
      } else {
        var x2 := AfterAppend(x1, data[n]);
        AppendKeeps(x1, y, xy1, yx, data[n]);
        PushClear(x2, y, xy1, yx, data, n + 1, h);
        PushKeeps(x2, y, xy1, yx, data, n + 1);
        var ws2 := Push(x2.c, data, n + 1).1;
        assert ws == ws1 + ws2;
        TakeOne(x.sent, data, n, m);
        assert x' == AfterPush(x2, data, n + 1);
        ClearJoin(x1, x', ws1, ws2, h);
      }
    }
  }

  lemma ClearJoin(x1: Peer, x': Peer, ws1: seq<Wire>, ws2: seq<Wire>, h: nat)
    requires SameLabels(x1, x') && Clear(Labels(x1, ws1), h) && Clear(Labels(x', ws2), h)
    ensures Clear(Labels(x', ws1 + ws2), h)
  {
    hide Clear, Labels;
    LabelsAgree(x1, x', ws1);
    LabelsConcat(x', ws1, ws2);
    ClearMore(Labels(x', ws1), Labels(x', ws2), h);
  }

  lemma SendClear(x: Peer, y: Peer, xy: set<Packet>, yx: set<Packet>, data: seq<byte>, h: nat)
    requires Pair(x, y, xy, yx) && Sane(x) && h < Transmitted(x)
    ensures var (x', ws) := Handle(x, SendCall(data)); Clear(Labels(x', ws), h) && h < Transmitted(x')
  {
    hide Pair, Wrap, Output, Push, Clear, Labels;
    var (x', ws) := Handle(x, SendCall(data));
    if !MaySend(x.c.state) {
      ClearNone(x', h);
    } else {
      var (c1, ws1, n) := Push(x.c, data, 0);
      var x1 := AfterPush(x, data, 0);
      PushClear(x, y, xy, yx, data, 0, h);
      PushKeeps(x, y, xy, yx, data, 0);
      OutputClear(x1, y, xy + Labels(x1, ws1), yx, h);
      OutputKeeps(x1, y, xy + Labels(x1, ws1), yx);
      var ws2 := Output(c1).1;
      assert data[0..n] == data[..n];
      ClearJoin(x1, x', ws1, ws2, h);
    }
  }

  /** Only send calls transmit data or touch what is waiting. */
  lemma OthersBare(x: Peer, e: Event)
    requires Sane(x) && !e.SendCall?
    ensures var (x', ws) := Handle(x, e);
            (forall w :: w in ws ==> w.data == []) && x'.c.txq == x.c.txq && x'.sent == x.sent
  {
    hide Wrap, Rx, HandleSyn;
    match e
    case Arrive(k, full) => RxBare(x.c, k.w, full); SynBare(x.c, k.w);
    case _ =>
  }

  lemma SynBare(c: Conn, w: Wire)
    ensures (forall v :: v in HandleSyn(c, w).1 ==> v.data == []) && HandleSyn(c, w).0.txq == c.txq
  {
  }

  lemma RxBare(c: Conn, w: Wire, full: bool)
    requires |c.rxq| <= CAPACITY
    ensures (forall v :: v in Rx(c, w, full).1 ==> v.data == []) && Rx(c, w, full).0.txq == c.txq
  {
    hide Wrap, RexmitAck, AckAcceptable, Deliver;
    if !w.flags.rst && Synchronised(c.state) { PayloadBare(RxAck(c, w), w); }
  }

  lemma PayloadBare(c: Conn, w: Wire)
    requires |c.rxq| <= CAPACITY
    ensures (forall v :: v in RxPayload(c, w).1 ==> v.data == []) && RxPayload(c, w).0.txq == c.txq
  {
  }

  lemma BareClear(x: Peer, ws: seq<Wire>, h: nat)
    requires forall w :: w in ws ==> w.data == []
    ensures Clear(Labels(x, ws), h)
  {
  }

  lemma HandleClear(x: Peer, y: Peer, xy: set<Packet>, yx: set<Packet>, e: Event, h: nat)
    requires Pair(x, y, xy, yx) && Sane(x) && h < Transmitted(x)
    ensures var (x', ws) := Handle(x, e); Clear(Labels(x', ws), h) && h < Transmitted(x')
  {
    hide Pair, Handle, Clear, Labels;
    var (x', ws) := Handle(x, e);
    if e.SendCall? {
      SendClear(x, y, xy, yx, e.data, h);
    } else {
      OthersBare(x, e);
      BareClear(x', ws, h);
    }
  }

  // ---------------------------------------------------------------- the receiver stays before the gap

  /** Bytes and FINs are taken from in-order segments of synchronised connections only. */
  lemma RxReceives(c: Conn, w: Wire, full: bool)
    requires |c.rxq| <= CAPACITY
    ensures var c' := Rx(c, w, full).0;
            || (c'.rxq == c.rxq && c'.finReceived == c.finReceived)
            || (&& !w.flags.rst && Synchronised(c.state) && w.seqno == c.rcvNxt
                && |c'.rxq| <= |c.rxq| + |w.data| && (c'.finReceived ==> c.finReceived || w.flags.fin))
  {
    hide Wrap, RexmitAck, AckAcceptable, RxPayload, RxSynSent, RxSynReceived;
    if !w.flags.rst && Synchronised(c.state) { PayloadReceives(RxAck(c, w), w); }
    HandshakeReceives(c, w, full);
  }

  lemma HandshakeReceives(c: Conn, w: Wire, full: bool)
    ensures RxSynSent(c, w).0.rxq == c.rxq && RxSynSent(c, w).0.finReceived == c.finReceived
    ensures RxSynReceived(c, w, full).rxq == c.rxq && RxSynReceived(c, w, full).finReceived == c.finReceived
  {
    hide Wrap, RexmitAck;
  }

  lemma PayloadReceives(c: Conn, w: Wire)
    requires |c.rxq| <= CAPACITY
    ensures var c' := RxPayload(c, w).0;
            || (c'.rxq == c.rxq && c'.finReceived == c.finReceived)
            || (w.seqno == c.rcvNxt && |c'.rxq| <= |c.rxq| + |w.data| && (c'.finReceived ==> c.finReceived || w.flags.fin))
  {
    hide Wrap;
  }

  /** No segment that comes next covers the gap, and the FIN does not come next. */
  lemma NextInOrder(s: Sys, asked: seq<byte>, h: nat, k: Packet)
    requires Inv(s) && HoleOk(s, asked, h) && k in s.ab && NotStale(s.b, k)
    requires !k.w.flags.rst && Synchronised(s.b.c.state) && k.w.seqno == s.b.c.rcvNxt
    ensures Received(s.b) + |k.w.data| <= h && !k.w.flags.fin
  {
    hide Wrap, Local, Stream, WithinWindow, Agree;
    assert PacketOk(s.a, s.b, k);
    SynchronisedLive(s.b.c.state);
    InOrder(s.b, s.a, s.ba, s.ab, k);
    assert k.pos == 1 + Received(s.b);
  }

  lemma ReceiverStops(s: Sys, asked: seq<byte>, h: nat, e: Event)
    requires Inv(s) && HoleOk(s, asked, h) && Sane(s.b) && Enabled(s.b, s.ab, e)
    ensures Received(Handle(s.b, e).0) <= h && !Handle(s.b, e).0.c.finReceived
  {
    hide Inv, Clear, Agree, Wrap, Rx, SendTo, NotStale;
    match e
    case Arrive(k, full) =>
      RxReceives(s.b.c, k.w, full);
      if !k.w.flags.rst && Synchronised(s.b.c.state) && k.w.seqno == s.b.c.rcvNxt { NextInOrder(s, asked, h, k); }
    case SendCall(data) => SendOnlySends(s.b.c, data);
    case _ =>
  }

  // ---------------------------------------------------------------- every run

  lemma SwapInv(s: Sys)
    ensures Inv(Swap(s)) <==> Inv(s)
  {
    hide Local, Cross;
  }

  lemma AgreeMore(s: seq<byte>, t: seq<byte>, n: int, more: seq<byte>, other: seq<byte>)
    requires Agree(s, t, n)
    ensures Agree(s + more, t + other, n)
  {
  }

  lemma AgreeTrans(s: seq<byte>, s': seq<byte>, t: seq<byte>, n: int, m: int)
    requires Agree(s, t, n) && Agree(s, s', m) && n <= m
    ensures Agree(s', t, n)
  {
  }

  lemma HandleSends(x: Peer, e: Event)
    requires Sane(x)
    ensures Handle(x, e).0.sent == x.sent + (if e.SendCall? && SendTo(x.c, e.data).2 >= 0 then e.data[..SendTo(x.c, e.data).2] else [])
  {
    hide SendTo, Rx, HandleSyn, Wrap;
    if !e.SendCall? { OthersBare(x, e); }
  }

  lemma EventMoves(s: Sys, asked: seq<byte>, h: nat, e: Event)
    requires Inv(s) && HoleOk(s, asked, h) && May(s, Step(e))
    ensures HoleOk(Do(s, Step(e)), asked + Asked(s, Step(e)), h)
  {
    hide Pair, Clear, Agree, Handle, Labels, Enabled;
    var more := Asked(s, Step(e));
    AgreeMore(s.a.sent, asked, h, more, more);
    HandleClear(s.a, s.b, s.ab, s.ba, e, h);
    HandleSends(s.a, e);
    ClearMore(s.ab, Labels(Handle(s.a, e).0, Handle(s.a, e).1), h);
  }

  lemma RoundMoves(s: Sys, asked: seq<byte>, h: nat)
    requires Inv(s) && HoleOk(s, asked, h) && May(s, Round)
    ensures HoleOk(Do(s, Round), asked + [], h)
  {
    hide Pair, Clear, Agree, CanTransmit, Label, Chunk;
    PairFacts(s.a, s.b, s.ab, s.ba);
    RoundClear(s.a, h);
    ClearMore(s.ab, {Label(AfterTransmit(s.a), TransmitWire(s.a.c))}, h);
    assert asked + [] == asked;
  }

  lemma FailureMoves(s: Sys, asked: seq<byte>, h: nat)
    requires Inv(s) && HoleOk(s, asked, h) && May(s, Failed)
    ensures HoleOk(Do(s, Failed), asked + [], h)
  {
    hide Pair, Clear, Agree, CanTransmit, Chunk, Append, Wrap;
    PairFacts(s.a, s.b, s.ab, s.ba);
    FailPending(s.a);
    assert asked + [] == asked;
    AgreeTrans(s.a.sent, FailRound(s.a).sent, asked, h, Transmitted(s.a) + Chunk(s.a.c));
  }

  /** A move of the sender after its first failure. */
  lemma SenderMoves(s: Sys, asked: seq<byte>, h: nat, m: Move)
    requires Inv(s) && HoleOk(s, asked, h) && May(s, m)
    ensures HoleOk(Do(s, m), asked + Asked(s, m), h)
  {
    hide Inv, Clear, Agree, Handle, CanTransmit, Labels, Label, FailRound, AfterTransmit, Enabled;
    match m
    case Step(e) => EventMoves(s, asked, h, e);
    case Accept(b) => AgreeMore(s.a.sent, asked, h, [b], [b]);
    case Round => RoundMoves(s, asked, h);
    case Failed => FailureMoves(s, asked, h);
  }

  lemma FirstFailure(s: Sys)
    requires Inv(s) && May(s, Failed)
    ensures HoleOk(Do(s, Failed), s.a.sent + Asked(s, Failed), Transmitted(s.a))
  {
    hide Pair, Clear, Agree, CanTransmit, FailRound;
    GapOpens(s);
    assert s.a.sent + [] == s.a.sent;
  }

  lemma SenderWhole(s: Sys, m: Move)
    requires Inv(s) && May(s, m) && !m.Failed?
    ensures Do(s, m).a.sent == s.a.sent + Asked(s, m)
  {
    hide Pair, Handle, CanTransmit, Labels, Label, Enabled;
    if m.Step? { HandleSends(s.a, m.e); }
  }

  /** A move of the receiver: it never takes the byte in the gap. */
  lemma ReceiverMoves(s: Sys, asked: seq<byte>, h: nat, m: Move)
    requires Inv(s) && HoleOk(s, asked, h) && May(Swap(s), m)
    ensures HoleOk(Swap(Do(Swap(s), m)), asked, h)
  {
    hide Inv, Clear, Agree, Handle, CanTransmit, Labels, Label, Enabled;
    if m.Step? { ReceiverStops(s, asked, h, m.e); }
  }

  lemma FaultyNextInv(g: Faulty, g': Faulty)
    requires FaultyInv(g) && FaultyNext(g, g')
    ensures FaultyInv(g')
  {
    hide Inv, HoleOk, May, Do, Asked;
    var m :| || (May(g.s, m) && g' == Faulty(Do(g.s, m), g.asked + Asked(g.s, m), HoleAfter(g, m)))
             || (May(Swap(g.s), m) && g' == g.(s := Swap(Do(Swap(g.s), m))));
    if May(g.s, m) && g' == Faulty(Do(g.s, m), g.asked + Asked(g.s, m), HoleAfter(g, m)) {
      DoInv(g.s, m);
      if g.hole.At? { SenderMoves(g.s, g.asked, g.hole.pos, m); }
      else if m.Failed? { FirstFailure(g.s); }
      else { SenderWhole(g.s, m); }
    } else {
      SwapInv(g.s);
      DoInv(Swap(g.s), m);
      SwapInv(Do(Swap(g.s), m));
      if g.hole.At? { ReceiverMoves(g.s, g.asked, g.hole.pos, m); } else { ReceiverSends(g.s, m); }
    }
  }

  lemma ReceiverSends(s: Sys, m: Move)
    requires May(Swap(s), m)
    ensures Swap(Do(Swap(s), m)).a == s.a
  {
    hide Handle, CanTransmit, Labels, Label, Enabled;
  }

  lemma {:induction false} FaultyRunInv(r: seq<Faulty>, i: nat)
    requires FaultyRun(r) && i < |r|
    ensures FaultyInv(r[i])
  {
    hide FaultyNext, Init, Inv, HoleOk;
    if i == 0 {
      if Init(r[0].s) { InitInv(r[0].s); InitSent(r[0].s); } else { InitInv(Swap(r[0].s)); InitSent(Swap(r[0].s)); }
      SwapInv(r[0].s);
    } else {
      FaultyRunInv(r, i - 1);
      FaultyNextInv(r[i - 1], r[i]);
    }
  }

  lemma InitSent(s: Sys)
    requires Init(s)
    ensures s.a.sent == [] && s.b.sent == []
  {
  }

  lemma {:induction false} HoleStays(r: seq<Faulty>, i: nat, j: nat)
    requires FaultyRun(r) && i <= j < |r| && r[i].hole.At?
    ensures r[j].hole == r[i].hole
  {
    hide May, Do, Asked, Init;
    if i < j {
      HoleStays(r, i, j - 1);
      assert FaultyNext(r[j - 1], r[j]);
    }
  }

  /** In every run, however often ip_tx fails on either side: what the peer holds is a prefix of what
      the application asked to send, and once a transmission has failed nothing from that point on
      reaches the peer, neither bytes nor the FIN. */
  lemma FailedTransmissionStops(r: seq<Faulty>, i: nat, j: nat)
    requires FaultyRun(r) && i <= j < |r|
    ensures var y := r[j].s.b; y.read + y.c.rxq <= r[j].asked
    ensures r[i].hole.At? ==> Received(r[j].s.b) <= r[i].hole.pos && !r[j].s.b.c.finReceived
  {
    hide FaultyRun, FaultyNext, Init, Local, PacketsOk;
    FaultyRunInv(r, j);
    if r[i].hole.At? { HoleStays(r, i, j); }
    assert Stream(r[j].s.a, r[j].s.b);
  }
}
