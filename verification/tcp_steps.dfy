/** Every event of either endpoint keeps the invariant. */
module TcpSteps {
  import opened SeqSpace
  import opened TcpConn
  import opened TcpSystem
  import opened TcpInvariant

  // ---------------------------------------------------------------- retransmit queue

  lemma {:induction false} TilesStay(q: Rexmits, iss: u32, sent: seq<byte>, sent': seq<byte>, lo: nat)
    requires Tiles(q, iss, sent, lo) && sent <= sent'
    ensures Tiles(q, iss, sent', lo)
    decreases q
  {
    hide Wrap;
    if q != Nothing {
      assert EntryAt(q.head, iss, sent', lo);
      TilesStay(q.tail, iss, sent, sent', lo + SeqLen(q.head.flags, q.head.data));
    }
  }

  lemma {:induction false} SpanAppend(q: Rexmits, e: Rexmit)
    ensures Span(Append(q, e)) == Span(q) + SeqLen(e.flags, e.data)
  {
    if q != Nothing {
      SpanAppend(q.tail, e);
    }
  }

  lemma {:induction false} TilesAppend(q: Rexmits, e: Rexmit, iss: u32, sent: seq<byte>, lo: nat)
    requires Tiles(q, iss, sent, lo) && EntryAt(e, iss, sent, lo + Span(q))
    ensures Tiles(Append(q, e), iss, sent, lo)
    decreases q
  {
    hide Wrap;
    if q == Nothing {
    } else {
      TilesAppend(q.tail, e, iss, sent, lo + SeqLen(q.head.flags, q.head.data));
    }
  }

  /** tcp_rexmit_enqueue keeps the tiling. */
  lemma CoversSend(q: Rexmits, e: Rexmit, iss: u32, sent: seq<byte>, sent': seq<byte>, una: nat, nxt: nat)
    requires Covers(q, iss, sent, una, nxt) && sent <= sent' && EntryAt(e, iss, sent', nxt)
    ensures Covers(Append(q, e), iss, sent', una, nxt + SeqLen(e.flags, e.data))
  {
    hide Wrap, Tiles;
    var lo := nxt - Span(q);
    SpanAppend(q, e);
    TilesStay(q, iss, sent, sent', lo);
    TilesAppend(q, e, iss, sent', lo);
  }

  lemma CoversTail(q: Rexmits, iss: u32, sent: seq<byte>, una: nat, nxt: nat)
    requires Covers(q, iss, sent, una, nxt) && q != Nothing
    ensures Covers(q.tail, iss, sent, nxt - Span(q.tail), nxt)
  {
    hide Wrap;
    var q' := q.tail;
    assert Tiles(q', iss, sent, nxt - Span(q'));
    if q' != Nothing {
      assert EntryAt(q'.head, iss, sent, nxt - Span(q'));
    }
  }

  lemma HeadCompare(q: Rexmits, iss: u32, sent: seq<byte>, una: nat, nxt: nat, ack: nat)
    requires Covers(q, iss, sent, una, nxt) && q != Nothing && Span(q) < TWO31 && una <= ack <= nxt
    ensures SeqLe(q.head.end, Wrap(iss + ack)) <==> nxt - Span(q.tail) <= ack
  {
    SeqDiffExact(iss, nxt - Span(q.tail), ack);
  }

  lemma KeepsUnacked(q: Rexmits, iss: u32, sent: seq<byte>, una: nat, nxt: nat)
    requires Covers(q, iss, sent, una, nxt) && Span(q) < TWO31
    ensures RexmitAck(q, Wrap(iss + una)) == q
  {
    if q != Nothing {
      HeadCompare(q, iss, sent, una, nxt, una);
    }
  }

  /** tcp_rexmit_ack: dropping by signed comparison removes exactly the entries that end at or
      before ack, so the rest covers what is still outstanding. */
  lemma {:induction false} CoversAck(q: Rexmits, iss: u32, sent: seq<byte>, una: nat, ack: nat, nxt: nat)
    requires Covers(q, iss, sent, una, nxt) && una < ack <= nxt && Span(q) < TWO31
    ensures Covers(RexmitAck(q, Wrap(iss + ack)), iss, sent, ack, nxt)
    decreases q
  {
    hide Wrap, Tiles;
    var lo := nxt - Span(q);
    var n := SeqLen(q.head.flags, q.head.data);
    HeadCompare(q, iss, sent, una, nxt, ack);
    if lo + n <= ack {
      CoversTail(q, iss, sent, una, nxt);
      if lo + n < ack {
        CoversAck(q.tail, iss, sent, lo + n, ack, nxt);
      } else {
        KeepsUnacked(q.tail, iss, sent, ack, nxt);
      }
    }
  }

  // ---------------------------------------------------------------- sending data

  lemma LabelPos(p: Peer, k: nat)
    requires p.c.sndUna == Wrap(p.c.iss + p.una) && p.una <= k < p.una + TWO32
    ensures p.una + Wrap(Wrap(p.c.iss + k) - p.c.sndUna) == k
  {
    WrapDiff(p.c.iss, k, p.una);
  }

  /** What a live endpoint acknowledges was sent. */
  lemma RcvBound(x: Peer, y: Peer, xy: set<Packet>, yx: set<Packet>)
    requires Pair(x, y, xy, yx) && Live(x.c.state)
    ensures y.c.state != Listen && Rcv(x) <= Nxt(y) && x.c.rcvNxt == Wrap(y.c.iss + Rcv(x))
  {
    hide PacketsOk, Queue, StateFacts, Advertised, Wrap, Numbers;
  }

  /** The advertised right edge is the buffer capacity past what was read. */
  lemma EdgeIs(p: Peer)
    requires Numbers(p)
    ensures Edge(p) == BUFSZ + |p.read| + Bit(p.c.finReceived)
  {
  }

  lemma EdgeBounds(x: Peer, y: Peer, yx: set<Packet>, n: int)
    requires Numbers(y) && PacketsOk(y, x, yx) && Advertised(yx, n)
    ensures n <= BUFSZ + |y.read| + Bit(y.c.finReceived)
  {
    EdgeIs(y);
  }

  function AfterTransmit(x: Peer): Peer
    requires CanTransmit(x.c)
  {
    x.(c := Transmit(x.c))
  }

  lemma UsableIs(x: Peer)
    requires Numbers(x) && x.c.state != Listen
    ensures Usable(x.c) == if x.c.sndWnd > Nxt(x) - x.una then x.c.sndWnd - (Nxt(x) - x.una) else 0
  {
    hide Wrap;
    WrapDiff(x.c.iss, Nxt(x), x.una);
    WrapSmall(Nxt(x) - x.una);
  }

  lemma ChunkBounds(x: Peer)
    requires Numbers(x) && StateFacts(x) && CanTransmit(x.c)
    ensures 0 < Chunk(x.c) <= |x.c.txq| && Nxt(x) + Chunk(x.c) <= x.una + x.c.sndWnd
  {
    hide Wrap;
    UsableIs(x);
  }

  lemma TransmitStates(x: Peer)
    requires StateFacts(x) && CanTransmit(x.c) && 0 < Chunk(x.c) <= |x.c.txq|
    ensures StateFacts(AfterTransmit(x)) && Nxt(AfterTransmit(x)) == Nxt(x) + Chunk(x.c)
  {
    hide Wrap, Usable, Append;
  }

  lemma TransmitNumbers(x: Peer)
    requires Numbers(x) && StateFacts(x) && CanTransmit(x.c)
    ensures Numbers(AfterTransmit(x)) && StateFacts(AfterTransmit(x)) && Extends(x, AfterTransmit(x))
    ensures Nxt(AfterTransmit(x)) == Nxt(x) + Chunk(x.c) <= x.una + x.c.sndWnd
    ensures 0 < Chunk(x.c) <= |x.c.txq|
  {
    hide Wrap, Usable, Chunk, Append, FinWasReceived;
    ChunkBounds(x);
    TransmitStates(x);
    var x' := AfterTransmit(x);
    WrapAdd(x.c.iss, Nxt(x), Chunk(x.c));
    assert Carries(x'.c.txq, x'.sent, Transmitted(x'));
  }

  lemma TransmitSlice(x: Peer)
    requires Numbers(x) && StateFacts(x) && CanTransmit(x.c)
    ensures Carries(x.c.txq[..Chunk(x.c)], x.sent, Nxt(x) - 1)
  {
  }

  lemma TransmitLocal(x: Peer)
    requires Local(x) && CanTransmit(x.c)
    ensures Local(AfterTransmit(x))
  {
    hide Wrap, StateFacts, Tiles, Span;
    TransmitNumbers(x);
    TransmitSlice(x);
    WrapAdd(x.c.iss, Nxt(x), Chunk(x.c));
    var n := Chunk(x.c);
    var e := Rexmit(x.c.sndNxt, Wrap(x.c.sndNxt + n), x.c.txq[..n], PSHACK);
    CoversSend(x.c.rexmit, e, x.c.iss, x.sent, x.sent, x.una, Nxt(x));
  }

  lemma TransmitPacket(x: Peer, y: Peer, xy: set<Packet>, yx: set<Packet>)
    requires Pair(x, y, xy, yx) && CanTransmit(x.c)
    ensures PacketOk(AfterTransmit(x), y, Label(AfterTransmit(x), TransmitWire(x.c)))
  {
    hide Wrap, Queue, PacketsOk, WithinWindow;
    TransmitNumbers(x);
    TransmitSlice(x);
    LabelPos(AfterTransmit(x), Nxt(x));
    RcvBound(x, y, xy, yx);
  }

  lemma TransmitWindow(x: Peer, y: Peer, xy: set<Packet>, yx: set<Packet>)
    requires Pair(x, y, xy, yx) && CanTransmit(x.c)
    ensures WithinWindow(AfterTransmit(x), yx)
    ensures Transmitted(AfterTransmit(x)) <= CAPACITY + |y.read|
  {
    hide Wrap, Queue, PacketsOk;
    TransmitNumbers(x);
    EdgeBounds(x, y, yx, x.una + x.c.sndWnd);
  }

  lemma TransmitKeeps(x: Peer, y: Peer, xy: set<Packet>, yx: set<Packet>)
    requires Pair(x, y, xy, yx) && CanTransmit(x.c)
    ensures Pair(AfterTransmit(x), y, xy + {Label(AfterTransmit(x), TransmitWire(x.c))}, yx)
  {
    hide Wrap, PacketOk, Numbers, StateFacts, Queue, Advertised;
    TransmitNumbers(x);
    TransmitLocal(x);
    TransmitPacket(x, y, xy, yx);
    TransmitWindow(x, y, xy, yx);
    Frame(x, AfterTransmit(x), y, xy, yx, {Label(AfterTransmit(x), TransmitWire(x.c))});
  }

  // ---------------------------------------------------------------- whole send calls

  predicate SameLabels(p: Peer, p': Peer) {
    p'.una == p.una && p'.c.sndUna == p.c.sndUna && Rcv(p') == Rcv(p)
  }

  lemma LabelsAgree(p: Peer, p': Peer, ws: seq<Wire>)
    requires SameLabels(p, p')
    ensures Labels(p', ws) == Labels(p, ws)
  {
    forall w | w in ws ensures Label(p', w) == Label(p, w) {}
  }

  lemma LabelsConcat(p: Peer, ws: seq<Wire>, ws': seq<Wire>)
    ensures Labels(p, ws + ws') == Labels(p, ws) + Labels(p, ws')
  {
    forall w | w in ws + ws' ensures w in ws || w in ws' {}
    forall k | k in Labels(p, ws) + Labels(p, ws') ensures k in Labels(p, ws + ws') {
      var w :| (w in ws || w in ws') && k == Label(p, w);
      assert w in ws + ws';
    }
  }

  lemma LabelsOne(p: Peer, w: Wire)
    ensures Labels(p, [w]) == {Label(p, w)}
  {
    assert w in [w];
  }

  /** tcp_output, however many segments it sends. */
  lemma {:induction false} OutputKeeps(x: Peer, y: Peer, xy: set<Packet>, yx: set<Packet>)
    requires Pair(x, y, xy, yx)
    ensures var (c, ws) := Output(x.c);
            Pair(x.(c := c), y, xy + Labels(x.(c := c), ws), yx) && SameLabels(x, x.(c := c))
    decreases |x.c.txq|
  {
    hide Pair, Wrap, Usable, Chunk;
    var (c, ws) := Output(x.c);
    var x' := x.(c := c);
    if !CanTransmit(x.c) {
      assert Labels(x', ws) == {};
      assert xy + Labels(x', ws) == xy;
    } else {
      var x1 := AfterTransmit(x);
      var w := TransmitWire(x.c);
      TransmitKeeps(x, y, xy, yx);
      OutputKeeps(x1, y, xy + {Label(x1, w)}, yx);
      var (_, ws1) := Output(x1.c);
      assert ws == [w] + ws1;
      LabelsAgree(x1, x', [w]);
      LabelsOne(x1, w);
      LabelsConcat(x', [w], ws1);
      assert xy + {Label(x1, w)} + Labels(x', ws1) == xy + Labels(x', ws);
    }
  }

  function AfterAppend(x: Peer, b: byte): Peer {
    x.(c := x.c.(txq := x.c.txq + [b]), sent := x.sent + [b])
  }

  lemma AppendLocal(x: Peer, b: byte)
    requires Local(x) && MaySend(x.c.state) && |x.c.txq| < CAPACITY
    ensures Local(AfterAppend(x, b)) && Extends(x, AfterAppend(x, b))
  {
    hide Wrap, Tiles;
    TilesStay(x.c.rexmit, x.c.iss, x.sent, x.sent + [b], Nxt(x) - Span(x.c.rexmit));
  }

  lemma AppendKeeps(x: Peer, y: Peer, xy: set<Packet>, yx: set<Packet>, b: byte)
    requires Pair(x, y, xy, yx) && MaySend(x.c.state) && |x.c.txq| < CAPACITY
    ensures Pair(AfterAppend(x, b), y, xy, yx)
  {
    hide Wrap, PacketsOk, Tiles, Advertised, Local;
    var x' := AfterAppend(x, b);
    AppendLocal(x, b);
    assert PacketsOk(x', y, {}) by { NoPackets(x', y); }
    Frame(x, x', y, xy, yx, {});
    assert xy + {} == xy;
  }

  lemma NoPackets(x: Peer, y: Peer)
    ensures PacketsOk(x, y, {})
  {
  }

  function AfterPush(x: Peer, data: seq<byte>, n: nat): Peer
    requires n <= |data| && |x.c.txq| <= CAPACITY
  {
    var (c, ws, m) := Push(x.c, data, n);
    x.(c := c, sent := x.sent + data[n..m])
  }

  lemma PairSane(x: Peer, y: Peer, xy: set<Packet>, yx: set<Packet>)
    requires Pair(x, y, xy, yx)
    ensures Sane(x) && Sane(y)
  {
  }

  lemma JoinLabels(x1: Peer, x': Peer, xy: set<Packet>, ws1: seq<Wire>, ws2: seq<Wire>)
    requires SameLabels(x1, x')
    ensures xy + Labels(x1, ws1) + Labels(x', ws2) == xy + Labels(x', ws1 + ws2)
  {
    LabelsAgree(x1, x', ws1);
    LabelsConcat(x', ws1, ws2);
  }

  lemma NoLabels(x: Peer, xy: set<Packet>)
    ensures xy + Labels(x, []) == xy
  {
  }

  lemma TakeOne(sent: seq<byte>, data: seq<byte>, n: nat, m: nat)
    requires n < m <= |data|
    ensures sent + [data[n]] + data[n + 1..m] == sent + data[n..m]
  {
    assert [data[n]] + data[n + 1..m] == data[n..m];
  }

  lemma {:induction false} PushKeeps(x: Peer, y: Peer, xy: set<Packet>, yx: set<Packet>, data: seq<byte>, n: nat)
    requires Pair(x, y, xy, yx) && MaySend(x.c.state) && n <= |data| && |x.c.txq| <= CAPACITY
    ensures var x' := AfterPush(x, data, n);
            Pair(x', y, xy + Labels(x', Push(x.c, data, n).1), yx) && SameLabels(x, x')
    decreases |data| - n
  {
    hide Pair, Wrap, Output, Labels;
    var x' := AfterPush(x, data, n);
    var (c, ws, m) := Push(x.c, data, n);
    if n == |data| {
      assert x' == x;
      NoLabels(x', xy);
    } else if |x.c.txq| < CAPACITY {
      var x1 := AfterAppend(x, data[n]);
      AppendKeeps(x, y, xy, yx, data[n]);
      PushKeeps(x1, y, xy, yx, data, n + 1);
      TakeOne(x.sent, data, n, m);
      assert x' == AfterPush(x1, data, n + 1);
    } else {
      var (c1, ws1) := Output(x.c);
      var x1 := x.(c := c1);
      OutputKeeps(x, y, xy, yx);
      var xy1 := xy + Labels(x1, ws1);
      if |c1.txq| == CAPACITY {
        assert x' == x1;
      } else {
        var x2 := AfterAppend(x1, data[n]);
        AppendKeeps(x1, y, xy1, yx, data[n]);
        PushKeeps(x2, y, xy1, yx, data, n + 1);
        var ws2 := Push(x2.c, data, n + 1).1;
        assert ws == ws1 + ws2;
        TakeOne(x.sent, data, n, m);
        assert x' == AfterPush(x2, data, n + 1);
        JoinLabels(x1, x', xy, ws1, ws2);
      }
    }
  }

  lemma SendKeeps(x: Peer, y: Peer, xy: set<Packet>, yx: set<Packet>, data: seq<byte>)
    requires Pair(x, y, xy, yx) && Sane(x)
    ensures var (x', ws) := Handle(x, SendCall(data)); Pair(x', y, xy + Labels(x', ws), yx)
  {
    hide Pair, Wrap, Output, Push;
    var (x', ws) := Handle(x, SendCall(data));
    if !MaySend(x.c.state) {
      assert xy + Labels(x', ws) == xy;
    } else {
      var (c1, ws1, n) := Push(x.c, data, 0);
      var x1 := AfterPush(x, data, 0);
      PushKeeps(x, y, xy, yx, data, 0);
      OutputKeeps(x1, y, xy + Labels(x1, ws1), yx);
      var ws2 := Output(c1).1;
      JoinLabels(x1, x', xy, ws1, ws2);
      assert data[0..n] == data[..n];
    }
  }
}
