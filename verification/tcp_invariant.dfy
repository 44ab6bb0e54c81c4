/** The invariant of the two-endpoint system, and its preservation by every step. */
module TcpInvariant {
  import opened SeqSpace
  import opened TcpConn
  import opened TcpSystem

  // ---------------------------------------------------------------- one endpoint

  /** data is what was sent from offset at on. */
  predicate Carries(data: seq<byte>, sent: seq<byte>, at: int) {
    0 <= at && at + |data| <= |sent| && forall i :: 0 <= i < |data| ==> data[i] == sent[at + i]
  }

  /** Buffers, windows and the meaning of the two send-side sequence numbers. */
  predicate Numbers(p: Peer) {
    && Sane(p)
    && Carries(p.c.txq, p.sent, Transmitted(p))
    && AdvertisedWindow(p.c) == CAPACITY - |p.c.rxq|
    && p.c.sndWnd <= 65535 && p.c.sndMss <= MSS_DEFAULT && p.c.rcvMss == MSS_DEFAULT
    && p.una <= Nxt(p) <= p.una + 65535 + Bit(p.c.finSent)
    && (p.c.state != Listen ==>
          p.c.sndNxt == Wrap(p.c.iss + Nxt(p)) && p.c.sndUna == Wrap(p.c.iss + p.una))
  }

  predicate FinWasSent(s: State) {
    s == FinWait1 || s == FinWait2 || s == Closing || s == LastAck || s == TimeWait
  }

  predicate FinWasReceived(s: State) {
    s == CloseWait || s == Closing || s == LastAck || s == TimeWait
  }

  /** What each state of the connection says about FINs and acknowledgements. */
  predicate StateFacts(p: Peer) {
    var s := p.c.state;
    && (s == Listen ==> p == Peer(Fresh(p.c.iss).(state := Listen), 0, [], []))
    && (s == SynSent || s == SynReceived ==>
          p.una == 0 && p.sent == [] && p.read == [] && p.c.rxq == [] 
          && !p.c.finSent && !p.c.finReceived && !p.c.delackPending)
    && (s == FinWait2 || s == TimeWait ==> p.una == Nxt(p))
    && (s == FinWait1 || s == Closing || s == LastAck ==> p.una < Nxt(p))
    && (s != Closed ==> p.c.finSent == FinWasSent(s) && p.c.finReceived == FinWasReceived(s) && p.c.active)
    && (s != Closed && s != Listen && s != SynSent && s != SynReceived ==> p.una >= 1)
  }

  function Span(q: Rexmits): nat {
    if q == Nothing then 0 else SeqLen(q.head.flags, q.head.data) + Span(q.tail)
  }

  /** Entry e covers stream positions from lo on and carries the bytes sent there. */
  predicate EntryAt(e: Rexmit, iss: u32, sent: seq<byte>, lo: nat) {
    && 0 < SeqLen(e.flags, e.data) <= BUFSZ
    && e.start == Wrap(iss + lo) && e.end == Wrap(iss + lo + SeqLen(e.flags, e.data))
    && (e.data != [] ==> Carries(e.data, sent, lo - 1))
  }

  /** The entries of q follow each other without gaps from position lo on. */
  predicate Tiles(q: Rexmits, iss: u32, sent: seq<byte>, lo: nat) {
    q.Entry? ==> EntryAt(q.head, iss, sent, lo) && Tiles(q.tail, iss, sent, lo + SeqLen(q.head.flags, q.head.data))
  }

  /** q tiles [lo, nxt), its head holds una, and it is empty exactly when nothing is outstanding. */
  predicate Covers(q: Rexmits, iss: u32, sent: seq<byte>, una: nat, nxt: int) {
    var lo := nxt - Span(q);
    && 0 <= lo <= una
    && Tiles(q, iss, sent, lo)
    && (q == Nothing <==> una == nxt)
    && (q != Nothing ==> una < lo + SeqLen(q.head.flags, q.head.data))
  }

  predicate Queue(p: Peer) {
    p.c.state != Closed ==> Covers(p.c.rexmit, p.c.iss, p.sent, p.una, Nxt(p))
  }

  predicate Local(p: Peer) {
    Numbers(p) && StateFacts(p) && Queue(p)
  }

  // ---------------------------------------------------------------- x sends to y

  /** What y holds is what x transmitted first. */
  predicate Stream(x: Peer, y: Peer) {
    var n := |y.read| + |y.c.rxq|;
    && n <= Transmitted(x) <= |x.sent|
    && Carries(y.read, x.sent, 0) && Carries(y.c.rxq, x.sent, |y.read|)
    && (y.c.finReceived ==> x.c.finSent && n == Transmitted(x))
  }

  predicate Live(s: State) {
    s != Closed && s != Listen && s != SynSent
  }

  predicate Synced(x: Peer, y: Peer) {
    Live(y.c.state) ==> x.c.state != Listen && y.c.rcvNxt == Wrap(x.c.iss + Rcv(y))
  }

  predicate PacketOk(x: Peer, y: Peer, k: Packet) {
    var w := k.w;
    if w.flags.rst then w.flags == RSTACK else
    (&& x.c.state != Listen
     && w.seqno == Wrap(x.c.iss + k.pos) && k.pos + SeqLen(w.flags, w.data) <= Nxt(x)
     && (w.flags.syn ==> k.pos == 0 && w.data == [] && !w.flags.fin && w.option == PeerAccepts(MSS_DEFAULT) && k.ackPos == 1)
     && (!w.flags.syn ==> k.pos >= 1 && w.flags.ack)
     && (w.data != [] ==> !w.flags.fin && k.pos - 1 + |w.data| <= Transmitted(x) <= |x.sent|
                          && Carries(w.data, x.sent, k.pos - 1))
     && (w.flags.fin ==> x.c.finSent && k.pos == 1 + Transmitted(x) && w.data == [])
     && (w.flags.ack ==> y.c.state != Listen && w.ackno == Wrap(y.c.iss + k.ackPos) && k.ackPos <= Nxt(y))
     && 1 <= k.ackPos <= Rcv(x)
     && k.ackPos + w.window <= Edge(x))
  }

  predicate PacketsOk(x: Peer, y: Peer, xy: set<Packet>) {
    forall k :: k in xy ==> PacketOk(x, y, k)
  }

  /** Some segment y has sent advertises a right edge at or beyond n. */
  predicate Advertised(yx: set<Packet>, n: int) {
    exists q :: q in yx && !q.w.flags.rst && n <= q.ackPos + q.w.window
  }

  /** x knows only windows that y advertised, and sent nothing beyond them. */
  predicate WithinWindow(x: Peer, yx: set<Packet>) {
    && (x.c.sndWnd > 0 ==> Advertised(yx, (if x.una == 0 then 1 else x.una) + x.c.sndWnd))
    && (Transmitted(x) > 0 ==> Advertised(yx, 1 + Transmitted(x)))
  }

  predicate Cross(x: Peer, y: Peer, xy: set<Packet>, yx: set<Packet>) {
    && Stream(x, y)
    && Synced(x, y)
    && x.una <= Rcv(y)
    && PacketsOk(x, y, xy)
    && WithinWindow(x, yx)
    && Transmitted(x) <= CAPACITY + |y.read|
  }

  predicate Pair(x: Peer, y: Peer, xy: set<Packet>, yx: set<Packet>) {
    Local(x) && Local(y) && Cross(x, y, xy, yx) && Cross(y, x, yx, xy)
  }

  predicate Inv(s: Sys) {
    Pair(s.a, s.b, s.ab, s.ba)
  }

  // ---------------------------------------------------------------- progress of one endpoint

  /** y moved on: every fact recorded about its earlier segments still holds. */
  predicate Extends(x: Peer, x': Peer) {
    && x'.c.iss == x.c.iss
    && (x.c.state != Listen ==> x'.c.state != Listen)
    && x.una <= x'.una
    && 0 <= Transmitted(x) <= Transmitted(x') && x.sent <= x'.sent && Transmitted(x') <= |x'.sent|
    && (x.c.finSent ==> x'.c.finSent && Transmitted(x') == Transmitted(x))
    && Nxt(x) <= Nxt(x')
    && Rcv(x) <= Rcv(x') && Edge(x) <= Edge(x') && |x.read| <= |x'.read|
  }

  lemma PacketStays(x: Peer, x': Peer, y: Peer, k: Packet)
    requires Extends(x, x') && PacketOk(x, y, k)
    ensures PacketOk(x', y, k)
  {
  }

  lemma PacketSeen(x: Peer, x': Peer, y: Peer, k: Packet)
    requires Extends(x, x') && PacketOk(y, x, k)
    ensures PacketOk(y, x', k)
  {
  }

  lemma PacketsStay(x: Peer, x': Peer, y: Peer, xy: set<Packet>, new_: set<Packet>)
    requires Extends(x, x') && PacketsOk(x, y, xy) && PacketsOk(x', y, new_)
    ensures PacketsOk(x', y, xy + new_)
  {
    forall k | k in xy + new_ ensures PacketOk(x', y, k) {
      if k in xy { PacketStays(x, x', y, k); }
    }
  }

  lemma PacketsSeen(x: Peer, x': Peer, y: Peer, yx: set<Packet>)
    requires Extends(x, x') && PacketsOk(y, x, yx)
    ensures PacketsOk(y, x', yx)
  {
    forall k | k in yx ensures PacketOk(y, x', k) {
      PacketSeen(x, x', y, k);
    }
  }

  lemma StreamStays(x: Peer, x': Peer, y: Peer)
    requires Extends(x, x') && Stream(x, y)
    ensures Stream(x', y)
  {
    var n := |y.read| + |y.c.rxq|;
    assert x'.sent[..n] == x.sent[..n];
  }

  lemma AdvertisedMore(yx: set<Packet>, more: set<Packet>, n: int)
    requires Advertised(yx, n)
    ensures Advertised(yx + more, n)
  {
    var q :| q in yx && !q.w.flags.rst && n <= q.ackPos + q.w.window;
    assert q in yx + more;
  }

  lemma WindowStays(y: Peer, xy: set<Packet>, new_: set<Packet>)
    requires WithinWindow(y, xy)
    ensures WithinWindow(y, xy + new_)
  {
    if y.c.sndWnd > 0 { AdvertisedMore(xy, new_, (if y.una == 0 then 1 else y.una) + y.c.sndWnd); }
    if Transmitted(y) > 0 { AdvertisedMore(xy, new_, 1 + Transmitted(y)); }
  }

  lemma SyncedStays(x: Peer, x': Peer, y: Peer)
    requires Extends(x, x') && Synced(x, y)
    ensures Synced(x', y)
  {
  }

  /** A step of x that extends it and emits good packets keeps everything about y. */
  lemma Frame(x: Peer, x': Peer, y: Peer, xy: set<Packet>, yx: set<Packet>, new_: set<Packet>)
    requires Pair(x, y, xy, yx) && Extends(x, x') && Local(x') && PacketsOk(x', y, new_)
    requires Stream(y, x') && Synced(y, x') && x'.una <= Rcv(y) && WithinWindow(x', yx)
    requires Transmitted(x') <= CAPACITY + |y.read|
    ensures Pair(x', y, xy + new_, yx)
  {
    hide PacketOk, Tiles, Numbers, StateFacts;
    assert Cross(x', y, xy + new_, yx) by {
      PacketsStay(x, x', y, xy, new_);
      StreamStays(x, x', y);
      SyncedStays(x, x', y);
    }
    assert Cross(y, x', yx, xy + new_) by {
      PacketsSeen(x, x', y, yx);
      WindowStays(y, xy, new_);
    }
  }
}
