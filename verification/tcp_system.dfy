/** Two TCP endpoints joined by a network that loses, duplicates and reorders segments. */
module TcpSystem {
  import opened SeqSpace
  import opened TcpConn

  /** An endpoint with its history: una is the unbounded stream position behind snd_una (the SYN
      has position 0, the first data byte position 1), sent is every byte accepted by send calls
      and read every byte returned by recv calls.  The endpoint itself never looks at these. */
  datatype Peer = Peer(c: Conn, una: nat, sent: seq<byte>, read: seq<byte>)

  /** A segment in the network with the unbounded positions its two 32-bit numbers stand for. */
  datatype Packet = Packet(w: Wire, pos: nat, ackPos: nat)

  /** Packets stay in the network for ever: loss is never delivering one, duplication is
      delivering it again. */
  datatype Sys = Sys(a: Peer, b: Peer, ab: set<Packet>, ba: set<Packet>)

  datatype Event =
    | Arrive(k: Packet, acceptFull: bool)
    | SendCall(data: seq<byte>)
    | RecvCall(len: nat)
    | ShutdownCall
    | RexmitFires
    | DelackFires
    | TimeWaitFires

  // ---------------------------------------------------------------- stream positions

  function Bit(b: bool): nat { if b then 1 else 0 }

  /** Bytes handed to the network so far. */
  function Transmitted(p: Peer): int { |p.sent| - |p.c.txq| }

  /** Unbounded position behind snd_nxt. */
  function Nxt(p: Peer): int {
    if p.c.state == Listen then 0 else 1 + Transmitted(p) + Bit(p.c.finSent)
  }

  /** Unbounded position behind rcv_nxt. */
  function Rcv(p: Peer): nat {
    1 + |p.read| + |p.c.rxq| + Bit(p.c.finReceived)
  }

  /** The right edge an endpoint advertises in the segments it sends now. */
  function Edge(p: Peer): nat {
    Rcv(p) + AdvertisedWindow(p.c)
  }

  function Label(p: Peer, w: Wire): Packet {
    Packet(w, p.una + Wrap(w.seqno - p.c.sndUna), Rcv(p))
  }

  function Labels(p: Peer, ws: seq<Wire>): set<Packet> {
    set w | w in ws :: Label(p, w)
  }

  // ---------------------------------------------------------------- steps

  predicate Sane(p: Peer) {
    |p.c.rxq| <= CAPACITY && |p.c.txq| <= CAPACITY
  }

  function HandleArrival(p: Peer, w: Wire, acceptFull: bool): (Peer, seq<Wire>)
    requires Sane(p)
  {
    if p.c.state == Listen then
      if w.flags.syn && !w.flags.ack then
        var (c, ws) := HandleSyn(p.c, w);
        (p.(c := c), ws)
      else (p, NoConnection(w))
    else if !p.c.active then (p, NoConnection(w))
    else
      var (c, ws) := Rx(p.c, w, acceptFull);
      (p.(c := c, una := p.una + Wrap(c.sndUna - p.c.sndUna)), ws)
  }

  function Handle(p: Peer, e: Event): (Peer, seq<Wire>)
    requires Sane(p)
  {
    match e
    case Arrive(k, acceptFull) => HandleArrival(p, k.w, acceptFull)
    case SendCall(data) =>
      var (c, ws, n) := SendTo(p.c, data);
      (p.(c := c, sent := if n < 0 then p.sent else p.sent + data[..n]), ws)
    case RecvCall(len) =>
      var (c, r) := RecvFrom(p.c, len);
      (p.(c := c, read := if r.Bytes? then p.read + r.data else p.read), [])
    case ShutdownCall =>
      var (c, ws) := Shutdown(p.c);
      (p.(c := c), ws)
    case RexmitFires => (p.(c := RexmitTimeout(p.c)), [])
    case DelackFires =>
      var (c, ws) := DelackTimeout(p.c);
      (p.(c := c), ws)
    case TimeWaitFires => (if p.c.state == TimeWait then p.(c := Free(p.c)) else p, [])
  }

  /** No delivered segment is more than 2^31 sequence numbers stale. */
  predicate NotStale(p: Peer, k: Packet) {
    k.w.flags.rst || (Rcv(p) - k.pos <= TWO31 && p.una - k.ackPos <= TWO31)
  }

  predicate Enabled(p: Peer, incoming: set<Packet>, e: Event) {
    e.Arrive? ==> e.k in incoming && NotStale(p, e.k)
  }

  function StepA(s: Sys, e: Event): Sys
    requires Sane(s.a)
  {
    var (p, ws) := Handle(s.a, e);
    s.(a := p, ab := s.ab + Labels(p, ws))
  }

  function Swap(s: Sys): Sys { Sys(s.b, s.a, s.ba, s.ab) }

  ghost predicate Next(s: Sys, s': Sys) {
    Sane(s.a) && Sane(s.b) &&
    exists e ::
      || (Enabled(s.a, s.ba, e) && s' == StepA(s, e))
      || (Enabled(s.b, s.ab, e) && s' == Swap(StepA(Swap(s), e)))
  }

  /** One side has called connect, the other listens. */
  ghost predicate Init(s: Sys) {
    exists i: u32, j: u32 ::
      var (c, ws) := Connect(Fresh(i));
      var p := Peer(c, 0, [], []);
      s == Sys(p, Peer(Fresh(j).(state := Listen), 0, [], []), Labels(p, ws), {})
  }

  ghost predicate Run(r: seq<Sys>) {
    |r| > 0 && Init(r[0]) && forall i :: 0 <= i < |r| - 1 ==> Next(r[i], r[i + 1])
  }
}
