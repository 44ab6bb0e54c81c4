/** One TCP endpoint as a value: what each entry point of the stack does to the TCP control
    block, with the two ring buffers seen as byte queues.  The class in tcp_tcb.dfy implements
    these functions on ring buffers in place; tcp_system.dfy runs two of them over a network. */
module TcpConn {
  import opened SeqSpace

  const BUFSZ := 65536          // TCP_RX_BUFSZ == TCP_TX_BUFSZ
  const CAPACITY := BUFSZ - 1   // a ring buffer never fills its last slot
  const MSS_DEFAULT := 1460
  const ECONNRESET := 104
  const ETIMEDOUT := 110

  type u16 = x: int | 0 <= x < 65536
  type Mss = x: int | 536 <= x < 65536 witness 536

  datatype State = Closed | Listen | SynSent | SynReceived | Established
                 | FinWait1 | FinWait2 | CloseWait | Closing | LastAck | TimeWait

  datatype Flags = Flags(fin: bool, syn: bool, rst: bool, psh: bool, ack: bool)

  const SYN := Flags(false, true, false, false, false)
  const SYNACK := Flags(false, true, false, false, true)
  const ACK := Flags(false, false, false, false, true)
  const PSHACK := Flags(false, false, false, true, true)
  const FINACK := Flags(true, false, false, false, true)
  const RSTACK := Flags(false, false, true, false, true)

  datatype MssOption = NoMss | PeerAccepts(mss: u16)

  /** A segment as it is on the wire. */
  datatype Wire = Wire(seqno: u32, ackno: u32, flags: Flags, window: u16, option: MssOption, data: seq<byte>)

  datatype Rexmit = Rexmit(start: u32, end: u32, data: seq<byte>, flags: Flags)

  /** The retransmit queue, a linked list in the order of sending. */
  datatype Rexmits = Nothing | Entry(head: Rexmit, tail: Rexmits)

  function Append(q: Rexmits, e: Rexmit): Rexmits {
    if q == Nothing then Entry(e, Nothing) else Entry(q.head, Append(q.tail, e))
  }

  datatype Conn = Conn(
    state: State,
    sndUna: u32, sndNxt: u32, sndWnd: u32, iss: u32,
    rcvNxt: u32, rcvWnd: u32, irs: u32,
    sndMss: Mss, rcvMss: u16,
    rxq: seq<byte>, txq: seq<byte>,
    rexmit: Rexmits,
    finSent: bool, finReceived: bool, delackPending: bool,
    soError: int, active: bool)

  // ---------------------------------------------------------------- transmission

  function SeqLen(flags: Flags, data: seq<byte>): nat {
    |data| + (if flags.syn then 1 else 0) + (if flags.fin then 1 else 0)
  }

  function AdvertisedWindow(c: Conn): u16 {
    if c.rcvWnd < 65535 then c.rcvWnd else 65535
  }

  function MakeWire(c: Conn, flags: Flags, data: seq<byte>): Wire {
    Wire(c.sndNxt, c.rcvNxt, flags, AdvertisedWindow(c), if flags.syn then PeerAccepts(c.rcvMss) else NoMss, data)
  }

  /** tcp_send_segment: consumes sequence space and queues what it consumed for retransmission. */
  function SendSegment(c: Conn, flags: Flags, data: seq<byte>): Conn {
    var end := Wrap(c.sndNxt + SeqLen(flags, data));
    c.(sndNxt := end,
    rexmit := if SeqLen(flags, data) > 0 then Append(c.rexmit, Rexmit(c.sndNxt, end, data, flags)) else c.rexmit)
  }

  /** tcp_send_ack */
  function SendAck(c: Conn): Conn {
    c.(delackPending := false)
  }

  predicate MaySend(s: State) {
    s == Established || s == CloseWait
  }

  function Usable(c: Conn): nat {
    var inFlight := Wrap(c.sndNxt - c.sndUna);
    if c.sndWnd > inFlight then c.sndWnd - inFlight else 0
  }

  function Min(a: int, b: int): int { if a < b then a else b }

  function Chunk(c: Conn): nat {
    Min(Min(|c.txq|, c.sndMss), Usable(c))
  }

  predicate CanTransmit(c: Conn) {
    MaySend(c.state) && c.txq != [] && Usable(c) > 0
  }

  function TransmitWire(c: Conn): Wire
    requires CanTransmit(c)
  {
    MakeWire(c, PSHACK, c.txq[..Chunk(c)])
  }

  /** One round of the loop of tcp_output, with ip_tx succeeding. */
  function Transmit(c: Conn): Conn
    requires CanTransmit(c)
    ensures |Transmit(c).txq| < |c.txq|
  {
    SendSegment(c, PSHACK, c.txq[..Chunk(c)]).(txq := c.txq[Chunk(c)..])
  }

  /** tcp_output */
  function Output(c: Conn): (r: (Conn, seq<Wire>))
    ensures |r.0.txq| <= |c.txq|
    ensures r.0.state == c.state
    decreases |c.txq|
  {
    if !CanTransmit(c) then (c, [])
    else
      var (c', ws) := Output(Transmit(c));
      (c', [TransmitWire(c)] + ws)
  }

  /** Every chunk of tcp_output fits into the segment buffer, which has MSS_DEFAULT bytes. */
  predicate OutputFits(c: Conn)
    decreases |c.txq|
  {
    CanTransmit(c) ==> Chunk(c) <= MSS_DEFAULT && OutputFits(Transmit(c))
  }

  // ---------------------------------------------------------------- retransmit queue

  /** tcp_rexmit_ack: drop the leading entries that are entirely acknowledged. */
  function RexmitAck(q: Rexmits, ack: u32): Rexmits {
    if q.Entry? && SeqLe(q.head.end, ack) then RexmitAck(q.tail, ack) else q
  }

  // ---------------------------------------------------------------- reception

  function RxFree(c: Conn): u32
    requires |c.rxq| <= CAPACITY
  {
    CAPACITY - |c.rxq|
  }

  /** tcp_deliver_data: whatever does not fit is dropped, but rcv_nxt moves past all of it. */
  function Deliver(c: Conn, data: seq<byte>): Conn
    requires |c.rxq| <= CAPACITY
  {
    var n := Min(|data|, CAPACITY - |c.rxq|);
    var c1 := c.(rxq := c.rxq + data[..n], rcvNxt := Wrap(c.rcvNxt + |data|));
    c1.(rcvWnd := RxFree(c1))
  }

  function PeerMss(current: Mss, option: MssOption): Mss {
    match option
    case NoMss => current
    case PeerAccepts(m) => if m < 536 then 536 else m
  }

  /** tcp_handle_syn on a freshly allocated control block. */
  function HandleSyn(c: Conn, w: Wire): (Conn, seq<Wire>) {
    var c1 := c.(irs := w.seqno, rcvNxt := Wrap(w.seqno + 1), sndNxt := c.iss, sndUna := c.iss,
    sndWnd := w.window, sndMss := PeerMss(c.sndMss, w.option), state := SynReceived);
    (SendSegment(c1, SYNACK, []), [MakeWire(c1, SYNACK, [])])
  }

  /** The reply of tcp_rx to a segment that belongs to no connection. */
  function NoConnection(w: Wire): seq<Wire> {
    if w.flags.rst then []
    else if w.flags.ack then [Wire(w.ackno, 0, RSTACK, 0, NoMss, [])]
    else [Wire(0, Wrap(w.seqno + SeqLen(w.flags, w.data)), RSTACK, 0, NoMss, [])]
  }

  function RxSynSent(c: Conn, w: Wire): (Conn, seq<Wire>) {
    if !(w.flags.syn && w.flags.ack) then (c, [])
    else if w.ackno != c.sndNxt then (c, [Wire(w.ackno, 0, RSTACK, 0, NoMss, [])])
    else
      var c1 := c.(irs := w.seqno, rcvNxt := Wrap(w.seqno + 1), sndUna := w.ackno, sndWnd := w.window,
      sndMss := PeerMss(c.sndMss, w.option), rexmit := RexmitAck(c.rexmit, w.ackno), state := Established);
      (SendAck(c1), [MakeWire(c1, ACK, [])])
  }

  /** A full accept queue frees the new connection on the spot. */
  function RxSynReceived(c: Conn, w: Wire, acceptFull: bool): Conn {
    if !(w.flags.ack && w.ackno == c.sndNxt) then c
    else
      var c1 := c.(sndUna := w.ackno, rexmit := RexmitAck(c.rexmit, w.ackno), state := Established);
      if acceptFull then Free(c1) else c1
  }

  /** tcp_tcb_free.  The buffers go with the block: rxq then stands for bytes that nobody will read. */
  function Free(c: Conn): Conn {
    c.(state := Closed, active := false, rexmit := Nothing)
  }

  predicate AckAcceptable(c: Conn, w: Wire) {
    w.flags.ack && SeqGt(w.ackno, c.sndUna) && SeqLe(w.ackno, c.sndNxt)
  }

  /** ACK processing of the synchronised states, with the FIN_WAIT_1 edge. */
  function RxAck(c: Conn, w: Wire): Conn {
    var c1 := if AckAcceptable(c, w)
              then c.(sndUna := w.ackno, rexmit := RexmitAck(c.rexmit, w.ackno), sndWnd := w.window)
              else c;
    if c1.state == FinWait1 && c1.sndUna == c1.sndNxt then c1.(state := FinWait2) else c1
  }

  function FinState(s: State): State {
    match s
    case Established => CloseWait
    case FinWait1 => Closing
    case FinWait2 => TimeWait
    case _ => s
  }

  function RxData(c: Conn, w: Wire): Conn
    requires |c.rxq| <= CAPACITY
  {
    if |w.data| > 0 then Deliver(c, w.data).(delackPending := true) else c
  }

  function RxFin(c: Conn): Conn {
    c.(rcvNxt := Wrap(c.rcvNxt + 1), finReceived := true)
  }

  /** The sequence test, data and FIN: anything out of order is acknowledged and dropped. */
  function RxPayload(c: Conn, w: Wire): (Conn, seq<Wire>)
    requires |c.rxq| <= CAPACITY
  {
    if (|w.data| > 0 || w.flags.fin) && w.seqno != c.rcvNxt then
      (SendAck(c), [MakeWire(c, ACK, [])])
    else
      var c1 := RxData(c, w);
      if w.flags.fin then
        var c2 := RxFin(c1);
        (SendAck(c2).(state := FinState(c2.state)), [MakeWire(c2, ACK, [])])
      else (c1, [])
  }

  /** ESTABLISHED, FIN_WAIT_1, FIN_WAIT_2 and CLOSE_WAIT. */
  function RxSynchronised(c: Conn, w: Wire): (Conn, seq<Wire>)
    requires |c.rxq| <= CAPACITY
  {
    RxPayload(RxAck(c, w), w)
  }

  predicate Synchronised(s: State) {
    s == Established || s == FinWait1 || s == FinWait2 || s == CloseWait
  }

  /** tcp_rx once the control block has been found. */
  function Rx(c: Conn, w: Wire, acceptFull: bool): (Conn, seq<Wire>)
    requires |c.rxq| <= CAPACITY
  {
    if w.flags.rst then (c.(soError := -ECONNRESET, state := Closed), [])
    else if c.state == SynSent then RxSynSent(c, w)
    else if c.state == SynReceived then (RxSynReceived(c, w, acceptFull), [])
    else if Synchronised(c.state) then RxSynchronised(c, w)
    else if c.state == Closing && w.flags.ack && c.sndUna == c.sndNxt then (c.(state := TimeWait), [])
    else if c.state == LastAck && w.flags.ack && c.sndUna == c.sndNxt then (Free(c), [])
    else if c.state == TimeWait then (SendAck(c), [MakeWire(c, ACK, [])])
    else (c, [])
  }

  // ---------------------------------------------------------------- socket calls and timers

  /** tcp_tcb_alloc */
  function Fresh(iss: u32): Conn {
    Conn(Closed, 0, 0, 0, iss, 0, BUFSZ, 0, MSS_DEFAULT, MSS_DEFAULT, [], [], Nothing,
         false, false, false, 0, true)
  }

  /** tcp_sock_connect up to the point where it blocks. */
  function Connect(c: Conn): (Conn, seq<Wire>) {
    var c1 := c.(sndNxt := c.iss, sndUna := c.iss, state := SynSent);
    (SendSegment(c1, SYN, []), [MakeWire(c1, SYN, [])])
  }

  /** The copy loop of tcp_sock_sendto: n is the number of bytes already taken from data. */
  function Push(c: Conn, data: seq<byte>, n: nat): (r: (Conn, seq<Wire>, nat))
    requires n <= |data|
    requires |c.txq| <= CAPACITY
    ensures n <= r.2 <= |data|
    ensures |r.0.txq| <= CAPACITY
    decreases |data| - n
  {
    if n == |data| then (c, [], n)
    else if |c.txq| < CAPACITY then Push(c.(txq := c.txq + [data[n]]), data, n + 1)
    else
      var (c1, ws) := Output(c);
      if |c1.txq| == CAPACITY then (c1, ws, n)
      else
        var (c2, ws', m) := Push(c1.(txq := c1.txq + [data[n]]), data, n + 1);
        (c2, ws + ws', m)
  }

  /** Every chunk of the copy loop's calls of tcp_output fits. */
  predicate PushFits(c: Conn, data: seq<byte>, n: nat)
    requires n <= |data| && |c.txq| <= CAPACITY
    decreases |data| - n
  {
    if n == |data| then true
    else if |c.txq| < CAPACITY then PushFits(c.(txq := c.txq + [data[n]]), data, n + 1)
    else
      var c1 := Output(c).0;
      OutputFits(c) && (|c1.txq| < CAPACITY ==> PushFits(c1.(txq := c1.txq + [data[n]]), data, n + 1))
  }

  /** Every chunk of a send call fits. */
  predicate SendFits(c: Conn, data: seq<byte>)
    requires |c.txq| <= CAPACITY
  {
    MaySend(c.state) ==> PushFits(c, data, 0) && OutputFits(Push(c, data, 0).0)
  }

  /** tcp_sock_sendto on a non-blocking socket; -1 when the connection cannot send. */
  function SendTo(c: Conn, data: seq<byte>): (r: (Conn, seq<Wire>, int))
    requires |c.txq| <= CAPACITY
    ensures -1 <= r.2 <= |data|
  {
    if !MaySend(c.state) then (c, [], -1 as int)
    else
      var (c1, ws, n) := Push(c, data, 0);
      var (c2, ws') := Output(c1);
      (c2, ws + ws', n as int)
  }

  /** tcp_sock_recvfrom on a non-blocking socket: Again is EAGAIN, Bytes([]) end of file.  Gone is the
      read from a block that was freed with bytes in it: its buffer is no longer there. */
  datatype Received = Again | Bytes(data: seq<byte>) | Gone

  function RecvFrom(c: Conn, len: nat): (r: (Conn, Received))
    requires |c.rxq| <= CAPACITY
  {
    if c.rxq == [] then
      (c, if c.finReceived || c.state == CloseWait || c.state == Closed then Bytes([]) else Again)
    else if !c.active then (c, Gone)
    else
      var n := Min(len, |c.rxq|);
      var c1 := c.(rxq := c.rxq[n..]);
      (c1.(rcvWnd := RxFree(c1)), Bytes(c.rxq[..n]))
  }

  /** tcp_sock_shutdown with SHUT_WR or SHUT_RDWR. */
  function Shutdown(c: Conn): (Conn, seq<Wire>) {
    if c.finSent || !MaySend(c.state) then (c, [])
    else
      var c1 := SendSegment(c.(finSent := true), FINACK, []);
      (c1.(state := if c.state == Established then FinWait1 else LastAck), [MakeWire(c, FINACK, [])])
  }

  /** tcp_rexmit_timeout: gives up at once. */
  function RexmitTimeout(c: Conn): Conn {
    if c.state == Closed || !c.active || c.rexmit == Nothing then c
    else c.(soError := -ETIMEDOUT, state := Closed)
  }

  /** tcp_delack_timeout */
  function DelackTimeout(c: Conn): (Conn, seq<Wire>) {
    if c.delackPending && c.state != Closed then (SendAck(c), [MakeWire(c, ACK, [])]) else (c, [])
  }
}
