/** The control block of net/tcp.h with its ring buffers, and the entry points of tcp_input.c,
    tcp_output.c, tcp_timer.c and socket.c that update it in place.  Each method is proved to do
    to the block exactly what the corresponding function of TcpConn does to its value. */
module TcpControlBlock {
  import opened SeqSpace
  import opened TcpConn

  // ---------------------------------------------------------------- ring buffers

  predicate RingOk(buf: seq<byte>, head: int, tail: int) {
    |buf| == BUFSZ && 0 <= head < BUFSZ && 0 <= tail < BUFSZ
  }

  function RingLen(head: int, tail: int): nat {
    (head - tail) % 65536
  }

  /** The bytes between tail and head, oldest first. */
  function Ring(buf: seq<byte>, head: int, tail: int): seq<byte>
    requires RingOk(buf, head, tail)
  {
    seq(RingLen(head, tail), i requires 0 <= i => buf[(tail + i) % 65536])
  }

  /** The count of tcp_rx_available: the unsigned difference may wrap because 65536 divides 2^32. */
  lemma AvailableIs(head: int, tail: int)
    requires 0 <= head < BUFSZ && 0 <= tail < BUFSZ
    ensures Wrap(head - tail) % 65536 == RingLen(head, tail)
  {
  }

  lemma PushIs(buf: seq<byte>, head: int, tail: int, b: byte)
    requires RingOk(buf, head, tail)
    ensures (head + 1) % 65536 != tail <==> RingLen(head, tail) < CAPACITY
    ensures (head + 1) % 65536 != tail ==>
              Ring(buf[head := b], (head + 1) % 65536, tail) == Ring(buf, head, tail) + [b]
  {
    if (head + 1) % 65536 != tail {
      var r, r' := Ring(buf, head, tail) + [b], Ring(buf[head := b], (head + 1) % 65536, tail);
      assert RingLen((head + 1) % 65536, tail) == RingLen(head, tail) + 1;
      forall i | 0 <= i < |r'| ensures r'[i] == r[i] {
        assert (tail + i) % 65536 == head <==> i == RingLen(head, tail);
      }
    }
  }

  lemma PopIs(buf: seq<byte>, head: int, tail: int, n: nat)
    requires RingOk(buf, head, tail) && n <= RingLen(head, tail)
    ensures Ring(buf, head, (tail + n) % 65536) == Ring(buf, head, tail)[n..]
  {
    assert RingLen(head, (tail + n) % 65536) == RingLen(head, tail) - n;
    forall i | 0 <= i < RingLen(head, tail) - n
      ensures Ring(buf, head, (tail + n) % 65536)[i] == Ring(buf, head, tail)[n..][i]
    {
      assert ((tail + n) % 65536 + i) % 65536 == (tail + (n + i)) % 65536;
    }
  }

  class Tcb {
    var state: State
    var sndUna: u32
    var sndNxt: u32
    var sndWnd: u32
    const iss: u32
    var rcvNxt: u32
    var rcvWnd: u32
    var irs: u32
    var sndMss: Mss
    const rcvMss: u16
    const rxBuf: array<byte>
    var rxHead: u32
    var rxTail: u32
    const txBuf: array<byte>
    var txHead: u32
    var txTail: u32
    var rexmit: Rexmits
    var finSent: bool
    var finReceived: bool
    var delackPending: bool
    var soError: int
    var active: bool
    var out: seq<Wire>    // segments handed to ip_tx
    ghost var rxq: seq<byte>    // contents of the two rings
    ghost var txq: seq<byte>

    ghost predicate RingsOk()
      reads `rxHead, `rxTail, `txHead, `txTail, `rxq, `txq, rxBuf, txBuf
    {
      && rxBuf != txBuf
      && RingOk(rxBuf[..], rxHead, rxTail) && rxq == Ring(rxBuf[..], rxHead, rxTail)
      && RingOk(txBuf[..], txHead, txTail) && txq == Ring(txBuf[..], txHead, txTail)
    }

    ghost predicate Valid()
      reads this, rxBuf, txBuf
      ensures Valid() ==> |rxq| <= CAPACITY && |txq| <= CAPACITY
    {
      RingsOk()
    }

    ghost function View(): Conn
      reads this
    {
      Conn(state, sndUna, sndNxt, sndWnd, iss, rcvNxt, rcvWnd, irs, sndMss, rcvMss, rxq, txq, rexmit,
           finSent, finReceived, delackPending, soError, active)
    }

    /** tcp_tcb_alloc */
    constructor (isn: u32)
      ensures Valid() && View() == Fresh(isn) && out == [] && fresh(rxBuf) && fresh(txBuf)
    {
      state, iss, sndUna, sndNxt, sndWnd := Closed, isn, 0, 0, 0;
      rcvNxt, rcvWnd, irs, sndMss, rcvMss := 0, BUFSZ, 0, MSS_DEFAULT, MSS_DEFAULT;
      rxBuf := new byte[BUFSZ](_ => 0);
      txBuf := new byte[BUFSZ](_ => 0);
      rxHead, rxTail, txHead, txTail := 0, 0, 0, 0;
      rexmit, finSent, finReceived, delackPending, soError, active, out := Nothing, false, false, false, 0, true, [];
      rxq, txq := [], [];
      new;
      assert Ring(rxBuf[..], 0, 0) == [] && Ring(txBuf[..], 0, 0) == [];
    }

    /** tcp_rx_available */
    method RxAvailable() returns (n: u32)
      requires Valid()
      ensures n == |View().rxq|
    {
      AvailableIs(rxHead, rxTail);
      n := Wrap(rxHead - rxTail) % 65536;
    }

    /** The copy loop of tcp_deliver_data, which stops when the ring is full. */
    method CopyIn(data: seq<byte>)
      requires Valid()
      modifies `rxHead, `rxq, rxBuf
      ensures Valid()
      ensures var q := old(View()).rxq;
              View() == old(View()).(rxq := q + data[..Min(|data|, CAPACITY - |q|)])
    {
      ghost var q := rxq;
      var i := 0;
      while i < |data|
        invariant Valid() && i <= |data|
        invariant rxq == q + data[..i]
      {
        PushIs(rxBuf[..], rxHead, rxTail, data[i]);
        var nextHead := (rxHead + 1) % 65536;
        if nextHead == rxTail { break; }
        ghost var buf := rxBuf[..];
        rxBuf[rxHead] := data[i];
        assert rxBuf[..] == buf[rxHead := data[i]];
        rxHead := nextHead;
        rxq := rxq + [data[i]];
        i := i + 1;
        assert q + data[..i] == q + data[..i - 1] + [data[i - 1]];
      }
      assert i == Min(|data|, CAPACITY - |q|);
    }

    /** tcp_deliver_data */
    method DeliverData(data: seq<byte>)
      requires Valid()
      modifies this, rxBuf
      ensures Valid() && View() == Deliver(old(View()), data) && out == old(out)
    {
      hide RingsOk, Ring, RingOk;
      CopyIn(data);
      rcvNxt := Wrap(rcvNxt + |data|);
      var n := RxAvailable();
      rcvWnd := 65536 - 1 - n;
    }

    /** tcp_send_segment */
    method Emit(flags: Flags, data: seq<byte>)
      requires Valid()
      modifies `sndNxt, `rexmit, `out
      ensures Valid() && View() == SendSegment(old(View()), flags, data)
      ensures out == old(out) + [MakeWire(old(View()), flags, data)]
    {
      hide RingsOk, Ring, RingOk;
      var seqno := sndNxt;
      out := out + [Wire(sndNxt, rcvNxt, flags, if rcvWnd < 65535 then rcvWnd else 65535,
                         if flags.syn then PeerAccepts(rcvMss) else NoMss, data)];
      var consumed := |data|;
      if flags.syn { consumed := consumed + 1; }
      if flags.fin { consumed := consumed + 1; }
      sndNxt := Wrap(sndNxt + consumed);
      if consumed > 0 {
        rexmit := Append(rexmit, Rexmit(seqno, Wrap(seqno + consumed), data, flags));
      }
    }

    /** tcp_send_ack */
    method EmitAck()
      requires Valid()
      modifies `out, `delackPending
      ensures Valid() && View() == SendAck(old(View()))
      ensures out == old(out) + [MakeWire(old(View()), ACK, [])]
    {
      hide RingsOk, Ring, RingOk;
      out := out + [Wire(sndNxt, rcvNxt, ACK, if rcvWnd < 65535 then rcvWnd else 65535, NoMss, [])];
      delackPending := false;
    }

    /** How much the loop of tcp_output sends next; 0 when the window is closed. */
    method ChunkSize() returns (chunk: nat)
      requires Valid() && txTail != txHead && MaySend(state)
      ensures chunk > 0 <==> CanTransmit(View())
      ensures chunk > 0 ==> chunk == Chunk(View()) <= sndMss
    {
      hide Ring, Wrap;
      PendingIs(txBuf[..], txHead, txTail);
      var pending := if txHead >= txTail then txHead - txTail else 65536 - txTail + txHead;
      var inFlight := Wrap(sndNxt - sndUna);
      var usable := if sndWnd > inFlight then sndWnd - inFlight else 0;
      if usable == 0 { return 0; }
      chunk := pending;
      if chunk > sndMss { chunk := sndMss; }
      if chunk > usable { chunk := usable; }
    }

    /** Copies a chunk out of the send ring into a segment buffer on the stack; false where the code
        would store past the buffer's end. */
    method CopyOut(chunk: nat) returns (fits: bool, data: seq<byte>)
      requires Valid() && chunk <= |View().txq|
      ensures fits <==> chunk <= MSS_DEFAULT
      ensures fits ==> data == View().txq[..chunk]
    {
      ghost var q := txq;
      var segData := new byte[MSS_DEFAULT](_ => 0);
      fits := true;
      for i := 0 to chunk
        invariant i <= MSS_DEFAULT && segData[..i] == q[..i]
      {
        if i == MSS_DEFAULT { return false, []; }
        segData[i] := txBuf[(txTail + i) % 65536];
        assert segData[..i + 1] == segData[..i] + [q[i]];
        assert q[..i + 1] == q[..i] + [q[i]];
      }
      data := segData[..chunk];
    }

    /** The rest of the loop body: send the chunk and advance the ring. */
    method EmitChunk(chunk: nat) returns (fits: bool)
      requires Valid() && CanTransmit(View()) && chunk == Chunk(View())
      modifies `sndNxt, `rexmit, `out, `txTail, `txq
      ensures Valid() && (fits <==> chunk <= MSS_DEFAULT)
      ensures fits ==> View() == Transmit(old(View())) && out == old(out) + [TransmitWire(old(View()))]
      ensures !fits ==> View() == old(View()) && out == old(out)
    {
      hide Wrap, Usable, Append, RingsOk, Ring, RingOk;
      var segData;
      fits, segData := CopyOut(chunk);
      if !fits { return; }
      Emit(PSHACK, segData);
      AdvanceTail(chunk);
    }

    method AdvanceTail(chunk: nat)
      requires Valid() && chunk <= |View().txq|
      modifies `txTail, `txq
      ensures Valid() && View() == old(View()).(txq := old(View()).txq[chunk..])
    {
      PopIs(txBuf[..], txHead, txTail, chunk);
      txTail := (txTail + chunk) % 65536;
      txq := txq[chunk..];
    }

    lemma DrainedRing()
      requires Valid() && txTail == txHead
      ensures txq == []
    {
      PendingIs(txBuf[..], txHead, txTail);
    }

    /** One round of the loop: what is sent now and what remains to send add up. */
    method SendChunk() returns (fits: bool, chunk: nat)
      requires Valid() && txTail != txHead && MaySend(state)
      modifies `sndNxt, `rexmit, `out, `txTail, `txq
      ensures Valid() && (!fits ==> chunk > 0 && !OutputFits(old(View())))
      ensures fits && chunk > 0 ==> (OutputFits(old(View())) <==> OutputFits(View()))
      ensures chunk == 0 ==> !CanTransmit(View()) && View() == old(View()) && out == old(out)
      ensures fits && chunk > 0 ==>
                && Output(View()).0 == Output(old(View())).0
                && out + Output(View()).1 == old(out) + Output(old(View())).1
                && |View().txq| + chunk == |old(View()).txq|
    {
      hide Wrap, Usable, Chunk, Transmit, TransmitWire, Output, Ring, RingOk, RingsOk;
      ghost var c, prev := View(), out;
      fits := true;
      chunk := ChunkSize();
      if chunk == 0 { return; }
      fits := EmitChunk(chunk);
      if !fits { return; }
      OutputUnrolls(c);
      assert prev + Output(c).1 == out + Output(View()).1;
    }

    /** tcp_output; false where a chunk overruns the segment buffer, after which nothing is known. */
    method Flush() returns (fits: bool, sent: nat)
      requires Valid()
      modifies `sndNxt, `rexmit, `out, `txTail, `txq
      ensures Valid() && (fits <==> OutputFits(old(View())))
      ensures fits ==> View() == Output(old(View())).0 && out == old(out) + Output(old(View())).1
      ensures fits ==> sent == |old(View()).txq| - |View().txq|
    {
      hide Wrap, Usable, Chunk, Output, Ring, RingOk, RingsOk;
      fits, sent := true, 0;
      if state != Established && state != CloseWait { OutputStops(View()); return; }
      ghost var final := Output(View());
      while txTail != txHead
        invariant Valid() && MaySend(state)
        invariant Output(View()).0 == final.0 && out + Output(View()).1 == old(out) + final.1
        invariant sent == |old(View()).txq| - |View().txq|
        invariant OutputFits(View()) <==> OutputFits(old(View()))
        decreases |View().txq|
      {
        var chunk;
        fits, chunk := SendChunk();
        if !fits { return; }
        if chunk == 0 { break; }
        sent := sent + chunk;
      }
      if txTail == txHead { DrainedRing(); }
      OutputStops(View());
    }

    /** tcp_rexmit_ack */
    method DropAcked(ack: u32)
      requires Valid()
      modifies `rexmit
      ensures Valid() && View() == old(View()).(rexmit := RexmitAck(old(rexmit), ack))
    {
      hide RingsOk, Ring, RingOk, SeqDiff;
      while rexmit != Nothing
        invariant RexmitAck(rexmit, ack) == RexmitAck(old(rexmit), ack)
        decreases rexmit
      {
        if !SeqLe(rexmit.head.end, ack) { break; }
        rexmit := rexmit.tail;
      }
    }

    // -------------------------------------------------------------- tcp_rx

    /** What both ends take from the peer's SYN: its sequence number, window and MSS option. */
    method TakeSyn(w: Wire)
      requires Valid()
      modifies `irs, `rcvNxt, `sndWnd, `sndMss
      ensures Valid() && View() == old(View()).(irs := w.seqno, rcvNxt := Wrap(w.seqno + 1), sndWnd := w.window,
                                                sndMss := PeerMss(old(sndMss), w.option))
    {
      hide RingsOk, Ring, RingOk, Wrap;
      irs, rcvNxt, sndWnd := w.seqno, Wrap(w.seqno + 1), w.window;
      if w.option.PeerAccepts? {
        sndMss := if w.option.mss < 536 then 536 else w.option.mss;
      }
    }

    /** tcp_handle_syn, on the new control block. */
    method AcceptSyn(w: Wire)
      requires Valid()
      modifies `irs, `rcvNxt, `sndNxt, `sndUna, `sndWnd, `sndMss, `state, `rexmit, `out
      ensures Valid() && View() == HandleSyn(old(View()), w).0 && out == old(out) + HandleSyn(old(View()), w).1
    {
      hide RingsOk, Ring, RingOk, Wrap, SendSegment, MakeWire, PeerMss;
      ghost var c := View();
      sndNxt, sndUna, state := iss, iss, SynReceived;
      TakeSyn(w);
      assert View() == c.(irs := w.seqno, rcvNxt := Wrap(w.seqno + 1), sndNxt := c.iss, sndUna := c.iss,
                       sndWnd := w.window, sndMss := PeerMss(c.sndMss, w.option), state := SynReceived);
      Emit(SYNACK, []);
    }

    method ReceiveSynSent(w: Wire)
      requires Valid() && !w.flags.rst && state == SynSent
      modifies this
      ensures Valid() && View() == RxSynSent(old(View()), w).0 && out == old(out) + RxSynSent(old(View()), w).1
    {
      hide RingsOk, Ring, RingOk, Wrap, RexmitAck, SendAck, MakeWire, PeerMss;
      if w.flags.syn && w.flags.ack {
        if w.ackno != sndNxt {
          out := out + [Wire(w.ackno, 0, RSTACK, 0, NoMss, [])];
          return;
        }
        ghost var c := View();
        sndUna := w.ackno;
        TakeSyn(w);
        DropAcked(w.ackno);
        state := Established;
        assert View() == c.(irs := w.seqno, rcvNxt := Wrap(w.seqno + 1), sndUna := w.ackno, sndWnd := w.window,
                         sndMss := PeerMss(c.sndMss, w.option), rexmit := RexmitAck(c.rexmit, w.ackno), state := Established);
        EmitAck();
      }
    }

    method ReceiveSynReceived(w: Wire, acceptFull: bool)
      requires Valid() && !w.flags.rst && state == SynReceived
      modifies this
      ensures Valid() && View() == RxSynReceived(old(View()), w, acceptFull) && out == old(out)
    {
      hide RingsOk, Ring, RingOk, RexmitAck;
      if w.flags.ack {
        if w.ackno == sndNxt {
          sndUna := w.ackno;
          DropAcked(w.ackno);
          state := Established;
          if acceptFull { Release(); }
        }
      }
    }

    /** tcp_tcb_free */
    method Release()
      requires Valid()
      modifies `state, `active, `rexmit
      ensures Valid() && View() == Free(old(View()))
    {
      hide RingsOk;
      rexmit := Nothing;
      state, active := Closed, false;
    }

    /** The acknowledgement test and what an acceptable acknowledgement changes. */
    method TakeAck(w: Wire)
      requires Valid()
      modifies `sndUna, `rexmit, `sndWnd
      ensures Valid() && View() == if AckAcceptable(old(View()), w)
                                   then old(View()).(sndUna := w.ackno, rexmit := RexmitAck(old(rexmit), w.ackno), sndWnd := w.window)
                                   else old(View())
    {
      hide RingsOk, Ring, RingOk, RexmitAck, SeqDiff;
      if w.flags.ack {
        if SeqGt(w.ackno, sndUna) && SeqLe(w.ackno, sndNxt) {
          sndUna := w.ackno;
          DropAcked(w.ackno);
          sndWnd := w.window;
        }
      }
    }

    method ReceiveAck(w: Wire)
      requires Valid()
      modifies `sndUna, `rexmit, `sndWnd, `state
      ensures Valid() && View() == RxAck(old(View()), w)
    {
      hide RingsOk, Ring, RingOk, RexmitAck, AckAcceptable;
      TakeAck(w);
      if state == FinWait1 && sndUna == sndNxt {
        state := FinWait2;
      }
    }

    /** The peer's FIN takes a sequence number and is acknowledged at once. */
    method TakeFin()
      requires Valid()
      modifies `rcvNxt, `finReceived, `out, `delackPending
      ensures Valid() && View() == SendAck(RxFin(old(View())))
      ensures out == old(out) + [MakeWire(RxFin(old(View())), ACK, [])]
    {
      hide RingsOk, Ring, RingOk, Wrap;
      rcvNxt := Wrap(rcvNxt + 1);
      finReceived := true;
      EmitAck();
    }

    /** FIN processing. */
    method ReceiveFin()
      requires Valid()
      modifies `rcvNxt, `finReceived, `out, `delackPending, `state
      ensures Valid() && View() == SendAck(RxFin(old(View()))).(state := FinState(old(state)))
      ensures out == old(out) + [MakeWire(RxFin(old(View())), ACK, [])]
    {
      hide RingsOk, Ring, RingOk, Wrap, RxFin, SendAck, MakeWire;
      TakeFin();
      match state
      case Established => state := CloseWait;
      case FinWait1 => state := Closing;
      case FinWait2 => state := TimeWait;
      case _ =>
    }

    /** Sequence test, data delivery and FIN. */
    method ReceivePayload(w: Wire)
      requires Valid()
      modifies this, rxBuf
      ensures Valid() && View() == RxPayload(old(View()), w).0 && out == old(out) + RxPayload(old(View()), w).1
    {
      hide RingsOk, Ring, RingOk, Deliver, Wrap, SeqDiff, SendAck, MakeWire, FinState;
      if |w.data| > 0 || w.flags.fin {
        if SeqLt(w.seqno, rcvNxt) {
          assert w.seqno != rcvNxt by { SeqLtIrreflexive(rcvNxt); }
          EmitAck();
          return;
        }
        if w.seqno != rcvNxt {
          EmitAck();
          return;
        }
      }
      if |w.data| > 0 {
        DeliverData(w.data);
        delackPending := true;
      }
      if w.flags.fin { ReceiveFin(); }
    }

    /** tcp_rx, once the control block has been found. */
    method Receive(w: Wire, acceptFull: bool)
      requires Valid()
      modifies this, rxBuf
      ensures Valid() && View() == Rx(old(View()), w, acceptFull).0
      ensures out == old(out) + Rx(old(View()), w, acceptFull).1
    {
      hide RingsOk, Ring, RingOk, RxSynSent, RxSynReceived, RxAck, RxPayload, SendAck, MakeWire;
      if w.flags.rst {
        soError, state := -ECONNRESET, Closed;
      } else if state == SynSent {
        ReceiveSynSent(w);
      } else if state == SynReceived {
        ReceiveSynReceived(w, acceptFull);
      } else if Synchronised(state) {
        ReceiveAck(w);
        ReceivePayload(w);
      } else {
        ReceiveClosing(w);
      }
    }

    /** CLOSING, LAST_ACK and TIME_WAIT. */
    method ReceiveClosing(w: Wire)
      requires Valid() && !w.flags.rst && !Synchronised(state) && state != SynSent && state != SynReceived
      modifies `state, `active, `rexmit, `out, `delackPending
      ensures Valid() && View() == Rx(old(View()), w, false).0 && out == old(out) + Rx(old(View()), w, false).1
    {
      hide RingsOk, Ring, RingOk, RxSynSent, RxSynReceived, RxAck, RxPayload, SendAck, MakeWire;
      if state == Closing {
        if w.flags.ack && sndUna == sndNxt { state := TimeWait; }
      } else if state == LastAck {
        if w.flags.ack && sndUna == sndNxt { Release(); }
      } else if state == TimeWait {
        EmitAck();
      }
    }

    // -------------------------------------------------------------- socket calls and timers

    /** tcp_sock_connect */
    method Open()
      requires Valid()
      modifies this
      ensures Valid() && View() == Connect(old(View())).0 && out == old(out) + Connect(old(View())).1
    {
      hide RingsOk, Ring, RingOk;
      sndNxt, sndUna, state := iss, iss, SynSent;
      Emit(SYN, []);
    }

    /** One byte of the copy loop of tcp_sock_sendto, with room in the ring. */
    method Store(b: byte)
      requires Valid() && |View().txq| < CAPACITY
      modifies `txHead, `txq, txBuf
      ensures Valid() && View() == old(View()).(txq := old(View()).txq + [b])
    {
      PushIs(txBuf[..], txHead, txTail, b);
      var next := (txHead + 1) % 65536;
      ghost var buf := txBuf[..];
      txBuf[txHead] := b;
      assert txBuf[..] == buf[txHead := b];
      txHead := next;
      txq := txq + [b];
    }

    method TxFull() returns (full: bool)
      requires Valid()
      ensures full <==> |View().txq| == CAPACITY
    {
      PushIs(txBuf[..], txHead, txTail, 0);
      full := (txHead + 1) % 65536 == txTail;
    }

    /** tcp_sock_sendto on a non-blocking socket. */
    method Send(data: seq<byte>) returns (fits: bool, n: int)
      requires Valid()
      modifies this, txBuf
      ensures Valid() && (fits <==> SendFits(old(View()), data))
      ensures fits ==> View() == SendTo(old(View()), data).0
      ensures fits ==> out == old(out) + SendTo(old(View()), data).1 && n == SendTo(old(View()), data).2
    {
      hide RingsOk, Ring, RingOk, Output, Push, OutputFits, PushFits;
      if state != Established && state != CloseWait { return true, -1; }
      var written, sent;
      n := -1;
      fits, written := Fill(data);
      if !fits { return; }
      fits, sent := Flush();
      n := written;
    }

    /** The copy loop of tcp_sock_sendto. */
    method Fill(data: seq<byte>) returns (fits: bool, written: nat)
      requires Valid()
      modifies this, txBuf
      ensures Valid() && (fits <==> PushFits(old(View()), data, 0))
      ensures fits ==> View() == Push(old(View()), data, 0).0
      ensures fits ==> out == old(out) + Push(old(View()), data, 0).1 && written == Push(old(View()), data, 0).2
    {
      hide RingsOk, Ring, RingOk, Output, Push, OutputFits, PushFits;
      ghost var final := Push(View(), data, 0);
      fits, written := true, 0;
      while written < |data|
        invariant Valid() && written <= |data|
        invariant PushFits(View(), data, written) <==> PushFits(old(View()), data, 0)
        invariant Push(View(), data, written).0 == final.0 && Push(View(), data, written).2 == final.2
        invariant out + Push(View(), data, written).1 == old(out) + final.1
      {
        ghost var c := View();
        PushUnrolls(c, data, written);
        FitsUnrolls(c, data, written);
        var full := TxFull();
        if full {
          var sent;
          fits, sent := Flush();
          if !fits { return; }
          full := TxFull();
          if full {
            return;
          }
        }
        Store(data[written]);
        written := written + 1;
      }
      PushStops(View(), data, written);
    }

    /** tcp_sock_recvfrom on a non-blocking socket. */
    method Recv(len: nat) returns (r: Received)
      requires Valid()
      modifies `rxTail, `rxq, `rcvWnd
      ensures Valid() && (View(), r) == RecvFrom(old(View()), len)
    {
      hide RingsOk, Ring, RingOk;
      var avail := RxAvailable();
      if avail == 0 {
        return if finReceived || state == CloseWait || state == Closed then Bytes([]) else Again;
      }
      if !active { return Gone; }
      var toCopy := if len < avail then len else avail;
      var dst := Drain(toCopy);
      var n := RxAvailable();
      rcvWnd := 65536 - 1 - n;
      r := Bytes(dst);
    }

    /** The copy loop of tcp_sock_recvfrom. */
    method Drain(n: nat) returns (dst: seq<byte>)
      requires Valid() && n <= |View().rxq|
      modifies `rxTail, `rxq
      ensures Valid() && dst == old(View()).rxq[..n]
      ensures View() == old(View()).(rxq := old(View()).rxq[n..])
    {
      ghost var q := rxq;
      dst := [];
      for i := 0 to n
        invariant Valid() && dst == q[..i] && rxq == q[i..]
      {
        assert rxBuf[rxTail] == q[i..][0];
        PopIs(rxBuf[..], rxHead, rxTail, 1);
        dst := dst + [rxBuf[rxTail]];
        rxTail := (rxTail + 1) % 65536;
        rxq := rxq[1..];
        assert q[i..][1..] == q[i + 1..];
      }
    }

    /** tcp_sock_shutdown with SHUT_WR or SHUT_RDWR. */
    method CloseWrite()
      requires Valid()
      modifies this
      ensures Valid() && View() == Shutdown(old(View())).0 && out == old(out) + Shutdown(old(View())).1
    {
      hide RingsOk, Ring, RingOk, Wrap;
      if !finSent && (state == Established || state == CloseWait) {
        finSent := true;
        Emit(FINACK, []);
        state := if state == Established then FinWait1 else LastAck;
      }
    }

    /** tcp_rexmit_timeout */
    method OnRexmitTimer()
      requires Valid()
      modifies `soError, `state
      ensures Valid() && View() == RexmitTimeout(old(View()))
    {
      hide RingsOk;
      if state == Closed || !active { return; }
      if rexmit == Nothing { return; }
      soError, state := -ETIMEDOUT, Closed;
    }

    /** tcp_delack_timeout */
    method OnDelackTimer()
      requires Valid()
      modifies `out, `delackPending
      ensures Valid() && View() == DelackTimeout(old(View())).0 && out == old(out) + DelackTimeout(old(View())).1
    {
      hide RingsOk, Ring, RingOk;
      if delackPending && state != Closed { EmitAck(); }
    }
  }

  lemma SeqLtIrreflexive(a: u32)
    ensures !SeqLt(a, a)
  {
  }

  lemma PushStops(c: Conn, data: seq<byte>, n: nat)
    requires n == |data| && |c.txq| <= CAPACITY
    ensures Push(c, data, n) == (c, [], n) && PushFits(c, data, n)
  {
  }

  lemma FitsUnrolls(c: Conn, data: seq<byte>, n: nat)
    requires n < |data| && |c.txq| <= CAPACITY
    ensures |c.txq| < CAPACITY ==> (PushFits(c, data, n) <==> PushFits(c.(txq := c.txq + [data[n]]), data, n + 1))
    ensures |c.txq| == CAPACITY ==>
              var c1 := Output(c).0;
              PushFits(c, data, n) <==> OutputFits(c) && (|c1.txq| < CAPACITY ==> PushFits(c1.(txq := c1.txq + [data[n]]), data, n + 1))
  {
    hide Output, OutputFits;
  }

  lemma PushUnrolls(c: Conn, data: seq<byte>, n: nat)
    requires n < |data| && |c.txq| <= CAPACITY
    ensures |c.txq| < CAPACITY ==> Push(c, data, n) == Push(c.(txq := c.txq + [data[n]]), data, n + 1)
    ensures |c.txq| == CAPACITY ==>
              var (c1, ws) := Output(c);
              if |c1.txq| == CAPACITY then Push(c, data, n) == (c1, ws, n)
              else
                var r := Push(c1.(txq := c1.txq + [data[n]]), data, n + 1);
                Push(c, data, n) == (r.0, ws + r.1, r.2)
  {
  }

  lemma OutputStops(c: Conn)
    requires !CanTransmit(c)
    ensures Output(c) == (c, [])
  {
  }

  lemma OutputUnrolls(c: Conn)
    requires CanTransmit(c)
    ensures Output(c).0 == Output(Transmit(c)).0
    ensures Output(c).1 == [TransmitWire(c)] + Output(Transmit(c)).1
    ensures |Transmit(c).txq| == |c.txq| - Chunk(c)
  {
  }

  lemma PendingIs(buf: seq<byte>, head: int, tail: int)
    requires RingOk(buf, head, tail)
    ensures |Ring(buf, head, tail)| == if head >= tail then head - tail else 65536 - tail + head
  {
  }
}
