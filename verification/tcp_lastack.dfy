/** A connection that never finishes closing: a run in which both ends shut down, everything that was
    sent arrives, and the end that closed second is still in LAST_ACK with the acknowledgement of its
    FIN delivered. */
module TcpLastAck {
  import opened SeqSpace
  import opened TcpConn
  import opened TcpSystem

  // ---------------------------------------------------------------- the segments

  function Bare(seqno: u32, ackno: u32, flags: Flags): Wire { Wire(seqno, ackno, flags, 65535, NoMss, []) }

  function Opening(ackno: u32, flags: Flags): Packet { Packet(Wire(0, ackno, flags, 65535, PeerAccepts(1460), []), 0, 1) }

  const SYN_A := Opening(0, SYN)
  const SYNACK_B := Opening(1, SYNACK)
  const ACK_A := Packet(Bare(1, 1, ACK), 1, 1)
  const FIN_A := Packet(Bare(1, 1, FINACK), 1, 1)
  const ACK_B := Packet(Bare(1, 2, ACK), 1, 2)
  const FIN_B := Packet(Bare(1, 2, FINACK), 1, 2)
  /** The acknowledgement of the second FIN. */
  const LAST_ACK := Packet(Bare(2, 2, ACK), 2, 2)

  // ---------------------------------------------------------------- the two ends

  const FIN_QUEUED := Entry(Rexmit(1, 2, [], FINACK), Nothing)

  const SYN_SENT := Fresh(0).(state := SynSent, sndNxt := 1, rexmit := Entry(Rexmit(0, 1, [], SYN), Nothing))
  const SYN_RECEIVED := Fresh(0).(state := SynReceived, rcvNxt := 1, sndNxt := 1, sndWnd := 65535,
                                  rexmit := Entry(Rexmit(0, 1, [], SYNACK), Nothing))
  const OPEN := Fresh(0).(state := Established, rcvNxt := 1, sndUna := 1, sndNxt := 1, sndWnd := 65535)
  const HALF_CLOSED := OPEN.(state := FinWait1, finSent := true, sndNxt := 2, rexmit := FIN_QUEUED)
  const ACKED := OPEN.(state := FinWait2, finSent := true, sndUna := 2, sndNxt := 2)
  const DONE := ACKED.(state := TimeWait, rcvNxt := 2, finReceived := true)
  const PEER_CLOSED := OPEN.(state := CloseWait, rcvNxt := 2, finReceived := true)
  const CLOSING_LAST := PEER_CLOSED.(state := LastAck, finSent := true, sndNxt := 2, rexmit := FIN_QUEUED)

  function End(c: Conn, una: nat): Peer { Peer(c, una, [], []) }

  lemma Opens()
    ensures Handle(End(Fresh(0).(state := Listen), 0), Arrive(SYN_A, false)) == (End(SYN_RECEIVED, 0), [SYNACK_B.w])
    ensures Handle(End(SYN_SENT, 0), Arrive(SYNACK_B, false)) == (End(OPEN, 1), [ACK_A.w])
    ensures Handle(End(SYN_RECEIVED, 0), Arrive(ACK_A, false)) == (End(OPEN, 1), [])
  {
  }

  lemma Closes()
    ensures Handle(End(OPEN, 1), ShutdownCall) == (End(HALF_CLOSED, 1), [FIN_A.w])
    ensures Handle(End(OPEN, 1), Arrive(FIN_A, false)) == (End(PEER_CLOSED, 1), [ACK_B.w])
    ensures Handle(End(PEER_CLOSED, 1), ShutdownCall) == (End(CLOSING_LAST, 1), [FIN_B.w])
  {
  }

  lemma FinAcked()
    ensures Handle(End(HALF_CLOSED, 1), Arrive(ACK_B, false)) == (End(ACKED, 2), [])
  {
  }

  lemma PeerFinTaken()
    ensures Handle(End(ACKED, 2), Arrive(FIN_B, false)) == (End(DONE, 2), [LAST_ACK.w])
  {
  }

  /** The acknowledgement of the FIN changes nothing in LAST_ACK. */
  lemma LastAckIgnored()
    ensures Handle(End(CLOSING_LAST, 1), Arrive(LAST_ACK, false)) == (End(CLOSING_LAST, 1), [])
  {
    hide Rx, HandleSyn, NoConnection;
    LastAckStays(CLOSING_LAST, LAST_ACK.w);
    assert Wrap(0) == 0;
  }

  lemma LastAckStays(c: Conn, w: Wire)
    requires c.state == LastAck && !w.flags.rst && c.sndUna != c.sndNxt && |c.rxq| <= CAPACITY
    ensures Rx(c, w, false) == (c, [])
  {
    hide RxSynSent, RxSynReceived, RxSynchronised, Free;
  }

  // ---------------------------------------------------------------- the run

  const S0 := Sys(End(SYN_SENT, 0), End(Fresh(0).(state := Listen), 0), {SYN_A}, {})
  const S1 := S0.(b := End(SYN_RECEIVED, 0), ba := {SYNACK_B})
  const S2 := S1.(a := End(OPEN, 1), ab := {SYN_A, ACK_A})
  const S3 := S2.(b := End(OPEN, 1))
  const S4 := S3.(a := End(HALF_CLOSED, 1), ab := {SYN_A, ACK_A, FIN_A})
  const S5 := S4.(b := End(PEER_CLOSED, 1), ba := {SYNACK_B, ACK_B})
  const S6 := S5.(b := End(CLOSING_LAST, 1), ba := {SYNACK_B, ACK_B, FIN_B})
  const S7 := S6.(a := End(ACKED, 2))
  const S8 := S7.(a := End(DONE, 2), ab := {SYN_A, ACK_A, FIN_A, LAST_ACK})

  lemma Wraps()
    ensures Wrap(0) == 0 && Wrap(1) == 1
  {
  }

  lemma AppendFirst(e: Rexmit)
    ensures Append(Nothing, e) == Entry(e, Nothing)
  {
  }

  lemma Connects()
    ensures Connect(Fresh(0)) == (SYN_SENT, [SYN_A.w])
  {
    hide Wrap, Append;
    Wraps();
    AppendFirst(Rexmit(0, 1, [], SYN));
    var c := Fresh(0).(state := SynSent);
    assert SendSegment(c, SYN, []) == SYN_SENT;
    assert MakeWire(c, SYN, []) == SYN_A.w;
  }

  lemma FirstLabel()
    ensures Label(End(SYN_SENT, 0), SYN_A.w) == SYN_A
  {
    hide Wrap;
    Wraps();
  }

  lemma Starts()
    ensures Init(S0)
  {
    hide Connect, Label, Labels;
    Connects();
    FirstLabel();
    LabelsAre(End(SYN_SENT, 0), SYN_A);
    var (c, ws) := Connect(Fresh(0));
    assert S0 == Sys(Peer(c, 0, [], []), Peer(Fresh(0).(state := Listen), 0, [], []), Labels(Peer(c, 0, [], []), ws), {});
  }

  lemma LabelsAre(p: Peer, k: Packet)
    requires Label(p, k.w) == k
    ensures Labels(p, [k.w]) == {k} && Labels(p, []) == {}
  {
    assert k.w in [k.w];
  }

  /** A step of endpoint a that sends one segment. */
  lemma StepSends(s: Sys, e: Event, p: Peer, k: Packet)
    requires Sane(s.a) && Sane(s.b) && Enabled(s.a, s.ba, e) && Handle(s.a, e) == (p, [k.w]) && Label(p, k.w) == k
    ensures StepA(s, e) == s.(a := p, ab := s.ab + {k}) && Next(s, s.(a := p, ab := s.ab + {k}))
    ensures Next(Swap(s), Swap(s.(a := p, ab := s.ab + {k})))
  {
    hide Handle, Enabled, Label, Labels;
    LabelsAre(p, k);
    assert Swap(Swap(s)) == s;
  }

  lemma StepQuiet(s: Sys, e: Event, p: Peer)
    requires Sane(s.a) && Sane(s.b) && Enabled(s.a, s.ba, e) && Handle(s.a, e) == (p, [])
    ensures StepA(s, e) == s.(a := p) && Next(s, s.(a := p)) && Next(Swap(s), Swap(s.(a := p)))
  {
    hide Handle, Enabled;
    assert Labels(p, []) == {};
    assert s.ab + {} == s.ab;
    assert Swap(Swap(s)) == s;
  }

  lemma Handshake()
    ensures Next(S0, S1) && Next(S1, S2) && Next(S2, S3)
  {
    hide Handle, Next;
    Opens();
    StepSends(Swap(S0), Arrive(SYN_A, false), End(SYN_RECEIVED, 0), SYNACK_B);
    assert Swap(Swap(S0).(a := End(SYN_RECEIVED, 0), ab := {} + {SYNACK_B})) == S1;
    StepSends(S1, Arrive(SYNACK_B, false), End(OPEN, 1), ACK_A);
    assert S1.(a := End(OPEN, 1), ab := {SYN_A} + {ACK_A}) == S2;
    StepQuiet(Swap(S2), Arrive(ACK_A, false), End(OPEN, 1));
    assert Swap(Swap(S2).(a := End(OPEN, 1))) == S3;
  }

  lemma BothShutDown()
    ensures Next(S3, S4) && Next(S4, S5) && Next(S5, S6)
  {
    hide Handle, Next;
    Closes();
    StepSends(S3, ShutdownCall, End(HALF_CLOSED, 1), FIN_A);
    assert S3.(a := End(HALF_CLOSED, 1), ab := {SYN_A, ACK_A} + {FIN_A}) == S4;
    StepSends(Swap(S4), Arrive(FIN_A, false), End(PEER_CLOSED, 1), ACK_B);
    assert Swap(Swap(S4).(a := End(PEER_CLOSED, 1), ab := {SYNACK_B} + {ACK_B})) == S5;
    StepSends(Swap(S5), ShutdownCall, End(CLOSING_LAST, 1), FIN_B);
    assert Swap(Swap(S5).(a := End(CLOSING_LAST, 1), ab := {SYNACK_B, ACK_B} + {FIN_B})) == S6;
  }

  lemma LastExchange()
    ensures Next(S6, S7) && Next(S7, S8)
  {
    hide Handle, Next;
    FinAcked();
    PeerFinTaken();
    StepQuiet(S6, Arrive(ACK_B, false), End(ACKED, 2));
    StepSends(S7, Arrive(FIN_B, false), End(DONE, 2), LAST_ACK);
    assert S7.(a := End(DONE, 2), ab := {SYN_A, ACK_A, FIN_A} + {LAST_ACK}) == S8;
  }

  /** The run: at its end the FIN's acknowledgement is in the network and may be delivered, and delivering
      it leaves the connection in LAST_ACK. */
  lemma LastAckReached() returns (r: seq<Sys>)
    ensures TcpSystem.Run(r) && r[|r| - 1] == S8 && S8.b.c.state == LastAck && Sane(S8.b)
    ensures Enabled(S8.b, S8.ab, Arrive(LAST_ACK, false)) && LAST_ACK.w.flags.ack && LAST_ACK.w.ackno == S8.b.c.sndNxt
    ensures Handle(S8.b, Arrive(LAST_ACK, false)).0 == S8.b
  {
    hide Handle, Next, Init;
    r := [S0, S1, S2, S3, S4, S5, S6, S7, S8];
    Starts();
    Handshake();
    BothShutDown();
    LastExchange();
    LastAckIgnored();
  }
}
