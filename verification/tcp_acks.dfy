/** What a receiver does with what arrives, and what it tells its peer: in every run an endpoint has
    acknowledged all it has received or has a delayed acknowledgement pending. */
module TcpAcks {
  import opened SeqSpace
  import opened TcpConn
  import opened TcpSystem
  import opened TcpInvariant
  import opened TcpSteps
  import opened TcpArrivals
  import opened TcpTheorems

  // ---------------------------------------------------------------- nothing stays unacknowledged

  /** One of the segments sent acknowledges everything below position n. */
  predicate Told(xy: set<Packet>, n: nat) {
    exists k :: k in xy && !k.w.flags.rst && k.w.flags.ack && k.ackPos == n
  }

  predicate AckOwed(x: Peer, xy: set<Packet>) {
    Live(x.c.state) ==> x.c.delackPending || Told(xy, Rcv(x))
  }

  lemma ToldMore(xy: set<Packet>, more: set<Packet>, n: nat)
    requires Told(xy, n)
    ensures Told(xy + more, n)
  {
    var k :| k in xy && !k.w.flags.rst && k.w.flags.ack && k.ackPos == n;
    assert k in xy + more;
  }

  lemma TellsNow(x: Peer, xy: set<Packet>, w: Wire)
    requires w.flags.ack && !w.flags.rst
    ensures Told(Labels(x, [w]), Rcv(x)) && Told(xy + Labels(x, [w]), Rcv(x))
  {
    LabelsOne(x, w);
    assert Label(x, w) in xy + Labels(x, [w]);
  }

  /** Either nothing is owed that was not owed before, or the step sent an acknowledgement. */
  predicate Answers(c: Conn, c': Conn, ws: seq<Wire>) {
    || !Live(c'.state)
    || (|ws| == 1 && ws[0].flags.ack && !ws[0].flags.rst)
    || c'.delackPending
    || (Live(c.state) && c'.rxq == c.rxq && c'.finReceived == c.finReceived && c'.delackPending == c.delackPending)
  }

  lemma PayloadAnswers(c: Conn, w: Wire)
    requires |c.rxq| <= CAPACITY && Synchronised(c.state)
    ensures Answers(c, RxPayload(c, w).0, RxPayload(c, w).1)
  {
    hide Wrap, Deliver;
  }

  lemma RxAnswers(c: Conn, w: Wire, full: bool)
    requires |c.rxq| <= CAPACITY && c.state != Listen
    ensures Answers(c, Rx(c, w, full).0, Rx(c, w, full).1)
  {
    hide Wrap, RexmitAck, AckAcceptable, RxPayload;
    if !w.flags.rst && Synchronised(c.state) {
      PayloadAnswers(RxAck(c, w), w);
    }
  }

  lemma AnswersOwe(x: Peer, x': Peer, xy: set<Packet>, ws: seq<Wire>)
    requires AckOwed(x, xy) && x'.read == x.read && Answers(x.c, x'.c, ws)
    ensures AckOwed(x', xy + Labels(x', ws))
  {
    if |ws| == 1 && ws[0].flags.ack && !ws[0].flags.rst {
      assert ws == [ws[0]];
      TellsNow(x', xy, ws[0]);
    } else if Live(x'.c.state) && !x'.c.delackPending {
      ToldMore(xy, Labels(x', ws), Rcv(x));
    }
  }

  /** Reading moves bytes from the queue to the reader: what is owed stays. */
  lemma OweSame(x: Peer, x': Peer, xy: set<Packet>, ws: seq<Wire>)
    requires AckOwed(x, xy) && Rcv(x') == Rcv(x) && x'.c.delackPending == x.c.delackPending
    requires Live(x'.c.state) ==> Live(x.c.state)
    ensures AckOwed(x', xy + Labels(x', ws))
  {
    if Live(x'.c.state) && !x'.c.delackPending {
      ToldMore(xy, Labels(x', ws), Rcv(x));
    }
  }

  lemma ArriveOwes(x: Peer, xy: set<Packet>, w: Wire, full: bool)
    requires Sane(x) && AckOwed(x, xy)
    ensures var (x', ws) := HandleArrival(x, w, full); AckOwed(x', xy + Labels(x', ws))
  {
    hide Wrap, Rx, Labels, SendSegment, NoConnection;
    var (x', ws) := HandleArrival(x, w, full);
    if x.c.state == Listen {
      if w.flags.syn && !w.flags.ack {
        assert Answers(x.c, x'.c, ws);
        AnswersOwe(x, x', xy, ws);
      }
    } else if x.c.active {
      RxAnswers(x.c, w, full);
      AnswersOwe(x, x', xy, ws);
    } else {
      OweSame(x, x', xy, ws);
    }
  }

  lemma HandleOwes(x: Peer, xy: set<Packet>, e: Event)
    requires Sane(x) && AckOwed(x, xy)
    ensures var (x', ws) := Handle(x, e); AckOwed(x', xy + Labels(x', ws))
  {
    hide Wrap, AckOwed, HandleArrival, Labels, SendTo, Append;
    var (x', ws) := Handle(x, e);
    match e
    case Arrive(k, full) => ArriveOwes(x, xy, k.w, full);
    case SendCall(data) =>
      SendOnlySends(x.c, data);
      OweSame(x, x', xy, ws);
    case DelackFires =>
      AnswersOwe(x, x', xy, ws);
    case _ => OweSame(x, x', xy, ws);
  }

  lemma NextOwes(s: Sys, s': Sys)
    requires Next(s, s') && AckOwed(s.a, s.ab) && AckOwed(s.b, s.ba)
    ensures AckOwed(s'.a, s'.ab) && AckOwed(s'.b, s'.ba)
  {
    hide AckOwed, Handle, Labels, Enabled;
    var e :| || (Enabled(s.a, s.ba, e) && s' == StepA(s, e))
             || (Enabled(s.b, s.ab, e) && s' == Swap(StepA(Swap(s), e)));
    if Enabled(s.a, s.ba, e) && s' == StepA(s, e) {
      HandleOwes(s.a, s.ab, e);
    } else {
      HandleOwes(s.b, s.ba, e);
    }
  }

  /** In every run each endpoint that knows its peer has acknowledged exactly what it has received,
      SYN and FIN counted, or has its delayed acknowledgement pending. */
  lemma {:induction false} NothingUnacknowledged(r: seq<Sys>, i: nat)
    requires Run(r) && i < |r|
    ensures AckOwed(r[i].a, r[i].ab) && AckOwed(r[i].b, r[i].ba)
  {
    hide Next, AckOwed;
    if i == 0 {
      StartOwes(r[0]);
    } else {
      NothingUnacknowledged(r, i - 1);
      NextOwes(r[i - 1], r[i]);
    }
  }

  lemma StartOwes(s: Sys)
    requires Init(s)
    ensures AckOwed(s.a, s.ab) && AckOwed(s.b, s.ba)
  {
    hide Labels, Append, Wrap;
  }

  /** When the delayed-acknowledgement timer fires, the peer has been told everything received. */
  lemma DelackTells(r: seq<Sys>, i: nat, swap: bool)
    requires Run(r) && i < |r| && Sane(Seen(r[i], swap).a) && Live(Seen(r[i], swap).a.c.state)
    ensures var s := Seen(r[i], swap);
            var (x', ws) := Handle(s.a, DelackFires);
            && Rcv(x') == Rcv(s.a) && x'.c.state == s.a.c.state && !x'.c.delackPending
            && Told(s.ab + Labels(x', ws), Rcv(s.a))
            && (s.a.c.delackPending ==> Told(Labels(x', ws), Rcv(s.a)))
  {
    hide Run, Labels;
    var s := Seen(r[i], swap);
    NothingUnacknowledged(r, i);
    var (x', ws) := Handle(s.a, DelackFires);
    if s.a.c.delackPending {
      TellsNow(x', s.ab, ws[0]);
    } else {
      ToldMore(s.ab, Labels(x', ws), Rcv(s.a));
    }
  }

  // ---------------------------------------------------------------- what an arriving segment does

  /** k is the segment the receiver waits for. */
  predicate Expected(x: Peer, k: Packet) { k.pos == Rcv(x) }

  predicate AcksNew(x: Peer, k: Packet) { k.w.flags.ack && x.una < k.ackPos }

  /** FIN_WAIT_1 ends when everything sent is acknowledged, our FIN included. */
  function AckedState(x: Peer, una: int): State {
    if x.c.state == FinWait1 && una == Nxt(x) then FinWait2 else x.c.state
  }

  /** Data and FIN of a segment with stream position pos: taken exactly if they come next, and whatever
      does not come next is answered by an acknowledgement of what does. */
  predicate TakesPayload(x: Peer, x': Peer, ws: seq<Wire>, k: Packet) {
    var next := Expected(x, k);
    && x'.c.rxq == (if next then x.c.rxq + k.w.data else x.c.rxq)
    && x'.c.finReceived == (x.c.finReceived || (next && k.w.flags.fin))
    && (next && k.w.data != [] ==> x'.c.delackPending)
    && (k.w.flags.fin || (k.w.data != [] && !next) ==> Told(Labels(x', ws), Rcv(x')))
    && (!k.w.flags.fin && (k.w.data == [] || next) ==> ws == [])
    && x'.sent == x.sent && x'.read == x.read && x'.c.txq == x.c.txq
  }

  predicate PeerFinState(s: State, s': State, fin: bool) {
    && (s == Established ==> s' == if fin then CloseWait else Established)
    && (s == FinWait1 ==> s' == if fin then Closing else FinWait1)
    && (s == FinWait2 ==> s' == if fin then TimeWait else FinWait2)
    && (s == CloseWait ==> s' == CloseWait)
  }

  lemma PayloadTakes(x: Peer, y: Peer, xy: set<Packet>, yx: set<Packet>, k: Packet)
    requires Pair(x, y, xy, yx) && Synchronised(x.c.state) && Arrives(x, y, k) && Sane(x)
    ensures var (c, ws) := RxPayload(x.c, k.w);
            var x' := x.(c := c);
            && TakesPayload(x, x', ws, k) && PeerFinState(x.c.state, c.state, k.w.flags.fin && Expected(x, k))
            && c.sndUna == x.c.sndUna && c.sndWnd == x.c.sndWnd
  {
    hide Pair, Wrap, Arrives, Labels, Told, Deliver;
    var (c, ws) := RxPayload(x.c, k.w);
    var x' := x.(c := c);
    InOrder(x, y, xy, yx, k);
    if (|k.w.data| > 0 || k.w.flags.fin) && k.w.seqno != x.c.rcvNxt {
      TellsNow(x', {}, ws[0]);
    } else if k.w.flags.fin {
      FinAlone(x, y, k);
      TellsNow(x', {}, ws[0]);
      assert x.c.rxq + k.w.data == x.c.rxq;
    } else if |k.w.data| > 0 {
      NothingDropped(x, y, xy, yx, k);
      DataIs(x, k.w);
    } else {
      assert x.c.rxq + k.w.data == x.c.rxq;
    }
  }

  /** The acknowledgement moves snd_una and the window exactly if it covers something new, FIN_WAIT_1
      ends when our FIN is covered, and the payload is taken exactly if it comes next. */
  predicate Takes(x: Peer, x': Peer, ws: seq<Wire>, k: Packet) {
    && x'.una == (if AcksNew(x, k) then k.ackPos else x.una)
    && x'.c.sndWnd == (if AcksNew(x, k) then k.w.window else x.c.sndWnd)
    && PeerFinState(AckedState(x, x'.una), x'.c.state, k.w.flags.fin && Expected(x, k))
    && TakesPayload(x, x', ws, k)
  }

  lemma AckTakes(x: Peer, y: Peer, k: Packet)
    requires Numbers(x) && StateFacts(x) && Synchronised(x.c.state) && Arrives(x, y, k)
    ensures var x1 := AfterAck(x, k.w);
            && x1.una == (if AcksNew(x, k) then k.ackPos else x.una)
            && x1.c.sndWnd == (if AcksNew(x, k) then k.w.window else x.c.sndWnd)
            && x1.c.state == AckedState(x, x1.una) && x1.sent == x.sent && x1.read == x.read
            && x1.c.rxq == x.c.rxq && x1.c.finReceived == x.c.finReceived && x1.c.txq == x.c.txq
            && x1.c.delackPending == x.c.delackPending
  {
    hide Wrap, Arrives, Numbers, StateFacts, AfterAck, RexmitAck;
    AfterAckIs(x, y, k);
  }

  lemma SynchronisedTakes(x: Peer, y: Peer, xy: set<Packet>, yx: set<Packet>, k: Packet)
    requires Pair(x, y, xy, yx) && Synchronised(x.c.state) && k in yx && Arrives(x, y, k) && Sane(x)
    ensures var (c, ws) := RxSynchronised(x.c, k.w);
            Takes(x, x.(c := c, una := x.una + Wrap(c.sndUna - x.c.sndUna)), ws, k)
  {
    hide Pair, Local, Wrap, AfterAck, Arrives, RxAck, RxPayload, Labels, Told;
    hide Synchronised, PeerFinState, Numbers, StateFacts, AckedState;
    PairLocal(x, y, xy, yx);
    PairFacts(x, y, xy, yx);
    AckStepKeeps(x, y, xy, yx, k);
    AfterAckFields(x, k.w);
    ArrivesAfterAck(x, y, k);
    AckTakes(x, y, k);
    assert xy + {} == xy;
    PairSane(AfterAck(x, k.w), y, xy, yx);
    PayloadTakes(AfterAck(x, k.w), y, xy, yx, k);
  }

  /** What a deliverable segment does in a synchronised state, in every run. */
  lemma ArrivalTakes(r: seq<Sys>, i: nat, swap: bool, k: Packet, full: bool)
    requires Run(r) && i < |r| && Sane(Seen(r[i], swap).a)
    requires var s := Seen(r[i], swap);
             k in s.ba && NotStale(s.a, k) && !k.w.flags.rst && Synchronised(s.a.c.state)
    ensures var x := Seen(r[i], swap).a;
            var (x', ws) := Handle(x, Arrive(k, full)); Takes(x, x', ws, k)
  {
    hide Run, Pair, Wrap, Arrives, RxSynchronised, Takes, Numbers;
    var s := Seen(r[i], swap);
    SeenInv(r, i, swap);
    PairFacts(s.a, s.b, s.ab, s.ba);
    Deliverable(s.a, s.b, s.ab, s.ba, k);
    SynchronisedTakes(s.a, s.b, s.ab, s.ba, k);
  }

  /** In TIME_WAIT every segment but a reset is answered by the same acknowledgement again. */
  lemma TimeWaitAnswers(x: Peer, k: Packet, full: bool)
    requires Sane(x) && x.c.state == TimeWait && x.c.active && !k.w.flags.rst
    ensures var (x', ws) := Handle(x, Arrive(k, full));
            && |ws| == 1 && Told(Labels(x', ws), Rcv(x)) && x' == x.(c := x.c.(delackPending := false))
  {
    hide Labels, Told;
    var (x', ws) := Handle(x, Arrive(k, full));
    WrapZero();
    TellsNow(x', {}, ws[0]);
  }

  lemma Deliverable(x: Peer, y: Peer, xy: set<Packet>, yx: set<Packet>, k: Packet)
    requires Pair(x, y, xy, yx) && k in yx && NotStale(x, k) && !k.w.flags.rst
    ensures Arrives(x, y, k)
  {
  }

  // ---------------------------------------------------------------- the handshake

  /** A SYN at the listener: it learns the peer's window and answers with its own SYN. */
  predicate Accepts(x: Peer, x': Peer, ws: seq<Wire>, k: Packet) {
    && x'.c.state == SynReceived && Nxt(x') == 1 && x'.una == 0 && x'.c.sndWnd == k.w.window
    && Rcv(x') == 1 && x'.c.rcvNxt == Wrap(k.w.seqno + 1)
    && |ws| == 1 && ws[0].flags == SYNACK && ws[0].data == []
    && Label(x', ws[0]).pos == 0 && Label(x', ws[0]).ackPos == 1
  }

  /** The answer at the connecting side: it is established, knows the window and acknowledges. */
  predicate Connects(x: Peer, x': Peer, ws: seq<Wire>, k: Packet) {
    && x'.c.state == Established && x'.una == Nxt(x') == 1 && x'.c.sndWnd == k.w.window
    && Rcv(x') == 1 && x'.c.rcvNxt == Wrap(k.w.seqno + 1)
    && |ws| == 1 && ws[0].flags == ACK && ws[0].data == [] && Label(x', ws[0]).ackPos == 1
  }

  lemma ListenerAccepts(x: Peer, y: Peer, xy: set<Packet>, yx: set<Packet>, k: Packet, full: bool)
    requires Pair(x, y, xy, yx) && Sane(x) && k in yx && Arrives(x, y, k) && x.c.state == Listen && k.w.flags.syn && !k.w.flags.ack
    ensures var (x', ws) := Handle(x, Arrive(k, full)); Accepts(x, x', ws, k)
  {
    hide Pair, Wrap, Append, Queue;
    PairLocal(x, y, xy, yx);
    SynLocal(x, k.w);
    WrapSame(x.c.iss);
    LabelPos(Handle(x, Arrive(k, full)).0, 0);
  }

  lemma CallerConnects(x: Peer, y: Peer, xy: set<Packet>, yx: set<Packet>, k: Packet, full: bool)
    requires Pair(x, y, xy, yx) && Sane(x) && k in yx && Arrives(x, y, k) && x.c.state == SynSent && k.w.flags.syn && k.w.flags.ack
    ensures var (x', ws) := Handle(x, Arrive(k, full)); Connects(x, x', ws, k)
  {
    hide Pair, Wrap, RexmitAck, Queue;
    PairLocal(x, y, xy, yx);
    WrapSame(x.c.iss);
    WrapAdd(x.c.iss, 0, 1);
    WrapDiff(x.c.iss, 1, 0);
    WrapOne();
  }

  /** In every run the three segments of the handshake do what they are for. */
  lemma HandshakeTakes(r: seq<Sys>, i: nat, swap: bool, k: Packet, full: bool)
    requires Run(r) && i < |r| && Sane(Seen(r[i], swap).a)
    requires var s := Seen(r[i], swap); k in s.ba && NotStale(s.a, k) && !k.w.flags.rst
    ensures var x := Seen(r[i], swap).a;
            var (x', ws) := Handle(x, Arrive(k, full));
            && (x.c.state == Listen && k.w.flags.syn && !k.w.flags.ack ==> Accepts(x, x', ws, k))
            && (x.c.state == SynSent && k.w.flags.syn && k.w.flags.ack ==> Connects(x, x', ws, k))
            && (x.c.state == SynReceived && k.w.flags.ack && k.ackPos == 1 ==>
                  x'.una == Nxt(x') == 1 && x'.c.state == (if full then Closed else Established) && x'.c.active == !full && ws == [])
  {
    hide Run, Pair, Handle, Arrives, Accepts, Connects;
    var s := Seen(r[i], swap);
    SeenInv(r, i, swap);
    Deliverable(s.a, s.b, s.ab, s.ba, k);
    if s.a.c.state == Listen && k.w.flags.syn && !k.w.flags.ack { ListenerAccepts(s.a, s.b, s.ab, s.ba, k, full); }
    if s.a.c.state == SynSent && k.w.flags.syn && k.w.flags.ack { CallerConnects(s.a, s.b, s.ab, s.ba, k, full); }
    if s.a.c.state == SynReceived && k.w.flags.ack && k.ackPos == 1 { HandshakeEnds(s.a, s.b, s.ab, s.ba, k, full); }
  }

  lemma HandshakeEnds(x: Peer, y: Peer, xy: set<Packet>, yx: set<Packet>, k: Packet, full: bool)
    requires Pair(x, y, xy, yx) && Sane(x) && k in yx && Arrives(x, y, k) && x.c.state == SynReceived && k.w.flags.ack && k.ackPos == 1
    ensures var (x', ws) := Handle(x, Arrive(k, full));
            x'.una == Nxt(x') == 1 && x'.c.state == (if full then Closed else Established) && x'.c.active == !full && ws == []
  {
    hide Pair, Wrap, RexmitAck, Queue;
    PairLocal(x, y, xy, yx);
    WrapAdd(x.c.iss, 0, 1);
    WrapDiff(x.c.iss, 1, 0);
    WrapSame(x.c.iss);
    WrapOne();
  }

  // ---------------------------------------------------------------- resets and timers

  /** The retransmit timer aborts a connection exactly if something it sent is not acknowledged, and a
      reset always does; the owner learns why. */
  lemma AbortsExactly(r: seq<Sys>, i: nat, swap: bool, k: Packet, full: bool)
    requires Run(r) && i < |r| && Sane(Seen(r[i], swap).a) && Seen(r[i], swap).a.c.state != Closed
    ensures var x := Seen(r[i], swap).a;
            var x' := Handle(x, RexmitFires).0;
            if x.una < Nxt(x) then x'.c.state == Closed && x'.c.soError == -110 else x' == x
    ensures var x := Seen(r[i], swap).a;
            var (x', ws) := Handle(x, Arrive(k, full));
            && (k.w.flags.rst && x.c.state != Listen ==> ws == [] && x'.c.state == Closed && x'.c.soError == -104)
            && (k.w.flags.rst && !k.w.flags.syn && x.c.state == Listen ==> ws == [] && x' == x)
  {
    hide Run, Cross, Wrap, Tiles, Numbers;
    SeenInv(r, i, swap);
  }

  // ---------------------------------------------------------------- reading

  /** A read gives bytes from the front of the queue and nothing else changes.  On an empty queue it says
      end of file exactly if the peer's FIN was received or the connection is closed, and otherwise that
      the caller should try again. */
  lemma RecvMeaning(r: seq<Sys>, i: nat, swap: bool, len: nat)
    requires Run(r) && i < |r| && Sane(Seen(r[i], swap).a)
    ensures var x := Seen(r[i], swap).a;
            var (c', got) := RecvFrom(x.c, len);
            && (x.c.rxq == [] ==> c' == x.c && (got == Bytes([]) <==> x.c.finReceived || x.c.state == Closed)
                                  && (got == Again <==> !x.c.finReceived && x.c.state != Closed))
            && (x.c.rxq != [] && x.c.active ==>
                  && got.Bytes? && |got.data| == Min(len, |x.c.rxq|) && x.c.rxq == got.data + c'.rxq
                  && c' == x.c.(rxq := c'.rxq, rcvWnd := CAPACITY - |c'.rxq|))
            && (x.c.rxq != [] && !x.c.active ==> got == Gone && c' == x.c && x.c.state == Closed)
  {
    hide Run, Numbers, Cross, Queue;
    SeenInv(r, i, swap);
  }
}
