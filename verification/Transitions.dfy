/** The connection once more, variable by variable instead of state by state: for every variable, and
    for the segment that goes out, one table over all states and segments (the diagram of section 3.2
    and the segment arrival rules of section 3.9 of RFC 793, as far as the code follows them).
    `SegmentDoes` proves the handlers equal to the tables. */
module Transitions {
  import opened SeqArith
  import opened TcpHeaders
  import opened Tcbs
  import opened SendBuffers
  import opened RecvBuffers
  import opened RetransmitQueues
  import opened ConnectionSpec
  import opened Endpoints
  import opened SendSide
  import opened Lifecycle

  /** The number `n` places behind `a`. */
  function Wrapped(a: int): u32 { a % 0x1_0000_0000 }

  /** The segment acknowledges something that is outstanding: its number lies behind `snd.una` and not
      behind `snd.nxt`, both by less than half a turn. */
  predicate Acks(c: Conn, seg: TcpSegment) {
    && seg.header.flags.ack
    && 0 < Wrapped(seg.header.ackNum - c.tcb.snd.una) < 0x8000_0000
    && Wrapped(c.tcb.snd.nxt - seg.header.ackNum) < 0x8000_0000
  }

  lemma AcksIff(c: Conn, seg: TcpSegment)
    ensures IsNewAck(c, seg) <==> Acks(c, seg)
  {}

  const SYN := TcpFlags(false, false, false, false, true, false)
  const SYN_ACK := TcpFlags(false, true, false, false, true, false)
  const ACK := TcpFlags(false, true, false, false, false, false)
  const FIN_ACK := TcpFlags(false, true, false, false, false, true)
  const RST := TcpFlags(false, false, false, true, false, false)
  const PSH_ACK := TcpFlags(false, true, true, false, false, false)

  /** The free space of the receive ring, as far as 16 bits go. */
  function Offered(c: Conn): u16 {
    if c.recv.None? then 65535 else Min(65535, Max(0, 65536 - |c.recv.value.data|))
  }

  /** A segment from the local to the remote end that says what the connection expects and offers. */
  function Acking(c: Conn, flags: TcpFlags, s: u32, payload: seq<u8>): Builder {
    Builder(c.tcb.localIp, c.tcb.remoteIp, c.tcb.localPort, c.tcb.remotePort,
            s, c.tcb.rcv.nxt, flags, Offered(c), payload)
  }

  /** A segment that acknowledges nothing. */
  function Plain(c: Conn, flags: TcpFlags, s: u32): Builder {
    Builder(c.tcb.localIp, c.tcb.remoteIp, c.tcb.localPort, c.tcb.remotePort,
            s, 0, flags, 65535, [])
  }

  /** The state a segment leads to. */
  function StateAfter(c: Conn, seg: TcpSegment): TcbState {
    var s, f := c.tcb.state, seg.header.flags;
    var all := Acks(c, seg) && seg.header.ackNum == c.tcb.snd.nxt;
    match s
    case Listen => if f.syn && !f.ack && !f.rst then SynReceived else s
    case SynSent =>
      if f.rst then Closed
      else if f.syn && !f.ack then SynReceived
      else if f.syn && Acks(c, seg) then Established else s
    case SynReceived => if f.rst then Listen else if Acks(c, seg) then Established else s
    case Established =>
      if f.rst then Closed else if f.fin && !ResendsHead(c, seg) then CloseWait else s
    case CloseWait => if f.rst then Closed else s
    case FinWait1 =>
      if f.rst then Closed
      else if f.fin then (if all then TimeWait else Closing)
      else if all then FinWait2 else s
    case FinWait2 => if f.rst then Closed else if f.fin then TimeWait else s
    case Closing => if f.rst then Closed else if Acks(c, seg) then TimeWait else s
    case LastAck => if f.rst || Acks(c, seg) then Closed else s
    case TimeWait => s
    case Closed => s
  }

  /** The segment begins, or repeats, the peer's half of the handshake. */
  predicate Opens(c: Conn, seg: TcpSegment) {
    StateAfter(c, seg) != c.tcb.state
    && (c.tcb.state == SynSent || (c.tcb.state == Listen && seg.header.flags.syn))
    && !seg.header.flags.rst
  }

  /** The payload is looked at: on an established connection, unless the segment is a reset or the third
      duplicate that is answered by a resent segment. */
  predicate Listens(c: Conn, seg: TcpSegment) {
    c.tcb.state == Established && !seg.header.flags.rst && !ResendsHead(c, seg)
  }

  /** A FIN is looked at in these states, in whatever order it arrives. */
  predicate TakesFin(c: Conn, seg: TcpSegment) {
    && seg.header.flags.fin && !seg.header.flags.rst
    && (Listens(c, seg) || c.tcb.state in {FinWait1, FinWait2})
  }

  /** The next expected number. */
  function RcvNxtAfter(c: Conn, seg: TcpSegment): u32 {
    if Opens(c, seg) then Wrapped(seg.header.seqNum + 1)
    else if TakesFin(c, seg) then Wrapped(seg.header.seqNum + |seg.payload| + 1)
    else if Listens(c, seg) && seg.payload != [] && c.recv.Some?
    then c.recv.value.Insert(seg.header.seqNum, seg.payload).nxt
    else c.tcb.rcv.nxt
  }

  /** The receive buffer. */
  function RecvAfter(c: Conn, seg: TcpSegment): Option<RecvState> {
    if Opens(c, seg) then Some(RecvState([], Wrapped(seg.header.seqNum + 1), map[]))
    else if Listens(c, seg) && seg.payload != [] && c.recv.Some?
    then Some(c.recv.value.Insert(seg.header.seqNum, seg.payload))
    else c.recv
  }

  /** The segment's acknowledgement is taken. */
  predicate TakesAck(c: Conn, seg: TcpSegment) {
    && Acks(c, seg) && !seg.header.flags.rst
    && (c.tcb.state in {SynReceived, Established, FinWait1, Closing, LastAck}
        || (c.tcb.state == SynSent && seg.header.flags.syn))
  }

  /** The window the peer offers. */
  function WndAfter(c: Conn, seg: TcpSegment): u16 {
    if c.tcb.state in {Closing, LastAck} then c.tcb.snd.wnd
    else if TakesAck(c, seg) || (c.tcb.state == SynSent && Opens(c, seg)) then seg.header.window
    else c.tcb.snd.wnd
  }

  /** An acknowledgement of something never sent, during the handshake. */
  predicate Refused(c: Conn, seg: TcpSegment) {
    && seg.header.flags.ack && !seg.header.flags.rst
    && (c.tcb.state == Listen
        || (c.tcb.state == SynSent && seg.header.flags.syn && !Acks(c, seg))
        || (c.tcb.state == SynReceived && !Acks(c, seg)))
  }

  /** The SYN of the handshake that is going on, once more. */
  predicate RepeatsSyn(c: Conn, seg: TcpSegment) {
    && c.tcb.state == SynReceived && seg.header.seqNum == c.tcb.rcv.irs
    && seg.header.flags.syn && !seg.header.flags.ack && !seg.header.flags.rst
  }

  /** What goes out, in terms of the connection after the segment. */
  function Answer(c: Conn, seg: TcpSegment, c': Conn): seq<Builder> {
    if Refused(c, seg) then [Plain(c, RST, seg.header.ackNum)]
    else if RepeatsSyn(c, seg) || (Opens(c, seg) && c'.tcb.state == SynReceived)
    then [Acking(c', SYN_ACK, c.tcb.snd.iss, [])]
    else if c.tcb.state == Established && ResendsHead(c, seg) && !seg.header.flags.rst
    then [Acking(c', PSH_ACK, c.rtx.entries[0].seqNum, c.rtx.entries[0].data)]
    else if || Opens(c, seg) || TakesFin(c, seg) || (Listens(c, seg) && seg.payload != [])
            || (c.tcb.state == TimeWait && seg.header.flags.fin)
    then [Acking(c', ACK, c'.tcb.snd.nxt, [])]
    else []
  }

  /** What a segment does, to every variable but the congestion window's: the tables. */
  predicate AsInTables(c: Conn, seg: TcpSegment, now: real, c': Conn) {
    && c'.tcb.state == StateAfter(c, seg)
    && c'.tcb.snd.una == (if TakesAck(c, seg) then seg.header.ackNum else c.tcb.snd.una)
    && c'.tcb.snd.nxt == (if c.tcb.state == Listen && Opens(c, seg) then Wrapped(c.tcb.snd.iss + 1)
                          else c.tcb.snd.nxt)
    && c'.tcb.snd.wnd == WndAfter(c, seg)
    && c'.tcb.rcv.nxt == RcvNxtAfter(c, seg)
    && c'.tcb.rcv.irs == (if Opens(c, seg) then seg.header.seqNum else c.tcb.rcv.irs)
    && c'.tcb.rcv.wnd == (if c.tcb.state == Listen && Opens(c, seg) then seg.header.window
                          else c.tcb.rcv.wnd)
    && c'.recv == RecvAfter(c, seg)
    && c'.timeWaitStart == (if c.tcb.state != TimeWait && c'.tcb.state == TimeWait then Some(now)
                            else c.timeWaitStart)
    && c'.send == (if TakesAck(c, seg) && c.tcb.state in {SynReceived, Established, FinWait1}
                   then c.send.Acknowledge(seg.header.ackNum) else c.send)
    && c'.rtx == (if TakesAck(c, seg) && c.tcb.state in {Established, FinWait1}
                  then c.rtx.Acknowledge(seg.header.ackNum, now) else c.rtx)
  }

  lemma WrappedAdd(a: u32, n: int)
    ensures SeqAdd(a, n) == Wrapped(a + n)
  {}

  lemma WrappedSub(a: u32, b: u32)
    ensures SeqSub(a, b) == Wrapped(a - b)
  {}

  lemma WindowIsOffered(c: Conn)
    ensures c.CurrentWindow() == Offered(c)
  {}

  lemma NewBuffer(irs: u32)
    ensures NewRecvState(irs) == RecvState([], Wrapped(irs + 1), map[])
  {}

  lemma OpeningTables(c: Conn, seg: TcpSegment, now: real)
    requires c.tcb.state in {Listen, SynSent, SynReceived}
    ensures var r := ProcessSegment(c, seg, now);
            AsInTables(c, seg, now, r.conn) && OneOrNone(r).out == Answer(c, seg, r.conn)
  {
    hide SeqAdd, SeqSub, Wrapped, AckAcceptable, Acks, HandleEstablished, HandleFinWait1;
    hide ResendsHead, RecvState.Insert, SendState.Acknowledge, RtxState.Acknowledge, Offered;
    hide Conn.CurrentWindow, NewRecvState;
    WindowIsOffered(ProcessSegment(c, seg, now).conn);
    NewBuffer(seg.header.seqNum);
    AcksIff(c, seg);
    WrappedAdd(seg.header.seqNum, 1);
    WrappedAdd(c.tcb.snd.iss, 1);
  }

  lemma FinWait1Tables(c: Conn, seg: TcpSegment, now: real)
    requires c.tcb.state == FinWait1
    ensures var r := HandleFinWait1(c, seg, now);
            AsInTables(c, seg, now, r.conn) && OneOrNone(r).out == Answer(c, seg, r.conn)
  {
    hide SeqAdd, SeqSub, SeqLe, Wrapped, AckAcceptable, Acks, SendState.Acknowledge;
    hide RtxState.Acknowledge, ResendsHead, RecvState.Insert, Offered, Conn.CurrentWindow;
    WindowIsOffered(HandleFinWait1(c, seg, now).conn);
    AcksIff(c, seg);
    AllIff(c, seg);
    WrappedAdd(seg.header.seqNum, |seg.payload| + 1);
    SeqAddAdd(seg.header.seqNum, |seg.payload|, 1);
  }

  lemma ClosingTables(c: Conn, seg: TcpSegment, now: real)
    requires c.tcb.state in {CloseWait, FinWait2, Closing, LastAck, TimeWait, Closed}
    ensures var r := ProcessSegment(c, seg, now);
            AsInTables(c, seg, now, r.conn) && OneOrNone(r).out == Answer(c, seg, r.conn)
  {
    hide SeqAdd, SeqSub, Wrapped, AckAcceptable, Acks, HandleEstablished, HandleFinWait1;
    hide ResendsHead, RecvState.Insert, SendState.Acknowledge, RtxState.Acknowledge, Offered;
    hide Conn.CurrentWindow;
    WindowIsOffered(ProcessSegment(c, seg, now).conn);
    AcksIff(c, seg);
    WrappedAdd(seg.header.seqNum, |seg.payload| + 1);
    SeqAddAdd(seg.header.seqNum, |seg.payload|, 1);
  }

  lemma AllIff(c: Conn, seg: TcpSegment)
    ensures IsNewAck(c, seg) ==>
              (SeqLe(c.tcb.snd.nxt, seg.header.ackNum) <==> seg.header.ackNum == c.tcb.snd.nxt)
  {
    if IsNewAck(c, seg) && SeqLe(c.tcb.snd.nxt, seg.header.ackNum) {
      SeqLeAntisymmetric(seg.header.ackNum, c.tcb.snd.nxt);
    }
  }

  lemma AckPartTables(c: Conn, seg: TcpSegment, now: real)
    ensures var r := AckEstablished(c, seg, now);
            && r.out == (if ResendsHead(c, seg)
                         then Some(Acking(r.conn, PSH_ACK, c.rtx.entries[0].seqNum,
                                          c.rtx.entries[0].data))
                         else None)
            && r.conn.tcb.rcv == c.tcb.rcv && r.conn.recv == c.recv
            && r.conn.timeWaitStart == c.timeWaitStart
  {
    hide SeqAdd, SeqSub, GrownCwnd, HalvedWindow;
  }

  lemma EstablishedMoves(c: Conn, seg: TcpSegment, now: real)
    requires c.tcb.state == Established
    ensures AsInTables(c, seg, now, HandleEstablished(c, seg, now).conn)
  {
    hide SeqAdd, SeqSub, Wrapped, AckAcceptable, Acks, ResendsHead, AckEstablished;
    hide RecvState.Insert, SendState.Acknowledge, RtxState.Acknowledge, Conn.CurrentWindow;
    AcksIff(c, seg);
    EstablishedSendSide(c, seg, now);
    AckPartSendSide(c, seg, now);
    AckPartTables(c, seg, now);
    WrappedAdd(seg.header.seqNum, |seg.payload| + 1);
    SeqAddAdd(seg.header.seqNum, |seg.payload|, 1);
  }

  lemma EstablishedAnswers(c: Conn, seg: TcpSegment, now: real)
    requires c.tcb.state == Established
    ensures var r := HandleEstablished(c, seg, now);
            OneOrNone(r).out == Answer(c, seg, r.conn)
  {
    hide SeqAdd, SeqSub, Wrapped, AckAcceptable, Acks, ResendsHead, AckEstablished, TakePayload;
    hide Offered, Conn.CurrentWindow;
    WindowIsOffered(HandleEstablished(c, seg, now).conn);
    AckPartSendSide(c, seg, now);
    AckPartTables(c, seg, now);
  }

  /** What an arriving segment does, in every state. */
  lemma SegmentDoes(e: Endpoint, seg: TcpSegment, now: real)
    ensures var c, c' := e.conn, Next(e, Deliver(seg, now)).conn;
            AsInTables(c, seg, now, c') && Outputs(e, Deliver(seg, now)) == Answer(c, seg, c')
  {
    hide AsInTables, Answer, HandleEstablished, HandleFinWait1, HandleListen, HandleSynSent;
    hide HandleSynReceived, HandleClosing, HandleLastAck, SeqAdd, SeqSub;
    match e.conn.tcb.state
    case Listen => OpeningTables(e.conn, seg, now);
    case SynSent => OpeningTables(e.conn, seg, now);
    case SynReceived => OpeningTables(e.conn, seg, now);
    case Established => EstablishedMoves(e.conn, seg, now); EstablishedAnswers(e.conn, seg, now);
    case FinWait1 => FinWait1Tables(e.conn, seg, now);
    case _ => ClosingTables(e.conn, seg, now);
  }

  /** Data and FIN on an established connection.  The FIN is taken whether or not data comes with it and
      whether or not it arrives in order; every nonempty payload, duplicates and early arrivals
      included, is answered by exactly one acknowledgement of what is then expected; and the third
      duplicate acknowledgement is answered by the head of the queue and its payload ignored. */
  lemma DataAndFin(e: Endpoint, seg: TcpSegment, now: real)
    requires e.conn.tcb.state == Established && e.conn.recv.Some?
    requires !seg.header.flags.rst
    ensures var c, c' := e.conn, Next(e, Deliver(seg, now)).conn;
            var out, n, fin := Outputs(e, Deliver(seg, now)), |seg.payload|, seg.header.flags.fin;
            if ResendsHead(c, seg) then
              && c'.tcb.state == Established && c'.recv == c.recv && c'.tcb.rcv == c.tcb.rcv
              && |out| == 1 && out[0].seqNum == c.rtx.entries[0].seqNum
              && out[0].payload == c.rtx.entries[0].data && out[0].ackNum == c.tcb.rcv.nxt
            else
              && (c'.tcb.state == CloseWait <==> fin) && (c'.tcb.state == Established <==> !fin)
              && c'.recv == (if n == 0 then c.recv
                             else Some(c.recv.value.Insert(seg.header.seqNum, seg.payload)))
              && (fin ==> c'.tcb.rcv.nxt == (seg.header.seqNum + n + 1) % 0x1_0000_0000)
              && (!fin ==> c'.tcb.rcv.nxt == if n == 0 then c.tcb.rcv.nxt else c'.recv.value.nxt)
              && |out| == (if fin || n > 0 then 1 else 0)
              && (fin || n > 0 ==>
                    out[0].flags == TcpFlags(false, true, false, false, false, false)
                    && out[0].payload == [] && out[0].ackNum == c'.tcb.rcv.nxt
                    && out[0].seqNum == c'.tcb.snd.nxt)
  {
    hide Next, Outputs, Acks, ResendsHead, RecvState.Insert, SendState.Acknowledge;
    hide RtxState.Acknowledge, Offered;
    SegmentDoes(e, seg, now);
  }

  /** `close`: a FIN in ESTABLISHED and CLOSE_WAIT, which takes one number of the control block. */
  lemma CloseTable(e: Endpoint)
    ensures var c, t := e.conn, e.conn.tcb;
            var next := t.snd.(nxt := Wrapped(t.snd.nxt + 1));
            && Next(e, Close).conn ==
               (if t.state == Established then c.(tcb := t.(state := FinWait1, snd := next))
                else if t.state == CloseWait then c.(tcb := t.(state := LastAck, snd := next))
                else c)
            && Outputs(e, Close) ==
               if t.state in {Established, CloseWait} then [Acking(c, FIN_ACK, t.snd.nxt, [])] else []
  {
    hide ProcessSegment, SeqAdd, SeqSub;
    WrappedAdd(e.conn.tcb.snd.nxt, 1);
  }

  /** `connect`: a SYN from CLOSED. */
  lemma OpenTable(e: Endpoint)
    ensures var c, t := e.conn, e.conn.tcb;
            var next := t.snd.(nxt := Wrapped(t.snd.iss + 1));
            && Next(e, Open).conn ==
               (if t.state == Closed then c.(tcb := t.(state := SynSent, snd := next)) else c)
            && Outputs(e, Open) ==
               if t.state == Closed then [Plain(c, SYN, t.snd.iss)] else []
  {
    hide ProcessSegment, SeqAdd, SeqSub;
    WrappedAdd(e.conn.tcb.snd.iss, 1);
  }

  /** The TIME_WAIT clock: 60 seconds, not less and not more. */
  lemma TickTable(e: Endpoint, now: real)
    ensures var c := e.conn;
            var over := c.tcb.state == TimeWait && c.timeWaitStart.Some?
                        && now - c.timeWaitStart.value >= 60.0;
            && Next(e, Tick(now)).conn == (if over then c.(tcb := c.tcb.(state := Closed)) else c)
            && Outputs(e, Tick(now)) == []
  {
    hide ProcessSegment, SeqAdd, SeqSub;
  }

  /** `write_data`: the prefix for which the ring has room. */
  lemma WriteTable(e: Endpoint, data: seq<u8>)
    requires |e.conn.send.data| <= 65536
    ensures var n, send := Min(|data|, 65536 - |e.conn.send.data|), e.conn.send;
            && Next(e, Write(data)).conn == e.conn.(send := send.(data := send.data + data[..n]))
            && Next(e, Write(data)).written == e.written + data[..n]
            && Outputs(e, Write(data)) == []
  {
    hide ProcessSegment, SeqAdd, SeqSub;
  }

  /** `read_received`: the oldest bytes. */
  lemma ReadTable(e: Endpoint, n: nat)
    ensures var c, e' := e.conn, Next(e, Event.Read(n));
            && Outputs(e, Event.Read(n)) == []
            && (c.recv.None? ==> e'.conn == c && e'.read == e.read)
            && (c.recv.Some? ==>
                  var d := c.recv.value.data;
                  var k := Min(n, |d|);
                  e'.conn == c.(recv := Some(c.recv.value.(data := d[k..]))) && e'.read == e.read + d[..k])
  {
    hide ProcessSegment, SeqAdd, SeqSub;
  }

  /** `next_segment_to_send`: while less is in flight than both windows allow and something is unsent,
      the next piece of the ring goes out, as long as the call, the windows and the ring allow; it is
      queued unless 128 entries are, and both copies of `nxt` move behind it. */
  lemma SendTable(e: Endpoint, maxPayload: nat, now: real)
    ensures var c, t, send := e.conn, e.conn.tcb, e.conn.send;
            var c', out := Next(e, Send(maxPayload, now)).conn, Outputs(e, Send(maxPayload, now));
            var room := Min(t.cwnd, t.snd.wnd) - Wrapped(t.snd.nxt - t.snd.una);
            var sent := Wrapped(send.nxt - send.una);
            if room > 0 && maxPayload > 0 && sent < |send.data| then
              var n := Min(Min(maxPayload, room), |send.data| - sent);
              var piece, nxt := send.data[sent..sent + n], Wrapped(send.nxt + n);
              var entries := c.rtx.entries;
              && out == [Acking(c', PSH_ACK, send.nxt, piece)]
              && c' == c.(tcb := t.(snd := t.snd.(nxt := nxt)), send := send.(nxt := nxt),
                          rtx := if |entries| < 128
                                 then c.rtx.(entries := entries + [Entry(send.nxt, piece, now, false)])
                                 else c.rtx)
            else c' == c && out == []
  {
    hide ProcessSegment, SeqAdd, SeqSub, Wrapped;
    var send := e.conn.send;
    WrappedSub(e.conn.tcb.snd.nxt, e.conn.tcb.snd.una);
    WrappedSub(send.nxt, send.una);
    var r := NextSegmentToSend(e.conn, maxPayload, now);
    if r.out.Some? { WrappedAdd(send.nxt, |r.out.value.payload|); }
  }

  /** `zero_window_probe`: the next unsent byte, unqueued and without PSH, into a closed window. */
  lemma ProbeTable(e: Endpoint)
    ensures var c, t, send := e.conn, e.conn.tcb, e.conn.send;
            var c', out := Next(e, Probe).conn, Outputs(e, Probe);
            var sent := Wrapped(send.nxt - send.una);
            if t.state == Established && t.snd.wnd == 0 && sent < |send.data| then
              var nxt := Wrapped(send.nxt + 1);
              && out == [Acking(c', ACK, send.nxt, [send.data[sent]])]
              && c' == c.(tcb := t.(snd := t.snd.(nxt := nxt)), send := send.(nxt := nxt))
            else c' == c && out == []
  {
    hide ProcessSegment, SeqAdd, SeqSub, Wrapped;
    var send := e.conn.send;
    WrappedSub(send.nxt, send.una);
    WrappedAdd(send.nxt, 1);
    var sent := send.InFlight();
    if sent < |send.data| { assert send.data[sent..sent + 1] == [send.data[sent]]; }
  }

  lemma TimerOutputs(e: Endpoint, now: real)
    ensures forall b :: b in Outputs(e, Retransmit(now)) ==>
              b == Acking(Next(e, Retransmit(now)).conn, PSH_ACK, b.seqNum, b.payload)
  {
    hide ProcessSegment, SeqAdd, SeqSub, RtxState.Expired, RtxState.AfterExpiry;
  }

  /** Whatever goes out is one of seven kinds of segment. */
  predicate Kind(c: Conn, c': Conn, b: Builder) {
    || b == Plain(c, SYN, c.tcb.snd.iss)
    || b == Acking(c', SYN_ACK, c.tcb.snd.iss, [])
    || b == Plain(c, RST, b.seqNum)
    || b == Acking(c, FIN_ACK, c.tcb.snd.nxt, [])
    || b == Acking(c', ACK, c'.tcb.snd.nxt, [])
    || (b == Acking(c', PSH_ACK, b.seqNum, b.payload))
    || (b == Acking(c', ACK, b.seqNum, b.payload) && |b.payload| == 1)
  }

  lemma OutputKinds(e: Endpoint, ev: Event)
    ensures forall b :: b in Outputs(e, ev) ==> Kind(e.conn, Next(e, ev).conn, b)
  {
    hide Perform, Offered, AsInTables, ResendsHead, Opens, Refused, RepeatsSyn, TakesFin;
    hide Listens;
    match ev
    case Deliver(seg, now) => SegmentDoes(e, seg, now);
    case Send(n, now) => SendTable(e, n, now);
    case Probe => ProbeTable(e);
    case Retransmit(now) => TimerOutputs(e, now);
    case Close => CloseTable(e);
    case Open => OpenTable(e);
    case Tick(now) => TickTable(e, now);
    case Read(n) => ReadTable(e, n);
    case Write(data) => QuietWrite(e, data);
  }

  lemma QuietWrite(e: Endpoint, data: seq<u8>)
    ensures Outputs(e, Write(data)) == []
  {}

  /** The two ends of a connection. */
  predicate SameEnds(c: Conn, c': Conn) {
    && c'.tcb.localIp == c.tcb.localIp && c'.tcb.localPort == c.tcb.localPort
    && c'.tcb.remoteIp == c.tcb.remoteIp && c'.tcb.remotePort == c.tcb.remotePort
  }

  /** From here to there, and under `snd.nxt` if it only acknowledges. */
  predicate Addressed(c: Conn, b: Builder) {
    && b.srcIp == c.tcb.localIp && b.srcPort == c.tcb.localPort
    && b.dstIp == c.tcb.remoteIp && b.dstPort == c.tcb.remotePort
  }

  lemma StepAddressed(e: Endpoint, ev: Event)
    ensures SameEnds(e.conn, Next(e, ev).conn)
    ensures forall b :: b in Outputs(e, ev) ==> Addressed(e.conn, b)
    ensures forall b :: b in Outputs(e, ev) && b.flags == ACK && b.payload == [] ==>
              b.seqNum == Next(e, ev).conn.tcb.snd.nxt
  {
    OutputKinds(e, ev);
    LinkKept(e, ev);
  }

  lemma LinkKept(e: Endpoint, ev: Event)
    ensures SameEnds(e.conn, Next(e, ev).conn)
  {
    hide ProcessSegment, SeqAdd, SeqSub;
  }

  /** Over any run the two ends stay what they are, and every segment goes from the one to the other. */
  lemma {:induction false} RunAddressed(e: Endpoint, evs: seq<Event>)
    ensures SameEnds(e.conn, Exec(e, evs).conn)
    ensures forall b :: b in AllOutputs(e, evs) ==> Addressed(e.conn, b)
    decreases |evs|
  {
    hide Next, Outputs;
    if evs != [] {
      StepAddressed(e, evs[0]);
      RunAddressed(Next(e, evs[0]), evs[1..]);
    }
  }

  lemma FinAnswered(e: Endpoint, ev: Event)
    requires HearsFin(e.conn, ev)
    ensures ev.Deliver?
    ensures var c := Next(e, ev).conn;
            && c.tcb.state in {CloseWait, Closing, TimeWait}
            && c.tcb.rcv.nxt == (ev.seg.header.seqNum + |ev.seg.payload| + 1) % 0x1_0000_0000
            && Outputs(e, ev) == [Acking(c, ACK, c.tcb.snd.nxt, [])]
  {
    hide Next, Outputs, Acks, ResendsHead, Acking;
    SegmentDoes(e, ev.seg, ev.now);
  }

  /** Every FIN that is heard, in any run, leads to a state that says so, and is acknowledged there by the
      number behind it. */
  lemma HeardFinLeadsOn(e0: Endpoint, evs: seq<Event>, i: nat)
    requires Fresh(e0) && Obeys(e0, evs, Proper)
    requires i < |evs| && HearsFin(Exec(e0, evs[..i]).conn, evs[i])
    ensures var seg, c := evs[i].seg, Exec(e0, evs[..i + 1]).conn;
            var out := Outputs(Exec(e0, evs[..i]), evs[i]);
            && c.tcb.state in {CloseWait, Closing, TimeWait}
            && c.tcb.rcv.nxt == (seg.header.seqNum + |seg.payload| + 1) % 0x1_0000_0000
            && out == [Acking(c, ACK, c.tcb.snd.nxt, [])]
  {
    hide Next, Outputs, Exec, Obeys, HearsFin, Acking;
    var e := Exec(e0, evs[..i]);
    FinAnswered(e, evs[i]);
    assert evs == evs[..i] + evs[i..] && evs[..i + 1] == evs[..i] + [evs[i]];
    RunsCompose(e0, evs[..i], evs[i..], Proper);
    RunsCompose(e0, evs[..i], [evs[i]], Proper);
    OneEvent(e, evs[i], Proper);
  }

  /** What a connection starts with. */
  lemma FreshIsNew(e: Endpoint)
    requires Fresh(e)
    ensures var c, t := e.conn, e.conn.tcb;
            && t.state in {Listen, Closed}
            && t.snd == SendSequence(t.snd.iss, t.snd.iss, 65535, t.snd.iss)
            && t.rcv == RecvSequence(0, 65535, 0)
            && t.cwnd == 1460 && t.ssthresh == 65535 && t.dupAckCount == 0
            && c.send == SendState([], Wrapped(t.snd.iss + 1), Wrapped(t.snd.iss + 1))
            && c.recv == None && c.timeWaitStart == None
            && c.rtx == RtxState([], 1.0, None, 0.0)
  {
    WrappedAdd(e.conn.tcb.snd.iss, 1);
  }
}
