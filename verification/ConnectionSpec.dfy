/** `Connection` (connection.rs) as functions on values: one function per method.  The class in
    Connection.dfy is proved to compute exactly these. */
module ConnectionSpec {
  import opened SeqArith
  import opened TcpHeaders
  import opened Tcbs
  import opened SendBuffers
  import opened RecvBuffers
  import opened RetransmitQueues

  const TWO_MSL: real := 60.0

  /** `saturating_add` on 32 bits. */
  function SaturatingAdd(a: u32, b: u32): u32 { Min(a + b, 0xFFFF_FFFF) }

  datatype Conn = Conn(
    tcb: Tcb, send: SendState, recv: Option<RecvState>, rtx: RtxState, timeWaitStart: Option<real>)
  {
    function In(s: TcbState): Conn { this.(tcb := tcb.(state := s)) }

    function WithUna(una: u32): Conn { this.(tcb := tcb.(snd := tcb.snd.(una := una))) }

    function WithSndNxt(nxt: u32): Conn { this.(tcb := tcb.(snd := tcb.snd.(nxt := nxt))) }

    function WithSndWnd(wnd: u16): Conn { this.(tcb := tcb.(snd := tcb.snd.(wnd := wnd))) }

    function WithRcvNxt(nxt: u32): Conn { this.(tcb := tcb.(rcv := tcb.rcv.(nxt := nxt))) }

    function WithWindow(cwnd: Window, ssthresh: u32): Conn {
      this.(tcb := tcb.(cwnd := cwnd, ssthresh := ssthresh))
    }

    /** Starts receiving after the peer's SYN. */
    function Synchronised(irs: u32): Conn {
      this.(tcb := tcb.(rcv := tcb.rcv.(irs := irs, nxt := SeqAdd(irs, 1))),
            recv := Some(NewRecvState(irs)))
    }

    function CurrentWindow(): u16 {
      match recv
      case Some(rb) => rb.Window()
      case None => 65535
    }

    function Blank(): Builder {
      NewBuilder(tcb.localIp, tcb.remoteIp, tcb.localPort, tcb.remotePort)
    }

    function BuildSyn(): Builder {
      Blank().(seqNum := tcb.snd.iss, flags := NO_FLAGS.(syn := true))
    }

    function BuildSynAck(): Builder {
      Blank().(seqNum := tcb.snd.iss, ackNum := tcb.rcv.nxt,
               flags := NO_FLAGS.(syn := true, ack := true), window := CurrentWindow())
    }

    function BuildAck(): Builder {
      Blank().(seqNum := tcb.snd.nxt, ackNum := tcb.rcv.nxt,
               flags := NO_FLAGS.(ack := true), window := CurrentWindow())
    }

    function BuildFinAck(): Builder { BuildAck().(flags := NO_FLAGS.(fin := true, ack := true)) }

    function BuildRst(s: u32): Builder {
      Blank().(seqNum := s, flags := NO_FLAGS.(rst := true))
    }

    function BuildData(s: u32, payload: seq<u8>, psh: bool): Builder {
      Blank().(seqNum := s, ackNum := tcb.rcv.nxt,
               flags := NO_FLAGS.(ack := true, psh := psh), window := CurrentWindow(),
               payload := payload)
    }
  }

  /** A new state and at most one segment to transmit. */
  datatype Reply = Reply(conn: Conn, out: Option<Builder>)

  /** What no operation changes, and the divisor that never becomes zero. */
  predicate SameLink(c: Conn, c': Conn) {
    && c'.tcb.snd.iss == c.tcb.snd.iss
    && c'.tcb.localIp == c.tcb.localIp && c'.tcb.localPort == c.tcb.localPort
    && c'.tcb.remoteIp == c.tcb.remoteIp && c'.tcb.remotePort == c.tcb.remotePort
  }

  function NewConn(tcb: Tcb): Conn {
    Conn(tcb, NewSendState(tcb.snd.iss), None, NewRtxState(), None)
  }

  function HandleListen(c: Conn, seg: TcpSegment): (r: Reply)
    ensures SameLink(c, r.conn)
  {
    if seg.header.flags.rst then Reply(c, None)
    else if seg.header.flags.ack then Reply(c, Some(c.BuildRst(seg.header.ackNum)))
    else if !seg.header.flags.syn then Reply(c, None)
    else
      var c1 := c.Synchronised(seg.header.seqNum);
      var c2 := c1.(tcb := c1.tcb.(rcv := c1.tcb.rcv.(wnd := seg.header.window)))
                .WithSndNxt(SeqAdd(c.tcb.snd.iss, 1)).In(SynReceived);
      Reply(c2, Some(c2.BuildSynAck()))
  }

  function HandleSynSent(c: Conn, seg: TcpSegment): (r: Reply)
    ensures SameLink(c, r.conn)
  {
    if seg.header.flags.rst then Reply(c.In(Closed), None)
    else if seg.header.flags.syn && seg.header.flags.ack then
      if !AckAcceptable(c.tcb.snd.una, seg.header.ackNum, c.tcb.snd.nxt)
      then Reply(c, Some(c.BuildRst(seg.header.ackNum)))
      else
        var c1 := c.WithUna(seg.header.ackNum).WithSndWnd(seg.header.window)
                  .Synchronised(seg.header.seqNum).In(Established);
        Reply(c1, Some(c1.BuildAck()))
    else if seg.header.flags.syn then
      var c1 := c.Synchronised(seg.header.seqNum).WithSndWnd(seg.header.window).In(SynReceived);
      Reply(c1, Some(c1.BuildSynAck()))
    else Reply(c, None)
  }

  function HandleSynReceived(c: Conn, seg: TcpSegment): (r: Reply)
    ensures SameLink(c, r.conn)
  {
    if seg.header.flags.rst then Reply(c.In(Listen), None)
    else if seg.header.flags.syn && !seg.header.flags.ack && seg.header.seqNum == c.tcb.rcv.irs
    then Reply(c, Some(c.BuildSynAck()))
    else if !seg.header.flags.ack then Reply(c, None)
    else if !AckAcceptable(c.tcb.snd.una, seg.header.ackNum, c.tcb.snd.nxt)
    then Reply(c, Some(c.BuildRst(seg.header.ackNum)))
    else
      var c1 := c.WithUna(seg.header.ackNum).WithSndWnd(seg.header.window).In(Established);
      Reply(c1.(send := c.send.Acknowledge(seg.header.ackNum)), None)
  }

  /** Section 3.1 of RFC 5681: the window after a new acknowledgement. */
  function GrownCwnd(cwnd: Window, ssthresh: u32, bytesAcked: u32): (r: Window)
    ensures r >= cwnd
  {
    if cwnd < ssthresh then SaturatingAdd(cwnd, Min(bytesAcked, MSS))
    else SaturatingAdd(cwnd, MSS * MSS / cwnd)
  }

  function HalvedWindow(cwnd: u32): u32 { Max(cwnd / 2, 2 * MSS) }

  /** What a new acknowledgement does to both buffers and the sequence variables. */
  function TakeAck(c: Conn, seg: TcpSegment, now: real): (r: Conn)
    ensures SameLink(c, r)
  {
    c.WithUna(seg.header.ackNum).WithSndWnd(seg.header.window)
    .(send := c.send.Acknowledge(seg.header.ackNum),
      rtx := c.rtx.Acknowledge(seg.header.ackNum, now))
  }

  predicate IsNewAck(c: Conn, seg: TcpSegment) {
    seg.header.flags.ack && AckAcceptable(c.tcb.snd.una, seg.header.ackNum, c.tcb.snd.nxt)
  }

  predicate IsDuplicateAck(c: Conn, seg: TcpSegment) {
    && seg.header.flags.ack && !IsNewAck(c, seg)
    && seg.header.ackNum == c.tcb.snd.una && c.tcb.snd.una != c.tcb.snd.nxt
  }

  function FastRetransmitSegment(c: Conn): Option<Builder> {
    match c.rtx.FirstUnacked()
    case None => None
    case Some(e) => Some(c.BuildData(e.0, e.1, true))
  }

  /** A new acknowledgement in ESTABLISHED. */
  function GrowOnAck(c: Conn, seg: TcpSegment, now: real): (r: Conn)
    ensures SameLink(c, r)
  {
    var bytesAcked := SeqSub(seg.header.ackNum, c.tcb.snd.una);
    var c1 := TakeAck(c, seg, now)
              .WithWindow(GrownCwnd(c.tcb.cwnd, c.tcb.ssthresh, bytesAcked), c.tcb.ssthresh);
    c1.(tcb := c1.tcb.(dupAckCount := 0))
  }

  /** A duplicate acknowledgement in ESTABLISHED. */
  function CountDuplicate(c: Conn): (r: Reply)
    ensures SameLink(c, r.conn)
  {
    var dups := Min(c.tcb.dupAckCount + 1, 255);
    var c1 := c.(tcb := c.tcb.(dupAckCount := dups));
    if dups == 3 then
      var ssthresh := HalvedWindow(c.tcb.cwnd);
      var c2 := c1.WithWindow(ssthresh + 3 * MSS, ssthresh);
      Reply(c2, FastRetransmitSegment(c2))
    else if dups > 3 then
      Reply(c1.WithWindow(SaturatingAdd(c.tcb.cwnd, MSS), c.tcb.ssthresh), None)
    else Reply(c1, None)
  }

  /** The acknowledgement part of `handle_established`; a reply here ends the handler. */
  function AckEstablished(c: Conn, seg: TcpSegment, now: real): (r: Reply)
    ensures SameLink(c, r.conn)
  {
    if IsNewAck(c, seg) then Reply(GrowOnAck(c, seg, now), None)
    else if IsDuplicateAck(c, seg) then CountDuplicate(c)
    else Reply(c, None)
  }

  /** The sequence number just behind a FIN. */
  function AfterFin(seg: TcpSegment): u32 {
    SeqAdd(SeqAdd(seg.header.seqNum, |seg.payload|), 1)
  }

  /** Inserting a payload; the acknowledgement number follows the receive buffer. */
  function TakePayload(c: Conn, seg: TcpSegment): (r: Conn)
    ensures SameLink(c, r)
  {
    if seg.payload == [] || c.recv.None? then c
    else
      var rb := c.recv.value.Insert(seg.header.seqNum, seg.payload);
      c.(recv := Some(rb)).WithRcvNxt(rb.nxt)
  }

  /** The payload and FIN part of `handle_established`. */
  function DataEstablished(c: Conn, seg: TcpSegment): (r: Reply)
    ensures SameLink(c, r.conn)
  {
    var c1 := TakePayload(c, seg);
    if seg.header.flags.fin then
      var c2 := c1.WithRcvNxt(AfterFin(seg)).In(CloseWait);
      Reply(c2, Some(c2.BuildAck()))
    else if seg.payload != [] then Reply(c1, Some(c1.BuildAck()))
    else Reply(c1, None)
  }

  function HandleEstablished(c: Conn, seg: TcpSegment, now: real): (r: Reply)
    ensures SameLink(c, r.conn)
  {
    if seg.header.flags.rst then Reply(c.In(Closed), None)
    else
      var a := AckEstablished(c, seg, now);
      if a.out.Some? then a else DataEstablished(a.conn, seg)
  }

  function HandleCloseWait(c: Conn, seg: TcpSegment): (r: Reply)
    ensures SameLink(c, r.conn)
  {
    if seg.header.flags.rst then Reply(c.In(Closed), None) else Reply(c, None)
  }

  function EnterTimeWait(c: Conn, now: real): (r: Conn)
    ensures SameLink(c, r)
  {
    c.In(TimeWait).(timeWaitStart := Some(now))
  }

  function HandleFinWait1(c: Conn, seg: TcpSegment, now: real): (r: Reply)
    ensures SameLink(c, r.conn)
  {
    if seg.header.flags.rst then Reply(c.In(Closed), None)
    else
      var c1 := if IsNewAck(c, seg) then TakeAck(c, seg, now) else c;
      var finAcked := IsNewAck(c, seg) && SeqLe(c.tcb.snd.nxt, seg.header.ackNum);
      if finAcked && seg.header.flags.fin then
        var c2 := EnterTimeWait(c1.WithRcvNxt(AfterFin(seg)), now);
        Reply(c2, Some(c2.BuildAck()))
      else if finAcked then Reply(c1.In(FinWait2), None)
      else if seg.header.flags.fin then
        var c2 := c1.WithRcvNxt(AfterFin(seg)).In(Closing);
        Reply(c2, Some(c2.BuildAck()))
      else Reply(c1, None)
  }

  function HandleFinWait2(c: Conn, seg: TcpSegment, now: real): (r: Reply)
    ensures SameLink(c, r.conn)
  {
    if seg.header.flags.rst then Reply(c.In(Closed), None)
    else if seg.header.flags.fin then
      var c1 := EnterTimeWait(c.WithRcvNxt(AfterFin(seg)), now);
      Reply(c1, Some(c1.BuildAck()))
    else Reply(c, None)
  }

  function HandleClosing(c: Conn, seg: TcpSegment, now: real): (r: Reply)
    ensures SameLink(c, r.conn)
  {
    if seg.header.flags.rst then Reply(c.In(Closed), None)
    else if IsNewAck(c, seg) then Reply(EnterTimeWait(c.WithUna(seg.header.ackNum), now), None)
    else Reply(c, None)
  }

  function HandleLastAck(c: Conn, seg: TcpSegment): (r: Reply)
    ensures SameLink(c, r.conn)
  {
    if seg.header.flags.rst then Reply(c.In(Closed), None)
    else if IsNewAck(c, seg) then Reply(c.WithUna(seg.header.ackNum).In(Closed), None)
    else Reply(c, None)
  }

  function HandleTimeWait(c: Conn, seg: TcpSegment): (r: Reply)
    ensures SameLink(c, r.conn)
  {
    if seg.header.flags.fin then Reply(c, Some(c.BuildAck())) else Reply(c, None)
  }

  function ProcessSegment(c: Conn, seg: TcpSegment, now: real): (r: Reply)
    ensures SameLink(c, r.conn)
  {
    match c.tcb.state
    case Listen => HandleListen(c, seg)
    case SynReceived => HandleSynReceived(c, seg)
    case Established => HandleEstablished(c, seg, now)
    case CloseWait => HandleCloseWait(c, seg)
    case FinWait1 => HandleFinWait1(c, seg, now)
    case FinWait2 => HandleFinWait2(c, seg, now)
    case Closing => HandleClosing(c, seg, now)
    case LastAck => HandleLastAck(c, seg)
    case TimeWait => HandleTimeWait(c, seg)
    case SynSent => HandleSynSent(c, seg)
    case Closed => Reply(c, None)
  }

  function InFlight(c: Conn): u32 { SeqSub(c.tcb.snd.nxt, c.tcb.snd.una) }

  function EffectiveWindow(c: Conn): u32 { Min(c.tcb.cwnd, c.tcb.snd.wnd) }

  /** Sends the next `n`-byte piece of unsent data without queueing it. */
  function Emit(c: Conn, n: nat): (r: Conn)
    ensures SameLink(c, r)
  {
    var send := c.send.AdvanceNxt(n);
    c.(send := send).WithSndNxt(send.nxt)
  }

  function NextSegmentToSend(c: Conn, maxPayload: nat, now: real): (r: Reply)
    ensures SameLink(c, r.conn)
  {
    if InFlight(c) >= EffectiveWindow(c) then Reply(c, None)
    else
      match c.send.NextSegment(Min(maxPayload, EffectiveWindow(c) - InFlight(c)))
      case None => Reply(c, None)
      case Some(piece) =>
        var c1 := Emit(c.(rtx := c.rtx.Push(piece.0, piece.1, now)), |piece.1|);
        Reply(c1, Some(c1.BuildData(piece.0, piece.1, true)))
  }

  function ZeroWindowProbe(c: Conn): (r: Reply)
    ensures SameLink(c, r.conn)
  {
    if c.tcb.state != Established || c.tcb.snd.wnd != 0 then Reply(c, None)
    else
      match c.send.NextSegment(1)
      case None => Reply(c, None)
      case Some(piece) =>
        var c1 := Emit(c, 1);
        Reply(c1, Some(c1.BuildData(piece.0, piece.1, false)))
  }

  function BuildAll(c: Conn, pieces: seq<(u32, seq<u8>)>): (r: seq<Builder>)
    ensures |r| == |pieces|
    ensures forall i :: 0 <= i < |r| ==> r[i] == c.BuildData(pieces[i].0, pieces[i].1, true)
  {
    seq(|pieces|, i requires 0 <= i < |pieces| =>
      c.BuildData(pieces[i].0, pieces[i].1, true))
  }

  /** The state after the retransmission timer was examined. */
  function AfterTimer(c: Conn, now: real): (r: Conn)
    ensures SameLink(c, r)
  {
    var c1 := c.(rtx := c.rtx.AfterExpiry(now));
    if c.rtx.Expired(now) == [] then c1 else c1.WithWindow(MSS, HalvedWindow(c.tcb.cwnd))
  }

  /** `take_retransmits`, its segments. */
  function Retransmits(c: Conn, now: real): seq<Builder> {
    BuildAll(AfterTimer(c, now), c.rtx.Expired(now))
  }

  function InitiateClose(c: Conn): (r: Reply)
    ensures SameLink(c, r.conn)
  {
    match c.tcb.state
    case Established =>
      Reply(c.WithSndNxt(SeqAdd(c.tcb.snd.nxt, 1)).In(FinWait1), Some(c.BuildFinAck()))
    case CloseWait =>
      Reply(c.WithSndNxt(SeqAdd(c.tcb.snd.nxt, 1)).In(LastAck), Some(c.BuildFinAck()))
    case _ => Reply(c, None)
  }

  function Connect(c: Conn): (r: Reply)
    ensures SameLink(c, r.conn)
  {
    if c.tcb.state != Closed then Reply(c, None)
    else Reply(c.WithSndNxt(SeqAdd(c.tcb.snd.iss, 1)).In(SynSent), Some(c.BuildSyn()))
  }

  predicate TimeWaitOver(c: Conn, now: real) {
    && c.tcb.state == TimeWait && c.timeWaitStart.Some?
    && Since(now, c.timeWaitStart.value) >= TWO_MSL
  }

  function TickTimeWait(c: Conn, now: real): (r: Conn)
    ensures SameLink(c, r)
  {
    if TimeWaitOver(c, now) then c.In(Closed) else c
  }

  function Available(c: Conn): nat {
    match c.recv
    case Some(rb) => |rb.data|
    case None => 0
  }

  /** `read_received` into a buffer of `n` bytes: what is delivered. */
  function Readable(c: Conn, n: nat): seq<u8> {
    match c.recv
    case Some(rb) => rb.data[..Min(n, |rb.data|)]
    case None => []
  }

  function AfterRead(c: Conn, n: nat): (r: Conn)
    ensures SameLink(c, r)
  {
    match c.recv
    case Some(rb) => c.(recv := Some(rb.Read(Min(n, |rb.data|))))
    case None => c
  }

  function WriteData(c: Conn, data: seq<u8>): (r: Conn)
    ensures SameLink(c, r)
  { c.(send := c.send.Write(data)) }
}
