/** The `Connection` object (connection.rs).  Every method is proved to leave the state, and to
    return the segment, that the function of the same name in ConnectionSpec gives.  Segments are
    returned as filled builders; TcpHeader.dfy says which bytes those are. */
module Connections {
  import opened SeqArith
  import opened TcpHeaders
  import opened Tcbs
  import opened SendBuffers
  import opened RecvBuffers
  import opened RetransmitQueues
  import Spec = ConnectionSpec

  class Connection {
    var tcb: Tcb
    const sendBuf: SendBuffer
    var recvBuf: RecvBuffer?
    const retransmitQueue: RetransmitQueue
    var timeWaitStart: Option<real>

    ghost function Repr(): set<object>
      reads this
    {
      {this, sendBuf, sendBuf.buf, retransmitQueue}
      + (if recvBuf == null then {} else {recvBuf, recvBuf.buf})
    }

    ghost predicate Valid()
      reads this, Repr()
    {
      && sendBuf.Valid()
      && (recvBuf != null ==> recvBuf.Valid() && recvBuf.buf != sendBuf.buf)
    }

    ghost function View(): Spec.Conn
      reads this, Repr()
      requires Valid()
    {
      Spec.Conn(tcb, sendBuf.View(),
                if recvBuf == null then None else Some(recvBuf.View()),
                retransmitQueue.View(), timeWaitStart)
    }

    constructor (tcb: Tcb)
      ensures Valid() && fresh(Repr())
      ensures View() == Spec.NewConn(tcb)
    {
      sendBuf := new SendBuffer(tcb.snd.iss);
      retransmitQueue := new RetransmitQueue();
      recvBuf := null;
      timeWaitStart := None;
      this.tcb := tcb;
    }

    method ProcessSegment(seg: TcpSegment, now: real) returns (out: Option<Builder>)
      requires Valid()
      modifies Repr()
      ensures Valid() && fresh(Repr() - old(Repr()))
      ensures Spec.Reply(View(), out) == Spec.ProcessSegment(old(View()), seg, now)
    {
      match tcb.state
      case Listen => out := HandleListen(seg);
      case SynReceived => out := HandleSynReceived(seg);
      case Established => out := HandleEstablished(seg, now);
      case CloseWait => out := HandleCloseWait(seg);
      case FinWait1 => out := HandleFinWait1(seg, now);
      case FinWait2 => out := HandleFinWait2(seg, now);
      case Closing => out := HandleClosing(seg, now);
      case LastAck => out := HandleLastAck(seg);
      case TimeWait => out := HandleTimeWait(seg);
      case SynSent => out := HandleSynSent(seg);
      case Closed => out := None;
    }

    method WriteData(data: seq<u8>) returns (n: nat)
      requires Valid()
      modifies sendBuf, sendBuf.buf
      ensures Valid()
      ensures n == old(View()).send.Accepts(data)
      ensures View() == Spec.WriteData(old(View()), data)
    {
      n := sendBuf.Write(data);
    }

    method NextSegmentToSend(maxPayload: nat, now: real) returns (out: Option<Builder>)
      requires Valid()
      modifies `tcb, sendBuf`nxt, retransmitQueue
      ensures Valid()
      ensures Spec.Reply(View(), out) == Spec.NextSegmentToSend(old(View()), maxPayload, now)
    {
      hide SeqAdd, SeqSub, SendState.NextSegment, RtxState.Push;
      var sndWnd := tcb.snd.wnd;
      var effectiveWindow := Min(tcb.cwnd, sndWnd);
      var inflight := SeqSub(tcb.snd.nxt, tcb.snd.una);
      if inflight >= effectiveWindow {
        return None;
      }
      var windowAvail := effectiveWindow - inflight;
      var maxLen := Min(maxPayload, windowAvail);
      var piece := sendBuf.NextSegment(maxLen);
      if piece.None? {
        return None;
      }
      var (s, payload) := piece.value;
      sendBuf.AdvanceNxt(|payload|);
      retransmitQueue.Push(s, payload, now);
      SetSndNxt(sendBuf.nxt);
      out := Some(BuildData(s, payload, true));
    }

    method ReadReceived(buf: array<u8>) returns (n: nat)
      requires Valid() && buf !in Repr()
      modifies recvBuf, buf
      ensures Valid()
      ensures n == |Spec.Readable(old(View()), buf.Length)|
      ensures buf[..n] == Spec.Readable(old(View()), buf.Length)
      ensures View() == Spec.AfterRead(old(View()), buf.Length)
    {
      if recvBuf == null {
        return 0;
      }
      n := recvBuf.Read(buf);
    }

    method ReceivedAvailable() returns (n: nat)
      requires Valid()
      ensures n == Spec.Available(View())
    {
      n := if recvBuf == null then 0 else recvBuf.len;
    }

    method TakeRetransmits(now: real) returns (segments: seq<Builder>)
      requires Valid()
      modifies `tcb, retransmitQueue
      ensures Valid()
      ensures segments == Spec.Retransmits(old(View()), now)
      ensures View() == Spec.AfterTimer(old(View()), now)
    {
      var expired := retransmitQueue.ExpiredSegments(now);
      if expired != [] {
        tcb := tcb.(ssthresh := Max(tcb.cwnd / 2, 2 * MSS));
        tcb := tcb.(cwnd := MSS);
      }
      segments := [];
      for i := 0 to |expired|
        invariant segments == Spec.BuildAll(View(), expired)[..i]
      {
        segments := segments + [BuildData(expired[i].0, expired[i].1, true)];
      }
    }

    method InitiateClose() returns (out: Option<Builder>)
      requires Valid()
      modifies `tcb
      ensures Valid()
      ensures Spec.Reply(View(), out) == Spec.InitiateClose(old(View()))
    {
      match tcb.state {
        case Established =>
          out := Some(BuildFinAck());
          SetSndNxt(SeqAdd(tcb.snd.nxt, 1));
          tcb := tcb.(state := FinWait1);
        case CloseWait =>
          out := Some(BuildFinAck());
          SetSndNxt(SeqAdd(tcb.snd.nxt, 1));
          tcb := tcb.(state := LastAck);
        case _ => out := None;
      }
    }

    method TickTimeWait(now: real) returns (expired: bool)
      requires Valid()
      modifies `tcb
      ensures Valid()
      ensures expired == Spec.TimeWaitOver(old(View()), now)
      ensures View() == Spec.TickTimeWait(old(View()), now)
    {
      if tcb.state != TimeWait {
        return false;
      }
      if timeWaitStart.Some? && Since(now, timeWaitStart.value) >= Spec.TWO_MSL {
        tcb := tcb.(state := Closed);
        return true;
      }
      expired := false;
    }

    method Connect() returns (out: Option<Builder>)
      requires Valid()
      modifies `tcb
      ensures Valid()
      ensures Spec.Reply(View(), out) == Spec.Connect(old(View()))
    {
      if tcb.state != Closed {
        return None;
      }
      out := Some(Blank().(seqNum := tcb.snd.iss, flags := NO_FLAGS.(syn := true)));
      SetSndNxt(SeqAdd(tcb.snd.iss, 1));
      tcb := tcb.(state := SynSent);
    }

    method ZeroWindowProbe() returns (out: Option<Builder>)
      requires Valid()
      modifies `tcb, sendBuf`nxt
      ensures Valid()
      ensures Spec.Reply(View(), out) == Spec.ZeroWindowProbe(old(View()))
    {
      if tcb.state != Established || tcb.snd.wnd != 0 {
        return None;
      }
      var piece := sendBuf.NextSegment(1);
      if piece.None? {
        return None;
      }
      var (s, payload) := piece.value;
      sendBuf.AdvanceNxt(1);
      SetSndNxt(sendBuf.nxt);
      out := Some(BuildData(s, payload, false));
    }

    method HandleListen(seg: TcpSegment) returns (out: Option<Builder>)
      requires Valid()
      modifies `tcb, `recvBuf
      ensures Valid() && fresh(Repr() - old(Repr()))
      ensures Spec.Reply(View(), out) == Spec.HandleListen(old(View()), seg)
    {
      if seg.header.flags.rst {
        return None;
      }
      if seg.header.flags.ack {
        return Some(BuildRst(seg.header.ackNum));
      }
      if !seg.header.flags.syn {
        return None;
      }
      Synchronise(seg.header.seqNum);
      tcb := tcb.(rcv := tcb.rcv.(wnd := seg.header.window));
      SetSndNxt(SeqAdd(tcb.snd.iss, 1));
      tcb := tcb.(state := SynReceived);
      out := Some(BuildSynAck());
    }

    method HandleSynSent(seg: TcpSegment) returns (out: Option<Builder>)
      requires Valid()
      modifies `tcb, `recvBuf
      ensures Valid() && fresh(Repr() - old(Repr()))
      ensures Spec.Reply(View(), out) == Spec.HandleSynSent(old(View()), seg)
    {
      if seg.header.flags.rst {
        tcb := tcb.(state := Closed);
        return None;
      }
      if seg.header.flags.syn && seg.header.flags.ack {
        if !AckAcceptable(tcb.snd.una, seg.header.ackNum, tcb.snd.nxt) {
          return Some(BuildRst(seg.header.ackNum));
        }
        tcb := tcb.(snd := tcb.snd.(una := seg.header.ackNum, wnd := seg.header.window));
        Synchronise(seg.header.seqNum);
        tcb := tcb.(state := Established);
        return Some(BuildAck());
      }
      if seg.header.flags.syn {
        Synchronise(seg.header.seqNum);
        tcb := tcb.(snd := tcb.snd.(wnd := seg.header.window));
        tcb := tcb.(state := SynReceived);
        return Some(BuildSynAck());
      }
      out := None;
    }

    method HandleSynReceived(seg: TcpSegment) returns (out: Option<Builder>)
      requires Valid()
      modifies `tcb, sendBuf`head, sendBuf`len, sendBuf`una
      ensures Valid()
      ensures Spec.Reply(View(), out) == Spec.HandleSynReceived(old(View()), seg)
    {
      if seg.header.flags.rst {
        tcb := tcb.(state := Listen);
        return None;
      }
      if seg.header.flags.syn && !seg.header.flags.ack && seg.header.seqNum == tcb.rcv.irs {
        return Some(BuildSynAck());
      }
      if !seg.header.flags.ack {
        return None;
      }
      if !AckAcceptable(tcb.snd.una, seg.header.ackNum, tcb.snd.nxt) {
        return Some(BuildRst(seg.header.ackNum));
      }
      tcb := tcb.(snd := tcb.snd.(una := seg.header.ackNum));
      sendBuf.Acknowledge(seg.header.ackNum);
      tcb := tcb.(snd := tcb.snd.(wnd := seg.header.window));
      tcb := tcb.(state := Established);
      out := None;
    }

    method HandleEstablished(seg: TcpSegment, now: real) returns (out: Option<Builder>)
      requires Valid()
      modifies Repr()
      ensures Valid() && recvBuf == old(recvBuf)
      ensures Spec.Reply(View(), out) == Spec.HandleEstablished(old(View()), seg, now)
    {
      if seg.header.flags.rst {
        tcb := tcb.(state := Closed);
        return None;
      }
      if seg.header.flags.ack {
        out := AckEstablished(seg, now);
        if out.Some? {
          return;
        }
      }
      out := DataEstablished(seg);
    }

    method AckEstablished(seg: TcpSegment, now: real) returns (out: Option<Builder>)
      requires Valid() && seg.header.flags.ack
      modifies `tcb, sendBuf`head, sendBuf`len, sendBuf`una, retransmitQueue
      ensures Valid()
      ensures Spec.Reply(View(), out) == Spec.AckEstablished(old(View()), seg, now)
    {
      hide SeqAdd, SeqSub, AckAcceptable, Spec.GrowOnAck, Spec.CountDuplicate;
      out := None;
      var newAck := seg.header.ackNum;
      if AckAcceptable(tcb.snd.una, newAck, tcb.snd.nxt) {
        GrowOnAck(seg, now);
      } else if newAck == tcb.snd.una && tcb.snd.una != tcb.snd.nxt {
        out := CountDuplicate();
      }
    }

    /** The branch for a new acknowledgement. */
    method GrowOnAck(seg: TcpSegment, now: real)
      requires Valid()
      modifies `tcb, sendBuf`head, sendBuf`len, sendBuf`una, retransmitQueue
      ensures Valid()
      ensures View() == Spec.GrowOnAck(old(View()), seg, now)
    {
      hide SeqAdd, SeqSub, SendState.Acknowledge, RtxState.Acknowledge;
      var newAck := seg.header.ackNum;
      var bytesAcked := SeqSub(newAck, tcb.snd.una);
      if tcb.cwnd < tcb.ssthresh {
        tcb := tcb.(cwnd := Spec.SaturatingAdd(tcb.cwnd, Min(bytesAcked, MSS)));
      } else {
        tcb := tcb.(cwnd := Spec.SaturatingAdd(tcb.cwnd, MSS * MSS / tcb.cwnd));
      }
      tcb := tcb.(snd := tcb.snd.(una := newAck));
      sendBuf.Acknowledge(newAck);
      retransmitQueue.AcknowledgeAndSampleRtt(newAck, now);
      tcb := tcb.(snd := tcb.snd.(wnd := seg.header.window));
      tcb := tcb.(dupAckCount := 0);
    }

    /** The branch for a duplicate. */
    method CountDuplicate() returns (out: Option<Builder>)
      requires Valid()
      modifies `tcb
      ensures Valid()
      ensures Spec.Reply(View(), out) == Spec.CountDuplicate(old(View()))
    {
      out := None;
      tcb := tcb.(dupAckCount := Min(tcb.dupAckCount + 1, 255));
      if tcb.dupAckCount == 3 {
        tcb := tcb.(ssthresh := Max(tcb.cwnd / 2, 2 * MSS));
        tcb := tcb.(cwnd := tcb.ssthresh + 3 * MSS);
        out := FastRetransmitSegment();
      } else if tcb.dupAckCount > 3 {
        tcb := tcb.(cwnd := Spec.SaturatingAdd(tcb.cwnd, MSS));
      }
    }

    method DataEstablished(seg: TcpSegment) returns (out: Option<Builder>)
      requires Valid()
      modifies `tcb, recvBuf, if recvBuf == null then {} else {recvBuf.buf}
      ensures Valid()
      ensures Spec.Reply(View(), out) == Spec.DataEstablished(old(View()), seg)
    {
      if seg.payload != [] {
        if recvBuf != null {
          recvBuf.Insert(seg.header.seqNum, seg.payload);
          SetRcvNxt(recvBuf.nxt);
        }
        if !seg.header.flags.fin {
          return Some(BuildAck());
        }
      }
      if seg.header.flags.fin {
        SetRcvNxt(SeqAdd(SeqAdd(seg.header.seqNum, |seg.payload|), 1));
        tcb := tcb.(state := CloseWait);
        return Some(BuildAck());
      }
      out := None;
    }

    method HandleCloseWait(seg: TcpSegment) returns (out: Option<Builder>)
      requires Valid()
      modifies `tcb
      ensures Valid()
      ensures Spec.Reply(View(), out) == Spec.HandleCloseWait(old(View()), seg)
    {
      if seg.header.flags.rst {
        tcb := tcb.(state := Closed);
      }
      out := None;
    }

    method HandleFinWait1(seg: TcpSegment, now: real) returns (out: Option<Builder>)
      requires Valid()
      modifies `tcb, `timeWaitStart, sendBuf`head, sendBuf`len, sendBuf`una, retransmitQueue
      ensures Valid()
      ensures Spec.Reply(View(), out) == Spec.HandleFinWait1(old(View()), seg, now)
    {
      hide SeqAdd, SeqSub, AckAcceptable, SeqLe;
      if seg.header.flags.rst {
        tcb := tcb.(state := Closed);
        return None;
      }
      if seg.header.flags.ack && AckAcceptable(tcb.snd.una, seg.header.ackNum, tcb.snd.nxt) {
        var finAcked := SeqLe(tcb.snd.nxt, seg.header.ackNum);
        tcb := tcb.(snd := tcb.snd.(una := seg.header.ackNum));
        sendBuf.Acknowledge(seg.header.ackNum);
        retransmitQueue.AcknowledgeAndSampleRtt(seg.header.ackNum, now);
        tcb := tcb.(snd := tcb.snd.(wnd := seg.header.window));
        if finAcked && seg.header.flags.fin {
          SetRcvNxt(SeqAdd(SeqAdd(seg.header.seqNum, |seg.payload|), 1));
          tcb := tcb.(state := TimeWait);
          timeWaitStart := Some(now);
          return Some(BuildAck());
        }
        if finAcked {
          tcb := tcb.(state := FinWait2);
          return None;
        }
      }
      if seg.header.flags.fin {
        SetRcvNxt(SeqAdd(SeqAdd(seg.header.seqNum, |seg.payload|), 1));
        tcb := tcb.(state := Closing);
        return Some(BuildAck());
      }
      out := None;
    }

    method HandleFinWait2(seg: TcpSegment, now: real) returns (out: Option<Builder>)
      requires Valid()
      modifies `tcb, `timeWaitStart
      ensures Valid()
      ensures Spec.Reply(View(), out) == Spec.HandleFinWait2(old(View()), seg, now)
    {
      if seg.header.flags.rst {
        tcb := tcb.(state := Closed);
        return None;
      }
      if seg.header.flags.fin {
        SetRcvNxt(SeqAdd(SeqAdd(seg.header.seqNum, |seg.payload|), 1));
        tcb := tcb.(state := TimeWait);
        timeWaitStart := Some(now);
        return Some(BuildAck());
      }
      out := None;
    }

    method HandleClosing(seg: TcpSegment, now: real) returns (out: Option<Builder>)
      requires Valid()
      modifies `tcb, `timeWaitStart
      ensures Valid()
      ensures Spec.Reply(View(), out) == Spec.HandleClosing(old(View()), seg, now)
    {
      out := None;
      if seg.header.flags.rst {
        tcb := tcb.(state := Closed);
        return;
      }
      if seg.header.flags.ack && AckAcceptable(tcb.snd.una, seg.header.ackNum, tcb.snd.nxt) {
        tcb := tcb.(snd := tcb.snd.(una := seg.header.ackNum));
        tcb := tcb.(state := TimeWait);
        timeWaitStart := Some(now);
      }
    }

    method HandleLastAck(seg: TcpSegment) returns (out: Option<Builder>)
      requires Valid()
      modifies `tcb
      ensures Valid()
      ensures Spec.Reply(View(), out) == Spec.HandleLastAck(old(View()), seg)
    {
      out := None;
      if seg.header.flags.rst {
        tcb := tcb.(state := Closed);
        return;
      }
      if seg.header.flags.ack && AckAcceptable(tcb.snd.una, seg.header.ackNum, tcb.snd.nxt) {
        tcb := tcb.(snd := tcb.snd.(una := seg.header.ackNum));
        tcb := tcb.(state := Closed);
      }
    }

    method HandleTimeWait(seg: TcpSegment) returns (out: Option<Builder>)
      requires Valid()
      ensures Spec.Reply(View(), out) == Spec.HandleTimeWait(View(), seg)
    {
      out := None;
      if seg.header.flags.fin {
        out := Some(BuildAck());
      }
    }

    /** The receive side of accepting the peer's SYN. */
    method Synchronise(irs: u32)
      requires Valid()
      modifies `tcb, `recvBuf
      ensures Valid() && fresh(Repr() - old(Repr()))
      ensures View() == old(View()).Synchronised(irs)
    {
      tcb := tcb.(rcv := tcb.rcv.(irs := irs, nxt := SeqAdd(irs, 1)));
      recvBuf := new RecvBuffer(irs);
    }

    method SetSndNxt(nxt: u32)
      requires Valid()
      modifies `tcb
      ensures Valid()
      ensures View() == old(View()).WithSndNxt(nxt)
    {
      tcb := tcb.(snd := tcb.snd.(nxt := nxt));
    }

    method SetRcvNxt(nxt: u32)
      requires Valid()
      modifies `tcb
      ensures Valid()
      ensures View() == old(View()).WithRcvNxt(nxt)
    {
      tcb := tcb.(rcv := tcb.rcv.(nxt := nxt));
    }

    method FastRetransmitSegment() returns (out: Option<Builder>)
      requires Valid()
      ensures out == Spec.FastRetransmitSegment(View())
    {
      var first := retransmitQueue.FirstUnacked();
      match first {
        case None => out := None;
        case Some(e) => out := Some(BuildData(e.0, e.1, true));
      }
    }

    function CurrentWindow(): (w: u16)
      reads this, Repr()
      requires Valid()
      ensures w == View().CurrentWindow()
    {
      if recvBuf == null then 65535 else recvBuf.Window()
    }

    function Blank(): Builder
      reads this
    {
      NewBuilder(tcb.localIp, tcb.remoteIp, tcb.localPort, tcb.remotePort)
    }

    function BuildSynAck(): (b: Builder)
      reads this, Repr()
      requires Valid()
      ensures b == View().BuildSynAck()
    {
      Blank().(seqNum := tcb.snd.iss, ackNum := tcb.rcv.nxt,
               flags := NO_FLAGS.(syn := true, ack := true), window := CurrentWindow())
    }

    function BuildAck(): (b: Builder)
      reads this, Repr()
      requires Valid()
      ensures b == View().BuildAck()
    {
      Blank().(seqNum := tcb.snd.nxt, ackNum := tcb.rcv.nxt,
               flags := NO_FLAGS.(ack := true), window := CurrentWindow())
    }

    function BuildFinAck(): (b: Builder)
      reads this, Repr()
      requires Valid()
      ensures b == View().BuildFinAck()
    {
      Blank().(seqNum := tcb.snd.nxt, ackNum := tcb.rcv.nxt,
               flags := NO_FLAGS.(fin := true, ack := true), window := CurrentWindow())
    }

    function BuildRst(s: u32): (b: Builder)
      reads this, Repr()
      requires Valid()
      ensures b == View().BuildRst(s)
    {
      Blank().(seqNum := s, flags := NO_FLAGS.(rst := true))
    }

    function BuildData(s: u32, payload: seq<u8>, psh: bool): (b: Builder)
      reads this, Repr()
      requires Valid()
      ensures b == View().BuildData(s, payload, psh)
    {
      Blank().(seqNum := s, ackNum := tcb.rcv.nxt,
               flags := NO_FLAGS.(ack := true, psh := psh), window := CurrentWindow(),
               payload := payload)
    }
  }
}
