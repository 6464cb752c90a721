/** The transmission control block (tcb.rs).  `generate_isn` is a parameter. */
module Tcbs {
  import opened SeqArith
  import opened Wire

  datatype TcbState =
    | Listen | SynSent | SynReceived | Established | FinWait1 | FinWait2
    | CloseWait | Closing | LastAck | TimeWait | Closed

  datatype SendSequence = SendSequence(una: u32, nxt: u32, wnd: u16, iss: u32)

  datatype RecvSequence = RecvSequence(nxt: u32, wnd: u16, irs: u32)

  /** A congestion window: a 32-bit word, never zero.  It is divided by (connection.rs:335); it starts at
      one segment, and every assignment is proved to keep it in this type. */
  type Window = x: int | 0 < x < 0x1_0000_0000 witness 1460

  datatype Tcb = Tcb(
    state: TcbState, localIp: Ip, localPort: u16, remoteIp: Ip, remotePort: u16,
    snd: SendSequence, rcv: RecvSequence, cwnd: Window, ssthresh: u32, dupAckCount: u8)

  function NewTcb(state: TcbState, localIp: Ip, localPort: u16, remoteIp: Ip, remotePort: u16,
                  iss: u32): Tcb {
    Tcb(state, localIp, localPort, remoteIp, remotePort,
        SendSequence(iss, iss, 65535, iss), RecvSequence(0, 65535, 0), 1460, 65535, 0)
  }

  function NewForListen(localIp: Ip, localPort: u16, remoteIp: Ip, remotePort: u16, iss: u32): Tcb {
    NewTcb(Listen, localIp, localPort, remoteIp, remotePort, iss)
  }

  function NewForConnect(localIp: Ip, localPort: u16, remoteIp: Ip, remotePort: u16, iss: u32): Tcb {
    NewTcb(Closed, localIp, localPort, remoteIp, remotePort, iss)
  }
}
