/** One connection together with everything that can happen to it: the arms of its event loop
    (task.rs) as events, and the history that the theorems speak about. */
module Endpoints {
  import opened SeqArith
  import opened TcpHeaders
  import opened Tcbs
  import opened ConnectionSpec

  datatype Event =
    | Deliver(seg: TcpSegment, now: real)
    | Write(data: seq<u8>)
    | Send(maxPayload: nat, now: real)
    | Retransmit(now: real)
    | Probe
    | Close
    | Open
    | Read(n: nat)
    | Tick(now: real)

  datatype Effect = Effect(conn: Conn, out: seq<Builder>)

  function OneOrNone(r: Reply): Effect {
    Effect(r.conn, if r.out.Some? then [r.out.value] else [])
  }

  /** What an event does to the connection and what it transmits. */
  function Perform(c: Conn, ev: Event): (r: Effect)
    ensures SameLink(c, r.conn)
  {
    match ev
    case Deliver(seg, now) => OneOrNone(ProcessSegment(c, seg, now))
    case Write(data) => Effect(WriteData(c, data), [])
    case Send(maxPayload, now) => OneOrNone(NextSegmentToSend(c, maxPayload, now))
    case Retransmit(now) => Effect(AfterTimer(c, now), Retransmits(c, now))
    case Probe => OneOrNone(ZeroWindowProbe(c))
    case Close => OneOrNone(InitiateClose(c))
    case Open => OneOrNone(Connect(c))
    case Read(n) => Effect(AfterRead(c, n), [])
    case Tick(now) => Effect(TickTimeWait(c, now), [])
  }

  /** History beside the connection: all bytes accepted by `write_data`, all bytes handed out by
      `read_received`, how many stream bytes were transmitted for the first time, and the
      unwrapped positions of `snd.una` and `snd.nxt` (the SYN is at -1). */
  datatype Endpoint = Endpoint(
    conn: Conn, written: seq<u8>, read: seq<u8>, sent: nat, una: int, nxt: int)
  {
    /** The sequence number of stream position 0. */
    function Base(): u32 { SeqAdd(conn.tcb.snd.iss, 1) }

    /** How many stream bytes have left the send ring. */
    function Discarded(): int { |written| - |conn.send.data| }

    /** How many bytes of the peer's stream have been put in order. */
    function Received(): nat { |read| + Available(conn) }
  }

  /** The distance between two sequence numbers, taken as signed 32-bit. */
  function Distance(x: u32, y: u32): int {
    if x == y then 0
    else if SeqSub(x, y) < 0x8000_0000 then SeqSub(x, y)
    else SeqSub(x, y) - 0x1_0000_0000
  }

  lemma DistancePositions(base: u32, p: int, q: int)
    requires -0x8000_0000 <= p - q < 0x8000_0000
    ensures Distance(SeqAdd(base, p), SeqAdd(base, q)) == p - q
  {
    SeqSubPositions(base, q, p);
  }

  lemma DistanceAdds(x: u32, y: u32)
    ensures SeqAdd(y, Distance(x, y)) == x
  {}

  /** A word that moved from position `p` has moved to position `p + Distance`. */
  lemma Unwrap(base: u32, p: int, x: u32, y: u32)
    requires y == SeqAdd(base, p)
    ensures x == SeqAdd(base, p + Distance(x, y))
  {
    DistanceAdds(x, y);
    SeqAddAdd(base, p, Distance(x, y));
  }

  function Written(c: Conn, ev: Event): seq<u8> {
    if ev.Write? then ev.data[..c.send.Accepts(ev.data)] else []
  }

  function Delivered(c: Conn, ev: Event): seq<u8> {
    if ev.Read? then Readable(c, ev.n) else []
  }

  function FirstSent(ev: Event, out: seq<Builder>): nat {
    if (ev.Send? || ev.Probe?) && out != [] then |out[0].payload| else 0
  }

  /** The endpoint with a new connection state; the unwrapped positions follow the words. */
  function Moved(e: Endpoint, c': Conn): Endpoint {
    e.(conn := c',
       una := e.una + Distance(c'.tcb.snd.una, e.conn.tcb.snd.una),
       nxt := e.nxt + Distance(c'.tcb.snd.nxt, e.conn.tcb.snd.nxt))
  }

  function Next(e: Endpoint, ev: Event): (e': Endpoint)
    ensures e'.Base() == e.Base()
  {
    var r := Perform(e.conn, ev);
    Moved(e, r.conn).(written := e.written + Written(e.conn, ev),
                      read := e.read + Delivered(e.conn, ev),
                      sent := e.sent + FirstSent(ev, r.out))
  }

  function Outputs(e: Endpoint, ev: Event): seq<Builder> {
    Perform(e.conn, ev).out
  }

  /** A connection object nobody has used, made by either constructor of the control block. */
  predicate Fresh(e: Endpoint) {
    var t := e.conn.tcb;
    && (t == NewForListen(t.localIp, t.localPort, t.remoteIp, t.remotePort, t.snd.iss)
        || t == NewForConnect(t.localIp, t.localPort, t.remoteIp, t.remotePort, t.snd.iss))
    && e == Endpoint(NewConn(t), [], [], 0, -1, -1)
  }

  /** `connect` is used at most on a connection that has never heard from a peer. */
  predicate Proper(e: Endpoint, ev: Event) {
    ev.Open? ==> e.conn.recv.None?
  }

  /** Before any SYN exchange is over. */
  predicate Opening(c: Conn) {
    c.tcb.state in {Listen, SynSent, SynReceived} || (c.tcb.state == Closed && c.recv.None?)
  }

  /** Data flows in both directions or only towards the peer. */
  predicate Transferring(c: Conn) { c.tcb.state in {Established, CloseWait} }

  function Exec(e: Endpoint, evs: seq<Event>): (e': Endpoint)
    decreases |evs|
  {
    if evs == [] then e else Exec(Next(e, evs[0]), evs[1..])
  }

  /** Every event of a run satisfies `rule` in the state in which it happens. */
  predicate Obeys(e: Endpoint, evs: seq<Event>, rule: (Endpoint, Event) -> bool)
    decreases |evs|
  {
    evs == [] || (rule(e, evs[0]) && Obeys(Next(e, evs[0]), evs[1..], rule))
  }

  /** Everything a run transmits, in order. */
  function AllOutputs(e: Endpoint, evs: seq<Event>): seq<Builder>
    decreases |evs|
  {
    if evs == [] then [] else Outputs(e, evs[0]) + AllOutputs(Next(e, evs[0]), evs[1..])
  }

  /** Runs compose. */
  lemma {:induction false} RunsCompose(e: Endpoint, evs: seq<Event>, more: seq<Event>,
                                       rule: (Endpoint, Event) -> bool)
    ensures Exec(e, evs + more) == Exec(Exec(e, evs), more)
    ensures AllOutputs(e, evs + more) == AllOutputs(e, evs) + AllOutputs(Exec(e, evs), more)
    ensures Obeys(e, evs + more, rule) <==>
              Obeys(e, evs, rule) && Obeys(Exec(e, evs), more, rule)
    decreases |evs|
  {
    hide Perform;
    if evs == [] {
      assert evs + more == more;
    } else {
      assert (evs + more)[1..] == evs[1..] + more;
      RunsCompose(Next(e, evs[0]), evs[1..], more, rule);
    }
  }

  lemma OneEvent(e: Endpoint, ev: Event, rule: (Endpoint, Event) -> bool)
    ensures Exec(e, [ev]) == Next(e, ev) && AllOutputs(e, [ev]) == Outputs(e, ev)
    ensures Obeys(e, [ev], rule) <==> rule(e, ev)
  {
    hide Perform;
    assert [ev][1..] == [];
    assert Outputs(e, ev) + [] == Outputs(e, ev);
  }
}
