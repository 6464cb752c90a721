/** Two connections joined by a network that keeps every segment ever sent and delivers any of
    them, any number of times, in any order, or never. */
module Network {
  import opened SeqArith
  import opened TcpHeaders
  import opened Endpoints
  import opened Reassembly
  import opened ReceiveSide
  import opened SendSide

  datatype System = System(x: Endpoint, y: Endpoint, fromX: set<Builder>, fromY: set<Builder>)

  datatype Move = AtX(ev: Event) | AtY(ev: Event)

  ghost function Put(net: set<Builder>, out: seq<Builder>): set<Builder> {
    net + set b | b in out
  }

  ghost function After(s: System, m: Move): System {
    match m
    case AtX(ev) => s.(x := Next(s.x, ev), fromX := Put(s.fromX, Outputs(s.x, ev)))
    case AtY(ev) => s.(y := Next(s.y, ev), fromY := Put(s.fromY, Outputs(s.y, ev)))
  }

  /** Only segments that the peer sent arrive, as they parse on arrival. */
  ghost predicate Arrives(net: set<Builder>, ev: Event) {
    ev.Deliver? ==> exists b :: b in net && ev.seg == b.Received()
  }

  /** What every run obeys: `connect` at most before any contact, the network delivers what was
      sent, and either application writes fewer than 2^31 bytes. */
  ghost predicate Lawful(s: System, m: Move) {
    && (if m.AtX? then Proper(s.x, m.ev) && Arrives(s.fromY, m.ev)
        else Proper(s.y, m.ev) && Arrives(s.fromX, m.ev))
    && |After(s, m).x.written| < 0x8000_0000 && |After(s, m).y.written| < 0x8000_0000
  }

  ghost predicate Started(s: System) {
    Fresh(s.x) && Fresh(s.y) && s.fromX == {} && s.fromY == {}
  }

  ghost function ExecAll(s: System, ms: seq<Move>): (s': System)
    decreases |ms|
  {
    if ms == [] then s else ExecAll(After(s, ms[0]), ms[1..])
  }

  ghost predicate AllObey(s: System, ms: seq<Move>, rule: (System, Move) -> bool)
    decreases |ms|
  {
    ms == [] || (rule(s, ms[0]) && AllObey(After(s, ms[0]), ms[1..], rule))
  }

  /** One direction: what `x` transmitted are pieces of its stream, and `y` hears that stream. */
  ghost predicate Carries(x: Endpoint, fromX: set<Builder>, y: Endpoint) {
    && Inv(x) && Inv(y) && |x.written| < 0x8000_0000
    && (forall b :: b in fromX ==> OutputHolds(x, b))
    && Hears(y, x.Base(), SentPart(x))
  }

  ghost predicate BothCarry(s: System) {
    Carries(s.x, s.fromX, s.y) && Carries(s.y, s.fromY, s.x)
  }

  lemma StartedCarries(s: System)
    requires Started(s)
    ensures BothCarry(s)
  {
    FreshInv(s.x);
    FreshInv(s.y);
  }

  lemma OutputsStay(x: Endpoint, ev: Event, b: Builder)
    requires Inv(x) && OutputHolds(x, b)
    ensures OutputHolds(Next(x, ev), b)
  {
    hide Perform;
    if b.payload != [] {
      PieceKept(x, Next(x, ev), b.seqNum, b.payload);
    }
  }

  lemma BuilderSpeaks(x: Endpoint, b: Builder)
    requires OutputHolds(x, b)
    ensures Speaks(x.Base(), SentPart(x), b.Received())
  {}

  lemma SentPartGrows(x: Endpoint, ev: Event)
    requires Inv(x)
    ensures SentPart(x) <= SentPart(Next(x, ev))
  {
    hide Perform;
  }

  /** The speaking side moves. */
  lemma SpeakerMoves(x: Endpoint, fromX: set<Builder>, y: Endpoint, ev: Event)
    requires Carries(x, fromX, y) && Proper(x, ev) && |Next(x, ev).written| < 0x8000_0000
    ensures Carries(Next(x, ev), Put(fromX, Outputs(x, ev)), y)
  {
    hide Perform;
    var x' := Next(x, ev);
    StepKeeps(x, ev);
    OutputsHold(x, ev);
    forall b | b in fromX ensures OutputHolds(x', b) { OutputsStay(x, ev, b); }
    SentPartGrows(x, ev);
    if y.conn.recv.Some? {
      ConsistentExtends(y.conn.recv.value, x.Base(), SentPart(x), SentPart(x'), y.read);
    }
  }

  /** The hearing side moves. */
  lemma HearerMoves(x: Endpoint, fromX: set<Builder>, y: Endpoint, ev: Event)
    requires Carries(x, fromX, y) && Proper(y, ev) && Arrives(fromX, ev)
    ensures Carries(x, fromX, Next(y, ev))
    ensures y.Received() <= Next(y, ev).Received()
  {
    hide Perform;
    StepKeeps(y, ev);
    if ev.Deliver? {
      var b :| b in fromX && ev.seg == b.Received();
      BuilderSpeaks(x, b);
      DeliverHears(y, x.Base(), SentPart(x), ev.seg, ev.now);
    } else {
      LocalHears(y, x.Base(), SentPart(x), ev);
    }
  }

  lemma StepCarries(s: System, m: Move)
    requires BothCarry(s) && Lawful(s, m)
    ensures BothCarry(After(s, m))
  {
    hide Perform;
    match m
    case AtX(ev) =>
      SpeakerMoves(s.x, s.fromX, s.y, ev);
      HearerMoves(s.y, s.fromY, s.x, ev);
    case AtY(ev) =>
      SpeakerMoves(s.y, s.fromY, s.x, ev);
      HearerMoves(s.x, s.fromX, s.y, ev);
  }

  lemma {:induction false} RunCarries(s: System, ms: seq<Move>)
    requires BothCarry(s) && AllObey(s, ms, Lawful)
    ensures BothCarry(ExecAll(s, ms))
    decreases |ms|
  {
    if ms != [] {
      StepCarries(s, ms[0]);
      RunCarries(After(s, ms[0]), ms[1..]);
    }
  }

  /** What the application at `y` has read, followed by what is buffered for it. */
  function InOrder(y: Endpoint): seq<u8> {
    y.read + (if y.conn.recv.Some? then y.conn.recv.value.data else [])
  }

  /** Exact prefix delivery.  In every state of every run from two fresh connections - through the
      handshake, data transfer in both directions, timer and fast retransmissions, probes, closes
      and resets, over a network that loses, duplicates and reorders - the bytes read plus
      buffered at either end are a prefix of the bytes the other application wrote, and lie
      within what was actually transmitted. */
  lemma PrefixDelivery(s0: System, ms: seq<Move>)
    requires Started(s0) && AllObey(s0, ms, Lawful)
    ensures var s := ExecAll(s0, ms);
            && InOrder(s.y) <= s.x.written && |InOrder(s.y)| <= s.x.sent
            && InOrder(s.x) <= s.y.written && |InOrder(s.x)| <= s.y.sent
  {
    StartedCarries(s0);
    RunCarries(s0, ms);
  }

  /** The same system with the names exchanged. */
  ghost function Mirror(s: System): System { System(s.y, s.x, s.fromY, s.fromX) }

  ghost function MirrorMove(m: Move): Move {
    match m
    case AtX(ev) => AtY(ev)
    case AtY(ev) => AtX(ev)
  }

  ghost function MirrorMoves(ms: seq<Move>): seq<Move> {
    seq(|ms|, i requires 0 <= i < |ms| => MirrorMove(ms[i]))
  }

  /** A rule for one side, imposed on the other. */
  ghost function Flip(rule: (System, Move) -> bool): (System, Move) -> bool {
    (s: System, m: Move) => rule(Mirror(s), MirrorMove(m))
  }

  lemma {:induction false} MirrorRun(s: System, ms: seq<Move>, rule: (System, Move) -> bool)
    ensures ExecAll(Mirror(s), MirrorMoves(ms)) == Mirror(ExecAll(s, ms))
    ensures AllObey(Mirror(s), MirrorMoves(ms), rule) <==> AllObey(s, ms, Flip(rule))
    decreases |ms|
  {
    hide Next, Outputs;
    if ms != [] {
      assert MirrorMoves(ms)[1..] == MirrorMoves(ms[1..]);
      assert After(Mirror(s), MirrorMove(ms[0])) == Mirror(After(s, ms[0]));
      MirrorRun(After(s, ms[0]), ms[1..], rule);
    }
  }

  /** Reached by a run all of whose moves obey the rule. */
  ghost predicate ReachableBy(s0: System, s: System, rule: (System, Move) -> bool) {
    exists ms :: AllObey(s0, ms, rule) && ExecAll(s0, ms) == s
  }

  ghost predicate Reachable(s0: System, s: System) { ReachableBy(s0, s, Lawful) }

  lemma {:induction false} MoveAppends(s: System, ms: seq<Move>, m: Move,
                                       rule: (System, Move) -> bool)
    requires AllObey(s, ms, rule) && rule(ExecAll(s, ms), m)
    ensures AllObey(s, ms + [m], rule)
    ensures ExecAll(s, ms + [m]) == After(ExecAll(s, ms), m)
    decreases |ms|
  {
    hide After;
    if ms == [] {
      assert [m][1..] == [];
    } else {
      assert (ms + [m])[1..] == ms[1..] + [m];
      MoveAppends(After(s, ms[0]), ms[1..], m, rule);
    }
  }

  lemma ReachStart(s: System)
    ensures Reachable(s, s)
  {
    assert AllObey(s, [], Lawful) && ExecAll(s, []) == s;
  }

  lemma ReachStepBy(s0: System, s: System, m: Move, rule: (System, Move) -> bool)
    requires ReachableBy(s0, s, rule) && rule(s, m)
    ensures ReachableBy(s0, After(s, m), rule)
  {
    hide After;
    var ms :| AllObey(s0, ms, rule) && ExecAll(s0, ms) == s;
    MoveAppends(s0, ms, m, rule);
  }

  lemma ReachStep(s0: System, s: System, m: Move)
    requires Reachable(s0, s) && Lawful(s, m)
    ensures Reachable(s0, After(s, m))
  {
    hide After;
    ReachStepBy(s0, s, m, Lawful);
  }

  lemma LawfulMirror(s: System, m: Move)
    requires Lawful(s, m)
    ensures Lawful(Mirror(s), MirrorMove(m))
  {
    hide Next, Outputs;
  }

  lemma {:induction false} AllLawfulMirror(s: System, ms: seq<Move>)
    requires AllObey(s, ms, Lawful)
    ensures AllObey(s, ms, Flip(Lawful))
    decreases |ms|
  {
    hide Lawful, After;
    if ms != [] {
      LawfulMirror(s, ms[0]);
      AllLawfulMirror(After(s, ms[0]), ms[1..]);
    }
  }

  lemma ReachMirror(s0: System, s: System)
    requires Reachable(s0, s)
    ensures Reachable(Mirror(s0), Mirror(s))
  {
    hide Lawful;
    var ms :| AllObey(s0, ms, Lawful) && ExecAll(s0, ms) == s;
    AllLawfulMirror(s0, ms);
    MirrorRun(s0, ms, Lawful);
  }
}
