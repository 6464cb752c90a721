/** Two connections of this code never overlap their own segments: whatever one of them transmits is
    cut once and for all, so the peer's receive buffer reassembles exactly what has arrived. */
module EndToEnd {
  import opened SeqArith
  import opened TcpHeaders
  import opened Tcbs
  import opened RecvBuffers
  import opened RetransmitQueues
  import opened ConnectionSpec
  import opened Endpoints
  import opened Completeness
  import opened ReceiveSide
  import opened SendSide
  import opened Network
  import opened FlowControl
  import opened Overrun
  import Agreement
  import Ring

  /** The positions between which the stream was cut so far. */
  ghost predicate Bounds(e: Endpoint, bounds: seq<nat>) {
    && 0 < |bounds| && bounds[0] == 0 && bounds[|bounds| - 1] == e.sent <= |e.written|
    && (forall i, j :: 0 <= i < j < |bounds| ==> bounds[i] < bounds[j])
  }

  /** `d`, numbered `s`, is the piece between two neighbouring positions. */
  ghost predicate PieceAt(e: Endpoint, bounds: seq<nat>, s: u32, d: seq<u8>, i: nat) {
    && i + 1 < |bounds| && bounds[i] <= bounds[i + 1] <= |e.written|
    && s == SeqAdd(e.Base(), bounds[i]) && d == e.written[bounds[i]..bounds[i + 1]]
  }

  ghost predicate IsPiece(e: Endpoint, bounds: seq<nat>, s: u32, d: seq<u8>) {
    exists i: nat :: PieceAt(e, bounds, s, d, i)
  }

  ghost predicate CutHolds(e: Endpoint, bounds: seq<nat>) {
    Bounds(e, bounds) && forall x :: x in e.conn.rtx.entries ==> IsPiece(e, bounds, x.seqNum, x.data)
  }

  /** A first transmission makes a new cut. */
  ghost function Extend(bounds: seq<nat>, sent: nat): seq<nat> {
    if bounds != [] && bounds[|bounds| - 1] == sent then bounds else bounds + [sent]
  }

  lemma PieceStaysPiece(e: Endpoint, e': Endpoint, bounds: seq<nat>, bounds': seq<nat>, s: u32,
                        d: seq<u8>)
    requires IsPiece(e, bounds, s, d) && bounds <= bounds'
    requires e.Base() == e'.Base() && e.written <= e'.written
    ensures IsPiece(e', bounds', s, d)
  {
    var i: nat :| PieceAt(e, bounds, s, d, i);
    assert e'.written[bounds[i]..bounds[i + 1]] == e.written[bounds[i]..bounds[i + 1]];
    assert PieceAt(e', bounds', s, d, i);
  }

  lemma LastPiece(e: Endpoint, e': Endpoint, bounds: seq<nat>, s: u32, d: seq<u8>)
    requires Bounds(e, bounds) && e.sent < e'.sent <= |e'.written|
    requires s == SeqAdd(e'.Base(), e.sent) && d == e'.written[e.sent..e'.sent]
    ensures IsPiece(e', Extend(bounds, e'.sent), s, d)
  {
    assert PieceAt(e', bounds + [e'.sent], s, d, |bounds| - 1);
  }

  lemma BoundsExtend(e: Endpoint, e': Endpoint, bounds: seq<nat>)
    requires Bounds(e, bounds) && e.sent <= e'.sent <= |e'.written|
    ensures Bounds(e', Extend(bounds, e'.sent)) && bounds <= Extend(bounds, e'.sent)
  {}

  lemma NewEntryIsPiece(e: Endpoint, e': Endpoint, bounds: seq<nat>, x: Entry)
    requires Bounds(e, bounds) && EntryNew(e, e', x) && e'.sent <= |e'.written|
    requires e.Base() == e'.Base()
    ensures IsPiece(e', Extend(bounds, e'.sent), x.seqNum, x.data)
  {
    assert SentPart(e')[e.sent..e'.sent] == e'.written[e.sent..e'.sent];
    LastPiece(e, e', bounds, x.seqNum, x.data);
  }

  lemma StepCut(e: Endpoint, ev: Event, bounds: seq<nat>)
    requires Inv(e) && Proper(e, ev) && CutHolds(e, bounds)
    ensures CutHolds(Next(e, ev), Extend(bounds, Next(e, ev).sent))
    ensures bounds <= Extend(bounds, Next(e, ev).sent)
  {
    hide Next, PhaseHolds, WordsHold, IsPiece;
    StepDoes(e, ev);
    var e', bounds' := Next(e, ev), Extend(bounds, Next(e, ev).sent);
    BoundsExtend(e, e', bounds);
    forall x' | x' in e'.conn.rtx.entries ensures IsPiece(e', bounds', x'.seqNum, x'.data) {
      if EntryStays(e, e', x') {
        var x :| x in e.conn.rtx.entries && SamePiece(e, e', x, x');
        PieceStaysPiece(e, e', bounds, bounds', x.seqNum, x.data);
      } else {
        NewEntryIsPiece(e, e', bounds, x');
      }
    }
  }

  lemma RepeatsArePieces(e: Endpoint, e': Endpoint, bounds: seq<nat>, bounds': seq<nat>, b: Builder)
    requires CutHolds(e, bounds) && bounds <= bounds' && Repeats(e, b)
    requires e.Base() == e'.Base() && e.written <= e'.written
    ensures IsPiece(e', bounds', b.seqNum, b.payload)
  {
    hide IsPiece;
    var x :| x in e.conn.rtx.entries && b.seqNum == x.seqNum && b.payload == x.data;
    PieceStaysPiece(e, e', bounds, bounds', x.seqNum, x.data);
  }

  lemma FirstIsPiece(e: Endpoint, ev: Event, bounds: seq<nat>, b: Builder)
    requires Inv(e) && (ev.Send? || ev.Probe?) && b in Outputs(e, ev) && Bounds(e, bounds)
    ensures var e' := Next(e, ev); IsPiece(e', Extend(bounds, e'.sent), b.seqNum, b.payload)
  {
    hide Next, IsPiece;
    FirstTransmission(e, ev, b);
    StepDoes(e, ev);
    SendWritesNothing(e, ev);
    LastPiece(e, Next(e, ev), bounds, b.seqNum, b.payload);
  }

  lemma SendWritesNothing(e: Endpoint, ev: Event)
    requires !ev.Write?
    ensures Next(e, ev).written == e.written
  {
    hide Perform;
  }

  lemma OutputsArePieces(e: Endpoint, ev: Event, bounds: seq<nat>)
    requires Inv(e) && Proper(e, ev) && CutHolds(e, bounds)
    ensures var e' := Next(e, ev);
            forall b :: b in Outputs(e, ev) && b.payload != [] ==>
              IsPiece(e', Extend(bounds, e'.sent), b.seqNum, b.payload)
  {
    hide Next, Outputs, IsPiece;
    var e' := Next(e, ev);
    var bounds' := Extend(bounds, e'.sent);
    StepDoes(e, ev);
    StepCut(e, ev, bounds);
    forall b | b in Outputs(e, ev) && b.payload != []
      ensures IsPiece(e', bounds', b.seqNum, b.payload)
    {
      match ev {
        case Deliver(seg, now) =>
          DeliverRepeats(e, seg, now);
          RepeatsArePieces(e, e', bounds, bounds', b);
        case Retransmit(now) =>
          RetransmitRepeats(e, now);
          RepeatsArePieces(e, e', bounds, bounds', b);
        case Send(_, _) => FirstIsPiece(e, ev, bounds, b);
        case Probe => FirstIsPiece(e, ev, bounds, b);
        case _ => QuietOutput(e, ev, b);
      }
    }
  }

  /** Where a run cuts the stream. */
  ghost function BoundsOf(e: Endpoint, evs: seq<Event>, bounds: seq<nat>): seq<nat>
    decreases |evs|
  {
    if evs == [] then bounds
    else BoundsOf(Next(e, evs[0]), evs[1..], Extend(bounds, Next(e, evs[0]).sent))
  }

  ghost predicate AllPieces(e: Endpoint, bounds: seq<nat>, out: set<Builder>) {
    forall b :: b in out && b.payload != [] ==> IsPiece(e, bounds, b.seqNum, b.payload)
  }

  lemma StepPieces(e: Endpoint, ev: Event, bounds: seq<nat>, out: set<Builder>)
    requires Inv(e) && Proper(e, ev) && CutHolds(e, bounds) && AllPieces(e, bounds, out)
    ensures var e' := Next(e, ev);
            AllPieces(e', Extend(bounds, e'.sent), Put(out, Outputs(e, ev)))
  {
    hide Next, Outputs, IsPiece;
    var e' := Next(e, ev);
    StepDoes(e, ev);
    StepCut(e, ev, bounds);
    OutputsArePieces(e, ev, bounds);
    forall b | b in out && b.payload != []
      ensures IsPiece(e', Extend(bounds, e'.sent), b.seqNum, b.payload)
    {
      PieceStaysPiece(e, e', bounds, Extend(bounds, e'.sent), b.seqNum, b.payload);
    }
  }

  lemma {:induction false} RunPieces(e: Endpoint, evs: seq<Event>, bounds: seq<nat>,
                                     out: set<Builder>)
    requires Inv(e) && Obeys(e, evs, Proper) && CutHolds(e, bounds) && AllPieces(e, bounds, out)
    ensures CutHolds(Exec(e, evs), BoundsOf(e, evs, bounds))
    ensures AllPieces(Exec(e, evs), BoundsOf(e, evs, bounds), Put(out, AllOutputs(e, evs)))
    decreases |evs|
  {
    hide Next, Outputs, CutHolds, AllPieces, PhaseHolds, QueueHolds;
    if evs == [] {
      assert Put(out, []) == out;
    } else {
      var e' := Next(e, evs[0]);
      StepKeeps(e, evs[0]);
      StepCut(e, evs[0], bounds);
      StepPieces(e, evs[0], bounds, out);
      var out' := Put(out, Outputs(e, evs[0]));
      RunPieces(e', evs[1..], Extend(bounds, e'.sent), out');
      assert Put(out', AllOutputs(e', evs[1..])) == Put(out, AllOutputs(e, evs));
    }
  }

  /** In every run from a fresh connection the stream is cut once: there are positions, found as the
      run goes, such that every data segment ever transmitted - first, by timer, fast, or as a
      probe - is exactly the piece between two neighbouring ones. */
  lemma TransmissionsFormACut(e0: Endpoint, evs: seq<Event>)
    requires Fresh(e0) && Obeys(e0, evs, Proper)
    ensures var e, bounds := Exec(e0, evs), BoundsOf(e0, evs, [0]);
            && Bounds(e, bounds)
            && forall b :: b in AllOutputs(e0, evs) && b.payload != [] ==>
                 IsPiece(e, bounds, b.seqNum, b.payload)
  {
    hide Next, Outputs;
    FreshInv(e0);
    RunPieces(e0, evs, [0], {});
  }

  /** So two data segments are the same piece, or have no byte in common. */
  lemma SameOrDisjoint(e: Endpoint, bounds: seq<nat>, s: u32, d: seq<u8>, i: nat,
                       s': u32, d': seq<u8>, i': nat)
    requires Bounds(e, bounds) && PieceAt(e, bounds, s, d, i) && PieceAt(e, bounds, s', d', i')
    ensures (s == s' && d == d') || bounds[i] + |d| <= bounds[i'] || bounds[i'] + |d'| <= bounds[i]
  {}

  /** The cut of a sender's stream, as far as it was transmitted. */
  ghost function CutOf(x: Endpoint, bounds: seq<nat>): Cut {
    Cut(x.Base(), SentPart(x), bounds)
  }

  lemma CutIsValid(x: Endpoint, bounds: seq<nat>)
    requires Bounds(x, bounds) && |x.written| < 0x8000_0000
    ensures CutOf(x, bounds).Valid()
  {}

  lemma NothingBehind(cut: Cut, got: set<nat>, g: nat)
    requires cut.Valid() && forall i :: i in got ==> i < g
    ensures Behind(cut, got, g) == map[]
  {
    forall k ensures k !in Behind(cut, got, g) { BehindKeys(cut, got, g, k); }
  }

  ghost predicate CutExtends(cut: Cut, cut': Cut) {
    cut.base == cut'.base && cut.stream <= cut'.stream && cut.bounds <= cut'.bounds
  }

  lemma {:induction false} BehindExtends(cut: Cut, cut': Cut, got: set<nat>, g: nat)
    requires cut.Valid() && cut'.Valid() && CutExtends(cut, cut')
    requires forall i :: i in got ==> i < cut.Count()
    ensures Behind(cut, got, g) == Behind(cut', got, g)
    decreases cut.Count() - g
  {
    hide SeqAdd;
    if g >= cut.Count() {
      NothingBehind(cut', got, g);
    } else {
      BehindExtends(cut, cut', got, g + 1);
      assert cut.Key(g) == cut'.Key(g) && cut.Piece(g) == cut'.Piece(g);
    }
  }

  /** Nothing changes for the receiver when the sender cuts on. */
  lemma ExactExtends(rb: RecvState, cut: Cut, cut': Cut, got: set<nat>, read: seq<u8>)
    requires cut.Valid() && cut'.Valid() && CutExtends(cut, cut') && Exact(rb, cut, got, read)
    ensures Exact(rb, cut', got, read)
  {
    var f := FirstMissing(got, 0, cut.Count());
    BehindExtends(cut, cut', got, f);
    FirstMissingIs(got, 0, cut'.Count(), f);
    assert f !in got;
    assert cut'.stream[..cut'.bounds[f]] == cut.stream[..cut.bounds[f]];
  }

  lemma ReadExact(rb: RecvState, cut: Cut, got: set<nat>, read: seq<u8>, n: nat)
    requires cut.Valid() && Exact(rb, cut, got, read) && n <= |rb.data|
    ensures Exact(rb.Read(n), cut, got, read + rb.data[..n])
  {
    assert read + rb.data[..n] + rb.data[n..] == read + rb.data;
  }

  lemma EmptyExact(cut: Cut)
    requires cut.Valid()
    ensures Exact(RecvState([], cut.base, map[]), cut, {}, [])
  {
    NothingBehind(cut, {}, 0);
    SeqAddZero(cut.base);
  }

  /** The payload of the segment goes into the receive buffer. */
  predicate Inserts(c: Conn, ev: Event) {
    && ev.Deliver? && c.tcb.state == Established && c.recv.Some? && ev.seg.payload != []
    && !ev.seg.header.flags.rst && AckEstablished(c, ev.seg, ev.now).out.None?
  }

  lemma InsertsOrNot(c: Conn, ev: Event)
    requires ev.Deliver? && c.tcb.state == Established
    ensures var c' := ProcessSegment(c, ev.seg, ev.now).conn;
            if Inserts(c, ev)
            then c'.recv == Some(c.recv.value.Insert(ev.seg.header.seqNum, ev.seg.payload))
            else c'.recv == c.recv
  {
    hide AckEstablished;
    AckPartReceives(c, ev.seg, ev.now);
  }

  /** Where the sender has cut, and which pieces the receiver's buffer was given. */
  datatype Ledger = Ledger(bounds: seq<nat>, got: set<nat>)

  ghost function Record(s: System, m: Move, l: Ledger): Ledger {
    match m
    case AtX(ev) => l.(bounds := Extend(l.bounds, Next(s.x, ev).sent))
    case AtY(ev) =>
      if Inserts(s.y.conn, ev) then
        l.(got := l.got + set i: nat | i < |l.bounds|
                     && PieceAt(s.x, l.bounds, ev.seg.header.seqNum, ev.seg.payload, i))
      else l
  }

  ghost function RecordAll(s: System, ms: seq<Move>, l: Ledger): Ledger
    decreases |ms|
  {
    if ms == [] then l else RecordAll(Network.After(s, ms[0]), ms[1..], Record(s, ms[0], l))
  }

  /** No probes into a closed window, and the sequence numbers of the stream do not wrap. */
  ghost predicate Straight(s: System, m: Move) {
    WindowRespecting(s, m) && s.x.Base() + |Network.After(s, m).x.written| <= 0x1_0000_0000
  }

  /** The receive buffer of `y` reassembles exactly what it was given. */
  ghost predicate Reassembles(x: Endpoint, y: Endpoint, l: Ledger)
    requires Bounds(x, l.bounds) && |x.written| < 0x8000_0000
  {
    && (Opening(y.conn) ==> l.got == {})
    && match y.conn.recv
       case None => l.got == {}
       case Some(rb) =>
         CutIsValid(x, l.bounds);
         Exact(rb, CutOf(x, l.bounds), l.got, y.read)
  }

  ghost predicate Whole(s: System, l: Ledger) {
    && Controlled(s) && |s.x.written| < 0x8000_0000
    && s.x.Base() + |s.x.written| <= 0x1_0000_0000
    && CutHolds(s.x, l.bounds) && AllPieces(s.x, l.bounds, s.fromX)
    && Reassembles(s.x, s.y, l)
  }

  lemma SpeakerCuts(x: Endpoint, y: Endpoint, l: Ledger, x': Endpoint, bounds': seq<nat>)
    requires Bounds(x, l.bounds) && |x.written| < 0x8000_0000 && Reassembles(x, y, l)
    requires Bounds(x', bounds') && |x'.written| < 0x8000_0000 && l.bounds <= bounds'
    requires x.Base() == x'.Base() && x.written <= x'.written && x.sent <= x'.sent
    ensures Reassembles(x', y, l.(bounds := bounds'))
  {
    CutIsValid(x, l.bounds);
    CutIsValid(x', bounds');
    if y.conn.recv.Some? {
      assert SentPart(x) <= SentPart(x');
      ExactExtends(y.conn.recv.value, CutOf(x, l.bounds), CutOf(x', bounds'), l.got, y.read);
    }
  }

  lemma SpeakerWhole(s: System, ev: Event, l: Ledger)
    requires Whole(s, l) && Straight(s, AtX(ev))
    ensures Whole(Network.After(s, AtX(ev)), Record(s, AtX(ev), l))
  {
    hide Next, Outputs, Acknowledges, FitsWindow, Reassembles, AllPieces, PhaseHolds, QueueHolds;
    ControlledSides(s);
    var x' := Next(s.x, ev);
    SpeakerControlled(s, ev);
    StepDoes(s.x, ev);
    StepCut(s.x, ev, l.bounds);
    StepPieces(s.x, ev, l.bounds, s.fromX);
    SpeakerCuts(s.x, s.y, l, x', Extend(l.bounds, x'.sent));
  }

  lemma ControlledSides(s: System)
    requires Controlled(s)
    ensures Inv(s.x) && Inv(s.y) && Hears(s.y, s.x.Base(), SentPart(s.x))
    ensures s.x.sent <= |s.y.read| + Ring.CAPACITY
    ensures forall b :: b in s.fromX ==> OutputHolds(s.x, b)
  {}

  /** The index of a piece is unique. */
  lemma PieceIndex(x: Endpoint, bounds: seq<nat>, s: u32, d: seq<u8>, i: nat)
    requires Bounds(x, bounds) && |x.written| < 0x8000_0000 && PieceAt(x, bounds, s, d, i)
    ensures (set j: nat | j < |bounds| && PieceAt(x, bounds, s, d, j)) == {i}
  {
    forall j: nat | j < |bounds| && PieceAt(x, bounds, s, d, j) ensures j == i {
      PositionsInjective(x.Base(), bounds[i], bounds[j]);
    }
  }

  /** A piece of the stream is given to the buffer. */
  lemma PieceExact(x: Endpoint, bounds: seq<nat>, rb: RecvState, got: set<nat>, read: seq<u8>,
                   s: u32, d: seq<u8>, i: nat)
    requires Bounds(x, bounds) && |x.written| < 0x8000_0000
    requires x.Base() + |x.written| <= 0x1_0000_0000 && x.sent <= |read| + Ring.CAPACITY
    requires CutOf(x, bounds).Valid() && Exact(rb, CutOf(x, bounds), got, read)
    requires PieceAt(x, bounds, s, d, i)
    ensures Exact(rb.Insert(s, d), CutOf(x, bounds), got + {i}, read)
  {
    hide SeqAdd, SeqSub, Exact;
    var cut := CutOf(x, bounds);
    OrderedUnlessWrapping(cut);
    assert bounds[i + 1] <= x.sent;
    assert cut.Piece(i) == d && cut.Key(i) == s;
    ArriveExact(rb, cut, got, read, i);
  }

  lemma ArrivedPiece(s: System, ev: Event, l: Ledger) returns (i: nat)
    requires Whole(s, l) && Straight(s, AtY(ev)) && Inserts(s.y.conn, ev)
    ensures PieceAt(s.x, l.bounds, ev.seg.header.seqNum, ev.seg.payload, i)
    ensures Record(s, AtY(ev), l).got == l.got + {i}
  {
    hide Controlled, Reassembles, PieceAt, AckEstablished;
    WholeCut(s, l);
    var b :| b in s.fromX && ev.seg == b.Received();
    assert IsPiece(s.x, l.bounds, b.seqNum, b.payload);
    i :| PieceAt(s.x, l.bounds, b.seqNum, b.payload, i);
    PieceIndex(s.x, l.bounds, b.seqNum, b.payload, i);
  }

  /** A piece arrives. */
  lemma HearerInserts(s: System, ev: Event, l: Ledger)
    requires Whole(s, l) && Straight(s, AtY(ev)) && Inserts(s.y.conn, ev)
    ensures Reassembles(s.x, Next(s.y, ev), Record(s, AtY(ev), l))
  {
    hide Next, Perform, Acknowledges, FitsWindow, SeqAdd, SeqSub, Exact, PieceAt;
    ControlledSides(s);
    CutIsValid(s.x, l.bounds);
    var i := ArrivedPiece(s, ev, l);
    var rb := s.y.conn.recv.value;
    PieceExact(s.x, l.bounds, rb, l.got, s.y.read, ev.seg.header.seqNum, ev.seg.payload, i);
    InsertsOrNot(s.y.conn, ev);
    DeliverKeepsRead(s.y, ev);
    StaysPastOr(s.y, ev);
  }

  lemma StaysPast(y: Endpoint, ev: Event)
    requires Inv(y) && Proper(y, ev) && Opening(Next(y, ev).conn)
    ensures Opening(y.conn)
  {
    hide Perform;
    Agreement.OpeningBefore(y, ev);
  }

  /** Anything else happens to the receiver. */
  lemma HearerOther(s: System, ev: Event, l: Ledger)
    requires Whole(s, l) && Straight(s, AtY(ev)) && !Inserts(s.y.conn, ev)
    ensures Reassembles(s.x, Next(s.y, ev), l)
  {
    hide Next, Perform, Acknowledges, FitsWindow, SeqAdd, SeqSub, Exact, Inserts;
    ControlledSides(s);
    CutIsValid(s.x, l.bounds);
    var y', cut := Next(s.y, ev), CutOf(s.x, l.bounds);
    StaysPastOr(s.y, ev);
    if ev.Read? && s.y.conn.recv.Some? {
      var rb := s.y.conn.recv.value;
      ReadDoes(s.y, ev);
      ReadExact(rb, cut, l.got, s.y.read, Min(ev.n, |rb.data|));
    } else {
      BufferSameOrNew(s, ev);
      if y'.conn.recv != s.y.conn.recv { EmptyExact(cut); }
    }
  }

  lemma StaysPastOr(y: Endpoint, ev: Event)
    requires Inv(y) && Proper(y, ev)
    ensures Opening(Next(y, ev).conn) ==> Opening(y.conn)
  {
    hide Perform;
    if Opening(Next(y, ev).conn) { StaysPast(y, ev); }
  }

  lemma ReadDoes(y: Endpoint, ev: Event)
    requires ev.Read? && y.conn.recv.Some?
    ensures var rb, n, y' := y.conn.recv.value, Min(ev.n, |y.conn.recv.value.data|), Next(y, ev);
            y'.conn.recv == Some(rb.Read(n)) && y'.read == y.read + rb.data[..n]
  {
    hide SeqAdd, SeqSub;
  }

  lemma LocalBuffer(y: Endpoint, ev: Event)
    requires !ev.Deliver? && !(ev.Read? && y.conn.recv.Some?)
    ensures Next(y, ev).read == y.read && Next(y, ev).conn.recv == y.conn.recv
  {
    hide SeqAdd, SeqSub, ProcessSegment;
  }

  lemma DeliverKeepsRead(y: Endpoint, ev: Event)
    requires ev.Deliver?
    ensures var y' := Next(y, ev);
            y'.read == y.read && y'.conn == ProcessSegment(y.conn, ev.seg, ev.now).conn
  {
    hide ProcessSegment;
  }

  lemma BufferSameOrNew(s: System, ev: Event)
    requires Controlled(s) && Straight(s, AtY(ev)) && !Inserts(s.y.conn, ev)
    requires !(ev.Read? && s.y.conn.recv.Some?)
    ensures var y' := Next(s.y, ev);
            && y'.read == s.y.read
            && (y'.conn.recv != s.y.conn.recv ==>
                  && Opening(s.y.conn) && y'.read == []
                  && y'.conn.recv == Some(RecvState([], s.x.Base(), map[])))
  {
    hide Next, Perform, Acknowledges, FitsWindow, SeqAdd, SeqSub, ProcessSegment, Inserts;
    ControlledSides(s);
    if ev.Deliver? {
      DeliverKeepsRead(s.y, ev);
      if s.y.conn.tcb.state == Established {
        InsertsOrNot(s.y.conn, ev);
      } else {
        BufferedStates(s.y);
        OthersReceive(s.y.conn, ev.seg, ev.now);
        var b :| b in s.fromX && ev.seg == b.Received();
        BuilderSpeaks(s.x, b);
      }
    } else {
      LocalBuffer(s.y, ev);
    }
  }

  lemma HearerWhole(s: System, ev: Event, l: Ledger)
    requires Whole(s, l) && Straight(s, AtY(ev))
    ensures Whole(Network.After(s, AtY(ev)), Record(s, AtY(ev), l))
  {
    hide Next, Outputs, Acknowledges, FitsWindow, Reassembles, AllPieces, CutHolds, Inserts;
    HearerControlled(s, ev);
    WholeCut(s, l);
    if Inserts(s.y.conn, ev) { HearerInserts(s, ev, l); } else { HearerOther(s, ev, l); }
  }

  lemma WholeCut(s: System, l: Ledger)
    requires Whole(s, l)
    ensures Bounds(s.x, l.bounds)
  {}

  lemma {:induction false} RunWhole(s: System, ms: seq<Move>, l: Ledger)
    requires Whole(s, l) && AllObey(s, ms, Straight)
    ensures Whole(ExecAll(s, ms), RecordAll(s, ms, l))
    decreases |ms|
  {
    hide Whole, Network.After, Record;
    if ms != [] {
      match ms[0] {
        case AtX(ev) => SpeakerWhole(s, ev, l);
        case AtY(ev) => HearerWhole(s, ev, l);
      }
      RunWhole(Network.After(s, ms[0]), ms[1..], Record(s, ms[0], l));
    }
  }

  lemma StartedWhole(s: System)
    requires Started(s)
    ensures Whole(s, Ledger([0], {}))
  {
    hide SeqSub;
    StartedControlled(s);
    CutIsValid(s.x, [0]);
  }

  /** End to end.  In every run in which `x` probes no closed window and its numbers do not wrap, the
      receive buffer of `y` is complete for the pieces it was given, in whatever order, how often
      and by whatever retransmission they came: it expects the first piece it lacks, everything
      before that is delivered or readable, exactly the pieces behind it are staged - and so none
      that is staged is the one it waits for. */
  lemma EndToEndComplete(s0: System, ms: seq<Move>)
    requires Started(s0) && AllObey(s0, ms, Straight)
    ensures var s, l := ExecAll(s0, ms), RecordAll(s0, ms, Ledger([0], {}));
            Bounds(s.x, l.bounds)
            && (s.y.conn.recv.Some? ==>
                  var rb, f := s.y.conn.recv.value, FirstMissing(l.got, 0, |l.bounds| - 1);
                  && rb.nxt == SeqAdd(s.x.Base(), l.bounds[f])
                  && InOrder(s.y) == s.x.written[..l.bounds[f]]
                  && (forall k :: k in rb.ooo <==>
                        exists i :: i in l.got && f < i < |l.bounds| - 1
                                    && k == SeqAdd(s.x.Base(), l.bounds[i]))
                  && rb.nxt !in rb.ooo)
  {
    hide Next, Outputs, Network.After, Record;
    StartedWhole(s0);
    RunWhole(s0, ms, Ledger([0], {}));
    WholeInWords(ExecAll(s0, ms), RecordAll(s0, ms, Ledger([0], {})));
  }

  lemma WholeInWords(s: System, l: Ledger)
    requires Whole(s, l)
    ensures Bounds(s.x, l.bounds)
            && (s.y.conn.recv.Some? ==>
                  var rb, f := s.y.conn.recv.value, FirstMissing(l.got, 0, |l.bounds| - 1);
                  && rb.nxt == SeqAdd(s.x.Base(), l.bounds[f])
                  && InOrder(s.y) == s.x.written[..l.bounds[f]]
                  && (forall k :: k in rb.ooo <==>
                        exists i :: i in l.got && f < i < |l.bounds| - 1
                                    && k == SeqAdd(s.x.Base(), l.bounds[i]))
                  && rb.nxt !in rb.ooo)
  {
    hide SeqAdd, SeqSub, Controlled, AllPieces;
    if s.y.conn.recv.Some? {
      CutIsValid(s.x, l.bounds);
      var cut := CutOf(s.x, l.bounds);
      var rb, f := s.y.conn.recv.value, FirstMissing(l.got, 0, cut.Count());
      forall k ensures k in rb.ooo <==> exists i :: i in l.got && f < i < |l.bounds| - 1
                                                    && k == SeqAdd(s.x.Base(), l.bounds[i])
      {
        BehindKeys(cut, l.got, f, k);
        if j :| j in l.got && f <= j < cut.Count() && k == cut.Key(j) { assert f < j; }
      }
      if rb.nxt in rb.ooo {
        var i :| i in l.got && f < i < |l.bounds| - 1 && rb.nxt == SeqAdd(s.x.Base(), l.bounds[i]);
        KeysDistinct(cut, f, i);
      }
    }
  }
}
