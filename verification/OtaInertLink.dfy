/** Damage that is no more than loss: if what arrives in the place of damaged frames, and as noise, is
    inert, then no parser finds a frame that nobody sent, and the update is safe. */
module OtaInertLink {
  import opened FlashFrame
  import opened FlashFrameParser
  import opened FlashStream
  import opened OtaInvariant
  import opened OtaRuns
  import opened OtaSystem
  import opened OtaLink

  /** What the move puts on the wire besides frames is inert. */
  predicate InertMove(mv: LinkMove) {
    match mv
    case HitsDown(_, bytes) => Inert(bytes)
    case HitsUp(_, bytes) => Inert(bytes)
    case NoiseDown(bytes) => Inert(bytes)
    case NoiseUp(bytes) => Inert(bytes)
    case _ => true
  }

  /** One encoded frame, or bytes from which no frame can come. */
  predicate PacketOk(p: Packet) {
    if p.sent == [] then Inert(p.bytes)
    else |p.sent| == 1 && |p.sent[0].frame.payload| <= MAX_PAYLOAD && p.bytes == Wire(p.sent[0].frame)
  }

  predicate LineOk(l: Line) {
    l.held == [] && l.waiting == [] && forall p <- l.flying :: PacketOk(p)
  }

  lemma NothingIsInert()
    ensures Inert([])
  {
    HeldBack([]);
    ScanNothing();
  }

  /** An arriving packet yields exactly the frame it was sent as, and nothing is left behind. */
  lemma PacketFound(p: Packet)
    requires PacketOk(p)
    ensures Held(p.bytes) == [] && |p.sent| <= 1
    ensures Frames(Segments(p.bytes)) == if p.sent == [] then [] else [p.sent[0].frame]
  {
    hide Segments, Held, Wire, HeadOf, Frames;
    if p.sent != [] {
      var f := p.sent[0].frame;
      FrameScanned(f, []);
      assert Wire(f) + [] == Wire(f);
      ProjectionsCons(Whole(f), []);
      HeldBack([]);
      ScanNothing();
    }
  }

  lemma ArrivalOk(l: Line)
    requires LineOk(l) && l.flying != []
    ensures AllSent(FoundBy(l), Expected(l)) && LineOk(AfterArrival(l))
  {
    hide Segments, Held, Frames, PacketOk, Matched, Unmatched;
    var p := l.flying[0];
    assert PacketOk(p);
    PacketFound(p);
    assert l.held + p.bytes == p.bytes && l.waiting + p.sent == p.sent;
    if p.sent != [] {
      assert p.sent == [p.sent[0]];
      assert Find(p.sent[0].frame, p.sent) == 0;
    }
  }

  lemma PutOk(l: Line, p: Packet)
    requires LineOk(l) && PacketOk(p)
    ensures LineOk(Put(l, p))
  {
    hide PacketOk;
  }

  lemma HitOk(l: Line, k: nat, bytes: seq<bv8>)
    requires LineOk(l) && k < |l.flying| && Inert(bytes)
    ensures LineOk(Hit(l, k, bytes))
  {
    hide Inert;
    var q := Packet(bytes, []);
    assert PacketOk(q);
    forall p <- Hit(l, k, bytes).flying ensures PacketOk(p) {
      assert p == q || p in l.flying;
    }
  }

  /** What the session returns is one encoded frame or nothing. */
  lemma HostPacketOk(s: Sys, i: Input)
    requires HostOk(s) && (Answers(s.host, i) ==> s.board.lastNum == s.num)
    ensures var o := Stepped(s.host, i);
      PacketOk(Packet(o.out, Tag(Frames(Segments(o.out)), HostStep(s, i).num)))
  {
    hide Stepped, InFlightFrame, Wire, Chunks, Answers, RunningOk, SeqAt, MessageCount, Filled, Inert, Segments, Frames;
    var (o, t) := (Stepped(s.host, i), HostStep(s, i));
    CountsKeep(s, i);
    var f := if o.out == [] then TrialFrame(1)
             else InFlightFrame(t.host.image, t.host.version, t.host.state, t.host.sentBytes);
    ParsedBack(f);
    NothingIsInert();
  }

  predicate LinesOk(w: World) {
    LineOk(w.down) && LineOk(w.up)
  }

  lemma HostActsOk(w: World, m: Move)
    requires SysInv(Abs(w)) && LinesOk(w) && LinkEnabled(w, Acts(m)) && HostMoves(m)
    ensures LinesOk(LinkAfter(w, Acts(m)))
  {
    SameHost(w);
    var i := InputOf(w.ends, m);
    ActedLines(w, m, i);
    hide SysInv, Stepped, Segments, Frames, PacketOk, Tag, Abs, Answers, HostOk, LineOk, LinkAfter, LinkEnabled, Enabled, HostStep;
    if m.HostReceives? {
      AckIsNow(w, m.at);
    } else {
      NoAnswer(w.ends, i);
    }
    HostPacketOk(w.ends, i);
    PutOk(w.down, Packet(Stepped(w.ends.host, i).out, Tag(Frames(Segments(Stepped(w.ends.host, i).out)), HostStep(w.ends, i).num)));
  }

  /** A call of the host puts what it returns onto the wire, and touches nothing else of the link. */
  lemma ActedLines(w: World, m: Move, i: Input)
    requires LinkEnabled(w, Acts(m)) && HostMoves(m) && i == InputOf(w.ends, m)
    ensures var (o, v) := (Stepped(w.ends.host, i), LinkAfter(w, Acts(m)));
      && v.down == Put(w.down, Packet(o.out, Tag(Frames(Segments(o.out)), HostStep(w.ends, i).num)))
      && v.up == w.up
      && (m.HostReceives? ==> w.ends.toHost != [] && i == Receive(w.ends.toHost[0].frame, m.at))
      && (!m.HostReceives? ==> !i.Receive?)
  {
    hide Stepped, Segments, Frames, Tag, Answers;
    var o := Stepped(w.ends.host, i);
    assert OtaSystem.After(w.ends.(toBoard := []), m).toBoard == Tag(Frames(Segments(o.out)), HostStep(w.ends, i).num);
  }

  lemma NoAnswer(s: Sys, i: Input)
    requires !i.Receive?
    ensures !Answers(s.host, i)
  {}

  lemma SameHost(w: World)
    requires SysInv(Abs(w))
    ensures HostOk(w.ends) && Inv(w.ends.host)
  {}

  lemma AckIsNow(w: World, at: int)
    requires SysInv(Abs(w)) && w.ends.toHost != []
    ensures Answers(w.ends.host, Receive(w.ends.toHost[0].frame, at)) ==> w.ends.board.lastNum == w.ends.num
  {
    hide SysInv;
    assert Queue(w.ends.toHost, w.up)[0] == w.ends.toHost[0];
    if Answers(w.ends.host, Receive(w.ends.toHost[0].frame, at)) {
      AckIsGenuine(Abs(w));
    }
  }

  lemma BoardActsOk(w: World, m: Move)
    requires LinesOk(w) && LinkEnabled(w, Acts(m)) && !HostMoves(m)
    ensures LinesOk(LinkAfter(w, Acts(m)))
  {
    hide Inert, Wire, AfterFrame;
    var t := OtaSystem.After(w.ends.(toHost := []), m);
    if t.toHost != [] {
      PutOk(w.up, Packet(Wire(t.toHost[0].frame), t.toHost));
    }
  }

  lemma MoveOk(w: World, mv: LinkMove)
    requires SysInv(Abs(w)) && LinesOk(w) && LinkEnabled(w, mv) && InertMove(mv)
    ensures NoPhantom(w, mv) && LinesOk(LinkAfter(w, mv))
  {
    hide SysInv, Inert, HostActs, BoardActs, LineOk, Put, Hit, AllSent, FoundBy, AfterArrival, Expected;
    match mv {
      case Acts(m) => if HostMoves(m) { HostActsOk(w, m); } else { BoardActsOk(w, m); }
      case ArrivesAtBoard => ArrivalOk(w.down);
      case ArrivesAtHost => ArrivalOk(w.up);
      case HitsDown(k, bytes) => HitOk(w.down, k, bytes);
      case HitsUp(k, bytes) => HitOk(w.up, k, bytes);
      case NoiseDown(bytes) => NoiseOk(w.down, bytes);
      case NoiseUp(bytes) => NoiseOk(w.up, bytes);
    }
  }

  lemma NoiseOk(l: Line, bytes: seq<bv8>)
    requires LineOk(l) && Inert(bytes)
    ensures LineOk(Put(l, Packet(bytes, [])))
  {
    hide Inert;
    PutOk(l, Packet(bytes, []));
  }

  lemma {:induction false} InertInv(states: seq<World>, moves: seq<LinkMove>, k: nat)
    requires LinkRun(states, moves) && k < |states| && forall mv <- moves :: InertMove(mv)
    ensures SysInv(Abs(states[k])) && LinesOk(states[k])
    ensures forall j :: 0 <= j < k ==> NoPhantom(states[j], moves[j])
  {
    hide SysInv, LinkEnabled, LinkAfter, FrameMove, NoPhantom, Initial, InertMove, Enabled;
    if k == 0 {
      StartsEmpty(states[0]);
      InitialInv(Abs(states[0]));
    } else {
      var (w, mv) := (states[k - 1], moves[k - 1]);
      InertInv(states, moves, k - 1);
      assert LinkEnabled(w, mv) && mv in moves;
      MoveOk(w, mv);
      LinkRefines(w, mv);
      MoveKeeps(Abs(w), FrameMove(w, mv));
    }
  }

  /** A run whose damage and noise are inert is free of phantoms, and so safe throughout. */
  lemma InertRunsAreSafe(states: seq<World>, moves: seq<LinkMove>)
    requires LinkRun(states, moves) && forall mv <- moves :: InertMove(mv)
    ensures PhantomFree(states, moves) && forall w <- states :: Safe(w)
  {
    hide LinkRun, NoPhantom, InertMove, Safe;
    RunLength(states, moves);
    InertInv(states, moves, |moves|);
    forall w | w in states ensures Safe(w) {
      var k :| 0 <= k < |states| && states[k] == w;
      UpdateIsSafe(states, moves, k);
    }
  }

  /** Apart from a start byte that the parser drops at once, none arrives. */
  predicate NoOtherStart(bytes: seq<bv8>) {
    if bytes != [] && HeadOf(bytes) == FalseStart then START !in bytes[1..] else START !in bytes
  }

  predicate StartFree(mv: LinkMove) {
    match mv
    case HitsDown(_, bytes) => NoOtherStart(bytes)
    case HitsUp(_, bytes) => NoOtherStart(bytes)
    case NoiseDown(bytes) => NoOtherStart(bytes)
    case NoiseUp(bytes) => NoOtherStart(bytes)
    case _ => true
  }

  /** What can be checked on the bytes alone: a run in which no damage and no noise brings a start byte
      of its own is safe throughout, whatever it does to the rest. */
  lemma StartFreeRunsAreSafe(states: seq<World>, moves: seq<LinkMove>)
    requires LinkRun(states, moves) && forall mv <- moves :: StartFree(mv)
    ensures PhantomFree(states, moves) && forall w <- states :: Safe(w)
  {
    hide LinkRun, Inert, NoOtherStart, Safe, PhantomFree;
    RunLength(states, moves);
    forall mv | mv in moves ensures InertMove(mv) {
      assert StartFree(mv);
      if mv.HitsDown? || mv.HitsUp? || mv.NoiseDown? || mv.NoiseUp? {
        StartFreeIsInert(mv.bytes);
      }
    }
    InertRunsAreSafe(states, moves);
  }

  lemma StartFreeIsInert(bytes: seq<bv8>)
    requires NoOtherStart(bytes)
    ensures Inert(bytes)
  {
    hide HeadOf, Inert;
    NoStartIsInert(bytes);
  }

  lemma RunLength(states: seq<World>, moves: seq<LinkMove>)
    requires LinkRun(states, moves)
    ensures |states| == |moves| + 1
  {}
}
