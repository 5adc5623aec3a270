/** Runs over an undisturbed link: each frame arrives as it was sent, and the board answers each once. */
module OtaCalmRuns {
  import opened FlashFrame
  import opened FlashFrameParser
  import opened OtaTable
  import opened OtaInvariant
  import opened OtaRuns
  import opened OtaSystem
  import opened OtaLink
  import opened OtaInertLink

  // ----- reaching a world --------------------------------------------------------------------

  /** Nothing is lost, damaged, invented or said twice by the board. */
  predicate Calm(mv: LinkMove) {
    mv.ArrivesAtBoard? || mv.ArrivesAtHost? || (mv.Acts? && !mv.m.BoardRepeats?)
  }

  lemma CalmIsInert(mv: LinkMove)
    requires Calm(mv)
    ensures InertMove(mv)
  {}

  /** A run of this system that has reached a world without loss, damage, noise or repeated
      acknowledgements. */
  ghost predicate Reached(w: World) {
    exists states: seq<World>, moves: seq<LinkMove> :: RunsTo(states, moves, w)
  }

  ghost predicate RunsTo(states: seq<World>, moves: seq<LinkMove>, w: World) {
    LinkRun(states, moves) && |states| == |moves| + 1 && states[|moves|] == w && forall mv <- moves :: Calm(mv)
  }

  lemma Extends(states: seq<World>, moves: seq<LinkMove>, mv: LinkMove)
    requires LinkRun(states, moves) && |states| == |moves| + 1 && LinkEnabled(states[|moves|], mv)
    ensures LinkRun(states + [LinkAfter(states[|moves|], mv)], moves + [mv])
  {
    hide Initial, LinkEnabled, LinkAfter;
  }

  lemma Next(w: World, mv: LinkMove, v: World)
    requires Reached(w) && LinkEnabled(w, mv) && LinkAfter(w, mv) == v && Calm(mv)
    ensures Reached(v)
  {
    hide LinkRun, LinkEnabled, LinkAfter, Calm;
    var states, moves :| RunsTo(states, moves, w);
    Extends(states, moves, mv);
    assert RunsTo(states + [v], moves + [mv], v);
  }

  function Flat(host: Context, num: nat, floor: nat, board: Board, inB: seq<Tagged>, inH: seq<Tagged>,
                down: seq<Packet>, up: seq<Packet>): World
  {
    World(Sys(host, inB, inH, board, num, floor), Line(down, [], []), Line(up, [], []))
  }

  /** A frame as sent. */
  function Sent(f: Frame, num: nat): Packet
    requires |f.payload| <= MAX_PAYLOAD
  {
    Packet(Wire(f), [Tagged(f, num)])
  }

  lemma SentFrames(f: Frame, num: nat)
    requires |f.payload| <= MAX_PAYLOAD
    ensures Tag(Frames(Segments(Wire(f))), num) == [Tagged(f, num)]
  {
    hide Wire, Segments, Frames;
    ParsedBack(f);
  }

  /** The head of a line of whole packets is delivered as the frame it is. */
  lemma SentArrives(f: Frame, num: nat, later: seq<Packet>)
    requires |f.payload| <= MAX_PAYLOAD
    ensures var l := Line([Sent(f, num)] + later, [], []);
      Delivered(l) == [Tagged(f, num)] && AfterArrival(l) == Line(later, [], [])
  {
    hide Wire, Segments, Frames, Held;
    var l := Line([Sent(f, num)] + later, [], []);
    PacketFound(Sent(f, num));
    assert l.flying[0] == Sent(f, num) && [] + Wire(f) == Wire(f) && l.flying[1..] == later;
    assert Expected(l) == [Tagged(f, num)] && FoundBy(l) == [f];
    assert Find(f, [Tagged(f, num)]) == 0 && [f][1..] == [];
    assert Matched([], [Tagged(f, num)][1..]) == [];
  }

  /** A call into the session that sends its next frame. */
  lemma HostSends(w: World, m: Move, next: Context, f: Frame)
    requires LinkEnabled(w, Acts(m)) && HostMoves(m) && |f.payload| <= MAX_PAYLOAD
    requires Stepped(w.ends.host, InputOf(w.ends, m)) == Outcome(next, Wire(f)) && next.seqNo != w.ends.host.seqNo
    ensures var (s, i) := (w.ends, InputOf(w.ends, m));
      var floor := if Answers(s.host, i) then s.num else s.floor;
      LinkAfter(w, Acts(m)) ==
        World(Sys(next, s.toBoard, if m.HostReceives? then s.toHost[1..] else s.toHost, s.board, s.num + 1, floor),
              Put(w.down, Sent(f, s.num + 1)), w.up)
  {
    hide Stepped, Wire, Segments, Frames, Answers, Tag;
    SentFrames(f, w.ends.num + 1);
    assert [] + [Tagged(f, w.ends.num + 1)] == [Tagged(f, w.ends.num + 1)];
  }

  lemma BoardSends(w: World, m: Move, f: Frame, num: nat)
    requires LinkEnabled(w, Acts(m)) && |f.payload| <= MAX_PAYLOAD
    requires (m == BoardSays(f) && num == 0) ||
      (m == BoardRepeats && f == Frame(ACK, w.ends.board.last.value, []) && num == w.ends.board.lastNum) ||
      (m == BoardAccepts && f == Frame(ACK, w.ends.toBoard[0].frame.seqNo, []) && num == w.ends.toBoard[0].num)
    ensures var s := w.ends;
      LinkAfter(w, Acts(m)) ==
        World(if !m.BoardAccepts? then s
              else s.(board := AfterFrame(s.board, s.toBoard[0]), toBoard := s.toBoard[1..]),
              w.down, Put(w.up, Sent(f, num)))
  {
    hide Wire, AfterFrame;
    var t := OtaSystem.After(w.ends.(toHost := []), m);
    assert t.toHost == [Tagged(f, num)];
  }

  lemma ReachedStart(w: World)
    requires Initial(w.ends) && |w.ends.host.image| < TWO_32 && w.down == Line([], [], []) && w.up == Line([], [], [])
    ensures Reached(w)
  {
    hide Initial;
    assert RunsTo([w], [], w);
  }

  // ----- one exchange ------------------------------------------------------------------------

  /** A call into the session that sends nothing and keeps the number. */
  lemma HostSilent(w: World, m: Move, next: Context)
    requires LinkEnabled(w, Acts(m)) && HostMoves(m)
    requires Stepped(w.ends.host, InputOf(w.ends, m)) == Outcome(next, []) && next.seqNo == w.ends.host.seqNo
    ensures var (s, i) := (w.ends, InputOf(w.ends, m));
      var floor := if Answers(s.host, i) then s.num else s.floor;
      LinkAfter(w, Acts(m)) ==
        World(Sys(next, s.toBoard, if m.HostReceives? then s.toHost[1..] else s.toHost, s.board, s.num, floor),
              Put(w.down, Packet([], [])), w.up)
  {
    hide Stepped, Segments, Frames, Answers, Tag;
    NothingFound();
    var t := OtaSystem.After(w.ends.(toBoard := []), m);
    assert t.toBoard == [] + Tag([], w.ends.num);
    assert t.toBoard == [];
  }

  lemma NothingFound()
    ensures Frames(Segments([])) == [] && Held([]) == []
    ensures forall n: nat :: Tag([], n) == []
  {
    hide Tag;
    HeldBack([]);
    ScanNothing();
    forall n: nat ensures Tag([], n) == [] {
      assert |Tag([], n)| == 0;
    }
  }

  /** The board takes a frame, acts on it and acknowledges it, and the ACK reaches the host. */
  lemma BoardAnswers(h: Context, num: nat, floor: nat, b: Board, f: Frame, k: nat)
    requires InImage(h) && |f.payload| <= MAX_PAYLOAD && BoardActsOn(f)
    requires Reached(Flat(h, num, floor, b, [], [], [Sent(f, k)], []))
    ensures Reached(Flat(h, num, floor, AfterFrame(b, Tagged(f, k)), [], [Tagged(Frame(ACK, f.seqNo, []), k)], [], []))
  {
    hide Inv, InImage, Wire, Segments, Frames, Reached, Stepped, Delivered, AfterArrival, AfterFrame, BoardActsOn;
    var ack := Frame(ACK, f.seqNo, []);
    var w0 := Flat(h, num, floor, b, [], [], [Sent(f, k)], []);
    SentArrives(f, k, []);
    assert [Sent(f, k)] + [] == [Sent(f, k)] && [Sent(ack, k)] + [] == [Sent(ack, k)];
    var w1 := Flat(h, num, floor, b, [Tagged(f, k)], [], [], []);
    Next(w0, ArrivesAtBoard, w1);
    var b' := AfterFrame(b, Tagged(f, k));
    var w2 := Flat(h, num, floor, b', [], [], [], [Sent(ack, k)]);
    BoardSends(w1, BoardAccepts, ack, k);
    Next(w1, Acts(BoardAccepts), w2);
    SentArrives(ack, k, []);
    Next(w2, ArrivesAtHost, Flat(h, num, floor, b', [], [Tagged(ack, k)], [], []));
  }

  /** The board takes a frame and answers with a frame that is not an ACK. */
  lemma BoardTells(h: Context, num: nat, floor: nat, b: Board, f: Frame, k: nat, g: Frame)
    requires InImage(h) && |f.payload| <= MAX_PAYLOAD && |g.payload| <= MAX_PAYLOAD && g.kind != ACK
    requires Reached(Flat(h, num, floor, b, [], [], [Sent(f, k)], []))
    ensures Reached(Flat(h, num, floor, b, [], [Tagged(g, 0)], [], []))
  {
    hide Inv, InImage, Wire, Segments, Frames, Reached, Stepped, Delivered, AfterArrival;
    var w0 := Flat(h, num, floor, b, [], [], [Sent(f, k)], []);
    SentArrives(f, k, []);
    assert [Sent(f, k)] + [] == [Sent(f, k)] && [Sent(g, 0)] + [] == [Sent(g, 0)];
    var w1 := Flat(h, num, floor, b, [Tagged(f, k)], [], [], []);
    Next(w0, ArrivesAtBoard, w1);
    var w2 := Flat(h, num, floor, b, [], [], [], []);
    Next(w1, Acts(BoardRefuses), w2);
    var w3 := Flat(h, num, floor, b, [], [], [], [Sent(g, 0)]);
    BoardSends(w2, BoardSays(g), g, 0);
    Next(w2, Acts(BoardSays(g)), w3);
    SentArrives(g, 0, []);
    Next(w3, ArrivesAtHost, Flat(h, num, floor, b, [], [Tagged(g, 0)], [], []));
  }

  /** The host takes the one frame it has and sends its next. */
  lemma HostContinues(h: Context, num: nat, floor: nat, b: Board, x: Tagged, at: int, next: Context, f: Frame)
    requires InImage(h) && |f.payload| <= MAX_PAYLOAD && next.seqNo != h.seqNo
    requires Stepped(h, Receive(x.frame, at)) == Outcome(next, Wire(f))
    requires Reached(Flat(h, num, floor, b, [], [x], [], []))
    ensures var floor' := if Answers(h, Receive(x.frame, at)) then num else floor;
      Reached(Flat(next, num + 1, floor', b, [], [], [Sent(f, num + 1)], []))
  {
    hide Inv, InImage, Wire, Reached, Stepped, Answers, Sent;
    var w := Flat(h, num, floor, b, [], [x], [], []);
    var floor' := if Answers(h, Receive(x.frame, at)) then num else floor;
    HostSends(w, HostReceives(at), next, f);
    assert [] + [Sent(f, num + 1)] == [Sent(f, num + 1)];
    Next(w, Acts(HostReceives(at)), Flat(next, num + 1, floor', b, [], [], [Sent(f, num + 1)], []));
  }

  /** The host takes the one frame it has and sends nothing. */
  lemma HostPauses(h: Context, num: nat, floor: nat, b: Board, x: Tagged, at: int, next: Context)
    requires InImage(h) && InImage(next) && next.seqNo == h.seqNo
    requires Stepped(h, Receive(x.frame, at)) == Outcome(next, [])
    requires Reached(Flat(h, num, floor, b, [], [x], [], []))
    ensures var floor' := if Answers(h, Receive(x.frame, at)) then num else floor;
      Reached(Flat(next, num, floor', b, [], [], [], []))
  {
    hide Inv, InImage, Reached, Stepped, Answers, Segments, Frames, Held;
    var w := Flat(h, num, floor, b, [], [x], [], []);
    var floor' := if Answers(h, Receive(x.frame, at)) then num else floor;
    HostSilent(w, HostReceives(at), next);
    var v := Flat(next, num, floor', b, [], [], [Packet([], [])], []);
    Next(w, Acts(HostReceives(at)), v);
    NothingFound();
    var nothing: seq<bv8> := [];
    assert nothing + nothing == nothing;
    Next(v, ArrivesAtBoard, Flat(next, num, floor', b, [], [], [], []));
  }
}
