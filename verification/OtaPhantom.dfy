/** Why a run must be free of phantoms: one flipped bit in a frame whose payload holds an encoded COMMIT
    makes the board find that COMMIT while nothing of the image is in the bank. */
module OtaPhantom {
  import opened Wrappers
  import opened FlashFrame
  import opened FlashFrameParser
  import opened FlashStream
  import opened OtaTable
  import opened OtaInvariant
  import opened OtaRuns
  import opened OtaSystem
  import opened OtaLink
  import opened OtaInertLink
  import opened OtaCalmRuns
  import Crc16

  // ----- the frame ---------------------------------------------------------------------------

  /** The frame hidden in the image, and the image: its encoding. */
  const HIDDEN: Frame := Frame(COMMIT, 9, [])

  function Image(): (image: seq<bv8>)
    ensures |image| == 8 && image[0] == START
  {
    Wire(HIDDEN)
  }

  function Data(): (f: Frame)
    ensures |f.payload| <= MAX_PAYLOAD
  {
    Frame(DATA, 3, DataPayload(Image(), 0))
  }

  /** TYPE arrives as 0x02 instead of 0x03. */
  function Damaged(): seq<bv8> {
    Wire(Data())[1 := BEGIN]
  }

  lemma PayloadIs()
    ensures DataPayload(Image(), 0) == Little32(0) + Image()
  {
    hide Wire;
    assert Image()[0..8] == Image();
    assert Padding(8) == [];
  }

  lemma FirstByteWindow(rest: seq<bv8>)
    ensures Crc16.DifferOnlyInWindow([BEGIN] + rest, [DATA] + rest, 0)
  {
    var (a, b) := ([BEGIN] + rest, [DATA] + rest);
    assert a[1..] == rest && b[1..] == rest;
    assert Crc16.Bits(a) == Crc16.BitsOfByte(BEGIN) + Crc16.Bits(rest);
    assert Crc16.Bits(b) == Crc16.BitsOfByte(DATA) + Crc16.Bits(rest);
  }

  /** What stands between the start byte and the image after the damage holds no start byte. */
  function Front(): seq<bv8> {
    [BEGIN] + Little16(3) + LengthBytes(12) + Little32(0)
  }

  lemma FrontIsText()
    ensures START !in Front()
  {
    assert Little16(3) == [3, 0];
    assert LengthBytes(12) == [ByteOf(12), ByteOf(0)];
    assert Little32(0) == [ByteOf(0), ByteOf(0), ByteOf(0), ByteOf(0)];
    assert ByteOf(12) as int == 12 && ByteOf(0) as int == 0 && START as int == 165;
  }

  lemma DamagedIs()
    ensures Covered(Data()) == [DATA] + Covered(Data())[1..]
    ensures var crc := Little16(Crc16.Crc16(Covered(Data())));
      Damaged() == [START] + ([BEGIN] + Covered(Data())[1..]) + crc && Damaged()[1..] == Front() + (Image() + crc)
  {
    hide Little16, LengthBytes, Little32, Crc16.Crc16, Image;
    PayloadIs();
    var f := Data();
    var crc := Little16(Crc16.Crc16(Covered(f)));
    assert Covered(f) == [DATA] + Little16(3) + LengthBytes(12) + (Little32(0) + Image());
    assert Covered(f)[1..] == Little16(3) + LengthBytes(12) + (Little32(0) + Image());
  }

  lemma DamagedIsDropped()
    ensures Damaged() != [] && HeadOf(Damaged()) == FalseStart
  {
    hide HeadOf, Covered, Crc16.Crc16, Crc16.Bits, Little16, Damaged, Image, Data;
    var (f, w) := (Data(), Damaged());
    DamagedIs();
    var covered := [BEGIN] + Covered(f)[1..];
    FirstByteWindow(Covered(f)[1..]);
    assert covered[0] != Covered(f)[0];
    assert covered[3..5] == Covered(f)[3..5];
    DamageDropped(f, covered, 0, []);
    assert w + [] == w;
  }

  /** The parser drops the damaged frame's start byte, resumes right behind it, and finds the hidden
      frame. */
  lemma HiddenIsFound()
    ensures HIDDEN in Frames(Segments(Damaged()))
  {
    hide Segments, Frames, HeadOf, Covered, Crc16.Crc16, Little16, Front, Damaged, Image, Data;
    var crc := Little16(Crc16.Crc16(Covered(Data())));
    DamagedIs();
    DamagedIsDropped();
    DroppedScans(Damaged());
    FrontIsText();
    TextScanned(Front(), Image() + crc);
    ImageFound(crc);
  }

  lemma ImageFound(rest: seq<bv8>)
    ensures HIDDEN in Frames(Segments(Image() + rest))
  {
    hide Segments, Frames, HeadOf, Wire;
    FrameScanned(HIDDEN, rest);
    ProjectionsCons(Whole(HIDDEN), Segments(rest));
  }

  // ----- the session -------------------------------------------------------------------------

  const TIMING: Timing := Timing(0, 0, 0, 0)

  function Info(): (f: Frame)
    ensures |f.payload| <= MAX_PAYLOAD && f.kind != ACK
  {
    Frame(INFO, 0, [0, 0, 0, 0, 1, 0])
  }

  function Request(): (f: Frame)
    ensures |f.payload| <= MAX_PAYLOAD
  {
    Frame(INFO_REQ, 1, [])
  }

  function Begin(): (f: Frame)
    ensures |f.payload| <= MAX_PAYLOAD
  {
    Frame(BEGIN, 2, BeginPayload(Image(), 1))
  }

  function Host0(): (c: Context)
    ensures Inv(c) && InImage(c)
  {
    FreshInv(Image(), 1, TIMING);
    Fresh(Image(), 1, TIMING)
  }

  function Host1(): (c: Context)
    ensures Inv(c) && InImage(c)
  {
    StepKeeps(Host0(), Start(0));
    Stepped(Host0(), Start(0)).next
  }

  function Host2(): (c: Context)
    ensures Inv(c) && InImage(c)
  {
    StepKeeps(Host1(), Receive(Info(), 0));
    Stepped(Host1(), Receive(Info(), 0)).next
  }

  function Host3(): (c: Context)
    ensures Inv(c) && InImage(c)
  {
    StepKeeps(Host2(), Receive(Frame(ACK, 2, []), 0));
    Stepped(Host2(), Receive(Frame(ACK, 2, []), 0)).next
  }

  lemma HostAsks()
    ensures Stepped(Host0(), Start(0)) == Outcome(Host1(), Wire(Request()))
    ensures Host1().seqNo == 1 && Host1().state == Probing && Host1().failure == NoFailure && Host1().version == 1
    ensures Host1().image == Image() && Host1().sentBytes == 0
  {
    hide Wire, Inv, Image;
    assert NextSeq(0) == 1;
    assert Image() != [];
  }

  lemma InfoBegins(c: Context, f: Frame)
    requires InImage(c) && c.failure == NoFailure && c.state == Probing
    requires f.kind == INFO && |f.payload| == INFO_PAYLOAD && ReadLittle32(f.payload[..4]) != c.version
    ensures var o := Stepped(c, Receive(f, 0));
      && o.out == Wire(Frame(BEGIN, NextSeq(c.seqNo), BeginPayload(c.image, c.version)))
      && o.next.seqNo == NextSeq(c.seqNo) && o.next.state == Beginning && o.next.failure == NoFailure
      && o.next.image == c.image && o.next.sentBytes == c.sentBytes
  {
    hide Wire, BeginPayload, ReadLittle32, NextSeq;
  }

  lemma InfoVersion()
    ensures ReadLittle32(Info().payload[..4]) == 0
  {
    assert Info().payload[..4] == [0, 0, 0, 0];
  }

  lemma HostBegins()
    ensures Stepped(Host1(), Receive(Info(), 0)) == Outcome(Host2(), Wire(Begin()))
    ensures Host2().seqNo == 2 && Host2().state == Beginning && Host2().failure == NoFailure
    ensures Host2().image == Image() && Host2().sentBytes == 0
  {
    hide Wire, Inv, BeginPayload, Image, Host1, Stepped, ReadLittle32;
    HostAsks();
    InfoVersion();
    InfoBegins(Host1(), Info());
    assert NextSeq(1) == 2;
  }

  lemma AckStartsData(c: Context, f: Frame)
    requires InImage(c) && c.failure == NoFailure && c.state == Beginning && f.kind == ACK && f.seqNo == c.seqNo
    ensures var o := Stepped(c, Receive(f, 0));
      && o.out == Wire(Frame(DATA, NextSeq(c.seqNo), DataPayload(c.image, 0)))
      && o.next.seqNo == NextSeq(c.seqNo) && o.next.image == c.image
  {
    hide Wire, DataPayload, NextSeq;
  }

  lemma HostSendsData()
    ensures Stepped(Host2(), Receive(Frame(ACK, 2, []), 0)) == Outcome(Host3(), Wire(Data()))
    ensures Host3().seqNo == 3 && Host3().image == Image()
  {
    hide Wire, Inv, DataPayload, Image, Host2, Stepped;
    HostBegins();
    AckStartsData(Host2(), Frame(ACK, 2, []));
    assert NextSeq(2) == 3;
  }

  // ----- the run -----------------------------------------------------------------------------

  const EMPTY: Board := Board(map[], None, 0, None)

  /** After BEGIN: the bank is erased. */
  function Erased(): Board {
    Board(map[], Some(2), 2, Some(BeginPayload(Image(), 1)))
  }

  lemma StartPhase()
    ensures Reached(Flat(Host1(), 1, 0, EMPTY, [], [], [Sent(Request(), 1)], []))
  {
    hide Inv, Wire, Segments, Frames, Host1, Image, Inert, Reached, Stepped, Delivered, AfterArrival;
    HostAsks();
    var w0 := Flat(Host0(), 0, 0, EMPTY, [], [], [], []);
    ReachedStart(w0);
    HostSends(w0, HostCalls(Start(0)), Host1(), Request());
    Next(w0, Acts(HostCalls(Start(0))), Flat(Host1(), 1, 0, EMPTY, [], [], [Sent(Request(), 1)], []));
  }

  lemma BeginPhase()
    ensures Reached(Flat(Host2(), 2, 0, Erased(), [], [Tagged(Frame(ACK, 2, []), 2)], [], []))
  {
    hide Inv, Wire, Host1, Host2, Image, Reached, Stepped, BeginPayload;
    StartPhase();
    HostAsks();
    HostBegins();
    BoardTells(Host1(), 1, 0, EMPTY, Request(), 1, Info());
    HostContinues(Host1(), 1, 0, EMPTY, Tagged(Info(), 0), 0, Host2(), Begin());
    BoardAnswers(Host2(), 2, 0, EMPTY, Begin(), 2);
    assert AfterFrame(EMPTY, Tagged(Begin(), 2)) == Erased();
  }

  lemma DataPhase()
    ensures Reached(Flat(Host3(), 3, 2, Erased(), [], [], [Sent(Data(), 3)], []))
  {
    hide Inv, Wire, Host2, Host3, Image, Reached, Stepped, BeginPayload;
    BeginPhase();
    HostBegins();
    HostSendsData();
    HostContinues(Host2(), 2, 0, Erased(), Tagged(Frame(ACK, 2, []), 2), 0, Host3(), Data());
  }

  /** The damaged frame delivers the hidden COMMIT. */
  lemma HiddenDelivered(l: Line)
    requires l == Line([Packet(Damaged(), [])], [], [])
    ensures exists x <- Delivered(l) :: x.frame.kind == COMMIT
  {
    hide Segments, Frames, Damaged, Matched;
    HiddenIsFound();
    assert l.held + Damaged() == Damaged();
    assert Expected(l) == [];
    var x := UnsentMatched(FoundBy(l), HIDDEN);
  }

  lemma {:induction false} UnsentMatched(found: seq<Frame>, f: Frame) returns (x: Tagged)
    requires f in found
    ensures x in Matched(found, []) && x.frame == f
  {
    assert Matched(found, []) == [Tagged(found[0], 0)] + Matched(found[1..], []);
    if f == found[0] {
      x := Tagged(f, 0);
    } else {
      x := UnsentMatched(found[1..], f);
    }
  }

  /** The flipped bit, and the arrival of what it leaves. */
  function Flipped(): LinkMove {
    HitsDown(0, Wire(Data())[1 := BEGIN])
  }

  function Sending(): World {
    Flat(Host3(), 3, 2, Erased(), [], [], [Sent(Data(), 3)], [])
  }

  function Hurt(): World {
    Flat(Host3(), 3, 2, Erased(), [], [], [Packet(Damaged(), [])], [])
  }

  lemma FlipHits()
    ensures LinkEnabled(Sending(), Flipped()) && LinkAfter(Sending(), Flipped()) == Hurt()
  {
    hide Wire, Host3, Inv, InImage, Data, Sent, Erased;
    assert [Sent(Data(), 3)][0 := Packet(Damaged(), [])] == [Packet(Damaged(), [])];
  }

  /** An arrival as the board sees it. */
  lemma ArrivalAtBoard(w: World)
    requires LinkEnabled(w, ArrivesAtBoard)
    ensures LinkAfter(w, ArrivesAtBoard).ends == w.ends.(toBoard := w.ends.toBoard + Delivered(w.down))
  {
    hide Delivered, AfterArrival, InImage;
  }

  lemma HurtIs()
    ensures LinkEnabled(Hurt(), ArrivesAtBoard)
    ensures var (line, ends) := (Hurt().down, Hurt().ends);
      && line == Line([Packet(Damaged(), [])], [], [])
      && ends.board.flash == map[] && ends.host.image == Image() && ends.toBoard == []
  {
    hide Image, Host3, Inv, InImage, Damaged, BeginPayload;
    HostSendsData();
  }

  lemma HurtBreaks()
    ensures LinkEnabled(Hurt(), ArrivesAtBoard) && Broken(LinkAfter(Hurt(), ArrivesAtBoard))
  {
    hide Image, Delivered, Broken, LinkEnabled, LinkAfter, Damaged, Hurt;
    HurtIs();
    HiddenDelivered(Hurt().down);
    ArrivalAtBoard(Hurt());
    assert [] + Delivered(Hurt().down) == Delivered(Hurt().down);
    BrokenEnd(LinkAfter(Hurt(), ArrivesAtBoard));
  }

  lemma BrokenEnd(w: World)
    requires (exists x <- w.ends.toBoard :: x.frame.kind == COMMIT)
    requires w.ends.board.flash == map[] && w.ends.host.image == Image()
    ensures Broken(w)
  {
    hide Image;
    assert Bank(w.ends.board, 8)[0] == ERASED;
  }

  /** The board has found a COMMIT while its bank does not hold the image. */
  predicate Broken(w: World) {
    (exists x <- w.ends.toBoard :: x.frame.kind == COMMIT) && Bank(w.ends.board, |w.ends.host.image|) != w.ends.host.image
  }

  /** Where safety fails: a run in which everything but one flipped bit of a DATA frame is inert, and
      which ends broken. */
  lemma OneBitCommits() returns (states: seq<World>, moves: seq<LinkMove>)
    ensures LinkRun(states, moves) && |states| == |moves| + 1 && |moves| >= 2
    ensures var hit := |moves| - 2;
      && moves[hit] == Flipped() && states[hit].down.flying == [Sent(Data(), 3)]
      && forall i :: 0 <= i < |moves| && i != hit ==> InertMove(moves[i])
    ensures Broken(states[|moves|])
  {
    hide LinkRun, LinkEnabled, LinkAfter, Broken, Flat, Erased, Sent, Flipped, InertMove, Hurt;
    DataPhase();
    FlipHits();
    HurtBreaks();
    SendingLine();
    states, moves := TwoMore(Sending(), Flipped(), ArrivesAtBoard);
  }

  lemma TwoMore(w: World, a: LinkMove, b: LinkMove) returns (states: seq<World>, moves: seq<LinkMove>)
    requires Reached(w) && LinkEnabled(w, a) && LinkEnabled(LinkAfter(w, a), b) && InertMove(b)
    ensures LinkRun(states, moves) && |states| == |moves| + 1 && |moves| >= 2
    ensures moves[|moves| - 2] == a && states[|moves| - 2] == w && states[|moves|] == LinkAfter(LinkAfter(w, a), b)
    ensures forall i :: 0 <= i < |moves| && i != |moves| - 2 ==> InertMove(moves[i])
  {
    hide LinkRun, LinkEnabled, LinkAfter, InertMove;
    var before, calm :| RunsTo(before, calm, w);
    var v := LinkAfter(w, a);
    Extends(before, calm, a);
    Extends(before + [v], calm + [a], b);
    states := before + [v] + [LinkAfter(v, b)];
    moves := calm + [a] + [b];
    assert forall i :: 0 <= i < |calm| ==> moves[i] == calm[i] && calm[i] in calm && Calm(calm[i]);
    forall i | 0 <= i < |calm| ensures InertMove(moves[i]) {
      CalmIsInert(calm[i]);
    }
  }

  lemma SendingLine()
    ensures Sending().down.flying == [Sent(Data(), 3)]
    ensures InertMove(ArrivesAtBoard)
  {}
}
