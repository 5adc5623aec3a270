/** Splitting the serial byte stream into flash frames and telemetry text
    (src/integration/FlashFrameParser.cpp). `Segments` and `Held` say what a scan of a byte
    string finds and what it keeps back; the class follows the code and is proved against them. */
module FlashFrameParser {
  import opened FlashFrame
  import Crc16

  // ----- what one scan means -----------------------------------------------------------------

  /** The parser's decision at its current position. */
  datatype Head = TextByte | FalseStart | Incomplete | Complete(frame: Frame)

  function HeadOf(w: seq<bv8>): (h: Head)
    requires w != []
    ensures h.Complete? ==> |h.frame.payload| <= MAX_PAYLOAD && Wire(h.frame) <= w
    ensures h.Incomplete? ==> w[0] == START && |w| < HEADER + MAX_PAYLOAD + TRAILER
  {
    if w[0] != START then TextByte
    else if |w| < HEADER then Incomplete
    else
      var len := ReadLength(w[4], w[5]);
      if len > MAX_PAYLOAD then FalseStart
      else if |w| < HEADER + len + TRAILER then Incomplete
      else
        var at := HEADER + len;
        if ReadLittle16(w[at], w[at + 1]) != Crc16.Crc16(w[1..at]) then FalseStart
        else
          var f := Frame(w[1], ReadLittle16(w[2], w[3]), w[HEADER..at]);
          ReencodesPrefix(w, f);
          Complete(f)
  }

  lemma CoveredIs(w: seq<bv8>, f: Frame)
    requires |f.payload| <= MAX_PAYLOAD && |w| >= HEADER + |f.payload|
    requires w[1] == f.kind && Little16(f.seqNo) == [w[2], w[3]] && LengthBytes(|f.payload|) == [w[4], w[5]]
    requires w[HEADER..HEADER + |f.payload|] == f.payload
    ensures Covered(f) == w[1..HEADER + |f.payload|]
  {
    hide Little16, LengthBytes;
    var at := HEADER + |f.payload|;
    assert w[1..at] == w[1..HEADER] + w[HEADER..at];
    assert w[1..HEADER] == [w[1]] + [w[2], w[3]] + [w[4], w[5]];
  }

  lemma FrontOf(w: seq<bv8>, at: nat)
    requires 1 <= at && at + TRAILER <= |w|
    ensures w[..at + TRAILER] == [w[0]] + w[1..at] + [w[at], w[at + 1]]
  {}

  lemma ReencodesPrefix(w: seq<bv8>, f: Frame)
    requires |f.payload| <= MAX_PAYLOAD && |w| >= HEADER + |f.payload| + TRAILER
    requires w[0] == START && w[1] == f.kind && ReadLittle16(w[2], w[3]) == f.seqNo
    requires ReadLength(w[4], w[5]) == |f.payload| && w[HEADER..HEADER + |f.payload|] == f.payload
    requires var at := HEADER + |f.payload|;
      ReadLittle16(w[at], w[at + 1]) == Crc16.Crc16(w[1..at])
    ensures Wire(f) <= w
  {
    hide Little16, ReadLittle16, LengthBytes, ReadLength, Covered;
    var at := HEADER + |f.payload|;
    ReadThenLittle16(w[2], w[3]);
    ReadThenLength(w[4], w[5]);
    ReadThenLittle16(w[at], w[at + 1]);
    CoveredIs(w, f);
    FrontOf(w, at);
  }

  datatype Segment = Text(b: bv8) | Dropped | Whole(frame: Frame)

  function SegmentBytes(s: Segment): (bytes: seq<bv8>)
    requires s.Whole? ==> |s.frame.payload| <= MAX_PAYLOAD
  {
    match s
    case Text(b) => [b]
    case Dropped => [START]
    case Whole(f) => Wire(f)
  }

  /** The segment a decision cuts off, with the decision's own length. */
  function Cut(w: seq<bv8>): (s: Segment)
    requires w != [] && !HeadOf(w).Incomplete?
    ensures s.Whole? ==> |s.frame.payload| <= MAX_PAYLOAD
    ensures SegmentBytes(s) <= w && |SegmentBytes(s)| > 0
  {
    match HeadOf(w)
    case TextByte => Text(w[0])
    case Complete(f) => Whole(f)
    case _ => Dropped
  }

  function After(w: seq<bv8>): (rest: seq<bv8>)
    requires w != [] && !HeadOf(w).Incomplete?
    ensures |rest| < |w|
  {
    w[|SegmentBytes(Cut(w))|..]
  }

  /** Everything a scan of `w` finds, in order. */
  function Segments(w: seq<bv8>): (segs: seq<Segment>)
    ensures forall s <- segs :: s.Whole? ==> |s.frame.payload| <= MAX_PAYLOAD
    decreases |w|
  {
    if w == [] || HeadOf(w).Incomplete? then [] else [Cut(w)] + Segments(After(w))
  }

  /** The bytes of one unfinished frame that a scan of `w` keeps for the next call. */
  function Held(w: seq<bv8>): (rest: seq<bv8>)
    ensures rest != [] ==> rest[0] == START && |rest| < HEADER + MAX_PAYLOAD + TRAILER
    ensures rest != [] ==> HeadOf(rest).Incomplete?
    decreases |w|
  {
    if w == [] || HeadOf(w).Incomplete? then w else Held(After(w))
  }

  function Frames(segs: seq<Segment>): seq<Frame> {
    if segs == [] then []
    else if segs[0].Whole? then [segs[0].frame] + Frames(segs[1..])
    else Frames(segs[1..])
  }

  function TextOf(segs: seq<Segment>): seq<bv8> {
    if segs == [] then []
    else if segs[0].Text? then [segs[0].b] + TextOf(segs[1..])
    else TextOf(segs[1..])
  }

  function FalseStarts(segs: seq<Segment>): nat {
    if segs == [] then 0
    else (if segs[0].Dropped? then 1 else 0) + FalseStarts(segs[1..])
  }

  lemma {:induction false} FramesConcat(a: seq<Segment>, b: seq<Segment>)
    ensures Frames(a + b) == Frames(a) + Frames(b)
  {
    if a == [] {
      assert a + b == b;
    } else {
      assert (a + b)[1..] == a[1..] + b;
      FramesConcat(a[1..], b);
    }
  }

  lemma {:induction false} TextConcat(a: seq<Segment>, b: seq<Segment>)
    ensures TextOf(a + b) == TextOf(a) + TextOf(b)
  {
    if a == [] {
      assert a + b == b;
    } else {
      assert (a + b)[1..] == a[1..] + b;
      TextConcat(a[1..], b);
    }
  }

  lemma {:induction false} FalseStartsConcat(a: seq<Segment>, b: seq<Segment>)
    ensures FalseStarts(a + b) == FalseStarts(a) + FalseStarts(b)
  {
    if a == [] {
      assert a + b == b;
    } else {
      assert (a + b)[1..] == a[1..] + b;
      FalseStartsConcat(a[1..], b);
    }
  }

  lemma ProjectionsConcat(a: seq<Segment>, b: seq<Segment>)
    ensures Frames(a + b) == Frames(a) + Frames(b)
    ensures TextOf(a + b) == TextOf(a) + TextOf(b)
    ensures FalseStarts(a + b) == FalseStarts(a) + FalseStarts(b)
  {
    FramesConcat(a, b);
    TextConcat(a, b);
    FalseStartsConcat(a, b);
  }

  // ----- the class ---------------------------------------------------------------------------

  datatype StreamOutput = StreamOutput(frames: seq<Frame>, text: seq<bv8>)

  /** The checks of one loop pass, in the code's order. */
  method ReadHead(work: seq<bv8>, pos: nat) returns (head: Head)
    requires pos < |work|
    ensures head == HeadOf(work[pos..])
    ensures head.Complete? ==> pos + HEADER + |head.frame.payload| + TRAILER <= |work|
  {
    hide HeadOf, ReadLength, ReadLittle16;
    HeadCases(work[pos..]);
    if work[pos] != START {
      return TextByte;
    }
    var available := |work| - pos;
    if available < HEADER {
      return Incomplete;
    }
    var len := ReadLength(work[pos + 4], work[pos + 5]);
    if len > MAX_PAYLOAD {
      return FalseStart;
    }
    var total := HEADER + len + TRAILER;
    if available < total {
      return Incomplete;
    }
    var crcOffset := pos + HEADER + len;
    var received := ReadLittle16(work[crcOffset], work[crcOffset + 1]);
    var computed := Crc16.Crc16CcittFalse(work[pos + 1..crcOffset]);
    assert work[pos + 1..crcOffset] == work[pos..][1..HEADER + len];
    if received != computed {
      return FalseStart;
    }
    assert work[pos + HEADER..crcOffset] == work[pos..][HEADER..HEADER + len];
    return Complete(Frame(work[pos + 1], ReadLittle16(work[pos + 2], work[pos + 3]),
                          work[pos + HEADER..crcOffset]));
  }

  class Parser {
    var buffer: seq<bv8>
    var falseStarts: nat

    constructor ()
      ensures buffer == [] && falseStarts == 0
    {
      buffer := [];
      falseStarts := 0;
    }

    method Consume(bytes: seq<bv8>) returns (out: StreamOutput)
      modifies this
      ensures var segs := Segments(old(buffer) + bytes);
        && out == StreamOutput(Frames(segs), TextOf(segs))
        && falseStarts == old(falseStarts) + FalseStarts(segs)
      ensures buffer == Held(old(buffer) + bytes)
    {
      hide HeadOf, Cut, After, Segments, Held, Frames, TextOf, FalseStarts, ReadLength, ReadLittle16;
      ScanNothing();
      var frames: seq<Frame>, text: seq<bv8> := [], [];
      var work := buffer;
      buffer := [];
      work := work + bytes;
      ghost var segs: seq<Segment> := [];
      var pos := 0;
      assert work[0..] == work;
      while pos < |work|
        invariant 0 <= pos <= |work|
        invariant segs + Segments(work[pos..]) == Segments(work)
        invariant Held(work[pos..]) == Held(work)
        invariant frames == Frames(segs) && text == TextOf(segs)
        invariant falseStarts == old(falseStarts) + FalseStarts(segs)
        decreases |work| - pos
      {
        ghost var w := work[pos..];
        var head := ReadHead(work, pos);
        match head {
          case TextByte =>
            TextFound(segs, w);
            assert w[1..] == work[pos + 1..];
            segs := segs + [Text(w[0])];
            text := text + [work[pos]];
            pos := pos + 1;
          case Incomplete =>
            break;
          case FalseStart =>
            DropFound(segs, w);
            assert w[1..] == work[pos + 1..];
            segs := segs + [Dropped];
            falseStarts := falseStarts + 1;
            pos := pos + 1;
          case Complete(frame) =>
            FrameFound(segs, w, frame);
            var total := HEADER + |frame.payload| + TRAILER;
            assert w[total..] == work[pos + total..];
            segs := segs + [Whole(frame)];
            frames := frames + [frame];
            pos := pos + total;
        }
      }
      buffer := work[pos..];
      HeldBack(work[pos..]);
      assert segs == Segments(work) by {
        assert segs + [] == segs;
      }
      out := StreamOutput(frames, text);
    }
  }

  lemma ScanNothing()
    ensures Frames([]) == [] && TextOf([]) == [] && FalseStarts([]) == 0
  {}

  /** Held bytes scan to nothing: they wait. */
  lemma HeldBack(w: seq<bv8>)
    requires w != [] ==> HeadOf(w).Incomplete?
    ensures Segments(w) == [] && Held(w) == w
  {
    hide HeadOf;
  }

  lemma ScanStep(w: seq<bv8>)
    requires w != [] && !HeadOf(w).Incomplete?
    ensures Segments(w) == [Cut(w)] + Segments(After(w))
    ensures Held(w) == Held(After(w))
  {
    hide HeadOf, Cut, After;
  }

  lemma CutOne(w: seq<bv8>)
    requires w != [] && !HeadOf(w).Incomplete?
    ensures Frames([Cut(w)]) == if HeadOf(w).Complete? then [HeadOf(w).frame] else []
    ensures TextOf([Cut(w)]) == if HeadOf(w).TextByte? then [w[0]] else []
    ensures FalseStarts([Cut(w)]) == if HeadOf(w).FalseStart? then 1 else 0
    ensures After(w) == w[if HeadOf(w).Complete? then HEADER + |HeadOf(w).frame.payload| + TRAILER else 1..]
  {
    hide HeadOf, Wire;
    assert Frames([Cut(w)][1..]) == [] && TextOf([Cut(w)][1..]) == [] && FalseStarts([Cut(w)][1..]) == 0;
  }

  // One decision of the loop, as the lists it extends see it.

  lemma TextFound(segs: seq<Segment>, w: seq<bv8>)
    requires w != [] && HeadOf(w) == TextByte
    ensures segs + Segments(w) == segs + [Text(w[0])] + Segments(w[1..])
    ensures Held(w) == Held(w[1..])
    ensures Frames(segs + [Text(w[0])]) == Frames(segs)
    ensures TextOf(segs + [Text(w[0])]) == TextOf(segs) + [w[0]]
    ensures FalseStarts(segs + [Text(w[0])]) == FalseStarts(segs)
  {
    hide HeadOf, After, Segments, Held, Frames, TextOf, FalseStarts;
    ScanStep(w);
    CutOne(w);
    ProjectionsConcat(segs, [Text(w[0])]);
  }

  lemma DropFound(segs: seq<Segment>, w: seq<bv8>)
    requires w != [] && HeadOf(w) == FalseStart
    ensures segs + Segments(w) == segs + [Dropped] + Segments(w[1..])
    ensures Held(w) == Held(w[1..])
    ensures Frames(segs + [Dropped]) == Frames(segs)
    ensures TextOf(segs + [Dropped]) == TextOf(segs)
    ensures FalseStarts(segs + [Dropped]) == FalseStarts(segs) + 1
  {
    hide HeadOf, After, Segments, Held, Frames, TextOf, FalseStarts;
    ScanStep(w);
    CutOne(w);
    ProjectionsConcat(segs, [Dropped]);
  }

  lemma FrameFound(segs: seq<Segment>, w: seq<bv8>, f: Frame)
    requires w != [] && HeadOf(w) == Complete(f)
    ensures segs + Segments(w) == segs + [Whole(f)] + Segments(w[HEADER + |f.payload| + TRAILER..])
    ensures Held(w) == Held(w[HEADER + |f.payload| + TRAILER..])
    ensures Frames(segs + [Whole(f)]) == Frames(segs) + [f]
    ensures TextOf(segs + [Whole(f)]) == TextOf(segs)
    ensures FalseStarts(segs + [Whole(f)]) == FalseStarts(segs)
  {
    hide HeadOf, After, Segments, Held, Frames, TextOf, FalseStarts;
    ScanStep(w);
    CutOne(w);
    ProjectionsConcat(segs, [Whole(f)]);
  }

  lemma HeadCases(w: seq<bv8>)
    requires w != []
    ensures w[0] != START ==> HeadOf(w) == TextByte
    ensures w[0] == START && |w| < HEADER ==> HeadOf(w) == Incomplete
    ensures w[0] == START && |w| >= HEADER ==>
      var len := ReadLength(w[4], w[5]);
      && (len > MAX_PAYLOAD ==> HeadOf(w) == FalseStart)
      && (len <= MAX_PAYLOAD && |w| < HEADER + len + TRAILER ==> HeadOf(w) == Incomplete)
      && (len <= MAX_PAYLOAD && |w| >= HEADER + len + TRAILER ==>
        HeadOf(w) ==
          if ReadLittle16(w[HEADER + len], w[HEADER + len + 1]) != Crc16.Crc16(w[1..HEADER + len]) then FalseStart
          else Complete(Frame(w[1], ReadLittle16(w[2], w[3]), w[HEADER..HEADER + len])))
  {
    hide ReadLength, ReadLittle16;
  }
}
