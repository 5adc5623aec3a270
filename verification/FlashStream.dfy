/** What the frame parser guarantees about whole byte streams: any chunking gives the same
    result, encoded frames and text are recovered exactly, and no byte is lost or invented. */
module FlashStream {
  import opened FlashFrame
  import opened FlashFrameParser
  import Crc16

  // ----- chunking ----------------------------------------------------------------------------

  /** The parser object as a value, between two calls. */
  datatype ParserState = ParserState(buffer: seq<bv8>, falseStarts: nat)

  const FRESH := ParserState([], 0)

  /** The effect of one `Parser.Consume`, as its contract states it. */
  function AfterCall(s: ParserState, bytes: seq<bv8>): ParserState {
    ParserState(Held(s.buffer + bytes), s.falseStarts + FalseStarts(Segments(s.buffer + bytes)))
  }

  function CallOutput(s: ParserState, bytes: seq<bv8>): StreamOutput {
    var segs := Segments(s.buffer + bytes);
    StreamOutput(Frames(segs), TextOf(segs))
  }

  function AfterCalls(s: ParserState, chunks: seq<seq<bv8>>): ParserState
    decreases |chunks|
  {
    if chunks == [] then s else AfterCalls(AfterCall(s, chunks[0]), chunks[1..])
  }

  /** The outputs of successive calls, joined in order. */
  function JoinedOutput(s: ParserState, chunks: seq<seq<bv8>>): StreamOutput
    decreases |chunks|
  {
    if chunks == [] then StreamOutput([], [])
    else
      var first := CallOutput(s, chunks[0]);
      var later := JoinedOutput(AfterCall(s, chunks[0]), chunks[1..]);
      StreamOutput(first.frames + later.frames, first.text + later.text)
  }

  function Joined(chunks: seq<seq<bv8>>): seq<bv8> {
    if chunks == [] then [] else chunks[0] + Joined(chunks[1..])
  }

  /** A decision once made does not change when more bytes arrive. */
  lemma HeadStable(w: seq<bv8>, x: seq<bv8>)
    requires w != [] && !HeadOf(w).Incomplete?
    ensures HeadOf(w + x) == HeadOf(w)
  {
    hide HeadOf, ReadLength, ReadLittle16;
    HeadCases(w);
    HeadCases(w + x);
    if w[0] == START && |w| >= HEADER {
      var len := ReadLength(w[4], w[5]);
      if len <= MAX_PAYLOAD && |w| >= HEADER + len + TRAILER {
        assert (w + x)[1..HEADER + len] == w[1..HEADER + len];
        assert (w + x)[HEADER..HEADER + len] == w[HEADER..HEADER + len];
      }
    }
  }

  lemma CutStable(w: seq<bv8>, x: seq<bv8>)
    requires w != [] && !HeadOf(w).Incomplete?
    ensures !HeadOf(w + x).Incomplete?
    ensures Cut(w + x) == Cut(w) && After(w + x) == After(w) + x
  {
    hide HeadOf, SegmentBytes;
    HeadStable(w, x);
    assert Cut(w + x) == Cut(w);
    var n := |SegmentBytes(Cut(w))|;
    assert (w + x)[n..] == w[n..] + x;
  }

  /** Scanning on from the held bytes is scanning the whole. */
  lemma {:induction false} ScanConcat(w: seq<bv8>, x: seq<bv8>)
    ensures Segments(w + x) == Segments(w) + Segments(Held(w) + x)
    ensures Held(w + x) == Held(Held(w) + x)
    decreases |w|
  {
    hide HeadOf, Cut, After;
    if w == [] {
      assert w + x == x;
    } else if HeadOf(w).Incomplete? {
    } else {
      CutStable(w, x);
      ScanStep(w);
      ScanStep(w + x);
      ScanConcat(After(w), x);
    }
  }

  /** Chunking invariance: however a stream is cut into calls, the frames, the text, the false
      starts and the held bytes are those of one call on the whole stream. */
  lemma {:induction false} ChunkingInvariance(s: ParserState, chunks: seq<seq<bv8>>)
    requires s.buffer != [] ==> HeadOf(s.buffer).Incomplete?
    ensures JoinedOutput(s, chunks) == CallOutput(s, Joined(chunks))
    ensures AfterCalls(s, chunks) == AfterCall(s, Joined(chunks))
    decreases |chunks|
  {
    hide HeadOf, Segments, Held, Frames, TextOf, FalseStarts;
    if chunks == [] {
      assert s.buffer + [] == s.buffer;
      HeldBack(s.buffer);
      ScanNothing();
    } else {
      var w := s.buffer + chunks[0];
      var rest := Joined(chunks[1..]);
      assert s.buffer + Joined(chunks) == w + rest;
      ScanConcat(w, rest);
      ProjectionsConcat(Segments(w), Segments(Held(w) + rest));
      ChunkingInvariance(AfterCall(s, chunks[0]), chunks[1..]);
    }
  }

  // ----- conservation ------------------------------------------------------------------------

  function Bytes(segs: seq<Segment>): seq<bv8>
    requires forall s <- segs :: s.Whole? ==> |s.frame.payload| <= MAX_PAYLOAD
  {
    if segs == [] then [] else SegmentBytes(segs[0]) + Bytes(segs[1..])
  }

  function WireSizes(frames: seq<Frame>): nat {
    if frames == [] then 0 else HEADER + |frames[0].payload| + TRAILER + WireSizes(frames[1..])
  }

  /** Nothing is lost, invented or reordered: re-encoding what a scan found, in order, and adding
      the held bytes gives back the input. So each emitted frame re-encodes to the contiguous
      bytes it was read from. */
  lemma {:induction false} ScanConserves(w: seq<bv8>)
    ensures Bytes(Segments(w)) + Held(w) == w
    decreases |w|
  {
    hide HeadOf, SegmentBytes, Cut;
    if w == [] || HeadOf(w).Incomplete? {
    } else {
      ScanStep(w);
      ScanConserves(After(w));
      assert [Cut(w)] + Segments(After(w)) == Segments(w);
      assert Segments(w)[1..] == Segments(After(w));
      assert w == SegmentBytes(Cut(w)) + After(w);
    }
  }

  lemma {:induction false} BytesCounted(segs: seq<Segment>)
    requires forall s <- segs :: s.Whole? ==> |s.frame.payload| <= MAX_PAYLOAD
    ensures |Bytes(segs)| == |TextOf(segs)| + WireSizes(Frames(segs)) + FalseStarts(segs)
  {
    hide Wire;
    if segs == [] {
    } else {
      BytesCounted(segs[1..]);
      if segs[0].Whole? {
        assert Frames(segs)[1..] == Frames(segs[1..]);
      } else {
        assert Frames(segs) == Frames(segs[1..]);
      }
    }
  }

  /** Bytes in = text + frames on the wire + false starts + held, with a bounded hold. */
  lemma ByteConservation(w: seq<bv8>)
    ensures |w| == |TextOf(Segments(w))| + WireSizes(Frames(Segments(w))) + FalseStarts(Segments(w)) + |Held(w)|
    ensures Held(w) == [] || (Held(w)[0] == START && |Held(w)| < 268)
  {
    ScanConserves(w);
    BytesCounted(Segments(w));
  }

  // ----- recovery ----------------------------------------------------------------------------

  /** What a well-behaved link carries: runs of telemetry text, which never holds a start byte,
      and whole encoded frames. */
  datatype Item = TextRun(bytes: seq<bv8>) | AFrame(frame: Frame)

  predicate ItemOk(item: Item) {
    match item
    case TextRun(bytes) => START !in bytes
    case AFrame(f) => |f.payload| <= MAX_PAYLOAD
  }

  function ItemBytes(item: Item): seq<bv8>
    requires ItemOk(item)
  {
    match item
    case TextRun(bytes) => bytes
    case AFrame(f) => Wire(f)
  }

  function Stream(items: seq<Item>): seq<bv8>
    requires forall item <- items :: ItemOk(item)
  {
    if items == [] then []
    else ItemBytes(items[0]) + Stream(items[1..])
  }

  function FramesSent(items: seq<Item>): seq<Frame> {
    if items == [] then []
    else (if items[0].AFrame? then [items[0].frame] else []) + FramesSent(items[1..])
  }

  function TextSent(items: seq<Item>): seq<bv8> {
    if items == [] then []
    else (if items[0].TextRun? then items[0].bytes else []) + TextSent(items[1..])
  }

  lemma WireFields(f: Frame, rest: seq<bv8>)
    requires |f.payload| <= MAX_PAYLOAD
    ensures var w := Wire(f) + rest;
      var at := HEADER + |f.payload|;
      && w[0] == START && w[1] == f.kind && ReadLittle16(w[2], w[3]) == f.seqNo
      && ReadLength(w[4], w[5]) == |f.payload| && w[HEADER..at] == f.payload
      && w[1..at] == Covered(f) && ReadLittle16(w[at], w[at + 1]) == Crc16.Crc16(Covered(f))
  {
    hide Little16, ReadLittle16, LengthBytes, ReadLength;
    var w := Wire(f) + rest;
    var at := HEADER + |f.payload|;
    var body := [f.kind] + Little16(f.seqNo) + LengthBytes(|f.payload|);
    assert Covered(f) == body + f.payload;
    assert w[1..at] == Covered(f);
    assert forall i :: 0 <= i < |Covered(f)| ==> w[i + 1] == Covered(f)[i];
    assert w[HEADER..at] == Covered(f)[HEADER - 1..];
    assert w[at..at + 2] == Little16(Crc16.Crc16(Covered(f)));
  }

  /** A frame that arrives is recognised as itself, whatever its payload holds and whatever
      follows it. */
  lemma FrameRecognised(f: Frame, rest: seq<bv8>)
    requires |f.payload| <= MAX_PAYLOAD
    ensures HeadOf(Wire(f) + rest) == Complete(f)
  {
    hide HeadOf, Wire, ReadLittle16, ReadLength;
    WireFields(f, rest);
    HeadCases(Wire(f) + rest);
  }

  lemma FrameScanned(f: Frame, rest: seq<bv8>)
    requires |f.payload| <= MAX_PAYLOAD
    ensures Segments(Wire(f) + rest) == [Whole(f)] + Segments(rest)
    ensures Held(Wire(f) + rest) == Held(rest)
  {
    hide HeadOf, Wire;
    var w := Wire(f) + rest;
    FrameRecognised(f, rest);
    ScanStep(w);
    assert After(w) == rest;
  }

  lemma TextByteScanned(b: bv8, rest: seq<bv8>)
    requires b != START
    ensures Segments([b] + rest) == [Text(b)] + Segments(rest)
    ensures Held([b] + rest) == Held(rest)
  {
    hide HeadOf;
    var w := [b] + rest;
    HeadCases(w);
    ScanStep(w);
    assert After(w) == rest;
  }

  lemma ProjectionsCons(s: Segment, segs: seq<Segment>)
    ensures Frames([s] + segs) == (if s.Whole? then [s.frame] else []) + Frames(segs)
    ensures TextOf([s] + segs) == (if s.Text? then [s.b] else []) + TextOf(segs)
    ensures FalseStarts([s] + segs) == (if s.Dropped? then 1 else 0) + FalseStarts(segs)
  {
    assert ([s] + segs)[1..] == segs;
  }

  lemma {:induction false} TextScanned(text: seq<bv8>, rest: seq<bv8>)
    requires START !in text
    ensures TextOf(Segments(text + rest)) == text + TextOf(Segments(rest))
    ensures Frames(Segments(text + rest)) == Frames(Segments(rest))
    ensures FalseStarts(Segments(text + rest)) == FalseStarts(Segments(rest))
    ensures Held(text + rest) == Held(rest)
    decreases |text|
  {
    hide Segments, Held, Frames, TextOf, FalseStarts;
    if text == [] {
      assert text + rest == rest;
    } else {
      var later := text[1..] + rest;
      assert text + rest == [text[0]] + later;
      assert text[0] in text && forall b <- text[1..] :: b in text;
      TextByteScanned(text[0], later);
      ProjectionsCons(Text(text[0]), Segments(later));
      TextScanned(text[1..], rest);
      assert [text[0]] + text[1..] == text;
    }
  }

  /** Stream recovery: any interleaving of start-byte-free text with encoded frames, whose
      payloads may hold any byte, splits back into exactly those frames and exactly that text,
      with no false start and nothing held. */
  lemma {:induction false} StreamRecovered(items: seq<Item>)
    requires forall item <- items :: ItemOk(item)
    ensures var segs := Segments(Stream(items));
      Frames(segs) == FramesSent(items) && TextOf(segs) == TextSent(items) && FalseStarts(segs) == 0
    ensures Held(Stream(items)) == []
  {
    hide HeadOf, Segments, Held, Frames, TextOf, FalseStarts, Wire;
    if items == [] {
      HeldBack([]);
      ScanNothing();
    } else {
      var rest := Stream(items[1..]);
      assert ItemOk(items[0]) && Stream(items) == ItemBytes(items[0]) + rest;
      StreamRecovered(items[1..]);
      match items[0] {
        case TextRun(bytes) =>
          TextScanned(bytes, rest);
        case AFrame(f) =>
          FrameScanned(f, rest);
          ProjectionsCons(Whole(f), Segments(rest));
      }
    }
  }

  /** The same through any sequence of `Consume` calls on a fresh parser. */
  lemma StreamRecoveredFromChunks(items: seq<Item>, chunks: seq<seq<bv8>>)
    requires forall item <- items :: ItemOk(item)
    requires Joined(chunks) == Stream(items)
    ensures JoinedOutput(FRESH, chunks) == StreamOutput(FramesSent(items), TextSent(items))
    ensures AfterCalls(FRESH, chunks) == FRESH
  {
    hide HeadOf, Segments, Held;
    ChunkingInvariance(FRESH, chunks);
    assert [] + Joined(chunks) == Stream(items);
    StreamRecovered(items);
  }

  // ----- damage ------------------------------------------------------------------------------

  /** A frame damaged inside 16 consecutive bits, with LEN and CRC intact, is never emitted at
      its start position: its start byte is dropped and counted, and the scan resumes at the
      very next byte. */
  lemma DamageDropped(f: Frame, damaged: seq<bv8>, at: nat, rest: seq<bv8>)
    requires |f.payload| <= MAX_PAYLOAD
    requires damaged != Covered(f) && Crc16.DifferOnlyInWindow(damaged, Covered(f), at)
    requires damaged[3..5] == Covered(f)[3..5]
    ensures var w := [START] + damaged + Little16(Crc16.Crc16(Covered(f))) + rest;
      HeadOf(w) == FalseStart && After(w) == w[1..]
  {
    hide HeadOf, ReadLittle16, ReadLength, Crc16.Crc16, Crc16.DifferOnlyInWindow, Covered;
    Crc16.BurstDetected(damaged, Covered(f), at);
    assert |damaged| == |Covered(f)| by { SameLength(damaged, Covered(f), at); }
    var crc := Little16(Crc16.Crc16(Covered(f)));
    var w := [START] + damaged + crc + rest;
    var n := HEADER + |f.payload|;
    HeadCases(w);
    DamagedLength(f, damaged);
    assert w[4] == damaged[3] && w[5] == damaged[4];
    assert w[1..n] == damaged;
    assert w[n] == crc[0] && w[n + 1] == crc[1];
  }

  lemma SameLength(a: seq<bv8>, b: seq<bv8>, at: nat)
    requires Crc16.DifferOnlyInWindow(a, b, at)
    ensures |a| == |b|
  {}

  lemma DamagedLength(f: Frame, damaged: seq<bv8>)
    requires |f.payload| <= MAX_PAYLOAD
    requires |damaged| == |Covered(f)| && damaged[3..5] == Covered(f)[3..5]
    ensures ReadLength(damaged[3], damaged[4]) == |f.payload|
  {
    hide ReadLength, LengthBytes, Little16;
    assert Covered(f)[3..5] == LengthBytes(|f.payload|);
    assert damaged[3] == damaged[3..5][0] && damaged[4] == damaged[3..5][1];
  }

  // ----- damage that is no more than loss ----------------------------------------------------

  /** What arrives scans to no frame and leaves nothing behind that could become one. */
  predicate Inert(bytes: seq<bv8>) {
    Frames(Segments(bytes)) == [] && Held(bytes) == []
  }

  /** The bytes might as well not have been sent: whatever follows them is received as without them. */
  ghost predicate LikeLoss(bytes: seq<bv8>) {
    forall x: seq<bv8> :: Frames(Segments(bytes + x)) == Frames(Segments(x)) && Held(bytes + x) == Held(x)
  }

  /** Damage is loss exactly when what arrives is inert. */
  lemma DamageIsLossExact(bytes: seq<bv8>)
    ensures LikeLoss(bytes) <==> Inert(bytes)
  {
    hide Segments, Held, Frames;
    HeldBack([]);
    ScanNothing();
    if LikeLoss(bytes) {
      assert bytes + [] == bytes;
      assert Frames(Segments(bytes + [])) == Frames(Segments([]));
    }
    if Inert(bytes) {
      forall x: seq<bv8>
        ensures Frames(Segments(bytes + x)) == Frames(Segments(x)) && Held(bytes + x) == Held(x)
      {
        ScanConcat(bytes, x);
        FramesConcat(Segments(bytes), Segments(x));
        assert [] + x == x && [] + Frames(Segments(x)) == Frames(Segments(x));
      }
    }
  }

  /** After a dropped start byte the scan is that of the rest. */
  lemma DroppedScans(w: seq<bv8>)
    requires w != [] && HeadOf(w) == FalseStart
    ensures Frames(Segments(w)) == Frames(Segments(w[1..])) && Held(w) == Held(w[1..])
  {
    hide HeadOf, Segments, Held, Frames;
    DropFound([], w);
    assert [] + Segments(w) == Segments(w) && [] + [Dropped] == [Dropped];
    ProjectionsCons(Dropped, Segments(w[1..]));
  }

  /** A dropped start byte followed by no other is inert; so are bytes without any. */
  lemma NoStartIsInert(bytes: seq<bv8>)
    requires bytes != [] && HeadOf(bytes) == FalseStart ==> START !in bytes[1..]
    requires bytes == [] || HeadOf(bytes) != FalseStart ==> START !in bytes
    ensures Inert(bytes)
  {
    hide HeadOf, Segments, Held, Frames;
    var text := if bytes != [] && HeadOf(bytes) == FalseStart then bytes[1..] else bytes;
    HeldBack([]);
    ScanNothing();
    TextScanned(text, []);
    assert text + [] == text;
    if text != bytes {
      DroppedScans(bytes);
    }
  }

  /** Damage inside 16 consecutive bits with LEN and CRC intact is loss whenever no other start byte
      arrives with it. */
  lemma BurstIsLoss(f: Frame, damaged: seq<bv8>, at: nat)
    requires |f.payload| <= MAX_PAYLOAD
    requires damaged != Covered(f) && Crc16.DifferOnlyInWindow(damaged, Covered(f), at)
    requires damaged[3..5] == Covered(f)[3..5]
    requires START !in damaged + Little16(Crc16.Crc16(Covered(f)))
    ensures LikeLoss([START] + damaged + Little16(Crc16.Crc16(Covered(f))))
  {
    hide HeadOf, Covered, Little16, Crc16.Crc16, Crc16.DifferOnlyInWindow, Inert, LikeLoss;
    var tail := damaged + Little16(Crc16.Crc16(Covered(f)));
    var w := [START] + damaged + Little16(Crc16.Crc16(Covered(f)));
    DamageDropped(f, damaged, at, []);
    assert w + [] == w && w[1..] == tail;
    NoStartIsInert(w);
    DamageIsLossExact(w);
  }
}
