/** What the scheduled DATA frames carry, and what has to arrive before progress, COMMIT and
    CONFIRM. */
module OtaTiling {
  import opened FlashFrame
  import opened OtaTable
  import opened OtaInvariant
  import opened OtaRuns

  /** The image bytes of the first k DATA payloads, offsets and padding stripped, joined. */
  function Carried(image: seq<bv8>, k: nat): seq<bv8>
    requires k <= Chunks(image)
  {
    if k == 0 then []
    else
      var at := DATA_CHUNK * (k - 1);
      Carried(image, k - 1) + DataPayload(image, at)[4..4 + ChunkLength(image, at)]
  }

  lemma PayloadParts(image: seq<bv8>, at: nat)
    requires at <= |image|
    ensures DataPayload(image, at)[..4] == Little32(at % TWO_32)
    ensures DataPayload(image, at)[4..4 + ChunkLength(image, at)] == image[at..at + ChunkLength(image, at)]
    ensures DataPayload(image, at)[4 + ChunkLength(image, at)..] == Padding(ChunkLength(image, at))
  {
    hide Little32, Padding;
  }

  /** Tiling: k DATA frames carry exactly the first 256k image bytes, and all of them the image. */
  lemma {:induction false} DataTilesImage(image: seq<bv8>, k: nat)
    requires k <= Chunks(image)
    ensures Carried(image, k) == image[..if DATA_CHUNK * k < |image| then DATA_CHUNK * k else |image|]
    ensures k == Chunks(image) ==> Carried(image, k) == image
  {
    hide DataPayload;
    if k > 0 {
      DataTilesImage(image, k - 1);
      PayloadParts(image, DATA_CHUNK * (k - 1));
    }
  }

  /** Each scheduled DATA frame names the offset its bytes belong at, is whole flash words, and
      pads only the last one, with erased-flash bytes. */
  lemma DataFrameShape(image: seq<bv8>, version: u32, n: nat)
    requires |image| < TWO_32 && 3 <= n < 3 + Chunks(image)
    ensures var f := Scheduled(image, version, n);
      && f.kind == DATA && |f.payload| <= MAX_PAYLOAD
      && ReadLittle32(f.payload[..4]) == DATA_CHUNK * (n - 3)
      && (|f.payload| - 4) % FLASH_WORD == 0
      && (n + 1 < 3 + Chunks(image) ==> |f.payload| == 4 + DATA_CHUNK)
      && forall i :: 4 + ChunkLength(image, DATA_CHUNK * (n - 3)) <= i < |f.payload| ==> f.payload[i] == ERASED
  {
    hide Little32, ReadLittle32, SeqAt;
    var at := DATA_CHUNK * (n - 3);
    PayloadParts(image, at);
    Little32RoundTrip(at);
    var f := Scheduled(image, version, n);
    assert f.payload == DataPayload(image, at);
    var m := 4 + ChunkLength(image, at);
    forall i | m <= i < |f.payload| ensures f.payload[i] == ERASED {
      assert f.payload[i] == f.payload[m..][i - m];
    }
  }

  lemma OtherEventsKeepProgress(c: Context, e: Event, now: int)
    requires InImage(c) && e != EvAck
    ensures Dispatch(c, e, now).sentBytes == c.sentBytes
  {
    hide Wire, BeginPayload, NextSeq;
  }

  lemma AckProgress(c: Context, now: int)
    requires Inv(c) && !Terminal(c) && Dispatch(c, EvAck, now).sentBytes != c.sentBytes
    ensures c.state == Sending
    ensures Dispatch(c, EvAck, now).sentBytes == c.sentBytes + ChunkLength(c.image, c.sentBytes)
  {
    hide Wire, DataPayload, NextSeq, InFlightFrame, MessageCount, SeqAt;
  }

  /** Progress is acknowledged, never assumed: only an ACK that answers the message in flight
      moves it, by exactly the chunk that message carried. */
  lemma ProgressOnlyByAck(c: Context, i: Input)
    requires Inv(c) && Stepped(c, i).next.sentBytes != c.sentBytes
    ensures i.Receive? && i.frame.kind == ACK && i.frame.seqNo == c.seqNo && StageOf(c) == Sending
    ensures Stepped(c, i).next.sentBytes == c.sentBytes + ChunkLength(c.image, c.sentBytes)
  {
    hide Dispatch, RunningOk, ReadLittle32;
    match i {
      case Start(at) => OtherEventsKeepProgress(c, EvStart, at);
      case Tick(at) =>
        OtherEventsKeepProgress(c.(waitingOut := false), EvRebootDone, at);
        OtherEventsKeepProgress(c, EvTimeout, at);
      case Receive(f, at) =>
        if f.kind == ACK {
          AckProgress(c, at);
        } else if f.kind == NAK && f.payload != [] {
          OtherEventsKeepProgress(c, EvNak(f.payload[0]), at);
        } else if f.kind == INFO && |f.payload| == INFO_PAYLOAD {
          OtherEventsKeepProgress(c, EvInfo(ReadLittle32(f.payload[..4]), f.payload[5]), at);
        }
    }
  }

  /** COMMIT goes out for the first time only on the acknowledgement of the last chunk. */
  lemma CommitAfterEverything(c: Context, i: Input)
    requires Inv(c) && StageOf(Stepped(c, i).next) == Committing && StageOf(c) != Committing
    ensures StageOf(c) == Sending && i.Receive? && i.frame.kind == ACK && i.frame.seqNo == c.seqNo
    ensures c.sentBytes + c.chunkBytes == |c.image| == Stepped(c, i).next.sentBytes
  {
    hide Wire, InFlightFrame, MessageCount, SeqAt, DataPayload, BeginPayload, NextSeq, ReadLittle32;
  }

  /** CONFIRM goes out for the first time only on an INFO that reports the target version, and
      after a transfer only once the board has been asked again. */
  lemma ConfirmAfterTargetReported(c: Context, i: Input)
    requires Inv(c) && StageOf(Stepped(c, i).next) == Confirming && StageOf(c) != Confirming
    ensures i.Receive? && i.frame.kind == INFO && |i.frame.payload| == INFO_PAYLOAD
    ensures ReadLittle32(i.frame.payload[..4]) == c.version
    ensures StageOf(c) == Rechecking || (StageOf(c) == Probing && i.frame.payload[5] == STATE_TRIAL)
  {
    hide Wire, InFlightFrame, MessageCount, SeqAt, DataPayload, BeginPayload, NextSeq, ReadLittle32;
  }
}
