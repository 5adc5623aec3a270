/** Answers that arrive twice (src/integration/OtaSession.cpp): exactly when the second is ignored, and
    when it ends the update. */
module OtaRepeats {
  import opened FlashFrame
  import opened OtaTable
  import opened OtaInvariant
  import opened OtaRuns
  import opened OtaTranscript
  import opened OtaOutcome

  predicate Ignored(c: Context, i: Input)
    requires InImage(c)
  {
    Stepped(c, i) == Outcome(c, [])
  }

  lemma AckChanges(c: Context, now: int)
    requires InImage(c) && c.failure == NoFailure && c.state in {Beginning, Sending, Committing, Confirming}
    ensures var d := Dispatch(c, EvAck, now);
      && d != c && d.failure == NoFailure
      && (c.state == Committing ==> d.state == Rebooting && d.seqNo == c.seqNo)
      && (c.state == Confirming ==> d.state == Done)
      && (c.state in {Beginning, Sending} ==> d.seqNo == NextSeq(c.seqNo))
  {
    hide Wire, DataPayload;
    assert NextSeq(c.seqNo) != c.seqNo;
  }

  lemma AckUnexpected(c: Context, now: int)
    requires InImage(c) && c.failure == NoFailure && c.state !in {Beginning, Sending, Committing, Confirming}
    ensures Dispatch(c, EvAck, now).failure == ProtocolError
  {}

  lemma AckIsActed(c: Context, f: Frame, at: int)
    requires InImage(c) && f.kind == ACK
    ensures Stepped(c, Receive(f, at)) ==
      if StageOf(c) == Idle || Terminal(c) || f.seqNo != c.seqNo then Outcome(c, []) else Acted(c, EvAck, at)
  {
    hide Dispatch;
  }

  /** An ACK is ignored exactly when the session is not running or it carries another number. */
  lemma AckIgnoredExact(c: Context, f: Frame, at: int)
    requires Inv(c) && f.kind == ACK
    ensures Ignored(c, Receive(f, at)) <==> StageOf(c) == Idle || Terminal(c) || f.seqNo != c.seqNo
  {
    hide Stepped, Dispatch, RunningOk;
    AckIsActed(c, f, at);
    if !(StageOf(c) == Idle || Terminal(c) || f.seqNo != c.seqNo) {
      if c.state in {Beginning, Sending, Committing, Confirming} {
        AckChanges(c, at);
      } else {
        AckUnexpected(c, at);
      }
    }
  }

  /** After an ACK that was accepted, a second one of the same number is ignored exactly when the
      first did not answer COMMIT: the wait for the reset keeps the number, and takes no ACK. */
  lemma AckTwice(c: Context, f: Frame, at: int, again: Frame, later: int)
    requires Inv(c) && Running(c) && c.state in {Beginning, Sending, Committing, Confirming}
    requires f.kind == ACK && f.seqNo == c.seqNo && again.kind == ACK && again.seqNo == f.seqNo
    ensures var d := Stepped(c, Receive(f, at)).next;
      && d.failure == NoFailure && Inv(d)
      && (Ignored(d, Receive(again, later)) <==> c.state != Committing)
      && (c.state == Committing ==> Stepped(d, Receive(again, later)).next.failure == ProtocolError)
  {
    hide Stepped, Dispatch, RunningOk, Ignored, NextSeq;
    var d := Stepped(c, Receive(f, at)).next;
    AckIsActed(c, f, at);
    AckChanges(c, at);
    StepKeeps(c, Receive(f, at));
    AckIgnoredExact(d, again, later);
    AckIsActed(d, again, later);
    NextDiffers(c.seqNo);
    if c.state == Committing {
      AckUnexpected(d, later);
    }
  }

  lemma NextDiffers(n: bv16)
    ensures NextSeq(n) != n
  {}

  lemma InfoChanges(c: Context, version: u32, state: bv8, now: int)
    requires InImage(c) && c.failure == NoFailure
    ensures var d := Dispatch(c, EvInfo(version, state), now);
      && d != c
      && (d.failure == NoFailure ==> c.state in {Probing, Rechecking} && d.state in {Beginning, Confirming, Done})
  {
    hide Wire, BeginPayload;
    assert NextSeq(c.seqNo) != c.seqNo;
  }

  lemma InfoIsActed(c: Context, f: Frame, at: int)
    requires InImage(c) && f.kind == INFO
    ensures Stepped(c, Receive(f, at)) ==
      if StageOf(c) == Idle || Terminal(c) then Outcome(c, [])
      else if |f.payload| != INFO_PAYLOAD then Rejected(c)
      else Acted(c, EvInfo(ReadLittle32(f.payload[..4]), f.payload[5]), at)
  {
    hide Dispatch, ReadLittle32;
  }

  /** An INFO is never ignored while the session runs. */
  lemma InfoIgnoredExact(c: Context, f: Frame, at: int)
    requires Inv(c) && f.kind == INFO
    ensures Ignored(c, Receive(f, at)) <==> StageOf(c) == Idle || Terminal(c)
  {
    hide Stepped, Dispatch, RunningOk, ReadLittle32;
    InfoIsActed(c, f, at);
    if StageOf(c) != Idle && !Terminal(c) && |f.payload| == INFO_PAYLOAD {
      InfoChanges(c, ReadLittle32(f.payload[..4]), f.payload[5], at);
    }
  }

  /** After an INFO that was accepted, as the answer to a repeated INFO_REQ may be, any second one is
      ignored exactly when the first ended the update; otherwise it is a protocol error. */
  lemma InfoTwice(c: Context, f: Frame, at: int, again: Frame, later: int)
    requires Inv(c) && Running(c) && f.kind == INFO && again.kind == INFO && c.state != Idle
    requires Stepped(c, Receive(f, at)).next.failure == NoFailure
    ensures var d := Stepped(c, Receive(f, at)).next;
      && Inv(d)
      && (Ignored(d, Receive(again, later)) <==> StageOf(d) == Done)
      && (StageOf(d) != Done ==> Stepped(d, Receive(again, later)).next.failure == ProtocolError)
  {
    hide Stepped, Dispatch, RunningOk, Ignored, ReadLittle32;
    var d := Stepped(c, Receive(f, at)).next;
    StepKeeps(c, Receive(f, at));
    InfoIsActed(c, f, at);
    InfoIgnoredExact(d, again, later);
    assert |f.payload| == INFO_PAYLOAD;
    InfoChanges(c, ReadLittle32(f.payload[..4]), f.payload[5], at);
    if StageOf(d) != Done {
      FailureExact(d, Receive(again, later));
    }
  }
}
