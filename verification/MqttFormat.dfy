/** The MQTT packets in numbers (sections 1.5.3, 2.2.3, 3.3 and 3.8 of MQTT 3.1.1): every byte the builders write,
    which headers are taken, and what each packet that arrives does to the subscriber. */
module MqttFormat {
  import opened Wrappers
  import opened Arithmetic
  import opened Sequences
  import opened MqttPacket
  import opened MqttReadLoop

  // ----- lengths and strings -----------------------------------------------------------------

  function Power128(k: nat): (p: nat)
    ensures p > 0
  {
    if k == 0 then 1 else 128 * Power128(k - 1)
  }

  /** Each byte of a length is the next digit to the base 128, the lowest first, plus 128 if another follows;
      the last one is not zero unless it is the only one. */
  lemma {:induction false} LengthDigits(n: nat, k: nat)
    requires k < |LengthBytes(n)|
    ensures LengthBytes(n)[k] == n / Power128(k) % 128 + if k + 1 < |LengthBytes(n)| then 128 else 0
    ensures |LengthBytes(n)| > 1 ==> LengthBytes(n)[|LengthBytes(n)| - 1] != 0
    decreases n
  {
    hide Power128;
    Powers(k);
    if n >= 128 {
      var more := LengthBytes(n / 128);
      assert LengthBytes(n) == [128 + n % 128] + more;
      LengthDigits(n / 128, if k == 0 then 0 else k - 1);
      if k > 0 {
        Powers(k - 1);
        DivideTwice(n, 128, Power128(k - 1));
      }
      LastIsTop(n / 128);
    } else {
      assert k == 0 && Power128(0) == 1;
    }
  }

  lemma LastIsTop(n: nat)
    requires n > 0
    ensures LengthBytes(n) != [] && LengthBytes(n)[|LengthBytes(n)| - 1] != 0
  {}

  lemma Powers(k: nat)
    ensures Power128(0) == 1 && (k > 0 ==> Power128(k) == 128 * Power128(k - 1))
  {}

  lemma LengthExamples()
    ensures LengthBytes(0) == [0x00] && LengthBytes(127) == [0x7F]
    ensures LengthBytes(128) == [0x80, 0x01] && LengthBytes(16383) == [0xFF, 0x7F]
    ensures LengthBytes(16384) == [0x80, 0x80, 0x01] && LengthBytes(268435455) == [0xFF, 0xFF, 0xFF, 0x7F]
  {
    assert LengthBytes(1) == [1];
    assert LengthBytes(2097151) == [0xFF, 0xFF, 0x7F];
  }

  /** A string is its length, high byte first, and its bytes. */
  lemma StringNumbers(s: bytes)
    requires |s| <= 65535
    ensures var f := StringField(s);
      |f| == 2 + |s| && 256 * (f[0] as int) + f[1] == |s| && f[2..] == s
  {}

  // ----- PUBLISH -----------------------------------------------------------------------------

  /** Of the headers of a PUBLISH those with quality of service 0 are taken. */
  lemma HeadersTaken(header: byte)
    ensures AcceptedHeader(header) <==> header in {0x30, 0x31, 0x38, 0x39}
  {}

  /** Topic "ab", payload "hi". */
  lemma PublishExample()
    ensures PublishPacket(Publish([0x61, 0x62], [0x68, 0x69]), 6) == [0x30, 0x06, 0x00, 0x02, 0x61, 0x62, 0x68, 0x69]
  {
    assert LengthBytes(6) == [6];
  }

  /** Why a packet is refused, in the order of the checks. */
  lemma PublishRefused(packet: bytes)
    ensures packet == [] ==> ParsedPublish(packet) == Err(EmptyBuffer)
    ensures packet != [] && !(0x30 <= packet[0] < 0x40) ==> ParsedPublish(packet) == Err(BadHeader)
    ensures packet != [] && 0x30 <= packet[0] < 0x40 && packet[0] !in {0x30, 0x31, 0x38, 0x39} ==>
      ParsedPublish(packet) == Err(QosUnsupported)
  {
    hide ReadLength;
    if packet != [] {
      HeadersTaken(packet[0]);
    }
  }

  /** The rest of an accepted packet: a body shorter than stated, and a topic that does not fit its buffer. */
  lemma BodyRefused(header: byte, code: bytes, rest: bytes)
    requires header in {0x30, 0x31, 0x38, 0x39} && IsCode(code, 4)
    ensures CodeValue(code) > |rest| ==> ParsedPublish([header] + (code + rest)) == Err(BodyTruncated)
    ensures CodeValue(code) <= |rest| && (|rest| < 2 || |rest| < 2 + 256 * (rest[0] as int) + rest[1]) ==>
      ParsedPublish([header] + (code + rest)) == Err(StringTruncated)
  {
    hide ReadLength, IsCode, CodeValue;
    HeadersTaken(header);
    var packet := [header] + (code + rest);
    assert packet[1..] == code + rest;
    ReadsCode(code, rest, 4);
    assert packet[1 + |code|..] == rest;
  }

  // ----- SUBSCRIBE ---------------------------------------------------------------------------

  /** Packet identifier 0x1234, topic "ab". */
  lemma SubscribeExample()
    ensures SubscribePacket(0x1234, [0x61, 0x62]) == [0x82, 0x07, 0x12, 0x34, 0x00, 0x02, 0x61, 0x62, 0x00]
  {
    assert LengthBytes(7) == [7];
    assert SubscribeBody(0x1234, [0x61, 0x62]) == [0x12, 0x34, 0x00, 0x02, 0x61, 0x62, 0x00];
  }

  /** Identifiers count from 1, and the one after 65535 is 0. */
  lemma IdentifierNumbers(n: nat)
    ensures PacketIdOf(0) == 1
    ensures PacketIdOf(n) == (n + 1) % 65536 && (PacketIdOf(n) == 0 <==> n % 65536 == 65535)
  {
    PacketIdExact(n);
  }

  // ----- every packet that arrives -----------------------------------------------------------

  /** A body that is the topic's length, the topic and the payload. */
  predicate BodyOf(body: bytes, p: Publish) {
    && |p.topic| <= 65535 && |body| == 2 + |p.topic| + |p.payload|
    && 256 * (body[0] as int) + body[1] == |p.topic| && body[2..] == p.topic + p.payload
  }

  /** A frame carries a message: an accepted header and its body. */
  predicate Carries(f: Frame, p: Publish) {
    f.header in {0x30, 0x31, 0x38, 0x39} && BodyOf(f.body, p)
  }

  lemma CarriedParses(f: Frame, p: Publish)
    requires FrameOk(f)
    ensures Carries(f, p) <==> ParsedPublish([f.header] + f.code + f.body) == Ok(p)
  {
    hide IsCode, CodeValue, ReadLength, LengthBytes;
    var packet := [f.header] + f.code + f.body;
    HeadersTaken(f.header);
    assert packet[1..] == f.code + f.body;
    ReadsCode(f.code, f.body, 4);
    assert packet[1 + |f.code|..] == f.body;
    BodyCarries(f.body, p);
  }

  lemma BodyCarries(body: bytes, p: Publish)
    ensures ParsedBody(body, |body|) == Ok(p) <==> BodyOf(body, p)
  {
    if ParsedBody(body, |body|) == Ok(p) {
      assert body[2..] == p.topic + p.payload;
    }
    if BodyOf(body, p) {
      var n := |p.topic|;
      assert body[2..2 + n] == body[2..][..n] == p.topic;
      assert body[2 + n..|body|] == body[2..][n..] == p.payload;
    }
  }

  /** The message of a frame, if it has one: no frame carries two. */
  ghost function MessageOf(f: Frame): (m: Option<Publish>)
    ensures m.Some? ==> Carries(f, m.value)
    ensures m.None? ==> forall p :: !Carries(f, p)
  {
    if exists p :: Carries(f, p) then
      var p :| Carries(f, p);
      Some(p)
    else None
  }

  /** What a list of frames calls: of each message the callback registered for exactly its topic. */
  ghost function CallsOf(frames: seq<Frame>, subscriptions: map<bytes, Callback>): seq<Call> {
    if frames == [] then []
    else
      (match MessageOf(frames[0])
       case Some(p) =>
         if p.topic in subscriptions && subscriptions[p.topic].Some?
         then [Call(subscriptions[p.topic].value, p)] else []
       case None => [])
      + CallsOf(frames[1..], subscriptions)
  }

  /** How many of the frames count: messages, but for those whose callback throws. */
  ghost function CountOf(frames: seq<Frame>, subscriptions: map<bytes, Callback>, throwing: set<nat>): nat {
    if frames == [] then 0
    else
      (match MessageOf(frames[0])
       case Some(p) =>
         if p.topic in subscriptions && subscriptions[p.topic].Some? && subscriptions[p.topic].value in throwing then 0 else 1
       case None => 0)
      + CountOf(frames[1..], subscriptions, throwing)
  }

  lemma FrameSeen(s: Session, f: Frame)
    requires FrameOk(f) && s.received < TWO64
    ensures var t := AfterFrame(s, f);
      && t.running == s.running && t.subscriptions == s.subscriptions && t.throwing == s.throwing
      && t.calls == s.calls + CallsOf([f], s.subscriptions)
      && t.received == (s.received + CountOf([f], s.subscriptions, s.throwing)) % TWO64
  {
    hide ParsedPublish, FrameOk, Carries;
    assert [f][1..] == [];
    assert CallsOf([], s.subscriptions) == [] && CountOf([], s.subscriptions, s.throwing) == 0;
    match MessageOf(f) {
      case Some(p) =>
        CarriedParses(f, p);
        HeaderOfMessage(f, p);
      case None =>
        if ParsedPublish([f.header] + f.code + f.body).Ok? {
          CarriedParses(f, ParsedPublish([f.header] + f.code + f.body).value);
        }
    }
  }

  lemma HeaderOfMessage(f: Frame, p: Publish)
    requires Carries(f, p)
    ensures f.header / 16 * 16 == PUBLISH
  {}

  /** Any packets at all, in any order, well-formed or not: exactly the messages among them reach their
      callbacks, in order and once each, and are counted unless the callback throws; a PUBLISH that does
      not parse, like every other packet, does nothing. */
  lemma {:induction false} FramesSeen(s: Session, frames: seq<Frame>)
    requires Idle(s) && s.received < TWO64 && forall f <- frames :: FrameOk(f)
    ensures var t := Run(s, Wire(frames));
      && Idle(t) && t.running == s.running && t.subscriptions == s.subscriptions && t.throwing == s.throwing
      && t.calls == s.calls + CallsOf(frames, s.subscriptions)
      && t.received == (s.received + CountOf(frames, s.subscriptions, s.throwing)) % TWO64
    decreases |frames|
  {
    hide Run, AfterFrame, FrameOk, FrameBytes, CallsOf, CountOf;
    if frames == [] {
      NoFrames(s);
    } else {
      var (f, rest) := (frames[0], frames[1..]);
      var t := AfterFrame(s, f);
      assert f in frames && forall g <- rest :: g in frames;
      FrameDispatched(s, f);
      FrameSeen(s, f);
      FramesSeen(t, rest);
      WireFirst(s, f, rest);
      assert frames == [f] + rest;
      OneThenRest(f, rest, s.subscriptions, s.throwing);
      Associative(s.calls, CallsOf([f], s.subscriptions), CallsOf(rest, s.subscriptions));
      WrapSum(s.received, CountOf([f], s.subscriptions, s.throwing), CountOf(rest, s.subscriptions, s.throwing));
    }
  }

  lemma NoFrames(s: Session)
    ensures Run(s, Wire([])) == s && CallsOf([], s.subscriptions) == [] && CountOf([], s.subscriptions, s.throwing) == 0
  {
    RunNothing(s);
  }

  lemma WireFirst(s: Session, f: Frame, rest: seq<Frame>)
    ensures Run(s, Wire([f] + rest)) == Run(Run(s, FrameBytes(f)), Wire(rest))
  {
    hide Run, FrameBytes;
    assert ([f] + rest)[1..] == rest;
    RunConcat(s, FrameBytes(f), Wire(rest));
  }

  lemma OneThenRest(f: Frame, rest: seq<Frame>, subscriptions: map<bytes, Callback>, throwing: set<nat>)
    ensures CallsOf([f] + rest, subscriptions) == CallsOf([f], subscriptions) + CallsOf(rest, subscriptions)
    ensures CountOf([f] + rest, subscriptions, throwing) == CountOf([f], subscriptions, throwing) + CountOf(rest, subscriptions, throwing)
  {
    assert [f][1..] == [] && ([f] + rest)[1..] == rest && ([f] + rest)[0] == f;
  }

  lemma WrapSum(a: nat, b: nat, c: nat)
    ensures ((a + b) % TWO64 + c) % TWO64 == (a + (b + c)) % TWO64
  {}
}
