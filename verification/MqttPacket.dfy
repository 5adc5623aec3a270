/** The MQTT 3.1.1 packets of src/integration/MqttPacket.cpp: the variable-length "remaining length",
    length-prefixed strings, and PUBLISH. Section numbers are those of the OASIS standard. */
module MqttPacket {
  import opened Wrappers
  import opened Sequences

  type byte = x: int | 0 <= x < 256
  type bytes = seq<byte>
  type u32 = x: int | 0 <= x < TWO32

  const TWO32: int := 0x1_0000_0000
  const MAX_REMAINING_LENGTH: int := 268_435_455
  const MAX_STRING_LENGTH: int := 65_535
  const MAX_LENGTH_BYTES: int := 4
  const CONTINUATION: int := 128
  const PUBLISH: byte := 0x30

  datatype Error =
    | LengthTooLarge
    | LengthTruncated
    | LengthUnfinished
    | StringTooLong
    | StringTruncated
    | EmptyBuffer
    | BadHeader
    | QosUnsupported
    | BodyTruncated
    | TopicPastBody

  // ----- remaining length (section 2.2.3) ----------------------------------------------------

  /** Seven bits a byte, lowest first, the top bit set on all but the last. */
  function LengthBytes(n: nat): bytes {
    if n < CONTINUATION then [n] else [CONTINUATION + n % 128] + LengthBytes(n / 128)
  }

  /** A well-formed code of at most `left` bytes, not necessarily the shortest. */
  predicate IsCode(code: bytes, left: nat)
    decreases left
  {
    left > 0 && code != [] && if code[0] < CONTINUATION then |code| == 1 else IsCode(code[1..], left - 1)
  }

  function CodeValue(code: bytes): nat {
    if code == [] then 0 else code[0] % 128 + 128 * CodeValue(code[1..])
  }

  /** What one unit of the i-th byte counts for: 128 to the power i. */
  function Weight(i: nat): nat {
    if i == 0 then 1 else 128 * Weight(i - 1)
  }

  datatype Length = Length(value: nat, used: nat)

  /** Reads a code from the front of a buffer, looking at no more than `left` bytes. */
  function ReadLength(buffer: bytes, left: nat): Result<Length, Error>
    decreases left
  {
    if left == 0 then Err(LengthUnfinished)
    else if buffer == [] then Err(LengthTruncated)
    else if buffer[0] < CONTINUATION then Ok(Length(buffer[0], 1))
    else Further(ReadLength(buffer[1..], left - 1), buffer[0] % 128, 128, 1)
  }

  function Further(r: Result<Length, Error>, low: nat, weight: nat, bytesRead: nat): Result<Length, Error> {
    match r
    case Ok(more) => Ok(Length(low + weight * more.value, bytesRead + more.used))
    case Err(e) => Err(e)
  }

  /** The reader takes exactly a code off the front, whatever follows it. */
  lemma {:induction false} ReadsCode(code: bytes, rest: bytes, left: nat)
    requires IsCode(code, left)
    ensures ReadLength(code + rest, left) == Ok(Length(CodeValue(code), |code|))
    decreases left
  {
    assert (code + rest)[0] == code[0];
    if code[0] >= CONTINUATION {
      assert (code + rest)[1..] == code[1..] + rest;
      ReadsCode(code[1..], rest, left - 1);
    } else {
      assert code[1..] == [];
    }
  }

  /** The converse: what it reads is a code, and its value fits 7 bits a byte. */
  lemma {:induction false} ReadIsCode(buffer: bytes, left: nat)
    requires ReadLength(buffer, left).Ok?
    ensures var n := ReadLength(buffer, left).value;
      n.used <= |buffer| && IsCode(buffer[..n.used], left) && CodeValue(buffer[..n.used]) == n.value < Weight(left)
    decreases left
  {
    var n := ReadLength(buffer, left).value;
    if buffer[0] < CONTINUATION {
      assert CodeValue(buffer[..1][1..]) == 0;
      WeightPositive(left - 1);
    } else {
      ReadIsCode(buffer[1..], left - 1);
      assert buffer[..n.used][1..] == buffer[1..][..n.used - 1];
    }
  }

  lemma {:induction false} WeightPositive(left: nat)
    ensures Weight(left) >= 1
  {
    if left > 0 {
      WeightPositive(left - 1);
    }
  }

  lemma LargestLength()
    ensures Weight(MAX_LENGTH_BYTES) == MAX_REMAINING_LENGTH + 1
  {
    assert Weight(3) == 128 * Weight(2);
  }

  /** The first `left` bytes, or as many as there are, all ask for another. */
  predicate AllContinue(buffer: bytes, left: nat) {
    forall i :: 0 <= i < |buffer| && i < left ==> buffer[i] >= CONTINUATION
  }

  /** Exactly when reading fails: too few bytes to tell, or no byte ends the code. */
  lemma {:induction false} ReadFails(buffer: bytes, left: nat)
    ensures ReadLength(buffer, left).Err? <==> AllContinue(buffer, left)
    ensures AllContinue(buffer, left) ==>
      ReadLength(buffer, left) == Err(if |buffer| < left then LengthTruncated else LengthUnfinished)
    decreases left
  {
    if left > 0 && buffer != [] {
      ReadFails(buffer[1..], left - 1);
      assert forall i :: 0 <= i < |buffer| - 1 ==> buffer[1..][i] == buffer[i + 1];
      assert AllContinue(buffer, left) ==> AllContinue(buffer[1..], left - 1);
    }
  }

  lemma {:induction false} EncodingIsCode(n: nat, left: nat)
    requires left > 0 && n < Weight(left)
    ensures IsCode(LengthBytes(n), left) && CodeValue(LengthBytes(n)) == n
    decreases left
  {
    if n < CONTINUATION {
      assert CodeValue([n][1..]) == 0;
    } else {
      assert Weight(0) == 1;
      EncodingIsCode(n / 128, left - 1);
      assert LengthBytes(n)[1..] == LengthBytes(n / 128);
    }
  }

  /** No code of the same value is shorter than the encoder's, and none of that length differs. */
  lemma {:induction false} EncodingIsShortest(code: bytes, left: nat)
    requires IsCode(code, left)
    ensures |LengthBytes(CodeValue(code))| <= |code|
    ensures |LengthBytes(CodeValue(code))| == |code| ==> LengthBytes(CodeValue(code)) == code
    decreases left
  {
    if code[0] >= CONTINUATION {
      EncodingIsShortest(code[1..], left - 1);
      var high := CodeValue(code[1..]);
      assert CodeValue(code) % 128 == code[0] % 128 && CodeValue(code) / 128 == high;
      assert code == [code[0]] + code[1..];
      if high == 0 {
        assert |code[1..]| >= 1;
      }
    } else {
      assert code[1..] == [] && code == [code[0]];
    }
  }

  /** Decoding inverts encoding for every value the field can hold, whatever follows. */
  lemma LengthRoundTrip(n: nat, rest: bytes)
    requires n <= MAX_REMAINING_LENGTH
    ensures ReadLength(LengthBytes(n) + rest, MAX_LENGTH_BYTES) == Ok(Length(n, |LengthBytes(n)|))
    ensures 1 <= |LengthBytes(n)| <= MAX_LENGTH_BYTES
  {
    LargestLength();
    EncodingIsCode(n, MAX_LENGTH_BYTES);
    ReadsCode(LengthBytes(n), rest, MAX_LENGTH_BYTES);
    CodeIsShort(LengthBytes(n), MAX_LENGTH_BYTES);
  }

  lemma {:induction false} CodeIsShort(code: bytes, left: nat)
    requires IsCode(code, left)
    ensures 1 <= |code| <= left
    decreases left
  {
    if code[0] >= CONTINUATION {
      CodeIsShort(code[1..], left - 1);
    }
  }

  method EncodeRemainingLength(value: u32) returns (r: Result<bytes, Error>)
    ensures r == if value > 268_435_455 then Err(LengthTooLarge) else Ok(LengthBytes(value))
  {
    if value > MAX_REMAINING_LENGTH {
      return Err(LengthTooLarge);
    }
    var left: nat := value;
    var low := left % 128;
    left := left / 128;
    var out: bytes := [if left > 0 then CONTINUATION + low else low];
    while left > 0
      invariant left > 0 ==> LengthBytes(value) == out + LengthBytes(left)
      invariant left == 0 ==> LengthBytes(value) == out
    {
      low := left % 128;
      left := left / 128;
      out := out + [if left > 0 then CONTINUATION + low else low];
    }
    return Ok(out);
  }

  /** Decodes in 32-bit arithmetic, as the code does: no step of it ever wraps. */
  method DecodeRemainingLength(buffer: bytes, start: nat) returns (r: Result<u32, Error>, next: nat)
    requires start <= |buffer|
    ensures r.Err? ==> ReadLength(buffer[start..], MAX_LENGTH_BYTES) == Err(r.error)
    ensures r.Ok? ==> start <= next <= |buffer|
    ensures r.Ok? ==> ReadLength(buffer[start..], MAX_LENGTH_BYTES) == Ok(Length(r.value, next - start))
  {
    hide ReadLength;
    var multiplier: u32, value: u32 := 1, 0;
    next := start;
    ReadFurther(ReadLength(buffer[start..], MAX_LENGTH_BYTES));
    for i := 0 to MAX_LENGTH_BYTES
      invariant next == start + i <= |buffer|
      invariant multiplier == Weight(i) && value < multiplier
      invariant ReadLength(buffer[start..], MAX_LENGTH_BYTES) ==
        Further(ReadLength(buffer[next..], MAX_LENGTH_BYTES - i), value, multiplier, i)
    {
      ReadStep(buffer[next..], MAX_LENGTH_BYTES - i, value, multiplier, i);
      if next >= |buffer| {
        return Err(LengthTruncated), next;
      }
      var b := buffer[next];
      assert buffer[next..][1..] == buffer[next + 1..];
      next := next + 1;
      NoWrap(value, b % 128, i);
      value := (value + b % 128 * multiplier) % TWO32;
      if b < CONTINUATION {
        return Ok(value), next;
      }
      multiplier := multiplier * 128 % TWO32;
    }
    ReadStep(buffer[next..], 0, value, multiplier, MAX_LENGTH_BYTES);
    return Err(LengthUnfinished), next;
  }

  /** Below the 28th bit a digit and the next weight stay inside 32 bits. */
  lemma NoWrap(value: nat, digit: nat, i: nat)
    requires value < Weight(i) && digit < 128 && i < MAX_LENGTH_BYTES
    ensures value + digit * Weight(i) < Weight(i + 1) == Weight(i) * 128 < TWO32
  {
    assert Weight(2) == 128 * Weight(1) && Weight(1) == 128 * Weight(0);
    assert digit * Weight(i) <= 127 * Weight(i);
  }

  lemma ReadFurther(r: Result<Length, Error>)
    ensures Further(r, 0, 1, 0) == r
  {}

  lemma ReadStep(buffer: bytes, left: nat, low: nat, weight: nat, n: nat)
    ensures left == 0 ==> Further(ReadLength(buffer, left), low, weight, n) == Err(LengthUnfinished)
    ensures left > 0 && buffer == [] ==> Further(ReadLength(buffer, left), low, weight, n) == Err(LengthTruncated)
    ensures left > 0 && buffer != [] ==>
      Further(ReadLength(buffer, left), low, weight, n) ==
      if buffer[0] < CONTINUATION then Ok(Length(low + buffer[0] % 128 * weight, n + 1))
      else Further(ReadLength(buffer[1..], left - 1), low + buffer[0] % 128 * weight, weight * 128, n + 1)
  {
    if left > 0 && buffer != [] && buffer[0] >= CONTINUATION {
      FurtherTwice(ReadLength(buffer[1..], left - 1), buffer[0] % 128, low, weight, n);
    }
  }

  lemma FurtherTwice(r: Result<Length, Error>, digit: nat, low: nat, weight: nat, n: nat)
    ensures Further(Further(r, digit, 128, 1), low, weight, n) == Further(r, low + digit * weight, weight * 128, n + 1)
  {
    if r.Ok? {
      assert weight * (digit + 128 * r.value.value) == digit * weight + weight * 128 * r.value.value;
    }
  }

  // ----- strings (section 1.5.3) -------------------------------------------------------------

  function StringField(s: bytes): bytes
    requires |s| <= MAX_STRING_LENGTH
  {
    [|s| / 256, |s| % 256] + s
  }

  method EncodeString(s: bytes) returns (r: Result<bytes, Error>)
    ensures r == if |s| > 65_535 then Err(StringTooLong) else Ok(StringField(s))
  {
    if |s| > MAX_STRING_LENGTH {
      return Err(StringTooLong);
    }
    var out: bytes := [|s| / 256, |s| % 256];
    for i := 0 to |s|
      invariant out == [|s| / 256, |s| % 256] + s[..i]
    {
      out := out + [s[i]];
    }
    assert s[..|s|] == s;
    return Ok(out);
  }

  function BigEndian(high: byte, low: byte): nat {
    256 * high as int + low
  }

  /** The string at the front of a buffer. */
  function StringAt(buffer: bytes): Result<bytes, Error> {
    if |buffer| < 2 || |buffer| < 2 + BigEndian(buffer[0], buffer[1]) then Err(StringTruncated)
    else Ok(buffer[2..2 + BigEndian(buffer[0], buffer[1])])
  }

  method ReadString(buffer: bytes, start: nat) returns (r: Result<bytes, Error>, next: nat)
    requires start <= |buffer|
    ensures r == StringAt(buffer[start..])
    ensures r.Ok? ==> next == start + 2 + |r.value| <= |buffer|
  {
    if start + 1 >= |buffer| {
      return Err(StringTruncated), start;
    }
    var size := BigEndian(buffer[start], buffer[start + 1]);
    next := start + 2;
    if next + size > |buffer| {
      return Err(StringTruncated), next;
    }
    var s: bytes := [];
    for i := 0 to size
      invariant next == start + 2 + i <= |buffer|
      invariant s == buffer[start..][2..2 + i]
    {
      s := s + [buffer[next]];
      next := next + 1;
    }
    return Ok(s), next;
  }

  /** A string reads back as itself, and only its own field reads as it. */
  lemma StringReads(s: bytes, buffer: bytes)
    requires |s| <= MAX_STRING_LENGTH
    ensures StringAt(buffer) == Ok(s) <==> |buffer| >= 2 + |s| && buffer[..2 + |s|] == StringField(s)
  {
    if |buffer| >= 2 + |s| {
      var front := buffer[..2 + |s|];
      assert buffer[0] == front[0] && buffer[1] == front[1] && buffer[2..2 + |s|] == front[2..];
      if StringAt(buffer) == Ok(s) {
        assert front == [buffer[0], buffer[1]] + buffer[2..2 + |s|];
      }
    }
  }

  // ----- PUBLISH (section 3.3) ---------------------------------------------------------------

  datatype Publish = Publish(topic: bytes, payload: bytes)

  /** A PUBLISH whose remaining length is `n`. */
  function PublishPacket(p: Publish, n: nat): bytes
    requires |p.topic| <= MAX_STRING_LENGTH
  {
    [PUBLISH] + (LengthBytes(n) + (StringField(p.topic) + p.payload))
  }

  function BodySize(p: Publish): nat {
    2 + |p.topic| + |p.payload|
  }

  /** The protocol can carry it: the topic has a 16-bit length, the body a 28-bit one. */
  predicate Carriable(p: Publish) {
    |p.topic| <= MAX_STRING_LENGTH && BodySize(p) <= MAX_REMAINING_LENGTH
  }

  /** The length is cut to 32 bits before the range check, so it is the wrapped size that the
      packet states and the check sees. */
  method BuildPublish(p: Publish) returns (r: Result<bytes, Error>)
    ensures r ==
      if |p.topic| > 65_535 then Err(StringTooLong)
      else if BodySize(p) % TWO32 > 268_435_455 then Err(LengthTooLarge)
      else Ok(PublishPacket(p, BodySize(p) % TWO32))
  {
    var topicBytes := EncodeString(p.topic);
    if topicBytes.Err? {
      return Err(topicBytes.error);
    }
    var remaining: u32 := (|topicBytes.value| + |p.payload|) % TWO32;
    var lengthBytes := EncodeRemainingLength(remaining);
    if lengthBytes.Err? {
      return Err(lengthBytes.error);
    }
    var out: bytes := [PUBLISH];
    out := out + lengthBytes.value;
    out := out + topicBytes.value;
    for i := 0 to |p.payload|
      invariant out == [PUBLISH] + lengthBytes.value + topicBytes.value + p.payload[..i]
    {
      out := out + [p.payload[i]];
    }
    assert p.payload[..|p.payload|] == p.payload;
    Associative([PUBLISH], lengthBytes.value, topicBytes.value);
    Associative([PUBLISH], lengthBytes.value + topicBytes.value, p.payload);
    Associative(lengthBytes.value, topicBytes.value, p.payload);
    return Ok(out);
  }

  /** Type PUBLISH and quality of service 0; DUP and RETAIN may be either. */
  predicate AcceptedHeader(header: byte) {
    header / 16 == 3 && header / 2 % 4 == 0
  }

  /** What the parser makes of a buffer. The topic is bounded by the buffer and not by the body, so
      in a buffer with more than one packet it may end past the body: the last error, where the
      code forms a payload of negative size. */
  function ParsedPublish(packet: bytes): Result<Publish, Error> {
    if packet == [] then Err(EmptyBuffer)
    else if packet[0] / 16 != 3 then Err(BadHeader)
    else if packet[0] / 2 % 4 != 0 then Err(QosUnsupported)
    else
      match ReadLength(packet[1..], MAX_LENGTH_BYTES)
      case Err(e) => Err(e)
      case Ok(length) => ReadIsCode(packet[1..], MAX_LENGTH_BYTES); ParsedBody(packet[1 + length.used..], length.value)
  }

  /** The part after the remaining length, which says the body is `size` bytes. */
  function ParsedBody(rest: bytes, size: nat): Result<Publish, Error> {
    if size > |rest| then Err(BodyTruncated)
    else
      match StringAt(rest)
      case Err(e) => Err(e)
      case Ok(topic) => if 2 + |topic| > size then Err(TopicPastBody) else Ok(Publish(topic, rest[2 + |topic|..size]))
  }

  method ParsePublish(packet: bytes) returns (r: Result<Publish, Error>)
    ensures r == ParsedPublish(packet)
  {
    if packet == [] {
      return Err(EmptyBuffer);
    }
    var fixedHeader := packet[0];
    if fixedHeader / 16 * 16 != PUBLISH {
      return Err(BadHeader);
    }
    var flagsNibble := fixedHeader % 16;
    var qos := flagsNibble / 2 % 4;
    assert qos == fixedHeader / 2 % 4;
    if qos != 0 {
      return Err(QosUnsupported);
    }
    var remaining, bodyStart := DecodeRemainingLength(packet, 1);
    if remaining.Err? {
      return Err(remaining.error);
    }
    var bodyEnd := bodyStart + remaining.value;
    if bodyEnd > |packet| {
      return Err(BodyTruncated);
    }
    var topic, cursor := ReadString(packet, bodyStart);
    if topic.Err? {
      return Err(topic.error);
    }
    if cursor > bodyEnd {
      return Err(TopicPastBody);
    }
    assert packet[bodyStart..][2 + |topic.value|..remaining.value] == packet[cursor..bodyEnd];
    return Ok(Publish(topic.value, packet[cursor..bodyEnd]));
  }

  /** A topic and payload under any accepted header and any code for their size. */
  predicate Encodes(front: bytes, code: bytes, p: Publish) {
    && |front| == 1 && AcceptedHeader(front[0])
    && IsCode(code, MAX_LENGTH_BYTES) && CodeValue(code) == BodySize(p)
    && |p.topic| <= MAX_STRING_LENGTH
  }

  function Encoded(front: bytes, code: bytes, p: Publish, tail: bytes): bytes
    requires |p.topic| <= MAX_STRING_LENGTH
  {
    front + (code + (StringField(p.topic) + (p.payload + tail)))
  }

  lemma FrontParses(front: bytes, code: bytes, rest: bytes)
    requires |front| == 1 && AcceptedHeader(front[0]) && IsCode(code, MAX_LENGTH_BYTES)
    ensures ParsedPublish(front + (code + rest)) == ParsedBody(rest, CodeValue(code))
  {
    hide ReadLength, IsCode, CodeValue, ParsedBody;
    var packet := front + (code + rest);
    assert packet[1..] == code + rest;
    ReadsCode(code, rest, MAX_LENGTH_BYTES);
    assert packet[1 + |code|..] == rest;
  }

  lemma BodyParses(p: Publish, tail: bytes)
    requires |p.topic| <= MAX_STRING_LENGTH
    ensures ParsedBody(StringField(p.topic) + (p.payload + tail), BodySize(p)) == Ok(p)
  {
    hide StringAt;
    var n, rest := 2 + |p.topic|, StringField(p.topic) + (p.payload + tail);
    StringReads(p.topic, rest);
    assert rest[..n] == StringField(p.topic);
    assert rest[n..BodySize(p)] == p.payload;
  }

  /** Every encoding parses to what it encodes, whatever follows it. */
  lemma EncodedParses(front: bytes, code: bytes, p: Publish, tail: bytes)
    requires Encodes(front, code, p)
    ensures ParsedPublish(Encoded(front, code, p, tail)) == Ok(p)
  {
    hide ParsedPublish, ParsedBody, StringField, IsCode, CodeValue;
    FrontParses(front, code, StringField(p.topic) + (p.payload + tail));
    BodyParses(p, tail);
  }

  /** Nothing else parses: an accepted buffer starts with an encoding of what it parsed to. */
  lemma ParsedIsEncoded(packet: bytes) returns (front: bytes, code: bytes, tail: bytes)
    requires ParsedPublish(packet).Ok?
    ensures var p := ParsedPublish(packet).value; Encodes(front, code, p) && packet == Encoded(front, code, p, tail)
  {
    hide ReadLength, IsCode, CodeValue, StringAt, StringField;
    var p := ParsedPublish(packet).value;
    var length := ReadLength(packet[1..], MAX_LENGTH_BYTES).value;
    ReadIsCode(packet[1..], MAX_LENGTH_BYTES);
    var rest := packet[1 + length.used..];
    front, code, tail := packet[..1], packet[1..][..length.used], rest[length.value..];
    assert packet[1..][length.used..] == rest;
    Split(packet, 1);
    Split(packet[1..], length.used);
    BodyIsEncoded(rest, length.value, p);
  }

  lemma BodyIsEncoded(rest: bytes, size: nat, p: Publish)
    requires ParsedBody(rest, size) == Ok(p)
    ensures size == BodySize(p) && size <= |rest| && |p.topic| <= MAX_STRING_LENGTH
    ensures rest == StringField(p.topic) + (p.payload + rest[size..])
  {
    var n := 2 + |p.topic|;
    hide StringField;
    StringReads(p.topic, rest);
    hide StringAt;
    Split(rest, n);
    Split(rest[n..], |p.payload|);
    assert rest[n..][..|p.payload|] == p.payload && rest[n..][|p.payload|..] == rest[size..];
  }

  /** The builder and the parser: a packet that was built reads back as its topic and payload
      exactly when the body fits the protocol's length field. A body of 4 GiB or more can wrap to
      a length that passes the builder's check, and then does not. */
  lemma PublishRoundTrip(p: Publish, tail: bytes)
    requires |p.topic| <= MAX_STRING_LENGTH && BodySize(p) % TWO32 <= MAX_REMAINING_LENGTH
    ensures ParsedPublish(PublishPacket(p, BodySize(p) % TWO32) + tail) == Ok(p) <==> Carriable(p)
  {
    hide LengthBytes, ParsedPublish, ParsedBody, IsCode, StringField;
    var n := BodySize(p) % TWO32;
    LargestLength();
    EncodingIsCode(n, MAX_LENGTH_BYTES);
    PacketThenTail(p, n, tail);
    FrontParses([PUBLISH], LengthBytes(n), StringField(p.topic) + (p.payload + tail));
    if Carriable(p) {
      BodyParses(p, tail);
    } else {
      ShortBodyDiffers(StringField(p.topic) + (p.payload + tail), n, p);
    }
  }

  lemma PacketThenTail(p: Publish, n: nat, tail: bytes)
    requires |p.topic| <= MAX_STRING_LENGTH
    ensures PublishPacket(p, n) + tail == Encoded([PUBLISH], LengthBytes(n), p, tail)
  {
    hide LengthBytes, StringField;
    var code, field := LengthBytes(n), StringField(p.topic);
    Associative([PUBLISH], code + (field + p.payload), tail);
    Associative(code, field + p.payload, tail);
    Associative(field, p.payload, tail);
  }

  /** Where it fails: a payload of 4 GiB is built into a packet that states an empty payload. */
  lemma WrappedPublish(topic: bytes)
    requires |topic| <= MAX_STRING_LENGTH
    ensures var p := Publish(topic, seq(TWO32, _ => 0));
      && BodySize(p) % TWO32 == 2 + |topic|
      && ParsedPublish(PublishPacket(p, BodySize(p) % TWO32)) != Ok(p)
  {
    var p := Publish(topic, seq(TWO32, _ => 0));
    PublishRoundTrip(p, []);
    assert PublishPacket(p, BodySize(p) % TWO32) + [] == PublishPacket(p, BodySize(p) % TWO32);
  }

  lemma ShortBodyDiffers(rest: bytes, size: nat, p: Publish)
    requires size < BodySize(p)
    ensures ParsedBody(rest, size) != Ok(p)
  {
    var topic := StringAt(rest);
    if topic.Ok? && 2 + |topic.value| <= size <= |rest| {
      assert |rest[2 + |topic.value|..size]| == size - 2 - |topic.value|;
    }
  }

  /** In a buffer that holds exactly one packet the topic cannot end past the body. */
  lemma ExactFrameIsSafe(header: byte, code: bytes, body: bytes)
    requires IsCode(code, MAX_LENGTH_BYTES) && CodeValue(code) == |body|
    ensures ParsedPublish([header] + code + body) != Err(TopicPastBody)
  {
    var packet := [header] + code + body;
    assert packet[1..] == code + body;
    ReadsCode(code, body, MAX_LENGTH_BYTES);
    assert packet[1 + |code|..] == body;
    ReadFails(packet[1..], MAX_LENGTH_BYTES);
  }

  // ----- SUBSCRIBE (section 3.8) -------------------------------------------------------------

  const SUBSCRIBE: byte := 0x82

  function SubscribeBody(id: nat, topic: bytes): bytes
    requires id < 65536 && |topic| <= MAX_STRING_LENGTH
  {
    [id / 256, id % 256] + (StringField(topic) + [0])
  }

  function SubscribePacket(id: nat, topic: bytes): bytes
    requires id < 65536 && |topic| <= MAX_STRING_LENGTH
  {
    [SUBSCRIBE] + (LengthBytes(|SubscribeBody(id, topic)|) + SubscribeBody(id, topic))
  }

  method BuildSubscribe(id: nat, topic: bytes) returns (r: Result<bytes, Error>)
    requires id < 65536
    ensures r == if |topic| > 65_535 then Err(StringTooLong) else Ok(SubscribePacket(id, topic))
  {
    var topicBytes := EncodeString(topic);
    if topicBytes.Err? {
      return Err(topicBytes.error);
    }
    var variable: bytes := [id / 256, id % 256];
    var payload := topicBytes.value + [0];
    var lengthBytes := EncodeRemainingLength(|variable| + |payload|);
    Associative([SUBSCRIBE], lengthBytes.value, variable);
    Associative([SUBSCRIBE], lengthBytes.value + variable, payload);
    Associative(lengthBytes.value, variable, payload);
    return Ok([SUBSCRIBE] + lengthBytes.value + variable + payload);
  }

  /** A broker that reads the packet finds one frame with the packet identifier, the topic filter and
      quality of service 0. */
  lemma SubscribeReads(id: nat, topic: bytes)
    requires id < 65536 && |topic| <= MAX_STRING_LENGTH
    ensures var body := SubscribeBody(id, topic);
      && ReadLength(SubscribePacket(id, topic)[1..], MAX_LENGTH_BYTES) == Ok(Length(|body|, |LengthBytes(|body|)|))
      && SubscribePacket(id, topic)[1 + |LengthBytes(|body|)|..] == body
      && BigEndian(body[0], body[1]) == id && StringAt(body[2..]) == Ok(topic) && body[2..][2 + |topic|..] == [0]
  {
    hide ReadLength, LengthBytes, StringAt;
    var (body, rest) := (SubscribeBody(id, topic), StringField(topic) + [0]);
    LengthRoundTrip(|body|, body);
    assert SubscribePacket(id, topic)[1..] == LengthBytes(|body|) + body;
    assert body[2..] == rest && rest[..2 + |topic|] == StringField(topic);
    StringReads(topic, rest);
  }
}
