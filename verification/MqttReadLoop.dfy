/** The subscriber's read loop (src/integration/MqttClient.cpp): a chain of reads that cuts the socket's
    byte stream into packets one byte at a time, and hands each PUBLISH to its callback. */
module MqttReadLoop {
  import opened Wrappers
  import opened Sequences
  import opened MqttPacket

  const TWO64: int := 0x1_0000_0000_0000_0000

  /** The read that is outstanding, or none. */
  datatype Stage = AwaitHeader | AwaitLength | AwaitBody(need: nat) | Closed

  /** A registered callback, None the empty one. */
  type Callback = Option<nat>

  datatype Call = Call(callback: nat, message: Publish)

  datatype Session = Session(
    running: bool,
    stage: Stage,
    header: byte,
    length: bytes,
    body: bytes,
    received: nat,
    subscriptions: map<bytes, Callback>,
    throwing: set<nat>,
    calls: seq<Call>)

  // ----- one byte ----------------------------------------------------------------------------

  /** The loop re-armed: scratch buffers empty, one header byte asked for. */
  function Armed(s: Session): Session {
    s.(stage := AwaitHeader, length := [], body := [])
  }

  function Delivered(s: Session, p: Publish): Session {
    if p.topic in s.subscriptions && s.subscriptions[p.topic].Some?
    then s.(calls := s.calls + [Call(s.subscriptions[p.topic].value, p)])
    else s
  }

  /** The exact-match callback of a message throws: the packet is then not counted. */
  predicate Throws(subscriptions: map<bytes, Callback>, throwing: set<nat>, p: Publish) {
    p.topic in subscriptions && subscriptions[p.topic].Some? && subscriptions[p.topic].value in throwing
  }

  function Counted(s: Session, p: Publish): Session {
    if Throws(s.subscriptions, s.throwing, p) then s else s.(received := (s.received + 1) % TWO64)
  }

  /** Only a PUBLISH that parses changes anything; every other packet is dropped. */
  function Dispatched(s: Session, header: byte, code: bytes, body: bytes): Session {
    if header / 16 * 16 != PUBLISH then s
    else
      match ParsedPublish([header] + code + body)
      case Err(_) => s
      case Ok(p) => Counted(Delivered(s, p), p)
  }

  function BodyRead(s: Session): Session {
    Armed(Dispatched(s, s.header, s.length, s.body))
  }

  /** After a complete length code: an empty body is complete at once. */
  function LengthRead(s: Session): Session {
    match ReadLength(s.length, MAX_LENGTH_BYTES)
    case Err(_) => s.(running := false, stage := Closed)
    case Ok(n) =>
      var t := s.(stage := AwaitBody(n.value), body := []);
      if n.value == 0 then BodyRead(t) else t
  }

  function Received(s: Session, b: byte): Session {
    match s.stage
    case AwaitHeader => s.(stage := AwaitLength, header := b)
    case AwaitLength =>
      var t := s.(length := s.length + [b]);
      if b < CONTINUATION then LengthRead(t)
      else if |t.length| >= MAX_LENGTH_BYTES then t.(running := false, stage := Closed)
      else t
    case AwaitBody(need) =>
      var t := s.(body := s.body + [b]);
      if |t.body| >= need then BodyRead(t) else t
    case Closed => s
  }

  function Run(s: Session, stream: bytes): Session
    decreases |stream|
  {
    if stream == [] then s else Run(Received(s, stream[0]), stream[1..])
  }

  // ----- a whole stream at once --------------------------------------------------------------

  /** One packet of the stream: header byte, length code and body. */
  datatype Frame = Frame(header: byte, code: bytes, body: bytes)

  predicate FrameOk(f: Frame) {
    IsCode(f.code, MAX_LENGTH_BYTES) && CodeValue(f.code) == |f.body|
  }

  function FrameBytes(f: Frame): (r: bytes)
    ensures r != []
  {
    [f.header] + f.code + f.body
  }

  function Wire(frames: seq<Frame>): bytes {
    if frames == [] then [] else FrameBytes(frames[0]) + Wire(frames[1..])
  }

  function AfterFrame(s: Session, f: Frame): Session {
    Armed(Dispatched(s.(header := f.header), f.header, f.code, f.body))
  }

  function AfterFrames(s: Session, frames: seq<Frame>): Session
    decreases |frames|
  {
    if frames == [] then s else AfterFrames(AfterFrame(s, frames[0]), frames[1..])
  }

  /** The one-shot decoder: the packet a buffer starts with, if it holds all of it. */
  function FrontFrame(stream: bytes): (r: Option<Frame>)
    ensures r.Some? ==> FrameOk(r.value) && FrameBytes(r.value) <= stream
  {
    if stream == [] then None
    else
      match ReadLength(stream[1..], MAX_LENGTH_BYTES)
      case Err(_) => None
      case Ok(n) =>
        ReadIsCode(stream[1..], MAX_LENGTH_BYTES);
        var code, rest := stream[1..][..n.used], stream[1..][n.used..];
        if |rest| < n.value then None else Some(Frame(stream[0], code, rest[..n.value]))
  }

  /** A whole stream cut with the one-shot decoder: the packets, and what is left over. */
  function Cut(stream: bytes): (seq<Frame>, bytes)
    decreases |stream|
  {
    match FrontFrame(stream)
    case None => ([], stream)
    case Some(f) =>
      var (frames, rest) := Cut(stream[|FrameBytes(f)|..]);
      ([f] + frames, rest)
  }

  /** Where the loop stands inside an unfinished packet: waiting for its next byte, or closed for
      good on a length code whose fourth byte asks for a fifth. */
  function Pending(s: Session, part: bytes): Session {
    if part == [] then s
    else
      match ReadLength(part[1..], MAX_LENGTH_BYTES)
      case Err(e) =>
        ReadFails(part[1..], MAX_LENGTH_BYTES);
        if e == LengthTruncated then s.(stage := AwaitLength, header := part[0], length := part[1..])
        else s.(running := false, stage := Closed, header := part[0], length := part[1..][..MAX_LENGTH_BYTES])
      case Ok(n) =>
        ReadIsCode(part[1..], MAX_LENGTH_BYTES);
        var code, body := part[1..][..n.used], part[1..][n.used..];
        s.(stage := AwaitBody(n.value), header := part[0], length := code, body := body)
  }

  /** The cut loses nothing, every packet in it is whole, and what is left is less than one. */
  lemma {:induction false} CutIsComplete(stream: bytes)
    ensures var (frames, rest) := Cut(stream);
      stream == Wire(frames) + rest && (forall f <- frames :: FrameOk(f)) && FrontFrame(rest) == None
    decreases |stream|
  {
    hide FrontFrame, FrameOk, FrameBytes;
    var front := FrontFrame(stream);
    if front.Some? {
      var n := |FrameBytes(front.value)|;
      CutIsComplete(stream[n..]);
      assert stream == stream[..n] + stream[n..];
      assert Cut(stream).0[1..] == Cut(stream[n..]).0;
    }
  }

  // ----- the loop follows the one-shot decoder -----------------------------------------------

  lemma {:induction false} RunConcat(s: Session, a: bytes, b: bytes)
    ensures Run(s, a + b) == Run(Run(s, a), b)
    decreases |a|
  {
    hide Received;
    if a == [] {
      assert a + b == b;
    } else {
      assert (a + b)[0] == a[0] && (a + b)[1..] == a[1..] + b;
      RunConcat(Received(s, a[0]), a[1..], b);
    }
  }

  lemma RunNothing(s: Session)
    ensures Run(s, []) == s
  {}

  lemma RunOne(s: Session, b: byte)
    ensures Run(s, [b]) == Received(s, b)
  {
    assert [b][1..] == [];
  }

  predicate AllAsk(part: bytes) {
    forall i :: 0 <= i < |part| ==> part[i] >= CONTINUATION
  }

  predicate Idle(s: Session) {
    s.stage == AwaitHeader && s.length == [] && s.body == []
  }

  lemma {:induction false} ClosedStays(s: Session, stream: bytes)
    requires s.stage == Closed
    ensures Run(s, stream) == s
    decreases |stream|
  {
    if stream != [] {
      ClosedStays(s, stream[1..]);
    }
  }

  /** Continuation bytes accumulate until the fourth, which closes the loop. */
  lemma {:induction false} RunContinuation(s: Session, part: bytes)
    requires s.stage == AwaitLength && |s.length| < MAX_LENGTH_BYTES
    requires AllAsk(part)
    ensures Run(s, part) ==
      if |s.length| + |part| < MAX_LENGTH_BYTES then s.(length := s.length + part)
      else s.(running := false, stage := Closed, length := s.length + part[..MAX_LENGTH_BYTES - |s.length|])
    decreases |part|
  {
    if part == [] {
      assert s.length + part == s.length;
    } else {
      var t := Received(s, part[0]);
      assert t.length == s.length + [part[0]];
      if |t.length| < MAX_LENGTH_BYTES {
        RunContinuation(t, part[1..]);
        if |s.length| + |part| < MAX_LENGTH_BYTES {
          assert t.length + part[1..] == s.length + part;
        } else {
          assert t.length + part[1..][..MAX_LENGTH_BYTES - |t.length|] == s.length + part[..MAX_LENGTH_BYTES - |s.length|];
        }
      } else {
        ClosedStays(t, part[1..]);
        assert part[..1] == [part[0]];
      }
    }
  }

  lemma {:induction false} CodeShape(code: bytes, left: nat)
    requires IsCode(code, left)
    ensures 1 <= |code| <= left && code[|code| - 1] < CONTINUATION
    ensures AllAsk(code[..|code| - 1])
    decreases left
  {
    if code[0] >= CONTINUATION {
      CodeShape(code[1..], left - 1);
      assert code[..|code| - 1] == [code[0]] + code[1..][..|code| - 2];
    }
  }

  /** A well-formed code is read to its last byte and no further. */
  lemma RunCode(s: Session, code: bytes)
    requires s.stage == AwaitLength && s.length == [] && IsCode(code, MAX_LENGTH_BYTES)
    ensures Run(s, code) == LengthRead(s.(length := code))
  {
    hide IsCode, LengthRead, Run, AllAsk;
    CodeShape(code, MAX_LENGTH_BYTES);
    var n := |code| - 1;
    RunContinuation(s, code[..n]);
    assert s.length + code[..n] == code[..n];
    RunConcat(s, code[..n], [code[n]]);
    RunOne(Run(s, code[..n]), code[n]);
    assert code[..n] + [code[n]] == code;
  }

  lemma {:induction false} RunBody(s: Session, part: bytes)
    requires s.stage.AwaitBody? && |s.body| + |part| <= s.stage.need && |s.body| < s.stage.need
    ensures Run(s, part) ==
      var t := s.(body := s.body + part);
      if |s.body| + |part| < s.stage.need then t else BodyRead(t)
    decreases |part|
  {
    hide BodyRead;
    if part == [] {
      assert s.body + part == s.body;
    } else if |part| > 1 {
      var t := Received(s, part[0]);
      RunBody(t, part[1..]);
      assert t.body + part[1..] == s.body + part;
    } else {
      assert part == [part[0]];
      RunOne(s, part[0]);
    }
  }

  /** From the header to the end of the length code. */
  lemma RunFront(s: Session, header: byte, code: bytes)
    requires Idle(s) && IsCode(code, MAX_LENGTH_BYTES)
    ensures Run(s, [header] + code) ==
      var t := s.(stage := AwaitBody(CodeValue(code)), header := header, length := code);
      if CodeValue(code) == 0 then BodyRead(t) else t
  {
    hide BodyRead, ReadLength, CodeValue, IsCode;
    RunConcat(s, [header], code);
    RunOne(s, header);
    var t := s.(stage := AwaitLength, header := header);
    RunCode(t, code);
    ReadsCode(code, [], MAX_LENGTH_BYTES);
    assert code + [] == code;
  }

  /** One packet, byte by byte, leaves the loop as dispatching it whole does. */
  lemma FrameDispatched(s: Session, f: Frame)
    requires Idle(s) && FrameOk(f)
    ensures Run(s, FrameBytes(f)) == AfterFrame(s, f) && Idle(AfterFrame(s, f))
  {
    hide IsCode, CodeValue;
    var t := s.(stage := AwaitBody(|f.body|), header := f.header, length := f.code);
    RunFront(s, f.header, f.code);
    RunConcat(s, [f.header] + f.code, f.body);
    if f.body != [] {
      RunBody(t, f.body);
      assert t.body + f.body == f.body;
    }
    DispatchIgnoresScratch(t.(body := f.body), s.(header := f.header), f);
  }

  /** Dispatch looks at none of the scratch fields and changes none of them. */
  lemma DispatchIgnoresScratch(a: Session, b: Session, f: Frame)
    requires Armed(a) == Armed(b)
    ensures Armed(Dispatched(a, f.header, f.code, f.body)) == Armed(Dispatched(b, f.header, f.code, f.body))
  {
    hide ParsedPublish;
    assert a == Armed(a).(stage := a.stage, length := a.length, body := a.body);
    assert b == Armed(a).(stage := b.stage, length := b.length, body := b.body);
  }

  /** Any list of whole packets, concatenated, is dispatched packet by packet in order. */
  lemma {:induction false} FramesRecovered(s: Session, frames: seq<Frame>)
    requires Idle(s) && forall f <- frames :: FrameOk(f)
    ensures Run(s, Wire(frames)) == AfterFrames(s, frames) && Idle(AfterFrames(s, frames))
    decreases |frames|
  {
    hide FrameOk, AfterFrame, FrameBytes;
    if frames != [] {
      FrameDispatched(s, frames[0]);
      RunConcat(s, FrameBytes(frames[0]), Wire(frames[1..]));
      FramesRecovered(AfterFrame(s, frames[0]), frames[1..]);
    }
  }

  /** On less than a packet the loop stands inside it. */
  lemma PartialPending(s: Session, part: bytes)
    requires Idle(s) && FrontFrame(part) == None
    ensures Run(s, part) == Pending(s, part)
  {
    if part != [] {
      hide Run, ReadLength, IsCode, CodeValue;
      Split(part, 1);
      if ReadLength(part[1..], MAX_LENGTH_BYTES).Err? {
        PartialCode(s, part[0], part[1..]);
      } else {
        var n := ReadLength(part[1..], MAX_LENGTH_BYTES).value;
        ReadIsCode(part[1..], MAX_LENGTH_BYTES);
        Split(part[1..], n.used);
        PartialBody(s, part[0], part[1..][..n.used], part[1..][n.used..]);
      }
    }
  }

  lemma PartialCode(s: Session, header: byte, code: bytes)
    requires Idle(s) && ReadLength(code, MAX_LENGTH_BYTES).Err?
    ensures Run(s, [header] + code) == Pending(s, [header] + code)
  {
    hide Run, ReadLength, AllContinue;
    assert ([header] + code)[1..] == code;
    ReadFails(code, MAX_LENGTH_BYTES);
    RunConcat(s, [header], code);
    RunOne(s, header);
    FailedCode(s.(stage := AwaitLength, header := header), code);
  }

  lemma PartialBody(s: Session, header: byte, code: bytes, body: bytes)
    requires Idle(s) && IsCode(code, MAX_LENGTH_BYTES) && |body| < CodeValue(code)
    ensures Run(s, [header] + (code + body)) ==
      s.(stage := AwaitBody(CodeValue(code)), header := header, length := code, body := body)
  {
    hide Run, IsCode, BodyRead, CodeValue;
    RunFront(s, header, code);
    RunConcat(s, [header] + code, body);
    Associative([header], code, body);
    RunBody(s.(stage := AwaitBody(CodeValue(code)), header := header, length := code), body);
    assert s.body + body == body;
  }

  lemma FailedCode(s: Session, code: bytes)
    requires s.stage == AwaitLength && s.length == [] && AllContinue(code, MAX_LENGTH_BYTES)
    ensures Run(s, code) ==
      if |code| < MAX_LENGTH_BYTES then s.(length := code)
      else s.(running := false, stage := Closed, length := code[..MAX_LENGTH_BYTES])
  {
    if |code| < MAX_LENGTH_BYTES {
      RunContinuation(s, code);
      assert s.length + code == code;
    } else {
      var front := code[..MAX_LENGTH_BYTES];
      RunContinuation(s, front);
      assert s.length + front[..MAX_LENGTH_BYTES] == front;
      RunConcat(s, front, code[MAX_LENGTH_BYTES..]);
      ClosedStays(Run(s, front), code[MAX_LENGTH_BYTES..]);
      assert code == front + code[MAX_LENGTH_BYTES..];
    }
  }

  /** The loop and the one-shot decoder agree on every byte stream. */
  lemma LoopMatchesDecoder(s: Session, stream: bytes)
    requires Idle(s)
    ensures var (frames, rest) := Cut(stream); Run(s, stream) == Pending(AfterFrames(s, frames), rest)
  {
    hide Cut, Pending, FrameOk, FrontFrame;
    var (frames, rest) := Cut(stream);
    CutIsComplete(stream);
    FramesRecovered(s, frames);
    RunConcat(s, Wire(frames), rest);
    PartialPending(AfterFrames(s, frames), rest);
  }

  // ----- what subscribers see ----------------------------------------------------------------

  /** What a broker sends: a PUBLISH as the builder makes it, or a packet of another type. */
  datatype Packet = Message(p: Publish) | Other(header: byte, body: bytes)

  predicate Sendable(packet: Packet) {
    match packet
    case Message(p) => Carriable(p)
    case Other(header, body) => header / 16 * 16 != PUBLISH && |body| <= MAX_REMAINING_LENGTH
  }

  function PacketBytes(packet: Packet): bytes
    requires Sendable(packet)
  {
    match packet
    case Message(p) => PublishPacket(p, BodySize(p))
    case Other(header, body) => [header] + LengthBytes(|body|) + body
  }

  function Stream(packets: seq<Packet>): bytes
    requires forall p <- packets :: Sendable(p)
  {
    if packets == [] then [] else PacketBytes(packets[0]) + Stream(packets[1..])
  }

  /** Single-topic SUBACK (section 3.9), UNSUBACK (3.11) and PINGRESP (3.13). */
  function SubAck(id: nat, code: byte): Packet
    requires id < 65536
  {
    Other(0x90, [id / 256, id % 256, code])
  }

  function UnsubAck(id: nat): Packet
    requires id < 65536
  {
    Other(0xB0, [id / 256, id % 256])
  }

  function PingResp(): Packet {
    Other(0xD0, [])
  }

  lemma AckBytes(id: nat, code: byte)
    requires id < 65536
    ensures Sendable(SubAck(id, code)) && PacketBytes(SubAck(id, code)) == [0x90, 3, id / 256, id % 256, code]
    ensures Sendable(UnsubAck(id)) && PacketBytes(UnsubAck(id)) == [0xB0, 2, id / 256, id % 256]
    ensures Sendable(PingResp()) && PacketBytes(PingResp()) == [0xD0, 0]
  {}

  /** The call one packet causes: a message's, if its exact topic has a callback. */
  function CallFor(packet: Packet, subscriptions: map<bytes, Callback>): seq<Call> {
    match packet
    case Other(_, _) => []
    case Message(p) =>
      if p.topic in subscriptions && subscriptions[p.topic].Some?
      then [Call(subscriptions[p.topic].value, p)]
      else []
  }

  function CallsFor(packets: seq<Packet>, subscriptions: map<bytes, Callback>): seq<Call> {
    if packets == [] then [] else CallFor(packets[0], subscriptions) + CallsFor(packets[1..], subscriptions)
  }

  /** How many of the packets are messages whose callback, if any, returns. */
  function Messages(packets: seq<Packet>, subscriptions: map<bytes, Callback>, throwing: set<nat>): nat {
    if packets == [] then 0
    else
      (if packets[0].Message? && !Throws(subscriptions, throwing, packets[0].p) then 1 else 0)
      + Messages(packets[1..], subscriptions, throwing)
  }

  function FrameOf(packet: Packet): Frame {
    match packet
    case Message(p) => if Carriable(p) then Frame(PUBLISH, LengthBytes(BodySize(p)), StringField(p.topic) + p.payload)
                       else Frame(0, [], [])
    case Other(header, body) => Frame(header, LengthBytes(|body|), body)
  }

  lemma PacketIsFrame(packet: Packet)
    requires Sendable(packet)
    ensures FrameOk(FrameOf(packet)) && FrameBytes(FrameOf(packet)) == PacketBytes(packet)
  {
    hide LengthBytes, IsCode, CodeValue;
    LargestLength();
    EncodingIsCode(|FrameOf(packet).body|, MAX_LENGTH_BYTES);
  }

  /** Dispatching one packet: a message is delivered, and counted unless its callback throws; anything
      else is not seen. */
  lemma PacketSeen(s: Session, packet: Packet)
    requires Sendable(packet)
    ensures var t := AfterFrame(s, FrameOf(packet));
      && t.running == s.running && t.subscriptions == s.subscriptions && t.throwing == s.throwing
      && t.calls == s.calls + CallFor(packet, s.subscriptions)
      && t.received ==
        (if packet.Message? && !Throws(s.subscriptions, s.throwing, packet.p) then (s.received + 1) % TWO64 else s.received)
  {
    hide ParsedPublish, StringField, LengthBytes;
    if packet.Message? {
      MessageParses(packet.p);
    }
  }

  lemma MessageParses(p: Publish)
    requires Carriable(p)
    ensures ParsedPublish([PUBLISH] + LengthBytes(BodySize(p)) + (StringField(p.topic) + p.payload)) == Ok(p)
  {
    hide ParsedPublish, StringField, LengthBytes;
    PublishRoundTrip(p, []);
    assert PublishPacket(p, BodySize(p)) + [] == [PUBLISH] + LengthBytes(BodySize(p)) + (StringField(p.topic) + p.payload);
  }

  /** Streams of built messages and acknowledgements: every message reaches its exact-match
      callback with its own topic and payload, in order and once, whether or not callbacks throw,
      and the loop is ready again. */
  lemma {:induction false} StreamDelivered(s: Session, packets: seq<Packet>)
    requires Idle(s) && s.received < TWO64 && forall p <- packets :: Sendable(p)
    ensures var t := Run(s, Stream(packets));
      && Idle(t) && t.running == s.running && t.subscriptions == s.subscriptions && t.throwing == s.throwing
      && t.calls == s.calls + CallsFor(packets, s.subscriptions)
      && t.received == (s.received + Messages(packets, s.subscriptions, s.throwing)) % TWO64
    decreases |packets|
  {
    hide Run, CallFor, Throws, PacketBytes, AfterFrame, FrameOf, FrameOk, Sendable;
    RunNothing(s);
    if packets == [] {
      assert s.calls + [] == s.calls;
    } else {
      var t := AfterFrame(s, FrameOf(packets[0]));
      PacketIsFrame(packets[0]);
      FrameDispatched(s, FrameOf(packets[0]));
      PacketSeen(s, packets[0]);
      RunConcat(s, PacketBytes(packets[0]), Stream(packets[1..]));
      StreamDelivered(t, packets[1..]);
      Associative(s.calls, CallFor(packets[0], s.subscriptions), CallsFor(packets[1..], s.subscriptions));
      CountWraps(s.received, Messages(packets[1..], s.subscriptions, s.throwing));
    }
  }

  lemma CountWraps(a: nat, b: nat)
    ensures ((a + 1) % TWO64 + b) % TWO64 == (a + 1 + b) % TWO64
  {}

  // ----- packet identifiers ------------------------------------------------------------------

  const PACKET_IDS: nat := 65536
  const FIRST_PACKET_ID: nat := 1

  /** The 16-bit counter's fetch_add. */
  function NextPacketId(id: nat): nat {
    (id + 1) % PACKET_IDS
  }

  /** The identifier of the n-th SUBSCRIBE, counting from 0. */
  function PacketIdOf(n: nat): nat {
    if n == 0 then FIRST_PACKET_ID else NextPacketId(PacketIdOf(n - 1))
  }

  /** Section 2.3.1 wants the identifier to be other than zero. It is, except for every 65536th
      SUBSCRIBE: the counter wraps to zero. */
  lemma {:induction false} PacketIdExact(n: nat)
    ensures PacketIdOf(n) == (n + 1) % PACKET_IDS
    ensures PacketIdOf(n) != 0 <==> n % PACKET_IDS != PACKET_IDS - 1
  {
    if n > 0 {
      PacketIdExact(n - 1);
    }
  }

  // ----- the client --------------------------------------------------------------------------

  class MqttClient {
    var running: bool
    var stage: Stage
    var readFixedHeader: byte
    var readRemainingLengthBytes: bytes
    var readBody: bytes
    var receivedCount: nat
    var subscriptions: map<bytes, Callback>
    var calls: seq<Call>
    const throwing: set<nat>
    var posted: seq<bytes>        // topics whose SUBSCRIBE waits for the io thread
    var nextPacketId: nat
    var written: seq<bytes>       // SUBSCRIBE packets put on the socket

    function Value(): Session
      reads this
    {
      Session(running, stage, readFixedHeader, readRemainingLengthBytes, readBody, receivedCount, subscriptions,
              throwing, calls)
    }

    /** A client whose handshake has just been accepted; `throwing` are the callbacks that throw. */
    constructor (throwing: set<nat>)
      ensures Value() == Session(true, AwaitHeader, 0, [], [], 0, map[], throwing, [])
      ensures posted == [] && written == [] && nextPacketId == FIRST_PACKET_ID
    {
      this.throwing := throwing;
      posted, written, nextPacketId := [], [], FIRST_PACKET_ID;
      running, stage, readFixedHeader, readRemainingLengthBytes, readBody := true, AwaitHeader, 0, [], [];
      receivedCount, subscriptions, calls := 0, map[], [];
    }

    /** Registers or replaces the callback of one topic and, while connected, posts its SUBSCRIBE to the
        io thread. Empty and overlong topics are ignored. */
    method Subscribe(topic: bytes, callback: Callback)
      modifies this`subscriptions, this`posted
      ensures var ignored := topic == [] || |topic| > MAX_STRING_LENGTH;
        && subscriptions == (if ignored then old(subscriptions) else old(subscriptions)[topic := callback])
        && posted == (if ignored || !running then old(posted) else old(posted) + [topic])
    {
      if topic == [] || |topic| > MAX_STRING_LENGTH {
        return;
      }
      subscriptions := subscriptions[topic := callback];
      if running {
        posted := posted + [topic];
      }
    }

    /** The posted handler: the packet carries the next identifier; a failed write marks the client
        down, and a client that is down sends nothing. */
    method SendSubscribeFrame(writes: bool)
      requires posted != [] && |posted[0]| <= MAX_STRING_LENGTH && nextPacketId < PACKET_IDS
      modifies this`posted, this`nextPacketId, this`written, this`running
      ensures posted == old(posted)[1..]
      ensures nextPacketId == if old(running) then NextPacketId(old(nextPacketId)) else old(nextPacketId)
      ensures written ==
        if old(running) && writes then old(written) + [SubscribePacket(old(nextPacketId), old(posted[0]))] else old(written)
      ensures running == (old(running) && writes)
    {
      hide SubscribePacket;
      var topic := posted[0];
      posted := posted[1..];
      if !running {
        return;
      }
      var packetId := nextPacketId;
      nextPacketId := NextPacketId(nextPacketId);
      var packet := BuildSubscribe(packetId, topic);
      if writes {
        written := written + [packet.value];
      } else {
        running := false;
      }
    }

    method StartReadLoop()
      modifies this
      ensures Value() == Armed(old(Value()))
    {
      readRemainingLengthBytes := [];
      readBody := [];
      stage := AwaitHeader;
    }

    /** The handler of whichever read is outstanding, with the byte it read. */
    method OnByte(b: byte)
      modifies this
      ensures Value() == Received(old(Value()), b)
    {
      hide Armed, BodyRead, LengthRead;
      match stage
      case AwaitHeader =>
        readFixedHeader := b;
        stage := AwaitLength;
      case AwaitLength =>
        OnLengthByte(b);
      case AwaitBody(need) =>
        readBody := readBody + [b];
        if |readBody| >= need {
          OnBody();
        }
      case Closed =>
    }

    method OnLengthByte(b: byte)
      requires stage == AwaitLength
      modifies this
      ensures Value() == Received(old(Value()), b)
    {
      hide ReadLength;
      readRemainingLengthBytes := readRemainingLengthBytes + [b];
      if b >= CONTINUATION {
        if |readRemainingLengthBytes| >= MAX_LENGTH_BYTES {
          running := false;
          stage := Closed;
        }
        return;
      }
      var bodyLen, _ := DecodeRemainingLength(readRemainingLengthBytes, 0);
      assert readRemainingLengthBytes[0..] == readRemainingLengthBytes;
      if bodyLen.Err? {
        running := false;
        stage := Closed;
        return;
      }
      ReadFrameBody(bodyLen.value);
    }

    method ReadFrameBody(bodyLen: nat)
      modifies this
      ensures Value() == var t := old(Value()).(stage := AwaitBody(bodyLen), body := []);
        if bodyLen == 0 then BodyRead(t) else t
    {
      hide BodyRead;
      readBody := [];
      stage := AwaitBody(bodyLen);
      if bodyLen == 0 {
        OnBody();
      }
    }

    method OnBody()
      modifies this
      ensures Value() == BodyRead(old(Value()))
    {
      hide Dispatched;
      DispatchFrame(readFixedHeader, readRemainingLengthBytes, readBody);
      StartReadLoop();
    }

    method DispatchFrame(fixedHeader: byte, remainingLength: bytes, body: bytes)
      modifies this`calls, this`receivedCount
      ensures Value() == Dispatched(old(Value()), fixedHeader, remainingLength, body)
    {
      hide ParsedPublish;
      if fixedHeader / 16 * 16 != PUBLISH {
        return;
      }
      var parsed := ParsePublish([fixedHeader] + remainingLength + body);
      if parsed.Ok? {
        var returned := DeliverInboundPublish(parsed.value);
        if returned {
          receivedCount := (receivedCount + 1) % TWO64;
        }
      }
    }

    /** Calls the callback, outside the lock; false if it threw. */
    method DeliverInboundPublish(p: Publish) returns (returned: bool)
      modifies this`calls
      ensures Value() == Delivered(old(Value()), p)
      ensures returned == !Throws(subscriptions, throwing, p)
    {
      if p.topic !in subscriptions {
        return true;
      }
      var cb := subscriptions[p.topic];
      returned := true;
      if cb.Some? {
        calls := calls + [Call(cb.value, p)];
        returned := cb.value !in throwing;
      }
    }

    /** A read that fails ends the loop; only a cancelled one leaves the client running. */
    method OnReadError(aborted: bool)
      modifies this`running, this`stage
      ensures Value() == old(Value()).(running := aborted && old(running), stage := Closed)
    {
      if !aborted {
        running := false;
      }
      stage := Closed;
    }
  }
}
