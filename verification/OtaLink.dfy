/** End to end over bytes: the session and the board exchange encoded frames over a serial link that
    may lose, damage and invent bytes, and each side finds frames with the resynchronising parser of
    src/integration/FlashFrameParser.cpp (docs/protocols/uart-flash-v1.md section 9, item 8, asks the
    same rule of the board). */
module OtaLink {
  import opened Sequences
  import opened FlashFrame
  import opened FlashFrameParser
  import opened OtaTable
  import opened OtaRuns
  import opened OtaTranscript
  import opened OtaSystem
  import Crc32

  // ----- one direction -----------------------------------------------------------------------

  /** Bytes on the wire, and the frames they were sent as: none for damaged bytes and noise. What was
      sent is bookkeeping; the receiver sees the bytes. */
  datatype Packet = Packet(bytes: seq<bv8>, sent: seq<Tagged>)

  /** Packets in flight, the receiving parser's held bytes, and the frames whose last byte has arrived
      without the parser having found them yet. */
  datatype Line = Line(flying: seq<Packet>, held: seq<bv8>, waiting: seq<Tagged>)

  function Carried(packets: seq<Packet>): seq<Tagged> {
    if packets == [] then [] else packets[0].sent + Carried(packets[1..])
  }

  /** The frames sent and not yet dealt with: found, waiting, or in flight. */
  function Queue(inbox: seq<Tagged>, l: Line): seq<Tagged> {
    inbox + (l.waiting + Carried(l.flying))
  }

  /** Where a frame is among those sent, or their number. */
  function Find(f: Frame, sent: seq<Tagged>): (k: nat)
    ensures k <= |sent| && (k < |sent| ==> sent[k].frame == f)
  {
    if sent == [] || sent[0].frame == f then 0 else 1 + Find(f, sent[1..])
  }

  /** Every frame found was sent, in this order. */
  predicate AllSent(found: seq<Frame>, sent: seq<Tagged>) {
    found == [] || (var k := Find(found[0], sent); k < |sent| && AllSent(found[1..], sent[k + 1..]))
  }

  /** The frames found, as those sent; a frame that nobody sent has the count 0. */
  function Matched(found: seq<Frame>, sent: seq<Tagged>): seq<Tagged> {
    if found == [] then []
    else
      var k := Find(found[0], sent);
      if k < |sent| then [sent[k]] + Matched(found[1..], sent[k + 1..])
      else [Tagged(found[0], 0)] + Matched(found[1..], sent)
  }

  function Unmatched(found: seq<Frame>, sent: seq<Tagged>): seq<Tagged> {
    if found == [] then sent
    else
      var k := Find(found[0], sent);
      Unmatched(found[1..], if k < |sent| then sent[k + 1..] else sent)
  }

  function FoundBy(l: Line): seq<Frame>
    requires l.flying != []
  {
    Frames(Segments(l.held + l.flying[0].bytes))
  }

  function Expected(l: Line): seq<Tagged>
    requires l.flying != []
  {
    l.waiting + l.flying[0].sent
  }

  function Delivered(l: Line): seq<Tagged>
    requires l.flying != []
  {
    Matched(FoundBy(l), Expected(l))
  }

  function AfterArrival(l: Line): Line
    requires l.flying != []
  {
    var held := Held(l.held + l.flying[0].bytes);
    Line(l.flying[1..], held, if held == [] then [] else Unmatched(FoundBy(l), Expected(l)))
  }

  function Put(l: Line, p: Packet): Line {
    l.(flying := l.flying + [p])
  }

  /** The bytes of one packet replaced by others: damaged, cut short, lengthened or lost. */
  function Hit(l: Line, k: nat, bytes: seq<bv8>): Line
    requires k < |l.flying|
  {
    l.(flying := l.flying[k := Packet(bytes, [])])
  }

  // ----- the system over bytes ---------------------------------------------------------------

  /** The two ends, with the frames each has found and not dealt with, and the two directions. */
  datatype World = World(ends: Sys, down: Line, up: Line)

  datatype LinkMove =
    | Acts(m: Move)                               // a call into the session, or the board deals with a frame
    | ArrivesAtBoard
    | ArrivesAtHost
    | HitsDown(k: nat, bytes: seq<bv8>)
    | HitsUp(k: nat, bytes: seq<bv8>)
    | NoiseDown(bytes: seq<bv8>)
    | NoiseUp(bytes: seq<bv8>)

  predicate LinkEnabled(w: World, mv: LinkMove) {
    && InImage(w.ends.host)
    && match mv
    case Acts(m) => !m.Loses? && Enabled(w.ends, m)
    case ArrivesAtBoard => w.down.flying != []
    case ArrivesAtHost => w.up.flying != []
    case HitsDown(k, _) => k < |w.down.flying|
    case HitsUp(k, _) => k < |w.up.flying|
    case _ => true
  }

  predicate HostMoves(m: Move) {
    m.HostCalls? || m.HostReceives?
  }

  function InputOf(s: Sys, m: Move): Input
    requires HostMoves(m) && Enabled(s, m)
  {
    if m.HostCalls? then m.input else Receive(s.toHost[0].frame, m.at)
  }

  /** A host move: the bytes the session returns go onto the wire. */
  function HostActs(w: World, m: Move): World
    requires HostMoves(m) && Enabled(w.ends, m) && InImage(w.ends.host)
  {
    var t := OtaSystem.After(w.ends.(toBoard := []), m);
    World(t.(toBoard := w.ends.toBoard), Put(w.down, Packet(Stepped(w.ends.host, InputOf(w.ends, m)).out, t.toBoard)), w.up)
  }

  /** A board move: what it says goes onto the wire as encoded frames. */
  function BoardActs(w: World, m: Move): World
    requires !HostMoves(m) && !m.Loses? && Enabled(w.ends, m) && InImage(w.ends.host)
  {
    var t := OtaSystem.After(w.ends.(toHost := []), m);
    var said := if t.toHost == [] then w.up else Put(w.up, Packet(Wire(t.toHost[0].frame), t.toHost));
    World(t.(toHost := w.ends.toHost), w.down, said)
  }

  function LinkAfter(w: World, mv: LinkMove): World
    requires LinkEnabled(w, mv)
  {
    match mv
    case Acts(m) => if HostMoves(m) then HostActs(w, m) else BoardActs(w, m)
    case ArrivesAtBoard => World(w.ends.(toBoard := w.ends.toBoard + Delivered(w.down)), AfterArrival(w.down), w.up)
    case ArrivesAtHost => World(w.ends.(toHost := w.ends.toHost + Delivered(w.up)), w.down, AfterArrival(w.up))
    case HitsDown(k, bytes) => w.(down := Hit(w.down, k, bytes))
    case HitsUp(k, bytes) => w.(up := Hit(w.up, k, bytes))
    case NoiseDown(bytes) => w.(down := Put(w.down, Packet(bytes, [])))
    case NoiseUp(bytes) => w.(up := Put(w.up, Packet(bytes, [])))
  }

  /** On this move neither parser finds a frame that was not sent. */
  predicate NoPhantom(w: World, mv: LinkMove) {
    && (mv.ArrivesAtBoard? && w.down.flying != [] ==> AllSent(FoundBy(w.down), Expected(w.down)))
    && (mv.ArrivesAtHost? && w.up.flying != [] ==> AllSent(FoundBy(w.up), Expected(w.up)))
  }

  // ----- refinement of the lossy FIFO --------------------------------------------------------

  /** The system of frames this is one of: each queue holds the frames on their way. */
  function Abs(w: World): Sys {
    w.ends.(toBoard := Queue(w.ends.toBoard, w.down), toHost := Queue(w.ends.toHost, w.up))
  }

  lemma {:induction false} SubSame<T>(a: seq<T>)
    ensures Sub(a, a)
  {
    if a != [] {
      SubSame(a[1..]);
    }
  }

  lemma {:induction false} SubConcat<T>(a: seq<T>, b: seq<T>, c: seq<T>, d: seq<T>)
    requires Sub(a, b) && Sub(c, d)
    ensures Sub(a + c, b + d)
    decreases |b|
  {
    if b == [] {
      assert a + c == c && b + d == d;
    } else if a != [] && a[0] == b[0] && Sub(a[1..], b[1..]) {
      SubConcat(a[1..], b[1..], c, d);
      assert (a + c)[1..] == a[1..] + c && (b + d)[1..] == b[1..] + d;
    } else {
      SubConcat(a, b[1..], c, d);
      assert (b + d)[1..] == b[1..] + d;
    }
  }

  /** Frames that were sent and are found, and those not found yet, are what was sent less some. */
  lemma {:induction false} MatchedSub(found: seq<Frame>, sent: seq<Tagged>)
    requires AllSent(found, sent)
    ensures Sub(Matched(found, sent) + Unmatched(found, sent), sent)
    ensures Sub(Matched(found, sent), sent)
    decreases |found|
  {
    hide Sub, Find;
    SubSame(sent);
    SubNothing(sent);
    if found == [] {
      assert [] + sent == sent;
    } else {
      var k := Find(found[0], sent);
      var (more, rest) := (Matched(found[1..], sent[k + 1..]), Unmatched(found[1..], sent[k + 1..]));
      MatchedSub(found[1..], sent[k + 1..]);
      SkipThenTake(sent, k, more + rest);
      SkipThenTake(sent, k, more);
      Associative([sent[k]], more, rest);
    }
  }

  lemma SkipThenTake<T>(b: seq<T>, k: nat, a: seq<T>)
    requires k < |b| && Sub(a, b[k + 1..])
    ensures Sub([b[k]] + a, b)
  {
    hide Sub;
    SubNothing(b[..k]);
    SubSame([b[k]]);
    SubConcat([b[k]], [b[k]], a, b[k + 1..]);
    SubConcat([], b[..k], [b[k]] + a, [b[k]] + b[k + 1..]);
    assert b[..k] + ([b[k]] + b[k + 1..]) == b && [] + ([b[k]] + a) == [b[k]] + a;
  }

  lemma SubNothing<T>(a: seq<T>)
    ensures Sub([], a)
  {}

  lemma {:induction false} CarriedConcat(a: seq<Packet>, b: seq<Packet>)
    ensures Carried(a + b) == Carried(a) + Carried(b)
  {
    if a == [] {
      assert a + b == b;
    } else {
      assert (a + b)[1..] == a[1..] + b;
      CarriedConcat(a[1..], b);
    }
  }

  lemma CarriedOne(p: Packet)
    ensures Carried([p]) == p.sent
  {
    assert [p][1..] == [];
  }

  lemma PutAppends(inbox: seq<Tagged>, l: Line, p: Packet)
    ensures Queue(inbox, Put(l, p)) == Queue(inbox, l) + p.sent
  {
    hide Carried;
    CarriedConcat(l.flying, [p]);
    CarriedOne(p);
  }

  lemma HitDrops(inbox: seq<Tagged>, l: Line, k: nat, bytes: seq<bv8>)
    requires k < |l.flying|
    ensures Sub(Queue(inbox, Hit(l, k, bytes)), Queue(inbox, l))
  {
    hide Carried, Sub;
    var (before, hit, after) := (l.flying[..k], l.flying[k], l.flying[k + 1..]);
    var blank := Packet(bytes, []);
    assert l.flying == before + ([hit] + after) && Hit(l, k, bytes).flying == before + ([blank] + after);
    CarriedConcat([hit], after);
    CarriedConcat([blank], after);
    CarriedConcat(before, [hit] + after);
    CarriedConcat(before, [blank] + after);
    CarriedOne(hit);
    CarriedOne(blank);
    SubNothing(hit.sent);
    SubSame(Carried(after));
    SubConcat([], hit.sent, Carried(after), Carried(after));
    SubSame(Carried(before));
    SubConcat(Carried(before), Carried(before), [] + Carried(after), hit.sent + Carried(after));
    SubSame(l.waiting);
    SubConcat(l.waiting, l.waiting, Carried(Hit(l, k, bytes).flying), Carried(l.flying));
    SubSame(inbox);
    SubConcat(inbox, inbox, l.waiting + Carried(Hit(l, k, bytes).flying), l.waiting + Carried(l.flying));
  }

  lemma ArrivalDrops(inbox: seq<Tagged>, l: Line)
    requires l.flying != [] && AllSent(FoundBy(l), Expected(l))
    ensures Sub(Queue(inbox + Delivered(l), AfterArrival(l)), Queue(inbox, l))
  {
    hide Sub, Segments, Held, Frames, Matched, Unmatched, AllSent, FoundBy;
    var (found, sent, later) := (FoundBy(l), Expected(l), Carried(l.flying[1..]));
    var (matched, left) := (Matched(found, sent), AfterArrival(l).waiting);
    MatchedSub(found, sent);
    assert left == [] ==> matched + left == matched;
    SubSame(later);
    SubConcat(matched + left, sent, later, later);
    SubSame(inbox);
    SubConcat(inbox, inbox, matched + left + later, sent + later);
    Associative(inbox, matched, left + later);
    Associative(matched, left, later);
    Associative(l.waiting, l.flying[0].sent, later);
  }

  function FramesOf(q: seq<Tagged>): seq<Frame> {
    if q == [] then [] else [q[0].frame] + FramesOf(q[1..])
  }

  /** The frames an arrival finds are those of the frames sent, less some. */
  ghost predicate AmountsToLoss(l: Line)
    requires l.flying != []
  {
    exists q: seq<Tagged> :: Sub(q, Expected(l)) && FramesOf(q) == FoundBy(l)
  }

  lemma {:induction false} MatchedFrames(found: seq<Frame>, sent: seq<Tagged>)
    ensures FramesOf(Matched(found, sent)) == found
    decreases |found|
  {
    if found != [] {
      var k := Find(found[0], sent);
      MatchedFrames(found[1..], if k < |sent| then sent[k + 1..] else sent);
    }
  }

  /** A longer rest of what was sent finds no less. */
  lemma {:induction false} MoreSent(found: seq<Frame>, x: Tagged, sent: seq<Tagged>)
    requires AllSent(found, sent)
    ensures AllSent(found, [x] + sent)
    decreases |found|, 0
  {
    var all := [x] + sent;
    assert all[1..] == sent;
    if found != [] {
      var k := Find(found[0], sent);
      if x.frame == found[0] {
        assert Find(found[0], all) == 0;
        ShorterRest(found[1..], sent[k + 1..], sent);
      } else {
        assert Find(found[0], all) == k + 1;
        assert all[k + 2..] == sent[k + 1..];
      }
    }
  }

  lemma {:induction false} ShorterRest(found: seq<Frame>, rest: seq<Tagged>, sent: seq<Tagged>)
    requires AllSent(found, rest) && |rest| <= |sent| && rest == sent[|sent| - |rest|..]
    ensures AllSent(found, sent)
    decreases |found|, 1 + |sent| - |rest|
  {
    if |rest| < |sent| {
      var k := |sent| - |rest|;
      assert sent[k - 1..] == [sent[k - 1]] + rest;
      MoreSent(found, sent[k - 1], rest);
      ShorterRest(found, sent[k - 1..], sent);
    } else {
      assert rest == sent;
    }
  }

  lemma {:induction false} SubAllSent(q: seq<Tagged>, sent: seq<Tagged>)
    requires Sub(q, sent)
    ensures AllSent(FramesOf(q), sent)
    decreases |sent|
  {
    if q != [] {
      assert sent == [sent[0]] + sent[1..];
      if q[0] == sent[0] && Sub(q[1..], sent[1..]) {
        SubAllSent(q[1..], sent[1..]);
        assert Find(q[0].frame, sent) == 0;
      } else {
        SubAllSent(q, sent[1..]);
        MoreSent(FramesOf(q), sent[0], sent[1..]);
      }
    }
  }

  /** An arrival amounts to losing some of what was sent exactly when it is free of phantoms. */
  lemma NoPhantomExact(l: Line)
    requires l.flying != []
    ensures AllSent(FoundBy(l), Expected(l)) <==> AmountsToLoss(l)
  {
    hide Sub, Matched, FoundBy, Expected, AllSent, FramesOf;
    if AllSent(FoundBy(l), Expected(l)) {
      MatchedSub(FoundBy(l), Expected(l));
      MatchedFrames(FoundBy(l), Expected(l));
    }
    if AmountsToLoss(l) {
      var q: seq<Tagged> :| Sub(q, Expected(l)) && FramesOf(q) == FoundBy(l);
      SubAllSent(q, Expected(l));
    }
  }

  /** The move of frames that a move over bytes amounts to. */
  function FrameMove(w: World, mv: LinkMove): Move
    requires LinkEnabled(w, mv)
  {
    match mv
    case Acts(m) => m
    case _ => Loses(Abs(LinkAfter(w, mv)).toBoard, Abs(LinkAfter(w, mv)).toHost)
  }

  lemma ActsRefine(w: World, m: Move)
    requires LinkEnabled(w, Acts(m))
    ensures Enabled(Abs(w), m) && Abs(LinkAfter(w, Acts(m))) == OtaSystem.After(Abs(w), m)
  {
    hide Stepped, Segments, Frames, AfterFrame, Carried, Wire;
    var v := LinkAfter(w, Acts(m));
    if HostMoves(m) {
      var t := OtaSystem.After(w.ends.(toBoard := []), m);
      PutAppends(w.ends.toBoard, w.down, v.down.flying[|w.down.flying|]);
      assert v.down.flying[|w.down.flying|].sent == t.toBoard;
      if m.HostReceives? {
        assert Queue(w.ends.toHost, w.up)[0] == w.ends.toHost[0];
        assert Queue(w.ends.toHost, w.up)[1..] == Queue(w.ends.toHost[1..], w.up);
      }
    } else {
      var t := OtaSystem.After(w.ends.(toHost := []), m);
      PutAppends(w.ends.toHost, w.up, Packet([], t.toHost));
      PutAppends(w.ends.toHost, w.up, if t.toHost == [] then Packet([], []) else Packet(Wire(t.toHost[0].frame), t.toHost));
      if m.BoardAccepts? || m.BoardRefuses? {
        assert Queue(w.ends.toBoard, w.down)[0] == w.ends.toBoard[0];
        assert Queue(w.ends.toBoard, w.down)[1..] == Queue(w.ends.toBoard[1..], w.down);
      }
    }
  }

  /** Refinement: as long as no parser finds a frame that nobody sent, every move over bytes is one move
      of the system of frames, and whatever the link does amounts to losing some. */
  lemma LinkRefines(w: World, mv: LinkMove)
    requires LinkEnabled(w, mv) && NoPhantom(w, mv)
    ensures Enabled(Abs(w), FrameMove(w, mv)) && Abs(LinkAfter(w, mv)) == OtaSystem.After(Abs(w), FrameMove(w, mv))
  {
    hide Sub, Queue, AllSent, FoundBy, Expected, Delivered, AfterArrival, Hit, Put, HostActs, BoardActs, InImage;
    SubSame(Queue(w.ends.toBoard, w.down));
    SubSame(Queue(w.ends.toHost, w.up));
    match mv {
      case Acts(m) => ActsRefine(w, m);
      case ArrivesAtBoard => ArrivalDrops(w.ends.toBoard, w.down);
      case ArrivesAtHost => ArrivalDrops(w.ends.toHost, w.up);
      case HitsDown(k, bytes) => HitDrops(w.ends.toBoard, w.down, k, bytes);
      case HitsUp(k, bytes) => HitDrops(w.ends.toHost, w.up, k, bytes);
      case NoiseDown(bytes) => NoiseKeeps(w.ends.toBoard, w.down, bytes);
      case NoiseUp(bytes) => NoiseKeeps(w.ends.toHost, w.up, bytes);
    }
  }

  lemma NoiseKeeps(inbox: seq<Tagged>, l: Line, bytes: seq<bv8>)
    ensures Queue(inbox, Put(l, Packet(bytes, []))) == Queue(inbox, l)
  {
    hide Queue, Put;
    PutAppends(inbox, l, Packet(bytes, []));
  }

  // ----- safety ------------------------------------------------------------------------------

  ghost predicate LinkRun(states: seq<World>, moves: seq<LinkMove>) {
    && |states| == |moves| + 1
    && Initial(states[0].ends) && |states[0].ends.host.image| < TWO_32
    && states[0].down == Line([], [], []) && states[0].up == Line([], [], [])
    && forall k :: 0 <= k < |moves| ==> LinkEnabled(states[k], moves[k]) && states[k + 1] == LinkAfter(states[k], moves[k])
  }

  ghost predicate PhantomFree(states: seq<World>, moves: seq<LinkMove>)
    requires |states| == |moves| + 1
  {
    forall k :: 0 <= k < |moves| ==> NoPhantom(states[k], moves[k])
  }

  lemma {:induction false} LinkInv(states: seq<World>, moves: seq<LinkMove>, k: nat)
    requires LinkRun(states, moves) && PhantomFree(states, moves) && k < |states|
    ensures SysInv(Abs(states[k]))
  {
    hide SysInv, Enabled, LinkEnabled, LinkAfter, FrameMove, NoPhantom, Initial;
    if k == 0 {
      StartsEmpty(states[0]);
      InitialInv(Abs(states[0]));
    } else {
      var (w, mv) := (states[k - 1], moves[k - 1]);
      LinkInv(states, moves, k - 1);
      assert LinkEnabled(w, mv) && NoPhantom(w, mv);
      LinkRefines(w, mv);
      MoveKeeps(Abs(w), FrameMove(w, mv));
    }
  }

  lemma StartsEmpty(w: World)
    requires Initial(w.ends) && w.down == Line([], [], []) && w.up == Line([], [], [])
    ensures Abs(w) == w.ends
  {}

  /** A COMMIT has been found by the board, is waiting in its parser, or is on the wire. */
  predicate CommitOnLink(w: World) {
    exists x <- Queue(w.ends.toBoard, w.down) :: x.frame.kind == COMMIT
  }

  /** The bank agrees with the image on the acknowledged bytes, and while a COMMIT is in flight, or
      anywhere on the link, the whole image is in the bank and the board's verification finds the
      checksum its BEGIN announced. */
  predicate Safe(w: World) {
    var (host, board) := (w.ends.host, w.ends.board);
    && host.sentBytes <= |host.image|
    && Bank(board, host.sentBytes) == host.image[..host.sentBytes]
    && ((Running(host) && host.state == Committing) || CommitOnLink(w) ==> Bank(board, |host.image|) == host.image)
    && (CommitOnLink(w) && board.announced.Some? ==>
      && |board.announced.value| == 12
      && AnnouncedCrc(board.announced.value) == Little32(Crc32.Crc32(Bank(board, |host.image|)) as int))
  }

  /** End to end, for every image below 2^32 bytes, every clock, every loss, damage and noise: the
      update is safe as long as no parser finds a frame that nobody sent. */
  lemma UpdateIsSafe(states: seq<World>, moves: seq<LinkMove>, k: nat)
    requires LinkRun(states, moves) && PhantomFree(states, moves) && k < |states|
    ensures Safe(states[k])
  {
    hide LinkRun, PhantomFree, SysInv, Crc32.Crc32, Little32, Queue;
    LinkInv(states, moves, k);
    BankAgrees(Abs(states[k]));
    if CommitOnLink(states[k]) && states[k].ends.board.announced.Some? {
      VerifySucceeds(Abs(states[k]));
    }
  }

  /** And an ACK the host deals with, if it carries the number in flight, answers the message in
      flight. */
  lemma AcksAreGenuine(states: seq<World>, moves: seq<LinkMove>, k: nat)
    requires LinkRun(states, moves) && PhantomFree(states, moves) && k < |states|
    requires var s := states[k].ends; s.toHost != [] && s.toHost[0].frame.kind == ACK && s.toHost[0].frame.seqNo == s.host.seqNo
    ensures var s := states[k].ends; s.toHost[0].num == s.num == s.board.lastNum
  {
    hide LinkRun, PhantomFree, SysInv;
    LinkInv(states, moves, k);
    AckIsGenuine(Abs(states[k]));
  }
}
