/**
 The way back from headunit to phone as one system: a headunit that does not split its messages,
 AAServer's `dataPump` with its parser, the socket, AAClient's reader thread and its fragmenter with
 limit 10000, whose queue AAClient's own handlers use as well. Any interleaving of their steps is a
 run.
 */
module ReturnPath {
  import opened Utils
  import opened Framing
  import opened Messages
  import opened SendQueue
  import opened Pump
  import opened DirectLink
  import opened ServiceTable
  import opened Routing
  import opened Relay
  import VideoHandlers
  import InputHandlers

  /** The buffer of `dataPump`. */
  const PUMP_BUFFER: nat := 100 * 1024

  /**
   The two TLS connections, the headunit's fragment limit, the table of handlers on both sides, and
   which control messages on channel 0 AAServer takes without an exception.
   */
  datatype Config = Config(headTls: Cipher, phoneTls: Cipher, headLimit: nat, table: Table, control: Message -> bool)

  ghost predicate Proper(g: Config) { Sound(g.headTls) && Sound(g.phoneTls) && ValidLimit(g.headLimit) }

  /** What is written to AAClient's socket when AAServer dispatches a message. */
  function PacketsFor(table: Table, use: Use, m: Message): seq<Bytes> {
    if |m.content| < 2 then []
    else
      match RouteFromHead(table, use, m)
      case Broadcast(packet) => [packet]
      case ToRegistered(packet) => if m.channel in use.registered then [packet] else []
      case _ => []
  }

  /** Byte by byte: the channel, the Specific byte, which an event of an input channel loses, and the content. */
  lemma PacketsOnSocket(table: Table, use: Use, m: Message)
    requires |m.content| >= 2
    ensures var t := TypeOf(m.content);
            var whole: Bytes := [m.channel, if m.flags & SPECIFIC != 0 then 0xff else 0] + m.content;
            PacketsFor(table, use, m) ==
            if m.channel == 0 then if t in {0x0e, 0x13} then [whole] else []
            else match table[m.channel] {
              case None => []
              case Some(Default) => [whole]
              case Some(Video) => if m.channel in use.started then [] else [whole]
              case Some(Input) => if t == 0x8001 && m.channel in use.registered then [[m.channel, 0] + m.content] else []
            }
  {
  }

  /** Whether a handler of this kind knows a message; AAServer throws at one that its handler does not know. */
  predicate Knows(kind: Kind, content: Bytes)
    requires |content| >= 2
  {
    match kind
    case Default => true
    case Video => VideoHandlers.ServerHandle(VideoHandlers.ServerFlags(true, false, false), content).handled
    case Input => InputHandlers.ServerInputHandle(false, false, content).3
  }

  /** Whether AAServer takes a message without an exception. */
  predicate Accepts(g: Config, use: Use, m: Message) {
    |m.content| >= 2 &&
    match RouteFromHead(g.table, use, m)
    case HandlerMessage => g.table[m.channel].Some? && Knows(g.table[m.channel].value, m.content)
    case Control(_) => g.control(m)
    case Missing => false
    case Unhandled => false
    case _ => true
  }

  function Acceptor(g: Config, use: Use): Message -> bool { m => Accepts(g, use, m) }

  /**
   AAServer throws at a message of a channel if and only if the channel has no handler, or is a video
   channel that it has opened itself and the type is none of four, or an input channel and none of three.
   On channel 0 it takes the two focus responses, throws at five control types if their own handling
   does, and at all others.
   */
  lemma AcceptsExactly(g: Config, use: Use, m: Message)
    requires |m.content| >= 2
    ensures var t := TypeOf(m.content);
            Accepts(g, use, m) <==>
            if m.channel == 0 then t in {0x0e, 0x13} || (t in {0x01, 0x03, 0x04, 0x06, 0x0b} && g.control(m))
            else match g.table[m.channel] {
              case None => false
              case Some(Default) => true
              case Some(Video) => m.channel in use.started ==> t in {CHANNEL_OPEN_RESPONSE, SETUP_RESPONSE, VIDEO_FOCUS, MEDIA_ACK}
              case Some(Input) => t in {CHANNEL_OPEN_RESPONSE, HANDSHAKE_RESPONSE, INPUT_EVENT}
            }
  {
  }

  /** A message dispatched by AAServer, and how the channels were used at that moment. */
  datatype Passed = Passed(m: Message, use: Use)

  /**
   `taken` counts the headunit's frames that AAServer has read and `parsed` those it has parsed; in
   between they are in its buffer. `read` counts the packets that AAClient has read; `relayed` says
   of each message that AAClient has queued whether it came from the headunit.
   */
  datatype System = System(
    head: Tx, taken: nat, parsed: nat, buffer: Bytes, records: nat, stopped: bool, use: Use, passed: seq<Passed>,
    socket: seq<Bytes>, read: nat, client: Tx, relayed: seq<bool>)

  function Start(use: Use): System { System(TX_START, 0, 0, [], 0, false, use, [], [], 0, TX_START, []) }

  datatype Action =
    | HeadSend(m: Message)
    | HeadDrain
    | PumpRead(n: nat)      // one read of `n` whole frames
    | PumpParse             // one call of handleMessage
    | ChangeUse(use: Use)   // a video channel opened, a client registered or gone
    | ClientRead
    | OwnSend(m: Message)   // a message of AAClient's own
    | ClientDrain

  /** A message of the headunit: not split, and long enough to have a type. */
  predicate FromHead(limit: nat, m: Message) { WellFormed(m) && Unsplit(m, limit) && |m.content| >= 2 }

  predicate Enabled(g: Config, s: System, a: Action) {
    match a
    case HeadSend(m) => FromHead(g.headLimit, m)
    case PumpRead(n) =>
      && !s.stopped && s.buffer == [] && 0 < n && s.taken + n <= |s.head.frames|
      && |Flatten(s.head.frames[s.taken..s.taken + n])| <= PUMP_BUFFER
    case PumpParse => !s.stopped && StartsWhole(s.buffer)
    case ClientRead => s.socket != [] && |s.socket[0]| >= 2
    case OwnSend(m) => WellFormed(m)
    case _ => true
  }

  function Tag(ms: seq<Message>, use: Use): seq<Passed> {
    seq(|ms|, i requires 0 <= i < |ms| => Passed(ms[i], use))
  }

  function ReadStep(s: System, n: nat): System
    requires s.taken + n <= |s.head.frames|
  {
    s.(taken := s.taken + n, buffer := Flatten(s.head.frames[s.taken..s.taken + n]))
  }

  function ParseStep(g: Config, s: System): System
    requires StartsWhole(s.buffer)
  {
    var o := ProcessOne(g.headTls, Acceptor(g, s.use), s.records, HeadFrame(s.buffer));
    s.(buffer := s.buffer[4 + HeadLength(s.buffer)..], records := o.records, parsed := s.parsed + 1, stopped := !o.ok,
       passed := s.passed + Tag(o.messages, s.use),
       socket := s.socket + if o.messages == [] then [] else PacketsFor(g.table, s.use, o.messages[0]))
  }

  function TakeStep(g: Config, s: System): System
    requires s.socket != [] && |s.socket[0]| >= 2
  {
    var m := FromServer(g.table, s.socket[0]);
    var t := s.(socket := s.socket[1..], read := s.read + 1);
    if m.None? then t else t.(client := Enqueue(s.client, m.value), relayed := s.relayed + [true])
  }

  // ---------------------------------------------------------------- sequences of messages

  function Packets(table: Table, ps: seq<Passed>): seq<Bytes> {
    if ps == [] then [] else Packets(table, ps[..|ps| - 1]) + PacketsFor(table, ps[|ps| - 1].use, ps[|ps| - 1].m)
  }

  function OneAccepted(table: Table, p: Bytes): seq<Message> {
    if |p| < 2 || FromServer(table, p).None? then [] else [FromServer(table, p).value]
  }

  /** What AAClient queues for the phone when it reads a packet. */
  function Reader(table: Table): Reading { p => OneAccepted(table, p) }

  function OneReturned(table: Table, p: Passed): seq<Message> {
    if |p.m.content| < 2 || HeadToPhone(table, p.use, p.m).None? then [] else [HeadToPhone(table, p.use, p.m).value]
  }

  /** What the phone is to get of the messages that AAServer has dispatched. */
  function Returned(table: Table, ps: seq<Passed>): seq<Message> {
    if ps == [] then [] else Returned(table, ps[..|ps| - 1]) + OneReturned(table, ps[|ps| - 1])
  }

  function Dispatched(ps: seq<Passed>): seq<Message> { seq(|ps|, i requires 0 <= i < |ps| => ps[i].m) }

  /** The same message if AAServer hands it on as it is; else nothing, or an event without its Specific bit. */
  lemma ReturnedMeaning(table: Table, limit: nat, p: Passed)
    requires ValidLimit(limit) && FromHead(limit, p.m)
    ensures HandedOn(table, p.use, p.m) ==> OneReturned(table, p) == [Relayed(p.m)] && SameMessage(Relayed(p.m), p.m)
    ensures !HandedOn(table, p.use, p.m) ==>
              OneReturned(table, p) == []
              || (table[p.m.channel] == Some(Input) && IsSpecific(p.m.flags)
                  && OneReturned(table, p) == [Message(p.m.channel, DefaultFlags(false), p.m.content, 0)])
  {
    ReturnExactly(table, p.use, p.m);
    DefaultFlagsOk(IsSpecific(p.m.flags));
    FromServerExactly(table, p.m.channel, IsSpecific(p.m.flags), p.m.content);
    FromServerExactly(table, p.m.channel, false, p.m.content);
    assert p.m.content[..|p.m.content|] == p.m.content;
  }

  lemma PacketsSnoc(table: Table, ps: seq<Passed>, p: Passed)
    ensures Packets(table, ps + [p]) == Packets(table, ps) + PacketsFor(table, p.use, p.m)
  {
    assert (ps + [p])[..|ps|] == ps;
  }

  /** A packet that AAClient can read, and queue. */
  predicate PacketOk(table: Table, p: Bytes) {
    |p| > 2 && forall m :: m in OneAccepted(table, p) ==> WellFormed(m)
  }

  predicate PacketsOk(table: Table, ps: seq<Bytes>) {
    forall i :: 0 <= i < |ps| ==> PacketOk(table, ps[i])
  }

  lemma ToSocketOk(table: Table, channel: byte, specific: bool, content: Bytes)
    requires 0 < |content|
    ensures PacketOk(table, Hub.ToSocket(channel, specific, content))
  {
    FromServerExactly(table, channel, specific, content);
    DefaultFlagsOk(specific);
  }

  /** One message leads to at most one packet, and that to what the message is returned as. */
  lemma OnePacket(table: Table, p: Passed)
    ensures var ps := PacketsFor(table, p.use, p.m);
            && |ps| <= 1 && PacketsOk(table, ps)
            && (forall q :: q in ps ==> OneAccepted(table, q) == OneReturned(table, p))
            && (ps == [] ==> OneReturned(table, p) == [])
  {
    if |p.m.content| >= 2 {
      ToSocketOk(table, p.m.channel, IsSpecific(p.m.flags), p.m.content);
      ToSocketOk(table, p.m.channel, false, p.m.content);
    }
  }

  /** Reading all packets of some messages queues what these are returned as. */
  lemma {:induction false} AcceptedPackets(table: Table, ps: seq<Passed>)
    ensures PacketsOk(table, Packets(table, ps)) && Accepted(Reader(table), Packets(table, ps)) == Returned(table, ps)
  {
    if ps != [] {
      var front, p := ps[..|ps| - 1], ps[|ps| - 1];
      AcceptedPackets(table, front);
      OnePacket(table, p);
      var qs := PacketsFor(table, p.use, p.m);
      if qs != [] {
        assert qs == [qs[0]] && qs[0] in qs;
        AcceptedSnoc(Reader(table), Packets(table, front), qs[0]);
      } else {
        assert Packets(table, ps) == Packets(table, front);
      }
    }
  }

  // ---------------------------------------------------------------- the invariant

  predicate HeadInv(c: Cipher, limit: nat, head: Tx) {
    OneFramePerMessage(c, head) && forall m :: m in head.sent ==> FromHead(limit, m)
  }

  /** AAServer's buffer holds the frames read and not parsed; it expects the record that comes next. */
  predicate Buffered(head: Tx, taken: nat, parsed: nat, buffer: Bytes, records: nat) {
    && parsed <= taken <= |head.frames| <= |head.sent|
    && buffer == Flatten(head.frames[parsed..taken])
    && records == Records(head.sent, parsed)
  }

  /** Exactly the messages of the frames parsed have been dispatched. */
  predicate AllPassed(head: Tx, parsed: nat, passed: seq<Passed>) {
    parsed <= |head.sent| && Dispatched(passed) == head.sent[..parsed]
  }

  predicate LinkInv(g: Config, head: Tx, parsed: nat, passed: seq<Passed>, socket: seq<Bytes>, read: nat, client: Tx,
                    relayed: seq<bool>) {
    && HeadInv(g.headTls, g.headLimit, head)
    && AllPassed(head, parsed, passed)
    && Carried(Reader(g.table), Packets(g.table, passed), socket, read, client, relayed)
    && QueueInv(g.phoneTls, CLIENT_LIMIT, client, relayed)
  }

  predicate SystemInv(g: Config, s: System) {
    && Buffered(s.head, s.taken, s.parsed, s.buffer, s.records)
    && LinkInv(g, s.head, s.parsed, s.passed, s.socket, s.read, s.client, s.relayed)
  }

  // ---------------------------------------------------------------- the headunit

  lemma HeadSendKeepsInv(g: Config, s: System, m: Message)
    requires Proper(g) && SystemInv(g, s) && FromHead(g.headLimit, m)
    ensures SystemInv(g, s.(head := Enqueue(s.head, m)))
  {
    OneFrameEnqueue(g.headTls, s.head, m);
    RecordsSnoc(s.head.sent, m, s.parsed);
    SnocSlices(s.head.sent, m, s.parsed);
  }

  lemma HeadDrainIs(c: Cipher, limit: nat, head: Tx)
    requires HeadInv(c, limit, head) && head.queue != []
    ensures head.queue[0].offset <= |head.queue[0].content|
    ensures var t := Drain(c, limit, head);
            && HeadInv(c, limit, t) && t.sent == head.sent && t.queue == head.queue[1..]
            && |t.frames| == |head.frames| + 1 && t.frames[..|head.frames|] == head.frames
  {
    assert head.queue[0] == head.sent[|head.frames|];
    assert head.queue[0] in head.sent;
    DrainUnsplit(c, limit, head);
    OneFrameMore(c, head);
  }

  lemma HeadDrainKeepsInv(g: Config, s: System)
    requires Proper(g) && SystemInv(g, s) && s.head.queue != []
    ensures s.head.queue[0].offset <= |s.head.queue[0].content|
    ensures SystemInv(g, s.(head := Drain(g.headTls, g.headLimit, s.head)))
  {
    HeadDrainIs(g.headTls, g.headLimit, s.head);
    var t := Drain(g.headTls, g.headLimit, s.head);
    assert t.frames[s.parsed..s.taken] == t.frames[..|s.head.frames|][s.parsed..s.taken];
  }

  // ---------------------------------------------------------------- AAServer

  /** Every frame has at least its header. */
  lemma BufferEmpty(c: Cipher, limit: nat, head: Tx, taken: nat, parsed: nat, buffer: Bytes, records: nat)
    requires HeadInv(c, limit, head) && Buffered(head, taken, parsed, buffer, records)
    ensures buffer == [] <==> parsed == taken
  {
    if parsed < taken {
      assert head.frames[parsed] == FrameAt(c, head.sent, parsed);
      SliceHead(head.frames, parsed, taken);
    }
  }

  /** The buffer is empty only when everything read has been parsed; then the next frames can take its place. */
  lemma BufferRead(c: Cipher, limit: nat, head: Tx, taken: nat, parsed: nat, records: nat, n: nat)
    requires HeadInv(c, limit, head) && Buffered(head, taken, parsed, [], records) && taken + n <= |head.frames|
    ensures parsed == taken && Buffered(head, taken + n, parsed, Flatten(head.frames[taken..taken + n]), records)
  {
    BufferEmpty(c, limit, head, taken, parsed, [], records);
  }

  lemma ReadKeepsInv(g: Config, s: System, n: nat)
    requires SystemInv(g, s) && s.buffer == [] && s.taken + n <= |s.head.frames|
    ensures SystemInv(g, ReadStep(s, n))
  {
    BufferRead(g.headTls, g.headLimit, s.head, s.taken, s.parsed, s.records, n);
    var t := ReadStep(s, n);
    assert Buffered(t.head, t.taken, t.parsed, t.buffer, t.records);
    assert LinkInv(g, t.head, t.parsed, t.passed, t.socket, t.read, t.client, t.relayed);
  }

  /** The next frame in the buffer is the next message, whole, and what follows it are the next frames. */
  lemma NextFrame(c: Cipher, limit: nat, head: Tx, taken: nat, parsed: nat, buffer: Bytes, records: nat)
    requires Sound(c) && ValidLimit(limit) && HeadInv(c, limit, head)
    requires Buffered(head, taken, parsed, buffer, records) && parsed < taken
    ensures StartsWhole(buffer) && HeadFrame(buffer) == Raw(c, records, head.sent[parsed])
    ensures Buffered(head, taken, parsed + 1, buffer[4 + HeadLength(buffer)..], Next(records, head.sent[parsed]))
  {
    var m := head.sent[parsed];
    assert m in head.sent;
    assert head.frames[parsed] == FrameAt(c, head.sent, parsed);
    SliceHead(head.frames, parsed, taken);
    assert |Raw(c, records, m).body| < 0x1_0000;
    SerializeLayout(Raw(c, records, m), Flatten(head.frames[parsed + 1..taken]));
  }

  lemma PassedMore(head: Tx, parsed: nat, passed: seq<Passed>, use: Use)
    requires AllPassed(head, parsed, passed) && parsed < |head.sent|
    ensures AllPassed(head, parsed + 1, passed + [Passed(head.sent[parsed], use)])
  {
    TakeOneMore(head.sent, parsed);
  }

  /** One call of the parser dispatches the next message, and stops only at one that is rejected. */
  lemma ParseStepIs(g: Config, s: System)
    requires Proper(g) && SystemInv(g, s) && Enabled(g, s, PumpParse)
    ensures s.parsed < s.taken
    ensures var m, t := s.head.sent[s.parsed], ParseStep(g, s);
            && Buffered(s.head, s.taken, s.parsed + 1, t.buffer, t.records)
            && t == s.(buffer := t.buffer, records := t.records, parsed := s.parsed + 1, stopped := !Accepts(g, s.use, m),
                       passed := s.passed + [Passed(m, s.use)], socket := s.socket + PacketsFor(g.table, s.use, m))
  {
    BufferEmpty(g.headTls, g.headLimit, s.head, s.taken, s.parsed, s.buffer, s.records);
    NextFrame(g.headTls, g.headLimit, s.head, s.taken, s.parsed, s.buffer, s.records);
    var m := s.head.sent[s.parsed];
    assert m in s.head.sent;
    ProcessRaw(g.headTls, Acceptor(g, s.use), s.records, m);
    assert Tag([m], s.use) == [Passed(m, s.use)];
  }

  /** The next message is dispatched, and its packet written. */
  lemma LinkMore(g: Config, head: Tx, parsed: nat, passed: seq<Passed>, socket: seq<Bytes>, read: nat, client: Tx,
                 relayed: seq<bool>, use: Use)
    requires LinkInv(g, head, parsed, passed, socket, read, client, relayed) && parsed < |head.sent|
    ensures var m := head.sent[parsed];
            LinkInv(g, head, parsed + 1, passed + [Passed(m, use)], socket + PacketsFor(g.table, use, m), read, client, relayed)
  {
    var m := head.sent[parsed];
    PassedMore(head, parsed, passed, use);
    PacketsSnoc(g.table, passed, Passed(m, use));
    CarriedMore(Reader(g.table), Packets(g.table, passed), PacketsFor(g.table, use, m), socket, read, client, relayed);
  }

  lemma ParseKeepsInv(g: Config, s: System)
    requires Proper(g) && SystemInv(g, s) && Enabled(g, s, PumpParse)
    ensures SystemInv(g, ParseStep(g, s))
  {
    ParseStepIs(g, s);
    LinkMore(g, s.head, s.parsed, s.passed, s.socket, s.read, s.client, s.relayed, s.use);
    var t := ParseStep(g, s);
    assert Buffered(t.head, t.taken, t.parsed, t.buffer, t.records);
    assert LinkInv(g, t.head, t.parsed, t.passed, t.socket, t.read, t.client, t.relayed);
  }

  // ---------------------------------------------------------------- AAClient

  lemma TakeKeepsInv(g: Config, s: System)
    requires Proper(g) && SystemInv(g, s) && Enabled(g, s, ClientRead)
    ensures SystemInv(g, TakeStep(g, s))
  {
    var ps := Packets(g.table, s.passed);
    AcceptedPackets(g.table, s.passed);
    CarriedRead(Reader(g.table), ps, s.socket, s.read, s.client, s.relayed);
    assert PacketOk(g.table, ps[s.read]);
    var m := FromServer(g.table, s.socket[0]);
    if m.Some? {
      assert m.value in OneAccepted(g.table, ps[s.read]);
      QueueKeepsInv(g.phoneTls, CLIENT_LIMIT, s.client, s.relayed, m.value, true);
    }
  }

  lemma OwnKeepsInv(g: Config, s: System, m: Message)
    requires SystemInv(g, s) && WellFormed(m)
    ensures SystemInv(g, s.(client := Enqueue(s.client, m), relayed := s.relayed + [false]))
  {
    QueueKeepsInv(g.phoneTls, CLIENT_LIMIT, s.client, s.relayed, m, false);
  }

  lemma ClientDrainKeepsInv(g: Config, s: System)
    requires Proper(g) && SystemInv(g, s)
    ensures SystemInv(g, s.(client := Drain(g.phoneTls, CLIENT_LIMIT, s.client)))
  {
    DrainKeepsInv(g.phoneTls, CLIENT_LIMIT, s.client);
  }

  // ---------------------------------------------------------------- runs

  ghost function HeadSent(g: Config, s: System, m: Message): (t: System)
    requires Proper(g) && SystemInv(g, s) && FromHead(g.headLimit, m)
    ensures SystemInv(g, t) && t == s.(head := Enqueue(s.head, m))
  {
    HeadSendKeepsInv(g, s, m);
    s.(head := Enqueue(s.head, m))
  }

  ghost function HeadDrained(g: Config, s: System): (t: System)
    requires Proper(g) && SystemInv(g, s)
    ensures SystemInv(g, t) && t.head.sent == s.head.sent
  {
    if s.head.queue == [] then s
    else
      HeadDrainKeepsInv(g, s);
      HeadDrainIs(g.headTls, g.headLimit, s.head);
      s.(head := Drain(g.headTls, g.headLimit, s.head))
  }

  ghost function BufferFilled(g: Config, s: System, n: nat): (t: System)
    requires Proper(g) && SystemInv(g, s) && Enabled(g, s, PumpRead(n))
    ensures SystemInv(g, t) && t.head == s.head
  {
    ReadKeepsInv(g, s, n);
    ReadStep(s, n)
  }

  ghost function Parsed(g: Config, s: System): (t: System)
    requires Proper(g) && SystemInv(g, s) && Enabled(g, s, PumpParse)
    ensures SystemInv(g, t) && t.head == s.head && t == ParseStep(g, s)
  {
    ParseKeepsInv(g, s);
    ParseStep(g, s)
  }

  ghost function Taken(g: Config, s: System): (t: System)
    requires Proper(g) && SystemInv(g, s) && Enabled(g, s, ClientRead)
    ensures SystemInv(g, t) && t.head == s.head && t == TakeStep(g, s)
  {
    TakeKeepsInv(g, s);
    TakeStep(g, s)
  }

  ghost function OwnSent(g: Config, s: System, m: Message): (t: System)
    requires Proper(g) && SystemInv(g, s) && WellFormed(m)
    ensures SystemInv(g, t) && t.head == s.head
  {
    OwnKeepsInv(g, s, m);
    s.(client := Enqueue(s.client, m), relayed := s.relayed + [false])
  }

  ghost function ClientDrained(g: Config, s: System): (t: System)
    requires Proper(g) && SystemInv(g, s)
    ensures SystemInv(g, t) && t.client == Drain(g.phoneTls, CLIENT_LIMIT, s.client)
    ensures t.head == s.head && t.taken == s.taken && t.parsed == s.parsed && t.socket == s.socket
  {
    ClientDrainKeepsInv(g, s);
    s.(client := Drain(g.phoneTls, CLIENT_LIMIT, s.client))
  }

  function SentBy(limit: nat, a: Action): seq<Message> {
    if a.HeadSend? && FromHead(limit, a.m) then [a.m] else []
  }

  ghost function Step(g: Config, s: System, a: Action): (t: System)
    requires Proper(g) && SystemInv(g, s)
    ensures SystemInv(g, t) && t.head.sent == s.head.sent + SentBy(g.headLimit, a)
  {
    if !Enabled(g, s, a) then s
    else match a
      case HeadSend(m) => HeadSent(g, s, m)
      case HeadDrain => HeadDrained(g, s)
      case PumpRead(n) => BufferFilled(g, s, n)
      case PumpParse => Parsed(g, s)
      case ChangeUse(use) => s.(use := use)
      case ClientRead => Taken(g, s)
      case OwnSend(m) => OwnSent(g, s, m)
      case ClientDrain => ClientDrained(g, s)
  }

  /** What the headunit has sent. */
  function HeadSends(limit: nat, run: seq<Action>): seq<Message> {
    if run == [] then [] else HeadSends(limit, run[..|run| - 1]) + SentBy(limit, run[|run| - 1])
  }

  ghost function Exec(g: Config, use: Use, run: seq<Action>): (s: System)
    requires Proper(g)
    ensures SystemInv(g, s) && s.head.sent == HeadSends(g.headLimit, run)
  {
    InvStart(g.phoneTls, CLIENT_LIMIT);
    if run == [] then Start(use) else Step(g, Exec(g, use, run[..|run| - 1]), run[|run| - 1])
  }

  /** The phone after `n` of AAClient's frames, or all if there are fewer. */
  function PhoneRx(g: Config, s: System, n: nat): Rx {
    Receive(g.phoneTls, RX_START, s.client.frames[..Min(n, |s.client.frames|)])
  }

  function PhoneOut(g: Config, s: System, n: nat): seq<Message> { PhoneRx(g, s, n).out }

  /**
   Transparency from headunit to phone: in every run, whatever AAClient itself sends in between and
   whatever AAServer keeps for itself, AAServer has dispatched the headunit's first messages in order,
   the phone never fails on AAClient's frames, and the headunit's messages that it has received are
   the first ones of those returned, in order.
   */
  lemma ReturnTransparent(g: Config, use: Use, run: seq<Action>, n: nat)
    requires Proper(g)
    ensures var s := Exec(g, use, run);
            && Dispatched(s.passed) <= HeadSends(g.headLimit, run)
            && !PhoneRx(g, s, n).failed && |PhoneOut(g, s, n)| <= |s.relayed|
            && Marked(PhoneOut(g, s, n), s.relayed) <= Returned(g.table, s.passed)
  {
    var s := Exec(g, use, run);
    OutOfSent(g.phoneTls, CLIENT_LIMIT, s.client, Min(n, |s.client.frames|));
    MarkedOfSent(Reader(g.table), Packets(g.table, s.passed), Packets(g.table, s.passed), s.socket, s.read, s.client, s.relayed, PhoneOut(g, s, n));
    AcceptedPackets(g.table, s.passed);
  }
}
