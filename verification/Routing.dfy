/**
 How one message travels: from the phone through AAClient, the socket and AAServer towards the
 headunit, and back. Packets are datagrams; a read takes what fits its buffer and drops the rest.
 */
module Routing {
  import opened Utils
  import opened Framing
  import opened Messages
  import opened ServiceTable
  import opened Hub

  // ---------------------------------------------------------------- socket

  /** The buffer of `SocketClient::clientThreadMethod`. */
  const SERVER_READ: nat := 2 * 1024 * 1024

  /** The buffer of AAClient's reader thread. */
  const CLIENT_READ: nat := 100 * 1024

  const GET_CHANNEL_NUMBER: byte := 0
  const RAW_DATA: byte := 1
  const GET_SERVICE_DESCRIPTOR: byte := 2

  datatype Packet = Packet(packetType: byte, channelNumber: byte, specific: byte, data: Bytes)

  /** What one `read` of a datagram gives. */
  function Read(datagram: Bytes, bufSize: nat): Bytes { datagram[..Min(|datagram|, bufSize)] }

  /** The `channelMessage` slot of AAClient. */
  function RawData(channel: byte, specific: bool, msg: Bytes): Bytes {
    [RAW_DATA, channel, if specific then 0xff else 0x00] + msg
  }

  function Decode(buffer: Bytes): Packet
    requires |buffer| >= 3
  {
    Packet(buffer[0], buffer[1], buffer[2], buffer[3..])
  }

  lemma RawDataRoundTrip(channel: byte, specific: bool, msg: Bytes)
    ensures var b := Read(RawData(channel, specific, msg), SERVER_READ);
            && |b| >= 3
            && Decode(b) == Packet(RAW_DATA, channel, if specific then 0xff else 0x00, msg[..Min(|msg|, SERVER_READ - 3)])
  {
    var b := Read(RawData(channel, specific, msg), SERVER_READ);
    assert b[3..] == msg[..Min(|msg|, SERVER_READ - 3)];
  }

  // ---------------------------------------------------------------- phone to headunit

  function IsSpecific(flags: Flags): bool { flags & SPECIFIC != 0 }

  /** The flags that both default handlers give a message. */
  function DefaultFlags(specific: bool): Flags {
    ENCRYPTED | BULK | if specific then SPECIFIC else 0
  }

  lemma DefaultFlagsOk(specific: bool)
    ensures var f := DefaultFlags(specific);
            f & BULK == BULK && f & ENCRYPTED != 0 && IsSpecific(f) == specific
  {
  }

  /** What AAClient does with a message from the phone once the link is up. */
  datatype ClientRoute = ToServer(packet: Bytes) | Discovery | ToHandler(kind: Kind) | NoHandler | Unexpected

  function RouteFromPhone(table: Table, m: Message): ClientRoute
    requires |m.content| >= 2
  {
    if TypeOf(m.content) == SERVICE_DISCOVERY_REQUEST then Discovery
    else if m.channel != 0 then
      match table[m.channel]
      case Some(Default) => ToServer(RawData(m.channel, IsSpecific(m.flags), m.content))
      case Some(kind) => ToHandler(kind)
      case None => NoHandler
    else if TypeOf(m.content) in FORWARDED then ToServer(RawData(m.channel, IsSpecific(m.flags), m.content))
    else Unexpected
  }

  /** The message that AAServer queues for the headunit when it gets a packet, if any. */
  function ToQueue(table: Table, p: Packet): Option<Message> {
    if p.packetType == RAW_DATA && table[p.channelNumber] == Some(Default)
    then Some(Message(p.channelNumber, DefaultFlags(p.specific != 0), p.data, 0))
    else None
  }

  function FromSocket(table: Table, datagram: Bytes): Option<Message>
    requires |datagram| >= 3
  {
    ToQueue(table, Decode(Read(datagram, SERVER_READ)))
  }

  function PhoneToHead(table: Table, m: Message): Option<Message>
    requires |m.content| >= 2
  {
    match RouteFromPhone(table, m)
    case ToServer(packet) => FromSocket(table, packet)
    case _ => None
  }

  /** What a proxy is to preserve. */
  predicate SameMessage(a: Message, b: Message) {
    a.channel == b.channel && IsSpecific(a.flags) == IsSpecific(b.flags) && a.content == b.content
  }

  predicate Relayable(table: Table, m: Message)
    requires |m.content| >= 2
  {
    && table[m.channel] == Some(Default)
    && TypeOf(m.content) != SERVICE_DISCOVERY_REQUEST
    && (m.channel == 0 ==> TypeOf(m.content) in FORWARDED)
    && |m.content| + 3 <= SERVER_READ
  }

  /** The message as the headunit gets it: the same but for being encrypted. */
  function Relayed(m: Message): Message { Message(m.channel, DefaultFlags(IsSpecific(m.flags)), m.content, 0) }

  /**
   With the same tables on both sides, a phone message reaches the headunit's queue with its
   channel, Specific bit and content if and only if it is on a default channel, is not taken for a
   discovery request, is of a forwarded type when on channel 0, and fits AAServer's read buffer.
   */
  lemma TransparentExactly(table: Table, m: Message)
    requires |m.content| >= 2
    ensures (PhoneToHead(table, m).Some? && SameMessage(PhoneToHead(table, m).value, m)) <==> Relayable(table, m)
    ensures Relayable(table, m) ==> PhoneToHead(table, m) == Some(Relayed(m))
  {
    RawDataRoundTrip(m.channel, IsSpecific(m.flags), m.content);
    DefaultFlagsOk(IsSpecific(m.flags));
    if |m.content| + 3 <= SERVER_READ {
      assert m.content[..|m.content|] == m.content;
    }
  }

  // ---------------------------------------------------------------- headunit to phone

  /** What AAServer does with a message from the headunit. */
  datatype ServerRoute =
    | Broadcast(packet: Bytes) | ToRegistered(packet: Bytes) | HandlerMessage | Missing | Control(t: nat) | Unhandled

  const CONTROL: set<nat> :=
    {VERSION_REQUEST, SSL_HANDSHAKE, AUTH_COMPLETE, SERVICE_DISCOVERY_RESPONSE, PING_REQUEST}

  /** The video channels that AAServer has opened itself; the input channels that AAClient is registered for. */
  datatype Use = Use(started: set<byte>, registered: set<byte>)

  /** A video handler that has not opened its channel passes everything on, an input handler its events. */
  function RouteFromHead(table: Table, use: Use, m: Message): ServerRoute
    requires |m.content| >= 2
  {
    var t := TypeOf(m.content);
    if m.channel != 0 then
      match table[m.channel]
      case Some(Default) => Broadcast(ToSocket(m.channel, IsSpecific(m.flags), m.content))
      case Some(Video) =>
        if m.channel in use.started then HandlerMessage else Broadcast(ToSocket(m.channel, IsSpecific(m.flags), m.content))
      case Some(Input) => if t == INPUT_EVENT then ToRegistered(ToSocket(m.channel, false, m.content)) else HandlerMessage
      case None => Missing
    else if t == AUDIO_FOCUS_RESPONSE || t == NAVIGATION_FOCUS_RESPONSE then
      Broadcast(ToSocket(m.channel, IsSpecific(m.flags), m.content))
    else if t in CONTROL then Control(t)
    else Unhandled
  }

  /** The message that AAClient queues for the phone when its reader thread reads a datagram; all handlers do the same. */
  function FromServer(table: Table, datagram: Bytes): Option<Message>
    requires |datagram| >= 2
  {
    var b := Read(datagram, CLIENT_READ);
    if table[b[0]] != None then Some(Message(b[0], DefaultFlags(b[1] != 0), b[2..], 0)) else None
  }

  function HeadToPhone(table: Table, use: Use, m: Message): Option<Message>
    requires |m.content| >= 2
  {
    match RouteFromHead(table, use, m)
    case Broadcast(packet) => FromServer(table, packet)
    case ToRegistered(packet) => if m.channel in use.registered then FromServer(table, packet) else None
    case _ => None
  }

  /** Which messages AAServer hands to AAClient, Specific bit included. */
  predicate HandedOn(table: Table, use: Use, m: Message)
    requires |m.content| >= 2
  {
    if m.channel == 0 then table[0] != None && TypeOf(m.content) in {AUDIO_FOCUS_RESPONSE, NAVIGATION_FOCUS_RESPONSE}
    else match table[m.channel]
      case Some(Default) => true
      case Some(Video) => m.channel !in use.started
      case Some(Input) => TypeOf(m.content) == INPUT_EVENT && m.channel in use.registered && !IsSpecific(m.flags)
      case None => false
  }

  predicate Returnable(table: Table, use: Use, m: Message)
    requires |m.content| >= 2
  {
    HandedOn(table, use, m) && |m.content| + 2 <= CLIENT_READ
  }

  lemma FromServerExactly(table: Table, channel: byte, specific: bool, content: Bytes)
    ensures var m := FromServer(table, ToSocket(channel, specific, content));
            && (m.Some? <==> table[channel] != None)
            && (m.Some? ==> m.value == Message(channel, DefaultFlags(specific), content[..Min(|content|, CLIENT_READ - 2)], 0))
  {
    assert Read(ToSocket(channel, specific, content), CLIENT_READ)[2..] == content[..Min(|content|, CLIENT_READ - 2)];
  }

  /**
   With the same tables on both sides, a headunit message reaches the phone's queue with its channel,
   Specific bit and content if and only if AAServer hands it on as it is (an event of an input
   channel loses its Specific bit) and it fits AAClient's read buffer.
   */
  lemma ReturnExactly(table: Table, use: Use, m: Message)
    requires |m.content| >= 2
    ensures (HeadToPhone(table, use, m).Some? && SameMessage(HeadToPhone(table, use, m).value, m)) <==> Returnable(table, use, m)
    ensures Returnable(table, use, m) ==> HeadToPhone(table, use, m) == Some(Relayed(m))
  {
    FromServerExactly(table, m.channel, IsSpecific(m.flags), m.content);
    FromServerExactly(table, m.channel, false, m.content);
    DefaultFlagsOk(IsSpecific(m.flags));
    DefaultFlagsOk(false);
    if |m.content| + 2 <= CLIENT_READ {
      assert m.content[..|m.content|] == m.content;
    }
  }

  /** A message that the headunit sends in one frame always fits. */
  lemma SingleFramesReturn(table: Table, use: Use, m: Message)
    requires WellFormed(m) && |m.content| >= 2 && (m.Encrypted() ==> |m.content| <= MAX_RECORD) && HandedOn(table, use, m)
    ensures HeadToPhone(table, use, m) == Some(Relayed(m)) && SameMessage(Relayed(m), m)
  {
    ReturnExactly(table, use, m);
  }
}
