/**
 How AAClient gets the input channel opened: its main loop hands the phone's open request to the
 channel's handler, whose announcement AAServer reads from the socket.
 */
module Announcement {
  import opened Utils
  import opened Framing
  import opened Messages
  import opened InputLink
  import opened InputHandlers
  import opened ServiceTable
  import opened Sockets
  import Routing
  import Proxy

  /** `handleMessageFromMobile` of AAClient's default handler; `forwardChannelMessage` does the same. */
  method HandleDefault(channelId: byte, flags: Flags, data: Bytes) returns (emitted: seq<Signal>)
    ensures emitted == [ToServer(channelId, flags & SPECIFIC != 0, data)]
  {
    emitted := [ToServer(channelId, flags & SPECIFIC != 0, data)];
  }

  /** What AAClient writes to the socket for a message from the phone, byte by byte. */
  function OnSocket(table: Table, m: Message): seq<Bytes>
    requires |m.content| >= 2
  {
    var t := TypeOf(m.content);
    var forwarded: Bytes := [1, m.channel, if m.flags & SPECIFIC != 0 then 0xff else 0] + m.content;
    if t == SERVICE_DISCOVERY_REQUEST then []
    else if m.channel == 0 then if t in {0x0d, 0x11, 0x12} then [forwarded] else []
    else match table[m.channel]
      case Some(Default) => [forwarded]
      case Some(Input) => if t == CHANNEL_OPEN_REQUEST then [[1, m.channel, 0]] else []
      case _ => []
  }

  /** That is what the two systems of the proxy are fed with. */
  lemma PacketsOnSocket(table: Table, m: Message)
    requires |m.content| >= 2
    ensures Proxy.PacketsFor(table, m) == OnSocket(table, m)
  {
    assert Routing.RawData(m.channel, false, []) == [1, m.channel, 0];
  }

  lemma WrittenOne(channel: byte, specific: bool, data: Bytes)
    ensures Written([ToServer(channel, specific, data)]) == [[1, channel, if specific then 0xff else 0] + data]
  {
    var signals := [ToServer(channel, specific, data)];
    assert signals[1..] == [] && Written(signals[1..]) == [];
  }

  /**
   The branches of AAClient's main loop on a completed message: the packets that the handlers' signals
   become are those of the proxy. `ok` is false when it throws, or has no handler to call. What is
   sent to the phone is left in the handler's signals.
   */
  method HandleMessage(table: Table, input: ClientInputHandler, m: Message) returns (written: seq<Bytes>, ok: bool)
    requires |m.content| >= 2 && (table[m.channel] == Some(Input) ==> input.channelId == m.channel)
    modifies input`emitted
    ensures written == OnSocket(table, m) == Proxy.PacketsFor(table, m)
    ensures ok <==> !Routing.RouteFromPhone(table, m).NoHandler? && !Routing.RouteFromPhone(table, m).Unexpected?
    ensures ok <==> TypeOf(m.content) == SERVICE_DISCOVERY_REQUEST
                    || if m.channel == 0 then TypeOf(m.content) in {0x0d, 0x11, 0x12} else table[m.channel] != None
    ensures |old(input.emitted)| <= |input.emitted|
    ensures forall i :: |old(input.emitted)| <= i < |input.emitted| ==> SentWhole(input.emitted[i], m.channel)
    ensures m.channel != 0 && table[m.channel] == Some(Input) && TypeOf(m.content) == CHANNEL_OPEN_REQUEST ==>
              Replies(input.emitted[|old(input.emitted)|..]) == [[0, 8, 8, 0]]
  {
    PacketsOnSocket(table, m);
    WrittenOne(m.channel, m.flags & SPECIFIC != 0, m.content);
    var msgType := ToInt16(m.content);
    var signals: seq<Signal> := [];
    ok := true;
    if msgType == SERVICE_DISCOVERY_REQUEST {
    } else if m.channel != 0 {
      match table[m.channel] {
        case None =>
          ok := false;
        case Some(Default) =>
          signals := HandleDefault(m.channel, m.flags, m.content);
        case Some(Input) =>
          var n := |input.emitted|;
          var handled := input.HandleMessageFromMobile(m.content);
          signals := input.emitted[n..];
        case Some(Video) =>
      }
    } else if msgType in FORWARDED {
      signals := HandleDefault(m.channel, m.flags, m.content);
    } else {
      ok := false;
    }
    written := Written(signals);
  }

  /** The part of the protocol's state that AAServer keeps in its map and its handler. */
  ghost predicate Stands(st: State, server: Server)
    reads server.hub, server.input
  {
    st.clients == server.hub.clients && st.registered == server.input.registered_clients
  }

  /** AAServer reads the announcement. */
  method TakeAnnouncement(server: Server, scl: Handle, channel: byte, announcement: Bytes, fates: Handle -> Hub.Fate,
                          ghost st: State, ghost t: nat) returns (end: PacketEnd)
    requires announcement == [1, channel, 0]
    requires server.Valid() && server.directory.channelHandlers[channel] == Some(Input)
    requires Stands(st, server) && Enabled(st, Packet(t)) && st.threads[t].handle == scl
    modifies server.hub`clients, server.hub`inbox, server.input`registered_clients, server.sender`sendQueue, server.sender`sent
    ensures end.OpeningInput?
    ensures Stands(PacketStep(st, t), server)
    ensures scl in server.hub.clients && server.hub.clients[scl] in server.input.registered_clients
    ensures server.sender.sendQueue == old(server.sender.sendQueue)
  {
    var buffer := new byte[Routing.SERVER_READ](_ => 0);
    var p := ReadPacket(buffer, announcement);
    end := server.GotPacket(scl, p, fates);
  }

  /**
   The phone asks for the input channel to be opened: it is answered, and AAServer, when it reads the
   announcement, registers the client and goes on to open the channel, as the protocol's step does.
   Nothing is queued for the headunit.
   */
  method PhoneOpensInput(table: Table, input: ClientInputHandler, m: Message, server: Server, scl: Handle,
                         fates: Handle -> Hub.Fate, ghost st: State, ghost t: nat) returns (end: PacketEnd)
    requires |m.content| >= 2 && TypeOf(m.content) == CHANNEL_OPEN_REQUEST && m.channel != 0
    requires table[m.channel] == Some(Input) && input.channelId == m.channel
    requires server.Valid() && server.directory.channelHandlers[m.channel] == Some(Input)
    requires Stands(st, server) && Enabled(st, Packet(t)) && st.threads[t].handle == scl
    modifies input`emitted, server.hub`clients, server.hub`inbox, server.input`registered_clients
    modifies server.sender`sendQueue, server.sender`sent
    ensures |old(input.emitted)| <= |input.emitted| && Replies(input.emitted[|old(input.emitted)|..]) == [[0, 8, 8, 0]]
    ensures end.OpeningInput?
    ensures Stands(Step(st, Packet(t)), server) && Step(st, Packet(t)).threads[t].pc.Registered?
    ensures scl in server.hub.clients && server.hub.clients[scl] in server.input.registered_clients
    ensures server.sender.sendQueue == old(server.sender.sendQueue)
  {
    var written, _ := HandleMessage(table, input, m);
    end := TakeAnnouncement(server, scl, m.channel, written[0], fates, st, t);
    assert Step(st, Packet(t)) == PacketStep(st, t);
  }
}
