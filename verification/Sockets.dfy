/**
 The two ends of the packet socket: AAClient's `channelMessage` slot and reader thread
 (AAClient/main.cpp), AAServer's `SocketClient` and its packet dispatch (AAServer/main.cpp).
 */
module Sockets {
  import opened Utils
  import opened Framing
  import opened SendQueue
  import opened Hub
  import opened InputLink
  import opened ServiceTable
  import opened Routing

  // ---------------------------------------------------------------- AAClient

  predicate Retry(r: SysCall) { r.ret < 0 && r.errno in [EAGAIN, EINTR] }

  datatype WriteEnd = Sent | Waiting | Thrown

  /**
   The `channelMessage` slot: writes until a call is neither interrupted nor refused for now, so the
   packet is sent once, and only a call that takes all of it counts as success.
   */
  method ChannelMessage(channel: byte, specific: bool, msg: Bytes, results: seq<SysCall>)
    returns (end: WriteEnd, message: Bytes, n: nat)
    ensures message == RawData(channel, specific, msg)
    ensures n <= |results| && forall i :: 0 <= i < n ==> Retry(results[i])
    ensures end.Waiting? <==> n == |results|
    ensures n < |results| ==> !Retry(results[n]) && (end.Sent? <==> results[n].ret == |msg| + 3)
  {
    message := [RAW_DATA];
    message := message + [channel];
    message := message + [if specific then 0xff else 0x00];
    message := message + msg;
    assert message == RawData(channel, specific, msg);
    n := 0;
    while n < |results|
      invariant n <= |results| && forall i :: 0 <= i < n ==> Retry(results[i])
    {
      var ret := CheckError(results[n], [EAGAIN, EINTR]);
      if ret.Err? {
        end := Thrown;
        return;
      }
      if ret.value > 0 && ret.value == |message| {
        end := Sent;
        return;
      }
      if ret.value != 0 {
        end := Thrown;
        return;
      }
      n := n + 1;
    }
    end := Waiting;
  }

  /** The flags that the default handlers of both programs give a message. */
  method FlagsFor(specific: bool) returns (flags: Flags)
    ensures IsSpecific(flags) == specific && flags & BULK == BULK && flags & ENCRYPTED != 0
    ensures flags & !(BULK | ENCRYPTED | SPECIFIC) == 0
    ensures flags == DefaultFlags(specific)
  {
    flags := ENCRYPTED | BULK;
    if specific {
      flags := flags | SPECIFIC;
    }
  }

  /** `handleMessageFromServer` of AAClient's handlers, `handleMessageFromClient` of AAServer's default handler. */
  method SendDefault(channel: byte, specific: bool, data: Bytes, sender: Sender)
    requires sender.Valid() && 0 < |data| < 0x8000_0000
    modifies sender`sendQueue, sender`sent
    ensures sender.Valid() && sender.Abs() == Enqueue(old(sender.Abs()), Message(channel, DefaultFlags(specific), data, 0))
  {
    var flags := FlagsFor(specific);
    sender.SendMessage(channel, flags, data);
  }

  /** AAClient's reader thread and `sendMessagePublic`, on one datagram. */
  method ReaderThread(table: Table, datagram: Bytes, sender: Sender)
    requires sender.Valid() && 2 < |datagram| && table[datagram[0]] != None
    modifies sender`sendQueue, sender`sent
    ensures sender.Valid()
    ensures FromServer(table, datagram).Some? && sender.Abs() == Enqueue(old(sender.Abs()), FromServer(table, datagram).value)
    ensures var m := FromServer(table, datagram).value;
            && m.channel == datagram[0] && Whole(m.flags, datagram[1] != 0)
            && m.content == datagram[2..Min(|datagram|, CLIENT_READ)]
  {
    var buffer := Read(datagram, CLIENT_READ);
    assert buffer[2..] == datagram[2..Min(|datagram|, CLIENT_READ)];
    SendDefault(buffer[0], buffer[1] != 0, buffer[2..], sender);
  }

  // ---------------------------------------------------------------- AAServer: SocketClient

  /** How the thread of a client ends, if it does. */
  datatype ThreadEnd = Reading | EndOfFile | SlotThrew

  /** The packet in a datagram: three bytes, and what else of it fits the buffer. */
  function PacketOf(d: Bytes, bufSize: nat): Routing.Packet
    requires 3 <= |d| && 3 <= bufSize
  {
    Routing.Packet(d[0], d[1], d[2], d[3..Min(|d|, bufSize)])
  }

  predicate AllPackets(datagrams: seq<Bytes>) { forall d :: d in datagrams ==> d == [] || |d| >= 3 }

  /**
   What the slot has been handed: one packet for each datagram, up to the first of length zero, which
   means the end of the connection, or the first whose packet makes the slot throw, which is the last.
   */
  ghost predicate ReadOff(datagrams: seq<Bytes>, bufSize: nat, throws: Routing.Packet -> bool, packets: seq<Routing.Packet>,
                          end: ThreadEnd)
    requires 3 <= bufSize && AllPackets(datagrams)
  {
    && |packets| <= |datagrams|
    && (forall i :: 0 <= i < |packets| ==> datagrams[i] != [] && packets[i] == PacketOf(datagrams[i], bufSize))
    && (forall i :: 0 <= i < |packets| && throws(packets[i]) ==> i == |packets| - 1)
    && (end.SlotThrew? <==> packets != [] && throws(packets[|packets| - 1]))
    && (end.EndOfFile? ==> |packets| < |datagrams| && datagrams[|packets|] == [])
    && (end.Reading? ==> |packets| == |datagrams|)
  }

  /** That determines how many packets there are, which, and how the thread ends. */
  lemma ReadOffUnique(datagrams: seq<Bytes>, bufSize: nat, throws: Routing.Packet -> bool,
                      a: seq<Routing.Packet>, aEnd: ThreadEnd, b: seq<Routing.Packet>, bEnd: ThreadEnd)
    requires 3 <= bufSize && AllPackets(datagrams)
    requires ReadOff(datagrams, bufSize, throws, a, aEnd) && ReadOff(datagrams, bufSize, throws, b, bEnd)
    ensures a == b && aEnd == bEnd
  {
  }

  /** The packet of AAClient's `channelMessage` comes out with the channel, the Specific byte and the content put in. */
  lemma RawDataReadOff(datagrams: seq<Bytes>, throws: Routing.Packet -> bool, packets: seq<Routing.Packet>, end: ThreadEnd, i: nat,
                       channel: byte, specific: bool, msg: Bytes)
    requires AllPackets(datagrams) && ReadOff(datagrams, SERVER_READ, throws, packets, end)
    requires i < |packets| && datagrams[i] == RawData(channel, specific, msg)
    ensures packets[i] == Decode(Read(datagrams[i], SERVER_READ))
    ensures packets[i].packetType == RAW_DATA && packets[i].channelNumber == channel && (packets[i].specific != 0 <==> specific)
    ensures packets[i].data == msg[..Min(|msg|, SERVER_READ - 3)]
  {
    RawDataRoundTrip(channel, specific, msg);
    assert datagrams[i][3..Min(|datagrams[i]|, SERVER_READ)] == msg[..Min(|msg|, SERVER_READ - 3)];
  }

  /** One turn of the loop: what an earlier, longer packet left in the buffer never shows up. */
  method ReadPacket(buffer: array<byte>, d: Bytes) returns (p: Routing.Packet)
    requires 3 <= buffer.Length && 3 <= |d|
    modifies buffer
    ensures p == PacketOf(d, buffer.Length) == Decode(Read(d, buffer.Length))
  {
    var ret := Min(|d|, buffer.Length);
    forall i | 0 <= i < ret {
      buffer[i] := d[i];
    }
    assert buffer[..ret] == Read(d, buffer.Length);
    p := Routing.Packet(buffer[0], buffer[1], buffer[2], buffer[3..ret]);
    assert buffer[..ret][3..] == buffer[3..ret] == d[3..ret];
  }

  /** `clientThreadMethod`: one buffer for all packets; `throws` says which make the `gotPacket` slot throw. */
  method ClientThread(buffer: array<byte>, datagrams: seq<Bytes>, throws: Routing.Packet -> bool)
    returns (packets: seq<Routing.Packet>, end: ThreadEnd)
    requires 3 <= buffer.Length && AllPackets(datagrams)
    modifies buffer
    ensures ReadOff(datagrams, buffer.Length, throws, packets, end)
  {
    packets := [];
    var rest := datagrams;
    while rest != []
      invariant |packets| <= |datagrams| && rest == datagrams[|packets|..]
      invariant forall i :: 0 <= i < |packets| ==> datagrams[i] != [] && packets[i] == PacketOf(datagrams[i], buffer.Length)
      invariant forall i :: 0 <= i < |packets| ==> !throws(packets[i])
      decreases |rest|
    {
      TakeOneMore(datagrams, |packets|);
      assert rest[0] == datagrams[|packets|] && rest[0] in datagrams;
      if rest[0] == [] {
        return packets, EndOfFile;
      }
      var p := ReadPacket(buffer, rest[0]);
      if throws(p) {
        return packets + [p], SlotThrew;
      }
      packets := packets + [p];
      rest := rest[1..];
    }
    end := Reading;
  }

  // ---------------------------------------------------------------- AAServer: main

  /** How the handling of a packet ends; an input channel's client goes on to open the channel. */
  datatype PacketEnd = Handled | OpeningInput | Exception

  /** The message, if there is one, is all that has been queued. */
  predicate QueuedOnly(before: Tx, after: Tx, m: Option<Message>) {
    after == if m.Some? then Enqueue(before, m.value) else before
  }

  /** The message that a packet of raw data is turned into. */
  predicate Conveys(m: Message, p: Routing.Packet) {
    && m.channel == p.channelNumber && m.content == p.data && m.offset == 0 && Whole(m.flags, p.specific != 0)
  }

  lemma ToQueueConveys(table: Table, p: Routing.Packet)
    ensures var m := ToQueue(table, p);
            && (m.Some? <==> p.packetType == RAW_DATA && table[p.channelNumber] == Some(Default))
            && (m.Some? ==> Conveys(m.value, p))
  {
  }

  class Server {
    const hub: Clients
    const directory: ServerDirectory
    const input: ServerInputHandler
    const sender: Sender

    ghost predicate Valid()
      reads this, directory, sender
    {
      directory.Valid() && sender.Valid()
    }

    /** What is to be encrypted is not empty; the announcement of an input channel may be. */
    predicate Sizes(p: Routing.Packet)
      requires directory.Valid()
      reads directory, directory.channelHandlers
    {
      directory.channelHandlers[p.channelNumber] == Some(Default) ==> 0 < |p.data| < 0x8000_0000
    }

    constructor (hub: Clients, directory: ServerDirectory, input: ServerInputHandler, sender: Sender)
      ensures this.hub == hub && this.directory == directory && this.input == input && this.sender == sender
    {
      this.hub, this.directory, this.input, this.sender := hub, directory, input, sender;
    }

    /** `AaCommunicator::disconnected`: every handler is told; only input handlers keep client ids. */
    method DisconnectHandlers(clientId: int)
      requires directory.Valid()
      modifies input`registered_clients
      ensures input.registered_clients == old(input.registered_clients)
              - if Some(Input) in directory.channelHandlers[..] then {clientId} else {}
    {
      var i := 0;
      while i < directory.channelHandlers.Length
        invariant i <= directory.channelHandlers.Length
        invariant input.registered_clients == old(input.registered_clients)
                  - if Some(Input) in directory.channelHandlers[..i] then {clientId} else {}
      {
        if directory.channelHandlers[i] == Some(Input) {
          input.Disconnected(clientId);
        }
        i := i + 1;
      }
      assert directory.channelHandlers[..i] == directory.channelHandlers[..];
    }

    /** The `disconnected` slot. */
    method Disconnected(scl: Handle)
      requires directory.Valid()
      modifies hub`clients, input`registered_clients
      ensures var (clients, id) := Lookup(old(hub.clients), scl);
              && hub.clients == clients - {scl}
              && input.registered_clients == old(input.registered_clients)
                 - if Some(Input) in directory.channelHandlers[..] then {id} else {}
    {
      var id := hub.IdOf(scl);
      DisconnectHandlers(id);
      hub.clients := hub.clients - {scl};
    }

    /** `sendToChannel`; `signal` is what the handler emits towards the headunit. */
    method SendToChannel(clientId: int, p: Routing.Packet) returns (end: PacketEnd, signal: Option<Message>)
      requires directory.Valid() && p.packetType == RAW_DATA
      modifies input`registered_clients
      ensures var kind := directory.channelHandlers[p.channelNumber];
              && (end.Exception? <==> kind == None) && (end.OpeningInput? <==> kind == Some(Input))
              && input.registered_clients == old(input.registered_clients) + (if kind == Some(Input) then {clientId} else {})
              && signal == ToQueue(directory.channelHandlers[..], p)
    {
      signal := None;
      match directory.channelHandlers[p.channelNumber] {
        case None =>
          end := Exception;
        case Some(Default) =>
          var flags := FlagsFor(p.specific != 0);
          signal := Some(Message(p.channelNumber, flags, p.data, 0));
          end := Handled;
        case Some(Input) =>
          input.Register(clientId);
          end := OpeningInput;
        case Some(Video) =>
          end := Handled;
      }
    }

    /** The effect of raw data on map and registrations: a client whose data has no handler is dropped from both. */
    ghost predicate RawDataDone(kind: Option<Kind>, scl: Handle, before: map<Handle, int>, registered: set<int>, end: PacketEnd)
      requires directory.Valid()
      reads hub, input, directory, directory.channelHandlers
    {
      var (clients, id) := Lookup(before, scl);
      && (end.Exception? <==> kind == None) && (end.OpeningInput? <==> kind == Some(Input))
      && hub.clients == (if kind == None then clients - {scl} else clients)
      && input.registered_clients == (
           if kind == Some(Input) then registered + {id}
           else if kind == None && Some(Input) in directory.channelHandlers[..] then registered - {id}
           else registered)
    }

    method SendSignal(signal: Option<Message>)
      requires sender.Valid() && (signal.Some? ==> WellFormed(signal.value))
      modifies sender`sendQueue, sender`sent
      ensures sender.Valid() && QueuedOnly(old(sender.Abs()), sender.Abs(), signal)
    {
      if signal.Some? {
        sender.SendMessage(signal.value.channel, signal.value.flags, signal.value.content);
      }
    }

    /** The raw data branch: a client whose data cannot be passed on is dropped. */
    method GotRawData(scl: Handle, p: Routing.Packet) returns (end: PacketEnd)
      requires Valid() && p.packetType == RAW_DATA && Sizes(p)
      modifies hub`clients, input`registered_clients, sender`sendQueue, sender`sent
      ensures Valid()
      ensures RawDataDone(directory.channelHandlers[p.channelNumber], scl, old(hub.clients), old(input.registered_clients), end)
      ensures QueuedOnly(old(sender.Abs()), sender.Abs(), ToQueue(directory.channelHandlers[..], p))
    {
      var id := hub.IdOf(scl);
      var signal;
      end, signal := SendToChannel(id, p);
      if end.Exception? {
        Disconnected(scl);
      }
      SendSignal(signal);
    }

    /**
     The `gotPacket` slot. A failed answer and an unknown packet type end the client's thread but
     leave the client in the map.
     */
    method GotPacket(scl: Handle, p: Routing.Packet, fates: Handle -> Fate) returns (end: PacketEnd)
      requires Valid() && (p.packetType == RAW_DATA ==> Sizes(p))
      requires p.packetType == GET_CHANNEL_NUMBER ==> p.channelNumber < 2
      modifies hub`clients, hub`inbox, input`registered_clients, sender`sendQueue, sender`sent
      ensures Valid()
      ensures p.packetType == GET_CHANNEL_NUMBER ==>
                Handed(old(hub.inbox), hub.inbox, {scl}, [directory.channelTypeToChannelNumber[p.channelNumber]], fates)
      ensures p.packetType == GET_SERVICE_DESCRIPTOR ==>
                Handed(old(hub.inbox), hub.inbox, {scl}, directory.serviceDescriptor, fates)
      ensures p.packetType in {GET_CHANNEL_NUMBER, GET_SERVICE_DESCRIPTOR} ==> (end.Exception? <==> !fates(scl).Taken?)
      ensures p.packetType !in {GET_CHANNEL_NUMBER, GET_SERVICE_DESCRIPTOR} ==> hub.inbox == old(hub.inbox)
      ensures p.packetType !in {GET_CHANNEL_NUMBER, RAW_DATA, GET_SERVICE_DESCRIPTOR} ==> end.Exception?
      ensures p.packetType != RAW_DATA ==> hub.clients == old(hub.clients) && input.registered_clients == old(input.registered_clients)
      ensures p.packetType == RAW_DATA ==>
                RawDataDone(directory.channelHandlers[p.channelNumber], scl, old(hub.clients), old(input.registered_clients), end)
      ensures QueuedOnly(old(sender.Abs()), sender.Abs(), ToQueue(directory.channelHandlers[..], p))
      ensures if p.packetType == RAW_DATA && directory.channelHandlers[p.channelNumber] == Some(Default) then
                var n := |old(sender.sendQueue)|;
                && |sender.sendQueue| == n + 1 && sender.sendQueue[..n] == old(sender.sendQueue)
                && Conveys(sender.sendQueue[n], p)
              else sender.sendQueue == old(sender.sendQueue)
    {
      ToQueueConveys(directory.channelHandlers[..], p);
      if p.packetType == GET_CHANNEL_NUMBER {
        var channelId := directory.GetChannelNumberByChannelType(p.channelNumber);
        hub.SendMessage(scl, [channelId.value], fates);
        end := if fates(scl).Taken? then Handled else Exception;
      } else if p.packetType == RAW_DATA {
        end := GotRawData(scl, p);
      } else if p.packetType == GET_SERVICE_DESCRIPTOR {
        hub.SendMessage(scl, directory.serviceDescriptor, fates);
        end := if fates(scl).Taken? then Handled else Exception;
      } else {
        end := Exception;
      }
    }
  }
}
