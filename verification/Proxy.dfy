/**
 The whole path from phone to headunit as one system: the phone's fragmenter, AAClient's
 reassembler and router, the packet socket, AAServer's reader and its fragmenter with limit 2000,
 whose queue other senders use as well. Any interleaving of their steps is a run.
 */
module Proxy {
  import opened Utils
  import opened Framing
  import opened Messages
  import opened SendQueue
  import opened Relay
  import opened ServiceTable
  import opened Routing

  /** The two TLS connections, the phone's fragment limit and the table of handlers on both sides. */
  datatype Config = Config(phoneTls: Cipher, headTls: Cipher, phoneLimit: nat, table: Table)

  ghost predicate Proper(g: Config) {
    Sound(g.phoneTls) && Sound(g.headTls) && ValidLimit(g.phoneLimit)
  }

  /**
   `taken` counts the phone's frames that AAClient has received and `read` the packets that AAServer
   has read; `relayed` says of each message queued by AAServer whether it came from the phone.
   */
  datatype System = System(
    phone: Tx, taken: nat, client: Rx, socket: seq<Bytes>, read: nat, server: Tx, relayed: seq<bool>)

  const START: System := System(TX_START, 0, RX_START, [], 0, TX_START, [])

  datatype Action =
    | PhoneSend(m: Message)
    | PhoneDrain
    | ClientReceive
    | ServerRead
    | OtherSend(m: Message)   // a message of AAServer's own
    | ServerDrain

  /**
   A message that the phone sends once the link is up: any that AAClient does not throw at. It may be
   for the proxy, for one of AAClient's own handlers, or a discovery request.
   */
  predicate FromPhone(table: Table, m: Message) {
    WellFormed(m) && |m.content| >= 2 && !RouteFromPhone(table, m).NoHandler? && !RouteFromPhone(table, m).Unexpected?
  }

  predicate Enabled(g: Config, s: System, a: Action) {
    match a
    case PhoneSend(m) => FromPhone(g.table, m)
    case OtherSend(m) => WellFormed(m)
    case ClientReceive => s.taken < |s.phone.frames|
    case ServerRead => s.socket != [] && |s.socket[0]| >= 3
    case _ => true
  }

  /**
   What is written to the socket when a message has been completed: its packet if it is forwarded, an
   empty one if it asks for an input channel to be opened, else nothing.
   */
  function PacketsFor(table: Table, m: Message): seq<Bytes> {
    if |m.content| < 2 then []
    else
      match RouteFromPhone(table, m)
      case ToServer(packet) => [packet]
      case ToHandler(Input) => if TypeOf(m.content) == CHANNEL_OPEN_REQUEST then [RawData(m.channel, false, [])] else []
      case _ => []
  }

  /** The packets that one bulk transfer leads to. */
  function NewPackets(table: Table, before: Rx, after: Rx): seq<Bytes> {
    if |after.out| > |before.out| then PacketsFor(table, after.out[|after.out| - 1]) else []
  }

  function ReceiveStep(g: Config, s: System): System
    requires s.taken < |s.phone.frames|
  {
    var r := RxStep(g.phoneTls, s.client, s.phone.frames[s.taken]);
    s.(taken := s.taken + 1, client := r, socket := s.socket + NewPackets(g.table, s.client, r))
  }

  function ReadStep(g: Config, s: System): System
    requires s.socket != [] && |s.socket[0]| >= 3
  {
    var m := FromSocket(g.table, s.socket[0]);
    var t := s.(socket := s.socket[1..], read := s.read + 1);
    if m.None? then t else t.(server := Enqueue(s.server, m.value), relayed := s.relayed + [true])
  }

  // ---------------------------------------------------------------- sequences of messages

  function Packets(table: Table, ms: seq<Message>): seq<Bytes> {
    if ms == [] then [] else Packets(table, ms[..|ms| - 1]) + PacketsFor(table, ms[|ms| - 1])
  }

  function OneAccepted(table: Table, p: Bytes): seq<Message> {
    if |p| < 3 || FromSocket(table, p).None? then [] else [FromSocket(table, p).value]
  }

  /** What AAServer queues for the headunit when it reads a packet. */
  function Reader(table: Table): Reading { p => OneAccepted(table, p) }

  function OneForwarded(table: Table, m: Message): seq<Message> {
    if |m.content| < 2 || PhoneToHead(table, m).None? then [] else [PhoneToHead(table, m).value]
  }

  /** What the headunit is to get of the phone's messages. */
  function Forwarded(table: Table, ms: seq<Message>): seq<Message> {
    if ms == [] then [] else Forwarded(table, ms[..|ms| - 1]) + OneForwarded(table, ms[|ms| - 1])
  }

  /** The messages that can be relayed unchanged. */
  function AllRelayable(table: Table, ms: seq<Message>): seq<Message> {
    if ms == [] then []
    else
      var m := ms[|ms| - 1];
      AllRelayable(table, ms[..|ms| - 1]) + if |m.content| >= 2 && Relayable(table, m) then [m] else []
  }

  function AllRelayed(ms: seq<Message>): seq<Message> {
    seq(|ms|, i requires 0 <= i < |ms| => Relayed(ms[i]))
  }

  /** A relayed message is the same message. */
  lemma RelayedMeaning(ms: seq<Message>, i: nat)
    requires i < |ms|
    ensures |AllRelayed(ms)| == |ms| && SameMessage(AllRelayed(ms)[i], ms[i])
  {
    DefaultFlagsOk(IsSpecific(ms[i].flags));
  }

  /** Of one message the headunit gets the part that fits the buffer, if it is for the proxy at all. */
  lemma ForwardedOne(table: Table, m: Message)
    requires |m.content| >= 2
    ensures var f := PhoneToHead(table, m);
            && (f.Some? <==> RouteFromPhone(table, m).ToServer? && table[m.channel] == Some(Default))
            && (f.Some? ==> f.value == Relayed(m.(content := m.content[..Min(|m.content|, SERVER_READ - 3)])))
  {
    RawDataRoundTrip(m.channel, IsSpecific(m.flags), m.content);
  }

  /** Unless a message is longer than AAServer's buffer, what is forwarded is exactly the relayable messages. */
  lemma {:induction false} ForwardedMeaning(table: Table, ms: seq<Message>)
    requires forall m :: m in ms ==> FromPhone(table, m) && |m.content| + 3 <= SERVER_READ
    ensures Forwarded(table, ms) == AllRelayed(AllRelayable(table, ms))
  {
    if ms != [] {
      var front, m := ms[..|ms| - 1], ms[|ms| - 1];
      assert m in ms;
      ForwardedMeaning(table, front);
      TransparentExactly(table, m);
      ForwardedOne(table, m);
    }
  }

  lemma PacketsSnoc(table: Table, ms: seq<Message>, m: Message)
    ensures Packets(table, ms + [m]) == Packets(table, ms) + PacketsFor(table, m)
  {
    assert (ms + [m])[..|ms|] == ms;
  }

  lemma {:induction false} PacketsPrefix(table: Table, ms: seq<Message>, n: nat)
    requires n <= |ms|
    ensures Packets(table, ms[..n]) <= Packets(table, ms)
  {
    if n < |ms| {
      PacketsPrefix(table, ms[..|ms| - 1], n);
      assert ms[..|ms| - 1][..n] == ms[..n];
    } else {
      assert ms[..n] == ms;
    }
  }

  /** A packet that AAServer can read, and queue if it is for a default channel. */
  predicate PacketOk(table: Table, p: Bytes) {
    |p| >= 3 && forall m :: m in OneAccepted(table, p) ==> WellFormed(m)
  }

  predicate PacketsOk(table: Table, ps: seq<Bytes>) {
    forall i :: 0 <= i < |ps| ==> PacketOk(table, ps[i])
  }

  lemma RawDataOk(table: Table, channel: byte, specific: bool, msg: Bytes)
    requires table[channel] == Some(Default) ==> 0 < |msg|
    ensures PacketOk(table, RawData(channel, specific, msg))
  {
    RawDataRoundTrip(channel, specific, msg);
    DefaultFlagsOk(specific);
  }

  /** One message leads to at most one packet, and that to what the message is forwarded as. */
  lemma OnePacket(table: Table, m: Message)
    ensures |PacketsFor(table, m)| <= 1 && PacketsOk(table, PacketsFor(table, m))
    ensures forall p :: p in PacketsFor(table, m) ==> OneAccepted(table, p) == OneForwarded(table, m)
    ensures PacketsFor(table, m) == [] ==> OneForwarded(table, m) == []
  {
    if |m.content| >= 2 {
      RawDataRoundTrip(m.channel, IsSpecific(m.flags), m.content);
      RawDataRoundTrip(m.channel, false, []);
      RawDataOk(table, m.channel, IsSpecific(m.flags), m.content);
      if m.channel != 0 && table[m.channel] == Some(Input) {
        RawDataOk(table, m.channel, false, []);
      }
    }
  }

  /** Reading all packets of some messages queues what these are forwarded as. */
  lemma {:induction false} AcceptedPackets(table: Table, ms: seq<Message>)
    ensures PacketsOk(table, Packets(table, ms)) && Accepted(Reader(table), Packets(table, ms)) == Forwarded(table, ms)
  {
    if ms != [] {
      var front, m := ms[..|ms| - 1], ms[|ms| - 1];
      AcceptedPackets(table, front);
      OnePacket(table, m);
      if PacketsFor(table, m) != [] {
        var p := PacketsFor(table, m)[0];
        assert PacketsFor(table, m) == [p] && p in PacketsFor(table, m);
        AcceptedSnoc(Reader(table), Packets(table, front), p);
      } else {
        assert Packets(table, ms) == Packets(table, front);
      }
    }
  }

  // ---------------------------------------------------------------- the invariant

  ghost predicate PhoneInv(g: Config, phone: Tx)
    requires Proper(g)
  {
    Inv(g.phoneTls, g.phoneLimit, phone)
  }

  /** AAClient has received the first `taken` frames. */
  predicate Received(c: Cipher, phone: Tx, taken: nat, client: Rx) {
    taken <= |phone.frames| && client == Receive(c, RX_START, phone.frames[..taken])
  }

  ghost predicate SystemInv(g: Config, s: System)
    requires Proper(g)
  {
    && PhoneInv(g, s.phone)
    && Received(g.phoneTls, s.phone, s.taken, s.client)
    && Carried(Reader(g.table), Packets(g.table, s.client.out), s.socket, s.read, s.server, s.relayed)
    && QueueInv(g.headTls, SERVER_LIMIT, s.server, s.relayed)
  }

  // ---------------------------------------------------------------- AAClient

  /** AAClient never fails on the phone's frames, and completes only what the phone has sent. */
  lemma ClientOut(g: Config, s: System)
    requires Proper(g) && SystemInv(g, s)
    ensures !s.client.failed && s.client.out <= s.phone.sent
    ensures Packets(g.table, s.client.out) <= Packets(g.table, s.phone.sent)
    ensures PacketsOk(g.table, Packets(g.table, s.client.out))
  {
    OutOfSent(g.phoneTls, g.phoneLimit, s.phone, s.taken);
    assert s.client.out == s.phone.sent[..|s.client.out|];
    PacketsPrefix(g.table, s.phone.sent, |s.client.out|);
    AcceptedPackets(g.table, s.client.out);
  }

  /** One transfer completes at most one message. */
  lemma StepCompletes(c: Cipher, r: Rx, f: Bytes)
    ensures var out := RxStep(c, r, f).out;
            out == r.out || (|out| == |r.out| + 1 && out[..|r.out|] == r.out)
  {
  }

  /** The packets written for a transfer are those of the message that it completes. */
  lemma NewPacketsAre(table: Table, before: Rx, after: Rx)
    requires after.out == before.out || (|after.out| == |before.out| + 1 && after.out[..|before.out|] == before.out)
    ensures Packets(table, after.out) == Packets(table, before.out) + NewPackets(table, before, after)
  {
    if |after.out| > |before.out| {
      var m := after.out[|before.out|];
      assert after.out == before.out + [m];
      PacketsSnoc(table, before.out, m);
    }
  }

  lemma ReceivedMore(c: Cipher, phone: Tx, taken: nat, client: Rx)
    requires Received(c, phone, taken, client) && taken < |phone.frames|
    ensures Received(c, phone, taken + 1, RxStep(c, client, phone.frames[taken]))
  {
    TakeOneMore(phone.frames, taken);
    ReceiveOneMore(c, RX_START, phone.frames[..taken], phone.frames[taken]);
  }

  lemma ReceiveParts(c: Cipher, table: Table, phone: Tx, taken: nat, client: Rx, socket: seq<Bytes>, read: nat, server: Tx,
                     relayed: seq<bool>)
    requires Received(c, phone, taken, client) && taken < |phone.frames|
    requires Carried(Reader(table), Packets(table, client.out), socket, read, server, relayed)
    ensures var r := RxStep(c, client, phone.frames[taken]);
            && Received(c, phone, taken + 1, r)
            && Carried(Reader(table), Packets(table, r.out), socket + NewPackets(table, client, r), read, server, relayed)
  {
    var r := RxStep(c, client, phone.frames[taken]);
    ReceivedMore(c, phone, taken, client);
    StepCompletes(c, client, phone.frames[taken]);
    NewPacketsAre(table, client, r);
    CarriedMore(Reader(table), Packets(table, client.out), NewPackets(table, client, r), socket, read, server, relayed);
  }

  /** Whatever AAClient does, phone and AAServer keep their own invariants. */
  lemma ClientMoves(g: Config, s: System, t: System)
    requires Proper(g) && SystemInv(g, s)
    requires t.phone == s.phone && t.server == s.server && t.relayed == s.relayed
    requires Received(g.phoneTls, t.phone, t.taken, t.client)
    requires Carried(Reader(g.table), Packets(g.table, t.client.out), t.socket, t.read, t.server, t.relayed)
    ensures SystemInv(g, t)
  {
  }

  lemma ReceiveKeepsInv(g: Config, s: System)
    requires Proper(g) && SystemInv(g, s) && Enabled(g, s, ClientReceive)
    ensures SystemInv(g, ReceiveStep(g, s))
  {
    ReceiveParts(g.phoneTls, g.table, s.phone, s.taken, s.client, s.socket, s.read, s.server, s.relayed);
    ClientMoves(g, s, ReceiveStep(g, s));
  }

  // ---------------------------------------------------------------- AAServer

  lemma ReadKeepsInv(g: Config, s: System)
    requires Proper(g) && SystemInv(g, s) && Enabled(g, s, ServerRead)
    ensures SystemInv(g, ReadStep(g, s))
  {
    var ps := Packets(g.table, s.client.out);
    ClientOut(g, s);
    CarriedRead(Reader(g.table), ps, s.socket, s.read, s.server, s.relayed);
    var m := FromSocket(g.table, s.socket[0]);
    assert PacketOk(g.table, ps[s.read]);
    if m.Some? {
      assert m.value in OneAccepted(g.table, ps[s.read]);
      QueueKeepsInv(g.headTls, SERVER_LIMIT, s.server, s.relayed, m.value, true);
    }
  }

  lemma OtherKeepsInv(g: Config, s: System, m: Message)
    requires Proper(g) && SystemInv(g, s) && WellFormed(m)
    ensures SystemInv(g, s.(server := Enqueue(s.server, m), relayed := s.relayed + [false]))
  {
    QueueKeepsInv(g.headTls, SERVER_LIMIT, s.server, s.relayed, m, false);
  }

  lemma ServerDrainKeepsInv(g: Config, s: System)
    requires Proper(g) && SystemInv(g, s)
    ensures SystemInv(g, s.(server := Drain(g.headTls, SERVER_LIMIT, s.server)))
  {
    DrainKeepsInv(g.headTls, SERVER_LIMIT, s.server);
  }

  // ---------------------------------------------------------------- the phone

  lemma PhoneSendKeepsInv(g: Config, s: System, m: Message)
    requires Proper(g) && SystemInv(g, s) && FromPhone(g.table, m)
    ensures SystemInv(g, s.(phone := Enqueue(s.phone, m)))
  {
    EnqueueKeepsInv(g.phoneTls, g.phoneLimit, s.phone, m);
  }

  lemma DrainExtends(c: Cipher, limit: nat, s: Tx, n: nat)
    requires 0 < limit && Inv(c, limit, s) && n <= |s.frames|
    ensures var t := Drain(c, limit, s);
            n <= |t.frames| && t.frames[..n] == s.frames[..n] && t.sent == s.sent
  {
  }

  lemma PhoneDrainKeepsInv(g: Config, s: System)
    requires Proper(g) && SystemInv(g, s)
    ensures SystemInv(g, s.(phone := Drain(g.phoneTls, g.phoneLimit, s.phone)))
    ensures Drain(g.phoneTls, g.phoneLimit, s.phone).sent == s.phone.sent
  {
    DrainKeepsInv(g.phoneTls, g.phoneLimit, s.phone);
    DrainExtends(g.phoneTls, g.phoneLimit, s.phone, s.taken);
  }

  // ---------------------------------------------------------------- runs

  ghost function PhoneDrained(g: Config, s: System): (t: System)
    requires Proper(g) && SystemInv(g, s)
    ensures SystemInv(g, t) && t.phone.sent == s.phone.sent && t.phone == Drain(g.phoneTls, g.phoneLimit, s.phone)
    ensures t.taken == s.taken && t.read == s.read && t.server == s.server
  {
    PhoneDrainKeepsInv(g, s);
    s.(phone := Drain(g.phoneTls, g.phoneLimit, s.phone))
  }

  ghost function ServerDrained(g: Config, s: System): (t: System)
    requires Proper(g) && SystemInv(g, s)
    ensures SystemInv(g, t) && t.phone == s.phone && t.server == Drain(g.headTls, SERVER_LIMIT, s.server)
    ensures t.taken == s.taken && t.read == s.read
  {
    ServerDrainKeepsInv(g, s);
    s.(server := Drain(g.headTls, SERVER_LIMIT, s.server))
  }

  ghost function Sent(g: Config, s: System, m: Message): (t: System)
    requires Proper(g) && SystemInv(g, s) && FromPhone(g.table, m)
    ensures SystemInv(g, t) && t.phone.sent == s.phone.sent + [m]
  {
    PhoneSendKeepsInv(g, s, m);
    s.(phone := Enqueue(s.phone, m))
  }

  ghost function OtherSent(g: Config, s: System, m: Message): (t: System)
    requires Proper(g) && SystemInv(g, s) && WellFormed(m)
    ensures SystemInv(g, t) && t.phone == s.phone
  {
    OtherKeepsInv(g, s, m);
    s.(server := Enqueue(s.server, m), relayed := s.relayed + [false])
  }

  ghost function Taken(g: Config, s: System): (t: System)
    requires Proper(g) && SystemInv(g, s) && Enabled(g, s, ClientReceive)
    ensures SystemInv(g, t) && t.phone == s.phone && t == ReceiveStep(g, s)
  {
    ReceiveKeepsInv(g, s);
    ReceiveStep(g, s)
  }

  ghost function ReadOne(g: Config, s: System): (t: System)
    requires Proper(g) && SystemInv(g, s) && Enabled(g, s, ServerRead)
    ensures SystemInv(g, t) && t.phone == s.phone && t == ReadStep(g, s)
  {
    ReadKeepsInv(g, s);
    ReadStep(g, s)
  }

  function SentBy(table: Table, a: Action): seq<Message> {
    if a.PhoneSend? && FromPhone(table, a.m) then [a.m] else []
  }

  ghost function Step(g: Config, s: System, a: Action): (t: System)
    requires Proper(g) && SystemInv(g, s)
    ensures SystemInv(g, t)
    ensures t.phone.sent == s.phone.sent + SentBy(g.table, a)
  {
    if !Enabled(g, s, a) then s
    else match a
      case PhoneSend(m) => Sent(g, s, m)
      case PhoneDrain => PhoneDrained(g, s)
      case ClientReceive => Taken(g, s)
      case ServerRead => ReadOne(g, s)
      case OtherSend(m) => OtherSent(g, s, m)
      case ServerDrain => ServerDrained(g, s)
  }

  /** What the phone has sent. */
  function PhoneSends(table: Table, run: seq<Action>): seq<Message> {
    if run == [] then [] else PhoneSends(table, run[..|run| - 1]) + SentBy(table, run[|run| - 1])
  }

  ghost function Exec(g: Config, run: seq<Action>): (s: System)
    requires Proper(g)
    ensures SystemInv(g, s) && s.phone.sent == PhoneSends(g.table, run)
  {
    InvStart(g.phoneTls, g.phoneLimit);
    InvStart(g.headTls, SERVER_LIMIT);
    if run == [] then START else Step(g, Exec(g, run[..|run| - 1]), run[|run| - 1])
  }

  /** Nothing is on its way any more. */
  predicate Settled(s: System) {
    s.phone.queue == [] && s.taken == |s.phone.frames| && s.socket == [] && s.server.queue == []
  }

  /** The headunit after `n` of AAServer's frames, or all if there are fewer. */
  function HeadRx(g: Config, s: System, n: nat): Rx {
    Receive(g.headTls, RX_START, s.server.frames[..Min(n, |s.server.frames|)])
  }

  function HeadOut(g: Config, s: System, n: nat): seq<Message> { HeadRx(g, s, n).out }

  /**
   End-to-end transparency: in every run, whatever else AAServer and the phone send in between, the
   headunit never fails on AAServer's frames, and the messages from the phone that it has received
   are the first ones of those that the phone has sent through the proxy, in order and as forwarded.
   */
  lemma Transparent(g: Config, run: seq<Action>, n: nat)
    requires Proper(g)
    ensures var s := Exec(g, run);
            && !HeadRx(g, s, n).failed
            && |HeadOut(g, s, n)| <= |s.relayed|
            && Marked(HeadOut(g, s, n), s.relayed) <= Forwarded(g.table, PhoneSends(g.table, run))
  {
    var s := Exec(g, run);
    OutOfSent(g.headTls, SERVER_LIMIT, s.server, Min(n, |s.server.frames|));
    ClientOut(g, s);
    MarkedOfSent(Reader(g.table), Packets(g.table, s.client.out), Packets(g.table, s.phone.sent), s.socket, s.read, s.server, s.relayed,
                  HeadOut(g, s, n));
    AcceptedPackets(g.table, s.phone.sent);
  }

  /** The headunit has completed everything that AAServer queued, and in it all that the phone sent through. */
  predicate AllArrived(g: Config, s: System, phoneSends: seq<Message>) {
    var out := HeadOut(g, s, |s.server.frames|);
    |out| == |s.relayed| && Marked(out, s.relayed) == Forwarded(g.table, phoneSends)
  }

  /** Once everything has settled the headunit has received everything. */
  lemma TransparentInTheEnd(g: Config, run: seq<Action>)
    requires Proper(g)
    ensures var s := Exec(g, run); Settled(s) ==> AllArrived(g, s, PhoneSends(g.table, run))
  {
    var s := Exec(g, run);
    if Settled(s) {
      QueueEmptied(g.headTls, SERVER_LIMIT, s.server);
      QueueEmptied(g.phoneTls, g.phoneLimit, s.phone);
      AcceptedPackets(g.table, s.phone.sent);
      AllRead(Packets(g.table, s.client.out), s.read);
    }
  }
}
