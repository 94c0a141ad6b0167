/**
 The input channel's messages as bytes: AAClient's `InputChannelHandler`, which answers AAServer's
 requests, and how the handlers of both programs realise the steps of the protocol in InputLink.
 */
module InputHandlers {
  import opened Utils
  import opened Framing
  import opened Messages
  import opened InputLink
  import opened Hub
  import Routing

  /** What a handler of AAClient emits, in order. */
  datatype Signal = ToMobile(channel: byte, flags: Flags, data: Bytes) | ToServer(channel: byte, specific: bool, data: Bytes)

  function HandshakeResponse(): (m: Bytes)
    ensures |m| >= 2 && TypeOf(m) == HANDSHAKE_RESPONSE && m == [0x80, 3, 8, 0]
  {
    Typed(HANDSHAKE_RESPONSE, [8, 0])
  }

  /** What a message from the phone makes the handler emit, and whether it is handled. */
  function ClientInputHandle(channelId: byte, data: Bytes): (seq<Signal>, bool)
    requires |data| >= 2
  {
    if TypeOf(data) == CHANNEL_OPEN_REQUEST then
      ([ToMobile(channelId, ENCRYPTED | BULK | SPECIFIC, OpenResponse()), ToServer(channelId, false, [])], true)
    else if TypeOf(data) == HANDSHAKE_REQUEST then
      ([ToMobile(channelId, ENCRYPTED | BULK, HandshakeResponse())], true)
    else ([], false)
  }

  /** What the `channelMessage` slot writes to the socket for the signals to the server. */
  function Written(signals: seq<Signal>): seq<Bytes> {
    if signals == [] then []
    else
      var s := signals[0];
      (if s.ToServer? then [Routing.RawData(s.channel, s.specific, s.data)] else []) + Written(signals[1..])
  }

  /** What of the emitted signals goes to the phone. */
  function Replies(signals: seq<Signal>): seq<Bytes> {
    if signals == [] then []
    else (if signals[0].ToMobile? then [signals[0].data] else []) + Replies(signals[1..])
  }

  /** What is sent to the phone is for the handler's channel, encrypted, in one piece, and Specific just if it is an open response. */
  predicate SentWhole(s: Signal, channelId: byte) {
    s.ToMobile? ==>
      s.channel == channelId && |s.data| >= 2 && Whole(s.flags, TypeOf(s.data) == CHANNEL_OPEN_RESPONSE)
  }

  /**
   An open request is announced to the server by a packet of three bytes, and answered; a handshake
   request is answered; any other message is not handled and leads to nothing.
   */
  lemma InputSignals(channelId: byte, data: Bytes)
    requires |data| >= 2
    ensures var (signals, handled) := ClientInputHandle(channelId, data);
            var t := TypeOf(data);
            && (handled <==> t in {CHANNEL_OPEN_REQUEST, HANDSHAKE_REQUEST})
            && Written(signals) == (if t == CHANNEL_OPEN_REQUEST then [[1, channelId, 0]] else [])
            && Replies(signals) == (if t == CHANNEL_OPEN_REQUEST then [[0, 8, 8, 0]]
                                    else if t == HANDSHAKE_REQUEST then [[0x80, 3, 8, 0]] else [])
            && forall s :: s in signals ==> SentWhole(s, channelId)
  {
    var (signals, handled) := ClientInputHandle(channelId, data);
    if TypeOf(data) == CHANNEL_OPEN_REQUEST {
      assert signals[1..] == [ToServer(channelId, false, [])] && Written(signals[1..][1..]) == Replies(signals[1..][1..]) == [];
      assert Routing.RawData(channelId, false, []) == [1, channelId, 0];
    } else if TypeOf(data) == HANDSHAKE_REQUEST {
      assert Written(signals[1..]) == Replies(signals[1..]) == [];
    }
  }

  class ClientInputHandler {
    const channelId: byte
    var emitted: seq<Signal>

    constructor (channelId: byte)
      ensures this.channelId == channelId && emitted == []
    {
      this.channelId, emitted := channelId, [];
    }

    method SendChannelOpenResponse()
      modifies this`emitted
      ensures emitted == old(emitted) + [ToMobile(channelId, ENCRYPTED | BULK | SPECIFIC, OpenResponse())]
    {
      var msg := Int16(CHANNEL_OPEN_RESPONSE);
      msg := msg + [8];
      msg := msg + [0];
      assert msg == OpenResponse();
      emitted := emitted + [ToMobile(channelId, ENCRYPTED | BULK | SPECIFIC, msg)];
    }

    method SendHandshakeResponse()
      modifies this`emitted
      ensures emitted == old(emitted) + [ToMobile(channelId, ENCRYPTED | BULK, HandshakeResponse())]
    {
      var msg := Int16(HANDSHAKE_RESPONSE);
      msg := msg + [8];
      msg := msg + [0];
      assert msg == HandshakeResponse();
      emitted := emitted + [ToMobile(channelId, ENCRYPTED | BULK, msg)];
    }

    method HandleMessageFromMobile(data: Bytes) returns (handled: bool)
      requires |data| >= 2
      modifies this`emitted
      ensures (emitted, handled) == var (signals, h) := ClientInputHandle(channelId, data); (old(emitted) + signals, h)
      ensures |old(emitted)| <= |emitted|
      ensures Written(emitted[|old(emitted)|..]) == if TypeOf(data) == CHANNEL_OPEN_REQUEST then [[1, channelId, 0]] else []
      ensures Replies(emitted[|old(emitted)|..]) == (if TypeOf(data) == CHANNEL_OPEN_REQUEST then [[0, 8, 8, 0]]
                                                     else if TypeOf(data) == HANDSHAKE_REQUEST then [[0x80, 3, 8, 0]] else [])
      ensures handled <==> TypeOf(data) in {CHANNEL_OPEN_REQUEST, HANDSHAKE_REQUEST}
      ensures forall i :: |old(emitted)| <= i < |emitted| ==> SentWhole(emitted[i], channelId)
    {
      InputSignals(channelId, data);
      ghost var signals := ClientInputHandle(channelId, data).0;
      assert (emitted + signals)[|emitted|..] == signals;
      var msgType := ToInt16(data);
      if msgType == CHANNEL_OPEN_REQUEST {
        SendChannelOpenResponse();
        emitted := emitted + [ToServer(channelId, false, [])];
        assert emitted == old(emitted) + ClientInputHandle(channelId, data).0;
        return true;
      } else if msgType == HANDSHAKE_REQUEST {
        SendHandshakeResponse();
        return true;
      }
      assert emitted + [] == emitted;
      return false;
    }

    method HandleMessageFromServer(specific: bool, data: Bytes) returns (handled: bool)
      modifies this`emitted
      ensures handled
      ensures exists flags :: flags & !SPECIFIC == ENCRYPTED | BULK && (flags & SPECIFIC != 0 <==> specific)
                              && emitted == old(emitted) + [ToMobile(channelId, flags, data)]
    {
      var flags := ENCRYPTED | BULK;
      if specific {
        flags := flags | SPECIFIC;
      }
      assert flags & !SPECIFIC == ENCRYPTED | BULK && (flags & SPECIFIC != 0 <==> specific);
      emitted := emitted + [ToMobile(channelId, flags, data)];
      handled := true;
    }
  }

  // ---------------------------------------------------------------- bytes of the protocol's messages

  /** The serialized contents of the two requests, whose bytes do not matter here. */
  datatype Payloads = Payloads(openRequest: Bytes, handshake: Bytes)

  function RequestBytes(p: Payloads, m: ToHead): (b: Bytes)
    ensures b == if m.OpenReq? then [0, 7] + p.openRequest else [0x80, 2] + p.handshake
  {
    if m.OpenReq? then Typed(CHANNEL_OPEN_REQUEST, p.openRequest) else Typed(HANDSHAKE_REQUEST, p.handshake)
  }

  /** AAServer's handler sends these bytes. */
  lemma RequestsSent(h: ServerInputHandler, m: ToHead)
    ensures h.Request(m).content == RequestBytes(Payloads(h.openRequest, h.handshake), m)
  {
  }

  function ResponseBytes(m: FromHead): Bytes {
    match m
    case OpenResp => OpenResponse()
    case HandshakeResp => HandshakeResponse()
    case InputEvent(content) => content
  }

  predicate EventContent(content: Bytes) { |content| >= 2 && TypeOf(content) == INPUT_EVENT }

  /** AAClient answers the bytes of a request with exactly the bytes of the protocol's answer. */
  lemma HeadRealises(p: Payloads, channelId: byte, m: ToHead)
    ensures var (signals, handled) := ClientInputHandle(channelId, RequestBytes(p, m));
            handled && Replies(signals) == [ResponseBytes(Answer(m))]
  {
    var (signals, handled) := ClientInputHandle(channelId, RequestBytes(p, m));
    if m.OpenReq? {
      assert signals[1..] == [ToServer(channelId, false, [])] && Replies(signals[1..][1..]) == [];
    } else {
      assert Replies(signals[1..]) == [];
    }
  }

  /** AAServer's handler, on the bytes of a message: the flags after it, whether it is an event, whether it is handled. */
  function ServerInputHandle(gotOpen: bool, gotHandshake: bool, data: Bytes): (bool, bool, bool, bool)
    requires |data| >= 2
  {
    var t := TypeOf(data);
    if t == CHANNEL_OPEN_RESPONSE then (true, gotHandshake, false, true)
    else if t == HANDSHAKE_RESPONSE then (gotOpen, true, false, true)
    else (gotOpen, gotHandshake, t == INPUT_EVENT, t == INPUT_EVENT)
  }

  /** The bytes of every message of the protocol are handled, and lead to the protocol's step. */
  lemma ServerRealises(st: State)
    requires st.fromHead != [] && (st.fromHead[0].InputEvent? ==> EventContent(st.fromHead[0].content))
    ensures |ResponseBytes(st.fromHead[0])| >= 2
    ensures var (gotOpen, gotHandshake, isEvent, handled) :=
              ServerInputHandle(st.gotOpen, st.gotHandshake, ResponseBytes(st.fromHead[0]));
            var next := ServerStep(st);
            && handled && gotOpen == next.gotOpen && gotHandshake == next.gotHandshake
            && (isEvent <==> |next.handed| > |st.handed|)
  {
  }

  /** The method of AAServer's handler does what the function says, on every message. */
  method HandleAsSpecified(h: ServerInputHandler, data: Bytes, fates: Handle -> Fate) returns (handled: Result<bool>)
    requires |data| >= 2 && -1 !in h.registered_clients && forall c :: !fates(c).Broken?
    modifies h.base`gotChannelOpenResponse, h`gotHandshakeResponse, h.hub`inbox
    ensures var (gotOpen, gotHandshake, isEvent, ok) :=
              ServerInputHandle(old(h.base.gotChannelOpenResponse), old(h.gotHandshakeResponse), data);
            && h.base.gotChannelOpenResponse == gotOpen && h.gotHandshakeResponse == gotHandshake && handled == Ok(ok)
            && Handed(old(h.hub.inbox), h.hub.inbox, if isEvent then Targets(h.hub.clients, h.registered_clients) else {},
                      ToSocket(h.channelId, false, data), fates)
  {
    handled := h.HandleMessageFromHeadunit(data, fates);
  }
}
