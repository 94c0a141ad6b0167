/**
 The two ends of the video channel as handlers of byte messages: AAServer's `VideoChannelHandler`
 (with its base class) towards the headunit, AAClient's towards the phone.
 */
module VideoHandlers {
  import opened Utils
  import opened Messages
  import opened ChannelHandlers

  /** Serialized protobuf contents, whose bytes do not matter here. */
  datatype Payloads = Payloads(openRequest: Bytes, setupResponse: Bytes)

  function OpenRequest(p: Payloads): (m: Bytes)
    ensures |m| >= 2 && TypeOf(m) == CHANNEL_OPEN_REQUEST && m == [0, 7] + p.openRequest
  {
    Typed(CHANNEL_OPEN_REQUEST, p.openRequest)
  }

  function SetupRequest(): (m: Bytes)
    ensures |m| >= 2 && TypeOf(m) == SETUP_REQUEST && m == [0x80, 0, 8, 3]
  {
    Typed(SETUP_REQUEST, [8, 3])
  }

  function SetupResponse(p: Payloads): (m: Bytes)
    ensures |m| >= 2 && TypeOf(m) == SETUP_RESPONSE && m == [0x80, 3] + p.setupResponse
  {
    Typed(SETUP_RESPONSE, p.setupResponse)
  }

  function VideoFocus(): (m: Bytes)
    ensures |m| >= 2 && TypeOf(m) == VIDEO_FOCUS && m == [0x80, 8, 8, 1, 16, 0]
  {
    Typed(VIDEO_FOCUS, [8, 1, 16, 0])
  }

  function StartIndication(): (m: Bytes)
    ensures |m| >= 2 && TypeOf(m) == START && m == [0x80, 1, 8, 0, 16, 0]
  {
    Typed(START, [8, 0, 16, 0])
  }

  function Ack(): (m: Bytes)
    ensures |m| >= 2 && TypeOf(m) == MEDIA_ACK && m == [0x80, 4, 8, 0, 16, 1]
  {
    Typed(MEDIA_ACK, [8, 0, 16, 1])
  }

  // ---------------------------------------------------------------- media

  /** `buffer->pts == -1`: the buffer has no time. */
  const NO_PTS: nat := TWO64 - 1

  /** An encoded video buffer; `pts` is a 64-bit number of nanoseconds. */
  datatype Sample = Sample(pts: nat, data: Bytes)

  predicate ValidSample(s: Sample) { s.pts < TWO64 }

  /** `new_sample`: the message built for a buffer. */
  function MediaMessage(s: Sample): Bytes {
    if s.pts == NO_PTS then Int16(MEDIA) + s.data
    else Int16(MEDIA_WITH_TIMESTAMP) + Int64(s.pts / 1000) + s.data
  }

  /** A buffer pushed into the client's pipeline number `pipe`; a zero time is not set on it. */
  datatype Buffer = Buffer(pipe: nat, ts: Option<nat>, data: Bytes)

  const HEADSTART: nat := 100_000

  function Word(n: int): (w: nat)
    ensures w < TWO64
  {
    n % TWO64
  }

  /** `startTimestamp` after a timestamped frame, and the frame's local time in nanoseconds. */
  function Rebase(start: nat, ts: nat): (nat, nat) {
    var start' := if start == 0 then Word(ts - HEADSTART) else start;
    (start', Word(Word(ts - start') * 1000))
  }

  function TimeOf(ts: nat): Option<nat> { if ts == 0 then None else Some(ts) }

  // ---------------------------------------------------------------- AAClient: the responder

  /**
   `startTimestamp`, and how many pipelines `createAppSource` has made. Each makes `app_source` the
   source of a new one; before the first `app_source` points nowhere.
   */
  datatype Client = Client(start: nat, pipes: nat)

  const FRESH: Client := Client(0, 0)

  /** A time and data pushed into the current pipeline, if there is one. */
  function Push(c: Client, ts: nat, data: Bytes): Option<Buffer> {
    if c.pipes == 0 then None else Some(Buffer(c.pipes - 1, TimeOf(ts), data))
  }

  datatype ClientResult = ClientResult(client: Client, replies: seq<Bytes>, pushed: seq<Buffer>, handled: Result<bool>)

  const NO_SOURCE: string := "app_source has not been set"

  /** `Err` stands for an exception, and for the use of `app_source` before it has been set. */
  function ClientHandle(p: Payloads, c: Client, data: Bytes): ClientResult
    requires |data| >= 2
  {
    var t := TypeOf(data);
    if t == CHANNEL_OPEN_REQUEST then ClientResult(c, [OpenResponse()], [], Ok(true))
    else if t == SETUP_REQUEST then ClientResult(c, [SetupResponse(p), VideoFocus()], [], Ok(true))
    else if t == START then ClientResult(c, [], [], Ok(true))
    else if t == MEDIA then
      ClientResult(c.(pipes := c.pipes + 1), [Ack()], [Buffer(c.pipes, None, data[2..])], Ok(true))
    else if t == MEDIA_WITH_TIMESTAMP then
      var ts := BytesToUInt64(data, 2);
      if ts.Err? then ClientResult(c, [], [], Err(ts.message))
      else
        var (start, time) := Rebase(c.start, ts.value);
        var b := Push(c, time, data[10..]);
        if b.None? then ClientResult(c.(start := start), [], [], Err(NO_SOURCE))
        else ClientResult(c.(start := start), [Ack()], [b.value], Ok(true))
    else ClientResult(c, [], [], Ok(false))
  }

  /**
   Which messages are handled and how they are answered: a message with a time needs eight bytes for it and a
   source to push to; a message of another type has no effect at all.
   */
  lemma ClientHandles(p: Payloads, c: Client, data: Bytes)
    requires |data| >= 2
    ensures var r := ClientHandle(p, c, data);
            var t := TypeOf(data);
            && (r.handled == Ok(false) <==> t !in {7, 0, 1, 0x8000, 0x8001})
            && (r.handled.Err? <==> t == 0 && (|data| < 10 || c.pipes == 0))
            && (r.handled == Ok(false) ==> r.client == c)
            && (r.handled != Ok(true) || t in {7, 0x8000, 0x8001} ==> r.client.pipes == c.pipes && r.pushed == [])
            && r.replies == (if r.handled != Ok(true) || t == 0x8001 then []
                             else if t == 7 then [[0, 8, 8, 0]]
                             else if t == 0x8000 then [[0x80, 3] + p.setupResponse, [0x80, 8, 8, 1, 16, 0]]
                             else [[0x80, 4, 8, 0, 16, 1]])
            && (r.handled == Ok(true) && t in {0, 1} ==>
                  |r.pushed| == 1 && r.pushed[0].data == data[if t == 0 then 10 else 2..])
  {
  }

  class ClientVideoHandler {
    const payloads: Payloads
    var startTimestamp: nat
    var app_source: Option<nat>
    var pipelines: nat
    var toMobile: seq<Bytes>
    var pushed: seq<Buffer>

    constructor (payloads: Payloads)
      ensures Valid() && Abs() == FRESH && toMobile == [] && pushed == [] && this.payloads == payloads
    {
      this.payloads, startTimestamp, toMobile, pushed := payloads, 0, [], [];
      app_source, pipelines := None, 0;
    }

    /** The source, once there is one, feeds the pipeline made last. */
    ghost predicate Valid()
      reads this
    {
      startTimestamp < TWO64 && app_source == if pipelines == 0 then None else Some(pipelines - 1)
    }

    ghost function Abs(): Client
      reads this
    {
      Client(startTimestamp, pipelines)
    }

    method CreateAppSource()
      requires Valid()
      modifies this`app_source, this`pipelines
      ensures Valid() && pipelines == old(pipelines) + 1
    {
      app_source := Some(pipelines);
      pipelines := pipelines + 1;
    }

    /** `false` when there is no source to push into. */
    method PushDataToPipeline(ts: nat, data: Bytes) returns (ok: bool)
      requires Valid()
      modifies this`pushed
      ensures Valid()
      ensures var b := Push(Abs(), ts, data);
              ok == b.Some? && pushed == if b.Some? then old(pushed) + [b.value] else old(pushed)
    {
      if app_source == None {
        return false;
      }
      var buffer := Buffer(app_source.value, None, data);
      if ts != 0 {
        buffer := buffer.(ts := Some(ts));
      }
      pushed := pushed + [buffer];
      ok := true;
    }

    /** Its branch for media with a time. */
    method HandleTimestamped(data: Bytes) returns (handled: Result<bool>)
      requires Valid() && |data| >= 2 && TypeOf(data) == MEDIA_WITH_TIMESTAMP
      modifies this`startTimestamp, this`pushed, this`toMobile
      ensures Valid()
      ensures var r := ClientHandle(payloads, old(Abs()), data);
              && Abs() == r.client && handled == r.handled
              && toMobile == old(toMobile) + r.replies && pushed == old(pushed) + r.pushed
    {
      var ts := BytesToUInt64(data, 2);
      if ts.Err? {
        return Err(ts.message);
      }
      if startTimestamp == 0 {
        startTimestamp := Word(ts.value - HEADSTART);
      }
      var localTs := Word(ts.value - startTimestamp);
      var ok := PushDataToPipeline(Word(localTs * 1000), data[10..]);
      if !ok {
        return Err(NO_SOURCE);
      }
      toMobile := toMobile + [Ack()];
      handled := Ok(true);
    }

    /** `handleMessageFromMobile`; `Ok(false)` is an unhandled message. */
    method HandleMessageFromMobile(data: Bytes) returns (handled: Result<bool>)
      requires Valid() && |data| >= 2
      modifies this
      ensures Valid()
      ensures var r := ClientHandle(payloads, old(Abs()), data);
              && Abs() == r.client && handled == r.handled
              && toMobile == old(toMobile) + r.replies && pushed == old(pushed) + r.pushed
    {
      var msgType := ToInt16(data);
      if msgType == CHANNEL_OPEN_REQUEST {
        toMobile := toMobile + [OpenResponse()];
        return Ok(true);
      } else if msgType == SETUP_REQUEST {
        toMobile := toMobile + [SetupResponse(payloads)];
        toMobile := toMobile + [VideoFocus()];
        return Ok(true);
      } else if msgType == START {
        return Ok(true);
      } else if msgType == MEDIA {
        CreateAppSource();
        var ok := PushDataToPipeline(0, data[2..]);
        assert ok;
        toMobile := toMobile + [Ack()];
        return Ok(true);
      } else if msgType == MEDIA_WITH_TIMESTAMP {
        handled := HandleTimestamped(data);
        return;
      }
      return Ok(false);
    }
  }

  // ---------------------------------------------------------------- AAServer: the initiator

  datatype ServerFlags = ServerFlags(channelOpened: bool, gotOpen: bool, gotSetup: bool)

  datatype ServerResult = ServerResult(flags: ServerFlags, replies: seq<Bytes>, forwarded: seq<Bytes>, handled: bool)

  function ServerHandle(f: ServerFlags, data: Bytes): ServerResult
    requires |data| >= 2
  {
    var t := TypeOf(data);
    if !f.channelOpened then ServerResult(f, [], [data], true)
    else if t == CHANNEL_OPEN_RESPONSE then ServerResult(f.(gotOpen := true), [], [], true)
    else if t == SETUP_RESPONSE then ServerResult(f.(gotSetup := true), [], [], true)
    else if t == VIDEO_FOCUS then ServerResult(f, [StartIndication()], [], true)
    else ServerResult(f, [], [], t == MEDIA_ACK)
  }

  /**
   A channel that AAServer has not opened is passed on to socket clients unseen; on one that it has opened four
   types are handled, each in its own way, and a message of another type has no effect at all.
   */
  lemma ServerHandles(f: ServerFlags, data: Bytes)
    requires |data| >= 2
    ensures var r := ServerHandle(f, data);
            var t := TypeOf(data);
            && r.forwarded == (if f.channelOpened then [] else [data])
            && (r.handled <==> f.channelOpened ==> t in {8, 0x8003, 0x8004, 0x8008})
            && r.flags.channelOpened == f.channelOpened
            && (r.flags.gotOpen <==> f.gotOpen || (f.channelOpened && t == 8))
            && (r.flags.gotSetup <==> f.gotSetup || (f.channelOpened && t == 0x8003))
            && r.replies == (if f.channelOpened && t == 0x8008 then [[0x80, 1, 8, 0, 16, 0]] else [])
  {
  }

  class ServerVideoHandler {
    const payloads: Payloads
    const base: ChannelHandler
    var channelOpened: bool
    var gotSetupResponse: bool
    var toHeadunit: seq<Bytes>
    var toClients: seq<Bytes>

    constructor (payloads: Payloads)
      ensures !channelOpened && toHeadunit == [] && toClients == [] && this.payloads == payloads && fresh(base)
    {
      this.payloads, channelOpened, toHeadunit, toClients := payloads, false, [], [];
      base := new ChannelHandler();
    }

    ghost function Flags(): ServerFlags
      reads this, base
    {
      ServerFlags(channelOpened, base.gotChannelOpenResponse, gotSetupResponse)
    }

    method HandleMessageFromHeadunit(data: Bytes) returns (messageHandled: bool)
      requires |data| >= 2
      modifies this, base
      ensures var r := ServerHandle(old(Flags()), data);
              && Flags() == r.flags && messageHandled == r.handled
              && toHeadunit == old(toHeadunit) + r.replies && toClients == old(toClients) + r.forwarded
    {
      if !channelOpened {
        toClients := toClients + [data];
        return true;
      }
      var baseHandled := base.HandleMessageFromHeadunit(data);
      if baseHandled {
        return true;
      }
      messageHandled := false;
      var messageType := ToInt16(data);
      if messageType == SETUP_RESPONSE {
        gotSetupResponse := true;
        messageHandled := true;
      } else if messageType == VIDEO_FOCUS {
        toHeadunit := toHeadunit + [StartIndication()];
        messageHandled := true;
      } else if messageType == MEDIA_ACK {
        messageHandled := true;
      }
    }

    /** The end of `new_sample`: the message for a buffer is built by appending and sent. */
    method SendSample(s: Sample)
      requires ValidSample(s)
      modifies this`toHeadunit
      ensures toHeadunit == old(toHeadunit) + [MediaMessage(s)]
    {
      var msgToHeadunit := [];
      if s.pts == NO_PTS {
        msgToHeadunit := msgToHeadunit + Int16(MEDIA);
      } else {
        msgToHeadunit := msgToHeadunit + Int16(MEDIA_WITH_TIMESTAMP);
        msgToHeadunit := msgToHeadunit + Int64(s.pts / 1000);
      }
      msgToHeadunit := msgToHeadunit + s.data;
      assert msgToHeadunit == MediaMessage(s);
      toHeadunit := toHeadunit + [msgToHeadunit];
    }
  }

  // ---------------------------------------------------------------- messages as their receivers see them

  /**
   The client takes out of a media message exactly the microseconds and the data put in, and pushes
   them with one acknowledgement; only a time needs a pipeline to exist already.
   */
  lemma MediaRoundTrip(p: Payloads, c: Client, s: Sample)
    requires ValidSample(s)
    ensures |MediaMessage(s)| >= 2
    ensures TypeOf(MediaMessage(s)) == if s.pts == NO_PTS then MEDIA else MEDIA_WITH_TIMESTAMP
    ensures ClientHandle(p, c, MediaMessage(s)) ==
            if s.pts == NO_PTS then
              ClientResult(c.(pipes := c.pipes + 1), [Ack()], [Buffer(c.pipes, None, s.data)], Ok(true))
            else
              var (start, time) := Rebase(c.start, s.pts / 1000);
              if c.pipes == 0 then ClientResult(c.(start := start), [], [], Err(NO_SOURCE))
              else ClientResult(c.(start := start), [Ack()], [Buffer(c.pipes - 1, TimeOf(time), s.data)], Ok(true))
  {
    var m := MediaMessage(s);
    if s.pts == NO_PTS {
      Int16RoundTrip(MEDIA);
      assert m[2..] == s.data;
    } else {
      Int16RoundTrip(MEDIA_WITH_TIMESTAMP);
      Int64RoundTrip(Int16(MEDIA_WITH_TIMESTAMP), s.pts / 1000, s.data);
      assert m[10..] == s.data;
    }
  }
}
