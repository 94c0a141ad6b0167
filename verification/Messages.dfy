/**
 Message contents: a big-endian 16-bit type (enums.h) and what follows.
 */
module Messages {
  import opened Utils

  // MessageType
  const VERSION_REQUEST: nat := 1
  const VERSION_RESPONSE: nat := 2
  const SSL_HANDSHAKE: nat := 3
  const AUTH_COMPLETE: nat := 4
  const SERVICE_DISCOVERY_REQUEST: nat := 5
  const SERVICE_DISCOVERY_RESPONSE: nat := 6
  const CHANNEL_OPEN_REQUEST: nat := 7
  const CHANNEL_OPEN_RESPONSE: nat := 8
  const PING_REQUEST: nat := 0x0b
  const PING_RESPONSE: nat := 0x0c
  const NAVIGATION_FOCUS_REQUEST: nat := 0x0d
  const NAVIGATION_FOCUS_RESPONSE: nat := 0x0e
  const VOICE_SESSION_REQUEST: nat := 0x11
  const AUDIO_FOCUS_REQUEST: nat := 0x12
  const AUDIO_FOCUS_RESPONSE: nat := 0x13

  // MediaMessageType
  const MEDIA_WITH_TIMESTAMP: nat := 0
  const MEDIA: nat := 1
  const SETUP_REQUEST: nat := 0x8000
  const START: nat := 0x8001
  const SETUP_RESPONSE: nat := 0x8003
  const MEDIA_ACK: nat := 0x8004
  const VIDEO_FOCUS: nat := 0x8008

  // InputChannelMessageType
  const INPUT_EVENT: nat := 0x8001
  const HANDSHAKE_REQUEST: nat := 0x8002
  const HANDSHAKE_RESPONSE: nat := 0x8003

  function TypeOf(data: Bytes): nat
    requires |data| >= 2
  {
    ToInt16(data)
  }

  /** A content of the given type. */
  function Typed(t: nat, rest: Bytes): (m: Bytes)
    requires t < 0x1_0000
    ensures |m| >= 2 && TypeOf(m) == t
  {
    Int16RoundTrip(t);
    Int16(t) + rest
  }

  /** The types of the phone's messages on channel 0 that AAClient forwards. */
  const FORWARDED: set<nat> := {AUDIO_FOCUS_REQUEST, NAVIGATION_FOCUS_REQUEST, VOICE_SESSION_REQUEST}

  function OpenResponse(): (m: Bytes)
    ensures |m| >= 2 && TypeOf(m) == CHANNEL_OPEN_RESPONSE && m == [0, 8, 8, 0]
  {
    Typed(CHANNEL_OPEN_RESPONSE, [8, 0])
  }

  function DiscoveryResponse(descriptor: Bytes): (m: Bytes)
    ensures m == [0, 6] + descriptor
  {
    Int16(SERVICE_DISCOVERY_RESPONSE) + descriptor
  }
}
