/**
 The frame format both programs speak: a channel byte, a flags byte, a 16-bit length, a 32-bit
 total length on first frames only, and a body that is one TLS record when the frame is
 encrypted. Sending side: the two `getMessage`/`prepareMessage` encoders. Receiving side: the
 body of AAClient's reassembly loop.
 */
module Framing {
  import opened Utils

  type Flags = bv8

  // enums.h
  const ENCRYPTED: Flags := 8
  const FIRST: Flags := 1
  const LAST: Flags := 2
  const BULK: Flags := 3
  const SPECIFIC: Flags := 4

  datatype Message = Message(channel: byte, flags: Flags, content: Bytes, offset: nat) {
    predicate Encrypted() { flags & ENCRYPTED != 0 }
  }

  /**
   What every caller of `sendMessage` provides: both frame bits, offset zero, an encrypted
   content that is not empty and whose length fits a signed 32-bit `int`, a plain content whose
   length fits the 16-bit length field.
   */
  predicate WellFormed(m: Message) {
    && m.offset == 0
    && m.flags & BULK == BULK
    && (m.Encrypted() ==> 0 < |m.content| < 0x8000_0000)
    && (!m.Encrypted() ==> |m.content| < 0x1_0000)
  }

  /** Encrypted, in one piece, and Specific or not; no other bit is set. */
  predicate Whole(flags: Flags, specific: bool) {
    flags & !SPECIFIC == ENCRYPTED | BULK && (flags & SPECIFIC != 0 <==> specific)
  }

  // ---------------------------------------------------------------- cipher

  /** The largest plaintext of one record (section 6.2.1 of RFC 5246). */
  const MAX_RECORD: nat := 16384

  /** Record header (5), compression (1024) and protection (1024): sections 6.2.1 to 6.2.3 of RFC 5246. */
  const MAX_EXPANSION: nat := 2053

  /**
   The two directions of one TLS connection: the k-th `SSL_write` turns its argument into
   `seal(k, _)`, the k-th `SSL_read` turns a record into `open(k, _)` or fails.
   */
  datatype Cipher = Cipher(seal: (nat, Bytes) -> Bytes, open: (nat, Bytes) -> Option<Bytes>)

  /** The only facts about TLS used here: in-order decryption inverts encryption, bounded growth. */
  ghost predicate Sound(c: Cipher) {
    forall k: nat, x: Bytes {:trigger c.seal(k, x)} :: |x| <= MAX_RECORD ==>
      c.open(k, c.seal(k, x)) == Some(x) && |c.seal(k, x)| <= |x| + MAX_EXPANSION
  }

  /** The assumptions on the cipher can be met. */
  lemma SoundCipherExists() returns (c: Cipher)
    ensures Sound(c)
  {
    c := Cipher((k, x) => x, (k, y) => Some(y));
  }

  // ---------------------------------------------------------------- one frame

  /** A frame on its way out: the header fields and the piece of content it carries. */
  datatype Piece = Piece(channel: byte, flags: Flags, data: Bytes, total: nat) {
    predicate Encrypted() { flags & ENCRYPTED != 0 }
    predicate First() { flags & BULK == FIRST }
  }

  function Body(c: Cipher, k: nat, p: Piece): Bytes {
    if p.Encrypted() then c.seal(k, p.data) else p.data
  }

  function Header(p: Piece, length: nat): (h: Bytes) {
    [p.channel, p.flags as byte] + Int16(length) +
    (if p.Encrypted() && p.First() then Int32(p.total) else [])
  }

  /** The bytes handed to USB for a piece that becomes the k-th record. */
  function Frame(c: Cipher, k: nat, p: Piece): Bytes {
    var body := Body(c, k, p);
    Header(p, |body|) + body
  }

  // ---------------------------------------------------------------- reassembly

  /**
   The receiver between two bulk transfers: the messages completed so far, the content and total
   length collected for the next one, and the number of records decrypted.
   */
  datatype Rx = Rx(out: seq<Message>, acc: Bytes, total: nat, decrypted: nat, failed: bool)

  const RX_START := Rx([], [], 0, 0, false)

  /** `int totalLength` compared as an unsigned 64-bit number. */
  function AsUnsigned(total: nat): nat {
    if total < 0x8000_0000 then total else total + 0xFFFF_FFFF_0000_0000
  }

  /** The content of one frame is appended; the message is complete when it reaches the total. */
  function Accept(r: Rx, channel: byte, flags: Flags, total: nat, data: Bytes): Rx {
    var acc := r.acc + data;
    if |acc| < total then r.(acc := acc, total := total)
    else r.(out := r.out + [Message(channel, flags | BULK, acc, 0)], acc := [], total := 0)
  }

  /** One turn of the reassembly loop on the bytes of one bulk transfer. */
  function RxStep(c: Cipher, r: Rx, frame: Bytes): Rx {
    if r.failed || |frame| < 4 then r.(failed := true)
    else
      var flags := frame[1] as Flags;
      var first := flags & BULK == FIRST;
      var offset := if first then 8 else 4;
      if |frame| < offset || ToInt16(frame[2..]) != |frame| - offset then r.(failed := true)
      else
        var body := frame[offset..];
        var total := if first then AsUnsigned(ToInt32(frame[4..])) else r.total;
        if flags & ENCRYPTED == 0 then Accept(r, frame[0], flags, total, body)
        else
          var plain := c.open(r.decrypted, body);
          if plain.None? then r.(failed := true)
          else Accept(r.(decrypted := r.decrypted + 1), frame[0], flags, total, plain.value)
  }

  /** The receiver after a sequence of bulk transfers. */
  function Receive(c: Cipher, r: Rx, frames: seq<Bytes>): Rx {
    if frames == [] then r
    else RxStep(c, Receive(c, r, frames[..|frames| - 1]), frames[|frames| - 1])
  }

  lemma ReceiveOneMore(c: Cipher, r: Rx, frames: seq<Bytes>, f: Bytes)
    ensures Receive(c, r, frames + [f]) == RxStep(c, Receive(c, r, frames), f)
  {
    assert (frames + [f])[..|frames|] == frames;
  }

  /** Where the parts of a frame lie. */
  lemma FrameLayout(p: Piece, body: Bytes)
    requires p.total < 0x1_0000_0000
    ensures var f := Header(p, |body|) + body;
            && |f| == (if p.Encrypted() && p.First() then 8 else 4) + |body|
            && f[0] == p.channel && f[1] == p.flags as byte
            && ToInt16(f[2..]) == |body| % 0x1_0000
            && (p.Encrypted() && p.First() ==> ToInt32(f[4..]) == p.total && f[8..] == body)
            && (!(p.Encrypted() && p.First()) ==> f[4..] == body)
  {
    var f := Header(p, |body|) + body;
    assert f[2..][..2] == Int16(|body|);
    Int16RoundTrip(|body|);
    if p.Encrypted() && p.First() {
      assert f[4..][..4] == Int32(p.total);
      Int32RoundTrip(p.total);
    }
  }

  lemma FlagsByte(f: Flags)
    ensures 0 <= f as int < 256 && (f as int) as Flags == f
  {
  }

  /** Which pieces the encoders produce: one record, or a plain piece that is not a first frame. */
  predicate Sendable(p: Piece) {
    && p.total < 0x8000_0000
    && (p.Encrypted() ==> |p.data| <= MAX_RECORD)
    && (!p.Encrypted() ==> |p.data| < 0x1_0000 && !p.First())
  }

  /** The bytes of a frame lead the receiver to accept exactly the piece they were made from. */
  lemma FrameAccepted(c: Cipher, r: Rx, p: Piece)
    requires Sound(c) && Sendable(p) && !r.failed
    ensures RxStep(c, r, Frame(c, r.decrypted, p)) ==
            Accept(r.(decrypted := r.decrypted + if p.Encrypted() then 1 else 0), p.channel, p.flags,
                   if p.First() then p.total else r.total, p.data)
  {
    FrameLayout(p, Body(c, r.decrypted, p));
    FlagsByte(p.flags);
  }

  /** The buffers that records are read back into, encrypted and decrypted. */
  const RECORD_BUFFER: nat := 20000

  /**
   Every frame fits its length field, the encoders' record buffer and the receive buffers, and what
   its record decrypts to fits AAClient's `plainBuf`.
   */
  lemma FrameFits(c: Cipher, k: nat, p: Piece)
    requires Sound(c) && Sendable(p)
    ensures var f := Frame(c, k, p);
            var header := if p.First() then 8 else 4;
            && |f| >= header && ToInt16(f[2..]) == |f| - header
            && |f| <= 100000 < 100 * 1024
            && (p.Encrypted() ==>
                  && |f| <= RECORD_BUFFER
                  && c.open(k, f[header..]) == Some(p.data) && |p.data| <= RECORD_BUFFER)
  {
    FrameLayout(p, Body(c, k, p));
  }
}
