/**
 AAClient's `getMessage`: the do-while loop that rebuilds one message from bulk transfers, and the
 loop around it in `setup`.
 */
module Reassembler {
  import opened Utils
  import opened Framing
  import opened SendQueue

  /** The receiver at the start of a `getMessage` call, `k` records after the handshake. */
  function Idle(k: nat): Rx { Rx([], [], 0, k, false) }

  lemma {:induction false} ReceiveAppend(c: Cipher, r: Rx, a: seq<Bytes>, b: seq<Bytes>)
    ensures Receive(c, r, a + b) == Receive(c, Receive(c, r, a), b)
  {
    if b == [] {
      assert a + b == a;
    } else {
      ReceiveAppend(c, r, a, b[..|b| - 1]);
      assert (a + b)[..|a + b| - 1] == a + b[..|b| - 1];
    }
  }

  lemma RxStepFrom(c: Cipher, r: Rx, before: seq<Message>, frame: Bytes)
    ensures var x := RxStep(c, r, frame);
            RxStep(c, r.(out := before + r.out), frame) == x.(out := before + x.out)
  {
  }

  /** What has been completed before does not influence what is completed later. */
  lemma {:induction false} ReceiveFrom(c: Cipher, r: Rx, frames: seq<Bytes>)
    ensures var x := Receive(c, r.(out := []), frames);
            Receive(c, r, frames) == x.(out := r.out + x.out)
  {
    if frames != [] {
      var front := frames[..|frames| - 1];
      ReceiveFrom(c, r, front);
      RxStepFrom(c, Receive(c, r.(out := []), front), r.out, frames[|frames| - 1]);
    }
  }

  /** Fewer than `n` of the transfers complete no message and are no failure. */
  predicate NothingBefore(c: Cipher, r: Rx, transfers: seq<Bytes>, n: nat)
    requires n <= |transfers|
  {
    forall i :: 0 <= i < n ==> var x := Receive(c, r, transfers[..i]); x.out == r.out && !x.failed
  }

  lemma OneTransfer(c: Cipher, r: Rx, transfers: seq<Bytes>, n: nat)
    requires n < |transfers| && NothingBefore(c, r, transfers, n)
    ensures transfers[n..][0] == transfers[n] && transfers[n..][1..] == transfers[n + 1..]
    ensures var x := Receive(c, r, transfers[..n]);
            && Receive(c, r, transfers[..n + 1]) == RxStep(c, x, transfers[n])
            && (x.out == r.out && !x.failed ==> NothingBefore(c, r, transfers, n + 1))
  {
    TakeOneMore(transfers, n);
    ReceiveOneMore(c, r, transfers[..n], transfers[n]);
  }

  lemma {:induction false} FailureStays(c: Cipher, r: Rx, frames: seq<Bytes>)
    requires r.failed
    ensures Receive(c, r, frames).failed
  {
    if frames != [] {
      FailureStays(c, r, frames[..|frames| - 1]);
    }
  }

  class Receiver {
    const cipher: Cipher
    var transfers: seq<Bytes>
    var recordsRead: nat

    constructor (cipher: Cipher, transfers: seq<Bytes>)
      ensures this.cipher == cipher && this.transfers == transfers && recordsRead == 0
    {
      this.cipher, this.transfers, this.recordsRead := cipher, transfers, 0;
    }

    /** `decryptMessage`: one record in, its content out. */
    method DecryptMessage(encryptedMsg: Bytes) returns (plain: Option<Bytes>)
      modifies this`recordsRead
      ensures plain == cipher.open(old(recordsRead), encryptedMsg)
      ensures recordsRead == old(recordsRead) + if plain.Some? then 1 else 0
    {
      plain := cipher.open(recordsRead, encryptedMsg);
      if plain.Some? {
        recordsRead := recordsRead + 1;
      }
    }

    predicate IsFirst(buffer: Bytes)
      requires |buffer| >= 4
    {
      buffer[1] as Flags & BULK == FIRST
    }

    /** What of a transfer follows the header. */
    function Carried(buffer: Bytes): Bytes
      requires |buffer| >= 4
    {
      if !IsFirst(buffer) then buffer[4..] else if |buffer| >= 8 then buffer[8..] else []
    }

    /** Too short for its header, not as long as announced, or not to be decrypted. */
    predicate Faulty(buffer: Bytes, k: nat) {
      || |buffer| < 4
      || (IsFirst(buffer) && |buffer| < 8)
      || ToInt16(buffer[2..]) != |Carried(buffer)|
      || (buffer[1] as Flags & ENCRYPTED != 0 && cipher.open(k, Carried(buffer)).None?)
    }

    /**
     The body of the loop: the content of one transfer is appended to what has been collected. A total of
     2^31 or more becomes a negative `int` and, compared as an unsigned number, is never reached.
     */
    method AppendTransfer(buffer: Bytes, collected: Bytes, total: nat)
      returns (error: Option<string>, channel: byte, flags: Flags, fullContent: Bytes, totalLength: nat)
      modifies this`recordsRead
      ensures var r := RxStep(cipher, Rx([], collected, total, old(recordsRead), false), buffer);
              if error.Some? then r.failed && r.out == []
              else if |fullContent| < totalLength then r == Rx([], fullContent, totalLength, recordsRead, false)
              else r == Rx([Message(channel, flags | BULK, fullContent, 0)], [], 0, recordsRead, false)
      ensures error.Some? <==> Faulty(buffer, old(recordsRead))
      ensures error.Some? ==> recordsRead == old(recordsRead)
      ensures error.None? ==> channel == buffer[0] && flags == buffer[1] as Flags
      ensures error.None? && flags & ENCRYPTED == 0 ==>
                fullContent == collected + Carried(buffer) && recordsRead == old(recordsRead)
      ensures error.None? && flags & ENCRYPTED != 0 ==>
                && fullContent == collected + cipher.open(old(recordsRead), Carried(buffer)).value
                && recordsRead == old(recordsRead) + 1
      ensures error.None? && !IsFirst(buffer) ==> totalLength == total
      ensures error.None? && IsFirst(buffer) ==>
                var n := ToInt32(buffer[4..]);
                if n < 0x8000_0000 then totalLength == n else totalLength >= 0x8000_0000_0000_0000
    {
      fullContent, totalLength := collected, total;
      if |buffer| < 4 {
        return Some("in transfer failed"), 0, 0, fullContent, totalLength;
      }
      error, channel, flags := None, buffer[0], buffer[1] as Flags;
      var length := ToInt16(buffer[2..]);
      var offset := 4;
      if flags & BULK == FIRST {
        if |buffer| < 8 {
          error := Some("wrong length");
          return;
        }
        totalLength := AsUnsigned(ToInt32(buffer[4..]));
        offset := offset + 4;
      }
      var content := buffer[offset..];
      if length != |content| {
        error := Some("wrong length");
        return;
      }
      if flags & ENCRYPTED != 0 {
        var plain := DecryptMessage(content);
        if plain.None? {
          error := Some("SSL_read failed");
          return;
        }
        content := plain.value;
      }
      fullContent := fullContent + content;
    }

    /**
     `getMessage`: reads exactly up to the transfer that completes a message. `n` is the number of
     transfers it has taken. An exception means that the bytes are not a frame (a transfer of two
     or three bytes, or a first frame under eight, is read out of bounds by AAClient), that a
     record did not decrypt, or that no further transfer arrived.
     */
    method GetMessage() returns (msg: Result<Message>, ghost n: nat)
      modifies this`transfers, this`recordsRead
      ensures n <= |old(transfers)| && transfers == old(transfers)[n..]
      ensures NothingBefore(cipher, Idle(old(recordsRead)), old(transfers), n)
      ensures msg.Ok? ==> n > 0 && Receive(cipher, Idle(old(recordsRead)), old(transfers)[..n])
                                   == Rx([msg.value], [], 0, recordsRead, false)
      ensures msg.Err? ==> var r := Receive(cipher, Idle(old(recordsRead)), old(transfers)[..n]);
                           r.out == [] && (r.failed || n == |old(transfers)|)
    {
      ghost var k, all := recordsRead, transfers;
      var fullContent, totalLength := [], 0;
      n := 0;
      while true
        invariant n <= |all| && transfers == all[n..]
        invariant Receive(cipher, Idle(k), all[..n]) == Rx([], fullContent, totalLength, recordsRead, false)
        invariant NothingBefore(cipher, Idle(k), all, n)
        decreases |transfers|
      {
        if transfers == [] {
          msg := Err("in transfer failed");
          return;
        }
        OneTransfer(cipher, Idle(k), all, n);
        var error, channel, flags;
        error, channel, flags, fullContent, totalLength := AppendTransfer(transfers[0], fullContent, totalLength);
        transfers := transfers[1..];
        n := n + 1;
        if error.Some? {
          msg := Err(error.value);
          return;
        }
        if !(|fullContent| < totalLength) {
          msg := Ok(Message(channel, flags | BULK, fullContent, 0));
          return;
        }
      }
    }
  }

  /** The faults in a row after which `setup` gives up. */
  const FAULTS: nat := 30

  lemma {:induction false} NothingAfterFailure(c: Cipher, r: Rx, frames: seq<Bytes>)
    requires r.failed
    ensures Receive(c, r, frames).failed && Receive(c, r, frames).out == r.out
  {
    if frames != [] {
      NothingAfterFailure(c, r, frames[..|frames| - 1]);
    }
  }

  /** With these transfers to come and these messages returned, the stream's messages are still to be completed. */
  predicate Ahead(c: Cipher, k: nat, transfers: seq<Bytes>, messages: seq<Message>, out: seq<Message>, damaged: bool) {
    var rest := Receive(c, Idle(k), transfers);
    out == messages + rest.out && damaged == rest.failed
  }

  lemma AheadOfMessage(c: Cipher, k: nat, all: seq<Bytes>, n: nat, messages: seq<Message>, out: seq<Message>, damaged: bool)
    requires n <= |all| && Ahead(c, k, all, messages, out, damaged)
    requires var x := Receive(c, Idle(k), all[..n]); x == Rx(x.out, [], 0, x.decrypted, false)
    ensures var x := Receive(c, Idle(k), all[..n]); Ahead(c, x.decrypted, all[n..], messages + x.out, out, damaged)
  {
    var x := Receive(c, Idle(k), all[..n]);
    TakeDrop(all, n);
    ReceiveAppend(c, Idle(k), all[..n], all[n..]);
    ReceiveFrom(c, x, all[n..]);
    ConcatAssoc(messages, x.out, Receive(c, Idle(x.decrypted), all[n..]).out);
  }

  lemma AheadOfFault(c: Cipher, k: nat, all: seq<Bytes>, n: nat, messages: seq<Message>, out: seq<Message>, damaged: bool)
    requires n <= |all| && Ahead(c, k, all, messages, out, damaged)
    requires var x := Receive(c, Idle(k), all[..n]); x.out == [] && (x.failed || n == |all|)
    ensures out == messages && (!damaged ==> n == |all|)
  {
    TakeDrop(all, n);
    ReceiveAppend(c, Idle(k), all[..n], all[n..]);
    if Receive(c, Idle(k), all[..n]).failed {
      NothingAfterFailure(c, Receive(c, Idle(k), all[..n]), all[n..]);
    } else {
      assert all[..n] == all;
    }
    assert messages + [] == messages;
  }

  /** How many of the calls of `getMessage` have returned a message. */
  function Returned(calls: seq<bool>): nat {
    if calls == [] then 0 else Returned(calls[..|calls| - 1]) + if calls[|calls| - 1] then 1 else 0
  }

  lemma ReturnedSnoc(calls: seq<bool>, ok: bool)
    ensures Returned(calls + [ok]) == Returned(calls) + if ok then 1 else 0
  {
    assert (calls + [ok])[..|calls|] == calls;
  }

  /** One of 30 calls has. */
  predicate OneOf(calls: seq<bool>, i: nat) { exists j :: i <= j < i + FAULTS && j < |calls| && calls[j] }

  /** The last `n` calls have been faults, the one before them, if any, not, and no 30 that begin earlier all faults. */
  ghost predicate FaultsInRow(calls: seq<bool>, n: nat) {
    && n <= |calls| && n <= FAULTS
    && (forall i :: |calls| - n <= i < |calls| ==> !calls[i])
    && (n < |calls| ==> calls[|calls| - n - 1])
    && (forall i: nat :: i + FAULTS <= |calls| && i + n < |calls| ==> OneOf(calls, i))
  }

  lemma OneMoreCall(calls: seq<bool>, n: nat, ok: bool)
    requires FaultsInRow(calls, n) && n < FAULTS
    ensures FaultsInRow(calls + [ok], if ok then 0 else n + 1)
  {
    var more := calls + [ok];
    var n' := if ok then 0 else n + 1;
    assert n' < |more| ==> more[|more| - n' - 1];
    forall i: nat | i + FAULTS <= |more| && i + n' < |more| ensures OneOf(more, i) {
      if i + FAULTS <= |calls| && i + n < |calls| {
        assert OneOf(calls, i);
        var j :| i <= j < i + FAULTS && j < |calls| && calls[j];
        assert more[j];
      } else {
        assert more[|more| - n' - 1];
      }
    }
  }

  /**
   The reading loop of `setup`: on any stream it first returns the messages completed before the first
   fault, in order, and of an undamaged stream these are all. It ends when 30 calls in a row have
   been faults, and not before.
   */
  method ReadAll(c: Cipher, frames: seq<Bytes>) returns (messages: seq<Message>, ghost calls: seq<bool>)
    ensures Receive(c, RX_START, frames).out <= messages
    ensures !Receive(c, RX_START, frames).failed ==> messages == Receive(c, RX_START, frames).out
    ensures |messages| == Returned(calls) && FaultsInRow(calls, FAULTS)
  {
    var receiver := new Receiver(c, frames);
    messages, calls := [], [];
    var faultCount := 0;
    ghost var out, damaged := Receive(c, RX_START, frames).out, Receive(c, RX_START, frames).failed;
    ghost var intact := true;
    while faultCount < FAULTS
      invariant receiver.cipher == c && faultCount <= FAULTS
      invariant intact ==> faultCount == 0 && Ahead(c, receiver.recordsRead, receiver.transfers, messages, out, damaged)
      invariant !intact ==> out <= messages && (!damaged ==> messages == out && receiver.transfers == [])
      invariant |messages| == Returned(calls) && FaultsInRow(calls, faultCount)
      decreases |receiver.transfers|, FAULTS - faultCount
    {
      ghost var k, all := receiver.recordsRead, receiver.transfers;
      var msg, n := receiver.GetMessage();
      if intact && msg.Err? {
        AheadOfFault(c, k, all, n, messages, out, damaged);
      } else if intact {
        AheadOfMessage(c, k, all, n, messages, out, damaged);
      }
      OneMoreCall(calls, faultCount, msg.Ok?);
      ReturnedSnoc(calls, msg.Ok?);
      calls := calls + [msg.Ok?];
      if msg.Err? {
        intact := false;
        faultCount := faultCount + 1;
      } else {
        messages := messages + [msg.value];
        faultCount := 0;
      }
    }
  }

  /** Sender and receiver together: what `getMessage` returns over a run is what was sent, in order. */
  method SendAndReceive(c: Cipher, limit: nat, ghost es: seq<Event>, frames: seq<Bytes>) returns (messages: seq<Message>)
    requires Sound(c) && ValidLimit(limit) && AllWellFormed(es) && frames == Run(c, limit, es).frames
    ensures |messages| <= |Sends(es)| && messages == Sends(es)[..|messages|]
    ensures |frames| == TotalWork(Sends(es), limit) ==> messages == Sends(es)
  {
    ghost var calls;
    messages, calls := ReadAll(c, frames);
    FifoRefinement(c, limit, es);
    FramesExactly(c, limit, es);
  }
}
