/**
 AAServer's `dataPump`: a loop that hands a buffer to a sink piece by piece. With `write` as the
 sink it delivers a frame to the endpoint; with `handleMessage` as the sink it parses a buffer of
 back-to-back frames.
 */
module Pump {
  import opened Utils
  import opened Framing

  // ---------------------------------------------------------------- partial writes

  datatype PumpEnd = Delivered | Waiting | Thrown | OutOfBounds

  const IGNORED: seq<int> := [EINTR, EAGAIN]

  /** How many results satisfy a condition that only looks at one of them. */
  function Zeros(rs: seq<SysCall>): nat {
    if rs == [] then 0 else (if rs[0].ret == 0 then 1 else 0) + Zeros(rs[1..])
  }

  function Writes(rs: seq<SysCall>): nat {
    if rs == [] then 0 else (if rs[0].ret > 0 then 1 else 0) + Writes(rs[1..])
  }

  predicate Fatal(r: SysCall) { r.ret < 0 && r.errno !in IGNORED }

  /** What a sink with these results makes of a buffer from `start` on. */
  datatype PumpRun = PumpRun(end: PumpEnd, delivered: Bytes, used: nat)

  /** A zero result goes through `checkError` as -1, which moves the start back by one byte. */
  function Pumped(buffer: Bytes, start: int, results: seq<SysCall>): PumpRun
    requires start <= |buffer|
    decreases |results|
  {
    if start == |buffer| then PumpRun(Delivered, [], 0)
    else if start < 0 then PumpRun(OutOfBounds, [], 0)
    else if results == [] then PumpRun(Waiting, [], 0)
    else if Fatal(results[0]) then PumpRun(Thrown, [], 1)
    else
      var taken := Min(results[0].ret, |buffer| - start);
      var next := start + if taken > 0 then taken else if taken == 0 then -1 else 0;
      var rest := Pumped(buffer, next, results[1..]);
      PumpRun(rest.end, (if taken > 0 then buffer[start..next] else []) + rest.delivered, rest.used + 1)
  }

  /** How many results it takes a sink to accept `n` bytes. */
  function Needed(results: seq<SysCall>, n: nat): (k: nat)
    ensures k <= |results|
    decreases |results|
  {
    if n == 0 || results == [] then 0
    else
      var taken := Min(results[0].ret, n);
      1 + Needed(results[1..], if taken > 0 then n - taken else n)
  }

  /** None of the results that it takes to accept `n` bytes is zero. */
  predicate NoZero(results: seq<SysCall>, n: nat) {
    forall i :: 0 <= i < Needed(results, n) ==> results[i].ret != 0
  }

  lemma NoZeroFirst(results: seq<SysCall>, n: nat)
    requires n > 0 && results != []
    ensures var taken := Min(results[0].ret, n);
            NoZero(results, n) <==> results[0].ret != 0 && NoZero(results[1..], if taken > 0 then n - taken else n)
  {
    var taken := Min(results[0].ret, n);
    var m: nat := if taken > 0 then n - taken else n;
    forall i | 0 <= i < Needed(results[1..], m) ensures results[1..][i] == results[i + 1] {
    }
  }

  lemma {:induction false} PumpedFrom(buffer: Bytes, start: nat, results: seq<SysCall>)
    requires start <= |buffer|
    ensures var p := Pumped(buffer, start, results);
            p.end.Delivered? ==>
              && |p.delivered| >= |buffer| - start
              && (if NoZero(results, |buffer| - start) then p.delivered == buffer[start..] else |p.delivered| > |buffer| - start)
    decreases |results|
  {
    var n := |buffer| - start;
    if n > 0 && results != [] && !Fatal(results[0]) {
      NoZeroFirst(results, n);
      var taken := Min(results[0].ret, n);
      var next := start + if taken > 0 then taken else if taken == 0 then -1 else 0;
      if next >= 0 {
        PumpedFrom(buffer, next, results[1..]);
      }
      if taken > 0 {
        assert buffer[start..next] + buffer[next..] == buffer[start..];
      }
    }
  }

  /**
   Whenever the buffer is done with, it has been delivered once and in order if and only if no result
   is zero before the sink has accepted as many bytes as it holds.
   */
  lemma DeliveredExactly(buffer: Bytes, results: seq<SysCall>)
    ensures var p := Pumped(buffer, 0, results);
            p.end.Delivered? ==> (p.delivered == buffer <==> NoZero(results, |buffer|))
  {
    PumpedFrom(buffer, 0, results);
    assert buffer[0..] == buffer;
  }

  lemma AfterZero(a: byte, b: byte)
    ensures Pumped([a, b], 1, [SysCall(0, 0), SysCall(2, 0)]) == PumpRun(Delivered, [a, b], 2)
  {
    var buffer := [a, b];
    assert [SysCall(0, 0), SysCall(2, 0)][1..] == [SysCall(2, 0)] && [SysCall(2, 0)][1..] == [];
    assert buffer[0..2] == [a, b] && [a, b] + [] == [a, b];
    assert Pumped(buffer, 2, []) == PumpRun(Delivered, [], 0);
    assert Pumped(buffer, 0, [SysCall(2, 0)]) == PumpRun(Delivered, [a, b], 1);
  }

  /** A sink that takes a byte, then returns zero, then takes all it is offered, gets the first byte twice. */
  lemma ByteTwice(a: byte, b: byte)
    ensures Pumped([a, b], 0, [SysCall(1, 0), SysCall(0, 0), SysCall(2, 0)]) == PumpRun(Delivered, [a, a, b], 3)
  {
    var results := [SysCall(1, 0), SysCall(0, 0), SysCall(2, 0)];
    assert results[1..] == [SysCall(0, 0), SysCall(2, 0)] && results[1..][1..] == [SysCall(2, 0)];
    AfterZero(a, b);
    assert [a, b][0..1] == [a] && [a] + [a, b] == [a, a, b];
  }

  lemma ZerosHead(results: seq<SysCall>, n: nat)
    requires 0 < n <= |results|
    ensures Zeros(results[..n]) == (if results[0].ret == 0 then 1 else 0) + Zeros(results[1..][..n - 1])
    ensures Fatal(results[n - 1]) <==> Fatal(if n == 1 then results[0] else results[1..][n - 2])
  {
    assert results[..n][1..] == results[1..][..n - 1];
  }

  /** How many bytes and results a run takes, and how it can end. */
  lemma {:induction false} PumpedCounts(buffer: Bytes, start: int, results: seq<SysCall>)
    requires -1 <= start <= |buffer|
    ensures var p := Pumped(buffer, start, results);
            && p.used <= |results|
            && (p.end.Delivered? ==> |p.delivered| == |buffer| - start + Zeros(results[..p.used]))
            && (p.end.Thrown? <==> p.used > 0 && Fatal(results[p.used - 1]))
            && (p.end.Waiting? ==> p.used == |results|)
    decreases |results|
  {
    var n := |buffer| - start;
    if start >= 0 && n > 0 && results != [] && !Fatal(results[0]) {
      var taken := Min(results[0].ret, n);
      var next := start + if taken > 0 then taken else if taken == 0 then -1 else 0;
      PumpedCounts(buffer, next, results[1..]);
      ZerosHead(results, Pumped(buffer, start, results).used);
    }
  }

  lemma StillInOrder(buffer: Bytes, start: nat, next: nat, d: Bytes)
    requires start <= next <= |buffer| && d <= buffer[next..]
    ensures buffer[start..next] + d <= buffer[start..]
  {
    assert buffer[start..next] + buffer[next..] == buffer[start..];
  }

  predicate InOrder(buffer: Bytes, start: nat, results: seq<SysCall>, p: PumpRun)
    requires start <= |buffer| && p.used <= |results|
  {
    Zeros(results[..p.used]) == 0 ==> p.delivered <= buffer[start..] && !p.end.OutOfBounds?
  }

  lemma InOrderStep(buffer: Bytes, start: nat, results: seq<SysCall>, next: nat, q: PumpRun)
    requires start <= next <= |buffer| && results != [] && results[0].ret != 0 && q.used < |results|
    requires InOrder(buffer, next, results[1..], q)
    ensures InOrder(buffer, start, results, PumpRun(q.end, buffer[start..next] + q.delivered, q.used + 1))
  {
    ZerosHead(results, q.used + 1);
    if q.delivered <= buffer[next..] {
      StillInOrder(buffer, start, next, q.delivered);
    }
  }

  lemma ZeroFirst(results: seq<SysCall>, n: nat)
    requires 0 < n <= |results| && results[0].ret == 0
    ensures Zeros(results[..n]) > 0
  {
    ZerosHead(results, n);
  }

  /** Without a zero result nothing is skipped or repeated ... */
  lemma {:induction false} PumpedInOrder(buffer: Bytes, start: nat, results: seq<SysCall>)
    requires start <= |buffer|
    ensures Pumped(buffer, start, results).used <= |results| && InOrder(buffer, start, results, Pumped(buffer, start, results))
    decreases |results|
  {
    PumpedCounts(buffer, start, results);
    if start < |buffer| && results != [] && !Fatal(results[0]) {
      if results[0].ret == 0 {
        ZeroFirst(results, Pumped(buffer, start, results).used);
      } else {
        var taken := Min(results[0].ret, |buffer| - start);
        var next := start + if taken > 0 then taken else 0;
        PumpedInOrder(buffer, next, results[1..]);
        InOrderStep(buffer, start, results, next, Pumped(buffer, next, results[1..]));
        assert taken <= 0 ==> buffer[start..next] == [];
      }
    }
  }

  predicate NoFatal(rs: seq<SysCall>) { rs == [] || (!Fatal(rs[0]) && NoFatal(rs[1..])) }

  /** ... and enough writes bring it to an end. */
  lemma {:induction false} PumpedEnds(buffer: Bytes, start: nat, results: seq<SysCall>)
    requires start <= |buffer| && Zeros(results) == 0 && Writes(results) >= |buffer| - start && NoFatal(results)
    ensures Pumped(buffer, start, results).end.Delivered?
    decreases |results|
  {
    if start < |buffer| && results != [] {
      var taken := Min(results[0].ret, |buffer| - start);
      var next: nat := start + if taken > 0 then taken else 0;
      PumpedEnds(buffer, next, results[1..]);
    }
  }

  /** What the loop guarantees about a buffer and a sink. */
  predicate WriteOk(buffer: Bytes, results: seq<SysCall>, p: PumpRun) {
    && p.used <= |results|
    // every byte exactly once and in order, if and only if the sink never returned zero
    && (p.end.Delivered? ==> (p.delivered == buffer <==> Zeros(results[..p.used]) == 0))
    && (p.end.Delivered? ==> |p.delivered| == |buffer| + Zeros(results[..p.used]))
    && (Zeros(results[..p.used]) == 0 ==> p.delivered <= buffer && !p.end.OutOfBounds?)
    // it ends: retries do not count, every other result takes at least one byte
    && (Zeros(results) == 0 && NoFatal(results) && Writes(results) >= |buffer|
        ==> p.end.Delivered?)
    && (p.end.Thrown? <==> p.used > 0 && Fatal(results[p.used - 1]))
    && (p.end.Waiting? ==> p.used == |results|)
  }

  lemma PumpedOk(buffer: Bytes, results: seq<SysCall>)
    ensures WriteOk(buffer, results, Pumped(buffer, 0, results))
  {
    PumpedCounts(buffer, 0, results);
    PumpedInOrder(buffer, 0, results);
    assert buffer[0..] == buffer;
    if Zeros(results) == 0 && NoFatal(results) && Writes(results) >= |buffer| {
      PumpedEnds(buffer, 0, results);
    }
  }

  /** `used` results and `delivered` bytes before the rest, the whole run is `all`. */
  predicate OnTheWay(all: PumpRun, rest: PumpRun, delivered: Bytes, used: nat) {
    all == PumpRun(rest.end, delivered + rest.delivered, used + rest.used)
  }

  /** One turn of the loop. */
  lemma OneWrite(buffer: Bytes, start: nat, results: seq<SysCall>, all: PumpRun, delivered: Bytes, used: nat)
    requires start < |buffer| && results != [] && OnTheWay(all, Pumped(buffer, start, results), delivered, used)
    ensures Fatal(results[0]) ==> all == PumpRun(Thrown, delivered + [], used + 1)
    ensures !Fatal(results[0]) ==>
              var taken := Min(results[0].ret, |buffer| - start);
              var next := start + if taken > 0 then taken else if taken == 0 then -1 else 0;
              OnTheWay(all, Pumped(buffer, next, results[1..]), delivered + if taken > 0 then buffer[start..next] else [], used + 1)
  {
    var taken := Min(results[0].ret, |buffer| - start);
    var next := start + if taken > 0 then taken else if taken == 0 then -1 else 0;
    if !Fatal(results[0]) {
      ConcatAssoc(delivered, if taken > 0 then buffer[start..next] else [], Pumped(buffer, next, results[1..]).delivered);
    } else {
      assert delivered + [] == delivered;
    }
  }

  /**
   The inner loop of `dataPump` against a sink whose successive results are `results`; a positive
   result is the number of bytes taken, never more than were offered. A zero result goes through
   `checkError` as -1, which lengthens the remainder and moves its start back by one byte.
   */
  method WriteOut(buffer: Bytes, results: seq<SysCall>) returns (end: PumpEnd, delivered: Bytes, used: nat)
    ensures PumpRun(end, delivered, used) == Pumped(buffer, 0, results)
    ensures WriteOk(buffer, results, PumpRun(end, delivered, used))
  {
    ghost var all := Pumped(buffer, 0, results);
    var length, start := |buffer|, 0;
    end, delivered, used := Delivered, [], 0;
    var rest := results;
    while length > 0
      invariant length >= 0 && start + length == |buffer| && -1 <= start && end.Delivered?
      invariant OnTheWay(all, Pumped(buffer, start, rest), delivered, used)
      decreases |rest|
    {
      if start < 0 {
        end := OutOfBounds;
        break;
      }
      if rest == [] {
        end := Waiting;
        break;
      }
      OneWrite(buffer, start, rest, all, delivered, used);
      var ret := SysCall(Min(rest[0].ret, length), rest[0].errno);
      delivered := delivered + if ret.ret > 0 then buffer[start..start + ret.ret] else [];
      used := used + 1;
      rest := rest[1..];
      var partLength := CheckError(ret, IGNORED);
      if partLength.Err? {
        end := Thrown;
        assert delivered + [] == delivered;
        break;
      }
      length := length - partLength.value;
      start := start + partLength.value;
    }
    assert PumpRun(end, delivered, used) == all;
    PumpedOk(buffer, results);
  }

  // ---------------------------------------------------------------- parsing

  /** What the server takes for one frame: a four-byte header and as many bytes as it announces. */
  datatype RawFrame = RawFrame(channel: byte, flags: byte, body: Bytes)

  function Serialize(f: RawFrame): Bytes {
    [f.channel, f.flags] + Int16(|f.body|) + f.body
  }

  function Join(fs: seq<RawFrame>): Bytes {
    if fs == [] then [] else Serialize(fs[0]) + Join(fs[1..])
  }

  /** The length announced in the first header. */
  function HeadLength(b: Bytes): (n: nat)
    requires |b| >= 4
    ensures n < 0x1_0000
  {
    ToInt16([b[2], b[3]])
  }

  /** The buffer starts with a complete frame. */
  predicate StartsWhole(b: Bytes) {
    |b| >= 4 && |b| >= 4 + HeadLength(b)
  }

  function HeadFrame(b: Bytes): RawFrame
    requires StartsWhole(b)
  {
    RawFrame(b[0], b[1], b[4..4 + HeadLength(b)])
  }

  /** The complete frames at the start of a buffer, and what is left over. */
  function Split(b: Bytes): (r: (seq<RawFrame>, Bytes))
    decreases |b|
  {
    if StartsWhole(b) then
      var (fs, t) := Split(b[4 + HeadLength(b)..]);
      ([HeadFrame(b)] + fs, t)
    else ([], b)
  }

  lemma SerializeLayout(f: RawFrame, rest: Bytes)
    requires |f.body| < 0x1_0000
    ensures var b := Serialize(f) + rest;
            |b| >= 4 + |f.body| && HeadLength(b) == |f.body| && HeadFrame(b) == f && b[4 + |f.body|..] == rest
  {
    var b := Serialize(f) + rest;
    assert [b[2], b[3]] == Int16(|f.body|);
    Int16RoundTrip(|f.body|);
    assert b[4..4 + |f.body|] == f.body;
  }

  lemma HeadFrameSerialized(b: Bytes)
    requires StartsWhole(b)
    ensures Serialize(HeadFrame(b)) + b[4 + HeadLength(b)..] == b
  {
    var n := HeadLength(b);
    assert Int16(n) == [b[2], b[3]];
    assert [b[0], b[1]] + [b[2], b[3]] == b[..4];
    TakeSlice(b, 4, 4 + n);
    TakeDrop(b, 4 + n);
  }

  /** Splitting is the inverse of joining, whatever incomplete frame follows ... */
  lemma {:induction false} SplitJoin(fs: seq<RawFrame>, t: Bytes)
    requires (forall f :: f in fs ==> |f.body| < 0x1_0000) && !StartsWhole(t)
    ensures Split(Join(fs) + t) == (fs, t)
  {
    if fs == [] {
      assert Join(fs) + t == t;
    } else {
      ConcatAssoc(Serialize(fs[0]), Join(fs[1..]), t);
      SerializeLayout(fs[0], Join(fs[1..]) + t);
      SplitJoin(fs[1..], t);
      assert [fs[0]] + fs[1..] == fs;
    }
  }

  /** ... and every buffer is such a concatenation. */
  lemma {:induction false} JoinSplit(b: Bytes)
    ensures var (fs, t) := Split(b);
            Join(fs) + t == b && !StartsWhole(t) && forall f :: f in fs ==> |f.body| < 0x1_0000
    decreases |b|
  {
    if StartsWhole(b) {
      var rest := b[4 + HeadLength(b)..];
      JoinSplit(rest);
      HeadFrameSerialized(b);
      var (fs, t) := Split(rest);
      assert ([HeadFrame(b)] + fs)[1..] == fs;
      ConcatAssoc(Serialize(HeadFrame(b)), Join(fs), t);
    }
  }

  /** The outcome of one frame: the message dispatched if any, the next record number, no exception. */
  datatype Outcome = Outcome(messages: seq<Message>, records: nat, ok: bool)

  /** One frame is decrypted if flagged, and dispatched; a handler may reject the message. */
  function ProcessOne(c: Cipher, accepts: Message -> bool, k: nat, f: RawFrame): Outcome {
    var encrypted := f.flags as Flags & ENCRYPTED != 0;
    var plain := if encrypted then c.open(k, f.body) else Some(f.body);
    if plain.None? then Outcome([], k, false)
    else
      var m := Message(f.channel, f.flags as Flags, plain.value, 0);
      Outcome([m], if encrypted then k + 1 else k, accepts(m))
  }

  /** A list of frames, up to the first exception. */
  function Process(c: Cipher, accepts: Message -> bool, k: nat, fs: seq<RawFrame>): Outcome
    decreases |fs|
  {
    if fs == [] then Outcome([], k, true)
    else
      var o := ProcessOne(c, accepts, k, fs[0]);
      if !o.ok then o
      else
        var rest := Process(c, accepts, o.records, fs[1..]);
        rest.(messages := o.messages + rest.messages)
  }

  /** What lies behind the bytes read decides nothing: under four bytes the length can only be too long. */
  lemma HeaderInMemory(byteView: Bytes, behind: Bytes)
    requires 4 <= |behind|
    ensures var memory := byteView + behind;
            var length := ToInt16([memory[2], memory[3]]);
            && (StartsWhole(byteView) <==> |byteView| >= 4 + length)
            && (StartsWhole(byteView) ==>
                  length == HeadLength(byteView) && HeadFrame(byteView) == RawFrame(memory[0], memory[1], memory[4..4 + length]))
  {
    var memory := byteView + behind;
    if StartsWhole(byteView) {
      assert memory[4..4 + HeadLength(byteView)] == byteView[4..4 + HeadLength(byteView)];
    }
  }

  lemma SplitHead(b: Bytes)
    requires StartsWhole(b)
    ensures var rest := b[4 + HeadLength(b)..];
            Split(b).0 != [] && Split(b).0[0] == HeadFrame(b)
            && Split(b).0[1..] == Split(rest).0 && Split(b).1 == Split(rest).1
  {
    ConsTail(HeadFrame(b), Split(b[4 + HeadLength(b)..]).0);
  }

  /** Having dispatched `d` and `k` records, with `todo` to come, on the way from `d0` to the outcome `all`. */
  predicate Ahead(c: Cipher, accepts: Message -> bool, all: Outcome, d0: seq<Message>, d: seq<Message>, k: nat,
                  todo: seq<RawFrame>)
  {
    var o := Process(c, accepts, k, todo);
    d0 + all.messages == d + o.messages && all.records == o.records && all.ok == o.ok
  }

  lemma AheadStep(c: Cipher, accepts: Message -> bool, all: Outcome, d0: seq<Message>, d: seq<Message>, k: nat,
                  todo: seq<RawFrame>)
    requires todo != [] && Ahead(c, accepts, all, d0, d, k, todo)
    ensures var o := ProcessOne(c, accepts, k, todo[0]);
            if o.ok then Ahead(c, accepts, all, d0, d + o.messages, o.records, todo[1..])
            else d0 + all.messages == d + o.messages && all.records == o.records && !all.ok
  {
    var o := ProcessOne(c, accepts, k, todo[0]);
    ConcatAssoc(d, o.messages, Process(c, accepts, o.records, todo[1..]).messages);
  }

  class Parser {
    const cipher: Cipher
    const accepts: Message -> bool
    var recordsRead: nat
    var dispatched: seq<Message>

    constructor (cipher: Cipher, accepts: Message -> bool)
      ensures this.cipher == cipher && this.accepts == accepts && recordsRead == 0 && dispatched == []
    {
      this.cipher, this.accepts, recordsRead, dispatched := cipher, accepts, 0, [];
    }

    /** What `handleMessage` does with a frame: decryption and dispatch; `false` is an exception. */
    method HandleFrame(channel: byte, flags: byte, body: Bytes) returns (ok: bool)
      modifies this`recordsRead, this`dispatched
      ensures var o := ProcessOne(cipher, accepts, old(recordsRead), RawFrame(channel, flags, body));
              dispatched == old(dispatched) + o.messages && recordsRead == o.records && ok == o.ok
      ensures var plain := if flags as Flags & ENCRYPTED != 0 then cipher.open(old(recordsRead), body) else Some(body);
              if plain.None? then !ok && unchanged(this)
              else
                var message := Message(channel, flags as Flags, plain.value, 0);
                && dispatched == old(dispatched) + [message] && ok == accepts(message)
                && recordsRead == old(recordsRead) + if flags as Flags & ENCRYPTED != 0 then 1 else 0
    {
      var msg := body;
      var encrypted := flags as Flags & ENCRYPTED != 0;
      if encrypted {
        var plain := cipher.open(recordsRead, msg);
        if plain.None? {
          assert dispatched + [] == dispatched;
          return false;
        }
        recordsRead := recordsRead + 1;
        msg := plain.value;
      }
      var message := Message(channel, flags as Flags, msg, 0);
      dispatched := dispatched + [message];
      ok := accepts(message);
    }

    /**
     `handleMessage` on the bytes read from the endpoint; `behind` is whatever the memory holds
     after them, which the header fields are taken from when fewer than four bytes were read.
     */
    method HandleMessage(byteView: Bytes, behind: Bytes) returns (r: Result<nat>)
      requires 4 <= |behind|
      modifies this`recordsRead, this`dispatched
      ensures !StartsWhole(byteView) ==> r.Err? && unchanged(this)
      ensures StartsWhole(byteView) ==>
                var o := ProcessOne(cipher, accepts, old(recordsRead), HeadFrame(byteView));
                && dispatched == old(dispatched) + o.messages && recordsRead == o.records
                && (r.Ok? <==> o.ok) && (r.Ok? ==> r.value == 4 + HeadLength(byteView))
    {
      var memory, nbytes := byteView + behind, |byteView|;
      var channel, flags := memory[0], memory[1];
      var length := ToInt16([memory[2], memory[3]]);
      HeaderInMemory(byteView, behind);
      if nbytes < 4 + length {
        return Err("nbytes<4+length");
      }
      var ok := HandleFrame(channel, flags, memory[4..4 + length]);
      r := if ok then Ok(length + 4) else Err("handleMessage");
    }

    /** One call of the sink, on the way to the outcome `all`. */
    method ParseOne(rest: Bytes, behind: Bytes, ghost all: Outcome, ghost d0: seq<Message>) returns (part: Result<nat>)
      requires 4 <= |behind| && rest != [] && Ahead(cipher, accepts, all, d0, dispatched, recordsRead, Split(rest).0)
      modifies this`recordsRead, this`dispatched
      ensures part.Ok? ==>
                && 0 < part.value <= |rest| && Split(rest[part.value..]).1 == Split(rest).1
                && Ahead(cipher, accepts, all, d0, dispatched, recordsRead, Split(rest[part.value..]).0)
      ensures part.Err? ==>
                && dispatched == d0 + all.messages && recordsRead == all.records
                && !(all.ok && Split(rest).1 == [])
    {
      if StartsWhole(rest) {
        SplitHead(rest);
        AheadStep(cipher, accepts, all, d0, dispatched, recordsRead, Split(rest).0);
      }
      part := HandleMessage(rest, behind);
    }

    /**
     `dataPump` with `handleMessage` as its sink, on a buffer of any content; `behind` is whatever
     the memory holds after the bytes read. Exactly the complete frames at the start of the buffer
     are processed, and the loop ends without an exception if and only if nothing is left over.
     */
    method ParseBuffer(buffer: Bytes, behind: Bytes) returns (ok: bool)
      requires 4 <= |behind|
      modifies this`recordsRead, this`dispatched
      ensures var (fs, t) := Split(buffer);
              var o := Process(cipher, accepts, old(recordsRead), fs);
              && dispatched == old(dispatched) + o.messages && recordsRead == o.records
              && (ok <==> o.ok && t == [])
    {
      var length, start := |buffer|, 0;
      ghost var all := Process(cipher, accepts, recordsRead, Split(buffer).0);
      ghost var d0, tail := dispatched, Split(buffer).1;
      var rest := buffer;
      while length > 0
        invariant start + length == |buffer| && 0 <= start && 0 <= length
        invariant rest == buffer[start..]
        invariant Ahead(cipher, accepts, all, d0, dispatched, recordsRead, Split(rest).0)
        invariant Split(rest).1 == tail
        decreases length
      {
        var part := ParseOne(rest, behind, all, d0);
        if part.Err? {
          return false;
        }
        DropDrop(buffer, start, part.value);
        length := length - part.value;
        start := start + part.value;
        rest := rest[part.value..];
      }
      ok := true;
    }
  }
}
