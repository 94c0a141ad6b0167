/**
 AAClient's sender against AAServer's parser, which does not reassemble: what arrives when no
 message is split, and that this is the only case.
 */
module DirectLink {
  import opened Utils
  import opened Framing
  import opened SendQueue
  import opened Pump

  /** A message that the fragmenter sends in one frame. */
  predicate Unsplit(m: Message, limit: nat) {
    m.Encrypted() ==> |m.content| <= limit
  }

  predicate AllUnsplit(ms: seq<Message>, limit: nat) {
    forall m :: m in ms ==> WellFormed(m) && Unsplit(m, limit)
  }

  function Next(k: nat, m: Message): nat { k + if m.Encrypted() then 1 else 0 }

  /** How many of the first `i` messages are encrypted. */
  function Records(ms: seq<Message>, i: nat): nat
    requires i <= |ms|
  {
    if i == 0 then 0 else Next(Records(ms, i - 1), ms[i - 1])
  }

  lemma {:induction false} RecordsSnoc(ms: seq<Message>, m: Message, i: nat)
    requires i <= |ms|
    ensures Records(ms + [m], i) == Records(ms, i)
  {
    if i > 0 {
      RecordsSnoc(ms, m, i - 1);
    }
  }

  /** A message that becomes the k-th record, as the frame that the server reads. */
  function Raw(c: Cipher, k: nat, m: Message): RawFrame {
    RawFrame(m.channel, m.flags as byte, if m.Encrypted() then c.seal(k, m.content) else m.content)
  }

  function Raws(c: Cipher, k: nat, ms: seq<Message>): (fs: seq<RawFrame>)
    ensures |fs| == |ms|
    decreases |ms|
  {
    if ms == [] then [] else [Raw(c, k, ms[0])] + Raws(c, Next(k, ms[0]), ms[1..])
  }

  function Flatten(frames: seq<Bytes>): Bytes {
    if frames == [] then [] else frames[0] + Flatten(frames[1..])
  }

  // ---------------------------------------------------------------- the sender's side

  function FrameAt(c: Cipher, ms: seq<Message>, i: nat): Bytes
    requires i < |ms|
  {
    Serialize(Raw(c, Records(ms, i), ms[i]))
  }

  predicate FramesAre(c: Cipher, frames: seq<Bytes>, ms: seq<Message>) {
    && |frames| <= |ms|
    && forall i {:trigger FrameAt(c, ms, i)} :: 0 <= i < |frames| ==> frames[i] == FrameAt(c, ms, i)
  }

  lemma FramesAreMore(c: Cipher, frames: seq<Bytes>, ms: seq<Message>, f: Bytes)
    requires FramesAre(c, frames, ms) && |frames| < |ms|
    requires f == FrameAt(c, ms, |frames|)
    ensures FramesAre(c, frames + [f], ms)
  {
    forall i | 0 <= i < |frames| + 1 ensures (frames + [f])[i] == FrameAt(c, ms, i) {
      if i < |frames| {
        assert (frames + [f])[i] == frames[i];
      }
    }
  }

  predicate OneFramePerMessage(c: Cipher, s: Tx) {
    && FramesAre(c, s.frames, s.sent)
    && s.queue == s.sent[|s.frames|..]
    && s.sealed == Records(s.sent, |s.frames|)
  }

  /** The whole-message branch, encrypted or plain. */
  lemma CutUnsplit(c: Cipher, m: Message, limit: nat, k: nat)
    requires WellFormed(m) && Unsplit(m, limit)
    ensures Cut(m, limit) == (Piece(m.channel, m.flags, m.content, |m.content|), None)
    ensures Frame(c, k, Cut(m, limit).0)
         == Serialize(Raw(c, k, m))
  {
    FrameBits(m.flags);
    assert m.content[0..] == m.content;
  }

  lemma OneFrameEnqueue(c: Cipher, s: Tx, m: Message)
    requires OneFramePerMessage(c, s)
    ensures OneFramePerMessage(c, Enqueue(s, m))
  {
    RecordsSnoc(s.sent, m, |s.frames|);
    forall i | 0 <= i < |s.frames| ensures s.frames[i] == FrameAt(c, s.sent + [m], i) {
      RecordsSnoc(s.sent, m, i);
      assert s.frames[i] == FrameAt(c, s.sent, i);
    }
  }

  lemma DrainUnsplit(c: Cipher, limit: nat, s: Tx)
    requires s.queue != [] && WellFormed(s.queue[0]) && Unsplit(s.queue[0], limit)
    ensures var m := s.queue[0];
            Drain(c, limit, s)
            == Tx(s.queue[1..], Next(s.sealed, m), s.frames + [Serialize(Raw(c, s.sealed, m))], s.sent)
  {
    CutUnsplit(c, s.queue[0], limit, s.sealed);
  }

  lemma OneFrameMore(c: Cipher, s: Tx)
    requires OneFramePerMessage(c, s) && |s.frames| < |s.sent|
    ensures var m := s.sent[|s.frames|];
            OneFramePerMessage(c, Tx(s.queue[1..], Next(s.sealed, m), s.frames + [Serialize(Raw(c, s.sealed, m))], s.sent))
  {
    DropDrop(s.sent, |s.frames|, 1);
    FramesAreMore(c, s.frames, s.sent, Serialize(Raw(c, s.sealed, s.sent[|s.frames|])));
  }

  lemma {:induction false} UnsplitRun(c: Cipher, limit: nat, es: seq<Event>)
    requires Sound(c) && ValidLimit(limit) && AllWellFormed(es) && AllUnsplit(Sends(es), limit)
    ensures OneFramePerMessage(c, Run(c, limit, es))
  {
    if es != [] {
      var front, e := es[..|es| - 1], es[|es| - 1];
      forall m | m in Sends(front) ensures m in Sends(es) {
      }
      UnsplitRun(c, limit, front);
      var s := Run(c, limit, front);
      if e.Send? {
        OneFrameEnqueue(c, s, e.m);
      } else if s.queue != [] {
        assert s.queue[0] in Sends(es);
        DrainUnsplit(c, limit, s);
        OneFrameMore(c, s);
      }
    }
  }

  // ---------------------------------------------------------------- the parser's side

  /** The messages up to and including the first that a handler rejects. */
  function UpTo(accepts: Message -> bool, ms: seq<Message>): seq<Message> {
    if ms == [] then []
    else if !accepts(ms[0]) then [ms[0]]
    else [ms[0]] + UpTo(accepts, ms[1..])
  }

  predicate AllAccepted(accepts: Message -> bool, ms: seq<Message>) {
    ms == [] || (accepts(ms[0]) && AllAccepted(accepts, ms[1..]))
  }

  lemma {:induction false} UpToAll(accepts: Message -> bool, ms: seq<Message>)
    requires AllAccepted(accepts, ms)
    ensures UpTo(accepts, ms) == ms
  {
    if ms != [] {
      UpToAll(accepts, ms[1..]);
    }
  }

  lemma ProcessRaw(c: Cipher, accepts: Message -> bool, k: nat, m: Message)
    requires Sound(c) && WellFormed(m) && Unsplit(m, MAX_RECORD)
    ensures ProcessOne(c, accepts, k, Raw(c, k, m)) == Outcome([m], Next(k, m), accepts(m))
  {
    FlagsByte(m.flags);
  }

  lemma ProcessCons(c: Cipher, accepts: Message -> bool, k: nat, f: RawFrame, fs: seq<RawFrame>)
    ensures var o := ProcessOne(c, accepts, k, f);
            Process(c, accepts, k, [f] + fs)
            == if !o.ok then o
               else var o' := Process(c, accepts, o.records, fs); o'.(messages := o.messages + o'.messages)
  {
    ConsTail(f, fs);
  }

  lemma {:induction false} ProcessRaws(c: Cipher, accepts: Message -> bool, k: nat, ms: seq<Message>)
    requires Sound(c) && AllUnsplit(ms, MAX_RECORD)
    ensures var o := Process(c, accepts, k, Raws(c, k, ms));
            && o.messages == UpTo(accepts, ms)
            && (o.ok <==> AllAccepted(accepts, ms))
    decreases |ms|
  {
    if ms != [] {
      ProcessRaw(c, accepts, k, ms[0]);
      ProcessCons(c, accepts, k, Raw(c, k, ms[0]), Raws(c, Next(k, ms[0]), ms[1..]));
      ProcessRaws(c, accepts, Next(k, ms[0]), ms[1..]);
    }
  }

  /** After `n` accepted messages the server expects the record that the client writes next. */
  lemma {:induction false} ProcessRecords(c: Cipher, accepts: Message -> bool, ms: seq<Message>, i: nat, j: nat)
    requires Sound(c) && AllUnsplit(ms, MAX_RECORD) && i <= j <= |ms| && AllAccepted(accepts, ms[i..j])
    ensures Process(c, accepts, Records(ms, i), Raws(c, Records(ms, i), ms[i..j])).records == Records(ms, j)
    decreases j - i
  {
    if i < j {
      SliceHead(ms, i, j);
      assert ms[i] in ms;
      ProcessRaw(c, accepts, Records(ms, i), ms[i]);
      ProcessCons(c, accepts, Records(ms, i), Raw(c, Records(ms, i), ms[i]), Raws(c, Records(ms, i + 1), ms[i + 1..j]));
      ProcessRecords(c, accepts, ms, i + 1, j);
    }
  }

  /** Messages `i` to `j` were dispatched in order, up to the first one rejected. */
  predicate Dispatches(accepts: Message -> bool, ms: seq<Message>, i: nat, j: nat, o: Outcome)
    requires i <= j <= |ms|
  {
    && o.messages == UpTo(accepts, ms[i..j])
    && (o.ok <==> AllAccepted(accepts, ms[i..j]))
    && (o.ok ==> o.messages == ms[i..j] && o.records == Records(ms, j))
  }

  lemma {:induction false} JoinRaws(c: Cipher, ms: seq<Message>, frames: seq<Bytes>, i: nat, j: nat)
    requires i <= j <= |ms| && j <= |frames|
    requires forall n :: i <= n < j ==> frames[n] == FrameAt(c, ms, n)
    ensures Flatten(frames[i..j]) == Join(Raws(c, Records(ms, i), ms[i..j]))
    decreases j - i
  {
    if i < j {
      JoinRaws(c, ms, frames, i + 1, j);
      SliceHead(ms, i, j);
      SliceHead(frames, i, j);
      ConsTail(Raw(c, Records(ms, i), ms[i]), Raws(c, Records(ms, i + 1), ms[i + 1..j]));
    }
  }

  lemma {:induction false} RawsFit(c: Cipher, k: nat, ms: seq<Message>)
    requires Sound(c) && AllUnsplit(ms, MAX_RECORD)
    ensures forall f :: f in Raws(c, k, ms) ==> |f.body| < 0x1_0000
    decreases |ms|
  {
    if ms != [] {
      assert ms[0] in ms;
      assert |Raw(c, k, ms[0]).body| < 0x1_0000;
      RawsFit(c, Next(k, ms[0]), ms[1..]);
    }
  }

  lemma StretchDispatched(c: Cipher, limit: nat, s: Tx, accepts: Message -> bool, i: nat, j: nat, t: Bytes)
    requires Sound(c) && ValidLimit(limit) && AllUnsplit(s.sent, limit) && OneFramePerMessage(c, s)
    requires i <= j <= |s.frames| && !StartsWhole(t)
    ensures var (fs, rest) := Split(Flatten(s.frames[i..j]) + t);
            && rest == t && |fs| == j - i
            && Dispatches(accepts, s.sent, i, j, Process(c, accepts, Records(s.sent, i), fs))
  {
    var k, ms := Records(s.sent, i), s.sent[i..j];
    assert AllUnsplit(s.sent, MAX_RECORD) && AllUnsplit(ms, MAX_RECORD);
    JoinRaws(c, s.sent, s.frames, i, j);
    RawsFit(c, k, ms);
    SplitJoin(Raws(c, k, ms), t);
    ProcessRaws(c, accepts, k, ms);
    if AllAccepted(accepts, ms) {
      UpToAll(accepts, ms);
      ProcessRecords(c, accepts, s.sent, i, j);
    }
  }

  /**
   AAClient to AAServer: in every run in which no message is split, any stretch of consecutive
   frames, read into one buffer back to back and possibly followed by an incomplete frame, is
   split by the server into exactly those frames, and makes it dispatch exactly those messages, in
   order, up to the first one that its handler rejects.
   */
  lemma ParserDispatchesWhatWasSent(c: Cipher, limit: nat, es: seq<Event>, accepts: Message -> bool, i: nat, j: nat, t: Bytes)
    requires Sound(c) && ValidLimit(limit) && AllWellFormed(es) && AllUnsplit(Sends(es), limit)
    requires !StartsWhole(t)
    ensures var frames := Run(c, limit, es).frames;
            && |frames| <= |Sends(es)|
            && (i <= j <= |frames| ==>
                  var (fs, rest) := Split(Flatten(frames[i..j]) + t);
                  && rest == t && |fs| == j - i
                  && Dispatches(accepts, Sends(es), i, j, Process(c, accepts, Records(Sends(es), i), fs)))
  {
    var s := Run(c, limit, es);
    UnsplitRun(c, limit, es);
    if i <= j <= |s.frames| {
      StretchDispatched(c, limit, s, accepts, i, j, t);
    }
  }

  lemma FirstMeansSplit(m: Message, limit: nat)
    requires ValidLimit(limit) && WellFormed(m)
    ensures var p := Cut(m, limit).0; Sendable(p) && (p.First() <==> !Unsplit(m, limit)) && (p.First() ==> p.Encrypted())
  {
    RestoredWhole(m);
    CutFacts(m, limit);
    FrameBits(m.flags);
  }

  /** The header length of a frame leaves out the total length of a first frame. */
  lemma FrameHead(c: Cipher, k: nat, p: Piece)
    requires Sound(c) && Sendable(p)
    ensures var f := Frame(c, k, p);
            StartsWhole(f) && |f| == 4 + HeadLength(f) + if p.First() then 4 else 0
  {
    var f := Frame(c, k, p);
    FrameLayout(p, Body(c, k, p));
    assert [f[2], f[3]] == f[2..][..2];
  }

  /**
   The server's parser takes the first frame of a message as one frame, with nothing left over, if
   and only if the message is not split: the total length of a first frame is not part of the
   length that the parser skips.
   */
  lemma SplitMessagesMisparse(c: Cipher, limit: nat, k: nat, m: Message)
    requires Sound(c) && ValidLimit(limit) && WellFormed(m)
    ensures var (fs, t) := Split(Frame(c, k, Cut(m, limit).0));
            |fs| == 1 && t == [] <==> Unsplit(m, limit)
  {
    var p := Cut(m, limit).0;
    var f := Frame(c, k, p);
    FirstMeansSplit(m, limit);
    FrameHead(c, k, p);
    SplitHead(f);
    var rest := f[4 + HeadLength(f)..];
    if p.First() {
      assert |rest| == 4;
    } else {
      assert rest == [];
    }
  }
}
