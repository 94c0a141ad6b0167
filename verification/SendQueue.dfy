/**
 The fragmenting send queue (`sendMessage` with `getMessage` in AAServer, with `prepareMessage`
 in AAClient; the two differ only in the fragment limit) against the reassembly loop of AAClient.
 */
module SendQueue {
  import opened Utils
  import opened Framing

  const SERVER_LIMIT: nat := 2000
  const CLIENT_LIMIT: nat := 10000

  predicate ValidLimit(limit: nat) { 0 < limit <= MAX_RECORD }

  // ---------------------------------------------------------------- one drain call

  /** A partly sent message as it was when it was queued. */
  function Restored(m: Message): Message { m.(flags := m.flags | BULK, offset := 0) }

  /** The frame that the head yields, and what replaces the head (nothing after a full or last frame). */
  function Cut(m: Message, limit: nat): (Piece, Option<Message>)
    requires m.offset <= |m.content|
  {
    var total := |m.content|;
    var left := total - m.offset;
    if !m.Encrypted() then
      (Piece(m.channel, m.flags, m.content, total), None)
    else if left <= limit && m.flags & BULK != 0 then
      (Piece(m.channel, m.flags, m.content[m.offset..], total), None)
    else if left > limit then
      var flags := if m.flags & BULK != 0 then (m.flags & !BULK) | FIRST else m.flags;
      (Piece(m.channel, flags, m.content[m.offset..m.offset + limit], total),
       Some(m.(flags := flags & !BULK, offset := m.offset + limit)))
    else
      (Piece(m.channel, m.flags | LAST, m.content[m.offset..], total), None)
  }

  /** Sender state with the history of what was queued and what was emitted. */
  datatype Tx = Tx(queue: seq<Message>, sealed: nat, frames: seq<Bytes>, sent: seq<Message>)

  const TX_START := Tx([], 0, [], [])

  function Enqueue(s: Tx, m: Message): Tx {
    s.(queue := s.queue + [m], sent := s.sent + [m])
  }

  /** The state after one frame: `queue` is what is left and `p` what was sent. */
  function Emit(c: Cipher, s: Tx, queue: seq<Message>, p: Piece): Tx {
    Tx(queue, s.sealed + (if p.Encrypted() then 1 else 0), s.frames + [Frame(c, s.sealed, p)], s.sent)
  }

  function Drain(c: Cipher, limit: nat, s: Tx): Tx
    requires s.queue != [] ==> s.queue[0].offset <= |s.queue[0].content|
  {
    if s.queue == [] then s
    else
      var (p, rest) := Cut(s.queue[0], limit);
      Emit(c, s, if rest.Some? then [rest.value] + s.queue[1..] else s.queue[1..], p)
  }

  // ---------------------------------------------------------------- work

  /** `max(1, ceil(n / limit))`. */
  function Pieces(n: nat, limit: nat): (k: nat)
    requires 0 < limit
    ensures k >= 1 && (k - 1) * limit <= n <= k * limit
    ensures n > 0 ==> (k - 1) * limit < n
  {
    if n <= limit then 1 else 1 + Pieces(n - limit, limit)
  }

  /** How many more frames a queued message takes. */
  function Work(m: Message, limit: nat): (k: nat)
    requires 0 < limit
    ensures k >= 1
  {
    if m.Encrypted() && m.offset <= |m.content| then Pieces(|m.content| - m.offset, limit) else 1
  }

  function TotalWork(ms: seq<Message>, limit: nat): (k: nat)
    requires 0 < limit
    ensures k >= |ms|
  {
    if ms == [] then 0 else TotalWork(ms[..|ms| - 1], limit) + Work(ms[|ms| - 1], limit)
  }

  lemma {:induction false} TotalWorkHead(ms: seq<Message>, limit: nat)
    requires 0 < limit && ms != []
    ensures TotalWork(ms, limit) == Work(ms[0], limit) + TotalWork(ms[1..], limit)
  {
    if |ms| == 1 {
      assert ms[..0] == [] == ms[1..];
    } else {
      var front := ms[..|ms| - 1];
      TotalWorkHead(front, limit);
      assert front[1..] == ms[1..][..|ms| - 2];
    }
  }

  // ---------------------------------------------------------------- the queue invariant

  predicate Multiple(n: int, d: nat)
    requires 0 < d
  {
    n == 0 || (n >= d && Multiple(n - d, d))
  }

  /**
   The head may be partly sent: then it is encrypted, its frame bits are clear and its offset is
   a multiple of the limit strictly inside the content.
   */
  predicate HeadOk(m: Message, limit: nat)
    requires 0 < limit
  {
    && WellFormed(Restored(m))
    && (m.offset == 0 ==> m.flags & BULK == BULK)
    && (m.offset > 0 ==> m.Encrypted() && m.flags & BULK == 0 && m.offset < |m.content| && Multiple(m.offset, limit))
  }

  /** Only the head can be partly sent. */
  predicate QueueOk(queue: seq<Message>, limit: nat)
    requires 0 < limit
  {
    queue != [] ==> HeadOk(queue[0], limit) && forall i :: 0 < i < |queue| ==> WellFormed(queue[i])
  }

  /** The queue as it would be had nothing of the head been sent. */
  function Pending(queue: seq<Message>): seq<Message> {
    if queue == [] then [] else [Restored(queue[0])] + queue[1..]
  }

  /** The part of the head that has been sent, and the total length announced for it. */
  function Held(queue: seq<Message>): Bytes
    requires queue != [] ==> queue[0].offset <= |queue[0].content|
  {
    if queue == [] then [] else queue[0].content[..queue[0].offset]
  }

  function HeldTotal(queue: seq<Message>): nat {
    if queue == [] || queue[0].offset == 0 then 0 else |queue[0].content|
  }

  /**
   The refinement: what the receiver has completed, followed by the queue, is exactly what was
   queued; what the receiver holds of the next message is what the head has sent; and the frames
   emitted plus the frames still to come are the frames of all that was queued.
   */
  predicate Inv(c: Cipher, limit: nat, s: Tx)
    requires 0 < limit
  {
    && QueueOk(s.queue, limit)
    && Receive(c, RX_START, s.frames).out + Pending(s.queue) == s.sent
    && Receive(c, RX_START, s.frames)
       == Rx(Receive(c, RX_START, s.frames).out, Held(s.queue), HeldTotal(s.queue), s.sealed, false)
    && |s.frames| + TotalWork(s.queue, limit) == TotalWork(s.sent, limit)
  }

  lemma InvStart(c: Cipher, limit: nat)
    requires 0 < limit
    ensures Inv(c, limit, TX_START)
  {
  }

  lemma RestoredWhole(m: Message)
    requires m.flags & BULK == BULK && m.offset == 0
    ensures Restored(m) == m
  {
    assert m.flags & BULK == BULK ==> m.flags | BULK == m.flags;
  }

  lemma PendingSnoc(queue: seq<Message>, m: Message)
    requires WellFormed(m)
    ensures Pending(queue + [m]) == Pending(queue) + [m]
  {
    if queue == [] {
      RestoredWhole(m);
    } else {
      assert (queue + [m])[1..] == queue[1..] + [m];
    }
  }

  lemma TotalWorkSnoc(ms: seq<Message>, m: Message, limit: nat)
    requires 0 < limit
    ensures TotalWork(ms + [m], limit) == TotalWork(ms, limit) + Work(m, limit)
  {
    assert (ms + [m])[..|ms|] == ms;
  }

  lemma QueueOkSnoc(queue: seq<Message>, m: Message, limit: nat)
    requires 0 < limit && QueueOk(queue, limit) && WellFormed(m)
    ensures QueueOk(queue + [m], limit)
    ensures Held(queue + [m]) == Held(queue) && HeldTotal(queue + [m]) == HeldTotal(queue)
  {
    RestoredWhole(m);
  }

  lemma EnqueueKeepsInv(c: Cipher, limit: nat, s: Tx, m: Message)
    requires 0 < limit && Inv(c, limit, s) && WellFormed(m)
    ensures Inv(c, limit, Enqueue(s, m))
  {
    PendingSnoc(s.queue, m);
    TotalWorkSnoc(s.queue, m, limit);
    TotalWorkSnoc(s.sent, m, limit);
    RestoredWhole(m);
    ConcatAssoc(Receive(c, RX_START, s.frames).out, Pending(s.queue), [m]);
    QueueOkSnoc(s.queue, m, limit);
  }

  /** A piece that completes the head. */
  predicate Finishes(m: Message, limit: nat, p: Piece)
    requires 0 < limit && m.offset <= |m.content|
  {
    && Sendable(p) && p.channel == m.channel && p.data == m.content[m.offset..]
    && !p.First() && p.flags | BULK == m.flags | BULK
    && Work(m, limit) == 1
  }

  /** A piece that takes the next `limit` bytes off the head and leaves `next` in its place. */
  predicate Advances(m: Message, limit: nat, p: Piece, next: Message)
    requires 0 < limit && m.offset <= |m.content|
  {
    && Sendable(p) && p.total == |m.content| && (p.First() <==> m.offset == 0)
    && HeadOk(next, limit) && Restored(next) == Restored(m) && next.content == m.content
    && next.offset == m.offset + limit && p.data == m.content[m.offset..next.offset]
    && Work(m, limit) == 1 + Work(next, limit)
  }

  /** What the four branches do to the flag bits. */
  lemma FrameBits(f: Flags)
    ensures f & BULK == BULK ==> f & BULK != FIRST
    ensures (f | LAST) & BULK != FIRST && (f | LAST) | BULK == f | BULK && (f | LAST) & ENCRYPTED == f & ENCRYPTED
    ensures var g := (f & !BULK) | FIRST;
            && g & BULK == FIRST && g & ENCRYPTED == f & ENCRYPTED
            && (g & !BULK) | BULK == f | BULK && (g & !BULK) & BULK == 0 && (g & !BULK) & ENCRYPTED == f & ENCRYPTED
    ensures f & BULK == 0 ==> f & !BULK == f && f & BULK != FIRST
    ensures (f | BULK) & ENCRYPTED == f & ENCRYPTED && (f | BULK) & BULK == BULK
  {
  }

  /** What a legal head yields: the full and last frame ... */
  lemma CutDone(m: Message, limit: nat)
    requires ValidLimit(limit) && HeadOk(m, limit) && (m.Encrypted() ==> |m.content| - m.offset <= limit)
    ensures Cut(m, limit).1.None? && Finishes(m, limit, Cut(m, limit).0)
    ensures var p := Cut(m, limit).0;
            p.flags & !BULK == m.flags & !BULK && p.flags & BULK == if m.offset == 0 then BULK else LAST
  {
    FrameBits(m.flags);
  }

  /** ... the first and intermediate frame ... */
  lemma CutMore(m: Message, limit: nat)
    requires ValidLimit(limit) && HeadOk(m, limit) && m.Encrypted() && |m.content| - m.offset > limit
    ensures Cut(m, limit).1.Some? && Advances(m, limit, Cut(m, limit).0, Cut(m, limit).1.value)
    ensures var p := Cut(m, limit).0;
            p.flags & !BULK == m.flags & !BULK && p.flags & BULK == (if m.offset == 0 then FIRST else 0) && p.channel == m.channel
  {
    FrameBits(m.flags);
  }

  /** ... and so one or the other. */
  lemma CutFacts(m: Message, limit: nat)
    requires ValidLimit(limit) && HeadOk(m, limit)
    ensures var (p, rest) := Cut(m, limit);
            && (rest.None? ==> Finishes(m, limit, p))
            && (rest.Some? ==> Advances(m, limit, p, rest.value))
  {
    if m.Encrypted() && |m.content| - m.offset > limit {
      CutMore(m, limit);
    } else {
      CutDone(m, limit);
    }
  }

  lemma EmitReceived(c: Cipher, limit: nat, s: Tx, queue: seq<Message>, p: Piece)
    requires Sound(c) && 0 < limit && Inv(c, limit, s) && Sendable(p)
    ensures Receive(c, RX_START, Emit(c, s, queue, p).frames)
         == Accept(Receive(c, RX_START, s.frames).(decrypted := Emit(c, s, queue, p).sealed), p.channel, p.flags,
                   if p.First() then p.total else HeldTotal(s.queue), p.data)
  {
    ReceiveOneMore(c, RX_START, s.frames, Frame(c, s.sealed, p));
    FrameAccepted(c, Receive(c, RX_START, s.frames), p);
  }

  lemma RestIsWhole(queue: seq<Message>, limit: nat)
    requires 0 < limit && QueueOk(queue, limit) && queue != []
    ensures var rest := queue[1..];
            QueueOk(rest, limit) && Pending(rest) == rest && Held(rest) == [] && HeldTotal(rest) == 0
  {
    var rest := queue[1..];
    if rest != [] {
      assert WellFormed(queue[1]);
      RestoredWhole(rest[0]);
      assert [rest[0]] + rest[1..] == rest;
    }
  }

  /** A full or last frame makes the receiver complete the head. */
  lemma FinishKeepsInv(c: Cipher, limit: nat, s: Tx, p: Piece)
    requires Sound(c) && 0 < limit && Inv(c, limit, s)
    requires s.queue != [] && Finishes(s.queue[0], limit, p)
    ensures Inv(c, limit, Emit(c, s, s.queue[1..], p))
    ensures TotalWork(s.queue[1..], limit) == TotalWork(s.queue, limit) - 1
  {
    var m, rest := s.queue[0], s.queue[1..];
    var done := Receive(c, RX_START, s.frames).out;
    EmitReceived(c, limit, s, rest, p);
    TakeDrop(m.content, m.offset);
    TotalWorkHead(s.queue, limit);
    RestIsWhole(s.queue, limit);
    ConcatAssoc(done, [Restored(m)], rest);
  }

  /** A first or intermediate frame moves one limit's worth of the head to the receiver. */
  lemma AdvanceKeepsInv(c: Cipher, limit: nat, s: Tx, p: Piece, next: Message)
    requires Sound(c) && 0 < limit && Inv(c, limit, s)
    requires s.queue != [] && Advances(s.queue[0], limit, p, next)
    ensures Inv(c, limit, Emit(c, s, [next] + s.queue[1..], p))
    ensures TotalWork([next] + s.queue[1..], limit) == TotalWork(s.queue, limit) - 1
  {
    var m, queue := s.queue[0], [next] + s.queue[1..];
    EmitReceived(c, limit, s, queue, p);
    TakeSlice(m.content, m.offset, next.offset);
    ConsTail(next, s.queue[1..]);
    TotalWorkHead(s.queue, limit);
    TotalWorkHead(queue, limit);
  }

  /** One drain call keeps the refinement and takes exactly one frame off the work left. */
  lemma DrainKeepsInv(c: Cipher, limit: nat, s: Tx)
    requires Sound(c) && ValidLimit(limit) && Inv(c, limit, s)
    ensures var t := Drain(c, limit, s);
            && Inv(c, limit, t)
            && (s.queue != [] ==> TotalWork(t.queue, limit) == TotalWork(s.queue, limit) - 1)
  {
    if s.queue != [] {
      CutFacts(s.queue[0], limit);
      var (p, rest) := Cut(s.queue[0], limit);
      if rest.None? {
        FinishKeepsInv(c, limit, s, p);
      } else {
        AdvanceKeepsInv(c, limit, s, p, rest.value);
      }
    }
  }

  // ---------------------------------------------------------------- the marks of the frames

  /**
   The flags of the i-th of the `k` frames of a message: its own, but for the two frame bits. Those are
   both set on a frame that is the only one; otherwise one marks the first, the other the last, and
   none those in between.
   */
  function Marks(flags: Flags, k: int, i: int): Flags {
    (flags & !BULK) | if k == 1 then BULK else if i == 0 then FIRST else if i == k - 1 then LAST else 0
  }

  /** The first two bytes of such a frame, and the total length that the first of several announces. */
  predicate FrameMarked(f: Bytes, m: Message, k: int, i: int) {
    && |f| >= 2 && f[0] == m.channel && f[1] == Marks(m.flags, k, i) as byte
    && (k > 1 && i == 0 ==> |f| >= 8 && ToInt32(f[4..]) == |m.content|)
  }

  /** The frames of a message, as far as they have been sent, begin at `start`. */
  predicate MessageMarked(limit: nat, m: Message, start: nat, frames: seq<Bytes>)
    requires 0 < limit
  {
    forall p :: start <= p < start + Work(m, limit) && p < |frames| ==> FrameMarked(frames[p], m, Work(m, limit), p - start)
  }

  /** A message takes the frames that follow those of the messages before it. */
  predicate Placed(limit: nat, sent: seq<Message>, frames: seq<Bytes>, j: nat)
    requires 0 < limit
  {
    j < |sent| ==> MessageMarked(limit, sent[j], TotalWork(sent[..j], limit), frames)
  }

  ghost predicate FramesMarked(limit: nat, sent: seq<Message>, frames: seq<Bytes>)
    requires 0 < limit
  {
    forall j: nat :: Placed(limit, sent, frames, j)
  }

  lemma {:induction false} PiecesLeft(n: nat, offset: nat, limit: nat)
    requires 0 < limit && 0 < offset < n && Multiple(offset, limit)
    ensures Pieces(n, limit) > Pieces(n - offset, limit)
  {
    if offset > limit {
      PiecesLeft(n - limit, offset - limit, limit);
    }
  }

  /** How many frames the head takes in all, and how many are left. */
  lemma HeadWork(m: Message, limit: nat)
    requires ValidLimit(limit) && HeadOk(m, limit)
    ensures var whole, left := Work(Restored(m), limit), Work(m, limit);
            && left <= whole && (left == whole <==> m.offset == 0)
            && (left > 1 <==> m.Encrypted() && |m.content| - m.offset > limit)
  {
    FrameBits(m.flags);
    if m.offset > 0 {
      PiecesLeft(|m.content|, m.offset, limit);
    }
  }

  /** The four branches leave flags of this form. */
  lemma MarkBits(f: Flags)
    ensures f & BULK == BULK ==> f == ((f | BULK) & !BULK) | BULK
    ensures (f & !BULK) | FIRST == ((f | BULK) & !BULK) | FIRST
    ensures f & BULK == 0 ==> f == ((f | BULK) & !BULK) | 0 && f | LAST == ((f | BULK) & !BULK) | LAST
  {
  }

  /** The flags of the head's next frame, which is the one after those that it has been sent in. */
  lemma CutMarks(m: Message, limit: nat)
    requires ValidLimit(limit) && HeadOk(m, limit)
    ensures var p, k := Cut(m, limit).0, Work(Restored(m), limit);
            && p.channel == m.channel && p.flags == Marks(Restored(m).flags, k, k - Work(m, limit))
            && p.total == |m.content| < 0x8000_0000
            && (k > 1 && k == Work(m, limit) ==> p.Encrypted() && p.First())
  {
    HeadWork(m, limit);
    MarkBits(m.flags);
    var p, k := Cut(m, limit).0, Work(Restored(m), limit);
    if m.offset == 0 {
      assert p.flags == if k == 1 then m.flags else (m.flags & !BULK) | FIRST;
    } else {
      assert p.flags == if Work(m, limit) == 1 then m.flags | LAST else m.flags;
    }
  }

  lemma CutMarked(c: Cipher, k: nat, m: Message, limit: nat)
    requires ValidLimit(limit) && HeadOk(m, limit)
    ensures var whole := Work(Restored(m), limit);
            && Work(m, limit) <= whole
            && FrameMarked(Frame(c, k, Cut(m, limit).0), Restored(m), whole, whole - Work(m, limit))
  {
    var p := Cut(m, limit).0;
    CutMarks(m, limit);
    HeadWork(m, limit);
    FrameLayout(p, Body(c, k, p));
  }

  lemma {:induction false} TotalWorkAppend(a: seq<Message>, b: seq<Message>, limit: nat)
    requires 0 < limit
    ensures TotalWork(a + b, limit) == TotalWork(a, limit) + TotalWork(b, limit)
  {
    if b == [] {
      assert a + b == a;
    } else {
      AppendFront(a, b);
      TotalWorkAppend(a, b[..|b| - 1], limit);
    }
  }

  /** The frames of one message end before those of any later one begin. */
  lemma FramesInOrder(sent: seq<Message>, j: nat, d: nat, limit: nat)
    requires 0 < limit && j < d <= |sent|
    ensures TotalWork(sent[..j], limit) + Work(sent[j], limit) <= TotalWork(sent[..d], limit)
  {
    TakeOneMore(sent, j);
    TotalWorkSnoc(sent[..j], sent[j], limit);
    TakeSlice(sent, j + 1, d);
    TotalWorkAppend(sent[..j + 1], sent[j + 1..d], limit);
  }

  lemma EnqueueKeepsMarks(limit: nat, s: Tx, m: Message)
    requires 0 < limit && |s.frames| <= TotalWork(s.sent, limit) && FramesMarked(limit, s.sent, s.frames)
    ensures FramesMarked(limit, Enqueue(s, m).sent, s.frames)
  {
    var sent := s.sent + [m];
    forall j: nat ensures Placed(limit, sent, s.frames, j) {
      if j < |sent| {
        SnocSlices(s.sent, m, j);
        assert Placed(limit, s.sent, s.frames, j);
      }
    }
  }

  /** How many messages have been sent whole, and where the head's frames begin. */
  lemma HeadPosition(c: Cipher, limit: nat, s: Tx)
    requires 0 < limit && Inv(c, limit, s) && s.queue != []
    ensures var d := |s.sent| - |s.queue|;
            && 0 <= d < |s.sent| && s.sent[d] == Restored(s.queue[0])
            && |s.frames| == TotalWork(s.sent[..d], limit) + Work(s.sent[d], limit) - Work(s.queue[0], limit)
  {
    var done := Receive(c, RX_START, s.frames).out;
    var pending := Pending(s.queue);
    assert done + pending == s.sent;
    assert s.sent[..|done|] == done;
    TotalWorkAppend(done, pending, limit);
    TotalWorkHead(pending, limit);
    TotalWorkHead(s.queue, limit);
    ConsTail(Restored(s.queue[0]), s.queue[1..]);
  }

  lemma MarkedAfter(limit: nat, sent: seq<Message>, frames: seq<Bytes>, f: Bytes, d: nat, j: nat)
    requires 0 < limit && d < |sent| && j < |sent| && j != d
    requires MessageMarked(limit, sent[j], TotalWork(sent[..j], limit), frames)
    requires TotalWork(sent[..d], limit) <= |frames| < TotalWork(sent[..d], limit) + Work(sent[d], limit)
    ensures MessageMarked(limit, sent[j], TotalWork(sent[..j], limit), frames + [f])
  {
    if j < d {
      FramesInOrder(sent, j, d, limit);
    } else {
      FramesInOrder(sent, d, j, limit);
    }
  }

  lemma NextFrameMarked(limit: nat, sent: seq<Message>, frames: seq<Bytes>, f: Bytes, d: nat, n: nat)
    requires 0 < limit && FramesMarked(limit, sent, frames)
    requires d < |sent| && n < Work(sent[d], limit) && |frames| == TotalWork(sent[..d], limit) + n
    requires FrameMarked(f, sent[d], Work(sent[d], limit), n)
    ensures FramesMarked(limit, sent, frames + [f])
  {
    forall j: nat ensures Placed(limit, sent, frames + [f], j) {
      assert Placed(limit, sent, frames, j);
      if j != d && j < |sent| {
        MarkedAfter(limit, sent, frames, f, d, j);
      }
    }
  }

  lemma DrainKeepsMarks(c: Cipher, limit: nat, s: Tx)
    requires Sound(c) && ValidLimit(limit) && Inv(c, limit, s) && FramesMarked(limit, s.sent, s.frames)
    ensures FramesMarked(limit, s.sent, Drain(c, limit, s).frames)
  {
    if s.queue != [] {
      var d, m := |s.sent| - |s.queue|, s.queue[0];
      HeadPosition(c, limit, s);
      CutMarked(c, s.sealed, m, limit);
      NextFrameMarked(limit, s.sent, s.frames, Frame(c, s.sealed, Cut(m, limit).0), d, Work(s.sent[d], limit) - Work(m, limit));
    }
  }

  // ---------------------------------------------------------------- whole runs

  /** Any number of producers and one drain thread, each call atomic under the queue mutex. */
  datatype Event = Send(m: Message) | DrainCall

  predicate AllWellFormed(es: seq<Event>) {
    forall e :: e in es && e.Send? ==> WellFormed(e.m)
  }

  function Sends(es: seq<Event>): seq<Message> {
    if es == [] then []
    else
      var e := es[|es| - 1];
      Sends(es[..|es| - 1]) + if e.Send? then [e.m] else []
  }

  /** Every interleaving of `sendMessage` and drain calls keeps the refinement. */
  ghost function Run(c: Cipher, limit: nat, es: seq<Event>): (s: Tx)
    requires Sound(c) && ValidLimit(limit) && AllWellFormed(es)
    ensures Inv(c, limit, s) && s.sent == Sends(es)
  {
    InvStart(c, limit);
    if es == [] then TX_START
    else
      var s := Run(c, limit, es[..|es| - 1]);
      var e := es[|es| - 1];
      assert e in es;
      if e.Send? then
        EnqueueKeepsInv(c, limit, s, e.m);
        Enqueue(s, e.m)
      else
        DrainKeepsInv(c, limit, s);
        Drain(c, limit, s)
  }

  /**
   FIFO refinement over all runs: reassembling the frames emitted so far never fails and gives a
   prefix of the messages queued, in order and unchanged; the bytes collected for the next message
   and the unsent bytes of the head are together the head's content; only the head is partly sent.
   */
  lemma FifoRefinement(c: Cipher, limit: nat, es: seq<Event>)
    requires Sound(c) && ValidLimit(limit) && AllWellFormed(es)
    ensures var s := Run(c, limit, es);
            var r := Receive(c, RX_START, s.frames);
            && !r.failed
            && |Sends(es)| == |r.out| + |s.queue|
            && Sends(es)[..|r.out|] == r.out
            && (forall i :: 0 < i < |s.queue| ==> s.queue[i] == Sends(es)[|r.out| + i] && s.queue[i].offset == 0)
            && (s.queue != [] ==>
                  var m := s.queue[0];
                  && m.offset <= |m.content| && Restored(m) == Sends(es)[|r.out|]
                  && r.acc + m.content[m.offset..] == m.content)
  {
    var s := Run(c, limit, es);
    var r := Receive(c, RX_START, s.frames);
    assert r.out + Pending(s.queue) == Sends(es);
    if s.queue != [] {
      TakeDrop(s.queue[0].content, s.queue[0].offset);
    }
  }

  /** In every run every frame, in its place, carries the marks of the message that it is a part of. */
  lemma {:induction false} MarksOfRun(c: Cipher, limit: nat, es: seq<Event>)
    requires Sound(c) && ValidLimit(limit) && AllWellFormed(es)
    ensures FramesMarked(limit, Sends(es), Run(c, limit, es).frames)
  {
    if es != [] {
      var front, e := es[..|es| - 1], es[|es| - 1];
      var s := Run(c, limit, front);
      MarksOfRun(c, limit, front);
      if e.Send? {
        EnqueueKeepsMarks(limit, s, e.m);
      } else {
        DrainKeepsMarks(c, limit, s);
        assert Sends(es) == Sends(front);
      }
    }
  }

  /** The number of frames is exactly the sum of `max(1, ceil(n / limit))` once the queue is empty. */
  lemma FramesExactly(c: Cipher, limit: nat, es: seq<Event>)
    requires Sound(c) && ValidLimit(limit) && AllWellFormed(es)
    ensures var s := Run(c, limit, es);
            && |s.frames| <= TotalWork(Sends(es), limit)
            && (s.queue == [] <==> |s.frames| == TotalWork(Sends(es), limit))
            && (s.queue == [] ==> Receive(c, RX_START, s.frames).out == Sends(es))
  {
  }

  /**
   The frame, as the receiver's k-th record if it is encrypted, fits its 16-bit length field and every
   buffer it passes through, and so does what it decrypts to.
   */
  predicate SizeOk(c: Cipher, k: nat, f: Bytes) {
    4 <= |f| <= 100000 &&
    var header := if f[1] as Flags & BULK == FIRST then 8 else 4;
    && header <= |f| && ToInt16(f[2..]) == |f| - header
    && (f[1] as Flags & ENCRYPTED != 0 ==>
          && |f| <= RECORD_BUFFER
          && var plain := c.open(k, f[header..]);
             plain.Some? && |plain.value| <= RECORD_BUFFER)
  }

  lemma SendableSizeOk(c: Cipher, k: nat, p: Piece)
    requires Sound(c) && Sendable(p)
    ensures SizeOk(c, k, Frame(c, k, p))
  {
    FrameFits(c, k, p);
    FrameLayout(p, Body(c, k, p));
    FlagsByte(p.flags);
  }

  /** The frame that a drain call emits, when it arrives. */
  lemma EmittedSize(c: Cipher, limit: nat, s: Tx)
    requires Sound(c) && ValidLimit(limit) && Inv(c, limit, s) && s.queue != []
    ensures var t := Drain(c, limit, s);
            && |t.frames| == |s.frames| + 1 && t.frames[..|s.frames|] == s.frames
            && SizeOk(c, Receive(c, RX_START, s.frames).decrypted, t.frames[|s.frames|])
  {
    CutFacts(s.queue[0], limit);
    SendableSizeOk(c, s.sealed, Cut(s.queue[0], limit).0);
  }

  predicate Fits(c: Cipher, frames: seq<Bytes>, i: nat)
    requires i < |frames|
  {
    SizeOk(c, Receive(c, RX_START, frames[..i]).decrypted, frames[i])
  }

  predicate AllFit(c: Cipher, frames: seq<Bytes>) { forall i :: 0 <= i < |frames| ==> Fits(c, frames, i) }

  lemma StillFits(c: Cipher, frames: seq<Bytes>, more: seq<Bytes>, i: nat)
    requires i < |frames| <= |more| && more[..|frames|] == frames && Fits(c, frames, i)
    ensures Fits(c, more, i)
  {
    assert more[i] == frames[i] && more[..i] == frames[..i];
  }

  lemma LastFits(c: Cipher, frames: seq<Bytes>, more: seq<Bytes>)
    requires |more| == |frames| + 1 && more[..|frames|] == frames
    requires SizeOk(c, Receive(c, RX_START, frames).decrypted, more[|frames|])
    ensures Fits(c, more, |frames|)
  {
  }

  lemma OneMoreFits(c: Cipher, frames: seq<Bytes>, more: seq<Bytes>)
    requires AllFit(c, frames) && |more| == |frames| + 1 && more[..|frames|] == frames && Fits(c, more, |frames|)
    ensures AllFit(c, more)
  {
    forall i | 0 <= i < |more| ensures Fits(c, more, i) {
      if i < |frames| {
        StillFits(c, frames, more, i);
      }
    }
  }

  /** In every run every frame fits, decrypted when it arrives. */
  lemma {:induction false} FrameSizes(c: Cipher, limit: nat, es: seq<Event>)
    requires Sound(c) && ValidLimit(limit) && AllWellFormed(es)
    ensures AllFit(c, Run(c, limit, es).frames)
  {
    if es != [] {
      var front := es[..|es| - 1];
      var s := Run(c, limit, front);
      FrameSizes(c, limit, front);
      if es[|es| - 1].DrainCall? && s.queue != [] {
        EmittedSize(c, limit, s);
        LastFits(c, s.frames, Drain(c, limit, s).frames);
        OneMoreFits(c, s.frames, Drain(c, limit, s).frames);
      }
    }
  }

  lemma DrainCounts(c: Cipher, limit: nat, s: Tx)
    requires Sound(c) && ValidLimit(limit) && Inv(c, limit, s)
    ensures var t := Drain(c, limit, s);
            && Inv(c, limit, t) && t.sent == s.sent
            && TotalWork(t.queue, limit) == if s.queue == [] then 0 else TotalWork(s.queue, limit) - 1
    ensures s.queue == [] <==> TotalWork(s.queue, limit) == 0
  {
    DrainKeepsInv(c, limit, s);
  }

  /** `n` drain calls in a row, with nothing queued in between. */
  ghost function DrainTimes(c: Cipher, limit: nat, s: Tx, n: nat): (t: Tx)
    requires Sound(c) && ValidLimit(limit) && Inv(c, limit, s)
    ensures Inv(c, limit, t) && t.sent == s.sent
    ensures TotalWork(t.queue, limit) == if n <= TotalWork(s.queue, limit) then TotalWork(s.queue, limit) - n else 0
  {
    if n == 0 then s
    else
      var u := DrainTimes(c, limit, s, n - 1);
      DrainCounts(c, limit, u);
      Drain(c, limit, u)
  }

  /**
   Round trip of one message of any length: the reassembly loop completes nothing until exactly
   the `max(1, ceil(n / limit))`-th frame, and then returns the message with its own channel,
   content and flags.
   */
  lemma FragmentRoundTrip(c: Cipher, limit: nat, m: Message, n: nat)
    requires Sound(c) && ValidLimit(limit) && WellFormed(m)
    ensures Inv(c, limit, Enqueue(TX_START, m))
    ensures var t := DrainTimes(c, limit, Enqueue(TX_START, m), n);
            Receive(c, RX_START, t.frames).out == if n < Work(m, limit) then [] else [m]
  {
    InvStart(c, limit);
    EnqueueKeepsInv(c, limit, TX_START, m);
    var s := Enqueue(TX_START, m);
    var t := DrainTimes(c, limit, s, n);
    TotalWorkSnoc([], m, limit);
    assert s.queue == [m] && [] + [m] == [m];
    assert Receive(c, RX_START, t.frames).out + Pending(t.queue) == [m];
    if n < Work(m, limit) {
      assert t.queue != [];
    } else {
      assert t.queue == [];
    }
  }

  lemma OnlyMessage(limit: nat, m: Message)
    requires 0 < limit
    ensures TotalWork([m], limit) == Work(m, limit) && TotalWork([m][..0], limit) == 0
  {
    TotalWorkSnoc([], m, limit);
    assert [] + [m] == [m];
  }

  lemma OnlyMessageMarked(limit: nat, m: Message, frames: seq<Bytes>)
    requires 0 < limit && FramesMarked(limit, [m], frames) && |frames| <= Work(m, limit)
    ensures forall i :: 0 <= i < |frames| ==> FrameMarked(frames[i], m, Work(m, limit), i)
  {
    OnlyMessage(limit, m);
    assert Placed(limit, [m], frames, 0);
  }

  lemma {:induction false} SendsWellFormed(es: seq<Event>)
    requires AllWellFormed(es)
    ensures forall m :: m in Sends(es) ==> WellFormed(m)
  {
    if es != [] {
      assert es[|es| - 1] in es;
      SendsWellFormed(es[..|es| - 1]);
    }
  }

  lemma OnlySend(es: seq<Event>, m: Message)
    requires AllWellFormed(es) && Sends(es) == [m]
    ensures WellFormed(m)
  {
    SendsWellFormed(es);
    assert m in Sends(es);
  }

  /**
   The frames of one message of any length, on their first bytes, however many of them have been sent: the
   message's channel, its flags but for the frame bits, and both frame bits if there is one frame
   only; otherwise First on the first, which also carries the length of the whole, Last on the last
   and none in between.
   */
  lemma FrameTypes(c: Cipher, limit: nat, es: seq<Event>, m: Message)
    requires Sound(c) && ValidLimit(limit) && AllWellFormed(es) && Sends(es) == [m]
    ensures var s := Run(c, limit, es);
            var k := if m.Encrypted() then Pieces(|m.content|, limit) else 1;
            && |s.frames| <= k && (s.queue == [] <==> |s.frames| == k)
            && forall i :: 0 <= i < |s.frames| ==> FrameMarked(s.frames[i], m, k, i)
  {
    var s := Run(c, limit, es);
    OnlySend(es, m);
    FramesExactly(c, limit, es);
    OnlyMessage(limit, m);
    assert FramesMarked(limit, [m], s.frames) by {
      MarksOfRun(c, limit, es);
    }
    OnlyMessageMarked(limit, m, s.frames);
  }

  /** The frame of a plain message, and what the receiver reads off it. */
  lemma PlainFrame(c: Cipher, limit: nat, m: Message)
    requires !m.Encrypted() && m.flags & BULK == BULK && m.offset == 0
    ensures var f := Frame(c, 0, Cut(m, limit).0);
            && |f| == 4 + |m.content| && f[0] == m.channel && f[1] == m.flags as byte && f[1] as Flags == m.flags
            && ToInt16(f[2..]) == |m.content| % 0x1_0000 && f[4..] == m.content
  {
    var p := Piece(m.channel, m.flags, m.content, 0);
    assert Frame(c, 0, Cut(m, limit).0) == Frame(c, 0, p);
    FrameLayout(p, m.content);
    FlagsByte(m.flags);
  }

  /** A plain frame that is not a first frame is accepted as it is, or found to have the wrong length. */
  lemma PlainReceived(c: Cipher, f: Bytes, flags: Flags)
    requires |f| >= 4 && f[1] as Flags == flags && flags & ENCRYPTED == 0 && flags & BULK != FIRST
    ensures RxStep(c, RX_START, f) ==
            if ToInt16(f[2..]) != |f| - 4 then RX_START.(failed := true)
            else Rx([Message(f[0], flags | BULK, f[4..], 0)], [], 0, 0, false)
  {
    assert [] + f[4..] == f[4..];
  }

  lemma PlainDrain(c: Cipher, limit: nat, s: Tx)
    requires s.queue != [] && !s.queue[0].Encrypted() && s.queue[0].offset <= |s.queue[0].content|
    ensures var m := s.queue[0];
            Drain(c, limit, s) ==
            Tx(s.queue[1..], s.sealed, s.frames + [[m.channel, m.flags as byte] + Int16(|m.content|) + m.content], s.sent)
  {
    var p := Cut(s.queue[0], limit).0;
    assert Header(p, |p.data|) == [p.channel, p.flags as byte] + Int16(|p.data|);
  }

  /**
   A plain message is never split, and its round trip succeeds if and only if its length fits the
   16-bit length field.
   */
  lemma PlainRoundTripExactly(c: Cipher, limit: nat, m: Message)
    requires !m.Encrypted() && m.flags & BULK == BULK && m.offset == 0
    ensures var r := RxStep(c, RX_START, Frame(c, 0, Cut(m, limit).0));
            if |m.content| < 0x1_0000 then r == Rx([m], [], 0, 0, false) else r.failed && r.out == []
  {
    PlainFrame(c, limit, m);
    FrameBits(m.flags);
    RestoredWhole(m);
    PlainReceived(c, Frame(c, 0, Cut(m, limit).0), m.flags);
  }

  // ---------------------------------------------------------------- the code

  /** The sending half of `AaCommunicator`: the queue, the TLS write side and its memory BIO. */
  class Sender {
    const cipher: Cipher
    const maxSize: nat
    var sendQueue: seq<Message>
    var recordsWritten: nat
    var writeBio: Bytes
    ghost var frames: seq<Bytes>
    ghost var sent: seq<Message>

    ghost function Abs(): Tx
      reads this
    {
      Tx(sendQueue, recordsWritten, frames, sent)
    }

    /** Between calls the memory BIO is empty and the refinement holds. */
    ghost predicate Valid()
      reads this
    {
      Sound(cipher) && ValidLimit(maxSize) && writeBio == [] && Inv(cipher, maxSize, Abs())
    }

    constructor (cipher: Cipher, maxSize: nat)
      requires Sound(cipher) && ValidLimit(maxSize)
      ensures Valid() && Abs() == TX_START && this.cipher == cipher && this.maxSize == maxSize
    {
      this.cipher, this.maxSize := cipher, maxSize;
      sendQueue, recordsWritten, writeBio := [], 0, [];
      frames, sent := [], [];
      new;
      InvStart(cipher, maxSize);
    }

    method SendMessage(channel: byte, flags: Flags, buf: Bytes)
      requires Valid() && WellFormed(Message(channel, flags, buf, 0))
      modifies this`sendQueue, this`sent
      ensures Valid() && Abs() == Enqueue(old(Abs()), Message(channel, flags, buf, 0))
    {
      var msg := Message(channel, flags, buf, 0);
      EnqueueKeepsInv(cipher, maxSize, Abs(), msg);
      sendQueue := sendQueue + [msg];
      sent := sent + [msg];
    }

    method SslWrite(data: Bytes)
      modifies this`writeBio, this`recordsWritten
      ensures writeBio == old(writeBio) + cipher.seal(old(recordsWritten), data)
      ensures recordsWritten == old(recordsWritten) + 1
    {
      writeBio := writeBio + cipher.seal(recordsWritten, data);
      recordsWritten := recordsWritten + 1;
    }

    /** `BIO_read` of at most `n` bytes. */
    method BioRead(n: nat) returns (bytes: Bytes)
      modifies this`writeBio
      ensures bytes + writeBio == old(writeBio) && |bytes| == Min(n, |old(writeBio)|)
    {
      var length := Min(n, |writeBio|);
      bytes, writeBio := writeBio[..length], writeBio[length..];
    }

    /** The tail of the encrypted branch: one record, read back whole behind its header. */
    method EncryptedFrame(channel: byte, flags: Flags, data: Bytes, totalLength: nat, nbytes: nat) returns (buf: Bytes)
      requires Sound(cipher) && writeBio == [] && 20000 <= nbytes
      requires flags & ENCRYPTED != 0 && |data| <= MAX_RECORD && totalLength < 0x8000_0000
      modifies this`writeBio, this`recordsWritten
      ensures writeBio == [] && recordsWritten == old(recordsWritten) + 1
      ensures buf == Frame(cipher, old(recordsWritten), Piece(channel, flags, data, totalLength)) && |buf| <= nbytes
    {
      ghost var p := Piece(channel, flags, data, totalLength);
      FrameFits(cipher, recordsWritten, p);
      FrameLayout(p, Body(cipher, recordsWritten, p));
      SslWrite(data);
      assert writeBio == Body(cipher, old(recordsWritten), p);
      var offset := 4;
      if flags & BULK == FIRST {
        offset := offset + 4;
      }
      var body := BioRead(nbytes - offset);
      assert writeBio == [] && body == body + writeBio;
      buf := [channel, flags as byte] + Int16(|body|);
      if flags & BULK == FIRST {
        buf := buf + Int32(totalLength);
      }
      buf := buf + body;
    }

    /** The four branches on the head of the queue, which is changed in place or removed. */
    method CutHead(msg: Message) returns (flags: Flags, contentBegin: nat, contentEnd: nat)
      requires ValidLimit(maxSize) && sendQueue != [] && msg == sendQueue[0]
      requires HeadOk(msg, maxSize) && msg.Encrypted()
      modifies this`sendQueue
      ensures contentBegin <= contentEnd <= |msg.content| < 0x8000_0000 && contentEnd - contentBegin <= MAX_RECORD
      ensures flags & !BULK == msg.flags & !BULK && flags & ENCRYPTED != 0
      ensures flags & BULK == if |msg.content| - msg.offset <= maxSize then if msg.offset == 0 then BULK else LAST
                              else if msg.offset == 0 then FIRST else 0
      ensures Cut(msg, maxSize).0 == Piece(msg.channel, flags, msg.content[contentBegin..contentEnd], |msg.content|)
      ensures var rest := Cut(msg, maxSize).1;
              sendQueue == if rest.Some? then [rest.value] + old(sendQueue)[1..] else old(sendQueue)[1..]
    {
      CutFacts(msg, maxSize);
      FrameBits(msg.flags);
      flags, contentBegin, contentEnd := msg.flags, msg.offset, |msg.content|;
      if |msg.content| - msg.offset <= maxSize && flags & BULK != 0 {
        sendQueue := sendQueue[1..];
      } else if |msg.content| - msg.offset > maxSize && flags & BULK != 0 {
        flags := flags & !BULK;
        flags := flags | FIRST;
        contentEnd := msg.offset + maxSize;
        sendQueue := [msg.(flags := flags & !BULK, offset := msg.offset + maxSize)] + sendQueue[1..];
      } else if |msg.content| - msg.offset > maxSize {
        contentEnd := msg.offset + maxSize;
        sendQueue := [msg.(flags := flags & !BULK, offset := msg.offset + maxSize)] + sendQueue[1..];
      } else {
        flags := flags | LAST;
        sendQueue := sendQueue[1..];
      }
    }

    /** The encrypted branch. */
    method NextRecord(nbytes: nat) returns (buf: Bytes)
      requires Valid() && 20000 <= nbytes && sendQueue != [] && sendQueue[0].Encrypted()
      modifies this`sendQueue, this`writeBio, this`recordsWritten
      ensures writeBio == []
      ensures Tx(sendQueue, recordsWritten, frames + [buf], sent) == Drain(cipher, maxSize, old(Abs()))
    {
      var msg := sendQueue[0];
      var flags, contentBegin, contentEnd := CutHead(msg);
      buf := EncryptedFrame(msg.channel, flags, msg.content[contentBegin..contentEnd], |msg.content|, nbytes);
    }

    /** The plain branch: never split. */
    method NextPlain() returns (buf: Bytes)
      requires Valid() && sendQueue != [] && !sendQueue[0].Encrypted()
      modifies this`sendQueue
      ensures Tx(sendQueue, recordsWritten, frames + [buf], sent) == Drain(cipher, maxSize, old(Abs()))
    {
      var msg := sendQueue[0];
      PlainDrain(cipher, maxSize, Abs());
      sendQueue := sendQueue[1..];
      buf := [msg.channel, msg.flags as byte] + Int16(|msg.content|);
      buf := buf + msg.content;
    }

    /**
     `getMessage` / `prepareMessage`: nothing when the queue stays empty, otherwise the next frame
     for a buffer of `nbytes` bytes.
     */
    method GetMessage(nbytes: nat) returns (buf: Bytes)
      requires Valid() && 20000 <= nbytes
      modifies this
      ensures Valid()
      ensures Abs() == Drain(cipher, maxSize, old(Abs()))
      ensures old(sendQueue) == [] ==> buf == []
      ensures old(sendQueue) != [] ==> frames == old(frames) + [buf]
    {
      ghost var before := Abs();
      if sendQueue == [] {
        return [];
      }
      if sendQueue[0].flags & ENCRYPTED != 0 {
        buf := NextRecord(nbytes);
      } else {
        buf := NextPlain();
      }
      frames := frames + [buf];
      DrainKeepsInv(cipher, maxSize, before);
    }
  }
}
