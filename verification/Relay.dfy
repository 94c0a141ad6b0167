/**
 What both directions of the proxy have in common: packets are read from a socket and queued by a
 sender that others use as well.
 */
module Relay {
  import opened Utils
  import opened Framing
  import opened SendQueue
  import opened Reassembler

  /** What reading a packet makes the reader queue. */
  type Reading = Bytes -> seq<Message>

  function Accepted(one: Reading, ps: seq<Bytes>): seq<Message> {
    if ps == [] then [] else Accepted(one, ps[..|ps| - 1]) + one(ps[|ps| - 1])
  }

  lemma AcceptedSnoc(one: Reading, ps: seq<Bytes>, p: Bytes)
    ensures Accepted(one, ps + [p]) == Accepted(one, ps) + one(p)
  {
    assert (ps + [p])[..|ps|] == ps;
  }

  lemma {:induction false} AcceptedPrefix(one: Reading, ps: seq<Bytes>, n: nat)
    requires n <= |ps|
    ensures Accepted(one, ps[..n]) <= Accepted(one, ps)
  {
    if n < |ps| {
      AcceptedPrefix(one, ps[..|ps| - 1], n);
      assert ps[..|ps| - 1][..n] == ps[..n];
    } else {
      assert ps[..n] == ps;
    }
  }

  // ---------------------------------------------------------------- the sender's queue

  /** The messages that are marked as relayed. */
  function Marked(ms: seq<Message>, relayed: seq<bool>): seq<Message>
    requires |ms| <= |relayed|
  {
    if ms == [] then []
    else
      var n := |ms| - 1;
      Marked(ms[..n], relayed) + if relayed[n] then [ms[n]] else []
  }

  lemma {:induction false} MarkedLonger(ms: seq<Message>, relayed: seq<bool>, more: seq<bool>)
    requires |ms| <= |relayed|
    ensures Marked(ms, relayed + more) == Marked(ms, relayed)
  {
    if ms != [] {
      MarkedLonger(ms[..|ms| - 1], relayed, more);
    }
  }

  lemma MarkedSnoc(ms: seq<Message>, relayed: seq<bool>, m: Message, r: bool)
    requires |ms| == |relayed|
    ensures Marked(ms + [m], relayed + [r]) == Marked(ms, relayed) + if r then [m] else []
  {
    assert (ms + [m])[..|ms|] == ms;
    MarkedLonger(ms, relayed, [r]);
  }

  lemma {:induction false} MarkedPrefix(ms: seq<Message>, relayed: seq<bool>, n: nat)
    requires n <= |ms| <= |relayed|
    ensures Marked(ms[..n], relayed) <= Marked(ms, relayed)
  {
    if n < |ms| {
      MarkedPrefix(ms[..|ms| - 1], relayed, n);
      assert ms[..|ms| - 1][..n] == ms[..n];
    } else {
      assert ms[..n] == ms;
    }
  }

  predicate QueueInv(c: Cipher, limit: nat, tx: Tx, relayed: seq<bool>)
    requires 0 < limit
  {
    Inv(c, limit, tx) && |relayed| == |tx.sent|
  }

  lemma QueueKeepsInv(c: Cipher, limit: nat, tx: Tx, relayed: seq<bool>, m: Message, r: bool)
    requires 0 < limit && QueueInv(c, limit, tx, relayed) && WellFormed(m)
    ensures QueueInv(c, limit, Enqueue(tx, m), relayed + [r])
    ensures Marked(Enqueue(tx, m).sent, relayed + [r]) == Marked(tx.sent, relayed) + if r then [m] else []
  {
    EnqueueKeepsInv(c, limit, tx, m);
    MarkedSnoc(tx.sent, relayed, m, r);
  }

  // ---------------------------------------------------------------- the socket

  /** Of the packets written the socket holds those not read; those read have been queued. */
  predicate Carried(one: Reading, ps: seq<Bytes>, socket: seq<Bytes>, read: nat, tx: Tx, relayed: seq<bool>) {
    && read <= |ps| && socket == ps[read..]
    && |relayed| == |tx.sent| && Marked(tx.sent, relayed) == Accepted(one, ps[..read])
  }

  lemma CarriedMore(one: Reading, ps: seq<Bytes>, more: seq<Bytes>, socket: seq<Bytes>, read: nat, tx: Tx, relayed: seq<bool>)
    requires Carried(one, ps, socket, read, tx, relayed)
    ensures Carried(one, ps + more, socket + more, read, tx, relayed)
  {
    assert (ps + more)[read..] == ps[read..] + more;
    assert (ps + more)[..read] == ps[..read];
  }

  lemma CarriedRead(one: Reading, ps: seq<Bytes>, socket: seq<Bytes>, read: nat, tx: Tx, relayed: seq<bool>)
    requires Carried(one, ps, socket, read, tx, relayed) && socket != []
    ensures read < |ps| && socket[0] == ps[read] && socket[1..] == ps[read + 1..]
    ensures Accepted(one, ps[..read + 1]) == Marked(tx.sent, relayed) + one(ps[read])
  {
    TakeOneMore(ps, read);
    AcceptedSnoc(one, ps[..read], ps[read]);
  }

  /** The first messages queued include the first ones of those read. */
  lemma MarkedOfSent(one: Reading, ps: seq<Bytes>, all: seq<Bytes>, socket: seq<Bytes>, read: nat, tx: Tx, relayed: seq<bool>,
                     some: seq<Message>)
    requires Carried(one, ps, socket, read, tx, relayed) && ps <= all && some <= tx.sent
    ensures Marked(some, relayed) <= Accepted(one, all)
  {
    assert some == tx.sent[..|some|];
    MarkedPrefix(tx.sent, relayed, |some|);
    assert ps[..read] == all[..read];
    AcceptedPrefix(one, all, read);
  }

  lemma AllRead(ps: seq<Bytes>, read: nat)
    requires read <= |ps| && ps[read..] == []
    ensures ps[..read] == ps
  {
  }

  // ---------------------------------------------------------------- the receiver

  /** A prefix of an undamaged stream completes a prefix of its messages. */
  lemma PrefixReceived(c: Cipher, frames: seq<Bytes>, n: nat)
    requires n <= |frames| && !Receive(c, RX_START, frames).failed
    ensures var r := Receive(c, RX_START, frames[..n]);
            !r.failed && r.out <= Receive(c, RX_START, frames).out
  {
    var r := Receive(c, RX_START, frames[..n]);
    TakeDrop(frames, n);
    ReceiveAppend(c, RX_START, frames[..n], frames[n..]);
    ReceiveFrom(c, r, frames[n..]);
    if r.failed {
      FailureStays(c, r, frames[n..]);
    }
  }

  /** After any number of a sender's frames the receiver has not failed and has the first messages sent. */
  lemma OutOfSent(c: Cipher, limit: nat, t: Tx, n: nat)
    requires 0 < limit && Inv(c, limit, t) && n <= |t.frames|
    ensures var r := Receive(c, RX_START, t.frames[..n]);
            !r.failed && r.out <= t.sent
  {
    PrefixReceived(c, t.frames, n);
    assert Receive(c, RX_START, t.frames).out <= t.sent;
  }

  /** With nothing left in a queue everything queued has been completed. */
  lemma QueueEmptied(c: Cipher, limit: nat, t: Tx)
    requires 0 < limit && Inv(c, limit, t) && t.queue == []
    ensures Receive(c, RX_START, t.frames[..|t.frames|]).out == t.sent
  {
    assert t.frames[..|t.frames|] == t.frames;
  }

  // ---------------------------------------------------------------- steps to come

  /** The reading of a packet and the frames that it makes. */
  function Weight(one: Reading, limit: nat, p: Bytes): nat
    requires 0 < limit
  {
    1 + TotalWork(one(p), limit)
  }

  function Later(one: Reading, limit: nat, ps: seq<Bytes>): nat
    requires 0 < limit
  {
    if ps == [] then 0 else Weight(one, limit, ps[0]) + Later(one, limit, ps[1..])
  }

  lemma {:induction false} LaterAppend(one: Reading, limit: nat, ps: seq<Bytes>, more: seq<Bytes>)
    requires 0 < limit
    ensures Later(one, limit, ps + more) == Later(one, limit, ps) + Later(one, limit, more)
  {
    if ps == [] {
      assert ps + more == more;
    } else {
      LaterAppend(one, limit, ps[1..], more);
      assert (ps + more)[1..] == ps[1..] + more;
    }
  }

  /** What reading a packet adds to the queue is what its weight says. */
  lemma OneWork(one: Reading, limit: nat, p: Bytes, queue: seq<Message>)
    requires 0 < limit && |one(p)| <= 1
    ensures TotalWork(queue + one(p), limit) == TotalWork(queue, limit) + Weight(one, limit, p) - 1
    ensures Weight(one, limit, p) == 1 + if one(p) == [] then 0 else Work(one(p)[0], limit)
  {
    if one(p) == [] {
      assert queue + [] == queue;
    } else {
      TotalWorkSnoc(queue, one(p)[0], limit);
      TotalWorkSnoc([], one(p)[0], limit);
      assert [one(p)[0]] == one(p) == [] + one(p);
    }
  }
}
