/**
 The proxy delivers: how many steps are still to come is known exactly, and there is always one that
 can be taken until everything has arrived.
 */
module ProxyProgress {
  import opened Utils
  import opened Framing
  import opened SendQueue
  import opened ServiceTable
  import opened Proxy
  import opened Relay

  function Unread(table: Table, sent: seq<Message>, read: nat): nat {
    var ps := Packets(table, sent);
    if read <= |ps| then Later(Reader(table), SERVER_LIMIT, ps[read..]) else 0
  }

  /**
   The steps to come: each frame of the phone is sent and received, each packet for a message of the
   phone that AAServer has not read is read and drained, and each frame of AAServer's queue drained.
   */
  function Remaining(g: Config, s: System): nat
    requires 0 < g.phoneLimit
  {
    2 * TotalWork(s.phone.queue, g.phoneLimit) + (if s.taken <= |s.phone.frames| then |s.phone.frames| - s.taken else 0)
    + Unread(g.table, s.phone.sent, s.read) + TotalWork(s.server.queue, SERVER_LIMIT)
  }

  predicate Useful(s: System, a: Action) {
    match a
    case PhoneDrain => s.phone.queue != []
    case ClientReceive => s.taken < |s.phone.frames|
    case ServerRead => s.socket != []
    case ServerDrain => s.server.queue != []
    case _ => false
  }

  /** The next packet in the socket is the next of those for the phone's messages. */
  lemma NextPacket(g: Config, s: System)
    requires Proper(g) && SystemInv(g, s)
    ensures s.read <= |Packets(g.table, s.client.out)| <= |Packets(g.table, s.phone.sent)|
    ensures s.socket != [] ==>
              var ps := Packets(g.table, s.phone.sent);
              s.read < |ps| && s.socket[0] == ps[s.read] && PacketOk(g.table, s.socket[0])
  {
    ClientOut(g, s);
    if s.socket != [] {
      CarriedRead(Reader(g.table), Packets(g.table, s.client.out), s.socket, s.read, s.server, s.relayed);
      assert PacketOk(g.table, Packets(g.table, s.client.out)[s.read]);
    }
  }

  lemma DrainLowers(c: Cipher, limit: nat, s: Tx)
    requires Sound(c) && ValidLimit(limit) && Inv(c, limit, s) && s.queue != []
    ensures var t := Drain(c, limit, s);
            && TotalWork(t.queue, limit) == TotalWork(s.queue, limit) - 1
            && |t.frames| == |s.frames| + 1 && t.sent == s.sent
  {
    DrainKeepsInv(c, limit, s);
  }

  lemma UnreadOne(table: Table, sent: seq<Message>, read: nat)
    requires read < |Packets(table, sent)|
    ensures Unread(table, sent, read) == Unread(table, sent, read + 1) + Weight(Reader(table), SERVER_LIMIT, Packets(table, sent)[read])
  {
    var ps := Packets(table, sent);
    assert ps[read..][1..] == ps[read + 1..];
  }

  lemma ReadParts(g: Config, s: System)
    requires s.socket != [] && |s.socket[0]| >= 3
    ensures var t := ReadStep(g, s);
            && t.phone == s.phone && t.taken == s.taken && t.read == s.read + 1
            && t.server.queue == s.server.queue + OneAccepted(g.table, s.socket[0])
  {
    assert s.server.queue + [] == s.server.queue;
  }

  lemma ReadCost(g: Config, s: System)
    requires 0 < g.phoneLimit && s.socket != [] && |s.socket[0]| >= 3
    requires s.read < |Packets(g.table, s.phone.sent)| && s.socket[0] == Packets(g.table, s.phone.sent)[s.read]
    ensures Remaining(g, ReadStep(g, s)) == Remaining(g, s) - 1
  {
    ReadParts(g, s);
    UnreadOne(g.table, s.phone.sent, s.read);
    OneWork(Reader(g.table), SERVER_LIMIT, s.socket[0], s.server.queue);
  }

  lemma ReadLowers(g: Config, s: System)
    requires Proper(g) && SystemInv(g, s) && s.socket != []
    ensures Remaining(g, Step(g, s, ServerRead)) == Remaining(g, s) - 1
  {
    NextPacket(g, s);
    assert Enabled(g, s, ServerRead) && Step(g, s, ServerRead) == ReadOne(g, s);
    ReadCost(g, s);
  }

  lemma TakeCost(g: Config, s: System)
    requires 0 < g.phoneLimit && s.taken < |s.phone.frames|
    ensures Remaining(g, ReceiveStep(g, s)) == Remaining(g, s) - 1
  {
  }

  lemma TakeLowers(g: Config, s: System)
    requires Proper(g) && SystemInv(g, s) && s.taken < |s.phone.frames|
    ensures Remaining(g, Step(g, s, ClientReceive)) == Remaining(g, s) - 1
  {
    assert Enabled(g, s, ClientReceive) && Step(g, s, ClientReceive) == Taken(g, s);
    TakeCost(g, s);
  }

  lemma PhoneDrainStep(g: Config, s: System)
    requires Proper(g) && SystemInv(g, s)
    ensures var t := Step(g, s, PhoneDrain);
            && t.phone == Drain(g.phoneTls, g.phoneLimit, s.phone)
            && t.taken == s.taken && t.read == s.read && t.server == s.server
  {
    assert Enabled(g, s, PhoneDrain) && Step(g, s, PhoneDrain) == PhoneDrained(g, s);
  }

  lemma ServerDrainStep(g: Config, s: System)
    requires Proper(g) && SystemInv(g, s)
    ensures var t := Step(g, s, ServerDrain);
            && t.server == Drain(g.headTls, SERVER_LIMIT, s.server)
            && t.taken == s.taken && t.read == s.read && t.phone == s.phone
  {
    assert Enabled(g, s, ServerDrain) && Step(g, s, ServerDrain) == ServerDrained(g, s);
  }

  lemma PhoneDrainLowers(g: Config, s: System)
    requires Proper(g) && SystemInv(g, s) && s.phone.queue != []
    ensures Remaining(g, Step(g, s, PhoneDrain)) == Remaining(g, s) - 1
  {
    PhoneDrainStep(g, s);
    DrainLowers(g.phoneTls, g.phoneLimit, s.phone);
  }

  lemma ServerDrainLowers(g: Config, s: System)
    requires Proper(g) && SystemInv(g, s) && s.server.queue != []
    ensures Remaining(g, Step(g, s, ServerDrain)) == Remaining(g, s) - 1
  {
    ServerDrainStep(g, s);
    DrainLowers(g.headTls, SERVER_LIMIT, s.server);
  }

  /** Every step that does something lowers the steps to come by exactly one. */
  lemma UsefulLowers(g: Config, s: System, a: Action)
    requires Proper(g) && SystemInv(g, s) && Useful(s, a)
    ensures Remaining(g, Step(g, s, a)) == Remaining(g, s) - 1
  {
    match a {
      case PhoneDrain => PhoneDrainLowers(g, s);
      case ServerDrain => ServerDrainLowers(g, s);
      case ServerRead => ReadLowers(g, s);
      case ClientReceive => TakeLowers(g, s);
    }
  }

  lemma SendStep(g: Config, s: System, m: Message)
    requires Proper(g) && SystemInv(g, s) && FromPhone(g.table, m)
    ensures Step(g, s, PhoneSend(m)) == s.(phone := Enqueue(s.phone, m))
  {
  }

  lemma UnreadSnoc(table: Table, sent: seq<Message>, m: Message, read: nat)
    requires read <= |Packets(table, sent)|
    ensures Unread(table, sent + [m], read) == Unread(table, sent, read) + Later(Reader(table), SERVER_LIMIT, PacketsFor(table, m))
  {
    var ps, more := Packets(table, sent), PacketsFor(table, m);
    PacketsSnoc(table, sent, m);
    assert (ps + more)[read..] == ps[read..] + more;
    LaterAppend(Reader(table), SERVER_LIMIT, ps[read..], more);
  }

  /** A new message of the phone adds its frames twice, the reading of its packet and the frames of that in AAServer. */
  lemma SendRaises(g: Config, s: System, m: Message)
    requires Proper(g) && SystemInv(g, s) && FromPhone(g.table, m)
    ensures Remaining(g, Step(g, s, PhoneSend(m)))
         == Remaining(g, s) + 2 * Work(m, g.phoneLimit) + Later(Reader(g.table), SERVER_LIMIT, PacketsFor(g.table, m))
  {
    SendStep(g, s, m);
    NextPacket(g, s);
    TotalWorkSnoc(s.phone.queue, m, g.phoneLimit);
    UnreadSnoc(g.table, s.phone.sent, m, s.read);
  }

  lemma NothingUnread(g: Config, s: System)
    requires Proper(g) && SystemInv(g, s) && s.phone.queue == [] && s.taken == |s.phone.frames| && s.socket == []
    ensures Unread(g.table, s.phone.sent, s.read) == 0
  {
    QueueEmptied(g.phoneTls, g.phoneLimit, s.phone);
    assert s.client.out == s.phone.sent;
  }

  /** Until everything has arrived some step can be taken. */
  lemma SettledExactly(g: Config, s: System)
    requires Proper(g) && SystemInv(g, s)
    ensures Settled(s) <==> Remaining(g, s) == 0
    ensures !Settled(s) <==> exists a :: Useful(s, a)
  {
    if Settled(s) {
      NothingUnread(g, s);
    } else if s.phone.queue != [] {
      assert Useful(s, PhoneDrain);
      UsefulLowers(g, s, PhoneDrain);
    } else if s.taken < |s.phone.frames| {
      assert Useful(s, ClientReceive);
      UsefulLowers(g, s, ClientReceive);
    } else if s.socket != [] {
      assert Useful(s, ServerRead);
      UsefulLowers(g, s, ServerRead);
    } else {
      assert Useful(s, ServerDrain);
      UsefulLowers(g, s, ServerDrain);
    }
  }

  /** After a run, `more` consists of useful steps only. */
  ghost predicate UsefulRun(g: Config, run: seq<Action>, more: seq<Action>)
    requires Proper(g)
  {
    more != [] ==>
      var front := more[..|more| - 1];
      UsefulRun(g, run, front) && Useful(Exec(g, run + front), more[|more| - 1])
  }

  lemma OneMore(g: Config, run: seq<Action>, more: seq<Action>)
    requires Proper(g) && more != []
    ensures var front, a := more[..|more| - 1], more[|more| - 1];
            && Exec(g, run + more) == Step(g, Exec(g, run + front), a)
            && PhoneSends(g.table, run + more) == PhoneSends(g.table, run + front) + SentBy(g.table, a)
  {
    AppendFront(run, more);
  }

  lemma OneMoreUseful(g: Config, run: seq<Action>, more: seq<Action>)
    requires Proper(g) && more != []
    ensures var front, a := run + more[..|more| - 1], more[|more| - 1];
            Useful(Exec(g, front), a) ==>
              && Remaining(g, Exec(g, run + more)) == Remaining(g, Exec(g, front)) - 1
              && PhoneSends(g.table, run + more) == PhoneSends(g.table, front)
  {
    var s, a := Exec(g, run + more[..|more| - 1]), more[|more| - 1];
    OneMore(g, run, more);
    if Useful(s, a) {
      UsefulLowers(g, s, a);
      assert SentBy(g.table, a) == [];
    }
  }

  lemma {:induction false} UsefulRunLowers(g: Config, run: seq<Action>, more: seq<Action>)
    requires Proper(g)
    ensures UsefulRun(g, run, more) ==>
              && Remaining(g, Exec(g, run + more)) == Remaining(g, Exec(g, run)) - |more|
              && PhoneSends(g.table, run + more) == PhoneSends(g.table, run)
  {
    if more == [] {
      assert run + more == run;
    } else if UsefulRun(g, run, more) {
      UsefulRunLowers(g, run, more[..|more| - 1]);
      OneMoreUseful(g, run, more);
    }
  }

  /** Nothing can be done any more. */
  ghost predicate AtRest(s: System) { forall a :: !Useful(s, a) }

  /**
   From every reachable state, in whatever order the parts of the path take their steps, everything
   has arrived after exactly `Remaining` useful steps, and not before; then the headunit has every
   message of the phone, in order and unchanged.
   */
  lemma Delivered(g: Config, run: seq<Action>, more: seq<Action>)
    requires Proper(g)
    ensures UsefulRun(g, run, more) ==>
              var n, s := Remaining(g, Exec(g, run)), Exec(g, run + more);
              && |more| <= n
              && (|more| == n <==> AtRest(s))
              && (|more| == n ==> AllArrived(g, s, PhoneSends(g.table, run)))
  {
    if UsefulRun(g, run, more) {
      UsefulRunLowers(g, run, more);
      SettledExactly(g, Exec(g, run + more));
      TransparentInTheEnd(g, run + more);
    }
  }
}
