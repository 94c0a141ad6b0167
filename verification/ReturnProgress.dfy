/**
 The way back delivers: a bound on the steps to come goes down with each, and there is always one that
 can be taken until everything that AAServer passes on has arrived.
 */
module ReturnProgress {
  import opened Utils
  import opened Framing
  import opened SendQueue
  import opened DirectLink
  import opened ServiceTable
  import opened Routing
  import opened ReturnPath
  import opened Relay

  /** The parsing of a message, and the most that its packet can cause. */
  function Cost(m: Message): nat { 2 + Pieces(|m.content|, CLIENT_LIMIT) }

  function Costs(ms: seq<Message>): nat {
    if ms == [] then 0 else Cost(ms[0]) + Costs(ms[1..])
  }

  lemma {:induction false} CostsSnoc(ms: seq<Message>, m: Message)
    ensures Costs(ms + [m]) == Costs(ms) + Cost(m)
  {
    if ms != [] {
      CostsSnoc(ms[1..], m);
      assert (ms + [m])[1..] == ms[1..] + [m];
    }
  }

  function Unparsed(sent: seq<Message>, parsed: nat): nat { if parsed <= |sent| then Costs(sent[parsed..]) else 0 }

  /** A bound on the steps to come: two for each frame of the headunit until it is in the buffer, and so on. */
  function Remaining(g: Config, s: System): nat {
    2 * |s.head.queue| + (if s.taken <= |s.head.frames| then |s.head.frames| - s.taken else 0) + Unparsed(s.head.sent, s.parsed)
    + Later(Reader(g.table), CLIENT_LIMIT, s.socket) + TotalWork(s.client.queue, CLIENT_LIMIT)
  }

  predicate Useful(g: Config, s: System, a: Action) {
    match a
    case HeadDrain => s.head.queue != []
    case PumpRead(_) => Enabled(g, s, a)
    case PumpParse => Enabled(g, s, a)
    case ClientRead => s.socket != []
    case ClientDrain => s.client.queue != []
    case _ => false
  }

  lemma AcceptedCost(table: Table, channel: byte, specific: bool, content: Bytes)
    requires |content| + 2 <= CLIENT_READ
    ensures Weight(Reader(table), CLIENT_LIMIT, Hub.ToSocket(channel, specific, content)) <= 1 + Pieces(|content|, CLIENT_LIMIT)
  {
    var p := Hub.ToSocket(channel, specific, content);
    FromServerExactly(table, channel, specific, content);
    OneWork(Reader(table), CLIENT_LIMIT, p, []);
  }

  /** A headunit message makes at most one packet, whose frames are those of its content. */
  lemma PacketCost(table: Table, limit: nat, use: Use, m: Message)
    requires ValidLimit(limit) && FromHead(limit, m)
    ensures Later(Reader(table), CLIENT_LIMIT, PacketsFor(table, use, m)) < Cost(m)
  {
    var ps := PacketsFor(table, use, m);
    if ps != [] {
      AcceptedCost(table, m.channel, IsSpecific(m.flags), m.content);
      AcceptedCost(table, m.channel, false, m.content);
      assert ps == [ps[0]] && Later(Reader(table), CLIENT_LIMIT, ps[1..]) == 0;
    }
  }

  lemma HeadDrainLowers(g: Config, s: System)
    requires Proper(g) && SystemInv(g, s) && s.head.queue != []
    ensures Remaining(g, Step(g, s, HeadDrain)) < Remaining(g, s)
  {
    HeadDrainIs(g.headTls, g.headLimit, s.head);
    assert Enabled(g, s, HeadDrain) && Step(g, s, HeadDrain) == HeadDrained(g, s);
    HeadDrainKeepsInv(g, s);
    assert HeadDrained(g, s) == s.(head := Drain(g.headTls, g.headLimit, s.head));
  }

  lemma PumpReadLowers(g: Config, s: System, n: nat)
    requires Proper(g) && SystemInv(g, s) && Enabled(g, s, PumpRead(n))
    ensures Remaining(g, Step(g, s, PumpRead(n))) < Remaining(g, s)
  {
    assert Step(g, s, PumpRead(n)) == BufferFilled(g, s, n) == ReadStep(s, n);
  }

  lemma CostsTail(ms: seq<Message>, k: nat)
    requires k < |ms|
    ensures Costs(ms[k..]) == Cost(ms[k]) + Costs(ms[k + 1..])
  {
    assert ms[k..][1..] == ms[k + 1..];
  }

  lemma ParseStepTo(g: Config, s: System)
    requires Proper(g) && SystemInv(g, s) && Enabled(g, s, PumpParse)
    ensures s.parsed < |s.head.sent| && FromHead(g.headLimit, s.head.sent[s.parsed])
    ensures var t := Step(g, s, PumpParse);
            && t.head == s.head && t.taken == s.taken && t.parsed == s.parsed + 1 && t.client == s.client
            && t.socket == s.socket + PacketsFor(g.table, s.use, s.head.sent[s.parsed])
  {
    ParseStepIs(g, s);
    assert s.head.sent[s.parsed] in s.head.sent;
    assert Step(g, s, PumpParse) == Parsed(g, s);
  }

  lemma ParseCost(g: Config, head: Tx, parsed: nat, use: Use, socket: seq<Bytes>)
    requires Proper(g) && parsed < |head.sent| && FromHead(g.headLimit, head.sent[parsed])
    ensures Unparsed(head.sent, parsed + 1) + Later(Reader(g.table), CLIENT_LIMIT, socket + PacketsFor(g.table, use, head.sent[parsed]))
          < Unparsed(head.sent, parsed) + Later(Reader(g.table), CLIENT_LIMIT, socket)
  {
    var m := head.sent[parsed];
    CostsTail(head.sent, parsed);
    PacketCost(g.table, g.headLimit, use, m);
    LaterAppend(Reader(g.table), CLIENT_LIMIT, socket, PacketsFor(g.table, use, m));
  }

  lemma ParseLess(g: Config, s: System, t: System)
    requires Proper(g) && s.parsed < |s.head.sent| && FromHead(g.headLimit, s.head.sent[s.parsed])
    requires t.head == s.head && t.taken == s.taken && t.parsed == s.parsed + 1 && t.client == s.client
    requires t.socket == s.socket + PacketsFor(g.table, s.use, s.head.sent[s.parsed])
    ensures Remaining(g, t) < Remaining(g, s)
  {
    ParseCost(g, s.head, s.parsed, s.use, s.socket);
  }

  lemma PumpParseLowers(g: Config, s: System)
    requires Proper(g) && SystemInv(g, s) && Enabled(g, s, PumpParse)
    ensures Remaining(g, Step(g, s, PumpParse)) < Remaining(g, s)
  {
    ParseStepTo(g, s);
    ParseLess(g, s, Step(g, s, PumpParse));
  }

  /** What is in the socket can be read. */
  lemma NextPacket(g: Config, s: System)
    requires Proper(g) && SystemInv(g, s) && s.socket != []
    ensures Enabled(g, s, ClientRead)
  {
    AcceptedPackets(g.table, s.passed);
    CarriedRead(Reader(g.table), Packets(g.table, s.passed), s.socket, s.read, s.client, s.relayed);
    assert PacketOk(g.table, Packets(g.table, s.passed)[s.read]);
  }

  lemma TakeParts(g: Config, s: System)
    requires s.socket != [] && |s.socket[0]| >= 2
    ensures var t := TakeStep(g, s);
            && t.head == s.head && t.taken == s.taken && t.parsed == s.parsed && t.socket == s.socket[1..]
            && t.client.queue == s.client.queue + OneAccepted(g.table, s.socket[0])
  {
    assert s.client.queue + [] == s.client.queue;
  }

  lemma TakeCost(g: Config, s: System)
    requires s.socket != [] && |s.socket[0]| >= 2
    ensures Remaining(g, TakeStep(g, s)) < Remaining(g, s)
  {
    TakeParts(g, s);
    OneWork(Reader(g.table), CLIENT_LIMIT, s.socket[0], s.client.queue);
  }

  lemma TakeStepIs(g: Config, s: System)
    requires Proper(g) && SystemInv(g, s)
    ensures Enabled(g, s, ClientRead) ==> Step(g, s, ClientRead) == TakeStep(g, s)
  {
    if Enabled(g, s, ClientRead) {
      assert Step(g, s, ClientRead) == Taken(g, s);
    }
  }

  lemma ClientReadLowers(g: Config, s: System)
    requires Proper(g) && SystemInv(g, s) && s.socket != []
    ensures Remaining(g, Step(g, s, ClientRead)) < Remaining(g, s)
  {
    NextPacket(g, s);
    TakeStepIs(g, s);
    TakeCost(g, s);
  }

  lemma ClientDrainStep(g: Config, s: System)
    requires Proper(g) && SystemInv(g, s)
    ensures var t := Step(g, s, ClientDrain);
            && t.head == s.head && t.taken == s.taken && t.parsed == s.parsed && t.socket == s.socket
            && t.client == Drain(g.phoneTls, CLIENT_LIMIT, s.client)
  {
    assert Enabled(g, s, ClientDrain) && Step(g, s, ClientDrain) == ClientDrained(g, s);
  }

  lemma Lowered(c: Cipher, client: Tx)
    requires Sound(c) && Inv(c, CLIENT_LIMIT, client) && client.queue != []
    ensures TotalWork(Drain(c, CLIENT_LIMIT, client).queue, CLIENT_LIMIT) < TotalWork(client.queue, CLIENT_LIMIT)
  {
    DrainKeepsInv(c, CLIENT_LIMIT, client);
  }

  lemma ClientDrainLowers(g: Config, s: System)
    requires Proper(g) && SystemInv(g, s) && s.client.queue != []
    ensures Remaining(g, Step(g, s, ClientDrain)) < Remaining(g, s)
  {
    ClientDrainStep(g, s);
    Lowered(g.phoneTls, s.client);
  }

  /** Every step that does something lowers the bound. */
  lemma UsefulLowers(g: Config, s: System, a: Action)
    requires Proper(g) && SystemInv(g, s) && Useful(g, s, a)
    ensures Remaining(g, Step(g, s, a)) < Remaining(g, s)
  {
    match a {
      case HeadDrain => HeadDrainLowers(g, s);
      case PumpRead(n) => PumpReadLowers(g, s, n);
      case PumpParse => PumpParseLowers(g, s);
      case ClientRead => ClientReadLowers(g, s);
      case ClientDrain => ClientDrainLowers(g, s);
    }
  }

  /** Everything dispatched has been sent on, and everything has been dispatched unless the parser has stopped. */
  predicate Settled(s: System) {
    && s.head.queue == [] && s.socket == [] && s.client.queue == []
    && (s.stopped || s.parsed == |s.head.sent|)
  }

  /** The next frame fits the buffer. */
  lemma OneFits(g: Config, s: System)
    requires Proper(g) && SystemInv(g, s) && s.taken < |s.head.frames|
    ensures |Flatten(s.head.frames[s.taken..s.taken + 1])| <= PUMP_BUFFER
  {
    var m, k := s.head.sent[s.taken], s.taken;
    assert m in s.head.sent;
    assert s.head.frames[k] == FrameAt(g.headTls, s.head.sent, k);
    assert |Raw(g.headTls, Records(s.head.sent, k), m).body| < 0x1_0000;
    SliceHead(s.head.frames, k, k + 1);
    assert s.head.frames[k + 1..k + 1] == [];
  }

  /** Until everything has settled some step can be taken. */
  lemma SettledExactly(g: Config, s: System)
    requires Proper(g) && SystemInv(g, s)
    ensures Settled(s) <==> forall a :: !Useful(g, s, a)
  {
    BufferEmpty(g.headTls, g.headLimit, s.head, s.taken, s.parsed, s.buffer, s.records);
    if s.head.queue != [] {
      assert Useful(g, s, HeadDrain);
    } else if s.socket != [] {
      assert Useful(g, s, ClientRead);
    } else if s.client.queue != [] {
      assert Useful(g, s, ClientDrain);
    } else if !s.stopped && s.parsed < s.taken {
      NextFrame(g.headTls, g.headLimit, s.head, s.taken, s.parsed, s.buffer, s.records);
      assert Useful(g, s, PumpParse);
    } else if !s.stopped && s.taken < |s.head.frames| {
      OneFits(g, s);
      assert Useful(g, s, PumpRead(1));
    }
    if Settled(s) {
      forall a ensures !Useful(g, s, a) {
      }
    }
  }

  /** The phone has completed all that AAClient queued, and in it all that AAServer passed on. */
  predicate AllArrived(g: Config, s: System) {
    var out := PhoneOut(g, s, |s.client.frames|);
    |out| == |s.relayed| && Marked(out, s.relayed) == Returned(g.table, s.passed)
  }

  lemma ArrivedInTheEnd(g: Config, use: Use, run: seq<Action>)
    requires Proper(g)
    ensures var s := Exec(g, use, run);
            Settled(s) ==> AllArrived(g, s) && (s.stopped || Dispatched(s.passed) == HeadSends(g.headLimit, run))
  {
    var s := Exec(g, use, run);
    if Settled(s) {
      QueueEmptied(g.phoneTls, CLIENT_LIMIT, s.client);
      AllRead(Packets(g.table, s.passed), s.read);
      AcceptedPackets(g.table, s.passed);
      assert s.head.sent[..|s.head.sent|] == s.head.sent;
    }
  }

  /** After a run, `more` consists of useful steps only. */
  ghost predicate UsefulRun(g: Config, use: Use, run: seq<Action>, more: seq<Action>)
    requires Proper(g)
  {
    more != [] ==>
      var front := more[..|more| - 1];
      UsefulRun(g, use, run, front) && Useful(g, Exec(g, use, run + front), more[|more| - 1])
  }

  lemma OneMoreUseful(g: Config, use: Use, run: seq<Action>, more: seq<Action>)
    requires Proper(g) && more != []
    ensures var front, a := run + more[..|more| - 1], more[|more| - 1];
            Useful(g, Exec(g, use, front), a) ==>
              && Remaining(g, Exec(g, use, run + more)) < Remaining(g, Exec(g, use, front))
              && HeadSends(g.headLimit, run + more) == HeadSends(g.headLimit, front)
  {
    var front, a := run + more[..|more| - 1], more[|more| - 1];
    AppendFront(run, more);
    assert Exec(g, use, run + more) == Step(g, Exec(g, use, front), a);
    if Useful(g, Exec(g, use, front), a) {
      UsefulLowers(g, Exec(g, use, front), a);
      assert SentBy(g.headLimit, a) == [];
    }
  }

  lemma {:induction false} UsefulRunLowers(g: Config, use: Use, run: seq<Action>, more: seq<Action>)
    requires Proper(g)
    ensures UsefulRun(g, use, run, more) ==>
              && Remaining(g, Exec(g, use, run + more)) + |more| <= Remaining(g, Exec(g, use, run))
              && HeadSends(g.headLimit, run + more) == HeadSends(g.headLimit, run)
  {
    if more == [] {
      assert run + more == run;
    } else if UsefulRun(g, use, run, more) {
      UsefulRunLowers(g, use, run, more[..|more| - 1]);
      OneMoreUseful(g, use, run, more);
    }
  }

  /** Nothing can be done any more. */
  ghost predicate AtRest(g: Config, s: System) { forall a :: !Useful(g, s, a) }

  /**
   From every reachable state, in whatever order the parts of the path take their steps and however
   many frames a read brings, at most `Remaining` useful steps follow. When none is left, all that
   AAServer has passed on has arrived, and unless one of its handlers has thrown, that is all of the
   headunit's messages that it passes on.
   */
  lemma Delivered(g: Config, use: Use, run: seq<Action>, more: seq<Action>)
    requires Proper(g)
    ensures UsefulRun(g, use, run, more) ==>
              var s := Exec(g, use, run + more);
              && |more| <= Remaining(g, Exec(g, use, run))
              && (AtRest(g, s) ==> AllArrived(g, s) && (s.stopped || Dispatched(s.passed) == HeadSends(g.headLimit, run)))
  {
    if UsefulRun(g, use, run, more) {
      UsefulRunLowers(g, use, run, more);
      SettledExactly(g, Exec(g, use, run + more));
      ArrivedInTheEnd(g, use, run + more);
    }
  }
}
