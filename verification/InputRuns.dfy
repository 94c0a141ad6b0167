/**
 What the input channel guarantees over whole runs, for any number of clients: unique ids, order of
 the opening handshake, fan-out of events, and no lost wakeup.
 */
module InputRuns {
  import opened Utils
  import opened InputLink
  import Hub

  lemma Safe(gotOpen: bool, gotHandshake: bool, run: seq<Action>)
    ensures Inv(Exec(Init(gotOpen, gotHandshake), run))
  {
    InitInv(gotOpen, gotHandshake);
    Reachable(Init(gotOpen, gotHandshake), run);
  }

  // ---------------------------------------------------------------- ids

  /**
   In every reachable state each live client has its own id, equal to the number of connections made
   before its own (so none is ever used twice), only live clients are registered, and no access to
   the map with `[]` adds a client to it.
   */
  lemma IdsUnique(gotOpen: bool, gotHandshake: bool, run: seq<Action>)
    ensures var st := Exec(Init(gotOpen, gotHandshake), run);
            && (forall g, h :: g in st.clients && h in st.clients && st.clients[g] == st.clients[h] ==> g == h)
            && (forall h :: h in st.clients ==> 0 <= st.clients[h] < |st.threads| == st.clientCount && st.threads[st.clients[h]].handle == h)
            && (forall id :: id in st.registered ==>
                 0 <= id < |st.threads| && st.threads[id].handle in st.clients && st.clients[st.threads[id].handle] == id)
            && (forall t: nat :: Enabled(st, Packet(t)) || Enabled(st, Leave(t, true)) ==>
                 st.threads[t].handle in st.clients && Lookup(st.clients, st.threads[t].handle) == (st.clients, t))
  {
    Safe(gotOpen, gotHandshake, run);
  }

  lemma RunKeepsHandles(st: State, t: nat)
    requires Enabled(st, Run(t))
    ensures var ts := RunStep(st, t).threads;
            |ts| == |st.threads| && ts == SetPc(st.threads, t, ts[t].pc)
  {
  }

  lemma StepKeepsHandles(st: State, a: Action)
    ensures |st.threads| <= |Step(st, a).threads|
    ensures forall t :: 0 <= t < |st.threads| ==> Step(st, a).threads[t].handle == st.threads[t].handle
  {
    if a.Run? && Enabled(st, a) {
      RunKeepsHandles(st, a.t);
    }
  }

  /** Once given, an id stays with its client. */
  lemma {:induction false} HandlesStay(st: State, run: seq<Action>)
    ensures |st.threads| <= |Exec(st, run).threads|
    ensures forall t :: 0 <= t < |st.threads| ==> Exec(st, run).threads[t].handle == st.threads[t].handle
  {
    if run != [] {
      HandlesStay(st, run[..|run| - 1]);
      StepKeepsHandles(Exec(st, run[..|run| - 1]), run[|run| - 1]);
    }
  }

  // ---------------------------------------------------------------- who gets a message

  /** For each registered id exactly one client is meant, and every one meant is registered. */
  predicate MeansEachRegistered(targets: set<Handle>, clients: map<Handle, int>, registered: set<int>) {
    && (forall id :: id in registered ==> exists h :: h in targets && h in clients && clients[h] == id)
    && (forall h :: h in targets ==> h in clients && clients[h] in registered)
    && (forall g, h :: g in targets && h in targets && clients[g] == clients[h] ==> g == h)
  }

  lemma FanOut(st: State)
    requires Inv(st)
    ensures MeansEachRegistered(Targets(st.clients, st.registered), st.clients, st.registered)
  {
    forall id | id in st.registered
      ensures exists h :: h in Targets(st.clients, st.registered) && h in st.clients && st.clients[h] == id
    {
      assert st.threads[id].handle in Targets(st.clients, st.registered);
    }
  }

  /** Each of these clients has got it once, and no other at all. */
  ghost predicate EachOnce(hs: seq<Handle>, to: set<Handle>) {
    && (forall i, j :: 0 <= i < j < |hs| ==> hs[i] != hs[j])
    && (forall h :: h in to <==> h in hs)
  }

  /** The ids are those of these clients, each once. */
  ghost predicate StandFor(threads: seq<Thread>, ids: seq<nat>, to: set<Handle>) {
    && Known(threads, ids)
    && (forall i, j :: 0 <= i < j < |ids| ==> ids[i] != ids[j])
    && (forall i :: 0 <= i < |ids| ==> threads[ids[i]].handle in to)
    && (forall h :: h in to ==> exists i :: 0 <= i < |ids| && threads[ids[i]].handle == h)
  }

  /** A message for the clients with these ids is written once to each of `to`, to nobody else, and without an exception. */
  ghost predicate ReachesExactly(threads: seq<Thread>, ids: seq<nat>, to: set<Handle>)
    requires Known(threads, ids)
  {
    var (hs, ok) := Deliver(threads, ids);
    ok && EachOnce(hs, to)
  }

  predicate Distinct(threads: seq<Thread>) {
    forall t, u :: 0 <= t < u < |threads| ==> threads[t].handle != threads[u].handle
  }

  /** A write to this client's socket gets to it: neither end has been closed. */
  predicate Connected(th: Thread) { SocketOpen(th.pc) && th.peer.Present? }

  predicate AllConnected(threads: seq<Thread>, ids: seq<nat>)
    requires Known(threads, ids)
  {
    forall i :: 0 <= i < |ids| ==> Connected(threads[ids[i]])
  }

  lemma OwnSocket(threads: seq<Thread>, t: nat)
    requires Fds(threads) && t < |threads| && SocketOpen(threads[t].pc)
    ensures Taker(threads, threads[t].fd) == Some(t)
  {
  }

  lemma {:induction false} DeliverOpen(threads: seq<Thread>, ids: seq<nat>)
    requires Fds(threads) && Known(threads, ids) && AllConnected(threads, ids)
    ensures var (hs, ok) := Deliver(threads, ids);
            ok && |hs| == |ids| && forall i :: 0 <= i < |ids| ==> hs[i] == threads[ids[i]].handle
  {
    if ids != [] {
      var n := |ids| - 1;
      DeliverOpen(threads, ids[..n]);
      OwnSocket(threads, ids[n]);
    }
  }

  /** Whoever gets a message is connected. */
  lemma {:induction false} DeliveredOpen(threads: seq<Thread>, ids: seq<nat>, t: nat)
    requires Distinct(threads) && Known(threads, ids) && t < |threads| && !Connected(threads[t])
    ensures threads[t].handle !in Deliver(threads, ids).0
  {
    if ids != [] {
      DeliveredOpen(threads, ids[..|ids| - 1], t);
    }
  }

  lemma OpenReached(threads: seq<Thread>, ids: seq<nat>, hs: seq<Handle>, to: set<Handle>)
    requires Distinct(threads) && StandFor(threads, ids, to)
    requires |hs| == |ids| && forall i :: 0 <= i < |ids| ==> hs[i] == threads[ids[i]].handle
    ensures EachOnce(hs, to)
  {
    forall h | h in to ensures h in hs {
      var i :| 0 <= i < |ids| && threads[ids[i]].handle == h;
      assert hs[i] == h;
    }
  }

  /** A message reaches exactly the clients it is meant for if and only if all of these are connected. */
  lemma ReachesIff(threads: seq<Thread>, ids: seq<nat>, to: set<Handle>)
    requires Fds(threads) && Distinct(threads) && StandFor(threads, ids, to)
    ensures ReachesExactly(threads, ids, to) <==> AllConnected(threads, ids)
  {
    if AllConnected(threads, ids) {
      DeliverOpen(threads, ids);
      OpenReached(threads, ids, Deliver(threads, ids).0, to);
    } else {
      var i :| 0 <= i < |ids| && !Connected(threads[ids[i]]);
      DeliveredOpen(threads, ids, ids[i]);
      assert threads[ids[i]].handle in to;
    }
  }

  lemma {:induction false} AscendingAll(registered: set<int>, n: nat, id: nat)
    requires id < n && id as int in registered
    ensures exists i :: 0 <= i < |Ascending(registered, n)| && Ascending(registered, n)[i] == id
  {
    if id < n - 1 {
      AscendingAll(registered, n - 1, id);
      var i :| 0 <= i < |Ascending(registered, n - 1)| && Ascending(registered, n - 1)[i] == id;
      assert Ascending(registered, n)[i] == id;
    } else {
      assert Ascending(registered, n)[|Ascending(registered, n - 1)|] == id;
    }
  }

  /** A client in the map that is not connected: its thread has ended, or it has closed its own end. */
  predicate Lost(threads: seq<Thread>, id: int) { 0 <= id < |threads| && Live(threads[id].pc) && !Connected(threads[id]) }

  /** The ids in the set's order stand for the clients that the loops over ids and clients mean. */
  lemma RegisteredStand(clients: map<Handle, int>, n: nat, threads: seq<Thread>, registered: set<int>)
    requires Ids(clients, n, threads) && Registry(threads, registered)
    ensures StandFor(threads, Ascending(registered, |threads|), Targets(clients, registered))
  {
    var ids, to := Ascending(registered, |threads|), Targets(clients, registered);
    forall h | h in to ensures exists i :: 0 <= i < |ids| && threads[ids[i]].handle == h {
      AscendingAll(registered, |threads|, clients[h]);
      var i :| 0 <= i < |ids| && ids[i] == clients[h];
      assert threads[ids[i]].handle == h;
    }
  }

  lemma RegisteredOpen(threads: seq<Thread>, registered: set<int>)
    requires Registry(threads, registered)
    ensures AllConnected(threads, Ascending(registered, |threads|)) <==> forall id :: id in registered ==> !Lost(threads, id)
  {
    var ids := Ascending(registered, |threads|);
    if AllConnected(threads, ids) {
      forall id | id in registered ensures !Lost(threads, id) {
        AscendingAll(registered, |threads|, id);
      }
    }
  }

  /** An event is written exactly once to each registered client and to no other, and the reading thread goes on. */
  ghost predicate EventReaches(st: State)
    requires Enabled(st, ServerReceive) && st.fromHead[0].InputEvent?
  {
    var next := ServerStep(st);
    && !next.stopped
    && next.handed[..|st.handed|] == st.handed && |next.handed| == |st.handed| + 1
    && next.handed[|st.handed|].0 == st.fromHead[0].content
    && EachOnce(next.handed[|st.handed|].1, Targets(st.clients, st.registered))
  }

  lemma EventHanded(st: State)
    requires Enabled(st, ServerReceive) && st.fromHead[0].InputEvent?
    ensures EventReaches(st)
       <==> ReachesExactly(st.threads, Ascending(st.registered, |st.threads|), Targets(st.clients, st.registered))
  {
  }

  lemma EventReachesIff(st: State)
    requires Ids(st.clients, st.clientCount, st.threads) && Registry(st.threads, st.registered) && Fds(st.threads)
    requires Enabled(st, ServerReceive) && st.fromHead[0].InputEvent?
    ensures EventReaches(st) <==> forall id :: id in st.registered ==> !Lost(st.threads, id)
  {
    RegisteredStand(st.clients, st.clientCount, st.threads, st.registered);
    RegisteredOpen(st.threads, st.registered);
    ReachesIff(st.threads, Ascending(st.registered, |st.threads|), Targets(st.clients, st.registered));
    EventHanded(st);
  }

  /**
   In every run each event that arrives reaches, unchanged, exactly the clients registered at that
   moment if and only if none of them has ended and none has closed its end: a write to such a client
   fails and the exception ends the reading thread, or it is refused, or the number of the socket
   belongs to another client by now.
   */
  lemma EventsFannedOut(gotOpen: bool, gotHandshake: bool, run: seq<Action>)
    ensures var st := Exec(Init(gotOpen, gotHandshake), run);
            Enabled(st, ServerReceive) && st.fromHead[0].InputEvent? ==>
              (EventReaches(st) <==> forall id :: id in st.registered ==> !Lost(st.threads, id))
  {
    Safe(gotOpen, gotHandshake, run);
    var st := Exec(Init(gotOpen, gotHandshake), run);
    if Enabled(st, ServerReceive) && st.fromHead[0].InputEvent? {
      EventReachesIff(st);
    }
  }

  lemma OneReached(threads: seq<Thread>, id: nat)
    requires Fds(threads) && Distinct(threads) && id < |threads| && Live(threads[id].pc)
    ensures ReachesExactly(threads, [id], {threads[id].handle}) <==> !Lost(threads, id)
  {
    assert threads[[id][0]].handle in {threads[id].handle};
    ReachesIff(threads, [id], {threads[id].handle});
    assert AllConnected(threads, [id]) <==> Connected(threads[[id][0]]);
  }

  lemma AllReached(clients: map<Handle, int>, n: nat, threads: seq<Thread>, ids: seq<nat>)
    requires Fds(threads) && Ids(clients, n, threads) && StandFor(threads, ids, clients.Keys)
    ensures ReachesExactly(threads, ids, clients.Keys) <==> forall id :: !Lost(threads, id)
  {
    ReachesIff(threads, ids, clients.Keys);
    if AllConnected(threads, ids) {
      forall id ensures !Lost(threads, id) {
        if 0 <= id < |threads| && threads[id].handle in clients {
          var i :| 0 <= i < |ids| && threads[ids[i]].handle == threads[id].handle;
          assert ids[i] == id;
        }
      }
    } else {
      var i :| 0 <= i < |ids| && !Connected(threads[ids[i]]);
      assert threads[ids[i]].handle in clients.Keys;
      assert Lost(threads, ids[i]);
    }
  }

  lemma OneAddressed(clients: map<Handle, int>, n: nat, threads: seq<Thread>, id: nat)
    requires Ids(clients, n, threads) && id < |threads| && Live(threads[id].pc)
    ensures Hub.Recipients(clients, id) == {threads[id].handle}
  {
  }

  /**
   In every run a message for an id reaches exactly the client that was given it if and only if its
   thread has not ended and it has not closed its end, and one for -1 exactly the clients in the map,
   in whatever order they are written to, if and only if that holds of all of them.
   */
  lemma MessagesReach(gotOpen: bool, gotHandshake: bool, run: seq<Action>, id: nat, ids: seq<nat>)
    ensures var st := Exec(Init(gotOpen, gotHandshake), run);
            && (id < |st.threads| && Live(st.threads[id].pc) ==>
                  (ReachesExactly(st.threads, [id], Hub.Recipients(st.clients, id)) <==> !Lost(st.threads, id)))
            && (StandFor(st.threads, ids, Hub.Recipients(st.clients, -1)) ==>
                  (ReachesExactly(st.threads, ids, Hub.Recipients(st.clients, -1)) <==> forall t :: !Lost(st.threads, t)))
  {
    Safe(gotOpen, gotHandshake, run);
    var st := Exec(Init(gotOpen, gotHandshake), run);
    assert Hub.Recipients(st.clients, -1) == st.clients.Keys;
    if id < |st.threads| && Live(st.threads[id].pc) {
      OneAddressed(st.clients, st.clientCount, st.threads, id);
      OneReached(st.threads, id);
    }
    if StandFor(st.threads, ids, st.clients.Keys) {
      AllReached(st.clients, st.clientCount, st.threads, ids);
    }
  }

  // ---------------------------------------------------------------- runs that end badly

  lemma Then(st: State, run: seq<Action>, a: Action)
    ensures Exec(st, run + [a]) == Step(Exec(st, run), a)
  {
    assert (run + [a])[..|run|] == run;
  }

  /** A client opens the channel. */
  function Opened(h: Handle, fd: nat): seq<Action> {
    [Connect(h, fd)] + [Packet(0)] + [Run(0)] + [Run(0)] + [HeadReceive] + [ServerReceive] + [Run(0)] + [Run(0)] + [Run(0)]
    + [HeadReceive] + [ServerReceive] + [Run(0)]
  }

  const DONE: seq<Event> :=
    [ResetFlag(OpenFlag, 0), Got(OpenFlag), ResetFlag(HandshakeFlag, 0), SentHandshake(0), Got(HandshakeFlag), Done(0)]

  lemma FirstSteps(s: State, h: Handle, fd: nat)
    requires s == Init(false, false).(clients := map[h := 0], clientCount := 1, threads := [Client(h, fd, Registered)], registered := {0})
    ensures Step(Step(s, Run(0)), Run(0)) == s.(threads := [Client(h, fd, OpenWait)], toHead := [OpenReq], log := DONE[..1])
    ensures Step(Step(s.(threads := [Client(h, fd, OpenWait)], toHead := [OpenReq], log := DONE[..1]), HeadReceive), ServerReceive)
         == s.(threads := [Client(h, fd, OpenWait)], gotOpen := true, log := DONE[..2])
  {
  }

  lemma JustRegistered(h: Handle, fd: nat)
    ensures Exec(Init(false, false), [Connect(h, fd)] + [Packet(0)])
         == Init(false, false).(clients := map[h := 0], clientCount := 1, threads := [Client(h, fd, Registered)], registered := {0})
  {
    Then(Init(false, false), [], Connect(h, fd));
    assert [] + [Connect(h, fd)] == [Connect(h, fd)];
    Then(Init(false, false), [Connect(h, fd)], Packet(0));
  }

  lemma FirstHalf(h: Handle, fd: nat)
    ensures Exec(Init(false, false), [Connect(h, fd)] + [Packet(0)] + [Run(0)] + [Run(0)] + [HeadReceive] + [ServerReceive])
         == Init(false, false).(clients := map[h := 0], clientCount := 1, threads := [Client(h, fd, OpenWait)], registered := {0},
                                gotOpen := true, log := DONE[..2])
  {
    var st, r := Init(false, false), [Connect(h, fd)] + [Packet(0)];
    JustRegistered(h, fd);
    var s := Exec(st, r);
    FirstSteps(s, h, fd);
    Then(st, r, Run(0));
    Then(st, r + [Run(0)], Run(0));
    r := r + [Run(0)] + [Run(0)];
    Then(st, r, HeadReceive);
    Then(st, r + [HeadReceive], ServerReceive);
  }

  lemma SecondHalf(s: State, h: Handle, fd: nat)
    requires s == Init(false, false).(clients := map[h := 0], clientCount := 1, threads := [Client(h, fd, OpenWait)], registered := {0},
                                      gotOpen := true, log := DONE[..2])
    ensures Step(Step(s, Run(0)), Run(0)) == s.(threads := [Client(h, fd, HandshakeReset)], log := DONE[..3])
    ensures Step(Step(s.(threads := [Client(h, fd, HandshakeReset)], log := DONE[..3]), Run(0)), HeadReceive)
         == s.(threads := [Client(h, fd, HandshakeWait)], fromHead := [HandshakeResp], log := DONE[..4])
    ensures Step(Step(s.(threads := [Client(h, fd, HandshakeWait)], fromHead := [HandshakeResp], log := DONE[..4]), ServerReceive), Run(0))
         == s.(threads := [Client(h, fd, Idle)], gotHandshake := true, log := DONE)
  {
  }

  lemma ClientRegistered(h: Handle, fd: nat)
    ensures Exec(Init(false, false), Opened(h, fd))
         == Init(false, false).(clients := map[h := 0], clientCount := 1, threads := [Client(h, fd, Idle)], registered := {0},
                                gotOpen := true, gotHandshake := true, log := DONE)
  {
    var st := Init(false, false);
    var r := [Connect(h, fd)] + [Packet(0)] + [Run(0)] + [Run(0)] + [HeadReceive] + [ServerReceive];
    FirstHalf(h, fd);
    var s := Exec(st, r);
    SecondHalf(s, h, fd);
    Then(st, r, Run(0));
    Then(st, r + [Run(0)], Run(0));
    r := r + [Run(0)] + [Run(0)];
    Then(st, r, Run(0));
    Then(st, r + [Run(0)], HeadReceive);
    r := r + [Run(0)] + [HeadReceive];
    Then(st, r, ServerReceive);
    Then(st, r + [ServerReceive], Run(0));
  }

  lemma DeliverSnoc(threads: seq<Thread>, ids: seq<nat>, t: nat)
    requires Known(threads, ids) && t < |threads|
    ensures Known(threads, ids + [t])
    ensures var (hs, ok) := Deliver(threads, ids);
            Deliver(threads, ids + [t]) ==
            if !ok then (hs, false)
            else match WriteTo(threads, threads[t].fd) {
              case TakenBy(h) => (hs + [h], true)
              case Refused => (hs, true)
              case Failed => (hs, false)
            }
  {
    assert (ids + [t])[..|ids|] == ids;
  }

  lemma ClosedAlone(h: Handle, fd: nat)
    ensures Deliver([Client(h, fd, Ended)], Ascending({0}, 1)) == ([], false)
  {
    var threads := [Client(h, fd, Ended)];
    assert Ascending({0}, 0) == [] && Ascending({0}, 1) == [0] == [] + [0];
    assert Taker(threads, fd) == None;
    DeliverSnoc(threads, [], 0);
  }

  /**
   A registered client sends an unknown packet type, then an event arrives: nobody gets it, and the
   thread that reads from the headunit ends.
   */
  lemma EndedClientStopsReader(h: Handle, fd: nat, content: Bytes)
    ensures var st := Exec(Init(false, false), Opened(h, fd) + [BadPacket(0)] + [HeadEvent(content)] + [ServerReceive]);
            st.stopped && st.handed == [(content, [])] && st.registered == {0} && st.threads == [Client(h, fd, Ended)]
  {
    var st, r := Init(false, false), Opened(h, fd);
    ClientRegistered(h, fd);
    Then(st, r, BadPacket(0));
    r := r + [BadPacket(0)];
    Then(st, r, HeadEvent(content));
    r := r + [HeadEvent(content)];
    assert Exec(st, r).fromHead == [InputEvent(content)] && Exec(st, r).threads == [Client(h, fd, Ended)];
    Then(st, r, ServerReceive);
    ClosedAlone(h, fd);
  }

  lemma BothTaken(g: Handle, h: Handle, fd: nat)
    ensures Deliver([Client(g, fd, Ended), Client(h, fd, Idle)], [0, 1]) == ([h, h], true)
  {
    var threads := [Client(g, fd, Ended), Client(h, fd, Idle)];
    assert Taker(threads, fd) == Some(1);
    assert Deliver(threads, []) == ([], true);
    DeliverSnoc(threads, [], 0);
    assert [] + [0] == [0] && [] + [h] == [h];
    assert Deliver(threads, [0]) == ([h], true);
    DeliverSnoc(threads, [0], 1);
    assert [0] + [1] == [0, 1] && [h] + [h] == [h, h];
  }

  lemma GoneAlone(h: Handle, fd: nat)
    ensures Deliver([Thread(h, fd, OpenWait, Away(false))], Ascending({0}, 1)) == ([], false)
  {
    var threads := [Thread(h, fd, OpenWait, Away(false))];
    assert Ascending({0}, 0) == [] && Ascending({0}, 1) == [0] == [] + [0];
    assert Taker(threads, fd) == Some(0);
    DeliverSnoc(threads, [], 0);
  }

  lemma Vanishing(s: State, h: Handle, fd: nat, content: Bytes)
    requires s == Init(false, false).(clients := map[h := 0], clientCount := 1, threads := [Client(h, fd, Registered)], registered := {0})
    ensures Step(Step(s, Run(0)), PeerCloses(0, false))
         == s.(threads := [Thread(h, fd, OpenReset, Away(false))], log := DONE[..1])
    ensures Step(Step(s.(threads := [Thread(h, fd, OpenReset, Away(false))], log := DONE[..1]), HeadEvent(content)), Run(0))
         == s.(threads := [Thread(h, fd, OpenWait, Away(false))], log := DONE[..1], fromHead := [InputEvent(content)], toHead := [OpenReq])
  {
  }

  lemma Vanished(s: State, h: Handle, fd: nat, content: Bytes)
    requires s.threads == [Thread(h, fd, OpenWait, Away(false))] && s.registered == {0} && !s.stopped
    requires s.fromHead == [InputEvent(content)] && s.handed == []
    ensures var t := Step(s, ServerReceive); t.stopped && t.handed == [(content, [])] && t.threads == s.threads
  {
    GoneAlone(h, fd);
  }

  /**
   A client dies while its thread waits for the channel to open: nobody has sent an unknown packet
   type, yet the next event ends the thread that reads from the headunit, so that the wait never ends.
   */
  lemma VanishedClientStopsReader(h: Handle, fd: nat, content: Bytes)
    ensures var st := Exec(Init(false, false), [Connect(h, fd)] + [Packet(0)] + [Run(0)] + [PeerCloses(0, false)] + [HeadEvent(content)]
                                               + [Run(0)] + [ServerReceive]);
            st.stopped && st.handed == [(content, [])] && st.threads == [Thread(h, fd, OpenWait, Away(false))]
  {
    var st, r := Init(false, false), [Connect(h, fd)] + [Packet(0)];
    JustRegistered(h, fd);
    var s := Exec(st, r);
    Vanishing(s, h, fd, content);
    Then(st, r, Run(0));
    Then(st, r + [Run(0)], PeerCloses(0, false));
    r := r + [Run(0)] + [PeerCloses(0, false)];
    Then(st, r, HeadEvent(content));
    Then(st, r + [HeadEvent(content)], Run(0));
    r := r + [HeadEvent(content)] + [Run(0)];
    Vanished(Exec(st, r), h, fd, content);
    Then(st, r, ServerReceive);
  }

  lemma ConnectedAfter(g: Handle, h: Handle, fd: nat)
    requires g != h
    ensures var st := Init(false, false).(clients := map[g := 0], clientCount := 1, threads := [Client(g, fd, Ended)]);
            var t := Step(st, Connect(h, fd));
            t.threads == [Client(g, fd, Ended), Client(h, fd, Idle)] && Hub.Recipients(t.clients, -1) == {g, h}
  {
  }

  /** The number of the socket that is closed goes to the next client, which gets a message for all twice. */
  lemma ReusedSocket(g: Handle, h: Handle, fd: nat)
    requires g != h
    ensures var st := Exec(Init(false, false), [Connect(g, fd)] + [BadPacket(0)] + [Connect(h, fd)]);
            Hub.Recipients(st.clients, -1) == {g, h} && Known(st.threads, [0, 1])
            && Deliver(st.threads, [0, 1]) == ([h, h], true)
  {
    var st, r := Init(false, false), [Connect(g, fd)];
    Then(st, [], Connect(g, fd));
    assert [] + r == r;
    Then(st, r, BadPacket(0));
    r := r + [BadPacket(0)];
    assert Exec(st, r) == st.(clients := map[g := 0], clientCount := 1, threads := [Client(g, fd, Ended)]);
    Then(st, r, Connect(h, fd));
    ConnectedAfter(g, h, fd);
    BothTaken(g, h, fd);
  }

  // ---------------------------------------------------------------- order

  /** After position `i` thread `t` neither resets the flag nor leaves the handler. */
  predicate Uncut(log: seq<Event>, i: int, f: Flag, t: nat) {
    forall k :: 0 <= k && i < k < |log| ==> !Cuts(log[k], f, t)
  }

  predicate ResetAt(log: seq<Event>, i: int, f: Flag, t: nat) {
    0 <= i < |log| && log[i] == ResetFlag(f, t) && Uncut(log, i, f, t)
  }

  lemma ResetAtMore(log: seq<Event>, i: int, f: Flag, t: nat)
    requires log != []
    ensures var n := |log| - 1;
            ResetAt(log, i, f, t) <==> if i == n then log[n] == ResetFlag(f, t) else ResetAt(log[..n], i, f, t) && !Cuts(log[n], f, t)
  {
    var front := log[..|log| - 1];
    if ResetAt(front, i, f, t) && !Cuts(log[|log| - 1], f, t) {
      forall k | 0 <= k && i < k < |log| ensures !Cuts(log[k], f, t) {
        assert k < |front| ==> front[k] == log[k];
      }
    }
  }

  lemma {:induction false} AskedMeaning(log: seq<Event>, f: Flag, t: nat)
    ensures Asked(log, f, t) <==> exists i :: ResetAt(log, i, f, t)
  {
    if log != [] {
      var n := |log| - 1;
      AskedMeaning(log[..n], f, t);
      ResetAtMore(log, n, f, t);
      if Asked(log, f, t) && log[n] != ResetFlag(f, t) {
        var i :| ResetAt(log[..n], i, f, t);
        ResetAtMore(log, i, f, t);
      }
      if exists i :: ResetAt(log, i, f, t) {
        var i :| ResetAt(log, i, f, t);
        ResetAtMore(log, i, f, t);
      }
    }
  }

  /** Thread `t` resets the flag, a response arrives, and `t` has not reset it again or left since. */
  ghost predicate AnsweredAfterReset(log: seq<Event>, f: Flag, t: nat) {
    exists i, j :: i < j < |log| && ResetAt(log, i, f, t) && log[j] == Got(f)
  }

  lemma AnsweredLater(log: seq<Event>, f: Flag, t: nat)
    requires log != [] && AnsweredAfterReset(log, f, t)
    ensures var n := |log| - 1;
            !Cuts(log[n], f, t) && ((log[n] == Got(f) && Asked(log[..n], f, t)) || AnsweredAfterReset(log[..n], f, t))
  {
    var front := log[..|log| - 1];
    var i, j :| i < j < |log| && ResetAt(log, i, f, t) && log[j] == Got(f);
    ResetAtMore(log, i, f, t);
    AskedMeaning(front, f, t);
    if j < |front| {
      assert front[j] == Got(f);
    }
  }

  lemma AnsweredNow(log: seq<Event>, f: Flag, t: nat)
    requires log != [] && !Cuts(log[|log| - 1], f, t)
    requires var n := |log| - 1; (log[n] == Got(f) && Asked(log[..n], f, t)) || AnsweredAfterReset(log[..n], f, t)
    ensures AnsweredAfterReset(log, f, t)
  {
    var front, n := log[..|log| - 1], |log| - 1;
    AskedMeaning(front, f, t);
    if AnsweredAfterReset(front, f, t) {
      var i, j :| i < j < |front| && ResetAt(front, i, f, t) && front[j] == Got(f);
      ResetAtMore(log, i, f, t);
      assert log[j] == Got(f);
    } else {
      var i :| ResetAt(front, i, f, t);
      ResetAtMore(log, i, f, t);
      assert i < n && log[n] == Got(f);
    }
  }

  lemma {:induction false} SinceMeaning(log: seq<Event>, f: Flag, t: nat)
    ensures Since(log, f, t) <==> AnsweredAfterReset(log, f, t)
  {
    if log != [] {
      SinceMeaning(log[..|log| - 1], f, t);
      if AnsweredAfterReset(log, f, t) {
        AnsweredLater(log, f, t);
      }
      if Since(log, f, t) {
        AnsweredNow(log, f, t);
      }
    }
  }

  lemma {:induction false} OrderedAt(log: seq<Event>, n: nat)
    requires Ordered(log) && n < |log|
    ensures log[n].SentHandshake? ==> Since(log[..n], OpenFlag, log[n].t)
    ensures log[n].Done? ==> Since(log[..n], HandshakeFlag, log[n].t)
  {
    var front := log[..|log| - 1];
    if n < |front| {
      OrderedAt(front, n);
      assert front[..n] == log[..n];
    }
  }

  /**
   In every run, however many threads are opening the channel: when a thread sends its handshake
   request it has reset the open flag before, and a channel open response has arrived after that
   reset, both within the same call of the handler; and when it returns, a handshake response has
   arrived after its own reset.
   */
  lemma HandshakeOrder(gotOpen: bool, gotHandshake: bool, run: seq<Action>, n: nat)
    requires n < |Exec(Init(gotOpen, gotHandshake), run).log|
    ensures var log := Exec(Init(gotOpen, gotHandshake), run).log;
            && (log[n].SentHandshake? ==> AnsweredAfterReset(log[..n], OpenFlag, log[n].t))
            && (log[n].Done? ==> AnsweredAfterReset(log[..n], HandshakeFlag, log[n].t))
  {
    Safe(gotOpen, gotHandshake, run);
    var log := Exec(Init(gotOpen, gotHandshake), run).log;
    OrderedAt(log, n);
    if log[n].SentHandshake? || log[n].Done? {
      SinceMeaning(log[..n], OpenFlag, log[n].t);
      SinceMeaning(log[..n], HandshakeFlag, log[n].t);
    }
  }

  // ---------------------------------------------------------------- progress

  /** The steps of the threads and the two ends, as opposed to what the outside brings. */
  predicate Internal(a: Action) { a.Run? || a.HeadReceive? || a.ServerReceive? }

  /** How many steps a thread at this point will still cause, those of the requests it will send included. */
  function Rank(pc: Pc): nat {
    match pc
    case Registered => 10
    case OpenReset => 9
    case OpenWait => 6
    case Opened => 5
    case HandshakeReset => 4
    case HandshakeWait => 1
    case Erasing(_) => 1
    case _ => 0
  }

  function ThreadWork(threads: seq<Thread>): nat {
    if threads == [] then 0 else ThreadWork(threads[..|threads| - 1]) + Rank(threads[|threads| - 1].pc)
  }

  function Work(st: State): nat { ThreadWork(st.threads) + 2 * |st.toHead| + |st.fromHead| }

  lemma {:induction false} ThreadWorkSet(threads: seq<Thread>, t: nat, pc: Pc)
    requires t < |threads|
    ensures ThreadWork(SetPc(threads, t, pc)) == ThreadWork(threads) - Rank(threads[t].pc) + Rank(pc)
  {
    var n := |threads| - 1;
    if t < n {
      ThreadWorkSet(threads[..n], t, pc);
      assert SetPc(threads, t, pc)[..n] == SetPc(threads[..n], t, pc);
    } else {
      assert SetPc(threads, t, pc)[..n] == threads[..n];
    }
  }

  lemma {:induction false} SomeThreadWorks(threads: seq<Thread>)
    ensures ThreadWork(threads) > 0 <==> exists t :: 0 <= t < |threads| && Rank(threads[t].pc) > 0
  {
    if threads != [] {
      var front := threads[..|threads| - 1];
      SomeThreadWorks(front);
      if ThreadWork(front) > 0 {
        var t :| 0 <= t < |front| && Rank(front[t].pc) > 0;
        assert Rank(threads[t].pc) > 0;
      }
      if exists t :: 0 <= t < |front| && Rank(threads[t].pc) > 0 {
        var t :| 0 <= t < |front| && Rank(threads[t].pc) > 0;
        assert Rank(front[t].pc) > 0;
      }
    }
  }

  lemma RunLowersWork(st: State, t: nat)
    requires Enabled(st, Run(t))
    ensures Work(RunStep(st, t)) == Work(st) - 1
  {
    RunKeepsHandles(st, t);
    ThreadWorkSet(st.threads, t, RunStep(st, t).threads[t].pc);
  }

  lemma InternalLowersWork(st: State, a: Action)
    requires Internal(a) && Enabled(st, a)
    ensures Work(Step(st, a)) == Work(st) - 1
  {
    if a.Run? {
      RunLowersWork(st, a.t);
    }
  }

  /** Some internal step is enabled. */
  ghost predicate CanGoOn(st: State) { exists a :: Internal(a) && Enabled(st, a) }

  predicate Quiet(st: State) {
    && st.toHead == [] && st.fromHead == []
    && forall t :: 0 <= t < |st.threads| ==> var pc := st.threads[t].pc; pc.Idle? || pc.Gone? || pc.Ended?
  }

  lemma SomewhereRuns(st: State, pc: Pc)
    requires Somewhere(st.threads, pc) && pc in {OpenReset, HandshakeReset}
    ensures CanGoOn(st)
  {
    var t :| 0 <= t < |st.threads| && st.threads[t].pc == pc;
    assert Internal(Run(t)) && Enabled(st, Run(t));
  }

  lemma QuietExactly(st: State)
    ensures Work(st) == 0 <==> Quiet(st)
  {
    SomeThreadWorks(st.threads);
  }

  /** A thread that waits in vain is not alone: another is about to ask. */
  lemma UnfinishedThread(st: State, t: nat)
    requires NoLostWakeup(st) && st.toHead == [] && st.fromHead == []
    requires t < |st.threads| && Rank(st.threads[t].pc) > 0
    ensures CanGoOn(st)
  {
    if Enabled(st, Run(t)) {
      assert Internal(Run(t));
    } else if st.threads[t].pc.OpenWait? {
      assert Somewhere(st.threads, OpenWait);
      SomewhereRuns(st, OpenReset);
    } else {
      assert Somewhere(st.threads, HandshakeWait);
      SomewhereRuns(st, HandshakeReset);
    }
  }

  lemma WorkMeansProgress(st: State)
    requires NoLostWakeup(st) && !st.stopped
    ensures Work(st) > 0 <==> CanGoOn(st)
  {
    SomeThreadWorks(st.threads);
    if st.toHead != [] {
      assert Internal(HeadReceive) && Enabled(st, HeadReceive);
    } else if st.fromHead != [] {
      assert Internal(ServerReceive) && Enabled(st, ServerReceive);
    } else if ThreadWork(st.threads) > 0 {
      var t :| 0 <= t < |st.threads| && Rank(st.threads[t].pc) > 0;
      UnfinishedThread(st, t);
    }
    if CanGoOn(st) {
      var a :| Internal(a) && Enabled(st, a);
      InternalLowersWork(st, a);
    }
  }

  /** Only internal steps, each enabled when its turn comes. */
  predicate InternalRun(st: State, run: seq<Action>) {
    run != [] ==>
      var front, a := run[..|run| - 1], run[|run| - 1];
      InternalRun(st, front) && Internal(a) && Enabled(Exec(st, front), a)
  }

  /** A client that a write may fail at, other than by being refused. */
  predicate Breaks(threads: seq<Thread>, id: int) {
    0 <= id < |threads| && (threads[id].pc.Ended? || threads[id].peer == Away(false))
  }

  /** No event is in flight, or no write to a registered client can fail. */
  predicate Calm(st: State) {
    (forall m :: m in st.fromHead ==> !m.InputEvent?) || (forall id :: id in st.registered ==> !Breaks(st.threads, id))
  }

  lemma InternalKeepsBroken(st: State, a: Action, id: int)
    requires Internal(a) && Enabled(st, a)
    ensures Breaks(Step(st, a).threads, id) <==> Breaks(st.threads, id)
  {
    if a.Run? {
      RunKeepsHandles(st, a.t);
    }
  }

  lemma InternalAddsNoEvent(st: State, a: Action)
    requires Internal(a) && Enabled(st, a) && forall m :: m in st.fromHead ==> !m.InputEvent?
    ensures forall m :: m in Step(st, a).fromHead ==> !m.InputEvent?
  {
  }

  lemma InternalKeepsRegistered(st: State, a: Action)
    requires Internal(a) && Enabled(st, a)
    ensures Step(st, a).registered == st.registered
  {
  }

  /** Writes to clients whose sockets are open, whether they are taken or refused, let the loop come to its end. */
  lemma {:induction false} NothingFails(threads: seq<Thread>, ids: seq<nat>)
    requires Fds(threads) && Known(threads, ids)
    requires forall i :: 0 <= i < |ids| ==> Live(threads[ids[i]].pc) && !Breaks(threads, ids[i])
    ensures Deliver(threads, ids).1
  {
    if ids != [] {
      var n := |ids| - 1;
      NothingFails(threads, ids[..n]);
      OwnSocket(threads, ids[n]);
    }
  }

  /** Only an event for a client that has ended, or has closed its end, can end the reading thread. */
  lemma StopsOnlyAtEvent(st: State, a: Action)
    requires Fds(st.threads) && Registry(st.threads, st.registered)
    requires Internal(a) && Enabled(st, a) && !st.stopped && Calm(st)
    ensures !Step(st, a).stopped
  {
    if a.ServerReceive? && st.fromHead[0].InputEvent? {
      assert st.fromHead[0] in st.fromHead;
      NothingFails(st.threads, Ascending(st.registered, |st.threads|));
    }
  }

  lemma StaysCalm(st: State, a: Action)
    requires Fds(st.threads) && Registry(st.threads, st.registered) && Internal(a) && Enabled(st, a) && !st.stopped && Calm(st)
    ensures !Step(st, a).stopped && Calm(Step(st, a))
  {
    StopsOnlyAtEvent(st, a);
    InternalKeepsRegistered(st, a);
    if forall m :: m in st.fromHead ==> !m.InputEvent? {
      InternalAddsNoEvent(st, a);
    } else {
      forall id | id in st.registered ensures !Breaks(Step(st, a).threads, id) {
        InternalKeepsBroken(st, a, id);
      }
    }
  }

  lemma {:induction false} InternalRunKeeps(st: State, run: seq<Action>)
    requires Inv(st) && InternalRun(st, run)
    ensures Inv(Exec(st, run)) && Work(Exec(st, run)) == Work(st) - |run|
    ensures !st.stopped && Calm(st) ==> !Exec(st, run).stopped && Calm(Exec(st, run))
  {
    Reachable(st, run);
    if run != [] {
      var front, a := run[..|run| - 1], run[|run| - 1];
      InternalRunKeeps(st, front);
      InternalLowersWork(Exec(st, front), a);
      if !st.stopped && Calm(st) {
        StaysCalm(Exec(st, front), a);
      }
    }
  }

  /**
   No lost wakeup: from every reachable state, and whatever the order in which threads and links take
   their steps, exactly `Work(st)` of them remain, and after the last every thread that was opening
   the channel has returned. Until then some step is enabled unless the reading thread has ended, and
   it cannot end when no event is in flight or no write to a registered client can fail.
   */
  lemma EveryoneReleased(st: State, run: seq<Action>)
    requires Inv(st) && InternalRun(st, run)
    ensures var t := Exec(st, run);
            && Work(t) == Work(st) - |run|
            && (|run| == Work(st) <==> Quiet(t))
            && (!t.stopped ==> (|run| < Work(st) <==> CanGoOn(t)))
            && (!st.stopped && Calm(st) ==> !t.stopped)
  {
    InternalRunKeeps(st, run);
    QuietExactly(Exec(st, run));
    if !Exec(st, run).stopped {
      WorkMeansProgress(Exec(st, run));
    }
  }
}
