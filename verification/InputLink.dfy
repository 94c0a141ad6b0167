/**
 The input channel with any number of socket clients: client registry and ids, concurrent opening
 of the channel by the client threads over two shared flags, and event fan-out; the headunit side
 is AAClient's handler, which answers every request. Every access to shared data is one atomic
 step, as is every wait that finds its flag set.
 */
module InputLink {
  import opened Utils

  /** A `SocketClient *`. AAServer never frees one that has been connected. */
  type Handle = nat

  datatype ToHead = OpenReq | HandshakeReq
  datatype FromHead = OpenResp | HandshakeResp | InputEvent(content: Bytes)

  /** Where a client's thread stands; after `read` returns a packet for the input channel it opens it. */
  datatype Pc =
    | Idle            // reading the socket
    | Registered      // registered_clients.insert
    | OpenReset       // gotChannelOpenResponse = false
    | OpenWait        // open request sent
    | Opened
    | HandshakeReset  // gotHandshakeResponse = false
    | HandshakeWait   // handshake request sent
    | Erasing(thrown: bool) // unregistered, still in the clients map
    | Gone(thrown: bool)    // erased; an exception also closes the socket
    | Ended           // ended by an unknown packet type or an answer that failed: socket closed, but still in the clients map

  /**
   Whether the client holds its own end of the socket. When it has closed it a write is refused with
   ECONNRESET, which the server takes for a disconnected client, or fails otherwise.
   */
  datatype Peer = Present | Away(reset: bool)

  /** `fd` is the number of the client's socket, which can be given out again once it is closed. */
  datatype Thread = Thread(handle: Handle, fd: nat, pc: Pc, peer: Peer)

  function Client(h: Handle, fd: nat, pc: Pc): Thread { Thread(h, fd, pc, Present) }

  /** The two condition flags of the handler. */
  datatype Flag = OpenFlag | HandshakeFlag

  datatype Event = ResetFlag(f: Flag, t: nat) | Got(f: Flag) | SentHandshake(t: nat) | Done(t: nat)

  datatype State = State(
    clients: map<Handle, int>, clientCount: nat, threads: seq<Thread>,
    registered: set<int>, gotOpen: bool, gotHandshake: bool,
    toHead: seq<ToHead>, fromHead: seq<FromHead>,
    stopped: bool, // the thread that reads from the headunit has ended
    log: seq<Event>, handed: seq<(Bytes, seq<Handle>)>)

  /** The two flags start out arbitrary. */
  function Init(gotOpen: bool, gotHandshake: bool): State {
    State(map[], 0, [], {}, gotOpen, gotHandshake, [], [], false, [], [])
  }

  datatype Action =
    | Connect(h: Handle, fd: nat)
    | Packet(t: nat)        // raw data for the input channel
    | Leave(t: nat, thrown: bool) // end of file, or an exception while a packet is handled
    | BadPacket(t: nat)     // unknown packet type, or an answer that fails
    | PeerCloses(t: nat, reset: bool) // the client closes its end, whatever its thread is doing
    | Run(t: nat)           // the thread's next own step
    | HeadReceive
    | HeadEvent(content: Bytes)
    | ServerReceive

  predicate Running(pc: Pc, gotOpen: bool, gotHandshake: bool) {
    match pc
    case Idle => false
    case Gone(_) => false
    case Ended => false
    case OpenWait => gotOpen
    case HandshakeWait => gotHandshake
    case _ => true
  }

  predicate SocketOpen(pc: Pc) { !pc.Ended? && !(pc.Gone? && pc.thrown) }

  predicate Enabled(st: State, a: Action) {
    match a
    case Connect(h, fd) =>
      forall t :: 0 <= t < |st.threads| ==> st.threads[t].handle != h && (SocketOpen(st.threads[t].pc) ==> st.threads[t].fd != fd)
    case Packet(t) => t < |st.threads| && st.threads[t].pc.Idle?
    case Leave(t, _) => t < |st.threads| && st.threads[t].pc.Idle?
    case BadPacket(t) => t < |st.threads| && st.threads[t].pc.Idle?
    case PeerCloses(t, _) => t < |st.threads|
    case Run(t) => t < |st.threads| && Running(st.threads[t].pc, st.gotOpen, st.gotHandshake)
    case HeadReceive => st.toHead != []
    case HeadEvent(_) => true
    case ServerReceive => st.fromHead != [] && !st.stopped
  }

  /** `clients[scl]` inserts the value 0 for a missing key before it is read. */
  function Lookup(clients: map<Handle, int>, h: Handle): (map<Handle, int>, int) {
    if h in clients then (clients, clients[h]) else (clients[h := 0], 0)
  }

  function SetPc(threads: seq<Thread>, t: nat, pc: Pc): (ts: seq<Thread>)
    requires t < |threads|
    ensures |ts| == |threads|
  {
    threads[t := threads[t].(pc := pc)]
  }

  function SetPeer(threads: seq<Thread>, t: nat, peer: Peer): (ts: seq<Thread>)
    requires t < |threads|
    ensures |ts| == |threads|
  {
    threads[t := threads[t].(peer := peer)]
  }

  function PacketStep(st: State, t: nat): State
    requires t < |st.threads|
  {
    var (clients, id) := Lookup(st.clients, st.threads[t].handle);
    st.(clients := clients, registered := st.registered + {id}, threads := SetPc(st.threads, t, Registered))
  }

  function LeaveStep(st: State, t: nat, thrown: bool): State
    requires t < |st.threads|
  {
    var (clients, id) := Lookup(st.clients, st.threads[t].handle);
    st.(clients := clients, registered := st.registered - {id}, threads := SetPc(st.threads, t, Erasing(thrown)))
  }

  function RunStep(st: State, t: nat): State
    requires t < |st.threads| && Running(st.threads[t].pc, st.gotOpen, st.gotHandshake)
  {
    match st.threads[t].pc
    case Registered => st.(threads := SetPc(st.threads, t, OpenReset), gotOpen := false, log := st.log + [ResetFlag(OpenFlag, t)])
    case OpenReset => st.(threads := SetPc(st.threads, t, OpenWait), toHead := st.toHead + [OpenReq])
    case OpenWait => st.(threads := SetPc(st.threads, t, Opened))
    case Opened =>
      st.(threads := SetPc(st.threads, t, HandshakeReset), gotHandshake := false, log := st.log + [ResetFlag(HandshakeFlag, t)])
    case HandshakeReset =>
      st.(threads := SetPc(st.threads, t, HandshakeWait), toHead := st.toHead + [HandshakeReq], log := st.log + [SentHandshake(t)])
    case HandshakeWait => st.(threads := SetPc(st.threads, t, Idle), log := st.log + [Done(t)])
    case Erasing(thrown) => st.(threads := SetPc(st.threads, t, Gone(thrown)), clients := st.clients - {st.threads[t].handle})
  }

  /** The clients that an event is handed to: for each registered id, every client with that id. */
  function Targets(clients: map<Handle, int>, registered: set<int>): set<Handle> {
    set h | h in clients && clients[h] in registered
  }

  /** The registered ids in the order of the set. */
  function Ascending(registered: set<int>, n: nat): (ids: seq<nat>)
    ensures forall i :: 0 <= i < |ids| ==> ids[i] < n && ids[i] as int in registered
    ensures forall i, j :: 0 <= i < j < |ids| ==> ids[i] < ids[j]
  {
    if n == 0 then [] else Ascending(registered, n - 1) + if (n - 1) as int in registered then [n - 1] else []
  }

  /** The client that gets what is written to a socket number: the one whose socket is open under it. */
  function Taker(threads: seq<Thread>, fd: nat): (t: Option<nat>)
    ensures t.Some? ==> t.value < |threads| && SocketOpen(threads[t.value].pc) && threads[t.value].fd == fd
    ensures t.None? ==> forall u :: 0 <= u < |threads| && SocketOpen(threads[u].pc) ==> threads[u].fd != fd
  {
    if threads == [] then None
    else
      var n := |threads| - 1;
      if SocketOpen(threads[n].pc) && threads[n].fd == fd then Some(n) else Taker(threads[..n], fd)
  }

  /** What becomes of a message written to a socket number. */
  datatype Write = TakenBy(h: Handle) | Refused | Failed

  function WriteTo(threads: seq<Thread>, fd: nat): Write {
    var t := Taker(threads, fd);
    if t.None? then Failed
    else match threads[t.value].peer
      case Present => TakenBy(threads[t.value].handle)
      case Away(reset) => if reset then Refused else Failed
  }

  predicate Known(threads: seq<Thread>, ids: seq<nat>) { forall i :: 0 <= i < |ids| ==> ids[i] < |threads| }

  /**
   A message written to the clients with these ids, one after the other: who gets it, and whether
   the loop comes to its end. A refused write is ignored; the first that fails is an exception.
   */
  function Deliver(threads: seq<Thread>, ids: seq<nat>): (seq<Handle>, bool)
    requires Known(threads, ids)
  {
    if ids == [] then ([], true)
    else
      var n := |ids| - 1;
      var (hs, ok) := Deliver(threads, ids[..n]);
      if !ok then (hs, false)
      else
        match WriteTo(threads, threads[ids[n]].fd)
        case TakenBy(h) => (hs + [h], true)
        case Refused => (hs, true)
        case Failed => (hs, false)
  }

  function ServerStep(st: State): State
    requires st.fromHead != []
  {
    var rest := st.fromHead[1..];
    match st.fromHead[0]
    case OpenResp => st.(fromHead := rest, gotOpen := true, log := st.log + [Got(OpenFlag)])
    case HandshakeResp => st.(fromHead := rest, gotHandshake := true, log := st.log + [Got(HandshakeFlag)])
    case InputEvent(m) =>
      var (hs, ok) := Deliver(st.threads, Ascending(st.registered, |st.threads|));
      st.(fromHead := rest, handed := st.handed + [(m, hs)], stopped := !ok)
  }

  function Answer(m: ToHead): FromHead { if m.OpenReq? then OpenResp else HandshakeResp }

  function Step(st: State, a: Action): State {
    if !Enabled(st, a) then st
    else match a
      case Connect(h, fd) =>
        st.(clients := st.clients[h := st.clientCount], clientCount := st.clientCount + 1, threads := st.threads + [Client(h, fd, Idle)])
      case Packet(t) => PacketStep(st, t)
      case Leave(t, thrown) => LeaveStep(st, t, thrown)
      case BadPacket(t) => st.(threads := SetPc(st.threads, t, Ended))
      case PeerCloses(t, reset) => st.(threads := SetPeer(st.threads, t, Away(reset)))
      case Run(t) => RunStep(st, t)
      case HeadReceive => st.(toHead := st.toHead[1..], fromHead := st.fromHead + [Answer(st.toHead[0])])
      case HeadEvent(m) => st.(fromHead := st.fromHead + [InputEvent(m)])
      case ServerReceive => ServerStep(st)
  }

  function Exec(st: State, run: seq<Action>): State {
    if run == [] then st else Step(Exec(st, run[..|run| - 1]), run[|run| - 1])
  }

  // ---------------------------------------------------------------- ids

  predicate Live(pc: Pc) { !pc.Gone? }

  /** The thread is inside `handleMessageFromClient`. */
  predicate Opening(pc: Pc) {
    pc in {Registered, OpenReset, OpenWait, Opened, HandshakeReset, HandshakeWait}
  }

  /** The client in the map under each id is the one that connected as that number. */
  predicate Ids(clients: map<Handle, int>, clientCount: nat, threads: seq<Thread>) {
    && clientCount == |threads|
    && (forall t, u :: 0 <= t < u < |threads| ==> threads[t].handle != threads[u].handle)
    && (forall t :: 0 <= t < |threads| ==>
          (threads[t].handle in clients <==> Live(threads[t].pc))
          && (threads[t].handle in clients ==> clients[threads[t].handle] == t))
    && (forall h :: h in clients ==> 0 <= clients[h] < |threads| && threads[clients[h]].handle == h)
  }

  /** Only live clients are registered, and those whose thread is opening the channel are. */
  predicate Registry(threads: seq<Thread>, registered: set<int>) {
    && (forall id :: id in registered ==> 0 <= id < |threads| && Live(threads[id].pc) && !threads[id].pc.Erasing?)
    && (forall t :: 0 <= t < |threads| && Opening(threads[t].pc) ==> t in registered)
  }

  /** No two open sockets have the same number. */
  predicate Fds(threads: seq<Thread>) {
    forall t, u :: 0 <= t < u < |threads| && SocketOpen(threads[t].pc) && SocketOpen(threads[u].pc) ==>
      threads[t].fd != threads[u].fd
  }

  // ---------------------------------------------------------------- flags, requests and responses

  predicate Cuts(e: Event, f: Flag, t: nat) { e == ResetFlag(f, t) || e == Done(t) }

  /** Has thread `t` reset the flag since it last left the handler? */
  predicate Asked(log: seq<Event>, f: Flag, t: nat) {
    log != [] &&
    var e := log[|log| - 1];
    if Cuts(e, f, t) then e.ResetFlag? else Asked(log[..|log| - 1], f, t)
  }

  /** Has a response arrived since that reset? */
  predicate Since(log: seq<Event>, f: Flag, t: nat) {
    log != [] &&
    var front, e := log[..|log| - 1], log[|log| - 1];
    !Cuts(e, f, t) && ((e == Got(f) && Asked(front, f, t)) || Since(front, f, t))
  }

  /**
   Every handshake request follows an open response received since that same thread's reset, and
   every return from the handler a handshake response received since its reset.
   */
  predicate Ordered(log: seq<Event>) {
    log != [] ==>
      var front, e := log[..|log| - 1], log[|log| - 1];
      && Ordered(front)
      && (e.SentHandshake? ==> Since(front, OpenFlag, e.t))
      && (e.Done? ==> Since(front, HandshakeFlag, e.t))
  }

  lemma LogMore(log: seq<Event>, e: Event, f: Flag, t: nat)
    ensures Asked(log + [e], f, t) <==> if Cuts(e, f, t) then e.ResetFlag? else Asked(log, f, t)
    ensures Since(log + [e], f, t) <==> !Cuts(e, f, t) && ((e == Got(f) && Asked(log, f, t)) || Since(log, f, t))
  {
    assert (log + [e])[..|log|] == log;
  }

  lemma OrderedMore(log: seq<Event>, e: Event)
    ensures Ordered(log + [e]) <==>
            Ordered(log) && (e.SentHandshake? ==> Since(log, OpenFlag, e.t)) && (e.Done? ==> Since(log, HandshakeFlag, e.t))
  {
    assert (log + [e])[..|log|] == log;
  }

  function Requests(q: seq<ToHead>, m: ToHead): nat {
    if q == [] then 0 else (if q[0] == m then 1 else 0) + Requests(q[1..], m)
  }

  function Responses(q: seq<FromHead>, m: FromHead): nat {
    if q == [] then 0 else (if q[0] == m then 1 else 0) + Responses(q[1..], m)
  }

  lemma {:induction false} RequestsSnoc(q: seq<ToHead>, x: ToHead, m: ToHead)
    ensures Requests(q + [x], m) == Requests(q, m) + if x == m then 1 else 0
  {
    if q != [] {
      RequestsSnoc(q[1..], x, m);
      assert (q + [x])[1..] == q[1..] + [x];
    }
  }

  lemma {:induction false} ResponsesSnoc(q: seq<FromHead>, x: FromHead, m: FromHead)
    ensures Responses(q + [x], m) == Responses(q, m) + if x == m then 1 else 0
  {
    if q != [] {
      ResponsesSnoc(q[1..], x, m);
      assert (q + [x])[1..] == q[1..] + [x];
    }
  }

  predicate Somewhere(threads: seq<Thread>, pc: Pc) { exists t :: 0 <= t < |threads| && threads[t].pc == pc }

  /** Requests that have not been answered, and answers that have not arrived. */
  function Pending(toHead: seq<ToHead>, fromHead: seq<FromHead>, m: ToHead): nat {
    Requests(toHead, m) + Responses(fromHead, Answer(m))
  }

  /** While the flag is false, no thread waits for it in vain: someone is about to ask, or an answer is to come. */
  predicate WaitersServed(flag: bool, threads: seq<Thread>, waiting: Pc, reset: Pc, pending: nat) {
    !flag && Somewhere(threads, waiting) ==> Somewhere(threads, reset) || pending > 0
  }

  predicate NoLostWakeup(st: State) {
    && WaitersServed(st.gotOpen, st.threads, OpenWait, OpenReset, Pending(st.toHead, st.fromHead, OpenReq))
    && WaitersServed(st.gotHandshake, st.threads, HandshakeWait, HandshakeReset, Pending(st.toHead, st.fromHead, HandshakeReq))
  }

  /** Whether thread `t`'s reset, and a response since, are in the log whenever its position says so. */
  predicate FreshAt(pc: Pc, gotOpen: bool, gotHandshake: bool, log: seq<Event>, t: nat) {
    && (pc in {OpenReset, OpenWait} ==> Asked(log, OpenFlag, t) && (gotOpen ==> Since(log, OpenFlag, t)))
    && (pc in {Opened, HandshakeReset} ==> Since(log, OpenFlag, t))
    && (pc in {HandshakeReset, HandshakeWait} ==> Asked(log, HandshakeFlag, t) && (gotHandshake ==> Since(log, HandshakeFlag, t)))
  }

  predicate Fresh(threads: seq<Thread>, gotOpen: bool, gotHandshake: bool, log: seq<Event>) {
    forall t :: 0 <= t < |threads| ==> FreshAt(threads[t].pc, gotOpen, gotHandshake, log, t)
  }

  predicate ProtocolInv(st: State) {
    && Ids(st.clients, st.clientCount, st.threads)
    && Registry(st.threads, st.registered)
    && NoLostWakeup(st)
    && Fresh(st.threads, st.gotOpen, st.gotHandshake, st.log)
    && Ordered(st.log)
  }

  predicate Inv(st: State) { ProtocolInv(st) && Fds(st.threads) }

  lemma InitInv(gotOpen: bool, gotHandshake: bool)
    ensures Inv(Init(gotOpen, gotHandshake))
  {
  }

  // ---------------------------------------------------------------- every step keeps the invariant

  lemma SomewhereSet(threads: seq<Thread>, t: nat, pc: Pc, x: Pc)
    requires t < |threads|
    ensures Somewhere(SetPc(threads, t, pc), x) ==> Somewhere(threads, x) || pc == x
    ensures pc == x || (Somewhere(threads, x) && threads[t].pc != x) ==> Somewhere(SetPc(threads, t, pc), x)
  {
    var ts := SetPc(threads, t, pc);
    if Somewhere(ts, x) && pc != x {
      var u :| 0 <= u < |ts| && ts[u].pc == x;
      assert threads[u].pc == x;
    }
    if pc == x {
      assert ts[t].pc == x;
    } else if Somewhere(threads, x) && threads[t].pc != x {
      var u :| 0 <= u < |threads| && threads[u].pc == x;
      assert ts[u].pc == x;
    }
  }

  lemma SomewhereConnect(threads: seq<Thread>, h: Handle, fd: nat, x: Pc)
    requires x != Idle
    ensures Somewhere(threads + [Client(h, fd, Idle)], x) <==> Somewhere(threads, x)
  {
    var ts := threads + [Client(h, fd, Idle)];
    if Somewhere(threads, x) {
      var u :| 0 <= u < |threads| && threads[u].pc == x;
      assert ts[u].pc == x;
    }
  }

  lemma ConnectKeepsIds(clients: map<Handle, int>, n: nat, threads: seq<Thread>, registered: set<int>, h: Handle, fd: nat)
    requires Ids(clients, n, threads) && Registry(threads, registered)
    requires forall t :: 0 <= t < |threads| ==> threads[t].handle != h
    ensures Ids(clients[h := n], n + 1, threads + [Client(h, fd, Idle)]) && Registry(threads + [Client(h, fd, Idle)], registered)
  {
  }

  lemma ConnectKeepsInv(st: State, h: Handle, fd: nat)
    requires ProtocolInv(st) && Enabled(st, Connect(h, fd))
    ensures ProtocolInv(Step(st, Connect(h, fd)))
  {
    ConnectKeepsIds(st.clients, st.clientCount, st.threads, st.registered, h, fd);
    SomewhereConnect(st.threads, h, fd, OpenWait);
    SomewhereConnect(st.threads, h, fd, OpenReset);
    SomewhereConnect(st.threads, h, fd, HandshakeWait);
    SomewhereConnect(st.threads, h, fd, HandshakeReset);
  }

  /** A step never opens a socket that was closed. */
  lemma FdsKept(threads: seq<Thread>, t: nat, pc: Pc)
    requires Fds(threads) && t < |threads| && (SocketOpen(pc) ==> SocketOpen(threads[t].pc))
    ensures Fds(SetPc(threads, t, pc))
  {
  }

  lemma IdsKept(clients: map<Handle, int>, n: nat, threads: seq<Thread>, t: nat, pc: Pc)
    requires Ids(clients, n, threads) && t < |threads| && Live(threads[t].pc) && Live(pc)
    ensures Ids(clients, n, SetPc(threads, t, pc))
  {
  }

  lemma IdsErased(clients: map<Handle, int>, n: nat, threads: seq<Thread>, t: nat, thrown: bool)
    requires Ids(clients, n, threads) && t < |threads| && Live(threads[t].pc)
    ensures Ids(clients - {threads[t].handle}, n, SetPc(threads, t, Gone(thrown)))
  {
  }

  lemma RegistryKept(threads: seq<Thread>, registered: set<int>, t: nat, pc: Pc)
    requires Registry(threads, registered) && t < |threads| && Live(pc)
    requires !pc.Erasing? && (Opening(pc) ==> t in registered)
    ensures Registry(SetPc(threads, t, pc), registered)
  {
  }

  lemma RegistryLeft(threads: seq<Thread>, registered: set<int>, t: nat, pc: Pc)
    requires Registry(threads, registered) && t < |threads| && (pc.Erasing? || pc.Gone?)
    ensures Registry(SetPc(threads, t, pc), registered - {t})
  {
  }

  lemma FreshKept(threads: seq<Thread>, gotOpen: bool, gotHandshake: bool, log: seq<Event>, t: nat, pc: Pc)
    requires Fresh(threads, gotOpen, gotHandshake, log) && t < |threads|
    requires pc !in {OpenReset, OpenWait, Opened, HandshakeReset, HandshakeWait}
    ensures Fresh(SetPc(threads, t, pc), gotOpen, gotHandshake, log)
  {
  }

  /** Moves of one thread that are neither waits nor resets leave the waiters as they are. */
  lemma WaitersKept(st: State, t: nat, pc: Pc)
    requires NoLostWakeup(st) && t < |st.threads|
    requires st.threads[t].pc !in {OpenReset, HandshakeReset} && pc !in {OpenWait, HandshakeWait}
    ensures NoLostWakeup(st.(threads := SetPc(st.threads, t, pc)))
  {
    SomewhereSet(st.threads, t, pc, OpenWait);
    SomewhereSet(st.threads, t, pc, OpenReset);
    SomewhereSet(st.threads, t, pc, HandshakeWait);
    SomewhereSet(st.threads, t, pc, HandshakeReset);
  }

  lemma OutsideStepsKeepInv(st: State, a: Action)
    requires ProtocolInv(st) && Enabled(st, a) && (a.Packet? || a.Leave? || a.BadPacket?)
    ensures ProtocolInv(Step(st, a))
  {
    var pc := match a { case Packet(_) => Registered case Leave(_, thrown) => Erasing(thrown) case _ => Ended };
    var t := match a { case Packet(t) => t case Leave(t, _) => t case BadPacket(t) => t };
    IdsKept(st.clients, st.clientCount, st.threads, t, pc);
    FreshKept(st.threads, st.gotOpen, st.gotHandshake, st.log, t, pc);
    WaitersKept(st, t, pc);
    if a.Leave? {
      RegistryLeft(st.threads, st.registered, t, pc);
    } else if a.Packet? {
      assert Registry(st.threads, st.registered + {t as int});
      RegistryKept(st.threads, st.registered + {t as int}, t, pc);
    } else {
      RegistryKept(st.threads, st.registered, t, pc);
    }
  }

  lemma RunKeepsIds(st: State, t: nat)
    requires ProtocolInv(st) && Enabled(st, Run(t))
    ensures var s := RunStep(st, t); Ids(s.clients, s.clientCount, s.threads) && Registry(s.threads, s.registered)
  {
    if st.threads[t].pc.Erasing? {
      var thrown := st.threads[t].pc.thrown;
      IdsErased(st.clients, st.clientCount, st.threads, t, thrown);
      RegistryLeft(st.threads, st.registered, t, Gone(thrown));
      assert st.registered - {t as int} == st.registered;
    } else {
      var pc := RunStep(st, t).threads[t].pc;
      IdsKept(st.clients, st.clientCount, st.threads, t, pc);
      RegistryKept(st.threads, st.registered, t, pc);
    }
  }

  lemma RunKeepsWaiters(st: State, t: nat)
    requires NoLostWakeup(st) && Enabled(st, Run(t))
    ensures NoLostWakeup(RunStep(st, t))
  {
    var pc := RunStep(st, t).threads[t].pc;
    SomewhereSet(st.threads, t, pc, OpenWait);
    SomewhereSet(st.threads, t, pc, OpenReset);
    SomewhereSet(st.threads, t, pc, HandshakeWait);
    SomewhereSet(st.threads, t, pc, HandshakeReset);
    RequestsSnoc(st.toHead, OpenReq, OpenReq);
    RequestsSnoc(st.toHead, OpenReq, HandshakeReq);
    RequestsSnoc(st.toHead, HandshakeReq, OpenReq);
    RequestsSnoc(st.toHead, HandshakeReq, HandshakeReq);
  }

  /** The event a thread's step adds to the log, if any. */
  function RunEvent(pc: Pc, t: nat): Option<Event> {
    match pc
    case Registered => Some(ResetFlag(OpenFlag, t))
    case Opened => Some(ResetFlag(HandshakeFlag, t))
    case HandshakeReset => Some(SentHandshake(t))
    case HandshakeWait => Some(Done(t))
    case _ => None
  }

  lemma OwnStepFresh(pc: Pc, next: Pc, gotOpen: bool, gotHandshake: bool, log: seq<Event>, t: nat)
    requires FreshAt(pc, gotOpen, gotHandshake, log, t) && Running(pc, gotOpen, gotHandshake)
    requires match pc
             case Registered => next == OpenReset
             case OpenReset => next == OpenWait
             case OpenWait => next == Opened
             case Opened => next == HandshakeReset
             case HandshakeReset => next == HandshakeWait
             case _ => next.Idle? || next.Gone?
    ensures var e := RunEvent(pc, t);
            FreshAt(next, gotOpen && e != Some(ResetFlag(OpenFlag, t)), gotHandshake && e != Some(ResetFlag(HandshakeFlag, t)),
                    if e.Some? then log + [e.value] else log, t)
  {
    var e := RunEvent(pc, t);
    if e.Some? {
      LogMore(log, e.value, OpenFlag, t);
      LogMore(log, e.value, HandshakeFlag, t);
    }
  }

  lemma OtherStepFresh(pc: Pc, gotOpen: bool, gotHandshake: bool, log: seq<Event>, e: Event, t: nat, u: nat)
    requires FreshAt(pc, gotOpen, gotHandshake, log, u) && t != u
    requires e in {ResetFlag(OpenFlag, t), ResetFlag(HandshakeFlag, t), SentHandshake(t), Done(t)}
    ensures FreshAt(pc, gotOpen && !(e.ResetFlag? && e.f.OpenFlag?), gotHandshake && !(e.ResetFlag? && e.f.HandshakeFlag?), log + [e], u)
  {
    LogMore(log, e, OpenFlag, u);
    LogMore(log, e, HandshakeFlag, u);
  }

  lemma RunKeepsFresh(st: State, t: nat)
    requires Fresh(st.threads, st.gotOpen, st.gotHandshake, st.log) && Enabled(st, Run(t))
    ensures var s := RunStep(st, t); Fresh(s.threads, s.gotOpen, s.gotHandshake, s.log)
  {
    var s, pc := RunStep(st, t), st.threads[t].pc;
    var e := RunEvent(pc, t);
    forall u | 0 <= u < |s.threads| ensures FreshAt(s.threads[u].pc, s.gotOpen, s.gotHandshake, s.log, u) {
      if u == t {
        OwnStepFresh(pc, s.threads[t].pc, st.gotOpen, st.gotHandshake, st.log, t);
      } else if e.Some? {
        OtherStepFresh(st.threads[u].pc, st.gotOpen, st.gotHandshake, st.log, e.value, t, u);
      }
    }
  }

  lemma RunKeepsOrder(st: State, t: nat)
    requires Fresh(st.threads, st.gotOpen, st.gotHandshake, st.log) && Ordered(st.log) && Enabled(st, Run(t))
    ensures Ordered(RunStep(st, t).log)
  {
    var e := RunEvent(st.threads[t].pc, t);
    if e.Some? {
      OrderedMore(st.log, e.value);
    }
  }

  lemma ReceivesKeepInv(st: State, a: Action)
    requires ProtocolInv(st) && Enabled(st, a) && (a.HeadReceive? || a.HeadEvent?)
    ensures ProtocolInv(Step(st, a))
  {
    var x := if a.HeadEvent? then InputEvent(a.content) else Answer(st.toHead[0]);
    ResponsesSnoc(st.fromHead, x, OpenResp);
    ResponsesSnoc(st.fromHead, x, HandshakeResp);
  }

  /** A response makes every thread that will look at the flag see one received since its reset. */
  lemma ResponseKeepsFresh(threads: seq<Thread>, gotOpen: bool, gotHandshake: bool, log: seq<Event>)
    requires Fresh(threads, gotOpen, gotHandshake, log)
    ensures Fresh(threads, true, gotHandshake, log + [Got(OpenFlag)])
    ensures Fresh(threads, gotOpen, true, log + [Got(HandshakeFlag)])
  {
    forall u | 0 <= u < |threads|
      ensures FreshAt(threads[u].pc, true, gotHandshake, log + [Got(OpenFlag)], u)
    {
      LogMore(log, Got(OpenFlag), OpenFlag, u);
      LogMore(log, Got(OpenFlag), HandshakeFlag, u);
    }
    forall u | 0 <= u < |threads|
      ensures FreshAt(threads[u].pc, gotOpen, true, log + [Got(HandshakeFlag)], u)
    {
      LogMore(log, Got(HandshakeFlag), OpenFlag, u);
      LogMore(log, Got(HandshakeFlag), HandshakeFlag, u);
    }
  }

  lemma ServerStepWaiters(st: State)
    requires NoLostWakeup(st) && st.fromHead != []
    ensures NoLostWakeup(ServerStep(st))
  {
  }

  lemma ServerStepKeepsInv(st: State)
    requires ProtocolInv(st) && st.fromHead != []
    ensures ProtocolInv(ServerStep(st))
  {
    ServerStepWaiters(st);
    ResponseKeepsFresh(st.threads, st.gotOpen, st.gotHandshake, st.log);
    OrderedMore(st.log, Got(OpenFlag));
    OrderedMore(st.log, Got(HandshakeFlag));
  }

  lemma SomewherePeer(threads: seq<Thread>, t: nat, peer: Peer, x: Pc)
    requires t < |threads|
    ensures Somewhere(SetPeer(threads, t, peer), x) <==> Somewhere(threads, x)
  {
    var ts := SetPeer(threads, t, peer);
    if Somewhere(threads, x) {
      var u :| 0 <= u < |threads| && threads[u].pc == x;
      assert ts[u].pc == x;
    }
    if Somewhere(ts, x) {
      var u :| 0 <= u < |ts| && ts[u].pc == x;
      assert threads[u].pc == x;
    }
  }

  /** A client that closes its end changes nothing in the server. */
  lemma PeerKeepsInv(st: State, t: nat, peer: Peer)
    requires ProtocolInv(st) && t < |st.threads|
    ensures ProtocolInv(st.(threads := SetPeer(st.threads, t, peer)))
  {
    SomewherePeer(st.threads, t, peer, OpenWait);
    SomewherePeer(st.threads, t, peer, OpenReset);
    SomewherePeer(st.threads, t, peer, HandshakeWait);
    SomewherePeer(st.threads, t, peer, HandshakeReset);
  }

  lemma RunKeepsFds(st: State, t: nat)
    requires Fds(st.threads) && Enabled(st, Run(t))
    ensures Fds(RunStep(st, t).threads)
  {
    FdsKept(st.threads, t, RunStep(st, t).threads[t].pc);
  }

  /** A new socket gets a number that is free, and no step opens one again. */
  lemma StepKeepsFds(st: State, a: Action)
    requires Fds(st.threads)
    ensures Fds(Step(st, a).threads)
  {
    if Enabled(st, a) {
      match a {
        case Packet(t) => FdsKept(st.threads, t, Registered);
        case Leave(t, thrown) => FdsKept(st.threads, t, Erasing(thrown));
        case BadPacket(t) => FdsKept(st.threads, t, Ended);
        case Run(t) => RunKeepsFds(st, t);
        case _ =>
      }
    }
  }

  lemma StepKeepsInv(st: State, a: Action)
    requires Inv(st)
    ensures Inv(Step(st, a))
  {
    StepKeepsFds(st, a);
    if Enabled(st, a) {
      match a {
        case Connect(h, fd) => ConnectKeepsInv(st, h, fd);
        case Run(t) => RunKeepsIds(st, t); RunKeepsWaiters(st, t); RunKeepsFresh(st, t); RunKeepsOrder(st, t);
        case HeadReceive => ReceivesKeepInv(st, a);
        case HeadEvent(_) => ReceivesKeepInv(st, a);
        case ServerReceive => ServerStepKeepsInv(st);
        case PeerCloses(t, reset) => PeerKeepsInv(st, t, Away(reset));
        case _ => OutsideStepsKeepInv(st, a);
      }
    }
  }

  lemma {:induction false} Reachable(st: State, run: seq<Action>)
    requires Inv(st)
    ensures Inv(Exec(st, run))
  {
    if run != [] {
      Reachable(st, run[..|run| - 1]);
      StepKeepsInv(Exec(st, run[..|run| - 1]), run[|run| - 1]);
    }
  }
}
