/**
 AAServer/main.cpp: the socket clients and what is written to each of them; with the input
 channel's handler, whose events are fanned out to the registered clients.
 */
module Hub {
  import opened Utils
  import opened Framing
  import opened Messages
  import opened ChannelHandlers
  import opened InputLink

  /** How a client's socket takes a message: whole, refused with ECONNRESET, or refused otherwise. */
  datatype Fate = Taken | Reset | Broken

  /** The socket message for the content of a headunit message. */
  function ToSocket(channelNumber: byte, specific: bool, data: Bytes): Bytes {
    [channelNumber, if specific then 0xff else 0x00] + data
  }

  /** The clients meant by an id; -1 means all. */
  function Recipients(clients: map<Handle, int>, clientId: int): set<Handle> {
    set h | h in clients && (clients[h] == clientId || clientId == -1)
  }

  /** The next element in a loop over a set; the order does not matter. */
  method NextOf<T>(s: set<T>) returns (x: T)
    requires s != {}
    ensures x in s
  {
    x :| x in s;
  }

  type Inbox = map<Handle, seq<Bytes>>

  /** What has been written to a client's socket. */
  function Got(inbox: Inbox, h: Handle): seq<Bytes> {
    if h in inbox then inbox[h] else []
  }

  /** Every one of `to` that can take it has got the message exactly once, and nobody else anything. */
  ghost predicate Handed(before: Inbox, after: Inbox, to: set<Handle>, msg: Bytes, fates: Handle -> Fate) {
    forall h :: Got(after, h) == Got(before, h) + if h in to && fates(h).Taken? then [msg] else []
  }

  /** Nobody has got the message twice, and nobody but `to`. */
  ghost predicate AtMostHanded(before: Inbox, after: Inbox, to: set<Handle>, msg: Bytes) {
    forall h :: Got(after, h) == Got(before, h) || (h in to && Got(after, h) == Got(before, h) + [msg])
  }

  lemma HandedTogether(a: Inbox, b: Inbox, c: Inbox, s: set<Handle>, t: set<Handle>, msg: Bytes, fates: Handle -> Fate)
    requires s !! t && Handed(a, b, s, msg, fates) && Handed(b, c, t, msg, fates)
    ensures Handed(a, c, s + t, msg, fates)
  {
    forall h ensures Got(c, h) == Got(a, h) + if h in s + t && fates(h).Taken? then [msg] else [] {
      var x, y := if h in s && fates(h).Taken? then [msg] else [], if h in t && fates(h).Taken? then [msg] else [];
      assert Got(b, h) == Got(a, h) + x && Got(c, h) == Got(b, h) + y;
      ConcatAssoc(Got(a, h), x, y);
    }
  }

  lemma HandedAtMost(a: Inbox, b: Inbox, s: set<Handle>, to: set<Handle>, msg: Bytes, fates: Handle -> Fate)
    requires s <= to && Handed(a, b, s, msg, fates)
    ensures AtMostHanded(a, b, to, msg)
  {
    forall h ensures Got(b, h) == Got(a, h) || (h in to && Got(b, h) == Got(a, h) + [msg]) {
      assert Got(b, h) == Got(a, h) + if h in s && fates(h).Taken? then [msg] else [];
    }
  }

  lemma HandedPartly(a: Inbox, b: Inbox, c: Inbox, s: set<Handle>, t: set<Handle>, msg: Bytes, fates: Handle -> Fate)
    requires s !! t && Handed(a, b, s, msg, fates) && AtMostHanded(b, c, t, msg)
    ensures AtMostHanded(a, c, s + t, msg)
  {
    forall h ensures Got(c, h) == Got(a, h) || (h in s + t && Got(c, h) == Got(a, h) + [msg]) {
      assert Got(b, h) == Got(a, h) + if h in s && fates(h).Taken? then [msg] else [];
    }
  }

  lemma NoneVisited(clients: map<Handle, int>, id: int)
    ensures Recipients(clients, id) - clients.Keys == {}
  {
  }

  lemma OneMoreVisited(clients: map<Handle, int>, id: int, rest: set<Handle>, cl: Handle)
    requires rest <= clients.Keys && cl in rest
    ensures var to := Recipients(clients, id);
            && to - rest !! {cl}
            && (cl in to <==> clients[cl] == id || id == -1)
            && to - (rest - {cl}) == if cl in to then (to - rest) + {cl} else to - rest
  {
  }

  lemma AllVisited(to: set<Handle>)
    ensures to - {} == to
  {
  }

  class Clients {
    var clients: map<Handle, int>
    var clientCount: nat
    var inbox: Inbox

    constructor ()
      ensures clients == map[] && clientCount == 0 && inbox == map[]
    {
      clients, clientCount, inbox := map[], 0, map[];
    }

    /** `newClient`. */
    method NewClient(scl: Handle)
      requires scl !in clients
      modifies this`clients, this`clientCount
      ensures clients == old(clients)[scl := old(clientCount)] && clientCount == old(clientCount) + 1
    {
      clients := clients[scl := clientCount];
      clientCount := clientCount + 1;
    }

    /** `clients[scl]`. */
    method IdOf(scl: Handle) returns (id: int)
      modifies this`clients
      ensures (clients, id) == Lookup(old(clients), scl)
      ensures if scl in old(clients) then clients == old(clients) && id == old(clients)[scl]
              else clients == old(clients)[scl := 0] && id == 0
    {
      if scl !in clients {
        clients := clients[scl := 0];
      }
      id := clients[scl];
    }

    /** `SocketClient::sendMessage`; a failure other than ECONNRESET is an exception for the caller. */
    method SendMessage(h: Handle, msg: Bytes, fates: Handle -> Fate)
      modifies this`inbox
      ensures Handed(old(inbox), inbox, {h}, msg, fates)
      ensures fates(h).Broken? ==> inbox == old(inbox)
    {
      if fates(h).Taken? {
        inbox := inbox[h := (if h in inbox then inbox[h] else []) + [msg]];
      }
    }

    /**
     `gotMessage`: a message for one id, or for all, is written exactly once to every client that
     it is meant for and that can take it, and to no other. A client that has disconnected does not
     stop the others; the first failure of another kind does.
     */
    method GotMessage(clientId: int, channelNumber: byte, specific: bool, data: Bytes, fates: Handle -> Fate)
      returns (thrown: bool)
      modifies this`inbox
      ensures thrown <==> exists h :: h in Recipients(clients, clientId) && fates(h).Broken?
      ensures !thrown ==>
                Handed(old(inbox), inbox, Recipients(clients, clientId), ToSocket(channelNumber, specific, data), fates)
      ensures AtMostHanded(old(inbox), inbox, Recipients(clients, clientId), ToSocket(channelNumber, specific, data))
    {
      var msg := [channelNumber];
      msg := msg + [if specific then 0xff else 0x00];
      msg := msg + data;
      assert msg == ToSocket(channelNumber, specific, data);
      ghost var to := Recipients(clients, clientId);
      var rest := clients.Keys;
      NoneVisited(clients, clientId);
      while rest != {}
        invariant rest <= clients.Keys
        invariant forall h :: h in to - rest ==> !fates(h).Broken?
        invariant Handed(old(inbox), inbox, to - rest, msg, fates)
        decreases rest
      {
        var cl := NextOf(rest);
        ghost var before := inbox;
        OneMoreVisited(clients, clientId, rest, cl);
        HandedAtMost(old(inbox), inbox, to - rest, to, msg, fates);
        if clients[cl] == clientId || clientId == -1 {
          SendMessage(cl, msg, fates);
          if fates(cl).Broken? {
            return true;
          }
          HandedTogether(old(inbox), before, inbox, to - rest, {cl}, msg, fates);
        }
        rest := rest - {cl};
      }
      AllVisited(to);
      HandedAtMost(old(inbox), inbox, to, to, msg, fates);
      thrown := false;
    }
  }

  lemma TargetsMore(clients: map<Handle, int>, registered: set<int>, rest: set<int>, rc: int)
    requires rest <= registered && rc in rest && rc != -1
    ensures Targets(clients, registered - (rest - {rc})) == Targets(clients, registered - rest) + Recipients(clients, rc)
    ensures Targets(clients, registered - rest) !! Recipients(clients, rc)
    ensures Recipients(clients, rc) <= Targets(clients, registered)
    ensures Targets(clients, registered - rest) <= Targets(clients, registered)
  {
  }

  class ServerInputHandler {
    const channelId: byte
    const handshake: Bytes
    const openRequest: Bytes
    const hub: Clients
    const base: ChannelHandler
    var gotHandshakeResponse: bool
    var registered_clients: set<int>
    var toHeadunit: seq<Message>

    constructor (channelId: byte, openRequest: Bytes, handshake: Bytes, hub: Clients)
      ensures this.channelId == channelId && this.hub == hub && registered_clients == {} && toHeadunit == [] && fresh(base)
      ensures this.openRequest == openRequest && this.handshake == handshake
    {
      this.channelId, this.openRequest, this.handshake, this.hub := channelId, openRequest, handshake, hub;
      registered_clients, toHeadunit := {}, [];
      base := new ChannelHandler();
    }

    /**
     An event is written exactly once to each live client with a registered id and to no other;
     `Err` is the exception of a client that can neither take it nor is disconnected.
     */
    method FanOutEvent(content: Bytes, fates: Handle -> Fate) returns (handled: Result<bool>)
      requires -1 !in registered_clients
      modifies hub`inbox
      ensures var to := Targets(hub.clients, registered_clients);
              && handled == (if exists h :: h in to && fates(h).Broken? then Err("sendMessage failed") else Ok(true))
              && (handled.Ok? ==> Handed(old(hub.inbox), hub.inbox, to, ToSocket(channelId, false, content), fates))
              && AtMostHanded(old(hub.inbox), hub.inbox, to, ToSocket(channelId, false, content))
    {
      ghost var clients, msg := hub.clients, ToSocket(channelId, false, content);
      var rest := registered_clients;
      assert Targets(clients, registered_clients - rest) == {};
      while rest != {}
        invariant rest <= registered_clients
        invariant forall h :: h in Targets(clients, registered_clients) && fates(h).Broken? ==> clients[h] in rest
        invariant Handed(old(hub.inbox), hub.inbox, Targets(clients, registered_clients - rest), msg, fates)
        decreases rest
      {
        var rc := NextOf(rest);
        ghost var before := hub.inbox;
        TargetsMore(clients, registered_clients, rest, rc);
        var thrown := hub.GotMessage(rc, channelId, false, content, fates);
        ghost var done := Targets(clients, registered_clients - rest);
        if thrown {
          HandedPartly(old(hub.inbox), before, hub.inbox, done, Recipients(clients, rc), msg, fates);
          return Err("sendMessage failed");
        }
        HandedTogether(old(hub.inbox), before, hub.inbox, done, Recipients(clients, rc), msg, fates);
        rest := rest - {rc};
      }
      assert registered_clients - rest == registered_clients;
      handled := Ok(true);
    }

    method HandleMessageFromHeadunit(data: Bytes, fates: Handle -> Fate) returns (handled: Result<bool>)
      requires |data| >= 2 && -1 !in registered_clients
      modifies base`gotChannelOpenResponse, this`gotHandshakeResponse, hub`inbox
      ensures base.gotChannelOpenResponse == (old(base.gotChannelOpenResponse) || TypeOf(data) == CHANNEL_OPEN_RESPONSE)
      ensures gotHandshakeResponse == (old(gotHandshakeResponse) || TypeOf(data) == HANDSHAKE_RESPONSE)
      ensures if TypeOf(data) == INPUT_EVENT then
                var to := Targets(hub.clients, registered_clients);
                && handled == (if exists h :: h in to && fates(h).Broken? then Err("sendMessage failed") else Ok(true))
                && (handled.Ok? ==> Handed(old(hub.inbox), hub.inbox, to, ToSocket(channelId, false, data), fates))
                && AtMostHanded(old(hub.inbox), hub.inbox, to, ToSocket(channelId, false, data))
              else
                && handled == Ok(TypeOf(data) == CHANNEL_OPEN_RESPONSE || TypeOf(data) == HANDSHAKE_RESPONSE)
                && hub.inbox == old(hub.inbox)
    {
      var baseHandled := base.HandleMessageFromHeadunit(data);
      if baseHandled {
        return Ok(true);
      }
      var messageType := ToInt16(data);
      if messageType == HANDSHAKE_RESPONSE {
        gotHandshakeResponse := true;
        return Ok(true);
      } else if messageType == INPUT_EVENT {
        handled := FanOutEvent(data, fates);
        return;
      }
      handled := Ok(false);
    }

    method SendToHeadunit(flags: Flags, data: Bytes)
      modifies this`toHeadunit
      ensures toHeadunit == old(toHeadunit) + [Message(channelId, flags, data, 0)]
    {
      toHeadunit := toHeadunit + [Message(channelId, flags, data, 0)];
    }

    /** A request: both are encrypted and whole, and only the open request is Specific. */
    function Request(m: ToHead): (r: Message)
      ensures r.channel == channelId && r.offset == 0 && Whole(r.flags, m.OpenReq?)
      ensures r.content == if m.OpenReq? then [0, 7] + openRequest else [0x80, 2] + handshake
    {
      match m
      case OpenReq => Message(channelId, BULK | ENCRYPTED | SPECIFIC, Typed(CHANNEL_OPEN_REQUEST, openRequest), 0)
      case HandshakeReq => Message(channelId, BULK | ENCRYPTED, Typed(HANDSHAKE_REQUEST, handshake), 0)
    }

    /** The state of the protocol that the handler's variables and its client's thread stand for. */
    ghost predicate Stands(st: State, t: nat, pc: Pc)
      reads this, base
    {
      && t < |st.threads| && st.threads[t].pc == pc
      && st.gotOpen == base.gotChannelOpenResponse && st.gotHandshake == gotHandshakeResponse
    }

    /**
     `handleMessageFromClient` after the client has been registered, one atomic piece at a time:
     each is the step of the protocol, and sends the bytes of the request that the step sends.
     */
    method OpenStep(pc: Pc, ghost st: State, ghost t: nat) returns (next: Pc)
      requires Stands(st, t, pc) && Opening(pc) && Running(pc, base.gotChannelOpenResponse, gotHandshakeResponse)
      modifies base`gotChannelOpenResponse, this`gotHandshakeResponse, this`toHeadunit
      ensures Stands(RunStep(st, t), t, next)
      ensures if RunStep(st, t).toHead == st.toHead then toHeadunit == old(toHeadunit)
              else exists m :: RunStep(st, t).toHead == st.toHead + [m] && toHeadunit == old(toHeadunit) + [Request(m)]
    {
      match pc {
        case Registered =>
          base.gotChannelOpenResponse := false;
          next := OpenReset;
        case OpenReset =>
          SendToHeadunit(BULK | ENCRYPTED | SPECIFIC, Typed(CHANNEL_OPEN_REQUEST, openRequest));
          assert toHeadunit == old(toHeadunit) + [Request(OpenReq)];
          next := OpenWait;
        case OpenWait =>
          next := Opened;
        case Opened =>
          gotHandshakeResponse := false;
          next := HandshakeReset;
        case HandshakeReset =>
          SendToHeadunit(BULK | ENCRYPTED, Typed(HANDSHAKE_REQUEST, handshake));
          assert toHeadunit == old(toHeadunit) + [Request(HandshakeReq)];
          next := HandshakeWait;
        case HandshakeWait =>
          next := Idle;
      }
    }

    method Register(clientId: int)
      modifies this`registered_clients
      ensures registered_clients == old(registered_clients) + {clientId}
    {
      registered_clients := registered_clients + {clientId};
    }

    method Disconnected(clientId: int)
      modifies this`registered_clients
      ensures registered_clients == old(registered_clients) - {clientId}
    {
      registered_clients := registered_clients - {clientId};
    }
  }
}
