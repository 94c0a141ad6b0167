/**
 Bringing the link up: AAClient's `setup` against AAServer's dispatch on channel 0, on the bytes of
 the messages. TLS is abstracted to any number of flights each way; no socket client is attached.
 */
module BringUp {
  import opened Utils
  import opened Messages

  /** One message on channel 0. */
  datatype Envelope = Envelope(encrypted: bool, content: Bytes)

  /**
   A TLS connection that needs `flights` flights each way, the client's first: the k-th flight of
   each side, which the other side accepts at that point and no other.
   */
  datatype Tls = Tls(flights: nat, client: nat -> Bytes, server: nat -> Bytes)

  ghost predicate Proper(t: Tls) {
    t.flights >= 1 && forall k: nat :: t.client(k) != [] && t.server(k) != []
  }

  // ---------------------------------------------------------------- messages

  function VersionRequest(major: nat, minor: nat): (m: Bytes)
    ensures |m| == 6 && m[..2] == [0, 1] && m[2..] == Int16(major) + Int16(minor)
  {
    Int16(VERSION_REQUEST) + Int16(major) + Int16(minor)
  }

  function VersionResponse(major: nat, minor: nat): (m: Bytes)
    ensures |m| == 8 && m[..2] == [0, 2] && m[2..] == Int16(major) + Int16(minor) + [0, 0]
  {
    Int16(VERSION_RESPONSE) + Int16(major) + Int16(minor) + Int16(0)
  }

  function Ssl(flight: Bytes): (m: Bytes)
    ensures m == [0, 3] + flight
  {
    Int16(SSL_HANDSHAKE) + flight
  }

  function AuthComplete(): (m: Bytes)
    ensures m == [0, 4, 8, 0]
  {
    Int16(AUTH_COMPLETE) + [8, 0]
  }

  function DiscoveryRequest(info: Bytes): (m: Bytes)
    ensures m == [0, 5] + info
  {
    Int16(SERVICE_DISCOVERY_REQUEST) + info
  }

  lemma TypePrefix(t: nat, rest: Bytes)
    requires t < 0x1_0000
    ensures var m := Int16(t) + rest; |m| >= 2 && TypeOf(m) == t && m[2..] == rest
  {
    Int16RoundTrip(t);
  }

  // ---------------------------------------------------------------- AAClient

  /** Where `setup` stands; `read` counts the server flights taken. */
  datatype ClientPc = Begin | AwaitVersion | AwaitTls(read: nat) | Up | Thrown

  /** `expectVersionResponse`. */
  predicate VersionAccepted(content: Bytes) {
    |content| == 8 && TypeOf(content) == VERSION_RESPONSE && content[6] == 0 && content[7] == 0
  }

  /** The client's reaction to the next message: its position after it and what it sends. */
  function ClientReact(t: Tls, sd: Bytes, pc: ClientPc, m: Envelope): (ClientPc, seq<Envelope>) {
    if m.encrypted && !pc.Up? then (Thrown, [])
    else match pc
      case AwaitVersion =>
        if VersionAccepted(m.content) then (AwaitTls(0), [Envelope(false, Ssl(t.client(0)))]) else (Thrown, [])
      case AwaitTls(k) =>
        if |m.content| <= 2 then (AwaitTls(k), [Envelope(false, Ssl([]))])
        else if TypeOf(m.content) != SSL_HANDSHAKE || m.content[2..] != t.server(k) then (Thrown, [])
        else if k + 1 == t.flights then (Up, [Envelope(false, AuthComplete())])
        else (AwaitTls(k + 1), [Envelope(false, Ssl(t.client(k + 1)))])
      case Up =>
        if |m.content| < 2 then (Thrown, [])
        else if TypeOf(m.content) == SERVICE_DISCOVERY_REQUEST then (Up, [Envelope(true, DiscoveryResponse(sd))])
        else if TypeOf(m.content) in FORWARDED then (Up, [])
        else (Thrown, [])
      case _ => (Thrown, [])
  }

  // ---------------------------------------------------------------- AAServer

  /** `read` counts the client flights taken. */
  datatype Server = Server(read: nat, descriptor: Option<Bytes>, thrown: bool)

  /**
   `handleMessageContent` on channel 0. `info` stands for a serialized content and `pong` for
   the answer's content, which depends on the ping's.
   */
  function ServerReact(t: Tls, info: Bytes, pong: Bytes -> Bytes, s: Server, m: Envelope): (Server, seq<Envelope>) {
    if (m.encrypted && s.read < t.flights) || |m.content| < 2 then (s.(thrown := true), [])
    else
      var rest := m.content[2..];
      var ty := TypeOf(m.content);
      if ty == AUDIO_FOCUS_RESPONSE || ty == NAVIGATION_FOCUS_RESPONSE then (s, [])
      else if ty == VERSION_REQUEST then
        if |rest| >= 4 && ToInt16(rest) == 1 then (s, [Envelope(false, VersionResponse(1, 5))]) else (s.(thrown := true), [])
      else if ty == SSL_HANDSHAKE then
        if s.read < t.flights && rest == t.client(s.read)
        then (s.(read := s.read + 1), [Envelope(false, Ssl(t.server(s.read)))])
        else (s.(thrown := true), [])
      else if ty == AUTH_COMPLETE then (s, [Envelope(true, DiscoveryRequest(info))])
      else if ty == SERVICE_DISCOVERY_RESPONSE then (s.(descriptor := Some(rest)), [])
      else if ty == PING_REQUEST then (s, [Envelope(true, Int16(PING_RESPONSE) + pong(rest))])
      else (s.(thrown := true), [])
  }

  /** The version that the client asks for is accepted by both sides exactly when its major number is 1. */
  lemma VersionNegotiation(t: Tls, info: Bytes, pong: Bytes -> Bytes, s: Server, major: nat, minor: nat)
    requires major < 0x1_0000
    ensures var (s', replies) := ServerReact(t, info, pong, s, Envelope(false, VersionRequest(major, minor)));
            && (major == 1 <==> s' == s && |replies| == 1 && VersionAccepted(replies[0].content))
            && (major != 1 ==> s'.thrown && replies == [])
  {
    var m := VersionRequest(major, minor);
    TypePrefix(VERSION_REQUEST, Int16(major) + Int16(minor));
    assert m == Int16(VERSION_REQUEST) + (Int16(major) + Int16(minor));
    assert m[2..][..2] == Int16(major);
    Int16RoundTrip(major);
    TypePrefix(VERSION_RESPONSE, Int16(1) + Int16(5) + Int16(0));
    assert VersionResponse(1, 5) == Int16(VERSION_RESPONSE) + (Int16(1) + Int16(5) + Int16(0));
  }

  // ---------------------------------------------------------------- pings

  /** AAServer on the messages that come in on channel 0, up to the first that it throws at: its state and what it sends. */
  function ServerRun(t: Tls, info: Bytes, pong: Bytes -> Bytes, s: Server, ms: seq<Envelope>): (Server, seq<Envelope>) {
    if ms == [] then (s, [])
    else
      var n := |ms| - 1;
      var (before, sent) := ServerRun(t, info, pong, s, ms[..n]);
      if before.thrown then (before, sent)
      else
        var (after, out) := ServerReact(t, info, pong, before, ms[n]);
        (after, sent + out)
  }

  predicate IsPing(m: Envelope) { |m.content| >= 2 && m.content[0] == 0 && m.content[1] == 0x0b }

  function Others(ms: seq<Envelope>): seq<Envelope> {
    if ms == [] then [] else Others(ms[..|ms| - 1]) + if IsPing(ms[|ms| - 1]) then [] else [ms[|ms| - 1]]
  }

  /** The answers that the pings ask for. */
  function Answers(pong: Bytes -> Bytes, ms: seq<Envelope>): seq<Envelope> {
    if ms == [] then []
    else
      var m := ms[|ms| - 1];
      Answers(pong, ms[..|ms| - 1]) + if IsPing(m) then [Envelope(true, [0, 0x0c] + pong(m.content[2..]))] else []
  }

  predicate IsAnswer(m: Envelope) { |m.content| >= 2 && m.content[0] == 0 && m.content[1] == 0x0c }

  /** The answers among what is sent, and the rest of it. */
  function Pick(ms: seq<Envelope>, answers: bool): seq<Envelope> {
    if ms == [] then [] else Pick(ms[..|ms| - 1], answers) + if IsAnswer(ms[|ms| - 1]) == answers then [ms[|ms| - 1]] else []
  }

  /** A ping is answered and does nothing else; nothing else is answered like one. */
  predicate PingOnly(t: Tls, pong: Bytes -> Bytes, m: Envelope, before: Server, after: Server, out: seq<Envelope>) {
    && after.read >= t.flights && |out| <= 1
    && (IsPing(m) ==> after == before && out == [Envelope(true, [0, 0x0c] + pong(m.content[2..]))])
    && (!IsPing(m) && out != [] ==> !IsAnswer(out[0]))
  }

  lemma ReactsToPings(t: Tls, info: Bytes, pong: Bytes -> Bytes, s: Server, m: Envelope)
    requires s.read >= t.flights
    ensures var (after, out) := ServerReact(t, info, pong, s, m);
            PingOnly(t, pong, m, s, after, out)
  {
  }

  lemma RunSnoc(t: Tls, info: Bytes, pong: Bytes -> Bytes, s: Server, ms: seq<Envelope>, m: Envelope)
    ensures var (before, sent) := ServerRun(t, info, pong, s, ms);
            ServerRun(t, info, pong, s, ms + [m]) ==
            if before.thrown then (before, sent)
            else
              var (after, out) := ServerReact(t, info, pong, before, m);
              (after, sent + out)
  {
    assert (ms + [m])[..|ms|] == ms;
  }

  /** A run on `ms` and one on its other messages: the same but for the answers. */
  predicate Aside(t: Tls, pong: Bytes -> Bytes, ms: seq<Envelope>, after: Server, sent: seq<Envelope>, others: seq<Envelope>) {
    && after.read >= t.flights && Pick(sent, false) == Pick(others, false) == others
    && (!after.thrown ==> Pick(sent, true) == Answers(pong, ms))
  }

  lemma AnswersSnoc(pong: Bytes -> Bytes, ms: seq<Envelope>, m: Envelope)
    ensures Answers(pong, ms + [m]) ==
            Answers(pong, ms) + if IsPing(m) then [Envelope(true, [0, 0x0c] + pong(m.content[2..]))] else []
  {
    assert (ms + [m])[..|ms|] == ms;
  }

  lemma PickSnoc(ms: seq<Envelope>, m: Envelope, answers: bool)
    ensures Pick(ms + [m], answers) == if IsAnswer(m) == answers then Pick(ms, answers) + [m] else Pick(ms, answers)
  {
    assert (ms + [m])[..|ms|] == ms;
  }

  lemma AsidePing(t: Tls, pong: Bytes -> Bytes, ms: seq<Envelope>, m: Envelope, s: Server, sent: seq<Envelope>,
                  others: seq<Envelope>, answer: Envelope)
    requires Aside(t, pong, ms, s, sent, others) && !s.thrown && PingOnly(t, pong, m, s, s, [answer]) && IsPing(m)
    ensures Aside(t, pong, ms + [m], s, sent + [answer], others)
  {
    AnswersSnoc(pong, ms, m);
    PickSnoc(sent, answer, true);
    PickSnoc(sent, answer, false);
  }

  lemma AsideOther(t: Tls, pong: Bytes -> Bytes, ms: seq<Envelope>, m: Envelope, before: Server, sent: seq<Envelope>,
                   others: seq<Envelope>, after: Server, out: seq<Envelope>)
    requires Aside(t, pong, ms, before, sent, others) && !before.thrown && PingOnly(t, pong, m, before, after, out) && !IsPing(m)
    ensures Aside(t, pong, ms + [m], after, sent + out, others + out)
  {
    AnswersSnoc(pong, ms, m);
    if out == [] {
      assert sent + out == sent && others + out == others;
    } else {
      assert out == [out[0]];
      PickSnoc(sent, out[0], true);
      PickSnoc(sent, out[0], false);
      PickSnoc(others, out[0], false);
    }
  }

  /**
   Pings may arrive anywhere once the handshake is complete: what AAServer does about the other messages
   is what it would do without them, and if it throws at none every ping is answered once, in order.
   */
  lemma {:induction false} PingsAside(t: Tls, info: Bytes, pong: Bytes -> Bytes, s: Server, ms: seq<Envelope>)
    requires s.read >= t.flights && !s.thrown
    ensures var (after, sent) := ServerRun(t, info, pong, s, ms);
            var (after', others) := ServerRun(t, info, pong, s, Others(ms));
            after == after' && Aside(t, pong, ms, after, sent, others)
  {
    if ms != [] {
      var front, m := ms[..|ms| - 1], ms[|ms| - 1];
      PingsAside(t, info, pong, s, front);
      assert front + [m] == ms;
      RunSnoc(t, info, pong, s, front, m);
      RunSnoc(t, info, pong, s, Others(front), m);
      var (before, sent) := ServerRun(t, info, pong, s, front);
      if !before.thrown {
        var (after, out) := ServerReact(t, info, pong, before, m);
        ReactsToPings(t, info, pong, before, m);
        var others := ServerRun(t, info, pong, s, Others(front)).1;
        if IsPing(m) {
          AsidePing(t, pong, front, m, before, sent, others, out[0]);
        } else {
          AsideOther(t, pong, front, m, before, sent, others, after, out);
        }
      }
      assert Others(ms) == if IsPing(m) then Others(front) else Others(front) + [m];
    }
  }

  // ---------------------------------------------------------------- the system

  /** The constant contents: descriptor, request info, ping answers. */
  datatype Contents = Contents(sd: Bytes, info: Bytes, pong: Bytes -> Bytes)

  datatype State = State(
    pc: ClientPc, server: Server, toServer: seq<Envelope>, toClient: seq<Envelope>, log: seq<Envelope>)

  datatype Action = Start | ToServer | ToClient

  const INIT: State := State(Begin, Server(0, None, false), [], [], [])

  predicate Enabled(st: State, a: Action) {
    match a
    case Start => st.pc.Begin?
    case ToServer => st.toServer != []
    case ToClient => st.toClient != []
  }

  function Step(t: Tls, c: Contents, st: State, a: Action): State {
    if !Enabled(st, a) then st
    else match a
      case Start =>
        var m := Envelope(false, VersionRequest(1, 1));
        st.(pc := AwaitVersion, toServer := st.toServer + [m], log := st.log + [m])
      case ToServer =>
        var (s, out) := ServerReact(t, c.info, c.pong, st.server, st.toServer[0]);
        st.(server := s, toServer := st.toServer[1..], toClient := st.toClient + out, log := st.log + out)
      case ToClient =>
        var (pc, out) := ClientReact(t, c.sd, st.pc, st.toClient[0]);
        st.(pc := pc, toClient := st.toClient[1..], toServer := st.toServer + out, log := st.log + out)
  }

  function Exec(t: Tls, c: Contents, run: seq<Action>): State {
    if run == [] then INIT else Step(t, c, Exec(t, c, run[..|run| - 1]), run[|run| - 1])
  }

  // ---------------------------------------------------------------- the script

  /** The i-th message of the bring-up; even ones are the client's. */
  function Script(t: Tls, c: Contents, i: nat): Envelope {
    if i == 0 then Envelope(false, VersionRequest(1, 1))
    else if i == 1 then Envelope(false, VersionResponse(1, 5))
    else if i < 2 + 2 * t.flights then Envelope(false, Ssl(if i % 2 == 0 then t.client(i / 2 - 1) else t.server(i / 2 - 1)))
    else if i == 2 + 2 * t.flights then Envelope(false, AuthComplete())
    else if i == 3 + 2 * t.flights then Envelope(true, DiscoveryRequest(c.info))
    else Envelope(true, DiscoveryResponse(c.sd))
  }

  function Length(t: Tls): nat { 5 + 2 * t.flights }

  function ScriptUpTo(t: Tls, c: Contents, i: nat): (s: seq<Envelope>)
    ensures |s| == i
  {
    seq(i, k requires 0 <= k < i => Script(t, c, k))
  }

  /** Where the client stands once `i` messages have been sent. */
  function PcAfter(t: Tls, i: nat): ClientPc {
    if i == 0 then Begin
    else if i <= 2 then AwaitVersion
    else if i <= 2 + 2 * t.flights then AwaitTls((i - 3) / 2)
    else Up
  }

  /** What the server has taken once `i` messages have been sent. */
  function ServerAfter(t: Tls, c: Contents, i: nat, last: bool): Server {
    Server(if i <= 3 then 0 else if i / 2 - 1 <= t.flights then i / 2 - 1 else t.flights, if last then Some(c.sd) else None, false)
  }

  /**
   The only reachable states: `i` messages have been sent and the last of them is in flight, or all
   have been sent and received.
   */
  function At(t: Tls, c: Contents, i: nat, last: bool): State {
    var flying := if i == 0 || last then [] else [Script(t, c, i - 1)];
    State(PcAfter(t, i), ServerAfter(t, c, i, last), if i % 2 == 1 then flying else [], if i % 2 == 0 then flying else [],
          ScriptUpTo(t, c, i))
  }

  /** The turn of whoever receives the message in flight. */
  function Turn(i: nat): Action { if i == 0 then Start else if i % 2 == 1 then ToServer else ToClient }

  lemma ServerTurn(t: Tls, c: Contents, i: nat)
    requires Proper(t) && i % 2 == 1 && i <= Length(t)
    ensures ServerReact(t, c.info, c.pong, ServerAfter(t, c, i, false), Script(t, c, i - 1))
         == (ServerAfter(t, c, i + 1, i == Length(t)), if i == Length(t) then [] else [Script(t, c, i)])
  {
    var m := Script(t, c, i - 1);
    if i == 1 {
      VersionNegotiation(t, c.info, c.pong, ServerAfter(t, c, i, false), 1, 1);
      TypePrefix(VERSION_REQUEST, Int16(1) + Int16(1));
      assert VersionRequest(1, 1) == Int16(VERSION_REQUEST) + (Int16(1) + Int16(1));
    } else if i <= 1 + 2 * t.flights {
      TypePrefix(SSL_HANDSHAKE, t.client((i - 1) / 2 - 1));
    } else if i == 3 + 2 * t.flights {
      TypePrefix(AUTH_COMPLETE, [8, 0]);
    } else {
      TypePrefix(SERVICE_DISCOVERY_RESPONSE, c.sd);
    }
  }

  lemma AcceptedResponse()
    ensures VersionAccepted(VersionResponse(1, 5))
  {
    TypePrefix(VERSION_RESPONSE, Int16(1) + Int16(5) + Int16(0));
    assert VersionResponse(1, 5) == Int16(VERSION_RESPONSE) + (Int16(1) + Int16(5) + Int16(0));
  }

  lemma ClientTurn(t: Tls, c: Contents, i: nat)
    requires Proper(t) && i % 2 == 0 && 0 < i < Length(t)
    ensures ClientReact(t, c.sd, PcAfter(t, i), Script(t, c, i - 1)) == (PcAfter(t, i + 1), [Script(t, c, i)])
  {
    if i == 2 {
      AcceptedResponse();
    } else if i <= 2 + 2 * t.flights {
      TypePrefix(SSL_HANDSHAKE, t.server((i - 1) / 2 - 1));
    } else {
      TypePrefix(SERVICE_DISCOVERY_REQUEST, c.info);
    }
  }

  /** In each of these states exactly one action is enabled ... */
  lemma OneEnabled(t: Tls, c: Contents, i: nat, a: Action)
    requires i <= Length(t)
    ensures Enabled(At(t, c, i, false), a) <==> a == Turn(i)
    ensures !Enabled(At(t, c, Length(t), true), a)
  {
  }

  lemma ScriptMore(t: Tls, c: Contents, i: nat)
    ensures ScriptUpTo(t, c, i + 1) == ScriptUpTo(t, c, i) + [Script(t, c, i)]
  {
  }

  lemma ServerMoves(t: Tls, c: Contents, i: nat)
    requires Proper(t) && i % 2 == 1 && i <= Length(t)
    ensures Step(t, c, At(t, c, i, false), ToServer) == if i < Length(t) then At(t, c, i + 1, false) else At(t, c, i, true)
  {
    ServerTurn(t, c, i);
    ScriptMore(t, c, i);
  }

  lemma ClientMoves(t: Tls, c: Contents, i: nat)
    requires Proper(t) && i % 2 == 0 && 0 < i < Length(t)
    ensures Step(t, c, At(t, c, i, false), ToClient) == At(t, c, i + 1, false)
  {
    ClientTurn(t, c, i);
    ScriptMore(t, c, i);
  }

  /** ... and it leads to the next. */
  lemma NextState(t: Tls, c: Contents, i: nat)
    requires Proper(t) && i <= Length(t)
    ensures Step(t, c, At(t, c, i, false), Turn(i)) == if i < Length(t) then At(t, c, i + 1, false) else At(t, c, i, true)
  {
    if i == 0 {
      ScriptMore(t, c, 0);
    } else if i % 2 == 1 {
      ServerMoves(t, c, i);
    } else {
      ClientMoves(t, c, i);
    }
  }

  /** How many actions of a run were enabled. */
  function Effective(t: Tls, c: Contents, run: seq<Action>): nat {
    if run == [] then 0
    else
      var front := run[..|run| - 1];
      Effective(t, c, front) + if Enabled(Exec(t, c, front), run[|run| - 1]) then 1 else 0
  }

  /** The state after `n` enabled actions. */
  function Where(t: Tls, c: Contents, n: nat): State {
    if n <= Length(t) then At(t, c, n, false) else At(t, c, Length(t), true)
  }

  lemma StepFrom(t: Tls, c: Contents, n: nat, a: Action)
    requires Proper(t) && n <= Length(t) + 1
    ensures Enabled(Where(t, c, n), a) ==> n <= Length(t)
    ensures Step(t, c, Where(t, c, n), a) == Where(t, c, if Enabled(Where(t, c, n), a) then n + 1 else n)
  {
    OneEnabled(t, c, Min(n, Length(t)), a);
    NextState(t, c, Min(n, Length(t)));
  }

  lemma {:induction false} FollowsScript(t: Tls, c: Contents, run: seq<Action>)
    requires Proper(t)
    ensures Effective(t, c, run) <= Length(t) + 1
    ensures Exec(t, c, run) == Where(t, c, Effective(t, c, run))
  {
    if run != [] {
      var front := run[..|run| - 1];
      FollowsScript(t, c, front);
      StepFrom(t, c, Effective(t, c, front), run[|run| - 1]);
    }
  }

  predicate Stopped(st: State) { !Enabled(st, Start) && !Enabled(st, ToServer) && !Enabled(st, ToClient) }

  /**
   The messages sent are the first ones of the script, neither side throws, only the last two are
   encrypted and so come after the client's handshake, and until all has been received exactly one
   action is enabled; then the server holds the client's descriptor.
   */
  ghost predicate ComingUp(t: Tls, c: Contents, st: State) {
    && |st.log| <= Length(t)
    && st.log == ScriptUpTo(t, c, |st.log|)
    && !st.pc.Thrown? && !st.server.thrown
    && (forall i :: 0 <= i < |st.log| && st.log[i].encrypted ==> i >= 3 + 2 * t.flights && st.pc.Up?)
    && (st.server.descriptor.Some? <==> Stopped(st))
    && (Stopped(st) ==> st.server.descriptor == Some(c.sd) && st.pc.Up? && |st.log| == Length(t))
    && (forall a, b :: Enabled(st, a) && Enabled(st, b) ==> a == b)
  }

  lemma AtComingUp(t: Tls, c: Contents, i: nat, last: bool)
    requires Proper(t) && i <= Length(t) && (last ==> i == Length(t))
    ensures ComingUp(t, c, At(t, c, i, last))
  {
    OneEnabled(t, c, i, Start);
    OneEnabled(t, c, i, ToServer);
    OneEnabled(t, c, i, ToClient);
  }

  /** Every run of the two programs brings the link up, as far as it has got. */
  lemma BringsUp(t: Tls, c: Contents, run: seq<Action>)
    requires Proper(t)
    ensures ComingUp(t, c, Exec(t, c, run))
  {
    FollowsScript(t, c, run);
    var n := Effective(t, c, run);
    AtComingUp(t, c, Min(n, Length(t)), n > Length(t));
  }

  // ---------------------------------------------------------------- the code

  /** The client on a sequence of incoming messages: where it ends up and what it sends. */
  function ClientRun(t: Tls, sd: Bytes, pc: ClientPc, ms: seq<Envelope>): (ClientPc, seq<Envelope>)
    decreases |ms|
  {
    if ms == [] || pc.Thrown? then (pc, [])
    else
      var (pc', out) := ClientReact(t, sd, pc, ms[0]);
      var (last, more) := ClientRun(t, sd, pc', ms[1..]);
      (last, out + more)
  }

  /** It takes the messages one by one, in order, until it throws. */
  lemma {:induction false} ClientRunSnoc(t: Tls, sd: Bytes, pc: ClientPc, ms: seq<Envelope>, m: Envelope)
    ensures ClientRun(t, sd, pc, []) == (pc, [])
    ensures var (before, sent) := ClientRun(t, sd, pc, ms);
            ClientRun(t, sd, pc, ms + [m]) ==
            if before.Thrown? then (before, sent)
            else
              var (after, out) := ClientReact(t, sd, before, m);
              (after, sent + out)
    decreases |ms|
  {
    if ms == [] {
      assert [] + [m] == [m] && [m][1..] == [];
      assert !pc.Thrown? ==> var out := ClientReact(t, sd, pc, m).1; out + [] == [] + out == out;
    } else if !pc.Thrown? {
      var (next, out) := ClientReact(t, sd, pc, ms[0]);
      ClientRunSnoc(t, sd, next, ms[1..], m);
      assert (ms + [m])[1..] == ms[1..] + [m];
      var (before, sent) := ClientRun(t, sd, next, ms[1..]);
      ConcatAssoc(out, sent, ClientReact(t, sd, before, m).1);
    }
  }

  /** From `pc`, with `ms` still to come and `sent` sent, the client ends up at the goal. */
  predicate Toward(t: Tls, sd: Bytes, pc: ClientPc, ms: seq<Envelope>, sent: seq<Envelope>, goal: (ClientPc, seq<Envelope>)) {
    var (last, out) := ClientRun(t, sd, pc, ms);
    last == goal.0 && sent + out == goal.1
  }

  lemma TowardStep(t: Tls, sd: Bytes, pc: ClientPc, ms: seq<Envelope>, sent: seq<Envelope>, goal: (ClientPc, seq<Envelope>))
    requires ms != [] && !pc.Thrown? && Toward(t, sd, pc, ms, sent, goal)
    ensures var (next, out) := ClientReact(t, sd, pc, ms[0]);
            Toward(t, sd, next, ms[1..], sent + out, goal)
  {
    var (next, out) := ClientReact(t, sd, pc, ms[0]);
    ConcatAssoc(sent, out, ClientRun(t, sd, next, ms[1..]).1);
  }

  /** A handshake message is its type and a flight. */
  lemma HandshakeBytes(content: Bytes)
    requires |content| >= 2
    ensures TypeOf(content) == SSL_HANDSHAKE <==> content == [0, 3] + content[2..]
  {
  }

  class ClientSetup {
    const tls: Tls
    const serviceDescription: Bytes
    var incoming: seq<Envelope>
    var sent: seq<Envelope>
    var connecting: bool
    var flightsRead: nat

    constructor (tls: Tls, sd: Bytes, incoming: seq<Envelope>)
      ensures this.tls == tls && serviceDescription == sd && this.incoming == incoming
      ensures sent == [] && !connecting && flightsRead == 0
    {
      this.tls, serviceDescription, this.incoming := tls, sd, incoming;
      sent, connecting, flightsRead := [], false, 0;
    }

    method SendMessage(encrypted: bool, buf: Bytes)
      modifies this`sent
      ensures sent == old(sent) + [Envelope(encrypted, buf)]
    {
      sent := sent + [Envelope(encrypted, buf)];
    }

    /** `doSslHandshake`: `Ok(true)` when the handshake is complete, `Err` for an exception. */
    method DoSslHandshake(msgContent: Bytes) returns (done: Result<bool>)
      requires connecting ==> flightsRead < tls.flights
      requires !connecting ==> msgContent == [] && flightsRead == 0 < tls.flights
      modifies this`sent, this`connecting, this`flightsRead
      ensures connecting
      ensures !old(connecting) ==> done == Ok(false) && flightsRead == 0 && sent == old(sent) + [Envelope(false, Ssl(tls.client(0)))]
      ensures old(connecting) ==>
                var (pc, out) := ClientReact(tls, serviceDescription, AwaitTls(old(flightsRead)), Envelope(false, msgContent));
                && (done.Err? <==> pc.Thrown?) && (done == Ok(true) <==> pc.Up?)
                && (done == Ok(false) ==> pc == AwaitTls(flightsRead) && flightsRead < tls.flights && sent == old(sent) + out)
                && (done == Ok(true) ==> sent == old(sent) && out == [Envelope(false, AuthComplete())])
                && (done.Err? ==> sent == old(sent) && out == [])
      ensures old(connecting) ==>
                var k := old(flightsRead);
                if |msgContent| <= 2 then done == Ok(false) && flightsRead == k && sent == old(sent) + [Envelope(false, [0, 3])]
                else if msgContent != [0, 3] + tls.server(k) then done.Err? && flightsRead == k && sent == old(sent)
                else
                  && flightsRead == k + 1 && done == Ok(k + 1 == tls.flights)
                  && sent == old(sent) + if k + 1 == tls.flights then [] else [Envelope(false, [0, 3] + tls.client(k + 1))]
    {
      if |msgContent| > 2 {
        HandshakeBytes(msgContent);
      }
      var flight := if connecting then [] else tls.client(0);
      connecting := true;
      if |msgContent| > 2 {
        if ToInt16(msgContent) != SSL_HANDSHAKE {
          return Err("Expected SSL handshake message");
        }
        if msgContent[2..] != tls.server(flightsRead) {
          return Err("SSL_connect failed");
        }
        flightsRead := flightsRead + 1;
        if flightsRead == tls.flights {
          return Ok(true);
        }
        flight := tls.client(flightsRead);
      }
      assert flight == [] ==> Int16(SSL_HANDSHAKE) + flight == [0, 3];
      SendMessage(false, Int16(SSL_HANDSHAKE) + flight);
      done := Ok(false);
    }

    /** `expectVersionResponse`, and the first call of `doSslHandshake` if it does not throw. */
    method ExpectVersionResponse(msg: Envelope) returns (ok: bool)
      requires !connecting && flightsRead == 0 < tls.flights
      modifies this`sent, this`connecting, this`flightsRead
      ensures var (pc, out) := ClientReact(tls, serviceDescription, AwaitVersion, msg);
              && pc == (if ok then AwaitTls(0) else Thrown) && sent == old(sent) + out
              && (ok ==> connecting && flightsRead == 0)
      ensures ok <==> !msg.encrypted && |msg.content| == 8 && msg.content[..2] == [0, 2] && msg.content[6..] == [0, 0]
      ensures sent == old(sent) + if ok then [Envelope(false, [0, 3] + tls.client(0))] else []
    {
      var content := msg.content;
      if msg.encrypted || |content| != 8 || ToInt16(content) != VERSION_RESPONSE || content[6] != 0 || content[7] != 0 {
        assert sent + [] == sent;
        return false;
      }
      var done := DoSslHandshake([]);
      ok := true;
    }

    /** One turn of the main loop; messages on other channels are not part of the bring-up. */
    method HandleMessage(msg: Envelope) returns (ok: bool)
      modifies this`sent
      ensures var (pc, out) := ClientReact(tls, serviceDescription, Up, msg);
              pc == (if ok then Up else Thrown) && sent == old(sent) + out
      ensures ok <==> |msg.content| >= 2 && msg.content[0] == 0 && msg.content[1] in {0x05, 0x0d, 0x11, 0x12}
      ensures sent == old(sent) + if ok && msg.content[1] == 5 then [Envelope(true, [0, 6] + serviceDescription)] else []
    {
      assert sent + [] == sent;
      if |msg.content| < 2 {
        return false;
      }
      var msgType := ToInt16(msg.content);
      if msgType == SERVICE_DISCOVERY_REQUEST {
        var message := Int16(SERVICE_DISCOVERY_RESPONSE);
        message := message + serviceDescription;
        SendMessage(true, message);
        return true;
      }
      ok := msgType in FORWARDED;
    }

    /** One turn of the handshake loop, and what follows it once the handshake is complete. */
    method Handshake(msg: Envelope) returns (pc: ClientPc)
      requires connecting && flightsRead < tls.flights
      modifies this`sent, this`connecting, this`flightsRead
      ensures var (next, out) := ClientReact(tls, serviceDescription, AwaitTls(old(flightsRead)), msg);
              && pc == next && sent == old(sent) + out
              && (pc.AwaitTls? ==> connecting && flightsRead == pc.read < tls.flights)
      ensures var k := old(flightsRead);
              if msg.encrypted || (|msg.content| > 2 && msg.content != [0, 3] + tls.server(k)) then pc.Thrown? && sent == old(sent)
              else if |msg.content| <= 2 then pc == AwaitTls(k) && sent == old(sent) + [Envelope(false, [0, 3])]
              else if k + 1 == tls.flights then pc.Up? && sent == old(sent) + [Envelope(false, [0, 4, 8, 0])]
              else pc == AwaitTls(k + 1) && sent == old(sent) + [Envelope(false, [0, 3] + tls.client(k + 1))]
    {
      if msg.encrypted {
        assert sent + [] == sent;
        return Thrown;
      }
      var done := DoSslHandshake(msg.content);
      if done.Err? {
        assert sent + [] == sent;
        return Thrown;
      }
      if !done.value {
        return AwaitTls(flightsRead);
      }
      SendMessage(false, Int16(AUTH_COMPLETE) + [8, 0]);
      pc := Up;
    }

    /** `setup` on the messages that come in: it reacts to each as `ClientReact` does. */
    method Setup() returns (pc: ClientPc)
      requires !connecting && flightsRead == 0 < tls.flights && sent == []
      modifies this
      ensures var (last, out) := ClientRun(tls, serviceDescription, AwaitVersion, old(incoming));
              pc == last && sent == [Envelope(false, VersionRequest(1, 1))] + out
    {
      ghost var goal := ClientRun(tls, serviceDescription, AwaitVersion, incoming);
      ghost var first := [Envelope(false, VersionRequest(1, 1))];
      SendMessage(false, Int16(VERSION_REQUEST) + Int16(1) + Int16(1));
      pc := AwaitVersion;
      while incoming != [] && !pc.Thrown?
        invariant pc.AwaitVersion? || pc.AwaitTls? || pc.Up? || pc.Thrown?
        invariant pc.AwaitVersion? ==> !connecting && flightsRead == 0 < tls.flights
        invariant pc.AwaitTls? ==> connecting && flightsRead == pc.read < tls.flights
        invariant Toward(tls, serviceDescription, pc, incoming, sent, (goal.0, first + goal.1))
        decreases |incoming|
      {
        var msg := incoming[0];
        incoming := incoming[1..];
        TowardStep(tls, serviceDescription, pc, [msg] + incoming, sent, (goal.0, first + goal.1));
        match pc {
          case AwaitVersion =>
            var ok := ExpectVersionResponse(msg);
            pc := if ok then AwaitTls(0) else Thrown;
          case AwaitTls(_) =>
            pc := Handshake(msg);
          case Up =>
            var ok := HandleMessage(msg);
            pc := if ok then Up else Thrown;
        }
      }
    }
  }

  class ServerControl {
    const tls: Tls
    const info: Bytes
    var flightsRead: nat
    var serviceDescriptor: Option<Bytes>
    var sent: seq<Envelope>

    constructor (tls: Tls, info: Bytes)
      ensures this.tls == tls && this.info == info && flightsRead == 0 && serviceDescriptor == None && sent == []
    {
      this.tls, this.info, flightsRead, serviceDescriptor, sent := tls, info, 0, None, [];
    }

    ghost function Abs(): Server
      reads this
    {
      Server(flightsRead, serviceDescriptor, false)
    }

    method SendMessage(encrypted: bool, buf: Bytes)
      modifies this`sent
      ensures sent == old(sent) + [Envelope(encrypted, buf)]
    {
      sent := sent + [Envelope(encrypted, buf)];
    }

    method HandleVersionRequest(buf: Bytes) returns (ok: bool)
      modifies this`sent
      ensures ok <==> |buf| >= 4 && ToInt16(buf) == 1
      ensures sent == old(sent) + if ok then [Envelope(false, VersionResponse(1, 5))] else []
    {
      ok := |buf| >= 4 && ToInt16(buf) == 1;
      if ok {
        SendMessage(false, Int16(VERSION_RESPONSE) + Int16(1) + Int16(5) + Int16(0));
      }
    }

    method HandleSslHandshake(buf: Bytes) returns (ok: bool)
      modifies this`sent, this`flightsRead
      ensures ok <==> old(flightsRead) < tls.flights && buf == tls.client(old(flightsRead))
      ensures flightsRead == old(flightsRead) + if ok then 1 else 0
      ensures sent == old(sent) + if ok then [Envelope(false, Ssl(tls.server(old(flightsRead))))] else []
    {
      ok := flightsRead < tls.flights && buf == tls.client(flightsRead);
      if ok {
        flightsRead := flightsRead + 1;
        SendMessage(false, Int16(SSL_HANDSHAKE) + tls.server(flightsRead - 1));
      }
    }

    /** A message that has a type, and can be decrypted if it is encrypted. */
    predicate Readable(m: Envelope, read: nat) { |m.content| >= 2 && (m.encrypted ==> read >= tls.flights) }

    /**
     What each type of message does, on its bytes: only a version request, a handshake message, the
     completed authentication and a ping are answered, the first two in plain; only a handshake message counts
     as one, and only a discovery response brings a descriptor. The focus responses do nothing here. Any
     other type is an exception, as are another version and a handshake message out of turn.
     */
    ghost predicate Dispatched(m: Envelope, pong: Bytes -> Bytes, read: nat, descriptor: Option<Bytes>, before: seq<Envelope>,
                               ok: bool)
      requires |m.content| >= 2
      reads this
    {
      var t, rest := m.content[0] as int * 0x100 + m.content[1] as int, m.content[2..];
      && (ok <==> match t
                  case 0x01 => |rest| >= 4 && rest[0] == 0 && rest[1] == 1
                  case 0x03 => read < tls.flights && rest == tls.client(read)
                  case _ => t in {0x04, 0x06, 0x0b, 0x0e, 0x13})
      && flightsRead == read + (if ok && t == 0x03 then 1 else 0)
      && serviceDescriptor == (if t == 0x06 then Some(rest) else descriptor)
      && sent == before + if !ok then []
                          else match t
                               case 0x01 => [Envelope(false, [0, 0x02, 0, 1, 0, 5, 0, 0])]
                               case 0x03 => [Envelope(false, [0, 0x03] + tls.server(read))]
                               case 0x04 => [Envelope(true, [0, 0x05] + info)]
                               case 0x0b => [Envelope(true, [0, 0x0c] + pong(rest))]
                               case _ => []
    }

    /** `handleMessageContent` on channel 0, decryption included; `ok` is false for an exception. */
    method HandleMessageContent(m: Envelope, pong: Bytes -> Bytes) returns (ok: bool)
      modifies this
      ensures var (s, out) := ServerReact(tls, info, pong, old(Abs()), m);
              s == Abs().(thrown := !ok) && sent == old(sent) + out
      ensures !Readable(m, old(flightsRead)) ==>
                !ok && flightsRead == old(flightsRead) && serviceDescriptor == old(serviceDescriptor) && sent == old(sent)
      ensures Readable(m, old(flightsRead)) ==> Dispatched(m, pong, old(flightsRead), old(serviceDescriptor), old(sent), ok)
    {
      assert sent + [] == sent;
      assert VersionResponse(1, 5) == [0, 0x02, 0, 1, 0, 5, 0, 0];
      if (m.encrypted && flightsRead < tls.flights) || |m.content| < 2 {
        return false;
      }
      var messageType, rest := ToInt16(m.content), m.content[2..];
      ok := true;
      if messageType == AUDIO_FOCUS_RESPONSE || messageType == NAVIGATION_FOCUS_RESPONSE {
        return;
      } else if messageType == VERSION_REQUEST {
        ok := HandleVersionRequest(rest);
      } else if messageType == SSL_HANDSHAKE {
        ok := HandleSslHandshake(rest);
      } else if messageType == AUTH_COMPLETE {
        SendMessage(true, Int16(SERVICE_DISCOVERY_REQUEST) + info);
      } else if messageType == SERVICE_DISCOVERY_RESPONSE {
        serviceDescriptor := Some(rest);
      } else if messageType == PING_REQUEST {
        SendMessage(true, Int16(PING_RESPONSE) + pong(rest));
      } else {
        ok := false;
      }
    }
  }
}
