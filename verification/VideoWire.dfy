/**
 The video protocol on the bytes that travel: the same steps with the handlers of both programs
 applied to byte messages, and what the client's pipeline receives in the end.
 */
module VideoWire {
  import opened Utils
  import opened Messages
  import opened VideoHandlers
  import opened VideoLink
  import opened Timestamps

  function ToClientBytes(p: Payloads, m: ToClient): (b: Bytes)
    ensures |b| >= 2
  {
    match m
    case OpenReq => OpenRequest(p)
    case SetupReq => SetupRequest()
    case StartInd => StartIndication()
    case Media(s) => MediaMessage(s)
  }

  function ToServerBytes(p: Payloads, m: ToServer): (b: Bytes)
    ensures |b| >= 2
  {
    match m
    case OpenResp => OpenResponse()
    case SetupResp => SetupResponse(p)
    case Focus => VideoFocus()
    case MediaAck => Ack()
  }

  function AllToClient(p: Payloads, q: seq<ToClient>): (bs: seq<Bytes>)
    ensures |bs| == |q|
  {
    if q == [] then [] else AllToClient(p, q[..|q| - 1]) + [ToClientBytes(p, q[|q| - 1])]
  }

  function AllToServer(p: Payloads, q: seq<ToServer>): (bs: seq<Bytes>)
    ensures |bs| == |q|
  {
    if q == [] then [] else AllToServer(p, q[..|q| - 1]) + [ToServerBytes(p, q[|q| - 1])]
  }

  lemma {:induction false} HeadToClient(p: Payloads, q: seq<ToClient>)
    requires q != []
    ensures AllToClient(p, q)[0] == ToClientBytes(p, q[0]) && AllToClient(p, q)[1..] == AllToClient(p, q[1..])
  {
    var n := |q| - 1;
    if n > 0 {
      HeadToClient(p, q[..n]);
      assert q[..n][1..] == q[1..][..n - 1];
    }
  }

  lemma {:induction false} HeadToServer(p: Payloads, q: seq<ToServer>)
    requires q != []
    ensures AllToServer(p, q)[0] == ToServerBytes(p, q[0]) && AllToServer(p, q)[1..] == AllToServer(p, q[1..])
  {
    var n := |q| - 1;
    if n > 0 {
      HeadToServer(p, q[..n]);
      assert q[..n][1..] == q[1..][..n - 1];
    }
  }

  lemma SnocToClient(p: Payloads, q: seq<ToClient>, m: ToClient)
    ensures AllToClient(p, q + [m]) == AllToClient(p, q) + [ToClientBytes(p, m)]
  {
    assert (q + [m])[..|q|] == q;
  }

  lemma SnocToServer(p: Payloads, q: seq<ToServer>, m: ToServer)
    ensures AllToServer(p, q + [m]) == AllToServer(p, q) + [ToServerBytes(p, m)]
  {
    assert (q + [m])[..|q|] == q;
  }

  // ---------------------------------------------------------------- the system on bytes

  datatype Wire = Wire(
    firstSample: bool, pc: Pc, flags: ServerFlags, player: Player, toClient: seq<Bytes>, toServer: seq<Bytes>,
    passedOn: seq<Bytes>, unhandled: bool)

  function WireInit(firstSample: bool, gotOpen: bool, gotSetup: bool): Wire {
    Wire(firstSample, Ready, ServerFlags(false, gotOpen, gotSetup), NEW_PLAYER, [], [], [], false)
  }

  predicate WireEnabled(w: Wire, a: Action) {
    match a
    case NewSample(s) => w.pc.Ready? && ValidSample(s)
    case MediaThread => CanRun(w.pc, w.flags)
    case DeliverToClient => w.toClient != [] && |w.toClient[0]| >= 2 && !w.player.down
    case DeliverToServer => w.toServer != [] && |w.toServer[0]| >= 2
    case OtherSent => true
  }

  function WireMediaStep(p: Payloads, w: Wire): Wire
    requires CanRun(w.pc, w.flags)
  {
    match w.pc
    case Opening(s) => w.(pc := OpenReset(s), flags := w.flags.(gotOpen := false))
    case OpenReset(s) => w.(pc := OpenWait(s), toClient := w.toClient + [OpenRequest(p)])
    case OpenWait(s) => w.(pc := OpenDone(s))
    case OpenDone(s) => w.(pc := SetupReset(s), flags := w.flags.(gotSetup := false))
    case SetupReset(s) => w.(pc := SetupWait(s), toClient := w.toClient + [SetupRequest()])
    case SetupWait(s) => w.(pc := Sending(s))
    case Sending(s) => w.(pc := Ready, firstSample := false, toClient := w.toClient + [MediaMessage(s)])
  }

  function WireClientStep(p: Payloads, w: Wire): Wire
    requires w.toClient != [] && |w.toClient[0]| >= 2
  {
    var r := ClientHandle(p, w.player.client, w.toClient[0]);
    w.(player := Player(r.client, w.player.pushed + r.pushed, r.handled.Err?),
       toClient := w.toClient[1..], toServer := w.toServer + r.replies, unhandled := w.unhandled || r.handled == Ok(false))
  }

  function WireServerStep(w: Wire): Wire
    requires w.toServer != [] && |w.toServer[0]| >= 2
  {
    var r := ServerHandle(w.flags, w.toServer[0]);
    w.(flags := r.flags, toServer := w.toServer[1..], toClient := w.toClient + r.replies,
       passedOn := w.passedOn + r.forwarded, unhandled := w.unhandled || !r.handled)
  }

  function WireStep(p: Payloads, w: Wire, a: Action): Wire {
    if !WireEnabled(w, a) then w
    else match a
      case NewSample(s) =>
        if w.firstSample then w.(pc := Opening(s), flags := w.flags.(channelOpened := true)) else w.(pc := Sending(s))
      case MediaThread => WireMediaStep(p, w)
      case DeliverToClient => WireClientStep(p, w)
      case DeliverToServer => WireServerStep(w)
      case OtherSent => w.(firstSample := false)
  }

  function WireExec(p: Payloads, w: Wire, run: seq<Action>): Wire {
    if run == [] then w else WireStep(p, WireExec(p, w, run[..|run| - 1]), run[|run| - 1])
  }

  /** The bytes of a protocol state in which nothing has gone unhandled. */
  function Lift(p: Payloads, st: State): Wire {
    Wire(st.firstSample, st.pc, st.flags, st.player, AllToClient(p, st.toClient), AllToServer(p, st.toServer),
         AllToServer(p, st.forwarded), false)
  }

  // ---------------------------------------------------------------- the handlers realise the protocol

  /** The client's answer to the bytes of a message is the bytes of the protocol's answer. */
  lemma ClientRealises(p: Payloads, player: Player, m: ToClient)
    requires (m.Media? ==> ValidSample(m.s)) && !player.down
    ensures var r := ClientHandle(p, player.client, ToClientBytes(p, m));
            var after := Player(r.client, player.pushed + r.pushed, r.handled.Err?);
            && r.handled != Ok(false)
            && match m {
              case OpenReq => r.replies == [ToServerBytes(p, OpenResp)] && after == player
              case SetupReq => r.replies == [ToServerBytes(p, SetupResp), ToServerBytes(p, Focus)] && after == player
              case StartInd => r.replies == [] && after == player
              case Media(s) => after == PlayOne(player, s)
                               && r.replies == if after.down then [] else [ToServerBytes(p, MediaAck)]
            }
  {
    assert player.pushed + [] == player.pushed;
    if m.Media? {
      MediaRoundTrip(p, player.client, m.s);
    }
  }

  /** The server's reaction to the bytes of a message is the protocol's. */
  lemma ServerRealises(p: Payloads, f: ServerFlags, m: ToServer)
    ensures ServerHandle(f, ToServerBytes(p, m)) ==
            if !f.channelOpened then ServerResult(f, [], [ToServerBytes(p, m)], true)
            else match m {
              case OpenResp => ServerResult(f.(gotOpen := true), [], [], true)
              case SetupResp => ServerResult(f.(gotSetup := true), [], [], true)
              case Focus => ServerResult(f, [ToClientBytes(p, StartInd)], [], true)
              case MediaAck => ServerResult(f, [], [], true)
            }
  {
  }

  lemma MediaStepSimulated(p: Payloads, st: State)
    requires Enabled(st, MediaThread)
    ensures WireMediaStep(p, Lift(p, st)) == Lift(p, MediaStep(st))
  {
    SnocToClient(p, st.toClient, OpenReq);
    SnocToClient(p, st.toClient, SetupReq);
    if st.pc.Sending? {
      SnocToClient(p, st.toClient, Media(st.pc.s));
    }
  }

  /** The replies of the protocol, as bytes at the end of the link. */
  lemma RepliesToServer(p: Payloads, q: seq<ToServer>)
    ensures AllToServer(p, q + [OpenResp]) == AllToServer(p, q) + [ToServerBytes(p, OpenResp)]
    ensures AllToServer(p, q + [MediaAck]) == AllToServer(p, q) + [ToServerBytes(p, MediaAck)]
    ensures AllToServer(p, q + [SetupResp, Focus]) == AllToServer(p, q) + [ToServerBytes(p, SetupResp), ToServerBytes(p, Focus)]
  {
    SnocToServer(p, q, OpenResp);
    SnocToServer(p, q, MediaAck);
    SnocToServer(p, q, SetupResp);
    SnocToServer(p, q + [SetupResp], Focus);
    ConcatAssoc(q, [SetupResp], [Focus]);
    ConcatAssoc(AllToServer(p, q), [ToServerBytes(p, SetupResp)], [ToServerBytes(p, Focus)]);
    assert [SetupResp] + [Focus] == [SetupResp, Focus];
    assert [ToServerBytes(p, SetupResp)] + [ToServerBytes(p, Focus)] == [ToServerBytes(p, SetupResp), ToServerBytes(p, Focus)];
  }

  lemma ClientStepSimulated(p: Payloads, st: State)
    requires Enabled(st, DeliverToClient) && (st.toClient[0].Media? ==> ValidSample(st.toClient[0].s))
    ensures |Lift(p, st).toClient[0]| >= 2 && WireClientStep(p, Lift(p, st)) == Lift(p, ClientStep(st))
  {
    var w := Lift(p, st);
    HeadToClient(p, st.toClient);
    RepliesToServer(p, st.toServer);
    ClientRealises(p, st.player, st.toClient[0]);
    assert w.toServer + [] == w.toServer;
  }

  lemma ServerStepSimulated(p: Payloads, st: State)
    requires Enabled(st, DeliverToServer)
    ensures |Lift(p, st).toServer[0]| >= 2 && WireServerStep(Lift(p, st)) == Lift(p, ServerStep(st))
  {
    var w := Lift(p, st);
    HeadToServer(p, st.toServer);
    ServerRealises(p, st.flags, st.toServer[0]);
    if !st.flags.channelOpened {
      SnocToServer(p, st.forwarded, st.toServer[0]);
      assert w.toClient + [] == w.toClient;
    } else if st.toServer[0].Focus? {
      SnocToClient(p, st.toClient, StartInd);
      assert w.passedOn + [] == w.passedOn;
    } else {
      assert w.toClient + [] == w.toClient && w.passedOn + [] == w.passedOn;
    }
  }

  lemma EnabledAlike(p: Payloads, st: State, a: Action)
    ensures WireEnabled(Lift(p, st), a) <==> Enabled(st, a)
  {
    if st.toClient != [] {
      HeadToClient(p, st.toClient);
    }
    if st.toServer != [] {
      HeadToServer(p, st.toServer);
    }
  }

  lemma StepSimulated(p: Payloads, st: State, a: Action)
    requires Flight(st)
    ensures WireStep(p, Lift(p, st), a) == Lift(p, Step(st, a))
  {
    EnabledAlike(p, st, a);
    if Enabled(st, a) {
      match a {
        case NewSample(_) =>
        case MediaThread => MediaStepSimulated(p, st);
        case DeliverToClient => ClientStepSimulated(p, st);
        case DeliverToServer => ServerStepSimulated(p, st);
        case OtherSent =>
      }
    }
  }

  lemma {:induction false} RunSimulated(p: Payloads, st: State, run: seq<Action>)
    requires Inv(st)
    ensures WireExec(p, Lift(p, st), run) == Lift(p, Exec(st, run))
  {
    if run != [] {
      var front := run[..|run| - 1];
      RunSimulated(p, st, front);
      Reachable(st, front);
      StepSimulated(p, Exec(st, front), run[|run| - 1]);
    }
  }

  // ---------------------------------------------------------------- what the client plays

  /** The presentation times of the samples that have one. */
  function PtsOf(ss: seq<Sample>): seq<nat> {
    if ss == [] then []
    else
      var s := ss[|ss| - 1];
      PtsOf(ss[..|ss| - 1]) + if s.pts == NO_PTS then [] else [s.pts]
  }

  lemma {:induction false} PtsPrefix(ss: seq<Sample>, i: nat)
    requires i < |ss|
    ensures PtsOf(ss[..i]) <= PtsOf(ss)
    ensures ss[i].pts != NO_PTS ==> |PtsOf(ss[..i])| < |PtsOf(ss)| && PtsOf(ss)[|PtsOf(ss[..i])|] == ss[i].pts
  {
    var n := |ss| - 1;
    if i < n {
      PtsPrefix(ss[..n], i);
      assert ss[..n][..i] == ss[..i];
    }
  }

  /** How many samples have no time; each starts a new pipeline. */
  function Untimed(ss: seq<Sample>): nat {
    if ss == [] then 0 else Untimed(ss[..|ss| - 1]) + if ss[|ss| - 1].pts == NO_PTS then 1 else 0
  }

  lemma {:induction false} UntimedPositive(ss: seq<Sample>, i: nat)
    requires i < |ss| && ss[i].pts == NO_PTS
    ensures Untimed(ss) >= 1
  {
    if i < |ss| - 1 {
      UntimedPositive(ss[..|ss| - 1], i);
    }
  }

  /** The first sample must not have a time: the handler would use a source that it does not have. */
  predicate Starts(ss: seq<Sample>) { ss != [] ==> ss[0].pts == NO_PTS }

  /** The client fails exactly when the first sample has a time; otherwise it keeps up. */
  lemma {:induction false} PlayExactly(ss: seq<Sample>)
    ensures var p := Play(ss);
            if Starts(ss) then
              !p.down && |p.pushed| == |ss| && p.client == Client(StartAfter(ToMicros(PtsOf(ss))), Untimed(ss))
            else p.down && p.pushed == []
  {
    if ss != [] {
      var n := |ss| - 1;
      var front, s := ss[..n], ss[n];
      PlayExactly(front);
      if n > 0 && Starts(ss) {
        assert front[0] == ss[0];
        UntimedPositive(front, 0);
      }
      if s.pts != NO_PTS {
        var ts := ToMicros(PtsOf(front));
        assert ToMicros(PtsOf(ss)) == ts + [s.pts / 1000];
        assert (ts + [s.pts / 1000])[..|ts|] == ts;
      } else {
        assert PtsOf(ss) == PtsOf(front);
      }
    }
  }

  lemma {:induction false} PlayPrefix(ss: seq<Sample>, i: nat)
    requires i <= |ss|
    ensures Play(ss[..i]).pushed <= Play(ss).pushed
  {
    if i < |ss| {
      PlayPrefix(ss[..|ss| - 1], i);
      assert ss[..|ss| - 1][..i] == ss[..i];
    } else {
      assert ss[..i] == ss;
    }
  }

  lemma PlayAt(ss: seq<Sample>, i: nat)
    requires i < |ss| && Starts(ss)
    ensures |Play(ss).pushed| == |ss|
    ensures var p := Play(ss[..i]);
            !p.down && |p.pushed| == i && PlayOne(p, ss[i]).pushed == p.pushed + [Play(ss).pushed[i]]
  {
    PlayExactly(ss);
    PlayExactly(ss[..i]);
    PlayExactly(ss[..i + 1]);
    PlayPrefix(ss, i + 1);
    assert ss[..i + 1][..i] == ss[..i];
  }

  /**
   The client's pipelines hold the data of the samples, timed by the timestamp pipeline, each in the
   pipeline that the last untimed sample so far has started.
   */
  lemma PlayMeaning(ss: seq<Sample>, i: nat)
    requires i < |ss| && Starts(ss)
    ensures |Play(ss).pushed| == |ss|
    ensures var b := Play(ss).pushed[i];
            && b.data == ss[i].data
            && b.pipe == Untimed(ss[..i + 1]) - 1
            && (ss[i].pts == NO_PTS ==> b.ts == None)
            && (ss[i].pts != NO_PTS ==>
                  var k := |PtsOf(ss[..i])|;
                  && k < |PtsOf(ss)| && PtsOf(ss)[k] == ss[i].pts
                  && OutAt(ToMicros(PtsOf(ss)), k) >= 0
                  && b.ts == TimeOf(OutAt(ToMicros(PtsOf(ss)), k)))
  {
    PlayExactly(ss[..i]);
    PlayAt(ss, i);
    PtsPrefix(ss, i);
    assert ss[..i + 1][..i] == ss[..i];
    if ss[i].pts != NO_PTS {
      var k := |PtsOf(ss[..i])|;
      assert ToMicros(PtsOf(ss))[..k] == ToMicros(PtsOf(ss[..i]));
    }
  }

  // ---------------------------------------------------------------- one pipeline

  predicate OnePipeline(bs: seq<Buffer>) { forall i :: 0 <= i < |bs| ==> bs[i].pipe == bs[0].pipe }

  /** Only the first sample has no time. */
  predicate OneStream(ss: seq<Sample>) {
    Starts(ss) && forall i :: 0 < i < |ss| ==> ss[i].pts != NO_PTS
  }

  lemma {:induction false} UntimedOne(ss: seq<Sample>)
    requires OneStream(ss) && ss != []
    ensures Untimed(ss) == 1
  {
    if |ss| > 1 {
      UntimedOne(ss[..|ss| - 1]);
    }
  }

  /** Everything is pushed, and into one pipeline, exactly when the first sample and no other is untimed. */
  lemma PlayedWhole(ss: seq<Sample>)
    ensures !Play(ss).down && OnePipeline(Play(ss).pushed) <==> OneStream(ss)
  {
    PlayExactly(ss);
    if OneStream(ss) {
      forall i | 0 <= i < |ss| ensures Play(ss).pushed[i].pipe == 0 {
        PlayMeaning(ss, i);
        UntimedOne(ss[..i + 1]);
      }
    } else if Starts(ss) {
      var i :| 0 < i < |ss| && ss[i].pts == NO_PTS;
      PlayMeaning(ss, i);
      PlayMeaning(ss, 0);
      UntimedOne(ss[..1]);
      assert ss[..i + 1][..i] == ss[..i];
      UntimedPositive(ss[..i], 0);
    }
  }

  /** What a state on bytes and the protocol state it stands for have in common. */
  predicate Agree(p: Payloads, w: Wire, st: State) {
    && !w.unhandled && w.passedOn == AllToServer(p, st.forwarded) && PassedOn(st.took, st.forwarded, st.acksGot)
    && w.toClient == AllToClient(p, st.toClient) && w.toServer == AllToServer(p, st.toServer)
    && st.handled <= |st.samples|
    && w.player == Play(st.samples[..st.handled])
    && Medias(st.toClient) == st.samples[st.handled..]
    && |w.player.pushed| == Acks(st.toServer) + st.acksGot + |st.forwarded|
  }

  lemma LiftAgrees(p: Payloads, st: State)
    requires Inv(st)
    ensures Agree(p, Lift(p, st), st)
  {
  }

  /**
   Over every run on bytes, whatever other handlers do: nothing has been reported as unhandled, only
   acknowledgements on an unopened channel have been passed on to a socket client, the client has
   played the first samples sent, in order, and the bytes in flight are those of the protocol, with
   the other samples among them.
   */
  lemma VideoDelivered(p: Payloads, firstSample: bool, gotOpen: bool, gotSetup: bool, run: seq<Action>)
    ensures Agree(p, WireExec(p, WireInit(firstSample, gotOpen, gotSetup), run), Exec(Init(firstSample, gotOpen, gotSetup), run))
  {
    var st := Init(firstSample, gotOpen, gotSetup);
    InitInv(firstSample, gotOpen, gotSetup);
    assert WireInit(firstSample, gotOpen, gotSetup) == Lift(p, st);
    RunSimulated(p, st, run);
    Reachable(st, run);
    LiftAgrees(p, Exec(st, run));
  }

  /** No delivery can be made. */
  predicate AtRest(w: Wire) { !WireEnabled(w, DeliverToClient) && !WireEnabled(w, DeliverToServer) }

  /** Every sample sent has been pushed, all into one pipeline, and acknowledged. */
  predicate WellPlayed(w: Wire, st: State) {
    |w.player.pushed| == |st.samples| == st.acksGot && OnePipeline(w.player.pushed)
  }

  lemma AtRestMeans(p: Payloads, w: Wire, st: State)
    requires Agree(p, w, st) && AtRest(w)
    ensures st.toServer == [] && (w.player.down || st.toClient == [])
    ensures |w.player.pushed| == st.acksGot + |st.forwarded| && (w.player.down || st.handled == |st.samples|)
  {
    if st.toClient != [] {
      HeadToClient(p, st.toClient);
    }
    if st.toServer != [] {
      HeadToServer(p, st.toServer);
    }
  }

  /** A client that has failed has pushed nothing. */
  lemma SettledPlay(ss: seq<Sample>, n: nat)
    requires n <= |ss| && (Play(ss[..n]).down || n == |ss|)
    ensures var p := Play(ss[..n]);
            |p.pushed| == |ss| && OnePipeline(p.pushed) <==> OneStream(ss)
  {
    PlayExactly(ss[..n]);
    if n == |ss| {
      assert ss[..n] == ss;
      PlayedWhole(ss);
    }
  }

  /**
   On every run on bytes: the client has played what it has handled without failing and into one
   pipeline if and only if the first sample, and no later one, has no time; and so, when no delivery
   is left, every sample sent has been played in one pipeline and acknowledged to the handler if and
   only if that holds of the samples sent and the channel was opened for the first.
   */
  lemma DeliveredExactly(p: Payloads, firstSample: bool, gotOpen: bool, gotSetup: bool, run: seq<Action>)
    ensures var w := WireExec(p, WireInit(firstSample, gotOpen, gotSetup), run);
            var st := Exec(Init(firstSample, gotOpen, gotSetup), run);
            && st.handled <= |st.samples|
            && (!w.player.down && OnePipeline(w.player.pushed) <==> OneStream(st.samples[..st.handled]))
            && (AtRest(w) ==> (WellPlayed(w, st) <==> OneStream(st.samples) && (st.samples == [] || st.took.Set?)))
  {
    var w := WireExec(p, WireInit(firstSample, gotOpen, gotSetup), run);
    var st := Exec(Init(firstSample, gotOpen, gotSetup), run);
    VideoDelivered(p, firstSample, gotOpen, gotSetup, run);
    OrderingExactly(firstSample, gotOpen, gotSetup, run);
    PlayedWhole(st.samples[..st.handled]);
    if AtRest(w) {
      AtRestMeans(p, w, st);
      SettledPlay(st.samples, st.handled);
    }
  }

  // ---------------------------------------------------------------- times

  lemma {:induction false} PtsValid(ss: seq<Sample>)
    requires forall s :: s in ss ==> ValidSample(s)
    ensures Micros(ToMicros(PtsOf(ss)))
  {
    if ss != [] {
      var n := |ss| - 1;
      assert ss[n] in ss;
      PtsValid(ss[..n]);
      var ts := ToMicros(PtsOf(ss[..n]));
      if ss[n].pts != NO_PTS {
        assert ToMicros(PtsOf(ss)) == ts + [ss[n].pts / 1000];
        assert ss[n].pts / 1000 * 1000 <= ss[n].pts;
      } else {
        assert PtsOf(ss) == PtsOf(ss[..n]);
      }
    }
  }

  /**
   A buffer has a time if and only if its sample has one that is not exactly 100 ms before the first
   (the first not at 100000 us, that is): local time zero is never set.
   */
  lemma TimedExactly(ss: seq<Sample>, i: nat)
    requires i < |ss| && Starts(ss) && forall s :: s in ss ==> ValidSample(s)
    ensures |Play(ss).pushed| == |ss|
    ensures var ts, k := ToMicros(PtsOf(ss)), |PtsOf(ss[..i])|;
            Play(ss).pushed[i].ts.Some? <==>
            ss[i].pts != NO_PTS && !(exists b: nat :: IsBase(ts, b) && b <= k && ss[i].pts / 1000 + HEADSTART == ts[b])
  {
    PlayMeaning(ss, i);
    if ss[i].pts != NO_PTS {
      PtsValid(ss);
      ZeroExactly(ToMicros(PtsOf(ss)), |PtsOf(ss[..i])|);
    }
  }

  /**
   Unless the first time is 100000 us or a time wraps around, the buffers that have a time keep the
   order of the presentation times, and their differences to within a microsecond.
   */
  lemma PlayTiming(ss: seq<Sample>, i: nat, j: nat)
    requires i < |ss| && j < |ss| && Starts(ss)
    requires InRange(PtsOf(ss)) && (PtsOf(ss) != [] ==> PtsOf(ss)[0] / 1000 != HEADSTART)
    ensures |Play(ss).pushed| == |ss|
    ensures var b, c := Play(ss).pushed[i], Play(ss).pushed[j];
            b.ts.Some? && c.ts.Some? ==>
              && (ss[i].pts <= ss[j].pts ==> b.ts.value <= c.ts.value)
              && -1000 < (c.ts.value as int - b.ts.value) - (ss[j].pts as int - ss[i].pts) < 1000
  {
    PlayMeaning(ss, i);
    PlayMeaning(ss, j);
    if ss[i].pts != NO_PTS && ss[j].pts != NO_PTS {
      Fidelity(PtsOf(ss), |PtsOf(ss[..i])|, |PtsOf(ss[..j])|);
    }
  }

  lemma OneMoreSample(ss: seq<Sample>, s: Sample)
    ensures PtsOf(ss + [s]) == PtsOf(ss) + if s.pts == NO_PTS then [] else [s.pts]
    ensures Play(ss + [s]) == if Play(ss).down then Play(ss) else PlayOne(Play(ss), s)
  {
    assert (ss + [s])[..|ss|] == ss;
  }

  /** Three samples with times in range, of which the last has lost its time. */
  lemma TimeLost() returns (ss: seq<Sample>)
    ensures Starts(ss) && InRange(PtsOf(ss)) && PtsOf(ss) == [1_000_000_000, 900_000_000]
    ensures |Play(ss).pushed| == 3 && Play(ss).pushed[1].ts.Some? && Play(ss).pushed[2].ts == None
  {
    var a, b, c := Sample(NO_PTS, []), Sample(1_000_000_000, []), Sample(900_000_000, []);
    OneMoreSample([], a);
    OneMoreSample([a], b);
    OneMoreSample([a] + [b], c);
    ss := [a] + [b] + [c];
    assert [] + [a] == [a];
  }
}
