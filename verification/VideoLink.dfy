/**
 The two-party video protocol: AAServer's media thread and its handler on one side, AAClient's
 handler on the other, joined by two FIFO links of unbounded length. Every step of the media
 thread between two waits, and every delivery, is one atomic step; any interleaving is a run.
 Messages are named here; module VideoWire runs the same protocol on their bytes.
 */
module VideoLink {
  import opened Utils
  import opened VideoHandlers

  datatype ToClient = OpenReq | SetupReq | StartInd | Media(s: Sample)
  datatype ToServer = OpenResp | SetupResp | Focus | MediaAck

  /** Where the media thread stands inside `new_sample`; the sample is the one being delivered. */
  datatype Pc =
    | Ready
    | Opening(s: Sample)     // channelOpened has been set
    | OpenReset(s: Sample)   // gotChannelOpenResponse = false
    | OpenWait(s: Sample)    // request sent
    | OpenDone(s: Sample)
    | SetupReset(s: Sample)  // gotSetupResponse = false
    | SetupWait(s: Sample)   // request sent
    | Sending(s: Sample)

  datatype Event = SentOpen | GotOpen | SentSetup | GotSetup | SentMedia

  /** Whether a handler found `firstSample` set when it took its first sample. */
  datatype First = NotYet | Set | Clear

  datatype State = State(
    firstSample: bool, pc: Pc, flags: ServerFlags, player: Player,
    toClient: seq<ToClient>, toServer: seq<ToServer>,
    // history
    took: First, log: seq<Event>, samples: seq<Sample>, handled: nat, acksSent: nat, acksGot: nat,
    forwarded: seq<ToServer>)

  /** The client's handler, what it has pushed, and whether it has failed. */
  datatype Player = Player(client: Client, pushed: seq<Buffer>, down: bool)

  const NEW_PLAYER: Player := Player(FRESH, [], false)

  /**
   `firstSample` is a static variable of the program: all its video handlers share it, and each clears
   it when it has sent a sample. `took` records what it was when this handler took its first sample.
   The two response flags start out arbitrary.
   */
  function Init(firstSample: bool, gotOpen: bool, gotSetup: bool): State {
    State(firstSample, Ready, ServerFlags(false, gotOpen, gotSetup), NEW_PLAYER, [], [], NotYet, [], [], 0, 0, 0, [])
  }

  datatype Action =
    | NewSample(s: Sample) | MediaThread | DeliverToClient | DeliverToServer
    | OtherSent             // another handler has sent a sample

  /** A wait ends only when its flag is set. */
  predicate CanRun(pc: Pc, f: ServerFlags) {
    match pc
    case Ready => false
    case OpenWait(_) => f.gotOpen
    case SetupWait(_) => f.gotSetup
    case _ => true
  }

  predicate Enabled(st: State, a: Action) {
    match a
    case NewSample(s) => st.pc.Ready? && ValidSample(s)
    case MediaThread => CanRun(st.pc, st.flags)
    case DeliverToClient => st.toClient != [] && !st.player.down
    case DeliverToServer => st.toServer != []
    case OtherSent => true
  }

  function MediaStep(st: State): State
    requires Enabled(st, MediaThread)
  {
    match st.pc
    case Opening(s) => st.(pc := OpenReset(s), flags := st.flags.(gotOpen := false))
    case OpenReset(s) => st.(pc := OpenWait(s), toClient := st.toClient + [OpenReq], log := st.log + [SentOpen])
    case OpenWait(s) => st.(pc := OpenDone(s))
    case OpenDone(s) => st.(pc := SetupReset(s), flags := st.flags.(gotSetup := false))
    case SetupReset(s) => st.(pc := SetupWait(s), toClient := st.toClient + [SetupReq], log := st.log + [SentSetup])
    case SetupWait(s) => st.(pc := Sending(s))
    case Sending(s) => st.(pc := Ready, firstSample := false, toClient := st.toClient + [Media(s)],
                           log := st.log + [SentMedia], samples := st.samples + [s])
  }

  /** A sample at the client: an untimed one starts a new pipeline, a timed one needs one. */
  function PlayOne(p: Player, s: Sample): Player {
    var c := p.client;
    if s.pts == NO_PTS then Player(c.(pipes := c.pipes + 1), p.pushed + [Buffer(c.pipes, None, s.data)], p.down)
    else
      var (start, time) := Rebase(c.start, s.pts / 1000);
      if c.pipes == 0 then Player(c.(start := start), p.pushed, true)
      else Player(c.(start := start), p.pushed + [Buffer(c.pipes - 1, TimeOf(time), s.data)], p.down)
  }

  function ClientStep(st: State): State
    requires Enabled(st, DeliverToClient)
  {
    var rest := st.toClient[1..];
    match st.toClient[0]
    case OpenReq => st.(toClient := rest, toServer := st.toServer + [OpenResp])
    case SetupReq => st.(toClient := rest, toServer := st.toServer + [SetupResp, Focus])
    case StartInd => st.(toClient := rest)
    case Media(s) =>
      var player := PlayOne(st.player, s);
      if player.down then st.(player := player, toClient := rest, handled := st.handled + 1)
      else st.(player := player, toClient := rest, toServer := st.toServer + [MediaAck], handled := st.handled + 1,
               acksSent := st.acksSent + 1)
  }

  /** Before the channel is opened every message is passed on to the socket clients instead. */
  function ServerStep(st: State): State
    requires Enabled(st, DeliverToServer)
  {
    var rest := st.toServer[1..];
    if !st.flags.channelOpened then st.(toServer := rest, forwarded := st.forwarded + [st.toServer[0]])
    else match st.toServer[0]
      case OpenResp => st.(flags := st.flags.(gotOpen := true), toServer := rest, log := st.log + [GotOpen])
      case SetupResp => st.(flags := st.flags.(gotSetup := true), toServer := rest, log := st.log + [GotSetup])
      case Focus => st.(toServer := rest, toClient := st.toClient + [StartInd])
      case MediaAck => st.(toServer := rest, acksGot := st.acksGot + 1)
  }

  /** The flag is looked at when a sample comes. */
  function SampleStep(st: State, s: Sample): State {
    var took := if st.took.NotYet? then (if st.firstSample then Set else Clear) else st.took;
    if st.firstSample then st.(pc := Opening(s), flags := st.flags.(channelOpened := true), took := took)
    else st.(pc := Sending(s), took := took)
  }

  function Step(st: State, a: Action): State {
    if !Enabled(st, a) then st
    else match a
      case NewSample(s) => SampleStep(st, s)
      case MediaThread => MediaStep(st)
      case DeliverToClient => ClientStep(st)
      case DeliverToServer => ServerStep(st)
      case OtherSent => st.(firstSample := false)
  }

  function Exec(st: State, run: seq<Action>): State {
    if run == [] then st else Step(Exec(st, run[..|run| - 1]), run[|run| - 1])
  }

  // ---------------------------------------------------------------- what is in flight

  function Medias(q: seq<ToClient>): seq<Sample> {
    if q == [] then [] else (if q[0].Media? then [q[0].s] else []) + Medias(q[1..])
  }

  lemma {:induction false} MediasSnoc(q: seq<ToClient>, m: ToClient)
    ensures Medias(q + [m]) == Medias(q) + if m.Media? then [m.s] else []
  {
    if q != [] {
      MediasSnoc(q[1..], m);
      assert (q + [m])[1..] == q[1..] + [m];
    }
  }

  function Acks(q: seq<ToServer>): nat {
    if q == [] then 0 else (if q[0].MediaAck? then 1 else 0) + Acks(q[1..])
  }

  lemma {:induction false} AcksAppend(a: seq<ToServer>, b: seq<ToServer>)
    ensures Acks(a + b) == Acks(a) + Acks(b)
  {
    if a == [] {
      assert a + b == b;
    } else {
      AcksAppend(a[1..], b);
      assert (a + b)[1..] == a[1..] + b;
    }
  }

  /** The client after a sequence of samples; once it has failed it takes no more. */
  function Play(ss: seq<Sample>): Player {
    if ss == [] then NEW_PLAYER
    else
      var p := Play(ss[..|ss| - 1]);
      if p.down then p else PlayOne(p, ss[|ss| - 1])
  }

  // ---------------------------------------------------------------- order of events

  predicate Expected(n: nat, e: Event) {
    (n == 0 && e == SentOpen) || (n == 1 && e == GotOpen) || (n == 2 && e == SentSetup) || (n == 3 && e == GotSetup)
  }

  /** How far open request, open response, setup request, setup response have occurred in this order. */
  function Stage(log: seq<Event>): (n: nat)
    ensures n <= 4
  {
    if log == [] then 0
    else
      var n := Stage(log[..|log| - 1]);
      if Expected(n, log[|log| - 1]) then n + 1 else n
  }

  /** Every media message was sent after all four. */
  predicate MediaOrdered(log: seq<Event>) {
    log != [] ==>
      var front := log[..|log| - 1];
      MediaOrdered(front) && (log[|log| - 1] == SentMedia ==> Stage(front) == 4)
  }

  lemma {:induction false} MediaOrderedMeaning(log: seq<Event>)
    ensures MediaOrdered(log) <==> forall i :: 0 <= i < |log| && log[i] == SentMedia ==> Stage(log[..i]) == 4
  {
    if log != [] {
      var front := log[..|log| - 1];
      MediaOrderedMeaning(front);
      forall i | 0 <= i < |front| ensures front[..i] == log[..i] {
      }
    }
  }

  lemma LogMore(log: seq<Event>, e: Event)
    ensures MediaOrdered(log + [e]) <==> MediaOrdered(log) && (e == SentMedia ==> Stage(log) == 4)
    ensures Stage(log + [e]) == if Expected(Stage(log), e) then Stage(log) + 1 else Stage(log)
  {
    assert (log + [e])[..|log|] == log;
  }

  // ---------------------------------------------------------------- the invariant

  /**
   What the links can hold: nothing (the log having reached a stage), one handshake, or media; or
   media on a channel that has never been opened.
   */
  datatype Phase = Calm(stage: nat) | AwaitOpen | AwaitSetup | Flow | Unopened

  function PhaseOf(took: First, pc: Pc, f: ServerFlags): Phase {
    if took.NotYet? then Calm(0)
    else if took.Clear? then Unopened
    else match pc
      case Ready => Flow
      case Opening(_) => Calm(0)
      case OpenReset(_) => Calm(0)
      case OpenWait(_) => if f.gotOpen then Calm(2) else AwaitOpen
      case OpenDone(_) => Calm(2)
      case SetupReset(_) => Calm(2)
      case SetupWait(_) => if f.gotSetup then Flow else AwaitSetup
      case Sending(_) => Flow
  }

  predicate Links(phase: Phase, toClient: seq<ToClient>, toServer: seq<ToServer>, stage: nat) {
    match phase
    case Calm(n) => toClient == [] && toServer == [] && stage == n
    case AwaitOpen => stage == 1 && ((toClient == [OpenReq] && toServer == []) || (toClient == [] && toServer == [OpenResp]))
    case AwaitSetup => stage == 3 && ((toClient == [SetupReq] && toServer == []) || (toClient == [] && toServer == [SetupResp, Focus]))
    case Flow =>
      && stage == 4
      && (forall i :: 0 <= i < |toClient| ==> toClient[i].StartInd? || (toClient[i].Media? && ValidSample(toClient[i].s)))
      && (forall i :: 0 <= i < |toServer| ==> toServer[i].Focus? || toServer[i].MediaAck?)
    case Unopened =>
      && stage == 0
      && (forall i :: 0 <= i < |toClient| ==> toClient[i].Media? && ValidSample(toClient[i].s))
      && (forall i :: 0 <= i < |toServer| ==> toServer[i].MediaAck?)
  }

  predicate InOpening(pc: Pc) { !pc.Ready? && !pc.Sending? }

  /** What the media thread's position says about the variables of the handler. */
  predicate Local(took: First, pc: Pc, f: ServerFlags) {
    && (f.channelOpened <==> took.Set?)
    && (!pc.Ready? ==> ValidSample(pc.s) && !took.NotYet?)
    && (InOpening(pc) ==> took.Set?)
    && (pc.OpenReset? ==> !f.gotOpen)
    && (pc.SetupReset? ==> !f.gotSetup)
  }

  /** A cleared flag is never set again, and a handler that finds it set takes its first sample. */
  predicate FlagOk(firstSample: bool, took: First, pc: Pc, samples: seq<Sample>) {
    && (pc.Ready? && !took.NotYet? ==> !firstSample)
    && (took.Clear? ==> !firstSample)
    && (took.NotYet? || InOpening(pc) ==> samples == [])
  }

  /** Only acknowledgements of media on an unopened channel are passed on to socket clients. */
  predicate PassedOn(took: First, forwarded: seq<ToServer>, acksGot: nat) {
    && (!took.Clear? ==> forwarded == [])
    && (took.Clear? ==> acksGot == 0)
    && (forall i :: 0 <= i < |forwarded| ==> forwarded[i].MediaAck?)
  }

  predicate Flight(st: State) {
    && Local(st.took, st.pc, st.flags)
    && FlagOk(st.firstSample, st.took, st.pc, st.samples)
    && Links(PhaseOf(st.took, st.pc, st.flags), st.toClient, st.toServer, Stage(st.log))
    && (MediaOrdered(st.log) <==> st.samples == [] || st.took.Set?)
    && (st.took.NotYet? ==> st.acksGot == 0)
    && PassedOn(st.took, st.forwarded, st.acksGot)
  }

  /** Every media message sent is handled or in flight, in order and unchanged ... */
  predicate MediaConserved(samples: seq<Sample>, handled: nat, toClient: seq<ToClient>, player: Player) {
    && handled <= |samples|
    && Medias(toClient) == samples[handled..]
    && player == Play(samples[..handled])
  }

  /** ... and every ack answers one that was pushed; only the one that the client failed at has none. */
  predicate AcksConserved(handled: nat, player: Player, toServer: seq<ToServer>, acksSent: nat, acksGot: nat,
                          forwarded: seq<ToServer>) {
    && acksSent == |player.pushed| == Acks(toServer) + acksGot + |forwarded|
    && handled == acksSent + if player.down then 1 else 0
  }

  predicate Conserved(st: State) {
    && MediaConserved(st.samples, st.handled, st.toClient, st.player)
    && AcksConserved(st.handled, st.player, st.toServer, st.acksSent, st.acksGot, st.forwarded)
  }

  predicate Inv(st: State) { Flight(st) && Conserved(st) }

  lemma InitInv(firstSample: bool, gotOpen: bool, gotSetup: bool)
    ensures Inv(Init(firstSample, gotOpen, gotSetup))
  {
  }

  // ---------------------------------------------------------------- every step keeps it

  lemma NewSampleFlight(st: State, s: Sample)
    requires Flight(st) && Enabled(st, NewSample(s))
    ensures Flight(Step(st, NewSample(s)))
  {
  }

  lemma LinksSend(toClient: seq<ToClient>, toServer: seq<ToServer>, stage: nat, s: Sample)
    requires ValidSample(s)
    ensures Links(Calm(0), toClient, toServer, stage) ==> Links(AwaitOpen, toClient + [OpenReq], toServer, 1)
    ensures Links(Calm(2), toClient, toServer, stage) ==> Links(AwaitSetup, toClient + [SetupReq], toServer, 3)
    ensures Links(Flow, toClient, toServer, stage) ==> Links(Flow, toClient + [Media(s)], toServer, 4)
    ensures Links(Unopened, toClient, toServer, stage) ==> Links(Unopened, toClient + [Media(s)], toServer, 0)
  {
  }

  lemma SendOpenFlight(st: State)
    requires Flight(st) && st.pc.OpenReset?
    ensures Flight(MediaStep(st))
  {
    LinksSend(st.toClient, st.toServer, Stage(st.log), st.pc.s);
    LogMore(st.log, SentOpen);
  }

  lemma SendSetupFlight(st: State)
    requires Flight(st) && st.pc.SetupReset?
    ensures Flight(MediaStep(st))
  {
    LinksSend(st.toClient, st.toServer, Stage(st.log), st.pc.s);
    LogMore(st.log, SentSetup);
  }

  lemma SendMediaFlight(st: State)
    requires Flight(st) && st.pc.Sending?
    ensures Flight(MediaStep(st))
  {
    LinksSend(st.toClient, st.toServer, Stage(st.log), st.pc.s);
    LogMore(st.log, SentMedia);
    assert |st.samples + [st.pc.s]| > 0;
  }

  lemma OwnStepFlight(st: State)
    requires Flight(st) && Enabled(st, MediaThread)
    requires !st.pc.OpenReset? && !st.pc.SetupReset? && !st.pc.Sending?
    ensures Flight(MediaStep(st))
  {
  }

  lemma MediaStepFlight(st: State)
    requires Flight(st) && Enabled(st, MediaThread)
    ensures Flight(MediaStep(st))
  {
    match st.pc {
      case OpenReset(_) => SendOpenFlight(st);
      case SetupReset(_) => SendSetupFlight(st);
      case Sending(_) => SendMediaFlight(st);
      case _ => OwnStepFlight(st);
    }
  }

  /** What a delivery to the client does to the links, in each phase. */
  lemma ClientTakes(phase: Phase, toClient: seq<ToClient>, toServer: seq<ToServer>, stage: nat)
    requires Links(phase, toClient, toServer, stage) && toClient != []
    ensures match toClient[0]
            case OpenReq => Links(phase, toClient[1..], toServer + [OpenResp], stage)
            case SetupReq => Links(phase, toClient[1..], toServer + [SetupResp, Focus], stage)
            case StartInd => Links(phase, toClient[1..], toServer, stage)
            case Media(_) => Links(phase, toClient[1..], toServer, stage) && Links(phase, toClient[1..], toServer + [MediaAck], stage)
  {
  }

  lemma ClientStepFlight(st: State)
    requires Flight(st) && Enabled(st, DeliverToClient)
    ensures Flight(ClientStep(st))
  {
    ClientTakes(PhaseOf(st.took, st.pc, st.flags), st.toClient, st.toServer, Stage(st.log));
  }

  /** An unopened channel carries acknowledgements only, an opened one what its phase allows. */
  lemma ServerTakes(took: First, pc: Pc, f: ServerFlags, toClient: seq<ToClient>, toServer: seq<ToServer>, stage: nat)
    requires Local(took, pc, f) && Links(PhaseOf(took, pc, f), toClient, toServer, stage) && toServer != []
    ensures !f.channelOpened ==> took.Clear? && toServer[0].MediaAck?
    ensures f.channelOpened ==>
              match toServer[0]
              case OpenResp => stage == 1 && Links(PhaseOf(took, pc, f.(gotOpen := true)), toClient, toServer[1..], 2)
              case SetupResp => stage == 3 && Links(PhaseOf(took, pc, f.(gotSetup := true)), toClient, toServer[1..], 4)
              case Focus => Links(PhaseOf(took, pc, f), toClient + [StartInd], toServer[1..], stage)
              case MediaAck => true
    ensures toServer[0].MediaAck? ==> Links(PhaseOf(took, pc, f), toClient, toServer[1..], stage)
  {
  }

  lemma ServerStepFlight(st: State)
    requires Flight(st) && Enabled(st, DeliverToServer)
    ensures Flight(ServerStep(st)) && (st.flags.channelOpened || st.toServer[0].MediaAck?)
  {
    ServerTakes(st.took, st.pc, st.flags, st.toClient, st.toServer, Stage(st.log));
    LogMore(st.log, GotOpen);
    LogMore(st.log, GotSetup);
  }

  lemma SendConserved(samples: seq<Sample>, handled: nat, toClient: seq<ToClient>, player: Player, m: ToClient)
    requires MediaConserved(samples, handled, toClient, player)
    ensures MediaConserved(if m.Media? then samples + [m.s] else samples, handled, toClient + [m], player)
  {
    MediasSnoc(toClient, m);
    if m.Media? {
      SnocSlices(samples, m.s, handled);
    }
  }

  lemma MediaStepConserved(st: State)
    requires Conserved(st) && Enabled(st, MediaThread)
    ensures Conserved(MediaStep(st))
  {
    match st.pc {
      case OpenReset(_) => SendConserved(st.samples, st.handled, st.toClient, st.player, OpenReq);
      case SetupReset(_) => SendConserved(st.samples, st.handled, st.toClient, st.player, SetupReq);
      case Sending(s) => SendConserved(st.samples, st.handled, st.toClient, st.player, Media(s));
      case _ =>
    }
  }

  lemma HandleConserved(samples: seq<Sample>, n: nat, toClient: seq<ToClient>, player: Player)
    requires MediaConserved(samples, n, toClient, player) && toClient != [] && toClient[0].Media? && !player.down
    ensures MediaConserved(samples, n + 1, toClient[1..], PlayOne(player, toClient[0].s))
  {
    var s := toClient[0].s;
    assert samples[n..] == [s] + Medias(toClient[1..]);
    assert samples[n] == samples[n..][0] == s;
    DropDrop(samples, n, 1);
    ConsTail(s, Medias(toClient[1..]));
    assert samples[..n + 1][..n] == samples[..n];
  }

  lemma ClientPlaysConserved(st: State)
    requires Conserved(st) && Enabled(st, DeliverToClient) && st.toClient[0].Media?
    ensures Conserved(ClientStep(st))
  {
    HandleConserved(st.samples, st.handled, st.toClient, st.player);
    AcksAppend(st.toServer, [MediaAck]);
  }

  lemma ClientAnswersConserved(st: State)
    requires Conserved(st) && Enabled(st, DeliverToClient) && !st.toClient[0].Media?
    ensures Conserved(ClientStep(st))
  {
    AcksAppend(st.toServer, [OpenResp]);
    AcksAppend(st.toServer, [SetupResp, Focus]);
    assert [SetupResp, Focus][1..] == [Focus];
  }

  lemma ServerStepConserved(st: State)
    requires Conserved(st) && Enabled(st, DeliverToServer) && (st.flags.channelOpened || st.toServer[0].MediaAck?)
    ensures Conserved(ServerStep(st))
  {
    if st.toServer[0].Focus? {
      SendConserved(st.samples, st.handled, st.toClient, st.player, StartInd);
    }
  }

  lemma StepKeepsInv(st: State, a: Action)
    requires Inv(st)
    ensures Inv(Step(st, a))
  {
    if Enabled(st, a) {
      match a {
        case NewSample(s) => NewSampleFlight(st, s);
        case MediaThread => MediaStepFlight(st); MediaStepConserved(st);
        case DeliverToClient =>
          ClientStepFlight(st);
          if st.toClient[0].Media? { ClientPlaysConserved(st); } else { ClientAnswersConserved(st); }
        case DeliverToServer => ServerStepFlight(st); ServerStepConserved(st);
        case OtherSent =>
      }
    }
  }

  lemma {:induction false} Reachable(st: State, run: seq<Action>)
    requires Inv(st)
    ensures Inv(Exec(st, run))
  {
    if run != [] {
      Reachable(st, run[..|run| - 1]);
      StepKeepsInv(Exec(st, run[..|run| - 1]), run[|run| - 1]);
    }
  }

  lemma Safe(firstSample: bool, gotOpen: bool, gotSetup: bool, run: seq<Action>)
    ensures Inv(Exec(Init(firstSample, gotOpen, gotSetup), run))
  {
    InitInv(firstSample, gotOpen, gotSetup);
    Reachable(Init(firstSample, gotOpen, gotSetup), run);
  }

  /**
   On every run, whatever the other handlers of the program send and when: no media message of this
   handler precedes open request, open response, setup request and setup response in that order, if
   and only if the static `firstSample` was true when the handler took its first sample, or it has
   not sent any.
   */
  lemma OrderingExactly(firstSample: bool, gotOpen: bool, gotSetup: bool, run: seq<Action>)
    ensures var st := Exec(Init(firstSample, gotOpen, gotSetup), run);
            && (MediaOrdered(st.log) <==> st.samples == [] || st.took.Set?)
            && (st.took.Set? <==> st.flags.channelOpened)
            && (st.samples != [] ==> !st.took.NotYet?)
  {
    Safe(firstSample, gotOpen, gotSetup, run);
  }

  /** Neither is the channel opened nor, from here on, an open request sent. */
  predicate Closed(st: State) { !st.flags.channelOpened && !st.firstSample && !InOpening(st.pc) && SentOpen !in st.log }

  lemma StaysClosed(st: State, a: Action)
    requires Closed(st)
    ensures Closed(Step(st, a))
  {
  }

  lemma {:induction false} KeepsClosed(st: State, run: seq<Action>)
    requires Closed(st)
    ensures Closed(Exec(st, run))
  {
    if run != [] {
      KeepsClosed(st, run[..|run| - 1]);
      StaysClosed(Exec(st, run[..|run| - 1]), run[|run| - 1]);
    }
  }

  /** Before it takes a sample a handler has done nothing. */
  predicate Untouched(st: State) { st.took.NotYet? ==> st.pc.Ready? && st.log == [] && st.toClient == [] && st.toServer == [] }

  lemma StaysUntouched(st: State, a: Action)
    requires Untouched(st) && (!st.pc.Ready? ==> !st.took.NotYet?)
    ensures Untouched(Step(st, a)) && (!Step(st, a).pc.Ready? ==> !Step(st, a).took.NotYet?)
  {
  }

  lemma {:induction false} NothingSent(st: State, run: seq<Action>)
    requires Untouched(st) && (!st.pc.Ready? ==> !st.took.NotYet?)
    ensures var t := Exec(st, run); Untouched(t) && (!t.pc.Ready? ==> !t.took.NotYet?)
  {
    if run != [] {
      NothingSent(st, run[..|run| - 1]);
      StaysUntouched(Exec(st, run[..|run| - 1]), run[|run| - 1]);
    }
  }

  /**
   A handler that has not taken a sample when another one clears the flag never opens its channel:
   after any run it has sent no open request, and what it has sent is out of order.
   */
  lemma NeverOpens(firstSample: bool, gotOpen: bool, gotSetup: bool, before: seq<Action>, run: seq<Action>)
    ensures var st := Exec(Init(firstSample, gotOpen, gotSetup), before);
            var t := Exec(st, run);
            !st.firstSample && st.took.NotYet? ==>
              !t.flags.channelOpened && SentOpen !in t.log && (t.samples != [] ==> !MediaOrdered(t.log))
  {
    var st := Exec(Init(firstSample, gotOpen, gotSetup), before);
    Safe(firstSample, gotOpen, gotSetup, before);
    NothingSent(Init(firstSample, gotOpen, gotSetup), before);
    if !st.firstSample && st.took.NotYet? {
      KeepsClosed(st, run);
      Reachable(st, run);
    }
  }

  // ---------------------------------------------------------------- progress

  predicate Delivery(a: Action) { a.DeliverToClient? || a.DeliverToServer? }

  /** Waiting for a response that has not come. */
  predicate Waiting(st: State) {
    (st.pc.OpenWait? && !st.flags.gotOpen) || (st.pc.SetupWait? && !st.flags.gotSetup)
  }

  /** How many deliveries a message will cause, its own included. */
  function ClientWeight(m: ToClient): nat {
    match m
    case OpenReq => 2
    case SetupReq => 4
    case StartInd => 1
    case Media(_) => 2
  }

  function ServerWeight(m: ToServer): nat { if m.Focus? then 2 else 1 }

  function ClientLoad(q: seq<ToClient>): nat {
    if q == [] then 0 else ClientWeight(q[0]) + ClientLoad(q[1..])
  }

  function ServerLoad(q: seq<ToServer>): nat {
    if q == [] then 0 else ServerWeight(q[0]) + ServerLoad(q[1..])
  }

  function Work(st: State): nat { ClientLoad(st.toClient) + ServerLoad(st.toServer) }

  lemma {:induction false} ClientLoadSnoc(q: seq<ToClient>, m: ToClient)
    ensures ClientLoad(q + [m]) == ClientLoad(q) + ClientWeight(m)
  {
    if q != [] {
      ClientLoadSnoc(q[1..], m);
      assert (q + [m])[1..] == q[1..] + [m];
    }
  }

  lemma {:induction false} ServerLoadSnoc(q: seq<ToServer>, m: ToServer)
    ensures ServerLoad(q + [m]) == ServerLoad(q) + ServerWeight(m)
  {
    if q != [] {
      ServerLoadSnoc(q[1..], m);
      assert (q + [m])[1..] == q[1..] + [m];
    }
  }

  lemma ClientStepWork(st: State)
    requires Enabled(st, DeliverToClient)
    ensures var t := ClientStep(st);
            Work(t) == Work(st) - if t.player.down then 2 else 1
  {
    match st.toClient[0] {
      case OpenReq => ServerLoadSnoc(st.toServer, OpenResp);
      case SetupReq =>
        ServerLoadSnoc(st.toServer, SetupResp);
        ServerLoadSnoc(st.toServer + [SetupResp], Focus);
        assert st.toServer + [SetupResp] + [Focus] == st.toServer + [SetupResp, Focus];
      case StartInd =>
      case Media(_) => ServerLoadSnoc(st.toServer, MediaAck);
    }
  }

  lemma ServerStepWork(st: State)
    requires Enabled(st, DeliverToServer) && (st.flags.channelOpened || st.toServer[0].MediaAck?)
    ensures Work(ServerStep(st)) == Work(st) - 1
  {
    ClientLoadSnoc(st.toClient, StartInd);
  }

  /** Every delivery lowers the deliveries to come by exactly one, unless the client fails at it. */
  lemma DeliveryLowersWork(st: State, a: Action)
    requires Inv(st) && Delivery(a) && Enabled(st, a)
    ensures var t := Step(st, a);
            Work(t) == Work(st) - if t.player.down && !st.player.down then 2 else 1
  {
    if a.DeliverToClient? {
      ClientStepWork(st);
    } else {
      ServerStepFlight(st);
      ServerStepWork(st);
    }
  }

  /** Only deliveries, each enabled when its turn comes. */
  predicate Deliveries(st: State, run: seq<Action>) {
    run != [] ==> Deliveries(st, run[..|run| - 1]) && Delivery(run[|run| - 1]) && Enabled(Exec(st, run[..|run| - 1]), run[|run| - 1])
  }

  /** The media thread waits only while its first sample has not been sent, which no delivery changes. */
  lemma DeliveryKeepsThread(st: State, a: Action)
    requires Inv(st) && Delivery(a)
    ensures var t := Step(st, a); t.pc == st.pc && t.samples == st.samples
  {
  }

  lemma NothingToFailOn(st: State)
    requires Inv(st) && InOpening(st.pc)
    ensures !st.player.down
  {
    assert st.samples[..st.handled] == [];
  }

  lemma WaiterHasWork(took: First, pc: Pc, f: ServerFlags, toClient: seq<ToClient>, toServer: seq<ToServer>, stage: nat)
    requires Local(took, pc, f) && Links(PhaseOf(took, pc, f), toClient, toServer, stage)
    requires (pc.OpenWait? && !f.gotOpen) || (pc.SetupWait? && !f.gotSetup)
    ensures toClient != [] || toServer != []
  {
  }

  lemma WorkInFlight(st: State)
    ensures Work(st) > 0 <==> st.toClient != [] || st.toServer != []
  {
  }

  /** What deliveries leave alone, and what they lower. */
  predicate Delivered(st: State, t: State, n: nat) {
    && t.pc == st.pc && t.samples == st.samples
    && (!t.player.down ==> Work(t) == Work(st) - n)
  }

  lemma DeliveryEffect(st: State, a: Action)
    requires Inv(st) && Delivery(a) && Enabled(st, a)
    ensures Delivered(st, Step(st, a), 1) && (st.player.down ==> Step(st, a).player.down)
  {
    DeliveryKeepsThread(st, a);
    DeliveryLowersWork(st, a);
  }

  lemma {:induction false} DeliveriesLower(st: State, run: seq<Action>)
    requires Inv(st) && Deliveries(st, run)
    ensures Inv(Exec(st, run)) && Delivered(st, Exec(st, run), |run|)
  {
    Reachable(st, run);
    if run != [] {
      var front := run[..|run| - 1];
      DeliveriesLower(st, front);
      DeliveryEffect(Exec(st, front), run[|run| - 1]);
    }
  }

  /**
   With no step of the media thread in between, and as long as the client has not failed, deliveries
   in any order can go on for exactly `Work(st)` of them. While the media thread waits the client
   cannot have failed, some delivery is enabled, and after the last the thread has been released.
   */
  lemma WaiterReleased(st: State, run: seq<Action>)
    requires Inv(st) && Deliveries(st, run)
    ensures var t := Exec(st, run);
            && t.pc == st.pc
            && (!t.player.down ==> Work(t) == Work(st) - |run|)
            && (!t.player.down && |run| < Work(st) ==> Enabled(t, DeliverToClient) || Enabled(t, DeliverToServer))
            && (Waiting(t) ==> !t.player.down && |run| < Work(st))
  {
    DeliveriesLower(st, run);
    var t := Exec(st, run);
    if Waiting(t) {
      WaiterHasWork(t.took, t.pc, t.flags, t.toClient, t.toServer, Stage(t.log));
      NothingToFailOn(t);
    }
    WorkInFlight(t);
  }

  // ---------------------------------------------------------------- a run that ends badly

  lemma Then(st: State, run: seq<Action>, a: Action)
    ensures Exec(st, run + [a]) == Step(Exec(st, run), a)
  {
    assert (run + [a])[..|run|] == run;
  }

  /** The steps that open the channel for a first sample and send it. */
  function Opened(s: Sample): seq<Action> {
    [NewSample(s)] + [MediaThread] + [MediaThread] + [DeliverToClient] + [DeliverToServer] + [MediaThread] + [MediaThread]
    + [MediaThread] + [DeliverToClient] + [DeliverToServer] + [MediaThread] + [MediaThread]
  }

  lemma HalfOpened(s: Sample)
    requires ValidSample(s)
    ensures Exec(Init(true, false, false),
                 [NewSample(s)] + [MediaThread] + [MediaThread] + [DeliverToClient] + [DeliverToServer] + [MediaThread])
         == Init(true, false, false).(took := Set, pc := OpenDone(s), flags := ServerFlags(true, true, false), log := [SentOpen, GotOpen])
  {
    var st, r := Init(true, false, false), [NewSample(s)];
    Then(st, [], NewSample(s));
    assert [] + [NewSample(s)] == r;
    Then(st, r, MediaThread);
    r := r + [MediaThread];
    Then(st, r, MediaThread);
    r := r + [MediaThread];
    assert Exec(st, r) == st.(took := Set, pc := OpenWait(s), flags := ServerFlags(true, false, false), toClient := [OpenReq], log := [SentOpen]);
    Then(st, r, DeliverToClient);
    r := r + [DeliverToClient];
    assert Exec(st, r).toServer == [OpenResp];
    Then(st, r, DeliverToServer);
    r := r + [DeliverToServer];
    Then(st, r, MediaThread);
  }

  /** The second half, step by step from the state that the first half leaves. */
  lemma SecondHalf(t: State, s: Sample)
    requires ValidSample(s)
    requires t == Init(true, false, false).(took := Set, pc := OpenDone(s), flags := ServerFlags(true, true, false), log := [SentOpen, GotOpen])
    ensures Step(Step(t, MediaThread), MediaThread)
         == t.(pc := SetupWait(s), toClient := [SetupReq], log := [SentOpen, GotOpen, SentSetup])
    ensures Step(Step(t.(pc := SetupWait(s), toClient := [SetupReq], log := [SentOpen, GotOpen, SentSetup]), DeliverToClient), DeliverToServer)
         == t.(pc := SetupWait(s), flags := ServerFlags(true, true, true), toServer := [Focus], log := [SentOpen, GotOpen, SentSetup, GotSetup])
    ensures Step(Step(t.(pc := SetupWait(s), flags := ServerFlags(true, true, true), toServer := [Focus],
                         log := [SentOpen, GotOpen, SentSetup, GotSetup]), MediaThread), MediaThread)
         == t.(pc := Ready, firstSample := false, flags := ServerFlags(true, true, true), toServer := [Focus],
               toClient := [Media(s)], samples := [s], log := [SentOpen, GotOpen, SentSetup, GotSetup, SentMedia])
  {
  }

  /** Such a run exists: after it the sample is on its way to a client that has not made a pipeline yet. */
  lemma FirstSampleSent(s: Sample)
    requires ValidSample(s)
    ensures var t := Exec(Init(true, false, false), Opened(s));
            && t.toClient == [Media(s)] && t.samples == [s] && t.player == NEW_PLAYER && t.acksSent == 0
            && !t.firstSample && t.took.Set? && t.flags.channelOpened
  {
    var st := Init(true, false, false);
    var r6 := [NewSample(s)] + [MediaThread] + [MediaThread] + [DeliverToClient] + [DeliverToServer] + [MediaThread];
    HalfOpened(s);
    SecondHalf(Exec(st, r6), s);
    var r8 := r6 + [MediaThread] + [MediaThread];
    Then(st, r6, MediaThread);
    Then(st, r6 + [MediaThread], MediaThread);
    var r10 := r8 + [DeliverToClient] + [DeliverToServer];
    Then(st, r8, DeliverToClient);
    Then(st, r8 + [DeliverToClient], DeliverToServer);
    Then(st, r10, MediaThread);
    Then(st, r10 + [MediaThread], MediaThread);
    assert r10 + [MediaThread] + [MediaThread] == Opened(s);
  }

  /** If that first sample has a time, its delivery makes the client fail, without an ack. */
  lemma TimedFirstSampleFails(s: Sample)
    requires ValidSample(s) && s.pts != NO_PTS
    ensures var t := Exec(Init(true, false, false), Opened(s) + [DeliverToClient]);
            t.player.down && t.player.pushed == [] && t.acksSent == 0 && t.samples == [s]
  {
    FirstSampleSent(s);
    Then(Init(true, false, false), Opened(s), DeliverToClient);
  }
}
