/**
 The input protocol on the bytes that travel: the same steps, with the handlers of both programs
 applied to byte messages.
 */
module InputWire {
  import opened Utils
  import opened InputLink
  import opened InputHandlers

  /** `core` holds everything but the two links, whose messages are bytes here. */
  datatype Wire = Wire(core: State, toHead: seq<Bytes>, fromHead: seq<Bytes>, unhandled: bool)

  function WireInit(gotOpen: bool, gotHandshake: bool): Wire {
    Wire(Init(gotOpen, gotHandshake), [], [], false)
  }

  function Requested(p: Payloads, q: seq<ToHead>): (bs: seq<Bytes>)
    ensures |bs| == |q|
  {
    seq(|q|, i requires 0 <= i < |q| => RequestBytes(p, q[i]))
  }

  function Responded(q: seq<FromHead>): (bs: seq<Bytes>)
    ensures |bs| == |q|
  {
    seq(|q|, i requires 0 <= i < |q| => ResponseBytes(q[i]))
  }

  /** Whatever arrives has a type; the headunit's own messages are events. */
  predicate WireEnabled(w: Wire, a: Action) {
    match a
    case HeadReceive => w.toHead != [] && |w.toHead[0]| >= 2
    case ServerReceive => w.fromHead != [] && |w.fromHead[0]| >= 2 && !w.core.stopped
    case HeadEvent(content) => EventContent(content)
    case _ => Enabled(w.core, a)
  }

  function Unlinked(st: State): State { st.(toHead := [], fromHead := []) }

  function HeadStep(channelId: byte, w: Wire): Wire
    requires w.toHead != [] && |w.toHead[0]| >= 2
  {
    var (signals, handled) := ClientInputHandle(channelId, w.toHead[0]);
    w.(toHead := w.toHead[1..], fromHead := w.fromHead + Replies(signals), unhandled := w.unhandled || !handled)
  }

  function ReceiveStep(w: Wire): Wire
    requires w.fromHead != [] && |w.fromHead[0]| >= 2
  {
    var data := w.fromHead[0];
    var (gotOpen, gotHandshake, isEvent, handled) := ServerInputHandle(w.core.gotOpen, w.core.gotHandshake, data);
    var log := if isEvent || !handled then [] else [Got(if Messages.TypeOf(data) == Messages.CHANNEL_OPEN_RESPONSE then OpenFlag else HandshakeFlag)];
    var (hs, ok) := Deliver(w.core.threads, Ascending(w.core.registered, |w.core.threads|));
    var handed := if isEvent then [(data, hs)] else [];
    w.(core := w.core.(gotOpen := gotOpen, gotHandshake := gotHandshake, log := w.core.log + log,
                       handed := w.core.handed + handed, stopped := w.core.stopped || (isEvent && !ok)),
       fromHead := w.fromHead[1..], unhandled := w.unhandled || !handled)
  }

  /** A step that only adds to the headunit's link, and what it adds there. */
  function OtherStep(p: Payloads, w: Wire, a: Action): Wire {
    var s := Step(w.core, a);
    w.(core := Unlinked(s), toHead := w.toHead + Requested(p, s.toHead))
  }

  function WireStep(p: Payloads, channelId: byte, w: Wire, a: Action): Wire {
    if !WireEnabled(w, a) then w
    else match a
      case HeadReceive => HeadStep(channelId, w)
      case ServerReceive => ReceiveStep(w)
      case HeadEvent(content) => w.(fromHead := w.fromHead + [content])
      case _ => OtherStep(p, w, a)
  }

  function WireExec(p: Payloads, channelId: byte, w: Wire, run: seq<Action>): Wire {
    if run == [] then w else WireStep(p, channelId, WireExec(p, channelId, w, run[..|run| - 1]), run[|run| - 1])
  }

  /** The bytes of a protocol state in which nothing has gone unhandled. */
  function Lift(p: Payloads, st: State): Wire {
    Wire(Unlinked(st), Requested(p, st.toHead), Responded(st.fromHead), false)
  }

  predicate EventsOk(fromHead: seq<FromHead>) {
    forall m :: m in fromHead && m.InputEvent? ==> EventContent(m.content)
  }

  /** The actions of a run that can be taken on bytes: the headunit sends events only. */
  predicate Proper(run: seq<Action>) {
    forall a :: a in run && a.HeadEvent? ==> EventContent(a.content)
  }

  // ---------------------------------------------------------------- simulation

  lemma HeadStepSimulated(p: Payloads, channelId: byte, st: State)
    requires st.toHead != []
    ensures |Lift(p, st).toHead[0]| >= 2 && HeadStep(channelId, Lift(p, st)) == Lift(p, Step(st, HeadReceive))
  {
    HeadRealises(p, channelId, st.toHead[0]);
    assert Requested(p, st.toHead)[1..] == Requested(p, st.toHead[1..]);
    assert Responded(st.fromHead + [Answer(st.toHead[0])]) == Responded(st.fromHead) + [ResponseBytes(Answer(st.toHead[0]))];
  }

  lemma ReceiveStepSimulated(p: Payloads, st: State)
    requires st.fromHead != [] && EventsOk(st.fromHead) && !st.stopped
    ensures |Lift(p, st).fromHead[0]| >= 2 && ReceiveStep(Lift(p, st)) == Lift(p, ServerStep(st))
  {
    var m := st.fromHead[0];
    assert m in st.fromHead;
    ServerRealises(st);
    assert Responded(st.fromHead)[1..] == Responded(st.fromHead[1..]);
    assert st.log + [] == st.log && st.handed + [] == st.handed;
  }

  lemma RequestedMore(p: Payloads, q: seq<ToHead>, more: seq<ToHead>)
    ensures Requested(p, q + more) == Requested(p, q) + Requested(p, more)
  {
  }

  /** A thread's step does not look at the links, and appends the same to any. */
  lemma RunAside(st: State, t: nat)
    requires t < |st.threads| && Running(st.threads[t].pc, st.gotOpen, st.gotHandshake)
    ensures var s, u := RunStep(st, t), RunStep(Unlinked(st), t);
            Unlinked(s) == Unlinked(u) && s.toHead == st.toHead + u.toHead && s.fromHead == st.fromHead
  {
    assert st.toHead + [] == st.toHead;
    assert [] + [OpenReq] == [OpenReq] && [] + [HandshakeReq] == [HandshakeReq];
  }

  /** Nor does a step of a client. */
  lemma LinksAside(st: State, a: Action)
    requires !a.HeadReceive? && !a.ServerReceive? && !a.HeadEvent?
    ensures var s, t := Step(st, a), Step(Unlinked(st), a);
            Unlinked(s) == Unlinked(t) && s.toHead == st.toHead + t.toHead && s.fromHead == st.fromHead
  {
    assert st.toHead + [] == st.toHead;
    if a.Run? && Enabled(st, a) {
      RunAside(st, a.t);
    }
  }

  lemma OtherStepSimulated(p: Payloads, st: State, a: Action)
    requires !a.HeadReceive? && !a.ServerReceive? && !a.HeadEvent?
    ensures OtherStep(p, Lift(p, st), a) == Lift(p, Step(st, a))
  {
    LinksAside(st, a);
    RequestedMore(p, st.toHead, Step(Unlinked(st), a).toHead);
  }

  lemma EnabledAlike(p: Payloads, st: State, a: Action)
    requires EventsOk(st.fromHead) && (a.HeadEvent? ==> EventContent(a.content))
    ensures WireEnabled(Lift(p, st), a) <==> Enabled(st, a)
  {
    if st.fromHead != [] {
      assert st.fromHead[0] in st.fromHead;
    }
  }

  lemma LinkKeepsEvents(st: State, a: Action)
    requires EventsOk(st.fromHead) && (a.HeadEvent? ==> EventContent(a.content))
    ensures EventsOk(Step(st, a).fromHead)
  {
    if a.Run? && Enabled(st, a) {
      RunAside(st, a.t);
    }
  }

  lemma StepSimulated(p: Payloads, channelId: byte, st: State, a: Action)
    requires EventsOk(st.fromHead) && (a.HeadEvent? ==> EventContent(a.content))
    ensures WireStep(p, channelId, Lift(p, st), a) == Lift(p, Step(st, a)) && EventsOk(Step(st, a).fromHead)
  {
    EnabledAlike(p, st, a);
    if Enabled(st, a) {
      match a {
        case HeadReceive => HeadStepSimulated(p, channelId, st);
        case ServerReceive => ReceiveStepSimulated(p, st);
        case HeadEvent(content) =>
          assert Responded(st.fromHead + [InputEvent(content)]) == Responded(st.fromHead) + [content];
        case _ => OtherStepSimulated(p, st, a);
      }
    }
    LinkKeepsEvents(st, a);
  }

  /**
   Every run on bytes is the run of the protocol: every message that arrives is handled by its
   receiver, and the flags, ids, log and events handed out are those of the protocol.
   */
  lemma {:induction false} RunSimulated(p: Payloads, channelId: byte, gotOpen: bool, gotHandshake: bool, run: seq<Action>)
    requires Proper(run)
    ensures var st := Exec(Init(gotOpen, gotHandshake), run);
            WireExec(p, channelId, WireInit(gotOpen, gotHandshake), run) == Lift(p, st) && EventsOk(st.fromHead)
  {
    if run != [] {
      var front := run[..|run| - 1];
      RunSimulated(p, channelId, gotOpen, gotHandshake, front);
      assert run[|run| - 1] in run;
      StepSimulated(p, channelId, Exec(Init(gotOpen, gotHandshake), front), run[|run| - 1]);
    }
  }
}
