/**
 Two video handlers of one program, each with its own channel and client, which share the static
 `firstSample`. Their steps interleave in any way.
 */
module VideoPair {
  import opened VideoHandlers
  import opened VideoLink

  /** The flag is kept once, for both. */
  datatype Pair = Pair(flag: bool, a: State, b: State)

  /** A step of the handler `a` or of the handler `b`. */
  datatype Move = Move(ofA: bool, act: Action)

  const START: Pair := Pair(true, Init(true, false, false), Init(true, false, false))

  /** A handler as it sees the flag. */
  function Own(p: Pair, ofA: bool): State { (if ofA then p.a else p.b).(firstSample := p.flag) }

  function PairStep(p: Pair, m: Move): Pair {
    if m.act.OtherSent? then p
    else
      var t := Step(Own(p, m.ofA), m.act);
      if m.ofA then Pair(t.firstSample, t, p.b) else Pair(t.firstSample, p.a, t)
  }

  function PairExec(run: seq<Move>): Pair {
    if run == [] then START else PairStep(PairExec(run[..|run| - 1]), run[|run| - 1])
  }

  /** What a run is for one of the handlers: its own steps, and the flag cleared by the other. */
  function View(run: seq<Move>, ofA: bool): seq<Action> {
    if run == [] then []
    else
      var m := run[|run| - 1];
      View(run[..|run| - 1], ofA) +
      if m.act.OtherSent? then []
      else if m.ofA == ofA then [m.act]
      else if PairExec(run).flag then [] else [OtherSent]
  }

  lemma FlagOnlyCleared(st: State, a: Action)
    ensures Step(st, a).firstSample ==> st.firstSample
  {
  }

  lemma ExecMore(st: State, run: seq<Action>, more: seq<Action>)
    requires |more| <= 1
    ensures Exec(st, run + more) == if more == [] then Exec(st, run) else Step(Exec(st, run), more[0])
  {
    if more == [] {
      assert run + more == run;
    } else {
      assert run + more == run + [more[0]];
      Then(st, run, more[0]);
    }
  }

  /** Each handler runs as VideoLink says, with the other as its environment. */
  lemma {:induction false} EachRuns(run: seq<Move>, ofA: bool)
    ensures Own(PairExec(run), ofA) == Exec(Init(true, false, false), View(run, ofA))
  {
    if run != [] {
      var front, m := run[..|run| - 1], run[|run| - 1];
      var p := PairExec(front);
      EachRuns(front, ofA);
      FlagOnlyCleared(Own(p, m.ofA), m.act);
      var more := if m.act.OtherSent? then [] else if m.ofA == ofA then [m.act] else if PairExec(run).flag then [] else [OtherSent];
      ExecMore(Init(true, false, false), View(front, ofA), more);
    }
  }

  /** On every run of both: a handler's media are ordered if and only if it found the flag set at its first sample. */
  lemma EachOrderedExactly(run: seq<Move>, ofA: bool)
    ensures var st := Own(PairExec(run), ofA);
            && (MediaOrdered(st.log) <==> st.samples == [] || st.took.Set?)
            && (st.took.Set? <==> st.flags.channelOpened)
            && (st.samples != [] ==> !st.took.NotYet?)
  {
    EachRuns(run, ofA);
    OrderingExactly(true, false, false, View(run, ofA));
  }

  // ---------------------------------------------------------------- one after the other, and both at once

  function Moves(acts: seq<Action>, ofA: bool): seq<Move> {
    seq(|acts|, i requires 0 <= i < |acts| => Move(ofA, acts[i]))
  }

  lemma PairMore(run: seq<Move>, m: Move)
    ensures PairExec(run + [m]) == PairStep(PairExec(run), m)
  {
    assert (run + [m])[..|run|] == run;
  }

  /** As long as only `a` moves it runs alone. */
  lemma {:induction false} FirstAlone(acts: seq<Action>)
    requires forall a :: a in acts ==> !a.OtherSent?
    ensures var p, st := PairExec(Moves(acts, true)), Exec(Init(true, false, false), acts);
            p == Pair(st.firstSample, st, START.b)
  {
    if acts != [] {
      var front, a := acts[..|acts| - 1], acts[|acts| - 1];
      assert a in acts;
      FirstAlone(front);
      assert Moves(acts, true) == Moves(front, true) + [Move(true, a)];
      PairMore(Moves(front, true), Move(true, a));
    }
  }

  /** When the first sample of `b` comes after one of `a` has been sent, it goes out on a channel that is never opened. */
  lemma SecondHandlerUnordered(s: Sample)
    requires ValidSample(s)
    ensures var p := PairExec(Moves(Opened(s), true) + [Move(false, NewSample(s))] + [Move(false, MediaThread)]);
            && MediaOrdered(p.a.log) && p.a.samples == [s] && p.a.flags.channelOpened
            && !MediaOrdered(p.b.log) && p.b.samples == [s] && !p.b.flags.channelOpened && p.b.log == [SentMedia]
  {
    FirstAlone(Opened(s));
    FirstSampleSent(s);
    var r := Moves(Opened(s), true);
    PairMore(r, Move(false, NewSample(s)));
    PairMore(r + [Move(false, NewSample(s))], Move(false, MediaThread));
    var all := r + [Move(false, NewSample(s))] + [Move(false, MediaThread)];
    EachOrderedExactly(all, true);
    EachOrderedExactly(all, false);
    assert PairExec(all).b.log == [] + [SentMedia];
  }

  /** When both take their first sample before either has sent one, both open their channels. */
  lemma BothOpen(s: Sample, t: Sample)
    requires ValidSample(s) && ValidSample(t)
    ensures var p := PairExec([Move(true, NewSample(s))] + [Move(false, NewSample(t))]);
            p.a.flags.channelOpened && p.b.flags.channelOpened && p.a.took.Set? && p.b.took.Set?
  {
    PairMore([], Move(true, NewSample(s)));
    assert [] + [Move(true, NewSample(s))] == [Move(true, NewSample(s))];
    PairMore([Move(true, NewSample(s))], Move(false, NewSample(t)));
  }
}
