/**
 The timestamp pipeline: nanoseconds to microseconds in `new_sample`, rebasing modulo 2^64 in
 AAClient's handler, and back to nanoseconds for its pipeline.
 */
module Timestamps {
  import opened Utils
  import opened VideoHandlers

  /** `startTimestamp` after a sequence of timestamped frames. */
  function StartAfter(ts: seq<nat>): nat {
    if ts == [] then 0 else Rebase(StartAfter(ts[..|ts| - 1]), ts[|ts| - 1]).0
  }

  /** The time of the i-th frame at the client. */
  function OutAt(ts: seq<nat>, i: nat): int
    requires i < |ts|
  {
    Rebase(StartAfter(ts[..i]), ts[i]).1
  }

  /** The microseconds that the server can send: a 64-bit number of nanoseconds divided by 1000. */
  predicate Micros(ts: seq<nat>) {
    forall i :: 0 <= i < |ts| ==> ts[i] * 1000 < TWO64
  }

  /** The stream meets its purpose: time differences arrive unchanged, modulo 2^64. */
  predicate DifferencesKept(ts: seq<nat>) {
    forall i, j :: 0 <= i < |ts| && 0 <= j < |ts| ==>
      Word(OutAt(ts, i) - OutAt(ts, j)) == Word((ts[i] as int - ts[j]) * 1000)
  }

  lemma WordShift(a: int, q: int)
    ensures Word(a + q * TWO64) == Word(a)
  {
  }

  lemma WordWord(a: int, b: int)
    ensures Word(Word(a) + b) == Word(a + b) && Word(Word(a) - b) == Word(a - b) && Word(b - Word(a)) == Word(b - a)
    ensures Word(Word(a) * 1000) == Word(a * 1000)
  {
    var q := a / TWO64;
    assert a == q * TWO64 + Word(a);
    WordShift(Word(a) + b, q);
    WordShift(Word(a) - b, q);
    WordShift(b - Word(a), -q);
    WordShift(Word(a) * 1000, q * 1000);
  }

  lemma StartZero(ts: seq<nat>, i: nat)
    requires i <= |ts| && forall k :: 0 <= k < i ==> ts[k] == HEADSTART
    ensures StartAfter(ts[..i]) == 0
  {
    if i > 0 {
      assert ts[..i][..i - 1] == ts[..i - 1];
      StartZero(ts, i - 1);
    }
  }

  /** The frame that fixes the start time: the first that is not at exactly 100000 us. */
  predicate IsBase(ts: seq<nat>, b: nat) {
    b < |ts| && ts[b] != HEADSTART && forall k :: 0 <= k < b ==> ts[k] == HEADSTART
  }

  lemma StartStays(ts: seq<nat>, b: nat, i: nat)
    requires Micros(ts) && IsBase(ts, b) && b < i <= |ts|
    ensures StartAfter(ts[..i]) == Word(ts[b] - HEADSTART) != 0
  {
    assert ts[..i][..i - 1] == ts[..i - 1];
    if i > b + 1 {
      StartStays(ts, b, i - 1);
    } else {
      StartZero(ts, b);
    }
  }

  /** From the base on every frame is shifted by the same constant. */
  lemma OutExactly(ts: seq<nat>, b: nat, i: nat)
    requires Micros(ts) && IsBase(ts, b) && b <= i < |ts|
    ensures OutAt(ts, i) == Word((ts[i] - ts[b] + HEADSTART) * 1000)
  {
    if i > b {
      StartStays(ts, b, i);
    } else {
      StartZero(ts, b);
    }
    var start := Word(ts[b] - HEADSTART);
    WordWord(ts[b] - HEADSTART, ts[i]);
    assert Word(ts[i] as int - start) == Word(ts[i] - ts[b] + HEADSTART);
    WordWord(ts[i] - ts[b] + HEADSTART, 0);
  }

  /** A frame that sets the start time comes out at 100 ms. */
  lemma RebaseFirst(ts: nat)
    ensures Rebase(0, ts).1 == HEADSTART * 1000
  {
    WordWord(ts - HEADSTART, ts);
  }

  /** Before it every frame comes out at 100 ms. */
  lemma OutBefore(ts: seq<nat>, i: nat)
    requires i < |ts| && forall k :: 0 <= k <= i ==> ts[k] == HEADSTART
    ensures OutAt(ts, i) == HEADSTART * 1000
  {
    StartZero(ts, i);
    RebaseFirst(ts[i]);
  }

  lemma WordZero(a: int)
    requires 0 < a * 1000 + TWO64 < 2 * TWO64 + HEADSTART * 1000
    ensures Word(a * 1000) == 0 <==> a == 0
  {
  }

  ghost function FirstOther(ts: seq<nat>, i: nat): (n: nat)
    requires i < |ts| && ts[i] != HEADSTART
    ensures n <= i && ts[n] != HEADSTART && forall k :: 0 <= k < n ==> ts[k] == HEADSTART
    decreases i
  {
    if exists k :: 0 <= k < i && ts[k] != HEADSTART then
      var k :| 0 <= k < i && ts[k] != HEADSTART;
      FirstOther(ts, k)
    else i
  }

  lemma ZeroFromBase(ts: seq<nat>, b: nat, i: nat)
    requires Micros(ts) && IsBase(ts, b) && b <= i < |ts|
    ensures OutAt(ts, i) == 0 <==> ts[i] + HEADSTART == ts[b]
  {
    OutExactly(ts, b, i);
    WordZero(ts[i] - ts[b] + HEADSTART);
  }

  lemma OneBase(ts: seq<nat>, b: nat, c: nat)
    requires IsBase(ts, b) && IsBase(ts, c)
    ensures b == c
  {
  }

  /**
   A frame comes out at time zero, which leaves its buffer without a time, exactly when it is 100 ms
   before the base.
   */
  lemma ZeroExactly(ts: seq<nat>, i: nat)
    requires Micros(ts) && i < |ts|
    ensures OutAt(ts, i) == 0 <==> exists b: nat :: IsBase(ts, b) && b <= i && ts[i] + HEADSTART == ts[b]
  {
    if forall k :: 0 <= k <= i ==> ts[k] == HEADSTART {
      OutBefore(ts, i);
    } else {
      var k :| 0 <= k <= i && ts[k] != HEADSTART;
      var b := FirstOther(ts, k);
      ZeroFromBase(ts, b, i);
      forall c: nat | IsBase(ts, c) ensures c == b {
        OneBase(ts, b, c);
      }
    }
  }

  lemma SameMicros(a: nat, b: nat)
    requires a * 1000 < TWO64 && b * 1000 < TWO64 && Word((a - b) * 1000) == 0
    ensures a == b
  {
  }

  lemma ShiftedDifference(x: nat, y: nat, z: nat)
    ensures Word(Word((x - z + HEADSTART) * 1000) as int - Word((y - z + HEADSTART) * 1000)) == Word((x as int - y) * 1000)
  {
    var a, b := (x - z + HEADSTART) * 1000, (y - z + HEADSTART) * 1000;
    WordWord(a, -(Word(b) as int));
    WordWord(b, a);
    assert a - b == (x - y) * 1000;
  }

  /** The n-th frame sets the start time anew and so takes the time of the first. */
  lemma LateStart(ts: seq<nat>, n: nat)
    requires Micros(ts) && 0 < n < |ts| && ts[n] != HEADSTART && forall k :: 0 <= k < n ==> ts[k] == HEADSTART
    ensures !DifferencesKept(ts)
  {
    StartZero(ts, n);
    StartZero(ts, 0);
    RebaseFirst(ts[n]);
    RebaseFirst(ts[0]);
    assert OutAt(ts, n) == OutAt(ts, 0) && Word(0) == 0;
    if Word((ts[n] as int - ts[0]) * 1000) == 0 {
      SameMicros(ts[n], ts[0]);
    }
  }

  /**
   Differences between times survive exactly when the first frame is not at 100000 us, or all are:
   100000 makes `startTimestamp` zero, which means "not set" to the next frame.
   */
  lemma DifferencesKeptExactly(ts: seq<nat>)
    requires Micros(ts) && ts != []
    ensures DifferencesKept(ts) <==> ts[0] != HEADSTART || forall i :: 0 <= i < |ts| ==> ts[i] == HEADSTART
  {
    if ts[0] != HEADSTART {
      forall i, j | 0 <= i < |ts| && 0 <= j < |ts|
        ensures Word(OutAt(ts, i) - OutAt(ts, j)) == Word((ts[i] as int - ts[j]) * 1000)
      {
        OutExactly(ts, 0, i);
        OutExactly(ts, 0, j);
        ShiftedDifference(ts[i], ts[j], ts[0]);
      }
    } else if forall i :: 0 <= i < |ts| ==> ts[i] == HEADSTART {
      forall i | 0 <= i < |ts| ensures OutAt(ts, i) == HEADSTART * 1000 {
        StartZero(ts, i);
      }
    } else {
      var i :| 0 <= i < |ts| && ts[i] != HEADSTART;
      LateStart(ts, FirstOther(ts, i));
    }
  }

  /** The microseconds of a stream of presentation times. */
  function ToMicros(pts: seq<nat>): seq<nat> { seq(|pts|, i requires 0 <= i < |pts| => pts[i] / 1000) }

  /** No frame wraps around: none comes 100 ms or more before the first, none within 100 ms of 2^64. */
  predicate InRange(pts: seq<nat>) {
    forall i :: 0 <= i < |pts| ==> pts[i] + HEADSTART * 1000 < TWO64 && pts[0] / 1000 <= pts[i] / 1000 + HEADSTART
  }

  lemma MicrosBound(p: nat, z: nat)
    requires p + HEADSTART * 1000 < TWO64 && z <= p / 1000 + HEADSTART
    ensures p / 1000 * 1000 < TWO64 && 0 <= (p / 1000 - z + HEADSTART) * 1000 < TWO64
  {
    assert p / 1000 * 1000 <= p;
  }

  lemma WordSmall(a: int)
    requires 0 <= a < TWO64
    ensures Word(a) == a
  {
  }

  lemma Truncation(p: nat, q: nat)
    ensures p <= q ==> p / 1000 <= q / 1000
    ensures -1000 < (q / 1000 - p / 1000) * 1000 - (q as int - p) < 1000
  {
    assert p == p / 1000 * 1000 + p % 1000 && q == q / 1000 * 1000 + q % 1000;
  }

  /**
   Fidelity: the client's times keep the order of the presentation times, and their differences to
   within a microsecond.
   */
  lemma Fidelity(pts: seq<nat>, i: nat, j: nat)
    requires InRange(pts) && i < |pts| && j < |pts| && pts[0] / 1000 != HEADSTART
    ensures Micros(ToMicros(pts))
    ensures var out, out' := OutAt(ToMicros(pts), i), OutAt(ToMicros(pts), j);
            && (pts[i] <= pts[j] ==> out <= out')
            && -1000 < (out' - out) - (pts[j] as int - pts[i]) < 1000
  {
    var ts := ToMicros(pts);
    forall k | 0 <= k < |ts| ensures ts[k] * 1000 < TWO64 && 0 <= (ts[k] - ts[0] + HEADSTART) * 1000 < TWO64 {
      assert ts[k] == pts[k] / 1000;
      MicrosBound(pts[k], pts[0] / 1000);
    }
    OutExactly(ts, 0, i);
    OutExactly(ts, 0, j);
    WordSmall((ts[i] - ts[0] + HEADSTART) * 1000);
    WordSmall((ts[j] - ts[0] + HEADSTART) * 1000);
    Truncation(pts[i], pts[j]);
  }
}
