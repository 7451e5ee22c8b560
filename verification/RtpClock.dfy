/**
 Media-clock drift from RTP frame arrivals. An RTP timestamp is the true media clock modulo 2^32; the summary
 adds up signed differences of neighbouring timestamps. Times are reals here: floating-point rounding is not
 modelled.
 */
module RtpClock {
  import opened Options

  const WRAP := 0x1_0000_0000
  const HALF := 0x8000_0000
  const TICKS_PER_MS := 90.0

  /** The 32-bit timestamp field, section 5.1 of RFC 3550. */
  type Timestamp = x: int | 0 <= x < WRAP

  /** A JavaScript subtraction of two timestamps, brought into the signed 32-bit range. */
  function SignedDelta(cur: Timestamp, prev: Timestamp): (d: int)
    ensures -HALF <= d <= HALF
  {
    var d := cur - prev;
    if d > HALF then d - WRAP else if d < -HALF then d + WRAP else d
  }

  /** The timestamp a sender puts on the true clock value t. */
  function Wrapped(t: int): Timestamp { t % WRAP }

  lemma Turns(t: int) returns (k: int)
    ensures t == Wrapped(t) + k * WRAP
  {
    k := t / WRAP;
  }

  lemma DeltaIsCongruent(cur: Timestamp, prev: Timestamp) returns (k: int)
    ensures SignedDelta(cur, prev) == cur - prev + k * WRAP && -1 <= k <= 1
  {
    var d := cur - prev;
    k := if d > HALF then -1 else if d < -HALF then 1 else 0;
  }

  /** The difference of two timestamps is the true step exactly when the step is shorter than half the range; at
      exactly half the range it depends on which half the earlier timestamp lies in. */
  lemma DeltaIsExactIff(t: int, t': int)
    ensures SignedDelta(Wrapped(t'), Wrapped(t)) == t' - t <==>
            || -HALF < t' - t < HALF
            || (t' - t == HALF && Wrapped(t) < HALF)
            || (t' - t == -HALF && Wrapped(t) >= HALF)
  {
    var a := Turns(t);
    var b := Turns(t');
    var k := DeltaIsCongruent(Wrapped(t'), Wrapped(t));
    assert SignedDelta(Wrapped(t'), Wrapped(t)) == t' - t + (k + a - b) * WRAP;
  }

  // ---------------------------------------------------------------- a series of frames

  datatype Frame = Frame(arrivalMs: real, rtpTs: Timestamp)

  function Elapsed(frames: seq<Frame>): int {
    if |frames| < 2 then 0
    else
      Elapsed(frames[..|frames| - 1]) + SignedDelta(frames[|frames| - 1].rtpTs, frames[|frames| - 2].rtpTs)
  }

  /** For every series, whatever was lost or reordered, the total differs from last minus first by whole turns. */
  lemma {:induction false} ElapsedIsCongruent(frames: seq<Frame>) returns (k: int)
    requires frames != []
    ensures Elapsed(frames) == frames[|frames| - 1].rtpTs - frames[0].rtpTs + k * WRAP
  {
    var n := |frames|;
    if n == 1 {
      k := 0;
    } else {
      var k1 := ElapsedIsCongruent(frames[..n - 1]);
      var k2 := DeltaIsCongruent(frames[n - 1].rtpTs, frames[n - 2].rtpTs);
      k := k1 + k2;
    }
  }

  /** The frames carry this true clock, each step shorter than half the range in either direction. */
  ghost predicate Carries(frames: seq<Frame>, clock: seq<int>) {
    && |clock| == |frames|
    && (forall i :: 0 <= i < |frames| ==> frames[i].rtpTs == Wrapped(clock[i]))
    && forall i :: 0 < i < |clock| ==> -HALF < clock[i] - clock[i - 1] < HALF
  }

  /** Then the total is the true elapsed time, over any number of wraps and reorderings. */
  lemma {:induction false} ElapsedIsTrue(frames: seq<Frame>, clock: seq<int>)
    requires frames != [] && Carries(frames, clock)
    ensures Elapsed(frames) == clock[|clock| - 1] - clock[0]
  {
    var n := |frames|;
    if n > 1 {
      ElapsedIsTrue(frames[..n - 1], clock[..n - 1]);
      DeltaIsExactIff(clock[n - 2], clock[n - 1]);
    }
  }

  // ---------------------------------------------------------------- the metrics

  function Abs(x: real): real { if x < 0.0 then -x else x }

  /** Wall time against media time between two neighbouring frames. */
  function PacingError(cur: Frame, prev: Frame): real {
    Abs(cur.arrivalMs - prev.arrivalMs - SignedDelta(cur.rtpTs, prev.rtpTs) as real / TICKS_PER_MS)
  }

  /** The errors of the pairs that are not reordered. */
  function PacingErrors(frames: seq<Frame>): seq<real> {
    if |frames| < 2 then []
    else
      var n := |frames|;
      var before := PacingErrors(frames[..n - 1]);
      if SignedDelta(frames[n - 1].rtpTs, frames[n - 2].rtpTs) >= 0
      then before + [PacingError(frames[n - 1], frames[n - 2])] else before
  }

  /** Wall time minus media time over the whole series. */
  function Drift(frames: seq<Frame>): real
    requires frames != []
  {
    frames[|frames| - 1].arrivalMs - frames[0].arrivalMs - Elapsed(frames) as real / TICKS_PER_MS
  }

  datatype Metrics = Metrics(driftMs: real, pacingErrors: seq<real>)

  /** The accumulation of mediaClockMetrics, before rounding. */
  method MediaClockMetrics(frames: seq<Frame>) returns (m: Option<Metrics>)
    ensures m.None? <==> |frames| < 2
    ensures m.Some? ==>
              m.value.driftMs == Drift(frames) && m.value.pacingErrors == PacingErrors(frames)
  {
    if |frames| < 2 {
      return None;
    }
    var rtpElapsedMs := 0.0;
    var pacingErrors := [];
    for i := 1 to |frames|
      invariant rtpElapsedMs == Elapsed(frames[..i]) as real / TICKS_PER_MS
      invariant pacingErrors == PacingErrors(frames[..i])
    {
      var arrivalDelta := frames[i].arrivalMs - frames[i - 1].arrivalMs;
      var rtpTsDelta := SignedDelta(frames[i].rtpTs, frames[i - 1].rtpTs) as real / TICKS_PER_MS;
      rtpElapsedMs := rtpElapsedMs + rtpTsDelta;
      if rtpTsDelta >= 0.0 {
        pacingErrors := pacingErrors + [Abs(arrivalDelta - rtpTsDelta)];
      }
      assert frames[..i + 1][..i] == frames[..i];
    }
    assert frames[..|frames|] == frames;
    m := Some(Metrics(frames[|frames| - 1].arrivalMs - frames[0].arrivalMs - rtpElapsedMs, pacingErrors));
  }

  /** So the drift is wall time minus true media time. */
  lemma DriftIsWallMinusMedia(frames: seq<Frame>, clock: seq<int>)
    requires |frames| >= 2 && Carries(frames, clock)
    ensures Drift(frames) == frames[|frames| - 1].arrivalMs - frames[0].arrivalMs
                             - (clock[|clock| - 1] - clock[0]) as real / 90.0
  {
    ElapsedIsTrue(frames, clock);
  }

  /** A pair whose frames are in media order enters the pacing series: a series that never steps back contributes
      every pair, in order. */
  lemma {:induction false} PacingOfOrderedFrames(frames: seq<Frame>, i: nat)
    requires 0 < i < |frames|
    requires forall k :: 0 < k < |frames| ==> SignedDelta(frames[k].rtpTs, frames[k - 1].rtpTs) >= 0
    ensures |PacingErrors(frames)| == |frames| - 1
    ensures PacingErrors(frames)[i - 1] == PacingError(frames[i], frames[i - 1])
  {
    var n := |frames|;
    assert SignedDelta(frames[n - 1].rtpTs, frames[n - 2].rtpTs) >= 0;
    if n > 2 {
      PacingOfOrderedFrames(frames[..n - 1], if i < n - 1 then i else 1);
    }
  }

  /** The neighbours, by the index of the later one, that are in media order. */
  ghost function InOrder(clock: seq<int>): (pairs: seq<nat>)
    ensures forall j :: 0 <= j < |pairs| ==> 0 < pairs[j] < |clock|
  {
    if |clock| < 2 then []
    else
      var n := |clock|;
      if clock[n - 1] >= clock[n - 2] then InOrder(clock[..n - 1]) + [n - 1] else InOrder(clock[..n - 1])
  }

  /** It lists exactly those, each once and in order. */
  lemma {:induction false} InOrderIff(clock: seq<int>, i: nat)
    requires 0 < i < |clock|
    ensures i in InOrder(clock) <==> clock[i] >= clock[i - 1]
    ensures forall j, k :: 0 <= j < k < |InOrder(clock)| ==> InOrder(clock)[j] < InOrder(clock)[k]
    decreases |clock|
  {
    var n := |clock|;
    if n > 2 {
      InOrderIff(clock[..n - 1], if i < n - 1 then i else 1);
    }
  }

  /** The difference between the wall time and the true media time that lie between two neighbours, at 90 ticks to the
      millisecond. */
  ghost function TrueError(frames: seq<Frame>, clock: seq<int>, i: nat): real
    requires 0 < i < |frames| == |clock|
  {
    var d := frames[i].arrivalMs - frames[i - 1].arrivalMs - (clock[i] - clock[i - 1]) as real / 90.0;
    if d >= 0.0 then d else -d
  }

  lemma ErrorIsTrue(frames: seq<Frame>, clock: seq<int>, i: nat)
    requires 0 < i < |frames| && Carries(frames, clock)
    ensures SignedDelta(frames[i].rtpTs, frames[i - 1].rtpTs) == clock[i] - clock[i - 1]
    ensures PacingError(frames[i], frames[i - 1]) == TrueError(frames, clock, i)
  {
    DeltaIsExactIff(clock[i - 1], clock[i]);
  }

  ghost function TrueErrors(frames: seq<Frame>, clock: seq<int>, pairs: seq<nat>): seq<real>
    requires |frames| == |clock| && forall j :: 0 <= j < |pairs| ==> 0 < pairs[j] < |clock|
  {
    seq(|pairs|, j requires 0 <= j < |pairs| => TrueError(frames, clock, pairs[j]))
  }

  lemma ErrorsOfPrefix(frames: seq<Frame>, clock: seq<int>, n: nat, pairs: seq<nat>)
    requires n <= |frames| == |clock| && forall j :: 0 <= j < |pairs| ==> 0 < pairs[j] < n
    ensures TrueErrors(frames[..n], clock[..n], pairs) == TrueErrors(frames, clock, pairs)
  {
  }

  lemma OneMoreError(frames: seq<Frame>, clock: seq<int>, pairs: seq<nat>, i: nat)
    requires |frames| == |clock| && (forall j :: 0 <= j < |pairs| ==> 0 < pairs[j] < |clock|) && 0 < i < |clock|
    ensures TrueErrors(frames, clock, pairs + [i]) == TrueErrors(frames, clock, pairs) + [TrueError(frames, clock, i)]
  {
  }

  /** For every series of frames that carries a true clock: the pacing errors are the true errors of the neighbours that
      are in media order; no reordered pair is among them. */
  lemma {:induction false} PacingSkipsReordered(frames: seq<Frame>, clock: seq<int>)
    requires Carries(frames, clock)
    ensures PacingErrors(frames) == TrueErrors(frames, clock, InOrder(clock))
  {
    var n := |frames|;
    if n >= 2 {
      var before := InOrder(clock[..n - 1]);
      PacingSkipsReordered(frames[..n - 1], clock[..n - 1]);
      ErrorsOfPrefix(frames, clock, n - 1, before);
      ErrorIsTrue(frames, clock, n - 1);
      OneMoreError(frames, clock, before, n - 1);
    }
  }
}
