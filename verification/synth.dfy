/**
 The output callback: the buffer is cut into frames of `channels` slots,
 a sample clock restarted at 0 is advanced before each frame, and every
 slot of the frame receives the converted average of one oscillator term
 per sounding voice (silence when no voice sounds).

 The oscillator (`sin` of the phase in radians) is a parameter `osc` applied
 to the phase measured in cycles, `clock * frequency / rate`; the conversion
 to the device's sample type is a parameter `convert`.
 */
module Synth {
  import opened Pitch
  import opened Voices
  import opened Arith

  type Pos = n: nat | n > 0 witness 1

  /** An oscillator whose output stays within [-1, 1], as `sin` does. */
  ghost predicate Bounded(osc: real -> real) {
    forall x :: -1.0 <= osc(x) <= 1.0
  }

  /** Some member of a non-empty set; which one does not matter. */
  ghost function Pick(s: set<nat>): (k: nat)
    requires s != {}
    ensures k in s
  {
    var k :| k in s; k
  }

  /** The sum of one term per member of a set. */
  ghost function SetSum(s: set<nat>, term: nat -> real): real
    decreases s
  {
    if s == {} then 0.0 else term(Pick(s)) + SetSum(s - {Pick(s)}, term)
  }

  /** The sum does not depend on the order the set is visited in: any member
      can be taken out first. */
  lemma {:induction false} SetSumRemove(s: set<nat>, term: nat -> real, x: nat)
    requires x in s
    ensures SetSum(s, term) == term(x) + SetSum(s - {x}, term)
    decreases s
  {
    var y := Pick(s);
    if y != x {
      SetSumRemove(s - {y}, term, x);
      SetSumRemove(s - {x}, term, y);
      assert s - {y} - {x} == s - {x} - {y};
    }
  }

  /** A sum of `|s|` terms, each within [-1, 1], lies within [-|s|, |s|]. */
  lemma {:induction false} SetSumBounds(s: set<nat>, term: nat -> real)
    requires forall k :: k in s ==> -1.0 <= term(k) <= 1.0
    ensures -(|s| as real) <= SetSum(s, term) <= |s| as real
    decreases s
  {
    if s != {} {
      var k := Pick(s);
      SetSumBounds(s - {k}, term);
    }
  }

  /** The oscillator term of scancode `k` at sample clock `clock`: the
      oscillator at `clock * table[k] / rate` cycles. A scancode without a
      table entry contributes nothing; callers only pass entries that exist. */
  function VoiceTerm(table: seq<real>, clock: nat, rate: Pos, osc: real -> real, k: nat): (t: real)
    ensures Bounded(osc) ==> -1.0 <= t <= 1.0
  {
    if k < |table| then osc((clock as real) * table[k] / (rate as real)) else 0.0
  }

  /** The oscillator terms of all scancodes at one sample clock. */
  function OscTerm(table: seq<real>, clock: nat, rate: Pos, osc: real -> real): nat -> real
  {
    (k: nat) => VoiceTerm(table, clock, rate, osc, k)
  }

  /** The floating-point mix of one frame: silence with no voice, otherwise
      the unweighted average of the voices' terms, which stays inside
      [-1, 1] when every term does. */
  ghost function Mix(voices: set<nat>, term: nat -> real): (r: real)
    ensures voices == {} ==> r == 0.0
    ensures (forall k :: k in voices ==> -1.0 <= term(k) <= 1.0) ==> -1.0 <= r <= 1.0
  {
    if voices == {} then 0.0
    else
      var n := |voices| as real;
      var sum := SetSum(voices, term);
      assert (forall k :: k in voices ==> -1.0 <= term(k) <= 1.0) ==> -1.0 <= sum / n <= 1.0 by {
        if forall k :: k in voices ==> -1.0 <= term(k) <= 1.0 {
          SetSumBounds(voices, term);
          assert -n <= sum <= n;
        }
      }
      sum / n
  }

  /** Two distinct voices mix to the average of their terms, not their sum. */
  lemma MixOfTwo(a: nat, b: nat, term: nat -> real)
    requires a != b
    ensures Mix({a, b}, term) == (term(a) + term(b)) / 2.0
  {
    SetSumRemove({a, b}, term, a);
    assert {a, b} - {a} == {b};
    SetSumRemove({b}, term, b);
    assert {b} - {b} == {};
  }

  /** The per-frame mixing body: reads the voice count, visits the voices in
      whatever order the set yields them, sums their oscillator terms and
      divides by the count. */
  method MixFrame(voices: set<nat>, table: seq<real>, clock: nat, rate: Pos, osc: real -> real)
    returns (value: real)
    requires forall k :: k in voices ==> k < |table|
    ensures value == Mix(voices, OscTerm(table, clock, rate, osc))
    ensures voices == {} ==> value == 0.0
    ensures Bounded(osc) ==> -1.0 <= value <= 1.0
  {
    ghost var term := OscTerm(table, clock, rate, osc);
    var count := |voices|;
    if count > 0 {
      var sum := 0.0;
      var rest := voices;
      while rest != {}
        invariant rest <= voices
        invariant sum + SetSum(rest, term) == SetSum(voices, term)
        decreases rest
      {
        var k :| k in rest;
        SetSumRemove(rest, term, k);
        var t := osc((clock as real) * table[k] / (rate as real));
        assert t == term(k);
        sum := sum + t;
        rest := rest - {k};
      }
      value := sum / (count as real);
    } else {
      value := 0.0;
    }
    if Bounded(osc) {
      forall k | k in voices
        ensures -1.0 <= term(k) <= 1.0
      {
        assert term(k) == VoiceTerm(table, clock, rate, osc, k);
      }
    }
  }

  /** Index of the frame (the chunk of `channels` slots) holding slot `i`. */
  function FrameOf(i: nat, channels: Pos): (j: nat)
    ensures j * channels <= i < j * channels + channels
  {
    i / channels
  }

  /** A slot between the bounds of chunk `j` belongs to frame `j`. */
  lemma FrameOfChunk(i: nat, j: nat, channels: Pos)
    requires j * channels <= i < j * channels + channels
    ensures FrameOf(i, channels) == j
  {
    TruncDivModUnique(i, channels, j, i - j * channels);
    TruncAgreesOnNonNegative(i, channels);
  }

  lemma MulMonotone(a: int, b: int, c: nat)
    requires a >= b
    ensures a * c >= b * c
  {
    assert a * c - b * c == (a - b) * c;
  }

  /** Number of frames in a buffer of `len` slots: `len / channels` rounded
      up, the last frame possibly short; every slot falls in one of them. */
  function NumFrames(len: nat, channels: Pos): (n: nat)
    ensures n * channels >= len
    ensures n > 0 ==> (n - 1) * channels < len
    ensures forall i :: 0 <= i < len ==> FrameOf(i, channels) < n
  {
    var n := (len + channels - 1) / channels;
    assert n * channels <= len + channels - 1 < n * channels + channels;
    assert forall i :: 0 <= i < len ==> FrameOf(i, channels) < n by {
      forall i | 0 <= i < len
        ensures FrameOf(i, channels) < n
      {
        var f := FrameOf(i, channels);
        if f >= n {
          MulMonotone(f, n, channels);
        }
      }
    }
    n
  }

  /** The sample clock used for frame `j` of a callback: the clock restarts
      at 0 on every callback and is advanced before its first use. */
  function FrameClock(j: nat, rate: Pos): (c: nat)
    ensures c < rate
    ensures j + 1 < rate ==> c == j + 1
    ensures j + 1 == rate ==> c == 0
  {
    (j + 1) % rate
  }

  /** Advancing the clock modulo the rate keeps it equal to the frame count
      modulo the rate. */
  lemma ClockStep(j: nat, rate: Pos)
    ensures (j % rate + 1) % rate == (j + 1) % rate
  {
    var q, m := j / rate, j % rate;
    assert j == rate * q + m;
    if m + 1 < rate {
      ModOfWitness(j + 1, rate, q, m + 1);
      ModOfWitness(m + 1, rate, 0, m + 1);
    } else {
      assert j + 1 == rate * (q + 1);
      ModOfWitness(j + 1, rate, q + 1, 0);
      ModOfWitness(m + 1, rate, 1, 0);
    }
  }

  /** A quotient/remainder witness fixes Dafny's `%` on naturals. */
  lemma ModOfWitness(a: nat, b: Pos, q: int, r: int)
    requires a == b * q + r && 0 <= r < b
    ensures a % b == r
  {
    TruncDivModUnique(a, b, q, r);
    TruncAgreesOnNonNegative(a, b);
  }

  /** The mix that frame `j` of the buffer carries. */
  ghost function FrameMix(views: seq<set<nat>>, j: nat, table: seq<real>, rate: Pos, osc: real -> real): real
    requires j < |views|
  {
    Mix(views[j], OscTerm(table, FrameClock(j, rate), rate, osc))
  }

  /** The output callback on a buffer of `len` slots. `views[j]` is the voice
      set as frame `j` reads it (the receive loop may change it between
      frames). */
  method FillBuffer<T>(len: nat, channels: Pos, rate: Pos, views: seq<set<nat>>,
                       table: seq<real>, osc: real -> real, convert: real -> T)
    returns (data: seq<T>)
    requires |views| == NumFrames(len, channels)
    requires forall j :: 0 <= j < |views| ==> forall k :: k in views[j] ==> k < |table|
    ensures |data| == len
    ensures forall i :: 0 <= i < len ==>
      data[i] == convert(FrameMix(views, FrameOf(i, channels), table, rate, osc))
    ensures forall i, i' :: 0 <= i < len && 0 <= i' < len && FrameOf(i, channels) == FrameOf(i', channels) ==>
      data[i] == data[i']
    ensures forall i :: 0 <= i < len && views[FrameOf(i, channels)] == {} ==> data[i] == convert(0.0)
  {
    var frames := NumFrames(len, channels);
    data := [];
    var clock: nat := 0;
    var j := 0;
    while j < frames
      invariant 0 <= j <= frames
      invariant |data| == if j * channels <= len then j * channels else len
      invariant clock == j % rate
      invariant forall i :: 0 <= i < |data| ==>
        data[i] == convert(FrameMix(views, FrameOf(i, channels), table, rate, osc))
    {
      ClockStep(j, rate);
      clock := (clock + 1) % rate;
      var value := MixFrame(views[j], table, clock, rate, osc);
      var sample := convert(value);
      var end := if (j + 1) * channels <= len then (j + 1) * channels else len;
      MulMonotone(frames - 1, j, channels);
      assert j * channels < len;
      while |data| < end
        invariant j * channels <= |data| <= end
        invariant forall i :: 0 <= i < |data| ==>
          data[i] == convert(FrameMix(views, FrameOf(i, channels), table, rate, osc))
      {
        FrameOfChunk(|data|, j, channels);
        data := data + [sample];
      }
      j := j + 1;
    }
  }

  /** One callback run after the receive loop has drained every keyboard
      event admitted so far, starting from silence, with the pitch table the
      initialiser builds: every sounding voice has a table entry, so the
      lookups stay in bounds, and each slot carries the mix of exactly the
      held voices at the frequencies of their scancodes. */
  method RenderAfterEvents<T>(events: seq<KeyEvent>, len: nat, channels: Pos, rate: Pos,
                              osc: real -> real, convert: real -> T)
    returns (data: seq<T>)
    ensures |data| == len
    ensures forall i :: 0 <= i < len ==>
      data[i] == convert(Mix(ApplyAll({}, Enqueue(events)),
                             OscTerm(PitchTable(), FrameClock(FrameOf(i, channels), rate), rate, osc)))
  {
    var table := BuildKeyFrequencies();
    var held := DrainQueue({}, Enqueue(events));
    ghost var reached := ApplyAll({}, Enqueue(events));
    forall k
      ensures k in held <==> k in reached
    {
      ApplyAllHeld({}, Enqueue(events), k);
    }
    assert held == reached;
    ReachableVoicesInRange(events);
    var views := seq(NumFrames(len, channels), _ => held);
    data := FillBuffer(len, channels, rate, views, table, osc, convert);
  }
}
