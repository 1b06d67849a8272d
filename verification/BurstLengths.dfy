/** When a finished burst can be longer than the longest burst, its tail and one frame together: exactly when the
    pre-length alone is as long, or reaches back beyond the history by more than the tail; and a run in which a burst
    ends. */
module BurstLengths {

  import opened BurstTracker
  import opened BurstInvariants
  import opened BurstOnset

  // ---- One burst, held through silent frames ----

  /** The burst of the first loud frame. */
  function First(c: Config, bin: nat): Burst {
    NewBurst(c, 0, c.history * c.fft, Peak(bin, c.threshold + 1.0))
  }

  /** Whether the tail of the first burst is over in the n-th frame after the history was full. */
  predicate Done(c: Config, bin: nat, n: nat) {
    Over(c, First(c, bin), (c.history + n) * c.fft)
  }

  /** The state n frames after the history was full: the burst of the first of them is still active. */
  function Holding(c: Config, bin: nat, n: nat): (s: State)
    requires ConfigOk(c) && Eligible(c, bin)
    ensures Shape(c, s) && s.noise.primed
  {
    State(Tracker([First(c, bin)], [], [], 10, MaskBurst(c, Clear(c), bin)), Quiet(c, c.history).noise,
          (c.history + n) * c.fft, 0)
  }

  function Silence(c: Config): (r: seq<real>)
    ensures |r| == c.fft
  {
    seq(c.fft, b => 0.0)
  }

  lemma QuietNoise(c: Config)
    requires ConfigOk(c)
    ensures var noise := Quiet(c, c.history).noise;
            NoiseOk(c, noise) && forall b :: 0 <= b < c.fft ==> noise.sum[b] == c.history as real
  {
    forall b | 0 <= b < c.fft ensures Quiet(c, c.history).noise.sum[b] == c.history as real {
      QuietSum(c, c.history, b);
    }
  }

  /** A frame without peaks, when there is one burst: it goes on or ends. */
  lemma OneBurst(c: Config, s: State, mag: seq<real>, b: Burst)
    requires Shape(c, s) && |mag| == c.fft && s.noise.primed && |s.tracker.bursts| == 1
    requires Touched(c, s.tracker.bursts, Relative(mag, s.noise.sum), s.index) == [b]
    ensures Over(c, b, s.index) ==> Frame(c, s, mag, []).tracker.finished == s.tracker.finished + [b.(stop := s.index)]
    ensures !Over(c, b, s.index) ==>
              var t := s.tracker.(bursts := [b], mask := MaskBurst(c, Clear(c), b.bin));
              Frame(c, s, mag, []) == State(t, s.noise, s.index + c.fft, if s.squelch > 0 then s.squelch - 1 else 0)
  {
    hide Relative, Updated, MaskBurst, Touched, Loud;
    var touched, index := [b], s.index;
    assert Kept(c, touched, index, 0) == [] && Ended(c, touched, index, 0) == [];
    var p := Pruned(c, s.tracker, Relative(mag, s.noise.sum), index);
    if Over(c, b, index) {
      assert p.bursts == [] && p.finished == s.tracker.finished + [b.(stop := index)];
    } else {
      assert p.bursts == [b] && p.finished == s.tracker.finished;
      assert Masked(c, [b], 0) == Clear(c);
      assert !AnyLong(c, touched);
    }
  }

  /** A frame without bursts that has one peak. */
  lemma NewOnly(c: Config, s: State, mag: seq<real>, peak: Peak)
    requires Shape(c, s) && |mag| == c.fft && s.noise.primed && s.tracker == Start(c).tracker && s.squelch == 0
    requires Eligible(c, peak.bin)
    ensures PeakBins(c, [peak])
    ensures var t := Tracker([NewBurst(c, 0, s.index, peak)], [], [], 10, MaskBurst(c, Clear(c), peak.bin));
            Frame(c, s, mag, [peak]) == State(t, s.noise, s.index + c.fft, 0)
  {
    hide Relative, Updated, MaskBurst, Loud;
    var p := Pruned(c, s.tracker, Relative(mag, s.noise.sum), s.index);
    assert p == s.tracker;
    assert Created(c, p, s.index, [peak], 0) == p;
    assert !AnyLong(c, Touched(c, s.tracker.bursts, Relative(mag, s.noise.sum), s.index));
  }

  /** The first loud frame. */
  lemma SpikeHolds(c: Config, bin: nat)
    requires ConfigOk(c) && Eligible(c, bin)
    ensures IsStep(c, Quiet(c, c.history), Input(Spike(c, bin), [Peak(bin, c.threshold + 1.0)]), Holding(c, bin, 1))
  {
    hide Quiet, Frame, FrameOk, MaskBurst;
    SpikeOk(c, bin);
    NewOnly(c, Quiet(c, c.history), Spike(c, bin), Peak(bin, c.threshold + 1.0));
    assert (c.history + 1) * c.fft == c.history * c.fft + c.fft;
  }

  /** In a frame whose only loud bin, if any, is that of the burst, there are no new peaks. */
  lemma HeldOk(c: Config, bin: nat, n: nat, mag: seq<real>, rel: seq<real>)
    requires ConfigOk(c) && Eligible(c, bin) && |mag| == c.fft && rel == Relative(mag, Holding(c, bin, n).noise.sum)
    requires forall b :: 0 <= b < c.fft && b != bin ==> rel[b] == 0.0
    ensures FrameOk(c, Holding(c, bin, n), mag, [])
  {
    hide Quiet, Relative, NoiseOk;
  }

  lemma SilentRelative(c: Config, sum: seq<real>)
    requires |sum| == c.fft
    ensures forall b :: 0 <= b < c.fft ==> Relative(Silence(c), sum)[b] == 0.0
  {
  }

  /** A silent frame does not touch the burst. */
  lemma SilentTouches(c: Config, bin: nat, n: nat)
    requires ConfigOk(c) && Eligible(c, bin)
    ensures var s := Holding(c, bin, n);
            FrameOk(c, s, Silence(c), []) &&
            Touched(c, s.tracker.bursts, Relative(Silence(c), s.noise.sum), s.index) == [First(c, bin)]
  {
    hide Quiet, Relative, Silence, FrameOk;
    var s := Holding(c, bin, n);
    SilentRelative(c, s.noise.sum);
    HeldOk(c, bin, n, Silence(c), Relative(Silence(c), s.noise.sum));
  }

  /** A silent frame leaves the burst as it was, while it is not over. */
  lemma SilentHolds(c: Config, bin: nat, n: nat)
    requires ConfigOk(c) && Eligible(c, bin) && !Done(c, bin, n)
    ensures IsStep(c, Holding(c, bin, n), Input(Silence(c), []), Holding(c, bin, n + 1))
  {
    hide Quiet, Relative, Over, Silence, Frame, FrameOk, MaskBurst, Touched;
    SilentTouches(c, bin, n);
    OneBurst(c, Holding(c, bin, n), Silence(c), First(c, bin));
    assert (c.history + n + 1) * c.fft == (c.history + n) * c.fft + c.fft;
  }

  /** A frame with the same loud bin again. */
  lemma LoudTouches(c: Config, bin: nat, n: nat)
    requires ConfigOk(c) && Eligible(c, bin)
    ensures var s := Holding(c, bin, n);
            FrameOk(c, s, Spike(c, bin), []) &&
            Touched(c, s.tracker.bursts, Relative(Spike(c, bin), s.noise.sum), s.index) ==
            [First(c, bin).(last := s.index)]
  {
    hide Quiet, Relative, Spike, FrameOk;
    var s := Holding(c, bin, n);
    QuietNoise(c);
    SpikeRelative(c, bin, s.noise.sum);
    HeldOk(c, bin, n, Spike(c, bin), Relative(Spike(c, bin), s.noise.sum));
  }

  // ---- Runs ----

  /** The burst has been held for n frames. */
  ghost predicate Held(c: Config, states: seq<State>, inputs: seq<Input>, bin: nat, n: nat) {
    && ConfigOk(c) && Eligible(c, bin) && IsRun(c, states, inputs) && |states| == c.history + n + 1
    && states[c.history + n] == Holding(c, bin, n)
  }

  lemma Extend(c: Config, states: seq<State>, inputs: seq<Input>, x: Input, s: State)
    requires IsRun(c, states, inputs) && IsStep(c, states[|states| - 1], x, s)
    ensures IsRun(c, states + [s], inputs + [x])
  {
    hide IsStep;
  }

  lemma {:induction false} QuietRun(c: Config, n: nat) returns (states: seq<State>, inputs: seq<Input>)
    requires ConfigOk(c) && n <= c.history
    ensures IsRun(c, states, inputs) && |states| == n + 1 && states[n] == Quiet(c, n)
  {
    hide IsStep, Quiet;
    if n == 0 {
      QuietStart(c);
      states, inputs := [Start(c)], [];
    } else {
      states, inputs := QuietRun(c, n - 1);
      QuietStep(c, n - 1);
      Extend(c, states, inputs, Input(Flat(c), []), Quiet(c, n));
      states, inputs := states + [Quiet(c, n)], inputs + [Input(Flat(c), [])];
    }
  }

  /** It can be held for n frames if its tail is not over before. */
  lemma {:induction false} HoldingRun(c: Config, bin: nat, n: nat) returns (states: seq<State>, inputs: seq<Input>)
    requires ConfigOk(c) && Eligible(c, bin) && n > 0
    requires forall k :: 1 <= k < n ==> !Done(c, bin, k)
    ensures Held(c, states, inputs, bin, n)
  {
    hide IsRun, IsStep, Quiet, Done;
    var x, s: State;
    if n == 1 {
      states, inputs := QuietRun(c, c.history);
      SpikeHolds(c, bin);
      x := Input(Spike(c, bin), [Peak(bin, c.threshold + 1.0)]);
    } else {
      states, inputs := HoldingRun(c, bin, n - 1);
      SilentHolds(c, bin, n - 1);
      x := Input(Silence(c), []);
    }
    s := Holding(c, bin, n);
    Extend(c, states, inputs, x, s);
    states, inputs := states + [s], inputs + [x];
  }

  /** A run with a burst that is held and then heard once more, so that it is too long. */
  lemma LongRun(c: Config, bin: nat, n: nat) returns (states: seq<State>, inputs: seq<Input>)
    requires ConfigOk(c) && Eligible(c, bin) && n > 0 && n * c.fft + c.pre > c.maxLen
    requires forall k :: 1 <= k < n ==> !Done(c, bin, k)
    ensures IsRun(c, states, inputs) && |states| == c.history + n + 2
    ensures var f := states[c.history + n + 1].tracker.finished;
            |f| == 1 && f[0].stop - f[0].start == n * c.fft + c.pre
  {
    hide IsRun, Quiet, Over, Frame, FrameOk, Spike, Relative, Touched;
    states, inputs := HoldingRun(c, bin, n);
    var s := Holding(c, bin, n);
    var b := First(c, bin).(last := s.index);
    LoudTouches(c, bin, n);
    LastIsOver(c, bin, n);
    OneBurst(c, s, Spike(c, bin), b);
    var s' := Frame(c, s, Spike(c, bin), []);
    Extend(c, states, inputs, Input(Spike(c, bin), []), s');
    states, inputs := states + [s'], inputs + [Input(Spike(c, bin), [])];
  }

  lemma LastIsOver(c: Config, bin: nat, n: nat)
    requires ConfigOk(c) && n * c.fft + c.pre > c.maxLen
    ensures var index := (c.history + n) * c.fft; var b := First(c, bin).(last := index);
            index == c.history * c.fft + n * c.fft && Over(c, b, index) && index - b.start == n * c.fft + c.pre
  {
    assert (c.history + n) * c.fft == c.history * c.fft + n * c.fft;
  }

  ghost predicate AlwaysBounded(c: Config) {
    forall states: seq<State>, inputs: seq<Input>, n: nat ::
      IsRun(c, states, inputs) && n < |states| ==> AllBounded(c, states[n].tracker.finished)
  }

  /** When the pre-length is as long as the longest burst and its tail, the first burst that is heard twice is too
      long. */
  lemma LongPre(c: Config, bin: nat)
    requires ConfigOk(c) && Eligible(c, bin) && c.pre >= c.maxLen + c.post
    ensures !AlwaysBounded(c)
  {
    hide IsRun;
    var states, inputs := LongRun(c, bin, 1);
    NotBounded(c, states[c.history + 2].tracker.finished);
  }

  lemma LongEnough(m: nat, f: nat)
    requires f > 0
    ensures (m + 1) * f >= m + f
  {
    hide *;
    assert (m + 1) * f == m * f + f && m * f >= m;
  }

  lemma NeverDone(c: Config, bin: nat, n: nat)
    requires c.pre > c.history * c.fft + c.post
    ensures !Done(c, bin, n)
  {
  }

  /** When the end of its tail is before the first sample, a burst is not over until it is heard again, however late. */
  lemma LostTail(c: Config, bin: nat)
    requires ConfigOk(c) && Eligible(c, bin) && c.pre > c.history * c.fft + c.post
    ensures !AlwaysBounded(c)
  {
    hide IsRun, Done;
    var n := c.maxLen + c.post + 1;
    LongEnough(c.maxLen + c.post, c.fft);
    forall k | 1 <= k < n ensures !Done(c, bin, k) {
      NeverDone(c, bin, k);
    }
    var states, inputs := LongRun(c, bin, n);
    NotBounded(c, states[c.history + n + 1].tracker.finished);
  }

  lemma NotBounded(c: Config, f: seq<Burst>)
    requires |f| == 1 && f[0].stop - f[0].start >= c.maxLen + c.post + c.fft
    ensures !AllBounded(c, f)
  {
  }

  /** In every run every finished burst is bounded in length, if and only if the pre-length is less than the longest
      burst with its tail and not more than history and tail cover, or no bin is eligible. */
  lemma BoundedExactly(c: Config)
    requires ConfigOk(c)
    ensures AlwaysBounded(c) <==> Limited(c)
  {
    hide IsRun, AllBounded, Eligible;
    if Limited(c) {
      forall states: seq<State>, inputs: seq<Input>, n: nat | IsRun(c, states, inputs) && n < |states|
        ensures AllBounded(c, states[n].tracker.finished)
      {
        RunsAreTimely(c, states, inputs, n);
      }
    } else {
      var bin: nat :| Eligible(c, bin);
      if c.pre >= c.maxLen + c.post {
        LongPre(c, bin);
      } else {
        LostTail(c, bin);
      }
    }
  }

  // ---- A burst that ends ----

  /** The first frame in which it is. */
  lemma {:induction false} FirstDone(c: Config, bin: nat, most: nat) returns (n: nat)
    requires most > 0 && Done(c, bin, most)
    ensures 1 <= n <= most && Done(c, bin, n) && forall k :: 1 <= k < n ==> !Done(c, bin, k)
  {
    hide Done;
    if k :| 1 <= k < most && Done(c, bin, k) {
      n := FirstDone(c, bin, k);
    } else {
      n := most;
    }
  }

  lemma SomeDone(c: Config, bin: nat)
    requires ConfigOk(c) && c.pre <= c.history * c.fft + c.post
    ensures Done(c, bin, c.post + 1)
  {
    assert (c.history + c.post + 1) * c.fft == c.history * c.fft + c.post * c.fft + c.fft;
    assert c.post * c.fft >= c.post;
  }

  /** Whenever the tail of an early burst does not begin before the first sample, there is a run in whose last frame a
      burst ends. */
  lemma FinishingRun(c: Config, bin: nat) returns (states: seq<State>, inputs: seq<Input>)
    requires ConfigOk(c) && Eligible(c, bin) && c.pre <= c.history * c.fft + c.post
    ensures IsRun(c, states, inputs) && |states| >= 2
    ensures var last := states[|states| - 1];
            |last.tracker.finished| == 1 && last.tracker.finished[0].stop + c.fft == last.index
  {
    hide IsRun, Quiet, Over, Frame, FrameOk, Silence, Relative, Touched;
    SomeDone(c, bin);
    var n := FirstDone(c, bin, c.post + 1);
    states, inputs := HoldingRun(c, bin, n);
    var s := Holding(c, bin, n);
    SilentTouches(c, bin, n);
    OneBurst(c, s, Silence(c), First(c, bin));
    var s' := Frame(c, s, Silence(c), []);
    FrameIndex(c, s, Silence(c));
    Extend(c, states, inputs, Input(Silence(c), []), s');
    states, inputs := states + [s'], inputs + [Input(Silence(c), [])];
  }

  lemma FrameIndex(c: Config, s: State, mag: seq<real>)
    requires Shape(c, s) && |mag| == c.fft
    ensures Frame(c, s, mag, []).index == s.index + c.fft
  {
    hide Updated, Pruned, Created;
  }
}
