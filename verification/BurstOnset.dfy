/** When a burst can begin before the first sample: exactly when the pre-length is longer than the history covers and
    the spectrum has a bin at which bursts are looked for. */
module BurstOnset {

  import opened BurstTracker
  import opened BurstInvariants

  predicate AllBegun(bursts: seq<Burst>) {
    forall i :: 0 <= i < |bursts| ==> bursts[i].start >= 0
  }

  predicate Begun(t: Tracker) {
    AllBegun(t.bursts) && AllBegun(t.finished) && AllBegun(t.dropped)
  }

  // ---- No burst begins too early ----

  lemma {:induction false} SplitBegun(c: Config, bursts: seq<Burst>, index: nat, n: nat)
    requires n <= |bursts| && AllBegun(bursts)
    ensures AllBegun(Kept(c, bursts, index, n)) && AllBegun(Ended(c, bursts, index, n))
  {
    hide Over;
    if n > 0 {
      SplitBegun(c, bursts, index, n - 1);
    }
  }

  lemma {:induction false} OlderBegun(c: Config, bursts: seq<Burst>, index: nat, past: bool, n: nat)
    requires n <= |bursts| && AllBegun(bursts)
    ensures AllBegun(Older(c, bursts, index, past, n))
  {
    if n > 0 {
      OlderBegun(c, bursts, index, past, n - 1);
    }
  }

  lemma {:induction false} CreatedBegun(c: Config, t: Tracker, index: nat, peaks: seq<Peak>, n: nat)
    requires n <= |peaks| && PeakBins(c, peaks) && |t.mask| == c.fft && Begun(t) && (c.pre <= index || peaks == [])
    ensures Begun(Created(c, t, index, peaks, n))
  {
    hide MaskBurst;
    if n > 0 {
      CreatedBegun(c, t, index, peaks, n - 1);
    }
  }

  lemma PrunedBegun(c: Config, t: Tracker, rel: seq<real>, index: nat)
    requires |rel| == c.fft && InRange(c, t.bursts) && Begun(t)
    ensures Begun(Pruned(c, t, rel, index))
  {
    hide Loud, Masked, Over, Kept, Ended;
    var touched := Touched(c, t.bursts, rel, index);
    assert AllBegun(touched);
    SplitBegun(c, touched, index, |touched|);
  }

  lemma SquelchedBegun(c: Config, t: Tracker, index: nat)
    requires Begun(t)
    ensures Begun(Squelched(c, t, index))
  {
    hide Older;
    OlderBegun(c, t.bursts, index, true, |t.bursts|);
    OlderBegun(c, t.bursts, index, false, |t.bursts|);
  }

  lemma FrameKeepsBegun(c: Config, s: State, mag: seq<real>, peaks: seq<Peak>)
    requires Shape(c, s) && |mag| == c.fft && PeakBins(c, peaks) && Begun(s.tracker)
    requires s.noise.primed ==> c.pre <= s.index || peaks == []
    ensures Begun(Frame(c, s, mag, peaks).tracker)
  {
    hide Begun, Pruned, Created, Relative, Updated, Squelched;
    if s.noise.primed {
      var rel := Relative(mag, s.noise.sum);
      PrunedBegun(c, s.tracker, rel, s.index);
      CreatedBegun(c, Pruned(c, s.tracker, rel, s.index), s.index, peaks, |peaks|);
      SquelchedBegun(c, Candidates(c, s, mag, peaks), s.index);
    }
  }

  /** The pre-length fits the history, or there is no bin to look at. */
  ghost predicate Harmless(c: Config) {
    c.pre <= c.history * c.fft || forall b: nat :: !Eligible(c, b)
  }

  lemma {:induction false} RunsBegin(c: Config, states: seq<State>, inputs: seq<Input>, n: nat)
    requires ConfigOk(c) && Harmless(c) && IsRun(c, states, inputs) && n < |states|
    ensures Begun(states[n].tracker)
  {
    hide Frame, Begun, FrameOk;
    if n == 0 {
      StartBegun(c);
    } else {
      RunsBegin(c, states, inputs, n - 1);
      var s, x := states[n - 1], inputs[n - 1];
      assert IsStep(c, s, x, states[n - 1 + 1]);
      RunKeepsInv(c, states, inputs, n - 1);
      FrameParts(c, s, x.mag, x.peaks);
      FrameKeepsBegun(c, s, x.mag, x.peaks);
    }
  }

  lemma StartBegun(c: Config)
    requires c.history > 0
    ensures Begun(Start(c).tracker)
  {
  }

  lemma FrameParts(c: Config, s: State, mag: seq<real>, peaks: seq<Peak>)
    requires FrameOk(c, s, mag, peaks) && Inv(c, s) && Harmless(c)
    ensures Shape(c, s) && |mag| == c.fft && PeakBins(c, peaks) && (s.noise.primed ==> c.pre <= s.index || peaks == [])
  {
    hide PeaksOk, Apart, SumOk, Accounted, Ordered, NoiseOk;
    if peaks != [] {
      assert Eligible(c, peaks[0].bin);
    }
  }

  // ---- Starts and lengths together ----

  /** The invariant of the detector, with no burst from before the first sample and every finished one bounded. */
  ghost predicate Sound(c: Config, s: State) {
    Limited(c) && Harmless(c) && Inv(c, s) && InTime(c, s) && Begun(s.tracker)
  }

  lemma FrameKeepsSound(c: Config, s: State, mag: seq<real>, peaks: seq<Peak>)
    requires Sound(c, s) && FrameOk(c, s, mag, peaks)
    ensures Sound(c, Frame(c, s, mag, peaks))
  {
    hide Inv, InTime, Begun, Frame, FrameOk, Limited, Harmless;
    FrameKeepsInv(c, s, mag, peaks);
    FrameKeepsInTime(c, s, mag, peaks);
    FrameParts(c, s, mag, peaks);
    FrameKeepsBegun(c, s, mag, peaks);
  }

  lemma StartSound(c: Config)
    requires ConfigOk(c) && Limited(c) && Harmless(c)
    ensures Sound(c, Start(c))
  {
    hide Inv, InTime, Begun, Limited, Harmless;
    StartInv(c);
    StartInTime(c);
    StartBegun(c);
  }

  // ---- A burst that begins too early ----

  function Flat(c: Config): seq<real> {
    seq(c.fft, b => 1.0)
  }

  /** The state after n frames that are the same everywhere. */
  function Quiet(c: Config, n: nat): (s: State)
    requires ConfigOk(c) && n <= c.history
    ensures Shape(c, s) && s.tracker == Start(c).tracker && s.index == n * c.fft && s.squelch == 0
    ensures s.noise.primed == (n == c.history) && (n < c.history ==> s.noise.at == n)
  {
    if n == 0 then Start(c)
    else
      assert n * c.fft == (n - 1) * c.fft + c.fft;
      Frame(c, Quiet(c, n - 1), Flat(c), [])
  }

  lemma {:induction false} QuietSum(c: Config, n: nat, b: nat)
    requires ConfigOk(c) && n <= c.history && b < c.fft
    ensures Quiet(c, n).noise.sum[b] == n as real
    ensures forall k :: n <= k < c.history ==> Quiet(c, n).noise.history[k][b] == 0.0
  {
    if n > 0 {
      QuietSum(c, n - 1, b);
    }
  }

  /** A frame with one loud bin. */
  function Spike(c: Config, bin: nat): (r: seq<real>)
    ensures |r| == c.fft
  {
    seq(c.fft, b => if b == bin then (c.threshold + 1.0) * (c.history as real) else 0.0)
  }

  lemma SpikeRelative(c: Config, bin: nat, sum: seq<real>)
    requires ConfigOk(c) && bin < c.fft && |sum| == c.fft && forall b :: 0 <= b < c.fft ==> sum[b] == c.history as real
    ensures var rel := Relative(Spike(c, bin), sum);
            forall b :: 0 <= b < c.fft ==> rel[b] == if b == bin then c.threshold + 1.0 else 0.0
  {
    Cancel(c.threshold + 1.0, c.history as real);
  }

  lemma Cancel(x: real, h: real)
    requires h > 0.0
    ensures x * h / h == x
  {
    var q := x * h / h;
    assert q * h == x * h;
    assert (q - x) * h == 0.0;
  }

  lemma SpikeOk(c: Config, bin: nat)
    requires ConfigOk(c) && Eligible(c, bin)
    ensures FrameOk(c, Quiet(c, c.history), Spike(c, bin), [Peak(bin, c.threshold + 1.0)])
  {
    var s := Quiet(c, c.history);
    forall b | 0 <= b < c.fft ensures s.noise.sum[b] == c.history as real {
      QuietSum(c, c.history, b);
    }
    SpikeRelative(c, bin, s.noise.sum);
    hide Quiet, Spike, Relative, NoiseOk;
  }

  /** The burst found in it begins that many samples before the frame. */
  lemma SpikeBegins(c: Config, bin: nat)
    requires ConfigOk(c) && Eligible(c, bin)
    ensures var peaks := [Peak(bin, c.threshold + 1.0)];
            PeakBins(c, peaks) &&
            var t := Frame(c, Quiet(c, c.history), Spike(c, bin), peaks).tracker;
            |t.bursts| == 1 && t.bursts[0].start == c.history * c.fft - c.pre
  {
    var s, peaks := Quiet(c, c.history), [Peak(bin, c.threshold + 1.0)];
    var p := Pruned(c, s.tracker, Relative(Spike(c, bin), s.noise.sum), s.index);
    assert p.bursts == [] && p.mask == Clear(c);
    hide Quiet, Spike, Relative, NoiseOk, Updated, MaskBurst, Pruned;
    assert Created(c, p, s.index, peaks, 0) == p;
  }

  /** A run that goes quietly until the history is full, and then hears one bin. */
  lemma EarlyRun(c: Config, bin: nat) returns (states: seq<State>, inputs: seq<Input>)
    requires ConfigOk(c) && Eligible(c, bin)
    ensures IsRun(c, states, inputs) && |states| == c.history + 2
    ensures var t := states[c.history + 1].tracker; |t.bursts| == 1 && t.bursts[0].start == c.history * c.fft - c.pre
  {
    hide Frame;
    var h, peaks := c.history, [Peak(bin, c.threshold + 1.0)];
    SpikeOk(c, bin);
    SpikeBegins(c, bin);
    states := seq(h + 1, n requires 0 <= n <= h => Quiet(c, n)) + [Frame(c, Quiet(c, h), Spike(c, bin), peaks)];
    inputs := seq(h, n => Input(Flat(c), [])) + [Input(Spike(c, bin), peaks)];
    forall i | 0 <= i < |inputs| ensures IsStep(c, states[i], inputs[i], states[i + 1]) {
      if i < h {
        QuietStep(c, i);
      }
    }
    QuietStart(c);
  }

  lemma QuietStart(c: Config)
    requires ConfigOk(c)
    ensures Quiet(c, 0) == Start(c)
  {
  }

  lemma QuietStep(c: Config, n: nat)
    requires ConfigOk(c) && n < c.history
    ensures IsStep(c, Quiet(c, n), Input(Flat(c), []), Quiet(c, n + 1))
  {
    hide Frame;
  }

  ghost predicate AlwaysBegun(c: Config) {
    forall states: seq<State>, inputs: seq<Input>, n: nat ::
      IsRun(c, states, inputs) && n < |states| ==> Begun(states[n].tracker)
  }

  /** In no run a burst begins before the first sample, if and only if the pre-length is not longer than the history
      covers or no bin is eligible. */
  lemma BeginsExactly(c: Config)
    requires ConfigOk(c)
    ensures AlwaysBegun(c) <==> Harmless(c)
  {
    hide IsRun, Begun, Eligible;
    if Harmless(c) {
      forall states: seq<State>, inputs: seq<Input>, n: nat | IsRun(c, states, inputs) && n < |states|
        ensures Begun(states[n].tracker)
      {
        RunsBegin(c, states, inputs, n);
      }
    } else {
      var bin: nat :| Eligible(c, bin);
      var states, inputs := EarlyRun(c, bin);
      NotBegun(states[c.history + 1].tracker);
    }
  }

  lemma NotBegun(t: Tracker)
    requires |t.bursts| == 1 && t.bursts[0].start < 0
    ensures !Begun(t)
  {
  }
}
