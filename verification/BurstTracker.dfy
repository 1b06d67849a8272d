/** The burst detector's state machine (burst_detect.c) as functions of its state and of one frame of magnitudes. */
module BurstTracker {

  /** Lengths in samples, widths in bins. */
  datatype Config = Config(fft: nat, width: nat, pre: nat, post: nat, maxLen: nat, maxBursts: int, history: nat,
                           threshold: real)

  predicate ConfigOk(c: Config) {
    c.fft > 0 && c.history > 0 && c.maxLen > 0 && c.threshold >= 0.0
  }

  datatype Burst = Burst(id: nat, start: int, stop: int, last: int, bin: nat, strength: real)

  datatype Peak = Peak(bin: nat, strength: real)

  /** The lists of bursts: active, finished (in the order in which they ended) and dropped by the squelch; and which
      bins are masked. */
  datatype Tracker = Tracker(bursts: seq<Burst>, finished: seq<Burst>, dropped: seq<Burst>, nextId: nat,
                             mask: seq<bool>)

  /** The noise floor: a circular history of frames and its sum per bin. */
  datatype Noise = Noise(history: seq<seq<real>>, sum: seq<real>, at: nat, primed: bool)

  datatype State = State(tracker: Tracker, noise: Noise, index: nat, squelch: nat)

  // ---- Masks ----

  function Half(c: Config): nat {
    c.width / 2
  }

  /** The bin lies in the window around the centre. */
  predicate Covers(c: Config, centre: nat, bin: nat) {
    centre - Half(c) <= bin <= centre + Half(c)
  }

  ghost predicate Covered(c: Config, bursts: seq<Burst>, bin: nat) {
    exists i :: 0 <= i < |bursts| && Covers(c, bursts[i].bin, bin)
  }

  function MaskBurst(c: Config, mask: seq<bool>, centre: nat): (r: seq<bool>)
    ensures |r| == |mask|
  {
    seq(|mask|, b requires 0 <= b < |mask| => mask[b] || Covers(c, centre, b))
  }

  /** A bin is masked exactly when the window of an active burst covers it. */
  ghost predicate MaskOk(c: Config, t: Tracker) {
    |t.mask| == c.fft && forall b: nat :: b < c.fft ==> (t.mask[b] <==> Covered(c, t.bursts, b))
  }

  function Clear(c: Config): seq<bool> {
    seq(c.fft, b => false)
  }

  /** The mask of the first n bursts, built one window at a time. */
  function Masked(c: Config, bursts: seq<Burst>, n: nat): (r: seq<bool>)
    requires n <= |bursts|
    ensures |r| == c.fft
  {
    if n == 0 then Clear(c) else MaskBurst(c, Masked(c, bursts, n - 1), bursts[n - 1].bin)
  }

  lemma {:induction false} MaskedCovers(c: Config, bursts: seq<Burst>, n: nat, b: nat)
    requires n <= |bursts| && b < c.fft
    ensures Masked(c, bursts, n)[b] <==> Covered(c, bursts[..n], b)
  {
    if n > 0 {
      MaskedCovers(c, bursts, n - 1, b);
      CoveredMore(c, bursts[..n - 1], bursts[n - 1], b);
      assert bursts[..n] == bursts[..n - 1] + [bursts[n - 1]];
    }
  }

  lemma CoveredMore(c: Config, bursts: seq<Burst>, x: Burst, b: nat)
    ensures Covered(c, bursts + [x], b) <==> Covered(c, bursts, b) || Covers(c, x.bin, b)
  {
    if Covered(c, bursts, b) {
      var i :| 0 <= i < |bursts| && Covers(c, bursts[i].bin, b);
      assert (bursts + [x])[i] == bursts[i];
    }
    if Covers(c, x.bin, b) {
      assert (bursts + [x])[|bursts|] == x;
    }
  }

  // ---- The steps of a frame ----

  function Relative(mag: seq<real>, sum: seq<real>): (r: seq<real>)
    requires |mag| == |sum|
    ensures |r| == |mag|
  {
    seq(|mag|, b requires 0 <= b < |mag| => if sum[b] > 0.0 then mag[b] / sum[b] else 0.0)
  }

  /** The centre or a neighbour is above the threshold. */
  predicate Loud(c: Config, rel: seq<real>, bin: nat)
    requires bin < |rel|
  {
    || (bin > 0 && rel[bin - 1] > c.threshold)
    || rel[bin] > c.threshold
    || (bin < |rel| - 1 && rel[bin + 1] > c.threshold)
  }

  predicate InRange(c: Config, bursts: seq<Burst>) {
    forall i :: 0 <= i < |bursts| ==> Half(c) <= bursts[i].bin && bursts[i].bin + Half(c) < c.fft
  }

  function Touched(c: Config, bursts: seq<Burst>, rel: seq<real>, index: nat): (r: seq<Burst>)
    requires |rel| == c.fft && InRange(c, bursts)
    ensures |r| == |bursts|
  {
    seq(|bursts|, i requires 0 <= i < |bursts| =>
      if Loud(c, rel, bursts[i].bin) then bursts[i].(last := index) else bursts[i])
  }

  predicate TooLong(c: Config, b: Burst) {
    c.maxLen > 0 && b.last - b.start > c.maxLen
  }

  /** The positions are unsigned in the source: the end of the tail of a burst that began before the first sample
      wraps around, and is then not reached. */
  predicate Over(c: Config, b: Burst, index: nat) {
    0 <= b.last + c.post <= index || TooLong(c, b)
  }

  /** Of the first n bursts, those that go on. */
  function Kept(c: Config, bursts: seq<Burst>, index: nat, n: nat): (r: seq<Burst>)
    requires n <= |bursts|
    ensures |r| <= n
  {
    if n == 0 then []
    else Kept(c, bursts, index, n - 1) + if Over(c, bursts[n - 1], index) then [] else [bursts[n - 1]]
  }

  /** Of the first n bursts, those that end, stamped with the index. */
  function Ended(c: Config, bursts: seq<Burst>, index: nat, n: nat): (r: seq<Burst>)
    requires n <= |bursts|
    ensures |r| <= n
  {
    if n == 0 then []
    else Ended(c, bursts, index, n - 1) + if Over(c, bursts[n - 1], index) then [bursts[n - 1].(stop := index)] else []
  }

  /** The bins where peaks are looked for: half a window from the edges, and not near the centre of the spectrum. */
  predicate Eligible(c: Config, bin: nat) {
    Half(c) <= bin && bin + Half(c) < c.fft && !(c.fft / 2 - 3 <= bin <= c.fft / 2 + 3)
  }

  predicate IsPeak(c: Config, rel: seq<real>, mask: seq<bool>, p: Peak)
    requires |rel| == |mask| == c.fft
  {
    Eligible(c, p.bin) && !mask[p.bin] && rel[p.bin] > c.threshold && p.strength == rel[p.bin]
  }

  /** The peaks are those above the threshold outside the mask, each bin once, strongest first. */
  ghost predicate PeaksOk(c: Config, rel: seq<real>, mask: seq<bool>, peaks: seq<Peak>)
    requires |rel| == |mask| == c.fft
  {
    && (forall i :: 0 <= i < |peaks| ==> IsPeak(c, rel, mask, peaks[i]))
    && (forall i, j :: 0 <= i < j < |peaks| ==> peaks[i].bin != peaks[j].bin && peaks[i].strength >= peaks[j].strength)
    && (forall b: nat :: b < c.fft && IsPeak(c, rel, mask, Peak(b, rel[b])) ==> Peak(b, rel[b]) in peaks)
  }

  predicate PeakBins(c: Config, peaks: seq<Peak>) {
    forall i :: 0 <= i < |peaks| ==> Eligible(c, peaks[i].bin)
  }

  function NewBurst(c: Config, id: nat, index: nat, p: Peak): Burst {
    Burst(id, index - c.pre, 0, index - c.pre, p.bin, p.strength)
  }

  /** The tracker after the first n peaks. */
  function Created(c: Config, t: Tracker, index: nat, peaks: seq<Peak>, n: nat): (r: Tracker)
    requires n <= |peaks| && PeakBins(c, peaks) && |t.mask| == c.fft
    ensures |r.mask| == c.fft
  {
    if n == 0 then t
    else
      var s, p := Created(c, t, index, peaks, n - 1), peaks[n - 1];
      if s.mask[p.bin] then s
      else s.(bursts := s.bursts + [NewBurst(c, s.nextId, index, p)], nextId := s.nextId + 10,
              mask := MaskBurst(c, s.mask, p.bin))
  }

  predicate TooMany(c: Config, t: Tracker) {
    c.maxBursts > 0 && |t.bursts| > c.maxBursts
  }

  /** Of the first n bursts, those that were there before this frame (true) or were just created (false). */
  function Older(c: Config, bursts: seq<Burst>, index: nat, past: bool, n: nat): (r: seq<Burst>)
    requires n <= |bursts|
    ensures |r| <= n
  {
    if n == 0 then []
    else
      var b := bursts[n - 1];
      Older(c, bursts, index, past, n - 1) +
      if (b.start != index - c.pre) == past then [if past then b.(stop := index) else b] else []
  }

  function Squelched(c: Config, t: Tracker, index: nat): Tracker {
    Tracker([], t.finished + Older(c, t.bursts, index, true, |t.bursts|),
            t.dropped + Older(c, t.bursts, index, false, |t.bursts|), t.nextId, Clear(c))
  }

  // ---- The noise floor ----

  predicate NoiseOk(c: Config, n: Noise) {
    && |n.history| == c.history && |n.sum| == c.fft && n.at < c.history
    && (forall k :: 0 <= k < c.history ==> |n.history[k]| == c.fft)
  }

  function Updated(c: Config, n: Noise, mag: seq<real>): (r: Noise)
    requires NoiseOk(c, n) && |mag| == c.fft && c.history > 0
    ensures NoiseOk(c, r)
  {
    var sum := seq(c.fft, b requires 0 <= b < c.fft => n.sum[b] - n.history[n.at][b] + mag[b]);
    var last := n.at + 1 == c.history;
    Noise(n.history[n.at := mag], sum, if last then 0 else n.at + 1, n.primed || last)
  }

  function Reset(c: Config): (r: Noise)
    requires c.history > 0
    ensures NoiseOk(c, r)
  {
    Noise(seq(c.history, k => seq(c.fft, b => 0.0)), seq(c.fft, b => 0.0), 0, false)
  }

  // ---- One frame ----

  function AnyLong(c: Config, bursts: seq<Burst>): bool {
    exists i :: 0 <= i < |bursts| && TooLong(c, bursts[i])
  }

  /** After updating and deleting bursts: the tracker with its mask rebuilt. */
  function Pruned(c: Config, t: Tracker, rel: seq<real>, index: nat): (r: Tracker)
    requires |rel| == c.fft && InRange(c, t.bursts)
    ensures |r.mask| == c.fft
  {
    var touched := Touched(c, t.bursts, rel, index);
    var kept := Kept(c, touched, index, |touched|);
    Tracker(kept, t.finished + Ended(c, touched, index, |touched|), t.dropped, t.nextId, Masked(c, kept, |kept|))
  }

  /** A forced update of the noise floor while a burst is too long. */
  function Forced(c: Config, t: Tracker, n: Noise, rel: seq<real>, mag: seq<real>, index: nat): (r: Noise)
    requires |rel| == |mag| == c.fft && InRange(c, t.bursts) && NoiseOk(c, n) && c.history > 0
    ensures NoiseOk(c, r)
  {
    if AnyLong(c, Touched(c, t.bursts, rel, index)) then Updated(c, n, mag) else n
  }

  predicate Shape(c: Config, s: State) {
    ConfigOk(c) && NoiseOk(c, s.noise) && |s.tracker.mask| == c.fft && InRange(c, s.tracker.bursts)
  }

  ghost predicate FrameOk(c: Config, s: State, mag: seq<real>, peaks: seq<Peak>) {
    && Shape(c, s) && |mag| == c.fft && PeakBins(c, peaks)
    && (s.noise.primed ==> PeaksOk(c, Relative(mag, s.noise.sum), s.tracker.mask, peaks))
  }

  /** The tracker when all peaks of a frame have been seen, before the squelch. */
  function Candidates(c: Config, s: State, mag: seq<real>, peaks: seq<Peak>): (r: Tracker)
    requires Shape(c, s) && |mag| == c.fft && PeakBins(c, peaks)
    ensures |r.mask| == c.fft
  {
    Created(c, Pruned(c, s.tracker, Relative(mag, s.noise.sum), s.index), s.index, peaks, |peaks|)
  }

  /** Detection in a primed frame: the new tracker, noise floor and squelch counter. */
  function Detected(c: Config, s: State, mag: seq<real>, peaks: seq<Peak>): (r: State)
    requires Shape(c, s) && |mag| == c.fft && PeakBins(c, peaks)
    ensures NoiseOk(c, r.noise) && r.index == s.index
  {
    var noise := Forced(c, s.tracker, s.noise, Relative(mag, s.noise.sum), mag, s.index);
    var t := Candidates(c, s, mag, peaks);
    if TooMany(c, t) then
      var n := s.squelch + 3;
      State(Squelched(c, t, s.index), if n >= 10 then Reset(c) else noise, s.index, if n >= 10 then 0 else n)
    else
      State(t, noise, s.index, if s.squelch > 0 then s.squelch - 1 else 0)
  }

  /** The end of a frame: the noise floor follows the magnitudes while there are no bursts. */
  function Finished(c: Config, s: State, mag: seq<real>): State
    requires NoiseOk(c, s.noise) && |mag| == c.fft && c.history > 0
  {
    s.(noise := if s.tracker.bursts == [] then Updated(c, s.noise, mag) else s.noise, index := s.index + c.fft)
  }

  /** process_fft_frame and the step to the next frame. */
  function Frame(c: Config, s: State, mag: seq<real>, peaks: seq<Peak>): State
    requires Shape(c, s) && |mag| == c.fft && PeakBins(c, peaks)
  {
    Finished(c, if s.noise.primed then Detected(c, s, mag, peaks) else s, mag)
  }

  function Start(c: Config): State
    requires c.history > 0
  {
    State(Tracker([], [], [], 0, Clear(c)), Reset(c), 0, 0)
  }
}
