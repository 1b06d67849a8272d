/** Feeding samples to the detector (burst_detector_feed in burst_detect.c): through the ring, frame by frame or in
    batches, and out again as the samples of finished bursts. */
module SampleFeed {

  import opened BurstTracker
  import I = BurstInvariants
  import O = BurstOnset
  import L = BurstLengths
  import D = Detector
  import R = SampleRing
  import opened Wrappers

  /** The magnitudes of a frame: window, transform and shift, of which nothing is assumed but the length. */
  ghost predicate Spectrum<T(!new)>(c: Config, mag: seq<T> -> seq<real>) {
    forall f: seq<T> :: |f| == c.fft ==> |mag(f)| == c.fft
  }

  /** s' follows from s by one frame with these magnitudes, for some order of equal peaks. */
  ghost predicate Steps(c: Config, s: State, mag: seq<real>, s': State) {
    exists peaks: seq<Peak> :: FrameOk(c, s, mag, peaks) && s' == Frame(c, s, mag, peaks)
  }

  /** s' follows from s by the frame that is the slice of the stream at the detector's position. */
  ghost predicate Next<T(!new)>(c: Config, s: State, mag: seq<T> -> seq<real>, stream: seq<T>, s': State) {
    s.index + c.fft <= |stream| && Steps(c, s, mag(stream[s.index..s.index + c.fft]), s')
  }

  /** The detector passes through these states, one frame after the other. */
  ghost predicate Path<T(!new)>(c: Config, states: seq<State>, mag: seq<T> -> seq<real>, stream: seq<T>) {
    states != [] && forall i :: 0 <= i < |states| - 1 ==> Next(c, states[i], mag, stream, states[i + 1])
  }

  lemma StepIndex(c: Config, s: State, mag: seq<real>, s': State)
    requires Steps(c, s, mag, s')
    ensures s'.index == s.index + c.fft
  {
    hide Updated, Created, Pruned, PeaksOk;
    var peaks: seq<Peak> :| FrameOk(c, s, mag, peaks) && s' == Frame(c, s, mag, peaks);
  }

  lemma StepSound(c: Config, s: State, mag: seq<real>, s': State)
    requires Steps(c, s, mag, s') && O.Sound(c, s)
    ensures O.Sound(c, s')
  {
    hide O.Sound, Frame;
    var peaks: seq<Peak> :| FrameOk(c, s, mag, peaks) && s' == Frame(c, s, mag, peaks);
    O.FrameKeepsSound(c, s, mag, peaks);
  }

  /** The i-th frame on a path is at the position i frames after the first. */
  lemma {:induction false} PathIndex<T(!new)>(c: Config, states: seq<State>, mag: seq<T> -> seq<real>, stream: seq<T>,
                                       i: nat)
    requires Path(c, states, mag, stream) && i < |states|
    ensures states[i].index == states[0].index + i * c.fft
  {
    hide Steps;
    if i > 0 {
      PathIndex(c, states, mag, stream, i - 1);
      assert Next(c, states[i - 1], mag, stream, states[i - 1 + 1]);
      StepIndex(c, states[i - 1], mag(stream[states[i - 1].index..states[i - 1].index + c.fft]), states[i]);
      assert i * c.fft == (i - 1) * c.fft + c.fft;
    }
  }

  lemma {:induction false} PathSound<T(!new)>(c: Config, states: seq<State>, mag: seq<T> -> seq<real>, stream: seq<T>,
                                       i: nat)
    requires Path(c, states, mag, stream) && i < |states| && O.Sound(c, states[0])
    ensures O.Sound(c, states[i])
  {
    hide Steps, O.Sound;
    if i > 0 {
      PathSound(c, states, mag, stream, i - 1);
      assert Next(c, states[i - 1], mag, stream, states[i - 1 + 1]);
      StepSound(c, states[i - 1], mag(stream[states[i - 1].index..states[i - 1].index + c.fft]), states[i]);
    }
  }

  lemma PathMore<T(!new)>(c: Config, states: seq<State>, mag: seq<T> -> seq<real>, stream: seq<T>, s: State)
    requires Path(c, states, mag, stream) && Next(c, states[|states| - 1], mag, stream, s)
    ensures Path(c, states + [s], mag, stream)
  {
    hide Next;
  }

  /** The burst began with the stream and is bounded in length. */
  predicate Proper(c: Config, b: Burst) {
    b.start >= 0 && I.Bounded(c, b)
  }

  predicate AllProper(c: Config, bursts: seq<Burst>) {
    forall i :: 0 <= i < |bursts| ==> Proper(c, bursts[i])
  }

  /** The longest request for a burst's samples fits the ring. */
  lemma RequestFits(c: Config, b: Burst, size: nat, oldest: nat)
    requires Proper(c, b) && oldest >= b.start
    requires var least := c.maxLen + c.post + c.pre; size == least + least / 4 && c.fft <= least / 4
    ensures b.stop + c.pre - oldest <= size
  {
  }

  datatype Emission<T> = Emission(burst: Burst, samples: seq<T>)

  class Feed<T(0,!new)> {
    const c: Config
    const ring: R.Ring<T>
    const detector: D.BurstDetector

    ghost predicate Valid()
      reads this, ring, ring.buf, detector
    {
      && ring.Valid() && detector.Valid() && detector.c == c
      && O.Sound(c, detector.Abstract())
      && detector.index <= ring.count < detector.index + c.fft
      && var least := c.maxLen + c.post + c.pre;
         ring.size == least + least / 4 && c.fft <= least / 4
    }

    /** Between two feeds: every finished burst has been handed out. */
    ghost predicate Ready()
      reads this, ring, ring.buf, detector
    {
      Valid() && detector.gone == []
    }

    constructor (c: Config)
      requires ConfigOk(c) && I.Limited(c) && O.Harmless(c) && c.fft <= (c.maxLen + c.post + c.pre) / 4
      ensures this.c == c && Ready() && ring.stream == [] && detector.Abstract() == Start(c)
      ensures var least := c.maxLen + c.post + c.pre; ring.size == least + least / 4
      ensures fresh(ring) && fresh(ring.buf) && fresh(detector)
    {
      this.c := c;
      var least := c.maxLen + c.post + c.pre;
      ring := new R.Ring<T>(least + least / 4);
      detector := new D.BurstDetector(c);
      O.StartSound(c);
    }

    /** One frame at the detector's position. */
    method OneFrame(mag: seq<T> -> seq<real>)
      requires ring.Valid() && detector.Valid() && detector.c == c && Spectrum(c, mag)
      requires ring.count - ring.size <= detector.index && detector.index + c.fft <= ring.count && c.fft <= ring.size
      modifies detector
      ensures detector.Valid() && Next(c, old(detector.Abstract()), mag, ring.stream, detector.Abstract())
      ensures detector.index == old(detector.index) + c.fft && detector.emitted == old(detector.emitted)
    {
      hide Frame, FrameOk, Shape;
      var frame := ring.Frame(detector.index, c.fft);
      ghost var s := detector.Abstract();
      var seen := detector.ProcessFrame(mag(frame));
      assert Steps(c, s, mag(frame), detector.Abstract());
      StepIndex(c, s, mag(frame), detector.Abstract());
    }

    /** The one-frame path. */
    method Process(mag: seq<T> -> seq<real>) returns (ghost states: seq<State>)
      requires ring.Valid() && detector.Valid() && detector.c == c && Spectrum(c, mag)
      requires ring.count - ring.size <= detector.index && c.fft <= ring.size
      modifies detector
      ensures detector.Valid() && states != [] && Path(c, states, mag, ring.stream)
      ensures states[0] == old(detector.Abstract()) && states[|states| - 1] == detector.Abstract()
      ensures ring.count < detector.index + c.fft && detector.emitted == old(detector.emitted)
    {
      hide Next, Spectrum;
      states := [detector.Abstract()];
      while detector.index + c.fft <= ring.count
        invariant detector.Valid() && ring.Valid() && old(detector.index) <= detector.index
        invariant detector.emitted == old(detector.emitted)
        invariant Path(c, states, mag, ring.stream) && states[0] == old(detector.Abstract()) &&
                  states[|states| - 1] == detector.Abstract()
        decreases ring.count - detector.index
      {
        OneFrame(mag);
        PathMore(c, states, mag, ring.stream, detector.Abstract());
        states := states + [detector.Abstract()];
      }
    }

    // ---- Batches ----

    /** Frames collected for one dispatch are the next slices of the stream. */
    ghost predicate Batch(frames: seq<seq<T>>)
      reads this, ring, detector
    {
      forall i :: 0 <= i < |frames| ==>
        detector.index + i * c.fft + c.fft <= |ring.stream| &&
        frames[i] == ring.stream[detector.index + i * c.fft..detector.index + i * c.fft + c.fft]
    }

    /** gpu_flush_batch, when the transform succeeds: the collected frames go through the detector one by one. */
    method Flush(frames: seq<seq<T>>, mag: seq<T> -> seq<real>) returns (ghost states: seq<State>)
      requires ring.Valid() && detector.Valid() && detector.c == c && Spectrum(c, mag) && Batch(frames)
      modifies detector
      ensures states != [] && Path(c, states, mag, ring.stream)
      ensures detector.Valid() && detector.index == old(detector.index) + |frames| * c.fft
      ensures states[0] == old(detector.Abstract()) && states[|states| - 1] == detector.Abstract()
      ensures detector.emitted == old(detector.emitted)
    {
      hide Frame, FrameOk, Shape, Next;
      states := [detector.Abstract()];
      ghost var first := detector.index;
      for i := 0 to |frames|
        invariant detector.Valid() && detector.index == first + i * c.fft && detector.emitted == old(detector.emitted)
        invariant Path(c, states, mag, ring.stream) && states[0] == old(detector.Abstract()) &&
                  states[|states| - 1] == detector.Abstract()
      {
        ghost var s := detector.Abstract();
        assert frames[i] == ring.stream[first + i * c.fft..first + i * c.fft + c.fft];
        var seen := detector.ProcessFrame(mag(frames[i]));
        NextOf(c, s, mag, ring.stream, seen, detector.Abstract());
        PathMore(c, states, mag, ring.stream, detector.Abstract());
        states := states + [detector.Abstract()];
        assert (i + 1) * c.fft == i * c.fft + c.fft;
      }
    }

    /** The batched path visits the same frames at the same positions as the one-frame path. */
    method ProcessBatched(mag: seq<T> -> seq<real>, batch: nat) returns (ghost states: seq<State>)
      requires ring.Valid() && detector.Valid() && detector.c == c && Spectrum(c, mag) && batch > 0 && c.fft > 0
      requires ring.count - ring.size <= detector.index && c.fft <= ring.size
      modifies detector
      ensures detector.Valid() && states != [] && Path(c, states, mag, ring.stream)
      ensures states[0] == old(detector.Abstract()) && states[|states| - 1] == detector.Abstract()
      ensures ring.count < detector.index + c.fft && detector.emitted == old(detector.emitted)
    {
      hide Next, Spectrum, Path, Batch;
      states := [detector.Abstract()];
      PathStart(c, detector.Abstract(), mag, ring.stream);
      var frames: seq<seq<T>> := [];
      BatchNone();
      var read := detector.index;
      while read + c.fft <= ring.count
        invariant detector.Valid() && ring.Valid() && Batch(frames) && read == detector.index + |frames| * c.fft
        invariant old(detector.index) <= detector.index <= read && detector.emitted == old(detector.emitted)
        invariant states != [] && Path(c, states, mag, ring.stream)
        invariant states[0] == old(detector.Abstract()) && states[|states| - 1] == detector.Abstract()
        decreases ring.count - read
      {
        var frame := ring.Frame(read, c.fft);
        BatchMore(frames, frame);
        frames := frames + [frame];
        read := read + c.fft;
        if |frames| >= batch {
          ghost var more := Flush(frames, mag);
          PathJoin(c, states, more, mag, ring.stream);
          states := states + more[1..];
          frames := [];
          BatchNone();
        }
      }
      ghost var more := Flush(frames, mag);
      PathJoin(c, states, more, mag, ring.stream);
      states := states + more[1..];
    }

    lemma BatchNone()
      ensures Batch([]) && 0 * c.fft == 0
    {
    }

    lemma BatchMore(frames: seq<seq<T>>, frame: seq<T>)
      requires Batch(frames) && detector.index + |frames| * c.fft + c.fft <= |ring.stream|
      requires var at := detector.index + |frames| * c.fft; frame == ring.stream[at..at + c.fft]
      ensures Batch(frames + [frame]) && |frames + [frame]| * c.fft == |frames| * c.fft + c.fft
    {
      Distribute(|frames|, 1, c.fft);
    }

    // ---- Emission ----

    /** The samples for a finished burst, from its start to its end and as many again as it was early: each is the
        latest that shares its slot, so those asked for if none was overwritten and all have arrived. */
    ghost predicate Answers(b: Burst, samples: seq<T>)
      requires ring.Valid() && b.start >= 0
      reads this, ring, ring.buf
    {
      var first := ring.Oldest(b.start);
      && |samples| == b.stop + c.pre - first
      && (ring.count - ring.size <= first && b.stop + c.pre <= ring.count ==>
        samples == ring.stream[first..b.stop + c.pre])
      && (forall i :: 0 <= i < |samples| && R.Latest(ring.count, ring.size, first + i).Some? ==>
            samples[i] == ring.stream[R.Latest(ring.count, ring.size, first + i).value])
    }

    ghost predicate Answered(e: Emission<T>)
      requires ring.Valid()
      reads this, ring, ring.buf
    {
      e.burst.start >= 0 && e.samples != [] && Answers(e.burst, e.samples)
    }

    /** Every position asked for with the burst is answered with itself. */
    ghost predicate Exact(b: Burst)
      requires ring.Valid() && b.start >= 0
      reads this, ring, ring.buf
    {
      forall q: nat :: ring.Oldest(b.start) <= q < b.stop + c.pre ==> R.Latest(ring.count, ring.size, q) == Some(q)
    }

    /** emit_gone_bursts: each finished burst with its samples, unless all of them have been overwritten. */
    method EmitGone() returns (out: seq<Emission<T>>)
      requires Valid()
      modifies detector`gone, detector`emitted
      ensures Valid() && detector.Abstract() == old(detector.Abstract()) && detector.gone == []
      ensures detector.emitted == old(detector.emitted + detector.gone) && AllProper(c, old(detector.gone))
      ensures forall k :: 0 <= k < |out| ==> Answered(out[k])
      ensures Bursts(out) == Wanted(c, old(detector.gone), |old(detector.gone)|, ring.start)
    {
      hide O.Sound, Answers, Wanted, Bursts;
      GoneBounded();
      out := Collect(detector.gone);
      detector.emitted := detector.emitted + detector.gone;
      detector.gone := [];
      assert detector.emitted + [] == old(detector.emitted + detector.gone);
    }

    method Collect(gone: seq<Burst>) returns (out: seq<Emission<T>>)
      requires ring.Valid() && AllProper(c, gone)
      requires var least := c.maxLen + c.post + c.pre; ring.size == least + least / 4 && c.fft <= least / 4
      ensures forall k :: 0 <= k < |out| ==> Answered(out[k])
      ensures Bursts(out) == Wanted(c, gone, |gone|, ring.start)
    {
      hide Answers, Bursts;
      out := [];
      NoBursts<T>();
      for i := 0 to |gone|
        invariant forall k :: 0 <= k < |out| ==> Answered(out[k])
        invariant Bursts(out) == Wanted(c, gone, i, ring.start)
      {
        var samples := Ask(gone[i]);
        if |samples| > 0 {
          BurstsMore(out, Emission(gone[i], samples));
          out := out + [Emission(gone[i], samples)];
        }
      }
    }

    /** The request for one burst. */
    method Ask(b: Burst) returns (samples: seq<T>)
      requires ring.Valid() && Proper(c, b)
      requires var least := c.maxLen + c.post + c.pre; ring.size == least + least / 4 && c.fft <= least / 4
      ensures |samples| > 0 <==> b.stop + c.pre > ring.start && b.stop + c.pre > b.start
      ensures |samples| > 0 ==> Answers(b, samples)
    {
      RequestFits(c, b, ring.size, ring.Oldest(b.start));
      samples := ring.Extract(b.start, b.stop + c.pre);
    }

    lemma GoneBounded()
      requires Valid()
      ensures AllProper(c, detector.gone)
    {
      forall i | 0 <= i < |detector.gone| ensures Proper(c, detector.gone[i]) {
        assert detector.Abstract().tracker.finished[|detector.emitted| + i] == detector.gone[i];
      }
    }

    /** How far a request reaches, with the default pre-length: beyond what has arrived exactly when the burst ended in
        the last frame; and after a feed of at most a quarter of the longest request, it is answered with its own
        samples exactly when the burst did not end there. */
    ghost predicate Reach(b: Burst, fed: nat)
      requires ring.Valid()
      reads this, ring, ring.buf, detector
    {
      && b.start >= 0
      && (b.stop + c.pre > ring.count <==> b.stop + c.fft == detector.index)
      && (fed <= (c.maxLen + c.post + c.pre) / 4 ==> (Exact(b) <==> b.stop + c.fft < detector.index))
    }

    /** burst_detector_feed: the samples go into the ring, every complete frame through the detector, and the bursts
        that ended come out, in their order and each once. */
    method Samples(samples: seq<T>, mag: seq<T> -> seq<real>, batch: nat)
      returns (out: seq<Emission<T>>, ghost states: seq<State>)
      requires Ready() && Spectrum(c, mag) && |samples| + c.fft <= ring.size
      modifies ring, ring.buf, detector
      ensures Ready() && ring.stream == old(ring.stream) + samples
      ensures Path(c, states, mag, ring.stream)
      ensures states[0] == old(detector.Abstract()) && states[|states| - 1] == detector.Abstract()
      ensures old(detector.emitted) <= detector.emitted == detector.Abstract().tracker.finished
      ensures var g := detector.emitted[|old(detector.emitted)|..];
              Bursts(out) == Wanted(c, g, |g|, ring.start) && forall k :: 0 <= k < |g| ==> StopsOn(states, g[k])
      ensures forall k :: 0 <= k < |out| ==> Answered(out[k])
      ensures c.pre == 2 * c.fft ==> forall k :: 0 <= k < |out| ==> Reach(out[k].burst, |samples|)
    {
      hide O.Sound, Path, Spectrum, Answers, Exact, Reach, Wanted, StopsOn, Bursts;
      states := Advance(samples, mag, batch);
      ghost var g := detector.gone;
      out := EmitGone();
      assert detector.emitted[|old(detector.emitted)|..] == g;
      ReachAll(states, mag, g, out, |samples|);
    }

    /** The samples go into the ring and every complete frame through the detector. */
    method Advance(samples: seq<T>, mag: seq<T> -> seq<real>, batch: nat) returns (ghost states: seq<State>)
      requires Ready() && Spectrum(c, mag) && |samples| + c.fft <= ring.size
      modifies ring, ring.buf, detector
      ensures Valid() && ring.stream == old(ring.stream) + samples && detector.emitted == old(detector.emitted)
      ensures Path(c, states, mag, ring.stream)
      ensures states[0] == old(detector.Abstract()) && states[|states| - 1] == detector.Abstract()
      ensures forall k :: 0 <= k < |detector.gone| ==> StopsOn(states, detector.gone[k])
      ensures ring.count < states[0].index + c.fft + |samples|
    {
      hide O.Sound, Path, Spectrum, StopsOn;
      ConfigGood();
      ring.Write(samples);
      if batch > 0 {
        states := ProcessBatched(mag, batch);
      } else {
        states := Process(mag);
      }
      AfterPath(states, mag);
      assert detector.emitted + [] == detector.emitted;
      FinishedOnPath(states, mag);
    }

    /** The bursts that wait to be handed out ended in the frames of the path. */
    lemma FinishedOnPath(states: seq<State>, mag: seq<T> -> seq<real>)
      requires Path(c, states, mag, ring.stream) && states[|states| - 1] == detector.Abstract()
      requires states[0].tracker.finished == detector.emitted
      ensures forall k :: 0 <= k < |detector.gone| ==> StopsOn(states, detector.gone[k])
    {
      hide Next;
      var f, n := detector.Abstract().tracker.finished, |detector.emitted|;
      PathFinishes(c, states, mag, ring.stream, |states| - 1);
      forall k | 0 <= k < |detector.gone| ensures StopsOn(states, detector.gone[k]) {
        assert f[n + k] == detector.gone[k];
      }
    }

    lemma ReachAll(states: seq<State>, mag: seq<T> -> seq<real>, g: seq<Burst>, out: seq<Emission<T>>, n: nat)
      requires Valid() && Path(c, states, mag, ring.stream) && AllProper(c, g)
      requires forall k :: 0 <= k < |g| ==> StopsOn(states, g[k])
      requires states[|states| - 1].index == detector.index && ring.count < states[0].index + c.fft + n
      requires Bursts(out) == Wanted(c, g, |g|, ring.start) && forall k :: 0 <= k < |out| ==> Answered(out[k])
      ensures c.pre == 2 * c.fft ==> forall k :: 0 <= k < |out| ==> Reach(out[k].burst, n)
    {
      hide Path, StopsOn, O.Sound, Wanted, Bursts, Reach;
      WantedFrom(c, g, |g|, ring.start, out);
      if c.pre == 2 * c.fft {
        forall k | 0 <= k < |out| ensures Reach(out[k].burst, n) {
          EmittedReach(states, mag, out[k].burst, n);
        }
      }
    }

    lemma EmittedReach(states: seq<State>, mag: seq<T> -> seq<real>, b: Burst, n: nat)
      requires ring.Valid() && Path(c, states, mag, ring.stream) && StopsOn(states, b) && Proper(c, b)
      requires states[|states| - 1].index == detector.index <= ring.count < detector.index + c.fft
      requires c.pre == 2 * c.fft && ring.count < states[0].index + c.fft + n && ring.Oldest(b.start) < b.stop + c.pre
      requires var least := c.maxLen + c.post + c.pre; ring.size == least + least / 4
      ensures Reach(b, n)
    {
      hide Next, StopsOn, R.Latest, R.Holding;
      StopIndex(c, states, mag, ring.stream, b);
      R.ExtractExactly(ring.count, ring.size, ring.Oldest(b.start), b.stop + c.pre);
    }

    lemma ConfigGood()
      requires Valid()
      ensures c.fft > 0 && c.fft <= ring.size
    {
    }

    lemma AfterPath(states: seq<State>, mag: seq<T> -> seq<real>)
      requires Path(c, states, mag, ring.stream) && O.Sound(c, states[0]) && states[|states| - 1] == detector.Abstract()
      ensures O.Sound(c, detector.Abstract()) && states[0].index <= detector.index
      ensures states[0].index <= |ring.stream| ==> detector.index <= |ring.stream|
    {
      hide O.Sound, Next;
      PathSound(c, states, mag, ring.stream, |states| - 1);
      PathIndex(c, states, mag, ring.stream, |states| - 1);
      if states[0].index <= |ring.stream| {
        PathEnd(c, states, mag, ring.stream);
      }
    }
  }

  lemma PathEnd<T(!new)>(c: Config, states: seq<State>, mag: seq<T> -> seq<real>, stream: seq<T>)
    requires Path(c, states, mag, stream) && states[0].index <= |stream|
    ensures states[|states| - 1].index <= |stream|
  {
    var n := |states| - 1;
    if n > 0 {
      assert Next(c, states[n - 1], mag, stream, states[n - 1 + 1]);
      StepIndex(c, states[n - 1], mag(stream[states[n - 1].index..states[n - 1].index + c.fft]), states[n]);
    }
  }

  /** The burst ended in a frame that starts in one of the states but the last. */
  ghost predicate StopsOn(states: seq<State>, b: Burst) {
    StopsBefore(states, b, |states| - 1)
  }

  ghost predicate StopsBefore(states: seq<State>, b: Burst, n: int) {
    exists m :: 0 <= m < n && m < |states| && b.stop == states[m].index
  }

  lemma StepFinishes(c: Config, s: State, mag: seq<real>, s': State)
    requires Steps(c, s, mag, s')
    ensures I.Appends(s.tracker.finished, s'.tracker.finished, s.index)
  {
    hide Frame, I.Appends;
    var peaks: seq<Peak> :| FrameOk(c, s, mag, peaks) && s' == Frame(c, s, mag, peaks);
    I.FrameFinishes(c, s, mag, peaks);
  }

  /** Along a path, finished bursts are only added, and each ends in one of its frames. */
  lemma {:induction false} PathFinishes<T(!new)>(c: Config, states: seq<State>, mag: seq<T> -> seq<real>,
                                                 stream: seq<T>, n: nat)
    requires Path(c, states, mag, stream) && n < |states|
    ensures states[0].tracker.finished <= states[n].tracker.finished
    ensures forall k :: |states[0].tracker.finished| <= k < |states[n].tracker.finished| ==>
              StopsBefore(states, states[n].tracker.finished[k], n)
  {
    hide Steps;
    if n > 0 {
      PathFinishes(c, states, mag, stream, n - 1);
      assert Next(c, states[n - 1], mag, stream, states[n - 1 + 1]);
      var s := states[n - 1];
      StepFinishes(c, s, mag(stream[s.index..s.index + c.fft]), states[n]);
      var f, f' := s.tracker.finished, states[n].tracker.finished;
      forall k | |states[0].tracker.finished| <= k < |f'| ensures StopsBefore(states, f'[k], n) {
        if k < |f| {
          assert StopsBefore(states, f[k], n - 1);
        } else {
          assert f'[k].stop == states[n - 1].index;
        }
      }
    }
  }

  /** It ended at least one frame before the last state, and by whole frames. */
  lemma StopIndex<T(!new)>(c: Config, states: seq<State>, mag: seq<T> -> seq<real>, stream: seq<T>, b: Burst)
    requires Path(c, states, mag, stream) && StopsOn(states, b)
    ensures states[0].index <= b.stop
    ensures var last := states[|states| - 1].index; b.stop + c.fft == last || b.stop + 2 * c.fft <= last
  {
    hide Path;
    var m :| 0 <= m < |states| - 1 && b.stop == states[m].index;
    PathIndex(c, states, mag, stream, m);
    PathIndex(c, states, mag, stream, |states| - 1);
    WholeFrames(m, |states| - 1, c.fft);
  }

  /** When at most one frame was processed, every burst that came out ended in the last one. */
  lemma ShortFeed<T(!new)>(c: Config, states: seq<State>, mag: seq<T> -> seq<real>, stream: seq<T>, b: Burst)
    requires Path(c, states, mag, stream) && StopsOn(states, b)
    requires states[|states| - 1].index <= |stream| < states[0].index + 2 * c.fft
    ensures b.stop + c.fft == states[|states| - 1].index
  {
    hide Next, StopsOn;
    StopIndex(c, states, mag, stream, b);
  }

  // ---- A request for what has not arrived ----

  /** A stream that consists of magnitudes already. */
  function Same(mag: seq<real>): seq<real> {
    mag
  }

  /** More samples do not change what was seen. */
  lemma NextLonger<T(!new)>(c: Config, s: State, mag: seq<T> -> seq<real>, stream: seq<T>, more: seq<T>, s': State)
    requires Next(c, s, mag, stream, s')
    ensures Next(c, s, mag, stream + more, s')
  {
    hide Steps;
    assert (stream + more)[s.index..s.index + c.fft] == stream[s.index..s.index + c.fft];
  }

  lemma PathLonger<T(!new)>(c: Config, states: seq<State>, mag: seq<T> -> seq<real>, stream: seq<T>, more: seq<T>)
    requires Path(c, states, mag, stream)
    ensures Path(c, states, mag, stream + more)
  {
    hide Next;
    forall i | 0 <= i < |states| - 1 ensures Next(c, states[i], mag, stream + more, states[i + 1]) {
      NextLonger(c, states[i], mag, stream, more, states[i + 1]);
    }
  }

  /** Every run of the detector is the path of some stream. */
  lemma {:induction false} RunIsPath(c: Config, states: seq<State>, inputs: seq<I.Input>, n: nat)
    returns (stream: seq<real>)
    requires I.IsRun(c, states, inputs) && n < |states|
    ensures Path(c, states[..n + 1], Same, stream) && |stream| == states[n].index
  {
    hide Frame, FrameOk, Path;
    if n == 0 {
      stream := [];
      PathStart(c, states[0], Same, stream);
      assert states[..1] == [states[0]];
    } else {
      var before := RunIsPath(c, states, inputs, n - 1);
      var s, x := states[n - 1], inputs[n - 1];
      assert I.IsStep(c, s, x, states[n - 1 + 1]);
      InputSize(c, s, x);
      stream := before + x.mag;
      PathLonger(c, states[..n], Same, before, x.mag);
      assert stream[s.index..s.index + c.fft] == x.mag;
      NextOf(c, s, Same, stream, x.peaks, states[n]);
      PathMore(c, states[..n], Same, stream, states[n]);
      assert states[..n] + [states[n]] == states[..n + 1];
    }
  }

  lemma InputSize(c: Config, s: State, x: I.Input)
    requires FrameOk(c, s, x.mag, x.peaks)
    ensures |x.mag| == c.fft
  {
  }

  /** A stream after which a burst has just ended, and its request goes beyond the end of the stream. */
  lemma AheadRun(c: Config, bin: nat) returns (states: seq<State>, stream: seq<real>, b: Burst)
    requires ConfigOk(c) && Eligible(c, bin) && c.fft < c.pre <= c.history * c.fft + c.post
    ensures Spectrum(c, Same) && Path(c, states, Same, stream) && |states| >= 2 && states[0] == Start(c)
    ensures states[|states| - 1].tracker.finished == [b] && states[|states| - 1].index == |stream|
    ensures states[|states| - 2].index + c.fft == |stream| && b.stop + c.fft == |stream| < b.stop + c.pre
  {
    hide Frame, FrameOk, Path;
    var inputs;
    states, inputs := L.FinishingRun(c, bin);
    var n := |states| - 1;
    stream := RunIsPath(c, states, inputs, n);
    assert states[..n + 1] == states;
    b := states[n].tracker.finished[0];
    PathIndex(c, states, Same, stream, n);
    PathIndex(c, states, Same, stream, n - 1);
    Distribute(n - 1, 1, c.fft);
  }

  lemma Distribute(a: int, b: int, f: nat)
    ensures (a + b) * f == a * f + b * f
  {
    hide *;
  }

  lemma WholeFrames(m: nat, n: nat, f: nat)
    requires m < n
    ensures 0 <= m * f && (n * f == m * f + f || n * f >= m * f + 2 * f)
  {
    hide *;
    if n == m + 1 {
      Distribute(m, 1, f);
    } else {
      Distribute(m + 2, n - m - 2, f);
      Distribute(m, 2, f);
      assert (n - m - 2) * f >= 0;
    }
  }

  function Bursts<T>(out: seq<Emission<T>>): (r: seq<Burst>)
    ensures |r| == |out|
  {
    seq(|out|, i requires 0 <= i < |out| => out[i].burst)
  }

  lemma NoBursts<T>()
    ensures Bursts<T>([]) == []
  {
  }

  lemma BurstsMore<T>(out: seq<Emission<T>>, e: Emission<T>)
    ensures Bursts(out + [e]) == Bursts(out) + [e.burst]
  {
  }

  /** Of the first n bursts, those whose last requested sample is not before the ring's recorded start. */
  function Wanted(c: Config, gone: seq<Burst>, n: nat, start: nat): seq<Burst>
    requires n <= |gone|
  {
    if n == 0 then []
    else
      var b := gone[n - 1];
      Wanted(c, gone, n - 1, start) + if b.stop + c.pre > start && b.stop + c.pre > b.start then [b] else []
  }

  /** Every burst handed out is one of those that were waiting. */
  lemma {:induction false} WantedIn(c: Config, gone: seq<Burst>, n: nat, start: nat)
    requires n <= |gone|
    ensures forall k :: 0 <= k < |Wanted(c, gone, n, start)| ==> Wanted(c, gone, n, start)[k] in gone
  {
    if n > 0 {
      WantedIn(c, gone, n - 1, start);
    }
  }

  lemma WantedOne(c: Config, b: Burst, start: nat)
    ensures Wanted(c, [b], 1, start) == if b.stop + c.pre > start && b.stop + c.pre > b.start then [b] else []
  {
    assert Wanted(c, [b], 0, start) == [];
  }

  lemma {:induction false} WantedPrefix(c: Config, g: seq<Burst>, h: seq<Burst>, n: nat, start: nat)
    requires n <= |g|
    ensures Wanted(c, g + h, n, start) == Wanted(c, g, n, start)
  {
    if n > 0 {
      WantedPrefix(c, g, h, n - 1, start);
    }
  }

  /** Bursts are handed out in the order in which they were waiting: those of a first part, and then those of the
      rest. */
  lemma {:induction false} WantedParts(c: Config, g: seq<Burst>, h: seq<Burst>, n: nat, start: nat)
    requires n <= |h|
    ensures Wanted(c, g + h, |g| + n, start) == Wanted(c, g, |g|, start) + Wanted(c, h, n, start)
    ensures n > 0 ==> Wanted(c, h, n, start) == Wanted(c, h, n - 1, start) + Wanted(c, [h[n - 1]], 1, start)
  {
    if n == 0 {
      WantedPrefix(c, g, h, |g|, start);
    } else {
      WantedParts(c, g, h, n - 1, start);
      WantedOne(c, h[n - 1], start);
      assert (g + h)[|g| + n - 1] == h[n - 1];
    }
  }

  lemma WantedFrom<T>(c: Config, gone: seq<Burst>, n: nat, start: nat, out: seq<Emission<T>>)
    requires n <= |gone| && Bursts(out) == Wanted(c, gone, n, start)
    ensures forall k :: 0 <= k < |out| ==> out[k].burst in gone
  {
    hide Wanted;
    WantedIn(c, gone, n, start);
    forall k | 0 <= k < |out| ensures out[k].burst in gone {
      assert Bursts(out)[k] == out[k].burst;
    }
  }

  lemma NextOf<T(!new)>(c: Config, s: State, mag: seq<T> -> seq<real>, stream: seq<T>, peaks: seq<Peak>, s': State)
    requires s.index + c.fft <= |stream|
    requires var x := mag(stream[s.index..s.index + c.fft]); FrameOk(c, s, x, peaks) && s' == Frame(c, s, x, peaks)
    ensures Next(c, s, mag, stream, s') && s'.index == s.index + c.fft
  {
    hide Frame, FrameOk;
    var x := mag(stream[s.index..s.index + c.fft]);
    assert Steps(c, s, x, s');
    StepIndex(c, s, x, s');
  }

  lemma PathStart<T(!new)>(c: Config, s: State, mag: seq<T> -> seq<real>, stream: seq<T>)
    ensures Path(c, [s], mag, stream)
  {
  }

  lemma PathJoin<T(!new)>(c: Config, a: seq<State>, b: seq<State>, mag: seq<T> -> seq<real>, stream: seq<T>)
    requires a != [] && b != [] && Path(c, a, mag, stream) && Path(c, b, mag, stream) && a[|a| - 1] == b[0]
    ensures Path(c, a + b[1..], mag, stream) && (a + b[1..])[|a + b[1..]| - 1] == b[|b| - 1] && (a + b[1..])[0] == a[0]
  {
    hide Next;
    var r := a + b[1..];
    forall i | 0 <= i < |r| - 1 ensures Next(c, r[i], mag, stream, r[i + 1]) {
      if i < |a| - 1 {
        assert r[i + 1] == a[i + 1];
      } else {
        assert r[i] == b[i - |a| + 1] && r[i + 1] == b[i - |a| + 1 + 1];
      }
    }
  }
}
