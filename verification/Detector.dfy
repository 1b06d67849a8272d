/** The burst detector as the source has it: one object whose fields are updated in place, frame by frame
    (burst_detect.c). Every method is tied to the function of BurstTracker that specifies it. */
module Detector {

  import opened BurstTracker

  class BurstDetector {
    const c: Config

    var bursts: seq<Burst>
    var gone: seq<Burst>
    var nextId: nat
    var index: nat
    var squelch: nat

    var mask: seq<bool>           // true where the source has 0
    var magnitude: seq<real>
    var relative: seq<real>
    var peaks: seq<Peak>

    var history: seq<seq<real>>
    var sum: seq<real>
    var at: nat
    var primed: bool

    ghost var emitted: seq<Burst>
    ghost var dropped: seq<Burst>

    constructor (c: Config)
      requires ConfigOk(c)
      ensures this.c == c && Valid() && Abstract() == Start(c)
    {
      this.c := c;
      bursts, gone, nextId, index, squelch := [], [], 0, 0, 0;
      mask, peaks := seq(c.fft, b => false), [];
      magnitude, relative := seq(c.fft, b => 0.0), seq(c.fft, b => 0.0);
      history, sum, at, primed := seq(c.history, k => seq(c.fft, b => 0.0)), seq(c.fft, b => 0.0), 0, false;
      emitted, dropped := [], [];
    }

    ghost function Tracked(): Tracker
      reads this
    {
      Tracker(bursts, emitted + gone, dropped, nextId, mask)
    }

    ghost function Floor(): Noise
      reads this
    {
      Noise(history, sum, at, primed)
    }

    /** The state that BurstTracker speaks of. */
    ghost function Abstract(): State
      reads this
    {
      State(Tracked(), Floor(), index, squelch)
    }

    ghost predicate Valid()
      reads this
    {
      Shape(c, Abstract()) && |magnitude| == |relative| == c.fft
    }

    // ---- The noise floor ----

    /** update_filters_pre. */
    method UpdateFiltersPre() returns (ready: bool)
      requires Valid()
      modifies `relative
      ensures ready == primed && |relative| == c.fft
      ensures ready ==> relative == Relative(magnitude, sum)
    {
      if !primed {
        return false;
      }
      for b := 0 to c.fft
        invariant |relative| == c.fft
        invariant forall j :: 0 <= j < b ==> relative[j] == Relative(magnitude, sum)[j]
      {
        relative := relative[b := if sum[b] > 0.0 then magnitude[b] / sum[b] else 0.0];
      }
      return true;
    }

    /** update_filters_post. */
    method UpdateFiltersPost(force: bool)
      requires Valid()
      modifies `history, `sum, `at, `primed
      ensures Floor() == (if bursts == [] || force then Updated(c, old(Floor()), magnitude) else old(Floor())) &&
              Valid()
    {
      if bursts == [] || force {
        ghost var new_sum := Updated(c, Floor(), magnitude).sum;
        var row := history[at];
        for b := 0 to c.fft
          invariant |sum| == c.fft && row == old(history)[old(at)] && history == old(history) && at == old(at) &&
                    primed == old(primed)
          invariant forall j :: 0 <= j < b ==> sum[j] == new_sum[j]
          invariant forall j :: b <= j < c.fft ==> sum[j] == old(sum)[j]
        {
          sum := sum[b := sum[b] - row[b] + magnitude[b]];
        }
        assert sum == new_sum;
        history := history[at := magnitude];
        at := at + 1;
        if at == c.history {
          primed := true;
          at := 0;
        }
      }
    }

    // ---- Active bursts ----

    /** update_bursts. */
    method UpdateBursts()
      requires Valid()
      modifies `bursts
      ensures bursts == Touched(c, old(bursts), relative, index) && InRange(c, bursts)
    {
      ghost var result := Touched(c, bursts, relative, index);
      for i := 0 to |bursts|
        invariant |bursts| == |old(bursts)|
        invariant forall j :: 0 <= j < i ==> bursts[j] == result[j]
        invariant forall j :: i <= j < |bursts| ==> bursts[j] == old(bursts)[j]
      {
        var bin := bursts[i].bin;
        if (bin > 0 && relative[bin - 1] > c.threshold) || relative[bin] > c.threshold ||
          (bin < c.fft - 1 && relative[bin + 1] > c.threshold) {
          bursts := bursts[i := bursts[i].(last := index)];
        }
      }
    }

    /** mask_burst. */
    method MaskOne(centre: nat)
      requires Valid() && centre < c.fft
      modifies `mask
      ensures mask == MaskBurst(c, old(mask), centre)
    {
      var start, stop := centre - c.width / 2, centre + c.width / 2;
      if start < 0 {
        start := 0;
      }
      if stop >= c.fft {
        stop := c.fft - 1;
      }
      for b := start to stop + 1
        invariant |mask| == c.fft
        invariant forall j :: 0 <= j < c.fft ==> mask[j] == if start <= j < b then true else old(mask)[j]
      {
        mask := mask[b := true];
      }
    }

    /** update_burst_mask. */
    method UpdateBurstMask()
      requires Valid()
      modifies `mask
      ensures mask == Masked(c, bursts, |bursts|)
    {
      mask := seq(c.fft, b => false);
      for i := 0 to |bursts|
        invariant |mask| == c.fft && mask == Masked(c, bursts, i)
      {
        MaskOne(bursts[i].bin);
      }
    }

    /** delete_gone_bursts: bursts that are over move to the gone list, in place. */
    method DeleteGone()
      requires Valid()
      modifies `bursts, `gone, `history, `sum, `at, `primed
      ensures bursts == Kept(c, old(bursts), index, |old(bursts)|) &&
              gone == old(gone) + Ended(c, old(bursts), index, |old(bursts)|)
      ensures Floor() == if AnyLong(c, old(bursts)) then Updated(c, old(Floor()), magnitude) else old(Floor())
      ensures InRange(c, bursts)
    {
      ghost var all := bursts;
      var noisy := Sweep();
      assert InRange(c, bursts) by { KeptInRange(c, all, index, |all|); }
      if noisy {
        UpdateFiltersPost(true);
      }
    }

    method Sweep() returns (noisy: bool)
      requires Valid()
      modifies `bursts, `gone
      ensures bursts == Kept(c, old(bursts), index, |old(bursts)|) &&
              gone == old(gone) + Ended(c, old(bursts), index, |old(bursts)|)
      ensures noisy == AnyLong(c, old(bursts))
    {
      hide Valid, Kept, Ended, AnyLong, Swept;
      ghost var all, m := bursts, 0;
      ghost var moved: seq<Burst> := [];
      SweepStart(c, all, index);
      noisy := false;
      var i := 0;
      while i < |bursts|
        invariant 0 <= i && m <= |all| && Swept(c, all, index, m, i, bursts, moved, noisy)
        invariant gone == old(gone) + moved
        decreases |all| - m
      {
        SweepStep(c, all, index, m, i, bursts, moved, noisy);
        var b := bursts[i];
        var long := c.maxLen > 0 && b.last - b.start > c.maxLen;
        if long {
          noisy := true;
        }
        if 0 <= b.last + c.post <= index || long {
          gone := gone + [b.(stop := index)];
          moved := moved + [b.(stop := index)];
          bursts := bursts[..i] + bursts[i + 1..];
        } else {
          i := i + 1;
        }
        m := m + 1;
      }
      SweepEnd(c, all, index, m, i, bursts, moved, noisy);
    }

    // ---- Peaks ----

    /** remove_peaks_around_bursts. */
    method RemovePeaks()
      requires Valid()
      modifies `relative
      ensures relative == Cleaned(old(relative), mask)
    {
      ghost var clean := Cleaned(relative, mask);
      for b := 0 to c.fft
        invariant |relative| == c.fft
        invariant forall j :: 0 <= j < b ==> relative[j] == clean[j]
        invariant forall j :: b <= j < c.fft ==> relative[j] == old(relative)[j]
      {
        relative := relative[b := relative[b] * if mask[b] then 0.0 else 1.0];
      }
    }

    /** extract_peaks. */
    method ExtractPeaks(ghost rel: seq<real>)
      requires Valid() && |rel| == c.fft && relative == Cleaned(rel, mask)
      modifies `peaks
      ensures PeakBins(c, peaks) && PeaksOk(c, rel, mask, peaks)
    {
      peaks := [];
      var half, dc := c.width / 2, c.fft / 2;
      var bin := half;
      while bin < c.fft - half
        invariant half <= bin && Collected(c, rel, mask, peaks, bin)
      {
        if !(dc - 3 <= bin <= dc + 3) {
          if relative[bin] > c.threshold {
            peaks := peaks + [Peak(bin, relative[bin])];
          }
        }
        bin := bin + 1;
      }
      ghost var found := peaks;
      peaks := SortPeaks(peaks);
      SortedPeaks(c, rel, mask, found, peaks, bin);
    }

    // ---- New bursts ----

    /** The first loop of create_new_bursts. */
    method CreateBursts()
      requires Valid() && PeakBins(c, peaks)
      modifies `bursts, `nextId, `mask
      ensures Tracked() == Created(c, old(Tracked()), index, peaks, |peaks|)
      ensures Valid()
    {
      hide MaskBurst, InRange, NoiseOk;
      ghost var before := Tracked();
      for i := 0 to |peaks|
        invariant Valid() && Tracked() == Created(c, before, index, peaks, i)
      {
        if !mask[peaks[i].bin] {
          AddBurst(peaks[i]);
        }
      }
    }

    method AddBurst(p: Peak)
      requires Valid() && Eligible(c, p.bin)
      modifies `bursts, `nextId, `mask
      ensures bursts == old(bursts) + [NewBurst(c, old(nextId), index, p)] && nextId == old(nextId) + 10
      ensures mask == MaskBurst(c, old(mask), p.bin) && Valid()
    {
      var b := Burst(nextId, index - c.pre, 0, index - c.pre, p.bin, p.strength);
      nextId := nextId + 10;
      bursts := bursts + [b];
      MaskOne(b.bin);
    }

    /** The squelch: bursts from before this frame are finished, the others are forgotten. */
    method DropAll()
      requires Valid()
      modifies `bursts, `gone, `mask, `dropped
      ensures Tracked() == Squelched(c, old(Tracked()), index) && Valid()
    {
      ghost var recent := MoveOlder();
      dropped := dropped + recent;
      bursts := [];
      assert emitted + gone == old(emitted + gone) + Older(c, old(bursts), index, true, |old(bursts)|);
      UpdateBurstMask();
    }

    method MoveOlder() returns (ghost recent: seq<Burst>)
      requires Valid()
      modifies `bursts, `gone
      ensures gone == old(gone) + Older(c, old(bursts), index, true, |old(bursts)|)
      ensures recent == bursts == Older(c, old(bursts), index, false, |old(bursts)|)
    {
      hide Valid, Older;
      ghost var all, m := bursts, 0;
      OlderStart(c, all, index);
      var i := 0;
      while i < |bursts|
        invariant 0 <= m <= |all| && all == old(bursts) && (i < |bursts| ==> m < |all|)
        invariant i == |Older(c, all, index, false, m)| && bursts == Older(c, all, index, false, m) + all[m..]
        invariant gone == old(gone) + Older(c, all, index, true, m)
        decreases |all| - m
      {
        OlderStep(c, all, index, m);
        if bursts[i].start != index - c.pre {
          gone := gone + [bursts[i].(stop := index)];
          bursts := bursts[..i] + bursts[i + 1..];
        } else {
          i := i + 1;
        }
        m := m + 1;
      }
      OlderEnd(c, all, index, m);
      recent := bursts;
    }

    method ForgetNoise()
      requires Valid()
      modifies `history, `sum, `at, `primed
      ensures Floor() == Reset(c)
    {
      at, primed := 0, false;
      history := seq(c.history, k => seq(c.fft, b => 0.0));
      sum := seq(c.fft, b => 0.0);
    }

    /** create_new_bursts. */
    method CreateNew()
      requires Valid() && PeakBins(c, peaks)
      modifies `bursts, `gone, `nextId, `mask, `dropped, `squelch, `history, `sum, `at, `primed
      ensures var t := Created(c, old(Tracked()), index, peaks, |peaks|);
              if TooMany(c, t) then
                Tracked() == Squelched(c, t, index) &&
                squelch == (if old(squelch) + 3 >= 10 then 0 else old(squelch) + 3) &&
                Floor() == if old(squelch) + 3 >= 10 then Reset(c) else old(Floor())
              else
                Tracked() == t && Floor() == old(Floor()) && squelch == if old(squelch) > 0 then old(squelch) - 1 else 0
      ensures Valid()
    {
      hide Created, Squelched, InRange, NoiseOk, Reset, PeakBins;
      CreateBursts();
      if c.maxBursts > 0 && |bursts| > c.maxBursts {
        Squelch();
      } else {
        if squelch > 0 {
          squelch := squelch - 1;
        }
      }
    }

    /** The branch of create_new_bursts for too many bursts. */
    method Squelch()
      requires Valid()
      modifies `bursts, `gone, `mask, `dropped, `squelch, `history, `sum, `at, `primed
      ensures Tracked() == Squelched(c, old(Tracked()), index)
      ensures squelch == (if old(squelch) + 3 >= 10 then 0 else old(squelch) + 3)
      ensures Floor() == (if old(squelch) + 3 >= 10 then Reset(c) else old(Floor())) && Valid()
    {
      hide Squelched, InRange, NoiseOk, Reset;
      DropAll();
      squelch := squelch + 3;
      if squelch >= 10 {
        ForgetNoise();
        squelch := 0;
      }
    }

    // ---- Frames ----

    /** The active bursts are touched, and peaks are looked for outside their windows. */
    method Look(ghost rel: seq<real>)
      requires Valid() && |rel| == c.fft && relative == rel
      modifies `bursts, `relative, `peaks
      ensures Valid() && PeakBins(c, peaks) && PeaksOk(c, rel, mask, peaks)
      ensures bursts == Touched(c, old(bursts), rel, index)
    {
      hide Touched, PeaksOk, NoiseOk, InRange, PeakBins, Cleaned;
      UpdateBursts();
      RemovePeaks();
      ExtractPeaks(rel);
    }

    /** Bursts that are over leave, and the mask is rebuilt. */
    method Leave()
      requires Valid()
      modifies `bursts, `gone, `history, `sum, `at, `primed, `mask
      ensures bursts == Kept(c, old(bursts), index, |old(bursts)|) && mask == Masked(c, bursts, |bursts|) && Valid()
      ensures emitted + gone == old(emitted + gone) + Ended(c, old(bursts), index, |old(bursts)|)
      ensures Floor() == if AnyLong(c, old(bursts)) then Updated(c, old(Floor()), magnitude) else old(Floor())
    {
      hide Kept, Ended, Masked, Updated, AnyLong, NoiseOk, InRange;
      DeleteGone();
      assert emitted + gone == old(emitted + gone) + Ended(c, old(bursts), index, |old(bursts)|);
      UpdateBurstMask();
    }

    /** Everything between the relative magnitudes and the new bursts. */
    method Prune(ghost rel: seq<real>)
      requires Valid() && |rel| == c.fft && relative == rel
      modifies `bursts, `relative, `peaks, `gone, `history, `sum, `at, `primed, `mask
      ensures Valid() && PeakBins(c, peaks) && PeaksOk(c, rel, old(mask), peaks)
      ensures Tracked() == Pruned(c, old(Tracked()), rel, index)
      ensures Floor() == Forced(c, old(Tracked()), old(Floor()), rel, magnitude, index)
    {
      hide Kept, Ended, Touched, Masked, Updated, PeaksOk, AnyLong, NoiseOk, InRange, PeakBins;
      Look(rel);
      Leave();
    }

    /** process_fft_frame from the magnitudes on, and the step to the next frame. */
    method ProcessFrame(mag: seq<real>) returns (ghost seen: seq<Peak>)
      requires Valid() && |mag| == c.fft
      modifies `magnitude, `relative, `peaks, `bursts, `gone, `nextId, `mask, `dropped, `squelch, `history, `sum, `at,
               `primed, `index
      ensures Valid() && FrameOk(c, old(Abstract()), mag, seen) && Abstract() == Frame(c, old(Abstract()), mag, seen)
    {
      hide Detected, Finished, FrameOk, Shape, Relative;
      magnitude := mag;
      seen := [];
      var ready := UpdateFiltersPre();
      if ready {
        Detect();
        seen := peaks;
      } else {
        NoPeaks(c, Abstract(), mag);
      }
      Finish();
    }

    /** The unforced update of the noise floor, and the step to the next frame. */
    method Finish()
      requires Valid()
      modifies `history, `sum, `at, `primed, `index
      ensures Valid() && Abstract() == Finished(c, old(Abstract()), magnitude)
    {
      hide Updated, NoiseOk, InRange;
      UpdateFiltersPost(false);
      index := index + c.fft;
    }

    /** The frame once relative magnitudes are there. */
    method Detect()
      requires Valid() && primed && relative == Relative(magnitude, sum)
      modifies `relative, `peaks, `bursts, `gone, `nextId, `mask, `dropped, `squelch, `history, `sum, `at, `primed
      ensures Valid() && FrameOk(c, old(Abstract()), magnitude, peaks) &&
              Abstract() == Detected(c, old(Abstract()), magnitude, peaks)
    {
      hide Pruned, Created, Squelched, Updated, Forced, PeaksOk, NoiseOk, InRange, PeakBins, Relative, TooMany, Reset;
      Prune(relative);
      CreateNew();
    }
  }

  lemma NoPeaks(c: Config, s: State, mag: seq<real>)
    requires Shape(c, s) && |mag| == c.fft && !s.noise.primed
    ensures FrameOk(c, s, mag, [])
  {
  }

  lemma OlderStart(c: Config, all: seq<Burst>, index: nat)
    ensures Older(c, all, index, true, 0) == [] == Older(c, all, index, false, 0) && all[0..] == all
  {
  }

  lemma OlderStep(c: Config, all: seq<Burst>, index: nat, m: nat)
    requires m < |all|
    ensures var k, b, s := Older(c, all, index, false, m), all[m], Older(c, all, index, false, m) + all[m..];
            s[|k|] == b && s[..|k|] + s[|k| + 1..] == k + all[m + 1..] && s == (k + [b]) + all[m + 1..] &&
            Older(c, all, index, false, m + 1) == (if b.start != index - c.pre then k else k + [b]) &&
            Older(c, all, index, true, m + 1) ==
              Older(c, all, index, true, m) + (if b.start != index - c.pre then [b.(stop := index)] else [])
  {
  }

  lemma OlderEnd(c: Config, all: seq<Burst>, index: nat, m: nat)
    requires m <= |all| && |Older(c, all, index, false, m) + all[m..]| <= |Older(c, all, index, false, m)|
    ensures m == |all| && Older(c, all, index, false, m) + all[m..] == Older(c, all, index, false, m)
  {
  }

  /** The relative magnitudes with zeros under the mask. */
  function Cleaned(rel: seq<real>, mask: seq<bool>): (r: seq<real>)
    requires |rel| == |mask|
    ensures |r| == |rel|
  {
    seq(|rel|, b requires 0 <= b < |rel| => if mask[b] then 0.0 else rel[b])
  }

  /** The peaks found below a bin, in the order of their bins. */
  ghost predicate Collected(c: Config, rel: seq<real>, mask: seq<bool>, peaks: seq<Peak>, bin: nat)
    requires |rel| == |mask| == c.fft
  {
    && (forall i :: 0 <= i < |peaks| ==> peaks[i].bin < bin && IsPeak(c, rel, mask, peaks[i]))
    && (forall i, j :: 0 <= i < j < |peaks| ==> peaks[i].bin < peaks[j].bin)
    && (forall b: nat :: b < bin && b < c.fft && IsPeak(c, rel, mask, Peak(b, rel[b])) ==> Peak(b, rel[b]) in peaks)
  }

  predicate Descending(peaks: seq<Peak>) {
    forall i, j :: 0 <= i < j < |peaks| ==> peaks[i].strength >= peaks[j].strength
  }

  predicate Distinct(peaks: seq<Peak>) {
    forall i, j :: 0 <= i < j < |peaks| ==> peaks[i].bin != peaks[j].bin
  }

  /** The library sort, by insertion: strongest first. */
  method SortPeaks(peaks: seq<Peak>) returns (r: seq<Peak>)
    requires Distinct(peaks)
    ensures multiset(r) == multiset(peaks) && Descending(r) && Distinct(r)
  {
    hide Descending, Distinct, Inserted;
    Nothing();
    r := [];
    for i := 0 to |peaks|
      invariant multiset(r) == multiset(peaks[..i]) && Descending(r) && Distinct(r)
    {
      var k := 0;
      while k < |r| && r[k].strength >= peaks[i].strength
        invariant 0 <= k <= |r|
        invariant forall j :: 0 <= j < k ==> r[j].strength >= peaks[i].strength
      {
        k := k + 1;
      }
      InsertDescending(r, k, peaks[i]);
      NewBin(peaks, i, r);
      InsertDistinct(r, k, peaks[i]);
      InsertMembers(r, k, peaks[i]);
      assert peaks[..i + 1] == peaks[..i] + [peaks[i]];
      r := Inserted(r, k, peaks[i]);
    }
    assert peaks[..|peaks|] == peaks;
  }

  lemma Nothing()
    ensures Descending([]) && Distinct([])
  {
  }

  function Inserted(r: seq<Peak>, k: nat, p: Peak): seq<Peak>
    requires k <= |r|
  {
    r[..k] + [p] + r[k..]
  }

  lemma InsertDescending(r: seq<Peak>, k: nat, p: Peak)
    requires k <= |r| && Descending(r)
    requires (forall j :: 0 <= j < k ==> r[j].strength >= p.strength) && (k < |r| ==> r[k].strength < p.strength)
    ensures Descending(Inserted(r, k, p))
  {
  }

  lemma InsertDistinct(r: seq<Peak>, k: nat, p: Peak)
    requires k <= |r| && Distinct(r) && forall j :: 0 <= j < |r| ==> r[j].bin != p.bin
    ensures Distinct(Inserted(r, k, p))
  {
  }

  lemma InsertMembers(r: seq<Peak>, k: nat, p: Peak)
    requires k <= |r|
    ensures multiset(Inserted(r, k, p)) == multiset(r) + multiset{p}
  {
    assert r == r[..k] + r[k..];
  }

  lemma NewBin(peaks: seq<Peak>, i: nat, r: seq<Peak>)
    requires i < |peaks| && Distinct(peaks) && multiset(r) == multiset(peaks[..i])
    ensures forall j :: 0 <= j < |r| ==> r[j].bin != peaks[i].bin
  {
    forall j | 0 <= j < |r| ensures r[j].bin != peaks[i].bin {
      assert r[j] in multiset(r);
      assert r[j] in peaks[..i];
    }
  }

  lemma SortedPeaks(c: Config, rel: seq<real>, mask: seq<bool>, found: seq<Peak>, peaks: seq<Peak>, bin: nat)
    requires |rel| == |mask| == c.fft && Collected(c, rel, mask, found, bin) && bin + Half(c) >= c.fft
    requires multiset(peaks) == multiset(found) && Descending(peaks) && Distinct(peaks)
    ensures PeakBins(c, peaks) && PeaksOk(c, rel, mask, peaks)
  {
    forall i | 0 <= i < |peaks| ensures IsPeak(c, rel, mask, peaks[i]) {
      assert peaks[i] in multiset(peaks);
      assert peaks[i] in found;
    }
    forall b: nat | b < c.fft && IsPeak(c, rel, mask, Peak(b, rel[b])) ensures Peak(b, rel[b]) in peaks {
      assert Peak(b, rel[b]) in multiset(found);
    }
  }

  /** The sweep after the first m of all bursts: i of them are kept, the moved ones have ended. */
  ghost predicate Swept(c: Config, all: seq<Burst>, index: nat, m: nat, i: nat, bursts: seq<Burst>, moved: seq<Burst>,
                        noisy: bool)
    requires m <= |all|
  {
    && i == |Kept(c, all, index, m)| && bursts == Kept(c, all, index, m) + all[m..] && moved == Ended(c, all, index, m)
    && (noisy <==> exists j :: 0 <= j < m && TooLong(c, all[j]))
  }

  lemma SweepStart(c: Config, all: seq<Burst>, index: nat)
    ensures Swept(c, all, index, 0, 0, all, [], false)
  {
  }

  lemma SweepStep(c: Config, all: seq<Burst>, index: nat, m: nat, i: nat, bursts: seq<Burst>, moved: seq<Burst>,
                  noisy: bool)
    requires m <= |all| && Swept(c, all, index, m, i, bursts, moved, noisy) && i < |bursts|
    ensures m < |all|
    ensures var b := bursts[i];
            var long := c.maxLen > 0 && b.last - b.start > c.maxLen;
            if 0 <= b.last + c.post <= index || long then
              Swept(c, all, index, m + 1, i, bursts[..i] + bursts[i + 1..], moved + [b.(stop := index)], noisy || long)
            else Swept(c, all, index, m + 1, i + 1, bursts, moved, noisy || long)
  {
    var k, b := Kept(c, all, index, m), all[m];
    assert bursts[i] == b && bursts == (k + [b]) + all[m + 1..];
    assert bursts[..i] + bursts[i + 1..] == k + all[m + 1..];
    assert (exists j :: 0 <= j < m + 1 && TooLong(c, all[j])) <==> noisy || TooLong(c, b);
  }

  lemma SweepEnd(c: Config, all: seq<Burst>, index: nat, m: nat, i: nat, bursts: seq<Burst>, moved: seq<Burst>,
                 noisy: bool)
    requires m <= |all| && Swept(c, all, index, m, i, bursts, moved, noisy) && i >= |bursts|
    ensures bursts == Kept(c, all, index, |all|) && moved == Ended(c, all, index, |all|) && noisy == AnyLong(c, all)
  {
  }

  lemma {:induction false} KeptInRange(c: Config, bursts: seq<Burst>, index: nat, n: nat)
    requires n <= |bursts| && InRange(c, bursts)
    ensures InRange(c, Kept(c, bursts, index, n))
  {
    if n > 0 {
      KeptInRange(c, bursts, index, n - 1);
    }
  }
}
