/** What every frame keeps: caches that agree with their definitions, bursts that stay apart, identities that are
    neither lost nor used twice, and bounded lifetimes. */
module BurstInvariants {

  import opened BurstTracker

  // ---- The noise floor ----

  /** The sum of bin b over the first k frames of the history. */
  function ColumnSum(h: seq<seq<real>>, b: nat, k: nat): real
    requires k <= |h| && forall i :: 0 <= i < |h| ==> b < |h[i]|
  {
    if k == 0 then 0.0 else ColumnSum(h, b, k - 1) + h[k - 1][b]
  }

  ghost predicate SumOk(c: Config, n: Noise)
    requires NoiseOk(c, n)
  {
    forall b: nat :: b < c.fft ==> n.sum[b] == ColumnSum(n.history, b, c.history)
  }

  lemma {:induction false} ColumnReplaced(h: seq<seq<real>>, at: nat, row: seq<real>, b: nat, k: nat)
    requires k <= |h| && at < |h| && b < |row| && forall i :: 0 <= i < |h| ==> b < |h[i]|
    ensures ColumnSum(h[at := row], b, k) == ColumnSum(h, b, k) + if at < k then row[b] - h[at][b] else 0.0
  {
    if k > 0 {
      ColumnReplaced(h, at, row, b, k - 1);
    }
  }

  lemma UpdateKeepsSum(c: Config, n: Noise, mag: seq<real>)
    requires NoiseOk(c, n) && SumOk(c, n) && |mag| == c.fft && c.history > 0
    ensures SumOk(c, Updated(c, n, mag))
  {
    forall b: nat | b < c.fft ensures Updated(c, n, mag).sum[b] == ColumnSum(Updated(c, n, mag).history, b, c.history) {
      ColumnReplaced(n.history, n.at, mag, b, c.history);
    }
  }

  lemma {:induction false} ColumnZero(h: seq<seq<real>>, b: nat, k: nat)
    requires k <= |h| && forall i :: 0 <= i < |h| ==> b < |h[i]| && h[i][b] == 0.0
    ensures ColumnSum(h, b, k) == 0.0
  {
    if k > 0 {
      ColumnZero(h, b, k - 1);
    }
  }

  lemma ResetKeepsSum(c: Config)
    requires c.history > 0
    ensures SumOk(c, Reset(c))
  {
    forall b: nat | b < c.fft ensures Reset(c).sum[b] == ColumnSum(Reset(c).history, b, c.history) {
      ColumnZero(Reset(c).history, b, c.history);
    }
  }

  /** The running sum is the column sum of the history, through normal, forced and reset updates. */
  lemma FrameKeepsSum(c: Config, s: State, mag: seq<real>, peaks: seq<Peak>)
    requires Shape(c, s) && |mag| == c.fft && PeakBins(c, peaks) && SumOk(c, s.noise)
    ensures SumOk(c, Frame(c, s, mag, peaks).noise)
  {
    hide Updated, Reset, SumOk, Candidates, Touched, Relative;
    UpdateKeepsSum(c, s.noise, mag);
    ResetKeepsSum(c);
    var d := if s.noise.primed then Detected(c, s, mag, peaks) else s;
    UpdateKeepsSum(c, d.noise, mag);
  }

  // ---- Separation ----

  /** No centre lies in the window of another. */
  predicate Separated(c: Config, bursts: seq<Burst>) {
    forall i, j :: 0 <= i < j < |bursts| ==> !Covers(c, bursts[i].bin, bursts[j].bin)
  }

  lemma {:induction false} KeptFrom(c: Config, bursts: seq<Burst>, index: nat, n: nat) returns (from: seq<nat>)
    requires n <= |bursts|
    ensures |from| == |Kept(c, bursts, index, n)|
    ensures forall i :: 0 <= i < |from| ==>
              from[i] < n && Kept(c, bursts, index, n)[i] == bursts[from[i]] && !Over(c, bursts[from[i]], index)
    ensures forall i, j :: 0 <= i < j < |from| ==> from[i] < from[j]
  {
    if n == 0 {
      from := [];
    } else {
      from := KeptFrom(c, bursts, index, n - 1);
      if !Over(c, bursts[n - 1], index) {
        from := from + [n - 1];
      }
    }
  }

  lemma PrunedApart(c: Config, t: Tracker, rel: seq<real>, index: nat)
    requires |rel| == c.fft && InRange(c, t.bursts) && Separated(c, t.bursts)
    ensures InRange(c, Pruned(c, t, rel, index).bursts) && Separated(c, Pruned(c, t, rel, index).bursts)
    ensures MaskOk(c, Pruned(c, t, rel, index))
  {
    var touched := Touched(c, t.bursts, rel, index);
    var from := KeptFrom(c, touched, index, |touched|);
    var r := Pruned(c, t, rel, index);
    forall b: nat | b < c.fft ensures r.mask[b] <==> Covered(c, r.bursts, b) {
      MaskedCovers(c, r.bursts, |r.bursts|, b);
      assert r.bursts[..|r.bursts|] == r.bursts;
    }
  }

  /** A burst is created only at a bin no window covers, and then masks its own. */
  lemma {:induction false} CreatedApart(c: Config, t: Tracker, index: nat, peaks: seq<Peak>, n: nat)
    requires n <= |peaks| && PeakBins(c, peaks) && MaskOk(c, t) && InRange(c, t.bursts) && Separated(c, t.bursts)
    ensures var r := Created(c, t, index, peaks, n);
            MaskOk(c, r) && InRange(c, r.bursts) && Separated(c, r.bursts)
  {
    if n > 0 {
      CreatedApart(c, t, index, peaks, n - 1);
      var s, p := Created(c, t, index, peaks, n - 1), peaks[n - 1];
      if !s.mask[p.bin] {
        OneMore(c, s, NewBurst(c, s.nextId, index, p));
      }
    }
  }

  lemma OneMore(c: Config, s: Tracker, x: Burst)
    requires MaskOk(c, s) && InRange(c, s.bursts) && Separated(c, s.bursts)
    requires Half(c) <= x.bin && x.bin + Half(c) < c.fft && !s.mask[x.bin]
    ensures var r := s.(bursts := s.bursts + [x], mask := MaskBurst(c, s.mask, x.bin));
            MaskOk(c, r) && InRange(c, r.bursts) && Separated(c, r.bursts)
  {
    var r := s.(bursts := s.bursts + [x], mask := MaskBurst(c, s.mask, x.bin));
    forall b: nat | b < c.fft ensures r.mask[b] <==> Covered(c, r.bursts, b) {
      CoveredMore(c, s.bursts, x, b);
    }
    assert !Covered(c, s.bursts, x.bin);
    forall i | 0 <= i < |s.bursts| ensures !Covers(c, s.bursts[i].bin, x.bin) {
    }
  }

  ghost predicate Apart(c: Config, t: Tracker) {
    MaskOk(c, t) && InRange(c, t.bursts) && Separated(c, t.bursts) && !TooMany(c, t)
  }

  lemma EmptyApart(c: Config, t: Tracker)
    requires t.bursts == [] && t.mask == Clear(c)
    ensures Apart(c, t)
  {
  }

  /** After every frame the mask is exactly the union of the windows, centres lie outside each other's windows, and
      there are no more bursts than allowed. */
  lemma FrameKeepsApart(c: Config, s: State, mag: seq<real>, peaks: seq<Peak>)
    requires FrameOk(c, s, mag, peaks) && Apart(c, s.tracker)
    ensures Apart(c, Frame(c, s, mag, peaks).tracker)
  {
    if s.noise.primed {
      var rel := Relative(mag, s.noise.sum);
      var p := Pruned(c, s.tracker, rel, s.index);
      PrunedApart(c, s.tracker, rel, s.index);
      CreatedApart(c, p, s.index, peaks, |peaks|);
      var t := Candidates(c, s, mag, peaks);
      hide Pruned, Created, MaskOk, InRange, Separated, Relative, Updated, PeaksOk;
      if TooMany(c, t) {
        EmptyApart(c, Squelched(c, t, s.index));
      }
    }
  }

  // ---- Packing ----

  /** The n numbers from lo on. */
  function Range(lo: int, n: nat): set<int> {
    if n == 0 then {} else Range(lo, n - 1) + {lo + n - 1}
  }

  lemma {:induction false} RangeIn(lo: int, n: nat)
    ensures forall x :: x in Range(lo, n) <==> lo <= x < lo + n
    ensures |Range(lo, n)| == n
  {
    if n > 0 {
      RangeIn(lo, n - 1);
    }
  }

  /** The right halves of the first n windows, with their centres. */
  function Occupied(c: Config, bursts: seq<Burst>, n: nat): set<int>
    requires n <= |bursts|
  {
    if n == 0 then {} else Occupied(c, bursts, n - 1) + Range(bursts[n - 1].bin, Half(c) + 1)
  }

  lemma {:induction false} OccupiedIn(c: Config, bursts: seq<Burst>, n: nat, x: int)
    requires n <= |bursts|
    ensures x in Occupied(c, bursts, n) <==> exists i :: 0 <= i < n && bursts[i].bin <= x <= bursts[i].bin + Half(c)
  {
    hide Range;
    if n > 0 {
      OccupiedIn(c, bursts, n - 1, x);
      RangeIn(bursts[n - 1].bin, Half(c) + 1);
    }
  }

  lemma Disjoint(a: set<int>, b: set<int>)
    requires a !! b
    ensures |a + b| == |a| + |b|
  {
  }

  lemma RightHalfFree(c: Config, bursts: seq<Burst>, n: nat)
    requires n < |bursts| && Separated(c, bursts)
    ensures Occupied(c, bursts, n) !! Range(bursts[n].bin, Half(c) + 1)
  {
    hide Range, Occupied;
    var b := bursts[n].bin;
    RangeIn(b, Half(c) + 1);
    forall x | x in Range(b, Half(c) + 1) ensures x !in Occupied(c, bursts, n) {
      OccupiedIn(c, bursts, n, x);
    }
  }

  lemma {:induction false} OccupiedSize(c: Config, bursts: seq<Burst>, n: nat)
    requires n <= |bursts| && Separated(c, bursts)
    ensures |Occupied(c, bursts, n)| == n * (Half(c) + 1)
  {
    hide Range, Separated, Half;
    if n > 0 {
      OccupiedSize(c, bursts, n - 1);
      RightHalfFree(c, bursts, n - 1);
      RangeIn(bursts[n - 1].bin, Half(c) + 1);
      Disjoint(Occupied(c, bursts, n - 1), Range(bursts[n - 1].bin, Half(c) + 1));
      assert n * (Half(c) + 1) == (n - 1) * (Half(c) + 1) + (Half(c) + 1);
    }
  }

  lemma SubsetSize(a: set<int>, b: set<int>)
    requires a <= b
    ensures |a| <= |b|
  {
    assert b == a + (b - a);
  }

  /** Bursts that are separated cannot be more than fit side by side. */
  lemma Packing(c: Config, bursts: seq<Burst>)
    requires Separated(c, bursts) && InRange(c, bursts)
    ensures |bursts| * (c.width / 2 + 1) <= c.fft
  {
    hide Range, Occupied;
    OccupiedSize(c, bursts, |bursts|);
    RangeIn(0, c.fft);
    forall x | x in Occupied(c, bursts, |bursts|) ensures x in Range(0, c.fft) {
      OccupiedIn(c, bursts, |bursts|, x);
    }
    SubsetSize(Occupied(c, bursts, |bursts|), Range(0, c.fft));
  }

  // ---- Every peak is accounted for ----

  /** Some burst covers the bin: one of the first n, or one at least as strong as the peak. */
  ghost predicate Explained(c: Config, bursts: seq<Burst>, n: nat, p: Peak) {
    exists i :: 0 <= i < |bursts| && Covers(c, bursts[i].bin, p.bin) && (i < n || bursts[i].strength >= p.strength)
  }

  lemma ExplainedMore(c: Config, bursts: seq<Burst>, x: Burst, n: nat, p: Peak)
    requires Explained(c, bursts, n, p)
    ensures Explained(c, bursts + [x], n, p)
  {
    var i :| 0 <= i < |bursts| && Covers(c, bursts[i].bin, p.bin) && (i < n || bursts[i].strength >= p.strength);
    assert (bursts + [x])[i] == bursts[i];
  }

  /** The bursts added by the first n peaks are at least as strong as any later peak. */
  lemma {:induction false} CreatedStrong(c: Config, t: Tracker, index: nat, peaks: seq<Peak>, n: nat, k: nat)
    requires n <= k < |peaks| && PeakBins(c, peaks) && |t.mask| == c.fft
    requires forall i, j :: 0 <= i < j < |peaks| ==> peaks[i].strength >= peaks[j].strength
    ensures var r := Created(c, t, index, peaks, n);
            |t.bursts| <= |r.bursts| && r.bursts[..|t.bursts|] == t.bursts &&
            forall i :: |t.bursts| <= i < |r.bursts| ==> r.bursts[i].strength >= peaks[k].strength
  {
    if n > 0 {
      CreatedStrong(c, t, index, peaks, n - 1, k);
    }
  }

  /** Greedy choice: every peak of a frame lies in the window of a burst that was there before, or that was created in
      this frame with at least the peak's strength. */
  lemma {:induction false} CreatedExplains(c: Config, t: Tracker, index: nat, peaks: seq<Peak>, n: nat, k: nat)
    requires k < n <= |peaks| && PeakBins(c, peaks) && |t.mask| == c.fft && MaskOk(c, t) && InRange(c, t.bursts) &&
             Separated(c, t.bursts)
    requires forall i, j :: 0 <= i < j < |peaks| ==> peaks[i].strength >= peaks[j].strength
    ensures Explained(c, Created(c, t, index, peaks, n).bursts, |t.bursts|, peaks[k])
  {
    hide MaskOk, InRange, Separated, Explained, MaskBurst;
    var s, p := Created(c, t, index, peaks, n - 1), peaks[n - 1];
    CreatedApart(c, t, index, peaks, n - 1);
    if k == n - 1 {
      CreatedStrong(c, t, index, peaks, n - 1, k);
      LastExplained(c, s, |t.bursts|, NewBurst(c, s.nextId, index, p), p);
    } else {
      CreatedExplains(c, t, index, peaks, n - 1, k);
      if !s.mask[p.bin] {
        ExplainedMore(c, s.bursts, NewBurst(c, s.nextId, index, p), |t.bursts|, peaks[k]);
      }
    }
  }

  lemma LastExplained(c: Config, s: Tracker, n: nat, x: Burst, p: Peak)
    requires MaskOk(c, s) && p.bin < c.fft && x.bin == p.bin && x.strength == p.strength
    requires forall i :: n <= i < |s.bursts| ==> s.bursts[i].strength >= p.strength
    ensures Explained(c, if s.mask[p.bin] then s.bursts else s.bursts + [x], n, p)
  {
    if s.mask[p.bin] {
      assert Covered(c, s.bursts, p.bin);
      var i :| 0 <= i < |s.bursts| && Covers(c, s.bursts[i].bin, p.bin);
    } else {
      assert (s.bursts + [x])[|s.bursts|] == x && Covers(c, x.bin, p.bin);
    }
  }

  /** When no squelch fires, every bin above the threshold that is eligible and was not masked lies, after the frame, in
      the window of a surviving older burst or of a new one at least as strong. */
  lemma PeaksAreExplained(c: Config, s: State, mag: seq<real>, peaks: seq<Peak>, b: nat)
    requires FrameOk(c, s, mag, peaks) && Apart(c, s.tracker) && s.noise.primed &&
             !TooMany(c, Candidates(c, s, mag, peaks))
    requires b < c.fft && IsPeak(c, Relative(mag, s.noise.sum), s.tracker.mask, Peak(b, Relative(mag, s.noise.sum)[b]))
    ensures Explained(c, Frame(c, s, mag, peaks).tracker.bursts,
                      |Pruned(c, s.tracker, Relative(mag, s.noise.sum), s.index).bursts|,
                      Peak(b, Relative(mag, s.noise.sum)[b]))
  {
    var rel := Relative(mag, s.noise.sum);
    var p := Pruned(c, s.tracker, rel, s.index);
    PrunedApart(c, s.tracker, rel, s.index);
    assert Peak(b, rel[b]) in peaks;
    var k :| 0 <= k < |peaks| && peaks[k] == Peak(b, rel[b]);
    CreatedExplains(c, p, s.index, peaks, |peaks|, k);
  }

  // ---- Identities ----

  /** How many of the bursts have this identity. */
  function Count(bursts: seq<Burst>, id: nat): nat {
    if bursts == [] then 0 else Count(bursts[..|bursts| - 1], id) + if bursts[|bursts| - 1].id == id then 1 else 0
  }

  lemma CountMore(bursts: seq<Burst>, x: Burst, id: nat)
    ensures Count(bursts + [x], id) == Count(bursts, id) + if x.id == id then 1 else 0
  {
    assert (bursts + [x])[..|bursts|] == bursts;
  }

  lemma {:induction false} CountAppend(a: seq<Burst>, b: seq<Burst>, id: nat)
    ensures Count(a + b, id) == Count(a, id) + Count(b, id)
  {
    if b == [] {
      assert a + b == a;
    } else {
      CountAppend(a, b[..|b| - 1], id);
      assert a + b == (a + b[..|b| - 1]) + [b[|b| - 1]];
      CountMore(a + b[..|b| - 1], b[|b| - 1], id);
    }
  }

  lemma {:induction false} CountSame(a: seq<Burst>, b: seq<Burst>, id: nat)
    requires |a| == |b| && forall i :: 0 <= i < |a| ==> a[i].id == b[i].id
    ensures Count(a, id) == Count(b, id)
  {
    if a != [] {
      CountSame(a[..|a| - 1], b[..|b| - 1], id);
    }
  }

  lemma {:induction false} KeptOrEnded(c: Config, bursts: seq<Burst>, index: nat, n: nat, id: nat)
    requires n <= |bursts|
    ensures Count(Kept(c, bursts, index, n), id) + Count(Ended(c, bursts, index, n), id) == Count(bursts[..n], id)
  {
    hide Count;
    if n == 0 {
      CountNone(id);
    } else {
      KeptOrEnded(c, bursts, index, n - 1, id);
      var b := bursts[n - 1];
      assert bursts[..n] == bursts[..n - 1] + [b];
      CountMore(bursts[..n - 1], b, id);
      if Over(c, b, index) {
        CountMore(Ended(c, bursts, index, n - 1), b.(stop := index), id);
        assert Kept(c, bursts, index, n) == Kept(c, bursts, index, n - 1);
      } else {
        CountMore(Kept(c, bursts, index, n - 1), b, id);
        assert Ended(c, bursts, index, n) == Ended(c, bursts, index, n - 1);
      }
    }
  }

  lemma CountNone(id: nat)
    ensures Count([], id) == 0
  {
  }

  lemma {:induction false} OlderOrNew(c: Config, bursts: seq<Burst>, index: nat, n: nat, id: nat)
    requires n <= |bursts|
    ensures Count(Older(c, bursts, index, true, n), id) + Count(Older(c, bursts, index, false, n), id) ==
            Count(bursts[..n], id)
  {
    hide Count;
    if n == 0 {
      CountNone(id);
    } else {
      OlderOrNew(c, bursts, index, n - 1, id);
      var b := bursts[n - 1];
      assert bursts[..n] == bursts[..n - 1] + [b];
      CountMore(bursts[..n - 1], b, id);
      if b.start != index - c.pre {
        CountMore(Older(c, bursts, index, true, n - 1), b.(stop := index), id);
        assert Older(c, bursts, index, false, n) == Older(c, bursts, index, false, n - 1);
      } else {
        CountMore(Older(c, bursts, index, false, n - 1), b, id);
        assert Older(c, bursts, index, true, n) == Older(c, bursts, index, true, n - 1);
      }
    }
  }

  /** The number of bursts with an identity, in all three lists. */
  function Total(t: Tracker, id: nat): nat {
    Count(t.bursts, id) + Count(t.finished, id) + Count(t.dropped, id)
  }

  /** Every identity issued is that of exactly one active, finished or dropped burst: the multiples of ten below the
      next one, and no others. */
  ghost predicate Accounted(t: Tracker) {
    t.nextId % 10 == 0 && forall id: nat :: Total(t, id) == if id % 10 == 0 && id < t.nextId then 1 else 0
  }

  lemma PrunedTotal(c: Config, t: Tracker, rel: seq<real>, index: nat, id: nat)
    requires |rel| == c.fft && InRange(c, t.bursts)
    ensures Total(Pruned(c, t, rel, index), id) == Total(t, id)
  {
    hide Kept, Ended, Masked, Count;
    var touched := Touched(c, t.bursts, rel, index);
    KeptOrEnded(c, touched, index, |touched|, id);
    assert touched[..|touched|] == touched;
    CountSame(touched, t.bursts, id);
    CountAppend(t.finished, Ended(c, touched, index, |touched|), id);
  }

  lemma {:induction false} CreatedAccounted(c: Config, t: Tracker, index: nat, peaks: seq<Peak>, n: nat)
    requires n <= |peaks| && PeakBins(c, peaks) && |t.mask| == c.fft && Accounted(t)
    ensures Accounted(Created(c, t, index, peaks, n))
  {
    hide Count, MaskBurst;
    if n > 0 {
      CreatedAccounted(c, t, index, peaks, n - 1);
      var s, p := Created(c, t, index, peaks, n - 1), peaks[n - 1];
      if !s.mask[p.bin] {
        var r := Created(c, t, index, peaks, n);
        forall id: nat ensures Total(r, id) == if id % 10 == 0 && id < r.nextId then 1 else 0 {
          CountMore(s.bursts, NewBurst(c, s.nextId, index, p), id);
          assert Total(s, id) == if id % 10 == 0 && id < s.nextId then 1 else 0;
        }
      }
    }
  }

  lemma SquelchedTotal(c: Config, t: Tracker, index: nat, id: nat)
    ensures Total(Squelched(c, t, index), id) == Total(t, id)
  {
    hide Older, Count;
    OlderOrNew(c, t.bursts, index, |t.bursts|, id);
    assert t.bursts[..|t.bursts|] == t.bursts;
    CountAppend(t.finished, Older(c, t.bursts, index, true, |t.bursts|), id);
    CountAppend(t.dropped, Older(c, t.bursts, index, false, |t.bursts|), id);
    CountNone(id);
  }

  /** No identity is lost and none is used twice. */
  lemma FrameKeepsAccounted(c: Config, s: State, mag: seq<real>, peaks: seq<Peak>)
    requires Shape(c, s) && |mag| == c.fft && PeakBins(c, peaks) && Accounted(s.tracker)
    ensures Accounted(Frame(c, s, mag, peaks).tracker)
  {
    hide Total, Created, Relative, Updated;
    if s.noise.primed {
      var rel := Relative(mag, s.noise.sum);
      var p := Pruned(c, s.tracker, rel, s.index);
      forall id: nat ensures Total(p, id) == if id % 10 == 0 && id < p.nextId then 1 else 0 {
        PrunedTotal(c, s.tracker, rel, s.index, id);
      }
      CreatedAccounted(c, p, s.index, peaks, |peaks|);
      var t := Candidates(c, s, mag, peaks);
      forall id: nat ensures Total(Squelched(c, t, s.index), id) == Total(t, id) {
        SquelchedTotal(c, t, s.index, id);
      }
    }
  }

  // ---- Bursts from before a frame ----

  /** Every active burst was created in an earlier frame. */
  predicate Past(c: Config, bursts: seq<Burst>, index: int) {
    forall i :: 0 <= i < |bursts| ==> bursts[i].start + c.pre < index
  }

  lemma PrunedPast(c: Config, t: Tracker, rel: seq<real>, index: nat)
    requires |rel| == c.fft && InRange(c, t.bursts) && Past(c, t.bursts, index)
    ensures Past(c, Pruned(c, t, rel, index).bursts, index)
  {
    hide Loud, Masked, Over, Ended;
    var touched := Touched(c, t.bursts, rel, index);
    var from := KeptFrom(c, touched, index, |touched|);
  }

  /** Creation leaves the other lists alone and adds bursts of this frame at the end. */
  lemma {:induction false} CreatedSplit(c: Config, t: Tracker, index: nat, peaks: seq<Peak>, n: nat)
    requires n <= |peaks| && PeakBins(c, peaks) && |t.mask| == c.fft
    ensures var r := Created(c, t, index, peaks, n);
            && r.finished == t.finished && r.dropped == t.dropped
            && |t.bursts| <= |r.bursts| && r.bursts[..|t.bursts|] == t.bursts
            && forall i :: |t.bursts| <= i < |r.bursts| ==> r.bursts[i].start == index - c.pre
  {
    hide MaskBurst;
    if n > 0 {
      CreatedSplit(c, t, index, peaks, n - 1);
    }
  }

  lemma CandidatesSplit(c: Config, s: State, mag: seq<real>, peaks: seq<Peak>)
    requires Shape(c, s) && |mag| == c.fft && PeakBins(c, peaks) && Past(c, s.tracker.bursts, s.index)
    ensures var p, t := Pruned(c, s.tracker, Relative(mag, s.noise.sum), s.index), Candidates(c, s, mag, peaks);
            && |p.bursts| <= |t.bursts| && t.bursts[..|p.bursts|] == p.bursts
            && t.finished == p.finished && t.dropped == p.dropped
            && Past(c, p.bursts, s.index)
            && forall i :: 0 <= i < |t.bursts| ==> (t.bursts[i].start != s.index - c.pre <==> i < |p.bursts|)
  {
    hide Pruned, Created, Relative;
    var rel := Relative(mag, s.noise.sum);
    var p := Pruned(c, s.tracker, rel, s.index);
    PrunedPast(c, s.tracker, rel, s.index);
    CreatedSplit(c, p, s.index, peaks, |peaks|);
    var t := Candidates(c, s, mag, peaks);
    forall i | 0 <= i < |t.bursts| ensures t.bursts[i].start != s.index - c.pre <==> i < |p.bursts| {
      if i < |p.bursts| {
        assert t.bursts[..|p.bursts|][i] == p.bursts[i];
      }
    }
  }

  lemma FrameKeepsPast(c: Config, s: State, mag: seq<real>, peaks: seq<Peak>)
    requires Shape(c, s) && |mag| == c.fft && PeakBins(c, peaks) && Past(c, s.tracker.bursts, s.index)
    ensures Past(c, Frame(c, s, mag, peaks).tracker.bursts, s.index + c.fft)
  {
    hide Created, Pruned, Relative, Updated, Older;
    if s.noise.primed {
      CandidatesSplit(c, s, mag, peaks);
      var p, t := Pruned(c, s.tracker, Relative(mag, s.noise.sum), s.index), Candidates(c, s, mag, peaks);
      forall i | 0 <= i < |t.bursts| ensures t.bursts[i].start + c.pre < s.index + c.fft {
        if i < |p.bursts| {
          assert t.bursts[..|p.bursts|][i] == p.bursts[i];
        }
      }
    }
  }

  /** When the first m bursts are those from before, the squelch separates exactly these from the others. */
  lemma {:induction false} OlderSplit(c: Config, bursts: seq<Burst>, index: nat, m: nat, n: nat)
    requires m <= |bursts| && n <= |bursts|
    requires forall i :: 0 <= i < |bursts| ==> (bursts[i].start != index - c.pre <==> i < m)
    ensures var k := if n < m then n else m;
            Older(c, bursts, index, true, n) == seq(k, i requires 0 <= i < k => bursts[i].(stop := index)) &&
            Older(c, bursts, index, false, n) == bursts[k..n]
  {
    if n > 0 {
      OlderSplit(c, bursts, index, m, n - 1);
    }
  }

  /** Exactly the bursts from before the frame that went on have been finished, in their order, and exactly the new
      ones dropped. */
  ghost predicate Split(c: Config, s: State, mag: seq<real>, peaks: seq<Peak>, r: Tracker)
    requires Shape(c, s) && |mag| == c.fft && PeakBins(c, peaks)
  {
    var p, t := Pruned(c, s.tracker, Relative(mag, s.noise.sum), s.index), Candidates(c, s, mag, peaks);
    var m := |p.bursts|;
    && m <= |t.bursts| && t.bursts[..m] == p.bursts && r.bursts == []
    && r.finished == p.finished + seq(m, i requires 0 <= i < m => p.bursts[i].(stop := s.index))
    && r.dropped == s.tracker.dropped + t.bursts[m..]
  }

  /** The squelch tells old from new by the start alone; that is enough. */
  lemma SquelchSplits(c: Config, s: State, mag: seq<real>, peaks: seq<Peak>)
    requires Shape(c, s) && |mag| == c.fft && PeakBins(c, peaks) && Past(c, s.tracker.bursts, s.index)
    requires s.noise.primed && TooMany(c, Candidates(c, s, mag, peaks))
    ensures Split(c, s, mag, peaks, Frame(c, s, mag, peaks).tracker)
  {
    hide Created, Relative, Updated, Older, Kept, Ended, Touched, Masked, Reset;
    CandidatesSplit(c, s, mag, peaks);
    var p, t := Pruned(c, s.tracker, Relative(mag, s.noise.sum), s.index), Candidates(c, s, mag, peaks);
    var m := |p.bursts|;
    OlderSplit(c, t.bursts, s.index, m, |t.bursts|);
    forall i | 0 <= i < m ensures t.bursts[i] == p.bursts[i] {
      assert t.bursts[..m][i] == p.bursts[i];
    }
    assert seq(m, i requires 0 <= i < m => t.bursts[i].(stop := s.index)) ==
           seq(m, i requires 0 <= i < m => p.bursts[i].(stop := s.index));
  }

  // ---- Lifetimes ----

  /** An active burst after the frame at idx: just created, or heard of recently and not too long. */
  predicate Lives(c: Config, b: Burst, idx: int) {
    && b.start <= b.last <= idx && 0 <= b.last + c.post && b.start + c.pre <= idx
    && (b.start + c.pre == idx || (idx < b.last + c.post && b.last - b.start <= c.maxLen))
  }

  /** A finished burst began before it ended and lasted less than the longest burst, its tail and one frame. */
  predicate Bounded(c: Config, b: Burst) {
    b.start + c.pre <= b.stop && b.stop - b.start < c.maxLen + c.post + c.fft
  }

  predicate AllLive(c: Config, bursts: seq<Burst>, idx: int) {
    forall i :: 0 <= i < |bursts| ==> Lives(c, bursts[i], idx)
  }

  predicate AllBounded(c: Config, bursts: seq<Burst>) {
    forall i :: 0 <= i < |bursts| ==> Bounded(c, bursts[i])
  }

  lemma TouchedFate(c: Config, b: Burst, index: nat, last: int)
    requires c.maxLen > 0 && c.pre < c.maxLen + c.post && Lives(c, b, index - c.fft) && c.fft > 0 &&
             (last == b.last || last == index)
    ensures Over(c, b.(last := last), index) ==> Bounded(c, b.(last := last, stop := index))
    ensures !Over(c, b.(last := last), index) ==> Lives(c, b.(last := last), index) && b.start + c.pre < index
  {
  }

  lemma {:induction false} KeptLive(c: Config, bursts: seq<Burst>, index: nat, n: nat)
    requires n <= |bursts|
    requires forall i :: 0 <= i < n && !Over(c, bursts[i], index) ==>
             Lives(c, bursts[i], index) && bursts[i].start + c.pre < index
    ensures AllLive(c, Kept(c, bursts, index, n), index)
    ensures forall i :: 0 <= i < |Kept(c, bursts, index, n)| ==> Kept(c, bursts, index, n)[i].start + c.pre < index
  {
    hide Over, Lives;
    if n > 0 {
      KeptLive(c, bursts, index, n - 1);
    }
  }

  lemma {:induction false} EndedBounded(c: Config, bursts: seq<Burst>, index: nat, n: nat)
    requires n <= |bursts|
    requires forall i :: 0 <= i < n && Over(c, bursts[i], index) ==> Bounded(c, bursts[i].(stop := index))
    ensures AllBounded(c, Ended(c, bursts, index, n))
  {
    hide Over, Bounded;
    if n > 0 {
      EndedBounded(c, bursts, index, n - 1);
    }
  }

  lemma PrunedLives(c: Config, t: Tracker, rel: seq<real>, index: nat)
    requires ConfigOk(c) && c.pre < c.maxLen + c.post && |rel| == c.fft && InRange(c, t.bursts)
    requires AllLive(c, t.bursts, index - c.fft) && AllBounded(c, t.finished)
    ensures var r := Pruned(c, t, rel, index);
            && AllLive(c, r.bursts, index) && AllBounded(c, r.finished)
            && forall i :: 0 <= i < |r.bursts| ==> r.bursts[i].start + c.pre < index
  {
    hide Loud, Masked, Bounded, Over, Lives, Kept, Ended;
    var touched := Touched(c, t.bursts, rel, index);
    forall i | 0 <= i < |touched|
      ensures !Over(c, touched[i], index) ==> Lives(c, touched[i], index) && touched[i].start + c.pre < index
      ensures Over(c, touched[i], index) ==> Bounded(c, touched[i].(stop := index))
    {
      TouchedFate(c, t.bursts[i], index, touched[i].last);
    }
    KeptLive(c, touched, index, |touched|);
    EndedBounded(c, touched, index, |touched|);
  }

  lemma {:induction false} CreatedLives(c: Config, t: Tracker, index: nat, peaks: seq<Peak>, n: nat)
    requires n <= |peaks| && PeakBins(c, peaks) && |t.mask| == c.fft && (c.pre <= index + c.post || peaks == [])
    requires AllLive(c, t.bursts, index)
    ensures AllLive(c, Created(c, t, index, peaks, n).bursts, index)
  {
    hide MaskBurst;
    if n > 0 {
      CreatedLives(c, t, index, peaks, n - 1);
    }
  }

  lemma SquelchedLives(c: Config, t: Tracker, index: nat, m: nat)
    requires m <= |t.bursts| && AllLive(c, t.bursts, index) && AllBounded(c, t.finished) && c.fft > 0
    requires forall i :: 0 <= i < |t.bursts| ==> (t.bursts[i].start != index - c.pre <==> i < m)
    ensures AllBounded(c, Squelched(c, t, index).finished)
  {
    OlderSplit(c, t.bursts, index, m, |t.bursts|);
    var older := Older(c, t.bursts, index, true, |t.bursts|);
    forall i | 0 <= i < |older| ensures Bounded(c, older[i]) {
      assert Lives(c, t.bursts[i], index);
    }
  }

  ghost predicate Timely(c: Config, s: State) {
    AllLive(c, s.tracker.bursts, s.index - c.fft) && AllBounded(c, s.tracker.finished)
  }

  /** Every finished burst is bounded in length. */
  lemma FrameKeepsTimely(c: Config, s: State, mag: seq<real>, peaks: seq<Peak>)
    requires FrameOk(c, s, mag, peaks) && c.pre < c.maxLen + c.post && Timely(c, s)
    requires Past(c, s.tracker.bursts, s.index)
    requires s.noise.primed ==> c.pre <= s.index + c.post || peaks == []
    requires !s.noise.primed ==> s.tracker.bursts == []
    ensures Timely(c, Frame(c, s, mag, peaks))
  {
    hide Lives, Bounded, Created, Pruned, Relative, Updated, Reset, PeaksOk;
    if s.noise.primed {
      var rel := Relative(mag, s.noise.sum);
      var p := Pruned(c, s.tracker, rel, s.index);
      PrunedLives(c, s.tracker, rel, s.index);
      CreatedLives(c, p, s.index, peaks, |peaks|);
      CandidatesSplit(c, s, mag, peaks);
      SquelchedLives(c, Candidates(c, s, mag, peaks), s.index, |p.bursts|);
    }
  }

  // ---- Priming ----

  /** Before the history is full there are no bursts; once it is, that many frames have passed. */
  predicate Warm(c: Config, s: State) {
    if s.noise.primed then s.index >= c.history * c.fft
    else s.tracker.bursts == [] && s.index >= s.noise.at * c.fft
  }

  lemma FrameKeepsWarm(c: Config, s: State, mag: seq<real>, peaks: seq<Peak>)
    requires Shape(c, s) && |mag| == c.fft && PeakBins(c, peaks) && Warm(c, s)
    ensures Warm(c, Frame(c, s, mag, peaks))
  {
    hide Created, Pruned, Relative;
    assert (s.noise.at + 1) * c.fft == s.noise.at * c.fft + c.fft;
    assert 1 * c.fft == c.fft;
    var d := if s.noise.primed then Detected(c, s, mag, peaks) else s;
    if s.noise.primed && !d.noise.primed {
      assert d.noise.at == 0 && d.tracker.bursts == [];
    }
  }

  // ---- Identities in order ----

  /** Active bursts stand in the order of their creation, and the next identity is greater than theirs. */
  predicate Ordered(t: Tracker) {
    && (forall i, j :: 0 <= i < j < |t.bursts| ==> t.bursts[i].id < t.bursts[j].id)
    && (forall i :: 0 <= i < |t.bursts| ==> t.bursts[i].id < t.nextId)
  }

  lemma PrunedOrdered(c: Config, t: Tracker, rel: seq<real>, index: nat)
    requires |rel| == c.fft && InRange(c, t.bursts) && Ordered(t)
    ensures Ordered(Pruned(c, t, rel, index))
  {
    hide Loud, Masked, Over, Ended;
    var touched := Touched(c, t.bursts, rel, index);
    var from := KeptFrom(c, touched, index, |touched|);
  }

  lemma {:induction false} CreatedOrdered(c: Config, t: Tracker, index: nat, peaks: seq<Peak>, n: nat)
    requires n <= |peaks| && PeakBins(c, peaks) && |t.mask| == c.fft && Ordered(t)
    ensures Ordered(Created(c, t, index, peaks, n))
  {
    hide MaskBurst;
    if n > 0 {
      CreatedOrdered(c, t, index, peaks, n - 1);
    }
  }

  /** Identities increase in the order of creation. */
  lemma FrameKeepsOrdered(c: Config, s: State, mag: seq<real>, peaks: seq<Peak>)
    requires Shape(c, s) && |mag| == c.fft && PeakBins(c, peaks) && Ordered(s.tracker)
    ensures Ordered(Frame(c, s, mag, peaks).tracker)
  {
    hide Ordered, Pruned, Created, Relative, Updated, Older;
    if s.noise.primed {
      var rel := Relative(mag, s.noise.sum);
      PrunedOrdered(c, s.tracker, rel, s.index);
      CreatedOrdered(c, Pruned(c, s.tracker, rel, s.index), s.index, peaks, |peaks|);
      NoneOrdered(Squelched(c, Candidates(c, s, mag, peaks), s.index));
    }
  }

  lemma NoneOrdered(t: Tracker)
    requires t.bursts == []
    ensures Ordered(t)
  {
  }

  // ---- Finished bursts ----

  lemma {:induction false} EndedStops(c: Config, bursts: seq<Burst>, index: nat, n: nat)
    requires n <= |bursts|
    ensures forall i :: 0 <= i < |Ended(c, bursts, index, n)| ==> Ended(c, bursts, index, n)[i].stop == index
  {
    hide Over;
    if n > 0 {
      EndedStops(c, bursts, index, n - 1);
    }
  }

  lemma {:induction false} OlderStops(c: Config, bursts: seq<Burst>, index: nat, n: nat)
    requires n <= |bursts|
    ensures forall i :: 0 <= i < |Older(c, bursts, index, true, n)| ==>
            Older(c, bursts, index, true, n)[i].stop == index
  {
    if n > 0 {
      OlderStops(c, bursts, index, n - 1);
    }
  }

  lemma {:induction false} CreatedFinishes(c: Config, t: Tracker, index: nat, peaks: seq<Peak>, n: nat)
    requires n <= |peaks| && PeakBins(c, peaks) && |t.mask| == c.fft
    ensures Created(c, t, index, peaks, n).finished == t.finished
  {
    hide MaskBurst;
    if n > 0 {
      CreatedFinishes(c, t, index, peaks, n - 1);
    }
  }

  /** Bursts finished in this frame follow those finished before, and end at its position. */
  ghost predicate Appends(f: seq<Burst>, f': seq<Burst>, index: nat) {
    f <= f' && forall i :: |f| <= i < |f'| ==> f'[i].stop == index
  }

  lemma FrameFinishes(c: Config, s: State, mag: seq<real>, peaks: seq<Peak>)
    requires Shape(c, s) && |mag| == c.fft && PeakBins(c, peaks)
    ensures Appends(s.tracker.finished, Frame(c, s, mag, peaks).tracker.finished, s.index)
  {
    hide Created, Relative, Updated, Older, Ended, Kept, Touched, Masked;
    if s.noise.primed {
      var rel := Relative(mag, s.noise.sum);
      var touched := Touched(c, s.tracker.bursts, rel, s.index);
      EndedStops(c, touched, s.index, |touched|);
      CreatedFinishes(c, Pruned(c, s.tracker, rel, s.index), s.index, peaks, |peaks|);
      var t := Candidates(c, s, mag, peaks);
      OlderStops(c, t.bursts, s.index, |t.bursts|);
    }
  }

  // ---- Every run ----

  /** What every frame keeps, whatever the configuration. */
  ghost predicate Inv(c: Config, s: State) {
    && Shape(c, s) && Apart(c, s.tracker) && SumOk(c, s.noise)
    && Accounted(s.tracker) && Ordered(s.tracker) && Warm(c, s) && Past(c, s.tracker.bursts, s.index)
  }

  lemma FrameKeepsInv(c: Config, s: State, mag: seq<real>, peaks: seq<Peak>)
    requires Inv(c, s) && FrameOk(c, s, mag, peaks)
    ensures Inv(c, Frame(c, s, mag, peaks))
  {
    FrameKeepsApart(c, s, mag, peaks);
    FrameKeepsSum(c, s, mag, peaks);
    FrameKeepsAccounted(c, s, mag, peaks);
    FrameKeepsOrdered(c, s, mag, peaks);
    FrameKeepsWarm(c, s, mag, peaks);
    FrameKeepsPast(c, s, mag, peaks);
    hide Detected, Updated, MaskOk, Separated, SumOk, Accounted, Ordered;
  }

  lemma StartInv(c: Config)
    requires ConfigOk(c)
    ensures Inv(c, Start(c))
  {
    ResetKeepsSum(c);
    EmptyApart(c, Start(c).tracker);
  }

  /** One frame's input: the magnitudes, and its peaks in the order the sort left them. */
  datatype Input = Input(mag: seq<real>, peaks: seq<Peak>)

  ghost predicate IsStep(c: Config, s: State, x: Input, s': State) {
    FrameOk(c, s, x.mag, x.peaks) && s' == Frame(c, s, x.mag, x.peaks)
  }

  ghost predicate IsRun(c: Config, states: seq<State>, inputs: seq<Input>) {
    && |states| == |inputs| + 1 && c.history > 0 && states[0] == Start(c)
    && (forall i :: 0 <= i < |inputs| ==> IsStep(c, states[i], inputs[i], states[i + 1]))
  }

  lemma {:induction false} RunKeepsInv(c: Config, states: seq<State>, inputs: seq<Input>, n: nat)
    requires ConfigOk(c) && IsRun(c, states, inputs) && n < |states|
    ensures Inv(c, states[n])
  {
    hide Inv, Frame;
    if n == 0 {
      StartInv(c);
    } else {
      RunKeepsInv(c, states, inputs, n - 1);
      assert IsStep(c, states[n - 1], inputs[n - 1], states[n - 1 + 1]);
      FrameKeepsInv(c, states[n - 1], inputs[n - 1].mag, inputs[n - 1].peaks);
    }
  }

  /** In every state of every run: active centres are more than half a window apart, they fit side by side in the
      spectrum, there are no more than allowed, and no bursts exist before the history is full. */
  lemma RunsAreSeparated(c: Config, states: seq<State>, inputs: seq<Input>, n: nat)
    requires ConfigOk(c) && IsRun(c, states, inputs) && n < |states|
    ensures var b := states[n].tracker.bursts;
            && (forall i, j :: 0 <= i < j < |b| ==>
                  b[i].bin - b[j].bin > c.width / 2 || b[j].bin - b[i].bin > c.width / 2)
            && |b| * (c.width / 2 + 1) <= c.fft && (c.maxBursts > 0 ==> |b| <= c.maxBursts)
            && (!states[n].noise.primed ==> b == [])
  {
    RunKeepsInv(c, states, inputs, n);
    hide IsRun, SumOk, Accounted, Ordered, MaskOk, NoiseOk;
    Packing(c, states[n].tracker.bursts);
  }

  /** Whenever the squelch fires in a run, for every configuration, it separates old bursts from new ones. */
  lemma RunsSplit(c: Config, states: seq<State>, inputs: seq<Input>, n: nat)
    requires ConfigOk(c) && IsRun(c, states, inputs) && n < |inputs|
    ensures var s, x := states[n], inputs[n];
            && FrameOk(c, s, x.mag, x.peaks)
            && (s.noise.primed && TooMany(c, Candidates(c, s, x.mag, x.peaks)) ==>
                  Split(c, s, x.mag, x.peaks, states[n + 1].tracker))
  {
    hide Frame, Candidates, Shape, PeaksOk, Apart, SumOk, Accounted, Ordered, Split;
    RunKeepsInv(c, states, inputs, n);
    var s, x := states[n], inputs[n];
    assert IsStep(c, s, x, states[n + 1]);
    if s.noise.primed && TooMany(c, Candidates(c, s, x.mag, x.peaks)) {
      SquelchSplits(c, s, x.mag, x.peaks);
    }
  }

  // ---- Lengths in every run ----

  /** The pre-length is less than the longest burst with its tail, and not more than history and tail cover; or there is
      no bin to look at. */
  ghost predicate Limited(c: Config) {
    (c.pre < c.maxLen + c.post && c.pre <= c.history * c.fft + c.post) || forall b: nat :: !Eligible(c, b)
  }

  /** No burst at all. */
  predicate Barren(t: Tracker) {
    t.bursts == [] && t.finished == []
  }

  lemma FrameKeepsBarren(c: Config, s: State, mag: seq<real>)
    requires Shape(c, s) && |mag| == c.fft && Barren(s.tracker)
    ensures Barren(Frame(c, s, mag, []).tracker)
  {
    hide Relative, Updated, Masked;
  }

  /** The bursts of a state keep the bound, or there are none. */
  ghost predicate InTime(c: Config, s: State) {
    if c.pre < c.maxLen + c.post && c.pre <= c.history * c.fft + c.post then Timely(c, s) else Barren(s.tracker)
  }

  lemma SomeEligible(c: Config, peaks: seq<Peak>)
    requires PeakBins(c, peaks) && peaks != []
    ensures exists b: nat :: Eligible(c, b)
  {
    assert Eligible(c, peaks[0].bin);
  }

  lemma FrameKeepsInTime(c: Config, s: State, mag: seq<real>, peaks: seq<Peak>)
    requires Limited(c) && Inv(c, s) && InTime(c, s) && FrameOk(c, s, mag, peaks)
    ensures InTime(c, Frame(c, s, mag, peaks))
  {
    hide Apart, SumOk, Accounted, Ordered, Timely, Frame, Eligible, PeaksOk, Past, Barren;
    if c.pre < c.maxLen + c.post && c.pre <= c.history * c.fft + c.post {
      FrameKeepsTimely(c, s, mag, peaks);
    } else {
      if peaks != [] {
        SomeEligible(c, peaks);
        assert false;
      }
      FrameKeepsBarren(c, s, mag);
    }
  }

  lemma StartInTime(c: Config)
    requires ConfigOk(c)
    ensures InTime(c, Start(c))
  {
  }

  lemma {:induction false} RunKeepsInTime(c: Config, states: seq<State>, inputs: seq<Input>, n: nat)
    requires ConfigOk(c) && Limited(c) && IsRun(c, states, inputs) && n < |states|
    ensures InTime(c, states[n])
  {
    hide InTime, Inv, Frame, Limited;
    if n == 0 {
      StartInTime(c);
    } else {
      RunKeepsInTime(c, states, inputs, n - 1);
      RunKeepsInv(c, states, inputs, n - 1);
      assert IsStep(c, states[n - 1], inputs[n - 1], states[n - 1 + 1]);
      FrameKeepsInTime(c, states[n - 1], inputs[n - 1].mag, inputs[n - 1].peaks);
    }
  }

  /** In every state of every run every finished burst is shorter than the longest burst, its tail and one frame
      together. */
  lemma RunsAreTimely(c: Config, states: seq<State>, inputs: seq<Input>, n: nat)
    requires ConfigOk(c) && Limited(c) && IsRun(c, states, inputs) && n < |states|
    ensures AllBounded(c, states[n].tracker.finished)
  {
    hide IsRun, Limited, AllLive, Bounded;
    RunKeepsInTime(c, states, inputs, n);
  }
}
