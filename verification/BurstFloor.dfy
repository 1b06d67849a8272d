/** Which frames the noise floor averages, when it is thrown away, and which bursts stay alive, in every run: told from
    the frames that went in. */
module BurstFloor {

  import opened BurstTracker
  import opened BurstInvariants
  import opened Modulo

  // ---- The frames that made the floor ----

  /** The magnitude at bin b of frames from..end of u, added up. */
  function Total(u: seq<seq<real>>, b: nat, from: nat, end: nat): real
    requires from <= end <= |u| && forall i :: from <= i < end ==> b < |u[i]|
    decreases end - from
  {
    if from == end then 0.0 else Total(u, b, from, end - 1) + u[end - 1][b]
  }

  predicate Frames(c: Config, u: seq<seq<real>>) {
    forall i :: 0 <= i < |u| ==> |u[i]| == c.fft
  }

  /** The first of the frames that are still in the history. */
  function Since(c: Config, u: seq<seq<real>>): (f: nat)
    ensures f <= |u|
  {
    if |u| >= c.history then |u| - c.history else 0
  }

  /** Where frame i of u was written. */
  function Row(c: Config, i: nat): (r: nat)
    requires c.history > 0
    ensures r < c.history
  {
    i % c.history
  }

  /** The floor is made of the last frames of u: each is in its row, rows not yet written are zero, and the sums are
      over these frames. */
  ghost predicate Made(c: Config, n: Noise, u: seq<seq<real>>) {
    && c.history > 0 && NoiseOk(c, n) && Frames(c, u)
    && (n.primed <==> |u| >= c.history) && n.at == |u| % c.history
    && (forall i :: Since(c, u) <= i < |u| ==> n.history[Row(c, i)] == u[i])
    && (forall k, b :: |u| <= k < c.history && 0 <= b < c.fft ==> n.history[k][b] == 0.0)
    && (forall b :: 0 <= b < c.fft ==> n.sum[b] == Total(u, b, Since(c, u), |u|))
  }

  lemma {:induction false} TotalPrefix(u: seq<seq<real>>, v: seq<seq<real>>, b: nat, from: nat, end: nat)
    requires from <= end <= |u| && forall i :: from <= i < end ==> b < |u[i]|
    requires end <= |v| && forall i :: from <= i < end ==> v[i] == u[i]
    ensures Total(v, b, from, end) == Total(u, b, from, end)
    decreases end - from
  {
    if from < end {
      TotalPrefix(u, v, b, from, end - 1);
    }
  }

  lemma {:induction false} TotalFirst(u: seq<seq<real>>, b: nat, from: nat, end: nat)
    requires from < end <= |u| && forall i :: from <= i < end ==> b < |u[i]|
    ensures Total(u, b, from, end) == u[from][b] + Total(u, b, from + 1, end)
    decreases end - from
  {
    if from + 1 < end {
      TotalFirst(u, b, from, end - 1);
    }
  }

  /** One frame more: it takes the row of the oldest one. */
  lemma OneFrame(c: Config, n: Noise, u: seq<seq<real>>, mag: seq<real>)
    requires Made(c, n, u) && |mag| == c.fft
    ensures Made(c, Updated(c, n, mag), u + [mag])
  {
    hide Total;
    var n', v := Updated(c, n, mag), u + [mag];
    NextRow(|u|, c.history);
    Cursor(c, u);
    forall i | Since(c, v) <= i < |v| ensures n'.history[Row(c, i)] == v[i] {
      if i < |u| {
        OtherRow(i, |u|, c.history);
      }
    }
    forall b | 0 <= b < c.fft ensures n'.sum[b] == Total(v, b, Since(c, v), |v|) {
      NewTotal(c, u, mag, b);
    }
  }

  lemma NextRow(x: nat, h: nat)
    requires h > 0
    ensures (x + 1) % h == if x % h + 1 == h then 0 else x % h + 1
  {
    ModAddOne(x, h);
    if x % h + 1 == h { ModUnique(h, h, 1, 0); } else { ModUnique(x % h + 1, h, 0, x % h + 1); }
  }

  /** The cursor is on the row of the frame that leaves, or on the next row not yet written. */
  lemma Cursor(c: Config, u: seq<seq<real>>)
    requires c.history > 0
    ensures |u| < c.history ==> |u| % c.history == |u|
    ensures |u| >= c.history ==> Row(c, |u| - c.history) == |u| % c.history
  {
    if |u| < c.history { ModUnique(|u|, c.history, 0, |u|); } else { ModShift(|u| - c.history, c.history); }
  }

  lemma OtherRow(i: nat, j: nat, h: nat)
    requires i < j < i + h
    ensures i % h != j % h
  {
    if i % h == j % h {
      SameSlot(i, j, h);
    }
  }

  lemma NewTotal(c: Config, u: seq<seq<real>>, mag: seq<real>, b: nat)
    requires c.history > 0 && Frames(c, u) && |mag| == c.fft && b < c.fft
    ensures var v := u + [mag];
            Total(v, b, Since(c, v), |v|) ==
              Total(u, b, Since(c, u), |u|) - (if |u| >= c.history then u[|u| - c.history][b] else 0.0) + mag[b]
  {
    var v := u + [mag];
    TotalPrefix(u, v, b, Since(c, v), |u|);
    if |u| >= c.history {
      TotalFirst(u, b, Since(c, u), |u|);
    }
  }

  lemma NoFrames(c: Config)
    requires c.history > 0
    ensures Made(c, Reset(c), [])
  {
    ModUnique(0, c.history, 0, 0);
  }

  // ---- Bursts that are heard ----

  /** The centre or a neighbour is above the threshold times the floor. */
  ghost predicate Hears(c: Config, mag: seq<real>, sum: seq<real>, bin: nat)
    requires |mag| == |sum|
  {
    exists b: nat :: b < |mag| && bin <= b + 1 && b <= bin + 1 && sum[b] > 0.0 && mag[b] > c.threshold * sum[b]
  }

  lemma Quotient(m: real, s: real, t: real)
    requires s > 0.0
    ensures m / s > t <==> m > t * s
  {
    var q := m / s;
    assert q * s == m;
    if q > t {
      assert (q - t) * s > 0.0;
    } else {
      assert (t - q) * s >= 0.0;
    }
  }

  lemma AboveExactly(c: Config, mag: seq<real>, sum: seq<real>, b: nat)
    requires |mag| == |sum| && b < |mag| && c.threshold >= 0.0
    ensures Relative(mag, sum)[b] > c.threshold <==> sum[b] > 0.0 && mag[b] > c.threshold * sum[b]
  {
    if sum[b] > 0.0 {
      Quotient(mag[b], sum[b], c.threshold);
    }
  }

  /** What keeps a burst alive is exactly that. */
  lemma LoudExactly(c: Config, mag: seq<real>, sum: seq<real>, bin: nat)
    requires |mag| == |sum| && bin < |mag| && c.threshold >= 0.0
    ensures Loud(c, Relative(mag, sum), bin) <==> Hears(c, mag, sum, bin)
  {
    hide Relative;
    forall b: nat | b < |mag|
      ensures Relative(mag, sum)[b] > c.threshold <==> sum[b] > 0.0 && mag[b] > c.threshold * sum[b]
    {
      AboveExactly(c, mag, sum, b);
    }
    if Hears(c, mag, sum, bin) {
      var b: nat :| b < |mag| && bin <= b + 1 && b <= bin + 1 && sum[b] > 0.0 && mag[b] > c.threshold * sum[b];
      assert b == bin - 1 || b == bin || b == bin + 1;
    }
  }

  /** The burst after this frame, if it goes on. */
  ghost function Marked(c: Config, s: State, mag: seq<real>, b: Burst): Burst
    requires |mag| == |s.noise.sum|
  {
    if Hears(c, mag, s.noise.sum, b.bin) then b.(last := s.index) else b
  }

  lemma TouchedMarks(c: Config, s: State, mag: seq<real>, i: nat)
    requires Shape(c, s) && |mag| == c.fft && i < |s.tracker.bursts|
    ensures Touched(c, s.tracker.bursts, Relative(mag, s.noise.sum), s.index)[i] ==
            Marked(c, s, mag, s.tracker.bursts[i])
  {
    hide Relative, Hears, Loud;
    LoudExactly(c, mag, s.noise.sum, s.tracker.bursts[i].bin);
  }

  // ---- What a frame does to the floor ----

  /** A burst has become too long. */
  ghost predicate Forces(c: Config, s: State, mag: seq<real>)
    requires |mag| == |s.noise.sum|
  {
    s.noise.primed &&
    exists i :: 0 <= i < |s.tracker.bursts| &&
      Marked(c, s, mag, s.tracker.bursts[i]).last - s.tracker.bursts[i].start > c.maxLen
  }

  /** There are more bursts than allowed. */
  ghost predicate Fires(c: Config, s: State, x: Input)
    requires FrameOk(c, s, x.mag, x.peaks)
  {
    s.noise.primed && c.maxBursts > 0 && |Candidates(c, s, x.mag, x.peaks).bursts| > c.maxBursts
  }

  ghost predicate Resets(c: Config, s: State, x: Input)
    requires FrameOk(c, s, x.mag, x.peaks)
  {
    Fires(c, s, x) && s.squelch >= 7
  }

  /** The frames of the floor after this one: it counts when a burst has become too long, and when it ended without
      bursts. */
  ghost function FedBy(c: Config, s: State, x: Input, s': State, u: seq<seq<real>>): seq<seq<real>>
    requires FrameOk(c, s, x.mag, x.peaks)
  {
    var forced := if Forces(c, s, x.mag) then u + [x.mag] else u;
    var left := if Resets(c, s, x) then [] else forced;
    if s'.tracker.bursts == [] then left + [x.mag] else left
  }

  lemma ForcesExactly(c: Config, s: State, mag: seq<real>)
    requires Shape(c, s) && |mag| == c.fft && s.noise.primed
    ensures Forces(c, s, mag) <==> AnyLong(c, Touched(c, s.tracker.bursts, Relative(mag, s.noise.sum), s.index))
  {
    hide Relative, Touched, Marked;
    var touched := Touched(c, s.tracker.bursts, Relative(mag, s.noise.sum), s.index);
    forall i | 0 <= i < |touched|
      ensures touched[i] == Marked(c, s, mag, s.tracker.bursts[i]) && touched[i].start == s.tracker.bursts[i].start
    {
      TouchedMarks(c, s, mag, i);
      StartStays(c, s, mag, s.tracker.bursts[i]);
    }
  }

  lemma StartStays(c: Config, s: State, mag: seq<real>, b: Burst)
    requires |mag| == |s.noise.sum|
    ensures Marked(c, s, mag, b).start == b.start
  {
  }

  lemma FrameKeepsMade(c: Config, s: State, x: Input, u: seq<seq<real>>)
    requires FrameOk(c, s, x.mag, x.peaks) && Made(c, s.noise, u)
    ensures var s' := Frame(c, s, x.mag, x.peaks); Made(c, s'.noise, FedBy(c, s, x, s', u))
  {
    hide Made, Updated, Candidates, Relative, Touched, Squelched, AnyLong, Forces, PeaksOk, Reset, NoiseOk;
    var mag := x.mag;
    NoFrames(c);
    OneFrame(c, Reset(c), [], mag);
    OneFrame(c, s.noise, u, mag);
    OneFrame(c, Updated(c, s.noise, mag), u + [mag], mag);
    if s.noise.primed {
      ForcesExactly(c, s, mag);
    } else {
      NotForced(c, s, mag);
    }
  }

  lemma NotForced(c: Config, s: State, mag: seq<real>)
    requires Shape(c, s) && |mag| == c.fft && !s.noise.primed
    ensures !Forces(c, s, mag)
  {
  }

  // ---- In every run ----

  /** The magnitudes of the frames that updated the floor since it was last thrown away. */
  ghost function Fed(c: Config, states: seq<State>, inputs: seq<Input>, n: nat): seq<seq<real>>
    requires IsRun(c, states, inputs) && n < |states|
  {
    if n == 0 then []
    else
      assert IsStep(c, states[n - 1], inputs[n - 1], states[n - 1 + 1]);
      FedBy(c, states[n - 1], inputs[n - 1], states[n], Fed(c, states, inputs, n - 1))
  }

  lemma {:induction false} RunKeepsMade(c: Config, states: seq<State>, inputs: seq<Input>, n: nat)
    requires ConfigOk(c) && IsRun(c, states, inputs) && n < |states|
    ensures Made(c, states[n].noise, Fed(c, states, inputs, n))
  {
    hide Made, Frame, FedBy, FrameOk;
    if n == 0 {
      NoFrames(c);
    } else {
      RunKeepsMade(c, states, inputs, n - 1);
      assert IsStep(c, states[n - 1], inputs[n - 1], states[n - 1 + 1]);
      FrameKeepsMade(c, states[n - 1], inputs[n - 1], Fed(c, states, inputs, n - 1));
    }
  }

  lemma FromCursor(c: Config, u: seq<seq<real>>, k: nat)
    requires c.history > 0 && |u| >= c.history && k < c.history
    ensures var at := |u| % c.history;
            Row(c, |u| - c.history + k) == if at + k < c.history then at + k else at + k - c.history
  {
    var x := |u| % c.history + k;
    ModAdd(|u|, k, c.history);
    ModShift(|u| - c.history + k, c.history);
    if x < c.history { ModUnique(x, c.history, 0, x); } else { ModUnique(x, c.history, 1, x - c.history); }
  }

  lemma FullRows(c: Config, f: Noise, u: seq<seq<real>>)
    requires Made(c, f, u) && f.primed
    ensures f.history[f.at..] + f.history[..f.at] == u[|u| - c.history..]
  {
    hide Total;
    var r, v := f.history[f.at..] + f.history[..f.at], u[|u| - c.history..];
    forall k | 0 <= k < c.history ensures r[k] == v[k] {
      FromCursor(c, u, k);
      assert f.history[Row(c, |u| - c.history + k)] == u[|u| - c.history + k];
    }
  }

  lemma FirstRows(c: Config, f: Noise, u: seq<seq<real>>)
    requires Made(c, f, u) && !f.primed
    ensures f.history[..|u|] == u
  {
    hide Total;
    forall k | 0 <= k < |u| ensures f.history[k] == u[k] {
      ModUnique(k, c.history, 0, k);
      assert Row(c, k) == k;
    }
  }

  /** In every state of every run: the floor is full exactly when as many frames as it has rows have updated it since it
      was last thrown away; from the cursor on its rows are then the last of these, oldest first, and before the rows
      are these frames in order; and each sum is over exactly these frames. */
  lemma FloorExactly(c: Config, states: seq<State>, inputs: seq<Input>, n: nat)
    requires ConfigOk(c) && IsRun(c, states, inputs) && n < |states|
    ensures var f, u := states[n].noise, Fed(c, states, inputs, n);
            && NoiseOk(c, f) && Frames(c, u) && (f.primed <==> |u| >= c.history) && f.at == |u| % c.history
            && (if f.primed then f.history[f.at..] + f.history[..f.at] == u[|u| - c.history..]
                else f.history[..|u|] == u)
            && forall b: nat :: b < c.fft ==>
                 f.sum[b] == Total(u, b, if |u| >= c.history then |u| - c.history else 0, |u|)
  {
    hide Fed, IsRun, Total;
    RunKeepsMade(c, states, inputs, n);
    var f, u := states[n].noise, Fed(c, states, inputs, n);
    if f.primed {
      FullRows(c, f, u);
    } else {
      FirstRows(c, f, u);
    }
  }

  // ---- When the floor is thrown away ----

  /** What a frame adds to the squelch: three when there are too many bursts, minus one when not, and nothing while
      there is no full floor to compare with. */
  ghost function Weight(c: Config, s: State, x: Input): int
    requires FrameOk(c, s, x.mag, x.peaks)
  {
    if !s.noise.primed then 0 else if Fires(c, s, x) then 3 else -1
  }

  /** The weights of frames from..end of a run, added up. */
  ghost function Stretch(c: Config, states: seq<State>, inputs: seq<Input>, from: nat, end: nat): int
    requires IsRun(c, states, inputs) && from <= end < |states|
    decreases end - from
  {
    if from == end then 0
    else
      assert IsStep(c, states[end - 1], inputs[end - 1], states[end - 1 + 1]);
      Stretch(c, states, inputs, from, end - 1) + Weight(c, states[end - 1], inputs[end - 1])
  }

  /** The first frame after the floor was last thrown away. */
  ghost function Fresh(c: Config, states: seq<State>, inputs: seq<Input>, n: nat): (f: nat)
    requires IsRun(c, states, inputs) && n < |states|
    ensures f <= n
  {
    if n == 0 then 0
    else
      assert IsStep(c, states[n - 1], inputs[n - 1], states[n - 1 + 1]);
      if Resets(c, states[n - 1], inputs[n - 1]) then n else Fresh(c, states, inputs, n - 1)
  }

  /** The counter is the weight of the heaviest stretch up to now. */
  ghost predicate Heaviest(c: Config, states: seq<State>, inputs: seq<Input>, n: nat)
    requires IsRun(c, states, inputs) && n < |states|
  {
    && states[n].squelch < 10
    && (forall j :: Fresh(c, states, inputs, n) <= j <= n ==> Stretch(c, states, inputs, j, n) <= states[n].squelch)
    && (exists j :: Fresh(c, states, inputs, n) <= j <= n && Stretch(c, states, inputs, j, n) == states[n].squelch)
  }

  lemma FrameCounts(c: Config, s: State, x: Input)
    requires FrameOk(c, s, x.mag, x.peaks)
    ensures var s', w := Frame(c, s, x.mag, x.peaks), s.squelch + Weight(c, s, x);
            s'.squelch == if Resets(c, s, x) then 0 else if w < 0 then 0 else w
  {
    hide Candidates, Updated, Squelched, PeaksOk, Relative, Forced, Reset, Shape;
  }

  lemma {:induction false} RunCounts(c: Config, states: seq<State>, inputs: seq<Input>, n: nat)
    requires ConfigOk(c) && IsRun(c, states, inputs) && n < |states|
    ensures Heaviest(c, states, inputs, n)
  {
    hide Frame, FrameOk, Weight, Resets;
    if n == 0 {
      assert Stretch(c, states, inputs, 0, 0) == states[0].squelch;
    } else {
      RunCounts(c, states, inputs, n - 1);
      assert IsStep(c, states[n - 1], inputs[n - 1], states[n - 1 + 1]);
      FrameCounts(c, states[n - 1], inputs[n - 1]);
      ResetsAt(c, states[n - 1], inputs[n - 1]);
      CountStep(c, states, inputs, n - 1);
    }
  }

  lemma ResetsAt(c: Config, s: State, x: Input)
    requires FrameOk(c, s, x.mag, x.peaks)
    ensures -1 <= Weight(c, s, x) <= 3
    ensures s.squelch < 10 ==> (Resets(c, s, x) <==> s.squelch + Weight(c, s, x) >= 10)
  {
  }

  lemma CountStep(c: Config, states: seq<State>, inputs: seq<Input>, n: nat)
    requires IsRun(c, states, inputs) && n + 1 < |states| && Heaviest(c, states, inputs, n)
    requires IsStep(c, states[n], inputs[n], states[n + 1])
    requires var s, x := states[n], inputs[n];
             && (Resets(c, s, x) <==> s.squelch + Weight(c, s, x) >= 10)
             && states[n + 1].squelch ==
                if Resets(c, s, x) || s.squelch + Weight(c, s, x) < 0 then 0 else s.squelch + Weight(c, s, x)
    ensures Heaviest(c, states, inputs, n + 1)
  {
    hide Frame, FrameOk, Weight, Resets;
    var s, x, m := states[n], inputs[n], n + 1;
    var f := Fresh(c, states, inputs, m);
    assert Stretch(c, states, inputs, m, m) == 0;
    if !Resets(c, s, x) {
      forall j | f <= j <= m ensures Stretch(c, states, inputs, j, m) <= states[m].squelch {
        if j < m {
          assert Stretch(c, states, inputs, j, n) <= s.squelch;
        }
      }
      var j :| f <= j <= n && Stretch(c, states, inputs, j, n) == s.squelch;
      assert Stretch(c, states, inputs, j, m) == s.squelch + Weight(c, s, x);
      assert exists i :: f <= i <= m && Stretch(c, states, inputs, i, m) == states[m].squelch;
    }
  }

  /** Some stretch that ends there, and does not begin too early, weighs at least ten. */
  ghost predicate Heavy(c: Config, states: seq<State>, inputs: seq<Input>, from: nat, end: nat)
    requires IsRun(c, states, inputs) && end < |states|
  {
    exists j :: from <= j < end && Stretch(c, states, inputs, j, end) >= 10
  }

  /** In every run, a frame throws the floor away exactly when it ends a stretch of frames, none of them before the
      floor was last thrown away, of which three times those with too many bursts outweigh the others by ten. */
  lemma ResetExactly(c: Config, states: seq<State>, inputs: seq<Input>, n: nat)
    requires ConfigOk(c) && IsRun(c, states, inputs) && n < |inputs|
    ensures IsStep(c, states[n], inputs[n], states[n + 1])
    ensures Resets(c, states[n], inputs[n]) <==>
            Heavy(c, states, inputs, Fresh(c, states, inputs, n), n + 1)
  {
    hide Frame, FrameOk, Weight, Resets, Fresh;
    RunCounts(c, states, inputs, n);
    var s, x := states[n], inputs[n];
    assert IsStep(c, s, x, states[n + 1]);
    ResetsAt(c, s, x);
    forall j | Fresh(c, states, inputs, n) <= j <= n
      ensures Stretch(c, states, inputs, j, n + 1) == Stretch(c, states, inputs, j, n) + Weight(c, s, x)
    {
    }
    if Resets(c, s, x) {
      var j :| Fresh(c, states, inputs, n) <= j <= n && Stretch(c, states, inputs, j, n) == s.squelch;
      assert Stretch(c, states, inputs, j, n + 1) >= 10;
    } else if Heavy(c, states, inputs, Fresh(c, states, inputs, n), n + 1) {
      var j :| Fresh(c, states, inputs, n) <= j < n + 1 && Stretch(c, states, inputs, j, n + 1) >= 10;
      assert Stretch(c, states, inputs, j, n) <= s.squelch;
      assert false;
    }
  }

  // ---- What becomes of a burst ----

  /** Its tail is over, or it is too long. The positions are unsigned in the source: a tail that ends before the first
      sample is not over. */
  predicate Ending(c: Config, b: Burst, index: nat) {
    0 <= b.last + c.post <= index || b.last - b.start > c.maxLen
  }

  lemma {:induction false} KeptOrEnded(c: Config, bursts: seq<Burst>, index: nat, n: nat, i: nat)
    requires c.maxLen > 0 && i < n <= |bursts|
    ensures if Ending(c, bursts[i], index) then bursts[i].(stop := index) in Ended(c, bursts, index, n)
            else bursts[i] in Kept(c, bursts, index, n)
  {
    if i < n - 1 {
      KeptOrEnded(c, bursts, index, n - 1, i);
    }
  }

  predicate Sorted(bursts: seq<Burst>) {
    forall i, j :: 0 <= i < j < |bursts| ==> bursts[i].id < bursts[j].id
  }

  predicate AllBelow(bursts: seq<Burst>, id: nat) {
    forall i :: 0 <= i < |bursts| ==> bursts[i].id < id
  }

  lemma {:induction false} EndedInOrder(c: Config, bursts: seq<Burst>, index: nat, n: nat)
    requires n <= |bursts| && Sorted(bursts)
    ensures Sorted(Ended(c, bursts, index, n))
    ensures forall j :: n <= j < |bursts| ==> AllBelow(Ended(c, bursts, index, n), bursts[j].id)
  {
    hide Over;
    if n > 0 {
      EndedInOrder(c, bursts, index, n - 1);
      assert AllBelow(Ended(c, bursts, index, n - 1), bursts[n - 1].id);
      forall j | n <= j < |bursts| ensures AllBelow(Ended(c, bursts, index, n), bursts[j].id) {
        assert AllBelow(Ended(c, bursts, index, n - 1), bursts[j].id);
      }
    }
  }

  /** Without a squelch, the bursts that end in a frame come behind those that ended before, in the order in which they
      were created. */
  lemma FrameEndsInOrder(c: Config, s: State, x: Input)
    requires FrameOk(c, s, x.mag, x.peaks) && Ordered(s.tracker) && !Fires(c, s, x)
    ensures var f, f' := s.tracker.finished, Frame(c, s, x.mag, x.peaks).tracker.finished;
            f <= f' && Sorted(f'[|f|..])
  {
    hide Relative, Created, Updated, Forced, Masked, Kept, Loud, PeaksOk, Ended;
    if s.noise.primed {
      var rel := Relative(x.mag, s.noise.sum);
      var touched := Touched(c, s.tracker.bursts, rel, s.index);
      assert Sorted(touched);
      EndedInOrder(c, touched, s.index, |touched|);
      CreatedFinishes(c, Pruned(c, s.tracker, rel, s.index), s.index, x.peaks, |x.peaks|);
    }
  }

  lemma PrunedFate(c: Config, s: State, mag: seq<real>, i: nat)
    requires Shape(c, s) && |mag| == c.fft && i < |s.tracker.bursts|
    ensures var b := Marked(c, s, mag, s.tracker.bursts[i]);
            var p := Pruned(c, s.tracker, Relative(mag, s.noise.sum), s.index);
            if Ending(c, b, s.index) then b.(stop := s.index) in p.finished else b in p.bursts
  {
    hide Relative, Touched, Marked, Kept, Ended, Masked, Ending;
    var touched := Touched(c, s.tracker.bursts, Relative(mag, s.noise.sum), s.index);
    TouchedMarks(c, s, mag, i);
    KeptOrEnded(c, touched, s.index, |touched|, i);
  }

  /** What a frame makes of an active burst: marked if it is heard, it ends when its tail is over or it is too long, it
      ends also when there are too many, and otherwise it goes on. */
  ghost predicate Decided(c: Config, s: State, x: Input, s': State, i: nat)
    requires FrameOk(c, s, x.mag, x.peaks) && i < |s.tracker.bursts|
  {
    var b := Marked(c, s, x.mag, s.tracker.bursts[i]);
    if Ending(c, b, s.index) || Fires(c, s, x) then b.(stop := s.index) in s'.tracker.finished
    else b in s'.tracker.bursts
  }

  lemma FrameDecides(c: Config, s: State, x: Input, i: nat)
    requires FrameOk(c, s, x.mag, x.peaks) && s.noise.primed && i < |s.tracker.bursts|
    requires Past(c, s.tracker.bursts, s.index)
    ensures Decided(c, s, x, Frame(c, s, x.mag, x.peaks), i)
  {
    hide Pruned, Relative, Created, Marked, Ending, PeaksOk, Forced, Reset, Updated;
    var mag, peaks := x.mag, x.peaks;
    var b, p := Marked(c, s, mag, s.tracker.bursts[i]), Pruned(c, s.tracker, Relative(mag, s.noise.sum), s.index);
    PrunedFate(c, s, mag, i);
    CandidatesSplit(c, s, mag, peaks);
    var t := Candidates(c, s, mag, peaks);
    if Fires(c, s, x) {
      SquelchSplits(c, s, mag, peaks);
      if b in p.bursts {
        InSplit(p.bursts, b, s.index);
      }
    } else if b in p.bursts {
      assert b in t.bursts[..|p.bursts|];
    }
  }

  lemma InSplit(bursts: seq<Burst>, b: Burst, index: nat)
    requires b in bursts
    ensures b.(stop := index) in seq(|bursts|, i requires 0 <= i < |bursts| => bursts[i].(stop := index))
  {
    var i :| 0 <= i < |bursts| && bursts[i] == b;
    assert seq(|bursts|, i requires 0 <= i < |bursts| => bursts[i].(stop := index))[i] == b.(stop := index);
  }

  /** So it is for every active burst in every frame of every run. */
  lemma RunsDecide(c: Config, states: seq<State>, inputs: seq<Input>, n: nat, i: nat)
    requires ConfigOk(c) && IsRun(c, states, inputs) && n < |inputs| && i < |states[n].tracker.bursts|
    ensures states[n].noise.primed && IsStep(c, states[n], inputs[n], states[n + 1])
    ensures Decided(c, states[n], inputs[n], states[n + 1], i)
  {
    hide Frame, FrameOk, Decided, Shape, Apart, SumOk, Accounted, Ordered;
    RunKeepsInv(c, states, inputs, n);
    assert IsStep(c, states[n], inputs[n], states[n + 1]);
    FrameDecides(c, states[n], inputs[n], i);
  }

  // ---- Which bursts are found ----

  /** Bin b is loud, far enough from the edges and from the centre of the spectrum, and in no window of a burst that
      was active before the frame. */
  ghost predicate Striking(c: Config, s: State, mag: seq<real>, b: nat)
    requires |mag| == |s.noise.sum|
  {
    && c.width / 2 <= b < |mag| - c.width / 2 && !(c.fft / 2 - 3 <= b <= c.fft / 2 + 3)
    && s.noise.sum[b] > 0.0 && mag[b] > c.threshold * s.noise.sum[b]
    && forall i :: 0 <= i < |s.tracker.bursts| ==>
         b < s.tracker.bursts[i].bin - c.width / 2 || b > s.tracker.bursts[i].bin + c.width / 2
  }

  lemma StrikingExactly(c: Config, s: State, mag: seq<real>, b: nat)
    requires Shape(c, s) && MaskOk(c, s.tracker) && |mag| == c.fft && b < c.fft
    ensures var rel := Relative(mag, s.noise.sum);
            IsPeak(c, rel, s.tracker.mask, Peak(b, rel[b])) <==> Striking(c, s, mag, b)
  {
    hide Relative;
    AboveExactly(c, mag, s.noise.sum, b);
  }

  /** Bin b is at most half a window from the centre of a burst. */
  ghost predicate InWindow(c: Config, bursts: seq<Burst>, b: nat) {
    exists i :: 0 <= i < |bursts| && bursts[i].bin - c.width / 2 <= b <= bursts[i].bin + c.width / 2
  }

  /** A frame with no more bursts than allowed puts every striking bin into the window of an active burst. */
  lemma RunsFind(c: Config, states: seq<State>, inputs: seq<Input>, n: nat, b: nat)
    requires ConfigOk(c) && IsRun(c, states, inputs) && n < |inputs| && states[n].noise.primed && b < c.fft
    ensures IsStep(c, states[n], inputs[n], states[n + 1])
    ensures !Fires(c, states[n], inputs[n]) && Striking(c, states[n], inputs[n].mag, b) ==>
              InWindow(c, states[n + 1].tracker.bursts, b)
  {
    hide Frame, Relative, SumOk, Accounted, Ordered, Candidates, Striking, IsPeak, Pruned;
    RunKeepsInv(c, states, inputs, n);
    assert IsStep(c, states[n], inputs[n], states[n + 1]);
    var s, x := states[n], inputs[n];
    if !Fires(c, s, x) && Striking(c, s, x.mag, b) {
      StrikingExactly(c, s, x.mag, b);
      PeaksAreExplained(c, s, x.mag, x.peaks, b);
      var p, t := Peak(b, Relative(x.mag, s.noise.sum)[b]), states[n + 1].tracker;
      var m := |Pruned(c, s.tracker, Relative(x.mag, s.noise.sum), s.index).bursts|;
      assert Explained(c, t.bursts, m, p);
    }
  }

  lemma {:induction false} CreatedFrom(c: Config, t: Tracker, index: nat, peaks: seq<Peak>, n: nat, i: nat)
    requires n <= |peaks| && PeakBins(c, peaks) && |t.mask| == c.fft
    requires |t.bursts| <= i < |Created(c, t, index, peaks, n).bursts|
    ensures var b := Created(c, t, index, peaks, n).bursts[i];
            Peak(b.bin, b.strength) in peaks && b.start == b.last == index - c.pre && b.stop == 0
  {
    hide MaskBurst;
    if n > 0 {
      var s := Created(c, t, index, peaks, n - 1);
      if i < |s.bursts| {
        CreatedFrom(c, t, index, peaks, n - 1, i);
      } else {
        assert peaks[n - 1] in peaks;
      }
    }
  }

  /** A burst that a frame created. */
  ghost predicate Found(c: Config, s: State, mag: seq<real>, b: Burst)
    requires |mag| == |s.noise.sum|
  {
    && b.bin < |mag| && Striking(c, s, mag, b.bin) && b.strength == mag[b.bin] / s.noise.sum[b.bin]
    && b.start == b.last == s.index - c.pre
  }

  lemma FrameFindsOnly(c: Config, s: State, x: Input, i: nat)
    requires FrameOk(c, s, x.mag, x.peaks) && s.noise.primed && MaskOk(c, s.tracker)
    requires Past(c, s.tracker.bursts, s.index) && i < |Frame(c, s, x.mag, x.peaks).tracker.bursts|
    requires s.index - c.pre <= Frame(c, s, x.mag, x.peaks).tracker.bursts[i].start
    ensures Found(c, s, x.mag, Frame(c, s, x.mag, x.peaks).tracker.bursts[i])
  {
    hide Relative, Striking, Pruned, Updated, Forced, PeaksOk, MaskOk, Reset, Older;
    var b := Frame(c, s, x.mag, x.peaks).tracker.bursts[i];
    var p, t := Pruned(c, s.tracker, Relative(x.mag, s.noise.sum), s.index), Candidates(c, s, x.mag, x.peaks);
    CandidatesSplit(c, s, x.mag, x.peaks);
    CreatedFrom(c, p, s.index, x.peaks, |x.peaks|, i);
    FromPeak(c, s, x, Peak(b.bin, b.strength));
  }

  lemma StillNone(c: Config, s: State, x: Input)
    requires FrameOk(c, s, x.mag, x.peaks) && !s.noise.primed && s.tracker.bursts == []
    ensures Frame(c, s, x.mag, x.peaks).tracker.bursts == []
  {
    hide Updated, PeaksOk;
  }

  /** And only such bins become bursts: one that is active after a frame and was not before is centred on a striking
      bin, with its relative magnitude as strength, and begins the pre-length before the frame. */
  lemma RunsFindOnly(c: Config, states: seq<State>, inputs: seq<Input>, n: nat, i: nat)
    requires ConfigOk(c) && IsRun(c, states, inputs) && n < |inputs| && i < |states[n + 1].tracker.bursts|
    requires states[n].index - c.pre <= states[n + 1].tracker.bursts[i].start
    ensures states[n].noise.primed && IsStep(c, states[n], inputs[n], states[n + 1])
    ensures Found(c, states[n], inputs[n].mag, states[n + 1].tracker.bursts[i])
  {
    hide Frame, SumOk, Accounted, Ordered, MaskOk, NoiseOk, Found, PeaksOk;
    RunKeepsInv(c, states, inputs, n);
    assert IsStep(c, states[n], inputs[n], states[n + 1]);
    if !states[n].noise.primed {
      StillNone(c, states[n], inputs[n]);
      assert false;
    }
    FrameFindsOnly(c, states[n], inputs[n], i);
  }

  lemma FromPeak(c: Config, s: State, x: Input, q: Peak)
    requires FrameOk(c, s, x.mag, x.peaks) && s.noise.primed && MaskOk(c, s.tracker) && q in x.peaks
    ensures q.bin < c.fft && Striking(c, s, x.mag, q.bin) && q.strength == x.mag[q.bin] / s.noise.sum[q.bin]
  {
    hide Striking;
    StrikingExactly(c, s, x.mag, q.bin);
    AboveExactly(c, x.mag, s.noise.sum, q.bin);
  }
}
