/**
 * The size-targeting search shared by the main-thread engine (lib/compress.ts)
 * and the worker (lib/worker.ts), described as a trace of encoder calls.
 *
 * A run encodes once at the initial quality (the baseline), then binary-searches
 * the quality on the same canvas, then shrinks the canvas step by step at a fixed
 * quality, and finally, on the first shrunken canvas that fits, binary-searches
 * the quality again (the refinement). `Step` says which call may follow a given
 * prefix of calls; `Trace` is a whole run; `Finished` says when a run stops.
 */
module Search {
  import opened Wrappers
  import opened Numeric
  import opened Types
  import opened Resize
  import opened Utils

  datatype Phase = Single | Baseline | QualityStep | Downscale | Refine

  /**
   * One encoder call: the phase that issued it, the loop counter of that phase,
   * the canvas and quality handed to the encoder, and its answer (the byte size
   * of the blob, or None when no blob came back).
   */
  datatype Call = Call(phase: Phase, step: nat, canvas: Canvas, quality: real, size: Option<nat>)

  /**
   * What distinguishes the two engines: the scale of the first and of the later
   * downscale steps, the quality used while downscaling, and whether the quality
   * searches run at all (the worker skips them for lossless formats).
   */
  datatype Policy = Policy(firstFactor: real, laterFactor: real, downscaleQuality: real, qualitySearch: bool)

  /**
   * The output MIME type: the requested `fileType`, else the input's own type,
   * else JPEG; an empty string counts as absent (JavaScript `||`).
   */
  function OutputType(fileType: Option<string>, inputType: string): (t: string)
    ensures t != ""
    ensures fileType.Some? && fileType.value != "" ==> t == fileType.value
    ensures (fileType.None? || fileType.value == "") && inputType != "" ==> t == inputType
    ensures (fileType.None? || fileType.value == "") && inputType == "" ==> t == "image/jpeg"
  {
    if fileType.Some? && fileType.value != "" then fileType.value
    else if inputType != "" then inputType
    else "image/jpeg"
  }

  /** `!maxSizeMB || maxSizeMB <= 0` is false: a size limit is in force. */
  predicate HasLimit(maxSizeMB: Option<real>)
  {
    maxSizeMB.Some? && maxSizeMB.value > 0.0
  }

  /** The target in bytes, `maxSizeMB * 1024 * 1024`. */
  function TargetBytes(maxSizeMB: real): (t: real)
    ensures maxSizeMB > 0.0 ==> t > 0.0
    ensures t == maxSizeMB * (BYTES_PER_MB as real)
  {
    maxSizeMB * 1024.0 * 1024.0
  }

  /** The blob is no larger than the target (`blob.size <= targetBytes`). */
  predicate Fits(c: Call, target: real)
  {
    c.size.Some? && c.size.value as real <= target
  }

  /** The blob fits and is within 10% of the target. */
  predicate CloseEnough(c: Call, target: real)
    ensures CloseEnough(c, target) ==> Fits(c, target)
    ensures CloseEnough(c, target) <==> c.size.Some? && target * 0.9 <= c.size.value as real <= target
  {
    Fits(c, target) && c.size.value as real >= target * 0.9
  }

  /** The blob a successful call produced. */
  function BlobOf(mimeType: string, c: Call): (b: Blob)
    requires c.size.Some?
    ensures b.size == c.size.value && b.canvas == c.canvas && b.quality == c.quality
    ensures b.mimeType == mimeType
  {
    Blob(mimeType, c.canvas, c.quality, c.size.value)
  }

  /** Every recorded answer is what the encoder gives for that call. */
  predicate Genuine(encode: Encoder, mimeType: string, calls: seq<Call>)
  {
    forall k | 0 <= k < |calls| :: calls[k].size == encode(mimeType, calls[k].canvas, calls[k].quality)
  }

  /**
   * The quality a binary-search call at loop counter `step` tries, given the
   * previous call: the middle of [MIN_QUALITY, initialQuality] first, then a
   * move up (after a fit) or down (after a miss) by half of the last move.
   */
  function Midpoint(prev: Call, step: nat, target: real, iq: real): (q: real)
    ensures step == 0 ==> q - MIN_QUALITY == iq - q
    ensures step > 0 ==>
      q == prev.quality + Span(iq - MIN_QUALITY, step + 1) || q == prev.quality - Span(iq - MIN_QUALITY, step + 1)
    ensures step > 0 && iq > MIN_QUALITY ==> (prev.quality < q <==> Fits(prev, target))
  {
    if step == 0 then (MIN_QUALITY + iq) / 2.0
    else if Fits(prev, target) then prev.quality + Span(iq - MIN_QUALITY, step + 1)
    else prev.quality - Span(iq - MIN_QUALITY, step + 1)
  }

  /**
   * Which calls replace the best blob kept so far: every fitting call of a
   * quality search or refinement, and a fitting downscale call only when the
   * searches are skipped; never a call that does not fit.
   */
  predicate Updates(p: Policy, target: real, c: Call)
    ensures Updates(p, target, c) ==> Fits(c, target)
    ensures c.phase == QualityStep || c.phase == Refine ==> (Updates(p, target, c) <==> Fits(c, target))
    ensures c.phase == Downscale ==> (Updates(p, target, c) <==> Fits(c, target) && !p.qualitySearch)
    ensures c.phase == Baseline || c.phase == Single ==> !Updates(p, target, c)
  {
    Fits(c, target) &&
    (c.phase == QualityStep || c.phase == Refine || (c.phase == Downscale && !p.qualitySearch))
  }

  /**
   * The call that may follow `prefix`. Only a call that produced a blob is
   * followed. A quality-search call comes after a baseline that does not fit
   * or after a search call that is not close enough; a downscale call comes
   * after an exhausted quality search in which nothing fitted (right after
   * the baseline when the searches are skipped) or after a downscale call
   * that missed; a refinement call comes after the first fitting downscale
   * call or after a refinement call. Loop counters start at 0 on a change of
   * phase and otherwise go up by one, below MAX_ITERATIONS.
   */
  predicate Step(p: Policy, target: real, iq: real, prefix: seq<Call>, cur: Call)
    requires |prefix| >= 1
    ensures Step(p, target, iq, prefix, cur) ==>
      var prev := prefix[|prefix| - 1];
      prev.size.Some? && cur.step < MAX_ITERATIONS && Rank(prev.phase) <= Rank(cur.phase) &&
      cur.phase != Single && cur.phase != Baseline &&
      (cur.step > 0 <==> prev.phase == cur.phase) &&
      (cur.step > 0 ==> prev.step + 1 == cur.step)
  {
    var prev := prefix[|prefix| - 1];
    prev.size.Some? && cur.step < MAX_ITERATIONS &&
    match cur.phase
    case Single => false
    case Baseline => false
    case QualityStep =>
      p.qualitySearch && cur.canvas == prev.canvas && cur.quality == Midpoint(prev, cur.step, target, iq) &&
      if cur.step == 0 then prev.phase == Baseline && !Fits(prev, target)
      else prev.phase == QualityStep && prev.step + 1 == cur.step && !CloseEnough(prev, target)
    case Downscale =>
      cur.quality == p.downscaleQuality &&
      if cur.step == 0 then
        cur.canvas == ScaleCanvas(prev.canvas, p.firstFactor) &&
        (forall j | 0 <= j < |prefix| :: !Fits(prefix[j], target)) &&
        (if p.qualitySearch then prev.phase == QualityStep && prev.step + 1 == MAX_ITERATIONS
         else prev.phase == Baseline)
      else
        prev.phase == Downscale && prev.step + 1 == cur.step && !Fits(prev, target) &&
        cur.canvas == ScaleCanvas(prev.canvas, p.laterFactor)
    case Refine =>
      p.qualitySearch && cur.canvas == prev.canvas && cur.quality == Midpoint(prev, cur.step, target, iq) &&
      if cur.step == 0 then prev.phase == Downscale && Fits(prev, target)
      else prev.phase == Refine && prev.step + 1 == cur.step
  }

  /** A run with a size limit: a baseline call on `canvas0` at `iq`, then legal steps. */
  predicate Trace(p: Policy, target: real, iq: real, canvas0: Canvas, calls: seq<Call>)
  {
    |calls| >= 1 &&
    calls[0].phase == Baseline && calls[0].step == 0 && calls[0].canvas == canvas0 && calls[0].quality == iq &&
    forall k {:trigger Step(p, target, iq, calls[..k], calls[k])} | 1 <= k < |calls| ::
      Step(p, target, iq, calls[..k], calls[k])
  }

  /** Index of the best blob kept so far: the last call that updates it, or the baseline. */
  function BestIndex(p: Policy, target: real, calls: seq<Call>): (i: nat)
    requires |calls| >= 1
    ensures i < |calls|
    ensures i == 0 || Updates(p, target, calls[i])
    ensures forall k | i < k < |calls| :: !Updates(p, target, calls[k])
  {
    if |calls| == 1 then 0
    else if Updates(p, target, calls[|calls| - 1]) then |calls| - 1
    else BestIndex(p, target, calls[..|calls| - 1])
  }

  /** A run that produced a blob at every call stops exactly in these situations. */
  predicate Finished(p: Policy, target: real, calls: seq<Call>)
    requires |calls| >= 1
  {
    var last := calls[|calls| - 1];
    match last.phase
    case Single => |calls| == 1
    case Baseline => Fits(last, target)
    case QualityStep =>
      CloseEnough(last, target) ||
      (last.step + 1 == MAX_ITERATIONS && Fits(calls[BestIndex(p, target, calls)], target))
    case Downscale =>
      (last.step + 1 == MAX_ITERATIONS && !Fits(last, target)) || (!p.qualitySearch && Fits(last, target))
    case Refine => last.step + 1 == MAX_ITERATIONS
  }

  // ---------------------------------------------------------------------------
  // Building traces one call at a time
  // ---------------------------------------------------------------------------

  lemma TraceStart(p: Policy, target: real, iq: real, canvas0: Canvas, c: Call)
    requires c.phase == Baseline && c.step == 0 && c.canvas == canvas0 && c.quality == iq
    ensures Trace(p, target, iq, canvas0, [c])
  {
  }

  /** Appending a legal step to a trace gives a trace. */
  lemma TraceExtend(p: Policy, target: real, iq: real, canvas0: Canvas, calls: seq<Call>, c: Call)
    requires Trace(p, target, iq, canvas0, calls)
    requires Step(p, target, iq, calls, c)
    ensures Trace(p, target, iq, canvas0, calls + [c])
  {
    var ext := calls + [c];
    forall k | 1 <= k < |ext|
      ensures Step(p, target, iq, ext[..k], ext[k])
    {
      if k < |calls| {
        assert ext[..k] == calls[..k];
      } else {
        assert ext[..k] == calls;
      }
    }
  }

  lemma GenuineExtend(encode: Encoder, mimeType: string, calls: seq<Call>, c: Call)
    requires Genuine(encode, mimeType, calls)
    requires c.size == encode(mimeType, c.canvas, c.quality)
    ensures Genuine(encode, mimeType, calls + [c])
  {
  }

  /** How the best index moves when a call is appended. */
  lemma BestIndexExtend(p: Policy, target: real, calls: seq<Call>, c: Call)
    requires |calls| >= 1
    ensures BestIndex(p, target, calls + [c]) ==
      if Updates(p, target, c) then |calls| else BestIndex(p, target, calls)
  {
    assert (calls + [c])[..|calls|] == calls;
  }

  /** A prefix of a trace is a trace. */
  lemma TracePrefix(p: Policy, target: real, iq: real, canvas0: Canvas, calls: seq<Call>, n: nat)
    requires Trace(p, target, iq, canvas0, calls)
    requires 1 <= n <= |calls|
    ensures Trace(p, target, iq, canvas0, calls[..n])
  {
    var pre := calls[..n];
    forall k | 1 <= k < n
      ensures Step(p, target, iq, pre[..k], pre[k])
    {
      assert pre[..k] == calls[..k];
    }
  }

  // ---------------------------------------------------------------------------
  // Length of a run
  // ---------------------------------------------------------------------------

  /** An upper bound on the number of calls up to and including `c`. */
  function Budget(p: Policy, c: Call): nat
  {
    match c.phase
    case Single => 1
    case Baseline => 1
    case QualityStep => 2 + c.step
    case Downscale => (if p.qualitySearch then 12 else 2) + c.step
    case Refine => 22 + c.step
  }

  /**
   * A run never makes more than 1 + 3 * MAX_ITERATIONS = 31 encoder calls, and
   * at most 1 + MAX_ITERATIONS = 11 when the quality searches are skipped.
   */
  lemma {:induction false} TraceLength(p: Policy, target: real, iq: real, canvas0: Canvas, calls: seq<Call>)
    requires Trace(p, target, iq, canvas0, calls)
    ensures |calls| <= Budget(p, calls[|calls| - 1])
    ensures Budget(p, calls[|calls| - 1]) <= 1 + 3 * MAX_ITERATIONS
    ensures !p.qualitySearch ==> |calls| <= 1 + MAX_ITERATIONS
  {
    var n := |calls|;
    if n == 1 {
      assert calls[n - 1].phase == Baseline;
    } else {
      TracePrefix(p, target, iq, canvas0, calls, n - 1);
      TraceLength(p, target, iq, canvas0, calls[..n - 1]);
      assert Step(p, target, iq, calls[..n - 1], calls[n - 1]);
      assert calls[..n - 1][n - 2] == calls[n - 2];
      if n > 2 {
        assert Step(p, target, iq, calls[..n - 2], calls[n - 2]);
      }
    }
  }

  // ---------------------------------------------------------------------------
  // Order of the phases
  // ---------------------------------------------------------------------------

  function Rank(ph: Phase): nat
  {
    match ph
    case Single => 0
    case Baseline => 0
    case QualityStep => 1
    case Downscale => 2
    case Refine => 3
  }

  /** Phases never go back: baseline, quality search, downscale, refinement. */
  lemma {:induction false} PhaseOrder(p: Policy, target: real, iq: real, canvas0: Canvas, calls: seq<Call>, i: nat, k: nat)
    requires Trace(p, target, iq, canvas0, calls)
    requires i <= k < |calls|
    ensures Rank(calls[i].phase) <= Rank(calls[k].phase)
    ensures k > 0 ==> calls[k].phase != Baseline
    decreases k
  {
    if k > 0 {
      assert Step(p, target, iq, calls[..k], calls[k]);
      assert calls[..k][k - 1] == calls[k - 1];
      if i < k {
        PhaseOrder(p, target, iq, canvas0, calls, i, k - 1);
      }
    }
  }

  /**
   * Within one phase the loop counter advances by one per call: the calls of a
   * phase are contiguous and numbered from the phase's first call.
   */
  lemma {:induction false} PhaseRun(p: Policy, target: real, iq: real, canvas0: Canvas, calls: seq<Call>, i: nat, k: nat)
    requires Trace(p, target, iq, canvas0, calls)
    requires i <= k < |calls| && calls[i].phase == calls[k].phase
    ensures calls[k].step == calls[i].step + (k - i)
    ensures forall m | i <= m <= k :: calls[m].phase == calls[k].phase
    decreases k
  {
    if i < k {
      assert Step(p, target, iq, calls[..k], calls[k]);
      assert calls[..k][k - 1] == calls[k - 1];
      PhaseOrder(p, target, iq, canvas0, calls, i, k - 1);
      PhaseOrder(p, target, iq, canvas0, calls, k - 1, k);
      if calls[k].step == 0 {
        // the previous call belongs to an earlier phase, yet calls[i] lies before it
        assert false;
      }
      assert calls[k - 1].phase == calls[k].phase;
      PhaseRun(p, target, iq, canvas0, calls, i, k - 1);
    }
  }

  // ---------------------------------------------------------------------------
  // The binary searches
  // ---------------------------------------------------------------------------

  predicate Searching(ph: Phase)
  {
    ph == QualityStep || ph == Refine
  }

  lemma SpanHalves(w: real, n: nat)
    ensures Span(w, n + 1) * 2.0 == Span(w, n)
  {
  }

  /**
   * Every quality a search tries lies inside [MIN_QUALITY, initialQuality],
   * strictly inside when the interval is not a point: at loop counter s it is
   * at least Span(W, s + 1) away from both ends, where
   * W = initialQuality - MIN_QUALITY.
   */
  lemma {:induction false} QualityInsideRange(p: Policy, target: real, iq: real, canvas0: Canvas, calls: seq<Call>, k: nat)
    requires Trace(p, target, iq, canvas0, calls)
    requires k < |calls| && Searching(calls[k].phase)
    requires iq >= MIN_QUALITY
    ensures MIN_QUALITY + Span(iq - MIN_QUALITY, calls[k].step + 1) <= calls[k].quality
    ensures calls[k].quality <= iq - Span(iq - MIN_QUALITY, calls[k].step + 1)
    ensures MIN_QUALITY <= calls[k].quality <= iq
    ensures iq > MIN_QUALITY ==> MIN_QUALITY < calls[k].quality < iq
    decreases k
  {
    var w := iq - MIN_QUALITY;
    var s := calls[k].step;
    PhaseOrder(p, target, iq, canvas0, calls, 0, k);
    assert Step(p, target, iq, calls[..k], calls[k]);
    assert calls[..k][k - 1] == calls[k - 1];
    SpanHalves(w, s);
    if s > 0 {
      QualityInsideRange(p, target, iq, canvas0, calls, k - 1);
    }
  }

  /**
   * The binary search is monotone: after a call of a search that fits, every
   * later call of the same search tries a higher quality; after one that does
   * not fit, a lower one. The later call stays within Span(W, s + 1) of the
   * interval left open by calls[j].
   */
  lemma {:induction false} SearchMoves(p: Policy, target: real, iq: real, canvas0: Canvas, calls: seq<Call>, j: nat, k: nat)
    requires Trace(p, target, iq, canvas0, calls)
    requires j < k < |calls| && Searching(calls[j].phase) && calls[k].phase == calls[j].phase
    requires iq > MIN_QUALITY
    ensures Fits(calls[j], target) ==>
      calls[j].quality + Span(iq - MIN_QUALITY, calls[k].step + 1) <= calls[k].quality <=
      calls[j].quality + Span(iq - MIN_QUALITY, calls[j].step + 1) - Span(iq - MIN_QUALITY, calls[k].step + 1)
    ensures !Fits(calls[j], target) ==>
      calls[j].quality - Span(iq - MIN_QUALITY, calls[j].step + 1) + Span(iq - MIN_QUALITY, calls[k].step + 1) <= calls[k].quality <=
      calls[j].quality - Span(iq - MIN_QUALITY, calls[k].step + 1)
    decreases k
  {
    var w := iq - MIN_QUALITY;
    PhaseRun(p, target, iq, canvas0, calls, j, k);
    assert Step(p, target, iq, calls[..k], calls[k]);
    assert calls[..k][k - 1] == calls[k - 1];
    var s := calls[k].step;
    SpanHalves(w, s);
    if k - 1 > j {
      SearchMoves(p, target, iq, canvas0, calls, j, k - 1);
    }
  }

  /** After a fit every later call of that search tries a strictly higher quality; after a miss, a lower one. */
  lemma SearchMonotone(p: Policy, target: real, iq: real, canvas0: Canvas, calls: seq<Call>, j: nat, k: nat)
    requires Trace(p, target, iq, canvas0, calls)
    requires j < k < |calls| && Searching(calls[j].phase) && calls[k].phase == calls[j].phase
    requires iq > MIN_QUALITY
    ensures Fits(calls[j], target) ==> calls[j].quality < calls[k].quality
    ensures !Fits(calls[j], target) ==> calls[k].quality < calls[j].quality
  {
    SearchMoves(p, target, iq, canvas0, calls, j, k);
    assert Span(iq - MIN_QUALITY, calls[k].step + 1) > 0.0;
  }

  /**
   * When the best blob comes from a search, it has the highest quality among
   * all the fitting calls of that search.
   */
  lemma BestIsHighestFitting(p: Policy, target: real, iq: real, canvas0: Canvas, calls: seq<Call>, k: nat)
    requires Trace(p, target, iq, canvas0, calls)
    requires iq > MIN_QUALITY
    requires k < |calls| && Fits(calls[k], target)
    requires Searching(calls[k].phase)
    ensures var b := BestIndex(p, target, calls);
      k <= b && calls[k].quality <= calls[b].quality
  {
    var b := BestIndex(p, target, calls);
    assert Updates(p, target, calls[k]);
    if k < b {
      PhaseOrder(p, target, iq, canvas0, calls, 0, k);
      assert Step(p, target, iq, calls[..k], calls[k]);
      PhaseOrder(p, target, iq, canvas0, calls, k, b);
      if calls[k].phase == QualityStep && Rank(calls[b].phase) >= Rank(Downscale) {
        MissesBeforeDownscale(p, target, iq, canvas0, calls, b);
        assert false;
      }
      SearchMonotone(p, target, iq, canvas0, calls, k, b);
    }
  }

  /**
   * Downscaling only starts when nothing fitted: once a run has reached the
   * downscale or refinement phase, none of its baseline and quality-search
   * calls fitted.
   */
  lemma {:induction false} MissesBeforeDownscale(p: Policy, target: real, iq: real, canvas0: Canvas, calls: seq<Call>, b: nat)
    requires Trace(p, target, iq, canvas0, calls)
    requires b < |calls| && Rank(calls[b].phase) >= Rank(Downscale)
    ensures forall j | 0 <= j < b && Rank(calls[j].phase) < Rank(Downscale) :: !Fits(calls[j], target)
    decreases b
  {
    assert Step(p, target, iq, calls[..b], calls[b]);
    assert calls[..b][b - 1] == calls[b - 1];
    if calls[b].phase == Downscale && calls[b].step == 0 {
      forall j | 0 <= j < b
        ensures !Fits(calls[j], target)
      {
        assert calls[..b][j] == calls[j];
      }
    } else {
      MissesBeforeDownscale(p, target, iq, canvas0, calls, b - 1);
    }
  }

  /** A quality-search call within 10% of the target ends the run: nothing follows it. */
  lemma CloseEnoughStops(p: Policy, target: real, iq: real, canvas0: Canvas, calls: seq<Call>, k: nat)
    requires Trace(p, target, iq, canvas0, calls)
    requires k < |calls| && calls[k].phase == QualityStep && CloseEnough(calls[k], target)
    ensures k == |calls| - 1
  {
    if k + 1 < |calls| {
      StepAt(p, target, iq, canvas0, calls, k + 1);
      assert false;
    }
  }

  /** The call at position `k` of a trace is a legal step after the calls before it. */
  lemma StepAt(p: Policy, target: real, iq: real, canvas0: Canvas, calls: seq<Call>, k: nat)
    requires Trace(p, target, iq, canvas0, calls)
    requires 1 <= k < |calls|
    ensures |calls[..k]| == k && calls[..k][k - 1] == calls[k - 1]
    ensures Step(p, target, iq, calls[..k], calls[k])
  {
  }

  // ---------------------------------------------------------------------------
  // Progress logs
  // ---------------------------------------------------------------------------

  /** Progress never goes backwards. */
  predicate NonDecreasing(s: seq<int>)
  {
    forall i, j | 0 <= i < j < |s| :: s[i] <= s[j]
  }

  /** Every reported value is a percentage. */
  predicate Percentages(s: seq<int>)
  {
    forall i | 0 <= i < |s| :: 0 <= s[i] <= 100
  }

  /** A log of an unfinished run: non-decreasing percentages below 100. */
  predicate Pending(progress: seq<int>)
  {
    NonDecreasing(progress) && forall k | 0 <= k < |progress| :: 0 <= progress[k] < 100
  }

  /** The log of a finished run: 100 appended to a pending log. */
  predicate Completed(progress: seq<int>)
  {
    |progress| >= 1 && progress[|progress| - 1] == 100 && Pending(progress[..|progress| - 1])
  }

  lemma PendingFacts(progress: seq<int>)
    requires Pending(progress)
    ensures NonDecreasing(progress) && Percentages(progress) && 100 !in progress
  {
  }

  lemma CompletedFacts(progress: seq<int>)
    requires Completed(progress)
    ensures NonDecreasing(progress) && Percentages(progress) && 100 in progress
  {
    assert progress == progress[..|progress| - 1] + [100];
  }

  lemma PendingExtend(progress: seq<int>, x: int)
    requires Pending(progress)
    requires |progress| == 0 || progress[|progress| - 1] <= x
    requires 0 <= x < 100
    ensures Pending(progress + [x])
  {
  }

  /** Reporting 100 completes a pending log. */
  lemma CompleteLog(progress: seq<int>)
    requires Pending(progress)
    ensures Completed(progress + [100])
    ensures (progress + [100])[..|progress|] == progress
  {
    assert (progress + [100])[..|progress|] == progress;
  }

  /** The reports `f(0), ..., f(n - 1)` a search loop makes after its first `n` calls. */
  function Reports(f: nat -> int, n: nat): (r: seq<int>)
    ensures |r| == n
    ensures forall i | 0 <= i < n :: r[i] == f(i)
  {
    if n == 0 then [] else Reports(f, n - 1) + [f(n - 1)]
  }

  /**
   * The values reported during the calls `calls` of a run, given `f`, the
   * values an engine reports because of one call: the reports of each call
   * in the order of the calls.
   */
  function Posted(f: Call -> seq<int>, calls: seq<Call>): (log: seq<int>)
    ensures |calls| == 1 ==> log == f(calls[0])
  {
    if |calls| == 0 then [] else Posted(f, calls[..|calls| - 1]) + f(calls[|calls| - 1])
  }

  /** A call appended to a run appends its own reports to the log. */
  lemma PostedExtend(f: Call -> seq<int>, calls: seq<Call>, c: Call)
    ensures Posted(f, calls + [c]) == Posted(f, calls) + f(c)
  {
    assert (calls + [c])[..|calls|] == calls;
  }

  /** Calls that report nothing leave the log as it was. */
  lemma {:induction false} PostedQuiet(f: Call -> seq<int>, calls: seq<Call>, m: nat)
    requires m <= |calls|
    requires forall k | m <= k < |calls| :: f(calls[k]) == []
    ensures Posted(f, calls) == Posted(f, calls[..m])
    decreases |calls|
  {
    if m < |calls| {
      var pre := calls[..|calls| - 1];
      assert pre[..m] == calls[..m];
      assert f(calls[|calls| - 1]) == [];
      PostedQuiet(f, pre, m);
    } else {
      assert calls[..m] == calls;
    }
  }

  /** The log at the end of a run: 100 after a successful run with a size limit, nothing after a failure. */
  function Completion<T, E>(r: Result<T, E>): (tail: seq<int>)
    ensures r.Success? <==> 100 in tail
  {
    if r.Success? then [100] else []
  }

  /** Two pending logs, the second starting no lower than the first ends, make a pending log. */
  lemma PendingConcat(a: seq<int>, b: seq<int>)
    requires Pending(a) && Pending(b)
    requires |a| == 0 || |b| == 0 || a[|a| - 1] <= b[0]
    ensures Pending(a + b)
  {
    var s := a + b;
    forall i, j | 0 <= i < j < |s|
      ensures s[i] <= s[j]
    {
      if j < |a| {
        assert s[i] == a[i] && s[j] == a[j];
      } else if i >= |a| {
        assert s[i] == b[i - |a|] && s[j] == b[j - |a|];
      } else {
        assert s[i] == a[i] <= a[|a| - 1];
        assert b[0] <= b[j - |a|] == s[j];
      }
    }
  }

  /** The reports of a search keep a log pending when they rise and stay below 100. */
  lemma ReportsPending(progress: seq<int>, f: nat -> int, n: nat)
    requires Pending(progress)
    requires n <= MAX_ITERATIONS
    requires forall i: nat | i < MAX_ITERATIONS :: 0 <= f(i) < 100
    requires forall i: nat, j: nat | i <= j < MAX_ITERATIONS :: f(i) <= f(j)
    requires |progress| == 0 || progress[|progress| - 1] <= f(0)
    ensures Pending(progress + Reports(f, n))
    ensures n > 0 ==> (progress + Reports(f, n))[|progress| + n - 1] == f(n - 1)
    ensures n == 0 ==> progress + Reports(f, n) == progress
  {
    var r := Reports(f, n);
    assert Pending(r) by {
      forall i, j | 0 <= i < j < |r|
        ensures r[i] <= r[j]
      {
        assert r[i] == f(i) <= f(j) == r[j];
      }
    }
    PendingConcat(progress, r);
    if n == 0 {
      assert progress + r == progress;
    }
  }


}
