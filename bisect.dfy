/**
 * The binary search over the quality on one canvas. lib/compress.ts runs it
 * on the drawn canvas (lines 86-110) and on the first downscaled canvas that
 * fits (lines 132-142); lib/worker.ts runs the same two loops (lines 165-183
 * and 219-228). `low` starts at MIN_QUALITY, `high` at the initial quality;
 * each call tries their midpoint, a fit raises `low` and becomes the best
 * blob, a miss lowers `high`. The quality search stops early on a blob within
 * 10% of the target; the refinement always runs all MAX_ITERATIONS calls.
 */
module Bisect {
  import opened Wrappers
  import opened Numeric
  import opened Types
  import opened Resize
  import opened Utils
  import opened Search

  /** Every call of the trace produced a blob. */
  predicate Produced(calls: seq<Call>)
  {
    forall k | 0 <= k < |calls| :: calls[k].size.Some?
  }

  /**
   * Number of calls of a search appended to `calls0` that produced a blob:
   * the progress reports the search made, one after each such call.
   */
  function ReportedCalls(calls0: seq<Call>, calls: seq<Call>): nat
    requires |calls0| < |calls|
  {
    if calls[|calls| - 1].size.Some? then |calls| - |calls0| else |calls| - |calls0| - 1
  }

  /**
   * The reports of a quality search that follows the baseline, when each of
   * its calls reports `g(i)` at loop counter `i` if it produced a blob: the
   * search calls are numbered 0, 1, ..., and the log grows by
   * `g(0), ..., g(n - 1)` for the `n` calls that produced a blob.
   */
  lemma {:induction false} PostedSearch(p: Policy, target: real, iq: real, canvas0: Canvas,
                                        f: Call -> seq<int>, g: nat -> int, calls: seq<Call>)
    requires Trace(p, target, iq, canvas0, calls) && |calls| >= 2
    requires forall k | 1 <= k < |calls| :: calls[k].phase == QualityStep
    requires forall k | 1 <= k < |calls| :: f(calls[k]) == if calls[k].size.Some? then [g(calls[k].step)] else []
    ensures calls[|calls| - 1].step == |calls| - 2
    ensures Posted(f, calls) == Posted(f, calls[..1]) + Reports(g, ReportedCalls(calls[..1], calls))
    decreases |calls|
  {
    var n := |calls|;
    var pre := calls[..n - 1];
    var last := calls[n - 1];
    StepAt(p, target, iq, canvas0, calls, n - 1);
    assert calls == pre + [last];
    PostedExtend(f, pre, last);
    if n == 2 {
      assert pre == calls[..1];
    } else {
      TracePrefix(p, target, iq, canvas0, calls, n - 1);
      assert pre[..1] == calls[..1];
      assert pre[n - 2] == calls[n - 2];
      PostedSearch(p, target, iq, canvas0, f, g, pre);
    }
  }

  /** In a trace, every call but the last produced a blob. */
  lemma ProducedBeforeLast(p: Policy, target: real, iq: real, canvas0: Canvas, calls: seq<Call>)
    requires Trace(p, target, iq, canvas0, calls)
    ensures calls[|calls| - 1].size.Some? ==> Produced(calls)
  {
    forall k | 0 <= k < |calls| - 1
      ensures calls[k].size.Some?
    {
      assert Step(p, target, iq, calls[..k + 1], calls[k + 1]);
      assert calls[..k + 1][k] == calls[k];
    }
  }

  /** The midpoint of the current interval is the quality `Midpoint` prescribes. */
  lemma MidpointOfInterval(prev: Call, i: nat, target: real, iq: real, low: real, high: real)
    requires high - low == Span(iq - MIN_QUALITY, i)
    requires i == 0 ==> low == MIN_QUALITY && high == iq
    requires i > 0 && Fits(prev, target) ==> low == prev.quality
    requires i > 0 && !Fits(prev, target) ==> high == prev.quality
    ensures (low + high) / 2.0 == Midpoint(prev, i, target, iq)
    ensures (low + high) / 2.0 - low == Span(iq - MIN_QUALITY, i + 1)
    ensures high - (low + high) / 2.0 == Span(iq - MIN_QUALITY, i + 1)
  {
  }

  /** The conditions under which a search call may follow the calls so far. */
  lemma SearchStepLegal(p: Policy, target: real, iq: real, calls: seq<Call>, c: Call)
    requires |calls| >= 1 && calls[|calls| - 1].size.Some?
    requires p.qualitySearch && (c.phase == QualityStep || c.phase == Refine) && c.step < MAX_ITERATIONS
    requires c.canvas == calls[|calls| - 1].canvas
    requires c.quality == Midpoint(calls[|calls| - 1], c.step, target, iq)
    requires c.step == 0 && c.phase == QualityStep ==>
      calls[|calls| - 1].phase == Baseline && !Fits(calls[|calls| - 1], target)
    requires c.step == 0 && c.phase == Refine ==>
      calls[|calls| - 1].phase == Downscale && Fits(calls[|calls| - 1], target)
    requires c.step > 0 ==> calls[|calls| - 1].phase == c.phase && calls[|calls| - 1].step + 1 == c.step
    requires c.step > 0 && c.phase == QualityStep ==> !CloseEnough(calls[|calls| - 1], target)
    ensures Step(p, target, iq, calls, c)
  {
  }

  /** Appending a legal call of the current search keeps the facts the search loop tracks. */
  lemma SearchAppend(p: Policy, target: real, iq: real, canvas0: Canvas, encode: Encoder, mime: string,
                     phase: Phase, calls0: seq<Call>, calls: seq<Call>, c: Call)
    requires 1 <= |calls0| <= |calls| && calls[..|calls0|] == calls0
    requires Trace(p, target, iq, canvas0, calls) && Genuine(encode, mime, calls)
    requires forall k | |calls0| <= k < |calls| ::
      calls[k].phase == phase && calls[k].canvas == calls0[|calls0| - 1].canvas
    requires Step(p, target, iq, calls, c) && c.size == encode(mime, c.canvas, c.quality)
    requires c.phase == phase && c.canvas == calls0[|calls0| - 1].canvas
    ensures (calls + [c])[..|calls0|] == calls0
    ensures Trace(p, target, iq, canvas0, calls + [c]) && Genuine(encode, mime, calls + [c])
    ensures forall k | |calls0| <= k < |calls + [c]| ::
      (calls + [c])[k].phase == phase && (calls + [c])[k].canvas == calls0[|calls0| - 1].canvas
  {
    TraceExtend(p, target, iq, canvas0, calls, c);
    assert (calls + [c])[..|calls0|] == calls[..|calls0|];
  }

  /** What holds before iteration `i` of a binary search appended to `calls0`. */
  predicate SearchInv(p: Policy, target: real, iq: real, canvas0: Canvas, encode: Encoder, mime: string,
                      phase: Phase, calls0: seq<Call>, calls: seq<Call>, i: nat, low: real, high: real, best: nat)
  {
    1 <= |calls0| && i <= MAX_ITERATIONS && |calls| == |calls0| + i && calls[..|calls0|] == calls0 &&
    Trace(p, target, iq, canvas0, calls) && Genuine(encode, mime, calls) &&
    var last := calls[|calls| - 1];
    last.size.Some? && last.canvas == calls0[|calls0| - 1].canvas &&
    (i == 0 ==> calls == calls0 && low == MIN_QUALITY && high == iq) &&
    (i > 0 ==> last.phase == phase && last.step == i - 1) &&
    (i > 0 && phase == QualityStep ==> !CloseEnough(last, target)) &&
    (forall k | |calls0| <= k < |calls| :: calls[k].phase == phase && calls[k].canvas == calls0[|calls0| - 1].canvas) &&
    high - low == Span(iq - MIN_QUALITY, i) &&
    (i > 0 && Fits(last, target) ==> low == last.quality) &&
    (i > 0 && !Fits(last, target) ==> high == last.quality) &&
    best == BestIndex(p, target, calls) &&
    ((forall j | 0 <= j < |calls0| :: !Fits(calls0[j], target)) ==>
      (forall j | 0 <= j < |calls| :: !Fits(calls[j], target)) || Fits(calls[best], target))
  }

  /** One iteration: the call at the midpoint, and the state after it. */
  lemma SearchInvStep(p: Policy, target: real, iq: real, canvas0: Canvas, encode: Encoder, mime: string,
                      phase: Phase, calls0: seq<Call>, calls: seq<Call>, i: nat, low: real, high: real, best: nat,
                      c: Call, low': real, high': real, best': nat)
    requires SearchInv(p, target, iq, canvas0, encode, mime, phase, calls0, calls, i, low, high, best)
    requires phase == QualityStep || phase == Refine
    requires p.qualitySearch && i < MAX_ITERATIONS
    requires phase == QualityStep ==>
      calls0[|calls0| - 1].phase == Baseline && !Fits(calls0[|calls0| - 1], target)
    requires phase == Refine ==>
      calls0[|calls0| - 1].phase == Downscale && Fits(calls0[|calls0| - 1], target)
    requires c.phase == phase && c.step == i && c.canvas == calls0[|calls0| - 1].canvas
    requires c.quality == (low + high) / 2.0 && c.size == encode(mime, c.canvas, c.quality)
    requires Fits(c, target) ==> low' == c.quality && high' == high && best' == |calls|
    requires !Fits(c, target) ==> low' == low && high' == c.quality && best' == best
    ensures Trace(p, target, iq, canvas0, calls + [c]) && Genuine(encode, mime, calls + [c])
    ensures (calls + [c])[..|calls0|] == calls0
    ensures forall k | |calls0| <= k < |calls + [c]| ::
      (calls + [c])[k].phase == phase && (calls + [c])[k].canvas == calls0[|calls0| - 1].canvas
    ensures best' == BestIndex(p, target, calls + [c])
    ensures (forall j | 0 <= j < |calls0| :: !Fits(calls0[j], target)) ==>
      (forall j | 0 <= j < |calls + [c]| :: !Fits((calls + [c])[j], target)) || Fits((calls + [c])[best'], target)
    ensures c.size.Some? && !(phase == QualityStep && CloseEnough(c, target)) ==>
      SearchInv(p, target, iq, canvas0, encode, mime, phase, calls0, calls + [c], i + 1, low', high', best')
  {
    MidpointOfInterval(calls[|calls| - 1], i, target, iq, low, high);
    SearchStepLegal(p, target, iq, calls, c);
    SearchAppend(p, target, iq, canvas0, encode, mime, phase, calls0, calls, c);
    BestIndexExtend(p, target, calls, c);
  }

  /**
   * What a binary search of `phase` appended to `calls0` leaves: a trace of
   * at most MAX_ITERATIONS more calls on the canvas of the last call of
   * `calls0`, stopped by a call without a blob, by a close-enough blob in a
   * quality search or by the last iteration, with `best` the best call and
   * a fitting one whenever any call after `calls0` fits.
   */
  predicate Searched(p: Policy, target: real, iq: real, canvas0: Canvas, encode: Encoder, mime: string,
                     phase: Phase, calls0: seq<Call>, calls: seq<Call>, best: nat)
  {
    1 <= |calls0| < |calls| <= |calls0| + MAX_ITERATIONS && calls[..|calls0|] == calls0 &&
    Trace(p, target, iq, canvas0, calls) && Genuine(encode, mime, calls) &&
    (forall k | |calls0| <= k < |calls| ::
      calls[k].phase == phase && calls[k].canvas == calls0[|calls0| - 1].canvas) &&
    (var last := calls[|calls| - 1];
      last.size.None? ||
      (phase == QualityStep && CloseEnough(last, target)) ||
      last.step + 1 == MAX_ITERATIONS) &&
    best == BestIndex(p, target, calls) &&
    ((forall j | 0 <= j < |calls0| :: !Fits(calls0[j], target)) ==>
      (forall j | 0 <= j < |calls| :: !Fits(calls[j], target)) || Fits(calls[best], target))
  }

  /**
   * One binary search of `phase` (QualityStep or Refine) appended to `calls0`,
   * on the canvas of its last call. It stops at the first call without a blob,
   * at a close-enough blob in a quality search, or after MAX_ITERATIONS calls.
   */
  method Run(p: Policy, target: real, iq: real, canvas0: Canvas, encode: Encoder, mime: string,
             phase: Phase, calls0: seq<Call>)
    returns (calls: seq<Call>, best: nat)
    requires phase == QualityStep || phase == Refine
    requires p.qualitySearch
    requires Trace(p, target, iq, canvas0, calls0) && Genuine(encode, mime, calls0)
    requires calls0[|calls0| - 1].size.Some?
    requires phase == QualityStep ==>
      calls0[|calls0| - 1].phase == Baseline && !Fits(calls0[|calls0| - 1], target)
    requires phase == Refine ==>
      calls0[|calls0| - 1].phase == Downscale && Fits(calls0[|calls0| - 1], target)
    ensures Searched(p, target, iq, canvas0, encode, mime, phase, calls0, calls, best)
  {
    var canvas := calls0[|calls0| - 1].canvas;
    var low, high := MIN_QUALITY, iq;
    calls := calls0;
    best := BestIndex(p, target, calls);
    var i := 0;
    while i < MAX_ITERATIONS
      invariant SearchInv(p, target, iq, canvas0, encode, mime, phase, calls0, calls, i, low, high, best)
    {
      var mid := (low + high) / 2.0;
      var s := encode(mime, canvas, mid);
      var c := Call(phase, i, canvas, mid, s);
      var low', high', best' := low, mid, best;
      if Fits(c, target) {
        low', high', best' := mid, high, |calls|;
      }
      SearchInvStep(p, target, iq, canvas0, encode, mime, phase, calls0, calls, i, low, high, best,
        c, low', high', best');
      calls, low, high, best := calls + [c], low', high', best';
      if s.None? || (phase == QualityStep && CloseEnough(c, target)) {
        return;
      }
      i := i + 1;
    }
  }
}
