/**
 * sum_remove_baseline: the sum of `list[start:stop]` minus a flat baseline,
 * the mean of `list[start]` and `list[stop]`, taken `stop - start` times.
 * Indices follow Python: negative ones count from the end, an index outside
 * `-len .. len - 1` raises IndexError, and a slice clips its bounds.
 */
module Baseline {
  import opened Results
  import opened PyLists

  /** `list[i]` does not raise. */
  predicate ValidIndex(n: nat, i: int)
  {
    -(n as int) <= i < n
  }

  /** The element `list[i]` denotes. */
  function Position(n: nat, i: int): (p: nat)
    requires ValidIndex(n, i)
    ensures p < n
    ensures p == if i < 0 then i + n else i
  {
    if i < 0 then i + n else i
  }

  /** A slice bound after Python's normalisation: counted from the end if negative, then clipped. */
  function SliceBound(n: nat, i: int): (b: nat)
    ensures b <= n
    ensures 0 <= i <= n ==> b == i
  {
    if i < 0 then (if i + n < 0 then 0 else i + n) else if i > n then n else i
  }

  /** `list[start:stop]`. */
  function PySlice(list: seq<real>, start: int, stop: int): seq<real>
  {
    var lo, hi := SliceBound(|list|, start), SliceBound(|list|, stop);
    if lo < hi then list[lo..hi] else []
  }

  /** A sum less the flat baseline at the mean of the two end values, over `span` samples. */
  function Corrected(total: real, first: real, last: real, span: int): real
  {
    total - (first + last) / 2.0 * span as real
  }

  /** What sum_remove_baseline returns, or the IndexError it raises. */
  function BaselineCorrected(list: seq<real>, start: int, stop: int): Result<real, IndexError>
  {
    var n := |list|;
    if !ValidIndex(n, start) then Err(IndexError(start))
    else if !ValidIndex(n, stop) then Err(IndexError(stop))
    else
      Ok(Corrected(Sum(PySlice(list, start, stop)), list[Position(n, start)], list[Position(n, stop)], stop - start))
  }

  method SumRemoveBaseline(list: seq<real>, start: int, stop: int) returns (r: Result<real, IndexError>)
    ensures r == BaselineCorrected(list, start, stop)
  {
    var n := |list|;
    if !ValidIndex(n, start) {
      return Err(IndexError(start));
    }
    if !ValidIndex(n, stop) {
      return Err(IndexError(stop));
    }
    var total := 0.0;
    var baseline := (list[Position(n, start)] + list[Position(n, stop)]) / 2.0;
    var slice := PySlice(list, start, stop);
    var k := 0;
    while k < |slice|
      invariant 0 <= k <= |slice|
      invariant total == Sum(slice[..k])
    {
      assert slice[..k + 1][..k] == slice[..k];
      total := total + slice[k];
      k := k + 1;
    }
    assert slice[..k] == slice;
    assert slice == PySlice(list, start, stop);
    total := total - baseline * (stop - start) as real;
    assert total == Corrected(Sum(slice), list[Position(n, start)], list[Position(n, stop)], stop - start);
    r := Ok(total);
  }

  /** The call raises exactly when `start` or `stop` is not a valid index. */
  lemma BaselineFails(list: seq<real>, start: int, stop: int)
    ensures BaselineCorrected(list, start, stop).Err? <==>
      !(-|list| <= start < |list|) || !(-|list| <= stop < |list|)
  {
  }

  /** For ordinary indices `0 <= start <= stop < len(list)` the result is the closed form. */
  lemma BaselineClosedForm(list: seq<real>, start: int, stop: int)
    requires 0 <= start <= stop < |list|
    ensures BaselineCorrected(list, start, stop)
      == Ok(Sum(list[start..stop]) - (list[start] + list[stop]) / 2.0 * (stop - start) as real)
  {
    var window := list[start..stop];
    assert PySlice(list, start, stop) == window;
    assert Position(|list|, start) == start && Position(|list|, stop) == stop;
    assert BaselineCorrected(list, start, stop) == Ok(Corrected(Sum(window), list[start], list[stop], stop - start));
  }

  /** A signal flat over `start..stop` has no area above its baseline. */
  lemma FlatSignal(list: seq<real>, start: int, stop: int)
    requires 0 <= start <= stop < |list|
    requires forall i :: start <= i <= stop ==> list[i] == list[start]
    ensures BaselineCorrected(list, start, stop) == Ok(0.0)
  {
    var c := list[start];
    var window := list[start..stop];
    assert forall i :: 0 <= i < |window| ==> window[i] == list[start + i];
    SumConstant(window, c);
    assert list[stop] == c;
    assert PySlice(list, start, stop) == window;
    assert Position(|list|, start) == start && Position(|list|, stop) == stop;
    FlatCancels(Sum(window), list[start], list[stop], stop - start);
  }

  lemma FlatCancels(total: real, first: real, last: real, span: int)
    requires first == last && total == first * span as real
    ensures Corrected(total, first, last, span) == 0.0
  {
  }

  /** Lifting the whole signal by a constant does not change the corrected sum. */
  lemma OffsetIgnored(list: seq<real>, lifted: seq<real>, d: real, start: int, stop: int)
    requires |lifted| == |list|
    requires forall i :: 0 <= i < |list| ==> lifted[i] == list[i] + d
    requires 0 <= start <= stop < |list|
    ensures BaselineCorrected(lifted, start, stop) == BaselineCorrected(list, start, stop)
  {
    SliceShift(list, lifted, d, start, stop);
    OffsetStep(list, lifted, d, start, stop);
  }

  lemma OffsetStep(list: seq<real>, lifted: seq<real>, d: real, start: int, stop: int)
    requires |lifted| == |list| && 0 <= start <= stop < |list|
    requires lifted[start] == list[start] + d && lifted[stop] == list[stop] + d
    requires Sum(lifted[start..stop]) == Sum(list[start..stop]) + d * (stop - start) as real
    ensures BaselineCorrected(lifted, start, stop) == BaselineCorrected(list, start, stop)
  {
    var n := |list|;
    assert PySlice(list, start, stop) == list[start..stop] && PySlice(lifted, start, stop) == lifted[start..stop];
    assert Position(n, start) == start && Position(n, stop) == stop;
    OffsetCancels(Sum(list[start..stop]), list[start], list[stop],
                  Sum(lifted[start..stop]), lifted[start], lifted[stop], d, stop - start);
  }

  /** The window of the lifted signal sums to `d` more per element. */
  lemma SliceShift(list: seq<real>, lifted: seq<real>, d: real, start: int, stop: int)
    requires |lifted| == |list|
    requires forall i :: 0 <= i < |list| ==> lifted[i] == list[i] + d
    requires 0 <= start <= stop < |list|
    ensures Sum(lifted[start..stop]) == Sum(list[start..stop]) + d * (stop - start) as real
  {
    var w, lw := list[start..stop], lifted[start..stop];
    assert forall i :: 0 <= i < |w| ==> lw[i] == lifted[start + i] && w[i] == list[start + i];
    SumShift(w, lw, d);
  }

  lemma OffsetCancels(total: real, first: real, last: real,
                      liftedTotal: real, liftedFirst: real, liftedLast: real, d: real, span: int)
    requires liftedTotal == total + d * span as real
    requires liftedFirst == first + d && liftedLast == last + d
    ensures Corrected(liftedTotal, liftedFirst, liftedLast, span) == Corrected(total, first, last, span)
  {
  }
}
