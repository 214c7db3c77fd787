/**
 * The noise-reducing pass written inline in plot.py's main block: a moving
 * average over the optics-lab transmission series, with five-point windows
 * in the interior and ad hoc windows at both ends.
 */
module Smoothing {
  import opened Results
  import opened PyLists

  /**
   * Element `i` of the smoothed series as the script builds it: the first
   * value kept, then the mean of elements 0, 1 and 3, five-point means, the
   * mean of the last three, and finally the third value from the end.
   */
  function SmoothedAt(a: seq<real>, i: nat): real
    requires |a| >= 4 && i < |a|
  {
    var n := |a|;
    if i == 0 then a[0]
    else if i == 1 then (a[0] + a[1] + a[3]) / 3.0
    else if i < n - 2 then (a[i - 2] + a[i - 1] + a[i] + a[i + 1] + a[i + 2]) / 5.0
    else if i == n - 2 then (a[n - 3] + a[n - 2] + a[n - 1]) / 3.0
    else a[n - 3]
  }

  function Smoothed(a: seq<real>): (r: seq<real>)
    requires |a| >= 4
    ensures |r| == |a|
    ensures forall i :: 0 <= i < |a| ==> r[i] == SmoothedAt(a, i)
  {
    seq(|a|, i requires 0 <= i < |a| => SmoothedAt(a, i))
  }

  /**
   * Index at which the script's `transQz[...]` first raises IndexError on a
   * series too short for the end windows: element 1, then element 3, are
   * read before anything else can fail.
   */
  function ShortSeriesIndex(n: nat): (k: nat)
    requires n < 4
    ensures n <= k <= 3
  {
    if n == 0 then 0 else if n == 1 then 1 else 3
  }

  /**
   * The loop that fills `avgtransQz`: two leading values, one appended
   * per interior index in `range(2, len - 2)`, two trailing values.
   */
  method Smooth(a: seq<real>) returns (r: Result<seq<real>, IndexError>)
    ensures r.Err? <==> |a| < 4
    ensures r.Err? ==> r.error == IndexError(ShortSeriesIndex(|a|))
    ensures r.Ok? ==> |r.value| == |a| && r.value == Smoothed(a)
  {
    var n := |a|;
    if n < 4 {
      return Err(IndexError(ShortSeriesIndex(n)));
    }
    var out := [a[0]];
    out := out + [(a[0] + a[1] + a[3]) / 3.0];
    var i := 2;
    while i < n - 2
      invariant 2 <= i <= n - 2
      invariant |out| == i
      invariant forall k :: 0 <= k < i ==> out[k] == SmoothedAt(a, k)
    {
      out := out + [(a[i - 2] + a[i - 1] + a[i] + a[i + 1] + a[i + 2]) / 5.0];
      i := i + 1;
    }
    out := out + [(a[n - 3] + a[n - 2] + a[n - 1]) / 3.0];
    out := out + [a[n - 3]];
    return Ok(out);
  }

  /** Every smoothed value lies within the bounds of the input. */
  lemma SmoothedWithin(a: seq<real>, lo: real, hi: real)
    requires |a| >= 4
    requires forall k :: 0 <= k < |a| ==> lo <= a[k] <= hi
    ensures forall i :: 0 <= i < |a| ==> lo <= SmoothedAt(a, i) <= hi
  {
    forall i | 0 <= i < |a|
      ensures lo <= SmoothedAt(a, i) <= hi
    {
      var n := |a|;
      if 2 <= i < n - 2 {
        assert lo <= a[i - 2] <= hi && lo <= a[i - 1] <= hi && lo <= a[i] <= hi;
        assert lo <= a[i + 1] <= hi && lo <= a[i + 2] <= hi;
      } else {
        assert lo <= a[0] <= hi && lo <= a[1] <= hi && lo <= a[3] <= hi;
        assert lo <= a[n - 3] <= hi && lo <= a[n - 2] <= hi && lo <= a[n - 1] <= hi;
      }
    }
  }

  /** A constant series comes out unchanged. */
  lemma ConstantUnchanged(a: seq<real>, c: real)
    requires |a| >= 4
    requires forall k :: 0 <= k < |a| ==> a[k] == c
    ensures Smoothed(a) == a
  {
    SmoothedWithin(a, c, c);
  }

  /** Lifting the input by `d` lifts every smoothed value by `d`. */
  lemma SmoothedShift(a: seq<real>, b: seq<real>, d: real)
    requires |a| >= 4 && |b| == |a|
    requires forall k :: 0 <= k < |a| ==> b[k] == a[k] + d
    ensures forall i :: 0 <= i < |a| ==> SmoothedAt(b, i) == SmoothedAt(a, i) + d
  {
    forall i | 0 <= i < |a|
      ensures SmoothedAt(b, i) == SmoothedAt(a, i) + d
    {
      var n := |a|;
      if 2 <= i < n - 2 {
        assert b[i - 2] == a[i - 2] + d && b[i - 1] == a[i - 1] + d && b[i] == a[i] + d;
        assert b[i + 1] == a[i + 1] + d && b[i + 2] == a[i + 2] + d;
      } else {
        assert b[0] == a[0] + d && b[1] == a[1] + d && b[3] == a[3] + d;
        assert b[n - 3] == a[n - 3] + d && b[n - 2] == a[n - 2] + d && b[n - 1] == a[n - 1] + d;
      }
    }
  }

  predicate StrictlyIncreasing(s: seq<real>)
  {
    forall i, j :: 0 <= i < j < |s| ==> s[i] < s[j]
  }

  /**
   * A strictly increasing input can come out non-monotone: for 0, 1, 2, 3
   * the output ends 2, 1, because the last value is the third from the end.
   */
  lemma MonotonicityNotPreserved()
    ensures StrictlyIncreasing([0.0, 1.0, 2.0, 3.0])
    ensures !StrictlyIncreasing(Smoothed([0.0, 1.0, 2.0, 3.0]))
  {
    var a := [0.0, 1.0, 2.0, 3.0];
    assert Smoothed(a)[2] == 2.0 && Smoothed(a)[3] == 1.0;
  }

  // ------------------------------------------------- centred edge windows

  function Reverse(s: seq<real>): (r: seq<real>)
    ensures |r| == |s|
    ensures forall i :: 0 <= i < |s| ==> r[i] == s[|s| - 1 - i]
  {
    seq(|s|, i requires 0 <= i < |s| => s[|s| - 1 - i])
  }

  /** The mean of `a[lo..hi]`. */
  function WindowMean(a: seq<real>, lo: nat, hi: nat): real
    requires lo < hi <= |a|
  {
    Sum(a[lo..hi]) / (hi - lo) as real
  }

  /** Half-width of the centred window at `i`: 2 inside, narrowing to 1 and 0 at the ends. */
  function HalfWidth(n: nat, i: nat): (w: nat)
    requires i < n
    ensures w <= i && i + w < n
  {
    if i < 2 || n - 1 - i < 2 then (if i < n - 1 - i then i else n - 1 - i) else 2
  }

  /**
   * The smoother with the end windows mirrored: element 1 averages
   * elements 0, 1 and 2, and the last element is kept.
   */
  function CenteredAt(a: seq<real>, i: nat): real
    requires |a| >= 4 && i < |a|
  {
    var n := |a|;
    if i == 0 then a[0]
    else if i == 1 then (a[0] + a[1] + a[2]) / 3.0
    else if i < n - 2 then (a[i - 2] + a[i - 1] + a[i] + a[i + 1] + a[i + 2]) / 5.0
    else if i == n - 2 then (a[n - 3] + a[n - 2] + a[n - 1]) / 3.0
    else a[n - 1]
  }

  /** Every corrected value is the mean of the window centred on it, of width 1, 3 or 5. */
  lemma CenteredIsWindowMean(a: seq<real>, i: nat)
    requires |a| >= 4 && i < |a|
    ensures var w := HalfWidth(|a|, i); CenteredAt(a, i) == WindowMean(a, i - w, i + w + 1)
  {
    var n := |a|;
    if i == 0 || i == n - 1 {
      MeanOfOne(a, i);
    } else if i == 1 || i == n - 2 {
      MeanOfThree(a, i);
    } else {
      MeanOfFive(a, i);
    }
  }

  lemma MeanOfOne(a: seq<real>, i: nat)
    requires i < |a|
    ensures WindowMean(a, i, i + 1) == a[i]
  {
    var win := a[i..i + 1];
    assert win == [a[i]];
    assert win[..0] == [];
    assert Sum(win) == a[i];
  }

  lemma MeanOfThree(a: seq<real>, i: nat)
    requires 1 <= i && i + 1 < |a|
    ensures WindowMean(a, i - 1, i + 2) == (a[i - 1] + a[i] + a[i + 1]) / 3.0
  {
    assert a[i - 1..i + 2] == [a[i - 1], a[i], a[i + 1]];
    SumOfThree(a[i - 1], a[i], a[i + 1]);
  }

  lemma MeanOfFive(a: seq<real>, i: nat)
    requires 2 <= i && i + 2 < |a|
    ensures WindowMean(a, i - 2, i + 3) == (a[i - 2] + a[i - 1] + a[i] + a[i + 1] + a[i + 2]) / 5.0
  {
    assert a[i - 2..i + 3] == [a[i - 2], a[i - 1], a[i], a[i + 1], a[i + 2]];
    SumOfFive(a[i - 2], a[i - 1], a[i], a[i + 1], a[i + 2]);
  }

  /** Smoothing the reversed series gives the reversed smoothed series. */
  lemma CenteredCommutesWithReverse(a: seq<real>, i: nat)
    requires |a| >= 4 && i < |a|
    ensures CenteredAt(Reverse(a), i) == CenteredAt(a, |a| - 1 - i)
  {
  }

  /**
   * The ends as written are not mirror images: element 1 of 0, 0, 5, 0, 0
   * ignores the 5 its mirror (element 3) sees, and the last element of
   * 0, 5, 0, 0 is 5, not the last value 0 that the mirror of element 0 keeps.
   */
  lemma AsWrittenEndsAsymmetric()
    ensures SmoothedAt([0.0, 0.0, 5.0, 0.0, 0.0], 1) != SmoothedAt(Reverse([0.0, 0.0, 5.0, 0.0, 0.0]), 3)
    ensures SmoothedAt([0.0, 5.0, 0.0, 0.0], 3) != WindowMean([0.0, 5.0, 0.0, 0.0], 3, 4)
    ensures SmoothedAt([0.0, 0.0, 5.0, 0.0], 1) != WindowMean([0.0, 0.0, 5.0, 0.0], 0, 3)
  {
    var a := [0.0, 0.0, 5.0, 0.0, 0.0];
    assert Reverse(a)[1] == 0.0;
    var b := [0.0, 5.0, 0.0, 0.0];
    assert b[3..4] == [0.0];
    assert [0.0][..0] == [];
    var c := [0.0, 0.0, 5.0, 0.0];
    assert c[0..3] == [0.0, 0.0, 5.0];
    SumOfThree(0.0, 0.0, 5.0);
  }
}
