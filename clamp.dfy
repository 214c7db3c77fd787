/**
 * The cut-off pass of plot_OpticsLab over the (already scaled) intensity
 * array: with a cut-off, values above it become the cut-off and negative
 * values become 0; without one, only negative values become 0. Both tests
 * look at the value as it was before the pass touched it.
 */
module OpticsLabClamp {
  import opened Results

  /** What the pass leaves in place of `val`. */
  function Clamped(val: real, cutoff: Option<real>): (r: real)
    ensures r >= 0.0 || (cutoff.Some? && r == cutoff.value)
    ensures cutoff.None? ==> (r == val <==> val >= 0.0) && (val < 0.0 ==> r == 0.0)
    ensures cutoff.Some? && cutoff.value >= 0.0 ==>
      && 0.0 <= r <= cutoff.value
      && (0.0 <= val <= cutoff.value ==> r == val)
    ensures val < 0.0 ==> r == 0.0
    ensures cutoff.Some? && val >= 0.0 && val > cutoff.value ==> r == cutoff.value
  {
    match cutoff
    case None => if val < 0.0 then 0.0 else val
    case Some(c) => if val < 0.0 then 0.0 else if val > c then c else val
  }

  /** With a non-negative cut-off a second pass changes nothing. */
  lemma ClampedIdempotent(val: real, c: real)
    requires c >= 0.0
    ensures Clamped(Clamped(val, Some(c)), Some(c)) == Clamped(val, Some(c))
  {
  }

  /**
   * With a negative cut-off the two tests disagree: every non-negative value
   * becomes the (negative) cut-off while every negative value becomes 0.
   */
  lemma NegativeCutoff(val: real, c: real)
    requires c < 0.0
    ensures Clamped(val, Some(c)) == if val < 0.0 then 0.0 else c
  {
  }

  /** The loops at the end of plot_OpticsLab, over `y` in place. */
  method ClampInPlace(y: array<real>, cutoff: Option<real>)
    modifies y
    ensures forall i :: 0 <= i < y.Length ==> y[i] == Clamped(old(y[i]), cutoff)
    ensures cutoff.Some? && cutoff.value >= 0.0 ==>
      forall i :: 0 <= i < y.Length ==> 0.0 <= y[i] <= cutoff.value
    ensures cutoff.None? ==>
      forall i :: 0 <= i < y.Length ==> (y[i] == old(y[i]) <==> old(y[i]) >= 0.0)
  {
    var i := 0;
    if cutoff.Some? {
      var c := cutoff.value;
      while i < y.Length
        invariant 0 <= i <= y.Length
        invariant forall k :: 0 <= k < i ==> y[k] == Clamped(old(y[k]), cutoff)
        invariant forall k :: i <= k < y.Length ==> y[k] == old(y[k])
      {
        var val := y[i];
        if val > c {
          y[i] := c;
        }
        if val < 0.0 {
          y[i] := 0.0;
        }
        i := i + 1;
      }
    } else {
      while i < y.Length
        invariant 0 <= i <= y.Length
        invariant forall k :: 0 <= k < i ==> y[k] == Clamped(old(y[k]), cutoff)
        invariant forall k :: i <= k < y.Length ==> y[k] == old(y[k])
      {
        var val := y[i];
        if val < 0.0 {
          y[i] := 0.0;
        }
        i := i + 1;
      }
    }
  }
}
