/**
 * Python list behaviour shared by the numeric passes: the exception an
 * index out of range raises, and the running total of a `for` loop that
 * adds each element in turn.
 */
module PyLists {
  /** The exception `list[i]` raises for an index out of range. */
  datatype IndexError = IndexError(index: int)

  /** Left-to-right total, as `total += num` builds it. */
  function Sum(s: seq<real>): real
  {
    if s == [] then 0.0 else Sum(s[..|s| - 1]) + s[|s| - 1]
  }

  /** A sum of `k` copies of `c`. */
  lemma {:induction false} SumConstant(s: seq<real>, c: real)
    requires forall i :: 0 <= i < |s| ==> s[i] == c
    ensures Sum(s) == c * |s| as real
  {
    if s != [] {
      SumConstant(s[..|s| - 1], c);
    }
  }

  /** Raising every element by `d` raises the sum by `d` per element. */
  lemma {:induction false} SumShift(s: seq<real>, t: seq<real>, d: real)
    requires |t| == |s|
    requires forall i :: 0 <= i < |s| ==> t[i] == s[i] + d
    ensures Sum(t) == Sum(s) + d * |s| as real
  {
    if s != [] {
      SumShift(s[..|s| - 1], t[..|t| - 1], d);
    }
  }

  /** Three terms, added left to right. */
  lemma SumOfThree(x: real, y: real, z: real)
    ensures Sum([x, y, z]) == x + y + z
  {
    assert [x, y, z][..2] == [x, y];
    assert [x, y][..1] == [x];
    assert [x][..0] == [];
    assert Sum([x]) == x;
    assert Sum([x, y]) == x + y;
  }

  /** Five terms, added left to right. */
  lemma SumOfFive(x: real, y: real, z: real, u: real, v: real)
    ensures Sum([x, y, z, u, v]) == x + y + z + u + v
  {
    assert [x, y, z, u, v][..4] == [x, y, z, u];
    assert [x, y, z, u][..3] == [x, y, z];
    SumOfThree(x, y, z);
  }
}
