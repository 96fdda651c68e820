/** Sequence utilities shared by the extraction and the sweep models. */
module Sequences {
  import opened Wrappers

  /** Sorted with no repeated element: the shape of an `np.unique` result and of an index list built in order. */
  predicate StrictlyIncreasing(s: seq<nat>) {
    forall i, j :: 0 <= i < j < |s| ==> s[i] < s[j]
  }

  /** Appending an element above every element keeps a sequence strictly increasing. */
  lemma IncreasingSnoc(s: seq<nat>, x: nat)
    requires StrictlyIncreasing(s) && forall i :: 0 <= i < |s| ==> s[i] < x
    ensures StrictlyIncreasing(s + [x])
  {
  }

  /** Python's `list.index(x)`: the position of the first occurrence of `x`;
      `None` where Python raises `ValueError`. */
  function IndexOf<T(==)>(s: seq<T>, x: T): (r: Option<nat>)
    ensures r.None? <==> x !in s
    ensures r.Some? ==> r.value < |s| && s[r.value] == x && x !in s[..r.value]
  {
    if s == [] then None
    else if s[0] == x then Some(0)
    else match IndexOf(s[1..], x)
      case None => None
      case Some(k) =>
        assert s[..k + 1] == [s[0]] + s[1..][..k];
        Some(k + 1)
  }

  /** The first occurrence of an element of a prefix is found in the prefix. */
  lemma IndexOfPrefix<T>(s: seq<T>, k: nat, x: T)
    requires k <= |s| && x in s[..k]
    ensures IndexOf(s[..k], x) == IndexOf(s, x)
  {
    var i := IndexOf(s[..k], x).value;
    assert s[..k][..i] == s[..i];
  }

  /** Concatenation of a sequence of sequences (the rows of several blocks, in order). */
  function Concat<T>(ss: seq<seq<T>>): seq<T> {
    if ss == [] then [] else ss[0] + Concat(ss[1..])
  }

  lemma {:induction false} ConcatSnoc<T>(ss: seq<seq<T>>, x: seq<T>)
    ensures Concat(ss + [x]) == Concat(ss) + x
  {
    if ss == [] {
      assert [] + [x] == [x];
    } else {
      assert (ss + [x])[1..] == ss[1..] + [x];
      ConcatSnoc(ss[1..], x);
    }
  }

  /** Every row of `m` has `w` entries: a matrix of `|m|` rows and `w` columns. */
  predicate Rectangular(m: seq<seq<int>>, w: nat) {
    forall i :: 0 <= i < |m| ==> |m[i]| == w
  }

  /** Two sorted duplicate-free sequences with the same elements are equal. */
  lemma {:induction false} IncreasingUnique(a: seq<nat>, b: seq<nat>)
    requires StrictlyIncreasing(a) && StrictlyIncreasing(b)
    requires forall x :: x in a <==> x in b
    ensures a == b
  {
    if b != [] {
      assert b[0] in a;
    }
    if a != [] {
      assert a[0] in b;
      assert b != [] && b[0] in a;
      assert a[0] == b[0];
      forall x ensures x in a[1..] <==> x in b[1..] {
        if x in a[1..] {
          assert x in b && x != b[0];
        }
        if x in b[1..] {
          assert x in a && x != a[0];
        }
      }
      IncreasingUnique(a[1..], b[1..]);
      assert a == [a[0]] + a[1..];
      assert b == [b[0]] + b[1..];
    }
  }
}
