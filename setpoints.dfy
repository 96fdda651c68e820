/** The setpoint helpers of doNd.py: `unique` (lines 19-29), `cartprod` (lines 74-78) and
    `cartprodmeander` (lines 80-88). Setpoint values are integers: these helpers only copy and
    reorder them. */
module Setpoints {
  import opened Wrappers
  import opened Sequences

  // ---------------------------------------------------------------------------
  // `unique` (lines 19-29).

  /** No element occurs twice. */
  predicate Distinct<T(==)>(s: seq<T>) {
    forall i, j :: 0 <= i < j < |s| ==> s[i] != s[j]
  }

  /** The position of the first occurrence of `x` in `s`. */
  function First<T(==)>(s: seq<T>, x: T): nat
    requires x in s
  {
    IndexOf(s, x).value
  }

  /** `u` lists the elements of `s`, each once, in the order of their first occurrence in `s`. */
  predicate FirstOccurrences<T(==)>(s: seq<T>, u: seq<T>) {
    && Distinct(u)
    && (forall i :: 0 <= i < |u| ==> u[i] in s)
    && (forall k :: 0 <= k < |s| ==> s[k] in u)
    && forall i, j :: 0 <= i < j < |u| ==> u[i] in s && u[j] in s && First(s, u[i]) < First(s, u[j])
  }

  /** The loop at lines 22-29: an element is appended when it is not yet in the result. */
  method Unique<T(==)>(list1: seq<T>) returns (uniqueList: seq<T>)
    ensures FirstOccurrences(list1, uniqueList)
  {
    uniqueList := [];
    for k := 0 to |list1|
      invariant FirstOccurrences(list1[..k], uniqueList)
    {
      var x := list1[k];
      FirstInLonger(list1, k);
      if x !in uniqueList {
        assert x !in list1[..k];
        FirstOfNew(list1, k);
        uniqueList := uniqueList + [x];
      }
      assert list1[..k + 1] == list1[..k] + [x];
    }
    assert list1[..|list1|] == list1;
  }

  /** An element of a prefix keeps its first position when the prefix grows by one. */
  lemma FirstInLonger<T>(s: seq<T>, k: nat)
    requires k < |s|
    ensures forall y :: y in s[..k] ==> y in s[..k + 1] && First(s[..k + 1], y) == First(s[..k], y)
  {
    forall y | y in s[..k]
      ensures y in s[..k + 1] && First(s[..k + 1], y) == First(s[..k], y)
    {
      assert s[..k + 1][..k] == s[..k];
      IndexOfPrefix(s[..k + 1], k, y);
    }
  }

  /** A new element of `s[..k + 1]` is first seen at `k`. */
  lemma FirstOfNew<T>(s: seq<T>, k: nat)
    requires k < |s| && s[k] !in s[..k]
    ensures s[k] in s[..k + 1] && First(s[..k + 1], s[k]) == k
  {
    var p := s[..k + 1];
    assert p[k] == s[k];
  }

  /** The result of `unique` is determined: two lists of first occurrences of `s` are equal. */
  lemma FirstOccurrencesUnique<T>(s: seq<T>, u: seq<T>, v: seq<T>)
    requires FirstOccurrences(s, u) && FirstOccurrences(s, v)
    ensures u == v
  {
    var pu := Positions(s, u);
    var pv := Positions(s, v);
    forall p ensures p in pu <==> p in pv {
      if p in pu {
        var i :| 0 <= i < |u| && pu[i] == p;
        assert u[i] in v;
        var j :| 0 <= j < |v| && v[j] == u[i];
        assert pv[j] == p;
      }
      if p in pv {
        var j :| 0 <= j < |v| && pv[j] == p;
        assert v[j] in u;
        var i :| 0 <= i < |u| && u[i] == v[j];
        assert pu[i] == p;
      }
    }
    IncreasingUnique(pu, pv);
    forall i | 0 <= i < |u| ensures u[i] == v[i] {
      assert s[pu[i]] == u[i] && s[pv[i]] == v[i];
    }
  }

  /** The first positions of the elements of `u`, in order: strictly increasing. */
  function Positions<T(==)>(s: seq<T>, u: seq<T>): (r: seq<nat>)
    requires FirstOccurrences(s, u)
    ensures |r| == |u| && StrictlyIncreasing(r)
    ensures forall i :: 0 <= i < |u| ==> r[i] < |s| && s[r[i]] == u[i] && r[i] == First(s, u[i])
  {
    seq(|u|, i requires 0 <= i < |u| => First(s, u[i]))
  }

  // ---------------------------------------------------------------------------
  // Arithmetic of row numbers.

  lemma MulLe(a: int, b: int, c: nat)
    requires a <= b
    ensures a * c <= b * c
  {
    assert b * c - a * c == (b - a) * c;
  }

  lemma DivMod(k: nat, l: nat)
    requires l > 0
    ensures k == (k / l) * l + k % l && k % l < l
  {
  }

  /** The block and the row inside it of row number `k`. */
  lemma DivParts(k: nat, l: nat) returns (q: nat, t: nat)
    requires l > 0
    ensures q == k / l && t == k % l && k == q * l + t && t < l
  {
    q, t := k / l, k % l;
  }

  /** The row after row `t` of block `q` is the next row of the block or the first of the next. */
  lemma DivSucc(k: nat, l: nat)
    requires l > 0
    ensures if k % l + 1 < l then (k + 1) / l == k / l && (k + 1) % l == k % l + 1
      else (k + 1) / l == k / l + 1 && (k + 1) % l == 0
  {
    var q, t := DivParts(k, l);
    if t + 1 < l {
      assert k + 1 == q * l + (t + 1);
      DivModOf(q, t + 1, l);
    } else {
      assert k + 1 == (q + 1) * l + 0;
      DivModOf(q + 1, 0, l);
    }
  }

  /** A row number below `p * l` lies in one of the `p` blocks of `l` rows. */
  lemma DivBound(k: nat, p: nat, l: nat)
    requires l > 0 && k < p * l
    ensures k / l < p
  {
    if k / l >= p {
      MulLe(p, k / l, l);
    }
  }

  /** Row `t` of block `b` is row `b * l + t`, and back. */
  lemma DivModOf(b: nat, t: nat, l: nat)
    requires t < l
    ensures (b * l + t) / l == b && (b * l + t) % l == t
  {
    var k := b * l + t;
    var q := k / l;
    assert (q - b) * l == t - k % l;
    if q > b {
      MulLe(1, q - b, l);
    } else if q < b {
      MulLe(1, b - q, l);
    }
  }

  /** A row of block `b` lies below block `b + 1`. */
  lemma BlockRowBound(b: nat, t: nat, l: nat, p: nat)
    requires t < l && b < p
    ensures b * l + t < p * l
  {
    MulLe(b + 1, p, l);
  }

  // ---------------------------------------------------------------------------
  // The mesh of `cartprod` (lines 74-78).

  /** The product of a list of lengths. */
  function Prod(lens: seq<nat>): nat {
    if lens == [] then 1 else Prod(lens[..|lens| - 1]) * lens[|lens| - 1]
  }

  function Lengths(arrays: seq<seq<int>>): seq<nat> {
    seq(|arrays|, j requires 0 <= j < |arrays| => |arrays[j]|)
  }

  /** The rows that extend `p` by each element of `xs` in turn. */
  function Block(p: seq<int>, xs: seq<int>): seq<seq<int>> {
    seq(|xs|, t requires 0 <= t < |xs| => p + [xs[t]])
  }

  /** Every block of `bs` has `l` rows. */
  predicate BlocksOfLength(bs: seq<seq<seq<int>>>, l: nat) {
    forall b :: 0 <= b < |bs| ==> |bs[b]| == l
  }

  /** The blocks of the mesh over the rows `init` of the slow axes: each row extended by each
      element of `last`. */
  function MeshBlocks(init: seq<seq<int>>, last: seq<int>): (r: seq<seq<seq<int>>>)
    ensures |r| == |init| && BlocksOfLength(r, |last|)
  {
    seq(|init|, b requires 0 <= b < |init| => Block(init[b], last))
  }

  /** Row `t` of block `b` is row `b * l + t` of the concatenation. */
  lemma {:induction false} ConcatIndex(bs: seq<seq<seq<int>>>, l: nat, b: nat, t: nat)
    requires BlocksOfLength(bs, l) && b < |bs| && t < l
    ensures |Concat(bs)| == |bs| * l && b * l + t < |bs| * l && Concat(bs)[b * l + t] == bs[b][t]
  {
    ConcatLength(bs, l);
    BlockRowBound(b, t, l, |bs|);
    if b > 0 {
      ConcatIndex(bs[1..], l, b - 1, t);
      assert b * l + t == l + ((b - 1) * l + t);
    }
  }

  /** Row `k` of the concatenation is row `k % l` of block `k / l`. */
  lemma ConcatBlockAt(bs: seq<seq<seq<int>>>, l: nat, k: nat) returns (b: nat, t: nat)
    requires BlocksOfLength(bs, l) && l > 0 && k < |bs| * l
    ensures b == k / l && t == k % l && b < |bs| && t < l
    ensures |Concat(bs)| == |bs| * l && Concat(bs)[k] == bs[b][t]
  {
    b, t := DivParts(k, l);
    DivBound(k, |bs|, l);
    ConcatIndex(bs, l, b, t);
  }

  lemma {:induction false} ConcatLength(bs: seq<seq<seq<int>>>, l: nat)
    requires BlocksOfLength(bs, l)
    ensures |Concat(bs)| == |bs| * l
  {
    if bs != [] {
      ConcatLength(bs[1..], l);
      assert |bs| * l == l + (|bs| - 1) * l;
    }
  }

  /** Every row of the concatenation is a row of some block. */
  lemma {:induction false} ConcatRows(bs: seq<seq<seq<int>>>, n: nat)
    requires forall b, t :: 0 <= b < |bs| && 0 <= t < |bs[b]| ==> |bs[b][t]| == n
    ensures forall k :: 0 <= k < |Concat(bs)| ==> |Concat(bs)[k]| == n
  {
    if bs != [] {
      ConcatRows(bs[1..], n);
    }
  }

  /** The meshgrid of `arrays`, one row per index tuple, the last axis varying fastest:
      each row of the mesh of all but the last array, extended by each element of the last. */
  function Mesh(arrays: seq<seq<int>>): (r: seq<seq<int>>)
    ensures |r| == Prod(Lengths(arrays))
    ensures forall k :: 0 <= k < |r| ==> |r[k]| == |arrays|
  {
    if arrays == [] then [[]]
    else
      var n := |arrays|;
      var init := Mesh(arrays[..n - 1]);
      var blocks := MeshBlocks(init, arrays[n - 1]);
      ConcatLength(blocks, |arrays[n - 1]|);
      ConcatRows(blocks, n);
      assert Lengths(arrays)[..n - 1] == Lengths(arrays[..n - 1]);
      Concat(blocks)
  }

  /** `cartprod(*arrays)`: numpy cannot reshape the empty mesh of no arrays, so at least one
      array is given. */
  function CartProd(arrays: seq<seq<int>>): seq<seq<int>>
    requires |arrays| > 0
  {
    Mesh(arrays)
  }

  /** Row `k` of the mesh is row `k / l` of the mesh of the first arrays, extended by
      element `k % l` of the last array, of length `l`. */
  lemma MeshRow(arrays: seq<seq<int>>, k: nat)
    requires |arrays| > 0 && k < |Mesh(arrays)|
    ensures var n := |arrays|; var l := |arrays[n - 1]|;
      l > 0 && k / l < |Mesh(arrays[..n - 1])| &&
      Mesh(arrays)[k] == Mesh(arrays[..n - 1])[k / l] + [arrays[n - 1][k % l]]
  {
    var n := |arrays|;
    var l := |arrays[n - 1]|;
    var init := Mesh(arrays[..n - 1]);
    var blocks := MeshBlocks(init, arrays[n - 1]);
    ConcatLength(blocks, l);
    assert Mesh(arrays) == Concat(blocks);
    assert l > 0;
    var b, t := ConcatBlockAt(blocks, l, k);
    assert blocks[b][t] == init[b] + [arrays[n - 1][t]];
  }

  /** Division by a block length is monotone. */
  lemma DivMono(k: nat, k': nat, l: nat)
    requires l > 0 && k <= k'
    ensures k / l <= k' / l
  {
    DivMod(k, l);
    DivMod(k', l);
    if k / l > k' / l {
      MulLe(k' / l + 1, k / l, l);
    }
  }

  // ---------------------------------------------------------------------------
  // Rows and index tuples.

  /** An index tuple for arrays of lengths `lens`. */
  predicate ValidIndex(lens: seq<nat>, idx: seq<nat>) {
    |idx| == |lens| && forall j :: 0 <= j < |idx| ==> idx[j] < lens[j]
  }

  /** The index tuple of row `k`: `k` in the mixed radix of `lens`, the last digit fastest. */
  function Unrank(lens: seq<nat>, k: nat): (r: seq<nat>)
    requires k < Prod(lens)
    ensures ValidIndex(lens, r)
  {
    if lens == [] then []
    else
      var n := |lens|;
      var l := lens[n - 1];
      assert l > 0;
      DivBound(k, Prod(lens[..n - 1]), l);
      assert k % l < l;
      Unrank(lens[..n - 1], k / l) + [k % l]
  }

  /** The row number of an index tuple. */
  function Rank(lens: seq<nat>, idx: seq<nat>): (r: nat)
    requires ValidIndex(lens, idx)
    ensures r < Prod(lens)
  {
    if lens == [] then 0
    else
      var n := |lens|;
      var q := Rank(lens[..n - 1], idx[..n - 1]);
      BlockRowBound(q, idx[n - 1], lens[n - 1], Prod(lens[..n - 1]));
      q * lens[n - 1] + idx[n - 1]
  }

  /** Every row number is the rank of its index tuple. */
  lemma {:induction false} RankUnrank(lens: seq<nat>, k: nat)
    requires k < Prod(lens)
    ensures Rank(lens, Unrank(lens, k)) == k
  {
    if lens != [] {
      var n := |lens|;
      var l := lens[n - 1];
      var u := Unrank(lens, k);
      DivBound(k, Prod(lens[..n - 1]), l);
      RankUnrank(lens[..n - 1], k / l);
      assert u[..n - 1] == Unrank(lens[..n - 1], k / l);
      DivMod(k, l);
    }
  }

  /** Every index tuple is the tuple of its rank. */
  lemma {:induction false} UnrankRank(lens: seq<nat>, idx: seq<nat>)
    requires ValidIndex(lens, idx)
    ensures Unrank(lens, Rank(lens, idx)) == idx
  {
    if lens != [] {
      var n := |lens|;
      var l := lens[n - 1];
      var q := Rank(lens[..n - 1], idx[..n - 1]);
      UnrankRank(lens[..n - 1], idx[..n - 1]);
      DivModOf(q, idx[n - 1], l);
      assert idx == idx[..n - 1] + [idx[n - 1]];
    }
  }

  /** `a` comes before `b` in lexicographic order. */
  predicate LexLess(a: seq<nat>, b: seq<nat>) {
    exists d :: 0 <= d < |a| && d < |b| && a[..d] == b[..d] && a[d] < b[d]
  }

  /** Row numbers and index tuples are in the same order: the last axis varies fastest. */
  lemma {:induction false} UnrankIncreasing(lens: seq<nat>, k: nat, k': nat)
    requires k < k' < Prod(lens)
    ensures LexLess(Unrank(lens, k), Unrank(lens, k'))
  {
    if lens != [] {
      var n := |lens|;
      var l := lens[n - 1];
      assert l > 0;
      var a, b := Unrank(lens, k), Unrank(lens, k');
      DivBound(k, Prod(lens[..n - 1]), l);
      DivBound(k', Prod(lens[..n - 1]), l);
      DivMono(k, k', l);
      DivMod(k, l);
      DivMod(k', l);
      var ia, ib := Unrank(lens[..n - 1], k / l), Unrank(lens[..n - 1], k' / l);
      assert a == ia + [k % l] && b == ib + [k' % l];
      if k / l < k' / l {
        UnrankIncreasing(lens[..n - 1], k / l, k' / l);
        var d :| 0 <= d < |ia| && d < |ib| && ia[..d] == ib[..d] && ia[d] < ib[d];
        assert a[..d] == ia[..d] && b[..d] == ib[..d];
        assert a[d] < b[d];
      } else {
        assert a[..n - 1] == ia && b[..n - 1] == ib;
        assert a[n - 1] < b[n - 1];
      }
    }
  }

  /** The values at an index tuple, one per array. */
  function Tuple(arrays: seq<seq<int>>, idx: seq<nat>): (r: seq<int>)
    requires ValidIndex(Lengths(arrays), idx)
  {
    seq(|arrays|, j requires 0 <= j < |arrays| => arrays[j][idx[j]])
  }

  /** Row `k` of the mesh holds the values at the `k`-th index tuple. */
  lemma {:induction false} MeshTuple(arrays: seq<seq<int>>, k: nat)
    requires k < |Mesh(arrays)|
    ensures Mesh(arrays)[k] == Tuple(arrays, Unrank(Lengths(arrays), k))
  {
    if arrays != [] {
      var n := |arrays|;
      var l := |arrays[n - 1]|;
      var init := arrays[..n - 1];
      MeshRow(arrays, k);
      var q, t := DivParts(k, l);
      MeshTuple(init, q);
      assert Lengths(arrays)[..n - 1] == Lengths(init);
      var u := Unrank(Lengths(arrays), k);
      assert u[..n - 1] == Unrank(Lengths(init), q);
      forall j | 0 <= j < n
        ensures Mesh(arrays)[k][j] == Tuple(arrays, u)[j]
      {
        if j < n - 1 {
          assert Mesh(arrays)[k][j] == Mesh(init)[q][j];
          assert Tuple(init, Unrank(Lengths(init), q))[j] == init[j][u[j]];
        }
      }
    }
  }

  /** `cartprod`: one row per index tuple, in lexicographic order of the tuples, row `k`
      holding the values at the `k`-th tuple; every tuple has a row. */
  lemma CartProdRows(arrays: seq<seq<int>>)
    requires |arrays| > 0
    ensures |CartProd(arrays)| == Prod(Lengths(arrays))
    ensures forall k :: 0 <= k < |CartProd(arrays)| ==>
      CartProd(arrays)[k] == Tuple(arrays, Unrank(Lengths(arrays), k))
    ensures forall k, k' :: 0 <= k < k' < |CartProd(arrays)| ==>
      LexLess(Unrank(Lengths(arrays), k), Unrank(Lengths(arrays), k'))
    ensures forall idx :: ValidIndex(Lengths(arrays), idx) ==>
      Rank(Lengths(arrays), idx) < |CartProd(arrays)| && Unrank(Lengths(arrays), Rank(Lengths(arrays), idx)) == idx
  {
    var lens := Lengths(arrays);
    forall k | 0 <= k < |CartProd(arrays)|
      ensures CartProd(arrays)[k] == Tuple(arrays, Unrank(lens, k))
    {
      MeshTuple(arrays, k);
    }
    forall k, k' | 0 <= k < k' < |CartProd(arrays)|
      ensures LexLess(Unrank(lens, k), Unrank(lens, k'))
    {
      UnrankIncreasing(lens, k, k');
    }
    forall idx | ValidIndex(lens, idx)
      ensures Rank(lens, idx) < |CartProd(arrays)| && Unrank(lens, Rank(lens, idx)) == idx
    {
      UnrankRank(lens, idx);
    }
  }

  // ---------------------------------------------------------------------------
  // The meander of `cartprodmeander` (lines 80-88).

  function Reverse<T>(s: seq<T>): (r: seq<T>)
    ensures |r| == |s| && forall t :: 0 <= t < |s| ==> r[t] == s[|s| - 1 - t]
  {
    if s == [] then [] else Reverse(s[1..]) + [s[0]]
  }

  lemma {:induction false} ReverseMultiset<T>(s: seq<T>)
    ensures multiset(Reverse(s)) == multiset(s)
  {
    if s != [] {
      ReverseMultiset(s[1..]);
      assert s == [s[0]] + s[1..];
    }
  }

  /** The blocks of the meander over the rows `init` of the slow axes: every second block,
      starting with the second, runs through `last` backwards. */
  function MeanderBlocks(init: seq<seq<int>>, last: seq<int>): (r: seq<seq<seq<int>>>)
    ensures |r| == |init| && BlocksOfLength(r, |last|)
  {
    seq(|init|, b requires 0 <= b < |init| => Block(init[b], if b % 2 == 1 then Reverse(last) else last))
  }

  /** The meandered mesh of `cartprodmeander`: the blocks of `l` rows sharing their values on
      the slow axes are those of the mesh, in order, with every second one reversed. */
  function MeanderMesh(arrays: seq<seq<int>>): (r: seq<seq<int>>)
    requires |arrays| > 0
    ensures |r| == |Mesh(arrays)| && forall k :: 0 <= k < |r| ==> |r[k]| == |arrays|
  {
    var bs := MeanderBlocks(Mesh(arrays[..|arrays| - 1]), arrays[|arrays| - 1]);
    ConcatLength(bs, |arrays[|arrays| - 1]|);
    ConcatRows(bs, |arrays|);
    MeshLength(arrays);
    Concat(bs)
  }

  /** The mesh row whose fast-axis value row `k` of the meander holds: in a reversed block, the
      row at the mirrored position of the same block. */
  function MeanderIndex(k: nat, l: nat): nat
    requires l > 0
  {
    var b := k / l;
    if b % 2 == 1 then b * l + (l - 1 - k % l) else k
  }

  /** The mirrored row lies in the same block, at the mirrored position in reversed blocks. */
  lemma MeanderIndexMod(k: nat, l: nat)
    requires l > 0
    ensures var m := MeanderIndex(k, l);
      m / l == k / l && m % l == if (k / l) % 2 == 1 then l - 1 - k % l else k % l
  {
    var b, t := DivParts(k, l);
    if b % 2 == 1 {
      DivModOf(b, l - 1 - t, l);
    }
  }

  lemma MeanderIndexBound(k: nat, l: nat, p: nat)
    requires l > 0 && k < p * l
    ensures MeanderIndex(k, l) < p * l
  {
    var b, t := DivParts(k, l);
    DivBound(k, p, l);
    if b % 2 == 1 {
      BlockRowBound(b, l - 1 - t, l, p);
    }
  }

  lemma MeshLength(arrays: seq<seq<int>>)
    requires |arrays| > 0
    ensures |Mesh(arrays)| == |Mesh(arrays[..|arrays| - 1])| * |arrays[|arrays| - 1]|
  {
    var n := |arrays|;
    var init := Mesh(arrays[..n - 1]);
    var blocks := MeshBlocks(init, arrays[n - 1]);
    ConcatLength(blocks, |arrays[n - 1]|);
    assert Mesh(arrays) == Concat(blocks);
  }

  /** Row `k` of the meander blocks keeps the slow-axis values of block `k / l` and takes the
      fast-axis value of its mirrored row. */
  lemma MeanderBlocksRow(init: seq<seq<int>>, last: seq<int>, k: nat)
    requires |last| > 0 && k < |init| * |last|
    ensures var l := |last|; var m := MeanderIndex(k, l);
      && |Concat(MeanderBlocks(init, last))| == |init| * l
      && k / l < |init| && m < |init| * l && m / l == k / l
      && Concat(MeanderBlocks(init, last))[k] == init[k / l] + [last[m % l]]
  {
    var l := |last|;
    var bs := MeanderBlocks(init, last);
    var b, t := ConcatBlockAt(bs, l, k);
    MeanderIndexMod(k, l);
    MeanderIndexBound(k, l, |init|);
    var x := if b % 2 == 1 then Reverse(last) else last;
    assert bs[b][t] == init[b] + [x[t]];
  }

  /** Row `k` of the meander is row `MeanderIndex(k, l)` of the mesh: on every axis but the
      last it also agrees with row `k` of the mesh. */
  lemma MeanderRow(arrays: seq<seq<int>>, k: nat)
    requires |arrays| > 0 && k < |Mesh(arrays)|
    ensures var n := |arrays|; var l := |arrays[n - 1]|;
      && l > 0 && |MeanderMesh(arrays)| == |Mesh(arrays)| && MeanderIndex(k, l) < |Mesh(arrays)|
      && MeanderMesh(arrays)[k] == Mesh(arrays)[MeanderIndex(k, l)]
      && MeanderMesh(arrays)[k][..n - 1] == Mesh(arrays)[k][..n - 1]
      && MeanderMesh(arrays)[k][n - 1] == arrays[n - 1][MeanderIndex(k, l) % l]
  {
    var n := |arrays|;
    var l := |arrays[n - 1]|;
    var init := Mesh(arrays[..n - 1]);
    MeshLength(arrays);
    MeshRow(arrays, k);
    MeanderBlocksRow(init, arrays[n - 1], k);
    MeshRow(arrays, MeanderIndex(k, l));
  }

  /** Mirroring inside a block, done twice, is the identity. */
  lemma MeanderIndexInvolution(k: nat, l: nat, p: nat)
    requires l > 0 && k < p * l
    ensures MeanderIndex(k, l) < p * l && MeanderIndex(MeanderIndex(k, l), l) == k
  {
    var b, t := DivParts(k, l);
    MeanderIndexBound(k, l, p);
    MeanderIndexMod(k, l);
    var m := MeanderIndex(k, l);
    if b % 2 == 1 {
      var b', t' := DivParts(m, l);
      assert MeanderIndex(m, l) == b * l + t;
    }
  }

  lemma {:induction false} ConcatMultiset(xs: seq<seq<seq<int>>>, ys: seq<seq<seq<int>>>)
    requires |xs| == |ys| && forall b :: 0 <= b < |xs| ==> multiset(xs[b]) == multiset(ys[b])
    ensures multiset(Concat(xs)) == multiset(Concat(ys))
  {
    if xs != [] {
      ConcatMultiset(xs[1..], ys[1..]);
    }
  }

  /** The rows of `cartprodmeander` are those of `cartprod`, each as often. */
  lemma MeanderPermutation(arrays: seq<seq<int>>)
    requires |arrays| > 0
    ensures multiset(MeanderMesh(arrays)) == multiset(CartProd(arrays))
  {
    var n := |arrays|;
    var last := arrays[n - 1];
    var init := Mesh(arrays[..n - 1]);
    var xs := MeanderBlocks(init, last);
    var ys := MeshBlocks(init, last);
    forall b | 0 <= b < |xs|
      ensures multiset(xs[b]) == multiset(ys[b])
    {
      if b % 2 == 1 {
        assert xs[b] == Reverse(ys[b]);
        ReverseMultiset(ys[b]);
      }
    }
    ConcatMultiset(xs, ys);
    assert CartProd(arrays) == Concat(ys);
  }

  /** Row `k + 1` of the meander takes its fast-axis value from the neighbour of row `k`'s:
      one further along the last array in a forward block, one back in a reversed block, and
      the same one where two blocks meet, so the last axis never jumps. */
  lemma MeanderStep(k: nat, l: nat)
    requires l > 0
    ensures var f, g := MeanderIndex(k, l) % l, MeanderIndex(k + 1, l) % l;
      if (k + 1) % l == 0 then g == f
      else if (k / l) % 2 == 0 then g == f + 1
      else g + 1 == f
  {
    MeanderIndexMod(k, l);
    MeanderIndexMod(k + 1, l);
    DivSucc(k, l);
  }

  /** The mesh row whose fast-axis value row `k` holds after the first `i` passes of the
      loop in `cartprodmeander`: pass `j` reverses block `2 * j + 1`. */
  function PartialMeanderIndex(k: nat, l: nat, i: nat): nat
    requires l > 0
  {
    var b := k / l;
    if b % 2 == 1 && b < 2 * i then b * l + (l - 1 - k % l) else k
  }

  /** Pass `i` changes the partial meander only inside block `2 * i + 1`, which it mirrors. */
  lemma PartialMeanderStep(r: nat, l: nat, i: nat)
    requires l > 0
    ensures var lo := (2 * i + 1) * l;
      if lo <= r < lo + l then PartialMeanderIndex(r, l, i) == r && PartialMeanderIndex(r, l, i + 1) == 2 * lo + l - 1 - r
      else PartialMeanderIndex(r, l, i + 1) == PartialMeanderIndex(r, l, i)
  {
    var lo := (2 * i + 1) * l;
    var b, t := DivParts(r, l);
    if lo <= r < lo + l {
      DivModOf(2 * i + 1, r - lo, l);
      assert b == 2 * i + 1 && t == r - lo;
      assert PartialMeanderIndex(r, l, i + 1) == b * l + (l - 1 - t);
    } else {
      assert b == 2 * i + 1 ==> r == lo + t;
      assert (b % 2 == 1 && b < 2 * i) == (b % 2 == 1 && b < 2 * (i + 1));
    }
  }

  lemma PartialMeanderNone(r: nat, l: nat)
    requires l > 0
    ensures PartialMeanderIndex(r, l, 0) == r
  {
  }

  /** After `p / 2` passes over `p` blocks every odd block is reversed. */
  lemma PartialMeanderDone(r: nat, l: nat, p: nat)
    requires l > 0 && r < p * l
    ensures PartialMeanderIndex(r, l, p / 2) == MeanderIndex(r, l)
  {
    DivBound(r, p, l);
  }

  /** Entry `r` of `col` once its rows `lo` to `lo + l - 1` are put in reverse order. */
  function Mirrored(col: seq<int>, lo: nat, l: nat, r: nat): int
    requires lo + l <= |col| && r < |col|
  {
    if lo <= r < lo + l then col[2 * lo + l - 1 - r] else col[r]
  }

  /** `x[lo:lo+l] = x[lo:lo+l][::-1]` on column `col`; numpy copies the overlapping
      right-hand side first. */
  method ReverseSegment(a: array2<int>, col: nat, lo: nat, l: nat)
    requires col < a.Length1 && lo + l <= a.Length0
    modifies a
    ensures forall r, c :: 0 <= r < a.Length0 && 0 <= c < a.Length1 && c != col ==> a[r, c] == old(a[r, c])
    ensures forall r :: 0 <= r < a.Length0 ==>
      a[r, col] == if lo <= r < lo + l then old(a[2 * lo + l - 1 - r, col]) else old(a[r, col])
  {
    var seg := seq(l, t requires 0 <= t < l reads a => a[lo + t, col]);
    for t := 0 to l
      invariant forall r, c :: 0 <= r < a.Length0 && 0 <= c < a.Length1 ==>
        a[r, c] == if c == col && lo <= r < lo + t then seg[l - 1 - (r - lo)] else old(a[r, c])
    {
      a[lo + t, col] := seg[l - 1 - t];
    }
  }

  /** Every column but the last holds the mesh. */
  ghost predicate SlowColumns(a: array2<int>, mesh: seq<seq<int>>)
    reads a
  {
    forall r, c :: 0 <= r < a.Length0 && 0 <= c < a.Length1 - 1 ==> r < |mesh| && c < |mesh[r]| && a[r, c] == mesh[r][c]
  }

  /** The last column of `a`. */
  ghost function LastColumn(a: array2<int>): (col: seq<int>)
    reads a
    requires a.Length1 > 0
    ensures |col| == a.Length0 && forall r :: 0 <= r < a.Length0 ==> col[r] == a[r, a.Length1 - 1]
  {
    seq(a.Length0, r requires 0 <= r < a.Length0 reads a => a[r, a.Length1 - 1])
  }

  /** `col` is the last column (number `w - 1`) of the mesh after `i` passes of the meander loop. */
  ghost predicate FastColumnOf(col: seq<int>, mesh: seq<seq<int>>, w: nat, l: nat, i: nat)
    requires l > 0
  {
    w > 0 &&
    forall r :: 0 <= r < |col| ==>
      PartialMeanderIndex(r, l, i) < |mesh| && w == |mesh[PartialMeanderIndex(r, l, i)]| &&
      col[r] == mesh[PartialMeanderIndex(r, l, i)][w - 1]
  }

  ghost predicate FastColumn(a: array2<int>, mesh: seq<seq<int>>, l: nat, i: nat)
    reads a
    requires l > 0
  {
    a.Length1 > 0 && FastColumnOf(LastColumn(a), mesh, a.Length1, l, i)
  }

  /** Mirroring block `2 * i + 1` of the last column takes it from `i` passes to `i + 1`. */
  lemma FastColumnStep(c0: seq<int>, c1: seq<int>, mesh: seq<seq<int>>, w: nat, l: nat, i: nat)
    requires l > 0 && (2 * i + 2) * l <= |c0| == |c1| && FastColumnOf(c0, mesh, w, l, i)
    requires forall r :: 0 <= r < |c1| ==> c1[r] == Mirrored(c0, (2 * i + 1) * l, l, r)
    ensures FastColumnOf(c1, mesh, w, l, i + 1)
  {
    var lo := (2 * i + 1) * l;
    ghost var j := i + 1;
    forall r | 0 <= r < |c1|
      ensures PartialMeanderIndex(r, l, j) < |mesh| && w == |mesh[PartialMeanderIndex(r, l, j)]| &&
        c1[r] == mesh[PartialMeanderIndex(r, l, j)][w - 1]
    {
      PartialMeanderStep(r, l, i);
      if lo <= r < lo + l {
        PartialMeanderStep(2 * lo + l - 1 - r, l, i);
      }
    }
  }

  /** One pass of the loop in `cartprodmeander`: block `2 * i + 1` of the last column reversed. */
  method MeanderPass(a: array2<int>, ghost mesh: seq<seq<int>>, l: nat, i: nat)
    requires l > 0 && (2 * i + 2) * l <= a.Length0 && SlowColumns(a, mesh) && FastColumn(a, mesh, l, i)
    modifies a
    ensures SlowColumns(a, mesh) && FastColumn(a, mesh, l, i + 1)
  {
    var lo := (2 * i + 1) * l;
    ghost var c0 := LastColumn(a);
    ReverseSegment(a, a.Length1 - 1, lo, l);
    assert lo + l == (2 * i + 2) * l;
    forall r, c | 0 <= r < a.Length0 && 0 <= c < a.Length1 - 1
      ensures r < |mesh| && c < |mesh[r]| && a[r, c] == mesh[r][c]
    {
      assert old(a[r, c]) == a[r, c] && old(r < |mesh| && c < |mesh[r]| && a[r, c] == mesh[r][c]);
    }
    FastColumnStep(c0, LastColumn(a), mesh, a.Length1, l, i);
  }

  /** `cartprodmeander(*arrays)`: the mesh as a matrix, whose last column is then reversed
      in every second block of `l` rows; numpy divides by zero when the last array is empty. */
  method CartProdMeander(arrays: seq<seq<int>>) returns (fullmesh: array2<int>)
    requires |arrays| > 0 && |arrays[|arrays| - 1]| > 0
    ensures fresh(fullmesh)
    ensures fullmesh.Length0 == |MeanderMesh(arrays)| && fullmesh.Length1 == |arrays|
    ensures forall r, c :: 0 <= r < fullmesh.Length0 && 0 <= c < fullmesh.Length1 ==>
      fullmesh[r, c] == MeanderMesh(arrays)[r][c]
  {
    var n := |arrays|;
    var mesh := CartProd(arrays);
    var R := |mesh|;
    fullmesh := new int[R, n]((r, c) requires 0 <= r < R && 0 <= c < n => mesh[r][c]);
    var l := |arrays[n - 1]|;
    ghost var p := |Mesh(arrays[..n - 1])|;
    MeshLength(arrays);
    DivModOf(p, 0, l);
    var s := R / l / 2;
    forall r | 0 <= r < R
      ensures PartialMeanderIndex(r, l, 0) == r
    {
      PartialMeanderNone(r, l);
    }
    for i := 0 to s
      invariant SlowColumns(fullmesh, mesh) && FastColumn(fullmesh, mesh, l, i)
    {
      MulLe(2 * i + 2, p, l);
      MeanderPass(fullmesh, mesh, l, i);
    }
    forall r, c | 0 <= r < R && 0 <= c < n
      ensures fullmesh[r, c] == MeanderMesh(arrays)[r][c]
    {
      PartialMeanderDone(r, l, p);
      MeanderRow(arrays, r);
      if c < n - 1 {
        assert MeanderMesh(arrays)[r][..n - 1][c] == mesh[r][..n - 1][c];
      }
    }
  }
}
