/** The setting of setpoints in `run_measurement` of doNd.py: the change mask (lines 130-133)
    and the order in which the set parameters are set at each point (lines 183-197).
    Setpoints are integers; `np.isclose(x, 0, atol=0)` is a test for exactly zero. */
module SetOrder {
  import opened Wrappers
  import opened Sequences

  /** Axis `j` has to be set at point `i`: at the first point every axis is set, later only
      those whose value differs from the previous point's. */
  predicate NeedsSet(sp: seq<seq<int>>, w: nat, i: nat, j: nat)
    requires Rectangular(sp, w) && i < |sp| && j < w
  {
    i == 0 || sp[i][j] != sp[i - 1][j]
  }

  // ---------------------------------------------------------------------------
  // The change mask (lines 130-133).

  /** `setpoints - np.roll(setpoints, 1, axis=0)`: each point minus the one before it, the
      first minus the last. */
  function RollDiff(sp: seq<seq<int>>, w: nat): (r: seq<seq<int>>)
    requires Rectangular(sp, w)
    ensures |r| == |sp| && Rectangular(r, w)
  {
    var n := |sp|;
    seq(n, i requires 0 <= i < n => var prev := if i == 0 then n - 1 else i - 1; seq(w, j requires 0 <= j < w => sp[i][j] - sp[prev][j]))
  }

  /** After the first point, a difference is zero exactly when the axis keeps its value; the
      first row pairs the first point with the last. */
  lemma RollDiffZero(sp: seq<seq<int>>, w: nat)
    requires Rectangular(sp, w)
    ensures forall i, j :: 0 < i < |sp| && 0 <= j < w ==> (RollDiff(sp, w)[i][j] == 0 <==> sp[i][j] == sp[i - 1][j])
    ensures forall j :: |sp| > 0 && 0 <= j < w ==> RollDiff(sp, w)[0][j] == sp[0][j] - sp[|sp| - 1][j]
  {
  }

  /** The mask holds the change of each axis at each point. */
  ghost predicate MaskOf(change: array2<int>, sp: seq<seq<int>>, w: nat)
    reads change
    requires Rectangular(sp, w)
  {
    change.Length0 == |sp| && change.Length1 == w &&
    forall i, j :: 0 <= i < |sp| && 0 <= j < w ==> (change[i, j] != 0 <==> NeedsSet(sp, w, i, j))
  }

  /** `changesetpoints`: the differences to the previous point, with the first row forced to 1
      so that every axis is set at the first point; the `[0, :]` assignment raises an
      IndexError when there are no points. */
  method ChangeSetpoints(sp: seq<seq<int>>, w: nat) returns (change: array2<int>)
    requires |sp| > 0 && Rectangular(sp, w)
    ensures fresh(change) && change.Length0 == |sp| && change.Length1 == w
    ensures forall i, j :: 0 <= i < |sp| && 0 <= j < w ==> change[i, j] == if i == 0 then 1 else RollDiff(sp, w)[i][j]
    ensures MaskOf(change, sp, w)
  {
    var d := RollDiff(sp, w);
    var n := |sp|;
    change := new int[n, w]((i, j) requires 0 <= i < n && 0 <= j < w => d[i][j]);
    for j := 0 to w
      invariant forall i, c :: 0 <= i < n && 0 <= c < w ==> change[i, c] == if i == 0 && c < j then 1 else d[i][c]
    {
      change[0, j] := 1;
    }
    MaskFromDiff(change, sp, w);
  }

  /** The forced first row and the differences after it mark exactly the axes to set. */
  lemma MaskFromDiff(change: array2<int>, sp: seq<seq<int>>, w: nat)
    requires Rectangular(sp, w) && change.Length0 == |sp| && change.Length1 == w
    requires forall i, j :: 0 <= i < |sp| && 0 <= j < w ==> change[i, j] == if i == 0 then 1 else RollDiff(sp, w)[i][j]
    ensures MaskOf(change, sp, w)
  {
    RollDiffZero(sp, w);
  }

  // ---------------------------------------------------------------------------
  // The order of setting (lines 183-197).

  /** `param_set[axis].set(value)`. */
  datatype SetCall = SetCall(axis: nat, value: int)

  /** `dimlist`: slow to fast axis at the first point, fast to slow after it. */
  function DimList(w: nat, i: nat): (r: seq<nat>)
    ensures |r| == w && forall t :: 0 <= t < w ==> r[t] == if i == 0 then t else w - 1 - t
  {
    seq(w, t requires 0 <= t < w => if i == 0 then t else w - 1 - t)
  }

  /** The set calls for the axes `dims` at point `i`, in order, skipping the unchanged ones. */
  function CallsFor(sp: seq<seq<int>>, w: nat, i: nat, dims: seq<nat>): seq<SetCall>
    requires Rectangular(sp, w) && i < |sp| && forall t :: 0 <= t < |dims| ==> dims[t] < w
  {
    if dims == [] then []
    else
      var j := dims[|dims| - 1];
      CallsFor(sp, w, i, dims[..|dims| - 1]) + (if NeedsSet(sp, w, i, j) then [SetCall(j, sp[i][j])] else [])
  }

  /** The set calls made at point `i`. */
  function PointCalls(sp: seq<seq<int>>, w: nat, i: nat): seq<SetCall>
    requires Rectangular(sp, w) && i < |sp|
  {
    CallsFor(sp, w, i, DimList(w, i))
  }

  /** The set calls made at the first `k` points. */
  function Schedule(sp: seq<seq<int>>, w: nat, k: nat): seq<SetCall>
    requires Rectangular(sp, w) && k <= |sp|
  {
    if k == 0 then [] else Schedule(sp, w, k - 1) + PointCalls(sp, w, k - 1)
  }

  /** The inner loop at point `i`: set what the mask marks, in the order of `dimlist`, and
      record every axis's setpoint in `resultlist`, whether it was set or not. */
  method SetPoint(sp: seq<seq<int>>, w: nat, change: array2<int>, i: nat)
    returns (calls: seq<SetCall>, resultlist: array<Option<int>>)
    requires Rectangular(sp, w) && i < |sp| && MaskOf(change, sp, w)
    ensures fresh(resultlist) && calls == PointCalls(sp, w, i)
    ensures resultlist.Length == w && forall j :: 0 <= j < w ==> resultlist[j] == Some(sp[i][j])
  {
    resultlist := new Option<int>[w](_ => None);
    calls := [];
    ghost var dims := DimList(w, i);
    for t := 0 to w
      invariant calls == CallsFor(sp, w, i, dims[..t])
      invariant forall j :: 0 <= j < w ==> resultlist[j] == if (i == 0 && j < t) || (i > 0 && j >= w - t) then Some(sp[i][j]) else None
    {
      var j := if i == 0 then t else w - 1 - t;
      assert dims[..t + 1][..t] == dims[..t];
      if change[i, j] != 0 {
        calls := calls + [SetCall(j, sp[i][j])];
      }
      resultlist[j] := Some(sp[i][j]);
    }
    assert dims[..w] == dims;
  }

  /** `results[i]` is the `resultlist` of point `i`: every axis's setpoint there. */
  predicate Recorded(results: seq<seq<Option<int>>>, sp: seq<seq<int>>, w: nat)
    requires Rectangular(sp, w) && |results| <= |sp|
  {
    forall i :: 0 <= i < |results| ==> |results[i]| == w && forall j :: 0 <= j < w ==> results[i][j] == Some(sp[i][j])
  }

  /** The main loop over the points, reduced to its set calls and the recorded setpoints. */
  method SetAll(sp: seq<seq<int>>, w: nat, change: array2<int>)
    returns (calls: seq<SetCall>, results: seq<seq<Option<int>>>)
    requires Rectangular(sp, w) && MaskOf(change, sp, w)
    ensures calls == Schedule(sp, w, |sp|)
    ensures |results| == |sp| && Recorded(results, sp, w)
  {
    calls := [];
    results := [];
    for i := 0 to |sp|
      invariant calls == Schedule(sp, w, i)
      invariant |results| == i && Recorded(results, sp, w)
    {
      var pointCalls, resultlist := SetPoint(sp, w, change, i);
      calls := calls + pointCalls;
      results := results + [resultlist[..]];
    }
  }

  // ---------------------------------------------------------------------------
  // What the calls achieve.

  /** The calls at a point are exactly the changed axes, each with its new value. */
  lemma {:induction false} CallsForMembers(sp: seq<seq<int>>, w: nat, i: nat, dims: seq<nat>, c: SetCall)
    requires Rectangular(sp, w) && i < |sp| && forall t :: 0 <= t < |dims| ==> dims[t] < w
    ensures c in CallsFor(sp, w, i, dims) <==>
      c.axis in dims && c.axis < w && NeedsSet(sp, w, i, c.axis) && c.value == sp[i][c.axis]
  {
    if dims != [] {
      var init := dims[..|dims| - 1];
      CallsForMembers(sp, w, i, init, c);
      assert dims == init + [dims[|dims| - 1]];
    }
  }

  lemma PointCallsMembers(sp: seq<seq<int>>, w: nat, i: nat, c: SetCall)
    requires Rectangular(sp, w) && i < |sp|
    ensures c in PointCalls(sp, w, i) <==> c.axis < w && NeedsSet(sp, w, i, c.axis) && c.value == sp[i][c.axis]
  {
    CallsForMembers(sp, w, i, DimList(w, i), c);
    if c.axis < w {
      assert DimList(w, i)[if i == 0 then c.axis else w - 1 - c.axis] == c.axis;
    }
  }

  /** The axes of `calls` strictly increase, or strictly decrease. */
  predicate AxesOrdered(calls: seq<SetCall>, ascending: bool) {
    forall s, t :: 0 <= s < t < |calls| ==> if ascending then calls[s].axis < calls[t].axis else calls[s].axis > calls[t].axis
  }

  /** At the first point the axes are set slow to fast, at every later point fast to slow. */
  lemma PointCallsOrder(sp: seq<seq<int>>, w: nat, i: nat)
    requires Rectangular(sp, w) && i < |sp|
    ensures AxesOrdered(PointCalls(sp, w, i), i == 0)
  {
    CallsForOrder(sp, w, i, DimList(w, i));
  }

  lemma {:induction false} CallsForOrder(sp: seq<seq<int>>, w: nat, i: nat, dims: seq<nat>)
    requires Rectangular(sp, w) && i < |sp| && forall t :: 0 <= t < |dims| ==> dims[t] < w
    requires forall s, t :: 0 <= s < t < |dims| ==> if i == 0 then dims[s] < dims[t] else dims[s] > dims[t]
    ensures AxesOrdered(CallsFor(sp, w, i, dims), i == 0)
  {
    if dims != [] {
      var init := dims[..|dims| - 1];
      var j := dims[|dims| - 1];
      CallsForOrder(sp, w, i, init);
      var a0 := CallsFor(sp, w, i, init);
      forall c | c in a0
        ensures if i == 0 then c.axis < j else c.axis > j
      {
        CallsForMembers(sp, w, i, init, c);
        var s :| 0 <= s < |init| && init[s] == c.axis;
        assert init[s] == dims[s];
      }
      var a := CallsFor(sp, w, i, dims);
      forall s, t | 0 <= s < t < |a|
        ensures if i == 0 then a[s].axis < a[t].axis else a[s].axis > a[t].axis
      {
        if t >= |a0| {
          assert a[s] == a0[s] && a0[s] in a0;
        } else {
          assert a[s] == a0[s] && a[t] == a0[t];
        }
      }
    }
  }

  /** The instruments' values, by axis, after a sequence of set calls. */
  function Apply(state: map<nat, int>, calls: seq<SetCall>): map<nat, int>
    decreases |calls|
  {
    if calls == [] then state else Apply(state[calls[0].axis := calls[0].value], calls[1..])
  }

  lemma {:induction false} ApplyAppend(state: map<nat, int>, a: seq<SetCall>, b: seq<SetCall>)
    ensures Apply(state, a + b) == Apply(Apply(state, a), b)
    decreases |a|
  {
    if a != [] {
      assert (a + b)[0] == a[0] && (a + b)[1..] == a[1..] + b;
      var s1 := state[a[0].axis := a[0].value];
      ApplyAppend(s1, a[1..], b);
      assert Apply(state, a + b) == Apply(s1, (a + b)[1..]);
    } else {
      assert a + b == b;
    }
  }

  /** An axis no call mentions keeps its value; an axis that every call sets to `v` ends at `v`. */
  lemma {:induction false} ApplyAxis(state: map<nat, int>, calls: seq<SetCall>, j: nat, v: int)
    requires forall c :: c in calls && c.axis == j ==> c.value == v
    ensures SetCall(j, v) in calls ==> j in Apply(state, calls) && Apply(state, calls)[j] == v
    ensures SetCall(j, v) !in calls ==>
      (j in Apply(state, calls) <==> j in state) && (j in state ==> Apply(state, calls)[j] == state[j])
    decreases |calls|
  {
    if calls != [] {
      var s1 := state[calls[0].axis := calls[0].value];
      ApplyAxis(s1, calls[1..], j, v);
      assert calls == [calls[0]] + calls[1..];
      if calls[0].axis == j {
        assert calls[0] == SetCall(j, v);
        assert j in s1 && s1[j] == v;
      }
    }
  }

  /** After the calls at the first `k` points every instrument holds its setpoint at point
      `k - 1`, whatever it held before: skipping unchanged axes loses nothing. */
  lemma {:induction false} ScheduleReaches(sp: seq<seq<int>>, w: nat, k: nat, state: map<nat, int>)
    requires Rectangular(sp, w) && 0 < k <= |sp|
    ensures forall j :: 0 <= j < w ==> j in Apply(state, Schedule(sp, w, k)) && Apply(state, Schedule(sp, w, k))[j] == sp[k - 1][j]
  {
    var i: nat := k - 1;
    var before := Apply(state, Schedule(sp, w, i));
    var calls := PointCalls(sp, w, i);
    ApplyAppend(state, Schedule(sp, w, i), calls);
    if i > 0 {
      ScheduleReaches(sp, w, i, state);
    }
    forall j | 0 <= j < w
      ensures j in Apply(before, calls) && Apply(before, calls)[j] == sp[i][j]
    {
      forall c | c in calls && c.axis == j
        ensures c.value == sp[i][j]
      {
        PointCallsMembers(sp, w, i, c);
      }
      ApplyAxis(before, calls, j, sp[i][j]);
      PointCallsMembers(sp, w, i, SetCall(j, sp[i][j]));
    }
  }
}
