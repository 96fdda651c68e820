/** Dependency grouping of one run's parameters (db_extraction.py, lines 83-109).
    A measured parameter (non-empty `depends_on`) joins the group of all
    parameters whose `depends_on` string is exactly equal to its own; each group
    is stored under the counter `n`, which advances for EVERY measured parameter,
    so group keys are positions in the list of measured parameters. */
module Grouping {
  import opened Wrappers
  import opened Sequences
  import opened Text

  /** One parameter of a run as the dataset reports it. */
  datatype ParamSpec = ParamSpec(name: string, labelText: string, unit: string, dependsOn: string)

  /** `result_dict` (key -> indices of measured parameters) and `depend_dict` (key -> indices of set axes). */
  datatype Grouping = Grouping(resultDict: map<nat, seq<nat>>, dependDict: map<nat, seq<nat>>)

  /** A parameter whose `depends_on` is non-empty (truthy) is measured. */
  predicate IsMeasured(p: ParamSpec) {
    p.dependsOn != ""
  }

  /** `param_names`. */
  function Names(ps: seq<ParamSpec>): (r: seq<string>)
    ensures |r| == |ps| && forall k :: 0 <= k < |ps| ==> r[k] == ps[k].name
  {
    seq(|ps|, k requires 0 <= k < |ps| => ps[k].name)
  }

  /** The indices of the parameters that `keep` selects, in declared order: the shape of both
      list comprehensions over `range(len(param_names))`. */
  function IndicesWhere(ps: seq<ParamSpec>, keep: ParamSpec -> bool): seq<nat>
    decreases |ps|
  {
    if ps == [] then []
    else IndicesWhere(ps[..|ps| - 1], keep) + (if keep(ps[|ps| - 1]) then [|ps| - 1] else [])
  }

  /** The selected indices are increasing. */
  lemma {:induction false} IndicesWhereIncreasing(ps: seq<ParamSpec>, keep: ParamSpec -> bool)
    ensures StrictlyIncreasing(IndicesWhere(ps, keep))
    ensures forall i :: 0 <= i < |IndicesWhere(ps, keep)| ==> IndicesWhere(ps, keep)[i] < |ps|
    decreases |ps|
  {
    if ps != [] {
      IndicesWhereIncreasing(ps[..|ps| - 1], keep);
      if keep(ps[|ps| - 1]) {
        IncreasingSnoc(IndicesWhere(ps[..|ps| - 1], keep), |ps| - 1);
      }
    }
  }

  /** An index is selected exactly when it is in range and `keep` holds of its parameter. */
  lemma {:induction false} IndicesWhereMembers(ps: seq<ParamSpec>, keep: ParamSpec -> bool)
    ensures forall k :: k in IndicesWhere(ps, keep) <==> 0 <= k < |ps| && keep(ps[k])
    decreases |ps|
  {
    if ps != [] {
      var init := ps[..|ps| - 1];
      IndicesWhereMembers(init, keep);
      assert forall k :: 0 <= k < |init| ==> init[k] == ps[k];
    }
  }

  /** `meas_params`: the indices of the measured parameters, in declared order. */
  function Measured(ps: seq<ParamSpec>): seq<nat> {
    IndicesWhere(ps, IsMeasured)
  }

  /** `meas_params` lists, in increasing order, exactly the indices of the measured parameters. */
  lemma MeasuredSpec(ps: seq<ParamSpec>)
    ensures StrictlyIncreasing(Measured(ps))
    ensures forall k :: k in Measured(ps) <==> 0 <= k < |ps| && IsMeasured(ps[k])
  {
    IndicesWhereIncreasing(ps, IsMeasured);
    IndicesWhereMembers(ps, IsMeasured);
  }

  /** `params_with_equal_depends`: every index whose `depends` entry equals `d`.
      Set axes hold `[]` in `depends`, which never equals a string. */
  function EqualDepends(ps: seq<ParamSpec>, d: string): seq<nat> {
    IndicesWhere(ps, p => IsMeasured(p) && p.dependsOn == d)
  }

  /** `params_with_equal_depends` lists, in increasing order, exactly the measured parameters
      whose `depends_on` string is `d`. */
  lemma EqualDependsSpec(ps: seq<ParamSpec>, d: string)
    ensures StrictlyIncreasing(EqualDepends(ps, d))
    ensures forall k :: k in EqualDepends(ps, d) <==> 0 <= k < |ps| && IsMeasured(ps[k]) && ps[k].dependsOn == d
  {
    IndicesWhereIncreasing(ps, p => IsMeasured(p) && p.dependsOn == d);
    IndicesWhereMembers(ps, p => IsMeasured(p) && p.dependsOn == d);
  }

  /** `depsind`: `param_names.index(d)` for each name in order; `Failure(d)` for the
      first name that `index` cannot find (Python raises `ValueError`). */
  function AxisIndices(names: seq<string>, deps: seq<string>): Result<seq<nat>, string>
    decreases |deps|
  {
    if deps == [] then Success([])
    else
      match AxisIndices(names, deps[..|deps| - 1])
      case Failure(e) => Failure(e)
      case Success(prefix) =>
        match IndexOf(names, deps[|deps| - 1])
        case None => Failure(deps[|deps| - 1])
        case Some(k) => Success(prefix + [k])
  }

  /** Resolution succeeds exactly when every name is known; it then yields each name's first
      index, in split order, and otherwise reports the first unknown name. */
  lemma {:induction false} AxisIndicesSpec(names: seq<string>, deps: seq<string>)
    ensures AxisIndices(names, deps).Success? <==> forall o :: 0 <= o < |deps| ==> deps[o] in names
    ensures AxisIndices(names, deps).Success? ==>
      var r := AxisIndices(names, deps).value;
      |r| == |deps| && forall o :: 0 <= o < |deps| ==> IndexOf(names, deps[o]) == Some(r[o])
    ensures AxisIndices(names, deps).Failure? ==>
      FirstUnknown(names, deps, AxisIndices(names, deps).error)
    decreases |deps|
  {
    if deps != [] {
      var init := deps[..|deps| - 1];
      AxisIndicesSpec(names, init);
      assert forall o :: 0 <= o < |init| ==> deps[o] == init[o];
      if AxisIndices(names, init).Failure? {
        var o :| 0 <= o < |init| && init[o] == AxisIndices(names, init).error && init[o] !in names &&
          forall o' :: 0 <= o' < o ==> init[o'] in names;
        assert deps[o] == init[o];
      }
    }
  }

  /** `e` is the first name of `deps` that `names` does not contain. */
  predicate FirstUnknown(names: seq<string>, deps: seq<string>, e: string) {
    exists o :: 0 <= o < |deps| && deps[o] == e && deps[o] !in names &&
      forall o' :: 0 <= o' < o ==> deps[o'] in names
  }

  // ---------------------------------------------------------------------------
  // The loop at line 98, over the sequence `ds` of the measured parameters' `depends_on`
  // strings. `equalOf(d)` is `params_with_equal_depends` for string `d` and `axesOf(d)` its
  // `depsind`; both depend on the string alone.

  /** Position `p` holds the first occurrence of its string. */
  predicate StartsGroup(ds: seq<string>, p: nat)
    requires p < |ds|
  {
    forall q :: 0 <= q < p ==> ds[q] != ds[p]
  }

  /** One iteration of the loop, for position `p`. */
  function GroupStep(ds: seq<string>, equalOf: string -> seq<nat>, axesOf: string -> Result<seq<nat>, string>,
                     p: nat, g: Grouping): Result<Grouping, string>
    requires p < |ds|
  {
    var equal := equalOf(ds[p]);
    if equal in g.resultDict.Values then Success(g)
    else
      match axesOf(ds[p])
      case Failure(name) => Failure(name)
      case Success(axes) => Success(Grouping(g.resultDict[p := equal], g.dependDict[p := axes]))
  }

  /** The two dictionaries after the first `p` iterations, or the name that aborted them. */
  function GroupsUpTo(ds: seq<string>, equalOf: string -> seq<nat>, axesOf: string -> Result<seq<nat>, string>,
                      p: nat): Result<Grouping, string>
    requires p <= |ds|
  {
    if p == 0 then Success(Grouping(map[], map[]))
    else
      match GroupsUpTo(ds, equalOf, axesOf, p - 1)
      case Failure(e) => Failure(e)
      case Success(g) => GroupStep(ds, equalOf, axesOf, p - 1, g)
  }

  /** Different strings of `ds` have different `params_with_equal_depends` lists. */
  ghost predicate Separates(ds: seq<string>, equalOf: string -> seq<nat>) {
    forall q, p :: 0 <= q < |ds| && 0 <= p < |ds| && equalOf(ds[q]) == equalOf(ds[p]) ==> ds[q] == ds[p]
  }

  /** `g` is exactly what the first `p` iterations build: one entry per position that starts a
      group, holding that string's parameters and axes. */
  ghost predicate Describes(ds: seq<string>, equalOf: string -> seq<nat>, axesOf: string -> Result<seq<nat>, string>,
                            p: nat, g: Grouping)
    requires p <= |ds|
  {
    && (forall q: nat :: q in g.resultDict <==> q < p && StartsGroup(ds, q))
    && g.dependDict.Keys == g.resultDict.Keys
    && (forall q :: q in g.resultDict ==> q < p && g.resultDict[q] == equalOf(ds[q]))
    && (forall q :: q in g.dependDict ==> q < p && axesOf(ds[q]) == Success(g.dependDict[q]))
  }

  /** Every group started before position `p` has resolvable axes. */
  ghost predicate ResolvesUpTo(ds: seq<string>, axesOf: string -> Result<seq<nat>, string>, p: nat)
    requires p <= |ds|
  {
    forall q: nat :: q < p && StartsGroup(ds, q) ==> axesOf(ds[q]).Success?
  }

  /** `e` is the unknown name of the first group before `p` whose axes do not resolve. */
  ghost predicate FirstFailure(ds: seq<string>, axesOf: string -> Result<seq<nat>, string>, p: nat, e: string)
    requires p <= |ds|
  {
    exists q: nat :: q < p && StartsGroup(ds, q) && axesOf(ds[q]) == Failure(e) && ResolvesUpTo(ds, axesOf, q)
  }

  /** `r` is what the first `p` iterations yield: the grouping they describe when every group
      before `p` resolves, and otherwise the first unknown name. */
  ghost predicate Outcome(ds: seq<string>, equalOf: string -> seq<nat>, axesOf: string -> Result<seq<nat>, string>,
                          p: nat, r: Result<Grouping, string>)
    requires p <= |ds|
  {
    match r
    case Success(g) => ResolvesUpTo(ds, axesOf, p) && Describes(ds, equalOf, axesOf, p, g)
    case Failure(e) => !ResolvesUpTo(ds, axesOf, p) && FirstFailure(ds, axesOf, p, e)
  }

  /** A position that repeats an earlier string shares it with a position that starts a group. */
  lemma {:induction false} FirstOccurrence(ds: seq<string>, p: nat)
    requires p < |ds|
    ensures exists q :: 0 <= q <= p && StartsGroup(ds, q) && ds[q] == ds[p]
    decreases p
  {
    if !StartsGroup(ds, p) {
      var q :| 0 <= q < p && ds[q] == ds[p];
      FirstOccurrence(ds, q);
    }
  }

  /** The loop's test `params_with_equal_depends not in result_dict.values()` holds exactly
      when the position starts a new group. */
  lemma NewGroupTest(ds: seq<string>, equalOf: string -> seq<nat>, axesOf: string -> Result<seq<nat>, string>,
                     p: nat, g: Grouping)
    requires p < |ds| && Separates(ds, equalOf) && Describes(ds, equalOf, axesOf, p, g)
    ensures equalOf(ds[p]) !in g.resultDict.Values <==> StartsGroup(ds, p)
  {
    if !StartsGroup(ds, p) {
      FirstOccurrence(ds, p);
      var q :| 0 <= q <= p && StartsGroup(ds, q) && ds[q] == ds[p];
      assert q in g.resultDict && g.resultDict[q] == equalOf(ds[p]);
    }
  }

  /** One iteration keeps the description: a repeated string changes nothing; a new one adds
      its group or fails with its unknown name; an earlier failure stays. */
  lemma {:induction false} StepOutcome(ds: seq<string>, equalOf: string -> seq<nat>,
                                       axesOf: string -> Result<seq<nat>, string>, p: nat, r: Result<Grouping, string>)
    requires p < |ds| && Separates(ds, equalOf) && Outcome(ds, equalOf, axesOf, p, r)
    ensures Outcome(ds, equalOf, axesOf, p + 1, if r.Failure? then r else GroupStep(ds, equalOf, axesOf, p, r.value))
  {
    if r.Success? {
      NewGroupTest(ds, equalOf, axesOf, p, r.value);
      if StartsGroup(ds, p) && axesOf(ds[p]).Failure? {
        assert StartsGroup(ds, p) && ResolvesUpTo(ds, axesOf, p);
      }
    } else {
      var q: nat :| q < p && StartsGroup(ds, q) && axesOf(ds[q]) == Failure(r.error) && ResolvesUpTo(ds, axesOf, q);
      assert q < p + 1;
    }
  }

  /** What the first `p` iterations compute. */
  lemma {:induction false} GroupsUpToSpec(ds: seq<string>, equalOf: string -> seq<nat>,
                                          axesOf: string -> Result<seq<nat>, string>, p: nat)
    requires p <= |ds| && Separates(ds, equalOf)
    ensures Outcome(ds, equalOf, axesOf, p, GroupsUpTo(ds, equalOf, axesOf, p))
    decreases p
  {
    if p > 0 {
      GroupsUpToSpec(ds, equalOf, axesOf, p - 1);
      StepOutcome(ds, equalOf, axesOf, p - 1, GroupsUpTo(ds, equalOf, axesOf, p - 1));
    }
  }

  // ---------------------------------------------------------------------------
  // The loop instantiated with one run's parameters.

  /** The `depends_on` strings of `meas_params`, in order. */
  function Depends(ps: seq<ParamSpec>): (ds: seq<string>)
    ensures |ds| == |Measured(ps)|
    ensures forall p :: 0 <= p < |ds| ==> Measured(ps)[p] < |ps| && ds[p] == ps[Measured(ps)[p]].dependsOn
  {
    var meas := Measured(ps);
    MeasuredSpec(ps);
    assert forall p :: 0 <= p < |meas| ==> meas[p] in meas;
    seq(|meas|, p requires 0 <= p < |meas| => ps[meas[p]].dependsOn)
  }

  /** `params_with_equal_depends` as a function of the string. */
  function EqualOf(ps: seq<ParamSpec>): string -> seq<nat> {
    d => EqualDepends(ps, d)
  }

  /** `depsind` as a function of the string: the split names resolved against `param_names`. */
  function AxesOf(ps: seq<ParamSpec>): string -> Result<seq<nat>, string> {
    d => DependsAxes(Names(ps), d)
  }

  /** Lines 105-107 for one `depends_on` string: split it at `", "` and resolve each name. */
  function DependsAxes(names: seq<string>, d: string): Result<seq<nat>, string> {
    AxisIndices(names, Split(d, ", "))
  }

  /** `equalOf` and `axesOf` give, for every string, what the loop body computes for run `ps`.
      Each equation is used only where the body computes that value. */
  ghost predicate RunComputations(ps: seq<ParamSpec>, equalOf: string -> seq<nat>,
                                  axesOf: string -> Result<seq<nat>, string>) {
    && (forall d {:trigger EqualDepends(ps, d)} :: equalOf(d) == EqualDepends(ps, d))
    && (forall d {:trigger DependsAxes(Names(ps), d)} :: axesOf(d) == DependsAxes(Names(ps), d))
  }

  /** The grouping of a run (lines 83-109), or the dependency name `param_names.index` cannot find. */
  function Groups(ps: seq<ParamSpec>): Result<Grouping, string> {
    GroupsUpTo(Depends(ps), EqualOf(ps), AxesOf(ps), |Measured(ps)|)
  }

  /** Each measured parameter belongs to the list of its own string, so different strings
      give different lists. */
  lemma RunSeparates(ps: seq<ParamSpec>)
    ensures Separates(Depends(ps), EqualOf(ps))
  {
    var ds := Depends(ps);
    forall q, p | 0 <= q < |ds| && 0 <= p < |ds| && EqualOf(ps)(ds[q]) == EqualOf(ps)(ds[p])
      ensures ds[q] == ds[p]
    {
      MeasuredSpec(ps);
      assert Measured(ps)[q] in Measured(ps);
      EqualDependsSpec(ps, ds[q]);
      EqualDependsSpec(ps, ds[p]);
      assert Measured(ps)[q] in EqualDepends(ps, ds[q]);
    }
  }

  /** What `Groups` computes, in the terms of `Outcome`. */
  lemma GroupsOutcome(ps: seq<ParamSpec>)
    ensures Outcome(Depends(ps), EqualOf(ps), AxesOf(ps), |Measured(ps)|, Groups(ps))
  {
    RunSeparates(ps);
    GroupsUpToSpec(Depends(ps), EqualOf(ps), AxesOf(ps), |Measured(ps)|);
  }

  /** Grouping succeeds exactly when every group's dependency names can be found. */
  lemma GroupsSucceed(ps: seq<ParamSpec>)
    ensures Groups(ps).Success? <==>
      forall q :: 0 <= q < |Depends(ps)| && StartsGroup(Depends(ps), q) ==> AxesOf(ps)(Depends(ps)[q]).Success?
  {
    GroupsOutcome(ps);
  }

  /** The keys of `result_dict` are exactly the positions in `meas_params` that start a group,
      so the lookup `result_dict[i]` at line 168 succeeds only for those. */
  lemma GroupKeys(ps: seq<ParamSpec>, g: Grouping)
    requires Groups(ps) == Success(g)
    ensures forall i: nat :: i in g.resultDict <==> i < |Depends(ps)| && StartsGroup(Depends(ps), i)
    ensures g.dependDict.Keys == g.resultDict.Keys
  {
    GroupsOutcome(ps);
  }

  /** A group holds every measured index with exactly the same `depends_on` string as its first
      member, in declared order, and its set axes are those names' first indices, in split order. */
  lemma GroupContents(ps: seq<ParamSpec>, g: Grouping, q: nat)
    requires Groups(ps) == Success(g) && q in g.resultDict
    ensures q < |Depends(ps)| && StartsGroup(Depends(ps), q) && q in g.dependDict
    ensures StrictlyIncreasing(g.resultDict[q])
    ensures forall k :: k in g.resultDict[q] <==>
      (0 <= k < |ps| && IsMeasured(ps[k]) && ps[k].dependsOn == Depends(ps)[q])
    ensures var deps := Split(Depends(ps)[q], ", ");
      |g.dependDict[q]| == |deps| &&
      forall o :: 0 <= o < |deps| ==> IndexOf(Names(ps), deps[o]) == Some(g.dependDict[q][o])
  {
    GroupsOutcome(ps);
    EqualDependsSpec(ps, Depends(ps)[q]);
    AxisIndicesSpec(Names(ps), Split(Depends(ps)[q], ", "));
  }

  /** Every measured parameter lands in exactly one group. */
  lemma ExactlyOneGroup(ps: seq<ParamSpec>, g: Grouping, k: nat)
    requires Groups(ps) == Success(g)
    requires k < |ps| && IsMeasured(ps[k])
    ensures exists q :: q in g.resultDict && k in g.resultDict[q]
    ensures forall q1, q2 ::
      (q1 in g.resultDict && q2 in g.resultDict && k in g.resultDict[q1] && k in g.resultDict[q2]) ==> q1 == q2
  {
    GroupsOutcome(ps);
    MeasuredSpec(ps);
    var ds := Depends(ps);
    var meas := Measured(ps);
    assert k in meas;
    var p :| 0 <= p < |meas| && meas[p] == k;
    FirstOccurrence(ds, p);
    var q :| 0 <= q <= p && StartsGroup(ds, q) && ds[q] == ds[p];
    EqualDependsSpec(ps, ds[q]);
    assert q in g.resultDict && k in g.resultDict[q];
    forall q1, q2 | q1 in g.resultDict && q2 in g.resultDict && k in g.resultDict[q1] && k in g.resultDict[q2]
      ensures q1 == q2
    {
      EqualDependsSpec(ps, ds[q1]);
      EqualDependsSpec(ps, ds[q2]);
      assert ds[q1] == ps[k].dependsOn == ds[q2];
    }
  }

  /** Each distinct `depends_on` string of a measured parameter has exactly one group. */
  lemma OneGroupPerDistinctDepends(ps: seq<ParamSpec>, g: Grouping)
    requires Groups(ps) == Success(g)
    ensures forall q :: q in g.resultDict ==> q < |Depends(ps)|
    ensures forall q1, q2 :: q1 in g.resultDict && q2 in g.resultDict && q1 != q2 ==>
      Depends(ps)[q1] != Depends(ps)[q2]
    ensures forall k :: 0 <= k < |ps| && IsMeasured(ps[k]) ==>
      exists q :: q in g.resultDict && Depends(ps)[q] == ps[k].dependsOn
  {
    GroupKeys(ps, g);
    var ds := Depends(ps);
    forall q1, q2 | q1 in g.resultDict && q2 in g.resultDict && q1 != q2
      ensures ds[q1] != ds[q2]
    {
      if q1 < q2 {
        assert StartsGroup(ds, q2);
      } else {
        assert StartsGroup(ds, q1);
      }
    }
    forall k | 0 <= k < |ps| && IsMeasured(ps[k])
      ensures exists q :: q in g.resultDict && ds[q] == ps[k].dependsOn
    {
      ExactlyOneGroup(ps, g, k);
      var q :| q in g.resultDict && k in g.resultDict[q];
      GroupContents(ps, g, q);
    }
  }

  /** Grouping fails exactly for a group whose dependency string names an unknown parameter. */
  lemma GroupsFailure(ps: seq<ParamSpec>)
    requires Groups(ps).Failure?
    ensures exists q ::
      (0 <= q < |Depends(ps)| && StartsGroup(Depends(ps), q) &&
       Groups(ps).error in Split(Depends(ps)[q], ", ") && Groups(ps).error !in Names(ps))
  {
    GroupsOutcome(ps);
    var ds := Depends(ps);
    var q: nat :| q < |ds| && StartsGroup(ds, q) && AxesOf(ps)(ds[q]) == Failure(Groups(ps).error) &&
      ResolvesUpTo(ds, AxesOf(ps), q);
    var deps := Split(ds[q], ", ");
    AxisIndicesSpec(Names(ps), deps);
    var o :| 0 <= o < |deps| && deps[o] == Groups(ps).error && deps[o] !in Names(ps) &&
      forall o' :: 0 <= o' < o ==> deps[o'] in Names(ps);
  }

  // ---------------------------------------------------------------------------
  // The loops of lines 84-109.

  /** Lines 84-90: `param_names` and `meas_params`. */
  method CollectParameters(ps: seq<ParamSpec>) returns (names: seq<string>, meas: seq<nat>)
    ensures names == Names(ps) && meas == Measured(ps)
  {
    names, meas := [], [];
    for k := 0 to |ps|
      invariant names == Names(ps[..k]) && meas == Measured(ps[..k])
    {
      assert ps[..k + 1][..k] == ps[..k];
      names := names + [ps[k].name];
      if IsMeasured(ps[k]) {
        meas := meas + [k];
      }
    }
    assert ps[..|ps|] == ps;
  }

  /** Lines 105-107: `depsind`, or the first name `param_names.index` cannot find. */
  method ResolveAxes(names: seq<string>, deps: seq<string>) returns (r: Result<seq<nat>, string>)
    ensures r == AxisIndices(names, deps)
  {
    var depsind := [];
    for o := 0 to |deps|
      invariant AxisIndices(names, deps[..o]) == Success(depsind)
    {
      assert deps[..o + 1][..o] == deps[..o];
      var k := IndexOf(names, deps[o]);
      if k.None? {
        assert AxisIndices(names, deps[..o + 1]) == Failure(deps[o]);
        PrefixFailure(names, deps, o + 1);
        return Failure(deps[o]);
      }
      depsind := depsind + [k.value];
    }
    assert deps[..|deps|] == deps;
    r := Success(depsind);
  }

  /** Once a prefix of the names fails to resolve, the whole list fails with the same name. */
  lemma {:induction false} PrefixFailure(names: seq<string>, deps: seq<string>, o: nat)
    requires o <= |deps| && AxisIndices(names, deps[..o]).Failure?
    ensures AxisIndices(names, deps) == AxisIndices(names, deps[..o])
    decreases |deps| - o
  {
    if o < |deps| {
      assert deps[..o + 1][..o] == deps[..o];
      PrefixFailure(names, deps, o + 1);
    } else {
      assert deps[..o] == deps;
    }
  }

  /** What the loop at line 98 reads: `param_names`, `meas_params` and the per-string computations. */
  ghost predicate LoopInputs(ps: seq<ParamSpec>, names: seq<string>, meas: seq<nat>,
                             equalOf: string -> seq<nat>, axesOf: string -> Result<seq<nat>, string>) {
    names == Names(ps) && meas == Measured(ps) && |Depends(ps)| == |meas| && RunComputations(ps, equalOf, axesOf)
  }

  /** One pass of the loop body at lines 99-109, for the measured parameter at position `n`. */
  method GroupIteration(ps: seq<ParamSpec>, names: seq<string>, meas: seq<nat>, n: nat, g: Grouping,
                        ghost equalOf: string -> seq<nat>, ghost axesOf: string -> Result<seq<nat>, string>)
    returns (r: Result<Grouping, string>)
    requires LoopInputs(ps, names, meas, equalOf, axesOf) && n < |meas|
    ensures r == GroupStep(Depends(ps), equalOf, axesOf, n, g)
  {
    ghost var ds := Depends(ps);
    assert |ds| == |meas|;
    assert n < |ds|;
    var l := meas[n];
    assert l < |ps|;
    assert ps[l].dependsOn == ds[n];
    var equal := EqualDepends(ps, ps[l].dependsOn);
    if equal in g.resultDict.Values {
      return Success(g);
    }
    var deps := Split(ps[l].dependsOn, ", ");
    var axes := ResolveAxes(names, deps);
    assert axes == DependsAxes(names, ps[l].dependsOn);
    if axes.Failure? {
      return Failure(axes.error);
    }
    r := Success(Grouping(g.resultDict[n := equal], g.dependDict[n := axes.value]));
  }

  /** The loop at line 98 over `meas_params`. */
  method GroupLoop(ps: seq<ParamSpec>, names: seq<string>, meas: seq<nat>,
                   ghost equalOf: string -> seq<nat>, ghost axesOf: string -> Result<seq<nat>, string>)
    returns (r: Result<Grouping, string>)
    requires LoopInputs(ps, names, meas, equalOf, axesOf)
    ensures r == GroupsUpTo(Depends(ps), equalOf, axesOf, |meas|)
  {
    ghost var ds := Depends(ps);
    assert |ds| == |meas|;
    var g := Grouping(map[], map[]);
    for n := 0 to |meas|
      invariant GroupsUpTo(ds, equalOf, axesOf, n) == Success(g)
    {
      var next := GroupIteration(ps, names, meas, n, g, equalOf, axesOf);
      if next.Failure? {
        FailureSticks(ds, equalOf, axesOf, n + 1);
        return next;
      }
      g := next.value;
    }
    r := Success(g);
  }

  /** Lines 83-109: `param_names` and both dictionaries, or the name that aborts the extraction. */
  method GroupParameters(ps: seq<ParamSpec>) returns (names: seq<string>, r: Result<Grouping, string>)
    ensures names == Names(ps) && r == Groups(ps)
  {
    var meas;
    names, meas := CollectParameters(ps);
    r := GroupLoop(ps, names, meas, EqualOf(ps), AxesOf(ps));
  }

  /** A failure of the first `p` iterations is the failure of the whole loop. */
  lemma {:induction false} FailureSticks(ds: seq<string>, equalOf: string -> seq<nat>,
                                         axesOf: string -> Result<seq<nat>, string>, p: nat)
    requires p <= |ds| && GroupsUpTo(ds, equalOf, axesOf, p).Failure?
    ensures GroupsUpTo(ds, equalOf, axesOf, |ds|) == GroupsUpTo(ds, equalOf, axesOf, p)
    decreases |ds| - p
  {
    if p < |ds| {
      FailureSticks(ds, equalOf, axesOf, p + 1);
    }
  }

  /** Parameters x, y (set) and a(x), b(x), c(y) (measured). */
  function TwoAxesExample(): seq<ParamSpec> {
    [ParamSpec("x", "x", "V", ""), ParamSpec("y", "y", "V", ""),
     ParamSpec("a", "a", "A", "x"), ParamSpec("b", "b", "A", "x"),
     ParamSpec("c", "c", "A", "y")]
  }

  lemma TwoAxesExampleMeasured()
    ensures Measured(TwoAxesExample()) == [2, 3, 4]
  {
    var ps := TwoAxesExample();
    assert IndicesWhere(ps[..1], IsMeasured) == [] by {
      assert ps[..1][..0] == [];
    }
    assert IndicesWhere(ps[..2], IsMeasured) == [] by {
      assert ps[..2][..1] == ps[..1];
    }
    assert IndicesWhere(ps[..3], IsMeasured) == [2] by {
      assert ps[..3][..2] == ps[..2];
    }
    assert IndicesWhere(ps[..4], IsMeasured) == [2, 3] by {
      assert ps[..4][..3] == ps[..3];
    }
    assert ps[..4] == ps[..|ps| - 1];
  }

  lemma TwoAxesExampleDepends()
    ensures Depends(TwoAxesExample()) == ["x", "x", "y"]
  {
    TwoAxesExampleMeasured();
  }

  lemma TwoAxesExampleAxes()
    ensures AxesOf(TwoAxesExample())("x").Success? && AxesOf(TwoAxesExample())("y").Success?
  {
    var ps := TwoAxesExample();
    assert Split("x", ", ") == ["x"];
    assert Split("y", ", ") == ["y"];
    assert ["x"][..0] == [] && ["y"][..0] == [];
    assert Names(ps) == ["x", "y", "a", "b", "c"];
  }

  /** Three positions whose first two strings agree: the groups are keyed 0 and 2. */
  lemma RepeatedThenNewKeys(ds: seq<string>, equalOf: string -> seq<nat>, axesOf: string -> Result<seq<nat>, string>)
    requires |ds| == 3 && ds[0] == ds[1] && ds[1] != ds[2] && Separates(ds, equalOf)
    requires axesOf(ds[0]).Success? && axesOf(ds[2]).Success?
    ensures GroupsUpTo(ds, equalOf, axesOf, 3).Success?
    ensures forall i :: i in GroupsUpTo(ds, equalOf, axesOf, 3).value.resultDict <==> i == 0 || i == 2
  {
    GroupsUpToSpec(ds, equalOf, axesOf, 3);
    assert StartsGroup(ds, 0) && !StartsGroup(ds, 1) && StartsGroup(ds, 2);
  }

  /** The keys need not be `0..len(result_dict)-1`: with parameters x, y, a(x), b(x), c(y)
      the groups sit under keys 0 and 2, so the file loop's lookup of key 1 fails. */
  lemma NonContiguousKeys()
    ensures Groups(TwoAxesExample()).Success?
    ensures forall i :: i in Groups(TwoAxesExample()).value.resultDict <==> i == 0 || i == 2
  {
    var ps := TwoAxesExample();
    TwoAxesExampleDepends();
    TwoAxesExampleAxes();
    RunSeparates(ps);
    var ds := Depends(ps);
    assert ds[1] != ds[2] by {
      assert ds[1][0] != ds[2][0];
    }
    TwoAxesExampleMeasured();
    RepeatedThenNewKeys(ds, EqualOf(ps), AxesOf(ps));
  }
}
