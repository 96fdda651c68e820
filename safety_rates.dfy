/** `safetyratesdelays` of doNd.py (lines 62-71): a set parameter without a ramp `step` gets
    the smallest non-zero step of its setpoints, and one without an `inter_delay` gets 5e-2 s.
    Steps, delays and setpoints are reals. */
module SafetyRates {
  import opened Wrappers

  /** The fields of a qcodes set parameter that are checked and corrected. */
  class SetParameter {
    const name: string
    var step: Option<real>
    var interDelay: Option<real>

    constructor (name: string, step: Option<real>, interDelay: Option<real>)
      ensures this.name == name && this.step == step && this.interDelay == interDelay
    {
      this.name := name;
      this.step := step;
      this.interDelay := interDelay;
    }
  }

  /** A parameter's `step` and `inter_delay` as values. */
  datatype Rates = Rates(step: Option<real>, interDelay: Option<real>)

  /** Why the loop stops: `spaces[i]` does not exist (IndexError), or all its consecutive
      differences are zero and `np.min` has nothing to reduce (ValueError). */
  datatype SafetyError = NoSpace(index: nat) | NoNonZeroStep(index: nat)

  /** `x == 0 or x == None`. */
  predicate Unset(x: Option<real>) {
    x.None? || x.value == 0.0
  }

  /** The default `inter_delay` in seconds. */
  const DefaultInterDelay: real := 0.05

  function Abs(x: real): real {
    if x < 0.0 then -x else x
  }

  /** `np.diff(space)`. */
  function Diffs(space: seq<real>): (r: seq<real>)
    ensures |r| == if |space| == 0 then 0 else |space| - 1
    ensures forall k :: 0 <= k < |r| ==> r[k] == space[k + 1] - space[k]
  {
    if |space| == 0 then [] else seq(|space| - 1, k requires 0 <= k < |space| - 1 => space[k + 1] - space[k])
  }

  /** `m` is the smallest absolute value among the non-zero entries of `ds`. */
  predicate IsMinNonZero(ds: seq<real>, m: real) {
    (exists k :: 0 <= k < |ds| && ds[k] != 0.0 && Abs(ds[k]) == m) &&
    forall k :: 0 <= k < |ds| && ds[k] != 0.0 ==> m <= Abs(ds[k])
  }

  /** `np.min(np.absolute(ds[np.where(ds != 0)]))`, or None when there is no non-zero entry. */
  function MinAbsNonZero(ds: seq<real>): (r: Option<real>)
    ensures r.None? <==> forall k :: 0 <= k < |ds| ==> ds[k] == 0.0
    ensures r.Some? ==> r.value > 0.0 && IsMinNonZero(ds, r.value)
  {
    if ds == [] then None
    else
      var init := ds[..|ds| - 1];
      var x := ds[|ds| - 1];
      var m := MinAbsNonZero(init);
      assert forall k :: 0 <= k < |init| ==> init[k] == ds[k];
      if x == 0.0 then m
      else if m.None? || Abs(x) < m.value then Some(Abs(x))
      else m
  }

  /** The smallest non-zero step between consecutive setpoints of `space`. */
  function MinStep(space: seq<real>): Option<real> {
    MinAbsNonZero(Diffs(space))
  }

  /** One iteration of the loop, on the values of parameter `i`. */
  function Correct(r: Rates, spaces: seq<seq<real>>, i: nat): (res: Result<Rates, SafetyError>)
    ensures res.Failure? <==> Unset(r.step) && (i >= |spaces| || (|spaces[i]| > 1 && forall k :: 0 <= k < |spaces[i]| - 1 ==> spaces[i][k + 1] == spaces[i][k]))
    ensures res.Failure? ==> res.error.index == i && (res.error.NoSpace? <==> i >= |spaces|)
    ensures res.Success? ==> !Unset(res.value.interDelay) && (!Unset(r.interDelay) ==> res.value.interDelay == r.interDelay)
    ensures res.Success? && Unset(r.interDelay) ==> res.value.interDelay == Some(DefaultInterDelay)
    ensures res.Success? && !Unset(r.step) ==> res.value.step == r.step
    ensures res.Success? && Unset(r.step) && |spaces[i]| > 1 ==>
      res.value.step.Some? && res.value.step.value > 0.0 && IsMinNonZero(Diffs(spaces[i]), res.value.step.value)
    ensures res.Success? && Unset(r.step) && |spaces[i]| <= 1 ==> res.value.step == r.step
  {
    var delay := if Unset(r.interDelay) then Some(DefaultInterDelay) else r.interDelay;
    if !Unset(r.step) || (i < |spaces| && |spaces[i]| <= 1) then Success(Rates(r.step, delay))
    else if i >= |spaces| then Failure(NoSpace(i))
    else match MinStep(spaces[i])
      case None => Failure(NoNonZeroStep(i))
      case Some(m) => Success(Rates(Some(m), delay))
  }

  /** A corrected parameter is corrected no further: running the check twice changes nothing,
      except that a step left unset beside a single setpoint stays unset. */
  lemma CorrectIdempotent(r: Rates, spaces: seq<seq<real>>, i: nat)
    requires Correct(r, spaces, i).Success?
    requires !Unset(r.step) || |spaces[i]| > 1
    ensures Correct(Correct(r, spaces, i).value, spaces, i) == Correct(r, spaces, i)
  {
  }

  /** The values of the parameters. */
  function Values(ps: seq<SetParameter>): (r: seq<Rates>)
    reads set p | p in ps
    ensures |r| == |ps| && forall i :: 0 <= i < |ps| ==> r[i] == Rates(ps[i].step, ps[i].interDelay)
  {
    if ps == [] then [] else Values(ps[..|ps| - 1]) + [Rates(ps[|ps| - 1].step, ps[|ps| - 1].interDelay)]
  }

  /** The parameters below `m` hold their corrected values and the others their old ones. */
  ghost predicate CorrectedUpTo(before: seq<Rates>, after: seq<Rates>, spaces: seq<seq<real>>, m: nat) {
    |after| == |before| && m <= |before| &&
    (forall p :: 0 <= p < m ==> Correct(before[p], spaces, p).Success? && after[p] == Correct(before[p], spaces, p).value) &&
    forall p :: m <= p < |before| ==> after[p] == before[p]
  }

  lemma CorrectedStep(before: seq<Rates>, after: seq<Rates>, spaces: seq<seq<real>>, i: nat)
    requires CorrectedUpTo(before, after, spaces, i) && i < |before| && Correct(before[i], spaces, i).Success?
    ensures CorrectedUpTo(before, after[i := Correct(before[i], spaces, i).value], spaces, i + 1)
  {
  }

  /** The body of the loop for `param_set[i]`: the step first, then the delay; the object is
      written only when nothing raised. */
  method CorrectParameter(p: SetParameter, spaces: seq<seq<real>>, i: nat) returns (err: Option<SafetyError>)
    modifies p
    ensures var c := Correct(old(Rates(p.step, p.interDelay)), spaces, i);
      if err.Some? then c == Failure(err.value) && p.step == old(p.step) && p.interDelay == old(p.interDelay)
      else c.Success? && Rates(p.step, p.interDelay) == c.value
  {
    var step, delay := p.step, p.interDelay;
    if Unset(step) {
      if i >= |spaces| {
        return Some(NoSpace(i));
      }
      if |spaces[i]| > 1 {
        var m := MinStep(spaces[i]);
        if m.None? {
          return Some(NoNonZeroStep(i));
        }
        step := m;
      }
    }
    if Unset(delay) {
      delay := Some(DefaultInterDelay);
    }
    p.step, p.interDelay := step, delay;
    return None;
  }

  /** `safetyratesdelays(param_set, spaces)`: each parameter in turn is corrected, until one
      raises; the ones before it keep their corrections and the rest are untouched. */
  method SafetyRatesDelays(params: seq<SetParameter>, spaces: seq<seq<real>>) returns (err: Option<SafetyError>)
    requires forall p, q :: 0 <= p < q < |params| ==> params[p] != params[q]
    modifies set p | p in params
    ensures err.Some? ==> err.value.index < |params|
    ensures var m := if err.None? then |params| else err.value.index;
      CorrectedUpTo(old(Values(params)), Values(params), spaces, m) &&
      (err.Some? ==> Correct(old(Values(params))[m], spaces, m) == Failure(err.value))
  {
    ghost var before := Values(params);
    ghost var after := before;
    for i := 0 to |params|
      invariant CorrectedUpTo(before, after, spaces, i)
      invariant forall q :: 0 <= q < |params| ==> Rates(params[q].step, params[q].interDelay) == after[q]
    {
      err := CorrectParameter(params[i], spaces, i);
      if err.Some? {
        return;
      }
      CorrectedStep(before, after, spaces, i);
      after := after[i := Correct(before[i], spaces, i).value];
    }
    return None;
  }

  /** After a run that raised nothing, a second run changes nothing on the parameters whose
      step could be derived. */
  lemma SecondRunNoOp(before: seq<Rates>, after: seq<Rates>, spaces: seq<seq<real>>, p: nat)
    requires CorrectedUpTo(before, after, spaces, |before|) && p < |before|
    requires !Unset(before[p].step) || |spaces[p]| > 1
    ensures Correct(after[p], spaces, p) == Success(after[p])
  {
    CorrectIdempotent(before[p], spaces, p);
  }
}
