/** The data part of one `.dat` file (db_extraction.py, lines 167-219): the columns of one group,
    their header fields, the row matrix, the rows where a slow axis changes, and the
    blank-line-separated blocks that are written. Values are integers: the code only ever
    compares them for equality. */
module RunMatrix {
  import opened Wrappers
  import opened Sequences
  import opened Text
  import opened Grouping

  /** `run.get_parameter_data(p)[p]` for each parameter name `p`: its columns, by parameter name. */
  type RunData = map<string, map<string, seq<int>>>

  /** A column is read as `data[outer][inner]`; either lookup may raise `KeyError`. */
  datatype ColumnKey = ColumnKey(outer: string, inner: string)

  /** One line of a `.dat` body: a row of values (`np.savetxt`, tab-delimited) or the separator `"\n"`. */
  datatype Line = Row(values: seq<int>) | Blank

  /** The column header fields and the columns, in matrix column order. */
  datatype Table = Table(names: string, labels: string, columns: seq<seq<int>>)

  predicate Present(data: RunData, key: ColumnKey) {
    key.outer in data && key.inner in data[key.outer]
  }

  /** Reading the columns in order; the first missing key aborts. */
  function LookupColumns(data: RunData, keys: seq<ColumnKey>): Result<seq<seq<int>>, ColumnKey>
    decreases |keys|
  {
    if keys == [] then Success([])
    else
      var key := keys[|keys| - 1];
      match LookupColumns(data, keys[..|keys| - 1])
      case Failure(e) => Failure(e)
      case Success(cols) =>
        if Present(data, key) then Success(cols + [data[key.outer][key.inner]]) else Failure(key)
  }

  /** `e` is the first key of `keys` that is not present. */
  predicate FirstMissing(data: RunData, keys: seq<ColumnKey>, e: ColumnKey) {
    exists c :: 0 <= c < |keys| && keys[c] == e && !Present(data, e) &&
      forall c' :: 0 <= c' < c ==> Present(data, keys[c'])
  }

  /** Reading succeeds exactly when every key is present, and then yields column `c` from key `c`;
      otherwise it reports the first missing key. */
  lemma {:induction false} LookupColumnsSpec(data: RunData, keys: seq<ColumnKey>)
    ensures LookupColumns(data, keys).Success? <==> forall c :: 0 <= c < |keys| ==> Present(data, keys[c])
    ensures LookupColumns(data, keys).Success? ==>
      var cols := LookupColumns(data, keys).value;
      |cols| == |keys| && forall c :: 0 <= c < |keys| ==> cols[c] == data[keys[c].outer][keys[c].inner]
    ensures LookupColumns(data, keys).Failure? ==> FirstMissing(data, keys, LookupColumns(data, keys).error)
    decreases |keys|
  {
    if keys != [] {
      var init := keys[..|keys| - 1];
      LookupColumnsSpec(data, init);
      assert forall c :: 0 <= c < |init| ==> keys[c] == init[c];
      if LookupColumns(data, init).Failure? {
        var c :| 0 <= c < |init| && init[c] == LookupColumns(data, init).error && !Present(data, init[c]) &&
          forall c' :: 0 <= c' < c ==> Present(data, init[c']);
        assert keys[c] == init[c];
      }
    }
  }

  /** Reading `a + b` reads `a`, then `b`. */
  lemma {:induction false} LookupColumnsAppend(data: RunData, a: seq<ColumnKey>, b: seq<ColumnKey>)
    ensures LookupColumns(data, a + b) ==
      match LookupColumns(data, a)
      case Failure(e) => Failure(e)
      case Success(x) =>
        match LookupColumns(data, b)
        case Failure(e) => Failure(e)
        case Success(y) => Success(x + y)
    decreases |b|
  {
    if b == [] {
      assert a + b == a;
      if LookupColumns(data, a).Success? {
        assert LookupColumns(data, a).value + [] == LookupColumns(data, a).value;
      }
    } else {
      var init := b[..|b| - 1];
      assert (a + b)[..|a + b| - 1] == a + init;
      LookupColumnsAppend(data, a, init);
      if LookupColumns(data, a).Success? && LookupColumns(data, init).Success? {
        var x := LookupColumns(data, a).value;
        var y := LookupColumns(data, init).value;
        var key := b[|b| - 1];
        if Present(data, key) {
          assert x + y + [data[key.outer][key.inner]] == x + (y + [data[key.outer][key.inner]]);
        }
      }
    }
  }

  /** The key of parameter `j`'s column: the set axes are read from the first measured parameter's
      data (`outer` given, line 178), a measured parameter from its own (line 187). */
  function KeyOf(ps: seq<ParamSpec>, outer: Option<string>, j: nat): ColumnKey
    requires j < |ps|
  {
    ColumnKey(if outer.Some? then outer.value else ps[j].name, ps[j].name)
  }

  predicate InRange(ps: seq<ParamSpec>, params: seq<nat>) {
    forall c :: 0 <= c < |params| ==> params[c] < |ps|
  }

  function KeysOf(ps: seq<ParamSpec>, outer: Option<string>, params: seq<nat>): (r: seq<ColumnKey>)
    requires InRange(ps, params)
    ensures |r| == |params|
  {
    seq(|params|, c requires 0 <= c < |params| => KeyOf(ps, outer, params[c]))
  }

  /** The header field of a column: `label (unit)`. */
  function LabelAndUnit(p: ParamSpec): string {
    p.labelText + " (" + p.unit + ")"
  }

  function NamesOf(ps: seq<ParamSpec>, params: seq<nat>): (r: seq<string>)
    requires InRange(ps, params)
    ensures |r| == |params|
  {
    seq(|params|, c requires 0 <= c < |params| => ps[params[c]].name)
  }

  function LabelsOf(ps: seq<ParamSpec>, params: seq<nat>): (r: seq<string>)
    requires InRange(ps, params)
    ensures |r| == |params|
  {
    seq(|params|, c requires 0 <= c < |params| => LabelAndUnit(ps[params[c]]))
  }

  /** The keys of a group's columns: the set axes `set_params` first, then `meas_params`. */
  function ColumnKeys(ps: seq<ParamSpec>, axes: seq<nat>, meas: seq<nat>): seq<ColumnKey>
    requires |meas| > 0 && InRange(ps, axes) && InRange(ps, meas)
  {
    KeysOf(ps, Some(ps[meas[0]].name), axes) + KeysOf(ps, None, meas)
  }

  /** Lines 167-189: the header fields (each followed by a tab) and the columns of a group,
      or the first key that raises `KeyError`. */
  function TableOf(ps: seq<ParamSpec>, data: RunData, axes: seq<nat>, meas: seq<nat>): Result<Table, ColumnKey>
    requires |meas| > 0 && InRange(ps, axes) && InRange(ps, meas)
  {
    match LookupColumns(data, ColumnKeys(ps, axes, meas))
    case Failure(e) => Failure(e)
    case Success(cols) =>
      Success(Table(Terminated(NamesOf(ps, axes + meas), '\t'), Terminated(LabelsOf(ps, axes + meas), '\t'), cols))
  }

  /** The column order of a group: column `c` holds set axis `c` from the first measured
      parameter's data, and after the set axes each measured parameter from its own data. */
  lemma TableColumns(ps: seq<ParamSpec>, data: RunData, axes: seq<nat>, meas: seq<nat>)
    requires |meas| > 0 && InRange(ps, axes) && InRange(ps, meas)
    requires TableOf(ps, data, axes, meas).Success?
    ensures var cols := TableOf(ps, data, axes, meas).value.columns;
      && |cols| == |axes| + |meas|
      && (forall c :: 0 <= c < |axes| ==>
            Present(data, ColumnKey(ps[meas[0]].name, ps[axes[c]].name)) &&
            cols[c] == data[ps[meas[0]].name][ps[axes[c]].name])
      && (forall k :: 0 <= k < |meas| ==>
            Present(data, ColumnKey(ps[meas[k]].name, ps[meas[k]].name)) &&
            cols[|axes| + k] == data[ps[meas[k]].name][ps[meas[k]].name])
  {
    var keys := ColumnKeys(ps, axes, meas);
    LookupColumnsSpec(data, keys);
    var cols := LookupColumns(data, keys).value;
    assert TableOf(ps, data, axes, meas).value.columns == cols;
    forall c | 0 <= c < |axes|
      ensures Present(data, ColumnKey(ps[meas[0]].name, ps[axes[c]].name))
      ensures cols[c] == data[ps[meas[0]].name][ps[axes[c]].name]
    {
      assert keys[c] == ColumnKey(ps[meas[0]].name, ps[axes[c]].name);
    }
    forall k | 0 <= k < |meas|
      ensures Present(data, ColumnKey(ps[meas[k]].name, ps[meas[k]].name))
      ensures cols[|axes| + k] == data[ps[meas[k]].name][ps[meas[k]].name]
    {
      assert keys[|axes| + k] == ColumnKey(ps[meas[k]].name, ps[meas[k]].name);
    }
  }

  /** A missing column aborts the group with the first key, in column order, that is absent. */
  lemma TableMissing(ps: seq<ParamSpec>, data: RunData, axes: seq<nat>, meas: seq<nat>)
    requires |meas| > 0 && InRange(ps, axes) && InRange(ps, meas)
    ensures TableOf(ps, data, axes, meas).Failure? <==>
      exists c :: 0 <= c < |axes| + |meas| && !Present(data, ColumnKeys(ps, axes, meas)[c])
    ensures TableOf(ps, data, axes, meas).Failure? ==>
      FirstMissing(data, ColumnKeys(ps, axes, meas), TableOf(ps, data, axes, meas).error)
  {
    LookupColumnsSpec(data, ColumnKeys(ps, axes, meas));
  }

  lemma {:induction false} TerminatedAppend(a: seq<string>, b: seq<string>, t: char)
    ensures Terminated(a + b, t) == Terminated(a, t) + Terminated(b, t)
  {
    if a != [] {
      assert (a + b)[1..] == a[1..] + b;
      TerminatedAppend(a[1..], b, t);
    } else {
      assert a + b == b;
    }
  }

  /** `acc` extended by the columns of `params` and their header fields, or the first missing key. */
  function Extend(acc: Table, ps: seq<ParamSpec>, data: RunData, outer: Option<string>, params: seq<nat>)
    : Result<Table, ColumnKey>
    requires InRange(ps, params)
  {
    match LookupColumns(data, KeysOf(ps, outer, params))
    case Failure(e) => Failure(e)
    case Success(cols) =>
      Success(Table(acc.names + Terminated(NamesOf(ps, params), '\t'),
                    acc.labels + Terminated(LabelsOf(ps, params), '\t'), acc.columns + cols))
  }

  /** One more parameter: its column and fields are appended, or its missing key is reported. */
  lemma ExtendStep(acc: Table, ps: seq<ParamSpec>, data: RunData, outer: Option<string>, params: seq<nat>, c: nat)
    requires InRange(ps, params) && c < |params|
    ensures InRange(ps, params[..c]) && InRange(ps, params[..c + 1])
    ensures Extend(acc, ps, data, outer, params[..c + 1]) ==
      match Extend(acc, ps, data, outer, params[..c])
      case Failure(e) => Failure(e)
      case Success(t) =>
        var key := KeyOf(ps, outer, params[c]);
        if Present(data, key)
        then Success(Table(t.names + ps[params[c]].name + "\t", t.labels + LabelAndUnit(ps[params[c]]) + "\t",
                           t.columns + [data[key.outer][key.inner]]))
        else Failure(key)
  {
    var short := params[..c];
    var long := params[..c + 1];
    var key := KeyOf(ps, outer, params[c]);
    FieldsStep(ps, params, c);
    var keys := KeysOf(ps, outer, long);
    assert keys[..|keys| - 1] == KeysOf(ps, outer, short);
    assert keys[|keys| - 1] == key;
    if LookupColumns(data, KeysOf(ps, outer, short)).Success? && Present(data, key) {
      var cols := LookupColumns(data, KeysOf(ps, outer, short)).value;
      var v := data[key.outer][key.inner];
      assert acc.columns + (cols + [v]) == acc.columns + cols + [v];
    }
  }

  /** The header fields of the first `c + 1` parameters extend those of the first `c`. */
  lemma FieldsStep(ps: seq<ParamSpec>, params: seq<nat>, c: nat)
    requires InRange(ps, params) && c < |params|
    ensures InRange(ps, params[..c]) && InRange(ps, params[..c + 1])
    ensures forall a :: (a + Terminated(NamesOf(ps, params[..c + 1]), '\t') ==
      a + Terminated(NamesOf(ps, params[..c]), '\t') + ps[params[c]].name + "\t")
    ensures forall a :: (a + Terminated(LabelsOf(ps, params[..c + 1]), '\t') ==
      a + Terminated(LabelsOf(ps, params[..c]), '\t') + LabelAndUnit(ps[params[c]]) + "\t")
  {
    var short := params[..c];
    var long := params[..c + 1];
    assert long == short + [params[c]];
    assert NamesOf(ps, long) == NamesOf(ps, short) + [ps[params[c]].name];
    assert LabelsOf(ps, long) == LabelsOf(ps, short) + [LabelAndUnit(ps[params[c]])];
    TerminatedSnoc(NamesOf(ps, short), ps[params[c]].name, '\t');
    TerminatedSnoc(LabelsOf(ps, short), LabelAndUnit(ps[params[c]]), '\t');
  }

  lemma TerminatedSnoc(xs: seq<string>, x: string, t: char)
    ensures forall a :: a + Terminated(xs + [x], t) == a + Terminated(xs, t) + x + [t]
  {
    TerminatedAppend(xs, [x], t);
    assert Terminated([x], t) == x + [t];
  }

  /** A missing key among the first `c` parameters is the outcome for all of them. */
  lemma ExtendFails(acc: Table, ps: seq<ParamSpec>, data: RunData, outer: Option<string>, params: seq<nat>, c: nat)
    requires InRange(ps, params) && c <= |params|
    requires InRange(ps, params[..c]) && Extend(acc, ps, data, outer, params[..c]).Failure?
    ensures Extend(acc, ps, data, outer, params) == Extend(acc, ps, data, outer, params[..c])
  {
    var keys := KeysOf(ps, outer, params);
    assert KeysOf(ps, outer, params[..c]) == keys[..c];
    PrefixFailsAll(data, keys, c);
  }

  /** The loop over `params` at lines 177-182 or 185-189: append each parameter's column and
      its header fields, or stop at the first missing column. */
  method ReadColumns(ps: seq<ParamSpec>, data: RunData, outer: Option<string>, params: seq<nat>, acc: Table)
    returns (r: Result<Table, ColumnKey>)
    requires InRange(ps, params)
    ensures r == Extend(acc, ps, data, outer, params)
  {
    var t := acc;
    assert params[..0] == [] && KeysOf(ps, outer, []) == [];
    assert NamesOf(ps, []) == [] && LabelsOf(ps, []) == [];
    assert acc.names + "" == acc.names && acc.labels + "" == acc.labels && acc.columns + [] == acc.columns;
    for c := 0 to |params|
      invariant InRange(ps, params[..c]) && Extend(acc, ps, data, outer, params[..c]) == Success(t)
    {
      var j := params[c];
      var key := ColumnKey(if outer.Some? then outer.value else ps[j].name, ps[j].name);
      ExtendStep(acc, ps, data, outer, params, c);
      if !(key.outer in data && key.inner in data[key.outer]) {
        ExtendFails(acc, ps, data, outer, params, c + 1);
        return Failure(key);
      }
      t := Table(t.names + ps[j].name + "\t", t.labels + LabelAndUnit(ps[j]) + "\t",
                 t.columns + [data[key.outer][key.inner]]);
    }
    assert params[..|params|] == params;
    r := Success(t);
  }

  /** A failure of a prefix is the failure of the whole read. */
  lemma {:induction false} PrefixFailsAll(data: RunData, keys: seq<ColumnKey>, c: nat)
    requires c <= |keys| && LookupColumns(data, keys[..c]).Failure?
    ensures LookupColumns(data, keys) == LookupColumns(data, keys[..c])
    decreases |keys| - c
  {
    if c < |keys| {
      assert keys[..c + 1][..c] == keys[..c];
      PrefixFailsAll(data, keys, c + 1);
    } else {
      assert keys[..c] == keys;
    }
  }

  /** The table of a group is the set-axis part followed by the measured part. */
  lemma TableParts(ps: seq<ParamSpec>, data: RunData, axes: seq<nat>, meas: seq<nat>)
    requires |meas| > 0 && InRange(ps, axes) && InRange(ps, meas)
    ensures TableOf(ps, data, axes, meas) ==
      match Extend(Table("", "", []), ps, data, Some(ps[meas[0]].name), axes)
      case Failure(e) => Failure(e)
      case Success(t) => Extend(t, ps, data, None, meas)
  {
    LookupColumnsAppend(data, KeysOf(ps, Some(ps[meas[0]].name), axes), KeysOf(ps, None, meas));
    assert NamesOf(ps, axes + meas) == NamesOf(ps, axes) + NamesOf(ps, meas);
    assert LabelsOf(ps, axes + meas) == LabelsOf(ps, axes) + LabelsOf(ps, meas);
    TerminatedAppend(NamesOf(ps, axes), NamesOf(ps, meas), '\t');
    TerminatedAppend(LabelsOf(ps, axes), LabelsOf(ps, meas), '\t');
    var n1 := Terminated(NamesOf(ps, axes), '\t');
    var l1 := Terminated(LabelsOf(ps, axes), '\t');
    assert "" + n1 == n1 && "" + l1 == l1;
    var x := LookupColumns(data, KeysOf(ps, Some(ps[meas[0]].name), axes));
    if x.Success? {
      assert [] + x.value == x.value;
    }
  }

  /** Lines 167-189: both column loops. */
  method CollectColumns(ps: seq<ParamSpec>, data: RunData, axes: seq<nat>, meas: seq<nat>)
    returns (r: Result<Table, ColumnKey>)
    requires |meas| > 0 && InRange(ps, axes) && InRange(ps, meas)
    ensures r == TableOf(ps, data, axes, meas)
  {
    TableParts(ps, data, axes, meas);
    var setPart := ReadColumns(ps, data, Some(ps[meas[0]].name), axes, Table("", "", []));
    if setPart.Failure? {
      return setPart;
    }
    r := ReadColumns(ps, data, None, meas, setPart.value);
  }

  // ---------------------------------------------------------------------------
  // Lines 193-194: `np.vstack` of the columns, then `np.flipud(np.rot90(m, k=-1, axes=(1,0)))`.

  /** `np.vstack` of one-dimensional columns: the columns as rows, defined only when they all
      have the length of the first (otherwise numpy raises `ValueError`). */
  function Stack(cols: seq<seq<int>>): (r: Option<seq<seq<int>>>)
    requires |cols| > 0
    ensures r.Some? <==> Rectangular(cols, |cols[0]|)
    ensures r.Some? ==> r.value == cols
  {
    if Rectangular(cols, |cols[0]|) then Some(cols) else None
  }

  /** `np.rot90(m, k=-1, axes=(1,0))`, which is numpy's single counter-clockwise turn
      `np.rot90(m)`: entry `(i, j)` of the result is `m[j][w-1-i]`. */
  function Rot90(m: seq<seq<int>>, w: nat): (r: seq<seq<int>>)
    requires Rectangular(m, w)
  {
    seq(w, i requires 0 <= i < w => seq(|m|, j requires 0 <= j < |m| => m[j][w - 1 - i]))
  }

  /** `np.flipud`: the rows in reverse order. */
  function FlipUd(m: seq<seq<int>>): (r: seq<seq<int>>) {
    seq(|m|, i requires 0 <= i < |m| => m[|m| - 1 - i])
  }

  /** The run matrix: row `r` holds the `r`-th value of every column, in column order. */
  function Transpose(cols: seq<seq<int>>, w: nat): (r: seq<seq<int>>)
    requires Rectangular(cols, w)
    ensures |r| == w && Rectangular(r, |cols|)
    ensures forall i, j :: 0 <= i < w && 0 <= j < |cols| ==> r[i][j] == cols[j][i]
  {
    seq(w, i requires 0 <= i < w => seq(|cols|, j requires 0 <= j < |cols| => cols[j][i]))
  }

  /** The turn followed by the flip is a transpose. */
  lemma FlipRotIsTranspose(m: seq<seq<int>>, w: nat)
    requires Rectangular(m, w)
    ensures FlipUd(Rot90(m, w)) == Transpose(m, w)
  {
    var f := FlipUd(Rot90(m, w));
    var t := Transpose(m, w);
    assert |f| == |t|;
    forall i | 0 <= i < w
      ensures f[i] == t[i]
    {
      assert f[i] == Rot90(m, w)[w - 1 - i];
    }
  }

  /** Transposing twice gives the columns back. */
  lemma TransposeTwice(cols: seq<seq<int>>, w: nat)
    requires |cols| > 0 && Rectangular(cols, w)
    ensures Transpose(Transpose(cols, w), |cols|) == cols
  {
    var t := Transpose(Transpose(cols, w), |cols|);
    forall j | 0 <= j < |cols|
      ensures t[j] == cols[j]
    {
    }
  }

  /** Lines 193-194: the stacked columns turned and flipped, which is the transpose: row `r` of
      the run matrix holds the `r`-th value of every column. */
  function Assemble(cols: seq<seq<int>>): (r: seq<seq<int>>)
    requires |cols| > 0 && Rectangular(cols, |cols[0]|)
    ensures r == Transpose(cols, |cols[0]|)
  {
    FlipRotIsTranspose(cols, |cols[0]|);
    FlipUd(Rot90(cols, |cols[0]|))
  }

  // ---------------------------------------------------------------------------
  // Lines 206-213: the rows at which one of the set axes changes.

  /** How many leading columns are slow axes: all set axes but the fastest (line 207), or none. */
  function SlowAxes(setCount: nat, newlineSlowAxes: bool): nat {
    if newlineSlowAxes && setCount > 0 then setCount - 1 else 0
  }

  /** Column `c` differs between rows `r - 1` and `r`. */
  predicate ChangesAt(m: seq<seq<int>>, w: nat, c: nat, r: nat)
    requires Rectangular(m, w) && c < w
  {
    1 <= r < |m| && m[r - 1][c] != m[r][c]
  }

  /** Some column before `k` differs between rows `r - 1` and `r`. */
  predicate ChangesBefore(m: seq<seq<int>>, w: nat, r: nat, k: nat)
    requires Rectangular(m, w) && k <= w
  {
    exists c :: 0 <= c < k && ChangesAt(m, w, c, r)
  }

  /** `np.where(m[:-1, c] != m[1:, c])[0] + 1`, for the first `n` rows. */
  function ChangeRows(m: seq<seq<int>>, w: nat, c: nat, n: nat): seq<nat>
    requires Rectangular(m, w) && c < w && n <= |m|
  {
    if n <= 1 then []
    else ChangeRows(m, w, c, n - 1) + (if m[n - 2][c] != m[n - 1][c] then [n - 1] else [])
  }

  /** The rows where column `c` changes, in increasing order. */
  lemma ChangeRowsSpec(m: seq<seq<int>>, w: nat, c: nat, n: nat)
    requires Rectangular(m, w) && c < w && n <= |m|
    ensures StrictlyIncreasing(ChangeRows(m, w, c, n))
    ensures forall r: nat :: r in ChangeRows(m, w, c, n) <==> r < n && ChangesAt(m, w, c, r)
  {
    ChangeRowsIncreasing(m, w, c, n);
    ChangeRowsMembers(m, w, c, n);
  }

  lemma {:induction false} ChangeRowsIncreasing(m: seq<seq<int>>, w: nat, c: nat, n: nat)
    requires Rectangular(m, w) && c < w && n <= |m|
    ensures StrictlyIncreasing(ChangeRows(m, w, c, n))
    ensures forall i :: 0 <= i < |ChangeRows(m, w, c, n)| ==> ChangeRows(m, w, c, n)[i] < n
  {
    if n > 1 {
      ChangeRowsIncreasing(m, w, c, n - 1);
      if m[n - 2][c] != m[n - 1][c] {
        IncreasingSnoc(ChangeRows(m, w, c, n - 1), n - 1);
      }
    }
  }

  lemma {:induction false} ChangeRowsMembers(m: seq<seq<int>>, w: nat, c: nat, n: nat)
    requires Rectangular(m, w) && c < w && n <= |m|
    ensures forall r: nat :: r in ChangeRows(m, w, c, n) <==> r < n && ChangesAt(m, w, c, r)
  {
    if n > 1 {
      ChangeRowsMembers(m, w, c, n - 1);
    }
  }

  /** `np.unique(np.concatenate((a, b)))` for two sorted duplicate-free index lists: their sorted union. */
  function Merge(a: seq<nat>, b: seq<nat>): seq<nat>
    decreases |a| + |b|
  {
    if a == [] then b
    else if b == [] then a
    else if a[0] < b[0] then [a[0]] + Merge(a[1..], b)
    else if b[0] < a[0] then [b[0]] + Merge(a, b[1..])
    else [a[0]] + Merge(a[1..], b[1..])
  }

  /** Every element of `s` is above `x`. */
  predicate Below(s: seq<nat>, x: nat) {
    forall i :: 0 <= i < |s| ==> x < s[i]
  }

  /** The merge holds exactly the elements of both, sorted and without repetition. */
  lemma {:induction false} MergeSpec(a: seq<nat>, b: seq<nat>)
    requires StrictlyIncreasing(a) && StrictlyIncreasing(b)
    ensures StrictlyIncreasing(Merge(a, b))
    ensures forall x :: x in Merge(a, b) <==> x in a || x in b
    decreases |a| + |b|
  {
    if a != [] && b != [] {
      if a[0] < b[0] {
        MergeSpec(a[1..], b);
        MergeHead(a[0], Merge(a[1..], b), a[1..], b);
      } else if b[0] < a[0] {
        MergeSpec(a, b[1..]);
        MergeHead(b[0], Merge(a, b[1..]), a, b[1..]);
      } else {
        MergeSpec(a[1..], b[1..]);
        MergeHead(a[0], Merge(a[1..], b[1..]), a[1..], b[1..]);
      }
      assert a == [a[0]] + a[1..];
      assert b == [b[0]] + b[1..];
    }
  }

  /** Putting an element below every element of a merged tail in front keeps it sorted. */
  lemma MergeHead(x: nat, m: seq<nat>, a: seq<nat>, b: seq<nat>)
    requires StrictlyIncreasing(m) && (forall y :: y in m <==> y in a || y in b)
    requires Below(a, x) && Below(b, x)
    ensures StrictlyIncreasing([x] + m)
  {
    assert forall i :: 0 <= i < |m| ==> m[i] in m;
  }

  /** `slicearray` after the first `i` passes of the loop at line 211. */
  function SliceIndicesUpTo(m: seq<seq<int>>, w: nat, i: nat): seq<nat>
    requires Rectangular(m, w) && i <= w
  {
    if i == 0 then [] else Merge(SliceIndicesUpTo(m, w, i - 1), ChangeRows(m, w, i - 1, |m|))
  }

  /** The slice indices are, sorted and without repetition, exactly the rows `r` of `1..rows-1`
      where one of the first `i` columns differs between rows `r - 1` and `r`. */
  lemma {:induction false} SliceIndicesSpec(m: seq<seq<int>>, w: nat, i: nat)
    requires Rectangular(m, w) && i <= w
    ensures StrictlyIncreasing(SliceIndicesUpTo(m, w, i))
    ensures forall r: nat :: r in SliceIndicesUpTo(m, w, i) <==> ChangesBefore(m, w, r, i)
  {
    if i > 0 {
      var prev := SliceIndicesUpTo(m, w, i - 1);
      var changes := ChangeRows(m, w, i - 1, |m|);
      SliceIndicesSpec(m, w, i - 1);
      ChangeRowsSpec(m, w, i - 1, |m|);
      MergeSpec(prev, changes);
      forall r: nat
        ensures ChangesBefore(m, w, r, i) <==> ChangesBefore(m, w, r, i - 1) || ChangesAt(m, w, i - 1, r)
      {
        if ChangesBefore(m, w, r, i) {
          var c :| 0 <= c < i && ChangesAt(m, w, c, r);
          if c < i - 1 {
            assert ChangesBefore(m, w, r, i - 1);
          }
        }
        if ChangesBefore(m, w, r, i - 1) {
          var c :| 0 <= c < i - 1 && ChangesAt(m, w, c, r);
          assert 0 <= c < i && ChangesAt(m, w, c, r);
        }
      }
    }
  }

  /** The loop at lines 210-213. */
  method SliceIndices(m: seq<seq<int>>, w: nat, setCount: nat, newlineSlowAxes: bool) returns (slice: seq<nat>)
    requires Rectangular(m, w) && SlowAxes(setCount, newlineSlowAxes) <= w
    ensures slice == SliceIndicesUpTo(m, w, SlowAxes(setCount, newlineSlowAxes))
  {
    var ndims := if newlineSlowAxes && setCount > 0 then setCount - 1 else 0;
    slice := [];
    for i := 0 to ndims
      invariant slice == SliceIndicesUpTo(m, w, i)
    {
      var changes := [];
      if |m| > 0 {
        for r := 1 to |m|
          invariant changes == ChangeRows(m, w, i, r)
        {
          if m[r - 1][i] != m[r][i] {
            changes := changes + [r];
          }
        }
      }
      slice := Merge(slice, changes);
    }
  }

  /** The slice indices are increasing cuts strictly inside the matrix. */
  lemma SliceCuts(m: seq<seq<int>>, w: nat, i: nat)
    requires Rectangular(m, w) && i <= w
    ensures StrictlyIncreasing(SliceIndicesUpTo(m, w, i))
    ensures forall k :: 0 <= k < |SliceIndicesUpTo(m, w, i)| ==> 1 <= SliceIndicesUpTo(m, w, i)[k] < |m|
  {
    var s := SliceIndicesUpTo(m, w, i);
    SliceIndicesSpec(m, w, i);
    forall k | 0 <= k < |s|
      ensures 1 <= s[k] < |m|
    {
      assert s[k] in s;
      var c :| 0 <= c < i && ChangesAt(m, w, c, s[k]);
    }
  }

  /** With `newline_slowaxes` false there are no slice indices. */
  lemma NoSlowAxesNoSlices(m: seq<seq<int>>, w: nat, setCount: nat)
    requires Rectangular(m, w)
    ensures SliceIndicesUpTo(m, w, SlowAxes(setCount, false)) == []
  {
  }

  // ---------------------------------------------------------------------------
  // Lines 214-219: `np.split` at the slice indices, and the blocks written with one blank line
  // between consecutive blocks.

  /** `np.split(m, cuts, axis=0)` for cuts in increasing order. */
  function SplitAt<T>(m: seq<T>, cuts: seq<nat>): seq<seq<T>>
    requires StrictlyIncreasing(cuts) && forall i :: 0 <= i < |cuts| ==> cuts[i] <= |m|
    decreases |cuts|
  {
    if cuts == [] then [m]
    else
      var c := cuts[|cuts| - 1];
      SplitAt(m[..c], cuts[..|cuts| - 1]) + [m[c..]]
  }

  /** Splitting gives one block more than there are cuts, and the blocks concatenate back to the matrix. */
  lemma {:induction false} SplitAtSpec<T>(m: seq<T>, cuts: seq<nat>)
    requires StrictlyIncreasing(cuts) && forall i :: 0 <= i < |cuts| ==> cuts[i] <= |m|
    ensures |SplitAt(m, cuts)| == |cuts| + 1
    ensures Concat(SplitAt(m, cuts)) == m
    decreases |cuts|
  {
    if cuts != [] {
      var c := cuts[|cuts| - 1];
      var init := cuts[..|cuts| - 1];
      assert forall i :: 0 <= i < |init| ==> init[i] < c;
      SplitAtSpec(m[..c], init);
      ConcatSnoc(SplitAt(m[..c], init), m[c..]);
      assert m[..c] + m[c..] == m;
    }
  }

  /** With at least one row and cuts strictly inside `1..rows-1`, no block is empty. */
  lemma {:induction false} SplitAtNonEmpty<T>(m: seq<T>, cuts: seq<nat>)
    requires |m| > 0 && StrictlyIncreasing(cuts) && forall i :: 0 <= i < |cuts| ==> 1 <= cuts[i] < |m|
    ensures forall b :: 0 <= b < |SplitAt(m, cuts)| ==> |SplitAt(m, cuts)[b]| > 0
    decreases |cuts|
  {
    if cuts != [] {
      var c := cuts[|cuts| - 1];
      var init := cuts[..|cuts| - 1];
      assert forall i :: 0 <= i < |init| ==> init[i] < c;
      SplitAtNonEmpty(m[..c], init);
      SplitAtSpec(m[..c], init);
      var front := SplitAt(m[..c], init);
      forall b | 0 <= b < |SplitAt(m, cuts)|
        ensures |SplitAt(m, cuts)[b]| > 0
      {
        if b < |front| {
          assert SplitAt(m, cuts)[b] == front[b];
        }
      }
    }
  }

  /** Line 214: the run matrix split at the slice indices of its first `setCount - 1` columns
      (none without `newline_slowaxes`) into one block more than there are cuts. The blocks
      concatenate back to the matrix, and none is empty when the matrix has a row. */
  function Blocks(m: seq<seq<int>>, w: nat, setCount: nat, newlineSlowAxes: bool): (r: seq<seq<seq<int>>>)
    requires Rectangular(m, w) && SlowAxes(setCount, newlineSlowAxes) <= w
    ensures |r| == |SliceIndicesUpTo(m, w, SlowAxes(setCount, newlineSlowAxes))| + 1
    ensures Concat(r) == m
    ensures |m| > 0 ==> forall b :: 0 <= b < |r| ==> |r[b]| > 0
  {
    var cuts := SliceIndicesUpTo(m, w, SlowAxes(setCount, newlineSlowAxes));
    SliceCuts(m, w, SlowAxes(setCount, newlineSlowAxes));
    SplitAtSpec(m, cuts);
    CutsKeepBlocks(m, cuts);
    SplitAt(m, cuts)
  }

  lemma CutsKeepBlocks(m: seq<seq<int>>, cuts: seq<nat>)
    requires StrictlyIncreasing(cuts) && forall i :: 0 <= i < |cuts| ==> 1 <= cuts[i] < |m|
    ensures |m| > 0 ==> forall b :: 0 <= b < |SplitAt(m, cuts)| ==> |SplitAt(m, cuts)[b]| > 0
  {
    if |m| > 0 {
      SplitAtNonEmpty(m, cuts);
    }
  }

  /** The rows of a block as written by `np.savetxt`. */
  function RowLines(block: seq<seq<int>>): (r: seq<Line>)
    ensures |r| == |block| && forall i :: 0 <= i < |r| ==> r[i] == Row(block[i])
  {
    seq(|block|, i requires 0 <= i < |block| => Row(block[i]))
  }

  /** Block `i` as the loop at line 215 writes it: its rows, then a blank line unless it is the last block. */
  function Piece(blocks: seq<seq<seq<int>>>, i: nat): seq<Line>
    requires i < |blocks|
  {
    RowLines(blocks[i]) + (if i != |blocks| - 1 then [Blank] else [])
  }

  /** The first `k` pieces, in order. */
  function Pieces(blocks: seq<seq<seq<int>>>, k: nat): (r: seq<seq<Line>>)
    requires k <= |blocks|
    ensures |r| == k && forall i :: 0 <= i < k ==> r[i] == Piece(blocks, i)
  {
    seq(k, i requires 0 <= i < k => Piece(blocks, i))
  }

  /** The body of the `.dat` file after the header. */
  function Layout(blocks: seq<seq<seq<int>>>): seq<Line> {
    Concat(Pieces(blocks, |blocks|))
  }

  /** The loop at lines 215-219. */
  method WriteBlocks(blocks: seq<seq<seq<int>>>) returns (lines: seq<Line>)
    ensures lines == Layout(blocks)
  {
    lines := [];
    for i := 0 to |blocks|
      invariant lines == Concat(Pieces(blocks, i))
    {
      lines := lines + RowLines(blocks[i]);
      if i != |blocks| - 1 {
        lines := lines + [Blank];
      }
      assert Pieces(blocks, i + 1) == Pieces(blocks, i) + [Piece(blocks, i)];
      ConcatSnoc(Pieces(blocks, i), Piece(blocks, i));
    }
  }

  /** The number of blank lines. */
  function Blanks(lines: seq<Line>): nat {
    if lines == [] then 0 else (if lines[0] == Blank then 1 else 0) + Blanks(lines[1..])
  }

  /** The rows, with the blank lines dropped. */
  function RowsOnly(lines: seq<Line>): seq<Line> {
    if lines == [] then [] else (if lines[0] == Blank then [] else [lines[0]]) + RowsOnly(lines[1..])
  }

  lemma {:induction false} LinesAppend(a: seq<Line>, b: seq<Line>)
    ensures Blanks(a + b) == Blanks(a) + Blanks(b)
    ensures RowsOnly(a + b) == RowsOnly(a) + RowsOnly(b)
  {
    if a != [] {
      assert (a + b)[1..] == a[1..] + b;
      LinesAppend(a[1..], b);
    } else {
      assert a + b == b;
    }
  }

  lemma {:induction false} RowLinesPlain(block: seq<seq<int>>)
    ensures Blanks(RowLines(block)) == 0 && RowsOnly(RowLines(block)) == RowLines(block)
  {
    if block != [] {
      assert RowLines(block)[1..] == RowLines(block[1..]);
      RowLinesPlain(block[1..]);
    }
  }

  lemma {:induction false} RowLinesConcat(a: seq<seq<int>>, b: seq<seq<int>>)
    ensures RowLines(a + b) == RowLines(a) + RowLines(b)
  {
  }

  /** How the first `k` pieces read: `k - 1` blank lines when they do not include the last block,
      and the rows of the first `k` blocks. */
  lemma {:induction false} PiecesSpec(blocks: seq<seq<seq<int>>>, k: nat)
    requires k <= |blocks|
    ensures Blanks(Concat(Pieces(blocks, k))) == (if k == |blocks| && k > 0 then k - 1 else k)
    ensures RowsOnly(Concat(Pieces(blocks, k))) == RowLines(Concat(blocks[..k]))
  {
    if k > 0 {
      PiecesSpec(blocks, k - 1);
      var before := Concat(Pieces(blocks, k - 1));
      assert Pieces(blocks, k) == Pieces(blocks, k - 1) + [Piece(blocks, k - 1)];
      ConcatSnoc(Pieces(blocks, k - 1), Piece(blocks, k - 1));
      var sep: seq<Line> := if k - 1 != |blocks| - 1 then [Blank] else [];
      LinesAppend(before, RowLines(blocks[k - 1]) + sep);
      LinesAppend(RowLines(blocks[k - 1]), sep);
      RowLinesPlain(blocks[k - 1]);
      assert blocks[..k] == blocks[..k - 1] + [blocks[k - 1]];
      ConcatSnoc(blocks[..k - 1], blocks[k - 1]);
      RowLinesConcat(Concat(blocks[..k - 1]), blocks[k - 1]);
    }
  }

  /** The written body has exactly one blank line between consecutive blocks (none after the last),
      and its rows are exactly the rows of the blocks, in order. */
  lemma LayoutSpec(blocks: seq<seq<seq<int>>>)
    requires |blocks| > 0
    ensures Blanks(Layout(blocks)) == |blocks| - 1
    ensures RowsOnly(Layout(blocks)) == RowLines(Concat(blocks))
    ensures Layout(blocks) == Concat(Pieces(blocks, |blocks| - 1)) + RowLines(blocks[|blocks| - 1])
  {
    PiecesSpec(blocks, |blocks|);
    assert blocks[..|blocks|] == blocks;
    var k := |blocks|;
    assert Pieces(blocks, k) == Pieces(blocks, k - 1) + [Piece(blocks, k - 1)];
    ConcatSnoc(Pieces(blocks, k - 1), Piece(blocks, k - 1));
    assert Piece(blocks, k - 1) == RowLines(blocks[k - 1]);
  }
}
