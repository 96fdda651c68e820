/** One call of `db_extractor` (db_extraction.py, lines 21-233) over a database given as values:
    the experiments with their runs, and the files the call leaves behind. The loops of the
    function are the methods at the end; each is proved equal to a fold below, whose
    properties are the lemmas in between. */
module DbExtraction {
  import opened Wrappers
  import opened Sequences
  import opened Text
  import opened Grouping
  import opened RunMatrix
  import opened Naming
  import opened Snapshot

  /** A run as the dataset reports it (lines 60-79, 161, 170, 186, 224-228): `parameterList` is
      the `run.parameters` string, `data` what `get_parameter_data` returns per parameter name,
      `comment` the `Comment` metadata (`None` where reading it raises). */
  datatype Run = Run(id: nat, name: string, timestamp: string, numberOfResults: nat, parameterList: string,
                     params: seq<ParamSpec>, data: RunData, comment: Option<string>,
                     description: Option<Json>, snapshot: Json)

  /** An experiment (lines 49-57); `runs[j - 1]` is `exp.data_set(j)`. */
  datatype Experiment = Experiment(name: string, sampleName: string, pathToDb: string, runs: seq<Run>)

  /** The keyword arguments of `db_extractor`. */
  datatype Options = Options(extractPath: Option<string>, ids: seq<int>, overwrite: bool, timestamp: bool,
                             paramToFilename: bool, newlineSlowAxes: bool, noFolders: bool, suppressOutput: bool)

  /** What a written file holds: the `.dat` header and body, a snapshot object, or nothing
      (the snapshot file is opened before `total_json` is found unbound). */
  datatype FileContent = DatFile(header: string, body: seq<Line>) | JsonFile(json: Json) | EmptyFile

  type FileSystem = map<string, FileContent>

  /** The exceptions that end the extraction. */
  datatype Error =
    | UnknownDependency(name: string)  // `param_names.index` raises ValueError (line 107)
    | MissingGroup(key: nat)           // `result_dict[i]` raises KeyError (line 168)
    | MissingColumn(column: ColumnKey)    // the parameter data has no such column (lines 178, 187)
    | RaggedColumns                    // `np.vstack` of columns of different lengths (line 193)
    | UnboundTotalJson                 // `json.dump` of an unassigned `total_json` (line 232)

  /** The files, the last value of the local `total_json`, and the exception that ended the call. */
  datatype State = State(fs: FileSystem, lastJson: Option<Json>, err: Option<Error>)

  // ---------------------------------------------------------------------------
  // One group of one run (lines 113-233).

  /** Line 66: the runs that are extracted. */
  predicate Selected(opts: Options, run: Run) {
    (|opts.ids| == 0 || run.id as int in opts.ids) && run.numberOfResults > 0
  }

  /** The folder of a run's files (lines 52, 54-57, 69-72, 124, 133, 142, 144). */
  function RunFolder(opts: Options, exp: Experiment, expIndex: nat, run: Run): string {
    var dbPath := if opts.extractPath.Some? then opts.extractPath.value else exp.pathToDb;
    Folder(dbPath, opts.noFolders, FolderString(expIndex, exp.name, exp.sampleName),
           RunFolderName(run.id, TimestampPart(opts.timestamp, run.timestamp), run.name))
  }

  /** `fullpath` (line 147) of group `i`. */
  function DatPath(opts: Options, exp: Experiment, expIndex: nat, run: Run, i: nat, many: bool): string {
    PathJoin(RunFolder(opts, exp, expIndex, run),
             DatName(FilePrefix(run.id, i, opts.noFolders, many), run.name, RunParams(opts.paramToFilename, run.parameterList)))
  }

  /** `fullpathjson` (line 148) of group `i`. */
  function JsonPath(opts: Options, exp: Experiment, expIndex: nat, run: Run, i: nat, many: bool): string {
    PathJoin(RunFolder(opts, exp, expIndex, run), JsonName(FilePrefix(run.id, i, opts.noFolders, many)))
  }

  /** Line 159 without its newline. */
  function FirstLine(run: Run, exp: Experiment): string {
    "Run #" + NatToString(run.id) + ": " + run.name + ", Experiment: " + exp.name + ", Sample name: " +
      exp.sampleName + ", Number of values: " + NatToString(run.numberOfResults)
  }

  /** Lines 160-164 without the newline: the comment, or an empty line where reading it raises. */
  function CommentLine(comment: Option<string>): string {
    match comment
    case Some(c) => "Comment: " + c + " "
    case None => ""
  }

  /** `header` after line 191. */
  function Header(run: Run, exp: Experiment, t: Table): string {
    FirstLine(run, exp) + "\n" + CommentLine(run.comment) + "\n" + t.names + "\n" + t.labels
  }

  /** A group as `result_dict` and `depend_dict` hold it can be read: it has a first measured
      parameter, and all its indices are parameters of the run. */
  lemma GroupBounds(ps: seq<ParamSpec>, g: Grouping, i: nat)
    requires Groups(ps) == Success(g) && i in g.resultDict
    ensures i in g.dependDict && |g.resultDict[i]| > 0
    ensures InRange(ps, g.resultDict[i]) && InRange(ps, g.dependDict[i])
  {
    GroupContents(ps, g, i);
    MeasuredSpec(ps);
    var k := Measured(ps)[i];
    assert k in Measured(ps);
    assert k in g.resultDict[i];
    assert forall c :: 0 <= c < |g.resultDict[i]| ==> g.resultDict[i][c] in g.resultDict[i];
    var deps := Split(Depends(ps)[i], ", ");
    forall o | 0 <= o < |g.dependDict[i]|
      ensures g.dependDict[i][o] < |ps|
    {
      assert IndexOf(Names(ps), deps[o]) == Some(g.dependDict[i][o]);
    }
  }

  /** Lines 158-194 and 206-219 for group `i`: the `.dat` file, or the exception on the way. */
  function GroupDat(run: Run, exp: Experiment, g: Grouping, i: nat, newlineSlowAxes: bool): Result<FileContent, Error>
    requires Groups(run.params) == Success(g)
  {
    if i !in g.resultDict then Failure(MissingGroup(i))
    else
      GroupBounds(run.params, g, i);
      var meas := g.resultDict[i];
      var axes := g.dependDict[i];
      match TableOf(run.params, run.data, axes, meas)
      case Failure(key) => Failure(MissingColumn(key))
      case Success(t) =>
        TableColumns(run.params, run.data, axes, meas);
        match Stack(t.columns)
        case None => Failure(RaggedColumns)
        case Some(cols) =>
          var m := Assemble(cols);
          Success(DatFile(Header(run, exp, t), Layout(Blocks(m, |cols|, |axes|, newlineSlowAxes))))
  }

  /** What pass `i` of the file loop works with: the two paths (lines 147-148) and what the
      `.dat` file is to hold, or the exception raised while building it. */
  datatype Pass = Pass(dat: string, json: string, content: Result<FileContent, Error>)

  /** Pass `i` of the file loop of a run whose groups are `g`. */
  function GroupPass(opts: Options, exp: Experiment, expIndex: nat, run: Run, g: Grouping, i: nat): Pass
    requires Groups(run.params) == Success(g)
  {
    var many := |g.resultDict| > 1;
    Pass(DatPath(opts, exp, expIndex, run, i, many), JsonPath(opts, exp, expIndex, run, i, many),
         GroupDat(run, exp, g, i, opts.newlineSlowAxes))
  }

  /** The passes of the file loop at line 113, one per group counter. */
  function Passes(opts: Options, exp: Experiment, expIndex: nat, run: Run, g: Grouping): (r: seq<Pass>)
    requires Groups(run.params) == Success(g)
    ensures |r| == |g.resultDict|
    ensures forall i :: 0 <= i < |r| ==> r[i] == GroupPass(opts, exp, expIndex, run, g, i)
  {
    seq(|g.resultDict|, i requires 0 <= i => GroupPass(opts, exp, expIndex, run, g, i))
  }

  /** One pass of the file loop (lines 145-233): an existing `.dat` file is kept unless
      `overwrite` is set, otherwise both files are written. */
  function GroupFile(st: State, overwrite: bool, run: Run, p: Pass): State {
    if st.err.Some? || (p.dat in st.fs && !overwrite) then st
    else WriteGroup(st, p.dat, p.json, p.content, run.description, run.snapshot)
  }

  /** Lines 193-232 once the `.dat` content is known: the `.dat` file, then the snapshot file. */
  function WriteGroup(st: State, dat: string, json: string, content: Result<FileContent, Error>,
                      description: Option<Json>, snapshot: Json): State
  {
    match content
    case Failure(e) => st.(err := Some(e))
    case Success(c) =>
      var fs := st.fs[dat := c];
      match TotalJson(description, snapshot, st.lastJson)
      case None => State(fs[json := EmptyFile], st.lastJson, Some(UnboundTotalJson))
      case Some(j) => State(fs[json := JsonFile(j)], Some(j), None)
  }

  /** One pass of the file loop changes at most its group's two paths, and none of them when
      the `.dat` file is kept. */
  lemma GroupFileEffect(st: State, overwrite: bool, run: Run, p: Pass)
    ensures SameOutside(st.fs, GroupFile(st, overwrite, run, p).fs, {p.dat, p.json})
    ensures p.dat in st.fs && !overwrite ==> GroupFile(st, overwrite, run, p) == st
  {
  }

  /** The first `k` passes of the file loop. */
  function GroupFiles(st: State, overwrite: bool, run: Run, passes: seq<Pass>, k: nat): State
    requires k <= |passes|
  {
    if k == 0 then st else GroupFile(GroupFiles(st, overwrite, run, passes, k - 1), overwrite, run, passes[k - 1])
  }

  /** One pass of the run loop (lines 60-233). */
  function RunStep(st: State, opts: Options, exp: Experiment, expIndex: nat, run: Run): State {
    if st.err.Some? || !Selected(opts, run) then st
    else
      match Groups(run.params)
      case Failure(name) => st.(err := Some(UnknownDependency(name)))
      case Success(g) =>
        var passes := Passes(opts, exp, expIndex, run, g);
        GroupFiles(st, opts.overwrite, run, passes, |passes|)
  }

  /** The first `k` runs of an experiment. */
  function RunsUpTo(st: State, opts: Options, exp: Experiment, expIndex: nat, k: nat): State
    requires k <= |exp.runs|
  {
    if k == 0 then st else RunStep(RunsUpTo(st, opts, exp, expIndex, k - 1), opts, exp, expIndex, exp.runs[k - 1])
  }

  /** The first `k` experiments; experiment `k` is numbered `k` in its folder name (line 47). */
  function ExpsUpTo(st: State, opts: Options, exps: seq<Experiment>, k: nat): State
    requires k <= |exps|
  {
    if k == 0 then st
    else
      var exp := exps[k - 1];
      RunsUpTo(ExpsUpTo(st, opts, exps, k - 1), opts, exp, k, |exp.runs|)
  }

  /** Lines 32-37: the database file is checked only when output is not suppressed. */
  predicate DbAccepted(dbloc: string, dbIsFile: bool, opts: Options) {
    opts.suppressOutput || (dbIsFile && EndsWith(dbloc, ".db"))
  }

  /** The whole call, from the files present before it. */
  function DbExtract(fs: FileSystem, dbloc: string, dbIsFile: bool, opts: Options, exps: seq<Experiment>): State {
    var st := State(fs, None, None);
    if DbAccepted(dbloc, dbIsFile, opts) then ExpsUpTo(st, opts, exps, |exps|) else st
  }

  // ---------------------------------------------------------------------------
  // Properties of the extraction.

  /** A run that the filter drops, or any run after an exception, changes nothing. */
  lemma UnselectedRunUnchanged(st: State, opts: Options, exp: Experiment, expIndex: nat, run: Run)
    requires st.err.Some? || !Selected(opts, run)
    ensures RunStep(st, opts, exp, expIndex, run) == st
  {
  }

  /** An existing `.dat` file with `overwrite` off: neither file of the group is written. */
  lemma ExistingFileSkipped(st: State, opts: Options, exp: Experiment, expIndex: nat, run: Run, g: Grouping, i: nat)
    requires Groups(run.params) == Success(g) && !opts.overwrite
    requires DatPath(opts, exp, expIndex, run, i, |g.resultDict| > 1) in st.fs
    ensures GroupFile(st, opts.overwrite, run, GroupPass(opts, exp, expIndex, run, g, i)) == st
  {
  }

  /** A group counter that is not a key of `result_dict` aborts the extraction with `KeyError`,
      unless its `.dat` file already exists and is kept; nothing is written for it. */
  lemma MissingKeyAborts(st: State, opts: Options, exp: Experiment, expIndex: nat, run: Run, g: Grouping, i: nat)
    requires Groups(run.params) == Success(g) && i !in g.resultDict && st.err.None?
    requires opts.overwrite || DatPath(opts, exp, expIndex, run, i, |g.resultDict| > 1) !in st.fs
    ensures GroupFile(st, opts.overwrite, run, GroupPass(opts, exp, expIndex, run, g, i)) == st.(err := Some(MissingGroup(i)))
  {
  }

  /** With parameters x, y, a(x), b(x), c(y) the groups are keyed 0 and 2, so the second
      pass of the file loop fails on key 1 unless its `.dat` file is kept. */
  lemma SecondGroupOfExampleFails(st: State, opts: Options, exp: Experiment, expIndex: nat, run: Run, g: Grouping)
    requires run.params == TwoAxesExample() && Groups(run.params) == Success(g) && st.err.None?
    requires opts.overwrite || DatPath(opts, exp, expIndex, run, 1, true) !in st.fs
    ensures |g.resultDict| == 2
    ensures GroupFile(st, opts.overwrite, run, GroupPass(opts, exp, expIndex, run, g, 1)) == st.(err := Some(MissingGroup(1)))
  {
    NonContiguousKeys();
    assert g.resultDict.Keys == {0, 2};
    assert |g.resultDict| == |g.resultDict.Keys| == |{0, 2}| == 2;
    assert (|g.resultDict| > 1) == true;
    MissingKeyAborts(st, opts, exp, expIndex, run, g, 1);
  }

  /** A grouping failure ends the run before any file is written; the reported name comes from
      the `depends_on` string of a group and is not a parameter name. */
  lemma GroupingFailureAborts(st: State, opts: Options, exp: Experiment, expIndex: nat, run: Run)
    requires st.err.None? && Selected(opts, run) && Groups(run.params).Failure?
    ensures var r := RunStep(st, opts, exp, expIndex, run);
      r.fs == st.fs && r.err.Some? && r.err.value.UnknownDependency? && r.err.value.name !in Names(run.params)
    ensures exists q ::
      (0 <= q < |Depends(run.params)| &&
       RunStep(st, opts, exp, expIndex, run).err.value.name in Split(Depends(run.params)[q], ", "))
  {
    GroupsFailure(run.params);
  }

  /** What a group's `.dat` file holds: the header of its columns, then the rows of the run
      matrix, which is the transpose of the columns, with one blank line at every slice index. */
  lemma GroupDatContent(run: Run, exp: Experiment, g: Grouping, i: nat, newlineSlowAxes: bool)
    requires Groups(run.params) == Success(g) && GroupDat(run, exp, g, i, newlineSlowAxes).Success?
    ensures i in g.resultDict && i in g.dependDict && |g.resultDict[i]| > 0
    ensures InRange(run.params, g.resultDict[i]) && InRange(run.params, g.dependDict[i])
    ensures var t := TableOf(run.params, run.data, g.dependDict[i], g.resultDict[i]);
      var f := GroupDat(run, exp, g, i, newlineSlowAxes).value;
      && t.Success? && |t.value.columns| == |g.dependDict[i]| + |g.resultDict[i]|
      && Rectangular(t.value.columns, |t.value.columns[0]|)
      && var m := Transpose(t.value.columns, |t.value.columns[0]|);
      && f.DatFile?
      && f.header == Header(run, exp, t.value)
      && RowsOnly(f.body) == RowLines(m)
      && Blanks(f.body) == |SliceIndicesUpTo(m, |t.value.columns|, SlowAxes(|g.dependDict[i]|, newlineSlowAxes))|
  {
    GroupBounds(run.params, g, i);
    var axes := g.dependDict[i];
    var meas := g.resultDict[i];
    TableColumns(run.params, run.data, axes, meas);
    var t := TableOf(run.params, run.data, axes, meas).value;
    var m := Assemble(t.columns);
    var blocks := Blocks(m, |t.columns|, |axes|, newlineSlowAxes);
    LayoutSpec(blocks);
  }

  /** The header's four lines read back: the run line, the comment line, and the column
      names and `label (unit)` fields, each followed by a tab, in column order. */
  lemma HeaderLines(run: Run, exp: Experiment, ps: seq<ParamSpec>, data: RunData, axes: seq<nat>, meas: seq<nat>)
    requires |meas| > 0 && InRange(ps, axes) && InRange(ps, meas) && TableOf(ps, data, axes, meas).Success?
    requires '\n' !in run.name && '\n' !in exp.name && '\n' !in exp.sampleName
    requires run.comment.Some? ==> '\n' !in run.comment.value
    requires forall k :: 0 <= k < |ps| ==> Plain(ps[k].name) && Plain(LabelAndUnit(ps[k]))
    ensures var lines := Split(Header(run, exp, TableOf(ps, data, axes, meas).value), "\n");
      && |lines| == 4 && lines[0] == FirstLine(run, exp) && lines[1] == CommentLine(run.comment)
      && Split(lines[2], "\t") == NamesOf(ps, axes + meas) + [""]
      && Split(lines[3], "\t") == LabelsOf(ps, axes + meas) + [""]
  {
    var t := TableOf(ps, data, axes, meas).value;
    assert InRange(ps, axes + meas);
    FieldLines(ps, axes + meas);
    FirstLinePlain(run, exp);
    FourLines(FirstLine(run, exp), CommentLine(run.comment), t.names, t.labels);
  }

  /** The two field lines of a header hold no line break and split back into their fields. */
  lemma FieldLines(ps: seq<ParamSpec>, params: seq<nat>)
    requires InRange(ps, params)
    requires forall k :: 0 <= k < |ps| ==> Plain(ps[k].name) && Plain(LabelAndUnit(ps[k]))
    ensures '\n' !in Terminated(NamesOf(ps, params), '\t') && '\n' !in Terminated(LabelsOf(ps, params), '\t')
    ensures Split(Terminated(NamesOf(ps, params), '\t'), "\t") == NamesOf(ps, params) + [""]
    ensures Split(Terminated(LabelsOf(ps, params), '\t'), "\t") == LabelsOf(ps, params) + [""]
  {
    var names := NamesOf(ps, params);
    var labels := LabelsOf(ps, params);
    assert forall c :: 0 <= c < |names| ==> Plain(names[c]);
    assert forall c :: 0 <= c < |labels| ==> Plain(labels[c]);
    TerminatedAvoids(names, '\t', '\n');
    TerminatedAvoids(labels, '\t', '\n');
    SplitTerminated(names, '\t');
    SplitTerminated(labels, '\t');
  }

  /** Neither a line break nor a tab. */
  predicate Plain(s: string) {
    '\n' !in s && '\t' !in s
  }

  lemma FirstLinePlain(run: Run, exp: Experiment)
    requires '\n' !in run.name && '\n' !in exp.name && '\n' !in exp.sampleName
    requires run.comment.Some? ==> '\n' !in run.comment.value
    ensures '\n' !in FirstLine(run, exp) && '\n' !in CommentLine(run.comment)
  {
    DigitsHaveNoSeparator(NatToString(run.id), '\n');
    DigitsHaveNoSeparator(NatToString(run.numberOfResults), '\n');
  }

  lemma FourLines(a: string, b: string, c: string, d: string)
    requires '\n' !in a && '\n' !in b && '\n' !in c && '\n' !in d
    ensures Split(a + "\n" + b + "\n" + c + "\n" + d, "\n") == [a, b, c, d]
  {
    var t := '\n';
    var s3 := c + [t] + d;
    var s2 := b + [t] + s3;
    var s1 := a + [t] + s2;
    SplitAbsent(d, t);
    SplitPeel(c, t, d);
    assert Split(s3, [t]) == [c, d];
    SplitPeel(b, t, s3);
    assert Split(s2, [t]) == [b, c, d];
    SplitPeel(a, t, s2);
    assert Split(s1, [t]) == [a, b, c, d];
    Regroup(a, b, c, d, [t]);
  }

  /** Proof step: the four lines regrouped from the right, as the split peels them. */
  lemma Regroup(a: string, b: string, c: string, d: string, sep: string)
    ensures a + sep + b + sep + c + sep + d == a + sep + (b + sep + (c + sep + d))
  {
  }

  // ---------------------------------------------------------------------------
  // What the extraction leaves alone.

  /** The paths of the first `k` passes. */
  function RunPaths(passes: seq<Pass>, k: nat): (r: set<string>)
    requires k <= |passes|
  {
    if k == 0 then {} else RunPaths(passes, k - 1) + {passes[k - 1].dat, passes[k - 1].json}
  }

  /** A path is among the first `k` passes' paths exactly when one of those passes names it. */
  lemma {:induction false} RunPathsSpec(passes: seq<Pass>, k: nat, p: string)
    requires k <= |passes|
    ensures p in RunPaths(passes, k) <==> exists i :: 0 <= i < k && (p == passes[i].dat || p == passes[i].json)
  {
    if k > 0 {
      RunPathsSpec(passes, k - 1, p);
      assert p == passes[k - 1].dat ==> 0 <= k - 1 < k && p == passes[k - 1].dat;
    }
  }

  /** `fs'` has the same files as `fs` at every path outside `paths`. */
  ghost predicate SameOutside(fs: FileSystem, fs': FileSystem, paths: set<string>) {
    forall p :: p !in paths ==> (p in fs <==> p in fs') && (p in fs ==> fs'[p] == fs[p])
  }

  /** Every `.dat` file of `fs` is still in `fs'`, unchanged. */
  ghost predicate KeepsDat(fs: FileSystem, fs': FileSystem) {
    forall p :: p in fs && EndsWith(p, ".dat") ==> p in fs' && fs'[p] == fs[p]
  }

  /** The file loop writes only the `.dat` and snapshot paths of its passes. */
  lemma {:induction false} GroupFilesFrame(st: State, overwrite: bool, run: Run, passes: seq<Pass>, k: nat)
    requires k <= |passes|
    ensures SameOutside(st.fs, GroupFiles(st, overwrite, run, passes, k).fs, RunPaths(passes, k))
  {
    if k > 0 {
      var mid := GroupFiles(st, overwrite, run, passes, k - 1);
      GroupFilesFrame(st, overwrite, run, passes, k - 1);
      GroupFileEffect(mid, overwrite, run, passes[k - 1]);
      FrameChain(st.fs, mid.fs, GroupFiles(st, overwrite, run, passes, k).fs,
                 RunPaths(passes, k - 1), {passes[k - 1].dat, passes[k - 1].json});
    }
  }

  lemma FrameChain(fs0: FileSystem, fs1: FileSystem, fs2: FileSystem, a: set<string>, b: set<string>)
    requires SameOutside(fs0, fs1, a) && SameOutside(fs1, fs2, b)
    ensures SameOutside(fs0, fs2, a + b)
  {
  }

  /** Everything outside the run's group paths is untouched by the run, and a grouping
      failure touches no file. */
  lemma RunStepFrame(st: State, opts: Options, exp: Experiment, expIndex: nat, run: Run)
    ensures Groups(run.params).Success? ==>
      var passes := Passes(opts, exp, expIndex, run, Groups(run.params).value);
      SameOutside(st.fs, RunStep(st, opts, exp, expIndex, run).fs, RunPaths(passes, |passes|))
    ensures Groups(run.params).Failure? ==> RunStep(st, opts, exp, expIndex, run).fs == st.fs
  {
    if Groups(run.params).Success? {
      var passes := Passes(opts, exp, expIndex, run, Groups(run.params).value);
      GroupFilesFrame(st, opts.overwrite, run, passes, |passes|);
    }
  }

  /** A snapshot path never ends in `.dat`. */
  lemma JsonPathNotDat(opts: Options, exp: Experiment, expIndex: nat, run: Run, i: nat, many: bool)
    ensures !EndsWith(JsonPath(opts, exp, expIndex, run, i, many), ".dat")
  {
    var prefix := FilePrefix(run.id, i, opts.noFolders, many);
    JsonNameEnds(prefix);
    JoinEndsWith(RunFolder(opts, exp, expIndex, run), JsonName(prefix), ".json");
    EndsWithOne(JsonPath(opts, exp, expIndex, run, i, many), ".json", ".dat");
  }

  /** A pass whose snapshot path is not a `.dat` path keeps every `.dat` file when `overwrite`
      is off. */
  lemma GroupFileKeepsDat(st: State, run: Run, p: Pass)
    requires !EndsWith(p.json, ".dat")
    ensures KeepsDat(st.fs, GroupFile(st, false, run, p).fs)
  {
    var r := GroupFile(st, false, run, p);
    GroupFileEffect(st, false, run, p);
    forall q | q in st.fs && EndsWith(q, ".dat")
      ensures q in r.fs && r.fs[q] == st.fs[q]
    {
      if q == p.dat {
        assert r == st;
      } else {
        assert q !in {p.dat, p.json};
      }
    }
  }

  lemma {:induction false} GroupFilesKeepDat(st: State, run: Run, passes: seq<Pass>, k: nat)
    requires k <= |passes| && forall i :: 0 <= i < |passes| ==> !EndsWith(passes[i].json, ".dat")
    ensures KeepsDat(st.fs, GroupFiles(st, false, run, passes, k).fs)
  {
    if k > 0 {
      GroupFilesKeepDat(st, run, passes, k - 1);
      GroupFileKeepsDat(GroupFiles(st, false, run, passes, k - 1), run, passes[k - 1]);
    }
  }

  lemma {:induction false} RunsKeepDat(st: State, opts: Options, exp: Experiment, expIndex: nat, k: nat)
    requires k <= |exp.runs| && !opts.overwrite
    ensures KeepsDat(st.fs, RunsUpTo(st, opts, exp, expIndex, k).fs)
  {
    if k > 0 {
      RunsKeepDat(st, opts, exp, expIndex, k - 1);
      var before := RunsUpTo(st, opts, exp, expIndex, k - 1);
      var run := exp.runs[k - 1];
      if before.err.None? && Selected(opts, run) && Groups(run.params).Success? {
        var g := Groups(run.params).value;
        var passes := Passes(opts, exp, expIndex, run, g);
        forall i | 0 <= i < |passes|
          ensures !EndsWith(passes[i].json, ".dat")
        {
          JsonPathNotDat(opts, exp, expIndex, run, i, |g.resultDict| > 1);
        }
        GroupFilesKeepDat(before, run, passes, |passes|);
      }
    }
  }

  lemma {:induction false} ExpsKeepDat(st: State, opts: Options, exps: seq<Experiment>, k: nat)
    requires k <= |exps| && !opts.overwrite
    ensures KeepsDat(st.fs, ExpsUpTo(st, opts, exps, k).fs)
  {
    if k > 0 {
      ExpsKeepDat(st, opts, exps, k - 1);
      RunsKeepDat(ExpsUpTo(st, opts, exps, k - 1), opts, exps[k - 1], k, |exps[k - 1].runs|);
    }
  }

  /** With `overwrite` off no `.dat` file that existed before the call is changed or removed,
      whatever the runs, and however the call ends. */
  lemma NoOverwriteKeepsDat(fs: FileSystem, dbloc: string, dbIsFile: bool, opts: Options, exps: seq<Experiment>)
    requires !opts.overwrite
    ensures KeepsDat(fs, DbExtract(fs, dbloc, dbIsFile, opts, exps).fs)
  {
    ExpsKeepDat(State(fs, None, None), opts, exps, |exps|);
  }

  /** A database path that is not an existing `.db` file ends the call before anything is
      written, unless output is suppressed, in which case it is not checked. */
  lemma RejectedDatabase(fs: FileSystem, dbloc: string, dbIsFile: bool, opts: Options, exps: seq<Experiment>)
    requires !opts.suppressOutput && !(dbIsFile && EndsWith(dbloc, ".db"))
    ensures DbExtract(fs, dbloc, dbIsFile, opts, exps) == State(fs, None, None)
  {
  }

  // ---------------------------------------------------------------------------
  // An exception ends the loops.

  lemma {:induction false} GroupFilesSticky(st: State, overwrite: bool, run: Run, passes: seq<Pass>, i: nat, k: nat)
    requires i <= k <= |passes| && GroupFiles(st, overwrite, run, passes, i).err.Some?
    ensures GroupFiles(st, overwrite, run, passes, k) == GroupFiles(st, overwrite, run, passes, i)
    decreases k
  {
    if k > i {
      GroupFilesSticky(st, overwrite, run, passes, i, k - 1);
    }
  }

  lemma {:induction false} RunsSticky(st: State, opts: Options, exp: Experiment, expIndex: nat, i: nat, k: nat)
    requires i <= k <= |exp.runs| && RunsUpTo(st, opts, exp, expIndex, i).err.Some?
    ensures RunsUpTo(st, opts, exp, expIndex, k) == RunsUpTo(st, opts, exp, expIndex, i)
    decreases k
  {
    if k > i {
      RunsSticky(st, opts, exp, expIndex, i, k - 1);
    }
  }

  lemma {:induction false} ExpsSticky(st: State, opts: Options, exps: seq<Experiment>, i: nat, k: nat)
    requires i <= k <= |exps| && ExpsUpTo(st, opts, exps, i).err.Some?
    ensures ExpsUpTo(st, opts, exps, k) == ExpsUpTo(st, opts, exps, i)
    decreases k
  {
    if k > i {
      ExpsSticky(st, opts, exps, i, k - 1);
      RunsSticky(ExpsUpTo(st, opts, exps, k - 1), opts, exps[k - 1], k, 0, |exps[k - 1].runs|);
    }
  }

  // ---------------------------------------------------------------------------
  // The loops of `db_extractor`.

  /** Lines 158-194 for group `i`: the header, the columns and the run matrix, cut into blocks. */
  method BuildDat(run: Run, exp: Experiment, g: Grouping, i: nat, newlineSlowAxes: bool)
    returns (r: Result<FileContent, Error>)
    requires Groups(run.params) == Success(g)
    ensures r == GroupDat(run, exp, g, i, newlineSlowAxes)
  {
    if i !in g.resultDict {
      return Failure(MissingGroup(i));
    }
    GroupBounds(run.params, g, i);
    var measParams := g.resultDict[i];
    var setParams := g.dependDict[i];
    var table := CollectColumns(run.params, run.data, setParams, measParams);
    if table.Failure? {
      return Failure(MissingColumn(table.error));
    }
    var t := table.value;
    TableColumns(run.params, run.data, setParams, measParams);
    var stacked := Stack(t.columns);
    if stacked.None? {
      return Failure(RaggedColumns);
    }
    var runMatrix := Assemble(stacked.value);
    var width := |t.columns|;
    var slice := SliceIndices(runMatrix, width, |setParams|, newlineSlowAxes);
    SliceCuts(runMatrix, width, SlowAxes(|setParams|, newlineSlowAxes));
    var vsliced := SplitAt(runMatrix, slice);
    var lines := WriteBlocks(vsliced);
    r := Success(DatFile(Header(run, exp, t), lines));
  }

  /** Lines 145-233 for group `i`, once the run's dictionaries are built. */
  method ExtractGroup(st: State, opts: Options, exp: Experiment, expIndex: nat, run: Run, g: Grouping, i: nat)
    returns (r: State)
    requires st.err.None? && Groups(run.params) == Success(g)
    ensures r == GroupFile(st, opts.overwrite, run, GroupPass(opts, exp, expIndex, run, g, i))
  {
    var many := |g.resultDict| > 1;
    var fullpath := DatPath(opts, exp, expIndex, run, i, many);
    var fullpathJson := JsonPath(opts, exp, expIndex, run, i, many);
    if fullpath in st.fs && !opts.overwrite {
      return st;
    }
    var content := BuildDat(run, exp, g, i, opts.newlineSlowAxes);
    if content.Failure? {
      return st.(err := Some(content.error));
    }
    var fs := st.fs[fullpath := content.value];
    var totalJson := TotalJson(run.description, run.snapshot, st.lastJson);
    if totalJson.None? {
      return State(fs[fullpathJson := EmptyFile], st.lastJson, Some(UnboundTotalJson));
    }
    r := State(fs[fullpathJson := JsonFile(totalJson.value)], totalJson, None);
  }

  /** Lines 60-233 for one run. */
  method ExtractRun(st: State, opts: Options, exp: Experiment, expIndex: nat, run: Run) returns (r: State)
    requires st.err.None?
    ensures r == RunStep(st, opts, exp, expIndex, run)
  {
    if !Selected(opts, run) {
      return st;
    }
    var paramNames, grouping := GroupParameters(run.params);
    if grouping.Failure? {
      return st.(err := Some(UnknownDependency(grouping.error)));
    }
    var g := grouping.value;
    ghost var passes := Passes(opts, exp, expIndex, run, g);
    r := st;
    for i := 0 to |g.resultDict|
      invariant r == GroupFiles(st, opts.overwrite, run, passes, i) && r.err.None?
    {
      r := ExtractGroup(r, opts, exp, expIndex, run, g, i);
      if r.err.Some? {
        GroupFilesSticky(st, opts.overwrite, run, passes, i + 1, |passes|);
        return;
      }
    }
  }

  /** The run loop at line 59 for experiment number `expIndex`. */
  method ExtractExperiment(st: State, opts: Options, exp: Experiment, expIndex: nat) returns (r: State)
    requires st.err.None?
    ensures r == RunsUpTo(st, opts, exp, expIndex, |exp.runs|)
  {
    r := st;
    for j := 0 to |exp.runs|
      invariant r == RunsUpTo(st, opts, exp, expIndex, j) && r.err.None?
    {
      r := ExtractRun(r, opts, exp, expIndex, exp.runs[j]);
      if r.err.Some? {
        RunsSticky(st, opts, exp, expIndex, j + 1, |exp.runs|);
        return;
      }
    }
  }

  /** `db_extractor`: the database check, then the experiment loop at line 47. */
  method DbExtractor(fs: FileSystem, dbloc: string, dbIsFile: bool, opts: Options, exps: seq<Experiment>)
    returns (r: State)
    ensures r == DbExtract(fs, dbloc, dbIsFile, opts, exps)
  {
    var st := State(fs, None, None);
    r := st;
    if !opts.suppressOutput {
      if !(dbIsFile && EndsWith(dbloc, ".db")) {
        return;
      }
    }
    for i := 1 to |exps| + 1
      invariant r == ExpsUpTo(st, opts, exps, i - 1) && r.err.None?
    {
      r := ExtractExperiment(r, opts, exps[i - 1], i);
      if r.err.Some? {
        ExpsSticky(st, opts, exps, i, |exps|);
        return;
      }
    }
  }
}
