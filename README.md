# QCTools extraction and sweep helpers in Dafny

This project models two pieces of QCTools, a Python toolbox for qcodes measurements.

1. `db_extractor` (qctools/db_extraction.py) turns a qcodes database into a folder tree of
   tab-separated `.dat` files and JSON snapshot files, one pair per group of measured
   parameters of each run.
2. The setpoint helpers of `doNd` (qctools/doNd.py):
   - `unique`;
   - the meshgrids `cartprod` and `cartprodmeander`;
   - the change mask and the order in which set parameters are driven in `run_measurement`;
   - the ramp-step and delay correction `safetyratesdelays`;
   - the argument checks at the top of `doNd`.

The qcodes database is an input value: experiments, runs, parameters with their
`depends_on` strings, value columns, comment, description and snapshot. The files on disk are
a map from path to content. `db_extractor` is a method with the loops of the source, proved
equal to a fold (`DbExtraction.DbExtract`), and the properties are lemmas about that fold and its
pieces:
- run filter;
- dependency grouping;
- naming;
- overwrite skip;
- header;
- run matrix;
- slow-axis slicing;
- JSON merge.

Setpoints are integers, because the helpers only compare, copy and reorder them. Steps and
delays are reals. Two facts about the extraction code shape the model:
- `np.vstack` raises on columns of different lengths.
- Any exception ends the whole call. Only the comment lookup (lines 160-164) catches one.

Modules, one per file:
- `Wrappers`: `Option` and `Result`.
- `Sequences`: sorted index lists, `list.index`, concatenation.
- `Text`: `str.replace`, `split`, `join`, `str(n)`, `'{:0wd}'.format`, `endswith`,
  `os.path.join`.
- `Naming`: lines 52, 70 and 113-148 of db_extraction.py.
- `Grouping`: lines 83-109.
- `RunMatrix`: lines 167-219.
- `Snapshot`: lines 222-232.
- `DbExtraction`: the whole function.
- `Setpoints`: `unique`, `cartprod` and `cartprodmeander`.
- `SetOrder`: the change mask and set order.
- `SafetyRates`: `safetyratesdelays`.
- `DoNd`: argument validation.

Extraction behaviours the model keeps as written:
- Group keys come from a counter that advances for every measured parameter, so with parameters
  x, y, a(x), b(x), c(y) the keys are 0 and 2. The file loop reads key 1 and fails with
  `KeyError`, unless the `.dat` file of that pass already exists and is kept
  (`Grouping.NonContiguousKeys`, `DbExtraction.SecondGroupOfExampleFails`).
- `total_json` is a local of the whole call. A run without a description writes the object of
  an earlier group, or leaves an empty file and raises when there was none
  (`Snapshot.TotalJsonSpec`).

## Model

| member | source | states |
|---|---|---|
| DbExtraction.Selected | qctools/db_extraction.py:66 | a run is extracted iff the id filter is empty or contains its id, and it has results |
| DbExtraction.UnselectedRunUnchanged | qctools/db_extraction.py:66 | a run the filter drops, or any run after an exception, leaves the state unchanged |
| DbExtraction.GroupBounds | qctools/db_extraction.py:168-170 | a key of `result_dict` is also a key of `depend_dict`, its first measured parameter exists, and every index is a parameter of the run |
| DbExtraction.GroupFileEffect | qctools/db_extraction.py:145-233 | one pass changes no path but its own two, and changes nothing when the `.dat` file exists and `overwrite` is off |
| DbExtraction.ExistingFileSkipped | qctools/db_extraction.py:153-156 | an existing `.dat` file with `overwrite` off: neither file of the group is written |
| DbExtraction.MissingKeyAborts | qctools/db_extraction.py:168 | a group counter missing from `result_dict` aborts with `KeyError` and writes nothing, unless its `.dat` file is kept |
| DbExtraction.SecondGroupOfExampleFails | qctools/db_extraction.py:96-113 | with x, y, a(x), b(x), c(y) there are two groups, and pass 1 aborts on key 1 |
| DbExtraction.GroupingFailureAborts | qctools/db_extraction.py:103-107 | an unknown dependency name aborts the run with no file written; the name comes from a measured parameter's split `depends_on` and is not a parameter name |
| DbExtraction.GroupDatContent | qctools/db_extraction.py:158-219 | a `.dat` file holds the header, then the rows of the transposed columns, with as many blank lines as slice indices |
| DbExtraction.HeaderLines | qctools/db_extraction.py:158-191 | the header has four lines: the run line, the comment line (empty when there is no comment), and the names and `label (unit)` fields, set axes first, each followed by a tab |
| DbExtraction.FieldLines | qctools/db_extraction.py:177-191 | the name and label lines hold no newline and split on tabs back into their fields plus an empty tail |
| DbExtraction.FirstLinePlain | qctools/db_extraction.py:159-164 | the run and comment lines hold no newline when the names and the comment hold none |
| DbExtraction.RunPathsSpec | qctools/db_extraction.py:147-148 | a path is among a run's written paths iff some pass names it as its `.dat` or snapshot path |
| DbExtraction.GroupFilesFrame | qctools/db_extraction.py:113-233 | the file loop changes no path outside its passes' paths |
| DbExtraction.RunStepFrame | qctools/db_extraction.py:59-233 | a run changes only its groups' paths, and none when grouping fails |
| DbExtraction.JsonPathNotDat | qctools/db_extraction.py:148 | a snapshot path never ends in `.dat` |
| DbExtraction.GroupFileKeepsDat | qctools/db_extraction.py:153-156 | with `overwrite` off a pass keeps every existing `.dat` file |
| DbExtraction.GroupFilesKeepDat | qctools/db_extraction.py:113-233 | with `overwrite` off the file loop of a run keeps every existing `.dat` file |
| DbExtraction.RunsKeepDat | qctools/db_extraction.py:59-233 | with `overwrite` off the runs of an experiment keep every existing `.dat` file |
| DbExtraction.ExpsKeepDat | qctools/db_extraction.py:47-233 | with `overwrite` off the experiments keep every existing `.dat` file |
| DbExtraction.NoOverwriteKeepsDat | qctools/db_extraction.py:153 | with `overwrite` off no `.dat` file present before the call is changed or removed, however the call ends |
| DbExtraction.RejectedDatabase | qctools/db_extraction.py:32-37 | a path that is not an existing `.db` file ends the call with nothing written, unless output is suppressed |
| DbExtraction.GroupFilesSticky | qctools/db_extraction.py:113-233 | after an exception the remaining passes change nothing |
| DbExtraction.RunsSticky | qctools/db_extraction.py:59 | after an exception the remaining runs change nothing |
| DbExtraction.ExpsSticky | qctools/db_extraction.py:47 | after an exception the remaining experiments change nothing |
| DbExtraction.BuildDat | qctools/db_extraction.py:158-219 | builds the `.dat` content of group `i`, or the exception raised on the way, as `GroupDat` defines it |
| DbExtraction.ExtractGroup | qctools/db_extraction.py:145-233 | one pass of the file loop, as `GroupFile` defines it |
| DbExtraction.ExtractRun | qctools/db_extraction.py:60-233 | one run, as `RunStep` defines it |
| DbExtraction.ExtractExperiment | qctools/db_extraction.py:59-233 | the run loop of one experiment, as `RunsUpTo` defines it |
| DbExtraction.DbExtractor | qctools/db_extraction.py:32-233 | the whole call, as `DbExtract` defines it |
| Grouping.IndicesWhereIncreasing | qctools/db_extraction.py:86-90 | the selected indices are increasing and in range |
| Grouping.IndicesWhereMembers | qctools/db_extraction.py:86-90 | an index is selected iff it is in range and its parameter passes the test |
| Grouping.MeasuredSpec | qctools/db_extraction.py:88-90 | `meas_params` lists, in increasing order, exactly the parameters with a non-empty `depends_on` |
| Grouping.EqualDependsSpec | qctools/db_extraction.py:99 | `params_with_equal_depends` lists, in increasing order, exactly the measured parameters whose `depends_on` equals the given string |
| Grouping.AxisIndicesSpec | qctools/db_extraction.py:103-107 | `depsind` exists iff every split name is a parameter name; entry `o` is the first index of name `o`; otherwise the error is the first unknown name |
| Grouping.FirstOccurrence | qctools/db_extraction.py:98-100 | a repeated string shares its value with an earlier position that starts a group |
| Grouping.NewGroupTest | qctools/db_extraction.py:100 | the test `not in result_dict.values()` holds iff the position is the first with its string |
| Grouping.StepOutcome | qctools/db_extraction.py:98-109 | one loop iteration keeps the description of the dictionaries built so far |
| Grouping.GroupsUpToSpec | qctools/db_extraction.py:96-109 | after `p` iterations the dictionaries hold one entry per first occurrence, keyed by its position, or the first unknown name |
| Grouping.RunSeparates | qctools/db_extraction.py:99 | different `depends_on` strings have different `params_with_equal_depends` lists |
| Grouping.GroupsOutcome | qctools/db_extraction.py:83-109 | the grouping of a run is what the loop computes on its measured parameters |
| Grouping.GroupsSucceed | qctools/db_extraction.py:103-107 | grouping succeeds iff every group's dependency names are parameter names |
| Grouping.GroupKeys | qctools/db_extraction.py:96-109 | the keys are exactly the positions in `meas_params` that start a group, and both dictionaries have the same keys |
| Grouping.GroupContents | qctools/db_extraction.py:99-108 | a group lists, in increasing order, exactly the measured parameters with its first member's string, and its axes are that string's split names resolved |
| Grouping.ExactlyOneGroup | qctools/db_extraction.py:98-102 | every measured parameter lies in exactly one group |
| Grouping.OneGroupPerDistinctDepends | qctools/db_extraction.py:98-102 | different groups have different strings, and every measured parameter's string has a group |
| Grouping.GroupsFailure | qctools/db_extraction.py:106-107 | a failed grouping names an unknown name of some measured parameter's split `depends_on` |
| Grouping.CollectParameters | qctools/db_extraction.py:83-90 | the loop computes `param_names` and `meas_params` |
| Grouping.ResolveAxes | qctools/db_extraction.py:105-107 | the loop computes `depsind`, or the first unknown name |
| Grouping.PrefixFailure | qctools/db_extraction.py:106-107 | once a prefix of the names fails, the whole list fails with the same name |
| Grouping.GroupIteration | qctools/db_extraction.py:99-109 | the loop body for position `n`, as `GroupStep` defines it |
| Grouping.GroupLoop | qctools/db_extraction.py:98-109 | the loop over `meas_params`, as `GroupsUpTo` defines it |
| Grouping.GroupParameters | qctools/db_extraction.py:83-109 | `param_names` and the grouping of the run |
| Grouping.FailureSticks | qctools/db_extraction.py:107 | a failure in the first `p` iterations is the result of the whole loop |
| Grouping.TwoAxesExampleMeasured | qctools/db_extraction.py:88-90 | for x, y, a(x), b(x), c(y) `meas_params` is [2, 3, 4] |
| Grouping.TwoAxesExampleDepends | qctools/db_extraction.py:89 | for that example the strings are x, x, y |
| Grouping.TwoAxesExampleAxes | qctools/db_extraction.py:103-107 | for that example both strings resolve |
| Grouping.RepeatedThenNewKeys | qctools/db_extraction.py:96-109 | with strings that repeat and then change, the keys are exactly 0 and 2 |
| Grouping.NonContiguousKeys | qctools/db_extraction.py:109 | for x, y, a(x), b(x), c(y) grouping succeeds with keys exactly 0 and 2 |
| RunMatrix.LookupColumnsSpec | qctools/db_extraction.py:177-187 | reading columns succeeds iff every key is present, and then yields column `c` from key `c`; otherwise it reports the first missing key |
| RunMatrix.LookupColumnsAppend | qctools/db_extraction.py:177-187 | reading `a + b` reads `a`, then `b` |
| RunMatrix.TableColumns | qctools/db_extraction.py:176-189 | a successful table has the set-axis columns, read from the first measured parameter's data, then the measured columns, each read from the parameter itself |
| RunMatrix.TableMissing | qctools/db_extraction.py:177-187 | the table fails iff some key is missing, and it reports the first missing key in column order |
| RunMatrix.TerminatedAppend | qctools/db_extraction.py:179-189 | tab-terminated fields of `a + b` are those of `a`, then `b` |
| RunMatrix.ExtendStep | qctools/db_extraction.py:177-189 | one more parameter appends its column and fields, or reports its missing key |
| RunMatrix.FieldsStep | qctools/db_extraction.py:179-189 | the header fields of `c + 1` parameters extend those of `c` |
| RunMatrix.ExtendFails | qctools/db_extraction.py:177-189 | a missing key among the first `c` parameters is the result for all of them |
| RunMatrix.ReadColumns | qctools/db_extraction.py:177-189 | the column loop, as `Extend` defines it |
| RunMatrix.PrefixFailsAll | qctools/db_extraction.py:177-187 | a failure of a prefix is the failure of the whole read |
| RunMatrix.TableParts | qctools/db_extraction.py:176-189 | the table is the set-axis part followed by the measured part |
| RunMatrix.CollectColumns | qctools/db_extraction.py:167-189 | both column loops, as `TableOf` defines them |
| RunMatrix.FlipRotIsTranspose | qctools/db_extraction.py:194 | `flipud(rot90(m, k=-1, axes=(1,0)))` is the transpose |
| RunMatrix.TransposeTwice | qctools/db_extraction.py:194 | transposing twice gives the columns back |
| RunMatrix.Assemble | qctools/db_extraction.py:193-194 | the run matrix is the transpose of the columns |
| RunMatrix.ChangeRowsSpec | qctools/db_extraction.py:212 | the rows where a column changes from the row before, in increasing order |
| RunMatrix.ChangeRowsIncreasing | qctools/db_extraction.py:212 | those rows are increasing and below the row count |
| RunMatrix.ChangeRowsMembers | qctools/db_extraction.py:212 | a row is listed iff the column changes there |
| RunMatrix.MergeSpec | qctools/db_extraction.py:212-213 | `np.unique(np.concatenate(...))` of two sorted lists is sorted and holds exactly the elements of both |
| RunMatrix.MergeHead | qctools/db_extraction.py:213 | an element below a merged tail can be put in front |
| RunMatrix.SliceIndicesSpec | qctools/db_extraction.py:210-213 | after `i` passes `slicearray` is sorted and holds exactly the rows where one of the first `i` columns changes |
| RunMatrix.SliceIndices | qctools/db_extraction.py:206-213 | the loop computes the slice indices over the slow axes: all set axes but the last, or none |
| RunMatrix.SliceCuts | qctools/db_extraction.py:210-213 | the slice indices are increasing and lie in `1..rows-1` |
| RunMatrix.NoSlowAxesNoSlices | qctools/db_extraction.py:206-209 | with `newline_slowaxes` off there are no slice indices |
| RunMatrix.SplitAtSpec | qctools/db_extraction.py:214 | `np.split` at `c` cuts gives `c + 1` blocks that concatenate back to the matrix |
| RunMatrix.SplitAtNonEmpty | qctools/db_extraction.py:214 | with cuts strictly inside the rows, no block is empty |
| RunMatrix.Blocks | qctools/db_extraction.py:214 | one block more than slice indices, concatenating back to the matrix, none empty when the matrix has rows |
| RunMatrix.CutsKeepBlocks | qctools/db_extraction.py:214 | valid cuts give non-empty blocks |
| RunMatrix.WriteBlocks | qctools/db_extraction.py:215-219 | the write loop, as `Layout` defines it |
| RunMatrix.LinesAppend | qctools/db_extraction.py:215-219 | blank lines and rows of `a + b` are those of `a`, then `b` |
| RunMatrix.RowLinesPlain | qctools/db_extraction.py:216 | a block's row lines hold no blank line |
| RunMatrix.RowLinesConcat | qctools/db_extraction.py:216 | row lines of concatenated blocks concatenate |
| RunMatrix.PiecesSpec | qctools/db_extraction.py:215-219 | the first `k` pieces hold `k` blank lines, one fewer when they include the last block, and the rows of the first `k` blocks |
| RunMatrix.LayoutSpec | qctools/db_extraction.py:215-219 | the body has exactly one blank line between consecutive blocks and none after the last, and all rows in order |
| Naming.TimestampSpec | qctools/db_extraction.py:70 | the three replacements act character by character, and no `:` or space is left |
| Naming.NoSpaces | qctools/db_extraction.py:144-146 | no space is left in the folder or in either file name |
| Naming.ReplaceAround | qctools/db_extraction.py:144-146 | replacing spaces keeps a space-free prefix and suffix in place |
| Naming.DigitsHaveNoSeparator | qctools/db_extraction.py:124 | a digit string holds no separator character |
| Naming.TakeUntilPiece | qctools/db_extraction.py:133 | `split(c)[0]` of `piece + c + rest` is `piece` when `piece` lacks `c` |
| Naming.ReplaceKeepsSuffix | qctools/db_extraction.py:145-146 | replacing spaces keeps a space-free suffix at the end |
| Naming.DatNameEnds | qctools/db_extraction.py:117-145 | a `.dat` name ends in `.dat` |
| Naming.JsonNameEnds | qctools/db_extraction.py:118-146 | a snapshot name ends in `.json` |
| Naming.DatAndJsonDiffer | qctools/db_extraction.py:147-148 | a group's `.dat` and snapshot paths differ |
| Naming.ReadGroup | qctools/db_extraction.py:137-145 | the text between the lead and the next `_` of a group's file name is the group counter |
| Naming.GroupNamesDiffer | qctools/db_extraction.py:137-145 | names with different group counters differ |
| Naming.GroupDatNamesDiffer | qctools/db_extraction.py:128-145 | with more than one group, different groups of a run get different `.dat` names |
| Naming.GroupJsonNamesDiffer | qctools/db_extraction.py:129-146 | with more than one group, different groups of a run get different snapshot names |
| Naming.NoFoldersRunsDiffer | qctools/db_extraction.py:128-133 | with `no_folders`, runs with different ids get different `.dat` names |
| Naming.RunIdPrefix | qctools/db_extraction.py:128-131 | a name starting with `{runid:03d}-` shows the padded id before its first `-` |
| Snapshot.MergeObjects | qctools/db_extraction.py:225 | `{**a, **b}` has the members of both, with `b`'s value on shared members |
| Snapshot.TotalJsonSpec | qctools/db_extraction.py:224-232 | with a description the object written is description merged with snapshot; without one it is the value an earlier group left |
| Snapshot.SnapshotPrecedence | qctools/db_extraction.py:225 | the written object has the snapshot's value on every snapshot member and the description's on the others, and no other member |
| Text.Replace | qctools/db_extraction.py:144-146 | the replaced character is gone when the replacement lacks it |
| Text.ReplaceAppend | qctools/db_extraction.py:144-146 | replacement distributes over concatenation |
| Text.ReplaceByChar | qctools/db_extraction.py:144-146 | a one-character replacement keeps the length and acts position by position |
| Text.ReplaceAbsent | qctools/db_extraction.py:144-146 | replacing an absent character changes nothing |
| Text.Split | qctools/db_extraction.py:104 | `split` yields at least one piece |
| Text.JoinSplit | qctools/db_extraction.py:104 | joining the pieces of a split with the separator gives the string back |
| Text.JoinEmptyFirst | qctools/db_extraction.py:104 | joining with an empty first piece starts with the separator |
| Text.JoinExtendFirst | qctools/db_extraction.py:104 | a character in front of the first piece is in front of the join |
| Text.SplitPeel | qctools/db_extraction.py:104 | a leading separator-free piece is peeled off a split |
| Text.SplitAbsent | qctools/db_extraction.py:104 | a string without the separator is one piece |
| Text.TerminatedAvoids | qctools/db_extraction.py:179-189 | a character other than the tab is in a tab-terminated line only if it is in a field |
| Text.SplitTerminated | qctools/db_extraction.py:179-189 | splitting a tab-terminated line gives the fields and an empty tail |
| Text.TakeUntil | qctools/db_extraction.py:133 | `s.split(c)[0]` is a prefix of `s` without `c` that ends at the first `c` |
| Text.TakeUntilIsFirstPiece | qctools/db_extraction.py:133 | it is the first piece of the split |
| Text.TakeUntilAt | qctools/db_extraction.py:133 | a `c`-free prefix followed by `c` is that part |
| Text.DigitChar | qctools/db_extraction.py:117 | a digit value less than 10 gives a digit character |
| Text.NatToString | qctools/db_extraction.py:117 | `str(n)` is a non-empty string of digits |
| Text.ParseNatToString | qctools/db_extraction.py:117 | `str(n)` reads back as `n` |
| Text.Zeros | qctools/db_extraction.py:124 | padding zeros are `k` digits |
| Text.ParseNatLeadingZeros | qctools/db_extraction.py:124 | leading zeros do not change the value read |
| Text.ZerosSnoc | qctools/db_extraction.py:124 | `k + 1` zeros are `k` zeros and one more |
| Text.ZeroPad | qctools/db_extraction.py:124 | `'{:03d}'.format(n)` is a string of digits |
| Text.ZeroPadSpec | qctools/db_extraction.py:124 | it has length max(width, digits of `n`), reads back as `n`, and is `str(n)` when that is wide enough |
| Text.EndsWithOne | qctools/db_extraction.py:147-148 | a string cannot end in two suffixes whose last characters differ |
| Text.PathJoin | qctools/db_extraction.py:142 | `os.path.join(a, b)` ends in `b`, and is `b` when `b` is absolute |
| Text.JoinEndsWith | qctools/db_extraction.py:147-148 | a joined path ends like its last part |
| Sequences.IncreasingSnoc | qctools/db_extraction.py:90 | appending an element above all others keeps a list strictly increasing |
| Sequences.IndexOf | qctools/db_extraction.py:107 | `list.index(x)` is absent iff `x` is absent, and otherwise is the first position of `x` |
| Sequences.IndexOfPrefix | qctools/db_extraction.py:107 | a prefix holding `x` finds the same first position |
| Sequences.ConcatSnoc | qctools/db_extraction.py:214 | concatenation of blocks and one more block |
| Sequences.IncreasingUnique | qctools/db_extraction.py:213 | two sorted duplicate-free lists with the same elements are equal |
| Setpoints.Unique | qctools/doNd.py:19-29 | the result lists every element of the input once, in order of first occurrence, and nothing else |
| Setpoints.FirstInLonger | qctools/doNd.py:25-28 | an element seen already keeps its first position as the loop reads on |
| Setpoints.FirstOfNew | qctools/doNd.py:27-28 | an element not yet seen is first seen at the current position |
| Setpoints.FirstOccurrencesUnique | qctools/doNd.py:19-29 | the result is determined: two lists of first occurrences of the same input are equal |
| Setpoints.Positions | qctools/doNd.py:19-29 | the first positions of the result's elements in the input are strictly increasing |
| Setpoints.Mesh | qctools/doNd.py:76-77 | the mesh has prod(len(a_j)) rows of N values |
| Setpoints.MeshRow | qctools/doNd.py:76-77 | row `k` is row `k / l` of the mesh of the first arrays extended by element `k % l` of the last |
| Setpoints.RankUnrank | qctools/doNd.py:76-77 | a row number is the rank of its index tuple |
| Setpoints.UnrankRank | qctools/doNd.py:76-77 | an index tuple is the tuple of its rank |
| Setpoints.UnrankIncreasing | qctools/doNd.py:76-77 | later rows have lexicographically later index tuples: the last axis varies fastest |
| Setpoints.MeshTuple | qctools/doNd.py:76-77 | row `k` holds the values at the `k`-th index tuple |
| Setpoints.CartProdRows | qctools/doNd.py:74-78 | `cartprod` has one row per index tuple, in lexicographic order, row `k` holding `(a_0[i_0], ..., a_{N-1}[i_{N-1}])`, and every tuple has a row |
| Setpoints.Reverse | qctools/doNd.py:87 | `[::-1]`: entry `t` is entry `len - 1 - t` of the input |
| Setpoints.ReverseMultiset | qctools/doNd.py:87 | reversing keeps the elements and their counts |
| Setpoints.MeanderMesh | qctools/doNd.py:80-88 | the meander has as many rows of N values as the mesh |
| Setpoints.MeanderBlocksRow | qctools/doNd.py:84-87 | row `k` of the meander blocks keeps block `k / l`'s slow values and takes the fast value of the mirrored row |
| Setpoints.MeanderRow | qctools/doNd.py:84-87 | meander row `k` is mesh row `MeanderIndex(k)`: all columns but the last equal mesh row `k`, and the last column is reversed inside every odd block |
| Setpoints.MeanderIndexInvolution | qctools/doNd.py:87 | mirroring twice is the identity |
| Setpoints.MeanderPermutation | qctools/doNd.py:80-88 | the meander's rows are those of `cartprod`, each as often |
| Setpoints.MeanderStep | qctools/doNd.py:84-87 | the fast value moves by one along the last array, forward or backward, and repeats where a block meets the next |
| Setpoints.PartialMeanderStep | qctools/doNd.py:85-87 | pass `i` mirrors block `2i + 1` and changes no other row |
| Setpoints.PartialMeanderDone | qctools/doNd.py:84-85 | after `int(len/L/2)` passes every odd block is mirrored |
| Setpoints.ReverseSegment | qctools/doNd.py:87 | the slice of the last column is reversed in place and nothing else changes |
| Setpoints.FastColumnStep | qctools/doNd.py:85-87 | mirroring block `2i + 1` takes the last column from `i` passes to `i + 1` |
| Setpoints.MeanderPass | qctools/doNd.py:87 | one pass keeps the other columns and advances the last by one pass |
| Setpoints.CartProdMeander | qctools/doNd.py:80-88 | the matrix returned is the meandered mesh |
| SetOrder.RollDiffZero | qctools/doNd.py:130-133 | after the first point a difference is zero iff the axis keeps its value; row 0 is the first point minus the last |
| SetOrder.ChangeSetpoints | qctools/doNd.py:130-133 | row 0 of the mask is 1, other rows are the differences, and a mask entry is non-zero iff its axis must be set there |
| SetOrder.MaskFromDiff | qctools/doNd.py:133 | the forced first row and the differences mark exactly the axes to set |
| SetOrder.SetPoint | qctools/doNd.py:183-197 | the set calls at a point are those of `PointCalls`, and `resultlist[j]` holds axis `j`'s setpoint for every axis |
| SetOrder.SetAll | qctools/doNd.py:181-197 | the set calls of the main loop, and every point's `resultlist` records every axis |
| SetOrder.CallsForMembers | qctools/doNd.py:188-195 | a call is made iff its axis is listed, needs setting, and gets its setpoint |
| SetOrder.PointCallsMembers | qctools/doNd.py:188-195 | at a point, axis `j` is set iff it is the first point or its value changed, and it is set to its setpoint |
| SetOrder.PointCallsOrder | qctools/doNd.py:184-188 | at the first point the axes are set in increasing order, later in decreasing order |
| SetOrder.CallsForOrder | qctools/doNd.py:184-188 | calls made along an increasing or decreasing axis list follow that order |
| SetOrder.ApplyAppend | qctools/doNd.py:195 | applying `a + b` applies `a`, then `b` |
| SetOrder.ApplyAxis | qctools/doNd.py:195 | an axis that no call sets keeps its value; an axis set to `v` by every call ends at `v` |
| SetOrder.ScheduleReaches | qctools/doNd.py:181-197 | after the first `k` points every instrument holds its setpoint at point `k - 1` |
| SafetyRates.SetParameter.constructor | qctools/doNd.py:62-71 | a parameter with the given name, step and delay |
| SafetyRates.MinAbsNonZero | qctools/doNd.py:67 | absent iff all differences are zero; otherwise positive and the least absolute non-zero difference |
| SafetyRates.Correct | qctools/doNd.py:64-70 | one iteration fails iff the step is unset and the space is missing or has all-zero differences; otherwise the delay is set (5e-2 if it was unset), a set step is kept, and an unset step becomes the least non-zero step when the space has more than one point |
| SafetyRates.CorrectIdempotent | qctools/doNd.py:64-70 | correcting a corrected parameter changes nothing |
| SafetyRates.Values | qctools/doNd.py:64 | the step and delay of each parameter, in order |
| SafetyRates.CorrectedStep | qctools/doNd.py:64-70 | correcting parameter `i` extends the corrected prefix by one |
| SafetyRates.CorrectParameter | qctools/doNd.py:65-70 | the object ends with the corrected values, or is unchanged when the iteration raises |
| SafetyRates.SafetyRatesDelays | qctools/doNd.py:62-71 | the parameters before the one that raised, or all of them, hold their corrected values, and the later ones are unchanged |
| SafetyRates.SecondRunNoOp | qctools/doNd.py:62-71 | after a run that raised nothing, a second run changes no parameter whose step could be derived |
| DoNd.Len | qctools/doNd.py:396 | `len(spaces)`, absent for a zero-dimensional array |
| DoNd.Validate | qctools/doNd.py:395-409 | no error iff the spaces match the parameters (count, or array columns in manual mode) and there is one settle time per parameter; a settle-time error carries both counts |
| DoNd.SettleReportedLast | qctools/doNd.py:407-409 | a settle-time error is reported exactly when the spaces pass and the counts differ |
| DoNd.SpacesReportedFirst | qctools/doNd.py:395-402 | a wrong number of spaces, or a non-array in manual mode, is reported whatever the settle times are |
| DoNd.Message | qctools/doNd.py:397-408 | the four exits have a message starting with `Error: `, and the two exceptions have none |

## Left out

- qcodes calls (`qc.config`, `initialise_database`, `load_experiment`, `get_parameter_data`, `get_metadata`, `to_json_for_storage`) are foreign: their results are fields of the input `Run` and `Experiment` values.
- The filesystem is a map from path to content. `os.makedirs` is not modelled (folders exist implicitly). `os.path.isfile(dbloc)` is a boolean parameter.
- `np.savetxt` formatting is not modelled: float formatting, the `# ` prefix of header lines and the empty array written before the rows. A row is an abstract `Row` line holding its values.
- Console `print`s are left out, as are `suppress_output`'s effect on them.
- JSON is a map from member name to encoded value. Key order and `indent = 4` are not modelled.
- A run's description is present or `None`; a present description is truthy even when it decodes to an empty object. Only the empty snapshot object is falsy. Other falsy values are not modelled.
- Text.PathJoin: POSIX paths only; Windows separators and drive letters (`ntpath.join`) are not modelled.
- DbExtraction.Selected: `ids` is a list; a numpy array of two or more ids raises `ValueError` at `not ids` in the source.
- DbExtraction.GroupDat: `np.vstack` raises on ragged columns; the model reports this as the `RaggedColumns` error and does not model NumPy's message.
- Setpoints.CartProd: requires at least one array, because `reshape(-1, 0)` of the empty meshgrid raises.
- Setpoints.CartProdMeander: requires a non-empty last array, because otherwise `len(fullmesh)/len(arrays[-1])` divides by zero. NumPy's overlapping-slice copy is modelled as a copy of the slice taken before writing.
- Setpoints.CartProdMeander: `int(len(fullmesh)/len(arrays[-1])/2)` is floating-point division truncated. It is modelled as integer division, which agrees for these non-negative sizes.
- Setpoint values are integers, and meshgrid dtype promotion is not modelled.
- SetOrder.ChangeSetpoints: requires at least one point, because `changesetpoints[0,:] = 1` raises `IndexError` on an empty array.
- SetOrder.SetAll: `param_set[j].set`, `time.sleep(settle_times[j])` and the readout are abstracted to a list of set calls. The thread-alive check that can raise `KeyboardInterrupt` at the first point (qctools/doNd.py:190-194) is left out, because it depends on another thread.
- `np.isclose(x, 0, atol=0)` is modelled as an exact zero test (`rtol` times zero is zero).
- The rest of `run_measurement`, `run_zerodim`, `run_dbextractor`, threads, timing, ETA arithmetic and plotting are left out, because they are concurrency, timing and UI.
- SafetyRates.SafetyRatesDelays: requires the parameters to be distinct objects. With the same object twice, the second visit sees the first correction. Steps, delays and setpoints are reals, and float rounding is not modelled.
- SafetyRates.Correct: `np.min` of an empty selection raises `ValueError`. It is modelled as the error `NoNonZeroStep`. A missing `spaces[i]` raises `IndexError`, modelled as `NoSpace`.
- DoNd.Validate: `len(a) is not len(b)` is modelled as `!=`, which is what CPython gives for small integers. `str(type(spaces))` is a string parameter of the non-array case.
- `fill_station`, `fill_station_zerodim`, `do1d`/`do2d`, qucs.py, meta.py, saveNd.py and setup.py are not part of this model.
