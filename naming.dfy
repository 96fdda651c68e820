/** Where the files of one group go (db_extraction.py, lines 52, 70 and 113-148): the
    normalised timestamp, the folder, and the `.dat` and snapshot file names, with every space
    replaced by `_`. Paths are POSIX paths; `os.path.join(a, b, c)` is `join(join(a, b), c)`. */
module Naming {
  import opened Text

  /** Line 70: `str(run.run_timestamp())` with `:` and `-` deleted and the space turned into `-`. */
  function Timestamp(ts: string): string {
    Replace(Replace(Replace(ts, ':', ""), '-', ""), ' ', "-")
  }

  /** One character of the timestamp, normalised on its own. */
  function TimestampChar(c: char): string {
    if c == ':' || c == '-' then "" else if c == ' ' then "-" else [c]
  }

  /** The normalisation as one pass over the characters. */
  function TimestampByChar(ts: string): string {
    if ts == [] then "" else TimestampChar(ts[0]) + TimestampByChar(ts[1..])
  }

  /** The three replacements of line 70 act character by character: a `:` or `-` disappears,
      a space becomes `-`, and every other character is kept. */
  lemma {:induction false} TimestampSpec(ts: string)
    ensures Timestamp(ts) == TimestampByChar(ts)
    ensures ':' !in Timestamp(ts) && ' ' !in Timestamp(ts)
  {
    if ts != [] {
      TimestampSpec(ts[1..]);
      assert ts == [ts[0]] + ts[1..];
      ReplaceAppend([ts[0]], ts[1..], ':', "");
      var a := Replace(ts[1..], ':', "");
      ReplaceAppend(Replace([ts[0]], ':', ""), a, '-', "");
      var b := Replace(a, '-', "");
      ReplaceAppend(Replace(Replace([ts[0]], ':', ""), '-', ""), b, ' ', "-");
    }
  }

  /** The timestamp text used in the folder name: empty when `timestamp` is off (lines 69-72). */
  function TimestampPart(timestamp: bool, ts: string): string {
    if timestamp then Timestamp(ts) else ""
  }

  /** `"{:03d}".format(runid)`. */
  function RunIdText(runId: nat): string {
    ZeroPad(runId, 3)
  }

  /** Lines 125-141: the part of both file names in front of the run name or `run_snapshot.json`.
      With more than one group it carries the group counter `n`; with `no_folders` the run id. */
  function FilePrefix(runId: nat, n: nat, noFolders: bool, manyGroups: bool): string {
    if noFolders then
      if manyGroups then RunIdText(runId) + "-" + NatToString(n) + "_" else RunIdText(runId) + "-"
    else
      if manyGroups then NatToString(n) + "_" else ""
  }

  /** `filenamep2` after line 145. */
  function DatName(prefix: string, runName: string, runParams: string): string {
    Replace(prefix + runName + runParams + ".dat", ' ', "_")
  }

  /** `filenamejson` after line 146. */
  function JsonName(prefix: string): string {
    Replace(prefix + "run_snapshot.json", ' ', "_")
  }

  /** `runparams` (lines 74-77): `_` and the run's parameter list, or nothing. */
  function RunParams(paramToFilename: bool, parameters: string): string {
    if paramToFilename then "_" + parameters else ""
  }

  /** `folderstring` (line 52). */
  function FolderString(expIndex: nat, expName: string, sampleName: string): string {
    "Exp" + ZeroPad(expIndex, 2) + "(" + expName + ")" + "-Sample" + "(" + sampleName + ")"
  }

  /** `filenamep1` (line 124). */
  function RunFolderName(runId: nat, ts: string, runName: string): string {
    RunIdText(runId) + "_" + ts + "_" + runName
  }

  /** `folder` after line 144: the database path before its first `.`, and below it the
      experiment and run folders unless `no_folders` is set. */
  function Folder(dbPath: string, noFolders: bool, folderString: string, runFolder: string): string {
    var base := TakeUntil(dbPath, '.');
    Replace(if noFolders then base else PathJoin(PathJoin(base, folderString), runFolder), ' ', "_")
  }

  /** No space is left in the folder or in either file name. */
  lemma NoSpaces(dbPath: string, noFolders: bool, folderString: string, runFolder: string,
                 prefix: string, runName: string, runParams: string)
    ensures ' ' !in Folder(dbPath, noFolders, folderString, runFolder)
    ensures ' ' !in DatName(prefix, runName, runParams) && ' ' !in JsonName(prefix)
  {
  }

  /** Replacing spaces leaves a space-free prefix and suffix in place. */
  lemma ReplaceAround(prefix: string, middle: string, suffix: string)
    requires ' ' !in prefix && ' ' !in suffix
    ensures Replace(prefix + middle + suffix, ' ', "_") == prefix + Replace(middle, ' ', "_") + suffix
  {
    ReplaceAppend(prefix + middle, suffix, ' ', "_");
    ReplaceAppend(prefix, middle, ' ', "_");
    ReplaceAbsent(prefix, ' ', "_");
    ReplaceAbsent(suffix, ' ', "_");
  }

  lemma DigitsHaveNoSeparator(s: string, c: char)
    requires AllDigits(s) && !IsDigit(c)
    ensures c !in s
  {
  }

  /** The part before the first `c`, when the first piece does not contain `c`. */
  lemma {:induction false} TakeUntilPiece(piece: string, c: char, rest: string)
    requires c !in piece
    ensures TakeUntil(piece + [c] + rest, c) == piece
  {
    if piece != [] {
      assert (piece + [c] + rest)[1..] == piece[1..] + [c] + rest;
      TakeUntilPiece(piece[1..], c, rest);
      assert [piece[0]] + piece[1..] == piece;
    }
  }

  /** Replacing spaces keeps a space-free suffix at the end. */
  lemma ReplaceKeepsSuffix(s: string, suffix: string)
    requires ' ' !in suffix
    ensures Replace(s + suffix, ' ', "_") == Replace(s, ' ', "_") + suffix
  {
    ReplaceAppend(s, suffix, ' ', "_");
    ReplaceAbsent(suffix, ' ', "_");
  }

  /** A `.dat` name ends in `.dat`. */
  lemma DatNameEnds(prefix: string, runName: string, runParams: string)
    ensures EndsWith(DatName(prefix, runName, runParams), ".dat")
  {
    ReplaceKeepsSuffix(prefix + runName + runParams, ".dat");
    var d := DatName(prefix, runName, runParams);
    assert d[|d| - 4..] == ".dat";
  }

  /** A snapshot name ends in `.json`. */
  lemma JsonNameEnds(prefix: string)
    ensures EndsWith(JsonName(prefix), ".json")
  {
    var a := prefix + "run_snapshot";
    assert prefix + "run_snapshot.json" == a + ".json";
    ReplaceKeepsSuffix(a, ".json");
    var r := Replace(a, ' ', "_");
    assert (r + ".json")[|r|..] == ".json";
  }

  /** The `.dat` and snapshot paths of a group differ: one ends in `.dat`, the other in `.json`. */
  lemma DatAndJsonDiffer(folder: string, prefix: string, runName: string, runParams: string)
    ensures PathJoin(folder, DatName(prefix, runName, runParams)) != PathJoin(folder, JsonName(prefix))
  {
    DatNameEnds(prefix, runName, runParams);
    JsonNameEnds(prefix);
    JoinEndsWith(folder, DatName(prefix, runName, runParams), ".dat");
    JoinEndsWith(folder, JsonName(prefix), ".json");
    EndsWithOne(PathJoin(folder, JsonName(prefix)), ".json", ".dat");
  }

  /** The text between `lead` and the first `_` of a group's file name is the group counter. */
  lemma ReadGroup(lead: string, n: nat, tail: string)
    ensures var s := Replace(lead + (NatToString(n) + "_") + tail, ' ', "_");
      |lead| <= |s| && TakeUntil(s[|lead|..], '_') == NatToString(n)
  {
    var a := NatToString(n);
    var x := lead + (a + "_") + tail;
    ReplaceByChar(x, ' ', '_');
    var s := Replace(x, ' ', "_");
    DigitsHaveNoSeparator(a, '_');
    TakeUntilAt(s[|lead|..], '_', a);
  }

  /** A name `lead + str(n) + "_" + tail` determines `n` once spaces are replaced. */
  lemma GroupNamesDiffer(lead: string, n1: nat, n2: nat, tail: string)
    requires n1 != n2
    ensures Replace(lead + (NatToString(n1) + "_") + tail, ' ', "_") !=
            Replace(lead + (NatToString(n2) + "_") + tail, ' ', "_")
  {
    ReadGroup(lead, n1, tail);
    ReadGroup(lead, n2, tail);
    ParseNatToString(n1);
    ParseNatToString(n2);
  }

  /** With more than one group, the groups of a run get different `.dat` names. */
  lemma GroupDatNamesDiffer(runId: nat, n1: nat, n2: nat, noFolders: bool, runName: string, runParams: string)
    requires n1 != n2
    ensures DatName(FilePrefix(runId, n1, noFolders, true), runName, runParams) !=
            DatName(FilePrefix(runId, n2, noFolders, true), runName, runParams)
  {
    var lead := if noFolders then RunIdText(runId) + "-" else "";
    var tail := runName + runParams + ".dat";
    GroupNamesDiffer(lead, n1, n2, tail);
    DatNameParts(FilePrefix(runId, n1, noFolders, true), runName, runParams);
    DatNameParts(FilePrefix(runId, n2, noFolders, true), runName, runParams);
    GroupName(lead, runId, n1, noFolders, tail);
    GroupName(lead, runId, n2, noFolders, tail);
  }

  /** Proof step: the `.dat` name regrouped as prefix, then the run part. */
  lemma DatNameParts(prefix: string, runName: string, runParams: string)
    ensures prefix + runName + runParams + ".dat" == prefix + (runName + runParams + ".dat")
  {
  }

  /** With more than one group, the groups of a run get different snapshot names. */
  lemma GroupJsonNamesDiffer(runId: nat, n1: nat, n2: nat, noFolders: bool)
    requires n1 != n2
    ensures JsonName(FilePrefix(runId, n1, noFolders, true)) != JsonName(FilePrefix(runId, n2, noFolders, true))
  {
    var lead := if noFolders then RunIdText(runId) + "-" else "";
    GroupNamesDiffer(lead, n1, n2, "run_snapshot.json");
    GroupName(lead, runId, n1, noFolders, "run_snapshot.json");
    GroupName(lead, runId, n2, noFolders, "run_snapshot.json");
  }

  /** Proof step: a multi-group prefix unfolded as `lead + str(n) + "_"`. */
  lemma GroupName(lead: string, runId: nat, n: nat, noFolders: bool, t: string)
    requires lead == if noFolders then RunIdText(runId) + "-" else ""
    ensures FilePrefix(runId, n, noFolders, true) + t == lead + (NatToString(n) + "_") + t
  {
  }

  /** With `no_folders` every file of every run lands in one folder; the `{runid:03d}-` prefix
      keeps the `.dat` names of different runs apart. */
  lemma NoFoldersRunsDiffer(id1: nat, id2: nat, n1: nat, n2: nat, many1: bool, many2: bool,
                            name1: string, name2: string, params1: string, params2: string)
    requires id1 != id2
    ensures DatName(FilePrefix(id1, n1, true, many1), name1, params1) !=
            DatName(FilePrefix(id2, n2, true, many2), name2, params2)
  {
    var t1 := (if many1 then NatToString(n1) + "_" else "") + name1 + params1 + ".dat";
    var t2 := (if many2 then NatToString(n2) + "_" else "") + name2 + params2 + ".dat";
    assert FilePrefix(id1, n1, true, many1) + name1 + params1 + ".dat" == RunIdText(id1) + "-" + t1;
    assert FilePrefix(id2, n2, true, many2) + name2 + params2 + ".dat" == RunIdText(id2) + "-" + t2;
    RunIdPrefix(id1, t1);
    RunIdPrefix(id2, t2);
    ZeroPadSpec(id1, 3);
    ZeroPadSpec(id2, 3);
  }

  /** A name that starts with `{runid:03d}-` shows the padded run id before its first `-`. */
  lemma RunIdPrefix(id: nat, t: string)
    ensures TakeUntil(Replace(RunIdText(id) + "-" + t, ' ', "_"), '-') == RunIdText(id)
  {
    var a := RunIdText(id);
    DigitsHaveNoSeparator(a, ' ');
    DigitsHaveNoSeparator(a, '-');
    ReplaceAppend(a + "-", t, ' ', "_");
    ReplaceAbsent(a + "-", ' ', "_");
    TakeUntilPiece(a, '-', Replace(t, ' ', "_"));
  }
}
