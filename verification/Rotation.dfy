/**
The append-and-rotate JSONL file set. Generation 0 is the live file, generation g the file with
suffix `.g`; higher is older. A file is the list of lines appended to it.
 */
module Rotation {
  import opened Utf8

  type Files = map<nat, seq<string>>

  function LinesBytes(lines: seq<string>): nat {
    if lines == [] then 0 else LinesBytes(lines[..|lines| - 1]) + Bytes(lines[|lines| - 1])
  }

  /** The content of a file: its lines one after the other. */
  function Content(lines: seq<string>): string {
    if lines == [] then "" else Content(lines[..|lines| - 1]) + lines[|lines| - 1]
  }

  /** The size of a file is the size of its content. */
  lemma {:induction false} FileSize(lines: seq<string>)
    ensures LinesBytes(lines) == Bytes(Content(lines)) == |EncodeText(Content(lines))|
  {
    if lines != [] {
      FileSize(lines[..|lines| - 1]);
      BytesOfConcat(Content(lines[..|lines| - 1]), lines[|lines| - 1]);
    }
    TextSizeIsOctets(Content(lines));
  }

  datatype Slot = Missing | File(lines: seq<string>)

  function SlotAt(f: Files, g: nat): Slot { if g in f then File(f[g]) else Missing }

  function At(f: Files, g: nat): seq<string> { if g in f then f[g] else [] }

  /** Everything kept, oldest generation first. */
  function History(f: Files, top: nat): seq<string> {
    if top == 0 then At(f, 0) else At(f, top) + History(f, top - 1)
  }

  predicate NeedsRotation(f: Files, incoming: nat, maxBytes: nat) {
    var current := LinesBytes(At(f, 0));
    !(current == 0 || current + incoming <= maxBytes)
  }

  /** Every generation moved up by one; the top one is gone, the live file is absent. */
  ghost predicate IsShift(f: Files, top: nat, f': Files) {
    && SlotAt(f', 0) == Missing
    && (forall g: nat | 1 <= g <= top :: SlotAt(f', g) == SlotAt(f, g - 1))
    && (forall g: nat | g > top :: SlotAt(f', g) == SlotAt(f, g))
  }

  /** Generations above `g` have moved up, `g` itself is free (unless nothing moved yet), the rest is untouched. */
  ghost predicate PartlyShifted(f: Files, top: nat, g: nat, f': Files) {
    && (g < top ==> SlotAt(f', g) == Missing)
    && (g == top ==> SlotAt(f', g) == SlotAt(f, g))
    && (forall x: nat | x < g || x > top :: SlotAt(f', x) == SlotAt(f, x))
    && (forall x: nat | g < x <= top :: SlotAt(f', x) == SlotAt(f, x - 1))
  }

  lemma OneMove(f: Files, top: nat, g: nat, f1: Files, f2: Files)
    requires 1 <= g <= top && PartlyShifted(f, top, g, f1)
    requires SlotAt(f2, g) == SlotAt(f1, g - 1) && SlotAt(f2, g - 1) == Missing
    requires forall x: nat | x != g && x != g - 1 :: SlotAt(f2, x) == SlotAt(f1, x)
    ensures PartlyShifted(f, top, g - 1, f2)
  {
  }

  /** What one call of `record` does to the files. */
  ghost predicate Records(f: Files, line: string, maxBytes: nat, maxFiles: nat, f': Files) {
    if NeedsRotation(f, Bytes(line), maxBytes) then
      exists m: Files :: IsShift(f, maxFiles, m) && f' == m[0 := [line]]
    else f' == f[0 := At(f, 0) + [line]]
  }

  class JsonlSink {
    const maxBytes: nat
    const maxFiles: nat
    var files: Files

    ghost predicate Valid() { maxBytes >= 512 && maxFiles >= 1 }

    constructor (maxBytesOption: int, maxFilesOption: int)
      ensures Valid() && files == map[]
      ensures maxBytes == if maxBytesOption < 512 then 512 else maxBytesOption
      ensures maxFiles == if maxFilesOption < 1 then 1 else maxFilesOption
    {
      maxBytes := if maxBytesOption < 512 then 512 else maxBytesOption;
      maxFiles := if maxFilesOption < 1 then 1 else maxFilesOption;
      files := map[];
    }

    /** Moves a file over its destination; a missing source leaves everything as it is. */
    method Rename(source: nat, destination: nat)
      modifies this
      ensures source !in old(files) ==> files == old(files)
      ensures source in old(files) ==> files == (old(files) - {source})[destination := old(files)[source]]
    {
      if source in files {
        files := (files - {source})[destination := files[source]];
      }
    }

    method RotateIfNeeded(incoming: nat)
      requires Valid()
      modifies this
      ensures !NeedsRotation(old(files), incoming, maxBytes) ==> files == old(files)
      ensures NeedsRotation(old(files), incoming, maxBytes) ==> IsShift(old(files), maxFiles, files)
    {
      var currentBytes := if 0 in files then LinesBytes(files[0]) else 0;
      if currentBytes == 0 || currentBytes + incoming <= maxBytes { return; }
      ghost var f := files;
      var generation := maxFiles;
      while generation >= 1
        invariant 0 <= generation <= maxFiles
        invariant PartlyShifted(f, maxFiles, generation, files)
      {
        ghost var before := files;
        assert generation < maxFiles ==> SlotAt(files, generation) == Missing;
        if generation == maxFiles {
          files := files - {generation};
        }
        Rename(if generation == 1 then 0 else generation - 1, generation);
        OneMove(f, maxFiles, generation, before, files);
        generation := generation - 1;
      }
    }

    method Record(line: string)
      requires Valid()
      modifies this
      ensures Records(old(files), line, maxBytes, maxFiles, files)
    {
      RotateIfNeeded(Bytes(line));
      ghost var m := files;
      files := files[0 := (if 0 in files then files[0] else []) + [line]];
      if NeedsRotation(old(files), Bytes(line), maxBytes) {
        assert [] + [line] == [line];
        assert files == m[0 := [line]];
      }
    }
  }

  // ----- Conservation -----

  lemma {:induction false} HistoryOfShift(f: Files, top: nat, f': Files, n: nat)
    requires IsShift(f, top, f') && 1 <= n <= top
    ensures History(f', n) == History(f, n - 1)
  {
    assert SlotAt(f', n) == SlotAt(f, n - 1) && SlotAt(f', 0) == Missing;
    if n > 1 { HistoryOfShift(f, top, f', n - 1); }
  }

  lemma {:induction false} HistoryOfAppend(f: Files, line: string, n: nat)
    ensures History(f[0 := At(f, 0) + [line]], n) == History(f, n) + [line]
  {
    if n > 0 {
      HistoryOfAppend(f, line, n - 1);
      assert At(f, n) + (History(f, n - 1) + [line]) == History(f, n) + [line];
    }
  }

  /**
  The kept history after a record is the history before plus the new line; a rotation drops from
  its front exactly the top generation and nothing else.
   */
  lemma RecordConservesHistory(f: Files, line: string, maxBytes: nat, maxFiles: nat, f': Files)
    requires maxFiles >= 1 && Records(f, line, maxBytes, maxFiles, f')
    ensures History(f, maxFiles) == At(f, maxFiles) + History(f, maxFiles - 1)
    ensures History(f', maxFiles) ==
            (if NeedsRotation(f, Bytes(line), maxBytes) then History(f, maxFiles - 1)
             else History(f, maxFiles)) + [line]
  {
    if NeedsRotation(f, Bytes(line), maxBytes) {
      var m: Files :| IsShift(f, maxFiles, m) && f' == m[0 := [line]];
      HistoryOfShift(f, maxFiles, m, maxFiles);
      HistoryOfAppend(m, line, maxFiles);
      assert At(m, 0) + [line] == [line];
    } else {
      HistoryOfAppend(f, line, maxFiles);
    }
  }

  predicate NoneEmpty(lines: seq<string>) { forall i | 0 <= i < |lines| :: lines[i] != "" }

  predicate FileOk(lines: seq<string>, maxBytes: nat) {
    lines != [] && NoneEmpty(lines) && (LinesBytes(lines) <= maxBytes || |lines| == 1)
  }

  /** Each file fits the limit or is one oversized line, and there is no generation above the top. */
  predicate Bounded(f: Files, maxBytes: nat, maxFiles: nat) {
    forall g | g in f :: g <= maxFiles && FileOk(f[g], maxBytes)
  }

  lemma RecordKeepsBounded(f: Files, line: string, maxBytes: nat, maxFiles: nat, f': Files)
    requires maxFiles >= 1 && Bounded(f, maxBytes, maxFiles) && line != ""
    requires Records(f, line, maxBytes, maxFiles, f')
    ensures Bounded(f', maxBytes, maxFiles)
  {
    assert FileOk([line], maxBytes);
    if NeedsRotation(f, Bytes(line), maxBytes) {
      var m: Files :| IsShift(f, maxFiles, m) && f' == m[0 := [line]];
      ShiftKeepsBounded(f, maxBytes, maxFiles, m);
    } else if 0 in f {
      FittingAppend(f[0], line);
      assert FileOk(f[0] + [line], maxBytes);
    } else {
      assert [] + [line] == [line];
    }
  }

  lemma ShiftKeepsBounded(f: Files, maxBytes: nat, maxFiles: nat, f': Files)
    requires Bounded(f, maxBytes, maxFiles) && IsShift(f, maxFiles, f')
    ensures Bounded(f', maxBytes, maxFiles)
  {
    forall g | g in f' ensures g <= maxFiles && FileOk(f'[g], maxBytes) {
      assert SlotAt(f', g) == SlotAt(f, if g <= maxFiles then g - 1 else g);
    }
  }

  lemma FittingAppend(lines: seq<string>, line: string)
    requires lines != [] && lines[|lines| - 1] != ""
    ensures LinesBytes(lines) > 0 && LinesBytes(lines + [line]) == LinesBytes(lines) + Bytes(line)
  {
    BytesAtLeastLength(lines[|lines| - 1]);
    assert (lines + [line])[..|lines|] == lines;
  }

  lemma {:induction false} KeysBelowCount(f: Files, n: nat)
    requires forall g | g in f :: g < n
    ensures |f| <= n
  {
    if n == 0 {
      assert f.Keys == {};
    } else {
      var r := f - {n - 1};
      KeysBelowCount(r, n - 1);
      assert f.Keys <= r.Keys + {n - 1};
      assert n - 1 in f ==> f.Keys == r.Keys + {n - 1};
      assert n - 1 !in f ==> f.Keys == r.Keys;
      assert |f.Keys| <= |r.Keys| + 1;
    }
  }

  /** `run[i]` is the file set after the first i lines were recorded. */
  ghost predicate IsRecording(run: seq<Files>, lines: seq<string>, maxBytes: nat, maxFiles: nat) {
    && |run| == |lines| + 1 && run[0] == map[]
    && forall i | 0 <= i < |lines| :: lines[i] != "" && Records(run[i], lines[i], maxBytes, maxFiles, run[i + 1])
  }

  /**
  After recording any lines into an empty directory, the files read oldest to newest are exactly the
  last k of those lines, in order; every file is bounded and there are at most maxFiles + 1 of them.
   */
  lemma {:induction false} KeptHistoryIsSuffix(
      run: seq<Files>, lines: seq<string>, maxBytes: nat, maxFiles: nat, i: nat)
    returns (k: nat)
    requires maxFiles >= 1 && IsRecording(run, lines, maxBytes, maxFiles) && i <= |lines|
    ensures k <= i && History(run[i], maxFiles) == lines[k..i]
    ensures i > 0 ==> k < i
    ensures Bounded(run[i], maxBytes, maxFiles) && |run[i]| <= maxFiles + 1
  {
    if i == 0 {
      k := 0;
      EmptyHistory(maxFiles);
    } else {
      var k0 := KeptHistoryIsSuffix(run, lines, maxBytes, maxFiles, i - 1);
      assert Records(run[i - 1], lines[i - 1], maxBytes, maxFiles, run[i]);
      k := SuffixStep(run[i - 1], lines, k0, i, maxBytes, maxFiles, run[i]);
      RecordKeepsBounded(run[i - 1], lines[i - 1], maxBytes, maxFiles, run[i]);
    }
    KeysBelowCount(run[i], maxFiles + 1);
  }

  lemma SuffixStep(f: Files, lines: seq<string>, k0: nat, i: nat, maxBytes: nat, maxFiles: nat, f': Files)
    returns (k: nat)
    requires maxFiles >= 1 && k0 < i <= |lines| && Records(f, lines[i - 1], maxBytes, maxFiles, f')
    requires History(f, maxFiles) == lines[k0..i - 1]
    ensures k0 <= k < i && History(f', maxFiles) == lines[k..i]
  {
    RecordConservesHistory(f, lines[i - 1], maxBytes, maxFiles, f');
    k := k0;
    if NeedsRotation(f, Bytes(lines[i - 1]), maxBytes) {
      k := k0 + |At(f, maxFiles)|;
      RestOfSlice(lines, k0, i - 1, At(f, maxFiles), History(f, maxFiles - 1));
    }
    SliceAppend(lines, k, i);
  }

  lemma SliceAppend(lines: seq<string>, k: nat, i: nat)
    requires k < i <= |lines|
    ensures lines[k..i - 1] + [lines[i - 1]] == lines[k..i]
  {
  }

  lemma RestOfSlice(lines: seq<string>, from: nat, to: nat, front: seq<string>, rest: seq<string>)
    requires from <= to <= |lines| && lines[from..to] == front + rest
    ensures from + |front| <= to && rest == lines[from + |front|..to]
  {
    assert rest == (front + rest)[|front|..];
  }

  lemma {:induction false} EmptyHistory(n: nat)
    ensures History(map[], n) == []
  {
    if n > 0 { EmptyHistory(n - 1); }
  }
}
