/**
 * Output-file allocation of `save_audio`: for each sample of a batch, the first
 * free name `sample_{id}_{ix}.wav` (or `sample_{ix}.wav` without an id) in the
 * output folder is claimed by creating the file, and the counter moves past it.
 */
module SaveAudio {
  import opened Text

  /** The paths that exist on disk. `os.path.exists` asks it; `open(path, "a")` adds to it. */
  class Folder {
    var files: set<string>

    constructor (existing: set<string>)
      ensures files == existing
    {
      files := existing;
    }

    /** `os.path.exists(path)`. */
    predicate Exists(path: string)
      reads this
    {
      path in files
    }

    /** `open(path, "a").close()`: creates the file if it is missing, leaves it as it is otherwise. */
    method Touch(path: string)
      modifies this
      ensures files == old(files) + {path}
    {
      files := files + {path};
    }
  }

  /** The set of the elements of `s`. */
  ghost function Elements(s: seq<string>): set<string>
  {
    set f | f in s
  }

  /** The file name for counter `ix`; an empty id (Python's `None` or `""`) is left out. */
  function SampleName(idStr: string, ix: nat): string
  {
    if idStr != "" then "sample_" + idStr + "_" + NatToString(ix) + ".wav"
    else "sample_" + NatToString(ix) + ".wav"
  }

  /** The path of the candidate file for counter `ix` in `outputPath`. */
  function OutputFile(outputPath: string, idStr: string, ix: nat): string
  {
    PathJoin(outputPath, SampleName(idStr, ix))
  }

  /** Different counters give different names: the counter can be read back from the name. */
  lemma SampleNameInjective(idStr: string, i: nat, j: nat)
    requires SampleName(idStr, i) == SampleName(idStr, j)
    ensures i == j
  {
    var a, b := SampleName(idStr, i), SampleName(idStr, j);
    var head := if idStr != "" then "sample_" + idStr + "_" else "sample_";
    assert a == head + NatToString(i) + ".wav";
    assert b == head + NatToString(j) + ".wav";
    assert a[|head|..|a| - 4] == NatToString(i);
    assert b[|head|..|b| - 4] == NatToString(j);
    NatToStringInjective(i, j);
  }

  /** Different counters give different paths in the same folder. */
  lemma OutputFileInjective(outputPath: string, idStr: string, i: nat, j: nat)
    requires OutputFile(outputPath, idStr, i) == OutputFile(outputPath, idStr, j)
    ensures i == j
  {
    var a, b := SampleName(idStr, i), SampleName(idStr, j);
    var p, q := PathJoin(outputPath, a), PathJoin(outputPath, b);
    PathJoinEndsWith(outputPath, a);
    PathJoinEndsWith(outputPath, b);
    assert a[0] == 's' && b[0] == 's';
    assert |a| == |b| by {
      assert |p| == |outputPath| + |a| || |p| == |outputPath| + 1 + |a|;
      assert |q| == |outputPath| + |b| || |q| == |outputPath| + 1 + |b|;
      if |p| == |outputPath| + |a| {
        assert outputPath == [] || outputPath[|outputPath| - 1] == '/';
      } else {
        assert outputPath != [] && outputPath[|outputPath| - 1] != '/';
      }
    }
    assert a == p[|p| - |a|..] == q[|q| - |b|..] == b;
    SampleNameInjective(idStr, i, j);
  }

  /** Path `i` was built from counter `i`. */
  ghost predicate NamedBy(outFiles: seq<string>, indices: seq<nat>, outputPath: string, idStr: string)
  {
    && |outFiles| == |indices|
    && forall i :: 0 <= i < |outFiles| ==> outFiles[i] == OutputFile(outputPath, idStr, indices[i])
  }

  /** The counters used so far increase from 1, and `next` is one past the last of them. */
  ghost predicate CountersBelow(indices: seq<nat>, next: nat)
  {
    && (forall i :: 0 <= i < |indices| ==> 1 <= indices[i] < next)
    && (forall i, j :: 0 <= i < j < |indices| ==> indices[i] < indices[j])
    && (indices == [] ==> next == 1)
    && (indices != [] ==> indices[|indices| - 1] + 1 == next)
  }

  /** The claimed paths are distinct, did not exist in `before`, and are what `files` added to it. */
  ghost predicate ClaimedFresh(before: set<string>, files: set<string>, outFiles: seq<string>)
  {
    && (forall i, j :: 0 <= i < j < |outFiles| ==> outFiles[i] != outFiles[j])
    && (forall i :: 0 <= i < |outFiles| ==> outFiles[i] !in before)
    && files == before + Elements(outFiles)
  }

  /** Every counter skipped between two claimed ones named a path that existed in `before`. */
  ghost predicate SkippedTaken(before: set<string>, indices: seq<nat>, outputPath: string, idStr: string)
  {
    forall i, j :: 0 <= i < |indices| && (if i == 0 then 1 else indices[i - 1] + 1) <= j < indices[i] ==>
      OutputFile(outputPath, idStr, j) in before
  }

  /** The counter `save_audio` tries after claiming the counters `indices`. */
  function NextCounter(indices: seq<nat>): nat
  {
    if indices == [] then 1 else indices[|indices| - 1] + 1
  }

  lemma CountersBelowNext(indices: seq<nat>, next: nat)
    requires CountersBelow(indices, next)
    ensures next == NextCounter(indices)
  {
  }

  /**
   * What `save_audio` has done after some samples: `outFiles` were built from the
   * increasing counters `indices` (all below `next`), none existed in `before`, all
   * exist in `files` now, and every counter skipped was taken in `before`.
   */
  ghost predicate Allocated(before: set<string>, files: set<string>, outFiles: seq<string>, indices: seq<nat>,
                            outputPath: string, idStr: string, next: nat)
  {
    && NamedBy(outFiles, indices, outputPath, idStr)
    && CountersBelow(indices, next)
    && ClaimedFresh(before, files, outFiles)
    && SkippedTaken(before, indices, outputPath, idStr)
  }

  /** Claiming the first free counter from `next` on keeps `Allocated`. */
  lemma AllocatedStep(before: set<string>, files: set<string>, outFiles: seq<string>, indices: seq<nat>,
                      outputPath: string, idStr: string, next: nat, free: nat)
    requires Allocated(before, files, outFiles, indices, outputPath, idStr, next)
    requires next <= free && OutputFile(outputPath, idStr, free) !in files
    requires forall j :: next <= j < free ==> OutputFile(outputPath, idStr, j) in files
    ensures var f := OutputFile(outputPath, idStr, free);
            Allocated(before, files + {f}, outFiles + [f], indices + [free], outputPath, idStr, free + 1)
  {
    var f := OutputFile(outputPath, idStr, free);
    NamedByStep(outFiles, indices, outputPath, idStr, free);
    CountersBelowStep(indices, next, free);
    ClaimedFreshStep(before, files, outFiles, f);
    forall j | next <= j < free
      ensures OutputFile(outputPath, idStr, j) in before
    {
      FreshCandidateWasOld(files, before, outFiles, indices, outputPath, idStr, j);
    }
    SkippedTakenStep(before, indices, outputPath, idStr, next, free);
  }

  lemma NamedByStep(outFiles: seq<string>, indices: seq<nat>, outputPath: string, idStr: string, free: nat)
    requires NamedBy(outFiles, indices, outputPath, idStr)
    ensures NamedBy(outFiles + [OutputFile(outputPath, idStr, free)], indices + [free], outputPath, idStr)
  {
  }

  lemma CountersBelowStep(indices: seq<nat>, next: nat, free: nat)
    requires CountersBelow(indices, next) && next <= free
    ensures CountersBelow(indices + [free], free + 1)
  {
  }

  lemma ClaimedFreshStep(before: set<string>, files: set<string>, outFiles: seq<string>, f: string)
    requires ClaimedFresh(before, files, outFiles) && f !in files
    ensures ClaimedFresh(before, files + {f}, outFiles + [f])
  {
    assert Elements(outFiles + [f]) == Elements(outFiles) + {f};
  }

  lemma SkippedTakenStep(before: set<string>, indices: seq<nat>, outputPath: string, idStr: string, next: nat, free: nat)
    requires SkippedTaken(before, indices, outputPath, idStr) && CountersBelow(indices, next)
    requires forall j :: next <= j < free ==> OutputFile(outputPath, idStr, j) in before
    ensures SkippedTaken(before, indices + [free], outputPath, idStr)
  {
    var indices' := indices + [free];
    forall i, j | 0 <= i < |indices'| && (if i == 0 then 1 else indices'[i - 1] + 1) <= j < indices'[i]
      ensures OutputFile(outputPath, idStr, j) in before
    {
      if i < |indices| {
        assert indices'[i] == indices[i];
        assert i > 0 ==> indices'[i - 1] == indices[i - 1];
      } else {
        assert indices'[i] == free;
        assert i > 0 ==> indices'[i - 1] == indices[i - 1];
      }
    }
  }

  /**
   * `save_audio(audio_out, output_path, sample_rate, id_str)`: one fresh path per
   * sample, in order; `indices` are the counters the paths were built from.
   */
  method Save<S>(folder: Folder, audioOut: seq<S>, outputPath: string, idStr: string)
    returns (outFiles: seq<string>, ghost indices: seq<nat>)
    modifies folder
    ensures |outFiles| == |audioOut|
    ensures Allocated(old(folder.files), folder.files, outFiles, indices, outputPath, idStr, NextCounter(indices))
  {
    outFiles, indices := [], [];
    ghost var before := folder.files;
    var ix: nat := 1;
    for n := 0 to |audioOut|
      invariant |outFiles| == n
      invariant Allocated(before, folder.files, outFiles, indices, outputPath, idStr, ix)
    {
      var free, outputFile := FirstFree(folder, outputPath, idStr, ix);
      ghost var files := folder.files;
      assert Allocated(before, files + {outputFile}, outFiles + [outputFile], indices + [free], outputPath, idStr, free + 1) by {
        AllocatedStep(before, files, outFiles, indices, outputPath, idStr, ix, free);
      }
      folder.Touch(outputFile);
      outFiles := outFiles + [outputFile];
      indices := indices + [free];
      ix := free + 1;
    }
    assert ix == NextCounter(indices) by {
      CountersBelowNext(indices, ix);
    }
  }

  /**
   * The `while True` search of `save_audio`: the first counter from `ix` on whose
   * candidate path does not exist yet.
   */
  method FirstFree(folder: Folder, outputPath: string, idStr: string, ix: nat) returns (free: nat, outputFile: string)
    ensures ix <= free
    ensures outputFile == OutputFile(outputPath, idStr, free)
    ensures outputFile !in folder.files
    ensures forall j :: ix <= j < free ==> OutputFile(outputPath, idStr, j) in folder.files
  {
    free := ix;
    outputFile := OutputFile(outputPath, idStr, free);
    ghost var bound := LengthBound(folder.files);
    while folder.Exists(outputFile)
      invariant ix <= free
      invariant outputFile == OutputFile(outputPath, idStr, free)
      invariant forall j :: ix <= j < free ==> OutputFile(outputPath, idStr, j) in folder.files
      decreases Pow10(bound) - free
    {
      if free >= Pow10(bound) {
        NatToStringLength(free, bound);
        PathJoinEndsWith(outputPath, SampleName(idStr, free));
      }
      free := free + 1;
      outputFile := OutputFile(outputPath, idStr, free);
    }
  }

  /** A taken candidate whose counter is beyond every counter used so far was taken before the call. */
  lemma FreshCandidateWasOld(files: set<string>, before: set<string>, outFiles: seq<string>, indices: seq<nat>,
                             outputPath: string, idStr: string, ix: nat)
    requires files == before + Elements(outFiles)
    requires NamedBy(outFiles, indices, outputPath, idStr)
    requires forall i :: 0 <= i < |indices| ==> indices[i] < ix
    requires OutputFile(outputPath, idStr, ix) in files
    ensures OutputFile(outputPath, idStr, ix) in before
  {
    var candidate := OutputFile(outputPath, idStr, ix);
    if candidate !in before {
      var i :| 0 <= i < |outFiles| && outFiles[i] == candidate;
      OutputFileInjective(outputPath, idStr, indices[i], ix);
    }
  }
}
