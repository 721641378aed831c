/**
 * The preview nodes: `PreviewAudioFile` reduces a list of paths to the file names
 * shown in the host's UI, and `PreviewAudioTensor` saves a batch to the host's
 * temp folder and reports the saved file names the same way.
 */
module Preview {
  import opened Wrappers
  import opened Text
  import opened SaveAudio

  /** `name` is the last component of `path` when both `/` and `\` count as separators. */
  ghost predicate LastComponent(name: string, path: string)
  {
    && '/' !in name && '\\' !in name
    && |name| <= |path| && path[|path| - |name|..] == name
    && (|name| == |path| || path[|path| - |name| - 1] == '/' || path[|path| - |name| - 1] == '\\')
  }

  /** A path has only one last component. */
  lemma LastComponentUnique(a: string, b: string, path: string)
    requires LastComponent(a, path) && LastComponent(b, path)
    ensures a == b
  {
  }

  /** One entry of a preview list: backslashes become slashes, then the base name is kept. */
  function PreviewName(path: string): string
  {
    Basename(ReplaceChar(path, '\\', '/'))
  }

  /** The preview name is the last component of the path under either separator. */
  lemma PreviewNameIsLastComponent(path: string)
    ensures LastComponent(PreviewName(path), path)
  {
    var q := ReplaceChar(path, '\\', '/');
    var name := Basename(q);
    var start := |q| - |name|;
    forall i | 0 <= i < |name|
      ensures path[start + i] == name[i] && name[i] != '\\'
    {
      assert q[start + i] == name[i];
    }
    assert path[start..] == name;
    if start > 0 {
      assert q[start - 1] == '/';
    }
  }

  /** `PreviewAudioFile(paths)`: the file names of `paths`, in order. */
  function PreviewAudioFile(paths: seq<string>): (filenames: seq<string>)
    ensures |filenames| == |paths|
    ensures forall i :: 0 <= i < |paths| ==> LastComponent(filenames[i], paths[i])
  {
    var filenames := seq(|paths|, i requires 0 <= i < |paths| => PreviewName(paths[i]));
    forall i | 0 <= i < |paths| ensures LastComponent(filenames[i], paths[i]) {
      PreviewNameIsLastComponent(paths[i]);
    }
    filenames
  }

  /** `f"{comfy_dir}/temp"`: an undiscovered install root is formatted as `None`. */
  function TempDir(comfyDir: Option<string>): string
  {
    (if comfyDir.Some? then comfyDir.value else "None") + "/temp"
  }

  /** A saved sample's preview name is its file name, whatever folder it was saved in. */
  lemma PreviewNameOfSample(folder: string, idStr: string, ix: nat)
    requires '/' !in idStr && '\\' !in idStr
    ensures PreviewName(OutputFile(folder, idStr, ix)) == SampleName(idStr, ix)
  {
    var name := SampleName(idStr, ix);
    var path := OutputFile(folder, idStr, ix);
    var digits := NatToString(ix);
    assert '/' !in digits && '\\' !in digits by {
      forall i | 0 <= i < |digits| ensures digits[i] != '/' && digits[i] != '\\' {
        assert '0' <= digits[i] <= '9';
      }
    }
    assert '/' !in name && '\\' !in name;
    PathJoinEndsWith(folder, name);
    assert name[0] == 's';
    PreviewNameIsLastComponent(path);
    LastComponentUnique(PreviewName(path), name, path);
  }

  /**
   * `PreviewAudioTensor(tensor, sample_rate, tame)`: the batch is saved under the
   * temp folder with the random id `randomId`, and the saved file names are returned.
   */
  method PreviewAudioTensor<S>(folder: Folder, tensor: seq<S>, comfyDir: Option<string>, randomId: nat)
    returns (paths: seq<string>, ghost saved: seq<string>, ghost indices: seq<nat>)
    requires randomId <= 10000000000
    modifies folder
    ensures |paths| == |tensor| && |indices| == |tensor|
    ensures Allocated(old(folder.files), folder.files, saved, indices, TempDir(comfyDir), NatToString(randomId),
                      NextCounter(indices))
    ensures forall i :: 0 <= i < |paths| ==> paths[i] == SampleName(NatToString(randomId), indices[i])
  {
    var idStr := NatToString(randomId);
    assert '/' !in idStr && '\\' !in idStr by {
      forall i | 0 <= i < |idStr| ensures idStr[i] != '/' && idStr[i] != '\\' {
        assert '0' <= idStr[i] <= '9';
      }
    }
    var outFiles;
    outFiles, indices := Save(folder, tensor, TempDir(comfyDir), idStr);
    saved := outFiles;
    paths := PreviewAudioFile(outFiles);
    forall i | 0 <= i < |paths| ensures paths[i] == SampleName(idStr, indices[i]) {
      PreviewNameOfSample(TempDir(comfyDir), idStr, indices[i]);
    }
  }
}
