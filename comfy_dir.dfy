/**
 * Install-root discovery (`get_comfy_dir`): the module's own path is split on
 * backslashes, and the host's install root is the path up to and including the
 * first component named "ComfyUI".
 */
module ComfyDir {
  import opened Wrappers
  import opened Text

  /** The name of the host's install folder. */
  const InstallFolder: string := "ComfyUI"

  /** The separator the path is split on (Windows style). */
  const Sep: char := '\\'

  /** The install root found in `file`, or `None` when no component is the install folder. */
  function ComfyDir(file: string): Option<string>
  {
    var dirs := Split(file, Sep);
    match IndexOf(dirs, InstallFolder)
    case None => None
    case Some(k) => Some(Join(dirs[..k + 1], Sep))
  }

  /** The search loop of `get_comfy_dir`, over the path `file` of the module. */
  method GetComfyDir(file: string) returns (dir: Option<string>)
    ensures dir == ComfyDir(file)
  {
    var dirs := Split(file, Sep);
    var comfyIndex: Option<nat> := None;
    var i := 0;
    while i < |dirs|
      invariant i <= |dirs|
      invariant InstallFolder !in dirs[..i]
      invariant comfyIndex.None?
    {
      if dirs[i] == InstallFolder {
        comfyIndex := Some(i);
        break;
      }
      assert dirs[..i + 1] == dirs[..i] + [dirs[i]];
      i := i + 1;
    }
    if comfyIndex.Some? {
      var k := comfyIndex.value;
      dir := Some(Join(dirs[..k + 1], Sep));
    } else {
      assert dirs[..i] == dirs;
      dir := None;
    }
  }

  /** `None` is returned exactly when no backslash-separated component is "ComfyUI". */
  lemma ComfyDirNotFound(file: string)
    ensures ComfyDir(file).None? <==> InstallFolder !in Split(file, Sep)
  {
  }

  /**
   * When found, the root is a prefix of the path that ends with "ComfyUI" at a
   * component boundary.
   */
  lemma ComfyDirFound(file: string)
    requires ComfyDir(file).Some?
    ensures var r := ComfyDir(file).value;
            && r <= file
            && |r| >= |InstallFolder| && r[|r| - |InstallFolder|..] == InstallFolder
            && (|r| == |file| || file[|r|] == Sep)
  {
    var dirs := Split(file, Sep);
    var k := IndexOf(dirs, InstallFolder).value;
    var prefix := dirs[..k + 1];
    var r := Join(prefix, Sep);
    assert ComfyDir(file).value == r;
    JoinSplit(file, Sep);
    JoinPrefix(dirs, k + 1, Sep);
    JoinEndsWithLast(prefix, Sep);
    assert prefix[k] == InstallFolder;
    if k + 1 == |dirs| {
      assert prefix == dirs;
    }
  }

  /**
   * The root's own components are those of the path up to the first "ComfyUI"
   * and no further.
   */
  lemma ComfyDirFirstComponent(file: string)
    requires ComfyDir(file).Some?
    ensures var rs := Split(ComfyDir(file).value, Sep);
            && rs <= Split(file, Sep)
            && rs[|rs| - 1] == InstallFolder
            && InstallFolder !in rs[..|rs| - 1]
  {
    var dirs := Split(file, Sep);
    var k := IndexOf(dirs, InstallFolder).value;
    var prefix := dirs[..k + 1];
    assert ComfyDir(file).value == Join(prefix, Sep);
    SplitJoin(prefix, Sep);
    assert prefix[..k] == dirs[..k];
  }

  /** A path without any backslash yields `None` unless it is "ComfyUI" itself. */
  lemma ComfyDirWithoutSeparator(file: string)
    requires Sep !in file
    ensures ComfyDir(file) == if file == InstallFolder then Some(file) else None
  {
    SplitNoSeparator(file, Sep);
    assert [file][..1] == [file];
  }
}
