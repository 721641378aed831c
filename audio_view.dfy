/**
 * The request check of the audio-view route (`GET /ComfyUI_Jags_Audiotools/audio`):
 * which folder a request may read from, which file name it asks for, and the
 * HTTP status it gets otherwise.
 */
module AudioView {
  import opened Text

  /** The folder types a request may name. */
  const AllowedTypes: seq<string> := ["output", "input", "temp", "audio_input"]

  /** The folder type used when the request names none. */
  const DefaultType: string := "audio_input"

  /** What the route answers: the file to send under a file name, or a bare status. */
  datatype Response = FileResponse(path: string, filename: string) | Status(code: int)

  /** The `type` query parameter, or its default. */
  function RequestedType(query: map<string, string>): string
  {
    if "type" in query then query["type"] else DefaultType
  }

  /**
   * `view_image(request)` on the query parameters `query`. `moduleDir` is the folder
   * of this module on disk; `insideOutputDir(full, outputDir)` is the operating
   * system's verdict on whether the joined subfolder stays inside the output folder;
   * `isFile` is the set of paths that are regular files.
   */
  function ViewAudio(query: map<string, string>, moduleDir: string,
                     insideOutputDir: (string, string) -> bool, isFile: set<string>): (resp: Response)
    ensures "filename" !in query ==> resp == Status(404)
    ensures resp == Status(400) <==> "filename" in query && RequestedType(query) !in AllowedTypes
    ensures resp == Status(403) <==>
              && "filename" in query && RequestedType(query) in AllowedTypes && "subfolder" in query
              && var outputDir := PathJoin(moduleDir, RequestedType(query));
                 !insideOutputDir(PathJoin(outputDir, query["subfolder"]), outputDir)
    ensures resp.Status? ==> resp.code == 400 || resp.code == 403 || resp.code == 404
    ensures resp.FileResponse? ==>
              && "filename" in query && RequestedType(query) in AllowedTypes
              && resp.filename == Basename(query["filename"]) && '/' !in resp.filename
              && resp.path in isFile
              && resp.path == PathJoin(FullOutputDir(query, moduleDir), resp.filename)
    ensures "filename" in query && RequestedType(query) in AllowedTypes && resp != Status(403) ==>
              (resp.FileResponse? <==>
                 PathJoin(FullOutputDir(query, moduleDir), Basename(query["filename"])) in isFile)
  {
    if "filename" !in query then Status(404)
    else if RequestedType(query) !in AllowedTypes then Status(400)
    else
      var dir := FullOutputDir(query, moduleDir);
      if "subfolder" in query && !insideOutputDir(dir, PathJoin(moduleDir, RequestedType(query)))
      then Status(403)
      else ServeFile(dir, Basename(query["filename"]), isFile)
  }

  /** The file `filename` of `dir` when it is a regular file, otherwise 404. */
  function ServeFile(dir: string, filename: string, isFile: set<string>): (resp: Response)
    requires dir != [] && '/' !in filename
    ensures resp.FileResponse? <==> PathJoin(dir, filename) in isFile
    ensures resp.Status? ==> resp.code == 404
    ensures resp.FileResponse? ==>
              && resp.filename == filename && resp.path in isFile && resp.path == PathJoin(dir, filename)
              && |filename| < |resp.path| && resp.path[|resp.path| - |filename|..] == filename
              && resp.path[|resp.path| - |filename| - 1] == '/'
  {
    var file := PathJoin(dir, filename);
    if file in isFile then
      PathJoinFileName(dir, filename);
      FileResponse(file, filename)
    else Status(404)
  }

  /** The folder the file is looked up in: the type's folder, or the requested subfolder of it. */
  function FullOutputDir(query: map<string, string>, moduleDir: string): (dir: string)
    requires RequestedType(query) in AllowedTypes
    ensures dir != []
    ensures "subfolder" !in query ==> dir == PathJoin(moduleDir, RequestedType(query))
    ensures "subfolder" in query ==> dir == PathJoin(PathJoin(moduleDir, RequestedType(query)), query["subfolder"])
  {
    var outputDir := PathJoin(moduleDir, RequestedType(query));
    PathJoinEndsWith(moduleDir, RequestedType(query));
    if "subfolder" in query then
      PathJoinEndsWith(outputDir, query["subfolder"]);
      PathJoin(outputDir, query["subfolder"])
    else outputDir
  }

  /** Joining a folder and a base name puts a `/` right before the name. */
  lemma PathJoinFileName(dir: string, filename: string)
    requires dir != [] && '/' !in filename
    ensures var r := PathJoin(dir, filename);
            |filename| < |r| && r[|r| - |filename|..] == filename && r[|r| - |filename| - 1] == '/'
  {
    PathJoinEndsWith(dir, filename);
  }

  /** Any type outside the four allowed folders is refused with 400, whatever else the request holds. */
  lemma UnknownTypeRefused(query: map<string, string>, moduleDir: string,
                           insideOutputDir: (string, string) -> bool, isFile: set<string>)
    requires "filename" in query && "type" in query
    requires query["type"] != "output" && query["type"] != "input" && query["type"] != "temp" && query["type"] != "audio_input"
    ensures ViewAudio(query, moduleDir, insideOutputDir, isFile) == Status(400)
  {
    assert query["type"] !in AllowedTypes;
  }
}
