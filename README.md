# Jags Audiotools core, modelled in Dafny

This project models the sequential logic inside `SampleDiffusion.py`. That file holds the audio nodes of a
plugin for a node-graph host application (ComfyUI). The six pieces modelled are:

- **Install-root discovery** (`get_comfy_dir`), in `comfy_dir.dfy`. The module's own path is split on
  backslashes. The install root is the backslash-joined prefix up to the first component named `ComfyUI`,
  or `None`. The method `GetComfyDir` keeps the source's search loop. It is proved equal to the reference
  function `ComfyDir`, and lemmas state what that root is.
- **Channel extraction** (`AudioData.get_channel_audio_data`), in `audio_data.dfy`. A channel is a strided
  slice of the interleaved samples. A channel outside `0 .. numChannels - 1` gives `IndexError`.
- **Output-file allocation** (`save_audio`), in `save_audio.dfy`. The folder is a class whose field
  `files` is the set of existing paths. The counter walks up from 1 until `sample_{id}_{ix}.wav` (or
  `sample_{ix}.wav` without an id) is free. The path is claimed by creating the file, and the counter
  moves on. The predicate `Allocated` states everything the call has done; step lemmas show each claim
  preserves it.
- **Preview names** (`PreviewAudioFile`, `PreviewAudioTensor`), in `preview.dfy`. Backslashes become
  slashes and the base name is kept. This is the last component of the path under either separator.
  `PreviewAudioTensor` saves the batch into `f"{comfy_dir}/temp"` and reports exactly the sample file
  names it claimed. When no install root was found, that folder is `None/temp`, as Python formats it.
- **Audio-view request check** (`view_image`), in `audio_view.dfy`. This is a pure decision over the
  query parameters:
  - 404 without a `filename` parameter;
  - 400 for a `type` outside `output`, `input`, `temp` and `audio_input`;
  - 403 when the subfolder escapes the type's folder;
  - otherwise the base name of `filename` inside that folder, if it is a regular file, else 404.
- **Batch mixing** (`MergeTensors.do_merge`), in `merge.dfy`. Batches are `array3<int>` values
  (batch x channels x samples). A shape mismatch in batch size or channel count fails. Otherwise both
  inputs are copied into zero buffers of the longer length, and the result is their weighted sum.

`text.dfy` gives Python's string and path operations the model needs: `str.split`, `str.join`,
`str.replace`, `os.path.basename`, `os.path.join` and `str(n)`. `wrappers.dfy` holds `Option` and `Result`.

## Model

| member | source | states |
|---|---|---|
| `ComfyDir.GetComfyDir` | SampleDiffusion.py:21-32 | the search loop over the backslash-separated components returns exactly the reference result `ComfyDir(file)` |
| `ComfyDir.ComfyDirNotFound` | SampleDiffusion.py:22-32 | `None` is returned exactly when no component equals `ComfyUI` |
| `ComfyDir.ComfyDirFound` | SampleDiffusion.py:22-30 | a found root is a prefix of the path, ends with `ComfyUI`, and ends at a component boundary (end of path or a backslash) |
| `ComfyDir.ComfyDirFirstComponent` | SampleDiffusion.py:24-30 | a found root's components are a prefix of the path's components, the last is `ComfyUI`, and no earlier one is |
| `ComfyDir.ComfyDirWithoutSeparator` | SampleDiffusion.py:22-32 | a path with no backslash yields `None` unless it is exactly `ComfyUI`, when it is returned whole |
| `Text.IndexOf` | SampleDiffusion.py:24-27 | the `enumerate`/`break` search finds the first index of the element, and `None` exactly when the element is absent |
| `Text.Split` | SampleDiffusion.py:22 | `split('\\')` yields at least one piece, and no piece contains the separator |
| `Text.JoinSplit` | SampleDiffusion.py:22-30 | joining the pieces of a split with the same separator gives back the original string |
| `Text.SplitJoin` | SampleDiffusion.py:22-30 | splitting a join of separator-free pieces gives back the pieces |
| `Text.JoinPrefix` | SampleDiffusion.py:30 | the join of the first `m` pieces is a prefix of the whole join, followed by the separator when pieces remain |
| `Text.Join` | SampleDiffusion.py:30 | `sep.join(parts)`, the pieces with the separator between neighbours; its round trips with `Split` are `Text.JoinSplit` and `Text.SplitJoin`, its prefixes `Text.JoinPrefix` |
| `Text.Basename` | SampleDiffusion.py:530 | `os.path.basename` returns a `/`-free suffix of the path, preceded by `/` unless it is the whole path |
| `Text.ReplaceChar` | SampleDiffusion.py:527 | `replace("\\", "/")` keeps the length and changes exactly the backslashes |
| `Text.PathJoinEndsWith` | SampleDiffusion.py:144 | `os.path.join(a, b)` ends with `b`, after `a` and a `/` (or after `a` alone when `a` is empty or ends in `/`) |
| `Text.PathJoin` | SampleDiffusion.py:144 | two-argument POSIX `os.path.join`, as used at lines 90, 92, 99 and 144; what the joined path ends with is `Text.PathJoinEndsWith` |
| `Text.ParseNatToString` | SampleDiffusion.py:144 | the decimal form of the counter reads back to the counter |
| `Text.NatToString` | SampleDiffusion.py:144 | the decimal form `str(ix)` of the counter is non-empty and all digits |
| `Text.NatToStringLength` | SampleDiffusion.py:143-147 | a counter of at least `10^k` has more than `k` digits, so the candidate names grow without bound |
| `AudioChannels.Strided` | SampleDiffusion.py:199 | `data[start::step]` holds `data[start + k*step]` at position `k`, and has exactly one element per such index below the length |
| `AudioChannels.GetChannelAudioData` | SampleDiffusion.py:196-199 | `IndexError` exactly when `channel < 0` or `channel >= num_channels`; otherwise element `k` is sample `channel + k*num_channels`, for every such index in range |
| `AudioChannels.EverySampleInItsChannel` | SampleDiffusion.py:196-199 | every interleaved sample `i` appears as element `i / n` of channel `i % n` |
| `SaveAudio.Folder.Touch` | SampleDiffusion.py:149 | `open(path, "a")` adds the path to the existing files and changes nothing else |
| `SaveAudio.Folder.Exists` | SampleDiffusion.py:145 | `os.path.exists(path)` holds exactly for the paths in the folder's `files`; `Touch` is what adds to them |
| `SaveAudio.SampleName` | SampleDiffusion.py:144 | the candidate file name `sample_{id}_{ix}.wav`, or `sample_{ix}.wav` for an empty id; the counter can be read back from it (`SaveAudio.SampleNameInjective`) |
| `SaveAudio.OutputFile` | SampleDiffusion.py:144 | the candidate path, the sample name joined to the output folder; distinct counters give distinct paths (`SaveAudio.OutputFileInjective`) |
| `SaveAudio.SampleNameInjective` | SampleDiffusion.py:144 | names built from different counters differ |
| `SaveAudio.OutputFileInjective` | SampleDiffusion.py:144 | candidate paths built from different counters in one folder differ |
| `SaveAudio.FirstFree` | SampleDiffusion.py:143-147 | the `while True` search returns the first counter from `ix` on whose path does not exist; every counter it passes names an existing path |
| `SaveAudio.AllocatedStep` | SampleDiffusion.py:142-154 | claiming the first free counter keeps the allocation invariant: paths fresh and distinct, counters increasing, skipped counters taken beforehand |
| `SaveAudio.Save` | SampleDiffusion.py:136-156 | one path per sample, each `sample_{id}_{ix}.wav` or `sample_{ix}.wav` from strictly increasing counters from 1; all distinct and absent before; the folder afterwards is exactly the old files plus these paths; every counter skipped was already taken |
| `Preview.LastComponentUnique` | SampleDiffusion.py:530 | a path has only one last component |
| `Preview.PreviewName` | SampleDiffusion.py:527-530 | one entry of the preview list, the base name after replacing backslashes by slashes; that it is the unique last component is `Preview.PreviewNameIsLastComponent` |
| `Preview.PreviewNameIsLastComponent` | SampleDiffusion.py:527-530 | the preview name is the suffix after the last `/` or `\`, and contains neither |
| `Preview.PreviewAudioFile` | SampleDiffusion.py:525-531 | the result has one entry per path, in order, each the last component of its path |
| `Preview.PreviewNameOfSample` | SampleDiffusion.py:556-558 | the preview name of a saved sample path is the sample's file name, whatever folder it was saved in |
| `Preview.TempDir` | SampleDiffusion.py:555 | the folder `f"{comfy_dir}/temp"`, with an undiscovered install root formatted as `None` |
| `Preview.PreviewAudioTensor` | SampleDiffusion.py:553-559 | the batch is allocated as by `save_audio` in the temp folder with the random id, and the result lists exactly the claimed file names, in order |
| `AudioView.FullOutputDir` | SampleDiffusion.py:90-95 | the lookup folder is never empty; it is the type's folder joined to the module's folder when no subfolder is given, and that folder joined with the subfolder when one is |
| `AudioView.ServeFile` | SampleDiffusion.py:97-104 | a file is served exactly when its joined path is a regular file, under its base name; otherwise 404 |
| `AudioView.ViewAudio` | SampleDiffusion.py:84-104 | 404 without `filename`; 400 exactly for a type outside the four allowed; 403 exactly for an escaping subfolder; otherwise the file is served exactly when the base name of `filename` joined to the resolved folder is a regular file, and a served file is that path under that name |
| `AudioView.UnknownTypeRefused` | SampleDiffusion.py:86-88 | any `type` other than `output`, `input`, `temp`, `audio_input` gets 400 |
| `AudioView.RequestedType` | SampleDiffusion.py:86 | the `type` query parameter, or `audio_input` when the request names none |
| `Merge.Padded` | SampleDiffusion.py:588-592 | the zero buffer holds the input in its first samples and zeros beyond the input's length |
| `Merge.DoMerge` | SampleDiffusion.py:582-597 | fails exactly when batch sizes or channel counts differ; otherwise the length is the longer one and each sample is `v1 * padded1 + v2 * padded2`, with zero past a batch's own length |

## Left out

- The upload route (`upload_audio`) and the construction of `web.FileResponse` and `web.Response`: these are asynchronous web I/O. `ViewAudio` returns a value that names the file or the status.
- `AudioView.ViewAudio`: the `commonpath`/`abspath` containment check depends on the operating system's path normalisation. It is the parameter `insideOutputDir`, and the model only states how its verdict is used.
- Path functions follow POSIX `os.path`. On Windows, `basename` also splits on `\` and strips drive letters, and `join` inserts `\`. This affects `Text.Basename` in `ViewAudio` and in `Preview.PreviewName` (where `ntpath` would also strip a drive, so `C:a.wav` would give `a.wav`), and `Text.PathJoin` in `Save`, `AudioView.FullOutputDir` and `AudioView.ServeFile` (where `ntpath` would insert `\`, so `ServeFile`'s `/` before the name holds only under POSIX).
- The YAML config bootstrap, the module import checks, and the import of the sampling library: these are import and filesystem side effects.
- `AudioInference.do_sample`: it marshals parameters into an external sampling library, places tensors on a device and draws random seeds. Only its final call to `save_audio` shares modelled code.
- `LoadAudioModelDD`, `LoadAudio` and `AudioIndex`: these load models and audio files and list directories. `LoadAudio` also reads `audio` before assigning it.
- Audio playback (`PlaySound`, the pygame mixer) and `AudioFFTData`/`get_channel_fft`: playback is a device side effect, and the FFT is floating point.
- `AudioData.__init__` reads the decoded file through pydub. Here `AudioData` values are built directly from their three fields.
- `SaveAudio.Save`: the sample data written by `torchaudio.save`, and the `os.makedirs` of the output folder, are not modelled. Only the existence of the claimed paths is. Another process creating a file between the existence test and `open` is not modelled either.
- `Preview.PreviewAudioTensor`: the random id (`random.randint(0, 10000000000)`) is the parameter `randomId`. The `tame` scaling and the sample rate do not affect the names and are not modelled. The returned `{"result": ..., "ui": ...}` dictionary is reduced to the list of names.
- `Merge.DoMerge`: samples and volumes are integers, not 32-bit floats, so rounding is not modelled. Tensors are three-dimensional by type.
- The `tame` scaling `(0.5 * tensor).clamp(-1, 1)`: it is floating point.
- The input declaration of the `PreviewAudioFile` node (SampleDiffusion.py:506-513) lists `tensor`, `output_path`, `sample_rate`, `id_string` and `tame`, while its method takes only `paths` (line 525), so the host cannot call the node with its declared inputs. `Preview.PreviewAudioFile` models the method on `paths`. Node declarations are not modelled.
- `MergeTensors` declares `sample_rate` as an optional input (SampleDiffusion.py:571-573), but `do_merge` gives it no default (line 582), so a graph that leaves it unconnected fails at the call. `Merge.DoMerge` takes the sample rate as a required parameter.
- `IntegerNode`, `StringListIndex` and the node registration tables: they are a cast, a bare index and static tables.
