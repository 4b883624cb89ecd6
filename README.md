# Launcher utilities, translation manager and upscale pipeline, in Dafny

This project models three small modules of an image-generation front end and proves what they promise.

- **Translation manager** (`translation_manager.dfy`, module `Translation`).
  - One table of per-language dictionaries is shared by every manager (the class attribute `translations`). The constructor fills it from the JSON files of the `language` folder.
  - Each manager has a current language, which starts as `en`.
  - `translate` looks a string up in the current language's dictionary. When that language has none it uses English's, and when English has none either it returns the input. It then applies an optional `format_map`; a formatting error is swallowed.
  - The constructor's loop is a Dafny `for` loop over the directory listing that writes into the shared table. It is proved against `Fill`, the same loop stated as a function, and `Fill`'s results are proved as lemmas.
  - `translate` is the function `Translated` over the table and the current language. The class function `TranslationManager.Translate` applies it to the object's state and changes nothing.
- **Upscale pipeline** (`upscale_pipeline.dfy`, module `UpscalePipeline`).
  - The model cache (`model_hash`), kept as a class field.
  - The in-place rewrite of a generation request (`parse_gen_data`), done on the request object.
  - The keyword file of a LoRA (`load_keywords`).
  - The upscaler path and its `4x-UltraSharp.pth` fallback.
  - `process`: the progress events it appends to the worker's result queue and what it returns. `Process` is an imperative method that appends one event at a time to a `ResultSink` object. It is proved equal to `Run`, a function giving the whole trace, and the success, failure and channel properties are lemmas about `Run`.
  - The image decoding, the model loading and the upscaler itself are replaced by the given outcomes in `Externals`.
- **Launcher utilities** (`launch_util.dfy`, module `LaunchUtil`).
  - `requirements_met`, which decides whether the listed packages are installed in matching versions. The method is a loop over the lines with an early exit. Each step of the loop body is its own method, proved against `LineVerdict`, and the loop is proved against `Check`.
  - The requirement pattern `\s*([-_a-zA-Z0-9]+)\s*(?:==\s*([-+_.a-zA-Z0-9]+))?\s*` is modelled by greedy spans.
  - `repo_dir`, over a model of `pathlib.PurePosixPath`: parsing a string into a root and parts, `/`, and `str`.
  - The command lines of `run_pip` and `pip_rm`.
- **Supporting files.**
  - `text.dfy` (module `Text`) holds the Python string and path operations the code relies on: `str.isspace`, `strip`, `startswith`/`endswith`, `str.replace`, `posixpath.join`, and the parsing, joining and printing of `pathlib.PurePosixPath`.
  - `wrappers.dfy` holds the `Option` type.

The foreign calls are parameters of the model:

- The directory listing, and the result of opening and parsing each file.
- `importlib.metadata.version`, as a map from package names to installed versions.
- `packaging.version.parse`, as a function to a canonical form, or `None` where it raises `InvalidVersion`.
- `str.format_map`, as a function that returns the formatted text or fails.
- `path_manager.get_file_path`, as a map from names to paths.
- Whether the image decodes and each model load succeeds, and the frames each upscale call produces.

Behaviour of the code worth knowing:

- A failure inside the `try` of `process` is reported on the `"preview"` channel with `(-1, "Oops ...", "html/error.png")`; no separate error channel is used (modules/upscale_pipeline.py:119-126).
- The model load and upscale run once before the `try` (modules/upscale_pipeline.py:82-91). A failure there, like a failure to decode the input image or to read the settings, propagates to the caller instead of being turned into an empty result (`UnguardedFailureRaises`, `RaisesOnlyBeforeTry`).
- `parse_gen_data` changes the caller's request in place and returns that same object; it does not make a copy (`ParseGenData`).
- `packaging.version.parse` is called outside any `try`, so a malformed version makes `requirements_met` raise rather than return `False` (`Verdict.InvalidVersion`).
- `repo_dir` goes through `pathlib`, so the name is normalised: empty and `.` parts are dropped, repeated and trailing `/` disappear, and a name with a root replaces the whole path (`RepoDirWithoutName`, `RepoDirIgnoresTrailingSlash`, `RepoDirParses`).

## Model

| member | source | states |
|---|---|---|
| Text.IsSpace | modules/launch_util.py:112-126 | Python's `str.isspace` on one character: the ASCII space, tab to carriage return, the separators U+001C to U+001F, and the Unicode spaces, line and paragraph separators; `\s` and `strip()` use this set |
| Text.TrimStart | modules/launch_util.py:126 | What `lstrip()` leaves is no longer than the input and does not start with white space |
| Text.TrimEnd | modules/launch_util.py:126 | What `rstrip()` leaves is no longer than the input and does not end with white space |
| Text.TrimStartSplits | modules/launch_util.py:126 | The input is a blank prefix followed by what `lstrip()` keeps |
| Text.TrimEndSplits | modules/launch_util.py:126 | The input is what `rstrip()` keeps followed by a blank suffix |
| Text.Strip | modules/launch_util.py:126 | `str.strip()`: `TrimEnd` of `TrimStart`; their contracts and the two splitting lemmas pin down what is removed |
| Text.StripEmptyIffBlank | modules/launch_util.py:126 | `line.strip() == ""` holds exactly when every character of the line is white space |
| Text.StripWithoutSpace | modules/launch_util.py:133-134 | `strip()` returns unchanged a string that neither starts nor ends with white space |
| Text.Replace | modules/upscale_pipeline.py:44 | `str.replace`: scans left to right and replaces each non-overlapping occurrence of the pattern; its meaning is stated by `ReplaceAbsent` and `ReplaceTrailing` |
| Text.ReplaceAbsent | modules/upscale_pipeline.py:44 | `str.replace` returns unchanged a string in which the pattern does not occur |
| Text.ReplaceTrailing | modules/upscale_pipeline.py:44 | Replacing in `t + pattern` replaces the trailing occurrence and treats `t` as it would alone, for a pattern whose first character does not recur in it |
| Text.JoinPath | modules/translation_manager.py:14 | `os.path.join(a, b)` on POSIX: `b` when it is absolute, else `a` and `b` with one `/` between them unless `a` is empty or ends with `/` |
| Text.JoinPathParts | modules/translation_manager.py:14 | `os.path.join(a, b)` ends with `b`; it starts with `a` unless `b` is absolute, and is `b` when `b` is absolute |
| Text.ParsePath | modules/launch_util.py:49 | `PurePosixPath(s)`: the root `RootOf` finds and the parts `Parts` keeps |
| Text.RootOf | modules/launch_util.py:49 | The root pathlib finds: none without a leading `/`, `//` for exactly two leading slashes, `/` otherwise |
| Text.Parts | modules/launch_util.py:49 | The parts pathlib keeps: the pieces between separators, without empty pieces and without `.` |
| Text.Slash | modules/launch_util.py:49 | `p / s`: the parts of `s` appended to those of `p`, or `s` alone when it has a root |
| Text.PathString | modules/launch_util.py:49 | `str(p)`: the root and the parts separated by `/`, or `.` for the empty relative path |
| Text.PartsArePure | modules/launch_util.py:49 | Every part parsing produces is non-empty, not `.` and free of `/` |
| Text.PartsOfJoined | modules/launch_util.py:49 | Parts joined with `/` parse back to the same parts |
| Text.ParsesBack | modules/launch_util.py:49 | Parsing the printed form of a path gives the path back |
| Text.PartsTrailingSlash | modules/launch_util.py:49 | A trailing `/` adds no part |
| LaunchUtil.IsNameChar | modules/launch_util.py:112 | The class `[-_a-zA-Z0-9]` of the package-name group: ASCII letters, digits, `-` and `_` |
| LaunchUtil.IsVersionChar | modules/launch_util.py:112 | The class `[-+_.a-zA-Z0-9]` of the version group: the name class with `+` and `.` |
| LaunchUtil.StripOfVersionText | modules/launch_util.py:133-134 | `strip()` of either group of the pattern changes nothing |
| LaunchUtil.Span | modules/launch_util.py:112 | A greedy repetition of a character class ends at the first character outside the class, or at the end of the line |
| LaunchUtil.MatchRequirement | modules/launch_util.py:112 | `re.match` fails exactly when the first character after the leading white space is not a name character; a match gives a name and, optionally, a version of the right classes |
| LaunchUtil.PinnedRequirementParses | modules/launch_util.py:112 | A line made of white space, a name, white space, `==`, white space and a version, followed by anything that cannot continue the version, yields exactly that name and version |
| LaunchUtil.EmptyPinRequirementParses | modules/launch_util.py:112 | `==` that no version character follows (`pkg==`, `pkg===1.0`) yields the name and no version, as in the bare case |
| LaunchUtil.BareRequirementParses | modules/launch_util.py:112 | A name followed by white space and anything but `==` yields that name and no version, whatever follows (`>=1.0`, extras, markers) |
| LaunchUtil.IsSkipped | modules/launch_util.py:126-127 | The loop skips a line that is blank or starts with `--` |
| LaunchUtil.PublicVersion | modules/launch_util.py:137-141 | The compared installed version is the part before the first `+`: a prefix containing no `+`, followed in the original by `+` unless it is all of it |
| LaunchUtil.RequirementVerdict | modules/launch_util.py:133-151 | A package that is not installed fails; without a version, being installed suffices; with a version, `InvalidVersion` when either version does not parse, met exactly when both parse to the same value |
| LaunchUtil.LineVerdict | modules/launch_util.py:126-151 | Skipped lines pass, lines the pattern does not match fail, and matched lines are judged on their two groups |
| LaunchUtil.Check | modules/launch_util.py:125-153 | The result for a file: the verdict of the first line that does not pass, or `Met` |
| LaunchUtil.CheckMetIff | modules/launch_util.py:125-153 | The file is satisfied exactly when every line passes |
| LaunchUtil.CheckAfterPassingPrefix | modules/launch_util.py:125-127 | Lines that pass can be dropped from the front without changing the result |
| LaunchUtil.FirstFailureDecides | modules/launch_util.py:129-151 | The first line that does not pass decides the result |
| LaunchUtil.SkippedLineIrrelevant | modules/launch_util.py:126-127 | Inserting a blank or `--` line anywhere leaves the result unchanged |
| LaunchUtil.CheckLine | modules/launch_util.py:126-151 | One iteration of the loop body returns the line's verdict, `Met` standing for `continue` |
| LaunchUtil.CheckRequirement | modules/launch_util.py:133-151 | The loop body after a match returns the verdict of the matched groups |
| LaunchUtil.RequirementsMet | modules/launch_util.py:115-153 | `requirements_met` returns the verdict of the first line that does not pass, or `True` |
| LaunchUtil.RepoDir | modules/launch_util.py:48-49 | `str(Path(script_path) / "repositories" / name)` over the pathlib model |
| LaunchUtil.RepoDirParses | modules/launch_util.py:48-49 | The returned string is a path whose root and parts are the name's own when it has a root, and otherwise the script path's root and parts, `repositories` and the name's parts |
| LaunchUtil.RepoDirOfRootedName | modules/launch_util.py:49 | A name with a root replaces the whole path, normalised |
| LaunchUtil.RepoDirOfRelativeName | modules/launch_util.py:49 | A name without a root contributes its parts after `repositories` |
| LaunchUtil.RepoDirWithoutName | modules/launch_util.py:48-49 | The empty name and `.` both give the repositories directory itself, `<script_path>/repositories` |
| LaunchUtil.RepoDirOfPlainName | modules/launch_util.py:48-49 | A name that is one part (not empty, not `.`, no `/`) gives the repositories directory, `/` and the name |
| LaunchUtil.RepoDirIgnoresTrailingSlash | modules/launch_util.py:48-49 | A trailing `/` on the name makes no difference, for relative and rooted names alike |
| LaunchUtil.Shown | modules/launch_util.py:99-108 | How an f-string prints the optional `desc`: the text itself, or `None` when it is missing |
| LaunchUtil.RunPip | modules/launch_util.py:95-102 | The command starts `"<python>" -m pip <command> --prefer-binary`, ends with ` --prefer-binary --index-url <url>` when an index URL is set and stops there otherwise; the messages are `Installing <desc>` and `Couldn't install <desc>` |
| LaunchUtil.PipRm | modules/launch_util.py:104-110 | The command starts `"<python>" -m pip `; the messages are `Uninstalling <desc>` and `Couldn't uninstall <desc>` |
| LaunchUtil.PipArguments | modules/launch_util.py:98 | A command line read back as pip arguments is the pip head followed by exactly those arguments |
| LaunchUtil.IndexUrlOnlyAppends | modules/launch_util.py:96-98 | Setting `INDEX_URL` only appends ` --index-url <url>` to the command and changes nothing else |
| LaunchUtil.PipArgumentsRoundTrip | modules/launch_util.py:95-110 | Both command lines hand the caller's text to pip verbatim: `uninstall -y <pkgs>`, and `<command> --prefer-binary` plus the index option |
| Translation.IsLanguageFile | modules/translation_manager.py:13 | `file.endswith('.json')`: the listed names the loop reads |
| Translation.FilePath | modules/translation_manager.py:14 | `os.path.join("language", file)`: the path opened for a listed name |
| Translation.LanguageName | modules/translation_manager.py:15 | `str(Path(file).with_suffix(""))` for a listed `.json` name: the name without its suffix, except the bare `.json` |
| Translation.LanguageNameRestores | modules/translation_manager.py:15 | The language name with `.json` appended is the file name; the bare name `.json` keeps its name |
| Translation.Step | modules/translation_manager.py:13-20 | One iteration: a `.json` file that opens and parses sets its language's entry to the parsed value; any other file leaves the table as it is |
| Translation.Fill | modules/translation_manager.py:12-22 | The table after the loop has gone through the listed files in order |
| Translation.FillDomain | modules/translation_manager.py:12-22 | After the loop, a language has an entry exactly when it had one before or a listed `.json` file that opens and parses is named after it; failed files add nothing |
| Translation.FillLatest | modules/translation_manager.py:20 | A language's entry is the content of the last listed file named after it that loads |
| Translation.FillKeeps | modules/translation_manager.py:12-22 | A language no loading file is named after keeps its entry, or its absence |
| Translation.Has | modules/translation_manager.py:28-31 | `get(lang, None) is not None`: the language has an entry and the entry is not a file holding `null` |
| Translation.Chosen | modules/translation_manager.py:28-32 | The current language's dictionary if it has one, else English's, else none; a `null` file counts as none |
| Translation.Translated | modules/translation_manager.py:27-40 | With no dictionary the input is returned. From a dictionary comes its entry for the input, or the input itself. Without a mapping that is the result, and with one the formatted text unless formatting fails, in which case the unformatted text is still returned. The call raises exactly when the chosen file holds a JSON value other than an object |
| Translation.EnglishIrrelevant | modules/translation_manager.py:28-30 | When the current language has a dictionary, the English entry has no effect on `translate` |
| Translation.TranslateReturns | modules/translation_manager.py:34-40 | When every loaded file holds an object or `null`, `translate` returns normally, whatever `format_map` does |
| Translation.TranslateAfterFill | modules/translation_manager.py:12-34 | After construction, with the language of the last loaded file for it current, `translate` without a mapping returns that file's entry for the input or the input |
| Translation.TranslationManager.Translate | modules/translation_manager.py:27-40 | `translate` on the object's state: `Translated` over the shared table and the current language, changing nothing |
| Translation.TranslationTable.constructor | modules/translation_manager.py:7 | The shared table starts empty |
| Translation.TranslationManager.constructor | modules/translation_manager.py:9-22 | The current language is `en`, and the shared table is its old contents filled from the listing (`Fill`) |
| Translation.TranslationManager.SetLanguage | modules/translation_manager.py:24-25 | The current language becomes the argument, and the shared table is unchanged |
| UpscalePipeline.Pipeline.constructor | modules/upscale_pipeline.py:16 | No model has been loaded yet: the hash is empty |
| UpscalePipeline.Pipeline.LoadBaseModel | modules/upscale_pipeline.py:35-41 | Afterwards the hash is the name; the model counts as loaded exactly when the hash was different, so a repeated call changes nothing |
| UpscalePipeline.Rewritten | modules/upscale_pipeline.py:18-22 | The request after the three assignments of `parse_gen_data` |
| UpscalePipeline.RewrittenEntries | modules/upscale_pipeline.py:18-22 | `original_image_number` holds the old `image_number`, `image_number` is 1 and `show_preview` is false. Every other key keeps its value, and only those two keys may be new |
| UpscalePipeline.ParseGenData | modules/upscale_pipeline.py:18-22 | The request object itself is rewritten and returned; a request without `image_number` raises before any change |
| UpscalePipeline.KeywordFile | modules/upscale_pipeline.py:44 | The keyword file name: every `.safetensors` in the name replaced by `.txt` |
| UpscalePipeline.LoadKeywords | modules/upscale_pipeline.py:43-50 | The contents of the keyword file when it exists, otherwise `" "` |
| UpscalePipeline.KeywordFileOfLora | modules/upscale_pipeline.py:44 | The keywords of `<stem>.safetensors` are read from `<stem>.txt` |
| UpscalePipeline.KeywordFileOfOtherName | modules/upscale_pipeline.py:44 | A name without `.safetensors` is read as it is |
| UpscalePipeline.UpscalerPath | modules/upscale_pipeline.py:78-81 | The configured upscaler's path if it is known, else the path of `4x-UltraSharp.pth`, else `None` |
| UpscalePipeline.UpscalerFile | modules/upscale_pipeline.py:25-28 | The resolver's path for the upscaler, or the name inside the upscaler directory; no file at all for a `None` path |
| UpscalePipeline.NoUpscalerFound | modules/upscale_pipeline.py:79-82 | When neither the configured nor the default upscaler is known, no model file can be read |
| UpscalePipeline.ResultSink.AddResult | modules/upscale_pipeline.py:71-75 | `add_result` appends exactly one event to the task's queue |
| UpscalePipeline.Convert | modules/upscale_pipeline.py:110-113 | One picture per upscaled frame, in order |
| UpscalePipeline.Progress | modules/upscale_pipeline.py:71-118 | A progress event: the request's task, the `preview` channel and the payload `(-1, message, None)` |
| UpscalePipeline.Oops | modules/upscale_pipeline.py:121-125 | The failure event: the request's task, the `preview` channel and the payload `(-1, "Oops ...", "html/error.png")` |
| UpscalePipeline.LoadsModel | modules/upscale_pipeline.py:24-33 | Whether `load_upscaler_model` returns: a model file exists for the path (the resolver's entry or the name inside the upscaler directory) and reading and loading it succeeds |
| UpscalePipeline.FirstPass | modules/upscale_pipeline.py:82-91 | The unguarded load and upscale: the `Upscaling image ...` message when the load succeeds, and whether either step raises |
| UpscalePipeline.GuardedPass | modules/upscale_pipeline.py:93-126 | The `try` block: three messages and the converted frames, or the messages sent before the failing step, `Oops ...` and no images |
| UpscalePipeline.Run | modules/upscale_pipeline.py:61-128 | The whole trace of `process`: raising with no event when the image or the task id is missing, after the first message when the settings fail, after the first pass when it raises; otherwise the first pass followed by the guarded part |
| UpscalePipeline.Process | modules/upscale_pipeline.py:61-128 | The events appended and the outcome are those of `Run` |
| UpscalePipeline.GuardedSteps | modules/upscale_pipeline.py:93-126 | The `try` block and its handler append the events and give the outcome of `GuardedPass` |
| UpscalePipeline.ProcessSucceeds | modules/upscale_pipeline.py:71-118 | Without failures, exactly the five messages `Load upscaling model ...`, `Upscaling image ...` twice, `Converting ...` and `Done ...`, and one picture per frame of the second upscale |
| UpscalePipeline.GuardedFailureReported | modules/upscale_pipeline.py:93-126 | A failure inside the `try` ends the messages already sent with `Oops ...` and `html/error.png`, and returns no images |
| UpscalePipeline.UnguardedFailureRaises | modules/upscale_pipeline.py:82-91 | A failure of the first load or upscale propagates, after at most two messages |
| UpscalePipeline.RaisesOnlyBeforeTry | modules/upscale_pipeline.py:66-128 | `process` raises exactly when a step before the `try` fails |
| UpscalePipeline.EventsArePreviews | modules/upscale_pipeline.py:71-125 | Every event is on the `preview` channel, for the request's task, at percentage -1. Only the failure message carries an image |
| UpscalePipeline.FirstUpscaleDiscarded | modules/upscale_pipeline.py:89-103 | The frames of the first upscale never affect events or result |

## Left out

- File and process I/O are inputs of the model, not operations in it: `os.listdir`, `open`, `json.load`, `file.read` and `importlib.metadata.version`. The `print`s and `traceback.print_exc()` output are not modelled.
- `run`, `git_clone`, `is_installed` and the logging setup in modules/launch_util.py (subprocess, network, import machinery and global logger state). `run_pip` and `pip_rm` are modelled only as the arguments they pass to `run`.
- `packaging.version.parse` is abstract: a function to a canonical form, compared for equality, with no PEP 440 rules.
- `requirements_met` works on lines the file iterator has already split; the `open` of the file and its encoding errors are not modelled.
- PublicVersion: the installed version is assumed to have no line break. `.` in `\+.*$` does not cross one, and the model drops everything from the first `+`.
- All tensor, image and model work:
  - the PIL-to-tensor conversion;
  - `load_torch_file`, the state-dict prefix rewrite and `load_state_dict`;
  - `ImageUpscaleWithModel`;
  - the clamp and 8-bit cast of each frame.

  These are replaced by success flags and opaque frames. The conversion of frames to pictures is taken not to fail.
- `modules.controlnet.get_settings` and `path_manager` are external collaborators, not part of this model. They appear as the setting's outcome and a name-to-path map. `path_manager.model_paths["upscaler_path"]` is the `upscalerDir` input.
- Full `str.format_map` grammar: formatting is a function that either yields a string or fails.
- Translation.LanguageName: the name `..json` keeps only `.`, as in the Python versions whose `with_suffix` does not check the new name. Newer versions raise there, outside the `try`, and that case is not modelled.
- Translation.Translated: dictionary values are taken to be strings. A file whose object holds other JSON values is not modelled.
- `process` called with `gen_data=None` is not modelled; the request is always a dictionary, possibly missing keys.
- `load_keywords`: open errors other than a missing file (a permission error, a directory) are not modelled.
- The unused `hash` argument of `load_base_model` and the no-op stubs `load_loras`, `refresh_controlnet` and `clean_prompt_cond_caches`.
- Paths are POSIX paths: `os.path.join` is `posixpath.join` and `Path` is `PurePosixPath`. Windows paths (drive letters, `\` as a separator) are not modelled.
- `Path.resolve` of the modules folder is not modelled: `script_path` is an input, a path as pathlib produces it.
- Concurrency of the worker queue: only the events appended by one `process` call are modelled.
- modules/async_worker.py, shared/path_manager.py and modules/controlnet.py are not part of this model.
