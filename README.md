# OpenDroneMap stage: a Dafny model

This project models the core of the AgPipeline OpenDroneMap stage. The stage
takes drone images and folders of images, and has OpenDroneMap stitch them
into orthomosaics, point clouds and elevation models. Its core does these
things:

- It accepts the input files whose extensions the stage supports. It works
  out the capture time from the images' EXIF tags when the request gives
  none (`transformer_class.py`).
- It decides whether processing can go ahead. It stages the images in an
  `images/` folder of symbolic links and finds the ground-control-point
  file. It starts the engine with the project folder and the override file
  in its environment, then reports which of the engine's known result files
  exist (`odm.py`).
- The older stage merges an override document into the engine
  configuration, runs its check, and reports its result files
  (`transformer.py`).
- The engine worker reads the same settings from its environment
  (`worker.py`).
- The generic entry point loads the metadata file and calls the stage's
  hooks in order. It shapes every failure it detects into an
  `{error, code}` result and prints or writes that result
  (`entrypoint.py`).

Python values are modelled as the datatype `PyValues.Value`, with None,
booleans, integers, strings, lists and dictionaries. Exceptions that
propagate are modelled as `Raised(exc)` outcomes. The file system is a map
from path strings to directories, files and links. It changes only through
the class `FileSystems.FileSystem`, whose `Mkdir` and `Symlink` mirror
`os.mkdir` and `os.symlink`. Some things the core cannot see are passed in
as function parameters instead:

- the engine run;
- reading EXIF data;
- decoding JSON or YAML;
- the stage's hooks.

Printing and file writes are recorded as effects in the class
`Entrypoint.Sinks`. The engine configuration is the class
`Settings.Config`, and override documents are merged into it in place.

Where the documentation and the code disagree, the model follows the code:

- The older stage's image check looks at the folder's own suffix instead of
  the entry's, and its known extensions carry no dot. `LegacyTransformer.ImageCheckNeverTrue`
  proves that the check never succeeds, so that stage always answers -1000
  or -1001.
- Its success branch would evaluate `tuple(0)`, which raises.
- A negative UTC offset written by `isoformat` cannot be read back by the
  stage's own `fromisoformat` (`Timestamps.NegativeOffsetNotReparsed`).

## Model

| member | source | states |
|---|---|---|
| Text.SplitJoinRoundTrip | entrypoint.py:197 | joining the parts of `split(',')` with the separator gives back the original text, so splitting loses nothing |
| Text.IntToDecimalInjective | entrypoint.py:38 | two integers with the same `str()` text are equal |
| Paths.JoinedName | odm.py:123-125 | for a name without `/`, the base name of `join(folder, name)` is the name, and the two share the same `splitext` suffix; for a non-empty folder without a trailing `/`, `dirname` of the joined path gives the folder back |
| FileSystems.AddEntryDone | odm.py:102 | after a successful `mkdir` or `symlink`, the new path holds the new node, its parent lists it, and nothing else is added |
| FileSystems.AddEntryKeeps | odm.py:127 | `mkdir` and `symlink` never remove or alter an existing non-directory entry, and directories only gain children |
| FileSystems.FileSystem.Mkdir | odm.py:102 | an existing path raises FileExistsError, a missing parent FileNotFoundError, and a parent that is not a directory NotADirectoryError; each leaves the tree unchanged; otherwise an empty directory is added |
| FileSystems.FileSystem.Symlink | odm.py:127 | the same error cases as `Mkdir`; otherwise a link to the target is added under the new name |
| Timestamps.SelectLayout | transformer_class.py:39-48 | the `T` layout is used exactly when the text has a `T`; the dash layout exactly when it has no `T` and has a `-`; a fraction exactly when it has a `.`; and `%z` exactly when it has a `+` or its last `-` follows its last `:` |
| Timestamps.FromIsoFormat | transformer_class.py:30-55 | a missing or empty text gives None; a parsed value is a valid date and time; it carries an offset exactly when `%z` was selected |
| Timestamps.IsoRoundTrip | transformer_class.py:144 | `fromisoformat(dt.isoformat())` returns `dt` for naive values and for non-negative whole-second offsets |
| Timestamps.NegativeOffsetNotReparsed | transformer_class.py:30-55 | the `isoformat` text of a value with a negative UTC offset is rejected by `fromisoformat` |
| Timestamps.Before | transformer_class.py:138 | comparing naive with aware raises TypeError; otherwise the comparison is the order of instants, and with equal offsets the order of wall-clock readings |
| Timestamps.ConvertAndCleanTag | transformer_class.py:69-93 | a false tag gives None; only a true tag with no `strip` (AttributeError) or undecodable bytes (UnicodeDecodeError) raises; a text tag gives its stripped text, or None when colons, dashes and whitespace are all it holds |
| Timestamps.ExifTagsToTimestamp | transformer_class.py:58-119 | no DateTimeOriginal gives no timestamp; otherwise the cleaned stamp is parsed, with the cleaned offset appended minus its colons when there is one; errors from cleaning either tag propagate; a parsed result is valid |
| Timestamps.ExifColonStampNegativeOffset | transformer_class.py:39-48 | an EXIF-style `YYYY:MM:DD` stamp with an offset containing `-` selects the dash layout and never yields a timestamp |
| Timestamps.Earlier | transformer_class.py:132-141 | the result is the running value or the file's timestamp; with no running value it is the file's; with one it is never later than it |
| Timestamps.GetFirstTimestamp | transformer_class.py:122-146 | when neither the argument nor the file yields a datetime, the argument is returned unchanged |
| Timestamps.FirstTimestampNeverLater | transformer_class.py:122-146 | for timestamps that render faithfully (naive, or whole-second non-negative offsets), the result read back is never later than the parsed argument |
| Timestamps.UnusableFileKeepsRunning | transformer_class.py:132-146 | a file that cannot be read, has no EXIF block or has no usable timestamp leaves the running value as it was, only normalised by `isoformat` |
| Timestamps.MixedAwarenessSkipsFile | transformer_class.py:133-144 | a file whose awareness differs from the running value's is skipped, because the TypeError from the comparison is caught |
| Timestamps.RunningTimestampIsEarliest | transformer_class.py:266-281 | over files whose timestamps are all naive or all aware and render faithfully (naive, or whole-second non-negative offsets), the running value is None exactly when no file yields a timestamp; otherwise it reads back as one of the files' timestamps and is no later than any of them |
| TransformerClass.ExtNameStrips | transformer_class.py:197-199 | the extension test compares the lower-cased `splitext` suffix with its leading dot removed |
| TransformerClass.SupportedDotted | transformer_class.py:168-171 | a path is accepted exactly when its lower-cased suffix is one of `.tif`, `.tiff`, `.jpg`, `.txt` |
| TransformerClass.GetAcceptableFiles | transformer_class.py:185-201 | the loop's result equals the specification `AcceptableFiles` |
| TransformerClass.AcceptableFilesMembers | transformer_class.py:185-201 | a path is returned exactly when some argument contributes it: a supported file itself, or a supported entry of a folder, joined to the folder |
| TransformerClass.FolderFilesMembers | transformer_class.py:194-198 | a folder contributes exactly its supported entries, each joined to the folder path |
| TransformerClass.Lookup | transformer_class.py:257-262 | on a mapping, the value under the key, or None when the key is absent |
| TransformerClass.ParseMd | transformer_class.py:248-252 | the parameters come from the first metadata element, or from its `content` when it has one; an empty list raises IndexError |
| TransformerClass.WriteBack | transformer_class.py:284-286 | the timestamp is written back exactly when the metadata is a mapping, and only `observationTimeStamp` changes |
| TransformerClass.KeepFiles | transformer_class.py:266-281 | the loop keeps exactly the files `KeptFiles` keeps; when no timestamp was given, it computes the running timestamp over them |
| TransformerClass.KeptFilesMembers | transformer_class.py:268-270 | a file is kept exactly when it is among the inputs and does not start with `-` |
| TransformerClass.Transformer.GetTransformerParams | transformer_class.py:203-303 | records the arguments on the instance and returns the specification `TransformerParams` |
| TransformerClass.ListedFiles | transformer_class.py:266-298 | the files handed on are exactly the accepted files that do not start with `-`, in order |
| TransformerClass.ParamsOfMapping | transformer_class.py:248-303 | metadata that is a mapping always yields parameters: season, study name and the stage section are read from it (None when absent), and the working folder comes from the arguments |
| TransformerClass.CallerTimestampKept | transformer_class.py:257-286 | a timestamp from the request is kept; the metadata is unchanged; and the result does not depend on any file's EXIF data |
| TransformerClass.NoTimestampParams | transformer_class.py:266-298 | without a timestamp in the request, the reported timestamp is the running value over the kept files, and it is written back into the metadata when there is one |
| TransformerClass.DiscoveredTimestamp | transformer_class.py:266-298 | a discovered timestamp is None exactly when no kept file yields one; otherwise it is the `isoformat` text of the earliest file timestamp, written back into the metadata |
| Manifest.CollectManifest | odm.py:270-281 | the nested loop builds exactly the specification manifest `ManifestOf` |
| Manifest.AppendGroup | odm.py:275-281 | the inner loop appends exactly the entries of one folder whose files exist |
| Manifest.ManifestMembers | odm.py:270-281 | an entry is listed exactly when it names a table file that exists, under its table key |
| Manifest.GroupManifestMembers | odm.py:275-281 | an entry of one folder is exactly an existing file of that folder |
| Manifest.ManifestAppend | odm.py:271 | the manifest follows table order, folder after folder |
| Manifest.LegacyManifestIsPrefix | transformer.py:23-37 | the current table's manifest is the older table's manifest followed by the entries of the elevation-model folder |
| Manifest.ManifestBound | odm.py:270-281 | the manifest never lists more entries than the table has files |
| Manifest.FullManifest | odm.py:270-281 | when every table file exists, all of them are listed |
| Manifest.FileCounts | odm.py:23-40 | the current table lists 12 files and the older one 10 |
| Manifest.EntryValueInjective | odm.py:278-281 | two entries with the same `{path, key}` mapping are the same entry |
| Odm.CheckForImageFile | odm.py:51-73 | a file path is accepted exactly when its lower-cased suffix is `.tif`, `.tiff` or `.jpg`; a folder exactly when one of its entries, looked up bare, is not a directory and has such a suffix |
| Odm.CheckGcpFile | odm.py:76-86 | a path is a control-point file exactly when its base name is `gcp_list.txt` |
| Odm.MakeCandidate | odm.py:108-119 | an image is never also taken as a control-point file |
| Odm.ClassifyFiles | odm.py:106-119 | the loop collects exactly the images of the specification `Candidates`, and the last control-point file found |
| Odm.ClassifyEntries | odm.py:109-115 | the folder loop appends that folder's images and keeps the last control-point file |
| Odm.ImagesOfMembers | odm.py:106-119 | a path is collected exactly when some candidate is an image with that path |
| Odm.LastGcpWins | odm.py:114-119 | the control-point file is absent exactly when no candidate is one; otherwise it is the last such candidate |
| Odm.NoImageMessageLists | odm.py:247-248 | the -1001 message names `.tif, .tiff, .jpg` |
| Odm.CheckContinue | odm.py:222-248 | a named override file that is missing gives -1000 before any input is checked; otherwise the result is 0 exactly when some input holds an image, and -1001 with the accepted types when none does |
| Odm.MakeImagesFolder | odm.py:100-102 | an existing `images` entry is used as it is; an absent one is created empty |
| Odm.ImagesFolderOnlyIfAbsent | odm.py:100-102 | `images/` is created exactly when nothing of that name exists and its parent is a directory; an absent one under a parent that is not a directory makes staging fail |
| Odm.LinkImages | odm.py:122-127 | the link loop has the effect of the specification `LinkAll`, stopping at the first failure |
| Odm.Prepare | odm.py:98-100 | without a working folder (no working space given), staging raises TypeError and leaves the file system as it was; a successful staging returns the working folder given |
| Odm.PrepareProjectFolder | odm.py:89-137 | the file system and the outcome are those of the specification `Prepare`: TypeError for a missing working folder, otherwise `Stage` |
| Odm.Stage | odm.py:89-137 | a successful staging returns the working folder |
| Odm.LinkAllLinks | odm.py:122-127 | after successful linking, every requested name is a link to its target |
| Odm.TakenPathFails | odm.py:127 | linking to a name that already exists fails |
| Odm.DuplicateBaseNameFails | odm.py:122-127 | two images with the same base name make staging fail |
| Odm.StagingKeepsEntries | odm.py:89-137 | staging never removes or alters an existing entry, whether it succeeds or fails; directories only gain children |
| Odm.StagedLinks | odm.py:122-135 | after a successful staging every image is linked as `images/<basename>`, and a control-point file found is linked into the working folder under its base name |
| Odm.StagingFailsOnTakenName | odm.py:122-127 | an image whose link name is already taken makes staging fail |
| Odm.StitchEnvironment | odm.py:170-176 | the engine's environment is the caller's with `ODM_PROJECT` set to the project folder, and `ODM_SETTINGS` set only when an override path is given and not empty; no other variable changes |
| Odm.RunStitch | odm.py:162-206 | an engine that cannot be started raises and leaves the file system alone; otherwise the result is the engine's exit code and the file system is the engine's |
| Odm.PerformProcess | odm.py:250-285 | the file system and the outcome are those of the specification `Process` |
| Odm.EngineSeesProject | odm.py:263-267 | the engine starts only after staging succeeds; it is given the working folder as the project and the override path when there is one |
| Odm.MissingWorkingFolderRaises | odm.py:263-267 | without a working folder `perform_process` raises TypeError, creates nothing and never starts the engine |
| Odm.ProcessedFilesExist | odm.py:263-285 | a successful run answers a mapping with exactly the keys `file` and `code`; the code is the engine's exit code unchanged; an entry is listed exactly when it names a table file that exists after the engine has run |
| Odm.ProcessedDict | odm.py:263-285 | a successful run started the engine on the staged file system; it reports the engine's exit code unchanged, with the working folder's manifest taken against the file system the engine left |
| Odm.ResultDictLists | odm.py:283-285 | the result holds exactly `file` and `code`, and lists an entry exactly when it is in the manifest |
| Settings.Merge | transformer.py:85-91 | every override key that is not protected is set to its override value; every other key keeps its value; no key is added except override keys |
| Settings.FirstUnprotected | transformer.py:86-87 | finds the first list item that is not the protected name, or none when every item is protected |
| Settings.OverrideEffect | transformer.py:85-91 | a false document changes nothing; a non-empty mapping is merged; a list succeeds only when it changes nothing |
| Settings.MergedAll | worker.py:43-46 | once every key has been visited, the configuration is `Merge`'s, whatever order the keys were visited in |
| Settings.MergeIdempotent | transformer.py:85-91 | merging the same document twice changes nothing more |
| Settings.MergeNothing | transformer.py:87 | a document that sets only protected keys leaves the configuration unchanged |
| Settings.Config.SetAttr | transformer.py:89 | only the named setting changes |
| Settings.Config.MergeMapping | transformer.py:86-91 | the loop over the keys leaves the configuration equal to `Merge` of the old configuration with the document |
| Settings.Config.ApplyOverrides | worker.py:43-46 | it raises exactly when `OverrideEffect` does, with the same exception, and then leaves the configuration unchanged; otherwise the configuration becomes `OverrideEffect`'s |
| LegacyTransformer.CheckForImageFile | transformer.py:47-67 | the result is `LegacyImageFound`: the folder's own suffix is tested, not its entries' |
| LegacyTransformer.NoKnownSuffix | transformer.py:20 | no `splitext` suffix is among the known names, because the known names carry no dot |
| LegacyTransformer.ImageCheckNeverTrue | transformer.py:47-67 | the image check never succeeds, whatever the path and the file system |
| LegacyTransformer.GetMergeOptions | transformer.py:70-92 | returns a new configuration equal to `MergeOptions`, or raises what reading or merging raises |
| LegacyTransformer.MergeOptionsKeepsProjectPath | transformer.py:17 | the merged configuration has `project_path` exactly when the defaults do, with the same value |
| LegacyTransformer.MergeOptionsApplies | transformer.py:80-91 | a mapping document sets each of its keys except `project_path`; every other key keeps its default; nothing else is added |
| LegacyTransformer.MergeOptionsDefaults | transformer.py:80-85 | no path, an empty path, or a false document leaves the defaults as they are |
| LegacyTransformer.NoImageMessageLists | transformer.py:148 | the -1001 message names `tif, tiff, jpg` |
| LegacyTransformer.CheckContinue | transformer.py:126-148 | a named override file that is missing gives -1000; otherwise it raises TypeError exactly when some input passes the image check, and gives -1001 with the accepted types when none does |
| LegacyTransformer.CheckContinueNeverPasses | transformer.py:143-146 | no input ever passes the image check, so the `tuple(0)` branch is never reached |
| LegacyTransformer.ReportResults | transformer.py:173-188 | the answer is the older table's manifest of the project folder, with code 0 |
| LegacyTransformer.ReportedFiles | transformer.py:173-188 | the answer has exactly the keys `files` and `code`; the code is 0; at most ten files are listed; an entry is listed exactly when it is an existing file of the older table |
| Worker.PerformWork | worker.py:19-50 | returns a new configuration equal to `WorkerSettings`, or raises what it raises |
| Worker.MissingProjectRaises | worker.py:24-29 | without a project folder the worker raises ValueError before reading any document |
| Worker.NoSettingsFileNoOverrides | worker.py:25-40 | without an override document the configuration is the defaults, pointed at the project folder |
| Worker.OverridesApplied | worker.py:33-46 | a mapping document sets each of its keys except `project_path`; every other key keeps its default |
| Worker.ProjectPathIsProject | worker.py:50 | whatever the document holds, `project_path` is the folder the environment names |
| Worker.WorkerRunsInStagedProject | odm.py:170-176 | started by the stage, the worker works in the staged folder (an empty one is refused) and reads the override path the stage passed, if any |
| Entrypoint.HandleError | entrypoint.py:24-47 | the result has exactly `error` and `code`; a missing code becomes -1; a false message becomes the default message naming the code |
| Entrypoint.DefaultMessagesDistinct | entrypoint.py:38 | different codes never share a default message |
| Entrypoint.LoadMetadata | entrypoint.py:50-73 | the result has exactly one key: `metadata` holding the decoded value when it is not null; otherwise `error` with the invalid-JSON message for null, or the load message when reading raises |
| Entrypoint.ParseContinueResult | entrypoint.py:76-105 | an integer or boolean is a code alone; a string is neither; a sequence gives its first two items; None raises TypeError; a non-empty mapping raises KeyError |
| Entrypoint.ParsePairRoundTrip | entrypoint.py:99-105 | a `(code, message)` pair is read back as itself |
| Entrypoint.Recorded | entrypoint.py:122-125 | the code and the message are each recorded exactly when they are true |
| Entrypoint.HandleCheckContinue | entrypoint.py:108-129 | the result equals the specification `CheckContinueResult` |
| Entrypoint.FalseAnswerRecordsNothing | entrypoint.py:116-129 | an answer of 0, a string or an empty sequence records nothing, exactly as when there is no check |
| Entrypoint.PairAnswerRecords | entrypoint.py:116-129 | a `(code, message)` answer records the code exactly when it is not 0, and the message exactly when it is not empty |
| Entrypoint.GetParams | entrypoint.py:144-157 | a missing hook gives `{}`; a refusal is a result with code -101; the parameters used are exactly the returned mapping, which has no `code` |
| Entrypoint.IsNegative | entrypoint.py:162 | an integer code compares with 0, a boolean is never negative, and anything else raises TypeError |
| Entrypoint.PerformProcessing | entrypoint.py:132-181 | the result equals the specification `Processing` |
| Entrypoint.RefusedParamsStop | entrypoint.py:146-154 | parameters that are not a mapping, or that carry a code, give -101 with the right message, and neither the check nor the processing hook is consulted |
| Entrypoint.NegativeCheckStops | entrypoint.py:160-175 | a negative check code always yields an error result, and processing is not called |
| Entrypoint.StageRefusal | entrypoint.py:160-175 | a `(negative code, message)` check answer is returned with the generic error added |
| Entrypoint.ProcessingRuns | entrypoint.py:173-179 | when nothing stops it, the result is what processing returns for the parameters; without a processing hook it is the -102 error |
| Entrypoint.ZeroCheckProceeds | entrypoint.py:160-175 | a check answering 0 lets processing go ahead |
| Entrypoint.TypeParts | entrypoint.py:197 | one part for each comma-separated piece, with surrounding whitespace removed |
| Entrypoint.TypePartsClean | entrypoint.py:197 | no requested part holds a comma, and no non-empty part starts or ends with whitespace, so a part is a bare type name |
| Entrypoint.WriteEffects | entrypoint.py:202-205 | the file write comes last; it is preceded by exactly one effect, making its folder, exactly when that folder is missing, and by nothing otherwise |
| Entrypoint.ResultSinks | entrypoint.py:196-208 | the result is printed exactly when `print` or `all` is requested, and written exactly when `file` or `all` is requested and a path is given; nothing else is printed or written |
| Entrypoint.Sinks.Emit | entrypoint.py:199 | records one more effect after those already recorded |
| Entrypoint.WriteResult | entrypoint.py:201-205 | records exactly the write effects for the path |
| Entrypoint.EmitResult | entrypoint.py:197-208 | records exactly the effects the requested parts call for |
| Entrypoint.HandleResult | entrypoint.py:184-210 | returns the result unchanged, and records exactly `ResultEffects`: none without result types |
| Entrypoint.ResultFilePath | entrypoint.py:276-279 | a path exists exactly when a non-empty working space is given; its base name is `result.json`, and for a working space without a trailing `/` its folder is the working space |
| Entrypoint.DoWork | entrypoint.py:244-282 | the result equals the specification `Work`; an exception records no effect; on success exactly the result's effects are recorded, with the result folder looked up in the file system the stage's hooks leave when processing ran, and in the initial one when a metadata error stopped `do_work` first |
| Entrypoint.MetadataErrors | entrypoint.py:264-274 | no metadata path gives -1, a missing file -2, and an unreadable or null file -3 with the load error; the stage is not consulted |
| Entrypoint.MetadataHandedOn | entrypoint.py:269-272 | a readable, non-null metadata file is handed to processing as decoded |

## Left out

- Logging in every module, and the worker's progress prints (worker.py:22-58), are not modelled. That includes the logging set-up at the start of `get_transformer_params` (transformer_class.py:209-243) and the log level set in `do_work`.
- Starting the engine is not modelled. That covers `subprocess.Popen`, the polling loop, `time.sleep` and `consume_proc_output` (odm.py:140-160, 179-203). The engine is the parameter `Odm.Engine`: it either fails to start, which raises, or it runs, which gives an exit code and a new file system. The `-1` default in `run_stitch` is not modelled: a `Popen` object is always true, and a start failure raises.
- The OpenDroneMap application itself is not modelled: `ODMApp`, `app.execute()`, `os.chdir`, and `config.config()` (which becomes the `defaults` parameter). The same holds for the older stage's run of the application (transformer.py:169-170).
- The older stage's `prepare_project_folder` (transformer.py:95-112) is not modelled. It is not called by the current stage. `LegacyTransformer.ReportResults` takes the project folder as a parameter.
- `add_parameters` and command-line parsing (entrypoint.py:212-241, odm.py:212-220, transformer.py:115-123, transformer_class.py:173-182) are not modelled. The parsed arguments are the datatype `Entrypoint.CliArgs` and the transformer's `Args`.
- Decoding is not modelled: `json.load`, `yaml.safe_load`, `piexif.load` and the reading of the files behind them are the parameters `read`, `load` and `exif`. Decoded numbers are integers; floating-point values and non-string mapping keys are not represented.
- Printing and writing are not modelled as I/O: `json.dumps`, `print`, `os.makedirs` and `open(..., 'w')` are recorded as effects. Failures of `makedirs` and of the write are not modelled.
- `Entrypoint.Repr`: a mapping renders as `{...}`, not key by key, and strings are quoted without escaping. This only matters for the -101 message built from a `code` that is a mapping or holds quotes, backslashes or control characters.
- The entry point's hooks are not composed with the concrete stage, so `Entrypoint.Processing` is proved over arbitrary hooks. The concrete stage's parameters hold a function value (`list_files`), which a `Value` cannot hold.
- The parameters' `container_name`, `target_container_name` and `trigger_name` are always None and are not represented.
- `get_transformer_params` writes the discovered timestamp back into the metadata list it was given. The model returns the updated metadata instead, so the aliasing with the caller's list is not captured.
- The `-100` branch of `do_work` (entrypoint.py:253-256) is not modelled: a new `Transformer` instance is always true. The top-level handler that logs and re-raises (entrypoint.py:284-290) is not modelled.
- `Entrypoint.DoWork`: the file system the stage's hooks leave behind is an input (`after`), not computed from the hooks, since their effect on the disk is code outside the entry point.
- `Entrypoint.DoWork` calls the stage through the hooks above. `odm.py`'s own main block starts a different entry point from the base image, which is not part of this model.
- Paths are strings, compared as given, without normalisation. `os.path.exists` is key lookup, and links are not followed. Permission errors are not modelled.
- `str.lower` is modelled on ASCII letters only; other letters keep their case. `str.strip` uses Python's full whitespace set.
- `Timestamps.FromIsoFormat`: the date, time and offset fields accept only the ASCII digits `0`-`9`. Python's `strptime` matches `\d` without an ASCII restriction and `int()` reads any Unicode decimal digit, so a stamp written in, say, fullwidth digits parses in the source but gives None in the model.
- `configuration.py` is not modelled. Only `TRANSFORMER_NAME` is used, inlined as `TransformerClass.TransformerName`.
- `Timestamps.IsoRoundTrip` is stated for naive values and non-negative whole-second offsets only. `Timestamps.NegativeOffsetNotReparsed` shows that negative offsets do not round-trip. Offsets with sub-second parts are not covered.
- `TransformerClass.DiscoveredTimestamp`: the earliest-timestamp property is stated only when the files' timestamps are all naive or all aware and render faithfully. With mixed awareness the result depends on file order, as `Timestamps.MixedAwarenessSkipsFile` shows.
