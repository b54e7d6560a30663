/** The older OpenDroneMap stage (transformer.py): its image check, its
    merge of the override document into the engine configuration, its
    pre-flight check and the result it reports after processing. */
module LegacyTransformer {
  import opened PyValues
  import opened Text
  import opened Paths
  import opened FileSystems
  import opened Manifest
  import opened Settings

  /** `KNOWN_IMAGE_FILE_EXTS`: written without the leading dot. */
  const KnownImageFileExts: seq<string> := ["tif", "tiff", "jpg"]

  /** The lower-cased `splitext` suffix of `p`, dot included, is one of the
      known names, which carry no dot. */
  predicate KnownSuffix(p: string)
  {
    Lower(Ext(p)) in KnownImageFileExts
  }

  /** What `check_for_image_file` tests: for a folder, that it has an entry
      which (looked up bare) is not a directory and that the folder's own
      suffix is known; for anything else, that its suffix is known. */
  predicate LegacyImageFound(t: Tree, path: string)
  {
    if IsDir(t, path) then
      KnownSuffix(path) && exists i :: 0 <= i < |t[path].children| && !IsDir(t, t[path].children[i])
    else KnownSuffix(path)
  }

  /** `__internal__.check_for_image_file(path)` as written. */
  method CheckForImageFile(t: Tree, path: string) returns (found: bool)
    ensures found <==> LegacyImageFound(t, path)
  {
    if IsDir(t, path) {
      var names := ListDir(t, path);
      for i := 0 to |names|
        invariant forall k :: 0 <= k < i ==> !(!IsDir(t, names[k]) && KnownSuffix(path))
      {
        if !IsDir(t, names[i]) {
          if KnownSuffix(path) {
            return true;
          }
        }
      }
      return false;
    }
    return KnownSuffix(path);
  }

  /** No suffix is ever known: a `splitext` suffix is empty or starts with
      a dot, and none of the known names does. */
  lemma NoKnownSuffix(p: string)
    ensures !KnownSuffix(p)
  {
    var e := Ext(p);
    if e != "" {
      assert Lower(e)[0] == '.';
      forall name | name in KnownImageFileExts
        ensures Lower(e) != name
      {
        assert name[0] != '.';
      }
    }
  }

  /** So the image check never succeeds, whatever the path and the file
      system. */
  lemma ImageCheckNeverTrue(t: Tree, path: string)
    ensures !LegacyImageFound(t, path)
  {
    NoKnownSuffix(path);
  }

  /** The configuration `get_merge_options(path)` returns, or what it
      raises: the defaults when no path is given, otherwise the defaults
      with the document read from `path` merged in.  `load` stands for
      opening the file and decoding it as YAML. */
  function MergeOptions(defaults: map<string, Value>, path: Option<string>,
                        load: string -> Outcome<Value>): Outcome<map<string, Value>>
  {
    if path.Some? && path.value != "" then
      var newSettings := load(path.value);
      if newSettings.Raised? then Raised(newSettings.exc)
      else OverrideEffect(defaults, newSettings.value)
    else Done(defaults)
  }

  /** `__internal__.get_merge_options(path)`. */
  method GetMergeOptions(defaults: map<string, Value>, path: Option<string>,
                         load: string -> Outcome<Value>) returns (r: Outcome<Config>)
    ensures r.Raised? <==> MergeOptions(defaults, path, load).Raised?
    ensures r.Raised? ==> r.exc == MergeOptions(defaults, path, load).exc
    ensures r.Done? ==> fresh(r.value) && r.value.settings == MergeOptions(defaults, path, load).value
  {
    var args := new Config(defaults);
    if path.Some? && path.value != "" {
      var newSettings := load(path.value);
      if newSettings.Raised? {
        return Raised(newSettings.exc);
      }
      var applied := args.ApplyOverrides(newSettings.value);
      if applied.Raised? {
        return Raised(applied.exc);
      }
    }
    return Done(args);
  }

  /** The merged configuration never has a different `project_path` from
      the defaults: it is there exactly when it is among the defaults, with
      the same value. */
  lemma MergeOptionsKeepsProjectPath(defaults: map<string, Value>, path: Option<string>,
                                     load: string -> Outcome<Value>)
    requires MergeOptions(defaults, path, load).Done?
    ensures var merged := MergeOptions(defaults, path, load).value;
      && ("project_path" in merged <==> "project_path" in defaults)
      && ("project_path" in defaults ==> merged["project_path"] == defaults["project_path"])
  {
  }

  /** A mapping document sets every one of its keys except `project_path`;
      every other key keeps its default. */
  lemma MergeOptionsApplies(defaults: map<string, Value>, path: string, load: string -> Outcome<Value>,
                            overrides: map<string, Value>, k: string)
    requires path != "" && load(path) == Done(VDict(overrides))
    ensures MergeOptions(defaults, Some(path), load).Done?
    ensures var merged := MergeOptions(defaults, Some(path), load).value;
      && (k in overrides && k !in NoOverrideSettings ==> k in merged && merged[k] == overrides[k])
      && (k !in overrides && k in defaults ==> k in merged && merged[k] == defaults[k])
      && (k !in overrides && k !in defaults ==> k !in merged)
  {
    if overrides == map[] {
      MergeNothing(defaults, overrides);
    }
  }

  /** No path, an empty path or a document that decodes to something false
      (nothing, an empty mapping) leaves the defaults as they are. */
  lemma MergeOptionsDefaults(defaults: map<string, Value>, path: Option<string>,
                             load: string -> Outcome<Value>)
    requires path.None? || path.value == "" || (load(path.value).Done? && !Truthy(load(path.value).value))
    ensures MergeOptions(defaults, path, load) == Done(defaults)
  {
  }

  /** The message naming the accepted image types. */
  const NoImageMessage: string :=
    "Unable to find an image file in files to process. Accepting files types: '" + JoinText(KnownImageFileExts, ", ") + "'"

  lemma NoImageMessageLists()
    ensures NoImageMessage == "Unable to find an image file in files to process. Accepting files types: 'tif, tiff, jpg'"
  {
    assert JoinText(KnownImageFileExts, ", ") == "tif, tiff, jpg";
  }

  /** The override file is named but missing. */
  predicate MissingOverrides(t: Tree, odmOverrides: Option<string>)
  {
    odmOverrides.Some? && odmOverrides.value != "" && !Exists(t, odmOverrides.value)
  }

  /** `check_continue`: a named override file that does not exist is
      reported (-1000); an input the image check accepts would make it
      evaluate `tuple(0)`, which raises a `TypeError`; otherwise -1001 with
      the accepted types.  Tuples are returned as sequences. */
  method CheckContinue(t: Tree, odmOverrides: Option<string>, listFiles: seq<string>) returns (r: Outcome<Value>)
    ensures MissingOverrides(t, odmOverrides) ==>
      r == Done(VList([VInt(-1000), VStr("OpenDroneMap overrides specified but file is not available: '" + odmOverrides.value + "'")]))
    ensures !MissingOverrides(t, odmOverrides) ==>
      (r.Raised? <==> exists i :: 0 <= i < |listFiles| && LegacyImageFound(t, listFiles[i]))
    ensures !MissingOverrides(t, odmOverrides) ==>
      (r.Raised? ==> r.exc == TypeError) && (r.Done? ==> r.value == VList([VInt(-1001), VStr(NoImageMessage)]))
  {
    if odmOverrides.Some? && odmOverrides.value != "" {
      if !Exists(t, odmOverrides.value) {
        return Done(VList([VInt(-1000), VStr("OpenDroneMap overrides specified but file is not available: '" + odmOverrides.value + "'")]));
      }
    }
    for i := 0 to |listFiles|
      invariant forall k :: 0 <= k < i ==> !LegacyImageFound(t, listFiles[k])
    {
      var found := CheckForImageFile(t, listFiles[i]);
      if found {
        return Raised(TypeError);
      }
    }
    return Done(VList([VInt(-1001), VStr(NoImageMessage)]));
  }

  /** Because the image check never succeeds, the older stage never lets
      processing continue: it answers -1000 or -1001 and never raises. */
  lemma CheckContinueNeverPasses(t: Tree, listFiles: seq<string>)
    ensures forall i :: 0 <= i < |listFiles| ==> !LegacyImageFound(t, listFiles[i])
  {
    forall i | 0 <= i < |listFiles|
      ensures !LegacyImageFound(t, listFiles[i])
    {
      ImageCheckNeverTrue(t, listFiles[i]);
    }
  }

  /** The mapping `perform_process` returns: the manifest under `files`,
      and the code, which is always 0. */
  function LegacyResult(files: seq<Entry>): Value
  {
    VDict(map["files" := VList(EntryValues(files)), "code" := VInt(0)])
  }

  /** The reporting part of `perform_process`: the result files of the
      older table that exist under the project folder. */
  method ReportResults(projectPath: string, t: Tree) returns (r: Value)
    ensures r == LegacyResult(ManifestOf(projectPath, LegacyResultFiles(), t))
  {
    var filesMd := CollectManifest(projectPath, LegacyResultFiles(), t);
    return LegacyResult(filesMd);
  }

  /** The report has exactly the keys `files` and `code`, the code is 0,
      at most ten files are listed, and an entry is listed exactly when it
      is a file of the older table that exists. */
  lemma ReportedFiles(projectPath: string, t: Tree, e: Entry)
    ensures var r := LegacyResult(ManifestOf(projectPath, LegacyResultFiles(), t));
      && r.entries.Keys == {"files", "code"} && r.entries["code"] == VInt(0)
      && |r.entries["files"].items| <= 10
      && (EntryValue(e) in r.entries["files"].items <==>
            Exists(t, e.path)
            && exists g, k :: 0 <= g < |LegacyResultFiles()| && 0 <= k < |LegacyResultFiles()[g].files|
                 && e == Entry(ResultPath(projectPath, LegacyResultFiles()[g].folder, LegacyResultFiles()[g].files[k]),
                               LegacyResultFiles()[g].files[k].kind))
  {
    var es := ManifestOf(projectPath, LegacyResultFiles(), t);
    EntryValueInjective(es, e);
    ManifestMembers(projectPath, LegacyResultFiles(), t, e);
    ManifestBound(projectPath, LegacyResultFiles(), t);
    FileCounts();
  }
}
