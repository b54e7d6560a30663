/** The generic transformer class: which input files it accepts and how it
    turns the request metadata and the file arguments into the parameters
    of the check and process steps, discovering the observation time from
    the files' EXIF data when the request names none. */
module TransformerClass {
  import opened PyValues
  import opened Text
  import opened Paths
  import opened FileSystems
  import opened Timestamps

  /** `configuration.TRANSFORMER_NAME`. */
  const TransformerName: string := "opendronemap"

  /** `Transformer.supported_image_file_exts`: lower case, without dots. */
  function SupportedImageFileExts(): seq<string>
  {
    ["tif", "tiff", "jpg"]
  }

  /** `Transformer.supported_file_exts`: the image extensions and `txt`. */
  function SupportedFileExts(): seq<string>
  {
    SupportedImageFileExts() + ["txt"]
  }

  /** `os.path.splitext(p)[1].lstrip('.').lower()`: the extension holds one
      dot, in front, so stripping dots drops that one (see `ExtNameStrips`). */
  function ExtName(p: string): string
  {
    var e := Ext(p);
    Lower(if e == "" then e else e[1..])
  }

  /** `ExtName` is the extension with its leading dots stripped, lowered. */
  lemma ExtNameStrips(p: string)
    ensures ExtName(p) == Lower(LStripChar(Ext(p), '.'))
  {
    var e := Ext(p);
    if e != [] {
      assert e[0] == '.';
      if e[1..] != [] {
        assert e[1..][0] in e[1..];
      }
      assert LStripChar(e[1..], '.') == e[1..];
    }
  }

  /** A path whose extension is one of the supported ones. */
  predicate Supported(p: string)
  {
    ExtName(p) in SupportedFileExts()
  }

  // ---------------------------------------------------------------------
  // get_acceptable_files

  /** The names `keep` accepts, each passed through `f`, in order. */
  function FilterMap(names: seq<string>, keep: string -> bool, f: string -> string): seq<string>
  {
    if names == [] then []
    else
      var name := names[|names| - 1];
      FilterMap(names[..|names| - 1], keep, f) + (if keep(name) then [f(name)] else [])
  }

  /** A folder entry that is kept: looked up bare, it is not a directory,
      and its extension is supported. */
  predicate EntryKept(t: Tree, name: string)
  {
    !IsDir(t, name) && Supported(name)
  }

  /** The entries of `folder` that are kept, joined to the folder. */
  function FolderFiles(t: Tree, folder: string, names: seq<string>): seq<string>
  {
    FilterMap(names, name => EntryKept(t, name), name => Join(folder, name))
  }

  /** What one argument contributes: a directory its kept entries, one
      level deep; any other path itself when its extension is supported. */
  function PathFiles(t: Tree, p: string): seq<string>
  {
    if IsDir(t, p) then FolderFiles(t, p, ListDir(t, p))
    else if Supported(p) then [p]
    else []
  }

  /** The accepted files, argument by argument, in order. */
  function AcceptableFiles(t: Tree, paths: seq<string>): seq<string>
  {
    if paths == [] then []
    else AcceptableFiles(t, paths[..|paths| - 1]) + PathFiles(t, paths[|paths| - 1])
  }

  /** `Transformer.get_acceptable_files(files_folders)`. */
  method GetAcceptableFiles(t: Tree, filesFolders: seq<string>) returns (returnFiles: seq<string>)
    ensures returnFiles == AcceptableFiles(t, filesFolders)
  {
    returnFiles := [];
    for i := 0 to |filesFolders|
      invariant returnFiles == AcceptableFiles(t, filesFolders[..i])
    {
      var onePath := filesFolders[i];
      assert filesFolders[..i + 1][..i] == filesFolders[..i];
      if IsDir(t, onePath) {
        returnFiles := AppendFolderFiles(returnFiles, t, onePath, ListDir(t, onePath));
      } else if Supported(onePath) {
        returnFiles := returnFiles + [onePath];
      }
    }
    assert filesFolders[..|filesFolders|] == filesFolders;
  }

  /** The inner loop of `get_acceptable_files`: the kept entries of one
      folder, joined to it, appended in listing order. */
  method AppendFolderFiles(returnFiles0: seq<string>, t: Tree, folder: string, names: seq<string>) returns (returnFiles: seq<string>)
    ensures returnFiles == returnFiles0 + FolderFiles(t, folder, names)
  {
    returnFiles := returnFiles0;
    for j := 0 to |names|
      invariant returnFiles == returnFiles0 + FolderFiles(t, folder, names[..j])
    {
      var dirPath := names[j];
      assert names[..j + 1][..j] == names[..j];
      ghost var added := if EntryKept(t, dirPath) then [Join(folder, dirPath)] else [];
      assert FolderFiles(t, folder, names[..j + 1]) == FolderFiles(t, folder, names[..j]) + added;
      if !IsDir(t, dirPath) {
        if Supported(dirPath) {
          returnFiles := returnFiles + [Join(folder, dirPath)];
        }
      }
      AppendAssoc(returnFiles0, FolderFiles(t, folder, names[..j]), added);
    }
    assert names[..|names|] == names;
  }

  /** The accepted files of two argument lists, one after the other, are
      those of the concatenation: argument order is kept. */
  lemma {:induction false} AcceptableFilesAppend(t: Tree, a: seq<string>, b: seq<string>)
    ensures AcceptableFiles(t, a + b) == AcceptableFiles(t, a) + AcceptableFiles(t, b)
    decreases |b|
  {
    if b == [] {
      assert a + b == a;
    } else {
      var init := b[..|b| - 1];
      assert (a + b)[..|a + b| - 1] == a + init;
      assert (a + b)[|a + b| - 1] == b[|b| - 1];
      AcceptableFilesAppend(t, a, init);
      AppendAssoc(AcceptableFiles(t, a), AcceptableFiles(t, init), PathFiles(t, b[|b| - 1]));
    }
  }

  /** A file is accepted exactly when some argument contributes it. */
  lemma {:induction false} AcceptableFilesMembers(t: Tree, paths: seq<string>, x: string)
    ensures x in AcceptableFiles(t, paths) <==> exists i :: 0 <= i < |paths| && x in PathFiles(t, paths[i])
  {
    if paths != [] {
      var init := paths[..|paths| - 1];
      AcceptableFilesMembers(t, init, x);
      assert forall i :: 0 <= i < |init| ==> init[i] == paths[i];
      if x in PathFiles(t, paths[|paths| - 1]) {
        assert x in AcceptableFiles(t, paths);
      }
    }
  }

  /** An entry of a listed folder is accepted exactly when, looked up bare,
      it is not a directory and its extension is supported; it is reported
      joined to the folder. */
  lemma FolderFilesMembers(t: Tree, folder: string, names: seq<string>, x: string)
    ensures x in FolderFiles(t, folder, names) <==>
      exists k :: 0 <= k < |names| && EntryKept(t, names[k]) && x == Join(folder, names[k])
  {
    FilterMapMembers(names, name => EntryKept(t, name), name => Join(folder, name), x);
  }

  lemma {:induction false} FilterMapMembers(names: seq<string>, keep: string -> bool, f: string -> string, x: string)
    ensures x in FilterMap(names, keep, f) <==> exists k :: 0 <= k < |names| && keep(names[k]) && x == f(names[k])
  {
    if names != [] {
      var n := |names| - 1;
      var init := names[..n];
      FilterMapMembers(init, keep, f, x);
      if x in FilterMap(init, keep, f) {
        var k :| 0 <= k < |init| && keep(init[k]) && x == f(init[k]);
        assert init[k] == names[k];
      }
      if exists k :: 0 <= k < |names| && keep(names[k]) && x == f(names[k]) {
        var k :| 0 <= k < |names| && keep(names[k]) && x == f(names[k]);
        if k < n {
          assert init[k] == names[k];
        }
      }
    }
  }

  /** A supported extension is, with its dot and in lower case, one of
      `.tif`, `.tiff`, `.jpg` and `.txt`. */
  lemma SupportedDotted(p: string)
    ensures Supported(p) <==> Lower(Ext(p)) in [".tif", ".tiff", ".jpg", ".txt"]
  {
    var d := Dotted(SupportedFileExts());
    assert d[0] == ".tif" && d[1] == ".tiff" && d[2] == ".jpg" && d[3] == ".txt";
    assert d == [".tif", ".tiff", ".jpg", ".txt"];
    UndottedIn(Ext(p), SupportedFileExts());
  }

  /** For an extension that is empty or starts with its dot, the lowered
      name without the dot is listed exactly when the lowered extension is
      listed with a dot. */
  lemma UndottedIn(e: string, names: seq<string>)
    requires e == "" || e[0] == '.'
    requires "" !in names
    ensures Lower(if e == "" then e else e[1..]) in names <==> Lower(e) in Dotted(names)
  {
    if e != "" {
      assert e == "." + e[1..];
      LowerAppend(".", e[1..]);
      DottedIn(Lower(e[1..]), names);
    } else {
      assert forall i :: 0 <= i < |names| ==> Dotted(names)[i] != "";
    }
  }

  /** Each name with a dot in front. */
  function Dotted(names: seq<string>): (r: seq<string>)
    ensures |r| == |names|
    ensures forall i :: 0 <= i < |names| ==> r[i] == "." + names[i]
  {
    if names == [] then [] else ["." + names[0]] + Dotted(names[1..])
  }

  lemma DottedIn(x: string, names: seq<string>)
    ensures "." + x in Dotted(names) <==> x in names
  {
    if "." + x in Dotted(names) {
      var i :| 0 <= i < |names| && Dotted(names)[i] == "." + x;
      assert ("." + x)[1..] == x && ("." + names[i])[1..] == names[i];
    }
    if x in names {
      var i :| 0 <= i < |names| && names[i] == x;
      assert Dotted(names)[i] == "." + x;
    }
  }

  // ---------------------------------------------------------------------
  // get_transformer_params

  /** The command-line arguments the parameters are built from. */
  datatype Args = Args(fileList: seq<string>, workingSpace: Option<string>)

  /** `check_md`, without the three container-name fields, which are
      always None, and with the value `list_files()` returns. */
  datatype CheckMd = CheckMd(
    timestamp: Value,
    season: Value,
    experiment: Value,
    contextMd: Value,
    workingFolder: Option<string>,
    listFiles: seq<string>)

  /** The mapping `get_transformer_params` returns. */
  datatype Params = Params(checkMd: CheckMd, transformerMd: Value, fullMd: Value)

  /** `key in md` and, when it is, `md[key]`; None when it is not. */
  function Lookup(md: Value, key: string): (r: Outcome<Value>)
    ensures md.VDict? ==> r == Done(if key in md.entries then md.entries[key] else VNone)
  {
    var c := Contains(md, key);
    if c.Raised? then Raised(c.exc)
    else if !c.value then Done(VNone)
    else Subscript(md, key)
  }

  /** The metadata the parameters are read from: the first element of the
      loaded metadata, or its `content` when it has one. */
  function ParseMd(metadataList: Value): (r: Outcome<Value>)
    ensures metadataList.VList? && metadataList.items != [] && metadataList.items[0].VDict? ==>
      var m := metadataList.items[0].entries;
      r == Done(if "content" in m then m["content"] else metadataList.items[0])
    ensures metadataList.VList? && metadataList.items == [] ==> r == Raised(IndexError)
  {
    var first := First(metadataList);
    if first.Raised? then first
    else
      var c := Contains(first.value, "content");
      if c.Raised? then Raised(c.exc)
      else if c.value then Subscript(first.value, "content")
      else first
  }

  /** `one_file.startswith('-')`. */
  predicate StartsWithDash(s: string)
  {
    |s| > 0 && s[0] == '-'
  }

  /** The files that are kept: those not starting with `-`, in order. */
  function KeptFiles(files: seq<string>): seq<string>
  {
    if files == [] then []
    else KeptFiles(files[..|files| - 1]) + (if StartsWithDash(files[|files| - 1]) then [] else [files[|files| - 1]])
  }

  /** What loading the EXIF data of each file gives. */
  function Loads(files: seq<string>, exif: string -> ExifLoad): (ls: seq<ExifLoad>)
    ensures |ls| == |files|
    ensures forall i :: 0 <= i < |files| ==> ls[i] == exif(files[i])
  {
    seq(|files|, i requires 0 <= i < |files| => exif(files[i]))
  }

  /** `parse_md['observationTimeStamp'] = timestamp`: only a mapping takes
      an item assignment with a string key. */
  function WriteBack(parseMd: Value, timestamp: string): (r: Outcome<Value>)
    ensures parseMd.VDict? <==> r.Done?
    ensures r.Done? ==> r.value == VDict(parseMd.entries["observationTimeStamp" := VStr(timestamp)])
  {
    match parseMd
    case VDict(m) => Done(VDict(m["observationTimeStamp" := VStr(timestamp)]))
    case _ => Raised(TypeError)
  }

  /** `get_transformer_params(args, metadata_list)`, logging set-up
      aside.  `exif` gives what loading a file's EXIF data comes to. */
  function TransformerParams(args: Args, metadataList: Value, t: Tree, exif: string -> ExifLoad): Outcome<Params>
  {
    var parse := ParseMd(metadataList);
    if parse.Raised? then Raised(parse.exc)
    else
      var md := parse.value;
      var ts := Lookup(md, "observationTimeStamp");
      if ts.Raised? then Raised(ts.exc)
      else
        var season := Lookup(md, "season");
        if season.Raised? then Raised(season.exc)
        else
          var study := Lookup(md, "studyName");
          if study.Raised? then Raised(study.exc)
          else
            var files := KeptFiles(AcceptableFiles(t, args.fileList));
            var running := RunningTimestamp(Loads(files, exif), None);
            var discovered := ts.value == VNone && running.Some?;
            var full := if discovered then WriteBack(md, running.value) else Done(md);
            if full.Raised? then Raised(full.exc)
            else
              var timestamp := if discovered then VStr(running.value) else ts.value;
              var transformerMd := Lookup(full.value, TransformerName);
              if transformerMd.Raised? then Raised(transformerMd.exc)
              else
                Done(Params(CheckMd(timestamp, season.value, study.value, full.value, args.workingSpace, files),
                            transformerMd.value, full.value))
  }

  /** One more file for the running timestamp. */
  lemma RunningAppend(loads: seq<ExifLoad>, load: ExifLoad)
    ensures RunningTimestamp(loads + [load], None) == GetFirstTimestamp(load, RunningTimestamp(loads, None))
  {
    assert (loads + [load])[..|loads|] == loads;
  }

  /** The loop over the accepted files: drop those starting with `-` and,
      when no timestamp was given, fold each kept file's EXIF timestamp into
      the running one. */
  method KeepFiles(checkList: seq<string>, noTimestamp: bool, exif: string -> ExifLoad)
    returns (fileList: seq<string>, workingTimestamp: Option<string>)
    ensures fileList == KeptFiles(checkList)
    ensures noTimestamp ==> workingTimestamp == RunningTimestamp(Loads(fileList, exif), None)
  {
    fileList := [];
    workingTimestamp := None;
    for i := 0 to |checkList|
      invariant fileList == KeptFiles(checkList[..i])
      invariant noTimestamp ==> workingTimestamp == RunningTimestamp(Loads(fileList, exif), None)
    {
      var oneFile := checkList[i];
      assert checkList[..i + 1][..i] == checkList[..i];
      if !StartsWithDash(oneFile) {
        assert Loads(fileList + [oneFile], exif) == Loads(fileList, exif) + [exif(oneFile)];
        RunningAppend(Loads(fileList, exif), exif(oneFile));
        fileList := fileList + [oneFile];
        if noTimestamp {
          workingTimestamp := GetFirstTimestamp(exif(oneFile), workingTimestamp);
        }
      }
    }
    assert checkList[..|checkList|] == checkList;
  }

  /** The transformer instance; its only state is the arguments it was last
      given. */
  class Transformer {
    var args: Option<Args>

    constructor ()
      ensures args == None
    {
      args := None;
    }

    /** `Transformer.get_transformer_params(args, metadata_list)`. */
    method GetTransformerParams(args: Args, metadataList: Value, t: Tree, exif: string -> ExifLoad) returns (r: Outcome<Params>)
      modifies this
      ensures this.args == Some(args)
      ensures r == TransformerParams(args, metadataList, t, exif)
    {
      this.args := Some(args);

      var metadata := First(metadataList);
      if metadata.Raised? {
        return Raised(metadata.exc);
      }
      var parseMd := metadata.value;
      var hasContent := Contains(parseMd, "content");
      if hasContent.Raised? {
        return Raised(hasContent.exc);
      }
      if hasContent.value {
        var content := Subscript(parseMd, "content");
        if content.Raised? {
          return Raised(content.exc);
        }
        parseMd := content.value;
      }

      var timestamp := Lookup(parseMd, "observationTimeStamp");
      if timestamp.Raised? {
        return Raised(timestamp.exc);
      }
      var seasonName := Lookup(parseMd, "season");
      if seasonName.Raised? {
        return Raised(seasonName.exc);
      }
      var experimentName := Lookup(parseMd, "studyName");
      if experimentName.Raised? {
        return Raised(experimentName.exc);
      }

      // The running value is only read while no timestamp was given, and
      // then it starts out as None.
      var fileList: seq<string> := [];
      var workingTimestamp: Option<string> := None;
      if |args.fileList| > 0 {
        var checkList := GetAcceptableFiles(t, args.fileList);
        fileList, workingTimestamp := KeepFiles(checkList, timestamp.value == VNone, exif);
      }
      assert fileList == KeptFiles(AcceptableFiles(t, args.fileList));

      var ts := timestamp.value;
      if ts == VNone && workingTimestamp.Some? {
        ts := VStr(workingTimestamp.value);
        var written := WriteBack(parseMd, workingTimestamp.value);
        if written.Raised? {
          return Raised(written.exc);
        }
        parseMd := written.value;
      }

      var transformerMd := Lookup(parseMd, TransformerName);
      if transformerMd.Raised? {
        return Raised(transformerMd.exc);
      }
      var checkMd := CheckMd(ts, seasonName.value, experimentName.value, parseMd, args.workingSpace, fileList);
      return Done(Params(checkMd, transformerMd.value, parseMd));
    }
  }

  // ---------------------------------------------------------------------
  // Properties of get_transformer_params

  /** The files kept are exactly the accepted ones not starting with `-`. */
  lemma {:induction false} KeptFilesMembers(files: seq<string>, x: string)
    ensures x in KeptFiles(files) <==> x in files && !StartsWithDash(x)
  {
    if files != [] {
      var init := files[..|files| - 1];
      KeptFilesMembers(init, x);
      assert files == init + [files[|files| - 1]];
    }
  }

  /** The files handed on are the accepted files that do not start with
      `-`, in order: a file is listed exactly when some argument
      contributes it and it does not look like an option. */
  lemma ListedFiles(args: Args, metadataList: Value, t: Tree, exif: string -> ExifLoad, x: string)
    requires TransformerParams(args, metadataList, t, exif).Done?
    ensures var files := TransformerParams(args, metadataList, t, exif).value.checkMd.listFiles;
      && files == KeptFiles(AcceptableFiles(t, args.fileList))
      && (x in files <==> !StartsWithDash(x) && exists i :: 0 <= i < |args.fileList| && x in PathFiles(t, args.fileList[i]))
  {
    KeptFilesMembers(AcceptableFiles(t, args.fileList), x);
    AcceptableFilesMembers(t, args.fileList, x);
  }

  /** For metadata that is a mapping, the parameters are always produced:
      season, study name and the stage's own section are read from it (None
      when absent), and the working folder comes from the arguments. */
  lemma ParamsOfMapping(args: Args, metadataList: Value, t: Tree, exif: string -> ExifLoad)
    requires ParseMd(metadataList).Done? && ParseMd(metadataList).value.VDict?
    ensures var m := ParseMd(metadataList).value.entries;
      var r := TransformerParams(args, metadataList, t, exif);
      && r.Done?
      && r.value.checkMd.season == (if "season" in m then m["season"] else VNone)
      && r.value.checkMd.experiment == (if "studyName" in m then m["studyName"] else VNone)
      && r.value.transformerMd == (if TransformerName in m then m[TransformerName] else VNone)
      && r.value.checkMd.workingFolder == args.workingSpace
      && r.value.checkMd.contextMd == r.value.fullMd
  {
    var m := ParseMd(metadataList).value.entries;
    var files := KeptFiles(AcceptableFiles(t, args.fileList));
    var running := RunningTimestamp(Loads(files, exif), None);
    if running.Some? {
      var w := m["observationTimeStamp" := VStr(running.value)];
      assert TransformerName != "observationTimeStamp";
      assert (TransformerName in w) == (TransformerName in m);
    }
  }

  /** A timestamp the request gives (not None) is kept as it is, the
      metadata is left unchanged and no file's EXIF data is consulted: the
      result is the same whatever the files hold. */
  lemma CallerTimestampKept(args: Args, metadataList: Value, t: Tree, exif1: string -> ExifLoad, exif2: string -> ExifLoad)
    requires ParseMd(metadataList).Done? && ParseMd(metadataList).value.VDict?
    requires var m := ParseMd(metadataList).value.entries;
      "observationTimeStamp" in m && m["observationTimeStamp"] != VNone
    ensures var m := ParseMd(metadataList).value.entries;
      var r := TransformerParams(args, metadataList, t, exif1);
      && r == TransformerParams(args, metadataList, t, exif2)
      && r.Done?
      && r.value.checkMd.timestamp == m["observationTimeStamp"]
      && r.value.fullMd == ParseMd(metadataList).value
  {
  }

  /** With no timestamp in the request, the timestamp is discovered from the
      kept files: it is None exactly when no file yields one, and otherwise
      it is the `isoformat` text of the earliest file timestamp, written
      back into the metadata under `observationTimeStamp`.  This holds when
      the files' timestamps are all naive or all aware and render
      faithfully. */
  lemma DiscoveredTimestamp(args: Args, metadataList: Value, t: Tree, exif: string -> ExifLoad, aware: bool)
    requires ParseMd(metadataList).Done? && ParseMd(metadataList).value.VDict?
    requires var m := ParseMd(metadataList).value.entries;
      "observationTimeStamp" !in m || m["observationTimeStamp"] == VNone
    requires AllRenderable(Contributions(Loads(KeptFiles(AcceptableFiles(t, args.fileList)), exif)), aware)
    ensures var m := ParseMd(metadataList).value.entries;
      var cs := Contributions(Loads(KeptFiles(AcceptableFiles(t, args.fileList)), exif));
      var r := TransformerParams(args, metadataList, t, exif);
      var ts := r.value.checkMd.timestamp;
      && r.Done?
      && (ts == VNone <==> forall i :: 0 <= i < |cs| ==> cs[i].None?)
      && (ts == VNone ==> r.value.fullMd == ParseMd(metadataList).value)
      && (ts != VNone ==>
            && ts.VStr?
            && FromIsoFormat(Some(ts.s)).Some?
            && EarliestAmong(FromIsoFormat(Some(ts.s)), cs)
            && r.value.fullMd == VDict(m["observationTimeStamp" := ts]))
  {
    var loads := Loads(KeptFiles(AcceptableFiles(t, args.fileList)), exif);
    var running := RunningTimestamp(loads, None);
    NoTimestampParams(args, metadataList, t, exif);
    RunningTimestampIsEarliest(loads, aware);
    if running.None? {
      assert FromIsoFormat(None) == None;
    }
  }

  /** With no timestamp in the request, the timestamp reported is the
      running value over the kept files, and it is written back when there
      is one. */
  lemma NoTimestampParams(args: Args, metadataList: Value, t: Tree, exif: string -> ExifLoad)
    requires ParseMd(metadataList).Done? && ParseMd(metadataList).value.VDict?
    requires var m := ParseMd(metadataList).value.entries;
      "observationTimeStamp" !in m || m["observationTimeStamp"] == VNone
    ensures var m := ParseMd(metadataList).value.entries;
      var running := RunningTimestamp(Loads(KeptFiles(AcceptableFiles(t, args.fileList)), exif), None);
      var r := TransformerParams(args, metadataList, t, exif);
      && r.Done?
      && r.value.checkMd.timestamp == (if running.Some? then VStr(running.value) else VNone)
      && r.value.fullMd == (if running.Some? then VDict(m["observationTimeStamp" := VStr(running.value)]) else VDict(m))
  {
  }
}
