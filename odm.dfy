/** The OpenDroneMap stage (odm.py): recognising image and ground-control
    files, staging the project folder the engine runs in, the environment
    handed to the engine's worker, the pre-flight check and the result
    returned after processing. */
module Odm {
  import opened PyValues
  import opened Text
  import opened Paths
  import opened FileSystems
  import opened Manifest

  /** The image extensions the stage accepts, dotted and lower case. */
  const KnownImageFileExts: seq<string> := [".tif", ".tiff", ".jpg"]

  /** The ground-control-point file names the stage accepts. */
  const KnownGcpFiles: seq<string> := ["gcp_list.txt"]

  /** The dotted extension of `p`, lower-cased, is a known image extension. */
  predicate HasImageExt(p: string)
  {
    Lower(Ext(p)) in KnownImageFileExts
  }

  /** An entry name that, looked up as it is, is not a directory and has an
      image extension. */
  predicate ImageEntry(t: Tree, name: string)
  {
    !IsDir(t, name) && HasImageExt(name)
  }

  /** `check_for_image_file(path)`: a file is judged by its extension; a
      folder holds an image when one of its entries that is not itself a
      directory has an image extension.  The entry names are looked up
      bare, not joined to the folder, exactly as the program does. */
  method CheckForImageFile(t: Tree, path: string) returns (found: bool)
    ensures !IsDir(t, path) ==> (found <==> HasImageExt(path))
    ensures IsDir(t, path) ==>
      (found <==> FolderHasImage(t, path))
  {
    if IsDir(t, path) {
      var names := ListDir(t, path);
      var i := 0;
      while i < |names|
        invariant 0 <= i <= |names|
        invariant forall k :: 0 <= k < i ==> !ImageEntry(t, names[k])
      {
        if ImageEntry(t, names[i]) {
          return true;
        }
        i := i + 1;
      }
      return false;
    }
    found := HasImageExt(path);
  }

  /** `check_gcp_file(path)`: the base name is exactly `gcp_list.txt`, with
      the case as written. */
  predicate CheckGcpFile(path: string)
    ensures CheckGcpFile(path) <==> Basename(path) == "gcp_list.txt"
  {
    Basename(path) in KnownGcpFiles
  }

  // ---------------------------------------------------------------------
  // Classification (the first loop of prepare_project_folder)

  /** A path met while walking the inputs, with the name the tests look at:
      the path itself for a top-level file, the bare entry name for a file
      inside a listed folder. */
  datatype Candidate = Candidate(path: string, name: string, image: bool, gcp: bool)

  /** The two tests, applied to the candidate's name when it is met: the
      image test comes first, and only a candidate that fails it is tried
      as the control-point file. */
  function MakeCandidate(path: string, name: string): (c: Candidate)
    ensures c.path == path && c.name == name
    ensures c.image <==> HasImageExt(name)
    ensures c.gcp <==> !HasImageExt(name) && CheckGcpFile(name)
  {
    Candidate(path, name, HasImageExt(name), !HasImageExt(name) && CheckGcpFile(name))
  }

  /** The entries of `folder` that are not directories (looked up bare),
      joined to the folder. */
  function EntryCandidates(t: Tree, folder: string, names: seq<string>): (cs: seq<Candidate>)
    ensures |cs| <= |names|
  {
    if names == [] then []
    else
      var n := names[|names| - 1];
      EntryCandidates(t, folder, names[..|names| - 1]) + (if IsDir(t, n) then [] else [MakeCandidate(Join(folder, n), n)])
  }

  /** What one input contributes: a folder's non-directory entries, or the
      input itself. */
  function PathCandidates(t: Tree, p: string): seq<Candidate>
  {
    if IsDir(t, p) then EntryCandidates(t, p, t[p].children) else [MakeCandidate(p, p)]
  }

  /** All candidates, in traversal order. */
  function Candidates(t: Tree, files: seq<string>): seq<Candidate>
  {
    if files == [] then []
    else Candidates(t, files[..|files| - 1]) + PathCandidates(t, files[|files| - 1])
  }

  /** The paths of the image candidates, in order. */
  function ImagesOf(cs: seq<Candidate>): (images: seq<string>)
    ensures |images| <= |cs|
  {
    if cs == [] then []
    else ImagesOf(cs[..|cs| - 1]) + (if cs[|cs| - 1].image then [cs[|cs| - 1].path] else [])
  }

  /** The path of the last control-point candidate, if any. */
  function LastGcp(cs: seq<Candidate>): Option<string>
  {
    if cs == [] then None
    else if cs[|cs| - 1].gcp then Some(cs[|cs| - 1].path)
    else LastGcp(cs[..|cs| - 1])
  }

  lemma {:induction false} ImagesOfAppend(a: seq<Candidate>, b: seq<Candidate>)
    ensures ImagesOf(a + b) == ImagesOf(a) + ImagesOf(b)
    decreases |b|
  {
    if b != [] {
      assert (a + b)[..|a + b| - 1] == a + b[..|b| - 1];
      ImagesOfAppend(a, b[..|b| - 1]);
    } else {
      assert a + b == a;
    }
  }

  lemma {:induction false} LastGcpAppend(a: seq<Candidate>, b: seq<Candidate>)
    ensures LastGcp(a + b) == if LastGcp(b).Some? then LastGcp(b) else LastGcp(a)
    decreases |b|
  {
    if b != [] {
      assert (a + b)[..|a + b| - 1] == a + b[..|b| - 1];
      LastGcpAppend(a, b[..|b| - 1]);
    } else {
      assert a + b == a;
    }
  }

  /** An image is exactly the path of an image candidate. */
  lemma {:induction false} ImagesOfMembers(cs: seq<Candidate>, x: string)
    ensures x in ImagesOf(cs) <==> exists i :: 0 <= i < |cs| && cs[i].path == x && cs[i].image
  {
    if cs != [] {
      var init := cs[..|cs| - 1];
      ImagesOfMembers(init, x);
      if x in ImagesOf(init) {
        var i :| 0 <= i < |init| && init[i].path == x && init[i].image;
        assert cs[i] == init[i];
      }
      if exists i :: 0 <= i < |cs| && cs[i].path == x && cs[i].image {
        var i :| 0 <= i < |cs| && cs[i].path == x && cs[i].image;
        if i < |init| {
          assert init[i] == cs[i];
        }
      }
    }
  }

  /** The control-point file is the last control-point candidate (one that
      failed the image test and passed the control-point test), and no later
      candidate passes. */
  lemma {:induction false} LastGcpWins(cs: seq<Candidate>)
    ensures LastGcp(cs).None? <==> forall i :: 0 <= i < |cs| ==> !cs[i].gcp
    ensures LastGcp(cs).Some? ==>
      exists i :: 0 <= i < |cs| && cs[i].path == LastGcp(cs).value && cs[i].gcp && forall j :: i < j < |cs| ==> !cs[j].gcp
  {
    if cs != [] {
      var init := cs[..|cs| - 1];
      LastGcpWins(init);
      assert forall i :: 0 <= i < |init| ==> init[i] == cs[i];
      if !cs[|cs| - 1].gcp && LastGcp(init).Some? {
        var i :| 0 <= i < |init| && init[i].path == LastGcp(init).value && init[i].gcp && forall j :: i < j < |init| ==> !init[j].gcp;
        assert forall j :: i < j < |cs| ==> !cs[j].gcp;
      }
    }
  }

  /** The classification loop of `prepare_project_folder`: inputs are
      visited in order, folders one level deep; an image candidate is
      appended to the list, otherwise a control-point candidate replaces the
      one found so far. */
  method ClassifyFiles(t: Tree, files: seq<string>) returns (fileList: seq<string>, gcpFile: Option<string>)
    ensures fileList == ImagesOf(Candidates(t, files))
    ensures gcpFile == LastGcp(Candidates(t, files))
  {
    fileList := [];
    gcpFile := None;
    for i := 0 to |files|
      invariant fileList == ImagesOf(Candidates(t, files[..i]))
      invariant gcpFile == LastGcp(Candidates(t, files[..i]))
    {
      var oneFile := files[i];
      CandidatesStep(t, files, i);
      ImagesOfAppend(Candidates(t, files[..i]), PathCandidates(t, oneFile));
      LastGcpAppend(Candidates(t, files[..i]), PathCandidates(t, oneFile));
      if IsDir(t, oneFile) {
        fileList, gcpFile := ClassifyEntries(t, oneFile, ListDir(t, oneFile), fileList, gcpFile);
      } else {
        SingleCandidate(MakeCandidate(oneFile, oneFile));
        var isImage := CheckForImageFile(t, oneFile);
        if isImage {
          fileList := fileList + [oneFile];
        } else if CheckGcpFile(oneFile) {
          gcpFile := Some(oneFile);
        }
      }
    }
    assert files[..|files|] == files;
  }

  /** Bookkeeping for both loops: what the candidates met so far plus the
      next ones contribute. */
  lemma ExtendClassification(fileList0: seq<string>, before: seq<Candidate>, here: seq<Candidate>)
    ensures fileList0 + ImagesOf(before + here) == (fileList0 + ImagesOf(before)) + ImagesOf(here)
    ensures LastGcp(before + here) == if LastGcp(here).Some? then LastGcp(here) else LastGcp(before)
  {
    ImagesOfAppend(before, here);
    LastGcpAppend(before, here);
    AppendAssoc(fileList0, ImagesOf(before), ImagesOf(here));
  }

  lemma SingleCandidate(c: Candidate)
    ensures ImagesOf([c]) == if c.image then [c.path] else []
    ensures LastGcp([c]) == if c.gcp then Some(c.path) else None
  {
    assert [c][..0] == [];
  }

  lemma CandidatesStep(t: Tree, files: seq<string>, i: nat)
    requires i < |files|
    ensures Candidates(t, files[..i + 1]) == Candidates(t, files[..i]) + PathCandidates(t, files[i])
  {
    assert files[..i + 1][..i] == files[..i];
  }

  lemma EntryStep(t: Tree, folder: string, names: seq<string>, j: nat)
    requires j < |names|
    ensures EntryCandidates(t, folder, names[..j + 1])
         == EntryCandidates(t, folder, names[..j])
          + (if IsDir(t, names[j]) then [] else [MakeCandidate(Join(folder, names[j]), names[j])])
  {
    assert names[..j + 1][..j] == names[..j];
  }

  /** The inner loop over a folder's entries, continuing from the list and
      control-point file found so far. */
  method ClassifyEntries(t: Tree, folder: string, names: seq<string>, fileList0: seq<string>, gcpFile0: Option<string>)
    returns (fileList: seq<string>, gcpFile: Option<string>)
    ensures fileList == fileList0 + ImagesOf(EntryCandidates(t, folder, names))
    ensures gcpFile == if LastGcp(EntryCandidates(t, folder, names)).Some? then LastGcp(EntryCandidates(t, folder, names)) else gcpFile0
  {
    fileList, gcpFile := fileList0, gcpFile0;
    for j := 0 to |names|
      invariant fileList == fileList0 + ImagesOf(EntryCandidates(t, folder, names[..j]))
      invariant gcpFile == if LastGcp(EntryCandidates(t, folder, names[..j])).Some? then LastGcp(EntryCandidates(t, folder, names[..j])) else gcpFile0
    {
      var fileName := names[j];
      EntryStep(t, folder, names, j);
      if !IsDir(t, fileName) {
        var c := MakeCandidate(Join(folder, fileName), fileName);
        ExtendClassification(fileList0, EntryCandidates(t, folder, names[..j]), [c]);
        SingleCandidate(c);
        var isImage := CheckForImageFile(t, fileName);
        if isImage {
          fileList := fileList + [Join(folder, fileName)];
        } else if CheckGcpFile(fileName) {
          gcpFile := Some(Join(folder, fileName));
        }
      } else {
        ExtendClassification(fileList0, EntryCandidates(t, folder, names[..j]), []);
      }
    }
    assert names[..|names|] == names;
  }

  // ---------------------------------------------------------------------
  // check_continue

  /** The message naming the accepted extensions. */
  const NoImageMessage: string :=
    "Unable to find an image file in files to process. Accepting files types: '" + JoinText(KnownImageFileExts, ", ") + "'"

  lemma NoImageMessageLists()
    ensures NoImageMessage == "Unable to find an image file in files to process. Accepting files types: '.tif, .tiff, .jpg'"
  {
    assert JoinText(KnownImageFileExts, ", ") == ".tif, .tiff, .jpg";
  }

  /** `Opendronemap.check_continue`: an override path that is given but
      does not exist is reported (-1000) before any file is looked at; the
      first input holding an image answers 0; otherwise -1001 with the list
      of accepted extensions.  Tuples are returned as sequences. */
  method CheckContinue(t: Tree, odmOverrides: Option<string>, listFiles: seq<string>) returns (r: Value)
    ensures odmOverrides.Some? && odmOverrides.value != "" && !Exists(t, odmOverrides.value) ==>
      r == VList([VInt(-1000), VStr("OpenDroneMap overrides specified but file is not available: '" + odmOverrides.value + "'")])
    ensures !(odmOverrides.Some? && odmOverrides.value != "" && !Exists(t, odmOverrides.value)) ==>
      (r == VInt(0) || r == VList([VInt(-1001), VStr(NoImageMessage)]))
    ensures r == VInt(0) <==>
      !(odmOverrides.Some? && odmOverrides.value != "" && !Exists(t, odmOverrides.value))
      && exists i :: 0 <= i < |listFiles| && (if IsDir(t, listFiles[i]) then FolderHasImage(t, listFiles[i]) else HasImageExt(listFiles[i]))
  {
    if odmOverrides.Some? && odmOverrides.value != "" {
      if !Exists(t, odmOverrides.value) {
        return VList([VInt(-1000), VStr("OpenDroneMap overrides specified but file is not available: '" + odmOverrides.value + "'")]);
      }
    }
    for i := 0 to |listFiles|
      invariant forall k :: 0 <= k < i ==> !(if IsDir(t, listFiles[k]) then FolderHasImage(t, listFiles[k]) else HasImageExt(listFiles[k]))
    {
      var found := CheckForImageFile(t, listFiles[i]);
      if found {
        return VInt(0);
      }
    }
    return VList([VInt(-1001), VStr(NoImageMessage)]);
  }

  /** A folder has an entry, not itself a directory, with an image extension. */
  predicate FolderHasImage(t: Tree, folder: string)
    requires IsDir(t, folder)
  {
    exists i :: 0 <= i < |t[folder].children| && ImageEntry(t, t[folder].children[i])
  }

  // ---------------------------------------------------------------------
  // Staging (prepare_project_folder)

  /** `os.path.join(working_folder, 'images')`. */
  function ImagesFolder(folder: string): string
  {
    Join(folder, "images")
  }

  /** The name a link to `target` gets inside `folder`. */
  function LinkName(folder: string, target: string): string
  {
    Join(folder, Basename(target))
  }

  /** The `images/` folder is made only when nothing of that name exists. */
  function MakeImagesFolder(t: Tree, images: string): (r: Outcome<Tree>)
    ensures Exists(t, images) ==> r == Done(t)
    ensures !Exists(t, images) ==> r == AddEntry(t, images, Dir([]))
  {
    if Exists(t, images) then Done(t) else AddEntry(t, images, Dir([]))
  }

  /** The file system after a run of links, and the exception that stopped
      the run, if any. */
  datatype Applied = Applied(tree: Tree, error: Option<Exception>)

  /** One `os.symlink(target, path)` call. */
  datatype LinkRequest = LinkRequest(path: string, target: string)

  /** The links that put each target into `folder` under its base name. */
  function ImageLinks(folder: string, targets: seq<string>): (ls: seq<LinkRequest>)
    ensures |ls| == |targets|
    ensures forall i :: 0 <= i < |targets| ==> ls[i] == LinkRequest(LinkName(folder, targets[i]), targets[i])
  {
    if targets == [] then []
    else [LinkRequest(LinkName(folder, targets[0]), targets[0])] + ImageLinks(folder, targets[1..])
  }

  /** Making the links in order, stopping at the first one that cannot be
      made; the links made before it stay. */
  function LinkAll(t: Tree, links: seq<LinkRequest>): Applied
    decreases |links|
  {
    if links == [] then Applied(t, None)
    else
      var a := AddEntry(t, links[0].path, Link(links[0].target));
      if a.Raised? then Applied(t, Some(a.exc))
      else LinkAll(a.value, links[1..])
  }

  /** The file system after staging and what `prepare_project_folder`
      returned or raised. */
  datatype Staged = Staged(tree: Tree, result: Outcome<string>)

  /** The end of staging: report a failed image link, or link the
      control-point file, if one was found, into the working folder. */
  function FinishStage(linked: Applied, gcp: Option<string>, folder: string): (s: Staged)
    ensures s.result.Done? ==> s.result.value == folder
  {
    if linked.error.Some? then Staged(linked.tree, Raised(linked.error.value))
    else if gcp.Some? && gcp.value != "" then
      var a := AddEntry(linked.tree, LinkName(folder, gcp.value), Link(gcp.value));
      if a.Raised? then Staged(linked.tree, Raised(a.exc))
      else Staged(a.value, Done(folder))
    else Staged(linked.tree, Done(folder))
  }

  /** Staging: create `images/` under the working folder unless something
      of that name exists, classify the inputs on the resulting file system,
      link every image into `images/` under its base name, then link the
      control-point file, if one was found, into the working folder.  The
      first failing step raises and leaves the steps before it in place; on
      success the working folder is returned as given. */
  function Stage(t: Tree, files: seq<string>, folder: string): (s: Staged)
    ensures s.result.Done? ==> s.result.value == folder
  {
    var made := MakeImagesFolder(t, ImagesFolder(folder));
    if made.Raised? then Staged(t, Raised(made.exc))
    else
      var cs := Candidates(made.value, files);
      FinishStage(LinkAll(made.value, ImageLinks(ImagesFolder(folder), ImagesOf(cs))), LastGcp(cs), folder)
  }

  /** `prepare_project_folder` with the working folder as the request
      carries it: without one (no working space was given), joining
      `images` to None raises a TypeError before anything is created. */
  function Prepare(t: Tree, files: seq<string>, workingFolder: Option<string>): (s: Staged)
    ensures s.result.Done? ==> workingFolder == Some(s.result.value)
    ensures workingFolder.None? ==> s.tree == t && s.result == Raised(TypeError)
  {
    if workingFolder.None? then Staged(t, Raised(TypeError))
    else Stage(t, files, workingFolder.value)
  }

  /** The loop linking every image into `images/`. */
  method LinkImages(fs: FileSystem, fileList: seq<string>, imagesFolder: string) returns (error: Option<Exception>)
    modifies fs
    ensures Applied(fs.tree, error) == LinkAll(old(fs.tree), ImageLinks(imagesFolder, fileList))
  {
    ghost var links := ImageLinks(imagesFolder, fileList);
    for i := 0 to |fileList|
      invariant LinkAll(old(fs.tree), links) == LinkAll(fs.tree, links[i..])
    {
      var oneFile := fileList[i];
      assert links[i..][0] == LinkRequest(LinkName(imagesFolder, oneFile), oneFile);
      assert links[i..][1..] == links[i + 1..];
      var linked := fs.Symlink(oneFile, LinkName(imagesFolder, oneFile));
      if linked.Raised? {
        return Some(linked.exc);
      }
    }
    assert links[|fileList|..] == [];
    return None;
  }

  /** `prepare_project_folder(files, default_folder)` on the file system. */
  method PrepareProjectFolder(fs: FileSystem, files: seq<string>, defaultFolder: Option<string>) returns (r: Outcome<string>)
    modifies fs
    ensures Staged(fs.tree, r) == Prepare(old(fs.tree), files, defaultFolder)
  {
    if defaultFolder.None? {
      return Raised(TypeError);
    }
    var workingFolder := defaultFolder.value;
    var imagesFolder := Join(workingFolder, "images");
    if !Exists(fs.tree, imagesFolder) {
      var made := fs.Mkdir(imagesFolder);
      if made.Raised? {
        return Raised(made.exc);
      }
    }
    ghost var t1 := fs.tree;
    assert MakeImagesFolder(old(fs.tree), imagesFolder) == Done(t1);
    var fileList, gcpFile := ClassifyFiles(fs.tree, files);
    var error := LinkImages(fs, fileList, imagesFolder);
    ghost var linked := Applied(fs.tree, error);
    assert linked == LinkAll(t1, ImageLinks(imagesFolder, fileList));
    if error.Some? {
      return Raised(error.value);
    }
    if gcpFile.Some? && gcpFile.value != "" {
      var linkedGcp := fs.Symlink(gcpFile.value, LinkName(workingFolder, gcpFile.value));
      if linkedGcp.Raised? {
        return Raised(linkedGcp.exc);
      }
    }
    return Done(workingFolder);
  }

  // ---------------------------------------------------------------------
  // Properties of staging

  /** Linking never removes or alters a file or link that was there, and a
      directory stays a directory whose earlier entries come first. */
  lemma {:induction false} LinkAllKeeps(t: Tree, links: seq<LinkRequest>, q: string)
    requires q in t
    ensures var u := LinkAll(t, links).tree;
      && q in u
      && (!t[q].Dir? ==> u[q] == t[q])
      && (t[q].Dir? ==> u[q].Dir? && t[q].children <= u[q].children)
    decreases |links|
  {
    if links != [] {
      var a := AddEntry(t, links[0].path, Link(links[0].target));
      if a.Done? {
        AddEntryKeeps(t, links[0].path, Link(links[0].target), q);
        LinkAllKeeps(a.value, links[1..], q);
      }
    }
  }

  /** When linking succeeds, every requested link is in place. */
  lemma {:induction false} LinkAllLinks(t: Tree, links: seq<LinkRequest>, k: nat)
    requires k < |links| && LinkAll(t, links).error.None?
    ensures links[k].path in LinkAll(t, links).tree
    ensures LinkAll(t, links).tree[links[k].path] == Link(links[k].target)
    decreases k
  {
    var a := AddEntry(t, links[0].path, Link(links[0].target));
    var rest := links[1..];
    assert LinkAll(t, links) == LinkAll(a.value, rest);
    if k == 0 {
      LinkAllKeeps(a.value, rest, links[0].path);
    } else {
      assert rest[k - 1] == links[k];
      LinkAllLinks(a.value, rest, k - 1);
    }
  }

  /** A link whose name is already taken makes linking fail. */
  lemma {:induction false} TakenPathFails(t: Tree, links: seq<LinkRequest>, k: nat)
    requires k < |links| && links[k].path in t
    ensures LinkAll(t, links).error.Some?
    decreases k
  {
    var a := AddEntry(t, links[0].path, Link(links[0].target));
    if k > 0 && a.Done? {
      var rest := links[1..];
      assert LinkAll(t, links) == LinkAll(a.value, rest);
      assert rest[k - 1] == links[k];
      TakenPathFails(a.value, rest, k - 1);
    }
  }

  /** Two links with the same name cannot both be made. */
  lemma {:induction false} RepeatedPathFails(t: Tree, links: seq<LinkRequest>, i: nat, j: nat)
    requires i < j < |links| && links[i].path == links[j].path
    ensures LinkAll(t, links).error.Some?
    decreases i
  {
    var a := AddEntry(t, links[0].path, Link(links[0].target));
    if a.Done? {
      var rest := links[1..];
      assert LinkAll(t, links) == LinkAll(a.value, rest);
      assert rest[j - 1] == links[j];
      if i == 0 {
        TakenPathFails(a.value, rest, j - 1);
      } else {
        assert rest[i - 1] == links[i];
        RepeatedPathFails(a.value, rest, i - 1, j - 1);
      }
    }
  }

  /** Two images with the same base name cannot both be linked into
      `images/`: staging fails at the second. */
  lemma DuplicateBaseNameFails(t: Tree, folder: string, targets: seq<string>, i: nat, j: nat)
    requires i < j < |targets| && Basename(targets[i]) == Basename(targets[j])
    ensures LinkAll(t, ImageLinks(folder, targets)).error.Some?
  {
    RepeatedPathFails(t, ImageLinks(folder, targets), i, j);
  }

  /** The last step of staging keeps every entry that was there. */
  lemma FinishKeeps(t1: Tree, links: seq<LinkRequest>, gcp: Option<string>, folder: string, q: string)
    requires q in t1
    ensures var u := FinishStage(LinkAll(t1, links), gcp, folder).tree;
      && q in u
      && (!t1[q].Dir? ==> u[q] == t1[q])
      && (t1[q].Dir? ==> u[q].Dir? && t1[q].children <= u[q].children)
  {
    var linked := LinkAll(t1, links);
    LinkAllKeeps(t1, links, q);
    if linked.error.None? && gcp.Some? && gcp.value != "" {
      var a := AddEntry(linked.tree, LinkName(folder, gcp.value), Link(gcp.value));
      if a.Done? {
        AddEntryKeeps(linked.tree, LinkName(folder, gcp.value), Link(gcp.value), q);
      }
    }
  }

  /** When the last step of staging succeeds, every requested link and the
      control-point link are in place. */
  lemma FinishLinks(t1: Tree, links: seq<LinkRequest>, gcp: Option<string>, folder: string)
    requires FinishStage(LinkAll(t1, links), gcp, folder).result.Done?
    ensures var u := FinishStage(LinkAll(t1, links), gcp, folder).tree;
      && (forall k :: 0 <= k < |links| ==> links[k].path in u && u[links[k].path] == Link(links[k].target))
      && (gcp.Some? && gcp.value != "" ==>
            LinkName(folder, gcp.value) in u && u[LinkName(folder, gcp.value)] == Link(gcp.value))
  {
    var linked := LinkAll(t1, links);
    var u := FinishStage(linked, gcp, folder).tree;
    forall k | 0 <= k < |links|
      ensures links[k].path in u && u[links[k].path] == Link(links[k].target)
    {
      LinkAllLinks(t1, links, k);
      if gcp.Some? && gcp.value != "" {
        AddEntryKeeps(linked.tree, LinkName(folder, gcp.value), Link(gcp.value), links[k].path);
      }
    }
    if gcp.Some? && gcp.value != "" {
      AddEntryDone(linked.tree, LinkName(folder, gcp.value), Link(gcp.value));
    }
  }

  /** Staging once `images/` is in place in `t1`. */
  lemma StageAfterFolder(t: Tree, files: seq<string>, folder: string, t1: Tree)
    requires MakeImagesFolder(t, ImagesFolder(folder)) == Done(t1)
    ensures var cs := Candidates(t1, files);
      Stage(t, files, folder) == FinishStage(LinkAll(t1, ImageLinks(ImagesFolder(folder), ImagesOf(cs))), LastGcp(cs), folder)
  {
  }

  /** Staging never removes or alters an entry that was there before,
      whether it succeeds or fails. */
  lemma StagingKeepsEntries(t: Tree, files: seq<string>, folder: string, q: string)
    requires q in t
    ensures var u := Stage(t, files, folder).tree;
      && q in u
      && (!t[q].Dir? ==> u[q] == t[q])
      && (t[q].Dir? ==> u[q].Dir? && t[q].children <= u[q].children)
  {
    var made := MakeImagesFolder(t, ImagesFolder(folder));
    if made.Done? {
      var t1 := made.value;
      if !Exists(t, ImagesFolder(folder)) {
        AddEntryKeeps(t, ImagesFolder(folder), Dir([]), q);
      }
      var cs := Candidates(t1, files);
      StageAfterFolder(t, files, folder, t1);
      FinishKeeps(t1, ImageLinks(ImagesFolder(folder), ImagesOf(cs)), LastGcp(cs), folder, q);
    }
  }

  /** After a successful staging every image is linked as
      `images/<basename>`, and the control-point file, if one was found, is
      linked into the working folder under its base name. */
  lemma StagedLinks(t: Tree, files: seq<string>, folder: string, t1: Tree)
    requires MakeImagesFolder(t, ImagesFolder(folder)) == Done(t1)
    requires Stage(t, files, folder).result.Done?
    ensures var u := Stage(t, files, folder).tree; var cs := Candidates(t1, files);
      && (forall k :: 0 <= k < |ImagesOf(cs)| ==>
            LinkName(ImagesFolder(folder), ImagesOf(cs)[k]) in u
            && u[LinkName(ImagesFolder(folder), ImagesOf(cs)[k])] == Link(ImagesOf(cs)[k]))
      && (LastGcp(cs).Some? && LastGcp(cs).value != "" ==>
            LinkName(folder, LastGcp(cs).value) in u
            && u[LinkName(folder, LastGcp(cs).value)] == Link(LastGcp(cs).value))
  {
    var cs := Candidates(t1, files);
    var targets := ImagesOf(cs);
    var links := ImageLinks(ImagesFolder(folder), targets);
    StageAfterFolder(t, files, folder, t1);
    FinishLinks(t1, links, LastGcp(cs), folder);
  }

  /** An image whose link name is already taken makes staging fail. */
  lemma StagingFailsOnTakenName(t: Tree, files: seq<string>, folder: string, t1: Tree, k: nat)
    requires MakeImagesFolder(t, ImagesFolder(folder)) == Done(t1)
    requires k < |ImagesOf(Candidates(t1, files))|
    requires LinkName(ImagesFolder(folder), ImagesOf(Candidates(t1, files))[k]) in t1
    ensures Stage(t, files, folder).result.Raised?
  {
    TakenPathFails(t1, ImageLinks(ImagesFolder(folder), ImagesOf(Candidates(t1, files))), k);
  }

  /** `images/` is made only when nothing of that name exists: an existing
      entry is used as it is, and an absent one is created as an empty
      directory, or staging fails when its parent is not a directory. */
  lemma ImagesFolderOnlyIfAbsent(t: Tree, folder: string)
    ensures var images := ImagesFolder(folder); var made := MakeImagesFolder(t, images);
      && (images in t ==> made == Done(t))
      && (images !in t && IsDir(t, Dirname(images)) ==>
            made.Done? && made.value.Keys == t.Keys + {images} && made.value[images] == Dir([]))
      && (images !in t && !IsDir(t, Dirname(images)) ==> made.Raised?)
  {
    var images := ImagesFolder(folder);
    if images !in t && IsDir(t, Dirname(images)) {
      AddEntryDone(t, images, Dir([]));
    }
  }

  // ---------------------------------------------------------------------
  // run_stitch and perform_process

  /** The environment the engine script is started with: the caller's, with
      `ODM_PROJECT` naming the project folder and, only when an override
      path is given and not empty, `ODM_SETTINGS` naming it. */
  function StitchEnvironment(env: map<string, string>, projectPath: string, overridePath: Option<string>): (e: map<string, string>)
    ensures "ODM_PROJECT" in e && e["ODM_PROJECT"] == projectPath
    ensures overridePath.Some? && overridePath.value != "" ==> "ODM_SETTINGS" in e && e["ODM_SETTINGS"] == overridePath.value
    ensures !(overridePath.Some? && overridePath.value != "") ==>
      ("ODM_SETTINGS" in e <==> "ODM_SETTINGS" in env) && ("ODM_SETTINGS" in env ==> e["ODM_SETTINGS"] == env["ODM_SETTINGS"])
    ensures forall k :: k in env && k != "ODM_PROJECT" && k != "ODM_SETTINGS" ==> k in e && e[k] == env[k]
    ensures forall k :: k in e ==> k in env || k == "ODM_PROJECT" || k == "ODM_SETTINGS"
  {
    var withProject := env["ODM_PROJECT" := projectPath];
    if overridePath.Some? && overridePath.value != "" then withProject["ODM_SETTINGS" := overridePath.value]
    else withProject
  }

  /** What starting the engine script and waiting for it comes to: it ran
      and exited with a code, leaving the file system as it did, or it
      could not be started. */
  datatype EngineRun = Started(code: int, tree: Tree) | NotStarted(error: Exception)

  /** The engine script, seen from here: given the environment and the
      staged file system, how its run ends. */
  type Engine = (map<string, string>, Tree) -> EngineRun

  /** `{'file': files_md, 'code': stitch_code}`. */
  function ResultDict(files: seq<Entry>, code: int): Value
  {
    VDict(map["file" := VList(EntryValues(files)), "code" := VInt(code)])
  }

  /** The file system after `perform_process` and what it returned or
      raised. */
  datatype Processed = Processed(tree: Tree, result: Outcome<Value>)

  /** `Opendronemap.perform_process`: stage the inputs, run the engine on
      the staged project with the override path, then report the table
      files that exist afterwards together with the engine's exit code.  An
      exception from staging or from starting the engine propagates. */
  function Process(t: Tree, listFiles: seq<string>, workingFolder: Option<string>, odmOverrides: Option<string>,
                   env: map<string, string>, engine: Engine): Processed
  {
    var staged := Prepare(t, listFiles, workingFolder);
    if staged.result.Raised? then Processed(staged.tree, Raised(staged.result.exc))
    else
      var projectPath := staged.result.value;
      var run := engine(StitchEnvironment(env, projectPath, odmOverrides), staged.tree);
      if run.NotStarted? then Processed(staged.tree, Raised(run.error))
      else Processed(run.tree, Done(ResultDict(ManifestOf(projectPath, OdmResultFiles(), run.tree), run.code)))
  }

  /** `run_stitch(project_path, override_path)`: the exit code of the
      engine script. */
  method RunStitch(fs: FileSystem, projectPath: string, overridePath: Option<string>,
                   env: map<string, string>, engine: Engine) returns (r: Outcome<int>)
    modifies fs
    ensures var run := engine(StitchEnvironment(env, projectPath, overridePath), old(fs.tree));
      && (run.NotStarted? ==> r == Raised(run.error) && fs.tree == old(fs.tree))
      && (run.Started? ==> r == Done(run.code) && fs.tree == run.tree)
  {
    var myEnv := StitchEnvironment(env, projectPath, overridePath);
    var run := engine(myEnv, fs.tree);
    if run.NotStarted? {
      return Raised(run.error);
    }
    fs.tree := run.tree;
    return Done(run.code);
  }

  /** `Opendronemap.perform_process` on the file system. */
  method PerformProcess(fs: FileSystem, listFiles: seq<string>, workingFolder: Option<string>, odmOverrides: Option<string>,
                        env: map<string, string>, engine: Engine) returns (r: Outcome<Value>)
    modifies fs
    ensures Processed(fs.tree, r) == Process(old(fs.tree), listFiles, workingFolder, odmOverrides, env, engine)
  {
    var staged := PrepareProjectFolder(fs, listFiles, workingFolder);
    if staged.Raised? {
      return Raised(staged.exc);
    }
    var projectPath := staged.value;
    var stitchCode := RunStitch(fs, projectPath, odmOverrides, env, engine);
    if stitchCode.Raised? {
      return Raised(stitchCode.exc);
    }
    var filesMd := CollectManifest(projectPath, OdmResultFiles(), fs.tree);
    return Done(ResultDict(filesMd, stitchCode.value));
  }

  /** The engine is only started once staging has succeeded, and then it is
      told the working folder as the project and the override path, if
      one is given. */
  lemma EngineSeesProject(t: Tree, listFiles: seq<string>, workingFolder: Option<string>, odmOverrides: Option<string>,
                          env: map<string, string>, engine: Engine)
    ensures var staged := Prepare(t, listFiles, workingFolder);
      var p := Process(t, listFiles, workingFolder, odmOverrides, env, engine);
      && (staged.result.Raised? ==> p.result == Raised(staged.result.exc) && p.tree == staged.tree)
      && (staged.result.Done? ==>
            var e := StitchEnvironment(env, staged.result.value, odmOverrides);
            && Some(e["ODM_PROJECT"]) == workingFolder
            && (odmOverrides.Some? && odmOverrides.value != "" ==> e["ODM_SETTINGS"] == odmOverrides.value)
            && (engine(e, staged.tree).NotStarted? <==> p.result.Raised?))
  {
  }

  /** Without a working folder `perform_process` raises a TypeError while
      staging: nothing is created and the engine is never started, so the
      outcome does not depend on it. */
  lemma MissingWorkingFolderRaises(t: Tree, listFiles: seq<string>, odmOverrides: Option<string>,
                                   env: map<string, string>, engine1: Engine, engine2: Engine)
    ensures Process(t, listFiles, None, odmOverrides, env, engine1) == Processed(t, Raised(TypeError))
    ensures Process(t, listFiles, None, odmOverrides, env, engine1) == Process(t, listFiles, None, odmOverrides, env, engine2)
  {
  }

  /** A successful `perform_process` answers a mapping with exactly the keys
      `file` and `code`: the code is the engine's exit code as it is, and
      every entry under `file` names a table file, under the table's key,
      that exists once the engine is done, and every such file is listed. */
  lemma ProcessedFilesExist(t: Tree, listFiles: seq<string>, workingFolder: Option<string>, odmOverrides: Option<string>,
                            env: map<string, string>, engine: Engine, e: Entry)
    requires Process(t, listFiles, workingFolder, odmOverrides, env, engine).result.Done?
    ensures workingFolder.Some?
    ensures var p := Process(t, listFiles, workingFolder, odmOverrides, env, engine);
      var run := engine(StitchEnvironment(env, workingFolder.value, odmOverrides), Prepare(t, listFiles, workingFolder).tree);
      && p.result.value.VDict? && p.result.value.entries.Keys == {"file", "code"}
      && p.result.value.entries["code"] == VInt(run.code)
      && p.result.value.entries["file"].VList?
      && (EntryValue(e) in p.result.value.entries["file"].items <==>
            Exists(p.tree, e.path)
            && exists g, k :: 0 <= g < |OdmResultFiles()| && 0 <= k < |OdmResultFiles()[g].files|
                 && e == Entry(ResultPath(workingFolder.value, OdmResultFiles()[g].folder, OdmResultFiles()[g].files[k]),
                               OdmResultFiles()[g].files[k].kind))
  {
    var p := Process(t, listFiles, workingFolder, odmOverrides, env, engine);
    ProcessedDict(t, listFiles, workingFolder, odmOverrides, env, engine);
    var run := engine(StitchEnvironment(env, workingFolder.value, odmOverrides), Prepare(t, listFiles, workingFolder).tree);
    var es := ManifestOf(workingFolder.value, OdmResultFiles(), p.tree);
    ResultDictLists(es, run.code, e);
    ManifestMembers(workingFolder.value, OdmResultFiles(), p.tree, e);
  }

  /** A successful `perform_process` started the engine on the staged file
      system and reports its exit code unchanged, with the manifest of the
      project folder, which is the working folder, taken against the file
      system the engine left. */
  lemma ProcessedDict(t: Tree, listFiles: seq<string>, workingFolder: Option<string>, odmOverrides: Option<string>,
                      env: map<string, string>, engine: Engine)
    requires Process(t, listFiles, workingFolder, odmOverrides, env, engine).result.Done?
    ensures workingFolder.Some?
    ensures var p := Process(t, listFiles, workingFolder, odmOverrides, env, engine);
      var run := engine(StitchEnvironment(env, workingFolder.value, odmOverrides), Prepare(t, listFiles, workingFolder).tree);
      && run.Started? && p.tree == run.tree
      && p.result.value == ResultDict(ManifestOf(workingFolder.value, OdmResultFiles(), p.tree), run.code)
  {
  }

  /** The result mapping has exactly the keys `file` and `code`, and lists
      an entry exactly when it is in the manifest. */
  lemma ResultDictLists(es: seq<Entry>, code: int, e: Entry)
    ensures var v := ResultDict(es, code);
      && v.entries.Keys == {"file", "code"} && v.entries["code"] == VInt(code)
      && (EntryValue(e) in v.entries["file"].items <==> e in es)
  {
    EntryValueInjective(es, e);
  }
}
