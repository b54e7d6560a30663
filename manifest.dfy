/** The result manifest both stage implementations return: the fixed table
    of files the engine may produce, walked in order against the file
    system after the engine has run, keeping the files that exist. */
module Manifest {
  import opened PyValues
  import opened Paths
  import opened FileSystems
  import opened Text

  /** One file of the table: its name and the key it is reported under. */
  datatype ResultFile = ResultFile(name: string, kind: string)

  /** A result folder of the project and the files expected in it.  A table
      entry that is a single mapping in the program is a group of one. */
  datatype ResultGroup = ResultGroup(folder: string, files: seq<ResultFile>)

  function OrthophotoGroup(): ResultGroup
  {
    ResultGroup("odm_orthophoto", [ResultFile("odm_orthophoto.tif", "rgb")])
  }

  function GeoreferencingGroup(): ResultGroup
  {
    ResultGroup("odm_georeferencing", [
      ResultFile("odm_georeferenced_model.laz", "lidar"),
      ResultFile("odm_georeferenced_model.bounds.shp", "shapefile"),
      ResultFile("odm_georeferenced_model.bounds.dbf", "shapefile"),
      ResultFile("odm_georeferenced_model.bounds.prj", "shapefile"),
      ResultFile("odm_georeferenced_model.bounds.shx", "shapefile"),
      ResultFile("proj.txt", "shapefile"),
      ResultFile("odm_georeferenced_model.bounds.geojson", "shapefile"),
      ResultFile("odm_georeferenced_model.boundary.json", "shapefile")])
  }

  function MveGroup(): ResultGroup
  {
    ResultGroup("mve", [ResultFile("mve_dense_point_cloud.ply", "pointcloud")])
  }

  function DemGroup(): ResultGroup
  {
    ResultGroup("odm_dem", [ResultFile("dsm.tif", "dsm"), ResultFile("dtm.tif", "dtm")])
  }

  /** The table of the current stage (odm.py). */
  function OdmResultFiles(): seq<ResultGroup>
  {
    [OrthophotoGroup(), GeoreferencingGroup(), MveGroup(), DemGroup()]
  }

  /** The table of the older stage (transformer.py), which has no elevation
      models. */
  function LegacyResultFiles(): seq<ResultGroup>
  {
    [OrthophotoGroup(), GeoreferencingGroup(), MveGroup()]
  }

  /** One manifest entry, `{'path': ..., 'key': ...}`. */
  datatype Entry = Entry(path: string, key: string)

  function EntryValue(e: Entry): Value
  {
    VDict(map["path" := VStr(e.path), "key" := VStr(e.key)])
  }

  function EntryValues(es: seq<Entry>): (vs: seq<Value>)
    ensures |vs| == |es|
    ensures forall i :: 0 <= i < |es| ==> vs[i] == EntryValue(es[i])
  {
    if es == [] then [] else EntryValues(es[..|es| - 1]) + [EntryValue(es[|es| - 1])]
  }

  /** Where a table file is looked for: `<project>/<folder>/<name>`. */
  function ResultPath(project: string, folder: string, f: ResultFile): string
  {
    Join(Join(project, folder), f.name)
  }

  /** The number of files a table lists. */
  function FileCount(table: seq<ResultGroup>): nat
  {
    if table == [] then 0 else |table[0].files| + FileCount(table[1..])
  }

  /** The entries contributed by the files of one folder. */
  function GroupManifest(project: string, folder: string, files: seq<ResultFile>, t: Tree): seq<Entry>
  {
    if files == [] then []
    else
      var path := ResultPath(project, folder, files[0]);
      (if Exists(t, path) then [Entry(path, files[0].kind)] else []) + GroupManifest(project, folder, files[1..], t)
  }

  /** The manifest of a whole table, folder after folder. */
  function ManifestOf(project: string, table: seq<ResultGroup>, t: Tree): seq<Entry>
  {
    if table == [] then []
    else GroupManifest(project, table[0].folder, table[0].files, t) + ManifestOf(project, table[1..], t)
  }

  /** The loop that builds `files_md`: for each folder of the table, for
      each of its files, append an entry when the file exists. */
  method CollectManifest(project: string, table: seq<ResultGroup>, t: Tree) returns (filesMd: seq<Entry>)
    ensures filesMd == ManifestOf(project, table, t)
  {
    filesMd := [];
    for i := 0 to |table|
      invariant filesMd + ManifestOf(project, table[i..], t) == ManifestOf(project, table, t)
    {
      ManifestStep(project, table, i, t);
      var g := GroupManifest(project, table[i].folder, table[i].files, t);
      AppendAssoc(filesMd, g, ManifestOf(project, table[i + 1..], t));
      filesMd := AppendGroup(filesMd, project, table[i], t);
    }
    assert table[|table|..] == [];
    assert filesMd + [] == filesMd;
  }

  /** The inner loop: the entries of one folder's files that exist, appended
      to `filesMd`. */
  method AppendGroup(filesMd: seq<Entry>, project: string, group: ResultGroup, t: Tree) returns (r: seq<Entry>)
    ensures r == filesMd + GroupManifest(project, group.folder, group.files, t)
  {
    r := filesMd;
    var resultPath := Join(project, group.folder);
    for j := 0 to |group.files|
      invariant r + GroupManifest(project, group.folder, group.files[j..], t)
             == filesMd + GroupManifest(project, group.folder, group.files, t)
    {
      var oneFile := group.files[j];
      var curPath := Join(resultPath, oneFile.name);
      GroupStep(project, group.folder, group.files, j, t);
      var tail := GroupManifest(project, group.folder, group.files[j + 1..], t);
      if Exists(t, curPath) {
        AppendAssoc(r, [Entry(curPath, oneFile.kind)], tail);
        r := r + [Entry(curPath, oneFile.kind)];
      } else {
        assert [] + tail == tail;
      }
    }
    assert group.files[|group.files|..] == [];
    assert r + [] == r;
  }

  /** One step of the outer loop. */
  lemma ManifestStep(project: string, table: seq<ResultGroup>, i: nat, t: Tree)
    requires i < |table|
    ensures ManifestOf(project, table[i..], t)
         == GroupManifest(project, table[i].folder, table[i].files, t) + ManifestOf(project, table[i + 1..], t)
  {
    assert table[i..][1..] == table[i + 1..];
  }

  /** One step of the inner loop. */
  lemma GroupStep(project: string, folder: string, files: seq<ResultFile>, j: nat, t: Tree)
    requires j < |files|
    ensures var path := Join(Join(project, folder), files[j].name);
      GroupManifest(project, folder, files[j..], t)
      == (if Exists(t, path) then [Entry(path, files[j].kind)] else []) + GroupManifest(project, folder, files[j + 1..], t)
  {
    assert files[j..][1..] == files[j + 1..];
  }

  // ---------------------------------------------------------------------
  // Properties

  lemma FileCounts()
    ensures FileCount(OdmResultFiles()) == 12
    ensures FileCount(LegacyResultFiles()) == 10
  {
    assert FileCount([DemGroup()]) == 2;
    assert FileCount([MveGroup()]) == 1;
    assert [MveGroup(), DemGroup()][1..] == [DemGroup()];
    assert FileCount([MveGroup(), DemGroup()]) == 3;
    assert OdmResultFiles()[1..][1..] == [MveGroup(), DemGroup()];
    assert LegacyResultFiles()[1..][1..] == [MveGroup()];
    assert OdmResultFiles()[1..] == [GeoreferencingGroup(), MveGroup(), DemGroup()];
    assert LegacyResultFiles()[1..] == [GeoreferencingGroup(), MveGroup()];
  }

  /** An entry of a folder's manifest is exactly a file of that folder that
      exists, reported under its key. */
  lemma {:induction false} GroupManifestMembers(project: string, folder: string, files: seq<ResultFile>, t: Tree, e: Entry)
    ensures e in GroupManifest(project, folder, files, t) <==>
      exists k :: 0 <= k < |files| && e == Entry(ResultPath(project, folder, files[k]), files[k].kind) && Exists(t, e.path)
  {
    if files != [] {
      GroupManifestMembers(project, folder, files[1..], t, e);
      assert forall k :: 0 < k < |files| ==> files[1..][k - 1] == files[k];
      if exists k :: 0 <= k < |files| && e == Entry(ResultPath(project, folder, files[k]), files[k].kind) && Exists(t, e.path) {
        var k :| 0 <= k < |files| && e == Entry(ResultPath(project, folder, files[k]), files[k].kind) && Exists(t, e.path);
        if k > 0 {
          assert files[1..][k - 1] == files[k];
        }
      }
    }
  }

  /** An entry of the manifest is exactly a table file that exists. */
  lemma {:induction false} ManifestMembers(project: string, table: seq<ResultGroup>, t: Tree, e: Entry)
    ensures e in ManifestOf(project, table, t) <==>
      exists g, k :: 0 <= g < |table| && 0 <= k < |table[g].files| && Exists(t, e.path)
        && e == Entry(ResultPath(project, table[g].folder, table[g].files[k]), table[g].files[k].kind)
  {
    if table != [] {
      ManifestMembers(project, table[1..], t, e);
      GroupManifestMembers(project, table[0].folder, table[0].files, t, e);
      if exists g, k :: (0 <= g < |table| && 0 <= k < |table[g].files| && Exists(t, e.path)
        && e == Entry(ResultPath(project, table[g].folder, table[g].files[k]), table[g].files[k].kind))
      {
        var g, k :| 0 <= g < |table| && 0 <= k < |table[g].files| && Exists(t, e.path)
          && e == Entry(ResultPath(project, table[g].folder, table[g].files[k]), table[g].files[k].kind);
        if g > 0 {
          assert table[1..][g - 1] == table[g];
        }
      }
      if e in ManifestOf(project, table[1..], t) {
        var g, k :| 0 <= g < |table[1..]| && 0 <= k < |table[1..][g].files| && Exists(t, e.path)
          && e == Entry(ResultPath(project, table[1..][g].folder, table[1..][g].files[k]), table[1..][g].files[k].kind);
        assert table[1..][g] == table[g + 1];
      }
    }
  }

  /** The manifest follows table order: the manifest of two tables one
      after the other is the first's followed by the second's. */
  lemma {:induction false} ManifestAppend(project: string, a: seq<ResultGroup>, b: seq<ResultGroup>, t: Tree)
    ensures ManifestOf(project, a + b, t) == ManifestOf(project, a, t) + ManifestOf(project, b, t)
  {
    if a == [] {
      assert a + b == b;
    } else {
      assert (a + b)[0] == a[0];
      assert (a + b)[1..] == a[1..] + b;
      ManifestAppend(project, a[1..], b, t);
    }
  }

  /** The older stage reports what the current one does, minus the
      elevation models: its manifest is a prefix of the current one's. */
  lemma LegacyManifestIsPrefix(project: string, t: Tree)
    ensures ManifestOf(project, OdmResultFiles(), t)
         == ManifestOf(project, LegacyResultFiles(), t) + GroupManifest(project, DemGroup().folder, DemGroup().files, t)
  {
    assert OdmResultFiles() == LegacyResultFiles() + [DemGroup()];
    ManifestAppend(project, LegacyResultFiles(), [DemGroup()], t);
    assert [DemGroup()][1..] == [];
  }

  /** The manifest never lists more entries than the table has files:
      at most twelve for the current table, ten for the older one. */
  lemma {:induction false} ManifestBound(project: string, table: seq<ResultGroup>, t: Tree)
    ensures |ManifestOf(project, table, t)| <= FileCount(table)
  {
    if table != [] {
      ManifestBound(project, table[1..], t);
      GroupBound(project, table[0].folder, table[0].files, t);
    }
  }

  lemma {:induction false} GroupBound(project: string, folder: string, files: seq<ResultFile>, t: Tree)
    ensures |GroupManifest(project, folder, files, t)| <= |files|
  {
    if files != [] {
      GroupBound(project, folder, files[1..], t);
    }
  }

  /** When every table file exists, the manifest lists all of them in order:
      twelve for the current table, ten for the older one. */
  lemma {:induction false} FullManifest(project: string, table: seq<ResultGroup>, t: Tree)
    requires forall g, k :: 0 <= g < |table| && 0 <= k < |table[g].files| ==>
      Exists(t, ResultPath(project, table[g].folder, table[g].files[k]))
    ensures |ManifestOf(project, table, t)| == FileCount(table)
  {
    if table != [] {
      assert forall g :: 0 <= g < |table[1..]| ==> table[1..][g] == table[g + 1];
      FullManifest(project, table[1..], t);
      FullGroup(project, table[0].folder, table[0].files, t);
    }
  }

  lemma {:induction false} FullGroup(project: string, folder: string, files: seq<ResultFile>, t: Tree)
    requires forall k :: 0 <= k < |files| ==> Exists(t, ResultPath(project, folder, files[k]))
    ensures |GroupManifest(project, folder, files, t)| == |files|
  {
    if files != [] {
      assert forall k :: 0 <= k < |files[1..]| ==> files[1..][k] == files[k + 1];
      FullGroup(project, folder, files[1..], t);
    }
  }

  /** Entries are told apart by their mapping form. */
  lemma EntryValueInjective(es: seq<Entry>, e: Entry)
    ensures EntryValue(e) in EntryValues(es) <==> e in es
  {
    if EntryValue(e) in EntryValues(es) {
      var i :| 0 <= i < |EntryValues(es)| && EntryValues(es)[i] == EntryValue(e);
      assert EntryValue(es[i]).entries["path"] == VStr(e.path);
      assert EntryValue(es[i]).entries["key"] == VStr(e.key);
      assert es[i] == e;
    }
    if e in es {
      var i :| 0 <= i < |es| && es[i] == e;
      assert EntryValues(es)[i] == EntryValue(e);
    }
  }
}
