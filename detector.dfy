/**
 * Finding Ultralibrarian exports that the browser unzipped into the Downloads
 * directory (`ul_<MPN>/KiCADv6/footprints.pretty/`), and picking out their files.
 */
module Detector {
  import opened Wrappers
  import opened Text
  import opened FileSystem
  import opened Sorting
  import Search

  const FolderPrefix := "ul_"
  const DefaultMaxAgeSeconds := 300

  /** `Path.home() / "Downloads"`. */
  function DownloadsDir(home: Path): Path {
    Child(home, "Downloads")
  }

  /** `get_downloads_directory`: the directory, or `None` for the RuntimeError raised when it does not exist. */
  function GetDownloadsDirectory(t: Tree, home: Path): (r: Option<Path>)
    ensures r.Some? <==> Exists(t, DownloadsDir(home))
    ensures r.Some? ==> Name(r.value) == "Downloads" && Parent(r.value) == home
  {
    if Exists(t, DownloadsDir(home)) then Some(DownloadsDir(home)) else None
  }

  /** A directory named `ul_…` whose age `now - mtime` does not exceed `maxAgeSeconds`. */
  predicate IsRecentExport(t: Tree, p: Path, now: real, maxAgeSeconds: int) {
    IsDir(t, p) && StartsWith(Name(p), FolderPrefix) && !(now - MTime(t, p) > maxAgeSeconds as real)
  }

  /** The entries of `dir` named in `names` that are recent exports, in listing order. */
  function RecentExports(t: Tree, dir: Path, names: seq<string>, now: real, maxAgeSeconds: int): (r: seq<Path>)
    ensures forall p :: p in r <==> p in ChildrenOf(dir, names) && IsRecentExport(t, p, now, maxAgeSeconds)
  {
    if names == [] then []
    else
      var rest := names[..|names| - 1];
      var p := Child(dir, names[|names| - 1]);
      var keep := IsRecentExport(t, p, now, maxAgeSeconds);
      ChildrenOfSnoc(dir, rest, names[|names| - 1]);
      assert rest + [names[|names| - 1]] == names;
      RecentExports(t, dir, rest, now, maxAgeSeconds) + (if keep then [p] else [])
  }

  /** `key=lambda p: p.stat().st_mtime, reverse=True`: newer first. */
  function NewerFirst(t: Tree): (Path, Path) -> bool {
    (p: Path, q: Path) => MTime(t, p) >= MTime(t, q)
  }

  lemma NewerFirstTotal(t: Tree)
    ensures TotalPreorder(NewerFirst(t))
  {
  }

  /** What `find_ultralibrarian_folders` returns, or the error `iterdir` raises on a Downloads path that is not a directory. */
  function Folders(t: Tree, home: Path, now: real, maxAgeSeconds: int): Result<seq<Path>, OsError> {
    var dir := DownloadsDir(home);
    if !Exists(t, dir) then Ok([])
    else if !IsDir(t, dir) then Err(NotADirectoryError)
    else Ok(SortBy(RecentExports(t, dir, Names(t, dir), now, maxAgeSeconds), NewerFirst(t)))
  }

  /**
   * The folders come newest first, and they are exactly the recent `ul_` directories
   * listed in Downloads.
   */
  lemma FoldersSortedAndSelected(t: Tree, home: Path, now: real, maxAgeSeconds: int, p: Path)
    requires Folders(t, home, now, maxAgeSeconds).Ok?
    ensures var fs := Folders(t, home, now, maxAgeSeconds).value;
      && (forall i, j :: 0 <= i < j < |fs| ==> MTime(t, fs[i]) >= MTime(t, fs[j]))
      && (p in fs <==> p in Entries(t, DownloadsDir(home)) && IsRecentExport(t, p, now, maxAgeSeconds))
  {
    var dir := DownloadsDir(home);
    if IsDir(t, dir) {
      var picked := RecentExports(t, dir, Names(t, dir), now, maxAgeSeconds);
      NewerFirstTotal(t);
      SortBySorted(picked, NewerFirst(t));
      SortByElements(picked, NewerFirst(t), p);
    }
  }

  /** `find_ultralibrarian_folders`: the filtering loop over Downloads, then the newest-first sort. */
  method FindUltralibrarianFolders(t: Tree, home: Path, now: real, maxAgeSeconds: int) returns (r: Result<seq<Path>, OsError>)
    ensures r == Folders(t, home, now, maxAgeSeconds)
  {
    var downloads := GetDownloadsDirectory(t, home);
    if downloads.None? {
      return Ok([]);
    }
    var dir := downloads.value;
    if !IsDir(t, dir) {
      return Err(NotADirectoryError);
    }
    var names := Names(t, dir);
    var folders: seq<Path> := [];
    for i := 0 to |names|
      invariant folders == RecentExports(t, dir, names[..i], now, maxAgeSeconds)
    {
      assert names[..i + 1][..i] == names[..i];
      var folder := Child(dir, names[i]);
      if !IsDir(t, folder) {
        continue;
      }
      if !StartsWith(Name(folder), FolderPrefix) {
        continue;
      }
      var age := now - t.nodes[folder].mtime;
      if age > maxAgeSeconds as real {
        continue;
      }
      folders := folders + [folder];
    }
    assert names[..|names|] == names;
    folders := SortBy(folders, NewerFirst(t));
    return Ok(folders);
  }

  // ---------------------------------------------------------------------------
  // One export folder

  function FootprintsDir(folder: Path): Path {
    Child(Child(folder, "KiCADv6"), "footprints.pretty")
  }

  /** `validate_folder_structure`: the folder, `KiCADv6` and `KiCADv6/footprints.pretty` are all directories. */
  predicate ValidateFolderStructure(t: Tree, folder: Path) {
    IsDir(t, folder) && IsDir(t, Child(folder, "KiCADv6")) && IsDir(t, FootprintsDir(folder))
  }

  /** The dictionary `extract_component_files` returns. */
  datatype ComponentFiles = ComponentFiles(
    mpn: string,
    folderPath: Path,
    symbolPath: Option<Path>,
    footprints: seq<Path>,
    modelPath: Option<Path>,
    valid: bool)

  /** `paths[0] if paths else None`. */
  function First(paths: seq<Path>): (r: Option<Path>)
    ensures r.None? <==> paths == []
    ensures r.Some? ==> r.value in paths
  {
    if paths == [] then None else Some(paths[0])
  }

  /** `name[3:]`: empty when the name is shorter. */
  function DropPrefix(name: string): (mpn: string)
    ensures StartsWith(name, FolderPrefix) ==> name == FolderPrefix + mpn
  {
    if |name| >= 3 then name[3..] else ""
  }

  /** The order of `sorted` on paths of one directory: by name. */
  function ByName(): (Path, Path) -> bool {
    (p: Path, q: Path) => Search.StrLe(Name(p), Name(q))
  }

  lemma ByNameTotal()
    ensures TotalPreorder(ByName())
  {
    forall a: Path, b: Path ensures ByName()(a, b) || ByName()(b, a) {
      Search.StrLeTotal(Name(a), Name(b));
    }
    forall a: Path, b: Path, c: Path | ByName()(a, b) && ByName()(b, c) ensures ByName()(a, c) {
      Search.StrLeTrans(Name(a), Name(b), Name(c));
    }
  }

  /** `extract_component_files`. */
  function ExtractComponentFiles(t: Tree, folder: Path): (r: Option<ComponentFiles>)
    ensures r.None? <==> !ValidateFolderStructure(t, folder)
    ensures r.Some? ==> r.value.folderPath == folder
  {
    if !ValidateFolderStructure(t, folder) then None
    else
      var dir := FootprintsDir(folder);
      var symbol := First(Glob(t, dir, ".kicad_sym"));
      var footprints := SortBy(Glob(t, dir, ".kicad_mod"), ByName());
      var model := First(Glob(t, dir, ".step"));
      Some(ComponentFiles(DropPrefix(Name(folder)), folder, symbol, footprints, model,
                          symbol.Some? && footprints != [] && model.Some?))
  }

  /**
   * The files picked out of a valid folder: the symbol and the model are some match of their
   * pattern (or absent when nothing matches), the footprints are all `.kicad_mod` matches in
   * name order, and `valid` holds exactly when all three kinds are present.
   */
  lemma ExtractedFiles(t: Tree, folder: Path)
    requires ValidateFolderStructure(t, folder)
    ensures var r := ExtractComponentFiles(t, folder).value;
      var dir := FootprintsDir(folder);
      && (StartsWith(Name(folder), FolderPrefix) ==> Name(folder) == FolderPrefix + r.mpn)
      && (r.symbolPath.None? <==> Glob(t, dir, ".kicad_sym") == [])
      && (r.symbolPath.Some? ==> r.symbolPath.value in Entries(t, dir) && EndsWith(Name(r.symbolPath.value), ".kicad_sym"))
      && (r.modelPath.None? <==> Glob(t, dir, ".step") == [])
      && (r.modelPath.Some? ==> r.modelPath.value in Entries(t, dir) && EndsWith(Name(r.modelPath.value), ".step"))
      && multiset(r.footprints) == multiset(Glob(t, dir, ".kicad_mod"))
      && SortedBy(r.footprints, ByName())
      && (r.valid <==> r.symbolPath.Some? && |r.footprints| > 0 && r.modelPath.Some?)
  {
    ByNameTotal();
    SortBySorted(Glob(t, FootprintsDir(folder), ".kicad_mod"), ByName());
  }

  /** `find_and_validate_latest`: the files of the newest recent export, or `None`. */
  method FindAndValidateLatest(t: Tree, home: Path, now: real) returns (r: Result<Option<ComponentFiles>, OsError>)
    ensures Folders(t, home, now, DefaultMaxAgeSeconds).Err? ==> r.Err?
    ensures Folders(t, home, now, DefaultMaxAgeSeconds) == Ok([]) ==> r == Ok(None)
    ensures var fs := Folders(t, home, now, DefaultMaxAgeSeconds);
      fs.Ok? && fs.value != [] ==> r == Ok(ExtractComponentFiles(t, fs.value[0]))
  {
    var folders := FindUltralibrarianFolders(t, home, now, DefaultMaxAgeSeconds);
    if folders.Err? {
      return Err(folders.error);
    }
    if folders.value == [] {
      return Ok(None);
    }
    var latest := folders.value[0];
    var result := ExtractComponentFiles(t, latest);
    return Ok(result);
  }

  /**
   * A result of `find_and_validate_latest` is the newest recent export: no other qualifying
   * folder is newer, and its structure is valid (its files may still be incomplete).
   */
  lemma LatestIsNewest(t: Tree, home: Path, now: real, p: Path)
    requires Folders(t, home, now, DefaultMaxAgeSeconds).Ok?
    requires Folders(t, home, now, DefaultMaxAgeSeconds).value != []
    requires p in Entries(t, DownloadsDir(home)) && IsRecentExport(t, p, now, DefaultMaxAgeSeconds)
    ensures var latest := Folders(t, home, now, DefaultMaxAgeSeconds).value[0];
      && MTime(t, p) <= MTime(t, latest)
      && (ExtractComponentFiles(t, latest).Some? <==> ValidateFolderStructure(t, latest))
  {
    var fs := Folders(t, home, now, DefaultMaxAgeSeconds).value;
    FoldersSortedAndSelected(t, home, now, DefaultMaxAgeSeconds, p);
    var k :| 0 <= k < |fs| && fs[k] == p;
    if k > 0 {
      assert MTime(t, fs[0]) >= MTime(t, fs[k]);
    }
  }
}
