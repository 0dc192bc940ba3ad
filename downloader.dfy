/**
 * Downloading KiCad libraries with easyeda2kicad: the error messages, the ordered
 * check of the downloaded files, the filter that keeps validated libraries, and the
 * cache cleanup.
 */
module Downloader {
  import opened Wrappers
  import opened Text
  import opened FileSystem

  // ---------------------------------------------------------------------------
  // Error messages

  /** A download failure; `errorType` is one of "timeout", "not_found", "validation", "subprocess", "filesystem". */
  datatype DownloadError = DownloadError(lcscId: string, errorType: string, message: string, details: Option<string>)
  {
    /** `user_friendly_message`: one template per error type, the last one for anything else. */
    function UserFriendlyMessage(): string {
      if errorType == "timeout" then "Download for " + lcscId + " timed out (took too long)"
      else if errorType == "not_found" then "Component " + lcscId + " not found or unavailable for download"
      else if errorType == "validation" then "Downloaded files for " + lcscId + " are incomplete: " + message
      else if errorType == "subprocess" then "Download tool error for " + lcscId + ": " + message
      else "Failed to download " + lcscId + ": " + message
    }
  }

  /** Which template an error type selects. */
  function Template(errorType: string): (k: nat)
    ensures k < 5
  {
    if errorType == "timeout" then 0
    else if errorType == "not_found" then 1
    else if errorType == "validation" then 2
    else if errorType == "subprocess" then 3
    else 4
  }

  /** The text in front of the id in each template. */
  function Lead(k: nat): string
    requires k < 5
  {
    ["Download for ", "Component ", "Downloaded files for ", "Download tool error for ", "Failed to download "][k]
  }

  /** Every message names the part, right after its template's lead text. */
  lemma MessageNamesPart(e: DownloadError)
    ensures StartsWith(e.UserFriendlyMessage(), Lead(Template(e.errorType)) + e.lcscId)
    ensures Contains(e.UserFriendlyMessage(), e.lcscId)
  {
    var m := e.UserFriendlyMessage();
    var lead := Lead(Template(e.errorType));
    var rest := m[|lead| + |e.lcscId|..];
    assert m == lead + e.lcscId + rest;
    ContainsConcat(lead, e.lcscId, rest);
  }

  /** The five templates are told apart by their first ten characters. */
  lemma LeadsDiffer(j: nat, k: nat)
    requires j < 5 && k < 5 && j != k
    ensures Lead(j)[..10] != Lead(k)[..10]
  {
    assert Lead(0)[..10] == "Download f";
    assert Lead(1)[..10] == "Component ";
    assert Lead(2)[..10] == "Downloaded";
    assert Lead(3)[..10] == "Download t";
    assert Lead(4)[..10] == "Failed to ";
    assert "Download f"[9] != "Download t"[9] && "Download f"[8] != "Downloaded"[8];
    assert "Downloaded"[8] != "Download t"[8];
  }

  /** Errors of different templates never produce the same message, whatever their ids and texts. */
  lemma MessagesDistinct(a: DownloadError, b: DownloadError)
    requires Template(a.errorType) != Template(b.errorType)
    ensures a.UserFriendlyMessage() != b.UserFriendlyMessage()
  {
    var la := Lead(Template(a.errorType));
    var lb := Lead(Template(b.errorType));
    MessageNamesPart(a);
    MessageNamesPart(b);
    LeadsDiffer(Template(a.errorType), Template(b.errorType));
    HeadsDiffer(a.UserFriendlyMessage(), b.UserFriendlyMessage(), la + a.lcscId, lb + b.lcscId, la[..10], lb[..10]);
  }

  /** Texts that start with prefixes whose heads differ are different. */
  lemma HeadsDiffer(x: string, y: string, px: string, py: string, hx: string, hy: string)
    requires StartsWith(x, px) && StartsWith(y, py)
    requires |hx| == |hy| && StartsWith(px, hx) && StartsWith(py, hy) && hx != hy
    ensures x != y
  {
    assert x[..|hx|] == hx by { assert x[..|px|][..|hx|] == px[..|hx|]; }
    assert y[..|hy|] == hy by { assert y[..|py|][..|hy|] == py[..|hy|]; }
  }

  // ---------------------------------------------------------------------------
  // Validating the downloaded files

  const SymbolMissing := "symbol file missing"
  const SymbolEmpty := "symbol file is empty"
  const FootprintDirMissing := "footprint directory missing"
  const NoFootprints := "no .kicad_mod files found"
  const ModelDirMissing := "3D model directory missing"
  const NoModels := "no .step or .wrl 3D model files found"

  /** The six checks, in the order they are made. */
  function Check(t: Tree, symbol: Path, footprints: Path, models: Path, k: nat): bool
    requires k < 6
  {
    match k
    case 0 => Exists(t, symbol)
    case 1 => symbol in t.nodes && t.nodes[symbol].size != 0
    case 2 => Exists(t, footprints)
    case 3 => |Glob(t, footprints, ".kicad_mod")| > 0
    case 4 => Exists(t, models)
    case 5 => |Glob(t, models, ".step") + Glob(t, models, ".wrl")| > 0
  }

  function Message(k: nat): string
    requires k < 6
  {
    [SymbolMissing, SymbolEmpty, FootprintDirMissing, NoFootprints, ModelDirMissing, NoModels][k]
  }

  predicate PassesUpTo(t: Tree, symbol: Path, footprints: Path, models: Path, k: nat)
    requires k <= 6
  {
    && (k > 0 ==> Check(t, symbol, footprints, models, 0))
    && (k > 1 ==> Check(t, symbol, footprints, models, 1))
    && (k > 2 ==> Check(t, symbol, footprints, models, 2))
    && (k > 3 ==> Check(t, symbol, footprints, models, 3))
    && (k > 4 ==> Check(t, symbol, footprints, models, 4))
    && (k > 5 ==> Check(t, symbol, footprints, models, 5))
  }

  /** `_validate_files_with_detail`: the first failing check and its message, or `(True, "")`. */
  function ValidateFilesWithDetail(t: Tree, symbol: Path, footprints: Path, models: Path): (r: (bool, string))
    ensures r.0 <==> PassesUpTo(t, symbol, footprints, models, 6)
    ensures r.0 <==> r.1 == ""
  {
    if !Exists(t, symbol) then (false, SymbolMissing)
    else if t.nodes[symbol].size == 0 then (false, SymbolEmpty)
    else if !Exists(t, footprints) then (false, FootprintDirMissing)
    else if |Glob(t, footprints, ".kicad_mod")| == 0 then (false, NoFootprints)
    else if !Exists(t, models) then (false, ModelDirMissing)
    else if |Glob(t, models, ".step") + Glob(t, models, ".wrl")| == 0 then (false, NoModels)
    else (true, "")
  }

  /** The detailed check reports the first failing check, and only that one. */
  lemma DetailReportsFirstFailure(t: Tree, symbol: Path, footprints: Path, models: Path, k: nat)
    requires k < 6
    ensures ValidateFilesWithDetail(t, symbol, footprints, models).1 == Message(k)
      <==> PassesUpTo(t, symbol, footprints, models, k) && !Check(t, symbol, footprints, models, k)
  {
    var ms := [SymbolMissing, SymbolEmpty, FootprintDirMissing, NoFootprints, ModelDirMissing, NoModels];
    assert forall i, j :: 0 <= i < j < 6 ==> ms[i] != ms[j] by {
      assert ms[0][0] == 's' && ms[1][0] == 's' && ms[2][0] == 'f' && ms[3][0] == 'n' && ms[4][0] == '3' && ms[5][0] == 'n';
      assert ms[0][12] != ms[1][12];
      assert ms[3][4] != ms[5][4];
    }
    assert Message(k) == ms[k];
    assert forall j :: 0 <= j < 6 ==> Message(j) == ms[j];
  }

  /** `_validate_files`. */
  function ValidateFiles(t: Tree, symbol: Path, footprints: Path, models: Path): (ok: bool)
    ensures ok <==> ValidateFilesWithDetail(t, symbol, footprints, models).1 == ""
  {
    ValidateFilesWithDetail(t, symbol, footprints, models).0
  }

  /** The downloaded files of one part. */
  datatype ComponentLibrary = ComponentLibrary(lcscId: string, symbolPath: Path, footprintDir: Path, modelDir: Path)
  {
    /** `is_valid`: the six conditions, written out as the source writes them. */
    predicate IsValid(t: Tree) {
      && Exists(t, symbolPath)
      && t.nodes[symbolPath].size > 0
      && Exists(t, footprintDir)
      && |Glob(t, footprintDir, ".kicad_mod")| > 0
      && Exists(t, modelDir)
      && (|Glob(t, modelDir, ".step")| > 0 || |Glob(t, modelDir, ".wrl")| > 0)
    }
  }

  /** `is_valid` and the detailed check agree on every tree. */
  lemma IsValidIsValidateFiles(lib: ComponentLibrary, t: Tree)
    ensures lib.IsValid(t) <==> ValidateFiles(t, lib.symbolPath, lib.footprintDir, lib.modelDir)
  {
  }

  // ---------------------------------------------------------------------------
  // Downloading

  const SymbolFile := "easyeda2kicad.kicad_sym"
  const FootprintDir := "easyeda2kicad.pretty"
  const ModelDir := "easyeda2kicad.3dshapes"

  /** How the easyeda2kicad run ended. */
  datatype ToolRun = Exited(code: int) | TimedOut | Crashed

  /** `output_dir`, defaulting to the part's directory in the cache. */
  function OutputDir(cacheDir: Path, lcscId: string, outputDir: Option<Path>): Path {
    outputDir.GetOr(Child(cacheDir, lcscId))
  }

  /** The library the download would describe. */
  function Expected(cacheDir: Path, lcscId: string, outputDir: Option<Path>): ComponentLibrary {
    var out := OutputDir(cacheDir, lcscId, outputDir);
    ComponentLibrary(lcscId, Child(out, SymbolFile), Child(out, FootprintDir), Child(out, ModelDir))
  }

  /**
   * `download_component`: a library only when the tool exits with 0 and the files it left
   * in `t` pass the detailed check; a non-zero exit, a timeout or any other exception gives `None`.
   */
  function DownloadComponent(cacheDir: Path, lcscId: string, outputDir: Option<Path>, run: ToolRun, t: Tree): (r: Option<ComponentLibrary>)
    ensures r.Some? ==> r.value.lcscId == lcscId && r.value.IsValid(t)
    ensures r.Some? <==> run == Exited(0) && Expected(cacheDir, lcscId, outputDir).IsValid(t)
  {
    var out := OutputDir(cacheDir, lcscId, outputDir);
    var symbol := Child(out, SymbolFile);
    var footprints := Child(out, FootprintDir);
    var models := Child(out, ModelDir);
    if run != Exited(0) then None
    else if !ValidateFilesWithDetail(t, symbol, footprints, models).0 then None
    else Some(ComponentLibrary(lcscId, symbol, footprints, models))
  }

  /**
   * `get_validated_libraries`: the requested ids whose download gave a library that is valid
   * in `t`; `download` stands for the parallel downloads.
   */
  function GetValidatedLibraries(ids: seq<string>, download: string -> Option<ComponentLibrary>, t: Tree): (m: map<string, ComponentLibrary>)
    ensures forall id :: id in m ==> id in ids && download(id) == Some(m[id]) && m[id].IsValid(t)
  {
    map id | id in ids && download(id).Some? && download(id).value.IsValid(t) :: download(id).value
  }

  /**
   * With the downloads of `download_component` and the files they left, the filter drops exactly
   * the failed downloads: every id maps to its own library, and every successful download is kept.
   */
  lemma ValidatedAreDownloads(ids: seq<string>, cacheDir: Path, runs: string -> ToolRun, t: Tree)
    ensures var download := id => DownloadComponent(cacheDir, id, None, runs(id), t);
      var m := GetValidatedLibraries(ids, download, t);
      && (forall id :: id in m ==> m[id].lcscId == id)
      && (forall id :: id in ids ==> (id in m <==> download(id).Some?))
  {
  }

  // ---------------------------------------------------------------------------
  // Cache cleanup

  /** `current_time - older_than_hours * 3600`. */
  function Cutoff(now: real, olderThanHours: int): real {
    now - (olderThanHours * 3600) as real
  }

  /** An entry of `dir` the cleanup removes: a directory modified before the cutoff. */
  predicate Expired(t: Tree, dir: Path, name: string, cutoff: real) {
    IsDir(t, Child(dir, name)) && MTime(t, Child(dir, name)) < cutoff
  }

  /** The names of the expired entries, in listing order. */
  function ExpiredNames(t: Tree, dir: Path, names: seq<string>, cutoff: real): (r: seq<string>)
    ensures forall n :: n in r <==> n in names && Expired(t, dir, n, cutoff)
  {
    if names == [] then []
    else (if Expired(t, dir, names[0], cutoff) then [names[0]] else []) + ExpiredNames(t, dir, names[1..], cutoff)
  }

  /** The loop of `cleanup_cache` over the listed names: the tree after it, and the count. */
  function Sweep(t: Tree, dir: Path, names: seq<string>, cutoff: real): (Tree, nat)
    decreases names
  {
    if names == [] then (t, 0)
    else if Expired(t, dir, names[0], cutoff) then
      var (t', n) := Sweep(RemoveTree(t, Child(dir, names[0])), dir, names[1..], cutoff);
      (t', n + 1)
    else Sweep(t, dir, names[1..], cutoff)
  }

  predicate Distinct(names: seq<string>) {
    forall i, j :: 0 <= i < j < |names| ==> names[i] != names[j]
  }

  /** Removing one entry does not change which other entries are expired. */
  lemma {:induction false} ExpiredAfterRemoval(t: Tree, dir: Path, a: string, names: seq<string>, cutoff: real)
    requires a !in names
    ensures ExpiredNames(RemoveTree(t, Child(dir, a)), dir, names, cutoff) == ExpiredNames(t, dir, names, cutoff)
  {
    if names != [] {
      RemoveSibling(t, dir, a, names[0]);
      ExpiredAfterRemoval(t, dir, a, names[1..], cutoff);
    }
  }

  /** The count `cleanup_cache` returns is the number of expired directories listed. */
  lemma {:induction false} SweepCount(t: Tree, dir: Path, names: seq<string>, cutoff: real)
    requires Distinct(names)
    ensures Sweep(t, dir, names, cutoff).1 == |ExpiredNames(t, dir, names, cutoff)|
    decreases names
  {
    if names != [] {
      var a := names[0];
      assert a !in names[1..];
      if Expired(t, dir, a, cutoff) {
        SweepCount(RemoveTree(t, Child(dir, a)), dir, names[1..], cutoff);
        ExpiredAfterRemoval(t, dir, a, names[1..], cutoff);
      } else {
        SweepCount(t, dir, names[1..], cutoff);
      }
    }
  }

  /**
   * After the sweep, an entry of `dir` is gone exactly when it was listed and expired;
   * an entry that stays is unchanged.
   */
  lemma {:induction false} SweepEffect(t: Tree, dir: Path, names: seq<string>, cutoff: real, b: string)
    requires Distinct(names)
    ensures var t' := Sweep(t, dir, names, cutoff).0;
      var q := Child(dir, b);
      && (q in t'.nodes <==> q in t.nodes && !(b in names && Expired(t, dir, b, cutoff)))
      && (q in t'.nodes ==> t'.nodes[q] == t.nodes[q])
    decreases names
  {
    if names != [] {
      var a := names[0];
      assert a !in names[1..];
      if Expired(t, dir, a, cutoff) {
        var t1 := RemoveTree(t, Child(dir, a));
        SweepEffect(t1, dir, names[1..], cutoff, b);
        if b != a {
          RemoveSibling(t, dir, a, b);
        }
      } else {
        SweepEffect(t, dir, names[1..], cutoff, b);
      }
    }
  }

  /** The downloader; only its cache directory and the file tree it works on are modelled. */
  class LibraryDownloader {
    const cacheDir: Path
    var tree: Tree

    constructor(cacheDir: Path, tree: Tree)
      ensures this.cacheDir == cacheDir && this.tree == tree
    {
      this.cacheDir := cacheDir;
      this.tree := tree;
    }

    /**
     * `cleanup_cache`: 0 when the cache directory is missing; otherwise every listed directory
     * modified before the cutoff is removed and counted. A cache path that is not a directory
     * makes `iterdir` raise.
     */
    method CleanupCache(now: real, olderThanHours: int) returns (r: Result<nat, OsError>)
      modifies this
      ensures !Exists(old(tree), cacheDir) ==> r == Ok(0) && tree == old(tree)
      ensures Exists(old(tree), cacheDir) && !IsDir(old(tree), cacheDir) ==> r == Err(NotADirectoryError) && tree == old(tree)
      ensures IsDir(old(tree), cacheDir) ==>
        var (t', n) := Sweep(old(tree), cacheDir, Names(old(tree), cacheDir), Cutoff(now, olderThanHours));
        r == Ok(n) && tree == t'
    {
      if !Exists(tree, cacheDir) {
        return Ok(0);
      }
      if !IsDir(tree, cacheDir) {
        return Err(NotADirectoryError);
      }
      var cutoff := now - (olderThanHours * 3600) as real;
      var names := Names(tree, cacheDir);
      ghost var start := tree;
      var removed := 0;
      for i := 0 to |names|
        invariant Sweep(tree, cacheDir, names[i..], cutoff).0 == Sweep(start, cacheDir, names, cutoff).0
        invariant removed + Sweep(tree, cacheDir, names[i..], cutoff).1 == Sweep(start, cacheDir, names, cutoff).1
      {
        assert names[i..][1..] == names[i + 1..];
        var entry := Child(cacheDir, names[i]);
        if IsDir(tree, entry) && tree.nodes[entry].mtime < cutoff {
          tree := RemoveTree(tree, entry);
          removed := removed + 1;
        }
      }
      return Ok(removed);
    }
  }
}
