/**
 * DatabaseManager: keeps a local snapshot of the jlcparts catalogue fresh and
 * prepares an opened snapshot for fast filtering (denormalised lookup columns with
 * their indexes, and a full-text index). The clock, the HTTP replies, the 7z run and
 * the failures the SQLite engine reports for reasons of its own are parameters; the
 * cache directory is a map from file name to file.
 */
module Database {
  import opened Wrappers
  import opened Text
  import opened Models
  import Search

  // ---------------------------------------------------------------------------
  // Freshness

  const BaseUrl := "https://yaqwsx.github.io/jlcparts/data"
  const MaxAgeDays := 1
  const SecondsPerDay := 86400
  const DatabaseName := "cache.sqlite3"
  const FinalPart := "cache.zip"

  /** A file of the cache directory: its bytes and its modification time, in seconds. */
  datatype File = File(content: seq<bv8>, mtime: real)

  /** The cache directory. */
  type Dir = map<string, File>

  /** `check_database_age`: None without a database file, else the time since it was last modified. */
  function DatabaseAge(files: Dir, now: real): Option<real> {
    if DatabaseName in files then Some(now - files[DatabaseName].mtime) else None
  }

  /** `needs_update`: the snapshot is missing, or older than MAX_AGE_DAYS (strictly). */
  predicate NeedsUpdate(files: Dir, now: real) {
    match DatabaseAge(files, now)
    case None => true
    case Some(age) => age > (MaxAgeDays * SecondsPerDay) as real
  }

  lemma NeedsUpdateExactly(files: Dir, now: real)
    ensures NeedsUpdate(files, now)
        <==> DatabaseName !in files || files[DatabaseName].mtime < now - 86400.0
  {
  }

  // ---------------------------------------------------------------------------
  // Download

  /**
   * What `requests.get` of `BaseUrl + "/" + name` gives back: a response, or a raised
   * exception (timeout, refused connection). The server is a function from part name to reply.
   */
  datatype Reply = Response(status: int, content: seq<bv8>) | NetworkFailure

  /** `raise_for_status` raises for client and server error statuses. */
  predicate ErrorStatus(status: int) {
    400 <= status < 600
  }

  /** The exceptions the manager lets through. */
  datatype DbError =
    | HttpError(part: string, status: int)
    | RequestError(part: string)
    | BadZipFile(message: string)
    | DatabaseError(message: string)
    | FileNotFound(name: string)
    | OperationalError(message: string)

  /** `f"cache.z{part_num:02d}"`: at least two digits, padded with a zero. */
  function PartName(k: nat): string {
    "cache.z" + (if k < 10 then "0" else "") + NatToString(k)
  }

  /** Distinct part numbers name distinct files, none of them the final part or the snapshot. */
  lemma PartNamesDistinct(j: nat, k: nat)
    ensures PartName(j) == PartName(k) ==> j == k
    ensures PartName(k) != FinalPart && PartName(k) != DatabaseName
  {
    PartNameInjective(j, k);
    PartNameNotFixed(k);
  }

  lemma PartNameInjective(j: nat, k: nat)
    ensures PartName(j) == PartName(k) ==> j == k
  {
    var tj := (if j < 10 then "0" else "") + NatToString(j);
    var tk := (if k < 10 then "0" else "") + NatToString(k);
    assert PartName(j) == "cache.z" + tj && PartName(k) == "cache.z" + tk;
    if PartName(j) == PartName(k) {
      PrefixCancel("cache.z", tj, tk);
      PaddedInjective(j, k);
    }
  }

  /** Two-digit padding keeps distinct part numbers distinct. */
  lemma PaddedInjective(j: nat, k: nat)
    requires (if j < 10 then "0" else "") + NatToString(j) == (if k < 10 then "0" else "") + NatToString(k)
    ensures j == k
  {
    PaddedLeads(j);
    PaddedLeads(k);
    if j < 10 {
      PrefixCancel("0", NatToString(j), NatToString(k));
    } else {
      assert "" + NatToString(j) == NatToString(j) && "" + NatToString(k) == NatToString(k);
    }
    NatToStringInjective(j, k);
  }

  /** A padded part number starts with `0` exactly below ten. */
  lemma PaddedLeads(k: nat)
    ensures var t := (if k < 10 then "0" else "") + NatToString(k); t != [] && (t[0] == '0' <==> k < 10)
  {
    if k >= 10 {
      assert (if k < 10 then "0" else "") + NatToString(k) == NatToString(k);
    }
  }

  lemma PrefixCancel(p: string, a: string, b: string)
    requires p + a == p + b
    ensures a == b
  {
    assert a == (p + a)[|p|..];
    assert b == (p + b)[|p|..];
  }

  lemma PartNameNotFixed(k: nat)
    ensures PartName(k) != FinalPart && PartName(k) != DatabaseName
  {
    var tk := (if k < 10 then "0" else "") + NatToString(k);
    assert PartName(k) == "cache.z" + tk;
    assert PartName(k)[6] != DatabaseName[6];
    assert PartName(k)[7] == tk[0] && IsAsciiDigit(tk[0]);
    assert PartName(k)[7] != FinalPart[7];
  }

  /** How the numbered-part loop ended: after cache.z99, at a 404, or on a raised error. */
  datatype LoopEnd = Exhausted | Missing | Failed(error: DbError)

  /** The numbered parts from part k on: the names saved, in order, and how the loop ended. */
  function NumberedParts(fetch: string -> Reply, k: nat): (seq<string>, LoopEnd)
    requires 1 <= k <= 100
    decreases 100 - k
  {
    if k == 100 then ([], Exhausted)
    else
      var name := PartName(k);
      match fetch(name)
      case NetworkFailure => ([], Failed(RequestError(name)))
      case Response(status, _) =>
        if status == 404 then ([], Missing)
        else if ErrorStatus(status) then ([], Failed(HttpError(name, status)))
        else
          var (rest, end) := NumberedParts(fetch, k + 1);
          ([PartName(k)] + rest, end)
  }

  /** A reply the loop saves and goes on after. */
  predicate Accepted(r: Reply) {
    r.Response? && r.status != 404 && !ErrorStatus(r.status)
  }

  /** The saved parts are cache.z(k), cache.z(k+1), … in order; only the 99th ends the loop unasked. */
  lemma {:induction false} NumberedPartsShape(fetch: string -> Reply, k: nat)
    requires 1 <= k <= 100
    ensures var (saved, end) := NumberedParts(fetch, k);
      && k + |saved| <= 100
      && (end.Exhausted? <==> k + |saved| == 100)
      && (forall j :: 0 <= j < |saved| ==> 1 <= k + j <= 99 && saved[j] == PartName(k + j) && Accepted(fetch(saved[j])))
    decreases 100 - k
  {
    if k < 100 {
      if Accepted(fetch(PartName(k))) {
        NumberedPartsShape(fetch, k + 1);
        var (rest, end) := NumberedParts(fetch, k + 1);
        assert NumberedParts(fetch, k).0 == [PartName(k)] + rest;
        forall j | 1 <= j < 1 + |rest|
          ensures ([PartName(k)] + rest)[j] == PartName(k + j)
        {
          assert ([PartName(k)] + rest)[j] == rest[j - 1];
        }
      }
    }
  }

  /** How a reply the loop does not accept ends it. */
  function Stop(r: Reply, name: string): LoopEnd {
    match r
    case NetworkFailure => Failed(RequestError(name))
    case Response(status, _) => if status == 404 then Missing else Failed(HttpError(name, status))
  }

  lemma NumberedPartsStop(fetch: string -> Reply, k: nat)
    requires 1 <= k <= 99 && !Accepted(fetch(PartName(k)))
    ensures NumberedParts(fetch, k) == ([], Stop(fetch(PartName(k)), PartName(k)))
  {
  }

  lemma NumberedPartsStep(fetch: string -> Reply, k: nat)
    requires 1 <= k <= 99 && Accepted(fetch(PartName(k)))
    ensures NumberedParts(fetch, k) == ([PartName(k)] + NumberedParts(fetch, k + 1).0, NumberedParts(fetch, k + 1).1)
  {
  }

  /** Parts k to m-1, by name. */
  function PartNames(k: nat, m: nat): (names: seq<string>)
    requires 1 <= k <= m <= 100
    ensures |names| == m - k
    decreases m - k
  {
    if m == k then [] else PartNames(k, m - 1) + [PartName(m - 1)]
  }

  /** Parts k to m-1 are all accepted. */
  predicate AllAccepted(fetch: string -> Reply, k: nat, m: nat)
    requires 1 <= k <= m <= 100
    decreases m - k
  {
    m == k || (AllAccepted(fetch, k, m - 1) && Accepted(fetch(PartName(m - 1))))
  }

  lemma AppendAssoc<T>(a: seq<T>, b: T, c: seq<T>)
    ensures a + ([b] + c) == (a + [b]) + c
  {
  }

  lemma SnocAssoc<T>(a: seq<T>, b: seq<T>, c: T)
    ensures (a + b) + [c] == a + (b + [c])
  {
  }

  /** When parts k to m-1 are all accepted, the loop from k saves them and goes on as the loop from m. */
  lemma {:induction false} NumberedPartsPrefix(fetch: string -> Reply, k: nat, m: nat)
    requires 1 <= k <= m <= 100 && AllAccepted(fetch, k, m)
    ensures NumberedParts(fetch, k).0 == PartNames(k, m) + NumberedParts(fetch, m).0
    ensures NumberedParts(fetch, k).1 == NumberedParts(fetch, m).1
    decreases m - k
  {
    if k < m {
      NumberedPartsPrefix(fetch, k, m - 1);
      NumberedPartsStep(fetch, m - 1);
      AppendAssoc(PartNames(k, m - 1), PartName(m - 1), NumberedParts(fetch, m).0);
    } else {
      assert PartNames(k, m) == [];
    }
  }

  /** One more accepted part: the loop's record of names, acceptances and files grows by it. */
  lemma ScanStep(fetch: string -> Reply, files: Dir, partFiles: seq<string>, k: nat, now: real)
    requires 1 <= k <= 99 && partFiles == PartNames(1, k) && AllAccepted(fetch, 1, k)
    requires Accepted(fetch(PartName(k)))
    ensures partFiles + [PartName(k)] == PartNames(1, k + 1) && AllAccepted(fetch, 1, k + 1)
    ensures Staged(files, partFiles + [PartName(k)], fetch, now)
         == Staged(files, partFiles, fetch, now)[PartName(k) := File(fetch(PartName(k)).content, now)]
  {
    assert (partFiles + [PartName(k)])[..|partFiles|] == partFiles;
  }

  /** Where the loop stops: after part 99, or at the first part it does not accept. */
  lemma NumberedPartsEnd(fetch: string -> Reply, m: nat, end: LoopEnd)
    requires 1 <= m <= 100 && AllAccepted(fetch, 1, m)
    requires m == 100 ==> end == Exhausted
    requires m < 100 ==> !Accepted(fetch(PartName(m))) && end == Stop(fetch(PartName(m)), PartName(m))
    ensures NumberedParts(fetch, 1) == (PartNames(1, m), end)
  {
    NumberedPartsPrefix(fetch, 1, m);
    if m < 100 {
      NumberedPartsStop(fetch, m);
    }
    assert PartNames(1, m) + [] == PartNames(1, m);
  }

  /** `cache.z01` … `cache.z(m-1)` answered and `cache.z(m)` is missing: those m-1 parts are saved. */
  lemma {:induction false} StopsAtFirstMissing(fetch: string -> Reply, k: nat, m: nat)
    requires 1 <= k <= m <= 99
    requires forall j :: k <= j < m ==> Accepted(fetch(PartName(j)))
    requires fetch(PartName(m)).Response? && fetch(PartName(m)).status == 404
    ensures NumberedParts(fetch, k).1 == Missing
    ensures |NumberedParts(fetch, k).0| == m - k
    decreases m - k
  {
    if k < m {
      StopsAtFirstMissing(fetch, k + 1, m);
    }
  }

  /** The parts the download saves, and the error that cut it short, if any. */
  datatype Fetched = Fetched(saved: seq<string>, error: Option<DbError>)

  /** The numbered loop, then always `cache.zip` unless the loop raised. */
  function FetchParts(fetch: string -> Reply): Fetched {
    var (numbered, end) := NumberedParts(fetch, 1);
    if end.Failed? then Fetched(numbered, Some(end.error))
    else
      match fetch(FinalPart)
      case NetworkFailure => Fetched(numbered, Some(RequestError(FinalPart)))
      case Response(status, _) =>
        if ErrorStatus(status) then Fetched(numbered, Some(HttpError(FinalPart, status)))
        else Fetched(numbered + [FinalPart], None)
  }

  /** The parts requested, in order: each saved part, the part that stopped the loop, then cache.zip. */
  function Requested(fetch: string -> Reply): seq<string> {
    var (numbered, end) := NumberedParts(fetch, 1);
    NumberedPartsShape(fetch, 1);
    var asked := numbered + (if end.Exhausted? then [] else [PartName(|numbered| + 1)]);
    if end.Failed? then asked else asked + [FinalPart]
  }

  /** The body of a reply; an exception has none. */
  function ContentOf(r: Reply): seq<bv8> {
    if r.Response? then r.content else []
  }

  /** The cache directory after writing each named part with the reply to its URL. */
  function Staged(files: Dir, names: seq<string>, fetch: string -> Reply, now: real): Dir {
    if names == [] then files
    else
      var last := names[|names| - 1];
      Staged(files, names[..|names| - 1], fetch, now)[last := File(ContentOf(fetch(last)), now)]
  }

  lemma StagedSnoc(files: Dir, names: seq<string>, name: string, fetch: string -> Reply, now: real)
    ensures Staged(files, names + [name], fetch, now) == Staged(files, names, fetch, now)[name := File(ContentOf(fetch(name)), now)]
  {
    assert (names + [name])[..|names|] == names;
  }

  lemma {:induction false} StagedTouchesOnlyNames(files: Dir, names: seq<string>, fetch: string -> Reply, now: real)
    ensures forall n :: n in files ==> n in Staged(files, names, fetch, now)
    ensures forall n :: n !in names ==> (n in Staged(files, names, fetch, now) <==> n in files)
    ensures forall n :: n in files && n !in names ==> Staged(files, names, fetch, now)[n] == files[n]
  {
    if names != [] {
      StagedTouchesOnlyNames(files, names[..|names| - 1], fetch, now);
    }
  }

  /** `finally`: every part file written is unlinked. */
  function Without(files: Dir, names: seq<string>): (d: Dir)
    ensures forall n :: n in d <==> n in files && n !in names
    ensures forall n :: n in d ==> d[n] == files[n]
  {
    map n | n in files && n !in names :: files[n]
  }

  /** The outcome of `7z x cache.z01`: not installed, or an exit code, its output and the snapshot it wrote, if any. */
  datatype SevenZip = NotInstalled | Exited(code: int, stderr: string, stdout: string, written: Option<File>)

  const SevenZipMissing := "7z command not found. Install with: brew install p7zip"

  /** The message of a failed extraction: stderr, else stdout, else a fixed text. */
  function ExtractError(stderr: string, stdout: string): string {
    "7z extraction failed: " + (if stderr != "" then stderr else if stdout != "" then stdout else "Unknown error")
  }

  // ---------------------------------------------------------------------------
  // The opened snapshot

  /** One row of the full-text index. */
  datatype FtsRow = FtsRow(rowid: SqlValue, description: SqlValue, mfr: SqlValue, category: SqlValue)

  /** What the preparation of a snapshot reads and changes. */
  datatype Contents = Contents(
    tables: seq<string>,
    columns: seq<string>,
    indexes: set<string>,
    rows: seq<Row>,
    fts: seq<FtsRow>)

  /** A snapshot as SQLite opens it: the components table and the lookup tables by name. */
  datatype Image = Image(contents: Contents, lookup: map<string, seq<Row>>)

  /** Opening a non-empty file: None when it is not an SQLite database. */
  type Opener = seq<bv8> -> Option<Image>

  const ComponentsTable := "components"

  /** SQLite reads a zero-length file as a database without tables. */
  const EmptyDatabase := Image(Contents([], [], {}, [], []), map[])

  /** What `sqlite3.connect` of a file gives once a statement runs. */
  function Opened(content: seq<bv8>, open: Opener): Option<Image> {
    if content == [] then Some(EmptyDatabase) else open(content)
  }

  /** `_validate_database` on the snapshot `sqlite3.connect` finds or creates. */
  function Validate(db: File, open: Opener): (r: Result<(), DbError>)
    ensures r.Ok? <==> Opened(db.content, open).Some? && Opened(db.content, open).value.contents.tables != []
  {
    match Opened(db.content, open)
    case None => Err(DatabaseError("file is not a database"))
    case Some(img) => if img.contents.tables == [] then Err(DatabaseError("Database has no tables")) else Ok(())
  }

  /**
   * Extraction and validation, once every part is in place. When 7z succeeds without
   * writing a snapshot, `sqlite3.connect` creates an empty one, stamped `now`, and it stays.
   */
  function Extraction(staged: Dir, sevenZip: Dir -> SevenZip, open: Opener, now: real): (Dir, Result<(), DbError>) {
    match sevenZip(staged)
    case NotInstalled => (staged, Err(BadZipFile(SevenZipMissing)))
    case Exited(code, stderr, stdout, written) =>
      var after := if written.Some? then staged[DatabaseName := written.value] else staged;
      if code != 0 then (after, Err(BadZipFile(ExtractError(stderr, stdout))))
      else
        var validated := if DatabaseName in after then after else after[DatabaseName := File([], now)];
        (validated, Validate(validated[DatabaseName], open))
  }

  /** `download_database`: the directory afterwards and the outcome. */
  function Download(files: Dir, fetch: string -> Reply, sevenZip: Dir -> SevenZip, open: Opener, now: real): (Dir, Result<(), DbError>) {
    var got := FetchParts(fetch);
    var staged := Staged(files, got.saved, fetch, now);
    var (extracted, outcome) :=
      if got.error.Some? then (staged, Err(got.error.value)) else Extraction(staged, sevenZip, open, now);
    (Without(extracted, got.saved), outcome)
  }

  /** Every name the download writes is a part name. */
  lemma SavedAreParts(fetch: string -> Reply)
    ensures forall n :: n in FetchParts(fetch).saved ==> n == FinalPart || exists k :: 1 <= k <= 99 && n == PartName(k)
    ensures DatabaseName !in FetchParts(fetch).saved
  {
    NumberedPartsShape(fetch, 1);
    var numbered := NumberedParts(fetch, 1).0;
    forall n | n in FetchParts(fetch).saved
      ensures (n == FinalPart || exists k :: 1 <= k <= 99 && n == PartName(k)) && n != DatabaseName
    {
      if n != FinalPart {
        assert n in numbered;
        var j :| 0 <= j < |numbered| && numbered[j] == n;
        PartNamesDistinct(1 + j, 1 + j);
      }
    }
  }

  /** After the download, whatever its outcome, no written part remains; other files are as they were, except the snapshot. */
  lemma DownloadCleansUp(files: Dir, fetch: string -> Reply, sevenZip: Dir -> SevenZip, open: Opener, now: real)
    ensures var after := Download(files, fetch, sevenZip, open, now).0;
      && (forall n :: n in FetchParts(fetch).saved ==> n !in after)
      && (forall n :: n in files && n != DatabaseName && n !in FetchParts(fetch).saved ==> n in after && after[n] == files[n])
      && (forall n :: n in after ==> n in files || n == DatabaseName)
  {
    var got := FetchParts(fetch);
    var staged := Staged(files, got.saved, fetch, now);
    var extracted := if got.error.Some? then staged else Extraction(staged, sevenZip, open, now).0;
    assert Download(files, fetch, sevenZip, open, now).0 == Without(extracted, got.saved);
    StagedTouchesOnlyNames(files, got.saved, fetch, now);
    ExtractionWritesOnlySnapshot(staged, sevenZip, open, now);
  }

  /** Extraction writes the snapshot and nothing else. */
  lemma ExtractionWritesOnlySnapshot(staged: Dir, sevenZip: Dir -> SevenZip, open: Opener, now: real)
    ensures var after := Extraction(staged, sevenZip, open, now).0;
      forall n :: n != DatabaseName ==> (n in after <==> n in staged) && (n in after ==> after[n] == staged[n])
  {
  }

  /** The snapshot is never deleted by the cleanup, and a download that succeeds leaves a snapshot with tables. */
  lemma DownloadKeepsSnapshot(files: Dir, fetch: string -> Reply, sevenZip: Dir -> SevenZip, open: Opener, now: real)
    ensures DatabaseName in files ==> DatabaseName in Download(files, fetch, sevenZip, open, now).0
    ensures var (after, r) := Download(files, fetch, sevenZip, open, now);
      r.Ok? ==> (DatabaseName in after && Opened(after[DatabaseName].content, open).Some?
                 && Opened(after[DatabaseName].content, open).value.contents.tables != [])
  {
    var got := FetchParts(fetch);
    var staged := Staged(files, got.saved, fetch, now);
    var (extracted, outcome) :=
      if got.error.Some? then (staged, Err(got.error.value)) else Extraction(staged, sevenZip, open, now);
    assert Download(files, fetch, sevenZip, open, now) == (Without(extracted, got.saved), outcome);
    SavedAreParts(fetch);
    StagedTouchesOnlyNames(files, got.saved, fetch, now);
    ExtractionWritesOnlySnapshot(staged, sevenZip, open, now);
  }

  // ---------------------------------------------------------------------------
  // The SQLite engine, as far as the preparation uses it

  /** The statements the preparation issues. */
  datatype Statement =
    | AddColumn(column: string)
    | Backfill(column: string, table: string, source: string, key: string)
    | CreateIndex(name: string, column: string)
    | CreateFts
    | FillFts
    | Commit
    | Rollback

  /**
   * The engine: lookup tables, the failures it reports for reasons outside this model
   * (a read-only file, a locked database, a missing lookup column), and `json.loads`
   * for json_extract.
   */
  datatype Engine = Engine(lookup: map<string, seq<Row>>, refuses: Statement -> Option<string>, loads: Loads)

  /**
   * A connection: the contents, and inside an implicit transaction the contents to
   * restore on rollback. The driver opens a transaction before UPDATE and INSERT only,
   * so ALTER TABLE outside a transaction takes effect at once.
   */
  datatype Conn = Conn(data: Contents, saved: Option<Contents>)

  predicate OpensTransaction(s: Statement) {
    s.Backfill? || s.FillFts?
  }

  /** A scalar subquery `SELECT source FROM table WHERE id = key`: the first matching row, else NULL. */
  function LookupFirst(rows: seq<Row>, key: SqlValue, source: string): (v: SqlValue)
    ensures v != SqlNull ==> exists i :: 0 <= i < |rows| && Search.SqlCompare(Search.Col(rows[i], "id"), key) == Some(0)
  {
    if rows == [] then SqlNull
    else if Search.SqlCompare(Search.Col(rows[0], "id"), key) == Some(0) then Search.Col(rows[0], source)
    else LookupFirst(rows[1..], key, source)
  }

  function LookupRows(e: Engine, table: string): seq<Row> {
    if table in e.lookup then e.lookup[table] else []
  }

  /** The full-text row of a component: the extra's description when it has one, the join's category. */
  function FtsRowOf(row: Row, e: Engine): FtsRow {
    var extra := Search.Scalar(Search.Member(Search.Document(Search.Col(row, "extra"), e.loads), "description"));
    FtsRow(
      Search.Col(row, "lcsc"),
      if extra != SqlNull then extra else Search.Col(row, "description"),
      Search.Col(row, "mfr"),
      LookupFirst(LookupRows(e, "categories"), Search.Col(row, "category_id"), "category"))
  }

  function FtsRows(rows: seq<Row>, e: Engine): (r: seq<FtsRow>)
    ensures |r| == |rows|
    ensures forall i :: 0 <= i < |rows| ==> r[i] == FtsRowOf(rows[i], e)
  {
    if rows == [] then [] else FtsRows(rows[..|rows| - 1], e) + [FtsRowOf(rows[|rows| - 1], e)]
  }

  /** A successful statement's effect on the contents. */
  function Apply(s: Statement, c: Contents, e: Engine): Contents {
    match s
    case AddColumn(col) =>
      c.(columns := c.columns + [col], rows := seq(|c.rows|, i requires 0 <= i < |c.rows| => c.rows[i][col := SqlNull]))
    case Backfill(col, table, source, key) =>
      c.(rows := seq(|c.rows|, i requires 0 <= i < |c.rows| =>
        c.rows[i][col := LookupFirst(LookupRows(e, table), Search.Col(c.rows[i], key), source)]))
    case CreateIndex(name, _) => c.(indexes := c.indexes + {name})
    case CreateFts => c.(tables := c.tables + [FtsTable], fts := [])
    case FillFts => c.(fts := c.fts + FtsRows(c.rows, e))
    case Commit => c
    case Rollback => c
  }

  /** The statements that name the components table (the full-text table's CREATE only records it). */
  predicate ReadsComponents(s: Statement) {
    s.AddColumn? || s.Backfill? || s.CreateIndex? || s.FillFts?
  }

  /** Some component's `extra` is text that is not JSON: json_extract raises on it. */
  predicate MalformedExtra(rows: seq<Row>, loads: Loads) {
    exists i :: 0 <= i < |rows| && Search.MalformedJson(Search.Col(rows[i], "extra"), loads)
  }

  /**
   * Why a statement fails: a missing components table or an existing column when it is
   * prepared; the engine's own reasons; and, for the index fill, which reads every row's
   * `extra`, a document that is not JSON.
   */
  function Refusal(s: Statement, c: Contents, e: Engine): Option<string> {
    if ReadsComponents(s) && ComponentsTable !in c.tables then Some("no such table: components")
    else if s.AddColumn? && s.column in c.columns then Some("duplicate column name: " + s.column)
    else if e.refuses(s).Some? then e.refuses(s)
    else if s.FillFts? && MalformedExtra(c.rows, e.loads) then Some("malformed JSON")
    else None
  }

  /** A statement run in the middle of a `try` block: skipped once an earlier one has raised. */
  datatype Attempt = Attempt(conn: Conn, failure: Option<string>)

  function After(a: Attempt, s: Statement, e: Engine): (b: Attempt)
    ensures a.failure.Some? ==> b == a
  {
    if a.failure.Some? then a
    else
      var saved := if OpensTransaction(s) && a.conn.saved.None? then Some(a.conn.data) else a.conn.saved;
      match Refusal(s, a.conn.data, e)
      case Some(msg) => Attempt(Conn(a.conn.data, saved), Some(msg))
      case None =>
        if s.Commit? then Attempt(Conn(a.conn.data, None), None)
        else Attempt(Conn(Apply(s, a.conn.data, e), saved), None)
  }

  /** `conn.rollback()`: back to the contents at the start of the open transaction; its own failure is ignored. */
  function RolledBack(conn: Conn, e: Engine): (r: Conn)
    ensures conn.saved.None? ==> r == conn
  {
    if conn.saved.Some? && e.refuses(Rollback).None? then Conn(conn.saved.value, None) else conn
  }

  // ---------------------------------------------------------------------------
  // Schema optimisation

  const CategoryName := "category_name"
  const SubcategoryName := "subcategory_name"
  const ManufacturerName := "manufacturer_name"
  const FtsTable := "components_fts"

  const AddCategoryName := AddColumn(CategoryName)
  const AddSubcategoryName := AddColumn(SubcategoryName)
  const AddManufacturerName := AddColumn(ManufacturerName)
  const FillCategoryName := Backfill(CategoryName, "categories", "category", "category_id")
  const FillSubcategoryName := Backfill(SubcategoryName, "categories", "subcategory", "category_id")
  const FillManufacturerName := Backfill(ManufacturerName, "manufacturers", "name", "manufacturer_id")
  const IndexCategoryName := CreateIndex("idx_category_name", CategoryName)
  const IndexSubcategoryName := CreateIndex("idx_subcategory_name", SubcategoryName)
  const IndexManufacturerName := CreateIndex("idx_manufacturer_name", ManufacturerName)
  const IndexPackage := CreateIndex("idx_package", "package")
  const NewIndexes := {"idx_category_name", "idx_subcategory_name", "idx_manufacturer_name", "idx_package"}

  /** The three ALTER TABLE statements. */
  function AddColumns(conn: Conn, e: Engine): Attempt {
    After(After(After(Attempt(conn, None), AddCategoryName, e), AddSubcategoryName, e), AddManufacturerName, e)
  }

  /** The three backfilling UPDATEs. */
  function FillColumns(a: Attempt, e: Engine): Attempt {
    After(After(After(a, FillCategoryName, e), FillSubcategoryName, e), FillManufacturerName, e)
  }

  /** The four CREATE INDEX statements. */
  function IndexColumns(a: Attempt, e: Engine): Attempt {
    After(After(After(After(a, IndexCategoryName, e), IndexSubcategoryName, e), IndexManufacturerName, e), IndexPackage, e)
  }

  /** The statements of the migration, in order, stopping at the first that raises. */
  function Migrate(conn: Conn, e: Engine): Attempt {
    After(IndexColumns(FillColumns(AddColumns(conn, e), e), e), Commit, e)
  }

  /** The messages `_optimize_schema` swallows, matched on the lowercased text. */
  predicate Swallowed(msg: string) {
    var m := AsciiLower(msg);
    Contains(m, "already exists") || Contains(m, "duplicate column name") || Contains(m, "readonly database")
  }

  /** `_optimize_schema`: the connection afterwards and the outcome. */
  function SchemaOptimised(conn: Conn, e: Engine): (Conn, Result<(), DbError>) {
    if CategoryName in conn.data.columns then (conn, Ok(()))
    else
      var a := Migrate(conn, e);
      if a.failure.None? then (a.conn, Ok(()))
      else (RolledBack(a.conn, e), if Swallowed(a.failure.value) then Ok(()) else Err(OperationalError(a.failure.value)))
  }

  /** The row after the three backfills. */
  function Denormalised(row: Row, e: Engine): Row {
    row[CategoryName := LookupFirst(LookupRows(e, "categories"), Search.Col(row, "category_id"), "category")]
       [SubcategoryName := LookupFirst(LookupRows(e, "categories"), Search.Col(row, "category_id"), "subcategory")]
       [ManufacturerName := LookupFirst(LookupRows(e, "manufacturers"), Search.Col(row, "manufacturer_id"), "name")]
  }

  /** The three ALTERs on a snapshot without the columns: each row gains them as NULL, outside any transaction. */
  lemma ColumnsAdded(conn: Conn, e: Engine)
    requires conn.saved.None?
    requires CategoryName !in conn.data.columns && SubcategoryName !in conn.data.columns && ManufacturerName !in conn.data.columns
    requires forall s :: e.refuses(s).None?
    requires ComponentsTable in conn.data.tables
    ensures var a := AddColumns(conn, e);
      && a.failure.None? && a.conn.saved.None?
      && a.conn.data.columns == conn.data.columns + [CategoryName, SubcategoryName, ManufacturerName]
      && a.conn.data.tables == conn.data.tables && a.conn.data.indexes == conn.data.indexes && a.conn.data.fts == conn.data.fts
      && |a.conn.data.rows| == |conn.data.rows|
      && forall i :: 0 <= i < |conn.data.rows| ==>
           a.conn.data.rows[i] == conn.data.rows[i][CategoryName := SqlNull][SubcategoryName := SqlNull][ManufacturerName := SqlNull]
  {
    var c := conn.data;
    var a1 := After(Attempt(conn, None), AddCategoryName, e);
    var a2 := After(a1, AddSubcategoryName, e);
    assert a2.conn.data.columns == c.columns + [CategoryName] + [SubcategoryName];
    assert c.columns + [CategoryName] + [SubcategoryName] + [ManufacturerName] == c.columns + [CategoryName, SubcategoryName, ManufacturerName];
  }

  /** The three backfills, when none fails: each row is denormalised, inside a transaction. */
  lemma ColumnsFilled(a: Attempt, e: Engine)
    requires a.failure.None? && a.conn.saved.None?
    requires forall s :: e.refuses(s).None?
    requires ComponentsTable in a.conn.data.tables
    ensures var b := FillColumns(a, e);
      && b.failure.None? && b.conn.saved == Some(a.conn.data)
      && b.conn.data == a.conn.data.(rows := b.conn.data.rows)
      && |b.conn.data.rows| == |a.conn.data.rows|
      && forall i :: 0 <= i < |a.conn.data.rows| ==> b.conn.data.rows[i] == Denormalised(a.conn.data.rows[i], e)
  {
    var rows := a.conn.data.rows;
    var b1 := After(a, FillCategoryName, e);
    var b2 := After(b1, FillSubcategoryName, e);
    var b3 := After(b2, FillManufacturerName, e);
    forall i | 0 <= i < |rows|
      ensures b3.conn.data.rows[i] == Denormalised(rows[i], e)
    {
      assert Search.Col(b1.conn.data.rows[i], "category_id") == Search.Col(rows[i], "category_id");
      assert Search.Col(b2.conn.data.rows[i], "manufacturer_id") == Search.Col(rows[i], "manufacturer_id");
    }
  }

  /** The four CREATE INDEX statements, when none fails: only the set of indexes changes. */
  lemma ColumnsIndexed(a: Attempt, e: Engine)
    requires a.failure.None?
    requires forall s :: e.refuses(s).None?
    requires ComponentsTable in a.conn.data.tables
    ensures var b := IndexColumns(a, e);
      && b.failure.None? && b.conn.saved == a.conn.saved
      && b.conn.data == a.conn.data.(indexes := a.conn.data.indexes + NewIndexes)
  {
  }

  /** Denormalising overwrites the three columns, so what they held before does not matter. */
  lemma DenormalisedOverwrites(row: Row, e: Engine)
    ensures Denormalised(row[CategoryName := SqlNull][SubcategoryName := SqlNull][ManufacturerName := SqlNull], e) == Denormalised(row, e)
  {
    var cleared := row[CategoryName := SqlNull][SubcategoryName := SqlNull][ManufacturerName := SqlNull];
    IdColumnsApart();
    ClearedKeeps(row, CategoryName, SubcategoryName, ManufacturerName, SqlNull, "category_id");
    ClearedKeeps(row, CategoryName, SubcategoryName, ManufacturerName, SqlNull, "manufacturer_id");
    var cat := LookupFirst(LookupRows(e, "categories"), Search.Col(row, "category_id"), "category");
    var sub := LookupFirst(LookupRows(e, "categories"), Search.Col(row, "category_id"), "subcategory");
    var man := LookupFirst(LookupRows(e, "manufacturers"), Search.Col(row, "manufacturer_id"), "name");
    assert Denormalised(cleared, e) == cleared[CategoryName := cat][SubcategoryName := sub][ManufacturerName := man];
    assert Denormalised(row, e) == row[CategoryName := cat][SubcategoryName := sub][ManufacturerName := man];
    Overwrite3(row, CategoryName, SubcategoryName, ManufacturerName, SqlNull, cat, sub, man);
  }

  /** The key columns are not among the three denormalised ones. */
  lemma IdColumnsApart()
    ensures "category_id" !in {CategoryName, SubcategoryName, ManufacturerName}
    ensures "manufacturer_id" !in {CategoryName, SubcategoryName, ManufacturerName}
  {
  }

  lemma ClearedKeeps(row: Row, a: string, b: string, c: string, x: SqlValue, k: string)
    requires k !in {a, b, c}
    ensures Search.Col(row[a := x][b := x][c := x], k) == Search.Col(row, k)
  {
  }

  /** Setting three keys twice keeps only the second values. */
  lemma Overwrite3<K, V>(m: map<K, V>, a: K, b: K, c: K, x: V, va: V, vb: V, vc: V)
    ensures m[a := x][b := x][c := x][a := va][b := vb][c := vc] == m[a := va][b := vb][c := vc]
  {
  }

  /** When nothing fails, the three columns are added, filled from the lookup tables and indexed, and committed. */
  lemma OptimiseFreshSnapshot(conn: Conn, e: Engine)
    requires conn.saved.None?
    requires CategoryName !in conn.data.columns && SubcategoryName !in conn.data.columns && ManufacturerName !in conn.data.columns
    requires forall s :: e.refuses(s).None?
    requires ComponentsTable in conn.data.tables
    ensures var (after, r) := SchemaOptimised(conn, e);
      && r.Ok?
      && after.saved.None?
      && after.data.columns == conn.data.columns + [CategoryName, SubcategoryName, ManufacturerName]
      && after.data.indexes == conn.data.indexes + NewIndexes
      && after.data.tables == conn.data.tables && after.data.fts == conn.data.fts
      && |after.data.rows| == |conn.data.rows|
      && forall i :: 0 <= i < |conn.data.rows| ==> after.data.rows[i] == Denormalised(conn.data.rows[i], e)
  {
    var added := AddColumns(conn, e);
    ColumnsAdded(conn, e);
    var filled := FillColumns(added, e);
    ColumnsFilled(added, e);
    var indexed := IndexColumns(filled, e);
    ColumnsIndexed(filled, e);
    assert Migrate(conn, e) == Attempt(Conn(indexed.conn.data, None), None);
    forall i | 0 <= i < |conn.data.rows|
      ensures indexed.conn.data.rows[i] == Denormalised(conn.data.rows[i], e)
    {
      DenormalisedOverwrites(conn.data.rows[i], e);
    }
  }

  /** `category_name` is in the contents, and in the contents a rollback would restore. */
  predicate HasCategoryName(a: Attempt) {
    CategoryName in a.conn.data.columns && (a.conn.saved.Some? ==> CategoryName in a.conn.saved.value.columns)
  }

  /** No statement removes a column, and a transaction saves contents that have it. */
  lemma KeepsCategoryName(a: Attempt, s: Statement, e: Engine)
    requires HasCategoryName(a)
    ensures HasCategoryName(After(a, s, e))
  {
  }

  lemma MigrationKeepsCategoryName(a: Attempt, e: Engine)
    requires HasCategoryName(a)
    ensures HasCategoryName(After(IndexColumns(FillColumns(a, e), e), Commit, e))
  {
    var b1 := After(a, FillCategoryName, e);
    KeepsCategoryName(a, FillCategoryName, e);
    var b2 := After(b1, FillSubcategoryName, e);
    KeepsCategoryName(b1, FillSubcategoryName, e);
    var b3 := After(b2, FillManufacturerName, e);
    KeepsCategoryName(b2, FillManufacturerName, e);
    var c1 := After(b3, IndexCategoryName, e);
    KeepsCategoryName(b3, IndexCategoryName, e);
    var c2 := After(c1, IndexSubcategoryName, e);
    KeepsCategoryName(c1, IndexSubcategoryName, e);
    var c3 := After(c2, IndexManufacturerName, e);
    KeepsCategoryName(c2, IndexManufacturerName, e);
    var c4 := After(c3, IndexPackage, e);
    KeepsCategoryName(c3, IndexPackage, e);
    KeepsCategoryName(c4, Commit, e);
  }

  /** When no transaction was open and the first ALTER goes through, a second call does nothing, whatever failed after it. */
  lemma OptimiseTwiceIsOnce(conn: Conn, e: Engine)
    requires conn.saved.None?
    requires CategoryName !in conn.data.columns && e.refuses(AddCategoryName).None?
    requires ComponentsTable in conn.data.tables
    ensures var after := SchemaOptimised(conn, e).0;
      CategoryName in after.data.columns && SchemaOptimised(after, e) == (after, Ok(()))
  {
    var a1 := After(Attempt(conn, None), AddCategoryName, e);
    assert HasCategoryName(a1);
    var a2 := After(a1, AddSubcategoryName, e);
    KeepsCategoryName(a1, AddSubcategoryName, e);
    var a3 := After(a2, AddManufacturerName, e);
    KeepsCategoryName(a2, AddManufacturerName, e);
    assert a3 == AddColumns(conn, e);
    MigrationKeepsCategoryName(a3, e);
  }

  /** A refused first ALTER changes nothing; the call succeeds exactly when the message is one of the tolerated kinds. */
  lemma OptimiseRefused(conn: Conn, e: Engine, msg: string)
    requires conn.saved.None? && CategoryName !in conn.data.columns
    requires e.refuses(AddCategoryName) == Some(msg)
    requires ComponentsTable in conn.data.tables
    ensures SchemaOptimised(conn, e).0 == conn
    ensures SchemaOptimised(conn, e).1.Ok? <==> Swallowed(msg)
  {
  }

  const ReadOnlyMessage := "attempt to write a readonly database"

  lemma ReadOnlySwallowed()
    ensures Swallowed(ReadOnlyMessage)
  {
    assert ReadOnlyMessage == "attempt to write a " + "readonly database" + "";
    AsciiLowerNoop(ReadOnlyMessage);
    ContainsConcat("attempt to write a ", "readonly database", "");
  }

  lemma DuplicateSwallowed(column: string)
    requires forall i :: 0 <= i < |column| ==> !('A' <= column[i] <= 'Z')
    ensures Swallowed("duplicate column name: " + column)
  {
    var msg := "duplicate column name: " + column;
    assert msg == "" + "duplicate column name" + (": " + column);
    AsciiLowerNoop(msg);
    ContainsConcat("", "duplicate column name", ": " + column);
  }

  /** A read-only snapshot: the ALTER's error is swallowed and nothing changes. */
  lemma OptimiseReadOnly(conn: Conn, e: Engine)
    requires conn.saved.None? && CategoryName !in conn.data.columns
    requires e.refuses(AddCategoryName) == Some(ReadOnlyMessage)
    requires ComponentsTable in conn.data.tables
    ensures SchemaOptimised(conn, e) == (conn, Ok(()))
  {
    ReadOnlySwallowed();
    OptimiseSwallowed(conn, e, ReadOnlyMessage);
  }

  lemma OptimiseSwallowed(conn: Conn, e: Engine, msg: string)
    requires conn.saved.None? && CategoryName !in conn.data.columns
    requires e.refuses(AddCategoryName) == Some(msg) && Swallowed(msg)
    requires ComponentsTable in conn.data.tables
    ensures SchemaOptimised(conn, e) == (conn, Ok(()))
  {
    OptimiseRefused(conn, e, msg);
  }

  /**
   * A snapshot that already has `subcategory_name` but not `category_name`: the second
   * ALTER reports a duplicate column, which is swallowed. The first ALTER stays, so the
   * new column is never filled and no index is built, and later calls skip the migration.
   */
  lemma OptimiseHalfMigrated(conn: Conn, e: Engine)
    requires conn.saved.None? && CategoryName !in conn.data.columns && SubcategoryName in conn.data.columns
    requires forall s :: e.refuses(s).None?
    requires ComponentsTable in conn.data.tables
    ensures var (after, r) := SchemaOptimised(conn, e);
      && r.Ok?
      && after.data.columns == conn.data.columns + [CategoryName]
      && after.data.indexes == conn.data.indexes
      && (forall i :: 0 <= i < |after.data.rows| ==> Search.Col(after.data.rows[i], CategoryName) == SqlNull)
      && SchemaOptimised(after, e) == (after, Ok(()))
  {
    DuplicateSwallowed(SubcategoryName);
    var a1 := After(Attempt(conn, None), AddCategoryName, e);
    assert a1.failure.None? && a1.conn.saved.None?;
    var a2 := After(a1, AddSubcategoryName, e);
    assert a2 == Attempt(a1.conn, Some("duplicate column name: " + SubcategoryName));
  }

  // ---------------------------------------------------------------------------
  // Full-text index

  /** `_init_fts5`: create and fill `components_fts` unless it exists; only "already exists" errors are tolerated. */
  function FtsInitialised(conn: Conn, e: Engine): (Conn, Result<(), DbError>) {
    if FtsTable in conn.data.tables then (conn, Ok(()))
    else
      var a := After(After(After(Attempt(conn, None), CreateFts, e), FillFts, e), Commit, e);
      if a.failure.None? then (a.conn, Ok(()))
      else (a.conn, if Contains(a.failure.value, "already exists") then Ok(()) else Err(OperationalError(a.failure.value)))
  }

  /** When nothing fails, the index holds one row per component, in table order, committed. */
  lemma FtsFreshSnapshot(conn: Conn, e: Engine)
    requires conn.saved.None? && FtsTable !in conn.data.tables
    requires forall s :: e.refuses(s).None?
    requires ComponentsTable in conn.data.tables
    requires !MalformedExtra(conn.data.rows, e.loads)
    ensures var (after, r) := FtsInitialised(conn, e);
      && r.Ok? && after.saved.None?
      && after.data == conn.data.(tables := conn.data.tables + [FtsTable], fts := FtsRows(conn.data.rows, e))
  {
  }

  /** Once the CREATE goes through, the table stays even if filling it fails, so a second call does nothing. */
  lemma FtsTwiceIsOnce(conn: Conn, e: Engine)
    requires conn.saved.None? && FtsTable !in conn.data.tables && e.refuses(CreateFts).None?
    ensures var after := FtsInitialised(conn, e).0;
      FtsTable in after.data.tables && FtsInitialised(after, e) == (after, Ok(()))
  {
    var a1 := After(Attempt(conn, None), CreateFts, e);
    assert FtsTable in a1.conn.data.tables;
  }

  /** The full-text row of a component takes its key from lcsc and prefers the extra's description. */
  lemma FtsRowFields(rows: seq<Row>, e: Engine, i: nat)
    requires i < |rows|
    ensures |FtsRows(rows, e)| == |rows|
    ensures FtsRows(rows, e)[i].rowid == Search.Col(rows[i], "lcsc")
    ensures var d := Search.Scalar(Search.Member(Search.Document(Search.Col(rows[i], "extra"), e.loads), "description"));
      FtsRows(rows, e)[i].description == (if d.SqlNull? then Search.Col(rows[i], "description") else d)
  {
  }

  const MalformedMessage := "malformed JSON"

  lemma MalformedNotTolerated()
    ensures !Contains(MalformedMessage, "already exists")
  {
    assert forall i :: 0 <= i < |MalformedMessage| ==> MalformedMessage[i] != 'y';
    NoChar(MalformedMessage, "already exists", 6);
  }

  /**
   * One component whose `extra` is text but not JSON makes the fill raise: the created table
   * stays, empty, the statement's transaction stays open, and the error is not tolerated.
   */
  lemma FtsMalformedExtraRaises(conn: Conn, e: Engine, i: int)
    requires conn.saved.None? && FtsTable !in conn.data.tables && ComponentsTable in conn.data.tables
    requires e.refuses(CreateFts).None? && e.refuses(FillFts).None?
    requires 0 <= i < |conn.data.rows| && Search.MalformedJson(Search.Col(conn.data.rows[i], "extra"), e.loads)
    ensures var (after, r) := FtsInitialised(conn, e);
      && r == Err(OperationalError(MalformedMessage))
      && after.data == conn.data.(tables := conn.data.tables + [FtsTable], fts := [])
      && after.saved == Some(after.data)
  {
    var created := conn.data.(tables := conn.data.tables + [FtsTable], fts := []);
    var a1 := After(Attempt(conn, None), CreateFts, e);
    assert a1 == Attempt(Conn(created, None), None);
    assert Search.MalformedJson(Search.Col(created.rows[i], "extra"), e.loads);
    assert Refusal(FillFts, created, e) == Some(MalformedMessage);
    var a2 := After(a1, FillFts, e);
    assert a2 == Attempt(Conn(created, Some(created)), Some(MalformedMessage));
    MalformedNotTolerated();
    FtsRaises(conn, e, a2, MalformedMessage);
  }

  /** An index build whose fill raises an error other than "already exists" raises it, past the skipped commit. */
  lemma FtsRaises(conn: Conn, e: Engine, a2: Attempt, msg: string)
    requires FtsTable !in conn.data.tables
    requires a2 == After(After(Attempt(conn, None), CreateFts, e), FillFts, e)
    requires a2.failure == Some(msg) && !Contains(msg, "already exists")
    ensures FtsInitialised(conn, e) == (a2.conn, Err(OperationalError(msg)))
  {
  }

  // ---------------------------------------------------------------------------
  // The objects

  /** An opened snapshot. */
  class Store {
    var conn: Conn
    const engine: Engine

    constructor (data: Contents, engine: Engine)
      ensures conn == Conn(data, None) && this.engine == engine
    {
      conn := Conn(data, None);
      this.engine := engine;
    }

    /** `cursor.execute(s)` inside a `try` block, unless an earlier statement raised. */
    method Execute(s: Statement, prior: Option<string>) returns (failure: Option<string>)
      modifies this
      ensures Attempt(conn, failure) == After(Attempt(old(conn), prior), s, engine)
    {
      if prior.Some? {
        failure := prior;
        return;
      }
      var saved := if OpensTransaction(s) && conn.saved.None? then Some(conn.data) else conn.saved;
      failure := Refusal(s, conn.data, engine);
      if failure.Some? {
        conn := Conn(conn.data, saved);
      } else if s.Commit? {
        conn := Conn(conn.data, None);
      } else {
        conn := Conn(Apply(s, conn.data, engine), saved);
      }
    }

    method DoRollback()
      modifies this
      ensures conn == RolledBack(old(conn), engine)
    {
      if conn.saved.Some? && engine.refuses(Rollback).None? {
        conn := Conn(conn.saved.value, None);
      }
    }

    /** `_optimize_schema`. */
    /** The two preparation steps of `get_connection`: the full-text index if asked, then the schema. */
    method Prepare(enableFts: bool) returns (r: Result<(), DbError>)
      requires conn.saved.None?
      modifies this
      ensures (conn, r) == Prepared(old(conn).data, engine, enableFts)
    {
      ghost var data := conn.data;
      if enableFts {
        var f := InitFts();
        if f.Err? {
          return f;
        }
      }
      ghost var c1 := conn;
      r := OptimizeSchema();
      PreparedSteps(data, engine, enableFts, c1, conn, r);
    }

    method OptimizeSchema() returns (r: Result<(), DbError>)
      modifies this
      ensures (conn, r) == SchemaOptimised(old(conn), engine)
    {
      if CategoryName in conn.data.columns {
        return Ok(());
      }
      var failure := Execute(AddCategoryName, None);
      failure := Execute(AddSubcategoryName, failure);
      failure := Execute(AddManufacturerName, failure);
      failure := Execute(FillCategoryName, failure);
      failure := Execute(FillSubcategoryName, failure);
      failure := Execute(FillManufacturerName, failure);
      failure := Execute(IndexCategoryName, failure);
      failure := Execute(IndexSubcategoryName, failure);
      failure := Execute(IndexManufacturerName, failure);
      failure := Execute(IndexPackage, failure);
      failure := Execute(Commit, failure);
      if failure.None? {
        r := Ok(());
      } else {
        DoRollback();
        r := if Swallowed(failure.value) then Ok(()) else Err(OperationalError(failure.value));
      }
    }

    /** `_init_fts5`. */
    method InitFts() returns (r: Result<(), DbError>)
      modifies this
      ensures (conn, r) == FtsInitialised(old(conn), engine)
    {
      if FtsTable in conn.data.tables {
        return Ok(());
      }
      var failure := Execute(CreateFts, None);
      failure := Execute(FillFts, failure);
      failure := Execute(Commit, failure);
      if failure.None? {
        r := Ok(());
      } else {
        r := if Contains(failure.value, "already exists") then Ok(()) else Err(OperationalError(failure.value));
      }
    }
  }

  /** The preparation `get_connection` applies to an opened snapshot: the full-text index first, then the schema. */
  function Prepared(data: Contents, e: Engine, enableFts: bool): (Conn, Result<(), DbError>) {
    var (c1, r1) := if enableFts then FtsInitialised(Conn(data, None), e) else (Conn(data, None), Ok(()));
    if r1.Err? then (c1, r1) else SchemaOptimised(c1, e)
  }

  /** Once the full-text step succeeds (or is skipped), preparing ends as the schema step does. */
  lemma PreparedSteps(data: Contents, e: Engine, enableFts: bool, c1: Conn, c2: Conn, r: Result<(), DbError>)
    requires enableFts ==> (c1, Ok(())) == FtsInitialised(Conn(data, None), e)
    requires !enableFts ==> c1 == Conn(data, None)
    requires (c2, r) == SchemaOptimised(c1, e)
    ensures (c2, r) == Prepared(data, e, enableFts)
  {
  }

  /** The cache directory after `update_if_needed`. */
  function Updated(files: Dir, fetch: string -> Reply, sevenZip: Dir -> SevenZip, open: Opener, now: real): Dir {
    if NeedsUpdate(files, now) then Download(files, fetch, sevenZip, open, now).0 else files
  }

  /** What `update_if_needed` returns or raises. */
  function UpdateResult(files: Dir, fetch: string -> Reply, sevenZip: Dir -> SevenZip, open: Opener, now: real): Result<bool, DbError> {
    if !NeedsUpdate(files, now) then Ok(false)
    else
      var d := Download(files, fetch, sevenZip, open, now).1;
      if d.Ok? then Ok(true) else Err(d.error)
  }

  /** `get_connection` as a value: the prepared connection, or the first error raised. */
  function Connection(files: Dir, fetch: string -> Reply, sevenZip: Dir -> SevenZip, open: Opener, e0: Engine,
                      now: real, enableFts: bool): Result<Conn, DbError> {
    var u := UpdateResult(files, fetch, sevenZip, open, now);
    var after := Updated(files, fetch, sevenZip, open, now);
    if u.Err? then Err(u.error)
    else if DatabaseName !in after then Err(FileNotFound(DatabaseName))
    else match Opened(after[DatabaseName].content, open)
      case None => Err(DatabaseError("file is not a database"))
      case Some(img) =>
        var (c, p) := Prepared(img.contents, e0.(lookup := img.lookup), enableFts);
        if p.Err? then Err(p.error) else Ok(c)
  }

  /** `check_database_age` is never None after a download whose extraction ran: a snapshot exists. */
  lemma {:induction false} ExtractionLeavesSnapshot(staged: Dir, sevenZip: Dir -> SevenZip, open: Opener, now: real)
    requires sevenZip(staged).Exited? && sevenZip(staged).code == 0
    ensures DatabaseName in Extraction(staged, sevenZip, open, now).0
  {
  }

  /**
   * When 7z exits 0 without writing a snapshot and none existed, validation creates an empty
   * one stamped `now` and reports that it has no tables; for the next day the snapshot counts
   * as fresh, so no new download is tried.
   */
  lemma EmptySnapshotLeftBehind(files: Dir, fetch: string -> Reply, sevenZip: Dir -> SevenZip, open: Opener, now: real, later: real)
    requires DatabaseName !in files && FetchParts(fetch).error.None?
    requires var zip := sevenZip(Staged(files, FetchParts(fetch).saved, fetch, now));
      zip.Exited? && zip.code == 0 && zip.written.None?
    requires now <= later <= now + 86400.0
    ensures var (after, r) := Download(files, fetch, sevenZip, open, now);
      && r == Err(DatabaseError("Database has no tables"))
      && DatabaseName in after && after[DatabaseName] == File([], now)
      && !NeedsUpdate(after, later)
  {
    var got := FetchParts(fetch);
    var staged := Staged(files, got.saved, fetch, now);
    StagedTouchesOnlyNames(files, got.saved, fetch, now);
    SavedAreParts(fetch);
    assert DatabaseName !in staged;
    var extracted := Extraction(staged, sevenZip, open, now).0;
    assert extracted == staged[DatabaseName := File([], now)];
  }

  /** The empty snapshot cannot be prepared: the index fill or the first ALTER finds no components table. */
  lemma EmptySnapshotUnusable(e: Engine, enableFts: bool)
    requires e.refuses(CreateFts).None?
    ensures Prepared(EmptyDatabase.contents, e, enableFts).1 == Err(OperationalError(NoComponents))
  {
    if enableFts {
      EmptyFtsRefused(e);
    } else {
      EmptySchemaRefused(e);
    }
  }

  const NoComponents := "no such table: components"

  lemma NoComponentsKept()
    ensures !Contains(NoComponents, "already exists") && !Swallowed(NoComponents)
  {
    NoComponentsLacks('y');
    NoChar(NoComponents, "already exists", 6);
    AsciiLowerNoop(NoComponents);
    NoComponentsLacks('d');
    NoChar(NoComponents, "duplicate column name", 0);
    NoComponentsLacks('r');
    NoChar(NoComponents, "readonly database", 0);
  }

  lemma NoComponentsLacks(x: char)
    requires x in "dry"
    ensures forall i :: 0 <= i < |NoComponents| ==> NoComponents[i] != x && !('A' <= NoComponents[i] <= 'Z')
  {
    assert NoComponents == "no such table: " + "components";
  }

  lemma EmptyFtsRefused(e: Engine)
    requires e.refuses(CreateFts).None?
    ensures FtsInitialised(Conn(EmptyDatabase.contents, None), e).1 == Err(OperationalError(NoComponents))
  {
    var c := EmptyDatabase.contents;
    var a1 := After(Attempt(Conn(c, None), None), CreateFts, e);
    assert a1.failure.None? && ComponentsTable !in a1.conn.data.tables;
    var a2 := After(a1, FillFts, e);
    assert a2.failure == Some(NoComponents);
    NoComponentsKept();
  }

  lemma EmptySchemaRefused(e: Engine)
    ensures SchemaOptimised(Conn(EmptyDatabase.contents, None), e).1 == Err(OperationalError(NoComponents))
  {
    var conn := Conn(EmptyDatabase.contents, None);
    assert ComponentsTable !in conn.data.tables && CategoryName !in conn.data.columns;
    assert Refusal(AddCategoryName, conn.data, e) == Some(NoComponents);
    var a1 := After(Attempt(conn, None), AddCategoryName, e);
    assert a1.failure == Some(NoComponents) && a1.conn == conn;
    RefusedStays(a1, e);
    assert Migrate(conn, e) == a1;
    NoComponentsKept();
    MigrationRaises(conn, e, NoComponents);
  }

  /** A migration that raises an error it does not swallow makes the schema step raise it. */
  lemma MigrationRaises(conn: Conn, e: Engine, msg: string)
    requires CategoryName !in conn.data.columns && Migrate(conn, e).failure == Some(msg) && !Swallowed(msg)
    ensures SchemaOptimised(conn, e).1 == Err(OperationalError(msg))
  {
  }

  /** Once a statement of the migration raises, the rest are skipped. */
  lemma RefusedStays(a1: Attempt, e: Engine)
    requires a1.failure.Some?
    ensures After(After(a1, AddSubcategoryName, e), AddManufacturerName, e) == a1
    ensures After(IndexColumns(FillColumns(a1, e), e), Commit, e) == a1
  {
  }

  /** A text lacking one of the needle's characters does not contain the needle. */
  lemma {:induction false} NoChar(hay: string, needle: string, k: nat)
    requires k < |needle| && forall i :: 0 <= i < |hay| ==> hay[i] != needle[k]
    ensures !Contains(hay, needle)
  {
    if k < |hay| && |needle| <= |hay| {
      assert hay[..|needle|][k] != needle[k];
    }
    if hay != [] {
      NoChar(hay[1..], needle, k);
    }
  }

  /**
   * Before the next day, `get_connection` after such a download fails on the empty snapshot
   * instead of downloading again.
   */
  lemma EmptySnapshotBlocksConnection(files: Dir, fetch: string -> Reply, sevenZip: Dir -> SevenZip, open: Opener,
                                      e0: Engine, now: real, later: real, enableFts: bool)
    requires DatabaseName !in files && FetchParts(fetch).error.None?
    requires var zip := sevenZip(Staged(files, FetchParts(fetch).saved, fetch, now));
      zip.Exited? && zip.code == 0 && zip.written.None?
    requires now <= later <= now + 86400.0
    requires e0.refuses(CreateFts).None?
    ensures var after := Download(files, fetch, sevenZip, open, now).0;
      Connection(after, fetch, sevenZip, open, e0, later, enableFts) == Err(OperationalError(NoComponents))
  {
    EmptySnapshotLeftBehind(files, fetch, sevenZip, open, now, later);
    EmptySnapshotUnusable(e0.(lookup := map[]), enableFts);
  }

  class DatabaseManager {
    var files: Dir
    var requested: seq<string>
    const fetch: string -> Reply
    const sevenZip: Dir -> SevenZip
    const open: Opener
    const refuses: Statement -> Option<string>
    const loads: Loads

    constructor (files: Dir, fetch: string -> Reply, sevenZip: Dir -> SevenZip, open: Opener,
                 refuses: Statement -> Option<string>, loads: Loads)
      ensures this.files == files && requested == []
      ensures this.fetch == fetch && this.sevenZip == sevenZip && this.open == open
      ensures this.refuses == refuses && this.loads == loads
    {
      this.files := files;
      requested := [];
      this.fetch := fetch;
      this.sevenZip := sevenZip;
      this.open := open;
      this.refuses := refuses;
      this.loads := loads;
    }

    /** `requests.get` of a part, logged. */
    method Get(name: string) returns (reply: Reply)
      modifies this`requested
      ensures reply == fetch(name) && requested == old(requested) + [name]
    {
      requested := requested + [name];
      reply := fetch(name);
    }

    /** The numbered-part loop itself: it stops at part `stopAt`, or runs past part 99 (`stopAt == 100`). */
    method ScanNumberedParts(now: real) returns (partFiles: seq<string>, end: LoopEnd, stopAt: nat)
      modifies this
      ensures 1 <= stopAt <= 100 && partFiles == PartNames(1, stopAt)
      ensures AllAccepted(fetch, 1, stopAt)
      ensures stopAt == 100 ==> end == Exhausted
      ensures stopAt < 100 ==> !Accepted(fetch(PartName(stopAt))) && end == Stop(fetch(PartName(stopAt)), PartName(stopAt))
      ensures files == Staged(old(files), partFiles, fetch, now)
      ensures requested == old(requested) + partFiles + (if stopAt == 100 then [] else [PartName(stopAt)])
    {
      partFiles, end := [], Exhausted;
      var start, log0, get := files, requested, fetch;
      var dir, log := start, log0;
      stopAt := 1;
      while stopAt <= 99
        invariant 1 <= stopAt <= 100 && |partFiles| == stopAt - 1
        invariant partFiles == PartNames(1, stopAt)
        invariant AllAccepted(get, 1, stopAt)
        invariant dir == Staged(start, partFiles, get, now)
        invariant log == log0 + partFiles
        invariant end.Exhausted?
      {
        var name := PartName(stopAt);
        var response := get(name);
        if !Accepted(response) {
          end := Stop(response, name);
          log := log + [name];
          break;
        }
        SnocAssoc(log0, partFiles, name);
        log := log + [name];
        dir := dir[name := File(response.content, now)];
        ScanStep(get, start, partFiles, stopAt, now);
        partFiles := partFiles + [name];
        stopAt := stopAt + 1;
      }
      files, requested := dir, log;
    }

    /** The numbered-part loop of `download_database`. */
    method FetchNumberedParts(now: real) returns (partFiles: seq<string>, end: LoopEnd)
      modifies this
      ensures (partFiles, end) == NumberedParts(fetch, 1)
      ensures !end.Exhausted? ==> |partFiles| < 99
      ensures files == Staged(old(files), partFiles, fetch, now)
      ensures requested == old(requested) + partFiles
                + (if end.Exhausted? then [] else [PartName(|partFiles| + 1)])
    {
      var stopAt;
      partFiles, end, stopAt := ScanNumberedParts(now);
      NumberedPartsEnd(fetch, stopAt, end);
    }

    /** The download half of `download_database`: the numbered parts, then cache.zip. */
    method FetchAllParts(now: real) returns (partFiles: seq<string>, failure: Option<DbError>)
      modifies this
      ensures Fetched(partFiles, failure) == FetchParts(fetch)
      ensures files == Staged(old(files), partFiles, fetch, now)
      ensures requested == old(requested) + Requested(fetch)
    {
      ghost var start, log0 := files, requested;
      var end;
      partFiles, end := FetchNumberedParts(now);
      ghost var asked := partFiles + (if end.Exhausted? then [] else [PartName(|partFiles| + 1)]);
      failure := if end.Failed? then Some(end.error) else None;
      if failure.None? {
        var response := Get(FinalPart);
        SnocAssoc(log0, asked, FinalPart);
        if response.NetworkFailure? {
          failure := Some(RequestError(FinalPart));
        } else if ErrorStatus(response.status) {
          failure := Some(HttpError(FinalPart, response.status));
        } else {
          StagedSnoc(start, partFiles, FinalPart, fetch, now);
          files := files[FinalPart := File(response.content, now)];
          partFiles := partFiles + [FinalPart];
        }
      }
    }

    /** Run 7z on the staged parts and validate what it wrote; validating a missing snapshot creates an empty one. */
    method Extract(now: real) returns (r: Result<(), DbError>)
      modifies this`files
      ensures (files, r) == Extraction(old(files), sevenZip, open, now)
    {
      match sevenZip(files)
      case NotInstalled =>
        r := Err(BadZipFile(SevenZipMissing));
      case Exited(code, stderr, stdout, written) =>
        if written.Some? {
          files := files[DatabaseName := written.value];
        }
        if code != 0 {
          r := Err(BadZipFile(ExtractError(stderr, stdout)));
        } else {
          if DatabaseName !in files {
            files := files[DatabaseName := File([], now)];
          }
          r := Validate(files[DatabaseName], open);
        }
    }

    /** The `finally` block: unlink every part written. */
    method RemoveParts(partFiles: seq<string>)
      modifies this`files
      ensures files == Without(old(files), partFiles)
    {
      for i := 0 to |partFiles|
        invariant files == Without(old(files), partFiles[..i])
      {
        files := map n | n in files && n != partFiles[i] :: files[n];
        assert partFiles[..i + 1] == partFiles[..i] + [partFiles[i]];
      }
      assert partFiles[..|partFiles|] == partFiles;
    }

    /** `download_database`. */
    method DownloadDatabase(now: real) returns (r: Result<(), DbError>)
      modifies this
      ensures requested == old(requested) + Requested(fetch)
      ensures (files, r) == Download(old(files), fetch, sevenZip, open, now)
    {
      var partFiles, failure := FetchAllParts(now);
      if failure.Some? {
        r := Err(failure.value);
      } else {
        r := Extract(now);
      }
      RemoveParts(partFiles);
    }

    /** `update_if_needed`: download exactly when the snapshot is missing or stale. */
    method UpdateIfNeeded(now: real) returns (r: Result<bool, DbError>)
      modifies this
      ensures !NeedsUpdate(old(files), now) ==> r == Ok(false) && files == old(files) && requested == old(requested)
      ensures NeedsUpdate(old(files), now) ==>
        && requested == old(requested) + Requested(fetch)
        && files == Download(old(files), fetch, sevenZip, open, now).0
        && r == (var d := Download(old(files), fetch, sevenZip, open, now).1; if d.Ok? then Ok(true) else Err(d.error))
    {
      if !NeedsUpdate(files, now) {
        return Ok(false);
      }
      var d := DownloadDatabase(now);
      r := if d.Ok? then Ok(true) else Err(d.error);
    }

    /**
     * `get_connection`: refresh if needed, open the snapshot, then build the full-text index
     * and the denormalised columns; each step's error propagates.
     */
    method GetConnection(now: real, enableFts: bool) returns (r: Result<Store, DbError>)
      modifies this
      ensures files == Updated(old(files), fetch, sevenZip, open, now)
      ensures requested == old(requested) + (if NeedsUpdate(old(files), now) then Requested(fetch) else [])
      ensures UpdateResult(old(files), fetch, sevenZip, open, now).Err? ==>
        r == Err(UpdateResult(old(files), fetch, sevenZip, open, now).error)
      ensures UpdateResult(old(files), fetch, sevenZip, open, now).Ok? && DatabaseName !in files ==>
        r == Err(FileNotFound(DatabaseName))
      ensures UpdateResult(old(files), fetch, sevenZip, open, now).Ok? && DatabaseName in files
              && Opened(files[DatabaseName].content, open).None? ==>
        r == Err(DatabaseError("file is not a database"))
      ensures UpdateResult(old(files), fetch, sevenZip, open, now).Ok? && DatabaseName in files
              && Opened(files[DatabaseName].content, open).Some? ==>
        var img := Opened(files[DatabaseName].content, open).value;
        var (c, p) := Prepared(img.contents, Engine(img.lookup, refuses, loads), enableFts);
        && (r.Ok? <==> p.Ok?)
        && (p.Err? ==> r == Err(p.error))
        && (r.Ok? ==> fresh(r.value) && r.value.conn == c && r.value.engine == Engine(img.lookup, refuses, loads))
      ensures var want := Connection(old(files), fetch, sevenZip, open, Engine(map[], refuses, loads), now, enableFts);
        (r.Err? ==> want == Err(r.error)) && (r.Ok? ==> want == Ok(r.value.conn))
    {
      var u := UpdateIfNeeded(now);
      if u.Err? {
        return Err(u.error);
      }
      if DatabaseName !in files {
        return Err(FileNotFound(DatabaseName));
      }
      var img := Opened(files[DatabaseName].content, open);
      if img.None? {
        return Err(DatabaseError("file is not a database"));
      }
      var data, e := img.value.contents, Engine(img.value.lookup, refuses, loads);
      var store := new Store(data, e);
      var o := store.Prepare(enableFts);
      if o.Err? {
        return Err(o.error);
      }
      r := Ok(store);
    }
  }
}
