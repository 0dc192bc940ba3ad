/**
 * The MCP tools over the catalogue: paged search with library validation, the
 * details of one part, and the side-by-side comparison of several parts.
 */
module Tools {
  import opened Wrappers
  import opened Text
  import opened Models
  import opened Search
  import opened FileSystem
  import opened Downloader

  // ---------------------------------------------------------------------------
  // Paging arguments

  /** `max(0, offset)`. */
  function ClampOffset(offset: int): (o: int)
    ensures o >= 0
    ensures offset >= 0 ==> o == offset
    ensures offset < 0 ==> o == 0
  {
    if offset < 0 then 0 else offset
  }

  /** `max(1, min(limit, 100))`. */
  function ClampLimit(limit: int): (l: int)
    ensures 1 <= l <= 100
    ensures 1 <= limit <= 100 ==> l == limit
    ensures limit > 100 ==> l == 100
    ensures limit < 1 ==> l == 1
  {
    if limit > 100 then 100 else if limit < 1 then 1 else limit
  }

  /** Clamping twice is clamping once. */
  lemma ClampIdempotent(offset: int, limit: int)
    ensures ClampOffset(ClampOffset(offset)) == ClampOffset(offset)
    ensures ClampLimit(ClampLimit(limit)) == ClampLimit(limit)
  {
  }

  // ---------------------------------------------------------------------------
  // The keyword arguments of the search parameters

  /** The fields of the `QueryParams` dataclass, in declaration order. */
  const QueryParamsFields: seq<string> := [
    "category", "subcategory", "manufacturer", "description_contains", "basic_only", "in_stock_only",
    "min_stock", "max_price", "package", "attributes", "attribute_ranges", "limit"]

  /** The keywords `search_components` passes. */
  const SearchKeywordsAsWritten: seq<string> := [
    "category", "subcategory", "manufacturer", "description_contains", "basic_only", "in_stock_only",
    "max_price", "package", "attributes", "attribute_ranges", "offset", "limit"]

  /** The same keywords without `offset`, which the dataclass does not declare. */
  const SearchKeywords: seq<string> := [
    "category", "subcategory", "manufacturer", "description_contains", "basic_only", "in_stock_only",
    "max_price", "package", "attributes", "attribute_ranges", "limit"]

  /** A dataclass `__init__` raises TypeError on a keyword that names no field. */
  function DataclassInit(fields: seq<string>, keywords: seq<string>): (r: Result<(), PyError>)
    ensures r.Ok? <==> forall k :: k in keywords ==> k in fields
    ensures r.Err? ==> r.error == TypeError
  {
    if forall k :: k in keywords ==> k in fields then Ok(()) else Err(TypeError)
  }

  /** As written, building the parameters raises: `offset` is not a field. */
  lemma OffsetKeywordRejected()
    ensures DataclassInit(QueryParamsFields, SearchKeywordsAsWritten) == Err(TypeError)
  {
    assert SearchKeywordsAsWritten[10] == "offset";
    assert "offset" !in QueryParamsFields;
  }

  /** Without `offset` every keyword names a field. */
  lemma CorrectedKeywordsAccepted()
    ensures DataclassInit(QueryParamsFields, SearchKeywords) == Ok(())
  {
    forall k | k in SearchKeywords ensures k in QueryParamsFields {
      var i :| 0 <= i < |SearchKeywords| && SearchKeywords[i] == k;
      assert SearchKeywords[i] == QueryParamsFields[if i < 6 then i else i + 1];
    }
  }

  // ---------------------------------------------------------------------------
  // search_components

  /** The arguments of `search_components`. */
  datatype ToolArgs = ToolArgs(
    query: Option<string>,
    category: Option<string>,
    subcategory: Option<string>,
    manufacturer: Option<string>,
    basicOnly: bool,
    inStockOnly: bool,
    maxPrice: Option<real>,
    package: Option<string>,
    attributes: Option<seq<(string, SqlValue)>>,
    attributeRanges: Option<seq<(string, RangeSpec)>>,
    offset: int,
    limit: int,
    validateLibraries: bool,
    validationCandidates: int)

  /** The search parameters: the filters as given, `min_stock` at its default, the limit clamped. */
  function ParamsFor(a: ToolArgs): QueryParams {
    QueryParams(a.category, a.subcategory, a.manufacturer, a.query, a.basicOnly, a.inStockOnly, 0,
                a.maxPrice, a.package, a.attributes, a.attributeRanges, ClampLimit(a.limit))
  }

  datatype ValidationStatus = ValidationStatus(totalCandidates: nat, validated: nat, failed: int)

  /** The response; the per-result dictionaries are projections of the components. */
  datatype SearchResponse = SearchResponse(
    results: seq<Component>,
    offset: int,
    limit: int,
    hasMore: bool,
    status: Option<ValidationStatus>)

  /** `s[:k]`: a negative end counts from the back. */
  function SliceTo<T>(s: seq<T>, k: int): (r: seq<T>)
    ensures r <= s
    ensures 0 <= k ==> |r| == if k < |s| then k else |s|
    ensures k < 0 ==> |r| == if |s| + k < 0 then 0 else |s| + k
  {
    if k >= 0 then (if k < |s| then s[..k] else s)
    else if |s| + k < 0 then [] else s[..|s| + k]
  }

  function Min(a: int, b: int): int {
    if a < b then a else b
  }

  /** `f"C{comp.lcsc}"`: the hydrated identifier already starts with "C", so this doubles it. */
  function CandidateIdAsWritten(c: Component): string {
    "C" + c.lcsc
  }

  /** The identifier the downloader expects: the component's own. */
  function CandidateId(c: Component): string {
    c.lcsc
  }

  function IdsOf(cs: seq<Component>, idOf: Component -> string): (ids: seq<string>)
    ensures |ids| == |cs|
    ensures forall i :: 0 <= i < |cs| ==> ids[i] == idOf(cs[i])
  {
    if cs == [] then [] else [idOf(cs[0])] + IdsOf(cs[1..], idOf)
  }

  /** `[comp for comp in results if id(comp) in validated]`. */
  function KeepValidated(cs: seq<Component>, validated: set<string>, idOf: Component -> string): (r: seq<Component>)
    ensures |r| <= |cs|
    ensures forall c :: c in r <==> c in cs && idOf(c) in validated
  {
    if cs == [] then []
    else (if idOf(cs[0]) in validated then [cs[0]] else []) + KeepValidated(cs[1..], validated, idOf)
  }

  /** The filter works result by result: it keeps the order and multiplicity of what it keeps. */
  lemma {:induction false} KeepValidatedConcat(a: seq<Component>, b: seq<Component>, validated: set<string>, idOf: Component -> string)
    ensures KeepValidated(a + b, validated, idOf) == KeepValidated(a, validated, idOf) + KeepValidated(b, validated, idOf)
  {
    if a == [] {
      assert a + b == b;
    } else {
      assert (a + b)[0] == a[0] && (a + b)[1..] == a[1..] + b;
      KeepValidatedConcat(a[1..], b, validated, idOf);
    }
  }

  /** One result is kept exactly when its identifier validated. */
  lemma KeepValidatedOne(c: Component, validated: set<string>, idOf: Component -> string)
    ensures KeepValidated([c], validated, idOf) == if idOf(c) in validated then [c] else []
  {
    assert [c][1..] == [];
  }

  /** When every identifier validated, the results come back unchanged. */
  lemma {:induction false} KeepValidatedAll(cs: seq<Component>, validated: set<string>, idOf: Component -> string)
    requires forall i :: 0 <= i < |cs| ==> idOf(cs[i]) in validated
    ensures KeepValidated(cs, validated, idOf) == cs
  {
    if cs != [] {
      assert forall i :: 0 <= i < |cs[1..]| ==> cs[1..][i] == cs[i + 1];
      KeepValidatedAll(cs[1..], validated, idOf);
    }
  }

  /** The validation window: the first `min(len(results), validation_candidates)` results. */
  function Window(results: seq<Component>, candidates: int): seq<Component> {
    SliceTo(results, Min(|results|, candidates))
  }

  /** The validation step: the candidates' ids, the results whose id validated, and the counts. */
  function Validate(results: seq<Component>, candidates: int, download: string -> Option<ComponentLibrary>, t: Tree,
                    idOf: Component -> string): (seq<Component>, ValidationStatus) {
    var ids := IdsOf(Window(results, candidates), idOf);
    var validated := GetValidatedLibraries(ids, download, t).Keys;
    (KeepValidated(results, validated, idOf), ValidationStatus(|ids|, |validated|, |ids| - |validated|))
  }

  /** Everything `search_components` does after the search; `idOf` names the id it asks the downloader for. */
  function Respond(a: ToolArgs, results: seq<Component>, download: string -> Option<ComponentLibrary>, t: Tree,
                   idOf: Component -> string): SearchResponse {
    var limit := ClampLimit(a.limit);
    if a.validateLibraries && results != [] then
      var (kept, status) := Validate(results, a.validationCandidates, download, t, idOf);
      SearchResponse(kept, ClampOffset(a.offset), limit, |kept| >= limit, Some(status))
    else
      SearchResponse(results, ClampOffset(a.offset), limit, |results| >= limit, None)
  }

  /** `search_components` as written: building the parameters raises before anything is searched. */
  function SearchComponentsAsWritten(a: ToolArgs, columns: set<string>, table: seq<Row>, loads: Loads, floatRepr: real -> string,
                                     download: string -> Option<ComponentLibrary>, t: Tree): Result<SearchResponse, PyError> {
    match DataclassInit(QueryParamsFields, SearchKeywordsAsWritten)
    case Err(e) => Err(e)
    case Ok(_) => Searched(a, SearchResult(ParamsFor(a), columns, table, loads, floatRepr), download, t, CandidateIdAsWritten)
  }

  /** The search's error propagates; its components go through validation and paging. */
  function Searched(a: ToolArgs, found: Result<seq<Component>, PyError>, download: string -> Option<ComponentLibrary>, t: Tree,
                    idOf: Component -> string): Result<SearchResponse, PyError> {
    match found
    case Err(e) => Err(e)
    case Ok(results) => Ok(Respond(a, results, download, t, idOf))
  }

  /** Whatever the arguments, the tool as written fails with TypeError. */
  lemma SearchComponentsAsWrittenFails(a: ToolArgs, columns: set<string>, table: seq<Row>, loads: Loads, floatRepr: real -> string,
                                       download: string -> Option<ComponentLibrary>, t: Tree)
    ensures SearchComponentsAsWritten(a, columns, table, loads, floatRepr, download, t) == Err(TypeError)
  {
    OffsetKeywordRejected();
  }

  /**
   * As written, a component hydrated from the integer key n is validated under "CC" + n,
   * which is not its identifier "C" + n.
   */
  lemma CandidateIdDoublesPrefix(row: Row, loads: Loads, floatRepr: real -> string, n: nat)
    requires "lcsc" in row && row["lcsc"] == SqlInt(n)
    requires FromDbRow(row, loads, floatRepr).Ok?
    ensures var c := FromDbRow(row, loads, floatRepr).value;
      CandidateIdAsWritten(c) == "CC" + NatToString(n) && CandidateIdAsWritten(c) != c.lcsc
  {
    IntegerKeyHydration(row, loads, floatRepr, n);
  }

  lemma {:induction false} DistinctCount(s: seq<string>)
    ensures |set x | x in s| <= |s|
  {
    if s != [] {
      DistinctCount(s[1..]);
      assert (set x | x in s) == (set x | x in s[1..]) + {s[0]};
    }
  }

  /** The echoed paging values and `has_more`, which is computed on the results that are returned. */
  lemma RespondPaging(a: ToolArgs, results: seq<Component>, download: string -> Option<ComponentLibrary>, t: Tree)
    ensures var r := Respond(a, results, download, t, CandidateId);
      && r.offset == ClampOffset(a.offset) && 1 <= r.limit <= 100
      && (r.hasMore <==> |r.results| >= r.limit)
      && |r.results| <= |results|
  {
  }

  /** Validation is on exactly when it was asked for and the search found something; otherwise nothing is filtered. */
  lemma RespondValidation(a: ToolArgs, results: seq<Component>, download: string -> Option<ComponentLibrary>, t: Tree)
    ensures var r := Respond(a, results, download, t, CandidateId);
      && (r.status.Some? <==> a.validateLibraries && results != [])
      && (r.status.None? ==> r.results == results)
      && (r.status.Some? ==> (r.results, r.status.value) == Validate(results, a.validationCandidates, download, t, CandidateId))
  {
  }

  /**
   * A result survives validation exactly when its identifier is that of a candidate in the window
   * whose library downloaded and validated.
   */
  lemma ValidateKeeps(results: seq<Component>, candidates: int, download: string -> Option<ComponentLibrary>, t: Tree, c: Component)
    ensures var ids := IdsOf(Window(results, candidates), CandidateId);
      c in Validate(results, candidates, download, t, CandidateId).0 <==>
        c in results && c.lcsc in ids && download(c.lcsc).Some? && download(c.lcsc).value.IsValid(t)
  {
    var ids := IdsOf(Window(results, candidates), CandidateId);
    var m := GetValidatedLibraries(ids, download, t);
    if c in results && c.lcsc in ids && download(c.lcsc).Some? && download(c.lcsc).value.IsValid(t) {
      assert c.lcsc in m;
    }
  }

  /** The window holds at most `validation_candidates` results, and all of them when it is larger. */
  lemma WindowSize(results: seq<Component>, candidates: int)
    ensures |Window(results, candidates)| <= |results|
    ensures 0 <= candidates ==> |Window(results, candidates)| == Min(|results|, candidates)
  {
  }

  /** The counts add up, and `failed` is never negative. */
  lemma ValidateCounts(results: seq<Component>, candidates: int, download: string -> Option<ComponentLibrary>, t: Tree)
    ensures var status := Validate(results, candidates, download, t, CandidateId).1;
      && status.totalCandidates == |Window(results, candidates)|
      && status.validated <= status.totalCandidates
      && status.failed == status.totalCandidates - status.validated
  {
    var ids := IdsOf(Window(results, candidates), CandidateId);
    var keys := GetValidatedLibraries(ids, download, t).Keys;
    var distinct := set x | x in ids;
    assert keys <= distinct;
    SubsetSize(keys, distinct);
    DistinctCount(ids);
  }

  lemma SubsetSize(a: set<string>, b: set<string>)
    requires a <= b
    ensures |a| <= |b|
  {
    assert b == a + (b - a);
  }

  /** The search returns at most `limit` results, so `has_more` holds exactly when the page is full. */
  lemma ResultsWithinLimit(a: ToolArgs, table: seq<Row>, loads: Loads, floatRepr: real -> string,
                           download: string -> Option<ComponentLibrary>, t: Tree)
    ensures var r := Respond(a, HydrateAll(Selected(ParamsFor(a), table, loads), loads, floatRepr), download, t, CandidateId);
      |r.results| <= r.limit && (r.hasMore <==> |r.results| == r.limit)
  {
    var p := ParamsFor(a);
    var rows := Sorting.SortBy(Filter(p, table, loads), RowOrder(loads));
    assert |Selected(p, table, loads)| <= p.limit by {
      assert Selected(p, table, loads) == Take(rows, p.limit);
    }
  }

  // ---------------------------------------------------------------------------
  // compare_components

  const MaxCompared := 10

  /** The failures `compare_components` reports. */
  datatype CompareError =
    | NoIds
    | TooMany
    | LookupFailed(lcscId: string, error: PyError)
    | NoneFound(ids: seq<string>)

  /** `", ".join(ids)`. */
  function JoinComma(ids: seq<string>): string {
    if ids == [] then "" else if |ids| == 1 then ids[0] else ids[0] + ", " + JoinComma(ids[1..])
  }

  /** The error text; `errorText` stands for `str(e)` of the exception a lookup raised. */
  function ErrorMessage(e: CompareError, errorText: PyError -> string): string {
    match e
    case NoIds => "No LCSC IDs provided for comparison"
    case TooMany => "Can only compare up to 10 components at a time"
    case LookupFailed(id, err) => "Error looking up " + id + ": " + errorText(err)
    case NoneFound(ids) => "No components found for: " + JoinComma(ids)
  }

  /** One cell of the attribute pivot. */
  datatype PivotEntry = PivotEntry(lcscId: string, value: Attribute, unit: Json)

  /**
   * The cell for one attribute of one component: a dictionary gives its "value" (itself when absent)
   * and its "unit" ("" when absent); anything else, an AttributeValue object included, is kept with unit "".
   */
  function EntryFor(c: Component, name: string): (e: PivotEntry)
    requires name in c.attributes
    ensures e.lcscId == c.lcsc
    ensures !c.attributes[name].Plain? || !c.attributes[name].raw.JObj? ==> e.value == c.attributes[name] && e.unit == JStr("")
  {
    match c.attributes[name]
    case Plain(JObj(fields)) =>
      PivotEntry(c.lcsc,
                 Plain(if "value" in fields then fields["value"] else JObj(fields)),
                 if "unit" in fields then fields["unit"] else JStr(""))
    case other => PivotEntry(c.lcsc, other, JStr(""))
  }

  /** The pivot column of one attribute: one cell per component that has it, in component order. */
  function Column(cs: seq<Component>, name: string): (col: seq<PivotEntry>)
    ensures |col| <= |cs|
    ensures forall e :: e in col ==> exists c :: c in cs && name in c.attributes && e == EntryFor(c, name)
  {
    if cs == [] then []
    else
      var last := cs[|cs| - 1];
      Column(cs[..|cs| - 1], name) + (if name in last.attributes then [EntryFor(last, name)] else [])
  }

  predicate HasAttribute(cs: seq<Component>, name: string) {
    exists c :: c in cs && name in c.attributes
  }

  /** A column is empty exactly when no component has the attribute. */
  lemma {:induction false} ColumnEmpty(cs: seq<Component>, name: string)
    ensures Column(cs, name) == [] <==> !HasAttribute(cs, name)
  {
    if cs != [] {
      var init := cs[..|cs| - 1];
      ColumnEmpty(init, name);
      if HasAttribute(cs, name) && name !in cs[|cs| - 1].attributes {
        var c :| c in cs && name in c.attributes;
        assert c in init;
      }
    }
  }

  /** Every attribute name of some component, with its column. */
  function Pivot(cs: seq<Component>): map<string, seq<PivotEntry>> {
    map name | name in (set c, n | c in cs && n in c.attributes :: n) :: Column(cs, name)
  }

  datatype Comparison = Comparison(
    count: nat,
    notFound: seq<string>,
    components: seq<Component>,
    attributes: map<string, seq<PivotEntry>>)

  type Lookup = string -> Result<Option<Component>, PyError>

  /** The lookup loop: found components and missing ids in request order, or the first lookup that raised. */
  function Gather(lookup: Lookup, ids: seq<string>): Result<(seq<Component>, seq<string>), CompareError> {
    if ids == [] then Ok(([], []))
    else
      var last := ids[|ids| - 1];
      match Gather(lookup, ids[..|ids| - 1])
      case Err(e) => Err(e)
      case Ok((cs, missing)) =>
        match lookup(last)
        case Err(e) => Err(LookupFailed(last, e))
        case Ok(None) => Ok((cs, missing + [last]))
        case Ok(Some(c)) => Ok((cs + [c], missing))
  }

  /** What `compare_components` returns for one to ten ids. */
  function Compare(lookup: Lookup, ids: seq<string>): Result<Comparison, CompareError> {
    match Gather(lookup, ids)
    case Err(e) => Err(e)
    case Ok((cs, missing)) =>
      if cs == [] then Err(NoneFound(ids)) else Ok(Comparison(|cs|, missing, cs, Pivot(cs)))
  }

  /**
   * The lookups split the requested ids: each id is either found (its component is listed) or
   * missing (the id is listed), in request order, and the two lists together are as long as the
   * request. The loop fails exactly when some lookup raised.
   */
  lemma {:induction false} GatherPartition(lookup: Lookup, ids: seq<string>)
    ensures Gather(lookup, ids).Err? <==> exists id :: id in ids && lookup(id).Err?
    ensures Gather(lookup, ids).Ok? ==>
      var (cs, missing) := Gather(lookup, ids).value;
      && |cs| + |missing| == |ids|
      && (forall id :: id in missing <==> id in ids && lookup(id) == Ok(None))
      && (forall c :: c in cs <==> exists id :: id in ids && lookup(id) == Ok(Some(c)))
  {
    if ids != [] {
      var init := ids[..|ids| - 1];
      var last := ids[|ids| - 1];
      GatherPartition(lookup, init);
      assert forall id :: id in ids <==> id in init || id == last;
    }
  }

  /** The first failing lookup is the one reported. */
  lemma {:induction false} GatherFirstFailure(lookup: Lookup, ids: seq<string>, i: int)
    requires 0 <= i < |ids| && lookup(ids[i]).Err?
    requires forall j :: 0 <= j < i ==> lookup(ids[j]).Ok?
    ensures Gather(lookup, ids) == Err(LookupFailed(ids[i], lookup(ids[i]).error))
  {
    var init := ids[..|ids| - 1];
    if i < |ids| - 1 {
      GatherFirstFailure(lookup, init, i);
    } else {
      GatherPartition(lookup, init);
      assert forall id :: id in init ==> exists j :: 0 <= j < i && ids[j] == id;
    }
  }

  /**
   * A comparison lists at least one component and counts them; its pivot has a column for exactly
   * the attribute names some component has.
   */
  lemma ComparePivot(lookup: Lookup, ids: seq<string>, name: string)
    requires Compare(lookup, ids).Ok?
    ensures var cmp := Compare(lookup, ids).value;
      && cmp.count == |cmp.components| >= 1
      && (name in cmp.attributes <==> HasAttribute(cmp.components, name))
      && (name in cmp.attributes ==> cmp.attributes[name] == Column(cmp.components, name) != [])
  {
    var cmp := Compare(lookup, ids).value;
    ColumnEmpty(cmp.components, name);
  }

  // ---------------------------------------------------------------------------
  // The tool object

  /** The tools over one searcher; `download` and `tree` stand for the downloader's parallel runs and the files they leave. */
  class JlcTools {
    const searcher: ComponentSearch
    const download: string -> Option<ComponentLibrary>
    const tree: Tree

    constructor(searcher: ComponentSearch, download: string -> Option<ComponentLibrary>, tree: Tree)
      ensures this.searcher == searcher && this.download == download && this.tree == tree
    {
      this.searcher := searcher;
      this.download := download;
      this.tree := tree;
    }

    /** `search_components` without the `offset` keyword: search, then keep the validated results; a search error propagates. */
    method SearchComponents(a: ToolArgs) returns (r: Result<SearchResponse, PyError>)
      ensures r.Err? <==> SearchResult(ParamsFor(a), searcher.columns, searcher.table, searcher.loads, searcher.floatRepr).Err?
      ensures r.Err? ==> r.error == SearchResult(ParamsFor(a), searcher.columns, searcher.table, searcher.loads, searcher.floatRepr).error
      ensures r.Ok? ==> r.value == Respond(a, SearchResult(ParamsFor(a), searcher.columns, searcher.table, searcher.loads, searcher.floatRepr).value,
                                           download, tree, CandidateId)
    {
      var params := ParamsFor(a);
      var found := searcher.Search(params);
      if found.Err? {
        return Err(found.error);
      }
      var results := found.value;
      var status: Option<ValidationStatus> := None;
      if a.validateLibraries && results != [] {
        var (kept, counts) := Validate(results, a.validationCandidates, download, tree, CandidateId);
        status := Some(counts);
        results := kept;
      }
      r := Ok(SearchResponse(results, ClampOffset(a.offset), params.limit, |results| >= params.limit, status));
    }

    /** `get_component_details` over the corrected lookup: the part, or `None` when no row has the identifier. */
    method GetComponentDetails(lcscId: string) returns (r: Result<Option<Component>, PyError>)
      ensures r == LcscLookupEither(searcher.columns, searcher.table, searcher.loads, searcher.floatRepr, lcscId)
      ensures r == Ok(None) <==> "lcsc" in searcher.columns && forall i :: 0 <= i < |searcher.table| ==> !KeyMatchesEither(searcher.table[i], lcscId)
    {
      r := searcher.SearchByLcscEither(lcscId);
    }

    /** `compare_components` over the corrected lookup: the size checks, the lookup loop, then the attribute pivot. */
    method CompareComponents(ids: seq<string>) returns (r: Result<Comparison, CompareError>)
      ensures ids == [] ==> r == Err(NoIds)
      ensures |ids| > MaxCompared ==> r == Err(TooMany)
      ensures 1 <= |ids| <= MaxCompared ==>
        r == Compare(id => LcscLookupEither(searcher.columns, searcher.table, searcher.loads, searcher.floatRepr, id), ids)
    {
      if ids == [] {
        return Err(NoIds);
      }
      if |ids| > MaxCompared {
        return Err(TooMany);
      }
      ghost var lookup: Lookup := id => LcscLookupEither(searcher.columns, searcher.table, searcher.loads, searcher.floatRepr, id);
      var components: seq<Component> := [];
      var notFound: seq<string> := [];
      for i := 0 to |ids|
        invariant Gather(lookup, ids[..i]) == Ok((components, notFound))
      {
        assert ids[..i + 1][..i] == ids[..i];
        var found := searcher.SearchByLcscEither(ids[i]);
        if found.Err? {
          GatherStopsAt(lookup, ids, i + 1);
          return Err(LookupFailed(ids[i], found.error));
        }
        if found.value.Some? {
          components := components + [found.value.value];
        } else {
          notFound := notFound + [ids[i]];
        }
      }
      assert ids[..|ids|] == ids;
      if components == [] {
        return Err(NoneFound(ids));
      }
      var attributes := BuildPivot(components);
      return Ok(Comparison(|components|, notFound, components, attributes));
    }
  }

  /** Once a prefix of the ids fails, so does the whole loop, with the same error. */
  lemma {:induction false} GatherStopsAt(lookup: Lookup, ids: seq<string>, k: nat)
    requires k <= |ids| && Gather(lookup, ids[..k]).Err?
    ensures Gather(lookup, ids) == Gather(lookup, ids[..k])
    decreases |ids| - k
  {
    if k < |ids| {
      assert ids[..k + 1][..k] == ids[..k];
      GatherStopsAt(lookup, ids, k + 1);
    } else {
      assert ids[..k] == ids;
    }
  }

  /** The inner pivot loop for one component: a cell appended to the column of each of its attributes. */
  method AddCells(pivot: map<string, seq<PivotEntry>>, c: Component) returns (r: map<string, seq<PivotEntry>>)
    ensures forall n :: n in r <==> n in pivot || n in c.attributes
    ensures forall n :: n in r ==>
      r[n] == (if n in pivot then pivot[n] else []) + (if n in c.attributes then [EntryFor(c, n)] else [])
  {
    r := pivot;
    var names := c.attributes.Keys;
    while names != {}
      invariant names <= c.attributes.Keys
      invariant forall n :: n in r <==> n in pivot || (n in c.attributes && n !in names)
      invariant forall n :: n in r ==>
        r[n] == (if n in pivot then pivot[n] else []) + (if n in c.attributes && n !in names then [EntryFor(c, n)] else [])
      decreases names
    {
      var name :| name in names;
      var column := if name in r then r[name] else [];
      r := r[name := column + [EntryFor(c, name)]];
      names := names - {name};
    }
  }

  /** One more component extends each column it has an attribute of, and opens the columns that were empty. */
  lemma ColumnStep(cs: seq<Component>, i: nat, n: string)
    requires i < |cs|
    ensures Column(cs[..i + 1], n) == Column(cs[..i], n) + (if n in cs[i].attributes then [EntryFor(cs[i], n)] else [])
    ensures HasAttribute(cs[..i + 1], n) <==> HasAttribute(cs[..i], n) || n in cs[i].attributes
  {
    assert cs[..i + 1][..i] == cs[..i];
    assert forall x :: x in cs[..i + 1] <==> x in cs[..i] || x == cs[i];
  }

  /** The pivot loop: for each component in order, append a cell to the column of each of its attributes. */
  method BuildPivot(cs: seq<Component>) returns (pivot: map<string, seq<PivotEntry>>)
    ensures pivot == Pivot(cs)
  {
    pivot := map[];
    for i := 0 to |cs|
      invariant forall n :: n in pivot <==> HasAttribute(cs[..i], n)
      invariant forall n :: n in pivot ==> pivot[n] == Column(cs[..i], n)
    {
      ghost var before := pivot;
      pivot := AddCells(pivot, cs[i]);
      forall n ensures (n in pivot <==> HasAttribute(cs[..i + 1], n)) && (n in pivot ==> pivot[n] == Column(cs[..i + 1], n)) {
        ColumnStep(cs, i, n);
        if n !in before {
          ColumnEmpty(cs[..i], n);
        }
      }
    }
    assert cs[..|cs|] == cs;
    forall n ensures n in pivot <==> n in Pivot(cs) {
      if HasAttribute(cs, n) {
        var c :| c in cs && n in c.attributes;
        assert n in (set c, n | c in cs && n in c.attributes :: n);
      }
    }
  }
}
