# jlc_has_it in Dafny

This project models the core of `jlc_has_it`, a tool that searches the JLCPCB parts catalogue (the
jlcparts SQLite snapshot) and brings the chosen parts into a KiCad project. The model covers:

- the unit normaliser (`unit_utils.dfy`): value/unit parsing, the six multiplier tables, the
  category lookup and the tolerant three-way comparison;
- record hydration (`models.dfy`): a stored row becomes a `Component` with its `"C"`-prefixed key,
  its price tiers in stored order and its attributes as structured values or raw scalars;
- the query engine (`search.dfy`): the builder that turns `QueryParams` into SQL text plus bound
  arguments, and a reference semantics of that statement (filter, order, limit, hydrate) over an
  in-memory table;
- the snapshot cache manager (`database.dfy`): the freshness decision, the numbered-part download
  loop with its cleanup, validation, the idempotent schema migration with its error-tolerance rule
  and the idempotent full-text index build, over an abstract clock, file store, HTTP replies and
  database engine;
- the KiCad library table (`project.dfy`): keyed add/replace/remove, the S-expression writer, the
  regex reader, their round trip, and the URI a library path gets in the table;
- the Ultralibrarian helpers (`renamer.dfy`, `browser.dfy`, `detector.dfy`): MPN sanitising and the
  rename decision, UUID validation and URL building with percent-encoding, and the discovery and
  validation of unpacked `ul_*` download folders;
- the easyeda2kicad library downloader (`downloader.dfy`): error messages, the ordered file
  validation chain, the validated-library selection and the cache sweep;
- the MCP tool layer (`tools.dfy`): paging clamps, the library-validation window, `has_more`,
  component details and the side-by-side comparison with its attribute pivot.

Support modules: `wrappers.dfy` (Option, Result), `text.dfy` (Python's `strip`, `lower`, decimal
rendering), `sorting.dfy` (a stable insertion sort with its sortedness and permutation lemmas) and
`fs.dfy` (a file-system snapshot: nodes with inode, kind, size, mtime and readability, and
directory listings).

Integers are unbounded and floats are `real`. Everything the program gets from outside — the
clock, HTTP replies, the 7z and easyeda2kicad exit codes, `json.loads`, the rendering of a float
key, the browser's answer, directory listings — is a parameter of the model.

## Model

| member | source | states |
|---|---|---|
| UnitUtils.TableKeysEnd | jlc_has_it/core/unit_utils.py:33-89 | every key of every unit table is non-empty and its last letter alone names its table |
| UnitUtils.TablesDisjoint | jlc_has_it/core/unit_utils.py:33-99 | the six unit tables share no key, so the first-match loop never depends on table order |
| UnitUtils.FindCategory | jlc_has_it/core/unit_utils.py:165-169 | the first-match loop returns a listed category whose table has the key, or None when no listed table has it |
| UnitUtils.AllCategoriesListed | jlc_has_it/core/unit_utils.py:92-99 | every category is in UNIT_CATEGORIES |
| UnitUtils.GetUnitCategory | jlc_has_it/core/unit_utils.py:154-169 | the result is a category whose table holds the lowered, space-free unit key, or None when no table holds it |
| UnitUtils.CategoryUnique | jlc_has_it/core/unit_utils.py:154-169 | a key in table c yields exactly category c |
| UnitUtils.NormalizeValue | jlc_has_it/core/unit_utils.py:128-151 | an empty unit returns the value unchanged; otherwise a value comes back exactly when the unit has a category |
| UnitUtils.NormalizeByAnyTable | jlc_has_it/core/unit_utils.py:142-148 | a known unit scales the value by its table multiplier |
| UnitUtils.NormalizeDefined | jlc_has_it/core/unit_utils.py:139-151 | normalisation is defined iff the unit is empty or some table holds its key |
| UnitUtils.LookupKeyNoSpace | jlc_has_it/core/unit_utils.py:142 | for a unit without spaces the key is just its lower-case form: the replace of the ohm sign never fires after lowering |
| UnitUtils.LowerOhmSpellings | jlc_has_it/core/unit_utils.py:142 | "MOhm" and "mOhm" lower to the same "mohm" |
| UnitUtils.MegaAndMilliOhmShareKey | jlc_has_it/core/unit_utils.py:142 | mega-ohm and milli-ohm look up the same key |
| UnitUtils.MegaOhmMultiplier | jlc_has_it/core/unit_utils.py:43-56 | the resistance table maps "mohm" to 1e6 |
| UnitUtils.MilliOhmScaledAsMegaOhm | jlc_has_it/core/unit_utils.py:142-148 | "mOhm" normalises with the mega multiplier 1e6 |
| UnitUtils.NumRunLength | jlc_has_it/core/unit_utils.py:115 | the greedy `[\d.]+` run: it is all digits and dots and the next character is not one |
| UnitUtils.ParseStrippedSound | jlc_has_it/core/unit_utils.py:115-123 | a successful parse splits the stripped text into sign, decimal run, spaces and unit that satisfy the pattern, and returns the run's value with that unit |
| UnitUtils.ParseStrippedComplete | jlc_has_it/core/unit_utils.py:115-123 | every sign + valid decimal + spaces + unit-letter text parses to that number and unit ("" when the unit is absent) |
| UnitUtils.ParseValueIff | jlc_has_it/core/unit_utils.py:102-125 | parse_value succeeds iff the stripped input is an optional sign, a valid decimal, optional spaces and a unit of letters, mu, slash, plus-minus or percent |
| UnitUtils.ForeignCharRejected | jlc_has_it/core/unit_utils.py:115-118 | any character outside sign, digits, dot, space and the unit class makes the parse fail |
| UnitUtils.OhmSignRejected | jlc_has_it/core/unit_utils.py:115 | a text containing the ohm sign never parses ("100Ω", "10kΩ") |
| UnitUtils.Compare3 | jlc_has_it/core/unit_utils.py:196-202 | -1, 0 or 1 exactly as x is below, equal to or above y |
| UnitUtils.RelativeDiff | jlc_has_it/core/unit_utils.py:216-222 | the relative difference is never negative |
| UnitUtils.RelativeDiffSymmetric | jlc_has_it/core/unit_utils.py:216-222 | the relative difference does not depend on argument order |
| UnitUtils.RelativeDiffZero | jlc_has_it/core/unit_utils.py:216-222 | a value's relative difference with itself is 0 |
| UnitUtils.TolerantCompare | jlc_has_it/core/unit_utils.py:216-229 | 0 iff the relative difference is below the tolerance, otherwise the sign of n1 - n2 |
| UnitUtils.CompareParsed | jlc_has_it/core/unit_utils.py:192-229 | a defined result is -1, 0 or 1 |
| UnitUtils.CompareValues | jlc_has_it/core/unit_utils.py:172-229 | a defined result is -1, 0 or 1, and an unparsable side gives None |
| UnitUtils.CompareParsedDefined | jlc_has_it/core/unit_utils.py:192-213 | the comparison is defined iff both sides are unitless, or both have units of one known category |
| UnitUtils.UnitlessIgnoresTolerance | jlc_has_it/core/unit_utils.py:196-202 | two unitless values compare exactly, whatever the tolerance |
| UnitUtils.SameCategoryCompares | jlc_has_it/core/unit_utils.py:205-229 | same-category units compare their base-unit values with tolerance |
| UnitUtils.CompareParsedAntisymmetric | jlc_has_it/core/unit_utils.py:192-229 | with positive tolerance, swapping the sides negates a defined result and keeps an undefined one undefined |
| UnitUtils.CompareValuesAntisymmetric | jlc_has_it/core/unit_utils.py:172-229 | the same antisymmetry for compare_values on texts |
| UnitUtils.CompareParsedReflexive | jlc_has_it/core/unit_utils.py:216-225 | with positive tolerance, a defined comparison of a value with itself is 0 |
| UnitUtils.CompareValuesReflexive | jlc_has_it/core/unit_utils.py:172-229 | compare_values(a, a) is 0 whenever defined and the tolerance is positive |
| UnitUtils.NonPositiveToleranceNeverEqual | jlc_has_it/core/unit_utils.py:224-229 | with tolerance at most 0, a unit-bearing value compares as 1 against itself |
| Text.Strip | jlc_has_it/core/unit_utils.py:112 | the stripped text neither starts nor ends with whitespace |
| Text.StripIdempotent | jlc_has_it/core/ultralibrarian_renamer.py:51 | stripping twice is stripping once |
| Text.Lower | jlc_has_it/core/unit_utils.py:142 | lower-casing maps each character and keeps the length |
| Text.DigitsValueOfNatToString | jlc_has_it/core/models.py:74 | the decimal rendering of n reads back as n |
| Text.NatToStringInjective | jlc_has_it/core/models.py:74 | distinct numbers render to distinct decimal texts |
| Sorting.SortBy | jlc_has_it/core/search.py:118-121 | sorting keeps the length and the multiset of elements |
| Sorting.SortBySorted | jlc_has_it/core/search.py:118-121 | under a total preorder the sorted sequence is ordered |
| Sorting.SortByElements | jlc_has_it/core/ultralibrarian_detector.py:83 | sorting keeps exactly the same elements |
| FileSystem.Glob | jlc_has_it/core/library_downloader.py:265 | a glob lists exactly the directory entries whose name ends with the pattern's extension |
| FileSystem.Suffix | jlc_has_it/core/ultralibrarian_renamer.py:84 | Path.suffix is empty or a final dot-extension shorter than the name |
| FileSystem.SuffixIs | jlc_has_it/core/ultralibrarian_renamer.py:84 | the suffix equals ".kicad_sym" iff the name ends with it and has a stem |
| FileSystem.RemoveTree | jlc_has_it/core/library_downloader.py:304 | rmtree removes exactly the path and everything under it, leaving other nodes unchanged |
| FileSystem.RemoveSibling | jlc_has_it/core/library_downloader.py:297-305 | removing one directory leaves every sibling as it was |
| Models.Component.Price | jlc_has_it/core/models.py:114-119 | the first tier's price, or 0.0 without tiers |
| Models.Component.GetAttribute | jlc_has_it/core/models.py:121-130 | the stored attribute, or None exactly when the name is absent |
| Models.Component.GetAttributeValue | jlc_has_it/core/models.py:132-146 | None for an absent name, the value of a structured attribute, the raw value otherwise |
| Models.Truncate | jlc_has_it/core/models.py:21 | int() of a float truncates toward zero |
| Models.JsonToInt | jlc_has_it/core/models.py:21 | int() keeps an integer and raises TypeError on None, lists and dicts |
| Models.JsonToFloat | jlc_has_it/core/models.py:22 | float() keeps a float, widens an integer and raises TypeError on None, lists and dicts |
| Models.SqlToInt | jlc_has_it/core/models.py:107-109 | int() of a stored integer is itself; of NULL it raises TypeError |
| Models.LcscText | jlc_has_it/core/models.py:71-76 | an integer key becomes "C" + its digits; a text key is kept as is |
| Models.LcscOfNatKey | jlc_has_it/core/models.py:72-74 | the hydrated key is "C" followed by digits that read back as the stored number |
| Models.LcscInjective | jlc_has_it/core/models.py:72-74 | distinct integer keys hydrate to distinct ids |
| Models.TierFromDict | jlc_has_it/core/models.py:14-22 | a non-dict raises TypeError, a missing qFrom raises KeyError, and a tier is int(qFrom) with float(price) |
| Models.PriceTiers | jlc_has_it/core/models.py:80 | the tiers have the stored count and order, each converted on its own; a failure is some stored tier's failure |
| Models.PriceTiersFailIffSomeTierFails | jlc_has_it/core/models.py:80 | the tier list fails iff some stored tier fails |
| Models.PriceItems | jlc_has_it/core/models.py:79 | a text price is JSON-decoded (a decode failure raises JSONDecodeError); other stored types raise TypeError |
| Models.AttributesData | jlc_has_it/core/models.py:83-89 | a missing, NULL or empty attributes column gives an empty map; a number raises AttributeError |
| Models.AttributeValueFromDict | jlc_has_it/core/models.py:32-37 | a dict gives (data["value"], data.get("unit")) or KeyError; a scalar gives (scalar, None) |
| Models.ConvertAttribute | jlc_has_it/core/models.py:94-98 | an entry is structured iff it is a dict with "value"; otherwise it is kept verbatim |
| Models.ConvertAttributes | jlc_has_it/core/models.py:92-98 | the key set is kept and each entry is converted on its own |
| Models.BuildAttributes | jlc_has_it/core/models.py:92-98 | the loop builds the same map as ConvertAttributes: same keys, each entry converted |
| Models.Column | jlc_has_it/core/models.py:102-109 | reading a column gives its value, or KeyError exactly when it is missing |
| Models.FromDbRow | jlc_has_it/core/models.py:56-112 | a missing lcsc or price column raises KeyError, checked in that order |
| Models.HydratedFields | jlc_has_it/core/models.py:71-112 | a hydrated component has the converted key, the stored tiers, the converted attributes, and mfr, joints, basic and stock converted from their columns |
| Models.IntegerKeyHydration | jlc_has_it/core/models.py:72-74 | an integer key n hydrates to "C" + the decimal digits of n |
| Models.TiersKeepStoredOrder | jlc_has_it/core/models.py:79-80 | the tiers keep the stored count and order, and the price is the first stored tier's, or 0.0 |
| Models.BadTierRejectsRow | jlc_has_it/core/models.py:80 | one bad stored tier makes the whole row fail |
| Models.AttributeValueFromStoredJson | jlc_has_it/core/models.py:132-146 | get_attribute_value of a hydrated component is None, the stored "value" field, or the stored scalar |
| Search.AttributeClauses | jlc_has_it/core/search.py:97-101 | one equality clause per requested attribute, in the caller's order |
| Search.BaseQuery | jlc_has_it/core/search.py:50-94 | the builder's parts and arguments are exactly those of the clauses the fixed parameters ask for |
| Search.FinishQuery | jlc_has_it/core/search.py:118-129 | appending ORDER BY and LIMIT ? and joining with spaces gives the statement text, with the limit as last argument |
| Search.BuildQuery | jlc_has_it/core/search.py:50-129 | the built statement and argument list are QueryText(p) and QueryArgs(p) |
| Search.ClausePlaceholders | jlc_has_it/core/search.py:54-115 | each clause's SQL has as many ? as arguments it appends, two for package, when attribute names contain no ? |
| Search.QueryPlaceholders | jlc_has_it/core/search.py:50-125 | the whole statement has exactly as many ? as bound arguments, provided attribute names contain no ? |
| Search.SqlCompare | jlc_has_it/core/search.py:55 | SQLite comparison: NULL compares to nothing; numbers before text, numbers by value, text by code points |
| Search.SqlEqualMeans | jlc_has_it/core/search.py:55-56 | an SQL equality with a text means the same text; with a number, a number of equal value |
| Search.Numeric | jlc_has_it/core/search.py:168 | column affinity: non-text values are kept, and a text stays text unless it reads as a number |
| Search.CastReal | jlc_has_it/core/search.py:84 | CAST(... AS REAL) gives NULL exactly for a missing or null JSON value, otherwise a real |
| Search.FirstPrice | jlc_has_it/core/search.py:84 | the first tier's price as cast by SQL is NULL or a real |
| Search.Filter | jlc_has_it/core/search.py:54-115 | the rows kept are exactly the table rows satisfying every clause |
| Search.RowLeTotal | jlc_has_it/core/search.py:118-121 | any two rows are ordered one way or the other by basic desc, stock desc, first price asc |
| Search.RowLeTrans | jlc_has_it/core/search.py:118-121 | the row order is transitive |
| Search.RowOrderIsTotalPreorder | jlc_has_it/core/search.py:118-121 | the ORDER BY keys form a total preorder, so sorting by them is well defined up to ties |
| Search.Take | jlc_has_it/core/search.py:124-125 | LIMIT n keeps the first n rows; a negative limit keeps all |
| Search.ClausesExactly | jlc_has_it/core/search.py:54-115 | a clause is in the statement iff its parameter is given: text filters when non-empty, min_stock when positive, max_price whenever set (even 0.0), each attribute and each min or max bound |
| Search.BaseClausesIn | jlc_has_it/core/search.py:54-94 | the fixed clauses present are exactly those of non-empty texts, true flags, positive min_stock and a set max_price |
| Search.RangeClauseMembers | jlc_has_it/core/search.py:104-115 | a range clause is present iff some range asks for that bound |
| Search.LikeIsCaselessContains | jlc_has_it/core/search.py:62-68 | without wildcards in the needle, LIKE '%x%' is an ASCII case-insensitive substring test |
| Search.SelectedRows | jlc_has_it/core/search.py:50-129 | the selected rows are table rows matching every filter, in ORDER BY order, at most limit of them, and all matches when the limit allows |
| Search.SelectedRowSatisfies | jlc_has_it/core/search.py:54-115 | a selected row satisfies every clause a parameter asks for |
| Search.SelectedRowTextFilters | jlc_has_it/core/search.py:54-68 | a selected row has the asked category and subcategory and contains the asked manufacturer and description fragments |
| Search.AtLeastStock | jlc_has_it/core/search.py:77-79 | stock >= ? holds of a number only when it is at least the bound |
| Search.AtMostPrice | jlc_has_it/core/search.py:82-85 | the price clause holds only when a first price exists and is at most the bound |
| Search.SelectedRowStockAndPrice | jlc_has_it/core/search.py:71-85 | a selected row is basic when asked, in stock when asked, has at least min_stock, and has a first price within max_price |
| Search.SelectedRowAttributeFilters | jlc_has_it/core/search.py:97-115 | a selected row's attribute values equal the asked values and lie within the asked bounds |
| Search.HydrateAll | jlc_has_it/core/search.py:132-141 | hydration never yields more components than rows |
| Search.HydrateStep | jlc_has_it/core/search.py:133-139 | each row adds its component when hydration succeeds and nothing when it raises |
| Search.HydratedFromRows | jlc_has_it/core/search.py:132-141 | every returned component is the hydration of some fetched row |
| Search.HydrateAllConcat | jlc_has_it/core/search.py:132-141 | hydrating two runs of rows is hydrating each, in order |
| Search.HydrateOne | jlc_has_it/core/search.py:134-139 | a good row yields its component, a bad row is skipped |
| Search.HydrateAllGoodRows | jlc_has_it/core/search.py:132-141 | when no row fails, the components are the rows' hydrations one for one, in order |
| Search.FirstMatch | jlc_has_it/core/search.py:168-169 | fetchone returns the first row whose key matches, or none when no row does |
| Search.FirstMatchIsFirst | jlc_has_it/core/search.py:168-169 | the first matching row is the one fetched |
| Search.PrefixedTextStaysText | jlc_has_it/core/search.py:168 | an id starting with "C" is compared as text against the integer key column |
| Search.DigitsReadAsInteger | jlc_has_it/core/search.py:168 | a plain digit string is compared as the integer it spells |
| Search.PrefixedIdMissesIntegerKey | jlc_has_it/core/search.py:168 | a "C"-prefixed id never equals an integer key |
| Search.HydratedIdNotFound | jlc_has_it/core/search.py:159-174 | the id a component hydrates to ("C" + key) finds no row with integer keys |
| Search.HydratedIdFound | jlc_has_it/core/search.py:159-174 | with the prefix accepted, the hydrated id finds exactly its own row |
| Search.ClausesColumns | jlc_has_it/core/search.py:53-115 | the WHERE clause names a column exactly when some condition of it does |
| Search.FirstMissing | jlc_has_it/core/search.py:127-129 | no column is reported exactly when every named column exists; a reported one is named and absent |
| Search.SearchRaisesExactly | jlc_has_it/core/search.py:127-141 | the search raises OperationalError iff the statement names an absent column or a matching row's price is not JSON; otherwise it returns the hydrated selection |
| Search.UnresolvedColumnRaises | jlc_has_it/core/search.py:53-129 | any active condition on a column the table lacks makes the search raise, whatever the rows |
| Search.CategoryWithoutColumnRaises | jlc_has_it/core/search.py:54-56 | a category search on a table without a `category` column raises rather than returning no rows |
| Search.ComponentSearch.Search | jlc_has_it/core/search.py:41-141 | a missing column raises "no such column" naming the first one; the result is Ok iff every column exists and no matching row has a malformed price, and then it is the hydration of the selected rows, in order |
| Search.ComponentSearch.Hydrate | jlc_has_it/core/search.py:132-141 | the row loop keeps each row's component in order and skips the rows whose hydration raises |
| Search.ComponentSearch.SearchByCategory | jlc_has_it/core/search.py:143-157 | search_by_category runs search with only category, limit and basic_only set, and raises on a table without `category` when the category is non-empty |
| Search.CategorySearchClauses | jlc_has_it/core/search.py:156 | the category search filters on category if non-empty, on basic if asked, and always on stock > 0 |
| Search.ComponentSearch.SearchByLcsc | jlc_has_it/core/search.py:159-174 | "no such column" on a table without `lcsc`; otherwise None when no key equals the id as given, and else the first matching row hydrated, with its error propagated |
| Search.ComponentSearch.SearchByLcscEither | jlc_has_it/core/search.py:159-174 | the same lookup, but a "C"-prefixed id also matches the integer key it spells |
| Database.NeedsUpdateExactly | jlc_has_it/core/database.py:53-75 | an update is needed iff the snapshot file is absent or older than MAX_AGE_DAYS = 1 day, strictly |
| Database.PartNamesDistinct | jlc_has_it/core/database.py:93 | the two-digit part names are pairwise distinct and never cache.zip or the snapshot's own name |
| Database.NumberedPartsShape | jlc_has_it/core/database.py:91-108 | the loop saves cache.z01, cache.z02, ... in order, each accepted, never beyond cache.z99, and runs out only after all 99 |
| Database.NumberedPartsStop | jlc_has_it/core/database.py:100-104 | a 404, an error status or a network failure on a part stops the loop without saving that part |
| Database.NumberedPartsStep | jlc_has_it/core/database.py:104-108 | an accepted part is saved and the loop goes on with the next number |
| Database.NumberedPartsPrefix | jlc_has_it/core/database.py:91-108 | a run of accepted parts is saved in order before whatever the rest of the loop saves |
| Database.ScanStep | jlc_has_it/core/database.py:104-108 | one more accepted part extends the saved list by its name and writes its content with the current time |
| Database.NumberedPartsEnd | jlc_has_it/core/database.py:91-108 | the loop's outcome is determined by the first part that is not accepted, or by running out after cache.z99 |
| Database.StopsAtFirstMissing | jlc_has_it/core/database.py:100-102 | when part m is the first 404, exactly the parts before it are saved and the loop ends as Missing |
| Database.StagedTouchesOnlyNames | jlc_has_it/core/database.py:105-118 | writing the parts adds or overwrites only the parts' own files |
| Database.Without | jlc_has_it/core/database.py:145-148 | unlinking the part files removes exactly those names and keeps every other file as it was |
| Database.Validate | jlc_has_it/core/database.py:150-165 | validation succeeds iff the snapshot opens as a database (a zero-length file as one without tables) and has at least one table |
| Database.ExtractionLeavesSnapshot | jlc_has_it/core/database.py:141-156 | once 7z exits 0 a snapshot file exists, because validation's `sqlite3.connect` creates a missing one |
| Database.EmptySnapshotLeftBehind | jlc_has_it/core/database.py:128-165 | when 7z exits 0 without writing the snapshot, an empty snapshot stamped with the download time stays, the download raises "Database has no tables", and for a day no update is due |
| Database.EmptySnapshotUnusable | jlc_has_it/core/database.py:204-212 | preparing the empty snapshot raises "no such table: components", from the index fill or from the first ALTER |
| Database.EmptySnapshotBlocksConnection | jlc_has_it/core/database.py:183-214 | within that day get_connection raises "no such table: components" instead of downloading again |
| Database.SavedAreParts | jlc_has_it/core/database.py:88-120 | every saved file is cache.zNN or cache.zip, never the snapshot itself |
| Database.DownloadCleansUp | jlc_has_it/core/database.py:77-148 | after a download, success or failure, no saved part remains, every other file except the snapshot is unchanged, and nothing new but the snapshot appears |
| Database.DownloadKeepsSnapshot | jlc_has_it/core/database.py:142-148 | the cleanup never deletes the snapshot, and a successful download leaves a snapshot that opens with at least one table |
| Database.LookupFirst | jlc_has_it/core/database.py:251-275 | a backfilled value comes from a lookup row whose id equals the foreign key, otherwise it is NULL |
| Database.FtsRows | jlc_has_it/core/database.py:344-355 | the full-text index gets one row per component, in order |
| Database.After | jlc_has_it/core/database.py:243-290 | once a statement has failed, later statements of the block do not run |
| Database.RolledBack | jlc_has_it/core/database.py:294-298 | a rollback with no open transaction changes nothing |
| Database.ColumnsAdded | jlc_has_it/core/database.py:245-247 | the three ALTERs append category_name, subcategory_name and manufacturer_name as NULL columns and autocommit |
| Database.ColumnsFilled | jlc_has_it/core/database.py:251-275 | the three UPDATEs open a transaction and backfill each row from its lookup tables |
| Database.ColumnsIndexed | jlc_has_it/core/database.py:279-288 | the four CREATE INDEX statements add the three name indexes and idx_package |
| Database.DenormalisedOverwrites | jlc_has_it/core/database.py:251-275 | backfilling overwrites whatever the new columns held |
| Database.OptimiseFreshSnapshot | jlc_has_it/core/database.py:216-291 | on a snapshot without the new columns, the migration adds the three columns, backfills every row, adds the four indexes and commits |
| Database.KeepsCategoryName | jlc_has_it/core/database.py:237 | no statement removes the category_name column |
| Database.MigrationKeepsCategoryName | jlc_has_it/core/database.py:245-290 | once category_name exists, the rest of the migration keeps it |
| Database.OptimiseTwiceIsOnce | jlc_has_it/core/database.py:229-239 | after the first ALTER has gone through, a second run changes nothing |
| Database.OptimiseRefused | jlc_has_it/core/database.py:293-303 | when the first ALTER is refused nothing changes, and the error is swallowed iff its message is one of the three tolerated ones |
| Database.ReadOnlySwallowed | jlc_has_it/core/database.py:300-302 | SQLite's read-only message is tolerated |
| Database.DuplicateSwallowed | jlc_has_it/core/database.py:300-302 | a duplicate-column message is tolerated |
| Database.OptimiseReadOnly | jlc_has_it/core/database.py:293-302 | on a read-only snapshot the migration returns quietly and leaves the data as it was |
| Database.OptimiseHalfMigrated | jlc_has_it/core/database.py:243-302 | when a later ALTER fails as a duplicate, category_name stays added but NULL, no index is built, and later runs skip the migration |
| Database.FtsFreshSnapshot | jlc_has_it/core/database.py:316-358 | without components_fts, the index is created and filled with one row per component, then committed |
| Database.FtsTwiceIsOnce | jlc_has_it/core/database.py:318-323 | a second index build finds the table and changes nothing |
| Database.FtsRowFields | jlc_has_it/core/database.py:344-355 | each index row has rowid = lcsc and the description from a JSON extra when it has one, otherwise the column |
| Database.FtsMalformedExtraRaises | jlc_has_it/core/database.py:330-364 | one component whose extra is text but not JSON makes the fill raise "malformed JSON", which is not tolerated; the created table stays, empty |
| Database.Store.Execute | jlc_has_it/core/database.py:243-290 | executing a statement updates the connection as After prescribes |
| Database.Store.DoRollback | jlc_has_it/core/database.py:294-298 | a rollback restores the state saved when the transaction opened |
| Database.Store.OptimizeSchema | jlc_has_it/core/database.py:216-303 | the method leaves the connection and result of SchemaOptimised |
| Database.Store.InitFts | jlc_has_it/core/database.py:305-364 | the method leaves the connection and result of FtsInitialised |
| Database.DatabaseManager.Get | jlc_has_it/core/database.py:98 | one request returns the reply for that name and records the request |
| Database.DatabaseManager.ScanNumberedParts | jlc_has_it/core/database.py:91-108 | the loop requests parts from cache.z01 until the first part that is not accepted, saving exactly the accepted ones |
| Database.DatabaseManager.FetchNumberedParts | jlc_has_it/core/database.py:91-108 | the loop's saved parts and outcome are NumberedParts, with the files and requests that go with them |
| Database.DatabaseManager.FetchAllParts | jlc_has_it/core/database.py:88-120 | the numbered parts, then cache.zip unless the loop raised, saved in request order |
| Database.DatabaseManager.Extract | jlc_has_it/core/database.py:125-165 | a missing 7z or a non-zero exit raises BadZipFile; otherwise the written snapshot, or an empty one stamped now when 7z wrote none, is validated |
| Database.DatabaseManager.RemoveParts | jlc_has_it/core/database.py:145-148 | the finally loop removes exactly the part files |
| Database.DatabaseManager.DownloadDatabase | jlc_has_it/core/database.py:77-148 | the download leaves the files and result of Download, including the empty snapshot a 7z run without output leaves, and makes exactly the requests of Requested |
| Database.DatabaseManager.UpdateIfNeeded | jlc_has_it/core/database.py:167-181 | a fresh snapshot gives False with no request and no file change; otherwise the download runs and True or its error comes back |
| Database.Store.Prepare | jlc_has_it/core/database.py:207-212 | the index build (when asked) and then the schema migration leave the connection and result Prepared gives for the opened contents |
| Database.PreparedSteps | jlc_has_it/core/database.py:207-212 | once the index step succeeds or is skipped, preparing ends as the schema step does |
| Database.DatabaseManager.GetConnection | jlc_has_it/core/database.py:183-214 | the files and requests are those of update_if_needed; its error propagates; no snapshot gives FileNotFoundError; a file that is not a database raises; otherwise the result is Ok iff the index (if asked) and schema steps succeed, with their connection, and their error otherwise |
| Project.FromSexpDictInverse | jlc_has_it/core/kicad/project.py:29-38 | from_sexp_dict rebuilds an entry from its five fields, and an empty dict gives the defaults (type "KiCad", other fields "") |
| Project.ToSexpThen | jlc_has_it/core/kicad/project.py:19-27 | an entry's text followed by more text is the entry form ending in that text |
| Project.IndexOf | jlc_has_it/core/kicad/project.py:78 | the position of the entry with that name, or none when no entry has it |
| Project.Lookup | jlc_has_it/core/kicad/project.py:92 | dict.get: an entry with that name, or None exactly when no entry has it |
| Project.PutSemantics | jlc_has_it/core/kicad/project.py:67 | storing under entry.name replaces an entry of that name in place or appends a new one, keeps names unique, and leaves the other names' entries alone |
| Project.DeleteSemantics | jlc_has_it/core/kicad/project.py:78-79 | deleting a name removes exactly its entry, keeps names unique and shortens the table by one iff it was there |
| Project.FileName | jlc_has_it/core/kicad/project.py:54 | "sym-lib-table" iff the table type is "sym", otherwise "fp-lib-table" |
| Project.BodySnoc | jlc_has_it/core/kicad/project.py:105-106 | the entries' texts follow one another in insertion order |
| Project.EntryMatches | jlc_has_it/core/kicad/project.py:133-137 | the entry pattern matches an entry's own text and captures its five fields, when no field contains a quote |
| Project.FindEntriesSkip | jlc_has_it/core/kicad/project.py:135 | re.finditer skips text without an opening parenthesis |
| Project.FindVersionSkip | jlc_has_it/core/kicad/project.py:141 | re.search for the version skips text without an opening parenthesis |
| Project.BodyReadsBack | jlc_has_it/core/kicad/project.py:103-135 | the entry pattern finds exactly the written entries, in order |
| Project.AddAllFresh | jlc_has_it/core/kicad/project.py:135-138 | adding found entries with distinct non-empty names appends them in order |
| Project.VersionReadsBack | jlc_has_it/core/kicad/project.py:141-143 | the version pattern finds the written version |
| Project.EntriesReadBack | jlc_has_it/core/kicad/project.py:103-135 | the entries read from a written table are the written ones |
| Project.RoundTrip | jlc_has_it/core/kicad/project.py:94-145 | reading back a written table gives the same entries and version, when names are non-empty and unique and no field contains a quote |
| Project.LibraryTable.constructor | jlc_has_it/core/kicad/project.py:44-54 | a new table has the given type and version, its file name, and no entries |
| Project.LibraryTable.AddEntry | jlc_has_it/core/kicad/project.py:56-67 | an empty name raises ValueError and changes nothing; otherwise the entry is stored under its name |
| Project.LibraryTable.RemoveEntry | jlc_has_it/core/kicad/project.py:69-81 | returns True and deletes iff the name is present; otherwise False and no change |
| Project.LibraryTable.GetEntry | jlc_has_it/core/kicad/project.py:83-92 | the stored entry of that name, or None exactly when there is none |
| Project.LibraryTable.ToFileContent | jlc_has_it/core/kicad/project.py:94-111 | the written content is the header line, the version line, each entry's text in insertion order and the closing line |
| Project.FromFile | jlc_has_it/core/kicad/project.py:113-145 | an absent file gives an empty version-7 table; otherwise the matched entries are added in order (a nameless one raises ValueError) and the first version found is kept |
| Project.RelativeTo | jlc_has_it/core/kicad/project.py:235 | relative_to succeeds iff the base is a prefix of the path, and the result rejoins the path |
| Project.LibraryUri | jlc_has_it/core/kicad/project.py:233-244 | the URI never contains a backslash |
| Project.RelativePathKept | jlc_has_it/core/kicad/project.py:240-241 | a relative library path is written as it is |
| Project.InsideProjectRelative | jlc_has_it/core/kicad/project.py:233-236 | an absolute path inside the project becomes the project-relative path |
| Project.OutsideProjectKiprjmod | jlc_has_it/core/kicad/project.py:237-239 | an absolute path outside the project becomes "${KIPRJMOD}/" + its file name |
| Project.AddLibrary | jlc_has_it/core/kicad/project.py:215-299 | the table file is re-read, the entry with type KiCad and the computed URI is stored under its name, and the whole table is written back; errors propagate |
| Project.AddedLibraryReadsBack | jlc_has_it/core/kicad/project.py:215-299 | after a library is added, reading the table back finds the new entry under its name |
| Renamer.Underscored | jlc_has_it/core/ultralibrarian_renamer.py:34-48 | each problematic character becomes exactly one underscore and every other character stays in place |
| Renamer.ReplaceByOne | jlc_has_it/core/ultralibrarian_renamer.py:48 | one str.replace by a single character keeps the length and changes only that character |
| Renamer.ReplaceAllUnderscores | jlc_has_it/core/ultralibrarian_renamer.py:47-48 | replacing each row's character by one underscore, row after row, turns exactly the characters of the rows into underscores and keeps every other position |
| Renamer.ReplaceAllTable | jlc_has_it/core/ultralibrarian_renamer.py:46-48 | the whole replacement loop underscores exactly the problematic characters |
| Renamer.SanitizeMpnForFilename | jlc_has_it/core/ultralibrarian_renamer.py:19-53 | the loop and strip give the underscored, stripped MPN |
| Renamer.SanitizedClean | jlc_has_it/core/ultralibrarian_renamer.py:34-53 | a sanitised MPN contains no slash, backslash, colon, star, question mark, double quote, angle bracket or vertical bar |
| Renamer.SanitizedNoop | jlc_has_it/core/ultralibrarian_renamer.py:46-51 | a clean, already stripped MPN is returned unchanged |
| Renamer.SanitizedIdempotent | jlc_has_it/core/ultralibrarian_renamer.py:46-51 | sanitising twice is sanitising once |
| Renamer.SlashBecomesUnderscore | jlc_has_it/core/ultralibrarian_renamer.py:46-51 | a slash between clean parts becomes exactly one underscore with everything else in place, so "SF-0603/2" gives "SF-0603_2" |
| Renamer.RenameIn | jlc_has_it/core/ultralibrarian_renamer.py:110 | the directory listing keeps its order with the old name replaced by the new one |
| Renamer.RenameSymbolFile | jlc_has_it/core/ultralibrarian_renamer.py:56-115 | the checks run in order: missing raises FileNotFoundError, not a file or wrong suffix raise ValueError, unreadable raises PermissionError, each exactly when the earlier ones pass |
| Renamer.TargetTakenKeepsTree | jlc_has_it/core/ultralibrarian_renamer.py:97-106 | when the target exists nothing moves: the target is returned if it is the same file, otherwise the original path |
| Renamer.FreeTargetMoves | jlc_has_it/core/ultralibrarian_renamer.py:91-112 | a free target beside the file, named sanitize(mpn) + ".kicad_sym", receives the file, and nothing else changes |
| Renamer.MovedNodes | jlc_has_it/core/ultralibrarian_renamer.py:110 | a rename moves the node to the new path and leaves every other path alone |
| Renamer.RenameFailureRaised | jlc_has_it/core/ultralibrarian_renamer.py:109-115 | OSError comes back exactly when all checks pass, the target is free and the rename itself fails |
| Renamer.TargetSuffix | jlc_has_it/core/ultralibrarian_renamer.py:93-94 | the target's suffix is ".kicad_sym" iff the sanitised MPN is not empty |
| Browser.MatchTokensIndexwise | jlc_has_it/core/ultralibrarian_browser.py:30-31 | the anchored match accepts the pattern character by character, followed by nothing or one newline |
| Browser.PatternTokens | jlc_has_it/core/ultralibrarian_browser.py:30 | the pattern is 36 positions with dashes at 8, 13, 18 and 23 |
| Browser.ValidUuidShape | jlc_has_it/core/ultralibrarian_browser.py:19-31 | a UUID is valid iff it is 8-4-4-4-12 hex digits of either case, optionally followed by one newline |
| Browser.Utf8Char | jlc_has_it/core/ultralibrarian_browser.py:64-65 | a character encodes as one to four bytes, one byte exactly for ASCII |
| Browser.QuoteByte | jlc_has_it/core/ultralibrarian_browser.py:64-65 | a byte quotes to unreserved characters and percent escapes only |
| Browser.QuoteIsOneSegment | jlc_has_it/core/ultralibrarian_browser.py:64-68 | quote(..., safe="") never yields /, ?, & or a space, so each name stays one path segment |
| Browser.QuoteSafeIdentity | jlc_has_it/core/ultralibrarian_browser.py:64-65 | a text of unreserved characters quotes to itself |
| Browser.UnquoteQuoteBytes | jlc_has_it/core/ultralibrarian_browser.py:64-65 | percent-decoding undoes the byte quoting |
| Browser.UnquoteQuote | jlc_has_it/core/ultralibrarian_browser.py:64-65 | percent-decoding a quoted text gives back its UTF-8 bytes |
| Browser.PartUrlSegments | jlc_has_it/core/ultralibrarian_browser.py:62-72 | with both names given the URL is base/details/uuid/quoted manufacturer (spaces as dashes)/quoted MPN, plus the export query iff asked, and both segments decode back |
| Browser.OpenPart | jlc_has_it/core/ultralibrarian_browser.py:34-116 | an invalid UUID raises ValueError; otherwise the result is True exactly when the browser opened the part URL |
| Browser.ConstructUrl | jlc_has_it/core/ultralibrarian_browser.py:119-135 | an invalid UUID raises ValueError; otherwise the URL is under base/details/ |
| Browser.ConstructUrlIsFallback | jlc_has_it/core/ultralibrarian_browser.py:73-75 | construct_ultralibrarian_url equals the part URL used when a name is missing |
| Downloader.Template | jlc_has_it/core/library_downloader.py:25-34 | the error type picks one of the five message templates |
| Downloader.MessageNamesPart | jlc_has_it/core/library_downloader.py:23-34 | every user-friendly message starts with its template's lead followed by the part id, so it always names the part |
| Downloader.LeadsDiffer | jlc_has_it/core/library_downloader.py:26-34 | the five templates start differently |
| Downloader.MessagesDistinct | jlc_has_it/core/library_downloader.py:23-34 | errors of different kinds never give the same message |
| Downloader.ValidateFilesWithDetail | jlc_has_it/core/library_downloader.py:238-276 | (True, "") iff all six checks pass; a failure always carries a non-empty reason |
| Downloader.DetailReportsFirstFailure | jlc_has_it/core/library_downloader.py:256-274 | the reason given is check k's message iff checks before k pass and check k fails, in the order symbol missing, symbol empty, footprint directory missing, no .kicad_mod, model directory missing, no .step or .wrl |
| Downloader.ValidateFiles | jlc_has_it/core/library_downloader.py:218-236 | the boolean is exactly the detailed check's verdict |
| Downloader.IsValidIsValidateFiles | jlc_has_it/core/library_downloader.py:46-58 | ComponentLibrary.is_valid is the same conjunction as the validation chain |
| Downloader.DownloadComponent | jlc_has_it/core/library_downloader.py:82-160 | a library comes back, for the asked id, exactly when easyeda2kicad exits 0 and the expected files validate |
| Downloader.GetValidatedLibraries | jlc_has_it/core/library_downloader.py:199-216 | every kept id was requested, was downloaded and is valid |
| Downloader.ValidatedAreDownloads | jlc_has_it/core/library_downloader.py:199-216 | a requested id is kept exactly when its download succeeded, and the kept library is for that id |
| Downloader.ExpiredNames | jlc_has_it/core/library_downloader.py:297-303 | the names selected are exactly the listed directories whose mtime is before the cutoff |
| Downloader.ExpiredAfterRemoval | jlc_has_it/core/library_downloader.py:297-305 | removing one entry does not change which other entries are expired |
| Downloader.SweepCount | jlc_has_it/core/library_downloader.py:295-307 | the returned count is the number of expired directories |
| Downloader.SweepEffect | jlc_has_it/core/library_downloader.py:297-305 | exactly the expired directories disappear; every other entry is unchanged |
| Downloader.LibraryDownloader.CleanupCache | jlc_has_it/core/library_downloader.py:278-307 | a missing cache gives 0 and no change; a cache path that is not a directory fails as iterdir does; otherwise exactly the expired directories are removed and their number returned |
| Detector.GetDownloadsDirectory | jlc_has_it/core/ultralibrarian_detector.py:23-38 | the home's Downloads directory, present exactly when it exists |
| Detector.RecentExports | jlc_has_it/core/ultralibrarian_detector.py:63-80 | the folders kept are exactly the listed directories named ul_... that are at most max_age_seconds old |
| Detector.NewerFirstTotal | jlc_has_it/core/ultralibrarian_detector.py:83 | newest-first by mtime is a total preorder |
| Detector.FoldersSortedAndSelected | jlc_has_it/core/ultralibrarian_detector.py:41-85 | the result is sorted newest first and holds exactly the recent ul_ directories of Downloads |
| Detector.FindUltralibrarianFolders | jlc_has_it/core/ultralibrarian_detector.py:41-85 | the loop and sort return Folders: [] without Downloads, otherwise the recent ul_ folders newest first |
| Detector.First | jlc_has_it/core/ultralibrarian_detector.py:153 | the first glob match, or None exactly when there is none |
| Detector.DropPrefix | jlc_has_it/core/ultralibrarian_detector.py:147 | for a ul_ folder, the MPN is the name after the prefix |
| Detector.ByNameTotal | jlc_has_it/core/ultralibrarian_detector.py:161 | ordering paths by name is a total preorder |
| Detector.ExtractComponentFiles | jlc_has_it/core/ultralibrarian_detector.py:126-188 | None exactly when the folder structure is invalid; otherwise the info is about that folder |
| Detector.ExtractedFiles | jlc_has_it/core/ultralibrarian_detector.py:143-188 | the MPN is the name without ul_, symbol and model are matches or None, the footprints are all .kicad_mod files sorted, and valid holds iff symbol, model and a footprint exist |
| Detector.FindAndValidateLatest | jlc_has_it/core/ultralibrarian_detector.py:191-223 | a listing error propagates; no recent folder gives None; otherwise the newest folder's info, whether or not it is complete |
| Detector.LatestIsNewest | jlc_has_it/core/ultralibrarian_detector.py:202-213 | the folder chosen is at least as new as every recent export, and its info is None only when its structure is invalid |
| Tools.ClampOffset | jlc_has_it/mcp/tools.py:94 | the offset sent to the query is never negative and equals the caller's when that is non-negative |
| Tools.ClampLimit | jlc_has_it/mcp/tools.py:95 | the limit is always between 1 and 100, clamped at either end and unchanged inside |
| Tools.ClampIdempotent | jlc_has_it/mcp/tools.py:94-95 | clamping an already clamped offset or limit changes nothing |
| Tools.DataclassInit | jlc_has_it/mcp/tools.py:83-96 | constructing a dataclass succeeds iff every keyword names a field; otherwise it raises TypeError |
| Tools.OffsetKeywordRejected | jlc_has_it/mcp/tools.py:83-96 | the keywords search_components passes include offset, which QueryParams does not declare, so its construction raises TypeError |
| Tools.SearchComponentsAsWrittenFails | jlc_has_it/mcp/tools.py:83-98 | search_components as written fails with TypeError for every input, before any query runs |
| Tools.CorrectedKeywordsAccepted | jlc_has_it/mcp/tools.py:83-96 | without the offset keyword the QueryParams construction succeeds |
| Tools.CandidateIdDoublesPrefix | jlc_has_it/mcp/tools.py:107 | the candidate id built from a stored part number n is "CC" followed by n's digits, never the part's own id |
| Tools.SliceTo | jlc_has_it/mcp/tools.py:106 | a Python slice prefix: a prefix of the list, of length min(len, k) for k at least 0, counted from the end for negative k |
| Tools.IdsOf | jlc_has_it/mcp/tools.py:107 | one id per candidate, in candidate order |
| Tools.KeepValidated | jlc_has_it/mcp/tools.py:125-127 | a component stays iff its id was validated, and the result is no longer than the input |
| Tools.KeepValidatedConcat | jlc_has_it/mcp/tools.py:125-127 | the filter distributes over concatenation, so it keeps the order and multiplicity of the results it keeps |
| Tools.KeepValidatedOne | jlc_has_it/mcp/tools.py:125-127 | one result is kept iff its id was validated |
| Tools.KeepValidatedAll | jlc_has_it/mcp/tools.py:125-127 | when every id validated, the results come back unchanged |
| Tools.RespondPaging | jlc_has_it/mcp/tools.py:129-147 | the response echoes the clamped offset and a limit in 1..100, has_more iff at least limit results, and never more results than the search returned |
| Tools.RespondValidation | jlc_has_it/mcp/tools.py:100-127 | a validation status is present iff validation was asked for and the search found something; without it the results are untouched |
| Tools.ValidateKeeps | jlc_has_it/mcp/tools.py:104-127 | with the corrected candidate id, a component survives validation iff it is among the top candidates and its library downloaded and validated |
| Tools.WindowSize | jlc_has_it/mcp/tools.py:106 | the top-candidate window holds min(len(results), validation_candidates) components |
| Tools.ValidateCounts | jlc_has_it/mcp/tools.py:114-122 | total_candidates is the window size, validated is at most that, and failed is the difference |
| Tools.ResultsWithinLimit | jlc_has_it/mcp/tools.py:98-145 | the response never holds more results than the limit, so has_more means exactly a full page |
| Tools.EntryFor | jlc_has_it/mcp/tools.py:387-400 | the cell names its part; a plain or non-object attribute is shown as is with unit "" |
| Tools.Column | jlc_has_it/mcp/tools.py:382-401 | each cell of an attribute's column comes from a compared part that has that attribute |
| Tools.ColumnEmpty | jlc_has_it/mcp/tools.py:383-386 | an attribute's column is empty iff no compared part has the attribute |
| Tools.GatherPartition | jlc_has_it/mcp/tools.py:337-351 | the lookup loop fails iff some lookup raises; otherwise every id is either found or listed as not found, and nothing else |
| Tools.GatherFirstFailure | jlc_has_it/mcp/tools.py:340-351 | the error reported names the first id whose lookup raised |
| Tools.GatherStopsAt | jlc_has_it/mcp/tools.py:340-351 | once a prefix of the ids has failed, later ids do not change the outcome |
| Tools.ComparePivot | jlc_has_it/mcp/tools.py:353-403 | a successful comparison has at least one part, and an attribute appears iff some part has it, with a non-empty column of cells |
| Tools.ColumnStep | jlc_has_it/mcp/tools.py:382-401 | adding one part to the comparison appends its cell to each column of an attribute it has |
| Tools.AddCells | jlc_has_it/mcp/tools.py:382-401 | after one part, the pivot's keys are the old keys plus the part's attributes, and each column gains exactly that part's cell |
| Tools.BuildPivot | jlc_has_it/mcp/tools.py:367-401 | the loop builds exactly the attribute pivot |
| Tools.JlcTools.constructor | jlc_has_it/mcp/tools.py:22-29 | the tools object holds the searcher, the downloader and the file tree it is given |
| Tools.JlcTools.SearchComponents | jlc_has_it/mcp/tools.py:31-147 | the search's error propagates; otherwise the response is the corrected search followed by the clamped paging and the library validation |
| Tools.JlcTools.GetComponentDetails | jlc_has_it/mcp/tools.py:149-178 | the details come from the corrected search_by_lcsc, and None exactly when the table has `lcsc` and no row's key matches the id or its digits after the "C" |
| Tools.JlcTools.CompareComponents | jlc_has_it/mcp/tools.py:322-403 | no ids or more than 10 ids fail with their messages; otherwise the result is the loop of corrected lookups followed by the pivot |

## Left out

- Network, subprocesses and the browser: `requests.get` replies, the 7z and easyeda2kicad exit codes and `webbrowser.open` are inputs of the model; time-outs, stderr text and the logged "not found" hint are only the `ToolRun` outcome.
- The SQLite engine: the statement text is built as the program builds it, and its rows come from a reference semantics (filter, stable sort, take). Ties keep table order where SQLite promises none, a negative `LIMIT` means no limit, and `NULL` ordering follows SQLite's "NULL first" on ascending keys.
- `LIKE`: `%` and `_` are wildcards and letters fold ASCII case only, as in SQLite's default; the `case_sensitive_like` pragma is not modelled.
- JSON-path extraction: an attribute name is looked up as one member key of the stored document, read through the `loads` parameter; a name containing `.`, `[` or a quote, which SQLite would read as further path steps or a malformed path, is not modelled.
- `json.loads`: a parameter; in hydration a parse failure is an error value. SQLite's JSON parser is taken to accept exactly the texts `loads` accepts.
- Search.CastReal: `json_extract` of a member that is an object or array gives its JSON text in SQLite; the model reads it as NULL in comparisons (`Search.Scalar`) and as 0.0 under CAST AS REAL, which is what CAST gives for that text.
- Search.ComponentSearch.Search: a WHERE condition that applies `json_extract` to a `price` or `attributes` text that is not JSON raises in SQLite when it is evaluated, but which rows reach it depends on the order in which SQLite evaluates the AND terms, which it does not fix; the model reads such a document as NULL there, so the condition is false. The ORDER BY key, evaluated for every matching row, raises as in SQLite.
- Search.ComponentSearch.Search: column names are matched exactly, where SQLite ignores ASCII case; a missing components table is reported as a missing column, where SQLite says "no such table".
- Database.FtsRowFields: a `$.description` member of `extra` that is an object or array gives its JSON text in SQLite, but reads as NULL here, so the description column is used instead.
- Database.Refusal: a lookup table, or a column of it, that the snapshot lacks makes a backfill fail in SQLite; the model leaves that failure to the engine's `refuses` parameter, and a missing lookup table reads as empty.
- Floating point: magnitudes are `real`, with no rounding; `float()` of text is modelled only for the decimal grammar `parse_value` accepts; `CAST(... AS REAL)` of text outside that grammar gives 0.0, where SQLite would read a leading numeric prefix; the rendering of a float as a dictionary key is a parameter.
- Unicode: `\s` and `str.strip` use Python's whitespace set, including the Unicode spaces; `str.lower` is modelled for ASCII letters and the Kelvin, Ohm, capital Omega and capital Mu signs, and other case mappings are not; `\d` and `float()` accept ASCII digits only, not other Unicode digits.
- Concurrency: `download_components_parallel` runs downloads in a thread pool; only the sequential selection in `get_validated_libraries` is modelled, with the download as a function of the id.
- `ultralibrarian_waiter.py` (wall-clock polling), `ultralibrarian_extractor.py` (file copying) and the Ultralibrarian scraper prototype are not part of this model.
- `add_to_project` and `add_from_ultralibrarian` in `tools.py` are orchestration over file copies and are not part of this model.
- `get_database_info` only reports sizes and dates and is not part of this model.
- The cache-directory choice in `DatabaseManager.__init__` and `LibraryDownloader.__init__` reads the environment and the home directory; the directory is a constructor argument here.
- `ProjectConfig._validate_project`, `find_project_root` and `create_library_directories` only walk and create directories and are not part of this model.
- Printed and logged output (progress messages, the Ultralibrarian guide printed by `open_ultralibrarian_part`) is not modelled.
- Glob order: `FileSystem.Glob` lists matches in one fixed order, while the program's order is unspecified; `Detector.First` therefore promises only some match, and the footprint list is stated as a permutation sorted by name.
- Tools.JlcTools.SearchComponents: models the tool with the two corrections under Findings (no `offset` keyword, one `"C"` in the candidate id); the echoed offset is the clamped one and is not applied to the query, as in the program.
- Tools.JlcTools.GetComponentDetails: uses the corrected lookup of the first Findings row, so a `"C"`-prefixed id finds its part.
- Tools.JlcTools.CompareComponents: uses the same corrected lookup.
- UnitUtils.MilliOhmScaledAsMegaOhm: the case-insensitive lookup gives `"mOhm"` the mega multiplier 1e6; this is what the program does and what its tests expect, so it is stated as a property rather than corrected.

## Findings

| source | as written | input that shows it | evidently intended | confidence | as-written member | corrected member |
|---|---|---|---|---|---|---|
| jlc_has_it/core/search.py:159-174 | the caller's id is bound unchanged against the integer `lcsc` key, while hydration gives every part the id `"C"` plus its digits | a table holding key 1525; `search_by_lcsc("C1525")` returns None, so a part's own id never finds it | a `"C"`-prefixed id also matches the key its digits spell | not executed | Search.HydratedIdNotFound | Search.HydratedIdFound |
| jlc_has_it/mcp/tools.py:83-96 | `QueryParams(..., offset=...)` is called, but `QueryParams` declares no `offset` field | any call of `search_components` raises TypeError before the query runs | build the parameters without the `offset` keyword | not executed | Tools.SearchComponentsAsWrittenFails | Tools.CorrectedKeywordsAccepted |
| jlc_has_it/mcp/tools.py:107 | candidate ids are built as `f"C{comp.lcsc}"`, but `comp.lcsc` already starts with `"C"` | part 1525 becomes the candidate `"CC1525"`, whose download and validation fail, so validation drops every result | use `comp.lcsc` as the candidate id | not executed | Tools.CandidateIdDoublesPrefix | Tools.ValidateKeeps |
