/**
 * ComponentSearch: the parameterised SQL statement the search builds, and the
 * rows that statement selects from the components table, modelled by a reference
 * semantics of the few SQLite features it uses (comparison, LIKE, json_extract,
 * CAST AS REAL, ORDER BY and LIMIT).
 */
module Search {
  import opened Wrappers
  import opened Text
  import opened Models
  import Sorting

  // ---------------------------------------------------------------------------
  // Parameters

  /** One attribute range: the "min" and "max" keys, each present or not. */
  datatype RangeSpec = RangeSpec(min: Option<SqlValue>, max: Option<SqlValue>)

  /** The dictionaries of attribute filters are kept in their iteration order. */
  datatype QueryParams = QueryParams(
    category: Option<string>,
    subcategory: Option<string>,
    manufacturer: Option<string>,
    descriptionContains: Option<string>,
    basicOnly: bool,
    inStockOnly: bool,
    minStock: int,
    maxPrice: Option<real>,
    package: Option<string>,
    attributes: Option<seq<(string, SqlValue)>>,
    attributeRanges: Option<seq<(string, RangeSpec)>>,
    limit: int)

  /** The dataclass defaults: in-stock parts only, at most 50 of them. */
  const Defaults := QueryParams(None, None, None, None, false, true, 0, None, None, None, None, 50)

  /** A string filter applies when it is given and truthy (non-empty). */
  predicate Given(o: Option<string>) {
    o.Some? && o.value != ""
  }

  // ---------------------------------------------------------------------------
  // The statement

  /** One `AND ...` condition of the WHERE clause, with the values it binds. */
  datatype Clause =
    | CategoryIs(category: string)
    | SubcategoryIs(subcategory: string)
    | ManufacturerLike(manufacturer: string)
    | DescriptionLike(fragment: string)
    | BasicOnly
    | InStock
    | MinStock(minStock: int)
    | MaxPrice(maxPrice: real)
    | PackageIs(package: string)
    | AttributeIs(name: string, value: SqlValue)
    | AttributeAtLeast(name: string, bound: SqlValue)
    | AttributeAtMost(name: string, bound: SqlValue)

  // The statement's fixed text, in pieces.
  const Placeholder := "?"
  const SelectAll := "SELECT * FROM components "
  const WhereTrue := "WHERE 1=1"
  const OrderKeys := "ORDER BY basic DESC, stock DESC, "
  const Cast := "CAST("
  const AsRealAsc := " AS REAL) ASC"
  const LimitWord := "LIMIT "
  const CategoryEq := "AND category = "
  const SubcategoryEq := "AND subcategory = "
  const ManufacturerLikeText := "AND manufacturer LIKE "
  const DescriptionLikeText := "AND description LIKE "
  const BasicEqOne := "AND basic = 1"
  const StockPositive := "AND stock > 0"
  const StockAtLeast := "AND stock >= "
  const PriceFirst := "json_extract(price, '$[0].price')"
  const AndOpen := "AND ("
  const Or := " OR "
  const CloseParen := ")"
  const PackageKey := "Package')"
  const PackageCaseKey := "\"Package/Case\"')"
  const And := "AND "
  const Eq := " = "
  const AndCast := "AND CAST("
  const AsRealAtLeast := " AS REAL) >= "
  const AsRealAtMost := " AS REAL) <= "
  const PathHead := "json_extract(attributes, '$."
  const PathTail := ".value')"

  const Head := SelectAll + WhereTrue
  const OrderBy := OrderKeys + Cast + PriceFirst + AsRealAsc
  const LimitPart := LimitWord + Placeholder
  const PackagePath := PathHead + PackageKey
  const PackageCasePath := PathHead + PackageCaseKey

  function ValuePath(name: string): string {
    PathHead + name + PathTail
  }

  function ClauseSql(c: Clause): string {
    match c
    case CategoryIs(_) => CategoryEq + Placeholder
    case SubcategoryIs(_) => SubcategoryEq + Placeholder
    case ManufacturerLike(_) => ManufacturerLikeText + Placeholder
    case DescriptionLike(_) => DescriptionLikeText + Placeholder
    case BasicOnly => BasicEqOne
    case InStock => StockPositive
    case MinStock(_) => StockAtLeast + Placeholder
    case MaxPrice(_) => AndCast + PriceFirst + AsRealAtMost + Placeholder
    case PackageIs(_) => AndOpen + PackagePath + Eq + Placeholder + Or + PackageCasePath + Eq + Placeholder + CloseParen
    case AttributeIs(name, _) => And + ValuePath(name) + Eq + Placeholder
    case AttributeAtLeast(name, _) => AndCast + ValuePath(name) + AsRealAtLeast + Placeholder
    case AttributeAtMost(name, _) => AndCast + ValuePath(name) + AsRealAtMost + Placeholder
  }

  /** The LIKE pattern `%s%`. */
  function LikePattern(s: string): string {
    "%" + s + "%"
  }

  function ClauseArgs(c: Clause): seq<SqlValue> {
    match c
    case CategoryIs(s) => [SqlText(s)]
    case SubcategoryIs(s) => [SqlText(s)]
    case ManufacturerLike(s) => [SqlText(LikePattern(s))]
    case DescriptionLike(s) => [SqlText(LikePattern(s))]
    case BasicOnly => []
    case InStock => []
    case MinStock(n) => [SqlInt(n)]
    case MaxPrice(x) => [SqlReal(x)]
    case PackageIs(s) => [SqlText(s), SqlText(s)]
    case AttributeIs(_, v) => [v]
    case AttributeAtLeast(_, v) => [v]
    case AttributeAtMost(_, v) => [v]
  }

  lemma RangeStep(prefix: seq<Clause>, ranges: seq<(string, RangeSpec)>, i: nat)
    requires i < |ranges|
    ensures var (name, spec) := ranges[i];
      prefix + RangeClauses(ranges[..i + 1])
      == prefix + RangeClauses(ranges[..i])
         + Opt(spec.min.Some?, AttributeAtLeast(name, spec.min.GetOr(SqlNull)))
         + Opt(spec.max.Some?, AttributeAtMost(name, spec.max.GetOr(SqlNull)))
  {
    var (name, spec) := ranges[i];
    var a := RangeClauses(ranges[..i]);
    var lo := Opt(spec.min.Some?, AttributeAtLeast(name, spec.min.GetOr(SqlNull)));
    var hi := Opt(spec.max.Some?, AttributeAtMost(name, spec.max.GetOr(SqlNull)));
    assert ranges[..i + 1][..i] == ranges[..i];
    assert RangeClauses(ranges[..i + 1]) == a + (lo + hi);
    Regroup(prefix, a, lo, hi);
  }

  lemma Regroup<T>(p: seq<T>, a: seq<T>, x: seq<T>, y: seq<T>)
    ensures p + (a + (x + y)) == ((p + a) + x) + y
  {
  }

  /** `[c]` when the filter applies, nothing otherwise. */
  function Opt(applies: bool, c: Clause): seq<Clause> {
    if applies then [c] else []
  }

  /** The fixed filters, in the order the search adds them. */
  function BaseClauses(p: QueryParams): seq<Clause> {
    []
    + Opt(Given(p.category), CategoryIs(p.category.GetOr("")))
    + Opt(Given(p.subcategory), SubcategoryIs(p.subcategory.GetOr("")))
    + Opt(Given(p.manufacturer), ManufacturerLike(p.manufacturer.GetOr("")))
    + Opt(Given(p.descriptionContains), DescriptionLike(p.descriptionContains.GetOr("")))
    + Opt(p.basicOnly, BasicOnly)
    + Opt(p.inStockOnly, InStock)
    + Opt(p.minStock > 0, MinStock(p.minStock))
    + Opt(p.maxPrice.Some?, MaxPrice(p.maxPrice.GetOr(0.0)))
    + Opt(Given(p.package), PackageIs(p.package.GetOr("")))
  }

  function AttributeClauses(attrs: seq<(string, SqlValue)>): (cs: seq<Clause>)
    ensures |cs| == |attrs|
    ensures forall i :: 0 <= i < |attrs| ==> cs[i] == AttributeIs(attrs[i].0, attrs[i].1)
  {
    if attrs == [] then []
    else
      var last := attrs[|attrs| - 1];
      AttributeClauses(attrs[..|attrs| - 1]) + [AttributeIs(last.0, last.1)]
  }

  function RangeClausesOf(name: string, spec: RangeSpec): seq<Clause> {
    Opt(spec.min.Some?, AttributeAtLeast(name, spec.min.GetOr(SqlNull)))
    + Opt(spec.max.Some?, AttributeAtMost(name, spec.max.GetOr(SqlNull)))
  }

  function RangeClauses(ranges: seq<(string, RangeSpec)>): seq<Clause> {
    if ranges == [] then []
    else
      var last := ranges[|ranges| - 1];
      RangeClauses(ranges[..|ranges| - 1]) + RangeClausesOf(last.0, last.1)
  }

  /** Every condition the search adds, in order. */
  function Clauses(p: QueryParams): seq<Clause> {
    BaseClauses(p) + AttributeClauses(p.attributes.GetOr([])) + RangeClauses(p.attributeRanges.GetOr([]))
  }

  function Parts(cs: seq<Clause>): (ps: seq<string>)
    ensures |ps| == |cs|
  {
    if cs == [] then [] else Parts(cs[..|cs| - 1]) + [ClauseSql(cs[|cs| - 1])]
  }

  function Args(cs: seq<Clause>): seq<SqlValue> {
    if cs == [] then [] else Args(cs[..|cs| - 1]) + ClauseArgs(cs[|cs| - 1])
  }

  /** `" ".join(parts)`. */
  function JoinSpace(parts: seq<string>): string {
    if parts == [] then ""
    else if |parts| == 1 then parts[0]
    else JoinSpace(parts[..|parts| - 1]) + " " + parts[|parts| - 1]
  }

  function QueryText(p: QueryParams): string {
    JoinSpace([Head] + Parts(Clauses(p)) + [OrderBy, LimitPart])
  }

  function QueryArgs(p: QueryParams): seq<SqlValue> {
    Args(Clauses(p)) + [SqlInt(p.limit)]
  }

  /** `parts` and `args` hold the statement's head and the conditions `cs` with their values. */
  predicate Built(parts: seq<string>, args: seq<SqlValue>, cs: seq<Clause>) {
    parts == [Head] + Parts(cs) && args == Args(cs)
  }

  /** `query_parts.append(...)` and `query_args.append(...)` for one condition, when it applies. */
  method AddIf(parts: seq<string>, args: seq<SqlValue>, ghost cs: seq<Clause>, applies: bool, c: Clause)
    returns (parts': seq<string>, args': seq<SqlValue>)
    requires Built(parts, args, cs)
    ensures Built(parts', args', cs + Opt(applies, c))
  {
    assert (cs + [c])[..|cs|] == cs;
    assert cs + [] == cs;
    if applies {
      parts', args' := parts + [ClauseSql(c)], args + ClauseArgs(c);
    } else {
      parts', args' := parts, args;
    }
  }

  /** The fixed filters' part of the statement. */
  /** The text filters of `search`, the first four conditions it may add. */
  function TextClauses(p: QueryParams): seq<Clause> {
    []
    + Opt(Given(p.category), CategoryIs(p.category.GetOr("")))
    + Opt(Given(p.subcategory), SubcategoryIs(p.subcategory.GetOr("")))
    + Opt(Given(p.manufacturer), ManufacturerLike(p.manufacturer.GetOr("")))
    + Opt(Given(p.descriptionContains), DescriptionLike(p.descriptionContains.GetOr("")))
  }

  method TextQuery(p: QueryParams) returns (parts: seq<string>, args: seq<SqlValue>)
    ensures Built(parts, args, TextClauses(p))
  {
    parts := [Head];
    args := [];
    ghost var cs: seq<Clause> := [];
    var c: Clause;
    c := CategoryIs(p.category.GetOr(""));
    parts, args := AddIf(parts, args, cs, Given(p.category), c);
    cs := cs + Opt(Given(p.category), c);
    c := SubcategoryIs(p.subcategory.GetOr(""));
    parts, args := AddIf(parts, args, cs, Given(p.subcategory), c);
    cs := cs + Opt(Given(p.subcategory), c);
    c := ManufacturerLike(p.manufacturer.GetOr(""));
    parts, args := AddIf(parts, args, cs, Given(p.manufacturer), c);
    cs := cs + Opt(Given(p.manufacturer), c);
    c := DescriptionLike(p.descriptionContains.GetOr(""));
    parts, args := AddIf(parts, args, cs, Given(p.descriptionContains), c);
  }

  /** The fixed filters after the text ones, appended to what is already built. */
  method FlagQuery(p: QueryParams, parts0: seq<string>, args0: seq<SqlValue>, ghost cs0: seq<Clause>)
    returns (parts: seq<string>, args: seq<SqlValue>)
    requires Built(parts0, args0, cs0)
    ensures Built(parts, args, cs0
      + Opt(p.basicOnly, BasicOnly)
      + Opt(p.inStockOnly, InStock)
      + Opt(p.minStock > 0, MinStock(p.minStock))
      + Opt(p.maxPrice.Some?, MaxPrice(p.maxPrice.GetOr(0.0)))
      + Opt(Given(p.package), PackageIs(p.package.GetOr(""))))
  {
    ghost var cs := cs0;
    var c: Clause;
    c := BasicOnly;
    parts, args := AddIf(parts0, args0, cs, p.basicOnly, c);
    cs := cs + Opt(p.basicOnly, c);
    c := InStock;
    parts, args := AddIf(parts, args, cs, p.inStockOnly, c);
    cs := cs + Opt(p.inStockOnly, c);
    c := MinStock(p.minStock);
    parts, args := AddIf(parts, args, cs, p.minStock > 0, c);
    cs := cs + Opt(p.minStock > 0, c);
    c := MaxPrice(p.maxPrice.GetOr(0.0));
    parts, args := AddIf(parts, args, cs, p.maxPrice.Some?, c);
    cs := cs + Opt(p.maxPrice.Some?, c);
    c := PackageIs(p.package.GetOr(""));
    parts, args := AddIf(parts, args, cs, Given(p.package), c);
  }

  method BaseQuery(p: QueryParams) returns (parts: seq<string>, args: seq<SqlValue>)
    ensures Built(parts, args, BaseClauses(p))
  {
    parts, args := TextQuery(p);
    parts, args := FlagQuery(p, parts, args, TextClauses(p));
  }

  lemma FinishQuery(parts: seq<string>, args: seq<SqlValue>, p: QueryParams)
    requires Built(parts, args, Clauses(p))
    ensures JoinSpace(parts + [OrderBy] + [LimitPart]) == QueryText(p)
    ensures args + [SqlInt(p.limit)] == QueryArgs(p)
  {
    assert parts + [OrderBy] + [LimitPart] == [Head] + Parts(Clauses(p)) + [OrderBy, LimitPart];
  }

  /** The exact-value filters, one per attribute in iteration order. */
  method AddAttributes(parts: seq<string>, args: seq<SqlValue>, ghost cs: seq<Clause>, attrs: seq<(string, SqlValue)>)
    returns (parts': seq<string>, args': seq<SqlValue>)
    requires Built(parts, args, cs)
    ensures Built(parts', args', cs + AttributeClauses(attrs))
  {
    parts', args' := parts, args;
    ghost var done := cs;
    for i := 0 to |attrs|
      invariant Built(parts', args', done)
      invariant done == cs + AttributeClauses(attrs[..i])
    {
      var c := AttributeIs(attrs[i].0, attrs[i].1);
      AttributeStep(cs, attrs, i);
      parts', args' := AddIf(parts', args', done, true, c);
      done := done + Opt(true, c);
    }
    assert attrs[..|attrs|] == attrs;
  }

  lemma AttributeStep(cs: seq<Clause>, attrs: seq<(string, SqlValue)>, i: nat)
    requires i < |attrs|
    ensures cs + AttributeClauses(attrs[..i + 1]) == cs + AttributeClauses(attrs[..i]) + Opt(true, AttributeIs(attrs[i].0, attrs[i].1))
  {
    var a := AttributeClauses(attrs[..i]);
    var c := AttributeIs(attrs[i].0, attrs[i].1);
    assert attrs[..i + 1][..i] == attrs[..i];
    assert AttributeClauses(attrs[..i + 1]) == a + [c];
    assert Opt(true, c) == [c];
  }

  /** The range filters: for each attribute, its lower bound and then its upper bound, where given. */
  method AddRanges(parts: seq<string>, args: seq<SqlValue>, ghost cs: seq<Clause>, ranges: seq<(string, RangeSpec)>)
    returns (parts': seq<string>, args': seq<SqlValue>)
    requires Built(parts, args, cs)
    ensures Built(parts', args', cs + RangeClauses(ranges))
  {
    parts', args' := parts, args;
    ghost var done := cs;
    for i := 0 to |ranges|
      invariant Built(parts', args', done)
      invariant done == cs + RangeClauses(ranges[..i])
    {
      var (name, spec) := ranges[i];
      RangeStep(cs, ranges, i);
      var c := AttributeAtLeast(name, spec.min.GetOr(SqlNull));
      parts', args' := AddIf(parts', args', done, spec.min.Some?, c);
      done := done + Opt(spec.min.Some?, c);
      c := AttributeAtMost(name, spec.max.GetOr(SqlNull));
      parts', args' := AddIf(parts', args', done, spec.max.Some?, c);
      done := done + Opt(spec.max.Some?, c);
    }
    assert ranges[..|ranges|] == ranges;
  }

  /** The statement and its bound values, built part by part as `search` does. */
  method BuildQuery(p: QueryParams) returns (query: string, args: seq<SqlValue>)
    ensures query == QueryText(p)
    ensures args == QueryArgs(p)
  {
    var parts;
    parts, args := BaseQuery(p);
    parts, args := AddAttributes(parts, args, BaseClauses(p), p.attributes.GetOr([]));
    parts, args := AddRanges(parts, args, BaseClauses(p) + AttributeClauses(p.attributes.GetOr([])),
                             p.attributeRanges.GetOr([]));
    FinishQuery(parts, args, p);
    parts := parts + [OrderBy];
    parts := parts + [LimitPart];
    args := args + [SqlInt(p.limit)];
    query := JoinSpace(parts);
  }

  // ---------------------------------------------------------------------------
  // Placeholders and bound values agree

  /** The attribute names are spliced into the statement text; none may add a placeholder of its own. */
  predicate NameSafe(c: Clause) {
    (c.AttributeIs? || c.AttributeAtLeast? || c.AttributeAtMost?) ==> '?' !in c.name
  }

  // The fixed text holds no placeholder; the placeholder is one.

  lemma PlaceholderIsOne()
    ensures CountChar(Placeholder, '?') == 1
  {
  }

  lemma QuietSelectAll()
    ensures CountChar(SelectAll, '?') == 0
  {
    CountCharZero(SelectAll, '?');
  }

  lemma QuietWhereTrue()
    ensures CountChar(WhereTrue, '?') == 0
  {
    CountCharZero(WhereTrue, '?');
  }

  lemma QuietOrderKeys()
    ensures CountChar(OrderKeys, '?') == 0
  {
    CountCharZero(OrderKeys, '?');
  }

  lemma QuietCast()
    ensures CountChar(Cast, '?') == 0
  {
    CountCharZero(Cast, '?');
  }

  lemma QuietAsRealAsc()
    ensures CountChar(AsRealAsc, '?') == 0
  {
    CountCharZero(AsRealAsc, '?');
  }

  lemma QuietLimitWord()
    ensures CountChar(LimitWord, '?') == 0
  {
    CountCharZero(LimitWord, '?');
  }

  lemma QuietCategoryEq()
    ensures CountChar(CategoryEq, '?') == 0
  {
    CountCharZero(CategoryEq, '?');
  }

  lemma QuietSubcategoryEq()
    ensures CountChar(SubcategoryEq, '?') == 0
  {
    CountCharZero(SubcategoryEq, '?');
  }

  lemma QuietManufacturerLikeText()
    ensures CountChar(ManufacturerLikeText, '?') == 0
  {
    CountCharZero(ManufacturerLikeText, '?');
  }

  lemma QuietDescriptionLikeText()
    ensures CountChar(DescriptionLikeText, '?') == 0
  {
    CountCharZero(DescriptionLikeText, '?');
  }

  lemma QuietBasicEqOne()
    ensures CountChar(BasicEqOne, '?') == 0
  {
    CountCharZero(BasicEqOne, '?');
  }

  lemma QuietStockPositive()
    ensures CountChar(StockPositive, '?') == 0
  {
    CountCharZero(StockPositive, '?');
  }

  lemma QuietStockAtLeast()
    ensures CountChar(StockAtLeast, '?') == 0
  {
    CountCharZero(StockAtLeast, '?');
  }

  lemma QuietPriceFirst()
    ensures CountChar(PriceFirst, '?') == 0
  {
    CountCharZero(PriceFirst, '?');
  }

  lemma QuietAndOpen()
    ensures CountChar(AndOpen, '?') == 0
  {
    CountCharZero(AndOpen, '?');
  }

  lemma QuietOr()
    ensures CountChar(Or, '?') == 0
  {
    CountCharZero(Or, '?');
  }

  lemma QuietCloseParen()
    ensures CountChar(CloseParen, '?') == 0
  {
    CountCharZero(CloseParen, '?');
  }

  lemma QuietPackageKey()
    ensures CountChar(PackageKey, '?') == 0
  {
    CountCharZero(PackageKey, '?');
  }

  lemma QuietPackageCaseKey()
    ensures CountChar(PackageCaseKey, '?') == 0
  {
    CountCharZero(PackageCaseKey, '?');
  }

  lemma QuietAnd()
    ensures CountChar(And, '?') == 0
  {
    CountCharZero(And, '?');
  }

  lemma QuietEq()
    ensures CountChar(Eq, '?') == 0
  {
    CountCharZero(Eq, '?');
  }

  lemma QuietAndCast()
    ensures CountChar(AndCast, '?') == 0
  {
    CountCharZero(AndCast, '?');
  }

  lemma QuietAsRealAtLeast()
    ensures CountChar(AsRealAtLeast, '?') == 0
  {
    CountCharZero(AsRealAtLeast, '?');
  }

  lemma QuietAsRealAtMost()
    ensures CountChar(AsRealAtMost, '?') == 0
  {
    CountCharZero(AsRealAtMost, '?');
  }

  lemma QuietPathHead()
    ensures CountChar(PathHead, '?') == 0
  {
    CountCharZero(PathHead, '?');
  }

  lemma QuietPathTail()
    ensures CountChar(PathTail, '?') == 0
  {
    CountCharZero(PathTail, '?');
  }

  lemma Count2(a: string, b: string)
    ensures CountChar(a + b, '?') == CountChar(a, '?') + CountChar(b, '?')
  {
    CountCharSplit(a, b, '?');
  }

  lemma Quiet2(a: string, b: string)
    requires CountChar(a, '?') == 0 && CountChar(b, '?') == 0
    ensures CountChar(a + b, '?') == 0
  {
    Count2(a, b);
  }

  lemma Count4(a: string, b: string, c: string, d: string)
    ensures CountChar(a + b + c + d, '?') == CountChar(a, '?') + CountChar(b, '?') + CountChar(c, '?') + CountChar(d, '?')
  {
    CountCharSplit(a + b + c, d, '?');
    CountCharSplit(a + b, c, '?');
    CountCharSplit(a, b, '?');
  }

  lemma ValuePathPlaceholders(name: string)
    requires '?' !in name
    ensures CountChar(ValuePath(name), '?') == 0
  {
    QuietPathHead();
    QuietPathTail();
    CountCharZero(name, '?');
    CountCharSplit(PathHead + name, PathTail, '?');
    CountCharSplit(PathHead, name, '?');
  }

  lemma PackagePlaceholders()
    ensures CountChar(AndOpen + PackagePath + Eq + Placeholder + Or + PackageCasePath + Eq + Placeholder + CloseParen, '?') == 2
  {
    QuietPathHead();
    QuietPackageKey();
    QuietPackageCaseKey();
    QuietAndOpen();
    QuietEq();
    QuietOr();
    QuietCloseParen();
    PlaceholderIsOne();
    Count2(PathHead, PackageKey);
    Count2(PathHead, PackageCaseKey);
    var x := AndOpen;
    Count2(x, PackagePath); x := x + PackagePath;
    Count2(x, Eq); x := x + Eq;
    Count2(x, Placeholder); x := x + Placeholder;
    Count2(x, Or); x := x + Or;
    Count2(x, PackageCasePath); x := x + PackageCasePath;
    Count2(x, Eq); x := x + Eq;
    Count2(x, Placeholder); x := x + Placeholder;
    Count2(x, CloseParen);
  }

  lemma CategoryIsPlaceholders(s: string)
    ensures CountChar(ClauseSql(CategoryIs(s)), '?') == |ClauseArgs(CategoryIs(s))|
  {
    PlaceholderIsOne();
    QuietCategoryEq();
    Count2(CategoryEq, Placeholder);
  }

  lemma SubcategoryIsPlaceholders(s: string)
    ensures CountChar(ClauseSql(SubcategoryIs(s)), '?') == |ClauseArgs(SubcategoryIs(s))|
  {
    PlaceholderIsOne();
    QuietSubcategoryEq();
    Count2(SubcategoryEq, Placeholder);
  }

  lemma ManufacturerLikePlaceholders(s: string)
    ensures CountChar(ClauseSql(ManufacturerLike(s)), '?') == |ClauseArgs(ManufacturerLike(s))|
  {
    PlaceholderIsOne();
    QuietManufacturerLikeText();
    Count2(ManufacturerLikeText, Placeholder);
  }

  lemma DescriptionLikePlaceholders(s: string)
    ensures CountChar(ClauseSql(DescriptionLike(s)), '?') == |ClauseArgs(DescriptionLike(s))|
  {
    PlaceholderIsOne();
    QuietDescriptionLikeText();
    Count2(DescriptionLikeText, Placeholder);
  }

  lemma BasicOnlyPlaceholders()
    ensures CountChar(ClauseSql(BasicOnly), '?') == |ClauseArgs(BasicOnly)|
  {
    PlaceholderIsOne();
    QuietBasicEqOne();
  }

  lemma InStockPlaceholders()
    ensures CountChar(ClauseSql(InStock), '?') == |ClauseArgs(InStock)|
  {
    PlaceholderIsOne();
    QuietStockPositive();
  }

  lemma MinStockPlaceholders(n: int)
    ensures CountChar(ClauseSql(MinStock(n)), '?') == |ClauseArgs(MinStock(n))|
  {
    PlaceholderIsOne();
    QuietStockAtLeast();
    Count2(StockAtLeast, Placeholder);
  }

  lemma MaxPricePlaceholders(x: real)
    ensures CountChar(ClauseSql(MaxPrice(x)), '?') == |ClauseArgs(MaxPrice(x))|
  {
    PlaceholderIsOne();
    QuietAndCast();
    QuietPriceFirst();
    QuietAsRealAtMost();
    Count4(AndCast, PriceFirst, AsRealAtMost, Placeholder);
  }

  lemma AttributeIsPlaceholders(name: string, v: SqlValue)
    requires '?' !in name
    ensures CountChar(ClauseSql(AttributeIs(name, v)), '?') == |ClauseArgs(AttributeIs(name, v))|
  {
    PlaceholderIsOne();
    ValuePathPlaceholders(name);
    QuietAnd();
    QuietEq();
    Count4(And, ValuePath(name), Eq, Placeholder);
  }

  lemma AttributeAtLeastPlaceholders(name: string, v: SqlValue)
    requires '?' !in name
    ensures CountChar(ClauseSql(AttributeAtLeast(name, v)), '?') == |ClauseArgs(AttributeAtLeast(name, v))|
  {
    PlaceholderIsOne();
    ValuePathPlaceholders(name);
    QuietAndCast();
    QuietAsRealAtLeast();
    Count4(AndCast, ValuePath(name), AsRealAtLeast, Placeholder);
  }

  lemma AttributeAtMostPlaceholders(name: string, v: SqlValue)
    requires '?' !in name
    ensures CountChar(ClauseSql(AttributeAtMost(name, v)), '?') == |ClauseArgs(AttributeAtMost(name, v))|
  {
    PlaceholderIsOne();
    ValuePathPlaceholders(name);
    QuietAndCast();
    QuietAsRealAtMost();
    Count4(AndCast, ValuePath(name), AsRealAtMost, Placeholder);
  }

  /** Each condition binds exactly as many values as it has placeholders. */
  lemma ClausePlaceholders(c: Clause)
    requires NameSafe(c)
    ensures CountChar(ClauseSql(c), '?') == |ClauseArgs(c)|
  {
    match c
    case CategoryIs(s) => CategoryIsPlaceholders(s);
    case SubcategoryIs(s) => SubcategoryIsPlaceholders(s);
    case ManufacturerLike(s) => ManufacturerLikePlaceholders(s);
    case DescriptionLike(s) => DescriptionLikePlaceholders(s);
    case BasicOnly => BasicOnlyPlaceholders();
    case InStock => InStockPlaceholders();
    case MinStock(n) => MinStockPlaceholders(n);
    case MaxPrice(x) => MaxPricePlaceholders(x);
    case PackageIs(_) => PackagePlaceholders();
    case AttributeIs(name, v) => AttributeIsPlaceholders(name, v);
    case AttributeAtLeast(name, v) => AttributeAtLeastPlaceholders(name, v);
    case AttributeAtMost(name, v) => AttributeAtMostPlaceholders(name, v);
  }

  lemma HeadQuiet()
    ensures CountChar(Head, '?') == 0
  {
    QuietSelectAll();
    QuietWhereTrue();
    Quiet2(SelectAll, WhereTrue);
  }

  lemma OrderByQuiet()
    ensures CountChar(OrderBy, '?') == 0
  {
    QuietOrderKeys();
    QuietCast();
    QuietPriceFirst();
    QuietAsRealAsc();
    Quiet4(OrderKeys, Cast, PriceFirst, AsRealAsc);
  }

  /** Four parts without a placeholder make a text without one. */
  lemma Quiet4(a: string, b: string, c: string, d: string)
    requires CountChar(a, '?') == 0 && CountChar(b, '?') == 0 && CountChar(c, '?') == 0 && CountChar(d, '?') == 0
    ensures CountChar(a + b + c + d, '?') == 0
  {
    Count4(a, b, c, d);
  }

  lemma LimitPartPlaceholder()
    ensures CountChar(LimitPart, '?') == 1
  {
    QuietLimitWord();
    PlaceholderIsOne();
    Count2(LimitWord, Placeholder);
  }

  lemma FrameQuiet()
    ensures CountChar(Head, '?') == 0
    ensures CountChar(OrderBy, '?') == 0
    ensures CountChar(LimitPart, '?') == 1
  {
    HeadQuiet();
    OrderByQuiet();
    LimitPartPlaceholder();
  }

  /** Placeholders over a list of statement parts. */
  function SumCount(parts: seq<string>, c: char): nat {
    if parts == [] then 0 else SumCount(parts[..|parts| - 1], c) + CountChar(parts[|parts| - 1], c)
  }

  lemma {:induction false} SumCountConcat(a: seq<string>, b: seq<string>, c: char)
    ensures SumCount(a + b, c) == SumCount(a, c) + SumCount(b, c)
    decreases |b|
  {
    if b != [] {
      assert (a + b)[..|a + b| - 1] == a + b[..|b| - 1];
      SumCountConcat(a, b[..|b| - 1], c);
    } else {
      assert a + b == a;
    }
  }

  /** Joining with single spaces adds no character other than the space. */
  lemma {:induction false} JoinSpaceCount(parts: seq<string>, c: char)
    requires c != ' '
    ensures CountChar(JoinSpace(parts), c) == SumCount(parts, c)
    decreases |parts|
  {
    if |parts| == 1 {
      assert parts[..0] == [];
    } else if |parts| > 1 {
      var init := parts[..|parts| - 1];
      JoinSpaceCount(init, c);
      CountCharSplit(JoinSpace(init) + " ", parts[|parts| - 1], c);
      CountCharSplit(JoinSpace(init), " ", c);
    }
  }

  lemma {:induction false} PartsPlaceholders(cs: seq<Clause>)
    requires forall c :: c in cs ==> NameSafe(c)
    ensures SumCount(Parts(cs), '?') == |Args(cs)|
    decreases |cs|
  {
    if cs != [] {
      var init := cs[..|cs| - 1];
      assert forall c :: c in init ==> c in cs;
      PartsPlaceholders(init);
      ClausePlaceholders(cs[|cs| - 1]);
      assert Parts(cs)[..|cs| - 1] == Parts(init);
    }
  }

  lemma AttributeClausesSafe(attrs: seq<(string, SqlValue)>)
    requires forall i :: 0 <= i < |attrs| ==> '?' !in attrs[i].0
    ensures forall c :: c in AttributeClauses(attrs) ==> NameSafe(c)
  {
  }

  lemma {:induction false} RangeClausesSafe(ranges: seq<(string, RangeSpec)>)
    requires forall i :: 0 <= i < |ranges| ==> '?' !in ranges[i].0
    ensures forall c :: c in RangeClauses(ranges) ==> NameSafe(c)
    decreases |ranges|
  {
    if ranges != [] {
      RangeClausesSafe(ranges[..|ranges| - 1]);
    }
  }

  /** No attribute name in the filters contains a `?`. */
  predicate NamesSafe(p: QueryParams) {
    && (forall i :: 0 <= i < |p.attributes.GetOr([])| ==> '?' !in p.attributes.GetOr([])[i].0)
    && (forall i :: 0 <= i < |p.attributeRanges.GetOr([])| ==> '?' !in p.attributeRanges.GetOr([])[i].0)
  }

  /** The statement has one placeholder per bound value, the limit included. */
  lemma QueryPlaceholders(p: QueryParams)
    requires NamesSafe(p)
    ensures CountChar(QueryText(p), '?') == |QueryArgs(p)|
  {
    var cs := Clauses(p);
    var base, attrs, ranges := BaseClauses(p), AttributeClauses(p.attributes.GetOr([])), RangeClauses(p.attributeRanges.GetOr([]));
    AttributeClausesSafe(p.attributes.GetOr([]));
    RangeClausesSafe(p.attributeRanges.GetOr([]));
    BaseClauseKinds(p);
    assert cs == base + attrs + ranges;
    assert forall c :: c in cs ==> c in base || c in attrs || c in ranges;
    PartsPlaceholders(cs);
    FrameQuiet();
    FramedCount(Head, Parts(cs), OrderBy, LimitPart);
  }

  /** Framing the conditions with a quiet head and order and a one-placeholder limit adds one placeholder. */
  lemma FramedCount(head: string, body: seq<string>, order: string, limit: string)
    requires CountChar(head, '?') == 0 && CountChar(order, '?') == 0 && CountChar(limit, '?') == 1
    ensures CountChar(JoinSpace([head] + body + [order, limit]), '?') == SumCount(body, '?') + 1
  {
    JoinSpaceCount([head] + body + [order, limit], '?');
    SumCountConcat([head] + body, [order, limit], '?');
    SumCountConcat([head], body, '?');
    assert [order, limit][..1] == [order];
    assert [head][..0] == [];
  }

  // ---------------------------------------------------------------------------
  // SQLite values: comparison, affinity, LIKE, json_extract and CAST

  /** The storage classes in SQLite's sort order: NULL, then numbers, then text. */
  function Rank(v: SqlValue): nat {
    match v
    case SqlNull => 0
    case SqlInt(_) => 1
    case SqlReal(_) => 1
    case SqlText(_) => 2
  }

  function Num(v: SqlValue): real
    requires v.SqlInt? || v.SqlReal?
  {
    if v.SqlInt? then v.i as real else v.r
  }

  /** BINARY collation: code point by code point, a proper prefix first. */
  predicate StrLe(a: string, b: string) {
    a == [] || (b != [] && (a[0] < b[0] || (a[0] == b[0] && StrLe(a[1..], b[1..]))))
  }

  lemma {:induction false} StrLeTotal(a: string, b: string)
    ensures StrLe(a, b) || StrLe(b, a)
  {
    if a != [] && b != [] && a[0] == b[0] {
      StrLeTotal(a[1..], b[1..]);
    }
  }

  lemma {:induction false} StrLeTrans(a: string, b: string, c: string)
    requires StrLe(a, b) && StrLe(b, c)
    ensures StrLe(a, c)
  {
    if a != [] && b != [] && c != [] && a[0] == b[0] && b[0] == c[0] {
      StrLeTrans(a[1..], b[1..], c[1..]);
    }
  }

  lemma {:induction false} StrLeAntisymmetric(a: string, b: string)
    requires StrLe(a, b) && StrLe(b, a)
    ensures a == b
  {
    if a != [] && b != [] {
      StrLeAntisymmetric(a[1..], b[1..]);
      assert a == [a[0]] + a[1..] && b == [b[0]] + b[1..];
    }
  }

  /** The order ORDER BY ... ASC uses. */
  predicate SqlLe(a: SqlValue, b: SqlValue) {
    if Rank(a) != Rank(b) then Rank(a) < Rank(b)
    else if a.SqlNull? then true
    else if a.SqlText? then StrLe(a.s, b.s)
    else Num(a) <= Num(b)
  }

  lemma SqlLeTotal(a: SqlValue, b: SqlValue)
    ensures SqlLe(a, b) || SqlLe(b, a)
  {
    if a.SqlText? && b.SqlText? {
      StrLeTotal(a.s, b.s);
    }
  }

  lemma SqlLeTrans(a: SqlValue, b: SqlValue, c: SqlValue)
    requires SqlLe(a, b) && SqlLe(b, c)
    ensures SqlLe(a, c)
  {
    if a.SqlText? && b.SqlText? && c.SqlText? {
      StrLeTrans(a.s, b.s, c.s);
    }
  }

  /** Neither sorts before the other. */
  predicate SqlTied(a: SqlValue, b: SqlValue) {
    SqlLe(a, b) && SqlLe(b, a)
  }

  /** `a < b`, `a = b`, `a > b` as -1, 0, 1; NULL on either side makes every comparison unknown. */
  function SqlCompare(a: SqlValue, b: SqlValue): (r: Option<int>)
    ensures r.None? <==> a.SqlNull? || b.SqlNull?
    ensures r == Some(0) <==> !a.SqlNull? && !b.SqlNull? && SqlTied(a, b)
    ensures r == Some(-1) <==> !a.SqlNull? && !b.SqlNull? && SqlLe(a, b) && !SqlLe(b, a)
    ensures r == Some(1) <==> !a.SqlNull? && !b.SqlNull? && !SqlLe(a, b)
  {
    if a.SqlNull? || b.SqlNull? then None
    else if SqlTied(a, b) then Some(0)
    else if SqlLe(a, b) then Some(-1)
    else Some(1)
  }

  /** Equal values: same text, or numbers equal as reals. */
  lemma SqlEqualMeans(a: SqlValue, b: SqlValue)
    requires SqlCompare(a, b) == Some(0)
    ensures a.SqlText? ==> b == a
    ensures a.SqlInt? || a.SqlReal? ==> (b.SqlInt? || b.SqlReal?) && Num(a) == Num(b)
  {
    if a.SqlText? {
      StrLeAntisymmetric(a.s, b.s);
    }
  }

  predicate AtLeast(a: SqlValue, b: SqlValue) {
    var r := SqlCompare(a, b);
    r == Some(0) || r == Some(1)
  }

  predicate AtMost(a: SqlValue, b: SqlValue) {
    var r := SqlCompare(a, b);
    r == Some(0) || r == Some(-1)
  }

  /**
   * Numeric affinity: text that reads as an integer becomes an integer, text that
   * reads as a decimal becomes a real, anything else is left alone.
   */
  function Numeric(v: SqlValue): (r: SqlValue)
    ensures !v.SqlText? ==> r == v
    ensures r.SqlText? ==> r == v
  {
    match v
    case SqlText(s) =>
      (match ParseIntText(s)
       case Ok(i) => SqlInt(i)
       case Err(_) =>
         match ParseFloatText(s)
         case Ok(x) => SqlReal(x)
         case Err(_) => v)
    case _ => v
  }

  /** LIKE without an ESCAPE clause: `%` any run, `_` any one character, ASCII letters caseless. */
  predicate LikeMatch(t: string, pat: string)
    decreases |t| + |pat|
  {
    if pat == [] then t == []
    else if pat[0] == '%' then LikeMatch(t, pat[1..]) || (t != [] && LikeMatch(t[1..], pat))
    else t != [] && (pat[0] == '_' || AsciiLowerChar(pat[0]) == AsciiLowerChar(t[0])) && LikeMatch(t[1..], pat[1..])
  }

  /** `v LIKE pat`: NULL never matches; an integer is matched through its decimal text. */
  predicate Like(v: SqlValue, pat: string) {
    match v
    case SqlText(s) => LikeMatch(s, pat)
    case SqlInt(i) => LikeMatch(IntToString(i), pat)
    case _ => false
  }

  /** The JSON document stored as text in a column; NULL and non-text have none. */
  function Document(v: SqlValue, loads: Loads): Option<Json> {
    if v.SqlText? then loads(v.s) else None
  }

  /** An object member, when the document is an object that has it. */
  function Member(j: Option<Json>, key: string): Option<Json> {
    if j.Some? && j.value.JObj? && key in j.value.fields then Some(j.value.fields[key]) else None
  }

  /** json_extract's SQL value for a scalar; a missing path and JSON null give NULL. */
  function Scalar(j: Option<Json>): SqlValue {
    if j.None? then SqlNull
    else match j.value
      case JBool(b) => SqlInt(if b then 1 else 0)
      case JInt(n) => SqlInt(n)
      case JReal(r) => SqlReal(r)
      case JStr(s) => SqlText(s)
      case _ => SqlNull
  }

  /** CAST(text AS REAL), for text in the plain decimal grammar; any other text casts to 0.0. */
  function TextToReal(s: string): real {
    match ParseFloatText(s)
    case Ok(x) => x
    case Err(_) => 0.0
  }

  /** CAST(json_extract(...) AS REAL): NULL stays NULL; arrays and objects are text without a number. */
  function CastReal(j: Option<Json>): (r: SqlValue)
    ensures r.SqlNull? || r.SqlReal?
    ensures r.SqlNull? <==> j.None? || j.value.JNull?
  {
    if j.None? then SqlNull
    else match j.value
      case JNull => SqlNull
      case JBool(b) => SqlReal(if b then 1.0 else 0.0)
      case JInt(n) => SqlReal(n as real)
      case JReal(r) => SqlReal(r)
      case JStr(s) => SqlReal(TextToReal(s))
      case _ => SqlReal(0.0)
  }

  // ---------------------------------------------------------------------------
  // The rows the statement selects

  function Col(row: Row, name: string): SqlValue {
    if name in row then row[name] else SqlNull
  }

  function Attributes(row: Row, loads: Loads): Option<Json> {
    Document(Col(row, "attributes"), loads)
  }

  /** `json_extract(attributes, '$.<name>.value')`. */
  function ValueOf(row: Row, name: string, loads: Loads): Option<Json> {
    Member(Member(Attributes(row, loads), name), "value")
  }

  /** `CAST(json_extract(price, '$[0].price') AS REAL)`. */
  function FirstPrice(row: Row, loads: Loads): (r: SqlValue)
    ensures r.SqlNull? || r.SqlReal?
  {
    var doc := Document(Col(row, "price"), loads);
    if doc.Some? && doc.value.JList? && doc.value.items != [] then CastReal(Member(Some(doc.value.items[0]), "price"))
    else SqlNull
  }

  /** Whether one condition of the WHERE clause is true of a row. */
  predicate ClauseHolds(c: Clause, row: Row, loads: Loads) {
    match c
    case CategoryIs(s) => SqlCompare(Col(row, "category"), SqlText(s)) == Some(0)
    case SubcategoryIs(s) => SqlCompare(Col(row, "subcategory"), SqlText(s)) == Some(0)
    case ManufacturerLike(s) => Like(Col(row, "manufacturer"), LikePattern(s))
    case DescriptionLike(s) => Like(Col(row, "description"), LikePattern(s))
    case BasicOnly => SqlCompare(Col(row, "basic"), SqlInt(1)) == Some(0)
    case InStock => SqlCompare(Col(row, "stock"), SqlInt(0)) == Some(1)
    case MinStock(n) => AtLeast(Col(row, "stock"), SqlInt(n))
    case MaxPrice(x) => AtMost(FirstPrice(row, loads), SqlReal(x))
    case PackageIs(s) =>
      || SqlCompare(Scalar(Member(Attributes(row, loads), "Package")), SqlText(s)) == Some(0)
      || SqlCompare(Scalar(Member(Attributes(row, loads), "Package/Case")), SqlText(s)) == Some(0)
    case AttributeIs(name, v) => SqlCompare(Scalar(ValueOf(row, name, loads)), v) == Some(0)
    case AttributeAtLeast(name, v) => AtLeast(CastReal(ValueOf(row, name, loads)), Numeric(v))
    case AttributeAtMost(name, v) => AtMost(CastReal(ValueOf(row, name, loads)), Numeric(v))
  }

  predicate Matches(p: QueryParams, row: Row, loads: Loads) {
    forall c :: c in Clauses(p) ==> ClauseHolds(c, row, loads)
  }

  /** The rows satisfying every condition, in table order. */
  function Filter(p: QueryParams, rows: seq<Row>, loads: Loads): (r: seq<Row>)
    ensures |r| <= |rows|
    ensures forall row :: row in r <==> row in rows && Matches(p, row, loads)
  {
    if rows == [] then []
    else
      var init := Filter(p, rows[..|rows| - 1], loads);
      var last := rows[|rows| - 1];
      SnocMembers(rows);
      init + (if Matches(p, last, loads) then [last] else [])
  }

  lemma SnocMembers<T>(s: seq<T>)
    requires s != []
    ensures forall x :: x in s <==> x in s[..|s| - 1] || x == s[|s| - 1]
  {
    assert s == s[..|s| - 1] + [s[|s| - 1]];
  }

  /** `ORDER BY basic DESC, stock DESC, CAST(json_extract(price, '$[0].price') AS REAL) ASC`. */
  predicate RowLe(a: Row, b: Row, loads: Loads) {
    var ba, bb := Col(a, "basic"), Col(b, "basic");
    var sa, sb := Col(a, "stock"), Col(b, "stock");
    if !SqlTied(ba, bb) then SqlLe(bb, ba)
    else if !SqlTied(sa, sb) then SqlLe(sb, sa)
    else SqlLe(FirstPrice(a, loads), FirstPrice(b, loads))
  }

  function RowOrder(loads: Loads): (Row, Row) -> bool {
    (a: Row, b: Row) => RowLe(a, b, loads)
  }

  lemma RowLeTotal(a: Row, b: Row, loads: Loads)
    ensures RowLe(a, b, loads) || RowLe(b, a, loads)
  {
    SqlLeTotal(Col(a, "basic"), Col(b, "basic"));
    SqlLeTotal(Col(a, "stock"), Col(b, "stock"));
    SqlLeTotal(FirstPrice(a, loads), FirstPrice(b, loads));
  }

  /** Transitivity of one key of a lexicographic order, stated on the key values. */
  lemma KeyStep(x: SqlValue, y: SqlValue, z: SqlValue)
    ensures SqlTied(x, y) && SqlTied(y, z) ==> SqlTied(x, z)
    ensures SqlTied(x, y) && !SqlTied(y, z) ==> (SqlLe(y, z) <==> SqlLe(x, z)) && !SqlTied(x, z)
    ensures !SqlTied(x, y) && SqlTied(y, z) ==> (SqlLe(x, y) <==> SqlLe(x, z)) && !SqlTied(x, z)
    ensures !SqlTied(x, y) && !SqlTied(y, z) && SqlLe(x, y) && SqlLe(y, z) ==> SqlLe(x, z) && !SqlTied(x, z)
  {
    SqlLeTotal(x, y);
    SqlLeTotal(y, z);
    SqlLeTotal(x, z);
    if SqlLe(x, y) && SqlLe(y, z) { SqlLeTrans(x, y, z); }
    if SqlLe(x, z) && SqlLe(z, y) { SqlLeTrans(x, z, y); }
    if SqlLe(y, x) && SqlLe(x, z) { SqlLeTrans(y, x, z); }
    if SqlLe(y, z) && SqlLe(z, x) { SqlLeTrans(y, z, x); }
    if SqlLe(z, x) && SqlLe(x, y) { SqlLeTrans(z, x, y); }
    if SqlLe(z, y) && SqlLe(y, x) { SqlLeTrans(z, y, x); }
  }

  lemma RowLeTrans(a: Row, b: Row, c: Row, loads: Loads)
    requires RowLe(a, b, loads) && RowLe(b, c, loads)
    ensures RowLe(a, c, loads)
  {
    KeyStep(Col(c, "basic"), Col(b, "basic"), Col(a, "basic"));
    KeyStep(Col(a, "basic"), Col(b, "basic"), Col(c, "basic"));
    KeyStep(Col(c, "stock"), Col(b, "stock"), Col(a, "stock"));
    KeyStep(Col(a, "stock"), Col(b, "stock"), Col(c, "stock"));
    KeyStep(FirstPrice(a, loads), FirstPrice(b, loads), FirstPrice(c, loads));
  }

  /** The ORDER BY is a total preorder, so sorting by it is well defined up to ties. */
  lemma RowOrderIsTotalPreorder(loads: Loads)
    ensures Sorting.TotalPreorder(RowOrder(loads))
  {
    forall a, b ensures RowOrder(loads)(a, b) || RowOrder(loads)(b, a) {
      RowLeTotal(a, b, loads);
    }
    forall a, b, c | RowOrder(loads)(a, b) && RowOrder(loads)(b, c) ensures RowOrder(loads)(a, c) {
      RowLeTrans(a, b, c, loads);
    }
  }

  /** LIMIT n: the first n rows; a negative limit means no limit. */
  function Take(rows: seq<Row>, limit: int): (r: seq<Row>)
    ensures limit < 0 || |rows| <= limit ==> r == rows
    ensures 0 <= limit < |rows| ==> r == rows[..limit]
  {
    if 0 <= limit < |rows| then rows[..limit] else rows
  }

  /** What the statement returns: the matching rows, ordered, limited. */
  function Selected(p: QueryParams, table: seq<Row>, loads: Loads): seq<Row> {
    Take(Sorting.SortBy(Filter(p, table, loads), RowOrder(loads)), p.limit)
  }

  // ---------------------------------------------------------------------------
  // When the statement raises

  /** The columns of the components table one condition names. */
  function ClauseColumns(c: Clause): seq<string> {
    match c
    case CategoryIs(_) => ["category"]
    case SubcategoryIs(_) => ["subcategory"]
    case ManufacturerLike(_) => ["manufacturer"]
    case DescriptionLike(_) => ["description"]
    case BasicOnly => ["basic"]
    case InStock => ["stock"]
    case MinStock(_) => ["stock"]
    case MaxPrice(_) => ["price"]
    case _ => ["attributes"]
  }

  /** The columns the WHERE conditions name, in the order they appear. */
  function ClausesColumns(cs: seq<Clause>): (names: seq<string>)
    ensures forall c, n :: c in cs && n in ClauseColumns(c) ==> n in names
    ensures forall n :: n in names ==> exists c :: c in cs && n in ClauseColumns(c)
  {
    if cs == [] then [] else ClauseColumns(cs[0]) + ClausesColumns(cs[1..])
  }

  const OrderColumns := ["basic", "stock", "price"]

  /** Every column the statement names: the WHERE conditions', then the ORDER BY keys'. */
  function StatementColumns(p: QueryParams): seq<string> {
    ClausesColumns(Clauses(p)) + OrderColumns
  }

  /** The first name that is not a column of the table. */
  function FirstMissing(names: seq<string>, columns: set<string>): (r: Option<string>)
    ensures r.None? <==> forall n :: n in names ==> n in columns
    ensures r.Some? ==> r.value in names && r.value !in columns
  {
    if names == [] then None
    else if names[0] !in columns then Some(names[0])
    else FirstMissing(names[1..], columns)
  }

  /** Text that is not a JSON document: json_extract raises on it, where NULL and numbers have none. */
  predicate MalformedJson(v: SqlValue, loads: Loads) {
    v.SqlText? && loads(v.s).None?
  }

  /** A row that passes the WHERE clause with a price that is not JSON: its ORDER BY key raises. */
  predicate MalformedPriceSelected(p: QueryParams, table: seq<Row>, loads: Loads) {
    exists row :: row in Filter(p, table, loads) && MalformedJson(Col(row, "price"), loads)
  }

  /**
   * `search` on a table with the given columns: preparing the statement fails on a column
   * the table lacks; running it fails on a sort key that is not JSON; otherwise the rows
   * are hydrated.
   */
  function SearchResult(p: QueryParams, columns: set<string>, table: seq<Row>, loads: Loads,
                        floatRepr: real -> string): Result<seq<Component>, PyError> {
    match FirstMissing(StatementColumns(p), columns)
    case Some(n) => Err(SqliteOperationalError("no such column: " + n))
    case None =>
      if MalformedPriceSelected(p, table, loads) then Err(SqliteOperationalError("malformed JSON"))
      else Ok(HydrateAll(Selected(p, table, loads), loads, floatRepr))
  }

  /**
   * The search raises exactly when some named column is missing or a matching row's price
   * is not JSON, and otherwise returns the hydrated selection.
   */
  lemma SearchRaisesExactly(p: QueryParams, columns: set<string>, table: seq<Row>, loads: Loads, floatRepr: real -> string)
    ensures var r := SearchResult(p, columns, table, loads, floatRepr);
      && (r.Err? <==> (exists n :: n in StatementColumns(p) && n !in columns) || MalformedPriceSelected(p, table, loads))
      && (r.Err? ==> r.error.SqliteOperationalError?)
      && (r.Ok? ==> r.value == HydrateAll(Selected(p, table, loads), loads, floatRepr))
  {
    var m := FirstMissing(StatementColumns(p), columns);
    if m.Some? {
      assert m.value in StatementColumns(p) && m.value !in columns;
    }
  }

  /** A condition on a column the table lacks makes the search raise, whatever the rows. */
  lemma UnresolvedColumnRaises(p: QueryParams, columns: set<string>, table: seq<Row>, loads: Loads,
                               floatRepr: real -> string, c: Clause, n: string)
    requires c in Clauses(p) && n in ClauseColumns(c) && n !in columns
    ensures SearchResult(p, columns, table, loads, floatRepr).Err?
  {
    assert n in StatementColumns(p);
  }

  /** A category search on a table without a `category` column raises instead of returning no rows. */
  lemma CategoryWithoutColumnRaises(p: QueryParams, columns: set<string>, table: seq<Row>, loads: Loads,
                                    floatRepr: real -> string)
    requires Given(p.category) && "category" !in columns
    ensures SearchResult(p, columns, table, loads, floatRepr).Err?
  {
    ClausesExactly(p, CategoryIs(p.category.value));
    UnresolvedColumnRaises(p, columns, table, loads, floatRepr, CategoryIs(p.category.value), "category");
  }

  // ---------------------------------------------------------------------------
  // Which conditions the parameters produce

  lemma AttributeClauseKinds(attrs: seq<(string, SqlValue)>)
    ensures forall c :: c in AttributeClauses(attrs) ==> c.AttributeIs?
  {
  }

  lemma {:induction false} RangeClauseKinds(ranges: seq<(string, RangeSpec)>)
    ensures forall c :: c in RangeClauses(ranges) ==> c.AttributeAtLeast? || c.AttributeAtMost?
    decreases |ranges|
  {
    if ranges != [] {
      RangeClauseKinds(ranges[..|ranges| - 1]);
    }
  }

  /** The condition each parameter asks for, stated filter by filter. */
  predicate Wanted(p: QueryParams, c: Clause) {
    var attrs := p.attributes.GetOr([]);
    var ranges := p.attributeRanges.GetOr([]);
    match c
    case CategoryIs(s) => Given(p.category) && s == p.category.value
    case SubcategoryIs(s) => Given(p.subcategory) && s == p.subcategory.value
    case ManufacturerLike(s) => Given(p.manufacturer) && s == p.manufacturer.value
    case DescriptionLike(s) => Given(p.descriptionContains) && s == p.descriptionContains.value
    case BasicOnly => p.basicOnly
    case InStock => p.inStockOnly
    case MinStock(n) => p.minStock > 0 && n == p.minStock
    case MaxPrice(x) => p.maxPrice == Some(x)
    case PackageIs(s) => Given(p.package) && s == p.package.value
    case AttributeIs(name, v) => exists i :: 0 <= i < |attrs| && attrs[i] == (name, v)
    case AttributeAtLeast(_, _) => SomeRangeAsks(ranges, c)
    case AttributeAtMost(_, _) => SomeRangeAsks(ranges, c)
  }

  /** One attribute's range asks for the condition `c`. */
  predicate RangeAsks(r: (string, RangeSpec), c: Clause) {
    || (c.AttributeAtLeast? && r.0 == c.name && r.1.min == Some(c.bound))
    || (c.AttributeAtMost? && r.0 == c.name && r.1.max == Some(c.bound))
  }

  /** Some range of the list asks for the condition `c`. */
  predicate SomeRangeAsks(ranges: seq<(string, RangeSpec)>, c: Clause) {
    exists i :: 0 <= i < |ranges| && RangeAsks(ranges[i], c)
  }

  lemma {:induction false} RangeClauseMembers(ranges: seq<(string, RangeSpec)>, c: Clause)
    ensures c in RangeClauses(ranges) <==> SomeRangeAsks(ranges, c)
    decreases |ranges|
  {
    if ranges != [] {
      var init := ranges[..|ranges| - 1];
      var last := ranges[|ranges| - 1];
      RangeClauseMembers(init, c);
      RangeClausesOfMember(last, c);
      AsksSnoc(ranges, c);
      assert RangeClauses(ranges) == RangeClauses(init) + RangeClausesOf(last.0, last.1);
    }
  }

  /** Some range asks for `c` when some earlier one does or the last one does. */
  lemma AsksSnoc(ranges: seq<(string, RangeSpec)>, c: Clause)
    requires ranges != []
    ensures SomeRangeAsks(ranges, c) <==> SomeRangeAsks(ranges[..|ranges| - 1], c) || RangeAsks(ranges[|ranges| - 1], c)
  {
    var init := ranges[..|ranges| - 1];
    if SomeRangeAsks(ranges, c) {
      var i :| 0 <= i < |ranges| && RangeAsks(ranges[i], c);
      if i < |init| {
        assert init[i] == ranges[i];
      }
    }
    if SomeRangeAsks(init, c) {
      var i :| 0 <= i < |init| && RangeAsks(init[i], c);
      assert ranges[i] == init[i];
    }
  }

  lemma RangeClausesOfMember(r: (string, RangeSpec), c: Clause)
    ensures c in RangeClausesOf(r.0, r.1) <==> RangeAsks(r, c)
  {
  }

  lemma OptMember(a: seq<Clause>, applies: bool, x: Clause, c: Clause)
    ensures c in a + Opt(applies, x) <==> c in a || (applies && c == x)
  {
  }

  /** Membership in the fixed filters, one filter at a time. */
  lemma BaseClausesIn(p: QueryParams, c: Clause)
    ensures c in BaseClauses(p) <==>
      || (Given(p.category) && c == CategoryIs(p.category.GetOr("")))
      || (Given(p.subcategory) && c == SubcategoryIs(p.subcategory.GetOr("")))
      || (Given(p.manufacturer) && c == ManufacturerLike(p.manufacturer.GetOr("")))
      || (Given(p.descriptionContains) && c == DescriptionLike(p.descriptionContains.GetOr("")))
      || (p.basicOnly && c == BasicOnly)
      || (p.inStockOnly && c == InStock)
      || (p.minStock > 0 && c == MinStock(p.minStock))
      || (p.maxPrice.Some? && c == MaxPrice(p.maxPrice.GetOr(0.0)))
      || (Given(p.package) && c == PackageIs(p.package.GetOr("")))
  {
    var s0: seq<Clause> := [];
    var s1 := s0 + Opt(Given(p.category), CategoryIs(p.category.GetOr("")));
    OptMember(s0, Given(p.category), CategoryIs(p.category.GetOr("")), c);
    var s2 := s1 + Opt(Given(p.subcategory), SubcategoryIs(p.subcategory.GetOr("")));
    OptMember(s1, Given(p.subcategory), SubcategoryIs(p.subcategory.GetOr("")), c);
    var s3 := s2 + Opt(Given(p.manufacturer), ManufacturerLike(p.manufacturer.GetOr("")));
    OptMember(s2, Given(p.manufacturer), ManufacturerLike(p.manufacturer.GetOr("")), c);
    var s4 := s3 + Opt(Given(p.descriptionContains), DescriptionLike(p.descriptionContains.GetOr("")));
    OptMember(s3, Given(p.descriptionContains), DescriptionLike(p.descriptionContains.GetOr("")), c);
    var s5 := s4 + Opt(p.basicOnly, BasicOnly);
    OptMember(s4, p.basicOnly, BasicOnly, c);
    var s6 := s5 + Opt(p.inStockOnly, InStock);
    OptMember(s5, p.inStockOnly, InStock, c);
    var s7 := s6 + Opt(p.minStock > 0, MinStock(p.minStock));
    OptMember(s6, p.minStock > 0, MinStock(p.minStock), c);
    var s8 := s7 + Opt(p.maxPrice.Some?, MaxPrice(p.maxPrice.GetOr(0.0)));
    OptMember(s7, p.maxPrice.Some?, MaxPrice(p.maxPrice.GetOr(0.0)), c);
    OptMember(s8, Given(p.package), PackageIs(p.package.GetOr("")), c);
  }

  lemma BaseClauseKinds(p: QueryParams)
    ensures forall c :: c in BaseClauses(p) ==> !c.AttributeIs? && !c.AttributeAtLeast? && !c.AttributeAtMost?
  {
    forall c | c in BaseClauses(p)
      ensures !c.AttributeIs? && !c.AttributeAtLeast? && !c.AttributeAtMost?
    {
      BaseClausesIn(p, c);
    }
  }

  lemma BaseClauseMembers(p: QueryParams, c: Clause)
    requires !c.AttributeIs? && !c.AttributeAtLeast? && !c.AttributeAtMost?
    ensures c in BaseClauses(p) <==> Wanted(p, c)
  {
    BaseClausesIn(p, c);
  }

  lemma FixedClausesExactly(p: QueryParams, c: Clause)
    requires !c.AttributeIs? && !c.AttributeAtLeast? && !c.AttributeAtMost?
    ensures c in Clauses(p) <==> Wanted(p, c)
  {
    AttributeClauseKinds(p.attributes.GetOr([]));
    RangeClauseKinds(p.attributeRanges.GetOr([]));
    BaseClauseMembers(p, c);
  }

  lemma ValueClausesExactly(p: QueryParams, c: Clause)
    requires c.AttributeIs?
    ensures c in Clauses(p) <==> Wanted(p, c)
  {
    var attrs := p.attributes.GetOr([]);
    RangeClauseKinds(p.attributeRanges.GetOr([]));
    BaseClauseKinds(p);
    ClausesIn(p, c);
    AttributeClauseMember(attrs, c);
  }

  /** A condition is in the statement when it is a fixed, a value or a range condition. */
  lemma ClausesIn(p: QueryParams, c: Clause)
    ensures c in Clauses(p) <==>
      c in BaseClauses(p) || c in AttributeClauses(p.attributes.GetOr([])) || c in RangeClauses(p.attributeRanges.GetOr([]))
  {
  }

  /** The value conditions are exactly the requested name and value pairs. */
  lemma AttributeClauseMember(attrs: seq<(string, SqlValue)>, c: Clause)
    requires c.AttributeIs?
    ensures c in AttributeClauses(attrs) <==> exists i :: 0 <= i < |attrs| && attrs[i] == (c.name, c.value)
  {
    var cs := AttributeClauses(attrs);
    if c in cs {
      var j :| 0 <= j < |cs| && cs[j] == c;
      assert attrs[j] == (c.name, c.value);
    }
    if exists i :: 0 <= i < |attrs| && attrs[i] == (c.name, c.value) {
      var i :| 0 <= i < |attrs| && attrs[i] == (c.name, c.value);
      assert cs[i] == c;
    }
  }

  lemma RangeClausesExactly(p: QueryParams, c: Clause)
    requires c.AttributeAtLeast? || c.AttributeAtMost?
    ensures c in Clauses(p) <==> Wanted(p, c)
  {
    var base, attrs, ranges := BaseClauses(p), AttributeClauses(p.attributes.GetOr([])), RangeClauses(p.attributeRanges.GetOr([]));
    AttributeClauseKinds(p.attributes.GetOr([]));
    RangeClauseMembers(p.attributeRanges.GetOr([]), c);
    BaseClauseKinds(p);
    assert c !in base && c !in attrs;
    assert c in Clauses(p) <==> c in ranges;
  }

  /** A condition is in the statement exactly when some parameter asks for it. */
  lemma ClausesExactly(p: QueryParams, c: Clause)
    ensures c in Clauses(p) <==> Wanted(p, c)
  {
    if c.AttributeIs? {
      ValueClausesExactly(p, c);
    } else if c.AttributeAtLeast? || c.AttributeAtMost? {
      RangeClausesExactly(p, c);
    } else {
      FixedClausesExactly(p, c);
    }
  }

  // ---------------------------------------------------------------------------
  // LIKE '%s%' is a caseless substring test

  /** No LIKE wildcard in the text. */
  predicate NoWildcards(w: string) {
    '%' !in w && '_' !in w
  }

  predicate CaselessEq(x: string, y: string) {
    |x| == |y| && forall i :: 0 <= i < |x| ==> AsciiLowerChar(x[i]) == AsciiLowerChar(y[i])
  }

  lemma {:induction false} LikeAnything(t: string)
    ensures LikeMatch(t, "%")
    decreases |t|
  {
    if t != [] {
      LikeAnything(t[1..]);
    }
  }

  lemma {:induction false} LikePrefix(t: string, w: string)
    requires NoWildcards(w)
    ensures LikeMatch(t, w + "%") <==> |w| <= |t| && CaselessEq(t[..|w|], w)
    decreases |w|
  {
    if w == [] {
      LikeAnything(t);
      assert w + "%" == "%";
    } else {
      assert (w + "%")[0] == w[0];
      assert (w + "%")[1..] == w[1..] + "%";
      assert NoWildcards(w[1..]) by {
        assert forall ch :: ch in w[1..] ==> ch in w;
      }
      if t != [] {
        LikePrefix(t[1..], w[1..]);
        if |w| <= |t| {
          assert forall i :: 1 <= i < |w| ==> t[..|w|][i] == t[1..][..|w| - 1][i - 1] && w[i] == w[1..][i - 1];
        }
      }
    }
  }

  lemma {:induction false} LikeLeadingPercent(t: string, rest: string)
    ensures LikeMatch(t, "%" + rest) <==> exists k :: 0 <= k <= |t| && LikeMatch(t[k..], rest)
    decreases |t|
  {
    assert ("%" + rest)[1..] == rest;
    assert t[0..] == t;
    if t != [] {
      LikeLeadingPercent(t[1..], rest);
      assert forall k :: 1 <= k <= |t| ==> t[1..][k - 1..] == t[k..];
      if exists k :: 0 <= k <= |t| && LikeMatch(t[k..], rest) {
        var k :| 0 <= k <= |t| && LikeMatch(t[k..], rest);
        if k > 0 {
          assert LikeMatch(t[1..][k - 1..], rest);
        }
      }
    }
  }

  lemma {:induction false} ContainsAt(h: string, n: string)
    ensures Contains(h, n) <==> exists k :: 0 <= k <= |h| && StartsWith(h[k..], n)
    decreases |h|
  {
    assert h[0..] == h;
    if h != [] {
      ContainsAt(h[1..], n);
      assert forall k :: 1 <= k <= |h| ==> h[1..][k - 1..] == h[k..];
      if exists k :: 0 <= k <= |h| && StartsWith(h[k..], n) {
        var k :| 0 <= k <= |h| && StartsWith(h[k..], n);
        if k > 0 {
          assert StartsWith(h[1..][k - 1..], n);
        }
      }
    }
  }

  /** `x LIKE '%w%'` holds exactly when the lower-cased `w` occurs in the lower-cased `x`. */
  lemma LikeIsCaselessContains(t: string, w: string)
    requires NoWildcards(w)
    ensures Like(SqlText(t), LikePattern(w)) <==> Contains(AsciiLower(t), AsciiLower(w))
  {
    assert LikePattern(w) == "%" + (w + "%");
    LikeLeadingPercent(t, w + "%");
    ContainsAt(AsciiLower(t), AsciiLower(w));
    forall k | 0 <= k <= |t|
      ensures LikeMatch(t[k..], w + "%") <==> StartsWith(AsciiLower(t)[k..], AsciiLower(w))
    {
      LikeAt(t, w, k);
    }
  }

  /** At one position, the pattern `w%` matches exactly when the lower-cased text there starts with the lower-cased `w`. */
  lemma LikeAt(t: string, w: string, k: int)
    requires NoWildcards(w) && 0 <= k <= |t|
    ensures LikeMatch(t[k..], w + "%") <==> StartsWith(AsciiLower(t)[k..], AsciiLower(w))
  {
    LikePrefix(t[k..], w);
    if |w| <= |t| - k {
      var x := t[k..][..|w|];
      assert AsciiLower(t)[k..][..|w|] == AsciiLower(x);
      CaselessEqLower(x, w);
    }
  }

  lemma CaselessEqLower(x: string, y: string)
    requires |x| == |y|
    ensures CaselessEq(x, y) <==> AsciiLower(x) == AsciiLower(y)
  {
    if AsciiLower(x) == AsciiLower(y) {
      forall i | 0 <= i < |x| ensures AsciiLowerChar(x[i]) == AsciiLowerChar(y[i]) {
        assert AsciiLower(x)[i] == AsciiLower(y)[i];
      }
    }
  }

  // ---------------------------------------------------------------------------
  // What the selected rows satisfy

  lemma SelectedRows(p: QueryParams, table: seq<Row>, loads: Loads)
    ensures var r := Selected(p, table, loads);
      && (forall row :: row in r ==> row in table && Matches(p, row, loads))
      && Sorting.SortedBy(r, RowOrder(loads))
      && (p.limit >= 0 ==> |r| <= p.limit)
      && (p.limit < 0 || |Filter(p, table, loads)| <= p.limit ==>
            forall row :: row in table && Matches(p, row, loads) ==> row in r)
      && (0 <= p.limit <= |Filter(p, table, loads)| ==> |r| == p.limit)
  {
    var f := Filter(p, table, loads);
    var sorted := Sorting.SortBy(f, RowOrder(loads));
    RowOrderIsTotalPreorder(loads);
    Sorting.SortBySorted(f, RowOrder(loads));
    forall row | row in Selected(p, table, loads) ensures row in table && Matches(p, row, loads) {
      Sorting.SortByElements(f, RowOrder(loads), row);
    }
    forall row | (p.limit < 0 || |f| <= p.limit) && row in table && Matches(p, row, loads)
      ensures row in Selected(p, table, loads)
    {
      Sorting.SortByElements(f, RowOrder(loads), row);
    }
  }

  /** A selected row satisfies every condition some parameter asks for. */
  lemma SelectedRowSatisfies(p: QueryParams, table: seq<Row>, loads: Loads, row: Row, c: Clause)
    requires row in Selected(p, table, loads)
    requires Wanted(p, c)
    ensures row in table && ClauseHolds(c, row, loads)
  {
    SelectedRows(p, table, loads);
    ClausesExactly(p, c);
  }

  /** The text filters: equal category and subcategory, LIKE on manufacturer and description. */
  lemma SelectedRowTextFilters(p: QueryParams, table: seq<Row>, loads: Loads, row: Row)
    requires row in Selected(p, table, loads)
    ensures Given(p.category) ==> Col(row, "category") == SqlText(p.category.value)
    ensures Given(p.subcategory) ==> Col(row, "subcategory") == SqlText(p.subcategory.value)
    ensures Given(p.manufacturer) ==> Like(Col(row, "manufacturer"), LikePattern(p.manufacturer.value))
    ensures Given(p.descriptionContains) ==> Like(Col(row, "description"), LikePattern(p.descriptionContains.value))
  {
    if Given(p.category) {
      SelectedRowSatisfies(p, table, loads, row, CategoryIs(p.category.value));
      SqlEqualMeans(SqlText(p.category.value), Col(row, "category"));
    }
    if Given(p.subcategory) {
      SelectedRowSatisfies(p, table, loads, row, SubcategoryIs(p.subcategory.value));
      SqlEqualMeans(SqlText(p.subcategory.value), Col(row, "subcategory"));
    }
    if Given(p.manufacturer) {
      SelectedRowSatisfies(p, table, loads, row, ManufacturerLike(p.manufacturer.value));
    }
    if Given(p.descriptionContains) {
      SelectedRowSatisfies(p, table, loads, row, DescriptionLike(p.descriptionContains.value));
    }
  }

  /**
   * `stock > n` (or `>= n`): a number above the bound, or text, which SQLite orders
   * after every number.
   */
  predicate StockAbove(v: SqlValue, n: int, orEqual: bool) {
    || v.SqlText?
    || ((v.SqlInt? || v.SqlReal?) && (if orEqual then Num(v) >= n as real else Num(v) > n as real))
  }

  /** `stock >= n` holds of a number at least n and of any text. */
  lemma AtLeastStock(v: SqlValue, n: int)
    requires AtLeast(v, SqlInt(n))
    ensures StockAbove(v, n, true)
  {
  }

  /** `price <= x` holds only of a number: the first price, cast to REAL, is then a real at most x. */
  lemma AtMostPrice(row: Row, loads: Loads, x: real)
    requires AtMost(FirstPrice(row, loads), SqlReal(x))
    ensures FirstPrice(row, loads).SqlReal? && FirstPrice(row, loads).r <= x
  {
  }

  /** The availability and price filters. */
  lemma SelectedRowStockAndPrice(p: QueryParams, table: seq<Row>, loads: Loads, row: Row)
    requires row in Selected(p, table, loads)
    ensures p.basicOnly ==> SqlCompare(Col(row, "basic"), SqlInt(1)) == Some(0)
    ensures p.inStockOnly ==> StockAbove(Col(row, "stock"), 0, false)
    ensures p.minStock > 0 ==> StockAbove(Col(row, "stock"), p.minStock, true)
    ensures p.maxPrice.Some? ==> FirstPrice(row, loads).SqlReal? && FirstPrice(row, loads).r <= p.maxPrice.value
  {
    if p.basicOnly {
      SelectedRowSatisfies(p, table, loads, row, BasicOnly);
    }
    if p.inStockOnly {
      SelectedRowSatisfies(p, table, loads, row, InStock);
    }
    if p.minStock > 0 {
      SelectedRowSatisfies(p, table, loads, row, MinStock(p.minStock));
      AtLeastStock(Col(row, "stock"), p.minStock);
    }
    if p.maxPrice.Some? {
      SelectedRowSatisfies(p, table, loads, row, MaxPrice(p.maxPrice.value));
      AtMostPrice(row, loads, p.maxPrice.value);
    }
  }

  /** The attribute filters: each exact value matches and each given bound holds. */
  lemma SelectedRowAttributeFilters(p: QueryParams, table: seq<Row>, loads: Loads, row: Row, i: int, j: int)
    requires row in Selected(p, table, loads)
    ensures 0 <= i < |p.attributes.GetOr([])| ==>
      var (name, v) := p.attributes.GetOr([])[i];
      SqlCompare(Scalar(ValueOf(row, name, loads)), v) == Some(0)
    ensures 0 <= j < |p.attributeRanges.GetOr([])| ==>
      var (name, spec) := p.attributeRanges.GetOr([])[j];
      && (spec.min.Some? ==> AtLeast(CastReal(ValueOf(row, name, loads)), Numeric(spec.min.value)))
      && (spec.max.Some? ==> AtMost(CastReal(ValueOf(row, name, loads)), Numeric(spec.max.value)))
  {
    var attrs := p.attributes.GetOr([]);
    var ranges := p.attributeRanges.GetOr([]);
    if 0 <= i < |attrs| {
      SelectedRowSatisfies(p, table, loads, row, AttributeIs(attrs[i].0, attrs[i].1));
    }
    if 0 <= j < |ranges| {
      var (name, spec) := ranges[j];
      if spec.min.Some? {
        assert RangeAsks(ranges[j], AttributeAtLeast(name, spec.min.value));
        SelectedRowSatisfies(p, table, loads, row, AttributeAtLeast(name, spec.min.value));
      }
      if spec.max.Some? {
        assert RangeAsks(ranges[j], AttributeAtMost(name, spec.max.value));
        SelectedRowSatisfies(p, table, loads, row, AttributeAtMost(name, spec.max.value));
      }
    }
  }

  // ---------------------------------------------------------------------------
  // Hydration of the fetched rows

  /** The fetched rows turned into components; a row that fails to convert is skipped. */
  function HydrateAll(rows: seq<Row>, loads: Loads, floatRepr: real -> string): (cs: seq<Component>)
    ensures |cs| <= |rows|
  {
    if rows == [] then []
    else
      HydrateAll(rows[..|rows| - 1], loads, floatRepr) + Hydrated(rows[|rows| - 1], loads, floatRepr)
  }

  /** One row's component, or nothing when the row fails to convert. */
  function Hydrated(row: Row, loads: Loads, floatRepr: real -> string): seq<Component> {
    match FromDbRow(row, loads, floatRepr)
    case Ok(c) => [c]
    case Err(_) => []
  }

  lemma HydrateStep(rows: seq<Row>, i: nat, loads: Loads, floatRepr: real -> string, r: Result<Component, PyError>)
    requires i < |rows| && r == FromDbRow(rows[i], loads, floatRepr)
    ensures HydrateAll(rows[..i + 1], loads, floatRepr)
         == HydrateAll(rows[..i], loads, floatRepr) + (if r.Ok? then [r.value] else [])
  {
    assert rows[..i + 1][..i] == rows[..i];
  }

  /** Every component comes from a row that converts to it. */
  lemma {:induction false} HydratedFromRows(rows: seq<Row>, loads: Loads, floatRepr: real -> string)
    ensures forall c :: c in HydrateAll(rows, loads, floatRepr) ==> exists row :: row in rows && FromDbRow(row, loads, floatRepr) == Ok(c)
  {
    if rows != [] {
      var init := rows[..|rows| - 1];
      HydratedFromRows(init, loads, floatRepr);
      forall c | c in HydrateAll(rows, loads, floatRepr)
        ensures exists row :: row in rows && FromDbRow(row, loads, floatRepr) == Ok(c)
      {
        if c in HydrateAll(init, loads, floatRepr) {
          var row :| row in init && FromDbRow(row, loads, floatRepr) == Ok(c);
          assert row in rows;
        } else {
          assert FromDbRow(rows[|rows| - 1], loads, floatRepr) == Ok(c);
        }
      }
    }
  }

  /** Hydration works row by row: a converted row gives its component, a failing row nothing. */
  lemma {:induction false} HydrateAllConcat(a: seq<Row>, b: seq<Row>, loads: Loads, floatRepr: real -> string)
    ensures HydrateAll(a + b, loads, floatRepr) == HydrateAll(a, loads, floatRepr) + HydrateAll(b, loads, floatRepr)
    decreases |b|
  {
    if b == [] {
      assert a + b == a;
    } else {
      var init, x := b[..|b| - 1], b[|b| - 1];
      var ab := a + b;
      assert ab[..|ab| - 1] == a + init && ab[|ab| - 1] == x;
      var t := Hydrated(x, loads, floatRepr);
      assert HydrateAll(ab, loads, floatRepr) == HydrateAll(a + init, loads, floatRepr) + t;
      assert HydrateAll(b, loads, floatRepr) == HydrateAll(init, loads, floatRepr) + t;
      HydrateAllConcat(a, init, loads, floatRepr);
      SeqAssoc(HydrateAll(a, loads, floatRepr), HydrateAll(init, loads, floatRepr), t);
    }
  }

  lemma SeqAssoc<T>(a: seq<T>, b: seq<T>, c: seq<T>)
    ensures (a + b) + c == a + (b + c)
  {
  }

  lemma HydrateOne(row: Row, loads: Loads, floatRepr: real -> string)
    ensures FromDbRow(row, loads, floatRepr).Ok? ==> HydrateAll([row], loads, floatRepr) == [FromDbRow(row, loads, floatRepr).value]
    ensures FromDbRow(row, loads, floatRepr).Err? ==> HydrateAll([row], loads, floatRepr) == []
  {
    assert [row][..0] == [];
  }

  /** When every row converts, the components are the rows' conversions, in order. */
  lemma {:induction false} HydrateAllGoodRows(rows: seq<Row>, loads: Loads, floatRepr: real -> string)
    requires forall i {:trigger FromDbRow(rows[i], loads, floatRepr)} :: 0 <= i < |rows| ==> FromDbRow(rows[i], loads, floatRepr).Ok?
    ensures |HydrateAll(rows, loads, floatRepr)| == |rows|
    ensures forall i {:trigger HydrateAll(rows, loads, floatRepr)[i]} :: 0 <= i < |rows| ==>
      HydrateAll(rows, loads, floatRepr)[i] == FromDbRow(rows[i], loads, floatRepr).value
    decreases |rows|
  {
    if rows != [] {
      var init := rows[..|rows| - 1];
      forall i | 0 <= i < |init|
        ensures FromDbRow(init[i], loads, floatRepr).Ok?
      {
        assert init[i] == rows[i];
        assert FromDbRow(rows[i], loads, floatRepr).Ok?;
      }
      HydrateAllGoodRows(init, loads, floatRepr);
      var h := HydrateAll(init, loads, floatRepr);
      var x := rows[|rows| - 1];
      HydrateLastOk(rows, loads, floatRepr);
      var v := FromDbRow(x, loads, floatRepr).value;
      forall i | 0 <= i < |rows|
        ensures (h + [v])[i] == FromDbRow(rows[i], loads, floatRepr).value
      {
        if i < |init| {
          assert (h + [v])[i] == h[i];
          assert init[i] == rows[i];
          assert h[i] == FromDbRow(init[i], loads, floatRepr).value;
        } else {
          assert i == |h| && rows[i] == x;
          assert (h + [v])[i] == v;
        }
      }
    }
  }

  lemma HydrateLastOk(rows: seq<Row>, loads: Loads, floatRepr: real -> string)
    requires rows != [] && FromDbRow(rows[|rows| - 1], loads, floatRepr).Ok?
    ensures HydrateAll(rows, loads, floatRepr)
         == HydrateAll(rows[..|rows| - 1], loads, floatRepr) + [FromDbRow(rows[|rows| - 1], loads, floatRepr).value]
  {
  }

  // ---------------------------------------------------------------------------
  // Lookup by part number

  /** `lcsc = ?` against the INTEGER key column: the bound text gets numeric affinity first. */
  predicate KeyMatches(row: Row, id: string) {
    SqlCompare(Col(row, "lcsc"), Numeric(SqlText(id))) == Some(0)
  }

  /** The first row the matcher accepts. */
  function FirstMatch(rows: seq<Row>, accepts: Row -> bool): (r: Option<nat>)
    ensures r.Some? ==> r.value < |rows| && accepts(rows[r.value]) && forall j :: 0 <= j < r.value ==> !accepts(rows[j])
    ensures r.None? ==> forall j :: 0 <= j < |rows| ==> !accepts(rows[j])
  {
    if rows == [] then None
    else if accepts(rows[0]) then Some(0)
    else match FirstMatch(rows[1..], accepts)
      case None => None
      case Some(k) => Some(k + 1)
  }

  /** The first accepted row is the one FirstMatch finds. */
  lemma FirstMatchIsFirst(rows: seq<Row>, accepts: Row -> bool, i: int)
    requires 0 <= i < |rows| && accepts(rows[i])
    requires forall j :: 0 <= j < i ==> !accepts(rows[j])
    ensures FirstMatch(rows, accepts) == Some(i)
  {
  }

  /** What the lookup returns for a fetched row: its component, or the conversion's error. */
  function Found(r: Result<Component, PyError>): Result<Option<Component>, PyError> {
    match r
    case Ok(c) => Ok(Some(c))
    case Err(e) => Err(e)
  }

  /** Preparing `... WHERE lcsc = ?` fails on a table without the key column. */
  const NoKeyColumn := SqliteOperationalError("no such column: lcsc")

  /** What `search_by_lcsc` returns: the first row whose key equals the identifier, converted. */
  function LcscLookup(columns: set<string>, table: seq<Row>, loads: Loads, floatRepr: real -> string, lcscId: string): Result<Option<Component>, PyError> {
    if "lcsc" !in columns then Err(NoKeyColumn)
    else match FirstMatch(table, row => KeyMatches(row, lcscId))
      case None => Ok(None)
      case Some(i) => Found(FromDbRow(table[i], loads, floatRepr))
  }

  /** An identifier of the form "C" followed by digits: the form hydration gives an integer key. */
  predicate PrefixedId(id: string) {
    |id| >= 2 && id[0] == 'C' && AllDigits(id[1..])
  }

  /** The lookup intended: the key as given, or the digits after the "C" prefix. */
  predicate KeyMatchesEither(row: Row, id: string) {
    KeyMatches(row, id) || (PrefixedId(id) && KeyMatches(row, id[1..]))
  }

  /** The corrected lookup: the first row whose key matches the identifier or its digits, converted. */
  function LcscLookupEither(columns: set<string>, table: seq<Row>, loads: Loads, floatRepr: real -> string, lcscId: string): Result<Option<Component>, PyError> {
    if "lcsc" !in columns then Err(NoKeyColumn)
    else match FirstMatch(table, row => KeyMatchesEither(row, lcscId))
      case None => Ok(None)
      case Some(i) => Found(FromDbRow(table[i], loads, floatRepr))
  }

  /** Every row holds a non-negative integer key, no two the same (an INTEGER PRIMARY KEY). */
  predicate UniqueIntegerKeys(table: seq<Row>) {
    && (forall i :: 0 <= i < |table| ==> Col(table[i], "lcsc").SqlInt? && Col(table[i], "lcsc").i >= 0)
    && (forall i, j :: 0 <= i < j < |table| ==> Col(table[i], "lcsc") != Col(table[j], "lcsc"))
  }

  lemma StripKeepsHead(s: string)
    requires s != [] && !IsSpace(s[0])
    ensures Strip(s) != [] && Strip(s)[0] == s[0]
  {
    TrimLeftNoop(s);
  }

  /** Text starting with "C" has no numeric reading, so it stays text. */
  lemma PrefixedTextStaysText(id: string)
    requires id != [] && id[0] == 'C'
    ensures Numeric(SqlText(id)) == SqlText(id)
  {
    StripKeepsHead(id);
    var t := Strip(id);
    assert UnitUtils.SignLength(t) == 0;
    assert t[0..] == t;
    assert !IsAsciiDigit(t[0]);
    assert !UnitUtils.IsNumChar(t[0]);
    assert !UnitUtils.AllNumChars(t);
  }

  lemma DigitTextReadsAsInteger(s: string)
    requires s != [] && AllDigits(s)
    ensures ParseIntText(s) == Ok(DigitsValue(s) as int)
  {
    assert IsAsciiDigit(s[0]) && IsAsciiDigit(s[|s| - 1]);
    StripNoop(s);
    assert UnitUtils.SignLength(s) == 0;
    assert s[0..] == s && s[..0] == "";
  }

  /** The decimal digits of n read back as the integer n. */
  lemma DigitsReadAsInteger(n: nat)
    ensures Numeric(SqlText(NatToString(n))) == SqlInt(n)
  {
    DigitTextReadsAsInteger(NatToString(n));
    DigitsValueOfNatToString(n);
  }

  /** The "C"-prefixed identifier never equals an integer key. */
  lemma PrefixedIdMissesIntegerKey(row: Row, id: string)
    requires Col(row, "lcsc").SqlInt?
    requires id != [] && id[0] == 'C'
    ensures !KeyMatches(row, id)
  {
    PrefixedTextStaysText(id);
  }

  /**
   * As written, looking up the identifier a component was hydrated with finds no row
   * of an integer-keyed table: the "C" the hydration adds is never taken off again.
   */
  lemma HydratedIdNotFound(table: seq<Row>, i: int, loads: Loads, floatRepr: real -> string)
    requires UniqueIntegerKeys(table)
    requires 0 <= i < |table| && FromDbRow(table[i], loads, floatRepr).Ok?
    ensures FirstMatch(table, row => KeyMatches(row, FromDbRow(table[i], loads, floatRepr).value.lcsc)) == None
  {
    var n := Col(table[i], "lcsc").i;
    IntegerKeyHydration(table[i], loads, floatRepr, n);
    var id := FromDbRow(table[i], loads, floatRepr).value.lcsc;
    forall j | 0 <= j < |table| ensures !KeyMatches(table[j], id) {
      PrefixedIdMissesIntegerKey(table[j], id);
    }
  }

  /** With the prefix taken off, the hydrated identifier finds exactly the row it came from. */
  lemma HydratedIdFound(table: seq<Row>, i: int, loads: Loads, floatRepr: real -> string)
    requires UniqueIntegerKeys(table)
    requires 0 <= i < |table| && FromDbRow(table[i], loads, floatRepr).Ok?
    ensures FirstMatch(table, row => KeyMatchesEither(row, FromDbRow(table[i], loads, floatRepr).value.lcsc)) == Some(i)
  {
    var n := Col(table[i], "lcsc").i;
    IntegerKeyHydration(table[i], loads, floatRepr, n);
    var id := FromDbRow(table[i], loads, floatRepr).value.lcsc;
    assert id[1..] == NatToString(n);
    forall j | 0 <= j < |table| ensures KeyMatchesEither(table[j], id) <==> j == i {
      PrefixedIdMissesIntegerKey(table[j], id);
      DigitsMatchKey(table[j], n);
    }
    FirstMatchIsFirst(table, row => KeyMatchesEither(row, id), i);
  }

  /** The decimal digits of n match an integer key exactly when the key is n. */
  lemma DigitsMatchKey(row: Row, n: nat)
    requires Col(row, "lcsc").SqlInt?
    ensures KeyMatches(row, NatToString(n)) <==> Col(row, "lcsc") == SqlInt(n)
  {
    DigitsReadAsInteger(n);
  }

  // ---------------------------------------------------------------------------
  // The searcher

  /** A searcher over one components table, given by its column names and rows; the connection is never changed. */
  class ComponentSearch {
    const columns: set<string>
    const table: seq<Row>
    const loads: Loads
    const floatRepr: real -> string

    constructor (columns: set<string>, table: seq<Row>, loads: Loads, floatRepr: real -> string)
      ensures this.columns == columns && this.table == table && this.loads == loads && this.floatRepr == floatRepr
    {
      this.columns := columns;
      this.table := table;
      this.loads := loads;
      this.floatRepr := floatRepr;
    }

    /**
     * `search`: build the statement, let the engine prepare and run it, hydrate the rows in order.
     * The engine's errors propagate; a row that fails to convert is skipped.
     */
    method Search(p: QueryParams) returns (r: Result<seq<Component>, PyError>)
      ensures r == SearchResult(p, columns, table, loads, floatRepr)
      ensures FirstMissing(StatementColumns(p), columns).Some? ==>
        r == Err(SqliteOperationalError("no such column: " + FirstMissing(StatementColumns(p), columns).value))
      ensures r.Ok? <==> (forall n :: n in StatementColumns(p) ==> n in columns) && !MalformedPriceSelected(p, table, loads)
      ensures r.Ok? ==> r.value == HydrateAll(Selected(p, table, loads), loads, floatRepr)
    {
      var query, args := BuildQuery(p);
      // Preparing `query`: every column it names must exist.
      var missing := FirstMissing(StatementColumns(p), columns);
      if missing.Some? {
        return Err(SqliteOperationalError("no such column: " + missing.value));
      }
      // Running it: the rows past the WHERE clause, each with its ORDER BY key.
      var matched := Filter(p, table, loads);
      if exists row :: row in matched && MalformedJson(Col(row, "price"), loads) {
        return Err(SqliteOperationalError("malformed JSON"));
      }
      var rows := Take(Sorting.SortBy(matched, RowOrder(loads)), p.limit);
      var components := Hydrate(rows);
      r := Ok(components);
    }

    /** `[Component.from_db_row(row) for row in rows]`, a row that fails to convert contributing nothing. */
    method Hydrate(rows: seq<Row>) returns (components: seq<Component>)
      ensures components == HydrateAll(rows, loads, floatRepr)
    {
      components := [];
      for i := 0 to |rows|
        invariant components == HydrateAll(rows[..i], loads, floatRepr)
      {
        var r := FromDbRow(rows[i], loads, floatRepr);
        HydrateStep(rows, i, loads, floatRepr, r);
        components := components + if r.Ok? then [r.value] else [];
      }
      assert rows[..|rows|] == rows;
    }

    /** `search_by_category`: the other parameters keep their defaults, in-stock only among them. */
    method SearchByCategory(category: string, limit: int, basicOnly: bool) returns (r: Result<seq<Component>, PyError>)
      ensures r == SearchResult(CategoryParams(category, limit, basicOnly), columns, table, loads, floatRepr)
      ensures category != "" && "category" !in columns ==> r.Err?
    {
      r := Search(CategoryParams(category, limit, basicOnly));
      if category != "" && "category" !in columns {
        CategoryWithoutColumnRaises(CategoryParams(category, limit, basicOnly), columns, table, loads, floatRepr);
      }
    }

    /** `search_by_lcsc` as written: the identifier is bound unchanged. */
    method SearchByLcsc(lcscId: string) returns (r: Result<Option<Component>, PyError>)
      ensures r == LcscLookup(columns, table, loads, floatRepr, lcscId)
      ensures "lcsc" !in columns ==> r == Err(NoKeyColumn)
      ensures "lcsc" in columns && (forall i :: 0 <= i < |table| ==> !KeyMatches(table[i], lcscId)) ==> r == Ok(None)
      ensures forall i :: "lcsc" in columns && 0 <= i < |table| && KeyMatches(table[i], lcscId)
                && (forall j :: 0 <= j < i ==> !KeyMatches(table[j], lcscId))
                ==> r == Found(FromDbRow(table[i], loads, floatRepr))
    {
      if "lcsc" !in columns {
        return Err(NoKeyColumn);
      }
      var k := FirstMatch(table, row => KeyMatches(row, lcscId));
      forall i | 0 <= i < |table| && KeyMatches(table[i], lcscId) && (forall j :: 0 <= j < i ==> !KeyMatches(table[j], lcscId))
        ensures k == Some(i)
      {
        FirstMatchIsFirst(table, row => KeyMatches(row, lcscId), i);
      }
      if k.None? {
        r := Ok(None);
      } else {
        r := Found(FromDbRow(table[k.value], loads, floatRepr));
      }
    }

    /** The lookup corrected: a "C"-prefixed identifier also matches its bare digits. */
    method SearchByLcscEither(lcscId: string) returns (r: Result<Option<Component>, PyError>)
      ensures r == LcscLookupEither(columns, table, loads, floatRepr, lcscId)
      ensures "lcsc" !in columns ==> r == Err(NoKeyColumn)
      ensures "lcsc" in columns && (forall i :: 0 <= i < |table| ==> !KeyMatchesEither(table[i], lcscId)) ==> r == Ok(None)
      ensures forall i :: "lcsc" in columns && 0 <= i < |table| && KeyMatchesEither(table[i], lcscId)
                && (forall j :: 0 <= j < i ==> !KeyMatchesEither(table[j], lcscId))
                ==> r == Found(FromDbRow(table[i], loads, floatRepr))
    {
      if "lcsc" !in columns {
        return Err(NoKeyColumn);
      }
      var k := FirstMatch(table, row => KeyMatchesEither(row, lcscId));
      forall i | 0 <= i < |table| && KeyMatchesEither(table[i], lcscId) && (forall j :: 0 <= j < i ==> !KeyMatchesEither(table[j], lcscId))
        ensures k == Some(i)
      {
        FirstMatchIsFirst(table, row => KeyMatchesEither(row, lcscId), i);
      }
      if k.None? {
        r := Ok(None);
      } else {
        r := Found(FromDbRow(table[k.value], loads, floatRepr));
      }
    }
  }

  /** The parameters `search_by_category` passes. */
  function CategoryParams(category: string, limit: int, basicOnly: bool): QueryParams {
    Defaults.(category := Some(category), limit := limit, basicOnly := basicOnly)
  }

  /** A category search filters on the category (when non-empty), basic parts if asked, and stock above zero. */
  lemma CategorySearchClauses(category: string, limit: int, basicOnly: bool)
    ensures Clauses(CategoryParams(category, limit, basicOnly))
      == Opt(category != "", CategoryIs(category)) + Opt(basicOnly, BasicOnly) + [InStock]
  {
  }
}
