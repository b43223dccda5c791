/** Query composition of the product repository: the filtered search, the
    allow-listed sort and the limit/offset page, each producing statement
    text plus positional arguments for its `?` placeholders. */
module ProductQuery {
  import opened Common

  /** A positional argument bound to a `?` placeholder. */
  datatype Arg = Text(s: string) | Int(n: int)

  /** A statement text together with its positional arguments. */
  datatype Query = Query(text: string, args: seq<Arg>)

  /** products.ProductSearchParams, as the search handler fills it. */
  datatype SearchParams = SearchParams(
    brandName: string,
    productName: string,
    variantName: string,
    status: string,
    sortBy: string,
    page: int,
    pageSize: int)

  // ---------------------------------------------------------------------
  // Statement text and its placeholders

  /** The concatenation of text fragments. */
  function Concat(fs: seq<string>): string
  {
    if fs == [] then [] else fs[0] + Concat(fs[1..])
  }

  /** The number of `?` placeholders in a statement text. */
  function Placeholders(s: string): nat
  {
    if s == [] then 0 else (if s[0] == '?' then 1 else 0) + Placeholders(s[1..])
  }

  lemma {:induction false} PlaceholdersAppend(a: string, b: string)
    ensures Placeholders(a + b) == Placeholders(a) + Placeholders(b)
  {
    if a == [] {
      assert a + b == b;
    } else {
      assert (a + b)[0] == a[0];
      assert (a + b)[1..] == a[1..] + b;
      PlaceholdersAppend(a[1..], b);
    }
  }

  /** A text in which no character is a `?`. */
  ghost predicate PlaceholderFree(s: string)
  {
    forall i | 0 <= i < |s| :: s[i] != '?'
  }

  lemma {:induction false} NoPlaceholders(s: string)
    requires PlaceholderFree(s)
    ensures Placeholders(s) == 0
  {
    if s != [] {
      assert s[0] != '?';
      assert PlaceholderFree(s[1..]) by {
        forall i | 0 <= i < |s[1..]| ensures s[1..][i] != '?' {
          assert s[1..][i] == s[i + 1];
        }
      }
      NoPlaceholders(s[1..]);
    }
  }

  /** Fragments none of which holds a `?` give a text without placeholders. */
  lemma {:induction false} ConcatNoPlaceholders(fs: seq<string>)
    requires forall k | 0 <= k < |fs| :: PlaceholderFree(fs[k])
    ensures Placeholders(Concat(fs)) == 0
  {
    if fs != [] {
      NoPlaceholders(fs[0]);
      ConcatNoPlaceholders(fs[1..]);
      PlaceholdersAppend(fs[0], Concat(fs[1..]));
    }
  }

  // ---------------------------------------------------------------------
  // Fixed statement texts (products_repository.go). They are kept as short
  // fragments so that facts about their characters stay cheap to check;
  // their concatenation is the literal text of the source.

  /** The start of the search statement, up to and including `WHERE 1 = 1`. */
  const SearchBasePart1: seq<string> := [
    "\n",
    "\t\tSELECT\n",
    "\t\t\tb.brandName,\n",
    "\t\t\tp.productName,\n",
    "\t\t\tv.variantName,\n",
    "\t\t\ti.imageUrl,\n"
  ]

  const SearchBasePart2: seq<string> := [
    "\t\t\tv.price,\n",
    "\t\t\tq.quantity AS",
    " stock,\n",
    "\t\t\tq.status,\n",
    "\t\t\tp.updatedBy\n",
    "\t\tFROM products p\n"
  ]

  const SearchBasePart3: seq<string> := [
    "\t\tJOIN variants v ON",
    " p.variantId =",
    " v.variantId\n",
    "\t\tJOIN brands b ON",
    " v.brandId =",
    " b.brandId\n"
  ]

  const SearchBasePart4: seq<string> := [
    "\t\tLEFT JOIN images i",
    " ON p.productId =",
    " i.productId\n",
    "\t\tLEFT JOIN (\n",
    "\t\t\tSELECT\n",
    "\t\t\t\tproductId,\n"
  ]

  const SearchBasePart5: seq<string> := [
    "\t\t\t\tSUM(quantity) AS",
    " quantity,\n",
    "\t\t\t\tstatus\n",
    "\t\t\tFROM quantity\n",
    "\t\t\tGROUP BY",
    " productId, status\n"
  ]

  const SearchBasePart6: seq<string> := [
    "\t\t) q ON p.productId",
    " = q.productId AND",
    " q.status =",
    " 'in_stock'\n",
    "\t\tWHERE 1 = 1\n",
    "\t"
  ]

  const SearchBase: string :=
    Concat(SearchBasePart1)
    + Concat(SearchBasePart2)
    + Concat(SearchBasePart3)
    + Concat(SearchBasePart4)
    + Concat(SearchBasePart5)
    + Concat(SearchBasePart6)

  /** The fixed tail of the search statement. */
  const SearchOrderByFragments: seq<string> := ["ORDER BY p.createdAt", " DESC, q.quantity DESC"]

  const SearchOrderBy: string := Concat(SearchOrderByFragments)

  /** productQueries.selectProducts, the statement that sort and pagination extend. */
  const SelectProductsPart1: seq<string> := [
    "SELECT\n",
    "    b.brandName,\n",
    "    p.productName,\n",
    "    v.variantName,\n",
    "    i.imageUrl,\n",
    "    v.price,\n"
  ]

  const SelectProductsPart2: seq<string> := [
    "    q.quantity AS",
    " stock,\n",
    "    p.status,\n",
    "    p.updatedBy\n",
    "FROM products p\n",
    "JOIN variants v ON"
  ]

  const SelectProductsPart3: seq<string> := [
    " p.variantId =",
    " v.variantId\n",
    "JOIN brands b ON",
    " v.brandId =",
    " b.brandId\n",
    "LEFT JOIN images i ON"
  ]

  const SelectProductsPart4: seq<string> := [
    " p.productId =",
    " i.productId\n",
    "LEFT JOIN (\n",
    "    SELECT\n",
    "        productId,\n",
    "        SUM(quantity)"
  ]

  const SelectProductsPart5: seq<string> := [
    " AS quantity,\n",
    "        status\n",
    "    FROM quantity\n",
    "    GROUP BY",
    " productId, status\n",
    ") q ON p.productId ="
  ]

  const SelectProductsPart6: seq<string> := [
    " q.productId AND",
    " q.status =",
    " 'in_stock'\n",
    "WHERE\n",
    "    (:brandName IS",
    " NULL OR b.brandName"
  ]

  const SelectProductsPart7: seq<string> := [
    " LIKE CONCAT('%',",
    " :brandName, '%'))\n",
    "    AND (:productName",
    " IS NULL OR",
    " p.productName LIKE",
    " CONCAT('%',"
  ]

  const SelectProductsPart8: seq<string> := [
    " :productName, '%'))\n",
    "    AND (:variantName",
    " IS NULL OR",
    " v.variantName LIKE",
    " CONCAT('%',",
    " :variantName, '%'))\n"
  ]

  const SelectProductsPart9: seq<string> := [
    "ORDER BY\n",
    "    p.createdAt DESC,",
    " q.quantity DESC;"
  ]

  const SelectProducts: string :=
    Concat(SelectProductsPart1)
    + Concat(SelectProductsPart2)
    + Concat(SelectProductsPart3)
    + Concat(SelectProductsPart4)
    + Concat(SelectProductsPart5)
    + Concat(SelectProductsPart6)
    + Concat(SelectProductsPart7)
    + Concat(SelectProductsPart8)
    + Concat(SelectProductsPart9)

  // The fixed texts hold no placeholder of their own: each part is checked
  // fragment by fragment, then the parts are joined.

  lemma JoinNoPlaceholders(a: string, b: string)
    requires Placeholders(a) == 0 && Placeholders(b) == 0
    ensures Placeholders(a + b) == 0
  {
    PlaceholdersAppend(a, b);
  }

  lemma SearchBasePart1HasNoPlaceholders()
    ensures Placeholders(Concat(SearchBasePart1)) == 0
  {
    assert forall k | 0 <= k < |SearchBasePart1| :: PlaceholderFree(SearchBasePart1[k]);
    ConcatNoPlaceholders(SearchBasePart1);
  }

  lemma SearchBasePart2HasNoPlaceholders()
    ensures Placeholders(Concat(SearchBasePart2)) == 0
  {
    assert forall k | 0 <= k < |SearchBasePart2| :: PlaceholderFree(SearchBasePart2[k]);
    ConcatNoPlaceholders(SearchBasePart2);
  }

  lemma SearchBasePart3HasNoPlaceholders()
    ensures Placeholders(Concat(SearchBasePart3)) == 0
  {
    assert forall k | 0 <= k < |SearchBasePart3| :: PlaceholderFree(SearchBasePart3[k]);
    ConcatNoPlaceholders(SearchBasePart3);
  }

  lemma SearchBasePart4HasNoPlaceholders()
    ensures Placeholders(Concat(SearchBasePart4)) == 0
  {
    assert forall k | 0 <= k < |SearchBasePart4| :: PlaceholderFree(SearchBasePart4[k]);
    ConcatNoPlaceholders(SearchBasePart4);
  }

  lemma SearchBasePart5HasNoPlaceholders()
    ensures Placeholders(Concat(SearchBasePart5)) == 0
  {
    assert forall k | 0 <= k < |SearchBasePart5| :: PlaceholderFree(SearchBasePart5[k]);
    ConcatNoPlaceholders(SearchBasePart5);
  }

  lemma SearchBasePart6HasNoPlaceholders()
    ensures Placeholders(Concat(SearchBasePart6)) == 0
  {
    assert forall k | 0 <= k < |SearchBasePart6| :: PlaceholderFree(SearchBasePart6[k]);
    ConcatNoPlaceholders(SearchBasePart6);
  }

  lemma SearchBaseHasNoPlaceholders()
    ensures Placeholders(SearchBase) == 0
  {
    SearchBasePart1HasNoPlaceholders();
    SearchBasePart2HasNoPlaceholders();
    SearchBasePart3HasNoPlaceholders();
    SearchBasePart4HasNoPlaceholders();
    SearchBasePart5HasNoPlaceholders();
    SearchBasePart6HasNoPlaceholders();
    JoinNoPlaceholders(Concat(SearchBasePart1), Concat(SearchBasePart2));
    JoinNoPlaceholders(Concat(SearchBasePart1) + Concat(SearchBasePart2), Concat(SearchBasePart3));
    JoinNoPlaceholders(Concat(SearchBasePart1) + Concat(SearchBasePart2) + Concat(SearchBasePart3), Concat(SearchBasePart4));
    JoinNoPlaceholders(Concat(SearchBasePart1) + Concat(SearchBasePart2) + Concat(SearchBasePart3) + Concat(SearchBasePart4), Concat(SearchBasePart5));
    JoinNoPlaceholders(Concat(SearchBasePart1) + Concat(SearchBasePart2) + Concat(SearchBasePart3) + Concat(SearchBasePart4) + Concat(SearchBasePart5), Concat(SearchBasePart6));
  }

  lemma SearchOrderByHasNoPlaceholders()
    ensures Placeholders(SearchOrderBy) == 0
  {
    assert forall k | 0 <= k < |SearchOrderByFragments| :: PlaceholderFree(SearchOrderByFragments[k]);
    ConcatNoPlaceholders(SearchOrderByFragments);
  }

  lemma SelectProductsPart1HasNoPlaceholders()
    ensures Placeholders(Concat(SelectProductsPart1)) == 0
  {
    assert forall k | 0 <= k < |SelectProductsPart1| :: PlaceholderFree(SelectProductsPart1[k]);
    ConcatNoPlaceholders(SelectProductsPart1);
  }

  lemma SelectProductsPart2HasNoPlaceholders()
    ensures Placeholders(Concat(SelectProductsPart2)) == 0
  {
    assert forall k | 0 <= k < |SelectProductsPart2| :: PlaceholderFree(SelectProductsPart2[k]);
    ConcatNoPlaceholders(SelectProductsPart2);
  }

  lemma SelectProductsPart3HasNoPlaceholders()
    ensures Placeholders(Concat(SelectProductsPart3)) == 0
  {
    assert forall k | 0 <= k < |SelectProductsPart3| :: PlaceholderFree(SelectProductsPart3[k]);
    ConcatNoPlaceholders(SelectProductsPart3);
  }

  lemma SelectProductsPart4HasNoPlaceholders()
    ensures Placeholders(Concat(SelectProductsPart4)) == 0
  {
    assert forall k | 0 <= k < |SelectProductsPart4| :: PlaceholderFree(SelectProductsPart4[k]);
    ConcatNoPlaceholders(SelectProductsPart4);
  }

  lemma SelectProductsPart5HasNoPlaceholders()
    ensures Placeholders(Concat(SelectProductsPart5)) == 0
  {
    assert forall k | 0 <= k < |SelectProductsPart5| :: PlaceholderFree(SelectProductsPart5[k]);
    ConcatNoPlaceholders(SelectProductsPart5);
  }

  lemma SelectProductsPart6HasNoPlaceholders()
    ensures Placeholders(Concat(SelectProductsPart6)) == 0
  {
    assert forall k | 0 <= k < |SelectProductsPart6| :: PlaceholderFree(SelectProductsPart6[k]);
    ConcatNoPlaceholders(SelectProductsPart6);
  }

  lemma SelectProductsPart7HasNoPlaceholders()
    ensures Placeholders(Concat(SelectProductsPart7)) == 0
  {
    assert forall k | 0 <= k < |SelectProductsPart7| :: PlaceholderFree(SelectProductsPart7[k]);
    ConcatNoPlaceholders(SelectProductsPart7);
  }

  lemma SelectProductsPart8HasNoPlaceholders()
    ensures Placeholders(Concat(SelectProductsPart8)) == 0
  {
    assert forall k | 0 <= k < |SelectProductsPart8| :: PlaceholderFree(SelectProductsPart8[k]);
    ConcatNoPlaceholders(SelectProductsPart8);
  }

  lemma SelectProductsPart9HasNoPlaceholders()
    ensures Placeholders(Concat(SelectProductsPart9)) == 0
  {
    assert forall k | 0 <= k < |SelectProductsPart9| :: PlaceholderFree(SelectProductsPart9[k]);
    ConcatNoPlaceholders(SelectProductsPart9);
  }

  lemma SelectProductsHasNoPlaceholders()
    ensures Placeholders(SelectProducts) == 0
  {
    SelectProductsPart1HasNoPlaceholders();
    SelectProductsPart2HasNoPlaceholders();
    SelectProductsPart3HasNoPlaceholders();
    SelectProductsPart4HasNoPlaceholders();
    SelectProductsPart5HasNoPlaceholders();
    SelectProductsPart6HasNoPlaceholders();
    SelectProductsPart7HasNoPlaceholders();
    SelectProductsPart8HasNoPlaceholders();
    SelectProductsPart9HasNoPlaceholders();
    JoinNoPlaceholders(Concat(SelectProductsPart1), Concat(SelectProductsPart2));
    JoinNoPlaceholders(Concat(SelectProductsPart1) + Concat(SelectProductsPart2), Concat(SelectProductsPart3));
    JoinNoPlaceholders(Concat(SelectProductsPart1) + Concat(SelectProductsPart2) + Concat(SelectProductsPart3), Concat(SelectProductsPart4));
    JoinNoPlaceholders(Concat(SelectProductsPart1) + Concat(SelectProductsPart2) + Concat(SelectProductsPart3) + Concat(SelectProductsPart4), Concat(SelectProductsPart5));
    JoinNoPlaceholders(Concat(SelectProductsPart1) + Concat(SelectProductsPart2) + Concat(SelectProductsPart3) + Concat(SelectProductsPart4) + Concat(SelectProductsPart5), Concat(SelectProductsPart6));
    JoinNoPlaceholders(Concat(SelectProductsPart1) + Concat(SelectProductsPart2) + Concat(SelectProductsPart3) + Concat(SelectProductsPart4) + Concat(SelectProductsPart5) + Concat(SelectProductsPart6), Concat(SelectProductsPart7));
    JoinNoPlaceholders(Concat(SelectProductsPart1) + Concat(SelectProductsPart2) + Concat(SelectProductsPart3) + Concat(SelectProductsPart4) + Concat(SelectProductsPart5) + Concat(SelectProductsPart6) + Concat(SelectProductsPart7), Concat(SelectProductsPart8));
    JoinNoPlaceholders(Concat(SelectProductsPart1) + Concat(SelectProductsPart2) + Concat(SelectProductsPart3) + Concat(SelectProductsPart4) + Concat(SelectProductsPart5) + Concat(SelectProductsPart6) + Concat(SelectProductsPart7) + Concat(SelectProductsPart8), Concat(SelectProductsPart9));
  }

  // ---------------------------------------------------------------------
  // SearchProducts

  /** The four filters, in the order the search tests them. */
  datatype Filter = BrandFilter | ProductFilter | VariantFilter | StatusFilter

  const FilterOrder: seq<Filter> := [BrandFilter, ProductFilter, VariantFilter, StatusFilter]

  /** The position of a filter in FilterOrder. */
  function Rank(f: Filter): nat
  {
    match f
    case BrandFilter => 0
    case ProductFilter => 1
    case VariantFilter => 2
    case StatusFilter => 3
  }

  /** The request value a filter reads. */
  function Value(p: SearchParams, f: Filter): string
  {
    match f
    case BrandFilter => p.brandName
    case ProductFilter => p.productName
    case VariantFilter => p.variantName
    case StatusFilter => p.status
  }

  /** The clause text before a filter's placeholder. */
  function ClauseHead(f: Filter): string
  {
    match f
    case BrandFilter => "AND b.brandName LIKE "
    case ProductFilter => "AND p.productName LIKE "
    case VariantFilter => "AND v.variantName LIKE "
    case StatusFilter => "AND q.status = "
  }

  /** The clause a non-empty filter appends: its head, one `?`, a space. */
  function Clause(f: Filter): string
  {
    ClauseHead(f) + "? "
  }

  /** The argument a non-empty filter binds: the three name filters are
      substring matches, so their value is wrapped in `%`; the status is
      compared with `=` and passed verbatim. */
  function Bound(p: SearchParams, f: Filter): Arg
  {
    if f == StatusFilter then Text(Value(p, f)) else Text("%" + Value(p, f) + "%")
  }

  /** The filters of `fs` whose request value is non-empty, in the order of `fs`. */
  function Active(p: SearchParams, fs: seq<Filter>): seq<Filter>
  {
    if fs == [] then []
    else (if Value(p, fs[0]) != "" then [fs[0]] else []) + Active(p, fs[1..])
  }

  function Clauses(fs: seq<Filter>): string
  {
    if fs == [] then [] else Clause(fs[0]) + Clauses(fs[1..])
  }

  function Bind(p: SearchParams, fs: seq<Filter>): (r: seq<Arg>)
    ensures |r| == |fs|
  {
    if fs == [] then [] else [Bound(p, fs[0])] + Bind(p, fs[1..])
  }

  /** The search statement between a start text `base` and a closing text
      `order`: the clauses of the non-empty filters in the fixed order, and
      the filters' bound values in the same order. The properties of the
      search are proved for every such frame. */
  function FramedSearch(p: SearchParams, base: string, order: string): Query
  {
    var fs := Active(p, FilterOrder);
    Query(base + Clauses(fs) + order, Bind(p, fs))
  }

  /** What SearchProducts sends to the database, stated declaratively: the
      search framed by the fixed start and the fixed ORDER BY. */
  function SearchQuery(p: SearchParams): Query
  {
    FramedSearch(p, SearchBase, SearchOrderBy)
  }

  lemma {:induction false} ActiveAppend(p: SearchParams, a: seq<Filter>, b: seq<Filter>)
    ensures Active(p, a + b) == Active(p, a) + Active(p, b)
  {
    if a == [] {
      assert a + b == b;
    } else {
      assert (a + b)[0] == a[0];
      assert (a + b)[1..] == a[1..] + b;
      ActiveAppend(p, a[1..], b);
    }
  }

  lemma {:induction false} ClausesAppend(a: seq<Filter>, b: seq<Filter>)
    ensures Clauses(a + b) == Clauses(a) + Clauses(b)
  {
    if a == [] {
      assert a + b == b;
    } else {
      assert (a + b)[0] == a[0];
      assert (a + b)[1..] == a[1..] + b;
      ClausesAppend(a[1..], b);
    }
  }

  lemma {:induction false} BindAppend(p: SearchParams, a: seq<Filter>, b: seq<Filter>)
    ensures Bind(p, a + b) == Bind(p, a) + Bind(p, b)
  {
    if a == [] {
      assert a + b == b;
    } else {
      assert (a + b)[0] == a[0];
      assert (a + b)[1..] == a[1..] + b;
      BindAppend(p, a[1..], b);
    }
  }

  // Sequence facts stated once as small lemmas, so that the proof
  // obligations of their callers stay small.

  lemma AppendEmpty(s: string)
    ensures s + [] == s
  {
  }

  lemma AppendAssoc(a: string, b: string, c: string)
    ensures a + b + c == a + (b + c)
  {
  }

  /** The filter `f` as a list of zero or one active filters. */
  function Pick(p: SearchParams, f: Filter): seq<Filter>
  {
    if Value(p, f) != "" then [f] else []
  }

  /** The active filters of the fixed order, one test per filter, as the
      search performs them. */
  lemma {:induction false} ActiveInFixedOrder(p: SearchParams)
    ensures Active(p, FilterOrder)
         == [] + Pick(p, BrandFilter) + Pick(p, ProductFilter) + Pick(p, VariantFilter) + Pick(p, StatusFilter)
  {
    var s0 := FilterOrder;
    var s1 := [ProductFilter, VariantFilter, StatusFilter];
    var s2 := [VariantFilter, StatusFilter];
    var s3 := [StatusFilter];
    assert s0[1..] == s1 && s1[1..] == s2 && s2[1..] == s3 && s3[1..] == [];
    var a, b, c, d := Pick(p, BrandFilter), Pick(p, ProductFilter), Pick(p, VariantFilter), Pick(p, StatusFilter);
    assert Active(p, s3) == d + [] == d;
    assert Active(p, s2) == c + d;
    assert Active(p, s1) == b + (c + d);
    assert Active(p, s0) == a + (b + (c + d));
    Regroup(a, b, c, d);
  }

  lemma Regroup(a: seq<Filter>, b: seq<Filter>, c: seq<Filter>, d: seq<Filter>)
    ensures a + (b + (c + d)) == [] + a + b + c + d
  {
    assert [] + a == a;
  }

  /** The search state: the text is `base` followed by the clauses of the
      filters applied so far, the arguments their bound values. */
  ghost predicate Built(p: SearchParams, done: seq<Filter>, base: string, query: string, args: seq<Arg>)
  {
    query == base + Clauses(done) && args == Bind(p, done)
  }

  /** One filter step: a non-empty filter appends its clause and its bound
      value, an empty one appends nothing. */
  lemma BuiltStep(p: SearchParams, done: seq<Filter>, f: Filter, base: string, query: string, args: seq<Arg>)
    requires Built(p, done, base, query, args)
    ensures Value(p, f) != "" ==> Built(p, done + Pick(p, f), base, query + Clause(f), args + [Bound(p, f)])
    ensures Value(p, f) == "" ==> Built(p, done + Pick(p, f), base, query, args)
  {
    if Value(p, f) != "" {
      ClausesAppend(done, [f]);
      BindAppend(p, done, [f]);
      assert [f][1..] == [];
      AppendEmpty(Clause(f));
      AppendAssoc(base, Clauses(done), Clause(f));
    } else {
      assert done + [] == done;
    }
  }

  lemma ClauseTexts()
    ensures Clause(BrandFilter) == "AND b.brandName LIKE ? "
    ensures Clause(ProductFilter) == "AND p.productName LIKE ? "
    ensures Clause(VariantFilter) == "AND v.variantName LIKE ? "
    ensures Clause(StatusFilter) == "AND q.status = ? "
  {
  }

  /** The four filter steps of SearchProducts, applied to the statement
      text `base` built so far: each non-empty filter appends its clause with
      `+=` and its bound value with `append`. */
  method AppendFilters(params: SearchParams, base: string) returns (query: string, args: seq<Arg>)
    ensures var fs := Active(params, FilterOrder);
            query == base + Clauses(fs) && args == Bind(params, fs)
  {
    ClauseTexts();
    query := base;
    args := [];
    ghost var done: seq<Filter> := [];
    AppendEmpty(query);
    BuiltStep(params, done, BrandFilter, base, query, args);
    if params.brandName != "" {
      query := query + "AND b.brandName LIKE ? ";
      args := args + [Text("%" + params.brandName + "%")];
    }
    done := done + Pick(params, BrandFilter);
    BuiltStep(params, done, ProductFilter, base, query, args);
    if params.productName != "" {
      query := query + "AND p.productName LIKE ? ";
      args := args + [Text("%" + params.productName + "%")];
    }
    done := done + Pick(params, ProductFilter);
    BuiltStep(params, done, VariantFilter, base, query, args);
    if params.variantName != "" {
      query := query + "AND v.variantName LIKE ? ";
      args := args + [Text("%" + params.variantName + "%")];
    }
    done := done + Pick(params, VariantFilter);
    BuiltStep(params, done, StatusFilter, base, query, args);
    if params.status != "" {
      query := query + "AND q.status = ? ";
      args := args + [Text(params.status)];
    }
    done := done + Pick(params, StatusFilter);
    ActiveInFixedOrder(params);
  }

  /** SearchProducts: the fixed start, the filter steps, the fixed ORDER BY.
      The result is the declarative SearchQuery, with as many placeholders as
      arguments. */
  method SearchProducts(params: SearchParams) returns (query: string, args: seq<Arg>)
    ensures Query(query, args) == SearchQuery(params)
    ensures Placeholders(query) == |args|
  {
    query, args := AppendFilters(params, SearchBase);
    query := query + SearchOrderBy;
    SearchPlaceholdersMatchArgs(params);
  }

  /** Every clause holds exactly one placeholder. */
  lemma ClausePlaceholder(f: Filter)
    ensures Placeholders(Clause(f)) == 1
  {
    assert PlaceholderFree(ClauseHead(f));
    NoPlaceholders(ClauseHead(f));
    PlaceholdersAppend(ClauseHead(f), "? ");
    assert "? "[0] == '?' && "? "[1..] == " ";
    assert " "[1..] == [];
  }

  lemma {:induction false} ClausesPlaceholders(fs: seq<Filter>)
    ensures Placeholders(Clauses(fs)) == |fs|
  {
    if fs != [] {
      ClausePlaceholder(fs[0]);
      ClausesPlaceholders(fs[1..]);
      PlaceholdersAppend(Clause(fs[0]), Clauses(fs[1..]));
    }
  }

  lemma {:induction false} BindAt(p: SearchParams, fs: seq<Filter>, i: nat)
    requires i < |fs|
    ensures Bind(p, fs)[i] == Bound(p, fs[i])
  {
    if i > 0 {
      BindAt(p, fs[1..], i - 1);
    }
  }

  /** Clauses between two placeholder-free texts: one placeholder each. */
  lemma FramedClausesPlaceholders(base: string, fs: seq<Filter>, order: string)
    requires Placeholders(base) == 0 && Placeholders(order) == 0
    ensures Placeholders(base + Clauses(fs) + order) == |fs|
  {
    ClausesPlaceholders(fs);
    PlaceholdersAppend(base, Clauses(fs));
    PlaceholdersAppend(base + Clauses(fs), order);
  }

  /** Placeholders and arguments stay aligned: the search text holds exactly
      as many `?` as there are arguments. */
  lemma SearchPlaceholdersMatchArgs(p: SearchParams)
    ensures Placeholders(SearchQuery(p).text) == |SearchQuery(p).args|
  {
    var fs := Active(p, FilterOrder);
    SearchBaseHasNoPlaceholders();
    SearchOrderByHasNoPlaceholders();
    FramedClausesPlaceholders(SearchBase, fs, SearchOrderBy);
  }

  lemma SplitAt(fs: seq<Filter>, i: nat)
    requires i < |fs|
    ensures fs == fs[..i] + [fs[i]] + fs[i + 1..]
  {
  }

  lemma ClausesSingle(f: Filter)
    ensures Clauses([f]) == Clause(f)
  {
    assert [f][1..] == [];
    AppendEmpty(Clause(f));
  }

  lemma ClausesSplit(fs: seq<Filter>, i: nat)
    requires i < |fs|
    ensures Clauses(fs) == Clauses(fs[..i]) + Clause(fs[i]) + Clauses(fs[i + 1..])
  {
    var a, x, b := fs[..i], fs[i], fs[i + 1..];
    SplitAt(fs, i);
    ClausesAppend(a + [x], b);
    ClausesAppend(a, [x]);
    ClausesSingle(x);
  }

  /** The framed clause text split around its i-th clause. */
  lemma FramedClausesSplit(base: string, fs: seq<Filter>, order: string, i: nat)
    requires i < |fs| && Placeholders(base) == 0
    ensures var prefix := base + Clauses(fs[..i]);
            && Placeholders(prefix) == i
            && base + Clauses(fs) + order == prefix + Clause(fs[i]) + (Clauses(fs[i + 1..]) + order)
  {
    ClausesSplit(fs, i);
    var b, c, d := Clauses(fs[..i]), Clause(fs[i]), Clauses(fs[i + 1..]);
    AppendAssoc(base, b + c, d);
    AppendAssoc(base, b, c);
    AppendAssoc(base + b + c, d, order);
    ClausesPlaceholders(fs[..i]);
    PlaceholdersAppend(base, b);
  }

  /** The i-th argument belongs to the i-th placeholder: for any start text
      without placeholders (SearchBase is one), the statement is a prefix
      holding exactly i placeholders, then the clause of the i-th active
      filter, then the rest; and argument i is that filter's bound value
      (the `%`-wrapped name, or the verbatim status). */
  lemma SearchArgumentAligned(p: SearchParams, base: string, order: string, i: nat)
    requires Placeholders(base) == 0
    requires i < |FramedSearch(p, base, order).args|
    ensures var fs := Active(p, FilterOrder);
            var prefix := base + Clauses(fs[..i]);
            && i < |fs|
            && Placeholders(prefix) == i
            && FramedSearch(p, base, order).text == prefix + Clause(fs[i]) + (Clauses(fs[i + 1..]) + order)
            && FramedSearch(p, base, order).args[i] == Bound(p, fs[i])
  {
    var fs := Active(p, FilterOrder);
    BindAt(p, fs, i);
    FramedClausesSplit(base, fs, order, i);
  }

  lemma {:induction false} ActiveMembers(p: SearchParams, fs: seq<Filter>, f: Filter)
    ensures f in Active(p, fs) <==> f in fs && Value(p, f) != ""
  {
    if fs != [] {
      ActiveMembers(p, fs[1..], f);
      assert f in fs <==> f == fs[0] || f in fs[1..];
    }
  }

  lemma {:induction false} ActiveKeepsOrder(p: SearchParams, fs: seq<Filter>)
    requires forall i, j :: 0 <= i < j < |fs| ==> Rank(fs[i]) < Rank(fs[j])
    ensures var a := Active(p, fs); forall i, j :: 0 <= i < j < |a| ==> Rank(a[i]) < Rank(a[j])
  {
    if fs != [] {
      ActiveKeepsOrder(p, fs[1..]);
      var rest := Active(p, fs[1..]);
      forall j | 0 <= j < |rest| ensures Rank(fs[0]) < Rank(rest[j]) {
        ActiveMembers(p, fs[1..], rest[j]);
        var k :| 0 <= k < |fs[1..]| && fs[1..][k] == rest[j];
        assert fs[k + 1] == rest[j];
      }
    }
  }

  /** One clause per non-empty filter and none for an empty one, in the fixed
      order brand, product, variant, status. */
  lemma SearchClausesInFixedOrder(p: SearchParams)
    ensures var fs := Active(p, FilterOrder);
            && (forall f :: f in fs <==> Value(p, f) != "")
            && (forall i, j :: 0 <= i < j < |fs| ==> Rank(fs[i]) < Rank(fs[j]))
  {
    forall f ensures f in Active(p, FilterOrder) <==> Value(p, f) != "" {
      ActiveMembers(p, FilterOrder, f);
      assert FilterOrder[Rank(f)] == f;
    }
    ActiveKeepsOrder(p, FilterOrder);
  }

  lemma {:induction false} ActiveDependsOnEmptiness(p1: SearchParams, p2: SearchParams, fs: seq<Filter>)
    requires forall f :: (Value(p1, f) == "") == (Value(p2, f) == "")
    ensures Active(p1, fs) == Active(p2, fs)
  {
    if fs != [] {
      ActiveDependsOnEmptiness(p1, p2, fs[1..]);
    }
  }

  /** User text never reaches the statement text: two requests whose filters
      are empty in the same places give the same text, whatever the filter
      values, sort key and page say. */
  lemma SearchTextDependsOnlyOnEmptiness(p1: SearchParams, p2: SearchParams, base: string, order: string)
    requires forall f :: (Value(p1, f) == "") == (Value(p2, f) == "")
    ensures FramedSearch(p1, base, order).text == FramedSearch(p2, base, order).text
  {
    ActiveDependsOnEmptiness(p1, p2, FilterOrder);
  }

  lemma {:induction false} BindDependsOnValues(p1: SearchParams, p2: SearchParams, fs: seq<Filter>)
    requires forall f :: Value(p1, f) == Value(p2, f)
    ensures Bind(p1, fs) == Bind(p2, fs)
  {
    if fs != [] {
      BindDependsOnValues(p1, p2, fs[1..]);
    }
  }

  /** SortBy, Page and PageSize have no effect on the search statement. */
  lemma SearchIgnoresSortAndPaging(p: SearchParams, base: string, order: string, sortBy: string, page: int, pageSize: int)
    ensures FramedSearch(p.(sortBy := sortBy, page := page, pageSize := pageSize), base, order)
         == FramedSearch(p, base, order)
  {
    var p' := p.(sortBy := sortBy, page := page, pageSize := pageSize);
    ActiveDependsOnEmptiness(p, p', FilterOrder);
    BindDependsOnValues(p, p', Active(p, FilterOrder));
  }

  /** Without filters the search is its frame alone, with no arguments. */
  lemma SearchWithoutFilters(p: SearchParams, base: string, order: string)
    requires p.brandName == "" && p.productName == "" && p.variantName == "" && p.status == ""
    ensures FramedSearch(p, base, order) == Query(base + order, [])
  {
    var fs := Active(p, FilterOrder);
    if fs != [] {
      ActiveMembers(p, FilterOrder, fs[0]);
    }
    assert Clauses(fs) == [] && Bind(p, fs) == [];
    AppendEmpty(base);
  }

  // ---------------------------------------------------------------------
  // SortProducts

  /** The sort allow-list: request key to column. */
  function SortColumn(sortBy: string): Option<string>
  {
    if sortBy == "createdAt" then Some("p.createdAt")
    else if sortBy == "stock" then Some("q.quantity")
    else None
  }

  /** A select statement with a descending ORDER BY on `column` appended. */
  function OrderedBy(head: string, column: string): string
  {
    head + " ORDER BY " + column + " DESC"
  }

  /** The allow-listed sort of the select `head`: an allow-listed key gives
      the extended select with no arguments; any other key is refused and no
      statement is issued. */
  function SortQuery(head: string, sortBy: string): (r: Result<Query>)
    ensures r.Ok? <==> sortBy == "createdAt" || sortBy == "stock"
    ensures r.Failed? ==> r.error == Unsupported("unsupported sorting field: " + sortBy)
    ensures sortBy == "createdAt" ==> r == Ok(Query(OrderedBy(head, "p.createdAt"), []))
    ensures sortBy == "stock" ==> r == Ok(Query(OrderedBy(head, "q.quantity"), []))
  {
    match SortColumn(sortBy)
    case Some(column) => Ok(Query(OrderedBy(head, column), []))
    case None => Failed(Unsupported("unsupported sorting field: " + sortBy))
  }

  /** Appending ` ORDER BY <column> DESC` adds no placeholder when the
      column name holds none. */
  lemma OrderByAddsNoPlaceholders(head: string, column: string)
    requires Placeholders(head) == 0 && PlaceholderFree(column)
    ensures Placeholders(head + " ORDER BY " + column + " DESC") == 0
  {
    assert PlaceholderFree(" ORDER BY ") && PlaceholderFree(" DESC");
    NoPlaceholders(" ORDER BY ");
    NoPlaceholders(column);
    NoPlaceholders(" DESC");
    JoinNoPlaceholders(head, " ORDER BY ");
    JoinNoPlaceholders(head + " ORDER BY ", column);
    JoinNoPlaceholders(head + " ORDER BY " + column, " DESC");
  }

  lemma SortColumnsArePlaceholderFree()
    ensures PlaceholderFree("p.createdAt") && PlaceholderFree("q.quantity")
  {
  }

  /** The sort key never reaches the statement text: whatever the key, an
      issued statement is one of exactly two texts, and it has no
      placeholders when the select it extends has none. */
  lemma SortTextIsAllowListed(head: string, sortBy: string)
    requires SortQuery(head, sortBy).Ok?
    ensures var q := SortQuery(head, sortBy).value;
            && (q.text == OrderedBy(head, "p.createdAt") || q.text == OrderedBy(head, "q.quantity"))
            && q.args == []
            && (Placeholders(head) == 0 ==> Placeholders(q.text) == 0)
  {
    if Placeholders(head) == 0 {
      SortColumnsArePlaceholderFree();
      if sortBy == "createdAt" {
        OrderByAddsNoPlaceholders(head, "p.createdAt");
      } else {
        OrderByAddsNoPlaceholders(head, "q.quantity");
      }
    }
  }

  /** SortProducts: the allow-listed sort of selectProducts. Only the two
      allow-listed keys issue a statement, and that statement has neither
      placeholders nor arguments. */
  function SortProducts(sortBy: string): (r: Result<Query>)
    ensures r.Ok? <==> sortBy == "createdAt" || sortBy == "stock"
    ensures r.Failed? ==> r.error == Unsupported("unsupported sorting field: " + sortBy)
    ensures r.Ok? ==> Placeholders(r.value.text) == |r.value.args| == 0
  {
    var r := SortQuery(SelectProducts, sortBy);
    if r.Ok? then
      SelectProductsHasNoPlaceholders();
      SortTextIsAllowListed(SelectProducts, sortBy);
      r
    else r
  }

  // ---------------------------------------------------------------------
  // PaginateProducts

  /** Go's `int` is 64 bits wide and wraps around on overflow. */
  const Int64Min: int := -0x8000_0000_0000_0000
  const Int64Max: int := 0x7fff_ffff_ffff_ffff
  const Int64Modulus: int := 0x1_0000_0000_0000_0000

  predicate IsInt64(x: int)
  {
    Int64Min <= x <= Int64Max
  }

  /** Two's-complement wrap-around of an exact result into 64 bits. */
  function Wrap64(x: int): (r: int)
    ensures IsInt64(r)
    ensures IsInt64(x) ==> r == x
    ensures (x - r) % Int64Modulus == 0
  {
    (x - Int64Min) % Int64Modulus + Int64Min
  }

  /** `offset := (page - 1) * pageSize` in 64-bit arithmetic. */
  function PageOffset(page: int, pageSize: int): int
  {
    Wrap64(Wrap64(page - 1) * pageSize)
  }

  /** The paging suffix: a LIMIT and an OFFSET placeholder, each after its
      keyword. */
  function PagingSuffix(limit: string, offset: string): string
  {
    limit + "?" + offset + "?"
  }

  const LimitOffset: string := PagingSuffix(" LIMIT ", " OFFSET ")

  lemma PagingSuffixPlaceholders(limit: string, offset: string)
    requires PlaceholderFree(limit) && PlaceholderFree(offset)
    ensures Placeholders(PagingSuffix(limit, offset)) == 2
  {
    NoPlaceholders(limit);
    NoPlaceholders(offset);
    assert Placeholders("?") == 1;
    PlaceholdersAppend(limit, "?");
    PlaceholdersAppend(limit + "?", offset);
    PlaceholdersAppend(limit + "?" + offset, "?");
  }

  lemma LimitOffsetPlaceholders()
    ensures Placeholders(LimitOffset) == 2
  {
    assert PlaceholderFree(" LIMIT ") && PlaceholderFree(" OFFSET ");
    PagingSuffixPlaceholders(" LIMIT ", " OFFSET ");
  }

  /** The select `head` paged: LIMIT and OFFSET placeholders appended,
      bound to the page size and the offset in that order. */
  function PageQuery(head: string, page: int, pageSize: int): (r: Query)
    ensures r.text == head + LimitOffset
    ensures r.args == [Int(pageSize), Int(PageOffset(page, pageSize))]
    ensures Placeholders(r.text) == Placeholders(head) + |r.args|
  {
    LimitOffsetPlaceholders();
    PlaceholdersAppend(head, LimitOffset);
    Query(head + LimitOffset, [Int(pageSize), Int(PageOffset(page, pageSize))])
  }

  /** PaginateProducts: selectProducts paged; the arguments are the page
      size and the offset, in that order. */
  function PaginateProducts(page: int, pageSize: int): (r: Query)
    requires IsInt64(page) && IsInt64(pageSize)
    ensures r.args == [Int(pageSize), Int(PageOffset(page, pageSize))]
  {
    PageQuery(SelectProducts, page, pageSize)
  }

  /** The paged statement holds exactly the two placeholders its two
      arguments fill. */
  lemma PaginatePlaceholdersMatchArgs(page: int, pageSize: int)
    requires IsInt64(page) && IsInt64(pageSize)
    ensures Placeholders(PaginateProducts(page, pageSize).text) == 2
  {
    SelectProductsHasNoPlaceholders();
    PagedPlaceholders(SelectProducts, page, pageSize);
  }

  /** Paging a placeholder-free select leaves exactly the two paging
      placeholders. */
  lemma PagedPlaceholders(head: string, page: int, pageSize: int)
    requires Placeholders(head) == 0
    ensures Placeholders(PageQuery(head, page, pageSize).text) == 2
  {
  }

  /** Pages numbered from 1 whose end still fits in 64 bits. */
  predicate InRange(page: int, pageSize: int)
  {
    1 <= page <= Int64Max && 0 <= pageSize && page * pageSize <= Int64Max
  }

  /** The rows a page covers. */
  predicate InPage(row: int, page: int, pageSize: int)
  {
    PageOffset(page, pageSize) <= row < PageOffset(page, pageSize) + pageSize
  }

  lemma MulMonotone(a: int, b: int, c: int)
    requires a <= b && 0 <= c
    ensures a * c <= b * c
  {
  }

  /** In range, the offset is the exact product (page - 1) * pageSize. */
  lemma PageOffsetExact(page: int, pageSize: int)
    requires InRange(page, pageSize)
    ensures PageOffset(page, pageSize) == (page - 1) * pageSize
  {
    MulMonotone(1, page, pageSize);
    MulMonotone(page - 1, page, pageSize);
    MulMonotone(0, page - 1, pageSize);
  }

  /** Page 1 starts at row 0. */
  lemma FirstPageStartsAtZero(pageSize: int)
    ensures PageOffset(1, pageSize) == 0
  {
  }

  /** Each page starts where the previous one ends. */
  lemma NextPageFollows(page: int, pageSize: int)
    requires InRange(page, pageSize) && InRange(page + 1, pageSize)
    ensures PageOffset(page + 1, pageSize) == PageOffset(page, pageSize) + pageSize
  {
    PageOffsetExact(page, pageSize);
    PageOffsetExact(page + 1, pageSize);
  }

  /** Distinct pages in range never share a row. */
  lemma PagesDoNotOverlap(page1: int, page2: int, pageSize: int, row: int)
    requires InRange(page1, pageSize) && InRange(page2, pageSize) && page1 != page2
    ensures !(InPage(row, page1, pageSize) && InPage(row, page2, pageSize))
  {
    PageOffsetExact(page1, pageSize);
    PageOffsetExact(page2, pageSize);
    if page1 < page2 {
      MulMonotone(page1, page2 - 1, pageSize);
    } else {
      MulMonotone(page2, page1 - 1, pageSize);
    }
  }

  /** Out of range the 64-bit product wraps: page 2^62 + 1 of size 4 starts
      at row 0 again, so it repeats page 1. */
  lemma HugePageWrapsToFirst()
    ensures PageOffset(0x4000_0000_0000_0001, 4) == PageOffset(1, 4) == 0
  {
  }
}
