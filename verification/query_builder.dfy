/** The parameterised SQL the product listings build. A query is modelled by its
    conditions (column, comparison, placeholder numbers) and its `values` array; the SQL
    text around them is not modelled. The handlers number a placeholder
    `values.length + 1` just before pushing its value; the lemmas here show that this
    keeps every `$k` within `1..values.length`, uses each of them, and binds every
    condition to the values the request asked for. */
module ProductQueries {
  import opened Wrappers
  import opened Seqs
  import opened JsValues
  import opened JsText
  import opened Paging
  import opened Helper

  /* ------------------------------------------------------------- builders */

  /** A value bound to a placeholder. `Infix(s)` is the ILIKE pattern `%s%`. */
  datatype Param =
    | Text(s: string)
    | TextList(items: seq<string>)
    | Infix(s: string)
    | Number(d: Double)
    | Whole(n: int)
    | Now
    | Body(v: Json)

  /** What a condition does with its placeholders. */
  datatype Op = Equals | AnyOf | ILike | Between | NameOrBrandILike | Assign

  /** One condition (or SET clause): the column, the comparison, and the placeholder
      numbers it mentions, in the order they appear in the SQL text. */
  datatype Condition = Condition(column: string, op: Op, slots: seq<nat>)

  /** The `conditions` and `values` arrays as a handler builds them. */
  datatype Builder = Builder(conditions: seq<Condition>, values: seq<Param>)

  const Empty: Builder := Builder([], [])

  /** Every placeholder a condition mentions names an existing value. */
  predicate InRange(conds: seq<Condition>, values: seq<Param>) {
    forall i, j :: 0 <= i < |conds| && 0 <= j < |conds[i].slots| ==> 1 <= conds[i].slots[j] <= |values|
  }

  /** Some condition mentions placeholder `$k`. */
  predicate Mentions(conds: seq<Condition>, k: nat) {
    exists i, j :: 0 <= i < |conds| && 0 <= j < |conds[i].slots| && conds[i].slots[j] == k
  }

  /** The placeholders mentioned are exactly `$1 .. $n` for `n` values. */
  predicate Numbered(conds: seq<Condition>, values: seq<Param>) {
    InRange(conds, values) && forall k :: 1 <= k <= |values| ==> Mentions(conds, k)
  }

  /** A condition with its placeholders replaced by the values they name. */
  datatype BoundCondition = BoundCondition(column: string, op: Op, args: seq<Param>)

  /** The values `slots` name. */
  function Args(values: seq<Param>, slots: seq<nat>): (r: seq<Param>)
    requires forall j :: 0 <= j < |slots| ==> 1 <= slots[j] <= |values|
    ensures |r| == |slots| && forall j :: 0 <= j < |slots| ==> r[j] == values[slots[j] - 1]
  {
    seq(|slots|, j requires 0 <= j < |slots| => values[slots[j] - 1])
  }

  /** What the database sees: each condition with its arguments filled in. */
  function Resolve(conds: seq<Condition>, values: seq<Param>): (r: seq<BoundCondition>)
    requires InRange(conds, values)
    ensures |r| == |conds|
    ensures forall i :: 0 <= i < |conds| ==>
              r[i] == BoundCondition(conds[i].column, conds[i].op, Args(values, conds[i].slots))
  {
    seq(|conds|, i requires 0 <= i < |conds| =>
      BoundCondition(conds[i].column, conds[i].op, Args(values, conds[i].slots)))
  }

  /** The values of `vs` picked by the 0-based offsets `uses`. */
  function Pick(vs: seq<Param>, uses: seq<nat>): seq<Param>
    requires forall j :: 0 <= j < |uses| ==> uses[j] < |vs|
  {
    seq(|uses|, j requires 0 <= j < |uses| => vs[uses[j]])
  }

  /** `conditions.push(… "$" + (values.length + 1 + u) …); values.push(...vs)`: a
      condition whose placeholders are numbered from the current length of `values`,
      offset by `uses`, followed by the values themselves. */
  function Add(b: Builder, column: string, op: Op, vs: seq<Param>, uses: seq<nat>): Builder
    requires forall j :: 0 <= j < |uses| ==> uses[j] < |vs|
  {
    var slots := seq(|uses|, j requires 0 <= j < |uses| => |b.values| + 1 + uses[j]);
    Builder(b.conditions + [Condition(column, op, slots)], b.values + vs)
  }

  /** `if (given) { … }` around `Add`. */
  function AddIf(b: Builder, given: bool, column: string, op: Op, vs: seq<Param>, uses: seq<nat>): Builder
    requires given ==> forall j :: 0 <= j < |uses| ==> uses[j] < |vs|
  {
    if given then Add(b, column, op, vs, uses) else b
  }

  /** Each pushed value is mentioned by the condition pushed with it. */
  predicate CoversAll(vs: seq<Param>, uses: seq<nat>) {
    (forall j :: 0 <= j < |uses| ==> uses[j] < |vs|) && forall t :: 0 <= t < |vs| ==> t in uses
  }

  /** Numbering from `values.length + 1` keeps the placeholders exactly `$1 .. $n`, and
      the new condition is bound to the values pushed with it while the older
      conditions keep their bindings. */
  lemma AddKeepsNumbering(b: Builder, column: string, op: Op, vs: seq<Param>, uses: seq<nat>)
    requires Numbered(b.conditions, b.values)
    requires CoversAll(vs, uses)
    ensures var r := Add(b, column, op, vs, uses);
            && Numbered(r.conditions, r.values)
            && Resolve(r.conditions, r.values)
               == Resolve(b.conditions, b.values) + [BoundCondition(column, op, Pick(vs, uses))]
  {
    var r := Add(b, column, op, vs, uses);
    var n := |b.values|;
    var c := r.conditions[|b.conditions|];
    assert InRange(r.conditions, r.values) by {
      forall i, j | 0 <= i < |r.conditions| && 0 <= j < |r.conditions[i].slots|
        ensures 1 <= r.conditions[i].slots[j] <= |r.values|
      {
        if i < |b.conditions| {
          assert r.conditions[i] == b.conditions[i];
        }
      }
    }
    forall k | 1 <= k <= |r.values| ensures Mentions(r.conditions, k) {
      if k <= n {
        assert Mentions(b.conditions, k);
        var i, j :| 0 <= i < |b.conditions| && 0 <= j < |b.conditions[i].slots| && b.conditions[i].slots[j] == k;
        assert r.conditions[i] == b.conditions[i];
      } else {
        var t := k - n - 1;
        assert t in uses;
        var j :| 0 <= j < |uses| && uses[j] == t;
        assert c.slots[j] == k;
      }
    }
    var lhs := Resolve(r.conditions, r.values);
    var rhs := Resolve(b.conditions, b.values) + [BoundCondition(column, op, Pick(vs, uses))];
    forall i | 0 <= i < |lhs| ensures lhs[i] == rhs[i] {
      if i < |b.conditions| {
        assert r.conditions[i] == b.conditions[i];
        assert Args(r.values, b.conditions[i].slots) == Args(b.values, b.conditions[i].slots);
      } else {
        assert Args(r.values, c.slots) == Pick(vs, uses);
      }
    }
  }

  /** The same for `AddIf`: nothing changes when the condition is not given. */
  lemma AddIfKeepsNumbering(b: Builder, given: bool, column: string, op: Op, vs: seq<Param>, uses: seq<nat>)
    requires Numbered(b.conditions, b.values)
    requires given ==> CoversAll(vs, uses)
    ensures var r := AddIf(b, given, column, op, vs, uses);
            && Numbered(r.conditions, r.values)
            && Resolve(r.conditions, r.values)
               == Resolve(b.conditions, b.values) + (if given then [BoundCondition(column, op, Pick(vs, uses))] else [])
  {
    if given {
      AddKeepsNumbering(b, column, op, vs, uses);
    } else {
      assert Resolve(b.conditions, b.values) + [] == Resolve(b.conditions, b.values);
    }
  }

  /** `AddIf` for a condition with one placeholder and one value. */
  lemma AddIfOne(b: Builder, given: bool, column: string, op: Op, v: Param)
    requires Numbered(b.conditions, b.values)
    ensures var r := AddIf(b, given, column, op, [v], [0]);
            && Numbered(r.conditions, r.values)
            && Resolve(r.conditions, r.values)
               == Resolve(b.conditions, b.values) + (if given then [BoundCondition(column, op, [v])] else [])
  {
    assert Pick([v], [0]) == [v];
    AddIfKeepsNumbering(b, given, column, op, [v], [0]);
  }

  /** `AddIf` for a price range: two placeholders, `BETWEEN $n+1 AND $n+2`. */
  lemma AddIfRange(b: Builder, pr: PriceRange)
    requires Numbered(b.conditions, b.values)
    ensures var r := AddIf(b, pr.Range?, "p.price", Between, RangeValues(pr), [0, 1]);
            && Numbered(r.conditions, r.values)
            && Resolve(r.conditions, r.values)
               == Resolve(b.conditions, b.values)
                  + (if pr.Range? then [BoundCondition("p.price", Between, [Number(pr.minPrice), Number(pr.maxPrice)])] else [])
  {
    if pr.Range? {
      assert 0 in [0, 1] && 1 in [0, 1];
      assert Pick(RangeValues(pr), [0, 1]) == [Number(pr.minPrice), Number(pr.maxPrice)];
    }
    AddIfKeepsNumbering(b, pr.Range?, "p.price", Between, RangeValues(pr), [0, 1]);
  }

  /** `AddIf` for the search condition: one value, mentioned twice. */
  lemma AddIfTwice(b: Builder, given: bool, column: string, op: Op, v: Param)
    requires Numbered(b.conditions, b.values)
    ensures var r := AddIf(b, given, column, op, [v], [0, 0]);
            && Numbered(r.conditions, r.values)
            && Resolve(r.conditions, r.values)
               == Resolve(b.conditions, b.values) + (if given then [BoundCondition(column, op, [v, v])] else [])
  {
    assert Pick([v], [0, 0]) == [v, v];
    AddIfKeepsNumbering(b, given, column, op, [v], [0, 0]);
  }

  /* ------------------------------------------------------ request reading */

  /** A request's query parameters (each a single string). */
  type QueryParams = map<string, string>

  /** `req.query[key]`, `undefined` when absent. */
  function Lookup(params: QueryParams, key: string): Option<string> {
    if key in params then Some(params[key]) else None
  }

  /** `if (req.query[key])`: present and not the empty string. */
  predicate Given(params: QueryParams, key: string) {
    key in params && params[key] != ""
  }

  /** `x.split(",").map((s) => s.trim())`. */
  function CommaList(x: string): seq<string> {
    Map(Trim, Split(x, ','))
  }

  /** The two bounds of a parsed price range, as pushed. */
  function RangeValues(pr: PriceRange): seq<Param> {
    if pr.Range? then [Number(pr.minPrice), Number(pr.maxPrice)] else []
  }

  /* ------------------------------------------------------ optional filters */

  /** The conditions are numbered `$1 .. $n` and bind exactly `bound`. */
  predicate Binds(b: Builder, bound: seq<BoundCondition>) {
    Numbered(b.conditions, b.values) && Resolve(b.conditions, b.values) == bound
  }

  /** A parameter's value as pushed (an absent one is never pushed). */
  function ParamText(params: QueryParams, key: string): Param {
    Text(Lookup(params, key).GetOr(""))
  }

  /** A parameter's comma-separated list as pushed. */
  function ParamList(params: QueryParams, key: string): Param {
    TextList(CommaList(Lookup(params, key).GetOr("")))
  }

  /** `if (req.query[key]) { conditions.push(column op $(n+1)); values.push(v) }`. */
  function AddParam(b: Builder, params: QueryParams, key: string, column: string, op: Op, v: Param): Builder {
    AddIf(b, Given(params, key), column, op, [v], [0])
  }

  /** The condition an optional parameter asks for: `column op v` when it is given, and
      nothing otherwise. */
  function ParamIntended(params: QueryParams, key: string, column: string, op: Op, v: Param): seq<BoundCondition> {
    if Given(params, key) then [BoundCondition(column, op, [v])] else []
  }

  /** An optional filter appends the condition its parameter asks for and keeps the
      numbering. */
  lemma AddParamBinds(b: Builder, bound: seq<BoundCondition>, params: QueryParams, key: string, column: string, op: Op, v: Param)
    requires Binds(b, bound)
    ensures Binds(AddParam(b, params, key, column, op, v), bound + ParamIntended(params, key, column, op, v))
  {
    AddIfOne(b, Given(params, key), column, op, v);
  }

  /** `if (price) { … BETWEEN $(n+1) AND $(n+2) …; values.push(minPrice, maxPrice) }`. */
  function AddRange(b: Builder, pr: PriceRange): Builder {
    AddIf(b, pr.Range?, "p.price", Between, RangeValues(pr), [0, 1])
  }

  /** The price condition a parsed range asks for. */
  function RangeIntended(pr: PriceRange): seq<BoundCondition> {
    if pr.Range? then [BoundCondition("p.price", Between, [Number(pr.minPrice), Number(pr.maxPrice)])] else []
  }

  /** The price filter appends `BETWEEN min AND max` for a range and keeps the
      numbering. */
  lemma AddRangeBinds(b: Builder, bound: seq<BoundCondition>, pr: PriceRange)
    requires Binds(b, bound)
    ensures Binds(AddRange(b, pr), bound + RangeIntended(pr))
  {
    AddIfRange(b, pr);
  }

  /** `if (req.query.search) { … (p.name ILIKE $(n+1) OR p.brand ILIKE $(n+1)) …;
      values.push("%" + search + "%") }`. */
  function AddSearch(b: Builder, params: QueryParams): Builder {
    AddIf(b, Given(params, "search"), "p.name|p.brand", NameOrBrandILike, [Infix(Lookup(params, "search").GetOr(""))], [0, 0])
  }

  /** The search condition: the pattern `%search%` compared against both name and
      brand. */
  function SearchIntended(params: QueryParams): seq<BoundCondition> {
    if Given(params, "search")
    then [BoundCondition("p.name|p.brand", NameOrBrandILike, [Infix(params["search"]), Infix(params["search"])])]
    else []
  }

  /** The search filter binds its one pattern to both comparisons and keeps the
      numbering. */
  lemma AddSearchBinds(b: Builder, bound: seq<BoundCondition>, params: QueryParams)
    requires Binds(b, bound)
    ensures Binds(AddSearch(b, params), bound + SearchIntended(params))
  {
    AddIfTwice(b, Given(params, "search"), "p.name|p.brand", NameOrBrandILike, Infix(Lookup(params, "search").GetOr("")));
  }
  /** How a listing is ordered: not at all, by `id ASC`, or by price either way. */
  datatype Sort = Unsorted | IdAscending | PriceAscending | PriceDescending

  /** A paged listing query: its WHERE conditions, the ordering, the `LIMIT` and
      `OFFSET` placeholders, and the final `values` array. */
  datatype Listing = Listing(
    conditions: seq<Condition>, sort: Sort, limitSlot: nat, offsetSlot: nat,
    values: seq<Param>, page: nat, pageSize: nat)

  /** `… LIMIT $(n+1) OFFSET $(n+2)`; `values.push(limit, offset)`. */
  function Paged(b: Builder, sort: Sort, page: nat, size: nat): Listing
    requires page >= 1
  {
    Listing(b.conditions, sort, |b.values| + 1, |b.values| + 2,
            b.values + [Whole(size), Whole(Offset(page, size))], page, size)
  }

  /** The listing's numbering and paging are sound: its conditions use exactly the
      placeholders before `LIMIT`, which is the last but one and binds the page size,
      and `OFFSET`, which is the last and binds `(page - 1) * pageSize`. */
  predicate WellPaged(l: Listing) {
    && |l.values| >= 2
    && l.limitSlot == |l.values| - 1 && l.offsetSlot == |l.values|
    && Numbered(l.conditions, l.values[..|l.values| - 2])
    && l.values[l.limitSlot - 1] == Whole(l.pageSize)
    && l.page >= 1
    && l.values[l.offsetSlot - 1] == Whole(Offset(l.page, l.pageSize))
  }

  /** What the database sees of the listing's conditions. */
  function BoundConditions(l: Listing): seq<BoundCondition>
    requires WellPaged(l)
  {
    Resolve(l.conditions, l.values[..|l.values| - 2])
  }

  lemma PagedIsWellPaged(b: Builder, sort: Sort, page: nat, size: nat)
    requires Numbered(b.conditions, b.values) && page >= 1
    ensures WellPaged(Paged(b, sort, page, size))
    ensures BoundConditions(Paged(b, sort, page, size)) == Resolve(b.conditions, b.values)
  {
    var l := Paged(b, sort, page, size);
    assert l.values[..|l.values| - 2] == b.values;
  }

  /* ------------------------------------------------------- getAllProducts */

  /** `Math.max(1, parseInt(req.query.page)) || 1`, with the radix left out. */
  function RequestedPage(params: QueryParams): nat {
    ClampPage(ParseParam(Lookup(params, "page"), Auto))
  }

  /** `Math.min(Math.max(1, parseInt(req.query.pageSize)), 100) || default`. */
  function RequestedPageSize(params: QueryParams, default: nat): nat {
    ClampPageSize(ParseParam(Lookup(params, "pageSize"), Auto), default)
  }

  /** `getAllProducts`: `ORDER BY id ASC LIMIT $1 OFFSET $2` bound to the clamped page
      size and the offset; `parseInt` is called without a radix, and a bad `pageSize`
      gives 10. */
  function GetAllProducts(params: QueryParams): (l: Listing)
    ensures WellPaged(l) && |l.conditions| == 0
    ensures l.page >= 1 && (1 <= l.pageSize <= MaxPageSize || l.pageSize == 10)
    ensures l.values == [Whole(l.pageSize), Whole(Offset(l.page, l.pageSize))]
    ensures l.page == RequestedPage(params) && l.pageSize == RequestedPageSize(params, 10)
    ensures l.sort == IdAscending
  {
    AllProductsPaged(RequestedPage(params), RequestedPageSize(params, 10));
    Paged(Empty, IdAscending, RequestedPage(params), RequestedPageSize(params, 10))
  }

  /** The unfiltered listing binds only `LIMIT $1 OFFSET $2`. */
  lemma AllProductsPaged(page: nat, size: nat)
    requires page >= 1
    ensures var l := Paged(Empty, IdAscending, page, size);
            && WellPaged(l) && |l.conditions| == 0 && l.sort == IdAscending
            && l.page == page && l.pageSize == size
            && l.values == [Whole(size), Whole(Offset(page, size))]
  {
    PagedIsWellPaged(Empty, IdAscending, page, size);
  }

  /** The listing endpoints read their paging from the request: page `n` and size `k`
      written in decimal give page `n` and size `k` (at most 100); without the
      parameters they give page 1 and the endpoint's default size. */
  lemma RequestedPaging(params: QueryParams, n: nat, k: nat, default: nat)
    requires n >= 1 && k >= 1
    ensures Lookup(params, "page") == Some(NatToString(n)) ==> RequestedPage(params) == n
    ensures Lookup(params, "pageSize") == Some(NatToString(k)) ==>
              RequestedPageSize(params, default) == if k <= MaxPageSize then k else MaxPageSize
    ensures "page" !in params ==> RequestedPage(params) == 1
    ensures "pageSize" !in params ==> RequestedPageSize(params, default) == default
  {
    PageParamRoundTrip(n, Auto);
    PageSizeParamRoundTrip(k, default, Auto);
  }

  /* -------------------------------------------------------- filterProducts */

  /** What `filterProducts` does with a request: 400 for a missing category, the error
      `parsePriceRange` throws for a bad price, or the listing query. */
  datatype FilterOutcome = MissingCategory | BadPriceRange | Query(listing: Listing)

  /** The first two conditions of `filterProducts`, pushed unconditionally. */
  function FilterHead(params: QueryParams): Builder
    requires Given(params, "category_id") && Given(params, "subcategory_id")
  {
    var b0 := Add(Empty, "p.category_id", Equals, [Text(params["category_id"])], [0]);
    Add(b0, "p.subcategory_id", Equals, [Text(params["subcategory_id"])], [0])
  }

  /** The optional brand, model and condition filters of `filterProducts`. */
  function FilterMiddle(b: Builder, params: QueryParams): Builder {
    var b2 := AddParam(b, params, "brand", "p.brand", AnyOf, ParamList(params, "brand"));
    var b3 := AddParam(b2, params, "model", "p.model", AnyOf, ParamList(params, "model"));
    AddParam(b3, params, "condition", "p.condition", Equals, ParamText(params, "condition"))
  }

  /** The optional sales-area, year and price filters of `filterProducts`. */
  function FilterTail(b: Builder, params: QueryParams, pr: PriceRange): Builder {
    var b5 := AddParam(b, params, "sales_area", "p.sales_area", ILike, ParamText(params, "sales_area"));
    var b6 := AddParam(b5, params, "year", "p.year", Equals, ParamText(params, "year"));
    AddRange(b6, pr)
  }

  /** The WHERE conditions of `filterProducts`, in push order. */
  function FilterConditions(params: QueryParams, pr: PriceRange): Builder
    requires Given(params, "category_id") && Given(params, "subcategory_id")
  {
    FilterTail(FilterMiddle(FilterHead(params), params), params, pr)
  }

  /** `filterProducts`. `toNumber` is the global `Number`. The page size defaults to 12. */
  function FilterProducts(params: QueryParams, toNumber: string -> Double): (r: FilterOutcome)
    ensures r.MissingCategory? <==> !Given(params, "category_id") || !Given(params, "subcategory_id")
    ensures r.BadPriceRange? <==> && Given(params, "category_id") && Given(params, "subcategory_id")
                                  && ParsePriceRange(Lookup(params, "price"), toNumber).InvalidRange?
    ensures r.Query? ==> r.listing.page >= 1 && (1 <= r.listing.pageSize <= MaxPageSize || r.listing.pageSize == 12)
    ensures r.Query? ==> && r.listing.page == RequestedPage(params)
                         && r.listing.pageSize == RequestedPageSize(params, 12)
                         && r.listing.sort == Unsorted
  {
    if !Given(params, "category_id") || !Given(params, "subcategory_id") then MissingCategory
    else
      var pr := ParsePriceRange(Lookup(params, "price"), toNumber);
      if pr.InvalidRange? then BadPriceRange
      else
        var page := RequestedPage(params);
        var size := RequestedPageSize(params, 12);
        Query(Paged(FilterConditions(params, pr), Unsorted, page, size))
  }

  /** The category and subcategory conditions `filterProducts` always intends. */
  function FilterHeadIntended(params: QueryParams): seq<BoundCondition>
    requires Given(params, "category_id") && Given(params, "subcategory_id")
  {
    [ BoundCondition("p.category_id", Equals, [Text(params["category_id"])]),
      BoundCondition("p.subcategory_id", Equals, [Text(params["subcategory_id"])]) ]
  }

  /** The optional brand-list, model-list and condition conditions `filterProducts`
      intends. */
  function FilterMiddleIntended(params: QueryParams): seq<BoundCondition> {
    ParamIntended(params, "brand", "p.brand", AnyOf, ParamList(params, "brand"))
    + ParamIntended(params, "model", "p.model", AnyOf, ParamList(params, "model"))
    + ParamIntended(params, "condition", "p.condition", Equals, ParamText(params, "condition"))
  }

  /** The optional sales-area, year and price-range conditions `filterProducts`
      intends. */
  function FilterTailIntended(params: QueryParams, pr: PriceRange): seq<BoundCondition> {
    ParamIntended(params, "sales_area", "p.sales_area", ILike, ParamText(params, "sales_area"))
    + ParamIntended(params, "year", "p.year", Equals, ParamText(params, "year"))
    + RangeIntended(pr)
  }

  /** The conditions `filterProducts` intends, written without any numbering: category
      and subcategory always, then each optional filter the request gives, in order. */
  function FilterProductsIntended(params: QueryParams, pr: PriceRange): seq<BoundCondition>
    requires Given(params, "category_id") && Given(params, "subcategory_id")
  {
    FilterHeadIntended(params) + FilterMiddleIntended(params) + FilterTailIntended(params, pr)
  }

  /** The two unconditional conditions take `$1` and `$2`. */
  lemma FilterHeadBinds(params: QueryParams)
    requires Given(params, "category_id") && Given(params, "subcategory_id")
    ensures Binds(FilterHead(params), FilterHeadIntended(params))
  {
    var c0 := BoundCondition("p.category_id", Equals, [Text(params["category_id"])]);
    assert Numbered(Empty.conditions, Empty.values);
    var b0 := Add(Empty, "p.category_id", Equals, [Text(params["category_id"])], [0]);
    AddIfOne(Empty, true, "p.category_id", Equals, Text(params["category_id"]));
    assert Binds(b0, [c0]);
    AddIfOne(b0, true, "p.subcategory_id", Equals, Text(params["subcategory_id"]));
  }

  /** The brand, model and condition filters continue the numbering and bind what the
      request gives. */
  lemma FilterMiddleBinds(b: Builder, bound: seq<BoundCondition>, params: QueryParams)
    requires Binds(b, bound)
    ensures Binds(FilterMiddle(b, params), bound + FilterMiddleIntended(params))
  {
    var m1 := ParamIntended(params, "brand", "p.brand", AnyOf, ParamList(params, "brand"));
    var m2 := ParamIntended(params, "model", "p.model", AnyOf, ParamList(params, "model"));
    var b2 := AddParam(b, params, "brand", "p.brand", AnyOf, ParamList(params, "brand"));
    AddParamBinds(b, bound, params, "brand", "p.brand", AnyOf, ParamList(params, "brand"));
    var b3 := AddParam(b2, params, "model", "p.model", AnyOf, ParamList(params, "model"));
    AddParamBinds(b2, bound + m1, params, "model", "p.model", AnyOf, ParamList(params, "model"));
    ConcatAssoc(bound, m1, m2);
    AddParamBinds(b3, bound + (m1 + m2), params, "condition", "p.condition", Equals, ParamText(params, "condition"));
    ConcatAssoc(bound, m1 + m2, ParamIntended(params, "condition", "p.condition", Equals, ParamText(params, "condition")));
  }

  /** The sales-area, year and price filters continue the numbering and bind what the
      request gives. */
  lemma FilterTailBinds(b: Builder, bound: seq<BoundCondition>, params: QueryParams, pr: PriceRange)
    requires Binds(b, bound)
    ensures Binds(FilterTail(b, params, pr), bound + FilterTailIntended(params, pr))
  {
    var t1 := ParamIntended(params, "sales_area", "p.sales_area", ILike, ParamText(params, "sales_area"));
    var t2 := ParamIntended(params, "year", "p.year", Equals, ParamText(params, "year"));
    var b5 := AddParam(b, params, "sales_area", "p.sales_area", ILike, ParamText(params, "sales_area"));
    AddParamBinds(b, bound, params, "sales_area", "p.sales_area", ILike, ParamText(params, "sales_area"));
    var b6 := AddParam(b5, params, "year", "p.year", Equals, ParamText(params, "year"));
    AddParamBinds(b5, bound + t1, params, "year", "p.year", Equals, ParamText(params, "year"));
    ConcatAssoc(bound, t1, t2);
    AddRangeBinds(b6, bound + (t1 + t2), pr);
    ConcatAssoc(bound, t1 + t2, RangeIntended(pr));
  }

  /** The conditions `filterProducts` pushes are numbered `$1 .. $n` and bind exactly
      the intended conditions. */
  lemma FilterConditionsBind(params: QueryParams, pr: PriceRange)
    requires Given(params, "category_id") && Given(params, "subcategory_id")
    ensures var b := FilterConditions(params, pr);
            && Numbered(b.conditions, b.values)
            && Resolve(b.conditions, b.values) == FilterProductsIntended(params, pr)
  {
    var h := FilterHeadIntended(params);
    FilterHeadBinds(params);
    FilterMiddleBinds(FilterHead(params), h, params);
    FilterTailBinds(FilterMiddle(FilterHead(params), params), h + FilterMiddleIntended(params), params, pr);
    ConcatAssoc(h, FilterMiddleIntended(params), FilterTailIntended(params, pr));
  }

  /** Every listing `filterProducts` builds is well numbered and paged, and binds
      exactly the intended conditions. */
  lemma FilterProductsBindsIntended(params: QueryParams, toNumber: string -> Double)
    requires FilterProducts(params, toNumber).Query?
    ensures var l := FilterProducts(params, toNumber).listing;
            && WellPaged(l)
            && BoundConditions(l) == FilterProductsIntended(params, ParsePriceRange(Lookup(params, "price"), toNumber))
  {
    var pr := ParsePriceRange(Lookup(params, "price"), toNumber);
    var b := FilterConditions(params, pr);
    FilterConditionsBind(params, pr);
    var page := RequestedPage(params);
    var size := RequestedPageSize(params, 12);
    PagedIsWellPaged(b, Unsorted, page, size);
  }

  /* ------------------------------------------- filterProductsWithCategory */

  /** `req.query.sort`: only the two exact spellings order the listing. */
  function SortOf(params: QueryParams): (s: Sort)
    ensures s == PriceAscending <==> Lookup(params, "sort") == Some("price-asc")
    ensures s == PriceDescending <==> Lookup(params, "sort") == Some("price-desc")
  {
    match Lookup(params, "sort")
    case Some(x) => if x == "price-asc" then PriceAscending else if x == "price-desc" then PriceDescending else Unsorted
    case None => Unsorted
  }

  /** The first four conditions of `filterProductsWithCategory`: exact brand,
      condition, partial sales area, supplier. */
  function CategoryHead(params: QueryParams): Builder {
    var b0 := AddParam(Empty, params, "brand", "p.brand", Equals, ParamText(params, "brand"));
    var b1 := AddParam(b0, params, "condition", "p.condition", Equals, ParamText(params, "condition"));
    var b2 := AddParam(b1, params, "sales_area", "p.sales_area", ILike, ParamText(params, "sales_area"));
    AddParam(b2, params, "supplier_id", "p.supplier_id", Equals, ParamText(params, "supplier_id"))
  }

  /** The rest, pushed after `b`: price range, category, subcategory, and the search
      condition, which mentions its one placeholder twice. */
  function CategoryTail(b: Builder, params: QueryParams, pr: PriceRange): Builder {
    var b4 := AddRange(b, pr);
    var b5 := AddParam(b4, params, "category", "p.category_id", Equals, ParamText(params, "category"));
    var b6 := AddParam(b5, params, "subcategory", "p.subcategory_id", Equals, ParamText(params, "subcategory"));
    AddSearch(b6, params)
  }

  /** The WHERE conditions of `filterProductsWithCategory`, in push order. */
  function CategoryConditions(params: QueryParams, pr: PriceRange): Builder {
    CategoryTail(CategoryHead(params), params, pr)
  }

  /** `filterProductsWithCategory`: no required parameter; the page size defaults to 10. */
  function FilterProductsWithCategory(params: QueryParams, toNumber: string -> Double): (r: FilterOutcome)
    ensures !r.MissingCategory?
    ensures r.BadPriceRange? <==> ParsePriceRange(Lookup(params, "price"), toNumber).InvalidRange?
    ensures r.Query? ==> r.listing.sort == SortOf(params)
    ensures r.Query? ==> r.listing.page >= 1 && (1 <= r.listing.pageSize <= MaxPageSize || r.listing.pageSize == 10)
    ensures r.Query? ==> r.listing.page == RequestedPage(params) && r.listing.pageSize == RequestedPageSize(params, 10)
  {
    var pr := ParsePriceRange(Lookup(params, "price"), toNumber);
    if pr.InvalidRange? then BadPriceRange
    else
      var page := RequestedPage(params);
      var size := RequestedPageSize(params, 10);
      Query(Paged(CategoryConditions(params, pr), SortOf(params), page, size))
  }

  /** The first four conditions `filterProductsWithCategory` intends, without numbering. */
  function CategoryHeadIntended(params: QueryParams): seq<BoundCondition> {
    ParamIntended(params, "brand", "p.brand", Equals, ParamText(params, "brand"))
    + ParamIntended(params, "condition", "p.condition", Equals, ParamText(params, "condition"))
    + ParamIntended(params, "sales_area", "p.sales_area", ILike, ParamText(params, "sales_area"))
    + ParamIntended(params, "supplier_id", "p.supplier_id", Equals, ParamText(params, "supplier_id"))
  }

  /** The remaining conditions it intends; the search pattern is compared against both
      name and brand. */
  function CategoryTailIntended(params: QueryParams, pr: PriceRange): seq<BoundCondition> {
    RangeIntended(pr)
    + ParamIntended(params, "category", "p.category_id", Equals, ParamText(params, "category"))
    + ParamIntended(params, "subcategory", "p.subcategory_id", Equals, ParamText(params, "subcategory"))
    + SearchIntended(params)
  }

  /** Everything `filterProductsWithCategory` intends, in order. */
  function CategoryIntended(params: QueryParams, pr: PriceRange): seq<BoundCondition> {
    CategoryHeadIntended(params) + CategoryTailIntended(params, pr)
  }

  /** The brand, condition, sales-area and supplier filters are numbered from `$1` and
      bind what the request gives. */
  lemma CategoryHeadBinds(params: QueryParams)
    ensures Binds(CategoryHead(params), CategoryHeadIntended(params))
  {
    assert Binds(Empty, []);
    var p0 := ParamIntended(params, "brand", "p.brand", Equals, ParamText(params, "brand"));
    var b0 := AddParam(Empty, params, "brand", "p.brand", Equals, ParamText(params, "brand"));
    AddParamBinds(Empty, [], params, "brand", "p.brand", Equals, ParamText(params, "brand"));
    assert [] + p0 == p0;
    var b1 := AddParam(b0, params, "condition", "p.condition", Equals, ParamText(params, "condition"));
    AddParamBinds(b0, p0, params, "condition", "p.condition", Equals, ParamText(params, "condition"));
    var p1 := ParamIntended(params, "condition", "p.condition", Equals, ParamText(params, "condition"));
    var b2 := AddParam(b1, params, "sales_area", "p.sales_area", ILike, ParamText(params, "sales_area"));
    AddParamBinds(b1, p0 + p1, params, "sales_area", "p.sales_area", ILike, ParamText(params, "sales_area"));
    var p2 := ParamIntended(params, "sales_area", "p.sales_area", ILike, ParamText(params, "sales_area"));
    AddParamBinds(b2, p0 + p1 + p2, params, "supplier_id", "p.supplier_id", Equals, ParamText(params, "supplier_id"));
  }

  /** The price, category, subcategory and search filters continue the numbering after
      `b` and bind what the request gives. */
  lemma CategoryTailBinds(b: Builder, bound: seq<BoundCondition>, params: QueryParams, pr: PriceRange)
    requires Binds(b, bound)
    ensures Binds(CategoryTail(b, params, pr), bound + CategoryTailIntended(params, pr))
  {
    var p4 := RangeIntended(pr);
    var p5 := ParamIntended(params, "category", "p.category_id", Equals, ParamText(params, "category"));
    var p6 := ParamIntended(params, "subcategory", "p.subcategory_id", Equals, ParamText(params, "subcategory"));
    var b4 := AddRange(b, pr);
    AddRangeBinds(b, bound, pr);
    var b5 := AddParam(b4, params, "category", "p.category_id", Equals, ParamText(params, "category"));
    AddParamBinds(b4, bound + p4, params, "category", "p.category_id", Equals, ParamText(params, "category"));
    ConcatAssoc(bound, p4, p5);
    var b6 := AddParam(b5, params, "subcategory", "p.subcategory_id", Equals, ParamText(params, "subcategory"));
    AddParamBinds(b5, bound + (p4 + p5), params, "subcategory", "p.subcategory_id", Equals, ParamText(params, "subcategory"));
    ConcatAssoc(bound, p4 + p5, p6);
    AddSearchBinds(b6, bound + (p4 + p5 + p6), params);
    ConcatAssoc(bound, p4 + p5 + p6, SearchIntended(params));
  }

  /** The conditions `filterProductsWithCategory` pushes are numbered `$1 .. $n` and
      bind exactly the intended conditions; the search pattern is bound once and
      compared twice. */
  lemma CategoryConditionsBind(params: QueryParams, pr: PriceRange)
    ensures var b := CategoryConditions(params, pr);
            && Numbered(b.conditions, b.values)
            && Resolve(b.conditions, b.values) == CategoryIntended(params, pr)
  {
    CategoryHeadBinds(params);
    CategoryTailBinds(CategoryHead(params), CategoryHeadIntended(params), params, pr);
  }

  /** Every listing `filterProductsWithCategory` builds is well numbered and paged, and
      binds exactly the intended conditions. */
  lemma FilterProductsWithCategoryBindsIntended(params: QueryParams, toNumber: string -> Double)
    requires FilterProductsWithCategory(params, toNumber).Query?
    ensures var l := FilterProductsWithCategory(params, toNumber).listing;
            && WellPaged(l)
            && BoundConditions(l) == CategoryIntended(params, ParsePriceRange(Lookup(params, "price"), toNumber))
  {
    var pr := ParsePriceRange(Lookup(params, "price"), toNumber);
    var b := CategoryConditions(params, pr);
    CategoryConditionsBind(params, pr);
    var page := RequestedPage(params);
    var size := RequestedPageSize(params, 10);
    PagedIsWellPaged(b, SortOf(params), page, size);
  }

  /* ----------------------------------------------------- updateProductById */

  /** What `updateProductById` does before running the UPDATE: one of four 400/403
      answers, or the statement: its SET clauses, its WHERE conditions and `values`. */
  datatype UpdateOutcome =
    | InvalidProductId
    | InvalidSupplierId
    | NothingToUpdate
    | NotAuthorized
    | Update(sets: seq<Condition>, where: seq<Condition>, values: seq<Param>)

  /** The UPDATE for the body's properties `fs`: `${key} = $${index + 1}` for each key,
      then `updated_at = $${values.length + 1}` and
      `WHERE id = $${values.length + 1} AND supplier_id = $${values.length + 2}`. */
  function UpdateStatement(fs: seq<(string, Json)>, pid: int, sid: int): UpdateOutcome {
    var k := |fs|;
    var sets := seq(k, i requires 0 <= i < k => Condition(fs[i].0, Assign, [i + 1]));
    var values := seq(k, i requires 0 <= i < k => Body(fs[i].1));
    var sets' := sets + [Condition("updated_at", Assign, [|values| + 1])];
    var values' := values + [Now];
    Update(sets', [Condition("id", Equals, [|values'| + 1]), Condition("supplier_id", Equals, [|values'| + 2])],
           values' + [Whole(pid), Whole(sid)])
  }

  /** `updateProductById`. `fields` are the body's own properties in `Object.keys` order
      (`None` for a missing body); `owned` is whether the ownership query found the
      product under the supplier. */
  function UpdateProductById(id: string, supplierId: Option<string>, fields: Option<seq<(string, Json)>>, owned: bool)
    : (r: UpdateOutcome)
    ensures r.InvalidProductId? <==> ParseInt(id, Decimal).None?
    ensures r.InvalidSupplierId? <==> ParseInt(id, Decimal).Some? && ParseParam(supplierId, Decimal).None?
    ensures r.NothingToUpdate? <==> && ParseInt(id, Decimal).Some? && ParseParam(supplierId, Decimal).Some?
                                     && (fields.None? || |fields.value| == 0)
    ensures r.NotAuthorized? ==> !owned
    ensures r.Update? ==> && fields.Some? && |fields.value| > 0 && owned
                          && |r.values| == |fields.value| + 3
                          && |r.sets| == |fields.value| + 1 && |r.where| == 2
  {
    var pid := ParseInt(id, Decimal);
    var sid := ParseParam(supplierId, Decimal);
    if pid.None? then InvalidProductId
    else if sid.None? then InvalidSupplierId
    else if fields.None? || |fields.value| == 0 then NothingToUpdate
    else if !owned then NotAuthorized
    else UpdateStatement(fields.value, pid.value, sid.value)
  }

  /** The SET and WHERE clauses of the statement, in SQL order. */
  function UpdateClauses(u: UpdateOutcome): seq<Condition>
    requires u.Update?
  {
    u.sets + u.where
  }

  /** Numbering SET clauses by key position and the rest by `values.length + 1` agrees:
      the statement mentions exactly `$1 .. $(k+3)`. */
  lemma UpdateStatementNumbered(fs: seq<(string, Json)>, pid: int, sid: int)
    ensures var u := UpdateStatement(fs, pid, sid);
            && |UpdateClauses(u)| == |u.values| == |fs| + 3
            && Numbered(UpdateClauses(u), u.values)
            && forall i :: 0 <= i < |u.values| ==> UpdateClauses(u)[i].slots == [i + 1]
  {
    var u := UpdateStatement(fs, pid, sid);
    var cs := UpdateClauses(u);
    var k := |fs|;
    assert forall i :: 0 <= i < k ==> cs[i] == u.sets[i];
    assert cs[k] == u.sets[k] && cs[k + 1] == u.where[0] && cs[k + 2] == u.where[1];
    forall i | 0 <= i < |u.values| ensures cs[i].slots == [i + 1] {
    }
    forall s | 1 <= s <= |u.values| ensures Mentions(cs, s) {
      assert cs[s - 1].slots[0] == s;
    }
  }

  /** Each field is set to its own value, `updated_at` to the current time, and the
      WHERE binds the product and the supplier. */
  lemma UpdateStatementBinds(fs: seq<(string, Json)>, pid: int, sid: int)
    ensures var u := UpdateStatement(fs, pid, sid);
            && InRange(UpdateClauses(u), u.values)
            && Resolve(UpdateClauses(u), u.values)
               == seq(|fs|, i requires 0 <= i < |fs| => BoundCondition(fs[i].0, Assign, [Body(fs[i].1)]))
                  + [ BoundCondition("updated_at", Assign, [Now]),
                      BoundCondition("id", Equals, [Whole(pid)]),
                      BoundCondition("supplier_id", Equals, [Whole(sid)]) ]
  {
    var u := UpdateStatement(fs, pid, sid);
    var cs := UpdateClauses(u);
    var k := |fs|;
    UpdateStatementNumbered(fs, pid, sid);
    var lhs := Resolve(cs, u.values);
    var rhs := seq(|fs|, i requires 0 <= i < |fs| => BoundCondition(fs[i].0, Assign, [Body(fs[i].1)]))
               + [ BoundCondition("updated_at", Assign, [Now]),
                   BoundCondition("id", Equals, [Whole(pid)]),
                   BoundCondition("supplier_id", Equals, [Whole(sid)]) ];
    forall i | 0 <= i < |lhs| ensures lhs[i] == rhs[i] {
      assert Args(u.values, cs[i].slots) == [u.values[i]];
      if i < k {
        assert cs[i] == u.sets[i];
      } else if i == k {
        assert cs[i] == u.sets[k];
      } else {
        assert cs[i] == u.where[i - k - 1];
      }
    }
  }

  /** Whatever UPDATE `updateProductById` issues is well numbered and binds every body
      property, the timestamp, the product id and the supplier id. */
  lemma UpdateBindsFields(id: string, supplierId: Option<string>, fields: Option<seq<(string, Json)>>, owned: bool)
    requires UpdateProductById(id, supplierId, fields, owned).Update?
    ensures var r := UpdateProductById(id, supplierId, fields, owned);
            var fs := fields.value;
            && Numbered(UpdateClauses(r), r.values)
            && Resolve(UpdateClauses(r), r.values)
               == seq(|fs|, i requires 0 <= i < |fs| => BoundCondition(fs[i].0, Assign, [Body(fs[i].1)]))
                  + [ BoundCondition("updated_at", Assign, [Now]),
                      BoundCondition("id", Equals, [Whole(ParseInt(id, Decimal).value)]),
                      BoundCondition("supplier_id", Equals, [Whole(ParseParam(supplierId, Decimal).value)]) ]
  {
    var pid := ParseInt(id, Decimal).value;
    var sid := ParseParam(supplierId, Decimal).value;
    UpdateStatementNumbered(fields.value, pid, sid);
    UpdateStatementBinds(fields.value, pid, sid);
  }

  /* ------------------------------------------------------------- responses */

  /** The answer after a listing query runs: the "nothing found" answer when the page
      came back empty, else the page's metadata. The three listings word the empty
      answer differently: `getAllProducts` answers 404 "No products found for the given
      page.", `filterProducts` 404 "No data found.", and `filterProductsWithCategory`
      400 "No data found". */
  datatype ListingResponse = NothingFound | PageMeta(totalRows: nat, totalPages: nat, currentPage: nat)

  /** `rows.length === 0 ? … : { totalRows, totalPages: Math.ceil(totalRows / size), currentPage }`. */
  function Respond(l: Listing, rowsOnPage: nat, totalRows: nat): (r: ListingResponse)
    requires l.pageSize >= 1
    ensures r.NothingFound? <==> rowsOnPage == 0
    ensures r.PageMeta? ==> && r.currentPage == l.page && r.totalRows == totalRows
                            && r.totalPages * l.pageSize >= totalRows
                            && (r.totalPages == 0 || (r.totalPages - 1) * l.pageSize < totalRows)
  {
    if rowsOnPage == 0 then NothingFound
    else PageMeta(totalRows, TotalPages(totalRows, l.pageSize), l.page)
  }
}
