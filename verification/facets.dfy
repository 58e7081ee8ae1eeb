/** The filter facets `getAllFilters` offers for one category: brands, models, the two
    conditions, years and sales areas, each with a product count. The grouped query's
    rows are taken as given; this module folds them exactly as the handler's `forEach`
    does and relates the result to independent per-facet definitions. */
module Facets {
  import opened Wrappers
  import opened Seqs
  import ProductQueries

  /** One row of the grouped query: a (brand, model, condition, year, sales area)
      group with each column's non-NULL count. SQL NULLs are `None`. */
  datatype FacetRow = FacetRow(
    brand: Option<string>, brandCount: nat,
    model: Option<string>, modelCount: nat,
    condition: Option<string>, conditionCount: nat,
    year: Option<nat>, yearCount: nat,
    salesArea: Option<string>, salesAreaCount: nat)

  /** A text column is truthy when it is neither NULL nor empty. */
  predicate Truthy(s: Option<string>) {
    s.Some? && s.value != ""
  }

  /** `{ name, count }`. */
  datatype NamedCount = NamedCount(name: string, count: nat)

  /** `{ year, count }`. */
  datatype YearCount = YearCount(year: nat, count: nat)

  /** `conditions: { new, used }`. */
  datatype ConditionCounts = ConditionCounts(newCount: nat, usedCount: nat)

  /** The `filters` object while it is being filled. `years` is kept in ascending year
      order, the order in which `Object.entries` lists integer keys; `salesAreas` in
      order of first appearance, the order it lists other string keys. */
  datatype Filters = Filters(
    brands: seq<NamedCount>,
    models: seq<NamedCount>,
    conditions: ConditionCounts,
    years: seq<YearCount>,
    salesAreas: seq<NamedCount>)

  const NoFilters: Filters := Filters([], [], ConditionCounts(0, 0), [], [])

  /* --------------------------------------------------------------- tallies */

  /** No element is listed twice. */
  predicate Distinct<T(==)>(s: seq<T>) {
    forall i, j :: 0 <= i < j < |s| ==> s[i] != s[j]
  }

  /** The count recorded for `name` (0 when absent). */
  function AreaCount(t: seq<NamedCount>, name: string): nat {
    if |t| == 0 then 0 else (if t[0].name == name then t[0].count else 0) + AreaCount(t[1..], name)
  }

  /** The names, in order. */
  function AreaNames(t: seq<NamedCount>): seq<string> {
    if |t| == 0 then [] else [t[0].name] + AreaNames(t[1..])
  }

  /** `if (!o[name]) o[name] = 0; o[name] += n` on an object whose keys keep their
      insertion order. */
  function AddArea(t: seq<NamedCount>, name: string, n: nat): seq<NamedCount> {
    if |t| == 0 then [NamedCount(name, n)]
    else if t[0].name == name then [NamedCount(name, t[0].count + n)] + t[1..]
    else [t[0]] + AddArea(t[1..], name, n)
  }

  /** A new name is appended at the end; a known one stays where it is. */
  lemma {:induction false} AddAreaNames(t: seq<NamedCount>, name: string, n: nat)
    ensures AreaNames(AddArea(t, name, n)) == if name in AreaNames(t) then AreaNames(t) else AreaNames(t) + [name]
  {
    if |t| > 0 {
      if t[0].name == name {
        assert ([NamedCount(name, t[0].count + n)] + t[1..])[1..] == t[1..];
      } else {
        AddAreaNames(t[1..], name, n);
        assert ([t[0]] + AddArea(t[1..], name, n))[1..] == AddArea(t[1..], name, n);
        if name !in AreaNames(t[1..]) {
          assert [t[0].name] + (AreaNames(t[1..]) + [name]) == [t[0].name] + AreaNames(t[1..]) + [name];
        }
      }
    }
  }

  /** Adding `n` under `name` adds `n` to that name's count and nothing else. */
  lemma {:induction false} AddAreaCount(t: seq<NamedCount>, name: string, n: nat, other: string)
    ensures AreaCount(AddArea(t, name, n), other) == AreaCount(t, other) + (if other == name then n else 0)
  {
    if |t| > 0 && t[0].name != name {
      AddAreaCount(t[1..], name, n, other);
      assert ([t[0]] + AddArea(t[1..], name, n))[1..] == AddArea(t[1..], name, n);
    } else if |t| > 0 {
      assert ([NamedCount(name, t[0].count + n)] + t[1..])[1..] == t[1..];
    }
  }

  /** The count recorded for `year` (0 when absent). */
  function YearTotal(t: seq<YearCount>, year: nat): nat {
    if |t| == 0 then 0 else (if t[0].year == year then t[0].count else 0) + YearTotal(t[1..], year)
  }

  /** The years, in order. */
  function YearsOf(t: seq<YearCount>): seq<nat> {
    if |t| == 0 then [] else [t[0].year] + YearsOf(t[1..])
  }

  /** Strictly ascending years, hence no year twice. */
  predicate Ascending(t: seq<YearCount>) {
    forall i, j :: 0 <= i < j < |t| ==> t[i].year < t[j].year
  }

  /** The same update as `AddArea`, for integer keys, which an object lists in
      ascending order whatever order they were added in. */
  function AddYear(t: seq<YearCount>, year: nat, n: nat): seq<YearCount> {
    if |t| == 0 then [YearCount(year, n)]
    else if t[0].year == year then [YearCount(year, t[0].count + n)] + t[1..]
    else if year < t[0].year then [YearCount(year, n)] + t
    else [t[0]] + AddYear(t[1..], year, n)
  }

  /** Every listed year is the year of some entry. */
  lemma {:induction false} YearsOfMembers(t: seq<YearCount>, y: nat)
    ensures y in YearsOf(t) <==> exists i :: 0 <= i < |t| && t[i].year == y
  {
    if |t| > 0 {
      YearsOfMembers(t[1..], y);
      if exists i :: 0 <= i < |t| && t[i].year == y {
        var i :| 0 <= i < |t| && t[i].year == y;
        if i > 0 {
          assert t[1..][i - 1].year == y;
        }
      }
      if y in YearsOf(t[1..]) {
        var i :| 0 <= i < |t[1..]| && t[1..][i].year == y;
        assert t[i + 1].year == y;
      }
    }
  }

  /** The years after the update are the years before plus `year`. */
  lemma {:induction false} AddYearKeys(t: seq<YearCount>, year: nat, n: nat, y: nat)
    ensures y in YearsOf(AddYear(t, year, n)) <==> y in YearsOf(t) || y == year
  {
    if |t| > 0 {
      if t[0].year == year {
        assert ([YearCount(year, t[0].count + n)] + t[1..])[1..] == t[1..];
      } else if year < t[0].year {
        assert ([YearCount(year, n)] + t)[1..] == t;
      } else {
        AddYearKeys(t[1..], year, n, y);
        assert ([t[0]] + AddYear(t[1..], year, n))[1..] == AddYear(t[1..], year, n);
      }
    }
  }

  /** A year below every year of an ascending list can go in front of it. */
  lemma ConsAscending(x: YearCount, t: seq<YearCount>)
    requires Ascending(t)
    requires forall i :: 0 <= i < |t| ==> x.year < t[i].year
    ensures Ascending([x] + t)
  {
    var r := [x] + t;
    forall i, j | 0 <= i < j < |r| ensures r[i].year < r[j].year {
      assert r[j] == t[j - 1];
      if i > 0 {
        assert r[i] == t[i - 1];
      }
    }
  }

  /** A bound below `year` and below every year of `t` stays below every year after the
      update. */
  lemma {:induction false} AddYearAbove(t: seq<YearCount>, year: nat, n: nat, b: nat)
    requires b < year
    requires forall i :: 0 <= i < |t| ==> b < t[i].year
    ensures forall i :: 0 <= i < |AddYear(t, year, n)| ==> b < AddYear(t, year, n)[i].year
  {
    if |t| > 0 && t[0].year != year && year > t[0].year {
      var rest := AddYear(t[1..], year, n);
      AddYearAbove(t[1..], year, n, b);
      assert AddYear(t, year, n) == [t[0]] + rest;
    }
  }

  /** The update keeps the years strictly ascending. */
  lemma {:induction false} AddYearAscending(t: seq<YearCount>, year: nat, n: nat)
    requires Ascending(t)
    ensures Ascending(AddYear(t, year, n))
  {
    if |t| > 0 {
      assert Ascending(t[1..]);
      if t[0].year == year {
        ConsAscending(YearCount(year, t[0].count + n), t[1..]);
      } else if year < t[0].year {
        ConsAscending(YearCount(year, n), t);
      } else {
        AddYearAscending(t[1..], year, n);
        AddYearAbove(t[1..], year, n, t[0].year);
        ConsAscending(t[0], AddYear(t[1..], year, n));
      }
    }
  }

  /** Adding `n` under `year` adds `n` to that year's count and nothing else. */
  lemma {:induction false} AddYearCount(t: seq<YearCount>, year: nat, n: nat, other: nat)
    ensures YearTotal(AddYear(t, year, n), other) == YearTotal(t, other) + (if other == year then n else 0)
  {
    if |t| > 0 && t[0].year != year && year > t[0].year {
      AddYearCount(t[1..], year, n, other);
      assert ([t[0]] + AddYear(t[1..], year, n))[1..] == AddYear(t[1..], year, n);
    } else if |t| > 0 && t[0].year == year {
      assert ([YearCount(year, t[0].count + n)] + t[1..])[1..] == t[1..];
    } else if |t| > 0 {
      assert ([YearCount(year, n)] + t)[1..] == t;
    }
  }

  /* ------------------------------------------------------------ aggregation */

  /** One iteration of the `forEach` body. Only the exact spellings `new` and `used`
      are counted; every other condition is ignored. A year is truthy when it is not
      NULL and not 0. */
  function Step(f: Filters, row: FacetRow): Filters {
    var brands := if Truthy(row.brand) then f.brands + [NamedCount(row.brand.value, row.brandCount)] else f.brands;
    var models := if Truthy(row.model) then f.models + [NamedCount(row.model.value, row.modelCount)] else f.models;
    var conditions :=
      if row.condition == Some("new") then f.conditions.(newCount := f.conditions.newCount + row.conditionCount)
      else if row.condition == Some("used") then f.conditions.(usedCount := f.conditions.usedCount + row.conditionCount)
      else f.conditions;
    var years := if row.year.Some? && row.year.value != 0 then AddYear(f.years, row.year.value, row.yearCount) else f.years;
    var areas := if Truthy(row.salesArea) then AddArea(f.salesAreas, row.salesArea.value, row.salesAreaCount) else f.salesAreas;
    Filters(brands, models, conditions, years, areas)
  }

  /** The `filters` object after every row, in row order. */
  function Aggregate(rows: seq<FacetRow>): Filters
    decreases |rows|
  {
    if |rows| == 0 then NoFilters else Step(Aggregate(rows[..|rows| - 1]), rows[|rows| - 1])
  }

  /** What `getAllFilters` answers: 400 when a category or subcategory is missing,
      otherwise the facets of the rows the grouped query returned. */
  datatype FiltersOutcome = MissingCategory | Facets(filters: Filters)

  /** `getAllFilters`. */
  function GetAllFilters(params: ProductQueries.QueryParams, rows: seq<FacetRow>): (r: FiltersOutcome)
    ensures r.MissingCategory? <==> !ProductQueries.Given(params, "category_id") || !ProductQueries.Given(params, "subcategory_id")
  {
    if !ProductQueries.Given(params, "category_id") || !ProductQueries.Given(params, "subcategory_id") then MissingCategory
    else Facets(Aggregate(rows))
  }

  /* -------------------------------------------------- reference definitions */

  /** The sum of `count(r)` over the rows `r` that satisfy `p`. */
  function SumWhere(rows: seq<FacetRow>, p: FacetRow -> bool, count: FacetRow -> nat): nat
    decreases |rows|
  {
    if |rows| == 0 then 0
    else SumWhere(rows[..|rows| - 1], p, count) + (if p(rows[|rows| - 1]) then count(rows[|rows| - 1]) else 0)
  }

  function HasBrand(r: FacetRow): bool { Truthy(r.brand) }
  function HasModel(r: FacetRow): bool { Truthy(r.model) }
  function BrandEntry(r: FacetRow): NamedCount { NamedCount(r.brand.GetOr(""), r.brandCount) }
  function ModelEntry(r: FacetRow): NamedCount { NamedCount(r.model.GetOr(""), r.modelCount) }

  function IsCondition(c: string): FacetRow -> bool { (r: FacetRow) => r.condition == Some(c) }
  function ConditionCount(r: FacetRow): nat { r.conditionCount }

  function InYear(y: nat): FacetRow -> bool { (r: FacetRow) => y != 0 && r.year == Some(y) }
  function YearCountOf(r: FacetRow): nat { r.yearCount }

  function InArea(a: string): FacetRow -> bool { (r: FacetRow) => a != "" && r.salesArea == Some(a) }
  function AreaCountOf(r: FacetRow): nat { r.salesAreaCount }

  /** The truthy sales areas of the rows, duplicates dropped, in order of first
      appearance. */
  function FirstAppearances(rows: seq<FacetRow>): seq<string>
    decreases |rows|
  {
    if |rows| == 0 then []
    else
      var init := FirstAppearances(rows[..|rows| - 1]);
      var last := rows[|rows| - 1];
      if Truthy(last.salesArea) && last.salesArea.value !in init then init + [last.salesArea.value] else init
  }

  /* -------------------------------------------------------------- properties */

  /** Brands and models: one entry per row whose column is truthy, in row order, with
      that row's count; the same name may appear more than once. */
  lemma {:induction false} BrandsAndModelsPerRow(rows: seq<FacetRow>)
    ensures Aggregate(rows).brands == Map(BrandEntry, Filter(rows, HasBrand))
    ensures Aggregate(rows).models == Map(ModelEntry, Filter(rows, HasModel))
    decreases |rows|
  {
    if |rows| > 0 {
      var init := rows[..|rows| - 1];
      var last := rows[|rows| - 1];
      assert rows == init + [last];
      BrandsAndModelsPerRow(init);
      FilterSnoc(init, last, HasBrand);
      FilterSnoc(init, last, HasModel);
      MapSnoc(BrandEntry, Filter(init, HasBrand), last);
      MapSnoc(ModelEntry, Filter(init, HasModel), last);
    }
  }

  /** Conditions: `new` and `used` each total the counts of the rows with exactly that
      condition. */
  lemma {:induction false} ConditionTotals(rows: seq<FacetRow>)
    ensures Aggregate(rows).conditions.newCount == SumWhere(rows, IsCondition("new"), ConditionCount)
    ensures Aggregate(rows).conditions.usedCount == SumWhere(rows, IsCondition("used"), ConditionCount)
    decreases |rows|
  {
    if |rows| > 0 {
      ConditionTotals(rows[..|rows| - 1]);
    }
  }

  /** Years: each year's count is the total of its rows' counts. */
  lemma {:induction false} YearTotals(rows: seq<FacetRow>, y: nat)
    ensures YearTotal(Aggregate(rows).years, y) == SumWhere(rows, InYear(y), YearCountOf)
    decreases |rows|
  {
    if |rows| > 0 {
      var last := rows[|rows| - 1];
      YearTotals(rows[..|rows| - 1], y);
      if last.year.Some? && last.year.value != 0 {
        AddYearCount(Aggregate(rows[..|rows| - 1]).years, last.year.value, last.yearCount, y);
      }
    }
  }

  /** Years: listed once each, in ascending order. */
  lemma {:induction false} YearsAscending(rows: seq<FacetRow>)
    ensures Ascending(Aggregate(rows).years)
    decreases |rows|
  {
    if |rows| > 0 {
      var last := rows[|rows| - 1];
      YearsAscending(rows[..|rows| - 1]);
      if last.year.Some? && last.year.value != 0 {
        AddYearAscending(Aggregate(rows[..|rows| - 1]).years, last.year.value, last.yearCount);
      }
    }
  }

  /** Years: exactly the truthy years of the rows are listed. */
  lemma {:induction false} YearsListed(rows: seq<FacetRow>, y: nat)
    ensures y in YearsOf(Aggregate(rows).years) <==> exists i :: 0 <= i < |rows| && InYear(y)(rows[i])
    decreases |rows|
  {
    if |rows| > 0 {
      var init := rows[..|rows| - 1];
      var last := rows[|rows| - 1];
      YearsListed(init, y);
      if last.year.Some? && last.year.value != 0 {
        AddYearKeys(Aggregate(init).years, last.year.value, last.yearCount, y);
      }
      if exists i :: 0 <= i < |rows| && InYear(y)(rows[i]) {
        var i :| 0 <= i < |rows| && InYear(y)(rows[i]);
        if i < |init| {
          assert InYear(y)(init[i]);
        }
      }
      if exists i :: 0 <= i < |init| && InYear(y)(init[i]) {
        var i :| 0 <= i < |init| && InYear(y)(init[i]);
        assert rows[i] == init[i];
      }
    }
  }

  /** Sales areas: listed once each, in order of first appearance. */
  lemma {:induction false} AreasInFirstAppearanceOrder(rows: seq<FacetRow>)
    ensures AreaNames(Aggregate(rows).salesAreas) == FirstAppearances(rows)
    ensures Distinct(FirstAppearances(rows))
    decreases |rows|
  {
    if |rows| > 0 {
      var init := rows[..|rows| - 1];
      var last := rows[|rows| - 1];
      AreasInFirstAppearanceOrder(init);
      if Truthy(last.salesArea) {
        AddAreaNames(Aggregate(init).salesAreas, last.salesArea.value, last.salesAreaCount);
      }
    }
  }

  /** Sales areas: each area's count is the total of its rows' counts. */
  lemma {:induction false} AreaTotals(rows: seq<FacetRow>, a: string)
    ensures AreaCount(Aggregate(rows).salesAreas, a) == SumWhere(rows, InArea(a), AreaCountOf)
    decreases |rows|
  {
    if |rows| > 0 {
      var last := rows[|rows| - 1];
      AreaTotals(rows[..|rows| - 1], a);
      if Truthy(last.salesArea) {
        AddAreaCount(Aggregate(rows[..|rows| - 1]).salesAreas, last.salesArea.value, last.salesAreaCount, a);
      }
    }
  }

  /** Every row with a truthy sales area is represented, and every listed area comes
      from some row. */
  lemma {:induction false} FirstAppearancesAreTheAreas(rows: seq<FacetRow>, a: string)
    ensures a in FirstAppearances(rows) <==> exists i :: 0 <= i < |rows| && InArea(a)(rows[i])
    decreases |rows|
  {
    if |rows| > 0 {
      var init := rows[..|rows| - 1];
      FirstAppearancesAreTheAreas(init, a);
      if exists i :: 0 <= i < |rows| && InArea(a)(rows[i]) {
        var i :| 0 <= i < |rows| && InArea(a)(rows[i]);
        if i < |init| {
          assert InArea(a)(init[i]);
        }
      }
      if a in FirstAppearances(init) {
        var i :| 0 <= i < |init| && InArea(a)(init[i]);
        assert rows[i] == init[i];
      }
    }
  }
}
