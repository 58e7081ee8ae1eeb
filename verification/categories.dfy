/** The category tree: `fetchAllCategories` groups the rows of a self-join of the
    `categories` table (each top-level category with each of its subcategories, or with
    NULLs when it has none) into one entry per category; `fetchSingleCategory` does the
    same for the rows of one category. The rows are taken as given. */
module Categories {
  import opened Wrappers
  import opened Seqs

  /** One joined row. `subcategoryId` is `None` when the LEFT JOIN found no child. */
  datatype CategoryRow = CategoryRow(
    categoryId: nat, categoryName: Option<string>,
    subcategoryId: Option<nat>, subcategoryName: Option<string>)

  /** `{ id, name }`. */
  datatype Subcategory = Subcategory(id: nat, name: Option<string>)

  /** `{ id, name, subcategories }`. */
  datatype Category = Category(id: nat, name: Option<string>, subcategories: seq<Subcategory>)

  /** `if (row.subcategory_id)`: present and not 0. */
  predicate HasSub(row: CategoryRow) {
    row.subcategoryId.Some? && row.subcategoryId.value != 0
  }

  /** The subcategory a row carries. */
  function SubOf(row: CategoryRow): Subcategory {
    Subcategory(row.subcategoryId.GetOr(0), row.subcategoryName)
  }

  /** Appends the row's subcategory to `c` when it has one. */
  function AddSub(c: Category, row: CategoryRow): Category {
    if HasSub(row) then c.(subcategories := c.subcategories + [SubOf(row)]) else c
  }

  /** The entry a category's first row creates. */
  function NewEntry(row: CategoryRow): Category {
    AddSub(Category(row.categoryId, row.categoryName, []), row)
  }

  /* ------------------------------------------------------------ grouping */

  /** Category ids strictly ascending, hence no id twice: `Object.values` lists an
      object's integer keys in ascending order. */
  predicate Ascending(cs: seq<Category>) {
    forall i, j :: 0 <= i < j < |cs| ==> cs[i].id < cs[j].id
  }

  /** One iteration of the `forEach` body on `categoriesMap`, kept in key order: create
      the entry on the category's first row, then append the subcategory if any. */
  function AddRow(cs: seq<Category>, row: CategoryRow): seq<Category> {
    if |cs| == 0 then [NewEntry(row)]
    else if cs[0].id == row.categoryId then [AddSub(cs[0], row)] + cs[1..]
    else if row.categoryId < cs[0].id then [NewEntry(row)] + cs
    else [cs[0]] + AddRow(cs[1..], row)
  }

  /** `Object.values(categoriesMap)` after every row. */
  function Group(rows: seq<CategoryRow>): seq<Category>
    decreases |rows|
  {
    if |rows| == 0 then [] else AddRow(Group(rows[..|rows| - 1]), rows[|rows| - 1])
  }

  /** `fetchAllCategories`. */
  function FetchAllCategories(rows: seq<CategoryRow>): (r: seq<Category>)
    ensures |r| <= |rows|
    ensures |rows| > 0 ==> |r| > 0
  {
    GroupLength(rows);
    Group(rows)
  }

  /** The entry with id `id`, if any. */
  function Find(cs: seq<Category>, id: nat): Option<Category> {
    if |cs| == 0 then None else if cs[0].id == id then Some(cs[0]) else Find(cs[1..], id)
  }

  /** The subcategories listed across all entries. */
  function TotalSubs(cs: seq<Category>): nat {
    if |cs| == 0 then 0 else |cs[0].subcategories| + TotalSubs(cs[1..])
  }

  /* ---------------------------------------------------- one-row lemmas */

  lemma {:induction false} AddRowLength(cs: seq<Category>, row: CategoryRow)
    ensures |cs| <= |AddRow(cs, row)| <= |cs| + 1
  {
    if |cs| > 0 && cs[0].id != row.categoryId && row.categoryId > cs[0].id {
      AddRowLength(cs[1..], row);
    }
  }

  lemma {:induction false} GroupLength(rows: seq<CategoryRow>)
    ensures |Group(rows)| <= |rows|
    ensures |rows| > 0 ==> |Group(rows)| > 0
    decreases |rows|
  {
    if |rows| > 0 {
      GroupLength(rows[..|rows| - 1]);
      AddRowLength(Group(rows[..|rows| - 1]), rows[|rows| - 1]);
    }
  }

  /** Finding in a list with a known first entry: that entry if it has the id, else the search goes on in the rest. */
  lemma FindCons(c: Category, cs: seq<Category>, id: nat)
    ensures Find([c] + cs, id) == if c.id == id then Some(c) else Find(cs, id)
  {
    assert ([c] + cs)[1..] == cs;
  }

  /** An entry in an ascending list is found under its id; nothing is found under an id
      below the first. */
  lemma {:induction false} FindAscending(cs: seq<Category>, id: nat)
    requires Ascending(cs)
    ensures Find(cs, id).Some? <==> exists k :: 0 <= k < |cs| && cs[k].id == id
    ensures forall k :: 0 <= k < |cs| && cs[k].id == id ==> Find(cs, id) == Some(cs[k])
    ensures Find(cs, id).Some? ==> Find(cs, id).value.id == id
  {
    if |cs| > 0 {
      FindAscending(cs[1..], id);
      forall k | 1 <= k < |cs| ensures cs[k] == cs[1..][k - 1] {}
    }
  }

  /** Every id stays above `lo` when the row's does. */
  lemma {:induction false} AddRowAbove(cs: seq<Category>, row: CategoryRow, lo: int)
    requires forall k :: 0 <= k < |cs| ==> cs[k].id > lo
    requires row.categoryId > lo
    ensures forall k :: 0 <= k < |AddRow(cs, row)| ==> AddRow(cs, row)[k].id > lo
  {
    if |cs| > 0 && cs[0].id != row.categoryId && row.categoryId > cs[0].id {
      AddRowAbove(cs[1..], row, lo);
    }
  }

  /** Adding a row keeps the ids ascending. */
  lemma {:induction false} AddRowAscending(cs: seq<Category>, row: CategoryRow)
    requires Ascending(cs)
    ensures Ascending(AddRow(cs, row))
  {
    if |cs| > 0 && cs[0].id != row.categoryId && row.categoryId > cs[0].id {
      var rest := AddRow(cs[1..], row);
      AddRowAscending(cs[1..], row);
      AddRowAbove(cs[1..], row, cs[0].id);
      var r := [cs[0]] + rest;
      forall i, j | 0 <= i < j < |r| ensures r[i].id < r[j].id {
        assert r[j] == rest[j - 1];
        if i > 0 {
          assert r[i] == rest[i - 1];
        }
      }
    } else if |cs| > 0 && cs[0].id == row.categoryId {
      var r := [AddSub(cs[0], row)] + cs[1..];
      forall i, j | 0 <= i < j < |r| ensures r[i].id < r[j].id {
        assert r[j] == cs[j];
        if i > 0 {
          assert r[i] == cs[i];
        }
      }
    } else if |cs| > 0 {
      var r := [NewEntry(row)] + cs;
      forall i, j | 0 <= i < j < |r| ensures r[i].id < r[j].id {
        assert r[j] == cs[j - 1];
        if i > 0 {
          assert r[i] == cs[i - 1];
        }
      }
    }
  }

  /** Adding a row creates or extends the row's own entry and leaves every other entry
      alone. */
  lemma {:induction false} AddRowFind(cs: seq<Category>, row: CategoryRow, id: nat)
    requires Ascending(cs)
    ensures Find(AddRow(cs, row), id)
            == if id != row.categoryId then Find(cs, id)
               else match Find(cs, id)
                    case None => Some(NewEntry(row))
                    case Some(c) => Some(AddSub(c, row))
  {
    if |cs| > 0 {
      FindCons(cs[0], cs[1..], id);
      assert cs == [cs[0]] + cs[1..];
      if cs[0].id == row.categoryId {
        FindCons(AddSub(cs[0], row), cs[1..], id);
      } else if row.categoryId < cs[0].id {
        FindCons(NewEntry(row), cs, id);
        if id == row.categoryId {
          FindAscending(cs, id);
        }
      } else {
        AddRowFind(cs[1..], row, id);
        FindCons(cs[0], AddRow(cs[1..], row), id);
      }
    }
  }

  /** Adding a row adds its subcategory, if any, to the total. */
  lemma {:induction false} AddRowTotal(cs: seq<Category>, row: CategoryRow)
    ensures TotalSubs(AddRow(cs, row)) == TotalSubs(cs) + (if HasSub(row) then 1 else 0)
  {
    if |cs| > 0 {
      if cs[0].id == row.categoryId {
        assert ([AddSub(cs[0], row)] + cs[1..])[1..] == cs[1..];
      } else if row.categoryId < cs[0].id {
        assert ([NewEntry(row)] + cs)[1..] == cs;
      } else {
        AddRowTotal(cs[1..], row);
        assert ([cs[0]] + AddRow(cs[1..], row))[1..] == AddRow(cs[1..], row);
      }
    }
  }

  /* ------------------------------------------------------------ properties */

  /** The rows with id `id` that carry a subcategory. */
  function UnderWithSub(id: nat): CategoryRow -> bool {
    (r: CategoryRow) => r.categoryId == id && HasSub(r)
  }

  /** Row `i` is the first row of category `id`. */
  predicate IsFirstRow(rows: seq<CategoryRow>, i: int, id: nat) {
    0 <= i < |rows| && rows[i].categoryId == id && forall j :: 0 <= j < i ==> rows[j].categoryId != id
  }

  /** The entries come out in ascending id order, so no category is listed twice. */
  lemma {:induction false} GroupAscending(rows: seq<CategoryRow>)
    ensures Ascending(Group(rows))
    decreases |rows|
  {
    if |rows| > 0 {
      GroupAscending(rows[..|rows| - 1]);
      AddRowAscending(Group(rows[..|rows| - 1]), rows[|rows| - 1]);
    }
  }

  /** A category is listed iff some row has its id; its entry holds the name of its
      first row, and the subcategories of its rows that have one, in row order. A
      category whose rows carry no subcategory is listed with none. */
  lemma {:induction false} GroupEntry(rows: seq<CategoryRow>, id: nat)
    ensures Find(Group(rows), id).Some? <==> exists i :: 0 <= i < |rows| && rows[i].categoryId == id
    ensures Find(Group(rows), id).Some? ==>
              && Find(Group(rows), id).value.id == id
              && Find(Group(rows), id).value.subcategories == Map(SubOf, Filter(rows, UnderWithSub(id)))
              && exists i :: IsFirstRow(rows, i, id) && Find(Group(rows), id).value.name == rows[i].categoryName
    decreases |rows|
  {
    if |rows| > 0 {
      var init := rows[..|rows| - 1];
      var last := rows[|rows| - 1];
      assert rows == init + [last];
      GroupEntry(init, id);
      GroupAscending(init);
      AddRowFind(Group(init), last, id);
      FilterSnoc(init, last, UnderWithSub(id));
      var before := Find(Group(init), id);
      if before.Some? {
        MapSnoc(SubOf, Filter(init, UnderWithSub(id)), last);
        var i :| IsFirstRow(init, i, id) && before.value.name == init[i].categoryName;
        assert IsFirstRow(rows, i, id);
      } else if last.categoryId == id {
        assert forall j :: 0 <= j < |init| ==> init[j].categoryId != id;
        assert IsFirstRow(rows, |rows| - 1, id);
        FilterAllFail(init, UnderWithSub(id));
        MapSnoc(SubOf, [], last);
      }
      if exists i :: 0 <= i < |rows| && rows[i].categoryId == id {
        var i :| 0 <= i < |rows| && rows[i].categoryId == id;
        if i < |init| {
          assert init[i].categoryId == id;
        }
      }
      if exists i :: 0 <= i < |init| && init[i].categoryId == id {
        var i :| 0 <= i < |init| && init[i].categoryId == id;
        assert rows[i].categoryId == id;
      }
    }
  }

  /** Every listed entry is the one `Find` gives for its id. */
  lemma ListedEntriesAreFound(rows: seq<CategoryRow>, k: nat)
    requires k < |Group(rows)|
    ensures Find(Group(rows), Group(rows)[k].id) == Some(Group(rows)[k])
  {
    GroupAscending(rows);
    FindAscending(Group(rows), Group(rows)[k].id);
  }

  /** The entries list as many subcategories as there are rows with one. */
  lemma {:induction false} SubcategoriesCounted(rows: seq<CategoryRow>)
    ensures TotalSubs(Group(rows)) == |Filter(rows, HasSub)|
    decreases |rows|
  {
    if |rows| > 0 {
      var init := rows[..|rows| - 1];
      var last := rows[|rows| - 1];
      assert rows == init + [last];
      SubcategoriesCounted(init);
      AddRowTotal(Group(init), last);
      FilterSnoc(init, last, HasSub);
    }
  }

  /* ---------------------------------------------------- fetchSingleCategory */

  /** `fetchSingleCategory`: 404 "Category not found" for no rows. */
  datatype SingleOutcome = CategoryNotFound | Found(category: Category)

  /** `fetchSingleCategory`: id and name from the first row, then every subcategory
      the rows carry, in row order. */
  function FetchSingleCategory(rows: seq<CategoryRow>): (r: SingleOutcome)
    ensures r.CategoryNotFound? <==> |rows| == 0
    ensures r.Found? ==> r.category.id == rows[0].categoryId && r.category.name == rows[0].categoryName
    ensures r.Found? ==> |r.category.subcategories| == |Filter(rows, HasSub)|
  {
    if |rows| == 0 then CategoryNotFound
    else Found(Category(rows[0].categoryId, rows[0].categoryName, Map(SubOf, Filter(rows, HasSub))))
  }

  /** On the rows of one category (what its query returns), `fetchSingleCategory`
      builds exactly the entry `fetchAllCategories` would list for it. */
  lemma SingleAgreesWithAll(rows: seq<CategoryRow>)
    requires |rows| > 0 && forall i :: 0 <= i < |rows| ==> rows[i].categoryId == rows[0].categoryId
    ensures Find(Group(rows), rows[0].categoryId).Some?
    ensures FetchSingleCategory(rows) == Found(Find(Group(rows), rows[0].categoryId).value)
  {
    var id := rows[0].categoryId;
    GroupEntry(rows, id);
    var e := Find(Group(rows), id).value;
    var i :| IsFirstRow(rows, i, id) && e.name == rows[i].categoryName;
    assert i == 0;
    FilterSame(rows, HasSub, UnderWithSub(id));
  }
}
