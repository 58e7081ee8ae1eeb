/** Paging arithmetic shared by the product listings and the natural-language search:
    the clamps applied to the `page` and `pageSize` query parameters, the offset of a
    page, `Math.ceil(total / pageSize)`, and the slice a page shows. */
module Paging {
  import opened Wrappers
  import opened JsText
  import opened Seqs

  /** The largest page size any listing accepts. */
  const MaxPageSize: nat := 100

  /** `Math.max(1, parseInt(x)) || 1`: a NaN parse gives 1, anything below 1 is raised
      to 1. */
  function ClampPage(parsed: Option<int>): (page: nat)
    ensures page >= 1
    ensures parsed.None? ==> page == 1
    ensures parsed.Some? && parsed.value >= 1 ==> page == parsed.value
    ensures parsed.Some? && parsed.value < 1 ==> page == 1
  {
    match parsed
    case None => 1
    case Some(n) => if n < 1 then 1 else n
  }

  /** `Math.min(Math.max(1, parseInt(x)), 100) || default`: a NaN parse gives the
      handler's default; any number is clamped into [1, 100]. */
  function ClampPageSize(parsed: Option<int>, default: nat): (size: nat)
    ensures parsed.None? ==> size == default
    ensures parsed.Some? ==> 1 <= size <= MaxPageSize
    ensures parsed.Some? && 1 <= parsed.value <= MaxPageSize ==> size == parsed.value
  {
    match parsed
    case None => default
    case Some(n) => if n < 1 then 1 else if n > MaxPageSize then MaxPageSize else n
  }

  /** A page number written in decimal is read back as itself, whether the handler
      passes a radix of 10 or none. */
  lemma PageParamRoundTrip(n: nat, radix: Radix)
    requires n >= 1
    ensures ClampPage(ParseParam(Some(NatToString(n)), radix)) == n
  {
    ParseIntNatToString(n, radix);
  }

  /** A page size written in decimal is read back as itself when it is at most 100,
      and as 100 otherwise. */
  lemma PageSizeParamRoundTrip(n: nat, default: nat, radix: Radix)
    requires n >= 1
    ensures ClampPageSize(ParseParam(Some(NatToString(n)), radix), default)
            == if n <= MaxPageSize then n else MaxPageSize
  {
    ParseIntNatToString(n, radix);
  }

  /** `(page - 1) * pageSize`: how many items precede the page. */
  function Offset(page: nat, size: nat): nat
    requires page >= 1
  {
    (page - 1) * size
  }

  /** `Math.ceil(total / size)`: the fewest pages of `size` items that hold `total`. */
  function TotalPages(total: nat, size: nat): (pages: nat)
    requires size >= 1
    ensures pages * size >= total
    ensures pages == 0 || (pages - 1) * size < total
  {
    (total + size - 1) / size
  }

  /** `items.slice(offset, offset + size)`: the items shown on page `page`. */
  function PageOf<T>(items: seq<T>, page: nat, size: nat): (r: seq<T>)
    requires page >= 1
    ensures |r| <= size
    ensures r == [] <==> Offset(page, size) >= |items| || size == 0
    ensures forall i :: 0 <= i < |r| ==> Offset(page, size) + i < |items| && r[i] == items[Offset(page, size) + i]
    ensures Offset(page, size) + size <= |items| ==> |r| == size
  {
    Slice(items, Offset(page, size), Offset(page, size) + size)
  }

  /** Pages 1 through `k`, one after the other. */
  function Pages<T>(items: seq<T>, size: nat, k: nat): seq<T>
  {
    if k == 0 then [] else Pages(items, size, k - 1) + PageOf(items, k, size)
  }

  /** The first `k` pages are exactly the first `k * size` items (or all of them). */
  lemma {:induction false} PagesArePrefix<T>(items: seq<T>, size: nat, k: nat)
    ensures Pages(items, size, k) == items[..if k * size <= |items| then k * size else |items|]
  {
    if k > 0 {
      PagesArePrefix(items, size, k - 1);
      var lo := if (k - 1) * size <= |items| then (k - 1) * size else |items|;
      var hi := if k * size <= |items| then k * size else |items|;
      var page := PageOf(items, k, size);
      assert (k - 1) * size + size == k * size;
      assert page == items[lo..hi];
      assert items[..hi] == items[..lo] + items[lo..hi];
    }
  }

  /** Reading every page from 1 to `TotalPages` returns each item once, in order. */
  lemma PagesCoverAll<T>(items: seq<T>, size: nat)
    requires size >= 1
    ensures Pages(items, size, TotalPages(|items|, size)) == items
  {
    PagesArePrefix(items, size, TotalPages(|items|, size));
  }

  /** A page past the last one is empty. */
  lemma PagePastEndIsEmpty<T>(items: seq<T>, page: nat, size: nat)
    requires size >= 1 && page > TotalPages(|items|, size)
    ensures PageOf(items, page, size) == []
  {
    var t := TotalPages(|items|, size);
    assert page - 1 >= t;
    assert (page - 1) * size >= t * size;
  }
}
