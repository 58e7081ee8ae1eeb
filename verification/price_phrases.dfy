/** The price bound `queryNlpModel` derives from the phrases a regular expression finds
    in the query (`below`, `under`, `less than`, `between`, `and`, `over`, `above`, each
    optionally followed by digits). The matches are taken as given; this module folds
    them, left to right, into `[minPrice, maxPrice]` exactly as the handler's `forEach`
    does, quirks included:
    - `between` fires only when its character offset plus one is a valid index into the
      list of matches, and then takes its upper bound from the match at that index;
    - `and` has no effect of its own;
    - a phrase without digits contributes NaN, which poisons the bound for good. */
module PricePhrases {
  import opened Wrappers
  import opened JsValues

  /** The keyword a match starts with. */
  datatype Keyword = Below | Under | LessThan | Between | And | Over | Above

  /** One regular-expression match: its keyword, its digits if any (the `(\d+)?`
      capture), and `match.index`, the character offset of the match in the query. */
  datatype PriceMatch = PriceMatch(keyword: Keyword, numeral: Option<nat>, index: nat)

  /** `[minPrice, maxPrice]`. */
  datatype Bound = Bound(lo: Double, hi: Double)

  /** `minPrice = 0`, `maxPrice = Infinity`. */
  const Unbounded: Bound := Bound(Fin(0.0), PosInf)

  /** `parseFloat(capture)`: the digits' value, or NaN when there were none. */
  function NumeralValue(numeral: Option<nat>): (d: Double)
    ensures d.NaN? <==> numeral.None?
  {
    match numeral
    case None => NaN
    case Some(n) => Fin(n as real)
  }

  /** Whether `between` at match `m` fires: `match.index + 1 < priceMatches.length`. */
  predicate BetweenFires(ms: seq<PriceMatch>, m: PriceMatch) {
    m.index + 1 < |ms|
  }

  /** One iteration of the `forEach` body for match `m` of the match list `ms`. */
  function Step(ms: seq<PriceMatch>, m: PriceMatch, b: Bound): Bound {
    var n := NumeralValue(m.numeral);
    match m.keyword
    case Below => b.(hi := Min(b.hi, n))
    case Under => b.(hi := Min(b.hi, n))
    case LessThan => b.(hi := Min(b.hi, n))
    case Over => b.(lo := Max(b.lo, n))
    case Above => b.(lo := Max(b.lo, n))
    case Between =>
      if BetweenFires(ms, m) then
        Bound(Max(b.lo, n), Min(b.hi, NumeralValue(ms[m.index + 1].numeral)))
      else b
    case And => b
  }

  /** The bound after the first `k` matches have been folded in. */
  function FoldPrefix(ms: seq<PriceMatch>, k: nat): Bound
    requires k <= |ms|
  {
    if k == 0 then Unbounded else Step(ms, ms[k - 1], FoldPrefix(ms, k - 1))
  }

  /** The bound after every match. */
  function PriceBound(ms: seq<PriceMatch>): Bound {
    FoldPrefix(ms, |ms|)
  }

  /** `item.price` is a number in `[minPrice, maxPrice]`; a NaN end admits nothing. */
  predicate Admits(b: Bound, price: real) {
    Le(b.lo, Fin(price)) && Le(Fin(price), b.hi)
  }

  /* --------------------------------------------------- reference semantics */

  /** What match `k` on its own demands of a price, read directly off the phrase. */
  predicate Permits(ms: seq<PriceMatch>, k: nat, price: real)
    requires k < |ms|
  {
    var m := ms[k];
    match m.keyword
    case Below => m.numeral.Some? && price <= m.numeral.value as real
    case Under => m.numeral.Some? && price <= m.numeral.value as real
    case LessThan => m.numeral.Some? && price <= m.numeral.value as real
    case Over => m.numeral.Some? && price >= m.numeral.value as real
    case Above => m.numeral.Some? && price >= m.numeral.value as real
    case Between =>
      BetweenFires(ms, m) ==>
        && m.numeral.Some? && price >= m.numeral.value as real
        && ms[m.index + 1].numeral.Some? && price <= ms[m.index + 1].numeral.value as real
    case And => true
  }

  /** One fold step admits a price iff the bound before it did and the match permits it. */
  lemma StepAdmits(ms: seq<PriceMatch>, k: nat, b: Bound, price: real)
    requires k < |ms|
    ensures Admits(Step(ms, ms[k], b), price) <==> Admits(b, price) && Permits(ms, k, price)
  {
  }

  /** The fold admits a price iff it is non-negative and every match so far permits it:
      the phrases compose by intersection. */
  lemma {:induction false} FoldPrefixAdmits(ms: seq<PriceMatch>, k: nat, price: real)
    requires k <= |ms|
    ensures Admits(FoldPrefix(ms, k), price)
            <==> 0.0 <= price && forall j :: 0 <= j < k ==> Permits(ms, j, price)
  {
    if k > 0 {
      FoldPrefixAdmits(ms, k - 1, price);
      StepAdmits(ms, k - 1, FoldPrefix(ms, k - 1), price);
      PermitsSplit(ms, k, price);
    }
  }

  /** The first `k` matches permit a price iff the first `k - 1` do and match `k - 1`
      does. */
  lemma PermitsSplit(ms: seq<PriceMatch>, k: nat, price: real)
    requires 0 < k <= |ms|
    ensures (forall j :: 0 <= j < k ==> Permits(ms, j, price))
            <==> (forall j :: 0 <= j < k - 1 ==> Permits(ms, j, price)) && Permits(ms, k - 1, price)
  {
  }

  /** The final bound admits a price iff it is non-negative and every phrase permits it. */
  lemma PriceBoundAdmits(ms: seq<PriceMatch>, price: real)
    ensures Admits(PriceBound(ms), price)
            <==> 0.0 <= price && forall j :: 0 <= j < |ms| ==> Permits(ms, j, price)
  {
    FoldPrefixAdmits(ms, |ms|, price);
  }

  /** The bound only tightens: whatever a later bound admits, every earlier one did. */
  lemma {:induction false} FoldOnlyTightens(ms: seq<PriceMatch>, j: nat, k: nat, price: real)
    requires j <= k <= |ms|
    ensures Admits(FoldPrefix(ms, k), price) ==> Admits(FoldPrefix(ms, j), price)
  {
    FoldPrefixAdmits(ms, j, price);
    FoldPrefixAdmits(ms, k, price);
  }

  /** With no phrase in the query the bound is `[0, Infinity)`. */
  lemma NoPhraseUnbounded(price: real)
    ensures PriceBound([]) == Unbounded
    ensures Admits(PriceBound([]), price) <==> 0.0 <= price
  {
  }

  /** `under N` (likewise `below`, `less than`) alone gives `[0, N]`. */
  lemma UnderAlone(kw: Keyword, n: nat, index: nat)
    requires kw == Below || kw == Under || kw == LessThan
    ensures PriceBound([PriceMatch(kw, Some(n), index)]) == Bound(Fin(0.0), Fin(n as real))
  {
    var ms := [PriceMatch(kw, Some(n), index)];
    assert FoldPrefix(ms, 1) == Step(ms, ms[0], Unbounded);
  }

  /** `over N` (likewise `above`) alone gives `[N, Infinity)`. */
  lemma OverAlone(kw: Keyword, n: nat, index: nat)
    requires kw == Over || kw == Above
    ensures PriceBound([PriceMatch(kw, Some(n), index)]) == Bound(Fin(n as real), PosInf)
  {
    var ms := [PriceMatch(kw, Some(n), index)];
    assert FoldPrefix(ms, 1) == Step(ms, ms[0], Unbounded);
  }

  /** `between A and B` at the very start of the query gives `[A, B]`. */
  lemma BetweenAtStart(x: nat, y: nat, andIndex: nat)
    ensures PriceBound([PriceMatch(Between, Some(x), 0), PriceMatch(And, Some(y), andIndex)])
            == Bound(Fin(x as real), Fin(y as real))
  {
    var ms := [PriceMatch(Between, Some(x), 0), PriceMatch(And, Some(y), andIndex)];
    var first := Step(ms, ms[0], Unbounded);
    assert BetweenFires(ms, ms[0]);
    assert first == Bound(Max(Fin(0.0), Fin(x as real)), Min(PosInf, Fin(y as real)));
    assert FoldPrefix(ms, 1) == first;
    assert FoldPrefix(ms, 2) == Step(ms, ms[1], first) == first;
  }

  /** `between A and B` anywhere but the start of a two-phrase query is ignored: its
      character offset is not a valid index into the two matches, and `and` does nothing. */
  lemma BetweenLaterIgnored(x: nat, y: nat, index: nat, andIndex: nat)
    requires index >= 1
    ensures PriceBound([PriceMatch(Between, Some(x), index), PriceMatch(And, Some(y), andIndex)])
            == Unbounded
  {
    var ms := [PriceMatch(Between, Some(x), index), PriceMatch(And, Some(y), andIndex)];
    assert !BetweenFires(ms, ms[0]);
    assert FoldPrefix(ms, 1) == Step(ms, ms[0], Unbounded) == Unbounded;
    assert FoldPrefix(ms, 2) == Step(ms, ms[1], Unbounded) == Unbounded;
  }

  /** A bound phrase without digits poisons the bound: no price is admitted. */
  lemma MissingNumeralPoisons(ms: seq<PriceMatch>, k: nat, price: real)
    requires k < |ms| && ms[k].numeral.None? && ms[k].keyword in {Below, Under, LessThan, Over, Above}
    ensures !Admits(PriceBound(ms), price)
  {
    PriceBoundAdmits(ms, price);
    assert !Permits(ms, k, price);
  }
}
