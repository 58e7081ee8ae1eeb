/** The two validators of the shared helper module: `parsePriceRange`, which reads a
    `min-max` query parameter, and `validateProduct`, which runs an ordered list of
    checks over a product body and reports the first that fails. */
module Helper {
  import opened Wrappers
  import opened Seqs
  import opened JsValues
  import opened JsText

  /* ------------------------------------------------------- parsePriceRange */

  /** What `parsePriceRange` yields: `null`, `{minPrice, maxPrice}`, or the thrown
      "Invalid price range. It should be in the format min-max." error. */
  datatype PriceRange = NoRange | Range(minPrice: Double, maxPrice: Double) | InvalidRange

  /** Element `i` of `parts.map(Number)` after array destructuring: a missing element is
      `undefined`, which `isNaN` treats as NaN. */
  function SegmentNumber(parts: seq<string>, i: nat, toNumber: string -> Double): (d: Double)
    ensures i < |parts| ==> d == toNumber(parts[i])
    ensures i >= |parts| ==> d.NaN?
  {
    if i < |parts| then toNumber(parts[i]) else NaN
  }

  /** The text has at least two `-`-separated segments, and the first two read as
      numbers `lo <= hi` (neither NaN). */
  predicate WellOrderedPair(s: string, toNumber: string -> Double) {
    var parts := Split(s, '-');
    |parts| >= 2 && Le(toNumber(parts[0]), toNumber(parts[1]))
  }

  /** `parsePriceRange(priceRange)`. `toNumber` is the global `Number` applied to a
      string, left uninterpreted. */
  function ParsePriceRange(s: Option<string>, toNumber: string -> Double): (r: PriceRange)
    ensures r.NoRange? <==> s.None? || s.value == ""
    ensures r.Range? <==> s.Some? && s.value != "" && WellOrderedPair(s.value, toNumber)
    ensures r.InvalidRange? <==> s.Some? && s.value != "" && !WellOrderedPair(s.value, toNumber)
    ensures r.Range? ==> !r.minPrice.NaN? && !r.maxPrice.NaN? && Le(r.minPrice, r.maxPrice)
    ensures r.Range? ==> && r.minPrice == toNumber(Split(s.value, '-')[0])
                         && |Split(s.value, '-')| >= 2
                         && r.maxPrice == toNumber(Split(s.value, '-')[1])
  {
    if s.None? || s.value == "" then NoRange
    else
      var parts := Split(s.value, '-');
      var lo := SegmentNumber(parts, 0, toNumber);
      var hi := SegmentNumber(parts, 1, toNumber);
      if lo.NaN? || hi.NaN? || Gt(lo, hi) then InvalidRange else Range(lo, hi)
  }

  /** Only the first two `-`-separated segments are read: anything after a second `-`
      is ignored. */
  lemma ExtraSegmentsIgnored(lo: string, hi: string, rest: string, toNumber: string -> Double)
    requires '-' !in lo && '-' !in hi
    ensures ParsePriceRange(Some(lo + "-" + hi + "-" + rest), toNumber)
            == ParsePriceRange(Some(lo + "-" + hi), toNumber)
  {
    SplitConcat(lo, hi, '-');
    SplitConcat(lo + "-" + hi, rest, '-');
    SplitNoSeparator(lo, '-');
    SplitNoSeparator(hi, '-');
    assert Split(lo + "-" + hi, '-') == [lo, hi];
    assert Split(lo + "-" + hi + "-" + rest, '-') == [lo, hi] + Split(rest, '-');
  }

  /** A non-empty parameter without a `-` has no upper bound and is rejected. */
  lemma SingleSegmentRejected(s: string, toNumber: string -> Double)
    requires s != "" && '-' !in s
    ensures ParsePriceRange(Some(s), toNumber) == InvalidRange
  {
    SplitNoSeparator(s, '-');
  }

  /** A rendered `min-max` pair reads back as itself when `min <= max` and is rejected
      otherwise, given that `Number` reads a rendered integer as that integer. */
  lemma PriceRangeRoundTrip(m: nat, n: nat, toNumber: string -> Double)
    requires toNumber(NatToString(m)) == Fin(m as real)
    requires toNumber(NatToString(n)) == Fin(n as real)
    ensures ParsePriceRange(Some(NatToString(m) + "-" + NatToString(n)), toNumber)
            == if m <= n then Range(Fin(m as real), Fin(n as real)) else InvalidRange
  {
    NoDashInDigits(m);
    NoDashInDigits(n);
    SplitAtDash(NatToString(m), NatToString(n));
  }

  /** A decimal rendering holds no `-`. */
  lemma NoDashInDigits(m: nat)
    ensures '-' !in NatToString(m)
  {
    var a := NatToString(m);
    assert forall i :: 0 <= i < |a| ==> a[i] != '-';
  }

  /** Two dash-free texts joined by one `-` split back into the two. */
  lemma SplitAtDash(a: string, b: string)
    requires '-' !in a && '-' !in b
    ensures Split(a + "-" + b, '-') == [a, b]
  {
    SplitConcat(a, b, '-');
    SplitNoSeparator(a, '-');
    SplitNoSeparator(b, '-');
  }

  /* ------------------------------------------------------- validateProduct */

  /** What `validateProduct` returns: `{valid: true}` or `{valid: false, message}`. */
  datatype Validation = Valid | Invalid(message: string)

  /** The fields that must be present and truthy, in the order they are checked. */
  const RequiredFields: seq<string> :=
    ["name", "brand", "model", "category_id", "subcategory_id", "condition", "year", "price", "sales_area"]

  /** `typeof v === "string" && v.trim() !== ""`, stated as "a string that is not all
      whitespace"; `NonEmptyStringIsTrimCheck` shows the two agree. */
  predicate NonEmptyString(v: Json) {
    v.Str? && !IsBlank(v.s)
  }

  /** A value passes the string checks exactly when it is a string that `trim` does not
      empty. */
  lemma NonEmptyStringIsTrimCheck(v: Json)
    ensures NonEmptyString(v) <==> v.Str? && Trim(v.s) != ""
  {
    if v.Str? {
      TrimEmptyIffBlank(v.s);
    }
  }

  /** `Number.isInteger(v) && v > 0`. */
  predicate PositiveInteger(v: Json) {
    IsInteger(v) && v.x > 0.0
  }

  /** `["new", "used"].includes(v)`, which compares with `===`. */
  predicate KnownCondition(v: Json) {
    v == Str("new") || v == Str("used")
  }

  /** `Number.isInteger(v) && v >= 1900 && v <= currentYear`. */
  predicate YearInRange(v: Json, currentYear: nat) {
    IsInteger(v) && 1900.0 <= v.x <= currentYear as real
  }

  /** `typeof v === "number" && v > 0`. */
  predicate PositiveNumber(v: Json) {
    v.Num? && v.x > 0.0
  }

  /** The first of `fields` whose value in `body` is falsy. */
  function FirstMissing(fields: seq<string>, body: map<string, Json>): (r: Option<string>)
    ensures r.None? <==> forall i :: 0 <= i < |fields| ==> Truthy(Field(body, fields[i]))
    ensures r.Some? ==> exists k :: && 0 <= k < |fields| && fields[k] == r.value
                                    && !Truthy(Field(body, fields[k]))
                                    && forall j :: 0 <= j < k ==> Truthy(Field(body, fields[j]))
    decreases |fields|
  {
    if |fields| == 0 then None
    else if !Truthy(Field(body, fields[0])) then Some(fields[0])
    else
      var r := FirstMissing(fields[1..], body);
      assert forall i :: 1 <= i < |fields| ==> fields[1..][i - 1] == fields[i];
      r
  }

  /** `validateProduct(product)`. `currentYear` is `new Date().getFullYear()`, taken as a
      parameter since the clock is not modelled. */
  function ValidateProduct(body: map<string, Json>, currentYear: nat): (r: Validation)
    ensures r.Valid? ==> forall i :: 0 <= i < |RequiredFields| ==> Truthy(Field(body, RequiredFields[i]))
    ensures r.Valid? ==> && PositiveInteger(Field(body, "category_id"))
                         && PositiveInteger(Field(body, "subcategory_id"))
                         && KnownCondition(Field(body, "condition"))
                         && YearInRange(Field(body, "year"), currentYear)
                         && PositiveNumber(Field(body, "price"))
  {
    match FirstMissing(RequiredFields, body)
    case Some(f) => Invalid(f + " is required.")
    case None => CheckTypes(body, currentYear)
  }

  /** The checks of `validateProduct` after the presence loop, in source order. */
  function CheckTypes(body: map<string, Json>, currentYear: nat): (r: Validation)
    ensures r.Valid? ==> && PositiveInteger(Field(body, "category_id"))
                         && PositiveInteger(Field(body, "subcategory_id"))
                         && KnownCondition(Field(body, "condition"))
                         && YearInRange(Field(body, "year"), currentYear)
                         && PositiveNumber(Field(body, "price"))
  {
    if !NonEmptyString(Field(body, "name")) then Invalid("Name must be a non-empty string.")
    else if !NonEmptyString(Field(body, "brand")) then Invalid("Brand must be a non-empty string.")
    else if !NonEmptyString(Field(body, "model")) then Invalid("Model must be a non-empty string.")
    else if !NonEmptyString(Field(body, "sales_area")) then Invalid("Sales area must be a non-empty string.")
    else if !PositiveInteger(Field(body, "category_id")) then Invalid("Category ID must be a positive integer.")
    else if !PositiveInteger(Field(body, "subcategory_id")) then Invalid("Sub-Category ID must be a positive integer.")
    else if !KnownCondition(Field(body, "condition")) then Invalid("Condition must be either 'new' or 'used'.")
    else if !YearInRange(Field(body, "year"), currentYear) then
      Invalid("Year must be between 1900 and " + NatToString(currentYear) + ".")
    else if !PositiveNumber(Field(body, "price")) then Invalid("Price must be a positive number.")
    else Valid
  }

  /* ------------------------------------------------- reference: rule list */

  /** One rule a product body must meet: the presence of a field, or one of the checks
      on the values' types and ranges. */
  datatype Rule =
    | Present(field: string)
    | NameIsText | BrandIsText | ModelIsText | SalesAreaIsText
    | CategoryIsId | SubcategoryIsId
    | ConditionIsKnown | YearIsKnown | PriceIsPositive

  /** Whether `body` meets rule `r`. */
  predicate Holds(r: Rule, body: map<string, Json>, currentYear: nat) {
    match r
    case Present(f) => Truthy(Field(body, f))
    case NameIsText => NonEmptyString(Field(body, "name"))
    case BrandIsText => NonEmptyString(Field(body, "brand"))
    case ModelIsText => NonEmptyString(Field(body, "model"))
    case SalesAreaIsText => NonEmptyString(Field(body, "sales_area"))
    case CategoryIsId => PositiveInteger(Field(body, "category_id"))
    case SubcategoryIsId => PositiveInteger(Field(body, "subcategory_id"))
    case ConditionIsKnown => KnownCondition(Field(body, "condition"))
    case YearIsKnown => YearInRange(Field(body, "year"), currentYear)
    case PriceIsPositive => PositiveNumber(Field(body, "price"))
  }

  /** The message reported when a body breaks rule `r`. */
  function Message(r: Rule, currentYear: nat): string {
    match r
    case Present(f) => f + " is required."
    case NameIsText => "Name must be a non-empty string."
    case BrandIsText => "Brand must be a non-empty string."
    case ModelIsText => "Model must be a non-empty string."
    case SalesAreaIsText => "Sales area must be a non-empty string."
    case CategoryIsId => "Category ID must be a positive integer."
    case SubcategoryIsId => "Sub-Category ID must be a positive integer."
    case ConditionIsKnown => "Condition must be either 'new' or 'used'."
    case YearIsKnown => "Year must be between 1900 and " + NatToString(currentYear) + "."
    case PriceIsPositive => "Price must be a positive number."
  }

  /** The rules on the values' types and ranges, run once every field is present. */
  const TypeRules: seq<Rule> := [
    NameIsText, BrandIsText, ModelIsText, SalesAreaIsText, CategoryIsId, SubcategoryIsId,
    ConditionIsKnown, YearIsKnown, PriceIsPositive ]

  /** The rules of `validateProduct`, in the order a product body meets them. */
  function ProductRules(): seq<Rule> {
    Map(f => Present(f), RequiredFields) + TypeRules
  }

  /** The message of the first rule `body` breaks, if any. */
  function FirstFailure(rules: seq<Rule>, body: map<string, Json>, currentYear: nat): (r: Option<string>)
    ensures r.None? <==> forall i :: 0 <= i < |rules| ==> Holds(rules[i], body, currentYear)
    ensures r.Some? ==> exists k :: && 0 <= k < |rules| && Message(rules[k], currentYear) == r.value
                                    && !Holds(rules[k], body, currentYear)
                                    && forall j :: 0 <= j < k ==> Holds(rules[j], body, currentYear)
    decreases |rules|
  {
    if |rules| == 0 then None
    else if !Holds(rules[0], body, currentYear) then Some(Message(rules[0], currentYear))
    else
      var r := FirstFailure(rules[1..], body, currentYear);
      assert forall i :: 1 <= i < |rules| ==> rules[1..][i - 1] == rules[i];
      r
  }

  /** When rule `k` is the first that `body` breaks, its message is the one reported. */
  lemma FirstFailureAt(rules: seq<Rule>, body: map<string, Json>, currentYear: nat, k: nat)
    requires k < |rules| && !Holds(rules[k], body, currentYear)
    requires forall j :: 0 <= j < k ==> Holds(rules[j], body, currentYear)
    ensures FirstFailure(rules, body, currentYear) == Some(Message(rules[k], currentYear))
  {
    var r := FirstFailure(rules, body, currentYear);
    var k' :| && 0 <= k' < |rules| && Message(rules[k'], currentYear) == r.value
              && !Holds(rules[k'], body, currentYear)
              && forall j :: 0 <= j < k' ==> Holds(rules[j], body, currentYear);
    assert k' == k;
  }

  /** The first failure of a concatenation is the first failure of its front part, or
      else of its back part. */
  lemma {:induction false} FirstFailureAppend(xs: seq<Rule>, ys: seq<Rule>, body: map<string, Json>, currentYear: nat)
    ensures FirstFailure(xs + ys, body, currentYear)
            == if FirstFailure(xs, body, currentYear).Some? then FirstFailure(xs, body, currentYear)
               else FirstFailure(ys, body, currentYear)
    decreases |xs|
  {
    if |xs| > 0 {
      assert (xs + ys)[0] == xs[0];
      assert (xs + ys)[1..] == xs[1..] + ys;
      FirstFailureAppend(xs[1..], ys, body, currentYear);
    } else {
      assert xs + ys == ys;
    }
  }

  /** The presence rules fail first at the first missing field. */
  lemma {:induction false} FirstFailureRequired(fields: seq<string>, body: map<string, Json>, currentYear: nat)
    ensures FirstFailure(Map(f => Present(f), fields), body, currentYear)
            == match FirstMissing(fields, body)
               case None => None
               case Some(f) => Some(f + " is required.")
    decreases |fields|
  {
    if |fields| > 0 {
      assert Map(f => Present(f), fields)[1..] == Map(f => Present(f), fields[1..]);
      FirstFailureRequired(fields[1..], body, currentYear);
    }
  }

  /** When one of the four string rules is the first broken, the `if` chain returns its
      message. */
  lemma CheckTypesStopsAtText(body: map<string, Json>, currentYear: nat, k: nat)
    requires k < 4 && !Holds(TypeRules[k], body, currentYear)
    requires forall j :: 0 <= j < k ==> Holds(TypeRules[j], body, currentYear)
    ensures CheckTypes(body, currentYear) == Invalid(Message(TypeRules[k], currentYear))
  {
    var rs := TypeRules;
    var y := currentYear;
    if k == 0 {
      assert !NonEmptyString(Field(body, "name")) by { assert !Holds(rs[0], body, y); }
    } else {
      assert NonEmptyString(Field(body, "name")) by { assert Holds(rs[0], body, y); }
      if k == 1 {
        assert !NonEmptyString(Field(body, "brand")) by { assert !Holds(rs[1], body, y); }
      } else {
        assert NonEmptyString(Field(body, "brand")) by { assert Holds(rs[1], body, y); }
        if k == 2 {
          assert !NonEmptyString(Field(body, "model")) by { assert !Holds(rs[2], body, y); }
        } else {
          assert NonEmptyString(Field(body, "model")) by { assert Holds(rs[2], body, y); }
          assert !NonEmptyString(Field(body, "sales_area")) by { assert !Holds(rs[3], body, y); }
        }
      }
    }
  }

  /** Every string rule holds when the first broken rule comes after them. */
  lemma TextRulesHold(body: map<string, Json>, currentYear: nat, k: nat)
    requires 4 <= k <= |TypeRules|
    requires forall j :: 0 <= j < k ==> Holds(TypeRules[j], body, currentYear)
    ensures && NonEmptyString(Field(body, "name")) && NonEmptyString(Field(body, "brand"))
            && NonEmptyString(Field(body, "model")) && NonEmptyString(Field(body, "sales_area"))
  {
    var rs := TypeRules;
    var y := currentYear;
    assert NonEmptyString(Field(body, "name")) by { assert Holds(rs[0], body, y); }
    assert NonEmptyString(Field(body, "brand")) by { assert Holds(rs[1], body, y); }
    assert NonEmptyString(Field(body, "model")) by { assert Holds(rs[2], body, y); }
    assert NonEmptyString(Field(body, "sales_area")) by { assert Holds(rs[3], body, y); }
  }

  /** When one of the two id rules is the first broken, the `if` chain returns its
      message. */
  lemma CheckTypesStopsAtId(body: map<string, Json>, currentYear: nat, k: nat)
    requires 4 <= k < 6 && !Holds(TypeRules[k], body, currentYear)
    requires forall j :: 0 <= j < k ==> Holds(TypeRules[j], body, currentYear)
    ensures CheckTypes(body, currentYear) == Invalid(Message(TypeRules[k], currentYear))
  {
    var rs := TypeRules;
    var y := currentYear;
    TextRulesHold(body, y, k);
    if k == 4 {
      assert !PositiveInteger(Field(body, "category_id")) by { assert !Holds(rs[4], body, y); }
    } else {
      assert PositiveInteger(Field(body, "category_id")) by { assert Holds(rs[4], body, y); }
      assert !PositiveInteger(Field(body, "subcategory_id")) by { assert !Holds(rs[5], body, y); }
    }
  }

  /** When the condition, year or price rule is the first broken, the `if` chain returns
      its message. */
  lemma CheckTypesStopsAtValue(body: map<string, Json>, currentYear: nat, k: nat)
    requires 6 <= k < |TypeRules| && !Holds(TypeRules[k], body, currentYear)
    requires forall j :: 0 <= j < k ==> Holds(TypeRules[j], body, currentYear)
    ensures CheckTypes(body, currentYear) == Invalid(Message(TypeRules[k], currentYear))
  {
    var rs := TypeRules;
    var y := currentYear;
    TextRulesHold(body, y, k);
    assert PositiveInteger(Field(body, "category_id")) by { assert Holds(rs[4], body, y); }
    assert PositiveInteger(Field(body, "subcategory_id")) by { assert Holds(rs[5], body, y); }
    if k == 6 {
      assert !KnownCondition(Field(body, "condition")) by { assert !Holds(rs[6], body, y); }
    } else {
      assert KnownCondition(Field(body, "condition")) by { assert Holds(rs[6], body, y); }
      if k == 7 {
        assert !YearInRange(Field(body, "year"), y) by { assert !Holds(rs[7], body, y); }
      } else {
        assert YearInRange(Field(body, "year"), y) by { assert Holds(rs[7], body, y); }
        assert !PositiveNumber(Field(body, "price")) by { assert !Holds(rs[8], body, y); }
      }
    }
  }

  /** When every type rule holds, the `if` chain accepts. */
  lemma CheckTypesAccepts(body: map<string, Json>, currentYear: nat)
    requires forall j :: 0 <= j < |TypeRules| ==> Holds(TypeRules[j], body, currentYear)
    ensures CheckTypes(body, currentYear) == Valid
  {
    var rs := TypeRules;
    var y := currentYear;
    TextRulesHold(body, y, |TypeRules|);
    assert PositiveInteger(Field(body, "category_id")) by { assert Holds(rs[4], body, y); }
    assert PositiveInteger(Field(body, "subcategory_id")) by { assert Holds(rs[5], body, y); }
    assert KnownCondition(Field(body, "condition")) by { assert Holds(rs[6], body, y); }
    assert YearInRange(Field(body, "year"), y) by { assert Holds(rs[7], body, y); }
    assert PositiveNumber(Field(body, "price")) by { assert Holds(rs[8], body, y); }
  }

  /** The type rules fail first where the `if` chain of `validateProduct` returns. */
  lemma FirstFailureTypes(body: map<string, Json>, currentYear: nat)
    ensures CheckTypes(body, currentYear)
            == match FirstFailure(TypeRules, body, currentYear)
               case None => Valid
               case Some(m) => Invalid(m)
  {
    var rs := TypeRules;
    var passed := 0;
    while passed < |rs| && Holds(rs[passed], body, currentYear)
      invariant passed <= |rs|
      invariant forall j :: 0 <= j < passed ==> Holds(rs[j], body, currentYear)
    {
      passed := passed + 1;
    }
    if passed < |rs| {
      FirstFailureAt(rs, body, currentYear, passed);
      if passed < 4 {
        CheckTypesStopsAtText(body, currentYear, passed);
      } else if passed < 6 {
        CheckTypesStopsAtId(body, currentYear, passed);
      } else {
        CheckTypesStopsAtValue(body, currentYear, passed);
      }
    } else {
      CheckTypesAccepts(body, currentYear);
    }
  }

  /** `validateProduct` reports exactly the message of the first rule in `ProductRules`
      that the body breaks, and accepts exactly when it breaks none. */
  lemma ValidateIsFirstFailure(body: map<string, Json>, currentYear: nat)
    ensures ValidateProduct(body, currentYear)
            == match FirstFailure(ProductRules(), body, currentYear)
               case None => Valid
               case Some(m) => Invalid(m)
  {
    FirstFailureAppend(Map(f => Present(f), RequiredFields), TypeRules, body, currentYear);
    FirstFailureRequired(RequiredFields, body, currentYear);
    if FirstMissing(RequiredFields, body).None? {
      FirstFailureTypes(body, currentYear);
    }
  }

  /** Every field present, and every value of the right type and range. */
  predicate WellFormed(body: map<string, Json>, currentYear: nat) {
    && (forall i :: 0 <= i < |RequiredFields| ==> Truthy(Field(body, RequiredFields[i])))
    && NonEmptyString(Field(body, "name"))
    && NonEmptyString(Field(body, "brand"))
    && NonEmptyString(Field(body, "model"))
    && NonEmptyString(Field(body, "sales_area"))
    && PositiveInteger(Field(body, "category_id"))
    && PositiveInteger(Field(body, "subcategory_id"))
    && KnownCondition(Field(body, "condition"))
    && YearInRange(Field(body, "year"), currentYear)
    && PositiveNumber(Field(body, "price"))
  }

  /** `{valid: true}` is returned exactly for well-formed bodies. */
  lemma ValidIffWellFormed(body: map<string, Json>, currentYear: nat)
    ensures ValidateProduct(body, currentYear).Valid? <==> WellFormed(body, currentYear)
  {
  }

  /** When field `k` of the required list is the first falsy one, it is the one
      reported. */
  lemma FirstMissingFieldReported(body: map<string, Json>, currentYear: nat, k: nat)
    requires k < |RequiredFields|
    requires forall j :: 0 <= j < k ==> Truthy(Field(body, RequiredFields[j]))
    requires !Truthy(Field(body, RequiredFields[k]))
    ensures ValidateProduct(body, currentYear) == Invalid(RequiredFields[k] + " is required.")
  {
    var f := FirstMissing(RequiredFields, body);
    var k' :| && 0 <= k' < |RequiredFields| && RequiredFields[k'] == f.value
              && !Truthy(Field(body, RequiredFields[k']))
              && forall j :: 0 <= j < k' ==> Truthy(Field(body, RequiredFields[j]));
    assert k' == k;
  }
}
