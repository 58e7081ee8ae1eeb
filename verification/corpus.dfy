/** The in-memory search corpus of the NLP service: a snapshot of tokenised product
    records (`trainedData`), rebuilt wholesale by `trainModel` and read by
    `getPrediction`. The snapshot is passed in and returned explicitly, so the module
    variable becomes the state of a two-operation state machine. */
module Corpus {
  import opened Wrappers
  import opened Seqs

  /** The text analysis the service delegates to libraries: `String.prototype.toLowerCase`
      and the `natural` library's `WordTokenizer.tokenize`. Both are left uninterpreted. */
  datatype Analyzer = Analyzer(lower: string -> string, tokenize: string -> seq<string>)

  /** `tokenizer.tokenize(text.toLowerCase())`: the one tokenisation used both when
      training and when querying. */
  function Tokens(a: Analyzer, text: string): seq<string> {
    a.tokenize(a.lower(text))
  }

  /** The columns copied unchanged from a product row into a corpus record and on into
      search results. SQL NULLs are `None`. */
  datatype Details = Details(
    id: int,
    brand: Option<string>,
    model: Option<string>,
    year: Option<int>,
    categoryName: Option<string>,
    subcategoryName: Option<string>,
    description: Option<string>,
    supplierId: Option<int>,
    imageUrl: Option<string>)

  /** One row of the catalogue query (products joined with their category names). */
  datatype ProductRow = ProductRow(
    details: Details,
    name: Option<string>,
    condition: Option<string>,
    salesArea: Option<string>,
    price: Option<real>)

  /** One corpus record: the row with its name and sales area tokenised. */
  datatype Entry = Entry(
    details: Details,
    nameTokens: seq<string>,
    condition: Option<string>,
    salesAreaTokens: seq<string>,
    price: Option<real>)

  /** The snapshot before any training: `let trainedData = []`. */
  const Untrained: seq<Entry> := []

  /** Builds the record for one row; `None` when `row.name` or `row.sales_area` is NULL,
      where calling `toLowerCase` on it throws. */
  function BuildEntry(a: Analyzer, row: ProductRow): (e: Option<Entry>)
    ensures e.None? <==> row.name.None? || row.salesArea.None?
    ensures e.Some? ==> && e.value.details == row.details
                        && e.value.nameTokens == Tokens(a, row.name.value)
                        && e.value.salesAreaTokens == Tokens(a, row.salesArea.value)
                        && e.value.condition == row.condition
                        && e.value.price == row.price
  {
    if row.name.None? || row.salesArea.None? then None
    else Some(Entry(row.details, Tokens(a, row.name.value), row.condition,
                    Tokens(a, row.salesArea.value), row.price))
  }

  /** `rows.map(…)`: every record, in row order, or `None` if building any one throws
      (the exception abandons the whole map). */
  function BuildAll(a: Analyzer, rows: seq<ProductRow>): (r: Option<seq<Entry>>)
    ensures r.None? <==> exists i :: 0 <= i < |rows| && BuildEntry(a, rows[i]).None?
    ensures r.Some? ==> |r.value| == |rows|
    ensures r.Some? ==> forall i :: 0 <= i < |rows| ==> Some(r.value[i]) == BuildEntry(a, rows[i])
    decreases |rows|
  {
    if |rows| == 0 then Some([])
    else
      var init := BuildAll(a, rows[..|rows| - 1]);
      var last := BuildEntry(a, rows[|rows| - 1]);
      if init.None? then
        assert forall i :: 0 <= i < |rows| - 1 ==> rows[..|rows| - 1][i] == rows[i];
        None
      else if last.None? then None
      else Some(init.value + [last.value])
  }

  /** What `trainModel` reports, and the snapshot it leaves behind. */
  datatype TrainResult = TrainResult(ok: bool, snapshot: seq<Entry>)

  /** `trainModel()`. `fetched` is the catalogue query's result, `None` when the query
      itself fails. The snapshot is replaced only when the query returned rows and every
      row could be tokenised; otherwise the call reports failure and the old snapshot
      stays. */
  function Train(a: Analyzer, snapshot: seq<Entry>, fetched: Option<seq<ProductRow>>): (r: TrainResult)
    ensures !r.ok ==> r.snapshot == snapshot
    ensures r.ok <==> && fetched.Some? && |fetched.value| > 0
                      && forall i :: 0 <= i < |fetched.value| ==>
                           fetched.value[i].name.Some? && fetched.value[i].salesArea.Some?
    ensures r.ok ==> |r.snapshot| == |fetched.value|
    ensures r.ok ==> forall i :: 0 <= i < |r.snapshot| ==>
                       && r.snapshot[i].details == fetched.value[i].details
                       && r.snapshot[i].nameTokens == Tokens(a, fetched.value[i].name.value)
                       && r.snapshot[i].salesAreaTokens == Tokens(a, fetched.value[i].salesArea.value)
                       && r.snapshot[i].condition == fetched.value[i].condition
                       && r.snapshot[i].price == fetched.value[i].price
  {
    match fetched
    case None => TrainResult(false, snapshot)
    case Some(rows) =>
      if |rows| == 0 then TrainResult(false, snapshot)
      else
        match BuildAll(a, rows)
        case None => TrainResult(false, snapshot)
        case Some(entries) => TrainResult(true, entries)
  }

  /** `tokens.some(t => data.nameTokens.includes(t)) || tokens.some(t => data.salesAreaTokens.includes(t))`. */
  predicate SharesToken(tokens: seq<string>, e: Entry) {
    exists t :: t in tokens && (t in e.nameTokens || t in e.salesAreaTokens)
  }

  /** The filter `getPrediction` applies for a given query's tokens. */
  function Overlaps(tokens: seq<string>): Entry -> bool {
    e => SharesToken(tokens, e)
  }

  /** `getPrediction(queryText)`: `None` (the source's `null`) when the snapshot is empty,
      otherwise the records sharing a token with the query, in snapshot order. The
      source's final `map` copies every field, so records are returned unchanged. */
  function Predict(a: Analyzer, snapshot: seq<Entry>, query: string): (r: Option<seq<Entry>>)
    ensures r.None? <==> |snapshot| == 0
    ensures r.Some? ==> forall e :: e in r.value <==> e in snapshot && SharesToken(Tokens(a, query), e)
  {
    if |snapshot| == 0 then None
    else Some(Filter(snapshot, Overlaps(Tokens(a, query))))
  }

  /* ------------------------------------------------------------ properties */

  /** Predictions are an order-preserving subsequence of the snapshot. */
  lemma PredictIsSubsequence(a: Analyzer, snapshot: seq<Entry>, query: string)
    requires |snapshot| > 0
    ensures IsSubsequence(Predict(a, snapshot, query).value, snapshot)
  {
    FilterIsSubsequence(snapshot, Overlaps(Tokens(a, query)));
  }

  /** Training and querying tokenise alike: querying with a row's own name finds that
      row's record whenever the name yields at least one token. */
  lemma QueryByOwnNameFindsRecord(a: Analyzer, snapshot: seq<Entry>, rows: seq<ProductRow>, i: nat)
    requires Train(a, snapshot, Some(rows)).ok
    requires i < |rows| && |Tokens(a, rows[i].name.value)| > 0
    ensures var s := Train(a, snapshot, Some(rows)).snapshot;
            s[i] in Predict(a, s, rows[i].name.value).value
  {
    var s := Train(a, snapshot, Some(rows)).snapshot;
    var tokens := Tokens(a, rows[i].name.value);
    assert tokens[0] in tokens && tokens[0] in s[i].nameTokens;
  }

  /** A successful training does not depend on the snapshot it replaces. */
  lemma TrainForgetsPriorSnapshot(a: Analyzer, s1: seq<Entry>, s2: seq<Entry>, fetched: Option<seq<ProductRow>>)
    requires Train(a, s1, fetched).ok
    ensures Train(a, s2, fetched) == Train(a, s1, fetched)
  {
  }

  /** Training twice on unchanged data leaves the same snapshot as training once. */
  lemma TrainIdempotent(a: Analyzer, snapshot: seq<Entry>, fetched: Option<seq<ProductRow>>)
    ensures var once := Train(a, snapshot, fetched);
            Train(a, once.snapshot, fetched) == once
  {
  }

  /** Successive training attempts from `snapshot`, one per catalogue fetch. */
  function Replay(a: Analyzer, snapshot: seq<Entry>, fetches: seq<Option<seq<ProductRow>>>): seq<Entry>
    decreases |fetches|
  {
    if |fetches| == 0 then snapshot
    else Train(a, Replay(a, snapshot, fetches[..|fetches| - 1]), fetches[|fetches| - 1]).snapshot
  }

  /** Whether training on `fetched` succeeds; by `Train`'s contract this does not depend
      on the current snapshot. */
  predicate TrainSucceeds(a: Analyzer, fetched: Option<seq<ProductRow>>) {
    Train(a, Untrained, fetched).ok
  }

  /** From process start, the service answers "not trained" exactly as long as every
      training attempt so far has failed; one success makes it trained for good. */
  lemma {:induction false} UntrainedIffAllTrainingFailed(a: Analyzer, fetches: seq<Option<seq<ProductRow>>>, query: string)
    ensures Predict(a, Replay(a, Untrained, fetches), query).None?
            <==> forall i :: 0 <= i < |fetches| ==> !TrainSucceeds(a, fetches[i])
    decreases |fetches|
  {
    if |fetches| > 0 {
      var init := fetches[..|fetches| - 1];
      var last := fetches[|fetches| - 1];
      UntrainedIffAllTrainingFailed(a, init, query);
      var before := Replay(a, Untrained, init);
      if TrainSucceeds(a, last) {
        TrainForgetsPriorSnapshot(a, Untrained, before, last);
      } else {
        assert !Train(a, before, last).ok;
      }
      assert forall i :: 0 <= i < |fetches| - 1 ==> init[i] == fetches[i];
    }
  }
}
