/** `queryNlpModel`, the search endpoint over the trained corpus: clamp the paging
    parameters, reject an empty query, take the corpus predictions, narrow them by an
    AND of four clauses (condition, sales area, name, price), then paginate and project. */
module NlpSearch {
  import opened Wrappers
  import opened Seqs
  import opened JsValues
  import opened JsText
  import opened Paging
  import opened Corpus
  import opened PricePhrases

  /** The page size used when `pageSize` does not parse. */
  const DefaultPageSize: nat := 10

  /** `userQuery.toLowerCase().split(" ")`: the refinement clauses use plain space
      splitting, not the corpus tokenizer. */
  function QueryWords(a: Analyzer, query: string): seq<string> {
    Split(a.lower(query), ' ')
  }

  /** `item.condition ? words.includes(item.condition.toLowerCase()) : true`. */
  predicate ConditionClause(a: Analyzer, words: seq<string>, e: Entry) {
    match e.condition
    case None => true
    case Some(c) => c == "" || a.lower(c) in words
  }

  /** `item.salesAreaTokens.some(t => words.includes(t.toLowerCase()))`. */
  predicate AreaClause(a: Analyzer, words: seq<string>, e: Entry) {
    exists t :: t in e.salesAreaTokens && a.lower(t) in words
  }

  /** `item.nameTokens.some(t => words.includes(t.toLowerCase()))`. */
  predicate NameClause(a: Analyzer, words: seq<string>, e: Entry) {
    exists t :: t in e.nameTokens && a.lower(t) in words
  }

  /** `item.price && price >= minPrice && price <= maxPrice`: a missing or zero price
      fails, as does any price under a NaN bound. */
  predicate PriceClause(b: Bound, e: Entry) {
    e.price.Some? && e.price.value != 0.0 && Admits(b, e.price.value)
  }

  /** The four clauses, all of which must hold. */
  predicate Keep(a: Analyzer, words: seq<string>, b: Bound, e: Entry) {
    ConditionClause(a, words, e) && AreaClause(a, words, e) && NameClause(a, words, e) && PriceClause(b, e)
  }

  function Keeps(a: Analyzer, words: seq<string>, b: Bound): Entry -> bool {
    e => Keep(a, words, b, e)
  }

  /** One element of the response's `data`. */
  datatype Item = Item(
    details: Details,
    nameTokens: seq<string>,
    condition: Option<string>,
    salesArea: string,
    price: Option<real>)

  /** The response shape: every field copied, except that the sales-area tokens are
      joined with single spaces. */
  function Project(e: Entry): (it: Item)
    ensures it.details == e.details && it.nameTokens == e.nameTokens
    ensures it.condition == e.condition && it.price == e.price
    ensures it.salesArea == Join(e.salesAreaTokens, ' ')
  {
    Item(e.details, e.nameTokens, e.condition, Join(e.salesAreaTokens, ' '), e.price)
  }

  /** The request: `req.body.query`, any JSON value, and the raw `page` / `pageSize`
      query parameters. */
  datatype SearchRequest = SearchRequest(query: Json, page: Option<string>, pageSize: Option<string>)

  /** The four ways the endpoint answers: 400 "Query is required.", 404 "No matches
      found.", the error handed to `next` when a query that is not a string reaches
      `toLowerCase`, or 200 with a page of results and its metadata. */
  datatype SearchOutcome =
    | QueryRequired
    | NoMatches
    | QueryFailed
    | Results(data: seq<Item>, totalItems: nat, totalPages: nat, currentPage: nat, pageSize: nat)

  /** `Math.max(1, parseInt(req.query.page, 10)) || 1`. */
  function RequestPage(req: SearchRequest): nat {
    ClampPage(ParseParam(req.page, Decimal))
  }

  /** `Math.min(Math.max(1, parseInt(req.query.pageSize, 10)), 100) || 10`. */
  function RequestPageSize(req: SearchRequest): nat {
    ClampPageSize(ParseParam(req.pageSize, Decimal), DefaultPageSize)
  }

  /** `queryNlpModel`. `matches` are the price-phrase matches the regular expression
      finds in the query text. A truthy query that is not a string gets past the
      emptiness check; `getPrediction` then answers `null` for an empty corpus and
      otherwise throws at `queryText.toLowerCase()`. */
  function QueryNlpModel(a: Analyzer, snapshot: seq<Entry>, req: SearchRequest, matches: seq<PriceMatch>)
    : (r: SearchOutcome)
    ensures r.QueryRequired? <==> !Truthy(req.query)
    ensures r.QueryFailed? <==> Truthy(req.query) && !req.query.Str? && |snapshot| > 0
    ensures Truthy(req.query) && |snapshot| == 0 ==> r.NoMatches?
    ensures Truthy(req.query) && req.query.Str? && Predict(a, snapshot, req.query.s) == Some([]) ==> r.NoMatches?
    ensures r.Results? ==>
      && req.query.Str?
      && r.currentPage >= 1 && 1 <= r.pageSize <= MaxPageSize
      && |r.data| <= r.pageSize
      && r.totalItems >= 1
      && r.totalPages == TotalPages(r.totalItems, r.pageSize)
  {
    var page := RequestPage(req);
    var pageSize := RequestPageSize(req);
    if !Truthy(req.query) then QueryRequired
    else if !req.query.Str? then
      if |snapshot| == 0 then NoMatches else QueryFailed
    else
      var q := req.query.s;
      match Predict(a, snapshot, q)
      case None => NoMatches
      case Some(predictions) =>
        if |predictions| == 0 then NoMatches
        else
          var filtered := Filter(predictions, Keeps(a, QueryWords(a, q), PriceBound(matches)));
          if |filtered| == 0 then NoMatches
          else
            var shown := PageOf(filtered, page, pageSize);
            Results(Map(Project, shown), |filtered|, TotalPages(|filtered|, pageSize), page, pageSize)
  }

  /* ------------------------------------------------------------ properties */

  /** The records a query returns, defined in one pass over the corpus: those sharing a
      tokenizer token with the query and passing all four clauses, in corpus order. */
  function Matching(a: Analyzer, snapshot: seq<Entry>, query: string, matches: seq<PriceMatch>): seq<Entry> {
    Filter(snapshot, Both(Overlaps(Tokens(a, query)), Keeps(a, QueryWords(a, query), PriceBound(matches))))
  }

  /** The two-stage search (predictions, then refinement) agrees with `Matching`: it
      answers "No matches found." exactly when `Matching` is empty, and otherwise
      reports its size and shows the requested page of it. */
  lemma SearchAgreesWithMatching(a: Analyzer, snapshot: seq<Entry>, req: SearchRequest, matches: seq<PriceMatch>)
    requires req.query.Str? && req.query.s != ""
    ensures var r := QueryNlpModel(a, snapshot, req, matches);
            var m := Matching(a, snapshot, req.query.s, matches);
            && (r.NoMatches? <==> |m| == 0)
            && (r.Results? ==> && r.totalItems == |m|
                               && r.currentPage == RequestPage(req)
                               && r.pageSize == RequestPageSize(req)
                               && r.totalPages == TotalPages(|m|, RequestPageSize(req))
                               && r.data == Map(Project, PageOf(m, RequestPage(req), RequestPageSize(req))))
  {
    var q := req.query.s;
    var keeps := Keeps(a, QueryWords(a, q), PriceBound(matches));
    if |snapshot| > 0 {
      FilterFilter(snapshot, Overlaps(Tokens(a, q)), keeps);
    }
  }

  /** Search results keep corpus order: the matching records are an order-preserving
      subsequence of the snapshot. */
  lemma MatchingIsSubsequence(a: Analyzer, snapshot: seq<Entry>, query: string, matches: seq<PriceMatch>)
    ensures IsSubsequence(Matching(a, snapshot, query, matches), snapshot)
  {
    FilterIsSubsequence(snapshot, Both(Overlaps(Tokens(a, query)), Keeps(a, QueryWords(a, query), PriceBound(matches))));
  }

  /** Every item shown is the projection of a corpus record that shares a token with the
      query and passes the condition, sales-area, name and price clauses. */
  lemma ResultsPassEveryClause(a: Analyzer, snapshot: seq<Entry>, req: SearchRequest, matches: seq<PriceMatch>, it: Item)
    requires QueryNlpModel(a, snapshot, req, matches).Results?
    requires it in QueryNlpModel(a, snapshot, req, matches).data
    ensures exists e :: && e in snapshot && it == Project(e)
                        && SharesToken(Tokens(a, req.query.s), e)
                        && Keep(a, QueryWords(a, req.query.s), PriceBound(matches), e)
  {
    SearchAgreesWithMatching(a, snapshot, req, matches);
    var m := Matching(a, snapshot, req.query.s, matches);
    var shown := PageOf(m, RequestPage(req), RequestPageSize(req));
    var i :| 0 <= i < |shown| && it == Project(shown[i]);
    assert shown[i] in m;
  }

  /** The `salesArea` string a result carries splits back into the record's area tokens,
      provided the tokenizer produced at least one token and none containing a space. */
  lemma ProjectedAreaSplitsBack(e: Entry)
    requires |e.salesAreaTokens| >= 1
    requires forall i :: 0 <= i < |e.salesAreaTokens| ==> ' ' !in e.salesAreaTokens[i]
    ensures Split(Project(e).salesArea, ' ') == e.salesAreaTokens
  {
    SplitJoin(e.salesAreaTokens, ' ');
  }

  /** The scanner record used by the scenario below. */
  function Scanner(d: Details): Entry {
    Entry(d, ["ultrasound", "scanner"], Some("used"), ["texas"], Some(300.0))
  }

  /** Over a one-record corpus the matching list is that record or nothing. */
  lemma OneRecordMatching(a: Analyzer, e: Entry, q: string, matches: seq<PriceMatch>)
    ensures var p := Both(Overlaps(Tokens(a, q)), Keeps(a, QueryWords(a, q), PriceBound(matches)));
            Matching(a, [e], q, matches) == if p(e) then [e] else []
  {
    var p := Both(Overlaps(Tokens(a, q)), Keeps(a, QueryWords(a, q), PriceBound(matches)));
    FilterSnoc([], e, p);
    assert [] + [e] == [e];
  }

  /** A query matching the only record shows it on page one of one, with the default
      page size when no paging parameters are given. */
  lemma OneRecordFound(a: Analyzer, e: Entry, q: string, matches: seq<PriceMatch>)
    requires q != ""
    requires Matching(a, [e], q, matches) == [e]
    ensures QueryNlpModel(a, [e], SearchRequest(Str(q), None, None), matches)
            == Results([Project(e)], 1, 1, 1, DefaultPageSize)
  {
    var req := SearchRequest(Str(q), None, None);
    NoPagingParameters(req);
    SomeMatchesShown(a, [e], req, matches);
    OneEntryPage(e);
    calc {
      QueryNlpModel(a, [e], req, matches);
      Results(Map(Project, PageOf([e], 1, DefaultPageSize)), 1, TotalPages(1, DefaultPageSize), 1, DefaultPageSize);
      Results([Project(e)], 1, 1, 1, DefaultPageSize);
    }
  }

  /** A single record fills page one at the default size by itself. */
  lemma OneEntryPage(e: Entry)
    ensures Map(Project, PageOf([e], 1, DefaultPageSize)) == [Project(e)]
    ensures TotalPages(1, DefaultPageSize) == 1
  {
    assert PageOf([e], 1, DefaultPageSize) == [e];
  }

  /** When `Matching` is not empty, the answer is the requested page of it. */
  lemma SomeMatchesShown(a: Analyzer, snapshot: seq<Entry>, req: SearchRequest, matches: seq<PriceMatch>)
    requires req.query.Str? && req.query.s != ""
    requires |Matching(a, snapshot, req.query.s, matches)| > 0
    ensures var m := Matching(a, snapshot, req.query.s, matches);
            QueryNlpModel(a, snapshot, req, matches)
            == Results(Map(Project, PageOf(m, RequestPage(req), RequestPageSize(req))), |m|,
                       TotalPages(|m|, RequestPageSize(req)), RequestPage(req), RequestPageSize(req))
  {
    SearchAgreesWithMatching(a, snapshot, req, matches);
  }

  /** Without `page` and `pageSize` the first page is shown at the default size. */
  lemma NoPagingParameters(req: SearchRequest)
    requires req.page.None? && req.pageSize.None?
    ensures RequestPage(req) == 1 && RequestPageSize(req) == DefaultPageSize
  {
  }

  /** A query matching nothing answers "No matches found.". */
  lemma NothingMatchedNoMatches(a: Analyzer, snapshot: seq<Entry>, q: string, matches: seq<PriceMatch>)
    requires q != ""
    requires Matching(a, snapshot, q, matches) == []
    ensures QueryNlpModel(a, snapshot, SearchRequest(Str(q), None, None), matches) == NoMatches
  {
    SearchAgreesWithMatching(a, snapshot, SearchRequest(Str(q), None, None), matches);
  }

  /** A query whose lower-cased text is words joined by single spaces splits back into
      exactly those words. */
  lemma QueryWordsOfJoin(a: Analyzer, q: string, words: seq<string>)
    requires |words| >= 1 && forall i :: 0 <= i < |words| ==> ' ' !in words[i]
    requires a.lower(q) == Join(words, ' ')
    ensures QueryWords(a, q) == words
  {
    SplitJoin(words, ' ');
  }

  /* The scenario below: one used ultrasound scanner sold in Texas at 300, trained
     alone. The analyzer is only pinned down on the strings involved. */

  /** Training on the scanner's row yields the single `Scanner` record. */
  lemma ScannerTrains(a: Analyzer, d: Details)
    requires a.lower("Ultrasound Scanner") == "ultrasound scanner"
    requires a.tokenize("ultrasound scanner") == ["ultrasound", "scanner"]
    requires a.lower("Texas") == "texas" && a.tokenize("texas") == ["texas"]
    ensures var row := ProductRow(d, Some("Ultrasound Scanner"), Some("used"), Some("Texas"), Some(300.0));
            Train(a, Untrained, Some([row])) == TrainResult(true, [Scanner(d)])
  {
  }

  /* The query texts of the scenario, built word by word; each step is one literal
     concatenation. */

  lemma UnderText()
    ensures "under" + [' '] + "500" == "under 500"
  {
  }

  lemma TexasText()
    ensures "texas" + [' '] + "under 500" == "texas under 500"
  {
  }

  lemma UltrasoundTexasText()
    ensures "ultrasound" + [' '] + "texas under 500" == "ultrasound texas under 500"
  {
  }

  lemma UsedText()
    ensures "used" + [' '] + "ultrasound texas under 500" == "used ultrasound texas under 500"
  {
  }

  lemma UltrasoundUnderText()
    ensures "ultrasound" + [' '] + "under 500" == "ultrasound under 500"
  {
  }

  lemma UsedUltrasoundUnderText()
    ensures "used" + [' '] + "ultrasound under 500" == "used ultrasound under 500"
  {
  }

  /** The price phrase, as words joined by spaces. */
  lemma UnderPhraseJoin()
    ensures Join(["under", "500"], ' ') == "under 500"
  {
    JoinCons("under", ["500"], ' ');
    assert ["under"] + ["500"] == ["under", "500"];
    UnderText();
  }

  /** The full query, as words joined by spaces. */
  lemma FullQueryJoin()
    ensures Join(["used", "ultrasound", "texas", "under", "500"], ' ') == "used ultrasound texas under 500"
  {
    UnderPhraseJoin();
    JoinCons("texas", ["under", "500"], ' ');
    assert ["texas"] + ["under", "500"] == ["texas", "under", "500"];
    TexasText();
    JoinCons("ultrasound", ["texas", "under", "500"], ' ');
    assert ["ultrasound"] + ["texas", "under", "500"] == ["ultrasound", "texas", "under", "500"];
    UltrasoundTexasText();
    JoinCons("used", ["ultrasound", "texas", "under", "500"], ' ');
    assert ["used"] + ["ultrasound", "texas", "under", "500"] == ["used", "ultrasound", "texas", "under", "500"];
    UsedText();
  }

  /** The words of the full query. */
  lemma FullQueryWords(a: Analyzer)
    requires a.lower("used ultrasound texas under 500") == "used ultrasound texas under 500"
    ensures QueryWords(a, "used ultrasound texas under 500") == ["used", "ultrasound", "texas", "under", "500"]
  {
    var w := ["used", "ultrasound", "texas", "under", "500"];
    FullQueryJoin();
    assert ' ' !in w[0];
    assert ' ' !in w[1];
    assert ' ' !in w[2];
    assert ' ' !in w[3];
    assert ' ' !in w[4];
    QueryWordsOfJoin(a, "used ultrasound texas under 500", w);
  }

  /** The name and the price phrase, as words joined by spaces. */
  lemma UltrasoundUnderJoin()
    ensures Join(["ultrasound", "under", "500"], ' ') == "ultrasound under 500"
  {
    UnderPhraseJoin();
    JoinCons("ultrasound", ["under", "500"], ' ');
    assert ["ultrasound"] + ["under", "500"] == ["ultrasound", "under", "500"];
    UltrasoundUnderText();
  }

  /** The query without the area, as words joined by spaces. */
  lemma ShortQueryJoin()
    ensures Join(["used", "ultrasound", "under", "500"], ' ') == "used ultrasound under 500"
  {
    UltrasoundUnderJoin();
    JoinCons("used", ["ultrasound", "under", "500"], ' ');
    assert ["used"] + ["ultrasound", "under", "500"] == ["used", "ultrasound", "under", "500"];
    UsedUltrasoundUnderText();
  }

  /** The words of the query without the area. */
  lemma ShortQueryWords(a: Analyzer)
    requires a.lower("used ultrasound under 500") == "used ultrasound under 500"
    ensures QueryWords(a, "used ultrasound under 500") == ["used", "ultrasound", "under", "500"]
  {
    var w := ["used", "ultrasound", "under", "500"];
    ShortQueryJoin();
    assert ' ' !in w[0];
    assert ' ' !in w[1];
    assert ' ' !in w[2];
    assert ' ' !in w[3];
    QueryWordsOfJoin(a, "used ultrasound under 500", w);
  }

  /** The scanner passes the condition, area and name clauses for the words of the full
      query. */
  lemma ScannerWordClauses(a: Analyzer, d: Details)
    requires a.lower("used") == "used" && a.lower("ultrasound") == "ultrasound" && a.lower("texas") == "texas"
    ensures var w := ["used", "ultrasound", "texas", "under", "500"];
            ConditionClause(a, w, Scanner(d)) && AreaClause(a, w, Scanner(d)) && NameClause(a, w, Scanner(d))
  {
    var w := ["used", "ultrasound", "texas", "under", "500"];
    var e := Scanner(d);
    assert e.salesAreaTokens[0] == w[2];
    assert e.nameTokens[0] == w[1];
  }

  /** The scanner passes all four clauses for the words of the full query. */
  lemma ScannerKeptByFullQuery(a: Analyzer, d: Details)
    requires a.lower("used") == "used" && a.lower("ultrasound") == "ultrasound" && a.lower("texas") == "texas"
    requires a.lower("used ultrasound texas under 500") == "used ultrasound texas under 500"
    ensures Keep(a, QueryWords(a, "used ultrasound texas under 500"),
                 PriceBound([PriceMatch(Under, Some(500), 22)]), Scanner(d))
  {
    FullQueryWords(a);
    ScannerWordClauses(a, d);
    ScannerPriceUnder500(d, 22);
  }

  /** The scanner shares the token "ultrasound" with the full query. */
  lemma ScannerSharesFullQueryToken(a: Analyzer, d: Details)
    requires a.tokenize("used ultrasound texas under 500") == ["used", "ultrasound", "texas", "under", "500"]
    requires a.lower("used ultrasound texas under 500") == "used ultrasound texas under 500"
    ensures SharesToken(Tokens(a, "used ultrasound texas under 500"), Scanner(d))
  {
    var t := Tokens(a, "used ultrasound texas under 500");
    assert t[1] == Scanner(d).nameTokens[0];
    assert t[1] in t && t[1] in Scanner(d).nameTokens;
  }

  /** The scanner's price of 300 is within "under 500". */
  lemma ScannerPriceUnder500(d: Details, index: nat)
    ensures PriceClause(PriceBound([PriceMatch(Under, Some(500), index)]), Scanner(d))
  {
    UnderAlone(Under, 500, index);
    assert Le(Fin(0.0), Fin(300.0)) && Le(Fin(300.0), Fin(500.0));
  }

  /** A query naming the scanner's condition, name and area with "under 500" finds it. */
  lemma ScannerFoundByFullQuery(a: Analyzer, d: Details)
    requires a.lower("used") == "used" && a.lower("ultrasound") == "ultrasound" && a.lower("texas") == "texas"
    requires a.lower("used ultrasound texas under 500") == "used ultrasound texas under 500"
    requires a.tokenize("used ultrasound texas under 500") == ["used", "ultrasound", "texas", "under", "500"]
    ensures QueryNlpModel(a, [Scanner(d)],
                          SearchRequest(Str("used ultrasound texas under 500"), None, None),
                          [PriceMatch(Under, Some(500), 22)])
            == Results([Project(Scanner(d))], 1, 1, 1, DefaultPageSize)
  {
    var e := Scanner(d);
    var q := "used ultrasound texas under 500";
    var m := [PriceMatch(Under, Some(500), 22)];
    ScannerKeptByFullQuery(a, d);
    ScannerSharesFullQueryToken(a, d);
    OneRecordMatching(a, e, q, m);
    OneRecordFound(a, e, q, m);
  }

  /** The same query without the area finds nothing, although the condition, name and
      price clauses all hold: the area clause is required alongside the name clause. */
  lemma ScannerMissedWithoutArea(a: Analyzer, d: Details)
    requires a.lower("used") == "used" && a.lower("ultrasound") == "ultrasound" && a.lower("texas") == "texas"
    requires a.lower("used ultrasound under 500") == "used ultrasound under 500"
    ensures var w := QueryWords(a, "used ultrasound under 500");
            && ConditionClause(a, w, Scanner(d)) && NameClause(a, w, Scanner(d))
            && PriceClause(PriceBound([PriceMatch(Under, Some(500), 16)]), Scanner(d))
            && !AreaClause(a, w, Scanner(d))
    ensures QueryNlpModel(a, [Scanner(d)],
                          SearchRequest(Str("used ultrasound under 500"), None, None),
                          [PriceMatch(Under, Some(500), 16)])
            == NoMatches
  {
    var e := Scanner(d);
    var q := "used ultrasound under 500";
    var m := [PriceMatch(Under, Some(500), 16)];
    ShortQueryWords(a);
    ScannerShortQueryClauses(a, d);
    ScannerPriceUnder500(d, 16);
    ScannerAreaNotInShortQuery(a, d);
    OneRecordMatching(a, e, q, m);
    assert Matching(a, [e], q, m) == [];
    NothingMatchedNoMatches(a, [e], q, m);
  }

  /** The scanner passes the condition and name clauses for the words of the query
      without the area. */
  lemma ScannerShortQueryClauses(a: Analyzer, d: Details)
    requires a.lower("used") == "used" && a.lower("ultrasound") == "ultrasound"
    ensures var w := ["used", "ultrasound", "under", "500"];
            ConditionClause(a, w, Scanner(d)) && NameClause(a, w, Scanner(d))
  {
    var w := ["used", "ultrasound", "under", "500"];
    var e := Scanner(d);
    assert e.nameTokens[0] == w[1];
    assert "used" == w[0];
  }

  /** The scanner's area "texas" is not among the words of the query without the area,
      so the record fails the area clause. */
  lemma ScannerAreaNotInShortQuery(a: Analyzer, d: Details)
    requires a.lower("texas") == "texas"
    requires a.lower("used ultrasound under 500") == "used ultrasound under 500"
    ensures !AreaClause(a, QueryWords(a, "used ultrasound under 500"), Scanner(d))
  {
    ShortQueryWords(a);
    TexasNotAShortQueryWord(a, d);
  }

  /** "texas" is none of "used", "ultrasound", "under" and "500". */
  lemma TexasNotAShortQueryWord(a: Analyzer, d: Details)
    requires a.lower("texas") == "texas"
    ensures !AreaClause(a, ["used", "ultrasound", "under", "500"], Scanner(d))
  {
    var w := ["used", "ultrasound", "under", "500"];
    forall t | t in Scanner(d).salesAreaTokens
      ensures a.lower(t) !in w
    {
      assert t == "texas";
      assert "texas" != w[0] && "texas" != w[1] && "texas" != w[3] by {
        assert |"texas"| != |w[0]| && |"texas"| != |w[1]| && |"texas"| != |w[3]|;
      }
      assert "texas" != w[2] by {
        assert "texas"[0] != w[2][0];
      }
    }
  }
}
