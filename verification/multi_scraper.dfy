/** `MultiScraper`: run every scraper in order, concatenate their validated
    lists, sort the result newest first and write one merged feed. */
module MultiScraper {
  import opened Outcomes
  import opened PyValues
  import Validation
  import FitScraper
  import StableSort
  import opened FeedBuilder

  /** A configured source: the URL a scraper fetches. */
  datatype Source = Source(url: string)

  /** How `fetch` fails: `raise_for_status` on a 4xx or 5xx status, or the
      transport failing before any response. */
  datatype FetchError = HttpError(status: int) | TransportError

  /** What one scraper's turn produced: the fetch failed, or the fetch
      succeeded and the site parser returned a value or raised. */
  datatype SourceRun =
    | FetchFailed(fetchError: FetchError)
    | Fetched(parsed: Result<Value, FitScraper.ParseError>)

  /** Any error that aborts `collect_news`. */
  datatype ScrapeError =
    | Fetch(fetchError: FetchError)
    | Parse(parseError: FitScraper.ParseError)
    | Invalid(validationError: Validation.ValidationError)

  /** Raised by `build_feed` when there is no scraper to take the link from
      (`self.scrapers[0]` is an IndexError). */
  datatype BuildError = NoSources

  /** One scraper's turn: `fetch`, then `parse_content` (parse + validate). */
  function RunSource(run: SourceRun): (r: Result<seq<Value>, ScrapeError>)
    ensures r.Ok? ==> AllNewsItems(r.value)
    ensures r.Ok? <==>
              && run.Fetched? && run.parsed.Ok?
              && Validation.ValidateNewsList(run.parsed.value).Pass?
    ensures r.Ok? ==> run.parsed.value == VList(r.value)
    // which error a failed turn raises: the fetch's, the parser's, or the validator's
    ensures run.FetchFailed? ==> r == Err(Fetch(run.fetchError))
    ensures run.Fetched? && run.parsed.Err? ==> r == Err(Parse(run.parsed.error))
    ensures run.Fetched? && run.parsed.Ok? && r.Err? ==>
              r == Err(Invalid(Validation.ValidateNewsList(run.parsed.value).error))
  {
    match run
    case FetchFailed(e) => Err(Fetch(e))
    case Fetched(Err(e)) => Err(Parse(e))
    case Fetched(Ok(v)) =>
      match Validation.ParseContent(v)
      case Err(e) => Err(Invalid(e))
      case Ok(news) => Ok(news)
  }

  /** The list each scraper contributes (empty for one that failed). */
  function Contributions(runs: seq<SourceRun>): (ls: seq<seq<Value>>)
    ensures |ls| == |runs|
    ensures forall i | 0 <= i < |runs| && RunSource(runs[i]).Ok? :: ls[i] == RunSource(runs[i]).value
  {
    seq(|runs|, i requires 0 <= i < |runs| =>
      match RunSource(runs[i]) case Ok(news) => news case Err(_) => [])
  }

  /** The lists one after the other. */
  function Flatten<T>(ls: seq<seq<T>>): seq<T>
  {
    if |ls| == 0 then [] else Flatten(ls[..|ls| - 1]) + ls[|ls| - 1]
  }

  lemma {:induction false} FlattenAllNewsItems(ls: seq<seq<Value>>)
    requires forall i | 0 <= i < |ls| :: AllNewsItems(ls[i])
    ensures AllNewsItems(Flatten(ls))
  {
    if |ls| > 0 {
      FlattenAllNewsItems(ls[..|ls| - 1]);
    }
  }

  /** `collect_news`: every scraper in order; the first failure aborts the
      whole run and no list is returned at all. */
  method CollectNews(runs: seq<SourceRun>) returns (r: Result<seq<Value>, ScrapeError>)
    ensures r.Ok? <==> forall i | 0 <= i < |runs| :: RunSource(runs[i]).Ok?
    ensures r.Ok? ==> r.value == Flatten(Contributions(runs))
    ensures r.Ok? ==> AllNewsItems(r.value)
    ensures r.Err? ==> exists k | 0 <= k < |runs| ::
              && RunSource(runs[k]) == Err(r.error)
              && forall j | 0 <= j < k :: RunSource(runs[j]).Ok?
  {
    var allNews: seq<Value> := [];
    var i := 0;
    while i < |runs|
      invariant 0 <= i <= |runs|
      invariant forall j | 0 <= j < i :: RunSource(runs[j]).Ok?
      invariant allNews == Flatten(Contributions(runs)[..i])
    {
      match RunSource(runs[i])
      case Err(e) =>
        return Err(e);
      case Ok(news) =>
        assert Contributions(runs)[..i + 1][..i] == Contributions(runs)[..i];
        allNews := allNews + news;
        i := i + 1;
    }
    assert Contributions(runs)[..|runs|] == Contributions(runs);
    FlattenAllNewsItems(Contributions(runs));
    r := Ok(allNews);
  }

  /** `MultiScraper.build_feed`: the merged feed. Entries are handed to the
      writer oldest first so that the document lists them newest first. */
  method BuildFeed(sources: seq<Source>, title: string, description: string, allNews: seq<Value>)
    returns (r: Result<Feed, BuildError>, added: seq<FeedEntry>)
    requires AllNewsItems(allNews)
    ensures r.Ok? <==> |sources| > 0
    ensures r.Ok? ==>
              && r.value.title == title && r.value.link == sources[0].url
              && r.value.description == description
    // the document order is the stable newest-first sort of the merged list
    ensures r.Ok? ==> exists sorted ::
              && StableSort.IsStableDescSort(allNews, sorted, SortKey)
              && AllNewsItems(sorted)
              && r.value.entries == EntriesOf(sorted)
    ensures r.Ok? ==> added == Reverse(r.value.entries)
    // the reported item count
    ensures r.Ok? ==> |r.value.entries| == |allNews|
    ensures r.Err? ==> added == []
  {
    // sorted(all_news, key=lambda x: x["date"], reverse=True)
    var sorted := StableSort.SortNewestFirst(allNews, SortKey);
    if |sources| == 0 {
      return Err(NoSources), [];
    }
    StableSort.SortIsStableDescSort(allNews, SortKey);
    SortedItemsAreNews(allNews, sorted);
    var feed;
    feed, added := AddReversed(NewFeed(title, sources[0].url, description), sorted);
    assert feed.entries == EntriesOf(sorted) + [];
    r := Ok(feed);
  }

  /** A permutation of validated items holds only validated items. */
  lemma SortedItemsAreNews(news: seq<Value>, sorted: seq<Value>)
    requires AllNewsItems(news) && multiset(sorted) == multiset(news)
    ensures AllNewsItems(sorted)
  {
    forall i | 0 <= i < |sorted|
      ensures IsNewsItem(sorted[i])
    {
      assert sorted[i] in multiset(news);
    }
  }

  /** Why a merged run writes no feed. */
  datatype RunError = Collect(scrapeError: ScrapeError) | Build(buildError: BuildError)

  /** `collect_news` followed by `build_feed`: the merged feed is written
      only when every source was fetched, parsed and validated. */
  method GenerateMergedFeed(sources: seq<Source>, runs: seq<SourceRun>, title: string, description: string)
    returns (r: Result<Feed, RunError>)
    requires |runs| == |sources|
    ensures r.Ok? <==> |sources| > 0 && forall i | 0 <= i < |runs| :: RunSource(runs[i]).Ok?
    ensures r.Ok? ==> |r.value.entries| == |Flatten(Contributions(runs))|
    ensures r.Ok? ==> exists sorted ::
              && StableSort.IsStableDescSort(Flatten(Contributions(runs)), sorted, SortKey)
              && AllNewsItems(sorted)
              && r.value.entries == EntriesOf(sorted)
    ensures r.Ok? ==>
              && r.value.title == title && r.value.link == sources[0].url
              && r.value.description == description
    // without a source, collecting yields nothing and building hits the IndexError
    ensures r == Err(Build(NoSources)) <==> |sources| == 0
    // a collect failure is the first failing scraper's error
    ensures r.Err? && r.error.Collect? ==> exists k | 0 <= k < |runs| ::
              && RunSource(runs[k]) == Err(r.error.scrapeError)
              && forall j | 0 <= j < k :: RunSource(runs[j]).Ok?
  {
    var collected := CollectNews(runs);
    if collected.Err? {
      return Err(Collect(collected.error));
    }
    var built, _ := BuildFeed(sources, title, description, collected.value);
    if built.Err? {
      assert built.error == NoSources;
      return Err(Build(built.error));
    }
    r := Ok(built.value);
  }
}
