/** `BaseScraper.build_feed`: handing one scraper's items to the RSS writer.
    The writer (feedgen) is not part of this model beyond one fact `build_feed`
    relies on: `add_entry` puts each new entry IN FRONT of the entries added
    before it, so the written document lists entries in reverse order of
    insertion. */
module FeedBuilder {
  import opened Dates
  import opened PyValues

  /** One `<item>`: title, link and publication date. */
  datatype FeedEntry = FeedEntry(title: string, link: string, pubDate: Date)

  /** The channel metadata and the entries in document order. */
  datatype Feed = Feed(title: string, link: string, description: string, entries: seq<FeedEntry>)

  /** A fresh `FeedGenerator` with its title, link and description set. */
  function NewFeed(title: string, link: string, description: string): (f: Feed)
    ensures f.entries == []
  {
    Feed(title, link, description, [])
  }

  /** `fg.add_entry()` followed by setting title, link and pubDate. */
  function AddEntry(f: Feed, e: FeedEntry): (g: Feed)
    ensures g.entries == [e] + f.entries
    ensures g.title == f.title && g.link == f.link && g.description == f.description
  {
    f.(entries := [e] + f.entries)
  }

  /** The entry written for one validated news item. */
  function EntryOf(v: Value): (e: FeedEntry)
    requires IsNewsItem(v)
  {
    FeedEntry(TitleOf(v), LinkOf(v), DateOf(v))
  }

  /** The entries for a list of validated items, in the list's order. */
  function EntriesOf(news: seq<Value>): (es: seq<FeedEntry>)
    requires AllNewsItems(news)
    ensures |es| == |news|
    ensures forall i | 0 <= i < |news| :: es[i] == EntryOf(news[i])
  {
    seq(|news|, i requires 0 <= i < |news| => EntryOf(news[i]))
  }

  function Reverse<T>(xs: seq<T>): (r: seq<T>)
    ensures |r| == |xs|
    ensures forall i | 0 <= i < |xs| :: r[i] == xs[|xs| - 1 - i]
  {
    if |xs| == 0 then [] else Reverse(xs[1..]) + [xs[0]]
  }

  /** Reversal undoes itself. */
  lemma ReverseReverse<T>(xs: seq<T>)
    ensures Reverse(Reverse(xs)) == xs
  {
  }

  /** The loop `for item in reversed(news): add_entry(...)`. `added` is the
      order in which entries were handed to the writer. */
  method AddReversed(f: Feed, news: seq<Value>) returns (g: Feed, added: seq<FeedEntry>)
    requires AllNewsItems(news)
    ensures added == Reverse(EntriesOf(news))
    // the writer's prepending undoes the reversal: document order is list order
    ensures g.entries == EntriesOf(news) + f.entries
    ensures g.title == f.title && g.link == f.link && g.description == f.description
  {
    g := f;
    added := [];
    var i := |news|;
    while i > 0
      invariant 0 <= i <= |news|
      invariant added == Reverse(EntriesOf(news[i..]))
      invariant g.entries == EntriesOf(news[i..]) + f.entries
      invariant g.title == f.title && g.link == f.link && g.description == f.description
    {
      i := i - 1;
      var e := EntryOf(news[i]);
      assert EntriesOf(news[i..]) == [e] + EntriesOf(news[i + 1..]);
      g := AddEntry(g, e);
      added := added + [e];
    }
  }

  /** `BaseScraper.build_feed`: one scraper's feed, whose document order is
      the page order of its items (newest first as the page lists them). */
  method BuildFeed(url: string, title: string, description: string, news: seq<Value>)
    returns (feed: Feed, added: seq<FeedEntry>)
    requires AllNewsItems(news)
    ensures feed.title == title && feed.link == url && feed.description == description
    ensures feed.entries == EntriesOf(news)
    ensures added == Reverse(feed.entries)
    ensures |feed.entries| == |news|
  {
    feed, added := AddReversed(NewFeed(title, url, description), news);
    assert feed.entries == EntriesOf(news) + [];
  }
}
