/** Concrete instances of the model: link rewriting, merge order across
    sources, tie-breaking and a two-source example. */
module Scenarios {
  import opened Outcomes
  import opened Dates
  import opened PyValues
  import FitScraper
  import StableSort
  import MultiScraper

  /** A site-relative link gains the origin; an absolute one is unchanged. */
  lemma LinkNormalisationExample()
    ensures FitScraper.Absolutize("/tin-tuc/abc") == "https://www.fit.hcmus.edu.vn/tin-tuc/abc"
    ensures FitScraper.Absolutize("https://y") == "https://y"
  {
  }

  /** A protocol-relative href also starts with '/', so it too is prefixed. */
  lemma ProtocolRelativeLinkIsPrefixed()
    ensures FitScraper.Absolutize("//cdn.example/a") == "https://www.fit.hcmus.edu.vn//cdn.example/a"
  {
  }

  /** Two items, the second strictly newer: the sort swaps them. */
  lemma NewerSecondIsSwapped(x: Value, y: Value)
    requires Later(SortKey(y), SortKey(x))
    ensures StableSort.SortNewestFirst([x, y], SortKey) == [y, x]
  {
    assert [x, y][..1] == [x] && [x, y][1..] == [y];
    assert StableSort.Merge([x], [y], SortKey) == [y] + StableSort.Merge([x], [], SortKey);
  }

  /** Two items of the same day keep their page order X, Y. */
  lemma TieBreakExample(x: Value, y: Value)
    requires SortKey(x) == SortKey(y)
    ensures StableSort.SortNewestFirst([x, y], SortKey) == [x, y]
  {
    assert [x, y][..1] == [x] && [x, y][1..] == [y];
    assert StableSort.Merge([x], [y], SortKey) == [x] + StableSort.Merge([], [y], SortKey);
  }

  /** Source A lists days 3 and 1, source B lists day 2: merged, the feed
      order is 3, 2, 1. */
  lemma MergeOrderExample(a3: Value, a1: Value, b2: Value)
    requires Later(SortKey(a3), SortKey(b2)) && Later(SortKey(b2), SortKey(a1))
    ensures StableSort.SortNewestFirst([a3, a1] + [b2], SortKey) == [a3, b2, a1]
  {
    var xs := [a3, a1] + [b2];
    assert xs[..1] == [a3] && xs[1..] == [a1, b2];
    NewerSecondIsSwapped(a1, b2);
    assert StableSort.Merge([a3], [b2, a1], SortKey) == [a3] + StableSort.Merge([], [b2, a1], SortKey);
  }

  /** The parser's date handling for these pages: "01/01/2024" and
      "02/01/2024" are day/month/year. */
  function ExampleStrptime(s: string): Option<Date>
  {
    if s == "01/01/2024" then Some(Date(2024, 1, 1))
    else if s == "02/01/2024" then Some(Date(2024, 1, 2))
    else None
  }

  function PageA(): seq<FitScraper.PostBlock>
  {
    [FitScraper.PostBlock(Some(FitScraper.Anchor(" A ", Some("/x"))), Some("01/01/2024"))]
  }

  function PageB(): seq<FitScraper.PostBlock>
  {
    [FitScraper.PostBlock(Some(FitScraper.Anchor("B", Some("https://y"))), Some(" 02/01/2024\n"))]
  }

  /** `strip()` on the texts of the two example pages. */
  lemma ExampleStrips()
    ensures FitScraper.Strip(" A ") == "A"
    ensures FitScraper.Strip("B") == "B"
    ensures FitScraper.Strip("01/01/2024") == "01/01/2024"
    ensures FitScraper.Strip(" 02/01/2024\n") == "02/01/2024"
  {
    StripPaddedTitle();
    StripPaddedDate();
  }

  lemma StripPaddedTitle()
    ensures FitScraper.Strip(" A ") == "A"
  {
    assert FitScraper.TrimStart(" A ") == "A ";
  }

  lemma StripPaddedDate()
    ensures FitScraper.Strip(" 02/01/2024\n") == "02/01/2024"
  {
    assert FitScraper.TrimEnd(" 02/01/2024\n") == " 02/01/2024";
  }

  /** Page A yields item A, its title stripped and its link made absolute. */
  lemma PageAParses()
    ensures FitScraper.ParseContent(PageA(), ExampleStrptime)
            == Ok(VList([NewsItem("A", "https://www.fit.hcmus.edu.vn/x", Date(2024, 1, 1))]))
  {
    var a := NewsItem("A", "https://www.fit.hcmus.edu.vn/x", Date(2024, 1, 1));
    ExampleStrips();
    assert FitScraper.Absolutize("/x") == "https://www.fit.hcmus.edu.vn/x";
    assert FitScraper.ParseBlock(PageA()[0], ExampleStrptime) == Ok(a);
    SingleBlockPage(PageA(), a);
  }

  /** Page B yields item B, its date text stripped before parsing. */
  lemma PageBParses()
    ensures FitScraper.ParseContent(PageB(), ExampleStrptime)
            == Ok(VList([NewsItem("B", "https://y", Date(2024, 1, 2))]))
  {
    var b := NewsItem("B", "https://y", Date(2024, 1, 2));
    ExampleStrips();
    assert FitScraper.ParseBlock(PageB()[0], ExampleStrptime) == Ok(b);
    SingleBlockPage(PageB(), b);
  }

  lemma SingleBlockPage(page: seq<FitScraper.PostBlock>, v: Value)
    requires |page| == 1 && FitScraper.ParseBlock(page[0], ExampleStrptime) == Ok(v)
    ensures FitScraper.ParseContent(page, ExampleStrptime) == Ok(VList([v]))
  {
    var p := FitScraper.ParseContent(page, ExampleStrptime);
    assert p.Ok? && p.value.elems == [v];
  }

  lemma FlattenTwo<T>(x: seq<T>, y: seq<T>)
    ensures MultiScraper.Flatten([x, y]) == x + y
  {
    assert [x, y][..1] == [x];
    assert [x][..0] == [];
    assert MultiScraper.Flatten([x]) == MultiScraper.Flatten([]) + x == x;
  }

  lemma SingleItemRun(v: Value)
    requires IsNewsItem(v)
    ensures MultiScraper.RunSource(MultiScraper.Fetched(Ok(VList([v])))) == Ok([v])
  {
  }

  /** Two single-item sources, the second one's item strictly newer: the
      merged, sorted list puts the second source's item first. */
  lemma TwoSingleItemRuns(a: Value, b: Value)
    requires IsNewsItem(a) && IsNewsItem(b) && Later(SortKey(b), SortKey(a))
    ensures
      var runs := [MultiScraper.Fetched(Ok(VList([a]))), MultiScraper.Fetched(Ok(VList([b])))];
      StableSort.SortNewestFirst(MultiScraper.Flatten(MultiScraper.Contributions(runs)), SortKey) == [b, a]
  {
    var runs := [MultiScraper.Fetched(Ok(VList([a]))), MultiScraper.Fetched(Ok(VList([b])))];
    assert MultiScraper.Contributions(runs) == [[a], [b]] by {
      SingleItemRun(a);
      SingleItemRun(b);
    }
    FlattenTwo([a], [b]);
    assert [a] + [b] == [a, b];
    NewerSecondIsSwapped(a, b);
  }

  /** Source one has A (relative link, 1 January), source two has B
      (absolute link, 2 January): the merged feed lists B, then A, with A's
      link made absolute. */
  lemma TwoSourceExample()
    ensures
      var runs := [MultiScraper.Fetched(FitScraper.ParseContent(PageA(), ExampleStrptime)),
                   MultiScraper.Fetched(FitScraper.ParseContent(PageB(), ExampleStrptime))];
      StableSort.SortNewestFirst(MultiScraper.Flatten(MultiScraper.Contributions(runs)), SortKey)
      == [NewsItem("B", "https://y", Date(2024, 1, 2)),
          NewsItem("A", "https://www.fit.hcmus.edu.vn/x", Date(2024, 1, 1))]
  {
    PageAParses();
    PageBParses();
    TwoSingleItemRuns(NewsItem("A", "https://www.fit.hcmus.edu.vn/x", Date(2024, 1, 1)),
                      NewsItem("B", "https://y", Date(2024, 1, 2)));
  }
}
