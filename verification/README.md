# news-to-rss: a verified model of the scraper's pure core

The scraper fetches announcement pages of the FIT@HCMUS department website and
republishes them as one RSS feed. Most of it is I/O. This project models the pure
logic that sits between the I/O calls and proves properties of it:

- **Validation** (`BaseScraper._validate_news_list`, `BaseScraper.parse_content`).
  A page parser may return any Python value. The model represents such values as
  `PyValues.Value`: a list, a dict with string keys, a str, a datetime, or anything
  else. The validator is a total function. It either passes, or reports the same
  exception `_validate_news_list` raises: not a list; item `i` is not a dict; item `i` is missing
  a given set of keys; item `i` has a field of the wrong type.
- **Record construction** (`FITScraper._parse_content`). Each `.post-content` block is
  given as the things the selectors would find in it: its first `<a>` (text and an
  optional `href`) and the optional text of its `li.post-date span`. Titles and date
  texts are `strip()`ped, site-relative links get the origin
  `https://www.fit.hcmus.edu.vn` prepended, and the date text goes through
  `strptime`. The first block that raises aborts the whole page.
- **Merging and ordering** (`MultiScraper.collect_news`, `MultiScraper.build_feed`,
  `BaseScraper.build_feed`). Scrapers run in order and their validated lists are
  concatenated. The first failure aborts the run, and no list and no feed results.
  The merged list is sorted newest first by a stable sort: items with the same date
  keep their input order, as Python's `sorted(..., reverse=True)` does. It is then
  handed to the feed writer in reverse. The writer, feedgen, puts each new entry in
  front of the earlier ones, so the written document lists entries newest first.
  For a single source, the written order is the page order.

Dates are day-resolution and carry UTC (`Dates.Date`), so comparing two of them means
comparing `(year, month, day)` lexicographically. The sort is a merge sort whose merge
prefers the left run on ties. `StableSort.IsStableDescSort` specifies it
independently: the output is a permutation of the input, it is newest first, and for
every date the items with that date appear in input order. The model proves that the
merge sort meets this specification. It also proves that only one sequence meets it,
so any stable newest-first sort, Python's included, returns the same sequence.

The validator only requires the keys `title`, `link` and `date`; extra keys pass
(`Validation.ExtraKeysIgnored`). An empty title passes too, because only its type is
checked.

One consequence of the code, stated as a lemma rather than corrected:
`startswith("/")` also matches a protocol-relative href such as `//cdn.example/a`.
Such an href is prefixed with the origin as well
(`Scenarios.ProtocolRelativeLinkIsPrefixed`).

## Model

| member | source | states |
|---|---|---|
| Validation.CheckItem | generate_feed.py:63-77 | An item passes exactly when it has the news-item shape. A non-dict is reported before any key check. A dict without some required keys is reported with exactly the missing subset, which is non-empty. Type faults are reported title first, then link, then date. Each fault is reported exactly when every earlier check passed. |
| Validation.FirstBadItem | generate_feed.py:63-65 | Scanning from `from`, no index is found exactly when every later item is well-formed. A found index is the first bad one, and every item before it passes. |
| Validation.ValidateNewsList | generate_feed.py:59-77 | Passes iff the value is a list of well-formed items. Fails with "must return a list" iff the value is not a list. Any item error names an in-range index, that item's first failing check, and an index before which every item is well-formed. |
| Validation.ReportsSmallestIndex | generate_feed.py:63-65 | If any item is bad, validation fails with an index no greater than that item's, so the reported index is the smallest bad one. |
| Validation.ExtraKeysIgnored | generate_feed.py:67-70 | Keys beyond title, link and date never change an item's verdict. |
| Validation.ParseContent | generate_feed.py:47-57 | Returns the parser's list unchanged, with the same elements in the same order, iff validation passes. Otherwise it raises the validator's error. The list it returns contains only well-formed items. |
| FitScraper.Absolutize | generate_feed.py:144-146 | The href is always kept in full as the tail of the result. The result equals the href iff the href does not start with '/'. Otherwise only the origin is added in front. A result never starts with '/'. |
| FitScraper.AbsolutizeIdempotent | generate_feed.py:144-146 | Making a link absolute twice gives the same link as doing it once. |
| FitScraper.TrimStartRemovesSpacePrefix | generate_feed.py:141 | Removing leading whitespace drops only whitespace characters, and what is kept is an unchanged suffix of the input. |
| FitScraper.TrimEndRemovesSpaceSuffix | generate_feed.py:148 | Removing trailing whitespace drops only whitespace characters, and what is kept is an unchanged prefix of the input. |
| FitScraper.Strip | generate_feed.py:141 | The stripped text neither starts nor ends with a Python whitespace character and is no longer than the input. |
| FitScraper.StripKeepsInfix | generate_feed.py:148 | What `strip()` keeps is one contiguous piece of the input, and everything it cuts off on either side is whitespace. |
| FitScraper.StripIdempotent | generate_feed.py:141 | Stripping twice is the same as stripping once. |
| FitScraper.ParseBlock | generate_feed.py:141-151 | A block yields a record iff it has an anchor, an href and a date span, and its stripped date text parses. The record is a news item with the stripped title, the absolutized link and the parsed date. Otherwise the fault is the first one `_parse_content` hits: no anchor, then no href, then no date span, then a bad date, which carries the stripped text. |
| FitScraper.ParseEach | generate_feed.py:138-153 | Succeeds iff every block parses. It then yields one record per block in page order. Otherwise it reports the first block that fails, and every block before that one parses. |
| FitScraper.ParseContent | generate_feed.py:136-153 | `_parse_content` returns a list with one record per block, in page order. Otherwise it reports the first failing block and its fault. |
| FitScraper.ParsedBlockIsValid | generate_feed.py:140-151 | A record built from one block is a well-formed news item, and its link does not start with '/'. |
| FitScraper.ParsedContentIsValid | generate_feed.py:140-151 | Every list this parser returns passes the shared validation, and none of its links starts with '/'. |
| StableSort.MergePermutes | generate_feed.py:114 | The merge holds exactly the two runs' elements, each as often as the runs hold it. |
| StableSort.SortPermutes | generate_feed.py:114 | The sort output is a permutation of its input: nothing is dropped or duplicated. |
| StableSort.SortIsNewestFirst | generate_feed.py:114 | The sort output is non-increasing by date. |
| StableSort.SortKeepsDateOrder | generate_feed.py:114 | For any date, the output's items of that date are the input's items of that date, in the same order. |
| StableSort.MergeNewestFirst | generate_feed.py:114 | Merging two newest-first runs gives a newest-first run. |
| StableSort.MergeStable | generate_feed.py:114 | For every date, the merge puts the left run's items with that date, in order, before the right run's. |
| StableSort.SortIsStableDescSort | generate_feed.py:114 | The sort output is a permutation of the input and is non-increasing by date. Items with equal dates keep their input order. |
| StableSort.StableDescSortUnique | generate_feed.py:114 | Two newest-first permutations that keep each date's items in the same order are equal. |
| StableSort.StableDescSortIsSort | generate_feed.py:114 | Every sequence that meets the stable reverse-sort specification for an input equals the merge sort's output. |
| FeedBuilder.ReverseReverse | generate_feed.py:86 | Reversing twice gives back the original order. |
| FeedBuilder.AddReversed | generate_feed.py:85-90 | Entries are handed to the writer in exactly the reverse of the list. Because the writer prepends, the document then holds the list's entries in list order ahead of any earlier entries. |
| FeedBuilder.BuildFeed | generate_feed.py:79-92 | A single-source feed keeps its source's URL, title and description. Its document order equals the page order, entries were added in reverse of that order, and there is one entry per item. |
| MultiScraper.RunSource | generate_feed.py:107-108 | One scraper's turn succeeds iff the fetch succeeded, the parser returned a value, and that value validates. On success it yields that list unchanged, and every item in it is well-formed. On failure it returns the fetch error if the fetch failed, the parser's error if the parser raised, and otherwise the validator's error. |
| MultiScraper.CollectNews | generate_feed.py:104-110 | Succeeds iff every scraper's turn succeeds. It then returns the concatenation of their lists in scraper order, and every item in it is well-formed. Otherwise it returns the error of the first scraper that failed; every scraper before that one succeeded. |
| MultiScraper.BuildFeed | generate_feed.py:112-129 | Fails with an IndexError iff there is no scraper to take the link from. Otherwise the feed takes the first scraper's URL and the given title and description. Its entries are, in document order, a stable newest-first sort of the merged list. They were handed to the writer in reverse order, and the reported count equals the merged list's length. |
| MultiScraper.GenerateMergedFeed | generate_feed.py:173-175 | A merged feed is produced iff there is a source and every source was fetched, parsed and validated. A single failure means no feed at all. The feed holds the stable newest-first sort of all sources' items, one entry per item. It takes the first source's URL and the given title and description. It fails with the IndexError exactly when there are no sources. A collect failure is the error of the first scraper that failed. |
| Scenarios.LinkNormalisationExample | generate_feed.py:145-146 | `/tin-tuc/abc` becomes `https://www.fit.hcmus.edu.vn/tin-tuc/abc`, and `https://y` is unchanged. |
| Scenarios.ProtocolRelativeLinkIsPrefixed | generate_feed.py:145-146 | A protocol-relative href `//cdn.example/a` also gets the origin prefixed. |
| Scenarios.NewerSecondIsSwapped | generate_feed.py:114 | Of two items where the second is strictly newer, the sort puts the second first. |
| Scenarios.TieBreakExample | generate_feed.py:114 | Two items with the same date keep their input order X, Y. |
| Scenarios.MergeOrderExample | generate_feed.py:104-114 | Source A has items dated 3 and 1, and source B has an item dated 2. The concatenated and sorted result is 3, 2, 1. |
| Scenarios.PageAParses | generate_feed.py:140-151 | A block with title " A ", href "/x" and date "01/01/2024" yields the item A, with link `https://www.fit.hcmus.edu.vn/x` and date 1 January 2024. |
| Scenarios.PageBParses | generate_feed.py:140-151 | A block whose date text has surrounding whitespace is parsed after stripping. |
| Scenarios.TwoSingleItemRuns | generate_feed.py:104-114 | Two single-item sources whose second item is strictly newer: after collection and sorting, the second source's item comes first. |
| Scenarios.TwoSourceExample | generate_feed.py:104-114 | Two pages: one holds A (relative link, 1 January), the other holds B (absolute link, 2 January). Merged and sorted, the result is B then A, and A's link is absolute. |

## Left out

- HTTP fetching (`BaseScraper.fetch`) and the fixed browser-like header table, lines 20-34. This is network I/O. Each scraper's turn is instead an input (`MultiScraper.SourceRun`): either a fetch failure (a 4xx or 5xx status, which `raise_for_status` turns into an error, or a transport error), or the value the site parser returned or the error it raised.
- HTML selection with BeautifulSoup (`select(".post-content")`, `find("a")`, `select_one("li.post-date span")`, `.text`). This is a foreign library. Each block is given as its optional first `<a>` (that anchor's text and optional href) and the optional date-span text (`FitScraper.PostBlock`).
- `datetime.strptime(..., "%d/%m/%Y")` and `.replace(tzinfo=timezone.utc)`. The library's parsing rules are not visible here. The parse is a parameter `string -> Option<Date>`, and `None` stands for its ValueError.
- FeedBuilder.AddEntry: stands for feedgen's `add_entry` with its default prepend order. That ordering is an assumption about the library, not something the model proves.
- feedgen internals, RSS/XML serialisation and writing the file (`rss_file`). The model keeps only the order of entries and one fact about the writer: `add_entry` prepends each new entry.
- The `print` confirmations and `main`'s hard-coded list of category URLs, lines 93, 129 and 156-179. The pipeline itself, `collect_news` then `build_feed`, is kept as `MultiScraper.GenerateMergedFeed`.
- Non-string dict keys and subclasses of `list`, `dict`, `str` and `datetime` are not modelled. Validation sees only lists, string-keyed dicts, strs, datetimes and "anything else".
- PyValues.SortKey: for a validated item, this stands for `x["date"]`. On other values it returns a fixed date. In the scraper, `x["date"]` would raise a KeyError for a dict without "date" and a TypeError for a non-dict, and for a dict whose "date" is not a datetime it would return that value for `sorted` to compare. No such value reaches the sort, because the merged feed requires validated items.
- Error message texts, such as the item repr and the type name in each exception, are not modelled. Only the exception kind, the index, the missing-key set and the field are.
