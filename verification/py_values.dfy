/** The dynamically typed values a page parser may hand back, and the shape a
    news item must have. */
module PyValues {
  import opened Dates

  /** A Python value as far as the validator can tell them apart:
      a list, a dict with string keys, a str, a datetime, or anything else. */
  datatype Value =
    | VList(elems: seq<Value>)
    | VDict(entries: map<string, Value>)
    | VStr(str: string)
    | VDate(date: Date)
    | VOther

  const TitleKey: string := "title"
  const LinkKey: string := "link"
  const DateKey: string := "date"

  /** The keys every news item must carry. */
  const RequiredKeys: set<string> := {TitleKey, LinkKey, DateKey}

  /** The declared shape of a news item: a dict holding a str title, a str
      link and a datetime date; further keys are allowed. */
  predicate IsNewsItem(v: Value)
  {
    && v.VDict?
    && TitleKey in v.entries && v.entries[TitleKey].VStr?
    && LinkKey in v.entries && v.entries[LinkKey].VStr?
    && DateKey in v.entries && v.entries[DateKey].VDate?
  }

  predicate AllNewsItems(vs: seq<Value>)
  {
    forall i | 0 <= i < |vs| :: IsNewsItem(vs[i])
  }

  function TitleOf(v: Value): string
    requires IsNewsItem(v)
  {
    v.entries[TitleKey].str
  }

  function LinkOf(v: Value): string
    requires IsNewsItem(v)
  {
    v.entries[LinkKey].str
  }

  function DateOf(v: Value): Date
    requires IsNewsItem(v)
  {
    v.entries[DateKey].date
  }

  /** The sort key `x["date"]` as a total function: the item's date for a news
      item; values of any other shape never reach the sort. */
  function SortKey(v: Value): (d: Date)
    ensures IsNewsItem(v) ==> d == DateOf(v)
  {
    if IsNewsItem(v) then DateOf(v) else Date(1, 1, 1)
  }

  /** The record the scraper builds for one announcement. */
  function NewsItem(title: string, link: string, date: Date): (v: Value)
    ensures IsNewsItem(v)
    ensures v.entries.Keys == RequiredKeys
    ensures TitleOf(v) == title && LinkOf(v) == link && DateOf(v) == date
  {
    VDict(map[TitleKey := VStr(title), LinkKey := VStr(link), DateKey := VDate(date)])
  }
}
