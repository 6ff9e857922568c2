/** The shared safety boundary of every scraper: `BaseScraper._validate_news_list`
    and `BaseScraper.parse_content`. */
module Validation {
  import opened Outcomes
  import opened PyValues

  /** The three typed fields, in the order their types are checked. */
  datatype Field = Title | Link | DateField

  /** Why one item was rejected. */
  datatype ItemFault =
    | NotADict                          // TypeError "is not a dict"
    | MissingKeys(missing: set<string>) // ValueError "is missing keys"
    | WrongType(field: Field)           // TypeError "'<field>' must be ..."

  /** The exception `_validate_news_list` raises. */
  datatype ValidationError =
    | NotAList                              // TypeError "must return a list"
    | BadItem(index: nat, fault: ItemFault) // the first offending item

  /** The checks applied to one item, in the order `_validate_news_list` applies them:
      dict-ness, then key presence, then the types of title, link and date.
      Only the first failing check is reported. */
  function CheckItem(v: Value): (r: Option<ItemFault>)
    ensures r.None? <==> IsNewsItem(v)
    // a non-dict is rejected before any key or type check
    ensures r == Some(NotADict) <==> !v.VDict?
    // a dict missing keys is rejected with exactly the missing subset
    ensures r.Some? && r.value.MissingKeys? <==>
              v.VDict? && !(RequiredKeys <= v.entries.Keys)
    ensures r.Some? && r.value.MissingKeys? ==>
              v.VDict? && r.value.missing == RequiredKeys - v.entries.Keys
    // type checks fire title, then link, then date
    ensures r == Some(WrongType(Title)) <==>
              v.VDict? && RequiredKeys <= v.entries.Keys && !v.entries[TitleKey].VStr?
    ensures r == Some(WrongType(Link)) <==>
              v.VDict? && RequiredKeys <= v.entries.Keys && v.entries[TitleKey].VStr?
              && !v.entries[LinkKey].VStr?
    ensures r == Some(WrongType(DateField)) <==>
              v.VDict? && RequiredKeys <= v.entries.Keys && v.entries[TitleKey].VStr?
              && v.entries[LinkKey].VStr? && !v.entries[DateKey].VDate?
  {
    if !v.VDict? then Some(NotADict)
    else
      var missing := RequiredKeys - v.entries.Keys;
      if missing != {} then Some(MissingKeys(missing))
      else
        assert TitleKey !in missing && LinkKey !in missing && DateKey !in missing;
        if !v.entries[TitleKey].VStr? then Some(WrongType(Title))
      else if !v.entries[LinkKey].VStr? then Some(WrongType(Link))
      else if !v.entries[DateKey].VDate? then Some(WrongType(DateField))
      else None
  }

  /** The index of the first item at or after `from` that fails its checks. */
  function FirstBadItem(items: seq<Value>, from: nat): (r: Option<nat>)
    requires from <= |items|
    decreases |items| - from
    ensures r.None? <==> forall i | from <= i < |items| :: IsNewsItem(items[i])
    ensures r.Some? ==>
              && from <= r.value < |items|
              && !IsNewsItem(items[r.value])
              && forall i | from <= i < r.value :: IsNewsItem(items[i])
  {
    if from == |items| then None
    else if CheckItem(items[from]).Some? then Some(from)
    else FirstBadItem(items, from + 1)
  }

  /** `_validate_news_list`: a list check, then every item in index order. */
  function ValidateNewsList(news: Value): (r: Outcome<ValidationError>)
    ensures r.Pass? <==> news.VList? && AllNewsItems(news.elems)
    ensures r == Fail(NotAList) <==> !news.VList?
    ensures r.Fail? && r.error.BadItem? ==>
              && news.VList?
              && r.error.index < |news.elems|
              && CheckItem(news.elems[r.error.index]) == Some(r.error.fault)
              && forall j | 0 <= j < r.error.index :: IsNewsItem(news.elems[j])
  {
    if !news.VList? then Fail(NotAList)
    else
      match FirstBadItem(news.elems, 0)
      case None => Pass
      case Some(i) => Fail(BadItem(i, CheckItem(news.elems[i]).value))
  }

  /** The reported index is the smallest offending one: an item that fails
      its checks is never preceded by a passing report or a later index. */
  lemma ReportsSmallestIndex(news: Value, k: nat)
    requires news.VList? && k < |news.elems| && !IsNewsItem(news.elems[k])
    ensures ValidateNewsList(news).Fail?
    ensures ValidateNewsList(news).error.BadItem?
    ensures ValidateNewsList(news).error.index <= k
  {
  }

  /** Keys other than title, link and date neither cause nor change a report. */
  lemma ExtraKeysIgnored(m: map<string, Value>, extra: map<string, Value>)
    requires extra.Keys !! RequiredKeys
    ensures CheckItem(VDict(m + extra)) == CheckItem(VDict(m))
  {
    var both := m + extra;
    assert RequiredKeys - both.Keys == RequiredKeys - m.Keys;
    forall k | k in RequiredKeys && k in m
      ensures both[k] == m[k]
    {
      assert k !in extra;
    }
  }

  /** `parse_content`: the parser's list comes back unchanged exactly when
      validation passes; otherwise the validation error is raised. */
  function ParseContent(parsed: Value): (r: Result<seq<Value>, ValidationError>)
    ensures r.Ok? <==> ValidateNewsList(parsed).Pass?
    ensures r.Ok? ==> parsed == VList(r.value) && AllNewsItems(r.value)
    ensures r.Err? ==> ValidateNewsList(parsed) == Fail(r.error)
  {
    match ValidateNewsList(parsed)
    case Pass => Ok(parsed.elems)
    case Fail(e) => Err(e)
  }
}
