/** `FITScraper._parse_content`: turning the announcement blocks of one
    FIT@HCMUS category page into news-item records. The HTML selection itself
    is abstracted: each `.post-content` block arrives as what the selectors
    would find in it. */
module FitScraper {
  import opened Outcomes
  import opened Dates
  import opened PyValues
  import Validation

  /** The site's origin, prefixed to site-relative links. */
  const Base: string := "https://www.fit.hcmus.edu.vn"

  // ---------------------------------------------------------------------
  // Links

  predicate StartsWithSlash(s: string)
  {
    |s| > 0 && s[0] == '/'
  }

  /** Make a link absolute: a site-relative href gets the origin in front,
      any other href is kept as it is. */
  function Absolutize(href: string): (r: string)
    // the href is always kept in full, as the tail of the result
    ensures |r| >= |href| && r[|r| - |href|..] == href
    // only the origin is ever added, and only to site-relative hrefs
    ensures r == href <==> !StartsWithSlash(href)
    ensures r != href ==> r[..|r| - |href|] == Base
    // a result never starts with '/'
    ensures !StartsWithSlash(r)
  {
    if StartsWithSlash(href) then Base + href else href
  }

  /** Absolutizing twice is absolutizing once. */
  lemma AbsolutizeIdempotent(href: string)
    ensures Absolutize(Absolutize(href)) == Absolutize(href)
  {
  }

  // ---------------------------------------------------------------------
  // str.strip()

  /** Python's `str.isspace` characters: those `strip()` removes by default. */
  predicate IsSpace(c: char)
  {
    || ('\t' <= c <= '\r')
    || ('\U{1C}' <= c <= '\U{1F}')
    || c == ' '
    || c == '\U{85}'
    || c == '\U{A0}'
    || c == '\U{1680}'
    || ('\U{2000}' <= c <= '\U{200A}')
    || c == '\U{2028}' || c == '\U{2029}'
    || c == '\U{202F}' || c == '\U{205F}'
    || c == '\U{3000}'
  }

  /** `s` without its leading whitespace (`s.lstrip()`). */
  function TrimStart(s: string): (r: string)
    decreases |s|
    ensures |r| <= |s|
    ensures |r| > 0 ==> !IsSpace(r[0])
  {
    if |s| > 0 && IsSpace(s[0]) then TrimStart(s[1..]) else s
  }

  /** `s` without its trailing whitespace (`s.rstrip()`). */
  function TrimEnd(s: string): (r: string)
    decreases |s|
    ensures |r| <= |s|
    ensures |r| > 0 ==> !IsSpace(r[|r| - 1])
  {
    if |s| > 0 && IsSpace(s[|s| - 1]) then TrimEnd(s[..|s| - 1]) else s
  }

  /** `lstrip()` removes a whitespace prefix and keeps the rest as it is. */
  lemma {:induction false} TrimStartRemovesSpacePrefix(s: string)
    ensures forall k | 0 <= k < |s| - |TrimStart(s)| :: IsSpace(s[k])
    ensures forall k | 0 <= k < |TrimStart(s)| :: TrimStart(s)[k] == s[|s| - |TrimStart(s)| + k]
    decreases |s|
  {
    if |s| > 0 && IsSpace(s[0]) {
      TrimStartRemovesSpacePrefix(s[1..]);
    }
  }

  /** `rstrip()` removes a whitespace suffix and keeps the rest as it is. */
  lemma {:induction false} TrimEndRemovesSpaceSuffix(s: string)
    ensures forall k | |TrimEnd(s)| <= k < |s| :: IsSpace(s[k])
    ensures forall k | 0 <= k < |TrimEnd(s)| :: TrimEnd(s)[k] == s[k]
    decreases |s|
  {
    if |s| > 0 && IsSpace(s[|s| - 1]) {
      TrimEndRemovesSpaceSuffix(s[..|s| - 1]);
    }
  }

  /** `s.strip()`: `s` without its leading and trailing whitespace. */
  function Strip(s: string): (r: string)
    ensures |r| <= |s|
    // what remains neither starts nor ends with whitespace
    ensures |r| > 0 ==> !IsSpace(r[0]) && !IsSpace(r[|r| - 1])
  {
    var t := TrimStart(s);
    var r := TrimEnd(t);
    assert |r| > 0 ==> r[0] == t[0] by {
      TrimEndRemovesSpaceSuffix(t);
    }
    r
  }

  /** Everything `strip()` cuts off, on either side, is whitespace, and what
      it keeps is one contiguous piece of the input, starting where the
      leading whitespace ends. */
  lemma StripKeepsInfix(s: string)
    ensures |s| - |TrimStart(s)| + |Strip(s)| <= |s|
    ensures forall k | 0 <= k < |Strip(s)| :: Strip(s)[k] == s[|s| - |TrimStart(s)| + k]
    ensures forall k | 0 <= k < |s| - |TrimStart(s)| :: IsSpace(s[k])
    ensures forall k | |s| - |TrimStart(s)| + |Strip(s)| <= k < |s| :: IsSpace(s[k])
  {
    var t := TrimStart(s);
    TrimStartRemovesSpacePrefix(s);
    TrimEndRemovesSpaceSuffix(t);
    InfixOfInfix(s, t, TrimEnd(t));
  }

  /** Composing the two trims: if `t` is a suffix of `s` and `r` a prefix
      of `t`, then `r` sits in `s` right where `t` starts, and whatever `r`
      leaves of `t` at its end is also what follows `r` inside `s`. */
  lemma InfixOfInfix(s: string, t: string, r: string)
    requires |r| <= |t| <= |s|
    requires forall k | 0 <= k < |t| :: t[k] == s[|s| - |t| + k]
    requires forall k | 0 <= k < |r| :: r[k] == t[k]
    requires forall k | |r| <= k < |t| :: IsSpace(t[k])
    ensures forall k | 0 <= k < |r| :: r[k] == s[|s| - |t| + k]
    ensures forall k | |s| - |t| + |r| <= k < |s| :: IsSpace(s[k])
  {
    forall k | |s| - |t| + |r| <= k < |s|
      ensures IsSpace(s[k])
    {
      var j := k - (|s| - |t|);
      assert t[j] == s[k];
    }
  }

  /** Stripping twice is stripping once. */
  lemma StripIdempotent(s: string)
    ensures Strip(Strip(s)) == Strip(s)
  {
    var r := Strip(s);
    if |r| > 0 {
      assert TrimStart(r) == r;
      assert TrimEnd(r) == r;
    }
  }

  // ---------------------------------------------------------------------
  // Blocks

  /** The `<a>` element of a block: its text and, if present, its `href`. */
  datatype Anchor = Anchor(text: string, href: Option<string>)

  /** One `.post-content` block as the selectors see it: its first `<a>`
      (if any) and the text of its `li.post-date span` (if any). */
  datatype PostBlock = PostBlock(anchor: Option<Anchor>, dateSpan: Option<string>)

  /** The exception one block raises, in the order `_parse_content` reaches them. */
  datatype BlockFault =
    | NoAnchor             // AttributeError: find("a") returned None
    | NoHref               // KeyError: the <a> has no href
    | NoDateSpan           // AttributeError: select_one(...) returned None
    | BadDate(text: string) // ValueError from strptime on the stripped text

  /** The first block that raised, and why. */
  datatype ParseError = ParseError(index: nat, fault: BlockFault)

  /** Build the record for one block. `strptime` is `datetime.strptime` with
      the format "%d/%m/%Y" followed by attaching UTC. */
  function ParseBlock(b: PostBlock, strptime: string -> Option<Date>): (r: Result<Value, BlockFault>)
    ensures r.Ok? <==>
              && b.anchor.Some? && b.anchor.value.href.Some? && b.dateSpan.Some?
              && strptime(Strip(b.dateSpan.value)).Some?
    ensures r.Ok? ==>
              && r.value == NewsItem(Strip(b.anchor.value.text),
                                     Absolutize(b.anchor.value.href.value),
                                     strptime(Strip(b.dateSpan.value)).value)
              && IsNewsItem(r.value)
    // faults are reported in the order title, link, date span, date format
    ensures r == Err(NoAnchor) <==> b.anchor.None?
    ensures r == Err(NoHref) <==> b.anchor.Some? && b.anchor.value.href.None?
    ensures r == Err(NoDateSpan) <==>
              b.anchor.Some? && b.anchor.value.href.Some? && b.dateSpan.None?
    ensures r.Err? && r.error.BadDate? ==> b.dateSpan.Some? && r.error.text == Strip(b.dateSpan.value)
  {
    match b.anchor
    case None => Err(NoAnchor)
    case Some(a) =>
      var title := Strip(a.text);
      match a.href
      case None => Err(NoHref)
      case Some(href) =>
        var link := Absolutize(href);
        match b.dateSpan
        case None => Err(NoDateSpan)
        case Some(span) =>
          var dateText := Strip(span);
          match strptime(dateText)
          case None => Err(BadDate(dateText))
          case Some(date) => Ok(NewsItem(title, link, date))
  }

  /** The loop of `_parse_content`: one record per block, in page order, or
      the first block's exception (`_parse_content` has no per-block recovery). */
  function ParseEach(blocks: seq<PostBlock>, parse: PostBlock -> Result<Value, BlockFault>)
    : (r: Result<seq<Value>, ParseError>)
    decreases |blocks|
    ensures r.Ok? <==> forall i | 0 <= i < |blocks| :: parse(blocks[i]).Ok?
    ensures r.Ok? ==>
              && |r.value| == |blocks|
              && forall i | 0 <= i < |blocks| :: r.value[i] == parse(blocks[i]).value
    ensures r.Err? ==>
              && r.error.index < |blocks|
              && parse(blocks[r.error.index]) == Err(r.error.fault)
              && forall i | 0 <= i < r.error.index :: parse(blocks[i]).Ok?
  {
    if |blocks| == 0 then Ok([])
    else
      match parse(blocks[0])
      case Err(f) => Err(ParseError(0, f))
      case Ok(item) =>
        match ParseEach(blocks[1..], parse)
        case Err(e) => Err(ParseError(e.index + 1, e.fault))
        case Ok(rest) => Ok([item] + rest)
  }

  /** `_parse_content` on a fetched page. */
  function ParseContent(blocks: seq<PostBlock>, strptime: string -> Option<Date>)
    : (r: Result<Value, ParseError>)
    ensures r.Ok? <==> forall i | 0 <= i < |blocks| :: ParseBlock(blocks[i], strptime).Ok?
    ensures r.Ok? ==>
              && r.value.VList?
              && |r.value.elems| == |blocks|
              && forall i | 0 <= i < |blocks| ::
                   r.value.elems[i] == ParseBlock(blocks[i], strptime).value
    ensures r.Err? ==>
              && r.error.index < |blocks|
              && ParseBlock(blocks[r.error.index], strptime) == Err(r.error.fault)
              && forall i | 0 <= i < r.error.index :: ParseBlock(blocks[i], strptime).Ok?
  {
    match ParseEach(blocks, b => ParseBlock(b, strptime))
    case Err(e) => Err(e)
    case Ok(items) => Ok(VList(items))
  }

  /** A block's record is a news item whose link is absolute. */
  lemma ParsedBlockIsValid(b: PostBlock, strptime: string -> Option<Date>)
    ensures ParseBlock(b, strptime).Ok? ==>
              && IsNewsItem(ParseBlock(b, strptime).value)
              && !StartsWithSlash(LinkOf(ParseBlock(b, strptime).value))
  {
  }

  /** Whatever this parser returns passes the shared validation, and every
      link in it is absolute. */
  lemma ParsedContentIsValid(blocks: seq<PostBlock>, strptime: string -> Option<Date>)
    ensures var p := ParseContent(blocks, strptime);
            p.Ok? ==> Validation.ValidateNewsList(p.value).Pass?
    ensures var p := ParseContent(blocks, strptime);
            p.Ok? ==> forall i | 0 <= i < |p.value.elems| ::
                        IsNewsItem(p.value.elems[i]) && !StartsWithSlash(LinkOf(p.value.elems[i]))
  {
    var p := ParseContent(blocks, strptime);
    if p.Ok? {
      var items := p.value.elems;
      forall i | 0 <= i < |items|
        ensures IsNewsItem(items[i]) && !StartsWithSlash(LinkOf(items[i]))
      {
        ParsedBlockIsValid(blocks[i], strptime);
      }
      assert AllNewsItems(items);
    }
  }
}
