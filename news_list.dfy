/** The news list (src/components/Cards/NewsList/NewsList.tsx): the page
    number read from the query string, the items shown, the pagination bar
    built from the backend's links, and the query a page link leads to. */
module NewsList {
  import opened Common

  /** The result of `Number(...)` as far as it matters here: an integer or
      NaN. */
  datatype Number = Num(n: int) | NaN

  /** The value of a string of decimal digits. */
  function DecimalValue(s: string): (v: nat)
    requires AllDigits(s)
  {
    if |s| == 0 then 0
    else DecimalValue(s[..|s| - 1]) * 10 + (s[|s| - 1] as int - '0' as int)
  }

  /** `Number(s)` for the strings the page parameter and the link labels
      hold: the empty string is 0, a run of digits is its value, anything
      else is NaN. */
  function ToNumber(s: string): Number
  {
    if AllDigits(s) then Num(DecimalValue(s)) else NaN
  }

  /** `Number(searchParams.get("page")) || 1`: `Number(null)` is 0, and 0
      and NaN fall back to the first page. */
  function CurrentPage(page: Option<string>): (p: int)
    ensures p != 0
    ensures page.None? ==> p == 1
    ensures page.Some? && ToNumber(page.value) == NaN ==> p == 1
    ensures page.Some? && ToNumber(page.value).Num? && ToNumber(page.value).n != 0 ==> p == ToNumber(page.value).n
    ensures page == Some("") ==> p == 1
  {
    if page.None? then 1
    else match ToNumber(page.value)
      case NaN => 1
      case Num(n) => if n == 0 then 1 else n
  }

  /** The decimal text of a page number reads back as that number. */
  lemma {:induction false} DecimalRoundTrip(n: nat)
    ensures AllDigits(IntToString(n))
    ensures DecimalValue(IntToString(n)) == n
    decreases n
  {
    NatStringDigits(n);
    if n >= 10 {
      DecimalRoundTrip(n / 10);
      DecimalRoundTrip(n % 10);
      var a := IntToString(n / 10);
      var b := IntToString(n % 10);
      assert IntToString(n) == a + b;
      assert |b| == 1;
      assert (a + b)[..|a + b| - 1] == a;
    }
  }

  /** A page link written into the query is the page the list then shows. */
  lemma PageParamRoundTrip(n: nat)
    requires n > 0
    ensures CurrentPage(Some(IntToString(n))) == n
  {
    DecimalRoundTrip(n);
  }

  /** `limit ? news.data.slice(0, limit) : news.data`: the first `limit`
      items, or all of them when there is no limit (or it is 0). */
  function Displayed<T>(data: seq<T>, limit: Option<nat>): (shown: seq<T>)
    ensures limit.None? || limit.value == 0 ==> shown == data
    ensures limit.Some? && limit.value > 0 ==> |shown| == Min(limit.value, |data|)
    ensures shown == data[..|shown|]
  {
    if limit.None? || limit.value == 0 then data
    else data[..Min(limit.value, |data|)]
  }

  /** A link of the backend's pagination metadata. */
  datatype Link = Link(url: Option<string>, caption: string)

  /** The bar is drawn only without a limit and when the metadata has its
      `links`. */
  function ShowsPagination(limit: Option<nat>, links: Option<seq<Link>>): (shows: bool)
    ensures shows <==> (limit.None? || limit.value == 0) && links.Some?
  {
    (limit.None? || limit.value == 0) && links.Some?
  }

  /** `links[0]?.url` and `links[links.length - 1]?.url`: what the previous
      and next arrows hand to `handlePageChange`. */
  function PrevUrl(links: seq<Link>): Option<string>
  {
    if |links| == 0 then None else links[0].url
  }

  function NextUrl(links: seq<Link>): Option<string>
  {
    if |links| == 0 then None else links[|links| - 1].url
  }

  /** `links[i]?.url === null`: an arrow is disabled exactly when its link
      exists and has no url; with no links at all `undefined` is not
      `null` and the arrows stay enabled. */
  function PrevDisabled(links: seq<Link>): (disabled: bool)
    ensures disabled <==> |links| > 0 && links[0].url.None?
  {
    |links| > 0 && links[0].url.None?
  }

  function NextDisabled(links: seq<Link>): (disabled: bool)
    ensures disabled <==> |links| > 0 && links[|links| - 1].url.None?
  {
    |links| > 0 && links[|links| - 1].url.None?
  }

  /** `links.slice(1, -1)`: every link but the first and the last. */
  function Middle(links: seq<Link>): (middle: seq<Link>)
    ensures |links| >= 2 ==> |middle| == |links| - 2 && forall i :: 0 <= i < |middle| ==> middle[i] == links[i + 1]
    ensures |links| < 2 ==> middle == []
  {
    if |links| >= 2 then links[1..|links| - 1] else []
  }

  /** What one middle link becomes: a plain `...`, or a page button that is
      active, and then disabled, exactly for the current page. */
  datatype Item = Ellipsis | PageButton(caption: string, url: Option<string>, active: bool)

  function ItemOf(link: Link, currentPage: int): Item
  {
    if link.caption == "..." then Ellipsis
    else PageButton(link.caption, link.url, ToNumber(link.caption) == Num(currentPage))
  }

  function MiddleItems(links: seq<Link>, currentPage: int): (items: seq<Item>)
    ensures |items| == |Middle(links)|
    ensures forall i :: 0 <= i < |items| ==> items[i] == ItemOf(Middle(links)[i], currentPage)
  {
    var middle := Middle(links);
    seq(|middle|, i requires 0 <= i < |middle| => ItemOf(middle[i], currentPage))
  }

  /** Which buttons are active: the caption must read as the current page,
      so `...`, and labels that are not numbers, never are; the decimal
      caption of the current page always is. */
  lemma ActivePage(link: Link, currentPage: int)
    ensures ItemOf(link, currentPage).Ellipsis? <==> link.caption == "..."
    ensures ItemOf(link, currentPage).PageButton? ==>
      (ItemOf(link, currentPage).active <==> AllDigits(link.caption) && DecimalValue(link.caption) == currentPage)
    ensures currentPage > 0 && link.caption == IntToString(currentPage) ==>
      ItemOf(link, currentPage).PageButton? && ItemOf(link, currentPage).active
  {
    if currentPage > 0 && link.caption == IntToString(currentPage) {
      DecimalRoundTrip(currentPage);
      assert link.caption[0] != '.';
    }
  }

  /** A query parameter. */
  datatype Param = Param(key: string, value: string)

  /** The text before the first `c`, or all of `s`. */
  function BeforeFirst(s: string, c: char): (r: string)
    ensures StartsWith(s, r) && c !in r
    ensures |r| < |s| ==> s[|r|] == c
  {
    if |s| == 0 || s[0] == c then ""
    else [s[0]] + BeforeFirst(s[1..], c)
  }

  /** The text after the first `c`, if there is one. */
  function AfterFirst(s: string, c: char): (r: Option<string>)
    ensures r.None? <==> c !in s
    ensures r.Some? ==> s == BeforeFirst(s, c) + [c] + r.value
  {
    if |s| == 0 then None
    else if s[0] == c then Some(s[1..])
    else
      var rest := AfterFirst(s[1..], c);
      if rest.None? then None else Some(rest.value)
  }

  /** One `key=value` segment; a segment without `=` has an empty value. */
  function ParamOf(segment: string): (p: Param)
    ensures '=' !in p.key
    ensures '=' in segment ==> segment == p.key + "=" + p.value
    ensures '=' !in segment ==> p == Param(segment, "")
  {
    var key := BeforeFirst(segment, '=');
    match AfterFirst(segment, '=')
    case None => Param(segment, "")
    case Some(value) => Param(key, value)
  }

  /** `URLSearchParams` of a query: `&`-separated segments, empty ones
      skipped. */
  function ParamsOf(segments: seq<string>): (ps: seq<Param>)
  {
    if |segments| == 0 then []
    else if segments[0] == "" then ParamsOf(segments[1..])
    else [ParamOf(segments[0])] + ParamsOf(segments[1..])
  }

  /** The parameters of `new URL(url, origin).searchParams`, taken as the
      raw text between the first `?` and the fragment: names and values are
      not percent-decoded and `+` is not read as a blank, and a url that
      `new URL` would refuse is read like any other. */
  function QueryOf(url: string): seq<Param>
  {
    match AfterFirst(BeforeFirst(url, '#'), '?')
    case None => []
    case Some(query) => ParamsOf(Split(query, '&'))
  }

  /** `params.get(key)`: the first value under the key. */
  function GetParam(ps: seq<Param>, key: string): (v: Option<string>)
    ensures v.None? <==> forall i :: 0 <= i < |ps| ==> ps[i].key != key
    ensures v.Some? ==> exists i :: 0 <= i < |ps| && ps[i] == Param(key, v.value)
  {
    if |ps| == 0 then None
    else if ps[0].key == key then Some(ps[0].value)
    else
      var rest := GetParam(ps[1..], key);
      assert forall i :: 1 <= i < |ps| ==> ps[1..][i - 1] == ps[i];
      rest
  }

  /** The entries under one key, in order. */
  function ValuesOf(ps: seq<Param>, key: string): seq<string>
  {
    if |ps| == 0 then []
    else (if ps[0].key == key then [ps[0].value] else []) + ValuesOf(ps[1..], key)
  }

  /** Every entry under `key` dropped. */
  function Without(ps: seq<Param>, key: string): (r: seq<Param>)
    ensures forall i :: 0 <= i < |r| ==> r[i].key != key
    ensures ValuesOf(r, key) == []
  {
    if |ps| == 0 then []
    else if ps[0].key == key then Without(ps[1..], key)
    else [ps[0]] + Without(ps[1..], key)
  }

  /** `params.set(key, value)`: the first entry under the key takes the
      value and the later ones go; with none, the entry is appended. */
  function SetParam(ps: seq<Param>, key: string, value: string): seq<Param>
  {
    if |ps| == 0 then [Param(key, value)]
    else if ps[0].key == key then [Param(key, value)] + Without(ps[1..], key)
    else [ps[0]] + SetParam(ps[1..], key, value)
  }

  lemma {:induction false} WithoutKeepsOthers(ps: seq<Param>, key: string, other: string)
    requires other != key
    ensures ValuesOf(Without(ps, key), other) == ValuesOf(ps, other)
    decreases |ps|
  {
    if |ps| > 0 {
      WithoutKeepsOthers(ps[1..], key, other);
    }
  }

  /** After `set`, the key holds exactly the new value, and every other
      key keeps its values in order. */
  lemma {:induction false} SetParamEffect(ps: seq<Param>, key: string, value: string, other: string)
    ensures ValuesOf(SetParam(ps, key, value), key) == [value]
    ensures GetParam(SetParam(ps, key, value), key) == Some(value)
    ensures other != key ==> ValuesOf(SetParam(ps, key, value), other) == ValuesOf(ps, other)
    decreases |ps|
  {
    if |ps| > 0 {
      if ps[0].key == key {
        if other != key {
          WithoutKeepsOthers(ps[1..], key, other);
        }
      } else {
        SetParamEffect(ps[1..], key, value, other);
      }
    }
  }

  /** `handlePageChange(url)`: the query the router is sent to, if any. No
      url, or a url without a non-empty `page`, does nothing; otherwise
      the current query gets that `page` and keeps the rest. */
  function PageChange(current: seq<Param>, url: Option<string>): Option<seq<Param>>
  {
    if url.None? || url.value == "" then None
    else
      var page := GetParam(QueryOf(url.value), "page");
      if page.None? || page.value == "" then None
      else Some(SetParam(current, "page", page.value))
  }

  lemma PageChangeEffect(current: seq<Param>, url: Option<string>, other: string)
    ensures PageChange(current, url).None? <==>
      url.None? || url.value == "" || GetParam(QueryOf(url.value), "page") in {None, Some("")}
    ensures PageChange(current, url).Some? ==>
      var next := PageChange(current, url).value;
      && GetParam(next, "page") == GetParam(QueryOf(url.value), "page")
      && ValuesOf(next, "page") == [GetParam(QueryOf(url.value), "page").value]
      && (other != "page" ==> ValuesOf(next, other) == ValuesOf(current, other))
  {
    if PageChange(current, url).Some? {
      SetParamEffect(current, "page", GetParam(QueryOf(url.value), "page").value, other);
    }
  }

  /** A backend link such as `https://host/api/news?page=3` moves the list
      to page 3 and keeps the other parameters. */
  lemma LinkToPageThree(current: seq<Param>)
    ensures PageChange(current, Some("https://host/api/news?page=3")).Some?
    ensures CurrentPage(GetParam(PageChange(current, Some("https://host/api/news?page=3")).value, "page")) == 3
  {
    PageThreeLink(current);
    SetParamEffect(current, "page", "3", "page");
    PageThreeNumber();
  }

  lemma PageThreeLink(current: seq<Param>)
    ensures PageChange(current, Some("https://host/api/news?page=3")) == Some(SetParam(current, "page", "3"))
  {
    var url := "https://host/api/news?page=3";
    assert url == "https://host/api/news" + "?page=" + "3";
    PageLink(current, "https://host/api/news", "3");
  }

  lemma PageThreeNumber()
    ensures CurrentPage(Some("3")) == 3
  {
    PageParamRoundTrip(3);
    assert IntToString(3) == "3";
  }

  /** A link `base?page=p` to a page, with no other query and no fragment,
      sets the page parameter to `p`. */
  lemma PageLink(current: seq<Param>, base: string, page: string)
    requires '#' !in base && '?' !in base && '#' !in page && '&' !in page && page != ""
    ensures PageChange(current, Some(base + "?page=" + page)) == Some(SetParam(current, "page", page))
  {
    PageLinkQuery(base, page);
  }

  lemma PageLinkQuery(base: string, page: string)
    requires '#' !in base && '?' !in base && '#' !in page && '&' !in page
    ensures QueryOf(base + "?page=" + page) == [Param("page", page)]
  {
    var url := base + "?page=" + page;
    var query := "page=" + page;
    assert url == base + ['?'] + query;
    assert '#' !in url;
    NoFragment(url);
    AfterFirstAt(base, '?', query);
    assert AfterFirst(BeforeFirst(url, '#'), '?') == Some(query);
    PageParam(page);
  }

  lemma PageParam(page: string)
    requires '&' !in page
    ensures ParamsOf(Split("page=" + page, '&')) == [Param("page", page)]
  {
    var query := "page=" + page;
    assert "page=" == "page" + "=";
    assert query == "page" + "=" + page;
    SingleParam(query);
    ParamOfPair("page", page);
  }

  /** A query with no `&` is one parameter. */
  lemma SingleParam(query: string)
    requires '&' !in query && query != ""
    ensures ParamsOf(Split(query, '&')) == [ParamOf(query)]
  {
    SplitWithoutSep(query, '&');
    assert ParamsOf([query]) == [ParamOf(query)];
  }

  /** A `key=value` piece with no `=` in the key reads back as that pair. */
  lemma ParamOfPair(key: string, value: string)
    requires '=' !in key
    ensures ParamOf(key + "=" + value) == Param(key, value)
  {
    var segment := key + "=" + value;
    assert segment == key + ['='] + value;
    AfterFirstAt(key, '=', value);
    var p := ParamOf(segment);
    assert p.key == segment[..|p.key|] == key;
  }

  lemma {:induction false} NoFragment(url: string)
    requires '#' !in url
    ensures BeforeFirst(url, '#') == url
    decreases |url|
  {
    if |url| > 0 {
      NoFragment(url[1..]);
    }
  }

  lemma {:induction false} AfterFirstAt(x: string, c: char, y: string)
    requires c !in x
    ensures AfterFirst(x + [c] + y, c) == Some(y)
    decreases |x|
  {
    if |x| == 0 {
      assert x + [c] + y == [c] + y;
    } else {
      assert (x + [c] + y)[1..] == x[1..] + [c] + y;
      assert c !in x[1..];
      AfterFirstAt(x[1..], c, y);
    }
  }
}
