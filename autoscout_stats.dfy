/** Count and average price of an AutoScout24 search: the regular prices of
    the first result page, read no further than the header's total, and a
    second page when the first falls short of it. */
module AutoScoutStats {
  import opened Common
  import opened Prices

  /** A result page as the parsing layer sees it: its HTML, the number from
      the header when it reads "<n> Angebot" or "<n> Angebote" as a whole
      word, the number from the header when it merely starts with
      "<n> Angebot", and the inner text of every regular-price element. */
  datatype AsPage = AsPage(html: string, limitText: Option<string>, headText: Option<string>, priceTexts: seq<string>)

  const AsDrop: set<char> := {'.', ' '}

  /** `\d{1,3}(?:\.\d{3})+|\d+`: dot-grouped amounts, or the whole digit run. */
  const AsNumber := Grouped(IsDot)

  /** The header total that bounds the parse, when there is one and it parses. */
  function Limit(page: AsPage): Option<int> {
    match page.limitText
    case None => None
    case Some(g) => PyInt(g)
  }

  /** All regular prices of the page in [500, 300000], in page order. The
      number in a price text is `(?:€\s*)?(\d{1,3}(?:\.\d{3})+|\d+)`; the
      optional euro sign does not move the captured digits. */
  function AllPrices(page: AsPage): seq<int> {
    PriceList(page.priceTexts, AsNumber, AsDrop, CardWindow)
  }

  /** What `_parse_prices_from_html_as` returns: nothing for an empty page,
      otherwise the prices cut to a positive header total. */
  function PagePrices(page: AsPage): seq<int> {
    if page.html == "" then []
    else match Limit(page)
      case Some(n) => if n > 0 then Take(AllPrices(page), n) else AllPrices(page)
      case None => AllPrices(page)
  }

  /** `_parse_prices_from_html_as`: the loop stops as soon as it holds as many
      prices as the header announced. */
  method ParsePrices(page: AsPage) returns (prices: seq<int>)
    ensures prices == PagePrices(page)
  {
    prices := [];
    if page.html == "" {
      return;
    }
    var limit := Limit(page);
    var texts := page.priceTexts;
    var i := 0;
    while i < |texts|
      invariant 0 <= i <= |texts|
      invariant prices == PriceList(texts[..i], AsNumber, AsDrop, CardWindow)
      invariant limit.Some? && limit.value > 0 ==> |prices| < limit.value
    {
      PriceListStep(texts, i, AsNumber, AsDrop, CardWindow);
      var m := FindNumber(AsNumber, texts[i]);
      if m.None? {
        i := i + 1;
        continue;
      }
      // int() of the digits and the window test
      var v := ReadPrice(texts[i], AsNumber, AsDrop, CardWindow);
      if v.Some? {
        prices := prices + [v.value];
      }
      if limit.Some? && limit.value > 0 && |prices| >= limit.value {
        StopsAtLimit(texts, i + 1, limit.value);
        return;
      }
      i := i + 1;
    }
    assert texts[..i] == texts;
  }

  /** Once the prices of the first `j` texts reach the limit, they are the
      first `limit` prices of all texts. */
  lemma StopsAtLimit(texts: seq<string>, j: nat, limit: int)
    requires j <= |texts| && 0 < limit == |PriceList(texts[..j], AsNumber, AsDrop, CardWindow)|
    ensures Take(PriceList(texts, AsNumber, AsDrop, CardWindow), limit) == PriceList(texts[..j], AsNumber, AsDrop, CardWindow)
  {
    assert texts == texts[..j] + texts[j..];
    PriceListConcat(texts[..j], texts[j..], AsNumber, AsDrop, CardWindow);
  }

  /** The second page: `page=2` added to the query, or as the query. */
  function Page2Url(url: string): (u: string)
    ensures StartsWith(u, url) && EndsWith(u, "page=2")
    ensures Contains(url, "?") ==> u == url + "&page=2"
    ensures !Contains(url, "?") ==> u == url + "?page=2"
  {
    url + (if Contains(url, "?") then "&" else "?") + "page=2"
  }

  /** The total of the header as `fetch_autoscout_stats` reads it, 0 when absent. */
  function Announced(page: AsPage): int {
    match page.headText
    case None => 0
    case Some(g) => PyInt(g).GetOr(0)
  }

  /** The page a good response stands for; a failed status contributes nothing. */
  predicate Good(r: Fetch<AsPage>) {
    r.Response? && StatusOk(r.status)
  }

  /** The prices `fetch_autoscout_stats` averages, given the response for the
      URL and the one for its second page. An exception keeps what was
      gathered before it. */
  function Gathered(first: Fetch<AsPage>, second: Fetch<AsPage>): seq<int> {
    if !Good(first) then []
    else
      var prices := PagePrices(first.page);
      match first.page.headText
      case None => prices
      case Some(g) =>
        match PyInt(g)
        case None => prices
        case Some(announced) =>
          if announced != 0 && |prices| < announced && Good(second)
          then Take(prices + PagePrices(second.page), announced)
          else prices
  }

  /** `fetch_autoscout_stats`, with `get` standing for the HTTP requests. */
  method FetchAutoScoutStats(url: string, get: string -> Fetch<AsPage>) returns (res: Stats)
    ensures res == Summary(url, Gathered(get(url), get(Page2Url(url))))
  {
    var prices: seq<int> := [];
    var r1 := get(url);
    if Good(r1) {
      var p1 := ParsePrices(r1.page);
      prices := prices + p1;
      assert prices == p1;
      if r1.page.headText.Some? {
        var announced := PyInt(r1.page.headText.value);
        if announced.Some? && announced.value != 0 && |prices| < announced.value {
          var r2 := get(Page2Url(url));
          if Good(r2) {
            var more := ParsePrices(r2.page);
            prices := Take(prices + more, announced.value);
          }
        }
      }
    }
    res := Summary(url, prices);
  }

  /** The answer is always ok; its prices are plausible; when the second page
      was used the count does not exceed the header total; and a failure of
      the second page keeps the first page's prices. */
  lemma GatheredBounds(first: Fetch<AsPage>, second: Fetch<AsPage>)
    ensures AllWithin(Gathered(first, second), 500, 300000)
    ensures Good(first) && !Good(second) ==> Gathered(first, second) == PagePrices(first.page)
    ensures Good(first) ==>
      Gathered(first, second) == PagePrices(first.page)
      || (Good(second) && |Gathered(first, second)| <= Announced(first.page))
  {
    if Good(first) {
      var p1 := PagePrices(first.page);
      PagePricesWithin(first.page);
      if Good(second) {
        PagePricesWithin(second.page);
        assert AllWithin(p1 + PagePrices(second.page), 500, 300000);
      }
    }
  }

  /** A page yields plausible prices only, never more than a positive
      header total. */
  lemma PagePricesWithin(page: AsPage)
    ensures AllWithin(PagePrices(page), 500, 300000)
    ensures Limit(page).Some? && Limit(page).value > 0 ==> |PagePrices(page)| <= Limit(page).value
  {
    PriceListWithin(page.priceTexts, AsNumber, AsDrop, CardWindow);
  }

  /** The average of a non-empty answer is a plausible price. */
  lemma StatsAverage(url: string, first: Fetch<AsPage>, second: Fetch<AsPage>)
    ensures var s := Summary(url, Gathered(first, second));
      s.ok && (s.count > 0 ==> 500 <= s.avg <= 300000)
  {
    GatheredBounds(first, second);
    if Gathered(first, second) != [] {
      AverageWithin(Gathered(first, second), 500, 300000);
    }
  }
}
