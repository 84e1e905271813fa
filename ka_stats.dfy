/** Count and average price of a Kleinanzeigen search: the announced total
    from the breadcrumb, the card prices of the first page, a second page
    when the first falls short, and the cut to the announced total. */
module KaStats {
  import opened Common
  import opened Prices
  import Links

  // ---------------------------------------------------------------------------
  // The second result page
  // ---------------------------------------------------------------------------

  const Autos := "/s-autos/"

  predicate NotSlash(c: char) {
    c != '/'
  }

  /** Length of `/s-autos/[^/]+/|/s-autos/` matched where `t` starts with
      `/s-autos/`: the category and the following path segment when that
      segment is closed by a slash, else the category alone. */
  function AutosMatch(t: string): (n: nat)
    requires StartsWith(t, Autos)
    ensures 9 <= n <= |t| && t[n - 1] == '/'
  {
    var seg := Links.Run(t[9..], NotSlash);
    if seg >= 1 && 9 + seg < |t| then 9 + seg + 1 else 9
  }

  /** Where `re.sub(..., count=1)` inserts `seite:2/`: just after the
      leftmost match, if any. */
  function InsertPoint(u: string): (p: Option<nat>)
    ensures p.Some? ==> 1 <= p.value <= |u| && u[p.value - 1] == '/'
    decreases |u|
  {
    if StartsWith(u, Autos) then Some(AutosMatch(u))
    else if u == [] then None
    else match InsertPoint(u[1..])
      case None => None
      case Some(i) => Some(i + 1)
  }

  /** `_page2_url`: a URL already naming a page is kept; otherwise
      `seite:2/` goes after the category and its first path segment. */
  function Page2Url(u: string): string {
    if Contains(u, "/seite:") then u
    else match InsertPoint(u)
      case None => u
      case Some(i) => u[..i] + "seite:2/" + u[i..]
  }

  lemma {:induction false} ContainsAt(s: string, i: nat, sub: string)
    requires i <= |s| && StartsWith(s[i..], sub)
    ensures Contains(s, sub)
    decreases i
  {
    if i > 0 {
      assert s[1..][i - 1..] == s[i..];
      ContainsAt(s[1..], i - 1, sub);
    } else {
      assert s[0..] == s;
    }
  }

  /** The only change is the inserted `seite:2/`, right after a slash; a URL
      without the category is returned unchanged. */
  lemma Page2UrlInserts(u: string)
    ensures Page2Url(u) == u || exists i | 1 <= i <= |u| :: u[i - 1] == '/' && Page2Url(u) == u[..i] + "seite:2/" + u[i..]
    ensures Page2Url(u) != u ==> Contains(Page2Url(u), "/seite:")
  {
    if Page2Url(u) != u {
      var i := InsertPoint(u).value;
      var r := u[..i] + "seite:2/" + u[i..];
      assert r[i - 1..][..7] == "/seite:";
      ContainsAt(r, i - 1, "/seite:");
    }
  }

  /** Asking for page 2 of page 2 changes nothing. */
  lemma Page2UrlIdempotent(u: string)
    ensures Page2Url(Page2Url(u)) == Page2Url(u)
  {
    Page2UrlInserts(u);
  }

  // ---------------------------------------------------------------------------
  // One result page
  // ---------------------------------------------------------------------------

  /** A result page as the parsing layer sees it: its HTML, the number
      captured from the first breadcrumb summary (if any), and the text of
      every card price element with entities decoded and tags blanked out. */
  datatype KaPage = KaPage(html: string, countText: Option<string>, priceTexts: seq<string>)

  const KaDrop: set<char> := {'.', ' ', '\U{A0}'}

  /** `_count`: the announced total, 0 when the page is empty, has no
      breadcrumb, or its number does not parse. */
  function Count(page: KaPage): int {
    if page.html == "" then 0
    else match page.countText
      case None => 0
      case Some(g) => PyInt(RemoveAll(g, KaDrop)).GetOr(0)
  }

  lemma {:induction false} RemoveAllKeepsDigits(s: string)
    requires forall i | 0 <= i < |s| :: IsDigit(s[i]) || s[i] in KaDrop
    ensures RemoveAll(s, KaDrop) == KeepDigits(s)
    decreases |s|
  {
    if s != [] {
      RemoveAllKeepsDigits(s[1..]);
    }
  }

  /** A total written with dots, spaces or no-break spaces between its digits
      counts as the number its digits spell. */
  lemma CountReadsDigits(page: KaPage, g: string)
    requires page.html != "" && page.countText == Some(g)
    requires g != [] && IsDigit(g[0]) && forall i | 0 <= i < |g| :: IsDigit(g[i]) || g[i] in KaDrop
    ensures Count(page) == DigitsValue(KeepDigits(g)) as int
    ensures Count(page) >= 0
  {
    RemoveAllKeepsDigits(g);
    assert KeepDigits(g) == [g[0]] + KeepDigits(g[1..]);
    PyIntOfDigits(KeepDigits(g));
  }

  /** What `_prices` returns for a page: nothing for an empty page, otherwise
      the readable amounts in [500, 300000], in page order. */
  function PagePrices(page: KaPage): seq<int> {
    if page.html == "" then [] else PriceList(page.priceTexts, Loose, KaDrop, CardWindow)
  }

  /** `_prices`. */
  method ReadPrices(page: KaPage) returns (out: seq<int>)
    ensures out == PagePrices(page)
    ensures AllWithin(out, 500, 300000)
  {
    out := [];
    if page.html == "" {
      return;
    }
    var texts := page.priceTexts;
    for i := 0 to |texts|
      invariant out == PriceList(texts[..i], Loose, KaDrop, CardWindow)
    {
      PriceListStep(texts, i, Loose, KaDrop, CardWindow);
      var v := ReadPrice(texts[i], Loose, KaDrop, CardWindow);
      if v.Some? {
        out := out + [v.value];
      }
    }
    assert texts[..|texts|] == texts;
    PriceListWithin(texts, Loose, KaDrop, CardWindow);
  }

  /** The number pattern as written: a card reading "5750 €" contributes a
      price of 575, and one reading "1234 €" contributes none. */
  lemma PagePricesOfFourDigitAmounts(page: KaPage)
    requires page.html != "" && page.priceTexts == ["5750 €", "1234 €"]
    ensures PagePrices(page) == [575]
  {
    var texts := page.priceTexts;
    LooseKeepsWrongPrice(texts[0], KaDrop, CardWindow);
    LooseDropsFourDigitPrice(texts[1], KaDrop, CardWindow);
    PriceListPair(texts, Loose, KaDrop, CardWindow);
  }

  // ---------------------------------------------------------------------------
  // fetch_ka_stats
  // ---------------------------------------------------------------------------

  /** The page a response stands for: its own when the status is good, an
      empty one otherwise. */
  function Body(r: Fetch<KaPage>): KaPage
    requires r.Response?
  {
    if StatusOk(r.status) then r.page else KaPage("", None, [])
  }

  /** Whether the second page is requested: a total was announced and the
      first page showed fewer prices. */
  predicate WantsSecond(page: KaPage) {
    Count(page) != 0 && |PagePrices(page)| < Count(page)
  }

  /** The prices the second page adds; None when its request raised. */
  function Extra(page: KaPage, second: Fetch<KaPage>): Option<seq<int>> {
    if !WantsSecond(page) then Some([])
    else if second.Raised? then None
    else if StatusOk(second.status) then Some(PagePrices(second.page))
    else Some([])
  }

  /** `prices[:announced]` when a positive total was announced. */
  function Cut(prices: seq<int>, announced: int): seq<int> {
    if announced > 0 then Take(prices, announced) else prices
  }

  /** The prices `fetch_ka_stats` averages, given the response for the URL
      and the one for its second page; None when a request raised. */
  function Gathered(first: Fetch<KaPage>, second: Fetch<KaPage>): Option<seq<int>> {
    if first.Raised? then None
    else match Extra(Body(first), second)
      case None => None
      case Some(extra) => Some(Cut(PagePrices(Body(first)) + extra, Count(Body(first))))
  }

  /** The answer for the response to the URL and the one to its second page. */
  function StatsOf(url: string, first: Fetch<KaPage>, second: Fetch<KaPage>): Stats {
    match Gathered(first, second)
    case None => Stats(true, 0, 0, url, "")
    case Some(prices) => Summary(url, prices)
  }

  /** `fetch_ka_stats`, with `get` standing for the HTTP requests. */
  method FetchKaStats(url: string, get: string -> Fetch<KaPage>) returns (res: Stats)
    ensures res == StatsOf(url, get(url), get(Page2Url(url)))
  {
    var r1 := get(url);
    if r1.Raised? {
      return Stats(true, 0, 0, url, "");
    }
    var page := Body(r1);
    var announced := Count(page);
    var prices := ReadPrices(page);
    var extra: seq<int> := [];
    if announced != 0 && |prices| < announced {
      var r2 := get(Page2Url(url));
      if r2.Raised? {
        return Stats(true, 0, 0, url, "");
      }
      if StatusOk(r2.status) {
        extra := ReadPrices(r2.page);
      }
    }
    assert Extra(page, get(Page2Url(url))) == Some(extra);
    prices := prices + extra;
    if announced > 0 {
      prices := Take(prices, announced);
    }
    res := Summary(url, prices);
  }

  /** The second page is looked at only when a total was announced and the
      first page showed fewer prices. */
  lemma SecondPageOnlyWhenShort(first: Fetch<KaPage>, second: Fetch<KaPage>, other: Fetch<KaPage>)
    requires first.Response?
    requires !WantsSecond(Body(first))
    ensures Gathered(first, second) == Gathered(first, other)
  {
  }

  /** The gathered prices are plausible card prices, and no more than a
      positive announced total. */
  lemma GatheredWithin(first: Fetch<KaPage>, second: Fetch<KaPage>)
    requires Gathered(first, second).Some?
    ensures AllWithin(Gathered(first, second).value, 500, 300000)
    ensures Count(Body(first)) > 0 ==> |Gathered(first, second).value| <= Count(Body(first))
  {
    var page := Body(first);
    var extra := Extra(page, second).value;
    KaPricesWithin(page);
    ExtraWithin(page, second);
    assert AllWithin(PagePrices(page) + extra, 500, 300000);
    CutWithin(PagePrices(page) + extra, Count(page));
  }

  lemma KaPricesWithin(page: KaPage)
    ensures AllWithin(PagePrices(page), 500, 300000)
  {
    PriceListWithin(page.priceTexts, Loose, KaDrop, CardWindow);
  }

  lemma ExtraWithin(page: KaPage, second: Fetch<KaPage>)
    requires Extra(page, second).Some?
    ensures AllWithin(Extra(page, second).value, 500, 300000)
  {
    if WantsSecond(page) && second.Response? && StatusOk(second.status) {
      KaPricesWithin(second.page);
    }
  }

  lemma CutWithin(prices: seq<int>, announced: int)
    requires AllWithin(prices, 500, 300000)
    ensures AllWithin(Cut(prices, announced), 500, 300000)
    ensures announced > 0 ==> |Cut(prices, announced)| <= announced
  {
  }

  /** Every answer is ok; no more prices than announced are averaged; the
      average of a non-empty answer is a plausible card price. */
  lemma StatsBounds(url: string, first: Fetch<KaPage>, second: Fetch<KaPage>)
    ensures StatsOf(url, first, second).ok && StatsOf(url, first, second).url == url
    ensures first.Response? && Count(Body(first)) > 0 ==> StatsOf(url, first, second).count <= Count(Body(first))
    ensures StatsOf(url, first, second).count > 0 ==> 500 <= StatsOf(url, first, second).avg <= 300000
    ensures StatsOf(url, first, second).count == 0 ==> StatsOf(url, first, second).avg == 0
  {
    var g := Gathered(first, second);
    if g.Some? {
      GatheredWithin(first, second);
      if g.value != [] {
        AverageWithin(g.value, 500, 300000);
      }
    }
  }

  /** A transport error on the second page discards the first page's prices
      too: the whole lookup reports nothing. */
  lemma SecondPageErrorLosesFirst(url: string, first: Fetch<KaPage>, name: string)
    requires first.Response?
    requires WantsSecond(Body(first))
    ensures StatsOf(url, first, Raised(name)) == Stats(true, 0, 0, url, "")
  {
  }
}
