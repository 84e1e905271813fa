/** The mobile.de statistics of the web app: which URLs are accepted, the
    announced total of a result page, its prices, and the answer of the
    statistics endpoint. */
module Mobile {
  import opened Common
  import opened Prices
  import KaStats

  /** `_is_mobile_search_url`: the lower-cased URL names the desktop or the
      mobile search page. */
  predicate IsMobileSearchUrl(u: string) {
    u != "" && (Contains(Lower(u), "suchen.mobile.de/fahrzeuge/search.html")
                || Contains(Lower(u), "m.mobile.de/auto/search.html"))
  }

  /** The test ignores letter case, and an empty URL is refused. */
  lemma IsMobileSearchUrlIgnoresCase(u: string)
    ensures IsMobileSearchUrl(Lower(u)) == IsMobileSearchUrl(u)
    ensures !IsMobileSearchUrl("")
  {
    assert Lower(Lower(u)) == Lower(u);
  }

  // ---------------------------------------------------------------------------
  // One result page
  // ---------------------------------------------------------------------------

  /** A result page as the parsing layer sees it: its HTML; the number
      captured by the title, by the sticky bar and by the generic
      "<n> Angebot" pattern; the text of every price label with entities
      decoded and tags removed; and the text of every main price block with
      entities decoded and tags replaced by spaces. */
  datatype MobilePage = MobilePage(html: string, titleCount: Option<string>, stickyCount: Option<string>,
                                   genericCount: Option<string>, spanTexts: seq<string>, blockTexts: seq<string>)

  /** `_norm`: the captured number without dots, spaces and no-break spaces,
      0 when it does not parse. */
  function Norm(g: Option<string>): int {
    var s := if g.None? || g.value == "" then "0" else g.value;
    PyInt(RemoveAll(s, KaStats.KaDrop)).GetOr(0)
  }

  /** A captured number that is positive, if any. */
  function Positive(g: Option<string>): Option<int> {
    if g.Some? && Norm(g) > 0 then Some(Norm(g)) else None
  }

  /** `_extract_srp_count_mobile`: the title, else the sticky bar, else the
      generic pattern, the first to give a positive number; else 0. */
  function ExtractCount(page: MobilePage): (n: int)
    ensures n >= 0
    ensures page.html == "" ==> n == 0
  {
    if page.html == "" then 0
    else if Positive(page.titleCount).Some? then Positive(page.titleCount).value
    else if Positive(page.stickyCount).Some? then Positive(page.stickyCount).value
    else if Positive(page.genericCount).Some? then Positive(page.genericCount).value
    else 0
  }

  /** The count is the first positive reading in title, sticky bar, generic
      order, and 0 exactly when none of the three gives a positive number. */
  lemma ExtractCountOrder(page: MobilePage)
    requires page.html != ""
    ensures Positive(page.titleCount).Some? ==> ExtractCount(page) == Norm(page.titleCount)
    ensures Positive(page.titleCount).None? && Positive(page.stickyCount).Some? ==> ExtractCount(page) == Norm(page.stickyCount)
    ensures ExtractCount(page) == 0 <==>
      Positive(page.titleCount).None? && Positive(page.stickyCount).None? && Positive(page.genericCount).None?
    ensures ExtractCount(page) > 0 ==>
      ExtractCount(page) in {Norm(page.titleCount), Norm(page.stickyCount), Norm(page.genericCount)}
  {
  }

  /** A plain run of digits normalises to the number it spells. */
  lemma NormDigits(g: string)
    requires g != [] && AllDigits(g)
    ensures Norm(Some(g)) == DigitsValue(g) as int
  {
    KaStats.RemoveAllKeepsDigits(g);
    KeepDigitsOfDigits(g);
    PyIntOfDigits(g);
  }

  /** A zero in the title does not hide the sticky bar's total. */
  lemma ZeroTitleFallsThrough(page: MobilePage, g: string)
    requires page.html != "" && page.titleCount == Some("0") && page.stickyCount == Some(g)
    requires g != [] && AllDigits(g) && DigitsValue(g) > 0
    ensures ExtractCount(page) == DigitsValue(g) as int
  {
    NormDigits("0");
    NormDigits(g);
  }

  /** The window of plausible mobile.de prices. */
  const MobileWindow := Window(500, 500000)

  /** What `_extract_prices_mobile` returns: the price labels, or when they
      give none the main price blocks. */
  function PagePrices(page: MobilePage): seq<int> {
    var spans := PriceList(page.spanTexts, Loose, KaStats.KaDrop, MobileWindow);
    if page.html == "" then []
    else if spans != [] then spans
    else PriceList(page.blockTexts, Loose, KaStats.KaDrop, MobileWindow)
  }

  /** The prices of a run of texts, one loop of `_extract_prices_mobile`. */
  method ReadAll(texts: seq<string>) returns (out: seq<int>)
    ensures out == PriceList(texts, Loose, KaStats.KaDrop, MobileWindow)
  {
    out := [];
    for i := 0 to |texts|
      invariant out == PriceList(texts[..i], Loose, KaStats.KaDrop, MobileWindow)
    {
      PriceListStep(texts, i, Loose, KaStats.KaDrop, MobileWindow);
      var v := ReadPrice(texts[i], Loose, KaStats.KaDrop, MobileWindow);
      if v.Some? {
        out := out + [v.value];
      }
    }
    assert texts[..|texts|] == texts;
  }

  /** `_extract_prices_mobile`. */
  method ExtractPrices(page: MobilePage) returns (prices: seq<int>)
    ensures prices == PagePrices(page)
  {
    prices := [];
    if page.html == "" {
      return;
    }
    prices := ReadAll(page.spanTexts);
    if prices != [] {
      return;
    }
    prices := ReadAll(page.blockTexts);
  }

  /** Every price lies in [500, 500000]; the blocks are read only when the
      price labels give none. */
  lemma PagePricesWithin(page: MobilePage)
    ensures AllWithin(PagePrices(page), 500, 500000)
    ensures page.html != "" && PriceList(page.spanTexts, Loose, KaStats.KaDrop, MobileWindow) != [] ==>
      PagePrices(page) == PriceList(page.spanTexts, Loose, KaStats.KaDrop, MobileWindow)
  {
    PriceListWithin(page.spanTexts, Loose, KaStats.KaDrop, MobileWindow);
    PriceListWithin(page.blockTexts, Loose, KaStats.KaDrop, MobileWindow);
  }

  /** The number pattern as written: a price label reading "5750 €" gives a
      price of 575, and one reading "1234 €" gives none. */
  lemma SpanPricesOfFourDigitAmounts(page: MobilePage)
    requires page.html != "" && page.spanTexts == ["5750 €", "1234 €"]
    ensures PagePrices(page) == [575]
  {
    var texts := page.spanTexts;
    LooseKeepsWrongPrice(texts[0], KaStats.KaDrop, MobileWindow);
    LooseDropsFourDigitPrice(texts[1], KaStats.KaDrop, MobileWindow);
    PriceListPair(texts, Loose, KaStats.KaDrop, MobileWindow);
  }

  // ---------------------------------------------------------------------------
  // api_mobile_stats
  // ---------------------------------------------------------------------------

  const InvalidUrl := "Bitte eine gültige mobile.de Such-URL übergeben."
  const NoPrices := "Konnte keine Preise aus der Seite lesen (möglicher Bot-Schutz)."

  function NetError(name: string): string {
    "Netzwerkfehler zu mobile.de (" + name + ")"
  }

  /** A failed answer: it carries no count, average or URL. */
  function Failure(error: string): Stats {
    Stats(false, 0, 0, "", error)
  }

  /** Whether the second page is fetched: a total was announced and the
      first page showed fewer prices. */
  predicate WantsSecond(announced: int, prices: seq<int>) {
    announced != 0 && |prices| < announced
  }

  /** The prices after the optional second page, None when its fetch raised. */
  function Gathered(announced: int, p1: seq<int>, second: Fetch<MobilePage>): Option<seq<int>> {
    if !WantsSecond(announced, p1) then Some(p1)
    else if second.Raised? then None
    else
      var more := p1 + PagePrices(second.page);
      Some(if announced > 0 then Take(more, announced) else more)
  }

  /** The answer of the endpoint for the argument `arg`, the response for the
      URL and the one for its second page. */
  function StatsOf(arg: string, first: Fetch<MobilePage>, second: Fetch<MobilePage>): Stats {
    var url := Strip(arg);
    if !IsMobileSearchUrl(url) then Failure(InvalidUrl)
    else if first.Raised? then Failure(NetError(first.name))
    else
      var announced := ExtractCount(first.page);
      match Gathered(announced, PagePrices(first.page), second)
      case None => Failure(NetError(second.name))
      case Some(prices) =>
        if |prices| == 0 && announced > 0 then Failure(NoPrices)
        else Summary(url, prices)
  }

  /** `api_mobile_stats`; `get` stands for `_fetch_text_requests` (the body
      is read whatever the status) and `page2` for `_page2_mobile`. */
  method MobileStats(arg: string, get: string -> Fetch<MobilePage>, page2: string -> string) returns (res: Stats)
    ensures res == StatsOf(arg, get(Strip(arg)), get(page2(Strip(arg))))
  {
    var url := Strip(arg);
    if !IsMobileSearchUrl(url) {
      return Failure(InvalidUrl);
    }
    var r1 := get(url);
    if r1.Raised? {
      return Failure(NetError(r1.name));
    }
    var announced := ExtractCount(r1.page);
    var prices := ExtractPrices(r1.page);
    ghost var p1 := prices;
    if announced != 0 && |prices| < announced {
      var r2 := get(page2(url));
      if r2.Raised? {
        return Failure(NetError(r2.name));
      }
      var more := ExtractPrices(r2.page);
      prices := prices + more;
      if announced > 0 {
        prices := Take(prices, announced);
      }
    }
    assert Gathered(announced, p1, get(page2(url))) == Some(prices);
    if |prices| == 0 && announced > 0 {
      return Failure(NoPrices);
    }
    res := Summary(url, prices);
  }

  /** The gathered prices stay plausible; when the second page was read
      they are cut to the announced total, otherwise they are the first
      page's prices, even beyond the announced total. */
  lemma GatheredWithin(announced: int, p1: seq<int>, second: Fetch<MobilePage>)
    requires AllWithin(p1, 500, 500000)
    requires Gathered(announced, p1, second).Some?
    ensures AllWithin(Gathered(announced, p1, second).value, 500, 500000)
    ensures WantsSecond(announced, p1) ==> |Gathered(announced, p1, second).value| <= announced
    ensures !WantsSecond(announced, p1) ==> Gathered(announced, p1, second).value == p1
  {
    if WantsSecond(announced, p1) {
      PagePricesWithin(second.page);
      assert AllWithin(p1 + PagePrices(second.page), 500, 500000);
    }
  }

  /** An invalid URL is refused before any request; a failed answer carries
      no numbers; a good one averages plausible prices; a page that announces
      offers but yields no price is a failure. */
  lemma StatsOutcome(arg: string, first: Fetch<MobilePage>, second: Fetch<MobilePage>)
    ensures var s := StatsOf(arg, first, second);
      && (!IsMobileSearchUrl(Strip(arg)) ==> s == Failure(InvalidUrl))
      && (!s.ok ==> s.count == 0 && s.avg == 0)
      && (s.ok ==> first.Response? && s.url == Strip(arg))
      && (s.ok && s.count > 0 ==> 500 <= s.avg <= 500000)
      && (first.Response? && IsMobileSearchUrl(Strip(arg)) && ExtractCount(first.page) > 0 && s.count == 0 ==> !s.ok)
  {
    if IsMobileSearchUrl(Strip(arg)) && first.Response? {
      var announced := ExtractCount(first.page);
      var p1 := PagePrices(first.page);
      PagePricesWithin(first.page);
      var g := Gathered(announced, p1, second);
      if g.Some? {
        GatheredWithin(announced, p1, second);
        if g.value != [] {
          AverageWithin(g.value, 500, 500000);
        }
      }
    }
  }

  /** When the second page was read, the count does not exceed the announced
      total. */
  lemma StatsCountCut(arg: string, first: Fetch<MobilePage>, second: Fetch<MobilePage>)
    requires first.Response? && WantsSecond(ExtractCount(first.page), PagePrices(first.page))
    ensures StatsOf(arg, first, second).count <= ExtractCount(first.page)
  {
    PagePricesWithin(first.page);
    if Gathered(ExtractCount(first.page), PagePrices(first.page), second).Some? {
      GatheredWithin(ExtractCount(first.page), PagePrices(first.page), second);
    }
  }

  /** The second page is not requested when the first already holds the
      announced number of prices, or when nothing was announced. */
  lemma SecondPageOnlyWhenShort(arg: string, first: Fetch<MobilePage>, second: Fetch<MobilePage>, other: Fetch<MobilePage>)
    requires first.Response?
    requires ExtractCount(first.page) == 0 || |PagePrices(first.page)| >= ExtractCount(first.page)
    ensures StatsOf(arg, first, second) == StatsOf(arg, first, other)
  {
  }
}
