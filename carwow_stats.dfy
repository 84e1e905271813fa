/** The carwow provider: recognising a block page, the announced number of
    offers, the deal-card prices (with a fallback to prices embedded as JSON),
    the resulting statistics, and the carwow search link the app uses. */
module CarwowStats {
  import opened Common
  import opened Store
  import opened Prices
  import Links

  // ---------------------------------------------------------------------------
  // Block pages
  // ---------------------------------------------------------------------------

  const BlockHints: seq<string> := [
    "captcha", "are you human", "access denied", "temporarily blocked",
    "robot", "forbidden", "not authorized", "verify you are", "cloudflare"]

  /** `_looks_blocked`: an empty page, or one whose lower-cased text
      contains any of the hints. */
  predicate LooksBlocked(text: string) {
    text == "" || exists i | 0 <= i < |BlockHints| :: Contains(Lower(text), BlockHints[i])
  }

  lemma LowerIdempotent(s: string)
    ensures Lower(Lower(s)) == Lower(s)
  {
  }

  /** The test does not depend on letter case. */
  lemma LooksBlockedIgnoresCase(text: string)
    ensures LooksBlocked(Lower(text)) == LooksBlocked(text)
  {
    LowerIdempotent(text);
  }

  /** A page saying "Access Denied" is a block page. */
  lemma AccessDeniedIsBlocked()
    ensures LooksBlocked("Access Denied")
  {
    assert Lower("Access Denied") == "access denied";
    assert StartsWith("access denied", BlockHints[2]);
  }

  // ---------------------------------------------------------------------------
  // Numbers
  // ---------------------------------------------------------------------------

  /** Dots, spaces and the four typographic spaces carwow uses inside numbers. */
  const CwDrop: set<char> := {'.', ' ', '\U{A0}', '\U{202F}', '\U{2009}', '\U{2007}'}

  /** `_to_int`: the number once the separators are gone, 0 when empty or
      unparsable. */
  function ToInt(s: string): int {
    if s == "" then 0 else PyInt(RemoveAll(s, CwDrop)).GetOr(0)
  }

  lemma {:induction false} RemoveAllDigits(s: string)
    requires forall i | 0 <= i < |s| :: IsDigit(s[i]) || s[i] in CwDrop
    ensures RemoveAll(s, CwDrop) == KeepDigits(s)
    decreases |s|
  {
    if s != [] {
      RemoveAllDigits(s[1..]);
    }
  }

  /** A number written with any of the separators between its digits reads
      as the number its digits spell; anything else unreadable reads as 0. */
  lemma ToIntReadsDigits(s: string)
    requires forall i | 0 <= i < |s| :: IsDigit(s[i]) || s[i] in CwDrop
    ensures KeepDigits(s) != [] ==> ToInt(s) == DigitsValue(KeepDigits(s)) as int
    ensures KeepDigits(s) == [] ==> ToInt(s) == 0
  {
    RemoveAllDigits(s);
    if KeepDigits(s) != [] {
      PyIntOfDigits(KeepDigits(s));
    } else if s != [] {
      assert RemoveAll(s, CwDrop) == [];
      assert Strip([]) == [];
    }
  }

  // ---------------------------------------------------------------------------
  // One result page
  // ---------------------------------------------------------------------------

  /** A result page as the parsing layer sees it: its HTML; the number
      captured by the deals-count header, by the element whose class contains
      the deals count, and by the generic "<n> Angebote" pattern; the inner
      text of every deal-card price block with entities decoded and tags
      blanked out; the digit groups of the JSON price fields; and whether a
      `"price_in_cents"` key occurs. */
  datatype CwPage = CwPage(html: string, idCount: Option<string>, classCount: Option<string>,
                           genericCount: Option<string>, blocks: seq<string>,
                           jsonNumbers: seq<string>, centsHint: bool)

  /** `_extract_count`: the header, else the class fallback, else the generic
      pattern, else 0. */
  function ExtractCount(page: CwPage): (n: int)
    ensures page.html == "" ==> n == 0
    ensures page.html != "" && page.idCount.Some? ==> n == ToInt(page.idCount.value)
    ensures page.html != "" && page.idCount.None? && page.classCount.Some? ==> n == ToInt(page.classCount.value)
    ensures page.html != "" && page.idCount.None? && page.classCount.None? ==>
      n == (if page.genericCount.Some? then ToInt(page.genericCount.value) else 0)
  {
    if page.html == "" then 0
    else
      var m := if page.idCount.Some? then page.idCount else page.classCount;
      var m' := if m.None? then page.genericCount else m;
      if m'.None? then 0 else ToInt(m'.value)
  }

  /** `_clean` after entity decoding and tag removal: every run of whitespace
      (the typographic spaces included) becomes one space, then the ends are
      stripped. */
  function Clean(s: string): string {
    Strip(Links.Sub(s, IsSpace, " "))
  }

  function Cleaned(blocks: seq<string>): (r: seq<string>)
    ensures |r| == |blocks| && forall i | 0 <= i < |blocks| :: r[i] == Clean(blocks[i])
  {
    seq(|blocks|, i requires 0 <= i < |blocks| => Clean(blocks[i]))
  }

  /** The prices read from the deal cards. */
  function DomPrices(page: CwPage): seq<int> {
    PriceList(Cleaned(page.blocks), Loose, CwDrop, CardWindow)
  }

  /** One JSON price: the number, in euros (cents rounded half to even when
      the page marks prices as cents), when it is in the window. */
  function JsonPrice(g: string, cents: bool): (v: Option<int>)
    ensures v.Some? ==> 500 <= v.value <= 300000
  {
    match PyInt(g)
    case None => None
    case Some(n) =>
      var e := if cents then RoundHalfEvenDiv(n, 100) else n;
      if 500 <= e <= 300000 then Some(e) else None
  }

  function JsonPrices(gs: seq<string>, cents: bool): (r: seq<int>)
    ensures AllWithin(r, 500, 300000)
    decreases |gs|
  {
    if gs == [] then []
    else
      var rest := JsonPrices(gs[..|gs| - 1], cents);
      match JsonPrice(gs[|gs| - 1], cents)
      case None => rest
      case Some(v) => rest + [v]
  }

  /** What `_extract_prices` returns: the deal-card prices, or when there are
      none the JSON prices. */
  function PagePrices(page: CwPage): seq<int> {
    if page.html == "" then []
    else if DomPrices(page) != [] then DomPrices(page)
    else JsonPrices(page.jsonNumbers, page.centsHint)
  }

  /** `_extract_prices`. */
  method ExtractPrices(page: CwPage) returns (out: seq<int>)
    ensures out == PagePrices(page)
  {
    out := [];
    if page.html == "" {
      return;
    }
    var blocks := page.blocks;
    var cleaned := Cleaned(blocks);
    for i := 0 to |blocks|
      invariant out == PriceList(cleaned[..i], Loose, CwDrop, CardWindow)
    {
      PriceListStep(cleaned, i, Loose, CwDrop, CardWindow);
      var inner := Clean(blocks[i]);
      var v := ReadPrice(inner, Loose, CwDrop, CardWindow);
      if v.Some? {
        out := out + [v.value];
      }
    }
    assert cleaned[..|blocks|] == cleaned;
    if out == [] {
      var gs := page.jsonNumbers;
      for i := 0 to |gs|
        invariant out == JsonPrices(gs[..i], page.centsHint)
      {
        assert gs[..i + 1][..i] == gs[..i];
        var v := JsonPrice(gs[i], page.centsHint);
        if v.Some? {
          out := out + [v.value];
        }
      }
      assert gs[..|gs|] == gs;
    }
  }

  /** Every extracted price lies in [500, 300000]; JSON prices are used only
      when the cards give none. */
  lemma PagePricesWithin(page: CwPage)
    ensures AllWithin(PagePrices(page), 500, 300000)
    ensures page.html != "" && DomPrices(page) != [] ==> PagePrices(page) == DomPrices(page)
  {
    PriceListWithin(Cleaned(page.blocks), Loose, CwDrop, CardWindow);
  }

  /** A cents value becomes the nearest whole euro, ties to even. */
  lemma JsonCentsRounding(g: string, n: int)
    requires PyInt(g) == Some(n) && JsonPrice(g, true).Some?
    ensures -50 <= n - 100 * JsonPrice(g, true).value <= 50
    ensures n - 100 * JsonPrice(g, true).value == 50 ==> JsonPrice(g, true).value % 2 == 0
  {
  }

  // ---------------------------------------------------------------------------
  // fetch_carwow_stats
  // ---------------------------------------------------------------------------

  /** The answer for the response to the URL. */
  function StatsOf(url: string, r: Fetch<CwPage>, prices: seq<int>): Stats
    requires r.Response? ==> prices == PagePrices(r.page)
  {
    if r.Raised? then Stats(false, 0, 0, url, "net:" + r.name)
    else if r.status >= 400 || LooksBlocked(r.page.html) then Stats(false, 0, 0, url, "blocked")
    else
      var announced := ExtractCount(r.page);
      Summary(url, if announced != 0 && |prices| > announced then Take(prices, announced) else prices)
  }

  /** `fetch_carwow_stats`, with `get` standing for the HTTP request. */
  method FetchCarwowStats(url: string, get: string -> Fetch<CwPage>) returns (res: Stats)
    ensures get(url).Response? ==> res == StatsOf(url, get(url), PagePrices(get(url).page))
    ensures get(url).Raised? ==> res == StatsOf(url, get(url), [])
  {
    var r := get(url);
    if r.Raised? {
      return Stats(false, 0, 0, url, "net:" + r.name);
    }
    if r.status >= 400 || LooksBlocked(r.page.html) {
      return Stats(false, 0, 0, url, "blocked");
    }
    var announced := ExtractCount(r.page);
    var prices := ExtractPrices(r.page);
    if announced != 0 && |prices| > announced {
      prices := Take(prices, announced);
    }
    res := Summary(url, prices);
  }

  /** The answer is ok exactly when the request went through to a page that
      is not blocked; a failed answer carries no numbers; a good one averages
      no more prices than a positive announced count, all plausible. */
  lemma StatsOutcome(url: string, r: Fetch<CwPage>)
    ensures var s := StatsOf(url, r, if r.Response? then PagePrices(r.page) else []);
      && (s.ok <==> r.Response? && r.status < 400 && !LooksBlocked(r.page.html))
      && (!s.ok ==> s.count == 0 && s.avg == 0)
      && (r.Raised? ==> s.error == "net:" + r.name)
      && (r.Response? && !s.ok ==> s.error == "blocked")
      && (s.ok && ExtractCount(r.page) > 0 ==> s.count <= ExtractCount(r.page))
      && (s.ok && s.count > 0 ==> 500 <= s.avg <= 300000)
  {
    if r.Response? && r.status < 400 && !LooksBlocked(r.page.html) {
      PagePricesWithin(r.page);
      CappedSummary(url, PagePrices(r.page), ExtractCount(r.page));
    }
  }

  /** Cutting the prices to the announced number keeps the count at most that
      number and the average inside the plausibility window. */
  lemma CappedSummary(url: string, prices: seq<int>, announced: int)
    requires AllWithin(prices, 500, 300000)
    ensures var s := Summary(url, if announced != 0 && |prices| > announced then Take(prices, announced) else prices);
      && (announced > 0 ==> s.count <= announced)
      && (s.count > 0 ==> 500 <= s.avg <= 300000)
  {
    var kept := if announced != 0 && |prices| > announced then Take(prices, announced) else prices;
    assert AllWithin(kept, 500, 300000);
    if kept != [] {
      AverageWithin(kept, 500, 300000);
    }
  }

  // ---------------------------------------------------------------------------
  // build_carwow_search_url (the builder the app uses)
  // ---------------------------------------------------------------------------

  /** `_slug`: stripped, then the plain slug with "-". */
  function Slug(v: string): string {
    Links.AlnumSlug(Strip(v), '-')
  }

  /** `(r[k] or "").strip()`. */
  function Val(r: Row, c: Column): string {
    Strip(Links.Field(r, c))
  }

  /** The km bounds: only for a positive km, the lower one never below 0.
      `low` and `high` stand for `int(round(km * 0.9))` and
      `int(round(km * 1.1))`, whose floating-point rounding is not modelled. */
  function Bounds(km: Option<int>, low: int -> int, high: int -> int): (b: (Option<int>, Option<int>))
    ensures b.0.Some? <==> km.Some? && km.value > 0
    ensures b.1.Some? <==> b.0.Some?
    ensures b.0.Some? ==> b.0.value >= 0 && b.0.value >= low(km.value)
    ensures b.1.Some? ==> b.1.value == high(km.value)
  {
    if km.Some? && km.value > 0 then
      (Some(if low(km.value) > 0 then low(km.value) else 0), Some(high(km.value)))
    else (None, None)
  }

  /** The query of the search link for slugs `brand` and `model`. */
  function CarwowQuery(r: Row, brand: string, model: string, low: int -> int, high: int -> int): string {
    var fuelRaw := Lower(Val(r, Fuel));
    var fuel := if fuelRaw in Links.CarwowFuel then Links.CarwowFuel[fuelRaw] else "";
    var trans := Links.GearCode(Lower(Val(r, Gearbox)), "automatic", "manual");
    var b := Bounds(Links.IntField(r, Km), low, high);
    Links.UrlEncode(Links.CarwowParams(brand, model, fuel, trans, b.0, b.1))
  }

  /** `build_carwow_search_url`: no link without both slugs. */
  function CarwowSearchUrl(r: Row, low: int -> int, high: int -> int): (url: string)
    ensures url == "" <==> Slug(Val(r, Brand)) == "" || Slug(Val(r, Model)) == ""
  {
    var brand, model := Slug(Val(r, Brand)), Slug(Val(r, Model));
    if brand == "" || model == "" then ""
    else Links.CarwowBase + "?" + CarwowQuery(r, brand, model, low, high)
  }

  /** No link exactly when the stripped brand or model has no letter or digit. */
  lemma CarwowUrlEmpty(r: Row, low: int -> int, high: int -> int)
    ensures CarwowSearchUrl(r, low, high) == "" <==>
      Links.Letters(Lower(Val(r, Brand))) == [] || Links.Letters(Lower(Val(r, Model))) == []
  {
    Links.AlnumSlugShape(Strip(Val(r, Brand)), '-');
    Links.AlnumSlugShape(Strip(Val(r, Model)), '-');
    StripTwice(Links.Field(r, Brand));
    StripTwice(Links.Field(r, Model));
  }

  /** `_slug` strips a value `val` already stripped: the second strip changes
      nothing. */
  lemma StripTwice(s: string)
    ensures Strip(Strip(s)) == Strip(s)
  {
    if Strip(s) != [] {
      StripNoEdgeSpace(Strip(s));
    }
  }

  /** The lower km bound is sent as the decimal of a non-negative number. */
  lemma LowerBoundReadsBack(km: Option<int>, low: int -> int, high: int -> int)
    requires km.Some? && km.value > 0
    ensures var g := Bounds(km, low, high).0.value;
      PyInt(IntToString(g)) == Some(g) && g >= 0
  {
    PyIntRoundTrip(Bounds(km, low, high).0.value);
  }

  /** The links-module builder sends bounds for any integer km, this one only
      for a positive km: for a km of 0 the first has both bounds at 0, this
      one none. */
  lemma ZeroKmDiffers(low: int -> int, high: int -> int)
    ensures Bounds(Some(0), low, high) == (None, None)
    ensures Links.KmBand(0) == (0, 0)
  {
  }
}
