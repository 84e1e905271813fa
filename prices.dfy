/** What the three comparable-price providers (Kleinanzeigen, carwow,
    mobile.de and AutoScout24) share: reading a euro amount out of the text of
    a price element, the plausibility window, the rounded average and the
    shape of a statistics answer. Locating the price elements in the HTML is
    the regular-expression engine's job and is not modelled: its captured
    texts are the inputs here. */
module Prices {
  import opened Common
  import Links

  // ---------------------------------------------------------------------------
  // Fetches and answers
  // ---------------------------------------------------------------------------

  /** What `requests.get` gives: a response with its status code and the page
      as the parsing layer sees it, or a transport exception by class name. */
  datatype Fetch<P> = Response(status: int, page: P) | Raised(name: string)

  /** `Response.ok`: false exactly for client and server errors. */
  predicate StatusOk(status: int) {
    !(400 <= status < 600)
  }

  /** The JSON answer `{ok, count, avg_price_eur, url[, error]}`; `error` is
      "" when the answer carries none. */
  datatype Stats = Stats(ok: bool, count: nat, avg: int, url: string, error: string)

  // ---------------------------------------------------------------------------
  // The average
  // ---------------------------------------------------------------------------

  /** `int(round(sum(prices) / count)) if count else 0`. */
  function Average(prices: seq<int>): (avg: int)
    ensures prices == [] ==> avg == 0
    ensures prices != [] ==> -|prices| <= 2 * (Sum(prices) - |prices| * avg) <= |prices|
  {
    if prices == [] then 0 else RoundHalfEvenDiv(Sum(prices), |prices|)
  }

  predicate AllWithin(prices: seq<int>, lo: int, hi: int) {
    forall i | 0 <= i < |prices| :: lo <= prices[i] <= hi
  }

  lemma {:induction false} SumBounds(s: seq<int>, lo: int, hi: int)
    requires AllWithin(s, lo, hi)
    ensures |s| * lo <= Sum(s) <= |s| * hi
    decreases |s|
  {
    if s != [] {
      SumBounds(s[..|s| - 1], lo, hi);
    }
  }

  /** The average of prices inside a window lies inside the window; with the
      window [min, max] of the prices it lies between their least and greatest. */
  lemma AverageWithin(prices: seq<int>, lo: int, hi: int)
    requires prices != [] && AllWithin(prices, lo, hi)
    ensures lo <= Average(prices) <= hi
  {
    SumBounds(prices, lo, hi);
    RoundedWithin(|prices|, Sum(prices), Average(prices), lo, hi);
  }

  /** A rounded quotient of a total lying between `n * lo` and `n * hi` lies
      between `lo` and `hi`. */
  lemma RoundedWithin(n: int, total: int, a: int, lo: int, hi: int)
    requires n > 0 && n * lo <= total <= n * hi
    requires -n <= 2 * (total - n * a) <= n
    ensures lo <= a <= hi
  {
    MulDiff(n, lo, a);
    AtMostHalf(n, lo - a);
    MulDiff(n, a, hi);
    AtMostHalf(n, a - hi);
  }

  lemma MulDiff(n: int, x: int, y: int)
    ensures n * (x - y) == n * x - n * y
  {
  }

  /** A multiple of a positive `n` that is at most half of `n` is not positive. */
  lemma AtMostHalf(n: int, x: int)
    requires n > 0 && 2 * (n * x) <= n
    ensures x <= 0
  {
    if x > 0 {
      MulMono(n, 1, x);
    }
  }

  lemma MulMono(n: nat, x: int, y: int)
    requires x <= y
    ensures n * x <= n * y
  {
    assert n * y - n * x == n * (y - x);
  }

  /** The answer of a successful lookup: the number of prices and their average. */
  function Summary(url: string, prices: seq<int>): (s: Stats)
    ensures s.ok && s.count == |prices| && s.url == url && s.error == ""
    ensures prices == [] ==> s.avg == 0
  {
    Stats(true, |prices|, Average(prices), url, "")
  }

  // ---------------------------------------------------------------------------
  // Numbers in price texts
  // ---------------------------------------------------------------------------

  /** The separators of `[.\s]`. */
  predicate DotOrSpace(c: char) {
    c == '.' || IsSpace(c)
  }

  predicate IsDot(c: char) {
    c == '.'
  }

  /** How many `SEP\d{3}` groups follow at the start of `t`, taken greedily. */
  function Groups(t: string, sep: char -> bool): (g: nat)
    ensures 4 * g <= |t|
    decreases |t|
  {
    if |t| >= 4 && sep(t[0]) && IsDigit(t[1]) && IsDigit(t[2]) && IsDigit(t[3])
    then 1 + Groups(t[4..], sep)
    else 0
  }

  /** `\d{1,3}(?:[.\s]\d{3})*|\d+` matched at the start of `t`, as the
      price texts of Kleinanzeigen, carwow and mobile.de are read. The first
      alternative succeeds on any digit, so the second is never tried: a run
      of more than three digits yields only its first three. */
  function LooseNumberAt(t: string): (m: Option<string>)
    ensures m.Some? ==> 0 < |m.value| <= |t| && m.value == t[..|m.value|] && IsDigit(m.value[0])
  {
    var n := Links.Run(t, IsDigit);
    if n == 0 then None
    else
      var k := if n < 3 then n else 3;
      Some(t[..k + 4 * Groups(t[k..], DotOrSpace)])
  }

  /** `\d{1,3}(?:SEP\d{3})+|\d+` matched at the start of `t`: a short digit
      run followed by at least one separated group, otherwise the whole digit
      run. With `SEP = \.` this is the AutoScout24 price pattern. */
  function GroupedNumberAt(t: string, sep: char -> bool): (m: Option<string>)
    ensures m.Some? ==> 0 < |m.value| <= |t| && m.value == t[..|m.value|] && IsDigit(m.value[0])
  {
    var n := Links.Run(t, IsDigit);
    if n == 0 then None
    else if n <= 3 && Groups(t[n..], sep) > 0 then Some(t[..n + 4 * Groups(t[n..], sep)])
    else Some(t[..n])
  }

  /** `re.search` with the first pattern. */
  function LooseNumber(s: string): Option<string> {
    Search(s, LooseNumberAt)
  }

  /** `re.search` with the second pattern. */
  function GroupedNumber(s: string, sep: char -> bool): Option<string> {
    Search(s, (t: string) => GroupedNumberAt(t, sep))
  }

  /** The number patterns a provider reads its price texts with. */
  datatype NumberPattern =
    | Loose                       // `\d{1,3}(?:[.\s]\d{3})*|\d+`
    | Grouped(sep: char -> bool)  // `\d{1,3}(?:SEP\d{3})+|\d+`

  /** `re.search` with the pattern `pat`. */
  function FindNumber(pat: NumberPattern, s: string): Option<string> {
    match pat
    case Loose => LooseNumber(s)
    case Grouped(sep) => GroupedNumber(s, sep)
  }

  /** What the first pattern of Kleinanzeigen, carwow and mobile.de is
      evidently meant to read: a grouped amount, or else the whole digit run. */
  const IntendedNumber := Grouped(DotOrSpace)

  /** The digit run at the start of `t` has length `k`. */
  lemma {:induction false} DigitRun(t: string, k: nat)
    requires k <= |t| && AllDigits(t[..k]) && (k == |t| || !IsDigit(t[k]))
    ensures Links.Run(t, IsDigit) == k
    decreases k
  {
    if k > 0 {
      assert IsDigit(t[..k][0]);
      assert t[1..][..k - 1] == t[..k][1..];
      DigitRun(t[1..], k - 1);
    }
  }

  /** The first pattern cuts an unseparated amount after three digits. */
  lemma LooseNumberCutsLongRuns()
    ensures LooseNumber("12345 €") == Some("123")
  {
    var s := "12345 €";
    DigitRun(s, 5);
    assert s[3..][0] == '4';
    assert LooseNumberAt(s) == Some(s[..3]);
    assert s[..3] == "123";
  }

  /** The second pattern reads an unseparated amount whole, and a grouped
      amount with all its groups. */
  lemma GroupedNumberReadsRuns()
    ensures GroupedNumber("12345 €", DotOrSpace) == Some("12345")
    ensures GroupedNumber("12.345 €", DotOrSpace) == Some("12.345")
  {
    GroupedNumberReadsLongRun();
    GroupedNumberReadsGroup();
  }

  lemma GroupedNumberReadsLongRun()
    ensures GroupedNumber("12345 €", DotOrSpace) == Some("12345")
  {
    var s := "12345 €";
    DigitRun(s, 5);
    assert GroupedNumberAt(s, DotOrSpace) == Some(s[..5]);
    assert s[..5] == "12345";
  }

  lemma GroupedNumberReadsGroup()
    ensures GroupedNumber("12.345 €", DotOrSpace) == Some("12.345")
  {
    var t := "12.345 €";
    DigitRun(t, 2);
    var g := t[2..];
    assert g[0] == '.' && IsDigit(g[1]) && IsDigit(g[2]) && IsDigit(g[3]);
    assert Groups(g[4..], DotOrSpace) == 0 by {
      assert g[4..] == " €";
    }
    assert Groups(g, DotOrSpace) == 1;
    assert GroupedNumberAt(t, DotOrSpace) == Some(t[..6]);
    assert t[..6] == "12.345";
  }

  /** Every run of digits not preceded by a digit is read whole by the
      second pattern when it has more than three digits. */
  lemma GroupedNumberAtLongRun(t: string, sep: char -> bool)
    requires Links.Run(t, IsDigit) > 3
    ensures GroupedNumberAt(t, sep) == Some(t[..Links.Run(t, IsDigit)])
    ensures AllDigits(GroupedNumberAt(t, sep).value)
  {
  }

  /** The window a price must fall into to count. */
  datatype Window = Window(lo: int, hi: int)

  const CardWindow := Window(500, 300000)

  /** The first amount the pattern finds in the text, with the given
      characters removed and then read by `int()`: a price when it parses and
      lies in the window. */
  function ReadPrice(text: string, pat: NumberPattern, drop: set<char>, w: Window): (v: Option<int>)
    ensures v.Some? ==> w.lo <= v.value <= w.hi
  {
    match FindNumber(pat, text)
    case None => None
    case Some(g) =>
      match PyInt(RemoveAll(g, drop))
      case None => None
      case Some(v) => if w.lo <= v <= w.hi then Some(v) else None
  }

  /** The prices read from the matched texts, in match order. */
  function PriceList(texts: seq<string>, pat: NumberPattern, drop: set<char>, w: Window): seq<int>
    decreases |texts|
  {
    if texts == [] then []
    else
      var rest := PriceList(texts[..|texts| - 1], pat, drop, w);
      match ReadPrice(texts[|texts| - 1], pat, drop, w)
      case None => rest
      case Some(v) => rest + [v]
  }

  /** Every listed price lies in the window, and there is at most one per text. */
  lemma {:induction false} PriceListWithin(texts: seq<string>, pat: NumberPattern, drop: set<char>, w: Window)
    ensures AllWithin(PriceList(texts, pat, drop, w), w.lo, w.hi)
    ensures |PriceList(texts, pat, drop, w)| <= |texts|
    decreases |texts|
  {
    if texts != [] {
      PriceListWithin(texts[..|texts| - 1], pat, drop, w);
    }
  }

  /** Reading is per text: the prices of two runs of texts are the prices of
      the first followed by those of the second. */
  lemma {:induction false} PriceListConcat(a: seq<string>, b: seq<string>, pat: NumberPattern, drop: set<char>, w: Window)
    ensures PriceList(a + b, pat, drop, w) == PriceList(a, pat, drop, w) + PriceList(b, pat, drop, w)
    decreases |b|
  {
    if b == [] {
      assert a + b == a;
    } else {
      assert (a + b)[..|a + b| - 1] == a + b[..|b| - 1];
      assert (a + b)[|a + b| - 1] == b[|b| - 1];
      PriceListConcat(a, b[..|b| - 1], pat, drop, w);
    }
  }

  /** The prices of two texts. */
  lemma PriceListPair(texts: seq<string>, pat: NumberPattern, drop: set<char>, w: Window)
    requires |texts| == 2
    ensures PriceList(texts, pat, drop, w)
         == (match ReadPrice(texts[0], pat, drop, w) case Some(v) => [v] case None => [])
          + (match ReadPrice(texts[1], pat, drop, w) case Some(v) => [v] case None => [])
  {
    PriceListStep(texts, 0, pat, drop, w);
    PriceListStep(texts, 1, pat, drop, w);
    assert texts[..0] == [] && texts[..2] == texts;
  }

  /** One more text adds its price, if it has one. */
  lemma PriceListStep(texts: seq<string>, i: nat, pat: NumberPattern, drop: set<char>, w: Window)
    requires i < |texts|
    ensures PriceList(texts[..i + 1], pat, drop, w)
         == PriceList(texts[..i], pat, drop, w) + (match ReadPrice(texts[i], pat, drop, w) case Some(v) => [v] case None => [])
  {
    assert texts[..i + 1][..i] == texts[..i];
  }

  // ---------------------------------------------------------------------------
  // Four-digit amounts under the written and the intended pattern
  // ---------------------------------------------------------------------------

  /** As written, a run of more than three digits yields its first three. */
  lemma LooseNumberAtLongRun(t: string)
    requires Links.Run(t, IsDigit) > 3
    ensures LooseNumberAt(t) == Some(t[..3])
  {
    DigitNotSpace(t[3]);
  }

  /** Removing digit-free characters leaves plain digits as they are. */
  lemma {:induction false} RemoveAllOfDigits(ds: string, drop: set<char>)
    requires AllDigits(ds) && forall c | c in drop :: !IsDigit(c)
    ensures RemoveAll(ds, drop) == ds
    decreases |ds|
  {
    if ds != [] {
      RemoveAllOfDigits(ds[1..], drop);
    }
  }

  /** The price of a text that starts with a digit run of more than three
      digits: as written the run's first three digits, with the intended
      pattern the whole run, each kept when it lies in the window. */
  lemma ReadPriceOfLongRun(t: string, drop: set<char>, w: Window)
    requires Links.Run(t, IsDigit) > 3 && forall c | c in drop :: !IsDigit(c)
    ensures ReadPrice(t, Loose, drop, w)
         == (var v := DigitsValue(t[..3]) as int; if w.lo <= v <= w.hi then Some(v) else None)
    ensures ReadPrice(t, IntendedNumber, drop, w)
         == (var v := DigitsValue(t[..Links.Run(t, IsDigit)]) as int; if w.lo <= v <= w.hi then Some(v) else None)
  {
    var n := Links.Run(t, IsDigit);
    LooseNumberAtLongRun(t);
    assert FindNumber(Loose, t) == Some(t[..3]);
    RemoveAllOfDigits(t[..3], drop);
    PyIntOfDigits(t[..3]);
    GroupedNumberAtLongRun(t, DotOrSpace);
    assert FindNumber(IntendedNumber, t) == Some(t[..n]);
    RemoveAllOfDigits(t[..n], drop);
    PyIntOfDigits(t[..n]);
  }

  /** The values of a four-digit string and of its first three digits. */
  lemma DigitsValueSteps(ds: string, a: nat, b: nat, c: nat, d: nat)
    requires |ds| == 4 && AllDigits(ds)
    requires DigitVal(ds[0]) == a && DigitVal(ds[1]) == b && DigitVal(ds[2]) == c && DigitVal(ds[3]) == d
    ensures DigitsValue(ds[..3]) == 100 * a + 10 * b + c
    ensures DigitsValue(ds) == 1000 * a + 100 * b + 10 * c + d
  {
    assert ds[..1][..0] == [];
    assert DigitsValue(ds[..1]) == a;
    assert ds[..2][..1] == ds[..1];
    assert DigitsValue(ds[..2]) == 10 * a + b;
    assert ds[..3][..2] == ds[..2];
    assert DigitsValue(ds[..3]) == 100 * a + 10 * b + c;
    assert ds[..3] == ds[..|ds| - 1];
  }

  /** As written, "5750 €" gives a price of 575, which a window such as
      [500, 300000] keeps, where 5750 was meant. */
  lemma LooseKeepsWrongPrice(t: string, drop: set<char>, w: Window)
    requires t == "5750 €" && forall c | c in drop :: !IsDigit(c)
    requires w.lo <= 575 && 5750 <= w.hi
    ensures ReadPrice(t, Loose, drop, w) == Some(575)
    ensures ReadPrice(t, IntendedNumber, drop, w) == Some(5750)
  {
    assert Links.Run(t, IsDigit) == 4 by {
      DigitRun(t, 4);
    }
    assert DigitsValue(t[..3]) == 575 && DigitsValue(t[..4]) == 5750 by {
      assert t[..4] == "5750" && t[..4][..3] == t[..3];
      DigitsValueSteps(t[..4], 5, 7, 5, 0);
    }
    ReadPriceOfLongRun(t, drop, w);
  }

  /** As written, "1234 €" gives 123, below a window such as [500, 300000],
      so the price is lost where 1234 was meant. */
  lemma LooseDropsFourDigitPrice(t: string, drop: set<char>, w: Window)
    requires t == "1234 €" && forall c | c in drop :: !IsDigit(c)
    requires 123 < w.lo <= 1234 <= w.hi
    ensures ReadPrice(t, Loose, drop, w) == None
    ensures ReadPrice(t, IntendedNumber, drop, w) == Some(1234)
  {
    assert Links.Run(t, IsDigit) == 4 by {
      DigitRun(t, 4);
    }
    assert DigitsValue(t[..3]) == 123 && DigitsValue(t[..4]) == 1234 by {
      assert t[..4] == "1234" && t[..4][..3] == t[..3];
      DigitsValueSteps(t[..4], 1, 2, 3, 4);
    }
    ReadPriceOfLongRun(t, drop, w);
  }
}
