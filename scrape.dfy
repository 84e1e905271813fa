/** The Kleinanzeigen scraper's pure parts: the field extractors applied to
    the text of a result-list article, the label-to-column mapping of a detail
    page, and the result-list URL. The HTML selection itself is not modelled:
    the texts the selectors pick are the inputs. */
module Scrape {
  import opened Common
  import opened Store

  // ---------------------------------------------------------------------------
  // Runs of digits and of whitespace
  // ---------------------------------------------------------------------------

  /** Length of the run of ASCII digits at the start of `s`. */
  function DigitRun(s: string): (n: nat)
    ensures n <= |s|
    ensures forall i | 0 <= i < n :: IsDigit(s[i])
    ensures n == |s| || !IsDigit(s[n])
    decreases |s|
  {
    if s != [] && IsDigit(s[0]) then 1 + DigitRun(s[1..]) else 0
  }

  // ---------------------------------------------------------------------------
  // norm_int
  // ---------------------------------------------------------------------------

  /** Every non-digit is dropped; no digit left gives nothing, otherwise the
      digits are read as a decimal number (`norm_int`, and its twin
      `_norm_int` used by the detail page). */
  function NormInt(text: Option<string>): (r: Option<nat>)
    ensures r.None? <==> KeepDigits(text.GetOr("")) == []
  {
    var t := KeepDigits(text.GetOr(""));
    if t == [] then None else Some(DigitsValue(t))
  }

  /** What `norm_int` returns is `int()` of the digits it kept. */
  lemma NormIntIsIntOfDigits(text: Option<string>)
    requires NormInt(text).Some?
    ensures PyInt(KeepDigits(text.GetOr(""))) == Some(NormInt(text).value as int)
  {
    PyIntOfDigits(KeepDigits(text.GetOr("")));
  }

  lemma {:induction false} KeepDigitsConcat(a: string, b: string)
    ensures KeepDigits(a + b) == KeepDigits(a) + KeepDigits(b)
    decreases |a|
  {
    if a == [] {
      assert a + b == b;
    } else {
      assert (a + b)[1..] == a[1..] + b;
      KeepDigitsConcat(a[1..], b);
    }
  }

  lemma {:induction false} KeepDigitsOfNone(a: string)
    requires forall i | 0 <= i < |a| :: !IsDigit(a[i])
    ensures KeepDigits(a) == []
    decreases |a|
  {
    if a != [] {
      KeepDigitsOfNone(a[1..]);
    }
  }

  /** A number written in decimal, surrounded by digit-free text such as a
      unit or a currency sign, is read back as that number. */
  lemma NormIntReadsNumber(n: nat, pre: string, post: string)
    requires forall i | 0 <= i < |pre| :: !IsDigit(pre[i])
    requires forall i | 0 <= i < |post| :: !IsDigit(post[i])
    ensures NormInt(Some(pre + NatToString(n) + post)) == Some(n)
  {
    var ds := NatToString(n);
    KeepDigitsAround(pre, ds, post);
    NatToStringValue(n);
    assert Some(pre + ds + post).GetOr("") == pre + ds + post;
  }

  lemma KeepDigitsAround(pre: string, ds: string, post: string)
    requires forall i | 0 <= i < |pre| :: !IsDigit(pre[i])
    requires forall i | 0 <= i < |post| :: !IsDigit(post[i])
    requires AllDigits(ds)
    ensures KeepDigits(pre + ds + post) == ds
  {
    KeepDigitsConcat(pre + ds, post);
    KeepDigitsConcat(pre, ds);
    KeepDigitsOfNone(pre);
    KeepDigitsOfNone(post);
    KeepDigitsOfDigits(ds);
    assert [] + ds + [] == ds;
  }

  // ---------------------------------------------------------------------------
  // split_postal_city
  // ---------------------------------------------------------------------------

  datatype PostalCity = PostalCity(postal: Option<string>, city: Option<string>)

  /** `\s*(\d{4,5})\s+(.+)$` matched against a stripped text. */
  function SplitStripped(t: string): (r: PostalCity)
    ensures r.city.Some?
  {
    var k := DigitRun(t);
    if 4 <= k <= 5 && k < |t| && IsSpace(t[k]) then
      var rest := t[k + SpaceRun(t[k..])..];
      if rest != [] && '\n' !in rest then PostalCity(Some(t[..k]), Some(rest))
      else PostalCity(None, Some(t))
    else PostalCity(None, Some(t))
  }

  /** A location text that is a 4- or 5-digit postal code, whitespace and a
      one-line rest is split into code and town; any other non-empty text is
      all town. */
  function SplitPostalCity(location: Option<string>): (r: PostalCity)
    ensures location.None? || location == Some("") ==> r == PostalCity(None, None)
    ensures location.Some? && location.value != "" ==> r.city.Some?
  {
    if location.None? || location.value == "" then PostalCity(None, None)
    else SplitStripped(Strip(location.value))
  }

  /** `t` reads as the postal code `p` (4 or 5 digits), whitespace, and the
      non-empty one-line stripped town `c`. */
  predicate CodeAndTown(t: string, p: string, c: string) {
    && 4 <= |p| <= 5 && AllDigits(p)
    && c != [] && '\n' !in c && Strip(c) == c
    && |p| + |c| < |t| && t == p + t[|p|..|t| - |c|] + c
    && (forall i | |p| <= i < |t| - |c| :: IsSpace(t[i]))
  }

  /** The facts behind a successful split of `t` at code length `k` and
      whitespace length `w`. */
  lemma {:induction false} SplitFacts(t: string, k: nat, w: nat)
    requires t == [] || !IsSpace(t[|t| - 1])
    requires 4 <= k <= 5 && k < |t| && IsSpace(t[k]) && DigitRun(t) == k
    requires k + w <= |t| && SpaceRun(t[k..]) == w && t[k + w..] != [] && '\n' !in t[k + w..]
    ensures CodeAndTown(t, t[..k], t[k + w..])
  {
    var p, c := t[..k], t[k + w..];
    PostalCitySplitShape(t, k, w);
    assert |p| == k && |t| - |c| == k + w;
    assert AllDigits(p) by {
      forall i | 0 <= i < |p|
        ensures IsDigit(p[i])
      {
        assert p[i] == t[i];
      }
    }
    assert t == p + t[|p|..|t| - |c|] + c by {
      ThreeParts(t, k, k + w);
    }
  }

  lemma ThreeParts(t: string, i: nat, j: nat)
    requires i <= j <= |t|
    ensures t == t[..i] + t[i..j] + t[j..]
  {
  }

  /** On a stripped text: a returned postal code is followed by whitespace and
      the town; without a code the town is the whole text. */
  lemma SplitStrippedShape(t: string)
    requires t == [] || !IsSpace(t[|t| - 1])
    ensures SplitStripped(t).postal.None? ==> SplitStripped(t).city == Some(t)
    ensures SplitStripped(t).postal.Some? ==>
      CodeAndTown(t, SplitStripped(t).postal.value, SplitStripped(t).city.value)
  {
    var k := DigitRun(t);
    if 4 <= k <= 5 && k < |t| && IsSpace(t[k]) {
      var w := SpaceRun(t[k..]);
      if t[k + w..] != [] && '\n' !in t[k + w..] {
        SplitFacts(t, k, w);
        SplitStrippedOf(t, k, w);
      }
    }
  }

  /** `split_postal_city`: a returned postal code has 4 or 5 digits and is
      followed in the stripped text by whitespace and the non-empty one-line
      town; without a code the town is the whole stripped text. */
  lemma SplitPostalCityShape(location: string)
    requires location != ""
    ensures var r := SplitPostalCity(Some(location));
      && (r.postal.Some? ==> r.city.Some? && CodeAndTown(Strip(location), r.postal.value, r.city.value))
      && (r.postal.None? ==> r.city == Some(Strip(location)))
  {
    SplitStrippedShape(Strip(location));
  }

  lemma PostalCitySplitShape(t: string, k: nat, w: nat)
    requires k + w <= |t| && t[k + w..] != []
    requires t == [] || !IsSpace(t[|t| - 1])
    requires forall i | 0 <= i < w :: IsSpace(t[k..][i])
    requires w == |t[k..]| || !IsSpace(t[k..][w])
    ensures Strip(t[k + w..]) == t[k + w..]
    ensures t[|t| - |t[k + w..]|..] == t[k + w..]
    ensures forall i | k <= i < |t| - |t[k + w..]| :: IsSpace(t[i])
  {
    var rest := t[k + w..];
    assert rest[0] == t[k..][w];
    assert rest[|rest| - 1] == t[|t| - 1];
    StripNoEdgeSpace(rest);
    forall i | k <= i < |t| - |rest|
      ensures IsSpace(t[i])
    {
      assert t[i] == t[k..][i - k];
    }
  }

  /** The run of digits at the start of `s` is the one the caller exhibits. */
  lemma DigitRunIs(s: string, n: nat)
    requires n <= |s| && (forall i | 0 <= i < n :: IsDigit(s[i])) && (n == |s| || !IsDigit(s[n]))
    ensures DigitRun(s) == n
  {
  }

  /** The run of whitespace at the start of `s` is the one the caller exhibits. */
  lemma SpaceRunIs(s: string, n: nat)
    requires n <= |s| && (forall i | 0 <= i < n :: IsSpace(s[i])) && (n == |s| || !IsSpace(s[n]))
    ensures SpaceRun(s) == n
  {
  }

  /** Every character is whitespace. */
  predicate AllSpace(s: string)
    decreases |s|
  {
    s == [] || (IsSpace(s[0]) && AllSpace(s[1..]))
  }

  lemma {:induction false} AllSpaceAt(s: string)
    requires AllSpace(s)
    ensures forall i | 0 <= i < |s| :: IsSpace(s[i])
    decreases |s|
  {
    if s != [] {
      AllSpaceAt(s[1..]);
      assert forall i | 1 <= i < |s| :: s[i] == s[1..][i - 1];
    }
  }

  /** The converse: code, whitespace and a stripped one-line town are split
      back into exactly that code and town. */
  lemma SplitPostalCityReads(code: string, ws: string, town: string)
    requires 4 <= |code| <= 5 && AllDigits(code)
    requires ws != [] && AllSpace(ws)
    requires town != [] && !IsSpace(town[0]) && !IsSpace(town[|town| - 1]) && '\n' !in town
    ensures SplitPostalCity(Some(code + ws + town)) == PostalCity(Some(code), Some(town))
  {
    var gap := ws + town;
    GapRunOf(gap, ws, town);
    SplitAfterCode(code, gap, |ws|, town);
    ConcatAssoc(code, ws, town);
  }

  /** The split once the whitespace run after the code is known. */
  lemma {:induction false} SplitAfterCode(code: string, gap: string, w: nat, town: string)
    requires 4 <= |code| <= 5 && AllDigits(code)
    requires gap != [] && IsSpace(gap[0]) && w <= |gap| && SpaceRun(gap) == w
    requires gap[w..] == town && town != [] && !IsSpace(town[|town| - 1]) && '\n' !in town
    ensures SplitPostalCity(Some(code + gap)) == PostalCity(Some(code), Some(town))
  {
    var loc := code + gap;
    assert Strip(loc) == loc by {
      assert loc[|loc| - 1] == town[|town| - 1];
      StrippedOfEdges(loc, code, town);
    }
    SplitOfCode(loc, code, gap, w, town);
  }

  lemma SplitOfCode(loc: string, code: string, gap: string, w: nat, town: string)
    requires 4 <= |code| <= 5 && AllDigits(code) && Strip(loc) == loc
    requires gap != [] && IsSpace(gap[0]) && loc == code + gap
    requires SpaceRun(gap) == w && w <= |gap| && gap[w..] == town && town != [] && '\n' !in town
    ensures SplitPostalCity(Some(loc)) == PostalCity(Some(code), Some(town))
  {
    CodeRunOf(loc, code, gap);
    ConcatParts(code, gap);
    assert loc[|code| + w..] == town by {
      assert loc[|code| + w..] == gap[w..];
    }
    SplitOfFacts(loc, |code|, w, code, town);
  }

  /** What a split depends on, for a stripped text whose runs are known. */
  lemma SplitOfFacts(loc: string, k: nat, w: nat, code: string, town: string)
    requires Strip(loc) == loc && loc != ""
    requires 4 <= k <= 5 && k < |loc| && IsSpace(loc[k]) && DigitRun(loc) == k
    requires SpaceRun(loc[k..]) == w && k + w <= |loc| && loc[k + w..] == town && loc[..k] == code
    requires town != [] && '\n' !in town
    ensures SplitPostalCity(Some(loc)) == PostalCity(Some(code), Some(town))
  {
    assert SplitPostalCity(Some(loc)) == SplitStripped(loc);
    SplitStrippedOf(loc, k, w);
  }

  lemma SplitStrippedOf(t: string, k: nat, w: nat)
    requires 4 <= k <= 5 && k < |t| && IsSpace(t[k]) && DigitRun(t) == k
    requires k + w <= |t| && SpaceRun(t[k..]) == w && t[k + w..] != [] && '\n' !in t[k + w..]
    ensures SplitStripped(t) == PostalCity(Some(t[..k]), Some(t[k + w..]))
  {
  }

  lemma StrippedOfEdges(loc: string, code: string, town: string)
    requires code != [] && IsDigit(code[0]) && town != [] && !IsSpace(town[|town| - 1])
    requires |code| + |town| <= |loc| && loc[0] == code[0] && loc[|loc| - 1] == town[|town| - 1]
    ensures Strip(loc) == loc
  {
    DigitNotSpace(code[0]);
    StripNoEdgeSpace(loc);
  }

  lemma CodeRunOf(loc: string, code: string, gap: string)
    requires AllDigits(code) && gap != [] && IsSpace(gap[0]) && loc == code + gap
    ensures DigitRun(loc) == |code| && IsSpace(loc[|code|])
  {
    ConcatParts(code, gap);
    assert loc[|code|] == gap[0];
    if IsDigit(gap[0]) {
      DigitNotSpace(gap[0]);
    }
    assert forall i | 0 <= i < |code| :: loc[i] == code[i];
    DigitRunIs(loc, |code|);
  }

  lemma GapRunOf(gap: string, ws: string, town: string)
    requires ws != [] && AllSpace(ws) && town != [] && !IsSpace(town[0])
    requires gap == ws + town
    ensures SpaceRun(gap) == |ws| && |ws| <= |gap| && gap[|ws|..] == town && IsSpace(gap[0])
  {
    AllSpaceAt(ws);
    ConcatParts(ws, town);
    assert gap[|ws|] == town[0];
    SpaceRunIs(gap, |ws|);
  }

  // ---------------------------------------------------------------------------
  // Calendar
  // ---------------------------------------------------------------------------

  datatype Date = Date(year: int, month: int, day: int)

  predicate IsLeapYear(y: int) {
    y % 4 == 0 && (y % 100 != 0 || y % 400 == 0)
  }

  function DaysInMonth(y: int, m: int): (n: int)
    requires 1 <= m <= 12
    ensures 28 <= n <= 31
    ensures n == 29 <==> m == 2 && IsLeapYear(y)
  {
    if m == 2 then (if IsLeapYear(y) then 29 else 28)
    else if m == 4 || m == 6 || m == 9 || m == 11 then 30
    else 31
  }

  /** The dates the calendar constructor accepts. */
  predicate ValidDate(d: Date) {
    1 <= d.year <= 9999 && 1 <= d.month <= 12 && 1 <= d.day <= DaysInMonth(d.year, d.month)
  }

  function NextDay(d: Date): Date
    requires ValidDate(d)
  {
    if d.day < DaysInMonth(d.year, d.month) then Date(d.year, d.month, d.day + 1)
    else if d.month < 12 then Date(d.year, d.month + 1, 1)
    else Date(d.year + 1, 1, 1)
  }

  /** The day before `d`; there is none before the first day of year 1, where
      the subtraction overflows. */
  function PrevDay(d: Date): (r: Option<Date>)
    requires ValidDate(d)
    ensures r.None? <==> d == Date(1, 1, 1)
    ensures r.Some? ==> ValidDate(r.value) && NextDay(r.value) == d
  {
    if d.day > 1 then Some(Date(d.year, d.month, d.day - 1))
    else if d.month > 1 then Some(Date(d.year, d.month - 1, DaysInMonth(d.year, d.month - 1)))
    else if d.year > 1 then Some(Date(d.year - 1, 12, 31))
    else None
  }

  // ---------------------------------------------------------------------------
  // parse_posted_at_de
  // ---------------------------------------------------------------------------

  datatype Clock = Clock(hour: nat, minute: nat)

  predicate ValidClock(c: Clock) {
    c.hour < 24 && c.minute < 60
  }

  /** `\s*(\d{1,2}):(\d{2})` anchored at the start of `s`. */
  function MatchClock(s: string): Option<Clock> {
    var u := s[SpaceRun(s)..];
    if |u| >= 5 && IsDigit(u[0]) && IsDigit(u[1]) && u[2] == ':' && IsDigit(u[3]) && IsDigit(u[4]) then
      Some(Clock(10 * DigitVal(u[0]) + DigitVal(u[1]), 10 * DigitVal(u[3]) + DigitVal(u[4])))
    else if |u| >= 4 && IsDigit(u[0]) && u[1] == ':' && IsDigit(u[2]) && IsDigit(u[3]) then
      Some(Clock(DigitVal(u[0]), 10 * DigitVal(u[2]) + DigitVal(u[3])))
    else None
  }

  /** `Heute,` (any case) followed by a clock, at the start of `s`. */
  function MatchToday(s: string): Option<Clock> {
    if |s| >= 6 && Lower(s[..6]) == "heute," then MatchClock(s[6..]) else None
  }

  /** `Gestern,` (any case) followed by a clock, at the start of `s`. */
  function MatchYesterday(s: string): Option<Clock> {
    if |s| >= 8 && Lower(s[..8]) == "gestern," then MatchClock(s[8..]) else None
  }

  datatype DayMonth = DayMonth(day: nat, month: nat, year: Option<nat>)

  /** `(\d{1,2})\.` at the start of `s`: the number and the length matched. */
  function NumberDot(s: string): (r: Option<(nat, nat)>)
    ensures r.Some? ==> 2 <= r.value.1 <= 3 && r.value.1 <= |s|
  {
    if |s| >= 3 && IsDigit(s[0]) && IsDigit(s[1]) && s[2] == '.' then Some((10 * DigitVal(s[0]) + DigitVal(s[1]), 3))
    else if |s| >= 2 && IsDigit(s[0]) && s[1] == '.' then Some((DigitVal(s[0]), 2))
    else None
  }

  /** `(\d{1,2})\.(\d{1,2})\.(\d{4})?` at the start of `s`. */
  function MatchDate(s: string): Option<DayMonth> {
    match NumberDot(s)
    case None => None
    case Some((d, n)) =>
      match NumberDot(s[n..])
      case None => None
      case Some((m, k)) =>
        var rest := s[n + k..];
        Some(DayMonth(d, m, if |rest| >= 4 && AllDigits(rest[..4]) then Some(DigitsValue(rest[..4])) else None))
  }

  /** The structured value of a posting time: a date and clock, or the text
      itself when it names no valid date. */
  datatype Posted = Stamp(date: Date, clock: Clock) | Verbatim(text: string)

  /** The outcome of a step that may raise an exception. */
  datatype Attempt<T> = Done(value: T) | Raised

  /** `parse_posted_at_de`: today's clock time, yesterday's clock time, a
      day.month[.year] date, or the text as it stands; an out-of-range clock
      time raises. */
  function ParsePostedAt(raw: Option<string>, today: Date): (r: Attempt<Option<Posted>>)
    requires ValidDate(today)
    ensures r == Done(None) <==> Strip(raw.GetOr("")) == []
    ensures r.Done? && r.value.Some? && r.value.value.Stamp? ==>
      ValidDate(r.value.value.date) && ValidClock(r.value.value.clock)
    ensures r.Done? && r.value.Some? && r.value.value.Verbatim? ==>
      r.value.value.text == Strip(raw.GetOr(""))
  {
    var s := Strip(raw.GetOr(""));
    if s == [] then Done(None)
    else
      match Search(s, MatchToday)
      case Some(c) => if ValidClock(c) then Done(Some(Stamp(today, c))) else Raised
      case None =>
        match Search(s, MatchYesterday)
        case Some(c) =>
          (match PrevDay(today)
           case None => Raised
           case Some(y) => if ValidClock(c) then Done(Some(Stamp(y, c))) else Raised)
        case None =>
          match Search(s, MatchDate)
          case Some(dm) =>
            var d := Date(dm.year.GetOr(today.year), dm.month, dm.day);
            if ValidDate(d) then Done(Some(Stamp(d, Clock(0, 0)))) else Done(Some(Verbatim(s)))
          case None => Done(Some(Verbatim(s)))
  }

  /** "Heute" is looked for first, anywhere in the text: its clock time is
      stamped on today's date, or the call raises when the time is out of range. */
  lemma TodayComesFirst(raw: string, today: Date, c: Clock)
    requires ValidDate(today)
    requires Search(Strip(raw), MatchToday) == Some(c)
    ensures ValidClock(c) ==> ParsePostedAt(Some(raw), today) == Done(Some(Stamp(today, c)))
    ensures !ValidClock(c) ==> ParsePostedAt(Some(raw), today) == Raised
  {
  }

  /** A "Gestern" time is stamped on the day whose next day is today. */
  lemma YesterdayIsDayBefore(raw: string, today: Date, c: Clock)
    requires ValidDate(today) && ValidClock(c) && today != Date(1, 1, 1)
    requires Search(Strip(raw), MatchToday).None?
    requires Search(Strip(raw), MatchYesterday) == Some(c)
    ensures var r := ParsePostedAt(Some(raw), today);
      r.Done? && r.value.Some? && r.value.value.Stamp?
      && r.value.value.clock == c && NextDay(r.value.value.date) == today
  {
  }

  lemma {:induction false} SearchFindsNothing<T>(s: string, m: string -> Option<T>)
    requires forall i | 0 <= i <= |s| :: m(s[i..]).None?
    ensures Search(s, m).None?
  {
    SearchLeftmost(s, m);
  }

  /** Neither keyword can match a text without a comma. */
  lemma {:induction false} NoCommaNoKeyword(s: string)
    requires ',' !in s
    ensures Search(s, MatchToday).None? && Search(s, MatchYesterday).None?
  {
    forall i | 0 <= i <= |s|
      ensures MatchToday(s[i..]).None? && MatchYesterday(s[i..]).None?
    {
      if |s[i..]| >= 6 {
        assert s[i..][5] in s;
        assert Lower(s[i..][..6])[5] == LowerChar(s[i..][5]);
      }
      if |s[i..]| >= 8 {
        assert s[i..][7] in s;
        assert Lower(s[i..][..8])[7] == LowerChar(s[i..][7]);
      }
    }
    SearchFindsNothing(s, MatchToday);
    SearchFindsNothing(s, MatchYesterday);
  }

  /** A stripped text that starts with a day.month[.year] date and has no
      comma is read as that date at midnight, the year defaulting to the
      current one; an impossible calendar date gives the text back. */
  lemma DateWithoutKeyword(s: string, today: Date, dm: DayMonth)
    requires ValidDate(today) && ',' !in s && Strip(s) == s
    requires MatchDate(s) == Some(dm)
    ensures var d := Date(dm.year.GetOr(today.year), dm.month, dm.day);
      && (ValidDate(d) ==> ParsePostedAt(Some(s), today) == Done(Some(Stamp(d, Clock(0, 0)))))
      && (!ValidDate(d) ==> ParsePostedAt(Some(s), today) == Done(Some(Verbatim(s))))
  {
    NoCommaNoKeyword(s);
    assert Search(s, MatchDate) == Some(dm);
    assert Strip(Some(s).GetOr("")) == s;
  }

  /** A 29th of February exists only in leap years. */
  lemma LeapDay(y: int)
    requires 1 <= y <= 9999
    ensures ValidDate(Date(y, 2, 29)) <==> IsLeapYear(y)
  {
  }

  // ---------------------------------------------------------------------------
  // Detail page: label to column
  // ---------------------------------------------------------------------------

  /** The columns the detail page can fill. */
  predicate DetailColumn(c: Column) {
    c in {Brand, Model, Km, FirstReg, Fuel, PowerPs, Gearbox, Doors, HuUntil, EmissionClass, Color, Upholstery}
  }

  /** The lower-cased German label of a detail line to its column. */
  const FieldMap: map<string, Column> := map[
    "marke" := Brand,
    "modell" := Model,
    "kilometerstand" := Km,
    "erstzulassung" := FirstReg,
    "kraftstoffart" := Fuel,
    "leistung" := PowerPs,
    "getriebe" := Gearbox,
    "anzahl türen" := Doors,
    "hu bis" := HuUntil,
    "schadstoffklasse" := EmissionClass,
    "außenfarbe" := Color,
    "material innenausstattung" := Upholstery
  ]

  /** Every label maps to a detail column, and so never to the id, platform,
      url or title. */
  lemma FieldMapColumns()
    ensures forall key | key in FieldMap :: DetailColumn(FieldMap[key]) && IsData(FieldMap[key])
  {
  }

  /** `FIELD_MAP.get(key)`. */
  function FieldFor(key: string): (r: Option<Column>)
    ensures r.Some? ==> DetailColumn(r.value) && IsData(r.value)
  {
    FieldMapColumns();
    if key in FieldMap then Some(FieldMap[key]) else None
  }

  /** One `li` of the details list: its leading text node, if any, and the
      text of its value element ("" when there is none). */
  datatype DetailItem = DetailItem(name: Option<string>, value: string)

  function LabelKey(name: Option<string>): string {
    Lower(Strip(name.GetOr("")))
  }

  lemma {:induction false} DigitsValueBelow1000(ds: string)
    requires AllDigits(ds) && |ds| <= 3
    ensures DigitsValue(ds) < (if |ds| == 0 then 1 else if |ds| == 1 then 10 else if |ds| == 2 then 100 else 1000)
    decreases |ds|
  {
    if ds != [] {
      DigitsValueBelow1000(ds[..|ds| - 1]);
    }
  }

  /** `(\d{2,3})\s*<unit>` (any case) at the start of `s`: the number. */
  function MatchUnit(s: string, unit: string): (r: Option<nat>)
    ensures r.Some? ==> r.value < 1000
  {
    var d := DigitRun(s);
    if d < 2 then None
    else
      var k := if d >= 3 then 3 else 2;
      var rest := s[k..];
      var w := SpaceRun(rest);
      if |rest| - w >= |unit| && Lower(rest[w..w + |unit|]) == unit then
        DigitsValueBelow1000(s[..k]);
        Some(DigitsValue(s[..k]))
      else None
  }

  function MatchPs(s: string): (r: Option<nat>)
    ensures r.Some? ==> r.value < 1000
  {
    MatchUnit(s, "ps")
  }

  function MatchKw(s: string): (r: Option<nat>)
    ensures r.Some? ==> r.value < 1000
  {
    MatchUnit(s, "kw")
  }

  lemma {:induction false} SearchBelow(s: string, m: string -> Option<nat>, bound: nat)
    requires forall t: string :: m(t).Some? ==> m(t).value < bound
    ensures Search(s, m).Some? ==> Search(s, m).value < bound
    decreases |s|
  {
    if m(s).None? && s != [] {
      SearchBelow(s[1..], m, bound);
    }
  }

  /** Kilowatts to horsepower (factor 1.3596), rounded to the nearest whole
      number, a half rounded up. */
  function KwToPs(kw: nat): (ps: nat)
    ensures -5000 < 10000 * ps - 13596 * kw <= 5000
  {
    var x := kw * 13596 + 5000;
    assert 10000 * (x / 10000) <= x < 10000 * (x / 10000) + 10000;
    x / 10000
  }

  /** The horsepower of a "Leistung" text: a number before "PS" if there is
      one, else a number before "kW" converted, else nothing. */
  function PowerFromText(v: string): (r: Option<nat>)
    ensures Search(v, MatchPs).Some? ==> r.Some? && r.value < 1000
    ensures r.Some? ==> r.value <= KwToPs(999)
  {
    SearchBelow(v, MatchPs, 1000);
    SearchBelow(v, MatchKw, 1000);
    match Search(v, MatchPs)
    case Some(ps) => Some(ps)
    case None =>
      match Search(v, MatchKw)
      case Some(kw) => Some(KwToPs(kw))
      case None => None
  }

  function OptInt(n: Option<nat>): Value {
    if n.Some? then Int(n.value) else Null
  }

  function OptText(s: Option<string>): Value {
    if s.Some? then Text(s.value) else Null
  }

  /** The value stored for a detail line: km digit-normalised, power parsed,
      everything else the text as it stands. */
  function DetailValue(k: Column, value: string): (r: Value)
    ensures k == PowerPs ==> (r.Null? || (r.Int? && 0 <= r.i <= KwToPs(999)))
  {
    if k == Km then OptInt(NormInt(Some(value)))
    else if k == PowerPs then OptInt(PowerFromText(value))
    else Text(value)
  }

  /** A detail line as the loop reads it: its column and value, when its
      label is a known one. */
  function Line(it: DetailItem): (r: Option<(Column, Value)>)
    ensures r.Some? <==> FieldFor(LabelKey(it.name)).Some?
    ensures r.Some? ==> r.value == (FieldFor(LabelKey(it.name)).value, DetailValue(r.value.0, it.value))
  {
    match FieldFor(LabelKey(it.name))
    case None => None
    case Some(k) => Some((k, DetailValue(k, it.value)))
  }

  function Lines(items: seq<DetailItem>): (r: seq<Option<(Column, Value)>>)
    ensures |r| == |items| && forall i | 0 <= i < |items| :: r[i] == Line(items[i])
  {
    seq(|items|, i requires 0 <= i < |items| => Line(items[i]))
  }

  /** A map filled from read lines in order: a line without a key is
      skipped, a later line for a key overwrites an earlier one. */
  function Fill<K(==), V>(lines: seq<Option<(K, V)>>): map<K, V>
    decreases |lines|
  {
    if lines == [] then map[]
    else
      var m := Fill(lines[..|lines| - 1]);
      var l := lines[|lines| - 1];
      if l.Some? then m[l.value.0 := l.value.1] else m
  }

  /** A key is present exactly when some line carries it. */
  lemma {:induction false} FillHasKey<K, V>(lines: seq<Option<(K, V)>>, k: K)
    ensures k in Fill(lines) <==> exists j | 0 <= j < |lines| :: lines[j].Some? && lines[j].value.0 == k
    decreases |lines|
  {
    if lines != [] {
      var init, last := lines[..|lines| - 1], lines[|lines| - 1];
      FillHasKey(init, k);
      if k in Fill(lines) {
        if !(last.Some? && last.value.0 == k) {
          var j :| 0 <= j < |init| && init[j].Some? && init[j].value.0 == k;
          assert lines[j] == init[j];
        }
      } else {
        forall j | 0 <= j < |lines|
          ensures !(lines[j].Some? && lines[j].value.0 == k)
        {
          if j < |init| {
            assert lines[j] == init[j];
          }
        }
      }
    }
  }

  /** A key holds the value of the last line that carries it. */
  lemma {:induction false} FillLastWins<K, V>(lines: seq<Option<(K, V)>>, j: nat)
    requires j < |lines| && lines[j].Some?
    requires forall l | j < l < |lines| :: !(lines[l].Some? && lines[l].value.0 == lines[j].value.0)
    ensures lines[j].value.0 in Fill(lines) && Fill(lines)[lines[j].value.0] == lines[j].value.1
    decreases |lines|
  {
    if j < |lines| - 1 {
      var init := lines[..|lines| - 1];
      assert init[j] == lines[j];
      forall l | j < l < |init|
        ensures !(init[l].Some? && init[l].value.0 == lines[j].value.0)
      {
        assert init[l] == lines[l];
      }
      FillLastWins(init, j);
    }
  }

  /** The map the detail loop builds: lines in order, unknown labels skipped,
      a later line for the same column overwriting an earlier one. */
  function DetailMap(items: seq<DetailItem>): map<Column, Value> {
    Fill(Lines(items))
  }

  /** `parse_detail_page` after the fetch: fills the map line by line. */
  method ParseDetail(items: seq<DetailItem>) returns (data: map<Column, Value>)
    ensures data == DetailMap(items)
  {
    ghost var ls := Lines(items);
    data := map[];
    for i := 0 to |items|
      invariant data == Fill(ls[..i])
    {
      TakeSnoc(ls, i);
      var key := FieldFor(LabelKey(items[i].name));
      if key.Some? {
        data := data[key.value := DetailValue(key.value, items[i].value)];
      }
    }
    assert ls[..|items|] == ls;
  }

  /** A column is present exactly when some line's label maps to it. */
  lemma DetailMapHasKey(items: seq<DetailItem>, k: Column)
    ensures k in DetailMap(items) <==> exists j | 0 <= j < |items| :: FieldFor(LabelKey(items[j].name)) == Some(k)
  {
    var ls := Lines(items);
    FillHasKey(ls, k);
    if k in DetailMap(items) {
      var j :| 0 <= j < |ls| && ls[j].Some? && ls[j].value.0 == k;
      assert FieldFor(LabelKey(items[j].name)) == Some(k);
    } else {
      forall j | 0 <= j < |items|
        ensures FieldFor(LabelKey(items[j].name)) != Some(k)
      {
        assert !(ls[j].Some? && ls[j].value.0 == k);
      }
    }
  }

  /** Only detail columns come out, never the id, platform, url or title. */
  lemma DetailMapKeys(items: seq<DetailItem>)
    ensures forall k | k in DetailMap(items) :: DetailColumn(k) && IsData(k)
    ensures forall k | k in DetailMap(items) :: k != Platform && k != Url && k != Title
  {
    forall k | k in DetailMap(items)
      ensures DetailColumn(k) && IsData(k)
    {
      DetailMapHasKey(items, k);
    }
  }

  /** A column holds the value of the last line whose label maps to it. */
  lemma DetailMapLastWins(items: seq<DetailItem>, k: Column, j: nat)
    requires j < |items| && FieldFor(LabelKey(items[j].name)) == Some(k)
    requires forall l | j < l < |items| :: FieldFor(LabelKey(items[l].name)) != Some(k)
    ensures k in DetailMap(items) && DetailMap(items)[k] == DetailValue(k, items[j].value)
  {
    var ls := Lines(items);
    forall l | j < l < |ls|
      ensures !(ls[l].Some? && ls[l].value.0 == k)
    {
    }
    FillLastWins(ls, j);
  }

  // ---------------------------------------------------------------------------
  // The result-list article
  // ---------------------------------------------------------------------------

  const KaSite := "https://www.kleinanzeigen.de"

  /** The title link of an article: its text and its `href` ("" when absent). */
  datatype TitleLink = TitleLink(text: string, href: string)

  /** The texts the selectors of one result-list article pick. */
  datatype Article = Article(
    adid: Option<string>,
    titleLink: Option<TitleLink>,
    dataHref: Option<string>,
    priceText: Option<string>,
    tags: seq<string>,
    location: Option<string>,
    postedRaw: Option<string>,
    picsText: Option<string>)

  /** One row of the result list as `parse_article` returns it. */
  datatype SrpRow = SrpRow(
    id: string,
    platform: string,
    url: string,
    title: Option<string>,
    price: Option<nat>,
    km: Option<nat>,
    ezText: Option<string>,
    location: Option<string>,
    postal: Option<string>,
    city: Option<string>,
    postedAt: Option<Posted>,
    pics: Option<nat>)

  /** The link of an article: a site-relative href gets the site prefixed. */
  function ArticleUrl(a: Article): (url: string)
    ensures var href := if a.titleLink.Some? && a.titleLink.value.href != "" then a.titleLink.value.href else a.dataHref.GetOr("");
      (href != [] && href[0] == '/' ==> url == KaSite + href)
      && (href == [] || href[0] != '/' ==> url == href)
  {
    var href := if a.titleLink.Some? && a.titleLink.value.href != "" then a.titleLink.value.href else a.dataHref.GetOr("");
    if href != "" && href[0] == '/' then KaSite + href else href
  }

  /** `parse_article`: no row without an ad id; a raising posted-at parse
      raises here too. */
  function ParseArticle(a: Article, today: Date): (r: Attempt<Option<SrpRow>>)
    requires ValidDate(today)
    ensures a.adid.None? || a.adid == Some("") ==> r == Done(None)
    ensures r.Done? && r.value.Some? ==>
      var row := r.value.value;
      && Some(row.id) == a.adid && row.id != ""
      && row.platform == "ebay-kleinanzeigen"
      && row.price == NormInt(a.priceText)
      && (row.postal.Some? ==> 4 <= |row.postal.value| <= 5)
  {
    if a.adid.None? || a.adid.value == "" then Done(None)
    else
      match ParsePostedAt(a.postedRaw, today)
      case Raised => Raised
      case Done(posted) =>
        var pc := SplitPostalCity(a.location);
        Done(Some(SrpRow(
          a.adid.value,
          "ebay-kleinanzeigen",
          ArticleUrl(a),
          if a.titleLink.Some? then Some(a.titleLink.value.text) else None,
          NormInt(a.priceText),
          if |a.tags| > 0 then NormInt(Some(a.tags[0])) else None,
          if |a.tags| > 1 then Some(a.tags[1]) else None,
          a.location,
          pc.postal,
          pc.city,
          posted,
          NormInt(a.picsText))))
  }

  /** Parses the articles in order, keeping the ones that give a row; the
      first article that raises makes the whole page raise. */
  function ParseArticles(arts: seq<Article>, today: Date): (r: Attempt<seq<SrpRow>>)
    requires ValidDate(today)
    ensures r.Done? ==> |r.value| <= |arts|
    ensures r.Done? ==> forall i | 0 <= i < |r.value| :: r.value[i].id != ""
    decreases |arts|
  {
    if arts == [] then Done([])
    else
      match ParseArticle(arts[0], today)
      case Raised => Raised
      case Done(row) =>
        match ParseArticles(arts[1..], today)
        case Raised => Raised
        case Done(rest) => Done((if row.Some? then [row.value] else []) + rest)
  }

  /** `crawl_search_page`: nothing when the fetch failed (`None`) or an
      article raised, otherwise the rows in page order. */
  function CrawlPage(fetched: Option<seq<Article>>, today: Date): (r: Option<seq<SrpRow>>)
    requires ValidDate(today)
    ensures fetched.None? ==> r.None?
    ensures r.Some? ==> |r.value| <= |fetched.value|
  {
    if fetched.None? then None
    else
      match ParseArticles(fetched.value, today)
      case Raised => None
      case Done(rows) => Some(rows)
  }

  // ---------------------------------------------------------------------------
  // build_ka_search_url
  // ---------------------------------------------------------------------------

  const KaBase := "https://www.kleinanzeigen.de/s-autos/"

  /** The deployment's search settings (area, radius and default filters). */
  datatype KaConfig = KaConfig(
    areaSlug: string, areaCode: string, radius: int,
    priceMin: string, priceMax: string, kmMax: string)

  /** The area segment, present only with an area slug. */
  function KaArea(cfg: KaConfig): string {
    if cfg.areaSlug != "" then cfg.areaSlug + "/" else ""
  }

  /** The price segment, present only with a minimum or a maximum price. */
  function KaPrice(cfg: KaConfig): string {
    if cfg.priceMin != "" || cfg.priceMax != "" then "preis:" + cfg.priceMin + ":" + cfg.priceMax + "/" else ""
  }

  /** The path segments before the page segment. */
  function KaPath(cfg: KaConfig): string {
    KaArea(cfg) + "anzeige:angebote/" + KaPrice(cfg)
  }

  /** The category/location block and the optional km ceiling. */
  function KaTail(cfg: KaConfig): string {
    "c216" + cfg.areaCode + "r" + IntToString(cfg.radius)
    + (if cfg.kmMax != "" then "+autos.km_i:%2C" + cfg.kmMax else "")
  }

  /** `build_ka_search_url`: base, path segments, the page segment from
      page 2 on, then the category/location block. */
  function KaSearchUrl(cfg: KaConfig, page: int): string {
    KaBase + KaPath(cfg) + (if page >= 2 then "seite:2/" else "") + KaTail(cfg)
  }

  /** Every search url is on the car category of the site, starts with the
      area slug when there is one (else with the offers segment), and ends
      with the category/location block. */
  lemma KaSearchUrlShape(cfg: KaConfig, page: int)
    ensures var r := KaSearchUrl(cfg, page);
      && StartsWith(r, KaBase)
      && (cfg.areaSlug != "" ==> StartsWith(r, KaBase + cfg.areaSlug + "/"))
      && (cfg.areaSlug == "" ==> StartsWith(r, KaBase + "anzeige:angebote/"))
      && EndsWith(r, KaTail(cfg))
  {
    var r := KaSearchUrl(cfg, page);
    var path, tail := KaPath(cfg), KaTail(cfg);
    var head := KaBase + path;
    var seite := if page >= 2 then "seite:2/" else "";
    StartsWithConcat(head + seite, tail);
    StartsWithConcat(head, seite);
    StartsWithTrans(r, head + seite, head);
    StartsWithConcat(KaBase, path);
    StartsWithTrans(r, head, KaBase);
    EndsWithConcat(head + seite, tail);
    var x := if cfg.areaSlug != "" then cfg.areaSlug + "/" else "";
    var offers := "anzeige:angebote/";
    var price := if cfg.priceMin != "" || cfg.priceMax != "" then "preis:" + cfg.priceMin + ":" + cfg.priceMax + "/" else "";
    assert path == (x + offers) + price;
    ConcatAssoc(x, offers, price);
    ConcatAssoc(KaBase, x, offers + price);
    StartsWithConcat(KaBase + x, offers + price);
    StartsWithTrans(r, head, KaBase + x);
    if cfg.areaSlug != "" {
      ConcatAssoc(KaBase, cfg.areaSlug, "/");
    } else {
      assert x + offers == offers;
      ConcatAssoc(KaBase, offers, price);
      StartsWithConcat(KaBase + offers, price);
      StartsWithTrans(r, head, KaBase + offers);
    }
  }

  /** Page 2 (and any later page, which the builder treats alike) is page 1
      with "seite:2/" inserted right after the path segments. */
  lemma KaLaterPagesInsertSeite(cfg: KaConfig, page: int)
    requires page >= 2
    ensures var one, k := KaSearchUrl(cfg, 1), |KaBase + KaPath(cfg)|;
      k <= |one| && KaSearchUrl(cfg, page) == one[..k] + "seite:2/" + one[k..]
  {
    var head := KaBase + KaPath(cfg);
    assert head + "" == head;
    ConcatParts(head, KaTail(cfg));
  }

  /** The area and offers segments, which every search url carries. */
  function KaHead(cfg: KaConfig): string {
    KaBase + KaArea(cfg) + "anzeige:angebote/"
  }

  /** The url split around its price segment. */
  lemma KaUrlParts(cfg: KaConfig, page: int)
    ensures KaSearchUrl(cfg, page) == KaHead(cfg) + KaPrice(cfg) + ((if page >= 2 then "seite:2/" else "") + KaTail(cfg))
  {
    SegmentRegroup(KaBase, KaArea(cfg), "anzeige:angebote/", KaPrice(cfg), if page >= 2 then "seite:2/" else "", KaTail(cfg));
  }

  /** The price range is its own segment: with a minimum or a maximum set,
      the url is the url without any price bound with "preis:MIN:MAX/"
      inserted after the offers segment; with neither, it is that url. */
  lemma {:induction false} KaPriceSegment(cfg: KaConfig, page: int)
    ensures var plain, k := KaSearchUrl(cfg.(priceMin := "", priceMax := ""), page), |KaHead(cfg)|;
      && k <= |plain|
      && (cfg.priceMin != "" || cfg.priceMax != "" ==>
            KaSearchUrl(cfg, page) == plain[..k] + ("preis:" + cfg.priceMin + ":" + cfg.priceMax + "/") + plain[k..])
      && (cfg.priceMin == "" && cfg.priceMax == "" ==> KaSearchUrl(cfg, page) == plain)
  {
    var bare := cfg.(priceMin := "", priceMax := "");
    var head, rest := KaHead(cfg), (if page >= 2 then "seite:2/" else "") + KaTail(cfg);
    assert KaHead(bare) == head && KaTail(bare) == KaTail(cfg) && KaPrice(bare) == "";
    KaUrlParts(cfg, page);
    KaUrlParts(bare, page);
    var plain := KaSearchUrl(bare, page);
    assert plain == head + rest by {
      assert head + "" == head;
    }
    ConcatParts(head, rest);
  }

  /** The url's segments regrouped around the price segment. */
  lemma SegmentRegroup(base: string, area: string, offers: string, price: string, seite: string, tail: string)
    ensures base + ((area + offers) + price) + seite + tail == ((base + area) + offers) + price + (seite + tail)
  {
  }

  /** Only pages from 2 on carry a page segment: every page below 2 is the
      first page, and a later page is eight characters ("seite:2/") longer. */
  lemma KaFirstPages(cfg: KaConfig, page: int)
    ensures page < 2 ==> KaSearchUrl(cfg, page) == KaSearchUrl(cfg, 1)
    ensures |KaSearchUrl(cfg, page)| == |KaSearchUrl(cfg, 1)| + (if page >= 2 then 8 else 0)
  {
  }
}
