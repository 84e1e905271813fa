/** The comparable-search links shown next to a listing: a Kleinanzeigen
    search for similar cars, an AutoScout24 search and a carwow search, each
    built from the stored row, and the small text transformations (slugs,
    year detection, query encoding) they rest on. */
module Links {
  import opened Common
  import opened Store
  import Scrape

  // ---------------------------------------------------------------------------
  // Reading the stored row
  // ---------------------------------------------------------------------------

  /** `r[k] or ""` for a text column; a column that is NULL, missing or
      (impossibly, for a text column) holds a number reads as "". */
  function Field(r: Row, c: Column): string {
    match Get(r, c)
    case Text(s) => s
    case _ => ""
  }

  /** `r[k]` when it is an integer (`isinstance(km, int)`), else None. */
  function IntField(r: Row, c: Column): Option<int> {
    match Get(r, c)
    case Int(i) => Some(i)
    case _ => None
  }

  // ---------------------------------------------------------------------------
  // Runs and re.sub
  // ---------------------------------------------------------------------------

  /** Length of the run of characters in class `p` at the start of `s`. */
  function Run(s: string, p: char -> bool): (n: nat)
    ensures n <= |s|
    ensures forall i | 0 <= i < n :: p(s[i])
    ensures n == |s| || !p(s[n])
    decreases |s|
  {
    if s == [] || !p(s[0]) then 0 else 1 + Run(s[1..], p)
  }

  /** `re.sub("[P]+", rep, s)`: every maximal run of characters in class `p`
      becomes `rep`, from the left. */
  function Sub(s: string, p: char -> bool, rep: string): string
    decreases |s|
  {
    if s == [] then []
    else if p(s[0]) then rep + Sub(s[Run(s, p)..], p, rep)
    else [s[0]] + Sub(s[1..], p, rep)
  }

  /** Only characters outside the class and characters of `rep` come out. */
  lemma {:induction false} SubChars(s: string, p: char -> bool, rep: string)
    ensures forall i | 0 <= i < |Sub(s, p, rep)| :: !p(Sub(s, p, rep)[i]) || Sub(s, p, rep)[i] in rep
    decreases |s|
  {
    if s != [] {
      var r := Sub(s, p, rep);
      if p(s[0]) {
        var tail := Sub(s[Run(s, p)..], p, rep);
        SubChars(s[Run(s, p)..], p, rep);
        assert r == rep + tail;
        forall i | 0 <= i < |r|
          ensures !p(r[i]) || r[i] in rep
        {
          if i >= |rep| {
            assert r[i] == tail[i - |rep|];
          }
        }
      } else {
        var tail := Sub(s[1..], p, rep);
        SubChars(s[1..], p, rep);
        assert r == [s[0]] + tail;
        forall i | 0 <= i < |r|
          ensures !p(r[i]) || r[i] in rep
        {
          if i >= 1 {
            assert r[i] == tail[i - 1];
          }
        }
      }
    }
  }

  /** A text whose class characters are all `c`, each standing alone, is left
      as it is by replacing runs with `c`. */
  lemma {:induction false} SubIdentity(s: string, p: char -> bool, c: char)
    requires forall i | 0 <= i < |s| && p(s[i]) :: s[i] == c && (i + 1 == |s| || !p(s[i + 1]))
    ensures Sub(s, p, [c]) == s
    decreases |s|
  {
    if s != [] {
      if p(s[0]) {
        assert Run(s, p) == 1 by {
          if |s| > 1 {
            assert !p(s[1]);
          }
        }
        assert Sub(s, p, [c]) == [c] + Sub(s[1..], p, [c]);
        SubIdentity(s[1..], p, c);
        assert s == [c] + s[1..];
      } else {
        SubIdentity(s[1..], p, c);
        assert s == [s[0]] + s[1..];
      }
    }
  }

  // ---------------------------------------------------------------------------
  // Letters, separators and slugs
  // ---------------------------------------------------------------------------

  predicate LowerAlnum(c: char) {
    '0' <= c <= '9' || 'a' <= c <= 'z'
  }

  predicate NotLowerAlnum(c: char) {
    !LowerAlnum(c)
  }

  predicate IsUnderscore(c: char) {
    c == '_'
  }

  /** The lower-case letters and digits of `s`, in order. */
  function Letters(s: string): string
    decreases |s|
  {
    if s == [] then [] else (if LowerAlnum(s[0]) then [s[0]] else []) + Letters(s[1..])
  }

  lemma {:induction false} LettersConcat(a: string, b: string)
    ensures Letters(a + b) == Letters(a) + Letters(b)
    decreases |a|
  {
    if a != [] {
      assert (a + b)[0] == a[0];
      assert (a + b)[1..] == a[1..] + b;
      LettersConcat(a[1..], b);
      calc {
        Letters(a + b);
        (if LowerAlnum(a[0]) then [a[0]] else []) + Letters(a[1..] + b);
        (if LowerAlnum(a[0]) then [a[0]] else []) + (Letters(a[1..]) + Letters(b));
      }
    } else {
      assert a + b == b;
    }
  }

  lemma {:induction false} LettersNone(s: string)
    requires forall i | 0 <= i < |s| :: !LowerAlnum(s[i])
    ensures Letters(s) == []
    decreases |s|
  {
    if s != [] {
      LettersNone(s[1..]);
    }
  }

  /** No two separators next to each other. */
  predicate NoDouble(s: string, sep: char) {
    forall i | 0 <= i < |s| - 1 :: !(s[i] == sep && s[i + 1] == sep)
  }

  /** A slug: lower-case letters and digits in groups joined by single
      separators, with no separator at either end. */
  predicate SlugShape(s: string, sep: char) {
    && (forall i | 0 <= i < |s| :: LowerAlnum(s[i]) || s[i] == sep)
    && NoDouble(s, sep)
    && (s != [] ==> s[0] != sep && s[|s| - 1] != sep)
  }

  /** Replacing the runs of other characters by a separator leaves letters
      and single separators and keeps every letter. */
  lemma {:induction false} SubSeparates(s: string, sep: char)
    requires !LowerAlnum(sep)
    ensures var r := Sub(s, NotLowerAlnum, [sep]);
      && (forall i | 0 <= i < |r| :: LowerAlnum(r[i]) || r[i] == sep)
      && NoDouble(r, sep)
      && (s != [] ==> r != [] && (r[0] == sep <==> !LowerAlnum(s[0])))
      && Letters(r) == Letters(s)
    decreases |s|
  {
    if s != [] {
      var r := Sub(s, NotLowerAlnum, [sep]);
      if NotLowerAlnum(s[0]) {
        var n := Run(s, NotLowerAlnum);
        var rest := s[n..];
        SubSeparates(rest, sep);
        var tail := Sub(rest, NotLowerAlnum, [sep]);
        assert r == [sep] + tail;
        assert rest != [] ==> LowerAlnum(rest[0]);
        assert s == s[..n] + rest;
        LettersConcat(s[..n], rest);
        LettersNone(s[..n]);
        LettersConcat([sep], tail);
        forall i | 0 <= i < |r| - 1
          ensures !(r[i] == sep && r[i + 1] == sep)
        {
          if i >= 1 {
            assert r[i] == tail[i - 1] && r[i + 1] == tail[i];
          }
        }
        forall i | 0 <= i < |r|
          ensures LowerAlnum(r[i]) || r[i] == sep
        {
          if i >= 1 {
            assert r[i] == tail[i - 1];
          }
        }
      } else {
        var tail := Sub(s[1..], NotLowerAlnum, [sep]);
        SubSeparates(s[1..], sep);
        assert r == [s[0]] + tail;
        LettersConcat([s[0]], tail);
        forall i | 0 <= i < |r| - 1
          ensures !(r[i] == sep && r[i + 1] == sep)
        {
          if i >= 1 {
            assert r[i] == tail[i - 1] && r[i + 1] == tail[i];
          }
        }
        forall i | 0 <= i < |r|
          ensures LowerAlnum(r[i]) || r[i] == sep
        {
          if i >= 1 {
            assert r[i] == tail[i - 1];
          }
        }
      }
    }
  }

  /** Length of the run of `c` at the start of `s`. */
  function LeadCount(s: string, c: char): (n: nat)
    ensures n <= |s|
    ensures forall i | 0 <= i < n :: s[i] == c
    ensures n == |s| || s[n] != c
    decreases |s|
  {
    if s == [] || s[0] != c then 0 else 1 + LeadCount(s[1..], c)
  }

  /** Length of the run of `c` at the end of `s`. */
  function TrailCount(s: string, c: char): (n: nat)
    ensures n <= |s|
    ensures forall i | |s| - n <= i < |s| :: s[i] == c
    ensures n == |s| || s[|s| - 1 - n] != c
    decreases |s|
  {
    if s == [] || s[|s| - 1] != c then 0 else 1 + TrailCount(s[..|s| - 1], c)
  }

  /** `s.strip(c)`. */
  function StripChar(s: string, c: char): string {
    var t := s[LeadCount(s, c)..];
    t[..|t| - TrailCount(t, c)]
  }

  /** A slice of a separated text is separated. */
  lemma SliceSeparated(s: string, lo: nat, hi: nat, sep: char)
    requires lo <= hi <= |s|
    requires forall i | 0 <= i < |s| :: LowerAlnum(s[i]) || s[i] == sep
    requires NoDouble(s, sep)
    ensures forall i | 0 <= i < hi - lo :: LowerAlnum(s[lo..hi][i]) || s[lo..hi][i] == sep
    ensures NoDouble(s[lo..hi], sep)
  {
    var r := s[lo..hi];
    forall i | 0 <= i < |r| - 1
      ensures !(r[i] == sep && r[i + 1] == sep)
    {
      assert r[i] == s[lo + i] && r[i + 1] == s[lo + i + 1];
    }
  }

  /** `s.strip(c)` is the slice between the leading and the trailing run. */
  lemma StripCharSlice(s: string, c: char)
    ensures var lead := LeadCount(s, c);
      var k := |s| - lead - TrailCount(s[lead..], c);
      && lead + k <= |s| && StripChar(s, c) == s[lead..lead + k]
      && (k > 0 ==> s[lead] != c && s[lead + k - 1] != c)
  {
    var lead := LeadCount(s, c);
    var t := s[lead..];
    var trail := TrailCount(t, c);
    var k := |t| - trail;
    SliceOfSlice(s, lead, k);
    if k > 0 {
      assert t[0] == s[lead];
      assert t[|t| - 1 - trail] == s[lead + k - 1];
    }
  }

  lemma SliceOfSlice<T>(s: seq<T>, lo: nat, k: nat)
    requires lo + k <= |s|
    ensures s[lo..][..k] == s[lo..lo + k]
  {
  }

  /** Dropping separators from both ends keeps the letters. */
  lemma StripLetters(s: string, sep: char)
    requires !LowerAlnum(sep)
    ensures Letters(StripChar(s, sep)) == Letters(s)
  {
    StripCharSlice(s, sep);
    var lead := LeadCount(s, sep);
    var k := |s| - lead - TrailCount(s[lead..], sep);
    StripLettersOf(s, lead, lead + k, sep);
  }

  /** Cutting a text into separators, a middle and separators keeps the
      letters of the middle. */
  lemma StripLettersOf(s: string, lo: nat, hi: nat, sep: char)
    requires !LowerAlnum(sep) && lo <= hi <= |s|
    requires forall i | 0 <= i < lo :: s[i] == sep
    requires forall i | hi <= i < |s| :: s[i] == sep
    ensures Letters(s[lo..hi]) == Letters(s)
  {
    var x, m, y := s[..lo], s[lo..hi], s[hi..];
    assert Letters(x) == [] by {
      SepsNoLetters(x, sep);
    }
    assert Letters(y) == [] by {
      assert forall i | 0 <= i < |y| :: y[i] == s[hi + i];
      SepsNoLetters(y, sep);
    }
    ThreeSlices(s, lo, hi);
    LettersThree(x, m, y);
  }

  lemma SepsNoLetters(s: string, sep: char)
    requires !LowerAlnum(sep) && forall i | 0 <= i < |s| :: s[i] == sep
    ensures Letters(s) == []
  {
    LettersNone(s);
  }

  lemma LettersThree(x: string, m: string, y: string)
    requires Letters(x) == [] && Letters(y) == []
    ensures Letters(x + m + y) == Letters(m)
  {
    LettersConcat(x + m, y);
    LettersConcat(x, m);
    EmptyAround(Letters(m));
  }

  lemma EmptyAround<T>(m: seq<T>)
    ensures [] + m + [] == m
  {
  }

  lemma ThreeSlices<T>(s: seq<T>, lo: nat, hi: nat)
    requires lo <= hi <= |s|
    ensures s == s[..lo] + s[lo..hi] + s[hi..]
  {
  }

  /** Stripping the separator from a separated text gives a slug with the
      same letters. */
  lemma StripSeparated(s: string, sep: char)
    requires !LowerAlnum(sep)
    requires forall i | 0 <= i < |s| :: LowerAlnum(s[i]) || s[i] == sep
    requires NoDouble(s, sep)
    ensures SlugShape(StripChar(s, sep), sep)
    ensures Letters(StripChar(s, sep)) == Letters(s)
  {
    StripLetters(s, sep);
    StripCharSlice(s, sep);
    var lead := LeadCount(s, sep);
    var k := |s| - lead - TrailCount(s[lead..], sep);
    SliceSeparated(s, lead, lead + k, sep);
  }

  /** A text already in slug shape is not changed by stripping. */
  lemma StripSlug(s: string, sep: char)
    requires SlugShape(s, sep)
    ensures StripChar(s, sep) == s
  {
  }

  /** `re.sub(r"[^a-z0-9]+", sep, v.lower()).strip(sep)`: the slug used for
      the similar-search brand and model (with "_") and the AutoScout brand
      and carwow slugs (with "-"). */
  function AlnumSlug(v: string, sep: char): string {
    StripChar(Sub(Lower(v), NotLowerAlnum, [sep]), sep)
  }

  /** The slug has slug shape and keeps exactly the letters and digits of the
      lower-cased text; so it is empty iff the text has none. */
  lemma AlnumSlugShape(v: string, sep: char)
    requires !LowerAlnum(sep)
    ensures SlugShape(AlnumSlug(v, sep), sep)
    ensures Letters(AlnumSlug(v, sep)) == Letters(Lower(v))
    ensures AlnumSlug(v, sep) == [] <==> Letters(Lower(v)) == []
  {
    SubSeparates(Lower(v), sep);
    StripSeparated(Sub(Lower(v), NotLowerAlnum, [sep]), sep);
    SlugLettersEmpty(AlnumSlug(v, sep), sep);
  }

  /** A slug is empty exactly when it has no letters or digits. */
  lemma SlugLettersEmpty(s: string, sep: char)
    requires SlugShape(s, sep)
    ensures s == [] <==> Letters(s) == []
  {
    if s != [] {
      assert s == [s[0]] + s[1..];
      LettersConcat([s[0]], s[1..]);
    }
  }

  /** Slugging a slug changes nothing. */
  lemma AlnumSlugIdempotent(v: string, sep: char)
    requires !LowerAlnum(sep) && LowerChar(sep) == sep
    ensures AlnumSlug(AlnumSlug(v, sep), sep) == AlnumSlug(v, sep)
  {
    var s := AlnumSlug(v, sep);
    AlnumSlugShape(v, sep);
    assert Lower(s) == s;
    SubIdentity(s, NotLowerAlnum, sep);
    StripSlug(s, sep);
  }

  /** The similar-search slug: lower-case, runs of other characters to "_",
      runs of "_" to one "_", then "_" stripped from both ends. */
  function SimilarSlug(v: string): string {
    StripChar(Sub(Sub(Lower(v), NotLowerAlnum, "_"), IsUnderscore, "_"), '_')
  }

  /** The second substitution never changes anything: the similar-search
      slug is the plain slug with "_". */
  lemma SimilarSlugIsAlnumSlug(v: string)
    ensures SimilarSlug(v) == AlnumSlug(v, '_')
  {
    var x := Sub(Lower(v), NotLowerAlnum, "_");
    SubSeparates(Lower(v), '_');
    SubIdentity(x, IsUnderscore, '_');
  }

  // ---------------------------------------------------------------------------
  // Registration year
  // ---------------------------------------------------------------------------

  /** `(20\d{2}|19\d{2})` matched at the start of `s`, as its integer. */
  function YearAt(s: string): Option<nat> {
    if |s| >= 4 && ((s[0] == '2' && s[1] == '0') || (s[0] == '1' && s[1] == '9')) && IsDigit(s[2]) && IsDigit(s[3])
    then Some(1000 * DigitVal(s[0]) + 100 * DigitVal(s[1]) + 10 * DigitVal(s[2]) + DigitVal(s[3]))
    else None
  }

  /** The first year in `s`. */
  function FindYear(s: string): Option<nat> {
    Search(s, YearAt)
  }

  /** The year from the first ten characters of the first registration, else
      from the registration text of the list page. */
  function RegYear(firstReg: string, ezText: string): Option<nat> {
    var y := FindYear(Take(firstReg, 10));
    if y.Some? then y else FindYear(ezText)
  }

  /** A detected year lies in 1900..2099, and it is the leftmost four-digit
      group starting with 19 or 20. */
  lemma FindYearLeftmost(s: string)
    ensures FindYear(s).Some? ==> 1900 <= FindYear(s).value <= 2099
    ensures FindYear(s).Some? <==> exists i | 0 <= i <= |s| :: YearAt(s[i..]).Some?
    ensures FindYear(s).Some? ==>
      exists i | 0 <= i <= |s| :: FindYear(s) == YearAt(s[i..]) && forall j | 0 <= j < i :: YearAt(s[j..]).None?
  {
    SearchLeftmost(s, YearAt);
    if FindYear(s).Some? {
      var i :| 0 <= i <= |s| && FindYear(s) == YearAt(s[i..]);
      var t := s[i..];
      assert 0 <= DigitVal(t[2]) <= 9 && 0 <= DigitVal(t[3]) <= 9;
    }
  }

  /** The first registration wins whenever it holds a year. */
  lemma RegYearPrefersFirstReg(firstReg: string, ezText: string)
    ensures FindYear(Take(firstReg, 10)).Some? ==> RegYear(firstReg, ezText) == FindYear(Take(firstReg, 10))
    ensures FindYear(Take(firstReg, 10)).None? ==> RegYear(firstReg, ezText) == FindYear(ezText)
    ensures RegYear(firstReg, ezText).Some? ==> 1900 <= RegYear(firstReg, ezText).value <= 2099
  {
    FindYearLeftmost(Take(firstReg, 10));
    FindYearLeftmost(ezText);
  }

  // ---------------------------------------------------------------------------
  // The mileage band
  // ---------------------------------------------------------------------------

  /** `int(km * 0.9)` and `int(km * 1.1)`. */
  function KmBand(km: int): (band: (int, int))
    ensures km >= 0 ==> 0 <= band.0 <= km <= band.1
    ensures km >= 0 ==> 10 * band.0 <= 9 * km < 10 * band.0 + 10
    ensures km >= 0 ==> 10 * band.1 <= 11 * km < 10 * band.1 + 10
  {
    (TruncDiv(9 * km, 10), TruncDiv(11 * km, 10))
  }

  lemma KmBandExample()
    ensures KmBand(100000) == (90000, 110000)
  {
  }

  // ---------------------------------------------------------------------------
  // build_similar_search_url
  // ---------------------------------------------------------------------------

  /** The search area of the deployment: region slug, region code and radius. */
  datatype Area = Area(slug: string, code: string, radius: int)

  /** Region segment (when configured) and the offers-only segment. */
  function AreaPath(area: Area): string {
    (if area.slug != "" then area.slug + "/" else "") + "anzeige:angebote/"
  }

  /** The filter parts, joined with "+" in this order: category/region block,
      brand, model, km band, year window, fuel, gearbox. */
  function SimilarParts(area: Area, brand: string, model: string, fuel: string, gear: string,
                        km: Option<int>, year: Option<nat>): seq<string>
  {
    SimilarHead(area, brand, model) + KmPart(km) + YearPart(year)
    + OptionalPart("autos.fuel_s:", fuel) + OptionalPart("autos.shift_s:", gear)
  }

  /** The region, brand and model parts, always present. */
  function SimilarHead(area: Area, brand: string, model: string): seq<string> {
    ["c216" + area.code + "r" + IntToString(area.radius),
     "autos.marke_s:" + brand,
     "autos.model_s:" + model]
  }

  /** The mileage band part, when the mileage is known. */
  function KmPart(km: Option<int>): seq<string> {
    if km.Some? then ["autos.km_i:" + IntToString(KmBand(km.value).0) + "," + IntToString(KmBand(km.value).1)] else []
  }

  /** The registration-year band part, when the year is known. */
  function YearPart(year: Option<nat>): seq<string> {
    if year.Some? then ["autos.ez_i:" + IntToString(year.value - 1) + "," + IntToString(year.value + 1)] else []
  }

  /** A `key:value` part, left out when the value is empty. */
  function OptionalPart(key: string, v: string): seq<string> {
    if v != "" then [key + v] else []
  }

  function SimilarSearchUrl(r: Row, area: Area): string {
    var brand := SimilarSlug(Field(r, Brand));
    var model := SimilarSlug(Field(r, Model));
    if brand == "" || model == "" then ""
    else
      var year := RegYear(Field(r, FirstReg), Field(r, EzText));
      Scrape.KaBase + AreaPath(area)
      + Join(SimilarParts(area, brand, model, SimilarSlug(Field(r, Fuel)), SimilarSlug(Field(r, Gearbox)),
                          IntField(r, Km), year), '+')
  }

  /** No link exactly when the brand or the model has no letter or digit. */
  lemma SimilarUrlEmpty(r: Row, area: Area)
    ensures SimilarSearchUrl(r, area) == "" <==>
      Letters(Lower(Field(r, Brand))) == [] || Letters(Lower(Field(r, Model))) == []
  {
    SimilarSlugIsAlnumSlug(Field(r, Brand));
    SimilarSlugIsAlnumSlug(Field(r, Model));
    AlnumSlugShape(Field(r, Brand), '_');
    AlnumSlugShape(Field(r, Model), '_');
  }

  lemma IntToStringNoPlus(i: int)
    ensures '+' !in IntToString(i) && '&' !in IntToString(i) && '=' !in IntToString(i)
  {
    var s := NatToString(if i < 0 then -i else i);
    assert forall k | 0 <= k < |s| :: IsDigit(s[k]);
  }

  lemma SlugNoPlus(v: string)
    ensures '+' !in SimilarSlug(v)
  {
    SimilarSlugIsAlnumSlug(v);
    AlnumSlugShape(v, '_');
  }

  /** No part of the two lists holds the separator, so none of their concatenation. */
  lemma NoSepConcat(a: seq<string>, b: seq<string>, sep: char)
    requires forall i | 0 <= i < |a| :: sep !in a[i]
    requires forall i | 0 <= i < |b| :: sep !in b[i]
    ensures forall i | 0 <= i < |a + b| :: sep !in (a + b)[i]
  {
    forall i | 0 <= i < |a + b|
      ensures sep !in (a + b)[i]
    {
      if i >= |a| {
        assert (a + b)[i] == b[i - |a|];
      }
    }
  }

  lemma SimilarPartsNoPlus(area: Area, brand: string, model: string, fuel: string, gear: string,
                           km: Option<int>, year: Option<nat>)
    requires '+' !in area.code && '+' !in brand && '+' !in model && '+' !in fuel && '+' !in gear
    ensures forall i | 0 <= i < |SimilarParts(area, brand, model, fuel, gear, km, year)| ::
      '+' !in SimilarParts(area, brand, model, fuel, gear, km, year)[i]
  {
    var head, ks, ys := SimilarHead(area, brand, model), KmPart(km), YearPart(year);
    var fs, gs := OptionalPart("autos.fuel_s:", fuel), OptionalPart("autos.shift_s:", gear);
    HeadNoPlus(area, brand, model);
    KmPartNoPlus(km);
    YearPartNoPlus(year);
    OptionalPartNoPlus("autos.fuel_s:", fuel);
    OptionalPartNoPlus("autos.shift_s:", gear);
    NoSepConcat(head, ks, '+');
    NoSepConcat(head + ks, ys, '+');
    NoSepConcat(head + ks + ys, fs, '+');
    NoSepConcat(head + ks + ys + fs, gs, '+');
  }

  lemma HeadNoPlus(area: Area, brand: string, model: string)
    requires '+' !in area.code && '+' !in brand && '+' !in model
    ensures forall i | 0 <= i < |SimilarHead(area, brand, model)| :: '+' !in SimilarHead(area, brand, model)[i]
  {
    IntToStringNoPlus(area.radius);
  }

  lemma KmPartNoPlus(km: Option<int>)
    ensures forall i | 0 <= i < |KmPart(km)| :: '+' !in KmPart(km)[i]
  {
    if km.Some? {
      IntToStringNoPlus(KmBand(km.value).0);
      IntToStringNoPlus(KmBand(km.value).1);
    }
  }

  lemma YearPartNoPlus(year: Option<nat>)
    ensures forall i | 0 <= i < |YearPart(year)| :: '+' !in YearPart(year)[i]
  {
    if year.Some? {
      IntToStringNoPlus(year.value - 1);
      IntToStringNoPlus(year.value + 1);
    }
  }

  lemma OptionalPartNoPlus(key: string, v: string)
    requires '+' !in key && '+' !in v
    ensures forall i | 0 <= i < |OptionalPart(key, v)| :: '+' !in OptionalPart(key, v)[i]
  {
  }

  /** Splitting the filter part of the link at "+" gives back the parts in
      their order, when the region code has no "+". */
  lemma SimilarUrlReadBack(r: Row, area: Area)
    requires '+' !in area.code
    ensures var url := SimilarSearchUrl(r, area);
      var prefix := Scrape.KaBase + AreaPath(area);
      url != "" ==>
        && StartsWith(url, prefix)
        && Split(url[|prefix|..], '+') == SimilarParts(area, SimilarSlug(Field(r, Brand)), SimilarSlug(Field(r, Model)),
             SimilarSlug(Field(r, Fuel)), SimilarSlug(Field(r, Gearbox)), IntField(r, Km), RegYear(Field(r, FirstReg), Field(r, EzText)))
  {
    var url := SimilarSearchUrl(r, area);
    if url != "" {
      var brand, model := SimilarSlug(Field(r, Brand)), SimilarSlug(Field(r, Model));
      var fuel, gear := SimilarSlug(Field(r, Fuel)), SimilarSlug(Field(r, Gearbox));
      var km, year := IntField(r, Km), RegYear(Field(r, FirstReg), Field(r, EzText));
      var parts := SimilarParts(area, brand, model, fuel, gear, km, year);
      var prefix := Scrape.KaBase + AreaPath(area);
      assert url == prefix + Join(parts, '+');
      assert url[..|prefix|] == prefix;
      assert url[|prefix|..] == Join(parts, '+');
      SlugNoPlus(Field(r, Brand));
      SlugNoPlus(Field(r, Model));
      SlugNoPlus(Field(r, Fuel));
      SlugNoPlus(Field(r, Gearbox));
      SimilarPartsNoPlus(area, brand, model, fuel, gear, km, year);
      SplitJoin(parts, '+');
    }
  }

  // ---------------------------------------------------------------------------
  // Query strings: quote_plus and urlencode
  // ---------------------------------------------------------------------------

  /** The characters `quote_plus` never escapes. */
  predicate UrlSafe(c: char) {
    IsAsciiAlnum(c) || c == '_' || c == '.' || c == '-' || c == '~'
  }

  function HexDigit(d: nat): (c: char)
    requires d < 16
    ensures IsAsciiAlnum(c)
  {
    if d < 10 then ('0' as int + d) as char else ('A' as int + d - 10) as char
  }

  /** The UTF-8 bytes of a character. */
  function Utf8(c: char): (bs: seq<nat>)
    ensures 1 <= |bs| <= 4
    ensures forall i | 0 <= i < |bs| :: bs[i] < 256
    ensures c as int < 0x80 ==> bs == [c as int]
  {
    var n := c as int;
    if n < 0x80 then [n]
    else if n < 0x800 then [0xC0 + n / 64, 0x80 + n % 64]
    else if n < 0x10000 then [0xE0 + n / 4096, 0x80 + (n / 64) % 64, 0x80 + n % 64]
    else [0xF0 + n / 262144, 0x80 + (n / 4096) % 64, 0x80 + (n / 64) % 64, 0x80 + n % 64]
  }

  /** "%XX" for every byte, upper-case hex. */
  function Percent(bs: seq<nat>): (r: string)
    requires forall i | 0 <= i < |bs| :: bs[i] < 256
    ensures forall i | 0 <= i < |r| :: IsAsciiAlnum(r[i]) || r[i] == '%'
    decreases |bs|
  {
    if bs == [] then ""
    else ['%', HexDigit(bs[0] / 16), HexDigit(bs[0] % 16)] + Percent(bs[1..])
  }

  function QuoteChar(c: char): (r: string)
    ensures forall i | 0 <= i < |r| :: UrlSafe(r[i]) || r[i] == '+' || r[i] == '%'
  {
    if UrlSafe(c) then [c] else if c == ' ' then "+" else Percent(Utf8(c))
  }

  /** `urllib.parse.quote_plus(s)`. */
  function QuotePlus(s: string): string
    decreases |s|
  {
    if s == [] then "" else QuoteChar(s[0]) + QuotePlus(s[1..])
  }

  /** Quoting leaves only safe characters, "+" and "%": never "&" or "=". */
  lemma {:induction false} QuotePlusAlphabet(s: string)
    ensures forall i | 0 <= i < |QuotePlus(s)| ::
      UrlSafe(QuotePlus(s)[i]) || QuotePlus(s)[i] == '+' || QuotePlus(s)[i] == '%'
    decreases |s|
  {
    if s != [] {
      QuotePlusAlphabet(s[1..]);
      var q, t := QuoteChar(s[0]), QuotePlus(s[1..]);
      assert QuotePlus(s) == q + t;
      forall i | 0 <= i < |q + t|
        ensures UrlSafe((q + t)[i]) || (q + t)[i] == '+' || (q + t)[i] == '%'
      {
        if i >= |q| {
          assert (q + t)[i] == t[i - |q|];
        }
      }
    }
  }

  /** Text made of safe characters is sent as it is. */
  lemma {:induction false} QuotePlusSafe(s: string)
    requires forall i | 0 <= i < |s| :: UrlSafe(s[i])
    ensures QuotePlus(s) == s
    decreases |s|
  {
    if s != [] {
      QuotePlusSafe(s[1..]);
      assert s == [s[0]] + s[1..];
    }
  }

  /** The brackets of the carwow parameter names are escaped. */
  lemma QuotePlusExample()
    ensures QuotePlus("[]") == "%5B%5D"
  {
    assert Utf8('[') == [91];
    assert Utf8(']') == [93];
    assert QuoteChar('[') == "%5B";
    assert QuoteChar(']') == "%5D";
    assert "[]"[1..] == "]";
  }

  lemma {:induction false} QuotePlusConcat(a: string, b: string)
    ensures QuotePlus(a + b) == QuotePlus(a) + QuotePlus(b)
    decreases |a|
  {
    if a != [] {
      assert (a + b)[0] == a[0];
      assert (a + b)[1..] == a[1..] + b;
      QuotePlusConcat(a[1..], b);
      calc {
        QuotePlus(a + b);
        QuoteChar(a[0]) + QuotePlus(a[1..] + b);
        QuoteChar(a[0]) + (QuotePlus(a[1..]) + QuotePlus(b));
      }
    } else {
      assert a + b == b;
    }
  }

  /** One encoded parameter. */
  function Param(kv: (string, string)): string {
    QuotePlus(kv.0) + "=" + QuotePlus(kv.1)
  }

  function Params(pairs: seq<(string, string)>): (r: seq<string>)
    ensures |r| == |pairs| && forall i | 0 <= i < |pairs| :: r[i] == Param(pairs[i])
  {
    seq(|pairs|, i requires 0 <= i < |pairs| => Param(pairs[i]))
  }

  /** `urlencode(q)` for a dict of strings in insertion order. */
  function UrlEncode(pairs: seq<(string, string)>): string {
    Join(Params(pairs), '&')
  }

  /** The query splits back into its parameters, in order, and every
      parameter into its quoted key and value. */
  lemma UrlEncodeReadBack(pairs: seq<(string, string)>)
    requires pairs != []
    ensures Split(UrlEncode(pairs), '&') == Params(pairs)
    ensures forall i | 0 <= i < |pairs| :: Split(Params(pairs)[i], '=') == [QuotePlus(pairs[i].0), QuotePlus(pairs[i].1)]
  {
    var ps := Params(pairs);
    forall i | 0 <= i < |pairs|
      ensures '&' !in ps[i]
      ensures Split(ps[i], '=') == [QuotePlus(pairs[i].0), QuotePlus(pairs[i].1)]
    {
      var k, v := QuotePlus(pairs[i].0), QuotePlus(pairs[i].1);
      QuotePlusAlphabet(pairs[i].0);
      QuotePlusAlphabet(pairs[i].1);
      assert ps[i] == k + "=" + v;
      assert '&' !in k && '&' !in v && '=' !in k && '=' !in v;
      assert Join([k, v], '=') == ps[i] by {
        assert [k, v][1..] == [v];
      }
      SplitJoin([k, v], '=');
    }
    SplitJoin(ps, '&');
  }

  // ---------------------------------------------------------------------------
  // build_autoscout_search_url
  // ---------------------------------------------------------------------------

  /** The AutoScout model slug keeps letters of either case, digits, "-", "(" and ")". */
  predicate ModelChar(c: char) {
    IsAsciiAlnum(c) || c == '-' || c == '(' || c == ')'
  }

  predicate NotModelChar(c: char) {
    !ModelChar(c)
  }

  /** Stripped, whitespace runs to "-", then everything else removed. */
  function ModelSlug(v: string): string {
    Sub(Sub(Strip(v), IsSpace, "-"), NotModelChar, "")
  }

  lemma ModelSlugChars(v: string)
    ensures forall i | 0 <= i < |ModelSlug(v)| :: ModelChar(ModelSlug(v)[i]) && !IsSpace(ModelSlug(v)[i])
  {
    SubChars(Sub(Strip(v), IsSpace, "-"), NotModelChar, "");
  }

  const AutoScoutFuel: map<string, string> := map[
    "benzin" := "B", "benziner" := "B", "super" := "B",
    "diesel" := "D",
    "elektro" := "E", "electric" := "E", "bev" := "E",
    "hybrid" := "H", "plug-in-hybrid" := "H", "phev" := "H"]

  /** The gearbox code: automatic wins over manual, otherwise none. */
  function GearCode(g: string, automatic: string, manual: string): string {
    if Contains(g, "auto") then automatic
    else if Contains(g, "schalt") || Contains(g, "man") then manual
    else ""
  }

  const AutoScoutBase := "https://www.autoscout24.de/lst/"

  /** The seven parameters every AutoScout link carries (private sellers). */
  const AutoScoutFixed: seq<(string, string)> := [
    ("atype", "C"), ("cy", "D"), ("custtype", "P"), ("damaged_listing", "exclude"),
    ("desc", "0"), ("sort", "standard"), ("source", "detailsearch")]

  function AutoScoutParams(year: Option<nat>, km: Option<int>, fuel: string, gear: string): seq<(string, string)> {
    AutoScoutFixed
    + (if year.Some? then [("fregfrom", IntToString(year.value - 1)), ("fregto", IntToString(year.value + 1))] else [])
    + (if km.Some? then [("kmfrom", IntToString(KmBand(km.value).0)), ("kmto", IntToString(KmBand(km.value).1))] else [])
    + (if fuel != "" then [("fuel", fuel)] else [])
    + (if gear != "" then [("gear", gear)] else [])
  }

  function AutoScoutSearchUrl(r: Row): string {
    var brandRaw, modelRaw := Field(r, Brand), Field(r, Model);
    if brandRaw == "" || modelRaw == "" then ""
    else
      var brand, model := AlnumSlug(brandRaw, '-'), ModelSlug(modelRaw);
      var year := RegYear(Field(r, FirstReg), Field(r, EzText));
      var fuelRaw := Lower(Field(r, Fuel));
      var fuel := if fuelRaw in AutoScoutFuel then AutoScoutFuel[fuelRaw] else "";
      var gear := GearCode(Lower(Field(r, Gearbox)), "A", "M");
      AutoScoutBase + brand + (if model != "" then "/" + model else "") + "?"
      + UrlEncode(AutoScoutParams(year, IntField(r, Km), fuel, gear))
  }

  /** Unlike the similar search, AutoScout only needs the raw brand and model
      to be non-empty: a brand of punctuation still gives a link. */
  lemma AutoScoutUrlEmpty(r: Row)
    ensures AutoScoutSearchUrl(r) == "" <==> Field(r, Brand) == "" || Field(r, Model) == ""
  {
  }

  lemma BangHasNoLetters()
    ensures Letters(Lower("!")) == []
  {
    assert Lower("!") == "!";
    assert "!"[1..] == [];
  }

  lemma AutoScoutPunctuationBrand()
    ensures var r: Row := map[Brand := Text("!"), Model := Text("Golf")];
      AutoScoutSearchUrl(r) != "" && SimilarSearchUrl(r, Area("", "", 0)) == ""
  {
    var r: Row := map[Brand := Text("!"), Model := Text("Golf")];
    assert Field(r, Brand) == "!" && Field(r, Model) == "Golf";
    AutoScoutUrlEmpty(r);
    SimilarUrlEmpty(r, Area("", "", 0));
    BangHasNoLetters();
  }

  /** The query always starts with the seven fixed parameters, followed by
      the year window and km band when known, then fuel and gearbox. */
  lemma AutoScoutQuery(year: Option<nat>, km: Option<int>, fuel: string, gear: string)
    ensures var ps := AutoScoutParams(year, km, fuel, gear);
      && ps[..7] == AutoScoutFixed
      && (year.Some? <==> exists i | 7 <= i < |ps| :: ps[i].0 == "fregfrom")
      && (km.Some? <==> exists i | 7 <= i < |ps| :: ps[i].0 == "kmfrom")
  {
    var ps := AutoScoutParams(year, km, fuel, gear);
    var ys := if year.Some? then [("fregfrom", IntToString(year.value - 1)), ("fregto", IntToString(year.value + 1))] else [];
    var ks := if km.Some? then [("kmfrom", IntToString(KmBand(km.value).0)), ("kmto", IntToString(KmBand(km.value).1))] else [];
    var fs := if fuel != "" then [("fuel", fuel)] else [];
    var gs := if gear != "" then [("gear", gear)] else [];
    assert ps == AutoScoutFixed + ys + ks + fs + gs;
    assert ps[..7] == AutoScoutFixed;
    if year.Some? {
      assert ps[7].0 == "fregfrom";
    }
    if km.Some? {
      assert ps[7 + |ys|].0 == "kmfrom";
    }
    forall i | 7 <= i < |ps| && ps[i].0 == "fregfrom"
      ensures year.Some?
    {
    }
    forall i | 7 <= i < |ps| && ps[i].0 == "kmfrom"
      ensures km.Some?
    {
    }
  }

  /** The gearbox code: "auto" anywhere wins, even next to "manual". */
  lemma GearPrecedence(g: string)
    ensures Contains(g, "auto") ==> GearCode(g, "A", "M") == "A"
    ensures GearCode(g, "A", "M") == "M" ==> !Contains(g, "auto")
    ensures GearCode("automatik/manuell", "A", "M") == "A"
  {
    assert StartsWith("automatik/manuell", "auto");
  }

  /** Every AutoScout fuel code is one of the four letters. */
  lemma AutoScoutFuelCodes(f: string)
    requires f in AutoScoutFuel
    ensures AutoScoutFuel[f] in {"B", "D", "E", "H"}
  {
  }

  // ---------------------------------------------------------------------------
  // build_carwow_search_url (the builder kept next to the others)
  // ---------------------------------------------------------------------------

  predicate CarwowChar(c: char) {
    LowerAlnum(c) || c == '-' || c == ' '
  }

  predicate NotCarwowChar(c: char) {
    !CarwowChar(c)
  }

  /** The characters of `s` that are letters, digits, "-" or " ", in order. */
  function KeepCarwow(s: string): (r: string)
    ensures |r| <= |s|
    ensures forall i | 0 <= i < |r| :: CarwowChar(r[i])
    decreases |s|
  {
    if s == [] then [] else (if CarwowChar(s[0]) then [s[0]] else []) + KeepCarwow(s[1..])
  }

  /** Dropped characters at the front do not show in what is kept. */
  lemma {:induction false} KeepCarwowSkips(s: string, n: nat)
    requires n <= |s| && forall i | 0 <= i < n :: NotCarwowChar(s[i])
    ensures KeepCarwow(s) == KeepCarwow(s[n..])
    decreases n
  {
    if n > 0 {
      assert s[1..][n - 1..] == s[n..];
      KeepCarwowSkips(s[1..], n - 1);
    }
  }

  /** Deleting every run of other characters (`re.sub("[^a-z0-9\- ]+", "", s)`)
      keeps exactly the letters, digits, "-" and " ", in order. */
  lemma {:induction false} SubDropsToKept(s: string)
    ensures Sub(s, NotCarwowChar, "") == KeepCarwow(s)
    decreases |s|
  {
    if s != [] {
      if NotCarwowChar(s[0]) {
        var n := Run(s, NotCarwowChar);
        KeepCarwowSkips(s, n);
        SubDropsToKept(s[n..]);
        assert Sub(s, NotCarwowChar, "") == "" + Sub(s[n..], NotCarwowChar, "");
      } else {
        SubDropsToKept(s[1..]);
      }
    }
  }

  /** Stripped, lower-cased, everything but letters, digits, "-" and " "
      removed, spaces turned into "-": the slug has one character for each
      kept character, in order, a space becoming "-". */
  function CarwowLinkSlug(v: string): (r: string)
    ensures var k := KeepCarwow(Lower(Strip(v)));
      |r| == |k| && forall i | 0 <= i < |r| :: r[i] == (if k[i] == ' ' then '-' else k[i])
  {
    var s := Sub(Lower(Strip(v)), NotCarwowChar, "");
    SubDropsToKept(Lower(Strip(v)));
    seq(|s|, i requires 0 <= i < |s| => if s[i] == ' ' then '-' else s[i])
  }

  lemma CarwowLinkSlugChars(v: string)
    ensures forall i | 0 <= i < |CarwowLinkSlug(v)| :: LowerAlnum(CarwowLinkSlug(v)[i]) || CarwowLinkSlug(v)[i] == '-'
  {
    SubChars(Lower(Strip(v)), NotCarwowChar, "");
  }

  const CarwowFuel: map<string, string> := map[
    "benzin" := "petrol", "benziner" := "petrol", "super" := "petrol",
    "diesel" := "diesel",
    "elektro" := "electric", "bev" := "electric", "electric" := "electric",
    "hybrid" := "hybrid", "plug-in-hybrid" := "hybrid", "phev" := "hybrid"]

  const CarwowBase := "https://angebote.carwow.de/stock_cars"

  /** The carwow query: four fixed parameters, the two slugs, then fuel,
      transmission and the km bounds when present. */
  function CarwowParams(brand: string, model: string, fuel: string, trans: string,
                        gte: Option<int>, lte: Option<int>): seq<(string, string)> {
    [("sort", "recommended"), ("vehicle_type", "car"), ("deal_type_group", "cash"),
     ("vehicle_state_group", "used"), ("brand_slug", brand), ("model_slug", model)]
    + (if fuel != "" then [("vehicle_fuel_category[]", fuel)] else [])
    + (if trans != "" then [("vehicle_transmission_category[]", trans)] else [])
    + (if gte.Some? then [("vehicle_distance_travelled[gte]", IntToString(gte.value))] else [])
    + (if lte.Some? then [("vehicle_distance_travelled[lte]", IntToString(lte.value))] else [])
  }

  /** The link builder of this module: the km bounds are `max(0, int(km*0.9))`
      and `int(km*1.1)` for an integer km. */
  function CarwowLinkUrl(r: Row): (url: string)
    ensures url == "" <==> CarwowLinkSlug(Field(r, Brand)) == "" || CarwowLinkSlug(Field(r, Model)) == ""
  {
    var brand, model := CarwowLinkSlug(Field(r, Brand)), CarwowLinkSlug(Field(r, Model));
    if brand == "" || model == "" then ""
    else
      var km := IntField(r, Km);
      var fuelRaw := Lower(Field(r, Fuel));
      var fuel := if fuelRaw in CarwowFuel then CarwowFuel[fuelRaw] else "";
      var trans := GearCode(Lower(Field(r, Gearbox)), "automatic", "manual");
      var gte := if km.Some? then Some(if KmBand(km.value).0 > 0 then KmBand(km.value).0 else 0) else None;
      var lte := if km.Some? then Some(KmBand(km.value).1) else None;
      CarwowBase + "?" + UrlEncode(CarwowParams(brand, model, fuel, trans, gte, lte))
  }

  /** Both km bounds are present exactly when the row has an integer km, the
      lower one is never negative, and they bracket a non-negative km. */
  lemma CarwowLinkBand(km: int)
    ensures var gte := if KmBand(km).0 > 0 then KmBand(km).0 else 0;
      0 <= gte && (km >= 0 ==> gte <= km <= KmBand(km).1)
  {
  }
}
