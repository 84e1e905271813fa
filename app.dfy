/** The listing page of the web app: reading integer query arguments,
    turning the filter form into the WHERE clause, its arguments and the
    ORDER BY clause, and the page arithmetic. */
module App {
  import opened Common
  import Prices

  // ---------------------------------------------------------------------------
  // parse_int
  // ---------------------------------------------------------------------------

  /** `parse_int`: the default for a missing or empty argument or one `int()`
      refuses, otherwise the integer. */
  function ParseInt(v: Option<string>, default: Option<int>): Option<int> {
    if v.None? || v.value == "" then default
    else match PyInt(v.value)
      case Some(n) => Some(n)
      case None => default
  }

  /** The decimal text of any integer reads back as that integer; a missing
      or empty argument gives the default. */
  lemma ParseIntRoundTrip(n: int, default: Option<int>)
    ensures ParseInt(Some(IntToString(n)), default) == Some(n)
    ensures ParseInt(None, default) == default && ParseInt(Some(""), default) == default
  {
    PyIntRoundTrip(n);
  }

  // ---------------------------------------------------------------------------
  // build_query
  // ---------------------------------------------------------------------------

  /** A value bound to a `?` placeholder. */
  datatype Arg = IntArg(i: int) | StrArg(s: string)

  /** `params.get(k)`. */
  function Param(params: map<string, string>, k: string): Option<string> {
    if k in params then Some(params[k]) else None
  }

  /** A present, non-empty text argument. */
  predicate Given(v: Option<string>) {
    v.Some? && v.value != ""
  }

  /** A clause with one `?` placeholder between two texts. */
  function Placed(before: string, after: string): string {
    before + "?" + after
  }

  /** The filters of the listing form. */
  datatype Filter = TitleLike | PriceMin | PriceMax | KmMax | PostalLike | CityLike | PicsMin | PostedSince

  /** The text before each filter's placeholder. */
  function Before(k: Filter): string {
    match k
    case TitleLike => "title LIKE "
    case PriceMin => "price_eur >= "
    case PriceMax => "price_eur <= "
    case KmMax => "km <= "
    case PostalLike => "postal_code LIKE "
    case CityLike => "city LIKE "
    case PicsMin => "IFNULL(pics, 0) >= "
    case PostedSince => "posted_at IS NOT NULL AND posted_at" + " >= date('now', "
  }

  /** The SQL condition of each filter. */
  function Sql(k: Filter): string {
    Placed(Before(k), if k == PostedSince then ") " else "")
  }

  /** `rstrip("%")`. */
  function RStripPercent(s: string): (r: string)
    ensures |r| <= |s| && r == s[..|r|] && (r == [] || r[|r| - 1] != '%')
    ensures forall i | |r| <= i < |s| :: s[i] == '%'
    decreases |s|
  {
    if s != [] && s[|s| - 1] == '%' then RStripPercent(s[..|s| - 1]) else s
  }

  /** The LIKE pattern of a postal prefix: trailing `%` removed, one added. */
  function PostalPattern(plz: string): string {
    RStripPercent(plz) + "%"
  }

  /** The pattern ends in exactly one `%`, after the prefix as typed without
      its trailing `%` signs. */
  lemma PostalPatternShape(plz: string)
    ensures var r := PostalPattern(plz);
      |r| - 1 <= |plz| && r[|r| - 1] == '%' && (|r| == 1 || r[|r| - 2] != '%')
      && r[..|r| - 1] == plz[..|r| - 1]
      && forall i | |r| - 1 <= i < |plz| :: plz[i] == '%'
  {
    var t := RStripPercent(plz);
    assert (t + "%")[..|t|] == t;
  }

  /** The interval argument of the posted-within filter. */
  function DaysAgo(d: nat): string {
    "-" + NatToString(d) + " day"
  }

  /** The filter form as `build_query` reads it: the text fields as given,
      the integer fields through `parse_int` with no default. */
  datatype Form = Form(q: Option<string>, priceMin: Option<int>, priceMax: Option<int>, kmMax: Option<int>,
                       postal: Option<string>, city: Option<string>, picsMin: Option<int>, postedDays: Option<int>)

  function ReadForm(params: map<string, string>): Form {
    Form(Param(params, "q"), ParseInt(Param(params, "price_min"), None), ParseInt(Param(params, "price_max"), None),
         ParseInt(Param(params, "km_max"), None), Param(params, "postal_prefix"), Param(params, "city"),
         ParseInt(Param(params, "pics_min"), None), ParseInt(Param(params, "posted_days"), None))
  }

  /** One optional filter: its clause and its argument when it applies. */
  function Opt(applies: bool, clause: Filter, arg: Arg): seq<(Filter, Arg)> {
    if applies then [(clause, arg)] else []
  }

  /** The first filters (title text, price from, price to, km to). */
  function FirstFilters(f: Form): seq<(Filter, Arg)> {
    Opt(Given(f.q), TitleLike, StrArg("%" + f.q.GetOr("") + "%"))
    + Opt(f.priceMin.Some?, PriceMin, IntArg(f.priceMin.GetOr(0)))
    + Opt(f.priceMax.Some?, PriceMax, IntArg(f.priceMax.GetOr(0)))
    + Opt(f.kmMax.Some?, KmMax, IntArg(f.kmMax.GetOr(0)))
  }

  /** The days argument, for a non-negative count. */
  function Days(f: Form): nat {
    if f.postedDays.Some? && f.postedDays.value >= 0 then f.postedDays.value else 0
  }

  /** The filters that apply, in the order the form's fields are examined:
      the first four, then postal prefix, city, minimum pictures, posted
      within days. */
  function Filters(f: Form): seq<(Filter, Arg)> {
    FirstFilters(f)
    + Opt(Given(f.postal), PostalLike, StrArg(PostalPattern(f.postal.GetOr(""))))
    + Opt(Given(f.city), CityLike, StrArg("%" + f.city.GetOr("") + "%"))
    + Opt(f.picsMin.Some?, PicsMin, IntArg(f.picsMin.GetOr(0)))
    + Opt(f.postedDays.Some? && f.postedDays.value >= 0, PostedSince, StrArg(DaysAgo(Days(f))))
  }

  function Clauses(fs: seq<(Filter, Arg)>): (r: seq<string>)
    ensures |r| == |fs| && forall i | 0 <= i < |fs| :: r[i] == Sql(fs[i].0)
  {
    seq(|fs|, i requires 0 <= i < |fs| => Sql(fs[i].0))
  }

  function Args(fs: seq<(Filter, Arg)>): (r: seq<Arg>)
    ensures |r| == |fs| && forall i | 0 <= i < |fs| :: r[i] == fs[i].1
  {
    seq(|fs|, i requires 0 <= i < |fs| => fs[i].1)
  }

  /** `sep.join(parts)`. */
  function JoinWith(parts: seq<string>, sep: string): string
    decreases |parts|
  {
    if parts == [] then ""
    else if |parts| == 1 then parts[0]
    else parts[0] + sep + JoinWith(parts[1..], sep)
  }

  /** `"WHERE " + " AND ".join(where)` when some filter applies, else "". */
  function WhereSql(clauses: seq<string>): string {
    if clauses == [] then "" else "WHERE " + JoinWith(clauses, " AND ")
  }

  const LastSeen := "last_seen DESC"

  /** The ordering dictionary of `build_query`, each entry given by what
      precedes its final `last_seen DESC`. */
  function OrderHead(sort: string): Option<string> {
    if sort == "price_asc" then Some("ORDER BY (price_eur IS NULL),  price_eur ASC,  ")
    else if sort == "price_desc" then Some("ORDER BY (price_eur IS NULL),  price_eur DESC, ")
    else if sort == "km_asc" then Some("ORDER BY (km IS NULL),         km ASC,         ")
    else if sort == "km_desc" then Some("ORDER BY (km IS NULL),         km DESC,        ")
    else if sort == "posted_desc" then Some("ORDER BY (posted_at IS NULL),  posted_at DESC, ")
    else if sort == "seen_desc" then Some("ORDER BY ")
    else if sort == "title_asc" then Some("ORDER BY title COLLATE NOCASE ASC, ")
    else None
  }

  /** The default's head: the newest posting first. */
  const DefaultHead := "ORDER BY (posted_at IS NULL), posted_at DESC, "

  /** The ORDER BY clause for `params.get("sort", "posted_desc")`: the
      dictionary's entry, or the default for an unknown key. */
  function OrderSql(params: map<string, string>): string {
    var sort := if "sort" in params then params["sort"] else "posted_desc";
    OrderHead(sort).GetOr(DefaultHead) + LastSeen
  }

  /** Every ordering, the default included, ends with the most recently seen
      listing first; a missing sort key means newest posting first. */
  lemma OrderEndsWithLastSeen(params: map<string, string>)
    ensures EndsWith(OrderSql(params), LastSeen)
    ensures "sort" !in params ==> OrderSql(params) == OrderHead("posted_desc").value + LastSeen
  {
    var sort := if "sort" in params then params["sort"] else "posted_desc";
    EndsWithConcat(OrderHead(sort).GetOr(DefaultHead), LastSeen);
  }

  /** `where.append(clause); args.append(arg)`. */
  method Append(where: seq<string>, args: seq<Arg>, ghost fs: seq<(Filter, Arg)>, clause: Filter, arg: Arg)
    returns (where': seq<string>, args': seq<Arg>, ghost fs': seq<(Filter, Arg)>)
    requires where == Clauses(fs) && args == Args(fs)
    ensures fs' == fs + [(clause, arg)] && where' == Clauses(fs') && args' == Args(fs')
    ensures where' == where + [Sql(clause)] && args' == args + [arg]
  {
    where', args' := where + [Sql(clause)], args + [arg];
    fs' := fs + [(clause, arg)];
  }

  /** `build_query`; the fields are read (and the integer ones parsed)
      first, which changes nothing since reading has no effect. */
  method BuildQuery(params: map<string, string>) returns (whereSql: string, args: seq<Arg>, orderSql: string)
    ensures whereSql == WhereSql(Clauses(Filters(ReadForm(params))))
    ensures args == Args(Filters(ReadForm(params)))
    ensures orderSql == OrderSql(params)
  {
    var f := ReadForm(params);
    whereSql, args := BuildWhere(f);
    var sort := if "sort" in params then params["sort"] else "posted_desc";
    orderSql := OrderHead(sort).GetOr(DefaultHead) + LastSeen;
  }

  /** The WHERE part of `build_query`: each applying filter appends its
      clause and its argument. */
  method BuildWhere(f: Form) returns (whereSql: string, args: seq<Arg>)
    ensures whereSql == WhereSql(Clauses(Filters(f)))
    ensures args == Args(Filters(f))
  {
    var where;
    ghost var fs;
    where, args, fs := AddFirst(f);
    where, args, fs := AddLast(f, where, args, fs);
    whereSql := WhereSql(where);
  }

  /** The title, price and km filters. */
  method AddFirst(f: Form) returns (where: seq<string>, args: seq<Arg>, ghost fs: seq<(Filter, Arg)>)
    ensures fs == FirstFilters(f) && where == Clauses(fs) && args == Args(fs)
    ensures where == Clauses(FirstFilters(f)) && args == Args(FirstFilters(f))
  {
    where, args, fs := [], [], [];
    if Given(f.q) {
      where, args, fs := Append(where, args, fs, TitleLike, StrArg("%" + f.q.value + "%"));
    }
    ghost var s1 := Opt(Given(f.q), TitleLike, StrArg("%" + f.q.GetOr("") + "%"));
    assert fs == s1;
    if f.priceMin.Some? {
      where, args, fs := Append(where, args, fs, PriceMin, IntArg(f.priceMin.value));
    }
    ghost var s2 := s1 + Opt(f.priceMin.Some?, PriceMin, IntArg(f.priceMin.GetOr(0)));
    assert fs == s2;
    if f.priceMax.Some? {
      where, args, fs := Append(where, args, fs, PriceMax, IntArg(f.priceMax.value));
    }
    ghost var s3 := s2 + Opt(f.priceMax.Some?, PriceMax, IntArg(f.priceMax.GetOr(0)));
    assert fs == s3;
    if f.kmMax.Some? {
      where, args, fs := Append(where, args, fs, KmMax, IntArg(f.kmMax.value));
    }
    assert fs == s3 + Opt(f.kmMax.Some?, KmMax, IntArg(f.kmMax.GetOr(0)));
  }

  /** The postal, city, picture and posting-age filters, after the first ones. */
  method AddLast(f: Form, where: seq<string>, args: seq<Arg>, ghost fs: seq<(Filter, Arg)>)
    returns (where': seq<string>, args': seq<Arg>, ghost fs': seq<(Filter, Arg)>)
    requires fs == FirstFilters(f) && where == Clauses(fs) && args == Args(fs)
    ensures fs' == Filters(f) && where' == Clauses(fs') && args' == Args(fs')
    ensures where' == Clauses(Filters(f)) && args' == Args(Filters(f))
  {
    where', args', fs' := where, args, fs;
    if Given(f.postal) {
      where', args', fs' := Append(where', args', fs', PostalLike, StrArg(PostalPattern(f.postal.value)));
    }
    ghost var t1 := fs + Opt(Given(f.postal), PostalLike, StrArg(PostalPattern(f.postal.GetOr(""))));
    assert fs' == t1;
    if Given(f.city) {
      where', args', fs' := Append(where', args', fs', CityLike, StrArg("%" + f.city.value + "%"));
    }
    ghost var t2 := t1 + Opt(Given(f.city), CityLike, StrArg("%" + f.city.GetOr("") + "%"));
    assert fs' == t2;
    if f.picsMin.Some? {
      where', args', fs' := Append(where', args', fs', PicsMin, IntArg(f.picsMin.value));
    }
    ghost var t3 := t2 + Opt(f.picsMin.Some?, PicsMin, IntArg(f.picsMin.GetOr(0)));
    assert fs' == t3;
    if f.postedDays.Some? && f.postedDays.value >= 0 {
      assert Days(f) == f.postedDays.value;
      where', args', fs' := Append(where', args', fs', PostedSince, StrArg(DaysAgo(f.postedDays.value)));
    }
    assert fs' == t3 + Opt(f.postedDays.Some? && f.postedDays.value >= 0, PostedSince, StrArg(DaysAgo(Days(f))));
  }

  /** The number of `?` placeholders in a text. */
  function Marks(s: string): nat
    decreases |s|
  {
    if s == [] then 0 else Marks(s[..|s| - 1]) + (if s[|s| - 1] == '?' then 1 else 0)
  }

  lemma {:induction false} MarksConcat(a: string, b: string)
    ensures Marks(a + b) == Marks(a) + Marks(b)
    decreases |b|
  {
    if b != [] {
      assert (a + b)[..|a + b| - 1] == a + b[..|b| - 1];
      MarksConcat(a, b[..|b| - 1]);
    } else {
      assert a + b == a;
    }
  }

  lemma {:induction false} NoMarks(s: string)
    requires '?' !in s
    ensures Marks(s) == 0
    decreases |s|
  {
    if s != [] {
      NoMarks(s[..|s| - 1]);
    }
  }

  lemma PlacedMark(before: string, after: string)
    requires '?' !in before && '?' !in after
    ensures Marks(Placed(before, after)) == 1
  {
    NoMarks(before);
    NoMarks(after);
    MarksConcat(before, "?");
    MarksConcat(before + "?", after);
  }

  lemma BeforeNoMark(k: Filter)
    ensures '?' !in Before(k)
  {
    match k
    case PostedSince => PostedNoMark();
    case TitleLike | PriceMin | PriceMax | KmMax => ColumnNoMark(k);
    case PostalLike | CityLike | PicsMin => ColumnNoMark(k);
  }

  lemma ColumnNoMark(k: Filter)
    requires k != PostedSince
    ensures '?' !in Before(k)
  {
  }

  lemma PostedNoMark()
    ensures '?' !in Before(PostedSince)
  {
    var x, y := "posted_at IS NOT NULL AND posted_at", " >= date('now', ";
    assert '?' !in x && '?' !in y;
    assert Before(PostedSince) == x + y;
  }

  /** Each filter's condition has exactly one placeholder. */
  lemma SqlMark(k: Filter)
    ensures Marks(Sql(k)) == 1
  {
    BeforeNoMark(k);
    PlacedMark(Before(k), if k == PostedSince then ") " else "");
  }

  lemma {:induction false} JoinMarks(parts: seq<string>)
    requires forall i | 0 <= i < |parts| :: Marks(parts[i]) == 1
    ensures Marks(JoinWith(parts, " AND ")) == |parts|
    decreases |parts|
  {
    if |parts| > 1 {
      JoinMarks(parts[1..]);
      NoMarks(" AND ");
      MarksConcat(parts[0], " AND ");
      MarksConcat(parts[0] + " AND ", JoinWith(parts[1..], " AND "));
    }
  }

  /** A WHERE part over clauses of one placeholder each has one
      placeholder per clause, and is empty exactly when there are none. */
  lemma WhereMarks(cs: seq<string>)
    requires forall i | 0 <= i < |cs| :: Marks(cs[i]) == 1
    ensures Marks(WhereSql(cs)) == |cs|
    ensures WhereSql(cs) == "" <==> cs == []
  {
    JoinMarks(cs);
    if cs != [] {
      NoMarks("WHERE ");
      MarksConcat("WHERE ", JoinWith(cs, " AND "));
    }
  }

  /** The query binds exactly one argument per placeholder, and it has a
      WHERE clause exactly when some filter applies. */
  lemma PlaceholdersMatchArgs(fs: seq<(Filter, Arg)>)
    ensures Marks(WhereSql(Clauses(fs))) == |Args(fs)|
    ensures WhereSql(Clauses(fs)) == "" <==> fs == []
  {
    var cs := Clauses(fs);
    forall i | 0 <= i < |cs|
      ensures Marks(cs[i]) == 1
    {
      SqlMark(fs[i].0);
    }
    WhereMarks(cs);
  }

  /** An empty form filters nothing. */
  lemma EmptyFormNoWhere(params: map<string, string>)
    requires forall k | k in params :: params[k] == ""
    ensures Filters(ReadForm(params)) == []
  {
  }

  /** A postal prefix becomes a prefix pattern, right after the first four
      filters. */
  lemma PostalArgIsPrefixPattern(f: Form)
    requires Given(f.postal)
    ensures var fs := Filters(f); |FirstFilters(f)| < |fs| && fs[|FirstFilters(f)|] == (PostalLike, StrArg(PostalPattern(f.postal.value)))
    ensures EndsWith(PostalPattern(f.postal.value), "%")
  {
    EndsWithConcat(RStripPercent(f.postal.value), "%");
  }

  /** A negative day count adds no filter; a day count of 0 or more adds
      the last filter. */
  lemma DaysFilter(f: Form)
    ensures f.postedDays.Some? && f.postedDays.value < 0 ==>
      Filters(f)[..] == FirstFilters(f)
        + Opt(Given(f.postal), PostalLike, StrArg(PostalPattern(f.postal.GetOr(""))))
        + Opt(Given(f.city), CityLike, StrArg("%" + f.city.GetOr("") + "%"))
        + Opt(f.picsMin.Some?, PicsMin, IntArg(f.picsMin.GetOr(0)))
    ensures f.postedDays.Some? && f.postedDays.value >= 0 ==>
      Filters(f)[|Filters(f)| - 1] == (PostedSince, StrArg(DaysAgo(f.postedDays.value)))
  {
  }

  // ---------------------------------------------------------------------------
  // Pagination
  // ---------------------------------------------------------------------------

  const PerPageDefault := 50

  /** `max(v or default, 1)`, for `v` what `parse_int` gave. */
  function AtLeastOne(v: int, default: int): (n: int)
    requires default >= 1
    ensures n >= 1
    ensures v >= 1 ==> n == v
    ensures v == 0 ==> n == default
    ensures v < 0 ==> n == 1
  {
    var w := if v == 0 then default else v;
    if w > 1 then w else 1
  }

  /** The page shown, its size and the number of rows skipped before it. */
  datatype Window = Window(page: int, perPage: int, offset: int)

  /** The page and page size of the listing, from their query arguments. */
  function PageWindow(pageArg: Option<string>, perPageArg: Option<string>): (w: Window)
    ensures w.page >= 1 && w.perPage >= 1 && w.offset >= 0
    ensures w.offset == (w.page - 1) * w.perPage
  {
    var page := AtLeastOne(ParseInt(pageArg, Some(1)).GetOr(1), 1);
    var perPage := AtLeastOne(ParseInt(perPageArg, Some(PerPageDefault)).GetOr(PerPageDefault), PerPageDefault);
    MulNonNeg(page - 1, perPage);
    Window(page, perPage, (page - 1) * perPage)
  }

  /** An explicit page number of at least 1 is kept; anything else unreadable
      gives the first page and the default size. */
  lemma PageWindowReads(n: nat, m: nat)
    requires n >= 1 && m >= 1
    ensures PageWindow(Some(NatToString(n)), Some(NatToString(m))) == Window(n, m, (n - 1) * m)
    ensures PageWindow(None, None) == Window(1, PerPageDefault, 0)
    ensures PageWindow(Some(""), Some("x")).perPage == PerPageDefault
  {
    PageWindowOfNumbers(n, m);
    PageWindowOfNothing();
    PageWindowOfJunk();
  }

  lemma PageWindowOfNumbers(n: nat, m: nat)
    requires n >= 1 && m >= 1
    ensures PageWindow(Some(NatToString(n)), Some(NatToString(m))) == Window(n, m, (n - 1) * m)
  {
    ParseIntRoundTrip(n, Some(1));
    ParseIntRoundTrip(m, Some(PerPageDefault));
  }

  lemma PageWindowOfNothing()
    ensures PageWindow(None, None) == Window(1, PerPageDefault, 0)
  {
  }

  lemma PageWindowOfJunk()
    ensures PageWindow(Some(""), Some("x")).perPage == PerPageDefault
  {
    assert PyInt("x") == None by {
      assert Strip("x") == "x" by { StripNoEdgeSpace("x"); }
    }
  }

  lemma MulNonNeg(a: int, b: int)
    requires a >= 0 && b >= 0
    ensures a * b >= 0
  {
  }

  /** `has_next`. */
  predicate HasNext(w: Window, rows: nat, total: int) {
    w.offset + rows < total
  }

  /** `has_prev`. */
  predicate HasPrev(w: Window) {
    w.page > 1
  }

  /** With the rows LIMIT/OFFSET returns, there is a next page exactly when
      the total exceeds the rows up to the end of this page; consecutive
      pages are adjacent. */
  lemma PaginationMeetsRows(w: Window, total: nat, rows: nat)
    requires w.page >= 1 && w.perPage >= 1 && w.offset == (w.page - 1) * w.perPage
    requires rows == if total <= w.offset then 0 else if total - w.offset < w.perPage then total - w.offset else w.perPage
    ensures HasNext(w, rows, total) <==> total > w.page * w.perPage
    ensures w.offset + w.perPage == w.page * w.perPage
    ensures HasPrev(w) <==> w.offset > 0
  {
    assert w.page * w.perPage == w.offset + w.perPage;
    if w.page > 1 {
      assert (w.page - 1) * w.perPage >= w.perPage by {
        Prices.MulMono(w.perPage, 1, w.page - 1);
      }
    }
  }
}
