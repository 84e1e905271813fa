/** One synchronisation run: every result-list row is written to the store,
    then enriched from its detail page. The page and detail fetches are
    inputs; a failed fetch is `None` (page) or a missing url (detail). */
module Sync {
  import opened Common
  import opened Store
  import opened Scrape

  // ---------------------------------------------------------------------------
  // Payloads
  // ---------------------------------------------------------------------------

  /** `n` in decimal, zero-padded to at least `width` digits. */
  function Pad(n: nat, width: nat): (r: string)
    ensures |r| >= width && AllDigits(r)
  {
    var ds := NatToString(n);
    if |ds| >= width then ds else seq(width - |ds|, _ => '0') + ds
  }

  /** The stored text of a posting time: `YYYY-MM-DD HH:MM` for a stamp, the
      text itself otherwise. */
  function PostedValue(p: Option<Posted>): Value {
    match p
    case None => Null
    case Some(Verbatim(s)) => Text(s)
    case Some(Stamp(d, c)) =>
      var y := if d.year >= 0 then d.year else 0;
      var m := if d.month >= 0 then d.month else 0;
      var dd := if d.day >= 0 then d.day else 0;
      Text(Pad(y, 4) + "-" + Pad(m, 2) + "-" + Pad(dd, 2) + " " + Pad(c.hour, 2) + ":" + Pad(c.minute, 2))
  }

  /** The payload of a result-list row: its id and the eleven columns the
      list shows, a missing value as NULL. */
  function SrpPayload(row: SrpRow): (p: Payload)
    ensures p.id == row.id && WellFormed(p)
    ensures PriceEur in p.fields && p.fields[PriceEur] == OptInt(row.price)
    ensures Url in p.fields && p.fields[Url] == Text(row.url)
  {
    var fields := map[
      Platform := Text(row.platform),
      Url := Text(row.url),
      Title := OptText(row.title),
      PriceEur := OptInt(row.price),
      Km := OptInt(row.km),
      EzText := OptText(row.ezText),
      Location := OptText(row.location),
      PostalCode := OptText(row.postal),
      City := OptText(row.city),
      PostedAt := PostedValue(row.postedAt),
      Pics := OptInt(row.pics)];
    assert Platform in fields;
    Payload(row.id, fields)
  }

  const DefaultPlatform := "ebay-kleinanzeigen"

  /** The enrichment payload: id, platform (defaulted), url, the title only
      when it is non-empty, and the detail columns on top. */
  function DetailPayload(row: SrpRow, det: map<Column, Value>): Payload {
    var base := map[Platform := Text(if row.platform != "" then row.platform else DefaultPlatform), Url := Text(row.url)];
    var title := if row.title.Some? && row.title.value != "" then map[Title := Text(row.title.value)] else map[];
    Payload(row.id, base + title + det)
  }

  /** Detail columns never overwrite what the row carries forward: given
      detail columns that are none of platform, url and title, the payload
      holds the row's id, platform and url, the title exactly when it is
      non-empty, and every detail column. */
  lemma {:induction false} DetailPayloadCarries(row: SrpRow, det: map<Column, Value>)
    requires forall k | k in det :: IsData(k) && k != Platform && k != Url && k != Title
    ensures var p := DetailPayload(row, det);
      && WellFormed(p) && p.id == row.id
      && p.fields[Platform] == Text(if row.platform != "" then row.platform else DefaultPlatform)
      && p.fields[Url] == Text(row.url)
      && (Title in p.fields <==> row.title.Some? && row.title.value != "")
      && (Title in p.fields ==> p.fields[Title] == Text(row.title.value))
      && (forall k | k in det :: k in p.fields && p.fields[k] == det[k])
  {
    var platform := Text(if row.platform != "" then row.platform else DefaultPlatform);
    var base := map[Platform := platform, Url := Text(row.url)];
    var title := if row.title.Some? && row.title.value != "" then map[Title := Text(row.title.value)] else map[];
    var fields := base + title + det;
    assert DetailPayload(row, det) == Payload(row.id, fields);
    assert Platform !in det && Url !in det && Title !in det;
    assert Platform !in title && Url !in title;
    assert fields[Platform] == platform && fields[Url] == Text(row.url);
    assert Title in fields <==> Title in title;
    DetailPayloadWellFormed(row, det);
  }

  lemma DetailPayloadWellFormed(row: SrpRow, det: map<Column, Value>)
    requires forall k | k in det :: IsData(k)
    ensures WellFormed(DetailPayload(row, det))
  {
    assert Platform in DetailPayload(row, det).fields;
  }

  /** The detail columns of a fetched detail page. */
  function Enrichment(row: SrpRow, details: map<string, seq<DetailItem>>): (det: map<Column, Value>)
    ensures forall k | k in det :: IsData(k) && k != Platform && k != Url && k != Title
  {
    if row.url != "" && row.url in details then
      DetailMapKeys(details[row.url]);
      DetailMap(details[row.url])
    else map[]
  }

  /** The upserts one row causes: its list payload, then its detail payload
      when it has a url, the detail fetch succeeded and gave some column. */
  function RowPayloads(row: SrpRow, details: map<string, seq<DetailItem>>): (ps: seq<Payload>)
    ensures 1 <= |ps| <= 2 && ps[0] == SrpPayload(row)
    ensures forall i | 0 <= i < |ps| :: ps[i].id == row.id
  {
    var det := Enrichment(row, details);
    var srp := SrpPayload(row);
    if det != map[] then
      var dp := DetailPayload(row, det);
      assert dp.id == row.id;
      [srp, dp]
    else [srp]
  }

  function PagePayloads(rows: seq<SrpRow>, details: map<string, seq<DetailItem>>): seq<Payload>
    decreases |rows|
  {
    if rows == [] then []
    else PagePayloads(rows[..|rows| - 1], details) + RowPayloads(rows[|rows| - 1], details)
  }

  /** The rows of a fetched page, none when the crawl failed. */
  function PageRows(page: Option<seq<Article>>, today: Date): seq<SrpRow>
    requires ValidDate(today)
  {
    var crawled := CrawlPage(page, today);
    if crawled.Some? then crawled.value else []
  }

  /** Every page crawled on its own: a failed page gives no rows and does not
      affect the others. */
  function Crawl(pages: seq<Option<seq<Article>>>, today: Date): (r: seq<seq<SrpRow>>)
    requires ValidDate(today)
    ensures |r| == |pages|
    ensures forall i | 0 <= i < |pages| :: r[i] == PageRows(pages[i], today)
    ensures forall i | 0 <= i < |pages| && pages[i].None? :: r[i] == []
  {
    seq(|pages|, i requires 0 <= i < |pages| => PageRows(pages[i], today))
  }

  /** All upserts of a run, page by page, over the crawled pages. */
  function SyncPayloads(pages: seq<seq<SrpRow>>, details: map<string, seq<DetailItem>>): seq<Payload>
    decreases |pages|
  {
    if pages == [] then []
    else SyncPayloads(pages[..|pages| - 1], details) + PagePayloads(pages[|pages| - 1], details)
  }

  /** Rows counted as seen: the rows of every crawled page. */
  function SeenTotal(pages: seq<seq<SrpRow>>): nat
    decreases |pages|
  {
    if pages == [] then 0 else SeenTotal(pages[..|pages| - 1]) + |pages[|pages| - 1]|
  }

  function RowIds(rows: seq<SrpRow>): set<string> {
    set i | 0 <= i < |rows| :: rows[i].id
  }

  /** The ids of the rows of every crawled page. */
  function PageIds(pages: seq<seq<SrpRow>>): set<string>
    decreases |pages|
  {
    if pages == [] then {} else PageIds(pages[..|pages| - 1]) + RowIds(pages[|pages| - 1])
  }

  function Ids(ps: seq<Payload>): set<string> {
    set i | 0 <= i < |ps| :: ps[i].id
  }

  // ---------------------------------------------------------------------------
  // The store as a value, and a run of upserts
  // ---------------------------------------------------------------------------

  /** The store's table and price history, and the number of writes so far. */
  datatype Db = Db(rows: map<string, Row>, history: seq<PriceObs>, writes: nat)

  /** The effect of one upsert. */
  function Apply(db: Db, p: Payload, now: string): Db {
    Db(AfterUpsert(db.rows, p, now), db.history + Logged(db.rows, p, now),
       db.writes + if Writes(db.rows, p) then 1 else 0)
  }

  /** The effect of a run of upserts, in order: the `j`-th payload is
      written at `clock(k + j)`, the time its own statement reads. */
  function ApplyAll(db: Db, ps: seq<Payload>, clock: nat -> string, k: nat): Db
    decreases |ps|
  {
    if ps == [] then db
    else Apply(ApplyAll(db, ps[..|ps| - 1], clock, k), ps[|ps| - 1], clock(k + |ps| - 1))
  }

  /** Running two batches in a row is running their concatenation, the
      second batch reading the clock after the first. */
  lemma {:induction false} ApplyAllConcat(db: Db, a: seq<Payload>, b: seq<Payload>, clock: nat -> string, k: nat)
    ensures ApplyAll(db, a + b, clock, k) == ApplyAll(ApplyAll(db, a, clock, k), b, clock, k + |a|)
    decreases |b|
  {
    if b == [] {
      assert a + b == a;
    } else {
      var init, last := b[..|b| - 1], b[|b| - 1];
      assert (a + b)[..|a + b| - 1] == a + init;
      assert (a + b)[|a + b| - 1] == last;
      ApplyAllConcat(db, a, init, clock, k);
      var mid := ApplyAll(db, a, clock, k);
      var x := ApplyAll(db, a + init, clock, k);
      assert x == ApplyAll(mid, init, clock, k + |a|);
      var now := clock(k + |a| + |b| - 1);
      assert |a + b| == |a| + |b|;
      ApplyAllSnoc(db, a + b, clock, k);
      assert ApplyAll(db, a + b, clock, k) == Apply(x, last, now);
      ApplyAllSnoc(mid, b, clock, k + |a|);
      assert ApplyAll(mid, b, clock, k + |a|) == Apply(x, last, now);
    }
  }

  /** The last upsert of a run comes after the others. */
  lemma {:induction false} ApplyAllSnoc(db: Db, ps: seq<Payload>, clock: nat -> string, k: nat)
    requires ps != []
    ensures ApplyAll(db, ps, clock, k) == Apply(ApplyAll(db, ps[..|ps| - 1], clock, k), ps[|ps| - 1], clock(k + |ps| - 1))
  {
  }

  /** The clock after one more batch. */
  lemma {:induction false} TicksAdd(before: seq<Payload>, here: seq<Payload>, next: seq<Payload>, k: nat, t: nat, t': nat)
    requires next == before + here && t == k + |before| && t' == t + |here|
    ensures t' == k + |next|
  {
  }

  lemma {:induction false} ApplyAllOne(db: Db, p: Payload, clock: nat -> string, k: nat)
    ensures ApplyAll(db, [p], clock, k) == Apply(db, p, clock(k))
  {
    assert [p][..0] == [];
  }

  lemma {:induction false} ApplyAllTwo(db: Db, p: Payload, q: Payload, clock: nat -> string, k: nat)
    ensures ApplyAll(db, [p, q], clock, k) == Apply(Apply(db, p, clock(k)), q, clock(k + 1))
  {
    var ps := [p, q];
    assert ps[..1] == [p] && ps[1] == q;
    ApplyAllSnoc(db, ps, clock, k);
    ApplyAllOne(db, p, clock, k);
  }

  predicate AllWellFormed(ps: seq<Payload>) {
    forall i | 0 <= i < |ps| :: WellFormed(ps[i])
  }

  lemma IdsSnoc(ps: seq<Payload>)
    requires ps != []
    ensures Ids(ps) == Ids(ps[..|ps| - 1]) + {ps[|ps| - 1].id}
  {
    var init := ps[..|ps| - 1];
    forall x | x in Ids(ps)
      ensures x in Ids(init) + {ps[|ps| - 1].id}
    {
      var i :| 0 <= i < |ps| && ps[i].id == x;
      if i < |init| {
        assert init[i] == ps[i];
      }
    }
    forall x | x in Ids(init)
      ensures x in Ids(ps)
    {
      var i :| 0 <= i < |init| && init[i].id == x;
      assert ps[i] == init[i];
    }
  }

  /** A run of well-formed upserts keeps the rows valid and adds exactly the
      payloads' ids. */
  lemma {:induction false} ApplyAllKeys(db: Db, ps: seq<Payload>, clock: nat -> string, k: nat)
    requires RowsValid(db.rows) && AllWellFormed(ps)
    ensures RowsValid(ApplyAll(db, ps, clock, k).rows)
    ensures ApplyAll(db, ps, clock, k).rows.Keys == db.rows.Keys + Ids(ps)
    decreases |ps|
  {
    if ps != [] {
      var init, last := ps[..|ps| - 1], ps[|ps| - 1];
      assert AllWellFormed(init) by {
        forall i | 0 <= i < |init|
          ensures WellFormed(init[i])
        {
          assert init[i] == ps[i];
        }
      }
      ApplyAllKeys(db, init, clock, k);
      var prev := ApplyAll(db, init, clock, k);
      AfterUpsertKeepsRows(prev.rows, last, clock(k + |ps| - 1));
      IdsSnoc(ps);
    }
  }

  /** A run only appends to the history and writes at most once per payload. */
  lemma {:induction false} ApplyAllGrows(db: Db, ps: seq<Payload>, clock: nat -> string, k: nat)
    ensures db.history <= ApplyAll(db, ps, clock, k).history
    ensures db.writes <= ApplyAll(db, ps, clock, k).writes <= db.writes + |ps|
    decreases |ps|
  {
    if ps != [] {
      ApplyAllGrows(db, ps[..|ps| - 1], clock, k);
    }
  }

  // ---------------------------------------------------------------------------
  // Counting
  // ---------------------------------------------------------------------------

  lemma IdsConcat(a: seq<Payload>, b: seq<Payload>)
    ensures Ids(a + b) == Ids(a) + Ids(b)
  {
    forall x | x in Ids(a + b)
      ensures x in Ids(a) + Ids(b)
    {
      var i :| 0 <= i < |a + b| && (a + b)[i].id == x;
      if i >= |a| {
        assert b[i - |a|] == (a + b)[i];
      } else {
        assert a[i] == (a + b)[i];
      }
    }
    forall x | x in Ids(a)
      ensures x in Ids(a + b)
    {
      var i :| 0 <= i < |a| && a[i].id == x;
      assert (a + b)[i] == a[i];
    }
    forall x | x in Ids(b)
      ensures x in Ids(a + b)
    {
      var i :| 0 <= i < |b| && b[i].id == x;
      assert (a + b)[|a| + i] == b[i];
    }
  }

  lemma WellFormedConcat(a: seq<Payload>, b: seq<Payload>)
    requires AllWellFormed(a) && AllWellFormed(b)
    ensures AllWellFormed(a + b)
  {
    forall i | 0 <= i < |a + b|
      ensures WellFormed((a + b)[i])
    {
      if i >= |a| {
        assert (a + b)[i] == b[i - |a|];
      } else {
        assert (a + b)[i] == a[i];
      }
    }
  }

  lemma {:induction false} RowPayloadsWellFormed(row: SrpRow, details: map<string, seq<DetailItem>>)
    ensures AllWellFormed(RowPayloads(row, details))
    ensures Ids(RowPayloads(row, details)) == {row.id}
  {
    var det := Enrichment(row, details);
    if det != map[] {
      DetailPayloadWellFormed(row, det);
    }
    var rp := RowPayloads(row, details);
    assert rp[0].id == row.id;
  }

  lemma RowIdsSnoc(rows: seq<SrpRow>)
    requires rows != []
    ensures RowIds(rows) == RowIds(rows[..|rows| - 1]) + {rows[|rows| - 1].id}
  {
    var init := rows[..|rows| - 1];
    forall x | x in RowIds(rows)
      ensures x in RowIds(init) + {rows[|rows| - 1].id}
    {
      var i :| 0 <= i < |rows| && rows[i].id == x;
      if i < |init| {
        assert init[i] == rows[i];
      }
    }
    forall x | x in RowIds(init)
      ensures x in RowIds(rows)
    {
      var i :| 0 <= i < |init| && init[i].id == x;
      assert rows[i] == init[i];
    }
  }

  /** A page's rows cause between one and two upserts each. */
  lemma {:induction false} PagePayloadsLength(rows: seq<SrpRow>, details: map<string, seq<DetailItem>>)
    ensures |rows| <= |PagePayloads(rows, details)| <= 2 * |rows|
    decreases |rows|
  {
    if rows != [] {
      PagePayloadsLength(rows[..|rows| - 1], details);
    }
  }

  /** A page's upserts are well-formed and touch exactly the rows' ids. */
  lemma {:induction false} PagePayloadsIds(rows: seq<SrpRow>, details: map<string, seq<DetailItem>>)
    ensures AllWellFormed(PagePayloads(rows, details))
    ensures Ids(PagePayloads(rows, details)) == RowIds(rows)
    decreases |rows|
  {
    if rows != [] {
      var init, last := rows[..|rows| - 1], rows[|rows| - 1];
      PagePayloadsIds(init, details);
      var rp := RowPayloads(last, details);
      RowPayloadsWellFormed(last, details);
      WellFormedConcat(PagePayloads(init, details), rp);
      IdsConcat(PagePayloads(init, details), rp);
      RowIdsSnoc(rows);
    }
  }

  /** A run causes at most two upserts per seen row. */
  lemma {:induction false} SyncPayloadsLength(pages: seq<seq<SrpRow>>, details: map<string, seq<DetailItem>>)
    ensures SeenTotal(pages) <= |SyncPayloads(pages, details)| <= 2 * SeenTotal(pages)
    decreases |pages|
  {
    if pages != [] {
      SyncPayloadsLength(pages[..|pages| - 1], details);
      PagePayloadsLength(pages[|pages| - 1], details);
    }
  }

  /** A run's upserts are well-formed and touch exactly the ids of the rows
      it saw. */
  lemma {:induction false} SyncPayloadsIds(pages: seq<seq<SrpRow>>, details: map<string, seq<DetailItem>>)
    ensures AllWellFormed(SyncPayloads(pages, details))
    ensures Ids(SyncPayloads(pages, details)) == PageIds(pages)
    decreases |pages|
  {
    if pages != [] {
      var init, rows := pages[..|pages| - 1], pages[|pages| - 1];
      SyncPayloadsIds(init, details);
      PagePayloadsIds(rows, details);
      WellFormedConcat(SyncPayloads(init, details), PagePayloads(rows, details));
      IdsConcat(SyncPayloads(init, details), PagePayloads(rows, details));
    }
  }

  /** Pages are independent: the upserts of a run over two lists of pages are
      those of the first list followed by those of the second, so a page that
      failed (and crawled to no rows) does not stop the pages after it. */
  lemma {:induction false} SyncPayloadsConcat(a: seq<seq<SrpRow>>, b: seq<seq<SrpRow>>, details: map<string, seq<DetailItem>>)
    ensures SyncPayloads(a + b, details) == SyncPayloads(a, details) + SyncPayloads(b, details)
    decreases |b|
  {
    if |b| == 0 {
      assert a + b == a;
    } else {
      var init, last := b[..|b| - 1], b[|b| - 1];
      SyncPayloadsConcat(a, init, details);
      assert b == init + [last];
      SyncPayloadsAppendPage(a, init, last, details);
    }
  }

  lemma SyncPayloadsAppendPage(a: seq<seq<SrpRow>>, init: seq<seq<SrpRow>>, last: seq<SrpRow>, details: map<string, seq<DetailItem>>)
    requires SyncPayloads(a + init, details) == SyncPayloads(a, details) + SyncPayloads(init, details)
    ensures SyncPayloads(a + (init + [last]), details) == SyncPayloads(a, details) + SyncPayloads(init + [last], details)
  {
    var b := init + [last];
    var ab := a + b;
    assert ab[..|ab| - 1] == a + init;
    assert b[..|b| - 1] == init;
    SyncPayloadsUnfold(ab, details);
    SyncPayloadsUnfold(b, details);
    var x, y, z := SyncPayloads(a, details), SyncPayloads(init, details), PagePayloads(last, details);
    assert SyncPayloads(ab, details) == (x + y) + z;
    assert SyncPayloads(b, details) == y + z;
    ConcatAssoc(x, y, z);
  }

  lemma SyncPayloadsUnfold(pages: seq<seq<SrpRow>>, details: map<string, seq<DetailItem>>)
    requires |pages| > 0
    ensures SyncPayloads(pages, details) == SyncPayloads(pages[..|pages| - 1], details) + PagePayloads(pages[|pages| - 1], details)
  {
  }

  /** Crawling is page by page. */
  lemma CrawlConcat(a: seq<Option<seq<Article>>>, b: seq<Option<seq<Article>>>, today: Date)
    requires ValidDate(today)
    ensures Crawl(a + b, today) == Crawl(a, today) + Crawl(b, today)
  {
  }

  /** A page whose fetch failed contributes no upsert. */
  lemma FailedPageAddsNothing(details: map<string, seq<DetailItem>>, today: Date)
    requires ValidDate(today)
    ensures SyncPayloads(Crawl([None], today), details) == []
  {
    var one: seq<seq<SrpRow>> := Crawl([None], today);
    assert one[..0] == [];
  }

  lemma PagePayloadsSnoc(rows: seq<SrpRow>, j: nat, details: map<string, seq<DetailItem>>)
    requires j < |rows|
    ensures PagePayloads(rows[..j + 1], details) == PagePayloads(rows[..j], details) + RowPayloads(rows[j], details)
  {
    assert rows[..j + 1][..j] == rows[..j];
  }

  lemma SyncPayloadsSnoc(pages: seq<seq<SrpRow>>, i: nat, details: map<string, seq<DetailItem>>)
    requires i < |pages|
    ensures SyncPayloads(pages[..i + 1], details) == SyncPayloads(pages[..i], details) + PagePayloads(pages[i], details)
    ensures SeenTotal(pages[..i + 1]) == SeenTotal(pages[..i]) + |pages[i]|
  {
    assert pages[..i + 1][..i] == pages[..i];
  }

  // ---------------------------------------------------------------------------
  // sync_once
  // ---------------------------------------------------------------------------

  /** What one call of the store's upsert does, as a step of `Apply`. */
  lemma {:induction false} UpsertIsApply(rows0: map<string, Row>, h0: seq<PriceObs>, w: nat, p: Payload, now: string,
                      rows1: map<string, Row>, h1: seq<PriceObs>, c: nat)
    requires c <= 1 && (c == 1 <==> Writes(rows0, p))
    requires rows1 == AfterUpsert(rows0, p, now) && h1 == h0 + Logged(rows0, p, now)
    ensures Db(rows1, h1, w + c) == Apply(Db(rows0, h0, w), p, now)
  {
  }

  /** The upserts of a row, given its detail columns. */
  lemma RowPayloadsOf(row: SrpRow, details: map<string, seq<DetailItem>>, det: map<Column, Value>)
    requires det == Enrichment(row, details)
    ensures RowPayloads(row, details) == if det != map[] then [SrpPayload(row), DetailPayload(row, det)] else [SrpPayload(row)]
  {
  }

  /** SQLite's `datetime('now')` as the process sees it: every statement
      reads the time afresh, and `stamps(i)` is what the `i`-th statement
      reads; `ticks` counts the statements so far. */
  class DbClock {
    var ticks: nat
    const stamps: nat -> string

    constructor (stamps: nat -> string)
      ensures ticks == 0 && this.stamps == stamps
    {
      ticks := 0;
      this.stamps := stamps;
    }

    /** The time the next statement reads. */
    method Now() returns (t: string)
      modifies this
      ensures t == stamps(old(ticks)) && ticks == old(ticks) + 1
    {
      t := stamps(ticks);
      ticks := ticks + 1;
    }
  }

  /** One upsert at the time its statement reads, seen as a step of `Apply`. */
  method UpsertStep(store: ListingStore, clock: DbClock, p: Payload, ghost db: Db) returns (c: nat, now: string)
    requires store.Valid() && WellFormed(p) && db.rows == store.rows && db.history == store.history
    modifies store, clock
    ensures store.Valid()
    ensures now == clock.stamps(old(clock.ticks)) && clock.ticks == old(clock.ticks) + 1
    ensures Db(store.rows, store.history, db.writes + c) == Apply(db, p, now)
  {
    now := clock.Now();
    c := store.Upsert(p, now);
    UpsertIsApply(db.rows, db.history, db.writes, p, now, store.rows, store.history, c);
  }

  /** Upserts one result-list row, then, when the row has a url whose detail
      page was fetched and gave some column, its enrichment; `c` is the
      number of writes this row adds. */
  method StoreRow(store: ListingStore, clock: DbClock, row: SrpRow, details: map<string, seq<DetailItem>>, ghost db0: Db)
    returns (c: nat)
    requires store.Valid() && db0.rows == store.rows && db0.history == store.history
    modifies store, clock
    ensures store.Valid()
    ensures Db(store.rows, store.history, db0.writes + c)
         == ApplyAll(db0, RowPayloads(row, details), clock.stamps, old(clock.ticks))
    ensures clock.ticks == old(clock.ticks) + |RowPayloads(row, details)|
  {
    ghost var k := clock.ticks;
    var srp := SrpPayload(row);
    var now;
    c, now := UpsertStep(store, clock, srp, db0);
    ghost var db1 := Db(store.rows, store.history, db0.writes + c);
    var det := Enrich(row, details);
    var c2, now2 := StoreDetail(store, clock, row, det, db1);
    c := c + c2;
    RowApplied(db0, row, details, det, clock.stamps, k, clock.ticks, now, now2, db1, Db(store.rows, store.history, db0.writes + c));
  }

  /** The two steps of `StoreRow` together are the row's run of upserts. */
  lemma {:induction false} RowApplied(db0: Db, row: SrpRow, details: map<string, seq<DetailItem>>, det: map<Column, Value>,
                   clock: nat -> string, k: nat, t: nat, now: string, now2: string, db1: Db, db2: Db)
    requires det == Enrichment(row, details)
    requires t == k + if det != map[] then 2 else 1
    requires now == clock(k) && db1 == Apply(db0, SrpPayload(row), now)
    requires det != map[] ==> now2 == clock(k + 1) && db2 == Apply(db1, DetailPayload(row, det), now2)
    requires det == map[] ==> db2 == db1
    ensures db2 == ApplyAll(db0, RowPayloads(row, details), clock, k)
    ensures t == k + |RowPayloads(row, details)|
  {
    ApplyRow(db0, row, details, det, clock, k);
    RowPayloadsOf(row, details, det);
  }

  /** The detail columns of a row: those of its detail page when it has a
      url whose page was fetched, none otherwise. */
  method Enrich(row: SrpRow, details: map<string, seq<DetailItem>>) returns (det: map<Column, Value>)
    ensures det == Enrichment(row, details)
  {
    det := map[];
    if row.url != "" && row.url in details {
      det := ParseDetail(details[row.url]);
    }
  }

  /** Upserts the enrichment of a row when there are detail columns. */
  method StoreDetail(store: ListingStore, clock: DbClock, row: SrpRow, det: map<Column, Value>, ghost db: Db)
    returns (c: nat, now: string)
    requires store.Valid() && db.rows == store.rows && db.history == store.history
    requires forall k | k in det :: IsData(k)
    modifies store, clock
    ensures store.Valid()
    ensures det != map[] ==>
      now == clock.stamps(old(clock.ticks)) && clock.ticks == old(clock.ticks) + 1
      && Db(store.rows, store.history, db.writes + c) == Apply(db, DetailPayload(row, det), now)
    ensures det == map[] ==> c == 0 && store.rows == db.rows && store.history == db.history && clock.ticks == old(clock.ticks)
  {
    c, now := 0, "";
    if det != map[] {
      var dp := DetailPayload(row, det);
      DetailPayloadWellFormed(row, det);
      c, now := UpsertStep(store, clock, dp, db);
    }
  }

  /** A row's upserts applied in turn: the row itself, then its enrichment
      when there is one, each at its own reading of the clock. */
  lemma {:induction false} ApplyRow(db: Db, row: SrpRow, details: map<string, seq<DetailItem>>, det: map<Column, Value>,
                 clock: nat -> string, k: nat)
    requires det == Enrichment(row, details)
    ensures det != map[] ==> ApplyAll(db, RowPayloads(row, details), clock, k)
                             == Apply(Apply(db, SrpPayload(row), clock(k)), DetailPayload(row, det), clock(k + 1))
    ensures det == map[] ==> ApplyAll(db, RowPayloads(row, details), clock, k) == Apply(db, SrpPayload(row), clock(k))
  {
    RowPayloadsOf(row, details, det);
    if det != map[] {
      ApplyAllTwo(db, SrpPayload(row), DetailPayload(row, det), clock, k);
    } else {
      ApplyAllOne(db, SrpPayload(row), clock, k);
    }
  }

  /** Stores the rows of one crawled page in order. */
  method SyncPage(store: ListingStore, clock: DbClock, rows: seq<SrpRow>, details: map<string, seq<DetailItem>>, ghost db0: Db)
    returns (c: nat)
    requires store.Valid() && db0.rows == store.rows && db0.history == store.history
    modifies store, clock
    ensures store.Valid()
    ensures Db(store.rows, store.history, db0.writes + c)
         == ApplyAll(db0, PagePayloads(rows, details), clock.stamps, old(clock.ticks))
    ensures clock.ticks == old(clock.ticks) + |PagePayloads(rows, details)|
  {
    ghost var w := db0.writes;
    ghost var k := clock.ticks;
    ghost var st := clock.stamps;
    c := 0;
    for j := 0 to |rows|
      invariant store.Valid() && clock.stamps == st
      invariant Db(store.rows, store.history, w + c) == ApplyAll(db0, PagePayloads(rows[..j], details), st, k)
      invariant clock.ticks == k + |PagePayloads(rows[..j], details)|
    {
      var cj := StoreRowAt(store, clock, rows, j, details, db0, k, c);
      c := c + cj;
    }
    assert rows[..|rows|] == rows;
  }

  /** Row `j` of a page stored after the rows before it: the run continues. */
  method StoreRowAt(store: ListingStore, clock: DbClock, rows: seq<SrpRow>, j: nat, details: map<string, seq<DetailItem>>,
                    ghost db0: Db, ghost k: nat, ghost c0: nat)
    returns (cj: nat)
    requires j < |rows| && store.Valid()
    requires Db(store.rows, store.history, db0.writes + c0) == ApplyAll(db0, PagePayloads(rows[..j], details), clock.stamps, k)
    requires clock.ticks == k + |PagePayloads(rows[..j], details)|
    modifies store, clock
    ensures store.Valid()
    ensures Db(store.rows, store.history, db0.writes + c0 + cj)
         == ApplyAll(db0, PagePayloads(rows[..j + 1], details), clock.stamps, k)
    ensures clock.ticks == k + |PagePayloads(rows[..j + 1], details)|
  {
    ghost var mid := Db(store.rows, store.history, db0.writes + c0);
    ghost var t0 := clock.ticks;
    cj := StoreRow(store, clock, rows[j], details, mid);
    ghost var after := Db(store.rows, store.history, db0.writes + c0 + cj);
    RowStep(db0, rows, j, details, clock.stamps, k, t0, clock.ticks, mid, after);
  }

  /** The run over a page's first `j + 1` rows is the run over its first `j`
      rows followed by the upserts of row `j`. */
  lemma {:induction false} RowStep(db0: Db, rows: seq<SrpRow>, j: nat, details: map<string, seq<DetailItem>>,
                                   clock: nat -> string, k: nat, t0: nat, t1: nat, mid: Db, after: Db)
    requires j < |rows|
    requires mid == ApplyAll(db0, PagePayloads(rows[..j], details), clock, k)
    requires t0 == k + |PagePayloads(rows[..j], details)|
    requires after == ApplyAll(mid, RowPayloads(rows[j], details), clock, t0)
    requires t1 == t0 + |RowPayloads(rows[j], details)|
    ensures after == ApplyAll(db0, PagePayloads(rows[..j + 1], details), clock, k)
    ensures t1 == k + |PagePayloads(rows[..j + 1], details)|
  {
    PagePayloadsSnoc(rows, j, details);
    var before, here, next := PagePayloads(rows[..j], details), RowPayloads(rows[j], details), PagePayloads(rows[..j + 1], details);
    ApplyAllConcat(db0, before, here, clock, k);
    TicksAdd(before, here, next, k, t0, t1);
  }

  /** The run over the first `i + 1` pages is the run over the first `i`
      pages followed by the upserts of page `i`. */
  lemma {:induction false} PageStep(db0: Db, crawled: seq<seq<SrpRow>>, i: nat, details: map<string, seq<DetailItem>>,
                                    clock: nat -> string, k: nat, t0: nat, t1: nat, mid: Db, after: Db)
    requires i < |crawled|
    requires mid == ApplyAll(db0, SyncPayloads(crawled[..i], details), clock, k)
    requires t0 == k + |SyncPayloads(crawled[..i], details)|
    requires after == ApplyAll(mid, PagePayloads(crawled[i], details), clock, t0)
    requires t1 == t0 + |PagePayloads(crawled[i], details)|
    ensures after == ApplyAll(db0, SyncPayloads(crawled[..i + 1], details), clock, k)
    ensures t1 == k + |SyncPayloads(crawled[..i + 1], details)|
  {
    SyncPayloadsSnoc(crawled, i, details);
    var before, here, next := SyncPayloads(crawled[..i], details), PagePayloads(crawled[i], details), SyncPayloads(crawled[..i + 1], details);
    ApplyAllConcat(db0, before, here, clock, k);
    TicksAdd(before, here, next, k, t0, t1);
  }

  /** Crawls one fetched result page and stores its rows; a page that
      could not be crawled stores nothing. `n` is the number of rows seen. */
  method SyncFetched(store: ListingStore, clock: DbClock, fetched: Option<seq<Article>>, today: Date,
                     details: map<string, seq<DetailItem>>, ghost db0: Db)
    returns (n: nat, c: nat)
    requires store.Valid() && ValidDate(today) && db0.rows == store.rows && db0.history == store.history
    modifies store, clock
    ensures store.Valid()
    ensures n == |PageRows(fetched, today)|
    ensures Db(store.rows, store.history, db0.writes + c)
         == ApplyAll(db0, PagePayloads(PageRows(fetched, today), details), clock.stamps, old(clock.ticks))
    ensures clock.ticks == old(clock.ticks) + |PagePayloads(PageRows(fetched, today), details)|
  {
    var page := CrawlPage(fetched, today);
    if page.Some? {
      n := |page.value|;
      c := SyncPage(store, clock, page.value, details, db0);
    } else {
      n, c := 0, 0;
      assert PageRows(fetched, today) == [];
      assert PagePayloads([], details) == [];
    }
  }

  /** Runs every result page in order (in the deployment, the two pages of
      the configured search), upserting each row and then its enrichment,
      every statement at its own reading of the clock; `seen` counts the
      rows of the pages that could be crawled and `stored` the upserts that
      wrote. */
  method SyncOnce(store: ListingStore, clock: DbClock, pages: seq<Option<seq<Article>>>,
                  details: map<string, seq<DetailItem>>, today: Date)
    returns (seen: nat, stored: nat)
    requires store.Valid() && ValidDate(today)
    modifies store, clock
    ensures store.Valid()
    ensures seen == SeenTotal(Crawl(pages, today))
    ensures Db(store.rows, store.history, stored)
         == ApplyAll(Db(old(store.rows), old(store.history), 0), SyncPayloads(Crawl(pages, today), details),
                     clock.stamps, old(clock.ticks))
    ensures clock.ticks == old(clock.ticks) + |SyncPayloads(Crawl(pages, today), details)|
    ensures stored <= 2 * seen
    ensures store.rows.Keys == old(store.rows).Keys + PageIds(Crawl(pages, today))
    ensures old(store.history) <= store.history
  {
    ghost var db0 := Db(store.rows, store.history, 0);
    ghost var k := clock.ticks;
    ghost var st := clock.stamps;
    ghost var crawled := Crawl(pages, today);
    seen, stored := 0, 0;
    for i := 0 to |pages|
      invariant store.Valid() && clock.stamps == st
      invariant seen == SeenTotal(crawled[..i])
      invariant Db(store.rows, store.history, stored) == ApplyAll(db0, SyncPayloads(crawled[..i], details), st, k)
      invariant clock.ticks == k + |SyncPayloads(crawled[..i], details)|
    {
      SyncPayloadsSnoc(crawled, i, details);
      ghost var mid := Db(store.rows, store.history, stored);
      ghost var t0 := clock.ticks;
      var n, c := SyncFetched(store, clock, pages[i], today, details, mid);
      seen, stored := seen + n, stored + c;
      PageStep(db0, crawled, i, details, st, k, t0, clock.ticks, mid, Db(store.rows, store.history, stored));
    }
    assert crawled[..|pages|] == crawled;
    SyncEffects(db0, crawled, details, st, k);
  }

  /** What a whole sync does to the store, whatever times its statements
      read: at most two writes per seen listing, exactly the seen ids added
      to the keys, the history only appended to. */
  lemma SyncEffects(db0: Db, crawled: seq<seq<SrpRow>>, details: map<string, seq<DetailItem>>, clock: nat -> string, k: nat)
    requires RowsValid(db0.rows) && db0.writes == 0
    ensures var db := ApplyAll(db0, SyncPayloads(crawled, details), clock, k);
      db.writes <= 2 * SeenTotal(crawled) && db.rows.Keys == db0.rows.Keys + PageIds(crawled)
      && db0.history <= db.history
  {
    SyncPayloadsLength(crawled, details);
    SyncPayloadsIds(crawled, details);
    ApplyAllKeys(db0, SyncPayloads(crawled, details), clock, k);
    ApplyAllGrows(db0, SyncPayloads(crawled, details), clock, k);
  }
}
