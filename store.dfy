/** The listings table and its append-only price history, and the
    conditional upsert that every scraper write goes through. */
module Store {
  import opened Common

  /** A column value as SQLite holds it. */
  datatype Value = Null | Int(i: int) | Text(s: string)

  /** The columns of the listings table, including the two added by migration. */
  datatype Column =
    | Id | Platform | Url | Title | PriceEur | Km | EzText | Location | PostalCode
    | City | PostedAt | Pics | FirstSeen | LastSeen | Status | Brand | Model | Fuel
    | PowerPs | Gearbox | Doors | HuUntil | EmissionClass | Color | Upholstery
    | FirstReg | Description | ImageUrlsJson

  /** Columns whose NULL compares as -1; every other column's NULL compares as ''. */
  predicate IsNumeric(c: Column) {
    c == PriceEur || c == Km || c == Pics || c == PowerPs
  }

  /** The columns a payload may carry: all but `id`, which the payload carries
      separately, and `first_seen`, `last_seen` and `status`, which the store
      maintains itself. */
  predicate IsData(c: Column) {
    !(c == Id || c == FirstSeen || c == LastSeen || c == Status)
  }

  /** One stored listing; a column that was never written reads as NULL. */
  type Row = map<Column, Value>

  function Get(row: Row, c: Column): Value {
    if c in row then row[c] else Null
  }

  /** What a caller hands to the upsert: the mandatory ad id and any subset of
      the other columns. */
  datatype Payload = Payload(id: string, fields: map<Column, Value>)

  /** The statement the upsert builds only parses when at least one column
      besides id is supplied (otherwise its WHERE clause is empty), and only
      runs when every supplied column exists. */
  predicate WellFormed(p: Payload) {
    p.fields.Keys != {} && forall c | c in p.fields :: IsData(c)
  }

    datatype PriceObs = PriceObs(listingId: string, price: Value, seenAt: string)

  /** `COALESCE(v, -1)` for the numeric columns, `COALESCE(v, '')` otherwise. */
  function Coalesce(c: Column, v: Value): (r: Value)
    ensures r != Null
    ensures v != Null ==> r == v
  {
    if v != Null then v else if IsNumeric(c) then Int(-1) else Text("")
  }

  /** One disjunct of the update's WHERE clause. */
  predicate Differs(c: Column, stored: Value, supplied: Value) {
    Coalesce(c, stored) != Coalesce(c, supplied)
  }

  predicate AnyDiffers(row: Row, fields: map<Column, Value>) {
    exists c | c in fields :: Differs(c, Get(row, c), fields[c])
  }

  /** The statement writes a row: an insert, or an update whose WHERE holds. */
  predicate Writes(rows: map<string, Row>, p: Payload) {
    p.id !in rows || AnyDiffers(rows[p.id], p.fields)
  }

  function InsertedRow(p: Payload, now: string): Row {
    p.fields + map[Id := Text(p.id), FirstSeen := Text(now), LastSeen := Text(now), Status := Text("active")]
  }

  function UpdatedRow(row: Row, p: Payload, now: string): Row {
    row + p.fields + map[LastSeen := Text(now)]
  }

  /** The bookkeeping columns of a freshly inserted row. */
  lemma InsertedBookkeeping(p: Payload, now: string)
    requires WellFormed(p)
    ensures Get(InsertedRow(p, now), Id) == Text(p.id)
    ensures Get(InsertedRow(p, now), FirstSeen) == Text(now)
    ensures forall c | c in p.fields :: Get(InsertedRow(p, now), c) == p.fields[c]
  {
  }

  /** An update leaves id, first_seen and status alone. */
  lemma UpdatedBookkeeping(row: Row, p: Payload, now: string)
    requires WellFormed(p)
    ensures Get(UpdatedRow(row, p, now), Id) == Get(row, Id)
    ensures Get(UpdatedRow(row, p, now), FirstSeen) == Get(row, FirstSeen)
    ensures Get(UpdatedRow(row, p, now), Status) == Get(row, Status)
    ensures forall c | c in p.fields :: Get(UpdatedRow(row, p, now), c) == p.fields[c]
  {
  }

  /** The table after the INSERT ... ON CONFLICT DO UPDATE ... WHERE statement. */
  function AfterUpsert(rows: map<string, Row>, p: Payload, now: string): map<string, Row> {
    if p.id !in rows then rows[p.id := InsertedRow(p, now)]
    else if AnyDiffers(rows[p.id], p.fields) then rows[p.id := UpdatedRow(rows[p.id], p, now)]
    else rows
  }

  /** Every row is filed under its own id and carries its creation stamp. */
  ghost predicate RowsValid(rows: map<string, Row>) {
    forall id | id in rows :: Get(rows[id], Id) == Text(id) && Get(rows[id], FirstSeen).Text?
  }

  /** The upsert keeps the rows valid, adds exactly the payload's id and
      never moves a row's creation stamp. */
  lemma AfterUpsertKeepsRows(rows: map<string, Row>, p: Payload, now: string)
    requires WellFormed(p) && RowsValid(rows)
    ensures RowsValid(AfterUpsert(rows, p, now))
    ensures AfterUpsert(rows, p, now).Keys == rows.Keys + {p.id}
    ensures forall id | id in rows :: Get(AfterUpsert(rows, p, now)[id], FirstSeen) == Get(rows[id], FirstSeen)
  {
    if p.id !in rows {
      InsertedBookkeeping(p, now);
    } else if AnyDiffers(rows[p.id], p.fields) {
      UpdatedBookkeeping(rows[p.id], p, now);
    }
  }

  /** The history condition as the code tests it, on the table after the write:
      a non-null price was supplied, the stored price now equals it, and the
      statement wrote. */
  predicate LogsPriceAsWritten(after: map<string, Row>, p: Payload, changed: bool) {
    && PriceEur in p.fields && p.fields[PriceEur] != Null
    && p.id in after && Get(after[p.id], PriceEur) == p.fields[PriceEur]
    && changed
  }

  /** The price observation an upsert into `rows` appends, if any. */
  function Logged(rows: map<string, Row>, p: Payload, now: string): seq<PriceObs> {
    if LogsPriceAsWritten(AfterUpsert(rows, p, now), p, Writes(rows, p)) then [PriceObs(p.id, p.fields[PriceEur], now)] else []
  }

  class ListingStore {
    var rows: map<string, Row>
    var history: seq<PriceObs>

    /** See RowsValid. */
    ghost predicate Valid()
      reads this
    {
      RowsValid(rows)
    }

    constructor ()
      ensures Valid() && rows == map[] && history == []
    {
      rows := map[];
      history := [];
    }

    /** Insert the listing, or update the supplied columns when one of them
        differs; bump last_seen on every write; append a price observation
        under the condition the code tests. Returns 1 when it wrote, else 0. */
    method Upsert(p: Payload, now: string) returns (changed: nat)
      requires Valid() && WellFormed(p)
      modifies this
      ensures Valid()
      ensures changed <= 1
      ensures changed == 1 <==> Writes(old(rows), p)
      ensures rows == AfterUpsert(old(rows), p, now)
      ensures rows.Keys == old(rows).Keys + {p.id}
      ensures forall id | id in old(rows) :: Get(rows[id], FirstSeen) == Get(old(rows)[id], FirstSeen)
      ensures history == old(history) + Logged(old(rows), p, now)
    {
      AfterUpsertKeepsRows(rows, p, now);
      changed := WriteRow(p, now);
      LogPrice(p, now, changed == 1);
    }

    /** The INSERT ... ON CONFLICT DO UPDATE statement: says whether it wrote. */
    method WriteRow(p: Payload, now: string) returns (changed: nat)
      modifies this
      ensures changed <= 1 && (changed == 1 <==> Writes(old(rows), p))
      ensures rows == AfterUpsert(old(rows), p, now) && history == old(history)
    {
      if p.id !in rows {
        rows := rows[p.id := InsertedRow(p, now)];
        changed := 1;
      } else if AnyDiffers(rows[p.id], p.fields) {
        rows := rows[p.id := UpdatedRow(rows[p.id], p, now)];
        changed := 1;
      } else {
        changed := 0;
      }
    }

    /** The price-history insert that follows a write. */
    method LogPrice(p: Payload, now: string, wrote: bool)
      modifies this
      ensures rows == old(rows)
      ensures history == old(history)
        + (if LogsPriceAsWritten(rows, p, wrote) then [PriceObs(p.id, p.fields[PriceEur], now)] else [])
    {
      if PriceEur in p.fields && p.fields[PriceEur] != Null && p.id in rows {
        var current := Get(rows[p.id], PriceEur);
        if current == p.fields[PriceEur] && wrote {
          history := history + [PriceObs(p.id, p.fields[PriceEur], now)];
        }
      }
    }
  }

  // ---------------------------------------------------------------------------
  // What the upsert promises
  // ---------------------------------------------------------------------------

  /** An unknown id is inserted with the supplied columns, NULL in the others,
      both timestamps set to now and status 'active'. */
  lemma InsertUnknown(rows: map<string, Row>, p: Payload, now: string)
    requires WellFormed(p) && p.id !in rows
    ensures Writes(rows, p)
    ensures var r := AfterUpsert(rows, p, now)[p.id];
      && Get(r, Id) == Text(p.id)
      && (forall c | c in p.fields :: Get(r, c) == p.fields[c])
      && (forall c | IsData(c) && c !in p.fields :: Get(r, c) == Null)
      && Get(r, FirstSeen) == Text(now) && Get(r, LastSeen) == Text(now)
      && Get(r, Status) == Text("active")
  {
    assert AfterUpsert(rows, p, now)[p.id] == InsertedRow(p, now);
    InsertedRowColumns(p, now);
  }

  lemma InsertedRowColumns(p: Payload, now: string)
    requires WellFormed(p)
    ensures var r := InsertedRow(p, now);
      && Get(r, Id) == Text(p.id)
      && (forall c | c in p.fields :: Get(r, c) == p.fields[c])
      && (forall c | IsData(c) && c !in p.fields :: Get(r, c) == Null)
      && Get(r, FirstSeen) == Text(now) && Get(r, LastSeen) == Text(now)
      && Get(r, Status) == Text("active")
  {
  }

  /** A known id whose supplied columns all equal the stored ones (NULL read as
      the sentinel) is left alone. */
  lemma {:induction false} NoDifferenceNoWrite(rows: map<string, Row>, p: Payload, now: string)
    requires p.id in rows
    requires forall c | c in p.fields :: Coalesce(c, Get(rows[p.id], c)) == Coalesce(c, p.fields[c])
    ensures !Writes(rows, p)
    ensures AfterUpsert(rows, p, now) == rows
  {
  }

  /** A known id with some differing column gets exactly the supplied columns
      overwritten and last_seen set to now; id, first_seen, status and every
      other column keep their values. */
  lemma UpdateOverwrites(rows: map<string, Row>, p: Payload, now: string, c: Column)
    requires WellFormed(p) && p.id in rows && AnyDiffers(rows[p.id], p.fields)
    ensures Writes(rows, p)
    ensures var r, r0 := AfterUpsert(rows, p, now)[p.id], rows[p.id];
      && Get(r, LastSeen) == Text(now)
      && (c in p.fields ==> Get(r, c) == p.fields[c])
      && (c !in p.fields && c != LastSeen ==> Get(r, c) == Get(r0, c))
  {
    assert AfterUpsert(rows, p, now)[p.id] == UpdatedRow(rows[p.id], p, now);
    UpdatedRowColumn(rows[p.id], p, now, c);
  }

  lemma UpdatedRowColumn(r0: Row, p: Payload, now: string, c: Column)
    requires WellFormed(p)
    ensures var r := UpdatedRow(r0, p, now);
      && Get(r, LastSeen) == Text(now)
      && (c in p.fields ==> Get(r, c) == p.fields[c])
      && (c !in p.fields && c != LastSeen ==> Get(r, c) == Get(r0, c))
  {
  }

  /** The code's history condition (stored price equals the supplied one, and
      the statement wrote) holds exactly when the statement wrote and a
      non-null price was supplied: the equality test never filters anything. */
  lemma {:induction false} PriceLoggedIffWriteWithPrice(rows: map<string, Row>, p: Payload, now: string)
    requires WellFormed(p)
    ensures LogsPriceAsWritten(AfterUpsert(rows, p, now), p, Writes(rows, p))
      <==> Writes(rows, p) && PriceEur in p.fields && p.fields[PriceEur] != Null
  {
    if Writes(rows, p) && PriceEur in p.fields && p.fields[PriceEur] != Null {
      var r := AfterUpsert(rows, p, now)[p.id];
      assert PriceEur !in map[Id := Text(p.id), FirstSeen := Text(now), LastSeen := Text(now), Status := Text("active")];
      assert Get(r, PriceEur) == p.fields[PriceEur];
    }
  }

  /** A title-only change re-logs the unchanged price. */
  lemma TitleChangeRelogsUnchangedPrice()
    ensures var rows := map["a1" := map[Id := Text("a1"), Title := Text("Golf"), PriceEur := Int(10000)]];
      var p := Payload("a1", map[Title := Text("Golf GTI"), PriceEur := Int(10000)]);
      && Writes(rows, p)
      && LogsPriceAsWritten(AfterUpsert(rows, p, "t1"), p, true)
  {
    var rows := map["a1" := map[Id := Text("a1"), Title := Text("Golf"), PriceEur := Int(10000)]];
    var p := Payload("a1", map[Title := Text("Golf GTI"), PriceEur := Int(10000)]);
    assert Differs(Title, Get(rows["a1"], Title), p.fields[Title]);
    PriceLoggedIffWriteWithPrice(rows, p, "t1");
  }

  /** The sentinel conflates NULL with -1 (and with ''): supplying -1 for a
      NULL numeric column does not count as a change. */
  lemma SentinelConflatesNull()
    ensures var rows := map["a1" := map[Id := Text("a1"), Km := Null]];
      !Writes(rows, Payload("a1", map[Km := Int(-1)]))
  {
  }

  /** Applying the same payload twice: the second application does not write,
      so it returns 0, leaves the table as it is and appends no price row. */
  lemma {:induction false} UpsertIdempotent(rows: map<string, Row>, p: Payload, now: string, later: string)
    requires WellFormed(p)
    ensures !Writes(AfterUpsert(rows, p, now), p)
    ensures AfterUpsert(AfterUpsert(rows, p, now), p, later) == AfterUpsert(rows, p, now)
    ensures !LogsPriceAsWritten(AfterUpsert(rows, p, now), p, Writes(AfterUpsert(rows, p, now), p))
  {
    var after := AfterUpsert(rows, p, now);
    var r := after[p.id];
    forall c | c in p.fields
      ensures !Differs(c, Get(r, c), p.fields[c])
    {
      assert IsData(c);
    }
    assert !AnyDiffers(r, p.fields);
  }
}
