/** The `/api/sync` endpoint: a light sync of the store, guarded against
    repeated calls by a cooldown and against overlapping ones by a lock
    that is only tried, never waited for. */
module Guard {
  import opened Common
  import opened Store
  import opened Scrape
  import opened Sync

  /** Seconds after the end of a sync during which calls do nothing. */
  const Cooldown: real := 8.0

  /** The JSON answer: `ok`, `seen`, `stored`, `changed`. */
  datatype SyncAnswer = SyncAnswer(ok: bool, seen: nat, stored: nat, changed: bool)

  /** The answer of a call turned away by the cooldown or the lock. */
  const Idle := SyncAnswer(true, 0, 0, false)

  /** A call at `now` falls inside the cooldown of the sync that ended at `last`. */
  predicate CoolingDown(now: real, last: real) {
    now - last < Cooldown
  }

  /** The answer of a sync that saw `seen` listings and wrote `stored` times:
      it reports a change exactly when something was written. */
  function Answer(seen: nat, stored: nat): (a: SyncAnswer)
    ensures a.ok && a.seen == seen && a.stored == stored
    ensures a.changed <==> stored > 0
    ensures a == Idle <==> seen == 0 && stored == 0
  {
    SyncAnswer(true, seen, stored, stored > 0)
  }

  /** The module state behind the endpoint: the time the last sync ended,
      the lock, and the store it writes to. */
  class SyncGuard {
    var lastTs: real
    var locked: bool
    const store: ListingStore

    constructor (store: ListingStore)
      ensures lastTs == 0.0 && !locked && this.store == store
    {
      lastTs := 0.0;
      locked := false;
      this.store := store;
    }

    /** `acquire(blocking=False)`: takes the lock when it is free and says
        whether it did. */
    method TryAcquire() returns (got: bool)
      modifies this
      ensures got <==> !old(locked)
      ensures locked && lastTs == old(lastTs)
    {
      got := !locked;
      locked := true;
    }

    /** `release()`. */
    method Release()
      requires locked
      modifies this
      ensures !locked && lastTs == old(lastTs)
    {
      locked := false;
    }

    /** One call of the endpoint at monotonic time `now`; `finished` is the
        monotonic time read once the sync is done, `clock` the database's
        clock, and the other arguments are what the sync reads from the
        site. A call inside the cooldown or while another sync holds the
        lock answers zero and changes nothing; otherwise it syncs once,
        records when the sync ended and reports what it did. The lock is
        left as the call found it. */
    method ApiSync(now: real, finished: real, clock: DbClock, pages: seq<Option<seq<Article>>>,
                   details: map<string, seq<DetailItem>>, today: Date)
      returns (a: SyncAnswer)
      requires store.Valid() && ValidDate(today) && now <= finished
      modifies this, store, clock
      ensures store.Valid()
      ensures locked == old(locked)
      ensures CoolingDown(now, old(lastTs)) || old(locked) ==>
        a == Idle && lastTs == old(lastTs)
        && store.rows == old(store.rows) && store.history == old(store.history)
        && clock.ticks == old(clock.ticks)
      ensures !CoolingDown(now, old(lastTs)) && !old(locked) ==>
        lastTs == finished && a.seen == SeenTotal(Crawl(pages, today))
        && a == Answer(a.seen, a.stored)
        && Db(store.rows, store.history, a.stored)
           == ApplyAll(Db(old(store.rows), old(store.history), 0), SyncPayloads(Crawl(pages, today), details),
                       clock.stamps, old(clock.ticks))
    {
      if CoolingDown(now, lastTs) {
        return Idle;
      }
      var got := TryAcquire();
      if !got {
        return Idle;
      }
      var seen, stored := SyncOnce(store, clock, pages, details, today);
      lastTs := finished;
      a := Answer(seen, stored);
      Release();
    }
  }
}
