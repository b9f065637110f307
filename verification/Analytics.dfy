/** The analytics consumer: the inbox row and the rollup change in one commit. */
module Analytics {
  import opened Rows

  datatype StatKey = StatKey(currency: string, kind: TxnType)

  datatype Stat = Stat(count: int, total: int)

  function KeyFor(m: Payload): StatKey {
    StatKey(m.currency, m.kind)
  }

  function StatOf(stats: map<StatKey, Stat>, key: StatKey): Stat {
    if key in stats then stats[key] else Stat(0, 0)
  }

  function Counted(s: Stat, amount: int): Stat {
    Stat(s.count + 1, s.total + amount)
  }

  function Incremented(stats: map<StatKey, Stat>, key: StatKey, amount: int): map<StatKey, Stat> {
    stats[key := Counted(StatOf(stats, key), amount)]
  }

  /** Both columns are BIGINT. */
  predicate StatRowOk(s: Stat) {
    s.count <= BIGINT_MAX && s.total <= BIGINT_MAX
  }

  /** The committed inbox and rollup. `inbox` holds the transaction ids recorded for this consumer. */
  datatype Rollup = Rollup(inbox: set<TxnId>, stats: map<StatKey, Stat>)

  /** The effect of one successful handler run. */
  function Absorb(r: Rollup, m: Payload): Rollup {
    if m.txn in r.inbox then r else Rollup(r.inbox + {m.txn}, Incremented(r.stats, KeyFor(m), m.amount))
  }

  /** The row of the message's key still fits its columns afterwards. */
  predicate AbsorbFits(r: Rollup, m: Payload) {
    m.txn in r.inbox || StatRowOk(Counted(StatOf(r.stats, KeyFor(m)), m.amount))
  }

  datatype Handled = Applied | Duplicate | Raised

  class AnalyticsSession {
    var committed: Rollup
    var work: Rollup

    constructor (r: Rollup)
      ensures committed == work == r
    {
      committed, work := r, r;
    }
  }

  class TransactionStatRepository {
    const db: AnalyticsSession

    constructor (db: AnalyticsSession)
      ensures this.db == db
    {
      this.db := db;
    }

    method Increment(currency: string, kind: TxnType, amount: int) returns (ok: bool)
      modifies db`work
      ensures var key, was := StatKey(currency, kind), old(db.work.stats);
        var count := (if key in was then was[key].count else 0) + 1;
        var total := (if key in was then was[key].total else 0) + amount;
        && (ok <==> count <= 9_223_372_036_854_775_807 && total <= 9_223_372_036_854_775_807)
        && db.work == if ok then old(db.work).(stats := was[key := Stat(count, total)]) else old(db.work)
    {
      var key := StatKey(currency, kind);
      var stat := Stat(0, 0);
      if key in db.work.stats {
        stat := db.work.stats[key];
      }
      stat := stat.(count := stat.count + 1);
      stat := stat.(total := stat.total + amount);
      ok := StatRowOk(stat);
      if ok {
        db.work := db.work.(stats := db.work.stats[key := stat]);
      }
    }
  }

  class ProcessedEventRepository {
    const db: AnalyticsSession

    constructor (db: AnalyticsSession)
      ensures this.db == db
    {
      this.db := db;
    }

    method IsProcessed(txn: TxnId) returns (seen: bool)
      ensures seen <==> txn in db.work.inbox
    {
      seen := txn in db.work.inbox;
    }

    /** `taken`: another instance committed the same inbox row after our check, so the primary key rejects ours. */
    method MarkProcessed(txn: TxnId, taken: bool) returns (ok: bool)
      modifies db`work
      ensures ok == (!taken && txn !in old(db.work.inbox))
      ensures db.work == if ok then old(db.work).(inbox := old(db.work.inbox) + {txn}) else old(db.work)
    {
      ok := !taken && txn !in db.work.inbox;
      if ok {
        db.work := db.work.(inbox := db.work.inbox + {txn});
      }
    }
  }

  class AnalyticsService {
    const db: AnalyticsSession
    const processed: ProcessedEventRepository
    const stats: TransactionStatRepository

    constructor (db: AnalyticsSession)
      ensures this.db == db && processed.db == db && stats.db == db
    {
      this.db := db;
      processed := new ProcessedEventRepository(db);
      stats := new TransactionStatRepository(db);
    }

    /** One delivery. A lost race, or a row that outgrows its columns, raises out of the flush; a lost race does
        not come back as a duplicate. */
    method HandleEvent(m: Payload, taken: bool) returns (result: Handled)
      requires processed.db == db && stats.db == db && db.work == db.committed
      modifies db
      ensures result == if m.txn in old(db.committed.inbox) then Duplicate
                        else if taken || !AbsorbFits(old(db.committed), m) then Raised else Applied
      ensures db.committed == if result.Raised? then old(db.committed) else Absorb(old(db.committed), m)
      ensures var key, was := StatKey(m.currency, m.kind), old(db.committed.stats);
        var count := (if key in was then was[key].count else 0) + 1;
        var total := (if key in was then was[key].total else 0) + m.amount;
        && (result.Applied? <==> m.txn !in old(db.committed.inbox) && !taken
                                 && count <= 9_223_372_036_854_775_807 && total <= 9_223_372_036_854_775_807)
        && db.committed == if result.Applied?
                           then Rollup(old(db.committed.inbox) + {m.txn}, was[key := Stat(count, total)])
                           else old(db.committed)
    {
      var seen := processed.IsProcessed(m.txn);
      if seen { return Duplicate; }
      var ok := processed.MarkProcessed(m.txn, taken);
      if !ok { return Raised; }
      ok := stats.Increment(m.currency, m.kind, m.amount);
      if !ok { return Raised; }
      db.committed := db.work;
      return Applied;
    }
  }

  // ----- the rollup as a fold -----

  predicate Counts(e: Event, ids: set<TxnId>, key: StatKey) {
    e.aggregate in ids && e.payload.currency == key.currency && e.payload.kind == key.kind
  }

  /** Count and total of the outbox rows whose transaction is in `ids`. */
  function Tally(outbox: seq<Event>, ids: set<TxnId>, key: StatKey): Stat {
    if outbox == [] then Stat(0, 0)
    else
      var e := outbox[|outbox| - 1];
      var before := Tally(outbox[..|outbox| - 1], ids, key);
      if Counts(e, ids, key) then Stat(before.count + 1, before.total + e.payload.amount) else before
  }

  lemma {:induction false} TallyIgnoresUnlisted(outbox: seq<Event>, ids: set<TxnId>, t: TxnId, key: StatKey)
    requires forall i | 0 <= i < |outbox| :: outbox[i].aggregate != t
    ensures Tally(outbox, ids + {t}, key) == Tally(outbox, ids, key)
  {
    if outbox != [] {
      TallyIgnoresUnlisted(outbox[..|outbox| - 1], ids, t, key);
    }
  }

  /** The i-th row is the one row of transaction t. */
  predicate OnlyRow(outbox: seq<Event>, i: nat, t: TxnId) {
    i < |outbox| && outbox[i].aggregate == t && forall j | 0 <= j < |outbox| && j != i :: outbox[j].aggregate != t
  }

  /** Adding one id counts its one row. */
  lemma {:induction false} TallyAdds(outbox: seq<Event>, ids: set<TxnId>, i: nat, t: TxnId, key: StatKey)
    requires OnlyRow(outbox, i, t) && t !in ids
    ensures Tally(outbox, ids + {t}, key)
      == if KeyFor(outbox[i].payload) == key then Counted(Tally(outbox, ids, key), outbox[i].payload.amount)
         else Tally(outbox, ids, key)
  {
    var n := |outbox| - 1;
    if i < n {
      TallyAdds(outbox[..n], ids, i, t, key);
    } else {
      TallyIgnoresUnlisted(outbox[..n], ids, t, key);
    }
  }

  lemma {:induction false} TallyCounts(outbox: seq<Event>, ids: set<TxnId>, key: StatKey)
    ensures Tally(outbox, ids, key).count >= 0
  {
    if outbox != [] {
      TallyCounts(outbox[..|outbox| - 1], ids, key);
    }
  }

  /** Counting more transactions makes no row smaller. */
  lemma {:induction false} TallyGrows(outbox: seq<Event>, ids: set<TxnId>, all: set<TxnId>, key: StatKey)
    requires ids <= all && forall i | 0 <= i < |outbox| :: outbox[i].payload.amount >= 0
    ensures Tally(outbox, ids, key).count <= Tally(outbox, all, key).count
    ensures Tally(outbox, ids, key).total <= Tally(outbox, all, key).total
  {
    if outbox != [] {
      TallyGrows(outbox[..|outbox| - 1], ids, all, key);
    }
  }

  /** The row of a key holds the fold, and there is a row exactly if something was counted. */
  ghost predicate ExactAt(r: Rollup, outbox: seq<Event>, key: StatKey) {
    StatOf(r.stats, key) == Tally(outbox, r.inbox, key) && (key in r.stats <==> Tally(outbox, r.inbox, key).count > 0)
  }

  ghost predicate Exact(r: Rollup, outbox: seq<Event>) {
    forall key :: ExactAt(r, outbox, key)
  }

  lemma AbsorbKeepsKey(r: Rollup, outbox: seq<Event>, i: nat, m: Payload, key: StatKey)
    requires ExactAt(r, outbox, key) && OnlyRow(outbox, i, m.txn) && outbox[i].payload == m
    ensures ExactAt(Absorb(r, m), outbox, key)
  {
    if m.txn !in r.inbox {
      TallyAdds(outbox, r.inbox, i, m.txn, key);
      TallyCounts(outbox, r.inbox, key);
    }
  }

  /** A handler run keeps the rollup the exact fold over the inbox, on a first delivery and on every later one. */
  lemma AbsorbKeepsExact(r: Rollup, outbox: seq<Event>, i: nat, m: Payload)
    requires Exact(r, outbox) && OnlyRow(outbox, i, m.txn) && outbox[i].payload == m
    ensures Exact(Absorb(r, m), outbox)
  {
    forall key ensures ExactAt(Absorb(r, m), outbox, key) {
      AbsorbKeepsKey(r, outbox, i, m, key);
    }
  }

  /** A new row counts only once its transaction is processed. */
  lemma NewRowKeepsExact(r: Rollup, outbox: seq<Event>, e: Event)
    requires Exact(r, outbox) && e.aggregate !in r.inbox
    ensures Exact(r, outbox + [e])
  {
    assert (outbox + [e])[..|outbox|] == outbox;
    forall key ensures ExactAt(r, outbox + [e], key) {
      assert ExactAt(r, outbox, key);
    }
  }

  /** Rows that differ only in their published stamp tally alike. */
  lemma {:induction false} TallyIgnoresStamps(a: seq<Event>, b: seq<Event>, ids: set<TxnId>, key: StatKey)
    requires |a| == |b|
    requires forall i | 0 <= i < |a| :: a[i].aggregate == b[i].aggregate && a[i].payload == b[i].payload
    ensures Tally(a, ids, key) == Tally(b, ids, key)
  {
    if a != [] {
      TallyIgnoresStamps(a[..|a| - 1], b[..|b| - 1], ids, key);
    }
  }
}
