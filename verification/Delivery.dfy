/** End to end: exactly-once effect on top of at-least-once delivery, and what it takes for completeness. */
module Delivery {
  import opened Rows
  import opened Operations
  import opened Books
  import opened Publisher
  import opened Analytics
  import opened Pipeline

  /** In every reachable state, after any crashes, duplicates, rewinds and handler failures, each rollup row
      is the count and total over exactly the processed transactions, and all of these are committed. */
  lemma EffectIsExactlyOnce(acts: seq<Action>, s: Pipe, key: StatKey)
    requires Reaches(INIT, acts, s)
    ensures s.rollup.inbox <= s.db.txns.Keys
    ensures StatOf(s.rollup.stats, key) == Tally(s.db.outbox, s.rollup.inbox, key)
    ensures key in s.rollup.stats <==> Tally(s.db.outbox, s.rollup.inbox, key).count > 0
  {
    FromInit(acts, s);
    assert ExactAt(s.rollup, s.db.outbox, key);
  }

  /** As long as no batch was marked over an undrained queue, every committed event is unpublished or in the log. */
  lemma NothingIsLost(acts: seq<Action>, s: Pipe, i: nat)
    requires Reaches(INIT, acts, s) && s.leaks == 0 && i < |s.db.outbox|
    ensures !s.db.outbox[i].published || s.db.outbox[i].payload in s.log
  {
    FromInit(acts, s);
  }

  // ----- the truth, computed from the ledger alone -----

  /** A credit leg of a transaction of this kind, in this currency. Every transaction has one credit leg. */
  predicate LegCounts(l: Leg, txns: map<TxnId, Txn>, key: StatKey) {
    l.entry == CREDIT && l.txn in txns && txns[l.txn].kind == key.kind && l.currency == key.currency
  }

  /** How many such legs there are. */
  function CreditCount(ledger: seq<Leg>, txns: map<TxnId, Txn>, key: StatKey): int {
    if ledger == [] then 0
    else CreditCount(ledger[..|ledger| - 1], txns, key)
         + if LegCounts(ledger[|ledger| - 1], txns, key) then 1 else 0
  }

  /** The sum of their amounts. */
  function CreditTotal(ledger: seq<Leg>, txns: map<TxnId, Txn>, key: StatKey): int {
    if ledger == [] then 0
    else CreditTotal(ledger[..|ledger| - 1], txns, key)
         + if LegCounts(ledger[|ledger| - 1], txns, key) then ledger[|ledger| - 1].amount else 0
  }

  function LedgerTally(ledger: seq<Leg>, txns: map<TxnId, Txn>, key: StatKey): Stat {
    Stat(CreditCount(ledger, txns, key), CreditTotal(ledger, txns, key))
  }

  lemma LedgerTallyTwo(ledger: seq<Leg>, x: Leg, y: Leg, txns: map<TxnId, Txn>, key: StatKey)
    ensures CreditCount(ledger + [x, y], txns, key) == CreditCount(ledger, txns, key)
      + (if LegCounts(x, txns, key) then 1 else 0) + (if LegCounts(y, txns, key) then 1 else 0)
    ensures CreditTotal(ledger + [x, y], txns, key) == CreditTotal(ledger, txns, key)
      + (if LegCounts(x, txns, key) then x.amount else 0) + (if LegCounts(y, txns, key) then y.amount else 0)
  {
    assert (ledger + [x, y])[..|ledger| + 1] == ledger + [x];
    assert (ledger + [x])[..|ledger|] == ledger;
  }

  lemma {:induction false} OutboxTalliesLedger(db: Db, ids: set<TxnId>, key: StatKey, n: nat)
    requires BookInv(db) && db.txns.Keys <= ids && n <= |db.outbox|
    ensures Tally(db.outbox[..n], ids, key) == LedgerTally(db.ledger[..2 * n], db.txns, key)
  {
    if n > 0 {
      var k := n - 1;
      OutboxTalliesLedger(db, ids, key, k);
      assert PairAt(db, k);
      assert db.outbox[..n][..k] == db.outbox[..k];
      assert db.ledger[..2 * n] == db.ledger[..2 * k] + [db.ledger[2 * k], db.ledger[2 * k + 1]];
      LedgerTallyTwo(db.ledger[..2 * k], db.ledger[2 * k], db.ledger[2 * k + 1], db.txns, key);
    }
  }

  /** Nothing pending and nothing in the log unread. */
  predicate Drained(s: Pipe) {
    && Pending(s.db.outbox) == []
    && !s.handled && s.position == |s.log|
  }

  /** Moreover no event was lost, and whatever a handler raised on was processed on another delivery. */
  predicate Quiescent(s: Pipe) {
    Drained(s) && Lossless(s) && s.raised <= s.rollup.inbox
  }

  lemma QuiescentProcessedAll(s: Pipe)
    requires PipeInv(s) && Quiescent(s)
    ensures s.rollup.inbox == s.db.txns.Keys
  {
    forall t | t in s.db.txns ensures t in s.rollup.inbox {
      assert Listed(s.db, t);
      var i: nat :| i < |s.db.outbox| && s.db.outbox[i].aggregate == t;
      assert PairAt(s.db, i);
      PendingIsPending(s.db.outbox);
      assert i !in Pending(s.db.outbox);
      var k: nat :| k < |s.log| && s.log[k] == s.db.outbox[i].payload;
    }
  }

  lemma QuiescentMatches(s: Pipe, key: StatKey)
    requires PipeInv(s) && Quiescent(s)
    ensures StatOf(s.rollup.stats, key) == LedgerTally(s.db.ledger, s.db.txns, key)
    ensures key in s.rollup.stats <==> LedgerTally(s.db.ledger, s.db.txns, key).count > 0
  {
    QuiescentProcessedAll(s);
    assert ExactAt(s.rollup, s.db.outbox, key);
    var n := |s.db.outbox|;
    OutboxTalliesLedger(s.db, s.rollup.inbox, key, n);
    assert s.db.outbox[..n] == s.db.outbox && s.db.ledger[..2 * n] == s.db.ledger;
  }

  /** Once everything has drained, each rollup row holds the number and the summed amounts of the matching credit
      legs of the committed ledger, and a key without such a leg has no row, whatever crashed, was delivered twice
      or was read again on the way. */
  lemma RollupEqualsLedger(acts: seq<Action>, s: Pipe, key: StatKey)
    requires Reaches(INIT, acts, s) && Quiescent(s)
    ensures key in s.rollup.stats ==>
      s.rollup.stats[key].count == CreditCount(s.db.ledger, s.db.txns, key) > 0
      && s.rollup.stats[key].total == CreditTotal(s.db.ledger, s.db.txns, key)
    ensures key !in s.rollup.stats ==>
      CreditCount(s.db.ledger, s.db.txns, key) == 0 && CreditTotal(s.db.ledger, s.db.txns, key) == 0
  {
    FromInit(acts, s);
    QuiescentMatches(s, key);
    TallyCounts(s.db.outbox, s.rollup.inbox, key);
    EffectIsExactlyOnce(acts, s, key);
  }

  /** The committed transactions of one kind and currency. */
  function Committed(db: Db, key: StatKey): set<TxnId> {
    set t | t in db.txns && db.txns[t].kind == key.kind && db.txns[t].currency == key.currency
  }

  function BookedBy(db: Db, key: StatKey, n: nat): set<TxnId>
    requires n <= |db.outbox|
  {
    set i | 0 <= i < n && db.outbox[i].aggregate in Committed(db, key) :: db.outbox[i].aggregate
  }

  lemma BookedOneMore(db: Db, key: StatKey, k: nat)
    requires BookInv(db) && k < |db.outbox|
    ensures |BookedBy(db, key, k + 1)| ==
      |BookedBy(db, key, k)| + if db.outbox[k].aggregate in Committed(db, key) then 1 else 0
  {
    var t := db.outbox[k].aggregate;
    assert t !in BookedBy(db, key, k);
    assert BookedBy(db, key, k + 1) == BookedBy(db, key, k) + if t in Committed(db, key) then {t} else {};
  }

  lemma PairCountsOnce(db: Db, key: StatKey, k: nat)
    requires BookInv(db) && k < |db.outbox|
    ensures CreditCount(db.ledger[..2 * k + 2], db.txns, key) ==
      CreditCount(db.ledger[..2 * k], db.txns, key) + if db.outbox[k].aggregate in Committed(db, key) then 1 else 0
  {
    assert PairAt(db, k);
    assert db.ledger[..2 * k + 2] == db.ledger[..2 * k] + [db.ledger[2 * k], db.ledger[2 * k + 1]];
    LedgerTallyTwo(db.ledger[..2 * k], db.ledger[2 * k], db.ledger[2 * k + 1], db.txns, key);
  }

  lemma {:induction false} CreditsCountBooked(db: Db, key: StatKey, n: nat)
    requires BookInv(db) && n <= |db.outbox|
    ensures CreditCount(db.ledger[..2 * n], db.txns, key) == |BookedBy(db, key, n)|
  {
    if n > 0 {
      var k := n - 1;
      CreditsCountBooked(db, key, k);
      PairCountsOnce(db, key, k);
      BookedOneMore(db, key, k);
    }
  }

  /** The count of a rollup row is the number of committed transactions of its type and currency. */
  lemma CountIsTransactions(db: Db, key: StatKey)
    requires BookInv(db)
    ensures CreditCount(db.ledger, db.txns, key) == |Committed(db, key)|
  {
    var n := |db.outbox|;
    CreditsCountBooked(db, key, n);
    assert db.ledger[..2 * n] == db.ledger;
    forall t | t in Committed(db, key) ensures t in BookedBy(db, key, n) {
      assert Listed(db, t);
    }
    assert BookedBy(db, key, n) == Committed(db, key);
  }

  // ----- where the conditions come from -----

  lemma {:induction false} TallyMisses(outbox: seq<Event>, ids: set<TxnId>, all: set<TxnId>, i: nat, key: StatKey)
    requires ids <= all && i <= |outbox|
    requires i < |outbox| ==> outbox[i].aggregate in all - ids && KeyFor(outbox[i].payload) == key
    ensures Tally(outbox, ids, key).count <= Tally(outbox, all, key).count
    ensures i < |outbox| ==> Tally(outbox, ids, key).count < Tally(outbox, all, key).count
  {
    if outbox != [] {
      var n := |outbox| - 1;
      assert i < n ==> outbox[..n][i] == outbox[i];
      TallyMisses(outbox[..n], ids, all, if i < n then i else n, key);
    }
  }

  /** In any reachable state the rollup agrees with the ledger on every key if and only if every committed
      transaction has been processed by a handler run that did not raise. */
  lemma RollupCompleteExactly(acts: seq<Action>, s: Pipe)
    requires Reaches(INIT, acts, s)
    ensures (forall key :: StatOf(s.rollup.stats, key) == LedgerTally(s.db.ledger, s.db.txns, key))
      <==> s.rollup.inbox == s.db.txns.Keys
  {
    FromInit(acts, s);
    var n, all := |s.db.outbox|, s.db.txns.Keys;
    forall key
      ensures StatOf(s.rollup.stats, key) == Tally(s.db.outbox, s.rollup.inbox, key)
      ensures LedgerTally(s.db.ledger, s.db.txns, key) == Tally(s.db.outbox, all, key)
    {
      EffectIsExactlyOnce(acts, s, key);
      OutboxTalliesLedger(s.db, all, key, n);
      assert s.db.outbox[..n] == s.db.outbox && s.db.ledger[..2 * n] == s.db.ledger;
    }
    if exists t :: t in all && t !in s.rollup.inbox {
      var t :| t in all && t !in s.rollup.inbox;
      assert Listed(s.db, t);
      var i: nat :| i < n && s.db.outbox[i].aggregate == t;
      var key := KeyFor(s.db.outbox[i].payload);
      TallyMisses(s.db.outbox, s.rollup.inbox, all, i, key);
      assert StatOf(s.rollup.stats, key) != LedgerTally(s.db.ledger, s.db.txns, key);
    }
  }

  lemma ProcessedMeansLogged(s: Pipe, i: nat)
    requires PipeInv(s) && i < |s.db.outbox| && s.db.outbox[i].aggregate in s.rollup.inbox
    ensures s.db.outbox[i].payload in s.log
  {
    var t := s.db.outbox[i].aggregate;
    assert OnLog(s.log, t);
    var k :| 0 <= k < |s.log| && s.log[k].txn == t;
    assert Known(s.db, s.log[k]);
    var j := KnownRow(s.db, s.log[k]);
    assert i == j;
  }

  /** Once everything has drained, the rollup agrees with the ledger on every key if and only if each event stamped
      as published reached the log and each transaction a handler run raised on was processed by another run. */
  lemma DrainedCompleteExactly(acts: seq<Action>, s: Pipe)
    requires Reaches(INIT, acts, s) && Drained(s)
    ensures (forall key :: StatOf(s.rollup.stats, key) == LedgerTally(s.db.ledger, s.db.txns, key))
      <==> Lossless(s) && s.raised <= s.rollup.inbox
  {
    FromInit(acts, s);
    RollupCompleteExactly(acts, s);
    if Quiescent(s) {
      QuiescentProcessedAll(s);
    }
    if s.rollup.inbox == s.db.txns.Keys {
      forall i | 0 <= i < |s.db.outbox| ensures s.db.outbox[i].payload in s.log {
        assert PairAt(s.db, i);
        ProcessedMeansLogged(s, i);
      }
    }
  }

  /** No message of the batch that is still queued is missing from the log. */
  predicate LeftoversLanded(s: Pipe) {
    && s.sender.Sending? && InRange(s.db.outbox, s.sender.rows)
    && forall j | 0 <= j < |s.sender.rows| ::
         s.db.outbox[s.sender.rows[j]].payload in s.queue ==> s.db.outbox[s.sender.rows[j]].payload in s.log
  }

  /** After marking and then losing the producer's buffer every published event is in the log, if and only if that
      was so before and no message of the batch that is still queued is missing from the log: in particular
      when flush reports an empty queue. */
  lemma MarkIsSafeExactly(acts: seq<Action>, s: Pipe)
    requires Reaches(INIT, acts, s) && Enabled(s, Mark)
    ensures Lossless(Do(Do(s, Mark), PublisherCrash)) <==> Lossless(s) && LeftoversLanded(s)
    ensures s.queue == [] ==> LeftoversLanded(s)
  {
    FromInit(acts, s);
    var rows := s.sender.rows;
    var s' := Do(Do(s, Mark), PublisherCrash);
    forall j | 0 <= j < |rows| ensures InTransit(s, s.db.outbox[rows[j]].payload) && s'.db.outbox[rows[j]].published {
      assert rows[j] in rows;
    }
    if Lossless(s') {
      forall i | 0 <= i < |s.db.outbox| && s.db.outbox[i].published ensures s.db.outbox[i].payload in s.log {
        assert s'.db.outbox[i].published;
      }
      forall j | 0 <= j < |rows| ensures s.db.outbox[rows[j]].payload in s.log {
        assert s'.db.outbox[rows[j]].published;
      }
    }
    if Lossless(s) && LeftoversLanded(s) {
      forall i | 0 <= i < |s'.db.outbox| && s'.db.outbox[i].published ensures s'.db.outbox[i].payload in s'.log {
        if i in rows {
          var j :| 0 <= j < |rows| && rows[j] == i;
          assert InTransit(s, s.db.outbox[rows[j]].payload);
        }
      }
    }
  }

  /** A delivery error reported while a batch is under way keeps it from being marked: until the next fetch or
      a crash of the publisher no run gets to a mark, even if the message did land. */
  lemma {:induction false} ErrorBlocksMark(s: Pipe, i: nat, verdict: Verdict, acts: seq<Action>, end: Pipe)
    requires Enabled(s, Resolve(i, verdict)) && verdict != Verdict.Landed
    requires Reaches(Do(s, Resolve(i, verdict)), acts, end)
    requires forall j | 0 <= j < |acts| :: !acts[j].FetchBatch? && !acts[j].PublisherCrash?
    ensures !Enabled(end, Mark)
  {
    ErrorsStay(Do(s, Resolve(i, verdict)), acts, end);
  }

  lemma {:induction false} ErrorsStay(s: Pipe, acts: seq<Action>, end: Pipe)
    requires s.errors > 0 && Reaches(s, acts, end)
    requires forall j | 0 <= j < |acts| :: !acts[j].FetchBatch? && !acts[j].PublisherCrash?
    ensures end.errors > 0
    decreases |acts|
  {
    if acts != [] {
      FirstStep(s, acts, end);
      assert !acts[0].FetchBatch? && !acts[0].PublisherCrash?;
      assert forall j | 0 <= j < |acts[1..]| :: acts[1..][j] == acts[j + 1];
      ErrorsStay(Do(s, acts[0]), acts[1..], end);
    }
  }

  // ----- events that are gone for good -----

  /** The event is stamped as published and unprocessed, and the consumer can read it no more: it is neither
      queued nor in the log from the committed offset on. */
  predicate Gone(s: Pipe, i: nat) {
    && i < |s.db.outbox| && s.offset <= |s.log|
    && s.db.outbox[i].published && s.db.outbox[i].aggregate !in s.rollup.inbox
    && s.db.outbox[i].payload !in s.queue && s.db.outbox[i].payload !in s.log[s.offset..]
  }

  lemma DistinctPayloads(db: Db, i: nat, j: nat)
    requires BookInv(db) && i < |db.outbox| && j < |db.outbox|
    requires db.outbox[i].payload == db.outbox[j].payload || db.outbox[i].payload.txn == db.outbox[j].aggregate
    ensures i == j
  {
    assert PairAt(db, i) && PairAt(db, j);
  }

  lemma ProducingLeavesGone(s: Pipe, i: nat)
    requires PipeInv(s) && Gone(s, i) && Enabled(s, Produce)
    ensures Gone(Do(s, Produce), i)
  {
    var r := s.sender.rows[s.sender.produced];
    if s.db.outbox[r].payload == s.db.outbox[i].payload {
      DistinctPayloads(s.db, r, i);
      assert false;
    }
  }

  lemma ResolvingLeavesGone(s: Pipe, k: nat, verdict: Verdict, i: nat)
    requires PipeInv(s) && Gone(s, i) && Enabled(s, Resolve(k, verdict))
    ensures Gone(Do(s, Resolve(k, verdict)), i)
  {
    var s' := Do(s, Resolve(k, verdict));
    assert s.queue[k] != s.db.outbox[i].payload;
    assert verdict.Lost? || s'.log[s.offset..] == s.log[s.offset..] + [s.queue[k]];
  }

  lemma InSuffix(log: seq<Payload>, from: nat, k: nat)
    requires from <= k < |log|
    ensures log[k] in log[from..]
  {
    assert log[k] == log[from..][k - from];
  }

  lemma NextIsNotGone(s: Pipe, i: nat)
    requires PipeInv(s) && Gone(s, i) && s.position < |s.log|
    ensures s.log[s.position].txn != s.db.outbox[i].aggregate
  {
    var m := s.log[s.position];
    InSuffix(s.log, s.offset, s.position);
    assert Known(s.db, m);
    var j := KnownRow(s.db, m);
    assert i != j;
  }

  lemma HandlingLeavesGone(s: Pipe, ok: bool, i: nat)
    requires PipeInv(s) && Gone(s, i) && Enabled(s, Handle(ok))
    ensures Gone(Do(s, Handle(ok)), i)
  {
    NextIsNotGone(s, i);
  }

  lemma CommittingLeavesGone(s: Pipe, stored: bool, i: nat)
    requires PipeInv(s) && Gone(s, i) && Enabled(s, CommitOffset(stored))
    ensures Gone(Do(s, CommitOffset(stored)), i)
  {
    if stored {
      assert s.log[s.position + 1..] == s.log[s.offset..][s.position + 1 - s.offset..];
    }
  }

  lemma BookingLeavesGone(s: Pipe, op: Op, i: nat)
    requires Gone(s, i)
    ensures Gone(Do(s, Ledger(op)), i)
  {
    ApplyExtends(s.db, op);
    assert Do(s, Ledger(op)).db.outbox[i] == s.db.outbox[i];
  }

  lemma GoneStays(s: Pipe, a: Action, i: nat)
    requires PipeInv(s) && Enabled(s, a) && Gone(s, i)
    ensures Gone(Do(s, a), i)
  {
    match a
    case Ledger(op) => BookingLeavesGone(s, op, i);
    case FetchBatch(_, _) =>
    case Produce => ProducingLeavesGone(s, i);
    case GiveUp =>
    case Resolve(k, verdict) => ResolvingLeavesGone(s, k, verdict, i);
    case Mark =>
    case PublisherCrash =>
    case Handle(ok) => HandlingLeavesGone(s, ok, i);
    case CommitOffset(stored) => CommittingLeavesGone(s, stored, i);
    case ConsumerCrash =>
  }

  /** Such an event stays so in every continuation: no retry, crash or rewind brings it back. */
  lemma {:induction false} GoneForGood(s: Pipe, acts: seq<Action>, end: Pipe, i: nat)
    requires PipeInv(s) && Reaches(s, acts, end) && Gone(s, i)
    ensures Gone(end, i)
    decreases |acts|
  {
    if acts != [] {
      FirstStep(s, acts, end);
      DoKeepsInv(s, acts[0]);
      GoneStays(s, acts[0], i);
      GoneForGood(Do(s, acts[0]), acts[1..], end, i);
    }
  }

  // ----- two runs that lose an event -----

  function OneWallet(): Db {
    Db(map[1 := Wallet(7, "INR", 0)], map[], map[], [], [])
  }

  function OneDeposit(): Request {
    Deposit(1, 7, 500, "INR")
  }

  function AfterDeposit(): Db
  {
    Db(map[1 := Wallet(7, "INR", 500)], map[9 := Txn(DEPOSIT, COMPLETED, "INR", None)], map[],
       [Leg(1, 9, CREDIT, 500, "INR", Some(1), None), Leg(2, 9, DEBIT, 500, "INR", None, Some(EXTERNAL_FUNDING))],
       [Event(9, 0, Payload(9, DEPOSIT, COMPLETED, "INR", 500, 1, None), false)])
  }

  lemma TheDeposit()
    ensures Apply(EMPTY_DB, NewWallet(1, 7, "INR")).db == OneWallet()
    ensures Apply(OneWallet(), Money(OneDeposit(), Draws(9, 0, 1, 2))).db == AfterDeposit()
  {
    assert Upper("INR") == "INR";
  }

  function Produced(): Pipe {
    INIT.(db := AfterDeposit(), sender := Sending([0], 1), queue := [AfterDeposit().outbox[0].payload])
  }

  lemma RunsOn(s: Pipe, a: Action, rest: seq<Action>, end: Pipe)
    requires Enabled(s, a) && Reaches(Do(s, a), rest, end)
    ensures Reaches(s, [a] + rest, end)
  {
    assert ([a] + rest)[1..] == rest;
  }

  /** A wallet, a deposit, and a publisher that has fetched and produced its event. */
  lemma Setup(rest: seq<Action>, end: Pipe) returns (acts: seq<Action>)
    requires Reaches(Produced(), rest, end)
    ensures Reaches(INIT, acts, end)
  {
    var fetched := INIT.(db := AfterDeposit(), sender := Sending([0], 0));
    assert Do(fetched, Produce) == Produced();
    RunsOn(fetched, Produce, rest, end);
    acts := Prelude([Produce] + rest, end);
  }

  lemma LedgerRunsOn(db: Db, op: Op, after: Db, rest: seq<Action>, end: Pipe)
    requires after == Apply(db, op).db && Reaches(INIT.(db := after), rest, end)
    ensures Reaches(INIT.(db := db), [Ledger(op)] + rest, end)
  {
    RunsOn(INIT.(db := db), Ledger(op), rest, end);
  }

  lemma Booked(rest: seq<Action>, end: Pipe) returns (acts: seq<Action>)
    requires Reaches(INIT.(db := AfterDeposit()), rest, end)
    ensures Reaches(INIT, acts, end)
  {
    var create, deposit := NewWallet(1, 7, "INR"), Money(OneDeposit(), Draws(9, 0, 1, 2));
    TheDeposit();
    LedgerRunsOn(OneWallet(), deposit, AfterDeposit(), rest, end);
    LedgerRunsOn(EMPTY_DB, create, OneWallet(), [Ledger(deposit)] + rest, end);
    acts := [Ledger(create)] + ([Ledger(deposit)] + rest);
  }

  lemma OneRowIsTheBatch()
    ensures OldestBatch(AfterDeposit().outbox, 1, [0])
  {
    FetchIsOldest(AfterDeposit().outbox, 1);
    var outbox := AfterDeposit().outbox;
    assert outbox[..0] == [];
    assert Pending(outbox) == [0];
  }

  lemma Prelude(rest: seq<Action>, end: Pipe) returns (acts: seq<Action>)
    requires Reaches(INIT.(db := AfterDeposit(), sender := Sending([0], 0)), rest, end)
    ensures Reaches(INIT, acts, end)
  {
    OneRowIsTheBatch();
    assert Enabled(INIT.(db := AfterDeposit()), FetchBatch(1, [0]));
    RunsOn(INIT.(db := AfterDeposit()), FetchBatch(1, [0]), rest, end);
    acts := Booked([FetchBatch(1, [0])] + rest, end);
  }

  function Stamped(): Db {
    AfterDeposit().(outbox := MarkAll(AfterDeposit().outbox, [0]))
  }

  /** Without a drained flush the promise breaks: a flush that times out, a mark, and a crash leave an event
      that is stamped as published and that no continuation delivers. */
  lemma TimedOutFlushLosesAnEvent() returns (acts: seq<Action>, s: Pipe)
    ensures Reaches(INIT, acts, s)
    ensures |s.db.outbox| == 1 && s.db.outbox[0].published && s.log == [] && s.queue == [] && s.sender.Idle?
    ensures forall more, end | Reaches(s, more, end) :: Gone(end, 0)
  {
    var marked := Produced().(db := Stamped(), sender := Idle, leaks := 1);
    s := marked.(queue := []);
    RunsOn(marked, PublisherCrash, [], s);
    RunsOn(Produced(), Mark, [PublisherCrash] + [], s);
    acts := Setup([Mark] + ([PublisherCrash] + []), s);
    FromInit(acts, s);
    forall more, end | Reaches(s, more, end) ensures Gone(end, 0) {
      GoneForGood(s, more, end, 0);
    }
  }

  function Landing(): Pipe {
    Produced().(queue := [], log := [AfterDeposit().outbox[0].payload])
  }

  lemma Landed(rest: seq<Action>, end: Pipe) returns (acts: seq<Action>)
    requires Reaches(Landing().(db := Stamped(), sender := Idle), rest, end)
    ensures Reaches(INIT, acts, end)
  {
    assert Do(Produced(), Resolve(0, Verdict.Landed)) == Landing();
    RunsOn(Landing(), Mark, rest, end);
    RunsOn(Produced(), Resolve(0, Verdict.Landed), [Mark] + rest, end);
    acts := Setup([Resolve(0, Verdict.Landed)] + ([Mark] + rest), end);
  }

  /** The consumer commits the offset even after its handler raised: the event is then skipped, the rollup misses
      a committed transaction although everything has drained, and no continuation makes up for it. */
  lemma RaisingHandlerSkipsAnEvent() returns (acts: seq<Action>, s: Pipe)
    ensures Reaches(INIT, acts, s)
    ensures Pending(s.db.outbox) == [] && s.position == s.offset == |s.log| && !s.handled && s.leaks == 0
    ensures 9 in s.db.txns && 9 !in s.rollup.inbox
    ensures forall more, end | Reaches(s, more, end) :: Gone(end, 0)
  {
    var marked := Landing().(db := Stamped(), sender := Idle);
    var raised := marked.(handled := true, raised := {9});
    s := marked.(raised := {9}, position := 1, offset := 1);
    RunsOn(raised, CommitOffset(true), [], s);
    RunsOn(marked, Handle(false), [CommitOffset(true)] + [], s);
    acts := Landed([Handle(false)] + ([CommitOffset(true)] + []), s);
    assert Stamped().outbox[..0] == [];
    FromInit(acts, s);
    forall more, end | Reaches(s, more, end) ensures Gone(end, 0) {
      GoneForGood(s, more, end, 0);
    }
  }
}
