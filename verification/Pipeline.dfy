/** Ledger commits, the publisher, the broker log and the analytics consumer, one step at a time, with a crash
    possible between any two steps. One publisher and one analytics consumer, as deployed. */
module Pipeline {
  import opened Rows
  import opened Operations
  import opened Books
  import opened Publisher
  import opened Analytics

  datatype Sender = Idle | Sending(rows: seq<nat>, produced: nat)

  /** `queue` is the producer's buffer, which outlives a batch but not a crash. `position` is the next
      message to handle, `offset` the committed one. `raised` are the transactions for which a handler run raised and
      `leaks` batches that were marked while the queue was not empty. */
  datatype Pipe = Pipe(db: Db, sender: Sender, queue: seq<Payload>, errors: nat, log: seq<Payload>,
                       rollup: Rollup, position: nat, offset: nat, handled: bool, raised: set<TxnId>, leaks: nat)

  const INIT: Pipe := Pipe(EMPTY_DB, Idle, [], 0, [], Rollup({}, map[]), 0, 0, false, {}, 0)

  datatype Action =
    | Ledger(op: Op)
    | FetchBatch(limit: nat, rows: seq<nat>)
    | Produce
    | GiveUp                              // an exception before the commit: roll back, retry later
    | Resolve(i: nat, verdict: Verdict)   // the broker answers for one queued message
    | Mark                                // no error reported: stamp the batch and commit
    | PublisherCrash
    | Handle(ok: bool)
    | CommitOffset(stored: bool)
    | ConsumerCrash                       // the restarted consumer rewinds to the committed offset

  predicate Enabled(s: Pipe, a: Action) {
    match a
    case Ledger(_) => true
    case FetchBatch(limit, rows) => s.sender.Idle? && rows != [] && OldestBatch(s.db.outbox, limit, rows)
    case Produce => s.sender.Sending? && s.sender.produced < |s.sender.rows| && s.sender.rows[s.sender.produced] < |s.db.outbox|
    case GiveUp => s.sender.Sending?
    case Resolve(i, _) => i < |s.queue|
    case Mark => s.sender.Sending? && s.sender.produced == |s.sender.rows| && s.errors == 0
    case PublisherCrash => true
    case Handle(ok) => !s.handled && s.position < |s.log| && (ok ==> AbsorbFits(s.rollup, s.log[s.position]))
    case CommitOffset(_) => s.handled
    case ConsumerCrash => true
  }

  function Do(s: Pipe, a: Action): Pipe
    requires Enabled(s, a)
  {
    match a
    case Ledger(op) => s.(db := Apply(s.db, op).db)
    case FetchBatch(_, rows) => s.(sender := Sending(rows, 0), errors := 0)
    case Produce =>
      s.(sender := s.sender.(produced := s.sender.produced + 1),
         queue := s.queue + [s.db.outbox[s.sender.rows[s.sender.produced]].payload])
    case GiveUp => s.(sender := Idle)
    case Resolve(i, verdict) =>
      s.(queue := s.queue[..i] + s.queue[i + 1..],
         log := if verdict.Lost? then s.log else s.log + [s.queue[i]],
         errors := if verdict.Landed? then s.errors else s.errors + 1)
    case Mark =>
      s.(db := s.db.(outbox := MarkAll(s.db.outbox, s.sender.rows)), sender := Idle,
         leaks := if s.queue == [] then s.leaks else s.leaks + 1)
    case PublisherCrash => s.(sender := Idle, queue := [], errors := 0)
    case Handle(ok) =>
      if ok then s.(rollup := Absorb(s.rollup, s.log[s.position]), handled := true)
      else s.(raised := s.raised + {s.log[s.position].txn}, handled := true)
    case CommitOffset(stored) =>
      s.(position := s.position + 1, offset := if stored then s.position + 1 else s.offset, handled := false)
    case ConsumerCrash => s.(position := s.offset, handled := false)
  }

  predicate Reaches(s: Pipe, acts: seq<Action>, end: Pipe)
    decreases |acts|
  {
    if acts == [] then s == end else Enabled(s, acts[0]) && Reaches(Do(s, acts[0]), acts[1..], end)
  }

  // ----- the invariant -----

  /** The message describes a committed transaction. */
  predicate Known(db: Db, m: Payload) {
    exists i | 0 <= i < |db.outbox| :: db.outbox[i].payload == m
  }

  predicate AllKnown(db: Db, ms: seq<Payload>) {
    forall i | 0 <= i < |ms| :: Known(db, ms[i])
  }

  /** A message is not lost yet: it is in the log or still queued. */
  predicate InTransit(s: Pipe, m: Payload) {
    m in s.log || m in s.queue
  }

  predicate SenderSound(s: Pipe) {
    s.sender.Sending? ==>
      && s.sender.produced <= |s.sender.rows|
      && InRange(s.db.outbox, s.sender.rows)
      && (forall j | 0 <= j < |s.sender.rows| :: !s.db.outbox[s.sender.rows[j]].published)
      && (s.errors == 0 ==> forall j | 0 <= j < s.sender.produced :: InTransit(s, s.db.outbox[s.sender.rows[j]].payload))
  }

  /** Every event stamped as published is in the broker's log. */
  predicate Lossless(s: Pipe) {
    forall i | 0 <= i < |s.db.outbox| && s.db.outbox[i].published :: s.db.outbox[i].payload in s.log
  }

  /** The rollup is the fold over exactly the processed transactions, all of them committed. */
  ghost predicate RollupExact(s: Pipe) {
    && s.rollup.inbox <= s.db.txns.Keys
    && (forall key | key in s.rollup.stats :: StatRowOk(s.rollup.stats[key]))
    && Exact(s.rollup, s.db.outbox)
  }

  predicate OnLog(log: seq<Payload>, t: TxnId) {
    exists i | 0 <= i < |log| :: log[i].txn == t
  }

  /** Whatever was processed had been delivered. */
  predicate ProcessedFromLog(s: Pipe) {
    forall t | t in s.rollup.inbox :: OnLog(s.log, t)
  }

  /** Each of the first n messages was handled, or its handler raised. */
  predicate Consumed(s: Pipe, n: nat)
    requires n <= |s.log|
  {
    forall i | 0 <= i < n :: s.log[i].txn in s.rollup.inbox || s.log[i].txn in s.raised
  }

  ghost predicate OffsetsSound(s: Pipe) {
    && s.offset <= s.position <= |s.log|
    && (s.handled ==> s.position < |s.log|)
    && Consumed(s, if s.handled then s.position + 1 else s.position)
    && s.raised <= s.db.txns.Keys
  }

  ghost predicate PipeInv(s: Pipe) {
    && BookInv(s.db)
    && AllKnown(s.db, s.log) && AllKnown(s.db, s.queue)
    && SenderSound(s)
    && (s.leaks == 0 ==> Lossless(s))
    && RollupExact(s)
    && ProcessedFromLog(s)
    && OffsetsSound(s)
  }

  // ----- preservation -----

  lemma KnownStays(db: Db, db': Db, ms: seq<Payload>)
    requires AllKnown(db, ms)
    requires |db.outbox| <= |db'.outbox| && forall i | 0 <= i < |db.outbox| :: db'.outbox[i].payload == db.outbox[i].payload
    ensures AllKnown(db', ms)
  {
    forall i | 0 <= i < |ms| ensures Known(db', ms[i]) {
      assert Known(db, ms[i]);
      var k :| 0 <= k < |db.outbox| && db.outbox[k].payload == ms[i];
      assert db'.outbox[k].payload == ms[i];
    }
  }

  lemma ApplyExtends(db: Db, op: Op)
    ensures var db' := Apply(db, op).db;
      (db'.outbox == db.outbox && db'.txns == db.txns)
      || (op.Money? && op.draws.id !in db.txns && db'.txns.Keys == db.txns.Keys + {op.draws.id}
          && |db'.outbox| == |db.outbox| + 1 && db'.outbox[..|db.outbox|] == db.outbox
          && db'.outbox[|db.outbox|].aggregate == op.draws.id && !db'.outbox[|db.outbox|].published)
  {
  }

  lemma LedgerKeepsRollup(s: Pipe, op: Op)
    requires RollupExact(s)
    ensures RollupExact(Do(s, Ledger(op)))
  {
    var outbox' := Do(s, Ledger(op)).db.outbox;
    ApplyExtends(s.db, op);
    if outbox' != s.db.outbox {
      var n := |s.db.outbox|;
      assert outbox' == s.db.outbox + [outbox'[n]];
      NewRowKeepsExact(s.rollup, s.db.outbox, outbox'[n]);
    }
  }

  lemma LedgerKeepsInv(s: Pipe, op: Op)
    requires PipeInv(s)
    ensures PipeInv(Do(s, Ledger(op)))
  {
    var s' := Do(s, Ledger(op));
    ApplyKeepsBooks(s.db, op);
    LedgerKeepsRollup(s, op);
    ApplyExtends(s.db, op);
    assert s.db.outbox <= s'.db.outbox;
    KnownStays(s.db, s'.db, s.log);
    KnownStays(s.db, s'.db, s.queue);
  }

  lemma StampingKeepsBooks(db: Db, rows: seq<nat>)
    requires BookInv(db)
    ensures BookInv(db.(outbox := MarkAll(db.outbox, rows)))
  {
    var db' := db.(outbox := MarkAll(db.outbox, rows));
    forall i: nat | i < |db'.outbox| ensures PairAt(db', i) { assert PairAt(db, i); }
    forall t | t in db'.txns ensures Listed(db', t) {
      assert Listed(db, t);
      var i :| 0 <= i < |db.outbox| && db.outbox[i].aggregate == t;
      assert db'.outbox[i].aggregate == t;
    }
  }

  lemma MarkKeepsInv(s: Pipe)
    requires PipeInv(s) && Enabled(s, Mark)
    ensures PipeInv(Do(s, Mark))
  {
    var s' := Do(s, Mark);
    StampingKeepsBooks(s.db, s.sender.rows);
    KnownStays(s.db, s'.db, s.log);
    KnownStays(s.db, s'.db, s.queue);
    forall key ensures ExactAt(s'.rollup, s'.db.outbox, key) {
      assert ExactAt(s.rollup, s.db.outbox, key);
      TallyIgnoresStamps(s.db.outbox, s'.db.outbox, s.rollup.inbox, key);
    }
    if s'.leaks == 0 {
      forall i | 0 <= i < |s'.db.outbox| && s'.db.outbox[i].published ensures s'.db.outbox[i].payload in s'.log {
        if i in s.sender.rows {
          var j :| 0 <= j < |s.sender.rows| && s.sender.rows[j] == i;
          assert InTransit(s, s.db.outbox[s.sender.rows[j]].payload);
        }
      }
    }
  }

  lemma KnownRow(db: Db, m: Payload) returns (i: nat)
    requires BookInv(db) && Known(db, m)
    ensures OnlyRow(db.outbox, i, m.txn) && db.outbox[i].payload == m && m.txn in db.txns
  {
    i :| i < |db.outbox| && db.outbox[i].payload == m;
    assert PairAt(db, i);
  }

  lemma HandleKeepsExact(s: Pipe)
    requires PipeInv(s) && Enabled(s, Handle(true))
    ensures RollupExact(Do(s, Handle(true)))
  {
    var m := s.log[s.position];
    assert Known(s.db, m);
    var i := KnownRow(s.db, m);
    AbsorbKeepsExact(s.rollup, s.db.outbox, i, m);
  }

  lemma HandleKeepsInv(s: Pipe, ok: bool)
    requires PipeInv(s) && Enabled(s, Handle(ok))
    ensures PipeInv(Do(s, Handle(ok)))
  {
    if ok {
      HandleKeepsExact(s);
    } else {
      assert Known(s.db, s.log[s.position]);
      var i := KnownRow(s.db, s.log[s.position]);
    }
  }

  lemma ResolveKeepsInv(s: Pipe, i: nat, verdict: Verdict)
    requires PipeInv(s) && Enabled(s, Resolve(i, verdict))
    ensures PipeInv(Do(s, Resolve(i, verdict)))
  {
    var s' := Do(s, Resolve(i, verdict));
    assert s.queue == s.queue[..i] + [s.queue[i]] + s.queue[i + 1..];
    assert forall m :: m in s.queue <==> m in s'.queue || m == s.queue[i];
    assert s.log <= s'.log;
    assert forall m :: m in s.log ==> m in s'.log;
    forall j | 0 <= j < |s'.queue| ensures Known(s'.db, s'.queue[j]) {
      assert s'.queue[j] in s.queue;
      var k :| 0 <= k < |s.queue| && s.queue[k] == s'.queue[j];
      assert Known(s.db, s.queue[k]);
    }
    assert Known(s.db, s.queue[i]);
    if s'.errors == 0 {
      assert forall m :: InTransit(s, m) ==> InTransit(s', m);
    }
  }

  lemma ProduceKeepsInv(s: Pipe)
    requires PipeInv(s) && Enabled(s, Produce)
    ensures PipeInv(Do(s, Produce))
  {
    var s' := Do(s, Produce);
    var m := s.db.outbox[s.sender.rows[s.sender.produced]].payload;
    assert Known(s.db, m);
    assert forall x :: x in s'.queue <==> x in s.queue || x == m;
    if s.errors == 0 {
      forall j | 0 <= j < s'.sender.produced ensures InTransit(s', s'.db.outbox[s'.sender.rows[j]].payload) {
        if j < s.sender.produced {
          assert InTransit(s, s.db.outbox[s.sender.rows[j]].payload);
        }
      }
    }
  }

  lemma DoKeepsInv(s: Pipe, a: Action)
    requires PipeInv(s) && Enabled(s, a)
    ensures PipeInv(Do(s, a))
  {
    match a
    case Ledger(op) => LedgerKeepsInv(s, op);
    case FetchBatch(_, _) =>
    case Produce => ProduceKeepsInv(s);
    case GiveUp =>
    case Resolve(i, verdict) => ResolveKeepsInv(s, i, verdict);
    case Mark => MarkKeepsInv(s);
    case PublisherCrash =>
    case Handle(ok) => HandleKeepsInv(s, ok);
    case CommitOffset(_) =>
    case ConsumerCrash =>
  }

  lemma FirstStep(s: Pipe, acts: seq<Action>, end: Pipe)
    requires Reaches(s, acts, end) && acts != []
    ensures Enabled(s, acts[0]) && Reaches(Do(s, acts[0]), acts[1..], end)
  {
  }

  lemma {:induction false} ReachableSound(s: Pipe, acts: seq<Action>, end: Pipe)
    requires PipeInv(s) && Reaches(s, acts, end)
    ensures PipeInv(end)
    decreases |acts|
  {
    if acts != [] {
      FirstStep(s, acts, end);
      DoKeepsInv(s, acts[0]);
      ReachableSound(Do(s, acts[0]), acts[1..], end);
    }
  }

  lemma {:induction false} RunThenRun(s: Pipe, first: seq<Action>, mid: Pipe, second: seq<Action>, end: Pipe)
    requires Reaches(s, first, mid) && Reaches(mid, second, end)
    ensures Reaches(s, first + second, end)
    decreases |first|
  {
    if first == [] {
      assert first + second == second;
    } else {
      FirstStep(s, first, mid);
      RunThenRun(Do(s, first[0]), first[1..], mid, second, end);
      assert (first + second)[1..] == first[1..] + second;
    }
  }

  lemma FromInit(acts: seq<Action>, s: Pipe)
    requires Reaches(INIT, acts, s)
    ensures PipeInv(s)
  {
    EmptyBooks();
    ReachableSound(INIT, acts, s);
  }
}
