/** The outbox publisher: fetch the oldest pending rows, produce, flush, mark all of them or none. */
module Publisher {
  import opened Rows
  import opened Batching

  function Pending(outbox: seq<Event>): seq<nat> {
    if outbox == [] then []
    else Pending(outbox[..|outbox| - 1]) + if outbox[|outbox| - 1].published then [] else [|outbox| - 1]
  }

  predicate InRange(outbox: seq<Event>, rows: seq<nat>) {
    forall i | 0 <= i < |rows| :: rows[i] < |outbox|
  }

  function InsertByAge(outbox: seq<Event>, r: nat, rows: seq<nat>): (s: seq<nat>)
    requires r < |outbox| && InRange(outbox, rows)
    ensures InRange(outbox, s)
  {
    if rows == [] || outbox[r].createdAt < outbox[rows[0]].createdAt then [r] + rows
    else [rows[0]] + InsertByAge(outbox, r, rows[1..])
  }

  function ByAge(outbox: seq<Event>, rows: seq<nat>): (s: seq<nat>)
    requires InRange(outbox, rows)
    ensures InRange(outbox, s)
  {
    if rows == [] then [] else InsertByAge(outbox, rows[|rows| - 1], ByAge(outbox, rows[..|rows| - 1]))
  }

  lemma {:induction false} PendingIsPending(outbox: seq<Event>)
    ensures InRange(outbox, Pending(outbox))
    ensures forall r: nat :: r in Pending(outbox) <==> r < |outbox| && !outbox[r].published
    ensures forall i, j | 0 <= i < j < |Pending(outbox)| :: Pending(outbox)[i] != Pending(outbox)[j]
  {
    if outbox != [] {
      var n := |outbox| - 1;
      PendingIsPending(outbox[..n]);
      assert forall r: nat | r < n :: outbox[..n][r] == outbox[r];
    }
  }

  /** WHERE published_at IS NULL ORDER BY created_at LIMIT limit, as row numbers. */
  function Fetch(outbox: seq<Event>, limit: nat): (rows: seq<nat>)
    ensures InRange(outbox, rows)
  {
    PendingIsPending(outbox);
    var sorted := ByAge(outbox, Pending(outbox));
    sorted[..Min(limit, |sorted|)]
  }

  predicate Aged(outbox: seq<Event>, rows: seq<nat>)
    requires InRange(outbox, rows)
  {
    forall i, j | 0 <= i < j < |rows| :: outbox[rows[i]].createdAt <= outbox[rows[j]].createdAt
  }

  predicate Distinct(rows: seq<nat>) {
    forall i, j | 0 <= i < j < |rows| :: rows[i] != rows[j]
  }

  /** What the query promises whatever it does with equal timestamps. */
  predicate OldestBatch(outbox: seq<Event>, limit: nat, rows: seq<nat>) {
    && InRange(outbox, rows) && Distinct(rows) && Aged(outbox, rows)
    && |rows| == Min(limit, |Pending(outbox)|)
    && (forall i | 0 <= i < |rows| :: !outbox[rows[i]].published)
    && (forall r: nat, i | r < |outbox| && !outbox[r].published && r !in rows && 0 <= i < |rows| ::
          outbox[rows[i]].createdAt <= outbox[r].createdAt)
  }

  lemma {:induction false} InsertByAgeMembers(outbox: seq<Event>, r: nat, rows: seq<nat>)
    requires r < |outbox| && InRange(outbox, rows)
    ensures var s := InsertByAge(outbox, r, rows); |s| == |rows| + 1 && forall x :: x in s <==> x == r || x in rows
  {
    if rows != [] {
      InsertByAgeMembers(outbox, r, rows[1..]);
      assert forall x :: x in rows <==> x == rows[0] || x in rows[1..];
    }
  }

  lemma {:induction false} InsertByAgeSorts(outbox: seq<Event>, r: nat, rows: seq<nat>)
    requires r < |outbox| && InRange(outbox, rows) && Aged(outbox, rows)
    ensures Aged(outbox, InsertByAge(outbox, r, rows))
  {
    if rows != [] && outbox[r].createdAt >= outbox[rows[0]].createdAt {
      InsertByAgeSorts(outbox, r, rows[1..]);
      var t := InsertByAge(outbox, r, rows[1..]);
      InsertByAgeMembers(outbox, r, rows[1..]);
      forall i | 0 <= i < |t| ensures outbox[rows[0]].createdAt <= outbox[t[i]].createdAt {
        assert t[i] in t;
      }
    }
  }

  lemma {:induction false} InsertByAgeDistinct(outbox: seq<Event>, r: nat, rows: seq<nat>)
    requires r < |outbox| && InRange(outbox, rows) && Distinct(rows) && r !in rows
    ensures Distinct(InsertByAge(outbox, r, rows))
  {
    if rows != [] {
      InsertByAgeDistinct(outbox, r, rows[1..]);
      var t := InsertByAge(outbox, r, rows[1..]);
      InsertByAgeMembers(outbox, r, rows[1..]);
      assert rows[0] !in t;
    }
  }

  lemma {:induction false} ByAgeSorts(outbox: seq<Event>, rows: seq<nat>)
    requires InRange(outbox, rows) && Distinct(rows)
    ensures var s := ByAge(outbox, rows);
      Aged(outbox, s) && Distinct(s) && |s| == |rows| && forall x :: x in s <==> x in rows
  {
    if rows != [] {
      var n := |rows| - 1;
      ByAgeSorts(outbox, rows[..n]);
      assert rows == rows[..n] + [rows[n]];
      assert forall i | 0 <= i < n :: rows[..n][i] == rows[i];
      InsertByAgeMembers(outbox, rows[n], ByAge(outbox, rows[..n]));
      InsertByAgeSorts(outbox, rows[n], ByAge(outbox, rows[..n]));
      InsertByAgeDistinct(outbox, rows[n], ByAge(outbox, rows[..n]));
    }
  }

  /** The fetched rows are the oldest pending ones, as many as there are up to the limit. */
  lemma FetchIsOldest(outbox: seq<Event>, limit: nat)
    ensures OldestBatch(outbox, limit, Fetch(outbox, limit))
  {
    PendingIsPending(outbox);
    ByAgeSorts(outbox, Pending(outbox));
    var sorted := ByAge(outbox, Pending(outbox));
    var rows := Fetch(outbox, limit);
    forall i | 0 <= i < |rows| ensures !outbox[rows[i]].published {
      assert sorted[i] in sorted;
    }
    forall r: nat, i | r < |outbox| && !outbox[r].published && r !in rows && 0 <= i < |rows|
      ensures outbox[rows[i]].createdAt <= outbox[r].createdAt
    {
      assert r in sorted;
      var k :| 0 <= k < |sorted| && sorted[k] == r;
    }
  }

  function MarkAll(outbox: seq<Event>, rows: seq<nat>): (after: seq<Event>)
    ensures |after| == |outbox|
    ensures forall r: nat | r < |outbox| :: after[r] == if r in rows then outbox[r].(published := true) else outbox[r]
  {
    seq(|outbox|, r requires 0 <= r < |outbox| => if r in rows then outbox[r].(published := true) else outbox[r])
  }

  lemma {:induction false} MarkOneShrinks(outbox: seq<Event>, r: nat)
    requires r < |outbox| && !outbox[r].published
    ensures |Pending(outbox[r := outbox[r].(published := true)])| == |Pending(outbox)| - 1
  {
    var n := |outbox| - 1;
    var after := outbox[r := outbox[r].(published := true)];
    if r < n {
      MarkOneShrinks(outbox[..n], r);
      assert after[..n] == outbox[..n][r := outbox[r].(published := true)];
    } else {
      assert after[..n] == outbox[..n];
    }
  }

  lemma {:induction false} MarkingShrinks(outbox: seq<Event>, rows: seq<nat>)
    requires InRange(outbox, rows) && Distinct(rows)
    requires forall i | 0 <= i < |rows| :: !outbox[rows[i]].published
    ensures |Pending(MarkAll(outbox, rows))| == |Pending(outbox)| - |rows|
  {
    if rows == [] {
      assert MarkAll(outbox, rows) == outbox;
    } else {
      var n := |rows| - 1;
      var before := MarkAll(outbox, rows[..n]);
      MarkingShrinks(outbox, rows[..n]);
      assert forall i | 0 <= i < n :: rows[..n][i] == rows[i];
      assert rows[n] !in rows[..n];
      MarkOneShrinks(before, rows[n]);
      assert rows == rows[..n] + [rows[n]];
      assert MarkAll(outbox, rows) == before[rows[n] := before[rows[n]].(published := true)];
    }
  }

  /** Successive successful batches; rows committed out of timestamp order, and ties, are picked in any order. */
  predicate GoodBatches(outbox: seq<Event>, size: nat, batches: seq<seq<nat>>)
    decreases |batches|
  {
    batches == [] || (OldestBatch(outbox, size, batches[0]) && GoodBatches(MarkAll(outbox, batches[0]), size, batches[1..]))
  }

  function AfterBatches(outbox: seq<Event>, batches: seq<seq<nat>>): seq<Event>
    decreases |batches|
  {
    if batches == [] then outbox else AfterBatches(MarkAll(outbox, batches[0]), batches[1..])
  }

  /** k successful batches leave exactly max(0, n - k * size) of n pending rows. */
  lemma {:induction false} BatchesDrain(outbox: seq<Event>, size: nat, batches: seq<seq<nat>>)
    requires GoodBatches(outbox, size, batches)
    ensures var n, k := |Pending(outbox)|, |batches|;
      |Pending(AfterBatches(outbox, batches))| == if Offset(size, k) <= n then n - Offset(size, k) else 0
    decreases |batches|
  {
    if batches != [] {
      MarkingShrinks(outbox, batches[0]);
      BatchesDrain(MarkAll(outbox, batches[0]), size, batches[1..]);
    }
  }

  /** The outbox is drained by ceil(n / size) batches and by no fewer. */
  lemma DrainedExactlyByCeiling(outbox: seq<Event>, size: nat, batches: seq<seq<nat>>)
    requires size >= 1 && GoodBatches(outbox, size, batches)
    ensures Pending(AfterBatches(outbox, batches)) == [] <==> |batches| >= (|Pending(outbox)| + size - 1) / size
  {
    BatchesDrain(outbox, size, batches);
    OffsetIsProduct(size, |batches|);
    CeilingMeans(|Pending(outbox)|, size, |batches|);
  }

  // ----- the producer and the batch loop -----

  /** What becomes of a queued message: acknowledged, in the log but reported as failed, or failed and gone. */
  datatype Verdict = Landed | LandedUnacked | Lost

  function Delivered(queue: seq<Payload>, verdicts: seq<Verdict>): seq<Payload>
    requires |verdicts| == |queue|
  {
    if queue == [] then []
    else Delivered(queue[..|queue| - 1], verdicts[..|queue| - 1])
         + if verdicts[|queue| - 1].Lost? then [] else [queue[|queue| - 1]]
  }

  /** What gets into the log is what was not lost. */
  lemma {:induction false} DeliveredMeans(queue: seq<Payload>, verdicts: seq<Verdict>, m: Payload)
    requires |verdicts| == |queue|
    ensures m in Delivered(queue, verdicts) <==> exists i :: 0 <= i < |queue| && queue[i] == m && verdicts[i] != Lost
  {
    if queue != [] {
      var n := |queue| - 1;
      DeliveredMeans(queue[..n], verdicts[..n], m);
      forall i | 0 <= i < n ensures queue[..n][i] == queue[i] && verdicts[..n][i] == verdicts[i] { }
    }
  }

  predicate Failed(verdicts: seq<Verdict>) {
    exists i | 0 <= i < |verdicts| :: !verdicts[i].Landed?
  }

  /** The producer's buffer and the broker's append-only log. */
  class Producer {
    var queue: seq<Payload>
    var log: seq<Payload>

    constructor ()
      ensures queue == [] && log == []
    {
      queue, log := [], [];
    }

    method Produce(m: Payload)
      modifies this`queue
      ensures queue == old(queue) + [m]
    {
      queue := queue + [m];
    }

    /** Resolves as many queued messages as the broker answers for in time; `errors` are the failed callbacks. */
    method Flush(answers: seq<Verdict>) returns (errors: seq<Verdict>)
      modifies this
      ensures var n := Min(|answers|, |old(queue)|);
        queue == old(queue)[n..] && log == old(log) + Delivered(old(queue)[..n], answers[..n])
        && (errors != [] <==> Failed(answers[..n]))
      ensures errors != [] <==> exists i :: 0 <= i < Min(|answers|, |old(queue)|) && answers[i] != Landed
      ensures forall m :: m in log <==>
        (m in old(log) || exists i :: 0 <= i < Min(|answers|, |old(queue)|) && old(queue)[i] == m && answers[i] != Lost)
    {
      errors := [];
      var n := Min(|answers|, |queue|);
      for i := 0 to n
        invariant queue == old(queue)
        invariant log == old(log) + Delivered(old(queue)[..i], answers[..i])
        invariant errors != [] <==> Failed(answers[..i])
      {
        assert queue[..i + 1][..i] == queue[..i] && answers[..i + 1][..i] == answers[..i];
        assert forall j | 0 <= j < i :: answers[..i + 1][j] == answers[..i][j];
        assert answers[..i + 1][i] == answers[i];
        if !answers[i].Lost? {
          log := log + [queue[i]];
        }
        if !answers[i].Landed? {
          errors := errors + [answers[i]];
        }
      }
      queue := queue[n..];
      forall m ensures m in Delivered(old(queue)[..n], answers[..n]) <==>
        exists i :: 0 <= i < n && old(queue)[i] == m && answers[i] != Lost {
        DeliveredMeans(old(queue)[..n], answers[..n], m);
      }
    }
  }

  function Payloads(outbox: seq<Event>, rows: seq<nat>): seq<Payload>
    requires InRange(outbox, rows)
  {
    seq(|rows|, i requires 0 <= i < |rows| => outbox[rows[i]].payload)
  }

  class OutboxSession {
    var committed: seq<Event>
    var work: seq<Event>

    constructor (rows: seq<Event>)
      ensures committed == work == rows
    {
      committed, work := rows, rows;
    }
  }

  class OutboxPublisher {
    const producer: Producer
    const batchSize: nat
    var deliveryErrors: seq<Verdict>

    constructor (producer: Producer, batchSize: nat)
      ensures this.producer == producer && this.batchSize == batchSize
    {
      this.producer, this.batchSize, deliveryErrors := producer, batchSize, [];
    }

    method ProduceAll(rows: seq<Event>, events: seq<nat>)
      requires InRange(rows, events)
      modifies producer`queue
      ensures producer.queue == old(producer.queue) + Payloads(rows, events)
    {
      for i := 0 to |events|
        invariant producer.queue == old(producer.queue) + Payloads(rows, events[..i])
      {
        producer.Produce(rows[events[i]].payload);
        assert Payloads(rows, events[..i + 1]) == Payloads(rows, events[..i]) + [rows[events[i]].payload];
      }
      assert events[..|events|] == events;
    }

    method MarkEach(db: OutboxSession, events: seq<nat>)
      requires InRange(db.work, events)
      modifies db`work
      ensures db.work == MarkAll(old(db.work), events)
    {
      for i := 0 to |events|
        invariant db.work == MarkAll(old(db.work), events[..i])
      {
        assert events[..i + 1] == events[..i] + [events[i]];
        db.work := db.work[events[i] := db.work[events[i]].(published := true)];
      }
      assert events[..|events|] == events;
    }

    /** None stands for the raised RuntimeError. The number of messages still queued after the flush is
        ignored, as it is in the code. */
    method PublishBatch(db: OutboxSession, answers: seq<Verdict>) returns (published: Option<nat>)
      modifies this, producer, db`work
      ensures var batch := Fetch(old(db.work), batchSize);
        var sent := old(producer.queue) + Payloads(old(db.work), batch);
        var n := Min(|answers|, |sent|);
        if batch == [] then published == Some(0) && db.work == old(db.work)
          && producer.log == old(producer.log) && producer.queue == old(producer.queue)
        else
          producer.queue == sent[n..] && producer.log == old(producer.log) + Delivered(sent[..n], answers[..n])
          && (if Failed(answers[..n]) then published == None && db.work == old(db.work)
              else published == Some(|batch|) && db.work == MarkAll(old(db.work), batch))
      ensures var batch := Fetch(old(db.work), batchSize);
        published == None <==>
        (batch != [] && exists i :: 0 <= i < Min(|answers|, |old(producer.queue)| + |batch|) && answers[i] != Landed)
      ensures published == None ==> db.work == old(db.work)
    {
      var events := Fetch(db.work, batchSize);
      if events == [] { return Some(0); }
      deliveryErrors := [];
      ProduceAll(db.work, events);
      var errors := producer.Flush(answers);
      deliveryErrors := errors;
      if deliveryErrors != [] { return None; }
      MarkEach(db, events);
      return Some(|events|);
    }

    /** One turn of the worker loop: all rows of the batch are committed as published, or none is. If the
        flush drained the queue, every event committed as published is in the broker's log. */
    method Turn(db: OutboxSession, answers: seq<Verdict>) returns (published: nat)
      requires db.work == db.committed
      modifies this, producer, db
      ensures var batch := Fetch(old(db.committed), batchSize);
        && db.work == db.committed
        && db.committed == (if published == 0 then old(db.committed) else MarkAll(old(db.committed), batch))
        && published == (if forall i | 0 <= i < Min(|answers|, |old(producer.queue)| + |batch|) :: answers[i] == Landed
                         then |batch| else 0)
        && (published > 0 && producer.queue == [] ==>
              forall i | 0 <= i < |batch| :: old(db.committed)[batch[i]].payload in producer.log)
      ensures old(producer.log) <= producer.log
    {
      ghost var rows := db.committed;
      ghost var batch := Fetch(rows, batchSize);
      ghost var sent := producer.queue + Payloads(rows, batch);
      var result := PublishBatch(db, answers);
      if result.Some? {
        db.committed := db.work;
        published := result.value;
        if published > 0 && producer.queue == [] {
          assert sent[..|sent|] == sent;
          forall i | 0 <= i < |batch| ensures rows[batch[i]].payload in producer.log {
            assert sent[|old(producer.queue)| + i] == rows[batch[i]].payload;
            DrainedFlushLands(sent, answers[..|sent|], rows[batch[i]].payload);
          }
        }
      } else {
        db.work := db.committed;
        published := 0;
      }
    }
  }

  /** A batch that reported no error and drained its queue has put every message it sent into the log. */
  lemma {:induction false} DrainedFlushLands(sent: seq<Payload>, answers: seq<Verdict>, m: Payload)
    requires |answers| == |sent| && !Failed(answers) && m in sent
    ensures m in Delivered(sent, answers)
  {
    var n := |sent| - 1;
    assert answers[n].Landed?;
    if m in sent[..n] {
      assert forall i | 0 <= i < n :: answers[..n][i] == answers[i];
      DrainedFlushLands(sent[..n], answers[..n], m);
    } else {
      assert sent == sent[..n] + [sent[n]];
    }
  }
}
