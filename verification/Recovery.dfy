/** From any reachable state the event path can drain completely: no crash, failed batch or rewind wedges it. */
module Recovery {
  import opened Rows
  import opened Books
  import opened Publisher
  import opened Analytics
  import opened Pipeline
  import opened Delivery

  /** Each published event is processed, or ahead of the consumer in the log, or still queued. */
  predicate Retrievable(s: Pipe) {
    s.position <= |s.log|
    && forall i | 0 <= i < |s.db.outbox| && s.db.outbox[i].published ::
         s.db.outbox[i].aggregate in s.rollup.inbox || s.db.outbox[i].payload in s.log[s.position..]
         || s.db.outbox[i].payload in s.queue
  }

  /** Publisher and consumer are between two events, the buffer is empty, and no event is out of reach. */
  predicate Rested(s: Pipe) {
    s.sender.Idle? && s.queue == [] && !s.handled && Retrievable(s)
  }

  lemma FetchOne(s: Pipe) returns (r: nat)
    requires s.sender.Idle? && Pending(s.db.outbox) != []
    ensures r < |s.db.outbox| && Enabled(s, FetchBatch(1, [r]))
    ensures |Pending(MarkAll(s.db.outbox, [r]))| < |Pending(s.db.outbox)|
  {
    var rows := Fetch(s.db.outbox, 1);
    FetchIsOldest(s.db.outbox, 1);
    MarkingShrinks(s.db.outbox, rows);
    r := rows[0];
    assert rows == [r];
  }

  /** The state after the one fetched event was produced, acknowledged and marked. */
  function Shipped(s: Pipe, r: nat): Pipe
    requires r < |s.db.outbox|
  {
    s.(db := s.db.(outbox := MarkAll(s.db.outbox, [r])), sender := Idle, log := s.log + [s.db.outbox[r].payload])
  }

  lemma ShipOne(s: Pipe, r: nat, rest: seq<Action>, end: Pipe) returns (acts: seq<Action>)
    requires r < |s.db.outbox| && s.sender == Sending([r], 0) && s.queue == [] && s.errors == 0
    requires Reaches(Shipped(s, r), rest, end)
    ensures Reaches(s, acts, end)
  {
    var m := s.db.outbox[r].payload;
    var produced := s.(sender := Sending([r], 1), queue := [m]);
    var landed := produced.(queue := [], log := s.log + [m]);
    assert Do(s, Produce) == produced;
    assert Do(produced, Resolve(0, Landed)) == landed;
    assert Do(landed, Mark) == Shipped(s, r);
    RunsOn(landed, Mark, rest, end);
    RunsOn(produced, Resolve(0, Landed), [Mark] + rest, end);
    acts := [Produce] + ([Resolve(0, Landed)] + ([Mark] + rest));
    RunsOn(s, Produce, [Resolve(0, Landed)] + ([Mark] + rest), end);
  }

  lemma ShippingKeepsInv(s: Pipe, r: nat)
    requires PipeInv(s) && r < |s.db.outbox| && s.sender == Sending([r], 0) && s.queue == [] && s.errors == 0
    ensures PipeInv(Shipped(s, r))
  {
    var m := s.db.outbox[r].payload;
    var produced := s.(sender := Sending([r], 1), queue := [m]);
    var landed := produced.(queue := [], log := s.log + [m]);
    DoKeepsInv(s, Produce);
    assert Do(s, Produce) == produced;
    DoKeepsInv(produced, Resolve(0, Landed));
    assert Do(produced, Resolve(0, Landed)) == landed;
    DoKeepsInv(landed, Mark);
    assert Do(landed, Mark) == Shipped(s, r);
  }

  /** The true count and total of every key fit the rollup's columns. */
  ghost predicate LedgerFits(db: Db) {
    forall key :: StatRowOk(LedgerTally(db.ledger, db.txns, key))
  }

  lemma LedgerIsTally(db: Db, key: StatKey)
    requires BookInv(db)
    ensures Tally(db.outbox, db.txns.Keys, key) == LedgerTally(db.ledger, db.txns, key)
    ensures forall i | 0 <= i < |db.outbox| :: db.outbox[i].payload.amount >= 0
  {
    var n := |db.outbox|;
    OutboxTalliesLedger(db, db.txns.Keys, key, n);
    assert db.outbox[..n] == db.outbox && db.ledger[..2 * n] == db.ledger;
    forall i | 0 <= i < n ensures db.outbox[i].payload.amount >= 0 {
      assert PairAt(db, i);
      assert LegRowOk(db.ledger[2 * i]);
    }
  }

  /** While the truth fits, so does every partial count on the way. */
  lemma NextMessageFits(s: Pipe)
    requires PipeInv(s) && LedgerFits(s.db) && s.position < |s.log|
    ensures AbsorbFits(s.rollup, s.log[s.position])
  {
    var m := s.log[s.position];
    var key := KeyFor(m);
    assert Known(s.db, m);
    var i := KnownRow(s.db, m);
    if m.txn !in s.rollup.inbox {
      assert ExactAt(s.rollup, s.db.outbox, key);
      TallyAdds(s.db.outbox, s.rollup.inbox, i, m.txn, key);
      LedgerIsTally(s.db, key);
      TallyGrows(s.db.outbox, s.rollup.inbox + {m.txn}, s.db.txns.Keys, key);
      assert StatRowOk(LedgerTally(s.db.ledger, s.db.txns, key));
    }
  }

  lemma ShippingStaysRested(s: Pipe, r: nat)
    requires Rested(s) && PipeInv(s) && r < |s.db.outbox|
    ensures Rested(Shipped(s, r))
  {
    var t := Shipped(s, r);
    assert t.log[t.position..] == s.log[s.position..] + [s.db.outbox[r].payload];
  }

  /** The consumer handles its next message and commits the offset. */
  function Read(s: Pipe): Pipe
    requires s.position < |s.log|
  {
    s.(rollup := Absorb(s.rollup, s.log[s.position]), position := s.position + 1, offset := s.position + 1)
  }

  lemma ReadOne(s: Pipe, rest: seq<Action>, end: Pipe) returns (acts: seq<Action>)
    requires PipeInv(s) && !s.handled && LedgerFits(s.db) && s.position < |s.log| && Reaches(Read(s), rest, end)
    ensures Reaches(s, acts, end)
  {
    NextMessageFits(s);
    var handled := Do(s, Handle(true));
    assert Do(handled, CommitOffset(true)) == Read(s);
    RunsOn(handled, CommitOffset(true), rest, end);
    RunsOn(s, Handle(true), [CommitOffset(true)] + rest, end);
    acts := [Handle(true)] + ([CommitOffset(true)] + rest);
  }

  lemma ReadingKeepsInv(s: Pipe)
    requires PipeInv(s) && !s.handled && LedgerFits(s.db) && s.position < |s.log|
    ensures PipeInv(Read(s))
  {
    NextMessageFits(s);
    var handled := Do(s, Handle(true));
    DoKeepsInv(s, Handle(true));
    DoKeepsInv(handled, CommitOffset(true));
    assert Do(handled, CommitOffset(true)) == Read(s);
  }

  lemma ReadingStaysRested(s: Pipe)
    requires Rested(s) && PipeInv(s) && s.position < |s.log|
    ensures Rested(Read(s))
  {
    var t, m := Read(s), s.log[s.position];
    assert s.log[s.position..] == [m] + t.log[t.position..];
    forall i | 0 <= i < |t.db.outbox| && t.db.outbox[i].published && t.db.outbox[i].payload == m
      ensures t.db.outbox[i].aggregate in t.rollup.inbox
    {
      assert PairAt(s.db, i);
    }
  }

  /** The consumer works off the log. */
  lemma {:induction false} ReadAll(s: Pipe) returns (acts: seq<Action>, end: Pipe)
    requires PipeInv(s) && Rested(s) && LedgerFits(s.db) && Pending(s.db.outbox) == []
    ensures Reaches(s, acts, end) && PipeInv(end) && Rested(end) && Drained(end) && end.db == s.db
    decreases |s.log| - s.position
  {
    if s.position < |s.log| {
      ReadingKeepsInv(s);
      ReadingStaysRested(s);
      acts, end := ReadAll(Read(s));
      acts := ReadOne(s, acts, end);
    } else {
      acts, end := [], s;
    }
  }

  lemma {:induction false} PublishAll(s: Pipe) returns (acts: seq<Action>, end: Pipe)
    requires PipeInv(s) && Rested(s) && LedgerFits(s.db)
    ensures Reaches(s, acts, end) && PipeInv(end) && Rested(end) && Drained(end)
    ensures end.db == s.db.(outbox := end.db.outbox)
    decreases |Pending(s.db.outbox)|
  {
    if Pending(s.db.outbox) != [] {
      var r := FetchOne(s);
      var fetch := FetchBatch(1, [r]);
      DoKeepsInv(s, fetch);
      ShippingKeepsInv(Do(s, fetch), r);
      ShippingStaysRested(s, r);
      assert Shipped(Do(s, fetch), r) == Shipped(s, r).(errors := 0);
      var rest;
      rest, end := PublishAll(Shipped(Do(s, fetch), r));
      rest := ShipOne(Do(s, fetch), r, rest, end);
      RunsOn(s, fetch, rest, end);
      acts := [fetch] + rest;
    } else {
      acts, end := ReadAll(s);
    }
  }

  lemma LandingStaysRetrievable(s: Pipe)
    requires PipeInv(s) && Retrievable(s) && s.queue != []
    ensures Retrievable(Do(s, Resolve(0, Landed)))
  {
    var t := Do(s, Resolve(0, Landed));
    assert t.log[t.position..] == s.log[s.position..] + [s.queue[0]];
    assert s.queue == [s.queue[0]] + t.queue;
  }

  /** The broker takes everything that is still queued. */
  lemma {:induction false} LandAll(s: Pipe) returns (acts: seq<Action>, end: Pipe)
    requires PipeInv(s) && Retrievable(s) && !s.handled
    ensures Reaches(s, acts, end) && PipeInv(end) && Retrievable(end) && !end.handled
    ensures end.queue == [] && end.db == s.db && end.sender == s.sender
    decreases |s.queue|
  {
    if s.queue != [] {
      DoKeepsInv(s, Resolve(0, Landed));
      LandingStaysRetrievable(s);
      var rest;
      rest, end := LandAll(Do(s, Resolve(0, Landed)));
      RunsOn(s, Resolve(0, Landed), rest, end);
      acts := [Resolve(0, Landed)] + rest;
    } else {
      acts, end := [], s;
    }
  }

  /** The publisher gives up its batch, if it has one, and starts over. */
  lemma GiveUpAndPublish(s: Pipe) returns (acts: seq<Action>, end: Pipe)
    requires PipeInv(s) && Retrievable(s) && !s.handled && s.queue == [] && LedgerFits(s.db)
    ensures Reaches(s, acts, end) && PipeInv(end) && Rested(end) && Drained(end)
    ensures end.db == s.db.(outbox := end.db.outbox)
  {
    if s.sender.Sending? {
      DoKeepsInv(s, GiveUp);
      var rest;
      rest, end := PublishAll(Do(s, GiveUp));
      RunsOn(s, GiveUp, rest, end);
      acts := [GiveUp] + rest;
    } else {
      acts, end := PublishAll(s);
    }
  }

  lemma RestedMeansComplete(s: Pipe)
    requires PipeInv(s) && Rested(s) && Drained(s)
    ensures Quiescent(s)
  {
    PendingIsPending(s.db.outbox);
    forall i: nat | i < |s.db.outbox| ensures s.db.outbox[i].payload in s.log {
      assert i !in Pending(s.db.outbox);
      ProcessedMeansLogged(s, i);
    }
    forall t | t in s.db.txns ensures t in s.rollup.inbox {
      assert Listed(s.db, t);
      var i: nat :| i < |s.db.outbox| && s.db.outbox[i].aggregate == t;
      assert i !in Pending(s.db.outbox);
    }
  }

  predicate NothingGone(s: Pipe) {
    forall i | 0 <= i < |s.db.outbox| :: !Gone(s, i)
  }

  /** Unless an event is gone, a restart of the consumer followed by ordinary work completes the rollup. */
  lemma Recovers(s: Pipe) returns (acts: seq<Action>, end: Pipe)
    requires PipeInv(s) && LedgerFits(s.db) && NothingGone(s)
    ensures Reaches(s, acts, end) && PipeInv(end) && Quiescent(end)
    ensures end.db == s.db.(outbox := end.db.outbox)
  {
    var restarted := Do(s, ConsumerCrash);
    DoKeepsInv(s, ConsumerCrash);
    forall i | 0 <= i < |s.db.outbox| && s.db.outbox[i].published
      ensures s.db.outbox[i].aggregate in s.rollup.inbox || s.db.outbox[i].payload in s.log[s.offset..]
        || s.db.outbox[i].payload in s.queue
    {
      assert !Gone(s, i);
    }
    var landing, landed := LandAll(restarted);
    acts, end := GiveUpAndPublish(landed);
    RestedMeansComplete(end);
    RunThenRun(restarted, landing, landed, acts, end);
    RunsOn(s, ConsumerCrash, landing + acts, end);
    acts := [ConsumerCrash] + (landing + acts);
  }

  lemma NoLeakNothingGone(s: Pipe)
    requires PipeInv(s) && s.leaks == 0 && s.raised <= s.rollup.inbox
    ensures NothingGone(s)
  {
    forall i | 0 <= i < |s.db.outbox| && s.db.outbox[i].published
      ensures s.db.outbox[i].aggregate in s.rollup.inbox || s.db.outbox[i].payload in s.log[s.offset..]
    {
      var k :| 0 <= k < |s.log| && s.log[k] == s.db.outbox[i].payload;
      assert PairAt(s.db, i);
      if k >= s.offset {
        InSuffix(s.log, s.offset, k);
      }
    }
  }

  /** Whatever state crashes left behind, as long as no batch leaked and no raise is left unprocessed, ordinary work
      reaches a state in which every rollup row equals the one computed from the ledger, which has not changed. */
  lemma AlwaysRecovers(before: seq<Action>, s: Pipe) returns (acts: seq<Action>, end: Pipe)
    requires Reaches(INIT, before, s) && s.raised <= s.rollup.inbox && s.leaks == 0
    requires LedgerFits(s.db)
    ensures Reaches(s, acts, end) && Quiescent(end)
    ensures end.db == s.db.(outbox := end.db.outbox)
    ensures forall key :: StatOf(end.rollup.stats, key) == LedgerTally(s.db.ledger, s.db.txns, key)
  {
    FromInit(before, s);
    NoLeakNothingGone(s);
    acts, end := Recovers(s);
    forall key ensures StatOf(end.rollup.stats, key) == LedgerTally(s.db.ledger, s.db.txns, key) {
      QuiescentMatches(end, key);
    }
  }

  /** The rollup agrees with the ledger on every key. */
  ghost predicate Complete(s: Pipe) {
    forall key :: StatOf(s.rollup.stats, key) == LedgerTally(s.db.ledger, s.db.txns, key)
  }

  /** A run that commits nothing new and ends with a complete rollup. */
  ghost predicate Completes(s: Pipe, acts: seq<Action>, end: Pipe) {
    Reaches(s, acts, end) && Complete(end) && end.db == s.db.(outbox := end.db.outbox)
  }

  lemma CompleteFits(s: Pipe)
    requires PipeInv(s) && Complete(s)
    ensures LedgerFits(s.db)
  {
    forall key ensures StatRowOk(LedgerTally(s.db.ledger, s.db.txns, key)) {
      assert StatOf(s.rollup.stats, key) == LedgerTally(s.db.ledger, s.db.txns, key);
    }
  }

  lemma GoneIsMissing(s: Pipe, i: nat)
    requires PipeInv(s) && Gone(s, i)
    ensures s.rollup.inbox != s.db.txns.Keys
  {
    assert PairAt(s.db, i);
  }

  lemma CompletionNeedsBoth(before: seq<Action>, s: Pipe, acts: seq<Action>, end: Pipe)
    requires Reaches(INIT, before, s) && Completes(s, acts, end)
    ensures LedgerFits(s.db) && NothingGone(s)
  {
    FromInit(before, s);
    ReachableSound(s, acts, end);
    CompleteFits(end);
    RunThenRun(INIT, before, s, acts, end);
    forall i | 0 <= i < |s.db.outbox| ensures !Gone(s, i) {
      if Gone(s, i) {
        GoneForGood(s, acts, end, i);
        GoneIsMissing(end, i);
        RollupCompleteExactly(before + acts, end);
        assert false;
      }
    }
  }

  /** From every reachable state, whatever failed before: a complete rollup of the committed ledger can be reached if
      and only if the ledger's counts and totals fit the rollup's columns and no event is gone. */
  lemma RecoverableExactly(before: seq<Action>, s: Pipe)
    requires Reaches(INIT, before, s)
    ensures LedgerFits(s.db) && NothingGone(s) <==> exists acts, end :: Completes(s, acts, end)
  {
    FromInit(before, s);
    if LedgerFits(s.db) && NothingGone(s) {
      var acts, end := Recovers(s);
      forall key ensures StatOf(end.rollup.stats, key) == LedgerTally(end.db.ledger, end.db.txns, key) {
        QuiescentMatches(end, key);
      }
      assert Completes(s, acts, end);
    }
    forall acts, end | Completes(s, acts, end) ensures LedgerFits(s.db) && NothingGone(s) {
      CompletionNeedsBoth(before, s, acts, end);
    }
  }
}
