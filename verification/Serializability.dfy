/** What every interleaving of the row-locked requests guarantees. */
module Serializability {
  import opened Rows
  import opened Operations
  import opened Books
  import opened Interleaving

  /** Whatever is interleaved or aborted, the committed tables are those of the committed operations run
      one at a time in commit order, each of which commits there too; and the books are sound. */
  lemma InterleavedRunsAreSerial(acts: seq<Action>, s: Sys)
    requires Reaches(INIT, acts, s)
    ensures s.db == Run(EMPTY_DB, s.log) && LogCommits(s.log)
    ensures BookInv(s.db)
  {
    InitSound();
    ReachableSound(INIT, acts, s);
  }

  /** The operation that a step can commit: the stepping request with its own draws, or the wallet creation. */
  function OpOf(s: Sys, a: Action): Option<Op> {
    match a
    case Advance(p) => if p < |s.procs| then Some(Money(s.procs[p].req, DrawsOf(s.procs[p]))) else None
    case InsertNew(m, id) =>
      if m < |s.makers| then Some(NewWallet(id, s.makers[m].owner, s.makers[m].currency)) else None
    case _ => None
  }

  /** One step either leaves the tables and the log alone, or appends its own operation to the log and changes
      the tables (and, for a request, reports) exactly as that operation does on its own. */
  lemma StepsAreAtomic(acts: seq<Action>, s: Sys, a: Action)
    requires Reaches(INIT, acts, s) && Enabled(s, a)
    ensures var s' := Do(s, a);
      || (s'.log == s.log && s'.db == s.db)
      || (OpOf(s, a).Some? && s'.log == s.log + [OpOf(s, a).value]
          && s'.db == Apply(s.db, OpOf(s, a).value).db
          && (a.Advance? ==> s'.procs[a.p].phase == Finished(Apply(s.db, OpOf(s, a).value).outcome)))
  {
    InitSound();
    ReachableSound(INIT, acts, s);
    if a.Advance? && Commits(s.procs[a.p]) {
      assert ProcSound(s.db, s.nextSeq, s.procs[a.p]);
      CommitIsAtomic(s.db, s.nextSeq, s.procs[a.p]);
    }
  }

  /** A row read under lock is the committed row for as long as the lock lasts, and nobody else locks it. */
  lemma LockedRowsAreCurrent(acts: seq<Action>, s: Sys, i: nat, w: WalletId)
    requires Reaches(INIT, acts, s) && i < |s.procs| && Holds(s.procs[i], w)
    ensures w in s.db.wallets && s.db.wallets[w] == s.procs[i].local[w]
    ensures forall j | 0 <= j < |s.procs| && j != i :: !Holds(s.procs[j], w)
  {
    InitSound();
    ReachableSound(INIT, acts, s);
    assert ProcSound(s.db, s.nextSeq, s.procs[i]);
    forall j | 0 <= j < |s.procs| && j != i ensures !Holds(s.procs[j], w) {
      assert Apart(s.procs[i], s.procs[j]);
    }
  }

  /** A wallet was created after this request had looked for it, and that decides its answer. */
  predicate MissedNewWallet(db: Db, p: Proc) {
    var found := Validate(p.req, Find(p.local, p.req.wallet), RecipientRow(p.local, p.req));
    || (found == Some(WalletNotFound) && p.req.wallet in db.wallets)
    || (found == Some(RecipientNotFound) && p.req.recipient in db.wallets)
  }

  lemma ErrorIsCurrentExactly(db: Db, n: int, p: Proc)
    requires p.phase.Locking? && p.tried == |LockPlan(p.req)| && LiveSound(db, n, p)
    ensures Validate(p.req, Find(p.local, p.req.wallet), RecipientRow(p.local, p.req))
         == Validate(p.req, Find(db.wallets, p.req.wallet), RecipientRow(db.wallets, p.req))
      <==> !MissedNewWallet(db, p)
  {
  }

  /** What validation under lock finds is what the request would meet running alone right then, if and only
      if it is not a "not found" about a wallet that exists by now. */
  lemma ErrorsAreCurrent(acts: seq<Action>, s: Sys, i: nat)
    requires Reaches(INIT, acts, s) && i < |s.procs| && s.procs[i].phase.Locking?
    requires s.procs[i].tried == |LockPlan(s.procs[i].req)|
    ensures var p := s.procs[i];
      Validate(p.req, Find(p.local, p.req.wallet), RecipientRow(p.local, p.req))
      == Validate(p.req, Find(s.db.wallets, p.req.wallet), RecipientRow(s.db.wallets, p.req))
      <==> !MissedNewWallet(s.db, p)
  {
    InitSound();
    ReachableSound(INIT, acts, s);
    assert ProcSound(s.db, s.nextSeq, s.procs[i]);
    ErrorIsCurrentExactly(s.db, s.nextSeq, s.procs[i]);
  }

  /** Another request bound this one's key after its replay check. */
  predicate Outrun(db: Db, p: Proc) {
    !p.phase.Arrived? && !p.req.Deposit? && p.req.key.Some? && p.req.key.value != "" && p.req.key.value in db.keys
  }

  lemma StoppedAnswer(db: Db, n: int, p: Proc)
    requires 2 <= Rank(p.phase) <= 5 && LiveSound(db, n, p) && !Live(Stepped(db, n, p))
    ensures Stepped(db, n, p).phase == Finished(Failed(FlushRejected))
    ensures Apply(db, Money(p.req, DrawsOf(p))).outcome == Failed(FlushRejected) <==> !Outrun(db, p)
  {
    LocalRowsAgree(db, n, p);
  }

  lemma ValidationAnswer(db: Db, n: int, p: Proc)
    requires p.phase.Locking? && LiveSound(db, n, p) && !Live(Stepped(db, n, p))
    ensures Stepped(db, n, p).phase.outcome == Apply(db, Money(p.req, DrawsOf(p))).outcome
      <==> !Outrun(db, p) && !MissedNewWallet(db, p)
  {
    ErrorIsCurrentExactly(db, n, p);
  }

  lemma AnswerIsCurrentExactly(db: Db, n: int, p: Proc)
    requires Live(p) && LiveSound(db, n, p) && !Live(Stepped(db, n, p))
    ensures Stepped(db, n, p).phase.outcome == Apply(db, Money(p.req, DrawsOf(p))).outcome
      <==> !Outrun(db, p) && !(p.phase.Locking? && MissedNewWallet(db, p))
  {
    match p.phase
    case Arrived =>
    case Locking => ValidationAnswer(db, n, p);
    case Committing => CommitIsAtomic(db, n, p);
    case _ => StoppedAnswer(db, n, p);
  }

  /** Every answer, error or not, is the one `Apply` gives on the tables of that very moment, if and only if
      the request was neither outrun on its key nor missed a wallet created after its lookup. */
  lemma AnswersAreAtomicExactly(acts: seq<Action>, s: Sys, i: nat)
    requires Reaches(INIT, acts, s) && CanStep(s, i) && !Live(Do(s, Advance(i)).procs[i])
    ensures var p := s.procs[i];
      Do(s, Advance(i)).procs[i].phase.outcome == Apply(s.db, Money(p.req, DrawsOf(p))).outcome
      <==> !Outrun(s.db, p) && !(p.phase.Locking? && MissedNewWallet(s.db, p))
  {
    InitSound();
    ReachableSound(INIT, acts, s);
    assert ProcSound(s.db, s.nextSeq, s.procs[i]);
    AnswerIsCurrentExactly(s.db, s.nextSeq, s.procs[i]);
  }

  /** Of all requests that share an idempotency key, at most one ever commits. */
  lemma KeyCommitsOnce(acts: seq<Action>, s: Sys, i: nat, j: nat)
    requires Reaches(INIT, acts, s) && i < |s.procs| && j < |s.procs| && i != j
    requires s.procs[i].phase.Finished? && s.procs[i].phase.outcome.Done?
    requires s.procs[j].phase.Finished? && s.procs[j].phase.outcome.Done?
    ensures var x, y := s.procs[i].req, s.procs[j].req;
      !x.Deposit? && !y.Deposit? && x.key.Some? ==> x.key != y.key
  {
    InitSound();
    ReachableSound(INIT, acts, s);
    assert ProcSound(s.db, s.nextSeq, s.procs[i]) && ProcSound(s.db, s.nextSeq, s.procs[j]);
    assert Apart(s.procs[i], s.procs[j]);
  }

  lemma BoundKeyRejects(db: Db, n: int, x: Proc, y: Proc)
    requires x.phase.Opening? && !KeyAccepted(db.keys, x.req)
    ensures !Waits(db, x, y) && Stepped(db, n, x) == Failing(x, FlushRejected)
  {
  }

  lemma LoserWaits(s: Sys, i: nat, j: nat)
    requires i < |s.procs| && j < |s.procs| && i != j
    requires s.procs[i].phase.Committing? && s.procs[j].phase.Opening?
    requires !s.procs[i].req.Deposit? && !s.procs[j].req.Deposit?
    requires s.procs[i].req.key.Some? && s.procs[i].req.key == s.procs[j].req.key
    requires LiveSound(s.db, s.nextSeq, s.procs[i])
    ensures WaitsFor(s, j, i) && Commits(s.procs[i])
  {
  }

  lemma WinnerBinds(s: Sys, i: nat, x: Proc)
    requires CanStep(s, i) && Commits(s.procs[i])
    requires !s.procs[i].req.Deposit? && !x.req.Deposit?
    requires s.procs[i].req.key.Some? && s.procs[i].req.key == x.req.key
    ensures !KeyAccepted(Do(s, Advance(i)).db.keys, x.req)
  {
  }

  lemma BoundKeyStep(s: Sys, j: nat)
    requires j < |s.procs| && s.procs[j].phase.Opening? && !KeyAccepted(s.db.keys, s.procs[j].req)
    ensures CanStep(s, j) && Do(s, Advance(j)).db == s.db
    ensures Do(s, Advance(j)).procs[j].phase == Finished(Failed(FlushRejected))
  {
    forall q: nat | q < |s.procs| ensures !WaitsFor(s, j, q) {
      BoundKeyRejects(s.db, s.nextSeq, s.procs[j], s.procs[q]);
    }
    BoundKeyRejects(s.db, s.nextSeq, s.procs[j], s.procs[j]);
  }

  /** The race for a key between requests on different rows: the second insert waits for the first, and once
      the first has committed it is rejected and changes nothing. `Races` treats requests on common rows. */
  lemma RaceLoserIsRejected(acts: seq<Action>, s: Sys, i: nat, j: nat)
    requires Reaches(INIT, acts, s) && i < |s.procs| && j < |s.procs| && i != j
    requires s.procs[i].phase.Committing? && s.procs[j].phase.Opening? && CanStep(s, i)
    requires !s.procs[i].req.Deposit? && !s.procs[j].req.Deposit?
    requires s.procs[i].req.key.Some? && s.procs[i].req.key == s.procs[j].req.key
    ensures WaitsFor(s, j, i)
    ensures var won := Do(s, Advance(i));
      CanStep(won, j) && Do(won, Advance(j)).db == won.db
      && Do(won, Advance(j)).procs[j].phase == Finished(Failed(FlushRejected))
  {
    InitSound();
    ReachableSound(INIT, acts, s);
    assert ProcSound(s.db, s.nextSeq, s.procs[i]);
    LoserWaits(s, i, j);
    WinnerBinds(s, i, s.procs[j]);
    BoundKeyStep(Do(s, Advance(i)), j);
  }

  /** A transaction id occurs nowhere in the committed tables. */
  ghost predicate NoTrace(db: Db, t: TxnId) {
    && t !in db.txns
    && (forall k | k in db.keys :: db.keys[k] != t)
    && (forall i | 0 <= i < |db.ledger| :: db.ledger[i].txn != t)
    && (forall i | 0 <= i < |db.outbox| :: db.outbox[i].aggregate != t && db.outbox[i].payload.txn != t)
  }

  lemma HeaderlessLeavesNoTrace(db: Db, t: TxnId)
    requires BookInv(db) && t !in db.txns
    ensures NoTrace(db, t)
  {
    forall i | 0 <= i < |db.ledger| ensures db.ledger[i].txn != t {
      assert PairAt(db, i / 2);
      assert i == 2 * (i / 2) || i == 2 * (i / 2) + 1;
    }
    forall i | 0 <= i < |db.outbox| ensures db.outbox[i].aggregate != t && db.outbox[i].payload.txn != t {
      assert PairAt(db, i);
    }
  }

  /** A request that is still in flight, or ended in a replay, an error or a crash, is nowhere to be seen;
      a committed one has its header. PENDING is never visible. */
  lemma AllOrNothing(acts: seq<Action>, s: Sys, i: nat)
    requires Reaches(INIT, acts, s) && i < |s.procs|
    ensures var p := s.procs[i];
      if p.phase.Finished? && p.phase.outcome.Done?
      then p.id in s.db.txns && s.db.txns[p.id].key == (if p.req.Deposit? then None else p.req.key)
      else NoTrace(s.db, p.id)
    ensures forall t | t in s.db.txns :: s.db.txns[t].status == COMPLETED
  {
    InitSound();
    ReachableSound(INIT, acts, s);
    assert ProcSound(s.db, s.nextSeq, s.procs[i]);
    if s.procs[i].id !in s.db.txns {
      HeaderlessLeavesNoTrace(s.db, s.procs[i].id);
    }
    forall t | t in s.db.txns ensures s.db.txns[t].status == COMPLETED {
      assert Listed(s.db, t);
      var k :| 0 <= k < |s.db.outbox| && s.db.outbox[k].aggregate == t;
      assert PairAt(s.db, k);
    }
  }

  /** On each wallet the identity column orders the legs as they were committed, although requests draw it
      before they commit; and no prefix of the ledger ever shows a wallet below zero. */
  lemma WalletHistoryIsOrdered(acts: seq<Action>, s: Sys)
    requires Reaches(INIT, acts, s)
    ensures WalletOrdered(s.db.ledger)
    ensures forall k: nat, w: WalletId | k <= |s.db.ledger| :: Net(s.db.ledger[..k], w) >= 0
  {
    InitSound();
    ReachableSound(INIT, acts, s);
  }

  /** Tables only grow: what was committed earlier is a prefix of what is committed later. */
  lemma {:induction false} RunExtends(db: Db, ops: seq<Op>)
    ensures db.ledger <= Run(db, ops).ledger && db.outbox <= Run(db, ops).outbox
    ensures forall w | w in db.wallets :: w in Run(db, ops).wallets
  {
    if ops != [] {
      RunExtends(db, ops[..|ops| - 1]);
    }
  }

  lemma {:induction false} LedgerOnlyGrows(s: Sys, acts: seq<Action>, t: Sys)
    requires Reaches(s, acts, t)
    ensures s.db.ledger <= t.db.ledger
    decreases |acts|
  {
    if acts != [] {
      FirstStep(s, acts, t);
      assert s.db.ledger <= Do(s, acts[0]).db.ledger;
      LedgerOnlyGrows(Do(s, acts[0]), acts[1..], t);
    }
  }

  lemma RunExtendsPrefix(db: Db, ops: seq<Op>, k: nat)
    requires k <= |ops|
    ensures Run(db, ops[..k]).ledger <= Run(db, ops).ledger
  {
    assert ops == ops[..k] + ops[k..];
    RunConcat(db, ops[..k], ops[k..]);
    RunExtends(Run(db, ops[..k]), ops[k..]);
  }

  /** After each operation of the log, a wallet's balance is the signed sum of the prefix of today's
      ledger that was there then. */
  lemma BalanceIsPrefixSum(acts: seq<Action>, s: Sys, k: nat, w: WalletId)
    requires Reaches(INIT, acts, s) && k <= |s.log|
    requires w in Run(EMPTY_DB, s.log[..k]).wallets
    ensures var earlier := Run(EMPTY_DB, s.log[..k]);
      |earlier.ledger| <= |s.db.ledger| && earlier.wallets[w].balance == Net(s.db.ledger[..|earlier.ledger|], w) >= 0
  {
    InterleavedRunsAreSerial(acts, s);
    var earlier := Run(EMPTY_DB, s.log[..k]);
    EmptyBooks();
    RunKeepsBooks(EMPTY_DB, s.log[..k]);
    RunExtendsPrefix(EMPTY_DB, s.log, k);
    assert s.db.ledger[..|earlier.ledger|] == earlier.ledger;
  }
}
