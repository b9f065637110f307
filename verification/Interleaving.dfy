/** Any number of requests in flight on row-locked tables. Every statement a request issues is one step;
    row locks and the claim on an idempotency key last until the request commits or aborts. */
module Interleaving {
  import opened Rows
  import opened Operations
  import opened Books

  datatype Phase =
    | Arrived     // before the replay check
    | Locking     // selecting rows FOR UPDATE, then validating
    | Opening     // about to insert the header and claim its key
    | FirstLeg
    | SecondLeg
    | Settling    // about to flush the new balances
    | Committing
    | Finished(outcome: Outcome)

  /** `local` holds the rows read under lock; `tried` counts the lock statements issued so far. */
  datatype Proc = Proc(req: Request, id: TxnId, now: int, phase: Phase, tried: nat,
                       local: map<WalletId, Wallet>, s1: int, s2: int)

  /** A wallet creation that has looked for the owner's wallets: it may still insert, or it has answered. */
  datatype Maker = Maker(owner: UserId, currency: string, answer: Option<Outcome>)

  /** `log` lists the committed operations in commit order. */
  datatype Sys = Sys(db: Db, nextSeq: int, procs: seq<Proc>, makers: seq<Maker>, log: seq<Op>)

  datatype Action =
    | Start(req: Request, id: TxnId, now: int)
    | Advance(p: nat)
    | Abort(p: nat)
    | CheckNew(owner: UserId, currency: string)
    | InsertNew(m: nat, id: WalletId)

  const INIT: Sys := Sys(EMPTY_DB, 1, [], [], [])

  function Rank(phase: Phase): nat {
    match phase
    case Arrived => 0
    case Locking => 1
    case Opening => 2
    case FirstLeg => 3
    case SecondLeg => 4
    case Settling => 5
    case Committing => 6
    case Finished(_) => 7
  }

  predicate Live(p: Proc) {
    !p.phase.Finished?
  }

  predicate Holds(p: Proc, w: WalletId) {
    Live(p) && w in p.local
  }

  predicate HoldsKey(p: Proc, k: string) {
    3 <= Rank(p.phase) <= 6 && KeyOf(p.req) == Some(k)
  }

  /** The row of `x`'s next lock statement is locked by `y`. */
  predicate WaitsOnRow(db: Db, x: Proc, y: Proc) {
    x.phase.Locking? && x.tried < |LockPlan(x.req)|
    && LockPlan(x.req)[x.tried] in db.wallets && Holds(y, LockPlan(x.req)[x.tried])
  }

  /** The unique index makes an insert wait for another in-flight insert of the same key. */
  predicate WaitsOnKey(db: Db, x: Proc, y: Proc) {
    x.phase.Opening? && KeyOf(x.req).Some? && KeyAccepted(db.keys, x.req) && HoldsKey(y, KeyOf(x.req).value)
  }

  predicate Waits(db: Db, x: Proc, y: Proc) {
    WaitsOnRow(db, x, y) || WaitsOnKey(db, x, y)
  }

  predicate WaitsFor(s: Sys, p: nat, q: nat) {
    p < |s.procs| && q < |s.procs| && p != q && Waits(s.db, s.procs[p], s.procs[q])
  }

  predicate CanStep(s: Sys, p: nat) {
    p < |s.procs| && Live(s.procs[p]) && forall q: nat | q < |s.procs| :: !WaitsFor(s, p, q)
  }

  function Failing(p: Proc, e: Error): Proc {
    p.(phase := Finished(Failed(e)))
  }

  /** The next statement of one request, from the committed tables as they are now. */
  function Stepped(db: Db, nextSeq: int, p: Proc): Proc {
    match p.phase
    case Arrived =>
      if SelfTransfer(p.req) then Failing(p, SameWallet)
      else if Replayable(p.req) && KeyOf(p.req).value in db.keys then
        p.(phase := Finished(Replayed(db.keys[KeyOf(p.req).value], Find(db.wallets, p.req.wallet))))
      else p.(phase := Locking)
    case Locking =>
      if p.tried < |LockPlan(p.req)| then
        var w := LockPlan(p.req)[p.tried];
        p.(tried := p.tried + 1, local := if w in db.wallets then p.local[w := db.wallets[w]] else p.local)
      else
        (match Validate(p.req, Find(p.local, p.req.wallet), RecipientRow(p.local, p.req))
         case Some(e) => Failing(p, e)
         case None => p.(phase := Opening))
    case Opening =>
      if KeyAccepted(db.keys, p.req) then p.(phase := FirstLeg) else Failing(p, FlushRejected)
    case FirstLeg =>
      if AmountOk(p.req.amount) then p.(phase := SecondLeg, s1 := nextSeq) else Failing(p, FlushRejected)
    case SecondLeg => p.(phase := Settling, s2 := nextSeq)
    case Settling =>
      if Present(p.local, p.req) && BalancesOk(p.local, p.req) then p.(phase := Committing) else Failing(p, FlushRejected)
    case Committing =>
      if Present(p.local, p.req) then p.(phase := Finished(Done(p.id, Moved(p.local, p.req)[p.req.wallet]))) else p
    case Finished(_) => p
  }

  predicate DrawsSeq(p: Proc) {
    p.phase.FirstLeg? || p.phase.SecondLeg?
  }

  function DrawsOf(p: Proc): Draws {
    Draws(p.id, p.now, p.s1, p.s2)
  }

  /** What a commit writes: the balances computed from the request's own copies, never from the current rows. */
  function Written(db: Db, p: Proc): Db
    requires Present(p.local, p.req)
  {
    var currency := p.local[p.req.wallet].currency;
    Db(db.wallets + Moved(p.local, p.req),
       db.txns[p.id := Txn(Kind(p.req), COMPLETED, currency, KeyOf(p.req))],
       Bind(db.keys, KeyOf(p.req), p.id),
       db.ledger + LegsOf(p.req, currency, DrawsOf(p)),
       db.outbox + [EventOf(p.req, currency, DrawsOf(p))])
  }

  predicate Commits(p: Proc) {
    p.phase.Committing? && Present(p.local, p.req)
  }

  predicate Enabled(s: Sys, a: Action) {
    match a
    case Start(_, id, _) => id !in s.db.txns && forall q | 0 <= q < |s.procs| :: s.procs[q].id != id
    case Advance(p) => CanStep(s, p)
    case Abort(p) => p < |s.procs| && Live(s.procs[p])
    case CheckNew(_, _) => true
    case InsertNew(m, id) => m < |s.makers| && s.makers[m].answer.None? && id !in s.db.wallets
  }

  function Do(s: Sys, a: Action): Sys
    requires Enabled(s, a)
  {
    match a
    case Start(req, id, now) => s.(procs := s.procs + [Proc(req, id, now, Arrived, 0, map[], 0, 0)])
    case Advance(i) =>
      var p := s.procs[i];
      Sys(if Commits(p) then Written(s.db, p) else s.db,
          if DrawsSeq(p) then s.nextSeq + 1 else s.nextSeq,
          s.procs[i := Stepped(s.db, s.nextSeq, p)],
          s.makers,
          if Commits(p) then s.log + [Money(p.req, DrawsOf(p))] else s.log)
    case Abort(i) => s.(procs := s.procs[i := Failing(s.procs[i], Crashed)])
    case CheckNew(owner, currency) =>
      var taken := HasWallet(s.db.wallets, owner, Upper(currency));
      s.(makers := s.makers + [Maker(owner, currency, if taken then Some(Failed(WalletAlreadyExists)) else None)])
    case InsertNew(m, id) => Inserted(s, m, id)
  }

  /** The flush inside `create` and the commit. The unique constraint on owner and currency raises from the
      flush, so a creation that lost a race does not answer WalletAlreadyExists. */
  function Inserted(s: Sys, m: nat, id: WalletId): Sys
    requires m < |s.makers|
  {
    var maker := s.makers[m];
    var r := ApplyNewWallet(s.db, id, maker.owner, maker.currency);
    if r.outcome.Created? then
      s.(db := r.db, makers := s.makers[m := maker.(answer := Some(r.outcome))],
         log := s.log + [NewWallet(id, maker.owner, maker.currency)])
    else
      s.(makers := s.makers[m := maker.(answer := Some(Failed(FlushRejected)))])
  }

  predicate Reaches(s: Sys, acts: seq<Action>, end: Sys)
    decreases |acts|
  {
    if acts == [] then s == end else Enabled(s, acts[0]) && Reaches(Do(s, acts[0]), acts[1..], end)
  }

  // ----- the invariant -----

  predicate Above(ledger: seq<Leg>, w: WalletId, n: int) {
    forall i | 0 <= i < |ledger| :: ledger[i].wallet == Some(w) ==> ledger[i].seqNo < n
  }

  predicate AllBelow(ledger: seq<Leg>, n: int) {
    forall i | 0 <= i < |ledger| :: ledger[i].seqNo < n
  }

  /** On every single wallet, identity order is commit order. */
  predicate WalletOrdered(ledger: seq<Leg>) {
    forall i, j | 0 <= i < j < |ledger| ::
      ledger[i].wallet.Some? && ledger[i].wallet == ledger[j].wallet ==> ledger[i].seqNo < ledger[j].seqNo
  }

  predicate Validated(p: Proc) {
    && !SelfTransfer(p.req)
    && p.tried == |LockPlan(p.req)|
    && Validate(p.req, Find(p.local, p.req.wallet), RecipientRow(p.local, p.req)).None?
  }

  /** A locked row is still what the request read. */
  predicate CopiesFresh(db: Db, p: Proc) {
    p.tried <= |LockPlan(p.req)|
    && forall w | w in p.local :: w in LockPlan(p.req)[..p.tried] && w in db.wallets && db.wallets[w] == p.local[w]
  }

  predicate LiveSound(db: Db, nextSeq: int, p: Proc) {
    && p.id !in db.txns
    && CopiesFresh(db, p)
    && (Rank(p.phase) == 0 ==> p.tried == 0)
    && (Rank(p.phase) >= 1 ==> !SelfTransfer(p.req))
    && (Rank(p.phase) >= 2 ==> Validated(p))
    && (Rank(p.phase) >= 3 ==> KeyAccepted(db.keys, p.req))
    && (Rank(p.phase) >= 4 ==> AmountOk(p.req.amount) && p.s1 < nextSeq && forall w | w in p.local :: Above(db.ledger, w, p.s1))
    && (Rank(p.phase) >= 5 ==> p.s1 < p.s2 < nextSeq)
    && (Rank(p.phase) >= 6 ==> Present(p.local, p.req) && BalancesOk(p.local, p.req))
  }

  /** A finished request left a header exactly if it reports Done. */
  predicate DeadSound(db: Db, p: Proc) {
    match p.phase
    case Finished(Done(t, _)) => t == p.id && p.id in db.txns && db.txns[p.id].key == KeyOf(p.req)
    case _ => p.id !in db.txns
  }

  predicate ProcSound(db: Db, nextSeq: int, p: Proc) {
    if Live(p) then LiveSound(db, nextSeq, p) else DeadSound(db, p)
  }

  /** No two requests hold the same row or the same key. */
  predicate Apart(p: Proc, q: Proc) {
    && p.id != q.id
    && (Live(p) && Live(q) ==> p.local.Keys !! q.local.Keys)
    && (3 <= Rank(p.phase) <= 6 && 3 <= Rank(q.phase) <= 6 && KeyOf(p.req).Some? ==> KeyOf(p.req) != KeyOf(q.req))
  }

  predicate AllApart(procs: seq<Proc>) {
    forall i, j | 0 <= i < |procs| && 0 <= j < |procs| && i != j :: Apart(procs[i], procs[j])
  }

  /** Each logged operation commits when it is replayed alone, at its place in the log. */
  predicate LogCommits(log: seq<Op>) {
    forall k | 0 <= k < |log| ::
      var o := Apply(Run(EMPTY_DB, log[..k]), log[k]).outcome; o.Done? || o.Created?
  }

  ghost predicate SysInv(s: Sys) {
    && BookInv(s.db)
    && Run(EMPTY_DB, s.log) == s.db
    && LogCommits(s.log)
    && WalletOrdered(s.db.ledger)
    && AllBelow(s.db.ledger, s.nextSeq)
    && (forall i | 0 <= i < |s.procs| :: ProcSound(s.db, s.nextSeq, s.procs[i]))
    && AllApart(s.procs)
  }

  // ----- preservation -----

  lemma InitSound()
    ensures SysInv(INIT)
  {
    EmptyBooks();
  }

  /** Once validated, the copies a request holds are the rows it is about. */
  lemma LocalRowsAgree(db: Db, n: int, p: Proc)
    requires LiveSound(db, n, p) && Validated(p)
    ensures Present(p.local, p.req) && Present(db.wallets, p.req)
    ensures BalancesOk(p.local, p.req) == BalancesOk(db.wallets, p.req)
    ensures Validate(p.req, Find(db.wallets, p.req.wallet), RecipientRow(db.wallets, p.req)).None?
  {
    assert p.req.wallet in p.local;
    assert p.req.Transfer? ==> p.req.recipient in p.local;
  }

  lemma WrittenIsPost(db: Db, n: int, p: Proc)
    requires p.phase.Committing? && LiveSound(db, n, p)
    ensures Present(db.wallets, p.req) && Written(db, p) == Post(db, p.req, DrawsOf(p))
  {
    LocalRowsAgree(db, n, p);
    var plan := LockPlan(p.req);
    assert plan[..p.tried] == plan;
    assert forall w | w in p.local :: w in plan;
    assert db.wallets + Moved(p.local, p.req) == Moved(db.wallets, p.req);
  }

  /** The heart of the simulation: a committing request writes, from its own copies, exactly what the
      same request would write if it ran alone on the current tables. */
  lemma CommitIsAtomic(db: Db, nextSeq: int, p: Proc)
    requires p.phase.Committing? && LiveSound(db, nextSeq, p)
    ensures Passes(db, p.req, DrawsOf(p))
    ensures Apply(db, Money(p.req, DrawsOf(p))) == Reply(Written(db, p), Stepped(db, nextSeq, p).phase.outcome)
  {
    LocalRowsAgree(db, nextSeq, p);
    WrittenIsPost(db, nextSeq, p);
  }

  lemma LogGrows(log: seq<Op>, op: Op, db: Db)
    requires LogCommits(log) && Run(EMPTY_DB, log) == db
    requires Apply(db, op).outcome.Done? || Apply(db, op).outcome.Created?
    ensures LogCommits(log + [op]) && Run(EMPTY_DB, log + [op]) == Apply(db, op).db
  {
    var log' := log + [op];
    assert log'[..|log|] == log;
    forall k | 0 <= k < |log'|
      ensures Apply(Run(EMPTY_DB, log'[..k]), log'[k]).outcome.Done? || Apply(Run(EMPTY_DB, log'[..k]), log'[k]).outcome.Created?
    {
      if k < |log| {
        assert log'[..k] == log[..k];
      }
    }
  }

  /** Another request's commit touches none of the rows and keys this request relies on. */
  lemma CommitSpares(db: Db, n: int, p: Proc, q: Proc)
    requires p.phase.Committing? && LiveSound(db, n, p) && ProcSound(db, n, q)
    requires Apart(p, q)
    ensures ProcSound(Written(db, p), n, q)
  {
    var db' := Written(db, p);
    assert p.id != q.id;
    if Live(q) {
      forall w | w in q.local
        ensures w in LockPlan(q.req)[..q.tried] && w in db'.wallets && db'.wallets[w] == q.local[w]
        ensures Rank(q.phase) >= 4 ==> Above(db'.ledger, w, q.s1)
      {
        assert Holds(q, w);
        assert w !in p.local;
        var legs := LegsOf(p.req, p.local[p.req.wallet].currency, DrawsOf(p));
        assert forall i | 0 <= i < |legs| :: legs[i].wallet != Some(w);
      }
      if Rank(q.phase) >= 3 && KeyOf(q.req).Some? {
        var k := KeyOf(q.req).value;
        assert HoldsKey(q, k);
        assert !HoldsKey(p, k);
      }
    }
  }

  lemma CommitKeepsOrder(db: Db, n: int, p: Proc)
    requires p.phase.Committing? && LiveSound(db, n, p)
    requires WalletOrdered(db.ledger) && AllBelow(db.ledger, n)
    ensures WalletOrdered(Written(db, p).ledger) && AllBelow(Written(db, p).ledger, n)
  {
    var legs := LegsOf(p.req, p.local[p.req.wallet].currency, DrawsOf(p));
    var ledger' := db.ledger + legs;
    forall i, j | 0 <= i < j < |ledger'| && ledger'[i].wallet.Some? && ledger'[i].wallet == ledger'[j].wallet
      ensures ledger'[i].seqNo < ledger'[j].seqNo
    {
      if j >= |db.ledger| {
        var w := ledger'[i].wallet.value;
        assert w in p.local;
        assert Above(db.ledger, w, p.s1);
      }
    }
  }

  lemma LockSound(db: Db, n: int, p: Proc)
    requires p.phase.Locking? && LiveSound(db, n, p)
    ensures ProcSound(db, n, Stepped(db, n, p))
  {
    var plan := LockPlan(p.req);
    if p.tried < |plan| {
      assert plan[..p.tried + 1] == plan[..p.tried] + [plan[p.tried]];
    }
  }

  lemma StatementSound(db: Db, n: int, p: Proc)
    requires Live(p) && !p.phase.Locking? && !p.phase.Committing?
    requires LiveSound(db, n, p) && AllBelow(db.ledger, n)
    ensures ProcSound(db, if DrawsSeq(p) then n + 1 else n, Stepped(db, n, p))
  {
  }

  lemma StepSound(db: Db, n: int, p: Proc)
    requires Live(p) && LiveSound(db, n, p) && AllBelow(db.ledger, n)
    ensures ProcSound(if Commits(p) then Written(db, p) else db, if DrawsSeq(p) then n + 1 else n, Stepped(db, n, p))
  {
    match p.phase
    case Locking => LockSound(db, n, p);
    case Committing =>
    case _ => StatementSound(db, n, p);
  }

  lemma LockApart(db: Db, n: int, p: Proc, q: Proc)
    requires p.phase.Locking? && LiveSound(db, n, p) && !WaitsOnRow(db, p, q) && Apart(p, q)
    ensures Apart(Stepped(db, n, p), q) && Apart(q, Stepped(db, n, p))
  {
  }

  lemma ClaimApart(db: Db, n: int, p: Proc, q: Proc)
    requires p.phase.Opening? && !WaitsOnKey(db, p, q) && Apart(p, q)
    ensures Apart(Stepped(db, n, p), q) && Apart(q, Stepped(db, n, p))
  {
  }

  lemma StatementApart(db: Db, n: int, p: Proc, q: Proc)
    requires Live(p) && !p.phase.Locking? && !p.phase.Opening? && Apart(p, q)
    ensures Apart(Stepped(db, n, p), q) && Apart(q, Stepped(db, n, p))
  {
  }

  lemma StepApart(db: Db, n: int, p: Proc, q: Proc)
    requires Live(p) && LiveSound(db, n, p) && !Waits(db, p, q) && Apart(p, q)
    ensures Apart(Stepped(db, n, p), q) && Apart(q, Stepped(db, n, p))
  {
    match p.phase
    case Locking => LockApart(db, n, p, q);
    case Opening => ClaimApart(db, n, p, q);
    case _ => StatementApart(db, n, p, q);
  }

  lemma AdvanceKeepsProcs(s: Sys, i: nat, j: nat)
    requires SysInv(s) && CanStep(s, i) && j < |s.procs|
    ensures var s' := Do(s, Advance(i)); ProcSound(s'.db, s'.nextSeq, s'.procs[j])
  {
    var p, q := s.procs[i], s.procs[j];
    assert ProcSound(s.db, s.nextSeq, p) && ProcSound(s.db, s.nextSeq, q);
    if j == i {
      StepSound(s.db, s.nextSeq, p);
    } else if Commits(p) {
      assert Apart(p, q);
      CommitSpares(s.db, s.nextSeq, p, q);
    }
  }

  lemma AdvanceKeepsApart(s: Sys, i: nat)
    requires SysInv(s) && CanStep(s, i)
    ensures AllApart(s.procs[i := Stepped(s.db, s.nextSeq, s.procs[i])])
  {
    var p' := Stepped(s.db, s.nextSeq, s.procs[i]);
    assert ProcSound(s.db, s.nextSeq, s.procs[i]);
    forall j: nat | j < |s.procs| && j != i
      ensures Apart(p', s.procs[j]) && Apart(s.procs[j], p')
    {
      assert !WaitsFor(s, i, j);
      assert Apart(s.procs[i], s.procs[j]);
      StepApart(s.db, s.nextSeq, s.procs[i], s.procs[j]);
    }
  }

  lemma AdvanceKeepsInv(s: Sys, i: nat)
    requires SysInv(s) && CanStep(s, i)
    ensures SysInv(Do(s, Advance(i)))
  {
    var p := s.procs[i];
    var s' := Do(s, Advance(i));
    if Commits(p) {
      assert ProcSound(s.db, s.nextSeq, p);
      CommitIsAtomic(s.db, s.nextSeq, p);
      PostKeepsBooks(s.db, p.req, DrawsOf(p));
      LogGrows(s.log, Money(p.req, DrawsOf(p)), s.db);
      CommitKeepsOrder(s.db, s.nextSeq, p);
    }
    forall j: nat | j < |s'.procs|
      ensures ProcSound(s'.db, s'.nextSeq, s'.procs[j])
    {
      AdvanceKeepsProcs(s, i, j);
    }
    AdvanceKeepsApart(s, i);
  }

  lemma FailingSound(db: Db, n: int, p: Proc, e: Error)
    requires Live(p) && ProcSound(db, n, p)
    ensures ProcSound(db, n, Failing(p, e))
  {
  }

  lemma FailingApart(p: Proc, q: Proc, e: Error)
    requires Apart(p, q) && Apart(q, p)
    ensures Apart(Failing(p, e), q) && Apart(q, Failing(p, e))
  {
  }

  lemma AbortKeepsApart(procs: seq<Proc>, i: nat)
    requires AllApart(procs) && i < |procs|
    ensures AllApart(procs[i := Failing(procs[i], Crashed)])
  {
    forall j | 0 <= j < |procs| && j != i
      ensures Apart(Failing(procs[i], Crashed), procs[j]) && Apart(procs[j], Failing(procs[i], Crashed))
    {
      FailingApart(procs[i], procs[j], Crashed);
    }
  }

  lemma AbortKeepsInv(s: Sys, i: nat)
    requires SysInv(s) && Enabled(s, Abort(i))
    ensures SysInv(Do(s, Abort(i)))
  {
    FailingSound(s.db, s.nextSeq, s.procs[i], Crashed);
    AbortKeepsApart(s.procs, i);
  }

  lemma NewRowSpares(db: Db, n: int, id: WalletId, owner: UserId, currency: string, q: Proc)
    requires ProcSound(db, n, q) && id !in db.wallets
    ensures ProcSound(ApplyNewWallet(db, id, owner, currency).db, n, q)
  {
  }

  lemma InsertKeepsInv(s: Sys, m: nat, id: WalletId)
    requires SysInv(s) && Enabled(s, InsertNew(m, id))
    ensures SysInv(Do(s, InsertNew(m, id)))
  {
    var maker, s' := s.makers[m], Do(s, InsertNew(m, id));
    if s'.db != s.db {
      NewWalletKeepsBooks(s.db, id, maker.owner, maker.currency);
      LogGrows(s.log, NewWallet(id, maker.owner, maker.currency), s.db);
      forall j | 0 <= j < |s'.procs|
        ensures ProcSound(s'.db, s'.nextSeq, s'.procs[j])
      {
        NewRowSpares(s.db, s.nextSeq, id, maker.owner, maker.currency, s.procs[j]);
      }
    }
  }

  lemma StartKeepsInv(s: Sys, req: Request, id: TxnId, now: int)
    requires SysInv(s) && Enabled(s, Start(req, id, now))
    ensures SysInv(Do(s, Start(req, id, now)))
  {
    var s' := Do(s, Start(req, id, now));
    forall j, k | 0 <= j < |s'.procs| && 0 <= k < |s'.procs| && j != k
      ensures Apart(s'.procs[j], s'.procs[k])
    {
      if j < |s.procs| && k < |s.procs| { assert Apart(s.procs[j], s.procs[k]); }
    }
  }

  lemma DoKeepsInv(s: Sys, a: Action)
    requires SysInv(s) && Enabled(s, a)
    ensures SysInv(Do(s, a))
  {
    match a
    case Start(req, id, now) => StartKeepsInv(s, req, id, now);
    case Advance(i) => AdvanceKeepsInv(s, i);
    case Abort(i) => AbortKeepsInv(s, i);
    case CheckNew(_, _) =>
    case InsertNew(m, id) => InsertKeepsInv(s, m, id);
  }

  lemma FirstStep(s: Sys, acts: seq<Action>, end: Sys)
    requires Reaches(s, acts, end) && acts != []
    ensures Enabled(s, acts[0]) && Reaches(Do(s, acts[0]), acts[1..], end)
  {
  }

  lemma {:induction false} ReachableSound(s: Sys, acts: seq<Action>, end: Sys)
    requires SysInv(s) && Reaches(s, acts, end)
    ensures SysInv(end)
    decreases |acts|
  {
    if acts != [] {
      FirstStep(s, acts, end);
      DoKeepsInv(s, acts[0]);
      ReachableSound(Do(s, acts[0]), acts[1..], end);
    }
  }

  lemma {:induction false} RequestsStay(s: Sys, acts: seq<Action>, t: Sys, i: nat)
    requires Reaches(s, acts, t) && i < |s.procs|
    ensures i < |t.procs| && t.procs[i].req == s.procs[i].req && t.procs[i].id == s.procs[i].id
    decreases |acts|
  {
    if acts != [] {
      FirstStep(s, acts, t);
      RequestsStay(Do(s, acts[0]), acts[1..], t, i);
    }
  }
}
