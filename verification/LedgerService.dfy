/** The service as the code runs it: a session with unflushed row changes, repositories that flush, and
    unit-of-work methods that either commit or raise. A raised error leaves the session to be closed. */
module LedgerService {
  import opened Rows
  import opened Operations
  import opened Books
  import opened Ordering

  /** `work` is what this transaction sees, `dirty` the wallet objects changed in memory but not flushed,
      `locked` the row locks it holds, `acquired` every row lock the session ever took, in order. `nextSeq` is
      the identity sequence; rollback does not rewind it. */
  class Session {
    var committed: Db
    var work: Db
    var dirty: map<WalletId, Wallet>
    var locked: seq<WalletId>
    var acquired: seq<WalletId>
    var nextSeq: int

    constructor (db: Db, nextSeq: int)
      ensures committed == db && this.nextSeq == nextSeq && Clean()
    {
      committed, work, dirty, locked, acquired, this.nextSeq := db, db, map[], [], [], nextSeq;
    }

    predicate Clean()
      reads this
    {
      work == committed && dirty == map[] && locked == []
    }

    predicate DirtyOk()
      reads this
    {
      forall w | w in dirty :: WalletRowOk(dirty[w])
    }

    function Flushed(): Db
      reads this
    {
      work.(wallets := work.wallets + dirty)
    }

    method Flush() returns (ok: bool)
      modifies this`work, this`dirty
      ensures ok == old(DirtyOk())
      ensures ok <==> forall w | w in old(dirty) :: 0 <= old(dirty)[w].balance <= 9_223_372_036_854_775_807
      ensures if ok then work == old(Flushed()) && dirty == map[] else work == old(work) && dirty == old(dirty)
    {
      ok := DirtyOk();
      if ok {
        work := Flushed();
        dirty := map[];
      }
    }

    method Commit()
      requires dirty == map[]
      modifies this`committed, this`locked
      ensures committed == work && Clean()
    {
      committed := work;
      locked := [];
    }
  }

  /** The ids among `ids` that have a row. */
  function Existing(ids: seq<WalletId>, wallets: map<WalletId, Wallet>): seq<WalletId> {
    if ids == [] then []
    else Existing(ids[..|ids| - 1], wallets) + if ids[|ids| - 1] in wallets then [ids[|ids| - 1]] else []
  }

  /** They are listed in the same ascending order. */
  lemma {:induction false} ExistingMeans(ids: seq<WalletId>, wallets: map<WalletId, Wallet>)
    requires StrictlyAscending(ids)
    ensures StrictlyAscending(Existing(ids, wallets))
    ensures forall w :: w in Existing(ids, wallets) <==> w in ids && w in wallets
  {
    if ids != [] {
      var n := |ids| - 1;
      var rest := Existing(ids[..n], wallets);
      ExistingMeans(ids[..n], wallets);
      assert ids == ids[..n] + [ids[n]];
      forall i | 0 <= i < |rest| ensures rest[i] < ids[n] {
        assert rest[i] in rest;
        var k :| 0 <= k < n && ids[k] == rest[i];
      }
    }
  }

  class WalletRepository {
    const db: Session

    constructor (db: Session)
      ensures this.db == db
    {
      this.db := db;
    }

    method GetWithLock(id: WalletId) returns (row: Option<Wallet>)
      modifies db`locked, db`acquired
      ensures row == Find(db.work.wallets, id)
      ensures db.locked == old(db.locked) + (if id in db.work.wallets then [id] else [])
      ensures db.acquired == old(db.acquired) + (if id in db.work.wallets then [id] else [])
    {
      row := Find(db.work.wallets, id);
      if row.Some? {
        db.locked, db.acquired := db.locked + [id], db.acquired + [id];
      }
    }

    /** Every requested id gets an answer, and the rows are locked in ascending order without repetition. */
    method GetForUpdateOrdered(ids: seq<WalletId>) returns (rows: map<WalletId, Option<Wallet>>)
      modifies db`locked, db`acquired
      ensures forall id :: id in rows <==> id in ids
      ensures forall id | id in rows :: rows[id] == Find(db.work.wallets, id)
      ensures db.locked == old(db.locked) + Existing(SortedSet(ids), db.work.wallets)
      ensures db.acquired == old(db.acquired) + Existing(SortedSet(ids), db.work.wallets)
    {
      rows := LockEach(SortedSet(ids));
    }

    method LockEach(plan: seq<WalletId>) returns (rows: map<WalletId, Option<Wallet>>)
      modifies db`locked, db`acquired
      ensures forall id :: id in rows <==> id in plan
      ensures forall id | id in rows :: rows[id] == Find(db.work.wallets, id)
      ensures db.locked == old(db.locked) + Existing(plan, db.work.wallets)
      ensures db.acquired == old(db.acquired) + Existing(plan, db.work.wallets)
    {
      rows := map[];
      for i := 0 to |plan|
        invariant forall id :: id in rows <==> id in plan[..i]
        invariant forall id | id in rows :: rows[id] == Find(db.work.wallets, id)
        invariant db.locked == old(db.locked) + Existing(plan[..i], db.work.wallets)
        invariant db.acquired == old(db.acquired) + Existing(plan[..i], db.work.wallets)
      {
        assert plan[..i + 1] == plan[..i] + [plan[i]];
        var row := Find(db.work.wallets, plan[i]);
        rows := rows[plan[i] := row];
        if row.Some? {
          db.locked, db.acquired := db.locked + [plan[i]], db.acquired + [plan[i]];
        }
      }
      assert plan[..|plan|] == plan;
    }
  }

  class TransactionRepository {
    const db: Session

    constructor (db: Session)
      ensures this.db == db
    {
      this.db := db;
    }

    /** Inserts a PENDING header; the primary key and the unique key are checked by this very flush. */
    method Create(kind: TxnType, currency: string, key: Option<string>, id: TxnId) returns (ok: bool)
      modifies db`work, db`dirty
      ensures ok == (old(db.DirtyOk()) && id !in old(db.work.txns)
                     && (key.Some? ==> |key.value| <= 255 && key.value !in old(db.work.keys)))
      ensures ok ==> db.dirty == map[] && db.work == old(db.Flushed()).(
          txns := old(db.work.txns)[id := Txn(kind, PENDING, currency, key)],
          keys := Bind(old(db.work.keys), key, id))
      ensures !ok ==> db.work == if old(db.DirtyOk()) then old(db.Flushed()) else old(db.work)
    {
      ok := db.Flush();
      if !ok { return; }
      ok := id !in db.work.txns && KeyOk(db.work.keys, key);
      if ok {
        db.work := db.work.(txns := db.work.txns[id := Txn(kind, PENDING, currency, key)],
                            keys := Bind(db.work.keys, key, id));
      }
    }

    method MarkCompleted(id: TxnId) returns (ok: bool)
      requires id in db.work.txns
      modifies db`work, db`dirty
      ensures ok == old(db.DirtyOk())
      ensures ok ==> db.dirty == map[] && db.work == old(db.Flushed()).(
          txns := old(db.work.txns)[id := old(db.work.txns)[id].(status := COMPLETED)])
    {
      ok := db.Flush();
      if ok {
        db.work := db.work.(txns := db.work.txns[id := db.work.txns[id].(status := COMPLETED)]);
      }
    }

    /** Searches the header column: the answer is the one header that carries the key, if there is one. */
    method GetByIdempotencyKey(key: string) returns (id: Option<TxnId>)
      ensures id.Some? ==> id.value in db.work.txns && db.work.txns[id.value].key == Some(key)
      ensures id.None? ==> forall t | t in db.work.txns :: db.work.txns[t].key != Some(key)
      ensures IndexSound(db.work) ==> forall t :: id == Some(t) <==> key in db.work.keys && db.work.keys[key] == t
    {
      if t: TxnId :| t in db.work.txns && db.work.txns[t].key == Some(key) { return Some(t); }
      return None;
    }
  }

  class LedgerRepository {
    const db: Session

    constructor (db: Session)
      ensures this.db == db
    {
      this.db := db;
    }

    /** Appends one leg under the next identity value, unless a CHECK or the column width rejects it. */
    method CreateEntry(txn: TxnId, entry: EntryType, amount: int, currency: string,
                       wallet: Option<WalletId>, system: Option<string>)
      returns (ok: bool)
      modifies db`work, db`dirty, db`nextSeq
      ensures var leg := Leg(old(db.nextSeq), txn, entry, amount, currency, wallet, system);
        ok == (old(db.DirtyOk()) && 1 <= amount <= 9_223_372_036_854_775_807 && (wallet.Some? <==> system.None?))
        && (ok ==> db.dirty == map[] && db.work == old(db.Flushed()).(ledger := old(db.work.ledger) + [leg]))
      ensures !ok ==> db.work == if old(db.DirtyOk()) then old(db.Flushed()) else old(db.work)
      ensures ok ==> db.nextSeq == old(db.nextSeq) + 1
    {
      ok := db.Flush();
      if !ok { return; }
      var leg := Leg(db.nextSeq, txn, entry, amount, currency, wallet, system);
      db.nextSeq := db.nextSeq + 1;
      ok := LegRowOk(leg);
      if ok {
        db.work := db.work.(ledger := db.work.ledger + [leg]);
      }
    }
  }

  class OutboxRepository {
    const db: Session

    constructor (db: Session)
      ensures this.db == db
    {
      this.db := db;
    }

    method AddEvent(aggregate: TxnId, payload: Payload, now: int) returns (ok: bool)
      modifies db`work, db`dirty
      ensures ok == old(db.DirtyOk())
      ensures ok ==> db.dirty == map[] && db.work == old(db.Flushed()).(
          outbox := old(db.work.outbox) + [Event(aggregate, now, payload, false)])
    {
      ok := db.Flush();
      if ok {
        db.work := db.work.(outbox := db.work.outbox + [Event(aggregate, now, payload, false)]);
      }
    }
  }

  /** A self-transfer and a replay are answered before any row is locked. */
  predicate AnswersUnlocked(db: Db, req: Request) {
    SelfTransfer(req) || (Replayable(req) && KeyOf(req).value in db.keys)
  }

  /** The rows a request locks in these tables, in order. */
  function LocksOf(db: Db, req: Request): seq<WalletId> {
    if AnswersUnlocked(db, req) then [] else Existing(LockPlan(req), db.wallets)
  }

  lemma ExistingOfOne(a: WalletId, wallets: map<WalletId, Wallet>)
    ensures Existing([a], wallets) == if a in wallets then [a] else []
  {
    assert [a][..0] == [];
  }

  lemma ExistingOfTwo(a: WalletId, b: WalletId, wallets: map<WalletId, Wallet>)
    ensures Existing([a, b], wallets) == (if a in wallets then [a] else []) + if b in wallets then [b] else []
  {
    assert [a, b][..1] == [a];
    ExistingOfOne(a, wallets);
  }

  /** Written out: no lock for a self-transfer or a replay, otherwise the existing rows, the lower id first. */
  lemma LocksMean(db: Db, req: Request)
    ensures LocksOf(db, req) ==
      if (req.Transfer? && req.wallet == req.recipient)
         || (!req.Deposit? && req.key.Some? && req.key.value != "" && req.key.value in db.keys) then []
      else if !req.Transfer? then if req.wallet in db.wallets then [req.wallet] else []
      else
        var low, high := if req.wallet < req.recipient then req.wallet else req.recipient,
                         if req.wallet < req.recipient then req.recipient else req.wallet;
        (if low in db.wallets then [low] else []) + if high in db.wallets then [high] else []
  {
    if !req.Transfer? {
      OneRowPlan(req);
      ExistingOfOne(req.wallet, db.wallets);
    } else if req.wallet != req.recipient {
      TwoRowPlan(req);
      ExistingOfTwo(LockPlan(req)[0], LockPlan(req)[1], db.wallets);
    }
  }

  /** The clean-session contract shared by the three money operations. */
  twostate predicate Did(db: Session, req: Request, id: TxnId, now: int, outcome: Outcome)
    reads db
  {
    var reply := Apply(old(db.committed), Money(req, Draws(id, now, old(db.nextSeq), old(db.nextSeq) + 1)));
    && db.committed == reply.db
    && outcome == reply.outcome
    && (outcome.Done? ==> db.Clean())
    && db.acquired == old(db.acquired) + LocksOf(old(db.committed), req)
  }

  lemma TransferMoves(wallets: map<WalletId, Wallet>, req: Request)
    requires req.Transfer? && Present(wallets, req)
    ensures var changed := map[req.wallet := Credited(wallets[req.wallet], -req.amount),
                               req.recipient := Credited(wallets[req.recipient], req.amount)];
      Moved(wallets, req) == wallets + changed
      && (BalancesOk(wallets, req) <==> forall w | w in changed :: WalletRowOk(changed[w]))
  {
    var changed := map[req.wallet := Credited(wallets[req.wallet], -req.amount),
                       req.recipient := Credited(wallets[req.recipient], req.amount)];
    assert req.wallet in changed && req.recipient in changed;
  }

  class LedgerService {
    const db: Session
    const wallets: WalletRepository
    const transactions: TransactionRepository
    const ledger: LedgerRepository
    const outbox: OutboxRepository

    constructor (db: Session)
      ensures this.db == db && Wired()
    {
      this.db := db;
      wallets := new WalletRepository(db);
      transactions := new TransactionRepository(db);
      ledger := new LedgerRepository(db);
      outbox := new OutboxRepository(db);
    }

    predicate Wired() {
      wallets.db == db && transactions.db == db && ledger.db == db && outbox.db == db
    }

    /** Open the PENDING header and add its two legs, the first of them on `wallet`. */
    method Open(kind: TxnType, own: string, key: Option<string>, id: TxnId, amount: int,
                first: EntryType, wallet: WalletId, second: EntryType, counter: Option<WalletId>)
      returns (ok: bool)
      requires Wired() && db.dirty == map[]
      modifies db`work, db`dirty, db`nextSeq
      ensures ok == (id !in old(db.work.txns) && KeyOk(old(db.work.keys), key) && AmountOk(amount))
      ensures ok ==> db.dirty == map[] && db.work == old(db.work).(
          txns := old(db.work.txns)[id := Txn(kind, PENDING, own, key)],
          keys := Bind(old(db.work.keys), key, id),
          ledger := old(db.work.ledger) + [
            Leg(old(db.nextSeq), id, first, amount, own, Some(wallet), None),
            Leg(old(db.nextSeq) + 1, id, second, amount, own, counter,
                if counter.Some? then None else Some(EXTERNAL_FUNDING))])
    {
      assert db.work.wallets + map[] == db.work.wallets;
      ok := transactions.Create(kind, own, key, id);
      if !ok { return; }
      ok := ledger.CreateEntry(id, first, amount, own, Some(wallet), None);
      if !ok { return; }
      ok := ledger.CreateEntry(id, second, amount, own, counter,
                               if counter.Some? then None else Some(EXTERNAL_FUNDING));
    }

    /** The last part of each operation: complete the header, write the event, commit. */
    method Complete(id: TxnId, payload: Payload, now: int) returns (ok: bool)
      requires Wired() && id in db.work.txns
      modifies db`work, db`dirty, db`committed, db`locked
      ensures ok == old(db.DirtyOk())
      ensures ok ==> db.Clean() && db.committed == old(db.Flushed()).(
          txns := old(db.work.txns)[id := old(db.work.txns)[id].(status := COMPLETED)],
          outbox := old(db.work.outbox) + [Event(id, now, payload, false)])
      ensures !ok ==> db.committed == old(db.committed)
    {
      ok := transactions.MarkCompleted(id);
      if !ok { return; }
      ok := outbox.AddEvent(id, payload, now);
      if !ok { return; }
      assert db.work.wallets + map[] == db.work.wallets;
      db.Commit();
    }

    /** Steps shared by the three operations once the request is validated: open the header, add the legs,
        change the wallet objects in memory, complete, record, commit. */
    method Book(kind: TxnType, own: string, key: Option<string>, id: TxnId, now: int, amount: int,
                first: EntryType, wallet: WalletId, second: EntryType, counter: Option<WalletId>,
                changed: map<WalletId, Wallet>)
      returns (ok: bool)
      requires Wired() && db.dirty == map[] && db.work == db.committed
      modifies db`work, db`dirty, db`nextSeq, db`committed, db`locked
      ensures ok == (id !in old(db.work.txns) && KeyOk(old(db.work.keys), key) && AmountOk(amount)
                     && forall w | w in changed :: WalletRowOk(changed[w]))
      ensures ok ==> db.Clean() && db.committed == Db(
          old(db.work.wallets) + changed,
          old(db.work.txns)[id := Txn(kind, COMPLETED, own, key)],
          Bind(old(db.work.keys), key, id),
          old(db.work.ledger) + [
            Leg(old(db.nextSeq), id, first, amount, own, Some(wallet), None),
            Leg(old(db.nextSeq) + 1, id, second, amount, own, counter,
                if counter.Some? then None else Some(EXTERNAL_FUNDING))],
          old(db.work.outbox) + [Event(id, now, Payload(id, kind, COMPLETED, own, amount, wallet, counter), false)])
      ensures !ok ==> db.committed == old(db.committed)
    {
      ok := Open(kind, own, key, id, amount, first, wallet, second, counter);
      if !ok { return; }
      db.dirty := changed;
      ok := Complete(id, Payload(id, kind, COMPLETED, own, amount, wallet, counter), now);
    }

    method Deposit(walletId: WalletId, requester: UserId, amount: int, currency: string, id: TxnId, now: int)
      returns (outcome: Outcome)
      requires Wired() && db.Clean()
      modifies db
      ensures Did(db, Request.Deposit(walletId, requester, amount, currency), id, now, outcome)
    {
      ghost var req := Request.Deposit(walletId, requester, amount, currency);
      var row := wallets.GetWithLock(walletId);
      LocksMean(db.committed, req);
      if row.None? { return Failed(WalletNotFound); }
      var wallet := row.value;
      if wallet.user != requester { return Failed(WalletAccessDenied); }
      if wallet.currency != Upper(currency) { return Failed(CurrencyMismatch); }

      var after := Credited(wallet, amount);
      var ok := Book(DEPOSIT, wallet.currency, None, id, now, amount, CREDIT, walletId, DEBIT, None,
                     map[walletId := after]);
      return if ok then Done(id, after) else Failed(FlushRejected);
    }

    /** The replay check, made before any lock is taken. */
    method ReplayOf(key: Option<string>, wallet: WalletId) returns (replay: Option<Outcome>)
      requires Wired() && IndexSound(db.work)
      ensures replay == if key.Some? && key.value != "" && key.value in db.work.keys
                        then Some(Replayed(db.work.keys[key.value], Find(db.work.wallets, wallet)))
                        else None
    {
      if key.Some? && key.value != "" {
        var existing := transactions.GetByIdempotencyKey(key.value);
        if existing.Some? { return Some(Replayed(existing.value, Find(db.work.wallets, wallet))); }
      }
      return None;
    }

    method LockPair(req: Request) returns (first: Option<Wallet>, second: Option<Wallet>)
      requires Wired() && req.Transfer?
      modifies db`locked, db`acquired
      ensures first == Find(db.work.wallets, req.wallet) && second == RecipientRow(db.work.wallets, req)
      ensures db.acquired == old(db.acquired) + Existing(LockPlan(req), db.work.wallets)
    {
      var rows := wallets.GetForUpdateOrdered([req.wallet, req.recipient]);
      assert req.wallet in [req.wallet, req.recipient] && req.recipient in [req.wallet, req.recipient];
      first, second := rows[req.wallet], rows[req.recipient];
    }

    method CheckTransfer(from: Option<Wallet>, to: Option<Wallet>, req: Request) returns (error: Option<Error>)
      requires req.Transfer?
      ensures error == Validate(req, from, to)
    {
      if from.None? { return Some(WalletNotFound); }
      if from.value.user != req.requester { return Some(WalletAccessDenied); }
      if to.None? { return Some(RecipientNotFound); }
      if from.value.currency != Upper(req.currency) { return Some(CurrencyMismatch); }
      if to.value.currency != from.value.currency { return Some(CurrencyMismatch); }
      if from.value.balance < req.amount { return Some(InsufficientFunds); }
      return None;
    }

    /** The part of a transfer after validation. */
    method Pay(req: Request, from: Wallet, to: Wallet, id: TxnId, now: int) returns (outcome: Outcome)
      requires Wired() && db.dirty == map[] && db.work == db.committed
      requires req.Transfer? && !AnswersUnlocked(db.work, req)
      requires Find(db.work.wallets, req.wallet) == Some(from) && Find(db.work.wallets, req.recipient) == Some(to)
      requires Validate(req, Some(from), Some(to)).None?
      modifies db`work, db`dirty, db`nextSeq, db`committed, db`locked
      ensures var reply := Apply(old(db.committed), Money(req, Draws(id, now, old(db.nextSeq), old(db.nextSeq) + 1)));
        db.committed == reply.db && outcome == reply.outcome && (outcome.Done? ==> db.Clean())
    {
      TransferMoves(db.work.wallets, req);
      var debited := Credited(from, -req.amount);
      var ok := Book(TRANSFER, from.currency, req.key, id, now, req.amount, DEBIT, req.wallet, CREDIT, Some(req.recipient),
                     map[req.wallet := debited, req.recipient := Credited(to, req.amount)]);
      return if ok then Done(id, debited) else Failed(FlushRejected);
    }

    method Transfer(sender: WalletId, requester: UserId, recipient: WalletId, amount: int, currency: string,
                    key: Option<string>, id: TxnId, now: int)
      returns (outcome: Outcome)
      requires Wired() && db.Clean() && IndexSound(db.committed)
      modifies db
      ensures Did(db, Request.Transfer(sender, requester, recipient, amount, currency, key), id, now, outcome)
    {
      if sender == recipient { return Failed(SameWallet); }
      var replay := ReplayOf(key, sender);
      if replay.Some? { return replay.value; }

      var req := Request.Transfer(sender, requester, recipient, amount, currency, key);
      var from, to := LockPair(req);
      var error := CheckTransfer(from, to, req);
      if error.Some? { return Failed(error.value); }
      outcome := Pay(req, from.value, to.value, id, now);
    }

    /** The part of a withdrawal after validation. */
    method PayOut(req: Request, wallet: Wallet, id: TxnId, now: int) returns (outcome: Outcome)
      requires Wired() && db.dirty == map[] && db.work == db.committed
      requires req.Withdraw? && !AnswersUnlocked(db.work, req)
      requires Find(db.work.wallets, req.wallet) == Some(wallet) && Validate(req, Some(wallet), None).None?
      modifies db`work, db`dirty, db`nextSeq, db`committed, db`locked
      ensures var reply := Apply(old(db.committed), Money(req, Draws(id, now, old(db.nextSeq), old(db.nextSeq) + 1)));
        db.committed == reply.db && outcome == reply.outcome && (outcome.Done? ==> db.Clean())
    {
      var after := Credited(wallet, -req.amount);
      var ok := Book(WITHDRAWAL, wallet.currency, req.key, id, now, req.amount, DEBIT, req.wallet, CREDIT, None,
                     map[req.wallet := after]);
      return if ok then Done(id, after) else Failed(FlushRejected);
    }

    method Withdraw(walletId: WalletId, requester: UserId, amount: int, currency: string,
                    key: Option<string>, id: TxnId, now: int)
      returns (outcome: Outcome)
      requires Wired() && db.Clean() && IndexSound(db.committed)
      modifies db
      ensures Did(db, Request.Withdraw(walletId, requester, amount, currency, key), id, now, outcome)
    {
      var req := Request.Withdraw(walletId, requester, amount, currency, key);
      var replay := ReplayOf(key, walletId);
      if replay.Some? { return replay.value; }

      var row := wallets.GetWithLock(walletId);
      LocksMean(db.committed, req);
      if row.None? { return Failed(WalletNotFound); }
      var wallet := row.value;
      if wallet.user != requester { return Failed(WalletAccessDenied); }
      if wallet.currency != Upper(currency) { return Failed(CurrencyMismatch); }
      if wallet.balance < amount { return Failed(InsufficientFunds); }
      outcome := PayOut(req, wallet, id, now);
    }
  }

  class WalletService {
    const db: Session

    constructor (db: Session)
      ensures this.db == db
    {
      this.db := db;
    }

    /** `taken`: another session committed a wallet of this owner and currency after our check, so the unique
        constraint rejects the flush inside `create`; that error is not turned into WalletAlreadyExists. */
    method CreateWallet(owner: UserId, currency: string, id: WalletId, taken: bool) returns (outcome: Outcome)
      requires db.Clean()
      modifies db
      ensures var reply := Apply(old(db.committed), NewWallet(id, owner, currency));
        if taken && reply.outcome.Created? then db.committed == old(db.committed) && outcome == Failed(FlushRejected)
        else db.committed == reply.db && outcome == reply.outcome
    {
      if HasWallet(db.work.wallets, owner, Upper(currency)) { return Failed(WalletAlreadyExists); }
      if id in db.work.wallets || taken { return Failed(FlushRejected); }
      var row := Wallet(owner, Upper(currency), 0);
      db.work := db.work.(wallets := db.work.wallets[id := row]);
      db.Commit();
      return Created(row);
    }
  }
}
