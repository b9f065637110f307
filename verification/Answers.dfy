/** What each request is answered and what it writes, spelled out on the columns of the tables and the fields of
    the request: an account of `Apply` that shares none of its definitions. */
module Answers {
  import opened Rows
  import opened Operations
  import opened Interleaving

  /** t is s with the letters a to z replaced by capitals. */
  predicate Uppercased(s: string, t: string) {
    |t| == |s| && forall i | 0 <= i < |s| ::
      if 'a' <= s[i] <= 'z' then t[i] as int == s[i] as int - 32 else t[i] == s[i]
  }

  lemma UpperMeans(s: string, t: string)
    ensures t == Upper(s) <==> Uppercased(s, t)
  {
    if Uppercased(s, t) {
      forall i | 0 <= i < |s| ensures t[i] == Upper(s)[i] {
        assert 'a' <= s[i] <= 'z' ==> t[i] as int == Upper(s)[i] as int;
      }
    }
  }

  predicate Owns(db: Db, w: WalletId, user: UserId) {
    w in db.wallets && db.wallets[w].user == user
  }

  predicate InCurrency(db: Db, w: WalletId, currency: string) {
    w in db.wallets && Uppercased(currency, db.wallets[w].currency)
  }

  /** The largest BIGINT is 2^63 - 1. */
  predicate FitsBigint(n: int) {
    n <= 9_223_372_036_854_775_807
  }

  /** A new header with this id, key and amount breaks no constraint. */
  predicate Storable(db: Db, id: TxnId, key: Option<string>, amount: int) {
    && id !in db.txns
    && (key.Some? ==> |key.value| <= 255 && key.value !in db.keys)
    && amount >= 1 && FitsBigint(amount)
  }

  /** The key is not empty and a transaction carries it. */
  predicate Taken(db: Db, key: Option<string>) {
    key.Some? && key.value != "" && key.value in db.keys
  }

  /** A deposit: exactly when it succeeds, and exactly when each error is raised. */
  lemma DepositAnswer(db: Db, w: WalletId, user: UserId, amount: int, currency: string, d: Draws)
    ensures var o := Apply(db, Money(Deposit(w, user, amount, currency), d)).outcome;
      var ok := Owns(db, w, user) && InCurrency(db, w, currency);
      var fits := Storable(db, d.id, None, amount)
                  && (ok ==> db.wallets[w].balance + amount >= 0 && FitsBigint(db.wallets[w].balance + amount));
      && (o == Failed(WalletNotFound) <==> w !in db.wallets)
      && (o == Failed(WalletAccessDenied) <==> w in db.wallets && db.wallets[w].user != user)
      && (o == Failed(CurrencyMismatch) <==> Owns(db, w, user) && !InCurrency(db, w, currency))
      && (o == Failed(FlushRejected) <==> ok && !fits)
      && (o.Done? <==> ok && fits)
  {
    if w in db.wallets {
      UpperMeans(currency, db.wallets[w].currency);
    }
  }

  /** A withdrawal: only the owner's, and only what the balance covers. */
  lemma WithdrawalAnswer(db: Db, w: WalletId, user: UserId, amount: int, currency: string, key: Option<string>, d: Draws)
    ensures var o := Apply(db, Money(Withdraw(w, user, amount, currency, key), d)).outcome;
      var ok := Owns(db, w, user) && InCurrency(db, w, currency);
      var covered := ok && amount <= db.wallets[w].balance;
      var fits := Storable(db, d.id, key, amount) && (covered ==> FitsBigint(db.wallets[w].balance - amount));
      if Taken(db, key) then
        o == Replayed(db.keys[key.value], if w in db.wallets then Some(db.wallets[w]) else None)
      else
        && (o == Failed(WalletNotFound) <==> w !in db.wallets)
        && (o == Failed(WalletAccessDenied) <==> w in db.wallets && db.wallets[w].user != user)
        && (o == Failed(CurrencyMismatch) <==> Owns(db, w, user) && !InCurrency(db, w, currency))
        && (o == Failed(InsufficientFunds) <==> ok && !covered)
        && (o == Failed(FlushRejected) <==> covered && !fits)
        && (o.Done? <==> covered && fits)
  {
    if w in db.wallets {
      UpperMeans(currency, db.wallets[w].currency);
    }
  }

  /** A transfer: only by the sender's owner, to another wallet of the same currency. */
  lemma TransferAnswer(db: Db, w: WalletId, user: UserId, r: WalletId, amount: int, currency: string,
                       key: Option<string>, d: Draws)
    ensures var o := Apply(db, Money(Transfer(w, user, r, amount, currency, key), d)).outcome;
      var both := Owns(db, w, user) && r in db.wallets;
      var ok := both && InCurrency(db, w, currency) && db.wallets[r].currency == db.wallets[w].currency;
      var covered := ok && amount <= db.wallets[w].balance;
      var fits := Storable(db, d.id, key, amount)
                  && (covered ==> FitsBigint(db.wallets[w].balance - amount)
                                  && db.wallets[r].balance + amount >= 0 && FitsBigint(db.wallets[r].balance + amount));
      if w == r then
        o == Failed(SameWallet)
      else if Taken(db, key) then
        o == Replayed(db.keys[key.value], if w in db.wallets then Some(db.wallets[w]) else None)
      else
        && (o == Failed(WalletNotFound) <==> w !in db.wallets)
        && (o == Failed(WalletAccessDenied) <==> w in db.wallets && db.wallets[w].user != user)
        && (o == Failed(RecipientNotFound) <==> Owns(db, w, user) && r !in db.wallets)
        && (o == Failed(CurrencyMismatch) <==> both && !ok)
        && (o == Failed(InsufficientFunds) <==> ok && !covered)
        && (o == Failed(FlushRejected) <==> covered && !fits)
        && (o.Done? <==> covered && fits)
  {
    if w in db.wallets {
      UpperMeans(currency, db.wallets[w].currency);
    }
  }

  /** The owner has a wallet in the currency. */
  predicate HasOne(db: Db, owner: UserId, currency: string) {
    exists w | w in db.wallets :: Owns(db, w, owner) && InCurrency(db, w, currency)
  }

  lemma HasOneMeans(db: Db, owner: UserId, currency: string)
    ensures HasWallet(db.wallets, owner, Upper(currency)) <==> HasOne(db, owner, currency)
  {
    if HasWallet(db.wallets, owner, Upper(currency)) {
      var w :| w in db.wallets && db.wallets[w].user == owner && db.wallets[w].currency == Upper(currency);
      UpperMeans(currency, db.wallets[w].currency);
      assert Owns(db, w, owner) && InCurrency(db, w, currency);
    }
    if HasOne(db, owner, currency) {
      var w :| w in db.wallets && Owns(db, w, owner) && InCurrency(db, w, currency);
      UpperMeans(currency, db.wallets[w].currency);
      assert db.wallets[w].user == owner && db.wallets[w].currency == Upper(currency);
    }
  }

  /** A creation: one wallet per owner and currency. */
  lemma CreationAnswer(db: Db, id: WalletId, owner: UserId, currency: string)
    ensures var reply := Apply(db, NewWallet(id, owner, currency));
      && (reply.outcome == Failed(WalletAlreadyExists) <==> HasOne(db, owner, currency))
      && (reply.outcome == Failed(FlushRejected) <==> !HasOne(db, owner, currency) && id in db.wallets)
      && (reply.outcome.Created? <==> !HasOne(db, owner, currency) && id !in db.wallets)
      && (reply.outcome.Created? ==>
            && reply.outcome.row.user == owner && reply.outcome.row.balance == 0
            && Uppercased(currency, reply.outcome.row.currency)
            && reply.db == db.(wallets := db.wallets[id := reply.outcome.row]))
      && (!reply.outcome.Created? ==> reply.db == db)
  {
    UpperMeans(currency, Upper(currency));
    HasOneMeans(db, owner, currency);
  }

  /** Whatever is not answered with success changes no table. */
  lemma OnlySuccessWrites(db: Db, req: Request, d: Draws)
    requires !Apply(db, Money(req, d)).outcome.Done?
    ensures Apply(db, Money(req, d)).db == db
  {
  }

  lemma DepositTables(db: Db, w: WalletId, user: UserId, amount: int, currency: string, d: Draws)
    requires Apply(db, Money(Deposit(w, user, amount, currency), d)).outcome.Done?
    ensures w in db.wallets
    ensures var c := db.wallets[w].currency;
      var row := Wallet(db.wallets[w].user, c, db.wallets[w].balance + amount);
      Apply(db, Money(Deposit(w, user, amount, currency), d)) == Reply(
        Db(db.wallets[w := row],
           db.txns[d.id := Txn(DEPOSIT, COMPLETED, c, None)],
           db.keys,
           db.ledger + [Leg(d.s1, d.id, CREDIT, amount, c, Some(w), None),
                        Leg(d.s2, d.id, DEBIT, amount, c, None, Some("EXTERNAL_FUNDING"))],
           db.outbox + [Event(d.id, d.now, Payload(d.id, DEPOSIT, COMPLETED, c, amount, w, None), false)]),
        Done(d.id, row))
  {
  }

  lemma WithdrawalTables(db: Db, w: WalletId, user: UserId, amount: int, currency: string, key: Option<string>, d: Draws)
    requires Apply(db, Money(Withdraw(w, user, amount, currency, key), d)).outcome.Done?
    ensures w in db.wallets
    ensures var c := db.wallets[w].currency;
      var row := Wallet(db.wallets[w].user, c, db.wallets[w].balance - amount);
      Apply(db, Money(Withdraw(w, user, amount, currency, key), d)) == Reply(
        Db(db.wallets[w := row],
           db.txns[d.id := Txn(WITHDRAWAL, COMPLETED, c, key)],
           if key.Some? then db.keys[key.value := d.id] else db.keys,
           db.ledger + [Leg(d.s1, d.id, DEBIT, amount, c, Some(w), None),
                        Leg(d.s2, d.id, CREDIT, amount, c, None, Some("EXTERNAL_FUNDING"))],
           db.outbox + [Event(d.id, d.now, Payload(d.id, WITHDRAWAL, COMPLETED, c, amount, w, None), false)]),
        Done(d.id, row))
  {
  }

  lemma TransferTables(db: Db, w: WalletId, user: UserId, r: WalletId, amount: int, currency: string,
                       key: Option<string>, d: Draws)
    requires Apply(db, Money(Transfer(w, user, r, amount, currency, key), d)).outcome.Done?
    ensures w in db.wallets && r in db.wallets && w != r
    ensures var c := db.wallets[w].currency;
      var row := Wallet(db.wallets[w].user, c, db.wallets[w].balance - amount);
      var other := Wallet(db.wallets[r].user, db.wallets[r].currency, db.wallets[r].balance + amount);
      Apply(db, Money(Transfer(w, user, r, amount, currency, key), d)) == Reply(
        Db(db.wallets[w := row][r := other],
           db.txns[d.id := Txn(TRANSFER, COMPLETED, c, key)],
           if key.Some? then db.keys[key.value := d.id] else db.keys,
           db.ledger + [Leg(d.s1, d.id, DEBIT, amount, c, Some(w), None),
                        Leg(d.s2, d.id, CREDIT, amount, c, Some(r), None)],
           db.outbox + [Event(d.id, d.now, Payload(d.id, TRANSFER, COMPLETED, c, amount, w, Some(r)), false)]),
        Done(d.id, row))
  {
  }

  // ----- whose requests move money -----

  /** The one wallet a successful request of this kind debits is its owner's; what it credits is named by it. */
  predicate MovesAsAsked(before: Wallet, after: Wallet, w: WalletId, req: Request) {
    && (after.balance < before.balance ==>
          && (req.Withdraw? || req.Transfer?) && w == req.wallet
          && before.user == req.requester && after.balance == before.balance - req.amount)
    && (after.balance > before.balance ==>
          && ((req.Deposit? && w == req.wallet && before.user == req.requester) || (req.Transfer? && w == req.recipient))
          && after.balance == before.balance + req.amount)
  }

  lemma SuccessMovesAsAsked(db: Db, req: Request, d: Draws, w: WalletId)
    requires w in db.wallets
    ensures w in Apply(db, Money(req, d)).db.wallets
    ensures MovesAsAsked(db.wallets[w], Apply(db, Money(req, d)).db.wallets[w], w, req)
  {
  }

  /** In every interleaved run a step that changes a balance is the commit of a request that asked for just that
      change, and money leaves a wallet only at its owner's request. */
  lemma OnlyOwnersDebit(acts: seq<Action>, s: Sys, a: Action, w: WalletId)
    requires Reaches(INIT, acts, s) && Enabled(s, a) && w in s.db.wallets
    ensures w in Do(s, a).db.wallets
    ensures Do(s, a).db.wallets[w] != s.db.wallets[w] ==>
      a.Advance? && MovesAsAsked(s.db.wallets[w], Do(s, a).db.wallets[w], w, s.procs[a.p].req)
  {
    InitSound();
    ReachableSound(INIT, acts, s);
    if a.Advance? && Commits(s.procs[a.p]) {
      assert ProcSound(s.db, s.nextSeq, s.procs[a.p]);
      CommitIsAtomic(s.db, s.nextSeq, s.procs[a.p]);
      SuccessMovesAsAsked(s.db, s.procs[a.p].req, DrawsOf(s.procs[a.p]), w);
    }
  }
}
