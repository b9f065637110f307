/** What one money request or wallet creation does to the committed tables when nothing runs beside it.
    The service class is proved to compute it, and the interleaved machine to simulate it. */
module Operations {
  import opened Rows
  import opened Ordering

  /** `wallet` is the wallet whose owner is checked: the credited one of a deposit, the sender of a transfer. */
  datatype Request =
    | Deposit(wallet: WalletId, requester: UserId, amount: int, currency: string)
    | Transfer(wallet: WalletId, requester: UserId, recipient: WalletId, amount: int, currency: string,
               key: Option<string>)
    | Withdraw(wallet: WalletId, requester: UserId, amount: int, currency: string, key: Option<string>)

  /** Values the database and the runtime hand out: a uuid4, the transaction time, two identity values. */
  datatype Draws = Draws(id: TxnId, now: int, s1: int, s2: int)

  datatype Op =
    | Money(req: Request, draws: Draws)
    | NewWallet(id: WalletId, owner: UserId, currency: string)

  /** `FlushRejected` stands for the IntegrityError or DataError that a flush raises. */
  datatype Error =
    | WalletNotFound | WalletAccessDenied | CurrencyMismatch | InsufficientFunds
    | SameWallet | RecipientNotFound | WalletAlreadyExists | FlushRejected | Crashed

  datatype Outcome =
    | Done(txn: TxnId, after: Wallet)
    | Replayed(original: TxnId, current: Option<Wallet>)
    | Created(row: Wallet)
    | Failed(error: Error)

  datatype Reply = Reply(db: Db, outcome: Outcome)

  function UpperChar(c: char): char {
    if 'a' <= c <= 'z' then c - 'a' + 'A' else c
  }

  function Upper(s: string): string {
    seq(|s|, i requires 0 <= i < |s| => UpperChar(s[i]))
  }

  function Kind(req: Request): TxnType {
    match req
    case Deposit(_, _, _, _) => DEPOSIT
    case Transfer(_, _, _, _, _, _) => TRANSFER
    case Withdraw(_, _, _, _, _) => WITHDRAWAL
  }

  /** The key stored in the header; deposits carry none. */
  function KeyOf(req: Request): Option<string> {
    if req.Deposit? then None else req.key
  }

  /** Python truthiness: an empty key skips the replay check although it is stored. */
  predicate Replayable(req: Request) {
    KeyOf(req).Some? && KeyOf(req).value != ""
  }

  predicate SelfTransfer(req: Request) {
    req.Transfer? && req.wallet == req.recipient
  }

  /** The checks made after the rows were read, in the order in which the service makes them. */
  function Validate(req: Request, subject: Option<Wallet>, recipient: Option<Wallet>): Option<Error> {
    if subject.None? then Some(WalletNotFound)
    else if subject.value.user != req.requester then Some(WalletAccessDenied)
    else if req.Transfer? && recipient.None? then Some(RecipientNotFound)
    else if subject.value.currency != Upper(req.currency) then Some(CurrencyMismatch)
    else if req.Transfer? && recipient.value.currency != subject.value.currency then Some(CurrencyMismatch)
    else if !req.Deposit? && subject.value.balance < req.amount then Some(InsufficientFunds)
    else None
  }

  function Credited(w: Wallet, amount: int): Wallet {
    w.(balance := w.balance + amount)
  }

  function LegsOf(req: Request, currency: string, d: Draws): seq<Leg> {
    match req
    case Deposit(w, _, amount, _) =>
      [Leg(d.s1, d.id, CREDIT, amount, currency, Some(w), None),
       Leg(d.s2, d.id, DEBIT, amount, currency, None, Some(EXTERNAL_FUNDING))]
    case Transfer(w, _, r, amount, _, _) =>
      [Leg(d.s1, d.id, DEBIT, amount, currency, Some(w), None),
       Leg(d.s2, d.id, CREDIT, amount, currency, Some(r), None)]
    case Withdraw(w, _, amount, _, _) =>
      [Leg(d.s1, d.id, DEBIT, amount, currency, Some(w), None),
       Leg(d.s2, d.id, CREDIT, amount, currency, None, Some(EXTERNAL_FUNDING))]
  }

  function EventOf(req: Request, currency: string, d: Draws): Event {
    Event(d.id, d.now,
          Payload(d.id, Kind(req), COMPLETED, currency, req.amount, req.wallet,
                  if req.Transfer? then Some(req.recipient) else None),
          false)
  }

  predicate Present(wallets: map<WalletId, Wallet>, req: Request) {
    req.wallet in wallets && (req.Transfer? ==> req.recipient in wallets && req.recipient != req.wallet)
  }

  function Moved(wallets: map<WalletId, Wallet>, req: Request): map<WalletId, Wallet>
    requires Present(wallets, req)
  {
    match req
    case Deposit(w, _, amount, _) => wallets[w := Credited(wallets[w], amount)]
    case Transfer(w, _, r, amount, _, _) =>
      wallets[w := Credited(wallets[w], -amount)][r := Credited(wallets[r], amount)]
    case Withdraw(w, _, amount, _, _) => wallets[w := Credited(wallets[w], -amount)]
  }

  /** No CHECK constraint and no column width rejects the new balances. */
  predicate BalancesOk(wallets: map<WalletId, Wallet>, req: Request)
    requires Present(wallets, req)
  {
    var after := Moved(wallets, req);
    WalletRowOk(after[req.wallet]) && (req.Transfer? ==> WalletRowOk(after[req.recipient]))
  }

  /** The insert of a header with this key passes the column width and the unique index. */
  predicate KeyOk(keys: map<string, TxnId>, key: Option<string>) {
    key.Some? ==> |key.value| <= KEY_WIDTH && key.value !in keys
  }

  predicate KeyAccepted(keys: map<string, TxnId>, req: Request) {
    KeyOk(keys, KeyOf(req))
  }

  function Bind(keys: map<string, TxnId>, key: Option<string>, id: TxnId): map<string, TxnId> {
    if key.Some? then keys[key.value := id] else keys
  }

  /** The tables after a request got through all its checks and committed. */
  function Post(db: Db, req: Request, d: Draws): Db
    requires Present(db.wallets, req)
  {
    var currency := db.wallets[req.wallet].currency;
    Db(Moved(db.wallets, req),
       db.txns[d.id := Txn(Kind(req), COMPLETED, currency, KeyOf(req))],
       Bind(db.keys, KeyOf(req), d.id),
       db.ledger + LegsOf(req, currency, d),
       db.outbox + [EventOf(req, currency, d)])
  }

  function RecipientRow(wallets: map<WalletId, Wallet>, req: Request): Option<Wallet> {
    if req.Transfer? then Find(wallets, req.recipient) else None
  }

  function ApplyMoney(db: Db, req: Request, d: Draws): Reply {
    if SelfTransfer(req) then Reply(db, Failed(SameWallet))
    else if Replayable(req) && KeyOf(req).value in db.keys then
      Reply(db, Replayed(db.keys[KeyOf(req).value], Find(db.wallets, req.wallet)))
    else
      match Validate(req, Find(db.wallets, req.wallet), RecipientRow(db.wallets, req))
      case Some(e) => Reply(db, Failed(e))
      case None =>
        if d.id !in db.txns && KeyAccepted(db.keys, req) && AmountOk(req.amount) && BalancesOk(db.wallets, req) then
          var db' := Post(db, req, d);
          Reply(db', Done(d.id, db'.wallets[req.wallet]))
        else
          Reply(db, Failed(FlushRejected))
  }

  /** The rows a request locks, in the order in which it locks them. */
  function LockPlan(req: Request): (plan: seq<WalletId>)
    ensures 1 <= |plan| <= 2
    ensures StrictlyAscending(plan)
    ensures forall w :: w in plan <==> w == req.wallet || (req.Transfer? && w == req.recipient)
  {
    var ids := if req.Transfer? then [req.wallet, req.recipient] else [req.wallet];
    var plan := SortedSet(ids);
    assert req.wallet in plan;
    plan
  }

  lemma OneRowPlan(req: Request)
    requires !req.Transfer?
    ensures LockPlan(req) == [req.wallet]
  {
    var plan := LockPlan(req);
    assert forall k | 0 <= k < |plan| :: plan[k] in plan;
  }

  lemma TwoRowPlan(x: Request)
    requires x.Transfer? && x.wallet != x.recipient
    ensures LockPlan(x) == if x.wallet < x.recipient then [x.wallet, x.recipient] else [x.recipient, x.wallet]
  {
    var plan := LockPlan(x);
    assert forall k | 0 <= k < |plan| :: plan[k] in plan;
    assert x.wallet in plan && x.recipient in plan;
  }

  predicate HasWallet(wallets: map<WalletId, Wallet>, owner: UserId, currency: string) {
    exists w | w in wallets :: wallets[w].user == owner && wallets[w].currency == currency
  }

  function ApplyNewWallet(db: Db, id: WalletId, owner: UserId, currency: string): Reply {
    if HasWallet(db.wallets, owner, Upper(currency)) then Reply(db, Failed(WalletAlreadyExists))
    else if id in db.wallets then Reply(db, Failed(FlushRejected))
    else
      var row := Wallet(owner, Upper(currency), 0);
      Reply(db.(wallets := db.wallets[id := row]), Created(row))
  }

  function Apply(db: Db, op: Op): Reply {
    match op
    case Money(req, d) => ApplyMoney(db, req, d)
    case NewWallet(id, owner, currency) => ApplyNewWallet(db, id, owner, currency)
  }

  /** The tables after a serial history. */
  function Run(db: Db, ops: seq<Op>): Db {
    if ops == [] then db else Apply(Run(db, ops[..|ops| - 1]), ops[|ops| - 1]).db
  }

  lemma {:induction false} RunConcat(db: Db, a: seq<Op>, b: seq<Op>)
    ensures Run(db, a + b) == Run(Run(db, a), b)
  {
    if b == [] {
      assert a + b == a;
    } else {
      var k := |b| - 1;
      assert (a + b)[..|a + b| - 1] == a + b[..k];
      assert (a + b)[|a + b| - 1] == b[k];
      RunConcat(db, a, b[..k]);
    }
  }
}
