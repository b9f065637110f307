/** The tables the ledger works on, with the CHECK constraints the database puts on a row. */
module Rows {

  datatype Option<+T> = None | Some(value: T)

  // UUIDs are compared and sorted but never inspected, so integers stand for them.
  type WalletId = int
  type UserId = int
  type TxnId = int

  const BIGINT_MAX: int := 0x7FFF_FFFF_FFFF_FFFF
  const KEY_WIDTH: int := 255
  const EXTERNAL_FUNDING: string := "EXTERNAL_FUNDING"

  datatype EntryType = CREDIT | DEBIT
  datatype TxnType = DEPOSIT | TRANSFER | WITHDRAWAL
  datatype TxnStatus = PENDING | COMPLETED

  datatype Wallet = Wallet(user: UserId, currency: string, balance: int)

  datatype Txn = Txn(kind: TxnType, status: TxnStatus, currency: string, key: Option<string>)

  /** One leg. `seqNo` is the identity column: drawn once, never handed out again. */
  datatype Leg = Leg(seqNo: int, txn: TxnId, entry: EntryType, amount: int, currency: string,
                     wallet: Option<WalletId>, system: Option<string>)

  datatype Payload = Payload(txn: TxnId, kind: TxnType, status: TxnStatus, currency: string, amount: int,
                             wallet: WalletId, counterparty: Option<WalletId>)

  /** An outbox row. `createdAt` is the start of the writing transaction, so it need not follow commit order. */
  datatype Event = Event(aggregate: TxnId, createdAt: int, payload: Payload, published: bool)

  /** Committed tables. `keys` is the unique index on the idempotency key; `ledger` and `outbox`
      list their rows in the order in which they were committed. */
  datatype Db = Db(wallets: map<WalletId, Wallet>,
                   txns: map<TxnId, Txn>,
                   keys: map<string, TxnId>,
                   ledger: seq<Leg>,
                   outbox: seq<Event>)

  const EMPTY_DB: Db := Db(map[], map[], map[], [], [])

  predicate WalletRowOk(w: Wallet) {
    0 <= w.balance <= BIGINT_MAX
  }

  predicate AmountOk(amount: int) {
    0 < amount <= BIGINT_MAX
  }

  predicate LegRowOk(l: Leg) {
    AmountOk(l.amount) && (l.wallet.Some? <==> l.system.None?)
  }

  function Find<K, V>(m: map<K, V>, k: K): (r: Option<V>)
    ensures r.Some? <==> k in m
    ensures r.Some? ==> r.value == m[k]
  {
    if k in m then Some(m[k]) else None
  }
}
