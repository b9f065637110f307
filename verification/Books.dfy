/** What the books promise: balances equal the ledger, currencies are conserved, and headers, legs and
    outbox rows mirror each other, in every state that serial operations reach. */
module Books {
  import opened Rows
  import opened Operations

  function SignedAmount(l: Leg): int {
    if l.entry == CREDIT then l.amount else -l.amount
  }

  function Signed(l: Leg, w: WalletId): int {
    if l.wallet == Some(w) then SignedAmount(l) else 0
  }

  /** Credits minus debits on one wallet. */
  function Net(ledger: seq<Leg>, w: WalletId): int {
    if ledger == [] then 0 else Net(ledger[..|ledger| - 1], w) + Signed(ledger[|ledger| - 1], w)
  }

  lemma {:induction false} NetConcat(a: seq<Leg>, b: seq<Leg>, w: WalletId)
    ensures Net(a + b, w) == Net(a, w) + Net(b, w)
  {
    if b == [] {
      assert a + b == a;
    } else {
      var k := |b| - 1;
      assert (a + b)[..|a + b| - 1] == a + b[..k];
      NetConcat(a, b[..k], w);
    }
  }

  lemma NetOfTwo(x: Leg, y: Leg, w: WalletId)
    ensures Net([x, y], w) == Signed(x, w) + Signed(y, w)
  {
    assert [x, y] == [x] + [y];
    NetConcat([x], [y], w);
    assert [x][..0] == [] && [y][..0] == [];
  }

  function Funding(l: Leg, currency: string): int {
    if l.system == Some(EXTERNAL_FUNDING) && l.currency == currency then SignedAmount(l) else 0
  }

  /** Credits minus debits on the external funding account, in one currency. */
  function FundingNet(ledger: seq<Leg>, currency: string): int {
    if ledger == [] then 0
    else FundingNet(ledger[..|ledger| - 1], currency) + Funding(ledger[|ledger| - 1], currency)
  }

  lemma FundingNetTwo(ledger: seq<Leg>, x: Leg, y: Leg, c: string)
    ensures FundingNet(ledger + [x, y], c) == FundingNet(ledger, c) + Funding(x, c) + Funding(y, c)
  {
    assert (ledger + [x, y])[..|ledger| + 1] == ledger + [x];
    assert (ledger + [x])[..|ledger|] == ledger;
  }

  function InCurrency(w: Wallet, currency: string): int {
    if w.currency == currency then w.balance else 0
  }

  /** Sum of all wallet balances in one currency. */
  ghost function Total(wallets: map<WalletId, Wallet>, currency: string): int
    decreases |wallets|
  {
    if exists w :: w in wallets then
      var w :| w in wallets;
      InCurrency(wallets[w], currency) + Total(wallets - {w}, currency)
    else 0
  }

  lemma {:induction false} TotalPick(wallets: map<WalletId, Wallet>, w: WalletId, c: string)
    requires w in wallets
    ensures Total(wallets, c) == InCurrency(wallets[w], c) + Total(wallets - {w}, c)
    decreases |wallets|
  {
    var x :| x in wallets && Total(wallets, c) == InCurrency(wallets[x], c) + Total(wallets - {x}, c);
    if x != w {
      TotalPick(wallets - {x}, w, c);
      TotalPick(wallets - {w}, x, c);
      assert wallets - {x} - {w} == wallets - {w} - {x};
    }
  }

  /** Every wallet of the currency counts once with its balance. */
  lemma TotalMeans(wallets: map<WalletId, Wallet>, w: WalletId, c: string)
    requires w in wallets
    ensures Total(map[], c) == 0
    ensures Total(wallets, c) == Total(wallets - {w}, c) + if wallets[w].currency == c then wallets[w].balance else 0
  {
    TotalPick(wallets, w, c);
  }

  lemma TotalUpdate(wallets: map<WalletId, Wallet>, w: WalletId, row: Wallet, c: string)
    ensures w in wallets ==>
      Total(wallets[w := row], c) == Total(wallets, c) - InCurrency(wallets[w], c) + InCurrency(row, c)
    ensures w !in wallets ==> Total(wallets[w := row], c) == Total(wallets, c) + InCurrency(row, c)
  {
    TotalPick(wallets[w := row], w, c);
    assert wallets[w := row] - {w} == wallets - {w};
    if w in wallets {
      TotalPick(wallets, w, c);
    } else {
      assert wallets - {w} == wallets;
    }
  }

  /** What the two ledger sums are: credits count up and debits down, a wallet's legs by wallet, the funding
      account's by currency. */
  lemma SumsOneMore(ledger: seq<Leg>, l: Leg, w: WalletId, c: string)
    ensures Net([], w) == 0 && FundingNet([], c) == 0
    ensures Net(ledger + [l], w) == Net(ledger, w) +
      if l.wallet != Some(w) then 0 else if l.entry == CREDIT then l.amount else -l.amount
    ensures FundingNet(ledger + [l], c) == FundingNet(ledger, c) +
      if l.system != Some("EXTERNAL_FUNDING") || l.currency != c then 0 else if l.entry == CREDIT then l.amount else -l.amount
  {
    assert (ledger + [l])[..|ledger|] == ledger;
  }

  // ----- the invariant -----

  /** Every leg on a wallet belongs to an existing wallet of the leg's currency, and passes the CHECKs. */
  ghost predicate LegsSound(db: Db) {
    forall i | 0 <= i < |db.ledger| ::
      var l := db.ledger[i];
      LegRowOk(l) && (l.wallet.Some? ==> l.wallet.value in db.wallets && db.wallets[l.wallet.value].currency == l.currency)
  }

  ghost predicate Balanced(db: Db) {
    forall w | w in db.wallets :: db.wallets[w].balance == Net(db.ledger, w) && WalletRowOk(db.wallets[w])
  }

  ghost predicate NeverOverdrawn(db: Db) {
    forall k: nat, w: WalletId | k <= |db.ledger| :: Net(db.ledger[..k], w) >= 0
  }

  ghost predicate Conserved(db: Db) {
    forall c: string :: Total(db.wallets, c) + FundingNet(db.ledger, c) == 0
  }

  /** The unique index and the header column say the same. */
  ghost predicate IndexSound(db: Db) {
    && (forall k | k in db.keys :: db.keys[k] in db.txns && db.txns[db.keys[k]].key == Some(k))
    && (forall t | t in db.txns && db.txns[t].key.Some? ::
          db.txns[t].key.value in db.keys && db.keys[db.txns[t].key.value] == t)
  }

  /** A payload tells exactly what two adjacent legs and a header say. */
  predicate Mirrors(p: Payload, header: Txn, x: Leg, y: Leg) {
    && header == Txn(p.kind, COMPLETED, p.currency, header.key)
    && p.status == COMPLETED
    && x.txn == y.txn == p.txn
    && x.currency == y.currency == p.currency
    && x.amount == y.amount == p.amount
    && x.wallet == Some(p.wallet)
    && x.entry != y.entry
    && (p.kind == DEPOSIT <==> x.entry == CREDIT)
    && (p.kind == TRANSFER <==> p.counterparty.Some?)
    && (if p.kind == TRANSFER then y.wallet == p.counterparty && y.wallet != x.wallet
        else y.system == Some(EXTERNAL_FUNDING))
  }

  predicate PairAt(db: Db, i: nat)
    requires |db.ledger| == 2 * |db.outbox| && i < |db.outbox|
  {
    var e := db.outbox[i];
    e.aggregate == e.payload.txn && e.aggregate in db.txns
    && Mirrors(e.payload, db.txns[e.aggregate], db.ledger[2 * i], db.ledger[2 * i + 1])
  }

  predicate Listed(db: Db, t: TxnId) {
    exists i | 0 <= i < |db.outbox| :: db.outbox[i].aggregate == t
  }

  /** The k-th outbox row, the k-th pair of legs and one header mirror each other; no header is left over. */
  ghost predicate Mirrored(db: Db) {
    && |db.ledger| == 2 * |db.outbox|
    && (forall i: nat | i < |db.outbox| :: PairAt(db, i))
    && (forall i, j | 0 <= i < j < |db.outbox| :: db.outbox[i].aggregate != db.outbox[j].aggregate)
    && (forall t | t in db.txns :: Listed(db, t))
  }

  /** Nobody owns two wallets in one currency. */
  predicate OneWalletEach(wallets: map<WalletId, Wallet>) {
    forall v, w | v in wallets && w in wallets && v != w ::
      wallets[v].user != wallets[w].user || wallets[v].currency != wallets[w].currency
  }

  ghost predicate BookInv(db: Db) {
    OneWalletEach(db.wallets) && LegsSound(db) && Balanced(db) && NeverOverdrawn(db) && Conserved(db) && IndexSound(db) && Mirrored(db)
  }

  // ----- one committed request keeps it -----

  /** Everything a request has passed when it commits. */
  predicate Passes(db: Db, req: Request, d: Draws) {
    && !SelfTransfer(req)
    && Validate(req, Find(db.wallets, req.wallet), RecipientRow(db.wallets, req)).None?
    && d.id !in db.txns
    && KeyAccepted(db.keys, req)
    && AmountOk(req.amount)
    && BalancesOk(db.wallets, req)
  }

  lemma PostNet(db: Db, req: Request, d: Draws, w: WalletId)
    requires Passes(db, req, d)
    ensures w in db.wallets ==>
      Moved(db.wallets, req)[w].balance - db.wallets[w].balance
      == Net(Post(db, req, d).ledger, w) - Net(db.ledger, w)
    ensures w !in db.wallets ==> Net(Post(db, req, d).ledger, w) == Net(db.ledger, w)
  {
    var legs := LegsOf(req, db.wallets[req.wallet].currency, d);
    NetConcat(db.ledger, legs, w);
    NetOfTwo(legs[0], legs[1], w);
  }

  lemma PostBalanced(db: Db, req: Request, d: Draws)
    requires Passes(db, req, d) && Balanced(db)
    ensures Balanced(Post(db, req, d))
  {
    var db' := Post(db, req, d);
    forall w | w in db'.wallets
      ensures db'.wallets[w].balance == Net(db'.ledger, w) && WalletRowOk(db'.wallets[w])
    {
      PostNet(db, req, d, w);
    }
  }

  lemma FirstOfTwo(ledger: seq<Leg>, x: Leg, y: Leg, w: WalletId)
    ensures Net((ledger + [x, y])[..|ledger| + 1], w) == Net(ledger, w) + Signed(x, w)
  {
    assert (ledger + [x, y])[..|ledger| + 1] == ledger + [x];
    assert (ledger + [x])[..|ledger|] == ledger;
  }

  lemma PostNeverOverdrawn(db: Db, req: Request, d: Draws)
    requires Passes(db, req, d) && Balanced(db) && NeverOverdrawn(db)
    ensures NeverOverdrawn(Post(db, req, d))
  {
    var db' := Post(db, req, d);
    var legs := LegsOf(req, db.wallets[req.wallet].currency, d);
    var n := |db.ledger|;
    PostBalanced(db, req, d);
    forall k: nat, w: WalletId | k <= |db'.ledger|
      ensures Net(db'.ledger[..k], w) >= 0
    {
      assert db.ledger[..n] == db.ledger;
      if k <= n {
        assert db'.ledger[..k] == db.ledger[..k];
      } else if k == n + 1 {
        assert legs == [legs[0], legs[1]];
        FirstOfTwo(db.ledger, legs[0], legs[1], w);
        PostNet(db, req, d, w);
        NetConcat(db.ledger, legs, w);
        NetOfTwo(legs[0], legs[1], w);
      } else {
        assert db'.ledger[..k] == db'.ledger;
        PostNet(db, req, d, w);
      }
    }
  }

  lemma PostConserved(db: Db, req: Request, d: Draws)
    requires Passes(db, req, d) && Conserved(db)
    ensures Conserved(Post(db, req, d))
  {
    var db' := Post(db, req, d);
    var legs := LegsOf(req, db.wallets[req.wallet].currency, d);
    forall c: string
      ensures Total(db'.wallets, c) + FundingNet(db'.ledger, c) == 0
    {
      assert legs == [legs[0], legs[1]];
      FundingNetTwo(db.ledger, legs[0], legs[1], c);
      var row := db'.wallets[req.wallet];
      TotalUpdate(db.wallets, req.wallet, row, c);
      if req.Transfer? {
        TotalUpdate(db.wallets[req.wallet := row], req.recipient, db'.wallets[req.recipient], c);
      }
    }
  }

  lemma PostMirrored(db: Db, req: Request, d: Draws)
    requires Passes(db, req, d) && Mirrored(db)
    ensures Mirrored(Post(db, req, d))
  {
    var db' := Post(db, req, d);
    var n := |db.outbox|;
    forall i: nat | i < |db'.outbox|
      ensures PairAt(db', i)
    {
      if i < n {
        assert PairAt(db, i);
      }
    }
    forall i, j | 0 <= i < j < |db'.outbox|
      ensures db'.outbox[i].aggregate != db'.outbox[j].aggregate
    {
      assert PairAt(db, i);
    }
    forall t | t in db'.txns
      ensures Listed(db', t)
    {
      if t == d.id {
        assert db'.outbox[n].aggregate == t;
      } else {
        assert Listed(db, t);
        var i :| 0 <= i < n && db.outbox[i].aggregate == t;
        assert db'.outbox[i].aggregate == t;
      }
    }
  }

  lemma PostKeepsBooks(db: Db, req: Request, d: Draws)
    requires Passes(db, req, d) && BookInv(db)
    ensures BookInv(Post(db, req, d))
  {
    PostBalanced(db, req, d);
    PostNeverOverdrawn(db, req, d);
    PostConserved(db, req, d);
    PostMirrored(db, req, d);
  }

  lemma {:induction false} NoLegsNoNet(ledger: seq<Leg>, w: WalletId)
    requires forall i | 0 <= i < |ledger| :: ledger[i].wallet != Some(w)
    ensures Net(ledger, w) == 0
  {
    if ledger != [] {
      NoLegsNoNet(ledger[..|ledger| - 1], w);
    }
  }

  lemma NewWalletKeepsBooks(db: Db, id: WalletId, owner: UserId, currency: string)
    requires BookInv(db)
    ensures BookInv(ApplyNewWallet(db, id, owner, currency).db)
  {
    var db' := ApplyNewWallet(db, id, owner, currency).db;
    if db' != db {
      NoLegsNoNet(db.ledger, id);
      forall c: string ensures Total(db'.wallets, c) + FundingNet(db'.ledger, c) == 0 {
        TotalUpdate(db.wallets, id, db'.wallets[id], c);
      }
      forall i: nat | i < |db'.outbox| ensures PairAt(db', i) { assert PairAt(db, i); }
      forall t | t in db'.txns ensures Listed(db', t) { assert Listed(db, t); }
    }
  }

  lemma ApplyKeepsBooks(db: Db, op: Op)
    requires BookInv(db)
    ensures BookInv(Apply(db, op).db)
  {
    match op
    case NewWallet(id, owner, currency) => NewWalletKeepsBooks(db, id, owner, currency);
    case Money(req, d) =>
      if Apply(db, op).outcome.Done? {
        assert Passes(db, req, d);
        PostKeepsBooks(db, req, d);
      }
  }

  lemma EmptyBooks()
    ensures BookInv(EMPTY_DB)
  {
  }

  /** The replay check may rely on the index in every state. */
  lemma ApplyKeepsIndex(db: Db, op: Op)
    requires IndexSound(db)
    ensures IndexSound(Apply(db, op).db)
  {
  }

  /** Every serial history keeps the books. */
  lemma {:induction false} RunKeepsBooks(db: Db, ops: seq<Op>)
    requires BookInv(db)
    ensures BookInv(Run(db, ops))
  {
    if ops != [] {
      RunKeepsBooks(db, ops[..|ops| - 1]);
      ApplyKeepsBooks(Run(db, ops[..|ops| - 1]), ops[|ops| - 1]);
    }
  }

  /** Each committed transaction has exactly one outbox row and exactly two legs, one credit and one debit of
      the same amount in the header's currency, and the row says the same as header and legs. */
  lemma DoubleEntry(db: Db, t: TxnId) returns (i: nat)
    requires BookInv(db) && t in db.txns
    ensures i < |db.outbox| && |db.ledger| == 2 * |db.outbox|
    ensures forall k | 0 <= k < |db.outbox| :: db.outbox[k].aggregate == t <==> k == i
    ensures forall k | 0 <= k < |db.ledger| :: db.ledger[k].txn == t <==> k == 2 * i || k == 2 * i + 1
    ensures Mirrors(db.outbox[i].payload, db.txns[t], db.ledger[2 * i], db.ledger[2 * i + 1])
    ensures var p, x, y := db.outbox[i].payload, db.ledger[2 * i], db.ledger[2 * i + 1];
      && p.txn == t && p.kind == db.txns[t].kind && p.status == db.txns[t].status == COMPLETED
      && p.currency == db.txns[t].currency == x.currency == y.currency
      && p.amount == x.amount == y.amount > 0 && x.wallet == Some(p.wallet)
      && (x.entry == CREDIT <==> y.entry == DEBIT) && (x.entry == CREDIT <==> p.kind == DEPOSIT)
      && (if p.kind == TRANSFER then y.wallet == p.counterparty && y.wallet.Some? && y.wallet != x.wallet
          else p.counterparty == None == y.wallet && y.system == Some("EXTERNAL_FUNDING"))
  {
    assert Listed(db, t);
    i :| i < |db.outbox| && db.outbox[i].aggregate == t;
    assert PairAt(db, i);
    assert LegRowOk(db.ledger[2 * i]) && LegRowOk(db.ledger[2 * i + 1]);
    forall k | 0 <= k < |db.ledger| ensures db.ledger[k].txn == t <==> k == 2 * i || k == 2 * i + 1 {
      assert PairAt(db, k / 2);
      assert k == 2 * (k / 2) || k == 2 * (k / 2) + 1;
      assert db.ledger[k].txn == db.outbox[k / 2].aggregate;
    }
  }

  /** No two committed headers carry the same key. */
  lemma KeysAreUnique(db: Db, t: TxnId, u: TxnId)
    requires BookInv(db) && t in db.txns && u in db.txns
    requires db.txns[t].key.Some? && db.txns[t].key == db.txns[u].key
    ensures t == u
  {
  }
}
