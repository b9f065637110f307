/** The reconciliation job: group-by sums of the ledger against the cached balances, read one after the other. */
module Reconciliation {
  import opened Rows
  import opened Operations
  import opened Books
  import opened Interleaving
  import opened Serializability

  datatype WalletRow = WalletRow(id: WalletId, row: Wallet)

  datatype Discrepancy = Discrepancy(wallet: WalletId, cached: int, ledger: int) {
    function Diff(): int { cached - ledger }
  }

  datatype Report = Report(checked: nat, discrepancies: seq<Discrepancy>) {
    predicate Ok() { discrepancies == [] }
  }

  function GroupKeys(ledger: seq<Leg>): set<WalletId> {
    set l | l in ledger && l.wallet.Some? :: l.wallet.value
  }

  /** One signed sum for each wallet that has a leg. */
  function LedgerBalances(ledger: seq<Leg>): map<WalletId, int> {
    map w | w in GroupKeys(ledger) :: Net(ledger, w)
  }

  /** A query result that lists each wallet row once, in any order. */
  predicate Selects(rows: seq<WalletRow>, wallets: map<WalletId, Wallet>) {
    && (forall i | 0 <= i < |rows| :: rows[i].id in wallets && wallets[rows[i].id] == rows[i].row)
    && (forall i, j | 0 <= i < j < |rows| :: rows[i].id != rows[j].id)
    && (forall w | w in wallets :: WalletRow(w, wallets[w]) in rows)
  }

  /** What the job appends for one row: at most one discrepancy, on that row's own wallet. */
  function DriftOf(row: WalletRow, balances: map<WalletId, int>): (ds: seq<Discrepancy>)
    ensures |ds| <= 1 && forall d | d in ds :: d.wallet == row.id && d.cached == row.row.balance && d.Diff() != 0
  {
    var expected := Find(balances, row.id);
    var sum := if expected.Some? then expected.value else 0;
    if row.row.balance != sum then [Discrepancy(row.id, row.row.balance, sum)] else []
  }

  function Drifted(rows: seq<WalletRow>, balances: map<WalletId, int>): seq<Discrepancy> {
    if rows == [] then []
    else Drifted(rows[..|rows| - 1], balances) + DriftOf(rows[|rows| - 1], balances)
  }

  lemma MissingGroupIsZero(ledger: seq<Leg>, w: WalletId)
    requires w !in GroupKeys(ledger)
    ensures Net(ledger, w) == 0
  {
    forall i | 0 <= i < |ledger| ensures ledger[i].wallet != Some(w) {
      assert ledger[i] in ledger;
    }
    NoLegsNoNet(ledger, w);
  }

  /** A row is reported exactly if its balance is not the signed sum of its legs, with both figures right. */
  lemma {:induction false} ReportsDriftedRows(rows: seq<WalletRow>, ledger: seq<Leg>, d: Discrepancy)
    ensures d in Drifted(rows, LedgerBalances(ledger)) <==>
      exists i :: 0 <= i < |rows| && rows[i].row.balance != Net(ledger, rows[i].id)
        && d == Discrepancy(rows[i].id, rows[i].row.balance, Net(ledger, rows[i].id))
  {
    if rows != [] {
      var n := |rows| - 1;
      ReportsDriftedRows(rows[..n], ledger, d);
      if rows[n].id !in GroupKeys(ledger) {
        MissingGroupIsZero(ledger, rows[n].id);
      }
      forall i | 0 <= i < n ensures rows[..n][i] == rows[i] { }
    }
  }

  lemma EmptyExactly(rows: seq<WalletRow>, ledger: seq<Leg>)
    ensures Drifted(rows, LedgerBalances(ledger)) == []
      <==> forall i | 0 <= i < |rows| :: rows[i].row.balance == Net(ledger, rows[i].id)
  {
    var ds := Drifted(rows, LedgerBalances(ledger));
    if ds != [] {
      ReportsDriftedRows(rows, ledger, ds[0]);
    }
    forall i | 0 <= i < |rows| && rows[i].row.balance != Net(ledger, rows[i].id) ensures ds != [] {
      ReportsDriftedRows(rows, ledger, Discrepancy(rows[i].id, rows[i].row.balance, Net(ledger, rows[i].id)));
    }
  }

  method Check(ledger: seq<Leg>, rows: seq<WalletRow>) returns (report: Report)
    ensures report.checked == |rows| && report.discrepancies == Drifted(rows, LedgerBalances(ledger))
    ensures report.Ok() <==> forall i | 0 <= i < |rows| :: rows[i].row.balance == Net(ledger, rows[i].id)
  {
    var balances := LedgerBalances(ledger);
    var discrepancies := [];
    for i := 0 to |rows|
      invariant discrepancies == Drifted(rows[..i], balances)
    {
      assert rows[..i + 1][..i] == rows[..i];
      var sum := if rows[i].id in balances then balances[rows[i].id] else 0;
      if rows[i].row.balance != sum {
        discrepancies := discrepancies + [Discrepancy(rows[i].id, rows[i].row.balance, sum)];
      }
    }
    assert rows[..|rows|] == rows;
    report := Report(|rows|, discrepancies);
    EmptyExactly(rows, ledger);
  }

  lemma ReportedComesFromRow(rows: seq<WalletRow>, ledger: seq<Leg>, d: Discrepancy)
    requires d in Drifted(rows, LedgerBalances(ledger))
    ensures exists i :: 0 <= i < |rows| && rows[i].id == d.wallet
  {
    ReportsDriftedRows(rows, ledger, d);
  }

  predicate OncePerWallet(ds: seq<Discrepancy>) {
    forall a, b | 0 <= a < b < |ds| :: ds[a].wallet != ds[b].wallet
  }

  lemma OnceMore(ds: seq<Discrepancy>, more: seq<Discrepancy>)
    requires OncePerWallet(ds) && |more| <= 1
    requires forall d, e | d in ds && e in more :: d.wallet != e.wallet
    ensures OncePerWallet(ds + more)
  {
  }

  lemma {:induction false} ReportsOnce(rows: seq<WalletRow>, ledger: seq<Leg>)
    requires forall i, j | 0 <= i < j < |rows| :: rows[i].id != rows[j].id
    ensures OncePerWallet(Drifted(rows, LedgerBalances(ledger)))
  {
    if rows != [] {
      var n := |rows| - 1;
      var ds := Drifted(rows[..n], LedgerBalances(ledger));
      ReportsOnce(rows[..n], ledger);
      forall d | d in ds ensures d.wallet != rows[n].id {
        ReportedComesFromRow(rows[..n], ledger, d);
      }
      OnceMore(ds, DriftOf(rows[n], LedgerBalances(ledger)));
    }
  }

  /** On any tables, sound or corrupted: each drifted wallet is reported, once, with the right figures, and no other. */
  lemma ReportIsExact(db: Db, rows: seq<WalletRow>)
    requires Selects(rows, db.wallets)
    ensures var ds := Drifted(rows, LedgerBalances(db.ledger));
      && OncePerWallet(ds)
      && (forall d | d in ds :: d.wallet in db.wallets && d.cached == db.wallets[d.wallet].balance
                                && d.ledger == Net(db.ledger, d.wallet) && d.Diff() != 0)
      && (forall w | w in db.wallets && db.wallets[w].balance != Net(db.ledger, w) ::
            Discrepancy(w, db.wallets[w].balance, Net(db.ledger, w)) in ds)
  {
    var ds := Drifted(rows, LedgerBalances(db.ledger));
    ReportsOnce(rows, db.ledger);
    forall d: Discrepancy ensures d in ds <==>
      exists i :: 0 <= i < |rows| && rows[i].row.balance != Net(db.ledger, rows[i].id)
        && d == Discrepancy(rows[i].id, rows[i].row.balance, Net(db.ledger, rows[i].id)) {
      ReportsDriftedRows(rows, db.ledger, d);
    }
    forall w | w in db.wallets && db.wallets[w].balance != Net(db.ledger, w)
      ensures Discrepancy(w, db.wallets[w].balance, Net(db.ledger, w)) in ds
    {
      assert WalletRow(w, db.wallets[w]) in rows;
      var i :| 0 <= i < |rows| && rows[i] == WalletRow(w, db.wallets[w]);
      assert rows[i].row.balance != Net(db.ledger, rows[i].id);
    }
  }

  /** The report of a job that reads the sums of an earlier ledger and the rows of a later, sound state: a wallet
      is reported with a difference if and only if the legs added in between have that net effect on it. */
  lemma LaterRowsExplained(ledger: seq<Leg>, later: Db, rows: seq<WalletRow>, w: WalletId, diff: int)
    requires BookInv(later) && ledger <= later.ledger && Selects(rows, later.wallets)
    ensures var ds := Drifted(rows, LedgerBalances(ledger));
      (exists d :: d in ds && d.wallet == w && d.Diff() == diff) <==>
      w in later.wallets && diff == Net(later.ledger[|ledger|..], w) && diff != 0
  {
    var gap := later.ledger[|ledger|..];
    assert later.ledger == ledger + gap;
    NetConcat(ledger, gap, w);
    if w in later.wallets {
      var row := later.wallets[w];
      var expected := Discrepancy(w, row.balance, Net(ledger, w));
      assert row.balance == Net(later.ledger, w);
      ReportsDriftedRows(rows, ledger, expected);
      assert WalletRow(w, row) in rows;
    }
    var ds := Drifted(rows, LedgerBalances(ledger));
    forall d | d in ds && d.wallet == w
      ensures w in later.wallets && d == Discrepancy(w, later.wallets[w].balance, Net(ledger, w))
    {
      ReportsDriftedRows(rows, ledger, d);
    }
    if w in later.wallets && Net(gap, w) != 0 {
      var i :| 0 <= i < |rows| && rows[i] == WalletRow(w, later.wallets[w]);
      assert rows[i].row.balance != Net(ledger, rows[i].id);
    }
  }

  /** When operations commit between the two reads, the report shows precisely the wallets on which those
      operations had a net effect, and each difference is that net effect; with none in between it is clean. */
  lemma GapExplainsReport(db: Db, between: seq<Op>, rows: seq<WalletRow>, w: WalletId, diff: int)
    requires BookInv(db)
    requires Selects(rows, Run(db, between).wallets)
    ensures db.ledger <= Run(db, between).ledger
    ensures var ds := Drifted(rows, LedgerBalances(db.ledger));
      var later := Run(db, between).ledger;
      (exists d :: d in ds && d.wallet == w && d.Diff() == diff) <==>
      w in Run(db, between).wallets && diff == Net(later[|db.ledger|..], w) && diff != 0
  {
    RunKeepsBooks(db, between);
    RunExtends(db, between);
    LaterRowsExplained(db.ledger, Run(db, between), rows, w, diff);
  }

  /** The same for a job that runs beside the service: the sums are read in one state of an interleaved run, the
      rows in a later one, whatever is in flight at either moment. */
  lemma InterleavedGapExplainsReport(before: seq<Action>, s: Sys, acts: seq<Action>, t: Sys,
                                     rows: seq<WalletRow>, w: WalletId, diff: int)
    requires Reaches(INIT, before, s) && Reaches(s, acts, t) && Selects(rows, t.db.wallets)
    ensures s.db.ledger <= t.db.ledger
    ensures var ds := Drifted(rows, LedgerBalances(s.db.ledger));
      (exists d :: d in ds && d.wallet == w && d.Diff() == diff) <==>
      w in t.db.wallets && diff == Net(t.db.ledger[|s.db.ledger|..], w) && diff != 0
  {
    InitSound();
    ReachableSound(INIT, before, s);
    ReachableSound(s, acts, t);
    LedgerOnlyGrows(s, acts, t);
    LaterRowsExplained(s.db.ledger, t.db, rows, w, diff);
  }

  /** On any tables: the report is ok if and only if every wallet's balance is the signed sum of its legs. */
  lemma OkExactly(db: Db, rows: seq<WalletRow>)
    requires Selects(rows, db.wallets)
    ensures Report(|rows|, Drifted(rows, LedgerBalances(db.ledger))).Ok()
      <==> forall w | w in db.wallets :: db.wallets[w].balance == Net(db.ledger, w)
  {
    EmptyExactly(rows, db.ledger);
    forall w | w in db.wallets
      ensures exists i :: 0 <= i < |rows| && rows[i] == WalletRow(w, db.wallets[w])
    {
      assert WalletRow(w, db.wallets[w]) in rows;
    }
  }

  lemma LaterOkExactly(ledger: seq<Leg>, later: Db, rows: seq<WalletRow>)
    requires BookInv(later) && ledger <= later.ledger && Selects(rows, later.wallets)
    ensures Report(|rows|, Drifted(rows, LedgerBalances(ledger))).Ok()
      <==> forall w | w in later.wallets :: Net(later.ledger[|ledger|..], w) == 0
  {
    var gap := later.ledger[|ledger|..];
    assert later.ledger == ledger + gap;
    EmptyExactly(rows, ledger);
    forall w | w in later.wallets
      ensures later.wallets[w].balance == Net(ledger, w) + Net(gap, w)
    {
      NetConcat(ledger, gap, w);
    }
    forall w | w in later.wallets
      ensures exists i :: 0 <= i < |rows| && rows[i] == WalletRow(w, later.wallets[w])
    {
      assert WalletRow(w, later.wallets[w]) in rows;
    }
  }

  /** Beside the service: the report is ok if and only if no wallet had a net effect between the two reads. */
  lemma InterleavedOkExactly(before: seq<Action>, s: Sys, acts: seq<Action>, t: Sys, rows: seq<WalletRow>)
    requires Reaches(INIT, before, s) && Reaches(s, acts, t) && Selects(rows, t.db.wallets)
    ensures s.db.ledger <= t.db.ledger
    ensures Report(|rows|, Drifted(rows, LedgerBalances(s.db.ledger))).Ok()
      <==> forall w | w in t.db.wallets :: Net(t.db.ledger[|s.db.ledger|..], w) == 0
  {
    InitSound();
    ReachableSound(INIT, before, s);
    ReachableSound(s, acts, t);
    LedgerOnlyGrows(s, acts, t);
    LaterOkExactly(s.db.ledger, t.db, rows);
  }

  /** A snapshot of sound books never alarms. */
  lemma CleanOnSoundBooks(db: Db, rows: seq<WalletRow>)
    requires BookInv(db) && Selects(rows, db.wallets)
    ensures Report(|rows|, Drifted(rows, LedgerBalances(db.ledger))).Ok()
  {
    var ds := Drifted(rows, LedgerBalances(db.ledger));
    if ds != [] {
      ReportsDriftedRows(rows, db.ledger, ds[0]);
      assert false;
    }
  }
}
