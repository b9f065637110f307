/** The paged statement of a wallet: newest first by the identity column, by limit and offset. */
module History {
  import opened Rows
  import opened Interleaving
  import opened Serializability
  import opened Batching

  function OnWallet(ledger: seq<Leg>, w: WalletId): seq<Leg> {
    if ledger == [] then []
    else OnWallet(ledger[..|ledger| - 1], w)
         + if ledger[|ledger| - 1].wallet == Some(w) then [ledger[|ledger| - 1]] else []
  }

  /** ORDER BY seq DESC. */
  function InsertDesc(l: Leg, legs: seq<Leg>): seq<Leg> {
    if legs == [] || legs[0].seqNo <= l.seqNo then [l] + legs else [legs[0]] + InsertDesc(l, legs[1..])
  }

  function NewestFirst(legs: seq<Leg>): seq<Leg> {
    if legs == [] then [] else InsertDesc(legs[|legs| - 1], NewestFirst(legs[..|legs| - 1]))
  }

  /** LIMIT limit OFFSET offset. */
  function Window(all: seq<Leg>, limit: nat, offset: nat): seq<Leg> {
    all[Min(offset, |all|)..Min(offset + limit, |all|)]
  }

  function Page(ledger: seq<Leg>, w: WalletId, limit: nat, offset: nat): seq<Leg> {
    Window(NewestFirst(OnWallet(ledger, w)), limit, offset)
  }

  function Reverse(legs: seq<Leg>): (r: seq<Leg>)
    ensures |r| == |legs| && forall i | 0 <= i < |r| :: r[i] == legs[|legs| - 1 - i]
  {
    if legs == [] then [] else [legs[|legs| - 1]] + Reverse(legs[..|legs| - 1])
  }

  predicate Rising(legs: seq<Leg>) {
    forall i, j | 0 <= i < j < |legs| :: legs[i].seqNo < legs[j].seqNo
  }

  lemma {:induction false} SortingRisingReverses(legs: seq<Leg>)
    requires Rising(legs)
    ensures NewestFirst(legs) == Reverse(legs)
  {
    if legs != [] {
      SortingRisingReverses(legs[..|legs| - 1]);
    }
  }

  lemma {:induction false} OnWalletMembers(ledger: seq<Leg>, w: WalletId, l: Leg)
    ensures l in OnWallet(ledger, w) <==> l in ledger && l.wallet == Some(w)
  {
    if ledger != [] {
      var n := |ledger| - 1;
      OnWalletMembers(ledger[..n], w, l);
      assert ledger == ledger[..n] + [ledger[n]];
    }
  }

  lemma {:induction false} OnWalletRises(ledger: seq<Leg>, w: WalletId)
    requires WalletOrdered(ledger)
    ensures Rising(OnWallet(ledger, w))
  {
    if ledger != [] {
      var n := |ledger| - 1;
      var rest := OnWallet(ledger[..n], w);
      OnWalletRises(ledger[..n], w);
      forall i | 0 <= i < |rest| && ledger[n].wallet == Some(w) ensures rest[i].seqNo < ledger[n].seqNo {
        OnWalletMembers(ledger[..n], w, rest[i]);
        assert rest[i] in rest;
        var k :| 0 <= k < n && ledger[k] == rest[i];
      }
    }
  }

  lemma {:induction false} OnWalletPrefix(a: seq<Leg>, b: seq<Leg>, w: WalletId)
    requires a <= b
    ensures OnWallet(a, w) <= OnWallet(b, w)
    decreases |b|
  {
    if |a| < |b| {
      OnWalletPrefix(a, b[..|b| - 1], w);
    } else {
      assert a == b;
    }
  }

  /** The statement lists commits backwards: identity order is commit order on one wallet. */
  lemma StatementIsCommitOrderReversed(ledger: seq<Leg>, w: WalletId)
    requires WalletOrdered(ledger)
    ensures NewestFirst(OnWallet(ledger, w)) == Reverse(OnWallet(ledger, w))
  {
    OnWalletRises(ledger, w);
    SortingRisingReverses(OnWallet(ledger, w));
  }

  ghost predicate Later(s: Sys, t: Sys) {
    exists acts :: Reaches(s, acts, t)
  }

  /** The states in which the pages of one walk were read, one after the other. */
  ghost predicate Walk(states: seq<Sys>) {
    |states| > 0 && SysInv(states[0]) && forall k | 0 <= k < |states| - 1 :: Later(states[k], states[k + 1])
  }

  lemma {:induction false} WalkSound(states: seq<Sys>, k: nat)
    requires Walk(states) && k < |states|
    ensures SysInv(states[k])
  {
    if k > 0 {
      WalkSound(states, k - 1);
      assert Later(states[k - 1], states[k - 1 + 1]);
      var acts :| Reaches(states[k - 1], acts, states[k]);
      ReachableSound(states[k - 1], acts, states[k]);
    }
  }

  /** Ledgers that only grow, each in commit order on every wallet. */
  ghost predicate Growing(ledgers: seq<seq<Leg>>) {
    && (forall k | 0 <= k < |ledgers| :: WalletOrdered(ledgers[k]))
    && (forall k: nat | k + 1 < |ledgers| :: Grows(ledgers, k))
  }

  predicate Grows(ledgers: seq<seq<Leg>>, k: nat)
    requires k + 1 < |ledgers|
  {
    ledgers[k] <= ledgers[k + 1]
  }

  function PageAt(ledgers: seq<seq<Leg>>, w: WalletId, limit: nat, k: nat): seq<Leg>
    requires k < |ledgers|
  {
    Page(ledgers[k], w, limit, Offset(limit, k))
  }

  predicate Reversed(all: seq<Leg>, legs: seq<Leg>) {
    |all| == |legs| && forall i | 0 <= i < |all| :: all[i] == legs[|legs| - 1 - i]
  }

  lemma StatementIsReversed(ledger: seq<Leg>, w: WalletId)
    requires WalletOrdered(ledger)
    ensures Reversed(NewestFirst(OnWallet(ledger, w)), OnWallet(ledger, w))
  {
    StatementIsCommitOrderReversed(ledger, w);
  }

  lemma WindowShows(all: seq<Leg>, legs: seq<Leg>, limit: nat, offset: nat, m: nat)
    requires Reversed(all, legs) && m < |legs| && offset <= |legs| - 1 - m < offset + limit
    ensures legs[m] in Window(all, limit, offset)
  {
    assert Window(all, limit, offset)[|legs| - 1 - m - offset] == legs[m];
  }

  lemma PageShows(ledger: seq<Leg>, w: WalletId, limit: nat, offset: nat, m: nat)
    requires WalletOrdered(ledger) && m < |OnWallet(ledger, w)|
    requires offset <= |OnWallet(ledger, w)| - 1 - m < offset + limit
    ensures OnWallet(ledger, w)[m] in Page(ledger, w, limit, offset)
  {
    StatementIsReversed(ledger, w);
    WindowShows(NewestFirst(OnWallet(ledger, w)), OnWallet(ledger, w), limit, offset, m);
  }

  lemma ShortPageIsLast(ledger: seq<Leg>, w: WalletId, limit: nat, offset: nat)
    requires WalletOrdered(ledger) && |Page(ledger, w, limit, offset)| < limit
    ensures |OnWallet(ledger, w)| < offset + limit
  {
    StatementIsCommitOrderReversed(ledger, w);
  }

  predicate Shown(ledgers: seq<seq<Leg>>, w: WalletId, limit: nat, l: Leg, k: nat)
    requires k <= |ledgers|
  {
    exists j: nat | j < k :: l in PageAt(ledgers, w, limit, j)
  }

  /** As long as a leg has not been shown, it lies beyond the offset the walk has reached. */
  lemma {:induction false} ShownOrAhead(ledgers: seq<seq<Leg>>, w: WalletId, limit: nat, m: nat, k: nat)
    requires Growing(ledgers) && k < |ledgers| && m < |OnWallet(ledgers[0], w)|
    ensures OnWallet(ledgers[0], w) <= OnWallet(ledgers[k], w)
    ensures Shown(ledgers, w, limit, OnWallet(ledgers[0], w)[m], k + 1)
      || |OnWallet(ledgers[k], w)| - 1 - m >= Offset(limit, k) + limit
  {
    var all := OnWallet(ledgers[k], w);
    if k > 0 {
      ShownOrAhead(ledgers, w, limit, m, k - 1);
      assert Grows(ledgers, k - 1);
      OnWalletPrefix(ledgers[k - 1], ledgers[k], w);
    }
    assert all[m] == OnWallet(ledgers[0], w)[m];
    if !Shown(ledgers, w, limit, all[m], k) && |all| - 1 - m < Offset(limit, k) + limit {
      PageShows(ledgers[k], w, limit, Offset(limit, k), m);
      assert all[m] in PageAt(ledgers, w, limit, k);
    }
  }

  lemma GrowingWalkNeverSkips(ledgers: seq<seq<Leg>>, w: WalletId, limit: nat, l: Leg)
    requires Growing(ledgers) && |ledgers| > 0
    requires |PageAt(ledgers, w, limit, |ledgers| - 1)| < limit
    requires l in ledgers[0] && l.wallet == Some(w)
    ensures Shown(ledgers, w, limit, l, |ledgers|)
  {
    var n := |ledgers| - 1;
    OnWalletMembers(ledgers[0], w, l);
    var m: nat :| m < |OnWallet(ledgers[0], w)| && OnWallet(ledgers[0], w)[m] == l;
    ShownOrAhead(ledgers, w, limit, m, n);
    ShortPageIsLast(ledgers[n], w, limit, Offset(limit, n));
  }

  /** Any page, at any offset: the wallet's legs from the newest on, those at positions offset to offset + limit
      as far as there are any. */
  lemma PageMeans(ledger: seq<Leg>, w: WalletId, limit: nat, offset: nat)
    requires WalletOrdered(ledger)
    ensures var legs := OnWallet(ledger, w);
      var a := if offset <= |legs| then offset else |legs|;
      var b := if offset + limit <= |legs| then offset + limit else |legs|;
      Page(ledger, w, limit, offset) == Reverse(legs)[a..b]
  {
    StatementIsCommitOrderReversed(ledger, w);
  }

  function LedgersOf(states: seq<Sys>): seq<seq<Leg>> {
    seq(|states|, k requires 0 <= k < |states| => states[k].db.ledger)
  }

  lemma WalkGrows(states: seq<Sys>)
    requires Walk(states)
    ensures Growing(LedgersOf(states))
  {
    var ledgers := LedgersOf(states);
    forall k | 0 <= k < |ledgers| ensures WalletOrdered(ledgers[k]) {
      WalkSound(states, k);
    }
    forall k: nat | k + 1 < |ledgers| ensures Grows(ledgers, k) {
      assert Later(states[k], states[k + 1]);
      var acts :| Reaches(states[k], acts, states[k + 1]);
      LedgerOnlyGrows(states[k], acts, states[k + 1]);
    }
  }

  /** Walking with offset += limit until a short page shows every leg that was there when the walk began,
      even when requests commit new legs between the pages. */
  lemma PagingNeverSkips(states: seq<Sys>, w: WalletId, limit: nat, l: Leg)
    requires Walk(states)
    requires |Page(states[|states| - 1].db.ledger, w, limit, Offset(limit, |states| - 1))| < limit
    requires l in states[0].db.ledger && l.wallet == Some(w)
    ensures exists k: nat | k < |states| :: l in Page(states[k].db.ledger, w, limit, Offset(limit, k))
  {
    var ledgers := LedgersOf(states);
    WalkGrows(states);
    GrowingWalkNeverSkips(ledgers, w, limit, l);
    var k: nat :| k < |ledgers| && l in PageAt(ledgers, w, limit, k);
  }

  function Windows(all: seq<Leg>, limit: nat, n: nat): seq<Leg> {
    if n == 0 then [] else Windows(all, limit, n - 1) + Window(all, limit, Offset(limit, n - 1))
  }

  /** The first n pages put together. */
  function Pages(ledger: seq<Leg>, w: WalletId, limit: nat, n: nat): seq<Leg> {
    Windows(NewestFirst(OnWallet(ledger, w)), limit, n)
  }

  lemma {:induction false} WindowsConcatenate(all: seq<Leg>, limit: nat, n: nat)
    ensures Windows(all, limit, n) == all[..Min(Offset(limit, n), |all|)]
  {
    if n > 0 {
      WindowsConcatenate(all, limit, n - 1);
      var a, b := Min(Offset(limit, n - 1), |all|), Min(Offset(limit, n), |all|);
      assert all[..a] + all[a..b] == all[..b];
    }
  }

  lemma ShortWindowIsLast(all: seq<Leg>, limit: nat, n: nat)
    requires |Window(all, limit, Offset(limit, n))| < limit
    ensures Windows(all, limit, n + 1) == all
  {
    WindowsConcatenate(all, limit, n + 1);
    assert all[..|all|] == all;
  }

  /** A walk that met a short page on an unchanging ledger has the whole statement, newest first: no gap, no
      repetition. */
  lemma WholeStatement(ledger: seq<Leg>, w: WalletId, limit: nat, n: nat)
    requires WalletOrdered(ledger) && |Page(ledger, w, limit, Offset(limit, n))| < limit
    ensures Pages(ledger, w, limit, n + 1) == Reverse(OnWallet(ledger, w))
  {
    ShortWindowIsLast(NewestFirst(OnWallet(ledger, w)), limit, n);
    StatementIsCommitOrderReversed(ledger, w);
  }
}
