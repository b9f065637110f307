/** Two requests with one idempotency key in flight together: what the later one is answered. */
module Races {
  import opened Rows
  import opened Operations
  import opened Interleaving
  import opened Progress
  import opened SoloRuns

  /** The request's key is bound, to transaction w. */
  predicate BoundTo(db: Db, req: Request, w: TxnId) {
    && !req.Deposit? && req.key.Some? && req.key.value != ""
    && req.key.value in db.keys && db.keys[req.key.value] == w
  }

  /** Its replay check found nothing: it can end in an error only. */
  predicate TooLate(p: Proc) {
    p.phase.Locking? || p.phase.Opening? || (p.phase.Finished? && p.phase.outcome.Failed?)
  }

  /** Its replay check is still to come, or has found w. */
  predicate InTime(p: Proc, w: TxnId) {
    !SelfTransfer(p.req)
    && match p.phase
       case Arrived => true
       case Finished(Replayed(t, _)) => t == w
       case Finished(Failed(e)) => e == Crashed
       case _ => false
  }

  lemma BindingStays(s: Sys, a: Action, req: Request, w: TxnId)
    requires SysInv(s) && Enabled(s, a) && BoundTo(s.db, req, w)
    ensures BoundTo(Do(s, a).db, req, w)
  {
    if a.Advance? {
      assert ProcSound(s.db, s.nextSeq, s.procs[a.p]);
    }
  }

  lemma StepStaysTooLate(db: Db, n: int, p: Proc, w: TxnId)
    requires BoundTo(db, p.req, w) && TooLate(p)
    ensures TooLate(Stepped(db, n, p)) && Stepped(db, n, p).req == p.req
  {
  }

  lemma StepStaysInTime(db: Db, n: int, p: Proc, w: TxnId)
    requires BoundTo(db, p.req, w) && InTime(p, w)
    ensures InTime(Stepped(db, n, p), w) && Stepped(db, n, p).req == p.req
  {
  }

  /** Once the key is bound, a request is too late for good or in time for good. */
  lemma FateStays(s: Sys, a: Action, j: nat, w: TxnId)
    requires Enabled(s, a) && j < |s.procs| && BoundTo(s.db, s.procs[j].req, w)
    ensures var t := Do(s, a);
      && j < |t.procs| && t.procs[j].req == s.procs[j].req
      && (TooLate(s.procs[j]) ==> TooLate(t.procs[j]))
      && (InTime(s.procs[j], w) ==> InTime(t.procs[j], w))
  {
    if a == Advance(j) {
      if TooLate(s.procs[j]) { StepStaysTooLate(s.db, s.nextSeq, s.procs[j], w); }
      if InTime(s.procs[j], w) { StepStaysInTime(s.db, s.nextSeq, s.procs[j], w); }
    }
  }

  lemma {:induction false} FateLasts(s: Sys, acts: seq<Action>, t: Sys, j: nat, w: TxnId)
    requires SysInv(s) && Reaches(s, acts, t) && j < |s.procs| && BoundTo(s.db, s.procs[j].req, w)
    ensures j < |t.procs| && t.procs[j].req == s.procs[j].req
    ensures TooLate(s.procs[j]) ==> TooLate(t.procs[j])
    ensures InTime(s.procs[j], w) ==> InTime(t.procs[j], w)
    decreases |acts|
  {
    if acts != [] {
      FirstStep(s, acts, t);
      DoKeepsInv(s, acts[0]);
      BindingStays(s, acts[0], s.procs[j].req, w);
      FateStays(s, acts[0], j, w);
      FateLasts(Do(s, acts[0]), acts[1..], t, j, w);
    }
  }

  lemma UnfinishedFate(db: Db, n: int, p: Proc, w: TxnId)
    requires Live(p) && LiveSound(db, n, p) && BoundTo(db, p.req, w) && !SelfTransfer(p.req)
    ensures if p.phase.Arrived? then InTime(p, w) else TooLate(p)
  {
  }

  /** A request that was past its replay check when another one bound its key is never given that one's
      transaction and never commits: it stays in line for its rows, or fails. */
  lemma LoserIsNeverReplayed(before: seq<Action>, s: Sys, acts: seq<Action>, t: Sys, j: nat, w: TxnId)
    requires Reaches(INIT, before, s) && Reaches(s, acts, t) && j < |s.procs|
    requires Live(s.procs[j]) && !SelfTransfer(s.procs[j].req) && BoundTo(s.db, s.procs[j].req, w)
    requires !s.procs[j].phase.Arrived?
    ensures j < |t.procs| && t.procs[j].req == s.procs[j].req && TooLate(t.procs[j])
  {
    InitSound();
    ReachableSound(INIT, before, s);
    assert ProcSound(s.db, s.nextSeq, s.procs[j]);
    UnfinishedFate(s.db, s.nextSeq, s.procs[j], w);
    FateLasts(s, acts, t, j, w);
  }

  /** Of the requests unfinished when their key is bound, those that end without an abort are answered with the
      winner's transaction if and only if their replay check had not run by then; the others get an error. */
  lemma ReplayedExactlyIfInTime(before: seq<Action>, s: Sys, acts: seq<Action>, t: Sys, j: nat, w: TxnId)
    requires Reaches(INIT, before, s) && Reaches(s, acts, t) && j < |s.procs|
    requires Live(s.procs[j]) && !SelfTransfer(s.procs[j].req) && BoundTo(s.db, s.procs[j].req, w)
    requires j < |t.procs| && t.procs[j].phase.Finished? && t.procs[j].phase.outcome != Failed(Crashed)
    ensures var answer := t.procs[j].phase.outcome;
      && (answer.Replayed? && answer.original == w <==> s.procs[j].phase.Arrived?)
      && (answer.Failed? <==> !s.procs[j].phase.Arrived?)
  {
    InitSound();
    ReachableSound(INIT, before, s);
    assert ProcSound(s.db, s.nextSeq, s.procs[j]);
    UnfinishedFate(s.db, s.nextSeq, s.procs[j], w);
    FateLasts(s, acts, t, j, w);
  }

  // ----- the same withdrawal sent twice -----

  /** The balance covers the withdrawal once but not twice, and nothing else is wrong with it. */
  predicate CoversOnce(db: Db, x: Request) {
    && x.Withdraw? && x.key.Some? && 1 <= |x.key.value| <= KEY_WIDTH && x.key.value !in db.keys && AmountOk(x.amount)
    && x.wallet in db.wallets && db.wallets[x.wallet].balance < 2 * x.amount
    && Validate(x, Some(db.wallets[x.wallet]), None).None?
    && WalletRowOk(db.wallets[x.wallet])
  }

  /** The two requests have started, and the second has made its replay check. */
  function BothIn(s: Sys, x: Request, idX: TxnId, idY: TxnId, now: int): Sys {
    s.(procs := s.procs + [Proc(x, idX, now, Arrived, 0, map[], 0, 0), Proc(x, idY, now, Locking, 0, map[], 0, 0)])
  }

  lemma BothCome(s: Sys, x: Request, idX: TxnId, idY: TxnId, now: int, rest: seq<Action>, end: Sys)
    returns (acts: seq<Action>)
    requires Enabled(s, Start(x, idX, now)) && Enabled(s, Start(x, idY, now)) && idX != idY
    requires forall k | 0 <= k < |s.procs| :: Idle(s.procs[k])
    requires CoversOnce(s.db, x) && Reaches(BothIn(s, x, idX, idY, now), rest, end)
    ensures Reaches(s, acts, end)
  {
    var j := |s.procs| + 1;
    var one := Do(s, Start(x, idX, now));
    var two := Do(one, Start(x, idY, now));
    AloneCanStep(two, j);
    assert Do(two, Advance(j)).procs == BothIn(s, x, idX, idY, now).procs;
    PrependStep(two, Advance(j), rest, end);
    PrependStep(one, Start(x, idY, now), [Advance(j)] + rest, end);
    acts := [Start(x, idY, now)] + ([Advance(j)] + rest);
    PrependStep(s, Start(x, idX, now), acts, end);
    acts := [Start(x, idX, now)] + acts;
  }

  /** A withdrawal that starts to lock a row whose balance does not cover it. */
  lemma LockAndRefuse(s: Sys, j: nat) returns (acts: seq<Action>, end: Sys)
    requires Alone(s, j)
    requires var p := s.procs[j]; p.phase.Locking? && p.tried == 0 && p.local == map[] && p.req.Withdraw?
    requires Validate(s.procs[j].req, Find(s.db.wallets, s.procs[j].req.wallet), None) == Some(InsufficientFunds)
    ensures Reaches(s, acts, end) && OthersRest(s, end, j)
    ensures end.procs[j] == s.procs[j].(phase := Finished(Failed(InsufficientFunds)), tried := 1, local := end.procs[j].local)
  {
    OneRowPlan(s.procs[j].req);
    AloneCanStep(s, j);
    var held := Do(s, Advance(j));
    AloneCanStep(held, j);
    end := Do(held, Advance(j));
    PrependStep(held, Advance(j), [], end);
    PrependStep(s, Advance(j), [Advance(j)] + [], end);
    acts := [Advance(j)] + ([Advance(j)] + []);
  }

  lemma SecondIsRefused(db: Db, x: Request, d: Draws)
    requires CoversOnce(db, x) && d.id !in db.txns
    ensures var reply := ApplyMoney(db, x, d);
      reply.outcome.Done? && Validate(x, Find(reply.db.wallets, x.wallet), None) == Some(InsufficientFunds)
  {
  }

  lemma WinnerRuns(s: Sys, x: Request, idX: TxnId, idY: TxnId, now: int) returns (acts: seq<Action>, won: Sys)
    requires SysInv(BothIn(s, x, idX, idY, now)) && CoversOnce(s.db, x) && idX !in s.db.txns
    requires forall k | 0 <= k < |s.procs| :: Idle(s.procs[k])
    ensures var i, j := |s.procs|, |s.procs| + 1;
      && Reaches(BothIn(s, x, idX, idY, now), acts, won) && OthersRest(BothIn(s, x, idX, idY, now), won, i)
      && won.procs[i].phase.Finished? && won.procs[i].phase.outcome.Done?
      && Alone(won, j)
      && Validate(x, Find(won.db.wallets, x.wallet), None) == Some(InsufficientFunds)
  {
    var t, i := BothIn(s, x, idX, idY, now), |s.procs|;
    SecondIsRefused(s.db, x, Coming(s.nextSeq, t.procs[i]));
    acts, won := SoloFinishes(t, i);
  }

  lemma BothInSound(s: Sys, x: Request, idX: TxnId, idY: TxnId, now: int)
    requires SysInv(s) && Enabled(s, Start(x, idX, now)) && Enabled(s, Start(x, idY, now)) && idX != idY
    requires forall k | 0 <= k < |s.procs| :: Idle(s.procs[k])
    requires CoversOnce(s.db, x)
    ensures SysInv(BothIn(s, x, idX, idY, now))
  {
    var t := BothIn(s, x, idX, idY, now);
    var acts := BothCome(s, x, idX, idY, now, [], t);
    ReachableSound(s, acts, t);
  }

  /** The first request has paid, the second is told that the funds do not suffice. */
  predicate PaidAndRefused(end: Sys, i: nat, j: nat, x: Request) {
    && i < |end.procs| && j < |end.procs| && end.procs[i].req == end.procs[j].req == x
    && end.procs[i].phase.Finished? && end.procs[i].phase.outcome.Done?
    && end.procs[j].phase == Finished(Failed(InsufficientFunds))
  }

  lemma RaceRuns(s: Sys, x: Request, idX: TxnId, idY: TxnId, now: int) returns (acts: seq<Action>, end: Sys)
    requires SysInv(BothIn(s, x, idX, idY, now)) && CoversOnce(s.db, x) && idX !in s.db.txns
    requires forall k | 0 <= k < |s.procs| :: Idle(s.procs[k])
    ensures Reaches(BothIn(s, x, idX, idY, now), acts, end)
    ensures PaidAndRefused(end, |s.procs|, |s.procs| + 1, x)
  {
    var t, i, j := BothIn(s, x, idX, idY, now), |s.procs|, |s.procs| + 1;
    var first, won := WinnerRuns(s, x, idX, idY, now);
    assert won.procs[j] == t.procs[j];
    var second;
    second, end := LockAndRefuse(won, j);
    assert end.procs[i] == won.procs[i];
    RunThenRun(t, first, won, second, end);
    acts := first + second;
    RequestsStay(t, acts, end, i);
  }

  /** The same withdrawal sent twice: from every reachable state in which the balance covers it only once, both
      copies can pass their replay check; then one pays and the other is told that the funds do not suffice. */
  lemma RetryIsToldInsufficientFunds(before: seq<Action>, s: Sys, x: Request, idX: TxnId, idY: TxnId, now: int)
    returns (acts: seq<Action>, end: Sys)
    requires Reaches(INIT, before, s) && forall k | 0 <= k < |s.procs| :: Idle(s.procs[k])
    requires Enabled(s, Start(x, idX, now)) && Enabled(s, Start(x, idY, now)) && idX != idY
    requires CoversOnce(s.db, x)
    ensures Reaches(s, acts, end) && PaidAndRefused(end, |s.procs|, |s.procs| + 1, x)
  {
    InitSound();
    ReachableSound(INIT, before, s);
    BothInSound(s, x, idX, idY, now);
    acts, end := RaceRuns(s, x, idX, idY, now);
    acts := BothCome(s, x, idX, idY, now, acts, end);
  }

  /** One wallet with 500 on it, after a creation and a deposit. */
  lemma Funded() returns (acts: seq<Action>, s: Sys)
    ensures Reaches(INIT, acts, s) && |s.procs| == 1 && !Live(s.procs[0]) && s.procs[0].id == 9
    ensures s.db.wallets == map[1 := Wallet(7, "INR", 500)] && s.db.txns.Keys == {9} && s.db.keys == map[]
  {
    assert Upper("INR") == "INR";
    var deposit := Deposit(1, 7, 500, "INR");
    var one := Do(Do(INIT, CheckNew(7, "INR")), InsertNew(0, 1));
    assert one.db == EMPTY_DB.(wallets := map[1 := Wallet(7, "INR", 0)]);
    PrependStep(Do(INIT, CheckNew(7, "INR")), InsertNew(0, 1), [], one);
    PrependStep(INIT, CheckNew(7, "INR"), [InsertNew(0, 1)] + [], one);
    var created := [CheckNew(7, "INR")] + ([InsertNew(0, 1)] + []);
    var rest;
    rest, s := SoloRunIsApply(created, one, deposit, 9, 0);
    RunThenRun(INIT, created, one, rest, s);
    acts := created + rest;
    assert Apply(one.db, Money(deposit, Draws(9, 0, one.nextSeq, one.nextSeq + 1))).outcome.Done?;
  }

  /** A run from the empty system in which two copies of a withdrawal race and the loser, a retry of a request
      that committed, is answered with insufficient funds and not with the winner's transaction. */
  lemma LoserSeesSpentBalance() returns (acts: seq<Action>, end: Sys)
    ensures Reaches(INIT, acts, end) && PaidAndRefused(end, 1, 2, Withdraw(1, 7, 500, "INR", Some("k")))
  {
    assert Upper("INR") == "INR";
    var first, s := Funded();
    var rest;
    rest, end := RetryIsToldInsufficientFunds(first, s, Withdraw(1, 7, 500, "INR", Some("k")), 10, 11, 0);
    RunThenRun(INIT, first, s, rest, end);
    acts := first + rest;
  }
}
