/** Wallet creations beside each other and beside transfers: what a check made too early costs. */
module Creation {
  import opened Rows
  import opened Operations
  import opened Interleaving
  import opened Progress
  import opened SoloRuns

  /** The maker keeps its owner and currency, and an answer once given. */
  predicate Continues(a: Maker, b: Maker) {
    b.owner == a.owner && b.currency == a.currency && (a.answer.Some? ==> b.answer == a.answer)
  }

  lemma {:induction false} MakersStay(s: Sys, acts: seq<Action>, t: Sys, m: nat)
    requires Reaches(s, acts, t) && m < |s.makers|
    ensures m < |t.makers| && Continues(s.makers[m], t.makers[m])
    decreases |acts|
  {
    if acts != [] {
      FirstStep(s, acts, t);
      assert m < |Do(s, acts[0]).makers| && Continues(s.makers[m], Do(s, acts[0]).makers[m]);
      MakersStay(Do(s, acts[0]), acts[1..], t, m);
    }
  }

  /** A creation that gets to its insert had found no wallet when it checked; the flush then rejects it if and
      only if the owner got a wallet in the currency in between, and otherwise it creates the wallet. */
  lemma CreationRaceExactly(s: Sys, owner: UserId, currency: string, acts: seq<Action>, t: Sys, id: WalletId)
    requires Reaches(Do(s, CheckNew(owner, currency)), acts, t)
    requires Enabled(t, InsertNew(|s.makers|, id))
    ensures !HasWallet(s.db.wallets, owner, Upper(currency))
    ensures var answer := Do(t, InsertNew(|s.makers|, id)).makers[|s.makers|].answer;
      if HasWallet(t.db.wallets, owner, Upper(currency)) then answer == Some(Failed(FlushRejected))
      else answer == Some(Created(Wallet(owner, Upper(currency), 0)))
  {
    MakersStay(Do(s, CheckNew(owner, currency)), acts, t, |s.makers|);
  }

  /** From every state in which the owner has no such wallet, two creations can both pass their check; the second
      insert is then rejected, and its error is not WalletAlreadyExists. */
  lemma SecondCreationIsRejected(s: Sys, owner: UserId, currency: string, id: WalletId, other: WalletId)
    returns (acts: seq<Action>, end: Sys)
    requires !HasWallet(s.db.wallets, owner, Upper(currency))
    requires id !in s.db.wallets && other !in s.db.wallets && id != other
    ensures var m := |s.makers|;
      Reaches(s, acts, end) && |end.makers| == m + 2
      && end.makers[m].answer == Some(Created(Wallet(owner, Upper(currency), 0)))
      && end.makers[m + 1].answer == Some(Failed(FlushRejected))
      && id in end.db.wallets && other !in end.db.wallets
  {
    var m := |s.makers|;
    var one := Do(s, CheckNew(owner, currency));
    var two := Do(one, CheckNew(owner, currency));
    var three := Do(two, InsertNew(m, id));
    assert id in three.db.wallets && HasWallet(three.db.wallets, owner, Upper(currency));
    end := Do(three, InsertNew(m + 1, other));
    PrependStep(three, InsertNew(m + 1, other), [], end);
    acts := [InsertNew(m + 1, other)] + [];
    PrependStep(two, InsertNew(m, id), acts, end);
    acts := [InsertNew(m, id)] + acts;
    PrependStep(one, CheckNew(owner, currency), acts, end);
    acts := [CheckNew(owner, currency)] + acts;
    PrependStep(s, CheckNew(owner, currency), acts, end);
    acts := [CheckNew(owner, currency)] + acts;
  }

  // ----- a recipient created after it was looked for -----

  /** A transfer by the sender's owner to a wallet that does not exist. */
  predicate LacksRecipient(db: Db, x: Request) {
    && x.Transfer? && x.wallet in db.wallets && db.wallets[x.wallet].user == x.requester
    && x.recipient !in db.wallets && !(x.key.Some? && x.key.value != "" && x.key.value in db.keys)
  }

  lemma EitherOrder(x: Request)
    requires x.Transfer? && x.wallet != x.recipient
    ensures LockPlan(x) == [x.wallet, x.recipient] || LockPlan(x) == [x.recipient, x.wallet]
  {
    TwoRowPlan(x);
  }

  /** The transfer with its first k rows looked up. */
  function LookedUp(s: Sys, x: Request, id: TxnId, now: int, k: nat): Sys
    requires k <= |LockPlan(x)| && x.wallet in s.db.wallets
  {
    var local := if x.wallet in LockPlan(x)[..k] then map[x.wallet := s.db.wallets[x.wallet]] else map[];
    s.(procs := s.procs + [Proc(x, id, now, Locking, k, local, 0, 0)])
  }

  lemma LooksUp(s: Sys, x: Request, id: TxnId, now: int, k: nat, rest: seq<Action>, end: Sys) returns (acts: seq<Action>)
    requires LacksRecipient(s.db, x) && k < |LockPlan(x)| && forall j | 0 <= j < |s.procs| :: Idle(s.procs[j])
    requires Reaches(LookedUp(s, x, id, now, k + 1), rest, end)
    ensures Reaches(LookedUp(s, x, id, now, k), acts, end)
  {
    var t, i := LookedUp(s, x, id, now, k), |s.procs|;
    EitherOrder(x);
    AloneCanStep(t, i);
    assert LockPlan(x)[..k + 1] == LockPlan(x)[..k] + [LockPlan(x)[k]];
    assert Do(t, Advance(i)).procs == LookedUp(s, x, id, now, k + 1).procs;
    PrependStep(t, Advance(i), rest, end);
    acts := [Advance(i)] + rest;
  }

  lemma ComesIn(s: Sys, x: Request, id: TxnId, now: int, rest: seq<Action>, end: Sys) returns (acts: seq<Action>)
    requires LacksRecipient(s.db, x) && forall j | 0 <= j < |s.procs| :: Idle(s.procs[j])
    requires Enabled(s, Start(x, id, now)) && Reaches(LookedUp(s, x, id, now, 0), rest, end)
    ensures Reaches(s, acts, end)
  {
    var t, i := Do(s, Start(x, id, now)), |s.procs|;
    AloneCanStep(t, i);
    assert Do(t, Advance(i)).procs == LookedUp(s, x, id, now, 0).procs;
    PrependStep(t, Advance(i), rest, end);
    PrependStep(s, Start(x, id, now), [Advance(i)] + rest, end);
    acts := [Start(x, id, now)] + ([Advance(i)] + rest);
  }

  lemma CreatedTooLate(s: Sys, x: Request, id: TxnId, now: int, owner: UserId, currency: string)
    returns (acts: seq<Action>, end: Sys)
    requires LacksRecipient(s.db, x) && forall j | 0 <= j < |s.procs| :: Idle(s.procs[j])
    requires !HasWallet(s.db.wallets, owner, Upper(currency))
    ensures Reaches(LookedUp(s, x, id, now, |LockPlan(x)|), acts, end) && |end.procs| == |s.procs| + 1
    ensures end.procs[|s.procs|].req == x && end.procs[|s.procs|].phase == Finished(Failed(RecipientNotFound))
    ensures x.recipient in end.db.wallets
  {
    var t, i := LookedUp(s, x, id, now, |LockPlan(x)|), |s.procs|;
    EitherOrder(x);
    assert LockPlan(x)[..|LockPlan(x)|] == LockPlan(x);
    var checked := Do(t, CheckNew(owner, currency));
    var made := Do(checked, InsertNew(|s.makers|, x.recipient));
    AloneCanStep(made, i);
    end := Do(made, Advance(i));
    PrependStep(made, Advance(i), [], end);
    acts := [Advance(i)] + [];
    PrependStep(checked, InsertNew(|s.makers|, x.recipient), acts, end);
    acts := [InsertNew(|s.makers|, x.recipient)] + acts;
    PrependStep(t, CheckNew(owner, currency), acts, end);
    acts := [CheckNew(owner, currency)] + acts;
  }

  /** A transfer can look for its recipient in vain, and answer so after the recipient was created: the answer
      is then not the one of the current tables. */
  lemma RecipientMissed(s: Sys, x: Request, id: TxnId, now: int, owner: UserId, currency: string)
    returns (acts: seq<Action>, end: Sys)
    requires LacksRecipient(s.db, x) && forall j | 0 <= j < |s.procs| :: Idle(s.procs[j])
    requires !HasWallet(s.db.wallets, owner, Upper(currency)) && Enabled(s, Start(x, id, now))
    ensures Reaches(s, acts, end) && |end.procs| == |s.procs| + 1
    ensures end.procs[|s.procs|].req == x && end.procs[|s.procs|].phase == Finished(Failed(RecipientNotFound))
    ensures Apply(end.db, Money(x, Draws(id, now, 0, 0))).outcome != Failed(RecipientNotFound)
  {
    EitherOrder(x);
    acts, end := CreatedTooLate(s, x, id, now, owner, currency);
    acts := LooksUp(s, x, id, now, 1, acts, end);
    acts := LooksUp(s, x, id, now, 0, acts, end);
    acts := ComesIn(s, x, id, now, acts, end);
  }

  /** Such a run from the empty system. */
  lemma RecipientMissedFromStart() returns (acts: seq<Action>, end: Sys)
    ensures Reaches(INIT, acts, end) && |end.procs| == 1
    ensures end.procs[0].phase == Finished(Failed(RecipientNotFound))
    ensures Apply(end.db, Money(end.procs[0].req, Draws(9, 0, 0, 0))).outcome != Failed(RecipientNotFound)
  {
    assert Upper("INR") == "INR";
    var checked := Do(INIT, CheckNew(7, "INR"));
    var one := Do(checked, InsertNew(0, 1));
    assert one.db == EMPTY_DB.(wallets := map[1 := Wallet(7, "INR", 0)]);
    acts, end := RecipientMissed(one, Transfer(1, 7, 2, 500, "INR", None), 9, 0, 8, "INR");
    PrependStep(checked, InsertNew(0, 1), acts, end);
    acts := [InsertNew(0, 1)] + acts;
    PrependStep(INIT, CheckNew(7, "INR"), acts, end);
    acts := [CheckNew(7, "INR")] + acts;
  }
}
