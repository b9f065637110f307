/** The other half of the simulation: what a request does alone, the interleaved machine can do, step by step. */
module SoloRuns {
  import opened Rows
  import opened Operations
  import opened Interleaving
  import opened Progress

  /** A request that holds no row and no key. */
  predicate Idle(p: Proc) {
    Live(p) ==> p.local == map[] && Rank(p.phase) <= 1
  }

  /** Nothing stands in the way of request i. */
  predicate Alone(s: Sys, i: nat) {
    i < |s.procs| && forall j | 0 <= j < |s.procs| && j != i :: Idle(s.procs[j])
  }

  /** Apart from request i nothing in flight has changed. */
  predicate OthersRest(s: Sys, t: Sys, i: nat) {
    |t.procs| == |s.procs| && forall j | 0 <= j < |s.procs| && j != i :: t.procs[j] == s.procs[j]
  }

  /** The draws this request ends up with if nobody else draws meanwhile. */
  function Coming(n: int, p: Proc): Draws {
    if Rank(p.phase) <= 3 then Draws(p.id, p.now, n, n + 1)
    else if Rank(p.phase) == 4 then Draws(p.id, p.now, p.s1, n)
    else DrawsOf(p)
  }

  /** What it will have answered, and the tables it will leave. */
  function Expected(db: Db, n: int, p: Proc): Reply {
    ApplyMoney(db, p.req, Coming(n, p))
  }

  /** A solo request has missed no row and no key. */
  predicate Undisturbed(db: Db, p: Proc) {
    && p.tried <= |LockPlan(p.req)|
    && (forall i | 0 <= i < p.tried && LockPlan(p.req)[i] in db.wallets :: LockPlan(p.req)[i] in p.local)
    && (Rank(p.phase) >= 1 ==> !(Replayable(p.req) && KeyOf(p.req).value in db.keys))
  }

  lemma LocalIsComplete(db: Db, n: int, p: Proc)
    requires LiveSound(db, n, p) && Undisturbed(db, p) && p.tried == |LockPlan(p.req)|
    ensures Find(p.local, p.req.wallet) == Find(db.wallets, p.req.wallet)
    ensures RecipientRow(p.local, p.req) == RecipientRow(db.wallets, p.req)
  {
    var plan := LockPlan(p.req);
    assert p.req.wallet in plan;
    assert p.req.Transfer? ==> p.req.recipient in plan;
  }

  /** One step keeps the expectation, or fulfils it. */
  predicate Fulfils(db: Db, n: int, p: Proc) {
    var p' := Stepped(db, n, p);
    if Live(p') then
      Undisturbed(db, p') && !Commits(p) && Expected(db, if DrawsSeq(p) then n + 1 else n, p') == Expected(db, n, p)
    else
      p'.phase.outcome == Expected(db, n, p).outcome
      && Expected(db, n, p).db == if Commits(p) then Written(db, p) else db
  }

  lemma ArrivalFulfils(db: Db, n: int, p: Proc)
    requires p.phase.Arrived? && LiveSound(db, n, p) && Undisturbed(db, p)
    ensures Fulfils(db, n, p)
  {
  }

  lemma LockingFulfils(db: Db, n: int, p: Proc)
    requires p.phase.Locking? && LiveSound(db, n, p) && Undisturbed(db, p)
    ensures Fulfils(db, n, p)
  {
    if p.tried == |LockPlan(p.req)| {
      LocalIsComplete(db, n, p);
    }
  }

  /** Once validated, only a rejected flush can keep the request from committing. */
  lemma RejectionIsExpected(db: Db, n: int, p: Proc)
    requires 2 <= Rank(p.phase) <= 5 && LiveSound(db, n, p) && Undisturbed(db, p)
    requires !KeyAccepted(db.keys, p.req) || !AmountOk(p.req.amount)
      || !(Present(p.local, p.req) && BalancesOk(p.local, p.req))
    ensures Expected(db, n, p) == Reply(db, Failed(FlushRejected))
  {
    LocalRowsAgree(db, n, p);
  }

  lemma SameCourse(db: Db, n: int, p: Proc, n': int, p': Proc)
    requires p'.req == p.req && Coming(n', p') == Coming(n, p)
    ensures Expected(db, n', p') == Expected(db, n, p)
  {
  }

  lemma OpeningFulfils(db: Db, n: int, p: Proc)
    requires p.phase.Opening? && LiveSound(db, n, p) && Undisturbed(db, p)
    ensures Fulfils(db, n, p)
  {
    if KeyAccepted(db.keys, p.req) {
      SameCourse(db, n, p, n, p.(phase := FirstLeg));
    } else {
      RejectionIsExpected(db, n, p);
    }
  }

  lemma FirstLegFulfils(db: Db, n: int, p: Proc)
    requires p.phase.FirstLeg? && LiveSound(db, n, p) && Undisturbed(db, p)
    ensures Fulfils(db, n, p)
  {
    if AmountOk(p.req.amount) {
      SameCourse(db, n, p, n + 1, p.(phase := SecondLeg, s1 := n));
    } else {
      RejectionIsExpected(db, n, p);
    }
  }

  lemma SecondLegFulfils(db: Db, n: int, p: Proc)
    requires p.phase.SecondLeg? && LiveSound(db, n, p) && Undisturbed(db, p)
    ensures Fulfils(db, n, p)
  {
    SameCourse(db, n, p, n + 1, p.(phase := Settling, s2 := n));
  }

  lemma SettlingFulfils(db: Db, n: int, p: Proc)
    requires p.phase.Settling? && LiveSound(db, n, p) && Undisturbed(db, p)
    ensures Fulfils(db, n, p)
  {
    if Present(p.local, p.req) && BalancesOk(p.local, p.req) {
      SameCourse(db, n, p, n, p.(phase := Committing));
    } else {
      RejectionIsExpected(db, n, p);
    }
  }

  lemma StepFulfils(db: Db, n: int, p: Proc)
    requires Live(p) && LiveSound(db, n, p) && Undisturbed(db, p)
    ensures Fulfils(db, n, p)
  {
    match p.phase
    case Arrived => ArrivalFulfils(db, n, p);
    case Locking => LockingFulfils(db, n, p);
    case Opening => OpeningFulfils(db, n, p);
    case FirstLeg => FirstLegFulfils(db, n, p);
    case SecondLeg => SecondLegFulfils(db, n, p);
    case Settling => SettlingFulfils(db, n, p);
    case Committing => CommitIsAtomic(db, n, p);
  }

  lemma AloneCanStep(s: Sys, i: nat)
    requires Alone(s, i) && Live(s.procs[i])
    ensures CanStep(s, i)
  {
  }

  lemma StaysAlone(s: Sys, i: nat)
    requires Alone(s, i) && CanStep(s, i)
    ensures Alone(Do(s, Advance(i)), i)
  {
  }

  lemma SoloStep(s: Sys, i: nat)
    requires SysInv(s) && Alone(s, i) && Live(s.procs[i]) && Undisturbed(s.db, s.procs[i])
    ensures Fulfils(s.db, s.nextSeq, s.procs[i])
  {
    assert ProcSound(s.db, s.nextSeq, s.procs[i]);
    StepFulfils(s.db, s.nextSeq, s.procs[i]);
  }

  lemma {:induction false} SoloFinishes(s: Sys, i: nat) returns (acts: seq<Action>, end: Sys)
    requires SysInv(s) && Alone(s, i) && Live(s.procs[i]) && Undisturbed(s.db, s.procs[i])
    ensures Reaches(s, acts, end) && OnlyAdvances(acts) && i < |end.procs| && OthersRest(s, end, i)
    ensures end.procs[i].phase == Finished(Expected(s.db, s.nextSeq, s.procs[i]).outcome)
    ensures end.db == Expected(s.db, s.nextSeq, s.procs[i]).db
    decreases Backlog(s.procs)
  {
    AloneCanStep(s, i);
    StaysAlone(s, i);
    SoloStep(s, i);
    var t := Do(s, Advance(i));
    var rest;
    if Live(t.procs[i]) {
      AdvanceKeepsInv(s, i);
      StepsShrinkBacklog(s, i);
      SoundBacklog(s);
      rest, end := SoloFinishes(t, i);
    } else {
      rest, end := [], t;
    }
    PrependStep(s, Advance(i), rest, end);
    acts := [Advance(i)] + rest;
  }

  lemma StartedAlone(s: Sys, req: Request, id: TxnId, now: int)
    requires forall j | 0 <= j < |s.procs| :: Idle(s.procs[j])
    requires Enabled(s, Start(req, id, now))
    ensures var t, i := Do(s, Start(req, id, now)), |s.procs|;
      Alone(t, i) && Live(t.procs[i]) && Undisturbed(t.db, t.procs[i])
      && Expected(t.db, t.nextSeq, t.procs[i]) == Apply(s.db, Money(req, Draws(id, now, s.nextSeq, s.nextSeq + 1)))
  {
  }

  /** From every reachable state in which the unfinished requests hold nothing yet, a new request can run to
      its end past them and then answers and changes the tables as `Apply` says, whatever the answer is. */
  lemma SoloRunIsApply(before: seq<Action>, s: Sys, req: Request, id: TxnId, now: int)
    returns (acts: seq<Action>, end: Sys)
    requires Reaches(INIT, before, s) && forall j | 0 <= j < |s.procs| :: Idle(s.procs[j])
    requires Enabled(s, Start(req, id, now))
    ensures Reaches(s, acts, end) && |end.procs| == |s.procs| + 1 && end.procs[..|s.procs|] == s.procs
    ensures var reply := Apply(s.db, Money(req, Draws(id, now, s.nextSeq, s.nextSeq + 1)));
      end.db == reply.db && end.procs[|s.procs|].phase == Finished(reply.outcome)
    ensures end.procs[|s.procs|].req == req && end.procs[|s.procs|].id == id
  {
    InitSound();
    ReachableSound(INIT, before, s);
    var start := Start(req, id, now);
    StartKeepsInv(s, req, id, now);
    StartedAlone(s, req, id, now);
    var rest;
    rest, end := SoloFinishes(Do(s, start), |s.procs|);
    RequestsStay(Do(s, start), rest, end, |s.procs|);
    PrependStep(s, start, rest, end);
    acts := [start] + rest;
  }
}
