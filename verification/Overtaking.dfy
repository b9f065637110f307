/** Across wallets the identity column says nothing about commit order: a request on another wallet can draw
    later and commit first. */
module Overtaking {
  import opened Rows
  import opened Operations
  import opened Interleaving
  import opened Progress

  predicate Unblocked(s: Sys, i: nat) {
    i < |s.procs| && Live(s.procs[i]) && s.procs[i].req.Deposit?
    && forall q | 0 <= q < |s.procs| && q != i :: !Holds(s.procs[q], s.procs[i].req.wallet)
  }

  lemma UnblockedCanStep(s: Sys, i: nat)
    requires Unblocked(s, i)
    ensures CanStep(s, i) && LockPlan(s.procs[i].req) == [s.procs[i].req.wallet]
  {
    OneRowPlan(s.procs[i].req);
  }

  function After(s: Sys, i: nat, p: Proc, nextSeq: int): Sys
    requires i < |s.procs|
  {
    s.(procs := s.procs[i := p], nextSeq := nextSeq)
  }

  /** One statement of an unblocked deposit that commits nothing, in front of a run. */
  lemma Statement(s: Sys, i: nat, p: Proc, n: int, p': Proc, n': int, rest: seq<Action>, end: Sys)
    returns (acts: seq<Action>)
    requires i < |s.procs| && Unblocked(After(s, i, p, n), i) && !Commits(p)
    requires p' == Stepped(s.db, n, p) && n' == if DrawsSeq(p) then n + 1 else n
    requires Reaches(After(s, i, p', n'), rest, end)
    ensures Reaches(After(s, i, p, n), acts, end)
  {
    UnblockedCanStep(After(s, i, p, n), i);
    assert s.procs[i := p][i := p'] == s.procs[i := p'];
    PrependStep(After(s, i, p, n), Advance(i), rest, end);
    acts := [Advance(i)] + rest;
  }

  function Fresh(req: Request, id: TxnId, now: int): Proc {
    Proc(req, id, now, Arrived, 0, map[], 0, 0)
  }

  /** A deposit that has locked its row and drawn both identity values. */
  function Drawn(db: Db, req: Request, id: TxnId, now: int, n: int): Proc
    requires req.wallet in db.wallets
  {
    Proc(req, id, now, Settling, 1, map[req.wallet := db.wallets[req.wallet]], n, n + 1)
  }

  /** The request is in order and nothing will reject it. */
  predicate Sound(db: Db, req: Request) {
    && req.Deposit? && req.wallet in db.wallets
    && Validate(req, Some(db.wallets[req.wallet]), None).None?
    && AmountOk(req.amount) && BalancesOk(db.wallets, req)
  }

  lemma Draws2(s: Sys, i: nat, req: Request, id: TxnId, now: int, rest: seq<Action>, end: Sys) returns (acts: seq<Action>)
    requires Unblocked(s, i) && s.procs[i] == Fresh(req, id, now) && Sound(s.db, req)
    requires Reaches(After(s, i, Drawn(s.db, req, id, now, s.nextSeq), s.nextSeq + 2), rest, end)
    ensures Reaches(s, acts, end)
  {
    var n := s.nextSeq;
    UnblockedCanStep(s, i);
    var p1 := s.procs[i].(phase := Locking);
    var p2 := p1.(tried := 1, local := map[req.wallet := s.db.wallets[req.wallet]]);
    var p3, p4 := p2.(phase := Opening), p2.(phase := FirstLeg);
    var p5 := p2.(phase := SecondLeg, s1 := n);
    assert After(s, i, s.procs[i], n) == s;
    acts := Statement(s, i, p5, n + 1, Drawn(s.db, req, id, now, n), n + 2, rest, end);
    acts := Statement(s, i, p4, n, p5, n + 1, acts, end);
    acts := Statement(s, i, p3, n, p4, n, acts, end);
    acts := Statement(s, i, p2, n, p3, n, acts, end);
    acts := Statement(s, i, p1, n, p2, n, acts, end);
    acts := Statement(s, i, s.procs[i], n, p1, n, acts, end);
  }

  predicate Settled(p: Proc) {
    p.phase.Settling? && Present(p.local, p.req) && BalancesOk(p.local, p.req)
  }

  function Committed(s: Sys, i: nat): Sys
    requires i < |s.procs| && Settled(s.procs[i])
  {
    var p := s.procs[i];
    Sys(Written(s.db, p), s.nextSeq, s.procs[i := p.(phase := Finished(Done(p.id, Moved(p.local, p.req)[p.req.wallet])))],
        s.makers, s.log + [Money(p.req, DrawsOf(p))])
  }

  lemma CommitNow(s: Sys, i: nat, rest: seq<Action>, end: Sys) returns (acts: seq<Action>)
    requires Unblocked(s, i) && Settled(s.procs[i]) && Reaches(Committed(s, i), rest, end)
    ensures Reaches(s, acts, end)
  {
    var p := s.procs[i];
    var p' := p.(phase := Committing);
    var t := After(s, i, p', s.nextSeq);
    assert Unblocked(t, i);
    UnblockedCanStep(t, i);
    assert Do(t, Advance(i)) == Committed(s, i) by {
      assert t.procs[i := Stepped(s.db, s.nextSeq, p')] == Committed(s, i).procs;
    }
    PrependStep(t, Advance(i), rest, end);
    assert After(s, i, p, s.nextSeq) == s;
    acts := Statement(s, i, p, s.nextSeq, p', s.nextSeq, [Advance(i)] + rest, end);
  }

  /** Only requests i and j are unfinished. */
  predicate OnlyTwo(s: Sys, i: nat, j: nat) {
    i < |s.procs| && j < |s.procs| && i != j
    && forall q | 0 <= q < |s.procs| && q != i && q != j :: !Live(s.procs[q])
  }

  lemma SecondCommitsFirst(s: Sys, i: nat, j: nat, x: Proc, y: Proc) returns (acts: seq<Action>, end: Sys)
    requires OnlyTwo(s, i, j) && s.procs[i] == x && s.procs[j] == y
    requires Settled(x) && Settled(y) && x.req.Deposit? && y.req.Deposit?
    requires x.req.wallet !in y.local && y.req.wallet !in x.local
    ensures Reaches(s, acts, end)
    ensures end.db.ledger == s.db.ledger + LegsOf(y.req, y.local[y.req.wallet].currency, DrawsOf(y))
                                         + LegsOf(x.req, x.local[x.req.wallet].currency, DrawsOf(x))
  {
    var first := Committed(s, j);
    end := Committed(first, i);
    acts := CommitNow(first, i, [], end);
    acts := CommitNow(s, j, acts, end);
  }

  function BothDrawn(s: Sys, i: nat, j: nat, x: Proc, y: Proc): Sys
    requires i < |s.procs| && j < |s.procs| && x.req.wallet in s.db.wallets && y.req.wallet in s.db.wallets
  {
    After(After(s, i, Drawn(s.db, x.req, x.id, x.now, s.nextSeq), s.nextSeq + 2),
          j, Drawn(s.db, y.req, y.id, y.now, s.nextSeq + 2), s.nextSeq + 4)
  }

  lemma BothDraw(s: Sys, i: nat, j: nat, x: Proc, y: Proc, rest: seq<Action>, end: Sys) returns (acts: seq<Action>)
    requires OnlyTwo(s, i, j) && s.procs[i] == x == Fresh(x.req, x.id, x.now) && s.procs[j] == y == Fresh(y.req, y.id, y.now)
    requires Sound(s.db, x.req) && Sound(s.db, y.req) && x.req.wallet != y.req.wallet
    requires Reaches(BothDrawn(s, i, j, x, y), rest, end)
    ensures Reaches(s, acts, end)
  {
    var mid := After(s, i, Drawn(s.db, x.req, x.id, x.now, s.nextSeq), s.nextSeq + 2);
    acts := Draws2(mid, j, y.req, y.id, y.now, rest, end);
    acts := Draws2(s, i, x.req, x.id, x.now, acts, end);
  }

  lemma BothStart(s: Sys, x: Request, y: Request, idX: TxnId, idY: TxnId, now: int, rest: seq<Action>, end: Sys)
    returns (acts: seq<Action>)
    requires Enabled(s, Start(x, idX, now)) && Enabled(s, Start(y, idY, now)) && idX != idY
    requires Reaches(s.(procs := s.procs + [Fresh(x, idX, now), Fresh(y, idY, now)]), rest, end)
    ensures Reaches(s, acts, end)
  {
    var one := Do(s, Start(x, idX, now));
    assert one.procs + [Fresh(y, idY, now)] == s.procs + [Fresh(x, idX, now), Fresh(y, idY, now)];
    PrependStep(one, Start(y, idY, now), rest, end);
    PrependStep(s, Start(x, idX, now), [Start(y, idY, now)] + rest, end);
    acts := [Start(x, idX, now)] + ([Start(y, idY, now)] + rest);
  }

  /** From every quiet state two deposits on different wallets can run so that the one that drew its identity
      values first commits second: the ledger, in commit order, is then not in seq order. */
  lemma LaterDrawCanCommitFirst(s: Sys, x: Request, y: Request, idX: TxnId, idY: TxnId, now: int)
    returns (acts: seq<Action>, end: Sys)
    requires AllFinished(s) && Sound(s.db, x) && Sound(s.db, y) && x.wallet != y.wallet
    requires Enabled(s, Start(x, idX, now)) && Enabled(s, Start(y, idY, now)) && idX != idY
    ensures Reaches(s, acts, end)
    ensures var n := s.nextSeq;
      end.db.ledger == s.db.ledger + LegsOf(y, s.db.wallets[y.wallet].currency, Draws(idY, now, n + 2, n + 3))
                                   + LegsOf(x, s.db.wallets[x.wallet].currency, Draws(idX, now, n, n + 1))
  {
    var i, j := |s.procs|, |s.procs| + 1;
    var started := s.(procs := s.procs + [Fresh(x, idX, now), Fresh(y, idY, now)]);
    var drawn := BothDrawn(started, i, j, started.procs[i], started.procs[j]);
    acts, end := SecondCommitsFirst(drawn, i, j, drawn.procs[i], drawn.procs[j]);
    acts := BothDraw(started, i, j, started.procs[i], started.procs[j], acts, end);
    acts := BothStart(s, x, y, idX, idY, now, acts, end);
  }
}
