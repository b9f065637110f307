/** Locks are taken in ascending order and the key claim comes after all of them: nobody waits in a circle,
    and as long as a request is unfinished some request can take its next step. */
module Progress {
  import opened Rows
  import opened Operations
  import opened Interleaving

  datatype Height = Height(stage: nat, next: WalletId)

  function HeightOf(p: Proc): Height {
    if p.phase.Locking? && p.tried < |LockPlan(p.req)| then Height(0, LockPlan(p.req)[p.tried])
    else if Rank(p.phase) <= 1 then Height(1, 0)
    else if p.phase.Opening? then Height(2, 0)
    else Height(3, 0)
  }

  predicate Lower(a: Height, b: Height) {
    a.stage < b.stage || (a.stage == b.stage && a.next < b.next)
  }

  lemma WaitingRises(db: Db, n: int, x: Proc, y: Proc)
    requires Waits(db, x, y) && ProcSound(db, n, x) && ProcSound(db, n, y)
    ensures Lower(HeightOf(x), HeightOf(y)) && Live(y)
  {
  }

  /** Each element waits for the next one. */
  predicate WaitChain(s: Sys, path: seq<nat>) {
    forall i | 0 <= i < |path| - 1 :: WaitsFor(s, path[i], path[i + 1])
  }

  lemma WaitRises(s: Sys, p: nat, q: nat)
    requires SysInv(s) && WaitsFor(s, p, q)
    ensures Lower(HeightOf(s.procs[p]), HeightOf(s.procs[q])) && Live(s.procs[q])
  {
    assert ProcSound(s.db, s.nextSeq, s.procs[p]) && ProcSound(s.db, s.nextSeq, s.procs[q]);
    WaitingRises(s.db, s.nextSeq, s.procs[p], s.procs[q]);
  }

  lemma {:induction false} RisingEnds(hs: seq<Height>)
    requires |hs| >= 2 && forall i | 0 <= i < |hs| - 1 :: Lower(hs[i], hs[i + 1])
    ensures Lower(hs[0], hs[|hs| - 1])
  {
    if |hs| > 2 {
      RisingEnds(hs[..|hs| - 1]);
      assert Lower(hs[|hs| - 2], hs[|hs| - 2 + 1]);
    }
  }

  /** The wait-for graph of every reachable state is acyclic. */
  lemma NoCircularWait(acts: seq<Action>, s: Sys, path: seq<nat>)
    requires Reaches(INIT, acts, s) && WaitChain(s, path) && |path| >= 2
    ensures path[0] != path[|path| - 1]
  {
    InitSound();
    ReachableSound(INIT, acts, s);
    var none := Height(0, 0);
    var hs := seq(|path|, i requires 0 <= i < |path| =>
      if path[i] < |s.procs| then HeightOf(s.procs[path[i]]) else none);
    forall i | 0 <= i < |hs| - 1 ensures Lower(hs[i], hs[i + 1]) {
      WaitRises(s, path[i], path[i + 1]);
    }
    RisingEnds(hs);
  }

  /** Among the first n requests, a live one that is nowhere lower than another live one. */
  lemma {:induction false} Highest(procs: seq<Proc>, n: nat) returns (top: nat)
    requires n <= |procs| && exists i :: 0 <= i < n && Live(procs[i])
    ensures top < n && Live(procs[top])
    ensures forall i | 0 <= i < n && Live(procs[i]) :: !Lower(HeightOf(procs[top]), HeightOf(procs[i]))
  {
    if exists i :: 0 <= i < n - 1 && Live(procs[i]) {
      top := Highest(procs, n - 1);
      if Live(procs[n - 1]) && Lower(HeightOf(procs[top]), HeightOf(procs[n - 1])) {
        top := n - 1;
      }
    } else {
      top := n - 1;
    }
  }

  /** Whenever a request is unfinished, some request can take its next step without any abort. */
  lemma SomebodyCanStep(s: Sys) returns (p: nat)
    requires SysInv(s) && exists i :: 0 <= i < |s.procs| && Live(s.procs[i])
    ensures CanStep(s, p)
  {
    p := Highest(s.procs, |s.procs|);
    forall q: nat | q < |s.procs| ensures !WaitsFor(s, p, q) {
      if WaitsFor(s, p, q) {
        WaitRises(s, p, q);
        assert false;
      }
    }
  }

  /** Bound on the statements a request can still issue. */
  function Work(p: Proc): int {
    if Live(p) then 3 * (7 - Rank(p.phase)) - p.tried else 0
  }

  function Backlog(procs: seq<Proc>): int {
    if procs == [] then 0 else Backlog(procs[..|procs| - 1]) + Work(procs[|procs| - 1])
  }

  lemma {:induction false} BacklogUpdate(procs: seq<Proc>, i: nat, p: Proc)
    requires i < |procs|
    ensures Backlog(procs[i := p]) == Backlog(procs) - Work(procs[i]) + Work(p)
  {
    var n := |procs| - 1;
    if i < n {
      assert procs[i := p][..n] == procs[..n][i := p];
      BacklogUpdate(procs[..n], i, p);
    } else {
      assert procs[i := p][..n] == procs[..n];
    }
  }

  lemma {:induction false} BacklogNonNegative(procs: seq<Proc>)
    requires forall i | 0 <= i < |procs| :: Work(procs[i]) >= 0
    ensures Backlog(procs) >= 0
  {
    if procs != [] {
      BacklogNonNegative(procs[..|procs| - 1]);
    }
  }

  lemma SoundBacklog(s: Sys)
    requires SysInv(s)
    ensures Backlog(s.procs) >= 0
  {
    forall i | 0 <= i < |s.procs| ensures Work(s.procs[i]) >= 0 {
      assert ProcSound(s.db, s.nextSeq, s.procs[i]);
    }
    BacklogNonNegative(s.procs);
  }

  lemma StepShrinksWork(db: Db, n: int, p: Proc)
    requires Live(p) && LiveSound(db, n, p)
    ensures Work(Stepped(db, n, p)) < Work(p)
  {
  }

  lemma StepsShrinkBacklog(s: Sys, i: nat)
    requires SysInv(s) && CanStep(s, i)
    ensures Backlog(Do(s, Advance(i)).procs) < Backlog(s.procs)
  {
    assert ProcSound(s.db, s.nextSeq, s.procs[i]);
    StepShrinksWork(s.db, s.nextSeq, s.procs[i]);
    BacklogUpdate(s.procs, i, Stepped(s.db, s.nextSeq, s.procs[i]));
  }

  predicate OnlyAdvances(acts: seq<Action>) {
    forall i | 0 <= i < |acts| :: acts[i].Advance?
  }

  /** Without new arrivals no schedule runs longer than the backlog: there is no livelock either. */
  lemma {:induction false} EverySchedulerStops(s: Sys, acts: seq<Action>, end: Sys)
    requires SysInv(s) && Reaches(s, acts, end) && OnlyAdvances(acts)
    ensures |acts| <= Backlog(s.procs)
    decreases |acts|
  {
    SoundBacklog(s);
    if acts != [] {
      FirstStep(s, acts, end);
      DoKeepsInv(s, acts[0]);
      StepsShrinkBacklog(s, acts[0].p);
      EverySchedulerStops(Do(s, acts[0]), acts[1..], end);
    }
  }

  lemma PrependStep(s: Sys, a: Action, rest: seq<Action>, end: Sys)
    requires Enabled(s, a) && Reaches(Do(s, a), rest, end)
    ensures Reaches(s, [a] + rest, end)
  {
    assert ([a] + rest)[1..] == rest;
  }

  lemma {:induction false} RunThenRun(s: Sys, first: seq<Action>, mid: Sys, second: seq<Action>, end: Sys)
    requires Reaches(s, first, mid) && Reaches(mid, second, end)
    ensures Reaches(s, first + second, end)
    decreases |first|
  {
    if first == [] {
      assert first + second == second;
    } else {
      FirstStep(s, first, mid);
      RunThenRun(Do(s, first[0]), first[1..], mid, second, end);
      PrependStep(s, first[0], first[1..] + second, end);
      assert [first[0]] + (first[1..] + second) == first + second;
    }
  }

  predicate AllFinished(s: Sys) {
    forall i | 0 <= i < |s.procs| :: !Live(s.procs[i])
  }

  lemma OneStepCloser(s: Sys) returns (p: nat)
    requires SysInv(s) && !AllFinished(s)
    ensures CanStep(s, p) && SysInv(Do(s, Advance(p)))
    ensures 0 <= Backlog(Do(s, Advance(p)).procs) < Backlog(s.procs)
  {
    p := SomebodyCanStep(s);
    AdvanceKeepsInv(s, p);
    StepsShrinkBacklog(s, p);
    SoundBacklog(Do(s, Advance(p)));
  }

  /** From every reachable state the unfinished requests can all be brought to their own end, without aborts. */
  lemma {:induction false} EverybodyCanFinish(s: Sys) returns (acts: seq<Action>, end: Sys)
    requires SysInv(s)
    ensures Reaches(s, acts, end) && OnlyAdvances(acts) && AllFinished(end)
    decreases Backlog(s.procs)
  {
    if AllFinished(s) {
      acts, end := [], s;
    } else {
      var p := OneStepCloser(s);
      var rest;
      rest, end := EverybodyCanFinish(Do(s, Advance(p)));
      acts := [Advance(p)] + rest;
      PrependStep(s, Advance(p), rest, end);
    }
  }
}
