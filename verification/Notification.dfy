/** The notification consumer: dedupe in memory, offset committed after handling. */
module Notification {
  import opened Rows

  datatype Result = Handled | Duplicate | Raised

  /** `calls` lists the payloads for which the handler ran to its end. */
  class NotificationConsumer {
    var seen: set<TxnId>
    var calls: seq<Payload>

    constructor ()
      ensures seen == {} && calls == []
    {
      seen, calls := {}, [];
    }

    /** A raising handler leaves the id unseen, so a redelivery is handled again. */
    method HandleEvent(m: Payload, raises: bool) returns (r: Result)
      modifies this
      ensures r == if m.txn in old(seen) then Duplicate else if raises then Raised else Handled
      ensures seen == if r.Handled? then old(seen) + {m.txn} else old(seen)
      ensures calls == if r.Handled? then old(calls) + [m] else old(calls)
    {
      if m.txn in seen { return Duplicate; }
      if raises { return Raised; }
      calls := calls + [m];
      seen := seen + {m.txn};
      return Handled;
    }
  }

  /** `runs` lists the transactions whose handler run succeeded in this process lifetime, `ever` in any;
      `base` is the offset at which this lifetime resumed. A raising handler ends the process, just like a crash. */
  datatype Feed = Feed(log: seq<Payload>, position: nat, offset: nat, handled: bool,
                       seen: set<TxnId>, runs: seq<TxnId>, ever: set<TxnId>, base: nat)

  const INIT: Feed := Feed([], 0, 0, false, {}, [], {}, 0)

  datatype Action = Append(m: Payload) | Handle | CommitOffset(stored: bool) | Die

  predicate Enabled(s: Feed, a: Action) {
    match a
    case Append(_) => true
    case Handle => !s.handled && s.position < |s.log|
    case CommitOffset(_) => s.handled
    case Die => true
  }

  function Do(s: Feed, a: Action): Feed
    requires Enabled(s, a)
  {
    match a
    case Append(m) => s.(log := s.log + [m])
    case Handle =>
      var t := s.log[s.position].txn;
      if t in s.seen then s.(handled := true)
      else s.(handled := true, seen := s.seen + {t}, runs := s.runs + [t], ever := s.ever + {t})
    case CommitOffset(stored) =>
      s.(position := s.position + 1, offset := if stored then s.position + 1 else s.offset, handled := false)
    case Die => s.(position := s.offset, handled := false, seen := {}, runs := [], base := s.offset)
  }

  predicate Reaches(s: Feed, acts: seq<Action>, end: Feed)
    decreases |acts|
  {
    if acts == [] then s == end else Enabled(s, acts[0]) && Reaches(Do(s, acts[0]), acts[1..], end)
  }

  predicate OnceEach(runs: seq<TxnId>) {
    forall i, j | 0 <= i < j < |runs| :: runs[i] != runs[j]
  }

  predicate Served(s: Feed, n: nat)
    requires n <= |s.log|
  {
    forall i | 0 <= i < n :: s.log[i].txn in s.ever
  }

  /** How far this lifetime has handled the log. */
  function HandledTo(s: Feed): nat {
    if s.handled then s.position + 1 else s.position
  }

  /** Some message from `from` up to below `to` carries the transaction. */
  predicate Carried(log: seq<Payload>, from: nat, to: nat, t: TxnId)
    requires to <= |log|
  {
    exists i | from <= i < to :: log[i].txn == t
  }

  ghost predicate FeedInv(s: Feed) {
    && (forall t :: t in s.runs <==> t in s.seen)
    && OnceEach(s.runs)
    && s.seen <= s.ever
    && s.base <= s.offset <= s.position <= |s.log|
    && (s.handled ==> s.position < |s.log|)
    && Served(s, HandledTo(s))
    && (forall t :: t in s.runs <==> Carried(s.log, s.base, HandledTo(s), t))
  }

  lemma CarriedOneMore(log: seq<Payload>, from: nat, to: nat, t: TxnId)
    requires from <= to < |log|
    ensures Carried(log, from, to + 1, t) <==> Carried(log, from, to, t) || log[to].txn == t
  {
    assert log[to].txn == t ==> Carried(log, from, to + 1, t);
  }

  lemma HandleKeepsInv(s: Feed)
    requires FeedInv(s) && Enabled(s, Handle)
    ensures FeedInv(Do(s, Handle))
  {
    var s' := Do(s, Handle);
    var t := s.log[s.position].txn;
    assert forall x :: x in s.runs + [t] <==> x in s.runs || x == t;
    forall x ensures x in s'.runs <==> Carried(s'.log, s'.base, HandledTo(s'), x) {
      CarriedOneMore(s.log, s.base, s.position, x);
    }
  }

  lemma DoKeepsInv(s: Feed, a: Action)
    requires FeedInv(s) && Enabled(s, a)
    ensures FeedInv(Do(s, a))
  {
    match a
    case Append(m) =>
      forall x ensures Carried(s.log + [m], s.base, HandledTo(s), x) <==> Carried(s.log, s.base, HandledTo(s), x) {
        assert forall i | 0 <= i < HandledTo(s) :: (s.log + [m])[i] == s.log[i];
      }
    case Handle => HandleKeepsInv(s);
    case CommitOffset(_) =>
    case Die =>
  }

  lemma {:induction false} ReachableSound(s: Feed, acts: seq<Action>, end: Feed)
    requires FeedInv(s) && Reaches(s, acts, end)
    ensures FeedInv(end)
    decreases |acts|
  {
    if acts != [] {
      DoKeepsInv(s, acts[0]);
      ReachableSound(Do(s, acts[0]), acts[1..], end);
    }
  }

  /** Over any redeliveries the handler succeeds at most once per transaction in one lifetime; over any crashes
      every message below the committed offset was handled successfully at least once. */
  lemma AtMostOncePerLifeAtLeastOnceOverall(acts: seq<Action>, s: Feed)
    requires Reaches(INIT, acts, s)
    ensures OnceEach(s.runs)
    ensures s.offset <= |s.log| && forall i | 0 <= i < s.offset :: s.log[i].txn in s.ever
  {
    ReachableSound(INIT, acts, s);
  }

  /** In every reachable state the transactions notified in this lifetime are exactly those carried by the
      messages from the offset at which the lifetime resumed up to the last handled one. */
  lemma NotifiedExactly(acts: seq<Action>, s: Feed, t: TxnId)
    requires Reaches(INIT, acts, s)
    ensures HandledTo(s) <= |s.log| && (t in s.runs <==> Carried(s.log, s.base, HandledTo(s), t))
  {
    ReachableSound(INIT, acts, s);
  }

  lemma {:induction false} LifetimeStays(s: Feed, acts: seq<Action>, end: Feed)
    requires Reaches(s, acts, end) && Die !in acts
    ensures end.base == s.base && s.log <= end.log
    decreases |acts|
  {
    if acts != [] {
      assert Reaches(Do(s, acts[0]), acts[1..], end);
      LifetimeStays(Do(s, acts[0]), acts[1..], end);
    }
  }

  lemma {:induction false} RunsCompose(s: Feed, first: seq<Action>, mid: Feed, second: seq<Action>, end: Feed)
    requires Reaches(s, first, mid) && Reaches(mid, second, end)
    ensures Reaches(s, first + second, end)
    decreases |first|
  {
    if first == [] {
      assert first + second == second;
    } else {
      RunsCompose(Do(s, first[0]), first[1..], mid, second, end);
      assert (first + second)[1..] == first[1..] + second;
    }
  }

  /** After a crash, the transactions notified a second time are exactly the ones notified before that a message
      at or above the committed offset carries, once the new lifetime has handled that far. */
  lemma NotifiedAgainExactly(before: seq<Action>, s: Feed, acts: seq<Action>, end: Feed, t: TxnId)
    requires Reaches(INIT, before, s) && Reaches(Do(s, Die), acts, end) && Die !in acts
    requires t in s.ever
    ensures HandledTo(end) <= |end.log| && s.log <= end.log
    ensures t in end.runs <==> Carried(end.log, s.offset, HandledTo(end), t)
  {
    assert Reaches(s, [Die], Do(s, Die)) by {
      assert [Die][1..] == [];
    }
    RunsCompose(s, [Die], Do(s, Die), acts, end);
    RunsCompose(INIT, before, s, [Die] + acts, end);
    NotifiedExactly(before + ([Die] + acts), end, t);
    LifetimeStays(Do(s, Die), acts, end);
  }

  lemma FirstTwo(s: Feed, a: Action, b: Action, rest: seq<Action>, end: Feed)
    requires Enabled(s, a) && Enabled(Do(s, a), b) && Reaches(Do(Do(s, a), b), rest, end)
    ensures Reaches(s, [a, b] + rest, end)
  {
    assert ([a, b] + rest)[1..] == [b] + rest;
    assert ([b] + rest)[1..] == rest;
  }

  /** Across lifetimes the in-memory set does not help: a crash before the offset commit notifies twice. */
  lemma CrashNotifiesTwice(m: Payload) returns (first: seq<Action>, mid: Feed, second: seq<Action>, end: Feed)
    ensures Reaches(INIT, first, mid) && mid.runs == [m.txn]
    ensures Reaches(mid, second, end) && end.log == mid.log && Die in second && end.runs == [m.txn]
  {
    mid := Do(Do(INIT, Append(m)), Handle);
    FirstTwo(INIT, Append(m), Handle, [], mid);
    first := [Append(m), Handle] + [];
    end := Do(Do(mid, Die), Handle);
    FirstTwo(mid, Die, Handle, [], end);
    second := [Die, Handle] + [];
  }
}
