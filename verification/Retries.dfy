/** Idempotency keys over serial histories: a retry of a committed request changes nothing. */
module Retries {
  import opened Rows
  import opened Operations

  /** What the i-th operation of a history answered. */
  function Answer(db: Db, ops: seq<Op>, i: nat): Outcome
    requires i < |ops|
  {
    Apply(Run(db, ops[..i]), ops[i]).outcome
  }

  /** Transfers or withdrawals that carry the key k. */
  predicate Carries(op: Op, k: string) {
    op.Money? && !op.req.Deposit? && op.req.key == Some(k)
  }

  predicate SameKey(a: Op, b: Op) {
    a.Money? && !a.req.Deposit? && a.req.key.Some? && a.req.key.value != "" && Carries(b, a.req.key.value)
  }

  /** An earlier operation with the same non-empty key has committed. */
  predicate IsRetry(db: Db, ops: seq<Op>, i: nat)
    requires i < |ops|
  {
    exists j: nat | j < i :: SameKey(ops[j], ops[i]) && Answer(db, ops, j).Done?
  }

  function Pruned(db: Db, ops: seq<Op>): seq<Op> {
    if ops == [] then []
    else Pruned(db, ops[..|ops| - 1]) + if IsRetry(db, ops, |ops| - 1) then [] else [ops[|ops| - 1]]
  }

  lemma {:induction false} BindingsStay(db: Db, ops: seq<Op>, k: string)
    requires k in db.keys
    ensures k in Run(db, ops).keys && Run(db, ops).keys[k] == db.keys[k]
  {
    if ops != [] {
      BindingsStay(db, ops[..|ops| - 1], k);
      var before := Run(db, ops[..|ops| - 1]);
      var op := ops[|ops| - 1];
      assert Apply(before, op).db.keys == before.keys
        || (op.Money? && Apply(before, op).db.keys == Bind(before.keys, KeyOf(op.req), op.draws.id));
    }
  }

  lemma CommitBinds(db: Db, op: Op, k: string)
    requires Carries(op, k) && Apply(db, op).outcome.Done?
    ensures var after := Apply(db, op).db;
      && k !in db.keys && k in after.keys && after.keys[k] == op.draws.id == Apply(db, op).outcome.txn
      && op.draws.id in after.txns && after.txns[op.draws.id].key == Some(k)
  {
  }

  lemma BoundKeyReplays(db: Db, op: Op, k: string)
    requires Carries(op, k) && k in db.keys
    ensures Apply(db, op).db == db && !Apply(db, op).outcome.Done?
    ensures k != "" && !(op.req.Transfer? && op.req.wallet == op.req.recipient) ==>
      Apply(db, op).outcome == Replayed(db.keys[k], Find(db.wallets, op.req.wallet))
  {
  }

  /** Once an operation carrying k has committed, k stays bound to it. */
  lemma BoundLater(db: Db, ops: seq<Op>, j: nat, i: nat, k: string)
    requires j < i <= |ops| && Carries(ops[j], k) && Answer(db, ops, j).Done?
    ensures k in Run(db, ops[..i]).keys && Run(db, ops[..i]).keys[k] == Answer(db, ops, j).txn
  {
    assert ops[..j + 1][..j] == ops[..j];
    CommitBinds(Run(db, ops[..j]), ops[j], k);
    assert ops[..i] == ops[..j + 1] + ops[j + 1..i];
    RunConcat(db, ops[..j + 1], ops[j + 1..i]);
    BindingsStay(Run(db, ops[..j + 1]), ops[j + 1..i], k);
  }

  /** In a serial history no two operations that carry one key, not even the empty one, both commit. */
  lemma OneCommitPerKey(db: Db, ops: seq<Op>, j: nat, i: nat, k: string)
    requires j < i < |ops| && Carries(ops[j], k) && Carries(ops[i], k)
    ensures !(Answer(db, ops, j).Done? && Answer(db, ops, i).Done?)
  {
    if Answer(db, ops, j).Done? {
      BoundLater(db, ops, j, i, k);
      BoundKeyReplays(Run(db, ops[..i]), ops[i], k);
    }
  }

  /** A retry answers with the original transaction and leaves every table as it was. */
  lemma RetryReturnsOriginal(db: Db, ops: seq<Op>, j: nat, i: nat)
    requires j < i < |ops| && SameKey(ops[j], ops[i]) && Answer(db, ops, j).Done?
    ensures Run(db, ops[..i + 1]) == Run(db, ops[..i])
    ensures !(ops[i].req.Transfer? && ops[i].req.wallet == ops[i].req.recipient) ==>
      Answer(db, ops, i).Replayed? && Answer(db, ops, i).original == Answer(db, ops, j).txn == ops[j].draws.id
  {
    var k := ops[j].req.key.value;
    CommitBinds(Run(db, ops[..j]), ops[j], k);
    BoundLater(db, ops, j, i, k);
    BoundKeyReplays(Run(db, ops[..i]), ops[i], k);
    assert ops[..i + 1][..i] == ops[..i];
  }

  /** Removing every retry from a history changes none of the tables. */
  lemma {:induction false} RetryElimination(db: Db, ops: seq<Op>)
    ensures Run(db, Pruned(db, ops)) == Run(db, ops)
  {
    if ops != [] {
      var n := |ops| - 1;
      RetryElimination(db, ops[..n]);
      assert ops[..n + 1] == ops;
      if IsRetry(db, ops, n) {
        var j: nat :| j < n && SameKey(ops[j], ops[n]) && Answer(db, ops, j).Done?;
        RetryReturnsOriginal(db, ops, j, n);
        assert Pruned(db, ops) == Pruned(db, ops[..n]);
      } else {
        RunConcat(db, Pruned(db, ops[..n]), [ops[n]]);
        assert Run(Run(db, ops[..n]), [ops[n]]) == Apply(Run(db, ops[..n]), ops[n]).db by {
          assert [ops[n]][..0] == [];
        }
      }
    }
  }

  lemma StepBinds(db: Db, op: Op, k: string)
    ensures k in Apply(db, op).db.keys <==>
      k in db.keys || (Carries(op, k) && Apply(db, op).outcome.Done?)
  {
  }

  /** Some request carrying the key committed among the first n operations. */
  predicate CommittedUnder(db: Db, ops: seq<Op>, k: string, n: nat)
    requires n <= |ops|
  {
    exists i: nat | i < n :: Carries(ops[i], k) && Answer(db, ops, i).Done?
  }

  /** A key is bound exactly when it was at the start or a request carrying it committed: attempts that
      failed or were replayed bind nothing, so a failed request can be sent again under its key. */
  lemma {:induction false} OnlyCommitsBind(db: Db, ops: seq<Op>, k: string, n: nat)
    requires n <= |ops|
    ensures k in Run(db, ops[..n]).keys <==> k in db.keys || CommittedUnder(db, ops, k, n)
  {
    if n > 0 {
      OnlyCommitsBind(db, ops, k, n - 1);
      assert ops[..n][..n - 1] == ops[..n - 1];
      StepBinds(Run(db, ops[..n - 1]), ops[n - 1], k);
    }
  }

  /** The last operation is dropped if and only if one that carried its non-empty key has committed before. */
  lemma PrunedOneMore(db: Db, ops: seq<Op>, op: Op)
    ensures Pruned(db, ops + [op]) == Pruned(db, ops) +
      if op.Money? && !op.req.Deposit? && op.req.key.Some? && op.req.key.value != ""
         && CommittedUnder(db, ops, op.req.key.value, |ops|)
      then [] else [op]
  {
    var longer := ops + [op];
    assert longer[..|ops|] == ops;
    forall j: nat | j < |ops| ensures Answer(db, longer, j) == Answer(db, ops, j) {
      assert longer[..j] == ops[..j];
    }
    if IsRetry(db, longer, |ops|) {
      var j: nat :| j < |ops| && SameKey(longer[j], op) && Answer(db, longer, j).Done?;
      assert Carries(ops[j], op.req.key.value) && Answer(db, ops, j).Done?;
    }
    if op.Money? && !op.req.Deposit? && op.req.key.Some? && op.req.key.value != ""
       && CommittedUnder(db, ops, op.req.key.value, |ops|) {
      var j: nat :| j < |ops| && Carries(ops[j], op.req.key.value) && Answer(db, ops, j).Done?;
      assert SameKey(longer[j], op) && Answer(db, longer, j).Done?;
    }
  }

  /** The history that is left holds no retry of its own. */
  lemma {:induction false} PrunedHasNoRetry(db: Db, ops: seq<Op>, i: nat)
    requires i < |Pruned(db, ops)|
    ensures !IsRetry(db, Pruned(db, ops), i)
  {
    var n, kept := |ops| - 1, Pruned(db, ops);
    var before := Pruned(db, ops[..n]);
    assert ops == ops[..n] + [ops[n]];
    PrunedOneMore(db, ops[..n], ops[n]);
    if i < |before| {
      PrunedHasNoRetry(db, ops[..n], i);
      forall j: nat | j <= i ensures Answer(db, kept, j) == Answer(db, before, j) {
        assert kept[..j] == before[..j];
      }
    } else if IsRetry(db, kept, i) {
      var j: nat :| j < i && SameKey(kept[j], kept[i]) && Answer(db, kept, j).Done?;
      var k := ops[n].req.key.value;
      BoundLater(db, kept, j, i, k);
      assert kept[..i] == before;
      RetryElimination(db, ops[..n]);
      OnlyCommitsBind(db, ops[..n], k, n);
      assert ops[..n][..n] == ops[..n];
      StaysUnbound(db, kept, j, k);
    }
  }

  /** A key that an operation could bind was not bound at the start. */
  lemma StaysUnbound(db: Db, ops: seq<Op>, j: nat, k: string)
    requires j < |ops| && Carries(ops[j], k) && Answer(db, ops, j).Done?
    ensures k !in db.keys
  {
    CommitBinds(Run(db, ops[..j]), ops[j], k);
    if k in db.keys {
      BindingsStay(db, ops[..j], k);
    }
  }
}
