/** The balance cache: cache-aside reads, delete on write, a TTL as a backstop, and a backend that may fail. */
module Cache {
  import opened Rows
  import opened Operations

  datatype Entry = Entry(row: Wallet, expires: int)

  /** A command the backend carried out. */
  datatype Command = Stored(w: WalletId, entry: Entry) | Deleted(ws: set<WalletId>)

  predicate Touches(c: Command, w: WalletId) {
    match c
    case Stored(v, _) => v == w
    case Deleted(ws) => w in ws
  }

  /** The i-th command stored w and nothing has touched w since. */
  predicate StoredLast(history: seq<Command>, i: int, w: WalletId) {
    0 <= i < |history| && history[i].Stored? && history[i].w == w
    && forall j | i < j < |history| :: !Touches(history[j], w)
  }

  /** The last command on w stored the row r, and it has not expired. */
  ghost predicate Serves(history: seq<Command>, now: int, w: WalletId, r: Wallet) {
    exists i :: StoredLast(history, i, w) && now < history[i].entry.expires && history[i].entry.row == r
  }

  /** The entries are what the commands have left. */
  ghost predicate Reflects(entries: map<WalletId, Entry>, history: seq<Command>) {
    && (forall w | w in entries :: exists i :: StoredLast(history, i, w))
    && (forall w, i | StoredLast(history, i, w) :: w in entries && entries[w] == history[i].entry)
  }

  lemma OneMoreCommand(entries: map<WalletId, Entry>, history: seq<Command>, c: Command)
    requires Reflects(entries, history)
    ensures Reflects(if c.Stored? then entries[c.w := c.entry] else entries - c.ws, history + [c])
  {
    var entries' := if c.Stored? then entries[c.w := c.entry] else entries - c.ws;
    var history', n := history + [c], |history|;
    forall w | w in entries' ensures exists i :: StoredLast(history', i, w) {
      if Touches(c, w) {
        assert StoredLast(history', n, w);
      } else {
        var i :| StoredLast(history, i, w);
        assert StoredLast(history', i, w);
      }
    }
    forall w, i | StoredLast(history', i, w) ensures w in entries' && entries'[w] == history'[i].entry {
      if i < n {
        assert !Touches(history'[n], w);
        assert forall j | i < j < n :: history'[j] == history[j];
        assert StoredLast(history, i, w);
      }
    }
  }

  /** SETEX, GET and DEL of the backend. While it is down every command raises. */
  class Backend {
    var entries: map<WalletId, Entry>
    var now: int
    var up: bool
    ghost var history: seq<Command>

    constructor ()
      ensures entries == map[] && up && Valid()
    {
      entries, now, up, history := map[], 0, true, [];
    }

    ghost predicate Valid()
      reads this
    {
      Reflects(entries, history)
    }

    method SetEx(w: WalletId, e: Entry)
      requires Valid()
      modifies `entries, `history
      ensures Valid() && entries == old(entries)[w := e] && history == old(history) + [Stored(w, e)]
    {
      OneMoreCommand(entries, history, Stored(w, e));
      entries, history := entries[w := e], history + [Stored(w, e)];
    }

    method Del(ws: set<WalletId>)
      requires Valid()
      modifies `entries, `history
      ensures Valid() && entries == old(entries) - ws && history == old(history) + [Deleted(ws)]
    {
      OneMoreCommand(entries, history, Deleted(ws));
      entries, history := entries - ws, history + [Deleted(ws)];
    }
  }

  function Visible(entries: map<WalletId, Entry>, now: int, w: WalletId): Option<Wallet> {
    if w in entries && now < entries[w].expires then Some(entries[w].row) else None
  }

  class BalanceCache {
    const client: Backend
    const ttl: int

    constructor (client: Backend, ttl: int := 30)
      ensures this.client == client && this.ttl == ttl
    {
      this.client, this.ttl := client, ttl;
    }

    /** A row comes back exactly if the last command on its key stored it, it has not expired, and the backend
        answers. */
    method Get(w: WalletId) returns (row: Option<Wallet>)
      requires client.Valid()
      ensures row == if client.up then Visible(client.entries, client.now, w) else None
      ensures forall r :: row == Some(r) <==> client.up && Serves(client.history, client.now, w, r)
    {
      row := if client.up then Visible(client.entries, client.now, w) else None;
    }

    method Set(w: WalletId, row: Wallet)
      requires client.Valid()
      modifies client`entries, client`history
      ensures client.Valid()
      ensures client.entries ==
        if client.up then old(client.entries)[w := Entry(row, client.now + ttl)] else old(client.entries)
      ensures client.history ==
        if client.up then old(client.history) + [Stored(w, Entry(row, client.now + ttl))] else old(client.history)
    {
      if client.up {
        client.SetEx(w, Entry(row, client.now + ttl));
      }
    }

    method Invalidate(ws: set<WalletId>)
      requires client.Valid()
      modifies client`entries, client`history
      ensures client.Valid()
      ensures client.entries == if client.up then old(client.entries) - ws else old(client.entries)
      ensures client.history == if client.up then old(client.history) + [Deleted(ws)] else old(client.history)
    {
      if client.up {
        client.Del(ws);
      }
    }

    /** The balance route: a hit is served to its owner only; a miss reads the table and fills the cache. */
    method GetBalance(wallets: map<WalletId, Wallet>, w: WalletId, user: UserId) returns (row: Option<Wallet>)
      requires client.Valid()
      modifies client`entries, client`history
      ensures client.Valid()
      ensures row.Some? ==> row.value.user == user
      ensures var hit := if client.up then Visible(old(client.entries), client.now, w) else None;
        row == match hit
               case Some(e) => (if e.user == user then Some(e) else None)
               case None => (if w in wallets && wallets[w].user == user then Some(wallets[w]) else None)
      ensures var filled := client.up && Visible(old(client.entries), client.now, w).None?
                            && w in wallets && wallets[w].user == user;
        client.entries ==
          if filled then old(client.entries)[w := Entry(wallets[w], client.now + ttl)] else old(client.entries)
    {
      var cached := Get(w);
      if cached.Some? {
        return if cached.value.user == user then cached else None;
      }
      if w !in wallets || wallets[w].user != user { return None; }
      Set(w, wallets[w]);
      return Some(wallets[w]);
    }
  }

  // ----- step by step: readers and writers interleave, any command may fail -----

  /** The wallets whose cache keys the route deletes after the operation. */
  function Busted(op: Op): set<WalletId> {
    match op
    case Money(req, _) => if req.Transfer? then {req.wallet, req.recipient} else {req.wallet}
    case NewWallet(_, _, _) => {}
  }

  /** The wallets table from `since` on, and the one it replaced; `moved` is the money request that committed
      then, if it was one, and `busted` are the keys to delete because of it. */
  datatype Version = Version(before: map<WalletId, Wallet>, wallets: map<WalletId, Wallet>, since: int,
                             moved: Option<Request>, busted: set<WalletId>)

  /** A row of the given version, read at `readAt`, stored at `setAt` by step number `step`. */
  datatype Slot = Slot(row: Wallet, readAt: int, setAt: int, version: nat, step: nat)

  /** A request that has read the table and has not stored the row yet. */
  datatype Reader = Reader(w: WalletId, row: Wallet, readAt: int, version: nat)

  /** `versions` is the history of the wallets table, the last one being current. `outstanding` are the
      versions whose delete has not been sent, `deleted` gives the step of each delete that worked. */
  datatype State = State(db: Db, now: int, step: nat, versions: seq<Version>, slots: map<WalletId, Slot>,
                         readers: seq<Reader>, outstanding: set<nat>, deleted: map<nat, nat>)

  function Initial(db: Db): State {
    State(db, 0, 0, [Version(db.wallets, db.wallets, 0, None, {})], map[], [], {}, map[])
  }

  datatype Action =
    | Tick(d: nat)
    | Commit(op: Op)
    | Invalidate(k: nat, works: bool)
    | ReadRow(w: WalletId)
    | StoreRow(i: nat, works: bool)

  predicate Enabled(s: State, a: Action) {
    match a
    case Invalidate(k, _) => k in s.outstanding && k < |s.versions|
    case ReadRow(w) => w in s.db.wallets && s.versions != []
    case StoreRow(i, _) => i < |s.readers|
    case _ => true
  }

  /** A route deletes keys after an operation that did not raise. */
  function ToDelete(db: Db, op: Op): set<WalletId> {
    var outcome := Apply(db, op).outcome;
    if outcome.Done? || outcome.Replayed? then Busted(op) else {}
  }

  function Committed(db: Db, op: Op): Option<Request> {
    if op.Money? && Apply(db, op).outcome.Done? then Some(op.req) else None
  }

  function VersionAfter(db: Db, op: Op, now: int): Version {
    Version(db.wallets, Apply(db, op).db.wallets, now, Committed(db, op), ToDelete(db, op))
  }

  function Effect(s: State, a: Action): State
    requires Enabled(s, a)
  {
    match a
    case Tick(d) => s.(now := s.now + d)
    case Commit(op) =>
      s.(db := Apply(s.db, op).db, versions := s.versions + [VersionAfter(s.db, op, s.now)],
         outstanding := if ToDelete(s.db, op) == {} then s.outstanding else s.outstanding + {|s.versions|})
    case Invalidate(k, works) =>
      s.(outstanding := s.outstanding - {k},
         slots := if works then s.slots - s.versions[k].busted else s.slots,
         deleted := if works then s.deleted[k := s.step] else s.deleted)
    case ReadRow(w) => s.(readers := s.readers + [Reader(w, s.db.wallets[w], s.now, |s.versions| - 1)])
    case StoreRow(i, works) =>
      var r := s.readers[i];
      s.(readers := s.readers[..i] + s.readers[i + 1..],
         slots := if works then s.slots[r.w := Slot(r.row, r.readAt, s.now, r.version, s.step)] else s.slots)
  }

  function Do(s: State, a: Action): State
    requires Enabled(s, a)
  {
    Effect(s, a).(step := s.step + 1)
  }

  predicate Reaches(s: State, acts: seq<Action>, end: State)
    decreases |acts|
  {
    if acts == [] then s == end else Enabled(s, acts[0]) && Reaches(Do(s, acts[0]), acts[1..], end)
  }

  /** The row was the committed one at time t. */
  predicate CommittedAt(versions: seq<Version>, w: WalletId, row: Wallet, t: int) {
    exists k | 0 <= k < |versions| ::
      w in versions[k].wallets && versions[k].wallets[w] == row && versions[k].since <= t
      && (k + 1 < |versions| ==> t <= versions[k + 1].since)
  }

  predicate Historic(s: State) {
    && s.versions != [] && s.versions[|s.versions| - 1].wallets == s.db.wallets
    && s.versions[|s.versions| - 1].since <= s.now
    && (forall w | w in s.slots :: s.slots[w].readAt <= s.slots[w].setAt <= s.now
                                   && CommittedAt(s.versions, w, s.slots[w].row, s.slots[w].readAt))
    && (forall i | 0 <= i < |s.readers| :: s.readers[i].readAt <= s.now
                                   && CommittedAt(s.versions, s.readers[i].w, s.readers[i].row, s.readers[i].readAt))
  }

  lemma HistoryStays(versions: seq<Version>, v: Version, w: WalletId, row: Wallet, t: int)
    requires CommittedAt(versions, w, row, t) && t <= v.since
    ensures CommittedAt(versions + [v], w, row, t)
  {
    var k :| 0 <= k < |versions| && w in versions[k].wallets && versions[k].wallets[w] == row && versions[k].since <= t
      && (k + 1 < |versions| ==> t <= versions[k + 1].since);
    assert (versions + [v])[k] == versions[k];
    assert (versions + [v])[k + 1] == if k + 1 < |versions| then versions[k + 1] else v;
  }

  lemma DoKeepsHistory(s: State, a: Action)
    requires Historic(s) && Enabled(s, a)
    ensures Historic(Do(s, a))
  {
    var s' := Do(s, a);
    match a
    case Tick(_) =>
    case Commit(_) =>
      var v := s'.versions[|s.versions|];
      forall w | w in s.slots ensures CommittedAt(s'.versions, w, s.slots[w].row, s.slots[w].readAt) {
        HistoryStays(s.versions, v, w, s.slots[w].row, s.slots[w].readAt);
      }
      forall i | 0 <= i < |s.readers| ensures CommittedAt(s'.versions, s.readers[i].w, s.readers[i].row, s.readers[i].readAt) {
        HistoryStays(s.versions, v, s.readers[i].w, s.readers[i].row, s.readers[i].readAt);
      }
    case Invalidate(_, _) =>
    case ReadRow(w) =>
      var k := |s.versions| - 1;
      assert s.versions[k].wallets[w] == s.db.wallets[w];
    case StoreRow(_, _) =>
  }

  lemma {:induction false} RunKeepsHistory(s: State, acts: seq<Action>, end: State)
    requires Historic(s) && Reaches(s, acts, end)
    ensures Historic(end)
    decreases |acts|
  {
    if acts != [] {
      DoKeepsHistory(s, acts[0]);
      RunKeepsHistory(Do(s, acts[0]), acts[1..], end);
    }
  }

  predicate Hit(s: State, ttl: int, w: WalletId) {
    w in s.slots && s.now < s.slots[w].setAt + ttl
  }

  /** With any interleaving and any failing commands, a hit was the committed row at the time its reader read
      it, and that was less than the TTL plus this reader's own read-to-set delay ago. */
  lemma StalenessIsBounded(db: Db, acts: seq<Action>, s: State, ttl: int, w: WalletId)
    requires Reaches(Initial(db), acts, s) && Hit(s, ttl, w)
    ensures var slot := s.slots[w];
      CommittedAt(s.versions, w, slot.row, slot.readAt)
      && 0 <= s.now - slot.readAt < ttl + (slot.setAt - slot.readAt)
  {
    var v := Initial(db).versions;
    assert v[0].wallets == db.wallets;
    RunKeepsHistory(Initial(db), acts, s);
  }

  // ----- when exactly an entry is stale -----

  /** The routes delete the key of every wallet whose row an operation changes. */
  lemma InvalidationCoversWrites(db: Db, op: Op, w: WalletId)
    requires w in db.wallets && w !in ToDelete(db, op)
    ensures w in Apply(db, op).db.wallets && Apply(db, op).db.wallets[w] == db.wallets[w]
  {
  }

  /** An operation never changes owner or currency of a row. */
  lemma OwnersStay(db: Db, op: Op, w: WalletId)
    requires w in db.wallets
    ensures w in Apply(db, op).db.wallets
    ensures Apply(db, op).db.wallets[w].user == db.wallets[w].user
    ensures Apply(db, op).db.wallets[w].currency == db.wallets[w].currency
  {
  }

  /** What a request moves onto a wallet, or off it. */
  function MovedOn(req: Request, w: WalletId): int {
    match req
    case Deposit(x, _, amount, _) => if w == x then amount else 0
    case Transfer(x, _, r, amount, _, _) => if w == x then -amount else if w == r then amount else 0
    case Withdraw(x, _, amount, _, _) => if w == x then -amount else 0
  }

  function ShiftOf(v: Version, w: WalletId): int {
    if v.moved.Some? then MovedOn(v.moved.value, w) else 0
  }

  /** What the commits after version `from` up to version `to` moved on the wallet. */
  function MovedBetween(versions: seq<Version>, from: nat, to: nat, w: WalletId): int
    requires from <= to < |versions|
  {
    if from == to then 0 else MovedBetween(versions, from, to - 1, w) + ShiftOf(versions[to], w)
  }

  /** Rows never go away, they change by what the request moved, and a changed row is due for a delete. */
  predicate Proper(v: Version) {
    forall w | w in v.before ::
      && w in v.wallets
      && v.wallets[w] == Credited(v.before[w], ShiftOf(v, w))
      && (ShiftOf(v, w) != 0 ==> w in v.busted)
  }

  predicate Linked(versions: seq<Version>, k: nat)
    requires k + 1 < |versions|
  {
    versions[k + 1].before == versions[k].wallets
  }

  predicate Covered(versions: seq<Version>) {
    && (forall k | 0 <= k < |versions| :: Proper(versions[k]))
    && (forall k: nat | k + 1 < |versions| :: Linked(versions, k))
  }

  lemma CommitIsProper(db: Db, op: Op, now: int)
    ensures Proper(VersionAfter(db, op, now))
  {
  }

  lemma CoveredGrows(versions: seq<Version>, v: Version)
    requires Covered(versions) && versions != [] && Proper(v) && v.before == versions[|versions| - 1].wallets
    ensures Covered(versions + [v])
  {
    var versions' := versions + [v];
    forall k: nat | k + 1 < |versions'| ensures Linked(versions', k) {
      if k + 1 < |versions| {
        assert Linked(versions, k);
      }
    }
  }

  predicate OfVersion(versions: seq<Version>, k: nat, w: WalletId, row: Wallet) {
    k < |versions| && w in versions[k].wallets && versions[k].wallets[w] == row
  }

  /** Every delete that worked and concerned an entry's later versions ran before the entry was stored. */
  predicate DeletesSeen(s: State) {
    forall w, k | w in s.slots && k in s.deleted && s.slots[w].version < k < |s.versions| && w in s.versions[k].busted ::
      s.deleted[k] < s.slots[w].step
  }

  predicate Traced(s: State) {
    && s.versions != [] && s.versions[|s.versions| - 1].wallets == s.db.wallets
    && Covered(s.versions)
    && (forall k | k in s.deleted :: k < |s.versions| && s.deleted[k] < s.step)
    && (forall w | w in s.slots :: OfVersion(s.versions, s.slots[w].version, w, s.slots[w].row))
    && (forall i | 0 <= i < |s.readers| :: OfVersion(s.versions, s.readers[i].version, s.readers[i].w, s.readers[i].row))
    && DeletesSeen(s)
  }

  lemma CommitKeepsTrace(s: State, op: Op)
    requires Traced(s)
    ensures Traced(Do(s, Commit(op)))
  {
    CommitIsProper(s.db, op, s.now);
    CoveredGrows(s.versions, VersionAfter(s.db, op, s.now));
  }

  lemma InvalidateKeepsTrace(s: State, k: nat, works: bool)
    requires Traced(s) && Enabled(s, Invalidate(k, works))
    ensures Traced(Do(s, Invalidate(k, works)))
  {
  }

  lemma StoreKeepsTrace(s: State, i: nat, works: bool)
    requires Traced(s) && Enabled(s, StoreRow(i, works))
    ensures Traced(Do(s, StoreRow(i, works)))
  {
  }

  lemma DoKeepsTrace(s: State, a: Action)
    requires Traced(s) && Enabled(s, a)
    ensures Traced(Do(s, a))
  {
    match a
    case Tick(_) =>
    case Commit(op) => CommitKeepsTrace(s, op);
    case Invalidate(k, works) => InvalidateKeepsTrace(s, k, works);
    case ReadRow(_) =>
    case StoreRow(i, works) => StoreKeepsTrace(s, i, works);
  }

  lemma {:induction false} RunKeepsTrace(s: State, acts: seq<Action>, end: State)
    requires Traced(s) && Reaches(s, acts, end)
    ensures Traced(end)
    decreases |acts|
  {
    if acts != [] {
      DoKeepsTrace(s, acts[0]);
      RunKeepsTrace(Do(s, acts[0]), acts[1..], end);
    }
  }

  lemma {:induction false} RowsMove(versions: seq<Version>, from: nat, to: nat, w: WalletId)
    requires Covered(versions) && from <= to < |versions| && w in versions[from].wallets
    ensures w in versions[to].wallets
    ensures versions[to].wallets[w] == Credited(versions[from].wallets[w], MovedBetween(versions, from, to, w))
  {
    if from < to {
      RowsMove(versions, from, to - 1, w);
      assert Linked(versions, to - 1) && Proper(versions[to]);
    }
  }

  lemma {:induction false} SomethingMoved(versions: seq<Version>, from: nat, to: nat, w: WalletId) returns (k: nat)
    requires from <= to < |versions| && MovedBetween(versions, from, to, w) != 0
    ensures from < k <= to && ShiftOf(versions[k], w) != 0
  {
    if ShiftOf(versions[to], w) != 0 {
      k := to;
    } else {
      k := SomethingMoved(versions, from, to - 1, w);
    }
  }

  /** What was moved on the wallet since the entry's reader read the table. */
  function MovedSince(s: State, w: WalletId): int
    requires w in s.slots && s.slots[w].version < |s.versions|
  {
    MovedBetween(s.versions, s.slots[w].version, |s.versions| - 1, w)
  }

  /** In every run, with any commands failing, an entry is off by exactly what the commits after its read moved on
      the wallet: it differs from the table if and only if those amounts do not sum to zero. */
  lemma StaleExactly(db: Db, acts: seq<Action>, s: State, w: WalletId)
    requires Reaches(Initial(db), acts, s) && w in s.slots
    ensures w in s.db.wallets && s.slots[w].version < |s.versions|
    ensures s.db.wallets[w] == Credited(s.slots[w].row, MovedSince(s, w))
    ensures s.slots[w].row != s.db.wallets[w] <==> MovedSince(s, w) != 0
  {
    RunKeepsTrace(Initial(db), acts, s);
    RowsMove(s.versions, s.slots[w].version, |s.versions| - 1, w);
  }

  /** Commit k came after the entry's read and moved something on its wallet. */
  predicate MovedAfterRead(s: State, w: WalletId, k: nat)
    requires w in s.slots
  {
    s.slots[w].version < k < |s.versions| && ShiftOf(s.versions[k], w) != 0
  }

  /** An entry outlives the delete of no such commit: each of them has not worked (so far), or ran before the
      entry was stored; and a stale entry has at least one. */
  lemma StaleNeedsMissedDelete(db: Db, acts: seq<Action>, s: State, w: WalletId)
    requires Reaches(Initial(db), acts, s) && w in s.slots
    ensures forall k | MovedAfterRead(s, w, k) :: k !in s.deleted || s.deleted[k] < s.slots[w].step
    ensures w in s.db.wallets && s.slots[w].row != s.db.wallets[w] ==> exists k :: MovedAfterRead(s, w, k)
  {
    RunKeepsTrace(Initial(db), acts, s);
    StaleExactly(db, acts, s, w);
    if MovedSince(s, w) != 0 {
      var k := SomethingMoved(s.versions, s.slots[w].version, |s.versions| - 1, w);
      assert MovedAfterRead(s, w, k);
    }
    forall k: nat | MovedAfterRead(s, w, k) ensures k !in s.deleted || s.deleted[k] < s.slots[w].step {
      MovedRowIsDue(s, w, k);
    }
  }

  lemma MovedRowIsDue(s: State, w: WalletId, k: nat)
    requires Traced(s) && w in s.slots && MovedAfterRead(s, w, k)
    ensures w in s.versions[k].busted
  {
    var v := s.slots[w].version;
    RowsMove(s.versions, v, k - 1, w);
    assert Linked(s.versions, k - 1) && Proper(s.versions[k]);
  }

  predicate DeletesWork(acts: seq<Action>) {
    forall i | 0 <= i < |acts| :: acts[i].Invalidate? ==> acts[i].works
  }

  /** Every due delete is still to come or has worked. */
  predicate NoneFailed(s: State) {
    forall k | 0 <= k < |s.versions| && s.versions[k].busted != {} :: k in s.outstanding || k in s.deleted
  }

  lemma {:induction false} WorkingDeletesLeaveNone(s: State, acts: seq<Action>, end: State)
    requires NoneFailed(s) && Reaches(s, acts, end) && DeletesWork(acts)
    ensures NoneFailed(end)
    decreases |acts|
  {
    if acts != [] {
      assert acts[0].Invalidate? ==> acts[0].works;
      assert forall i | 0 <= i < |acts[1..]| :: acts[1..][i] == acts[i + 1];
      WorkingDeletesLeaveNone(Do(s, acts[0]), acts[1..], end);
    }
  }

  /** If all deletes work and none is outstanding, only a slow reader leaves a stale entry: every commit that moved
      something after the read had its delete before the entry was stored, and there is such a commit. */
  lemma OnlySlowReadersLeaveStaleRows(db: Db, acts: seq<Action>, s: State, w: WalletId)
    requires Reaches(Initial(db), acts, s) && DeletesWork(acts) && s.outstanding == {} && w in s.slots
    ensures forall k | MovedAfterRead(s, w, k) :: k in s.deleted && s.deleted[k] < s.slots[w].step
    ensures w in s.db.wallets && s.slots[w].row != s.db.wallets[w] ==> exists k :: MovedAfterRead(s, w, k)
  {
    StaleNeedsMissedDelete(db, acts, s, w);
    RunKeepsTrace(Initial(db), acts, s);
    WorkingDeletesLeaveNone(Initial(db), acts, s);
    forall k: nat | MovedAfterRead(s, w, k) ensures k in s.deleted {
      MovedRowIsDue(s, w, k);
    }
  }

  lemma RunsOn(s: State, a: Action, rest: seq<Action>, end: State)
    requires Enabled(s, a) && Reaches(Do(s, a), rest, end)
    ensures Reaches(s, [a] + rest, end)
  {
    assert ([a] + rest)[1..] == rest;
  }

  /** Such runs exist from every database and for every operation that changes a row: the entry keeps the old
      row although the table has the new one. */
  lemma SlowReaderStoresStaleRow(db: Db, op: Op, w: WalletId) returns (acts: seq<Action>, s: State)
    requires w in db.wallets && Apply(db, op).db.wallets[w] != db.wallets[w]
    ensures Reaches(Initial(db), acts, s) && DeletesWork(acts) && s.outstanding == {}
    ensures w in s.slots && s.slots[w].row == db.wallets[w] && s.db == Apply(db, op).db
  {
    assert w in ToDelete(db, op) by {
      if w !in ToDelete(db, op) { InvalidationCoversWrites(db, op, w); }
    }
    OwnersStay(db, op, w);
    var read := Do(Initial(db), ReadRow(w));
    var wrote := Do(read, Commit(op));
    var busted := Do(wrote, Invalidate(1, true));
    s := Do(busted, StoreRow(0, true));
    assert s.outstanding == {};
    RunsOn(busted, StoreRow(0, true), [], s);
    RunsOn(wrote, Invalidate(1, true), [StoreRow(0, true)] + [], s);
    acts := [Invalidate(1, true)] + ([StoreRow(0, true)] + []);
    RunsOn(read, Commit(op), acts, s);
    RunsOn(Initial(db), ReadRow(w), [Commit(op)] + acts, s);
    acts := [ReadRow(w)] + ([Commit(op)] + acts);
  }

  /** For instance a deposit of 500 on an empty wallet, with a balance query beside it. */
  lemma DepositLeavesStaleRow() returns (db: Db, acts: seq<Action>, s: State)
    ensures Reaches(Initial(db), acts, s) && DeletesWork(acts) && s.outstanding == {}
    ensures 1 in s.slots && 1 in s.db.wallets && s.slots[1].row.balance == 0 && s.db.wallets[1].balance == 500
  {
    assert Upper("INR") == "INR";
    db := EMPTY_DB.(wallets := map[1 := Wallet(7, "INR", 0)]);
    var op := Money(Deposit(1, 7, 500, "INR"), Draws(9, 0, 1, 2));
    acts, s := SlowReaderStoresStaleRow(db, op, 1);
  }

  /** The entries a backend holds when the slots are what was stored. */
  function Entries(s: State, ttl: int): map<WalletId, Entry> {
    map w | w in s.slots :: Entry(s.slots[w].row, s.slots[w].setAt + ttl)
  }

  /** A hit is what `BalanceCache.Get` gives on those entries. */
  lemma HitIsVisible(s: State, ttl: int, w: WalletId)
    ensures Visible(Entries(s, ttl), s.now, w) == if Hit(s, ttl, w) then Some(s.slots[w].row) else None
  {
  }

  /** The steps do to the entries what the commands of `BalanceCache` do, and nothing else touches them. */
  lemma StepsAreCommands(s: State, a: Action, ttl: int)
    requires Enabled(s, a)
    ensures Entries(Do(s, a), ttl) == match a
      case Invalidate(k, true) => Entries(s, ttl) - s.versions[k].busted
      case StoreRow(i, true) => Entries(s, ttl)[s.readers[i].w := Entry(s.readers[i].row, s.now + ttl)]
      case _ => Entries(s, ttl)
  {
  }

  /** A route deletes keys exactly if its operation did not raise, replays included, and exactly the keys of the
      wallets the request names. */
  lemma DeletesWhatIsNamed(db: Db, op: Op, w: WalletId)
    ensures w in ToDelete(db, op) <==>
      && op.Money? && !Apply(db, op).outcome.Failed?
      && (w == op.req.wallet || (op.req.Transfer? && w == op.req.recipient))
  {
  }

  // ----- whole requests without interleaving -----

  datatype WholeRequest = Write(op: Op) | Read(w: WalletId) | Wait(d: nat)

  /** One request from its first to its last step, with a working cache. */
  function Served(s: State, r: WholeRequest, ttl: int): State
    requires s.versions != []
  {
    match r
    case Wait(d) => Do(s, Tick(d))
    case Write(op) =>
      var t := Do(s, Commit(op));
      if ToDelete(s.db, op) == {} then t else Do(t, Invalidate(|s.versions|, true))
    case Read(w) =>
      if Hit(s, ttl, w) || w !in s.db.wallets then s else Do(Do(s, ReadRow(w)), StoreRow(|s.readers|, true))
  }

  function ServedAll(s: State, rs: seq<WholeRequest>, ttl: int): State
    requires s.versions != []
    decreases |rs|
  {
    if rs == [] then s else ServedAll(Served(s, rs[0], ttl), rs[1..], ttl)
  }

  /** What a balance query is told. */
  function Told(s: State, w: WalletId, ttl: int): Option<Wallet> {
    if Hit(s, ttl, w) then Some(s.slots[w].row) else Find(s.db.wallets, w)
  }

  /** A served request does its work: a write commits, and after a query the row is in the cache. */
  lemma ServedMeans(s: State, r: WholeRequest, ttl: int)
    requires s.versions != []
    ensures Served(s, r, ttl).db == if r.Write? then Apply(s.db, r.op).db else s.db
    ensures r.Read? && r.w in s.db.wallets && ttl > 0 ==> Hit(Served(s, r, ttl), ttl, r.w)
  {
  }

  /** Every stored row is the current one. */
  predicate Fresh(s: State) {
    forall w | w in s.slots :: w in s.db.wallets && s.slots[w].row == s.db.wallets[w]
  }

  lemma ServedStaysFresh(s: State, r: WholeRequest, ttl: int)
    requires Fresh(s) && s.versions != []
    ensures Fresh(Served(s, r, ttl))
  {
    if r.Write? {
      forall w | w in s.slots ensures w in Apply(s.db, r.op).db.wallets {
        OwnersStay(s.db, r.op, w);
      }
      forall w | w in s.slots && w !in ToDelete(s.db, r.op) ensures Apply(s.db, r.op).db.wallets[w] == s.db.wallets[w] {
        InvalidationCoversWrites(s.db, r.op, w);
      }
    }
  }

  /** When requests do not overlap and the cache works, no sequence of requests leaves a stale entry, and every
      balance query is told the committed row. */
  lemma {:induction false} AtomicRequestsStayFresh(s: State, rs: seq<WholeRequest>, ttl: int, w: WalletId)
    requires Fresh(s) && s.versions != []
    ensures Fresh(ServedAll(s, rs, ttl))
    ensures Told(ServedAll(s, rs, ttl), w, ttl) == Find(ServedAll(s, rs, ttl).db.wallets, w)
    decreases |rs|
  {
    if rs != [] {
      ServedStaysFresh(s, rs[0], ttl);
      AtomicRequestsStayFresh(Served(s, rs[0], ttl), rs[1..], ttl, w);
    }
  }

  /** One write keeps the cache fresh if and only if its delete works or it changed no stored row. */
  lemma FailedDeleteLeavesStaleRow(s: State, op: Op, works: bool)
    requires Fresh(s) && s.versions != [] && ToDelete(s.db, op) != {}
    ensures Fresh(Do(Do(s, Commit(op)), Invalidate(|s.versions|, works))) <==>
      works || forall x | x in s.slots :: Apply(s.db, op).db.wallets[x] == s.db.wallets[x]
  {
    forall x | x in s.slots ensures x in Apply(s.db, op).db.wallets {
      OwnersStay(s.db, op, x);
    }
    forall x | x in s.slots && x !in ToDelete(s.db, op) ensures Apply(s.db, op).db.wallets[x] == s.db.wallets[x] {
      InvalidationCoversWrites(s.db, op, x);
    }
    var t := Do(Do(s, Commit(op)), Invalidate(|s.versions|, works));
    if !works && Fresh(t) {
      forall x | x in s.slots ensures Apply(s.db, op).db.wallets[x] == s.db.wallets[x] {
        assert x in t.slots;
      }
    }
  }
}
