/** The event tables and the periodic scan that fills them (internal/etherfi/db.go, internal/etherfi/runfilter.go). */
module Store {
  import opened Wrappers
  import opened Chain
  import opened Filterer
  import opened Horizon

  // ---------- the primary key of the delegates table ----------

  /** Two delegations of one account in one block share the primary key (addr, block, chain_id). */
  predicate SameKey(l: Log, k: Log) {
    l.Delegate? && k.Delegate? && l.addr == k.addr && l.blockNr == k.blockNr
  }

  predicate Clashes(rows: seq<Row>, l: Log) { exists r | r in rows :: SameKey(r.log, l) }

  /** How many rows of a batch a working database accepts before the first key clash. */
  function Insertable(rows: seq<Row>, logs: seq<Log>, toBlock: nat): nat
    decreases |logs|
  {
    if logs == [] || Clashes(rows, logs[0]) then 0
    else 1 + Insertable(rows + [Row(logs[0], toBlock)], logs[1..], toBlock)
  }

  lemma {:induction false} InsertableBounded(rows: seq<Row>, logs: seq<Log>, toBlock: nat)
    ensures Insertable(rows, logs, toBlock) <= |logs|
    decreases |logs|
  {
    if logs != [] {
      InsertableBounded(rows + [Row(logs[0], toBlock)], logs[1..], toBlock);
    }
  }

  /** No row is inserted from the first clash on. */
  lemma {:induction false} InsertableStopsAt(rows: seq<Row>, logs: seq<Log>, toBlock: nat, i: nat)
    requires i < |logs| && Clashes(rows, logs[i])
    ensures Insertable(rows, logs, toBlock) <= i
    decreases |logs|
  {
    if !Clashes(rows, logs[0]) {
      var r :| r in rows && SameKey(r.log, logs[i]);
      assert r in rows + [Row(logs[0], toBlock)];
      InsertableStopsAt(rows + [Row(logs[0], toBlock)], logs[1..], toBlock, i - 1);
    }
  }

  /** A batch of delegations goes in whole exactly when its keys are new and pairwise different. */
  lemma {:induction false} InsertableExactly(rows: seq<Row>, logs: seq<Log>, toBlock: nat)
    ensures Insertable(rows, logs, toBlock) == |logs| <==>
            && (forall i | 0 <= i < |logs| :: !Clashes(rows, logs[i]))
            && (forall i, j | 0 <= i < j < |logs| :: !SameKey(logs[i], logs[j]))
    decreases |logs|
  {
    if logs != [] {
      var more, rest := rows + [Row(logs[0], toBlock)], logs[1..];
      InsertableBounded(more, rest, toBlock);
      InsertableExactly(more, rest, toBlock);
      forall i | 0 <= i < |rest|
        ensures Clashes(more, rest[i]) <==> Clashes(rows, rest[i]) || SameKey(logs[0], rest[i])
      {
        assert forall r :: r in more <==> r in rows || r == Row(logs[0], toBlock);
      }
      assert forall i | 0 < i < |logs| :: logs[i] == rest[i - 1];
      assert forall i | 0 <= i < |rest| :: rest[i] == logs[i + 1];
    }
  }

  /**
    The open-ended last query can store a delegation ahead of the horizon. The next scan fetches it
    again, clashes on its key, and drops every later delegation, while its horizon passes them all.
   */
  lemma EarlyDelegationDropsLater(s: Stream, a: Action, t: Stream, early: Log, later: Log)
    requires s.typ == SetDelegateEvent && Step(s, a, t) && a.Scan? && !a.crashed && !a.readFailed
    requires a.stored <= Insertable(s.rows, Fetched(s, a, t.chain), a.now)
    requires OnChain(t.chain, s.typ, early) && OnChain(t.chain, s.typ, later)
    requires Stored(s, early) && HorizonOf(s) < early.blockNr < later.blockNr <= a.now
    requires !Stored(s, later) && s.genesis < later.blockNr
    ensures later.blockNr <= HorizonOf(t) && !Stored(t, later) && !Covered(t)
  {
    var all := Fetched(s, a, t.chain);
    FetchedMembers(s, a, t, early);
    var i :| 0 <= i < |all| && all[i] == early;
    assert early.Delegate?;
    InsertableStopsAt(s.rows, all, a.now, i);
    assert a.stored <= i;
    LogsInOrder(t.chain, s.typ, StartBlock(s, a), a.upto);
    forall j | 0 <= j < a.stored ensures all[j] != later {
      assert j < i && all[j].blockNr <= all[i].blockNr;
    }
    StoredAfterScan(s, a, t, later);
  }

  predicate InOrder(logs: seq<Log>) {
    forall i, j | 0 <= i < j < |logs| :: logs[i].blockNr <= logs[j].blockNr
  }

  /** Logs come in block order. */
  lemma {:induction false} LogsInOrder(chain: Chain, typ: EventType, lo: nat, hi: int)
    requires hi < |chain|
    ensures InOrder(Logs(chain, typ, lo, hi))
    decreases hi - lo
  {
    if lo <= hi {
      var front, last := Logs(chain, typ, lo, hi - 1), BlockLogs(chain[hi], typ, hi);
      LogsInOrder(chain, typ, lo, hi - 1);
      forall i | 0 <= i < |front| ensures front[i].blockNr < hi {
        LogsMembers(chain, typ, lo, hi - 1, front[i]);
      }
      assert forall k | 0 <= k < |last| :: last[k].blockNr == hi;
    }
  }

  predicate KeysDiffer(logs: seq<Log>) {
    forall i, j | 0 <= i < j < |logs| :: !SameKey(logs[i], logs[j])
  }

  /** The keys of a batch are new and pairwise different. */
  predicate Fits(rows: seq<Row>, logs: seq<Log>) {
    (forall i | 0 <= i < |logs| :: !Clashes(rows, logs[i])) && KeysDiffer(logs)
  }

  lemma {:induction false} InsertableOfPrefix(rows: seq<Row>, logs: seq<Log>, toBlock: nat, n: nat)
    requires n <= |logs|
    ensures Insertable(rows, logs[..n], toBlock) == Min(n, Insertable(rows, logs, toBlock))
    decreases n
  {
    if n > 0 {
      InsertableOfPrefix(rows + [Row(logs[0], toBlock)], logs[1..], toBlock, n - 1);
      assert logs[..n][1..] == logs[1..][..n - 1];
    }
  }

  /** How far an insert gets: the first n rows go in exactly when their keys are new and different. */
  lemma InsertsPrefixExactly(rows: seq<Row>, logs: seq<Log>, toBlock: nat, n: nat)
    requires n <= |logs|
    ensures n <= Insertable(rows, logs, toBlock) <==> Fits(rows, logs[..n])
  {
    InsertableOfPrefix(rows, logs, toBlock, n);
    InsertableExactly(rows, logs[..n], toBlock);
  }

  // ---------- the service's side ----------

  /** Reading the start block either fills the cache or, when the table cannot be read, changes nothing. */
  predicate StartRead(s: Stream, start: nat, m: Stream) {
    && m.typ == s.typ && m.genesis == s.genesis && m.chain == s.chain && m.rows == s.rows
    && (start == m.lastTo == HorizonOf(s) || (start == 0 && m.lastTo == s.lastTo == 0))
  }

  lemma StartReadThenStep(s: Stream, start: nat, m: Stream, b: Action, t: Stream) returns (a: Action)
    requires StartRead(s, start, m) && Step(m, b, t)
    ensures IsRun([s, m, t], [a, b]) && (a.FillCache? || a.Grow?)
  {
    a := if m.lastTo == HorizonOf(s) then FillCache else Grow;
    assert Step(s, a, m);
  }

  /** The scan that follows reads from the block after `start`. */
  lemma ScanFromStart(s: Stream, start: nat, m: Stream, b: Action, t: Stream)
    requires StartRead(s, start, m) && b.Scan? && b.readFailed == (start != HorizonOf(m)) && !b.crashed
    requires |s.chain| <= b.now + 1
    requires t.typ == s.typ && t.genesis == s.genesis && s.chain <= t.chain
    requires start + 1 <= b.now <= b.upto < |t.chain|
    requires b.stored <= |Logs(t.chain, s.typ, start + 1, b.upto)|
    requires t.rows == s.rows + RowsOf(Logs(t.chain, s.typ, start + 1, b.upto)[..b.stored], b.now)
    requires t.lastTo == b.now
    ensures StartBlock(m, b) == start + 1 && Step(m, b, t)
    ensures Fetched(m, b, t.chain) == Logs(t.chain, s.typ, start + 1, b.upto)
    ensures Complete(m, b, t) <==> b.stored == |Logs(t.chain, s.typ, start + 1, b.upto)|
  {
  }

  /** The database connection: any statement may fail. */
  class Database {
    var failures: nat // statements that failed so far

    constructor ()
      ensures failures == 0
    {
      failures := 0;
    }

    method Execute() returns (ok: bool)
      modifies this
      ensures failures == old(failures) + if ok then 0 else 1
    {
      ok := *;
      failures := failures + if ok then 0 else 1;
    }
  }

  /** Why a pass scans nothing: no header, a head the horizon has reached already, or seven failed log queries. */
  predicate PassFailed(horizon: nat, blocks: nat, asks: seq<Ask>, headerFailures: int) {
    || (headerFailures == 1 && asks == [])
    || (headerFailures == 0 && asks == [] && blocks <= horizon + 1)
    || (headerFailures == 0 && FailuresIn(asks) == TRIALS)
  }

  /** One of the two event tables with its LastBlockTo entry. */
  class EventStore {
    const typ: EventType
    const genesis: nat
    var lastBlockTo: nat
    var rows: seq<Row>

    constructor (typ: EventType, genesis: nat)
      ensures this.typ == typ && this.genesis == genesis
      ensures forall chain :: Initial(State(chain))
    {
      this.typ, this.genesis := typ, genesis;
      lastBlockTo, rows := 0, [];
    }

    ghost function State(chain: Chain): Stream
      reads this
    {
      Stream(typ, genesis, chain, rows, lastBlockTo)
    }

    /** SELECT coalesce(max(to_block), 0) */
    method QueryMaxToBlock(db: Database) returns (block: Option<nat>)
      modifies db
      ensures block.Some? ==> block.value == MaxTo(rows)
      ensures db.failures == old(db.failures) + if block.None? then 1 else 0
    {
      var ok := db.Execute();
      if !ok {
        return None;
      }
      var max := 0;
      for i := 0 to |rows|
        invariant max == MaxTo(rows[..i])
      {
        assert rows[..i + 1][..i] == rows[..i];
        max := Max(max, rows[i].toBlock);
      }
      assert rows[..|rows|] == rows;
      block := Some(max);
    }

    /** db.go DbGetDelegateStartBlock and DbGetShTknTransferStartBlock: fill LastBlockTo once, or report 0. */
    method GetStartBlock(db: Database) returns (block: nat)
      modifies `lastBlockTo, db
      ensures db.failures == old(db.failures) ==> block == lastBlockTo == HorizonOf(old(State([])))
      ensures db.failures >= old(db.failures)
      ensures db.failures != old(db.failures) ==> block == 0 && lastBlockTo == old(lastBlockTo) == 0
      ensures old(lastBlockTo) != 0 ==> db.failures == old(db.failures) && block == lastBlockTo == old(lastBlockTo)
      ensures old(lastBlockTo) == 0 && db.failures == old(db.failures) ==>
                && genesis <= block && (forall r | r in rows :: r.toBlock <= block)
                && (block == genesis || exists r | r in rows :: r.toBlock == block)
    {
      PersistedIsLeast(State([]));
      if lastBlockTo == 0 {
        var max := QueryMaxToBlock(db);
        if max.None? {
          return 0;
        }
        lastBlockTo := Max(genesis, max.value);
      }
      block := lastBlockTo;
    }

    /**
      db.go DBInsertShTknTransfer and DBInsertDelegates: prepare the statement, then insert one row at a
      time, each carrying the final block, giving up at the first error. Besides key clashes, any single
      statement may fail.
     */
    method Insert(db: Database, logs: seq<Log>, toBlock: nat) returns (ok: bool, ghost stored: nat)
      modifies `rows, db
      ensures stored <= |logs| && rows == old(rows) + RowsOf(logs[..stored], toBlock)
      ensures forall i | 0 <= i < stored :: rows[|old(rows)| + i] == Row(logs[i], toBlock)
      ensures ok <==> stored == |logs| && db.failures == old(db.failures)
      ensures stored <= Insertable(old(rows), logs, toBlock) && db.failures >= old(db.failures)
      ensures db.failures == old(db.failures) ==> stored == Insertable(old(rows), logs, toBlock)
    {
      stored := 0;
      assert RowsOf(logs[..0], toBlock) == [];
      ok := db.Execute();
      if !ok {
        return;
      }
      for i := 0 to |logs|
        invariant stored == i && rows == old(rows) + RowsOf(logs[..i], toBlock)
        invariant db.failures == old(db.failures)
        invariant Insertable(old(rows), logs, toBlock) == i + Insertable(rows, logs[i..], toBlock)
      {
        if Clashes(rows, logs[i]) {
          return false, i;
        }
        var executed := db.Execute();
        if !executed {
          return false, i;
        }
        assert RowsOf(logs[..i + 1], toBlock) == RowsOf(logs[..i], toBlock) + [Row(logs[i], toBlock)];
        assert logs[i..][1..] == logs[i + 1..];
        rows := rows + [Row(logs[i], toBlock)];
        stored := i + 1;
      }
    }

    /** runfilter.go RunFilter after the start block is known: scan, insert, move the horizon regardless. */
    method ScanAndInsert(node: Node, db: Database, start: nat, ghost s: Stream, ghost m: Stream)
      returns (scanned: bool, inserted: bool, ghost a: Action, ghost asks: seq<Ask>)
      requires m == State(node.chain) && StartRead(s, start, m)
      modifies this, node, db
      ensures Step(m, a, State(node.chain)) && a.Scan? == scanned && db.failures >= old(db.failures)
      ensures node.asked == old(node.asked) + asks
      ensures !scanned <==> PassFailed(start, |m.chain|, asks, node.headerFailures - old(node.headerFailures))
      ensures if scanned then asks != [] else a.Grow?
      ensures scanned ==> !a.crashed && a.readFailed == (start != HorizonOf(m))
      ensures scanned ==> (inserted <==> Complete(m, a, State(node.chain)) && db.failures == old(db.failures))
      ensures scanned && db.failures == old(db.failures) ==>
                a.stored == Insertable(m.rows, Fetched(m, a, node.chain), a.now)
    {
      var found;
      ghost var upto, head;
      found, upto, asks, head := FilterEvents(node, typ, start + 1);
      if found.None? {
        return false, false, Grow, asks;
      }
      var logs, now := found.value.logs, found.value.nowBlock;
      ghost var stored;
      inserted, stored := Insert(db, logs, now);
      lastBlockTo := now;
      scanned := true;
      a := Scan(start != HorizonOf(m), now, upto, stored, false);
      ghost var t := State(node.chain);
      ScanFromStart(s, start, m, a, t);
    }

    /**
      runfilter.go RunFilter, the body of one of its two goroutines: a run of the state machine. The
      horizon moves only after a successful scan, but it moves whether or not the insert succeeded.
     */
    method RunFilter(node: Node, db: Database)
      returns (scanned: bool, inserted: bool, ghost states: seq<Stream>, ghost actions: seq<Action>,
               ghost asks: seq<Ask>)
      modifies this, node, db
      ensures IsRun(states, actions) && |actions| == 2
      ensures states[0] == old(State(node.chain)) && states[2] == State(node.chain)
      ensures actions[0].FillCache? || actions[0].Grow?
      ensures node.asked == old(node.asked) + asks
      ensures !scanned <==> PassFailed(HorizonOf(states[0]), |old(node.chain)|, asks,
                                       node.headerFailures - old(node.headerFailures))
      ensures !scanned ==> actions[1].Grow?
      ensures scanned ==> actions[1].Scan? && !actions[1].crashed && |old(node.chain)| <= lastBlockTo + 1
      ensures scanned && inserted ==> AllComplete(states, actions)
      ensures scanned && !inserted ==> !AllComplete(states, actions) || db.failures > old(db.failures)
      ensures scanned && db.failures == old(db.failures) ==>
                && !actions[1].readFailed && lastBlockTo > HorizonOf(states[0])
                && actions[1].stored ==
                   Insertable(states[1].rows, Fetched(states[1], actions[1], node.chain), lastBlockTo)
    {
      ghost var s := State(node.chain);
      var start := GetStartBlock(db);
      ghost var m := State(node.chain);
      ghost var fill, a;
      scanned, inserted, a, asks := ScanAndInsert(node, db, start, s, m);
      ghost var t := State(node.chain);
      fill := StartReadThenStep(s, start, m, a, t);
      states, actions := [s, m, t], [fill, a];
    }
  }
}
