/**
  One event table and its scan horizon as a state machine: successful, failed and interrupted scans,
  restarts, and a growing chain (internal/etherfi/runfilter.go, internal/etherfi/db.go).
 */
module Horizon {
  import opened Wrappers
  import opened Chain

  /** A table row: the event, and the block up to which its scan claimed to be complete. */
  datatype Row = Row(log: Log, toBlock: nat)

  /** `lastTo` is the in-memory LastBlockTo entry; 0 means it has not been filled yet. */
  datatype Stream = Stream(typ: EventType, genesis: nat, chain: Chain, rows: seq<Row>, lastTo: nat)

  function RowsOf(logs: seq<Log>, toBlock: nat): seq<Row> {
    seq(|logs|, i requires 0 <= i < |logs| => Row(logs[i], toBlock))
  }

  /** SELECT coalesce(max(to_block), 0) */
  function MaxTo(rows: seq<Row>): nat {
    if rows == [] then 0 else Max(MaxTo(rows[..|rows| - 1]), rows[|rows| - 1].toBlock)
  }

  /** The horizon a restarted service rebuilds from the table. */
  function Persisted(s: Stream): nat { Max(s.genesis, MaxTo(s.rows)) }

  /** The horizon the service works with. */
  function HorizonOf(s: Stream): nat { if s.lastTo == 0 then Persisted(s) else s.lastTo }

  /** The furthest block claimed complete by memory or table. */
  function Reach(s: Stream): nat { Max(s.lastTo, Persisted(s)) }

  predicate OnChain(chain: Chain, typ: EventType, l: Log) {
    l.blockNr < |chain| && l in BlockLogs(chain[l.blockNr], typ, l.blockNr)
  }

  predicate Stored(s: Stream, l: Log) { exists r | r in s.rows :: r.log == l }

  /**
    What can happen next. In a scan, `now` is the latest block when the header is read, `upto` the block
    the open-ended last query really reached, `stored` how many fetched rows were inserted, `crashed`
    whether the process died before LastBlockTo was set, and `readFailed` whether the table could not
    be read for the start block (which then is 0).
   */
  datatype Action =
    | Grow
    | Restart
    | FillCache
    | Scan(readFailed: bool, now: nat, upto: nat, stored: nat, crashed: bool)

  function StartBlock(s: Stream, a: Action): nat
    requires a.Scan?
  {
    (if a.readFailed then 0 else HorizonOf(s)) + 1
  }

  function Fetched(s: Stream, a: Action, chain: Chain): seq<Log>
    requires a.Scan? && a.upto < |chain|
  {
    Logs(chain, s.typ, StartBlock(s, a), a.upto)
  }

  predicate ScanStep(s: Stream, a: Action, t: Stream)
    requires a.Scan?
  {
    && (a.readFailed ==> s.lastTo == 0)
    && |s.chain| <= a.now + 1 && StartBlock(s, a) <= a.now <= a.upto < |t.chain|
    && a.stored <= |Fetched(s, a, t.chain)|
    && t.rows == s.rows + RowsOf(Fetched(s, a, t.chain)[..a.stored], a.now)
    && t.lastTo == if a.crashed then 0 else a.now
  }

  predicate Step(s: Stream, a: Action, t: Stream) {
    && t.typ == s.typ && t.genesis == s.genesis && s.chain <= t.chain
    && match a
       case Grow => t.rows == s.rows && t.lastTo == s.lastTo
       case Restart => t.rows == s.rows && t.lastTo == 0
       case FillCache => t.rows == s.rows && t.lastTo == HorizonOf(s)
       case Scan(_, _, _, _, _) => ScanStep(s, a, t)
  }

  /** Every fetched row was inserted. */
  predicate Complete(s: Stream, a: Action, t: Stream)
    requires Step(s, a, t)
  {
    a.Scan? ==> a.stored == |Fetched(s, a, t.chain)|
  }

  predicate IsRun(states: seq<Stream>, actions: seq<Action>) {
    && |states| == |actions| + 1
    && forall i | 0 <= i < |actions| :: Step(states[i], actions[i], states[i + 1])
  }

  predicate AllComplete(states: seq<Stream>, actions: seq<Action>)
    requires IsRun(states, actions)
  {
    forall i | 0 <= i < |actions| :: Complete(states[i], actions[i], states[i + 1])
  }

  /** The step that leads to state `i`. */
  lemma StepTo(states: seq<Stream>, actions: seq<Action>, i: nat) returns (s: Stream, a: Action, t: Stream)
    requires IsRun(states, actions) && 0 < i < |states|
    ensures s == states[i - 1] && a == actions[i - 1] && t == states[i] && Step(s, a, t)
    ensures AllComplete(states, actions) ==> Complete(s, a, t)
  {
    s, a, t := states[i - 1], actions[i - 1], states[i];
    assert t == states[i - 1 + 1];
  }

  predicate Initial(s: Stream) { s.rows == [] && s.lastTo == 0 }

  /** Rows are real events of scanned blocks, and no horizon lies beyond Genesis and the head. */
  ghost predicate Grounded(s: Stream) {
    && (forall r | r in s.rows :: OnChain(s.chain, s.typ, r.log) && r.toBlock < |s.chain|)
    && Reach(s) <= Max(s.genesis, |s.chain| - 1)
  }

  /** Every event after Genesis that the service claims to have seen is in the table. */
  ghost predicate Covered(s: Stream) {
    forall l | OnChain(s.chain, s.typ, l) && s.genesis < l.blockNr <= Reach(s) :: Stored(s, l)
  }

  // ---------- helpers ----------

  lemma {:induction false} MaxToConcat(p: seq<Row>, q: seq<Row>)
    ensures MaxTo(p + q) == Max(MaxTo(p), MaxTo(q))
  {
    if q == [] {
      assert p + q == p;
    } else {
      assert (p + q)[..|p + q| - 1] == p + q[..|q| - 1];
      MaxToConcat(p, q[..|q| - 1]);
    }
  }

  lemma {:induction false} MaxToOfBatch(logs: seq<Log>, toBlock: nat)
    ensures MaxTo(RowsOf(logs, toBlock)) == if logs == [] then 0 else toBlock
  {
    if logs != [] {
      var n := |logs| - 1;
      MaxToOfBatch(logs[..n], toBlock);
      assert RowsOf(logs, toBlock)[..n] == RowsOf(logs[..n], toBlock);
    }
  }

  lemma {:induction false} MaxToIsReached(rows: seq<Row>)
    ensures forall r | r in rows :: r.toBlock <= MaxTo(rows)
    ensures MaxTo(rows) == 0 || exists r | r in rows :: r.toBlock == MaxTo(rows)
  {
    if rows != [] {
      var front, last := rows[..|rows| - 1], rows[|rows| - 1];
      assert rows == front + [last];
      MaxToIsReached(front);
      assert last in rows && forall r | r in front :: r in rows;
    }
  }

  /** The rebuilt horizon is the least block that neither Genesis nor any row's to_block exceeds. */
  lemma PersistedIsLeast(s: Stream)
    ensures s.genesis <= Persisted(s) && forall r | r in s.rows :: r.toBlock <= Persisted(s)
    ensures Persisted(s) == s.genesis || exists r | r in s.rows :: r.toBlock == Persisted(s)
  {
    MaxToIsReached(s.rows);
  }

  /** What a scan does to the rebuilt horizon. */
  lemma PersistedAfterScan(s: Stream, a: Action, t: Stream)
    requires Step(s, a, t) && a.Scan?
    ensures Persisted(t) == if a.stored == 0 then Persisted(s) else Max(Persisted(s), a.now)
  {
    var batch := Fetched(s, a, t.chain)[..a.stored];
    MaxToConcat(s.rows, RowsOf(batch, a.now));
    MaxToOfBatch(batch, a.now);
  }

  lemma FetchedMembers(s: Stream, a: Action, t: Stream, l: Log)
    requires Step(s, a, t) && a.Scan?
    ensures l in Fetched(s, a, t.chain) <==> OnChain(t.chain, s.typ, l) && StartBlock(s, a) <= l.blockNr <= a.upto
  {
    LogsMembers(t.chain, s.typ, StartBlock(s, a), a.upto, l);
  }

  /** A scan stores exactly the inserted prefix in addition. */
  lemma StoredAfterScan(s: Stream, a: Action, t: Stream, l: Log)
    requires Step(s, a, t) && a.Scan?
    ensures Stored(t, l) <==> Stored(s, l) || l in Fetched(s, a, t.chain)[..a.stored]
  {
    var batch := Fetched(s, a, t.chain)[..a.stored];
    var added := RowsOf(batch, a.now);
    if l in batch {
      var i :| 0 <= i < |batch| && batch[i] == l;
      assert added[i] in t.rows && added[i].log == l;
    }
    if Stored(s, l) {
      var r :| r in s.rows && r.log == l;
      assert r in t.rows;
    }
    if Stored(t, l) && !Stored(s, l) {
      var r :| r in t.rows && r.log == l;
      assert r in added;
    }
  }

  // ---------- safety over runs ----------

  lemma GroundedStep(s: Stream, a: Action, t: Stream)
    requires Grounded(s) && Step(s, a, t)
    ensures Grounded(t)
  {
    if a.Scan? {
      PersistedAfterScan(s, a, t);
      var batch := Fetched(s, a, t.chain)[..a.stored];
      forall r | r in t.rows ensures OnChain(t.chain, t.typ, r.log) && r.toBlock < |t.chain| {
        if r !in s.rows {
          assert r in RowsOf(batch, a.now);
          assert r.log in batch;
          FetchedMembers(s, a, t, r.log);
        }
      }
    }
  }

  lemma CoveredStep(s: Stream, a: Action, t: Stream)
    requires Grounded(s) && Covered(s)
    requires Step(s, a, t) && Complete(s, a, t)
    ensures Covered(t)
  {
    if a.Scan? {
      PersistedAfterScan(s, a, t);
    }
    forall l | OnChain(t.chain, t.typ, l) && t.genesis < l.blockNr <= Reach(t) ensures Stored(t, l) {
      if l.blockNr <= Reach(s) {
        assert OnChain(s.chain, s.typ, l);
        assert Stored(s, l);
      }
      if a.Scan? {
        FetchedMembers(s, a, t, l);
        var all := Fetched(s, a, t.chain);
        assert all[..|all|] == all;
        StoredAfterScan(s, a, t, l);
      } else {
        assert t.rows == s.rows;
      }
    }
  }

  lemma CoverageStep(s: Stream, a: Action, t: Stream)
    requires Step(s, a, t) && Complete(s, a, t)
    requires Grounded(s) && Covered(s)
    ensures Grounded(t) && Covered(t)
  {
    GroundedStep(s, a, t);
    CoveredStep(s, a, t);
  }

  lemma InitiallyCovered(s: Stream)
    requires Initial(s)
    ensures Grounded(s) && Covered(s) && Ordered(s)
  {
  }

  /** In every run whose inserts complete, the table covers every block the service claims to cover. */
  lemma {:induction false} CoverageOverRuns(states: seq<Stream>, actions: seq<Action>, i: nat)
    requires IsRun(states, actions) && AllComplete(states, actions) && i < |states|
    requires Grounded(states[0]) && Covered(states[0])
    ensures Grounded(states[i]) && Covered(states[i])
  {
    if i > 0 {
      CoverageOverRuns(states, actions, i - 1);
      var s, a, t := StepTo(states, actions, i);
      CoverageStep(s, a, t);
    }
  }

  /** In every run at all, every row is an event of the chain. */
  lemma {:induction false} GroundedOverRuns(states: seq<Stream>, actions: seq<Action>, i: nat)
    requires IsRun(states, actions) && Grounded(states[0]) && i < |states|
    ensures Grounded(states[i])
  {
    if i > 0 {
      GroundedOverRuns(states, actions, i - 1);
      GroundedStep(states[i - 1], actions[i - 1], states[i]);
    }
  }

  /** The in-memory horizon is never behind the table. */
  ghost predicate Ordered(s: Stream) { s.lastTo == 0 || s.lastTo >= Persisted(s) }

  predicate ReadsTable(a: Action) { a.Scan? ==> !a.readFailed }

  /**
    Progress: a scan that finishes moves LastBlockTo strictly forward, and with it the horizon unless it
    had to start over; growth and filling the cache leave the horizon alone, and a restart falls back to
    what the table supports. Once the chain has passed Genesis, starting over loses no ground either.
   */
  lemma HorizonMoves(s: Stream, a: Action, t: Stream)
    requires Ordered(s) && Step(s, a, t)
    ensures ReadsTable(a) || (Grounded(s) && s.genesis < |s.chain|) ==> Ordered(t)
    ensures a.Scan? && !a.crashed ==> HorizonOf(t) == a.now == t.lastTo > s.lastTo
    ensures a.Scan? && !a.crashed && ReadsTable(a) ==> HorizonOf(t) > HorizonOf(s)
    ensures a.Scan? && !a.crashed && Grounded(s) && s.genesis < |s.chain| ==> HorizonOf(t) >= HorizonOf(s)
    ensures a.Grow? || a.FillCache? ==> HorizonOf(t) == HorizonOf(s)
    ensures a.Restart? ==> HorizonOf(t) == Persisted(s) <= HorizonOf(s)
    ensures Persisted(s) <= Persisted(t)
  {
    if a.Scan? {
      PersistedAfterScan(s, a, t);
    }
  }

  /** A complete scan stores everything that was on the chain when it began, after Genesis. */
  lemma ScanCatchesUp(s: Stream, a: Action, t: Stream, l: Log)
    requires Grounded(s) && Covered(s) && Step(s, a, t) && a.Scan? && Complete(s, a, t)
    requires OnChain(s.chain, s.typ, l) && s.genesis < l.blockNr
    ensures Stored(t, l)
  {
    if l.blockNr > Reach(s) {
      FetchedMembers(s, a, t, l);
      var all := Fetched(s, a, t.chain);
      assert all[..|all|] == all;
    }
    StoredAfterScan(s, a, t, l);
  }

  /** In every run whose inserts complete, each scan catches up with the chain. */
  lemma CatchUpOverRuns(states: seq<Stream>, actions: seq<Action>, i: nat)
    requires IsRun(states, actions) && AllComplete(states, actions) && i < |actions| && actions[i].Scan?
    requires Grounded(states[0]) && Covered(states[0])
    ensures forall l | OnChain(states[i].chain, states[i].typ, l) && states[i].genesis < l.blockNr ::
              Stored(states[i + 1], l)
  {
    CoverageOverRuns(states, actions, i);
    var s, a, t := StepTo(states, actions, i + 1);
    forall l | OnChain(s.chain, s.typ, l) && s.genesis < l.blockNr ensures Stored(t, l) {
      ScanCatchesUp(s, a, t, l);
    }
  }

  // ---------- interrupted inserts ----------

  /** An event the table misses although a restarted service would not look at its block again. */
  ghost predicate Lost(s: Stream, l: Log) {
    OnChain(s.chain, s.typ, l) && s.genesis < l.blockNr <= Persisted(s) && !Stored(s, l)
  }

  lemma DroppedOrBefore(s: Stream, a: Action, t: Stream, l: Log)
    requires Grounded(s) && Covered(s) && Step(s, a, t) && a.Scan?
    requires OnChain(t.chain, t.typ, l) && t.genesis < l.blockNr <= Reach(t) && !Stored(t, l)
    ensures l.blockNr <= a.now && !(a.crashed && a.stored == 0)
    ensures exists i | a.stored <= i < |Fetched(s, a, t.chain)| :: Fetched(s, a, t.chain)[i] == l
  {
    PersistedAfterScan(s, a, t);
    StoredAfterScan(s, a, t, l);
    var all := Fetched(s, a, t.chain);
    if l.blockNr <= Reach(s) {
      assert OnChain(s.chain, s.typ, l);
      assert false;
    }
    FetchedMembers(s, a, t, l);
    forall j | 0 <= j < a.stored ensures all[j] != l {
      assert all[..a.stored][j] == all[j];
    }
    var i :| 0 <= i < |all| && all[i] == l;
  }

  /**
    A scan loses events exactly when some but not all of its rows go in and a dropped one, at or
    below the reported block, is not in the table anyway: rows carry the final block from the start.
   */
  lemma InterruptedScanLoses(s: Stream, a: Action, t: Stream)
    requires Grounded(s) && Covered(s) && Step(s, a, t) && a.Scan?
    ensures (exists l :: Lost(t, l)) <==>
            a.stored > 0 &&
            exists i | a.stored <= i < |Fetched(s, a, t.chain)| ::
              s.genesis < Fetched(s, a, t.chain)[i].blockNr <= a.now && !Stored(t, Fetched(s, a, t.chain)[i])
  {
    PersistedAfterScan(s, a, t);
    var all := Fetched(s, a, t.chain);
    forall l | Lost(t, l)
      ensures a.stored > 0 && l.blockNr <= a.now
      ensures exists i | a.stored <= i < |all| :: all[i] == l
    {
      DroppedOrBefore(s, a, t, l);
      assert a.stored == 0 ==> OnChain(s.chain, s.typ, l) && !Stored(s, l);
    }
    forall i | a.stored <= i < |all| && a.stored > 0 && s.genesis < all[i].blockNr <= a.now && !Stored(t, all[i])
      ensures Lost(t, all[i])
    {
      FetchedMembers(s, a, t, all[i]);
    }
  }

  /** Of the fetched events up to the reported block, those not inserted are in the table anyway. */
  predicate NothingMissing(s: Stream, a: Action, t: Stream)
    requires Step(s, a, t) && a.Scan?
  {
    var all := Fetched(s, a, t.chain);
    forall i | a.stored <= i < |all| && s.genesis < all[i].blockNr <= a.now :: Stored(t, all[i])
  }

  /**
    The table covers the horizon after a scan exactly when the process died before inserting anything,
    or no event up to the reported block was dropped. A scan that failed on its first row has still
    moved the horizon in memory.
   */
  lemma CoveredAfterScan(s: Stream, a: Action, t: Stream)
    requires Grounded(s) && Covered(s) && Step(s, a, t) && a.Scan?
    ensures Covered(t) <==> (a.crashed && a.stored == 0) || NothingMissing(s, a, t)
  {
    PersistedAfterScan(s, a, t);
    var all := Fetched(s, a, t.chain);
    if Covered(t) && !(a.crashed && a.stored == 0) {
      forall i | a.stored <= i < |all| && s.genesis < all[i].blockNr <= a.now ensures Stored(t, all[i]) {
        FetchedMembers(s, a, t, all[i]);
      }
    }
    if !Covered(t) {
      var l :| OnChain(t.chain, t.typ, l) && t.genesis < l.blockNr <= Reach(t) && !Stored(t, l);
      DroppedOrBefore(s, a, t, l);
    }
  }

  /** A restart forgets the horizon in memory: the table covers the one that is rebuilt unless something is lost. */
  lemma CoveredAfterRestart(s: Stream, t: Stream)
    requires Grounded(s) && Step(s, Restart, t)
    ensures Covered(t) <==> !exists l :: Lost(s, l)
  {
    assert Persisted(t) == Persisted(s) == Reach(t);
    if l :| Lost(s, l) {
      assert OnChain(t.chain, t.typ, l) && !Stored(t, l);
    }
    if !Covered(t) {
      var l :| OnChain(t.chain, t.typ, l) && t.genesis < l.blockNr <= Reach(t) && !Stored(t, l);
      assert Lost(s, l);
    }
  }

  predicate AllReadTable(actions: seq<Action>) {
    forall a | a in actions :: ReadsTable(a)
  }

  lemma LostStep(s: Stream, a: Action, t: Stream, l: Log)
    requires Ordered(s) && Lost(s, l) && Step(s, a, t) && ReadsTable(a)
    ensures Ordered(t) && Lost(t, l)
  {
    HorizonMoves(s, a, t);
    if a.Scan? {
      StoredAfterScan(s, a, t, l);
      FetchedMembers(s, a, t, l);
      assert forall x | x in Fetched(s, a, t.chain)[..a.stored] :: x in Fetched(s, a, t.chain);
    }
  }

  /** Once lost, an event stays lost through every later scan and restart. */
  lemma {:induction false} LossIsPermanent(states: seq<Stream>, actions: seq<Action>, i: nat, l: Log)
    requires IsRun(states, actions) && AllReadTable(actions) && i < |states|
    requires Ordered(states[0]) && Lost(states[0], l)
    ensures Ordered(states[i]) && Lost(states[i], l)
  {
    if i > 0 {
      LossIsPermanent(states, actions, i - 1, l);
      var s, a, t := StepTo(states, actions, i);
      assert a in actions;
      LostStep(s, a, t, l);
    }
  }
}
