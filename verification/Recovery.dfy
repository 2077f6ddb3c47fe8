/**
  Which missing events the service can still store: continuations of a state in which every scan reaches
  the head and no insert gets past the primary key (internal/etherfi/runfilter.go, internal/etherfi/db.go).
 */
module Recovery {
  import opened Chain
  import opened Horizon
  import opened Store

  /** No insert got past the first key clash; it may have stopped earlier. */
  predicate KeysRespected(states: seq<Stream>, actions: seq<Action>)
    requires IsRun(states, actions)
  {
    forall i | 0 <= i < |actions| && actions[i].Scan? ::
      var logs := Fetched(states[i], actions[i], states[i + 1].chain);
      actions[i].stored <= Insertable(states[i].rows, logs, actions[i].now)
  }

  /** Some continuation of `s` puts the event into the table; `failedReads` admits scans from block 1. */
  ghost predicate Recoverable(s: Stream, l: Log, failedReads: bool) {
    exists states, actions ::
      Continues(s, states, actions, failedReads) && Stored(states[|states| - 1], l)
  }

  predicate Continues(s: Stream, states: seq<Stream>, actions: seq<Action>, failedReads: bool) {
    && IsRun(states, actions) && KeysRespected(states, actions) && (failedReads || AllReadTable(actions))
    && states[0] == s
  }

  /** The horizons the next scans may start from: the table's, the one in memory, or 0 after a failed read. */
  predicate StartsFrom(s: Stream, start: nat, failedReads: bool) {
    start == Persisted(s) || (start == s.lastTo && start != 0) || (start == 0 && failedReads)
  }

  function Ahead(s: Stream, start: nat): seq<Log> { Logs(s.chain, s.typ, start + 1, |s.chain| - 1) }

  /** Scanning from there, the event goes in: no key up to and including its own is taken or repeated. */
  predicate GoesIn(s: Stream, start: nat, l: Log) {
    var all := Ahead(s, start);
    exists i | 0 <= i < |all| :: all[i] == l && FitsUpTo(s.rows, all, i)
  }

  predicate FitsUpTo(rows: seq<Row>, logs: seq<Log>, i: nat)
    requires i < |logs|
  {
    Fits(rows, logs[..i + 1])
  }

  // ---------- what is blocked stays blocked ----------

  /** What a longer range adds comes after the blocks of the shorter one. */
  lemma LaterLogs(s: Stream, grown: Chain, start: nat, upto: nat)
    requires s.chain <= grown && |s.chain| <= upto + 1 <= |grown| && start < |s.chain|
    ensures Logs(grown, s.typ, start + 1, upto) == Ahead(s, start) + Logs(grown, s.typ, |s.chain|, upto)
  {
    LogsSplit(grown, s.typ, start + 1, |s.chain| - 1, upto);
    LogsStable(s.chain, grown, s.typ, start + 1, |s.chain| - 1);
  }

  lemma InFirstPart(first: seq<Log>, second: seq<Log>, i: nat)
    requires i < |first + second| && (first + second)[i] !in second
    ensures i < |first| && (first + second)[..i + 1] == first[..i + 1]
  {
    assert forall k | 0 <= k < |second| :: (first + second)[|first| + k] == second[k];
  }

  /** Up to an event both contain, a longer range is the shorter one. */
  lemma PrefixUpTo(s: Stream, grown: Chain, start: nat, upto: nat, i: nat)
    requires s.chain <= grown && |s.chain| <= upto + 1 <= |grown|
    requires i < |Logs(grown, s.typ, start + 1, upto)|
    requires OnChain(s.chain, s.typ, Logs(grown, s.typ, start + 1, upto)[i])
    ensures i < |Ahead(s, start)|
    ensures Logs(grown, s.typ, start + 1, upto)[..i + 1] == Ahead(s, start)[..i + 1]
  {
    var l := Logs(grown, s.typ, start + 1, upto)[i];
    LogsMembers(grown, s.typ, start + 1, upto, l);
    LogsMembers(grown, s.typ, |s.chain|, upto, l);
    LaterLogs(s, grown, start, upto);
    InFirstPart(Ahead(s, start), Logs(grown, s.typ, |s.chain|, upto), i);
  }

  lemma FitsBefore(rows: seq<Row>, more: seq<Row>, logs: seq<Log>)
    requires rows <= more && Fits(more, logs)
    ensures Fits(rows, logs)
  {
    forall i | 0 <= i < |logs| ensures !Clashes(rows, logs[i]) {
      assert forall r | r in rows :: r in more;
    }
  }

  /** What would go in later would have gone in before: rows and blocks only get more. */
  lemma GoesInBefore(s: Stream, t: Stream, start: nat, l: Log)
    requires s.typ == t.typ && s.chain <= t.chain && s.rows <= t.rows
    requires OnChain(s.chain, s.typ, l) && GoesIn(t, start, l)
    ensures GoesIn(s, start, l)
  {
    var all := Ahead(t, start);
    var i :| 0 <= i < |all| && all[i] == l && FitsUpTo(t.rows, all, i);
    PrefixUpTo(s, t.chain, start, |t.chain| - 1, i);
    FitsBefore(s.rows, t.rows, all[..i + 1]);
    assert Ahead(s, start)[..i + 1][i] == all[..i + 1][i];
    assert FitsUpTo(s.rows, Ahead(s, start), i);
  }

  /** What a scan inserts goes in from where it starts. */
  lemma InsertedGoesIn(s: Stream, a: Action, t: Stream, l: Log)
    requires Step(s, a, t) && a.Scan? && OnChain(s.chain, s.typ, l)
    requires a.stored <= Insertable(s.rows, Fetched(s, a, t.chain), a.now)
    requires l in Fetched(s, a, t.chain)[..a.stored]
    ensures GoesIn(s, StartBlock(s, a) - 1, l)
  {
    var all, start := Fetched(s, a, t.chain), StartBlock(s, a) - 1;
    var i :| 0 <= i < a.stored && all[i] == l;
    InsertsPrefixExactly(s.rows, all, a.now, i + 1);
    PrefixUpTo(s, t.chain, start, a.upto, i);
    assert Ahead(s, start)[..i + 1][i] == all[..i + 1][i];
    assert FitsUpTo(s.rows, Ahead(s, start), i);
  }

  /** Neither stored nor able to go in from anywhere the service may start. */
  ghost predicate Blocked(s: Stream, l: Log, failedReads: bool) {
    && OnChain(s.chain, s.typ, l) && !Stored(s, l)
    && forall start: nat | StartsFrom(s, start, failedReads) :: !GoesIn(s, start, l)
  }

  lemma NothingAheadOf(s: Stream, start: nat, l: Log)
    requires l.blockNr <= start
    ensures !GoesIn(s, start, l)
  {
    LogsMembers(s.chain, s.typ, start + 1, |s.chain| - 1, l);
  }

  lemma ScanStaysOut(s: Stream, a: Action, t: Stream, l: Log, failedReads: bool)
    requires Blocked(s, l, failedReads) && Step(s, a, t) && a.Scan? && (failedReads || ReadsTable(a))
    requires a.stored <= Insertable(s.rows, Fetched(s, a, t.chain), a.now)
    ensures !Stored(t, l)
  {
    StoredAfterScan(s, a, t, l);
    assert StartsFrom(s, StartBlock(s, a) - 1, failedReads);
    if Stored(t, l) {
      InsertedGoesIn(s, a, t, l);
      assert false;
    }
  }

  /** A new start lies at the head, or is an old one. */
  lemma StartsAfter(s: Stream, a: Action, t: Stream, start: nat, failedReads: bool)
    requires Step(s, a, t) && StartsFrom(t, start, failedReads)
    ensures StartsFrom(s, start, failedReads) || start + 1 >= |s.chain|
  {
    if a.Scan? {
      PersistedAfterScan(s, a, t);
    }
  }

  lemma BlockedStep(s: Stream, a: Action, t: Stream, l: Log, failedReads: bool)
    requires Blocked(s, l, failedReads) && Step(s, a, t) && (failedReads || ReadsTable(a))
    requires a.Scan? ==> a.stored <= Insertable(s.rows, Fetched(s, a, t.chain), a.now)
    ensures Blocked(t, l, failedReads)
  {
    if a.Scan? {
      ScanStaysOut(s, a, t, l, failedReads);
    }
    forall start: nat | StartsFrom(t, start, failedReads) ensures !GoesIn(t, start, l) {
      StartsAfter(s, a, t, start, failedReads);
      if GoesIn(t, start, l) {
        GoesInBefore(s, t, start, l);
        if start + 1 >= |s.chain| {
          NothingAheadOf(t, start, l);
        }
        assert false;
      }
    }
  }

  lemma {:induction false} BlockedOverRuns(s: Stream, states: seq<Stream>, actions: seq<Action>, i: nat, l: Log,
                                           failedReads: bool)
    requires Continues(s, states, actions, failedReads) && i < |states| && Blocked(s, l, failedReads)
    ensures Blocked(states[i], l, failedReads)
  {
    if i > 0 {
      BlockedOverRuns(s, states, actions, i - 1, l, failedReads);
      var before, a, t := StepTo(states, actions, i);
      assert a in actions;
      BlockedStep(before, a, t, l, failedReads);
    }
  }

  // ---------- what goes in can be stored ----------

  /** One scan to the head, in a database that fails only at key clashes. */
  lemma ScanToHead(s: Stream, start: nat, readFailed: bool) returns (a: Action, t: Stream)
    requires start == (if readFailed then 0 else HorizonOf(s)) && start + 1 < |s.chain|
    requires readFailed ==> s.lastTo == 0
    ensures Step(s, a, t) && a.Scan? && a.readFailed == readFailed
    ensures Fetched(s, a, t.chain) == Ahead(s, start) && a.stored == Insertable(s.rows, Ahead(s, start), a.now)
  {
    var all, head := Ahead(s, start), |s.chain| - 1;
    var stored := Insertable(s.rows, all, head);
    InsertableBounded(s.rows, all, head);
    a := Scan(readFailed, head, head, stored, false);
    t := s.(rows := s.rows + RowsOf(all[..stored], head), lastTo := head);
  }

  lemma ScanStores(s: Stream, start: nat, l: Log, readFailed: bool) returns (a: Action, t: Stream)
    requires GoesIn(s, start, l) && start == (if readFailed then 0 else HorizonOf(s))
    requires readFailed ==> s.lastTo == 0
    ensures Step(s, a, t) && a.Scan? && a.readFailed == readFailed && Stored(t, l)
    ensures a.stored <= Insertable(s.rows, Fetched(s, a, t.chain), a.now)
  {
    var all := Ahead(s, start);
    var i :| 0 <= i < |all| && all[i] == l && FitsUpTo(s.rows, all, i);
    LogsMembers(s.chain, s.typ, start + 1, |s.chain| - 1, l);
    a, t := ScanToHead(s, start, readFailed);
    InsertsPrefixExactly(s.rows, all, a.now, i + 1);
    assert all[..a.stored][i] == l;
    StoredAfterScan(s, a, t, l);
  }

  lemma OneScan(s: Stream, a: Action, t: Stream, l: Log, failedReads: bool)
    requires Step(s, a, t) && a.Scan? && (failedReads || ReadsTable(a)) && Stored(t, l)
    requires a.stored <= Insertable(s.rows, Fetched(s, a, t.chain), a.now)
    ensures Recoverable(s, l, failedReads)
  {
    var states, actions := [s, t], [a];
    assert Continues(s, states, actions, failedReads) && Stored(states[|states| - 1], l);
  }

  lemma RestartAndScan(s: Stream, m: Stream, a: Action, t: Stream, l: Log, failedReads: bool)
    requires Step(s, Restart, m) && Step(m, a, t) && a.Scan? && (failedReads || ReadsTable(a)) && Stored(t, l)
    requires a.stored <= Insertable(m.rows, Fetched(m, a, t.chain), a.now)
    ensures Recoverable(s, l, failedReads)
  {
    var states, actions := [s, m, t], [Restart, a];
    assert Continues(s, states, actions, failedReads) && Stored(states[|states| - 1], l);
  }

  lemma StartToRun(s: Stream, start: nat, l: Log, failedReads: bool)
    requires StartsFrom(s, start, failedReads) && GoesIn(s, start, l)
    ensures Recoverable(s, l, failedReads)
  {
    if start == s.lastTo && start != 0 {
      var a, t := ScanStores(s, start, l, false);
      OneScan(s, a, t, l, failedReads);
    } else {
      var restarted := s.(lastTo := 0);
      assert Ahead(restarted, start) == Ahead(s, start);
      assert GoesIn(restarted, start, l);
      var a, t := ScanStores(restarted, start, l, start != Persisted(s));
      RestartAndScan(s, restarted, a, t, l, failedReads);
    }
  }

  /**
    The exact condition for an event on the chain to reach the table still: it is there, or a scan from
    one of the possible starts meets no taken or repeated key up to it.
   */
  lemma RecoverableExactly(s: Stream, l: Log, failedReads: bool)
    requires OnChain(s.chain, s.typ, l)
    ensures Recoverable(s, l, failedReads) <==>
            || Stored(s, l)
            || GoesIn(s, Persisted(s), l)
            || (s.lastTo != 0 && GoesIn(s, s.lastTo, l))
            || (failedReads && GoesIn(s, 0, l))
  {
    if Stored(s, l) {
      var states, actions: seq<Action> := [s], [];
      assert Continues(s, states, actions, failedReads) && Stored(states[|states| - 1], l);
    } else if start: nat :| StartsFrom(s, start, failedReads) && GoesIn(s, start, l) {
      StartToRun(s, start, l, failedReads);
    } else if Recoverable(s, l, failedReads) {
      var states, actions :| Continues(s, states, actions, failedReads) && Stored(states[|states| - 1], l);
      BlockedOverRuns(s, states, actions, |states| - 1, l, failedReads);
      assert false;
    }
    assert StartsFrom(s, Persisted(s), failedReads) && (s.lastTo != 0 ==> StartsFrom(s, s.lastTo, failedReads));
    assert failedReads ==> StartsFrom(s, 0, failedReads);
  }

  // ---------- the two tables ----------

  lemma TransfersFit(rows: seq<Row>, logs: seq<Log>)
    requires forall l | l in logs :: l.Transfer?
    ensures Fits(rows, logs)
  {
    assert forall i | 0 <= i < |logs| :: logs[i] in logs;
  }

  lemma TransferGoesIn(s: Stream, start: nat, l: Log)
    requires s.typ == TokenTransferEvent && OnChain(s.chain, s.typ, l)
    ensures GoesIn(s, start, l) <==> l.blockNr > start
  {
    var all := Ahead(s, start);
    LogsMembers(s.chain, s.typ, start + 1, |s.chain| - 1, l);
    if l.blockNr > start {
      var i :| 0 <= i < |all| && all[i] == l;
      forall k | k in all ensures k.Transfer? {
        LogsMembers(s.chain, s.typ, start + 1, |s.chain| - 1, k);
      }
      TransfersFit(s.rows, all[..i + 1]);
      assert FitsUpTo(s.rows, all, i);
    }
  }

  /**
    A transfer can still be stored exactly if it is there or lies above the persisted horizon; a failed
    read of the start block recovers every one.
   */
  lemma TransfersRecoverable(s: Stream, l: Log)
    requires s.typ == TokenTransferEvent && Ordered(s) && OnChain(s.chain, s.typ, l) && l.blockNr > s.genesis
    ensures Recoverable(s, l, false) <==> Stored(s, l) || l.blockNr > Persisted(s)
    ensures Recoverable(s, l, true)
  {
    RecoverableExactly(s, l, false);
    RecoverableExactly(s, l, true);
    TransferGoesIn(s, Persisted(s), l);
    TransferGoesIn(s, s.lastTo, l);
    TransferGoesIn(s, 0, l);
  }

  /**
    A delegation stays out for good once an earlier one is stored that every scan reaching it fetches
    too: even a scan that starts over from block 1 meets the taken key first.
   */
  lemma StoredDelegationBlocksLater(s: Stream, early: Log, later: Log)
    requires s.typ == SetDelegateEvent && OnChain(s.chain, s.typ, early) && OnChain(s.chain, s.typ, later)
    requires Stored(s, early) && !Stored(s, later) && 0 < early.blockNr < later.blockNr
    requires forall start: nat | StartsFrom(s, start, true) :: start < early.blockNr || later.blockNr <= start
    ensures !Recoverable(s, later, true)
  {
    forall start: nat | StartsFrom(s, start, true) ensures !GoesIn(s, start, later) {
      if later.blockNr <= start {
        NothingAheadOf(s, start, later);
      } else {
        TakenKeyFirst(s, start, early, later);
      }
    }
    RecoverableExactly(s, later, true);
    assert StartsFrom(s, Persisted(s), true) && StartsFrom(s, 0, true);
    assert s.lastTo != 0 ==> StartsFrom(s, s.lastTo, true);
  }

  lemma FirstKeyTaken(s: Stream, start: nat, l: Log)
    requires Ahead(s, start) != [] && Clashes(s.rows, Ahead(s, start)[0])
    ensures !GoesIn(s, start, l)
  {
    var all := Ahead(s, start);
    forall i | 0 <= i < |all| ensures !FitsUpTo(s.rows, all, i) {
      assert all[..i + 1][0] == all[0];
    }
  }

  /** Below all horizons, behind a taken key on the way from block 1. */
  lemma FirstKeyBlocks(s: Stream, l: Log)
    requires OnChain(s.chain, s.typ, l) && !Stored(s, l)
    requires l.blockNr <= Persisted(s) && (s.lastTo != 0 ==> l.blockNr <= s.lastTo)
    requires Ahead(s, 0) != [] && Clashes(s.rows, Ahead(s, 0)[0])
    ensures !Recoverable(s, l, true)
  {
    FirstKeyTaken(s, 0, l);
    NothingAheadOf(s, Persisted(s), l);
    if s.lastTo != 0 {
      NothingAheadOf(s, s.lastTo, l);
    }
    RecoverableExactly(s, l, true);
  }

  lemma TakenKeyFirst(s: Stream, start: nat, early: Log, later: Log)
    requires s.typ == SetDelegateEvent && OnChain(s.chain, s.typ, early)
    requires Stored(s, early) && start < early.blockNr < later.blockNr
    ensures !GoesIn(s, start, later)
  {
    var all, head := Ahead(s, start), |s.chain| - 1;
    LogsMembers(s.chain, s.typ, start + 1, head, early);
    LogsInOrder(s.chain, s.typ, start + 1, head);
    var j :| 0 <= j < |all| && all[j] == early;
    assert early.Delegate? && SameKey(early, early);
    assert Clashes(s.rows, early);
    forall i | 0 <= i < |all| && all[i] == later ensures !FitsUpTo(s.rows, all, i) {
      assert j < i;
      assert all[..i + 1][j] == early;
    }
  }
}
