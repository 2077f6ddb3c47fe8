/** When the delegates table is complete: the primary key (addr, block, chain_id) meets overlapping scans. */
module Delegates {
  import opened Chain
  import opened Horizon
  import opened Recovery
  import opened Store

  /** No insert failed for any reason but a key clash. */
  predicate DatabaseWorked(states: seq<Stream>, actions: seq<Action>)
    requires IsRun(states, actions)
  {
    forall i | 0 <= i < |actions| && actions[i].Scan? ::
      var logs := Fetched(states[i], actions[i], states[i + 1].chain);
      actions[i].stored == Insertable(states[i].rows, logs, actions[i].now)
  }

  lemma {:induction false} TransfersNeverClash(rows: seq<Row>, logs: seq<Log>, toBlock: nat)
    requires forall l | l in logs :: l.Transfer?
    ensures Insertable(rows, logs, toBlock) == |logs|
    decreases |logs|
  {
    if logs != [] {
      assert logs[0].Transfer? && !Clashes(rows, logs[0]);
      TransfersNeverClash(rows + [Row(logs[0], toBlock)], logs[1..], toBlock);
    }
  }

  /** The transfer table has no such key, so with a working database its scans always complete. */
  lemma TransferScansComplete(states: seq<Stream>, actions: seq<Action>)
    requires IsRun(states, actions) && DatabaseWorked(states, actions)
    requires forall s | s in states :: s.typ == TokenTransferEvent
    ensures AllComplete(states, actions)
  {
    forall i | 0 <= i < |actions| ensures Complete(states[i], actions[i], states[i + 1]) {
      if actions[i].Scan? {
        var s, a, t := states[i], actions[i], states[i + 1];
        var logs := Fetched(s, a, t.chain);
        forall l | l in logs ensures l.Transfer? {
          FetchedMembers(s, a, t, l);
        }
        TransfersNeverClash(s.rows, logs, a.now);
      }
    }
  }

  // ---------- delegations ----------

  /** No account delegates twice in the block. */
  predicate OneEach(block: Block) {
    forall i, j | 0 <= i < j < |block.delegations| :: block.delegations[i].trader != block.delegations[j].trader
  }

  predicate OneDelegationPerBlock(chain: Chain) {
    forall n | 0 <= n < |chain| :: OneEach(chain[n])
  }

  lemma BlockKeysDiffer(block: Block, n: nat)
    ensures KeysDiffer(DelegateLogs(block.delegations, n)) <==> OneEach(block)
  {
    var logs := DelegateLogs(block.delegations, n);
    assert forall i, j | 0 <= i < j < |logs| ::
        SameKey(logs[i], logs[j]) <==> block.delegations[i].trader == block.delegations[j].trader;
  }

  /** Keys repeat in a range exactly when an account delegates twice in one of its blocks. */
  lemma {:induction false} FetchedKeysDiffer(chain: Chain, lo: nat, hi: int)
    requires hi < |chain|
    ensures KeysDiffer(Logs(chain, SetDelegateEvent, lo, hi)) <==> forall n | lo <= n <= hi :: OneEach(chain[n])
    decreases hi - lo
  {
    if lo <= hi {
      var front, last := Logs(chain, SetDelegateEvent, lo, hi - 1), DelegateLogs(chain[hi].delegations, hi);
      FetchedKeysDiffer(chain, lo, hi - 1);
      BlockKeysDiffer(chain[hi], hi);
      forall i | 0 <= i < |front| ensures front[i].blockNr < hi {
        LogsMembers(chain, SetDelegateEvent, lo, hi - 1, front[i]);
      }
      KeysDifferConcat(front, last);
    }
  }

  lemma KeysDifferConcat(front: seq<Log>, last: seq<Log>)
    requires forall l, k | l in front && k in last :: !SameKey(l, k)
    ensures KeysDiffer(front + last) <==> KeysDiffer(front) && KeysDiffer(last)
  {
    var all := front + last;
    assert forall i | 0 <= i < |front| :: all[i] == front[i];
    assert forall i | 0 <= i < |last| :: all[|front| + i] == last[i];
    if KeysDiffer(front) && KeysDiffer(last) {
      forall i, j | 0 <= i < j < |all| ensures !SameKey(all[i], all[j]) {
        if i >= |front| {
          assert all[i] == last[i - |front|] && all[j] == last[j - |front|];
        }
      }
    }
  }

  /** Rows never lie beyond the block they were stored with, nor the horizon behind the table. */
  ghost predicate Tight(s: Stream) {
    Ordered(s) && forall r | r in s.rows :: r.log.blockNr <= r.toBlock
  }

  lemma {:induction false} RowBelowMax(rows: seq<Row>, r: Row)
    requires r in rows
    ensures r.toBlock <= MaxTo(rows)
  {
    if r != rows[|rows| - 1] {
      RowBelowMax(rows[..|rows| - 1], r);
    }
  }

  /** The open-ended last query of the scan saw no event beyond the block reported by the header. */
  predicate NothingFetchedEarly(s: Stream, a: Action, t: Stream)
    requires Step(s, a, t)
  {
    a.Scan? ==> forall l | l in Fetched(s, a, t.chain) :: l.blockNr <= a.now
  }

  predicate NothingEarly(states: seq<Stream>, actions: seq<Action>)
    requires IsRun(states, actions)
  {
    forall i | 0 <= i < |actions| :: NothingFetchedEarly(states[i], actions[i], states[i + 1])
  }

  lemma TightStep(s: Stream, a: Action, t: Stream)
    requires Tight(s) && Step(s, a, t) && ReadsTable(a) && NothingFetchedEarly(s, a, t)
    ensures Tight(t)
  {
    HorizonMoves(s, a, t);
    if a.Scan? {
      var batch := Fetched(s, a, t.chain)[..a.stored];
      forall r | r in t.rows ensures r.log.blockNr <= r.toBlock {
        if r !in s.rows {
          assert r in RowsOf(batch, a.now);
          assert r.log in batch;
        }
      }
    }
  }

  /** With one delegation per account and block, the key identifies the event. */
  lemma KeyIdentifies(chain: Chain, l: Log, k: Log)
    requires OneDelegationPerBlock(chain) && SameKey(l, k)
    requires OnChain(chain, SetDelegateEvent, l) && OnChain(chain, SetDelegateEvent, k)
    ensures l == k
  {
    var n, ds := l.blockNr, chain[l.blockNr].delegations;
    var i :| 0 <= i < |ds| && DelegateLogs(ds, n)[i] == l;
    var j :| 0 <= j < |ds| && DelegateLogs(ds, n)[j] == k;
    assert ds[i].trader == ds[j].trader;
  }

  lemma ClashesExactly(s: Stream, a: Action, t: Stream, l: Log)
    requires Grounded(s) && Step(s, a, t) && a.Scan? && s.typ == SetDelegateEvent && OneDelegationPerBlock(t.chain)
    requires l in Fetched(s, a, t.chain)
    ensures Clashes(s.rows, l) <==> Stored(s, l)
  {
    FetchedMembers(s, a, t, l);
    forall r | r in s.rows && SameKey(r.log, l) ensures r.log == l {
      KeyIdentifies(t.chain, r.log, l);
    }
    assert SameKey(l, l);
  }

  /**
    With a working database, a scan of delegations is complete exactly when no fetched key is in the table
    and no account delegates twice in a fetched block. Without such blocks, what matters is that no fetched
    event is in the table already.
   */
  lemma DelegateScanExactly(s: Stream, a: Action, t: Stream)
    requires Step(s, a, t) && a.Scan? && s.typ == SetDelegateEvent
    requires a.stored == Insertable(s.rows, Fetched(s, a, t.chain), a.now)
    ensures Complete(s, a, t) <==>
            && (forall l | l in Fetched(s, a, t.chain) :: !Clashes(s.rows, l))
            && (forall n | StartBlock(s, a) <= n <= a.upto :: OneEach(t.chain[n]))
    ensures Grounded(s) && OneDelegationPerBlock(t.chain) ==>
              (Complete(s, a, t) <==> forall l | l in Fetched(s, a, t.chain) :: !Stored(s, l))
  {
    var logs := Fetched(s, a, t.chain);
    FetchedKeysDiffer(t.chain, StartBlock(s, a), a.upto);
    InsertableExactly(s.rows, logs, a.now);
    assert forall i | 0 <= i < |logs| :: logs[i] in logs;
    if Grounded(s) && OneDelegationPerBlock(t.chain) {
      forall l | l in logs ensures Clashes(s.rows, l) <==> Stored(s, l) {
        ClashesExactly(s, a, t, l);
      }
    }
  }

  lemma TightScanCompletes(s: Stream, a: Action, t: Stream)
    requires Tight(s) && Step(s, a, t) && a.Scan? && !a.readFailed
    requires s.typ == SetDelegateEvent && OneDelegationPerBlock(t.chain)
    requires a.stored == Insertable(s.rows, Fetched(s, a, t.chain), a.now)
    ensures Complete(s, a, t)
  {
    forall l | l in Fetched(s, a, t.chain) ensures !Clashes(s.rows, l) {
      FetchedMembers(s, a, t, l);
      forall r | r in s.rows ensures !SameKey(r.log, l) {
        RowBelowMax(s.rows, r);
      }
    }
    DelegateScanExactly(s, a, t);
  }

  lemma {:induction false} TightOverRuns(states: seq<Stream>, actions: seq<Action>, i: nat)
    requires IsRun(states, actions) && AllReadTable(actions) && NothingEarly(states, actions)
    requires Initial(states[0]) && i < |states|
    ensures Tight(states[i])
  {
    if i > 0 {
      TightOverRuns(states, actions, i - 1);
      assert actions[i - 1] in actions;
      TightStep(states[i - 1], actions[i - 1], states[i]);
    }
  }

  /**
    Delegations are complete over every run in which no account delegates twice in a block and no
    delegation is made between the header query and the open-ended last query of a scan.
   */
  lemma DelegateScansComplete(states: seq<Stream>, actions: seq<Action>)
    requires IsRun(states, actions) && DatabaseWorked(states, actions) && AllReadTable(actions)
    requires NothingEarly(states, actions)
    requires forall s | s in states :: s.typ == SetDelegateEvent && OneDelegationPerBlock(s.chain)
    requires Initial(states[0])
    ensures AllComplete(states, actions)
  {
    forall i | 0 <= i < |actions| ensures Complete(states[i], actions[i], states[i + 1]) {
      if actions[i].Scan? {
        TightOverRuns(states, actions, i);
        assert actions[i] in actions;
        assert states[i] in states && states[i + 1] in states;
        TightScanCompletes(states[i], actions[i], states[i + 1]);
      }
    }
  }

  // ---------- hidden delegations ----------

  /** The service believes to have covered the event, the table misses it, and no continuation can store it. */
  ghost predicate Hidden(s: Stream, l: Log) {
    && OnChain(s.chain, s.typ, l) && s.genesis < l.blockNr <= HorizonOf(s)
    && !Stored(s, l) && !Recoverable(s, l, true)
  }

  const QUIET := Block([], [])

  function Chain2(early: DelegateEvent): Chain { [QUIET, QUIET, Block([], [early])] }

  function Chain3(early: DelegateEvent, late: DelegateEvent): Chain {
    [QUIET, QUIET, Block([], [early]), Block([], [late])]
  }

  /**
    Being mined during the scan is enough: block 2 comes while the first scan, up to block 1, is under
    way. With a working database, the early delegation then hides the next, for good.
   */
  lemma OverlapHidesDelegation(early: DelegateEvent, late: DelegateEvent)
    returns (states: seq<Stream>, actions: seq<Action>, hidden: Log)
    ensures IsRun(states, actions) && DatabaseWorked(states, actions) && AllReadTable(actions)
    ensures Initial(states[0]) && forall s | s in states :: OneDelegationPerBlock(s.chain)
    ensures Hidden(states[|actions|], hidden)
  {
    var earlyLog := Delegate(early.trader, early.delegate, early.index, 2);
    hidden := Delegate(late.trader, late.delegate, late.index, 3);
    var s0 := Stream(SetDelegateEvent, 0, [QUIET, QUIET], [], 0);
    var s1 := Stream(SetDelegateEvent, 0, Chain2(early), [Row(earlyLog, 1)], 1);
    var s2 := Stream(SetDelegateEvent, 0, Chain3(early, late), [Row(earlyLog, 1)], 3);
    var first, second := Scan(false, 1, 2, 1, false), Scan(false, 3, 3, 0, false);
    FirstScan(early, earlyLog, s0, first, s1);
    SecondScan(early, late, earlyLog, hidden, s1, second, s2);
    states, actions := [s0, s1, s2], [first, second];
    OverlapIsForGood(early, late, earlyLog, hidden, s2);
  }

  lemma OverlapIsForGood(early: DelegateEvent, late: DelegateEvent, earlyLog: Log, hidden: Log, s: Stream)
    requires earlyLog == Delegate(early.trader, early.delegate, early.index, 2)
    requires hidden == Delegate(late.trader, late.delegate, late.index, 3)
    requires s == Stream(SetDelegateEvent, 0, Chain3(early, late), [Row(earlyLog, 1)], 3)
    ensures Hidden(s, hidden)
  {
    assert DelegateLogs([early], 2)[0] == earlyLog && DelegateLogs([late], 3)[0] == hidden;
    assert s.rows[..0] == [] && MaxTo([]) == 0 && Persisted(s) == 1;
    assert Row(earlyLog, 1) in s.rows;
    StoredDelegationBlocksLater(s, earlyLog, hidden);
  }

  lemma FirstScan(early: DelegateEvent, earlyLog: Log, s0: Stream, a: Action, s1: Stream)
    requires earlyLog == Delegate(early.trader, early.delegate, early.index, 2)
    requires s0 == Stream(SetDelegateEvent, 0, [QUIET, QUIET], [], 0) && a == Scan(false, 1, 2, 1, false)
    requires s1 == Stream(SetDelegateEvent, 0, Chain2(early), [Row(earlyLog, 1)], 1)
    ensures Step(s0, a, s1) && Insertable(s0.rows, Fetched(s0, a, s1.chain), a.now) == a.stored
  {
    FirstFetch(s1.chain, early, earlyLog);
    assert [earlyLog][..1] == [earlyLog];
    assert RowsOf([earlyLog], 1) == [Row(earlyLog, 1)];
    assert [earlyLog][1..] == [];
    assert Insertable([Row(earlyLog, 1)], [], 1) == 0;
  }

  lemma SecondScan(early: DelegateEvent, late: DelegateEvent, earlyLog: Log, lateLog: Log,
                   s1: Stream, a: Action, s2: Stream)
    requires earlyLog == Delegate(early.trader, early.delegate, early.index, 2)
    requires lateLog == Delegate(late.trader, late.delegate, late.index, 3)
    requires s1 == Stream(SetDelegateEvent, 0, Chain2(early), [Row(earlyLog, 1)], 1)
    requires a == Scan(false, 3, 3, 0, false)
    requires s2 == Stream(SetDelegateEvent, 0, Chain3(early, late), [Row(earlyLog, 1)], 3)
    ensures Step(s1, a, s2) && Insertable(s1.rows, Fetched(s1, a, s2.chain), a.now) == a.stored
  {
    SecondFetch(s2.chain, early, late, earlyLog, lateLog);
    assert RowsOf([earlyLog, lateLog][..0], 3) == [];
    assert Row(earlyLog, 1) in s1.rows && SameKey(earlyLog, earlyLog);
  }

  lemma FirstFetch(chain: Chain, early: DelegateEvent, earlyLog: Log)
    requires chain == [QUIET, QUIET, Block([], [early])]
    requires earlyLog == Delegate(early.trader, early.delegate, early.index, 2)
    ensures Logs(chain, SetDelegateEvent, 1, 2) == [earlyLog]
  {
    assert Logs(chain, SetDelegateEvent, 1, 0) == [];
    assert Logs(chain, SetDelegateEvent, 1, 1) == [];
    assert DelegateLogs([early], 2) == [earlyLog];
  }

  lemma SecondFetch(chain: Chain, early: DelegateEvent, late: DelegateEvent, earlyLog: Log, lateLog: Log)
    requires chain == [QUIET, QUIET, Block([], [early]), Block([], [late])]
    requires earlyLog == Delegate(early.trader, early.delegate, early.index, 2)
    requires lateLog == Delegate(late.trader, late.delegate, late.index, 3)
    ensures Logs(chain, SetDelegateEvent, 2, 3) == [earlyLog, lateLog]
  {
    assert Logs(chain, SetDelegateEvent, 2, 1) == [];
    assert DelegateLogs([early], 2) == [earlyLog];
    assert Logs(chain, SetDelegateEvent, 2, 2) == [earlyLog];
    assert DelegateLogs([late], 3) == [lateLog];
  }

  /** Block 1 holds two delegations of one account and one of another. */
  function TwiceChain(d: DelegateEvent, again: DelegateEvent, other: DelegateEvent): Chain {
    [QUIET, Block([], [d, again, other])]
  }

  lemma TwiceFetch(d: DelegateEvent, again: DelegateEvent, other: DelegateEvent)
    ensures Logs(TwiceChain(d, again, other), SetDelegateEvent, 1, 1) == DelegateLogs([d, again, other], 1)
  {
    assert Logs(TwiceChain(d, again, other), SetDelegateEvent, 1, 0) == [];
  }

  lemma TwiceInsertable(d: DelegateEvent, again: DelegateEvent, other: DelegateEvent)
    requires d.trader == again.trader
    ensures Insertable([], DelegateLogs([d, again, other], 1), 1) == 1
  {
    var logs := DelegateLogs([d, again, other], 1);
    assert [] + [Row(logs[0], 1)] == [Row(logs[0], 1)];
    assert Row(logs[0], 1) in [Row(logs[0], 1)] && SameKey(logs[0], logs[1]);
    assert logs[1..][0] == logs[1];
  }

  lemma TwiceScan(d: DelegateEvent, again: DelegateEvent, other: DelegateEvent, s: Stream, a: Action, t: Stream)
    requires d.trader == again.trader && a == Scan(false, 1, 1, 1, false)
    requires s == Stream(SetDelegateEvent, 0, [QUIET], [], 0)
    requires t == Stream(SetDelegateEvent, 0, TwiceChain(d, again, other),
                         [Row(DelegateLogs([d, again, other], 1)[0], 1)], 1)
    ensures Step(s, a, t) && Insertable(s.rows, Fetched(s, a, t.chain), a.now) == a.stored
    ensures forall l | l in Fetched(s, a, t.chain) :: l.blockNr <= a.now
  {
    var logs := DelegateLogs([d, again, other], 1);
    TwiceFetch(d, again, other);
    TwiceInsertable(d, again, other);
    assert RowsOf(logs[..1], 1) == [Row(logs[0], 1)];
  }

  /**
    An account that delegates twice in one block hides whoever follows: from the empty table, with a
    working database and nothing stored before.
   */
  lemma TwiceInABlockHides(d: DelegateEvent, again: DelegateEvent, other: DelegateEvent)
    returns (states: seq<Stream>, actions: seq<Action>, hidden: Log)
    requires d.trader == again.trader != other.trader
    ensures IsRun(states, actions) && DatabaseWorked(states, actions) && AllReadTable(actions)
    ensures NothingEarly(states, actions) && Initial(states[0]) && |actions| == 1
    ensures hidden == Delegate(other.trader, other.delegate, other.index, 1) && Hidden(states[1], hidden)
  {
    var logs := DelegateLogs([d, again, other], 1);
    var s := Stream(SetDelegateEvent, 0, [QUIET], [], 0);
    var t := Stream(SetDelegateEvent, 0, TwiceChain(d, again, other), [Row(logs[0], 1)], 1);
    var a := Scan(false, 1, 1, 1, false);
    hidden := logs[2];
    TwiceScan(d, again, other, s, a, t);
    states, actions := [s, t], [a];
    TwiceIsForGood(d, again, other, t);
  }

  lemma TwiceIsForGood(d: DelegateEvent, again: DelegateEvent, other: DelegateEvent, s: Stream)
    requires d.trader == again.trader != other.trader
    requires s == Stream(SetDelegateEvent, 0, TwiceChain(d, again, other),
                         [Row(DelegateLogs([d, again, other], 1)[0], 1)], 1)
    ensures Hidden(s, Delegate(other.trader, other.delegate, other.index, 1))
  {
    var logs := DelegateLogs([d, again, other], 1);
    var hidden := logs[2];
    assert s.rows[..0] == [] && MaxTo([]) == 0 && Persisted(s) == 1;
    TwiceFetch(d, again, other);
    assert s.rows[0] in s.rows && SameKey(logs[0], logs[0]);
    FirstKeyBlocks(s, hidden);
  }
}
