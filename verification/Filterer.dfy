/** The event scanner (internal/filterer/filterer.go, FilterEvents). */
module Filterer {
  import opened Wrappers
  import opened Chain

  /** filterer.go: how many retries, the first range length, and the shortest one ever queried. */
  const TRIALS := 7
  const FIRST_DELTA := 10_000
  const LAST_DELTA := 156

  /** A log query as the node saw it: its inclusive range, open-ended without `end`, and whether it was answered. */
  datatype Ask = Ask(start: nat, end: Option<nat>, answered: bool)

  /** An RPC client: its view of the chain grows between calls, and any call may fail. */
  class Node {
    var chain: Chain
    var asked: seq<Ask>    // the log queries made so far
    var headerFailures: nat // header queries that failed so far

    constructor (chain: Chain)
      ensures this.chain == chain && asked == [] && headerFailures == 0
    {
      this.chain := chain;
      asked, headerFailures := [], 0;
    }

    method Grow()
      modifies `chain
      ensures old(chain) <= chain
    {
      var mined: seq<Block> := *;
      chain := chain + mined;
    }

    /** The number of the latest block. */
    method HeaderByNumber() returns (head: Option<nat>)
      modifies `chain, `headerFailures
      ensures old(chain) <= chain && headerFailures == old(headerFailures) + if head.None? then 1 else 0
      ensures head.Some? ==> head.value == |chain| - 1
    {
      Grow();
      head := None;
      if * {
        head := if |chain| == 0 then None else Some(|chain| - 1);
      }
      headerFailures := headerFailures + if head.None? then 1 else 0;
    }

    /** FilterSetDelegate or FilterTransfer over [start, end]; no end means up to the latest block. */
    method FilterLogs(typ: EventType, start: nat, end: Option<nat>) returns (logs: Option<seq<Log>>)
      requires end.Some? ==> end.value < |chain|
      modifies `chain, `asked
      ensures old(chain) <= chain && asked == old(asked) + [Ask(start, end, logs.Some?)]
      ensures logs.Some? ==>
                logs.value == Logs(chain, typ, start, if end.Some? then end.value else |chain| - 1)
    {
      Grow();
      logs := None;
      if * {
        logs := Some(Logs(chain, typ, start, if end.Some? then end.value else |chain| - 1));
      }
      asked := asked + [Ask(start, end, logs.Some?)];
    }
  }

  /** The result of a scan: the collected logs, and the block up to which they are claimed complete. */
  datatype ScanResult = ScanResult(logs: seq<Log>, nowBlock: nat)

  // ---------- which queries a scan makes ----------

  /** Range length after so many failures: halved each time, with the truncation of integer division. */
  function Delta(failures: nat): nat {
    if failures == 0 then FIRST_DELTA else Delta(failures - 1) / 2
  }

  /** The range lengths, from the first trial to the seventh. */
  lemma DeltaValues(failures: nat)
    requires failures < 7
    ensures Delta(failures) == [10_000, 5_000, 2_500, 1_250, 625, 312, 156][failures]
  {
    assert Delta(0) == 10_000 && Delta(1) == 5_000 && Delta(2) == 2_500 && Delta(3) == 1_250;
    assert Delta(4) == 625 && Delta(5) == 312 && Delta(6) == 156;
  }

  lemma DeltaNeverBelow(failures: nat)
    requires failures < TRIALS
    ensures Delta(failures) >= LAST_DELTA && Delta(TRIALS - 1) == LAST_DELTA
  {
    DeltaValues(failures);
    DeltaValues(TRIALS - 1);
  }

  function FailuresIn(asks: seq<Ask>): nat {
    if asks == [] then 0
    else FailuresIn(asks[..|asks| - 1]) + if asks[|asks| - 1].answered then 0 else 1
  }

  /** The first block not read yet: a failed query leaves it where it was. */
  function Position(asks: seq<Ask>, startBlock: nat): nat {
    if asks == [] then startBlock
    else
      var last := asks[|asks| - 1];
      if last.answered && last.end.Some? then last.end.value + 1 else Position(asks[..|asks| - 1], startBlock)
  }

  /** The open-ended query has been answered. */
  predicate Finished(asks: seq<Ask>) {
    asks != [] && asks[|asks| - 1].answered && asks[|asks| - 1].end.None?
  }

  function RangeEnd(start: nat, delta: nat, now: nat): Option<nat> {
    if start + delta >= now then None else Some(start + delta)
  }

  /** Each query starts where the answered ones ended, with the range length due after so many failures. */
  predicate FollowsPlan(asks: seq<Ask>, startBlock: nat, now: nat) {
    asks != [] ==>
      var front, last := asks[..|asks| - 1], asks[|asks| - 1];
      && FollowsPlan(front, startBlock, now) && !Finished(front) && FailuresIn(front) < TRIALS
      && last.start == Position(front, startBlock)
      && last.end == RangeEnd(last.start, Delta(FailuresIn(front)), now)
  }

  /** The most log queries a scan of [start, now] makes. */
  function QueryBound(start: nat, now: nat): nat
    requires start <= now
  {
    (now - start) / (LAST_DELTA + 1) + TRIALS
  }

  /** Every answered query but the last moves on by at least 157 blocks. */
  lemma {:induction false} PlanAdvances(asks: seq<Ask>, startBlock: nat, now: nat)
    requires FollowsPlan(asks, startBlock, now) && startBlock <= now
    ensures FailuresIn(asks) <= if Finished(asks) then TRIALS - 1 else TRIALS
    ensures var advances := |asks| - FailuresIn(asks) - if Finished(asks) then 1 else 0;
            startBlock + advances * (LAST_DELTA + 1) <= Position(asks, startBlock) <= now
  {
    if asks != [] {
      var front := asks[..|asks| - 1];
      PlanAdvances(front, startBlock, now);
      DeltaNeverBelow(FailuresIn(front));
    }
  }

  lemma ScanWorkBound(asks: seq<Ask>, startBlock: nat, now: nat)
    requires FollowsPlan(asks, startBlock, now) && startBlock <= now
    ensures |asks| <= QueryBound(startBlock, now)
  {
    PlanAdvances(asks, startBlock, now);
  }

  /** What is asked for after so many failures, from `start` on: a range cut short of the head, or the open end. */
  predicate AsksFrom(ask: Ask, failures: nat, now: nat) {
    && failures < 7
    && var d := [10_000, 5_000, 2_500, 1_250, 625, 312, 156][failures];
       ask.end == if ask.start + d < now then Some(ask.start + d) else None
  }

  /** The position after some queries, from the last of them. */
  lemma LastStart(asks: seq<Ask>, startBlock: nat, now: nat)
    requires FollowsPlan(asks, startBlock, now) && asks != [] && !Finished(asks)
    ensures var last := asks[|asks| - 1];
            if last.answered then last.end.Some? && Position(asks, startBlock) == last.end.value + 1
            else Position(asks, startBlock) == last.start
  {
  }

  /**
    The plan query by query: the first starts at the start block, an answered range is followed by the
    block after it, a failed one is asked again from its start with half the length.
   */
  lemma {:induction false} PlanMeaning(asks: seq<Ask>, startBlock: nat, now: nat, i: nat)
    requires FollowsPlan(asks, startBlock, now) && i < |asks|
    ensures AsksFrom(asks[i], FailuresIn(asks[..i]), now)
    ensures i == 0 ==> asks[i].start == startBlock
    ensures i > 0 && !asks[i - 1].answered ==> asks[i].start == asks[i - 1].start
    ensures i > 0 && asks[i - 1].answered ==>
              asks[i - 1].end.Some? && asks[i].start == asks[i - 1].end.value + 1
    decreases |asks|
  {
    var front := asks[..|asks| - 1];
    if i < |front| {
      PlanMeaning(front, startBlock, now, i);
      assert front[..i] == asks[..i];
    } else {
      DeltaValues(FailuresIn(front));
      if i > 0 {
        LastStart(front, startBlock, now);
      }
    }
  }

  /** A plan under way: the position reached and the failures so far. */
  predicate OnPlan(asks: seq<Ask>, startBlock: nat, now: nat, position: nat, failures: nat) {
    && FollowsPlan(asks, startBlock, now) && !Finished(asks)
    && Position(asks, startBlock) == position && FailuresIn(asks) == failures
  }

  lemma NextAsk(asks: seq<Ask>, answered: bool, startBlock: nat, now: nat, position: nat, failures: nat)
    requires OnPlan(asks, startBlock, now, position, failures) && failures < TRIALS
    ensures var end := RangeEnd(position, Delta(failures), now);
            var next := asks + [Ask(position, end, answered)];
            if !answered then OnPlan(next, startBlock, now, position, failures + 1)
            else if end.Some? then OnPlan(next, startBlock, now, end.value + 1, failures)
            else FollowsPlan(next, startBlock, now) && Finished(next) && FailuresIn(next) == failures
  {
    assert forall ask :: (asks + [ask])[..|asks|] == asks;
  }

  // ---------- the scan ----------

  /** Everything in [startBlock, start - 1] has been read, in order and once. */
  ghost predicate ReadSoFar(chain: Chain, typ: EventType, startBlock: nat, start: nat, logs: seq<Log>) {
    && startBlock <= start <= |chain|
    && logs == Logs(chain, typ, startBlock, start - 1)
  }

  /** A scan under way: what has been read, and which queries were made for it. */
  ghost predicate Reading(chain: Chain, typ: EventType, startBlock: nat, now: nat, start: nat,
                          logs: seq<Log>, asks: seq<Ask>, failures: nat) {
    && start <= now < |chain| && ReadSoFar(chain, typ, startBlock, start, logs)
    && OnPlan(asks, startBlock, now, start, failures)
  }

  /** A finished scan: everything up to `upto`, the end of the open-ended query, has been read. */
  ghost predicate ReadThrough(chain: Chain, typ: EventType, startBlock: nat, now: nat, upto: nat,
                              logs: seq<Log>, asks: seq<Ask>) {
    && now <= upto < |chain| && ReadSoFar(chain, typ, startBlock, upto + 1, logs)
    && FollowsPlan(asks, startBlock, now) && Finished(asks)
  }

  /** One query: a failure keeps position and logs, an answer extends both by exactly the range asked. */
  lemma AfterQuery(seen: Chain, chain: Chain, typ: EventType, startBlock: nat, now: nat, start: nat,
                   logs: seq<Log>, asks: seq<Ask>, failures: nat, end: Option<nat>, fetched: Option<seq<Log>>)
    requires Reading(seen, typ, startBlock, now, start, logs, asks, failures) && seen <= chain
    requires failures < TRIALS && end == RangeEnd(start, Delta(failures), now)
    requires fetched.Some? ==>
               fetched.value == Logs(chain, typ, start, if end.Some? then end.value else |chain| - 1)
    ensures var next := asks + [Ask(start, end, fetched.Some?)];
            if fetched.None? then Reading(chain, typ, startBlock, now, start, logs, next, failures + 1)
            else if end.Some? then Reading(chain, typ, startBlock, now, end.value + 1, logs + fetched.value, next, failures)
            else ReadThrough(chain, typ, startBlock, now, |chain| - 1, logs + fetched.value, next)
  {
    NextAsk(asks, fetched.Some?, startBlock, now, start, failures);
    ReadOn(seen, chain, typ, startBlock, start, if end.Some? then end.value else |chain| - 1, logs);
  }

  lemma ReadOn(seen: Chain, chain: Chain, typ: EventType, startBlock: nat, start: nat, last: nat, logs: seq<Log>)
    requires ReadSoFar(seen, typ, startBlock, start, logs) && seen <= chain && start <= last + 1 <= |chain|
    ensures ReadSoFar(chain, typ, startBlock, start, logs)
    ensures ReadSoFar(chain, typ, startBlock, last + 1, logs + Logs(chain, typ, start, last))
  {
    LogsStable(seen, chain, typ, startBlock, start - 1);
    LogsSplit(chain, typ, startBlock, start - 1, last);
  }

  /**
    filterer.go FilterEvents, one trial: the inner loop, which walks inclusive ranges of one length
    until the first failure or the open-ended query.
   */
  method ReadRanges(node: Node, typ: EventType, ghost startBlock: nat, from: nat, nowBlock: nat, deltaBlock: nat,
                    collected: seq<Log>, ghost base: seq<Ask>, ghost before: seq<Ask>, ghost failures: nat)
    returns (logs: seq<Log>, start: nat, failed: bool, ghost upto: nat, ghost asks: seq<Ask>)
    requires Reading(node.chain, typ, startBlock, nowBlock, from, collected, before, failures)
    requires failures < TRIALS && deltaBlock == Delta(failures) && node.asked == base + before
    modifies node
    ensures old(node.chain) <= node.chain && node.headerFailures == old(node.headerFailures)
    ensures node.asked == base + asks
    ensures failed ==> Reading(node.chain, typ, startBlock, nowBlock, start, logs, asks, failures + 1)
    ensures !failed ==> ReadThrough(node.chain, typ, startBlock, nowBlock, upto, logs, asks)
  {
    logs, start, failed, upto, asks := collected, from, false, 0, before;
    while true
      invariant old(node.chain) <= node.chain && node.headerFailures == old(node.headerFailures)
      invariant node.asked == base + asks
      invariant Reading(node.chain, typ, startBlock, nowBlock, start, logs, asks, failures)
      decreases nowBlock - start
    {
      var endBlock := start + deltaBlock;
      var endBlockPtr := if endBlock >= nowBlock then None else Some(endBlock);
      ghost var seen := node.chain;
      var fetched := node.FilterLogs(typ, start, endBlockPtr);
      AfterQuery(seen, node.chain, typ, startBlock, nowBlock, start, logs, asks, failures, endBlockPtr, fetched);
      asks := asks + [Ask(start, endBlockPtr, fetched.Some?)];
      if fetched.None? {
        failed := true;
        return;
      }
      logs := logs + fetched.value;
      if endBlock >= nowBlock {
        upto := |node.chain| - 1;
        return;
      }
      start := endBlock + 1;
    }
  }

  /**
    filterer.go FilterEvents, called as the service calls it (up to the latest block). The last query
    of a scan is open-ended, so `upto`, the last block it covered, may lie beyond the block returned.
    That block, `head`, was the latest one when the header was read. A scan fails exactly when the header
    cannot be had, the head lies before the start block, or seven log queries have failed.
   */
  method FilterEvents(node: Node, typ: EventType, startBlock: nat)
    returns (scan: Option<ScanResult>, ghost upto: nat, ghost asks: seq<Ask>, ghost head: nat)
    modifies node
    ensures old(node.chain) <= node.chain && node.asked == old(node.asked) + asks
    ensures old(node.headerFailures) <= node.headerFailures <= old(node.headerFailures) + 1
    ensures node.headerFailures > old(node.headerFailures) ==> scan.None? && asks == []
    ensures node.headerFailures == old(node.headerFailures) ==>
              && |old(node.chain)| <= head + 1 <= |node.chain|
              && if head < startBlock then scan.None? && asks == [] else scan.None? <==> FailuresIn(asks) == TRIALS
    ensures scan.Some? ==> scan.value.nowBlock == head && startBlock <= head <= upto < |node.chain|
    ensures scan.Some? ==> scan.value.logs == Logs(node.chain, typ, startBlock, upto)
    ensures scan.Some? ==> UpTo(scan.value.logs, head) == Logs(node.chain, typ, startBlock, head)
    ensures FollowsPlan(asks, startBlock, head) && (scan.Some? <==> Finished(asks))
  {
    upto, asks, head, scan := 0, [], 0, None;
    var header := node.HeaderByNumber();
    if header.None? {
      return;
    }
    var nowBlock := header.value;
    head := nowBlock;
    if nowBlock < startBlock {
      return;
    }
    var start: nat, deltaBlock: nat := startBlock, FIRST_DELTA;
    var logs: seq<Log>, failed := [], true;
    for trial := 0 to TRIALS
      invariant failed && deltaBlock == Delta(trial)
      invariant old(node.chain) <= node.chain && node.asked == old(node.asked) + asks
      invariant node.headerFailures == old(node.headerFailures)
      invariant Reading(node.chain, typ, startBlock, nowBlock, start, logs, asks, trial)
    {
      logs, start, failed, upto, asks :=
        ReadRanges(node, typ, startBlock, start, nowBlock, deltaBlock, logs, old(node.asked), asks, trial);
      if !failed {
        break;
      }
      deltaBlock := deltaBlock / 2;
    }
    if failed {
      return;
    }
    PlanAdvances(asks, startBlock, nowBlock);
    LogsUpTo(node.chain, typ, startBlock, nowBlock, upto);
    scan := Some(ScanResult(logs, nowBlock));
  }
}
