/** The chain as the scanner sees it: blocks of events, and the log query over a block range. */
module Chain {
  import opened Wrappers

  datatype TransferEvent = TransferEvent(from: Address, to: Address, value: nat)

  datatype DelegateEvent = DelegateEvent(trader: Address, delegate: Address, index: nat)

  datatype Block = Block(transfers: seq<TransferEvent>, delegations: seq<DelegateEvent>)

  /** Block n is element n; the chain only grows at its end. */
  type Chain = seq<Block>

  /** filterer.go EventType */
  datatype EventType = SetDelegateEvent | TokenTransferEvent

  /** filterer.go Delegate and Transfer: what the scanner keeps of an event. */
  datatype Log =
    | Delegate(addr: Address, delegate: Address, index: nat, blockNr: nat)
    | Transfer(from: Address, to: Address, blockNr: nat)

  function TransferLogs(ts: seq<TransferEvent>, n: nat): seq<Log> {
    seq(|ts|, i requires 0 <= i < |ts| => Transfer(ts[i].from, ts[i].to, n))
  }

  function DelegateLogs(ds: seq<DelegateEvent>, n: nat): seq<Log> {
    seq(|ds|, i requires 0 <= i < |ds| => Delegate(ds[i].trader, ds[i].delegate, ds[i].index, n))
  }

  function BlockLogs(block: Block, typ: EventType, n: nat): seq<Log> {
    match typ
    case SetDelegateEvent => DelegateLogs(block.delegations, n)
    case TokenTransferEvent => TransferLogs(block.transfers, n)
  }

  /** All events of one type in the inclusive block range [lo, hi], in chain order. */
  function Logs(chain: Chain, typ: EventType, lo: nat, hi: int): seq<Log>
    requires hi < |chain|
    decreases hi - lo
  {
    if lo > hi then [] else Logs(chain, typ, lo, hi - 1) + BlockLogs(chain[hi], typ, hi)
  }

  /** The part of a log list at blocks up to `b`. */
  function UpTo(logs: seq<Log>, b: int): seq<Log> {
    if logs == [] then []
    else UpTo(logs[..|logs| - 1], b) + if logs[|logs| - 1].blockNr <= b then [logs[|logs| - 1]] else []
  }

  lemma Associative(p: seq<Log>, q: seq<Log>, r: seq<Log>)
    ensures (p + q) + r == p + (q + r)
  {
  }

  /** Adjacent inclusive ranges join without gap or overlap. */
  lemma {:induction false} LogsSplit(chain: Chain, typ: EventType, lo: nat, mid: int, hi: int)
    requires lo <= mid + 1 && mid <= hi < |chain|
    ensures mid + 1 >= 0 && Logs(chain, typ, lo, hi) == Logs(chain, typ, lo, mid) + Logs(chain, typ, mid + 1, hi)
    decreases hi - mid
  {
    if mid < hi {
      LogsSplit(chain, typ, lo, mid, hi - 1);
      Associative(Logs(chain, typ, lo, mid), Logs(chain, typ, mid + 1, hi - 1), BlockLogs(chain[hi], typ, hi));
    }
  }

  /** Growth does not change the events of old blocks. */
  lemma {:induction false} LogsStable(chain: Chain, grown: Chain, typ: EventType, lo: nat, hi: int)
    requires chain <= grown && hi < |chain|
    ensures Logs(chain, typ, lo, hi) == Logs(grown, typ, lo, hi)
    decreases hi - lo
  {
    if lo <= hi {
      LogsStable(chain, grown, typ, lo, hi - 1);
    }
  }

  /** A log belongs to a range exactly when its block does and the block emitted it. */
  lemma {:induction false} LogsMembers(chain: Chain, typ: EventType, lo: nat, hi: int, l: Log)
    requires hi < |chain|
    ensures l in Logs(chain, typ, lo, hi) <==>
            lo <= l.blockNr <= hi && l in BlockLogs(chain[l.blockNr], typ, l.blockNr)
    decreases hi - lo
  {
    if lo <= hi {
      LogsMembers(chain, typ, lo, hi - 1, l);
      assert forall x | x in BlockLogs(chain[hi], typ, hi) :: x.blockNr == hi;
    }
  }

  lemma {:induction false} UpToConcat(s: seq<Log>, t: seq<Log>, b: int)
    ensures UpTo(s + t, b) == UpTo(s, b) + UpTo(t, b)
  {
    if t == [] {
      assert s + t == s;
    } else {
      var n := |t| - 1;
      assert (s + t)[..|s + t| - 1] == s + t[..n];
      UpToConcat(s, t[..n], b);
    }
  }

  lemma {:induction false} UpToAllOrNothing(s: seq<Log>, b: int)
    ensures (forall l | l in s :: l.blockNr <= b) ==> UpTo(s, b) == s
    ensures (forall l | l in s :: l.blockNr > b) ==> UpTo(s, b) == []
  {
    if s != [] {
      var n := |s| - 1;
      assert s == s[..n] + [s[n]];
      UpToAllOrNothing(s[..n], b);
    }
  }

  /** Cutting a range of logs at block `b` gives exactly the shorter range. */
  lemma LogsUpTo(chain: Chain, typ: EventType, lo: nat, b: int, hi: int)
    requires lo <= b + 1 && b <= hi < |chain|
    ensures UpTo(Logs(chain, typ, lo, hi), b) == Logs(chain, typ, lo, b)
  {
    LogsSplit(chain, typ, lo, b, hi);
    UpToConcat(Logs(chain, typ, lo, b), Logs(chain, typ, b + 1, hi), b);
    forall l ensures l in Logs(chain, typ, lo, b) ==> l.blockNr <= b {
      LogsMembers(chain, typ, lo, b, l);
    }
    forall l ensures l in Logs(chain, typ, b + 1, hi) ==> l.blockNr > b {
      LogsMembers(chain, typ, b + 1, hi, l);
    }
    UpToAllOrNothing(Logs(chain, typ, lo, b), b);
    UpToAllOrNothing(Logs(chain, typ, b + 1, hi), b);
  }

  // ---------- every event once, in order ----------

  /** A block's logs are the records of its events, one for each and in their order. */
  lemma LogsOfBlock(chain: Chain, n: nat)
    requires n < |chain|
    ensures |Logs(chain, TokenTransferEvent, n, n)| == |chain[n].transfers|
    ensures |Logs(chain, SetDelegateEvent, n, n)| == |chain[n].delegations|
    ensures forall i | 0 <= i < |chain[n].transfers| ::
              var t := chain[n].transfers[i];
              Logs(chain, TokenTransferEvent, n, n)[i] == Transfer(t.from, t.to, n)
    ensures forall i | 0 <= i < |chain[n].delegations| ::
              var d := chain[n].delegations[i];
              Logs(chain, SetDelegateEvent, n, n)[i] == Delegate(d.trader, d.delegate, d.index, n)
  {
    assert Logs(chain, TokenTransferEvent, n, n - 1) == [] == Logs(chain, SetDelegateEvent, n, n - 1);
    assert Logs(chain, TokenTransferEvent, n, n) == BlockLogs(chain[n], TokenTransferEvent, n);
    assert Logs(chain, SetDelegateEvent, n, n) == BlockLogs(chain[n], SetDelegateEvent, n);
  }

  function EventsIn(block: Block, typ: EventType): nat {
    match typ
    case SetDelegateEvent => |block.delegations|
    case TokenTransferEvent => |block.transfers|
  }

  /** How many events the blocks lo to hi hold. */
  function EventCount(chain: Chain, typ: EventType, lo: nat, hi: int): nat
    requires hi < |chain|
    decreases hi - lo
  {
    if lo > hi then 0 else EventCount(chain, typ, lo, hi - 1) + EventsIn(chain[hi], typ)
  }

  lemma {:induction false} LogsLength(chain: Chain, typ: EventType, lo: nat, hi: int)
    requires hi < |chain|
    ensures |Logs(chain, typ, lo, hi)| == EventCount(chain, typ, lo, hi)
    decreases hi - lo
  {
    if lo <= hi {
      LogsLength(chain, typ, lo, hi - 1);
    }
  }

  lemma LogsAround(chain: Chain, typ: EventType, lo: nat, n: nat, hi: nat)
    requires lo <= n <= hi < |chain|
    ensures Logs(chain, typ, lo, hi) ==
            Logs(chain, typ, lo, n - 1) + Logs(chain, typ, n, n) + Logs(chain, typ, n + 1, hi)
  {
    LogsSplit(chain, typ, lo, n, hi);
    LogsSplit(chain, typ, lo, n - 1, n);
  }

  /** The logs of a range list its events by block and position: which event is found at which index. */
  lemma LogAt(chain: Chain, typ: EventType, lo: nat, n: nat, hi: nat, i: nat)
    requires lo <= n <= hi < |chain| && i < EventsIn(chain[n], typ)
    ensures var logs, k := Logs(chain, typ, lo, hi), EventCount(chain, typ, lo, n - 1) + i;
            && |logs| == EventCount(chain, typ, lo, hi) && k < |logs|
            && logs[k] == match typ
                          case SetDelegateEvent =>
                            var d := chain[n].delegations[i];
                            Delegate(d.trader, d.delegate, d.index, n)
                          case TokenTransferEvent =>
                            var t := chain[n].transfers[i];
                            Transfer(t.from, t.to, n)
  {
    LogsAround(chain, typ, lo, n, hi);
    LogsLength(chain, typ, lo, hi);
    LogsLength(chain, typ, lo, n - 1);
    LogsOfBlock(chain, n);
  }

  lemma {:induction false} CountIsIndices(logs: seq<Log>, l: Log)
    ensures multiset(logs)[l] == |set i | 0 <= i < |logs| && logs[i] == l|
  {
    var at := set i | 0 <= i < |logs| && logs[i] == l;
    if logs != [] {
      var n := |logs| - 1;
      assert logs == logs[..n] + [logs[n]];
      CountIsIndices(logs[..n], l);
      var before := set i | 0 <= i < |logs[..n]| && logs[..n][i] == l;
      assert at == before + if logs[n] == l then {n} else {};
    }
  }

  lemma NotAmong(logs: seq<Log>, l: Log)
    requires l !in logs
    ensures multiset(logs)[l] == 0
  {
  }

  lemma TransferCountInBlock(chain: Chain, n: nat, from: Address, to: Address)
    requires n < |chain|
    ensures var ts := chain[n].transfers;
            multiset(Logs(chain, TokenTransferEvent, n, n))[Transfer(from, to, n)] ==
            |set i | 0 <= i < |ts| && ts[i].from == from && ts[i].to == to|
  {
    var ts, own, l := chain[n].transfers, Logs(chain, TokenTransferEvent, n, n), Transfer(from, to, n);
    LogsOfBlock(chain, n);
    CountIsIndices(own, l);
    assert (set i | 0 <= i < |own| && own[i] == l) == (set i | 0 <= i < |ts| && ts[i].from == from && ts[i].to == to);
  }

  lemma CountInThree(p: seq<Log>, q: seq<Log>, r: seq<Log>, l: Log)
    requires l !in p && l !in r
    ensures multiset(p + q + r)[l] == multiset(q)[l]
  {
    NotAmong(p, l);
    NotAmong(r, l);
  }

  lemma OutsideRange(chain: Chain, typ: EventType, lo: nat, hi: int, l: Log)
    requires hi < |chain| && !(lo <= l.blockNr <= hi)
    ensures l !in Logs(chain, typ, lo, hi)
  {
    LogsMembers(chain, typ, lo, hi, l);
  }

  /** A block's logs are found in its place only. */
  lemma CountInRange(chain: Chain, typ: EventType, lo: nat, hi: nat, l: Log)
    requires lo <= l.blockNr <= hi < |chain|
    ensures multiset(Logs(chain, typ, lo, hi))[l] == multiset(Logs(chain, typ, l.blockNr, l.blockNr))[l]
  {
    var n: int := l.blockNr;
    OutsideRange(chain, typ, lo, n - 1, l);
    OutsideRange(chain, typ, n + 1, hi, l);
    LogsAround(chain, typ, lo, n, hi);
    CountInThree(Logs(chain, typ, lo, n - 1), Logs(chain, typ, n, n), Logs(chain, typ, n + 1, hi), l);
  }

  /** A transfer is fetched once for each time its block emits it. */
  lemma TransferCount(chain: Chain, lo: nat, n: nat, hi: nat, from: Address, to: Address)
    requires hi < |chain|
    ensures multiset(Logs(chain, TokenTransferEvent, lo, hi))[Transfer(from, to, n)] ==
            if lo <= n <= hi then
              var ts := chain[n].transfers;
              |set i | 0 <= i < |ts| && ts[i].from == from && ts[i].to == to|
            else 0
  {
    if lo <= n <= hi {
      CountInRange(chain, TokenTransferEvent, lo, hi, Transfer(from, to, n));
      TransferCountInBlock(chain, n, from, to);
    } else {
      OutsideRange(chain, TokenTransferEvent, lo, hi, Transfer(from, to, n));
    }
  }
}
