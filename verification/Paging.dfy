/** Batched queries (internal/etherfi/evm.go: QueryMultiTokenBalance, tryQueryAvailCash, tryQueryActiveAddr). */
module Paging {
  import opened Wrappers

  /** How many calls go into one multicall, and how many accounts are asked for at a time. */
  const MULTICALL_BATCH := 500
  const ACCOUNT_CHUNK := 100

  /** One batch: the half-open index range [from, to). */
  datatype Range = Range(from: nat, to: nat)

  function Map<A, B>(f: A -> B, items: seq<A>): seq<B> {
    seq(|items|, i requires 0 <= i < |items| => f(items[i]))
  }

  /** The batches from index `from` on, as the loops form them. */
  function Batches(n: nat, inc: nat, from: nat): (batches: seq<Range>)
    requires inc > 0 && from <= n
    ensures batches != []
    decreases n - from
  {
    var to := if n < from + inc then n else from + inc;
    [Range(from, to)] + if to >= n then [] else Batches(n, inc, to)
  }

  /** No batch of the list fails; the call for the batch starting at k does if k is in `failing`. */
  predicate GoesThrough(n: nat, inc: nat, failing: set<nat>)
    requires inc > 0
  {
    forall r | r in Batches(n, inc, 0) :: r.from !in failing
  }

  lemma NextBatch(all: seq<Range>, called: seq<Range>, n: nat, inc: nat, from: nat, to: nat)
    requires inc > 0 && from <= n && to == (if n < from + inc then n else from + inc)
    requires all == called + Batches(n, inc, from)
    ensures called + [Range(from, to)] <= all && Range(from, to) in all
    ensures to < n ==> all == called + [Range(from, to)] + Batches(n, inc, to)
    ensures to >= n ==> all == called + [Range(from, to)]
  {
    var rest := if to >= n then [] else Batches(n, inc, to);
    assert all == called + ([Range(from, to)] + rest) == called + [Range(from, to)] + rest;
    assert all[|called|] == Range(from, to);
  }

  lemma MapSplit<A, B>(f: A -> B, items: seq<A>, from: nat, to: nat)
    requires from <= to <= |items|
    ensures Map(f, items[..to]) == Map(f, items[..from]) + Map(f, items[from..to])
  {
  }

  /**
    The paging loop. The call for the batch starting at k fails if k is in `failing`; a call that
    succeeds answers every item of its batch.
   */
  method CallInBatches<A, B>(items: seq<A>, f: A -> B, inc: nat, failing: set<nat>)
    returns (answers: Option<seq<B>>, called: seq<Range>)
    requires inc > 0
    ensures called <= Batches(|items|, inc, 0)
    ensures answers.Some? <==> forall r | r in Batches(|items|, inc, 0) :: r.from !in failing
    ensures answers.Some? ==> answers.value == Map(f, items) && called == Batches(|items|, inc, 0)
  {
    var n := |items|;
    var from, to := 0, if n < inc then n else inc;
    var out: seq<B> := [];
    ghost var all := Batches(n, inc, 0);
    called := [];
    while from < n || called == []
      invariant 0 <= from <= n && to == (if n < from + inc then n else from + inc)
      invariant called <= all
      invariant from < n || called == [] ==> all == called + Batches(n, inc, from)
      invariant from == n && called != [] ==> all == called
      invariant forall r | r in called :: r.from !in failing
      invariant out == Map(f, items[..from])
      decreases n - from + (if called == [] then 1 else 0)
    {
      NextBatch(all, called, n, inc, from, to);
      called := called + [Range(from, to)];
      if from in failing {
        return None, called;
      }
      MapSplit(f, items, from, to);
      out := out + Map(f, items[from..to]);
      from := to;
      to := if n < to + inc then n else to + inc;
    }
    assert items[..n] == items;
    answers := Some(out);
  }

  /** The batches are consecutive, start at `from`, end at n, and none is longer than inc. */
  lemma {:induction false} BatchesAreConsecutive(n: nat, inc: nat, from: nat)
    requires inc > 0 && from <= n
    ensures var b := Batches(n, inc, from);
            && b[0].from == from && b[|b| - 1].to == n
            && (forall i | 0 <= i < |b| :: b[i].from <= b[i].to <= b[i].from + inc && b[i].to <= n)
            && (forall i | 0 <= i < |b| - 1 :: b[i + 1].from == b[i].to == b[i].from + inc)
    decreases n - from
  {
    var to := if n < from + inc then n else from + inc;
    if to < n {
      BatchesAreConsecutive(n, inc, to);
      var rest := Batches(n, inc, to);
      assert Batches(n, inc, from) == [Range(from, to)] + rest;
    }
  }

  /** Every index is in exactly one batch. */
  lemma {:induction false} EachIndexOnce(n: nat, inc: nat, from: nat, k: nat) returns (i: nat)
    requires inc > 0 && from <= k < n
    ensures var b := Batches(n, inc, from);
            && i < |b| && b[i].from <= k < b[i].to
            && forall j | 0 <= j < |b| && b[j].from <= k < b[j].to :: j == i
    decreases n - from
  {
    var to := if n < from + inc then n else from + inc;
    var b := Batches(n, inc, from);
    if k < to {
      i := 0;
      if to < n {
        var rest := Batches(n, inc, to);
        StartsBeyond(n, inc, to);
        forall j | 0 < j < |b| ensures b[j].from >= to {
          assert b[j] == rest[j - 1];
        }
      }
    } else {
      var rest := Batches(n, inc, to);
      var r := EachIndexOnce(n, inc, to, k);
      i := r + 1;
      assert forall j | 0 < j < |b| :: b[j] == rest[j - 1];
    }
  }

  lemma {:induction false} StartsBeyond(n: nat, inc: nat, from: nat)
    requires inc > 0 && from <= n
    ensures forall r | r in Batches(n, inc, from) :: r.from >= from
    decreases n - from
  {
    var to := if n < from + inc then n else from + inc;
    if to < n {
      StartsBeyond(n, inc, to);
    }
  }

  /** The number of calls is the least that suffices, and one for an empty list. */
  lemma {:induction false} BatchCount(n: nat, inc: nat, from: nat)
    requires inc > 0 && from <= n
    ensures var calls := |Batches(n, inc, from)|;
            && (calls - 1) * inc <= n - from <= calls * inc
            && (n - from > 0 ==> (calls - 1) * inc < n - from)
            && (n == from ==> calls == 1)
    decreases n - from
  {
    var to := if n < from + inc then n else from + inc;
    if to < n {
      BatchCount(n, inc, to);
      var c := |Batches(n, inc, to)|;
      assert (c + 1 - 1) * inc == (c - 1) * inc + inc;
      assert (c + 1) * inc == c * inc + inc;
    }
  }

  /** How many multicalls a list of n addresses takes, and how many chunks a list of n accounts. */
  lemma CallCounts(n: nat)
    requires n > 0
    ensures |Batches(n, MULTICALL_BATCH, 0)| == (n + 499) / 500
    ensures |Batches(n, ACCOUNT_CHUNK, 0)| == (n + 99) / 100
  {
    BatchCount(n, MULTICALL_BATCH, 0);
    BatchCount(n, ACCOUNT_CHUNK, 0);
  }

  // ---------- the three users ----------

  /** evm.go QueryMultiTokenBalance */
  method QueryMultiTokenBalance<A>(addrs: seq<A>, balanceOf: A -> int, failing: set<nat>)
    returns (balances: Option<seq<int>>)
    ensures balances.Some? <==> GoesThrough(|addrs|, MULTICALL_BATCH, failing)
    ensures balances.Some? ==> balances.value == Map(balanceOf, addrs)
  {
    var called;
    balances, called := CallInBatches(addrs, balanceOf, MULTICALL_BATCH, failing);
  }

  /** evm.go tryQueryAvailCash: the answers are converted to pool-token decimals one by one. */
  method TryQueryAvailCash<A>(addrs: seq<A>, availableCash: A -> int, toDecN: int -> int, failing: set<nat>)
    returns (cash: Option<seq<int>>)
    ensures cash.Some? <==> GoesThrough(|addrs|, MULTICALL_BATCH, failing)
    ensures cash.Some? ==> |cash.value| == |addrs|
    ensures cash.Some? ==> forall k | 0 <= k < |addrs| :: cash.value[k] == toDecN(availableCash(addrs[k]))
  {
    var called;
    cash, called := CallInBatches(addrs, (a: A) => toDecN(availableCash(a)), MULTICALL_BATCH, failing);
  }

  /** evm.go tryQueryActiveAddr: chunks of the contract's account list, after asking for its length. */
  method TryQueryActiveAddr<A>(accounts: seq<A>, countFails: bool, failing: set<nat>)
    returns (traders: Option<seq<A>>)
    ensures traders.Some? <==> !countFails && GoesThrough(|accounts|, ACCOUNT_CHUNK, failing)
    ensures traders.Some? ==> traders.value == accounts
  {
    if countFails {
      return None;
    }
    var called;
    traders, called := CallInBatches(accounts, (a: A) => a, ACCOUNT_CHUNK, failing);
    assert Map((a: A) => a, accounts) == accounts;
  }
}
