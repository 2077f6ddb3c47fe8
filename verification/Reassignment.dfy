/** Moving strategy balances to their delegates (internal/etherfi/etherfi.go, reassignTraderBalances). */
module Reassignment {
  import opened Wrappers
  import opened Sums
  import opened Traders

  /** The balance of `source` is to be reported under `delegate`. */
  datatype Delegation = Delegation(source: Address, delegate: Address)

  function Pairs(addrs: seq<Address>, delegates: seq<Address>): (ds: seq<Delegation>)
    requires |addrs| == |delegates|
    ensures |ds| == |addrs| && forall k | 0 <= k < |ds| :: ds[k].source == addrs[k] && ds[k].delegate == delegates[k]
  {
    seq(|addrs|, k requires 0 <= k < |addrs| => Delegation(addrs[k], delegates[k]))
  }

  /** One move: the delegate gains the balance, the source is overwritten with zero afterwards. */
  function Move(m: map<Address, int>, d: Delegation): map<Address, int> {
    if d.source in m then m[d.delegate := Get(m, d.delegate) + m[d.source]][d.source := 0] else m
  }

  function Reassigned(m: map<Address, int>, ds: seq<Delegation>): map<Address, int> {
    if ds == [] then m else Move(Reassigned(m, ds[..|ds| - 1]), ds[|ds| - 1])
  }

  /** etherfi.go reassignTraderBalances, after the database read: overwrites the shared map in list order. */
  method ReassignTraderBalances(ledger: Ledger, addrs: seq<Address>, delegates: seq<Address>)
    requires |addrs| == |delegates|
    modifies ledger
    ensures ledger.bal == Reassigned(old(ledger.bal), Pairs(addrs, delegates))
  {
    ghost var ds := Pairs(addrs, delegates);
    for k := 0 to |delegates|
      invariant ledger.bal == Reassigned(old(ledger.bal), ds[..k])
    {
      assert ds[..k + 1][..k] == ds[..k];
      var d := delegates[k];
      if addrs[k] in ledger.bal {
        if d in ledger.bal {
          ledger.bal := ledger.bal[d := ledger.bal[d] + ledger.bal[addrs[k]]];
        } else {
          ledger.bal := ledger.bal[d := ledger.bal[addrs[k]]];
        }
        ledger.bal := ledger.bal[addrs[k] := 0];
      }
    }
    assert ds[..|delegates|] == ds;
  }

  lemma {:induction false} ReassignedConcat(m: map<Address, int>, p: seq<Delegation>, q: seq<Delegation>)
    ensures Reassigned(m, p + q) == Reassigned(Reassigned(m, p), q)
  {
    if q == [] {
      assert p + q == p;
    } else {
      var n := |q| - 1;
      ReassignedConcat(m, p, q[..n]);
      assert (p + q)[..|p + q| - 1] == p + q[..n];
    }
  }

  lemma ReassignedSingle(m: map<Address, int>, d: Delegation)
    ensures Reassigned(m, [d]) == Move(m, d)
  {
    assert [d][..0] == [];
    assert Reassigned(m, []) == m;
  }

  // ---------- conservation ----------

  predicate SelfFree(ds: seq<Delegation>) {
    forall d | d in ds :: d.source != d.delegate
  }

  /** What self-delegations wipe out on the way: the entry is doubled, then zeroed. */
  function Burned(m: map<Address, int>, ds: seq<Delegation>): int {
    if ds == [] then 0
    else
      var before, d := Reassigned(m, ds[..|ds| - 1]), ds[|ds| - 1];
      Burned(m, ds[..|ds| - 1]) + if d.source == d.delegate then Get(before, d.source) else 0
  }

  lemma MoveSum(m: map<Address, int>, d: Delegation)
    ensures MapSum(Move(m, d)) == MapSum(m) - if d.source == d.delegate then Get(m, d.source) else 0
  {
    if d.source in m {
      var m' := m[d.delegate := Get(m, d.delegate) + m[d.source]];
      MapSumUpdate(m, d.delegate, Get(m, d.delegate) + m[d.source]);
      MapSumUpdate(m', d.source, 0);
    }
  }

  /** For every list, with chains, cycles and repeats: only self-delegations change the sum. */
  lemma {:induction false} ReassignmentAccounting(m: map<Address, int>, ds: seq<Delegation>)
    ensures MapSum(Reassigned(m, ds)) == MapSum(m) - Burned(m, ds)
    ensures SelfFree(ds) ==> Burned(m, ds) == 0
  {
    if ds != [] {
      var n := |ds| - 1;
      ReassignmentAccounting(m, ds[..n]);
      MoveSum(Reassigned(m, ds[..n]), ds[n]);
      assert ds[n] in ds;
    }
  }

  predicate Mentioned(ds: seq<Delegation>, a: Address) {
    exists d | d in ds :: d.source == a || d.delegate == a
  }

  /** No key disappears, and an address named in no pair keeps its entry (or its absence). */
  lemma {:induction false} ReassignmentFrame(m: map<Address, int>, ds: seq<Delegation>, a: Address)
    ensures a in m ==> a in Reassigned(m, ds)
    ensures !Mentioned(ds, a) ==> (a in Reassigned(m, ds) <==> a in m) && Get(Reassigned(m, ds), a) == Get(m, a)
  {
    if ds != [] {
      var n := |ds| - 1;
      ReassignmentFrame(m, ds[..n], a);
      assert ds[n] in ds;
      assert forall d | d in ds[..n] :: d in ds;
    }
  }

  lemma {:induction false} AbsentSourcesMoveNothing(m: map<Address, int>, ds: seq<Delegation>)
    requires forall d | d in ds :: d.source !in m
    ensures Reassigned(m, ds) == m
  {
    if ds != [] {
      var n := |ds| - 1;
      assert forall d | d in ds[..n] :: d in ds;
      AbsentSourcesMoveNothing(m, ds[..n]);
      assert ds[n] in ds;
    }
  }

  // ---------- when nothing is burned ----------

  lemma MoveEntry(r: map<Address, int>, d: Delegation, x: Address)
    ensures x in Move(r, d) <==> x in r || (x == d.delegate && d.source in r)
    ensures Get(Move(r, d), x) ==
            if x == d.source then 0
            else Get(r, x) + if x == d.delegate then Get(r, d.source) else 0
  {
  }

  /** After these rows `a` may hold something: it was not emptied, or a live source moved to it since. */
  predicate Live(ds: seq<Delegation>, a: Address) {
    ds == [] ||
    var front, d := ds[..|ds| - 1], ds[|ds| - 1];
    a != d.source && (Live(front, a) || (a == d.delegate && Live(front, d.source)))
  }

  /** No row delegates an account to itself that may still hold something. */
  predicate BurnFree(ds: seq<Delegation>) {
    forall i | 0 <= i < |ds| && ds[i].source == ds[i].delegate :: !Live(ds[..i], ds[i].source)
  }

  lemma {:induction false} DeadIsZero(m: map<Address, int>, ds: seq<Delegation>, a: Address)
    requires !Live(ds, a)
    ensures Get(Reassigned(m, ds), a) == 0
  {
    var front, d := ds[..|ds| - 1], ds[|ds| - 1];
    MoveEntry(Reassigned(m, front), d, a);
    if a != d.source {
      DeadIsZero(m, front, a);
      if a == d.delegate {
        DeadIsZero(m, front, d.source);
      }
    }
  }

  lemma {:induction false} BurnFreeKeepsSum(m: map<Address, int>, ds: seq<Delegation>)
    requires BurnFree(ds)
    ensures Burned(m, ds) == 0 && MapSum(Reassigned(m, ds)) == MapSum(m)
  {
    ReassignmentAccounting(m, ds);
    if ds != [] {
      var front, d := ds[..|ds| - 1], ds[|ds| - 1];
      assert forall i | 0 <= i < |front| :: front[..i] == ds[..i];
      BurnFreeKeepsSum(m, front);
      if d.source == d.delegate {
        DeadIsZero(m, front, d.source);
      }
    }
  }

  function Sources(ds: seq<Delegation>): set<Address> { set d | d in ds :: d.source }

  /** One unit for every source. */
  function Ones(ds: seq<Delegation>): map<Address, int> {
    map a | a in Sources(ds) :: 1
  }

  /** Started with one unit everywhere, exactly the live addresses still hold something. */
  lemma {:induction false} LiveIsPositive(m: map<Address, int>, ds: seq<Delegation>, a: Address)
    requires (forall x | x in m :: m[x] == 1) && forall d | d in ds :: d.source in m
    ensures Get(Reassigned(m, ds), a) >= 0
    ensures Live(ds, a) && a in m ==> Get(Reassigned(m, ds), a) > 0
  {
    if ds != [] {
      var front, d := ds[..|ds| - 1], ds[|ds| - 1];
      assert d in ds && forall e | e in front :: e in ds;
      LiveIsPositive(m, front, a);
      LiveIsPositive(m, front, d.source);
      MoveEntry(Reassigned(m, front), d, a);
    }
  }

  lemma {:induction false} BurnedIsAtLeast(m: map<Address, int>, ds: seq<Delegation>, i: nat)
    requires (forall x | x in m :: m[x] == 1) && forall d | d in ds :: d.source in m
    ensures Burned(m, ds) >= 0
    ensures i < |ds| && ds[i].source == ds[i].delegate && Live(ds[..i], ds[i].source) ==> Burned(m, ds) > 0
  {
    if ds != [] {
      var front, d := ds[..|ds| - 1], ds[|ds| - 1];
      assert d in ds && forall e | e in front :: e in ds;
      BurnedIsAtLeast(m, front, i);
      LiveIsPositive(m, front, d.source);
      assert i < |front| ==> front[..i] == ds[..i];
    }
  }

  /** For every list of rows: the sum of every ledger is kept exactly when no live account delegates to itself. */
  lemma ConservationExactly(ds: seq<Delegation>)
    ensures (forall m :: MapSum(Reassigned(m, ds)) == MapSum(m)) <==> BurnFree(ds)
    ensures SelfFree(ds) ==> BurnFree(ds)
  {
    if BurnFree(ds) {
      forall m ensures MapSum(Reassigned(m, ds)) == MapSum(m) {
        BurnFreeKeepsSum(m, ds);
      }
    } else {
      var i :| 0 <= i < |ds| && ds[i].source == ds[i].delegate && Live(ds[..i], ds[i].source);
      var m := Ones(ds);
      BurnedIsAtLeast(m, ds, i);
      ReassignmentAccounting(m, ds);
      assert MapSum(Reassigned(m, ds)) != MapSum(m);
    }
  }

  // ---------- order independence ----------

  /** No two rows share their source, and none moves to the source of another. */
  predicate Independent(ds: seq<Delegation>) {
    forall d, e | d in ds && e in ds && d != e :: d.source != e.source && d.source != e.delegate
  }

  /** Independent rows, each occurring once. */
  ghost predicate Star(ds: seq<Delegation>) {
    Independent(ds) && forall d | d in ds :: multiset(ds)[d] == 1
  }

  /** The summand of what `x` receives from its sources. */
  function InflowTo(m: map<Address, int>, x: Address): Delegation -> int {
    (d: Delegation) => if d.delegate == x then Get(m, d.source) else 0
  }

  predicate IsSource(ds: seq<Delegation>, a: Address) { exists d | d in ds :: d.source == a }

  predicate Receives(m: map<Address, int>, ds: seq<Delegation>, x: Address) {
    exists d | d in ds :: d.delegate == x && d.source in m
  }

  lemma StarFront(ds: seq<Delegation>)
    requires Star(ds) && ds != []
    ensures Star(ds[..|ds| - 1]) && !IsSource(ds[..|ds| - 1], ds[|ds| - 1].source)
  {
    var n := |ds| - 1;
    assert ds == ds[..n] + [ds[n]];
    assert multiset(ds) == multiset(ds[..n]) + multiset{ds[n]};
    assert ds[n] in ds;
    assert forall d | d in ds[..n] :: d in ds;
  }

  lemma StarMembers(m: map<Address, int>, ds: seq<Delegation>, x: Address)
    requires Star(ds) && ds != []
    ensures var front, d := ds[..|ds| - 1], ds[|ds| - 1];
            && !Receives(m, front, d.source)
            && SumBy(InflowTo(m, d.source), front) == 0
            && (IsSource(ds, x) <==> IsSource(front, x) || x == d.source)
            && (Receives(m, ds, x) <==> Receives(m, front, x) || (x == d.delegate && d.source in m))
  {
    var front, d := ds[..|ds| - 1], ds[|ds| - 1];
    assert d in ds;
    assert forall e | e in front :: e in ds;
    assert forall e | e in ds :: e in front || e == d;
    assert ds == front + [d];
    assert multiset(ds)[d] == multiset(front)[d] + 1;
    assert d !in multiset(front);
    SumByZero(InflowTo(m, d.source), front);
  }

  /** The final ledger, entry by entry and without reference to the order of the moves. */
  lemma {:induction false} StarResult(m: map<Address, int>, ds: seq<Delegation>, x: Address)
    requires Star(ds)
    ensures x in Reassigned(m, ds) <==> x in m || Receives(m, ds, x)
    ensures IsSource(ds, x) ==> Get(Reassigned(m, ds), x) == 0
    ensures !IsSource(ds, x) ==> Get(Reassigned(m, ds), x) == Get(m, x) + SumBy(InflowTo(m, x), ds)
  {
    if ds != [] {
      var front, d := ds[..|ds| - 1], ds[|ds| - 1];
      StarFront(ds);
      StarMembers(m, ds, x);
      StarResult(m, front, x);
      StarResult(m, front, d.source);
      MoveEntry(Reassigned(m, front), d, x);
    }
  }

  /** Whatever order the unordered SELECT DISTINCT returns, the final ledger is the same. */
  lemma ReassignmentOrderIrrelevant(m: map<Address, int>, ds: seq<Delegation>, shuffled: seq<Delegation>)
    requires Star(ds) && multiset(ds) == multiset(shuffled)
    ensures Reassigned(m, ds) == Reassigned(m, shuffled)
  {
    assert forall d :: d in ds <==> d in multiset(ds);
    assert forall d :: d in shuffled <==> d in multiset(shuffled);
    forall x
      ensures x in Reassigned(m, ds) <==> x in Reassigned(m, shuffled)
      ensures Get(Reassigned(m, ds), x) == Get(Reassigned(m, shuffled), x)
    {
      StarResult(m, ds, x);
      StarResult(m, shuffled, x);
      SumByPermutation(InflowTo(m, x), ds, shuffled);
    }
    var r, s := Reassigned(m, ds), Reassigned(m, shuffled);
    assert forall x | x in r :: Get(r, x) == r[x] && Get(s, x) == s[x];
  }

  lemma DistinctRowsOnce(ds: seq<Delegation>)
    requires NoDuplicates(ds)
    ensures Independent(ds) ==> Star(ds)
  {
    forall d ensures multiset(ds)[d] == if d in ds then 1 else 0 {
      CountInList(ds, d);
    }
  }

  // ---------- order dependence ----------

  lemma ReassignedPair(m: map<Address, int>, d: Delegation, e: Delegation)
    ensures Reassigned(m, [d, e]) == Move(Move(m, d), e)
  {
    ReassignedSingle(m, d);
    assert [d, e][..1] == [d];
  }

  /** Every ledger ends the same in whatever order the rows come. */
  ghost predicate OrderIrrelevant(ds: seq<Delegation>) {
    forall m, p, q | multiset(p) == multiset(ds) && multiset(q) == multiset(ds) ::
      Reassigned(m, p) == Reassigned(m, q)
  }

  lemma OrderMatters(ds: seq<Delegation>, m: map<Address, int>, p: seq<Delegation>, q: seq<Delegation>)
    requires multiset(p) == multiset(ds) == multiset(q) && Reassigned(m, p) != Reassigned(m, q)
    ensures !OrderIrrelevant(ds)
  {
  }

  function FromSource(ds: seq<Delegation>, s: Address, from: bool): (part: seq<Delegation>)
    ensures forall d | d in part :: (d.source == s) == from
  {
    if ds == [] then []
    else
      var front, d := FromSource(ds[..|ds| - 1], s, from), ds[|ds| - 1];
      if (d.source == s) == from then front + [d] else front
  }

  lemma {:induction false} FromSourceSplits(ds: seq<Delegation>, s: Address)
    ensures multiset(FromSource(ds, s, false)) + multiset(FromSource(ds, s, true)) == multiset(ds)
  {
    if ds != [] {
      var front, d := ds[..|ds| - 1], ds[|ds| - 1];
      assert ds == front + [d];
      FromSourceSplits(front, s);
    }
  }

  lemma Pull(ds: seq<Delegation>, d: Delegation) returns (rest: seq<Delegation>)
    requires d in ds
    ensures multiset(ds) == multiset(rest) + multiset{d} && forall f | f in rest :: f in ds
  {
    var i :| 0 <= i < |ds| && ds[i] == d;
    rest := ds[..i] + ds[i + 1..];
    assert ds == ds[..i] + [d] + ds[i + 1..];
  }

  /** The rows of other sources, and those of the source of `d` without `d`. */
  lemma SetApart(ds: seq<Delegation>, d: Delegation) returns (others: seq<Delegation>, rest: seq<Delegation>)
    requires d in ds
    ensures multiset(ds) == multiset(others) + multiset(rest) + multiset{d}
    ensures (forall f | f in others :: f.source != d.source) && forall f | f in rest :: f.source == d.source
  {
    others := FromSource(ds, d.source, false);
    var own := FromSource(ds, d.source, true);
    FromSourceSplits(ds, d.source);
    assert d in multiset(ds) && d !in multiset(others);
    assert d in multiset(own);
    rest := Pull(own, d);
  }

  /** A source without balance moves nothing. */
  lemma {:induction false} EmptySourceMovesNothing(m: map<Address, int>, ds: seq<Delegation>, s: Address, x: Address)
    requires Get(m, s) == 0 && forall d | d in ds :: d.source == s
    ensures Get(Reassigned(m, ds), x) == Get(m, x)
  {
    if ds != [] {
      var front, d := ds[..|ds| - 1], ds[|ds| - 1];
      assert d in ds && forall e | e in front :: e in ds;
      EmptySourceMovesNothing(m, front, s, x);
      EmptySourceMovesNothing(m, front, s, s);
      MoveEntry(Reassigned(m, front), d, x);
    }
  }

  /** An order in which `d` is the first row of its source: a lone unit at the source goes where `d` sends it. */
  lemma FirstRowDecides(ds: seq<Delegation>, d: Delegation) returns (p: seq<Delegation>)
    requires d in ds
    ensures multiset(p) == multiset(ds)
    ensures forall x :: Get(Reassigned(map[d.source := 1], p), x) == if x == d.delegate && x != d.source then 1 else 0
  {
    var m := map[d.source := 1];
    var others, rest := SetApart(ds, d);
    p := others + [d] + rest;
    AbsentSourcesMoveNothing(m, others);
    ReassignedConcat(m, others, [d]);
    ReassignedSingle(m, d);
    ReassignedConcat(m, others + [d], rest);
    forall x ensures Get(Reassigned(m, p), x) == if x == d.delegate && x != d.source then 1 else 0 {
      EmptySourceMovesNothing(Move(m, d), rest, d.source, x);
    }
  }

  /** Two delegates of one account: the row that comes first gets the balance. */
  lemma ForkDependsOnOrder(ds: seq<Delegation>, d: Delegation, e: Delegation)
    requires d in ds && e in ds && d != e && d.source == e.source
    ensures !OrderIrrelevant(ds)
  {
    var m := map[d.source := 1];
    var p := FirstRowDecides(ds, d);
    var q := FirstRowDecides(ds, e);
    var x := if d.delegate != d.source then d.delegate else e.delegate;
    assert Get(Reassigned(m, p), x) != Get(Reassigned(m, q), x);
    OrderMatters(ds, m, p, q);
  }

  lemma ChainPair(d: Delegation, e: Delegation)
    requires e.source != d.source == e.delegate
    ensures Reassigned(map[e.source := 1], [e, d]) != Reassigned(map[e.source := 1], [d, e])
  {
    var m := map[e.source := 1];
    ReassignedPair(m, e, d);
    ReassignedPair(m, d, e);
    assert Get(Move(Move(m, e), d), d.source) == 0 && Get(Move(Move(m, d), e), d.source) == 1;
  }

  lemma PullBoth(ds: seq<Delegation>, d: Delegation, e: Delegation) returns (rest: seq<Delegation>)
    requires NoDuplicates(ds) && d in ds && e in ds && d != e
    ensures multiset(rest + [e, d]) == multiset(ds) == multiset(rest + [d, e])
    ensures forall f | f in rest :: f in ds && f != e
  {
    CountInList(ds, e);
    var more := Pull(ds, e);
    assert multiset(more)[e] == 0;
    assert d in multiset(ds) && d in multiset(more);
    rest := Pull(more, d);
    assert forall f | f in rest :: f in multiset(more);
  }

  /** `e` moves to the source of `d`: the balance travels one step or two. */
  lemma ChainDependsOnOrder(ds: seq<Delegation>, d: Delegation, e: Delegation)
    requires NoDuplicates(ds) && d in ds && e in ds && e.source != d.source == e.delegate
    requires forall f | f in ds && f.source == e.source :: f == e
    ensures !OrderIrrelevant(ds)
  {
    var m := map[e.source := 1];
    var rest := PullBoth(ds, d, e);
    AbsentSourcesMoveNothing(m, rest);
    ReassignedConcat(m, rest, [e, d]);
    ReassignedConcat(m, rest, [d, e]);
    ChainPair(d, e);
    OrderMatters(ds, m, rest + [e, d], rest + [d, e]);
  }

  /** The exact condition: the unordered query is harmless for every ledger if and only if its rows are independent. */
  lemma OrderIrrelevantExactly(ds: seq<Delegation>)
    requires NoDuplicates(ds)
    ensures OrderIrrelevant(ds) <==> Independent(ds)
  {
    if Independent(ds) {
      DistinctRowsOnce(ds);
      forall m, p, q | multiset(p) == multiset(ds) && multiset(q) == multiset(ds)
        ensures Reassigned(m, p) == Reassigned(m, q)
      {
        ReassignmentOrderIrrelevant(m, ds, p);
        ReassignmentOrderIrrelevant(m, ds, q);
      }
    } else {
      var d, e :| d in ds && e in ds && d != e && (d.source == e.source || d.source == e.delegate);
      if f, g :| f in ds && g in ds && f != g && f.source == g.source {
        ForkDependsOnOrder(ds, f, g);
      } else {
        ChainDependsOnOrder(ds, d, e);
      }
    }
  }
}
