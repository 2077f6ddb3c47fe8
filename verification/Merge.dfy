/** Merging LP and trader balances into the report (internal/etherfi/etherfi.go, combineBalances). */
module Merge {
  import opened Wrappers
  import opened Sums
  import opened Traders

  /** A report line, in integer pool-token units. */
  datatype Balance = Balance(address: Address, amount: int)

  function AmountOf(): Balance -> int { (b: Balance) => b.amount }

  function Total(report: seq<Balance>): int { SumBy(AmountOf(), report) }

  function Addresses(report: seq<Balance>): seq<Address> {
    seq(|report|, i requires 0 <= i < |report| => report[i].address)
  }

  /** The shared map once the listed addresses have been reported: their entries are zero. */
  function Zeroed(m: map<Address, int>, addrs: seq<Address>): map<Address, int> {
    map a | a in m :: if a in addrs then 0 else m[a]
  }

  /** What the k-th listed address gets; a repeated address meets its trader balance only once. */
  function ListedAmount(addrs: seq<Address>, lpBal: seq<int>, m: map<Address, int>, k: nat): int
    requires k < |addrs| <= |lpBal|
  {
    lpBal[k] + if addrs[k] in addrs[..k] then 0 else Get(m, addrs[k])
  }

  /** The lines for the listed addresses: a zero balance is reported only when the list was requested. */
  function Listed(addrs: seq<Address>, exactAddr: bool, lpBal: seq<int>, m: map<Address, int>): seq<Balance>
    requires |addrs| <= |lpBal|
  {
    if addrs == [] then []
    else
      var n := |addrs| - 1;
      var bal := ListedAmount(addrs, lpBal, m, n);
      Listed(addrs[..n], exactAddr, lpBal, m) +
      if bal == 0 && !exactAddr then [] else [Balance(addrs[n], bal)]
  }

  /** `lines` names every address of `m` with a nonzero value once, in some order. */
  ghost predicate Enumerates(lines: seq<Balance>, m: map<Address, int>) {
    && NoDuplicates(Addresses(lines))
    && forall a, v :: Balance(a, v) in lines <==> a in m && m[a] == v && v != 0
  }

  lemma ZeroedNext(m: map<Address, int>, addrs: seq<Address>, k: nat)
    requires k < |addrs|
    ensures addrs[k] in Zeroed(m, addrs[..k]) <==> addrs[k] in m
    ensures Get(Zeroed(m, addrs[..k]), addrs[k]) == if addrs[k] in addrs[..k] then 0 else Get(m, addrs[k])
    ensures Zeroed(m, addrs[..k + 1]) ==
            if addrs[k] in m then Zeroed(m, addrs[..k])[addrs[k] := 0] else Zeroed(m, addrs[..k])
  {
    assert addrs[..k + 1] == addrs[..k] + [addrs[k]];
  }

  lemma ListedNext(addrs: seq<Address>, exactAddr: bool, lpBal: seq<int>, m: map<Address, int>, k: nat)
    requires k < |addrs| <= |lpBal|
    ensures Listed(addrs[..k + 1], exactAddr, lpBal, m) ==
            Listed(addrs[..k], exactAddr, lpBal, m) +
            var bal := ListedAmount(addrs, lpBal, m, k);
            if bal == 0 && !exactAddr then [] else [Balance(addrs[k], bal)]
  {
    assert addrs[..k + 1][..k] == addrs[..k];
  }

  /** First loop of combineBalances. */
  method ReportListed(addrs: seq<Address>, exactAddr: bool, lpBal: seq<int>, traderBal: Ledger)
    returns (balances: seq<Balance>)
    requires |addrs| <= |lpBal|
    modifies traderBal
    ensures balances == Listed(addrs, exactAddr, lpBal, old(traderBal.bal))
    ensures traderBal.bal == Zeroed(old(traderBal.bal), addrs)
  {
    balances := [];
    ghost var m := traderBal.bal;
    assert Zeroed(m, addrs[..0]) == m;
    for k := 0 to |addrs|
      invariant balances == Listed(addrs[..k], exactAddr, lpBal, m)
      invariant traderBal.bal == Zeroed(m, addrs[..k])
    {
      var addr := addrs[k];
      ZeroedNext(m, addrs, k);
      ListedNext(addrs, exactAddr, lpBal, m, k);
      var bal := lpBal[k];
      if addr in traderBal.bal {
        bal := bal + traderBal.bal[addr];
        traderBal.bal := traderBal.bal[addr := 0];
      }
      if bal == 0 {
        if exactAddr {
          balances := balances + [Balance(addr, 0)];
        }
        continue;
      }
      balances := balances + [Balance(addr, bal)];
    }
    assert addrs[..|addrs|] == addrs;
  }

  /** Second loop of combineBalances: Go visits the map in an order of its own choosing. */
  method AddTraders(traderBal: Ledger) returns (lines: seq<Balance>)
    ensures Enumerates(lines, traderBal.bal)
  {
    lines := [];
    var rest := traderBal.bal.Keys;
    while rest != {}
      invariant rest <= traderBal.bal.Keys
      invariant NoDuplicates(Addresses(lines))
      invariant forall a, v :: Balance(a, v) in lines <==>
                  a in traderBal.bal && a !in rest && traderBal.bal[a] == v && v != 0
      decreases |rest|
    {
      var addr :| addr in rest;
      var bal := traderBal.bal[addr];
      rest := rest - {addr};
      if bal == 0 {
        continue;
      }
      forall i | 0 <= i < |lines| ensures Addresses(lines)[i] != addr {
        assert Balance(lines[i].address, lines[i].amount) in lines;
      }
      assert Addresses(lines + [Balance(addr, bal)]) == Addresses(lines) + [addr];
      lines := lines + [Balance(addr, bal)];
    }
  }

  /** etherfi.go combineBalances. Go panics when lpBal is shorter than addrs. */
  method CombineBalances(addrs: seq<Address>, exactAddr: bool, lpBal: seq<int>, traderBal: Ledger)
    returns (balances: seq<Balance>)
    requires |addrs| <= |lpBal|
    modifies traderBal
    ensures exactAddr ==> balances == Listed(addrs, true, lpBal, old(traderBal.bal))
    ensures !exactAddr ==> IsUniverseReport(balances, addrs, lpBal, old(traderBal.bal))
    ensures traderBal.bal == Zeroed(old(traderBal.bal), addrs)
  {
    balances := ReportListed(addrs, exactAddr, lpBal, traderBal);
    if exactAddr {
      return;
    }
    var traders := AddTraders(traderBal);
    balances := balances + traders;
  }

  /** The lines of the listed addresses followed by the remaining traders in some order. */
  ghost predicate IsUniverseReport(report: seq<Balance>, addrs: seq<Address>, lpBal: seq<int>, m: map<Address, int>)
    requires |addrs| <= |lpBal|
  {
    exists traders :: report == Listed(addrs, false, lpBal, m) + traders && Enumerates(traders, Zeroed(m, addrs))
  }

  // ---------- what the report says ----------

  /** An address's LP balance: the entry at its position in the list. */
  function LpOf(addrs: seq<Address>, lpBal: seq<int>, a: Address): int
    requires |addrs| <= |lpBal|
  {
    if addrs == [] then 0
    else if addrs[|addrs| - 1] == a then lpBal[|addrs| - 1]
    else LpOf(addrs[..|addrs| - 1], lpBal, a)
  }

  lemma {:induction false} LpOfAt(addrs: seq<Address>, lpBal: seq<int>, k: nat)
    requires k < |addrs| <= |lpBal| && NoDuplicates(addrs)
    ensures LpOf(addrs, lpBal, addrs[k]) == lpBal[k]
  {
    if k < |addrs| - 1 {
      LpOfAt(addrs[..|addrs| - 1], lpBal, k);
    }
  }

  lemma {:induction false} LpOfStranger(addrs: seq<Address>, lpBal: seq<int>, a: Address)
    requires |addrs| <= |lpBal| && a !in addrs
    ensures LpOf(addrs, lpBal, a) == 0
  {
    if addrs != [] {
      LpOfStranger(addrs[..|addrs| - 1], lpBal, a);
    }
  }

  lemma AmountInPrefix(addrs: seq<Address>, lpBal: seq<int>, m: map<Address, int>, n: nat, k: nat)
    requires k < n <= |addrs| <= |lpBal|
    ensures ListedAmount(addrs[..n], lpBal, m, k) == ListedAmount(addrs, lpBal, m, k)
  {
    assert addrs[..n][..k] == addrs[..k];
  }

  /** Exact mode: one line per requested address, in request order, zeroes included. */
  lemma {:induction false} ExactReport(addrs: seq<Address>, lpBal: seq<int>, m: map<Address, int>)
    requires |addrs| <= |lpBal|
    ensures |Listed(addrs, true, lpBal, m)| == |addrs|
    ensures forall k | 0 <= k < |addrs| ::
              Listed(addrs, true, lpBal, m)[k] == Balance(addrs[k], ListedAmount(addrs, lpBal, m, k))
  {
    if addrs != [] {
      var n := |addrs| - 1;
      ExactReport(addrs[..n], lpBal, m);
      forall k | 0 <= k < n
        ensures Listed(addrs[..n], true, lpBal, m)[k] == Balance(addrs[k], ListedAmount(addrs, lpBal, m, k))
      {
        AmountInPrefix(addrs, lpBal, m, n, k);
      }
    }
  }

  lemma AppendLine(lines: seq<Balance>, line: Balance)
    requires NoDuplicates(Addresses(lines)) && forall b | b in lines :: b.address != line.address
    ensures NoDuplicates(Addresses(lines + [line]))
  {
    assert Addresses(lines + [line]) == Addresses(lines) + [line.address];
  }

  /** The listed lines of universe mode, for distinct addresses. */
  lemma {:induction false} ListedLines(addrs: seq<Address>, lpBal: seq<int>, m: map<Address, int>)
    requires |addrs| <= |lpBal| && NoDuplicates(addrs)
    ensures NoDuplicates(Addresses(Listed(addrs, false, lpBal, m)))
    ensures forall b :: b in Listed(addrs, false, lpBal, m) <==>
              b.address in addrs && b.amount != 0 && b.amount == LpOf(addrs, lpBal, b.address) + Get(m, b.address)
  {
    if addrs != [] {
      var n := |addrs| - 1;
      var front, line := Listed(addrs[..n], false, lpBal, m), Balance(addrs[n], ListedAmount(addrs, lpBal, m, n));
      ListedLines(addrs[..n], lpBal, m);
      assert addrs == addrs[..n] + [addrs[n]];
      assert addrs[n] !in addrs[..n];
      assert Listed(addrs, false, lpBal, m) == if line.amount == 0 then front else front + [line] by {
        assert front + [] == front;
      }
      if line.amount != 0 {
        AppendLine(front, line);
      }
    }
  }

  lemma DisjointLines(lines: seq<Balance>, more: seq<Balance>)
    requires NoDuplicates(Addresses(lines)) && NoDuplicates(Addresses(more))
    requires forall b, c | b in lines && c in more :: b.address != c.address
    ensures NoDuplicates(Addresses(lines + more))
  {
    assert Addresses(lines + more) == Addresses(lines) + Addresses(more);
    forall i, j | 0 <= i < |lines| && 0 <= j < |more| ensures Addresses(lines)[i] != Addresses(more)[j] {
      assert lines[i] in lines && more[j] in more;
    }
  }

  /** Universe mode: no address twice, no zero, and every amount is LP plus trader balance. */
  lemma UniverseIsPointwiseSum(report: seq<Balance>, addrs: seq<Address>, lpBal: seq<int>, m: map<Address, int>)
    requires |addrs| <= |lpBal| && NoDuplicates(addrs)
    requires IsUniverseReport(report, addrs, lpBal, m)
    ensures NoDuplicates(Addresses(report))
    ensures forall b :: b in report <==>
              b.amount != 0 && b.amount == LpOf(addrs, lpBal, b.address) + Get(m, b.address)
  {
    var lines := Listed(addrs, false, lpBal, m);
    var traders: seq<Balance> :| report == lines + traders && Enumerates(traders, Zeroed(m, addrs));
    ListedLines(addrs, lpBal, m);
    TraderLines(traders, addrs, m);
    DisjointLines(lines, traders);
    forall b: Balance
      ensures b in report <==> b.amount != 0 && b.amount == LpOf(addrs, lpBal, b.address) + Get(m, b.address)
    {
      if b.address !in addrs {
        LpOfStranger(addrs, lpBal, b.address);
      }
    }
  }

  lemma TraderLines(traders: seq<Balance>, addrs: seq<Address>, m: map<Address, int>)
    requires Enumerates(traders, Zeroed(m, addrs))
    ensures forall b :: b in traders <==> b.address !in addrs && b.amount != 0 && b.amount == Get(m, b.address)
  {
    forall b: Balance
      ensures b in traders <==> b.address !in addrs && b.amount != 0 && b.amount == Get(m, b.address)
    {
      assert b == Balance(b.address, b.amount);
    }
  }

  // ---------- conservation ----------

  lemma {:induction false} ListedTotal(addrs: seq<Address>, exactAddr: bool, lpBal: seq<int>, m: map<Address, int>)
    requires |addrs| <= |lpBal|
    ensures Total(Listed(addrs, exactAddr, lpBal, m)) + MapSum(Zeroed(m, addrs)) == Sum(lpBal[..|addrs|]) + MapSum(m)
  {
    if addrs == [] {
      assert Zeroed(m, addrs) == m;
    } else {
      var n := |addrs| - 1;
      var front, bal := Listed(addrs[..n], exactAddr, lpBal, m), ListedAmount(addrs, lpBal, m, n);
      ListedTotal(addrs[..n], exactAddr, lpBal, m);
      SumByAppend(AmountOf(), front, Balance(addrs[n], bal));
      assert front + [] == front;
      assert lpBal[..n + 1] == lpBal[..n] + [lpBal[n]];
      SumByAppend(Identity(), lpBal[..n], lpBal[n]);
      ZeroedStep(m, addrs, n);
    }
  }

  lemma ZeroedStep(m: map<Address, int>, addrs: seq<Address>, n: nat)
    requires n + 1 == |addrs|
    ensures MapSum(Zeroed(m, addrs)) ==
            MapSum(Zeroed(m, addrs[..n])) - if addrs[n] in addrs[..n] then 0 else Get(m, addrs[n])
  {
    assert addrs[..n + 1] == addrs;
    ZeroedNext(m, addrs, n);
    MapSumUpdate(Zeroed(m, addrs[..n]), addrs[n], 0);
  }

  function ValueIn(m: map<Address, int>): Address -> int { a => Get(m, a) }

  lemma EnumerationTotal(lines: seq<Balance>, m: map<Address, int>)
    requires Enumerates(lines, m)
    ensures Total(lines) == MapSum(m)
  {
    var keys := Addresses(lines);
    forall a | a in m && m[a] != 0 ensures a in keys {
      var i :| 0 <= i < |lines| && lines[i] == Balance(a, m[a]);
      assert keys[i] == a;
    }
    MapSumBySequence(m, keys, ValueIn(m));
    AmountsAreValues(lines, m);
  }

  lemma {:induction false} AmountsAreValues(lines: seq<Balance>, m: map<Address, int>)
    requires forall i | 0 <= i < |lines| :: lines[i].amount == Get(m, lines[i].address)
    ensures Total(lines) == SumBy(ValueIn(m), Addresses(lines))
  {
    if lines != [] {
      var n := |lines| - 1;
      AmountsAreValues(lines[..n], m);
      assert Addresses(lines)[..n] == Addresses(lines[..n]);
    }
  }

  /** Nothing is lost or counted twice in universe mode, for any list and any map iteration order. */
  lemma UniverseConserves(report: seq<Balance>, addrs: seq<Address>, lpBal: seq<int>, m: map<Address, int>)
    requires |addrs| <= |lpBal|
    requires IsUniverseReport(report, addrs, lpBal, m)
    ensures Total(report) == Sum(lpBal[..|addrs|]) + MapSum(m)
  {
    var lines := Listed(addrs, false, lpBal, m);
    var traders: seq<Balance> :| report == lines + traders && Enumerates(traders, Zeroed(m, addrs));
    SumByConcat(AmountOf(), lines, traders);
    ListedTotal(addrs, false, lpBal, m);
    EnumerationTotal(traders, Zeroed(m, addrs));
  }
}
