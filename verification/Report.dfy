/** The balance report as a whole, and what it conserves (internal/etherfi/etherfi.go, Balances). */
module Report {
  import opened Wrappers
  import opened Sums
  import opened Traders
  import opened Reassignment
  import opened Attribution
  import opened Merge
  import opened Chain
  import opened Token
  import opened Horizon
  import opened Store
  import opened Delegates
  import opened Holders
  import opened Paging

  const LP_TRIALS := 3

  /** Everything the RPC answers while one report is built. */
  datatype World = World(
    perps: seq<PerpQueries>,         // traders and cash per perpetual, with the calls that fail
    toDecN: int -> int,              // conversion of cash to pool-token decimals
    supply: seq<TrialAnswer>,        // share-token supply, one answer per trial
    balanceOf: Address -> int,       // share-token balances at the block
    lpFailing: seq<set<nat>>,        // for each trial, the batches that fail
    pool: seq<TrialAnswer>           // pool-token balance of the proxy, one answer per trial
  ) {
    predicate Answering() {
      && (forall i | 0 <= i < |perps| :: perps[i].Tried())
      && |supply| == TRIALS && |pool| == TRIALS && |lpFailing| == LP_TRIALS
    }

    /** The accounts of all perpetuals, or why they cannot be had. */
    function Gathered(): Answer<seq<Account>> { Gather(Answers(perps, toDecN)) }
  }

  /** etherfi.go QueryLpBalances */
  method QueryLpBalances(addrs: seq<Address>, w: World) returns (lp: Option<(seq<int>, int)>)
    requires w.Answering()
    ensures lp.None? <==> LpFails(w, |addrs|)
    ensures lp.Some? ==> lp.value.1 == Settled(w.supply).value
    ensures lp.Some? ==> lp.value.0 == if lp.value.1 == 0 then [] else Map(w.balanceOf, addrs)
  {
    var total := RetryQuery(w.supply);
    if total.None? {
      return None;
    }
    if total.value == 0 {
      return Some(([], 0));
    }
    for trial := 0 to LP_TRIALS
      invariant forall i | 0 <= i < trial :: !GoesThrough(|addrs|, MULTICALL_BATCH, w.lpFailing[i])
    {
      assert w.lpFailing[trial] in w.lpFailing;
      var balcs := QueryMultiTokenBalance(addrs, w.balanceOf, w.lpFailing[trial]);
      if balcs.Some? {
        return Some((balcs.value, total.value));
      }
    }
    lp := None;
  }

  datatype Outcome =
    | Lines(lines: seq<Balance>)
    | QueryError
    | IndexPanic // combineBalances indexes lpBal beyond its end

  /** What Balances works out on the way to its report. */
  datatype Working = Working(
    addrs: seq<Address>,             // the requested addresses, or the holders
    delegations: seq<Delegation>,    // strategy delegations in the order the database returned them
    traders: map<Address, int>       // cash per trader before re-assignment
  )

  ghost function LpBalances(w: World, k: Working): seq<int>
    requires Settled(w.supply).Some? && Settled(w.supply).value != 0 && Settled(w.pool).Some?
  {
    Attributed(Map(w.balanceOf, k.addrs), Settled(w.supply).value, Settled(w.pool).value - MapSum(k.traders))
  }

  /** The address list: what was requested, or else all holders at the block. */
  ghost predicate AddressesAsAsked(requested: seq<Address>, holderRows: seq<Row>, block: nat, addrs: seq<Address>) {
    if requested == [] then Lists(addrs, HolderSet(holderRows, block)) else addrs == requested
  }

  /** Trader cash and delegations are what the queries say. */
  ghost predicate TradersAsQueried(delegateRows: seq<Row>, proxy: Address, block: nat, w: World,
                                   delegations: seq<Delegation>, traders: map<Address, int>) {
    && Lists(delegations, StrategySet(delegateRows, block))
    && match w.Gathered()
       case NoContract => traders == map[]
       case Failed => false
       case Got(accounts) => IsAggregate(traders, accounts, proxy)
  }

  ghost predicate Consistent(requested: seq<Address>, holderRows: seq<Row>, delegateRows: seq<Row>,
                             proxy: Address, block: nat, w: World, k: Working) {
    && AddressesAsAsked(requested, holderRows, block, k.addrs)
    && TradersAsQueried(delegateRows, proxy, block, w, k.delegations, k.traders)
  }

  /** The report itself, in either mode. */
  ghost predicate IsReport(exactAddr: bool, w: World, k: Working, lines: seq<Balance>) {
    && Settled(w.supply).Some?
    && var ledger := Reassigned(k.traders, k.delegations);
       if Settled(w.supply).value == 0 then
         k.addrs == [] && !exactAddr && IsUniverseReport(lines, [], [], ledger)
       else
         && Settled(w.pool).Some?
         && if exactAddr then lines == Listed(k.addrs, true, LpBalances(w, k), ledger)
            else IsUniverseReport(lines, k.addrs, LpBalances(w, k), ledger)
  }

  /** The first goroutine of Balances: trader cash, re-assigned to delegates in place. */
  method TraderWorker(db: Database, delegates: EventStore, proxy: Address, block: nat, w: World)
    returns (traderBal: Option<Ledger>, total: int, ghost delegations: seq<Delegation>, ghost traders: map<Address, int>)
    requires w.Answering()
    modifies db
    ensures traderBal.None? <==> w.Gathered().Failed? || db.failures != old(db.failures)
    ensures db.failures >= old(db.failures)
    ensures traderBal.Some? ==>
              && fresh(traderBal.value)
              && TradersAsQueried(delegates.rows, proxy, block, w, delegations, traders)
              && traderBal.value.bal == Reassigned(traders, delegations) && total == MapSum(traders)
  {
    delegations, traders := [], map[];
    traderBal, total := QueryTraderBalances(w.perps, proxy, w.toDecN);
    if traderBal.None? {
      return;
    }
    traders := traderBal.value.bal;
    var found := DbFindStrategyDelegates(db, delegates, block);
    if found.None? {
      return None, total, [], map[];
    }
    delegations := Pairs(found.value.0, found.value.1);
    ReassignTraderBalances(traderBal.value, found.value.0, found.value.1);
  }

  /** The rest of Balances: attribution and merge, once both goroutines have delivered. */
  method Compose(exactAddr: bool, w: World, ghost k: Working, addr: seq<Address>, lpBalcs: seq<int>, shTknTot: int,
                 traderBal: Ledger, total: int)
    returns (out: Outcome)
    requires w.Answering() && addr == k.addrs && (exactAddr ==> addr != [])
    requires Settled(w.supply) == Some(shTknTot)
    requires lpBalcs == if shTknTot == 0 then [] else Map(w.balanceOf, addr)
    requires traderBal.bal == Reassigned(k.traders, k.delegations) && total == MapSum(k.traders)
    modifies traderBal
    ensures out.Lines? ==> IsReport(exactAddr, w, k, out.lines)
    ensures out.IndexPanic? <==> shTknTot == 0 && addr != []
    ensures out.QueryError? <==> PoolFails(w)
  {
    var lpBal := AttributeLpBalances(lpBalcs, shTknTot, total, w.pool);
    if lpBal.None? {
      return QueryError;
    }
    if |lpBal.value| < |addr| {
      return IndexPanic;
    }
    var lines := CombineBalances(addr, exactAddr, lpBal.value, traderBal);
    out := Lines(lines);
  }

  /** The LP query gives up: no supply, or three failed multicalls. */
  predicate LpFails(w: World, n: nat) {
    || Settled(w.supply).None?
    || (Settled(w.supply).value != 0 && forall f | f in w.lpFailing :: !GoesThrough(n, MULTICALL_BATCH, f))
  }

  predicate PoolFails(w: World)
    requires Settled(w.supply).Some?
  {
    Settled(w.supply).value != 0 && Settled(w.pool).None?
  }

  /** Which trials make the report fail: the supply's four, three multicalls of 500, or the pool balance's four. */
  lemma FailureCauses(w: World, n: nat)
    requires w.Answering()
    ensures LpFails(w, n) <==>
            || (forall i | 0 <= i < 4 :: w.supply[i].RpcError?)
            || (Settled(w.supply) != Some(0) && forall i | 0 <= i < 3 :: !GoesThrough(n, 500, w.lpFailing[i]))
    ensures !LpFails(w, n) ==>
              (PoolFails(w) <==> Settled(w.supply).value != 0 && forall i | 0 <= i < 4 :: w.pool[i].RpcError?)
  {
    SettledMeaning(w.supply);
    SettledMeaning(w.pool);
    assert forall i | 0 <= i < 3 :: w.lpFailing[i] in w.lpFailing;
  }

  /** Without share supply the report lists just the traders: every nonzero balance, once. */
  lemma ReportWithoutSupply(w: World, k: Working, exactAddr: bool, lines: seq<Balance>)
    requires IsReport(exactAddr, w, k, lines) && Settled(w.supply).value == 0
    ensures k.addrs == [] && !exactAddr && NoDuplicates(Addresses(lines))
    ensures forall l :: l in lines <==>
              l.amount != 0 && l.amount == Get(Reassigned(k.traders, k.delegations), l.address)
    ensures Total(lines) == MapSum(k.traders) - Burned(k.traders, k.delegations)
  {
    var ledger := Reassigned(k.traders, k.delegations);
    UniverseIsPointwiseSum(lines, [], [], ledger);
    UniverseConserves(lines, [], [], ledger);
    ReassignmentAccounting(k.traders, k.delegations);
  }

  /**
    etherfi.go Balances, with its two goroutines run one after the other; module Join shows that the
    original goes on only when both have delivered. Errors are reported exactly when a query failed,
    and the code panics exactly when there is no share supply but an address to report on.
   */
  method Balances(db: Database, transfers: EventStore, delegates: EventStore, proxy: Address, block: nat,
                  requested: seq<Address>, w: World)
    returns (out: Outcome, ghost k: Working)
    requires w.Answering()
    modifies db
    ensures db.failures != old(db.failures) || w.Gathered().Failed? ==> out.QueryError?
    ensures db.failures == old(db.failures) && !w.Gathered().Failed? ==>
              && Consistent(requested, transfers.rows, delegates.rows, proxy, block, w, k)
              && (out.QueryError? <==> LpFails(w, |k.addrs|) || PoolFails(w))
    ensures !out.QueryError? ==> (out.IndexPanic? <==> Settled(w.supply) == Some(0) && k.addrs != [])
    ensures out.Lines? ==> IsReport(requested != [], w, k, out.lines)
  {
    k := Working([], [], map[]);
    var addr := requested;
    if requested == [] {
      var holders := DbGetShareTokenHolders(db, transfers, block);
      if holders.None? {
        return QueryError, k;
      }
      addr := holders.value;
    }
    var traderBal, total;
    ghost var delegations, traders;
    traderBal, total, delegations, traders := TraderWorker(db, delegates, proxy, block, w);
    if traderBal.Some? {
      k := Working(addr, delegations, traders);
    }
    var lp := QueryLpBalances(addr, w);
    if traderBal.None? || lp.None? {
      return QueryError, k;
    }
    out := Compose(requested != [], w, k, addr, lp.value.0, lp.value.1, traderBal.value, total);
  }

  // ---------- conservation, end to end ----------

  ghost function NonzeroHolders(chain: Chain, b: int): set<Address>
    requires b < |chain|
  {
    set a | a in BalancesAt(chain, b) && BalanceOf(chain, b)(a) != 0
  }

  lemma NonzeroLast(f: Address -> int, addrs: seq<Address>)
    requires addrs != []
    ensures Nonzero(Map(f, addrs)) ==
            Nonzero(Map(f, addrs[..|addrs| - 1])) + if f(addrs[|addrs| - 1]) == 0 then 0 else 1
  {
    var n := |addrs| - 1;
    assert Map(f, addrs)[..n] == Map(f, addrs[..n]);
  }

  lemma {:induction false} CountHolders(s: set<Address>, f: Address -> int, addrs: seq<Address>)
    requires NoDuplicates(addrs)
    requires forall a :: a in s <==> a in addrs && f(a) != 0
    ensures Nonzero(Map(f, addrs)) == |s|
    decreases |addrs|
  {
    if addrs == [] {
      assert s == {};
    } else {
      var n := |addrs| - 1;
      var x := addrs[n];
      assert addrs == addrs[..n] + [x];
      NonzeroLast(f, addrs);
      CountHolders(s - {x}, f, addrs[..n]);
      if f(x) != 0 {
        assert s == (s - {x}) + {x};
      } else {
        assert s == s - {x};
      }
    }
  }

  lemma {:induction false} SumOfMap<A>(f: A -> int, items: seq<A>)
    ensures Sum(Map(f, items)) == SumBy(f, items)
  {
    if items != [] {
      var n := |items| - 1;
      SumOfMap(f, items[..n]);
      assert Map(f, items)[..n] == Map(f, items[..n]);
    }
  }

  /** A report over the holder universe, from the balances of a complete holder list. */
  lemma ReportTotal(w: World, k: Working, lines: seq<Balance>)
    requires IsReport(false, w, k, lines) && Settled(w.supply).value > 0
    requires SumBy(w.balanceOf, k.addrs) == Settled(w.supply).value
    ensures var P, n, burned := Settled(w.pool).value, Nonzero(Map(w.balanceOf, k.addrs)), Burned(k.traders, k.delegations);
            P - burned - (n - 1) <= Total(lines) <= P - burned
  {
    var supply, amount := Settled(w.supply).value, Settled(w.pool).value - MapSum(k.traders);
    var balcs, lpBal := Map(w.balanceOf, k.addrs), LpBalances(w, k);
    SumOfMap(w.balanceOf, k.addrs);
    FullAttribution(balcs, supply, amount);
    UniverseConserves(lines, k.addrs, lpBal, Reassigned(k.traders, k.delegations));
    assert lpBal[..|k.addrs|] == lpBal;
    ReassignmentAccounting(k.traders, k.delegations);
  }

  /** The report for all holders hands out the pool balance but for less than one unit per holder. */
  lemma ReportConservesAt(s: Stream, delegateRows: seq<Row>, b: nat,
                          proxy: Address, w: World, k: Working, lines: seq<Balance>)
    requires s.typ == TokenTransferEvent && Grounded(s) && Covered(s) && b <= Reach(s) && b < |s.chain|
    requires MintedAfter(s.chain, s.genesis) && Funded(TransfersUpTo(s.chain, b))
    requires forall a :: w.balanceOf(a) == BalanceOf(s.chain, b)(a)
    requires Settled(w.supply) == Some(SupplyAt(s.chain, b)) && SupplyAt(s.chain, b) > 0
    requires Consistent([], s.rows, delegateRows, proxy, b, w, k) && IsReport(false, w, k, lines)
    ensures var P, n := Settled(w.pool).value, |NonzeroHolders(s.chain, b)|;
            var burned := Burned(k.traders, k.delegations);
            && P - burned - (n - 1) <= Total(lines) <= P - burned
            && (BurnFree(k.delegations) ==> P - (n - 1) <= Total(lines) <= P)
  {
    HoldersComplete(s, b, k.addrs);
    SumByAgree(w.balanceOf, BalanceOf(s.chain, b), k.addrs);
    ReportTotal(w, k, lines);
    var holders := NonzeroHolders(s.chain, b);
    forall a ensures a in holders <==> a in k.addrs && w.balanceOf(a) != 0 {
      assert w.balanceOf(a) == BalanceOf(s.chain, b)(a);
    }
    CountHolders(holders, w.balanceOf, k.addrs);
    if BurnFree(k.delegations) {
      BurnFreeKeepsSum(k.traders, k.delegations);
    }
  }

  /**
    End to end: so it is after any run of scans, restarts and failures in which inserts complete, at
    any block both tables have reached. What self-delegations burn is missing on top.
   */
  lemma ReportConserves(states: seq<Stream>, actions: seq<Action>, i: nat, dlg: Stream, b: nat,
                        proxy: Address, w: World, k: Working, lines: seq<Balance>)
    requires IsRun(states, actions) && AllComplete(states, actions) && Initial(states[0]) && i < |states|
    requires states[i].typ == TokenTransferEvent && b <= LatestBlock(dlg, states[i]) && b < |states[i].chain|
    requires MintedAfter(states[i].chain, states[i].genesis) && Funded(TransfersUpTo(states[i].chain, b))
    requires forall a :: w.balanceOf(a) == BalanceOf(states[i].chain, b)(a)
    requires Settled(w.supply) == Some(SupplyAt(states[i].chain, b)) && SupplyAt(states[i].chain, b) > 0
    requires Consistent([], states[i].rows, dlg.rows, proxy, b, w, k) && IsReport(false, w, k, lines)
    ensures var P, n := Settled(w.pool).value, |NonzeroHolders(states[i].chain, b)|;
            var burned := Burned(k.traders, k.delegations);
            && P - burned - (n - 1) <= Total(lines) <= P - burned
            && (BurnFree(k.delegations) ==> P - (n - 1) <= Total(lines) <= P)
  {
    InitiallyCovered(states[0]);
    CoverageOverRuns(states, actions, i);
    ReportConservesAt(states[i], dlg.rows, b, proxy, w, k, lines);
  }

  /**
    The delegations the report works with: after any run of the delegates table in which inserts
    complete, and up to any block both tables have reached, those that accounts made on the chain, each once.
   */
  lemma ReportUsesChainDelegations(states: seq<Stream>, actions: seq<Action>, i: nat, transfers: Stream, b: nat,
                                   requested: seq<Address>, proxy: Address, w: World, k: Working)
    requires IsRun(states, actions) && AllComplete(states, actions) && Initial(states[0]) && i < |states|
    requires states[i].typ == SetDelegateEvent && b <= LatestBlock(states[i], transfers) && b < |states[i].chain|
    requires DelegatedAfter(states[i].chain, states[i].genesis)
    requires Consistent(requested, transfers.rows, states[i].rows, proxy, b, w, k)
    ensures NoDuplicates(k.delegations)
    ensures forall x, y :: Delegation(x, y) in k.delegations <==>
              exists n | 0 <= n <= b :: DelegateEvent(x, y, 2) in states[i].chain[n].delegations
  {
    InitiallyCovered(states[0]);
    CoverageOverRuns(states, actions, i);
    forall x, y
      ensures Delegation(x, y) in k.delegations <==>
              exists n | 0 <= n <= b :: DelegateEvent(x, y, 2) in states[i].chain[n].delegations
    {
      StrategySetExactly(states[i], b, x, y);
    }
  }

  /** The trader balances are the converted cash of the perpetuals, before delegations move it. */
  lemma ReportUsesConvertedCash(delegateRows: seq<Row>, proxy: Address, b: nat, w: World, k: Working)
    requires TradersAsQueried(delegateRows, proxy, b, w, k.delegations, k.traders) && w.Gathered().Got?
    ensures IsCashOf(k.traders, w.perps, proxy, w.toDecN)
  {
    AggregateIsCash(k.traders, w.perps, proxy, w.toDecN);
  }

  /** For the transfer table a working database is all it takes, so it is also all the report needs. */
  lemma ReportConservesWithWorkingDatabase(
      states: seq<Stream>, actions: seq<Action>, i: nat, dlg: Stream, b: nat,
      proxy: Address, w: World, k: Working, lines: seq<Balance>)
    requires IsRun(states, actions) && DatabaseWorked(states, actions) && Initial(states[0]) && i < |states|
    requires (forall s | s in states :: s.typ == TokenTransferEvent) && BurnFree(k.delegations)
    requires b <= LatestBlock(dlg, states[i]) && b < |states[i].chain|
    requires MintedAfter(states[i].chain, states[i].genesis) && Funded(TransfersUpTo(states[i].chain, b))
    requires forall a :: w.balanceOf(a) == BalanceOf(states[i].chain, b)(a)
    requires Settled(w.supply) == Some(SupplyAt(states[i].chain, b)) && SupplyAt(states[i].chain, b) > 0
    requires Consistent([], states[i].rows, dlg.rows, proxy, b, w, k) && IsReport(false, w, k, lines)
    ensures var P, n := Settled(w.pool).value, |NonzeroHolders(states[i].chain, b)|;
            P - (n - 1) <= Total(lines) <= P
  {
    TransferScansComplete(states, actions);
    assert states[i] in states;
    ReportConserves(states, actions, i, dlg, b, proxy, w, k, lines);
  }

  /** What the lines for requested addresses add up to, whatever the list. */
  lemma ExactTotal(w: World, k: Working, lines: seq<Balance>)
    requires IsReport(true, w, k, lines) && Settled(w.supply).value != 0
    ensures var ledger := Reassigned(k.traders, k.delegations);
            Total(lines) ==
              Sum(LpBalances(w, k)) + MapSum(k.traders) - Burned(k.traders, k.delegations) - MapSum(Zeroed(ledger, k.addrs))
  {
    ListedTotal(k.addrs, true, LpBalances(w, k), Reassigned(k.traders, k.delegations));
    assert LpBalances(w, k)[..|k.addrs|] == LpBalances(w, k);
    ReassignmentAccounting(k.traders, k.delegations);
  }

  /**
    Asked about some addresses only, the service attributes at most the pool's remainder to them, and the
    whole report stays within the pool by what self-delegations burn and by what the other traders hold.
   */
  lemma ExactStaysWithinPool(chain: Chain, b: nat, w: World, k: Working, lines: seq<Balance>)
    requires b < |chain| && Funded(TransfersUpTo(chain, b)) && NoDuplicates(k.addrs)
    requires forall a :: w.balanceOf(a) == BalanceOf(chain, b)(a)
    requires Settled(w.supply) == Some(SupplyAt(chain, b)) && SupplyAt(chain, b) > 0
    requires IsReport(true, w, k, lines) && Settled(w.pool).value >= MapSum(k.traders)
    ensures Sum(LpBalances(w, k)) <= Settled(w.pool).value - MapSum(k.traders)
    ensures var ledger := Reassigned(k.traders, k.delegations);
            Total(lines) <=
              Settled(w.pool).value - Burned(k.traders, k.delegations) - MapSum(Zeroed(ledger, k.addrs))
  {
    SomeOwnAtMostTheSupply(chain, b, k.addrs);
    SumByAgree(w.balanceOf, BalanceOf(chain, b), k.addrs);
    SumOfMap(w.balanceOf, k.addrs);
    PartialAttribution(Map(w.balanceOf, k.addrs), SupplyAt(chain, b), Settled(w.pool).value - MapSum(k.traders));
    ExactTotal(w, k, lines);
  }

  /** A request is not freed of repetitions: named twice, the only holder is attributed the remainder twice. */
  lemma RepeatedAddressCountsTwice(a: Address, w: World, k: Working)
    requires Settled(w.supply).Some? && Settled(w.supply).value > 0 && Settled(w.pool).Some?
    requires k.addrs == [a, a] && w.balanceOf(a) == Settled(w.supply).value
    ensures Sum(LpBalances(w, k)) == 2 * (Settled(w.pool).value - MapSum(k.traders))
  {
    var R, supply := Settled(w.pool).value - MapSum(k.traders), Settled(w.supply).value;
    WholeShare(supply, R);
    assert LpBalances(w, k) == [R] + [R];
    SumByAppend(Identity(), [R], R);
    SumByAppend(Identity(), [], R);
    assert [] + [R] == [R];
  }

  lemma WholeShare(supply: int, amount: int)
    requires supply > 0
    ensures Share(amount, supply)(supply) == amount
  {
    assert [supply][..0] == [] && [] + [supply] == [supply];
    SumByAppend(Identity(), [], supply);
    FullAttribution([supply], supply, amount);
    AttributedSum([supply], supply, amount);
    SumByAppend(Share(amount, supply), [], supply);
    assert Nonzero([supply]) == 1;
  }

  // ---------- the two query modes ----------

  /** Two listings of the same rows are permutations of each other. */
  lemma SameRows<T(!new)>(xs: seq<T>, ys: seq<T>, s: set<T>)
    requires Lists(xs, s) && Lists(ys, s)
    ensures multiset(xs) == multiset(ys)
  {
    forall x ensures multiset(xs)[x] == multiset(ys)[x] {
      CountInList(xs, x);
      CountInList(ys, x);
    }
  }

  /** What the report owes an address: its share of the pool and its (re-assigned) trader balance. */
  ghost function Owed(w: World, k: Working, a: Address): int
    requires Settled(w.supply).Some? && Settled(w.supply).value != 0 && Settled(w.pool).Some?
  {
    Share(Settled(w.pool).value - MapSum(k.traders), Settled(w.supply).value)(w.balanceOf(a))
    + Get(Reassigned(k.traders, k.delegations), a)
  }

  /** Universe mode lists exactly the nonzero amounts owed, when nobody with a share is left out. */
  lemma UniverseReportsOwed(w: World, k: Working, lines: seq<Balance>)
    requires IsReport(false, w, k, lines) && Settled(w.supply).value != 0
    requires NoDuplicates(k.addrs) && forall a | w.balanceOf(a) != 0 :: a in k.addrs
    ensures NoDuplicates(Addresses(lines))
    ensures forall l :: l in lines <==> l.amount != 0 && l.amount == Owed(w, k, l.address)
  {
    var lpBal := LpBalances(w, k);
    UniverseIsPointwiseSum(lines, k.addrs, lpBal, Reassigned(k.traders, k.delegations));
    forall a ensures LpOf(k.addrs, lpBal, a) + Get(Reassigned(k.traders, k.delegations), a) == Owed(w, k, a) {
      if a in k.addrs {
        var i :| 0 <= i < |k.addrs| && k.addrs[i] == a;
        LpOfAt(k.addrs, lpBal, i);
      } else {
        LpOfStranger(k.addrs, lpBal, a);
        ZeroShare(Settled(w.pool).value - MapSum(k.traders), Settled(w.supply).value);
      }
    }
  }

  /** Exact mode reports the amount owed to each requested address, in request order. */
  lemma ExactReportsOwed(w: World, k: Working, lines: seq<Balance>)
    requires IsReport(true, w, k, lines) && Settled(w.supply).value != 0
    requires NoDuplicates(k.addrs)
    ensures |lines| == |k.addrs|
    ensures forall i | 0 <= i < |k.addrs| :: lines[i] == Balance(k.addrs[i], Owed(w, k, k.addrs[i]))
  {
    ExactReport(k.addrs, LpBalances(w, k), Reassigned(k.traders, k.delegations));
  }

  lemma SameTraders(delegateRows: seq<Row>, proxy: Address, b: nat, w: World, k: Working, j: Working)
    requires TradersAsQueried(delegateRows, proxy, b, w, k.delegations, k.traders)
    requires TradersAsQueried(delegateRows, proxy, b, w, j.delegations, j.traders)
    ensures k.traders == j.traders
  {
    if w.Gathered().Got? {
      AggregateUnique(w.Gathered().value, w.Gathered().value, proxy, k.traders, j.traders);
    }
  }

  /** What is owed does not depend on the order of the delegations, if these are independent. */
  lemma OwedIsStable(requested: seq<Address>, holderRows: seq<Row>, delegateRows: seq<Row>, proxy: Address,
                     b: nat, w: World, k: Working, j: Working)
    requires Consistent(requested, holderRows, delegateRows, proxy, b, w, k)
    requires Consistent([], holderRows, delegateRows, proxy, b, w, j)
    requires Independent(k.delegations) || k.delegations == j.delegations
    requires Settled(w.supply).Some? && Settled(w.supply).value != 0 && Settled(w.pool).Some?
    ensures forall a :: Owed(w, k, a) == Owed(w, j, a)
  {
    SameTraders(delegateRows, proxy, b, w, k, j);
    if Independent(k.delegations) {
      DistinctRowsOnce(k.delegations);
      SameRows(k.delegations, j.delegations, StrategySet(delegateRows, b));
      ReassignmentOrderIrrelevant(k.traders, k.delegations, j.delegations);
    }
    assert Reassigned(k.traders, k.delegations) == Reassigned(j.traders, j.delegations);
  }

  lemma SameOwedSameAmounts(w: World, k: Working, exact: seq<Balance>, j: Working, universe: seq<Balance>)
    requires IsReport(true, w, k, exact) && IsReport(false, w, j, universe) && Settled(w.supply).value != 0
    requires NoDuplicates(k.addrs) && NoDuplicates(j.addrs)
    requires forall a | w.balanceOf(a) != 0 :: a in j.addrs
    requires forall a :: Owed(w, k, a) == Owed(w, j, a)
    ensures |exact| == |k.addrs|
    ensures forall i | 0 <= i < |k.addrs| :: exact[i].address == k.addrs[i]
    ensures forall i, v | 0 <= i < |k.addrs| && v != 0 ::
              exact[i].amount == v <==> Balance(k.addrs[i], v) in universe
  {
    UniverseReportsOwed(w, j, universe);
    ExactReportsOwed(w, k, exact);
  }

  lemma HoldersOf(s: Stream, b: nat, w: World, addrs: seq<Address>)
    requires s.typ == TokenTransferEvent && Grounded(s) && Covered(s) && b <= Reach(s) && b < |s.chain|
    requires MintedAfter(s.chain, s.genesis) && Funded(TransfersUpTo(s.chain, b))
    requires forall a :: w.balanceOf(a) == BalanceOf(s.chain, b)(a)
    requires Lists(addrs, HolderSet(s.rows, b))
    ensures NoDuplicates(addrs) && forall a | w.balanceOf(a) != 0 :: a in addrs
  {
    HoldersComplete(s, b, addrs);
    forall a | w.balanceOf(a) != 0 ensures a in addrs {
      assert BalanceOf(s.chain, b)(a) != 0;
    }
  }

  /**
    The two modes agree: asked for distinct addresses, the service answers with the amounts that the
    report over all holders contains for them, and with zero where that report has no line.
   */
  lemma ModesAgree(s: Stream, delegateRows: seq<Row>, proxy: Address, b: nat, w: World,
                   requested: seq<Address>, k: Working, exact: seq<Balance>, j: Working, universe: seq<Balance>)
    requires s.typ == TokenTransferEvent && Grounded(s) && Covered(s) && b <= Reach(s) && b < |s.chain|
    requires MintedAfter(s.chain, s.genesis) && Funded(TransfersUpTo(s.chain, b))
    requires forall a :: w.balanceOf(a) == BalanceOf(s.chain, b)(a)
    requires requested != [] && NoDuplicates(requested)
    requires Consistent(requested, s.rows, delegateRows, proxy, b, w, k) && IsReport(true, w, k, exact)
    requires Consistent([], s.rows, delegateRows, proxy, b, w, j) && IsReport(false, w, j, universe)
    requires Independent(k.delegations) || k.delegations == j.delegations
    requires Settled(w.supply).value != 0
    ensures |exact| == |requested|
    ensures forall i | 0 <= i < |requested| :: exact[i].address == requested[i]
    ensures forall i, v | 0 <= i < |requested| && v != 0 ::
              exact[i].amount == v <==> Balance(requested[i], v) in universe
  {
    OwedIsStable(requested, s.rows, delegateRows, proxy, b, w, k, j);
    HoldersOf(s, b, w, j.addrs);
    SameOwedSameAmounts(w, k, exact, j, universe);
  }
}
