/** Trader cash: gathered perpetual by perpetual and summed per address (internal/etherfi/evm.go). */
module Traders {
  import opened Wrappers
  import opened Sums
  import opened Paging

  /** One perpetual account: its owner and its available cash, which may be negative. */
  datatype Account = Account(trader: Address, cash: int)

  /** What a query gives back once its retries are over. */
  datatype Answer<+T> = Got(value: T) | NoContract | Failed

  const QUERY_TRIALS := 3

  /** One trial of the account query: which of its calls fail, and whether its error is a missing contract. */
  datatype ActiveTrial = ActiveTrial(countFails: bool, failing: set<nat>, noContract: bool)

  /**
    The two queries made for one perpetual: what the contract holds at the block, and for each trial
    the calls that fail.
   */
  datatype PerpQueries = PerpQueries(
    accounts: seq<Address>,
    availableCash: Address -> int,
    activeTrials: seq<ActiveTrial>,
    cashTrials: seq<set<nat>>
  ) {
    predicate TradersKnown() {
      exists t | t in activeTrials :: !t.countFails && GoesThrough(|accounts|, ACCOUNT_CHUNK, t.failing)
    }

    predicate CashKnown() {
      exists f | f in cashTrials :: GoesThrough(|accounts|, MULTICALL_BATCH, f)
    }

    /** The last trial's error is the one that is looked at. */
    predicate ContractMissing() {
      activeTrials != [] && activeTrials[|activeTrials| - 1].noContract
    }

    predicate Tried() { |activeTrials| == |cashTrials| == QUERY_TRIALS }
  }

  /** A Go map, shared by reference between the functions that fill and overwrite it. */
  class Ledger {
    var bal: map<Address, int>

    constructor (bal: map<Address, int>)
      ensures this.bal == bal
    {
      this.bal := bal;
    }
  }

  function Zip(traders: seq<Address>, cash: seq<int>): (accounts: seq<Account>)
    requires |traders| == |cash|
  {
    seq(|traders|, i requires 0 <= i < |traders| => Account(traders[i], cash[i]))
  }

  /** Each account of the perpetual with its own cash. */
  function Holdings(q: PerpQueries, toDecN: int -> int): seq<Account> {
    seq(|q.accounts|, i requires 0 <= i < |q.accounts| =>
      Account(q.accounts[i], toDecN(q.availableCash(q.accounts[i]))))
  }

  function AnswerOf(q: PerpQueries, toDecN: int -> int): Answer<seq<Account>> {
    if !q.TradersKnown() then if q.ContractMissing() then NoContract else Failed
    else if q.CashKnown() then Got(Holdings(q, toDecN))
    else Failed
  }

  /** The account query goes through in one of three trials of chunks of 100; the third one's error is looked at. */
  lemma AccountTrials(q: PerpQueries)
    requires q.Tried()
    ensures q.TradersKnown() <==>
            exists i | 0 <= i < 3 ::
              !q.activeTrials[i].countFails && GoesThrough(|q.accounts|, 100, q.activeTrials[i].failing)
    ensures q.ContractMissing() <==> q.activeTrials[2].noContract
  {
    if i :| 0 <= i < 3 && !q.activeTrials[i].countFails && GoesThrough(|q.accounts|, 100, q.activeTrials[i].failing) {
      assert q.activeTrials[i] in q.activeTrials;
    }
  }

  /** The cash query goes through in one of three trials of multicalls of 500. */
  lemma CashTrials(q: PerpQueries)
    requires q.Tried()
    ensures q.CashKnown() <==> exists i | 0 <= i < 3 :: GoesThrough(|q.accounts|, 500, q.cashTrials[i])
  {
    if i :| 0 <= i < 3 && GoesThrough(|q.accounts|, 500, q.cashTrials[i]) {
      assert q.cashTrials[i] in q.cashTrials;
    }
  }

  /** What a perpetual answers: each account with its converted cash, or the failure of the query that failed. */
  lemma AnswerMeaning(q: PerpQueries, toDecN: int -> int)
    requires q.Tried()
    ensures var answer := AnswerOf(q, toDecN);
            && (answer.Got? <==> q.TradersKnown() && q.CashKnown())
            && (answer.NoContract? <==> !q.TradersKnown() && q.activeTrials[2].noContract)
            && (answer.Got? ==>
                  && |answer.value| == |q.accounts|
                  && forall k | 0 <= k < |q.accounts| ::
                       answer.value[k] == Account(q.accounts[k], toDecN(q.availableCash(q.accounts[k]))))
  {
    AccountTrials(q);
  }

  function Answers(perps: seq<PerpQueries>, toDecN: int -> int): seq<Answer<seq<Account>>> {
    seq(|perps|, i requires 0 <= i < |perps| => AnswerOf(perps[i], toDecN))
  }

  /** The accounts of all perpetuals in order, or the first answer that stops the gathering. */
  function Gather(perps: seq<Answer<seq<Account>>>): Answer<seq<Account>> {
    if perps == [] then Got([])
    else
      var before, last := Gather(perps[..|perps| - 1]), perps[|perps| - 1];
      if before.Got? && last.Got? then Got(before.value + last.value)
      else if before.Got? then last
      else before
  }

  /** The gathering goes through when every answer does; otherwise the first that does not decides. */
  lemma {:induction false} FirstFailureDecides(perps: seq<Answer<seq<Account>>>, failure: Answer<seq<Account>>)
    requires !failure.Got?
    ensures Gather(perps).Got? <==> forall i | 0 <= i < |perps| :: perps[i].Got?
    ensures Gather(perps) == failure <==>
            exists i | 0 <= i < |perps| :: perps[i] == failure && forall j | 0 <= j < i :: perps[j].Got?
  {
    if perps != [] {
      var n := |perps| - 1;
      FirstFailureDecides(perps[..n], failure);
      assert forall i | 0 <= i < n :: perps[..n][i] == perps[i];
    }
  }

  /** What `a` is to have: its converted cash in each perpetual, once for each time it is listed there. */
  function CashAt(q: PerpQueries, toDecN: int -> int, a: Address): Address -> int {
    (x: Address) => if x == a then toDecN(q.availableCash(x)) else 0
  }

  function CashIn(toDecN: int -> int, a: Address): PerpQueries -> int {
    (q: PerpQueries) => SumBy(CashAt(q, toDecN, a), q.accounts)
  }

  lemma {:induction false} HoldingsOf(q: PerpQueries, toDecN: int -> int, a: Address, n: nat)
    requires n <= |q.accounts|
    ensures SumBy(CashOf(a), Holdings(q, toDecN)[..n]) == SumBy(CashAt(q, toDecN, a), q.accounts[..n])
    ensures a in Owners(Holdings(q, toDecN)[..n]) <==> a in q.accounts[..n]
  {
    if n > 0 {
      HoldingsOf(q, toDecN, a, n - 1);
      var held := Holdings(q, toDecN);
      assert held[..n] == held[..n - 1] + [held[n - 1]];
      assert q.accounts[..n] == q.accounts[..n - 1] + [q.accounts[n - 1]];
      SumByAppend(CashOf(a), held[..n - 1], held[n - 1]);
      SumByAppend(CashAt(q, toDecN, a), q.accounts[..n - 1], q.accounts[n - 1]);
      OwnersAppend(held[..n - 1], held[n - 1]);
    }
  }

  lemma OwnersConcat(xs: seq<Account>, ys: seq<Account>)
    ensures Owners(xs + ys) == Owners(xs) + Owners(ys)
  {
    assert forall x :: x in xs + ys <==> x in xs || x in ys;
  }

  /** One more perpetual. */
  lemma GatheredStep(before: seq<Account>, q: PerpQueries, toDecN: int -> int, a: Address)
    ensures SumBy(CashOf(a), before + Holdings(q, toDecN)) == SumBy(CashOf(a), before) + CashIn(toDecN, a)(q)
    ensures a in Owners(before + Holdings(q, toDecN)) <==> a in Owners(before) || a in q.accounts
  {
    var held := Holdings(q, toDecN);
    HoldingsOf(q, toDecN, a, |q.accounts|);
    assert held[..|q.accounts|] == held && q.accounts[..|q.accounts|] == q.accounts;
    SumByConcat(CashOf(a), before, held);
    OwnersConcat(before, held);
  }

  predicate ListedIn(perps: seq<PerpQueries>, a: Address) {
    exists p | 0 <= p < |perps| :: a in perps[p].accounts
  }

  lemma ListedInLast(perps: seq<PerpQueries>, a: Address)
    requires perps != []
    ensures ListedIn(perps, a) <==> ListedIn(perps[..|perps| - 1], a) || a in perps[|perps| - 1].accounts
  {
    assert forall p | 0 <= p < |perps| - 1 :: perps[..|perps| - 1][p] == perps[p];
  }

  /** What is gathered for an address is what it has in all perpetuals together. */
  lemma {:induction false} GatheredCash(perps: seq<PerpQueries>, toDecN: int -> int, a: Address)
    requires Gather(Answers(perps, toDecN)).Got?
    ensures SumBy(CashOf(a), Gather(Answers(perps, toDecN)).value) == SumBy(CashIn(toDecN, a), perps)
    ensures a in Owners(Gather(Answers(perps, toDecN)).value) <==> ListedIn(perps, a)
  {
    if perps != [] {
      var n := |perps| - 1;
      assert Answers(perps, toDecN)[..n] == Answers(perps[..n], toDecN);
      GatheredCash(perps[..n], toDecN, a);
      GatheredStep(Gather(Answers(perps[..n], toDecN)).value, perps[n], toDecN, a);
      ListedInLast(perps, a);
    }
  }

  /** The summand that picks out what `a` holds. */
  function CashOf(a: Address): Account -> int { (x: Account) => if x.trader == a then x.cash else 0 }

  function CashUnless(proxy: Address): Account -> int { (x: Account) => if x.trader == proxy then 0 else x.cash }

  function Owners(accounts: seq<Account>): set<Address> { set x | x in accounts :: x.trader }

  /** `m` holds, for every owner except the proxy, the sum of that owner's cash, and nothing else. */
  ghost predicate IsAggregate(m: map<Address, int>, accounts: seq<Account>, proxy: Address) {
    && (forall a :: a in m <==> a != proxy && a in Owners(accounts))
    && (forall a | a in m :: m[a] == SumBy(CashOf(a), accounts))
  }

  lemma OwnersAppend(accounts: seq<Account>, acc: Account)
    ensures Owners(accounts + [acc]) == Owners(accounts) + {acc.trader}
  {
    assert forall x :: x in accounts + [acc] <==> x in accounts || x == acc;
  }

  lemma CashOfStranger(accounts: seq<Account>, a: Address)
    requires a !in Owners(accounts)
    ensures SumBy(CashOf(a), accounts) == 0
  {
    SumByZero(CashOf(a), accounts);
  }

  /** Adding one account to an aggregate. */
  lemma AggregateStep(m: map<Address, int>, accounts: seq<Account>, acc: Account, proxy: Address)
    requires IsAggregate(m, accounts, proxy)
    ensures acc.trader == proxy ==> IsAggregate(m, accounts + [acc], proxy)
    ensures acc.trader != proxy ==>
              IsAggregate(m[acc.trader := Get(m, acc.trader) + acc.cash], accounts + [acc], proxy)
  {
    OwnersAppend(accounts, acc);
    forall a ensures SumBy(CashOf(a), accounts + [acc]) == SumBy(CashOf(a), accounts) + CashOf(a)(acc) {
      SumByAppend(CashOf(a), accounts, acc);
    }
    if acc.trader !in Owners(accounts) {
      CashOfStranger(accounts, acc.trader);
    }
  }

  /** A gathering that has stopped stays stopped, whatever perpetuals follow. */
  lemma {:induction false} GatherStops(perps: seq<Answer<seq<Account>>>, k: nat)
    requires k <= |perps| && !Gather(perps[..k]).Got?
    ensures Gather(perps) == Gather(perps[..k])
  {
    if k == |perps| {
      assert perps[..k] == perps;
    } else {
      var front := perps[..|perps| - 1];
      assert front[..k] == perps[..k];
      GatherStops(front, k);
    }
  }

  lemma GatherSnoc(perps: seq<Answer<seq<Account>>>, k: nat)
    requires k < |perps|
    ensures perps[..k + 1][..k] == perps[..k] && perps[..k + 1][k] == perps[k]
  {
  }

  /** evm.go queryActiveAddr: three trials; the error of the last one is reported. */
  method QueryActiveAddr(q: PerpQueries) returns (traders: Answer<seq<Address>>)
    requires |q.activeTrials| == QUERY_TRIALS
    ensures traders.Got? <==> q.TradersKnown()
    ensures traders.Got? ==> traders.value == q.accounts
    ensures !traders.Got? ==> (traders.NoContract? <==> q.ContractMissing())
  {
    var noContract := false;
    for trial := 0 to QUERY_TRIALS
      invariant forall i | 0 <= i < trial ::
        q.activeTrials[i].countFails || !GoesThrough(|q.accounts|, ACCOUNT_CHUNK, q.activeTrials[i].failing)
      invariant trial > 0 ==> noContract == q.activeTrials[trial - 1].noContract
    {
      var t := q.activeTrials[trial];
      assert t in q.activeTrials;
      var found := TryQueryActiveAddr(q.accounts, t.countFails, t.failing);
      if found.Some? {
        return Got(found.value);
      }
      noContract := t.noContract;
    }
    traders := if noContract then NoContract else Failed;
  }

  /** evm.go queryAvailCash: three trials, and any error means failure. */
  method QueryAvailCash(q: PerpQueries, toDecN: int -> int) returns (cash: Option<seq<int>>)
    requires |q.cashTrials| == QUERY_TRIALS
    ensures cash.Some? <==> q.CashKnown()
    ensures cash.Some? ==> |cash.value| == |q.accounts| && Zip(q.accounts, cash.value) == Holdings(q, toDecN)
    ensures cash.Some? ==> forall i | 0 <= i < |q.accounts| :: cash.value[i] == toDecN(q.availableCash(q.accounts[i]))
  {
    for trial := 0 to QUERY_TRIALS
      invariant forall i | 0 <= i < trial :: !GoesThrough(|q.accounts|, MULTICALL_BATCH, q.cashTrials[i])
    {
      assert q.cashTrials[trial] in q.cashTrials;
      cash := TryQueryAvailCash(q.accounts, q.availableCash, toDecN, q.cashTrials[trial]);
      if cash.Some? {
        return;
      }
    }
    cash := None;
  }

  /** evm.go QueryTraderBalances: gather all accounts, then group the cash by lower-case address. */
  method QueryTraderBalances(perps: seq<PerpQueries>, proxy: Address, toDecN: int -> int)
    returns (ledger: Option<Ledger>, total: int)
    requires forall i | 0 <= i < |perps| :: perps[i].Tried()
    ensures var all := Gather(Answers(perps, toDecN));
            && (ledger.None? <==> all.Failed?)
            && (all.NoContract? ==> ledger.Some? && ledger.value.bal == map[] && total == 0)
            && (all.Got? ==> ledger.Some? && IsAggregate(ledger.value.bal, all.value, proxy)
                             && total == SumBy(CashUnless(proxy), all.value))
            && (all.Got? ==> IsCashOf(ledger.value.bal, perps, proxy, toDecN))
    ensures ledger.Some? ==> fresh(ledger.value) && total == MapSum(ledger.value.bal)
  {
    var allTraders: seq<Address>, allCash: seq<int> := [], [];
    ghost var answers := Answers(perps, toDecN);
    assert Zip(allTraders, allCash) == [];
    for p := 0 to |perps|
      invariant |allTraders| == |allCash|
      invariant Gather(answers[..p]) == Got(Zip(allTraders, allCash))
    {
      GatherSnoc(answers, p);
      var traders := QueryActiveAddr(perps[p]);
      match traders {
        case NoContract =>
          GatherStops(answers, p + 1);
          var empty := new Ledger(map[]);
          return Some(empty), 0;
        case Failed =>
          GatherStops(answers, p + 1);
          return None, 0;
        case Got(found) =>
          var cash := QueryAvailCash(perps[p], toDecN);
          if cash.None? {
            GatherStops(answers, p + 1);
            return None, 0;
          }
          assert Zip(allTraders + found, allCash + cash.value) == Zip(allTraders, allCash) + Zip(found, cash.value);
          allTraders, allCash := allTraders + found, allCash + cash.value;
      }
    }
    assert answers[..|perps|] == answers;
    var bal;
    bal, total := Organize(allTraders, allCash, proxy);
    AggregateIsCash(bal, perps, proxy, toDecN);
    var filled := new Ledger(bal);
    ledger := Some(filled);
  }

  /** The map has every account of any perpetual but the proxy, with its converted cash summed over all of them. */
  ghost predicate IsCashOf(m: map<Address, int>, perps: seq<PerpQueries>, proxy: Address, toDecN: int -> int) {
    && (forall a :: a in m <==> a != proxy && ListedIn(perps, a))
    && (forall a | a in m :: m[a] == SumBy(CashIn(toDecN, a), perps))
  }

  lemma AggregateIsCash(m: map<Address, int>, perps: seq<PerpQueries>, proxy: Address, toDecN: int -> int)
    requires Gather(Answers(perps, toDecN)).Got? && IsAggregate(m, Gather(Answers(perps, toDecN)).value, proxy)
    ensures IsCashOf(m, perps, proxy, toDecN)
  {
    forall a
      ensures a in m <==> a != proxy && ListedIn(perps, a)
      ensures a in m ==> m[a] == SumBy(CashIn(toDecN, a), perps)
    {
      GatheredCash(perps, toDecN, a);
    }
  }

  /** The loop's state after `k` accounts. */
  ghost predicate Organized(bal: map<Address, int>, tot: int, accounts: seq<Account>, k: nat, proxy: Address)
    requires k <= |accounts|
  {
    && IsAggregate(bal, accounts[..k], proxy)
    && tot == MapSum(bal) == SumBy(CashUnless(proxy), accounts[..k])
  }

  lemma OrganizeStep(bal: map<Address, int>, tot: int, accounts: seq<Account>, k: nat, proxy: Address)
    requires k < |accounts| && Organized(bal, tot, accounts, k, proxy)
    ensures var addr, cash := accounts[k].trader, accounts[k].cash;
            if addr == proxy then Organized(bal, tot, accounts, k + 1, proxy)
            else Organized(bal[addr := Get(bal, addr) + cash], tot + cash, accounts, k + 1, proxy)
  {
    var acc := accounts[k];
    assert accounts[..k + 1] == accounts[..k] + [acc];
    AggregateStep(bal, accounts[..k], acc, proxy);
    SumByAppend(CashUnless(proxy), accounts[..k], acc);
    MapSumUpdate(bal, acc.trader, Get(bal, acc.trader) + acc.cash);
  }

  /** evm.go QueryTraderBalances, second half: the re-organising loop. */
  method Organize(allTraders: seq<Address>, allCash: seq<int>, proxy: Address)
    returns (bal: map<Address, int>, tot: int)
    requires |allTraders| == |allCash|
    ensures IsAggregate(bal, Zip(allTraders, allCash), proxy)
    ensures tot == MapSum(bal) == SumBy(CashUnless(proxy), Zip(allTraders, allCash))
  {
    bal, tot := map[], 0;
    ghost var accounts := Zip(allTraders, allCash);
    for k := 0 to |allTraders|
      invariant Organized(bal, tot, accounts, k, proxy)
    {
      var addr := allTraders[k];
      OrganizeStep(bal, tot, accounts, k, proxy);
      if addr != proxy {
        if addr !in bal {
          bal := bal[addr := allCash[k]];
        } else {
          bal := bal[addr := bal[addr] + allCash[k]];
        }
        tot := tot + allCash[k];
      }
    }
    assert accounts[..|allTraders|] == accounts;
  }

  lemma AggregateUnique(xs: seq<Account>, ys: seq<Account>, proxy: Address,
                        m: map<Address, int>, n: map<Address, int>)
    requires Owners(xs) == Owners(ys)
    requires forall a :: SumBy(CashOf(a), xs) == SumBy(CashOf(a), ys)
    requires IsAggregate(m, xs, proxy) && IsAggregate(n, ys, proxy)
    ensures m == n
  {
    assert forall a :: a in m <==> a in n;
  }

  /** Reordering the accounts, within or across perpetuals, changes neither the map nor the total. */
  lemma AccountOrderIrrelevant(accounts: seq<Account>, shuffled: seq<Account>, proxy: Address,
                               m: map<Address, int>, n: map<Address, int>)
    requires multiset(accounts) == multiset(shuffled)
    requires IsAggregate(m, accounts, proxy) && IsAggregate(n, shuffled, proxy)
    ensures m == n && SumBy(CashUnless(proxy), accounts) == SumBy(CashUnless(proxy), shuffled)
  {
    assert forall x :: x in accounts <==> x in multiset(accounts);
    assert forall x :: x in shuffled <==> x in multiset(shuffled);
    forall a ensures SumBy(CashOf(a), accounts) == SumBy(CashOf(a), shuffled) {
      SumByPermutation(CashOf(a), accounts, shuffled);
    }
    AggregateUnique(accounts, shuffled, proxy, m, n);
    SumByPermutation(CashUnless(proxy), accounts, shuffled);
  }

  // ---------- the order of the perpetuals ----------

  function CountOf(x: Account): Account -> int { (y: Account) => if y == x then 1 else 0 }

  function PerpCount(x: Account): Answer<seq<Account>> -> int {
    (p: Answer<seq<Account>>) => if p.Got? then SumBy(CountOf(x), p.value) else 0
  }

  lemma {:induction false} CountIsSum(accounts: seq<Account>, x: Account)
    ensures multiset(accounts)[x] == SumBy(CountOf(x), accounts)
  {
    if accounts != [] {
      var front, last := accounts[..|accounts| - 1], accounts[|accounts| - 1];
      assert accounts == front + [last];
      CountIsSum(front, x);
    }
  }

  /** A gathering goes through exactly when every answer does, and otherwise reports one of the failures. */
  lemma {:induction false} GatherKinds(perps: seq<Answer<seq<Account>>>, x: Account)
    ensures Gather(perps).Got? <==> NoContract !in perps && Failed !in perps
    ensures Gather(perps).Got? || Gather(perps) in perps
    ensures Gather(perps).Got? ==> SumBy(CountOf(x), Gather(perps).value) == SumBy(PerpCount(x), perps)
  {
    if perps != [] {
      var front, last := perps[..|perps| - 1], perps[|perps| - 1];
      assert perps == front + [last];
      GatherKinds(front, x);
      if Gather(perps).Got? {
        SumByConcat(CountOf(x), Gather(front).value, last.value);
      }
    }
  }

  /** Both fail alike, or both list the same accounts in some order. */
  predicate SameGathering(x: Answer<seq<Account>>, y: Answer<seq<Account>>) {
    if x.Got? && y.Got? then multiset(x.value) == multiset(y.value) else x == y
  }

  lemma GatherPermutation(perps: seq<Answer<seq<Account>>>, shuffled: seq<Answer<seq<Account>>>)
    requires multiset(perps) == multiset(shuffled) && !(NoContract in perps && Failed in perps)
    ensures SameGathering(Gather(perps), Gather(shuffled))
  {
    assert forall p :: p in perps <==> p in multiset(perps);
    assert forall p :: p in shuffled <==> p in multiset(shuffled);
    var nobody := Account(Address(""), 0);
    GatherKinds(perps, nobody);
    GatherKinds(shuffled, nobody);
    if Gather(perps).Got? {
      var found, again := Gather(perps).value, Gather(shuffled).value;
      forall x ensures multiset(found)[x] == multiset(again)[x] {
        GatherKinds(perps, x);
        GatherKinds(shuffled, x);
        SumByPermutation(PerpCount(x), perps, shuffled);
        CountIsSum(found, x);
        CountIsSum(again, x);
      }
    }
  }

  /** Whatever failure is met first decides the outcome. */
  lemma FailureFirst(perps: seq<Answer<seq<Account>>>, failure: Answer<seq<Account>>)
    returns (shuffled: seq<Answer<seq<Account>>>)
    requires failure in perps && !failure.Got?
    ensures multiset(shuffled) == multiset(perps) && Gather(shuffled) == failure
  {
    var i :| 0 <= i < |perps| && perps[i] == failure;
    shuffled := [failure] + perps[..i] + perps[i + 1..];
    assert perps == perps[..i] + [failure] + perps[i + 1..];
    assert shuffled[..1] == [failure] && [failure][..0] == [];
    assert Gather([failure][..0]) == Got([]);
    GatherStops(shuffled, 1);
  }

  /**
    The order of the perpetuals matters exactly when one perpetual has no contract, which empties the
    report, and another cannot be queried, which is an error: whichever comes first decides.
   */
  lemma PerpOrderExactly(perps: seq<Answer<seq<Account>>>)
    ensures (forall shuffled | multiset(shuffled) == multiset(perps) :: SameGathering(Gather(perps), Gather(shuffled)))
            <==> !(NoContract in perps && Failed in perps)
  {
    if NoContract in perps && Failed in perps {
      var p := FailureFirst(perps, NoContract);
      var q := FailureFirst(perps, Failed);
      assert !SameGathering(Gather(perps), Gather(p)) || !SameGathering(Gather(perps), Gather(q));
    } else {
      forall shuffled | multiset(shuffled) == multiset(perps)
        ensures SameGathering(Gather(perps), Gather(shuffled))
      {
        GatherPermutation(perps, shuffled);
      }
    }
  }

  /** Otherwise visiting the perpetuals in another order gives the same map and the same total. */
  lemma PerpOrderIrrelevant(perps: seq<Answer<seq<Account>>>, shuffled: seq<Answer<seq<Account>>>, proxy: Address,
                            m: map<Address, int>, n: map<Address, int>)
    requires multiset(perps) == multiset(shuffled) && Gather(perps).Got?
    requires Gather(shuffled).Got? ==> IsAggregate(n, Gather(shuffled).value, proxy)
    requires IsAggregate(m, Gather(perps).value, proxy)
    ensures Gather(shuffled).Got? && m == n
    ensures SumBy(CashUnless(proxy), Gather(perps).value) == SumBy(CashUnless(proxy), Gather(shuffled).value)
  {
    GatherKinds(perps, Account(proxy, 0));
    GatherPermutation(perps, shuffled);
    AccountOrderIrrelevant(Gather(perps).value, Gather(shuffled).value, proxy, m, n);
  }
}
