/**
  The share token as a fold over its Transfer events. As in EIP-20, tokens are minted by a transfer
  from the zero address and an account cannot send more than it has.
 */
module Token {
  import opened Wrappers
  import opened Sums
  import opened Chain

  const ZERO := Address("0x0000000000000000000000000000000000000000")

  datatype TokenState = TokenState(balances: map<Address, int>, supply: int)

  /** The zero address holds nothing: crediting or debiting it is minting or burning. */
  function Credit(m: map<Address, int>, a: Address, v: int): map<Address, int> {
    if a == ZERO then m else m[a := Get(m, a) + v]
  }

  function After(ts: seq<TransferEvent>): TokenState {
    if ts == [] then TokenState(map[], 0)
    else
      var before, t := After(ts[..|ts| - 1]), ts[|ts| - 1];
      TokenState(Credit(Credit(before.balances, t.from, 0 - t.value), t.to, t.value),
                 before.supply + (if t.from == ZERO then t.value else 0) - (if t.to == ZERO then t.value else 0))
  }

  /** Every transfer was covered by its sender's balance at the time. */
  predicate Funded(ts: seq<TransferEvent>) {
    ts != [] ==>
      var n := |ts| - 1;
      && Funded(ts[..n])
      && (ts[n].from == ZERO || Get(After(ts[..n]).balances, ts[n].from) >= ts[n].value)
  }

  /** All transfers in blocks 0 to b. */
  function TransfersUpTo(chain: Chain, b: int): seq<TransferEvent>
    requires b < |chain|
    decreases b + 1
  {
    if b < 0 then [] else TransfersUpTo(chain, b - 1) + chain[b].transfers
  }

  function BalancesAt(chain: Chain, b: int): map<Address, int>
    requires b < |chain|
  {
    After(TransfersUpTo(chain, b)).balances
  }

  function SupplyAt(chain: Chain, b: int): int
    requires b < |chain|
  {
    After(TransfersUpTo(chain, b)).supply
  }

  /** balanceOf at block b. */
  function BalanceOf(chain: Chain, b: int): Address -> int
    requires b < |chain|
  {
    var m := BalancesAt(chain, b);
    a => Get(m, a)
  }

  lemma CreditSum(m: map<Address, int>, a: Address, v: int)
    ensures MapSum(Credit(m, a, v)) == MapSum(m) + if a == ZERO then 0 else v
  {
    MapSumUpdate(m, a, Get(m, a) + v);
  }

  /** The balances always add up to the total supply. */
  lemma {:induction false} SupplyIsSumOfBalances(ts: seq<TransferEvent>)
    ensures MapSum(After(ts).balances) == After(ts).supply
  {
    if ts != [] {
      var n := |ts| - 1;
      SupplyIsSumOfBalances(ts[..n]);
      var m := After(ts[..n]).balances;
      CreditSum(m, ts[n].from, 0 - ts[n].value);
      CreditSum(Credit(m, ts[n].from, 0 - ts[n].value), ts[n].to, ts[n].value);
    }
  }

  function InTo(a: Address): TransferEvent -> int { (t: TransferEvent) => if t.to == a then t.value else 0 }

  function OutOf(a: Address): TransferEvent -> int { (t: TransferEvent) => if t.from == a then t.value else 0 }

  /** A balance is what came in less what went out. */
  lemma {:induction false} BalanceIsInLessOut(ts: seq<TransferEvent>, a: Address)
    ensures Get(After(ts).balances, a) == if a == ZERO then 0 else SumBy(InTo(a), ts) - SumBy(OutOf(a), ts)
  {
    if ts != [] {
      BalanceIsInLessOut(ts[..|ts| - 1], a);
    }
  }

  predicate Received(ts: seq<TransferEvent>, a: Address) { exists t | t in ts :: t.to == a }

  /** No balance is negative, and whoever has a balance once received the token. */
  lemma {:induction false} HoldersReceived(ts: seq<TransferEvent>, a: Address)
    requires Funded(ts)
    ensures Get(After(ts).balances, a) >= 0
    ensures Get(After(ts).balances, a) > 0 ==> a != ZERO && Received(ts, a)
  {
    if ts != [] {
      var n := |ts| - 1;
      HoldersReceived(ts[..n], a);
      assert ts[n] in ts;
      assert forall t | t in ts[..n] :: t in ts;
    }
  }

  lemma {:induction false} TransferHasLog(chain: Chain, b: int, t: TransferEvent) returns (n: nat)
    requires b < |chain| && t in TransfersUpTo(chain, b)
    ensures n <= b && t in chain[n].transfers
    ensures Transfer(t.from, t.to, n) in BlockLogs(chain[n], TokenTransferEvent, n)
    decreases b + 1
  {
    if t in chain[b].transfers {
      n := b;
      var i :| 0 <= i < |chain[b].transfers| && chain[b].transfers[i] == t;
      assert TransferLogs(chain[b].transfers, b)[i] == Transfer(t.from, t.to, b);
    } else {
      n := TransferHasLog(chain, b - 1, t);
    }
  }

  /** A list of distinct addresses that misses no holder accounts for the whole supply. */
  lemma HoldersOwnTheSupply(chain: Chain, b: int, holders: seq<Address>)
    requires b < |chain| && NoDuplicates(holders)
    requires forall a | Get(BalancesAt(chain, b), a) != 0 :: a in holders
    ensures SumBy(BalanceOf(chain, b), holders) == SupplyAt(chain, b)
  {
    SupplyIsSumOfBalances(TransfersUpTo(chain, b));
    var m := BalancesAt(chain, b);
    forall k | k in m && m[k] != 0 ensures k in holders {
      assert Get(m, k) != 0;
    }
    MapSumBySequence(m, holders, BalanceOf(chain, b));
  }

  /** Any distinct addresses own at most the supply between them. */
  lemma SomeOwnAtMostTheSupply(chain: Chain, b: int, some: seq<Address>)
    requires b < |chain| && NoDuplicates(some) && Funded(TransfersUpTo(chain, b))
    ensures 0 <= SumBy(BalanceOf(chain, b), some) <= SupplyAt(chain, b)
  {
    SupplyIsSumOfBalances(TransfersUpTo(chain, b));
    var m := BalancesAt(chain, b);
    forall k | k in m ensures m[k] >= 0 {
      HoldersReceived(TransfersUpTo(chain, b), k);
    }
    MapSumPart(m, some, BalanceOf(chain, b));
  }
}
