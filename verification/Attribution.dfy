/** Pro-rata attribution of the pool to share-token holders (internal/etherfi/etherfi.go, attributeLpBalances). */
module Attribution {
  import opened Wrappers
  import opened Sums

  /** How one trial of a single-value query ends. */
  datatype TrialAnswer = Value(value: int) | NoContractCode | RpcError

  const TRIALS := 4

  /** The first trial that is not an RPC error decides; a missing contract reads as zero. */
  function Settled(trials: seq<TrialAnswer>): Option<int> {
    if trials == [] then None
    else match trials[0]
         case Value(v) => Some(v)
         case NoContractCode => Some(0)
         case RpcError => Settled(trials[1..])
  }

  /** etherfi.go retryQuery, with the answers the RPC gives to its four trials. */
  method RetryQuery(trials: seq<TrialAnswer>) returns (result: Option<int>)
    requires |trials| == TRIALS
    ensures result == Settled(trials)
    ensures result.None? <==> forall i | 0 <= i < 4 :: trials[i].RpcError?
  {
    SettledMeaning(trials);
    for trial := 0 to TRIALS
      invariant Settled(trials) == Settled(trials[trial..])
    {
      match trials[trial] {
        case Value(v) => return Some(v);
        case NoContractCode => return Some(0);
        case RpcError =>
      }
    }
    result := None;
  }

  /** A retry fails only after every trial failed, and otherwise reports the earliest trial that did not. */
  lemma {:induction false} SettledMeaning(trials: seq<TrialAnswer>)
    ensures Settled(trials).None? <==> forall i | 0 <= i < |trials| :: trials[i].RpcError?
    ensures Settled(trials).Some? ==>
              exists i | 0 <= i < |trials| ::
                && (forall j | 0 <= j < i :: trials[j].RpcError?)
                && (trials[i] == Value(Settled(trials).value)
                    || (trials[i].NoContractCode? && Settled(trials).value == 0))
  {
    if trials != [] && trials[0].RpcError? {
      SettledMeaning(trials[1..]);
      if Settled(trials).Some? {
        var i :| 0 <= i < |trials[1..]| &&
                 (forall j | 0 <= j < i :: trials[1..][j].RpcError?) &&
                 (trials[1..][i] == Value(Settled(trials).value)
                  || (trials[1..][i].NoContractCode? && Settled(trials).value == 0));
        assert trials[i + 1] == trials[1..][i];
        forall j | 0 <= j < i + 1 ensures trials[j].RpcError? {
          if j > 0 { assert trials[j] == trials[1..][j - 1]; }
        }
      }
      forall i | 0 < i < |trials| ensures trials[i] == trials[1..][i - 1] { }
    }
  }

  // ---------- pro-rata division ----------

  /** One holder's share of `amount`; Dafny's Euclidean division is Go's big.Int.Div. */
  function Share(amount: int, supply: int): int -> int
    requires supply != 0
  {
    (bal: int) => bal * amount / supply
  }

  /** What the division throws away for one holder. */
  function Dust(amount: int, supply: int): int -> int
    requires supply != 0
  {
    (bal: int) => bal * amount % supply
  }

  function Attributed(balcs: seq<int>, supply: int, amount: int): seq<int>
    requires supply != 0
  {
    seq(|balcs|, i requires 0 <= i < |balcs| => Share(amount, supply)(balcs[i]))
  }

  lemma ZeroShare(amount: int, supply: int)
    requires supply != 0
    ensures Share(amount, supply)(0) == 0
  {
    assert 0 * amount == 0;
  }

  /** etherfi.go attributeLpBalances. The pool balance is only asked for when the supply is nonzero. */
  method AttributeLpBalances(balcs: seq<int>, shTknTotal: int, traderTotal: int, pool: seq<TrialAnswer>)
    returns (lpBal: Option<seq<int>>)
    requires |pool| == TRIALS
    ensures shTknTotal == 0 ==> lpBal == Some([])
    ensures shTknTotal != 0 && Settled(pool).None? ==> lpBal == None
    ensures shTknTotal != 0 && Settled(pool).Some? ==>
              lpBal == Some(Attributed(balcs, shTknTotal, Settled(pool).value - traderTotal))
  {
    if shTknTotal == 0 {
      return Some([]);
    }
    var fetched := RetryQuery(pool);
    if fetched.None? {
      return None;
    }
    var poolBalance := fetched.value - traderTotal;
    var balances: seq<int> := [];
    ghost var target := Attributed(balcs, shTknTotal, poolBalance);
    for k := 0 to |balcs|
      invariant balances == target[..k]
    {
      assert target[..k + 1] == target[..k] + [target[k]];
      assert target[k] == Share(poolBalance, shTknTotal)(balcs[k]);
      if balcs[k] == 0 {
        ZeroShare(poolBalance, shTknTotal);
        balances := balances + [0];
      } else {
        balances := balances + [balcs[k] * poolBalance / shTknTotal];
      }
    }
    assert target[..|balcs|] == target;
    lpBal := Some(balances);
  }

  /** How many holders have a balance at all. */
  function Nonzero(balcs: seq<int>): nat {
    if balcs == [] then 0
    else Nonzero(balcs[..|balcs| - 1]) + if balcs[|balcs| - 1] == 0 then 0 else 1
  }

  lemma {:induction false} AttributedSum(balcs: seq<int>, supply: int, amount: int)
    requires supply != 0
    ensures Sum(Attributed(balcs, supply, amount)) == SumBy(Share(amount, supply), balcs)
  {
    var out := Attributed(balcs, supply, amount);
    if balcs != [] {
      var n := |balcs| - 1;
      AttributedSum(balcs[..n], supply, amount);
      assert out[..n] == Attributed(balcs[..n], supply, amount);
    }
  }

  /** Nothing but dust is lost: supply * attributed + dust is exactly amount * balances. */
  lemma {:induction false} ShareAccounting(balcs: seq<int>, supply: int, amount: int)
    requires supply > 0
    ensures supply * SumBy(Share(amount, supply), balcs) + SumBy(Dust(amount, supply), balcs) == amount * Sum(balcs)
    ensures 0 <= SumBy(Dust(amount, supply), balcs) <= (supply - 1) * Nonzero(balcs)
  {
    if balcs != [] {
      var n := |balcs| - 1;
      ShareAccounting(balcs[..n], supply, amount);
      ShareOfOne(balcs[n], supply, amount, SumBy(Share(amount, supply), balcs[..n]), Sum(balcs[..n]), Nonzero(balcs[..n]));
    }
  }

  lemma ShareOfOne(bal: int, supply: int, amount: int, shared: int, balances: int, m: nat)
    requires supply > 0
    ensures supply * Share(amount, supply)(bal) + Dust(amount, supply)(bal) == amount * bal
    ensures supply * (shared + Share(amount, supply)(bal)) == supply * shared + supply * Share(amount, supply)(bal)
    ensures amount * (balances + bal) == amount * balances + amount * bal
    ensures 0 <= Dust(amount, supply)(bal) <= supply - 1
    ensures bal == 0 ==> Dust(amount, supply)(bal) == 0
    ensures (supply - 1) * (m + 1) == (supply - 1) * m + (supply - 1)
  {
    assert bal * amount == amount * bal;
    assert bal == 0 ==> bal * amount == 0;
  }

  /** Any balances: the attributed sum is within the dust of amount * balances / supply. */
  lemma AttributionBounds(balcs: seq<int>, supply: int, amount: int)
    requires supply > 0
    ensures amount * Sum(balcs) - (supply - 1) * Nonzero(balcs)
            <= supply * Sum(Attributed(balcs, supply, amount))
            <= amount * Sum(balcs)
  {
    AttributedSum(balcs, supply, amount);
    ShareAccounting(balcs, supply, amount);
  }

  /** Complete holder list: the whole amount is handed out, but for less than one unit per holder. */
  lemma FullAttribution(balcs: seq<int>, supply: int, amount: int)
    requires supply > 0 && Sum(balcs) == supply
    ensures Nonzero(balcs) >= 1
    ensures amount - (Nonzero(balcs) - 1) <= Sum(Attributed(balcs, supply, amount)) <= amount
  {
    AttributionBounds(balcs, supply, amount);
    var m, total := Nonzero(balcs), Sum(Attributed(balcs, supply, amount));
    if m == 0 {
      AllZero(balcs);
    }
    SqueezeAbove(supply, total, amount);
    SqueezeBelow(supply, total, amount, m);
  }

  lemma {:induction false} AllZero(balcs: seq<int>)
    requires Nonzero(balcs) == 0
    ensures Sum(balcs) == 0
  {
    if balcs != [] {
      AllZero(balcs[..|balcs| - 1]);
    }
  }

  lemma PositiveFactor(s: int, x: int)
    requires s > 0
    ensures s * x > 0 <==> x > 0
  {
    if x <= 0 {
      assert s * x <= 0;
    }
  }

  lemma SqueezeAbove(supply: int, total: int, amount: int)
    requires supply > 0 && supply * total <= amount * supply
    ensures total <= amount
  {
    PositiveFactor(supply, total - amount);
    assert supply * (total - amount) == supply * total - amount * supply;
  }

  lemma SqueezeBelow(supply: int, total: int, amount: int, m: nat)
    requires supply > 0 && m >= 1 && amount * supply - (supply - 1) * m <= supply * total
    ensures amount - (m - 1) <= total
  {
    PositiveFactor(supply, total - amount + m);
    assert (supply - 1) * m == supply * m - m;
    assert supply * (total - amount + m) == supply * total - amount * supply + supply * m;
  }

  /** Partial holder list, nonnegative remainder: never more than the remainder is handed out. */
  lemma PartialAttribution(balcs: seq<int>, supply: int, amount: int)
    requires supply > 0 && Sum(balcs) <= supply && amount >= 0
    ensures Sum(Attributed(balcs, supply, amount)) <= amount
  {
    AttributionBounds(balcs, supply, amount);
    assert amount * Sum(balcs) <= amount * supply;
    SqueezeAbove(supply, Sum(Attributed(balcs, supply, amount)), amount);
  }

  function Ones(m: nat): seq<int> { seq(m, _ => 1) }

  /** The lower bound cannot be improved: m equal holders sharing -1 are together charged -m. */
  lemma LowerBoundAttained(m: nat)
    requires m >= 1
    ensures Sum(Ones(m)) == m == Nonzero(Ones(m))
    ensures Sum(Attributed(Ones(m), m, -1)) == -1 - (Nonzero(Ones(m)) - 1)
  {
    OnesSums(m, m);
    AttributedSum(Ones(m), m, -1);
  }

  lemma {:induction false} OnesSums(k: nat, m: nat)
    requires m >= 1
    ensures Sum(Ones(k)) == k == Nonzero(Ones(k))
    ensures SumBy(Share(-1, m), Ones(k)) == 0 - k
  {
    if k > 0 {
      OnesSums(k - 1, m);
      assert Ones(k)[..k - 1] == Ones(k - 1);
      assert (-1) / m == -1;
    }
  }
}
