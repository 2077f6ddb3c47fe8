/** The holder and delegation queries over the tables, and why the holder list misses nobody (internal/etherfi/db.go). */
module Holders {
  import opened Wrappers
  import opened Sums
  import opened Chain
  import opened Token
  import opened Horizon
  import opened Store
  import opened Reassignment

  /** env.go DELEGATE_IDX_STRATEGY */
  const DELEGATE_IDX_STRATEGY := 2

  /** SELECT distinct("to") FROM sh_tkn_transfer WHERE block <= $1 */
  function HolderSet(rows: seq<Row>, block: nat): set<Address> {
    set r | r in rows && r.log.Transfer? && r.log.blockNr <= block :: r.log.to
  }

  /** SELECT DISTINCT addr, delegate FROM delegates WHERE block <= $1 AND index = $3 */
  function StrategySet(rows: seq<Row>, block: nat): set<Delegation> {
    set r | r in rows && r.log.Delegate? && r.log.blockNr <= block && r.log.index == DELEGATE_IDX_STRATEGY
      :: Delegation(r.log.addr, r.log.delegate)
  }

  ghost predicate Lists<T>(list: seq<T>, s: set<T>) {
    NoDuplicates(list) && (forall x | x in list :: x in s) && (forall x | x in s :: x in list)
  }

  /** The database returns distinct rows in an order of its own choosing. */
  method SelectDistinct<T(==)>(s: set<T>) returns (list: seq<T>)
    ensures Lists(list, s)
  {
    list := [];
    var rest := s;
    while rest != {}
      invariant rest <= s && NoDuplicates(list)
      invariant (forall x | x in list :: x in s && x !in rest) && (forall x | x in s && x !in rest :: x in list)
      decreases |rest|
    {
      var x :| x in rest;
      rest, list := rest - {x}, list + [x];
    }
  }

  /** db.go dbGetShareTokenHolders */
  method DbGetShareTokenHolders(db: Database, transfers: EventStore, block: nat) returns (addr: Option<seq<Address>>)
    modifies db
    ensures db.failures == old(db.failures) + if addr.None? then 1 else 0
    ensures addr.Some? ==> Lists(addr.value, HolderSet(transfers.rows, block))
    ensures addr.Some? ==> forall a :: a in addr.value <==>
              exists r | r in transfers.rows :: r.log.Transfer? && r.log.to == a && r.log.blockNr <= block
  {
    var ok := db.Execute();
    if !ok {
      return None;
    }
    var list := SelectDistinct(HolderSet(transfers.rows, block));
    addr := Some(list);
  }

  /** A row says that `x` delegated its strategy (index 2) to `y` by the block. */
  predicate Declared(rows: seq<Row>, block: nat, x: Address, y: Address) {
    exists r | r in rows ::
      r.log.Delegate? && r.log.addr == x && r.log.delegate == y && r.log.index == 2 && r.log.blockNr <= block
  }

  lemma StrategyRows(rows: seq<Row>, block: nat, addr: seq<Address>, dlgt: seq<Address>)
    requires |addr| == |dlgt| && Lists(Pairs(addr, dlgt), StrategySet(rows, block))
    ensures forall k | 0 <= k < |addr| :: Declared(rows, block, addr[k], dlgt[k])
    ensures forall x, y | Declared(rows, block, x, y) :: exists k | 0 <= k < |addr| :: addr[k] == x && dlgt[k] == y
  {
    var pairs := Pairs(addr, dlgt);
    forall k | 0 <= k < |addr| ensures Declared(rows, block, addr[k], dlgt[k]) {
      assert pairs[k] in pairs;
      assert Delegation(addr[k], dlgt[k]) in StrategySet(rows, block);
    }
    forall x, y | Declared(rows, block, x, y) ensures exists k | 0 <= k < |addr| :: addr[k] == x && dlgt[k] == y {
      assert Delegation(x, y) in StrategySet(rows, block);
      var k :| 0 <= k < |pairs| && pairs[k] == Delegation(x, y);
    }
  }

  /** db.go DbFindStrategyDelegates: two aligned lists. */
  method DbFindStrategyDelegates(db: Database, delegates: EventStore, block: nat)
    returns (found: Option<(seq<Address>, seq<Address>)>)
    modifies db
    ensures db.failures == old(db.failures) + if found.None? then 1 else 0
    ensures found.Some? ==> |found.value.0| == |found.value.1|
    ensures found.Some? ==> Lists(Pairs(found.value.0, found.value.1), StrategySet(delegates.rows, block))
    ensures found.Some? ==>
              forall k | 0 <= k < |found.value.0| :: Declared(delegates.rows, block, found.value.0[k], found.value.1[k])
    ensures found.Some? ==>
              forall x, y | Declared(delegates.rows, block, x, y) ::
                exists k | 0 <= k < |found.value.0| :: found.value.0[k] == x && found.value.1[k] == y
  {
    var ok := db.Execute();
    if !ok {
      return None;
    }
    var list := SelectDistinct(StrategySet(delegates.rows, block));
    var addr, dlgt: seq<Address> := [], [];
    for i := 0 to |list|
      invariant |addr| == |dlgt| && Pairs(addr, dlgt) == list[..i]
    {
      assert list[..i + 1] == list[..i] + [list[i]];
      assert Pairs(addr + [list[i].source], dlgt + [list[i].delegate]) == Pairs(addr, dlgt) + [list[i]];
      addr, dlgt := addr + [list[i].source], dlgt + [list[i].delegate];
    }
    assert list[..|list|] == list;
    found := Some((addr, dlgt));
    StrategyRows(delegates.rows, block, addr, dlgt);
  }

  /** The last block for which both tables have been filled. */
  function LatestBlock(delegates: Stream, transfers: Stream): nat {
    Min(HorizonOf(delegates), HorizonOf(transfers))
  }

  /** db.go DBGetLatestBlock: never beyond what both tables cover; 0 if a table cannot be read. */
  method DBGetLatestBlock(db: Database, delegates: EventStore, transfers: EventStore) returns (block: nat)
    requires delegates != transfers
    modifies delegates`lastBlockTo, transfers`lastBlockTo, db
    ensures block <= LatestBlock(old(delegates.State([])), old(transfers.State([])))
    ensures db.failures == old(db.failures) ==> block == LatestBlock(old(delegates.State([])), old(transfers.State([])))
    ensures db.failures == old(db.failures) ==>
              && block <= HorizonOf(old(delegates.State([]))) && block <= HorizonOf(old(transfers.State([])))
              && (block == HorizonOf(old(delegates.State([]))) || block == HorizonOf(old(transfers.State([]))))
    ensures LatestBlock(delegates.State([]), transfers.State([])) ==
            LatestBlock(old(delegates.State([])), old(transfers.State([])))
  {
    var d := delegates.GetStartBlock(db);
    var t := transfers.GetStartBlock(db);
    block := Min(d, t);
  }

  // ---------- completeness ----------

  /** Before and at Genesis the token does not exist. */
  predicate MintedAfter(chain: Chain, genesis: nat) {
    forall n | 0 <= n < |chain| && n <= genesis :: chain[n].transfers == []
  }

  lemma {:induction false} TransferInBlock(chain: Chain, b: int, n: nat, i: nat)
    requires n <= b < |chain| && i < |chain[n].transfers|
    ensures chain[n].transfers[i] in TransfersUpTo(chain, b)
    decreases b
  {
    if n < b {
      TransferInBlock(chain, b - 1, n, i);
    }
  }

  /**
    The holder query returns exactly the addresses that received the token up to the block: rows
    fetched early, or stored twice by overlapping scans, change nothing.
   */
  lemma HolderSetExactly(s: Stream, b: nat, a: Address)
    requires s.typ == TokenTransferEvent && Grounded(s) && Covered(s)
    requires MintedAfter(s.chain, s.genesis) && b <= Reach(s) && b < |s.chain|
    ensures a in HolderSet(s.rows, b) <==> Received(TransfersUpTo(s.chain, b), a)
  {
    if a in HolderSet(s.rows, b) {
      var r :| r in s.rows && r.log.Transfer? && r.log.blockNr <= b && r.log.to == a;
      var n := r.log.blockNr;
      var logs := TransferLogs(s.chain[n].transfers, n);
      var i :| 0 <= i < |logs| && logs[i] == r.log;
      TransferInBlock(s.chain, b, n, i);
    }
    if Received(TransfersUpTo(s.chain, b), a) {
      var t :| t in TransfersUpTo(s.chain, b) && t.to == a;
      var n := TransferHasLog(s.chain, b, t);
      var l := Transfer(t.from, t.to, n);
      assert OnChain(s.chain, s.typ, l);
      assert Stored(s, l);
      var r :| r in s.rows && r.log == l;
    }
  }

  /** Before and at Genesis nobody delegates. */
  predicate DelegatedAfter(chain: Chain, genesis: nat) {
    forall n | 0 <= n < |chain| && n <= genesis :: chain[n].delegations == []
  }

  /**
    The delegation query returns exactly what accounts declared on the chain up to the block for the
    strategy index, account first.
   */
  lemma StrategySetExactly(s: Stream, b: nat, x: Address, y: Address)
    requires s.typ == SetDelegateEvent && Grounded(s) && Covered(s)
    requires DelegatedAfter(s.chain, s.genesis) && b <= Reach(s) && b < |s.chain|
    ensures Delegation(x, y) in StrategySet(s.rows, b) <==>
            exists n | 0 <= n <= b :: DelegateEvent(x, y, 2) in s.chain[n].delegations
  {
    if Delegation(x, y) in StrategySet(s.rows, b) {
      var r :| r in s.rows && r.log.Delegate? && r.log.blockNr <= b && r.log.index == 2 &&
               r.log.addr == x && r.log.delegate == y;
      var n := r.log.blockNr;
      var logs := DelegateLogs(s.chain[n].delegations, n);
      var i :| 0 <= i < |logs| && logs[i] == r.log;
      assert s.chain[n].delegations[i] == DelegateEvent(x, y, 2);
    }
    if n :| 0 <= n <= b && DelegateEvent(x, y, 2) in s.chain[n].delegations {
      var i :| 0 <= i < |s.chain[n].delegations| && s.chain[n].delegations[i] == DelegateEvent(x, y, 2);
      var l := Delegate(x, y, 2, n);
      assert DelegateLogs(s.chain[n].delegations, n)[i] == l;
      assert OnChain(s.chain, s.typ, l);
      assert Stored(s, l);
      var r :| r in s.rows && r.log == l;
    }
  }

  /** Nobody with a balance is missing, so the listed balances add up to the supply. */
  lemma HoldersComplete(s: Stream, b: nat, holders: seq<Address>)
    requires s.typ == TokenTransferEvent && Grounded(s) && Covered(s)
    requires MintedAfter(s.chain, s.genesis) && b <= Reach(s) && b < |s.chain|
    requires Funded(TransfersUpTo(s.chain, b)) && Lists(holders, HolderSet(s.rows, b))
    ensures forall a | BalanceOf(s.chain, b)(a) != 0 :: BalanceOf(s.chain, b)(a) > 0 && a in holders
    ensures SumBy(BalanceOf(s.chain, b), holders) == SupplyAt(s.chain, b)
  {
    forall a | Get(BalancesAt(s.chain, b), a) != 0
      ensures Get(BalancesAt(s.chain, b), a) > 0 && a in holders
    {
      HoldersReceived(TransfersUpTo(s.chain, b), a);
      HolderSetExactly(s, b, a);
    }
    HoldersOwnTheSupply(s.chain, b, holders);
  }
}
