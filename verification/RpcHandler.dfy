/** Round-robin choice among RPC clients, each with its own rate limiter (internal/utils/rpchandler.go). */
module RpcHandler {
  import opened Sums
  import TB = TokenBucket

  class Client {
    const url: string

    constructor (url: string)
      ensures this.url == url
    {
      this.url := url;
    }
  }

  /** The urls that could be dialled, in order. */
  function Reached(urls: seq<string>, reachable: set<string>): seq<string> {
    if urls == [] then []
    else Reached(urls[..|urls| - 1], reachable) +
         if urls[|urls| - 1] in reachable then [urls[|urls| - 1]] else []
  }

  /** Init keeps the reachable urls, in their order and with repetitions: each alone, and the list as a whole. */
  lemma {:induction false} ReachedMeaning(urls: seq<string>, more: seq<string>, url: string, reachable: set<string>)
    ensures Reached([url], reachable) == if url in reachable then [url] else []
    ensures Reached(urls + more, reachable) == Reached(urls, reachable) + Reached(more, reachable)
    decreases |more|
  {
    assert [url][..0] == [] && Reached([], reachable) == [];
    if more == [] {
      assert urls + more == urls;
    } else {
      assert (urls + more)[..|urls + more| - 1] == urls + more[..|more| - 1];
      ReachedMeaning(urls, more[..|more| - 1], url, reachable);
    }
  }

  /** The clients are distinct and belong to the reachable urls, in order. */
  ghost predicate AllDialled(clients: seq<Client>, urls: seq<string>, reachable: set<string>) {
    && NoDuplicates(clients) && |clients| == |Reached(urls, reachable)|
    && forall i | 0 <= i < |clients| :: clients[i].url == Reached(urls, reachable)[i]
  }

  /** rpchandler.go Init, first loop. */
  method DialAll(rpcUrls: seq<string>, reachable: set<string>) returns (clients: seq<Client>)
    ensures AllDialled(clients, rpcUrls, reachable)
  {
    clients := [];
    for i := 0 to |rpcUrls|
      invariant AllDialled(clients, rpcUrls[..i], reachable)
      invariant forall c | c in clients :: fresh(c)
    {
      assert rpcUrls[..i + 1][..i] == rpcUrls[..i];
      if rpcUrls[i] !in reachable {
        continue;
      }
      var rpc := new Client(rpcUrls[i]);
      assert rpc !in clients;
      clients := clients + [rpc];
    }
    assert rpcUrls[..|rpcUrls|] == rpcUrls;
  }

  /** Every client has its own bucket, full and refilling at the given rate. */
  ghost predicate FullBuckets(made: map<Client, TB.TokenBucket>, capacity: nat, refillRate: real, now: real)
    reads made.Values
  {
    && (forall c | c in made ::
          && made[c].tokens == made[c].capacity == capacity
          && made[c].refillRate == refillRate && made[c].lastRefill == now)
    && (forall c, d | c in made && d in made && c != d :: made[c] != made[d])
  }

  /** rpchandler.go Init, second loop. */
  method MakeBuckets(clients: seq<Client>, capacity: nat, refillRate: real, now: real)
    returns (made: map<Client, TB.TokenBucket>)
    ensures made.Keys == (set c | c in clients)
    ensures FullBuckets(made, capacity, refillRate, now) && forall c | c in made :: fresh(made[c])
  {
    made := map[];
    for i := 0 to |clients|
      invariant made.Keys == (set c | c in clients[..i])
      invariant FullBuckets(made, capacity, refillRate, now) && forall c | c in made :: fresh(made[c])
    {
      assert clients[..i + 1] == clients[..i] + [clients[i]];
      var bucket := new TB.TokenBucket(capacity, refillRate, now);
      made := made[clients[i] := bucket];
    }
    assert clients[..|clients|] == clients;
  }

  class RpcHandler {
    var rpcClients: seq<Client>
    var lastIdx: nat
    var buckets: map<Client, TB.TokenBucket>

    ghost var first: nat // the index the choices started from
    ghost var calls: nat // how many choices have been made since

    /** Clients are distinct and every one of them has a bucket. */
    ghost predicate Dialled()
      reads this
    {
      rpcClients != [] && NoDuplicates(rpcClients) && forall c | c in rpcClients :: c in buckets
    }

    /** The index is the one that so many choices lead to. */
    ghost predicate Valid()
      reads this
    {
      && Dialled() && first < |rpcClients| && lastIdx < |rpcClients|
      && lastIdx == Pick(first, calls, |rpcClients|)
    }

    constructor ()
      ensures lastIdx == 0 && rpcClients == []
    {
      rpcClients, lastIdx, buckets := [], 0, map[];
      first, calls := 0, 0;
    }

    /** rpchandler.go Init: unreachable urls are skipped; no client at all is an error. */
    method Init(rpcUrls: seq<string>, reachable: set<string>, capacity: nat, refillRate: real, now: real)
      returns (ok: bool)
      modifies this
      ensures lastIdx == old(lastIdx) == first && calls == 0 && AllDialled(rpcClients, rpcUrls, reachable)
      ensures ok <==> Reached(rpcUrls, reachable) != []
      ensures ok ==> FullBuckets(buckets, capacity, refillRate, now)
      ensures ok ==> Dialled() && buckets.Keys == (set c | c in rpcClients) && (lastIdx < |rpcClients| ==> Valid())
    {
      first, calls := lastIdx, 0;
      rpcClients := DialAll(rpcUrls, reachable);
      if rpcClients == [] {
        return false;
      }
      buckets := MakeBuckets(rpcClients, capacity, refillRate, now);
      ok := true;
    }

    /** rpchandler.go GetNextRpc, under its mutex; the client it returns has a bucket to wait on. */
    method GetNextRpc() returns (rpc: Client)
      requires Dialled()
      modifies `lastIdx, `first, `calls
      ensures lastIdx == (old(lastIdx) + 1) % |rpcClients| && rpc == rpcClients[lastIdx] && rpc in buckets
      ensures Valid() && (old(Valid()) ==> first == old(first) && calls == old(calls) + 1)
    {
      ghost var counted := Valid();
      lastIdx := (lastIdx + 1) % |rpcClients|;
      first, calls := if counted then first else lastIdx, if counted then calls + 1 else 0;
      rpc := rpcClients[lastIdx];
    }
  }

  // ---------- fairness of the sequence of choices ----------

  /** The index after k calls. */
  function Pick(start: nat, k: nat, n: nat): nat
    requires n > 0
  {
    if k == 0 then start else (Pick(start, k - 1, n) + 1) % n
  }

  /** How many of the calls from + 1 to from + k return client c. */
  function Uses(start: nat, from: nat, k: nat, n: nat, c: nat): nat
    requires n > 0
  {
    if k == 0 then 0
    else Uses(start, from, k - 1, n, c) + if Pick(start, from + k, n) == c then 1 else 0
  }

  /** Within n calls after call `from`, the index wraps around at most once. */
  lemma {:induction false} PickInRound(start: nat, from: nat, k: nat, n: nat)
    requires start < n && k <= n
    ensures var at := Pick(start, from, n);
            at < n && Pick(start, from + k, n) == if at + k < n then at + k else at + k - n
  {
    if k == 0 {
      PickInRange(start, from, n);
    } else {
      PickInRound(start, from, k - 1, n);
      SmallMod(Pick(start, from + k - 1, n) + 1, n);
    }
  }

  lemma PickInRange(start: nat, k: nat, n: nat)
    requires start < n
    ensures Pick(start, k, n) < n
  {
  }

  lemma SmallMod(x: nat, n: nat)
    requires 0 < n && x <= n
    ensures x % n == if x < n then x else 0
  {
  }

  /** How many calls after call `from` the client c comes up. */
  function Wait(start: nat, from: nat, n: nat, c: nat): (d: nat)
    requires start < n && c < n
    ensures 1 <= d <= n
  {
    PickInRange(start, from, n);
    var at := Pick(start, from, n);
    if c > at then c - at else c + n - at
  }

  /** Within a round of n calls, client c is chosen at one call and at no other. */
  lemma {:induction false} OneRound(start: nat, from: nat, k: nat, n: nat, c: nat)
    requires start < n && c < n && k <= n
    ensures Uses(start, from, k, n, c) == if k >= Wait(start, from, n, c) then 1 else 0
  {
    if k > 0 {
      OneRound(start, from, k - 1, n, c);
      PickInRound(start, from, k, n);
    }
  }

  /** Any n consecutive calls return each of the n clients exactly once. */
  lemma EachClientOncePerRound(start: nat, from: nat, n: nat, c: nat)
    requires start < n && c < n
    ensures Uses(start, from, n, n, c) == 1
  {
    OneRound(start, from, n, n, c);
  }

  lemma {:induction false} UsesSplit(start: nat, from: nat, i: nat, j: nat, n: nat, c: nat)
    requires n > 0
    ensures Uses(start, from, i + j, n, c) == Uses(start, from, i, n, c) + Uses(start, from + i, j, n, c)
  {
    if j > 0 {
      UsesSplit(start, from, i, j - 1, n, c);
    }
  }

  /** After any number of calls, no client has been used more than once more often than another. */
  lemma {:induction false} Fairness(start: nat, k: nat, n: nat, c: nat, d: nat)
    requires start < n && c < n && d < n
    ensures -1 <= Uses(start, 0, k, n, c) - Uses(start, 0, k, n, d) <= 1
    decreases k
  {
    if k < n {
      OneRound(start, 0, k, n, c);
      OneRound(start, 0, k, n, d);
    } else {
      Fairness(start, k - n, n, c, d);
      UsesSplit(start, 0, k - n, n, n, c);
      UsesSplit(start, 0, k - n, n, n, d);
      EachClientOncePerRound(start, k - n, n, c);
      EachClientOncePerRound(start, k - n, n, d);
    }
  }
}
