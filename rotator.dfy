/** The indexer's `APIKeyRotator`: round-robin selection over a pool of
    Aptos API keys with a shared counter, a second (Nodit) pool that reads
    the same counter without advancing it, and a minimum reuse delay per
    key. The wall clock is an input (`now`, in nanoseconds) and the sleep is
    modelled by the acquisition time it produces: the later of `now` and the
    key's last use plus `minDelay`. The mutex is left out (every call runs
    on its own). */
module Rotator {

  /** 100ms in nanoseconds, the reuse delay `NewAPIKeyRotator` installs. */
  const MinDelay: int := 100 * 1_000_000

  /** When a call that picked `key` at wall-clock time `now` gets the key:
      immediately, unless the key was used less than `delay` ago, in which
      case after sleeping until exactly `delay` has passed. */
  function AcquireTime(lastUsed: map<string, int>, key: string, now: int, delay: int): (at: int)
    ensures at >= now
    ensures key in lastUsed ==> at >= lastUsed[key] + delay
    ensures at == now || (key in lastUsed && at == lastUsed[key] + delay)
  {
    if key in lastUsed && now - lastUsed[key] < delay then lastUsed[key] + delay else now
  }

  /** Two acquisitions of the same key in a row (a one-key pool) are at
      least `delay` apart, however soon the second call comes. */
  lemma ReuseIsSpaced(lastUsed: map<string, int>, key: string, now1: int, now2: int, delay: int)
    ensures var at1 := AcquireTime(lastUsed, key, now1, delay);
      AcquireTime(lastUsed[key := at1], key, now2, delay) >= at1 + delay
  {
  }

  /** The key at `idx` in round-robin order (`keys[idx % len(keys)]`), or
      `""` for an empty pool. */
  function Pick(keys: seq<string>, idx: nat): (key: string)
    ensures |keys| == 0 ==> key == ""
    ensures |keys| > 0 ==> key in keys
  {
    if |keys| == 0 then "" else keys[idx % |keys|]
  }

  /** The keys handed out by the first `m` Aptos acquisitions. */
  function RoundRobin(keys: seq<string>, m: nat): (served: seq<string>)
    requires |keys| > 0 || m == 0
  {
    if m == 0 then [] else RoundRobin(keys, m - 1) + [keys[(m - 1) % |keys|]]
  }

  /** The `k`-th acquisition (from 0) hands out key `k mod N`. */
  lemma {:induction false} RoundRobinAt(keys: seq<string>, m: nat)
    requires |keys| > 0
    ensures |RoundRobin(keys, m)| == m
    ensures forall k :: 0 <= k < m ==> RoundRobin(keys, m)[k] == keys[k % |keys|]
  {
    if m > 0 {
      RoundRobinAt(keys, m - 1);
    }
  }

  /** The position the `k`-th selection picks in a pool of `n` keys,
      counted by a cursor that wraps to 0 after the last position. */
  function Pos(k: nat, n: nat): (p: nat)
    requires n > 0
    ensures p < n
  {
    if k == 0 then 0 else if Pos(k - 1, n) == n - 1 then 0 else Pos(k - 1, n) + 1
  }

  /** How many of the selections `0 .. m-1` pick position `i`. */
  function Hits(m: nat, n: nat, i: nat): nat
    requires n > 0
  {
    if m == 0 then 0 else Hits(m - 1, n, i) + (if Pos(m - 1, n) == i then 1 else 0)
  }

  lemma {:induction false} MulAtLeast(n: nat, d: nat)
    requires d >= 1
    ensures n * d >= n
  {
    if d > 1 {
      MulAtLeast(n, d - 1);
      assert n * d == n * (d - 1) + n;
    }
  }

  /** Two quotient-remainder pairs for the same number cannot have
      different quotients. */
  lemma QuotientGap(n: nat, q1: nat, r1: nat, q2: nat, r2: nat)
    requires n > 0 && r1 < n && q1 < q2
    ensures n * q1 + r1 < n * q2 + r2
  {
    var d := q2 - q1;
    assert n * q2 == n * q1 + n * d;
    MulAtLeast(n, d);
  }

  lemma DivModUnique(a: nat, n: nat, q: nat, r: nat)
    requires n > 0 && r < n && a == n * q + r
    ensures a / n == q && a % n == r
  {
    var q', r' := a / n, a % n;
    assert n * q' + r' == n * q + r;
    if q' < q {
      QuotientGap(n, q', r', q, r);
    } else if q' > q {
      QuotientGap(n, q, r, q', r');
    }
  }

  lemma DivModSucc(m: nat, n: nat)
    requires n > 0
    ensures m % n == n - 1 ==> (m + 1) % n == 0
    ensures m % n < n - 1 ==> (m + 1) % n == m % n + 1
  {
    assert m == n * (m / n) + m % n;
    if m % n == n - 1 {
      DivModUnique(m + 1, n, m / n + 1, 0);
    } else {
      DivModUnique(m + 1, n, m / n, m % n + 1);
    }
  }

  /** The wrapping cursor is the source's `currentIdx % len(keys)`. */
  lemma {:induction false} PosIsMod(k: nat, n: nat)
    requires n > 0
    ensures Pos(k, n) == k % n
  {
    if k > 0 {
      PosIsMod(k - 1, n);
      DivModSucc(k - 1, n);
    }
  }

  /** After `m` selections the positions before the cursor have been picked
      once more than the others, which have all been picked as often as
      the last position. */
  lemma {:induction false} HitsSplit(m: nat, n: nat, i: nat)
    requires i < n
    ensures Hits(m, n, i) == Hits(m, n, n - 1) + (if i < Pos(m, n) then 1 else 0)
  {
    if m > 0 {
      HitsSplit(m - 1, n, i);
      HitsSplit(m - 1, n, n - 1);
    }
  }

  /** Round-robin is fair: over any number of selections, two positions of
      the pool are picked a number of times that differ by at most one. */
  lemma PositionsBalanced(m: nat, n: nat, i: nat, j: nat)
    requires i < n && j < n
    ensures Hits(m, n, i) <= Hits(m, n, j) + 1
  {
    HitsSplit(m, n, i);
    HitsSplit(m, n, j);
  }

  /** With distinct keys, each key is handed out exactly as often as its
      position is selected. */
  lemma {:induction false} ServedCount(keys: seq<string>, m: nat, i: nat)
    requires i < |keys|
    requires forall a, b :: 0 <= a < b < |keys| ==> keys[a] != keys[b]
    ensures multiset(RoundRobin(keys, m))[keys[i]] == Hits(m, |keys|, i)
  {
    if m > 0 {
      ServedCount(keys, m - 1, i);
      var p := (m - 1) % |keys|;
      PosIsMod(m - 1, |keys|);
      assert RoundRobin(keys, m) == RoundRobin(keys, m - 1) + [keys[p]];
      assert keys[p] == keys[i] <==> p == i;
    }
  }

  /** Over `m` acquisitions from a pool of distinct keys, no key is handed
      out more than once more than any other. */
  lemma KeysBalanced(keys: seq<string>, m: nat, i: nat, j: nat)
    requires i < |keys| && j < |keys|
    requires forall a, b :: 0 <= a < b < |keys| ==> keys[a] != keys[b]
    ensures multiset(RoundRobin(keys, m))[keys[i]] <= multiset(RoundRobin(keys, m))[keys[j]] + 1
  {
    ServedCount(keys, m, i);
    ServedCount(keys, m, j);
    PositionsBalanced(m, |keys|, i, j);
  }

  /** The numbers `GetStats` reports. */
  datatype Stats = Stats(aptosKeysCount: nat, noditKeysCount: nat, totalRotations: nat, lastUsedCount: nat)

  lemma {:induction false} SubsetCard<T>(a: set<T>, b: set<T>)
    requires a <= b
    ensures |a| <= |b|
    decreases |b|
  {
    if a != {} {
      var x :| x in a;
      SubsetCard(a - {x}, b - {x});
    }
  }

  class APIKeyRotator {
    const aptosKeys: seq<string>
    const noditKeys: seq<string>
    const minDelay: int
    var currentIdx: nat
    /** When each key was last handed out. */
    var lastUsed: map<string, int>
    /** The keys `GetNextAptosKey` has handed out so far, in order. */
    ghost var served: seq<string>

    /** Every key ever used is in one of the pools, and the Aptos keys
        handed out so far are the round-robin sequence up to `currentIdx`
        (which never moves for an empty pool). */
    ghost predicate Valid()
      reads this`currentIdx, this`lastUsed, this`served
    {
      && (|aptosKeys| == 0 ==> currentIdx == 0)
      && served == RoundRobin(aptosKeys, currentIdx)
      && lastUsed.Keys <= Pool()
    }

    /** The distinct keys of both pools. */
    function Pool(): set<string>
    {
      set k | k in aptosKeys + noditKeys
    }

    /** `NewAPIKeyRotator`. */
    constructor (aptosKeys: seq<string>, noditKeys: seq<string>)
      ensures this.aptosKeys == aptosKeys && this.noditKeys == noditKeys
      ensures currentIdx == 0 && lastUsed == map[] && minDelay == MinDelay
      ensures served == [] && Valid()
    {
      this.aptosKeys := aptosKeys;
      this.noditKeys := noditKeys;
      currentIdx := 0;
      lastUsed := map[];
      minDelay := MinDelay;
      served := [];
    }

    /** `GetNextAptosKey`: the key at `currentIdx` in round-robin order,
        got at time `at` (after any sleep); the key's last use becomes `at`
        and the counter moves on. An empty pool gives `""` and changes
        nothing. */
    method GetNextAptosKey(now: int) returns (key: string, at: int)
      requires Valid()
      modifies this`currentIdx, this`lastUsed, this`served
      ensures Valid()
      ensures |aptosKeys| == 0 ==>
        key == "" && at == now && currentIdx == old(currentIdx)
        && lastUsed == old(lastUsed) && served == old(served)
      ensures |aptosKeys| > 0 ==>
        && key == Pick(aptosKeys, old(currentIdx))
        && at == AcquireTime(old(lastUsed), key, now, minDelay)
        && lastUsed == old(lastUsed)[key := at]
        && currentIdx == old(currentIdx) + 1
        && served == old(served) + [key]
    {
      if |aptosKeys| == 0 {
        return "", now;
      }
      key := aptosKeys[currentIdx % |aptosKeys|];
      at := now;
      if key in lastUsed {
        var elapsed := now - lastUsed[key];
        if elapsed < minDelay {
          at := now + (minDelay - elapsed);
        }
      }
      lastUsed := lastUsed[key := at];
      currentIdx := currentIdx + 1;
      served := served + [key];
    }

    /** `GetNextNoditKey`: like `GetNextAptosKey` on the Nodit pool, except
        that it only reads `currentIdx` (it is outside the frame), so two
        calls in a row pick the same key. */
    method GetNextNoditKey(now: int) returns (key: string, at: int)
      requires Valid()
      modifies this`lastUsed
      ensures Valid()
      ensures |noditKeys| == 0 ==> key == "" && at == now && lastUsed == old(lastUsed)
      ensures |noditKeys| > 0 ==>
        && key == Pick(noditKeys, currentIdx)
        && at == AcquireTime(old(lastUsed), key, now, minDelay)
        && lastUsed == old(lastUsed)[key := at]
    {
      if |noditKeys| == 0 {
        return "", now;
      }
      key := noditKeys[currentIdx % |noditKeys|];
      at := now;
      if key in lastUsed {
        var elapsed := now - lastUsed[key];
        if elapsed < minDelay {
          at := now + (minDelay - elapsed);
        }
      }
      lastUsed := lastUsed[key := at];
    }

    /** `GetStats`: reads the state only; the number of keys with a recorded
        last use never exceeds the number of distinct keys in the pools. */
    method GetStats() returns (s: Stats)
      requires Valid()
      ensures s.aptosKeysCount == |aptosKeys| && s.noditKeysCount == |noditKeys|
      ensures s.totalRotations == currentIdx && s.lastUsedCount == |lastUsed|
      ensures s.lastUsedCount <= |Pool()|
    {
      SubsetCard(lastUsed.Keys, Pool());
      s := Stats(|aptosKeys|, |noditKeys|, currentIdx, |lastUsed|);
    }
  }
}
