/** Whole runs of the limiter: sequences of timed calls by any number of clients. */
module RateLimitRuns {
  import opened RateLimit
  import opened Wrappers

  datatype Call = Call(key: Key, at: real)

  /** The clock never goes backwards. */
  ghost predicate Ordered(calls: seq<Call>) {
    forall i, j :: 0 <= i <= j < |calls| ==> calls[i].at <= calls[j].at
  }

  /** The limiter after the first n calls. */
  ghost function After(c: Config, calls: seq<Call>, n: nat): Limiter
    requires n <= |calls|
  {
    if n == 0 then FRESH
    else Allowed(c, After(c, calls, n - 1), calls[n - 1].key, calls[n - 1].at)
  }

  /** The limiter as call i finds it once its sweep is over. */
  ghost function Before(c: Config, calls: seq<Call>, i: nat): Limiter
    requires i < |calls|
  {
    Swept(After(c, calls, i), calls[i].at)
  }

  /** The verdict on call i. */
  ghost predicate Admitted(c: Config, calls: seq<Call>, i: nat)
    requires i < |calls|
  {
    Admits(c, After(c, calls, i), calls[i].key, calls[i].at)
  }

  ghost function Verdicts(c: Config, calls: seq<Call>): (v: seq<bool>)
    ensures |v| == |calls|
  {
    seq(|calls|, i requires 0 <= i < |calls| => Admitted(c, calls, i))
  }

  /** Marks the calls of client k, and those of them that were admitted. */
  ghost function CallsOf(calls: seq<Call>, k: Key): (marks: seq<bool>)
    ensures |marks| == |calls|
  {
    seq(|calls|, i requires 0 <= i < |calls| => calls[i].key == k)
  }

  ghost function GrantsOf(c: Config, calls: seq<Call>, k: Key): (marks: seq<bool>)
    ensures |marks| == |calls|
  {
    seq(|calls|, i requires 0 <= i < |calls| => calls[i].key == k && Admitted(c, calls, i))
  }

  /** How many marks stand at positions i, i+1, ..., j-1. */
  ghost function Count(marks: seq<bool>, i: nat, j: nat): nat
    requires i <= j <= |marks|
    decreases j
  {
    if i == j then 0 else Count(marks, i, j - 1) + if marks[j - 1] then 1 else 0
  }

  lemma {:induction false} CountSplits(marks: seq<bool>, i: nat, m: nat, j: nat)
    requires i <= m <= j <= |marks|
    ensures Count(marks, i, j) == Count(marks, i, m) + Count(marks, m, j)
    decreases j
  {
    if m < j {
      CountSplits(marks, i, m, j - 1);
    }
  }

  /** No window holds more than burst + slope * (its length) marked calls. */
  ghost predicate Conforms(burst: int, slope: real, calls: seq<Call>, marks: seq<bool>)
    requires |marks| == |calls|
  {
    forall i, j :: 0 <= i <= j < |calls| ==>
      Count(marks, i, j + 1) as real <= burst as real + Earned(slope, calls[j].at - calls[i].at)
  }

  // ----- Earning tokens -----

  lemma EarnedAdds(rate: real, a: real, b: real)
    ensures Earned(rate, a + b) == Earned(rate, a) + Earned(rate, b)
  {
  }

  lemma EarnedGrows(rate: real, a: real, b: real)
    requires rate > 0.0
    ensures a < b ==> Earned(rate, a) < Earned(rate, b)
    ensures a <= b ==> Earned(rate, a) <= Earned(rate, b)
    ensures 0.0 <= a ==> 0.0 <= Earned(rate, a)
  {
  }

  // ----- What every call leaves behind -----

  /** Tokens stay within the burst and both timestamps of a bucket agree. */
  ghost predicate Sane(c: Config, l: Limiter) {
    forall k :: k in l.clients ==>
      0.0 <= l.clients[k].tokens <= c.burst as real && l.clients[k].last == l.clients[k].lastSeen
  }

  /** Every client called in the ten minutes before now has a bucket. */
  ghost predicate KeepsRecent(calls: seq<Call>, n: nat, now: real, l: Limiter)
    requires n <= |calls|
  {
    forall i :: 0 <= i < n && now - calls[i].at <= 600.0 ==>
      calls[i].key in l.clients && calls[i].at <= l.clients[calls[i].key].lastSeen
  }

  /** A bucket's lastSeen is the latest of its client's calls, less than twenty minutes old. */
  ghost predicate DropsOld(calls: seq<Call>, n: nat, now: real, l: Limiter)
    requires n <= |calls|
  {
    forall k :: k in l.clients ==>
      && now - l.clients[k].lastSeen <= 1200.0
      && exists i :: 0 <= i < n && LatestCall(calls, n, k, i) && calls[i].at == l.clients[k].lastSeen
  }

  ghost predicate LatestCall(calls: seq<Call>, n: nat, k: Key, i: nat)
    requires i < n <= |calls|
  {
    calls[i].key == k && forall j :: i < j < n ==> calls[j].key != k
  }

  lemma {:induction false} LevelRange(c: Config, b: Bucket, now: real)
    requires 0.0 <= b.tokens && b.last <= now
    ensures 0.0 <= Refilled(c, b, now) <= c.burst as real
  {
    EarnedGrows(c.rate, 0.0, now - b.last);
  }

  /** Each bucket keeps 0 <= tokens <= burst and last = lastSeen. */
  lemma {:induction false} AlwaysSane(c: Config, calls: seq<Call>, n: nat)
    requires Ordered(calls) && n <= |calls|
    ensures Sane(c, After(c, calls, n))
    ensures forall k :: k in After(c, calls, n).clients ==>
      n > 0 && After(c, calls, n).clients[k].last <= calls[n - 1].at
    decreases n
  {
    if n > 0 {
      AlwaysSane(c, calls, n - 1);
      var key, l := calls[n - 1].key, Before(c, calls, n - 1);
      if key in l.clients {
        LevelRange(c, l.clients[key], calls[n - 1].at);
      }
    }
  }

  /** The last sweep is recent, and no bucket was stale when it happened. */
  ghost predicate SweptLately(l: Limiter, now: real) {
    && l.lastSeen.Some? && l.lastSeen.value <= now && now - l.lastSeen.value <= IDLE
    && forall k :: k in l.clients ==> l.lastSeen.value - l.clients[k].lastSeen <= IDLE
  }

  lemma {:induction false} SweepsKeepUp(c: Config, calls: seq<Call>, n: nat)
    requires Ordered(calls) && 0 < n <= |calls|
    ensures SweptLately(After(c, calls, n), calls[n - 1].at)
    decreases n
  {
    if n > 1 {
      SweepsKeepUp(c, calls, n - 1);
    }
  }

  lemma {:induction false} RecentAreKept(c: Config, calls: seq<Call>, n: nat)
    requires Ordered(calls) && 0 < n <= |calls|
    ensures KeepsRecent(calls, n, calls[n - 1].at, After(c, calls, n))
    decreases n
  {
    if n > 1 {
      RecentAreKept(c, calls, n - 1);
    }
  }

  lemma {:induction false} OldAreDropped(c: Config, calls: seq<Call>, n: nat)
    requires Ordered(calls) && 0 < n <= |calls|
    ensures DropsOld(calls, n, calls[n - 1].at, After(c, calls, n))
    decreases n
  {
    var l, now := After(c, calls, n), calls[n - 1].at;
    SweepsKeepUp(c, calls, n);
    forall k | k in l.clients
      ensures exists i :: 0 <= i < n && LatestCall(calls, n, k, i) && calls[i].at == l.clients[k].lastSeen
    {
      if k == calls[n - 1].key {
        assert LatestCall(calls, n, k, n - 1);
      } else {
        assert k in After(c, calls, n - 1).clients;
        OldAreDropped(c, calls, n - 1);
        var was := After(c, calls, n - 1);
        assert was.clients[k] == l.clients[k];
        var i :| 0 <= i < n - 1 && LatestCall(calls, n - 1, k, i) && calls[i].at == was.clients[k].lastSeen;
        assert LatestCall(calls, n, k, i);
      }
    }
  }

  /** After every call the map holds each client called in the last ten minutes and none that
      has been silent for more than twenty; each bucket is sane and dated by its latest call. */
  lemma {:induction false} MemoryIsBounded(c: Config, calls: seq<Call>, n: nat)
    requires Ordered(calls) && 0 < n <= |calls|
    ensures KeepsRecent(calls, n, calls[n - 1].at, After(c, calls, n))
    ensures DropsOld(calls, n, calls[n - 1].at, After(c, calls, n))
    ensures Sane(c, After(c, calls, n))
  {
    RecentAreKept(c, calls, n);
    OldAreDropped(c, calls, n);
    AlwaysSane(c, calls, n);
  }

  // ----- Why a call is denied -----

  /** The bucket that served k at call i is still there when call j looks for it. */
  ghost predicate SameLife(c: Config, calls: seq<Call>, k: Key, i: nat, j: nat)
    requires j < |calls|
  {
    forall m :: i < m <= j ==> k in Before(c, calls, m).clients
  }

  /** What the bucket of k records after n calls, counted from its call i. */
  ghost function Balance(c: Config, calls: seq<Call>, k: Key, i: nat, n: nat, now: real): real
    requires i <= n <= |calls| && i < |calls|
  {
    c.burst as real + Earned(c.rate, now - calls[i].at) - Count(GrantsOf(c, calls, k), i, n) as real
  }

  lemma BalanceMoves(c: Config, calls: seq<Call>, k: Key, i: nat, n: nat, t: real, now: real)
    requires i <= n <= |calls| && i < |calls|
    ensures Balance(c, calls, k, i, n, now) == Balance(c, calls, k, i, n, t) + Earned(c.rate, now - t)
  {
    EarnedAdds(c.rate, t - calls[i].at, now - t);
  }

  /** So many tokens at this instant are no more than the balance since any call of the bucket's
      life, and exactly the balance since the call full, which found the bucket full. */
  ghost predicate Settled(c: Config, calls: seq<Call>, k: Key, n: nat, full: nat, tokens: real, now: real)
    requires 0 < n <= |calls|
  {
    && full < n && calls[full].key == k && SameLife(c, calls, k, full, n - 1)
    && tokens == Balance(c, calls, k, full, n, now)
    && forall i :: 0 <= i < n && calls[i].key == k && SameLife(c, calls, k, i, n - 1) ==>
         tokens <= Balance(c, calls, k, i, n, now)
  }

  lemma {:induction false} Ledger(c: Config, calls: seq<Call>, k: Key, n: nat) returns (full: nat)
    requires Ordered(calls) && 0 < n <= |calls| && k in After(c, calls, n).clients
    ensures Settled(c, calls, k, n, full, After(c, calls, n).clients[k].tokens, After(c, calls, n).clients[k].last)
    decreases n
  {
    var b := After(c, calls, n).clients[k];
    if k in Before(c, calls, n - 1).clients {
      full := Ledger(c, calls, k, n - 1);
      if calls[n - 1].key == k {
        full := LedgerStep(c, calls, k, n, full);
      } else {
        LedgerIdles(c, calls, k, n, full, b.last);
        forall i | 0 <= i < n && calls[i].key == k && SameLife(c, calls, k, i, n - 1)
          ensures b.tokens <= Balance(c, calls, k, i, n, b.last)
        {
          LedgerIdles(c, calls, k, n, i, b.last);
        }
      }
    } else {
      full := n - 1;
      forall i | 0 <= i < n && calls[i].key == k && SameLife(c, calls, k, i, n - 1)
        ensures i == n - 1
      {
      }
      OpeningBalance(c, calls, k, n - 1);
    }
  }

  lemma OpeningBalance(c: Config, calls: seq<Call>, k: Key, i: nat)
    requires i < |calls|
    ensures Balance(c, calls, k, i, i, calls[i].at) == c.burst as real
  {
    assert Count(GrantsOf(c, calls, k), i, i) == 0;
  }

  lemma {:induction false} LedgerIdles(c: Config, calls: seq<Call>, k: Key, n: nat, i: nat, now: real)
    requires i + 1 < n <= |calls| && calls[n - 1].key != k && k in Before(c, calls, n - 1).clients
    ensures SameLife(c, calls, k, i, n - 1) <==> SameLife(c, calls, k, i, n - 2)
    ensures Balance(c, calls, k, i, n, now) == Balance(c, calls, k, i, n - 1, now)
  {
  }

  lemma {:induction false} LedgerStep(c: Config, calls: seq<Call>, k: Key, n: nat, was: nat) returns (full: nat)
    requires Ordered(calls) && 1 < n <= |calls| && calls[n - 1].key == k
    requires k in After(c, calls, n - 1).clients && k in Before(c, calls, n - 1).clients
    requires var b := After(c, calls, n - 1).clients[k]; Settled(c, calls, k, n - 1, was, b.tokens, b.last)
    ensures Settled(c, calls, k, n, full, After(c, calls, n).clients[k].tokens, After(c, calls, n).clients[k].last)
  {
    var now, b := calls[n - 1].at, After(c, calls, n - 1).clients[k];
    var have := Refilled(c, b, now);
    BalanceMoves(c, calls, k, was, n - 1, b.last, now);
    OpeningBalance(c, calls, k, n - 1);
    full := if b.tokens + Earned(c.rate, now - b.last) > c.burst as real then n - 1 else was;
    assert have == Balance(c, calls, k, full, n - 1, now);
    forall i | 0 <= i < n && calls[i].key == k && SameLife(c, calls, k, i, n - 1)
      ensures have <= Balance(c, calls, k, i, n - 1, now)
    {
      if i < n - 1 {
        assert SameLife(c, calls, k, i, n - 2);
        BalanceMoves(c, calls, k, i, n - 1, b.last, now);
      }
    }
    LedgerSpends(c, calls, k, n, have);
  }

  /** What call n - 1 takes from the bucket is what it takes from every balance. */
  lemma LedgerSpends(c: Config, calls: seq<Call>, k: Key, n: nat, have: real)
    requires 0 < n <= |calls| && calls[n - 1].key == k
    requires have == Level(c, Before(c, calls, n - 1), k, calls[n - 1].at)
    ensures forall i, now {:trigger Balance(c, calls, k, i, n, now)} :: 0 <= i < n ==>
      Balance(c, calls, k, i, n - 1, now) - Balance(c, calls, k, i, n, now) == have - Spent(have)
  {
  }

  /** A witness that call j has to be denied: since call i of the same client, still in the same
      bucket's life, one more admission would exceed burst + rate * (time elapsed). */
  ghost predicate Overdrawn(c: Config, calls: seq<Call>, i: nat, j: nat)
    requires i <= j < |calls|
  {
    && calls[i].key == calls[j].key && SameLife(c, calls, calls[j].key, i, j)
    && (Count(GrantsOf(c, calls, calls[j].key), i, j) + 1) as real
         > c.burst as real + Earned(c.rate, calls[j].at - calls[i].at)
  }

  lemma NotOverdrawnAtOnce(c: Config, calls: seq<Call>, j: nat)
    requires j < |calls|
    ensures !Overdrawn(c, calls, j, j)
  {
    assert Count(GrantsOf(c, calls, calls[j].key), j, j) == 0;
    assert Earned(c.rate, calls[j].at - calls[j].at) == 0.0;
  }

  /** A call is denied exactly when it is overdrawn since some call of its bucket's life. */
  lemma {:induction false} DeniedIffOverdrawn(c: Config, calls: seq<Call>, j: nat)
    requires Ordered(calls) && j < |calls|
    ensures !Admitted(c, calls, j) <==> exists i :: 0 <= i <= j && Overdrawn(c, calls, i, j)
  {
    var k, now := calls[j].key, calls[j].at;
    if k in Before(c, calls, j).clients {
      var b := After(c, calls, j).clients[k];
      var full := Ledger(c, calls, k, j);
      BalanceMoves(c, calls, k, full, j, b.last, now);
      if !Admitted(c, calls, j) {
        assert Overdrawn(c, calls, full, j);
      }
      NotOverdrawnAtOnce(c, calls, j);
      forall i | 0 <= i < j && Overdrawn(c, calls, i, j) ensures !Admitted(c, calls, j) {
        assert SameLife(c, calls, k, i, j - 1);
        BalanceMoves(c, calls, k, i, j, b.last, now);
      }
    } else {
      NotOverdrawnAtOnce(c, calls, j);
      assert forall i :: 0 <= i < j ==> !SameLife(c, calls, k, i, j);
    }
  }

  /** No window has more admitted calls of a client than calls. */
  lemma {:induction false} GrantsWithinCalls(c: Config, calls: seq<Call>, k: Key, i: nat, j: nat)
    requires i <= j <= |calls|
    ensures Count(GrantsOf(c, calls, k), i, j) <= Count(CallsOf(calls, k), i, j)
    decreases j
  {
    if i < j {
      GrantsWithinCalls(c, calls, k, i, j - 1);
    }
  }

  // ----- Greedy optimality -----

  /** In every prefix the limiter admits at least as many of a client's calls as any choice of
      them that keeps the (burst, rate) bound on every window. */
  lemma {:induction false} GreedyIsOptimal(c: Config, calls: seq<Call>, k: Key, chosen: seq<bool>, n: nat)
    requires Ordered(calls) && |chosen| == |calls| && n <= |calls|
    requires forall i :: 0 <= i < |calls| && chosen[i] ==> calls[i].key == k
    requires Conforms(c.burst, c.rate, calls, chosen)
    ensures Count(chosen, 0, n) <= Count(GrantsOf(c, calls, k), 0, n)
    decreases n
  {
    if n > 0 {
      var j, grants := n - 1, GrantsOf(c, calls, k);
      GreedyIsOptimal(c, calls, k, chosen, j);
      if chosen[j] && !Admitted(c, calls, j) {
        DeniedIffOverdrawn(c, calls, j);
        var i :| 0 <= i <= j && Overdrawn(c, calls, i, j);
        GreedyIsOptimal(c, calls, k, chosen, i);
        CountSplits(chosen, 0, i, n);
        CountSplits(grants, 0, i, n);
        assert Count(chosen, i, j + 1) as real < (Count(grants, i, j) + 1) as real;
      }
    }
  }

  /** A client whose own calls keep the bound is never denied. */
  lemma {:induction false} ConformingClientIsNeverDenied(c: Config, calls: seq<Call>, k: Key, j: nat)
    requires Ordered(calls) && j < |calls| && calls[j].key == k
    requires Conforms(c.burst, c.rate, calls, CallsOf(calls, k))
    ensures Admitted(c, calls, j)
  {
    DeniedIffOverdrawn(c, calls, j);
    forall i | 0 <= i <= j ensures !Overdrawn(c, calls, i, j) {
      GrantsWithinCalls(c, calls, k, i, j);
      assert Count(CallsOf(calls, k), i, j + 1) == Count(CallsOf(calls, k), i, j) + 1;
    }
  }

  // ----- Retry-After -----

  /** Retry-After is the least whole number of seconds that earns more than one token. */
  lemma {:induction false} RetryAfterEarnsOne(rate: real, s: int)
    requires rate > 0.0
    ensures Earned(rate, s as real) > 1.0 <==> s >= RetryAfter(rate)
  {
    assert Earned(rate, 1.0 / rate) == 1.0;
    EarnedGrows(rate, 1.0 / rate, s as real);
    EarnedGrows(rate, s as real, 1.0 / rate);
  }

  /** The bucket, if there is one, holds at least what has been earned since an instant. */
  ghost predicate KeepsUp(c: Config, l: Limiter, k: Key, since: real, now: real) {
    k in l.clients ==>
      && since <= l.clients[k].last <= now
      && l.clients[k].tokens >= Capped(c, Earned(c.rate, l.clients[k].last - since))
  }

  /** A denied call of the client leaves it so. */
  lemma {:induction false} DeniedKeepsUp(c: Config, l: Limiter, k: Key, since: real, was: real, now: real)
    requires KeepsUp(c, l, k, since, was) && was <= now && k in Swept(l, now).clients && !Admits(c, l, k, now)
    ensures KeepsUp(c, Allowed(c, l, k, now), k, since, now)
  {
    var b := l.clients[k];
    EarnedGrows(c.rate, 0.0, now - b.last);
    EarnedAdds(c.rate, now - b.last, b.last - since);
  }

  /** So does another client's call, and a denial starts it. */
  lemma OthersKeepUp(c: Config, l: Limiter, k: Key, since: real, was: real, call: Call)
    requires KeepsUp(c, l, k, since, was) && was <= call.at && call.key != k
    ensures KeepsUp(c, Allowed(c, l, call.key, call.at), k, since, call.at)
  {
  }

  /** While none of its calls is admitted, a client's level at least keeps up with the refill. */
  lemma {:induction false} LevelKeepsUp(c: Config, calls: seq<Call>, i: nat, n: nat)
    requires Ordered(calls) && i < n <= |calls| && !Admitted(c, calls, i)
    requires forall m :: i < m < n && calls[m].key == calls[i].key ==> !Admitted(c, calls, m)
    ensures KeepsUp(c, After(c, calls, n), calls[i].key, calls[i].at, calls[n - 1].at)
    decreases n
  {
    var k, call, l := calls[i].key, calls[n - 1], After(c, calls, n - 1);
    AlwaysSane(c, calls, n);
    if n == i + 1 {
      assert Earned(c.rate, call.at - call.at) == 0.0;
    } else {
      LevelKeepsUp(c, calls, i, n - 1);
      if call.key != k {
        OthersKeepUp(c, l, k, calls[i].at, calls[n - 2].at, call);
      } else if k in Swept(l, call.at).clients {
        DeniedKeepsUp(c, l, k, calls[i].at, calls[n - 2].at, call.at);
      }
    }
  }

  /** After a denial, the client's next call once a token is earned is admitted unless another of its
      calls was admitted in between, sweeps or not. */
  lemma {:induction false} WaitIsLongEnough(c: Config, calls: seq<Call>, i: nat, j: nat)
    requires Ordered(calls) && i < j < |calls| && calls[i].key == calls[j].key
    requires !Admitted(c, calls, i) && Earned(c.rate, calls[j].at - calls[i].at) >= 1.0
    ensures Admitted(c, calls, j) || exists m :: i < m < j && calls[m].key == calls[j].key && Admitted(c, calls, m)
  {
    if forall m :: i < m < j && calls[m].key == calls[i].key ==> !Admitted(c, calls, m) {
      LevelKeepsUp(c, calls, i, j);
      var k, now := calls[j].key, calls[j].at;
      if k in Before(c, calls, j).clients {
        var b := After(c, calls, j).clients[k];
        EarnedGrows(c.rate, 0.0, now - b.last);
        EarnedAdds(c.rate, now - b.last, b.last - calls[i].at);
      }
    }
  }

  /** So a call at least Retry-After seconds later is. */
  lemma {:induction false} RetryAfterIsSound(c: Config, calls: seq<Call>, i: nat, j: nat)
    requires Ordered(calls) && i < j < |calls| && calls[i].key == calls[j].key
    requires !Admitted(c, calls, i)
    requires calls[j].at >= calls[i].at + RetryAfter(c.rate) as real
    ensures Admitted(c, calls, j) || exists m :: i < m < j && calls[m].key == calls[j].key && Admitted(c, calls, m)
  {
    RetryAfterEarnsOne(c.rate, RetryAfter(c.rate));
    EarnedGrows(c.rate, RetryAfter(c.rate) as real, calls[j].at - calls[i].at);
    WaitIsLongEnough(c, calls, i, j);
  }
}
