/** What other clients cost a client: their calls trigger the sweeps that forget it, or keep it from
    being forgotten. */
module RateLimitNeighbours {
  import opened RateLimit
  import opened RateLimitEviction
  import opened RateLimitRuns
  import opened Wrappers

  // ----- A client's own run -----

  /** The run of one client's calls alone. */
  ghost function Alone(calls: seq<Call>, k: Key): seq<Call> {
    Kept(calls, CallsOf(calls, k))
  }

  /** Erasing every other client's calls from any run leaves one client's verdicts as they were. */
  ghost predicate NeighboursAreUnseen(c: Config) {
    forall calls, k :: Ordered(calls) ==>
      Verdicts(c, Alone(calls, k)) == Kept(Verdicts(c, calls), CallsOf(calls, k))
  }

  lemma {:induction false} AloneGrows(rest: seq<Call>, call: Call, k: Key)
    ensures CallsOf(rest + [call], k)[..|rest|] == CallsOf(rest, k)
    ensures Alone(rest + [call], k) == Alone(rest, k) + if call.key == k then [call] else []
  {
    var calls := rest + [call];
    assert calls[..|rest|] == rest && CallsOf(calls, k)[..|rest|] == CallsOf(rest, k);
  }

  lemma {:induction false} TimesAlone(calls: seq<Call>, k: Key)
    ensures TimesOf(Alone(calls, k), k) == TimesOf(calls, k)
    decreases |calls|
  {
    if calls != [] {
      var rest, call := calls[..|calls| - 1], calls[|calls| - 1];
      assert calls == rest + [call];
      TimesAlone(rest, k);
      AloneGrows(rest, call, k);
      TimesOfOneMore(rest, call);
      TimesOfOneMore(Alone(rest, k), call);
      assert Alone(rest, k) + [] == Alone(rest, k);
    }
  }

  /** A bucket that refills while it is idle hides the others. */
  lemma {:induction false} NeighboursUnseen(c: Config, calls: seq<Call>, k: Key)
    requires Ordered(calls) && RefillsWhileIdle(c)
    ensures Verdicts(c, Alone(calls, k)) == Kept(Verdicts(c, calls), CallsOf(calls, k))
    decreases |calls|
  {
    if calls != [] {
      var rest, call := calls[..|calls| - 1], calls[|calls| - 1];
      assert calls == rest + [call];
      OrderedBefore(rest, call);
      NeighboursUnseen(c, rest, k);
      AloneGrows(rest, call, k);
      VerdictsGrow(c, rest, call);
      assert Verdicts(c, calls)[..|rest|] == Verdicts(c, rest);
      if call.key == k {
        KeptOrdered(rest, CallsOf(rest, k), call);
        VerdictsGrow(c, Alone(rest, k), call);
        TimesAlone(rest, k);
        VerdictIsSolo(c, rest, call);
        VerdictIsSolo(c, Alone(rest, k), call);
      } else {
        assert Alone(rest, k) + [] == Alone(rest, k);
        assert Kept(Verdicts(c, rest), CallsOf(rest, k)) + [] == Kept(Verdicts(c, rest), CallsOf(rest, k));
      }
    }
  }

  // ----- A neighbour that keeps a client from being forgotten -----

  /** Two bursts of a client a little over ten minutes apart. Just before each, a neighbour's call
      takes the sweep: before the first there is nothing to forget, before the second the client is
      not quite stale. */
  ghost function Crowded(m: nat, e: real): (calls: seq<Call>)
    ensures |calls| == 2 * m + 2
  {
    seq(2 * m + 2, i requires 0 <= i < 2 * m + 2 =>
      if i == 0 then Call("neighbour", -e)
      else if i <= m then Call("client", 0.0)
      else if i == m + 1 then Call("neighbour", IDLE - e / 2.0)
      else Call("client", IDLE + e))
  }

  lemma CrowdedIsOrdered(m: nat, e: real)
    requires 0.0 < e <= IDLE / 2.0
    ensures Ordered(Crowded(m, e))
  {
  }

  /** How many of the first n calls are the client's. */
  ghost function ClientCalls(m: nat, n: nat): nat
    requires n <= 2 * m + 2
  {
    if n == 0 then 0 else if n <= m + 1 then n - 1 else n - 2
  }

  lemma CrowdedCall(m: nat, e: real, n: nat)
    requires n < 2 * m + 2
    ensures Crowded(m, e)[n].key == "client" <==> n != 0 && n != m + 1
    ensures Crowded(m, e)[n].key == "client" ==>
      ClientCalls(m, n + 1) == ClientCalls(m, n) + 1 <= 2 * m
      && Crowded(m, e)[n] == TwoBursts(m, IDLE + e)[ClientCalls(m, n)]
    ensures Crowded(m, e)[n].key != "client" ==> ClientCalls(m, n + 1) == ClientCalls(m, n)
  {
  }

  lemma OneLonger<T>(items: seq<T>, n: nat)
    requires n < |items|
    ensures items[..n + 1] == items[..n] + [items[n]]
  {
  }

  /** Without the neighbour the client's bursts are two plain ones. */
  lemma {:induction false} AloneInTheCrowd(m: nat, e: real, n: nat)
    requires n <= 2 * m + 2
    ensures ClientCalls(m, n) <= 2 * m
    ensures Alone(Crowded(m, e)[..n], "client") == TwoBursts(m, IDLE + e)[..ClientCalls(m, n)]
    decreases n
  {
    if n > 0 {
      var calls := Crowded(m, e);
      AloneInTheCrowd(m, e, n - 1);
      CrowdedCall(m, e, n - 1);
      OneLonger(calls, n - 1);
      AloneGrows(calls[..n - 1], calls[n - 1], "client");
      if calls[n - 1].key == "client" {
        OneLonger(TwoBursts(m, IDLE + e), ClientCalls(m, n - 1));
      }
    }
  }

  /** The neighbour's two calls are the only ones that sweep. */
  lemma {:induction false} NeighbourSweeps(c: Config, e: real, n: nat)
    requires 0.0 < e <= IDLE / 2.0 && 0 < n <= 2 * c.burst + 2
    ensures After(c, Crowded(c.burst, e), n).lastSeen == Some(if n <= c.burst + 1 then -e else IDLE - e / 2.0)
    decreases n
  {
    if n > 1 {
      NeighbourSweeps(c, e, n - 1);
    }
  }

  /** The client is remembered throughout. */
  lemma {:induction false} ClientIsRemembered(c: Config, e: real, n: nat)
    requires 0.0 < e <= IDLE / 2.0 && 1 < n < 2 * c.burst + 2
    ensures "client" in Before(c, Crowded(c.burst, e), n).clients
  {
    var calls := Crowded(c.burst, e);
    CrowdedIsOrdered(c.burst, e);
    NeighbourSweeps(c, e, n);
    if n <= c.burst + 2 {
      RecentAreKept(c, calls, n);
      assert calls[1] == Call("client", 0.0);
    }
  }

  lemma {:induction false} MarkedBetween(marks: seq<bool>, i: nat, j: nat)
    requires i <= j <= |marks| && forall n :: i <= n < j ==> marks[n]
    ensures Count(marks, i, j) == j - i
    decreases j
  {
    if i < j {
      MarkedBetween(marks, i, j - 1);
    }
  }

  lemma {:induction false} MarkedButOne(marks: seq<bool>, i: nat, gap: nat, j: nat)
    requires i <= gap < j <= |marks| && !marks[gap]
    requires forall n :: i <= n < j && n != gap ==> marks[n]
    ensures Count(marks, i, j) == j - i - 1
  {
    CountSplits(marks, i, gap, j);
    CountSplits(marks, gap, gap + 1, j);
    MarkedBetween(marks, i, gap);
    MarkedBetween(marks, gap + 1, j);
    assert Count(marks, gap, gap) == 0;
  }

  /** Call i of the crowded run is the client's, and is denied. */
  ghost predicate DeniedInTheCrowd(c: Config, e: real, i: nat)
    requires i < 2 * c.burst + 2
  {
    Crowded(c.burst, e)[i].key == "client" && !Admitted(c, Crowded(c.burst, e), i)
  }

  lemma CrowdedMark(c: Config, e: real, i: nat)
    requires 0 < i < 2 * c.burst + 2 && !DeniedInTheCrowd(c, e, i)
    ensures GrantsOf(c, Crowded(c.burst, e), "client")[i] <==> i != c.burst + 1
  {
  }

  /** If all the client's calls were served, how many that would be before the last one. */
  lemma {:induction false} CrowdedGrants(c: Config, e: real)
    requires forall i :: 0 <= i < 2 * c.burst + 2 ==> !DeniedInTheCrowd(c, e, i)
    ensures Count(GrantsOf(c, Crowded(c.burst, e), "client"), 1, 2 * c.burst + 1) == 2 * c.burst - 1
  {
    var marks, m := GrantsOf(c, Crowded(c.burst, e), "client"), c.burst;
    forall i | 0 < i < 2 * m + 2 ensures marks[i] <==> i != m + 1 {
      CrowdedMark(c, e, i);
    }
    MarkedButOne(marks, 1, m + 1, 2 * m + 1);
  }

  lemma {:induction false} ClientKeepsItsBucket(c: Config, e: real)
    requires 0.0 < e <= IDLE / 2.0
    ensures SameLife(c, Crowded(c.burst, e), "client", 1, 2 * c.burst + 1)
  {
    forall n | 1 < n <= 2 * c.burst + 1 ensures "client" in Before(c, Crowded(c.burst, e), n).clients {
      ClientIsRemembered(c, e, n);
    }
  }

  /** The client's last call in the crowd would overdraw its bucket. */
  lemma {:induction false} CrowdedOverdraws(c: Config, e: real)
    requires 0.0 < e <= IDLE / 2.0 && Earned(c.rate, IDLE + e) < c.burst as real
    requires Count(GrantsOf(c, Crowded(c.burst, e), "client"), 1, 2 * c.burst + 1) == 2 * c.burst - 1
    ensures !Admitted(c, Crowded(c.burst, e), 2 * c.burst + 1)
  {
    var calls, last := Crowded(c.burst, e), 2 * c.burst + 1;
    CrowdedIsOrdered(c.burst, e);
    ClientKeepsItsBucket(c, e);
    assert calls[1] == Call("client", 0.0) && calls[last] == Call("client", IDLE + e);
    assert Overdrawn(c, calls, 1, last);
    DeniedIffOverdrawn(c, calls, last);
  }

  /** In the crowd not all of the client's calls are served: its bucket is still the old one, which
      has not earned a second burst. */
  lemma {:induction false} CrowdedRunsDry(c: Config, e: real)
    requires 0.0 < e <= IDLE / 2.0 && Earned(c.rate, IDLE + e) < c.burst as real
    ensures exists i :: 0 <= i < 2 * c.burst + 2 && DeniedInTheCrowd(c, e, i)
  {
    if forall i :: 0 <= i < 2 * c.burst + 2 ==> !DeniedInTheCrowd(c, e, i) {
      CrowdedGrants(c, e);
      CrowdedOverdraws(c, e);
      assert DeniedInTheCrowd(c, e, 2 * c.burst + 1);
    }
  }

  lemma {:induction false} KeptMarked<T>(items: seq<T>, keep: seq<bool>, i: nat)
    requires |keep| == |items| && i < |items| && keep[i]
    ensures items[i] in Kept(items, keep)
    decreases |items|
  {
    var n := |items| - 1;
    if i < n {
      KeptMarked(items[..n], keep[..n], i);
    }
  }

  /** A little over ten idle minutes that do not refill a bucket. */
  lemma SlightlyIdle(c: Config) returns (e: real)
    requires !RefillsWhileIdle(c)
    ensures 0.0 < e <= IDLE / 2.0 && Earned(c.rate, IDLE + e) < c.burst as real
  {
    var d := ShortDelay(c);
    e := d / 2.0;
    EarnedGrows(c.rate, IDLE + e, IDLE + d);
  }

  /** Alone, the client would be served every time. */
  lemma {:induction false} AloneAllServed(c: Config, e: real)
    requires 0.0 < e
    ensures Alone(Crowded(c.burst, e), "client") == TwoBursts(c.burst, IDLE + e)
    ensures false !in Verdicts(c, TwoBursts(c.burst, IDLE + e))
  {
    var calls, alone := Crowded(c.burst, e), TwoBursts(c.burst, IDLE + e);
    AloneInTheCrowd(c.burst, e, |calls|);
    assert calls[..|calls|] == calls && alone[..|alone|] == alone;
    SecondBurstIsFree(c, IDLE + e);
  }

  lemma {:induction false} NeighbourMatters(c: Config)
    requires !RefillsWhileIdle(c)
    ensures !NeighboursAreUnseen(c)
  {
    var e := SlightlyIdle(c);
    var calls := Crowded(c.burst, e);
    CrowdedIsOrdered(c.burst, e);
    AloneAllServed(c, e);
    CrowdedRunsDry(c, e);
    var i :| 0 <= i < |calls| && DeniedInTheCrowd(c, e, i);
    KeptMarked(Verdicts(c, calls), CallsOf(calls, "client"), i);
    assert Verdicts(c, Alone(calls, "client")) != Kept(Verdicts(c, calls), CallsOf(calls, "client"));
  }

  /** No client ever notices the others, in any run, exactly when ten idle minutes refill a bucket. */
  lemma {:induction false} NeighboursUnseenIffRefillsWhileIdle(c: Config)
    ensures NeighboursAreUnseen(c) <==> 600.0 * c.rate >= c.burst as real
  {
    if RefillsWhileIdle(c) {
      forall calls, k | Ordered(calls)
        ensures Verdicts(c, Alone(calls, k)) == Kept(Verdicts(c, calls), CallsOf(calls, k))
      {
        NeighboursUnseen(c, calls, k);
      }
    } else {
      NeighbourMatters(c);
    }
  }
}
