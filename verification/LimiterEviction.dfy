/** What forgetting idle clients costs: the window bound the limiter really keeps, and when a
    client cannot tell that its bucket was ever dropped. */
module RateLimitEviction {
  import opened RateLimit
  import opened RateLimitRuns
  import opened Wrappers

  // ----- The window bound -----

  /** Ten idle minutes at this slope are worth a full burst, and no refill is faster. */
  ghost predicate CoversEviction(c: Config, slope: real) {
    slope >= c.rate && Earned(slope, IDLE) >= c.burst as real
  }

  /** What the bound leaves to k after n calls, counting its grants from call i on: a bucket may
      spend its tokens on top of them, a forgotten client has already waited a burst's worth. */
  ghost predicate Covered(c: Config, slope: real, calls: seq<Call>, k: Key, i: nat, n: nat)
    requires i < n <= |calls|
  {
    var l, granted := After(c, calls, n), Count(GrantsOf(c, calls, k), i, n) as real;
    if k in l.clients
    then granted == 0.0 ||
         l.clients[k].tokens + granted <= c.burst as real + Earned(slope, l.clients[k].last - calls[i].at)
    else granted <= Earned(slope, calls[n - 1].at - calls[i].at)
  }

  lemma EarnedFaster(rate: real, slope: real, span: real)
    requires rate <= slope && 0.0 <= span
    ensures Earned(rate, span) <= Earned(slope, span)
  {
  }

  lemma {:induction false} AlwaysCovered(c: Config, slope: real, calls: seq<Call>, k: Key, i: nat, n: nat)
    requires Ordered(calls) && i < n <= |calls| && CoversEviction(c, slope)
    ensures Covered(c, slope, calls, k, i, n)
    decreases n
  {
    if i == n - 1 {
      CoveredAtOnce(c, slope, calls, k, n);
    } else {
      AlwaysCovered(c, slope, calls, k, i, n - 1);
      if k in Before(c, calls, n - 1).clients {
        CoveredWhileKept(c, slope, calls, k, i, n);
      } else {
        CoveredWhenForgotten(c, slope, calls, k, i, n);
      }
    }
  }

  lemma {:induction false} CoveredWhileKept(c: Config, slope: real, calls: seq<Call>, k: Key, i: nat, n: nat)
    requires Ordered(calls) && i + 1 < n <= |calls| && CoversEviction(c, slope)
    requires k in Before(c, calls, n - 1).clients && Covered(c, slope, calls, k, i, n - 1)
    ensures Covered(c, slope, calls, k, i, n)
  {
    var now, b := calls[n - 1].at, After(c, calls, n - 1).clients[k];
    AlwaysSane(c, calls, n - 1);
    if calls[n - 1].key == k {
      EarnedGrows(slope, 0.0, now - calls[i].at);
      EarnedAdds(slope, b.last - calls[i].at, now - b.last);
      EarnedFaster(c.rate, slope, now - b.last);
      assert Refilled(c, b, now) <= b.tokens + Earned(slope, now - b.last);
    }
  }

  lemma {:induction false} CoveredWhenForgotten(c: Config, slope: real, calls: seq<Call>, k: Key, i: nat, n: nat)
    requires Ordered(calls) && i + 1 < n <= |calls| && CoversEviction(c, slope)
    requires k !in Before(c, calls, n - 1).clients && Covered(c, slope, calls, k, i, n - 1)
    ensures Covered(c, slope, calls, k, i, n)
  {
    var now, was, granted := calls[n - 1].at, After(c, calls, n - 1), Count(GrantsOf(c, calls, k), i, n - 1);
    assert granted as real <= Earned(slope, now - calls[i].at) by {
      AlwaysSane(c, calls, n - 1);
      EarnedGrows(slope, calls[n - 2].at - calls[i].at, now - calls[i].at);
      EarnedGrows(slope, 0.0, now - calls[i].at);
      if k in was.clients {
        var b := was.clients[k];
        EarnedAdds(slope, b.last - calls[i].at, now - b.last);
        EarnedGrows(slope, IDLE, now - b.last);
      }
    }
  }

  lemma {:induction false} CoveredAtOnce(c: Config, slope: real, calls: seq<Call>, k: Key, n: nat)
    requires Ordered(calls) && 0 < n <= |calls|
    ensures Covered(c, slope, calls, k, n - 1, n)
  {
    var at := calls[n - 1].at;
    assert Count(GrantsOf(c, calls, k), n - 1, n - 1) == 0;
    assert Earned(slope, at - at) == 0.0;
    AlwaysSane(c, calls, n - 1);
    if calls[n - 1].key == k && k in Before(c, calls, n - 1).clients {
      LevelRange(c, After(c, calls, n - 1).clients[k], at);
    }
  }

  lemma {:induction false} WindowBound(c: Config, slope: real, calls: seq<Call>, k: Key)
    requires Ordered(calls) && CoversEviction(c, slope)
    ensures Conforms(c.burst, slope, calls, GrantsOf(c, calls, k))
  {
    forall i, j | 0 <= i <= j < |calls|
      ensures Count(GrantsOf(c, calls, k), i, j + 1) as real
                <= c.burst as real + Earned(slope, calls[j].at - calls[i].at)
    {
      AlwaysCovered(c, slope, calls, k, i, j + 1);
      AlwaysSane(c, calls, j + 1);
      var l := After(c, calls, j + 1);
      EarnedGrows(slope, 0.0, calls[j].at - calls[i].at);
      if k in l.clients {
        EarnedGrows(slope, l.clients[k].last - calls[i].at, calls[j].at - calls[i].at);
      }
    }
  }

  /** No run of any clients ever admits more than burst + slope * (elapsed) of one client's calls. */
  ghost predicate BoundsEveryRun(c: Config, slope: real) {
    forall calls, k :: Ordered(calls) ==> Conforms(c.burst, slope, calls, GrantsOf(c, calls, k))
  }

  /** m calls of one client at instant 0, then m more at instant t. */
  ghost function TwoBursts(m: nat, t: real): (calls: seq<Call>)
    ensures |calls| == 2 * m
  {
    seq(2 * m, i requires 0 <= i < 2 * m => Call("client", if i < m then 0.0 else t))
  }

  lemma EarnedAtOnce(rate: real)
    ensures Earned(rate, 0.0) == 0.0
  {
  }

  /** A limiter whose one client was last served at an instant. */
  ghost function Lone(tokens: real, last: real, swept: real): Limiter {
    Limiter(map["client" := Bucket(tokens, last, last)], Some(swept))
  }

  /** A further call at the same instant costs one token and nothing else. */
  lemma SameInstant(c: Config, tokens: real, now: real, swept: real)
    requires 1.0 <= tokens <= c.burst as real && 0.0 <= now - swept <= IDLE
    ensures Admits(c, Lone(tokens, now, swept), "client", now)
    ensures Allowed(c, Lone(tokens, now, swept), "client", now) == Lone(tokens - 1.0, now, swept)
  {
    EarnedAtOnce(c.rate);
  }

  /** A burst of calls at one instant drains a full bucket one token at a time. */
  lemma {:induction false} BurstDrains(c: Config, calls: seq<Call>, m: nat, n: nat, t: real, swept: real)
    requires 0 < n <= c.burst && m + n <= |calls| && 0.0 <= t - swept <= IDLE
    requires forall i :: m <= i < m + n ==> calls[i] == Call("client", t)
    requires Admitted(c, calls, m) && After(c, calls, m + 1) == Lone((c.burst - 1) as real, t, swept)
    ensures After(c, calls, m + n) == Lone((c.burst - n) as real, t, swept)
    ensures forall i :: m <= i < m + n ==> Admitted(c, calls, i)
    decreases n
  {
    if n > 1 {
      BurstDrains(c, calls, m, n - 1, t, swept);
      SameInstant(c, (c.burst - (n - 1)) as real, t, swept);
    }
  }

  lemma {:induction false} FirstBurstDrains(c: Config, calls: seq<Call>)
    requires c.burst <= |calls| && forall i :: 0 <= i < c.burst ==> calls[i] == Call("client", 0.0)
    ensures After(c, calls, c.burst) == Lone(0.0, 0.0, 0.0)
    ensures forall i :: 0 <= i < c.burst ==> Admitted(c, calls, i)
  {
    assert After(c, calls, 0) == FRESH;
    BurstDrains(c, calls, 0, c.burst, 0.0, 0.0);
  }

  /** More than ten minutes later the client is forgotten and starts over with a full bucket. */
  lemma {:induction false} StartsOver(c: Config, now: real)
    requires now > IDLE
    ensures Admits(c, Lone(0.0, 0.0, 0.0), "client", now)
    ensures Allowed(c, Lone(0.0, 0.0, 0.0), "client", now) == Lone((c.burst - 1) as real, now, now)
  {
    assert Swept(Lone(0.0, 0.0, 0.0), now) == Limiter(map[], Some(now));
  }

  lemma {:induction false} SecondBurstIsFree(c: Config, t: real)
    requires t > IDLE
    ensures forall i :: 0 <= i < 2 * c.burst ==> Admitted(c, TwoBursts(c.burst, t), i)
  {
    var calls := TwoBursts(c.burst, t);
    FirstBurstDrains(c, calls);
    StartsOver(c, t);
    BurstDrains(c, calls, c.burst, c.burst, t, t);
  }

  lemma {:induction false} AllMarked(marks: seq<bool>, n: nat)
    requires n <= |marks| && forall i :: 0 <= i < n ==> marks[i]
    ensures Count(marks, 0, n) == n
    decreases n
  {
    if n > 0 {
      AllMarked(marks, n - 1);
    }
  }

  /** A span slightly over the idle limit in which slope still earns less than bound. */
  lemma JustPast(slope: real, idle: real, bound: real) returns (t: real)
    requires slope > 0.0 && Earned(slope, idle) < bound
    ensures t > idle && Earned(slope, t) < bound
  {
    var gap := bound - Earned(slope, idle);
    t := idle + gap / (2.0 * slope);
    assert Earned(slope, gap / (2.0 * slope)) == gap / 2.0;
    EarnedAdds(slope, idle, gap / (2.0 * slope));
  }

  /** One overfull window is enough to break a bound. */
  lemma Breaks(c: Config, slope: real, calls: seq<Call>, k: Key, j: nat)
    requires Ordered(calls) && j < |calls|
    requires Count(GrantsOf(c, calls, k), 0, j + 1) as real > c.burst as real + Earned(slope, calls[j].at - calls[0].at)
    ensures !BoundsEveryRun(c, slope)
  {
    assert !Conforms(c.burst, slope, calls, GrantsOf(c, calls, k));
  }

  lemma {:induction false} BothBurstsGranted(c: Config, t: real)
    requires t > IDLE
    ensures Ordered(TwoBursts(c.burst, t))
    ensures Count(GrantsOf(c, TwoBursts(c.burst, t), "client"), 0, 2 * c.burst) == 2 * c.burst
  {
    SecondBurstIsFree(c, t);
    AllMarked(GrantsOf(c, TwoBursts(c.burst, t), "client"), 2 * c.burst);
  }

  lemma {:induction false} EvictionBreaksSlope(c: Config, slope: real)
    requires slope > 0.0 && Earned(slope, IDLE) < c.burst as real
    ensures !BoundsEveryRun(c, slope)
  {
    var t := JustPast(slope, IDLE, c.burst as real);
    BothBurstsGranted(c, t);
    Breaks(c, slope, TwoBursts(c.burst, t), "client", 2 * c.burst - 1);
  }

  /** A burst at instant 0 and one call more at instant t. */
  ghost function BurstAndOne(m: nat, t: real): (calls: seq<Call>)
    ensures |calls| == m + 1
  {
    seq(m + 1, i requires 0 <= i < m + 1 => Call("client", if i < m then 0.0 else t))
  }

  /** A drained client is served again as soon as one token is back. */
  lemma {:induction false} OneMoreGranted(c: Config, t: real)
    requires t >= 0.0 && Earned(c.rate, t) >= 1.0
    ensures Ordered(BurstAndOne(c.burst, t))
    ensures Count(GrantsOf(c, BurstAndOne(c.burst, t), "client"), 0, c.burst + 1) == c.burst + 1
  {
    var calls := BurstAndOne(c.burst, t);
    FirstBurstDrains(c, calls);
    assert Admitted(c, calls, c.burst);
    AllMarked(GrantsOf(c, calls, "client"), c.burst + 1);
  }

  lemma OneTokenIn(rate: real)
    requires rate > 0.0
    ensures 1.0 / rate > 0.0 && Earned(rate, 1.0 / rate) == 1.0
  {
  }

  lemma EarnedSlower(slope: real, rate: real, span: real)
    requires slope < rate && 0.0 < span
    ensures Earned(slope, span) < Earned(rate, span)
  {
    assert Earned(rate, span) - Earned(slope, span) == span * (rate - slope);
  }

  /** A span in which the rate earns a token and a slower slope does not. */
  lemma {:induction false} SlowerEarnsLess(rate: real, slope: real) returns (t: real)
    requires 0.0 < rate && slope < rate
    ensures t >= 0.0 && Earned(rate, t) == 1.0 && Earned(slope, t) < 1.0
  {
    t := 1.0 / rate;
    OneTokenIn(rate);
    EarnedSlower(slope, rate, t);
  }

  lemma {:induction false} SlowerSlopeBreaks(c: Config, slope: real)
    requires slope < c.rate
    ensures !BoundsEveryRun(c, slope)
  {
    var t := SlowerEarnsLess(c.rate, slope);
    OneMoreGranted(c, t);
    Breaks(c, slope, BurstAndOne(c.burst, t), "client", c.burst);
  }

  /** The slopes that bound every window of every run are exactly those at least as steep as both
      the refill rate and a burst every ten minutes. */
  lemma {:induction false} BoundingSlopes(c: Config, slope: real)
    ensures BoundsEveryRun(c, slope) <==> slope >= c.rate && 600.0 * slope >= c.burst as real
  {
    if slope < c.rate {
      SlowerSlopeBreaks(c, slope);
    } else if Earned(slope, IDLE) < c.burst as real {
      EvictionBreaksSlope(c, slope);
    } else {
      forall calls, k | Ordered(calls) ensures Conforms(c.burst, slope, calls, GrantsOf(c, calls, k)) {
        WindowBound(c, slope, calls, k);
      }
    }
  }

  // ----- The same client with a bucket that is never dropped -----

  /** The instants of client k's calls. */
  ghost function TimesOf(calls: seq<Call>, k: Key): seq<real> {
    if |calls| == 0 then [] else
      var rest, call := calls[..|calls| - 1], calls[|calls| - 1];
      TimesOf(rest, k) + if call.key == k then [call.at] else []
  }

  /** The tokens a bucket offers, a client's first call creating a full one. */
  ghost function Offer(c: Config, b: Option<Bucket>, now: real): real {
    if b.Some? then Refilled(c, b.value, now) else c.burst as real
  }

  /** A single bucket fed calls at these instants and nothing else; None until the first. */
  ghost function Solo(c: Config, times: seq<real>): Option<Bucket> {
    if |times| == 0 then None else
      var now := times[|times| - 1];
      Some(Bucket(Spent(Offer(c, Solo(c, times[..|times| - 1]), now)), now, now))
  }

  ghost function SoloLevel(c: Config, times: seq<real>, now: real): real {
    Offer(c, Solo(c, times), now)
  }

  /** The verdict on call i if its client owned a bucket that is never dropped. */
  ghost predicate SoloAdmitted(c: Config, calls: seq<Call>, i: nat)
    requires i < |calls|
  {
    SoloLevel(c, TimesOf(calls[..i], calls[i].key), calls[i].at) >= 1.0
  }

  /** Ten idle minutes refill any bucket. */
  ghost predicate RefillsWhileIdle(c: Config) {
    600.0 * c.rate >= c.burst as real
  }

  /** The never-dropped bucket of k after the first n calls of a run. */
  ghost function SoloAfter(c: Config, calls: seq<Call>, k: Key, n: nat): Option<Bucket>
    requires n <= |calls|
  {
    Solo(c, TimesOf(calls[..n], k))
  }

  lemma {:induction false} SoloGrows(c: Config, times: seq<real>, now: real)
    ensures Solo(c, times + [now]) == Some(Bucket(Spent(SoloLevel(c, times, now)), now, now))
  {
    assert (times + [now])[..|times|] == times;
  }

  lemma {:induction false} SoloStep(c: Config, calls: seq<Call>, k: Key, n: nat)
    requires 0 < n <= |calls|
    ensures calls[n - 1].key != k ==> SoloAfter(c, calls, k, n) == SoloAfter(c, calls, k, n - 1)
    ensures calls[n - 1].key == k ==> SoloAfter(c, calls, k, n) == Some(
      Bucket(Spent(Offer(c, SoloAfter(c, calls, k, n - 1), calls[n - 1].at)), calls[n - 1].at, calls[n - 1].at))
  {
    var times := TimesOf(calls[..n - 1], k);
    assert calls[..n][..n - 1] == calls[..n - 1];
    SoloGrows(c, times, calls[n - 1].at);
    assert times + [] == times;
  }

  /** The bucket offers a full burst from this instant on. */
  ghost predicate FullFrom(c: Config, b: Option<Bucket>, from: real) {
    forall now :: now >= from ==> Offer(c, b, now) == c.burst as real
  }

  /** The bucket of k is its solo bucket; without one, the solo bucket is full or missing. */
  ghost predicate Tracks(c: Config, calls: seq<Call>, k: Key, n: nat)
    requires n <= |calls|
  {
    var l, b := After(c, calls, n), SoloAfter(c, calls, k, n);
    if k in l.clients then b == Some(l.clients[k])
    else b == None || (n > 0 && FullFrom(c, b, calls[n - 1].at))
  }

  lemma {:induction false} IdleRefills(c: Config, b: Bucket, from: real)
    requires RefillsWhileIdle(c) && b.tokens >= 0.0 && from - b.last > IDLE
    ensures FullFrom(c, Some(b), from)
  {
    forall now | now >= from ensures Refilled(c, b, now) == c.burst as real {
      EarnedGrows(c.rate, IDLE, now - b.last);
    }
  }

  /** What call n finds, whoever makes it: the sweep costs k nothing. */
  lemma {:induction false} SweepUnseen(c: Config, calls: seq<Call>, k: Key, n: nat)
    requires Ordered(calls) && n < |calls| && RefillsWhileIdle(c) && Tracks(c, calls, k, n)
    ensures var l, b := Before(c, calls, n), SoloAfter(c, calls, k, n);
      if k in l.clients then b == Some(l.clients[k]) else b == None || FullFrom(c, b, calls[n].at)
    ensures Level(c, Before(c, calls, n), k, calls[n].at) == Offer(c, SoloAfter(c, calls, k, n), calls[n].at)
  {
    var was := After(c, calls, n);
    AlwaysSane(c, calls, n);
    if k in was.clients && k !in Before(c, calls, n).clients {
      IdleRefills(c, was.clients[k], calls[n].at);
    }
  }

  lemma {:induction false} AlwaysTracks(c: Config, calls: seq<Call>, k: Key, n: nat)
    requires Ordered(calls) && n <= |calls| && RefillsWhileIdle(c)
    ensures Tracks(c, calls, k, n)
    decreases n
  {
    if n > 0 {
      AlwaysTracks(c, calls, k, n - 1);
      SweepUnseen(c, calls, k, n - 1);
      SoloStep(c, calls, k, n);
    } else {
      assert calls[..0] == [];
    }
  }

  lemma {:induction false} EvictionUnseen(c: Config, calls: seq<Call>, i: nat)
    requires Ordered(calls) && i < |calls| && RefillsWhileIdle(c)
    ensures Admitted(c, calls, i) <==> SoloAdmitted(c, calls, i)
  {
    AlwaysTracks(c, calls, calls[i].key, i);
    SweepUnseen(c, calls, calls[i].key, i);
  }

  /** In every run of every client, each verdict is the one its client's own bucket would give. */
  ghost predicate IsolatesClients(c: Config) {
    forall calls, i: nat :: Ordered(calls) && i < |calls| ==> (Admitted(c, calls, i) <==> SoloAdmitted(c, calls, i))
  }

  lemma SoloGrant(c: Config, calls: seq<Call>, i: nat, have: real)
    requires i < |calls| && calls[i].key == "client" && SoloAdmitted(c, calls, i)
    requires Offer(c, SoloAfter(c, calls, "client", i), calls[i].at) == have
    ensures have >= 1.0
    ensures SoloAfter(c, calls, "client", i + 1) == Some(Bucket(have - 1.0, calls[i].at, calls[i].at))
  {
    SoloStep(c, calls, "client", i + 1);
  }

  /** The n calls from m on are the client's at one instant, and a solo bucket serves them all. */
  ghost predicate SoloServes(c: Config, calls: seq<Call>, m: nat, n: nat, t: real) {
    m + n <= |calls| && forall i :: m <= i < m + n ==> SoloServesAt(c, calls, i, t)
  }

  ghost predicate SoloServesAt(c: Config, calls: seq<Call>, i: nat, t: real)
    requires i < |calls|
  {
    calls[i] == Call("client", t) && SoloAdmitted(c, calls, i)
  }

  /** A bucket settled at this instant offers what it holds. */
  lemma OffersAtOnce(c: Config, tokens: real, t: real)
    requires tokens <= c.burst as real
    ensures Offer(c, Some(Bucket(tokens, t, t)), t) == tokens
  {
    EarnedAtOnce(c.rate);
  }

  /** A drained bucket offers what it has earned since. */
  lemma DrainedOffers(c: Config, t: real)
    requires Earned(c.rate, t) < c.burst as real
    ensures Offer(c, Some(Bucket(0.0, 0.0, 0.0)), t) == Earned(c.rate, t)
  {
  }

  /** Solo, a burst of calls at one instant that are all served takes a token each. */
  lemma {:induction false} SoloPays(c: Config, calls: seq<Call>, m: nat, n: nat, have: real, t: real)
    requires 0 < n && SoloServes(c, calls, m, n, t) && have <= c.burst as real
    requires Offer(c, SoloAfter(c, calls, "client", m), t) == have
    ensures have - n as real >= 0.0
    ensures SoloAfter(c, calls, "client", m + n) == Some(Bucket(have - n as real, t, t))
    decreases n
  {
    if n > 1 {
      SoloPays(c, calls, m, n - 1, have, t);
      OffersAtOnce(c, have - (n - 1) as real, t);
    }
    assert SoloServesAt(c, calls, m + n - 1, t);
    SoloGrant(c, calls, m + n - 1, have - (n - 1) as real);
  }

  /** A solo bucket cannot grant both bursts: the second would overdraw it. */
  lemma {:induction false} SoloRunsDry(c: Config, t: real)
    requires t > IDLE && Earned(c.rate, t) < c.burst as real
    ensures exists i :: 0 <= i < 2 * c.burst && !SoloAdmitted(c, TwoBursts(c.burst, t), i)
  {
    var calls, m := TwoBursts(c.burst, t), c.burst;
    if forall i :: 0 <= i < 2 * m ==> SoloAdmitted(c, calls, i) {
      assert SoloServes(c, calls, 0, m, 0.0) && SoloServes(c, calls, m, m, t);
      assert calls[..0] == [];
      SoloPays(c, calls, 0, m, m as real, 0.0);
      DrainedOffers(c, t);
      SoloPays(c, calls, m, m, Earned(c.rate, t), t);
    }
  }

  /** A client is served as if it were alone and never forgotten, whatever the others do,
      exactly when ten idle minutes refill its bucket. */
  lemma {:induction false} IsolationIffRefillsWhileIdle(c: Config)
    ensures IsolatesClients(c) <==> 600.0 * c.rate >= c.burst as real
  {
    if RefillsWhileIdle(c) {
      forall calls, i: nat | Ordered(calls) && i < |calls|
        ensures Admitted(c, calls, i) <==> SoloAdmitted(c, calls, i)
      {
        EvictionUnseen(c, calls, i);
      }
    } else {
      var t := JustPast(c.rate, IDLE, c.burst as real);
      BothBurstsGranted(c, t);
      SecondBurstIsFree(c, t);
      SoloRunsDry(c, t);
    }
  }

  // ----- Denied calls leave no trace -----

  /** The calls, or verdicts, at the marked positions. */
  ghost function Kept<T>(items: seq<T>, keep: seq<bool>): seq<T>
    requires |keep| == |items|
  {
    if |items| == 0 then [] else
      var n := |items| - 1;
      Kept(items[..n], keep[..n]) + if keep[n] then [items[n]] else []
  }

  lemma {:induction false} PrefixDecides(c: Config, calls: seq<Call>, more: seq<Call>, n: nat)
    requires n <= |calls|
    ensures After(c, calls + more, n) == After(c, calls, n)
    decreases n
  {
    if n > 0 {
      PrefixDecides(c, calls, more, n - 1);
    }
  }

  lemma {:induction false} VerdictsGrow(c: Config, calls: seq<Call>, call: Call)
    ensures Verdicts(c, calls + [call]) ==
      Verdicts(c, calls) + [Admits(c, After(c, calls, |calls|), call.key, call.at)]
  {
    forall i | 0 <= i <= |calls| ensures After(c, calls + [call], i) == After(c, calls, i) {
      PrefixDecides(c, calls, [call], i);
    }
    assert forall i :: 0 <= i < |calls| ==> (calls + [call])[i] == calls[i];
  }

  /** Two call histories that leave k the same level at every later instant. */
  ghost predicate SameLevels(c: Config, xs: seq<real>, ys: seq<real>, from: real) {
    forall now :: now >= from ==> SoloLevel(c, xs, now) == SoloLevel(c, ys, now)
  }

  /** Capped refills compose: settling a bucket early, without spending, changes nothing later. */
  lemma {:induction false} RefillsCompose(c: Config, b: Bucket, at: real, now: real)
    requires b.last <= at <= now
    ensures Refilled(c, Bucket(Refilled(c, b, at), at, at), now) == Refilled(c, b, now)
  {
    EarnedGrows(c.rate, 0.0, now - at);
    EarnedAdds(c.rate, at - b.last, now - at);
  }

  lemma {:induction false} SoloDated(c: Config, calls: seq<Call>, k: Key)
    requires Ordered(calls) && calls != []
    ensures var b := Solo(c, TimesOf(calls, k)); b.Some? ==> b.value.last <= calls[|calls| - 1].at
    decreases |calls|
  {
    var n := |calls| - 1;
    if calls[n].key == k {
      SoloGrows(c, TimesOf(calls[..n], k), calls[n].at);
    } else {
      assert TimesOf(calls, k) == TimesOf(calls[..n], k);
      if n > 0 {
        SoloDated(c, calls[..n], k);
      }
    }
  }

  /** A denied call of k leaves k's later levels as they were. */
  lemma {:induction false} DeniedLeavesLevels(c: Config, calls: seq<Call>, k: Key, at: real)
    requires Ordered(calls) && (calls != [] ==> calls[|calls| - 1].at <= at)
    requires SoloLevel(c, TimesOf(calls, k), at) < 1.0
    ensures SameLevels(c, TimesOf(calls, k) + [at], TimesOf(calls, k), at)
  {
    var times := TimesOf(calls, k);
    SoloGrows(c, times, at);
    assert calls != [];
    SoloDated(c, calls, k);
    forall now | now >= at ensures SoloLevel(c, times + [at], now) == SoloLevel(c, times, now) {
      RefillsCompose(c, Solo(c, times).value, at, now);
    }
  }

  /** The marked calls stay; every call that goes was denied. */
  ghost predicate DropsOnlyDenied(c: Config, calls: seq<Call>, keep: seq<bool>) {
    |keep| == |calls| && forall i :: 0 <= i < |calls| && !keep[i] ==> !Admitted(c, calls, i)
  }

  lemma {:induction false} VerdictIsSolo(c: Config, calls: seq<Call>, call: Call)
    requires Ordered(calls + [call]) && RefillsWhileIdle(c)
    ensures Admits(c, After(c, calls, |calls|), call.key, call.at) <==>
      SoloLevel(c, TimesOf(calls, call.key), call.at) >= 1.0
  {
    var longer := calls + [call];
    PrefixDecides(c, calls, [call], |calls|);
    EvictionUnseen(c, longer, |calls|);
    assert longer[..|calls|] == calls;
  }

  lemma {:induction false} DropsOnlyDeniedEarlier(c: Config, calls: seq<Call>, keep: seq<bool>)
    requires DropsOnlyDenied(c, calls, keep) && calls != [] && Ordered(calls)
    ensures var n := |calls| - 1; DropsOnlyDenied(c, calls[..n], keep[..n]) && Ordered(calls[..n])
  {
    var n := |calls| - 1;
    forall i | 0 <= i < n ensures Admitted(c, calls[..n], i) == Admitted(c, calls, i) {
      assert calls == calls[..n] + [calls[n]];
      PrefixDecides(c, calls[..n], [calls[n]], i);
    }
  }

  /** One more call, kept or denied and dropped, keeps the levels of both histories together. */
  lemma {:induction false} SameLevelsAfter(c: Config, rest: seq<Call>, call: Call, ys: seq<real>, kept: bool)
    requires Ordered(rest + [call]) && RefillsWhileIdle(c)
    requires SameLevels(c, TimesOf(rest, call.key), ys, call.at)
    requires !kept ==> !Admits(c, After(c, rest, |rest|), call.key, call.at)
    ensures SameLevels(c, TimesOf(rest, call.key) + [call.at], if kept then ys + [call.at] else ys, call.at)
  {
    SoloGrows(c, TimesOf(rest, call.key), call.at);
    SoloGrows(c, ys, call.at);
    if !kept {
      VerdictIsSolo(c, rest, call);
      OrderedBefore(rest, call);
      DeniedLeavesLevels(c, rest, call.key, call.at);
    }
  }

  lemma OrderedBefore(rest: seq<Call>, call: Call)
    requires Ordered(rest + [call])
    ensures Ordered(rest) && (rest != [] ==> rest[|rest| - 1].at <= call.at)
  {
    var whole := rest + [call];
    assert forall i :: 0 <= i < |rest| ==> rest[i] == whole[i];
    assert rest != [] ==> whole[|rest| - 1].at <= whole[|rest|].at;
  }

  lemma KeptOneMore<T>(rest: seq<T>, item: T, keepRest: seq<bool>, keeps: bool)
    requires |keepRest| == |rest|
    ensures Kept(rest + [item], keepRest + [keeps]) == Kept(rest, keepRest) + if keeps then [item] else []
  {
    assert (rest + [item])[..|rest|] == rest && (keepRest + [keeps])[..|rest|] == keepRest;
  }

  /** The last call of a run that drops only denied calls. */
  lemma {:induction false} DropsLastIfDenied(c: Config, rest: seq<Call>, call: Call, keepRest: seq<bool>, keeps: bool)
    requires |keepRest| == |rest| && DropsOnlyDenied(c, rest + [call], keepRest + [keeps])
    ensures !keeps ==> !Admits(c, After(c, rest, |rest|), call.key, call.at)
  {
    PrefixDecides(c, rest, [call], |rest|);
    assert (keepRest + [keeps])[|rest|] == keeps && (rest + [call])[|rest|] == call;
  }

  lemma {:induction false} KeptLevelsStep(c: Config, rest: seq<Call>, call: Call, keepRest: seq<bool>, keeps: bool,
      k: Key)
    requires Ordered(rest + [call]) && RefillsWhileIdle(c) && |keepRest| == |rest|
    requires DropsOnlyDenied(c, rest + [call], keepRest + [keeps])
    requires SameLevels(c, TimesOf(rest, k), TimesOf(Kept(rest, keepRest), k), call.at)
    ensures SameLevels(c, TimesOf(rest + [call], k), TimesOf(Kept(rest + [call], keepRest + [keeps]), k), call.at)
  {
    DropsLastIfDenied(c, rest, call, keepRest, keeps);
    KeptLevelsAfter(c, rest, call, Kept(rest, keepRest), keeps, k);
    KeptOneMore(rest, call, keepRest, keeps);
    assert Kept(rest, keepRest) + [] == Kept(rest, keepRest);
  }

  lemma SameLevelsLater(c: Config, xs: seq<real>, ys: seq<real>, from: real, later: real)
    requires SameLevels(c, xs, ys, from) && from <= later
    ensures SameLevels(c, xs, ys, later)
  {
  }

  lemma {:induction false} KeptLevels(c: Config, calls: seq<Call>, keep: seq<bool>, k: Key, from: real)
    requires Ordered(calls) && RefillsWhileIdle(c) && DropsOnlyDenied(c, calls, keep)
    requires calls != [] ==> calls[|calls| - 1].at <= from
    ensures SameLevels(c, TimesOf(calls, k), TimesOf(Kept(calls, keep), k), from)
    decreases |calls|
  {
    if calls != [] {
      var n := |calls| - 1;
      DropsOnlyDeniedEarlier(c, calls, keep);
      KeptLevels(c, calls[..n], keep[..n], k, calls[n].at);
      assert calls == calls[..n] + [calls[n]] && keep == keep[..n] + [keep[n]];
      KeptLevelsStep(c, calls[..n], calls[n], keep[..n], keep[n], k);
      SameLevelsLater(c, TimesOf(calls, k), TimesOf(Kept(calls, keep), k), calls[n].at, from);
    }
  }

  /** One more call of anyone, kept or denied and dropped. */
  lemma {:induction false} KeptLevelsAfter(c: Config, rest: seq<Call>, call: Call, kept: seq<Call>, keeps: bool, k: Key)
    requires Ordered(rest + [call]) && RefillsWhileIdle(c)
    requires SameLevels(c, TimesOf(rest, k), TimesOf(kept, k), call.at)
    requires !keeps ==> !Admits(c, After(c, rest, |rest|), call.key, call.at)
    ensures SameLevels(c, TimesOf(rest + [call], k), TimesOf(if keeps then kept + [call] else kept, k), call.at)
  {
    TimesOfOneMore(rest, call);
    TimesOfOneMore(kept, call);
    if call.key == k {
      SameLevelsAfter(c, rest, call, TimesOf(kept, k), keeps);
    }
  }

  lemma TimesOfOneMore(calls: seq<Call>, call: Call)
    ensures TimesOf(calls + [call], call.key) == TimesOf(calls, call.key) + [call.at]
    ensures forall k :: k != call.key ==> TimesOf(calls + [call], k) == TimesOf(calls, k)
  {
    assert (calls + [call])[..|calls|] == calls;
    assert forall k :: k != call.key ==> TimesOf(calls, k) + [] == TimesOf(calls, k);
  }

  lemma OrderedExtends(calls: seq<Call>, x: Call, y: Call)
    requires Ordered(calls + [x]) && x.at <= y.at
    ensures Ordered(calls + [y]) && Ordered(calls + [x] + [y])
  {
    var before, short, long := calls + [x], calls + [y], calls + [x] + [y];
    assert forall i :: 0 <= i <= |calls| ==> before[i].at <= before[|calls|].at;
    forall i, j | 0 <= i <= j < |short| ensures short[i].at <= short[j].at {
      assert before[i].at <= before[j].at;
    }
    forall i, j | 0 <= i <= j < |long| ensures long[i].at <= long[j].at {
      if j <= |calls| {
        assert before[i].at <= before[j].at;
      }
    }
  }

  lemma {:induction false} KeptOrdered(calls: seq<Call>, keep: seq<bool>, later: Call)
    requires |keep| == |calls| && Ordered(calls + [later])
    ensures Ordered(Kept(calls, keep) + [later])
    decreases |calls|
  {
    if calls != [] {
      var n, whole := |calls| - 1, calls + [later];
      var rest, last := calls[..n], calls[n];
      assert rest + [last] == calls;
      assert forall i :: 0 <= i <= n ==> calls[i] == whole[i];
      assert whole[n].at <= whole[n + 1].at;
      KeptOrdered(rest, keep[..n], last);
      OrderedExtends(Kept(rest, keep[..n]), last, later);
      assert Kept(rest, keep[..n]) + [] == Kept(rest, keep[..n]);
    }
  }

  lemma {:induction false} DropDenied(c: Config, calls: seq<Call>, keep: seq<bool>)
    requires Ordered(calls) && RefillsWhileIdle(c) && DropsOnlyDenied(c, calls, keep)
    ensures Verdicts(c, Kept(calls, keep)) == Kept(Verdicts(c, calls), keep)
    decreases |calls|
  {
    if calls != [] {
      var n := |calls| - 1;
      var rest, call := calls[..n], calls[n];
      var kept := Kept(rest, keep[..n]);
      assert calls == rest + [call];
      DropsOnlyDeniedEarlier(c, calls, keep);
      DropDenied(c, rest, keep[..n]);
      VerdictsGrow(c, rest, call);
      assert Verdicts(c, calls)[..n] == Verdicts(c, rest);
      if keep[n] {
        KeptOrdered(rest, keep[..n], call);
        KeptLevels(c, rest, keep[..n], call.key, call.at);
        VerdictsGrow(c, kept, call);
        VerdictIsSolo(c, rest, call);
        VerdictIsSolo(c, kept, call);
      } else {
        assert kept + [] == kept;
        assert Kept(Verdicts(c, rest), keep[..n]) + [] == Kept(Verdicts(c, rest), keep[..n]);
      }
    }
  }

  /** Removing denied calls from a run, however many, changes no other verdict. */
  ghost predicate DenialsAreInert(c: Config) {
    forall calls, keep :: Ordered(calls) && DropsOnlyDenied(c, calls, keep) ==>
      Verdicts(c, Kept(calls, keep)) == Kept(Verdicts(c, calls), keep)
  }

  /** A drained client that knocks once at instant d and bursts again ten idle minutes later. */
  ghost function Pestered(m: nat, d: real): (calls: seq<Call>)
    ensures |calls| == 2 * m + 1
  {
    seq(2 * m + 1, i requires 0 <= i < 2 * m + 1 =>
      Call("client", if i < m then 0.0 else if i == m then d else IDLE + d))
  }

  /** Too short a delay to earn a token, and too short to make ten minutes refill the burst. */
  lemma ShortDelay(c: Config) returns (d: real)
    requires !RefillsWhileIdle(c)
    ensures 0.0 < d <= IDLE && Earned(c.rate, d) < 1.0 && Earned(c.rate, IDLE + d) < c.burst as real
  {
    var gap := c.burst as real - Earned(c.rate, IDLE);
    var g := (if gap < 1.0 then gap else 1.0) / 2.0;
    d := if g / c.rate > IDLE then IDLE else g / c.rate;
    assert Earned(c.rate, g / c.rate) == g;
    EarnedGrows(c.rate, d, g / c.rate);
    EarnedAdds(c.rate, IDLE, d);
    assert g / c.rate > 0.0;
  }

  /** A call that the client's bucket, still remembered, has to pay for. */
  lemma LonePays(c: Config, tokens: real, last: real, swept: real, now: real)
    requires swept <= last <= now && now - last <= IDLE
    requires 0.0 <= tokens && tokens + Earned(c.rate, now - last) <= c.burst as real
    ensures var have := tokens + Earned(c.rate, now - last);
      && (Admits(c, Lone(tokens, last, swept), "client", now) <==> have >= 1.0)
      && Allowed(c, Lone(tokens, last, swept), "client", now)
        == Lone(Spent(have), now, if now - swept > IDLE then now else swept)
  {
    assert Swept(Lone(tokens, last, swept), now).clients == Lone(tokens, last, swept).clients;
  }

  /** The knock is denied and keeps the drained bucket from being forgotten. */
  lemma {:induction false} KnockKeepsBucket(c: Config, d: real)
    requires 0.0 < d <= IDLE && Earned(c.rate, d) < 1.0
    ensures !Admitted(c, Pestered(c.burst, d), c.burst)
    ensures After(c, Pestered(c.burst, d), c.burst + 1) == Lone(Earned(c.rate, d), d, 0.0)
  {
    FirstBurstDrains(c, Pestered(c.burst, d));
    LonePays(c, 0.0, 0.0, 0.0, d);
  }

  /** The kept bucket after n calls at the moment the idle time is over. */
  ghost predicate Paid(c: Config, d: real, n: nat) {
    && Earned(c.rate, IDLE + d) - n as real >= 0.0
    && c.burst + 1 + n <= |Pestered(c.burst, d)|
    && After(c, Pestered(c.burst, d), c.burst + 1 + n)
       == Lone(Earned(c.rate, IDLE + d) - n as real, IDLE + d, IDLE + d)
  }

  lemma {:induction false} PaysOnceMore(c: Config, d: real, n: nat)
    requires 0.0 < d <= IDLE && n + 1 <= c.burst && Paid(c, d, n)
    requires Earned(c.rate, IDLE + d) < c.burst as real && Admitted(c, Pestered(c.burst, d), c.burst + n + 1)
    ensures Paid(c, d, n + 1)
  {
    var t := IDLE + d;
    EarnedAtOnce(c.rate);
    LonePays(c, Earned(c.rate, t) - n as real, t, t, t);
  }

  lemma {:induction false} PesteredRunsDry(c: Config, d: real, n: nat)
    requires 0.0 < d <= IDLE && Earned(c.rate, d) < 1.0 && Earned(c.rate, IDLE + d) < c.burst as real
    requires 0 < n <= c.burst
    requires forall i :: c.burst < i <= c.burst + n ==> Admitted(c, Pestered(c.burst, d), i)
    ensures Paid(c, d, n)
    decreases n
  {
    if n > 1 {
      PesteredRunsDry(c, d, n - 1);
      PaysOnceMore(c, d, n - 1);
    } else {
      FirstAfterKnock(c, d);
    }
  }

  /** The first call after the knock finds the kept bucket and pays from it. */
  lemma {:induction false} FirstAfterKnock(c: Config, d: real)
    requires 0.0 < d <= IDLE && Earned(c.rate, d) < 1.0 && Earned(c.rate, IDLE + d) < c.burst as real
    requires Admitted(c, Pestered(c.burst, d), c.burst + 1)
    ensures Earned(c.rate, IDLE + d) - 1.0 >= 0.0
    ensures After(c, Pestered(c.burst, d), c.burst + 2) == Lone(Earned(c.rate, IDLE + d) - 1.0, IDLE + d, IDLE + d)
  {
    KnockKeepsBucket(c, d);
    EarnedAdds(c.rate, IDLE, d);
    EarnedGrows(c.rate, 0.0, d);
    LonePays(c, Earned(c.rate, d), d, 0.0, IDLE + d);
  }

  /** Every mark but the one at position m. */
  ghost function AllBut(len: nat, m: nat): (keep: seq<bool>)
    ensures |keep| == len
  {
    seq(len, i => i != m)
  }

  lemma {:induction false} KeptAllBut<T>(items: seq<T>, m: nat)
    requires m <= |items|
    ensures Kept(items, AllBut(|items|, m)) == if m < |items| then items[..m] + items[m + 1..] else items
    decreases |items|
  {
    if |items| > 0 {
      var n := |items| - 1;
      assert AllBut(|items|, m)[..n] == AllBut(n, m);
      if m <= n {
        KeptAllBut(items[..n], m);
      } else {
        assert AllBut(|items|, m)[..n] == AllBut(n, n);
        KeptAllBut(items[..n], n);
      }
    }
  }

  lemma {:induction false} WithoutTheKnock(c: Config, d: real)
    requires 0.0 < d
    ensures Kept(Pestered(c.burst, d), AllBut(2 * c.burst + 1, c.burst)) == TwoBursts(c.burst, IDLE + d)
  {
    KeptAllBut(Pestered(c.burst, d), c.burst);
    KnockTakenOut(c.burst, d);
  }

  lemma KnockTakenOut(m: nat, d: real)
    ensures Pestered(m, d)[..m] + Pestered(m, d)[m + 1..] == TwoBursts(m, IDLE + d)
  {
  }

  lemma PastTheGap<T>(items: seq<T>, m: nat, i: nat)
    requires m < i < |items|
    ensures (items[..m] + items[m + 1..])[i - 1] == items[i]
  {
  }

  lemma {:induction false} KeptPastTheGap<T>(items: seq<T>, m: nat, i: nat)
    requires m < i < |items|
    ensures |Kept(items, AllBut(|items|, m))| == |items| - 1 && Kept(items, AllBut(|items|, m))[i - 1] == items[i]
  {
    KeptAllBut(items, m);
    PastTheGap(items, m, i);
  }

  /** If the knock left no trace, the second burst would be granted in full. */
  lemma {:induction false} InertKnockIsFree(c: Config, d: real, i: nat)
    requires 0.0 < d && c.burst < i <= c.burst + c.burst
    requires Verdicts(c, TwoBursts(c.burst, IDLE + d))
      == Kept(Verdicts(c, Pestered(c.burst, d)), AllBut(2 * c.burst + 1, c.burst))
    ensures Admitted(c, Pestered(c.burst, d), i)
  {
    SecondBurstIsFree(c, IDLE + d);
    KeptPastTheGap(Verdicts(c, Pestered(c.burst, d)), c.burst, i);
    assert Verdicts(c, TwoBursts(c.burst, IDLE + d))[i - 1];
  }

  lemma {:induction false} KnockMatters(c: Config)
    requires !RefillsWhileIdle(c)
    ensures !DenialsAreInert(c)
  {
    var d := ShortDelay(c);
    var calls, keep := Pestered(c.burst, d), AllBut(2 * c.burst + 1, c.burst);
    KnockKeepsBucket(c, d);
    assert Ordered(calls) && DropsOnlyDenied(c, calls, keep);
    WithoutTheKnock(c, d);
    if DenialsAreInert(c) {
      forall i | c.burst < i <= c.burst + c.burst ensures Admitted(c, calls, i) {
        InertKnockIsFree(c, d, i);
      }
      PesteredRunsDry(c, d, c.burst);
    }
  }

  /** Denied calls can be taken out of any run unnoticed exactly when ten idle minutes refill a
      bucket; otherwise a denied call can keep alive a bucket that was better forgotten. */
  lemma {:induction false} InertIffRefillsWhileIdle(c: Config)
    ensures DenialsAreInert(c) <==> 600.0 * c.rate >= c.burst as real
  {
    if RefillsWhileIdle(c) {
      forall calls, keep | Ordered(calls) && DropsOnlyDenied(c, calls, keep)
        ensures Verdicts(c, Kept(calls, keep)) == Kept(Verdicts(c, calls), keep)
      {
        DropDenied(c, calls, keep);
      }
    } else {
      KnockMatters(c);
    }
  }
}
