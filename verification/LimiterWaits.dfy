/** How long a denied client has to wait: which waits are enough in every run, and how the header
    Retry-After compares with the least of them. */
module RateLimitWaits {
  import opened RateLimit
  import opened RateLimitEviction
  import opened RateLimitRuns

  /** Call j, or an earlier call of its client since call i, is admitted. */
  ghost predicate ServedSince(c: Config, calls: seq<Call>, i: nat, j: nat)
    requires i < j < |calls|
  {
    Admitted(c, calls, j) || exists m :: i < m < j && calls[m].key == calls[j].key && Admitted(c, calls, m)
  }

  /** Call i is denied, and call j of the same client comes at least s seconds later. */
  ghost predicate Waited(c: Config, calls: seq<Call>, i: nat, j: nat, s: real) {
    && Ordered(calls) && i < j < |calls| && calls[i].key == calls[j].key
    && !Admitted(c, calls, i) && calls[j].at >= calls[i].at + s
  }

  /** In every run a client that waits s seconds after a denial is served, unless another of its calls
      was served meanwhile. */
  ghost predicate WaitServes(c: Config, s: real) {
    forall calls, i: nat, j: nat :: Waited(c, calls, i, j, s) ==> ServedSince(c, calls, i, j)
  }

  // ----- A wait that is too short -----

  /** The instant of a client's k-th knock. */
  ghost function KnockAt(step: real, k: nat): real {
    Earned(step, k as real)
  }

  /** A burst at instant 0, and then n + 1 knocks a step apart, the first of them at once. */
  ghost function Knocking(m: nat, step: real, n: nat): (calls: seq<Call>)
    ensures |calls| == m + n + 1
  {
    seq(m + n + 1, i requires 0 <= i < m + n + 1 => Call("client", if i < m then 0.0 else KnockAt(step, i - m)))
  }

  lemma KnocksAdvance(step: real, i: nat, j: nat)
    requires step >= 0.0 && i <= j
    ensures KnockAt(step, i) <= KnockAt(step, j)
    ensures j == i + 1 ==> KnockAt(step, j) == KnockAt(step, i) + step
    ensures KnockAt(step, 0) == 0.0
  {
    EarnedAdds(step, i as real, (j - i) as real);
  }

  lemma KnockingIsOrdered(m: nat, step: real, n: nat)
    requires step >= 0.0
    ensures Ordered(Knocking(m, step, n))
  {
    var calls := Knocking(m, step, n);
    forall i, j | 0 <= i <= j < |calls| ensures calls[i].at <= calls[j].at {
      if i >= m {
        KnocksAdvance(step, i - m, j - m);
      } else if j >= m {
        KnocksAdvance(step, 0, j - m);
      }
    }
  }

  /** A knock too early to find a token, within ten minutes of the last, is denied and leaves the
      bucket with what it has earned since instant 0. */
  lemma {:induction false} KnockIsDenied(c: Config, calls: seq<Call>, i: nat, last: real,
      was: real) returns (swept: real)
    requires i < |calls| && calls[i].key == "client" && After(c, calls, i) == Lone(Earned(c.rate, last), last, was)
    requires was <= last && 0.0 <= last <= calls[i].at <= last + IDLE && Earned(c.rate, calls[i].at) < 1.0
    ensures swept <= calls[i].at && !Admitted(c, calls, i)
    ensures After(c, calls, i + 1) == Lone(Earned(c.rate, calls[i].at), calls[i].at, swept)
  {
    var now := calls[i].at;
    EarnedGrows(c.rate, 0.0, last);
    EarnedAdds(c.rate, last, now - last);
    LonePays(c, Earned(c.rate, last), last, was, now);
    swept := if now - was > IDLE then now else was;
  }

  /** What such knocks leave: the one bucket, with what it has earned. */
  lemma {:induction false} KnocksLeave(c: Config, step: real, n: nat, k: nat) returns (swept: real)
    requires 0.0 <= step <= IDLE && k <= n && Earned(c.rate, KnockAt(step, n)) < 1.0
    ensures swept <= KnockAt(step, k) && !Admitted(c, Knocking(c.burst, step, n), c.burst + k)
    ensures After(c, Knocking(c.burst, step, n), c.burst + k + 1)
      == Lone(Earned(c.rate, KnockAt(step, k)), KnockAt(step, k), swept)
    decreases k
  {
    var calls := Knocking(c.burst, step, n);
    KnocksAdvance(step, k, n);
    EarnedGrows(c.rate, KnockAt(step, k), KnockAt(step, n));
    assert calls[c.burst + k] == Call("client", KnockAt(step, k));
    if k == 0 {
      KnocksAdvance(step, 0, 0);
      FirstBurstDrains(c, calls);
      EarnedAtOnce(c.rate);
      swept := KnockIsDenied(c, calls, c.burst, 0.0, 0.0);
    } else {
      var was := KnocksLeave(c, step, n, k - 1);
      KnocksAdvance(step, k - 1, k);
      KnocksAdvance(step, 0, k - 1);
      swept := KnockIsDenied(c, calls, c.burst + k, KnockAt(step, k - 1), was);
    }
  }

  lemma {:induction false} KnocksAreDenied(c: Config, step: real, n: nat)
    requires 0.0 <= step <= IDLE && Earned(c.rate, KnockAt(step, n)) < 1.0
    ensures forall i :: c.burst <= i <= c.burst + n ==> !Admitted(c, Knocking(c.burst, step, n), i)
  {
    forall i | c.burst <= i <= c.burst + n ensures !Admitted(c, Knocking(c.burst, step, n), i) {
      var swept := KnocksLeave(c, step, n, i - c.burst);
    }
  }

  /** Steps of at most ten minutes that make up a span. */
  lemma EvenSteps(span: real) returns (n: nat, step: real)
    requires span >= 0.0
    ensures n > 0 && 0.0 <= step <= IDLE && KnockAt(step, n) == span
  {
    n := (span / IDLE).Floor + 1;
    step := span / n as real;
    StepsAddUp(span, n, step);
  }

  lemma StepsAddUp(span: real, n: nat, step: real)
    requires span >= 0.0 && n > 0 && step == span / n as real && span <= IDLE * n as real
    ensures 0.0 <= step <= IDLE && n as real * step == span
  {
  }

  lemma {:induction false} ShortWaitFails(c: Config, s: real)
    requires Earned(c.rate, s) < 1.0
    ensures !WaitServes(c, s)
  {
    var span := if s < 0.0 then 0.0 else s;
    var n, step := EvenSteps(span);
    var calls, m := Knocking(c.burst, step, n), c.burst;
    EarnedAtOnce(c.rate);
    KnocksAreDenied(c, step, n);
    KnockingIsOrdered(m, step, n);
    KnocksAdvance(step, 0, n);
    assert calls[m].at == 0.0 && calls[m + n].at == span;
    assert Waited(c, calls, m, m + n, s) && !ServedSince(c, calls, m, m + n);
  }

  // ----- A wait that is long enough -----

  lemma {:induction false} LongWaitServes(c: Config, s: real, calls: seq<Call>, i: nat, j: nat)
    requires Earned(c.rate, s) >= 1.0 && Waited(c, calls, i, j, s)
    ensures ServedSince(c, calls, i, j)
  {
    EarnedGrows(c.rate, s, calls[j].at - calls[i].at);
    WaitIsLongEnough(c, calls, i, j);
  }

  lemma {:induction false} WaitServesIfEarned(c: Config, s: real)
    ensures WaitServes(c, s) <==> Earned(c.rate, s) >= 1.0
  {
    if Earned(c.rate, s) < 1.0 {
      ShortWaitFails(c, s);
    } else {
      forall calls, i: nat, j: nat | Waited(c, calls, i, j, s) ensures ServedSince(c, calls, i, j) {
        LongWaitServes(c, s, calls, i, j);
      }
    }
  }

  /** A wait is enough in every run exactly when it earns a token. */
  lemma {:induction false} WaitServesIff(c: Config, s: real)
    ensures WaitServes(c, s) <==> c.rate * s >= 1.0
  {
    WaitServesIfEarned(c, s);
    assert Earned(c.rate, s) == c.rate * s;
  }

  /** Whole seconds that earn a token. */
  lemma {:induction false} WholeWaits(rate: real, s: int)
    requires rate > 0.0
    ensures Earned(rate, s as real) >= 1.0 <==> s as real >= 1.0 / rate
  {
    OneTokenIn(rate);
    EarnedGrows(rate, 1.0 / rate, s as real);
    EarnedGrows(rate, s as real, 1.0 / rate);
  }

  /** Retry-After is enough in every run. One second less is still enough exactly when 1 / rate is a
      whole number, and anything less than that never is. */
  lemma {:induction false} RetryAfterIsExactUnlessWhole(c: Config, s: int)
    ensures s >= RetryAfter(c.rate) ==> WaitServes(c, s as real)
    ensures s == RetryAfter(c.rate) - 1 ==>
      (WaitServes(c, s as real) <==> (1.0 / c.rate).Floor as real == 1.0 / c.rate)
    ensures s < RetryAfter(c.rate) - 1 ==> !WaitServes(c, s as real)
  {
    WaitServesIfEarned(c, s as real);
    WholeWaits(c.rate, s);
  }
}
