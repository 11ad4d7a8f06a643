/** The per-key token bucket of internal/httpapi/ratelimit.go: what one call does to the
    limiter's state, and the limiter itself as an object that updates its buckets in place.
    Instants are seconds (any real number), tokens are reals. */
module RateLimit {
  import opened Wrappers

  type Key = string

  datatype Settings = Settings(rate: real, burst: int)

  /** What newRateLimiter lets through: a positive rate and at least one token of burst. */
  type Config = c: Settings | c.rate > 0.0 && c.burst >= 1 witness Settings(1.0, 1)

  /** Ten minutes, in seconds: how long a client may stay silent before a sweep forgets it. */
  const IDLE := 600.0

  datatype Bucket = Bucket(tokens: real, last: real, lastSeen: real)

  /** lastSeen is the instant of the last sweep; None is the zero time, before every call. */
  datatype Limiter = Limiter(clients: map<Key, Bucket>, lastSeen: Option<real>)

  const FRESH := Limiter(map[], None)

  function Normalised(rate: real, burst: int): Config {
    Settings(if rate <= 0.0 then 1.0 else rate, if burst <= 0 then 1 else burst)
  }

  function Capped(c: Config, tokens: real): real {
    if tokens > c.burst as real then c.burst as real else tokens
  }

  /** The tokens a given rate yields in a span of so many seconds. */
  function Earned(rate: real, span: real): real {
    span * rate
  }

  function Refilled(c: Config, b: Bucket, now: real): real {
    Capped(c, b.tokens + Earned(c.rate, now - b.last))
  }

  predicate Stale(b: Bucket, now: real) {
    now - b.lastSeen > IDLE
  }

  predicate SweepDue(l: Limiter, now: real) {
    l.lastSeen.None? || now - l.lastSeen.value > IDLE
  }

  function Swept(l: Limiter, now: real): Limiter {
    if SweepDue(l, now)
    then Limiter(map k | k in l.clients && !Stale(l.clients[k], now) :: l.clients[k], Some(now))
    else l
  }

  /** The tokens key k finds: a client without a bucket starts with a full one. */
  function Level(c: Config, l: Limiter, k: Key, now: real): real {
    if k in l.clients then Refilled(c, l.clients[k], now) else c.burst as real
  }

  function Admits(c: Config, l: Limiter, k: Key, now: real): bool {
    Level(c, Swept(l, now), k, now) >= 1.0
  }

  function Spent(have: real): real {
    if have >= 1.0 then have - 1.0 else have
  }

  function Allowed(c: Config, l: Limiter, k: Key, now: real): Limiter {
    var s := Swept(l, now);
    Limiter(s.clients[k := Bucket(Spent(Level(c, s, k, now)), now, now)], s.lastSeen)
  }

  /** The whole seconds the middleware puts in Retry-After. */
  function RetryAfter(rate: real): int
    requires rate > 0.0
  {
    (1.0 / rate).Floor + 1
  }

  lemma UpdatedTwice<K, V>(m: map<K, V>, k: K, first: V, second: V)
    ensures m[k := first][k := second] == m[k := second]
  {
  }

  /** One client's bucket, shared by reference between the map and the call that updates it. */
  class ClientBucket {
    var tokens: real
    var last: real
    var lastSeen: real

    ghost function View(): Bucket
      reads this
    {
      Bucket(tokens, last, lastSeen)
    }

    /** lastSeen keeps whatever value it had: the call that creates a bucket sets it. */
    constructor (tokens: real, last: real)
      ensures this.tokens == tokens && this.last == last
    {
      this.tokens, this.last := tokens, last;
    }
  }

  class RateLimiter {
    const config: Config
    var clients: map<Key, ClientBucket>
    var lastSeen: Option<real>

    /** No two clients share a bucket. */
    ghost predicate Valid()
      reads this
    {
      forall j, k :: j in clients && k in clients && clients[j] == clients[k] ==> j == k
    }

    ghost function View(): Limiter
      reads this, clients.Values
    {
      Limiter(map k | k in clients :: clients[k].View(), lastSeen)
    }

    constructor (rate: real, burst: int)
      ensures Valid() && View() == FRESH
      ensures config == Settings(if rate > 0.0 then rate else 1.0, if burst > 0 then burst else 1)
    {
      config := Normalised(rate, burst);
      clients, lastSeen := map[], None;
    }

    /** The deletion loop: forgets every client silent for more than ten minutes. */
    method Evict(now: real)
      requires Valid()
      modifies this`clients
      ensures clients == map k | k in old(clients) && !(now - old(clients)[k].lastSeen > IDLE) :: old(clients)[k]
    {
      ghost var before := clients;
      var pending := clients.Keys;
      while pending != {}
        invariant pending <= clients.Keys <= before.Keys
        invariant forall k :: k in clients ==> clients[k] == before[k]
        invariant forall k :: k in before ==>
          (k in clients <==> k in pending || !(now - before[k].lastSeen > IDLE))
        decreases pending
      {
        var k :| k in pending;
        if now - clients[k].lastSeen > IDLE {
          clients := clients - {k};
        }
        pending := pending - {k};
      }
    }

    /** The opportunistic cleanup, at most once in ten minutes. */
    method Sweep(now: real)
      requires Valid()
      modifies this`clients, this`lastSeen
      ensures Valid() && View() == Swept(old(View()), now)
      ensures forall k :: k in clients ==> k in old(clients) && clients[k] == old(clients)[k]
    {
      if lastSeen.None? || now - lastSeen.value > IDLE {
        Evict(now);
        lastSeen := Some(now);
      }
    }

    /** The client's bucket, created full if there is none. */
    method Admit(key: Key, now: real) returns (b: ClientBucket)
      requires Valid()
      modifies this`clients
      ensures Valid() && clients == old(clients)[key := b] && (key in old(clients) || fresh(b))
      ensures key in old(clients) ==> b == old(clients)[key]
      ensures View().clients == old(View()).clients[key := b.View()]
      ensures Refilled(config, b.View(), now) == Level(config, old(View()), key, now)
    {
      if key !in clients {
        b := new ClientBucket(config.burst as real, now);
        assert Earned(config.rate, now - b.last) == 0.0;
        clients := clients[key := b];
      } else {
        b := clients[key];
      }
    }

    /** Refills a bucket for the time elapsed, then takes a token if there is one. */
    method Pay(b: ClientBucket, now: real) returns (ok: bool)
      modifies b
      ensures var have := Refilled(config, old(b.View()), now);
        ok == (have >= 1.0) && b.View() == Bucket(Spent(have), now, now)
    {
      var elapsed := now - b.last;
      b.tokens := b.tokens + Earned(config.rate, elapsed);
      if b.tokens > config.burst as real {
        b.tokens := config.burst as real;
      }
      b.last, b.lastSeen := now, now;
      ok := b.tokens >= 1.0;
      if ok {
        b.tokens := b.tokens - 1.0;
      }
    }

    /** Pays from the client's bucket; no other client's bucket changes. */
    method Take(key: Key, b: ClientBucket, now: real) returns (ok: bool)
      requires Valid() && key in clients && clients[key] == b
      modifies b
      ensures var have := Refilled(config, old(b.View()), now);
        ok == (have >= 1.0) && View().clients == old(View()).clients[key := Bucket(Spent(have), now, now)]
    {
      ok := Pay(b, now);
      assert forall k :: k in clients && k != key ==> clients[k].View() == old(clients[k].View());
    }

    /** Admit then Take, seen through the view. */
    method Consume(key: Key, now: real) returns (ok: bool)
      requires Valid()
      modifies this`clients, clients.Values
      ensures Valid() && clients.Keys == old(clients.Keys) + {key}
      ensures forall k :: k in clients ==> fresh(clients[k]) || (k in old(clients) && clients[k] == old(clients)[k])
      ensures ok == (Level(config, old(View()), key, now) >= 1.0)
      ensures View() == Limiter(
        old(View()).clients[key := Bucket(Spent(Level(config, old(View()), key, now)), now, now)],
        old(View()).lastSeen)
    {
      ghost var before := View();
      var b := Admit(key, now);
      ghost var given := b.View();
      ok := Take(key, b, now);
      UpdatedTwice(before.clients, key, given, Bucket(Spent(Level(config, before, key, now)), now, now));
    }

    /** Checks and consumes a token for the given key. */
    method Allow(key: Key, now: real) returns (ok: bool)
      requires Valid()
      modifies this`clients, this`lastSeen, clients.Values
      ensures Valid() && fresh(clients.Values - old(clients.Values))
      ensures ok == Admits(config, old(View()), key, now)
      ensures View() == Allowed(config, old(View()), key, now)
    {
      Sweep(now);
      ok := Consume(key, now);
    }
  }

  datatype Verdict = Served | TooManyRequests(retryAfter: int)

  /** One request through RateLimitMiddleware. A rate of zero or less leaves it out (None). */
  method Middleware(limiter: Option<RateLimiter>, rate: real, key: Key, now: real) returns (v: Verdict)
    requires limiter.None? <==> rate <= 0.0
    requires limiter.Some? ==> limiter.value.Valid() && limiter.value.config.rate == rate
    modifies if limiter.Some? then {limiter.value} else {},
             if limiter.Some? then limiter.value.clients.Values else {}
    ensures limiter.None? ==> v == Served
    ensures limiter.Some? ==>
      && limiter.value.Valid()
      && limiter.value.View() == Allowed(limiter.value.config, old(limiter.value.View()), key, now)
      && v == if Admits(limiter.value.config, old(limiter.value.View()), key, now)
              then Served else TooManyRequests(RetryAfter(rate))
  {
    if limiter.None? {
      return Served;
    }
    var ok := limiter.value.Allow(key, now);
    v := if ok then Served else TooManyRequests(RetryAfter(rate));
  }
}
