/** The lazily refilled token bucket, decided against the all-windows envelope it stands
    for: in no window may more be granted than the capacity plus the refill over the
    window. Tokens and times are reals. */
module RateLimit {
  datatype Rate = PerSecond(tokens: real) | Infinite

  datatype Config = Config(capacity: real, rate: Rate) {
    /** A limiter with an infinite or non-positive rate is misconfigured. */
    predicate Refills() {
      rate.PerSecond? && rate.tokens > 0.0
    }

    /** The most a window of the given length may grant. */
    ghost function Envelope(length: real): real
      requires Refills()
    {
      capacity + rate.tokens * length
    }
  }

  datatype Grant = Grant(at: real, amount: real)

  function Min(a: real, b: real): real { if a <= b then a else b }

  function Max(a: real, b: real): real { if a >= b then a else b }

  // ---- The specification: all windows ----

  /** Tokens granted at or after instant `s`. */
  ghost function GrantedSince(grants: seq<Grant>, s: real): real {
    if grants == [] then 0.0
    else
      var g := grants[|grants| - 1];
      GrantedSince(grants[..|grants| - 1], s) + (if g.at >= s then g.amount else 0.0)
  }

  /** Tokens granted in the closed window from `s` to `t`. */
  ghost function GrantedIn(grants: seq<Grant>, s: real, t: real): real {
    if grants == [] then 0.0
    else
      var g := grants[|grants| - 1];
      GrantedIn(grants[..|grants| - 1], s, t) + (if s <= g.at <= t then g.amount else 0.0)
  }

  /** Granting `n` more at `at` breaks no window that ends there. */
  ghost predicate Permitted(c: Config, grants: seq<Grant>, at: real, n: real)
    requires c.Refills()
  {
    forall s :: s <= at ==> Fits(c, grants, s, at, n)
  }

  /** The window from `s` to `at` has room for `n` more. */
  ghost predicate Fits(c: Config, grants: seq<Grant>, s: real, at: real, n: real)
    requires c.Refills()
  {
    GrantedSince(grants, s) + n <= c.Envelope(at - s)
  }

  ghost predicate UpTo(grants: seq<Grant>, t: real) {
    forall g :: g in grants ==> g.at <= t
  }

  /** A history in which every grant was permitted when it was made, in time order. */
  ghost predicate Admitted(c: Config, grants: seq<Grant>)
    requires c.Refills()
  {
    grants == [] ||
    var before, g := grants[..|grants| - 1], grants[|grants| - 1];
    Admitted(c, before) && UpTo(before, g.at) && g.amount > 0.0 && Permitted(c, before, g.at, g.amount)
  }

  lemma {:induction false} WindowUpToNow(grants: seq<Grant>, s: real, t: real)
    requires UpTo(grants, t)
    ensures GrantedIn(grants, s, t) == GrantedSince(grants, s)
  {
    if grants != [] {
      assert grants[|grants| - 1] in grants;
      WindowUpToNow(grants[..|grants| - 1], s, t);
    }
  }

  /** No window of an admitted history exceeds its envelope. */
  lemma {:induction false} AdmittedStaysInEnvelope(c: Config, grants: seq<Grant>, s: real, t: real)
    requires c.Refills() && Admitted(c, grants) && s <= t
    ensures GrantedIn(grants, s, t) <= Max(0.0, c.Envelope(t - s))
  {
    if grants != [] {
      var before, g := grants[..|grants| - 1], grants[|grants| - 1];
      if s <= g.at <= t {
        TimesUpTo(before, g.at, t);
        WindowUpToNow(before, s, t);
        assert Fits(c, before, s, g.at, g.amount);
        assert GrantedIn(grants, s, t) == GrantedSince(before, s) + g.amount <= c.Envelope(g.at - s);
        EnvelopeGrows(c, g.at - s, t - s);
      } else {
        assert GrantedIn(grants, s, t) == GrantedIn(before, s, t);
        AdmittedStaysInEnvelope(c, before, s, t);
      }
    }
  }

  lemma EnvelopeGrows(c: Config, a: real, b: real)
    requires c.Refills() && a <= b
    ensures c.Envelope(a) <= c.Envelope(b)
  {
    Scale(c.rate.tokens, a, b);
  }

  lemma TimesUpTo(grants: seq<Grant>, t: real, u: real)
    requires UpTo(grants, t) && t <= u
    ensures UpTo(grants, u)
  {
  }

  lemma Scale(r: real, a: real, b: real)
    requires r > 0.0 && a <= b
    ensures r * a <= r * b
    ensures r * b - r * a == r * (b - a)
  {
  }

  // ---- The O(1) state ----

  /** `tokens` at instant `last` is exactly the slack of the tightest window ending there:
      no window has less, and the window opened when the bucket was last full has no more. */
  ghost predicate Exact(c: Config, grants: seq<Grant>, tokens: real, last: real)
    requires c.Refills()
  {
    && UpTo(grants, last)
    && (forall s :: s <= last ==> Fits(c, grants, s, last, tokens))
    && exists full :: FullAt(c, grants, tokens, last, full)
  }

  ghost predicate FullAt(c: Config, grants: seq<Grant>, tokens: real, last: real, full: real)
    requires c.Refills()
  {
    full <= last && GrantedSince(grants, full) + tokens == c.Envelope(last - full)
  }

  /** Comparing one number decides what all windows decide. */
  lemma ExactDecides(c: Config, grants: seq<Grant>, tokens: real, last: real, n: real)
    requires c.Refills() && Exact(c, grants, tokens, last)
    ensures Permitted(c, grants, last, n) <==> tokens >= n
  {
    var full :| FullAt(c, grants, tokens, last, full);
    if tokens >= n {
      forall s | s <= last
        ensures Fits(c, grants, s, last, n)
      {
        assert Fits(c, grants, s, last, tokens);
      }
    } else {
      assert !Fits(c, grants, full, last, n);
    }
  }

  lemma {:induction false} NothingAfter(grants: seq<Grant>, t: real, s: real)
    requires UpTo(grants, t) && t < s
    ensures GrantedSince(grants, s) == 0.0
  {
    if grants != [] {
      assert grants[|grants| - 1] in grants;
      NothingAfter(grants[..|grants| - 1], t, s);
    }
  }

  ghost function Refilled(c: Config, tokens: real, elapsed: real): real
    requires c.Refills()
  {
    Min(c.capacity, tokens + elapsed * c.rate.tokens)
  }

  /** No window ending later has less slack than the refilled level. */
  lemma RefillFits(c: Config, grants: seq<Grant>, tokens: real, last: real, now: real, s: real)
    requires c.Refills() && Exact(c, grants, tokens, last) && last < now && s <= now
    ensures Fits(c, grants, s, now, Refilled(c, tokens, now - last))
  {
    var level := Refilled(c, tokens, now - last);
    if s <= last {
      assert Fits(c, grants, s, last, tokens);
      EnvelopeShift(c, last - s, now - last);
      assert (last - s) + (now - last) == now - s;
      assert level <= tokens + (now - last) * c.rate.tokens;
    } else {
      NothingAfter(grants, last, s);
      EnvelopeGrows(c, 0.0, now - s);
      assert level <= c.capacity == c.Envelope(0.0);
    }
  }

  lemma EnvelopeShift(c: Config, a: real, b: real)
    requires c.Refills()
    ensures c.Envelope(a + b) == c.Envelope(a) + b * c.rate.tokens
  {
    assert c.rate.tokens * (a + b) == c.rate.tokens * a + c.rate.tokens * b;
  }

  /** Below the capacity the window of the last full bucket stays tight. */
  lemma RefillFull(c: Config, grants: seq<Grant>, tokens: real, last: real, now: real, full: real)
    requires c.Refills() && last < now && FullAt(c, grants, tokens, last, full)
    requires Refilled(c, tokens, now - last) != c.capacity
    ensures FullAt(c, grants, Refilled(c, tokens, now - last), now, full)
  {
    EnvelopeShift(c, last - full, now - last);
    assert (last - full) + (now - last) == now - full;
  }

  /** Lazy refill, clamped to the capacity, keeps the state exact at any later instant. */
  lemma RefillKeepsExact(c: Config, grants: seq<Grant>, tokens: real, last: real, now: real)
    requires c.Refills() && Exact(c, grants, tokens, last) && last < now
    ensures Exact(c, grants, Refilled(c, tokens, now - last), now)
  {
    var level := Refilled(c, tokens, now - last);
    forall s | s <= now
      ensures Fits(c, grants, s, now, level)
    {
      RefillFits(c, grants, tokens, last, now, s);
    }
    if level == c.capacity {
      NothingAfter(grants, last, now);
      assert FullAt(c, grants, level, now, now);
    } else {
      var full :| FullAt(c, grants, tokens, last, full);
      RefillFull(c, grants, tokens, last, now, full);
    }
  }

  lemma GrantKeepsExact(c: Config, grants: seq<Grant>, tokens: real, last: real, n: real)
    requires c.Refills() && Exact(c, grants, tokens, last)
    ensures Exact(c, grants + [Grant(last, n)], tokens - n, last)
  {
    var more, left := grants + [Grant(last, n)], tokens - n;
    assert more[..|more| - 1] == grants;
    forall s | s <= last
      ensures Fits(c, more, s, last, left)
    {
      assert Fits(c, grants, s, last, tokens);
    }
    var full :| FullAt(c, grants, tokens, last, full);
    assert FullAt(c, more, left, last, full);
  }

  /** How long a denied caller must wait: with no grant in between, a request that fits the
      capacity is permitted from exactly that delay on, one that exceeds it never is. */
  lemma RetryIsExact(c: Config, grants: seq<Grant>, tokens: real, last: real, n: real, delay: real)
    requires c.Refills() && Exact(c, grants, tokens, last) && tokens < n && delay >= 0.0
    ensures Permitted(c, grants, last + delay, n) <==> n <= c.capacity && delay >= (n - tokens) / c.rate.tokens
  {
    var wait := (n - tokens) / c.rate.tokens;
    if delay == 0.0 {
      ExactDecides(c, grants, tokens, last, n);
      Positive(n - tokens, c.rate.tokens);
    } else {
      RefillKeepsExact(c, grants, tokens, last, last + delay);
      ExactDecides(c, grants, Refilled(c, tokens, delay), last + delay, n);
      DelayMeets(delay, n - tokens, c.rate.tokens);
    }
  }

  /** `retryAfter` tells exactly from which delay on a repeated request is permitted. */
  ghost predicate RetryTells(c: Config, grants: seq<Grant>, last: real, n: real, retryAfter: real, delay: real)
    requires c.Refills()
  {
    delay >= 0.0 ==> (Permitted(c, grants, last + delay, n) <==> n <= c.capacity && delay >= retryAfter)
  }

  lemma DeniedRetry(c: Config, grants: seq<Grant>, tokens: real, last: real, n: real, wait: real)
    requires c.Refills() && Exact(c, grants, tokens, last) && tokens < n && wait == (n - tokens) / c.rate.tokens
    ensures forall delay :: RetryTells(c, grants, last, n, wait, delay)
  {
    forall delay
      ensures RetryTells(c, grants, last, n, wait, delay)
    {
      if delay >= 0.0 {
        RetryIsExact(c, grants, tokens, last, n, delay);
      }
    }
  }

  lemma AdmittedExtends(c: Config, grants: seq<Grant>, at: real, n: real)
    requires c.Refills() && Admitted(c, grants) && UpTo(grants, at) && n > 0.0 && Permitted(c, grants, at, n)
    ensures Admitted(c, grants + [Grant(at, n)])
  {
    var more := grants + [Grant(at, n)];
    assert more[..|more| - 1] == grants;
  }

  lemma Positive(a: real, r: real)
    requires a > 0.0 && r > 0.0
    ensures a / r > 0.0
  {
  }

  lemma DelayMeets(delay: real, deficit: real, r: real)
    requires r > 0.0
    ensures delay >= deficit / r <==> delay * r >= deficit
  {
    var wait := deficit / r;
    assert wait * r == deficit;
    if delay >= wait {
      Scale(r, wait, delay);
    } else {
      Scale(r, delay, wait);
      assert r * (wait - delay) > 0.0;
    }
  }

  class TokenBucket {
    const config: Config
    var tokens: real
    var last: real
    ghost var grants: seq<Grant>

    ghost predicate Valid()
      reads this
    {
      config.Refills() ==> Exact(config, grants, tokens, last) && Admitted(config, grants)
    }

    constructor (config: Config, now: real)
      ensures Valid() && this.config == config && grants == [] && last == now && tokens == config.capacity
    {
      this.config := config;
      tokens, last := config.capacity, now;
      grants := [];
      new;
      if config.Refills() {
        forall s | s <= now
          ensures Fits(config, [], s, now, tokens)
        {
          Scale(config.rate.tokens, 0.0, now - s);
        }
        assert FullAt(config, [], tokens, now, now);
      }
    }

    /** Lazy refill: nothing happens unless the clock advanced. */
    method Refill(now: real)
      requires Valid() && config.Refills()
      modifies this`tokens, this`last
      ensures Valid() && last == Max(old(last), now)
      ensures tokens == if old(last) < now then Refilled(config, old(tokens), now - old(last)) else old(tokens)
    {
      var elapsed := now - last;
      if elapsed > 0.0 {
        var level := Min(config.capacity, tokens + elapsed * config.rate.tokens);
        assert level == Refilled(config, tokens, now - last);
        RefillKeepsExact(config, grants, tokens, last, now);
        tokens, last := level, now;
      }
    }

    /** Decides a request exactly as the all-windows specification would. A clock reading
        older than the last one counts as the last one. */
    method TryAcquire(n: real, now: real) returns (allowed: bool, retryAfter: real, remaining: real)
      requires Valid()
      modifies this
      ensures Valid()
      ensures n <= 0.0 ==>
        allowed && retryAfter == 0.0 && remaining == config.capacity
        && grants == old(grants) && tokens == old(tokens) && last == old(last)
      ensures config.Refills() <==> config.rate.PerSecond? && config.rate.tokens > 0.0
      ensures n > 0.0 && !config.Refills() ==>
        !allowed && retryAfter == 3600.0 && remaining == 0.0
        && grants == old(grants) && tokens == old(tokens) && last == old(last)
      ensures n > 0.0 && config.Refills() ==>
        && last == Max(old(last), now)
        && (allowed <==> Permitted(config, old(grants), last, n))
        && grants == (if allowed then old(grants) + [Grant(last, n)] else old(grants))
        && remaining == (if allowed then tokens else tokens - n)
        && (allowed <==> remaining >= 0.0)
        && (allowed ==> retryAfter == 0.0)
      ensures n > 0.0 && config.Refills() && !allowed ==>
        retryAfter == (n - tokens) / config.rate.tokens
        && forall delay :: RetryTells(config, grants, last, n, retryAfter, delay)
    {
      if n <= 0.0 {
        return true, 0.0, config.capacity;
      }
      if config.rate.Infinite? || config.rate.tokens <= 0.0 {
        return false, 3600.0, 0.0;
      }
      Refill(now);
      ExactDecides(config, grants, tokens, last, n);
      if tokens >= n {
        GrantKeepsExact(config, grants, tokens, last, n);
        AdmittedExtends(config, grants, last, n);
        grants := grants + [Grant(last, n)];
        tokens := tokens - n;
        return true, 0.0, tokens;
      }
      var deficit := n - tokens;
      retryAfter := deficit / config.rate.tokens;
      DeniedRetry(config, grants, tokens, last, n, retryAfter);
      return false, retryAfter, -deficit;
    }
  }

  datatype RateLimitDecision = RateLimitDecision(allowed: bool, retryAfter: real, remaining: real, tenant: string)

  class RateLimiter {
    const factory: string -> Config
    var buckets: map<string, TokenBucket>

    ghost function Repr(): set<object>
      reads this
    {
      {this} + set k | k in buckets :: buckets[k]
    }

    ghost predicate Valid()
      reads Repr()
    {
      && (forall k :: k in buckets ==> buckets[k].Valid() && buckets[k].config == factory(k))
      && (forall j, k :: j in buckets && k in buckets && j != k ==> buckets[j] != buckets[k])
    }

    /** The grants of one tenant so far. */
    ghost function History(key: string): seq<Grant>
      reads Repr()
    {
      if key in buckets then buckets[key].grants else []
    }

    constructor (factory: string -> Config)
      ensures Valid() && buckets == map[] && this.factory == factory
    {
      this.factory := factory;
      buckets := map[];
    }

    /** The first call for a key creates its bucket at `born`; later calls share it. */
    method BucketFor(key: string, born: real) returns (b: TokenBucket)
      requires Valid()
      modifies this
      ensures Valid() && key in buckets && buckets[key] == b
      ensures key in old(buckets) ==> buckets == old(buckets)
      ensures key !in old(buckets) ==>
        fresh(b) && b.grants == [] && b.last == born && buckets == old(buckets)[key := b]
    {
      if key in buckets {
        return buckets[key];
      }
      b := new TokenBucket(factory(key), born);
      buckets := buckets[key := b];
    }

    /** A tenant's request is decided by that tenant's history alone and changes no other's. */
    method Check(key: string, n: real, born: real, now: real) returns (d: RateLimitDecision)
      requires Valid()
      modifies Repr()
      ensures Valid() && d.tenant == key && d.remaining >= 0.0
      ensures buckets.Keys == old(buckets.Keys) + {key}
      ensures forall k :: k in old(buckets) ==> buckets[k] == old(buckets[k])
      ensures forall k :: k in old(buckets) && k != key ==> History(k) == old(History(k))
      ensures n <= 0.0 ==>
        d.allowed && d.retryAfter == 0.0 && d.remaining == Max(0.0, factory(key).capacity)
        && History(key) == old(History(key))
      ensures n > 0.0 && !factory(key).Refills() ==>
        !d.allowed && d.retryAfter == 3600.0 && d.remaining == 0.0 && History(key) == old(History(key))
      ensures n > 0.0 && factory(key).Refills() ==>
        && buckets[key].last == Max(if key in old(buckets) then old(buckets[key].last) else born, now)
        && (d.allowed <==> Permitted(factory(key), old(History(key)), buckets[key].last, n))
        && History(key) == old(History(key)) + (if d.allowed then [Grant(buckets[key].last, n)] else [])
        && d.remaining == (if d.allowed then buckets[key].tokens else 0.0)
        && (d.allowed ==> d.retryAfter == 0.0)
      ensures n > 0.0 && factory(key).Refills() && !d.allowed ==>
        d.retryAfter == (n - buckets[key].tokens) / factory(key).rate.tokens
        && forall delay :: RetryTells(factory(key), History(key), buckets[key].last, n, d.retryAfter, delay)
    {
      var bucket := BucketFor(key, born);
      assert bucket.config == factory(key) && bucket.grants == old(History(key));
      var allowed, retryAfter, remaining := bucket.TryAcquire(n, now);
      d := RateLimitDecision(allowed, retryAfter, Max(0.0, remaining), key);
    }
  }
}
