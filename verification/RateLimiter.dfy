/** The per-client token bucket (internal/api/middleware.go). The clock is read before the lock is
    taken, so times can reach a bucket out of order. Time and tokens are real numbers. */
module RateLimiting {
  import opened SetSizes

  datatype Bucket = Bucket(tokens: real, last: real)

  datatype Limiter = Limiter(rps: real, burst: real, buckets: map<string, Bucket>)

  const MAX_BUCKETS := 50000
  const IDLE_SECONDS := 300.0

  function Created(rps: real, burst: int): Limiter {
    Limiter(if rps <= 0.0 then 5.0 else rps, if burst <= 0 then 30.0 else burst as real, map[])
  }

  /** What a bucket earns from one moment to another. */
  function Earned(rps: real, from: real, till: real): real {
    (till - from) * rps
  }

  function RefilledTo(rps: real, burst: real, b: Bucket, now: real): real {
    var tokens := b.tokens + Earned(rps, b.last, now);
    if tokens > burst then burst else tokens
  }

  function Refilled(l: Limiter, b: Bucket, now: real): real {
    RefilledTo(l.rps, l.burst, b, now)
  }

  function Allowed(l: Limiter, key: string, now: real): (Limiter, bool) {
    if key !in l.buckets then
      if |l.buckets| > MAX_BUCKETS then (l, true)
      else (l.(buckets := l.buckets[key := Bucket(l.burst - 1.0, now)]), true)
    else
      var tokens := Refilled(l, l.buckets[key], now);
      if tokens < 1.0 then (l.(buckets := l.buckets[key := Bucket(tokens, now)]), false)
      else (l.(buckets := l.buckets[key := Bucket(tokens - 1.0, now)]), true)
  }

  function Cleaned(l: Limiter, now: real): Limiter {
    l.(buckets := map k | k in l.buckets && l.buckets[k].last >= now - IDLE_SECONDS :: l.buckets[k])
  }

  /** What reaches the lock, in that order. */
  datatype Event = Call(key: string, now: real) | Clean(now: real)

  function Next(l: Limiter, e: Event): Limiter {
    match e
    case Call(key, now) => Allowed(l, key, now).0
    case Clean(now) => Cleaned(l, now)
  }

  function After(l: Limiter, es: seq<Event>): Limiter {
    if es == [] then l else Next(After(l, es[..|es| - 1]), es[|es| - 1])
  }

  /** The answers to the calls, in order. */
  function Answers(l: Limiter, es: seq<Event>): seq<bool> {
    if es == [] then []
    else
      var init, e := es[..|es| - 1], es[|es| - 1];
      Answers(l, init) + if e.Call? then [Allowed(After(l, init), e.key, e.now).1] else []
  }

  predicate Admits(l: Limiter, e: Event, key: string) {
    e.Call? && e.key == key && Allowed(l, key, e.now).1
  }

  /** How many requests of `key` were let through. */
  function Admitted(l: Limiter, es: seq<Event>, key: string): nat {
    if es == [] then 0
    else
      var init, e := es[..|es| - 1], es[|es| - 1];
      Admitted(l, init, key) + if Admits(After(l, init), e, key) then 1 else 0
  }

  /** The key's bucket is there at every point, from the first event on. */
  ghost predicate Kept(l: Limiter, es: seq<Event>, key: string) {
    forall n | 1 <= n <= |es| :: key in After(l, es[..n]).buckets
  }

  // ------------------------------------------------------------ the admission bound

  lemma {:induction false} Unchanged(l: Limiter, es: seq<Event>)
    ensures After(l, es).rps == l.rps && After(l, es).burst == l.burst
  {
    if es != [] { Unchanged(l, es[..|es| - 1]); }
  }

  lemma KeptPrefix(l: Limiter, es: seq<Event>, key: string)
    requires Kept(l, es, key) && |es| > 1
    ensures Kept(l, es[..|es| - 1], key) && key in After(l, es[..|es| - 1]).buckets
    ensures key in After(l, es).buckets
  {
    var init := es[..|es| - 1];
    forall n | 1 <= n <= |init| ensures key in After(l, init[..n]).buckets {
      assert init[..n] == es[..n];
    }
    assert es[..|es|] == es && init[..|init|] == init;
  }

  /** One call spends what it is let through for, whichever way the clock ran. */
  lemma CallSpends(l: Limiter, key: string, now: real)
    requires key in l.buckets
    ensures var (l', ok) := Allowed(l, key, now);
      var b, b' := l.buckets[key], l'.buckets[key];
      && b'.last == now
      && b'.tokens <= b.tokens + Earned(l.rps, b.last, now) - (if ok then 1.0 else 0.0)
      && (ok ==> b'.tokens >= 0.0)
  {}

  lemma Distributes(rps: real, a: real, b: real, c: real)
    ensures Earned(rps, a, b) + Earned(rps, b, c) == Earned(rps, a, c)
  {
    assert (b - a) * rps == b * rps - a * rps;
    assert (c - b) * rps == c * rps - b * rps;
    assert (c - a) * rps == c * rps - a * rps;
  }

  /** What is left of the bucket, `n` requests after time `from`. */
  predicate Accounts(l: Limiter, key: string, from: real, n: nat) {
    key in l.buckets && l.buckets[key].tokens <= l.burst + Earned(l.rps, from, l.buckets[key].last) - n as real
  }

  lemma FirstAccounts(l: Limiter, key: string, now: real)
    requires key in Allowed(l, key, now).0.buckets
    ensures Accounts(Allowed(l, key, now).0, key, now, if Allowed(l, key, now).1 then 1 else 0)
  {
    var l' := Allowed(l, key, now).0;
    assert l'.buckets[key].last == now;
    assert Earned(l.rps, now, now) == 0.0;
    hide Earned;
  }

  lemma NextAccounts(l: Limiter, e: Event, key: string, from: real, n: nat)
    requires Accounts(l, key, from, n) && key in Next(l, e).buckets
    ensures Accounts(Next(l, e), key, from, n + if Admits(l, e, key) then 1 else 0)
  {
    if e.Call? && e.key == key {
      CallSpends(l, key, e.now);
      Distributes(l.rps, from, l.buckets[key].last, e.now);
      hide Earned, Refilled, Allowed;
    }
  }

  /** From the first call on, the tokens left account for every request let through. */
  lemma {:induction false} TokensAccount(l: Limiter, es: seq<Event>, key: string)
    requires es != [] && es[0].Call? && es[0].key == key
    requires Kept(l, es, key)
    ensures Accounts(After(l, es), key, es[0].now, Admitted(l, es, key))
  {
    hide Accounts, Next, Allowed;
    var init, e := es[..|es| - 1], es[|es| - 1];
    assert es[..|es|] == es;
    if |es| == 1 {
      assert init == [];
      assert After(l, es) == Next(l, e) && Admitted(l, es, key) == if Admits(l, e, key) then 1 else 0;
      NextIs(l, e);
      FirstAccounts(l, key, e.now);
    } else {
      KeptPrefix(l, es, key);
      TokensAccount(l, init, key);
      NextAccounts(After(l, init), e, key, es[0].now, Admitted(l, init, key));
    }
  }

  lemma NextIs(l: Limiter, e: Event)
    requires e.Call?
    ensures Next(l, e) == Allowed(l, e.key, e.now).0
  {}

  /** From call i to an admitted call j at most burst + rps * (t_j - t_i) requests of the key are let
      through, as long as its bucket lives, even when the times are out of order. */
  lemma AdmissionBound(l: Limiter, es: seq<Event>, key: string)
    requires l.burst >= 1.0
    requires es != [] && es[0].Call? && es[0].key == key && Kept(l, es, key)
    requires Admits(After(l, es[..|es| - 1]), es[|es| - 1], key)
    ensures Admitted(l, es, key) as real <= l.burst + (es[|es| - 1].now - es[0].now) * l.rps
  {
    hide After, Admitted, Kept, Accounts, Allowed, Refilled;
    TokensAccount(l, es, key);
    Unchanged(l, es);
    Unchanged(l, es[..|es| - 1]);
    LastEvent(l, es);
    Concluded(After(l, es[..|es| - 1]), es[|es| - 1], key, es[0].now, Admitted(l, es, key));
  }

  lemma LastEvent(l: Limiter, es: seq<Event>)
    requires es != []
    ensures After(l, es) == Next(After(l, es[..|es| - 1]), es[|es| - 1])
  {}

  lemma Concluded(u: Limiter, e: Event, key: string, from: real, n: nat)
    requires u.burst >= 1.0 && Admits(u, e, key) && Accounts(Next(u, e), key, from, n)
    ensures n as real <= u.burst + Earned(u.rps, from, e.now)
  {
    hide Earned, Refilled;
    AdmittedHasTokens(u, key, e.now);
  }

  lemma AdmittedHasTokens(u: Limiter, key: string, now: real)
    requires Allowed(u, key, now).1 && key in Allowed(u, key, now).0.buckets && u.burst >= 1.0
    ensures var b := Allowed(u, key, now).0.buckets[key]; b.tokens >= 0.0 && b.last == now
  {
    var l := Allowed(u, key, now).0;
    if key in u.buckets {
      var tokens := Refilled(u, u.buckets[key], now);
      assert l == u.(buckets := u.buckets[key := Bucket(tokens - 1.0, now)]);
    } else {
      assert l == u.(buckets := u.buckets[key := Bucket(u.burst - 1.0, now)]);
    }
  }

  /** Every limiter made by the constructor has room for at least one request. */
  lemma BurstIsPositive(rps: real, burst: int)
    ensures Created(rps, burst).burst >= 1.0 && Created(rps, burst).rps > 0.0
    ensures Created(rps, burst).burst == if burst >= 1 then burst as real else 30.0
    ensures Created(rps, burst).rps == if rps > 0.0 then rps else 5.0
  {}

  // -------------------------------------------------------------- the map's size

  lemma {:induction false} MapIsBounded(rps: real, burst: int, es: seq<Event>)
    ensures |After(Created(rps, burst), es).buckets| <= 50001
  {
    if es != [] {
      var l := After(Created(rps, burst), es[..|es| - 1]);
      MapIsBounded(rps, burst, es[..|es| - 1]);
      var e := es[|es| - 1];
      match e
      case Call(key, now) =>
        var l' := Allowed(l, key, now).0;
        assert l'.buckets.Keys == l.buckets.Keys || l'.buckets.Keys == l.buckets.Keys + {key};
        assert |l'.buckets.Keys| <= |l.buckets.Keys| + (if key in l.buckets then 0 else 1);
      case Clean(now) =>
        assert Cleaned(l, now).buckets.Keys <= l.buckets.Keys;
        SubsetSize(Cleaned(l, now).buckets.Keys, l.buckets.Keys);
    }
  }

  // ------------------------------------------------------------------ the code

  class RateLimiter {
    const rps: real
    const burst: real
    var buckets: map<string, Bucket>

    ghost function State(): Limiter
      reads this
    {
      Limiter(rps, burst, buckets)
    }

    constructor (rps: real, burst: int)
      ensures State() == Created(rps, burst)
    {
      this.rps := if rps <= 0.0 then 5.0 else rps;
      this.burst := if burst <= 0 then 30.0 else burst as real;
      buckets := map[];
    }

    method Allow(key: string, now: real) returns (ok: bool)
      modifies this
      ensures (State(), ok) == Allowed(old(State()), key, now)
    {
      if key !in buckets {
        if |buckets| > MAX_BUCKETS {
          return true;
        }
        buckets := buckets[key := Bucket(burst - 1.0, now)];
        return true;
      }
      var b := buckets[key];
      ghost var refilled := Refilled(State(), b, now);
      b := b.(tokens := b.tokens + (now - b.last) * rps);
      assert b.tokens == buckets[key].tokens + Earned(rps, b.last, now);
      if b.tokens > burst {
        b := b.(tokens := burst);
      }
      b := b.(last := now);
      assert b == Bucket(refilled, now);
      buckets := buckets[key := b];
      if b.tokens < 1.0 {
        return false;
      }
      b := b.(tokens := b.tokens - 1.0);
      assert buckets[key := b] == old(buckets)[key := b];
      buckets := buckets[key := b];
      return true;
    }

    /** One round of cleanup. */
    method Cleanup(now: real)
      modifies this
      ensures State() == Cleaned(old(State()), now)
      ensures forall k <- old(buckets) :: k in buckets <==> now - old(buckets)[k].last <= 300.0
    {
      var cutoff := now - IDLE_SECONDS;
      var left := buckets.Keys;
      while left != {}
        invariant left <= buckets.Keys <= old(buckets).Keys
        invariant forall k <- buckets :: buckets[k] == old(buckets)[k]
        invariant forall k <- old(buckets) :: k !in left ==> (k in buckets <==> old(buckets)[k].last >= cutoff)
      {
        var k :| k in left;
        left := left - {k};
        if buckets[k].last < cutoff {
          buckets := buckets - {k};
        }
      }
    }
  }
}
