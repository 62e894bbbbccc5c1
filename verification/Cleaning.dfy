/** Can a caller tell whether the rate limiter's cleaner runs? Not when a bucket that idles five minutes is
    full again and the map has room for every key; otherwise there is always a run that tells. */
module Cleaning {
  import opened RateLimiting
  import opened SetSizes

  function WithoutCleaning(es: seq<Event>): seq<Event> {
    if es == [] then []
    else WithoutCleaning(es[..|es| - 1]) + if es[|es| - 1].Clean? then [] else [es[|es| - 1]]
  }

  ghost predicate Ordered(es: seq<Event>) {
    forall i, j | 0 <= i < j < |es| :: es[i].now <= es[j].now
  }

  /** `l` was cleaned, `u` was not, and it is `now`: buckets that only `u` still has have been idle
      longer than the cleaner allows. */
  ghost predicate Alike(l: Limiter, u: Limiter, now: real) {
    && l.rps == u.rps && l.burst == u.burst
    && l.buckets.Keys <= u.buckets.Keys
    && (forall k <- l.buckets :: l.buckets[k] == u.buckets[k])
    && (forall k <- u.buckets :: 0.0 <= u.buckets[k].tokens <= u.burst && u.buckets[k].last <= now)
    && (forall k <- u.buckets :: k !in l.buckets ==> u.buckets[k].last < now - IDLE_SECONDS)
  }

  lemma IdleIsFull(u: Limiter, b: Bucket, now: real)
    requires u.rps > 0.0 && u.burst <= IDLE_SECONDS * u.rps
    requires b.tokens >= 0.0 && b.last < now - IDLE_SECONDS
    ensures Refilled(u, b, now) == u.burst
  {
    var gap := now - b.last;
    Scaled(IDLE_SECONDS, gap, u.rps);
    assert Earned(u.rps, b.last, now) == gap * u.rps;
  }

  lemma Scaled(a: real, b: real, r: real)
    requires a <= b && r > 0.0
    ensures a * r <= b * r
  {
    assert (b - a) * r >= 0.0;
    assert (b - a) * r == b * r - a * r;
  }

  lemma RefillStaysPositive(u: Limiter, b: Bucket, now: real)
    requires u.rps > 0.0 && u.burst >= 1.0 && 0.0 <= b.tokens && b.last <= now
    ensures 0.0 <= Refilled(u, b, now) <= u.burst
  {
    var gap := now - b.last;
    Scaled(0.0, gap, u.rps);
    assert Earned(u.rps, b.last, now) == gap * u.rps;
  }

  lemma SameBucket(l: Limiter, u: Limiter, key: string, b: Bucket, now: real)
    requires Alike(l, u, now) && 0.0 <= b.tokens <= u.burst && b.last == now
    ensures Alike(l.(buckets := l.buckets[key := b]), u.(buckets := u.buckets[key := b]), now)
  {}

  /** The map can take this key, or has it. */
  predicate Room(u: Limiter, key: string) {
    |u.buckets| <= MAX_BUCKETS + 1 && (key in u.buckets || |u.buckets| <= MAX_BUCKETS)
  }

  lemma AlikeSize(l: Limiter, u: Limiter, key: string, now: real)
    requires Alike(l, u, now) && Room(u, key)
    ensures key in l.buckets || |l.buckets| <= MAX_BUCKETS
  {
    SubsetSize(l.buckets.Keys, u.buckets.Keys);
    if key in u.buckets && key !in l.buckets {
      SubsetSize(l.buckets.Keys, u.buckets.Keys - {key});
    }
  }

  /** The bucket a call leaves, when the map has room for it. */
  lemma CallLeaves(l: Limiter, key: string, now: real)
    requires key in l.buckets || |l.buckets| <= MAX_BUCKETS
    ensures var tokens := if key in l.buckets then Refilled(l, l.buckets[key], now) else l.burst;
      var left := if key in l.buckets && tokens < 1.0 then tokens else tokens - 1.0;
      && Allowed(l, key, now).1 == (key !in l.buckets || tokens >= 1.0)
      && Allowed(l, key, now).0 == l.(buckets := l.buckets[key := Bucket(left, now)])
  {}

  lemma CallAlike(l: Limiter, u: Limiter, key: string, now: real)
    requires Alike(l, u, now) && u.rps > 0.0 && u.burst >= 1.0 && u.burst <= IDLE_SECONDS * u.rps
    requires Room(u, key)
    ensures Allowed(l, key, now).1 == Allowed(u, key, now).1
    ensures Alike(Allowed(l, key, now).0, Allowed(u, key, now).0, now)
  {
    AlikeSize(l, u, key, now);
    CallLeaves(l, key, now);
    CallLeaves(u, key, now);
    if key in u.buckets {
      RefillStaysPositive(u, u.buckets[key], now);
      if key !in l.buckets {
        IdleIsFull(u, u.buckets[key], now);
      }
    }
    var tokens := if key in u.buckets then Refilled(u, u.buckets[key], now) else u.burst;
    SameRefill(l, u, key, now);
    SameBucket(l, u, key, Bucket(if tokens < 1.0 then tokens else tokens - 1.0, now), now);
    hide Alike, Refilled, Allowed;
  }

  lemma SameRefill(l: Limiter, u: Limiter, key: string, now: real)
    requires Alike(l, u, now)
    ensures l.rps == u.rps && l.burst == u.burst
    ensures key in l.buckets ==> key in u.buckets
    ensures key in l.buckets ==> Refilled(l, l.buckets[key], now) == Refilled(u, u.buckets[key], now)
  {
    hide RefilledTo;
  }

  lemma NextAlike(l: Limiter, u: Limiter, e: Event, before: real)
    requires Alike(l, u, before) && u.rps > 0.0 && u.burst >= 1.0 && u.burst <= IDLE_SECONDS * u.rps
    requires (e.Call? ==> Room(u, e.key)) && before <= e.now
    ensures Alike(Next(l, e), if e.Clean? then u else Next(u, e), e.now)
    ensures e.Call? ==> Allowed(l, e.key, e.now).1 == Allowed(u, e.key, e.now).1
  {
    assert Alike(l, u, e.now);
    if e.Call? {
      CallAlike(l, u, e.key, e.now);
    }
  }

  /** The keys that call at all. */
  function Keys(es: seq<Event>): set<string> {
    set e | e in es && e.Call? :: e.key
  }

  lemma KeysGrow(init: seq<Event>, e: Event)
    ensures Keys(init + [e]) == Keys(init) + if e.Call? then {e.key} else {}
  {
    var es := init + [e];
    forall k ensures k in Keys(es) <==> k in Keys(init) || (e.Call? && k == e.key) {
      if k in Keys(init) {
        var c :| c in init && c.Call? && c.key == k;
        assert c in es;
      }
      assert e in es;
    }
  }

  lemma NextKeys(u: Limiter, e: Event)
    ensures Next(u, e).buckets.Keys <= u.buckets.Keys + if e.Call? then {e.key} else {}
  {}

  /** Uncleaned, the map holds keys that have called, and no other. */
  lemma {:induction false} BucketsAreKeys(l: Limiter, es: seq<Event>)
    requires l.buckets == map[]
    ensures After(l, WithoutCleaning(es)).buckets.Keys <= Keys(es)
  {
    if es != [] {
      var init, e := es[..|es| - 1], es[|es| - 1];
      assert es == init + [e];
      BucketsAreKeys(l, init);
      KeysGrow(init, e);
      StepUnobservable(l, init, e);
      hide After, WithoutCleaning, Next, Keys, Answers;
      NextKeys(After(l, WithoutCleaning(init)), e);
    }
  }

  /** While at most 50001 different keys call, there is room for each. */
  lemma KeysHaveRoom(l: Limiter, init: seq<Event>, e: Event)
    requires l.buckets == map[] && e.Call? && |Keys(init + [e])| <= MAX_BUCKETS + 1
    ensures Room(After(l, WithoutCleaning(init)), e.key)
  {
    var u := After(l, WithoutCleaning(init));
    BucketsAreKeys(l, init);
    KeysGrow(init, e);
    hide After, WithoutCleaning, Keys;
    SubsetSize(u.buckets.Keys, Keys(init + [e]));
    if e.key !in u.buckets {
      SubsetSize(u.buckets.Keys, Keys(init + [e]) - {e.key});
    }
  }

  /** One more event, seen by both. */
  lemma StepUnobservable(l: Limiter, init: seq<Event>, e: Event)
    ensures var es, w := init + [e], WithoutCleaning(init);
      && After(l, es) == Next(After(l, init), e)
      && After(l, WithoutCleaning(es)) == (if e.Clean? then After(l, w) else Next(After(l, w), e))
      && Answers(l, es) == Answers(l, init) + (if e.Call? then [Allowed(After(l, init), e.key, e.now).1] else [])
      && Answers(l, WithoutCleaning(es))
          == Answers(l, w) + (if e.Call? then [Allowed(After(l, w), e.key, e.now).1] else [])
  {
    hide Next, Allowed;
    var es, w := init + [e], WithoutCleaning(init);
    assert es[..|es| - 1] == init;
    if e.Call? {
      assert (w + [e])[..|w + [e]| - 1] == w;
    } else {
      assert w + [] == w;
      assert Answers(l, w) + [] == Answers(l, w);
    }
  }

  /** In ordered time, with burst <= 300 * rps and at most 50001 different keys, no caller can tell whether
      the cleaner runs. */
  lemma {:induction false} CleaningUnobservable(rps: real, burst: int, es: seq<Event>)
    requires var l := Created(rps, burst); l.burst <= IDLE_SECONDS * l.rps
    requires Ordered(es) && |Keys(es)| <= MAX_BUCKETS + 1
    ensures var l := Created(rps, burst);
      && Answers(l, es) == Answers(l, WithoutCleaning(es))
      && Alike(After(l, es), After(l, WithoutCleaning(es)), if es == [] then 0.0 else es[|es| - 1].now)
  {
    hide Alike, Next, Allowed, Keys, Room, After, Answers, WithoutCleaning, Ordered;
    var l := Created(rps, burst);
    if es == [] {
      NothingCalled(l);
      AlikeAtAnyTime(l, 0.0);
    } else {
      var init, e := es[..|es| - 1], es[|es| - 1];
      assert es == init + [e];
      BurstIsPositive(rps, burst);
      OrderedSoFar(es);
      KeysGrow(init, e);
      SubsetSize(Keys(init), Keys(es));
      CleaningUnobservable(rps, burst, init);
      Unchanged(l, WithoutCleaning(init));
      if init == [] {
        NothingCalled(l);
        AlikeAtAnyTime(l, e.now);
      }
      EventUnobservable(l, init, e, if init == [] then e.now else init[|init| - 1].now);
    }
  }

  lemma OrderedSoFar(es: seq<Event>)
    requires Ordered(es) && es != []
    ensures var init := es[..|es| - 1];
      Ordered(init) && (init != [] ==> init[|init| - 1].now <= es[|es| - 1].now)
  {}

  lemma EventUnobservable(l: Limiter, init: seq<Event>, e: Event, before: real)
    requires l.buckets == map[] && |Keys(init + [e])| <= MAX_BUCKETS + 1 && before <= e.now
    requires var u := After(l, WithoutCleaning(init));
      && u.rps > 0.0 && u.burst >= 1.0 && u.burst <= IDLE_SECONDS * u.rps
      && Alike(After(l, init), u, before)
    requires Answers(l, init) == Answers(l, WithoutCleaning(init))
    ensures var es := init + [e];
      && Answers(l, es) == Answers(l, WithoutCleaning(es))
      && Alike(After(l, es), After(l, WithoutCleaning(es)), e.now)
  {
    hide After, Answers, WithoutCleaning, Alike, Next, Allowed, Keys, Room;
    StepUnobservable(l, init, e);
    if e.Call? { KeysHaveRoom(l, init, e); }
    NextAlike(After(l, init), After(l, WithoutCleaning(init)), e, before);
  }

  lemma AlikeAtAnyTime(l: Limiter, now: real)
    requires l.buckets == map[]
    ensures Alike(l, l, now)
  {}

  /** `n` calls at one moment. */
  function Calls(now: real, n: nat): seq<Event> {
    if n == 0 then [] else Calls(now, n - 1) + [Call("", now)]
  }

  function Yes(n: nat): seq<bool> {
    if n == 0 then [] else Yes(n - 1) + [true]
  }

  lemma FirstGranted(l: Limiter, now: real)
    requires l.buckets == map[]
    ensures Allowed(l, "", now) == (l.(buckets := map["" := Bucket(l.burst - 1.0, now)]), true)
  {
    assert l.buckets["" := Bucket(l.burst - 1.0, now)] == map["" := Bucket(l.burst - 1.0, now)];
  }

  lemma NextGranted(l: Limiter, tokens: real, now: real)
    requires l.buckets == map["" := Bucket(tokens, now)] && 1.0 <= tokens <= l.burst
    ensures Allowed(l, "", now) == (l.(buckets := map["" := Bucket(tokens - 1.0, now)]), true)
  {
    NoTimeNoRefill(l, Bucket(tokens, now));
    hide Refilled;
    assert l.buckets["" := Bucket(tokens - 1.0, now)] == map["" := Bucket(tokens - 1.0, now)];
  }

  lemma CallAppended(l: Limiter, es: seq<Event>, now: real)
    ensures var e := Call("", now);
      && After(l, es + [e]) == Allowed(After(l, es), "", now).0
      && Answers(l, es + [e]) == Answers(l, es) + [Allowed(After(l, es), "", now).1]
  {
    hide Allowed;
    assert (es + [Call("", now)])[..|es|] == es;
  }

  /** A fresh bucket grants `burst` requests at once. */
  lemma {:induction false} BurstGranted(l: Limiter, now: real, n: nat)
    requires l.buckets == map[] && n as real <= l.burst
    ensures Answers(l, Calls(now, n)) == Yes(n)
    ensures n > 0 ==> After(l, Calls(now, n)) == l.(buckets := map["" := Bucket(l.burst - n as real, now)])
  {
    if n > 0 {
      var es := Calls(now, n - 1);
      BurstGranted(l, now, n - 1);
      CallAppended(l, es, now);
      if n == 1 {
        assert es == [] && After(l, es) == l;
        FirstGranted(l, now);
      } else {
        NextGranted(After(l, es), l.burst - (n - 1) as real, now);
      }
      assert Calls(now, n) == es + [Call("", now)];
      hide After, Answers, Calls, Allowed;
    }
  }

  lemma NoTimeNoRefill(u: Limiter, b: Bucket)
    requires b.tokens <= u.burst
    ensures Refilled(u, b, b.last) == b.tokens
  {
    assert Earned(u.rps, b.last, b.last) == 0.0;
  }

  lemma {:induction false} AfterConcat(l: Limiter, a: seq<Event>, b: seq<Event>)
    ensures After(l, a + b) == After(After(l, a), b)
    ensures Answers(l, a + b) == Answers(l, a) + Answers(After(l, a), b)
  {
    hide Next, Allowed;
    if b == [] {
      assert a + b == a && Answers(l, a) + [] == Answers(l, a);
    } else {
      var init := b[..|b| - 1];
      AfterConcat(l, a, init);
      assert (a + b)[..|a + b| - 1] == a + init;
    }
  }

  lemma {:induction false} WithoutConcat(a: seq<Event>, b: seq<Event>)
    ensures WithoutCleaning(a + b) == WithoutCleaning(a) + WithoutCleaning(b)
  {
    if b == [] {
      assert a + b == a;
    } else {
      WithoutConcat(a, b[..|b| - 1]);
      assert (a + b)[..|a + b| - 1] == a + b[..|b| - 1];
    }
  }

  lemma {:induction false} OnlyCalls(es: seq<Event>)
    requires forall i | 0 <= i < |es| :: es[i].Call?
    ensures WithoutCleaning(es) == es
  {
    if es != [] {
      OnlyCalls(es[..|es| - 1]);
      assert es == es[..|es| - 1] + [es[|es| - 1]];
    }
  }

  lemma {:induction false} CallsAre(now: real, n: nat)
    ensures |Calls(now, n)| == n
    ensures forall i | 0 <= i < n :: Calls(now, n)[i] == Call("", now)
  {
    if n > 0 { CallsAre(now, n - 1); }
  }

  lemma {:induction false} YesFacts(m: nat, n: nat)
    ensures Yes(m) + Yes(n) == Yes(m + n) && |Yes(n)| == n
    ensures forall b <- Yes(n) :: b
  {
    if n > 0 {
      YesFacts(m, n - 1);
    } else {
      assert Yes(m) + [] == Yes(m);
    }
  }

  /** All answered yes: every one was let through. */
  lemma {:induction false} AllAdmitted(l: Limiter, es: seq<Event>)
    requires (forall e <- es :: e.Call? && e.key == "") && (forall b <- Answers(l, es) :: b)
    ensures Admitted(l, es, "") == |es|
    ensures |Answers(l, es)| == |es|
    ensures es != [] ==> Admits(After(l, es[..|es| - 1]), es[|es| - 1], "")
  {
    hide Allowed;
    if es != [] {
      var init := es[..|es| - 1];
      assert forall b <- Answers(l, init) :: b in Answers(l, es);
      AllAdmitted(l, init);
      assert es[|es| - 1] in es;
      assert Answers(l, es)[|es| - 1] in Answers(l, es);
    }
  }

  lemma {:induction false} AlwaysKept(l: Limiter, es: seq<Event>)
    requires (forall e <- es :: e.Call? && e.key == "") && |l.buckets| <= MAX_BUCKETS
    ensures es != [] ==> "" in After(l, es).buckets
  {
    if es != [] {
      var init := es[..|es| - 1];
      AlwaysKept(l, init);
      assert es[|es| - 1] in es;
      assert init == [] ==> After(l, init) == l;
    }
  }

  lemma CallsOnlyKept(l: Limiter, es: seq<Event>)
    requires (forall e <- es :: e.Call? && e.key == "") && |l.buckets| <= MAX_BUCKETS
    ensures Kept(l, es, "")
  {
    forall n | 1 <= n <= |es| ensures "" in After(l, es[..n]).buckets {
      assert forall e <- es[..n] :: e in es;
      AlwaysKept(l, es[..n]);
    }
  }

  /** Spend a burst, be idle until `t`, be cleaned, spend a burst again. */
  function SpendTwice(n: nat, t: real): seq<Event> {
    Calls(0.0, n) + [Clean(t)] + Calls(t, n)
  }

  lemma CleaningDropped(n: nat, t: real)
    ensures WithoutCleaning(SpendTwice(n, t)) == Calls(0.0, n) + Calls(t, n)
  {
    var a, c, b := Calls(0.0, n), [Clean(t)], Calls(t, n);
    CallsAre(0.0, n);
    CallsAre(t, n);
    OnlyCalls(a);
    OnlyCalls(b);
    WithoutConcat(a + c, b);
    WithoutConcat(a, c);
    assert c[..0] == [];
    assert WithoutCleaning(c) == [];
    assert a + [] == a;
  }

  lemma SpendTwiceFacts(n: nat, t: real)
    requires t >= 0.0 && n > 0
    ensures Ordered(SpendTwice(n, t))
    ensures var es := Calls(0.0, n) + Calls(t, n);
      && |es| == n + n && (forall e <- es :: e.Call? && e.key == "")
      && es[0].now == 0.0 && es[|es| - 1].now == t
  {
    CallsAre(0.0, n);
    CallsAre(t, n);
    hide Calls;
    TwoBlocks(Calls(0.0, n), Calls(t, n), n, t);
  }

  lemma TwoBlocks(a: seq<Event>, b: seq<Event>, n: nat, t: real)
    requires |a| == n && |b| == n && t >= 0.0 && n > 0
    requires forall i | 0 <= i < n :: a[i] == Call("", 0.0) && b[i] == Call("", t)
    ensures Ordered(a + [Clean(t)] + b)
    ensures (forall e <- a + b :: e.Call? && e.key == "") && (a + b)[0].now == 0.0 && (a + b)[n + n - 1].now == t
  {
    var es := a + b;
    forall e <- es ensures e.Call? && e.key == "" {
      var i :| 0 <= i < |es| && es[i] == e;
      assert e == if i < n then a[i] else b[i - n];
    }
  }

  lemma OneKey(n: nat, t: real)
    ensures |Keys(SpendTwice(n, t))| <= 1
  {
    KeysConcat(Calls(0.0, n) + [Clean(t)], Calls(t, n));
    KeysConcat(Calls(0.0, n), [Clean(t)]);
    KeysOfCalls(0.0, n);
    KeysOfCalls(t, n);
    assert Keys([Clean(t)]) == {};
    hide Keys, Calls;
    SubsetSize(Keys(SpendTwice(n, t)), {""});
  }

  lemma ObservableBy(l: Limiter, n: nat, t: real)
    requires l.buckets == map[] && n as real == l.burst && n > 0 && t > IDLE_SECONDS && t * l.rps < l.burst
    ensures var es := SpendTwice(n, t);
      Ordered(es) && |Keys(es)| <= 1 && Answers(l, es) != Answers(l, WithoutCleaning(es))
  {
    OneKey(n, t);
    hide Answers, Ordered, Calls, SpendTwice, WithoutCleaning;
    SpendTwiceFacts(n, t);
    CleaningDropped(n, t);
    WithCleaning(l, n, t);
    TooMany(l, Calls(0.0, n) + Calls(t, n), n, t);
  }

  /** The condition is exact: with burst > 300 * rps the cleaner hands out requests that the bucket would
      have refused. */
  lemma CleaningObservable(rps: real, burst: int)
    requires var l := Created(rps, burst); l.burst > IDLE_SECONDS * l.rps
    ensures exists es | Ordered(es) && |Keys(es)| <= 1 ::
              Answers(Created(rps, burst), es) != Answers(Created(rps, burst), WithoutCleaning(es))
  {
    BurstIsPositive(rps, burst);
    var l := Created(rps, burst);
    ObservableBy(l, if burst <= 0 then 30 else burst, MomentBefore(l.rps, l.burst));
  }

  /** A moment at which the cleaner acts and the bucket is not yet full. */
  function MomentBefore(rps: real, burst: real): (t: real)
    requires rps > 0.0 && burst > IDLE_SECONDS * rps
    ensures t > IDLE_SECONDS && t * rps < burst
  {
    var full := burst / rps;
    assert full * rps == burst;
    Scaled2(IDLE_SECONDS, full, rps);
    var t := (IDLE_SECONDS + full) / 2.0;
    Scaled2(t, full, rps);
    t
  }

  lemma Scaled2(a: real, b: real, r: real)
    requires r > 0.0
    ensures a < b <==> a * r < b * r
  {
    assert (b - a) * r == b * r - a * r;
    assert a < b ==> (b - a) * r > 0.0;
    assert a >= b ==> (a - b) * r >= 0.0;
  }

  lemma CleanedAway(u: Limiter, t: real, b: Bucket)
    requires u.buckets == map["" := b] && b.last < t - IDLE_SECONDS
    ensures After(u, [Clean(t)]) == u.(buckets := map[]) && Answers(u, [Clean(t)]) == []
  {
    var c := [Clean(t)];
    assert c[..0] == [];
    assert After(u, c) == Cleaned(u, t);
    assert Cleaned(u, t).buckets.Keys == {};
  }

  lemma WithCleaning(l: Limiter, n: nat, t: real)
    requires l.buckets == map[] && n as real == l.burst && n > 0 && t > IDLE_SECONDS
    ensures Answers(l, SpendTwice(n, t)) == Yes(n + n)
  {
    var a, c, b := Calls(0.0, n), [Clean(t)], Calls(t, n);
    BurstGranted(l, 0.0, n);
    BurstGranted(l, t, n);
    AfterConcat(l, a, c);
    AfterConcat(l, a + c, b);
    var u := After(l, a);
    CleanedAway(u, t, u.buckets[""]);
    YesFacts(n, n);
    hide After, Answers, Calls, Yes;
    assert After(u, c) == l;
    assert Yes(n) + [] == Yes(n);
  }

  /** Twice the burst within less time than it takes to refill it would break the bound. */
  lemma TooMany(l: Limiter, es: seq<Event>, n: nat, t: real)
    requires l.buckets == map[] && n as real == l.burst && n > 0 && t * l.rps < l.burst
    requires |es| == n + n && (forall e <- es :: e.Call? && e.key == "")
    requires es[0].now == 0.0 && es[|es| - 1].now == t
    ensures Answers(l, es) != Yes(n + n)
  {
    if Answers(l, es) == Yes(n + n) {
      YesFacts(0, n + n);
      AllAdmitted(l, es);
      CallsOnlyKept(l, es);
      assert es[0] in es;
      AdmissionBound(l, es, "");
    }
  }

  // ------------------------------------------------------------- a full map

  /** Different keys, none of them empty. */
  function Name(i: nat): (s: string)
    ensures |s| == i + 1
  {
    if i == 0 then "k" else Name(i - 1) + "k"
  }

  /** One call from each of `n` keys, at time 0. */
  function Crowd(n: nat): seq<Event> {
    if n == 0 then [] else Crowd(n - 1) + [Call(Name(n - 1), 0.0)]
  }

  lemma {:induction false} CrowdAre(n: nat)
    ensures |Crowd(n)| == n && forall i | 0 <= i < n :: Crowd(n)[i] == Call(Name(i), 0.0)
  {
    if n > 0 { CrowdAre(n - 1); }
  }

  /** A key new to a map that is not full gets a bucket. */
  lemma NewKey(u: Limiter, key: string, now: real)
    requires key !in u.buckets && |u.buckets| <= MAX_BUCKETS
    ensures Allowed(u, key, now) == (u.(buckets := u.buckets[key := Bucket(u.burst - 1.0, now)]), true)
    ensures |u.buckets[key := Bucket(u.burst - 1.0, now)]| == |u.buckets| + 1
  {
    var b := u.buckets[key := Bucket(u.burst - 1.0, now)];
    assert b.Keys == u.buckets.Keys + {key};
    assert |b.Keys| == |u.buckets.Keys| + 1;
  }

  lemma KeyAppended(l: Limiter, es: seq<Event>, key: string, now: real)
    ensures var e := Call(key, now);
      && After(l, es + [e]) == Allowed(After(l, es), key, now).0
      && Answers(l, es + [e]) == Answers(l, es) + [Allowed(After(l, es), key, now).1]
  {
    hide Allowed;
    assert (es + [Call(key, now)])[..|es|] == es;
  }

  /** The map after one call from each of `n` keys. */
  ghost predicate Filled(u: Limiter, l: Limiter, n: nat) {
    && |u.buckets| == n && u.rps == l.rps && u.burst == l.burst
    && forall k <- u.buckets :: 0 < |k| <= n && u.buckets[k].last == 0.0
  }

  lemma FilledOnce(u: Limiter, l: Limiter, n: nat)
    requires Filled(u, l, n) && n <= MAX_BUCKETS
    ensures var (v, ok) := Allowed(u, Name(n), 0.0); Filled(v, l, n + 1) && ok
  {
    NewKey(u, Name(n), 0.0);
    hide Allowed, Name;
  }

  /** Each of them gets a bucket of its own. */
  lemma {:induction false} CrowdFills(l: Limiter, n: nat)
    requires l.buckets == map[] && n <= MAX_BUCKETS + 1
    ensures Filled(After(l, Crowd(n)), l, n) && Answers(l, Crowd(n)) == Yes(n)
  {
    hide Allowed, After, Answers, Filled, Name;
    if n == 0 {
      NothingCalled(l);
    } else {
      CrowdFills(l, n - 1);
      KeyAppended(l, Crowd(n - 1), Name(n - 1), 0.0);
      FilledOnce(After(l, Crowd(n - 1)), l, n - 1);
    }
  }

  lemma NothingCalled(l: Limiter)
    ensures After(l, []) == l && Answers(l, []) == [] && WithoutCleaning([]) == []
    ensures l.buckets == map[] ==> Filled(l, l, 0)
  {}

  /** A full map lets every new key through. */
  lemma FullMapOpen(u: Limiter, now: real)
    requires |u.buckets| > MAX_BUCKETS && "" !in u.buckets
    ensures Allowed(u, "", now) == (u, true)
  {}

  lemma {:induction false} FullGrants(u: Limiter, now: real, n: nat)
    requires |u.buckets| > MAX_BUCKETS && "" !in u.buckets
    ensures After(u, Calls(now, n)) == u && Answers(u, Calls(now, n)) == Yes(n)
  {
    hide Allowed, After, Answers;
    if n == 0 {
      NothingCalled(u);
    } else {
      FullGrants(u, now, n - 1);
      CallAppended(u, Calls(now, n - 1), now);
      FullMapOpen(u, now);
    }
  }

  /** One request more than the burst is refused. */
  lemma OneTooMany(l: Limiter, now: real, n: nat)
    requires l.buckets == map[] && n as real == l.burst && n > 0
    ensures Answers(l, Calls(now, n + 1)) == Yes(n) + [false]
  {
    BurstGranted(l, now, n);
    CallAppended(l, Calls(now, n), now);
    var u := After(l, Calls(now, n));
    NoTimeNoRefill(u, u.buckets[""]);
    hide Refilled, After, Answers, Calls;
  }

  lemma CrowdCleaned(u: Limiter, t: real)
    requires t > IDLE_SECONDS && forall k <- u.buckets :: u.buckets[k].last == 0.0
    ensures After(u, [Clean(t)]) == u.(buckets := map[]) && Answers(u, [Clean(t)]) == []
  {
    var c := [Clean(t)];
    assert c[..0] == [];
    assert After(u, c) == Cleaned(u, t);
    assert Cleaned(u, t).buckets.Keys == {};
  }

  /** 50001 keys fill the map; a minute after five minutes the cleaner empties it; then one new key asks for
      one request more than the burst. */
  function CrowdThenOne(n: nat): seq<Event> {
    Crowd(MAX_BUCKETS + 1) + [Clean(IDLE_SECONDS + 60.0)] + Calls(IDLE_SECONDS + 60.0, n + 1)
  }

  lemma KeysConcat(a: seq<Event>, b: seq<Event>)
    ensures Keys(a + b) == Keys(a) + Keys(b)
  {
    forall k | k in Keys(a) + Keys(b) ensures k in Keys(a + b) {
      var e :| (e in a || e in b) && e.Call? && e.key == k;
      assert e in a + b;
    }
  }

  lemma {:induction false} KeysOfCrowd(n: nat)
    ensures Keys(Crowd(n)) <= Names(n)
  {
    if n > 0 {
      KeysOfCrowd(n - 1);
      KeysGrow(Crowd(n - 1), Call(Name(n - 1), 0.0));
      hide Keys;
      assert Name(n - 1) in Names(n);
    }
  }

  lemma {:induction false} KeysOfCalls(now: real, n: nat)
    ensures Keys(Calls(now, n)) <= {""}
  {
    if n > 0 {
      KeysOfCalls(now, n - 1);
      KeysGrow(Calls(now, n - 1), Call("", now));
      hide Keys;
    }
  }

  lemma CrowdKeys(n: nat, m: nat, t: real)
    ensures |Keys(Crowd(n) + [Clean(t)] + Calls(t, m))| <= n + 1
  {
    KeysConcat(Crowd(n) + [Clean(t)], Calls(t, m));
    KeysConcat(Crowd(n), [Clean(t)]);
    KeysOfCrowd(n);
    KeysOfCalls(t, m);
    assert Keys([Clean(t)]) == {};
    NamesSize(n);
    var es := Crowd(n) + [Clean(t)] + Calls(t, m);
    hide Keys, Crowd, Calls, Names;
    SubsetSize(Keys(es), Names(n) + {""});
  }

  function Names(n: nat): set<string> {
    set i | 0 <= i < n :: Name(i)
  }

  lemma {:induction false} NamesSize(n: nat)
    ensures |Names(n)| <= n
  {
    if n > 0 {
      NamesSize(n - 1);
      assert Names(n) == Names(n - 1) + {Name(n - 1)};
    } else {
      assert Names(0) == {};
    }
  }

  lemma CrowdOrdered(n: nat)
    ensures Ordered(CrowdThenOne(n)) && |Keys(CrowdThenOne(n))| <= MAX_BUCKETS + 2
  {
    CrowdAre(MAX_BUCKETS + 1);
    CallsAre(IDLE_SECONDS + 60.0, n + 1);
    CrowdKeys(MAX_BUCKETS + 1, n + 1, IDLE_SECONDS + 60.0);
    hide Crowd, Calls, Keys;
  }

  lemma CrowdUncleaned(n: nat)
    ensures WithoutCleaning(CrowdThenOne(n)) == Crowd(MAX_BUCKETS + 1) + Calls(IDLE_SECONDS + 60.0, n + 1)
  {
    var t := IDLE_SECONDS + 60.0;
    var a, c, b := Crowd(MAX_BUCKETS + 1), [Clean(t)], Calls(t, n + 1);
    CrowdAre(MAX_BUCKETS + 1);
    CallsAre(t, n + 1);
    OnlyCalls(a);
    OnlyCalls(b);
    WithoutConcat(a + c, b);
    WithoutConcat(a, c);
    hide Crowd, Calls;
    assert c[..0] == [];
    assert WithoutCleaning(c) == [];
    assert a + [] == a;
  }

  lemma FullMapTells(l: Limiter, n: nat)
    requires l.buckets == map[] && n as real == l.burst && n > 0
    ensures Answers(l, CrowdThenOne(n)) != Answers(l, WithoutCleaning(CrowdThenOne(n)))
  {
    hide After, Answers, Crowd, Calls, WithoutCleaning, Yes, Filled;
    var t, m := IDLE_SECONDS + 60.0, MAX_BUCKETS + 1;
    var a, c, b := Crowd(m), [Clean(t)], Calls(t, n + 1);
    var u := After(l, a);
    CrowdFills(l, m);
    FilledFacts(u, l, m);
    CrowdCleaned(u, t);
    FullGrants(u, t, n + 1);
    OneTooMany(l, t, n);
    CrowdUncleaned(n);
    AfterConcat(l, a, c);
    AfterConcat(l, a + c, b);
    AfterConcat(l, a, b);
    LastDiffers(m, n);
  }

  lemma FilledFacts(u: Limiter, l: Limiter, n: nat)
    requires Filled(u, l, n) && l.buckets == map[]
    ensures |u.buckets| == n && "" !in u.buckets && u.(buckets := map[]) == l
    ensures forall k <- u.buckets :: u.buckets[k].last == 0.0
  {}

  lemma LastDiffers(m: nat, n: nat)
    ensures Yes(m) + [] + (Yes(n) + [false]) != Yes(m) + Yes(n + 1)
  {
    YesFacts(0, m);
    YesFacts(0, n);
    YesFacts(0, n + 1);
    assert (Yes(m) + [] + (Yes(n) + [false]))[m + n] == false;
    assert (Yes(m) + Yes(n + 1))[m + n] == Yes(n + 1)[n] == true;
  }

  /** Exactly when no caller can tell: among runs with up to `n` different keys in ordered time, the answers
      with and without the cleaner are the same if and only if a bucket that idles five minutes is full
      again and the map has room for all keys. */
  lemma UnobservableExactlyWhen(rps: real, burst: int, n: nat)
    requires n >= 1
    ensures (forall es | Ordered(es) && |Keys(es)| <= n ::
               Answers(Created(rps, burst), es) == Answers(Created(rps, burst), WithoutCleaning(es)))
       <==> Created(rps, burst).burst <= 300.0 * Created(rps, burst).rps && n <= 50001
  {
    hide Answers, WithoutCleaning, Ordered, Keys, CrowdThenOne;
    var l := Created(rps, burst);
    BurstIsPositive(rps, burst);
    if n > MAX_BUCKETS + 1 {
      var m := if burst <= 0 then 30 else burst;
      FullMapTells(l, m);
      CrowdOrdered(m);
    } else if l.burst > IDLE_SECONDS * l.rps {
      CleaningObservable(rps, burst);
    } else {
      forall es | Ordered(es) && |Keys(es)| <= n ensures Answers(l, es) == Answers(l, WithoutCleaning(es)) {
        CleaningUnobservable(rps, burst, es);
      }
    }
  }
}
