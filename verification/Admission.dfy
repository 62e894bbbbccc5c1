/** Exactly which requests the rate limiter lets through: all that the admission bound leaves room for. */
module Admission {
  import opened RateLimiting

  predicate Calls(e: Event, key: string) {
    e.Call? && e.key == key
  }

  /** Requests of `key` let through by the events from `i` on. */
  function Since(l: Limiter, es: seq<Event>, key: string, i: nat): int
    requires i <= |es|
  {
    Admitted(l, es, key) - Admitted(l, es[..i], key)
  }

  /** What call `i` would leave in the bucket at `now`, had it found it full. */
  function Left(l: Limiter, es: seq<Event>, key: string, i: nat, now: real): real
    requires i < |es|
  {
    l.burst + Earned(l.rps, es[i].now, now) - Since(l, es, key, i) as real
  }

  /** The bucket holds the least of what its calls would leave. */
  ghost predicate Least(l: Limiter, es: seq<Event>, key: string) {
    key in After(l, es).buckets &&
    var b := After(l, es).buckets[key];
    && (forall i | 0 <= i < |es| && Calls(es[i], key) :: b.tokens <= Left(l, es, key, i, b.last))
    && (exists i | 0 <= i < |es| && Calls(es[i], key) :: b.tokens == Left(l, es, key, i, b.last))
  }

  lemma NextSince(l: Limiter, es: seq<Event>, e: Event, key: string, i: nat)
    requires i <= |es|
    ensures Since(l, es + [e], key, i) == Since(l, es, key, i) + if Admits(After(l, es), e, key) then 1 else 0
    ensures Since(l, es, key, |es|) == 0
  {
    hide Admits;
    assert (es + [e])[..|es|] == es && (es + [e])[..i] == es[..i] && es[..|es|] == es;
  }

  /** Later by some time, the least of all is later by what that time earns. */
  lemma LeftLater(l: Limiter, es: seq<Event>, key: string, i: nat, from: real, till: real)
    requires i < |es|
    ensures Left(l, es, key, i, till) == Left(l, es, key, i, from) + Earned(l.rps, from, till)
  {
    Distributes(l.rps, es[i].now, from, till);
    hide Earned;
  }

  lemma OneCall(l: Limiter, e: Event, key: string)
    requires Calls(e, key) && key !in l.buckets && |l.buckets| <= 50000
    ensures Least(l, [e], key)
  {
    var es := [e];
    assert es[..0] == [] && After(l, es) == Allowed(l, key, e.now).0 && es[..1] == es;
    assert Admitted(l, [], key) == 0 && After(l, []) == l;
    assert Admitted(l, es, key) == 1;
    assert Earned(l.rps, e.now, e.now) == 0.0;
    assert Left(l, es, key, 0, e.now) == l.burst - 1.0;
  }

  lemma AfterMore(l: Limiter, es: seq<Event>, e: Event)
    ensures After(l, es + [e]) == Next(After(l, es), e)
  {
    assert (es + [e])[..|es|] == es;
  }

  /** An event that is no call of the key leaves its bucket alone. */
  lemma OtherEvent(u: Limiter, e: Event, key: string)
    requires key in u.buckets && key in Next(u, e).buckets && !Calls(e, key)
    ensures Next(u, e).buckets[key] == u.buckets[key] && !Admits(u, e, key)
  {}

  /** A call: refill, cap, spend. */
  lemma ThisCall(u: Limiter, key: string, now: real)
    requires key in u.buckets
    ensures var b, (v, ok) := u.buckets[key], Allowed(u, key, now);
      var full := b.tokens + Earned(u.rps, b.last, now);
      var x := if full > u.burst then u.burst else full;
      && key in v.buckets && v.buckets[key].last == now
      && v.buckets[key].tokens == x - (if ok then 1.0 else 0.0)
      && (ok <==> x >= 1.0)
  {}

  lemma CallLeast(l: Limiter, es: seq<Event>, e: Event, key: string)
    requires Least(l, es, key) && Calls(e, key)
    ensures Least(l, es + [e], key)
  {
    var u, more := After(l, es), es + [e];
    var b := u.buckets[key];
    var ok := Allowed(u, key, e.now).1;
    Unchanged(l, es);
    AfterMore(l, es, e);
    ThisCall(u, key, e.now);
    NextSince(l, es, e, key, |es|);
    NoTime(l, e.now);
    hide After, Admitted, Allowed, Earned, Since;
    var b' := After(l, more).buckets[key];
    forall i: nat | i < |es| ensures Left(l, more, key, i, e.now)
      == Left(l, es, key, i, b.last) + Earned(l.rps, b.last, e.now) - if ok then 1.0 else 0.0
    {
      NextSince(l, es, e, key, i);
      LeftLater(l, es, key, i, b.last, e.now);
    }
    assert more[|es|] == e && Left(l, more, key, |es|, e.now) == l.burst - if ok then 1.0 else 0.0;
    assert forall i | 0 <= i < |es| :: more[i] == es[i];
    LeastOf(l, es, more, key, b, b', e, if ok then 1.0 else 0.0);
  }

  lemma LeastOf(l: Limiter, es: seq<Event>, more: seq<Event>, key: string, b: Bucket, b': Bucket, e: Event, paid: real)
    requires more == es + [e] && Calls(e, key) && key in After(l, more).buckets && b' == After(l, more).buckets[key]
    requires b'.last == e.now
    requires forall i: nat | i < |es| ::
      Left(l, more, key, i, e.now) == Left(l, es, key, i, b.last) + Earned(l.rps, b.last, e.now) - paid
    requires Left(l, more, key, |es|, e.now) == l.burst - paid
    requires forall i | 0 <= i < |es| && Calls(es[i], key) :: b.tokens <= Left(l, es, key, i, b.last)
    requires exists i | 0 <= i < |es| && Calls(es[i], key) :: b.tokens == Left(l, es, key, i, b.last)
    requires var full := b.tokens + Earned(l.rps, b.last, e.now);
      b'.tokens == (if full > l.burst then l.burst else full) - paid
    ensures Least(l, more, key)
  {
    hide Left, Earned, After;
    var i :| 0 <= i < |es| && Calls(es[i], key) && b.tokens == Left(l, es, key, i, b.last);
    assert Calls(more[i], key) && Calls(more[|es|], key);
    var least := if b.tokens + Earned(l.rps, b.last, e.now) > l.burst then |es| else i;
    assert b'.tokens == Left(l, more, key, least, e.now);
  }

  lemma NoTime(l: Limiter, now: real)
    ensures Earned(l.rps, now, now) == 0.0
  {}

  lemma OtherLeast(l: Limiter, es: seq<Event>, e: Event, key: string)
    requires Least(l, es, key) && !Calls(e, key) && key in After(l, es + [e]).buckets
    ensures Least(l, es + [e], key)
  {
    var u, more := After(l, es), es + [e];
    AfterMore(l, es, e);
    OtherEvent(u, e, key);
    hide After, Admitted, Earned, Since, Next, Admits;
    forall i: nat | i < |es| && Calls(es[i], key)
      ensures Left(l, more, key, i, u.buckets[key].last) == Left(l, es, key, i, u.buckets[key].last)
    {
      NextSince(l, es, e, key, i);
    }
    assert forall i | 0 <= i < |es| :: more[i] == es[i];
  }

  lemma {:induction false} AlwaysLeast(l: Limiter, es: seq<Event>, key: string)
    requires key !in l.buckets && |l.buckets| <= 50000
    requires es != [] && Calls(es[0], key) && Kept(l, es, key)
    ensures Least(l, es, key)
  {
    hide Least, Kept, After;
    if |es| == 1 {
      OneCall(l, es[0], key);
      assert [es[0]] == es;
    } else {
      var init, e := es[..|es| - 1], es[|es| - 1];
      KeptPrefix(l, es, key);
      AlwaysLeast(l, init, key);
      assert init + [e] == es;
      if Calls(e, key) { CallLeast(l, init, e, key); } else { OtherLeast(l, init, e, key); }
    }
  }

  lemma LeastDecides(l: Limiter, es: seq<Event>, key: string, b: Bucket, now: real, ok: bool)
    requires l.burst >= 1.0
    requires forall i: nat | i < |es| ::
      Left(l, es, key, i, now) == Left(l, es, key, i, b.last) + Earned(l.rps, b.last, now)
    requires forall i | 0 <= i < |es| && Calls(es[i], key) :: b.tokens <= Left(l, es, key, i, b.last)
    requires exists i | 0 <= i < |es| && Calls(es[i], key) :: b.tokens == Left(l, es, key, i, b.last)
    requires var full := b.tokens + Earned(l.rps, b.last, now);
      ok <==> (if full > l.burst then l.burst else full) >= 1.0
    ensures ok <==> forall i | 0 <= i < |es| && Calls(es[i], key) :: Left(l, es, key, i, now) >= 1.0
  {
    hide Left, Earned, Calls;
    var i :| 0 <= i < |es| && Calls(es[i], key) && b.tokens == Left(l, es, key, i, b.last);
    assert Left(l, es, key, i, now) == b.tokens + Earned(l.rps, b.last, now);
  }

  lemma CallDecided(l: Limiter, es: seq<Event>, key: string, now: real)
    requires l.burst >= 1.0 && Least(l, es, key)
    ensures Allowed(After(l, es), key, now).1
       <==> forall i | 0 <= i < |es| && Calls(es[i], key) :: Left(l, es, key, i, now) >= 1.0
  {
    hide Left, Earned, Calls, After, Allowed;
    var u := After(l, es);
    var b := u.buckets[key];
    Unchanged(l, es);
    ThisCall(u, key, now);
    forall i: nat | i < |es|
      ensures Left(l, es, key, i, now) == Left(l, es, key, i, b.last) + Earned(l.rps, b.last, now)
    {
      LeftLater(l, es, key, i, b.last, now);
    }
    LeastDecides(l, es, key, b, now, Allowed(u, key, now).1);
  }

  /** A request is let through if and only if, with it, the key's requests since each of its calls stay within the
      burst and what has been earned since then: nothing within the bound is held back. */
  lemma AdmittedExactlyWhen(rps: real, burst: int, es: seq<Event>, key: string, now: real)
    requires es != [] && Calls(es[0], key) && Kept(Created(rps, burst), es, key)
    ensures var l := Created(rps, burst);
      Allowed(After(l, es), key, now).1 <==>
        forall i | 0 <= i < |es| && Calls(es[i], key) ::
          Since(l, es, key, i) as real + 1.0 <= l.burst + (now - es[i].now) * l.rps
  {
    var l := Created(rps, burst);
    hide Least, After, Allowed, Kept, Since;
    BurstIsPositive(rps, burst);
    AlwaysLeast(l, es, key);
    CallDecided(l, es, key, now);
    forall i | 0 <= i < |es| && Calls(es[i], key)
      ensures Left(l, es, key, i, now) >= 1.0 <==>
        Since(l, es, key, i) as real + 1.0 <= l.burst + (now - es[i].now) * l.rps
    {
      LeftIs(l, es, key, i, now);
    }
  }

  lemma LeftIs(l: Limiter, es: seq<Event>, key: string, i: nat, now: real)
    requires i < |es| && es[i].Call?
    ensures Left(l, es, key, i, now) >= 1.0 <==>
      Since(l, es, key, i) as real + 1.0 <= l.burst + (now - es[i].now) * l.rps
  {}

  /** A key's first request is let through. */
  lemma FirstIsAdmitted(rps: real, burst: int, es: seq<Event>, key: string, now: real)
    requires key !in After(Created(rps, burst), es).buckets
    ensures Allowed(After(Created(rps, burst), es), key, now).1
  {}
}
