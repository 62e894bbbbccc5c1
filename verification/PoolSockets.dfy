/** The pool's limit and the sockets that Reap and Close are still closing. They closed the lock behind
    them and hold no token, so the limit does not count them: here is exactly when it covers them all
    the same, and how many sockets there can be otherwise. */
module PoolSockets {
  import opened Pools

  /** Sockets open or being dialled, with those that the reaper is closing. */
  function Sockets(s: State): nat {
    |Busy(s.threads)| + |s.idle| + |s.reaping|
  }

  /** Get finds the stack empty and starts a dial. */
  predicate StartsDial(s: State, e: Step) {
    e.Pick? && Enabled(s, e) && s.idle == []
  }

  predicate StartsReap(s: State, e: Step) {
    e.Reap? || e.Close?
  }

  // ----------------------------------------------------------- one step at a time

  lemma {:induction false} SplitSize(idle: seq<IdleConn>, clock: nat -> int)
    ensures |Fit(idle, clock)| + |Unfit(idle, clock)| == |idle|
  {
    if idle != [] {
      SplitSize(idle[..|idle| - 1], clock);
    }
  }

  lemma UnionSize<T>(a: set<T>, b: set<T>)
    ensures |a + b| <= |a| + |b|
  {
    assert |a + b| == |a| + |b| - |a * b|;
  }

  lemma ReapSockets(s: State, e: Step)
    requires Enabled(s, e) && (e.Reap? || e.Close? || e.ReapClosed?)
    ensures Sockets(Apply(s, e)) <= Sockets(s)
    ensures |Apply(s, e).reaping| <= |s.reaping| + |s.idle|
  {
    hide Busy, Fit, Unfit, Conns;
    match e
    case Reap(clock) =>
      SplitSize(s.idle, clock);
      IdleSize(Unfit(s.idle, clock));
      UnionSize(s.reaping, Conns(Unfit(s.idle, clock)));
    case Close =>
      IdleSize(s.idle);
      UnionSize(s.reaping, Conns(s.idle));
    case ReapClosed(conn) =>
  }

  /** Only a dial opens a socket. */
  lemma StepSockets(s: State, e: Step)
    requires Enabled(s, e)
    ensures if StartsDial(s, e) then Sockets(Apply(s, e)) == Sockets(s) + 1 else Sockets(Apply(s, e)) <= Sockets(s)
    ensures !StartsReap(s, e) ==> |Apply(s, e).reaping| <= |s.reaping|
  {
    hide Busy, Fit, Unfit, Conns;
    match e
    case Acquire(t) => BusyAcquired(s.threads, t);
    case Leave(t) => BusyLeft(s.threads, t);
    case Reap(_) => ReapSockets(s, e);
    case Close => ReapSockets(s, e);
    case ReapClosed(_) => ReapSockets(s, e);
    case _ => BusyMoved(s.threads, e.t, Apply(s, e).threads[e.t]);
  }

  lemma TakenLast(s: State, steps: seq<Step>, n: nat)
    requires n < |steps|
    ensures Run(s, steps[..n + 1]) == Taken(Run(s, steps[..n]), steps[n])
  {
    assert steps[..n + 1][..n] == steps[..n];
  }

  // -------------------------------------------------- when the limit covers all

  ghost predicate NeverOver(maxConns: int, steps: seq<Step>) {
    forall n | 0 <= n <= |steps| :: Sockets(Run(Fresh(maxConns), steps[..n])) <= Fresh(maxConns).max
  }

  /** Every dial is started while fewer sockets than the limit are open, the reaper's included. */
  ghost predicate DialsBelow(maxConns: int, steps: seq<Step>) {
    forall n | 0 <= n < |steps| && StartsDial(Run(Fresh(maxConns), steps[..n]), steps[n]) ::
      Sockets(Run(Fresh(maxConns), steps[..n])) < Fresh(maxConns).max
  }

  lemma {:induction false} BelowStaysWithin(maxConns: int, steps: seq<Step>, n: nat)
    requires DialsBelow(maxConns, steps) && n <= |steps|
    ensures Sockets(Run(Fresh(maxConns), steps[..n])) <= Fresh(maxConns).max
  {
    hide Sockets;
    if n == 0 {
      FreshIsEmpty(maxConns);
    } else {
      var before := Run(Fresh(maxConns), steps[..n - 1]);
      BelowStaysWithin(maxConns, steps, n - 1);
      TakenLast(Fresh(maxConns), steps, n - 1);
      if Enabled(before, steps[n - 1]) {
        StepSockets(before, steps[n - 1]);
      }
    }
  }

  lemma FreshIsEmpty(maxConns: int)
    ensures Run(Fresh(maxConns), []) == Fresh(maxConns) && Sockets(Fresh(maxConns)) == 0
  {
    assert Busy(map[]) == {};
  }

  /** The limit covers every open socket throughout a run if and only if each dial of the run is started
      while fewer sockets than the limit are open, those being closed included. The code checks only
      that the stack is empty. */
  lemma LimitCoversAllExactlyWhen(maxConns: int, steps: seq<Step>)
    ensures NeverOver(maxConns, steps) <==> DialsBelow(maxConns, steps)
  {
    hide Sockets;
    if DialsBelow(maxConns, steps) {
      forall n | 0 <= n <= |steps| ensures Sockets(Run(Fresh(maxConns), steps[..n])) <= Fresh(maxConns).max {
        BelowStaysWithin(maxConns, steps, n);
      }
    }
    if NeverOver(maxConns, steps) {
      forall n | 0 <= n < |steps| && StartsDial(Run(Fresh(maxConns), steps[..n]), steps[n])
        ensures Sockets(Run(Fresh(maxConns), steps[..n])) < Fresh(maxConns).max
      {
        TakenLast(Fresh(maxConns), steps, n);
        StepSockets(Run(Fresh(maxConns), steps[..n]), steps[n]);
        assert Sockets(Run(Fresh(maxConns), steps[..n + 1])) <= Fresh(maxConns).max;
      }
    }
  }

  /** In particular the limit covers them all when no dial starts while the reaper is closing. */
  lemma CoveredWhileReaperRests(maxConns: int, steps: seq<Step>)
    requires forall n | 0 <= n < |steps| && StartsDial(Run(Fresh(maxConns), steps[..n]), steps[n]) ::
      Run(Fresh(maxConns), steps[..n]).reaping == {}
    ensures NeverOver(maxConns, steps)
  {
    forall n | 0 <= n < |steps| && StartsDial(Run(Fresh(maxConns), steps[..n]), steps[n])
      ensures Sockets(Run(Fresh(maxConns), steps[..n])) < Fresh(maxConns).max
    {
      var s := Run(Fresh(maxConns), steps[..n]);
      EveryRunKeeps(maxConns, steps[..n]);
      AllButOneBusy(s.threads, steps[n].t);
    }
    LimitCoversAllExactlyWhen(maxConns, steps);
  }

  // ------------------------------------------------------ the bound in any case

  /** Reap and Close are called by one goroutine: neither starts while sockets are still being closed. */
  predicate ReaperAlone(s: State, steps: seq<Step>) {
    steps == [] ||
    var init, e := steps[..|steps| - 1], steps[|steps| - 1];
    ReaperAlone(s, init) && (StartsReap(Run(s, init), e) ==> Run(s, init).reaping == {})
  }

  lemma {:induction false} FewReaped(maxConns: int, steps: seq<Step>)
    requires ReaperAlone(Fresh(maxConns), steps)
    ensures |Run(Fresh(maxConns), steps).reaping| <= Fresh(maxConns).max
  {
    if steps != [] {
      var init, e := steps[..|steps| - 1], steps[|steps| - 1];
      var s := Run(Fresh(maxConns), init);
      FewReaped(maxConns, init);
      EveryRunKeeps(maxConns, init);
      if Enabled(s, e) {
        if StartsReap(s, e) {
          ReapSockets(s, e);
        } else {
          StepSockets(s, e);
        }
      }
    }
  }

  /** With a single reaper there are never more than twice the limit's sockets. */
  lemma TwiceTheLimit(maxConns: int, steps: seq<Step>)
    requires ReaperAlone(Fresh(maxConns), steps)
    ensures Sockets(Run(Fresh(maxConns), steps)) <= 2 * Fresh(maxConns).max
  {
    FewReaped(maxConns, steps);
    EveryRunKeeps(maxConns, steps);
  }

  // ------------------------------------------------------------ ... is attained

  /** `k` goroutines lease a new connection each. */
  function LeaseSteps(base: nat, k: nat): seq<Step> {
    if k == 0 then []
    else LeaseSteps(base, k - 1) + [Acquire(k - 1), Pick(k - 1, 0), DialOk(k - 1, base + k - 1)]
  }

  /** ... and give it back. */
  function ReturnSteps(k: nat): seq<Step> {
    if k == 0 then [] else ReturnSteps(k - 1) + [Release(k - 1, 0), Leave(k - 1)]
  }

  predicate Idling(s: State) {
    s.threads == map[] && s.tokens == 0 && s.idle == []
  }

  ghost predicate Leasing(s: State, from: nat, till: nat) {
    && (forall t :: t in s.threads <==> from <= t < till)
    && (forall t <- s.threads :: s.threads[t].Leased? && !s.threads[t].broken)
  }

  lemma LeasesOne(s: State, k: nat, conn: Conn)
    requires Leasing(s, 0, k) && s.tokens == k < s.max && s.idle == [] && conn !in s.dialled
    ensures var u := Run(s, [Acquire(k), Pick(k, 0), DialOk(k, conn)]);
      && Leasing(u, 0, k + 1) && u.tokens == k + 1 && u.idle == [] && u.max == s.max
      && u.reaping == s.reaping && u.dialled == s.dialled + {conn}
  {
    var a, b, c := Acquire(k), Pick(k, 0), DialOk(k, conn);
    assert [a, b, c][..2] == [a, b] && [a, b][..1] == [a] && [a][..0] == [];
    var s1 := Moved(s, k, Picking).(tokens := k + 1);
    var s2 := Moved(s1, k, Dialing);
    assert Run(s, [a]) == s1;
    assert Run(s, [a, b]) == s2;
    assert Run(s, [a, b, c]) == Moved(s2, k, Leased(conn, false)).(dialled := s.dialled + {conn});
  }

  /** `k` leases out, none of them of a connection numbered from `base` on when they began. */
  ghost predicate LeasedOut(s: State, u: State, base: nat, k: nat) {
    && Leasing(u, 0, k) && u.tokens == k && u.idle == [] && u.max == s.max
    && u.reaping == s.reaping && forall c <- u.dialled :: c < base + k
  }

  lemma LeasedOneMore(s: State, u: State, base: nat, k: nat)
    requires LeasedOut(s, u, base, k) && k < s.max
    ensures LeasedOut(s, Run(u, [Acquire(k), Pick(k, 0), DialOk(k, base + k)]), base, k + 1)
  {
    LeasesOne(u, k, base + k);
    hide Run, Leasing;
  }

  lemma {:induction false} LeasesAll(s: State, base: nat, k: nat)
    requires Idling(s) && k <= s.max && forall c <- s.dialled :: c < base
    ensures LeasedOut(s, Run(s, LeaseSteps(base, k)), base, k)
    ensures ReaperAlone(s, LeaseSteps(base, k))
  {
    hide Run, ReaperAlone, LeasedOut;
    if k == 0 {
      NoneLeased(s, base);
    } else {
      var steps := [Acquire(k - 1), Pick(k - 1, 0), DialOk(k - 1, base + k - 1)];
      LeasesAll(s, base, k - 1);
      RunConcat(s, LeaseSteps(base, k - 1), steps);
      AloneThen(s, LeaseSteps(base, k - 1), steps);
      LeasedOneMore(s, Run(s, LeaseSteps(base, k - 1)), base, k - 1);
    }
  }

  lemma NoneLeased(s: State, base: nat)
    requires Idling(s) && forall c <- s.dialled :: c < base
    ensures LeasedOut(s, Run(s, []), base, 0) && ReaperAlone(s, [])
  {}

  /** Steps that reap nothing may follow. */
  lemma {:induction false} AloneThen(s: State, a: seq<Step>, b: seq<Step>)
    requires ReaperAlone(s, a) && forall e <- b :: !e.Reap? && !e.Close?
    ensures ReaperAlone(s, a + b)
  {
    if b == [] {
      assert a + b == a;
    } else {
      AloneThen(s, a, b[..|b| - 1]);
      assert (a + b)[..|a + b| - 1] == a + b[..|b| - 1];
      assert b[|b| - 1] in b;
    }
  }

  /** All leases returned: connections on the stack since time 0. */
  ghost predicate Returned(s: State, n: nat, k: nat) {
    && Leasing(s, k, n) && s.tokens == n - k && s.reaping == {}
    && |s.idle| == k && forall ic <- s.idle :: ic.putAt == 0
  }

  lemma ReturnsOne(s: State, n: nat, k: nat)
    requires Returned(s, n, k) && k < n
    ensures var u := Run(s, [Release(k, 0), Leave(k)]);
      Returned(u, n, k + 1) && u.max == s.max && u.dialled == s.dialled
  {
    var a, b := Release(k, 0), Leave(k);
    assert [a, b][..1] == [a] && [a][..0] == [];
    var s1 := Moved(s, k, Leaving).(idle := s.idle + [IdleConn(s.threads[k].conn, 0)]);
    assert Run(s, [a]) == s1;
    assert Run(s, [a, b]) == s1.(threads := s1.threads - {k}, tokens := s1.tokens - 1);
  }

  ghost predicate ReturnedFrom(s: State, u: State, n: nat, k: nat) {
    Returned(u, n, k) && u.max == s.max && u.dialled == s.dialled
  }

  lemma {:induction false} ReturnsAll(s: State, n: nat, k: nat)
    requires Returned(s, n, 0) && k <= n
    ensures ReturnedFrom(s, Run(s, ReturnSteps(k)), n, k)
    ensures ReaperAlone(s, ReturnSteps(k))
  {
    hide Run, ReaperAlone, Returned;
    if k == 0 {
      NoneReturned(s);
    } else {
      var steps := [Release(k - 1, 0), Leave(k - 1)];
      ReturnsAll(s, n, k - 1);
      RunConcat(s, ReturnSteps(k - 1), steps);
      AloneThen(s, ReturnSteps(k - 1), steps);
      ReturnsOne(Run(s, ReturnSteps(k - 1)), n, k - 1);
    }
  }

  lemma NoneReturned(s: State)
    ensures Run(s, []) == s && ReaperAlone(s, [])
  {}

  lemma {:induction false} AllStale(idle: seq<IdleConn>, clock: nat -> int)
    requires forall i | 0 <= i < |idle| :: Stale(idle[i], clock(i))
    ensures Fit(idle, clock) == [] && Unfit(idle, clock) == idle
  {
    if idle != [] {
      AllStale(idle[..|idle| - 1], clock);
    }
  }

  lemma {:induction false} DistinctConns(idle: seq<IdleConn>)
    requires DistinctIdle(idle)
    ensures |Conns(idle)| == |idle|
  {
    if idle == [] {
      NoConns();
    } else {
      var rest, top := idle[..|idle| - 1], idle[|idle| - 1];
      Popped(idle);
      DistinctConns(rest);
      assert Conns(idle) == Conns(rest) + {top.conn};
    }
  }

  lemma NobodyLeft(s: State, n: nat)
    requires Returned(s, n, n)
    ensures s.threads == map[] && s.tokens == 0 && s.reaping == {} && |s.idle| == n
    ensures forall ic <- s.idle :: ic.putAt == 0
  {
    assert s.threads.Keys == {};
  }

  lemma ReapsAll(s: State, n: nat)
    requires Returned(s, n, n) && DistinctIdle(s.idle)
    ensures var u := Run(s, [Reap(LATE)]);
      Idling(u) && |u.reaping| == n && u.max == s.max && u.dialled == s.dialled
  {
    hide Returned, Fit, Unfit, Conns, Run, Leasing;
    NobodyLeft(s, n);
    ReapsEverything(s);
    DistinctConns(s.idle);
  }

  lemma RunOne(s: State, e: Step)
    ensures Run(s, [e]) == Taken(s, e)
  {
    hide Taken;
    assert [e][..0] == [];
  }

  lemma ReapsEverything(s: State)
    requires s.reaping == {} && forall ic <- s.idle :: ic.putAt == 0
    ensures Run(s, [Reap(LATE)]) == s.(idle := [], reaping := Conns(s.idle))
  {
    hide Fit, Unfit, Conns, Run;
    AllStale(s.idle, LATE);
    RunOne(s, Reap(LATE));
    assert {} + Conns(s.idle) == Conns(s.idle);
  }

  lemma ReapAlone(s: State, a: seq<Step>, clock: nat -> int)
    requires ReaperAlone(s, a) && Run(s, a).reaping == {}
    ensures ReaperAlone(s, a + [Reap(clock)])
  {
    assert (a + [Reap(clock)])[..|a|] == a;
  }

  lemma AllBusy(s: State, n: nat)
    requires Leasing(s, 0, n) && s.tokens == |s.threads| == n
    ensures |Busy(s.threads)| == n
  {
    assert Busy(s.threads) == s.threads.Keys;
  }

  const LATE: nat -> int := (k: nat) => IDLE_TIMEOUT + 1

  /** Lease the limit, return it all, let it go stale and be reaped, and lease the limit again. */
  function FullTurn(n: nat): seq<Step> {
    LeaseSteps(0, n) + ReturnSteps(n) + [Reap(LATE)] + LeaseSteps(n, n)
  }

  /** The first half: everything leased has gone to the reaper. */
  lemma HalfTurn(maxConns: int)
    ensures var n := Fresh(maxConns).max;
      var steps := LeaseSteps(0, n) + ReturnSteps(n) + [Reap(LATE)];
      var u := Run(Fresh(maxConns), steps);
      && ReaperAlone(Fresh(maxConns), steps)
      && Idling(u) && |u.reaping| == n && u.max == n && forall c <- u.dialled :: c < n
  {
    hide ReaperAlone, LeaseSteps, ReturnSteps, Run, Inv;
    var s := Fresh(maxConns);
    var n := s.max;
    LeasesAll(s, 0, n);
    var s1 := Run(s, LeaseSteps(0, n));
    ReturnsAll(s1, n, n);
    RunConcat(s, LeaseSteps(0, n), ReturnSteps(n));
    var s2 := Run(s1, ReturnSteps(n));
    EveryRunKeeps(maxConns, LeaseSteps(0, n) + ReturnSteps(n));
    IdleIsDistinct(s2);
    ReapsAll(s2, n);
    RunConcat(s, LeaseSteps(0, n) + ReturnSteps(n), [Reap(LATE)]);
    ReturnsReapNothing(n);
    AloneThen(s, LeaseSteps(0, n), ReturnSteps(n));
    ReapAlone(s, LeaseSteps(0, n) + ReturnSteps(n), LATE);
  }

  lemma IdleIsDistinct(s: State)
    requires Inv(s)
    ensures DistinctIdle(s.idle)
  {}

  lemma {:induction false} ReturnsReapNothing(k: nat)
    ensures forall e <- ReturnSteps(k) :: !e.Reap? && !e.Close?
  {
    if k > 0 { ReturnsReapNothing(k - 1); }
  }

  lemma {:induction false} LeasesReapNothing(base: nat, k: nat)
    ensures forall e <- LeaseSteps(base, k) :: !e.Reap? && !e.Close?
  {
    if k > 0 { LeasesReapNothing(base, k - 1); }
  }

  /** Twice the limit is attained, for every limit, with a single reaper. */
  lemma TwiceTheLimitIsAttained(maxConns: int)
    ensures var s, steps := Fresh(maxConns), FullTurn(Fresh(maxConns).max);
      ReaperAlone(s, steps) && Sockets(Run(s, steps)) == 2 * s.max && !NeverOver(maxConns, steps)
  {
    hide ReaperAlone, LeaseSteps, ReturnSteps, Run, Inv;
    var s := Fresh(maxConns);
    var n := s.max;
    var half := LeaseSteps(0, n) + ReturnSteps(n) + [Reap(LATE)];
    var steps := half + LeaseSteps(n, n);
    HalfTurn(maxConns);
    LeasesAll(Run(s, half), n, n);
    RunConcat(s, half, LeaseSteps(n, n));
    LeasesReapNothing(n, n);
    AloneThen(s, half, LeaseSteps(n, n));
    EveryRunKeeps(maxConns, steps);
    TokensAreThreads(Run(s, steps));
    AllBusy(Run(s, steps), n);
    assert steps[..|steps|] == steps;
  }

  lemma TokensAreThreads(s: State)
    requires Inv(s)
    ensures s.tokens == |s.threads|
  {}
}
