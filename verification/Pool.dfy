/** The connection pool (internal/nntp/pool.go) as a state machine: one step per critical section or
    blocking call, taken by any number of goroutines in any order. The semaphore bounds the tokens;
    that the sockets in use and the idle ones together stay below the limit is less obvious, because
    idle connections hold no token. It holds because a dial starts only in the step that sees the
    idle stack empty. */
module Pools {
  import opened SetSizes

  type Conn = nat
  type Thread = nat

  const IDLE_TIMEOUT := 120

  datatype IdleConn = IdleConn(conn: Conn, putAt: int)

  predicate Stale(ic: IdleConn, now: int) {
    now - ic.putAt > IDLE_TIMEOUT
  }

  /** Where a goroutine that holds a token stands. */
  datatype Place =
    | Picking                 // in the loop of Get
    | ClosingStale(conn: Conn)
    | Dialing
    | Leased(conn: Conn, broken: bool)
    | Discarding(conn: Conn)  // Release closing a broken connection
    | Leaving                 // about to return the token

  /** `dialled` are all connections ever dialled, `spoiled` those released as broken; `reaping` are
      being closed by Reap or Close, outside the lock and without a token. */
  datatype State = State(
    max: nat, tokens: nat, threads: map<Thread, Place>, idle: seq<IdleConn>, reaping: set<Conn>,
    dialled: set<Conn>, closed: set<Conn>, spoiled: set<Conn>)

  datatype Step =
    | Acquire(t: Thread)
    | Pick(t: Thread, now: int)
    | StaleClosed(t: Thread)
    | DialOk(t: Thread, conn: Conn)
    | DialFailed(t: Thread)
    | MarkBroken(t: Thread)
    | Release(t: Thread, now: int)
    | Discarded(t: Thread)
    | Leave(t: Thread)
    | Reap(clock: nat -> int)   // read anew for each connection
    | Close
    | ReapClosed(conn: Conn)

  /** NewPool: at least one connection. */
  function Fresh(maxConns: int): State {
    State(if maxConns < 1 then 1 else maxConns, 0, map[], [], {}, {}, {}, {})
  }

  /** A step is possible only for a goroutine that stands there; `DialOk` hands out a new socket. */
  predicate Enabled(s: State, e: Step) {
    match e
    case Acquire(t) => t !in s.threads && s.tokens < s.max
    case Pick(t, _) => t in s.threads && s.threads[t].Picking?
    case StaleClosed(t) => t in s.threads && s.threads[t].ClosingStale?
    case DialOk(t, conn) => t in s.threads && s.threads[t].Dialing? && conn !in s.dialled
    case DialFailed(t) => t in s.threads && s.threads[t].Dialing?
    case MarkBroken(t) => t in s.threads && s.threads[t].Leased?
    case Release(t, _) => t in s.threads && s.threads[t].Leased?
    case Discarded(t) => t in s.threads && s.threads[t].Discarding?
    case Leave(t) => t in s.threads && s.threads[t].Leaving?
    case Reap(_) => true
    case Close => true
    case ReapClosed(conn) => conn in s.reaping
  }

  function Fit(idle: seq<IdleConn>, clock: nat -> int): seq<IdleConn> {
    if idle == [] then []
    else
      var n := |idle| - 1;
      Fit(idle[..n], clock) + if Stale(idle[n], clock(n)) then [] else [idle[n]]
  }

  function Unfit(idle: seq<IdleConn>, clock: nat -> int): seq<IdleConn> {
    if idle == [] then []
    else
      var n := |idle| - 1;
      Unfit(idle[..n], clock) + if Stale(idle[n], clock(n)) then [idle[n]] else []
  }

  function Conns(idle: seq<IdleConn>): set<Conn> {
    set ic | ic in idle :: ic.conn
  }

  function Moved(s: State, t: Thread, p: Place): State {
    s.(threads := s.threads[t := p])
  }

  function Apply(s: State, e: Step): State
    requires Enabled(s, e)
  {
    match e
    case Acquire(t) => Moved(s, t, Picking).(tokens := s.tokens + 1)
    case Pick(t, now) =>
      if s.idle == [] then Moved(s, t, Dialing)
      else
        var top := s.idle[|s.idle| - 1];
        Moved(s, t, if Stale(top, now) then ClosingStale(top.conn) else Leased(top.conn, false))
          .(idle := s.idle[..|s.idle| - 1])
    case StaleClosed(t) => Moved(s, t, Picking).(closed := s.closed + {s.threads[t].conn})
    case DialOk(t, conn) => Moved(s, t, Leased(conn, false)).(dialled := s.dialled + {conn})
    case DialFailed(t) => Moved(s, t, Leaving)
    case MarkBroken(t) => Moved(s, t, Leased(s.threads[t].conn, true))
    case Release(t, now) =>
      var Leased(conn, broken) := s.threads[t];
      if broken then Moved(s, t, Discarding(conn)).(spoiled := s.spoiled + {conn})
      else Moved(s, t, Leaving).(idle := s.idle + [IdleConn(conn, now)])
    case Discarded(t) => Moved(s, t, Leaving).(closed := s.closed + {s.threads[t].conn})
    case Leave(t) => s.(threads := s.threads - {t}, tokens := if s.tokens > 0 then s.tokens - 1 else 0)
    case Reap(clock) => s.(idle := Fit(s.idle, clock), reaping := s.reaping + Conns(Unfit(s.idle, clock)))
    case Close => s.(idle := [], reaping := s.reaping + Conns(s.idle))
    case ReapClosed(conn) => s.(reaping := s.reaping - {conn}, closed := s.closed + {conn})
  }

  function Taken(s: State, e: Step): State {
    if Enabled(s, e) then Apply(s, e) else s
  }

  /** A run: at any moment any goroutine may take any step that is possible for it. */
  function Run(s: State, steps: seq<Step>): State {
    if steps == [] then s
    else
      Taken(Run(s, steps[..|steps| - 1]), steps[|steps| - 1])
  }

  // --------------------------------------------------------------- invariant

  predicate Holds(p: Place) {
    p.ClosingStale? || p.Leased? || p.Discarding?
  }

  predicate Counts(p: Place) {
    Holds(p) || p.Dialing?
  }

  function HeldBy(threads: map<Thread, Place>): set<Conn> {
    set t | t in threads && Holds(threads[t]) :: threads[t].conn
  }

  /** The goroutines with a connection, or dialling one. */
  function Busy(threads: map<Thread, Place>): set<Thread> {
    set t | t in threads && Counts(threads[t])
  }

  ghost predicate OneEach(threads: map<Thread, Place>) {
    forall t, u | t in threads && u in threads && Holds(threads[t]) && Holds(threads[u])
      && threads[t].conn == threads[u].conn :: t == u
  }

  ghost predicate DistinctIdle(idle: seq<IdleConn>) {
    forall i, j | 0 <= i < j < |idle| :: idle[i].conn != idle[j].conn
  }

  /** Every open connection is in exactly one place. */
  ghost predicate Placed(s: State) {
    && OneEach(s.threads) && DistinctIdle(s.idle)
    && HeldBy(s.threads) !! Conns(s.idle) !! s.reaping !! s.closed
    && s.dialled == HeldBy(s.threads) + Conns(s.idle) + s.reaping + s.closed
  }

  /** A connection released as broken is being closed, or closed. */
  ghost predicate Quarantined(s: State) {
    && s.spoiled <= s.dialled
    && s.spoiled !! Conns(s.idle)
    && forall t <- s.threads :: s.threads[t].Leased? || s.threads[t].ClosingStale? ==> s.threads[t].conn !in s.spoiled
  }

  ghost predicate Inv(s: State) {
    && s.tokens == |s.threads| && s.tokens <= s.max
    && |Busy(s.threads)| + |s.idle| <= s.max
    && Placed(s)
    && Quarantined(s)
  }

  // -------------------------------------------------------- map bookkeeping

  lemma BusyMoved(threads: map<Thread, Place>, t: Thread, p: Place)
    requires t in threads
    ensures |threads[t := p]| == |threads|
    ensures |Busy(threads[t := p])| == |Busy(threads)|
      + (if Counts(p) then 1 else 0) - (if Counts(threads[t]) then 1 else 0)
  {
    assert Busy(threads) - {t} == Busy(threads[t := p]) - {t};
    CountsMoved(Busy(threads), Busy(threads[t := p]), t);
    CountsMoved(threads.Keys, threads[t := p].Keys, t);
  }

  lemma CountsMoved<T>(a: set<T>, b: set<T>, t: T)
    requires a - {t} == b - {t}
    ensures |b| == |a| + (if t in b then 1 else 0) - (if t in a then 1 else 0)
  {
    assert |a - {t}| == |a| - (if t in a then 1 else 0) by { if t !in a { assert a - {t} == a; } }
    assert |b - {t}| == |b| - (if t in b then 1 else 0) by { if t !in b { assert b - {t} == b; } }
  }

  lemma BusyAcquired(threads: map<Thread, Place>, t: Thread)
    requires t !in threads
    ensures |threads[t := Picking]| == |threads| + 1
    ensures Busy(threads[t := Picking]) == Busy(threads)
    ensures HeldBy(threads[t := Picking]) == HeldBy(threads)
  {
    assert threads[t := Picking].Keys == threads.Keys + {t};
  }

  lemma BusyLeft(threads: map<Thread, Place>, t: Thread)
    requires t in threads && !Counts(threads[t])
    ensures |threads - {t}| == |threads| - 1
    ensures Busy(threads - {t}) == Busy(threads)
    ensures HeldBy(threads - {t}) == HeldBy(threads)
  {
    var rest := threads - {t};
    assert rest.Keys == threads.Keys - {t};
    assert |rest.Keys| == |threads.Keys| - 1;
    forall c | c in HeldBy(threads) ensures c in HeldBy(rest) {
      var u :| u in threads && Holds(threads[u]) && threads[u].conn == c;
      assert u in rest && Holds(rest[u]);
    }
  }

  lemma HeldMoved(threads: map<Thread, Place>, t: Thread, p: Place)
    requires t in threads && OneEach(threads)
    ensures HeldBy(threads[t := p])
         == HeldBy(threads) - (if Holds(threads[t]) then {threads[t].conn} else {})
            + (if Holds(p) then {p.conn} else {})
    ensures !Holds(p) || p.conn !in HeldBy(threads) || (Holds(threads[t]) && p.conn == threads[t].conn)
      ==> OneEach(threads[t := p])
  {
    var after := threads[t := p];
    forall c
      ensures c in HeldBy(after) <==>
        (c in HeldBy(threads) && !(Holds(threads[t]) && c == threads[t].conn)) || (Holds(p) && c == p.conn)
    {
      if c in HeldBy(threads) && !(Holds(threads[t]) && c == threads[t].conn) {
        var u :| u in threads && Holds(threads[u]) && threads[u].conn == c;
        assert u in after && Holds(after[u]) && after[u].conn == c;
      }
      if Holds(p) && c == p.conn {
        assert t in after && Holds(after[t]) && after[t].conn == c;
      }
    }
    forall u | u in threads && Holds(threads[u]) ensures threads[u].conn in HeldBy(threads) {}
  }

  lemma AllButOneBusy(threads: map<Thread, Place>, t: Thread)
    requires t in threads && !Counts(threads[t])
    ensures |Busy(threads)| < |threads|
  {
    assert Busy(threads) <= threads.Keys - {t};
    SubsetSize(Busy(threads), threads.Keys - {t});
    assert |threads.Keys - {t}| == |threads.Keys| - 1;
  }

  lemma Popped(idle: seq<IdleConn>)
    requires idle != [] && DistinctIdle(idle)
    ensures var rest, top := idle[..|idle| - 1], idle[|idle| - 1];
      DistinctIdle(rest) && Conns(rest) == Conns(idle) - {top.conn} && top.conn in Conns(idle)
  {
    var rest, top := idle[..|idle| - 1], idle[|idle| - 1];
    forall c ensures c in Conns(rest) <==> c in Conns(idle) && c != top.conn {
      if c in Conns(idle) && c != top.conn {
        var ic :| ic in idle && ic.conn == c;
        assert ic in rest;
      }
      if c in Conns(rest) {
        var ic :| ic in rest && ic.conn == c;
        assert ic in idle;
      }
    }
    assert top in idle;
  }

  lemma Pushed(idle: seq<IdleConn>, ic: IdleConn)
    ensures Conns(idle + [ic]) == Conns(idle) + {ic.conn}
    ensures DistinctIdle(idle) && ic.conn !in Conns(idle) ==> DistinctIdle(idle + [ic])
  {
    forall c ensures c in Conns(idle + [ic]) <==> c in Conns(idle) || c == ic.conn {
      if c in Conns(idle) {
        var k :| k in idle && k.conn == c;
        assert k in idle + [ic];
      }
      assert ic in idle + [ic];
    }
    forall i | 0 <= i < |idle| ensures idle[i].conn in Conns(idle) { assert idle[i] in idle; }
  }

  /** Sorting the stale from the fit loses and duplicates nothing. */
  lemma {:induction false} Sorted(idle: seq<IdleConn>, clock: nat -> int)
    requires DistinctIdle(idle)
    ensures DistinctIdle(Fit(idle, clock)) && |Fit(idle, clock)| <= |idle|
    ensures Conns(Fit(idle, clock)) !! Conns(Unfit(idle, clock))
    ensures Conns(Fit(idle, clock)) + Conns(Unfit(idle, clock)) == Conns(idle)
  {
    if idle != [] {
      var init, top := idle[..|idle| - 1], idle[|idle| - 1];
      Popped(idle);
      Sorted(init, clock);
      Pushed(Fit(init, clock), top);
      Pushed(Unfit(init, clock), top);
    }
  }

  // ------------------------------------------------------------ preservation

  lemma PickKeeps(s: State, t: Thread, now: int)
    requires Inv(s) && Enabled(s, Pick(t, now))
    ensures Inv(Apply(s, Pick(t, now)))
  {
    if s.idle == [] {
      BusyMoved(s.threads, t, Dialing);
      HeldMoved(s.threads, t, Dialing);
      AllButOneBusy(s.threads, t);
    } else {
      var top := s.idle[|s.idle| - 1];
      var p := if Stale(top, now) then ClosingStale(top.conn) else Leased(top.conn, false);
      Popped(s.idle);
      BusyMoved(s.threads, t, p);
      HeldMoved(s.threads, t, p);
    }
  }

  lemma ReleaseKeeps(s: State, t: Thread, now: int)
    requires Inv(s) && Enabled(s, Release(t, now))
    ensures Inv(Apply(s, Release(t, now)))
  {
    var Leased(conn, broken) := s.threads[t];
    var p := if broken then Discarding(conn) else Leaving;
    BusyMoved(s.threads, t, p);
    HeldMoved(s.threads, t, p);
    assert conn in HeldBy(s.threads);
    Pushed(s.idle, IdleConn(conn, now));
  }

  lemma MoveKeeps(s: State, e: Step)
    requires Inv(s) && Enabled(s, e)
    requires e.StaleClosed? || e.DialOk? || e.DialFailed? || e.MarkBroken? || e.Discarded?
    ensures Inv(Apply(s, e))
  {
    var p := Apply(s, e).threads[e.t];
    BusyMoved(s.threads, e.t, p);
    HeldMoved(s.threads, e.t, p);
    if Holds(s.threads[e.t]) {
      assert s.threads[e.t].conn in HeldBy(s.threads);
    }
  }

  lemma AcquireKeeps(s: State, t: Thread)
    requires Inv(s) && Enabled(s, Acquire(t))
    ensures Inv(Apply(s, Acquire(t)))
  {
    BusyAcquired(s.threads, t);
  }

  lemma LeaveKeeps(s: State, t: Thread)
    requires Inv(s) && Enabled(s, Leave(t))
    ensures Inv(Apply(s, Leave(t)))
  {
    BusyLeft(s.threads, t);
  }

  lemma NoConns()
    ensures Conns([]) == {}
  {}

  lemma ReapKeeps(s: State, clock: nat -> int)
    requires Inv(s)
    ensures Inv(Apply(s, Reap(clock)))
  {
    hide HeldBy, Busy, Conns, Fit, Unfit;
    Sorted(s.idle, clock);
    SetsMoved(HeldBy(s.threads), Conns(s.idle), s.reaping, s.closed, Conns(Fit(s.idle, clock)),
        Conns(Unfit(s.idle, clock)));
    assert Conns(Fit(s.idle, clock)) <= Conns(s.idle);
  }

  lemma ClosePlaced(s: State)
    requires Placed(s)
    ensures Placed(s.(idle := [], reaping := s.reaping + Conns(s.idle)))
  {
    hide HeldBy, Conns;
    NoConns();
    SetsMoved(HeldBy(s.threads), Conns(s.idle), s.reaping, s.closed, {}, Conns(s.idle));
  }

  lemma CloseKeeps(s: State)
    requires Inv(s)
    ensures Inv(Apply(s, Close))
  {
    hide HeldBy, Busy, Placed;
    ClosePlaced(s);
    NoConns();
  }

  lemma ReapClosedKeeps(s: State, conn: Conn)
    requires Inv(s) && Enabled(s, ReapClosed(conn))
    ensures Inv(Apply(s, ReapClosed(conn)))
  {
    hide HeldBy, Busy, Conns;
    Closed(HeldBy(s.threads), Conns(s.idle), s.reaping, s.closed, conn);
  }

  lemma Closed(held: set<Conn>, idle: set<Conn>, reaping: set<Conn>, closed: set<Conn>, conn: Conn)
    requires held !! idle !! reaping !! closed && conn in reaping
    ensures held !! idle !! reaping - {conn} !! closed + {conn}
    ensures held + idle + reaping + closed == held + idle + (reaping - {conn}) + (closed + {conn})
  {}

  lemma SetsMoved(held: set<Conn>, idle: set<Conn>, reaping: set<Conn>, closed: set<Conn>, fit: set<Conn>,
      unfit: set<Conn>)
    requires held !! idle !! reaping !! closed && fit !! unfit && fit + unfit == idle
    ensures held !! fit !! reaping + unfit !! closed
    ensures held + idle + reaping + closed == held + fit + (reaping + unfit) + closed
  {}

  lemma StepKeeps(s: State, e: Step)
    requires Inv(s) && Enabled(s, e)
    ensures Inv(Apply(s, e))
  {
    hide Inv, Apply;
    match e
    case Acquire(t) => AcquireKeeps(s, t);
    case Pick(t, now) => PickKeeps(s, t, now);
    case Release(t, now) => ReleaseKeeps(s, t, now);
    case Leave(t) => LeaveKeeps(s, t);
    case Reap(clock) => ReapKeeps(s, clock);
    case Close => CloseKeeps(s);
    case ReapClosed(conn) => ReapClosedKeeps(s, conn);
    case _ => MoveKeeps(s, e);
  }

  lemma {:induction false} EveryRunKeeps(maxConns: int, steps: seq<Step>)
    ensures var s := Run(Fresh(maxConns), steps); Inv(s) && s.max == Fresh(maxConns).max
  {
    if steps == [] {
      var s := Fresh(maxConns);
      assert HeldBy(s.threads) == {} && Busy(s.threads) == {} && Conns(s.idle) == {};
    } else {
      hide Inv;
      var before, e := Run(Fresh(maxConns), steps[..|steps| - 1]), steps[|steps| - 1];
      EveryRunKeeps(maxConns, steps[..|steps| - 1]);
      if Enabled(before, e) {
        StepKeeps(before, e);
      }
    }
  }

  // ------------------------------------------------------------ main results

  /** The connections of a run that are open and not being closed by the reaper. */
  ghost function InUse(s: State): set<Conn> {
    HeldBy(s.threads) + Conns(s.idle)
  }

  /** The ceiling: leased, dialling and idle connections together never exceed the limit, in any
      interleaving; one token for each goroutine between acquiring and returning it. */
  lemma CeilingHolds(maxConns: int, steps: seq<Step>)
    ensures var s := Run(Fresh(maxConns), steps);
      var limit := if maxConns >= 1 then maxConns else 1;
      && s.tokens == |s.threads| <= limit
      && |Busy(s.threads)| + |s.idle| <= limit
      && |InUse(s)| <= limit
  {
    var s := Run(Fresh(maxConns), steps);
    EveryRunKeeps(maxConns, steps);
    HeldSize(s.threads);
    IdleSize(s.idle);
    assert |HeldBy(s.threads) + Conns(s.idle)| <= |HeldBy(s.threads)| + |Conns(s.idle)|;
  }

  lemma OneLess(threads: map<Thread, Place>, t: Thread)
    requires t in threads
    ensures var rest, more := threads - {t}, if Holds(threads[t]) then {threads[t].conn} else {};
      && |rest| == |threads| - 1
      && Busy(threads) == Busy(rest) + (if Counts(threads[t]) then {t} else {}) && t !in Busy(rest)
      && HeldBy(threads) <= HeldBy(rest) + more
  {
    var rest := threads - {t};
    assert rest.Keys == threads.Keys - {t};
    assert |rest.Keys| == |threads.Keys| - 1;
    forall c | c in HeldBy(threads) ensures c in HeldBy(rest) || (Holds(threads[t]) && c == threads[t].conn) {
      var u :| u in threads && Holds(threads[u]) && threads[u].conn == c;
      assert u == t || (u in rest && Holds(rest[u]));
    }
  }

  lemma {:induction false} HeldSize(threads: map<Thread, Place>)
    ensures |HeldBy(threads)| <= |Busy(threads)|
    decreases |threads|
  {
    if t :| t in threads {
      OneLess(threads, t);
      HeldSize(threads - {t});
      SubsetSize(HeldBy(threads), HeldBy(threads - {t}) + (if Holds(threads[t]) then {threads[t].conn} else {}));
    } else {
      assert HeldBy(threads) == {};
    }
  }

  lemma {:induction false} IdleSize(idle: seq<IdleConn>)
    ensures |Conns(idle)| <= |idle|
  {
    if idle == [] {
      assert Conns(idle) == {};
    } else {
      var rest, top := idle[..|idle| - 1], idle[|idle| - 1];
      IdleSize(rest);
      assert idle == rest + [top];
      Pushed(rest, top);
    }
  }

  /** Every connection ever dialled is in exactly one place: with one goroutine, in one idle slot, being
      closed by the reaper, or closed. */
  lemma EachInOnePlace(maxConns: int, steps: seq<Step>, c: Conn)
    requires c in Run(Fresh(maxConns), steps).dialled
    ensures var s := Run(Fresh(maxConns), steps);
      var places := (if c in HeldBy(s.threads) then 1 else 0) + (if c in Conns(s.idle) then 1 else 0)
                  + (if c in s.reaping then 1 else 0) + (if c in s.closed then 1 else 0);
      && places == 1
      && (forall t, u | t in s.threads && u in s.threads && Holds(s.threads[t]) && Holds(s.threads[u])
            && s.threads[t].conn == c && s.threads[u].conn == c :: t == u)
      && (forall i, j | 0 <= i < j < |s.idle| :: s.idle[i].conn != c || s.idle[j].conn != c)
  {
    EveryRunKeeps(maxConns, steps);
  }

  lemma {:induction false} SpoiledGrows(s: State, steps: seq<Step>)
    ensures s.spoiled <= Run(s, steps).spoiled
  {
    if steps != [] {
      SpoiledGrows(s, steps[..|steps| - 1]);
    }
  }

  lemma {:induction false} RunConcat(s: State, a: seq<Step>, b: seq<Step>)
    ensures Run(s, a + b) == Run(Run(s, a), b)
  {
    hide Enabled, Apply;
    if b == [] {
      assert a + b == a;
    } else {
      RunConcat(s, a, b[..|b| - 1]);
      assert (a + b)[..|a + b| - 1] == a + b[..|b| - 1];
    }
  }

  /** A connection released as broken is never idle and never leased again, however the run goes on. */
  lemma BrokenNeverReturns(maxConns: int, steps: seq<Step>, t: Thread, now: int, later: seq<Step>)
    requires var s := Run(Fresh(maxConns), steps);
      t in s.threads && s.threads[t].Leased? && s.threads[t].broken
    ensures var c := Run(Fresh(maxConns), steps).threads[t].conn;
      var s := Run(Fresh(maxConns), steps + [Release(t, now)] + later);
      && c !in Conns(s.idle)
      && forall u <- s.threads :: s.threads[u].Leased? ==> s.threads[u].conn != c
  {
    var s := Run(Fresh(maxConns), steps);
    var released := steps + [Release(t, now)];
    assert released[..|steps|] == steps;
    RunConcat(Fresh(maxConns), released, later);
    SpoiledGrows(Run(Fresh(maxConns), released), later);
    EveryRunKeeps(maxConns, released + later);
  }

  /** Nothing leaks: when no goroutine is inside the pool, every connection is idle, with the reaper, or
      closed, and all tokens are back. */
  lemma NothingLeaks(maxConns: int, steps: seq<Step>)
    requires Run(Fresh(maxConns), steps).threads == map[]
    ensures var s := Run(Fresh(maxConns), steps);
      s.tokens == 0 && s.dialled == Conns(s.idle) + s.reaping + s.closed
  {
    EveryRunKeeps(maxConns, steps);
    assert HeldBy(map[]) == {};
  }
}
