/** The pool's code on its own data: a slice used as a stack and compacted in place, a semaphore, and
    leases that may be released once. Each method is a run of steps of the state machine. */
module PoolObjects {
  import opened Pools
  import opened Orders

  datatype Dialled = Connected(conn: Conn) | Refused

  /** A leased connection; `pool` is nil once it has been released. */
  class Lease {
    const client: Conn
    var pool: Pool?
    var broken: bool

    constructor (client: Conn, pool: Pool)
      ensures this.client == client && this.pool == pool && !broken
    {
      this.client, this.pool, broken := client, pool, false;
    }

    method MarkBroken()
      modifies this`broken
      ensures broken
    {
      broken := true;
    }

    /** Gives the connection back, or closes it when it is broken. A second call does nothing. */
    method Release(now: int, ghost s: State, ghost t: Thread) returns (ghost steps: seq<Step>)
      requires pool != null ==>
        && pool.Valid() && pool.Matches(s) && Inv(s)
        && t in s.threads && s.threads[t] == Leased(client, broken)
      modifies this`pool, if pool == null then {} else {pool, pool.slots}
      ensures pool == null
      ensures old(pool) == null ==> steps == []
      ensures old(pool) != null ==>
        && old(pool).Valid() && old(pool).Matches(Run(s, steps))
        && old(pool).Idle() == old(pool.Idle()) + (if broken then [] else [IdleConn(client, now)])
        && old(pool).tokens == old(pool.tokens) - 1
        && t !in Run(s, steps).threads
        && (client in Run(s, steps).closed <==> broken)
    {
      if pool == null {
        return [];
      }
      var p := pool;
      pool := null;
      RunsOut(s, t, now);
      if broken {
        steps := [Step.Release(t, now), Discarded(t), Leave(t)];
        p.tokens := p.tokens - 1;
        return;
      }
      steps := [Step.Release(t, now), Leave(t)];
      p.Push(IdleConn(client, now));
      p.tokens := p.tokens - 1;
    }
  }

  class Pool {
    const max: nat
    var tokens: nat              // in the semaphore channel
    var slots: array<IdleConn>   // the backing array of `idle`
    var len: nat

    ghost predicate Valid()
      reads this
    {
      len <= slots.Length && tokens <= max
    }

    ghost function Idle(): seq<IdleConn>
      reads this, slots
      requires Valid()
    {
      slots[..len]
    }

    ghost predicate Matches(s: State)
      reads this, slots
      requires Valid()
    {
      s.max == max && s.tokens == tokens && s.idle == Idle()
    }

    constructor (maxConns: int)
      ensures Valid() && fresh(slots) && Matches(Fresh(maxConns))
      ensures max == if maxConns >= 1 then maxConns else 1
    {
      max := if maxConns < 1 then 1 else maxConns;
      tokens, len := 0, 0;
      slots := new IdleConn[0];
    }

    /** append: into spare capacity, or into a larger copy. */
    method Push(ic: IdleConn)
      requires Valid()
      modifies this`slots, this`len, slots
      ensures Valid() && Idle() == old(Idle()) + [ic]
      ensures slots == old(slots) || fresh(slots)
    {
      if len == slots.Length {
        var bigger := new IdleConn[2 * len + 1](_ => ic);
        for i := 0 to len
          modifies bigger
          invariant bigger[..i] == slots[..i]
        {
          bigger[i] := slots[i];
        }
        slots := bigger;
      }
      slots[len] := ic;
      len := len + 1;
    }

    /** Reap under the lock: `keep := p.idle[:0]` compacts the slice in its own backing array. */
    method Reap(clock: nat -> int) returns (stale: seq<IdleConn>)
      requires Valid()
      modifies this`len, slots
      ensures Valid() && Idle() == Fit(old(Idle()), clock) && stale == Unfit(old(Idle()), clock)
      ensures var idle := old(Idle());
        && InOrder(Idle(), IdleUpTo(idle, clock, 120))
        && InOrder(stale, IdleOver(idle, clock, 120))
    {
      hide Fit, Unfit, InOrder, IdleUpTo, IdleOver;
      NothingSorted(clock);
      stale := [];
      var keep := 0;
      ghost var before := Idle();
      for i := 0 to len
        modifies slots
        invariant keep <= i
        invariant slots[..keep] == Fit(before[..i], clock) && stale == Unfit(before[..i], clock)
        invariant forall j | i <= j < len :: slots[j] == before[j]
      {
        var ic := slots[i];
        OneMore(before, i, clock);
        if Stale(ic, clock(i)) {
          stale := stale + [ic];
        } else {
          ghost var kept := slots[..keep];
          slots[keep] := ic;
          keep := keep + 1;
          assert slots[..keep] == kept + [ic];
        }
      }
      assert before[..|before|] == before;
      FitIs(before, clock);
      len := keep;
    }

    method Close() returns (idle: seq<IdleConn>)
      requires Valid()
      modifies this`slots, this`len
      ensures Valid() && Idle() == [] && idle == old(Idle())
    {
      idle := slots[..len];
      slots, len := new IdleConn[0], 0;
    }

    /** The loop of Get: stale connections are popped and closed, the first fresh one is taken. */
    method Pop(clock: nat -> int, ghost s: State, ghost t: Thread)
      returns (found: bool, conn: Conn, ghost steps: seq<Step>)
      requires Valid() && Matches(s) && Stands(s, t, Picking)
      modifies this`len
      ensures Valid() && Matches(Run(s, steps)) && Run(s, steps).dialled == s.dialled
      ensures var idle, m := old(Idle()), StaleOnTop(old(Idle()), clock, 0);
        && found == (m < |idle|)
        && (found ==> conn == idle[|idle| - 1 - m].conn && Idle() == idle[..|idle| - 1 - m])
        && (!found ==> Idle() == [])
        && FirstFresh(idle, clock, 0, m)
      ensures Stands(Run(s, steps), t, if found then Leased(conn, false) else Picking)
    {
      hide Inv, Run, Taken;
      NoSteps(s);
      StaleOnTopIs(Idle(), clock, 0);
      hide FirstFresh;
      found, conn, steps := false, 0, [];
      ghost var idle := Idle();
      var k := 0;
      while len > 0
        invariant Valid() && Matches(Run(s, steps)) && k + len == |idle| && Idle() == idle[..len]
        invariant Stands(Run(s, steps), t, Picking) && Run(s, steps).dialled == s.dialled
        invariant StaleOnTop(idle, clock, 0) == k + StaleOnTop(Idle(), clock, k)
      {
        var ic := slots[len - 1];
        PickedTop(s, steps, t, clock(k));
        assert Idle()[..len - 1] == idle[..len - 1] == slots[..len - 1];
        len := len - 1;
        if Stale(ic, clock(k)) {
          steps := steps + [Pick(t, clock(k)), StaleClosed(t)];
          k := k + 1;
          continue;
        }
        steps := steps + [Pick(t, clock(k))];
        return true, ic.conn, steps;
      }
    }

    /** The end of Get: with the stack empty a new connection is leased, or the token given back. */
    method Dial(dialled: Dialled, ghost s: State, ghost before: seq<Step>, ghost t: Thread)
      returns (lease: Lease?, ghost steps: seq<Step>)
      requires Valid() && Matches(Run(s, before)) && Stands(Run(s, before), t, Picking)
      requires Idle() == [] && tokens > 0
      requires dialled.Connected? ==> dialled.conn !in Run(s, before).dialled
      modifies this`tokens
      ensures Valid() && Matches(Run(s, steps)) && Idle() == []
      ensures dialled.Connected? ==>
        && lease != null && fresh(lease) && lease.client == dialled.conn && lease.pool == this && !lease.broken
        && tokens == old(tokens) && Stands(Run(s, steps), t, Leased(dialled.conn, false))
      ensures dialled.Refused? ==> lease == null && tokens == old(tokens) - 1 && t !in Run(s, steps).threads
    {
      hide Inv, Run, Taken;
      DialledOrNot(s, before, t, dialled);
      match dialled {
        case Refused =>
          steps := before + [Pick(t, 0), DialFailed(t), Leave(t)];
          tokens := tokens - 1;
          lease := null;
        case Connected(dial) =>
          steps := before + [Pick(t, 0), DialOk(t, dial)];
          lease := new Lease(dial, this);
      }
    }

    /** A lease: a token first, then the most recently used idle connection that is not stale, then a
        new one. Without a token the caller waits, until its context is done. */
    method Get(cancelled: bool, clock: nat -> int, dialled: Dialled, ghost s: State, ghost t: Thread)
      returns (lease: Lease?, ghost steps: seq<Step>)
      requires Valid() && Matches(s) && Inv(s) && t !in s.threads
      requires cancelled || tokens < max
      requires dialled.Connected? ==> dialled.conn !in s.dialled
      modifies this`tokens, this`len
      ensures Valid() && Matches(Run(s, steps))
      ensures cancelled ==> lease == null && steps == [] && Idle() == old(Idle())
      ensures !cancelled ==>
        var idle, m := old(Idle()), StaleOnTop(old(Idle()), clock, 0);
        if m < |idle| then
          && lease != null && lease.client == idle[|idle| - 1 - m].conn && Idle() == idle[..|idle| - 1 - m]
          && Run(s, steps).dialled == s.dialled
        else
          && Idle() == []
          && (dialled.Connected? ==> lease != null && lease.client == dialled.conn)
          && (dialled.Refused? ==> lease == null)
      ensures !cancelled ==> FirstFresh(old(Idle()), clock, 0, StaleOnTop(old(Idle()), clock, 0))
      ensures lease != null ==>
        && tokens == old(tokens) + 1
        && fresh(lease) && lease.pool == this && !lease.broken
        && Stands(Run(s, steps), t, Leased(lease.client, false))
      ensures lease == null ==> t !in Run(s, steps).threads && tokens == old(tokens)
    {
      StaleOnTopIs(Idle(), clock, 0);
      hide Inv, Run, Taken, StaleOnTop, FirstFresh;
      if cancelled {
        NoSteps(s);
        return null, [];
      }
      tokens := tokens + 1;
      Acquired(s, t);
      ghost var s1 := Run(s, [Acquire(t)]);
      var found, conn;
      found, conn, steps := Pop(clock, s1, t);
      RunConcat(s, [Acquire(t)], steps);
      steps := [Acquire(t)] + steps;
      if found {
        lease := new Lease(conn, this);
        return;
      }
      lease, steps := Dial(dialled, s, steps, t);
    }
  }

  lemma NothingSorted(clock: nat -> int)
    ensures Fit([], clock) == [] && Unfit([], clock) == []
  {}

  /** The connections that, each at the moment it is looked at, have been idle for `limit` seconds at most. */
  ghost function IdleUpTo(idle: seq<IdleConn>, clock: nat -> int, limit: int): map<int, IdleConn> {
    map i | 0 <= i < |idle| && clock(i) - idle[i].putAt <= limit :: idle[i]
  }

  ghost function IdleOver(idle: seq<IdleConn>, clock: nat -> int, limit: int): map<int, IdleConn> {
    map i | 0 <= i < |idle| && clock(i) - idle[i].putAt > limit :: idle[i]
  }

  lemma OneMoreIdle(idle: seq<IdleConn>, clock: nat -> int, limit: int)
    requires idle != []
    ensures var n := |idle| - 1;
      var f, u := IdleUpTo(idle[..n], clock, limit), IdleOver(idle[..n], clock, limit);
      && (forall i <- f :: i < n) && (forall i <- u :: i < n)
      && IdleUpTo(idle, clock, limit) == (if clock(n) - idle[n].putAt <= limit then f[n := idle[n]] else f)
      && IdleOver(idle, clock, limit) == if clock(n) - idle[n].putAt > limit then u[n := idle[n]] else u
  {
    var n := |idle| - 1;
    assert forall i | 0 <= i < n :: idle[..n][i] == idle[i];
  }

  lemma NothingIdle(clock: nat -> int)
    ensures InOrder([], IdleUpTo([], clock, 120)) && InOrder([], IdleOver([], clock, 120))
  {
    NothingInOrder(IdleUpTo([], clock, 120));
    NothingInOrder(IdleOver([], clock, 120));
  }

  /** Which connections Reap keeps and which it hands back, in order. */
  lemma {:induction false} FitIs(idle: seq<IdleConn>, clock: nat -> int)
    ensures InOrder(Fit(idle, clock), IdleUpTo(idle, clock, 120))
    ensures InOrder(Unfit(idle, clock), IdleOver(idle, clock, 120))
  {
    hide InOrder, IdleUpTo, IdleOver;
    if idle == [] {
      NothingIdle(clock);
    } else {
      var n := |idle| - 1;
      FitIs(idle[..n], clock);
      OneMoreIdle(idle, clock, 120);
      if Stale(idle[n], clock(n)) {
        var u := IdleOver(idle[..n], clock, 120);
        OneMoreInOrder(Unfit(idle[..n], clock), u, n, idle[n], u[n := idle[n]]);
        assert Fit(idle[..n], clock) + [] == Fit(idle[..n], clock);
      } else {
        var f := IdleUpTo(idle[..n], clock, 120);
        OneMoreInOrder(Fit(idle[..n], clock), f, n, idle[n], f[n := idle[n]]);
        assert Unfit(idle[..n], clock) + [] == Unfit(idle[..n], clock);
      }
    }
  }

  lemma OneMore(idle: seq<IdleConn>, i: nat, clock: nat -> int)
    requires i < |idle|
    ensures Fit(idle[..i + 1], clock)
         == if Stale(idle[i], clock(i)) then Fit(idle[..i], clock) else Fit(idle[..i], clock) + [idle[i]]
    ensures Unfit(idle[..i + 1], clock)
         == if Stale(idle[i], clock(i)) then Unfit(idle[..i], clock) + [idle[i]] else Unfit(idle[..i], clock)
  {
    assert idle[..i + 1][..i] == idle[..i];
  }

  /** How long connection `j` from the top has been idle when it is looked at, the clock being read for the
      `k + j`-th time. */
  function IdleFor(idle: seq<IdleConn>, clock: nat -> int, k: nat, j: nat): int
    requires j < |idle|
  {
    clock(k + j) - idle[|idle| - 1 - j].putAt
  }

  /** Looked at from the top, `m` connections have been idle for over two minutes and the next one has not. */
  ghost predicate FirstFresh(idle: seq<IdleConn>, clock: nat -> int, k: nat, m: nat) {
    && m <= |idle|
    && (forall j | 0 <= j < m :: IdleFor(idle, clock, k, j) > 120)
    && (m < |idle| ==> IdleFor(idle, clock, k, m) <= 120)
  }

  lemma OneDown(idle: seq<IdleConn>, clock: nat -> int, k: nat, m: nat)
    requires idle != [] && IdleFor(idle, clock, k, 0) > 120
    requires FirstFresh(idle[..|idle| - 1], clock, k + 1, m)
    ensures FirstFresh(idle, clock, k, 1 + m)
  {
    var rest := idle[..|idle| - 1];
    forall j: nat | 1 <= j < |idle| ensures IdleFor(idle, clock, k, j) == IdleFor(rest, clock, k + 1, j - 1) {
      assert k + j == k + 1 + (j - 1);
    }
    hide IdleFor;
  }

  lemma {:induction false} StaleOnTopIs(idle: seq<IdleConn>, clock: nat -> int, k: nat)
    ensures FirstFresh(idle, clock, k, StaleOnTop(idle, clock, k))
  {
    if idle != [] && Stale(idle[|idle| - 1], clock(k)) {
      StaleOnTopIs(idle[..|idle| - 1], clock, k + 1);
      hide FirstFresh;
      OneDown(idle, clock, k, StaleOnTop(idle[..|idle| - 1], clock, k + 1));
    }
  }

  /** So the connection released last is leased again exactly when it has been idle for two minutes at most. */
  lemma TopLeasedExactlyWhen(s: State, clock: nat -> int, m: nat, dialled: Dialled)
    requires Inv(s) && s.idle != [] && FirstFresh(s.idle, clock, 0, m)
    requires dialled.Connected? ==> dialled.conn !in s.dialled
    ensures var n := |s.idle|; var top := s.idle[n - 1];
      clock(0) - top.putAt <= 120 <==>
        (if m < n then s.idle[n - 1 - m].conn == top.conn else dialled.Connected? && dialled.conn == top.conn)
  {
    forall i | 0 <= i < |s.idle| ensures s.idle[i].conn in s.dialled {
      assert s.idle[i].conn in Conns(s.idle);
    }
    assert m > 0 ==> IdleFor(s.idle, clock, 0, 0) > 120;
  }

  /** How many connections on top of the stack have gone stale by the time they are looked at. */
  function StaleOnTop(idle: seq<IdleConn>, clock: nat -> int, k: nat): nat {
    if idle == [] || !Stale(idle[|idle| - 1], clock(k)) then 0
    else 1 + StaleOnTop(idle[..|idle| - 1], clock, k + 1)
  }

  predicate Stands(s: State, t: Thread, p: Place) {
    t in s.threads && s.threads[t] == p
  }

  lemma NoSteps(s: State)
    ensures Run(s, []) == s
  {}

  lemma Acquired(s: State, t: Thread)
    requires t !in s.threads && s.tokens < s.max
    ensures Run(s, [Acquire(t)]) == Apply(s, Acquire(t))
  {
    assert [Acquire(t)][..0] == [];
  }

  lemma PickedTop(s: State, steps: seq<Step>, t: Thread, now: int)
    requires Stands(Run(s, steps), t, Picking) && Run(s, steps).idle != []
    ensures var u := Run(s, steps);
      var rest, top := u.idle[..|u.idle| - 1], u.idle[|u.idle| - 1];
      if Stale(top, now)
      then Run(s, steps + [Pick(t, now), StaleClosed(t)])
        == Moved(u, t, Picking).(idle := rest, closed := u.closed + {top.conn})
      else Run(s, steps + [Pick(t, now)]) == Moved(u, t, Leased(top.conn, false)).(idle := rest)
  {
    Appended(s, steps, Pick(t, now));
    AppendedTwo(s, steps, Pick(t, now), StaleClosed(t));
    hide Run;
    var u := Run(s, steps);
    var top := u.idle[|u.idle| - 1];
    if Stale(top, now) {
      assert u.threads[t := ClosingStale(top.conn)][t := Picking] == u.threads[t := Picking];
    }
  }

  /** A socket not in use before, or the token back. */
  lemma DialledOrNot(s: State, steps: seq<Step>, t: Thread, dialled: Dialled)
    requires Stands(Run(s, steps), t, Picking) && Run(s, steps).idle == [] && Run(s, steps).tokens > 0
    requires dialled.Connected? ==> dialled.conn !in Run(s, steps).dialled
    ensures var u := Run(s, steps);
      match dialled
      case Connected(conn) =>
        Run(s, steps + [Pick(t, 0), DialOk(t, conn)])
            == Moved(u, t, Leased(conn, false)).(dialled := u.dialled + {conn})
      case Refused =>
        Run(s, steps + [Pick(t, 0), DialFailed(t), Leave(t)]) == u.(threads := u.threads - {t}, tokens := u.tokens - 1)
  {
    hide Run;
    var u := Run(s, steps);
    match dialled
    case Connected(conn) =>
      AppendedTwo(s, steps, Pick(t, 0), DialOk(t, conn));
      assert u.threads[t := Dialing][t := Leased(conn, false)] == u.threads[t := Leased(conn, false)];
    case Refused =>
      AppendedTwo(s, steps, Pick(t, 0), DialFailed(t));
      Appended(s, steps + [Pick(t, 0), DialFailed(t)], Leave(t));
      assert steps + [Pick(t, 0), DialFailed(t)] + [Leave(t)] == steps + [Pick(t, 0), DialFailed(t), Leave(t)];
      assert u.threads[t := Dialing][t := Leaving] - {t} == u.threads - {t};
  }

  lemma AppendedTwo(s: State, steps: seq<Step>, a: Step, b: Step)
    ensures Run(s, steps + [a, b]) == Taken(Taken(Run(s, steps), a), b)
  {
    Appended(s, steps, a);
    Appended(s, steps + [a], b);
    assert steps + [a] + [b] == steps + [a, b];
  }

  lemma Appended(s: State, steps: seq<Step>, e: Step)
    ensures Run(s, steps + [e]) == Taken(Run(s, steps), e)
  {
    assert (steps + [e])[..|steps|] == steps;
  }

  /** What Release does to the state machine. */
  lemma RunsOut(s: State, t: Thread, now: int)
    requires Inv(s) && t in s.threads && s.threads[t].Leased?
    ensures var Leased(conn, broken) := s.threads[t];
      var steps := if broken then [Release(t, now), Discarded(t), Leave(t)] else [Release(t, now), Leave(t)];
      var u := Run(s, steps);
      && u.max == s.max && u.tokens == s.tokens - 1
      && u.idle == s.idle + (if broken then [] else [IdleConn(conn, now)])
      && u.threads == s.threads - {t}
      && (conn in u.closed <==> broken)
  {
    assert s.threads[t].conn in HeldBy(s.threads) && s.threads[t].conn !in s.closed;
    assert t in s.threads.Keys && |s.threads.Keys| > 0;
    hide Inv;
    var release, discarded, leave := Release(t, now), Discarded(t), Leave(t);
    assert [release][..0] == [] && [release, discarded][..1] == [release] && [release, leave][..1] == [release]
      && [release, discarded, leave][..2] == [release, discarded];
    assert Run(s, [release]) == Apply(s, release);
  }
}
