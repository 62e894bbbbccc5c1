/** Sequences that list the values of a map in the order of its keys: what a loop with a filter leaves. */
module Orders {
  ghost predicate InOrder<T>(s: seq<T>, f: map<int, T>) {
    |s| == |f| && forall i <- f :: Rank(f, i) < |s| && s[Rank(f, i)] == f[i]
  }

  /** How many keys come before `i`. */
  ghost function Rank<T>(f: map<int, T>, i: int): nat {
    |set j | j in f && j < i|
  }

  lemma NothingInOrder<T>(f: map<int, T>)
    requires f.Keys == {}
    ensures InOrder([], f)
  {}

  /** One more value, under a key after all others. */
  lemma OneMoreInOrder<T>(s: seq<T>, f: map<int, T>, n: int, x: T, g: map<int, T>)
    requires InOrder(s, f) && (forall i <- f :: i < n)
    requires g == f[n := x]
    ensures InOrder(s + [x], g)
  {
    assert g.Keys == f.Keys + {n};
    assert (set j | j in g && j < n) == f.Keys;
    forall i <- f ensures Rank(g, i) == Rank(f, i) {
      assert (set j | j in g && j < i) == (set j | j in f && j < i);
    }
  }
}
