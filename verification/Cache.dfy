/** The two caches and their eviction (internal/db/maintenance.go): images go first, and in each table
    the entries fetched longest ago, 200 at a time, until both together fit. */
module Caching {

  datatype Entry = Entry(size: nat, fetchedAt: int)

  type Table = map<string, Entry>

  const EVICT_BATCH := 200

  ghost function Bytes(t: Table): nat {
    if t == map[] then 0
    else
      var k :| k in t;
      t[k].size + Bytes(t - {k})
  }

  lemma {:induction false} BytesWithout(t: Table, k: string)
    requires k in t
    ensures Bytes(t) == t[k].size + Bytes(t - {k})
    decreases |t|
  {
    var j :| j in t && Bytes(t) == t[j].size + Bytes(t - {j});
    if j != k {
      var rest := t - {j};
      assert rest.Keys == t.Keys - {j};
      assert |rest.Keys| == |t.Keys| - 1;
      BytesWithout(rest, k);
      var other := t - {k};
      assert other.Keys == t.Keys - {k};
      assert |other.Keys| == |t.Keys| - 1;
      BytesWithout(other, j);
      assert rest - {k} == other - {j};
    }
  }

  /** SELECT ... ORDER BY fetched_at LIMIT n: the oldest entries, ties broken any way. */
  ghost predicate Oldest(t: Table, batch: set<string>, limit: nat) {
    && batch <= t.Keys
    && |batch| == (if |t| < limit then |t| else limit)
    && forall a, b | a in batch && b in t && b !in batch :: t[a].fetchedAt <= t[b].fetchedAt
  }

  /** What is gone was fetched no later than anything that is left. */
  ghost predicate OldestGone(before: Table, after: Table) {
    && after.Keys <= before.Keys
    && (forall k <- after :: after[k] == before[k])
    && forall a, b | a in before && a !in after && b in after :: before[a].fetchedAt <= before[b].fetchedAt
  }

  lemma NothingGone(t: Table)
    ensures OldestGone(t, t) && Bytes(map[]) == 0
    ensures forall u: Table :: OldestGone(t, u) && |u| == |t| ==> u == t
  {
    forall u: Table | OldestGone(t, u) && |u| == |t| ensures u == t {
      assert t.Keys == u.Keys + (t.Keys - u.Keys);
      assert |u.Keys| == |t.Keys|;
    }
  }

  lemma GoneMore(before: Table, t: Table, batch: set<string>, limit: nat)
    requires OldestGone(before, t) && Oldest(t, batch, limit)
    ensures OldestGone(before, t - batch)
    ensures |t - batch| == |t| - |batch|
  {
    assert (t - batch).Keys == t.Keys - batch;
    assert |t.Keys - batch| == |t.Keys| - |batch|;
  }

  method First(t: Table, left: set<string>) returns (k: string)
    requires left != {} && left <= t.Keys
    ensures k in left && forall j <- left :: t[k].fetchedAt <= t[j].fetchedAt
  {
    k :| k in left;
    var rest := left - {k};
    while rest != {}
      invariant k in left && rest <= left
      invariant forall j <- left :: j in rest || t[k].fetchedAt <= t[j].fetchedAt
    {
      var j :| j in rest;
      if t[j].fetchedAt < t[k].fetchedAt { k := j; }
      rest := rest - {j};
    }
  }

  method OldestBatch(t: Table, limit: nat) returns (batch: set<string>)
    ensures Oldest(t, batch, limit)
  {
    batch := {};
    var left := t.Keys;
    while left != {} && |batch| < limit
      invariant left == t.Keys - batch && batch <= t.Keys
      invariant |batch| <= limit && |batch| + |left| == |t|
      invariant forall a, b | a in batch && b in left :: t[a].fetchedAt <= t[b].fetchedAt
    {
      var k := First(t, left);
      batch, left := batch + {k}, left - {k};
    }
  }

  method TableBytes(t: Table) returns (total: nat)
    ensures total == Bytes(t)
  {
    total := 0;
    var left := t;
    while left != map[]
      invariant total + Bytes(left) == Bytes(t)
      decreases |left|
    {
      var k :| k in left;
      BytesWithout(left, k);
      assert (left - {k}).Keys == left.Keys - {k};
      assert |left.Keys - {k}| == |left.Keys| - 1;
      total := total + left[k].size;
      left := left - {k};
    }
  }

  /** The entries a batch removed. */
  function Picked(t: Table, batch: set<string>): Table {
    map k | k in t && k in batch :: t[k]
  }

  /** `last` is the batch of at most 200 entries that took a table down to `after`: entries the table
      held until then, fetched no later than what it kept, and with them it was still too large. */
  ghost predicate LastBatch(before: Table, after: Table, last: Table, other: nat, maxBytes: int) {
    && 0 < |last| <= 200 && (|last| == 200 || after == map[])
    && last.Keys <= before.Keys - after.Keys
    && (forall k <- last :: last[k] == before[k])
    && OldestGone(before, after + last)
    && OldestGone(after + last, after)
    && Bytes(after + last) + other > maxBytes
  }

  lemma Restored(t: Table, batch: set<string>)
    requires batch <= t.Keys
    ensures var rest, last := t - batch, Picked(t, batch);
      && rest + last == t && last.Keys == batch && |last| == |batch|
      && rest.Keys == t.Keys - batch && forall k <- last :: last[k] == t[k]
  {
    var last := Picked(t, batch);
    assert last.Keys == batch;
    assert |last| == |last.Keys|;
  }

  lemma PartIsLast(before: Table, t: Table, rest: Table, last: Table, other: nat, maxBytes: int)
    requires rest + last == t && last.Keys !! rest.Keys
    requires 0 < |last| <= 200 && (|last| == 200 || rest == map[])
    requires OldestGone(before, t) && OldestGone(t, rest) && Bytes(t) + other > maxBytes
    ensures LastBatch(before, rest, last, other, maxBytes)
  {
    assert last.Keys <= t.Keys && last.Keys !! rest.Keys;
    assert forall k <- last :: last[k] == t[k] == before[k];
    hide Bytes;
  }

  lemma BatchIsLast(before: Table, t: Table, batch: set<string>, other: nat, maxBytes: int)
    requires OldestGone(before, t) && Oldest(t, batch, EVICT_BATCH) && batch != {}
    requires Bytes(t) + other > maxBytes
    ensures LastBatch(before, t - batch, Picked(t, batch), other, maxBytes)
  {
    hide Bytes, OldestGone, Picked, LastBatch;
    Restored(t, batch);
    NothingGone(t);
    GoneMore(t, t, batch, EVICT_BATCH);
    assert |batch| > 0;
    assert |batch| < EVICT_BATCH ==> (t - batch).Keys == {};
    PartIsLast(before, t, t - batch, Picked(t, batch), other, maxBytes);
  }

  class Caches {
    var images: Table
    var nzbs: Table

    method CacheBytes() returns (total: nat)
      ensures total == Bytes(images) + Bytes(nzbs)
    {
      var nzb := TableBytes(nzbs);
      var img := TableBytes(images);
      return nzb + img;
    }

    /** EvictCacheTo: afterwards the caches fit; an NZB goes only when no image is left; in each table
        only the oldest entries go; and before the last batch the caches were still too large. */
    method EvictCacheTo(maxBytes: int, cancelled: nat -> bool)
        returns (nNzbs: nat, nImages: nat, ok: bool, ghost last: Table)
      modifies this
      ensures ok && maxBytes >= 0 ==> Bytes(images) + Bytes(nzbs) <= maxBytes
      ensures Bytes(old(images)) + Bytes(old(nzbs)) <= maxBytes ==> ok && images == old(images) && nzbs == old(nzbs)
      ensures (forall k :: !cancelled(k)) ==> ok
      ensures OldestGone(old(images), images) && OldestGone(old(nzbs), nzbs)
      ensures nImages == |old(images)| - |images| && nNzbs == |old(nzbs)| - |nzbs|
      ensures nNzbs > 0 ==> images == map[] && LastBatch(old(nzbs), nzbs, last, 0, maxBytes)
      ensures nNzbs == 0 && nImages > 0 ==> LastBatch(old(images), images, last, Bytes(nzbs), maxBytes)
    {
      NothingGone(images);
      NothingGone(nzbs);
      hide Bytes, OldestGone, LastBatch;
      nNzbs, nImages, last := 0, 0, map[];
      var total := CacheBytes();
      if total <= maxBytes {
        return 0, 0, true, last;
      }
      var other := TableBytes(nzbs);
      images, nImages, ok, last := EvictFrom(images, other, maxBytes, cancelled);
      if !ok {
        return;
      }
      ghost var lastNzbs;
      other := TableBytes(images);
      nzbs, nNzbs, ok, lastNzbs := EvictFrom(nzbs, other, maxBytes, (k: nat) => cancelled(nImages + k));
      if nNzbs > 0 { last := lastNzbs; }
    }
  }

  /** The loop over one table, while the other holds `other` bytes. `last` is the batch removed last. */
  method EvictFrom(t: Table, other: nat, maxBytes: int, cancelled: nat -> bool)
    returns (kept: Table, n: nat, ok: bool, ghost last: Table)
    ensures OldestGone(t, kept) && n == |t| - |kept| && (n == 0 ==> kept == t)
    ensures ok ==> Bytes(kept) + other <= maxBytes || kept == map[]
    ensures Bytes(t) + other <= maxBytes ==> ok && n == 0
    ensures (forall k :: !cancelled(k)) ==> ok
    ensures n > 0 ==> LastBatch(t, kept, last, other, maxBytes)
  {
    kept, n, ok, last := t, 0, true, map[];
    var k := 0;
    var total := TableBytes(kept);
    hide LastBatch;
    while total + other > maxBytes
      invariant total == Bytes(kept) && ok
      invariant OldestGone(t, kept) && n == |t| - |kept| && (n == 0 ==> kept == t)
      invariant n > 0 ==> LastBatch(t, kept, last, other, maxBytes)
      invariant Bytes(t) + other <= maxBytes ==> n == 0
      decreases |kept|
    {
      if cancelled(k) {
        return kept, n, false, last;
      }
      var batch := OldestBatch(kept, EVICT_BATCH);
      if |batch| == 0 {
        break;
      }
      GoneMore(t, kept, batch, EVICT_BATCH);
      BatchIsLast(t, kept, batch, other, maxBytes);
      last := Picked(kept, batch);
      kept := kept - batch;
      n, k := n + |batch|, k + 1;
      total := TableBytes(kept);
    }
  }
}
