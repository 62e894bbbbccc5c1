/** The statements of internal/db as methods that change the tables, triggers included. Each is
    proved to perform exactly the step of `Store` that the protocol proofs reason about. */
module Databases {
  import opened Store
  import opened StoreInvariants
  import opened SetSizes

  datatype Target = Target(owner: string, posted: int, moderated: bool)

  function CountIn(ids: seq<MessageId>, keys: set<MessageId>): nat {
    if ids == [] then 0
    else CountIn(ids[..|ids| - 1], keys) + if ids[|ids| - 1] in keys then 1 else 0
  }

  lemma {:induction false} CountAllIn(ids: seq<MessageId>, keys: set<MessageId>)
    requires forall id <- ids :: id in keys
    ensures CountIn(ids, keys) == |ids|
  {
    if ids != [] { CountAllIn(ids[..|ids| - 1], keys); }
  }

  lemma {:induction false} CountInIs(ids: seq<MessageId>, keys: set<MessageId>)
    ensures CountIn(ids, keys) == |set i | 0 <= i < |ids| && ids[i] in keys|
  {
    if ids != [] {
      var init, n := ids[..|ids| - 1], |ids| - 1;
      CountInIs(init, keys);
      var a, b := set i | 0 <= i < |init| && init[i] in keys, set i | 0 <= i < |ids| && ids[i] in keys;
      assert b == a + if ids[n] in keys then {n} else {};
    }
  }

  const RETENTION_CHUNK := 5000

  /** LIMIT without ORDER BY: some `limit` of the matching rows, or all when there are fewer. */
  method Limited(matching: set<MessageId>, limit: nat) returns (batch: set<MessageId>)
    ensures batch <= matching
    ensures |batch| == if |matching| < limit then |matching| else limit
  {
    batch := {};
    var rest := matching;
    while rest != {} && |batch| < limit
      invariant batch <= matching && rest == matching - batch
      invariant |batch| <= limit && |batch| + |rest| == |matching|
    {
      var m :| m in rest;
      batch, rest := batch + {m}, rest - {m};
    }
  }

  class Database {
    var spots: map<MessageId, Row>
    var nextId: nat
    var ring: map<MessageId, int>
    var fts: multiset<Posting>

    ghost function Contents(): Tables
      reads this
    {
      Tables(spots, nextId, ring, fts)
    }

    ghost predicate Valid()
      reads this
    {
      WellFormed(Contents())
    }

    constructor ()
      ensures Contents() == EMPTY && Valid()
    {
      spots, nextId, ring, fts := map[], 0, map[], multiset{};
    }

    /** One transaction; returns the number of rows added. */
    method InsertSpots(ss: seq<Spot>) returns (inserted: nat)
      modifies this
      ensures Contents() == Apply(old(Contents()), Step.InsertSpots(ss))
      ensures inserted == |spots.Keys| - |old(spots).Keys|
    {
      inserted := 0;
      for i := 0 to |ss|
        invariant Contents() == InsertAll(old(Contents()), ss[..i])
        invariant inserted == |spots.Keys| - |old(spots).Keys|
      {
        assert ss[..i + 1][..i] == ss[..i];
        var s := ss[i];
        if s.messageId !in ring && s.messageId !in spots {
          var row := Row(nextId, s);
          spots, nextId := spots[s.messageId := row], nextId + 1;
          fts := fts + multiset{PostingOf(row)};
          inserted := inserted + 1;
        }
      }
      assert ss[..|ss|] == ss;
    }

    /** One transaction: per id the ring entry, then the flag. */
    method MarkModerated(ids: seq<MessageId>, now: int) returns (affected: nat)
      modifies this
      ensures Contents() == Apply(old(Contents()), Step.MarkModerated(ids, now))
      ensures affected == CountIn(ids, old(spots).Keys) == |set i | 0 <= i < |ids| && ids[i] in old(spots)|
    {
      CountInIs(ids, spots.Keys);
      affected := 0;
      for i := 0 to |ids|
        invariant Contents() == MarkAll(old(Contents()), ids[..i], now)
        invariant spots.Keys == old(spots).Keys
        invariant affected == CountIn(ids[..i], old(spots).Keys)
      {
        assert ids[..i + 1][..i] == ids[..i];
        var id := ids[i];
        if id !in ring {
          ring := ring[id := now];
        }
        if id in spots {
          spots := spots[id := Marked(spots[id])];
          affected := affected + 1;
        }
      }
      assert ids[..|ids|] == ids;
    }

    /** DELETE of the given rows, one at a time, each firing the delete trigger. */
    method DeleteEach(victims: set<MessageId>) returns (n: nat)
      requires DistinctIds(spots) && fts == Rebuilt(spots)
      modifies this`spots, this`fts
      ensures spots == old(spots) - victims && fts == Rebuilt(spots)
      ensures n == |old(spots).Keys| - |spots.Keys|
    {
      n := 0;
      var rest := victims * spots.Keys;
      ghost var before := spots;
      while rest != {}
        invariant rest == victims * spots.Keys
        invariant spots - victims == before - victims
        invariant DistinctIds(spots) && fts == Rebuilt(spots)
        invariant n == |before.Keys| - |spots.Keys|
      {
        var m :| m in rest;
        OneFewer(spots, victims, m);
        fts := fts - multiset{PostingOf(spots[m])};
        spots := spots - {m};
        n := n + 1;
        rest := rest - {m};
      }
      NothingToDrop(spots, victims);
    }

    method DeleteRows(victims: set<MessageId>) returns (n: nat)
      requires Valid()
      modifies this`spots, this`fts
      ensures Contents() == Without(old(Contents()), victims)
      ensures Valid()
      ensures n == |old(spots).Keys| - |spots.Keys|
    {
      WithoutIs(Contents(), victims);
      n := DeleteEach(victims);
    }

    /** Batches of 400 ids, one DELETE statement each. */
    method DeleteSpotsByMessageID(ids: seq<MessageId>) returns (total: nat)
      requires Valid()
      modifies this`spots, this`fts
      ensures Contents() == Run(old(Contents()), Batches(ids))
      ensures total == |old(spots).Keys| - |spots.Keys|
    {
      total := 0;
      var start := 0;
      while start < |ids|
        invariant 0 <= start <= |ids|
        invariant Run(Contents(), Batches(ids[start..])) == Run(old(Contents()), Batches(ids))
        invariant Valid()
        invariant total == |old(spots).Keys| - |spots.Keys|
      {
        var end := if start + ID_BATCH > |ids| then |ids| else start + ID_BATCH;
        NextBatch(Contents(), ids, start, end);
        var n := DeleteRows(set m | m in ids[start..end]);
        total := total + n;
        start := end;
      }
      assert ids[|ids|..] == [];
    }

    method DisposeTarget(id: MessageId) returns (t: Target, found: bool)
      ensures found <==> id in spots
      ensures found ==> var s := spots[id].spot; t == Target(s.owner, s.postedAt, s.moderated)
    {
      if id !in spots {
        return Target("", 0, false), false;
      }
      var s := spots[id].spot;
      return Target(s.owner, s.postedAt, s.moderated), true;
    }

    method SetSpotOwner(id: MessageId, owner: string, verified: bool)
      modifies this
      ensures Contents() == Apply(old(Contents()), Step.SetSpotOwner(id, owner, verified))
    {
      if id in spots {
        spots := spots[id := Owned(spots[id], owner, verified)];
      }
    }

    /** UPDATE of one row that names an indexed column: the update trigger fires. */
    method UpdateIndexed(m: MessageId, row: Row)
      requires m in spots
      modifies this`spots, this`fts
      ensures Contents() == Updated(old(Contents()), map[m := row])
    {
      UpdatedOne(Contents(), m, row);
      fts := fts - multiset{PostingOf(spots[m])} + multiset{PostingOf(row)};
      spots := spots[m := row];
    }

    method UpdateSpotEnrichment(rowid: nat, description: string, imageUrl: string, nzbId: string, size: int,
                                owner: string, verified: bool)
      requires Valid()
      modifies this`spots, this`fts
      ensures Contents() == Apply(old(Contents()),
                Step.UpdateEnrichment(rowid, description, imageUrl, nzbId, size, owner, verified))
    {
      ghost var s := Step.UpdateEnrichment(rowid, description, imageUrl, nzbId, size, owner, verified);
      if m :| m in spots && spots[m].id == rowid {
        var spot := spots[m].spot;
        EnrichOne(Contents(), s, m);
        UpdateIndexed(m, Row(rowid, spot.(text := spot.text.(description := description), imageUrl := imageUrl,
                                          nzbId := nzbId, size := size, owner := owner, verified := verified)));
      } else {
        EnrichNone(Contents(), s);
      }
    }

    /** One `DELETE ... LIMIT 5000` statement of the retention sweep. */
    method DeleteOldChunk(cutoff: int) returns (n: nat)
      requires Valid()
      modifies this`spots, this`fts
      ensures spots.Keys <= old(spots).Keys && forall m <- spots :: spots[m] == old(spots)[m]
      ensures forall m | m in old(spots) && m !in spots :: old(spots)[m].spot.postedAt < cutoff
      ensures n < 5000 ==> forall m <- spots :: spots[m].spot.postedAt >= cutoff
      ensures n == |old(spots).Keys| - |spots.Keys| && n <= 5000
      ensures Valid()
    {
      var matching := set m | m in spots && spots[m].spot.postedAt < cutoff;
      var batch := Limited(matching, RETENTION_CHUNK);
      assert (spots - batch).Keys == spots.Keys - batch;
      assert |spots.Keys - batch| == |spots.Keys| - |batch|;
      if |matching| < RETENTION_CHUNK { SubsetSize(batch, matching); }
      n := DeleteRows(batch);
    }

    /** Deletes chunk by chunk until a statement deletes fewer rows than its limit: exactly the rows
        posted before the cutoff go. */
    method DeleteSpotsOlderThan(cutoff: int) returns (total: nat)
      requires Valid()
      modifies this`spots, this`fts
      ensures forall m <- spots :: m in old(spots) && spots[m] == old(spots)[m] && spots[m].spot.postedAt >= cutoff
      ensures forall m | m in old(spots) && old(spots)[m].spot.postedAt >= cutoff :: m in spots
      ensures total == |old(spots).Keys| - |spots.Keys|
      ensures Valid()
    {
      total := 0;
      var n := RETENTION_CHUNK;
      while n >= RETENTION_CHUNK
        invariant forall m <- spots :: m in old(spots) && spots[m] == old(spots)[m]
        invariant forall m | m in old(spots) && old(spots)[m].spot.postedAt >= cutoff :: m in spots
        invariant n < RETENTION_CHUNK ==> forall m <- spots :: spots[m].spot.postedAt >= cutoff
        invariant total == |old(spots).Keys| - |spots.Keys|
        invariant Valid()
        decreases n >= RETENTION_CHUNK, |spots.Keys|
      {
        n := DeleteOldChunk(cutoff);
        total := total + n;
      }
    }

    method PruneModeratedRing(cutoff: int) returns (n: nat)
      requires Valid()
      modifies this
      ensures Contents() == Apply(old(Contents()), PruneRing(cutoff))
      ensures Valid()
      ensures n == |old(ring)| - |ring|
    {
      var kept := map m | m in ring && ring[m] >= cutoff :: ring[m];
      SubsetSize(kept.Keys, ring.Keys);
      n := |ring| - |kept|;
      ring := kept;
    }
  }

  lemma NothingToDrop(spots: map<MessageId, Row>, victims: set<MessageId>)
    requires victims * spots.Keys == {}
    ensures spots - victims == spots
  {
    assert forall m <- spots :: m in victims ==> m in victims * spots.Keys;
  }

  lemma OneFewer(spots: map<MessageId, Row>, victims: set<MessageId>, m: MessageId)
    requires DistinctIds(spots) && m in spots && m in victims
    ensures var rest := spots - {m};
      && rest - victims == spots - victims
      && victims * rest.Keys == victims * spots.Keys - {m}
      && DistinctIds(rest)
      && |rest.Keys| == |spots.Keys| - 1
      && Rebuilt(rest) == Rebuilt(spots) - multiset{PostingOf(spots[m])}
  {
    RebuiltWithoutOne(spots, m);
    assert (spots - {m}).Keys == spots.Keys - {m};
  }

  lemma DocsOfOne(m: MessageId, row: Row)
    ensures Docs(map[m := row]) == {PostingOf(row)}
  {
    DocsHas(map[m := row], m);
  }

  lemma UpdatedOne(t: Tables, m: MessageId, row: Row)
    requires m in t.spots
    ensures Updated(t, map[m := row])
         == t.(spots := t.spots[m := row], fts := t.fts - multiset{PostingOf(t.spots[m])} + multiset{PostingOf(row)})
  {
    DocsOfOne(m, t.spots[m]);
    DocsOfOne(m, row);
    assert (map[m := row]).Keys == {m};
    assert Pick(t.spots, {m}) == map[m := t.spots[m]];
    assert t.spots[m := row] == t.spots + map[m := row];
  }

  lemma EnrichOne(t: Tables, s: Step, m: MessageId)
    requires s.UpdateEnrichment? && DistinctIds(t.spots) && m in t.spots && t.spots[m].id == s.rowid
    ensures Apply(t, s) == Updated(t, map[m := Enriched(t.spots[m], s)])
  {
    hide Updated;
    assert WithId(t, s.rowid) == {m};
    assert Enrichment(t, s) == map[m := Enriched(t.spots[m], s)];
  }

  lemma EnrichNone(t: Tables, s: Step)
    requires s.UpdateEnrichment? && forall m <- t.spots :: t.spots[m].id != s.rowid
    ensures Apply(t, s) == t
  {
    assert WithId(t, s.rowid) == {};
    assert Enrichment(t, s).Keys == {} && Enrichment(t, s) == map[];
    UpdatedNothing(t);
  }

  lemma UpdatedNothing(t: Tables)
    ensures Updated(t, map[]) == t
  {
    assert Pick(t.spots, {}) == map[] && Docs(map[]) == {};
  }

  lemma RebuiltWithoutOne(spots: map<MessageId, Row>, m: MessageId)
    requires DistinctIds(spots) && m in spots
    ensures Rebuilt(spots - {m}) == Rebuilt(spots) - multiset{PostingOf(spots[m])}
  {
    var rest := spots - {m};
    assert spots == rest[m := spots[m]];
    RebuiltAfterInsert(rest, m, spots[m]);
  }

  lemma WithoutIs(t: Tables, victims: set<MessageId>)
    requires WellFormed(t)
    ensures Without(t, victims) == t.(spots := t.spots - victims, fts := Rebuilt(t.spots - victims))
    ensures WellFormed(Without(t, victims))
  {
    WithoutWellFormed(t, victims);
  }

  lemma NextBatch(t: Tables, ids: seq<MessageId>, start: nat, end: nat)
    requires start < |ids| && end == if start + ID_BATCH > |ids| then |ids| else start + ID_BATCH
    ensures Run(t, Batches(ids[start..])) == Run(Without(t, set m | m in ids[start..end]), Batches(ids[end..]))
  {
    var rest, first := ids[start..], ids[start..end];
    var s := DeleteByMessageId(first);
    assert first == rest[..end - start] && ids[end..] == rest[end - start..];
    assert rest[..|rest|] == rest;
    assert Batches(rest) == [s] + Batches(ids[end..]);
    RunConcat(t, [s], Batches(ids[end..]));
    RunOne(t, s);
  }
}
