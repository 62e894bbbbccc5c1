/** The historical backfill (internal/sync/backfill.go): walks down from the oldest article held to
    the group's first article, one range of at most 5000 numbers at a time, the watermark moved after
    each. An attempt may fail before or after its inserts, any number of times, across restarts. */
module Backfilling {
  import opened Store
  import opened StoreInvariants
  import opened Databases
  import opened Moderation
  import opened Chunk
  import opened Server
  import opened SyncStates

  type Range = (int, int)

  /** One OVER request, and how many ranges had been checkpointed when it was made. */
  datatype Request = Request(range: Range, after: nat)

  datatype State = State(tables: Tables, watermark: int, requests: seq<Request>, ranges: seq<Range>)

  /** One attempt at a chunk: is there a connection, does the server answer, do the inserts succeed (if
      not, that is only logged), is the watermark saved? A process that dies saves nothing. */
  datatype Fetch = Fetch(online: bool, answered: bool, stored: bool, saved: bool)

  function Begin(t: Tables, watermark: int): State {
    State(t, watermark, [], [])
  }

  /** A zero watermark means that the forward sync has not run yet. */
  predicate Finished(st: State, first: int) {
    st.watermark == 0 || st.watermark <= first
  }

  function NextRange(watermark: int, first: int): Range {
    var hi := watermark - 1;
    (if hi - CHUNK_SIZE + 1 < first then first else hi - CHUNK_SIZE + 1, hi)
  }

  function Offered(group: Group, r: Range, verifySignatures: bool): seq<Spot> {
    Posts(Overview(group, r.0, r.1), verifySignatures)
  }

  function Fetched(st: State, e: Fetch, group: Group, first: int, verifySignatures: bool): State {
    if Finished(st, first) || !e.online then st
    else
      var r := NextRange(st.watermark, first);
      var asked := st.(requests := st.requests + [Request(r, |st.ranges|)]);
      if !e.answered then asked
      else
        var u := if e.stored then asked.(tables := InsertAll(st.tables, Offered(group, r, verifySignatures)))
            else asked;
        if e.saved then u.(watermark := r.0, ranges := st.ranges + [r]) else u
  }

  function FetchedAll(st: State, es: seq<Fetch>, group: Group, first: int, verifySignatures: bool): State {
    if es == [] then st
    else
      Fetched(FetchedAll(st, es[..|es| - 1], group, first, verifySignatures), es[|es| - 1], group, first,
          verifySignatures)
  }

  /** The ranges lie end to end downwards from `hi` to `lo`, none empty, none longer than a chunk. */
  predicate TilesDown(rs: seq<Range>, lo: int, hi: int) {
    if rs == [] then lo == hi + 1
    else
      var r := rs[|rs| - 1];
      lo == r.0 <= r.1 && r.1 - r.0 < 5000 && TilesDown(rs[..|rs| - 1], r.1 + 1, hi)
  }

  /** Every request is for the range to be checkpointed next, and requests come in that order: a range is
      asked for again only until it is checkpointed. */
  ghost predicate AsksForNext(st: State, first: int) {
    && (forall q <- st.requests :: q.after <= |st.ranges|
          && q.range == if q.after < |st.ranges| then st.ranges[q.after] else NextRange(st.watermark, first))
    && (forall i, j | 0 <= i < j < |st.requests| :: st.requests[i].after <= st.requests[j].after)
  }

  /** Every accepted article of [lo, hi] has been offered to the table. */
  ghost predicate Stored(t: Tables, group: Group, lo: int, hi: int, verifySignatures: bool) {
    forall n | lo <= n <= hi && n in group && Accepted(group[n], verifySignatures) ::
      group[n].spot.messageId in t.spots || group[n].spot.messageId in t.ring
  }

  /** What every sequence of attempts from the watermark `top` has reached. */
  ghost predicate Inv(st: State, top: int, first: int) {
    && (st.watermark == top || first <= st.watermark < top)
    && TilesDown(st.ranges, st.watermark, top - 1)
    && AsksForNext(st, first)
  }

  lemma {:induction false} InsertedAreStored(t: Tables, group: Group, r: Range, verifySignatures: bool)
    ensures var u := InsertAll(t, Offered(group, r, verifySignatures));
      && Stored(u, group, r.0, r.1, verifySignatures)
      && t.spots.Keys <= u.spots.Keys && u.ring == t.ring
  {
    var lines := Overview(group, r.0, r.1);
    InsertAllRows(t, Offered(group, r, verifySignatures));
    OverviewHas(group, r.0, r.1);
    PostsHas(lines, verifySignatures);
    forall n | r.0 <= n <= r.1 && n in group && Accepted(group[n], verifySignatures)
      ensures group[n].spot in Offered(group, r, verifySignatures)
    {
      assert Line(n, group[n]) in lines;
    }
  }

  lemma StoredMore(t: Tables, u: Tables, group: Group, lo: int, mid: int, hi: int, verifySignatures: bool)
    requires Stored(t, group, mid, hi, verifySignatures) && t.spots.Keys <= u.spots.Keys && u.ring == t.ring
    ensures Stored(u, group, mid, hi, verifySignatures)
    ensures Stored(u, group, lo, mid - 1, verifySignatures) ==> Stored(u, group, lo, hi, verifySignatures)
  {}

  lemma AskMore(st: State, first: int, r: Range)
    requires AsksForNext(st, first) && r == NextRange(st.watermark, first)
    ensures AsksForNext(st.(requests := st.requests + [Request(r, |st.ranges|)]), first)
  {}

  lemma CheckpointAsked(st: State, first: int, r: Range)
    requires AsksForNext(st, first) && r == NextRange(st.watermark, first)
    ensures AsksForNext(st.(watermark := r.0, ranges := st.ranges + [r]), first)
  {}

  lemma FetchKeeps(st: State, e: Fetch, group: Group, top: int, first: int, verifySignatures: bool)
    requires first >= 0 && Inv(st, top, first)
    ensures Inv(Fetched(st, e, group, first, verifySignatures), top, first)
  {
    hide AsksForNext, InsertAll, Offered;
    if !Finished(st, first) && e.online {
      var r := NextRange(st.watermark, first);
      var asked := st.(requests := st.requests + [Request(r, |st.ranges|)]);
      AskMore(st, first, r);
      CheckpointAsked(asked, first, r);
      assert (st.ranges + [r])[..|st.ranges|] == st.ranges;
      OnlyTables(asked, InsertAll(st.tables, Offered(group, r, verifySignatures)), first);
      OnlyTables(asked.(watermark := r.0, ranges := st.ranges + [r]),
                 InsertAll(st.tables, Offered(group, r, verifySignatures)), first);
    }
  }

  lemma OnlyTables(st: State, t: Tables, first: int)
    requires AsksForNext(st, first)
    ensures AsksForNext(st.(tables := t), first)
  {}

  lemma FetchStores(st: State, e: Fetch, group: Group, top: int, first: int, verifySignatures: bool)
    requires first >= 0 && Stored(st.tables, group, st.watermark, top - 1, verifySignatures)
    requires e.saved ==> e.stored
    ensures var u := Fetched(st, e, group, first, verifySignatures);
      Stored(u.tables, group, u.watermark, top - 1, verifySignatures)
  {
    hide Stored, InsertAll, Offered;
    if !Finished(st, first) {
      var r := NextRange(st.watermark, first);
      InsertedAreStored(st.tables, group, r, verifySignatures);
      var stored := InsertAll(st.tables, Offered(group, r, verifySignatures));
      StoredMore(st.tables, stored, group, r.0, st.watermark, top - 1, verifySignatures);
    }
  }

  /** A checkpoint is only written for a range whose inserts succeeded. */
  predicate InsertsSucceed(es: seq<Fetch>) {
    forall i | 0 <= i < |es| :: es[i].saved ==> es[i].stored
  }

  lemma {:induction false} FetchesKeep(t: Tables, es: seq<Fetch>, group: Group, top: int, first: int,
      verifySignatures: bool)
    requires first >= 0
    ensures var st := FetchedAll(Begin(t, top), es, group, first, verifySignatures);
      Inv(st, top, first) && (InsertsSucceed(es) ==> Stored(st.tables, group, st.watermark, top - 1, verifySignatures))
  {
    hide Fetched, Stored, Inv;
    if es == [] {
      NothingFetched(t, group, top, first, verifySignatures);
    } else {
      var st := FetchedAll(Begin(t, top), es[..|es| - 1], group, first, verifySignatures);
      FetchesKeep(t, es[..|es| - 1], group, top, first, verifySignatures);
      FetchKeeps(st, es[|es| - 1], group, top, first, verifySignatures);
      if InsertsSucceed(es) {
        FetchStores(st, es[|es| - 1], group, top, first, verifySignatures);
      }
    }
  }

  lemma NothingFetched(t: Tables, group: Group, top: int, first: int, verifySignatures: bool)
    ensures Inv(Begin(t, top), top, first) && Stored(t, group, top, top - 1, verifySignatures)
  {}

  /** However often it was interrupted: the checkpointed ranges lie end to end below the watermark it
      began with, none longer than 5000; every request is for the range to be checkpointed next, so that
      only that one is ever repeated; a finished walk covered exactly [first, top - 1]; and if inserts
      succeed, all that these ranges offered has been stored. */
  lemma BackfillCoversHistory(t: Tables, es: seq<Fetch>, group: Group, top: int, first: int, verifySignatures: bool)
    requires 0 <= first <= top && top != 0
    ensures var st := FetchedAll(Begin(t, top), es, group, first, verifySignatures);
      && TilesDown(st.ranges, st.watermark, top - 1)
      && AsksForNext(st, first)
      && (Finished(st, first) <==> st.watermark == first)
      && (InsertsSucceed(es) ==> Stored(st.tables, group, st.watermark, top - 1, verifySignatures))
  {
    FetchesKeep(t, es, group, top, first, verifySignatures);
  }

  /** Without that, a range is passed and nothing of it stored. */
  lemma FailedInsertPassesRange(t: Tables, group: Group, top: int, first: int, verifySignatures: bool)
    requires 0 <= first < top
    ensures var st := FetchedAll(Begin(t, top), [Fetch(true, true, false, true)], group, first, verifySignatures);
      st.tables == t && st.ranges == [NextRange(top, first)] && st.watermark == NextRange(top, first).0
  {
    var e := Fetch(true, true, false, true);
    assert [e][..0] == [] && [] + [NextRange(top, first)] == [NextRange(top, first)];
  }

  // ------------------------------------------------ exactly what is stored

  /** Below the watermark, 5000 article numbers or what is left of the group. */
  lemma RangeIs(watermark: int, first: int, n: int)
    requires first < watermark
    ensures NextRange(watermark, first).0 <= n <= NextRange(watermark, first).1
       <==> first <= n < watermark && watermark - n <= 5000
  {}

  /** Whatever the attempts: every row that they added is such a post. */
  lemma {:induction false} OnlyValidAdded(t: Tables, es: seq<Fetch>, group: Group, top: int, first: int,
                                          verifySignatures: bool)
    ensures var u := FetchedAll(Begin(t, top), es, group, first, verifySignatures).tables;
      forall id <- u.spots | id !in t.spots :: exists n :: ValidPost(group, n, u.spots[id].spot, verifySignatures)
  {
    hide Fetched, ValidPost;
    if es != [] {
      var st := FetchedAll(Begin(t, top), es[..|es| - 1], group, first, verifySignatures);
      OnlyValidAdded(t, es[..|es| - 1], group, top, first, verifySignatures);
      FetchAddsValid(st, es[|es| - 1], group, first, verifySignatures);
    }
  }

  lemma FetchAddsValid(st: State, e: Fetch, group: Group, first: int, verifySignatures: bool)
    ensures var t, u := st.tables, Fetched(st, e, group, first, verifySignatures).tables;
      && t.spots.Keys <= u.spots.Keys && (forall id <- t.spots :: u.spots[id] == t.spots[id])
      && forall id <- u.spots | id !in t.spots :: exists n :: ValidPost(group, n, u.spots[id].spot, verifySignatures)
  {
    var r := NextRange(st.watermark, first);
    var offered := Offered(group, r, verifySignatures);
    var u := InsertAll(st.tables, offered);
    InsertAllRows(st.tables, offered);
    OverviewHas(group, r.0, r.1);
    PostsHas(Overview(group, r.0, r.1), verifySignatures);
    hide InsertAll, Overview, Posts;
    forall id | id in u.spots && id !in st.tables.spots
      ensures exists n :: ValidPost(group, n, u.spots[id].spot, verifySignatures)
    {
      FirstIsOffered(offered, id);
      var l :| l in Overview(group, r.0, r.1) && Accepted(l.article, verifySignatures)
        && l.article.spot == u.spots[id].spot;
      assert ValidPost(group, l.num, u.spots[id].spot, verifySignatures);
    }
  }

  ghost predicate UniqueIds(group: Group) {
    forall m, n | m in group && n in group && group[m].Post? && group[n].Post?
      && group[m].spot.messageId == group[n].spot.messageId :: m == n
  }

  /** The attempt inserts what a range with article `n` offers. */
  predicate Gives(st: State, e: Fetch, first: int, n: int) {
    && !Finished(st, first) && e.online && e.answered && e.stored
    && NextRange(st.watermark, first).0 <= n <= NextRange(st.watermark, first).1
  }

  ghost predicate GivesAt(t: Tables, es: seq<Fetch>, group: Group, top: int, first: int, verifySignatures: bool, n: int,
                          i: nat)
    requires i < |es|
  {
    Gives(FetchedAll(Begin(t, top), es[..i], group, first, verifySignatures), es[i], first, n)
  }

  ghost predicate GivenTo(t: Tables, es: seq<Fetch>, group: Group, top: int, first: int, verifySignatures: bool,
                          n: int) {
    exists i | 0 <= i < |es| :: GivesAt(t, es, group, top, first, verifySignatures, n, i)
  }

  lemma FetchGives(st: State, e: Fetch, group: Group, first: int, verifySignatures: bool, n: int)
    requires UniqueIds(group) && n in group && Accepted(group[n], verifySignatures)
    ensures var id, u := group[n].spot.messageId, Fetched(st, e, group, first, verifySignatures).tables;
      && (id in u.spots <==> id in st.tables.spots || (id !in st.tables.ring && Gives(st, e, first, n)))
      && u.ring == st.tables.ring
  {
    var id, r := group[n].spot.messageId, NextRange(st.watermark, first);
    var u := InsertAll(st.tables, Offered(group, r, verifySignatures));
    InsertedAreStored(st.tables, group, r, verifySignatures);
    InsertAllRows(st.tables, Offered(group, r, verifySignatures));
    OverviewHas(group, r.0, r.1);
    PostsHas(Overview(group, r.0, r.1), verifySignatures);
    hide InsertAll;
    if id in u.spots && id !in st.tables.spots {
      FirstIsOffered(Offered(group, r, verifySignatures), id);
    }
  }

  /** Which spots the attempts have stored, failed inserts included: an accepted article has a row if and only if
      it had one, or the ring does not bar it and an attempt whose insert succeeded asked for a range with it. */
  lemma {:induction false} StoredExactlyWhen(t: Tables, es: seq<Fetch>, group: Group, top: int, first: int,
                                             verifySignatures: bool, n: int)
    requires UniqueIds(group) && n in group && Accepted(group[n], verifySignatures)
    ensures var id, u := group[n].spot.messageId, FetchedAll(Begin(t, top), es, group, first, verifySignatures).tables;
      && (id in u.spots <==>
            (id in t.spots || (id !in t.ring && GivenTo(t, es, group, top, first, verifySignatures, n))))
      && u.ring == t.ring
  {
    hide Fetched, Gives, UniqueIds;
    if es != [] {
      var init := es[..|es| - 1];
      StoredExactlyWhen(t, init, group, top, first, verifySignatures, n);
      FetchGives(FetchedAll(Begin(t, top), init, group, first, verifySignatures), es[|init|], group, first,
                 verifySignatures, n);
      GivesMore(t, es, group, top, first, verifySignatures, n);
    }
  }

  lemma GivesMore(t: Tables, es: seq<Fetch>, group: Group, top: int, first: int, verifySignatures: bool, n: int)
    requires es != []
    ensures var init := es[..|es| - 1];
      GivenTo(t, es, group, top, first, verifySignatures, n) <==>
        GivenTo(t, init, group, top, first, verifySignatures, n)
        || Gives(FetchedAll(Begin(t, top), init, group, first, verifySignatures), es[|init|], first, n)
  {
    hide Gives, FetchedAll;
    var init := es[..|es| - 1];
    forall i: nat | i < |init|
      ensures GivesAt(t, es, group, top, first, verifySignatures, n, i)
           == GivesAt(t, init, group, top, first, verifySignatures, n, i)
    {
      assert init[..i] == es[..i];
    }
    assert GivesAt(t, es, group, top, first, verifySignatures, n, |init|)
        == Gives(FetchedAll(Begin(t, top), init, group, first, verifySignatures), es[|init|], first, n);
  }

  // ------------------------------------------------------------- the worker

  ghost predicate Matches(db: Database, state: SyncState, st: State)
    reads db, state
  {
    db.Contents() == st.tables && state.backfill == st.watermark
  }

  /** From `t` to `u` the batch has added what its lines say is valid, and nothing else: the posts with a valid
      message-id, in strict mode those with a verified header. */
  ghost predicate TakesValid(t: Tables, u: Tables, lines: seq<Line>, verifySignatures: bool) {
    && (forall l <- lines | l.article.Post? && l.article.validId && (l.article.headerVerified || !verifySignatures) ::
          l.article.spot.messageId in u.spots || l.article.spot.messageId in u.ring)
    && (forall id <- u.spots | id !in t.spots :: exists l <- lines ::
          (l.article.Post? && l.article.validId && (l.article.headerVerified || !verifySignatures)
            && l.article.spot == u.spots[id].spot))
  }

  lemma FilterIs(t: Tables, lines: seq<Line>, verifySignatures: bool)
    ensures TakesValid(t, InsertAll(t, Posts(lines, verifySignatures)), lines, verifySignatures)
  {
    var posts := Posts(lines, verifySignatures);
    InsertAllRows(t, posts);
    PostsHas(lines, verifySignatures);
    hide InsertAll, Posts;
    forall id | id in InsertAll(t, posts).spots && id !in t.spots ensures First(posts, id) in posts {
      FirstIsOffered(posts, id);
    }
  }

  /** ingest: the filter of the forward sync; withdrawals are counted and dropped. A failed insert counts
      as none inserted. */
  method Ingest(db: Database, lines: seq<Line>, verifySignatures: bool, stores: bool)
      returns (inserted: nat, control: nat)
    modifies db
    ensures db.Contents() == if stores then InsertAll(old(db.Contents()), Posts(lines, verifySignatures))
        else old(db.Contents())
    ensures inserted == |db.spots.Keys| - |old(db.spots).Keys|
    ensures control == |Commands(lines)|
    ensures TakesValid(old(db.Contents()), db.Contents(), if stores then lines else [], verifySignatures)
  {
    ghost var t := db.Contents();
    FilterIs(t, lines, verifySignatures);
    FilterIs(t, [], verifySignatures);
    control := 0;
    var spots: seq<Spot> := [];
    for i := 0 to |lines|
      invariant spots == Posts(lines[..i], verifySignatures)
      invariant control == |Commands(lines[..i])|
    {
      assert lines[..i + 1][..i] == lines[..i];
      match lines[i].article {
        case NotSpotnet =>
        case Withdrawal(_) => control := control + 1;
        case Post(spot, headerVerified, validId) =>
          if verifySignatures && !headerVerified {
            continue;
          }
          if !validId {
            continue;
          }
          spots := spots + [spot];
      }
    }
    assert lines[..|lines|] == lines;
    if |spots| == 0 {
      return 0, control;
    }
    if !stores {
      return 0, control;
    }
    inserted := db.InsertSpots(spots);
  }

  /** The attempt gets as far as its checkpoint. */
  predicate GoesThrough(e: Fetch) {
    e.online && e.answered && e.saved
  }

  method BackfillChunk(db: Database, state: SyncState, group: Group, first: int, verifySignatures: bool, e: Fetch,
                       ghost st: State)
    returns (done: bool, failed: bool)
    requires Matches(db, state, st) && first >= 0
    modifies db, state`backfill
    ensures var st' := Fetched(st, e, group, first, verifySignatures);
      && Matches(db, state, st')
      && (!failed ==> done == Finished(st', first) && (!done ==> GoesThrough(e) && st'.watermark < st.watermark))
      && failed == (!e.online || (!Finished(st, first) && !GoesThrough(e)))
  {
    hide Overview, Posts, InsertAll, Commands, TakesValid;
    if !e.online {
      return false, true;
    }
    var oldest := state.backfill;
    if oldest == 0 {
      return true, false;
    }
    if oldest <= first {
      return true, false;
    }
    var till := oldest - 1;
    var from := till - CHUNK_SIZE + 1;
    if from < first {
      from := first;
    }
    if !e.answered {
      return false, true;
    }
    var _, _ := Ingest(db, Overview(group, from, till), verifySignatures, e.stored);
    if !e.saved {
      return false, true;
    }
    state.backfill := from;
    return from <= first, false;
  }

  lemma FetchMore(st: State, es: seq<Fetch>, e: Fetch, group: Group, first: int, verifySignatures: bool)
    ensures FetchedAll(st, [], group, first, verifySignatures) == st
    ensures FetchedAll(st, es + [e], group, first, verifySignatures)
         == Fetched(FetchedAll(st, es, group, first, verifySignatures), e, group, first, verifySignatures)
  {
    hide Fetched;
    assert (es + [e])[..|es|] == es;
  }

  /** backfillGroup: chunk after chunk, as the conditions have it; the first failure ends it until the
      next start. When nothing fails and nobody cancels, it reaches the group's first article. */
  method BackfillGroup(db: Database, state: SyncState, group: Group, first: int, verifySignatures: bool,
                       weather: nat -> Fetch, cancelled: nat -> bool, ghost st: State)
    returns (complete: bool, ghost es: seq<Fetch>)
    requires Matches(db, state, st) && first >= 0
    modifies db, state`backfill
    ensures Matches(db, state, FetchedAll(st, es, group, first, verifySignatures))
    ensures forall i | 0 <= i < |es| :: es[i] == weather(i) && !cancelled(i)
    ensures forall i | 0 <= i < |es| - 1 :: GoesThrough(es[i])
    ensures complete ==> Finished(FetchedAll(st, es, group, first, verifySignatures), first)
    ensures !complete ==> cancelled(|es|) || (es != [] && !GoesThrough(es[|es| - 1]))
    ensures (forall k :: GoesThrough(weather(k)) && !cancelled(k)) ==> complete
  {
    hide Fetched, FetchedAll;
    complete, es := false, [];
    FetchMore(st, [], weather(0), group, first, verifySignatures);
    var k := 0;
    while true
      invariant k == |es| && Matches(db, state, FetchedAll(st, es, group, first, verifySignatures))
      invariant forall i | 0 <= i < |es| :: es[i] == weather(i) && !cancelled(i) && GoesThrough(es[i])
      decreases state.backfill - first
    {
      if cancelled(k) {
        return;
      }
      ghost var now := FetchedAll(st, es, group, first, verifySignatures);
      var done, failed := BackfillChunk(db, state, group, first, verifySignatures, weather(k), now);
      FetchMore(st, es, weather(k), group, first, verifySignatures);
      es, k := es + [weather(k)], k + 1;
      if failed {
        return;
      }
      if done {
        complete := true;
        return;
      }
    }
  }
}
