/** One chunk of the forward sync: insert its spots, then apply its withdrawals; the checkpoint comes
    after both. A crash, a failed owner lookup or a lost connection before the checkpoint makes the
    next run read the same chunk again. Here: that is harmless, and how far. */
module Chunk {
  import opened Store
  import opened StoreInvariants
  import opened Moderation
  import opened ApplyingModeration

  function ChunkSteps(t: Tables, spots: seq<Spot>, cmds: seq<Command>, head: Head, mode: Mode, now: int): seq<Step> {
    [InsertSpots(spots)] + PassSteps(InsertAll(t, spots), cmds, head, mode, now)
  }

  /** One interrupted attempt: the connection may drop at any lookup, the clock shows `now`, and the
      process stops after `steps` of the writes. */
  datatype Attempt = Attempt(drops: nat -> bool, now: int, steps: nat)

  function Prefix<T>(s: seq<T>, n: nat): seq<T> {
    if n <= |s| then s[..n] else s
  }

  function Steady(answers: MessageId -> Answer): Head {
    Head(answers, (k: nat) => false)
  }

  function AfterAttempt(t: Tables, spots: seq<Spot>, cmds: seq<Command>, answers: MessageId -> Answer, mode: Mode,
                        a: Attempt): Tables {
    Run(t, Prefix(ChunkSteps(t, spots, cmds, Head(answers, a.drops), mode, a.now), a.steps))
  }

  function AfterAttempts(t: Tables, spots: seq<Spot>, cmds: seq<Command>, answers: MessageId -> Answer, mode: Mode,
                         attempts: seq<Attempt>): Tables {
    if attempts == [] then t
    else AfterAttempt(AfterAttempts(t, spots, cmds, answers, mode, attempts[..|attempts| - 1]),
                      spots, cmds, answers, mode, attempts[|attempts| - 1])
  }

  /** The uninterrupted run. */
  function Complete(t: Tables, spots: seq<Spot>, cmds: seq<Command>, answers: MessageId -> Answer, mode: Mode,
                    now: int): Tables {
    Run(t, ChunkSteps(t, spots, cmds, Steady(answers), mode, now))
  }

  /** A spot parsed from an overview line has no owner yet and is not moderated. */
  predicate FromOverview(spots: seq<Spot>) {
    forall s <- spots :: s.owner == "" && !s.moderated
  }

  // ----------------------------------------------------------------- inserts

  ghost predicate Offers(ss: seq<Spot>, id: MessageId) {
    exists s <- ss :: s.messageId == id
  }

  /** The first spot of the chunk under a message-id: the one INSERT OR IGNORE keeps. */
  ghost function First(ss: seq<Spot>, id: MessageId): Spot
    requires Offers(ss, id)
  {
    var init := ss[..|ss| - 1];
    if Offers(init, id) then First(init, id) else ss[|ss| - 1]
  }

  /** A spot that the chunk withdraws, that was stored before it and that the chunk offers again, is
      also withdrawn by the chunk in the form in which it is offered. Rows that an interrupted attempt
      deleted are rebuilt in that form. */
  ghost predicate StillTargets(t: Tables, spots: seq<Spot>, cmds: seq<Command>, answers: MessageId -> Answer) {
    forall id <- Targets(InsertAll(t, spots), cmds, Steady(answers)) ::
      id in t.spots && id !in t.ring && Offers(spots, id) ==> OfferWithdrawn(spots, cmds, answers, id)
  }

  ghost predicate OfferWithdrawn(spots: seq<Spot>, cmds: seq<Command>, answers: MessageId -> Answer, id: MessageId)
    requires Offers(spots, id)
  {
    exists c <- cmds :: c.target == id && Entitles(c, Row(0, First(spots, id)), answers(id))
  }

  lemma {:induction false} InsertAllRows(t: Tables, ss: seq<Spot>)
    ensures var u := InsertAll(t, ss);
      && u.ring == t.ring
      && t.spots.Keys <= u.spots.Keys
      && (forall id <- t.spots :: u.spots[id] == t.spots[id])
      && (forall id <- u.spots :: id !in t.spots ==>
            id !in t.ring && Offers(ss, id) && u.spots[id].spot == First(ss, id))
      && (forall s <- ss :: s.messageId in u.spots || s.messageId in t.ring)
  {
    if ss != [] {
      var init, last := ss[..|ss| - 1], ss[|ss| - 1];
      InsertAllRows(t, init);
      assert forall s :: s in ss <==> s in init || s == last;
      assert forall id :: Offers(ss, id) <==> Offers(init, id) || last.messageId == id;
    }
  }

  lemma {:induction false} FirstIsOffered(ss: seq<Spot>, id: MessageId)
    requires Offers(ss, id)
    ensures First(ss, id) in ss && First(ss, id).messageId == id
  {
    var init := ss[..|ss| - 1];
    if Offers(init, id) {
      FirstIsOffered(init, id);
    }
  }

  lemma {:induction false} InsertNothing(t: Tables, ss: seq<Spot>)
    requires forall s <- ss :: s.messageId in t.spots || s.messageId in t.ring
    ensures InsertAll(t, ss) == t
  {
    if ss != [] {
      InsertNothing(t, ss[..|ss| - 1]);
    }
  }

  // ---------------------------------------------------------- the writes of a pass

  /** The writes of a pass over withdrawals. */
  predicate PassStep(s: Step) {
    s.MarkModerated? || s.DeleteByMessageId? || s.SetSpotOwner?
  }

  lemma {:induction false} BatchesAreDeletes(ids: seq<MessageId>)
    ensures forall s <- Batches(ids) :: s.DeleteByMessageId? && forall id <- s.ids :: id in ids
    decreases |ids|
  {
    if |ids| > ID_BATCH {
      BatchesAreDeletes(ids[ID_BATCH..]);
      assert forall id <- ids[..ID_BATCH] :: id in ids;
      assert forall id <- ids[ID_BATCH..] :: id in ids;
    }
  }

  lemma PassIsWork(t: Tables, cmds: seq<Command>, head: Head, mode: Mode, now: int)
    ensures forall s <- PassSteps(t, cmds, head, mode, now) :: PassStep(s)
  {
    hide ScanAll, Consequence;
    var s := ScanAll(t, cmds, head);
    LearningIsWork(t, cmds, head);
    ConsequenceIsWork(s.targets, mode, now);
    forall e <- PassSteps(t, cmds, head, mode, now) ensures PassStep(e) {
      assert e in s.effects || e in Consequence(s.targets, mode, now);
    }
  }

  lemma LearningIsWork(t: Tables, cmds: seq<Command>, head: Head)
    ensures forall s <- ScanAll(t, cmds, head).effects :: s.SetSpotOwner?
  {
    ScanKeeps(t, cmds, head);
    hide ScanAll, Run, LearnedTables;
  }

  lemma ConsequenceIsWork(targets: seq<MessageId>, mode: Mode, now: int)
    ensures forall s <- Consequence(targets, mode, now) ::
      s == MarkModerated(targets, now) || (s.DeleteByMessageId? && forall id <- s.ids :: id in targets)
  {
    BatchesAreDeletes(targets);
    hide Batches;
  }

  // ------------------------------------------------------ what attempts leave

  /** `x` is what an attempt (re)starts its withdrawals from, `t` the same point of the first run:
      rows no withdrawal may touch are unchanged but for owners learned from headers; the targets
      may be marked (mark mode), or gone or rebuilt so that they are targets again (delete mode). */
  ghost predicate Partial(t: Tables, x: Tables, cmds: seq<Command>, head: Head, mode: Mode) {
    var goal := Targets(t, cmds, head);
    && t.spots.Keys - goal <= x.spots.Keys <= t.spots.Keys
    && t.ring.Keys <= x.ring.Keys <= t.ring.Keys + goal
    && (mode == Mark ==> x.spots.Keys == t.spots.Keys)
    && (forall id <- x.spots :: RowPartial(t, x, cmds, head, mode, id))
  }

  ghost predicate RowPartial(t: Tables, x: Tables, cmds: seq<Command>, head: Head, mode: Mode, id: MessageId)
    requires id in t.spots && id in x.spots
  {
    if id !in Targets(t, cmds, head) then
      && Learned(t.spots[id], x.spots[id], AnswerFor(head, id))
      && (x.spots[id] != t.spots[id] ==> NeedsLookup(t, cmds, id))
    else
      && (!x.spots[id].spot.moderated ==> Entitled(x, cmds, head, id))
      && (mode == Delete ==> !x.spots[id].spot.moderated)
      && (mode == Mark ==>
            && (x.spots[id].spot.moderated ==> id in x.ring)
            && Learned(t.spots[id], Unmarked(x.spots[id]), AnswerFor(head, id)))
  }

  function Unmarked(row: Row): Row {
    row.(spot := row.spot.(moderated := false))
  }

  lemma SameTargets(t: Tables, x: Tables, cmds: seq<Command>, head: Head, head': Head, mode: Mode)
    requires Partial(t, x, cmds, head, mode) && SameAnswers(head, head')
    ensures Targets(x, cmds, head')
         == set id | id in Targets(t, cmds, head) && id in x.spots && !x.spots[id].spot.moderated
  {
    forall id | id in x.spots
      ensures Entitled(x, cmds, head', id) <==> Entitled(t, cmds, head, id) && !x.spots[id].spot.moderated
    {
      var a := AnswerFor(head, id);
      assert AnswerFor(head', id) == a;
      if id !in Targets(t, cmds, head) && !x.spots[id].spot.moderated {
        assert forall c :: Entitles(c, x.spots[id], a) <==> Entitles(c, t.spots[id], a);
      }
    }
  }

  /** The row the clean pass leaves for a spot it does not withdraw. */
  ghost function Settled(t: Tables, cmds: seq<Command>, head: Head, id: MessageId): Row
    requires id in t.spots
  {
    if NeedsLookup(t, cmds, id) then Answered(t.spots[id], AnswerFor(head, id)) else t.spots[id]
  }

  lemma SameSettled(t: Tables, x: Tables, cmds: seq<Command>, head: Head, id: MessageId)
    requires id in t.spots && id in x.spots
    requires Learned(t.spots[id], x.spots[id], AnswerFor(head, id))
    requires x.spots[id] != t.spots[id] ==> NeedsLookup(t, cmds, id)
    ensures Settled(x, cmds, head, id) == Settled(t, cmds, head, id)
  {
    if x.spots[id] == t.spots[id] {
      assert NeedsLookup(x, cmds, id) <==> NeedsLookup(t, cmds, id);
    }
  }

  /** What the mode does with the queued targets. */
  lemma ConsequenceFacts(u: Tables, targets: seq<MessageId>, mode: Mode, now: int)
    requires mode != Off && forall id <- targets :: id in u.spots
    ensures var f := Run(u, Consequence(targets, mode, now));
      && f.spots.Keys == (if mode == Delete then u.spots.Keys - SetOf(targets) else u.spots.Keys)
      && f.ring.Keys == u.ring.Keys + SetOf(targets)
      && forall id <- f.spots :: f.spots[id] == if id in targets then Marked(u.spots[id]) else u.spots[id]
  {
    if targets != [] {
      match mode
      case Mark =>
        RunOne(u, MarkModerated(targets, now));
        MarkAllFacts(u, targets, now);
      case Delete =>
        RunConcat(u, Batches(targets), [MarkModerated(targets, now)]);
        RunOne(Run(u, Batches(targets)), MarkModerated(targets, now));
        BatchesDelete(u, targets);
        MarkAllFacts(Run(u, Batches(targets)), targets, now);
      case Off =>
    }
  }

  /** The scan of a steady connection, in terms of the tables it starts from. */
  lemma CleanScan(x: Tables, cmds: seq<Command>, answers: MessageId -> Answer)
    ensures var head := Steady(answers);
      var goal := Targets(x, cmds, head);
      var s := ScanAll(x, cmds, head);
      && SetOf(s.targets) == goal
      && s.tables.spots.Keys == x.spots.Keys && s.tables.ring == x.ring
      && (forall id <- x.spots :: id !in goal ==> s.tables.spots[id] == Settled(x, cmds, head, id))
      && (forall id <- x.spots :: id in goal ==>
            && Learned(x.spots[id], s.tables.spots[id], answers(id))
            && !s.tables.spots[id].spot.moderated)
  {
    var head := Steady(answers);
    var s := ScanAll(x, cmds, head);
    ScanKeeps(x, cmds, head);
    QueuesExactlyTheTargets(x, cmds, head);
    ReliableNeverFails(x, cmds, head);
    forall id <- x.spots
      ensures id !in s.targets ==> s.tables.spots[id] == Settled(x, cmds, head, id)
      ensures Learned(x.spots[id], s.tables.spots[id], answers(id))
    {
      assert AnswerFor(head, id) == answers(id);
    }
  }

  /** A whole pass: the rows its scan left, with the targets marked or deleted. */
  lemma PassFacts(x: Tables, cmds: seq<Command>, head: Head, mode: Mode, now: int)
    requires mode != Off
    ensures var s := ScanAll(x, cmds, head);
      var f := Run(x, PassSteps(x, cmds, head, mode, now));
      && f.spots.Keys == (if mode == Delete then s.tables.spots.Keys - SetOf(s.targets) else s.tables.spots.Keys)
      && f.ring.Keys == s.tables.ring.Keys + SetOf(s.targets)
      && forall id <- f.spots :: f.spots[id] == if id in s.targets then Marked(s.tables.spots[id])
          else s.tables.spots[id]
  {
    PassRun(x, cmds, head, mode, now);
    ScanTargets(x, cmds, head);
    ConsequenceFacts(ScanAll(x, cmds, head).tables, ScanAll(x, cmds, head).targets, mode, now);
  }

  /** The listing a clean pass leaves, in terms of the tables before it. */
  ghost function Listing(x: Tables, cmds: seq<Command>, head: Head): map<MessageId, Row> {
    map id | id in x.spots && id !in Targets(x, cmds, head) && !x.spots[id].spot.moderated ::
      Settled(x, cmds, head, id)
  }

  lemma VisibleFrom(f: Tables, u: Tables, goal: set<MessageId>, mode: Mode)
    requires f.spots.Keys == if mode == Delete then u.spots.Keys - goal else u.spots.Keys
    requires forall id <- f.spots :: f.spots[id] == if id in goal then Marked(u.spots[id]) else u.spots[id]
    ensures Visible(f) == map id | id in u.spots && id !in goal && !u.spots[id].spot.moderated :: u.spots[id]
  {}

  lemma ListingFrom(u: Tables, x: Tables, cmds: seq<Command>, head: Head, goal: set<MessageId>)
    requires goal == Targets(x, cmds, head) && u.spots.Keys == x.spots.Keys
    requires forall id <- x.spots :: id !in goal ==> u.spots[id] == Settled(x, cmds, head, id)
    ensures Listing(x, cmds, head) == map id | id in u.spots && id !in goal && !u.spots[id].spot.moderated ::
        u.spots[id]
  {}

  lemma ListingAfterPass(x: Tables, cmds: seq<Command>, answers: MessageId -> Answer, mode: Mode, now: int)
    requires mode != Off
    ensures Visible(Run(x, PassSteps(x, cmds, Steady(answers), mode, now))) == Listing(x, cmds, Steady(answers))
  {
    var head := Steady(answers);
    var s := ScanAll(x, cmds, head);
    var goal := SetOf(s.targets);
    PassFacts(x, cmds, head, mode, now);
    CleanScan(x, cmds, answers);
    VisibleFrom(Run(x, PassSteps(x, cmds, head, mode, now)), s.tables, goal, mode);
    ListingFrom(s.tables, x, cmds, head, goal);
  }

  lemma SameListings(t: Tables, x: Tables, cmds: seq<Command>, head: Head, mode: Mode)
    requires Partial(t, x, cmds, head, mode)
    ensures Listing(x, cmds, head) == Listing(t, cmds, head)
  {
    SameTargets(t, x, cmds, head, head, mode);
    forall id | id in x.spots && id !in Targets(t, cmds, head)
      ensures Settled(x, cmds, head, id) == Settled(t, cmds, head, id)
      ensures x.spots[id].spot.moderated == t.spots[id].spot.moderated
    {
      SameSettled(t, x, cmds, head, id);
    }
    hide Settled, Entitled, NeedsLookup, RowPartial;
  }

  /** However far the interrupted attempts came, the next uninterrupted pass ends with the listing
      that one uninterrupted pass would have given. */
  lemma PartialSameListing(t: Tables, x: Tables, cmds: seq<Command>, answers: MessageId -> Answer, mode: Mode,
                           now: int, now': int)
    requires mode != Off
    requires Partial(t, x, cmds, Steady(answers), mode)
    ensures Visible(Run(x, PassSteps(x, cmds, Steady(answers), mode, now')))
         == Visible(Run(t, PassSteps(t, cmds, Steady(answers), mode, now)))
  {
    ListingAfterPass(t, cmds, answers, mode, now);
    ListingAfterPass(x, cmds, answers, mode, now');
    SameListings(t, x, cmds, Steady(answers), mode);
  }

  // ------------------------------------------- interrupted attempts stay partial

  lemma {:induction false} LearnStepsOnly(x: Tables, cmds: seq<Command>, head: Head, effects: seq<Step>)
    requires forall e <- effects :: LearnStep(x, cmds, head, e)
    ensures LearnedTables(x, Run(x, effects), cmds, head)
  {
    if effects != [] {
      LearnStepsOnly(x, cmds, head, effects[..|effects| - 1]);
      assert LearnStep(x, cmds, head, effects[|effects| - 1]);
    }
  }

  lemma LearnedStaysEntitled(x: Tables, y: Tables, cmds: seq<Command>, head: Head, id: MessageId)
    requires id in y.spots && Entitled(x, cmds, head, id)
    requires Learned(x.spots[id], y.spots[id], AnswerFor(head, id))
    ensures Entitled(y, cmds, head, id)
  {
    var c :| c in cmds && c.target == id && Entitles(c, x.spots[id], AnswerFor(head, id));
    assert Entitles(c, y.spots[id], AnswerFor(head, id));
  }

  lemma RowLearns(t: Tables, x: Tables, y: Tables, cmds: seq<Command>, head: Head, mode: Mode, id: MessageId)
    requires id in t.spots && id in x.spots && id in y.spots && x.ring == y.ring
    requires RowPartial(t, x, cmds, head, mode, id)
    requires Learned(x.spots[id], y.spots[id], AnswerFor(head, id))
    requires y.spots[id] != x.spots[id] ==> NeedsLookup(x, cmds, id)
    ensures RowPartial(t, y, cmds, head, mode, id)
  {
    if id in Targets(t, cmds, head) {
      if !x.spots[id].spot.moderated {
        LearnedStaysEntitled(x, y, cmds, head, id);
      }
    }
  }

  lemma LearningKeepsPartial(t: Tables, x: Tables, y: Tables, cmds: seq<Command>, head: Head, head': Head, mode: Mode)
    requires Partial(t, x, cmds, head, mode) && SameAnswers(head, head')
    requires LearnedTables(x, y, cmds, head')
    ensures Partial(t, y, cmds, head, mode)
  {
    hide RowPartial;
    forall id <- y.spots ensures RowPartial(t, y, cmds, head, mode, id) {
      assert AnswerFor(head', id) == AnswerFor(head, id);
      RowLearns(t, x, y, cmds, head, mode, id);
    }
  }

  /** Rows of targets removed, everything else as before. */
  ghost predicate Dropped(u: Tables, y: Tables, ids: set<MessageId>) {
    && u.spots.Keys - ids <= y.spots.Keys <= u.spots.Keys
    && y.ring == u.ring
    && forall id <- y.spots :: y.spots[id] == u.spots[id]
  }

  lemma DropsMore(u: Tables, v: Tables, y: Tables, a: set<MessageId>, b: set<MessageId>)
    requires Dropped(u, v, a) && Dropped(v, y, b)
    ensures Dropped(u, y, a + b)
  {}

  lemma BatchDrops(u: Tables, ids: seq<MessageId>)
    ensures Dropped(u, Run(u, [DeleteByMessageId(ids)]), SetOf(ids))
  {
    RunOne(u, DeleteByMessageId(ids));
    assert (u.spots - SetOf(ids)).Keys == u.spots.Keys - SetOf(ids);
  }

  lemma {:induction false} BatchPrefixDrops(u: Tables, ids: seq<MessageId>, j: nat)
    ensures Dropped(u, Run(u, Prefix(Batches(ids), j)), SetOf(ids))
    decreases |ids|
  {
    hide Run, Dropped, Batches, Prefix, SetOf;
    FirstOfBatches(ids, j);
    if j == 0 || ids == [] {
      NothingDropped(u, SetOf(ids));
    } else if |ids| <= ID_BATCH {
      BatchDrops(u, ids);
    } else {
      var first, rest := ids[..ID_BATCH], ids[ID_BATCH..];
      var v := Run(u, [DeleteByMessageId(first)]);
      BatchDrops(u, first);
      RunConcat(u, [DeleteByMessageId(first)], Prefix(Batches(rest), j - 1));
      BatchPrefixDrops(v, rest, j - 1);
      DropsMore(u, v, Run(v, Prefix(Batches(rest), j - 1)), SetOf(first), SetOf(rest));
    }
  }

  lemma NothingDropped(u: Tables, ids: set<MessageId>)
    ensures Dropped(u, Run(u, []), ids)
  {}

  lemma PrefixCons<T>(first: T, rest: seq<T>, j: nat)
    requires j > 0
    ensures Prefix([first] + rest, j) == [first] + Prefix(rest, j - 1)
  {}

  lemma SetOfParts(a: seq<MessageId>, b: seq<MessageId>)
    ensures SetOf(a + b) == SetOf(a) + SetOf(b)
  {}

  lemma FirstOfBatches(ids: seq<MessageId>, j: nat)
    ensures j == 0 || ids == [] ==> Prefix(Batches(ids), j) == []
    ensures j > 0 && 0 < |ids| <= ID_BATCH ==> Prefix(Batches(ids), j) == [DeleteByMessageId(ids)]
    ensures j > 0 && |ids| > ID_BATCH ==>
      var first, rest := ids[..ID_BATCH], ids[ID_BATCH..];
      && Prefix(Batches(ids), j) == [DeleteByMessageId(first)] + Prefix(Batches(rest), j - 1)
      && SetOf(ids) == SetOf(first) + SetOf(rest)
  {
    if |ids| > ID_BATCH {
      var first, rest := ids[..ID_BATCH], ids[ID_BATCH..];
      assert ids == first + rest;
      assert Batches(ids) == [DeleteByMessageId(first)] + Batches(rest);
      hide Batches, SetOf;
      SetOfParts(first, rest);
      if j > 0 { PrefixCons(DeleteByMessageId(first), Batches(rest), j); }
      hide Prefix;
    }
  }

  lemma RowKept(t: Tables, x: Tables, y: Tables, cmds: seq<Command>, head: Head, mode: Mode, id: MessageId)
    requires id in t.spots && id in x.spots && id in y.spots && y.spots[id] == x.spots[id] && x.ring.Keys <= y.ring.Keys
    requires RowPartial(t, x, cmds, head, mode, id)
    ensures RowPartial(t, y, cmds, head, mode, id)
  {
    assert Entitled(x, cmds, head, id) ==> Entitled(y, cmds, head, id);
  }

  lemma DroppingKeepsPartial(t: Tables, x: Tables, y: Tables, cmds: seq<Command>, head: Head, ids: set<MessageId>)
    requires Partial(t, x, cmds, head, Delete) && ids <= Targets(t, cmds, head)
    requires Dropped(x, y, ids)
    ensures Partial(t, y, cmds, head, Delete)
  {
    hide RowPartial;
    forall id <- y.spots ensures RowPartial(t, y, cmds, head, Delete, id) {
      RowKept(t, x, y, cmds, head, Delete, id);
    }
  }

  lemma RowMarked(t: Tables, x: Tables, y: Tables, cmds: seq<Command>, head: Head, id: MessageId)
    requires id in t.spots && id in x.spots && id in y.spots && y.spots[id] == Marked(x.spots[id]) && id in y.ring
    requires id in Targets(t, cmds, head) && !x.spots[id].spot.moderated && RowPartial(t, x, cmds, head, Mark, id)
    ensures RowPartial(t, y, cmds, head, Mark, id)
  {
    assert Unmarked(y.spots[id]) == x.spots[id] == Unmarked(x.spots[id]);
  }

  lemma MarkingKeepsPartial(t: Tables, x: Tables, y: Tables, cmds: seq<Command>, head: Head, mode: Mode,
      ids: set<MessageId>)
    requires mode != Off && Partial(t, x, cmds, head, mode) && ids <= Targets(t, cmds, head)
    requires y.spots.Keys == x.spots.Keys && y.ring.Keys == x.ring.Keys + ids
    requires forall id <- x.spots :: y.spots[id] == if id in ids then Marked(x.spots[id]) else x.spots[id]
    requires mode == Delete ==> ids !! x.spots.Keys
    requires forall id | id in ids && id in x.spots :: !x.spots[id].spot.moderated
    ensures Partial(t, y, cmds, head, mode)
  {
    hide RowPartial;
    forall id <- y.spots ensures RowPartial(t, y, cmds, head, mode, id) {
      if id in ids {
        RowMarked(t, x, y, cmds, head, id);
      } else {
        RowKept(t, x, y, cmds, head, mode, id);
      }
    }
  }

  lemma MarkedTablesKeepPartial(t: Tables, u: Tables, cmds: seq<Command>, head: Head, mode: Mode,
                                targets: seq<MessageId>, now: int)
    requires mode != Off && Partial(t, u, cmds, head, mode) && SetOf(targets) <= Targets(t, cmds, head)
    requires mode == Delete ==> SetOf(targets) !! u.spots.Keys
    requires forall id <- targets :: id in u.spots ==> !u.spots[id].spot.moderated
    ensures Partial(t, MarkAll(u, targets, now), cmds, head, mode)
  {
    MarkAllFacts(u, targets, now);
    MarkingKeepsPartial(t, u, MarkAll(u, targets, now), cmds, head, mode, SetOf(targets));
  }

  lemma DeletedTablesKeepPartial(t: Tables, u: Tables, cmds: seq<Command>, head: Head,
                                 targets: seq<MessageId>, now: int)
    requires Partial(t, u, cmds, head, Delete) && SetOf(targets) <= Targets(t, cmds, head)
    ensures Partial(t, MarkAll(Run(u, Batches(targets)), targets, now), cmds, head, Delete)
  {
    var v := Run(u, Batches(targets));
    BatchesDelete(u, targets);
    DroppingKeepsPartial(t, u, v, cmds, head, SetOf(targets));
    MarkedTablesKeepPartial(t, v, cmds, head, Delete, targets, now);
  }

  lemma ConsequencePrefixKeepsPartial(t: Tables, u: Tables, cmds: seq<Command>, head: Head, mode: Mode,
                                      targets: seq<MessageId>, now: int, j: nat)
    requires Partial(t, u, cmds, head, mode) && mode != Off
    requires SetOf(targets) <= Targets(t, cmds, head)
    requires forall id <- targets :: id in u.spots && !u.spots[id].spot.moderated
    ensures Partial(t, Run(u, Prefix(Consequence(targets, mode, now), j)), cmds, head, mode)
  {
    var steps := Consequence(targets, mode, now);
    hide Partial, Entitled, Batches, MarkAll, SetOf;
    if targets == [] || j == 0 {
      assert Prefix(steps, j) == [];
    } else if mode == Mark {
      assert Prefix(steps, j) == [MarkModerated(targets, now)];
      RunOne(u, MarkModerated(targets, now));
      MarkedTablesKeepPartial(t, u, cmds, head, mode, targets, now);
    } else if j <= |Batches(targets)| {
      assert Prefix(steps, j) == Prefix(Batches(targets), j);
      BatchPrefixDrops(u, targets, j);
      DroppingKeepsPartial(t, u, Run(u, Prefix(steps, j)), cmds, head, SetOf(targets));
    } else {
      assert Prefix(steps, j) == steps;
      RunConcat(u, Batches(targets), [MarkModerated(targets, now)]);
      RunOne(Run(u, Batches(targets)), MarkModerated(targets, now));
      DeletedTablesKeepPartial(t, u, cmds, head, targets, now);
    }
  }

  /** In delete mode, re-inserting the chunk's spots rebuilds deleted targets as targets. */
  lemma RebuiltTarget(t0: Tables, t: Tables, y: Tables, spots: seq<Spot>, cmds: seq<Command>,
                      answers: MessageId -> Answer, id: MessageId)
    requires t == InsertAll(t0, spots) && FromOverview(spots) && StillTargets(t0, spots, cmds, answers)
    requires t.spots.Keys - Targets(t, cmds, Steady(answers)) <= y.spots.Keys && t.ring.Keys <= y.ring.Keys
    requires id in InsertAll(y, spots).spots && id !in y.spots
    ensures id in Targets(t, cmds, Steady(answers)) && !InsertAll(y, spots).spots[id].spot.moderated
    ensures Entitled(InsertAll(y, spots), cmds, Steady(answers), id)
  {
    var z, head := InsertAll(y, spots), Steady(answers);
    InsertAllRows(t0, spots);
    InsertAllRows(y, spots);
    FirstIsOffered(spots, id);
    assert id in Targets(t, cmds, head) && AnswerFor(head, id) == answers(id);
    if id in t0.spots {
      var c :| c in cmds && c.target == id && Entitles(c, Row(0, First(spots, id)), answers(id));
      assert Entitles(c, z.spots[id], AnswerFor(head, id));
    } else {
      var c :| c in cmds && c.target == id && Entitles(c, t.spots[id], AnswerFor(head, id));
      assert Entitles(c, z.spots[id], AnswerFor(head, id));
    }
  }

  lemma InsertKeepsPartial(t0: Tables, t: Tables, y: Tables, spots: seq<Spot>, cmds: seq<Command>,
                           answers: MessageId -> Answer, mode: Mode)
    requires t == InsertAll(t0, spots) && FromOverview(spots) && mode != Off
    requires mode == Delete ==> StillTargets(t0, spots, cmds, answers)
    requires Partial(t, y, cmds, Steady(answers), mode)
    ensures Partial(t, InsertAll(y, spots), cmds, Steady(answers), mode)
  {
    InsertAllRows(t0, spots);
    if mode == Mark {
      InsertNothing(y, spots);
    } else {
      InsertAllRows(y, spots);
      var z := InsertAll(y, spots);
      forall id | id in z.spots && id !in y.spots
        ensures id in Targets(t, cmds, Steady(answers)) && !z.spots[id].spot.moderated
        ensures Entitled(z, cmds, Steady(answers), id)
      {
        RebuiltTarget(t0, t, y, spots, cmds, answers, id);
      }
      AddingKeepsPartial(t, y, z, cmds, Steady(answers));
    }
  }

  lemma AddingKeepsPartial(t: Tables, y: Tables, z: Tables, cmds: seq<Command>, head: Head)
    requires Partial(t, y, cmds, head, Delete)
    requires y.spots.Keys <= z.spots.Keys && z.ring == y.ring
    requires forall id <- y.spots :: z.spots[id] == y.spots[id]
    requires forall id <- z.spots :: id !in y.spots ==>
      id in Targets(t, cmds, head) && !z.spots[id].spot.moderated && Entitled(z, cmds, head, id)
    ensures Partial(t, z, cmds, head, Delete)
  {
    hide RowPartial, Entitled;
    forall id <- z.spots ensures RowPartial(t, z, cmds, head, Delete, id) {
      if id in y.spots {
        RowKept(t, y, z, cmds, head, Delete, id);
      } else {
        RowRebuilt(t, z, cmds, head, id);
      }
    }
  }

  lemma RowRebuilt(t: Tables, z: Tables, cmds: seq<Command>, head: Head, id: MessageId)
    requires id in t.spots && id in z.spots && id in Targets(t, cmds, head)
    requires !z.spots[id].spot.moderated && Entitled(z, cmds, head, id)
    ensures RowPartial(t, z, cmds, head, Delete, id)
  {}

  /** What any prefix of a pass may do to one row. */
  lemma PassPrefixRow(x: Tables, cmds: seq<Command>, answers: MessageId -> Answer, drops: nat -> bool, mode: Mode,
      now: int, k: nat, id: MessageId)
    requires mode != Off
    requires id in Run(x, Prefix(PassSteps(x, cmds, Head(answers, drops), mode, now), k)).spots
    ensures id in x.spots
    ensures var row := Run(x, Prefix(PassSteps(x, cmds, Head(answers, drops), mode, now), k)).spots[id];
      Learned(x.spots[id], row, answers(id))
          || (exists r: Row :: Learned(x.spots[id], r, answers(id)) && row == Marked(r))
  {
    var head := Head(answers, drops);
    var s := ScanAll(x, cmds, head);
    var rest, n := Consequence(s.targets, mode, now), |s.effects|;
    ScanKeeps(x, cmds, head);
    assert AnswerFor(head, id) == answers(id);
    hide ScanAll, Run, Consequence, Entitled, NeedsLookup, Distinct;
    if k <= n {
      assert Prefix(s.effects + rest, k) == s.effects[..k];
      LearnStepsOnly(x, cmds, head, s.effects[..k]);
    } else {
      assert Prefix(s.effects + rest, k) == s.effects + Prefix(rest, k - n);
      RunConcat(x, s.effects, Prefix(rest, k - n));
      ConsequencePrefixRow(s.tables, s.targets, mode, now, k - n, id);
    }
  }

  lemma ConsequencePrefixRow(u: Tables, targets: seq<MessageId>, mode: Mode, now: int, j: nat, id: MessageId)
    requires mode != Off && id in Run(u, Prefix(Consequence(targets, mode, now), j)).spots
    ensures id in u.spots
    ensures var row := Run(u, Prefix(Consequence(targets, mode, now), j)).spots[id];
      row == u.spots[id] || row == Marked(u.spots[id])
  {
    var steps := Consequence(targets, mode, now);
    hide Batches, MarkAll;
    if targets == [] || j == 0 {
      assert Prefix(steps, j) == [];
    } else if mode == Mark {
      assert Prefix(steps, j) == [MarkModerated(targets, now)];
      RunOne(u, MarkModerated(targets, now));
      MarkAllFacts(u, targets, now);
    } else if j <= |Batches(targets)| {
      assert Prefix(steps, j) == Prefix(Batches(targets), j);
      BatchPrefixDrops(u, targets, j);
    } else {
      assert Prefix(steps, j) == steps;
      var v := Run(u, Batches(targets));
      RunConcat(u, Batches(targets), [MarkModerated(targets, now)]);
      RunOne(v, MarkModerated(targets, now));
      BatchesDelete(u, targets);
      MarkAllFacts(v, targets, now);
    }
  }

  /** Writes that only learn owners, for any part `sub` of the batch. */
  lemma LookupsKeepPartial(t: Tables, x: Tables, cmds: seq<Command>, sub: seq<Command>, answers: MessageId -> Answer,
                           head': Head, mode: Mode, effects: seq<Step>)
    requires Partial(t, x, cmds, Steady(answers), mode) && SameAnswers(Steady(answers), head')
    requires (forall c <- sub :: c in cmds) && forall e <- effects :: LearnStep(x, sub, head', e)
    ensures Partial(t, Run(x, effects), cmds, Steady(answers), mode)
  {
    hide Partial, LearnedTables, Run, LearnStep;
    LearnStepsOnly(x, sub, head', effects);
    LearnedInBatch(x, Run(x, effects), cmds, sub, head');
    LearningKeepsPartial(t, x, Run(x, effects), cmds, Steady(answers), head', mode);
  }

  /** Any part `sub` of the batch, run on any connection and cut short anywhere. */
  lemma PassPrefixKeepsPartial(t: Tables, x: Tables, cmds: seq<Command>, sub: seq<Command>,
      answers: MessageId -> Answer, drops: nat -> bool, mode: Mode, now: int, k: nat)
    requires mode != Off && Partial(t, x, cmds, Steady(answers), mode)
    requires forall c <- sub :: c in cmds
    ensures Partial(t, Run(x, Prefix(PassSteps(x, sub, Head(answers, drops), mode, now), k)), cmds, Steady(answers),
        mode)
  {
    var head, head' := Steady(answers), Head(answers, drops);
    var s := ScanAll(x, sub, head');
    var rest := Consequence(s.targets, mode, now);
    var n := |s.effects|;
    hide Partial, ScanAll, Run, Consequence, LearnStep;
    ScanEffects(x, sub, head');
    if k <= n {
      assert Prefix(s.effects + rest, k) == s.effects[..k];
      LookupsKeepPartial(t, x, cmds, sub, answers, head', mode, s.effects[..k]);
    } else {
      assert Prefix(s.effects + rest, k) == s.effects + Prefix(rest, k - n);
      hide Prefix;
      RunConcat(x, s.effects, Prefix(rest, k - n));
      LookupsKeepPartial(t, x, cmds, sub, answers, head', mode, s.effects);
      QueuedArePartOfTheGoal(t, x, cmds, sub, head, head', mode);
      ConsequencePrefixKeepsPartial(t, s.tables, cmds, head, mode, s.targets, now, k - n);
    }
  }

  lemma ScanEffects(x: Tables, cmds: seq<Command>, head: Head)
    ensures var s := ScanAll(x, cmds, head);
      s.tables == Run(x, s.effects) && forall e <- s.effects :: LearnStep(x, cmds, head, e)
  {
    ScanKeeps(x, cmds, head);
  }

  lemma LearnedInBatch(x: Tables, y: Tables, cmds: seq<Command>, sub: seq<Command>, head: Head)
    requires LearnedTables(x, y, sub, head) && forall c <- sub :: c in cmds
    ensures LearnedTables(x, y, cmds, head)
  {}

  lemma TargetsInBatch(x: Tables, cmds: seq<Command>, sub: seq<Command>, head: Head)
    requires forall c <- sub :: c in cmds
    ensures Targets(x, sub, head) <= Targets(x, cmds, head)
  {}

  lemma QueuedArePartOfTheGoal(t: Tables, x: Tables, cmds: seq<Command>, sub: seq<Command>, head: Head, head': Head,
      mode: Mode)
    requires Partial(t, x, cmds, head, mode) && SameAnswers(head, head')
    requires forall c <- sub :: c in cmds
    ensures var s := ScanAll(x, sub, head');
      && SetOf(s.targets) <= Targets(t, cmds, head)
      && forall id <- s.targets :: id in s.tables.spots && !s.tables.spots[id].spot.moderated
  {
    var s := ScanAll(x, sub, head');
    ScanKeeps(x, sub, head');
    TargetsInBatch(x, cmds, sub, head');
    SameTargets(t, x, cmds, head, head', mode);
    forall id <- s.targets
      ensures id in Targets(x, sub, head')
      ensures id in s.tables.spots && !s.tables.spots[id].spot.moderated
    {
      assert Entitled(x, sub, head', id);
      assert Learned(x.spots[id], s.tables.spots[id], AnswerFor(head', id));
    }
  }

  lemma PartialItself(t: Tables, cmds: seq<Command>, head: Head, mode: Mode)
    ensures Partial(t, t, cmds, head, mode)
  {
    forall id | id in Targets(t, cmds, head)
      ensures !t.spots[id].spot.moderated && Unmarked(t.spots[id]) == t.spots[id]
    {
      assert Entitled(t, cmds, head, id);
    }
  }

  lemma ChunkRun(t: Tables, spots: seq<Spot>, cmds: seq<Command>, head: Head, mode: Mode, now: int, k: nat)
    ensures var x := InsertAll(t, spots);
      Run(t, Prefix(ChunkSteps(t, spots, cmds, head, mode, now), k))
        == if k == 0 then t else Run(x, Prefix(PassSteps(x, cmds, head, mode, now), k - 1))
  {
    var x := InsertAll(t, spots);
    var pass := PassSteps(x, cmds, head, mode, now);
    if k > 0 {
      assert Prefix(ChunkSteps(t, spots, cmds, head, mode, now), k) == [InsertSpots(spots)] + Prefix(pass, k - 1);
      RunConcat(t, [InsertSpots(spots)], Prefix(pass, k - 1));
      RunOne(t, InsertSpots(spots));
    }
  }

  lemma CompleteIs(t: Tables, spots: seq<Spot>, cmds: seq<Command>, answers: MessageId -> Answer, mode: Mode, now: int)
    ensures var x := InsertAll(t, spots);
      Complete(t, spots, cmds, answers, mode, now) == Run(x, PassSteps(x, cmds, Steady(answers), mode, now))
  {
    RunConcat(t, [InsertSpots(spots)], PassSteps(InsertAll(t, spots), cmds, Steady(answers), mode, now));
    RunOne(t, InsertSpots(spots));
  }

  lemma AttemptStaysPartial(t0: Tables, u: Tables, spots: seq<Spot>, cmds: seq<Command>, answers: MessageId -> Answer,
                            mode: Mode, a: Attempt)
    requires FromOverview(spots) && mode != Off
    requires mode == Delete ==> StillTargets(t0, spots, cmds, answers)
    requires Partial(InsertAll(t0, spots), InsertAll(u, spots), cmds, Steady(answers), mode)
    ensures Partial(InsertAll(t0, spots), InsertAll(AfterAttempt(u, spots, cmds, answers, mode, a), spots), cmds,
                    Steady(answers), mode)
  {
    var t, x := InsertAll(t0, spots), InsertAll(u, spots);
    ChunkRun(u, spots, cmds, Head(answers, a.drops), mode, a.now, a.steps);
    if a.steps > 0 {
      PassPrefixKeepsPartial(t, x, cmds, cmds, answers, a.drops, mode, a.now, a.steps - 1);
      InsertKeepsPartial(t0, t, AfterAttempt(u, spots, cmds, answers, mode, a), spots, cmds, answers, mode);
    }
  }

  lemma {:induction false} AttemptsStayPartial(t: Tables, spots: seq<Spot>, cmds: seq<Command>,
      answers: MessageId -> Answer, mode: Mode, attempts: seq<Attempt>)
    requires FromOverview(spots) && mode != Off
    requires mode == Delete ==> StillTargets(t, spots, cmds, answers)
    ensures Partial(InsertAll(t, spots), InsertAll(AfterAttempts(t, spots, cmds, answers, mode, attempts), spots), cmds,
                    Steady(answers), mode)
  {
    if attempts == [] {
      PartialItself(InsertAll(t, spots), cmds, Steady(answers), mode);
    } else {
      var init, a := attempts[..|attempts| - 1], attempts[|attempts| - 1];
      AttemptsStayPartial(t, spots, cmds, answers, mode, init);
      AttemptStaysPartial(t, AfterAttempts(t, spots, cmds, answers, mode, init), spots, cmds, answers, mode, a);
    }
  }

  lemma {:induction false} OffOnlyInserts(t: Tables, spots: seq<Spot>, cmds: seq<Command>, answers: MessageId -> Answer,
                                          attempts: seq<Attempt>)
    ensures InsertAll(AfterAttempts(t, spots, cmds, answers, Off, attempts), spots) == InsertAll(t, spots)
  {
    if attempts != [] {
      var init, a := attempts[..|attempts| - 1], attempts[|attempts| - 1];
      var u := AfterAttempts(t, spots, cmds, answers, Off, init);
      OffOnlyInserts(t, spots, cmds, answers, init);
      ChunkRun(u, spots, cmds, Head(answers, a.drops), Off, a.now, a.steps);
      InsertAllRows(u, spots);
      InsertNothing(InsertAll(u, spots), spots);
    }
  }

  /** Re-running a chunk after any number of interrupted attempts, in any mode, ends with the same
      listing as one uninterrupted run. */
  lemma RerunGivesTheSameListing(t: Tables, spots: seq<Spot>, cmds: seq<Command>, answers: MessageId -> Answer,
      mode: Mode, attempts: seq<Attempt>, now: int, now': int)
    requires FromOverview(spots)
    requires mode == Delete ==> StillTargets(t, spots, cmds, answers)
    ensures var u := AfterAttempts(t, spots, cmds, answers, mode, attempts);
      Visible(Complete(u, spots, cmds, answers, mode, now')) == Visible(Complete(t, spots, cmds, answers, mode, now))
  {
    var u := AfterAttempts(t, spots, cmds, answers, mode, attempts);
    CompleteIs(t, spots, cmds, answers, mode, now);
    CompleteIs(u, spots, cmds, answers, mode, now');
    if mode == Off {
      OffOnlyInserts(t, spots, cmds, answers, attempts);
    } else {
      AttemptsStayPartial(t, spots, cmds, answers, mode, attempts);
      PartialSameListing(InsertAll(t, spots), InsertAll(u, spots), cmds, answers, mode, now, now');
    }
  }

  lemma PartialSameMarks(t: Tables, x: Tables, cmds: seq<Command>, answers: MessageId -> Answer, now: int, now': int)
    requires Partial(t, x, cmds, Steady(answers), Mark)
    ensures var head := Steady(answers);
      var f, g := Run(t, PassSteps(t, cmds, head, Mark, now)), Run(x, PassSteps(x, cmds, head, Mark, now'));
      g.spots.Keys == f.spots.Keys && g.ring.Keys == f.ring.Keys && ModeratedIds(g) == ModeratedIds(f)
  {
    var head := Steady(answers);
    PassFacts(t, cmds, head, Mark, now);
    PassFacts(x, cmds, head, Mark, now');
    CleanScan(t, cmds, answers);
    CleanScan(x, cmds, answers);
    SameTargets(t, x, cmds, head, head, Mark);
    PartialSameListing(t, x, cmds, answers, Mark, now, now');
    var f, g := Run(t, PassSteps(t, cmds, head, Mark, now)), Run(x, PassSteps(x, cmds, head, Mark, now'));
    ModeratedFromVisible(f);
    ModeratedFromVisible(g);
  }

  lemma ModeratedFromVisible(t: Tables)
    ensures ModeratedIds(t) == t.spots.Keys - Visible(t).Keys
  {}

  /** In mark mode the rows, the ring and the set of withdrawn spots come out the same too. */
  lemma RerunGivesTheSameMarks(t: Tables, spots: seq<Spot>, cmds: seq<Command>, answers: MessageId -> Answer,
                               attempts: seq<Attempt>, now: int, now': int)
    requires FromOverview(spots)
    ensures var f := Complete(t, spots, cmds, answers, Mark, now);
      var g := Complete(AfterAttempts(t, spots, cmds, answers, Mark, attempts), spots, cmds, answers, Mark, now');
      g.spots.Keys == f.spots.Keys && g.ring.Keys == f.ring.Keys && ModeratedIds(g) == ModeratedIds(f)
  {
    var u := AfterAttempts(t, spots, cmds, answers, Mark, attempts);
    CompleteIs(t, spots, cmds, answers, Mark, now);
    CompleteIs(u, spots, cmds, answers, Mark, now');
    AttemptsStayPartial(t, spots, cmds, answers, Mark, attempts);
    PartialSameMarks(InsertAll(t, spots), InsertAll(u, spots), cmds, answers, now, now');
  }
}
