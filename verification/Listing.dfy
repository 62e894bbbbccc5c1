/** Exactly when a spot is listed: after every run of the three workers, whatever fails, crashes or is read
    again, wherever the spot and its withdrawals are numbered. */
module Listing {
  import opened Store
  import opened StoreInvariants
  import opened Moderation
  import opened Chunk
  import opened Server
  import opened ForwardSync
  import opened HiddenRows

  // ---------------------------------------------------------------- definitions

  /** The state in which the event `es[k]` finds the workers. */
  function Before(w: World, es: seq<Event>, k: nat): State
    requires k <= |es|
  {
    SyncAll(w, FRESH, es[..k])
  }

  predicate Marks(s: Step, id: MessageId) {
    s.MarkModerated? && id in s.ids
  }

  predicate Removes(s: Step, id: MessageId) {
    s.DeleteByMessageId? && id in s.ids
  }

  /** The event commits the mark or the deletion of the spot. */
  ghost predicate Withdraws(w: World, st: State, e: Event, id: MessageId) {
    exists s <- After(w, st, e) :: Marks(s, id) || Removes(s, id)
  }

  /** It commits the mark: an entry in the ring. */
  ghost predicate Records(w: World, st: State, e: Event, id: MessageId) {
    exists s <- After(w, st, e) :: Marks(s, id)
  }

  ghost predicate GivesAt(w: World, es: seq<Event>, n: int, k: nat)
    requires k < |es|
  {
    Gives(Before(w, es, k), es[k], n)
  }

  ghost predicate WithdrawsAt(w: World, es: seq<Event>, id: MessageId, k: nat)
    requires k < |es|
  {
    Withdraws(w, Before(w, es, k), es[k], id)
  }

  ghost predicate RecordsAt(w: World, es: seq<Event>, id: MessageId, k: nat)
    requires k < |es|
  {
    Records(w, Before(w, es, k), es[k], id)
  }

  /** Event `k` gives the spot for good: nothing recorded it before, nothing withdraws it from then on. */
  ghost predicate GivesForGood(w: World, es: seq<Event>, n: int, id: MessageId, k: nat)
    requires k < |es|
  {
    && GivesAt(w, es, n, k)
    && (forall j | 0 <= j < k :: !RecordsAt(w, es, id, j))
    && (forall j | k <= j < |es| :: !WithdrawsAt(w, es, id, j))
  }

  // ------------------------------------------------------------------ one event

  lemma {:induction false} RunLists(t: Tables, steps: seq<Step>, id: MessageId)
    requires RingIsHidden(t) && forall s <- steps :: PassStep(s)
    ensures var u := Run(t, steps);
      && (Listed(u, id) <==> Listed(t, id) && !exists s <- steps :: Marks(s, id) || Removes(s, id))
      && (id in u.ring <==> id in t.ring || exists s <- steps :: Marks(s, id))
  {
    if steps != [] {
      var init, last := steps[..|steps| - 1], steps[|steps| - 1];
      assert last in steps;
      RunLists(t, init, id);
      RunHides(t, init);
      StepLists(Run(t, init), last, id);
      assert forall s :: s in steps <==> s in init || s == last;
    }
  }

  lemma StepLists(t: Tables, s: Step, id: MessageId)
    requires RingIsHidden(t) && PassStep(s)
    ensures Listed(Apply(t, s), id) <==> Listed(t, id) && !Marks(s, id) && !Removes(s, id)
    ensures id in Apply(t, s).ring <==> id in t.ring || Marks(s, id)
  {
    match s
    case MarkModerated(ids, now) => MarkAllFacts(t, ids, now);
    case _ =>
  }

  lemma InsertLists(w: World, st: State, e: Event, n: int)
    requires Proper(w) && RingIsHidden(st.tables) && n in w.group && Accepted(w.group[n], w.verifySignatures)
    ensures var id, u := w.group[n].spot.messageId, InsertAll(st.tables, Inserts(w, st, e));
      && (Listed(u, id) <==> Listed(st.tables, id) || (Gives(st, e, n) && id !in st.tables.ring))
      && (id in u.spots <==> id in st.tables.spots || (Gives(st, e, n) && id !in st.tables.ring))
      && u.ring == st.tables.ring
  {
    var id := w.group[n].spot.messageId;
    assert PostedAs(w, n, id);
    Offered(w, st, e);
    InsertAllRows(st.tables, Inserts(w, st, e));
    hide Inserts, Gives, Covers, Judged;
    var u := InsertAll(st.tables, Inserts(w, st, e));
    if id in u.spots && id !in st.tables.spots {
      FirstIsOffered(Inserts(w, st, e), id);
      assert First(Inserts(w, st, e), id) == w.group[n].spot;
    }
  }

  lemma EventLists(w: World, st: State, e: Event, n: int)
    requires Proper(w) && RingIsHidden(st.tables) && n in w.group && Accepted(w.group[n], w.verifySignatures)
    ensures var id, u := w.group[n].spot.messageId, Sync(w, st, e).tables;
      && (Listed(u, id) <==>
            (Listed(st.tables, id) || (Gives(st, e, n) && id !in st.tables.ring)) && !Withdraws(w, st, e, id))
      && (id in u.ring <==> id in st.tables.ring || Records(w, st, e, id))
  {
    hide Run, RingIsHidden, After, Inserts, Sync, WorkerStep, PassStep, Gives, Listed, Marks, Removes;
    EventIs(w, st, e);
    InsertLists(w, st, e, n);
    InsertsAreWork(w, st, e);
    StepHides(st.tables, InsertSpots(Inserts(w, st, e)));
    AfterIsWork(w, st, e);
    RunLists(InsertAll(st.tables, Inserts(w, st, e)), After(w, st, e), w.group[n].spot.messageId);
  }

  // -------------------------------------------------------------- the whole run

  lemma LastEvent(w: World, es: seq<Event>)
    requires es != []
    ensures SyncAll(w, FRESH, es) == Sync(w, SyncAll(w, FRESH, es[..|es| - 1]), es[|es| - 1])
    ensures SyncAll(w, FRESH, es[..|es| - 1]) == Before(w, es, |es| - 1)
  {}

  /** `init` is `es` without its last event. */
  ghost predicate Shorter(w: World, init: seq<Event>, es: seq<Event>, n: int, id: MessageId) {
    |es| == |init| + 1 &&
    forall k: nat | k < |init| ::
      && GivesAt(w, init, n, k) == GivesAt(w, es, n, k)
      && WithdrawsAt(w, init, id, k) == WithdrawsAt(w, es, id, k)
      && RecordsAt(w, init, id, k) == RecordsAt(w, es, id, k)
  }

  lemma SameEvents(w: World, es: seq<Event>, n: int, id: MessageId)
    requires es != []
    ensures Shorter(w, es[..|es| - 1], es, n, id)
  {
    hide SyncAll, Gives, Withdraws, Records;
    assert forall k: nat | k < |es| - 1 :: es[..|es| - 1][..k] == es[..k];
  }

  lemma {:induction false} RingExactlyWhen(w: World, es: seq<Event>, n: int)
    requires Proper(w) && n in w.group && Accepted(w.group[n], w.verifySignatures)
    ensures var id := w.group[n].spot.messageId;
      id in SyncAll(w, FRESH, es).tables.ring <==> exists k | 0 <= k < |es| :: RecordsAt(w, es, id, k)
  {
    hide Sync, SyncAll, Records, Shorter;
    if es == [] {
      NothingHidden(w);
    } else {
      var init, id := es[..|es| - 1], w.group[n].spot.messageId;
      RingExactlyWhen(w, init, n);
      EveryRunHides(w, init);
      LastEvent(w, es);
      EventLists(w, SyncAll(w, FRESH, init), es[|init|], n);
      SameEvents(w, es, n, id);
      RecordedMore(w, init, es, n, id);
    }
  }

  lemma NothingHidden(w: World)
    ensures forall id :: id !in SyncAll(w, FRESH, []).tables.ring && !Listed(SyncAll(w, FRESH, []).tables, id)
  {}

  /** After every run, and for every accepted article: its spot is listed if and only if some event gave it
      for good. */
  lemma {:induction false} ListedExactlyWhen(w: World, es: seq<Event>, n: int)
    requires Proper(w) && n in w.group && Accepted(w.group[n], w.verifySignatures)
    ensures var id := w.group[n].spot.messageId;
      Listed(SyncAll(w, FRESH, es).tables, id) <==> exists k | 0 <= k < |es| :: GivesForGood(w, es, n, id, k)
  {
    hide Sync, SyncAll, Records, Withdraws, Gives, Listed, GivesForGood, Shorter;
    if es == [] {
      NothingHidden(w);
    } else {
      var init, id := es[..|es| - 1], w.group[n].spot.messageId;
      ListedExactlyWhen(w, init, n);
      RingExactlyWhen(w, init, n);
      EveryRunHides(w, init);
      LastEvent(w, es);
      EventLists(w, SyncAll(w, FRESH, init), es[|init|], n);
      SameEvents(w, es, n, id);
      GivenMore(w, init, es, n, id);
    }
  }

  lemma ForGoodBefore(w: World, init: seq<Event>, es: seq<Event>, n: int, id: MessageId, k: nat)
    requires Shorter(w, init, es, n, id) && k < |init|
    ensures GivesForGood(w, es, n, id, k) <==> GivesForGood(w, init, n, id, k) && !WithdrawsAt(w, es, id, |init|)
  {
    hide GivesAt, WithdrawsAt, RecordsAt;
  }

  lemma ForGoodLast(w: World, init: seq<Event>, es: seq<Event>, n: int, id: MessageId)
    requires Shorter(w, init, es, n, id)
    ensures GivesForGood(w, es, n, id, |init|) <==>
      GivesAt(w, es, n, |init|) && !WithdrawsAt(w, es, id, |init|)
        && !exists k | 0 <= k < |init| :: RecordsAt(w, init, id, k)
  {
    hide GivesAt, WithdrawsAt, RecordsAt;
  }

  lemma GivenMore(w: World, init: seq<Event>, es: seq<Event>, n: int, id: MessageId)
    requires Shorter(w, init, es, n, id)
    ensures (exists k | 0 <= k < |es| :: GivesForGood(w, es, n, id, k)) <==>
      ((exists k | 0 <= k < |init| :: GivesForGood(w, init, n, id, k))
        || (GivesAt(w, es, n, |init|) && !exists k | 0 <= k < |init| :: RecordsAt(w, init, id, k)))
      && !WithdrawsAt(w, es, id, |init|)
  {
    hide GivesAt, WithdrawsAt, RecordsAt, GivesForGood;
    ForGoodLast(w, init, es, n, id);
    forall k: nat | k < |init|
      ensures GivesForGood(w, es, n, id, k) <==> GivesForGood(w, init, n, id, k) && !WithdrawsAt(w, es, id, |init|)
    {
      ForGoodBefore(w, init, es, n, id, k);
    }
  }

  lemma RecordedMore(w: World, init: seq<Event>, es: seq<Event>, n: int, id: MessageId)
    requires Shorter(w, init, es, n, id)
    ensures (exists k | 0 <= k < |es| :: RecordsAt(w, es, id, k)) <==>
      (exists k | 0 <= k < |init| :: RecordsAt(w, init, id, k)) || RecordsAt(w, es, id, |init|)
  {
    hide RecordsAt, GivesAt, WithdrawsAt;
  }

  // ------------------------------------------ a withdrawal that meets its spot

  /** A pass without a failed lookup leaves a target in the ring. */
  lemma PassRecords(w: World, x: Tables, cmds: seq<Command>, drops: nat -> bool, now: int, c: Command)
    requires Sound(w, x) && RingIsHidden(x) && w.mode != Off
    requires !ScanAll(x, cmds, Head(w.answers, drops)).failed
    requires c in cmds && Known(w, c.target) && Entitles(c, Row(0, SpotOf(w, c.target)), w.answers(c.target))
    requires c.target in x.spots || c.target in x.ring
    ensures c.target in Run(x, PassSteps(x, cmds, Head(w.answers, drops), w.mode, now)).ring
  {
    var head, id := Head(w.answers, drops), c.target;
    PassFacts(x, cmds, head, w.mode, now);
    ScanKeeps(x, cmds, head);
    QueuesExactlyTheTargets(x, cmds, head);
    hide ScanAll, Run, PassSteps;
    if id !in x.ring {
      assert Entitles(c, x.spots[id], w.answers(id));
      assert Entitled(x, cmds, head, id);
      assert id in SetOf(ScanAll(x, cmds, head).targets);
    }
  }

  /** The event reads a withdrawal that may withdraw the spot of article `n`, while the spot has a row or is
      given by the same event. */
  ghost predicate Met(w: World, st: State, e: Event, n: int)
    requires n in w.group && w.group[n].Post?
  {
    var id := w.group[n].spot.messageId;
    && w.mode != Off && Known(w, id)
    && (id in st.tables.spots || Gives(st, e, n))
    && exists b :: Covers(st, e, b) && WithdrawnBy(w, b, id)
  }

  predicate Reads(e: Event) {
    e.ReadChunk? || e.Crash? || e.SweepPart?
  }

  /** No lookup of the event fails, and all its writes are made. */
  predicate Whole(w: World, st: State, e: Event) {
    Reads(e) &&
    var x := InsertAll(st.tables, Inserts(w, st, e));
    !ScanAll(x, Judged(w, st, e), Head(w.answers, e.drops)).failed && After(w, st, e) == Full(w, x, st, e)
  }

  lemma PassWithdrawsTargets(x: Tables, cmds: seq<Command>, head: Head, mode: Mode, now: int, s: Step, id: MessageId)
    requires s in PassSteps(x, cmds, head, mode, now) && (Marks(s, id) || Removes(s, id))
    ensures mode != Off && id in Targets(x, cmds, head)
  {
    var scan := ScanAll(x, cmds, head);
    LearningIsWork(x, cmds, head);
    ConsequenceIsWork(scan.targets, mode, now);
    QueuesExactlyTheTargets(x, cmds, head);
    hide ScanAll, Consequence, Targets;
    assert s in scan.effects || s in Consequence(scan.targets, mode, now);
    assert id in scan.targets;
  }

  /** Nothing but a withdrawal read for a stored spot withdraws it. */
  lemma WithdrawnIsMet(w: World, st: State, e: Event, n: int)
    requires Proper(w) && Sound(w, st.tables) && RingIsHidden(st.tables)
    requires n in w.group && Accepted(w.group[n], w.verifySignatures)
    requires Withdraws(w, st, e, w.group[n].spot.messageId)
    ensures Met(w, st, e, n)
  {
    var id, x := w.group[n].spot.messageId, InsertAll(st.tables, Inserts(w, st, e));
    var s :| s in After(w, st, e) && (Marks(s, id) || Removes(s, id));
    var k := AfterIs(w, st, e);
    var head := Head(w.answers, e.drops);
    hide PassSteps, Inserts, Judged, After, Gives, Covers, Proper, Marks, Removes;
    PassWithdrawsTargets(x, Judged(w, st, e), head, w.mode, e.now, s, id);
    InsertLists(w, st, e, n);
    InsertsAreSound(w, st, e);
    Offered(w, st, e);
    MetBy(w, x, Judged(w, st, e), e.drops, id, n);
    var c :| c in Judged(w, st, e) && c.target == id && Entitles(c, Row(0, SpotOf(w, id)), w.answers(id));
    var b :| Covers(st, e, b) && b in w.group && w.group[b] == Withdrawal(c);
    assert WithdrawnBy(w, b, id);
  }

  lemma MetBy(w: World, x: Tables, cmds: seq<Command>, drops: nat -> bool, id: MessageId, n: int)
    requires Proper(w) && Sound(w, x) && id in Targets(x, cmds, Head(w.answers, drops))
    requires PostedAs(w, n, id)
    ensures Known(w, id) && id in x.spots
    ensures exists c <- cmds :: c.target == id && Entitles(c, Row(0, SpotOf(w, id)), w.answers(id))
  {
    assert AnswerFor(Head(w.answers, drops), id) == w.answers(id);
    SpotOfArticle(w, n);
    var c :| c in cmds && c.target == id && Entitles(c, x.spots[id], w.answers(id));
    assert Entitles(c, Row(0, SpotOf(w, id)), w.answers(id));
  }

  lemma MetIsRecorded(w: World, st: State, e: Event, n: int)
    requires Proper(w) && Sound(w, st.tables) && RingIsHidden(st.tables)
    requires n in w.group && Accepted(w.group[n], w.verifySignatures) && Met(w, st, e, n) && Whole(w, st, e)
    ensures w.group[n].spot.messageId in Sync(w, st, e).tables.ring
  {
    var id, x := w.group[n].spot.messageId, InsertAll(st.tables, Inserts(w, st, e));
    hide Sound, RingIsHidden, Run, PassSteps, Inserts, Judged, After, Gives, Covers, Sync, WorkerStep, ScanAll;
    var b :| Covers(st, e, b) && WithdrawnBy(w, b, id);
    EventIs(w, st, e);
    InsertLists(w, st, e, n);
    InsertsAreSound(w, st, e);
    InsertsAreWork(w, st, e);
    StepHides(st.tables, InsertSpots(Inserts(w, st, e)));
    Offered(w, st, e);
    PassRecords(w, x, Judged(w, st, e), e.drops, e.now, w.group[b].cmd);
  }

  ghost predicate MetAt(w: World, es: seq<Event>, n: int, k: nat)
    requires k < |es| && n in w.group && w.group[n].Post?
  {
    Met(w, Before(w, es, k), es[k], n)
  }

  ghost predicate NeverMet(w: World, es: seq<Event>, n: int)
    requires n in w.group && w.group[n].Post?
  {
    forall k | 0 <= k < |es| :: !MetAt(w, es, n, k)
  }

  ghost predicate MetByWhole(w: World, es: seq<Event>, n: int) {
    n in w.group && w.group[n].Post? &&
    exists k | 0 <= k < |es| :: MetAt(w, es, n, k) && Whole(w, Before(w, es, k), es[k])
  }

  ghost predicate Given(w: World, es: seq<Event>, n: int) {
    exists k | 0 <= k < |es| :: GivesAt(w, es, n, k)
  }

  lemma UnmetIsUntouched(w: World, es: seq<Event>, n: int, k: nat)
    requires Proper(w) && n in w.group && Accepted(w.group[n], w.verifySignatures)
    requires k < |es| && !MetAt(w, es, n, k)
    ensures var id := w.group[n].spot.messageId; !WithdrawsAt(w, es, id, k) && !RecordsAt(w, es, id, k)
  {
    hide Sound, RingIsHidden, Met, After, SyncAll, Marks, Removes;
    EveryRunIsSound(w, es[..k]);
    EveryRunHides(w, es[..k]);
    if Withdraws(w, Before(w, es, k), es[k], w.group[n].spot.messageId) {
      WithdrawnIsMet(w, Before(w, es, k), es[k], n);
    }
  }

  /** Once a whole event has met a spot with a withdrawal that may withdraw it, numbered before or after it,
      the spot is in the ring and not listed, and stays so whatever the workers do later. */
  lemma MetStaysUnlisted(w: World, es: seq<Event>, e: Event, later: seq<Event>, n: int)
    requires Proper(w) && n in w.group && Accepted(w.group[n], w.verifySignatures)
    requires Met(w, SyncAll(w, FRESH, es), e, n) && Whole(w, SyncAll(w, FRESH, es), e)
    ensures var id, t := w.group[n].spot.messageId, SyncAll(w, FRESH, es + [e] + later).tables;
      id in t.ring && !Listed(t, id)
  {
    hide Sound, RingIsHidden, Sync, Met, Whole;
    EveryRunIsSound(w, es);
    EveryRunHides(w, es);
    assert (es + [e])[..|es|] == es;
    MetIsRecorded(w, SyncAll(w, FRESH, es), e, n);
    RingGrows(w, es + [e], later);
    EveryRunHides(w, es + [e] + later);
    HiddenMeans(SyncAll(w, FRESH, es + [e] + later).tables);
  }

  lemma HiddenMeans(t: Tables)
    requires RingIsHidden(t)
    ensures forall id <- t.ring :: !Listed(t, id)
  {}

  /** In terms of what was read: after any run in which the spot was not met with a withdrawal at all, or by
      a whole event, it is listed if and only if it was given and not met. */
  lemma ListedExactlyWhenNeverMet(w: World, es: seq<Event>, n: int)
    requires Proper(w) && n in w.group && Accepted(w.group[n], w.verifySignatures)
    requires NeverMet(w, es, n) || MetByWhole(w, es, n)
    ensures Listed(SyncAll(w, FRESH, es).tables, w.group[n].spot.messageId) <==> Given(w, es, n) && NeverMet(w, es, n)
  {
    if NeverMet(w, es, n) {
      UnmetListedExactlyWhenGiven(w, es, n);
    } else {
      MetByWholeIsUnlisted(w, es, n);
    }
  }

  lemma UnmetListedExactlyWhenGiven(w: World, es: seq<Event>, n: int)
    requires Proper(w) && n in w.group && Accepted(w.group[n], w.verifySignatures) && NeverMet(w, es, n)
    ensures Listed(SyncAll(w, FRESH, es).tables, w.group[n].spot.messageId) <==> Given(w, es, n)
  {
    var id := w.group[n].spot.messageId;
    hide SyncAll, Listed, GivesAt, WithdrawsAt, RecordsAt, MetAt;
    ListedExactlyWhen(w, es, n);
    forall k: nat | k < |es| ensures !WithdrawsAt(w, es, id, k) && !RecordsAt(w, es, id, k) {
      UnmetIsUntouched(w, es, n, k);
    }
    GivenForGood(w, es, n, id);
  }

  lemma GivenForGood(w: World, es: seq<Event>, n: int, id: MessageId)
    requires forall k: nat | k < |es| :: !WithdrawsAt(w, es, id, k) && !RecordsAt(w, es, id, k)
    ensures (exists k | 0 <= k < |es| :: GivesForGood(w, es, n, id, k)) <==> Given(w, es, n)
  {
    hide GivesAt, WithdrawsAt, RecordsAt;
    assert forall k: nat | k < |es| :: GivesForGood(w, es, n, id, k) <==> GivesAt(w, es, n, k);
  }

  lemma MetByWholeIsUnlisted(w: World, es: seq<Event>, n: int)
    requires Proper(w) && n in w.group && Accepted(w.group[n], w.verifySignatures) && MetByWhole(w, es, n)
    ensures !Listed(SyncAll(w, FRESH, es).tables, w.group[n].spot.messageId)
  {
    hide Met, Whole, SyncAll, Listed;
    var k :| 0 <= k < |es| && MetAt(w, es, n, k) && Whole(w, Before(w, es, k), es[k]);
    assert es == es[..k] + [es[k]] + es[k + 1..];
    MetStaysUnlisted(w, es[..k], es[k], es[k + 1..], n);
  }

  /** A spot that no withdrawal of the group may withdraw is listed, after every run, if and only if some event
      gave it: one insert that succeeded is necessary and enough. */
  lemma UnwithdrawnListedExactlyWhenGiven(w: World, es: seq<Event>, n: int)
    requires Proper(w) && n in w.group && Accepted(w.group[n], w.verifySignatures)
    requires !Withdrawn(w, w.group[n].spot.messageId)
    ensures Listed(SyncAll(w, FRESH, es).tables, w.group[n].spot.messageId) <==> Given(w, es, n)
  {
    hide SyncAll, Covers, Gives, Listed, WithdrawnBy;
    ListedExactlyWhenNeverMet(w, es, n);
  }

  // --------------------------------------------------- articles of the forward sync

  lemma PassesOrGives(w: World, st: State, e: Event, n: int)
    requires Proper(w) && Cursor(st) && n in w.group && (e.ReadChunk? ==> e.stored)
    requires var u := Sync(w, st, e); u.start <= n <= DoneTo(u)
    ensures Gives(st, e, n) || st.start <= n <= DoneTo(st)
  {
    hide Run, Writes, LookupFails, PassSteps;
    if st.pass.At? {
      OverviewHas(w.group, st.pass.next, ChunkTo(st.pass.next, st.pass.last));
    }
  }

  lemma {:induction false} PassedIsGiven(w: World, es: seq<Event>, n: int)
    requires Proper(w) && InsertsSucceed(es) && n in w.group
    requires var st := SyncAll(w, FRESH, es); st.start <= n <= DoneTo(st)
    ensures Given(w, es, n)
  {
    hide Sync, Gives, SyncAll, GivesAt;
    if es == [] {
      NothingYet(w);
    } else {
      var init := es[..|es| - 1];
      LastEvent(w, es);
      CursorKeeps(w, init);
      PassesOrGives(w, SyncAll(w, FRESH, init), es[|init|], n);
      GivenGrows(w, es, n);
      if !GivesAt(w, es, n, |init|) { PassedIsGiven(w, init, n); }
    }
  }

  lemma GivenGrows(w: World, es: seq<Event>, n: int)
    requires es != []
    ensures var init := es[..|es| - 1];
      && (Given(w, es, n) <==> Given(w, init, n) || GivesAt(w, es, n, |init|))
      && GivesAt(w, es, n, |init|) == Gives(SyncAll(w, FRESH, init), es[|init|], n)
  {
    hide SyncAll, Gives;
    var init := es[..|es| - 1];
    LastEvent(w, es);
    forall k: nat | k < |init| ensures GivesAt(w, init, n, k) == GivesAt(w, es, n, k) {
      assert init[..k] == es[..k];
    }
  }

  /** When no insert failed, an accepted article of [start, watermark] is listed if and only if no event met it,
      if none did or a whole one. */
  lemma PassedListedExactlyWhenNeverMet(w: World, es: seq<Event>, n: int)
    requires Proper(w) && InsertsSucceed(es) && n in w.group && Accepted(w.group[n], w.verifySignatures)
    requires var st := SyncAll(w, FRESH, es); st.start <= n <= st.watermark
    requires NeverMet(w, es, n) || MetByWhole(w, es, n)
    ensures Listed(SyncAll(w, FRESH, es).tables, w.group[n].spot.messageId) <==> NeverMet(w, es, n)
  {
    hide Sync, SyncAll, Met, Whole, Listed;
    CursorKeeps(w, es);
    PassedIsGiven(w, es, n);
    ListedExactlyWhenNeverMet(w, es, n);
  }

  // ------------------------------------------------------- articles of the backfill

  /** Only a spot that was given has a row. */
  lemma {:induction false} StoredWasGiven(w: World, es: seq<Event>, n: int)
    requires Proper(w) && n in w.group && Accepted(w.group[n], w.verifySignatures)
    requires w.group[n].spot.messageId in SyncAll(w, FRESH, es).tables.spots
    ensures Given(w, es, n)
  {
    hide Sync, Gives, SyncAll, GivesAt;
    if es == [] {
      NothingYet(w);
    } else {
      var init := es[..|es| - 1];
      LastEvent(w, es);
      GivenGrows(w, es, n);
      EveryRunHides(w, init);
      RowWasGiven(w, SyncAll(w, FRESH, init), es[|init|], n);
      if !GivesAt(w, es, n, |init|) { StoredWasGiven(w, init, n); }
    }
  }

  lemma {:induction false} PassAddsNoRow(t: Tables, steps: seq<Step>)
    requires forall s <- steps :: PassStep(s)
    ensures Run(t, steps).spots.Keys <= t.spots.Keys
  {
    if steps != [] {
      var last := steps[|steps| - 1];
      assert last in steps;
      PassAddsNoRow(t, steps[..|steps| - 1]);
      if last.MarkModerated? { MarkAllFacts(Run(t, steps[..|steps| - 1]), last.ids, last.now); }
    }
  }

  lemma RowWasGiven(w: World, st: State, e: Event, n: int)
    requires Proper(w) && RingIsHidden(st.tables) && n in w.group && Accepted(w.group[n], w.verifySignatures)
    requires w.group[n].spot.messageId in Sync(w, st, e).tables.spots
    ensures w.group[n].spot.messageId in st.tables.spots || Gives(st, e, n)
  {
    hide Run, After, Inserts, Sync, PassStep, Gives, RingIsHidden;
    EventIs(w, st, e);
    InsertLists(w, st, e, n);
    AfterIsWork(w, st, e);
    PassAddsNoRow(InsertAll(st.tables, Inserts(w, st, e)), After(w, st, e));
  }

  lemma GivenStays(w: World, es: seq<Event>, n: int, k: nat)
    requires k <= |es| && Given(w, es[..k], n)
    ensures Given(w, es, n)
  {
    hide SyncAll, Gives;
    var j :| 0 <= j < k && GivesAt(w, es[..k], n, j);
    assert es[..k][..j] == es[..j];
    assert GivesAt(w, es, n, j);
  }

  lemma UngivenIsUnmet(w: World, es: seq<Event>, n: int)
    requires Proper(w) && n in w.group && Accepted(w.group[n], w.verifySignatures) && !Given(w, es, n)
    ensures NeverMet(w, es, n)
  {
    hide SyncAll, Gives, Covers, Given;
    forall k | 0 <= k < |es| ensures !MetAt(w, es, n, k) {
      if GivesAt(w, es, n, k) {
        GivesNow(w, es, n, k);
      } else if w.group[n].spot.messageId in Before(w, es, k).tables.spots {
        StoredWasGiven(w, es[..k], n);
        GivenStays(w, es, n, k);
      }
    }
  }

  lemma GivesNow(w: World, es: seq<Event>, n: int, k: nat)
    requires k < |es| && GivesAt(w, es, n, k)
    ensures Given(w, es, n)
  {
    hide GivesAt;
  }

  /** A spot that the backfill gives is listed then, whatever withdrawals were read before: the backfill drops
      the withdrawals that it reads, and none that the others read has met the spot. */
  lemma BackfilledIsListed(w: World, es: seq<Event>, lo: int, hi: int, n: int)
    requires Proper(w) && n in w.group && Accepted(w.group[n], w.verifySignatures)
    requires !Given(w, es, n) && Gives(SyncAll(w, FRESH, es), BackfillChunk(lo, hi), n)
    ensures Listed(SyncAll(w, FRESH, es + [BackfillChunk(lo, hi)]).tables, w.group[n].spot.messageId)
  {
    hide SyncAll, Gives, Covers, Listed;
    var e := BackfillChunk(lo, hi);
    var more := es + [e];
    assert more[..|more| - 1] == es;
    UngivenIsUnmet(w, es, n);
    GivenGrows(w, more, n);
    NothingCovered(w, SyncAll(w, FRESH, es), lo, hi, n);
    forall k | 0 <= k < |more| ensures !MetAt(w, more, n, k) {
      assert more[..k] == es[..k];
      if k < |es| { assert !MetAt(w, es, n, k); } else { assert es[..k] == es; }
    }
    UnmetListedExactlyWhenGiven(w, more, n);
  }

  lemma NothingCovered(w: World, st: State, lo: int, hi: int, n: int)
    requires n in w.group && w.group[n].Post?
    ensures !Met(w, st, BackfillChunk(lo, hi), n)
  {}

  /** Article 1, a spot, and article 3, which may withdraw it. */
  ghost predicate WithdrawnLater(w: World, id: MessageId) {
    && Proper(w) && w.mode != Off && w.lookback >= 1
    && 1 in w.group && 3 in w.group && PostedAs(w, 1, id) && Known(w, id) && WithdrawnBy(w, 3, id)
  }

  lemma StartsAtTwo(w: World, sweep: Event)
    requires w.lookback >= 1 && sweep.SweepPart?
    ensures Gives(SyncAll(w, FRESH, [StartPass(2, 3), Smooth()]), BackfillChunk(1, 1), 1)
    ensures Gives(SyncAll(w, FRESH, [StartPass(2, 3), Smooth(), sweep]), BackfillChunk(1, 1), 1)
    ensures !Given(w, [StartPass(2, 3), Smooth()], 1) && !Given(w, [StartPass(2, 3), Smooth(), sweep], 1)
  {
    hide Run, Writes, PassSteps, LookupFails, Commands, Overview;
    var a, b := StartPass(2, 3), Smooth();
    var es := [a, b, sweep];
    assert es[..2] == [a, b] && es[..1] == [a] && es[..0] == [] && [a, b][..1] == [a] && [a, b][..0] == [];
    RunTwo(w, FRESH, a, b);
    assert Begun(w, FRESH, 2, 3) == State(EMPTY, 0, 2, At(2, 3));
    assert SyncAll(w, FRESH, es) == Sync(w, SyncAll(w, FRESH, [a, b]), sweep);
    assert SyncAll(w, FRESH, [a]) == Sync(w, FRESH, a);
    assert !GivesAt(w, es, 1, 0) && !GivesAt(w, es, 1, 1) && !GivesAt(w, es, 1, 2);
    assert !GivesAt(w, [a, b], 1, 0) && !GivesAt(w, [a, b], 1, 1);
  }

  /** Given after the chunks and the sweep have passed its withdrawal, the spot stays listed ... */
  lemma BackfilledTooLate(w: World, id: MessageId, sweep: Event)
    requires WithdrawnLater(w, id) && sweep.SweepPart?
    ensures Listed(SyncAll(w, FRESH, [StartPass(2, 3), Smooth(), sweep, BackfillChunk(1, 1)]).tables, id)
  {
    hide SyncAll, Gives, Given, Listed;
    var es := [StartPass(2, 3), Smooth(), sweep];
    StartsAtTwo(w, sweep);
    BackfilledIsListed(w, es, 1, 1, 1);
    assert es + [BackfillChunk(1, 1)] == [StartPass(2, 3), Smooth(), sweep, BackfillChunk(1, 1)];
  }

  /** ... given before a whole sweep reads it, it does not. */
  lemma BackfilledInTime(w: World, id: MessageId, sweep: Event)
    requires WithdrawnLater(w, id) && sweep.SweepPart? && sweep.lo <= 3 <= sweep.hi
    requires Whole(w, SyncAll(w, FRESH, [StartPass(2, 3), Smooth(), BackfillChunk(1, 1)]), sweep)
    ensures !Listed(SyncAll(w, FRESH, [StartPass(2, 3), Smooth(), BackfillChunk(1, 1), sweep]).tables, id)
  {
    hide SyncAll, Gives, Given, Whole, WithdrawnBy;
    var early := [StartPass(2, 3), Smooth()];
    var es := [StartPass(2, 3), Smooth(), BackfillChunk(1, 1)];
    StartsAtTwo(w, sweep);
    BackfilledIsListed(w, early, 1, 1, 1);
    assert early + [BackfillChunk(1, 1)] == es;
    assert Covers(SyncAll(w, FRESH, es), sweep, 3);
    MetStaysUnlisted(w, es, sweep, [], 1);
    assert es + [sweep] + [] == [StartPass(2, 3), Smooth(), BackfillChunk(1, 1), sweep];
  }

  // ------------------------------------------------------------- what may be stored

  /** Whatever the run: every row is that of an article with a valid message-id, in strict mode with a verified
      header. */
  lemma OnlyValidStored(w: World, es: seq<Event>)
    requires Proper(w)
    ensures forall id <- SyncAll(w, FRESH, es).tables.spots ::
      exists n, spot :: ValidPost(w.group, n, spot, w.verifySignatures) && spot.messageId == id
  {
    EveryRunIsSound(w, es);
    hide SyncAll;
    forall id <- SyncAll(w, FRESH, es).tables.spots
      ensures exists n, spot :: ValidPost(w.group, n, spot, w.verifySignatures) && spot.messageId == id
    {
      var n :| PostedAs(w, n, id);
      assert ValidPost(w.group, n, w.group[n].spot, w.verifySignatures);
    }
  }

  /** Conversely every insert that succeeds offers all such articles of its range. */
  lemma EveryValidOffered(w: World, st: State, e: Event, n: int)
    requires Gives(st, e, n) && n in w.group && w.group[n].Post?
    requires ValidPost(w.group, n, w.group[n].spot, w.verifySignatures)
    ensures w.group[n].spot in Inserts(w, st, e)
    ensures var id, u := w.group[n].spot.messageId, InsertAll(st.tables, Inserts(w, st, e));
      id in u.spots || id in u.ring
  {
    Offered(w, st, e);
    assert PostedAs(w, n, w.group[n].spot.messageId);
    InsertAllRows(st.tables, Inserts(w, st, e));
    hide Gives, Inserts, InsertAll;
  }
}
