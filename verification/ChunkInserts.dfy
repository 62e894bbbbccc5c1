/** Re-running a chunk when inserts fail too. A failed insert is only logged, so that an attempt goes on to its
    withdrawals without the chunk's spots; it is interrupted later, before the checkpoint. The next run finds
    fewer rows than after an attempt whose insert succeeded, and may number new rows differently; the listing
    comes out the same. */
module ChunkInserts {
  import opened Store
  import opened StoreInvariants
  import opened Moderation
  import opened ApplyingModeration
  import opened Chunk
  import opened ChunkDelete
  import opened ChunkOwners

  /** One interrupted attempt, its insert `stored` or failed. */
  datatype Try = Try(stored: bool, rest: Attempt)

  function AfterTry(t: Tables, spots: seq<Spot>, cmds: seq<Command>, answers: MessageId -> Answer, mode: Mode,
                    a: Try): Tables {
    AfterAttempt(t, if a.stored then spots else [], cmds, answers, mode, a.rest)
  }

  function AfterTries(t: Tables, spots: seq<Spot>, cmds: seq<Command>, answers: MessageId -> Answer, mode: Mode,
                      tries: seq<Try>): Tables {
    if tries == [] then t
    else AfterTry(AfterTries(t, spots, cmds, answers, mode, tries[..|tries| - 1]),
                  spots, cmds, answers, mode, tries[|tries| - 1])
  }

  /** The listing without the numbers of the rows. */
  function Shown(t: Tables): map<MessageId, Spot> {
    map id | id in Visible(t) :: Visible(t)[id].spot
  }

  // ----------------------------------------------------- tables that lack some rows

  /** `y` is `x` but for the numbers of its rows and for the rows `gap`, which the chunk would insert. */
  ghost predicate Fits(y: Tables, x: Tables, gap: set<MessageId>, spots: seq<Spot>) {
    && y.spots.Keys !! gap && x.spots.Keys == y.spots.Keys + gap
    && y.ring.Keys == x.ring.Keys
    && (forall id <- y.spots :: y.spots[id].spot == x.spots[id].spot)
    && (forall id <- gap :: id !in y.ring && Offers(spots, id) && x.spots[id].spot == First(spots, id))
  }

  predicate Away(s: Step, gap: set<MessageId>) {
    match s
    case MarkModerated(ids, _) => forall id <- ids :: id !in gap
    case DeleteByMessageId(ids) => forall id <- ids :: id !in gap
    case SetSpotOwner(id, _, _) => id !in gap
    case _ => false
  }

  lemma StepFits(y: Tables, x: Tables, gap: set<MessageId>, spots: seq<Spot>, s: Step)
    requires Fits(y, x, gap, spots) && Away(s, gap)
    ensures Fits(Apply(y, s), Apply(x, s), gap, spots)
  {
    match s
    case MarkModerated(ids, now) =>
      MarkAllFacts(y, ids, now);
      MarkAllFacts(x, ids, now);
    case _ =>
  }

  lemma {:induction false} RunFits(y: Tables, x: Tables, gap: set<MessageId>, spots: seq<Spot>, steps: seq<Step>)
    requires Fits(y, x, gap, spots) && forall s <- steps :: Away(s, gap)
    ensures Fits(Run(y, steps), Run(x, steps), gap, spots)
  {
    hide Fits, Away;
    if steps != [] {
      var init := steps[..|steps| - 1];
      assert steps[|steps| - 1] in steps;
      RunFits(y, x, gap, spots, init);
      StepFits(Run(y, init), Run(x, init), gap, spots, steps[|steps| - 1]);
    }
  }

  /** The rows after inserting the chunk's spots. */
  lemma InsertedRows(y: Tables, spots: seq<Spot>)
    ensures var u := InsertAll(y, spots);
      && (forall id :: id in u.spots <==> id in y.spots || (Offers(spots, id) && id !in y.ring))
      && (forall id <- u.spots :: u.spots[id].spot == if id in y.spots then y.spots[id].spot else First(spots, id))
      && u.ring == y.ring
  {
    InsertAllRows(y, spots);
    hide InsertAll;
  }

  /** They fill the gap. */
  lemma InsertFits(y: Tables, x: Tables, gap: set<MessageId>, spots: seq<Spot>)
    requires Fits(y, x, gap, spots)
    ensures Fits(InsertAll(y, spots), InsertAll(x, spots), {}, spots)
  {
    InsertedRows(y, spots);
    InsertedRows(x, spots);
    hide InsertAll, First, Offers;
  }

  /** Before its inserts, a table lacks what they add. */
  lemma GapBefore(u: Tables, x: Tables, spots: seq<Spot>)
    requires Fits(InsertAll(u, spots), x, {}, spots)
    ensures Fits(u, x, InsertAll(u, spots).spots.Keys - u.spots.Keys, spots)
  {
    InsertAllRows(u, spots);
  }

  // ------------------------------------------------------- the same writes on both

  /** The commands that do not name a row of the gap. */
  function Others(cmds: seq<Command>, gap: set<MessageId>): seq<Command> {
    if cmds == [] then []
    else
      var last := cmds[|cmds| - 1];
      Others(cmds[..|cmds| - 1], gap) + if last.target in gap then [] else [last]
  }

  lemma {:induction false} OthersIn(cmds: seq<Command>, gap: set<MessageId>)
    ensures forall c <- Others(cmds, gap) :: c in cmds
    ensures gap == {} ==> Others(cmds, gap) == cmds
  {
    if cmds != [] {
      OthersIn(cmds[..|cmds| - 1], gap);
    }
  }

  ghost predicate Twins(s: Scan, r: Scan, gap: set<MessageId>, spots: seq<Spot>) {
    && s.targets == r.targets && s.lookups == r.lookups && s.failed == r.failed && s.effects == r.effects
    && Fits(s.tables, r.tables, gap, spots)
  }

  lemma VisitOfGap(s: Scan, r: Scan, gap: set<MessageId>, spots: seq<Spot>, cmd: Command, head: Head)
    requires Twins(s, r, gap, spots) && cmd.target in gap
    ensures Twins(Visit(s, cmd, head), r, gap, spots)
  {}

  lemma FitsAt(y: Tables, x: Tables, gap: set<MessageId>, spots: seq<Spot>, id: MessageId)
    requires Fits(y, x, gap, spots) && id !in gap
    ensures id in y.spots <==> id in x.spots
    ensures id in y.spots ==> y.spots[id].spot == x.spots[id].spot
  {}

  lemma LookUpTwins(s: Scan, r: Scan, gap: set<MessageId>, spots: seq<Spot>, id: MessageId, head: Head)
    requires Twins(s, r, gap, spots) && id !in gap && head.Head?
    ensures var (s', owner), (r', owner') := LookUp(s, id, head), LookUp(r, id, head);
      Twins(s', r', gap, spots) && owner == owner'
  {
    hide Fits, Apply;
    if !head.drops(s.lookups) && head.answers(id).Key? {
      StepFits(s.tables, r.tables, gap, spots, SetSpotOwner(id, head.answers(id).owner, head.answers(id).verified));
    }
  }

  lemma VisitTwins(s: Scan, r: Scan, gap: set<MessageId>, spots: seq<Spot>, cmd: Command, head: Head)
    requires Twins(s, r, gap, spots) && cmd.target !in gap
    ensures Twins(Visit(s, cmd, head), Visit(r, cmd, head), gap, spots)
  {
    hide Fits, LookUp, ValidateDispose, WithinDisposeWindow;
    FitsAt(s.tables, r.tables, gap, spots, cmd.target);
    if head.Head? { LookUpTwins(s, r, gap, spots, cmd.target, head); }
  }

  lemma {:induction false} ScanTwins(y: Tables, x: Tables, gap: set<MessageId>, spots: seq<Spot>, cmds: seq<Command>,
                                     head: Head)
    requires Fits(y, x, gap, spots)
    ensures Twins(ScanAll(y, cmds, head), ScanAll(x, Others(cmds, gap), head), gap, spots)
  {
    hide Fits, Visit, Twins;
    if cmds == [] {
      StartTwins(y, x, gap, spots);
    } else {
      var init, last := cmds[..|cmds| - 1], cmds[|cmds| - 1];
      var s, r := ScanAll(y, init, head), ScanAll(x, Others(init, gap), head);
      ScanTwins(y, x, gap, spots, init, head);
      if last.target in gap {
        VisitOfGap(s, r, gap, spots, last, head);
        assert Others(cmds, gap) == Others(init, gap);
      } else {
        VisitTwins(s, r, gap, spots, last, head);
        assert Others(cmds, gap) == Others(init, gap) + [last];
        ScanMore(x, Others(init, gap), last, head);
      }
    }
  }

  lemma ScanMore(x: Tables, cmds: seq<Command>, last: Command, head: Head)
    ensures ScanAll(x, cmds + [last], head) == Visit(ScanAll(x, cmds, head), last, head)
  {
    hide Visit;
    assert (cmds + [last])[..|cmds|] == cmds;
  }

  lemma StartTwins(y: Tables, x: Tables, gap: set<MessageId>, spots: seq<Spot>)
    requires Fits(y, x, gap, spots)
    ensures Twins(Start(y), Start(x), gap, spots)
  {}

  lemma ScanAway(y: Tables, cmds: seq<Command>, head: Head, gap: set<MessageId>)
    requires y.spots.Keys !! gap
    ensures forall s <- ScanAll(y, cmds, head).effects :: Away(s, gap)
    ensures forall id <- ScanAll(y, cmds, head).targets :: id !in gap
  {
    ScanKeeps(y, cmds, head);
    hide ScanAll, Run, LearnedTables, Distinct;
  }

  lemma ConsequenceAway(targets: seq<MessageId>, mode: Mode, now: int, gap: set<MessageId>)
    requires forall id <- targets :: id !in gap
    ensures forall s <- Consequence(targets, mode, now) :: Away(s, gap)
  {
    ConsequenceIsWork(targets, mode, now);
    hide Consequence;
  }

  /** A pass over the table with the gap makes the writes of a pass of the other commands over the whole one. */
  lemma PassTwins(y: Tables, x: Tables, gap: set<MessageId>, spots: seq<Spot>, cmds: seq<Command>, head: Head,
                  mode: Mode, now: int)
    requires Fits(y, x, gap, spots)
    ensures PassSteps(y, cmds, head, mode, now) == PassSteps(x, Others(cmds, gap), head, mode, now)
    ensures forall s <- PassSteps(y, cmds, head, mode, now) :: Away(s, gap)
  {
    hide ScanAll, Consequence, Away;
    ScanTwins(y, x, gap, spots, cmds, head);
    ScanAway(y, cmds, head, gap);
    ConsequenceAway(ScanAll(y, cmds, head).targets, mode, now, gap);
  }

  /** `x` is a table the next run could start its withdrawals from if no insert had failed; the one it does start
      from has the same rows, in other numbers. */
  ghost predicate Alongside(t0: Tables, u: Tables, x: Tables, spots: seq<Spot>, cmds: seq<Command>,
                            answers: MessageId -> Answer, mode: Mode) {
    Fits(InsertAll(u, spots), x, {}, spots) && Partial(InsertAll(t0, spots), x, cmds, Steady(answers), mode)
  }

  lemma TryGap(u: Tables, x: Tables, spots: seq<Spot>, stored: bool) returns (gap: set<MessageId>)
    requires Fits(InsertAll(u, spots), x, {}, spots)
    ensures Fits(InsertAll(u, if stored then spots else []), x, gap, spots)
  {
    hide Fits;
    if stored {
      gap := {};
    } else {
      gap := InsertAll(u, spots).spots.Keys - u.spots.Keys;
      GapBefore(u, x, spots);
    }
  }

  lemma TryStaysAlongside(t0: Tables, u: Tables, x: Tables, spots: seq<Spot>, cmds: seq<Command>,
                          answers: MessageId -> Answer, mode: Mode, a: Try) returns (z: Tables)
    requires FromOverview(spots) && mode != Off && (mode == Delete ==> StillTargets(t0, spots, cmds, answers))
    requires Alongside(t0, u, x, spots, cmds, answers, mode)
    ensures Alongside(t0, AfterTry(u, spots, cmds, answers, mode, a), z, spots, cmds, answers, mode)
  {
    hide Fits, Partial, PassSteps, StillTargets, Run, FromOverview;
    var offered, head := if a.stored then spots else [], Head(answers, a.rest.drops);
    var y := InsertAll(u, offered);
    ChunkRun(u, offered, cmds, head, mode, a.rest.now, a.rest.steps);
    if a.rest.steps == 0 {
      z := x;
    } else {
      var k := a.rest.steps - 1;
      var gap := TryGap(u, x, spots, a.stored);
      var steps := PassSteps(y, cmds, head, mode, a.rest.now);
      PassTwins(y, x, gap, spots, cmds, head, mode, a.rest.now);
      OthersIn(cmds, gap);
      PassPrefixKeepsPartial(InsertAll(t0, spots), x, cmds, Others(cmds, gap), answers, a.rest.drops, mode,
                             a.rest.now, k);
      RunFits(y, x, gap, spots, Prefix(steps, k));
      z := InsertAll(Run(x, Prefix(steps, k)), spots);
      InsertFits(Run(y, Prefix(steps, k)), Run(x, Prefix(steps, k)), gap, spots);
      InsertKeepsPartial(t0, InsertAll(t0, spots), Run(x, Prefix(steps, k)), spots, cmds, answers, mode);
    }
  }

  lemma {:induction false} TriesStayAlongside(t: Tables, spots: seq<Spot>, cmds: seq<Command>,
                                              answers: MessageId -> Answer, mode: Mode, tries: seq<Try>)
    returns (x: Tables)
    requires FromOverview(spots) && mode != Off && (mode == Delete ==> StillTargets(t, spots, cmds, answers))
    ensures Alongside(t, AfterTries(t, spots, cmds, answers, mode, tries), x, spots, cmds, answers, mode)
  {
    hide AfterTry, Partial, StillTargets;
    if tries == [] {
      x := InsertAll(t, spots);
      PartialItself(x, cmds, Steady(answers), mode);
    } else {
      var init := tries[..|tries| - 1];
      var y := TriesStayAlongside(t, spots, cmds, answers, mode, init);
      x := TryStaysAlongside(t, AfterTries(t, spots, cmds, answers, mode, init), y, spots, cmds, answers, mode,
                             tries[|tries| - 1]);
    }
  }

  /** With moderation off an attempt only inserts. */
  lemma {:induction false} OffFits(t: Tables, spots: seq<Spot>, cmds: seq<Command>, answers: MessageId -> Answer,
                                   tries: seq<Try>)
    ensures Fits(InsertAll(AfterTries(t, spots, cmds, answers, Off, tries), spots), InsertAll(t, spots), {}, spots)
  {
    hide Fits;
    if tries == [] {
      FitsItself(InsertAll(t, spots), spots);
    } else {
      var u, a := AfterTries(t, spots, cmds, answers, Off, tries[..|tries| - 1]), tries[|tries| - 1];
      OffFits(t, spots, cmds, answers, tries[..|tries| - 1]);
      ChunkRun(u, if a.stored then spots else [], cmds, Head(answers, a.rest.drops), Off, a.rest.now, a.rest.steps);
      if a.rest.steps > 0 && a.stored {
        InsertAllRows(u, spots);
        InsertNothing(InsertAll(u, spots), spots);
      }
    }
  }

  lemma FitsItself(t: Tables, spots: seq<Spot>)
    ensures Fits(t, t, {}, spots)
  {}

  lemma FitsShow(y: Tables, x: Tables, spots: seq<Spot>)
    requires Fits(y, x, {}, spots)
    ensures Shown(y) == Shown(x) && y.ring.Keys == x.ring.Keys
  {}

  lemma CompletedFits(u: Tables, x: Tables, spots: seq<Spot>, cmds: seq<Command>, answers: MessageId -> Answer,
                      mode: Mode, now: int)
    requires Fits(InsertAll(u, spots), x, {}, spots)
    ensures Fits(Complete(u, spots, cmds, answers, mode, now),
                 Run(x, PassSteps(x, cmds, Steady(answers), mode, now)), {}, spots)
  {
    var y := InsertAll(u, spots);
    hide Fits, PassSteps, Run;
    CompleteIs(u, spots, cmds, answers, mode, now);
    OthersIn(cmds, {});
    PassTwins(y, x, {}, spots, cmds, Steady(answers), mode, now);
    RunFits(y, x, {}, spots, PassSteps(y, cmds, Steady(answers), mode, now));
  }

  /** Re-running a chunk after any number of attempts, whether their inserts succeeded or failed, interrupted
      anywhere, ends with the listing of one uninterrupted run. */
  lemma RerunAfterFailedInserts(t: Tables, spots: seq<Spot>, cmds: seq<Command>, answers: MessageId -> Answer,
                                mode: Mode, tries: seq<Try>, now: int, now': int)
    requires FromOverview(spots)
    requires mode == Delete ==> StillTargets(t, spots, cmds, answers)
    ensures var u := AfterTries(t, spots, cmds, answers, mode, tries);
      Shown(Complete(u, spots, cmds, answers, mode, now')) == Shown(Complete(t, spots, cmds, answers, mode, now))
  {
    var u, once := AfterTries(t, spots, cmds, answers, mode, tries), InsertAll(t, spots);
    hide Fits, PassSteps, Run, AfterTries, StillTargets, Partial, Complete, InsertAll;
    CompleteIs(t, spots, cmds, answers, mode, now);
    if mode == Off {
      OffFits(t, spots, cmds, answers, tries);
      CompletedFits(u, once, spots, cmds, answers, mode, now');
      FitsShow(Complete(u, spots, cmds, answers, mode, now'),
               Run(once, PassSteps(once, cmds, Steady(answers), mode, now')), spots);
      OffWritesNothing(once, cmds, Steady(answers), now, now');
    } else {
      var x := TriesStayAlongside(t, spots, cmds, answers, mode, tries);
      CompletedFits(u, x, spots, cmds, answers, mode, now');
      FitsShow(Complete(u, spots, cmds, answers, mode, now'),
               Run(x, PassSteps(x, cmds, Steady(answers), mode, now')), spots);
      PartialSameListing(once, x, cmds, answers, mode, now, now');
    }
  }

  lemma OffWritesNothing(t: Tables, cmds: seq<Command>, head: Head, now: int, now': int)
    ensures PassSteps(t, cmds, head, Off, now) == PassSteps(t, cmds, head, Off, now')
  {}

  /** In mark mode the rows, the ring and the withdrawn spots come out the same too. */
  lemma MarksAfterFailedInserts(t: Tables, spots: seq<Spot>, cmds: seq<Command>, answers: MessageId -> Answer,
                                tries: seq<Try>, now: int, now': int)
    requires FromOverview(spots)
    ensures var f := Complete(t, spots, cmds, answers, Mark, now);
      var g := Complete(AfterTries(t, spots, cmds, answers, Mark, tries), spots, cmds, answers, Mark, now');
      g.spots.Keys == f.spots.Keys && g.ring.Keys == f.ring.Keys && ModeratedIds(g) == ModeratedIds(f)
  {
    var u, once := AfterTries(t, spots, cmds, answers, Mark, tries), InsertAll(t, spots);
    hide PassSteps, Run, AfterTries, Partial, Complete, InsertAll;
    CompleteIs(t, spots, cmds, answers, Mark, now);
    var x := TriesStayAlongside(t, spots, cmds, answers, Mark, tries);
    CompletedFits(u, x, spots, cmds, answers, Mark, now');
    PartialSameMarks(once, x, cmds, answers, now, now');
  }

  lemma {:induction false} NoFailedInserts(t: Tables, spots: seq<Spot>, cmds: seq<Command>,
                                           answers: MessageId -> Answer, mode: Mode, a: Attempt)
    ensures AfterTries(t, spots, cmds, answers, mode, [Try(true, a)])
         == AfterAttempts(t, spots, cmds, answers, mode, [a])
  {
    assert [a][..0] == [] && [Try(true, a)][..0] == [];
  }

  /** In delete mode the listing comes out the same after every sequence of attempts, failed inserts included,
      if and only if what the chunk withdraws and offers again is withdrawn as offered. */
  lemma SameShownExactlyWhen(t: Tables, spots: seq<Spot>, cmds: seq<Command>, answers: MessageId -> Answer, now: int)
    requires FromOverview(spots)
    ensures (forall tries: seq<Try> ::
               Shown(Complete(AfterTries(t, spots, cmds, answers, Delete, tries), spots, cmds, answers, Delete, 0))
               == Shown(Complete(t, spots, cmds, answers, Delete, now)))
       <==> StillTargets(t, spots, cmds, answers)
  {
    hide Complete, AfterTries, AfterAttempts;
    if StillTargets(t, spots, cmds, answers) {
      forall tries: seq<Try>
        ensures Shown(Complete(AfterTries(t, spots, cmds, answers, Delete, tries), spots, cmds, answers, Delete, 0))
             == Shown(Complete(t, spots, cmds, answers, Delete, now))
      {
        RerunAfterFailedInserts(t, spots, cmds, answers, Delete, tries, now, 0);
      }
    } else {
      var id :| id in Targets(InsertAll(t, spots), cmds, Steady(answers)) && id in t.spots && id !in t.ring
        && Offers(spots, id) && !OfferWithdrawn(spots, cmds, answers, id);
      var torn := Torn(t, spots, cmds, answers);
      Resurrected(t, spots, cmds, answers, now, id);
      NoFailedInserts(t, spots, cmds, answers, Delete, torn);
      assert id in Shown(Complete(AfterTries(t, spots, cmds, answers, Delete, [Try(true, torn)]), spots, cmds, answers,
                                  Delete, 0));
    }
  }

  lemma PassRing(x: Tables, cmds: seq<Command>, answers: MessageId -> Answer, now: int)
    ensures Run(x, PassSteps(x, cmds, Steady(answers), Delete, now)).ring.Keys
         == x.ring.Keys + Targets(x, cmds, Steady(answers))
  {
    PassFacts(x, cmds, Steady(answers), Delete, now);
    CleanScan(x, cmds, answers);
  }

  lemma RingAfterFailedInserts(t: Tables, spots: seq<Spot>, cmds: seq<Command>, answers: MessageId -> Answer,
                               tries: seq<Try>, now: int, now': int)
    requires FromOverview(spots) && StillTargets(t, spots, cmds, answers)
    requires OffersItsTargets(t, spots, cmds, answers)
    ensures Complete(AfterTries(t, spots, cmds, answers, Delete, tries), spots, cmds, answers, Delete, now').ring.Keys
         == Complete(t, spots, cmds, answers, Delete, now).ring.Keys
  {
    var u, once := AfterTries(t, spots, cmds, answers, Delete, tries), InsertAll(t, spots);
    InsertedRows(u, spots);
    InsertAllRows(t, spots);
    hide PassSteps, Run, AfterTries, Partial, Complete, InsertAll, StillTargets;
    var x := TriesStayAlongside(t, spots, cmds, answers, Delete, tries);
    CompletedFits(u, x, spots, cmds, answers, Delete, now');
    RingAfterCompletion(t, spots, cmds, answers, now);
    PassRing(x, cmds, answers, now');
    forall s <- spots ensures s.messageId in x.spots || s.messageId in x.ring {
      assert Offers(spots, s.messageId);
    }
    GoalRecovered(once, x, spots, cmds, answers);
  }

  /** ... and the ring if and only if, besides, the chunk offers every spot that it withdraws. */
  lemma SameRecordedExactlyWhen(t: Tables, spots: seq<Spot>, cmds: seq<Command>, answers: MessageId -> Answer, now: int)
    requires RingHides(t) && FromOverview(spots)
    ensures (forall tries: seq<Try> ::
               Complete(AfterTries(t, spots, cmds, answers, Delete, tries), spots, cmds, answers, Delete, 0).ring.Keys
               == Complete(t, spots, cmds, answers, Delete, now).ring.Keys)
       <==> OffersItsTargets(t, spots, cmds, answers) && StillTargets(t, spots, cmds, answers)
  {
    hide Complete, AfterTries, AfterAttempts;
    if OffersItsTargets(t, spots, cmds, answers) && StillTargets(t, spots, cmds, answers) {
      forall tries: seq<Try>
        ensures Complete(AfterTries(t, spots, cmds, answers, Delete, tries), spots, cmds, answers, Delete, 0).ring.Keys
             == Complete(t, spots, cmds, answers, Delete, now).ring.Keys
      {
        RingAfterFailedInserts(t, spots, cmds, answers, tries, now, 0);
      }
    } else {
      var torn := Torn(t, spots, cmds, answers);
      NoFailedInserts(t, spots, cmds, answers, Delete, torn);
      TornLosesEntry(t, spots, cmds, answers, now);
      assert Complete(AfterTries(t, spots, cmds, answers, Delete, [Try(true, torn)]), spots, cmds, answers, Delete,
                      0).ring.Keys != Complete(t, spots, cmds, answers, Delete, now).ring.Keys;
    }
  }

  lemma TornLosesEntry(t: Tables, spots: seq<Spot>, cmds: seq<Command>, answers: MessageId -> Answer, now: int)
    requires RingHides(t) && FromOverview(spots)
    requires !OffersItsTargets(t, spots, cmds, answers) || !StillTargets(t, spots, cmds, answers)
    ensures Complete(AfterAttempts(t, spots, cmds, answers, Delete, [Torn(t, spots, cmds, answers)]), spots, cmds,
                     answers, Delete, 0).ring.Keys
         != Complete(t, spots, cmds, answers, Delete, now).ring.Keys
  {
    hide Complete, AfterAttempts;
    if !OffersItsTargets(t, spots, cmds, answers) {
      LostEntry(t, spots, cmds, answers, now);
    } else {
      var id :| id in Targets(InsertAll(t, spots), cmds, Steady(answers)) && id in t.spots && id !in t.ring
        && Offers(spots, id) && !OfferWithdrawn(spots, cmds, answers, id);
      NeverRecorded(t, spots, cmds, answers, now, id);
    }
  }

  // ---------------------------------------------------------- owners, in mark mode

  lemma {:induction false} PassKeepsNextId(t: Tables, steps: seq<Step>)
    requires forall s <- steps :: PassStep(s)
    ensures Run(t, steps).nextId == t.nextId
  {
    if steps != [] {
      var init, last := steps[..|steps| - 1], steps[|steps| - 1];
      assert last in steps;
      PassKeepsNextId(t, init);
      if last.MarkModerated? { MarkAllFacts(Run(t, init), last.ids, last.now); }
    }
  }

  /** `y` takes the same new rows as `u`, under the same numbers. */
  ghost predicate SameRoom(u: Tables, y: Tables) {
    && y.spots.Keys == u.spots.Keys && y.nextId == u.nextId
    && u.ring.Keys <= y.ring.Keys <= u.ring.Keys + u.spots.Keys
  }

  lemma {:induction false} SameNewRows(u: Tables, y: Tables, spots: seq<Spot>)
    requires SameRoom(u, y)
    ensures var u', y' := InsertAll(u, spots), InsertAll(y, spots);
      SameRoom(u', y') && forall id <- u'.spots :: id !in u.spots ==> y'.spots[id] == u'.spots[id]
  {
    if spots != [] {
      SameNewRows(u, y, spots[..|spots| - 1]);
    }
  }

  lemma PassKeepsRoom(u: Tables, cmds: seq<Command>, answers: MessageId -> Answer, drops: nat -> bool, now: int, k: nat)
    ensures SameRoom(u, Run(u, Prefix(PassSteps(u, cmds, Head(answers, drops), Mark, now), k)))
  {
    hide PassSteps, Run;
    PartialItself(u, cmds, Steady(answers), Mark);
    PassPrefixKeepsPartial(u, u, cmds, cmds, answers, drops, Mark, now, k);
    PassIsWork(u, cmds, Head(answers, drops), Mark, now);
    PassKeepsNextId(u, Prefix(PassSteps(u, cmds, Head(answers, drops), Mark, now), k));
  }

  /** Where the next run starts its withdrawals, the row of `id` is underway. */
  ghost predicate RowUnderway(row: Row, u: Tables, spots: seq<Spot>, cmds: seq<Command>, id: MessageId, a: Answer) {
    id in InsertAll(u, spots).spots && Underway(row, InsertAll(u, spots).spots[id], cmds, id, a)
  }

  /** A row that the attempt finds. */
  lemma HeldUnderway(row: Row, u: Tables, y: Tables, z: Tables, spots: seq<Spot>, cmds: seq<Command>, id: MessageId,
                     a: Answer)
    requires RowUnderway(row, u, spots, cmds, id, a)
    requires id in y.spots && (y == u || y == InsertAll(u, spots))
    ensures Underway(row, y.spots[id], cmds, id, a)
    ensures id in z.spots && Underway(row, z.spots[id], cmds, id, a) ==> RowUnderway(row, z, spots, cmds, id, a)
  {
    hide Underway;
    InsertAllRows(u, spots);
    InsertAllRows(z, spots);
    hide InsertAll;
  }

  /** A row that comes with the next insert. */
  lemma NewUnderway(row: Row, u: Tables, z: Tables, spots: seq<Spot>, cmds: seq<Command>, id: MessageId, a: Answer)
    requires RowUnderway(row, u, spots, cmds, id, a) && id !in u.spots && SameRoom(u, z)
    ensures RowUnderway(row, z, spots, cmds, id, a)
  {
    hide Underway, InsertAll;
    SameNewRows(u, z, spots);
  }

  lemma TryUnderway(row: Row, u: Tables, spots: seq<Spot>, cmds: seq<Command>, answers: MessageId -> Answer, a: Try,
                    id: MessageId)
    requires RowUnderway(row, u, spots, cmds, id, answers(id)) && !Overtakable(cmds, row, id, answers(id))
    ensures RowUnderway(row, AfterTry(u, spots, cmds, answers, Mark, a), spots, cmds, id, answers(id))
  {
    var offered := if a.stored then spots else [];
    var y, z := InsertAll(u, offered), AfterTry(u, spots, cmds, answers, Mark, a);
    NothingInserted(u);
    assert a.stored ==> RowUnderway(row, u, spots, cmds, id, answers(id)) ==> id in y.spots;
    hide Underway, Overtakable, PassSteps, Run, InsertAll, RowUnderway;
    ChunkRun(u, offered, cmds, Head(answers, a.rest.drops), Mark, a.rest.now, a.rest.steps);
    if a.rest.steps > 0 {
      if id in y.spots {
        HeldUnderway(row, u, y, z, spots, cmds, id, answers(id));
        PassPrefixUnderway(row, y, cmds, answers, a.rest.drops, a.rest.now, a.rest.steps - 1, id);
      } else {
        PassKeepsRoom(u, cmds, answers, a.rest.drops, a.rest.now, a.rest.steps - 1);
        NewUnderway(row, u, z, spots, cmds, id, answers(id));
      }
    }
  }

  lemma NothingInserted(u: Tables)
    ensures InsertAll(u, []) == u
  {}

  lemma {:induction false} TriesUnderway(t: Tables, spots: seq<Spot>, cmds: seq<Command>, answers: MessageId -> Answer,
                                         tries: seq<Try>, id: MessageId)
    requires id in InsertAll(t, spots).spots
    requires !Overtakable(cmds, InsertAll(t, spots).spots[id], id, answers(id))
    ensures RowUnderway(InsertAll(t, spots).spots[id], AfterTries(t, spots, cmds, answers, Mark, tries), spots, cmds,
                        id, answers(id))
  {
    hide InsertAll, AfterTry, Overtakable;
    if tries != [] {
      TriesUnderway(t, spots, cmds, answers, tries[..|tries| - 1], id);
      TryUnderway(InsertAll(t, spots).spots[id], AfterTries(t, spots, cmds, answers, Mark, tries[..|tries| - 1]), spots,
                  cmds, answers, tries[|tries| - 1], id);
    }
  }

  /** The row after the completed run. */
  lemma RowAfterTries(t: Tables, spots: seq<Spot>, cmds: seq<Command>, answers: MessageId -> Answer, tries: seq<Try>,
                      now: int, id: MessageId)
    requires id in InsertAll(t, spots).spots
    requires !Overtakable(cmds, InsertAll(t, spots).spots[id], id, answers(id))
    ensures var row := InsertAll(t, spots).spots[id];
      var f := Complete(AfterTries(t, spots, cmds, answers, Mark, tries), spots, cmds, answers, Mark, now);
      id in f.spots && Underway(row, f.spots[id], cmds, id, answers(id))
  {
    var u := AfterTries(t, spots, cmds, answers, Mark, tries);
    var x := InsertAll(u, spots);
    var steps := PassSteps(x, cmds, Steady(answers), Mark, now);
    hide Underway, Overtakable, PassSteps, Run, InsertAll, AfterTries, Complete;
    TriesUnderway(t, spots, cmds, answers, tries, id);
    CompleteIs(u, spots, cmds, answers, Mark, now);
    assert Prefix(steps, |steps|) == steps;
    PassPrefixUnderway(InsertAll(t, spots).spots[id], x, cmds, answers, (k: nat) => false, now, |steps|, id);
  }

  lemma UnderwayTwice(row: Row, f: Row, g: Row, cmds: seq<Command>, id: MessageId, a: Answer)
    requires Underway(row, f, cmds, id, a) && Underway(row, g, cmds, id, a)
    ensures f.id == g.id
    ensures f.spot.moderated && g.spot.moderated ==> f == g
  {}

  lemma SameRowsAfterTries(t: Tables, spots: seq<Spot>, cmds: seq<Command>, answers: MessageId -> Answer,
                           tries: seq<Try>, now: int, now': int)
    requires FromOverview(spots)
    requires var x := InsertAll(t, spots); forall id <- x.spots :: !Overtakable(cmds, x.spots[id], id, answers(id))
    ensures Complete(AfterTries(t, spots, cmds, answers, Mark, tries), spots, cmds, answers, Mark, now').spots
         == Complete(t, spots, cmds, answers, Mark, now).spots
  {
    var f := Complete(t, spots, cmds, answers, Mark, now);
    var g := Complete(AfterTries(t, spots, cmds, answers, Mark, tries), spots, cmds, answers, Mark, now');
    MarksAfterFailedInserts(t, spots, cmds, answers, tries, now, now');
    RerunAfterFailedInserts(t, spots, cmds, answers, Mark, tries, now, now');
    assert AfterTries(t, spots, cmds, answers, Mark, []) == t;
    KeysOfCompletion(t, spots, cmds, answers, now);
    hide Underway, Overtakable, InsertAll, AfterTries, Complete;
    forall id <- f.spots ensures g.spots[id] == f.spots[id] {
      RowAfterTries(t, spots, cmds, answers, [], now, id);
      RowAfterTries(t, spots, cmds, answers, tries, now', id);
      UnderwayTwice(InsertAll(t, spots).spots[id], f.spots[id], g.spots[id], cmds, id, answers(id));
      assert id in ModeratedIds(f) <==> id in ModeratedIds(g);
      if id !in ModeratedIds(f) {
        assert id in Shown(f) && Shown(f)[id] == Shown(g)[id];
      }
    }
  }

  lemma UnreadDiffers(cmds: seq<Command>, row: Row, id: MessageId, a: Answer)
    requires Overtakable(cmds, row, id, a)
    ensures Marked(row) != Marked(Answered(row, a))
  {}

  /** In mark mode all rows, owners and row numbers included, come out the same after every sequence of attempts,
      failed inserts included, if and only if no withdrawn spot can be overtaken. */
  lemma SameOwnersAlsoExactlyWhen(t: Tables, spots: seq<Spot>, cmds: seq<Command>, answers: MessageId -> Answer,
                                  now: int)
    requires FromOverview(spots)
    ensures (forall tries: seq<Try> ::
               Complete(AfterTries(t, spots, cmds, answers, Mark, tries), spots, cmds, answers, Mark, 0).spots
               == Complete(t, spots, cmds, answers, Mark, now).spots)
       <==> (var x := InsertAll(t, spots); forall id <- x.spots :: !Overtakable(cmds, x.spots[id], id, answers(id)))
  {
    var x := InsertAll(t, spots);
    hide Complete, AfterTries, AfterAttempts, InsertAll, Overtakable;
    if id :| id in x.spots && Overtakable(cmds, x.spots[id], id, answers(id)) {
      var deaf := Deaf(t, spots, cmds, answers);
      OvertakenStaysUnread(t, spots, cmds, answers, id);
      OvertakenIsReadOnce(t, spots, cmds, answers, id, now);
      UnreadDiffers(cmds, x.spots[id], id, answers(id));
      NoFailedInserts(t, spots, cmds, answers, Mark, deaf);
      assert Complete(AfterTries(t, spots, cmds, answers, Mark, [Try(true, deaf)]), spots, cmds, answers, Mark, 0).spots
             != Complete(t, spots, cmds, answers, Mark, now).spots;
    } else {
      forall tries: seq<Try>
        ensures Complete(AfterTries(t, spots, cmds, answers, Mark, tries), spots, cmds, answers, Mark, 0).spots
             == Complete(t, spots, cmds, answers, Mark, now).spots
      {
        SameRowsAfterTries(t, spots, cmds, answers, tries, now, 0);
      }
    }
  }
}
