/** Re-running a chunk in delete mode: when do the listing and `moderated_ring` come out the same?

    The rows are deleted in one statement and recorded in the ring by another. A crash in between
    leaves a deleted target without a ring entry. If the chunk offers the target again, the next run
    inserts it; if its withdrawals still withdraw it, they delete and record it, else it stays. If the
    chunk does not offer it, the withdrawal finds no target and the entry is lost. */
module ChunkDelete {
  import opened Store
  import opened StoreInvariants
  import opened Moderation
  import opened ApplyingModeration
  import opened Chunk

  /** Every spot the chunk's withdrawals remove is itself among the chunk's spots. */
  ghost predicate OffersItsTargets(t: Tables, spots: seq<Spot>, cmds: seq<Command>, answers: MessageId -> Answer) {
    forall id <- Targets(InsertAll(t, spots), cmds, Steady(answers)) :: Offers(spots, id)
  }

  lemma RingAfterCompletion(u: Tables, spots: seq<Spot>, cmds: seq<Command>, answers: MessageId -> Answer, now: int)
    ensures var x := InsertAll(u, spots);
      Complete(u, spots, cmds, answers, Delete, now).ring.Keys == u.ring.Keys + Targets(x, cmds, Steady(answers))
  {
    var x := InsertAll(u, spots);
    CompleteIs(u, spots, cmds, answers, Delete, now);
    InsertAllRows(u, spots);
    PassFacts(x, cmds, Steady(answers), Delete, now);
    CleanScan(x, cmds, answers);
  }

  lemma RingRecovered(t: Tables, spots: seq<Spot>, cmds: seq<Command>, answers: MessageId -> Answer,
                      attempts: seq<Attempt>, now: int, now': int)
    requires FromOverview(spots) && StillTargets(t, spots, cmds, answers)
    requires OffersItsTargets(t, spots, cmds, answers)
    ensures Complete(AfterAttempts(t, spots, cmds, answers, Delete, attempts), spots, cmds, answers, Delete,
        now').ring.Keys
         == Complete(t, spots, cmds, answers, Delete, now).ring.Keys
  {
    var u := AfterAttempts(t, spots, cmds, answers, Delete, attempts);
    var t1, x := InsertAll(t, spots), InsertAll(u, spots);
    AttemptsStayPartial(t, spots, cmds, answers, Delete, attempts);
    RingAfterCompletion(t, spots, cmds, answers, now);
    RingAfterCompletion(u, spots, cmds, answers, now');
    InsertAllRows(t, spots);
    InsertAllRows(u, spots);
    hide Complete, AfterAttempts, InsertAll, StillTargets, Partial;
    GoalRecovered(t1, x, spots, cmds, answers);
  }

  lemma GoalRecovered(t: Tables, x: Tables, spots: seq<Spot>, cmds: seq<Command>, answers: MessageId -> Answer)
    requires Partial(t, x, cmds, Steady(answers), Delete)
    requires forall id <- Targets(t, cmds, Steady(answers)) :: Offers(spots, id)
    requires forall s <- spots :: s.messageId in x.spots || s.messageId in x.ring
    ensures x.ring.Keys + Targets(x, cmds, Steady(answers)) == t.ring.Keys + Targets(t, cmds, Steady(answers))
  {
    var head := Steady(answers);
    SameTargets(t, x, cmds, head, head, Delete);
    hide Entitled, NeedsLookup;
    forall id <- Targets(t, cmds, head) ensures id in x.ring || id in Targets(x, cmds, head) {
      FirstIsOffered(spots, id);
    }
  }

  /** The attempt that stops between the deletion and the ring entries. */
  ghost function Torn(t: Tables, spots: seq<Spot>, cmds: seq<Command>, answers: MessageId -> Answer): Attempt {
    var s := ScanAll(InsertAll(t, spots), cmds, Steady(answers));
    Attempt(Steady(answers).drops, 0, 1 + |s.effects| + |Batches(s.targets)|)
  }

  lemma FirstPart<T>(a: seq<T>, b: seq<T>, c: seq<T>)
    ensures Prefix(a + (b + c), |a| + |b|) == a + b
  {}

  lemma TornRun(x: Tables, u: Tables, effects: seq<Step>, ids: seq<MessageId>, first: seq<Step>)
    requires u == Run(x, effects) && first == effects + Batches(ids)
    ensures Run(x, first).spots.Keys == u.spots.Keys - SetOf(ids) && Run(x, first).ring == u.ring
  {
    RunConcat(x, effects, Batches(ids));
    BatchesDelete(u, ids);
  }

  lemma ScanSets(x: Tables, cmds: seq<Command>, answers: MessageId -> Answer)
    ensures var s := ScanAll(x, cmds, Steady(answers));
      && s.tables == Run(x, s.effects)
      && SetOf(s.targets) == Targets(x, cmds, Steady(answers))
      && s.tables.spots.Keys == x.spots.Keys && s.tables.ring == x.ring
      && (s.targets == [] ==> Targets(x, cmds, Steady(answers)) == {})
  {
    CleanScan(x, cmds, answers);
    ScanKeeps(x, cmds, Steady(answers));
  }

  lemma TornSteps(t: Tables, spots: seq<Spot>, cmds: seq<Command>, answers: MessageId -> Answer)
    requires ScanAll(InsertAll(t, spots), cmds, Steady(answers)).targets != []
    ensures var s := ScanAll(InsertAll(t, spots), cmds, Steady(answers));
      AfterAttempts(t, spots, cmds, answers, Delete, [Torn(t, spots, cmds, answers)])
        == Run(InsertAll(t, spots), s.effects + Batches(s.targets))
  {
    var x, a, head := InsertAll(t, spots), Torn(t, spots, cmds, answers), Steady(answers);
    var s := ScanAll(x, cmds, head);
    var pass := PassSteps(x, cmds, head, Delete, 0);
    hide ScanAll, InsertAll, Run, Batches;
    OneAttempt(t, spots, cmds, answers, a);
    assert Head(answers, a.drops) == head;
    ChunkRun(t, spots, cmds, head, Delete, a.now, a.steps);
    assert pass == s.effects + (Batches(s.targets) + [MarkModerated(s.targets, 0)]);
    FirstPart(s.effects, Batches(s.targets), [MarkModerated(s.targets, 0)]);
    assert Prefix(pass, a.steps - 1) == s.effects + Batches(s.targets);
  }

  lemma AfterTorn(t: Tables, spots: seq<Spot>, cmds: seq<Command>, answers: MessageId -> Answer)
    requires Targets(InsertAll(t, spots), cmds, Steady(answers)) != {}
    ensures var u := AfterAttempts(t, spots, cmds, answers, Delete, [Torn(t, spots, cmds, answers)]);
      && u.ring == t.ring
      && u.spots.Keys == InsertAll(t, spots).spots.Keys - Targets(InsertAll(t, spots), cmds, Steady(answers))
  {
    var x := InsertAll(t, spots);
    var s := ScanAll(x, cmds, Steady(answers));
    ScanSets(x, cmds, answers);
    TornSteps(t, spots, cmds, answers);
    TornRun(x, s.tables, s.effects, s.targets, s.effects + Batches(s.targets));
    InsertAllKeepsRing(t, spots);
  }

  lemma OneAttempt(t: Tables, spots: seq<Spot>, cmds: seq<Command>, answers: MessageId -> Answer, a: Attempt)
    ensures AfterAttempts(t, spots, cmds, answers, Delete, [a]) == AfterAttempt(t, spots, cmds, answers, Delete, a)
  {
    assert [a][..|[a]| - 1] == [] && [a][|[a]| - 1] == a;
    assert AfterAttempts(t, spots, cmds, answers, Delete, []) == t;
  }

  /** A target that was stored before and that the chunk offers in a form its withdrawals do not withdraw:
      after a torn attempt it is inserted again and stays. */
  lemma RebuiltAndKept(t: Tables, spots: seq<Spot>, cmds: seq<Command>, answers: MessageId -> Answer, id: MessageId)
    requires FromOverview(spots)
    requires id in Targets(InsertAll(t, spots), cmds, Steady(answers)) && id !in t.ring && Offers(spots, id)
    requires !OfferWithdrawn(spots, cmds, answers, id)
    ensures var u := AfterAttempts(t, spots, cmds, answers, Delete, [Torn(t, spots, cmds, answers)]);
      && id !in u.ring
      && id in InsertAll(u, spots).spots && !InsertAll(u, spots).spots[id].spot.moderated
      && id !in Targets(InsertAll(u, spots), cmds, Steady(answers))
  {
    var head := Steady(answers);
    var u := AfterAttempts(t, spots, cmds, answers, Delete, [Torn(t, spots, cmds, answers)]);
    AfterTorn(t, spots, cmds, answers);
    InsertAllRows(u, spots);
    FirstIsOffered(spots, id);
    var x := InsertAll(u, spots);
    assert x.spots[id].spot == First(spots, id) && AnswerFor(head, id) == answers(id);
    forall c: Command ensures Entitles(c, x.spots[id], answers(id))
        <==> Entitles(c, Row(0, First(spots, id)), answers(id)) {}
  }

  /** In delete mode the listing comes out the same after every sequence of interruptions if and only if
      what the chunk withdraws and offers again is withdrawn as offered. */
  lemma SameListingExactlyWhen(t: Tables, spots: seq<Spot>, cmds: seq<Command>, answers: MessageId -> Answer, now: int)
    requires FromOverview(spots)
    ensures (forall attempts: seq<Attempt> ::
               Visible(Complete(AfterAttempts(t, spots, cmds, answers, Delete, attempts), spots, cmds, answers,
                   Delete, 0))
               == Visible(Complete(t, spots, cmds, answers, Delete, now)))
       <==> StillTargets(t, spots, cmds, answers)
  {
    if StillTargets(t, spots, cmds, answers) {
      forall attempts: seq<Attempt>
        ensures Visible(Complete(AfterAttempts(t, spots, cmds, answers, Delete, attempts), spots, cmds, answers,
            Delete, 0))
             == Visible(Complete(t, spots, cmds, answers, Delete, now))
      {
        RerunGivesTheSameListing(t, spots, cmds, answers, Delete, attempts, now, 0);
      }
    } else {
      var id :| id in Targets(InsertAll(t, spots), cmds, Steady(answers)) && id in t.spots && id !in t.ring
          && Offers(spots, id)
        && !OfferWithdrawn(spots, cmds, answers, id);
      Resurrected(t, spots, cmds, answers, now, id);
    }
  }

  lemma Resurrected(t: Tables, spots: seq<Spot>, cmds: seq<Command>, answers: MessageId -> Answer, now: int,
      id: MessageId)
    requires FromOverview(spots)
    requires id in Targets(InsertAll(t, spots), cmds, Steady(answers)) && id !in t.ring && Offers(spots, id)
    requires !OfferWithdrawn(spots, cmds, answers, id)
    ensures id !in Visible(Complete(t, spots, cmds, answers, Delete, now))
    ensures var u := AfterAttempts(t, spots, cmds, answers, Delete, [Torn(t, spots, cmds, answers)]);
      id in Visible(Complete(u, spots, cmds, answers, Delete, 0))
  {
    var u := AfterAttempts(t, spots, cmds, answers, Delete, [Torn(t, spots, cmds, answers)]);
    RebuiltAndKept(t, spots, cmds, answers, id);
    CompleteIs(t, spots, cmds, answers, Delete, now);
    CompleteIs(u, spots, cmds, answers, Delete, 0);
    ListingAfterPass(InsertAll(t, spots), cmds, answers, Delete, now);
    ListingAfterPass(InsertAll(u, spots), cmds, answers, Delete, 0);
  }

  /** The ring comes out the same if and only if, besides, every spot the chunk withdraws is among the
      spots it offers. */
  lemma SameRingExactlyWhen(t: Tables, spots: seq<Spot>, cmds: seq<Command>, answers: MessageId -> Answer, now: int)
    requires RingHides(t) && FromOverview(spots)
    ensures (forall attempts: seq<Attempt> ::
               Complete(AfterAttempts(t, spots, cmds, answers, Delete, attempts), spots, cmds, answers, Delete,
                   0).ring.Keys
               == Complete(t, spots, cmds, answers, Delete, now).ring.Keys)
       <==> OffersItsTargets(t, spots, cmds, answers) && StillTargets(t, spots, cmds, answers)
  {
    if !OffersItsTargets(t, spots, cmds, answers) {
      LostEntry(t, spots, cmds, answers, now);
    } else if StillTargets(t, spots, cmds, answers) {
      forall attempts: seq<Attempt>
        ensures Complete(AfterAttempts(t, spots, cmds, answers, Delete, attempts), spots, cmds, answers, Delete,
            0).ring.Keys
             == Complete(t, spots, cmds, answers, Delete, now).ring.Keys
      {
        RingRecovered(t, spots, cmds, answers, attempts, now, 0);
      }
    } else {
      var id :| id in Targets(InsertAll(t, spots), cmds, Steady(answers)) && id in t.spots && id !in t.ring
          && Offers(spots, id)
        && !OfferWithdrawn(spots, cmds, answers, id);
      NeverRecorded(t, spots, cmds, answers, now, id);
    }
  }

  lemma NeverRecorded(t: Tables, spots: seq<Spot>, cmds: seq<Command>, answers: MessageId -> Answer, now: int,
      id: MessageId)
    requires FromOverview(spots)
    requires id in Targets(InsertAll(t, spots), cmds, Steady(answers)) && id !in t.ring && Offers(spots, id)
    requires !OfferWithdrawn(spots, cmds, answers, id)
    ensures id in Complete(t, spots, cmds, answers, Delete, now).ring
    ensures var u := AfterAttempts(t, spots, cmds, answers, Delete, [Torn(t, spots, cmds, answers)]);
      id !in Complete(u, spots, cmds, answers, Delete, 0).ring
  {
    RebuiltAndKept(t, spots, cmds, answers, id);
    RingAfterCompletion(t, spots, cmds, answers, now);
    RingAfterCompletion(AfterAttempts(t, spots, cmds, answers, Delete, [Torn(t, spots, cmds, answers)]), spots, cmds,
        answers, 0);
  }

  lemma LostEntry(t: Tables, spots: seq<Spot>, cmds: seq<Command>, answers: MessageId -> Answer, now: int)
    requires RingHides(t) && !OffersItsTargets(t, spots, cmds, answers)
    ensures Complete(AfterAttempts(t, spots, cmds, answers, Delete, [Torn(t, spots, cmds, answers)]),
                     spots, cmds, answers, Delete, 0).ring.Keys
         != Complete(t, spots, cmds, answers, Delete, now).ring.Keys
  {
    var t1 := InsertAll(t, spots);
    var goal := Targets(t1, cmds, Steady(answers));
    var id :| id in goal && !Offers(spots, id);
    var u := AfterAttempts(t, spots, cmds, answers, Delete, [Torn(t, spots, cmds, answers)]);
    AfterTorn(t, spots, cmds, answers);
    InsertAllRows(t, spots);
    InsertAllRows(u, spots);
    assert Entitled(t1, cmds, Steady(answers), id);
    assert id !in t.ring;
    RingAfterCompletion(t, spots, cmds, answers, now);
    RingAfterCompletion(u, spots, cmds, answers, 0);
    assert id !in InsertAll(u, spots).spots;
  }
}
