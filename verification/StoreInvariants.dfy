/** What every run over the shared tables keeps, whoever takes the steps and in whatever order. */
module StoreInvariants {
  import opened Store

  // ------------------------------------------------------- full-text index

  lemma DocsHas(spots: map<MessageId, Row>, m: MessageId)
    requires m in spots
    ensures PostingOf(spots[m]) in Docs(spots)
  {}

  /** Two parts of the table without a common row id have disjoint documents. */
  lemma RebuiltSplit(spots: map<MessageId, Row>, a: map<MessageId, Row>, b: map<MessageId, Row>)
    requires spots == a + b && a.Keys !! b.Keys
    requires forall m, n | m in a && n in b :: a[m].id != b[n].id
    ensures Rebuilt(spots) == Rebuilt(a) + Rebuilt(b)
  {
    assert Docs(a) !! Docs(b) by {
      forall p, q | p in Docs(a) && q in Docs(b) ensures p != q {
        var m :| m in a && p == PostingOf(a[m]);
        var n :| n in b && q == PostingOf(b[n]);
      }
    }
    assert Docs(spots) == Docs(a) + Docs(b) by {
      forall p | p in Docs(spots) ensures p in Docs(a) + Docs(b) {
        var m :| m in spots && p == PostingOf(spots[m]);
        if m in b { DocsHas(b, m); } else { DocsHas(a, m); }
      }
      forall p | p in Docs(a) + Docs(b) ensures p in Docs(spots) {
        if p in Docs(a) {
          var m :| m in a && p == PostingOf(a[m]);
          DocsHas(spots, m);
        } else {
          var m :| m in b && p == PostingOf(b[m]);
          DocsHas(spots, m);
        }
      }
    }
    assert multiset(Docs(a) + Docs(b)) == multiset(Docs(a)) + multiset(Docs(b));
  }

  lemma RebuiltAfterInsert(spots: map<MessageId, Row>, m: MessageId, row: Row)
    requires m !in spots
    requires forall n <- spots :: spots[n].id != row.id
    ensures Rebuilt(spots[m := row]) == Rebuilt(spots) + multiset{PostingOf(row)}
  {
    var single := map[m := row];
    assert Docs(single) == {PostingOf(row)} by {
      DocsHas(single, m);
    }
    RebuiltSplit(spots[m := row], spots, single);
  }

  lemma RebuiltAfterDelete(spots: map<MessageId, Row>, victims: set<MessageId>)
    requires DistinctIds(spots)
    ensures Rebuilt(spots - victims) == Rebuilt(spots) - Rebuilt(Pick(spots, victims))
  {
    RebuiltSplit(spots, spots - victims, Pick(spots, victims));
  }

  lemma RebuiltUnchanged(a: map<MessageId, Row>, b: map<MessageId, Row>)
    requires a.Keys == b.Keys
    requires forall m <- a :: PostingOf(a[m]) == PostingOf(b[m])
    ensures Rebuilt(a) == Rebuilt(b)
  {
    assert Docs(a) == Docs(b) by {
      forall p | p in Docs(a) ensures p in Docs(b) {
        var m :| m in a && p == PostingOf(a[m]);
        DocsHas(b, m);
      }
      forall p | p in Docs(b) ensures p in Docs(a) {
        var m :| m in b && p == PostingOf(b[m]);
        DocsHas(a, m);
      }
    }
  }

  lemma RebuiltEdited(spots: map<MessageId, Row>, edited: map<MessageId, Row>)
    requires DistinctIds(spots)
    requires edited.Keys <= spots.Keys
    requires forall m <- edited :: edited[m].id == spots[m].id
    ensures Rebuilt(spots + edited) == Rebuilt(spots - edited.Keys) + Rebuilt(edited)
  {
    assert spots + edited == (spots - edited.Keys) + edited;
    RebuiltSplit(spots + edited, spots - edited.Keys, edited);
  }

  lemma RebuiltAfterUpdate(spots: map<MessageId, Row>, edited: map<MessageId, Row>)
    requires DistinctIds(spots)
    requires edited.Keys <= spots.Keys
    requires forall m <- edited :: edited[m].id == spots[m].id
    ensures Rebuilt(spots + edited) == Rebuilt(spots) - Rebuilt(Pick(spots, edited.Keys)) + Rebuilt(edited)
  {
    RebuiltAfterDelete(spots, edited.Keys);
    RebuiltEdited(spots, edited);
  }

  lemma UpdatedWellFormed(t: Tables, edited: map<MessageId, Row>)
    requires WellFormed(t)
    requires edited.Keys <= t.spots.Keys
    requires forall m <- edited :: edited[m].id == t.spots[m].id && edited[m].spot.messageId == m
    ensures WellFormed(Updated(t, edited))
  {
    RebuiltAfterUpdate(t.spots, edited);
  }

  lemma InsertOneWellFormed(t: Tables, s: Spot)
    requires WellFormed(t)
    ensures WellFormed(InsertOne(t, s))
  {
    if s.messageId !in t.ring && s.messageId !in t.spots {
      RebuiltAfterInsert(t.spots, s.messageId, Row(t.nextId, s));
    }
  }

  lemma {:induction false} InsertAllWellFormed(t: Tables, ss: seq<Spot>)
    requires WellFormed(t)
    ensures WellFormed(InsertAll(t, ss))
  {
    if ss != [] {
      InsertAllWellFormed(t, ss[..|ss| - 1]);
      InsertOneWellFormed(InsertAll(t, ss[..|ss| - 1]), ss[|ss| - 1]);
    }
  }

  /** Changing columns that the index does not cover. */
  lemma UnindexedWellFormed(t: Tables, u: Tables)
    requires WellFormed(t)
    requires u.spots.Keys == t.spots.Keys && u.nextId == t.nextId && u.fts == t.fts
    requires forall m <- t.spots ::
      PostingOf(u.spots[m]) == PostingOf(t.spots[m]) && u.spots[m].spot.messageId == t.spots[m].spot.messageId
    ensures WellFormed(u)
  {
    RebuiltUnchanged(t.spots, u.spots);
    assert forall m <- t.spots :: u.spots[m].id == PostingOf(u.spots[m]).rowid;
  }

  lemma MarkAllWellFormed(t: Tables, ids: seq<MessageId>, now: int)
    requires WellFormed(t)
    ensures WellFormed(MarkAll(t, ids, now))
  {
    MarkAllFacts(t, ids, now);
    UnindexedWellFormed(t, MarkAll(t, ids, now));
  }

  lemma WithoutWellFormed(t: Tables, victims: set<MessageId>)
    requires WellFormed(t)
    ensures WellFormed(Without(t, victims))
  {
    RebuiltAfterDelete(t.spots, victims);
  }

  lemma EnrichmentWellFormed(t: Tables, s: Step)
    requires WellFormed(t) && s.UpdateEnrichment?
    ensures WellFormed(Apply(t, s))
  {
    UpdatedWellFormed(t, Enrichment(t, s));
  }

  lemma RepairWellFormed(t: Tables, s: Step)
    requires WellFormed(t) && s.RewriteText?
    ensures WellFormed(Apply(t, s))
  {
    UpdatedWellFormed(t, Repair(t, s));
  }

  lemma OwnerWellFormed(t: Tables, s: Step)
    requires WellFormed(t) && s.SetSpotOwner?
    ensures WellFormed(Apply(t, s))
  {
    UnindexedWellFormed(t, Apply(t, s));
  }

  /** One statement or transaction keeps the index equal to a rebuild, although the update trigger
      fires only on the four indexed columns. */
  lemma StepWellFormed(t: Tables, s: Step)
    requires WellFormed(t)
    ensures WellFormed(Apply(t, s))
  {
    match s
    case InsertSpots(spots) => InsertAllWellFormed(t, spots);
    case MarkModerated(ids, now) => MarkAllWellFormed(t, ids, now);
    case DeleteByMessageId(ids) => WithoutWellFormed(t, set m | m in ids);
    case SetSpotOwner(_, _, _) => OwnerWellFormed(t, s);
    case UpdateEnrichment(_, _, _, _, _, _, _) => EnrichmentWellFormed(t, s);
    case RewriteText(_, _, _, _) => RepairWellFormed(t, s);
    case DeleteOlder(cutoff, batch) => WithoutWellFormed(t, Older(t, cutoff) * batch);
    case DeleteBySpotter(owners) => WithoutWellFormed(t, OwnedBy(t, owners));
    case PruneRing(cutoff) =>
  }

  lemma {:induction false} RunWellFormed(t: Tables, steps: seq<Step>)
    requires WellFormed(t)
    ensures WellFormed(Run(t, steps))
  {
    if steps != [] {
      RunWellFormed(t, steps[..|steps| - 1]);
      StepWellFormed(Run(t, steps[..|steps| - 1]), steps[|steps| - 1]);
    }
  }

  /** Over any run of inserts, deletes, enrichment, repairs, marks and owner updates, the full-text
      index equals the one rebuilt from the current text of every row. */
  lemma IndexAlwaysRebuilt(steps: seq<Step>)
    ensures Run(EMPTY, steps).fts == Rebuilt(Run(EMPTY, steps).spots)
    ensures DistinctIds(Run(EMPTY, steps).spots)
  {
    RunWellFormed(EMPTY, steps);
  }

  // ------------------------------------------------------------- the ring

  lemma {:induction false} InsertAllRing(t: Tables, ss: seq<Spot>)
    requires RingHides(t)
    ensures RingHides(InsertAll(t, ss)) && InsertAll(t, ss).ring == t.ring
  {
    if ss != [] {
      InsertAllRing(t, ss[..|ss| - 1]);
    }
  }

  lemma {:induction false} MarkAllFacts(t: Tables, ids: seq<MessageId>, now: int)
    ensures var u := MarkAll(t, ids, now);
      && u.spots.Keys == t.spots.Keys
      && (forall m <- t.spots :: u.spots[m] == if m in ids then Marked(t.spots[m]) else t.spots[m])
      && u.ring.Keys == t.ring.Keys + (set m | m in ids)
      && (forall m <- t.ring :: u.ring[m] == t.ring[m])
      && (forall m | m in u.ring && m !in t.ring :: u.ring[m] == now)
      && u.nextId == t.nextId && u.fts == t.fts
  {
    if ids != [] {
      var init, last := ids[..|ids| - 1], ids[|ids| - 1];
      MarkAllFacts(t, init, now);
      assert forall m :: m in ids <==> m in init || m == last;
    }
  }

  lemma StepRingHides(t: Tables, s: Step)
    requires RingHides(t)
    ensures RingHides(Apply(t, s))
  {
    match s
    case InsertSpots(spots) => InsertAllRing(t, spots);
    case MarkModerated(ids, now) => MarkAllFacts(t, ids, now);
    case _ =>
  }

  /** Over every interleaving of all workers' steps, an id in the ring never has a visible row. */
  lemma {:induction false} RingAlwaysHides(t: Tables, steps: seq<Step>)
    requires RingHides(t)
    ensures RingHides(Run(t, steps))
  {
    if steps != [] {
      RingAlwaysHides(t, steps[..|steps| - 1]);
      StepRingHides(Run(t, steps[..|steps| - 1]), steps[|steps| - 1]);
    }
  }

  /** Only a prune whose cutoff lies past the entry's stamp takes an id out of the ring. A second
      mark does not refresh the stamp. */
  lemma {:induction false} RingKeeps(t: Tables, steps: seq<Step>, m: MessageId)
    requires m in t.ring
    requires forall s | s in steps && s.PruneRing? :: s.cutoff <= t.ring[m]
    ensures m in Run(t, steps).ring && Run(t, steps).ring[m] == t.ring[m]
  {
    if steps != [] {
      var init, last := steps[..|steps| - 1], steps[|steps| - 1];
      RingKeeps(t, init, m);
      var u := Run(t, init);
      match last
      case InsertSpots(spots) => InsertAllKeepsRing(u, spots);
      case MarkModerated(ids, now) => MarkAllFacts(u, ids, now);
      case _ =>
    }
  }

  lemma {:induction false} InsertAllKeepsRing(t: Tables, ss: seq<Spot>)
    ensures InsertAll(t, ss).ring == t.ring
  {
    if ss != [] {
      InsertAllKeepsRing(t, ss[..|ss| - 1]);
    }
  }

  /** From a mark's commit on, no listing contains the spot, whatever runs in between, as long as
      no prune has reached the ring entry (whose stamp is the mark's, or an earlier one). */
  lemma MarkedStaysHidden(before: seq<Step>, ids: seq<MessageId>, now: int, after: seq<Step>, m: MessageId)
    requires m in ids
    requires var ring := Run(EMPTY, before + [MarkModerated(ids, now)]).ring;
      m in ring ==> forall s | s in after && s.PruneRing? :: s.cutoff <= ring[m]
    ensures m !in Visible(Run(EMPTY, before + [MarkModerated(ids, now)] + after))
  {
    var mark := MarkModerated(ids, now);
    var t := Run(EMPTY, before + [mark]);
    assert (before + [mark])[..|before|] == before;
    MarkAllFacts(Run(EMPTY, before), ids, now);
    assert m in t.ring;
    RunConcat(EMPTY, before + [mark], after);
    RingKeeps(t, after, m);
    RingAlwaysHides(EMPTY, before + [mark] + after);
  }
}
