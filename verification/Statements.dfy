/** What each statement does to a row, column by column. */
module Statements {
  import opened Store
  import opened StoreInvariants

  /** All columns but the owner's. */
  predicate SameButOwner(a: Row, b: Row) {
    && a.id == b.id && a.spot.messageId == b.spot.messageId && a.spot.articleNum == b.spot.articleNum
    && a.spot.text == b.spot.text && a.spot.postedAt == b.spot.postedAt && a.spot.size == b.spot.size
    && a.spot.nzbId == b.spot.nzbId && a.spot.imageUrl == b.spot.imageUrl && a.spot.moderated == b.spot.moderated
  }

  /** UPDATE of the enrichment: the row with that number gets the six columns, each its own value. */
  lemma EnrichmentSets(t: Tables, rowid: nat, description: string, imageUrl: string, nzbId: string, size: int,
                       owner: string, verified: bool, m: MessageId)
    requires m in t.spots
    ensures var u := Apply(t, UpdateEnrichment(rowid, description, imageUrl, nzbId, size, owner, verified));
      && u.spots.Keys == t.spots.Keys && u.ring == t.ring
      && (t.spots[m].id != rowid ==> u.spots[m] == t.spots[m])
      && (t.spots[m].id == rowid ==>
            var a, b := t.spots[m], u.spots[m];
            && b.spot.text.description == description && b.spot.imageUrl == imageUrl && b.spot.nzbId == nzbId
            && b.spot.size == size && b.spot.owner == owner && b.spot.verified == verified
            && b.id == a.id && b.spot.messageId == a.spot.messageId && b.spot.articleNum == a.spot.articleNum
            && b.spot.postedAt == a.spot.postedAt && b.spot.moderated == a.spot.moderated
            && b.spot.text.title == a.spot.text.title && b.spot.text.tag == a.spot.text.tag
            && b.spot.text.poster == a.spot.text.poster)
  {}

  /** UPDATE of the repaired text: title, tag and poster. */
  lemma RepairSets(t: Tables, rowid: nat, title: string, tag: string, poster: string, m: MessageId)
    requires m in t.spots
    ensures var u := Apply(t, RewriteText(rowid, title, tag, poster));
      && u.spots.Keys == t.spots.Keys && u.ring == t.ring
      && (t.spots[m].id != rowid ==> u.spots[m] == t.spots[m])
      && (t.spots[m].id == rowid ==>
            var a, b := t.spots[m], u.spots[m];
            && b.spot.text.title == title && b.spot.text.tag == tag && b.spot.text.poster == poster
            && b.spot.text.description == a.spot.text.description
            && b == a.(spot := a.spot.(text := b.spot.text)))
  {}

  lemma OwnerSets(t: Tables, id: MessageId, owner: string, verified: bool, m: MessageId)
    requires m in t.spots
    ensures var u := Apply(t, SetSpotOwner(id, owner, verified));
      && u.spots.Keys == t.spots.Keys && u.ring == t.ring && u.fts == t.fts
      && (m != id ==> u.spots[m] == t.spots[m])
      && (m == id ==> u.spots[m].spot.owner == owner && u.spots[m].spot.verified == verified)
      && SameButOwner(t.spots[m], u.spots[m])
  {}

  /** The mark: the flag of the rows there are, a ring entry for every id, an older stamp kept. */
  lemma MarkSets(t: Tables, ids: seq<MessageId>, now: int, m: MessageId)
    ensures var u := Apply(t, MarkModerated(ids, now));
      && u.spots.Keys == t.spots.Keys && u.fts == t.fts
      && (m in t.spots ==> u.spots[m].spot.moderated == (m in ids || t.spots[m].spot.moderated))
      && (m in t.spots ==> u.spots[m].id == t.spots[m].id)
      && (m in t.spots ==> u.spots[m].spot.(moderated := false) == t.spots[m].spot.(moderated := false))
      && (m in u.ring <==> m in t.ring || m in ids)
      && (m in u.ring ==> u.ring[m] == if m in t.ring then t.ring[m] else now)
  {
    MarkAllFacts(t, ids, now);
  }

  lemma DeleteTakes(t: Tables, ids: seq<MessageId>, m: MessageId)
    ensures var u := Apply(t, DeleteByMessageId(ids));
      && (m in u.spots <==> m in t.spots && m !in ids) && (m in u.spots ==> u.spots[m] == t.spots[m])
      && u.ring == t.ring
  {}

  /** One statement of the retention: of the rows posted before the cutoff those of the batch. */
  lemma OlderTakes(t: Tables, cutoff: int, batch: set<MessageId>, m: MessageId)
    ensures var u := Apply(t, DeleteOlder(cutoff, batch));
      && (m in u.spots <==> m in t.spots && !(m in batch && t.spots[m].spot.postedAt < cutoff))
      && (m in u.spots ==> u.spots[m] == t.spots[m]) && u.ring == t.ring
  {}

  lemma BySpotterTakes(t: Tables, owners: set<string>, m: MessageId)
    ensures var u := Apply(t, DeleteBySpotter(owners));
      && (m in u.spots <==> m in t.spots && t.spots[m].spot.owner !in owners)
      && (m in u.spots ==> u.spots[m] == t.spots[m]) && u.ring == t.ring
  {}

  /** Pruning: the entries stamped before the cutoff. */
  lemma PruneTakes(t: Tables, cutoff: int, m: MessageId)
    ensures var u := Apply(t, PruneRing(cutoff));
      && u.spots == t.spots && u.fts == t.fts
      && (m in u.ring <==> m in t.ring && !(t.ring[m] < cutoff)) && (m in u.ring ==> u.ring[m] == t.ring[m])
  {}

  /** INSERT OR IGNORE: a spot whose id is in neither table gets a row with a new number and its own columns. */
  lemma InsertSets(t: Tables, s: Spot, m: MessageId)
    ensures var u := InsertAll(t, [s]);
      && u.ring == t.ring
      && (m in u.spots <==> m in t.spots || (m == s.messageId && m !in t.ring))
      && (m in t.spots ==> u.spots[m] == t.spots[m])
      && (m in u.spots && m !in t.spots ==> u.spots[m].spot == s && u.spots[m].id == t.nextId && u.nextId > t.nextId)
  {
    assert [s][..0] == [];
  }

  /** The full-text index covers title, description, poster and tag, under the row's number. */
  lemma PostingTells(a: Row, b: Row)
    ensures PostingOf(a) == PostingOf(b) <==>
      && a.id == b.id && a.spot.text.title == b.spot.text.title && a.spot.text.tag == b.spot.text.tag
      && a.spot.text.poster == b.spot.text.poster && a.spot.text.description == b.spot.text.description
  {}

  /** DELETE statements name at most 400 ids each. */
  lemma {:induction false} BatchesAreSmall(ids: seq<MessageId>)
    ensures forall s <- Batches(ids) :: s.DeleteByMessageId? && 0 < |s.ids| <= 400
    ensures |Batches(ids)| == (|ids| + 399) / 400
    decreases |ids|
  {
    if |ids| > ID_BATCH { BatchesAreSmall(ids[ID_BATCH..]); }
  }
}
