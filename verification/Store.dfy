/** The tables that the sync workers share: `spots` with its full-text index, and `moderated_ring`.
    A table is a map, and every SQL statement or transaction is one `Step`: a pure function on
    `Tables`. `Database` holds the same tables in fields and changes them the way the Go code and
    the SQL triggers do; each method is proved to perform exactly its step. */
module Store {

  datatype MessageId = Id(name: string)

  /** The four columns the full-text index covers. */
  datatype Text = Text(title: string, description: string, poster: string, tag: string)

  datatype Spot = Spot(
    messageId: MessageId,
    articleNum: int,
    text: Text,
    postedAt: int,
    nzbId: string,
    imageUrl: string,
    size: int,
    owner: string,      // spotter id; "" until the full headers have been read
    verified: bool,
    moderated: bool)

  datatype Row = Row(id: nat, spot: Spot)

  /** One document of the full-text index. The index is a multiset because its 'delete' command
      subtracts the values it is given; handing it stale values would leave the old document in. */
  datatype Posting = Posting(rowid: nat, text: Text)

  datatype Tables = Tables(
    spots: map<MessageId, Row>,   // UNIQUE(message_id)
    nextId: nat,                  // AUTOINCREMENT
    ring: map<MessageId, int>,    // message-id to stamp
    fts: multiset<Posting>)

  function PostingOf(row: Row): Posting {
    Posting(row.id, row.spot.text)
  }

  function Docs(spots: map<MessageId, Row>): set<Posting> {
    set m | m in spots :: PostingOf(spots[m])
  }

  /** The index as a rebuild from the current rows would produce it. */
  function Rebuilt(spots: map<MessageId, Row>): multiset<Posting> {
    multiset(Docs(spots))
  }

  function Pick(spots: map<MessageId, Row>, ms: set<MessageId>): map<MessageId, Row> {
    map m | m in spots && m in ms :: spots[m]
  }

  /** What SearchSpots can list: every query carries `moderated = 0`. */
  function Visible(t: Tables): map<MessageId, Row> {
    map m | m in t.spots && !t.spots[m].spot.moderated :: t.spots[m]
  }

  function ModeratedIds(t: Tables): set<MessageId> {
    set m | m in t.spots && t.spots[m].spot.moderated
  }

  // ------------------------------------------------------------------ steps

  datatype Step =
    | InsertSpots(spots: seq<Spot>)
    | MarkModerated(ids: seq<MessageId>, now: int)
    | DeleteByMessageId(ids: seq<MessageId>)
    | SetSpotOwner(id: MessageId, owner: string, verified: bool)
    | UpdateEnrichment(rowid: nat, description: string, imageUrl: string, nzbId: string, size: int,
                       owner: string, verified: bool)
    | RewriteText(rowid: nat, title: string, tag: string, poster: string)
    | DeleteOlder(cutoff: int, batch: set<MessageId>)
    | DeleteBySpotter(owners: set<string>)
    | PruneRing(cutoff: int)

  /** INSERT OR IGNORE ... WHERE NOT EXISTS (... moderated_ring ...), then the insert trigger. */
  function InsertOne(t: Tables, s: Spot): Tables {
    if s.messageId in t.ring || s.messageId in t.spots then t
    else
      var row := Row(t.nextId, s);
      Tables(t.spots[s.messageId := row], t.nextId + 1, t.ring, t.fts + multiset{PostingOf(row)})
  }

  function InsertAll(t: Tables, ss: seq<Spot>): Tables {
    if ss == [] then t else InsertOne(InsertAll(t, ss[..|ss| - 1]), ss[|ss| - 1])
  }

  function Marked(row: Row): Row {
    row.(spot := row.spot.(moderated := true))
  }

  /** INSERT OR IGNORE into the ring (an older stamp stays), then UPDATE moderated. No trigger:
      `moderated` is not an indexed column. */
  function MarkOne(t: Tables, id: MessageId, now: int): Tables {
    t.(ring := if id in t.ring then t.ring else t.ring[id := now],
       spots := if id in t.spots then t.spots[id := Marked(t.spots[id])] else t.spots)
  }

  function MarkAll(t: Tables, ids: seq<MessageId>, now: int): Tables {
    if ids == [] then t else MarkOne(MarkAll(t, ids[..|ids| - 1], now), ids[|ids| - 1], now)
  }

  /** DELETE of a set of rows; the delete trigger subtracts each row's document. */
  function Without(t: Tables, victims: set<MessageId>): Tables {
    t.(spots := t.spots - victims, fts := t.fts - Rebuilt(Pick(t.spots, victims)))
  }

  function Owned(row: Row, owner: string, verified: bool): Row {
    row.(spot := row.spot.(owner := owner, verified := verified))
  }

  function Enriched(row: Row, s: Step): Row
    requires s.UpdateEnrichment?
  {
    row.(spot := row.spot.(text := row.spot.text.(description := s.description), imageUrl := s.imageUrl,
                           nzbId := s.nzbId, size := s.size, owner := s.owner, verified := s.verified))
  }

  function Rewritten(row: Row, s: Step): Row
    requires s.RewriteText?
  {
    row.(spot := row.spot.(text := row.spot.text.(title := s.title, tag := s.tag, poster := s.poster)))
  }

  function WithId(t: Tables, rowid: nat): set<MessageId> {
    set m | m in t.spots && t.spots[m].id == rowid
  }

  function Enrichment(t: Tables, s: Step): map<MessageId, Row>
    requires s.UpdateEnrichment?
  {
    map m | m in WithId(t, s.rowid) :: Enriched(t.spots[m], s)
  }

  function Repair(t: Tables, s: Step): map<MessageId, Row>
    requires s.RewriteText?
  {
    map m | m in WithId(t, s.rowid) :: Rewritten(t.spots[m], s)
  }

  function Older(t: Tables, cutoff: int): set<MessageId> {
    set m | m in t.spots && t.spots[m].spot.postedAt < cutoff
  }

  function OwnedBy(t: Tables, owners: set<string>): set<MessageId> {
    set m | m in t.spots && t.spots[m].spot.owner in owners
  }

  /** UPDATE of an indexed column, `edited` being the rows as they are after it: the update trigger
      subtracts the old documents and adds the new ones. */
  function Updated(t: Tables, edited: map<MessageId, Row>): Tables {
    t.(spots := t.spots + edited,
       fts := t.fts - Rebuilt(Pick(t.spots, edited.Keys)) + Rebuilt(edited))
  }

  function Apply(t: Tables, s: Step): Tables {
    match s
    case InsertSpots(spots) => InsertAll(t, spots)
    case MarkModerated(ids, now) => MarkAll(t, ids, now)
    case DeleteByMessageId(ids) => Without(t, set m | m in ids)
    case SetSpotOwner(id, owner, verified) =>
      if id in t.spots then t.(spots := t.spots[id := Owned(t.spots[id], owner, verified)]) else t
    case UpdateEnrichment(rowid, _, _, _, _, _, _) =>
      Updated(t, Enrichment(t, s))
    case RewriteText(rowid, _, _, _) =>
      Updated(t, Repair(t, s))
    case DeleteOlder(cutoff, batch) =>
      Without(t, Older(t, cutoff) * batch)
    case DeleteBySpotter(owners) =>
      Without(t, OwnedBy(t, owners))
    case PruneRing(cutoff) =>
      t.(ring := map m | m in t.ring && t.ring[m] >= cutoff :: t.ring[m])
  }

  const ID_BATCH := 400

  /** DeleteSpotsByMessageID: one DELETE statement per 400 ids. */
  function Batches(ids: seq<MessageId>): seq<Step> {
    if ids == [] then []
    else if |ids| <= ID_BATCH then [DeleteByMessageId(ids)]
    else [DeleteByMessageId(ids[..ID_BATCH])] + Batches(ids[ID_BATCH..])
  }

  /** Any interleaving of the workers is one sequence of steps. */
  function Run(t: Tables, steps: seq<Step>): Tables {
    if steps == [] then t else Apply(Run(t, steps[..|steps| - 1]), steps[|steps| - 1])
  }

  lemma RunOne(t: Tables, s: Step)
    ensures Run(t, [s]) == Apply(t, s)
  {
    assert [s][..0] == [];
  }

  lemma {:induction false} RunConcat(t: Tables, a: seq<Step>, b: seq<Step>)
    ensures Run(t, a + b) == Run(Run(t, a), b)
    decreases |b|
  {
    if b == [] {
      assert a + b == a;
    } else {
      assert (a + b)[..|a + b| - 1] == a + b[..|b| - 1];
      RunConcat(t, a, b[..|b| - 1]);
    }
  }

  // ------------------------------------------------------ the two invariants

  ghost predicate DistinctIds(spots: map<MessageId, Row>) {
    forall m, n | m in spots && n in spots && spots[m].id == spots[n].id :: m == n
  }

  /** Row ids are fresh and distinct, every row sits under its own message-id, and the full-text
      index is the one a rebuild would give. */
  ghost predicate WellFormed(t: Tables) {
    && (forall m <- t.spots :: t.spots[m].id < t.nextId && t.spots[m].spot.messageId == m)
    && DistinctIds(t.spots)
    && t.fts == Rebuilt(t.spots)
  }

  /** A message-id in the ring has no visible row. */
  ghost predicate RingHides(t: Tables) {
    forall m | m in t.ring && m in t.spots :: t.spots[m].spot.moderated
  }

  const EMPTY := Tables(map[], 0, map[], multiset{})
}
