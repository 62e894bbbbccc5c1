/** The forward sync (internal/sync/syncer.go): passes over the newest articles, chunk by chunk, each
    chunk inserted, then its withdrawals applied, then the watermark moved. Passes fail, crash and
    restart anywhere; the sweep and the backfill work on the same tables between the chunks. */
module ForwardSync {
  import opened Store
  import opened StoreInvariants
  import opened Databases
  import opened Moderation
  import opened ApplyingModeration
  import opened Chunk
  import opened Server
  import opened SyncStates
  import opened Orders

  /** The newsgroup, what the headers of its articles say, and the configuration. */
  datatype World = World(group: Group, answers: MessageId -> Answer, mode: Mode, verifySignatures: bool, lookback: nat)

  /** A pass under way: the next chunk starts at `next`; the server announced `last`. */
  datatype Pass = Idle | At(next: int, last: int)

  /** `start` is where the pass that set the first watermark began. */
  datatype State = State(tables: Tables, watermark: int, start: int, pass: Pass)

  datatype Event =
    | StartPass(first: int, last: int)
    | ReadChunk(drops: nat -> bool, now: int, stored: bool, saved: bool)
    | Crash(drops: nat -> bool, now: int, stored: bool, steps: nat)
    | StopPass     // a lost connection, a failed overview, a cancelled context
    | SweepPart(lo: int, hi: int, drops: nat -> bool, now: int, steps: nat)
    | BackfillChunk(lo: int, hi: int)

  const FRESH := State(EMPTY, 0, 0, Idle)

  /** With moderation off withdrawals are only dropped; otherwise the verified ones are collected. */
  function Disposes(lines: seq<Line>, mode: Mode): seq<Command> {
    if lines == [] then []
    else
      var last := lines[|lines| - 1].article;
      Disposes(lines[..|lines| - 1], mode)
        + if last.Withdrawal? && mode != Off && last.cmd.verified then [last.cmd] else []
  }

  /** Exactly the verified withdrawals, in order, unless moderation is off. */
  lemma {:induction false} DisposesAre(lines: seq<Line>, mode: Mode)
    ensures InOrder(Disposes(lines, mode),
              map i | 0 <= i < |lines| && lines[i].article.Withdrawal? && lines[i].article.cmd.verified
                && mode != Off :: lines[i].article.cmd)
  {
    hide InOrder;
    var f := map i | 0 <= i < |lines| && lines[i].article.Withdrawal? && lines[i].article.cmd.verified
      && mode != Off :: lines[i].article.cmd;
    if lines == [] {
      NothingInOrder(f);
    } else {
      var init, n, a := lines[..|lines| - 1], |lines| - 1, lines[|lines| - 1].article;
      var g := map i | 0 <= i < |init| && init[i].article.Withdrawal? && init[i].article.cmd.verified
        && mode != Off :: init[i].article.cmd;
      DisposesAre(init, mode);
      if a.Withdrawal? && a.cmd.verified && mode != Off {
        assert f == g[n := a.cmd];
        OneMoreInOrder(Disposes(init, mode), g, n, a.cmd, f);
      } else {
        assert f == g;
        assert Disposes(lines, mode) == Disposes(init, mode);
      }
    }
  }

  function PassFrom(w: World, watermark: int, first: int, last: int): int {
    if watermark != 0 then watermark + 1
    else if last - w.lookback < first then first else last - w.lookback
  }

  /** What a pass sets out to read: on the first run the group's articles back to `lookback` before the last,
      afterwards those above the watermark. */
  lemma PassReads(w: World, st: State, first: int, last: int, n: int)
    ensures var u := Begun(w, st, first, last);
      (u.pass.At? && u.pass.next <= n <= u.pass.last) <==>
        (n <= last && if st.watermark != 0 then n > st.watermark else n >= first && n >= last - w.lookback)
    ensures PassFrom(w, st.watermark, first, last) <= n <==>
      (if st.watermark != 0 then n > st.watermark else n >= first && n >= last - w.lookback)
    ensures st.watermark == 0 && Begun(w, st, first, last).pass.At? ==>
      Begun(w, st, first, last).start == if last - w.lookback < first then first else last - w.lookback
  {}

  /** One chunk: from where the pass stands, 5000 article numbers or what is left. */
  lemma ChunkReads(pass: Pass, n: int)
    requires pass.At? && pass.next <= pass.last
    ensures pass.next <= n <= ChunkTo(pass.next, pass.last) <==> pass.next <= n <= pass.last && n < pass.next + 5000
  {}

  function ChunkTo(next: int, last: int): int {
    if next + CHUNK_SIZE - 1 > last then last else next + CHUNK_SIZE - 1
  }

  function Lines(w: World, pass: Pass): seq<Line>
    requires pass.At?
  {
    Overview(w.group, pass.next, ChunkTo(pass.next, pass.last))
  }

  /** The chunk's accepted spots, or none when the insert fails: that is only logged. */
  function Stored(w: World, pass: Pass, stored: bool): seq<Spot>
    requires pass.At?
  {
    if stored then Posts(Lines(w, pass), w.verifySignatures) else []
  }

  function Writes(w: World, t: Tables, pass: Pass, drops: nat -> bool, now: int, stored: bool): seq<Step>
    requires pass.At?
  {
    ChunkSteps(t, Stored(w, pass, stored), Disposes(Lines(w, pass), w.mode), Head(w.answers, drops), w.mode, now)
  }

  /** Did an owner lookup of the chunk fail? */
  predicate LookupFails(w: World, t: Tables, pass: Pass, drops: nat -> bool, stored: bool)
    requires pass.At?
  {
    w.mode != Off
      && ScanAll(InsertAll(t, Stored(w, pass, stored)), Disposes(Lines(w, pass), w.mode), Head(w.answers, drops)).failed
  }

  function Begun(w: World, st: State, first: int, last: int): State {
    var from := PassFrom(w, st.watermark, first, last);
    if from > last then st.(pass := Idle)
    else st.(start := if st.watermark == 0 then from else st.start, pass := At(from, last))
  }

  function Advanced(w: World, st: State, tables: Tables, saved: bool): State
    requires st.pass.At?
  {
    var lines, next := Lines(w, st.pass), st.pass.next + CHUNK_SIZE;
    State(tables, if lines != [] && saved then lines[|lines| - 1].num else st.watermark, st.start,
          if next > st.pass.last then Idle else At(next, st.pass.last))
  }

  function Sync(w: World, st: State, e: Event): State {
    match e
    case StartPass(first, last) => Begun(w, st, first, last)
    case ReadChunk(drops, now, stored, saved) =>
      if st.pass.Idle? then st
      else
        var tables := Run(st.tables, Writes(w, st.tables, st.pass, drops, now, stored));
        if LookupFails(w, st.tables, st.pass, drops, stored) then st.(tables := tables, pass := Idle)
        else Advanced(w, st, tables, saved)
    case Crash(drops, now, stored, steps) =>
      if st.pass.Idle? then st
      else
        st.(tables := Run(st.tables, Prefix(Writes(w, st.tables, st.pass, drops, now, stored), steps)), pass := Idle)
    case StopPass => st.(pass := Idle)
    case SweepPart(lo, hi, drops, now, steps) =>
      var cmds := Commands(Overview(w.group, lo, hi));
      st.(tables := Run(st.tables, Prefix(PassSteps(st.tables, cmds, Head(w.answers, drops), w.mode, now), steps)))
    case BackfillChunk(lo, hi) =>
      // the backfill walks down from the oldest article held
      if hi >= st.start then st
      else st.(tables := InsertAll(st.tables, Posts(Overview(w.group, lo, hi), w.verifySignatures)))
  }

  function SyncAll(w: World, st: State, es: seq<Event>): State {
    if es == [] then st else Sync(w, SyncAll(w, st, es[..|es| - 1]), es[|es| - 1])
  }

  // ------------------------------------------------ what the articles say

  /** Article numbers start at 1, message-ids are unique, overview lines carry no owner. */
  ghost predicate Proper(w: World) {
    && (forall n <- w.group :: n >= 1)
    && (forall n <- w.group | w.group[n].Post? :: w.group[n].spot.owner == "" && !w.group[n].spot.moderated)
    && (forall m, n | m in w.group && n in w.group && w.group[m].Post? && w.group[n].Post?
          && w.group[m].spot.messageId == w.group[n].spot.messageId :: m == n)
  }

  ghost predicate PostedAs(w: World, n: int, id: MessageId) {
    n in w.group && Accepted(w.group[n], w.verifySignatures) && w.group[n].spot.messageId == id
  }

  ghost predicate Known(w: World, id: MessageId) {
    exists n :: PostedAs(w, n, id)
  }

  ghost function SpotOf(w: World, id: MessageId): Spot
    requires Known(w, id)
  {
    var n :| PostedAs(w, n, id);
    w.group[n].spot
  }

  lemma SpotOfArticle(w: World, n: int)
    requires Proper(w) && n in w.group && Accepted(w.group[n], w.verifySignatures)
    ensures var id := w.group[n].spot.messageId; Known(w, id) && SpotOf(w, id) == w.group[n].spot
  {
    assert PostedAs(w, n, w.group[n].spot.messageId);
  }

  /** Article `b` is a withdrawal that may withdraw the spot: the moderator's, or in the window and
      signed with the key in the spot's headers. */
  ghost predicate WithdrawnBy(w: World, b: int, id: MessageId)
    requires Known(w, id)
  {
    && b in w.group && w.group[b].Withdrawal? && w.group[b].cmd.target == id
    && Entitles(w.group[b].cmd, Row(0, SpotOf(w, id)), w.answers(id))
  }

  ghost predicate Withdrawn(w: World, id: MessageId) {
    Known(w, id) && w.mode != Off && exists b :: WithdrawnBy(w, b, id)
  }

  // -------------------------------------------------------------- invariants

  predicate Agrees(row: Row, s: Spot, a: Answer) {
    row.spot.postedAt == s.postedAt && OwnerOf(row, a) == OwnerOf(Row(0, s), a)
  }

  predicate Hidden(t: Tables, id: MessageId) {
    id in t.ring || (id in t.spots && t.spots[id].spot.moderated)
  }

  predicate Listed(t: Tables, id: MessageId) {
    id in t.spots && !t.spots[id].spot.moderated
  }

  /** Every row is some article's, and only withdrawn spots are hidden. */
  ghost predicate Sound(w: World, t: Tables) {
    && (forall id <- t.spots :: Known(w, id) && Agrees(t.spots[id], SpotOf(w, id), w.answers(id)))
    && (forall id | Hidden(t, id) :: Withdrawn(w, id))
  }

  /** The articles of [lo, hi] are done: accepted spots are stored, or withdrawn; a spot whose
      withdrawal followed in the range is not listed. */
  ghost predicate Done(w: World, t: Tables, lo: int, hi: int) {
    && (forall n, id | lo <= n <= hi && PostedAs(w, n, id) :: id in t.spots || Withdrawn(w, id))
    && (forall n, b, id | lo <= n <= b <= hi && PostedAs(w, n, id) && WithdrawnBy(w, b, id) && w.mode != Off ::
          !Listed(t, id))
  }

  function DoneTo(st: State): int {
    if st.pass.At? then st.pass.next - 1 else st.watermark
  }

  /** Where the pass stands. */
  predicate Cursor(st: State) {
    && st.watermark >= 0
    && (st.pass.At? ==> (st.watermark == 0 || st.watermark < st.pass.next) && st.pass.next <= st.pass.last)
  }

  ghost predicate Inv(w: World, st: State) {
    Sound(w, st.tables) && Done(w, st.tables, st.start, DoneTo(st)) && Cursor(st)
  }

  // ------------------------------------------------------------ preservation

  /** `y` shows no more than `x`, and lost only withdrawn spots. */
  ghost predicate Fewer(w: World, x: Tables, y: Tables) {
    && (forall id | Listed(y, id) :: Listed(x, id))
    && (forall id <- x.spots :: id in y.spots || Withdrawn(w, id))
  }

  lemma FewerKeepsDone(w: World, x: Tables, y: Tables, lo: int, hi: int)
    requires Fewer(w, x, y) && Done(w, x, lo, hi)
    ensures Done(w, y, lo, hi)
  {}

  ghost predicate OfGroup(w: World, cmds: seq<Command>) {
    forall c <- cmds :: exists b <- w.group :: w.group[b] == Withdrawal(c)
  }

  lemma EntitledIsWithdrawn(w: World, x: Tables, cmds: seq<Command>, head: Head, id: MessageId)
    requires Proper(w) && Sound(w, x) && OfGroup(w, cmds) && w.mode != Off
    requires Entitled(x, cmds, head, id) && AnswerFor(head, id) == w.answers(id)
    ensures Withdrawn(w, id)
  {
    var c :| c in cmds && c.target == id && Entitles(c, x.spots[id], w.answers(id));
    var b :| b in w.group && w.group[b] == Withdrawal(c);
    var n :| PostedAs(w, n, id);
    SpotOfArticle(w, n);
    assert WithdrawnBy(w, b, id);
  }

  lemma GoalIsWithdrawn(w: World, x: Tables, cmds: seq<Command>)
    requires Proper(w) && Sound(w, x) && OfGroup(w, cmds) && w.mode != Off
    ensures forall id <- Targets(x, cmds, Steady(w.answers)) :: Withdrawn(w, id)
  {
    var head := Steady(w.answers);
    forall id <- Targets(x, cmds, head) ensures Withdrawn(w, id) {
      assert AnswerFor(head, id) == w.answers(id);
      EntitledIsWithdrawn(w, x, cmds, head, id);
    }
  }

  /** Rows as any prefix of a pass leaves them. */
  ghost predicate Rows(x: Tables, y: Tables, goal: set<MessageId>, answers: MessageId -> Answer) {
    && x.spots.Keys - goal <= y.spots.Keys <= x.spots.Keys
    && y.ring.Keys <= x.ring.Keys + goal
    && forall id <- y.spots ::
         && y.spots[id].spot.postedAt == x.spots[id].spot.postedAt
         && OwnerOf(y.spots[id], answers(id)) == OwnerOf(x.spots[id], answers(id))
         && (x.spots[id].spot.moderated ==> y.spots[id].spot.moderated)
         && (y.spots[id].spot.moderated ==> x.spots[id].spot.moderated || id in goal)
  }

  lemma RowsAreSound(w: World, x: Tables, y: Tables, goal: set<MessageId>)
    requires Sound(w, x) && Rows(x, y, goal, w.answers) && forall id <- goal :: Withdrawn(w, id)
    ensures Sound(w, y) && Fewer(w, x, y)
  {
    hide Withdrawn;
  }

  lemma PassPrefixRows(x: Tables, cmds: seq<Command>, answers: MessageId -> Answer, drops: nat -> bool, mode: Mode,
      now: int, k: nat)
    requires mode != Off
    ensures Rows(x, Run(x, Prefix(PassSteps(x, cmds, Head(answers, drops), mode, now), k)),
        Targets(x, cmds, Steady(answers)), answers)
  {
    hide PassSteps;
    var head := Steady(answers);
    var y := Run(x, Prefix(PassSteps(x, cmds, Head(answers, drops), mode, now), k));
    PartialItself(x, cmds, head, mode);
    PassPrefixKeepsPartial(x, x, cmds, cmds, answers, drops, mode, now, k);
    forall id <- y.spots
      ensures y.spots[id].spot.postedAt == x.spots[id].spot.postedAt
      ensures OwnerOf(y.spots[id], answers(id)) == OwnerOf(x.spots[id], answers(id))
      ensures x.spots[id].spot.moderated ==> y.spots[id].spot.moderated
      ensures y.spots[id].spot.moderated ==> x.spots[id].spot.moderated || id in Targets(x, cmds, head)
    {
      assert AnswerFor(head, id) == answers(id);
      PassPrefixRow(x, cmds, answers, drops, mode, now, k, id);
    }
  }

  /** Any prefix of applying withdrawals of the group. */
  lemma PassPart(w: World, x: Tables, cmds: seq<Command>, drops: nat -> bool, now: int, k: nat)
    requires Proper(w) && Sound(w, x) && OfGroup(w, cmds)
    ensures var y := Run(x, Prefix(PassSteps(x, cmds, Head(w.answers, drops), w.mode, now), k));
      Sound(w, y) && Fewer(w, x, y)
  {
    hide Sound;
    if w.mode != Off {
      PassPrefixRows(x, cmds, w.answers, drops, w.mode, now, k);
      GoalIsWithdrawn(w, x, cmds);
      RowsAreSound(w, x, Run(x, Prefix(PassSteps(x, cmds, Head(w.answers, drops), w.mode, now), k)),
                   Targets(x, cmds, Steady(w.answers)));
    } else {
      assert PassSteps(x, cmds, Head(w.answers, drops), w.mode, now) == [];
    }
  }

  /** A whole pass without a failed lookup withdraws what its commands may withdraw. */
  lemma PassWhole(w: World, x: Tables, cmds: seq<Command>, drops: nat -> bool, now: int, c: Command)
    requires Proper(w) && Sound(w, x) && w.mode != Off
    requires !ScanAll(x, cmds, Head(w.answers, drops)).failed
    requires c in cmds && Known(w, c.target) && Entitles(c, Row(0, SpotOf(w, c.target)), w.answers(c.target))
    ensures !Listed(Run(x, PassSteps(x, cmds, Head(w.answers, drops), w.mode, now)), c.target)
  {
    var head := Head(w.answers, drops);
    var id := c.target;
    PassFacts(x, cmds, head, w.mode, now);
    ScanKeeps(x, cmds, head);
    QueuesExactlyTheTargets(x, cmds, head);
    hide ScanAll, Run, PassSteps, Proper, NeedsLookup, Distinct;
    if id in x.spots {
      assert Learned(x.spots[id], ScanAll(x, cmds, head).tables.spots[id], AnswerFor(head, id));
      if !x.spots[id].spot.moderated {
        assert Entitles(c, x.spots[id], w.answers(id));
        assert Entitled(x, cmds, head, id);
        assert id in SetOf(ScanAll(x, cmds, head).targets);
      }
    }
  }

  /** Accepted spots of articles in [lo, hi]. */
  ghost predicate OfferedIn(w: World, spots: seq<Spot>, lo: int, hi: int) {
    forall s: Spot :: s in spots ==> exists n :: lo <= n <= hi && PostedAs(w, n, s.messageId) && w.group[n].spot == s
  }

  /** ... and all of them. */
  ghost predicate OffersAll(w: World, spots: seq<Spot>, lo: int, hi: int) {
    forall n, id | lo <= n <= hi && PostedAs(w, n, id) :: w.group[n].spot in spots
  }

  lemma PostsOffered(w: World, lo: int, hi: int)
    ensures var spots := Posts(Overview(w.group, lo, hi), w.verifySignatures);
      OfferedIn(w, spots, lo, hi) && OffersAll(w, spots, lo, hi)
  {
    var lines := Overview(w.group, lo, hi);
    OverviewHas(w.group, lo, hi);
    PostsHas(lines, w.verifySignatures);
    forall n, id | lo <= n <= hi && PostedAs(w, n, id)
      ensures exists l <- lines :: Accepted(l.article, w.verifySignatures) && l.article.spot == w.group[n].spot
    {
      assert Line(n, w.group[n]) in lines;
    }
  }

  lemma StoredOffered(w: World, pass: Pass, stored: bool)
    requires pass.At?
    ensures var from, till := pass.next, ChunkTo(pass.next, pass.last);
      OfferedIn(w, Stored(w, pass, stored), from, till)
          && (stored ==> OffersAll(w, Stored(w, pass, stored), from, till))
  {
    PostsOffered(w, pass.next, ChunkTo(pass.next, pass.last));
  }

  lemma NewRow(w: World, t: Tables, spots: seq<Spot>, from: int, till: int, id: MessageId)
    requires Proper(w) && OfferedIn(w, spots, from, till)
    requires id in InsertAll(t, spots).spots && id !in t.spots
    ensures var row := InsertAll(t, spots).spots[id];
      Known(w, id) && row.spot == SpotOf(w, id) && !row.spot.moderated && id !in t.ring
    ensures forall n :: PostedAs(w, n, id) ==> from <= n <= till
  {
    InsertAllRows(t, spots);
    FirstIsOffered(spots, id);
    var n :| from <= n <= till && PostedAs(w, n, id) && First(spots, id) == w.group[n].spot;
    SpotOfArticle(w, n);
  }

  lemma InsertIsSound(w: World, t: Tables, spots: seq<Spot>, from: int, till: int)
    requires Proper(w) && Sound(w, t) && OfferedIn(w, spots, from, till)
    ensures Sound(w, InsertAll(t, spots))
  {
    var x := InsertAll(t, spots);
    InsertAllRows(t, spots);
    forall id <- x.spots
      ensures Known(w, id) && Agrees(x.spots[id], SpotOf(w, id), w.answers(id))
      ensures Hidden(x, id) ==> Hidden(t, id)
    {
      if id !in t.spots {
        NewRow(w, t, spots, from, till, id);
      }
    }
  }

  /** Inserting the posts of a range that lies above, or below, what is done. */
  lemma InsertKeepsDone(w: World, t: Tables, spots: seq<Spot>, from: int, till: int, lo: int, hi: int)
    requires Proper(w) && OfferedIn(w, spots, from, till)
    requires till < lo || hi < from
    requires Done(w, t, lo, hi)
    ensures Done(w, InsertAll(t, spots), lo, hi)
  {
    var x := InsertAll(t, spots);
    InsertAllRows(t, spots);
    forall id | id in x.spots && id !in t.spots
      ensures forall n :: lo <= n <= hi ==> !PostedAs(w, n, id)
    {
      NewRow(w, t, spots, from, till, id);
    }
  }

  lemma InsertStores(w: World, t: Tables, spots: seq<Spot>, from: int, till: int)
    requires Sound(w, t) && OffersAll(w, spots, from, till)
    ensures forall n, id | from <= n <= till && PostedAs(w, n, id) ::
      id in InsertAll(t, spots).spots || Withdrawn(w, id)
  {
    InsertAllRows(t, spots);
    forall n, id | from <= n <= till && PostedAs(w, n, id) ensures id in InsertAll(t, spots).spots || Withdrawn(w, id) {
      assert w.group[n].spot in spots;
      assert Hidden(t, id) ==> Withdrawn(w, id);
    }
  }

  // --------------------------------------------------------------- the chunk

  lemma {:induction false} DisposesHas(lines: seq<Line>, mode: Mode)
    ensures forall c :: c in Disposes(lines, mode) <==>
      mode != Off && c.verified && exists l <- lines :: l.article == Withdrawal(c)
  {
    if lines != [] {
      var init, last := lines[..|lines| - 1], lines[|lines| - 1];
      DisposesHas(init, mode);
      assert forall l :: l in lines <==> l in init || l == last;
    }
  }

  lemma DisposesOfRange(w: World, lo: int, hi: int)
    ensures var cmds := Disposes(Overview(w.group, lo, hi), w.mode);
      && OfGroup(w, cmds)
      && (forall n | lo <= n <= hi && n in w.group && w.group[n].Withdrawal? && w.group[n].cmd.verified
          && w.mode != Off ::
            w.group[n].cmd in cmds)
  {
    var lines := Overview(w.group, lo, hi);
    OverviewHas(w.group, lo, hi);
    DisposesHas(lines, w.mode);
    forall n | lo <= n <= hi && n in w.group && w.group[n].Withdrawal?
      ensures exists l <- lines :: l.article == Withdrawal(w.group[n].cmd)
    {
      assert Line(n, w.group[n]) in lines;
    }
  }

  lemma CommandsOfRange(w: World, lo: int, hi: int)
    ensures OfGroup(w, Commands(Overview(w.group, lo, hi)))
  {
    OverviewHas(w.group, lo, hi);
    CommandsHas(Overview(w.group, lo, hi));
  }

  /** Any prefix of a chunk's writes leaves what was done as it is. */
  lemma ChunkPart(w: World, t: Tables, pass: Pass, drops: nat -> bool, now: int, stored: bool, k: nat, lo: int)
    requires Proper(w) && pass.At? && Sound(w, t) && Done(w, t, lo, pass.next - 1)
    ensures var y := Run(t, Prefix(Writes(w, t, pass, drops, now, stored), k));
      Sound(w, y) && Done(w, y, lo, pass.next - 1)
  {
    hide Sound, Done, Fewer, Run, ChunkSteps, PassSteps, InsertAll, Stored, Disposes;
    hide Overview, OfGroup, OfferedIn, Proper;
    var from, till := pass.next, ChunkTo(pass.next, pass.last);
    var spots, cmds := Stored(w, pass, stored), Disposes(Lines(w, pass), w.mode);
    var x := InsertAll(t, spots);
    ChunkRun(t, spots, cmds, Head(w.answers, drops), w.mode, now, k);
    if k > 0 {
      StoredOffered(w, pass, stored);
      DisposesOfRange(w, from, till);
      InsertIsSound(w, t, spots, from, till);
      InsertKeepsDone(w, t, spots, from, till, lo, from - 1);
      PassPart(w, x, cmds, drops, now, k - 1);
      FewerKeepsDone(w, x, Run(x, Prefix(PassSteps(x, cmds, Head(w.answers, drops), w.mode, now), k - 1)), lo,
          from - 1);
    }
  }

  lemma ChunkWhole(w: World, t: Tables, pass: Pass, drops: nat -> bool, now: int, stored: bool)
    requires pass.At?
    ensures var x := InsertAll(t, Stored(w, pass, stored));
      var cmds := Disposes(Lines(w, pass), w.mode);
      && Run(t, Writes(w, t, pass, drops, now, stored))
          == Run(x, PassSteps(x, cmds, Head(w.answers, drops), w.mode, now))
      && (LookupFails(w, t, pass, drops, stored) <==> w.mode != Off && ScanAll(x, cmds, Head(w.answers, drops)).failed)
  {
    var spots, cmds := Stored(w, pass, stored), Disposes(Lines(w, pass), w.mode);
    var writes := Writes(w, t, pass, drops, now, stored);
    hide Stored, Disposes, Lines;
    ChunkRun(t, spots, cmds, Head(w.answers, drops), w.mode, now, |writes|);
    assert Prefix(writes, |writes|) == writes;
    assert Prefix(writes[1..], |writes| - 1) == writes[1..];
  }

  /** All writes of a chunk, inserts included, and no lookup failed: the chunk is done. */
  lemma ChunkDone(w: World, t: Tables, pass: Pass, drops: nat -> bool, now: int, lo: int)
    requires Proper(w) && pass.At? && Sound(w, t) && Done(w, t, lo, pass.next - 1)
    requires !LookupFails(w, t, pass, drops, true)
    ensures var y := Run(t, Writes(w, t, pass, drops, now, true));
      Sound(w, y) && Done(w, y, lo, ChunkTo(pass.next, pass.last))
  {
    var from, till := pass.next, ChunkTo(pass.next, pass.last);
    var spots, cmds := Stored(w, pass, true), Disposes(Lines(w, pass), w.mode);
    var x := InsertAll(t, spots);
    var steps := PassSteps(x, cmds, Head(w.answers, drops), w.mode, now);
    var y := Run(x, steps);
    ChunkWhole(w, t, pass, drops, now, true);
    assert y == Run(t, Writes(w, t, pass, drops, now, true));
    StoredOffered(w, pass, true);
    DisposesOfRange(w, from, till);
    InsertIsSound(w, t, spots, from, till);
    InsertKeepsDone(w, t, spots, from, till, lo, from - 1);
    InsertStores(w, t, spots, from, till);
    PassPart(w, x, cmds, drops, now, |steps|);
    assert Prefix(steps, |steps|) == steps;
    FewerKeepsDone(w, x, y, lo, from - 1);
    DoneMore(w, x, y, cmds, drops, now, lo, from, till);
  }

  lemma DoneMore(w: World, x: Tables, y: Tables, cmds: seq<Command>, drops: nat -> bool, now: int, lo: int,
      from: int, till: int)
    requires Proper(w) && Sound(w, x) && Fewer(w, x, y)
    requires y == Run(x, PassSteps(x, cmds, Head(w.answers, drops), w.mode, now))
    requires w.mode != Off ==> !ScanAll(x, cmds, Head(w.answers, drops)).failed
    requires forall n | from <= n <= till && n in w.group && w.group[n].Withdrawal? && w.group[n].cmd.verified
        && w.mode != Off ::
      w.group[n].cmd in cmds
    requires Done(w, y, lo, from - 1)
    requires forall n, id | from <= n <= till && PostedAs(w, n, id) :: id in x.spots || Withdrawn(w, id)
    ensures Done(w, y, lo, till)
  {
    forall n, b, id | lo <= n <= b <= till && PostedAs(w, n, id) && WithdrawnBy(w, b, id) && w.mode != Off
      ensures !Listed(y, id)
    {
      if b >= from {
        SpotOfArticle(w, n);
        PassWhole(w, x, cmds, drops, now, w.group[b].cmd);
      }
    }
    forall n, id | lo <= n <= till && PostedAs(w, n, id) ensures id in y.spots || Withdrawn(w, id) {}
  }

  // ------------------------------------------------------------- whole runs

  lemma StoppedKeeps(w: World, st: State)
    requires Proper(w) && Inv(w, st)
    ensures Inv(w, st.(pass := Idle))
  {
    hide Sound;
  }

  lemma BegunKeeps(w: World, st: State, first: int, last: int)
    requires Proper(w) && Inv(w, st)
    ensures Inv(w, Begun(w, st, first, last))
  {
    hide Sound;
  }

  lemma ReadKeeps(w: World, st: State, drops: nat -> bool, now: int, saved: bool)
    requires Proper(w) && Inv(w, st) && st.pass.At?
    ensures Inv(w, Sync(w, st, ReadChunk(drops, now, true, saved)))
  {
    hide Sound, Run, Writes, LookupFails;
    var writes := Writes(w, st.tables, st.pass, drops, now, true);
    if LookupFails(w, st.tables, st.pass, drops, true) {
      ChunkPart(w, st.tables, st.pass, drops, now, true, |writes|, st.start);
      assert Prefix(writes, |writes|) == writes;
      StoppedKeeps(w, st.(tables := Run(st.tables, writes)));
    } else {
      ChunkDone(w, st.tables, st.pass, drops, now, st.start);
      OverviewHas(w.group, st.pass.next, ChunkTo(st.pass.next, st.pass.last));
    }
  }

  lemma SweepKeeps(w: World, st: State, e: Event)
    requires Proper(w) && Inv(w, st) && e.SweepPart?
    ensures Inv(w, Sync(w, st, e))
  {
    hide Sound, Fewer, Done, Run, PassSteps, Commands, Overview;
    var cmds := Commands(Overview(w.group, e.lo, e.hi));
    CommandsOfRange(w, e.lo, e.hi);
    PassPart(w, st.tables, cmds, e.drops, e.now, e.steps);
    FewerKeepsDone(w, st.tables, Sync(w, st, e).tables, st.start, DoneTo(st));
  }

  lemma EventKeeps(w: World, st: State, e: Event)
    requires Proper(w) && Inv(w, st) && (e.ReadChunk? ==> e.stored)
    ensures Inv(w, Sync(w, st, e))
  {
    hide Sound, Done, Run, Writes;
    match e
    case StartPass(first, last) => BegunKeeps(w, st, first, last);
    case ReadChunk(drops, now, _, saved) => if st.pass.At? { ReadKeeps(w, st, drops, now, saved); }
    case Crash(drops, now, stored, steps) =>
      if st.pass.At? {
        ChunkPart(w, st.tables, st.pass, drops, now, stored, steps, st.start);
        StoppedKeeps(w, st.(tables := Run(st.tables,
            Prefix(Writes(w, st.tables, st.pass, drops, now, stored), steps))));
      }
    case StopPass => StoppedKeeps(w, st);
    case SweepPart(_, _, _, _, _) => SweepKeeps(w, st, e);
    case BackfillChunk(lo, hi) =>
      if hi < st.start {
        var spots := Posts(Overview(w.group, lo, hi), w.verifySignatures);
        PostsOffered(w, lo, hi);
        InsertIsSound(w, st.tables, spots, lo, hi);
        InsertKeepsDone(w, st.tables, spots, lo, hi, st.start, DoneTo(st));
      }
  }

  predicate InsertsSucceed(es: seq<Event>) {
    forall i | 0 <= i < |es| :: es[i].ReadChunk? ==> es[i].stored
  }

  lemma {:induction false} RunKeeps(w: World, es: seq<Event>)
    requires Proper(w) && InsertsSucceed(es)
    ensures Inv(w, SyncAll(w, FRESH, es))
  {
    hide Sync, Inv;
    if es == [] {
      NothingYet(w);
    } else {
      RunKeeps(w, es[..|es| - 1]);
      EventKeeps(w, SyncAll(w, FRESH, es[..|es| - 1]), es[|es| - 1]);
    }
  }

  lemma NothingYet(w: World)
    requires Proper(w)
    ensures Inv(w, FRESH) && SyncAll(w, FRESH, []) == FRESH
  {}

  lemma CursorStep(w: World, st: State, e: Event)
    requires Proper(w) && Cursor(st)
    ensures Cursor(Sync(w, st, e)) && st.watermark <= Sync(w, st, e).watermark
  {
    hide Run, Writes, LookupFails;
    if st.pass.At? {
      OverviewHas(w.group, st.pass.next, ChunkTo(st.pass.next, st.pass.last));
    }
  }

  lemma {:induction false} CursorKeeps(w: World, es: seq<Event>)
    requires Proper(w)
    ensures Cursor(SyncAll(w, FRESH, es))
  {
    hide Sync;
    if es != [] {
      CursorKeeps(w, es[..|es| - 1]);
      CursorStep(w, SyncAll(w, FRESH, es[..|es| - 1]), es[|es| - 1]);
    }
  }

  /** Whatever fails, the watermark never decreases. */
  lemma {:induction false} WatermarkNeverDecreases(w: World, es: seq<Event>, later: seq<Event>)
    requires Proper(w)
    ensures SyncAll(w, FRESH, es).watermark <= SyncAll(w, FRESH, es + later).watermark
  {
    hide Sync;
    if later == [] {
      assert es + later == es;
    } else {
      var init, e := es + later[..|later| - 1], later[|later| - 1];
      WatermarkNeverDecreases(w, es, later[..|later| - 1]);
      assert (es + later)[..|es + later| - 1] == init;
      CursorKeeps(w, init);
      CursorStep(w, SyncAll(w, FRESH, init), e);
    }
  }

  lemma WatermarkStep(w: World, st: State, e: Event)
    ensures var u := Sync(w, st, e); u.watermark == st.watermark || u.watermark in w.group
  {
    hide Run, Writes, LookupFails;
    if st.pass.At? {
      OverviewHas(w.group, st.pass.next, ChunkTo(st.pass.next, st.pass.last));
    }
  }

  /** It is the number of an article that was read, or zero. */
  lemma {:induction false} WatermarkIsAnArticle(w: World, es: seq<Event>)
    ensures SyncAll(w, FRESH, es).watermark == 0 || SyncAll(w, FRESH, es).watermark in w.group
  {
    hide Sync;
    if es != [] {
      WatermarkIsAnArticle(w, es[..|es| - 1]);
      WatermarkStep(w, SyncAll(w, FRESH, es[..|es| - 1]), es[|es| - 1]);
    }
  }

  /** After any run of passes with their failures, crashes and restarts, with the sweep and the backfill
      at work between the chunks: an accepted article of [start, watermark] is listed unless some
      withdrawal of the group may withdraw it, and it is not listed if such a withdrawal follows it up
      to the watermark. */
  lemma EveryArticleProcessed(w: World, es: seq<Event>, n: int)
    requires Proper(w) && InsertsSucceed(es) && n in w.group && Accepted(w.group[n], w.verifySignatures)
    requires var st := SyncAll(w, FRESH, es); st.start <= n <= st.watermark
    ensures var st, s := SyncAll(w, FRESH, es), w.group[n].spot;
      && (Listed(st.tables, s.messageId) || Withdrawn(w, s.messageId))
      && (w.mode != Off ==> Listed(st.tables, s.messageId) ==>
            forall b | n <= b <= st.watermark && b in w.group && w.group[b].Withdrawal?
                && w.group[b].cmd.target == s.messageId ::
              !Entitles(w.group[b].cmd, Row(0, s), w.answers(s.messageId)))
      && (Listed(st.tables, s.messageId) ==> st.tables.spots[s.messageId].spot.postedAt == s.postedAt)
  {
    var st, id := SyncAll(w, FRESH, es), w.group[n].spot.messageId;
    RunKeeps(w, es);
    SpotOfArticle(w, n);
    assert PostedAs(w, n, id);
    assert Hidden(st.tables, id) ==> Withdrawn(w, id);
    forall b | n <= b <= st.watermark && b in w.group && w.group[b].Withdrawal? && w.group[b].cmd.target == id
      && w.mode != Off && Entitles(w.group[b].cmd, Row(0, w.group[n].spot), w.answers(id))
      ensures !Listed(st.tables, id)
    {
      assert WithdrawnBy(w, b, id);
    }
  }

  /** When every withdrawal of a spot follows it, the listing is exact. */
  lemma ListedExactlyUnlessWithdrawn(w: World, es: seq<Event>, n: int)
    requires Proper(w) && InsertsSucceed(es) && n in w.group && Accepted(w.group[n], w.verifySignatures)
    requires var st := SyncAll(w, FRESH, es);
      && st.start <= n <= st.watermark
      && forall b | b in w.group && w.group[b].Withdrawal? && w.group[b].cmd.target == w.group[n].spot.messageId ::
          n <= b <= st.watermark
    ensures var id := w.group[n].spot.messageId;
      Listed(SyncAll(w, FRESH, es).tables, id) <==> !Withdrawn(w, id)
  {
    SpotOfArticle(w, n);
    EveryArticleProcessed(w, es, n);
  }

  // ------------------------------------------------- what the code does not keep

  lemma RunTwo(w: World, st: State, a: Event, b: Event)
    ensures SyncAll(w, st, [a, b]) == Sync(w, Sync(w, st, a), b)
  {
    hide Sync;
    assert [a, b][..1] == [a] && [a][..0] == [];
    assert SyncAll(w, st, [a]) == Sync(w, st, a);
  }

  /** The range of one article. */
  lemma OneArticle(w: World, n: int)
    requires n in w.group
    ensures Overview(w.group, n, n) == [Line(n, w.group[n])]
  {
    assert Overview(w.group, n, n - 1) == [];
  }

  lemma NoDisposes(w: World, n: int)
    requires n in w.group && !w.group[n].Withdrawal?
    ensures Disposes(Overview(w.group, n, n), w.mode) == []
  {
    OneArticle(w, n);
    var lines := [Line(n, w.group[n])];
    assert lines[..0] == [];
  }

  lemma NoCommands(t: Tables, head: Head, mode: Mode, now: int)
    ensures PassSteps(t, [], head, mode, now) == [] && !ScanAll(t, [], head).failed
  {}

  /** That inserts succeed cannot be dropped: a failed insert is only logged, the watermark moves on, and
      whatever article was read is lost. */
  lemma FailedInsertLosesSpots(w: World, n: int, drops: nat -> bool, now: int)
    requires n in w.group && Accepted(w.group[n], w.verifySignatures)
    ensures var st := SyncAll(w, FRESH, [StartPass(n, n), ReadChunk(drops, now, false, true)]);
      st.start == n == st.watermark && st.tables == EMPTY
  {
    hide Run, PassSteps, ScanAll;
    var begun := Begun(w, FRESH, n, n);
    RunTwo(w, FRESH, StartPass(n, n), ReadChunk(drops, now, false, true));
    assert begun == State(EMPTY, 0, n, At(n, n));
    OneArticle(w, n);
    NoDisposes(w, n);
    ChunkWhole(w, EMPTY, begun.pass, drops, now, false);
    assert InsertAll(EMPTY, []) == EMPTY;
    NoCommands(EMPTY, Head(w.answers, drops), w.mode, now);
    NoSteps(EMPTY);
  }

  lemma NoSteps(t: Tables)
    ensures Run(t, []) == t
  {}

  /** Two articles: a withdrawal, and after it the spot it may withdraw. */
  ghost predicate WithdrawnBefore(w: World, id: MessageId) {
    && Proper(w) && w.mode != Off && w.lookback >= 1
    && 1 in w.group && 2 in w.group && PostedAs(w, 2, id) && Known(w, id) && WithdrawnBy(w, 1, id)
  }

  lemma RunFour(w: World, st: State, a: Event, b: Event, c: Event, d: Event)
    ensures SyncAll(w, st, [a, b, c, d]) == Sync(w, Sync(w, Sync(w, Sync(w, st, a), b), c), d)
  {
    hide Sync;
    assert [a, b, c, d][..3] == [a, b, c] && [a, b, c][..2] == [a, b];
    assert SyncAll(w, st, [a, b, c]) == Sync(w, SyncAll(w, st, [a, b]), c);
    RunTwo(w, st, a, b);
  }

  function Smooth(): Event {
    ReadChunk((k: nat) => false, 0, true, true)
  }

  lemma SmoothNeverFails(w: World, t: Tables, pass: Pass)
    requires pass.At?
    ensures !LookupFails(w, t, pass, Smooth().drops, true)
  {
    CalmNeverFails(w, t, pass, Conditions(false, true, Smooth().drops, 0, true, true));
  }

  lemma LastOf(w: World, lo: int, hi: int)
    requires lo <= hi && hi in w.group
    ensures var lines := Overview(w.group, lo, hi); lines != [] && lines[|lines| - 1].num == hi
  {
    var init := Overview(w.group, lo, hi - 1);
    assert Overview(w.group, lo, hi) == init + [Line(hi, w.group[hi])];
  }

  /** Read in one chunk, the withdrawal is applied. */
  lemma AppliedInOneChunk(w: World, id: MessageId)
    requires WithdrawnBefore(w, id)
    ensures var st := SyncAll(w, FRESH, [StartPass(1, 2), Smooth()]);
      st.start == 1 && st.watermark == 2 && !Listed(st.tables, id)
  {
    hide Run, PassSteps, ScanAll, Overview, InsertAll;
    var pass, drops := At(1, 2), Smooth().drops;
    RunTwo(w, FRESH, StartPass(1, 2), Smooth());
    assert Begun(w, FRESH, 1, 2) == State(EMPTY, 0, 1, pass);
    SmoothNeverFails(w, EMPTY, pass);
    ChunkWhole(w, EMPTY, pass, drops, 0, true);
    StoredOffered(w, pass, true);
    NothingYet(w);
    InsertIsSound(w, EMPTY, Stored(w, pass, true), 1, 2);
    DisposesOfRange(w, 1, 2);
    LastOf(w, 1, 2);
    PassWhole(w, InsertAll(EMPTY, Stored(w, pass, true)), Disposes(Lines(w, pass), w.mode), drops, 0, w.group[1].cmd);
  }

  lemma EmptyStaysEmpty(w: World, cmds: seq<Command>, drops: nat -> bool)
    ensures var t := Run(EMPTY, PassSteps(EMPTY, cmds, Head(w.answers, drops), w.mode, 0));
      t.spots == map[] && t.ring == map[]
  {
    var steps := PassSteps(EMPTY, cmds, Head(w.answers, drops), w.mode, 0);
    NoSteps(EMPTY);
    assert w.mode == Off ==> steps == [];
    hide Run, PassSteps, Entitled;
    if w.mode != Off {
      assert Prefix(steps, |steps|) == steps;
      assert Targets(EMPTY, cmds, Steady(w.answers)) == {};
      PassPrefixRows(EMPTY, cmds, w.answers, drops, w.mode, 0, |steps|);
      NoKeys(Run(EMPTY, steps));
    }
  }

  lemma NoKeys(t: Tables)
    requires t.spots.Keys <= {} && t.ring.Keys <= {}
    ensures t.spots == map[] && t.ring == map[]
  {}

  /** The withdrawal alone finds nothing. */
  lemma NothingToWithdraw(w: World, pass: Pass)
    requires Proper(w) && pass == At(1, 1) && 1 in w.group && w.group[1].Withdrawal?
    ensures var t := Run(EMPTY, Writes(w, EMPTY, pass, Smooth().drops, 0, true)); t.spots == map[] && t.ring == map[]
  {
    var drops := Smooth().drops;
    OneArticle(w, 1);
    var lines := Lines(w, pass);
    assert Posts(lines, w.verifySignatures) == [] by { assert lines[..0] == []; }
    ChunkWhole(w, EMPTY, pass, drops, 0, true);
    hide Run, PassSteps, ScanAll, Writes, LookupFails, Overview, Disposes;
    assert InsertAll(EMPTY, []) == EMPTY;
    EmptyStaysEmpty(w, Disposes(lines, w.mode), drops);
  }

  /** A chunk of one accepted spot, on tables that know nothing of it. */
  lemma StoredAlone(w: World, t: Tables, n: int, pass: Pass)
    requires n in w.group && Accepted(w.group[n], w.verifySignatures) && pass == At(n, n)
    requires !w.group[n].spot.moderated && t.spots == map[] && t.ring == map[]
    ensures Listed(Run(t, Writes(w, t, pass, Smooth().drops, 0, true)), w.group[n].spot.messageId)
  {
    hide Run, PassSteps, ScanAll, Writes, LookupFails, Overview, Posts, Disposes, Stored;
    var drops, s := Smooth().drops, w.group[n].spot;
    OneArticle(w, n);
    NoDisposes(w, n);
    ChunkWhole(w, t, pass, drops, 0, true);
    OneStored(w, n, pass);
    InsertedAlone(t, s);
    NoCommands(InsertAll(t, [s]), Head(w.answers, drops), w.mode, 0);
    NoSteps(InsertAll(t, [s]));
  }

  lemma OneStored(w: World, n: int, pass: Pass)
    requires n in w.group && Accepted(w.group[n], w.verifySignatures) && pass == At(n, n)
    ensures Stored(w, pass, true) == [w.group[n].spot]
  {
    OneArticle(w, n);
    hide Overview;
    var lines := [Line(n, w.group[n])];
    assert lines[..0] == [];
    assert Posts(lines, w.verifySignatures) == [] + [w.group[n].spot];
  }

  lemma InsertedAlone(t: Tables, s: Spot)
    requires t.spots == map[] && t.ring == map[] && !s.moderated
    ensures Listed(InsertAll(t, [s]), s.messageId)
  {
    assert [s][..0] == [];
  }

  /** When one pass stops between the two and the next goes on, it is not: whether a withdrawal that comes
      before its spot is honoured depends on where a pass happened to stop. */
  lemma LostBetweenChunks(w: World, id: MessageId)
    requires WithdrawnBefore(w, id)
    ensures var st := SyncAll(w, FRESH, [StartPass(1, 1), Smooth(), StartPass(1, 2), Smooth()]);
      st.start == 1 && st.watermark == 2 && Listed(st.tables, id)
  {
    hide Run, Writes, LookupFails, Overview;
    var drops := Smooth().drops;
    RunFour(w, FRESH, StartPass(1, 1), Smooth(), StartPass(1, 2), Smooth());
    assert Begun(w, FRESH, 1, 1) == State(EMPTY, 0, 1, At(1, 1));
    SmoothNeverFails(w, EMPTY, At(1, 1));
    LastOf(w, 1, 1);
    NothingToWithdraw(w, At(1, 1));
    var t := Run(EMPTY, Writes(w, EMPTY, At(1, 1), drops, 0, true));
    assert Begun(w, State(t, 1, 1, Idle), 1, 2) == State(t, 1, 1, At(2, 2));
    SmoothNeverFails(w, t, At(2, 2));
    LastOf(w, 2, 2);
    StoredAlone(w, t, 2, At(2, 2));
  }

  // ------------------------------------------------------------- the worker

  /** What happens to one chunk of a pass. */
  datatype Conditions = Conditions(
    cancelled: bool, online: bool, drops: nat -> bool, now: int, stores: bool, saves: bool)

  function EventOf(c: Conditions): Event {
    if c.cancelled || !c.online then StopPass else ReadChunk(c.drops, c.now, c.stores, c.saves)
  }

  /** Nothing goes wrong. */
  ghost predicate Calm(c: Conditions) {
    !c.cancelled && c.online && c.stores && c.saves && forall k :: !c.drops(k)
  }

  /** A new event only while the pass is under way. */
  ghost predicate Unbroken(w: World, st: State, es: seq<Event>) {
    forall i | 1 <= i < |es| :: SyncAll(w, st, es[..i]).pass.At?
  }

  lemma UnbrokenMore(w: World, st: State, es: seq<Event>, e: Event)
    requires es != [] && Unbroken(w, st, es) && SyncAll(w, st, es).pass.At?
    ensures Unbroken(w, st, es + [e]) && SyncAll(w, st, es + [e]) == Sync(w, SyncAll(w, st, es), e)
  {
    var more := es + [e];
    forall i | 1 <= i < |more| ensures SyncAll(w, st, more[..i]).pass.At? {
      assert more[..i] == if i == |es| then es else es[..i];
    }
    assert more[..|more| - 1] == es;
  }

  lemma CalmNeverFails(w: World, t: Tables, pass: Pass, c: Conditions)
    requires pass.At? && Calm(c)
    ensures !LookupFails(w, t, pass, c.drops, c.stores)
  {
    if w.mode != Off {
      ReliableNeverFails(InsertAll(t, Stored(w, pass, c.stores)), Disposes(Lines(w, pass), w.mode),
          Head(w.answers, c.drops));
    }
  }

  /** All articles of [from, till] lie at or below the watermark. */
  ghost predicate Passed(w: World, from: int, till: int, watermark: int) {
    forall n <- w.group | from <= n <= till :: n <= watermark
  }

  lemma LastIsHighest(w: World, from: int, next: int, till: int, watermark: int)
    requires Passed(w, from, next - 1, watermark) && next <= till
    ensures var lines := Overview(w.group, next, till);
      Passed(w, from, till, if lines != [] then lines[|lines| - 1].num else watermark)
  {
    var lines := Overview(w.group, next, till);
    OverviewHas(w.group, next, till);
    OverviewAscends(w.group, next, till);
    forall n <- w.group | next <= n <= till ensures lines != [] && n <= lines[|lines| - 1].num {
      assert Line(n, w.group[n]) in lines;
    }
    if lines != [] {
      assert lines[|lines| - 1] in lines;
    }
  }

  ghost predicate Matches(db: Database, state: SyncState, st: State)
    reads db, state
  {
    db.Contents() == st.tables && state.forward == st.watermark
  }

  /** The loop over the overview: withdrawals are never stored, malformed and (in strict mode) unsigned
      spots are rejected. */
  method Sort(w: World, lines: seq<Line>) returns (spots: seq<Spot>, disposes: seq<Command>)
    ensures spots == Posts(lines, w.verifySignatures)
    ensures disposes == Disposes(lines, w.mode)
    ensures InOrder(spots,
              map i | 0 <= i < |lines| && lines[i].article.Post? && lines[i].article.validId
                && (lines[i].article.headerVerified || !w.verifySignatures) :: lines[i].article.spot)
    ensures InOrder(disposes,
              map i | 0 <= i < |lines| && lines[i].article.Withdrawal? && lines[i].article.cmd.verified
                && w.mode != Off :: lines[i].article.cmd)
  {
    hide InOrder;
    PostsAre(lines, w.verifySignatures);
    DisposesAre(lines, w.mode);
    spots, disposes := [], [];
    for i := 0 to |lines|
      invariant spots == Posts(lines[..i], w.verifySignatures)
      invariant disposes == Disposes(lines[..i], w.mode)
    {
      assert lines[..i + 1][..i] == lines[..i];
      match lines[i].article {
        case NotSpotnet =>
        case Withdrawal(cmd) =>
          if w.mode != Off && cmd.verified {
            disposes := disposes + [cmd];
          }
        case Post(spot, headerVerified, validId) =>
          if w.verifySignatures && !headerVerified {
            continue;
          }
          if !validId {
            continue;
          }
          spots := spots + [spot];
      }
    }
    assert lines[..|lines|] == lines;
  }

  /** Insert the chunk's spots, then apply its withdrawals. A failed insert is passed over. */
  method ProcessChunk(db: Database, w: World, pass: Pass, lines: seq<Line>, c: Conditions) returns (failed: bool)
    requires db.Valid() && pass.At? && lines == Lines(w, pass)
    modifies db
    ensures db.Valid()
    ensures db.Contents() == Run(old(db.Contents()), Writes(w, old(db.Contents()), pass, c.drops, c.now, c.stores))
    ensures failed == LookupFails(w, old(db.Contents()), pass, c.drops, c.stores)
  {
    hide WellFormed;
    ghost var t := db.Contents();
    var spots, disposes := Sort(w, lines);
    ChunkWhole(w, t, pass, c.drops, c.now, c.stores);
    RunWellFormed(t, Writes(w, t, pass, c.drops, c.now, c.stores));
    StepWellFormed(t, Step.InsertSpots(spots));
    if |spots| > 0 && c.stores {
      var _ := db.InsertSpots(spots);
    }
    failed := false;
    if |disposes| > 0 {
      var st;
      st, failed := ApplyModeration(db, disposes, Head(w.answers, c.drops), w.mode, c.now);
    }
  }

  /** syncGroup: one pass. The events are those the conditions bring about, until the pass is over; when
      nothing goes wrong it ends with every article it set out to read below the watermark. */
  method SyncGroup(db: Database, state: SyncState, w: World, first: int, last: int, weather: nat -> Conditions,
                   ghost st: State)
    returns (ghost es: seq<Event>)
    requires db.Valid() && Matches(db, state, st) && st.pass == Idle
    modifies db, state`forward
    ensures db.Valid()
    ensures Matches(db, state, SyncAll(w, st, es)) && SyncAll(w, st, es).pass == Idle
    ensures es != [] && es[0] == StartPass(first, last) && Unbroken(w, st, es)
    ensures forall i | 1 <= i < |es| :: es[i] == EventOf(weather(i - 1))
    ensures (forall k :: Calm(weather(k))) ==> Passed(w, PassFrom(w, st.watermark, first, last), last, state.forward)
  {
    hide WellFormed, Run, Writes, LookupFails, Overview, Unbroken, Passed, Calm, SyncAll;
    es := [StartPass(first, last)];
    ghost var start, calm := PassFrom(w, st.watermark, first, last), forall k :: Calm(weather(k));
    OneEvent(w, st, es[0]);
    NonePassed(w, start, last, state.forward);
    var from := state.forward + 1;
    if state.forward == 0 {
      from := last - w.lookback;
      if from < first {
        from := first;
      }
    }
    if from > last {
      return;
    }
    var k := 0;
    while from <= last
      invariant db.Valid() && |es| == k + 1 && es[0] == StartPass(first, last) && Unbroken(w, st, es)
      invariant Matches(db, state, SyncAll(w, st, es))
      invariant SyncAll(w, st, es).pass == if from <= last then At(from, last) else Idle
      invariant forall i | 1 <= i < |es| :: es[i] == EventOf(weather(i - 1))
      invariant calm ==> Passed(w, start, if from <= last then from - 1 else last, state.forward)
    {
      var c := weather(k);
      ghost var now := SyncAll(w, st, es);
      UnbrokenMore(w, st, es, EventOf(c));
      es := es + [EventOf(c)];
      if c.cancelled || !c.online {
        NotCalm(c);
        return;
      }
      var till := from + CHUNK_SIZE - 1;
      if till > last {
        till := last;
      }
      var lines := Overview(w.group, from, till);
      var failed := ProcessChunk(db, w, At(from, last), lines, c);
      if calm { CalmPassesOn(w, start, now, c); }
      if failed {
        return;
      }
      if |lines| > 0 && c.saves {
        state.forward := lines[|lines| - 1].num;
      }
      from := from + CHUNK_SIZE;
      k := k + 1;
    }
  }

  lemma NotCalm(c: Conditions)
    ensures c.cancelled || !c.online || !c.saves ==> !Calm(c)
  {}

  /** An undisturbed chunk does not fail and passes its articles. */
  lemma CalmPassesOn(w: World, start: int, st: State, c: Conditions)
    requires st.pass.At? && st.pass.next <= st.pass.last
    requires Calm(c) && Passed(w, start, st.pass.next - 1, st.watermark)
    ensures !LookupFails(w, st.tables, st.pass, c.drops, c.stores)
    ensures forall t :: Passed(w, start, ChunkTo(st.pass.next, st.pass.last), Advanced(w, st, t, c.saves).watermark)
  {
    CalmNeverFails(w, st.tables, st.pass, c);
    LastIsHighest(w, start, st.pass.next, ChunkTo(st.pass.next, st.pass.last), st.watermark);
  }

  lemma OneEvent(w: World, st: State, e: Event)
    ensures SyncAll(w, st, [e]) == Sync(w, st, e) && Unbroken(w, st, [e])
  {
    hide Sync;
    assert [e][..0] == [];
  }

  lemma NonePassed(w: World, from: int, last: int, watermark: int)
    ensures Passed(w, from, from - 1, watermark)
    ensures from > last ==> Passed(w, from, last, watermark)
  {}
}
