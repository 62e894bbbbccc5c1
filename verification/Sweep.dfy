/** The withdrawal sweep (internal/sync/disposesweep.go): once, forward, from the oldest indexed
    article to the forward sync's watermark, chunk by chunk with a checkpoint after each. An attempt
    at a chunk may fail or be cut short at any point, any number of times, across restarts. */
module Sweep {
  import opened Store
  import opened StoreInvariants
  import opened Moderation
  import opened ApplyingModeration
  import opened Chunk
  import opened Server
  import opened Databases
  import opened SyncStates

  /** `ranges` lists the ranges checkpointed so far, in order. */
  datatype State = State(tables: Tables, checkpoint: int, ranges: seq<(int, int)>)

  function Begin(t: Tables): State {
    State(t, 0, [])
  }

  /** One attempt at the next chunk: which lookups fail, how many writes happen before the attempt
      ends, whether the checkpoint was saved, and the forward watermark as this attempt read it. A lost
      connection is an attempt without writes. */
  datatype Try = Try(drops: nat -> bool, now: int, steps: nat, saved: bool, end: int)

  ghost predicate IsOldest(spots: map<MessageId, Row>, n: int) {
    if spots == map[] then n == 0
    else (exists m <- spots :: spots[m].spot.articleNum == n) && forall m <- spots :: n <= spots[m].spot.articleNum
  }

  lemma OldestExists(spots: map<MessageId, Row>)
    ensures exists n :: IsOldest(spots, n)
    decreases |spots|
  {
    if m :| m in spots {
      var rest := spots - {m};
      assert rest.Keys == spots.Keys - {m};
      OldestExists(rest);
      var n :| IsOldest(rest, n);
      var num := spots[m].spot.articleNum;
      var least := if rest == map[] || num < n then num else n;
      assert forall k <- spots :: k == m || k in rest;
      assert IsOldest(spots, least) by {
        if rest != map[] && n <= num {
          var k :| k in rest && rest[k].spot.articleNum == n;
          assert k in spots && spots[k].spot.articleNum == least;
        }
      }
    } else {
      assert IsOldest(spots, 0);
    }
  }

  /** SELECT MIN(article_num), 0 when the table is empty. */
  ghost function Oldest(spots: map<MessageId, Row>): (n: int)
    ensures IsOldest(spots, n)
  {
    OldestExists(spots);
    var n :| IsOldest(spots, n);
    n
  }

  /** The last article passed; a zero checkpoint means not started. */
  ghost function Position(st: State): int {
    if st.checkpoint == 0 then Oldest(st.tables.spots) - 1 else st.checkpoint
  }

  function ChunkEnd(pos: int, end: int): int {
    if pos + CHUNK_SIZE > end then end else pos + CHUNK_SIZE
  }

  ghost function ChunkCommands(group: Group, pos: int, end: int): seq<Command> {
    Commands(Overview(group, pos + 1, ChunkEnd(pos, end)))
  }

  ghost predicate Completes(st: State, e: Try, group: Group, answers: MessageId -> Answer, mode: Mode) {
    var head := Head(answers, e.drops);
    var cmds := ChunkCommands(group, Position(st), e.end);
    && Position(st) < e.end
    && e.saved
    && e.steps >= |PassSteps(st.tables, cmds, head, mode, e.now)|
    && (mode != Off ==> !ScanAll(st.tables, cmds, head).failed)
  }

  ghost function Attempted(st: State, e: Try, group: Group, answers: MessageId -> Answer, mode: Mode): State {
    if Position(st) >= e.end then st
    else
      var pos, next := Position(st), ChunkEnd(Position(st), e.end);
      var steps := PassSteps(st.tables, ChunkCommands(group, pos, e.end), Head(answers, e.drops), mode, e.now);
      var tables := Run(st.tables, Prefix(steps, e.steps));
      if Completes(st, e, group, answers, mode) then State(tables, next, st.ranges + [(pos + 1, next)])
      else st.(tables := tables)
  }

  ghost function AttemptedAll(st: State, es: seq<Try>, group: Group, answers: MessageId -> Answer, mode: Mode): State {
    if es == [] then st
    else Attempted(AttemptedAll(st, es[..|es| - 1], group, answers, mode), es[|es| - 1], group, answers, mode)
  }

  /** The ranges lie end to end from `lo` to `hi`, none empty, none longer than a chunk. */
  predicate Tiles(rs: seq<(int, int)>, lo: int, hi: int) {
    if rs == [] then lo == hi + 1
    else
      var r := rs[|rs| - 1];
      r.0 <= r.1 == hi && r.1 - r.0 < 5000 && Tiles(rs[..|rs| - 1], lo, r.0 - 1)
  }

  /** The next chunk: 5000 article numbers, or what is left up to the watermark. */
  lemma ChunkIs(pos: int, end: int, n: int)
    requires pos < end
    ensures pos + 1 <= n <= ChunkEnd(pos, end) <==> pos < n <= end && n - pos <= 5000
  {}

  // ----------------------------------------------------------------- progress

  /** Since the sweep began from `t`, with the commands up to `pos` applied. */
  ghost predicate SweptTo(t: Tables, x: Tables, cmds: seq<Command>, done: seq<Command>, answers: MessageId -> Answer) {
    var head := Steady(answers);
    && Partial(t, x, cmds, head, Mark)
    && (forall c <- done :: c in cmds)
    && (forall id <- Targets(t, done, head) :: id in x.spots && x.spots[id].spot.moderated)
    && (forall id <- t.spots :: id !in Targets(t, cmds, head) && NeedsLookup(t, done, id) ==>
          id in x.spots && x.spots[id] == Answered(t.spots[id], answers(id)))
  }

  lemma TryKeepsSwept(t: Tables, x: Tables, cmds: seq<Command>, done: seq<Command>, sub: seq<Command>,
                      answers: MessageId -> Answer, e: Try)
    requires SweptTo(t, x, cmds, done, answers) && forall c <- sub :: c in cmds
    ensures SweptTo(t, Run(x, Prefix(PassSteps(x, sub, Head(answers, e.drops), Mark, e.now), e.steps)), cmds, done,
        answers)
  {
    var y := Run(x, Prefix(PassSteps(x, sub, Head(answers, e.drops), Mark, e.now), e.steps));
    PassPrefixKeepsPartial(t, x, cmds, sub, answers, e.drops, Mark, e.now, e.steps);
    forall id <- x.spots
      ensures id in y.spots
      ensures x.spots[id].spot.moderated ==> y.spots[id].spot.moderated
      ensures !y.spots[id].spot.moderated ==> Learned(x.spots[id], y.spots[id], answers(id))
    {
      PassOnRow(x, sub, answers, e.drops, e.now, e.steps, id);
    }
  }

  /** What any prefix of a pass may do to one row. */
  lemma PassOnRow(x: Tables, sub: seq<Command>, answers: MessageId -> Answer, drops: nat -> bool, now: int, k: nat,
      id: MessageId)
    requires id in x.spots
    ensures var y := Run(x, Prefix(PassSteps(x, sub, Head(answers, drops), Mark, now), k));
      && id in y.spots
      && (x.spots[id].spot.moderated ==> y.spots[id].spot.moderated)
      && (!y.spots[id].spot.moderated ==> Learned(x.spots[id], y.spots[id], answers(id)))
  {
    var head := Head(answers, drops);
    var s := ScanAll(x, sub, head);
    var rest := Consequence(s.targets, Mark, now);
    ScanKeeps(x, sub, head);
    assert AnswerFor(head, id) == answers(id);
    if k <= |s.effects| {
      assert Prefix(s.effects + rest, k) == s.effects[..k];
      LearnStepsOnly(x, sub, head, s.effects[..k]);
    } else {
      assert Prefix(s.effects + rest, k) == s.effects + rest;
      PassFacts(x, sub, head, Mark, now);
    }
  }

  /** A target of the part `sub` that is not marked yet is a target of the pass that now runs it. */
  lemma StillATarget(t: Tables, x: Tables, cmds: seq<Command>, sub: seq<Command>, answers: MessageId -> Answer,
                     head': Head, id: MessageId)
    requires Partial(t, x, cmds, Steady(answers), Mark) && SameAnswers(Steady(answers), head')
    requires forall c <- sub :: c in cmds
    requires id in Targets(t, sub, Steady(answers)) && !x.spots[id].spot.moderated
    ensures id in Targets(x, sub, head')
  {
    var head := Steady(answers);
    TargetsInBatch(t, cmds, sub, head);
    assert Entitled(t, sub, head, id);
    var c :| c in sub && c.target == id && Entitles(c, t.spots[id], answers(id));
    assert AnswerFor(head', id) == answers(id) && AnswerFor(head, id) == answers(id);
    assert Entitles(c, x.spots[id], answers(id));
    assert Entitled(x, sub, head', id);
  }

  /** A pass hides what was hidden, and what it queued. */
  lemma PassMarksTargets(x: Tables, sub: seq<Command>, head: Head, now: int, id: MessageId)
    requires id in x.spots
    ensures var y := Run(x, PassSteps(x, sub, head, Mark, now));
      && id in y.spots
      && (y.spots[id].spot.moderated <==> x.spots[id].spot.moderated || id in ScanAll(x, sub, head).targets)
  {
    PassFacts(x, sub, head, Mark, now);
    ScanKeeps(x, sub, head);
    hide ScanAll, Run, PassSteps, Entitled, NeedsLookup, Distinct;
    assert Learned(x.spots[id], ScanAll(x, sub, head).tables.spots[id], AnswerFor(head, id));
  }

  lemma FullPassMarks(t: Tables, x: Tables, cmds: seq<Command>, sub: seq<Command>, answers: MessageId -> Answer,
                      head': Head, now: int, id: MessageId)
    requires Partial(t, x, cmds, Steady(answers), Mark) && SameAnswers(Steady(answers), head')
    requires forall c <- sub :: c in cmds
    requires !ScanAll(x, sub, head').failed
    requires id in Targets(t, sub, Steady(answers))
    ensures var y := Run(x, PassSteps(x, sub, head', Mark, now)); id in y.spots && y.spots[id].spot.moderated
  {
    hide ScanAll, Run, PassSteps, Entitled, NeedsLookup, Distinct, ScanInv;
    assert id in t.spots && id in x.spots;
    PassMarksTargets(x, sub, head', now, id);
    QueuesExactlyTheTargets(x, sub, head');
    if !x.spots[id].spot.moderated {
      StillATarget(t, x, cmds, sub, answers, head', id);
      assert id in SetOf(ScanAll(x, sub, head').targets);
    }
  }

  lemma FullPassReads(t: Tables, x: Tables, cmds: seq<Command>, sub: seq<Command>, answers: MessageId -> Answer,
                      head': Head, now: int, id: MessageId)
    requires Partial(t, x, cmds, Steady(answers), Mark) && SameAnswers(Steady(answers), head') && head'.Head?
    requires forall c <- sub :: c in cmds
    requires !ScanAll(x, sub, head').failed
    requires id in t.spots && id !in Targets(t, cmds, Steady(answers)) && NeedsLookup(t, sub, id)
    ensures var y := Run(x, PassSteps(x, sub, head', Mark, now));
      id in y.spots && y.spots[id] == Answered(t.spots[id], answers(id))
  {
    var s := ScanAll(x, sub, head');
    PassFacts(x, sub, head', Mark, now);
    ScanKeeps(x, sub, head');
    QueuedArePartOfTheGoal(t, x, cmds, sub, Steady(answers), head', Mark);
    assert id in s.targets ==> id in SetOf(s.targets);
    assert AnswerFor(head', id) == answers(id) && AnswerFor(Steady(answers), id) == answers(id);
    assert Learned(x.spots[id], s.tables.spots[id], answers(id));
    if x.spots[id] == t.spots[id] {
      assert NeedsLookup(x, sub, id);
    }
  }

  lemma FullPassSwept(t: Tables, x: Tables, cmds: seq<Command>, done: seq<Command>, sub: seq<Command>,
                      answers: MessageId -> Answer, e: Try)
    requires SweptTo(t, x, cmds, done, answers) && forall c <- sub :: c in cmds
    requires var head := Head(answers, e.drops);
      !ScanAll(x, sub, head).failed && e.steps >= |PassSteps(x, sub, head, Mark, e.now)|
    ensures SweptTo(t, Run(x, Prefix(PassSteps(x, sub, Head(answers, e.drops), Mark, e.now), e.steps)), cmds,
        done + sub, answers)
  {
    var head, head' := Steady(answers), Head(answers, e.drops);
    var steps := PassSteps(x, sub, head', Mark, e.now);
    var y := Run(x, Prefix(steps, e.steps));
    assert Prefix(steps, e.steps) == steps;
    TryKeepsSwept(t, x, cmds, done, sub, answers, e);
    forall id <- Targets(t, done + sub, head) ensures id in y.spots && y.spots[id].spot.moderated {
      if id !in Targets(t, done, head) {
        assert Entitled(t, done + sub, head, id);
        assert Entitled(t, sub, head, id);
        FullPassMarks(t, x, cmds, sub, answers, head', e.now, id);
      }
    }
    forall id | id in t.spots && id !in Targets(t, cmds, head) && NeedsLookup(t, done + sub, id)
      ensures id in y.spots && y.spots[id] == Answered(t.spots[id], answers(id))
    {
      if !NeedsLookup(t, done, id) {
        FullPassReads(t, x, cmds, sub, answers, head', e.now, id);
      }
    }
  }

  lemma SameOldest(t: Tables, x: Tables, cmds: seq<Command>, answers: MessageId -> Answer)
    requires Partial(t, x, cmds, Steady(answers), Mark)
    ensures Oldest(x.spots) == Oldest(t.spots)
  {
    forall id <- t.spots ensures x.spots[id].spot.articleNum == t.spots[id].spot.articleNum {}
    var a, b := Oldest(t.spots), Oldest(x.spots);
    if t.spots != map[] {
      var k :| k in t.spots && t.spots[k].spot.articleNum == a;
      assert x.spots[k].spot.articleNum == a && b <= a;
      var l :| l in x.spots && x.spots[l].spot.articleNum == b;
      assert t.spots[l].spot.articleNum == b && a <= b;
    } else {
      assert x.spots.Keys == {};
    }
  }

  lemma CommandsJoin(a: seq<Line>, b: seq<Line>)
    ensures forall c :: c in Commands(a + b) <==> c in Commands(a) || c in Commands(b)
  {
    CommandsHas(a);
    CommandsHas(b);
    CommandsHas(a + b);
    assert forall l :: l in a + b <==> l in a || l in b;
  }

  lemma ChunkOfBatch(group: Group, lo: int, pos: int, end: int, till: int)
    requires lo <= pos + 1 && pos < end <= till
    ensures var next := ChunkEnd(pos, end);
      var done, sub := Commands(Overview(group, lo, pos)), ChunkCommands(group, pos, end);
      var later := Commands(Overview(group, lo, next));
      && (forall c :: c in later <==> c in done || c in sub)
      && (forall c <- later :: c in Commands(Overview(group, lo, till)))
  {
    var next := ChunkEnd(pos, end);
    OverviewSplit(group, lo, pos, next);
    CommandsJoin(Overview(group, lo, pos), Overview(group, pos + 1, next));
    OverviewSplit(group, lo, next, till);
    CommandsJoin(Overview(group, lo, next), Overview(group, next + 1, till));
  }

  lemma SameMembers(t: Tables, x: Tables, cmds: seq<Command>, a: seq<Command>, b: seq<Command>,
      answers: MessageId -> Answer)
    requires SweptTo(t, x, cmds, a, answers) && forall c :: c in a <==> c in b
    ensures SweptTo(t, x, cmds, b, answers)
  {
    assert Targets(t, a, Steady(answers)) == Targets(t, b, Steady(answers));
  }

  /** The tables `x` with everything up to `pos` swept and checkpointed as `ranges`. */
  ghost predicate At(t: Tables, x: Tables, ranges: seq<(int, int)>, pos: int, group: Group, till: int,
                     answers: MessageId -> Answer) {
    var lo := Oldest(t.spots);
    && lo - 1 <= pos && (pos <= till || pos == lo - 1)
    && Oldest(x.spots) == lo
    && Tiles(ranges, lo, pos)
    && SweptTo(t, x, Commands(Overview(group, lo, till)), Commands(Overview(group, lo, pos)), answers)
  }

  /** What every sequence of attempts has reached. */
  ghost predicate Reached(t: Tables, st: State, group: Group, till: int, answers: MessageId -> Answer) {
    && (st.checkpoint == 0 || st.checkpoint >= Oldest(t.spots))
    && At(t, st.tables, st.ranges, Position(st), group, till, answers)
  }

  lemma TileMore(rs: seq<(int, int)>, lo: int, pos: int, next: int)
    requires Tiles(rs, lo, pos) && pos < next <= pos + CHUNK_SIZE
    ensures Tiles(rs + [(pos + 1, next)], lo, next)
  {
    assert (rs + [(pos + 1, next)])[..|rs|] == rs;
  }

  function ChunkWrites(x: Tables, sub: seq<Command>, answers: MessageId -> Answer, e: Try): seq<Step> {
    Prefix(PassSteps(x, sub, Head(answers, e.drops), Mark, e.now), e.steps)
  }

  /** A chunk attempted without its checkpoint. */
  lemma TriedChunk(t: Tables, x: Tables, ranges: seq<(int, int)>, pos: int, e: Try, group: Group, till: int,
                   answers: MessageId -> Answer)
    requires At(t, x, ranges, pos, group, till, answers) && pos < e.end <= till
    ensures At(t, Run(x, ChunkWrites(x, ChunkCommands(group, pos, e.end), answers, e)), ranges, pos, group, till,
        answers)
  {
    var lo := Oldest(t.spots);
    var cmds, sub := Commands(Overview(group, lo, till)), ChunkCommands(group, pos, e.end);
    ChunkOfBatch(group, lo, pos, e.end, till);
    TryKeepsSwept(t, x, cmds, Commands(Overview(group, lo, pos)), sub, answers, e);
    SameOldest(t, Run(x, ChunkWrites(x, sub, answers, e)), cmds, answers);
  }

  /** A chunk finished and checkpointed. */
  lemma CheckpointedChunk(t: Tables, x: Tables, ranges: seq<(int, int)>, pos: int, e: Try, group: Group, till: int,
                          answers: MessageId -> Answer)
    requires At(t, x, ranges, pos, group, till, answers) && pos < e.end <= till
    requires var sub, head := ChunkCommands(group, pos, e.end), Head(answers, e.drops);
      !ScanAll(x, sub, head).failed && e.steps >= |PassSteps(x, sub, head, Mark, e.now)|
    ensures var next := ChunkEnd(pos, e.end);
      var y := Run(x, ChunkWrites(x, ChunkCommands(group, pos, e.end), answers, e));
      At(t, y, ranges + [(pos + 1, next)], next, group, till, answers)
  {
    var lo, next := Oldest(t.spots), ChunkEnd(pos, e.end);
    var cmds, done := Commands(Overview(group, lo, till)), Commands(Overview(group, lo, pos));
    var sub := ChunkCommands(group, pos, e.end);
    var y := Run(x, ChunkWrites(x, sub, answers, e));
    ChunkOfBatch(group, lo, pos, e.end, till);
    TileMore(ranges, lo, pos, next);
    FullPassSwept(t, x, cmds, done, sub, answers, e);
    assert forall c :: c in done + sub <==> c in done || c in sub;
    SameMembers(t, y, cmds, done + sub, Commands(Overview(group, lo, next)), answers);
    SameOldest(t, y, cmds, answers);
  }

  lemma AttemptReaches(t: Tables, st: State, e: Try, group: Group, till: int, answers: MessageId -> Answer)
    requires 1 <= Oldest(t.spots) && e.end <= till && Reached(t, st, group, till, answers)
    ensures Reached(t, Attempted(st, e, group, answers, Mark), group, till, answers)
  {
    hide SweptTo, PassSteps, ScanAll, Run, Commands, Tiles;
    var pos := Position(st);
    if pos < e.end {
      if Completes(st, e, group, answers, Mark) {
        CheckpointedChunk(t, st.tables, st.ranges, pos, e, group, till, answers);
      } else {
        TriedChunk(t, st.tables, st.ranges, pos, e, group, till, answers);
      }
    }
  }

  lemma {:induction false} AttemptsReach(t: Tables, es: seq<Try>, group: Group, till: int, answers: MessageId -> Answer)
    requires 1 <= Oldest(t.spots) && forall i | 0 <= i < |es| :: es[i].end <= till
    ensures Reached(t, AttemptedAll(Begin(t), es, group, answers, Mark), group, till, answers)
  {
    if es == [] {
      var lo := Oldest(t.spots);
      PartialItself(t, Commands(Overview(group, lo, till)), Steady(answers), Mark);
      assert Overview(group, lo, lo - 1) == [];
      assert Targets(t, [], Steady(answers)) == {};
    } else {
      AttemptsReach(t, es[..|es| - 1], group, till, answers);
      AttemptReaches(t, AttemptedAll(Begin(t), es[..|es| - 1], group, answers, Mark), es[|es| - 1], group, till,
          answers);
    }
  }

  lemma {:induction false} HighestEnd(es: seq<Try>) returns (till: int)
    ensures forall i | 0 <= i < |es| :: es[i].end <= till
  {
    if es == [] {
      till := 0;
    } else {
      var last := es[|es| - 1].end;
      till := HighestEnd(es[..|es| - 1]);
      if till < last { till := last; }
    }
  }

  /** The checkpointed ranges tile what has been passed: no gap, no overlap, no range over 5000, however
      the forward watermark moves between the attempts. */
  lemma RangesTile(t: Tables, es: seq<Try>, group: Group, answers: MessageId -> Answer)
    requires 1 <= Oldest(t.spots)
    ensures var st := AttemptedAll(Begin(t), es, group, answers, Mark);
      Tiles(st.ranges, Oldest(t.spots), Position(st))
  {
    var till := HighestEnd(es);
    AttemptsReach(t, es, group, till, answers);
  }

  /** A finished sweep, whatever attempts, failures and restarts it took and however the forward watermark
      rose to `end` meanwhile, has withdrawn the spots that one application of all withdrawals in
      [oldest, end] withdraws, recorded the same ring, and left the same listing. Its checkpointed ranges
      tile [oldest, end]. */
  lemma SweepEqualsOnePass(t: Tables, es: seq<Try>, group: Group, end: int, answers: MessageId -> Answer, now: int)
    requires 1 <= Oldest(t.spots) <= end && forall i | 0 <= i < |es| :: es[i].end <= end
    requires Position(AttemptedAll(Begin(t), es, group, answers, Mark)) >= end
    ensures
      var swept := AttemptedAll(Begin(t), es, group, answers, Mark);
      var once := Run(t, PassSteps(t, Commands(Overview(group, Oldest(t.spots), end)), Steady(answers), Mark, now));
      && swept.tables.spots.Keys == once.spots.Keys
      && ModeratedIds(swept.tables) == ModeratedIds(once)
      && swept.tables.ring.Keys == once.ring.Keys
      && Visible(swept.tables) == Visible(once)
      && Tiles(swept.ranges, Oldest(t.spots), end)
  {
    var st := AttemptedAll(Begin(t), es, group, answers, Mark);
    var all := Commands(Overview(group, Oldest(t.spots), end));
    AttemptsReach(t, es, group, end, answers);
    SweptIsOnePass(t, st.tables, all, answers, now);
  }

  lemma SweptIsOnePass(t: Tables, x: Tables, all: seq<Command>, answers: MessageId -> Answer, now: int)
    requires SweptTo(t, x, all, all, answers)
    ensures var once := Run(t, PassSteps(t, all, Steady(answers), Mark, now));
      && x.spots.Keys == once.spots.Keys
      && ModeratedIds(x) == ModeratedIds(once)
      && x.ring.Keys == once.ring.Keys
      && Visible(x) == Visible(once)
  {
    var head := Steady(answers);
    var once := Run(t, PassSteps(t, all, head, Mark, now));
    var goal := Targets(t, all, head);
    ListingAfterPass(t, all, answers, Mark, now);
    PassFacts(t, all, head, Mark, now);
    CleanScan(t, all, answers);
    hide ScanAll, Run, PassSteps, Entitled, NeedsLookup;
    forall id <- t.spots
      ensures id in Visible(x) <==> id in Listing(t, all, head)
      ensures id in Visible(x) ==> x.spots[id] == Settled(t, all, head, id)
    {
      assert AnswerFor(head, id) == answers(id);
    }
    assert Visible(x) == Listing(t, all, head);
    ModeratedFromVisible(x);
    ModeratedFromVisible(once);
    assert forall id <- goal :: id in x.ring;
  }

  // ------------------------------------------------------------- the worker

  lemma OldestIsUnique(spots: map<MessageId, Row>, m: int, n: int)
    requires IsOldest(spots, m) && IsOldest(spots, n)
    ensures m == n
  {}

  method OldestArticle(db: Database) returns (n: int)
    ensures n == Oldest(db.spots)
  {
    if db.spots == map[] {
      return 0;
    }
    var first :| first in db.spots;
    n := db.spots[first].spot.articleNum;
    var rest := db.spots.Keys - {first};
    while rest != {}
      invariant rest <= db.spots.Keys
      invariant exists m <- db.spots :: db.spots[m].spot.articleNum == n
      invariant forall m <- db.spots :: m in rest || n <= db.spots[m].spot.articleNum
    {
      var m :| m in rest;
      if db.spots[m].spot.articleNum < n {
        n := db.spots[m].spot.articleNum;
      }
      rest := rest - {m};
    }
    OldestIsUnique(db.spots, n, Oldest(db.spots));
  }

  /** What the world does to one run of sweepChunk: is the server there, which header lookups fail,
      what the clock shows, and is the checkpoint written? */
  datatype Conditions = Conditions(online: bool, drops: nat -> bool, now: int, saves: bool)

  /** The attempt these conditions make of the next chunk. */
  ghost function TryOf(c: Conditions, st: State, end: int, group: Group, answers: MessageId -> Answer,
      mode: Mode): Try {
    var cmds := ChunkCommands(group, Position(st), end);
    if c.online then
      Try(c.drops, c.now, |PassSteps(st.tables, cmds, Head(answers, c.drops), mode, c.now)|, c.saves, end)
    else Try(c.drops, c.now, 0, false, end)
  }

  /** Nothing forward-synced, nothing indexed, or the watermark reached. */
  ghost predicate Finished(st: State, end: int) {
    end == 0 || (st.checkpoint == 0 && Oldest(st.tables.spots) == 0) || Position(st) >= end
  }

  ghost predicate Numbered(t: Tables) {
    forall m <- t.spots :: t.spots[m].spot.articleNum >= 0
  }

  lemma PassKeepsNumbers(x: Tables, cmds: seq<Command>, head: Head, mode: Mode, now: int)
    requires mode != Off && Numbered(x)
    ensures var y := Run(x, PassSteps(x, cmds, head, mode, now));
      Numbered(y) && (y.spots == map[] || Oldest(y.spots) >= Oldest(x.spots))
  {
    var y := Run(x, PassSteps(x, cmds, head, mode, now));
    PassFacts(x, cmds, head, mode, now);
    ScanKeeps(x, cmds, head);
    hide Run, PassSteps, ScanAll, Entitled, NeedsLookup, Distinct;
    forall id <- y.spots ensures id in x.spots && y.spots[id].spot.articleNum == x.spots[id].spot.articleNum {
      assert Learned(x.spots[id], ScanAll(x, cmds, head).tables.spots[id], AnswerFor(head, id));
    }
  }

  /** An attempt under the given conditions, spelled out. */
  lemma AttemptIs(st: State, c: Conditions, group: Group, end: int, answers: MessageId -> Answer, mode: Mode)
    requires mode != Off && Position(st) < end
    ensures var pos, next := Position(st), ChunkEnd(Position(st), end);
      var cmds, head := ChunkCommands(group, pos, end), Head(answers, c.drops);
      var e := TryOf(c, st, end, group, answers, mode);
      var ok := c.online && c.saves && !ScanAll(st.tables, cmds, head).failed;
      var tables := if c.online then Run(st.tables, PassSteps(st.tables, cmds, head, mode, c.now)) else st.tables;
      && (Completes(st, e, group, answers, mode) <==> ok)
      && Attempted(st, e, group, answers, mode)
           == if ok then State(tables, next, st.ranges + [(pos + 1, next)]) else st.(tables := tables)
  {
    var steps := PassSteps(st.tables, ChunkCommands(group, Position(st), end), Head(answers, c.drops), mode, c.now);
    assert Prefix(steps, |steps|) == steps && Prefix(steps, 0) == [];
  }

  /** Nothing goes wrong. */
  ghost predicate Calm(c: Conditions) {
    c.online && c.saves && forall k :: !c.drops(k)
  }

  lemma CalmCompletes(st: State, c: Conditions, group: Group, end: int, answers: MessageId -> Answer, mode: Mode)
    requires mode != Off && Position(st) < end && Calm(c)
    ensures Completes(st, TryOf(c, st, end, group, answers, mode), group, answers, mode)
  {
    AttemptIs(st, c, group, end, answers, mode);
    ReliableNeverFails(st.tables, ChunkCommands(group, Position(st), end), Head(answers, c.drops));
  }

  method Withdrawals(lines: seq<Line>) returns (cmds: seq<Command>)
    ensures cmds == Commands(lines)
  {
    cmds := [];
    for i := 0 to |lines|
      invariant cmds == Commands(lines[..i])
    {
      assert lines[..i + 1][..i] == lines[..i];
      if lines[i].article.Withdrawal? {
        cmds := cmds + [lines[i].article.cmd];
      }
    }
    assert lines[..|lines|] == lines;
  }

  method SweepChunk(db: Database, state: SyncState, group: Group, answers: MessageId -> Answer, mode: Mode,
                    c: Conditions, ghost ranges: seq<(int, int)>)
    returns (done: bool, failed: bool, ghost ranges': seq<(int, int)>)
    requires db.Valid() && mode != Off
    modifies db, state`sweep
    ensures db.Valid()
    ensures var st, end := State(old(db.Contents()), old(state.sweep), ranges), state.forward;
      if Finished(st, end) then done && !failed && State(db.Contents(), state.sweep, ranges') == st
      else
        var e := TryOf(c, st, end, group, answers, mode);
        && State(db.Contents(), state.sweep, ranges') == Attempted(st, e, group, answers, mode)
        && failed == !Completes(st, e, group, answers, mode)
        && done == (!failed && state.sweep >= end)
  {
    hide WellFormed, PassSteps, ScanAll, Run, Overview, StatsOf, Tallied, Attempted, Completes, TryOf;
    ranges' := ranges;
    var end := state.forward;
    if end == 0 {
      return true, false, ranges';
    }
    var pos := state.sweep;
    if pos == 0 {
      var oldest := OldestArticle(db);
      if oldest == 0 {
        return true, false, ranges';
      }
      pos := oldest - 1;
    }
    if pos >= end {
      return true, false, ranges';
    }
    ghost var st := State(db.Contents(), state.sweep, ranges);
    AttemptIs(st, c, group, end, answers, mode);
    var next := if pos + CHUNK_SIZE > end then end else pos + CHUNK_SIZE;
    if !c.online {
      return false, true, ranges';
    }
    var cmds := Withdrawals(Overview(group, pos + 1, next));
    RunWellFormed(st.tables, PassSteps(st.tables, cmds, Head(answers, c.drops), mode, c.now));
    var _, lookupFailed := ApplyModeration(db, cmds, Head(answers, c.drops), mode, c.now);
    if lookupFailed || !c.saves {
      return false, true, ranges';
    }
    state.sweep := next;
    ranges' := ranges + [(pos + 1, next)];
    return next >= end, false, ranges';
  }

  /** Articles still to sweep. */
  ghost function Left(st: State, end: int): nat {
    if Finished(st, end) then 0 else end - Position(st)
  }

  /** No attempt loses ground, and one that completes gains some. */
  lemma AttemptProgresses(st: State, c: Conditions, group: Group, end: int, answers: MessageId -> Answer, mode: Mode)
    requires mode != Off && Numbered(st.tables) && st.checkpoint >= 0 && !Finished(st, end)
    ensures var e := TryOf(c, st, end, group, answers, mode);
      var st' := Attempted(st, e, group, answers, mode);
      && Numbered(st'.tables) && st'.checkpoint >= 0
      && Left(st', end) <= Left(st, end)
      && (Completes(st, e, group, answers, mode) ==> Left(st', end) < Left(st, end))
  {
    var cmds, head := ChunkCommands(group, Position(st), end), Head(answers, c.drops);
    var steps := PassSteps(st.tables, cmds, head, mode, c.now);
    assert Prefix(steps, |steps|) == steps && Prefix(steps, 0) == [];
    PassKeepsNumbers(st.tables, cmds, head, mode, c.now);
  }

  const MAX_FAILURES := 10

  /** The attempts are those that the conditions make, one after the other, none after a cancellation. */
  ghost predicate Follows(st: State, es: seq<Try>, weather: nat -> Conditions, cancelled: nat -> bool, end: int,
                          group: Group, answers: MessageId -> Answer, mode: Mode) {
    forall i | 0 <= i < |es| ::
      !cancelled(i) && es[i]
          == TryOf(weather(i), AttemptedAll(st, es[..i], group, answers, mode), end, group, answers, mode)
  }

  /** The last `n` attempts failed. */
  ghost predicate LastFailed(st: State, es: seq<Try>, n: nat, group: Group, answers: MessageId -> Answer, mode: Mode) {
    n <= |es| && forall i | |es| - n <= i < |es| ::
      !Completes(AttemptedAll(st, es[..i], group, answers, mode), es[i], group, answers, mode)
  }

  /** Of the attempts so far exactly the last `n` failed. */
  ghost predicate InARow(st: State, es: seq<Try>, n: nat, group: Group, answers: MessageId -> Answer, mode: Mode) {
    && LastFailed(st, es, n, group, answers, mode)
    && (n < |es| ==> var i := |es| - 1 - n;
          Completes(AttemptedAll(st, es[..i], group, answers, mode), es[i], group, answers, mode))
  }

  /** Nothing was attempted after ten failures in a row. */
  ghost predicate NeverBeyondTen(st: State, es: seq<Try>, group: Group, answers: MessageId -> Answer, mode: Mode) {
    forall j | 0 <= j < |es| :: !LastFailed(st, es[..j], 10, group, answers, mode)
  }

  lemma BelowTen(st: State, es: seq<Try>, e: Try, n: nat, group: Group, answers: MessageId -> Answer, mode: Mode)
    requires InARow(st, es, n, group, answers, mode) && n < 10 && NeverBeyondTen(st, es, group, answers, mode)
    ensures NeverBeyondTen(st, es + [e], group, answers, mode)
  {
    assert !LastFailed(st, es, 10, group, answers, mode);
    hide LastFailed;
    forall j | 0 <= j <= |es| ensures (es + [e])[..j] == es[..j] {}
    assert es[..|es|] == es;
  }

  lemma RowMore(st: State, es: seq<Try>, e: Try, n: nat, group: Group, answers: MessageId -> Answer, mode: Mode)
    requires InARow(st, es, n, group, answers, mode)
    ensures var ok := Completes(AttemptedAll(st, es, group, answers, mode), e, group, answers, mode);
      InARow(st, es + [e], if ok then 0 else n + 1, group, answers, mode)
  {
    hide Completes, AttemptedAll;
    var more := es + [e];
    forall i | 0 <= i <= |es| ensures more[..i] == es[..i] {}
    assert es[..|es|] == es && more[|es|] == e;
  }

  lemma FollowsMore(st: State, es: seq<Try>, weather: nat -> Conditions, cancelled: nat -> bool, end: int,
                    group: Group, answers: MessageId -> Answer, mode: Mode)
    requires Follows(st, es, weather, cancelled, end, group, answers, mode) && !cancelled(|es|)
    ensures var u := AttemptedAll(st, es, group, answers, mode);
      var e := TryOf(weather(|es|), u, end, group, answers, mode);
      && AttemptedAll(st, es + [e], group, answers, mode) == Attempted(u, e, group, answers, mode)
      && Follows(st, es + [e], weather, cancelled, end, group, answers, mode)
  {
    hide TryOf, Attempted, Completes, AttemptedAll;
    var u := AttemptedAll(st, es, group, answers, mode);
    var e := TryOf(weather(|es|), u, end, group, answers, mode);
    var more := es + [e];
    OneAttemptMore(st, es, e, group, answers, mode);
    forall i | 0 <= i < |more| ensures more[..i] == if i < |es| then es[..i] else es {}
  }

  lemma OneAttemptMore(st: State, es: seq<Try>, e: Try, group: Group, answers: MessageId -> Answer, mode: Mode)
    ensures AttemptedAll(st, es + [e], group, answers, mode)
         == Attempted(AttemptedAll(st, es, group, answers, mode), e, group, answers, mode)
  {
    hide Attempted;
    assert (es + [e])[..|es + [e]| - 1] == es;
  }

  /** sweepGroup: chunk after chunk; ten failures in a row or a cancelled context end it, and the next
      start resumes from the checkpoint. When nothing goes wrong it completes. */
  method SweepGroup(db: Database, state: SyncState, group: Group, answers: MessageId -> Answer, mode: Mode,
                    weather: nat -> Conditions, cancelled: nat -> bool, ghost ranges: seq<(int, int)>)
    returns (complete: bool, ghost es: seq<Try>, ghost ranges': seq<(int, int)>)
    requires db.Valid() && mode != Off && Numbered(db.Contents()) && state.sweep >= 0
    modifies db, state`sweep
    ensures db.Valid()
    ensures var st := State(old(db.Contents()), old(state.sweep), ranges);
      && State(db.Contents(), state.sweep, ranges') == AttemptedAll(st, es, group, answers, mode)
      && Follows(st, es, weather, cancelled, state.forward, group, answers, mode)
      && (complete ==> Finished(AttemptedAll(st, es, group, answers, mode), state.forward))
      && (!complete ==> cancelled(|es|) || LastFailed(st, es, 10, group, answers, mode))
      && NeverBeyondTen(st, es, group, answers, mode)
    ensures (forall k :: Calm(weather(k)) && !cancelled(k)) ==> complete
  {
    hide WellFormed, AttemptedAll, Attempted, Completes, TryOf, Finished, Left;
    hide Calm, Follows, LastFailed, Position, Numbered, InARow, NeverBeyondTen;
    complete, es, ranges' := false, [], ranges;
    ghost var st0, end := State(db.Contents(), state.sweep, ranges), state.forward;
    var failures, n := 0, 0;
    NoneFollow(st0, weather, cancelled, end, group, answers, mode);
    while true
      invariant n == |es| && failures < MAX_FAILURES
      invariant db.Valid() && Numbered(db.Contents()) && state.sweep >= 0
      invariant State(db.Contents(), state.sweep, ranges') == AttemptedAll(st0, es, group, answers, mode)
      invariant Follows(st0, es, weather, cancelled, end, group, answers, mode)
      invariant InARow(st0, es, failures, group, answers, mode) && NeverBeyondTen(st0, es, group, answers, mode)
      invariant (forall k :: Calm(weather(k)) && !cancelled(k)) ==> failures == 0
      decreases Left(State(db.Contents(), state.sweep, ranges'), state.forward), MAX_FAILURES - failures
    {
      if cancelled(n) {
        return;
      }
      ghost var st := State(db.Contents(), state.sweep, ranges');
      var done, failed;
      done, failed, ranges' := SweepChunk(db, state, group, answers, mode, weather(n), ranges');
      if Finished(st, end) {
        NothingLeft(st, end);
      } else {
        NotYet(st, end);
        DoneIsFinished(st, weather(n), group, end, answers, mode);
        AttemptProgresses(st, weather(n), group, end, answers, mode);
        FollowsMore(st0, es, weather, cancelled, end, group, answers, mode);
        BelowTen(st0, es, TryOf(weather(n), st, end, group, answers, mode), failures, group, answers, mode);
        RowMore(st0, es, TryOf(weather(n), st, end, group, answers, mode), failures, group, answers, mode);
        if Calm(weather(n)) { CalmCompletes(st, weather(n), group, end, answers, mode); }
        es := es + [TryOf(weather(n), st, end, group, answers, mode)];
      }
      n := n + 1;
      if failed {
        failures := failures + 1;
        if failures >= MAX_FAILURES {
          RowIsLast(st0, es, failures, group, answers, mode);
          return;
        }
        continue;
      }
      failures := 0;
      if done {
        complete := true;
        return;
      }
    }
  }

  lemma NoneFollow(st: State, weather: nat -> Conditions, cancelled: nat -> bool, end: int, group: Group,
                   answers: MessageId -> Answer, mode: Mode)
    ensures AttemptedAll(st, [], group, answers, mode) == st
    ensures Follows(st, [], weather, cancelled, end, group, answers, mode)
        && InARow(st, [], 0, group, answers, mode) && NeverBeyondTen(st, [], group, answers, mode)
  {}

  lemma RowIsLast(st: State, es: seq<Try>, n: nat, group: Group, answers: MessageId -> Answer, mode: Mode)
    requires InARow(st, es, n, group, answers, mode)
    ensures LastFailed(st, es, n, group, answers, mode)
  {}

  lemma NothingLeft(st: State, end: int)
    requires Finished(st, end)
    ensures Left(st, end) == 0
  {}

  lemma NotYet(st: State, end: int)
    requires !Finished(st, end)
    ensures Position(st) < end && Left(st, end) > 0
  {}

  lemma DoneIsFinished(st: State, c: Conditions, group: Group, end: int, answers: MessageId -> Answer, mode: Mode)
    requires !Finished(st, end)
    ensures var e := TryOf(c, st, end, group, answers, mode);
      var u := Attempted(st, e, group, answers, mode);
      Completes(st, e, group, answers, mode) && u.checkpoint >= end ==> Finished(u, end)
  {}
}
