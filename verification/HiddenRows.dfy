/** What the workers' events do to the tables: inserts, then a part of the writes of one pass over
    withdrawals. Behind every result about listings: the workers never take an id out of the ring, and in
    every run exactly the rows of ids in the ring are hidden. */
module HiddenRows {
  import opened Store
  import opened StoreInvariants
  import opened Moderation
  import opened Chunk
  import opened Server
  import opened ForwardSync

  /** Exactly the rows of ids in the ring are hidden. */
  ghost predicate RingIsHidden(t: Tables) {
    forall id <- t.spots :: t.spots[id].spot.moderated <==> id in t.ring
  }

  /** What the three workers do to the tables. */
  predicate WorkerStep(s: Step) {
    PassStep(s) || (s.InsertSpots? && forall x <- s.spots :: !x.moderated)
  }

  lemma StepHides(t: Tables, s: Step)
    requires RingIsHidden(t) && WorkerStep(s)
    ensures RingIsHidden(Apply(t, s)) && t.ring.Keys <= Apply(t, s).ring.Keys
  {
    match s
    case InsertSpots(spots) =>
      InsertAllRows(t, spots);
      forall id | id in InsertAll(t, spots).spots && id !in t.spots
        ensures !InsertAll(t, spots).spots[id].spot.moderated
      {
        FirstIsOffered(spots, id);
      }
    case MarkModerated(ids, now) => MarkAllFacts(t, ids, now);
    case _ =>
  }

  lemma {:induction false} RunHides(t: Tables, steps: seq<Step>)
    requires RingIsHidden(t) && forall s <- steps :: PassStep(s)
    ensures RingIsHidden(Run(t, steps)) && t.ring.Keys <= Run(t, steps).ring.Keys
  {
    if steps != [] {
      var last := steps[|steps| - 1];
      assert last in steps;
      RunHides(t, steps[..|steps| - 1]);
      StepHides(Run(t, steps[..|steps| - 1]), last);
    }
  }

  // ------------------------------------------------------------ what an event does

  /** The event has article `b` before it. */
  predicate Covers(st: State, e: Event, b: int) {
    match e
    case ReadChunk(_, _, _, _) => st.pass.At? && st.pass.next <= b <= ChunkTo(st.pass.next, st.pass.last)
    case Crash(_, _, _, _) => st.pass.At? && st.pass.next <= b <= ChunkTo(st.pass.next, st.pass.last)
    case SweepPart(lo, hi, _, _, _) => lo <= b <= hi
    case _ => false
  }

  /** The event offers the table the accepted spots of a range with article `n` in it. */
  predicate Gives(st: State, e: Event, n: int) {
    match e
    case ReadChunk(_, _, stored, _) => stored && Covers(st, e, n)
    case Crash(_, _, stored, steps) => stored && steps > 0 && Covers(st, e, n)
    case BackfillChunk(lo, hi) => hi < st.start && lo <= n <= hi
    case _ => false
  }

  /** What it inserts. */
  function Inserts(w: World, st: State, e: Event): seq<Spot> {
    match e
    case ReadChunk(_, _, stored, _) => if st.pass.At? then Stored(w, st.pass, stored) else []
    case Crash(_, _, stored, steps) => if st.pass.At? && steps > 0 then Stored(w, st.pass, stored) else []
    case BackfillChunk(lo, hi) => if hi < st.start then Posts(Overview(w.group, lo, hi), w.verifySignatures) else []
    case _ => []
  }

  /** The withdrawals it judges. */
  function Judged(w: World, st: State, e: Event): seq<Command> {
    match e
    case ReadChunk(_, _, _, _) => if st.pass.At? then Disposes(Lines(w, st.pass), w.mode) else []
    case Crash(_, _, _, _) => if st.pass.At? then Disposes(Lines(w, st.pass), w.mode) else []
    case SweepPart(lo, hi, _, _, _) => Commands(Overview(w.group, lo, hi))
    case _ => []
  }

  function Full(w: World, x: Tables, st: State, e: Event): seq<Step>
    requires e.ReadChunk? || e.Crash? || e.SweepPart?
  {
    PassSteps(x, Judged(w, st, e), Head(w.answers, e.drops), w.mode, e.now)
  }

  /** What it writes after its inserts: all or the beginning of one pass. */
  function After(w: World, st: State, e: Event): seq<Step> {
    var x := InsertAll(st.tables, Inserts(w, st, e));
    match e
    case ReadChunk(_, _, _, _) => if st.pass.At? then Full(w, x, st, e) else []
    case Crash(_, _, _, steps) => if st.pass.At? && steps > 0 then Prefix(Full(w, x, st, e), steps - 1) else []
    case SweepPart(_, _, _, _, steps) => Prefix(Full(w, x, st, e), steps)
    case _ => []
  }

  lemma EventIs(w: World, st: State, e: Event)
    ensures Sync(w, st, e).tables == Run(InsertAll(st.tables, Inserts(w, st, e)), After(w, st, e))
  {
    hide Run, PassSteps, Overview, Commands, Posts, Disposes, Stored, Lines;
    NoSteps(InsertAll(st.tables, Inserts(w, st, e)));
    match e
    case ReadChunk(drops, now, stored, _) =>
      if st.pass.At? { ChunkWhole(w, st.tables, st.pass, drops, now, stored); }
    case Crash(drops, now, stored, steps) =>
      if st.pass.At? {
        ChunkRun(st.tables, Stored(w, st.pass, stored), Disposes(Lines(w, st.pass), w.mode), Head(w.answers, drops),
                 w.mode, now, steps);
      }
    case _ =>
  }

  // ------------------------------------------------------- every event is work

  /** Articles an event covers or gives. */
  lemma Offered(w: World, st: State, e: Event)
    ensures forall s <- Inserts(w, st, e) ::
      exists n :: Gives(st, e, n) && PostedAs(w, n, s.messageId) && w.group[n].spot == s
    ensures forall n, id | Gives(st, e, n) && PostedAs(w, n, id) :: w.group[n].spot in Inserts(w, st, e)
    ensures forall c <- Judged(w, st, e) :: exists b :: Covers(st, e, b) && b in w.group && w.group[b] == Withdrawal(c)
    ensures forall b | Covers(st, e, b) && b in w.group && w.group[b].Withdrawal? && w.group[b].cmd.verified
        && w.mode != Off ::
      w.group[b].cmd in Judged(w, st, e)
  {
    match e
    case ReadChunk(_, _, stored, _) => if st.pass.At? { OfChunk(w, st.pass, stored); }
    case Crash(_, _, stored, _) => if st.pass.At? { OfChunk(w, st.pass, stored); }
    case SweepPart(lo, hi, _, _, _) => OfRange(w, lo, hi);
    case BackfillChunk(lo, hi) => PostsOffered(w, lo, hi);
    case _ =>
  }

  lemma OfRange(w: World, lo: int, hi: int)
    ensures forall c <- Commands(Overview(w.group, lo, hi)) ::
      exists b :: lo <= b <= hi && b in w.group && w.group[b] == Withdrawal(c)
    ensures forall b | lo <= b <= hi && b in w.group && w.group[b].Withdrawal? ::
      w.group[b].cmd in Commands(Overview(w.group, lo, hi))
  {
    OverviewHas(w.group, lo, hi);
    CommandsHas(Overview(w.group, lo, hi));
    forall b | lo <= b <= hi && b in w.group && w.group[b].Withdrawal?
      ensures w.group[b].cmd in Commands(Overview(w.group, lo, hi))
    {
      assert Line(b, w.group[b]) in Overview(w.group, lo, hi);
    }
  }

  lemma OfChunk(w: World, pass: Pass, stored: bool)
    requires pass.At?
    ensures var from, till := pass.next, ChunkTo(pass.next, pass.last);
      && OfferedIn(w, Stored(w, pass, stored), from, till)
      && (stored ==> OffersAll(w, Stored(w, pass, stored), from, till))
      && (forall c <- Disposes(Lines(w, pass), w.mode) ::
            exists b :: from <= b <= till && b in w.group && w.group[b] == Withdrawal(c))
      && (forall b | from <= b <= till && b in w.group && w.group[b].Withdrawal? && w.group[b].cmd.verified
            && w.mode != Off :: w.group[b].cmd in Disposes(Lines(w, pass), w.mode))
  {
    StoredOffered(w, pass, stored);
    DisposesOfRange(w, pass.next, ChunkTo(pass.next, pass.last));
    OverviewHas(w.group, pass.next, ChunkTo(pass.next, pass.last));
    DisposesHas(Lines(w, pass), w.mode);
  }

  /** The writes of an event are the beginning of one pass. */
  lemma AfterIs(w: World, st: State, e: Event) returns (k: nat)
    ensures After(w, st, e) == []
         || ((e.ReadChunk? || e.Crash? || e.SweepPart?)
             && After(w, st, e) == Prefix(Full(w, InsertAll(st.tables, Inserts(w, st, e)), st, e), k))
  {
    hide PassSteps, Inserts, Judged;
    if e.ReadChunk? {
      k := |Full(w, InsertAll(st.tables, Inserts(w, st, e)), st, e)|;
    } else {
      k := if e.Crash? && e.steps > 0 then e.steps - 1 else if e.SweepPart? then e.steps else 0;
    }
  }

  lemma AfterIsWork(w: World, st: State, e: Event)
    ensures forall s <- After(w, st, e) :: PassStep(s)
  {
    var k := AfterIs(w, st, e);
    var x := InsertAll(st.tables, Inserts(w, st, e));
    hide PassSteps, Inserts, Judged, After;
    if After(w, st, e) != [] {
      PassIsWork(x, Judged(w, st, e), Head(w.answers, e.drops), w.mode, e.now);
    }
  }

  lemma InsertsAreWork(w: World, st: State, e: Event)
    requires Proper(w)
    ensures WorkerStep(InsertSpots(Inserts(w, st, e)))
  {
    Offered(w, st, e);
    hide Inserts, Gives, Covers, Judged;
  }

  lemma EventHides(w: World, st: State, e: Event)
    requires Proper(w) && RingIsHidden(st.tables)
    ensures RingIsHidden(Sync(w, st, e).tables) && st.tables.ring.Keys <= Sync(w, st, e).tables.ring.Keys
  {
    hide RingIsHidden, Run, After, Inserts, Sync, WorkerStep, PassStep;
    EventIs(w, st, e);
    InsertsAreWork(w, st, e);
    StepHides(st.tables, InsertSpots(Inserts(w, st, e)));
    AfterIsWork(w, st, e);
    RunHides(InsertAll(st.tables, Inserts(w, st, e)), After(w, st, e));
  }

  /** In every run, failed inserts included, exactly the rows of ids in the ring are hidden. */
  lemma {:induction false} EveryRunHides(w: World, es: seq<Event>)
    requires Proper(w)
    ensures RingIsHidden(SyncAll(w, FRESH, es).tables)
  {
    hide Sync, RingIsHidden;
    if es == [] {
      NothingHidden();
    } else {
      EveryRunHides(w, es[..|es| - 1]);
      EventHides(w, SyncAll(w, FRESH, es[..|es| - 1]), es[|es| - 1]);
    }
  }

  lemma NothingHidden()
    ensures RingIsHidden(FRESH.tables)
  {}

  /** ... and what is in the ring stays there. */
  lemma {:induction false} RingGrows(w: World, es: seq<Event>, later: seq<Event>)
    requires Proper(w)
    ensures SyncAll(w, FRESH, es).tables.ring.Keys <= SyncAll(w, FRESH, es + later).tables.ring.Keys
  {
    hide Sync;
    if later == [] {
      assert es + later == es;
    } else {
      var init := es + later[..|later| - 1];
      RingGrows(w, es, later[..|later| - 1]);
      assert (es + later)[..|es + later| - 1] == init;
      EveryRunHides(w, init);
      EventHides(w, SyncAll(w, FRESH, init), later[|later| - 1]);
    }
  }

  // ------------------------------------------------------------ sound tables

  lemma InsertsOfRange(w: World, st: State, e: Event) returns (lo: int, hi: int)
    ensures OfferedIn(w, Inserts(w, st, e), lo, hi)
  {
    lo, hi := 0, 0;
    match e
    case ReadChunk(_, _, stored, _) =>
      if st.pass.At? {
        lo, hi := st.pass.next, ChunkTo(st.pass.next, st.pass.last);
        StoredOffered(w, st.pass, stored);
      }
    case Crash(_, _, stored, _) =>
      if st.pass.At? {
        lo, hi := st.pass.next, ChunkTo(st.pass.next, st.pass.last);
        StoredOffered(w, st.pass, stored);
      }
    case BackfillChunk(from, till) =>
      lo, hi := from, till;
      PostsOffered(w, from, till);
    case _ =>
  }

  /** What the event's pass starts from. */
  lemma InsertsAreSound(w: World, st: State, e: Event)
    requires Proper(w) && Sound(w, st.tables)
    ensures Sound(w, InsertAll(st.tables, Inserts(w, st, e)))
  {
    hide Inserts, Sound;
    var lo, hi := InsertsOfRange(w, st, e);
    InsertIsSound(w, st.tables, Inserts(w, st, e), lo, hi);
  }

  lemma EventIsSound(w: World, st: State, e: Event)
    requires Proper(w) && Sound(w, st.tables)
    ensures Sound(w, Sync(w, st, e).tables)
  {
    var x := InsertAll(st.tables, Inserts(w, st, e));
    hide Sound, After, Inserts, Sync, Judged, Run, PassSteps, Gives, Covers;
    EventIs(w, st, e);
    InsertsAreSound(w, st, e);
    NoSteps(x);
    Offered(w, st, e);
    var k := AfterIs(w, st, e);
    if After(w, st, e) != [] {
      PassPart(w, x, Judged(w, st, e), e.drops, e.now, k);
    }
  }

  /** In every run, failed inserts included, every row is some article's and only withdrawn spots are hidden. */
  lemma {:induction false} EveryRunIsSound(w: World, es: seq<Event>)
    requires Proper(w)
    ensures Sound(w, SyncAll(w, FRESH, es).tables)
  {
    hide Sync, Sound;
    if es == [] {
      NothingYet(w);
    } else {
      EveryRunIsSound(w, es[..|es| - 1]);
      EventIsSound(w, SyncAll(w, FRESH, es[..|es| - 1]), es[|es| - 1]);
    }
  }
}
