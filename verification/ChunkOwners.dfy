/** Re-running a chunk in mark mode: when do the stored owners come out the same too?

    Not always. When an owner lookup fails, the rest of the batch is judged without lookups; a
    moderator's command then withdraws its target unread, and the next run skips that row because it
    is already moderated. The owner that an uninterrupted run had stored a moment before stays
    unknown. This module gives the input, and the exact condition under which it cannot happen. */
module ChunkOwners {
  import opened Store
  import opened StoreInvariants
  import opened Moderation
  import opened ApplyingModeration
  import opened Chunk

  /** The network moderator withdraws `id` somewhere in these commands. */
  ghost predicate Overruled(cmds: seq<Command>, id: MessageId) {
    exists c <- cmds :: c.target == id && c.verified && c.moderator
  }

  /** A personal withdrawal needs the headers of `id` before any moderator's command names it. */
  ghost predicate ReadFirst(cmds: seq<Command>, row: Row, id: MessageId) {
    cmds != [] &&
    var init, last := cmds[..|cmds| - 1], cmds[|cmds| - 1];
    ReadFirst(init, row, id) || (last.target == id && Personal(last, row) && !Overruled(init, id))
  }

  /** What the headers say would change the row. */
  predicate Tells(row: Row, a: Answer) {
    a.Key? && Answered(row, a) != row
  }

  /** The row a run on a steady connection has after its lookups. */
  ghost function Read(cmds: seq<Command>, row: Row, id: MessageId, a: Answer): Row {
    if ReadFirst(cmds, row, id) then Answered(row, a) else row
  }

  /** A spot that a lost connection can withdraw unread: a personal withdrawal asks for its headers,
      and a moderator's command follows. */
  ghost predicate Overtakable(cmds: seq<Command>, row: Row, id: MessageId, a: Answer) {
    Tells(row, a) && ReadFirst(cmds, row, id) && Overruled(cmds, id)
  }

  // ------------------------------------------------ one spot through a scan

  ghost predicate OrderInv(row: Row, cmds: seq<Command>, head: Head, s: Scan, id: MessageId) {
    var a := AnswerFor(head, id);
    && id in s.tables.spots
    && var r := s.tables.spots[id];
    && (r == row || (a.Key? && r == Answered(row, a) && ReadFirst(cmds, row, id)))
    && (Overruled(cmds, id) && !row.spot.moderated ==> id in s.targets)
    && (!s.failed && head.Head? ==> r == Read(cmds, row, id, a))
    && (id in s.targets ==> !row.spot.moderated)
    && (id in s.targets && !Overruled(cmds, id) && row.spot.owner == "" ==> a.Key? && r == Answered(row, a))
    && (forall e <- s.effects :: e.SetSpotOwner?
          && (e.id == id ==> a == Key(e.owner, e.verified) && ReadFirst(cmds, row, id)))
  }

  lemma OverruledGrows(cmds: seq<Command>, cmd: Command, id: MessageId)
    ensures Overruled(cmds + [cmd], id) <==> Overruled(cmds, id) || (id == cmd.target && cmd.verified && cmd.moderator)
  {
    assert forall c :: c in cmds + [cmd] <==> c in cmds || c == cmd;
  }

  lemma {:induction false} ReadFirstIsUnread(cmds: seq<Command>, row: Row, id: MessageId)
    requires ReadFirst(cmds, row, id)
    ensures row.spot.owner == "" && !row.spot.moderated
  {
    if ReadFirst(cmds[..|cmds| - 1], row, id) {
      ReadFirstIsUnread(cmds[..|cmds| - 1], row, id);
    }
  }

  /** A visit to another spot's withdrawal. */
  lemma VisitElsewhere(cmd: Command, head: Head, s: Scan, id: MessageId)
    requires cmd.target != id && id in s.tables.spots
    ensures var s' := Visit(s, cmd, head);
      && id in s'.tables.spots && s'.tables.spots[id] == s.tables.spots[id]
      && (id in s'.targets <==> id in s.targets)
      && (s.failed ==> s'.failed)
      && (forall e <- s'.effects :: e in s.effects || (e.SetSpotOwner? && e.id == cmd.target))
  {}

  lemma VisitOther(row: Row, cmds: seq<Command>, cmd: Command, head: Head, s: Scan, id: MessageId)
    requires OrderInv(row, cmds, head, s, id) && cmd.target != id
    ensures OrderInv(row, cmds + [cmd], head, Visit(s, cmd, head), id)
  {
    hide Visit;
    VisitElsewhere(cmd, head, s, id);
    OverruledGrows(cmds, cmd, id);
    assert (cmds + [cmd])[..|cmds|] == cmds;
  }

  lemma VisitSelf(row: Row, cmds: seq<Command>, cmd: Command, head: Head, s: Scan, id: MessageId)
    requires OrderInv(row, cmds, head, s, id) && cmd.target == id
    ensures OrderInv(row, cmds + [cmd], head, Visit(s, cmd, head), id)
  {
    OverruledGrows(cmds, cmd, id);
    assert (cmds + [cmd])[..|cmds|] == cmds;
    if ReadFirst(cmds, row, id) { ReadFirstIsUnread(cmds, row, id); }
    assert ReadFirst(cmds + [cmd], row, id) <==>
      (ReadFirst(cmds, row, id) || (Personal(cmd, row) && !Overruled(cmds, id)));
    hide ReadFirst, Overruled, WithinDisposeWindow;
    if !cmd.verified || id in s.targets || s.tables.spots[id].spot.moderated {
      hide LookUp, Judge, Queue;
    } else if cmd.moderator {
      hide LookUp, Judge;
    }
  }

  lemma {:induction false} ScanOrder(t: Tables, cmds: seq<Command>, head: Head, id: MessageId)
    requires id in t.spots
    ensures OrderInv(t.spots[id], cmds, head, ScanAll(t, cmds, head), id)
  {
    if cmds != [] {
      var init, last := cmds[..|cmds| - 1], cmds[|cmds| - 1];
      ScanOrder(t, init, head, id);
      if last.target == id {
        VisitSelf(t.spots[id], init, last, head, ScanAll(t, init, head), id);
      } else {
        VisitOther(t.spots[id], init, last, head, ScanAll(t, init, head), id);
      }
      assert init + [last] == cmds;
    }
  }

  // -------------------------------------------- one spot through the attempts

  /** The row of `id` somewhere between the first run's starting point and its end. */
  ghost predicate Underway(row: Row, r: Row, cmds: seq<Command>, id: MessageId, a: Answer) {
    if row.spot.moderated then r == row
    else if r.spot.moderated then Unmarked(r) == Read(cmds, row, id, a)
    else r == row || (a.Key? && r == Answered(row, a) && ReadFirst(cmds, row, id))
  }

  lemma {:induction false} ReadFirstAgain(cmds: seq<Command>, row: Row, a: Answer, id: MessageId)
    requires a.Key?
    ensures ReadFirst(cmds, Answered(row, a), id) ==> ReadFirst(cmds, row, id) || row.spot.owner != ""
    ensures a.owner == "" && row.spot.owner == ""
        ==> (ReadFirst(cmds, Answered(row, a), id) <==> ReadFirst(cmds, row, id))
  {
    if cmds != [] {
      ReadFirstAgain(cmds[..|cmds| - 1], row, a, id);
    }
  }

  /** A scan leaves the row underway, and queues it only with the owner a steady run has. */
  lemma ScanUnderway(row: Row, x: Tables, cmds: seq<Command>, answers: MessageId -> Answer, drops: nat -> bool,
      id: MessageId)
    requires id in x.spots && Underway(row, x.spots[id], cmds, id, answers(id))
    requires !Overtakable(cmds, row, id, answers(id))
    ensures var s := ScanAll(x, cmds, Head(answers, drops));
      && id in s.tables.spots
      && (s.tables.spots[id].spot.moderated == x.spots[id].spot.moderated)
      && Underway(row, s.tables.spots[id], cmds, id, answers(id))
      && (id in s.targets ==> !row.spot.moderated && s.tables.spots[id] == Read(cmds, row, id, answers(id)))
  {
    var a, r, head := answers(id), x.spots[id], Head(answers, drops);
    ScanOrder(x, cmds, head, id);
    if a.Key? { ReadFirstAgain(cmds, row, a, id); }
    if ReadFirst(cmds, row, id) { ReadFirstIsUnread(cmds, row, id); }
    if ReadFirst(cmds, r, id) { ReadFirstIsUnread(cmds, r, id); }
  }

  lemma {:induction false} EffectsOn(x: Tables, effects: seq<Step>, id: MessageId, a: Answer)
    requires id in x.spots
    requires forall e <- effects :: e.SetSpotOwner? && (e.id == id ==> a == Key(e.owner, e.verified))
    ensures var y := Run(x, effects);
      && id in y.spots
      && (y.spots[id] == x.spots[id]
          || (a.Key? && y.spots[id] == Answered(x.spots[id], a) && exists e <- effects :: e.id == id))
  {
    if effects != [] {
      EffectsOn(x, effects[..|effects| - 1], id, a);
      var last := effects[|effects| - 1];
      assert last in effects && forall e <- effects[..|effects| - 1] :: e in effects;
    }
  }

  lemma LearnedUnderway(row: Row, r: Row, cmds: seq<Command>, id: MessageId, a: Answer)
    requires Underway(row, r, cmds, id, a) && a.Key? && ReadFirst(cmds, r, id)
    ensures Underway(row, Answered(r, a), cmds, id, a)
  {
    ReadFirstIsUnread(cmds, r, id);
    ReadFirstAgain(cmds, row, a, id);
  }

  lemma LookupsUnderway(row: Row, x: Tables, cmds: seq<Command>, head: Head, k: nat, id: MessageId)
    requires id in x.spots && Underway(row, x.spots[id], cmds, id, AnswerFor(head, id))
    requires k <= |ScanAll(x, cmds, head).effects|
    ensures var y := Run(x, ScanAll(x, cmds, head).effects[..k]);
      id in y.spots && Underway(row, y.spots[id], cmds, id, AnswerFor(head, id))
  {
    var a, effects := AnswerFor(head, id), ScanAll(x, cmds, head).effects;
    ScanOrder(x, cmds, head, id);
    EffectsOn(x, effects[..k], id, a);
    if Run(x, effects[..k]).spots[id] != x.spots[id] {
      LearnedUnderway(row, x.spots[id], cmds, id, a);
    }
  }

  lemma MarksUnderway(row: Row, x: Tables, cmds: seq<Command>, answers: MessageId -> Answer, drops: nat -> bool,
                      now: int, id: MessageId)
    requires id in x.spots && Underway(row, x.spots[id], cmds, id, answers(id))
    requires !Overtakable(cmds, row, id, answers(id))
    ensures var s := ScanAll(x, cmds, Head(answers, drops));
      var y := Run(s.tables, Consequence(s.targets, Mark, now));
      id in y.spots && Underway(row, y.spots[id], cmds, id, answers(id))
  {
    var s := ScanAll(x, cmds, Head(answers, drops));
    ScanUnderway(row, x, cmds, answers, drops, id);
    if s.targets != [] {
      RunOne(s.tables, MarkModerated(s.targets, now));
      MarkAllFacts(s.tables, s.targets, now);
      if id in s.targets && ReadFirst(cmds, row, id) { ReadFirstIsUnread(cmds, row, id); }
    }
  }

  lemma PassPrefixUnderway(row: Row, x: Tables, cmds: seq<Command>, answers: MessageId -> Answer, drops: nat -> bool,
                           now: int, k: nat, id: MessageId)
    requires id in x.spots && Underway(row, x.spots[id], cmds, id, answers(id))
    requires !Overtakable(cmds, row, id, answers(id))
    ensures var y := Run(x, Prefix(PassSteps(x, cmds, Head(answers, drops), Mark, now), k));
      id in y.spots && Underway(row, y.spots[id], cmds, id, answers(id))
  {
    var s := ScanAll(x, cmds, Head(answers, drops));
    var rest := Consequence(s.targets, Mark, now);
    if k <= |s.effects| {
      assert Prefix(s.effects + rest, k) == s.effects[..k];
      LookupsUnderway(row, x, cmds, Head(answers, drops), k, id);
    } else {
      assert Prefix(s.effects + rest, k) == s.effects + rest;
      RunConcat(x, s.effects, rest);
      ScanKeeps(x, cmds, Head(answers, drops));
      MarksUnderway(row, x, cmds, answers, drops, now, id);
    }
  }

  lemma {:induction false} AttemptsUnderway(t: Tables, spots: seq<Spot>, cmds: seq<Command>,
      answers: MessageId -> Answer, attempts: seq<Attempt>, id: MessageId)
    requires FromOverview(spots)
    requires id in InsertAll(t, spots).spots
    requires !Overtakable(cmds, InsertAll(t, spots).spots[id], id, answers(id))
    ensures var row := InsertAll(t, spots).spots[id];
      var x := InsertAll(AfterAttempts(t, spots, cmds, answers, Mark, attempts), spots);
      id in x.spots && Underway(row, x.spots[id], cmds, id, answers(id))
  {
    if attempts != [] {
      var init, a := attempts[..|attempts| - 1], attempts[|attempts| - 1];
      var row := InsertAll(t, spots).spots[id];
      var u := AfterAttempts(t, spots, cmds, answers, Mark, init);
      var x := InsertAll(u, spots);
      AttemptsUnderway(t, spots, cmds, answers, init, id);
      ChunkRun(u, spots, cmds, Head(answers, a.drops), Mark, a.now, a.steps);
      if a.steps > 0 {
        PassPrefixUnderway(row, x, cmds, answers, a.drops, a.now, a.steps - 1, id);
        InsertAllRows(AfterAttempts(t, spots, cmds, answers, Mark, attempts), spots);
      }
    }
  }

  /** The completed run: every row is read if a steady run reads it, and marked if withdrawn. */
  lemma CompletedRow(t: Tables, spots: seq<Spot>, cmds: seq<Command>, answers: MessageId -> Answer,
                     attempts: seq<Attempt>, now: int, id: MessageId)
    requires FromOverview(spots)
    requires id in InsertAll(t, spots).spots
    requires !Overtakable(cmds, InsertAll(t, spots).spots[id], id, answers(id))
    ensures var row := InsertAll(t, spots).spots[id];
      var f := Complete(AfterAttempts(t, spots, cmds, answers, Mark, attempts), spots, cmds, answers, Mark, now);
      && id in f.spots
      && (row.spot.moderated ==> f.spots[id] == row)
      && (!row.spot.moderated && f.spots[id].spot.moderated ==>
            Unmarked(f.spots[id]) == Read(cmds, row, id, answers(id)))
  {
    var u := AfterAttempts(t, spots, cmds, answers, Mark, attempts);
    var x := InsertAll(u, spots);
    var steps := PassSteps(x, cmds, Steady(answers), Mark, now);
    AttemptsUnderway(t, spots, cmds, answers, attempts, id);
    CompleteIs(u, spots, cmds, answers, Mark, now);
    assert Prefix(steps, |steps|) == steps;
    PassPrefixUnderway(InsertAll(t, spots).spots[id], x, cmds, answers, (k: nat) => false, now, |steps|, id);
  }

  lemma SameRows(t: Tables, spots: seq<Spot>, cmds: seq<Command>, answers: MessageId -> Answer,
                 attempts: seq<Attempt>, now: int, now': int)
    requires FromOverview(spots)
    requires var x := InsertAll(t, spots); forall id <- x.spots :: !Overtakable(cmds, x.spots[id], id, answers(id))
    ensures Complete(AfterAttempts(t, spots, cmds, answers, Mark, attempts), spots, cmds, answers, Mark, now').spots
         == Complete(t, spots, cmds, answers, Mark, now).spots
  {
    var f := Complete(t, spots, cmds, answers, Mark, now);
    var g := Complete(AfterAttempts(t, spots, cmds, answers, Mark, attempts), spots, cmds, answers, Mark, now');
    RerunGivesTheSameMarks(t, spots, cmds, answers, attempts, now, now');
    RerunGivesTheSameListing(t, spots, cmds, answers, Mark, attempts, now, now');
    assert AfterAttempts(t, spots, cmds, answers, Mark, []) == t;
    KeysOfCompletion(t, spots, cmds, answers, now);
    forall id <- f.spots ensures g.spots[id] == f.spots[id] {
      if id in Visible(f) {
        assert id in Visible(g) && Visible(g)[id] == Visible(f)[id];
      } else {
        assert id in ModeratedIds(f) && id in ModeratedIds(g);
        CompletedRow(t, spots, cmds, answers, [], now, id);
        CompletedRow(t, spots, cmds, answers, attempts, now', id);
      }
    }
  }

  lemma KeysOfCompletion(t: Tables, spots: seq<Spot>, cmds: seq<Command>, answers: MessageId -> Answer, now: int)
    ensures Complete(t, spots, cmds, answers, Mark, now).spots.Keys == InsertAll(t, spots).spots.Keys
  {
    CompleteIs(t, spots, cmds, answers, Mark, now);
    PassFacts(InsertAll(t, spots), cmds, Steady(answers), Mark, now);
    CleanScan(InsertAll(t, spots), cmds, answers);
  }

  /** The attempt in which every lookup fails but all writes are made. */
  ghost function Deaf(t: Tables, spots: seq<Spot>, cmds: seq<Command>, answers: MessageId -> Answer): Attempt {
    var drops := (k: nat) => true;
    Attempt(drops, 0, |ChunkSteps(t, spots, cmds, Head(answers, drops), Mark, 0)|)
  }

  lemma {:induction false} DeafScan(x: Tables, cmds: seq<Command>, answers: MessageId -> Answer)
    ensures var s := ScanAll(x, cmds, Head(answers, (k: nat) => true)); s.effects == [] && s.tables == x
  {
    if cmds != [] {
      DeafScan(x, cmds[..|cmds| - 1], answers);
    }
  }

  /** A moderated row is never touched by a pass. */
  lemma PassSkipsModerated(x: Tables, cmds: seq<Command>, answers: MessageId -> Answer, now: int, id: MessageId)
    requires id in x.spots && x.spots[id].spot.moderated
    ensures var f := Run(x, PassSteps(x, cmds, Steady(answers), Mark, now)); id in f.spots && f.spots[id] == x.spots[id]
  {
    var steps := PassSteps(x, cmds, Steady(answers), Mark, now);
    assert Prefix(steps, |steps|) == steps;
    PassPrefixUnderway(x.spots[id], x, cmds, answers, (k: nat) => false, now, |steps|, id) by {
      if ReadFirst(cmds, x.spots[id], id) { ReadFirstIsUnread(cmds, x.spots[id], id); }
    }
  }

  lemma OvertakenStaysUnread(t: Tables, spots: seq<Spot>, cmds: seq<Command>, answers: MessageId -> Answer,
      id: MessageId)
    requires id in InsertAll(t, spots).spots
    requires Overtakable(cmds, InsertAll(t, spots).spots[id], id, answers(id))
    ensures var u := AfterAttempts(t, spots, cmds, answers, Mark, [Deaf(t, spots, cmds, answers)]);
      var f := Complete(u, spots, cmds, answers, Mark, 0);
      id in f.spots && f.spots[id] == Marked(InsertAll(t, spots).spots[id])
  {
    var x, a := InsertAll(t, spots), Deaf(t, spots, cmds, answers);
    var head := Head(answers, a.drops);
    var s := ScanAll(x, cmds, head);
    var u := AfterAttempts(t, spots, cmds, answers, Mark, [a]);
    assert [a][..|[a]| - 1] == [] && [a][|[a]| - 1] == a;
    assert AfterAttempts(t, spots, cmds, answers, Mark, []) == t;
    assert u == AfterAttempt(t, spots, cmds, answers, Mark, a);
    ChunkRun(t, spots, cmds, head, Mark, a.now, a.steps);
    assert Prefix(PassSteps(x, cmds, head, Mark, 0), a.steps - 1) == PassSteps(x, cmds, head, Mark, 0);
    DeafScan(x, cmds, answers);
    ScanOrder(x, cmds, head, id);
    ReadFirstIsUnread(cmds, x.spots[id], id);
    PassFacts(x, cmds, head, Mark, 0);
    assert u.spots[id] == Marked(x.spots[id]);
    InsertAllRows(u, spots);
    CompleteIs(u, spots, cmds, answers, Mark, 0);
    PassSkipsModerated(InsertAll(u, spots), cmds, answers, 0, id);
  }

  lemma OvertakenIsReadOnce(t: Tables, spots: seq<Spot>, cmds: seq<Command>, answers: MessageId -> Answer,
      id: MessageId, now: int)
    requires id in InsertAll(t, spots).spots
    requires Overtakable(cmds, InsertAll(t, spots).spots[id], id, answers(id))
    ensures var f := Complete(t, spots, cmds, answers, Mark, now);
      id in f.spots && f.spots[id] == Marked(Answered(InsertAll(t, spots).spots[id], answers(id)))
  {
    var x := InsertAll(t, spots);
    CompleteIs(t, spots, cmds, answers, Mark, now);
    PassFacts(x, cmds, Steady(answers), Mark, now);
    ScanOrder(x, cmds, Steady(answers), id);
    ReliableNeverFails(x, cmds, Steady(answers));
    ReadFirstIsUnread(cmds, x.spots[id], id);
  }

  /** Re-running the chunk gives the same rows, owners included, after every possible sequence of
      interruptions, if and only if no withdrawn spot can be overtaken. */
  lemma SameOwnersExactlyWhen(t: Tables, spots: seq<Spot>, cmds: seq<Command>, answers: MessageId -> Answer, now: int)
    requires FromOverview(spots)
    ensures (forall attempts: seq<Attempt> ::
               Complete(AfterAttempts(t, spots, cmds, answers, Mark, attempts), spots, cmds, answers, Mark, 0).spots
               == Complete(t, spots, cmds, answers, Mark, now).spots)
       <==> (var x := InsertAll(t, spots); forall id <- x.spots :: !Overtakable(cmds, x.spots[id], id, answers(id)))
  {
    var x := InsertAll(t, spots);
    if id :| id in x.spots && Overtakable(cmds, x.spots[id], id, answers(id)) {
      var attempts := [Deaf(t, spots, cmds, answers)];
      OvertakenStaysUnread(t, spots, cmds, answers, id);
      OvertakenIsReadOnce(t, spots, cmds, answers, id, now);
      assert Complete(AfterAttempts(t, spots, cmds, answers, Mark, attempts), spots, cmds, answers, Mark, 0).spots
             != Complete(t, spots, cmds, answers, Mark, now).spots;
    } else {
      forall attempts: seq<Attempt>
        ensures Complete(AfterAttempts(t, spots, cmds, answers, Mark, attempts), spots, cmds, answers, Mark, 0).spots
             == Complete(t, spots, cmds, answers, Mark, now).spots
      {
        SameRows(t, spots, cmds, answers, attempts, now, 0);
      }
    }
  }
}
