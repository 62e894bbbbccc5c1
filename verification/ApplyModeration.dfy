/** applyModeration itself: the loop with its `queued` set and counters, run against the database. */
module ApplyingModeration {
  import opened Store
  import opened StoreInvariants
  import opened Databases
  import opened Moderation
  import opened Outcomes

  datatype Stats = Stats(
    applied: nat, rejected: nat, noTarget: nat, unverified: nat,
    ownerLookups: nat, ownerUnknown: nat, byModerator: nat)

  function Counted(st: Stats, o: Outcome): Stats {
    match o
    case Unverified => st.(unverified := st.unverified + 1)
    case NoTarget => st.(noTarget := st.noTarget + 1)
    case TooLate => st.(rejected := st.rejected + 1)
    case NotOwner => st.(rejected := st.rejected + 1)
    case OwnerUnknown => st.(ownerUnknown := st.ownerUnknown + 1)
    case Queued(true) => st.(byModerator := st.byModerator + 1)
    case _ => st
  }

  function Tallied(outcomes: seq<Outcome>): Stats {
    if outcomes == [] then Stats(0, 0, 0, 0, 0, 0, 0)
    else Counted(Tallied(outcomes[..|outcomes| - 1]), outcomes[|outcomes| - 1])
  }

  /** The counters of a batch, read off its outcomes. */
  function StatsOf(s: Scan): Stats {
    Tallied(s.outcomes).(ownerLookups := s.lookups)
  }

  lemma {:induction false} TalliedCounts(outcomes: seq<Outcome>)
    ensures var st := Tallied(outcomes);
      && st.applied == 0 && st.ownerLookups == 0
      && st.unverified == Count(outcomes, Unverified)
      && st.noTarget == Count(outcomes, NoTarget)
      && st.rejected == Count(outcomes, TooLate) + Count(outcomes, NotOwner)
      && st.ownerUnknown == Count(outcomes, OwnerUnknown)
      && st.byModerator == Count(outcomes, Queued(true))
  {
    if outcomes != [] {
      TalliedCounts(outcomes[..|outcomes| - 1]);
    }
  }

  lemma StatsNote(s: Scan, o: Outcome)
    ensures Tallied(Note(s, o).outcomes) == Counted(Tallied(s.outcomes), o)
  {
    assert Note(s, o).outcomes[..|s.outcomes|] == s.outcomes;
  }

  /** lookupOwner: `failed` is a lookup error other than a missing article. */
  method LookupOwner(db: Database, id: MessageId, head: Head, k: nat) returns (owner: string, failed: bool)
    requires head.Head?
    modifies db
    ensures failed == head.drops(k)
    ensures failed ==> owner == "" && db.Contents() == old(db.Contents())
    ensures !failed ==> var a := head.answers(id);
      && owner == (if a.Key? then a.owner else "")
      && db.Contents() == if a.Key? then Apply(old(db.Contents()), SetSpotOwner(id, a.owner, a.verified))
                          else old(db.Contents())
  {
    if head.drops(k) {
      return "", true;
    }
    match head.answers(id)
    case Key(o, verified) =>
      db.SetSpotOwner(id, o, verified);
      return o, false;
    case _ =>
      return "", false;
  }

  ghost predicate Tracks(db: Database, s: Scan, targets: seq<MessageId>, queued: set<MessageId>,
                         st: Stats, failed: bool)
    reads db
  {
    && db.Contents() == s.tables
    && targets == s.targets && (forall id :: id in queued <==> id in targets)
    && st == StatsOf(s) && failed == s.failed
  }

  /** The stored owner, or a lookup on the caller's connection unless one has failed already. */
  method FindOwner(db: Database, cmd: Command, head: Head, t: Target, st: Stats, failed: bool, ghost s: Scan)
    returns (owner: string, st': Stats, failed': bool, ghost asked: Scan)
    requires db.Contents() == s.tables && st == StatsOf(s) && failed == s.failed
    requires cmd.target in s.tables.spots && t.owner == s.tables.spots[cmd.target].spot.owner
    modifies db
    ensures asked.targets == s.targets
    ensures Judge(asked, cmd, owner, t.posted) ==
      if t.owner == "" && head.Head? && !failed
      then var (s', o) := LookUp(s, cmd.target, head); Judge(s', cmd, o, t.posted)
      else Judge(s, cmd, t.owner, t.posted)
    ensures db.Contents() == asked.tables && st' == StatsOf(asked) && failed' == asked.failed
  {
    owner, st', failed', asked := t.owner, st, failed, s;
    if owner == "" && head.Head? && !failed {
      asked := LookUp(s, cmd.target, head).0;
      st' := st.(ownerLookups := st.ownerLookups + 1);
      owner, failed' := LookupOwner(db, cmd.target, head, st.ownerLookups);
    }
  }

  /** The last steps of the body: who owns the spot, and may this command withdraw it? */
  method JudgeOwner(db: Database, cmd: Command, owner: string, posted: int,
                    targets: seq<MessageId>, queued: set<MessageId>, st: Stats, failed: bool, ghost s: Scan)
    returns (targets': seq<MessageId>, queued': set<MessageId>, st': Stats)
    requires Tracks(db, s, targets, queued, st, failed) && !cmd.moderator
    ensures Tracks(db, Judge(s, cmd, owner, posted), targets', queued', st', failed)
  {
    targets', queued', st' := targets, queued, st;
    if owner == "" {
      StatsNote(s, OwnerUnknown);
      st' := st.(ownerUnknown := st.ownerUnknown + 1);
      return;
    }
    if !ValidateDispose(cmd, owner, posted) {
      StatsNote(s, NotOwner);
      st' := st.(rejected := st.rejected + 1);
      return;
    }
    StatsNote(s, Queued(cmd.moderator));
    targets' := targets + [cmd.target];
    queued' := queued + {cmd.target};
  }

  /** The body of the loop: each `return` ends the visit of this command. */
  method VisitCommand(db: Database, cmd: Command, head: Head, targets: seq<MessageId>, queued: set<MessageId>,
                      st: Stats, failed: bool, ghost s: Scan)
    returns (targets': seq<MessageId>, queued': set<MessageId>, st': Stats, failed': bool)
    requires Tracks(db, s, targets, queued, st, failed)
    modifies db
    ensures Tracks(db, Visit(s, cmd, head), targets', queued', st', failed')
  {
    targets', queued', st', failed' := targets, queued, st, failed;
    if !cmd.verified {
      StatsNote(s, Unverified);
      st' := st.(unverified := st.unverified + 1);
      return;
    }
    if cmd.target in queued {
      StatsNote(s, Repeated);
      return;
    }
    var t, found := db.DisposeTarget(cmd.target);
    if !found {
      StatsNote(s, NoTarget);
      st' := st.(noTarget := st.noTarget + 1);
      return;
    }
    if t.moderated {
      StatsNote(s, AlreadyModerated);
      return;
    }
    if cmd.moderator {
      StatsNote(s, Queued(true));
      targets' := targets + [cmd.target];
      queued' := queued + {cmd.target};
      st' := st.(byModerator := st.byModerator + 1);
      return;
    }
    if !WithinDisposeWindow(cmd, t.posted) {
      StatsNote(s, TooLate);
      st' := st.(rejected := st.rejected + 1);
      return;
    }
    var owner;
    ghost var asked;
    owner, st', failed', asked := FindOwner(db, cmd, head, t, st, failed, s);
    targets', queued', st' := JudgeOwner(db, cmd, owner, t.posted, targets, queued, st', failed', asked);
  }

  /** The loop over one batch. What it leaves is exactly the scan of the specification. */
  method ScanBatch(db: Database, cmds: seq<Command>, head: Head)
    returns (targets: seq<MessageId>, st: Stats, failed: bool)
    modifies db
    ensures var s := ScanAll(old(db.Contents()), cmds, head);
      db.Contents() == s.tables && targets == s.targets && st == StatsOf(s) && failed == s.failed
  {
    targets, st, failed := [], Stats(0, 0, 0, 0, 0, 0, 0), false;
    var queued: set<MessageId> := {};
    ghost var s := Start(db.Contents());
    ghost var before := db.Contents();
    for i := 0 to |cmds|
      invariant s == ScanAll(before, cmds[..i], head)
      invariant Tracks(db, s, targets, queued, st, failed)
    {
      targets, queued, st, failed := VisitCommand(db, cmds[i], head, targets, queued, st, failed, s);
      assert cmds[..i + 1][..i] == cmds[..i];
      s := Visit(s, cmds[i], head);
    }
    assert cmds[..|cmds|] == cmds;
  }

  lemma {:induction false} BatchesDelete(t: Tables, ids: seq<MessageId>)
    ensures var u := Run(t, Batches(ids));
      u.spots.Keys == t.spots.Keys - SetOf(ids) && u.ring == t.ring
    ensures forall id <- Run(t, Batches(ids)).spots :: Run(t, Batches(ids)).spots[id] == t.spots[id]
    decreases |ids|
  {
    if ids != [] {
      var first := if |ids| <= ID_BATCH then ids else ids[..ID_BATCH];
      RunOne(t, DeleteByMessageId(first));
      assert (t.spots - SetOf(first)).Keys == t.spots.Keys - SetOf(first);
      if |ids| > ID_BATCH {
        var rest := ids[ID_BATCH..];
        RunConcat(t, [DeleteByMessageId(first)], Batches(rest));
        BatchesDelete(Apply(t, DeleteByMessageId(first)), rest);
        assert ids == first + rest;
        assert SetOf(ids) == SetOf(first) + SetOf(rest);
      }
    }
  }

  lemma DeleteCount(t: Tables, ids: seq<MessageId>)
    requires Distinct(ids) && forall id <- ids :: id in t.spots
    ensures |t.spots.Keys| - |Run(t, Batches(ids)).spots.Keys| == |ids|
  {
    DistinctSize(ids);
    BatchesDelete(t, ids);
    assert |t.spots.Keys - SetOf(ids)| == |t.spots.Keys| - |SetOf(ids)|;
  }

  /** A pass is the scan's writes, then what the mode does with the targets. */
  lemma PassRun(t: Tables, cmds: seq<Command>, head: Head, mode: Mode, now: int)
    requires mode != Off
    ensures var s := ScanAll(t, cmds, head);
      Run(t, PassSteps(t, cmds, head, mode, now)) == Run(s.tables, Consequence(s.targets, mode, now))
  {
    var s := ScanAll(t, cmds, head);
    ScanKeeps(t, cmds, head);
    RunConcat(t, s.effects, Consequence(s.targets, mode, now));
  }

  lemma ScanValid(t: Tables, cmds: seq<Command>, head: Head)
    requires WellFormed(t)
    ensures WellFormed(ScanAll(t, cmds, head).tables)
  {
    ScanKeeps(t, cmds, head);
    RunWellFormed(t, ScanAll(t, cmds, head).effects);
  }

  lemma ScanTargets(t: Tables, cmds: seq<Command>, head: Head)
    ensures var s := ScanAll(t, cmds, head);
      Distinct(s.targets) && forall id <- s.targets :: id in s.tables.spots
  {
    ScanKeeps(t, cmds, head);
    forall id <- ScanAll(t, cmds, head).targets ensures id in t.spots {
      assert Entitled(t, cmds, head, id);
    }
  }

  /** MODERATION_MODE: hide the targets, or remove and record them. Returns the rows affected. */
  method Withdraw(db: Database, targets: seq<MessageId>, mode: Mode, now: int) returns (applied: nat)
    requires db.Valid() && mode != Off && targets != []
    requires Distinct(targets) && forall id <- targets :: id in db.spots
    modifies db
    ensures db.Contents() == Run(old(db.Contents()), Consequence(targets, mode, now))
    ensures applied == |targets|
  {
    ghost var t := db.Contents();
    if mode == Delete {
      DeleteCount(t, targets);
      RunConcat(t, Batches(targets), [MarkModerated(targets, now)]);
      RunOne(Run(t, Batches(targets)), MarkModerated(targets, now));
      applied := db.DeleteSpotsByMessageID(targets);
      var _ := db.MarkModerated(targets, now);
    } else {
      CountAllIn(targets, t.spots.Keys);
      RunOne(t, MarkModerated(targets, now));
      applied := db.MarkModerated(targets, now);
    }
  }

  /** applyModeration. `failed` is the returned error: a lookup that failed on the connection. */
  method ApplyModeration(db: Database, cmds: seq<Command>, head: Head, mode: Mode, now: int)
    returns (st: Stats, failed: bool)
    requires db.Valid()
    modifies db
    ensures db.Contents() == Run(old(db.Contents()), PassSteps(old(db.Contents()), cmds, head, mode, now))
    ensures mode == Off ==> st == Tallied([]) && !failed
    ensures mode != Off ==> var s := ScanAll(old(db.Contents()), cmds, head);
      failed == s.failed && st == StatsOf(s).(applied := |s.targets|)
    ensures mode != Off ==> var t := old(db.Contents());
      && st.unverified == |set i | 0 <= i < |cmds| && !cmds[i].verified|
      && st.noTarget == |set i | 0 <= i < |cmds| && cmds[i].verified && cmds[i].target !in t.spots|
    ensures mode != Off && head.Head? ==>
      && (failed <==> st.ownerLookups > 0 && head.drops(st.ownerLookups - 1))
      && forall k | 0 <= k < st.ownerLookups - 1 :: !head.drops(k)
    ensures mode != Off && Reliable(head) ==> var t := old(db.Contents());
      && st.rejected == |EndingAt(t, cmds, head, TooLate)| + |EndingAt(t, cmds, head, NotOwner)|
      && st.ownerUnknown == |EndingAt(t, cmds, head, OwnerUnknown)|
      && st.byModerator == |EndingAt(t, cmds, head, Queued(true))|
      && st.ownerLookups == |Asked(t, cmds, head)|
      && st.applied == |set c | c in cmds && MayWithdraw(t, c, head) :: c.target|
  {
    ghost var before := db.Contents();
    if mode == Off {
      return Tallied([]), false;
    }
    PassRun(before, cmds, head, mode, now);
    ScanValid(before, cmds, head);
    ScanTargets(before, cmds, head);
    TalliedCounts(ScanAll(before, cmds, head).outcomes);
    CountsAre(before, cmds, head);
    LookupsStop(before, cmds, head);
    TargetsAre(before, cmds, head);
    QueuesExactlyTheTargets(before, cmds, head);
    if Reliable(head) {
      ReliableNeverFails(before, cmds, head);
      LookupsAre(before, cmds, head);
    }
    hide EndingAt, Asked, Reliable, WellFormed;
    var targets;
    targets, st, failed := ScanBatch(db, cmds, head);
    if targets != [] {
      var applied := Withdraw(db, targets, mode, now);
      st := st.(applied := applied);
    }
  }
}
