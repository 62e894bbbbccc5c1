/** One batch of withdrawals (internal/sync/moderation.go and internal/spotnet/moderation.go).
    `ScanAll` follows the loop of applyModeration command by command; the lemmas below tie the
    targets it queues to a set that mentions neither the order nor the loop. */
module Moderation {
  import opened Store
  import opened StoreInvariants

  datatype Mode = Off | Mark | Delete

  /** A parsed withdrawal. `verified`, `moderator` and `spotter` are what the signature checks said. */
  datatype Command = Command(target: MessageId, spotter: string, verified: bool, moderator: bool, stamp: int)

  const DISPOSE_MAX_AGE := 5 * 24 * 3600

  predicate WithinDisposeWindow(cmd: Command, posted: int) {
    posted <= cmd.stamp && cmd.stamp - posted <= DISPOSE_MAX_AGE
  }

  predicate ValidateDispose(cmd: Command, owner: string, posted: int) {
    if cmd.verified && cmd.moderator then true
    else if !cmd.verified || cmd.spotter == "" then false
    else if owner == "" || owner != cmd.spotter then false
    else WithinDisposeWindow(cmd, posted)
  }

  /** What a spot's headers say about its owner. `NoKey`: no usable X-User-Key. `Gone`: error 430. */
  datatype Answer = Key(owner: string, verified: bool) | NoKey | Gone

  /** The caller's connection: the server's answers do not change, but the k-th lookup may fail
      (a dropped connection, or the owner could not be stored). */
  datatype Head = NoHead | Head(answers: MessageId -> Answer, drops: nat -> bool)

  ghost predicate SameAnswers(a: Head, b: Head) {
    a.Head? == b.Head? && (a.Head? ==> forall id :: a.answers(id) == b.answers(id))
  }

  datatype Outcome =
    | Unverified | Repeated | NoTarget | AlreadyModerated
    | Queued(byModerator: bool) | TooLate | OwnerUnknown | NotOwner

  datatype Scan = Scan(
    tables: Tables, targets: seq<MessageId>, outcomes: seq<Outcome>,
    lookups: nat, failed: bool, effects: seq<Step>)

  function Start(t: Tables): Scan {
    Scan(t, [], [], 0, false, [])
  }

  function Note(s: Scan, o: Outcome): Scan {
    s.(outcomes := s.outcomes + [o])
  }

  function Queue(s: Scan, cmd: Command): Scan {
    Note(s, Queued(cmd.moderator)).(targets := s.targets + [cmd.target])
  }

  /** lookupOwner: reads the headers and stores the spotter id they carry. */
  function LookUp(s: Scan, id: MessageId, head: Head): (Scan, string)
    requires head.Head?
  {
    var asked := s.(lookups := s.lookups + 1);
    if head.drops(s.lookups) then (asked.(failed := true), "")
    else match head.answers(id)
      case Key(owner, verified) =>
        var step := SetSpotOwner(id, owner, verified);
        (asked.(tables := Apply(s.tables, step), effects := s.effects + [step]), owner)
      case NoKey => (asked, "")
      case Gone => (asked, "")
  }

  function Judge(s: Scan, cmd: Command, owner: string, posted: int): Scan {
    if owner == "" then Note(s, OwnerUnknown)
    else if !ValidateDispose(cmd, owner, posted) then Note(s, NotOwner)
    else Queue(s, cmd)
  }

  /** One iteration of the loop. */
  function Visit(s: Scan, cmd: Command, head: Head): Scan {
    if !cmd.verified then Note(s, Unverified)
    else if cmd.target in s.targets then Note(s, Repeated)
    else if cmd.target !in s.tables.spots then Note(s, NoTarget)
    else
      var spot := s.tables.spots[cmd.target].spot;
      if spot.moderated then Note(s, AlreadyModerated)
      else if cmd.moderator then Queue(s, cmd)
      else if !WithinDisposeWindow(cmd, spot.postedAt) then Note(s, TooLate)
      else if spot.owner == "" && head.Head? && !s.failed then
        var (s', owner) := LookUp(s, cmd.target, head);
        Judge(s', cmd, owner, spot.postedAt)
      else Judge(s, cmd, spot.owner, spot.postedAt)
  }

  function ScanAll(t: Tables, cmds: seq<Command>, head: Head): Scan {
    if cmds == [] then Start(t) else Visit(ScanAll(t, cmds[..|cmds| - 1], head), cmds[|cmds| - 1], head)
  }

  /** What MODERATION_MODE does with the queued targets. */
  function Consequence(targets: seq<MessageId>, mode: Mode, now: int): seq<Step> {
    if targets == [] then []
    else match mode
      case Off => []
      case Mark => [MarkModerated(targets, now)]
      case Delete => Batches(targets) + [MarkModerated(targets, now)]
  }

  /** Every write of one applyModeration call, in order; a crash leaves a prefix of it. */
  function PassSteps(t: Tables, cmds: seq<Command>, head: Head, mode: Mode, now: int): seq<Step> {
    if mode == Off then []
    else
      var s := ScanAll(t, cmds, head);
      s.effects + Consequence(s.targets, mode, now)
  }

  // --------------------------------------------------- the declarative side

  /** The owner a withdrawal is judged against: the stored one, else the one in the headers. */
  function OwnerOf(row: Row, answer: Answer): string {
    if row.spot.owner != "" then row.spot.owner
    else if answer.Key? then answer.owner else ""
  }

  function AnswerFor(head: Head, id: MessageId): Answer {
    if head.Head? then head.answers(id) else Gone
  }

  /** A verified command that may withdraw the row: the moderator's, or one in the window and signed
      by the row's owner. */
  predicate Entitles(cmd: Command, row: Row, answer: Answer) {
    && cmd.verified
    && !row.spot.moderated
    && (cmd.moderator
        || (&& WithinDisposeWindow(cmd, row.spot.postedAt)
            && cmd.spotter != ""
            && cmd.spotter == OwnerOf(row, answer)))
  }

  ghost predicate Entitled(t: Tables, cmds: seq<Command>, head: Head, id: MessageId) {
    id in t.spots && exists c <- cmds :: c.target == id && Entitles(c, t.spots[id], AnswerFor(head, id))
  }

  /** The indexed, not yet moderated spots that some command of the batch is entitled to withdraw. */
  ghost function Targets(t: Tables, cmds: seq<Command>, head: Head): set<MessageId> {
    set id | id in t.spots && Entitled(t, cmds, head, id)
  }

  predicate Personal(cmd: Command, row: Row) {
    && cmd.verified && !cmd.moderator
    && !row.spot.moderated && row.spot.owner == ""
    && WithinDisposeWindow(cmd, row.spot.postedAt)
  }

  /** Some command of the batch cannot be judged without the headers of `id`. */
  ghost predicate NeedsLookup(t: Tables, cmds: seq<Command>, id: MessageId) {
    id in t.spots && exists c <- cmds :: c.target == id && Personal(c, t.spots[id])
  }

  function Answered(row: Row, answer: Answer): Row {
    if answer.Key? then Owned(row, answer.owner, answer.verified) else row
  }

  /** `row'` is `row`, or `row` with the owner its headers name. */
  predicate Learned(row: Row, row': Row, answer: Answer) {
    || row' == row
    || (answer.Key? && row.spot.owner == "" && !row.spot.moderated
        && row' == Owned(row, answer.owner, answer.verified))
  }

  ghost predicate LearnedTables(t: Tables, u: Tables, cmds: seq<Command>, head: Head) {
    && u.spots.Keys == t.spots.Keys
    && u.ring == t.ring && u.nextId == t.nextId && u.fts == t.fts
    && (forall id <- t.spots :: Learned(t.spots[id], u.spots[id], AnswerFor(head, id)))
    && (forall id <- t.spots :: u.spots[id] != t.spots[id] ==> NeedsLookup(t, cmds, id))
  }

  ghost predicate LearnStep(t: Tables, cmds: seq<Command>, head: Head, s: Step) {
    s.SetSpotOwner? && NeedsLookup(t, cmds, s.id) && AnswerFor(head, s.id) == Key(s.owner, s.verified)
  }

  ghost predicate Distinct(ids: seq<MessageId>) {
    forall i, j | 0 <= i < j < |ids| :: ids[i] != ids[j]
  }

  /** After the commands `seen` of the batch `cmds`. */
  ghost predicate ScanInv(t: Tables, cmds: seq<Command>, seen: seq<Command>, head: Head, s: Scan) {
    && |s.outcomes| == |seen|
    && s.tables == Run(t, s.effects)
    && (forall e <- s.effects :: LearnStep(t, cmds, head, e))
    && LearnedTables(t, s.tables, cmds, head)
    && Distinct(s.targets)
    && (forall id <- s.targets :: Entitled(t, cmds, head, id))
    && (!s.failed ==> forall id | Entitled(t, seen, head, id) :: id in s.targets)
    && (!s.failed ==> forall id | NeedsLookup(t, seen, id) && id !in s.targets && AnswerFor(head, id).Key? ::
          s.tables.spots[id] == Answered(t.spots[id], AnswerFor(head, id)))
  }

  lemma Grow(t: Tables, seen: seq<Command>, cmd: Command, head: Head)
    ensures forall id :: Entitled(t, seen + [cmd], head, id) <==>
      Entitled(t, seen, head, id)
      || (id == cmd.target && id in t.spots && Entitles(cmd, t.spots[id], AnswerFor(head, id)))
    ensures forall id :: NeedsLookup(t, seen + [cmd], id) <==>
      NeedsLookup(t, seen, id) || (id == cmd.target && id in t.spots && Personal(cmd, t.spots[id]))
  {
    assert forall c :: c in seen + [cmd] <==> c in seen || c == cmd;
  }

  /** A command that adds no target and leaves nothing unread. */
  lemma NoteKeeps(t: Tables, cmds: seq<Command>, seen: seq<Command>, cmd: Command, head: Head, s: Scan, o: Outcome)
    requires ScanInv(t, cmds, seen, head, s)
    requires !s.failed && cmd.target in t.spots && cmd.target !in s.targets ==>
      && !Entitles(cmd, t.spots[cmd.target], AnswerFor(head, cmd.target))
      && (Personal(cmd, t.spots[cmd.target]) && AnswerFor(head, cmd.target).Key?
          ==> s.tables.spots[cmd.target] == Answered(t.spots[cmd.target], AnswerFor(head, cmd.target)))
    ensures ScanInv(t, cmds, seen + [cmd], head, Note(s, o))
  {
    Grow(t, seen, cmd, head);
  }

  lemma QueueKeeps(t: Tables, cmds: seq<Command>, seen: seq<Command>, cmd: Command, head: Head, s: Scan)
    requires ScanInv(t, cmds, seen, head, s) && cmd in cmds
    requires cmd.target in t.spots && cmd.target !in s.targets
    requires Entitles(cmd, t.spots[cmd.target], AnswerFor(head, cmd.target))
    ensures ScanInv(t, cmds, seen + [cmd], head, Queue(s, cmd))
  {
    Grow(t, seen, cmd, head);
    assert Entitled(t, cmds, head, cmd.target);
  }

  lemma StepAppended(t: Tables, effects: seq<Step>, s: Step)
    ensures Run(t, effects + [s]) == Apply(Run(t, effects), s)
  {
    assert (effects + [s])[..|effects|] == effects;
  }

  /** A lookup that finds a key: the row then carries the owner its headers name. */
  lemma LearnKeeps(t: Tables, cmds: seq<Command>, seen: seq<Command>, cmd: Command, head: Head, s: Scan)
    requires ScanInv(t, cmds, seen, head, s) && cmd in cmds && head.Head?
    requires cmd.target in s.tables.spots && Personal(cmd, s.tables.spots[cmd.target])
    requires !head.drops(s.lookups) && head.answers(cmd.target).Key?
    ensures var s' := LookUp(s, cmd.target, head).0;
      && ScanInv(t, cmds, seen, head, s')
      && s'.tables.spots[cmd.target] == Answered(t.spots[cmd.target], head.answers(cmd.target))
  {
    var a := head.answers(cmd.target);
    var step := SetSpotOwner(cmd.target, a.owner, a.verified);
    StepAppended(t, s.effects, step);
    assert Personal(cmd, t.spots[cmd.target]);
    LearnOne(t, s.tables, cmds, head, step);
  }

  lemma LearnOne(t: Tables, u: Tables, cmds: seq<Command>, head: Head, step: Step)
    requires LearnedTables(t, u, cmds, head) && LearnStep(t, cmds, head, step)
    ensures LearnedTables(t, Apply(u, step), cmds, head)
  {}

  lemma JudgeKeeps(t: Tables, cmds: seq<Command>, seen: seq<Command>, cmd: Command, head: Head, s: Scan,
                   owner: string, posted: int)
    requires ScanInv(t, cmds, seen, head, s) && cmd in cmds
    requires cmd.target in t.spots && cmd.target !in s.targets
    requires cmd.verified && !cmd.moderator && WithinDisposeWindow(cmd, posted)
    requires !t.spots[cmd.target].spot.moderated && posted == t.spots[cmd.target].spot.postedAt
    requires !s.failed || owner != "" ==> owner == OwnerOf(t.spots[cmd.target], AnswerFor(head, cmd.target))
    requires !s.failed && Personal(cmd, t.spots[cmd.target]) && AnswerFor(head, cmd.target).Key?
      ==> s.tables.spots[cmd.target] == Answered(t.spots[cmd.target], AnswerFor(head, cmd.target))
    ensures ScanInv(t, cmds, seen + [cmd], head, Judge(s, cmd, owner, posted))
  {
    if owner == "" {
      NoteKeeps(t, cmds, seen, cmd, head, s, OwnerUnknown);
    } else if !ValidateDispose(cmd, owner, posted) {
      NoteKeeps(t, cmds, seen, cmd, head, s, NotOwner);
    } else {
      QueueKeeps(t, cmds, seen, cmd, head, s);
    }
  }

  lemma LookUpKeeps(t: Tables, cmds: seq<Command>, seen: seq<Command>, cmd: Command, head: Head, s: Scan)
    requires ScanInv(t, cmds, seen, head, s) && cmd in cmds && head.Head? && !s.failed
    requires cmd.target in s.tables.spots && cmd.target !in s.targets
    requires Personal(cmd, s.tables.spots[cmd.target])
    ensures var (s', owner) := LookUp(s, cmd.target, head);
      ScanInv(t, cmds, seen + [cmd], head, Judge(s', cmd, owner, s.tables.spots[cmd.target].spot.postedAt))
  {
    var (s', owner) := LookUp(s, cmd.target, head);
    if !head.drops(s.lookups) && head.answers(cmd.target).Key? {
      LearnKeeps(t, cmds, seen, cmd, head, s);
    }
    JudgeKeeps(t, cmds, seen, cmd, head, s', owner, s.tables.spots[cmd.target].spot.postedAt);
  }

  lemma VisitKeeps(t: Tables, cmds: seq<Command>, seen: seq<Command>, cmd: Command, head: Head, s: Scan)
    requires ScanInv(t, cmds, seen, head, s) && cmd in cmds
    ensures ScanInv(t, cmds, seen + [cmd], head, Visit(s, cmd, head))
  {
    if !cmd.verified || cmd.target in s.targets || cmd.target !in s.tables.spots {
      NoteKeeps(t, cmds, seen, cmd, head, s, if !cmd.verified then Unverified
                                             else if cmd.target in s.targets then Repeated else NoTarget);
    } else {
      var spot := s.tables.spots[cmd.target].spot;
      if spot.moderated {
        NoteKeeps(t, cmds, seen, cmd, head, s, AlreadyModerated);
      } else if cmd.moderator {
        QueueKeeps(t, cmds, seen, cmd, head, s);
      } else if !WithinDisposeWindow(cmd, spot.postedAt) {
        NoteKeeps(t, cmds, seen, cmd, head, s, TooLate);
      } else if spot.owner == "" && head.Head? && !s.failed {
        LookUpKeeps(t, cmds, seen, cmd, head, s);
      } else {
        JudgeKeeps(t, cmds, seen, cmd, head, s, spot.owner, spot.postedAt);
      }
    }
  }

  lemma {:induction false} ScanPrefixKeeps(t: Tables, cmds: seq<Command>, n: nat, head: Head)
    requires n <= |cmds|
    ensures ScanInv(t, cmds, cmds[..n], head, ScanAll(t, cmds[..n], head))
  {
    if n > 0 {
      ScanPrefixKeeps(t, cmds, n - 1, head);
      hide ScanInv, Visit;
      assert cmds[..n][..n - 1] == cmds[..n - 1] && cmds[..n - 1] + [cmds[n - 1]] == cmds[..n];
      VisitKeeps(t, cmds, cmds[..n - 1], cmds[n - 1], head, ScanAll(t, cmds[..n - 1], head));
    }
  }

  lemma ScanKeeps(t: Tables, cmds: seq<Command>, head: Head)
    ensures ScanInv(t, cmds, cmds, head, ScanAll(t, cmds, head))
  {
    ScanPrefixKeeps(t, cmds, |cmds|, head);
    assert cmds[..|cmds|] == cmds;
  }

  // ------------------------------------------------------------ main results

  ghost predicate Reliable(head: Head) {
    head.Head? ==> forall k :: !head.drops(k)
  }

  lemma {:induction false} ReliableNeverFails(t: Tables, cmds: seq<Command>, head: Head)
    requires Reliable(head)
    ensures !ScanAll(t, cmds, head).failed
  {
    if cmds != [] {
      ReliableNeverFails(t, cmds[..|cmds| - 1], head);
    }
  }

  ghost function SetOf(ids: seq<MessageId>): set<MessageId> {
    set id | id in ids
  }

  lemma {:induction false} DistinctSize(ids: seq<MessageId>)
    requires Distinct(ids)
    ensures |SetOf(ids)| == |ids|
  {
    if ids != [] {
      var init, last := ids[..|ids| - 1], ids[|ids| - 1];
      DistinctSize(init);
      assert SetOf(ids) == SetOf(init) + {last};
    }
  }

  /** Without a failed lookup the loop queues every entitled target once, and nothing else; with a
      failed lookup it queues a part of them. */
  lemma QueuesExactlyTheTargets(t: Tables, cmds: seq<Command>, head: Head)
    ensures var s := ScanAll(t, cmds, head);
      && Distinct(s.targets)
      && SetOf(s.targets) <= Targets(t, cmds, head)
      && (!s.failed ==> SetOf(s.targets) == Targets(t, cmds, head) && |s.targets| == |Targets(t, cmds, head)|)
    ensures Reliable(head) ==> SetOf(ScanAll(t, cmds, head).targets) == Targets(t, cmds, head)
  {
    ScanKeeps(t, cmds, head);
    DistinctSize(ScanAll(t, cmds, head).targets);
    if Reliable(head) {
      ReliableNeverFails(t, cmds, head);
    }
  }

  /** Neither the order of a batch nor repeats in it matter. */
  lemma OrderAndRepeatsIrrelevant(t: Tables, a: seq<Command>, b: seq<Command>, head: Head)
    requires Reliable(head)
    requires forall c :: c in a <==> c in b
    ensures SetOf(ScanAll(t, a, head).targets) == SetOf(ScanAll(t, b, head).targets)
    ensures |ScanAll(t, a, head).targets| == |ScanAll(t, b, head).targets|
  {
    QueuesExactlyTheTargets(t, a, head);
    QueuesExactlyTheTargets(t, b, head);
    ReliableNeverFails(t, a, head);
    ReliableNeverFails(t, b, head);
    assert Targets(t, a, head) == Targets(t, b, head);
  }

  function Count(outcomes: seq<Outcome>, o: Outcome): nat {
    if outcomes == [] then 0
    else Count(outcomes[..|outcomes| - 1], o) + if outcomes[|outcomes| - 1] == o then 1 else 0
  }

  lemma {:induction false} CountsAddUp(outcomes: seq<Outcome>)
    ensures Count(outcomes, Unverified) + Count(outcomes, Repeated) + Count(outcomes, NoTarget)
          + Count(outcomes, AlreadyModerated) + Count(outcomes, Queued(true)) + Count(outcomes, Queued(false))
          + Count(outcomes, TooLate) + Count(outcomes, OwnerUnknown) + Count(outcomes, NotOwner) == |outcomes|
  {
    if outcomes != [] {
      CountsAddUp(outcomes[..|outcomes| - 1]);
    }
  }

  ghost predicate QueuedMatch(s: Scan) {
    Count(s.outcomes, Queued(true)) + Count(s.outcomes, Queued(false)) == |s.targets|
  }

  lemma NoteMatches(s: Scan, o: Outcome)
    requires QueuedMatch(s) && !o.Queued?
    ensures QueuedMatch(Note(s, o))
  {
    assert Note(s, o).outcomes[..|s.outcomes|] == s.outcomes;
  }

  lemma JudgeMatches(s: Scan, cmd: Command, owner: string, posted: int)
    requires QueuedMatch(s)
    ensures QueuedMatch(Queue(s, cmd)) && QueuedMatch(Judge(s, cmd, owner, posted))
  {
    NoteMatches(s, OwnerUnknown);
    NoteMatches(s, NotOwner);
    assert Queue(s, cmd).outcomes[..|s.outcomes|] == s.outcomes;
  }

  lemma LookUpMatches(s: Scan, cmd: Command, head: Head, posted: int)
    requires QueuedMatch(s) && head.Head?
    ensures var (s', owner) := LookUp(s, cmd.target, head); QueuedMatch(Judge(s', cmd, owner, posted))
  {
    var (s', owner) := LookUp(s, cmd.target, head);
    JudgeMatches(s', cmd, owner, posted);
  }

  lemma VisitMatches(s: Scan, cmd: Command, head: Head)
    requires QueuedMatch(s)
    ensures QueuedMatch(Visit(s, cmd, head))
  {
    if !cmd.verified {
      NoteMatches(s, Unverified);
    } else if cmd.target in s.targets {
      NoteMatches(s, Repeated);
    } else if cmd.target !in s.tables.spots {
      NoteMatches(s, NoTarget);
    } else {
      var spot := s.tables.spots[cmd.target].spot;
      if spot.moderated {
        NoteMatches(s, AlreadyModerated);
      } else if cmd.moderator {
        JudgeMatches(s, cmd, spot.owner, spot.postedAt);
      } else if !WithinDisposeWindow(cmd, spot.postedAt) {
        NoteMatches(s, TooLate);
      } else if spot.owner == "" && head.Head? && !s.failed {
        LookUpMatches(s, cmd, head, spot.postedAt);
      } else {
        JudgeMatches(s, cmd, spot.owner, spot.postedAt);
      }
    }
  }

  lemma {:induction false} QueuedAreTheTargets(t: Tables, cmds: seq<Command>, head: Head)
    ensures QueuedMatch(ScanAll(t, cmds, head))
  {
    if cmds != [] {
      QueuedAreTheTargets(t, cmds[..|cmds| - 1], head);
      VisitMatches(ScanAll(t, cmds[..|cmds| - 1], head), cmds[|cmds| - 1], head);
    }
  }

  /** Every command ends in exactly one outcome, and the outcomes account for the whole batch. */
  lemma EveryCommandAccounted(t: Tables, cmds: seq<Command>, head: Head)
    ensures var s := ScanAll(t, cmds, head);
      |cmds| == |s.targets| + Count(s.outcomes, Unverified) + Count(s.outcomes, Repeated)
              + Count(s.outcomes, NoTarget) + Count(s.outcomes, AlreadyModerated)
              + Count(s.outcomes, TooLate) + Count(s.outcomes, OwnerUnknown) + Count(s.outcomes, NotOwner)
  {
    ScanKeeps(t, cmds, head);
    CountsAddUp(ScanAll(t, cmds, head).outcomes);
    QueuedAreTheTargets(t, cmds, head);
  }
}
