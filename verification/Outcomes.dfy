/** What becomes of each withdrawal of a batch, said without the loop: from the tables before the batch, the
    commands and the answers of the server alone. */
module Outcomes {
  import opened Store
  import opened StoreInvariants
  import opened Moderation

  /** The owner that the row carries, or else the one its headers name. */
  function OwnerNamed(t: Tables, id: MessageId, head: Head): string
    requires id in t.spots
  {
    if t.spots[id].spot.owner != "" then t.spots[id].spot.owner
    else if head.Head? && head.answers(id).Key? then head.answers(id).owner
    else ""
  }

  /** A verified command for a spot that is listed. */
  predicate Open(t: Tables, c: Command) {
    c.verified && c.target in t.spots && !t.spots[c.target].spot.moderated
  }

  /** It came after the spot, and no later than five days. */
  predicate InTime(t: Tables, c: Command)
    requires c.target in t.spots
  {
    0 <= c.stamp - t.spots[c.target].spot.postedAt <= 432000
  }

  predicate MayWithdraw(t: Tables, c: Command, head: Head) {
    Open(t, c) &&
    var owner := OwnerNamed(t, c.target, head);
    c.moderator || (InTime(t, c) && owner != "" && owner == c.spotter)
  }

  /** An earlier command of the batch has withdrawn the spot already. */
  ghost predicate Done(t: Tables, cmds: seq<Command>, i: nat, head: Head)
    requires i < |cmds|
  {
    exists j | 0 <= j < i :: cmds[j].target == cmds[i].target && MayWithdraw(t, cmds[j], head)
  }

  ghost function OutcomeOf(t: Tables, cmds: seq<Command>, i: nat, head: Head): Outcome
    requires i < |cmds|
  {
    var c := cmds[i];
    if !c.verified then Unverified
    else if c.target !in t.spots then NoTarget
    else if t.spots[c.target].spot.moderated then AlreadyModerated
    else if Done(t, cmds, i, head) then Repeated
    else if c.moderator then Queued(true)
    else if !InTime(t, c) then TooLate
    else if OwnerNamed(t, c.target, head) == "" then OwnerUnknown
    else if OwnerNamed(t, c.target, head) != c.spotter then NotOwner
    else Queued(false)
  }

  /** The headers are read for a personal withdrawal in time of a spot without an owner, unless an earlier
      command of the batch has had them read, and they named one. */
  ghost predicate Asks(t: Tables, cmds: seq<Command>, i: nat, head: Head)
    requires i < |cmds|
  {
    var c := cmds[i];
    && head.Head? && Open(t, c) && !Done(t, cmds, i, head)
    && !c.moderator && InTime(t, c) && t.spots[c.target].spot.owner == ""
    && (OwnerNamed(t, c.target, head) == "" || !AskedBefore(t, cmds, i))
  }

  ghost predicate AskedBefore(t: Tables, cmds: seq<Command>, i: nat)
    requires i < |cmds|
  {
    exists j | 0 <= j < i ::
      cmds[j].target == cmds[i].target && Open(t, cmds[j]) && !cmds[j].moderator && InTime(t, cmds[j])
  }

  // ------------------------------------------------------------------- the proof

  lemma EntitlesIs(t: Tables, c: Command, head: Head)
    ensures MayWithdraw(t, c, head)
       <==> c.target in t.spots && Entitles(c, t.spots[c.target], AnswerFor(head, c.target))
  {}

  lemma EntitledIs(t: Tables, cmds: seq<Command>, head: Head, id: MessageId)
    ensures Entitled(t, cmds, head, id) <==>
      exists j | 0 <= j < |cmds| :: cmds[j].target == id && MayWithdraw(t, cmds[j], head)
  {
    forall c: Command ensures MayWithdraw(t, c, head)
       <==> c.target in t.spots && Entitles(c, t.spots[c.target], AnswerFor(head, c.target)) {
      EntitlesIs(t, c, head);
    }
    hide MayWithdraw, Entitles;
    if Entitled(t, cmds, head, id) {
      var c :| c in cmds && c.target == id && Entitles(c, t.spots[id], AnswerFor(head, id));
      var j :| 0 <= j < |cmds| && cmds[j] == c;
    }
  }

  /** The three labels that depend on nothing but the tables before the batch. */
  ghost predicate Plain(t: Tables, c: Command, o: Outcome) {
    && (o == Unverified <==> !c.verified)
    && (o == NoTarget <==> c.verified && c.target !in t.spots)
    && (o == AlreadyModerated <==> c.verified && c.target in t.spots && t.spots[c.target].spot.moderated)
  }

  ghost predicate Exact(t: Tables, cmds: seq<Command>, head: Head, outcomes: seq<Outcome>) {
    |outcomes| == |cmds| &&
    forall i | 0 <= i < |cmds| ::
      Plain(t, cmds[i], outcomes[i]) && (Reliable(head) ==> outcomes[i] == OutcomeOf(t, cmds, i, head))
  }

  lemma SameStart(t: Tables, cmds: seq<Command>, c: Command, i: nat, head: Head)
    requires i < |cmds|
    ensures OutcomeOf(t, cmds + [c], i, head) == OutcomeOf(t, cmds, i, head)
  {
    assert forall j | 0 <= j <= i :: (cmds + [c])[j] == cmds[j];
  }

  /** What a scan knows of one spot. */
  lemma ScanOf(t: Tables, cmds: seq<Command>, head: Head, s: Scan, id: MessageId)
    requires ScanInv(t, cmds, cmds, head, s) && (Reliable(head) ==> !s.failed)
    ensures id in s.tables.spots <==> id in t.spots
    ensures id in t.spots ==> Learned(t.spots[id], s.tables.spots[id], AnswerFor(head, id))
    ensures id in s.targets ==> id in t.spots && !t.spots[id].spot.moderated
    ensures Reliable(head) ==>
      (id in s.targets <==> exists j | 0 <= j < |cmds| :: cmds[j].target == id && MayWithdraw(t, cmds[j], head))
  {
    EntitledIs(t, cmds, head, id);
    hide MayWithdraw;
  }

  lemma DoneIs(t: Tables, cmds: seq<Command>, c: Command, head: Head)
    ensures Done(t, cmds + [c], |cmds|, head)
       <==> exists j | 0 <= j < |cmds| :: cmds[j].target == c.target && MayWithdraw(t, cmds[j], head)
  {
    hide MayWithdraw;
    assert forall j | 0 <= j < |cmds| :: (cmds + [c])[j] == cmds[j];
  }

  lemma NoteIs(s: Scan, c: Command, head: Head)
    ensures Visit(s, c, head).outcomes == s.outcomes + [Label(s, c, head)]
  {
    hide WithinDisposeWindow, ValidateDispose;
  }

  /** The label of a visit. */
  function Label(s: Scan, c: Command, head: Head): Outcome {
    if !c.verified then Unverified
    else if c.target in s.targets then Repeated
    else if c.target !in s.tables.spots then NoTarget
    else
      var spot := s.tables.spots[c.target].spot;
      if spot.moderated then AlreadyModerated
      else if c.moderator then Queued(true)
      else if !WithinDisposeWindow(c, spot.postedAt) then TooLate
      else
        var owner := if spot.owner == "" && head.Head? && !s.failed then LookUp(s, c.target, head).1 else spot.owner;
        if owner == "" then OwnerUnknown
        else if !ValidateDispose(c, owner, spot.postedAt) then NotOwner
        else Queued(false)
  }

  lemma VisitLabels(t: Tables, cmds: seq<Command>, c: Command, head: Head, s: Scan)
    requires ScanInv(t, cmds, cmds, head, s) && (Reliable(head) ==> !s.failed)
    ensures Plain(t, c, Label(s, c, head))
  {
    ScanOf(t, cmds, head, s, c.target);
    hide ScanInv, MayWithdraw, WithinDisposeWindow, ValidateDispose, LookUp;
  }

  /** The owner that the visit judges by is the one named. */
  lemma OwnerIs(t: Tables, cmds: seq<Command>, c: Command, head: Head, s: Scan)
    requires ScanInv(t, cmds, cmds, head, s) && !s.failed && Reliable(head) && c.target in t.spots
    ensures c.target in s.tables.spots
    ensures var spot := s.tables.spots[c.target].spot;
      && spot.postedAt == t.spots[c.target].spot.postedAt
      && spot.moderated == t.spots[c.target].spot.moderated
      && OwnerNamed(t, c.target, head)
         == if spot.owner == "" && head.Head? then LookUp(s, c.target, head).1 else spot.owner
  {
    ScanOf(t, cmds, head, s, c.target);
    hide ScanInv, MayWithdraw;
  }

  lemma VisitIs(t: Tables, cmds: seq<Command>, c: Command, head: Head, s: Scan)
    requires ScanInv(t, cmds, cmds, head, s) && !s.failed && Reliable(head)
    ensures Label(s, c, head) == OutcomeOf(t, cmds + [c], |cmds|, head)
  {
    ScanOf(t, cmds, head, s, c.target);
    DoneIs(t, cmds, c, head);
    if c.target in t.spots { OwnerIs(t, cmds, c, head, s); }
    hide ScanInv, MayWithdraw, Done, OwnerNamed, LookUp, Learned, Reliable;
  }

  lemma ExactMore(t: Tables, cmds: seq<Command>, c: Command, head: Head, outcomes: seq<Outcome>, o: Outcome)
    requires Exact(t, cmds, head, outcomes) && Plain(t, c, o)
    requires Reliable(head) ==> o == OutcomeOf(t, cmds + [c], |cmds|, head)
    ensures Exact(t, cmds + [c], head, outcomes + [o])
  {
    hide OutcomeOf, Plain, Reliable;
    forall i: nat | i < |cmds| ensures OutcomeOf(t, cmds + [c], i, head) == OutcomeOf(t, cmds, i, head) {
      SameStart(t, cmds, c, i, head);
    }
  }

  /** Every command ends in the outcome that the tables before the batch, the batch and the answers give it;
      on a connection that fails, the three that depend on the tables alone still hold. */
  lemma {:induction false} OutcomesAre(t: Tables, cmds: seq<Command>, head: Head)
    ensures Exact(t, cmds, head, ScanAll(t, cmds, head).outcomes)
  {
    hide Visit, ScanInv, OutcomeOf, Label, Exact;
    if cmds == [] {
      NoOutcomes(t, head);
    } else {
      var init, c := cmds[..|cmds| - 1], cmds[|cmds| - 1];
      var s := ScanAll(t, init, head);
      OutcomesAre(t, init, head);
      ScanKeeps(t, init, head);
      NoteIs(s, c, head);
      if Reliable(head) {
        ReliableNeverFails(t, init, head);
        VisitIs(t, init, c, head, s);
      }
      VisitLabels(t, init, c, head, s);
      ExactMore(t, init, c, head, s.outcomes, Label(s, c, head));
      assert cmds == init + [c];
    }
  }

  lemma NoOutcomes(t: Tables, head: Head)
    ensures Exact(t, [], head, ScanAll(t, [], head).outcomes)
  {}

  // ---------------------------------------------------------------------- counters

  ghost function Ending(outcomes: seq<Outcome>, o: Outcome): set<int> {
    set i | 0 <= i < |outcomes| && outcomes[i] == o
  }

  lemma EndingMore(init: seq<Outcome>, last: Outcome, o: Outcome)
    ensures Ending(init + [last], o) == Ending(init, o) + (if last == o then {|init|} else {})
  {
    var all := init + [last];
    assert forall i | 0 <= i < |init| :: all[i] == init[i];
  }

  /** How many commands of the batch ended so. */
  lemma {:induction false} CountIs(outcomes: seq<Outcome>, o: Outcome)
    ensures Count(outcomes, o) == |Ending(outcomes, o)|
  {
    if outcomes != [] {
      var init, last := outcomes[..|outcomes| - 1], outcomes[|outcomes| - 1];
      CountIs(init, o);
      EndingMore(init, last, o);
      assert outcomes == init + [last];
      assert |init| !in Ending(init, o);
      hide Ending;
    }
  }

  lemma AskedIs(t: Tables, cmds: seq<Command>, c: Command, head: Head)
    requires c.target in t.spots && t.spots[c.target].spot.owner == ""
    ensures AskedBefore(t, cmds + [c], |cmds|) <==> NeedsLookup(t, cmds, c.target)
  {
    assert forall j | 0 <= j < |cmds| :: (cmds + [c])[j] == cmds[j];
    forall d: Command | d.target == c.target
      ensures Personal(d, t.spots[c.target]) <==> Open(t, d) && !d.moderator && InTime(t, d)
    {}
    hide Personal, Open, InTime;
    if NeedsLookup(t, cmds, c.target) {
      var d :| d in cmds && d.target == c.target && Personal(d, t.spots[c.target]);
      var j :| 0 <= j < |cmds| && cmds[j] == d;
      assert (cmds + [c])[j] == d;
    }
  }

  /** Does the visit look the owner up? */
  predicate LooksUp(s: Scan, c: Command, head: Head) {
    && c.verified && c.target !in s.targets && c.target in s.tables.spots
    && !s.tables.spots[c.target].spot.moderated && !c.moderator
    && WithinDisposeWindow(c, s.tables.spots[c.target].spot.postedAt)
    && s.tables.spots[c.target].spot.owner == "" && head.Head? && !s.failed
  }

  lemma VisitLooksUp(s: Scan, c: Command, head: Head)
    ensures Visit(s, c, head).lookups == s.lookups + if LooksUp(s, c, head) then 1 else 0
  {
    hide WithinDisposeWindow, ValidateDispose;
  }

  /** The row's owner is known to the scan. */
  lemma KnownOwner(t: Tables, cmds: seq<Command>, c: Command, head: Head, s: Scan)
    requires ScanInv(t, cmds, cmds, head, s) && !s.failed && head.Head?
    requires c.target in t.spots && c.target !in s.targets
    ensures s.tables.spots[c.target].spot.owner == "" <==>
      t.spots[c.target].spot.owner == ""
        && (OwnerNamed(t, c.target, head) == "" || !NeedsLookup(t, cmds, c.target))
  {
    var id := c.target;
    assert Learned(t.spots[id], s.tables.spots[id], AnswerFor(head, id));
    hide NeedsLookup, Entitled, LearnStep;
  }

  lemma VisitAsks(t: Tables, cmds: seq<Command>, c: Command, head: Head, s: Scan)
    requires ScanInv(t, cmds, cmds, head, s) && !s.failed && Reliable(head)
    ensures LooksUp(s, c, head) <==> Asks(t, cmds + [c], |cmds|, head)
  {
    ScanOf(t, cmds, head, s, c.target);
    DoneIs(t, cmds, c, head);
    if head.Head? && c.target in t.spots && c.target !in s.targets {
      KnownOwner(t, cmds, c, head, s);
      if t.spots[c.target].spot.owner == "" { AskedIs(t, cmds, c, head); }
    }
    hide ScanInv, MayWithdraw, Done, AskedBefore, OwnerNamed, NeedsLookup;
  }

  lemma SameAsks(t: Tables, cmds: seq<Command>, c: Command, i: nat, head: Head)
    requires i < |cmds|
    ensures Asks(t, cmds + [c], i, head) == Asks(t, cmds, i, head)
  {
    assert forall j | 0 <= j <= i :: (cmds + [c])[j] == cmds[j];
    hide MayWithdraw, Open, InTime, OwnerNamed;
  }

  ghost function Asked(t: Tables, cmds: seq<Command>, head: Head): set<int> {
    set i | 0 <= i < |cmds| && Asks(t, cmds, i, head)
  }

  lemma AskedMore(t: Tables, cmds: seq<Command>, c: Command, head: Head)
    ensures Asked(t, cmds + [c], head)
         == Asked(t, cmds, head) + (if Asks(t, cmds + [c], |cmds|, head) then {|cmds|} else {})
  {
    hide Asks;
    forall i: nat | i < |cmds| ensures Asks(t, cmds + [c], i, head) == Asks(t, cmds, i, head) {
      SameAsks(t, cmds, c, i, head);
    }
  }

  lemma {:induction false} LookupsAre(t: Tables, cmds: seq<Command>, head: Head)
    requires Reliable(head)
    ensures ScanAll(t, cmds, head).lookups == |Asked(t, cmds, head)|
  {
    hide Visit, ScanInv, Asks, LooksUp;
    if cmds != [] {
      var init, c := cmds[..|cmds| - 1], cmds[|cmds| - 1];
      var s := ScanAll(t, init, head);
      LookupsAre(t, init, head);
      ScanKeeps(t, init, head);
      ReliableNeverFails(t, init, head);
      VisitLooksUp(s, c, head);
      VisitAsks(t, init, c, head, s);
      AskedMore(t, init, c, head);
      assert cmds == init + [c] && |init| !in Asked(t, init, head);
      hide Asked;
    }
  }

  /** Where the batch ends in an outcome. */
  ghost function EndingAt(t: Tables, cmds: seq<Command>, head: Head, o: Outcome): set<int> {
    set i | 0 <= i < |cmds| && OutcomeOf(t, cmds, i, head) == o
  }

  /** The counts of a batch, without the loop. */
  lemma CountsAre(t: Tables, cmds: seq<Command>, head: Head)
    ensures var outcomes := ScanAll(t, cmds, head).outcomes;
      && Count(outcomes, Unverified) == |set i | 0 <= i < |cmds| && !cmds[i].verified|
      && Count(outcomes, NoTarget) == |set i | 0 <= i < |cmds| && cmds[i].verified && cmds[i].target !in t.spots|
      && Count(outcomes, AlreadyModerated)
         == |set i | 0 <= i < |cmds| && cmds[i].verified && cmds[i].target in t.spots
              && t.spots[cmds[i].target].spot.moderated|
    ensures Reliable(head) ==> forall o :: Count(ScanAll(t, cmds, head).outcomes, o) == |EndingAt(t, cmds, head, o)|
  {
    var outcomes := ScanAll(t, cmds, head).outcomes;
    OutcomesAre(t, cmds, head);
    CountIs(outcomes, Unverified);
    CountIs(outcomes, NoTarget);
    CountIs(outcomes, AlreadyModerated);
    hide ScanAll, OutcomeOf, Reliable;
    assert Ending(outcomes, Unverified) == set i | 0 <= i < |cmds| && !cmds[i].verified;
    assert Ending(outcomes, NoTarget) == set i | 0 <= i < |cmds| && cmds[i].verified && cmds[i].target !in t.spots;
    assert Ending(outcomes, AlreadyModerated)
        == set i | 0 <= i < |cmds| && cmds[i].verified && cmds[i].target in t.spots
             && t.spots[cmds[i].target].spot.moderated;
    if Reliable(head) {
      forall o ensures Count(outcomes, o) == |EndingAt(t, cmds, head, o)| {
        CountIs(outcomes, o);
        assert Ending(outcomes, o) == EndingAt(t, cmds, head, o);
      }
    }
  }

  // -------------------------------------------------------------------- the targets

  /** What the batch withdraws, in numbers. */
  lemma TargetsAre(t: Tables, cmds: seq<Command>, head: Head)
    ensures Targets(t, cmds, head) == set c | c in cmds && MayWithdraw(t, c, head) :: c.target
  {
    forall c: Command ensures MayWithdraw(t, c, head)
       <==> c.target in t.spots && Entitles(c, t.spots[c.target], AnswerFor(head, c.target)) {
      EntitlesIs(t, c, head);
    }
    hide MayWithdraw, Entitles;
  }

  /** An owner's own withdrawal of a listed spot is applied if and only if it comes after the spot and no more
      than five days after it. */
  lemma OwnersCommand(t: Tables, c: Command, head: Head)
    requires c.verified && !c.moderator && c.spotter != "" && Reliable(head)
    requires c.target in t.spots && !t.spots[c.target].spot.moderated
    requires OwnerNamed(t, c.target, head) == c.spotter
    ensures c.target in ScanAll(t, [c], head).targets <==> 0 <= c.stamp - t.spots[c.target].spot.postedAt <= 432000
  {
    QueuesExactlyTheTargets(t, [c], head);
    TargetsAre(t, [c], head);
    hide ScanAll;
    assert c.target in SetOf(ScanAll(t, [c], head).targets) <==> c.target in Targets(t, [c], head);
    assert [c][0] == c;
  }

  // ------------------------------------------------------------- a connection that fails

  /** The first lookup that fails is the last one made, and the scan has failed if and only if there was one. */
  ghost predicate StopsAtFailure(s: Scan, head: Head) {
    && (s.failed <==> head.Head? && s.lookups > 0 && head.drops(s.lookups - 1))
    && (head.Head? ==> forall k | 0 <= k < s.lookups - 1 :: !head.drops(k))
  }

  lemma VisitStops(s: Scan, c: Command, head: Head)
    requires StopsAtFailure(s, head)
    ensures StopsAtFailure(Visit(s, c, head), head)
  {
    hide WithinDisposeWindow, ValidateDispose;
  }

  lemma {:induction false} LookupsStop(t: Tables, cmds: seq<Command>, head: Head)
    ensures StopsAtFailure(ScanAll(t, cmds, head), head)
  {
    hide Visit;
    if cmds != [] {
      LookupsStop(t, cmds[..|cmds| - 1], head);
      VisitStops(ScanAll(t, cmds[..|cmds| - 1], head), cmds[|cmds| - 1], head);
    }
  }
}
