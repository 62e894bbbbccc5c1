/** The newsgroup as the workers see it: article numbers with an overview line each. The server is
    static; what can fail is the connection to it. */
module Server {
  import opened Store
  import opened Moderation
  import opened Orders

  /** What an overview line parses to (spotnet.ParseFromOverview and ParseDispose). */
  datatype Article =
    | NotSpotnet
    | Withdrawal(cmd: Command)
    | Post(spot: Spot, headerVerified: bool, validId: bool)

  datatype Line = Line(num: int, article: Article)

  type Group = map<int, Article>

  /** overviewChunkSize: the longest range of one OVER request. */
  const CHUNK_SIZE := 5000

  /** OVER lo-hi: the articles of the range, in order. */
  function Overview(group: Group, lo: int, hi: int): seq<Line>
    decreases hi - lo + 1
  {
    if lo > hi then []
    else Overview(group, lo, hi - 1) + if hi in group then [Line(hi, group[hi])] else []
  }

  function Commands(lines: seq<Line>): seq<Command> {
    if lines == [] then []
    else
      var last := lines[|lines| - 1].article;
      Commands(lines[..|lines| - 1]) + if last.Withdrawal? then [last.cmd] else []
  }

  /** Article `n` posts `spot` with a valid message-id, and in strict mode with a verified header. */
  predicate ValidPost(group: Group, n: int, spot: Spot, verifySignatures: bool) {
    && n in group && group[n].Post? && group[n].spot == spot && group[n].validId
    && (verifySignatures ==> group[n].headerVerified)
  }

  predicate Accepted(a: Article, verifySignatures: bool) {
    a.Post? && (verifySignatures ==> a.headerVerified) && a.validId
  }

  function Posts(lines: seq<Line>, verifySignatures: bool): seq<Spot> {
    if lines == [] then []
    else
      var last := lines[|lines| - 1].article;
      Posts(lines[..|lines| - 1], verifySignatures) + if Accepted(last, verifySignatures) then [last.spot] else []
  }

  predicate Ascending(lines: seq<Line>) {
    forall i, j | 0 <= i < j < |lines| :: lines[i].num < lines[j].num
  }

  lemma {:induction false} OverviewHas(group: Group, lo: int, hi: int)
    ensures forall l <- Overview(group, lo, hi) :: lo <= l.num <= hi && l.num in group && l.article == group[l.num]
    ensures (forall n | lo <= n <= hi && n in group :: Line(n, group[n]) in Overview(group, lo, hi))
    decreases hi - lo + 1
  {
    if lo <= hi {
      OverviewHas(group, lo, hi - 1);
    }
  }

  lemma {:induction false} OverviewAscends(group: Group, lo: int, hi: int)
    ensures Ascending(Overview(group, lo, hi))
    decreases hi - lo + 1
  {
    if lo <= hi {
      OverviewAscends(group, lo, hi - 1);
      OverviewHas(group, lo, hi - 1);
    }
  }

  lemma {:induction false} OverviewSplit(group: Group, lo: int, mid: int, hi: int)
    requires lo <= mid + 1 && mid <= hi
    ensures Overview(group, lo, hi) == Overview(group, lo, mid) + Overview(group, mid + 1, hi)
    decreases hi - mid
  {
    if mid < hi {
      OverviewSplit(group, lo, mid, hi - 1);
    }
  }

  lemma {:induction false} CommandsHas(lines: seq<Line>)
    ensures forall c :: c in Commands(lines) <==> exists l <- lines :: l.article == Withdrawal(c)
  {
    if lines != [] {
      var init, last := lines[..|lines| - 1], lines[|lines| - 1];
      CommandsHas(init);
      assert forall l :: l in lines <==> l in init || l == last;
    }
  }

  lemma {:induction false} PostsHas(lines: seq<Line>, verifySignatures: bool)
    ensures forall s :: s in Posts(lines, verifySignatures) <==>
      exists l <- lines :: Accepted(l.article, verifySignatures) && l.article.spot == s
  {
    if lines != [] {
      var init, last := lines[..|lines| - 1], lines[|lines| - 1];
      PostsHas(init, verifySignatures);
      assert forall l :: l in lines <==> l in init || l == last;
    }
  }

  /** Exactly the posts with a valid message-id, and in strict mode a verified header, in the order of the
      lines. */
  lemma {:induction false} PostsAre(lines: seq<Line>, verifySignatures: bool)
    ensures InOrder(Posts(lines, verifySignatures),
              map i | 0 <= i < |lines| && lines[i].article.Post? && lines[i].article.validId
                && (lines[i].article.headerVerified || !verifySignatures) :: lines[i].article.spot)
  {
    hide InOrder;
    var f := map i | 0 <= i < |lines| && lines[i].article.Post? && lines[i].article.validId
      && (lines[i].article.headerVerified || !verifySignatures) :: lines[i].article.spot;
    if lines == [] {
      NothingInOrder(f);
    } else {
      var init, n, a := lines[..|lines| - 1], |lines| - 1, lines[|lines| - 1].article;
      var g := map i | 0 <= i < |init| && init[i].article.Post? && init[i].article.validId
        && (init[i].article.headerVerified || !verifySignatures) :: init[i].article.spot;
      PostsAre(init, verifySignatures);
      if a.Post? && a.validId && (a.headerVerified || !verifySignatures) {
        assert f == g[n := a.spot];
        OneMoreInOrder(Posts(init, verifySignatures), g, n, a.spot, f);
      } else {
        assert f == g;
        assert Posts(lines, verifySignatures) == Posts(init, verifySignatures);
      }
    }
  }

  /** Exactly the withdrawals, in order. */
  lemma {:induction false} CommandsAre(lines: seq<Line>)
    ensures InOrder(Commands(lines),
              map i | 0 <= i < |lines| && lines[i].article.Withdrawal? :: lines[i].article.cmd)
  {
    var f := map i | 0 <= i < |lines| && lines[i].article.Withdrawal? :: lines[i].article.cmd;
    if lines == [] {
      NothingInOrder(f);
    } else {
      var init, n, a := lines[..|lines| - 1], |lines| - 1, lines[|lines| - 1].article;
      var g := map i | 0 <= i < |init| && init[i].article.Withdrawal? :: init[i].article.cmd;
      CommandsAre(init);
      if a.Withdrawal? {
        assert f == g[n := a.cmd];
        OneMoreInOrder(Commands(init), g, n, a.cmd, f);
      } else {
        assert f == g;
        assert Commands(lines) == Commands(init);
      }
    }
  }
}
