/** Keyset paging of a listing in date order (listSpots in internal/api/router.go, SearchSpots in
    internal/db/db.go): a page is some LIMIT of the newest matches before a timestamp, ties broken
    any way, and `next_before` is the timestamp of its last spot. */
module Paging {
  import opened SetSizes

  datatype Hit = Hit(id: nat, postedAt: int)

  const DEFAULT_LIMIT := 25

  /** clampPaging. */
  function ClampPaging(limit: int, offset: int, maxPageSize: int, maxOffset: int): (r: (int, int))
    requires maxPageSize >= 1 && maxOffset >= 0   // what the configuration guarantees
    ensures 1 <= r.0 <= maxPageSize && 0 <= r.1 <= maxOffset
    ensures 1 <= limit <= maxPageSize ==> r.0 == limit
    ensures 0 <= offset <= maxOffset ==> r.1 == offset
    ensures limit > maxPageSize ==> r.0 == maxPageSize
    ensures limit < 1 ==> r.0 == if maxPageSize < 25 then maxPageSize else 25
    ensures offset < 0 ==> r.1 == 0
    ensures offset > maxOffset ==> r.1 == maxOffset
  {
    var l := if limit < 1 then DEFAULT_LIMIT else limit;
    var o := if offset < 0 then 0 else offset;
    (if l > maxPageSize then maxPageSize else l, if o > maxOffset then maxOffset else o)
  }

  /** 2000-01-01, before which a date is a parsing artifact. */
  const SPOTNET_EPOCH := 946684800

  const MAX_CLOCK_SKEW := 48 * 3600

  predicate PlausibleSpotTime(t: int, now: int) {
    SPOTNET_EPOCH < t < now + MAX_CLOCK_SKEW
  }

  datatype Date = At(unix: int) | NoDate

  /** The stamp of the From header if it is a plausible time, else the Date header if that is, else the
      spot is refused: no spot is stored with a date that would end the paging. */
  function ResolvePostedAt(stamp: Date, header: Date, now: int): (r: Date)
    ensures stamp.At? && 946684800 < stamp.unix < now + 172800 ==> r == stamp
    ensures !(stamp.At? && 946684800 < stamp.unix < now + 172800) ==>
      r == if header.At? && 946684800 < header.unix < now + 172800 then header else NoDate
    ensures r.At? ==> r.unix > 0
  {
    if stamp.At? && stamp.unix > 0 && PlausibleSpotTime(stamp.unix, now) then stamp
    else if header.At? && PlausibleSpotTime(header.unix, now) then header
    else NoDate
  }

  /** `before` is a filter only when it is positive. */
  function Matching(all: set<Hit>, before: int): set<Hit> {
    set h | h in all && (before > 0 ==> h.postedAt < before)
  }

  function Set(page: seq<Hit>): set<Hit> {
    set h | h in page
  }

  ghost predicate Descending(page: seq<Hit>) {
    forall i, j | 0 <= i < j < |page| :: page[i].postedAt >= page[j].postedAt
  }

  ghost predicate NoRepeats(page: seq<Hit>) {
    forall i, j | 0 <= i < j < |page| :: page[i] != page[j]
  }

  /** ORDER BY posted_at DESC LIMIT n: which of equally old spots come first is open. */
  ghost predicate IsPage(all: set<Hit>, before: int, limit: nat, page: seq<Hit>) {
    var hits := Matching(all, before);
    && NoRepeats(page) && Descending(page) && Set(page) <= hits
    && |page| == (if |hits| < limit then |hits| else limit)
    && (forall h, p | h in hits && h !in page && p in page :: h.postedAt <= p.postedAt)
  }

  function NextBefore(page: seq<Hit>): int
    requires page != []
  {
    page[|page| - 1].postedAt
  }

  /** The pages a client gets that follows `next_before` until a page is empty. */
  ghost predicate Walk(all: set<Hit>, before: int, limit: nat, pages: seq<seq<Hit>>)
    decreases |pages|
  {
    && pages != [] && IsPage(all, before, limit, pages[0])
    && if pages[0] == [] then |pages| == 1 else Walk(all, NextBefore(pages[0]), limit, pages[1..])
  }

  function Listed(pages: seq<seq<Hit>>): seq<Hit> {
    if pages == [] then [] else pages[0] + Listed(pages[1..])
  }

  // ------------------------------------------------------------------- a page

  lemma NewestOf(hits: set<Hit>) returns (h: Hit)
    requires hits != {}
    ensures h in hits && forall g <- hits :: g.postedAt <= h.postedAt
    decreases |hits|
  {
    h :| h in hits;
    var rest := hits - {h};
    if rest != {} {
      var g := NewestOf(rest);
      if g.postedAt > h.postedAt { h := g; }
    }
  }

  /** There is always such a page. */
  lemma {:induction false} PageExists(hits: set<Hit>, limit: nat) returns (page: seq<Hit>)
    ensures NoRepeats(page) && Descending(page) && Set(page) <= hits
    ensures |page| == if |hits| < limit then |hits| else limit
    ensures forall h, p | h in hits && h !in page && p in page :: h.postedAt <= p.postedAt
    decreases limit
  {
    if limit == 0 || hits == {} {
      page := [];
    } else {
      var h := NewestOf(hits);
      var rest := PageExists(hits - {h}, limit - 1);
      page := [h] + rest;
      forall r <- rest ensures r in hits - {h} { assert r in Set(rest); }
      assert forall r :: r in page <==> r == h || r in rest;
    }
  }

  /** A page that is empty, or not full, leaves nothing out. */
  lemma PageFacts(all: set<Hit>, before: int, limit: nat, page: seq<Hit>)
    requires limit >= 1 && IsPage(all, before, limit, page)
    ensures page == [] ==> Matching(all, before) == {}
    ensures page != [] ==> forall h <- Matching(all, before) :: h in page || h.postedAt <= NextBefore(page)
    ensures forall h <- page :: h in Matching(all, before) && h.postedAt >= NextBefore(page)
  {
    forall h <- page ensures h in Matching(all, before) { assert h in Set(page); }
    if page != [] {
      assert page[|page| - 1] in page;
    }
  }

  /** ... and so there is always a walk. */
  lemma {:induction false} WalkExists(all: set<Hit>, before: int, limit: nat) returns (pages: seq<seq<Hit>>)
    requires limit >= 1 && Positive(all)
    ensures Walk(all, before, limit, pages)
    decreases |Matching(all, before)|
  {
    var page := PageExists(Matching(all, before), limit);
    PageFacts(all, before, limit, page);
    if page == [] {
      pages := [page];
    } else {
      var next, last := NextBefore(page), page[|page| - 1];
      assert last in page;
      assert Matching(all, next) <= Matching(all, before) - {last};
      SubsetSize(Matching(all, next), Matching(all, before) - {last});
      var rest := WalkExists(all, next, limit);
      pages := [page] + rest;
      assert pages[1..] == rest;
    }
  }

  // ------------------------------------------------------------- main results

  ghost predicate Positive(all: set<Hit>) {
    forall h <- all :: h.postedAt > 0
  }

  /** Every page is older than the pages before it. */
  lemma {:induction false} WalkBelow(all: set<Hit>, before: int, limit: nat, pages: seq<seq<Hit>>)
    requires limit >= 1 && Positive(all) && Walk(all, before, limit, pages)
    ensures forall p <- pages, h <- p :: h in Matching(all, before)
    decreases |pages|
  {
    PageFacts(all, before, limit, pages[0]);
    if pages[0] != [] {
      var next := NextBefore(pages[0]);
      WalkBelow(all, next, limit, pages[1..]);
      assert pages[0][|pages[0]| - 1] in pages[0];
      assert forall p <- pages :: p == pages[0] || p in pages[1..];
      assert Matching(all, next) <= Matching(all, before);
    }
  }

  /** The walk ends: each full step leaves fewer matches. */
  lemma {:induction false} WalkIsShort(all: set<Hit>, before: int, limit: nat, pages: seq<seq<Hit>>)
    requires limit >= 1 && Positive(all) && Walk(all, before, limit, pages)
    ensures |pages| <= |Matching(all, before)| + 1
    decreases |pages|
  {
    PageFacts(all, before, limit, pages[0]);
    if pages[0] != [] {
      var next := NextBefore(pages[0]);
      var last := pages[0][|pages[0]| - 1];
      WalkIsShort(all, next, limit, pages[1..]);
      assert last in pages[0];
      assert Matching(all, next) <= Matching(all, before) - {last};
      SubsetSize(Matching(all, next), Matching(all, before) - {last});
    }
  }

  lemma {:induction false} ListedIn(pages: seq<seq<Hit>>, h: Hit)
    ensures h in Listed(pages) <==> exists p <- pages :: h in p
  {
    if pages != [] {
      ListedIn(pages[1..], h);
      assert forall p :: p in pages <==> p == pages[0] || p in pages[1..];
    }
  }

  /** No spot twice, newest first over all pages. */
  lemma {:induction false} WalkSorted(all: set<Hit>, before: int, limit: nat, pages: seq<seq<Hit>>)
    requires limit >= 1 && Positive(all) && Walk(all, before, limit, pages)
    ensures NoRepeats(Listed(pages)) && Descending(Listed(pages))
    decreases |pages|
  {
    PageFacts(all, before, limit, pages[0]);
    if pages[0] == [] {
      assert Listed(pages[1..]) == [];
    } else {
      var next, rest := NextBefore(pages[0]), Listed(pages[1..]);
      WalkSorted(all, next, limit, pages[1..]);
      WalkBelow(all, next, limit, pages[1..]);
      forall h <- rest ensures h.postedAt < next {
        ListedIn(pages[1..], h);
      }
      hide Walk, IsPage;
      JoinSorted(pages[0], rest, next);
    }
  }

  lemma JoinSorted(page: seq<Hit>, rest: seq<Hit>, next: int)
    requires NoRepeats(page) && Descending(page) && NoRepeats(rest) && Descending(rest)
    requires (forall h <- page :: h.postedAt >= next) && (forall h <- rest :: h.postedAt < next)
    ensures NoRepeats(page + rest) && Descending(page + rest)
  {
    assert forall i | 0 <= i < |page| :: page[i] in page;
    assert forall i | 0 <= i < |rest| :: rest[i] in rest;
  }

  /** `h` shares its timestamp with the last spot of a page that does not show it. */
  ghost predicate CutOff(pages: seq<seq<Hit>>, h: Hit) {
    exists p <- pages :: p != [] && NextBefore(p) == h.postedAt && h !in p
  }

  lemma {:induction false} UnlistedExactly(all: set<Hit>, before: int, limit: nat, pages: seq<seq<Hit>>, h: Hit)
    requires limit >= 1 && Positive(all) && Walk(all, before, limit, pages) && h in Matching(all, before)
    ensures h !in Listed(pages) <==> CutOff(pages, h)
    decreases |pages|
  {
    PageFacts(all, before, limit, pages[0]);
    var page, rest := pages[0], pages[1..];
    var next := NextBefore(page);
    assert forall p :: p in pages <==> p == page || p in rest;
    assert page[|page| - 1] in page;
    WalkBelow(all, next, limit, rest);
    if h in Matching(all, next) {
      UnlistedExactly(all, next, limit, rest, h);
      assert h !in page;
    } else {
      assert h.postedAt >= next;
      ListedIn(rest, h);
      forall p <- rest | p != [] ensures NextBefore(p) < next {
        assert p[|p| - 1] in p;
      }
    }
  }

  /** A client that follows `next_before` from the first page to an empty one gets a finite list without
      repeats, newest first, of all visible matches except exactly those that share their timestamp
      with the last spot of a page and were not on it. */
  lemma PagingListsAllButTies(all: set<Hit>, limit: nat, pages: seq<seq<Hit>>)
    requires limit >= 1 && Positive(all) && Walk(all, 0, limit, pages)
    ensures |pages| <= |all| + 1
    ensures NoRepeats(Listed(pages)) && Descending(Listed(pages)) && Set(Listed(pages)) <= all
    ensures forall h <- all :: h !in Listed(pages) <==> CutOff(pages, h)
  {
    assert Matching(all, 0) == all;
    WalkIsShort(all, 0, limit, pages);
    WalkSorted(all, 0, limit, pages);
    WalkBelow(all, 0, limit, pages);
    forall h <- Set(Listed(pages)) ensures h in all { ListedIn(pages, h); }
    forall h <- all ensures h !in Listed(pages) <==> CutOff(pages, h) {
      UnlistedExactly(all, 0, limit, pages, h);
    }
  }

  /** With distinct timestamps nothing is missed. */
  lemma DistinctTimesListAll(all: set<Hit>, limit: nat, pages: seq<seq<Hit>>)
    requires limit >= 1 && Positive(all) && Walk(all, 0, limit, pages) && DistinctTimes(all)
    ensures Set(Listed(pages)) == all
  {
    PagingListsAllButTies(all, limit, pages);
    forall h <- all ensures h in Listed(pages) {
      WalkBelow(all, 0, limit, pages);
      forall p <- pages | p != [] && NextBefore(p) == h.postedAt ensures h in p {
        var last := p[|p| - 1];
        assert last in p;
      }
    }
  }

  lemma {:induction false} WalkPages(all: set<Hit>, before: int, limit: nat, pages: seq<seq<Hit>>)
    requires Walk(all, before, limit, pages)
    ensures forall p <- pages :: |p| <= limit
    decreases |pages|
  {
    if pages[0] != [] {
      WalkPages(all, NextBefore(pages[0]), limit, pages[1..]);
    }
    assert forall p <- pages :: p == pages[0] || p in pages[1..];
  }

  /** Pages of one spot list at most one of two spots with the same timestamp. */
  lemma ListsOne(all: set<Hit>, pages: seq<seq<Hit>>, g: Hit, h: Hit)
    requires Positive(all) && Walk(all, 0, 1, pages)
    requires g in all && h in all && g != h && g.postedAt == h.postedAt
    ensures g !in Listed(pages) || h !in Listed(pages)
  {
    ListedIn(pages, g);
    WalkPages(all, 0, 1, pages);
    PagingListsAllButTies(all, 1, pages);
    hide Walk, Listed, Descending, NoRepeats, Positive;
    if g in Listed(pages) {
      var p :| p in pages && g in p;
      Alone(p, g, h);
    }
  }

  lemma Alone(page: seq<Hit>, g: Hit, h: Hit)
    requires |page| <= 1 && g in page && g != h
    ensures NextBefore(page) == g.postedAt && h !in page
  {}

  /** Two spots of one timestamp: with pages of one spot there is a walk that misses one of the two. */
  lemma TiesAreMissed(all: set<Hit>, g: Hit, h: Hit) returns (pages: seq<seq<Hit>>)
    requires Positive(all) && g in all && h in all && g != h && g.postedAt == h.postedAt
    ensures Walk(all, 0, 1, pages) && Set(Listed(pages)) != all
  {
    pages := WalkExists(all, 0, 1);
    hide Walk, Listed;
    ListsOne(all, pages, g, h);
    assert g in Set(Listed(pages)) ==> g in Listed(pages);
    assert h in Set(Listed(pages)) ==> h in Listed(pages);
  }

  ghost predicate ListsAll(all: set<Hit>, limit: nat, pages: seq<seq<Hit>>) {
    Walk(all, 0, limit, pages) ==> Set(Listed(pages)) == all
  }

  ghost predicate DistinctTimes(all: set<Hit>) {
    forall g, h | g in all && h in all && g.postedAt == h.postedAt :: g == h
  }

  /** Every walk with every page size lists every match if and only if no two matches share a timestamp. */
  lemma ListsAllExactlyWhen(all: set<Hit>)
    requires Positive(all)
    ensures (forall limit: nat, pages | limit >= 1 :: ListsAll(all, limit, pages)) <==> DistinctTimes(all)
  {
    if DistinctTimes(all) {
      forall limit: nat, pages | limit >= 1 && Walk(all, 0, limit, pages) ensures Set(Listed(pages)) == all {
        DistinctTimesListAll(all, limit, pages);
      }
    } else {
      var g, h :| g in all && h in all && g.postedAt == h.postedAt && g != h;
      var pages := TiesAreMissed(all, g, h);
      assert !ListsAll(all, 1, pages);
    }
  }

  /** A page that ends at a timestamp of zero or less sends the client back to the first page. */
  lemma NonPositiveCursorRestarts(all: set<Hit>, limit: nat, page: seq<Hit>, again: seq<Hit>)
    requires page != [] && NextBefore(page) <= 0
    ensures IsPage(all, NextBefore(page), limit, again) <==> IsPage(all, 0, limit, again)
  {
    assert Matching(all, NextBefore(page)) == Matching(all, 0);
  }

  lemma {:induction false} NeverEnds(all: set<Hit>, before: int, limit: nat, pages: seq<seq<Hit>>, h: Hit)
    requires limit >= 1 && h in all && h.postedAt <= 0
    ensures !Walk(all, before, limit, pages)
    decreases |pages|
  {
    assert h in Matching(all, before);
    if pages != [] && IsPage(all, before, limit, pages[0]) {
      PageFacts(all, before, limit, pages[0]);
      NeverEnds(all, NextBefore(pages[0]), limit, pages[1..], h);
    }
  }

  /** All pages from the first to an empty one. */
  ghost predicate WholeWalk(all: set<Hit>, limit: nat, pages: seq<seq<Hit>>) {
    Walk(all, 0, limit, pages)
  }

  /** The first page leads to an empty one if and only if every timestamp is positive. */
  lemma WalkEndsExactlyWhen(all: set<Hit>, limit: nat)
    requires limit >= 1
    ensures (exists pages :: WholeWalk(all, limit, pages)) <==> Positive(all)
  {
    if Positive(all) {
      var pages := WalkExists(all, 0, limit);
      assert WholeWalk(all, limit, pages);
    } else {
      var h :| h in all && h.postedAt <= 0;
      forall pages: seq<seq<Hit>> ensures !WholeWalk(all, limit, pages) {
        NeverEnds(all, 0, limit, pages, h);
      }
    }
  }
}
