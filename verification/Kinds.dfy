/** The kind of an image spot, computed twice: KindOf pools the codes of three columns, the SQL of the
    migration looks for each code in one column by substring (internal/db/kind.go). They agree on the
    columns the parser writes; on other columns they need not. */
module Kinds {
  import opened SubCats

  const KIND_NONE := 0
  const KIND_MOVIE := 1
  const KIND_SERIES := 2
  const KIND_BOOK := 3
  const KIND_COMIC := 4
  const KIND_EROTIC := 5

  /** codeRange('d', lo, hi). */
  function CodeRange(letter: char, lo: nat, hi: nat): seq<string>
    decreases hi - lo + 1
  {
    if lo > hi then [] else [[letter] + Decimal(lo)] + CodeRange(letter, lo + 1, hi)
  }

  function CodeRanges(letter: char, bounds: seq<nat>): seq<string> {
    if |bounds| < 2 then [] else CodeRange(letter, bounds[0], bounds[1]) + CodeRanges(letter, bounds[2..])
  }

  const EROTIC_GENRES := CodeRanges('d', [23, 26, 72, 89])
  const SERIES_CODES := ["b4", "d11"]
  const BOOK_CODES := ["a5", "a11"]
  const PICTURE_CODES := ["a12", "a13"]

  /** strings.Split(s, "|"). */
  function Split(s: string): (parts: seq<string>)
    ensures parts != []
  {
    if s == [] then [[]]
    else
      var rest := Split(s[1..]);
      if s[0] == '|' then [[]] + rest else [[s[0]] + rest[0]] + rest[1..]
  }

  /** The non-empty parts of some columns. */
  function Pool(columns: seq<string>): set<string> {
    set i, part | 0 <= i < |columns| && part in Split(columns[i]) && part != [] :: part
  }

  predicate AnyIn(list: seq<string>, codes: set<string>) {
    exists c <- list :: c in codes
  }

  /** The two switches of KindOf. */
  function KindFrom(codes: set<string>): int {
    if "z3" in codes then KIND_EROTIC
    else if "z2" in codes && "d31" in codes then KIND_COMIC
    else if "z2" in codes then KIND_BOOK
    else if "z1" in codes then KIND_SERIES
    else if "z0" in codes then KIND_MOVIE
    else if "z4" in codes then KIND_NONE
    else if AnyIn(EROTIC_GENRES, codes) then KIND_EROTIC
    else if AnyIn(SERIES_CODES, codes) then KIND_SERIES
    else if AnyIn(BOOK_CODES, codes) then (if "d31" in codes then KIND_COMIC else KIND_BOOK)
    else if AnyIn(PICTURE_CODES, codes) then KIND_NONE
    else KIND_MOVIE
  }

  predicate OccursAt(s: string, part: string, k: int) {
    0 <= k <= |s| - |part| && s[k..k + |part|] == part
  }

  ghost predicate Contains(s: string, part: string) {
    exists k :: OccursAt(s, part, k)
  }

  /** SQL: instr('|' || col, '|code|') > 0. */
  ghost predicate Has(col: string, code: string) {
    Contains("|" + col, "|" + code + "|")
  }

  ghost predicate HasAny(col: string, list: seq<string>) {
    exists c <- list :: Has(col, c)
  }

  /** kindCaseSQL, evaluated on a row. */
  ghost function KindCaseSql(category: int, subCatA: string, subCatB: string, subCatD: string): int {
    if category != 0 then 0
    else if Has(subCatD, "z3") then 5
    else if Has(subCatD, "z2") && Has(subCatD, "d31") then 4
    else if Has(subCatD, "z2") then 3
    else if Has(subCatD, "z1") then 2
    else if Has(subCatD, "z0") then 1
    else if Has(subCatD, "z4") then 0
    else if HasAny(subCatD, EROTIC_GENRES) then 5
    else if Has(subCatB, "b4") || Has(subCatD, "d11") then 2
    else if HasAny(subCatA, BOOK_CODES) && Has(subCatD, "d31") then 4
    else if HasAny(subCatA, BOOK_CODES) then 3
    else if HasAny(subCatA, PICTURE_CODES) then 0
    else 1
  }

  // ----------------------------------------------------------------- the code

  /** codeRange: bounds in pairs, an odd one out ignored. */
  method CodeRangeOf(letter: char, bounds: seq<nat>) returns (codes: seq<string>)
    ensures codes == CodeRanges(letter, bounds)
  {
    codes := [];
    var i := 0;
    assert bounds[0..] == bounds;
    while i + 1 < |bounds|
      invariant 0 <= i <= |bounds|
      invariant codes + CodeRanges(letter, bounds[i..]) == CodeRanges(letter, bounds)
    {
      var n: int, last: int := bounds[i], bounds[i + 1];
      ghost var before := codes;
      assert before + [] == before;
      while n <= last
        invariant n >= 0 && codes + CodeRange(letter, n, last) == before + CodeRange(letter, bounds[i], last)
        decreases last - n + 1
      {
        Associates(codes, [[letter] + Decimal(n)], CodeRange(letter, n + 1, last));
        codes := codes + [[letter] + Decimal(n)];
        n := n + 1;
      }
      assert codes == before + CodeRange(letter, bounds[i], last);
      assert bounds[i..][2..] == bounds[i + 2..];
      Associates(before, CodeRange(letter, bounds[i], last), CodeRanges(letter, bounds[i + 2..]));
      i := i + 2;
    }
  }

  method Any(list: seq<string>, codes: set<string>) returns (found: bool)
    ensures found == AnyIn(list, codes)
  {
    for i := 0 to |list|
      invariant forall j | 0 <= j < i :: list[j] !in codes
    {
      if list[i] in codes {
        return true;
      }
    }
    return false;
  }

  method KindOf(category: int, subCatA: string, subCatB: string, subCatD: string) returns (kind: int)
    ensures kind == if category != 0 then KIND_NONE else KindFrom(Pool([subCatA, subCatB, subCatD]))
    ensures forall s | subCatA == ParsedColumn(s, ForA) && subCatB == ParsedColumn(s, ForB)
              && subCatD == ParsedColumn(s, ForD) :: kind == KindByCodes(category, Codes(s))
  {
    KindsAre(category, subCatA, subCatB, subCatD);
    hide ParsedColumn, KindByCodes;
    if category != 0 {
      return KIND_NONE;
    }
    var codes: set<string> := {};
    var columns := [subCatA, subCatB, subCatD];
    for i := 0 to |columns|
      invariant codes == Pool(columns[..i])
    {
      var parts := Split(columns[i]);
      for j := 0 to |parts|
        invariant forall p :: p in codes <==> p in Pool(columns[..i]) || (p in parts[..j] && p != [])
      {
        if parts[j] != [] {
          codes := codes + {parts[j]};
        }
      }
      assert parts[..|parts|] == parts;
      PoolMore(columns, i);
    }
    assert columns[..3] == columns;
    if "z3" in codes { return KIND_EROTIC; }
    if "z2" in codes && "d31" in codes { return KIND_COMIC; }
    if "z2" in codes { return KIND_BOOK; }
    if "z1" in codes { return KIND_SERIES; }
    if "z0" in codes { return KIND_MOVIE; }
    if "z4" in codes { return KIND_NONE; }
    var genres := CodeRangeOf('d', [23, 26, 72, 89]);
    var erotic := Any(genres, codes);
    if erotic { return KIND_EROTIC; }
    var series := Any(SERIES_CODES, codes);
    if series { return KIND_SERIES; }
    var book := Any(BOOK_CODES, codes);
    if book {
      if "d31" in codes { return KIND_COMIC; }
      return KIND_BOOK;
    }
    var picture := Any(PICTURE_CODES, codes);
    if picture { return KIND_NONE; }
    return KIND_MOVIE;
  }

  lemma PoolMore(columns: seq<string>, i: nat)
    requires i < |columns|
    ensures forall p :: p in Pool(columns[..i + 1]) <==> p in Pool(columns[..i]) || (p in Split(columns[i]) && p != [])
  {
    var a, b := columns[..i], columns[..i + 1];
    assert b == a + [columns[i]];
    forall p ensures p in Pool(b) <==> p in Pool(a) || (p in Split(columns[i]) && p != []) {
      if p in Pool(a) {
        var k :| 0 <= k < |a| && p in Split(a[k]) && p != [];
        assert b[k] == a[k];
      }
      if p in Split(columns[i]) && p != [] {
        assert b[i] == columns[i];
      }
    }
  }

  // -------------------------------------------------- bars, parts, substrings

  predicate NoBar(s: string) {
    '|' !in s
  }

  function Barred(parts: seq<string>): string {
    if parts == [] then [] else parts[0] + "|" + Barred(parts[1..])
  }

  lemma {:induction false} SplitPart(part: string, rest: string)
    requires NoBar(part)
    ensures Split(part + "|" + rest) == [part] + Split(rest)
  {
    var s := part + "|" + rest;
    if part == [] {
      assert s[1..] == rest;
    } else {
      SplitPart(part[1..], rest);
      assert s[1..] == part[1..] + "|" + rest;
      assert [part[0]] + part[1..] == part;
    }
  }

  lemma {:induction false} SplitBarred(parts: seq<string>)
    requires forall p <- parts :: NoBar(p)
    ensures Split(Barred(parts)) == parts + [[]]
  {
    if parts != [] {
      SplitBarred(parts[1..]);
      SplitPart(parts[0], Barred(parts[1..]));
      assert parts == [parts[0]] + parts[1..];
    }
  }

  /** Where a barred code can lie: at the first part, or further on. */
  lemma FoundFurther(part: string, rest: string, code: string, k: int)
    requires NoBar(part) && NoBar(code)
    requires OccursAt("|" + part + "|" + rest, "|" + code + "|", k)
    ensures code == part || Contains("|" + rest, "|" + code + "|")
  {
    var s, needle, tail := "|" + part + "|" + rest, "|" + code + "|", "|" + rest;
    assert s[k..k + |needle|][0] == needle[0] == '|';
    if k == 0 {
      SameFirst(part, rest, code);
    } else {
      assert forall i | 0 <= i < |part| :: s[1 + i] == part[i] && part[i] != '|';
      var j := k - 1 - |part|;
      assert tail == s[1 + |part|..];
      assert tail[j..j + |needle|] == s[k..k + |needle|];
      assert OccursAt(tail, needle, j);
    }
  }

  lemma SameFirst(part: string, rest: string, code: string)
    requires NoBar(part) && NoBar(code)
    requires OccursAt("|" + part + "|" + rest, "|" + code + "|", 0)
    ensures code == part
  {
    var s, needle := "|" + part + "|" + rest, "|" + code + "|";
    forall i | 0 <= i < |needle| ensures s[i] == needle[i] {
      assert s[0..0 + |needle|][i] == needle[i];
    }
    assert s[1 + |part|] == '|' && needle[1 + |code|] == '|';
    assert forall i | 0 <= i < |part| :: s[1 + i] == part[i] && part[i] != '|';
    assert forall i | 0 <= i < |code| :: needle[1 + i] == code[i] && code[i] != '|';
    assert |code| == |part|;
    assert code == s[1..1 + |code|] == part;
  }

  lemma FoundLater(part: string, rest: string, code: string)
    requires Contains("|" + rest, "|" + code + "|")
    ensures Contains("|" + part + "|" + rest, "|" + code + "|")
  {
    var s, needle, tail := "|" + part + "|" + rest, "|" + code + "|", "|" + rest;
    var j :| OccursAt(tail, needle, j);
    assert s[1 + |part|..] == tail;
    assert s[j + 1 + |part|..j + 1 + |part| + |needle|] == tail[j..j + |needle|];
    assert OccursAt(s, needle, j + 1 + |part|);
  }

  lemma FoundFirst(part: string, rest: string)
    ensures Contains("|" + part + "|" + rest, "|" + part + "|")
  {
    assert OccursAt("|" + part + "|" + rest, "|" + part + "|", 0);
  }

  /** "|code|" occurs in "|" + column exactly when code is one of the column's parts. */
  lemma {:induction false} InstrFindsParts(parts: seq<string>, code: string)
    requires (forall p <- parts :: NoBar(p)) && NoBar(code)
    ensures Has(Barred(parts), code) <==> code in parts
    decreases |parts|
  {
    var s, needle := "|" + Barred(parts), "|" + code + "|";
    if parts == [] {
      assert |s| < |needle|;
    } else {
      var rest := Barred(parts[1..]);
      assert s == "|" + parts[0] + "|" + rest;
      InstrFindsParts(parts[1..], code);
      if Has(Barred(parts), code) {
        var k :| OccursAt(s, needle, k);
        FoundFurther(parts[0], rest, code, k);
      }
      if code == parts[0] {
        FoundFirst(code, rest);
      } else if code in parts[1..] {
        FoundLater(parts[0], rest, code);
      }
    }
  }

  function Names(codes: seq<Code>): seq<string> {
    if codes == [] then [] else [Name(codes[0])] + Names(codes[1..])
  }

  lemma {:induction false} ColumnIsBarred(codes: seq<Code>)
    requires forall c <- codes :: IsLetter(c.letter)
    ensures Column(codes) == Barred(Names(codes))
    ensures forall p <- Names(codes) :: NoBar(p) && p != []
    ensures forall p :: p in Names(codes) <==> exists c <- codes :: p == Name(c)
  {
    if codes != [] {
      ColumnIsBarred(codes[1..]);
      NameHasNoBar(codes[0]);
      assert forall c :: c in codes <==> c == codes[0] || c in codes[1..];
    }
  }

  lemma NameHasNoBar(c: Code)
    requires IsLetter(c.letter)
    ensures NoBar(Name(c)) && Name(c)[0] == c.letter
  {
    assert forall d <- Decimal(c.num) :: IsDigit(d);
  }

  /** A parsed column, taken apart: by Split, and by instr. */
  lemma ColumnHolds(s: string, column: Column4, code: string)
    requires NoBar(code)
    ensures Has(ParsedColumn(s, column), code) <==> exists c <- Codes(s) :: Belongs(c.letter, column) && code == Name(c)
    ensures code != [] ==> (code in Split(ParsedColumn(s, column)) <==> Has(ParsedColumn(s, column), code))
  {
    var own := Own(Codes(s), column);
    CodesProper(s);
    OwnProper(Codes(s), column);
    ColumnIsBarred(own);
    InstrFindsParts(Names(own), code);
    SplitBarred(Names(own));
  }

  /** What a query for a subcategory code lists: the spots that carry the code, and no other. Codes are
      stored in canonical form, so a code with a leading zero finds nothing. */
  lemma QueryFindsCode(s: string, code: string, column: Column4)
    requires ValidSubCode(code) && Belongs(code[0], column)
    ensures Has(ParsedColumn(s, column), code) <==> exists c <- Codes(s) :: code == Name(c)
    ensures |code| > 2 && code[1] == '0' ==> !Has(ParsedColumn(s, column), code)
  {
    assert forall d <- code[1..] :: IsDigit(d);
    assert code == [code[0]] + code[1..];
    ColumnHolds(s, column, code);
    forall c <- Codes(s) | code == Name(c) ensures code[0] == c.letter && !(|code| > 2 && code[1] == '0') {
      ValueOfDecimal(c.num);
      assert code[1..] == Decimal(c.num) && code[1] == Decimal(c.num)[0];
    }
  }

  predicate ValidSubCode(code: string) {
    2 <= |code| <= 4 && IsLetter(code[0]) && forall d <- code[1..] :: IsDigit(d)
  }

  // ------------------------------------------------------------ the two agree

  predicate InColumn(code: string, column: Column4) {
    code != [] && NoBar(code) && Belongs(code[0], column)
  }

  /** A code is in the pool exactly when instr finds it in the column of its letter. */
  lemma PooledIsFound(s: string, code: string, column: Column4)
    requires InColumn(code, column) && column != ForC
    ensures code in Pool([ParsedColumn(s, ForA), ParsedColumn(s, ForB), ParsedColumn(s, ForD)])
        <==> Has(ParsedColumn(s, column), code)
  {
    var columns := [ParsedColumn(s, ForA), ParsedColumn(s, ForB), ParsedColumn(s, ForD)];
    ColumnHolds(s, ForA, code);
    ColumnHolds(s, ForB, code);
    ColumnHolds(s, ForD, code);
    hide ParsedColumn, Split, Has, Name;
    if code in Pool(columns) {
      var i :| 0 <= i < |columns| && code in Split(columns[i]);
      assert i == 0 || i == 1 || i == 2;
      var c :| c in Codes(s) && code == Name(c)
          && (Belongs(c.letter, ForA) || Belongs(c.letter, ForB) || Belongs(c.letter, ForD));
      assert code[0] == c.letter by { FirstOfName(c); }
    }
    assert columns[0] == ParsedColumn(s, ForA) && columns[1] == ParsedColumn(s, ForB);
    assert columns[2] == ParsedColumn(s, ForD);
  }

  lemma FirstOfName(c: Code)
    ensures Name(c)[0] == c.letter
  {}

  lemma AnyPooled(s: string, list: seq<string>, column: Column4)
    requires column != ForC && forall c <- list :: InColumn(c, column)
    ensures AnyIn(list, Pool([ParsedColumn(s, ForA), ParsedColumn(s, ForB), ParsedColumn(s, ForD)]))
        <==> HasAny(ParsedColumn(s, column), list)
  {
    forall c <- list
      ensures c in Pool([ParsedColumn(s, ForA), ParsedColumn(s, ForB), ParsedColumn(s, ForD)])
          <==> Has(ParsedColumn(s, column), c)
    {
      PooledIsFound(s, c, column);
    }
  }

  lemma {:induction false} RangeInColumn(lo: nat, hi: nat)
    ensures forall c <- CodeRange('d', lo, hi) :: InColumn(c, ForD) && |c| >= 2
    decreases hi - lo + 1
  {
    if lo <= hi {
      RangeInColumn(lo + 1, hi);
      NameHasNoBar(Code('d', lo));
    }
  }

  lemma GenresInColumn()
    ensures forall c <- EROTIC_GENRES :: InColumn(c, ForD) && |c| >= 2
  {
    RangeInColumn(23, 26);
    RangeInColumn(72, 89);
    hide CodeRange, InColumn;
    assert [23, 26, 72, 89][2..] == [72, 89];
    LastRange(72, 89);
  }

  lemma LastRange(lo: nat, hi: nat)
    ensures CodeRanges('d', [lo, hi]) == CodeRange('d', lo, hi)
  {
    assert [lo, hi][2..] == [];
    assert CodeRange('d', lo, hi) + [] == CodeRange('d', lo, hi);
  }

  lemma AnyOfTwo(a: string, b: string, codes: set<string>)
    ensures AnyIn([a, b], codes) <==> a in codes || b in codes
  {
    assert [a, b][0] == a && [a, b][1] == b;
  }

  lemma TreesAgree(codes: set<string>, a: string, b: string, d: string)
    requires forall c | c in {"z3", "z2", "z1", "z0", "z4", "d31", "d11"} :: c in codes <==> Has(d, c)
    requires "b4" in codes <==> Has(b, "b4")
    requires AnyIn(EROTIC_GENRES, codes) <==> HasAny(d, EROTIC_GENRES)
    requires AnyIn(BOOK_CODES, codes) <==> HasAny(a, BOOK_CODES)
    requires AnyIn(PICTURE_CODES, codes) <==> HasAny(a, PICTURE_CODES)
    ensures KindFrom(codes) == KindCaseSql(0, a, b, d)
  {
    AnyOfTwo("b4", "d11", codes);
    hide Has, HasAny, AnyIn, EROTIC_GENRES, CodeRanges;
  }

  /** For every wire string and category, the Go classifier and the SQL agree on the parsed columns. */
  lemma KindAgreesWithSql(s: string, category: int)
    ensures var a, b, d := ParsedColumn(s, ForA), ParsedColumn(s, ForB), ParsedColumn(s, ForD);
      (if category != 0 then KIND_NONE else KindFrom(Pool([a, b, d]))) == KindCaseSql(category, a, b, d)
  {
    hide ParsedColumn, Pool, Has, HasAny, AnyIn, CodeRanges, KindFrom;
    var a, b, d := ParsedColumn(s, ForA), ParsedColumn(s, ForB), ParsedColumn(s, ForD);
    forall c | c in {"z3", "z2", "z1", "z0", "z4", "d31", "d11"} ensures c in Pool([a, b, d]) <==> Has(d, c) {
      PooledIsFound(s, c, ForD);
    }
    PooledIsFound(s, "b4", ForB);
    GenresInColumn();
    AnyPooled(s, EROTIC_GENRES, ForD);
    AnyPooled(s, BOOK_CODES, ForA);
    AnyPooled(s, PICTURE_CODES, ForA);
    TreesAgree(Pool([a, b, d]), a, b, d);
  }

  lemma TooShort(col: string, code: string)
    requires |col| < |code| + 1
    ensures !Has(col, code)
  {}

  lemma {:induction false} SplitNoBar(part: string)
    requires NoBar(part)
    ensures Split(part) == [part]
  {
    if part != [] {
      SplitNoBar(part[1..]);
      assert [part[0]] + part[1..] == part;
    }
  }

  lemma PoolOfOne(column: string, code: string, i: nat)
    requires NoBar(code) && code != [] && (column == code || column == code + "|") && i < 3
    ensures Pool(["", "", ""][i := column]) == {code}
  {
    var columns := ["", "", ""][i := column];
    SplitNoBar("");
    SplitNoBar(code);
    SplitPart(code, "");
    assert code + "|" + "" == code + "|";
    assert columns[i] == column && code in Split(columns[i]);
  }

  lemma SqlNotErotic(d: string)
    requires !Has(d, "z3") && !HasAny(d, EROTIC_GENRES)
    ensures KindCaseSql(0, "", "", d) != KIND_EROTIC
  {
    hide Has, HasAny, EROTIC_GENRES, CodeRanges;
  }

  lemma SqlNotSeries(a: string)
    requires !Has("", "z1") && !Has("", "b4") && !Has("", "d11")
    ensures KindCaseSql(0, a, "", "") != KIND_SERIES
  {
    hide Has, HasAny, EROTIC_GENRES, CodeRanges;
  }

  /** Not so on columns the parser never writes. A code without its bar is seen by Split alone: */
  lemma WithoutBarTheyDiffer()
    ensures KindFrom(Pool(["", "", "z3"])) == KIND_EROTIC && KindCaseSql(0, "", "", "z3") != KIND_EROTIC
  {
    hide Pool, KindCaseSql, CodeRanges;
    assert ["", "", ""][2 := "z3"] == ["", "", "z3"];
    PoolOfOne("z3", "z3", 2);
    TooShort("z3", "z3");
    GenresInColumn();
    forall c <- EROTIC_GENRES ensures !Has("z3", c) { TooShort("z3", c); }
    hide Has, InColumn;
    SqlNotErotic("z3");
  }

  /** ... and a code in another letter's column is found by the pool alone. */
  lemma InOtherColumnTheyDiffer()
    ensures KindFrom(Pool(["b4|", "", ""])) == KIND_SERIES && KindCaseSql(0, "b4|", "", "") != KIND_SERIES
  {
    hide Pool, KindCaseSql, CodeRanges;
    assert ["", "", ""][0 := "b4|"] == ["b4|", "", ""];
    PoolOfOne("b4|", "b4", 0);
    NotAGenre();
    TooShort("", "b4");
    TooShort("", "d11");
    TooShort("", "z1");
    hide Has;
    SqlNotSeries("b4|");
    SeriesAlone();
  }

  lemma SeriesAlone()
    requires !AnyIn(EROTIC_GENRES, {"b4"})
    ensures KindFrom({"b4"}) == KIND_SERIES
  {
    AnyOfTwo("b4", "d11", {"b4"});
    hide AnyIn;
    var codes := {"b4"};
    assert forall c <- codes :: c[0] == 'b';
    assert "z3"[0] == 'z' && "z2"[0] == 'z' && "z1"[0] == 'z' && "z0"[0] == 'z' && "z4"[0] == 'z';
  }

  lemma NotAGenre()
    ensures !AnyIn(EROTIC_GENRES, {"b4"})
  {
    GenresInColumn();
    hide CodeRanges;
    forall c <- EROTIC_GENRES ensures c !in {"b4"} {
      assert InColumn(c, ForD) && Belongs(c[0], ForD);
      assert "b4"[0] == 'b';
    }
  }

  // ----------------------------------------------------- what the codes decide

  /** The kind of a spot, from the codes its wire string carries. */
  function KindByCodes(category: int, codes: seq<Code>): int {
    if category != 0 then 0
    else if Code('z', 3) in codes then 5
    else if Code('z', 2) in codes then (if Code('d', 31) in codes then 4 else 3)
    else if Code('z', 1) in codes then 2
    else if Code('z', 0) in codes then 1
    else if Code('z', 4) in codes then 0
    else if exists c <- codes :: c.letter == 'd' && (23 <= c.num <= 26 || 72 <= c.num <= 89) then 5
    else if Code('b', 4) in codes || Code('d', 11) in codes then 2
    else if Code('a', 5) in codes || Code('a', 11) in codes then (if Code('d', 31) in codes then 4 else 3)
    else if Code('a', 12) in codes || Code('a', 13) in codes then 0
    else 1
  }

  lemma NamesDiffer(c: Code, d: Code)
    requires Name(c) == Name(d)
    ensures c == d
  {
    assert Name(c)[1..] == Decimal(c.num) && Name(d)[1..] == Decimal(d.num);
    assert Name(c)[0] == c.letter && Name(d)[0] == d.letter;
    ValueOfDecimal(c.num);
    ValueOfDecimal(d.num);
  }

  lemma PooledIs(s: string, c: Code, column: Column4)
    requires Belongs(c.letter, column) && column != ForC
    ensures Name(c) in Pool([ParsedColumn(s, ForA), ParsedColumn(s, ForB), ParsedColumn(s, ForD)]) <==> c in Codes(s)
  {
    NameHasNoBar(c);
    PooledIsFound(s, Name(c), column);
    ColumnHolds(s, column, Name(c));
    hide Pool, ParsedColumn, Has, Name;
    forall d | d in Codes(s) && Name(d) == Name(c) ensures d == c { NamesDiffer(d, c); }
  }

  lemma {:induction false} RangeIs(lo: nat, hi: nat)
    ensures forall code ::
      code in CodeRange('d', lo, hi) <==> exists n: nat :: lo <= n <= hi && code == Name(Code('d', n))
    decreases hi - lo + 1
  {
    hide Decimal;
    if lo <= hi {
      RangeIs(lo + 1, hi);
      assert Name(Code('d', lo)) == ['d'] + Decimal(lo);
      forall code ensures code in CodeRange('d', lo, hi) <==>
        exists n: nat :: lo <= n <= hi && code == Name(Code('d', n)) {
        assert code in CodeRange('d', lo, hi) <==> code == Name(Code('d', lo)) || code in CodeRange('d', lo + 1, hi);
      }
    }
  }

  lemma GenreList()
    ensures forall code :: code in EROTIC_GENRES <==>
      (exists n: nat :: 23 <= n <= 26 && code == Name(Code('d', n)))
      || (exists n: nat :: 72 <= n <= 89 && code == Name(Code('d', n)))
  {
    RangeIs(23, 26);
    RangeIs(72, 89);
    LastRange(72, 89);
    assert [23, 26, 72, 89][2..] == [72, 89];
    assert EROTIC_GENRES == CodeRange('d', 23, 26) + CodeRange('d', 72, 89);
    hide CodeRange, CodeRanges, EROTIC_GENRES, Name;
  }

  /** d23 to d26 and d72 to d89. */
  lemma GenresAre(s: string)
    ensures AnyIn(EROTIC_GENRES, Pool([ParsedColumn(s, ForA), ParsedColumn(s, ForB), ParsedColumn(s, ForD)]))
       <==> exists c <- Codes(s) :: c.letter == 'd' && (23 <= c.num <= 26 || 72 <= c.num <= 89)
  {
    hide Pool, ParsedColumn, Name, CodeRange, CodeRanges, EROTIC_GENRES, Codes, AnyIn;
    var pool := Pool([ParsedColumn(s, ForA), ParsedColumn(s, ForB), ParsedColumn(s, ForD)]);
    GenreList();
    forall n: nat ensures Name(Code('d', n)) in pool <==> Code('d', n) in Codes(s) {
      PooledIs(s, Code('d', n), ForD);
    }
    GenresIn(EROTIC_GENRES, pool, Codes(s));
  }

  lemma GenresIn(list: seq<string>, pool: set<string>, codes: seq<Code>)
    requires forall code :: code in list <==>
      (exists n: nat :: 23 <= n <= 26 && code == Name(Code('d', n)))
      || (exists n: nat :: 72 <= n <= 89 && code == Name(Code('d', n)))
    requires forall n: nat :: Name(Code('d', n)) in pool <==> Code('d', n) in codes
    ensures AnyIn(list, pool) <==> exists c <- codes :: c.letter == 'd' && (23 <= c.num <= 26 || 72 <= c.num <= 89)
  {
    hide Name;
    if c :| c in codes && c.letter == 'd' && (23 <= c.num <= 26 || 72 <= c.num <= 89) {
      assert c == Code('d', c.num);
      assert Name(Code('d', c.num)) in list;
    }
    if AnyIn(list, pool) {
      var code :| code in list && code in pool;
      var n: nat :| (23 <= n <= 26 || 72 <= n <= 89) && code == Name(Code('d', n));
      assert Code('d', n) in codes;
    }
  }

  lemma NamedAre()
    ensures Name(Code('z', 3)) == "z3" && Name(Code('z', 2)) == "z2" && Name(Code('z', 1)) == "z1"
    ensures Name(Code('z', 0)) == "z0" && Name(Code('z', 4)) == "z4" && Name(Code('d', 31)) == "d31"
    ensures Name(Code('b', 4)) == "b4" && Name(Code('d', 11)) == "d11"
    ensures Name(Code('a', 5)) == "a5" && Name(Code('a', 11)) == "a11"
    ensures Name(Code('a', 12)) == "a12" && Name(Code('a', 13)) == "a13"
  {
    assert Decimal(31) == Decimal(3) + Decimal(1) && Decimal(11) == Decimal(1) + Decimal(1);
    assert Decimal(12) == Decimal(1) + Decimal(2) && Decimal(13) == Decimal(1) + Decimal(3);
  }

  lemma KindsAre(category: int, a: string, b: string, d: string)
    ensures forall s | a == ParsedColumn(s, ForA) && b == ParsedColumn(s, ForB) && d == ParsedColumn(s, ForD) ::
      KindByCodes(category, Codes(s)) == if category != 0 then 0 else KindFrom(Pool([a, b, d]))
  {
    forall s | a == ParsedColumn(s, ForA) && b == ParsedColumn(s, ForB) && d == ParsedColumn(s, ForD)
      ensures KindByCodes(category, Codes(s)) == if category != 0 then 0 else KindFrom(Pool([a, b, d]))
    {
      KindIs(s);
    }
  }

  /** Every branch of both switches, in terms of the codes on the wire. */
  lemma KindIs(s: string)
    ensures KindFrom(Pool([ParsedColumn(s, ForA), ParsedColumn(s, ForB), ParsedColumn(s, ForD)]))
         == KindByCodes(0, Codes(s))
  {
    var pool := Pool([ParsedColumn(s, ForA), ParsedColumn(s, ForB), ParsedColumn(s, ForD)]);
    NamedAre();
    forall c | c in {Code('z', 3), Code('z', 2), Code('z', 1), Code('z', 0), Code('z', 4), Code('d', 31), Code('d', 11)}
      ensures Name(c) in pool <==> c in Codes(s)
    {
      PooledIs(s, c, ForD);
    }
    PooledIs(s, Code('b', 4), ForB);
    PooledIs(s, Code('a', 5), ForA);
    PooledIs(s, Code('a', 11), ForA);
    PooledIs(s, Code('a', 12), ForA);
    PooledIs(s, Code('a', 13), ForA);
    GenresAre(s);
    AnyOfTwo("b4", "d11", pool);
    AnyOfTwo("a5", "a11", pool);
    AnyOfTwo("a12", "a13", pool);
    hide Pool, ParsedColumn, Name, Codes, AnyIn, EROTIC_GENRES, CodeRange, CodeRanges;
  }

  /** The column that stores a code: a, b and c their own, d and z the fourth. */
  lemma WhereCodesGo(s: string, c: Code, column: Column4)
    requires c in Codes(s)
    ensures Has(ParsedColumn(s, column), Name(c)) <==>
      match c.letter
      case 'a' => column == ForA
      case 'b' => column == ForB
      case 'c' => column == ForC
      case _ => column == ForD
  {
    CodesProper(s);
    NameHasNoBar(c);
    ColumnHolds(s, column, Name(c));
    hide ParsedColumn, Has, Name;
    forall d | d in Codes(s) && Name(d) == Name(c) ensures d == c { NamesDiffer(d, c); }
  }

  /** The codes that a list of bounds names: letter and number, in order. */
  lemma {:induction false} CodeRangeIs(letter: char, lo: nat, hi: nat)
    ensures |CodeRange(letter, lo, hi)| == if lo <= hi then hi - lo + 1 else 0
    ensures forall i | 0 <= i < |CodeRange(letter, lo, hi)| ::
      CodeRange(letter, lo, hi)[i] == Name(Code(letter, lo + i))
    decreases hi - lo + 1
  {
    hide Decimal;
    if lo <= hi {
      CodeRangeIs(letter, lo + 1, hi);
      var rest := CodeRange(letter, lo + 1, hi);
      forall i | 0 <= i <= |rest| ensures CodeRange(letter, lo, hi)[i] == Name(Code(letter, lo + i)) {
        if i > 0 { assert CodeRange(letter, lo, hi)[i] == rest[i - 1]; }
      }
    }
  }
}
