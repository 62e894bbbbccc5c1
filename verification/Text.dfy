/** 8-bit text (internal/spotnet/text.go) and its repair in the database (internal/db/migrations.go):
    bytes that are not UTF-8 are read as Windows-1252. */
module Text8 {

  type Byte = b: int | 0 <= b < 256
  type Bytes = seq<Byte>

  /** Code points below the surrogates; the table needs no more. */
  type Rune = r: int | 0 <= r < 0xD800

  const CP1252_HIGH: seq<Rune> := [
    0x20AC, 0x81, 0x201A, 0x0192, 0x201E, 0x2026, 0x2020, 0x2021,
    0x02C6, 0x2030, 0x0160, 0x2039, 0x0152, 0x8D, 0x017D, 0x8F,
    0x90, 0x2018, 0x2019, 0x201C, 0x201D, 0x2022, 0x2013, 0x2014,
    0x02DC, 0x2122, 0x0161, 0x203A, 0x0153, 0x9D, 0x017E, 0x0178]

  function RuneOf(c: Byte): Rune {
    if c < 0x80 then c else if c < 0xA0 then CP1252_HIGH[c - 0x80] else c
  }

  /** strings.Builder.WriteRune: UTF-8 (section 3 of RFC 3629). */
  function Encoded(r: Rune): Bytes {
    if r < 0x80 then [r]
    else if r < 0x800 then [0xC0 + r / 64, 0x80 + r % 64]
    else [0xE0 + r / 4096, 0x80 + r / 64 % 64, 0x80 + r % 64]
  }

  /** Windows-1252 bytes as UTF-8. */
  function Decoded(b: Bytes): Bytes {
    if b == [] then [] else Encoded(RuneOf(b[0])) + Decoded(b[1..])
  }

  predicate Tail(b: Byte) {
    0x80 <= b <= 0xBF
  }

  /** The length of the UTF-8 character `b` begins with, by the grammar of section 4 of RFC 3629; 0 if
      there is none. */
  function CharLength(b: Bytes): nat {
    if b == [] then 0
    else if b[0] <= 0x7F then 1
    else if |b| >= 2 && 0xC2 <= b[0] <= 0xDF && Tail(b[1]) then 2
    else if |b| >= 3 && Tail(b[2])
         && (|| (b[0] == 0xE0 && 0xA0 <= b[1] <= 0xBF)
             || (0xE1 <= b[0] <= 0xEC && Tail(b[1]))
             || (b[0] == 0xED && 0x80 <= b[1] <= 0x9F)
             || (0xEE <= b[0] <= 0xEF && Tail(b[1]))) then 3
    else if |b| >= 4 && Tail(b[2]) && Tail(b[3])
         && (|| (b[0] == 0xF0 && 0x90 <= b[1] <= 0xBF)
             || (0xF1 <= b[0] <= 0xF3 && Tail(b[1]))
             || (b[0] == 0xF4 && 0x80 <= b[1] <= 0x8F)) then 4
    else 0
  }

  /** utf8.Valid. */
  predicate Valid(b: Bytes)
    decreases |b|
  {
    b == [] || (var n := CharLength(b); 0 < n <= |b| && Valid(b[n..]))
  }

  /** toUTF8: valid text stays, anything else is read as Windows-1252. */
  function ToUtf8(b: Bytes): Bytes {
    if Valid(b) then b else Decoded(b)
  }

  // --------------------------------------------------------------- properties

  lemma EncodedIsChar(r: Rune, rest: Bytes)
    ensures CharLength(Encoded(r) + rest) == |Encoded(r)| && (Encoded(r) + rest)[|Encoded(r)|..] == rest
  {}

  lemma {:induction false} DecodedIsValid(b: Bytes)
    ensures Valid(Decoded(b))
  {
    if b != [] {
      EncodedIsChar(RuneOf(b[0]), Decoded(b[1..]));
      DecodedIsValid(b[1..]);
    }
  }

  /** No two table entries are alike, and none is an ASCII or a Latin-1 letter. */
  lemma TableDistinct(i: nat, j: nat)
    requires i < j < 32
    ensures CP1252_HIGH[i] != CP1252_HIGH[j]
  {}

  lemma TableApart(i: nat)
    requires i < 32
    ensures 0x80 <= CP1252_HIGH[i] < 0xA0 || CP1252_HIGH[i] > 0xFF
  {}

  lemma RuneTellsByte(c: Byte, d: Byte)
    requires RuneOf(c) == RuneOf(d)
    ensures c == d
  {
    var i, j := c - 0x80, d - 0x80;
    if 0 <= i < 32 { TableApart(i); }
    if 0 <= j < 32 { TableApart(j); }
    if 0 <= i < j < 32 { TableDistinct(i, j); }
    if 0 <= j < i < 32 { TableDistinct(j, i); }
  }

  /** The bytes of a character tell the code point, and where it ends. */
  lemma EncodedTellsRune(r: Rune, s: Rune, x: Bytes, y: Bytes)
    requires Encoded(r) + x == Encoded(s) + y
    ensures r == s && x == y
  {
    EncodedIsChar(r, x);
    EncodedIsChar(s, y);
    assert Encoded(r) == (Encoded(r) + x)[..|Encoded(r)|];
    assert Encoded(s) == (Encoded(s) + y)[..|Encoded(s)|];
    SameEncoding(r, s);
  }

  lemma SameEncoding(r: Rune, s: Rune)
    requires Encoded(r) == Encoded(s)
    ensures r == s
  {
    if |Encoded(r)| == 2 {
      assert r / 64 == s / 64 && r % 64 == s % 64;
    } else if |Encoded(r)| == 3 {
      assert r / 4096 == s / 4096 && r / 64 % 64 == s / 64 % 64 && r % 64 == s % 64;
      Digits64(r);
      Digits64(s);
    }
  }

  lemma Digits64(r: nat)
    ensures r == 4096 * (r / 4096) + 64 * (r / 64 % 64) + r % 64
  {
    assert r / 64 / 64 == r / 4096;
  }

  /** Distinct byte strings decode to distinct text. */
  lemma {:induction false} DecodedTellsBytes(a: Bytes, b: Bytes)
    requires Decoded(a) == Decoded(b)
    ensures a == b
  {
    if a == [] || b == [] {
      assert forall r: Rune :: |Encoded(r)| > 0;
    } else {
      EncodedTellsRune(RuneOf(a[0]), RuneOf(b[0]), Decoded(a[1..]), Decoded(b[1..]));
      RuneTellsByte(a[0], b[0]);
      DecodedTellsBytes(a[1..], b[1..]);
    }
  }

  /** The result is always valid UTF-8, and a second pass changes nothing. */
  lemma ToUtf8Settles(b: Bytes)
    ensures Valid(ToUtf8(b)) && ToUtf8(ToUtf8(b)) == ToUtf8(b)
  {
    DecodedIsValid(b);
  }

  /** toUTF8 itself can give two strings the same text, but only a string that was valid already and the
      Windows-1252 bytes that read the same. */
  lemma ToUtf8CollidesExactlyWhen(a: Bytes, b: Bytes)
    ensures ToUtf8(a) == ToUtf8(b) <==>
      || a == b
      || (Valid(a) && !Valid(b) && a == Decoded(b))
      || (Valid(b) && !Valid(a) && b == Decoded(a))
  {
    if !Valid(a) && !Valid(b) && Decoded(a) == Decoded(b) {
      DecodedTellsBytes(a, b);
    }
  }

  /** For instance the letter e with an acute accent, in both encodings. */
  lemma ToUtf8Collides()
    ensures ToUtf8([0xC3, 0xA9]) == ToUtf8([0xE9])
  {
    var e: Bytes, u: Bytes := [0xE9], [0xC3, 0xA9];
    assert e[1..] == [] && Decoded(e) == u;
    assert CharLength(e) == 0 && CharLength(u) == 2 && u[2..] == [];
  }

  // ------------------------------------------------------------------ the code

  method Windows1252ToUTF8(b: Bytes) returns (s: Bytes)
    ensures s == Decoded(b)
  {
    s := [];
    assert b[0..] == b && [] + Decoded(b) == Decoded(b);
    for i := 0 to |b|
      invariant s + Decoded(b[i..]) == Decoded(b)
    {
      var c := b[i];
      assert b[i..][1..] == b[i + 1..];
      Associates(s, Encoded(RuneOf(c)), Decoded(b[i + 1..]));
      if c < 0x80 {
        s := s + [c];
      } else if c < 0xA0 {
        s := s + Encoded(CP1252_HIGH[c - 0x80]);
      } else {
        s := s + Encoded(c);
      }
    }
    assert s + [] == s;
  }

  lemma Associates(a: Bytes, b: Bytes, c: Bytes)
    ensures a + (b + c) == a + b + c
  {}

  /** toUTF8, with its own copy of the table and of the loop: the database cannot import the parser. */
  method ToUTF8(b: Bytes) returns (s: Bytes)
    ensures s == if Valid(b) then b else Decoded(b)
  {
    if Valid(b) {
      return b;
    }
    var high: seq<Rune> := [
      0x20AC, 0x81, 0x201A, 0x0192, 0x201E, 0x2026, 0x2020, 0x2021,
      0x02C6, 0x2030, 0x0160, 0x2039, 0x0152, 0x8D, 0x017D, 0x8F,
      0x90, 0x2018, 0x2019, 0x201C, 0x201D, 0x2022, 0x2013, 0x2014,
      0x02DC, 0x2122, 0x0161, 0x203A, 0x0153, 0x9D, 0x017E, 0x0178];
    SameTable(high);
    s := [];
    assert b[0..] == b && [] + Decoded(b) == Decoded(b);
    for i := 0 to |b|
      invariant s + Decoded(b[i..]) == Decoded(b)
    {
      var c := b[i];
      assert b[i..][1..] == b[i + 1..];
      Associates(s, Encoded(RuneOf(c)), Decoded(b[i + 1..]));
      if c < 0x80 {
        s := s + [c];
      } else if c < 0xA0 {
        s := s + Encoded(high[c - 0x80]);
      } else {
        s := s + Encoded(c);
      }
    }
    assert s + [] == s;
  }

  lemma SameTable(high: seq<Rune>)
    requires high == [
      0x20AC, 0x81, 0x201A, 0x0192, 0x201E, 0x2026, 0x2020, 0x2021,
      0x02C6, 0x2030, 0x0160, 0x2039, 0x0152, 0x8D, 0x017D, 0x8F,
      0x90, 0x2018, 0x2019, 0x201C, 0x201D, 0x2022, 0x2013, 0x2014,
      0x02DC, 0x2122, 0x0161, 0x203A, 0x0153, 0x9D, 0x017E, 0x0178]
    ensures high == CP1252_HIGH
  {}

  /** A row of `spots`, as far as the repair reads it. */
  datatype TextRow = TextRow(title: Bytes, tag: Bytes, poster: Bytes)

  predicate AllValid(r: TextRow) {
    Valid(r.title) && Valid(r.tag) && Valid(r.poster)
  }

  function Repaired(r: TextRow): TextRow {
    TextRow(ToUtf8(r.title), ToUtf8(r.tag), ToUtf8(r.poster))
  }

  function RepairedAll(rows: map<nat, TextRow>): map<nat, TextRow> {
    map id | id in rows :: Repaired(rows[id])
  }

  /** Running the repair twice is running it once, and it leaves nothing to repair. */
  lemma RepairIsIdempotent(rows: map<nat, TextRow>)
    ensures RepairedAll(RepairedAll(rows)) == RepairedAll(rows)
    ensures forall id <- RepairedAll(rows) :: AllValid(RepairedAll(rows)[id])
  {
    forall id <- rows ensures Repaired(Repaired(rows[id])) == Repaired(rows[id]) && AllValid(Repaired(rows[id])) {
      ToUtf8Settles(rows[id].title);
      ToUtf8Settles(rows[id].tag);
      ToUtf8Settles(rows[id].poster);
    }
  }

  datatype Fix = Fix(id: nat, row: TextRow)

  class SpotTexts {
    var rows: map<nat, TextRow>

    ghost predicate Fixes(fixes: seq<Fix>)
      reads this
    {
      && (forall f <- fixes :: f.id in rows && !AllValid(rows[f.id]) && f.row == Repaired(rows[f.id]))
      && (forall id <- rows :: !AllValid(rows[id]) ==> Fix(id, Repaired(rows[id])) in fixes)
    }

    method Collect() returns (fixes: seq<Fix>)
      ensures Fixes(fixes)
    {
      hide Valid, Decoded;
      fixes := [];
      var left := rows.Keys;
      while left != {}
        invariant left <= rows.Keys
        invariant forall f <- fixes :: f.id in rows && !AllValid(rows[f.id]) && f.row == Repaired(rows[f.id])
        invariant forall id | id in rows && id !in left && !AllValid(rows[id]) :: Fix(id, Repaired(rows[id])) in fixes
      {
        var id :| id in left;
        left := left - {id};
        var r := rows[id];
        if !(Valid(r.title) && Valid(r.tag) && Valid(r.poster)) {
          var title := ToUTF8(r.title);
          var tag := ToUTF8(r.tag);
          var poster := ToUTF8(r.poster);
          fixes := fixes + [Fix(id, TextRow(title, tag, poster))];
        }
      }
    }

    /** redecodeEightBitText: collect the rows to fix, then update them. Valid rows are not touched. */
    method RedecodeEightBitText()
      modifies this
      ensures rows == RepairedAll(old(rows))
    {
      hide Repaired, AllValid;
      var fixes := Collect();
      for i := 0 to |fixes|
        invariant rows.Keys == old(rows).Keys
        invariant forall id <- rows :: rows[id] == old(rows)[id] || rows[id] == Repaired(old(rows)[id])
        invariant forall j | 0 <= j < i :: rows[fixes[j].id] == fixes[j].row
      {
        rows := rows[fixes[i].id := fixes[i].row];
      }
      forall id <- rows ensures rows[id] == Repaired(old(rows)[id]) {
        ValidStays(old(rows)[id]);
        if !AllValid(old(rows)[id]) {
          var f := Fix(id, Repaired(old(rows)[id]));
          var j :| 0 <= j < |fixes| && fixes[j] == f;
        }
      }
    }
  }

  lemma ValidStays(r: TextRow)
    ensures AllValid(r) ==> Repaired(r) == r
  {}

  // ------------------------------------------------------------- migrations

  predicate Ascending(versions: seq<nat>) {
    forall i, j | 0 <= i < j < |versions| :: versions[i] < versions[j]
  }

  /** `user_version`, and the migrations committed so far, in order. */
  class Schema {
    var version: nat
    var applied: seq<nat>

    constructor ()
      ensures version == 0 && applied == []
    {
      version, applied := 0, [];
    }

    /** The migrations up to the version, each once. */
    ghost predicate Consistent(versions: seq<nat>)
      reads this
    {
      && |applied| <= |versions| && applied == versions[..|applied|]
      && version == if applied == [] then 0 else applied[|applied| - 1]
    }

    /** migrate; `failing` is the first migration that fails or is cut short, its transaction rolled
        back. However often it is started, each migration commits once, in order. */
    method Migrate(versions: seq<nat>, failing: nat) returns (ok: bool)
      requires Ascending(versions) && (forall v <- versions :: v > 0)
      requires Consistent(versions)
      modifies this
      ensures Consistent(versions)
      ensures applied == if |old(applied)| <= failing < |versions| then versions[..failing] else versions
      ensures ok <==> applied == versions
    {
      var current := version;
      ghost var done := |applied|;
      for i := 0 to |versions|
        invariant Consistent(versions) && done <= |applied| && done <= |versions|
        invariant current == if done == 0 then 0 else versions[done - 1]
        invariant |applied| == if i < done then done else i
        invariant !(done <= failing < i)
      {
        var v := versions[i];
        assert v > 0 by { assert v in versions; }
        if v <= current {
          continue;
        }
        if i == failing {
          return false;
        }
        applied, version := applied + [v], v;
      }
      return true;
    }
  }
}
