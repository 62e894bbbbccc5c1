/** The binary article path: the poster escapes four bytes, the transport wraps the text into lines
    and stuffs leading dots (RFC 3977, section 3.1.1), readDot in internal/nntp/client.go collects
    the lines again and unspecialZipStr in internal/spotnet/parser.go undoes the escapes. */
module ArticleCodec {

  type Byte = b: int | 0 <= b < 256
  type Bytes = seq<Byte>

  const NUL: Byte := 0
  const LF: Byte := 10
  const CR: Byte := 13
  const DOT: Byte := 46
  const EQUALS: Byte := 61

  const A: Byte := 65
  const B: Byte := 66
  const C: Byte := 67
  const D: Byte := 68

  // ----------------------------------------------------------------- escapes

  /** strings.ReplaceAll(s, "=x", z): left to right, without overlap. */
  function Replaced(s: Bytes, letter: Byte, z: Byte): Bytes {
    if |s| < 2 then s
    else if s[0] == EQUALS && s[1] == letter then [z] + Replaced(s[2..], letter, z)
    else [s[0]] + Replaced(s[1..], letter, z)
  }

  /** unspecialZipStr: four passes, the `=D` pass last. */
  function Unescape(s: Bytes): Bytes {
    Replaced(Replaced(Replaced(Replaced(s, C, LF), B, CR), A, NUL), D, EQUALS)
  }

  predicate IsEscape(b: Byte) {
    A <= b <= D
  }

  function Meaning(letter: Byte): Byte {
    if letter == C then LF else if letter == B then CR else if letter == A then NUL else EQUALS
  }

  /** One decoding pass, left to right. */
  function Decode(s: Bytes): Bytes {
    if |s| < 2 then s
    else if s[0] == EQUALS && IsEscape(s[1]) then [Meaning(s[1])] + Decode(s[2..])
    else [s[0]] + Decode(s[1..])
  }

  function EscapeOne(b: Byte): Bytes {
    if b == LF then [EQUALS, C]
    else if b == CR then [EQUALS, B]
    else if b == NUL then [EQUALS, A]
    else if b == EQUALS then [EQUALS, D]
    else [b]
  }

  /** The poster's side: every byte that a line-oriented transport would mangle. */
  function Escape(p: Bytes): Bytes {
    if p == [] then [] else EscapeOne(p[0]) + Escape(p[1..])
  }

  lemma ReplacedSkips(b: Byte, t: Bytes, letter: Byte, z: Byte)
    requires b != EQUALS || t == [] || t[0] != letter
    ensures Replaced([b] + t, letter, z) == [b] + Replaced(t, letter, z)
  {
    assert ([b] + t)[1..] == t;
  }

  lemma ReplacedHits(t: Bytes, letter: Byte, z: Byte)
    ensures Replaced([EQUALS, letter] + t, letter, z) == [z] + Replaced(t, letter, z)
  {
    assert ([EQUALS, letter] + t)[2..] == t;
  }

  /** No pass puts an escape letter where there was none. */
  lemma NoNewLetter(t: Bytes, letter: Byte, z: Byte)
    requires t == [] || !IsEscape(t[0])
    requires !IsEscape(z)
    ensures var u := Replaced(t, letter, z); u == [] || !IsEscape(u[0])
  {}

  lemma UnescapeSkips(b: Byte, t: Bytes)
    requires b != EQUALS || t == [] || !IsEscape(t[0])
    ensures Unescape([b] + t) == [b] + Unescape(t)
  {
    var u := Replaced(t, C, LF);
    var v := Replaced(u, B, CR);
    var w := Replaced(v, A, NUL);
    if b == EQUALS {
      NoNewLetter(t, C, LF);
      NoNewLetter(u, B, CR);
      NoNewLetter(v, A, NUL);
    }
    ReplacedSkips(b, t, C, LF);
    ReplacedSkips(b, u, B, CR);
    ReplacedSkips(b, v, A, NUL);
    ReplacedSkips(b, w, D, EQUALS);
  }

  /** A pass for another letter leaves an escape alone. */
  lemma ReplacedPasses(x: Byte, t: Bytes, letter: Byte, z: Byte)
    requires x != letter && x != EQUALS
    ensures Replaced([EQUALS, x] + t, letter, z) == [EQUALS, x] + Replaced(t, letter, z)
  {
    ReplacedSkips(x, t, letter, z);
    ReplacedSkips(EQUALS, [x] + t, letter, z);
    assert [EQUALS] + ([x] + t) == [EQUALS, x] + t;
  }

  lemma UnescapeHits(x: Byte, t: Bytes)
    requires IsEscape(x)
    ensures Unescape([EQUALS, x] + t) == [Meaning(x)] + Unescape(t)
  {
    var u := Replaced(t, C, LF);
    var v := Replaced(u, B, CR);
    var w := Replaced(v, A, NUL);
    if x == C {
      ReplacedHits(t, C, LF);
      ReplacedSkips(LF, u, B, CR);
      ReplacedSkips(LF, v, A, NUL);
      ReplacedSkips(LF, w, D, EQUALS);
    } else if x == B {
      ReplacedPasses(x, t, C, LF);
      ReplacedHits(u, B, CR);
      ReplacedSkips(CR, v, A, NUL);
      ReplacedSkips(CR, w, D, EQUALS);
    } else if x == A {
      ReplacedPasses(x, t, C, LF);
      ReplacedPasses(x, u, B, CR);
      ReplacedHits(v, A, NUL);
      ReplacedSkips(NUL, w, D, EQUALS);
    } else {
      ReplacedPasses(x, t, C, LF);
      ReplacedPasses(x, u, B, CR);
      ReplacedPasses(x, v, A, NUL);
      ReplacedHits(w, D, EQUALS);
    }
  }

  /** On every byte string, well-formed or not, the four passes are one left-to-right pass. */
  lemma {:induction false} FourPassesAreOne(s: Bytes)
    ensures Unescape(s) == Decode(s)
    decreases |s|
  {
    if |s| >= 2 {
      if s[0] == EQUALS && IsEscape(s[1]) {
        UnescapeHits(s[1], s[2..]);
        FourPassesAreOne(s[2..]);
        assert s == [EQUALS, s[1]] + s[2..];
      } else {
        UnescapeSkips(s[0], s[1..]);
        FourPassesAreOne(s[1..]);
        assert s == [s[0]] + s[1..];
      }
    }
  }

  lemma {:induction false} DecodeEscaped(p: Bytes)
    ensures Decode(Escape(p)) == p
  {
    if p != [] {
      DecodeEscaped(p[1..]);
      var rest := Escape(p[1..]);
      if |EscapeOne(p[0])| == 2 {
        assert Escape(p)[2..] == rest;
      } else {
        assert Escape(p)[1..] == rest;
      }
    }
  }

  lemma UnescapeEscaped(p: Bytes)
    ensures Unescape(Escape(p)) == p
  {
    FourPassesAreOne(Escape(p));
    DecodeEscaped(p);
  }

  predicate PlainLine(line: Bytes) {
    CR !in line && LF !in line
  }

  lemma {:induction false} EscapedIsPlain(p: Bytes)
    ensures PlainLine(Escape(p)) && NUL !in Escape(p)
  {
    if p != [] {
      EscapedIsPlain(p[1..]);
    }
  }

  // ------------------------------------------------------------------- lines

  function Joined(lines: seq<Bytes>, keepNewlines: bool): Bytes {
    if lines == [] then []
    else lines[0] + (if keepNewlines then [LF] else []) + Joined(lines[1..], keepNewlines)
  }

  function Stuffed(line: Bytes): Bytes {
    if line != [] && line[0] == DOT then [DOT] + line else line
  }

  function WireLines(lines: seq<Bytes>): Bytes {
    if lines == [] then [] else Stuffed(lines[0]) + [CR, LF] + WireLines(lines[1..])
  }

  /** A multi-line block as section 3.1.1 of RFC 3977 sends it. */
  function Wire(lines: seq<Bytes>): Bytes {
    WireLines(lines) + [DOT, CR, LF]
  }

  /** bufio ReadString('\n'): up to and including the first line feed, else all there is. */
  function LineLength(stream: Bytes): (n: nat)
    ensures n <= |stream|
    ensures stream != [] ==> n > 0
  {
    if stream == [] then 0 else if stream[0] == LF then 1 else 1 + LineLength(stream[1..])
  }

  function TrimRight(line: Bytes): Bytes {
    if line != [] && (line[|line| - 1] == CR || line[|line| - 1] == LF) then TrimRight(line[..|line| - 1]) else line
  }

  function Unstuffed(line: Bytes): Bytes {
    if |line| >= 2 && line[0] == DOT && line[1] == DOT then line[1..] else line
  }

  const DEFAULT_MAX_ARTICLE_BYTES := 32 * 1024 * 1024

  function Ceiling(maxArticleBytes: int): int {
    if maxArticleBytes <= 0 then DEFAULT_MAX_ARTICLE_BYTES else maxArticleBytes
  }

  /** A stream ends with EOF, or with the connection breaking. */
  datatype Stream = Stream(unread: Bytes, breaks: bool)

  datatype Body = Complete(bytes: Bytes) | TooLarge | Failed

  predicate EndsLine(line: Bytes) {
    line != [] && line[|line| - 1] == LF
  }

  /** readDot, with what it has collected so far; also what it leaves unread. */
  function ReadFrom(s: Stream, buf: Bytes, keepNewlines: bool, limit: int): (Body, Bytes)
    decreases |s.unread|
  {
    var n := LineLength(s.unread);
    var line, rest := s.unread[..n], s.unread[n..];
    if !EndsLine(line) && s.breaks then (Failed, rest)
    else
      var trimmed := TrimRight(line);
      if trimmed == [DOT] then (Complete(buf), rest)
      else
        var text := Unstuffed(trimmed);
        if |buf| + |text| + 1 > limit then (TooLarge, rest)
        else
          var grown := buf + text + if keepNewlines then [LF] else [];
          if EndsLine(line) then ReadFrom(s.(unread := rest), grown, keepNewlines, limit) else (Complete(grown), rest)
  }

  lemma {:induction false} LineOf(line: Bytes, rest: Bytes)
    requires LF !in line
    ensures LineLength(line + [LF] + rest) == |line| + 1
  {
    var s := line + [LF] + rest;
    if line != [] {
      LineOf(line[1..], rest);
      assert s[1..] == line[1..] + [LF] + rest;
    }
  }

  lemma TrimsOne(line: Bytes)
    requires PlainLine(line)
    ensures TrimRight(line + [CR, LF]) == line
  {
    assert (line + [CR, LF])[..|line| + 1] == line + [CR];
    assert (line + [CR])[..|line|] == line;
    assert TrimRight(line) == line;
  }

  lemma ReadsLine(line: Bytes, rest: Bytes)
    requires PlainLine(line)
    ensures var s := line + [CR, LF] + rest;
      var n := LineLength(s);
      s[..n] == line + [CR, LF] && s[n..] == rest && EndsLine(s[..n]) && TrimRight(s[..n]) == line
  {
    var s := line + [CR, LF] + rest;
    assert s == (line + [CR]) + [LF] + rest;
    LineOf(line + [CR], rest);
    assert s[..|line| + 2] == line + [CR, LF];
    TrimsOne(line);
  }

  lemma StuffedLine(line: Bytes)
    requires PlainLine(line)
    ensures PlainLine(Stuffed(line)) && Stuffed(line) != [DOT] && Unstuffed(Stuffed(line)) == line
  {
    assert forall b :: b in Stuffed(line) ==> b == DOT || b in line;
  }

  /** Does the block fit? Every line is charged one byte more than it adds without newlines. */
  predicate Fits(had: nat, lines: seq<Bytes>, keepNewlines: bool, limit: int) {
    lines == [] || had + |Joined(lines, keepNewlines)| + (if keepNewlines then 0 else 1) <= limit
  }

  lemma ReadsOne(line: Bytes, rest: Bytes, breaks: bool, buf: Bytes, keepNewlines: bool, limit: int)
    requires PlainLine(line)
    ensures ReadFrom(Stream(Stuffed(line) + [CR, LF] + rest, breaks), buf, keepNewlines, limit) ==
      if |buf| + |line| + 1 > limit then (TooLarge, rest)
      else ReadFrom(Stream(rest, breaks), buf + line + (if keepNewlines then [LF] else []), keepNewlines, limit)
  {
    StuffedLine(line);
    ReadsLine(Stuffed(line), rest);
    hide LineLength, TrimRight, Stuffed, Unstuffed, PlainLine;
  }

  lemma ReadsEnd(after: Bytes, breaks: bool, buf: Bytes, keepNewlines: bool, limit: int)
    ensures ReadFrom(Stream([DOT, CR, LF] + after, breaks), buf, keepNewlines, limit) == (Complete(buf), after)
  {
    assert [DOT, CR, LF] + after == [DOT] + [CR, LF] + after;
    ReadsLine([DOT], after);
    hide LineLength, TrimRight, Unstuffed;
  }

  lemma WireMore(lines: seq<Bytes>, after: Bytes)
    requires lines != []
    ensures Wire(lines) + after == Stuffed(lines[0]) + [CR, LF] + (Wire(lines[1..]) + after)
    ensures WireLines(lines) == Stuffed(lines[0]) + [CR, LF] + WireLines(lines[1..])
  {
    hide Stuffed;
  }

  lemma JoinedMore(lines: seq<Bytes>, buf: Bytes, keepNewlines: bool)
    requires lines != []
    ensures buf + lines[0] + (if keepNewlines then [LF] else []) + Joined(lines[1..], keepNewlines)
        == buf + Joined(lines, keepNewlines)
  {}

  lemma {:induction false} ReadsBlock(lines: seq<Bytes>, after: Bytes, breaks: bool, buf: Bytes, keepNewlines: bool,
      limit: int)
    requires forall l <- lines :: PlainLine(l)
    ensures var (body, rest) := ReadFrom(Stream(Wire(lines) + after, breaks), buf, keepNewlines, limit);
      if Fits(|buf|, lines, keepNewlines, limit)
      then body == Complete(buf + Joined(lines, keepNewlines)) && rest == after
      else body == TooLarge
    decreases |lines|
  {
    hide ReadFrom, PlainLine;
    if lines == [] {
      assert Wire(lines) == [DOT, CR, LF];
      ReadsEnd(after, breaks, buf, keepNewlines, limit);
      assert buf + Joined(lines, keepNewlines) == buf;
    } else {
      WireMore(lines, after);
      ReadsOne(lines[0], Wire(lines[1..]) + after, breaks, buf, keepNewlines, limit);
      hide Wire;
      JoinedMore(lines, buf, keepNewlines);
      ReadsBlock(lines[1..], after, breaks, buf + lines[0] + (if keepNewlines then [LF] else []), keepNewlines, limit);
    }
  }

  /** Any payload, escaped, split anywhere into lines, stuffed and sent, is read back and unescaped to
      itself exactly when the escaped text is shorter than the ceiling; nothing after the block is
      consumed. A text of exactly the ceiling is refused. */
  lemma BinaryRoundTrip(p: Bytes, lines: seq<Bytes>, after: Bytes, breaks: bool, maxArticleBytes: int)
    requires Joined(lines, false) == Escape(p)
    ensures var limit := Ceiling(maxArticleBytes);
      var (body, rest) := ReadFrom(Stream(Wire(lines) + after, breaks), [], false, limit);
      if lines == [] || |Escape(p)| < limit
      then body.Complete? && Unescape(body.bytes) == p && rest == after
      else body == TooLarge
  {
    EscapedIsPlain(p);
    LinesArePlain(lines);
    ReadsBlock(lines, after, breaks, [], false, Ceiling(maxArticleBytes));
    UnescapeEscaped(p);
    assert [] + Joined(lines, false) == Escape(p);
  }

  lemma {:induction false} LinesArePlain(lines: seq<Bytes>)
    requires PlainLine(Joined(lines, false))
    ensures forall l <- lines :: PlainLine(l)
  {
    if lines != [] {
      assert forall b :: b in Joined(lines, false) <==> b in lines[0] || b in Joined(lines[1..], false);
      LinesArePlain(lines[1..]);
      assert forall l <- lines :: l == lines[0] || l in lines[1..];
    }
  }

  /** A text body comes back line for line, each with its newline, exactly when that fits the ceiling. */
  lemma TextRoundTrip(lines: seq<Bytes>, after: Bytes, breaks: bool, maxArticleBytes: int)
    requires forall l <- lines :: PlainLine(l)
    ensures var limit := Ceiling(maxArticleBytes);
      var (body, rest) := ReadFrom(Stream(Wire(lines) + after, breaks), [], true, limit);
      if lines == [] || |Joined(lines, true)| <= limit
      then body == Complete(Joined(lines, true)) && rest == after
      else body == TooLarge
  {
    ReadsBlock(lines, after, breaks, [], true, Ceiling(maxArticleBytes));
    assert [] + Joined(lines, true) == Joined(lines, true);
  }

  // ------------------------------------------------------------ a body cut short

  predicate Extends(part: Bytes, buf: Bytes, whole: Bytes) {
    buf <= part <= buf + whole
  }

  /** What a reader makes of a last line without its line feed. */
  lemma ReadsCut(line: Bytes, breaks: bool, buf: Bytes, limit: int)
    requires LF !in line
    ensures ReadFrom(Stream(line, breaks), buf, false, limit).0 ==
      if breaks then Failed
      else
        var trimmed := TrimRight(line);
        if trimmed == [DOT] then Complete(buf)
        else if |buf| + |Unstuffed(trimmed)| + 1 > limit then TooLarge
        else Complete(buf + Unstuffed(trimmed))
  {
    NoLine(line);
    assert line[..|line|] == line;
    assert !EndsLine(line);
    var text := Unstuffed(TrimRight(line));
    assert buf + text + [] == buf + text;
  }

  /** A cut inside a line, or inside its CRLF, leaves a beginning of the stuffed line. */
  lemma CutTrims(line: Bytes, k: nat)
    requires PlainLine(line) && k <= |line| + 1
    ensures var cut := (line + [CR, LF])[..k];
      LF !in cut && TrimRight(cut) == line[..if k <= |line| then k else |line|]
  {
    var cut := (line + [CR, LF])[..k];
    if k <= |line| {
      assert cut == line[..k];
      PlainPart(line, k);
    } else {
      assert cut == line + [CR];
      assert (line + [CR])[..|line|] == line;
      PlainPart(line, |line|);
      assert line[..|line|] == line;
    }
  }

  lemma PlainPart(line: Bytes, k: nat)
    requires PlainLine(line) && k <= |line|
    ensures PlainLine(line[..k]) && TrimRight(line[..k]) == line[..k]
  {
    assert forall b <- line[..k] :: b in line;
  }

  lemma UnstuffedPart(line: Bytes, j: nat)
    requires j <= |Stuffed(line)|
    ensures Stuffed(line)[..j] != [DOT] ==> Unstuffed(Stuffed(line)[..j]) <= line
  {
    if line != [] && line[0] == DOT {
      assert j > 0 ==> Stuffed(line)[..j][1..] == line[..j - 1];
    } else {
      assert Stuffed(line)[..j] == line[..j];
    }
  }

  lemma CutInLine(line: Bytes, rest: Bytes, k: nat, breaks: bool, buf: Bytes, limit: int)
    requires PlainLine(line) && k <= |Stuffed(line)| + 1
    requires |buf| + |line| + |rest| < limit
    ensures var body := ReadFrom(Stream((Stuffed(line) + [CR, LF])[..k], breaks), buf, false, limit).0;
      if breaks then body == Failed else body.Complete? && Extends(body.bytes, buf, line + rest)
  {
    var cut := (Stuffed(line) + [CR, LF])[..k];
    var j := if k <= |Stuffed(line)| then k else |Stuffed(line)|;
    StuffedLine(line);
    CutTrims(Stuffed(line), k);
    UnstuffedPart(line, j);
    hide ReadFrom, TrimRight, Stuffed, Unstuffed, PlainLine;
    ReadsCut(cut, breaks, buf, limit);
    PartFits(Unstuffed(TrimRight(cut)), buf, line, rest);
  }

  lemma PartFits(text: Bytes, buf: Bytes, line: Bytes, rest: Bytes)
    ensures text <= line ==> |text| <= |line| && Extends(buf + text, buf, line + rest)
    ensures Extends(buf, buf, line + rest)
  {
    if text <= line {
      assert buf + (line + rest) == buf + text + (line[|text|..] + rest);
    }
  }

  lemma CutAtEnd(k: nat, breaks: bool, buf: Bytes, limit: int)
    requires k < 3 && |buf| < limit
    ensures ReadFrom(Stream([DOT, CR, LF][..k], breaks), buf, false, limit).0 == if breaks then Failed
        else Complete(buf)
  {
    var cut := [DOT, CR, LF][..k];
    assert cut == if k == 0 then [] else if k == 1 then [DOT] else [DOT, CR];
    assert [DOT, CR][..1] == [DOT];
    assert TrimRight(cut) == if k == 0 then [] else [DOT];
    ReadsCut(cut, breaks, buf, limit);
    assert buf + [] == buf;
  }

  /** A block cut anywhere before its last byte: an error exactly when the connection breaks. When the
      stream merely ends, a beginning of the text is returned as if it were complete. */
  lemma {:induction false} CutAnywhere(lines: seq<Bytes>, k: nat, breaks: bool, buf: Bytes, limit: int)
    requires (forall l <- lines :: PlainLine(l)) && k < |Wire(lines)|
    requires |buf| + |Joined(lines, false)| < limit
    ensures var body := ReadFrom(Stream(Wire(lines)[..k], breaks), buf, false, limit).0;
      if breaks then body == Failed else body.Complete? && Extends(body.bytes, buf, Joined(lines, false))
    decreases |lines|
  {
    hide ReadFrom, PlainLine, Stuffed;
    if lines == [] {
      assert Wire(lines) == [DOT, CR, LF];
      CutAtEnd(k, breaks, buf, limit);
      assert buf + Joined(lines, false) == buf;
    } else {
      var line, rest, joined := lines[0], Wire(lines[1..]), Joined(lines[1..], false);
      var m := |Stuffed(line)| + 2;
      WireMore(lines, []);
      FirstJoined(lines);
      assert Wire(lines) + [] == Wire(lines) && rest + [] == rest;
      hide Wire, Joined;
      assert Wire(lines) == Stuffed(line) + [CR, LF] + rest;
      if k < m {
        assert Wire(lines)[..k] == (Stuffed(line) + [CR, LF])[..k];
        CutInLine(line, joined, k, breaks, buf, limit);
      } else {
        assert Wire(lines)[..k] == Stuffed(line) + [CR, LF] + rest[..k - m];
        ReadsOne(line, rest[..k - m], breaks, buf, false, limit);
        assert buf + line + [] == buf + line;
        CutAnywhere(lines[1..], k - m, breaks, buf + line, limit);
        FurtherOn(buf, line, joined);
      }
    }
  }

  lemma FirstJoined(lines: seq<Bytes>)
    requires lines != []
    ensures Joined(lines, false) == lines[0] + Joined(lines[1..], false)
  {
    assert lines[0] + [] == lines[0];
  }

  lemma FurtherOn(buf: Bytes, line: Bytes, joined: Bytes)
    ensures forall part :: Extends(part, buf + line, joined) ==> Extends(part, buf, line + joined)
  {
    assert buf + line + joined == buf + (line + joined);
  }

  /** Any payload's block, cut anywhere: what is decoded after an early end is a beginning of the escaped
      text, and only a broken connection is reported. */
  lemma CutShort(p: Bytes, lines: seq<Bytes>, k: nat, breaks: bool, maxArticleBytes: int)
    requires Joined(lines, false) == Escape(p) && |Escape(p)| < Ceiling(maxArticleBytes)
    requires k < |Wire(lines)|
    ensures var body := ReadFrom(Stream(Wire(lines)[..k], breaks), [], false, Ceiling(maxArticleBytes)).0;
      && (body == Failed <==> breaks)
      && (!breaks ==> body.Complete? && body.bytes <= Escape(p))
  {
    EscapedIsPlain(p);
    LinesArePlain(lines);
    CutAnywhere(lines, k, breaks, [], Ceiling(maxArticleBytes));
    assert [] + Escape(p) == Escape(p);
  }

  // ------------------------------------------------------------------ the code

  class Client {
    var unread: Bytes
    const breaks: bool
    const maxArticleBytes: int

    constructor (unread: Bytes, breaks: bool, maxArticleBytes: int)
      ensures this.unread == unread && this.breaks == breaks && this.maxArticleBytes == maxArticleBytes
    {
      this.unread, this.breaks, this.maxArticleBytes := unread, breaks, maxArticleBytes;
    }

    /** ReadString; `ended` when the stream ran out before a line feed. */
    method ReadString() returns (line: Bytes, ended: bool)
      modifies this
      ensures var n := LineLength(old(unread)); line == old(unread)[..n] && unread == old(unread)[n..]
      ensures ended == !EndsLine(line)
    {
      var n := 0;
      while n < |unread| && unread[n] != LF
        invariant 0 <= n <= |unread| && LF !in unread[..n]
      {
        n := n + 1;
      }
      if n < |unread| {
        LineOf(unread[..n], unread[n + 1..]);
        assert unread == unread[..n] + [LF] + unread[n + 1..];
        line, ended := unread[..n + 1], false;
      } else {
        NoLine(unread);
        line, ended := unread, true;
      }
      unread := unread[|line|..];
    }

    method ReadDot(keepNewlines: bool) returns (body: Body)
      modifies this
      ensures (body, unread) == ReadFrom(Stream(old(unread), breaks), [], keepNewlines, Ceiling(maxArticleBytes))
    {
      var limit := maxArticleBytes;
      if limit <= 0 {
        limit := DEFAULT_MAX_ARTICLE_BYTES;
      }
      var buf: Bytes := [];
      while true
        invariant ReadFrom(Stream(unread, breaks), buf, keepNewlines, limit)
               == ReadFrom(Stream(old(unread), breaks), [], keepNewlines, limit)
        decreases |unread|
      {
        var line, ended := ReadString();
        if ended && breaks {
          return Failed;
        }
        var trimmed := TrimRight(line);
        if trimmed == [DOT] {
          return Complete(buf);
        }
        if |trimmed| >= 2 && trimmed[0] == DOT && trimmed[1] == DOT {
          trimmed := trimmed[1..];
        }
        if |buf| + |trimmed| + 1 > limit {
          return TooLarge;
        }
        assert buf + trimmed + [] == buf + trimmed;
        buf := buf + trimmed;
        if keepNewlines {
          buf := buf + [LF];
        }
        if ended {
          return Complete(buf);
        }
      }
    }
  }

  lemma {:induction false} NoLine(s: Bytes)
    requires LF !in s
    ensures LineLength(s) == |s|
  {
    if s != [] {
      NoLine(s[1..]);
    }
  }

  // -------------------------------------------------------------------- in bytes

  /** The escapes, byte for byte: =C is a line feed, =B a carriage return, =A a zero byte, =D an equals sign, and
      nothing else is an escape. */
  lemma EscapesMean(s: Bytes)
    ensures |s| < 2 ==> Unescape(s) == s
    ensures |s| >= 2 && s[0] != 61 ==> Unescape(s) == [s[0]] + Unescape(s[1..])
    ensures |s| >= 2 && s[0] == 61 && s[1] == 67 ==> Unescape(s) == [10] + Unescape(s[2..])
    ensures |s| >= 2 && s[0] == 61 && s[1] == 66 ==> Unescape(s) == [13] + Unescape(s[2..])
    ensures |s| >= 2 && s[0] == 61 && s[1] == 65 ==> Unescape(s) == [0] + Unescape(s[2..])
    ensures |s| >= 2 && s[0] == 61 && s[1] == 68 ==> Unescape(s) == [61] + Unescape(s[2..])
    ensures |s| >= 2 && s[0] == 61 && !(65 <= s[1] <= 68) ==> Unescape(s) == [61] + Unescape(s[1..])
  {
    FourPassesAreOne(s);
    if |s| >= 2 {
      FourPassesAreOne(s[1..]);
      FourPassesAreOne(s[2..]);
    }
    hide Unescape;
  }

  /** A line is read up to its first line feed, and loses every carriage return and line feed at its end. */
  lemma {:induction false} LineIs(s: Bytes)
    ensures forall i | 0 <= i < LineLength(s) - 1 :: s[i] != 10
    ensures s != [] ==> s[LineLength(s) - 1] == 10 || LineLength(s) == |s|
  {
    if s != [] && s[0] != LF {
      LineIs(s[1..]);
      forall i | 0 <= i < LineLength(s) - 1 ensures s[i] != 10 {
        if i > 0 { assert s[i] == s[1..][i - 1]; }
      }
    }
  }

  lemma {:induction false} TrimIs(line: Bytes)
    ensures var r := TrimRight(line);
      && r <= line && (r == [] || (r[|r| - 1] != 13 && r[|r| - 1] != 10))
      && forall i | |r| <= i < |line| :: line[i] == 13 || line[i] == 10
  {
    if line != [] && (line[|line| - 1] == CR || line[|line| - 1] == LF) {
      TrimIs(line[..|line| - 1]);
    }
  }

  /** The ceiling is the configured one, or 32 MiB. */
  lemma CeilingIs(maxArticleBytes: int)
    ensures Ceiling(maxArticleBytes) == if maxArticleBytes > 0 then maxArticleBytes else 33554432
  {}

  /** A line of one dot ends the block; of two leading dots the first is dropped, of one it is not. */
  lemma DotsMean(line: Bytes, rest: Bytes, breaks: bool, buf: Bytes, limit: int)
    requires PlainLine(line)
    ensures line == [46] ==>
      ReadFrom(Stream(line + [13, 10] + rest, breaks), buf, false, limit) == (Complete(buf), rest)
    ensures line != [46] ==>
      var text := if |line| >= 2 && line[0] == 46 && line[1] == 46 then line[1..] else line;
      ReadFrom(Stream(line + [13, 10] + rest, breaks), buf, false, limit)
        == if |buf| + |text| + 1 > limit then (TooLarge, rest)
           else ReadFrom(Stream(rest, breaks), buf + text, false, limit)
  {
    ReadsLine(line, rest);
    assert forall text: Bytes :: buf + text + [] == buf + text;
  }
}
