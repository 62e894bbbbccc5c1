/** Subcategory codes: the wire form in an article's headers, the byte loop that parses it
    (internal/spotnet/parser.go) and the four columns it fills. Strings are byte strings. */
module SubCats {

  datatype Code = Code(letter: char, num: nat)

  /** What strconv.Atoi clamps an overlong number to. */
  const MAX_INT: nat := 0x7fff_ffff_ffff_ffff

  predicate IsDigit(c: char) {
    '0' <= c <= '9'
  }

  predicate Digits(s: string) {
    forall c <- s :: IsDigit(c)
  }

  predicate IsLetter(c: char) {
    c in {'a', 'b', 'c', 'd', 'z'}
  }

  function Value(digits: string): nat
    requires Digits(digits)
  {
    if digits == [] then 0
    else
      var n := |digits| - 1;
      assert IsDigit(digits[n]);
      10 * Value(digits[..n]) + (digits[n] as int - '0' as int)
  }

  /** Atoi on digits, its error ignored: "" is 0, too large a number is the largest. */
  function Atoi(digits: string): nat
    requires Digits(digits)
  {
    if Value(digits) > MAX_INT then MAX_INT else Value(digits)
  }

  /** The decimal form, without leading zeros. */
  function Decimal(n: nat): (s: string)
    ensures s != [] && Digits(s)
  {
    if n < 10 then [('0' as int + n) as char]
    else Decimal(n / 10) + [('0' as int + n % 10) as char]
  }

  lemma {:induction false} ValueOfDecimal(n: nat)
    ensures Value(Decimal(n)) == n
    ensures Decimal(n)[0] == '0' ==> n == 0
  {
    if n >= 10 {
      ValueOfDecimal(n / 10);
      assert Decimal(n)[..|Decimal(n)| - 1] == Decimal(n / 10);
    } else {
      assert Decimal(n)[..0] == [];
    }
  }

  function Name(c: Code): string {
    [c.letter] + Decimal(c.num)
  }

  /** A column: every code followed by a bar. */
  function Column(codes: seq<Code>): string {
    if codes == [] then [] else Name(codes[0]) + "|" + Column(codes[1..])
  }

  function DigitRun(s: string): (n: nat)
    ensures n <= |s| && Digits(s[..n])
    ensures n < |s| ==> !IsDigit(s[n])
  {
    if s == [] || !IsDigit(s[0]) then 0
    else
      var n := 1 + DigitRun(s[1..]);
      assert s[..n] == [s[0]] + s[1..][..n - 1];
      n
  }

  /** The codes of a wire string, in order: a letter and the digits after it, ended by anything that is
      not a digit. Digits without a letter, other letters, and a code cut off by the end do not count. */
  function Codes(s: string): seq<Code>
    decreases |s|
  {
    if s == [] then []
    else if IsDigit(s[0]) then Codes(s[1..])
    else
      var n := DigitRun(s[1..]);
      var rest := s[1 + n..];
      if rest == [] then []
      else (if IsLetter(s[0]) then [Code(s[0], Atoi(s[1..][..n]))] else []) + Codes(rest)
  }

  datatype Column4 = ForA | ForB | ForC | ForD

  /** d and z codes share a column. */
  predicate Belongs(letter: char, column: Column4) {
    match column
    case ForA => letter == 'a'
    case ForB => letter == 'b'
    case ForC => letter == 'c'
    case ForD => letter == 'd' || letter == 'z'
  }

  function Own(codes: seq<Code>, column: Column4): seq<Code> {
    if codes == [] then []
    else (if Belongs(codes[0].letter, column) then [codes[0]] else []) + Own(codes[1..], column)
  }

  /** What parseSubCats leaves in a column. */
  function ParsedColumn(s: string, column: Column4): string {
    Column(Own(Codes(s), column))
  }

  predicate Proper(codes: seq<Code>) {
    forall c <- codes :: IsLetter(c.letter) && c.num <= MAX_INT
  }

  // -------------------------------------------------------------- the loop

  /** Go's string(c) of a byte: two bytes when c >= 0x80. */
  function StringOf(c: char): string {
    if c < 0x80 as char then [c]
    else [(0xC0 + c as int / 64) as char, (0x80 + c as int % 64) as char]
  }

  lemma {:induction false} OwnAppend(codes: seq<Code>, c: Code, column: Column4)
    ensures Own(codes + [c], column) == Own(codes, column) + (if Belongs(c.letter, column) then [c] else [])
  {
    if codes != [] {
      OwnAppend(codes[1..], c, column);
      assert (codes + [c])[1..] == codes[1..] + [c];
    } else {
      assert codes + [c] == [c] && [c][1..] == [];
    }
  }

  lemma {:induction false} ColumnConcat(a: seq<Code>, b: seq<Code>)
    ensures Column(a + b) == Column(a) + Column(b)
  {
    if a == [] {
      assert a + b == b;
    } else {
      hide Name;
      ColumnConcat(a[1..], b);
      assert (a + b)[1..] == a[1..] + b && (a + b)[0] == a[0];
      Associates(Name(a[0]) + "|", Column(a[1..]), Column(b));
    }
  }

  lemma Associates<T>(a: seq<T>, b: seq<T>, c: seq<T>)
    ensures a + (b + c) == a + b + c
  {}

  lemma ColumnAppend(codes: seq<Code>, c: Code, column: Column4)
    ensures Column(Own(codes + [c], column))
         == if Belongs(c.letter, column) then Column(Own(codes, column)) + (Name(c) + "|")
             else Column(Own(codes, column))
  {
    OwnAppend(codes, c, column);
    ColumnConcat(Own(codes, column), [c]);
    assert Column([c]) == Name(c) + "|" + Column([]);
    assert Own(codes, column) + [] == Own(codes, column);
  }

  /** The token that starts at `s[0]` and is ended by the non-digit at `s[1 + n]`. */
  lemma TokenEnds(s: string, n: nat)
    requires 1 + n < |s| && !IsDigit(s[0]) && Digits(s[1..1 + n]) && !IsDigit(s[1 + n])
    ensures Codes(s) == (if IsLetter(s[0]) then [Code(s[0], Atoi(s[1..1 + n]))] else []) + Codes(s[1 + n..])
  {
    RunIs(s[1..], n);
    assert s[1..][..n] == s[1..1 + n];
  }

  lemma {:induction false} RunIs(s: string, n: nat)
    requires n < |s| && Digits(s[..n]) && !IsDigit(s[n])
    ensures DigitRun(s) == n
  {
    if n > 0 {
      assert s[0] in s[..n];
      assert s[1..][..n - 1] == s[1..n];
      assert forall c <- s[1..n] :: c in s[..n];
      RunIs(s[1..], n - 1);
    }
  }

  lemma {:induction false} DigitsSkipped(s: string, n: nat)
    requires n <= |s| && Digits(s[..n])
    ensures Codes(s) == Codes(s[n..])
  {
    if n > 0 {
      assert s[0] in s[..n];
      assert forall c <- s[1..][..n - 1] :: c in s[..n];
      DigitsSkipped(s[1..], n - 1);
      assert s[1..][n - 1..] == s[n..];
    } else {
      assert s[0..] == s;
    }
  }

  /** `tmp` holds the token begun in `raw`: its first byte as a string, then digits; a `!` is dropped. */
  predicate Token(raw: string, tmp: string) {
    if raw == [] then tmp == []
    else if IsDigit(raw[0]) then Digits(raw) && tmp == raw
    else Digits(raw[1..]) && tmp == (if raw[0] == '!' then [] else StringOf(raw[0])) + raw[1..]
  }

  /** A digit joins the token. */
  lemma TokenGrows(raw: string, tmp: string, c: char)
    requires Token(raw, tmp) && IsDigit(c)
    ensures Token(raw + [c], tmp + [c])
  {
    if raw != [] {
      assert (raw + [c])[1..] == raw[1..] + [c];
    }
  }

  /** A non-digit ends the token. */
  lemma TokenFlushed(s: string, n: nat, tmp: string)
    requires n < |s| && Token(s[..n], tmp) && !IsDigit(s[n])
    ensures tmp != [] && IsLetter(tmp[0]) ==> Digits(tmp[1..])
    ensures tmp != [] && IsLetter(tmp[0]) ==> Codes(s) == [Code(tmp[0], Atoi(tmp[1..]))] + Codes(s[n..])
    ensures tmp == [] || !IsLetter(tmp[0]) ==> Codes(s) == Codes(s[n..])
  {
    hide Atoi, Value, Codes, DigitRun;
    if n == 0 {
      assert s[0..] == s;
    } else if IsDigit(s[0]) {
      assert s[..n][0] == s[0];
      DigitsSkipped(s, n);
    } else {
      assert s[..n][1..] == s[1..n] && s[..n][0] == s[0];
      TokenEnds(s, n - 1);
      TokenHead(s[0], s[1..n], tmp);
    }
  }

  lemma TokenHead(c: char, digits: string, tmp: string)
    requires !IsDigit(c) && Digits(digits) && tmp == (if c == '!' then [] else StringOf(c)) + digits
    ensures tmp != [] && IsLetter(tmp[0]) ==> c == tmp[0] && tmp[1..] == digits
    ensures IsLetter(c) ==> tmp != [] && tmp[0] == c
  {
    if c == '!' && digits != [] {
      assert IsDigit(digits[0]);
    }
  }

  lemma NothingYet(s: string)
    ensures forall k: Column4 :: Column(Own([], k)) == []
    ensures Token(s[0..0], []) && Codes(s) == [] + Codes(s[0..])
  {
    assert s[0..] == s;
  }

  lemma Flushed(s: string, from: nat, i: nat, tmp: string, acc: seq<Code>)
    requires from <= i < |s| && Token(s[from..i], tmp) && !IsDigit(s[i])
    requires Codes(s) == acc + Codes(s[from..])
    ensures tmp != [] && IsLetter(tmp[0]) ==>
      Digits(tmp[1..]) && Codes(s) == acc + [Code(tmp[0], Atoi(tmp[1..]))] + Codes(s[i..])
    ensures tmp == [] || !IsLetter(tmp[0]) ==> Codes(s) == acc + Codes(s[i..])
    ensures Token(s[i..i + 1], if s[i] == '!' then [] else StringOf(s[i]))
  {
    hide Codes, Atoi, StringOf;
    assert s[from..][..i - from] == s[from..i] && s[from..][i - from..] == s[i..];
    TokenFlushed(s[from..], i - from, tmp);
    if tmp != [] && IsLetter(tmp[0]) {
      Associates(acc, [Code(tmp[0], Atoi(tmp[1..]))], Codes(s[i..]));
    }
    TokenBegins(s, i);
  }

  lemma TokenBegins(s: string, i: nat)
    requires i < |s| && !IsDigit(s[i])
    ensures Token(s[i..i + 1], if s[i] == '!' then [] else StringOf(s[i]))
  {
    var raw := s[i..i + 1];
    assert raw == [s[i]] && raw[1..] == [];
    assert StringOf(s[i]) + [] == StringOf(s[i]);
  }

  lemma Grown(s: string, from: nat, i: nat, tmp: string)
    requires from <= i < |s| && Token(s[from..i], tmp) && IsDigit(s[i])
    ensures Token(s[from..i + 1], tmp + StringOf(s[i]))
  {
    TokenGrows(s[from..i], tmp, s[i]);
    assert s[from..i] + [s[i]] == s[from..i + 1];
  }

  /** The switch on the letter: one more code in its column. */
  method File(code: Code, subA: string, subB: string, subC: string, subD: string, ghost acc: seq<Code>)
    returns (newA: string, newB: string, newC: string, newD: string)
    requires IsLetter(code.letter)
    requires subA == Column(Own(acc, ForA)) && subB == Column(Own(acc, ForB))
    requires subC == Column(Own(acc, ForC)) && subD == Column(Own(acc, ForD))
    ensures newA == Column(Own(acc + [code], ForA)) && newB == Column(Own(acc + [code], ForB))
    ensures newC == Column(Own(acc + [code], ForC)) && newD == Column(Own(acc + [code], ForD))
  {
    ColumnAppend(acc, code, ForA);
    ColumnAppend(acc, code, ForB);
    ColumnAppend(acc, code, ForC);
    ColumnAppend(acc, code, ForD);
    hide Column, Own, Name;
    newA, newB, newC, newD := subA, subB, subC, subD;
    var val := Name(code) + "|";
    match code.letter {
      case 'a' => newA := subA + val;
      case 'b' => newB := subB + val;
      case 'c' => newC := subC + val;
      case _ => newD := subD + val;
    }
  }

  /** parseSubCats. */
  method ParseSubCats(s: string) returns (subA: string, subB: string, subC: string, subD: string)
    ensures subA == ParsedColumn(s, ForA) && subB == ParsedColumn(s, ForB)
    ensures subC == ParsedColumn(s, ForC) && subD == ParsedColumn(s, ForD)
  {
    hide Atoi, Value, Codes, DigitRun, Column, Own, Name, StringOf, Token;
    subA, subB, subC, subD := [], [], [], [];
    var tmp: string := [];
    ghost var acc: seq<Code>, from := [], 0;
    NothingYet(s);
    for i := 0 to |s|
      invariant 0 <= from <= i && Token(s[from..i], tmp)
      invariant Codes(s) == acc + Codes(s[from..])
      invariant subA == Column(Own(acc, ForA)) && subB == Column(Own(acc, ForB))
      invariant subC == Column(Own(acc, ForC)) && subD == Column(Own(acc, ForD))
    {
      var c := s[i];
      if IsDigit(c) {
        Grown(s, from, i, tmp);
      } else {
        Flushed(s, from, i, tmp, acc);
        from := i;
      }
      if !IsDigit(c) && |tmp| > 0 {
        if IsLetter(tmp[0]) {
          var code := Code(tmp[0], Atoi(tmp[1..]));
          subA, subB, subC, subD := File(code, subA, subB, subC, subD, acc);
          acc := acc + [code];
        }
        tmp := [];
      }
      if c != '!' {
        assert [] + StringOf(c) == StringOf(c);
        tmp := tmp + StringOf(c);
      }
    }
    assert s[from..|s|] == s[from..];
    CutOff(s[from..], tmp);
    assert acc + [] == acc;
  }

  /** What the end cuts off does not count. */
  lemma CutOff(s: string, tmp: string)
    requires Token(s, tmp)
    ensures Codes(s) == []
  {
    if s != [] {
      if IsDigit(s[0]) {
        assert s[..|s|] == s;
        DigitsSkipped(s, |s|);
      } else {
        RunToEnd(s[1..]);
      }
    }
  }

  lemma {:induction false} RunToEnd(s: string)
    requires Digits(s)
    ensures DigitRun(s) == |s|
  {
    if s != [] {
      RunToEnd(s[1..]);
    }
  }

  // --------------------------------------------------------- what it promises

  lemma {:induction false} CodesProper(s: string)
    ensures Proper(Codes(s))
    decreases |s|
  {
    if s != [] {
      if IsDigit(s[0]) {
        CodesProper(s[1..]);
      } else {
        CodesProper(s[1 + DigitRun(s[1..])..]);
      }
    }
  }

  lemma {:induction false} OwnProper(codes: seq<Code>, column: Column4)
    ensures forall c <- Own(codes, column) :: c in codes && Belongs(c.letter, column)
    ensures forall c <- codes :: Belongs(c.letter, column) ==> c in Own(codes, column)
  {
    if codes != [] {
      OwnProper(codes[1..], column);
      assert forall c <- codes :: c == codes[0] || c in codes[1..];
    }
  }

  lemma ColumnStarts(codes: seq<Code>)
    requires codes != []
    ensures var s, digits, rest := Column(codes), Decimal(codes[0].num), "|" + Column(codes[1..]);
      var n := |digits|;
      s != [] && s[0] == codes[0].letter && 1 + n < |s| && s[1..1 + n] == digits && s[1 + n..] == rest
  {
    hide Decimal;
    Parts(codes[0].letter, Decimal(codes[0].num), Column(codes[1..]));
  }

  lemma Parts(letter: char, digits: string, rest: string)
    ensures var s, n := [letter] + digits + "|" + rest, |digits|;
      1 + n < |s| && s[0] == letter && s[1..1 + n] == digits && s[1 + n..] == "|" + rest
  {}

  /** A column parses back to its codes. */
  lemma {:induction false} ColumnParses(codes: seq<Code>)
    requires Proper(codes)
    ensures Codes(Column(codes)) == codes
    decreases |codes|
  {
    if codes != [] {
      var c := codes[0];
      var s, n := Column(codes), |Decimal(c.num)|;
      ColumnParses(codes[1..]);
      BarSkipped(codes[1..]);
      ColumnStarts(codes);
      ValueOfDecimal(c.num);
      hide Column, Codes, Decimal;
      TokenEnds(s, n);
      assert codes == [c] + codes[1..];
    }
  }

  lemma BarSkipped(codes: seq<Code>)
    requires Proper(codes)
    ensures Codes("|" + Column(codes)) == Codes(Column(codes))
  {
    var s := "|" + Column(codes);
    assert s[1..] == Column(codes);
    if codes != [] {
      assert Column(codes)[0] == codes[0].letter;
      assert DigitRun(s[1..]) == 0;
    }
  }

  lemma {:induction false} OwnConcat(a: seq<Code>, b: seq<Code>, column: Column4)
    ensures Own(a + b, column) == Own(a, column) + Own(b, column)
  {
    if a == [] {
      assert a + b == b;
    } else {
      OwnConcat(a[1..], b, column);
      assert (a + b)[1..] == a[1..] + b && (a + b)[0] == a[0];
      hide Belongs;
      Associates(if Belongs(a[0].letter, column) then [a[0]] else [], Own(a[1..], column), Own(b, column));
    }
  }

  lemma {:induction false} OwnOfOwn(codes: seq<Code>, column: Column4, other: Column4)
    ensures Own(Own(codes, column), other) == if column == other then Own(codes, column) else []
  {
    if codes != [] {
      var rest := Own(codes[1..], column);
      OwnOfOwn(codes[1..], column, other);
      if Belongs(codes[0].letter, column) {
        assert ([codes[0]] + rest)[1..] == rest;
        assert IsLetter(codes[0].letter);
      } else {
        assert [] + rest == rest;
      }
    }
  }

  /** Parsing a column again changes nothing: it comes back in its own column, the others stay empty. */
  lemma ColumnReparses(s: string, column: Column4, other: Column4)
    ensures ParsedColumn(ParsedColumn(s, column), other) == if column == other then ParsedColumn(s, column) else []
  {
    CodesProper(s);
    OwnProper(Codes(s), column);
    ColumnParses(Own(Codes(s), column));
    OwnOfOwn(Codes(s), column, other);
  }

  /** Nor does parsing all four columns joined. */
  lemma JoinedReparses(s: string, column: Column4)
    ensures var a, b := ParsedColumn(s, ForA), ParsedColumn(s, ForB);
      var c, d := ParsedColumn(s, ForC), ParsedColumn(s, ForD);
      ParsedColumn(a + b + c + d, column) == ParsedColumn(s, column)
  {
    var cs := Codes(s);
    var a, b, c, d := Own(cs, ForA), Own(cs, ForB), Own(cs, ForC), Own(cs, ForD);
    hide Codes, Column, Own;
    CodesProper(s);
    OwnProper(cs, ForA);
    OwnProper(cs, ForB);
    OwnProper(cs, ForC);
    OwnProper(cs, ForD);
    ColumnConcat(a, b);
    ColumnConcat(a + b, c);
    ColumnConcat(a + b + c, d);
    ColumnParses(a + b + c + d);
    OwnConcat(a, b, column);
    OwnConcat(a + b, c, column);
    OwnConcat(a + b + c, d, column);
    OwnOfOwn(cs, ForA, column);
    OwnOfOwn(cs, ForB, column);
    OwnOfOwn(cs, ForC, column);
    OwnOfOwn(cs, ForD, column);
    OnlyOne(Own(cs, column), column);
  }

  lemma OnlyOne(own: seq<Code>, column: Column4)
    ensures (if ForA == column then own else []) + (if ForB == column then own else [])
          + (if ForC == column then own else []) + (if ForD == column then own else []) == own
  {}

  // -------------------------------------------------------------- the padding

  /** The codes of a string whose end also ends a code. */
  function WholeCodes(s: string): seq<Code>
    decreases |s|
  {
    if s == [] then []
    else if IsDigit(s[0]) then WholeCodes(s[1..])
    else
      var n := DigitRun(s[1..]);
      (if IsLetter(s[0]) then [Code(s[0], Atoi(s[1..][..n]))] else []) + WholeCodes(s[1 + n..])
  }

  const PADDING := "!!!"

  lemma RunStops(s: string)
    ensures DigitRun(s + PADDING) == DigitRun(s)
  {
    if s != [] && IsDigit(s[0]) {
      assert (s + PADDING)[1..] == s[1..] + PADDING;
      RunStops(s[1..]);
    }
  }

  lemma PaddingAlone()
    ensures Codes(PADDING) == []
  {
    assert PADDING[1..] == "!!" && PADDING[1..][1..] == "!" && PADDING[1..][1..][1..] == "";
  }

  /** With the padding every code is read, the last one too. */
  lemma {:induction false} PaddingEndsTheLast(s: string)
    ensures Codes(s + PADDING) == WholeCodes(s)
    decreases |s|
  {
    if s == [] {
      PaddingAlone();
      assert s + PADDING == PADDING;
    } else if IsDigit(s[0]) {
      assert (s + PADDING)[1..] == s[1..] + PADDING;
      PaddingEndsTheLast(s[1..]);
    } else {
      var n := DigitRun(s[1..]);
      RunStops(s[1..]);
      assert (s + PADDING)[1..] == s[1..] + PADDING;
      assert (s[1..] + PADDING)[..n] == s[1..][..n];
      assert (s + PADDING)[1 + n..] == s[1 + n..] + PADDING;
      PaddingEndsTheLast(s[1 + n..]);
    }
  }

  /** The string ends within a code. */
  predicate EndsOpen(s: string) {
    exists i :: 0 <= i < |s| && IsLetter(s[i]) && Digits(s[i + 1..])
  }

  lemma OpenFrom(s: string, k: nat)
    requires k <= |s| && forall i | 0 <= i < k :: !(IsLetter(s[i]) && Digits(s[i + 1..]))
    ensures EndsOpen(s) <==> EndsOpen(s[k..])
  {
    assert forall i | k <= i < |s| :: s[i] == s[k..][i - k] && s[i + 1..] == s[k..][i - k + 1..];
    if EndsOpen(s[k..]) {
      var j :| 0 <= j < |s[k..]| && IsLetter(s[k..][j]) && Digits(s[k..][j + 1..]);
      assert s[k + j] == s[k..][j] && s[k + j + 1..] == s[k..][j + 1..];
    }
  }

  /** A token with `n` digits: the string ends within it, or within what follows. */
  lemma OpenAfterToken(s: string, n: nat)
    requires s != [] && !IsDigit(s[0]) && n == DigitRun(s[1..])
    ensures if 1 + n == |s| then EndsOpen(s) <==> IsLetter(s[0]) else EndsOpen(s) <==> EndsOpen(s[1 + n..])
  {
    hide DigitRun;
    forall i | 1 <= i <= n ensures !IsLetter(s[i]) {
      assert s[i] == s[1..][..n][i - 1] && s[i] in s[1..][..n];
    }
    if 1 + n == |s| {
      assert s[1..] == s[1..][..n];
      assert Digits(s[0 + 1..]);
    } else {
      assert s[1..][n] == s[1 + n] == s[1..][n..][0];
      assert s[1..][n] in s[1..];
      OpenFrom(s, 1 + n);
    }
  }

  /** Without it the code in which the string ends is lost, and nothing else. */
  lemma {:induction false} LostWithoutPadding(s: string)
    ensures if EndsOpen(s) then WholeCodes(s) != [] && Codes(s) == WholeCodes(s)[..|WholeCodes(s)| - 1]
            else Codes(s) == WholeCodes(s)
    decreases |s|
  {
    hide EndsOpen, Atoi, DigitRun;
    if s == [] {
      NotOpen();
    } else if IsDigit(s[0]) {
      OpenFrom(s, 1);
      LostWithoutPadding(s[1..]);
    } else {
      var n := DigitRun(s[1..]);
      OpenAfterToken(s, n);
      LostWithoutPadding(s[1 + n..]);
      NotOpen();
    }
  }

  lemma NotOpen()
    ensures !EndsOpen("") && WholeCodes("") == [] && Codes("") == []
  {}

  // -------------------------------------------------------------- numbers and letters

  /** Atoi is the decimal value, however many zeros lead, up to the largest 64-bit number. */
  lemma AtoiIs(n: nat, digits: string)
    requires Digits(digits)
    ensures Atoi(Decimal(n)) == if n <= 9223372036854775807 then n else 9223372036854775807
    ensures digits != [] && digits[0] == '0' ==> Atoi(digits) == Atoi(digits[1..])
    ensures Decimal(10) == "10" && Decimal(7) == "7"
  {
    ValueOfDecimal(n);
    if digits != [] && digits[0] == '0' { LeadingZero(digits); }
    assert Decimal(10) == Decimal(1) + ['0'];
  }

  lemma {:induction false} LeadingZero(digits: string)
    requires Digits(digits) && digits != [] && digits[0] == '0'
    ensures Value(digits) == Value(digits[1..])
  {
    var n := |digits| - 1;
    assert IsDigit(digits[n]);
    if n > 0 {
      LeadingZero(digits[..n]);
      assert digits[1..][..n - 1] == digits[..n][1..];
    } else {
      assert digits[..0] == [] && digits[1..] == [];
    }
  }

  /** One letter and one digit: a code if the letter is one of the five, and nothing otherwise. */
  lemma FiveLetters(letter: char, digit: char)
    requires '0' <= digit <= '9' && !('0' <= letter <= '9')
    ensures Codes([letter, digit, '!']) == if letter in {'a', 'b', 'c', 'd', 'z'}
                                           then [Code(letter, digit as int - '0' as int)] else []
  {
    var s := [letter, digit, '!'];
    var d := [digit];
    assert s[1..] == [digit, '!'] && s[1..][..1] == d && s[2..] == ['!'];
    assert s[1..2] == d && ['!'][1..] == [] && Codes(['!']) == [];
    assert Value(d) == 10 * Value(d[..0]) + (digit as int - '0' as int);
    TokenEnds(s, 1);
  }
}
