/** Texts as Python strings are: sequences of code points, surrogates included. A Dafny `string`
    could not hold a lone surrogate, and the printer's one ambiguity is about surrogates. */
module JsonText {
  type Code = n: int | 0 <= n < 0x110000
  type Text = seq<Code>

  const QUOTE: Code := 0x22
  const BACKSLASH: Code := 0x5c
  const SLASH: Code := 0x2f

  /** What reading the front of a text gives: a value and the text behind it. */
  datatype Reading<T> = Read(value: T, rest: Text) | Bad

  // ---- Surrogate pairs -------------------------------------------------------------------------

  predicate IsHigh(c: Code) { 0xd800 <= c < 0xdc00 }

  predicate IsLow(c: Code) { 0xdc00 <= c < 0xe000 }

  function High(c: Code): Code
    requires 0x10000 <= c
  {
    0xd800 + (c - 0x10000) / 0x400
  }

  function Low(c: Code): Code
    requires 0x10000 <= c
  {
    0xdc00 + (c - 0x10000) % 0x400
  }

  function Join(high: Code, low: Code): Code
    requires IsHigh(high) && IsLow(low)
  {
    0x10000 + (high - 0xd800) * 0x400 + (low - 0xdc00)
  }

  /** A high surrogate directly followed by a low one. */
  ghost predicate HasSplitPair(s: Text) {
    exists i :: 0 <= i < |s| - 1 && IsHigh(s[i]) && IsLow(s[i + 1])
  }

  /** Every split pair made one code point, as a JSON reader does. */
  function Fuse(s: Text): Text {
    if |s| >= 2 && IsHigh(s[0]) && IsLow(s[1]) then [Join(s[0], s[1])] + Fuse(s[2..])
    else if s == [] then []
    else [s[0]] + Fuse(s[1..])
  }

  /** The 16-bit units of a text. */
  function Units(s: Text): Text {
    if s == [] then []
    else if s[0] < 0x10000 then [s[0]] + Units(s[1..])
    else [High(s[0]), Low(s[0])] + Units(s[1..])
  }

  lemma {:induction false} FuseUnits(s: Text)
    ensures Fuse(Units(s)) == Fuse(s)
  {
    if s != [] {
      var rest := Units(s[1..]);
      if |s| >= 2 && IsHigh(s[0]) && IsLow(s[1]) {
        FuseUnits(s[2..]);
        assert Units(s[1..])[1..] == Units(s[2..]);
        assert Units(s)[2..] == Units(s[2..]);
      } else {
        FuseUnits(s[1..]);
        if s[0] < 0x10000 {
          assert Units(s)[1..] == rest;
        } else {
          assert Units(s)[2..] == rest;
          assert Join(High(s[0]), Low(s[0])) == s[0];
        }
      }
    }
  }

  /** Fusing changes nothing exactly when there is no split pair. */
  lemma {:induction false} FuseIsIdentityIffUnsplit(s: Text)
    ensures Fuse(s) == s <==> !HasSplitPair(s)
    ensures |Fuse(s)| <= |s|
  {
    if s != [] {
      if |s| >= 2 && IsHigh(s[0]) && IsLow(s[1]) {
        FuseIsIdentityIffUnsplit(s[2..]);
        assert Fuse(s)[0] != s[0];
      } else {
        FuseIsIdentityIffUnsplit(s[1..]);
        assert Fuse(s)[1..] == Fuse(s[1..]);
        assert s == [s[0]] + s[1..];
        if HasSplitPair(s) {
          var i :| 0 <= i < |s| - 1 && IsHigh(s[i]) && IsLow(s[i + 1]);
          assert IsHigh(s[1..][i - 1]) && IsLow(s[1..][i]);
        }
        if HasSplitPair(s[1..]) {
          var i :| 0 <= i < |s[1..]| - 1 && IsHigh(s[1..][i]) && IsLow(s[1..][i + 1]);
          assert IsHigh(s[i + 1]) && IsLow(s[i + 2]);
        }
      }
    }
  }

  // ---- String literals -------------------------------------------------------------------------

  function HexDigit(d: nat): Code
    requires d < 16
  {
    if d < 10 then 0x30 + d else 0x57 + d
  }

  /** `\uXXXX`, in lower case. */
  function UEscape(n: nat): Text
    requires n < 0x10000
  {
    [BACKSLASH, 0x75, HexDigit(n / 0x1000), HexDigit(n / 0x100 % 16), HexDigit(n / 0x10 % 16), HexDigit(n % 16)]
  }

  /** How the printer writes one code point inside a string literal. */
  function Escape(c: Code): Text {
    if c == QUOTE || c == BACKSLASH then [BACKSLASH, c]
    else if c == 0x0a then [BACKSLASH, 0x6e]
    else if c == 0x0d then [BACKSLASH, 0x72]
    else if c == 0x09 then [BACKSLASH, 0x74]
    else if c == 0x0c then [BACKSLASH, 0x66]
    else if c == 0x08 then [BACKSLASH, 0x62]
    else if 0x20 <= c <= 0x7e then [c]
    else if c < 0x10000 then UEscape(c)
    else UEscape(High(c)) + UEscape(Low(c))
  }

  function EscapeAll(s: Text): Text {
    if s == [] then [] else Escape(s[0]) + EscapeAll(s[1..])
  }

  function Quoted(s: Text): Text {
    [QUOTE] + EscapeAll(s) + [QUOTE]
  }

  /** The value of a hexadecimal digit of either case, or 16. */
  function HexValue(c: Code): (d: nat)
    ensures d <= 16
  {
    if 0x30 <= c <= 0x39 then c - 0x30
    else if 0x61 <= c <= 0x66 then c - 0x57
    else if 0x41 <= c <= 0x46 then c - 0x37
    else 16
  }

  /** Reads one unit of a string literal by the escapes of section 7 of RFC 8259. */
  function ReadUnit(t: Text): (r: Reading<Code>)
    requires t != []
    ensures r.Read? ==> |r.rest| < |t|
  {
    if t[0] != BACKSLASH then (if t[0] < 0x20 then Bad else Read(t[0], t[1..]))
    else if |t| < 2 then Bad
    else if t[1] == QUOTE || t[1] == BACKSLASH || t[1] == SLASH then Read(t[1], t[2..])
    else if t[1] == 0x6e then Read(0x0a, t[2..])
    else if t[1] == 0x72 then Read(0x0d, t[2..])
    else if t[1] == 0x74 then Read(0x09, t[2..])
    else if t[1] == 0x66 then Read(0x0c, t[2..])
    else if t[1] == 0x62 then Read(0x08, t[2..])
    else if t[1] == 0x75 && |t| >= 6 then
      var a, b, c, d := HexValue(t[2]), HexValue(t[3]), HexValue(t[4]), HexValue(t[5]);
      if a < 16 && b < 16 && c < 16 && d < 16 then Read(a * 0x1000 + b * 0x100 + c * 0x10 + d, t[6..]) else Bad
    else Bad
  }

  /** Reads units up to the closing quote. */
  function ReadUnits(t: Text): (r: Reading<Text>)
    ensures r.Read? ==> |r.rest| < |t|
  {
    if t == [] then Bad
    else if t[0] == QUOTE then Read([], t[1..])
    else
      match ReadUnit(t)
      case Bad => Bad
      case Read(unit, rest) =>
        match ReadUnits(rest)
        case Bad => Bad
        case Read(units, behind) => Read([unit] + units, behind)
  }

  /** Reads a string literal whose opening quote has been read. */
  function ReadString(t: Text): (r: Reading<Text>)
    ensures r.Read? ==> |r.rest| < |t|
  {
    match ReadUnits(t)
    case Bad => Bad
    case Read(units, rest) => Read(Fuse(units), rest)
  }

  lemma HexDigitReads(d: nat)
    requires d < 16
    ensures HexValue(HexDigit(d)) == d
  {
  }

  lemma FourDigits(n: nat)
    requires n < 0x10000
    ensures n / 0x1000 < 16
    ensures n == n / 0x1000 * 0x1000 + n / 0x100 % 16 * 0x100 + n / 0x10 % 16 * 0x10 + n % 16
  {
    assert n / 0x10 / 0x10 == n / 0x100 && n / 0x100 / 0x10 == n / 0x1000;
  }

  lemma ReadUEscape(n: nat, x: Text)
    requires n < 0x10000
    ensures ReadUnit(UEscape(n) + x) == Read(n, x)
  {
    var t := UEscape(n) + x;
    FourDigits(n);
    HexDigitReads(n / 0x1000);
    HexDigitReads(n / 0x100 % 16);
    HexDigitReads(n / 0x10 % 16);
    HexDigitReads(n % 16);
    assert t[..6] == UEscape(n) && t[6..] == x;
  }

  lemma ReadEscape(c: Code, x: Text)
    requires c < 0x10000
    ensures ReadUnit(Escape(c) + x) == Read(c, x) && (Escape(c) + x)[0] != QUOTE
  {
    if c == QUOTE || c == BACKSLASH || c in [0x0a, 0x0d, 0x09, 0x0c, 0x08] {
      assert (Escape(c) + x)[2..] == x;
    } else if 0x20 <= c <= 0x7e {
      assert (Escape(c) + x)[1..] == x;
    } else {
      ReadUEscape(c, x);
    }
  }

  lemma ReadOn(t: Text, c: Code, behind: Text, units: Text, x: Text)
    requires t != [] && t[0] != QUOTE && ReadUnit(t) == Read(c, behind) && ReadUnits(behind) == Read(units, x)
    ensures ReadUnits(t) == Read([c] + units, x)
  {
  }

  lemma {:induction false} ReadEscapeAll(s: Text, x: Text)
    ensures ReadUnits(EscapeAll(s) + ([QUOTE] + x)) == Read(Units(s), x)
  {
    if s == [] {
      assert EscapeAll(s) + ([QUOTE] + x) == [QUOTE] + x;
    } else {
      ReadEscapeAll(s[1..], x);
      EscapeAllFront(s, [QUOTE] + x);
      ReadEscapedFront(s[0], EscapeAll(s[1..]) + ([QUOTE] + x), Units(s[1..]), x);
    }
  }

  lemma EscapeAllFront(s: Text, y: Text)
    requires s != []
    ensures EscapeAll(s) + y == Escape(s[0]) + (EscapeAll(s[1..]) + y)
  {
    Regroup(Escape(s[0]), EscapeAll(s[1..]), y);
  }

  lemma Regroup(a: Text, b: Text, c: Text)
    ensures (a + b) + c == a + (b + c)
  {
  }

  lemma ReadEscapedFront(c: Code, behind: Text, units: Text, x: Text)
    requires ReadUnits(behind) == Read(units, x)
    ensures ReadUnits(Escape(c) + behind)
         == Read((if c < 0x10000 then [c] else [High(c), Low(c)]) + units, x)
  {
    var t := Escape(c) + behind;
    if c < 0x10000 {
      ReadEscape(c, behind);
      ReadOn(t, c, behind, units, x);
    } else {
      var low := UEscape(Low(c)) + behind;
      assert t == UEscape(High(c)) + low;
      ReadUEscape(Low(c), behind);
      ReadOn(low, Low(c), behind, units, x);
      ReadUEscape(High(c), low);
      ReadOn(t, High(c), low, [Low(c)] + units, x);
      assert [High(c)] + ([Low(c)] + units) == [High(c), Low(c)] + units;
    }
  }

  /** A reader gets back the text that was quoted, its split pairs joined. */
  lemma QuotedReads(s: Text, x: Text)
    ensures ReadString((Quoted(s) + x)[1..]) == Read(Fuse(s), x)
  {
    assert (Quoted(s) + x)[1..] == EscapeAll(s) + ([QUOTE] + x);
    ReadEscapeAll(s, x);
    FuseUnits(s);
  }

  /** ... and no more could be asked: joining the pairs does not change the literal. */
  lemma {:induction false} FusedPrintsTheSame(s: Text)
    ensures EscapeAll(Fuse(s)) == EscapeAll(s)
  {
    if |s| >= 2 && IsHigh(s[0]) && IsLow(s[1]) {
      FusedPrintsTheSame(s[2..]);
      var c := Join(s[0], s[1]);
      assert High(c) == s[0] && Low(c) == s[1];
      assert Fuse(s)[1..] == Fuse(s[2..]) && s[1..][1..] == s[2..];
      assert EscapeAll(s) == Escape(s[0]) + (Escape(s[1]) + EscapeAll(s[2..]));
    } else if s != [] {
      FusedPrintsTheSame(s[1..]);
      assert Fuse(s)[1..] == Fuse(s[1..]);
    }
  }

  /** Two texts share a literal exactly when they agree once their split pairs are joined: only a
      split pair and the character it encodes are ever confused. */
  lemma LiteralsClashIffFusedAlike(s: Text, t: Text)
    ensures Quoted(s) == Quoted(t) <==> Fuse(s) == Fuse(t)
  {
    QuotedReads(s, []);
    QuotedReads(t, []);
    FusedPrintsTheSame(s);
    FusedPrintsTheSame(t);
  }

  // ---- Printable ASCII -------------------------------------------------------------------------

  predicate Printable(t: Text) {
    forall c | c in t :: 0x20 <= c <= 0x7e
  }

  lemma EscapePrintable(c: Code)
    ensures Printable(Escape(c))
  {
  }

  lemma {:induction false} QuotedPrintable(s: Text)
    ensures Printable(EscapeAll(s)) && Printable(Quoted(s))
  {
    if s != [] {
      EscapePrintable(s[0]);
      QuotedPrintable(s[1..]);
    }
  }

  // ---- Integers --------------------------------------------------------------------------------

  const MINUS: Code := 0x2d

  predicate IsDigit(c: Code) { 0x30 <= c <= 0x39 }

  function Decimal(n: nat): (t: Text)
    ensures t != [] && forall c | c in t :: IsDigit(c)
  {
    if n < 10 then [0x30 + n] else Decimal(n / 10) + [0x30 + n % 10]
  }

  function Integer(n: int): (t: Text)
    ensures t != [] && (IsDigit(t[0]) || t[0] == MINUS) && Printable(t)
  {
    if n < 0 then [MINUS] + Decimal(-n) else Decimal(n)
  }

  /** Reads on over digits, `sofar` being the value of those already read. */
  function ReadDigits(t: Text, sofar: nat): (r: (nat, Text))
    ensures |r.1| <= |t|
    decreases |t|
  {
    if t != [] && IsDigit(t[0]) then ReadDigits(t[1..], sofar * 10 + (t[0] - 0x30)) else (sofar, t)
  }

  function ReadInteger(t: Text): (r: Reading<int>)
    ensures r.Read? ==> |r.rest| < |t|
  {
    if t != [] && t[0] == MINUS then
      if |t| >= 2 && IsDigit(t[1]) then
        var (n, rest) := ReadDigits(t[1..], 0);
        var value: int := 0 - n;
        Read(value, rest)
      else Bad
    else if t != [] && IsDigit(t[0]) then
      var (n, rest) := ReadDigits(t[1..], t[0] - 0x30);
      Read(n, rest)
    else Bad
  }

  lemma {:induction false} ReadDecimal(n: nat, x: Text)
    ensures ReadDigits(Decimal(n) + x, 0) == ReadDigits(x, n)
  {
    if n < 10 {
      assert (Decimal(n) + x)[1..] == x;
    } else {
      var t := [0x30 + n % 10] + x;
      assert Decimal(n) + x == Decimal(n / 10) + t;
      ReadDecimal(n / 10, t);
      assert t[1..] == x;
    }
  }

  lemma NaturalReads(n: nat, x: Text)
    requires x == [] || !IsDigit(x[0])
    ensures var t := Decimal(n) + x;
            && IsDigit(t[0]) && ReadDigits(t, 0) == (n, x) && ReadDigits(t[1..], t[0] - 0x30) == (n, x)
  {
    ReadDecimal(n, x);
    assert (Decimal(n) + x)[0] == Decimal(n)[0];
  }

  /** An integer is read back, as long as no further digit follows it. */
  lemma IntegerReads(n: int, x: Text)
    requires x == [] || !IsDigit(x[0])
    ensures ReadInteger(Integer(n) + x) == Read(n, x)
  {
    if n < 0 {
      NaturalReads(-n, x);
      var t := [MINUS] + (Decimal(-n) + x);
      Regroup([MINUS], Decimal(-n), x);
      assert t[1..] == Decimal(-n) + x;
    } else {
      NaturalReads(n, x);
    }
  }

  /** Prints decide integers: an integer and what follows it are told apart by the text. */
  lemma IntegersDiffer(n: int, m: int)
    ensures Integer(n) == Integer(m) <==> n == m
  {
    IntegerReads(n, []);
    IntegerReads(m, []);
  }
}
