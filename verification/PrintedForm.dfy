/** The exact shape of printed JSON: the shortest printable literals, keys in Python's order, and the
    punctuation in between. */
module PrintedForm {
  import opened JsonText
  import opened CanonicalJson
  import opened CanonicalJsonLaws

  // ---- Literals ----------------------------------------------------------------------------------

  /** The front that `ReadUnit` consumes is all it looks at. */
  lemma UnitIsLocal(t: Text) returns (n: nat)
    requires t != [] && ReadUnit(t).Read?
    ensures 0 < n <= |t| && ReadUnit(t).rest == t[n..]
    ensures ReadUnit(t[..n]) == Read(ReadUnit(t).value, [])
  {
    n := |t| - |ReadUnit(t).rest|;
    var front := t[..n];
    assert n == 1 || n == 2 || n == 6;
    assert forall i | 0 <= i < n :: front[i] == t[i];
    assert front[n..] == [];
  }

  lemma LowerCaseDigit(x: Code)
    requires HexValue(x) < 16 && !(0x41 <= x <= 0x46)
    ensures HexDigit(HexValue(x)) == x
  {
  }

  lemma FourDigitsOf(a: nat, b: nat, c: nat, d: nat)
    requires a < 16 && b < 16 && c < 16 && d < 16
    ensures var n := a * 0x1000 + b * 0x100 + c * 0x10 + d;
            n < 0x10000 && n / 0x1000 == a && n / 0x100 % 16 == b && n / 0x10 % 16 == c && n % 16 == d
  {
    var n := a * 0x1000 + b * 0x100 + c * 0x10 + d;
    assert n / 0x10 == a * 0x100 + b * 0x10 + c;
    assert n / 0x100 == a * 0x10 + b;
  }

  /** Four hexadecimal digits in lower case are told by their value. */
  lemma LowerCaseDigits(t: Text)
    requires |t| == 6 && t[0] == BACKSLASH && t[1] == 0x75
    requires forall i | 2 <= i < 6 :: HexValue(t[i]) < 16 && !(0x41 <= t[i] <= 0x46)
    ensures var n := HexValue(t[2]) * 0x1000 + HexValue(t[3]) * 0x100 + HexValue(t[4]) * 0x10 + HexValue(t[5]);
            n < 0x10000 && UEscape(n) == t
  {
    FourDigitsOf(HexValue(t[2]), HexValue(t[3]), HexValue(t[4]), HexValue(t[5]));
    LowerCaseDigit(t[2]);
    LowerCaseDigit(t[3]);
    LowerCaseDigit(t[4]);
    LowerCaseDigit(t[5]);
  }

  lemma EscapeSizes(c: Code)
    requires c < 0x10000
    ensures |Escape(c)| in [1, 2, 6]
    ensures |Escape(c)| == 6 ==> Escape(c) == UEscape(c)
  {
  }

  lemma ReadUnitSizes(t: Text)
    requires t != [] && ReadUnit(t).Read? && ReadUnit(t).rest == []
    ensures |t| == 1 || |t| == 2 || |t| == 6
  {
    var n := UnitIsLocal(t);
    assert t[n..] == [] && n == |t|;
  }

  lemma ShortestOfOne(c: Code, t: Text)
    requires c < 0x10000 && |t| == 1 && t[0] != QUOTE && 0x20 <= t[0] <= 0x7e && ReadUnit(t) == Read(c, [])
    ensures Escape(c) == t
  {
    assert t == [c];
  }

  lemma ShortestOfTwo(c: Code, t: Text)
    requires c < 0x10000 && |t| == 2 && ReadUnit(t) == Read(c, [])
    ensures |Escape(c)| <= 2 && (|Escape(c)| == 2 ==> Escape(c) == t)
  {
    assert t[0] == BACKSLASH && t == [BACKSLASH, t[1]];
  }

  lemma ShortestOfSix(c: Code, t: Text)
    requires c < 0x10000 && |t| == 6 && ReadUnit(t) == Read(c, [])
    requires forall i | 2 <= i < 6 :: !(0x41 <= t[i] <= 0x46)
    ensures UEscape(c) == t
  {
    assert t[0] == BACKSLASH && t[1] == 0x75;
    LowerCaseDigits(t);
  }

  /** A unit is written in the shortest printable way there is, and a `\uXXXX` in lower case: nothing
      else that reads as it is shorter, and nothing else of that length is so written. */
  lemma EscapeIsTheShortest(c: Code, t: Text)
    requires c < 0x10000 && t != [] && t[0] != QUOTE && Printable(t) && ReadUnit(t) == Read(c, [])
    ensures |Escape(c)| <= |t|
    ensures |t| == |Escape(c)| && (forall i | 2 <= i < |t| :: !(0x41 <= t[i] <= 0x46)) ==> t == Escape(c)
  {
    assert t[0] in t;
    EscapeSizes(c);
    ReadUnitSizes(t);
    if |t| == 1 {
      ShortestOfOne(c, t);
    } else if |t| == 2 {
      ShortestOfTwo(c, t);
    } else if forall i | 2 <= i < |t| :: !(0x41 <= t[i] <= 0x46) {
      ShortestOfSix(c, t);
    }
  }

  /** A code point beyond 16 bits is written as its two units. */
  lemma {:induction false} UnitsPrintTheSame(s: Text)
    ensures EscapeAll(Units(s)) == EscapeAll(s)
    ensures forall c | c in Units(s) :: c < 0x10000
  {
    if s != [] {
      UnitsPrintTheSame(s[1..]);
      if s[0] < 0x10000 {
        assert Units(s)[1..] == Units(s[1..]);
      } else {
        PairPrintsTheSame(s[0], Units(s[1..]));
      }
    }
  }

  lemma PairPrintsTheSame(c: Code, rest: Text)
    requires c >= 0x10000
    ensures EscapeAll([High(c), Low(c)] + rest) == Escape(c) + EscapeAll(rest)
  {
    var high, low := High(c), Low(c);
    assert ([high, low] + rest)[1..] == [low] + rest && ([low] + rest)[1..] == rest;
    assert EscapeAll([low] + rest) == UEscape(low) + EscapeAll(rest);
    Regroup(UEscape(high), UEscape(low), EscapeAll(rest));
  }

  /** No printable text that reads as the units `u` is shorter than the one that is written. */
  lemma {:induction false} ShortestForUnits(u: Text, t: Text)
    requires (forall c | c in u :: c < 0x10000) && Printable(t) && ReadUnits(t + [QUOTE]) == Read(u, [])
    ensures |EscapeAll(u)| <= |t|
    decreases |t|
  {
    var whole := t + [QUOTE];
    if whole[0] != QUOTE {
      var n := UnitIsLocal(whole);
      var rest, c := whole[n..], ReadUnit(whole).value;
      var units := ReadUnits(rest).value;
      assert u == [c] + units;
      assert u[0] in u && u[0] == c && u[1..] == units;
      forall x | x in units ensures x in u {}
      assert rest != [];
      FrontAndRest(t, n);
      ShortestForUnits(units, t[n..]);
      EscapeIsTheShortest(c, t[..n]);
    }
  }

  lemma FrontAndRest(t: Text, n: nat)
    requires n <= |t| && Printable(t)
    ensures (t + [QUOTE])[..n] == t[..n] && (t + [QUOTE])[n..] == t[n..] + [QUOTE]
    ensures Printable(t[..n]) && Printable(t[n..])
  {
    forall c | c in t[..n] ensures c in t {}
    forall c | c in t[n..] ensures c in t {}
  }

  /** Of all printable literals a reader takes for a text, the printer writes a shortest. */
  lemma LiteralsAreShortest(s: Text, t: Text)
    requires Printable(t) && ReadUnits(t + [QUOTE]) == Read(Units(s), [])
    ensures |Quoted(s)| <= |[QUOTE] + t + [QUOTE]|
  {
    UnitsPrintTheSame(s);
    ShortestForUnits(Units(s), t);
  }

  /** A Dafny string as a text. */
  function Codes(s: string): (t: Text)
    ensures |t| == |s| && forall i | 0 <= i < |s| :: t[i] == s[i] as int
  {
    seq(|s|, i requires 0 <= i < |s| => s[i] as int)
  }

  /** The escapes themselves: the seven short ones ... */
  lemma ShortEscapes()
    ensures Escape(0x22) == Codes("\\\"") && Escape(0x5c) == Codes("\\\\")
    ensures Escape(0x08) == Codes("\\b") && Escape(0x09) == Codes("\\t") && Escape(0x0a) == Codes("\\n")
    ensures Escape(0x0c) == Codes("\\f") && Escape(0x0d) == Codes("\\r")
  {
  }

  lemma UEscapeIs(n: nat, a: nat, b: nat, c: nat, d: nat)
    requires a < 16 && b < 16 && c < 16 && d < 16 && n == a * 0x1000 + b * 0x100 + c * 0x10 + d
    ensures n < 0x10000 && UEscape(n) == [BACKSLASH, 0x75, HexDigit(a), HexDigit(b), HexDigit(c), HexDigit(d)]
  {
    FourDigitsOf(a, b, c, d);
  }

  /** ... a control character, delete, and the two units of a code point beyond 16 bits. */
  lemma LongEscapes()
    ensures Escape(0x1f) == Codes("\\u001f") && Escape(0x7f) == Codes("\\u007f")
    ensures Escape(0x1f600) == Codes("\\ud83d") + Codes("\\ude00")
  {
    UEscapeIs(0x1f, 0, 0, 1, 15);
    UEscapeIs(0x7f, 0, 0, 7, 15);
    AstralEscape();
  }

  lemma AstralEscape()
    ensures Escape(0x1f600) == Codes("\\ud83d") + Codes("\\ude00")
  {
    assert High(0x1f600) == 0xd83d && Low(0x1f600) == 0xde00;
    UEscapeIs(0xd83d, 13, 8, 3, 13);
    UEscapeIs(0xde00, 13, 14, 0, 0);
    assert UEscape(0xd83d) == Codes("\\ud83d") && UEscape(0xde00) == Codes("\\ude00");
  }

  // ---- Keys --------------------------------------------------------------------------------------

  /** The texts first differ in place `n`, by a lower code point there or by the end of `s`. */
  ghost predicate DiffersAt(s: Text, t: Text, n: nat) {
    n <= |s| && n < |t| && (forall i | 0 <= i < n :: s[i] == t[i]) && (n == |s| || s[n] < t[n])
  }

  /** Python's order on strings. */
  ghost predicate ComesBefore(s: Text, t: Text) {
    exists n: nat :: DiffersAt(s, t, n)
  }

  lemma {:induction false} LessComesBefore(s: Text, t: Text)
    ensures Less(s, t) <==> ComesBefore(s, t)
  {
    if s != [] && t != [] && s[0] == t[0] {
      LessComesBefore(s[1..], t[1..]);
      if n: nat :| DiffersAt(s, t, n) { assert DiffersAt(s[1..], t[1..], n - 1); }
      if n: nat :| DiffersAt(s[1..], t[1..], n) { assert DiffersAt(s, t, n + 1); }
    } else if Less(s, t) {
      assert DiffersAt(s, t, 0);
    }
  }

  /** An object is printed member by member in ascending order of its keys: the same keys, each with
      its own value, printed the same way inside. */
  lemma KeysAscend(members: seq<Member>)
    requires DistinctKeys(members)
    ensures var printed := Sorted(members);
            && Canonical(Obj(members)) == Obj(printed)
            && (forall i, j | 0 <= i < j < |printed| :: ComesBefore(printed[i].key, printed[j].key))
            && (forall m | m in printed :: exists v :: Member(m.key, v) in members && m.value == Canonical(v))
            && (forall m | m in members :: Member(m.key, Canonical(m.value)) in printed)
  {
    var printed := Sorted(members);
    SortedEntries(members);
    forall i, j | 0 <= i < j < |printed| ensures ComesBefore(printed[i].key, printed[j].key) {
      LessComesBefore(printed[i].key, printed[j].key);
    }
    assert DistinctKeys(printed) by { DistinctAscending(printed); }
    forall m | m in printed ensures exists v :: Member(m.key, v) in members && m.value == Canonical(v) {
      MemberIsEntry(printed, m);
      EntryIsMember(members, m.key);
    }
    forall m | m in members ensures Member(m.key, Canonical(m.value)) in printed {
      MemberIsEntry(members, m);
      EntryIsMember(printed, m.key);
    }
  }

  lemma DistinctAscending(members: seq<Member>)
    requires Ascending(members)
    ensures DistinctKeys(members)
  {
    forall i, j | 0 <= i < j < |members| ensures members[i].key != members[j].key {
      LessIsStrict(members[i].key, members[j].key);
    }
  }

  // ---- Punctuation -------------------------------------------------------------------------------

  lemma Words()
    ensures Emit(Null) == Codes("null") && Emit(Bool(true)) == Codes("true") && Emit(Bool(false)) == Codes("false")
    ensures Emit(Arr([])) == Codes("[]") && Emit(Obj([])) == Codes("{}")
  {
  }

  lemma {:induction false} ItemsGoOn(items: seq<Json>, x: Json)
    requires items != []
    ensures EmitItems(items + [x]) == EmitItems(items) + ([COMMA] + Emit(x))
  {
    var more := items + [x];
    if |items| == 1 {
      assert more[1..] == [x];
    } else {
      assert more[1..] == items[1..] + [x];
      ItemsGoOn(items[1..], x);
      Threaded(Emit(items[0]), [COMMA], EmitItems(items[1..]), [COMMA] + Emit(x));
    }
  }

  lemma Threaded(a: Text, b: Text, c: Text, d: Text)
    ensures a + (b + (c + d)) == (a + (b + c)) + d
  {
  }

  lemma {:induction false} MembersGoOn(members: seq<Member>, m: Member)
    requires members != []
    ensures EmitMembers(members + [m]) == EmitMembers(members) + ([COMMA] + EmitMember(m))
  {
    var more := members + [m];
    if |members| == 1 {
      assert more[1..] == [m];
    } else {
      assert more[1..] == members[1..] + [m];
      MembersGoOn(members[1..], m);
      Threaded(EmitMember(members[0]), [COMMA], EmitMembers(members[1..]), [COMMA] + EmitMember(m));
    }
  }

  /** A list is its items between brackets, a comma and nothing else between two of them. */
  lemma ListsAreJoined(items: seq<Json>, x: Json, front: Text)
    ensures Emit(Arr([x])) == Codes("[") + Emit(x) + Codes("]")
    ensures items != [] && Emit(Arr(items)) == front + Codes("]") ==>
              Emit(Arr(items + [x])) == front + Codes(",") + Emit(x) + Codes("]")
  {
    assert EmitItems([x]) == Emit(x);
    if items != [] && Emit(Arr(items)) == front + Codes("]") {
      MoreItems(items, x, front);
    }
  }

  lemma MoreItems(items: seq<Json>, x: Json, front: Text)
    requires items != [] && Emit(Arr(items)) == front + [CLOSE_LIST]
    ensures Emit(Arr(items + [x])) == front + [COMMA] + Emit(x) + [CLOSE_LIST]
  {
    ItemsGoOn(items, x);
    GoesOn(OPEN_LIST, EmitItems(items), front, COMMA, Emit(x), CLOSE_LIST);
  }

  /** A bracketed text with one more part before its closing. */
  lemma GoesOn(open: Code, inner: Text, front: Text, comma: Code, part: Text, close: Code)
    requires [open] + (inner + [close]) == front + [close]
    ensures [open] + ((inner + ([comma] + part)) + [close]) == front + [comma] + part + [close]
  {
    CutLast([open], inner, front, close);
    assert [open] + ((inner + ([comma] + part)) + [close]) == ([open] + inner) + [comma] + part + [close];
  }

  lemma CutLast(open: Text, inner: Text, front: Text, close: Code)
    requires open + (inner + [close]) == front + [close]
    ensures front == open + inner
  {
    var whole := front + [close];
    assert open + (inner + [close]) == (open + inner) + [close];
    assert whole[..|whole| - 1] == front;
    assert ((open + inner) + [close])[..|whole| - 1] == open + inner;
  }

  /** An object is its members between braces, each its key, a colon and its value, a comma between
      two of them. */
  lemma ObjectsAreJoined(members: seq<Member>, m: Member, front: Text)
    ensures Emit(Obj([m])) == Codes("{") + (Emit(Str(m.key)) + Codes(":") + Emit(m.value)) + Codes("}")
    ensures members != [] && Emit(Obj(members)) == front + Codes("}") ==>
              Emit(Obj(members + [m])) == front + Codes(",") + (Emit(Str(m.key)) + Codes(":") + Emit(m.value)) + Codes("}")
  {
    MemberInFull(m);
    assert EmitMembers([m]) == EmitMember(m);
    if members != [] && Emit(Obj(members)) == front + Codes("}") {
      MoreMembers(members, m, front);
    }
  }

  lemma MemberInFull(m: Member)
    ensures EmitMember(m) == Emit(Str(m.key)) + Codes(":") + Emit(m.value)
  {
  }

  lemma MoreMembers(members: seq<Member>, m: Member, front: Text)
    requires members != [] && Emit(Obj(members)) == front + [CLOSE_OBJECT]
    ensures Emit(Obj(members + [m])) == front + [COMMA] + EmitMember(m) + [CLOSE_OBJECT]
  {
    MembersGoOn(members, m);
    GoesOn(OPEN_OBJECT, EmitMembers(members), front, COMMA, EmitMember(m), CLOSE_OBJECT);
  }

  /** Integers are plain decimals: no zero in front of other digits, and a sign exactly on those below
      zero. */
  lemma {:induction false} DecimalsAreShort(n: nat)
    ensures Decimal(n)[0] == 0x30 <==> n == 0
    ensures n == 0 ==> |Decimal(n)| == 1
  {
    if n >= 10 { DecimalsAreShort(n / 10); }
  }

  lemma IntegersArePlain(n: int)
    ensures Emit(Int(n))[0] == 0x2d <==> n < 0
    ensures n >= 0 ==> (Emit(Int(n))[0] == 0x30 ==> Emit(Int(n)) == Codes("0"))
    ensures n < 0 ==> Emit(Int(n)) == Codes("-") + Emit(Int(-n)) && Emit(Int(-n))[0] != 0x30
  {
    var size := if n < 0 then -n else n;
    DecimalsAreShort(size);
    assert Decimal(size)[0] in Decimal(size);
  }
}
