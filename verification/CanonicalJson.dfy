/** The deterministic JSON printer under every idempotency key. */
module CanonicalJson {
  import opened JsonText

  /** A value as the caller built it: an object is a dict, its members in insertion order. */
  datatype Json =
    | Null
    | Bool(b: bool)
    | Int(n: int)
    | Str(s: Text)
    | Arr(items: seq<Json>)
    | Obj(members: seq<Member>)

  datatype Member = Member(key: Text, value: Json)

  /** What a value means: an object is a map. */
  datatype Meaning =
    | VNull
    | VBool(b: bool)
    | VInt(n: int)
    | VStr(s: Text)
    | VArr(items: seq<Meaning>)
    | VObj(members: map<Text, Meaning>)

  ghost predicate DistinctKeys(members: seq<Member>) {
    forall i, j | 0 <= i < j < |members| :: members[i].key != members[j].key
  }

  /** A dict holds no key twice. */
  ghost predicate Valid(p: Json) {
    match p
    case Arr(items) => forall i | 0 <= i < |items| :: Valid(items[i])
    case Obj(members) => DistinctKeys(members) && forall i | 0 <= i < |members| :: Valid(members[i].value)
    case _ => true
  }

  function Denote(p: Json): Meaning {
    match p
    case Null => VNull
    case Bool(b) => VBool(b)
    case Int(n) => VInt(n)
    case Str(s) => VStr(s)
    case Arr(items) => VArr(DenoteAll(items))
    case Obj(members) => VObj(DenoteMembers(members))
  }

  function DenoteAll(items: seq<Json>): (v: seq<Meaning>)
    ensures |v| == |items|
  {
    if items == [] then [] else [Denote(items[0])] + DenoteAll(items[1..])
  }

  function DenoteMembers(members: seq<Member>): map<Text, Meaning> {
    if members == [] then map[]
    else DenoteMembers(members[1..])[members[0].key := Denote(members[0].value)]
  }

  // ---- The printer -----------------------------------------------------------------------------

  /** Python's order on strings: by code point, a prefix first. */
  predicate Less(s: Text, t: Text) {
    t != [] && (s == [] || s[0] < t[0] || (s[0] == t[0] && Less(s[1..], t[1..])))
  }

  function Insert(m: Member, members: seq<Member>): seq<Member> {
    if members == [] || Less(m.key, members[0].key) then [m] + members
    else [members[0]] + Insert(m, members[1..])
  }

  /** `sort_keys`, all the way down. */
  function Canonical(p: Json): Json {
    match p
    case Arr(items) => Arr(CanonicalAll(items))
    case Obj(members) => Obj(Sorted(members))
    case _ => p
  }

  function CanonicalAll(items: seq<Json>): (c: seq<Json>)
    ensures |c| == |items|
  {
    if items == [] then [] else [Canonical(items[0])] + CanonicalAll(items[1..])
  }

  function Sorted(members: seq<Member>): seq<Member> {
    if members == [] then []
    else Insert(Member(members[0].key, Canonical(members[0].value)), Sorted(members[1..]))
  }

  const NULL: Text := [0x6e, 0x75, 0x6c, 0x6c]
  const TRUE: Text := [0x74, 0x72, 0x75, 0x65]
  const FALSE: Text := [0x66, 0x61, 0x6c, 0x73, 0x65]
  const OPEN_LIST: Code := 0x5b
  const CLOSE_LIST: Code := 0x5d
  const OPEN_OBJECT: Code := 0x7b
  const CLOSE_OBJECT: Code := 0x7d
  const COMMA: Code := 0x2c
  const COLON: Code := 0x3a

  /** Prints a value without white space, its members as they stand. */
  function Emit(p: Json): Text {
    match p
    case Null => NULL
    case Bool(b) => if b then TRUE else FALSE
    case Int(n) => Integer(n)
    case Str(s) => Quoted(s)
    case Arr(items) => [OPEN_LIST] + (EmitItems(items) + [CLOSE_LIST])
    case Obj(members) => [OPEN_OBJECT] + (EmitMembers(members) + [CLOSE_OBJECT])
  }

  function EmitItems(items: seq<Json>): Text {
    if items == [] then []
    else if |items| == 1 then Emit(items[0])
    else Emit(items[0]) + ([COMMA] + EmitItems(items[1..]))
  }

  function EmitMember(m: Member): Text {
    Quoted(m.key) + ([COLON] + Emit(m.value))
  }

  function EmitMembers(members: seq<Member>): Text {
    if members == [] then []
    else if |members| == 1 then EmitMember(members[0])
    else EmitMember(members[0]) + ([COMMA] + EmitMembers(members[1..]))
  }

  function Print(p: Json): Text {
    Emit(Canonical(p))
  }

  // ---- The reader ------------------------------------------------------------------------------

  function ReadValue(t: Text): (r: Reading<Json>)
    ensures r.Read? ==> |r.rest| < |t|
    decreases |t|, 0
  {
    if t == [] then Bad
    else if NULL <= t then Read(Null, t[4..])
    else if TRUE <= t then Read(Bool(true), t[4..])
    else if FALSE <= t then Read(Bool(false), t[5..])
    else if t[0] == QUOTE then
      match ReadString(t[1..])
      case Bad => Bad
      case Read(s, rest) => Read(Str(s), rest)
    else if t[0] == OPEN_LIST then
      if |t| >= 2 && t[1] == CLOSE_LIST then Read(Arr([]), t[2..])
      else
        match ReadItems(t[1..])
        case Bad => Bad
        case Read(items, rest) => Read(Arr(items), rest)
    else if t[0] == OPEN_OBJECT then
      if |t| >= 2 && t[1] == CLOSE_OBJECT then Read(Obj([]), t[2..])
      else
        match ReadMembers(t[1..])
        case Bad => Bad
        case Read(members, rest) => Read(Obj(members), rest)
    else
      match ReadInteger(t)
      case Bad => Bad
      case Read(n, rest) => Read(Int(n), rest)
  }

  function ReadItems(t: Text): (r: Reading<seq<Json>>)
    ensures r.Read? ==> |r.rest| < |t|
    decreases |t|, 1
  {
    match ReadValue(t)
    case Bad => Bad
    case Read(item, rest) =>
      if rest != [] && rest[0] == CLOSE_LIST then Read([item], rest[1..])
      else if rest != [] && rest[0] == COMMA then
        match ReadItems(rest[1..])
        case Bad => Bad
        case Read(items, behind) => Read([item] + items, behind)
      else Bad
  }

  function ReadMember(t: Text): (r: Reading<Member>)
    ensures r.Read? ==> |r.rest| < |t|
    decreases |t|, 0
  {
    if t == [] || t[0] != QUOTE then Bad
    else
      match ReadString(t[1..])
      case Bad => Bad
      case Read(key, rest) =>
        if rest == [] || rest[0] != COLON then Bad
        else
          match ReadValue(rest[1..])
          case Bad => Bad
          case Read(value, behind) => Read(Member(key, value), behind)
  }

  function ReadMembers(t: Text): (r: Reading<seq<Member>>)
    ensures r.Read? ==> |r.rest| < |t|
    decreases |t|, 1
  {
    match ReadMember(t)
    case Bad => Bad
    case Read(m, rest) =>
      if rest != [] && rest[0] == CLOSE_OBJECT then Read([m], rest[1..])
      else if rest != [] && rest[0] == COMMA then
        match ReadMembers(rest[1..])
        case Bad => Bad
        case Read(members, behind) => Read([m] + members, behind)
      else Bad
  }

  /** Reads a whole text as one value. */
  function Decode(t: Text): Reading<Json> {
    match ReadValue(t)
    case Bad => Bad
    case Read(p, rest) => if rest == [] then Read(p, rest) else Bad
  }

  // ---- Reading undoes printing -----------------------------------------------------------------

  /** The value with the split pairs of all its texts joined. */
  function Fused(p: Json): Json {
    match p
    case Str(s) => Str(Fuse(s))
    case Arr(items) => Arr(FusedAll(items))
    case Obj(members) => Obj(FusedMembers(members))
    case _ => p
  }

  function FusedAll(items: seq<Json>): seq<Json> {
    if items == [] then [] else [Fused(items[0])] + FusedAll(items[1..])
  }

  function FusedMembers(members: seq<Member>): seq<Member> {
    if members == [] then []
    else [Member(Fuse(members[0].key), Fused(members[0].value))] + FusedMembers(members[1..])
  }

  predicate NoDigitFirst(x: Text) {
    x == [] || !IsDigit(x[0])
  }

  lemma EmitStarts(p: Json)
    ensures Emit(p) != [] && Emit(p)[0] != CLOSE_LIST && Emit(p)[0] != CLOSE_OBJECT
  {
  }

  lemma ReadsWord(word: Text, x: Text)
    requires word in {NULL, TRUE, FALSE}
    ensures ReadValue(word + x)
         == Read(if word == NULL then Null else Bool(word == TRUE), x)
  {
    var t := word + x;
    assert word <= t && t[|word|..] == x;
    assert t[0] == word[0];
    if word != NULL { assert NULL[0] != t[0]; }
    if word == FALSE { assert TRUE[0] != t[0]; }
  }

  lemma StartDecides(t: Text)
    requires t != [] && t[0] !in {0x6e, 0x74, 0x66}
    ensures !(NULL <= t) && !(TRUE <= t) && !(FALSE <= t)
  {
    assert NULL[0] == 0x6e && TRUE[0] == 0x74 && FALSE[0] == 0x66;
  }

  lemma ReadsInteger(n: int, x: Text)
    requires NoDigitFirst(x)
    ensures ReadValue(Integer(n) + x) == Read(Int(n), x)
  {
    var t := Integer(n) + x;
    assert t[0] == Integer(n)[0];
    StartDecides(t);
    IntegerReads(n, x);
  }

  lemma ReadsString(s: Text, x: Text)
    ensures ReadValue(Quoted(s) + x) == Read(Str(Fuse(s)), x)
  {
    StartDecides(Quoted(s) + x);
    QuotedReads(s, x);
  }

  lemma {:induction false} EmitReads(p: Json, x: Text)
    requires NoDigitFirst(x)
    ensures ReadValue(Emit(p) + x) == Read(Fused(p), x)
    decreases p, 0
  {
    match p
    case Null => ReadsWord(NULL, x);
    case Bool(b) => ReadsWord(if b then TRUE else FALSE, x);
    case Int(n) => ReadsInteger(n, x);
    case Str(s) => ReadsString(s, x);
    case Arr(items) => ListReads(items, x);
    case Obj(members) => ObjectReads(members, x);
  }

  lemma NothingInside(open: Code, close: Code, x: Text)
    ensures var t := ([open] + ([] + [close])) + x; |t| >= 2 && t[0] == open && t[1] == close && t[2..] == x
  {
  }

  lemma OneThenMore(one: Text, comma: Code, more: Text, close: Text)
    ensures (one + ([comma] + more)) + close == one + ([comma] + (more + close))
  {
  }

  lemma {:induction false} ListReads(items: seq<Json>, x: Text)
    ensures ReadValue(Emit(Arr(items)) + x) == Read(Arr(FusedAll(items)), x)
    decreases items, 1
  {
    var t := Emit(Arr(items)) + x;
    StartDecides(t);
    if items == [] {
      assert EmitItems(items) == [];
      NothingInside(OPEN_LIST, CLOSE_LIST, x);
    } else {
      var inner := EmitItems(items) + ([CLOSE_LIST] + x);
      assert t[1..] == inner;
      EmitStarts(items[0]);
      assert inner[0] == Emit(items[0])[0];
      ItemsRead(items, x);
    }
  }

  lemma ReadItemThenMore(t: Text, item: Json, inner: Text, items: seq<Json>, x: Text)
    requires ReadValue(t) == Read(item, [COMMA] + inner) && ReadItems(inner) == Read(items, x)
    ensures ReadItems(t) == Read([item] + items, x)
  {
    assert ([COMMA] + inner)[1..] == inner;
  }

  lemma {:induction false} ItemsRead(items: seq<Json>, x: Text)
    requires items != []
    ensures ReadItems(EmitItems(items) + ([CLOSE_LIST] + x)) == Read(FusedAll(items), x)
    decreases items, 0
  {
    var close := [CLOSE_LIST] + x;
    if |items| == 1 {
      EmitReads(items[0], close);
      assert close[1..] == x && FusedAll(items) == [Fused(items[0])];
    } else {
      var inner := EmitItems(items[1..]) + close;
      EmitReads(items[0], [COMMA] + inner);
      ItemsRead(items[1..], x);
      ReadItemThenMore(Emit(items[0]) + ([COMMA] + inner), Fused(items[0]), inner, FusedAll(items[1..]), x);
      OneThenMore(Emit(items[0]), COMMA, EmitItems(items[1..]), close);
    }
  }

  lemma {:induction false} ObjectReads(members: seq<Member>, x: Text)
    ensures ReadValue(Emit(Obj(members)) + x) == Read(Obj(FusedMembers(members)), x)
    decreases members, 1
  {
    var t := Emit(Obj(members)) + x;
    StartDecides(t);
    if members == [] {
      assert EmitMembers(members) == [];
      NothingInside(OPEN_OBJECT, CLOSE_OBJECT, x);
    } else {
      var inner := EmitMembers(members) + ([CLOSE_OBJECT] + x);
      assert t[1..] == inner;
      assert inner[0] == EmitMember(members[0])[0] == QUOTE;
      MembersRead(members, x);
    }
  }

  lemma {:induction false} MemberReads(m: Member, x: Text)
    requires NoDigitFirst(x)
    ensures ReadMember(EmitMember(m) + x) == Read(Member(Fuse(m.key), Fused(m.value)), x)
    decreases m, 0
  {
    var behind := Emit(m.value) + x;
    var next := [COLON] + behind;
    assert EmitMember(m) + x == Quoted(m.key) + next && next[1..] == behind;
    QuotedReads(m.key, next);
    EmitReads(m.value, x);
  }

  lemma ReadMemberThenMore(t: Text, m: Member, inner: Text, members: seq<Member>, x: Text)
    requires ReadMember(t) == Read(m, [COMMA] + inner) && ReadMembers(inner) == Read(members, x)
    ensures ReadMembers(t) == Read([m] + members, x)
  {
    assert ([COMMA] + inner)[1..] == inner;
  }

  lemma {:induction false} MembersRead(members: seq<Member>, x: Text)
    requires members != []
    ensures ReadMembers(EmitMembers(members) + ([CLOSE_OBJECT] + x)) == Read(FusedMembers(members), x)
    decreases members, 0
  {
    var close := [CLOSE_OBJECT] + x;
    var m := members[0];
    var fused := Member(Fuse(m.key), Fused(m.value));
    if |members| == 1 {
      MemberReads(m, close);
      assert close[1..] == x && FusedMembers(members) == [fused];
    } else {
      var inner := EmitMembers(members[1..]) + close;
      MemberReads(m, [COMMA] + inner);
      MembersRead(members[1..], x);
      ReadMemberThenMore(EmitMember(m) + ([COMMA] + inner), fused, inner, FusedMembers(members[1..]), x);
      OneThenMore(EmitMember(m), COMMA, EmitMembers(members[1..]), close);
    }
  }

  /** Reading a printed value gives it back with its keys sorted and its split pairs joined. */
  lemma DecodePrint(p: Json)
    ensures Decode(Print(p)) == Read(Fused(Canonical(p)), [])
  {
    EmitReads(Canonical(p), []);
    assert Print(p) + [] == Print(p);
  }
}
