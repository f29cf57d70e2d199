/** What the printer promises: it depends on the value alone, tells values apart, and writes
    printable ASCII only. */
module CanonicalJsonLaws {
  import opened JsonText
  import opened CanonicalJson

  // ---- The order on keys -----------------------------------------------------------------------

  lemma {:induction false} LessIsStrict(s: Text, t: Text)
    ensures s == t || Less(s, t) || Less(t, s)
    ensures Less(s, t) ==> s != t && !Less(t, s)
  {
    if s != [] && t != [] && s[0] == t[0] {
      LessIsStrict(s[1..], t[1..]);
      assert s == [s[0]] + s[1..] && t == [t[0]] + t[1..];
    }
  }

  lemma {:induction false} LessIsTransitive(s: Text, t: Text, u: Text)
    requires Less(s, t) && Less(t, u)
    ensures Less(s, u)
  {
    if s != [] && s[0] == t[0] == u[0] {
      LessIsTransitive(s[1..], t[1..], u[1..]);
    }
  }

  ghost predicate Ascending(members: seq<Member>) {
    forall i, j | 0 <= i < j < |members| :: Less(members[i].key, members[j].key)
  }

  function Entries(members: seq<Member>): map<Text, Json> {
    if members == [] then map[] else Entries(members[1..])[members[0].key := members[0].value]
  }

  lemma {:induction false} EntryIsMember(members: seq<Member>, key: Text)
    requires key in Entries(members)
    ensures Member(key, Entries(members)[key]) in members
  {
    if key != members[0].key { EntryIsMember(members[1..], key); }
  }

  lemma {:induction false} MemberIsEntry(members: seq<Member>, m: Member)
    requires m in members
    ensures m.key in Entries(members)
    ensures DistinctKeys(members) ==> Entries(members)[m.key] == m.value
  {
    if m != members[0] {
      MemberIsEntry(members[1..], m);
      var i :| 0 < i < |members| && members[i] == m;
    }
  }

  /** Sorting inserts a new key where it belongs. */
  lemma {:induction false} InsertKeeps(m: Member, members: seq<Member>)
    requires Ascending(members) && m.key !in Entries(members)
    ensures Ascending(Insert(m, members))
    ensures Entries(Insert(m, members)) == Entries(members)[m.key := m.value]
  {
    if members == [] {
    } else if Less(m.key, members[0].key) {
      forall j | 0 < j < |members| ensures Less(m.key, members[j].key) {
        LessIsTransitive(m.key, members[0].key, members[j].key);
      }
      assert ([m] + members)[1..] == members;
    } else {
      var rest := members[1..];
      InsertKeeps(m, rest);
      MemberIsEntry(members, members[0]);
      LessIsStrict(m.key, members[0].key);
      FirstStaysFirst(members[0], m, rest);
      assert ([members[0]] + Insert(m, rest))[1..] == Insert(m, rest);
    }
  }

  lemma FirstStaysFirst(first: Member, m: Member, rest: seq<Member>)
    requires Less(first.key, m.key) && forall j | 0 <= j < |rest| :: Less(first.key, rest[j].key)
    requires Entries(Insert(m, rest)) == Entries(rest)[m.key := m.value]
    ensures forall j | 0 <= j < |Insert(m, rest)| :: Less(first.key, Insert(m, rest)[j].key)
  {
    var more := Insert(m, rest);
    forall j | 0 <= j < |more| ensures Less(first.key, more[j].key) {
      MemberIsEntry(more, more[j]);
      if more[j].key != m.key { EntryIsMember(rest, more[j].key); }
    }
  }

  /** An ascending list is told by its entries. */
  lemma {:induction false} AscendingIsUnique(a: seq<Member>, b: seq<Member>)
    requires Ascending(a) && Ascending(b) && Entries(a) == Entries(b)
    ensures a == b
  {
    if a == [] {
      if b != [] { MemberIsEntry(b, b[0]); }
    } else {
      FirstIsLeast(a, b);
      FirstIsLeast(b, a);
      LessIsStrict(a[0].key, b[0].key);
      MemberIsEntry(a, a[0]);
      TailEntries(a);
      TailEntries(b);
      AscendingIsUnique(a[1..], b[1..]);
      assert a == [a[0]] + a[1..] && b == [b[0]] + b[1..];
    }
  }

  lemma FirstIsLeast(a: seq<Member>, b: seq<Member>)
    requires a != [] && Ascending(a) && Ascending(b) && Entries(a) == Entries(b)
    ensures b != [] && (a[0].key == b[0].key || Less(a[0].key, b[0].key) || Less(b[0].key, a[0].key))
    ensures !Less(a[0].key, b[0].key)
  {
    MemberIsEntry(a, a[0]);
    EntryIsMember(b, a[0].key);
    var i :| 0 <= i < |b| && b[i].key == a[0].key;
    LessIsStrict(b[0].key, a[0].key);
    if i > 0 { assert Less(b[0].key, b[i].key); }
  }

  lemma TailEntries(a: seq<Member>)
    requires a != [] && Ascending(a)
    ensures Entries(a[1..]) == Entries(a) - {a[0].key}
  {
    if a[0].key in Entries(a[1..]) {
      EntryIsMember(a[1..], a[0].key);
      LessIsStrict(a[0].key, a[0].key);
      assert false;
    }
  }

  // ---- Printing depends on the meaning alone ---------------------------------------------------

  lemma {:induction false} MeaningOfEntries(members: seq<Member>)
    ensures DenoteMembers(members).Keys == Entries(members).Keys
    ensures forall k | k in Entries(members) :: DenoteMembers(members)[k] == Denote(Entries(members)[k])
  {
    if members != [] { MeaningOfEntries(members[1..]); }
  }

  lemma {:induction false} SortedEntries(members: seq<Member>)
    requires DistinctKeys(members)
    ensures Ascending(Sorted(members)) && Entries(Sorted(members)).Keys == Entries(members).Keys
    ensures forall k | k in Entries(members) :: Entries(Sorted(members))[k] == Canonical(Entries(members)[k])
  {
    if members != [] {
      var rest := members[1..];
      SortedEntries(rest);
      if members[0].key in Entries(rest) {
        EntryIsMember(rest, members[0].key);
        assert false;
      }
      InsertKeeps(Member(members[0].key, Canonical(members[0].value)), Sorted(rest));
    }
  }

  lemma {:induction false} CanonicalIsTheMeaning(p: Json, q: Json)
    requires Valid(p) && Valid(q) && Denote(p) == Denote(q)
    ensures Canonical(p) == Canonical(q)
    decreases p, 1
  {
    match p
    case Arr(items) => CanonicalAllIsTheMeaning(items, q.items);
    case Obj(members) => SortedIsTheMeaning(members, q.members);
    case _ =>
  }

  lemma {:induction false} CanonicalAllIsTheMeaning(a: seq<Json>, b: seq<Json>)
    requires (forall i | 0 <= i < |a| :: Valid(a[i])) && (forall i | 0 <= i < |b| :: Valid(b[i]))
    requires DenoteAll(a) == DenoteAll(b)
    ensures CanonicalAll(a) == CanonicalAll(b)
    decreases a, 0
  {
    if a != [] {
      assert |a| == |DenoteAll(a)| == |b|;
      assert DenoteAll(a)[0] == DenoteAll(b)[0];
      assert DenoteAll(a)[1..] == DenoteAll(a[1..]) && DenoteAll(b)[1..] == DenoteAll(b[1..]);
      CanonicalIsTheMeaning(a[0], b[0]);
      CanonicalAllIsTheMeaning(a[1..], b[1..]);
    } else {
      assert |b| == |DenoteAll(a)|;
    }
  }

  lemma {:induction false} SortedIsTheMeaning(a: seq<Member>, b: seq<Member>)
    requires DistinctKeys(a) && forall i | 0 <= i < |a| :: Valid(a[i].value)
    requires DistinctKeys(b) && forall i | 0 <= i < |b| :: Valid(b[i].value)
    requires DenoteMembers(a) == DenoteMembers(b)
    ensures Sorted(a) == Sorted(b)
    decreases a, 0
  {
    SortedEntries(a);
    SortedEntries(b);
    MeaningOfEntries(a);
    MeaningOfEntries(b);
    forall k | k in Entries(a) ensures k in Entries(b) && Canonical(Entries(a)[k]) == Canonical(Entries(b)[k]) {
      EntryIsMember(a, k);
      EntryIsMember(b, k);
      var i :| 0 <= i < |a| && a[i] == Member(k, Entries(a)[k]);
      var j :| 0 <= j < |b| && b[j] == Member(k, Entries(b)[k]);
      assert Denote(a[i].value) == DenoteMembers(a)[k] == DenoteMembers(b)[k] == Denote(b[j].value);
      CanonicalIsTheMeaning(a[i].value, b[j].value);
    }
    assert Entries(Sorted(a)) == Entries(Sorted(b));
    AscendingIsUnique(Sorted(a), Sorted(b));
  }

  /** Sorting keys does not change what a value means. */
  lemma {:induction false} CanonicalMeansTheSame(p: Json)
    requires Valid(p)
    ensures Denote(Canonical(p)) == Denote(p)
    decreases p, 1
  {
    match p
    case Arr(items) => CanonicalAllMeansTheSame(items);
    case Obj(members) => SortedMeansTheSame(members);
    case _ =>
  }

  lemma {:induction false} CanonicalAllMeansTheSame(items: seq<Json>)
    requires forall i | 0 <= i < |items| :: Valid(items[i])
    ensures DenoteAll(CanonicalAll(items)) == DenoteAll(items)
    decreases items, 0
  {
    if items != [] {
      CanonicalMeansTheSame(items[0]);
      CanonicalAllMeansTheSame(items[1..]);
      assert CanonicalAll(items)[1..] == CanonicalAll(items[1..]);
    }
  }

  lemma {:induction false} SortedMeansTheSame(members: seq<Member>)
    requires DistinctKeys(members) && forall i | 0 <= i < |members| :: Valid(members[i].value)
    ensures DenoteMembers(Sorted(members)) == DenoteMembers(members)
    decreases members, 0
  {
    SortedEntries(members);
    MeaningOfEntries(members);
    MeaningOfEntries(Sorted(members));
    forall k | k in Entries(members) ensures Denote(Canonical(Entries(members)[k])) == Denote(Entries(members)[k]) {
      EntryIsMember(members, k);
      var i :| 0 <= i < |members| && members[i] == Member(k, Entries(members)[k]);
      CanonicalMeansTheSame(members[i].value);
    }
  }

  // ---- Split pairs -----------------------------------------------------------------------------

  /** No text inside the value, keys included, holds a split pair. */
  ghost predicate Unsplit(p: Json) {
    match p
    case Str(s) => !HasSplitPair(s)
    case Arr(items) => forall i | 0 <= i < |items| :: Unsplit(items[i])
    case Obj(members) => forall i | 0 <= i < |members| :: !HasSplitPair(members[i].key) && Unsplit(members[i].value)
    case _ => true
  }

  ghost predicate MembersUnsplit(members: seq<Member>) {
    forall m | m in members :: !HasSplitPair(m.key) && Unsplit(m.value)
  }

  lemma {:induction false} UnsplitIsFused(p: Json)
    requires Unsplit(p)
    ensures Fused(p) == p
    decreases p, 1
  {
    match p
    case Str(s) => FuseIsIdentityIffUnsplit(s);
    case Arr(items) => AllUnsplitIsFused(items);
    case Obj(members) => MembersUnsplitIsFused(members);
    case _ =>
  }

  lemma {:induction false} AllUnsplitIsFused(items: seq<Json>)
    requires forall i | 0 <= i < |items| :: Unsplit(items[i])
    ensures FusedAll(items) == items
    decreases items, 0
  {
    if items != [] {
      UnsplitIsFused(items[0]);
      AllUnsplitIsFused(items[1..]);
    }
  }

  lemma {:induction false} MembersUnsplitIsFused(members: seq<Member>)
    requires MembersUnsplit(members)
    ensures FusedMembers(members) == members
    decreases members, 0
  {
    if members != [] {
      FuseIsIdentityIffUnsplit(members[0].key);
      UnsplitIsFused(members[0].value);
      MembersUnsplitIsFused(members[1..]);
    }
  }

  lemma {:induction false} CanonicalStaysUnsplit(p: Json)
    requires Unsplit(p)
    ensures Unsplit(Canonical(p))
    decreases p, 1
  {
    match p
    case Arr(items) => CanonicalAllStaysUnsplit(items);
    case Obj(members) =>
      SortedStaysUnsplit(members);
    case _ =>
  }

  lemma {:induction false} CanonicalAllStaysUnsplit(items: seq<Json>)
    requires forall i | 0 <= i < |items| :: Unsplit(items[i])
    ensures forall i | 0 <= i < |items| :: Unsplit(CanonicalAll(items)[i])
    decreases items, 0
  {
    if items != [] {
      CanonicalStaysUnsplit(items[0]);
      CanonicalAllStaysUnsplit(items[1..]);
    }
  }

  lemma {:induction false} InsertedMembers(m: Member, members: seq<Member>)
    ensures forall x | x in Insert(m, members) :: x == m || x in members
  {
    if members != [] && !Less(m.key, members[0].key) { InsertedMembers(m, members[1..]); }
  }

  lemma {:induction false} SortedStaysUnsplit(members: seq<Member>)
    requires MembersUnsplit(members)
    ensures MembersUnsplit(Sorted(members))
    decreases members, 0
  {
    if members != [] {
      CanonicalStaysUnsplit(members[0].value);
      SortedStaysUnsplit(members[1..]);
      InsertedMembers(Member(members[0].key, Canonical(members[0].value)), Sorted(members[1..]));
    }
  }

  lemma {:induction false} FusedEmitsTheSame(p: Json)
    ensures Emit(Fused(p)) == Emit(p)
    decreases p, 1
  {
    match p
    case Str(s) => FusedPrintsTheSame(s);
    case Arr(items) => FusedAllEmitTheSame(items);
    case Obj(members) => FusedMembersEmitTheSame(members);
    case _ =>
  }

  lemma {:induction false} FusedAllEmitTheSame(items: seq<Json>)
    ensures |FusedAll(items)| == |items| && EmitItems(FusedAll(items)) == EmitItems(items)
    decreases items, 0
  {
    if items != [] {
      FusedEmitsTheSame(items[0]);
      FusedAllEmitTheSame(items[1..]);
      assert FusedAll(items)[1..] == FusedAll(items[1..]);
    }
  }

  lemma {:induction false} FusedMembersEmitTheSame(members: seq<Member>)
    ensures |FusedMembers(members)| == |members| && EmitMembers(FusedMembers(members)) == EmitMembers(members)
    decreases members, 0
  {
    if members != [] {
      var m := members[0];
      FusedPrintsTheSame(m.key);
      FusedEmitsTheSame(m.value);
      FusedMembersEmitTheSame(members[1..]);
      assert FusedMembers(members)[1..] == FusedMembers(members[1..]);
      assert EmitMember(FusedMembers(members)[0]) == EmitMember(m);
    }
  }

  // ---- The laws --------------------------------------------------------------------------------

  /** Two values print alike exactly when they have the same canonical form up to split pairs. */
  lemma PrintsAgreeIff(p: Json, q: Json)
    ensures Print(p) == Print(q) <==> Fused(Canonical(p)) == Fused(Canonical(q))
  {
    DecodePrint(p);
    DecodePrint(q);
    FusedEmitsTheSame(Canonical(p));
    FusedEmitsTheSame(Canonical(q));
  }

  /** Any order of the same members prints the same. */
  lemma PrintDependsOnTheMeaning(p: Json, q: Json)
    requires Valid(p) && Valid(q) && Denote(p) == Denote(q)
    ensures Print(p) == Print(q)
  {
    CanonicalIsTheMeaning(p, q);
  }

  /** Reading a printed value back gives what was meant. */
  lemma DecodeMeans(p: Json)
    requires Valid(p) && Unsplit(p)
    ensures Decode(Print(p)).Read? && Denote(Decode(Print(p)).value) == Denote(p)
  {
    DecodePrint(p);
    CanonicalStaysUnsplit(p);
    UnsplitIsFused(Canonical(p));
    CanonicalMeansTheSame(p);
  }

  /** The printer is a function of the meaning, and an injective one. */
  lemma PrintsAgreeIffMeaningsDo(p: Json, q: Json)
    requires Valid(p) && Valid(q) && Unsplit(p) && Unsplit(q)
    ensures Print(p) == Print(q) <==> Denote(p) == Denote(q)
  {
    if Denote(p) == Denote(q) { PrintDependsOnTheMeaning(p, q); }
    DecodeMeans(p);
    DecodeMeans(q);
  }

  /** Why split pairs are excluded: each one prints as the character it encodes. */
  lemma SplitPairsClash(high: Code, low: Code)
    requires IsHigh(high) && IsLow(low)
    ensures Print(Str([high, low])) == Print(Str([Join(high, low)]))
    ensures Denote(Str([high, low])) != Denote(Str([Join(high, low)]))
  {
    LiteralsClashIffFusedAlike([high, low], [Join(high, low)]);
    assert Fuse([high, low]) == [Join(high, low)] == Fuse([Join(high, low)]);
    assert |[high, low]| != |[Join(high, low)]|;
  }

  lemma {:induction false} EmitPrintable(p: Json)
    ensures Printable(Emit(p))
    decreases p, 1
  {
    match p
    case Str(s) => QuotedPrintable(s);
    case Arr(items) => ItemsPrintable(items);
    case Obj(members) => MembersPrintable(members);
    case _ =>
  }

  lemma {:induction false} ItemsPrintable(items: seq<Json>)
    ensures Printable(EmitItems(items))
    decreases items, 0
  {
    if items != [] {
      EmitPrintable(items[0]);
      ItemsPrintable(items[1..]);
    }
  }

  lemma {:induction false} MembersPrintable(members: seq<Member>)
    ensures Printable(EmitMembers(members))
    decreases members, 0
  {
    if members != [] {
      QuotedPrintable(members[0].key);
      EmitPrintable(members[0].value);
      MembersPrintable(members[1..]);
    }
  }

  lemma PrintIsPrintable(p: Json)
    ensures Printable(Print(p))
  {
    EmitPrintable(Canonical(p));
  }
}
