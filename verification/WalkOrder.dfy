/** In which order a walk meets two spans, and when it meets chosen ones in the order they were
    opened. */
module WalkOrder {
  import opened SpanForest

  /** `i` and `j` lie under different children of one span, and the child above `i` was opened
      first. */
  ghost predicate Forked(parents: seq<int>, i: int, j: int)
    requires IsForest(parents) && -1 <= i < |parents| && -1 <= j < |parents|
  {
    exists c, d :: 0 <= c < d < |parents| && parents[c] == parents[d] && Holds(parents, c, i) && Holds(parents, d, j)
  }

  /** What the tree says of two spans: the one holds the other, or its branch is the older one. */
  ghost predicate Precedes(parents: seq<int>, i: int, j: int)
    requires IsForest(parents) && -1 <= i < |parents| && -1 <= j < |parents|
  {
    Holds(parents, i, j) || Forked(parents, i, j)
  }

  lemma ForkedUnder(parents: seq<int>, i: int, j: int, below: int, over: int)
    requires IsForest(parents) && -1 <= i < |parents| && -1 <= j < |parents|
    requires -1 <= below < |parents| && -1 <= over < |parents| && Forked(parents, i, j)
    requires Holds(parents, i, below) && Holds(parents, j, over)
    ensures Forked(parents, below, over)
  {
    var c, d :| 0 <= c < d < |parents| && parents[c] == parents[d] && Holds(parents, c, i) && Holds(parents, d, j);
    HoldsUp(parents, c, i, below);
    HoldsUp(parents, d, j, over);
  }

  /** Of two spans one always precedes the other. */
  lemma {:induction false} OnePrecedes(parents: seq<int>, i: int, j: int)
    requires IsForest(parents) && -1 <= i < j < |parents|
    ensures Precedes(parents, i, j) || Precedes(parents, j, i)
    decreases i + j
  {
    var p := parents[j];
    assert Holds(parents, p, j) && Holds(parents, j, j) && Holds(parents, i, i);
    if Holds(parents, i, p) {
      HoldsUp(parents, i, p, j);
    } else if Holds(parents, p, i) {
      var k := OneChildHolds(parents, p, i);
      HoldsFacts(parents, k, i);
      assert Forked(parents, i, j);
    } else {
      if i < p { OnePrecedes(parents, i, p); } else { OnePrecedes(parents, p, i); }
      if Forked(parents, i, p) { ForkedUnder(parents, i, p, i, j); } else { ForkedUnder(parents, p, i, j, i); }
    }
  }

  // ---- The walk follows it ---------------------------------------------------------------------

  ghost predicate Before(s: seq<int>, i: int, j: int) {
    exists p, q :: 0 <= p < q < |s| && s[p] == i && s[q] == j
  }

  lemma BeforeInside(x: seq<int>, s: seq<int>, y: seq<int>, i: int, j: int)
    requires Before(s, i, j)
    ensures Before(x + s + y, i, j)
  {
    var p, q :| 0 <= p < q < |s| && s[p] == i && s[q] == j;
    var w := x + s + y;
    assert w[|x| + p] == i && w[|x| + q] == j;
  }

  lemma BeforeAcross(x: seq<int>, s: seq<int>, y: seq<int>, t: seq<int>, z: seq<int>, i: int, j: int)
    requires i in s && j in t
    ensures Before(x + s + y + t + z, i, j)
  {
    var p :| 0 <= p < |s| && s[p] == i;
    var q :| 0 <= q < |t| && t[q] == j;
    var w := x + s + y + t + z;
    assert w[|x| + p] == i && w[|x| + |s| + |y| + q] == j;
  }

  /** A subtree is one stretch of every walk it is in. */
  lemma {:induction false} SubtreeIsAStretch(parents: seq<int>, r: int, i: int) returns (x: seq<int>, y: seq<int>)
    requires IsForest(parents) && -1 <= r < |parents| && -1 <= i < |parents| && Holds(parents, r, i)
    ensures Ids(parents, r) == x + Ids(parents, i) + y
    decreases |parents| - r
  {
    if r == i {
      x, y := [], [];
    } else {
      var kids := ChildrenOf(parents, r);
      var k := OneChildHolds(parents, r, i);
      ChildrenAreAll(parents, r, |parents|);
      var a: nat :| a < |kids| && kids[a] == k;
      var u, v := KidIsAStretch(parents, kids, r, a);
      var x', y' := SubtreeIsAStretch(parents, k, i);
      x, y := [r] + u + x', y' + v;
      Nested([r], u, x', Ids(parents, i), y', v);
    }
  }

  lemma Nested(r: seq<int>, u: seq<int>, x: seq<int>, s: seq<int>, y: seq<int>, v: seq<int>)
    ensures r + (u + (x + s + y) + v) == (r + u + x) + s + (y + v)
  {
  }

  lemma {:induction false} KidIsAStretch(parents: seq<int>, kids: seq<int>, lo: int, a: nat)
    returns (u: seq<int>, v: seq<int>)
    requires IsForest(parents) && -1 <= lo < |parents| && Above(parents, kids, lo) && a < |kids|
    ensures Flat(parents, kids, lo) == u + Ids(parents, kids[a]) + v
    ensures v == Flat(parents, kids[a + 1..], lo)
    decreases |kids|
  {
    if a == 0 {
      u, v := [], Flat(parents, kids[1..], lo);
    } else {
      u, v := KidIsAStretch(parents, kids[1..], lo, a - 1);
      u := Ids(parents, kids[0]) + u;
      assert kids[1..][a - 1 + 1..] == kids[a + 1..];
    }
  }

  /** Siblings are walked oldest branch first. */
  lemma BranchesInOrder(parents: seq<int>, c: int, d: int, i: int, j: int)
    requires IsForest(parents) && 0 <= c < d < |parents| && parents[c] == parents[d]
    requires -1 <= i < |parents| && -1 <= j < |parents| && Holds(parents, c, i) && Holds(parents, d, j)
    ensures Before(Ids(parents, parents[c]), i, j)
  {
    var r := parents[c];
    var kids := ChildrenOf(parents, r);
    ChildrenAreAll(parents, r, |parents|);
    var a: nat :| a < |kids| && kids[a] == c;
    var b: nat :| b < |kids| && kids[b] == d;
    assert a < b;
    IdsAreHeld(parents, c, i);
    IdsAreHeld(parents, d, j);
    KidsInOrder(parents, kids, r, a, b, i, j);
    BeforeInside([r], Flat(parents, kids, r), [], i, j);
    assert [r] + Flat(parents, kids, r) + [] == Ids(parents, r);
  }

  lemma KidsInOrder(parents: seq<int>, kids: seq<int>, lo: int, a: nat, b: nat, i: int, j: int)
    requires IsForest(parents) && -1 <= lo < |parents| && Above(parents, kids, lo) && a < b < |kids|
    requires i in Ids(parents, kids[a]) && j in Ids(parents, kids[b])
    ensures Before(Flat(parents, kids, lo), i, j)
  {
    var u, v := KidIsAStretch(parents, kids, lo, a);
    var later := kids[a + 1..];
    assert later[b - a - 1] == kids[b];
    var u', v' := KidIsAStretch(parents, later, lo, b - a - 1);
    BeforeAcross(u, Ids(parents, kids[a]), u', Ids(parents, kids[b]), v', i, j);
    Regrouped(u, Ids(parents, kids[a]), u', Ids(parents, kids[b]), v');
  }

  lemma Regrouped(u: seq<int>, s: seq<int>, v: seq<int>, t: seq<int>, z: seq<int>)
    ensures u + s + (v + t + z) == u + s + v + t + z
  {
  }

  lemma PrecedesIsBefore(parents: seq<int>, i: int, j: int)
    requires IsForest(parents) && -1 <= i < |parents| && -1 <= j < |parents| && i != j && Precedes(parents, i, j)
    ensures Before(Walked(parents), i, j)
  {
    if Holds(parents, i, j) {
      HoldsFacts(parents, -1, i);
      var x, y := SubtreeIsAStretch(parents, -1, i);
      IdsAreHeld(parents, i, j);
      var s := Ids(parents, i);
      var q :| 0 <= q < |s| && s[q] == j;
      assert s[0] == i;
      BeforeInside(x, s, y, i, j);
    } else {
      var c, d :| 0 <= c < d < |parents| && parents[c] == parents[d] && Holds(parents, c, i) && Holds(parents, d, j);
      HoldsFacts(parents, -1, parents[c]);
      var x, y := SubtreeIsAStretch(parents, -1, parents[c]);
      BranchesInOrder(parents, c, d, i, j);
      BeforeInside(x, Ids(parents, parents[c]), y, i, j);
    }
  }

  // ---- Chosen spans ----------------------------------------------------------------------------

  /** The chosen ones of a list, in its order. */
  function Chosen(ids: seq<int>, chosen: set<int>): seq<int> {
    if ids == [] then [] else (if ids[0] in chosen then [ids[0]] else []) + Chosen(ids[1..], chosen)
  }

  ghost predicate NoRepeats(s: seq<int>) {
    forall p, q | 0 <= p < q < |s| :: s[p] != s[q]
  }

  lemma {:induction false} ChosenIsIn(ids: seq<int>, chosen: set<int>, i: int)
    ensures i in Chosen(ids, chosen) <==> i in ids && i in chosen
  {
    if ids != [] {
      ChosenIsIn(ids[1..], chosen, i);
      assert ids == [ids[0]] + ids[1..];
    }
  }

  lemma {:induction false} ChosenBefore(ids: seq<int>, chosen: set<int>, i: int, j: int)
    requires i in chosen && j in chosen && Before(ids, i, j)
    ensures Before(Chosen(ids, chosen), i, j)
  {
    var p, q :| 0 <= p < q < |ids| && ids[p] == i && ids[q] == j;
    var rest, c := ids[1..], Chosen(ids, chosen);
    assert rest[q - 1] == j;
    if p == 0 {
      ChosenIsIn(rest, chosen, j);
      var m :| 0 <= m < |Chosen(rest, chosen)| && Chosen(rest, chosen)[m] == j;
      assert c[0] == i && c[m + 1] == j;
    } else {
      assert rest[p - 1] == i;
      ChosenBefore(rest, chosen, i, j);
      var head := if ids[0] in chosen then [ids[0]] else [];
      BeforeInside(head, Chosen(rest, chosen), [], i, j);
      assert head + Chosen(rest, chosen) + [] == c;
    }
  }

  lemma {:induction false} ChosenNoRepeats(ids: seq<int>, chosen: set<int>)
    requires NoRepeats(ids)
    ensures NoRepeats(Chosen(ids, chosen))
  {
    if ids != [] {
      var rest := ids[1..];
      ChosenNoRepeats(rest, chosen);
      ChosenIsIn(rest, chosen, ids[0]);
    }
  }

  lemma NotBothWays(s: seq<int>, i: int, j: int)
    requires NoRepeats(s) && Before(s, i, j)
    ensures !Before(s, j, i)
  {
  }

  /** Two lists of the same elements, each before each other alike, are one list. */
  lemma {:induction false} OrderDecides(s: seq<int>, t: seq<int>)
    requires NoRepeats(s) && NoRepeats(t) && (forall i :: i in s <==> i in t)
    requires forall i, j | Before(s, i, j) :: Before(t, i, j)
    ensures s == t
    decreases |s|
  {
    HasAnElement(s);
    HasAnElement(t);
    if s != [] {
      SharedElement(s, t, s[0]);
      SharedElement(t, s, t[0]);
      FirstIsFirst(s, t);
      var s', t' := s[1..], t[1..];
      forall i ensures i in s' <==> i in t' {
        assert i in s <==> i == s[0] || i in s';
        assert i in t <==> i == t[0] || i in t';
      }
      forall i, j | Before(s', i, j) ensures Before(t', i, j) { TailOrder(s, t, i, j); }
      OrderDecides(s', t');
    }
  }

  lemma SharedElement(s: seq<int>, t: seq<int>, i: int)
    requires i in s && forall j :: j in s <==> j in t
    ensures i in t && t != []
  {
  }

  lemma TailOrder(s: seq<int>, t: seq<int>, i: int, j: int)
    requires s != [] && t != [] && s[0] == t[0] && NoRepeats(s) && Before(s[1..], i, j)
    requires forall i, j | Before(s, i, j) :: Before(t, i, j)
    ensures Before(t[1..], i, j)
  {
    BeforeInside([s[0]], s[1..], [], i, j);
    assert [s[0]] + s[1..] + [] == s;
    var p, q :| 0 <= p < q < |t| && t[p] == i && t[q] == j;
    var m :| 0 <= m < |s[1..]| && s[1..][m] == i;
    assert s[m + 1] == i;
    assert t[1..][p - 1] == i && t[1..][q - 1] == j;
  }

  lemma FirstIsFirst(s: seq<int>, t: seq<int>)
    requires NoRepeats(s) && NoRepeats(t) && s != [] && t != [] && s[0] in t
    requires t[0] in s && forall i, j | Before(s, i, j) :: Before(t, i, j)
    ensures s[0] == t[0]
  {
    NothingBeforeFirst(t, s[0]);
    assert !Before(s, s[0], t[0]);
    var q :| 0 <= q < |s| && s[q] == t[0];
    BeforeAt(s, 0, q);
  }

  lemma HasAnElement(s: seq<int>)
    ensures s != [] ==> s[0] in s
  {
  }

  lemma NothingBeforeFirst(t: seq<int>, i: int)
    requires NoRepeats(t) && t != []
    ensures !Before(t, i, t[0])
  {
  }

  lemma BeforeAt(s: seq<int>, p: nat, q: nat)
    requires p <= q < |s|
    ensures p < q ==> Before(s, s[p], s[q])
  {
  }

  lemma WalkedFacts(parents: seq<int>)
    requires IsForest(parents)
    ensures NoRepeats(Walked(parents)) && NoRepeats(Range(|parents|))
    ensures forall i :: i in Walked(parents) <==> i in Range(|parents|)
    ensures forall i :: i in Range(|parents|) <==> -1 <= i < |parents|
  {
    var n := |parents|;
    RangeAt(n);
    forall i ensures i in Range(n) <==> -1 <= i < n {
      if -1 <= i < n { assert Range(n)[i + 1] == i; }
    }
    EachSpanOnce(parents);
    forall i ensures i in Walked(parents) <==> i in Range(n) {
      assert i in multiset(Walked(parents)) <==> i in multiset(Range(n));
    }
    SameBagNoRepeats(Range(n), Walked(parents));
  }

  lemma SameBagNoRepeats(s: seq<int>, t: seq<int>)
    requires NoRepeats(s) && multiset(s) == multiset(t)
    ensures NoRepeats(t)
  {
    forall p, q | 0 <= p < q < |t| ensures t[p] != t[q] {
      if t[p] == t[q] {
        Twice(t, p, q);
        Once(s, t[p]);
      }
    }
  }

  lemma Twice(t: seq<int>, p: nat, q: nat)
    requires p < q < |t| && t[p] == t[q]
    ensures multiset(t)[t[p]] >= 2
  {
    assert t == t[..q] + [t[q]] + t[q + 1..];
    assert t[..q][p] == t[p];
    assert multiset(t) == multiset(t[..q]) + multiset([t[q]]) + multiset(t[q + 1..]);
  }

  lemma {:induction false} Once(s: seq<int>, i: int)
    requires NoRepeats(s)
    ensures multiset(s)[i] <= 1
    decreases |s|
  {
    if s != [] {
      var before, last := s[..|s| - 1], s[|s| - 1];
      Once(before, i);
      assert s == before + [last];
      if i == last { assert i !in before; }
    }
  }

  lemma RangeBefore(n: nat, i: int, j: int)
    requires -1 <= i < n && -1 <= j < n
    ensures Before(Range(n), i, j) <==> i < j
  {
    RangeAt(n);
    if i < j { assert Range(n)[i + 1] == i && Range(n)[j + 1] == j; }
  }

  /** The tree keeps the chosen spans in order. */
  ghost predicate ChosenInOrder(parents: seq<int>, chosen: set<int>)
    requires IsForest(parents)
  {
    forall i, j | 0 <= i < j < |parents| && i in chosen && j in chosen :: Precedes(parents, i, j)
  }

  /** The walk meets the chosen spans in the order they were opened exactly when of every two of them
      the older one holds the younger, or sits on the older branch. */
  lemma ChosenWalkedInOrderIff(parents: seq<int>, chosen: set<int>)
    requires IsForest(parents) && forall i | i in chosen :: 0 <= i < |parents|
    ensures Chosen(Walked(parents), chosen) == Chosen(Range(|parents|), chosen) <==> ChosenInOrder(parents, chosen)
  {
    var n := |parents|;
    var walk, range := Chosen(Walked(parents), chosen), Chosen(Range(n), chosen);
    WalkedFacts(parents);
    ChosenNoRepeats(Walked(parents), chosen);
    ChosenNoRepeats(Range(n), chosen);
    forall i ensures i in walk <==> i in range {
      ChosenIsIn(Walked(parents), chosen, i);
      ChosenIsIn(Range(n), chosen, i);
    }
    if walk == range {
      forall i, j | 0 <= i < j < n && i in chosen && j in chosen ensures Precedes(parents, i, j) {
        RangeBefore(n, i, j);
        ChosenBefore(Range(n), chosen, i, j);
        NotBothWays(walk, i, j);
        OnePrecedes(parents, i, j);
        if !Precedes(parents, i, j) {
          PrecedesIsBefore(parents, j, i);
          ChosenBefore(Walked(parents), chosen, j, i);
        }
      }
    }
    if ChosenInOrder(parents, chosen) {
      forall i, j | Before(range, i, j) ensures Before(walk, i, j) {
        ChosenPairInOrder(parents, chosen, i, j);
      }
      OrderDecides(range, walk);
    }
  }

  lemma ChosenPairInOrder(parents: seq<int>, chosen: set<int>, i: int, j: int)
    requires IsForest(parents) && (forall i | i in chosen :: 0 <= i < |parents|) && ChosenInOrder(parents, chosen)
    requires Before(Chosen(Range(|parents|), chosen), i, j)
    ensures Before(Chosen(Walked(parents), chosen), i, j)
  {
    var n := |parents|;
    WalkedFacts(parents);
    ChosenIsIn(Range(n), chosen, i);
    ChosenIsIn(Range(n), chosen, j);
    ChosenNoRepeats(Range(n), chosen);
    if j < i {
      RangeBefore(n, j, i);
      ChosenBefore(Range(n), chosen, j, i);
      NotBothWays(Chosen(Range(n), chosen), i, j);
      assert false;
    }
    assert i != j;
    PrecedesIsBefore(parents, i, j);
    ChosenBefore(Walked(parents), chosen, i, j);
  }
}
