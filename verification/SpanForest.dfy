/** A recorded span tree by its parent links: span `i` is the i-th one opened, and its parent was
    opened before it; -1 stands for the recording itself, the parent of every root. */
module SpanForest {
  ghost predicate IsForest(parents: seq<int>) {
    forall i | 0 <= i < |parents| :: -1 <= parents[i] < i
  }

  /** The spans among the first `n` that were opened under `p`, in opening order. */
  function ChildrenUpTo(parents: seq<int>, p: int, n: nat): (kids: seq<int>)
    requires n <= |parents|
    ensures forall a | 0 <= a < |kids| :: 0 <= kids[a] < n && parents[kids[a]] == p
    ensures forall a, b | 0 <= a < b < |kids| :: kids[a] < kids[b]
  {
    if n == 0 then []
    else if parents[n - 1] == p then ChildrenUpTo(parents, p, n - 1) + [n - 1]
    else ChildrenUpTo(parents, p, n - 1)
  }

  function ChildrenOf(parents: seq<int>, p: int): seq<int> {
    ChildrenUpTo(parents, p, |parents|)
  }

  lemma {:induction false} ChildrenAreAll(parents: seq<int>, p: int, n: nat)
    requires n <= |parents|
    ensures forall k | 0 <= k < n && parents[k] == p :: k in ChildrenUpTo(parents, p, n)
  {
    if n > 0 { ChildrenAreAll(parents, p, n - 1); }
  }

  lemma {:induction false} ChildrenOfPrefix(parents: seq<int>, q: int, p: int, n: nat)
    requires n <= |parents|
    ensures ChildrenUpTo(parents + [q], p, n) == ChildrenUpTo(parents, p, n)
  {
    if n > 0 { ChildrenOfPrefix(parents, q, p, n - 1); }
  }

  /** One more span is one more child of its parent, the last one. */
  lemma ChildrenGrow(parents: seq<int>, q: int, p: int)
    ensures ChildrenOf(parents + [q], p) == ChildrenOf(parents, p) + if p == q then [|parents|] else []
  {
    ChildrenOfPrefix(parents, q, p, |parents|);
  }

  ghost predicate Above(parents: seq<int>, kids: seq<int>, lo: int) {
    forall j | 0 <= j < |kids| :: lo < kids[j] < |parents|
  }

  /** The spans of a subtree, each before its children and the children in their order. */
  ghost function Ids(parents: seq<int>, i: int): (ids: seq<int>)
    requires IsForest(parents) && -1 <= i < |parents|
    ensures ids != [] && ids[0] == i
    decreases |parents| - i, 1, 0
  {
    [i] + Flat(parents, ChildrenOf(parents, i), i)
  }

  ghost function Flat(parents: seq<int>, kids: seq<int>, lo: int): seq<int>
    requires IsForest(parents) && -1 <= lo < |parents| && Above(parents, kids, lo)
    decreases |parents| - lo, 0, |kids|
  {
    if kids == [] then [] else Ids(parents, kids[0]) + Flat(parents, kids[1..], lo)
  }

  /** `a` is `d` or one of the spans it is nested in. */
  ghost predicate Holds(parents: seq<int>, a: int, d: int)
    requires IsForest(parents) && -1 <= d < |parents|
    decreases d
  {
    a == d || (d >= 0 && Holds(parents, a, parents[d]))
  }

  lemma {:induction false} HoldsFacts(parents: seq<int>, a: int, d: int)
    requires IsForest(parents) && -1 <= d < |parents|
    ensures Holds(parents, -1, d)
    ensures Holds(parents, a, d) ==> -1 <= a <= d
    decreases d
  {
    if d >= 0 { HoldsFacts(parents, a, parents[d]); }
  }

  lemma {:induction false} HoldsGrows(parents: seq<int>, p: int, a: int, d: int)
    requires IsForest(parents) && IsForest(parents + [p]) && -1 <= d < |parents|
    ensures Holds(parents + [p], a, d) == Holds(parents, a, d)
    decreases d
  {
    if d >= 0 { HoldsGrows(parents, p, a, parents[d]); }
  }

  lemma {:induction false} HoldsUp(parents: seq<int>, a: int, b: int, d: int)
    requires IsForest(parents) && -1 <= d < |parents| && -1 <= b < |parents|
    requires Holds(parents, a, b) && Holds(parents, b, d)
    ensures Holds(parents, a, d)
    decreases d
  {
    if b != d { HoldsUp(parents, a, b, parents[d]); }
  }

  /** A span held strictly inside `a` is inside exactly one child of `a`. */
  lemma {:induction false} OneChildHolds(parents: seq<int>, a: int, d: int) returns (k: int)
    requires IsForest(parents) && -1 <= d < |parents| && a != d && Holds(parents, a, d)
    ensures 0 <= k < |parents| && parents[k] == a && Holds(parents, k, d)
    ensures forall c | 0 <= c < |parents| && parents[c] == a && Holds(parents, c, d) :: c == k
    decreases d
  {
    HoldsFacts(parents, a, d);
    if parents[d] == a {
      k := d;
      forall c | 0 <= c < |parents| && parents[c] == a && Holds(parents, c, d) ensures c == d {
        HoldsFacts(parents, c, a);
      }
    } else {
      k := OneChildHolds(parents, a, parents[d]);
      forall c | 0 <= c < |parents| && parents[c] == a && Holds(parents, c, d) ensures c == k {
        assert c != d;
      }
    }
  }

  // ---- Opening one more span -------------------------------------------------------------------

  lemma ForestGrows(parents: seq<int>, p: int)
    requires IsForest(parents) && -1 <= p < |parents|
    ensures IsForest(parents + [p])
  {
  }

  /** A subtree that does not hold the parent of the new span stays as it is ... */
  lemma {:induction false} LeafElsewhere(parents: seq<int>, p: int, i: int)
    requires IsForest(parents) && -1 <= p < |parents| && -1 <= i < |parents| && !Holds(parents, i, p)
    ensures IsForest(parents + [p]) && Ids(parents + [p], i) == Ids(parents, i)
    decreases |parents| - i, 1, 0
  {
    var kids := ChildrenOf(parents, i);
    ChildrenGrow(parents, p, i);
    forall j | 0 <= j < |kids| ensures !Holds(parents, kids[j], p) {
      if Holds(parents, kids[j], p) {
        assert Holds(parents, i, kids[j]);
        HoldsUp(parents, i, kids[j], p);
      }
    }
    FlatElsewhere(parents, p, kids, i);
    assert ChildrenOf(parents + [p], i) == kids;
  }

  lemma {:induction false} FlatElsewhere(parents: seq<int>, p: int, kids: seq<int>, lo: int)
    requires IsForest(parents) && -1 <= p < |parents| && -1 <= lo < |parents|
    requires Above(parents, kids, lo)
    requires forall j | 0 <= j < |kids| :: !Holds(parents, kids[j], p)
    ensures IsForest(parents + [p]) && Flat(parents + [p], kids, lo) == Flat(parents, kids, lo)
    decreases |parents| - lo, 0, |kids|
  {
    if kids != [] {
      LeafElsewhere(parents, p, kids[0]);
      FlatElsewhere(parents, p, kids[1..], lo);
    }
  }

  /** ... and one that does gets it right behind the subtree of that parent. */
  lemma {:induction false} LeafInside(parents: seq<int>, p: int, i: int) returns (x: seq<int>, y: seq<int>)
    requires IsForest(parents) && -1 <= p < |parents| && -1 <= i < |parents| && Holds(parents, i, p)
    ensures IsForest(parents + [p])
    ensures Ids(parents, i) == x + Ids(parents, p) + y
    ensures Ids(parents + [p], i) == x + Ids(parents, p) + [|parents|] + y
    decreases |parents| - i, 2, 0
  {
    if i == p {
      x, y := [], [];
      LeafAtParent(parents, p);
    } else {
      x, y := ChildrenInside(parents, p, i);
      Prefixed(i, x, Ids(parents, p), [|parents|], y);
      x := [i] + x;
    }
  }

  lemma ChildrenInside(parents: seq<int>, p: int, i: int) returns (x: seq<int>, y: seq<int>)
    requires IsForest(parents) && -1 <= p < |parents| && -1 <= i < |parents| && Holds(parents, i, p) && i != p
    ensures IsForest(parents + [p]) && ChildrenOf(parents + [p], i) == ChildrenOf(parents, i)
    ensures Flat(parents, ChildrenOf(parents, i), i) == x + Ids(parents, p) + y
    ensures Flat(parents + [p], ChildrenOf(parents, i), i) == x + Ids(parents, p) + [|parents|] + y
    decreases |parents| - i, 1, 0
  {
    var kids := ChildrenOf(parents, i);
    var k := OneChildHolds(parents, i, p);
    ForestGrows(parents, p);
    ChildrenGrow(parents, p, i);
    assert ChildrenOf(parents + [p], i) == kids;
    ChildrenAreAll(parents, i, |parents|);
    var a: nat :| a < |kids| && kids[a] == k;
    x, y := FlatInside(parents, p, kids, i, a);
  }

  lemma Prefixed(i: int, x: seq<int>, s: seq<int>, t: seq<int>, y: seq<int>)
    ensures [i] + (x + s + y) == ([i] + x) + s + y
    ensures [i] + (x + s + t + y) == ([i] + x) + s + t + y
  {
  }

  lemma LeafAtParent(parents: seq<int>, p: int)
    requires IsForest(parents) && -1 <= p < |parents|
    ensures IsForest(parents + [p]) && Ids(parents + [p], p) == Ids(parents, p) + [|parents|]
    decreases |parents| - p, 0, |parents| + 1
  {
    var n, more, kids := |parents|, parents + [p], ChildrenOf(parents, p);
    ChildrenGrow(parents, p, p);
    forall j | 0 <= j < |kids| ensures !Holds(parents, kids[j], p) { HoldsFacts(parents, kids[j], p); }
    FlatElsewhere(parents, p, kids, p);
    NewLeaf(parents, p);
    FlatAppend(more, kids, n, p);
  }

  lemma NewLeaf(parents: seq<int>, p: int)
    requires IsForest(parents) && -1 <= p < |parents|
    ensures IsForest(parents + [p]) && Ids(parents + [p], |parents|) == [|parents|]
  {
    ForestGrows(parents, p);
    NoChildrenYet(parents + [p]);
  }

  lemma NoChildrenYet(parents: seq<int>)
    requires IsForest(parents) && parents != []
    ensures ChildrenOf(parents, |parents| - 1) == []
  {
    NoneUnder(parents, |parents| - 1, |parents|);
  }

  lemma {:induction false} NoneUnder(parents: seq<int>, p: int, n: nat)
    requires n <= |parents| && forall k | 0 <= k < n :: parents[k] != p
    ensures ChildrenUpTo(parents, p, n) == []
  {
    if n > 0 { NoneUnder(parents, p, n - 1); }
  }

  lemma {:induction false} FlatAppend(parents: seq<int>, kids: seq<int>, k: int, lo: int)
    requires IsForest(parents) && -1 <= lo < k < |parents| && Above(parents, kids, lo)
    ensures Above(parents, kids + [k], lo)
    ensures Flat(parents, kids + [k], lo) == Flat(parents, kids, lo) + Ids(parents, k)
    decreases |kids|
  {
    var more := kids + [k];
    if kids == [] {
      assert more == [k] && more[1..] == [];
      assert Flat(parents, [], lo) == [];
    } else {
      var tail := kids[1..];
      FlatAppend(parents, tail, k, lo);
      assert more[1..] == tail + [k] && more[0] == kids[0];
      Regroup(Ids(parents, kids[0]), Flat(parents, tail, lo), Ids(parents, k));
    }
  }

  lemma Regroup(a: seq<int>, b: seq<int>, c: seq<int>)
    ensures a + (b + c) == (a + b) + c
  {
  }

  lemma {:induction false} FlatInside(parents: seq<int>, p: int, kids: seq<int>, lo: int, a: nat)
    returns (x: seq<int>, y: seq<int>)
    requires IsForest(parents) && -1 <= p < |parents| && -1 <= lo < |parents|
    requires Above(parents, kids, lo) && a < |kids|
    requires forall j | 0 <= j < |kids| :: Holds(parents, kids[j], p) <==> j == a
    ensures IsForest(parents + [p])
    ensures Flat(parents, kids, lo) == x + Ids(parents, p) + y
    ensures Flat(parents + [p], kids, lo) == x + Ids(parents, p) + [|parents|] + y
    decreases |parents| - lo, 0, |kids|
  {
    if a == 0 {
      x, y := LeafInside(parents, p, kids[0]);
      FlatElsewhere(parents, p, kids[1..], lo);
      y := y + Flat(parents, kids[1..], lo);
    } else {
      LeafElsewhere(parents, p, kids[0]);
      x, y := FlatInside(parents, p, kids[1..], lo, a - 1);
      x := Ids(parents, kids[0]) + x;
    }
  }

  // ---- The whole recording ---------------------------------------------------------------------

  /** The spans of all roots in walking order, behind the recording itself. */
  ghost function Walked(parents: seq<int>): seq<int>
    requires IsForest(parents)
  {
    Ids(parents, -1)
  }

  lemma {:induction false} IdsAreHeld(parents: seq<int>, i: int, d: int)
    requires IsForest(parents) && -1 <= i < |parents|
    ensures d in Ids(parents, i) <==> -1 <= d < |parents| && Holds(parents, i, d)
    decreases |parents| - i, 1, 0
  {
    var kids := ChildrenOf(parents, i);
    ChildrenAreAll(parents, i, |parents|);
    FlatIsHeld(parents, kids, i, d);
    if -1 <= d < |parents| && d != i {
      if Holds(parents, i, d) {
        var k := OneChildHolds(parents, i, d);
        assert k in kids;
      }
      if j :| 0 <= j < |kids| && Holds(parents, kids[j], d) {
        assert Holds(parents, i, kids[j]);
        HoldsUp(parents, i, kids[j], d);
      }
    }
  }

  lemma {:induction false} FlatIsHeld(parents: seq<int>, kids: seq<int>, lo: int, d: int)
    requires IsForest(parents) && -1 <= lo < |parents| && Above(parents, kids, lo)
    ensures d in Flat(parents, kids, lo) <==> -1 <= d < |parents| && exists j :: 0 <= j < |kids| && Holds(parents, kids[j], d)
    decreases |parents| - lo, 0, |kids|
  {
    if kids != [] {
      IdsAreHeld(parents, kids[0], d);
      FlatIsHeld(parents, kids[1..], lo, d);
      if -1 <= d < |parents| {
        if j :| 0 <= j < |kids| && Holds(parents, kids[j], d) { assert j == 0 || kids[1..][j - 1] == kids[j]; }
        if j :| 0 <= j < |kids[1..]| && Holds(parents, kids[1..][j], d) { assert kids[j + 1] == kids[1..][j]; }
      }
    }
  }

  function Range(n: nat): seq<int> {
    if n == 0 then [-1] else Range(n - 1) + [n - 1]
  }

  lemma {:induction false} RangeAt(n: nat)
    ensures |Range(n)| == n + 1 && forall k | 0 <= k <= n :: Range(n)[k] == k - 1
  {
    if n > 0 { RangeAt(n - 1); }
  }

  lemma NothingWalked()
    ensures Walked([]) == Range(0)
  {
    assert ChildrenOf([], -1) == [];
    assert Flat([], [], -1) == [];
  }

  /** The new span is walked right behind the subtree `s` of its parent. */
  lemma WalkGrows(parents: seq<int>, p: int) returns (x: seq<int>, s: seq<int>, y: seq<int>)
    requires IsForest(parents) && -1 <= p < |parents|
    ensures IsForest(parents + [p]) && s == Ids(parents, p)
    ensures Walked(parents) == x + s + y && Walked(parents + [p]) == x + s + [|parents|] + y
  {
    HoldsFacts(parents, -1, p);
    s := Ids(parents, p);
    x, y := LeafInside(parents, p, -1);
  }

  lemma BagGrows(x: seq<int>, s: seq<int>, n: nat, y: seq<int>)
    requires multiset(x + s + y) == multiset(Range(n))
    ensures multiset(x + s + [n] + y) == multiset(Range(n + 1))
  {
    assert multiset(x + s + [n] + y) == multiset(x + s + y) + multiset([n]);
    assert Range(n + 1) == Range(n) + [n];
  }

  /** Every span ever opened is walked exactly once. */
  lemma {:induction false} EachSpanOnce(parents: seq<int>)
    requires IsForest(parents)
    ensures multiset(Walked(parents)) == multiset(Range(|parents|))
    decreases |parents|
  {
    if parents == [] {
      NothingWalked();
    } else {
      var before, p := parents[..|parents| - 1], parents[|parents| - 1];
      EachSpanOnce(before);
      OneMoreSpanOnce(before, p, parents);
    }
  }

  lemma OneMoreSpanOnce(before: seq<int>, p: int, parents: seq<int>)
    requires IsForest(before) && -1 <= p < |before| && multiset(Walked(before)) == multiset(Range(|before|))
    requires parents == before + [p]
    ensures IsForest(parents) && multiset(Walked(parents)) == multiset(Range(|parents|))
  {
    var x, s, y := WalkGrows(before, p);
    BagGrows(x, s, |before|, y);
  }

  /** Each span is opened inside the previous one, inside one of the spans that holds it, or as a
      root. */
  ghost predicate NestsInOrder(parents: seq<int>)
    requires IsForest(parents)
  {
    forall i | 0 < i < |parents| :: Holds(parents, parents[i], i - 1)
  }

  /** The walk is the opening order exactly when spans nest in order. */
  lemma {:induction false} WalkIsOpeningOrderIff(parents: seq<int>)
    requires IsForest(parents)
    ensures Walked(parents) == Range(|parents|) <==> NestsInOrder(parents)
  {
    if parents == [] {
      NothingWalked();
    } else if |parents| == 1 {
      OneSpanWalked();
      assert parents == [-1];
    } else {
      var before, p := parents[..|parents| - 1], parents[|parents| - 1];
      assert parents == before + [p];
      WalkIsOpeningOrderIff(before);
      LastNests(before, p);
      NestingOfPrefix(before, p);
    }
  }

  lemma NestingOfPrefix(before: seq<int>, p: int)
    requires IsForest(before) && -1 <= p < |before| && before != []
    ensures IsForest(before + [p])
    ensures NestsInOrder(before + [p]) <==> NestsInOrder(before) && Holds(before, p, |before| - 1)
  {
    var parents := before + [p];
    ForestGrows(before, p);
    forall i | 0 < i < |parents| ensures Holds(parents, parents[i], i - 1) == Holds(before, parents[i], i - 1) {
      HoldsGrows(before, p, parents[i], i - 1);
    }
    if NestsInOrder(parents) {
      forall i | 0 < i < |before| ensures Holds(before, before[i], i - 1) {
        assert parents[i] == before[i] && Holds(parents, parents[i], i - 1);
      }
      assert Holds(parents, parents[|before|], |before| - 1);
    }
  }

  lemma WalkedBelow(parents: seq<int>)
    requires IsForest(parents)
    ensures forall d | d in Walked(parents) :: d < |parents|
  {
    forall d | d in Walked(parents) ensures d < |parents| { IdsAreHeld(parents, -1, d); }
  }

  /** One more span keeps the walk in opening order only at the end of the walk. */
  lemma LastNests(before: seq<int>, p: int)
    requires IsForest(before) && -1 <= p < |before| && before != []
    ensures IsForest(before + [p])
    ensures Walked(before + [p]) == Range(|before| + 1)
       <==> Walked(before) == Range(|before|) && Holds(before, p, |before| - 1)
  {
    var n := |before|;
    var x, s, y := WalkGrows(before, p);
    IdsAreHeld(before, p, n - 1);
    LastOfWalk(Walked(before), Walked(before + [p]), x, s, y, n) by { WalkedBelow(before); }
  }

  lemma LastOfWalk(w: seq<int>, w': seq<int>, x: seq<int>, s: seq<int>, y: seq<int>, n: nat)
    requires n > 0 && s != [] && forall d | d in w :: d < n
    requires w == x + s + y && w' == x + s + [n] + y
    ensures w' == Range(n + 1) <==> w == Range(n) && n - 1 in s
  {
    LastOfRange(x, s, y, n);
  }

  lemma OneSpanWalked()
    ensures Walked([-1]) == Range(1)
  {
    var x, s, y := WalkGrows([], -1);
    NothingWalked();
    assert [] + [-1] == [-1];
    assert x + s + y == [-1];
    assert Range(1) == Range(0) + [0];
  }

  /** `n` in place behind `x + s` makes a range exactly when `y` is empty and `x + s` is one. */
  lemma LastOfRange(x: seq<int>, s: seq<int>, y: seq<int>, n: nat)
    requires s != []
    requires (forall d | d in x + s + y :: d < n)
    requires n > 0
    ensures x + s + [n] + y == Range(n + 1) <==> x + s + y == Range(n) && n - 1 in s
  {
    RangeAt(n);
    RangeAt(n + 1);
    var w, w' := x + s + y, x + s + [n] + y;
    if w' == Range(n + 1) {
      assert w'[|x + s|] == n;
      assert y == [] && x + s == w;
      assert Range(n + 1) == Range(n) + [n];
      assert w == w'[..|w|];
      assert w[|w| - 1] == s[|s| - 1];
    }
    if w == Range(n) && n - 1 in s {
      var j :| 0 <= j < |s| && s[j] == n - 1;
      assert w[|x| + j] == n - 1;
      assert y == [];
      assert w' == w + [n];
    }
  }
}
