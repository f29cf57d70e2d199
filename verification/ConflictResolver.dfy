/** Merging competing specialist results into one, by priority and without a model. */
module ConflictResolver {
  import opened Options

  /** A field of a structured output. */
  datatype Value = Null | Number(n: real) | Text(s: string) | Other(repr: string)

  type Output = map<string, Value>

  datatype SpecialistResult = SpecialistResult(name: string, output: Output, confidence: Option<real>, error: Option<string>)

  datatype Tie = FirstByPriority | HighestConfidence

  datatype Policy = Policy(priority: seq<string>, onTie: Tie)

  datatype Resolution =
    | NoneSucceeded
    | Resolved(winner: string, output: Output, considered: seq<string>, dropped: seq<string>)

  /** An error message counts when it says something. */
  predicate Errored(r: SpecialistResult) {
    r.error.Some? && r.error.value != ""
  }

  predicate Survives(r: SpecialistResult) {
    !Errored(r) && r.output != map[]
  }

  function Rank(priority: seq<string>, name: string): nat {
    if priority == [] || priority[0] == name then 0 else 1 + Rank(priority[1..], name)
  }

  function Survivors(results: seq<SpecialistResult>): seq<SpecialistResult> {
    if results == [] then []
    else (if Survives(results[0]) then [results[0]] else []) + Survivors(results[1..])
  }

  function Dropped(results: seq<SpecialistResult>): seq<string> {
    if results == [] then []
    else (if Survives(results[0]) then [] else [results[0].name]) + Dropped(results[1..])
  }

  function Names(results: seq<SpecialistResult>): (names: seq<string>)
    ensures |names| == |results| && forall i | 0 <= i < |results| :: names[i] == results[i].name
  {
    seq(|results|, i requires 0 <= i < |results| => results[i].name)
  }

  function BestRank(priority: seq<string>, results: seq<SpecialistResult>): nat
    requires results != []
  {
    var r := Rank(priority, results[0].name);
    if |results| == 1 then r
    else
      var s := BestRank(priority, results[1..]);
      if r <= s then r else s
  }

  function OfRank(priority: seq<string>, results: seq<SpecialistResult>, rank: nat): seq<SpecialistResult> {
    if results == [] then []
    else (if Rank(priority, results[0].name) == rank then [results[0]] else []) + OfRank(priority, results[1..], rank)
  }

  /** No confidence is below every confidence. */
  predicate Below(a: Option<real>, b: Option<real>) {
    b.Some? && (a.None? || a.value < b.value)
  }

  /** The first of the most confident. */
  function MostConfident(results: seq<SpecialistResult>): SpecialistResult
    requires results != []
  {
    if |results| == 1 then results[0]
    else
      var rest := MostConfident(results[1..]);
      if Below(results[0].confidence, rest.confidence) then rest else results[0]
  }

  function Resolve(policy: Policy, results: seq<SpecialistResult>): Resolution {
    var survivors := Survivors(results);
    if survivors == [] then NoneSucceeded
    else
      var candidates := OfRank(policy.priority, survivors, BestRank(policy.priority, survivors));
      BestRankIsAttained(policy.priority, survivors);
      var winner := if policy.onTie.HighestConfidence? then MostConfident(candidates) else candidates[0];
      Resolved(winner.name, winner.output, Names(survivors), Dropped(results))
  }

  lemma {:induction false} BestRankIsAttained(priority: seq<string>, results: seq<SpecialistResult>)
    requires results != []
    ensures OfRank(priority, results, BestRank(priority, results)) != []
    ensures forall r | r in results :: BestRank(priority, results) <= Rank(priority, r.name)
  {
    if |results| > 1 {
      BestRankIsAttained(priority, results[1..]);
      forall r | r in results ensures BestRank(priority, results) <= Rank(priority, r.name) {
        assert r == results[0] || r in results[1..];
      }
    }
  }

  /** A name's rank is its first place in the list, or one past the end. */
  lemma {:induction false} RankIsFirstPlace(priority: seq<string>, name: string)
    ensures var k := Rank(priority, name);
            && k <= |priority| && name !in priority[..k]
            && (k < |priority| ==> priority[k] == name)
  {
    if priority != [] && priority[0] != name {
      RankIsFirstPlace(priority[1..], name);
      assert priority[..Rank(priority, name)] == [priority[0]] + priority[1..][..Rank(priority[1..], name)];
    }
  }

  // ---- Who wins, said over positions -----------------------------------------------------------

  /** Does `r` beat a survivor at a later (`before`) or earlier position? */
  predicate Beats(policy: Policy, r: SpecialistResult, s: SpecialistResult, before: bool) {
    var i, j := Rank(policy.priority, r.name), Rank(policy.priority, s.name);
    || i < j
    || (i == j && policy.onTie.FirstByPriority? && before)
    || (i == j && policy.onTie.HighestConfidence?
        && (Below(s.confidence, r.confidence) || (before && !Below(r.confidence, s.confidence))))
  }

  /** The winning position: a survivor that beats every other survivor. */
  predicate IsWinner(policy: Policy, results: seq<SpecialistResult>, w: nat) {
    && w < |results| && Survives(results[w])
    && forall j | 0 <= j < |results| && j != w && Survives(results[j]) :: Beats(policy, results[w], results[j], w < j)
  }

  /** The winning position of a nonempty field, found by recursion on the whole list. */
  lemma {:induction false} SomebodyWins(policy: Policy, results: seq<SpecialistResult>) returns (w: nat)
    requires Survivors(results) != []
    ensures IsWinner(policy, results, w)
    ensures var candidates := OfRank(policy.priority, Survivors(results), BestRank(policy.priority, Survivors(results)));
            && candidates != []
            && results[w] == if policy.onTie.HighestConfidence? then MostConfident(candidates) else candidates[0]
    decreases |results|, 1
  {
    var p := policy.priority;
    var rest := results[1..];
    var survivors := Survivors(results);
    BestRankIsAttained(p, survivors);
    if !Survives(results[0]) {
      assert survivors == Survivors(rest);
      var v := SomebodyWins(policy, rest);
      w := v + 1;
      forall j | 0 <= j < |results| && j != w && Survives(results[j])
        ensures Beats(policy, results[w], results[j], w < j)
      {
        assert results[j] == rest[j - 1];
      }
    } else if Survivors(rest) == [] {
      assert survivors == [results[0]] + Survivors(rest) == [results[0]];
      NoSurvivors(rest);
      w := 0;
      forall j | 0 < j < |results| ensures !Survives(results[j]) { assert results[j] == rest[j - 1]; }
    } else {
      w := HeadAgainstRest(policy, results);
    }
  }

  lemma {:induction false} NoSurvivors(results: seq<SpecialistResult>)
    requires Survivors(results) == []
    ensures forall r | r in results :: !Survives(r)
  {
    if results != [] {
      NoSurvivors(results[1..]);
    }
  }

  lemma {:induction false} RanksOf(priority: seq<string>, results: seq<SpecialistResult>, rank: nat)
    ensures forall r | r in OfRank(priority, results, rank) :: Rank(priority, r.name) == rank
  {
    if results != [] {
      RanksOf(priority, results[1..], rank);
    }
  }

  lemma {:induction false} NoneOfRank(priority: seq<string>, results: seq<SpecialistResult>, rank: nat)
    requires forall r | r in results :: Rank(priority, r.name) > rank
    ensures OfRank(priority, results, rank) == []
  {
    if results != [] {
      NoneOfRank(priority, results[1..], rank);
    }
  }

  lemma {:induction false} MostConfidentIsOne(results: seq<SpecialistResult>)
    requires results != []
    ensures MostConfident(results) in results
  {
    if |results| > 1 {
      MostConfidentIsOne(results[1..]);
    }
  }

  /** The candidates once one more survivor is put in front. */
  lemma CandidatesWith(priority: seq<string>, r: SpecialistResult, others: seq<SpecialistResult>)
    requires others != []
    ensures var mine, best := Rank(priority, r.name), BestRank(priority, others);
            OfRank(priority, [r] + others, BestRank(priority, [r] + others))
            == if mine < best then [r]
               else if mine == best then [r] + OfRank(priority, others, best)
               else OfRank(priority, others, best)
  {
    assert ([r] + others)[1..] == others;
    assert [] + OfRank(priority, others, BestRank(priority, others)) == OfRank(priority, others, BestRank(priority, others));
    BestRankIsAttained(priority, others);
    if Rank(priority, r.name) < BestRank(priority, others) { NoneOfRank(priority, others, Rank(priority, r.name)); }
  }

  /** Whoever beats a winner beats all the winner beats. */
  lemma BeatsOn(policy: Policy, r: SpecialistResult, s: SpecialistResult, t: SpecialistResult, before: bool)
    requires Beats(policy, r, s, true) && Beats(policy, s, t, before)
    ensures Beats(policy, r, t, true)
  {
  }

  /** Of the first result and the winner of the others, the one that beats the other wins. */
  lemma HeadOrRest(policy: Policy, results: seq<SpecialistResult>, v: nat)
    requires results != [] && Survives(results[0]) && IsWinner(policy, results[1..], v)
    ensures IsWinner(policy, results, if Beats(policy, results[0], results[1..][v], true) then 0 else v + 1)
  {
    var rest := results[1..];
    var w := if Beats(policy, results[0], rest[v], true) then 0 else v + 1;
    forall j | 0 <= j < |results| && j != w && Survives(results[j])
      ensures Beats(policy, results[w], results[j], w < j)
    {
      if j > 0 {
        assert results[j] == rest[j - 1];
        if j - 1 != v {
          assert Beats(policy, rest[v], rest[j - 1], v < j - 1);
          if w == 0 { BeatsOn(policy, results[0], rest[v], rest[j - 1], v < j - 1); }
        }
      }
    }
  }

  /** The first result is weighed against the winner of the others. */
  lemma {:induction false} HeadAgainstRest(policy: Policy, results: seq<SpecialistResult>) returns (w: nat)
    requires results != [] && Survives(results[0]) && Survivors(results[1..]) != []
    ensures IsWinner(policy, results, w)
    ensures var candidates := OfRank(policy.priority, Survivors(results), BestRank(policy.priority, Survivors(results)));
            && candidates != []
            && results[w] == if policy.onTie.HighestConfidence? then MostConfident(candidates) else candidates[0]
    decreases |results|, 0
  {
    var p, rest := policy.priority, results[1..];
    var v := SomebodyWins(policy, rest);
    HeadOrRest(policy, results, v);
    w := if Beats(policy, results[0], rest[v], true) then 0 else v + 1;
    var others := Survivors(rest);
    var field := OfRank(p, others, BestRank(p, others));
    assert Survivors(results) == [results[0]] + others;
    CandidatesWith(p, results[0], others);
    WinnersRank(policy, others, rest[v]);
    PickOfTwo(policy, results[0], field, rest[v]);
  }

  lemma WinnersRank(policy: Policy, others: seq<SpecialistResult>, r: SpecialistResult)
    requires others != []
    requires var field := OfRank(policy.priority, others, BestRank(policy.priority, others));
             field != [] && r == if policy.onTie.HighestConfidence? then MostConfident(field) else field[0]
    ensures Rank(policy.priority, r.name) == BestRank(policy.priority, others)
  {
    var field := OfRank(policy.priority, others, BestRank(policy.priority, others));
    RanksOf(policy.priority, others, BestRank(policy.priority, others));
    if policy.onTie.HighestConfidence? { MostConfidentIsOne(field); }
  }

  /** Picking from a field with one more candidate in front. */
  lemma PickOfTwo(policy: Policy, r: SpecialistResult, field: seq<SpecialistResult>, best: SpecialistResult)
    requires field != [] && best == if policy.onTie.HighestConfidence? then MostConfident(field) else field[0]
    ensures Rank(policy.priority, r.name) == Rank(policy.priority, best.name) ==>
              (if policy.onTie.HighestConfidence? then MostConfident([r] + field) else r)
              == if Beats(policy, r, best, true) then r else best
  {
    assert ([r] + field)[1..] == field;
  }

  lemma WinnerIsUnique(policy: Policy, results: seq<SpecialistResult>, w: nat, w': nat)
    requires IsWinner(policy, results, w) && IsWinner(policy, results, w')
    ensures w == w'
  {
  }

  /** `Resolve` reports the one position that beats all others, or that there is nobody to win. */
  lemma ResolvePicksTheWinner(policy: Policy, results: seq<SpecialistResult>)
    ensures Resolve(policy, results).Resolved? <==> exists r | r in results :: Survives(r)
    ensures forall w: nat | IsWinner(policy, results, w) ::
              Resolve(policy, results)
              == Resolved(results[w].name, results[w].output, Names(Survivors(results)), Dropped(results))
    ensures Resolve(policy, results).Resolved? ==> exists w: nat :: IsWinner(policy, results, w)
  {
    if Survivors(results) == [] {
      NoSurvivors(results);
    } else {
      var w := SomebodyWins(policy, results);
      forall w': nat | IsWinner(policy, results, w') { WinnerIsUnique(policy, results, w, w'); }
    }
  }

  /** Where a position goes when one entry is taken out of the list. */
  function Shift(i: nat, w: nat): nat { if w <= i then w else w - 1 }

  /** Taking out anyone but the winner leaves the winner in place. */
  lemma LosersDoNotMatter(policy: Policy, results: seq<SpecialistResult>, i: nat, w: nat)
    requires IsWinner(policy, results, w) && i < |results| && i != w
    ensures var fewer := results[..i] + results[i + 1..];
            IsWinner(policy, fewer, Shift(i, w)) && fewer[Shift(i, w)] == results[w]
  {
    var fewer := results[..i] + results[i + 1..];
    forall j | 0 <= j < |fewer| && j != Shift(i, w) && Survives(fewer[j])
      ensures Beats(policy, fewer[Shift(i, w)], fewer[j], Shift(i, w) < j)
    {
      var j' := if j < i then j else j + 1;
      assert fewer[j] == results[j'];
    }
  }

  /** A failed result put in anywhere changes neither the winner nor its output, nor who was
      considered. */
  lemma FailuresDoNotMatter(policy: Policy, results: seq<SpecialistResult>, i: nat, failed: SpecialistResult)
    requires i <= |results| && !Survives(failed)
    ensures var more := results[..i] + [failed] + results[i..];
            match Resolve(policy, results)
            case NoneSucceeded => Resolve(policy, more) == NoneSucceeded
            case Resolved(winner, output, considered, _) =>
              Resolve(policy, more) == Resolved(winner, output, considered, Dropped(more))
  {
    SurvivorsSplit(results[..i], results[i..]);
    SurvivorsSplit(results[..i], [failed] + results[i..]);
    assert results == results[..i] + results[i..];
    var more := results[..i] + [failed] + results[i..];
    assert more == results[..i] + ([failed] + results[i..]);
    assert Survivors([failed] + results[i..]) == Survivors(results[i..]) by {
      assert ([failed] + results[i..])[1..] == results[i..];
    }
  }

  lemma {:induction false} SurvivorsSplit(a: seq<SpecialistResult>, b: seq<SpecialistResult>)
    ensures Survivors(a + b) == Survivors(a) + Survivors(b)
  {
    if a == [] {
      assert a + b == b;
    } else {
      assert (a + b)[1..] == a[1..] + b;
      SurvivorsSplit(a[1..], b);
      var head := if Survives(a[0]) then [a[0]] else [];
      assert Survivors(a + b) == head + (Survivors(a[1..]) + Survivors(b));
      assert Survivors(a) == head + Survivors(a[1..]);
    }
  }

  /** No two surviving positions share a rank. */
  predicate DistinctRanks(policy: Policy, results: seq<SpecialistResult>) {
    forall i, j | 0 <= i < j < |results| && Survives(results[i]) && Survives(results[j]) ::
      Rank(policy.priority, results[i].name) != Rank(policy.priority, results[j].name)
  }

  lemma {:induction false} TwiceMeansTwoPlaces(s: seq<SpecialistResult>, r: SpecialistResult)
    requires multiset(s)[r] >= 2
    ensures exists i, j :: 0 <= i < j < |s| && s[i] == r && s[j] == r
  {
    assert s == [s[0]] + s[1..];
    if s[0] == r {
      assert r in s[1..];
      var j :| 0 <= j < |s[1..]| && s[1..][j] == r;
      assert s[0] == r && s[j + 1] == r;
    } else {
      TwiceMeansTwoPlaces(s[1..], r);
      var i, j :| 0 <= i < j < |s[1..]| && s[1..][i] == r && s[1..][j] == r;
      assert s[i + 1] == r && s[j + 1] == r;
    }
  }

  lemma PlacesCount(s: seq<SpecialistResult>, i: nat, j: nat)
    requires i < j < |s| && s[i] == s[j]
    ensures multiset(s)[s[i]] >= 2
  {
    assert s == s[..j] + [s[j]] + s[j + 1..];
    assert s[..j][i] == s[i];
    assert multiset(s) == multiset(s[..j]) + multiset{s[j]} + multiset(s[j + 1..]);
  }

  lemma DistinctRanksPermute(policy: Policy, results: seq<SpecialistResult>, shuffled: seq<SpecialistResult>)
    requires multiset(results) == multiset(shuffled) && DistinctRanks(policy, results)
    ensures DistinctRanks(policy, shuffled)
  {
    forall i, j | 0 <= i < j < |shuffled| && Survives(shuffled[i]) && Survives(shuffled[j])
      ensures Rank(policy.priority, shuffled[i].name) != Rank(policy.priority, shuffled[j].name)
    {
      assert shuffled[i] in multiset(results) && shuffled[j] in multiset(results);
      var i' :| 0 <= i' < |results| && results[i'] == shuffled[i];
      var j' :| 0 <= j' < |results| && results[j'] == shuffled[j];
      if shuffled[i] == shuffled[j] {
        PlacesCount(shuffled, i, j);
        TwiceMeansTwoPlaces(results, shuffled[i]);
      }
    }
  }

  /** With distinct ranks the order in which specialists answered is irrelevant: same winner, same
      output. */
  lemma OrderDoesNotMatter(policy: Policy, results: seq<SpecialistResult>, shuffled: seq<SpecialistResult>)
    requires multiset(results) == multiset(shuffled) && DistinctRanks(policy, results)
    ensures match Resolve(policy, results)
            case NoneSucceeded => Resolve(policy, shuffled) == NoneSucceeded
            case Resolved(winner, output, _, _) =>
              Resolve(policy, shuffled).Resolved?
              && Resolve(policy, shuffled).winner == winner && Resolve(policy, shuffled).output == output
  {
    ResolvePicksTheWinner(policy, results);
    ResolvePicksTheWinner(policy, shuffled);
    forall r ensures r in results <==> r in shuffled { assert r in multiset(results) <==> r in multiset(shuffled); }
    if Resolve(policy, results).Resolved? {
      var w: nat :| IsWinner(policy, results, w);
      var w' := WinnerMoves(policy, results, shuffled, w);
    }
  }

  lemma WinnerMoves(policy: Policy, results: seq<SpecialistResult>, shuffled: seq<SpecialistResult>, w: nat)
    returns (w': nat)
    requires multiset(results) == multiset(shuffled) && DistinctRanks(policy, results) && IsWinner(policy, results, w)
    ensures IsWinner(policy, shuffled, w') && shuffled[w'] == results[w]
  {
    DistinctRanksPermute(policy, results, shuffled);
    assert results[w] in multiset(shuffled);
    w' :| 0 <= w' < |shuffled| && shuffled[w'] == results[w];
    forall j | 0 <= j < |shuffled| && j != w' && Survives(shuffled[j])
      ensures Rank(policy.priority, shuffled[w'].name) < Rank(policy.priority, shuffled[j].name)
    {
      assert shuffled[j] in multiset(results);
      var j' :| 0 <= j' < |results| && results[j'] == shuffled[j];
      if j' != w {
        assert Beats(policy, results[w], results[j'], w < j');
      }
    }
  }

  /** `considered` and `dropped` split the inputs, keeping order: position `i` is found in the one or
      the other, after exactly the earlier positions of its kind. */
  lemma {:induction false} ConsideredAndDroppedPartition(results: seq<SpecialistResult>, i: nat)
    requires i < |results|
    ensures |Survivors(results)| + |Dropped(results)| == |results|
    ensures var before := results[..i];
            if Survives(results[i])
            then |Survivors(before)| < |Survivors(results)|
                 && Names(Survivors(results))[|Survivors(before)|] == results[i].name
            else |Dropped(before)| < |Dropped(results)|
                 && Dropped(results)[|Dropped(before)|] == results[i].name
  {
    SizesAdd(results);
    if i > 0 {
      assert results[..i][0] == results[0] && results[..i][1..] == results[1..][..i - 1];
      ConsideredAndDroppedPartition(results[1..], i - 1);
    } else {
      assert results[..0] == [];
    }
  }

  lemma {:induction false} SizesAdd(results: seq<SpecialistResult>)
    ensures |Survivors(results)| + |Dropped(results)| == |results|
  {
    if results != [] { SizesAdd(results[1..]); }
  }
}
