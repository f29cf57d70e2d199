/** Who wins a merge, said over the list of results alone: no ranks, no sub-lists, no recursion. */
module ResolverOutright {
  import opened ConflictResolver
  import opened Options

  /** It failed in no word, and it brought something. */
  predicate Usable(r: SpecialistResult) {
    (r.error == None || r.error == Some("")) && r.output != map[]
  }

  /** `a` is on the list, and `b` nowhere up to there. */
  ghost predicate ListedBefore(priority: seq<string>, a: string, b: string) {
    exists k :: 0 <= k < |priority| && priority[k] == a && b !in priority[..k + 1]
  }

  predicate MoreConfident(a: Option<real>, b: Option<real>) {
    a.Some? && (b.Some? ==> a.value > b.value)
  }

  /** Priority decides; between equals the place in the list, or confidence and only then the
      place. */
  ghost predicate Preferred(policy: Policy, results: seq<SpecialistResult>, i: nat, j: nat)
    requires i < |results| && j < |results|
  {
    var a, b := results[i], results[j];
    || ListedBefore(policy.priority, a.name, b.name)
    || (!ListedBefore(policy.priority, b.name, a.name)
        && match policy.onTie
           case FirstByPriority => i < j
           case HighestConfidence =>
             MoreConfident(a.confidence, b.confidence) || (!MoreConfident(b.confidence, a.confidence) && i < j))
  }

  ghost predicate Wins(policy: Policy, results: seq<SpecialistResult>, w: nat) {
    && w < |results| && Usable(results[w])
    && forall j: nat | j < |results| && j != w && Usable(results[j]) :: Preferred(policy, results, w, j)
  }

  function CountUsable(results: seq<SpecialistResult>): nat
    decreases |results|
  {
    if results == [] then 0
    else CountUsable(results[..|results| - 1]) + if Usable(results[|results| - 1]) then 1 else 0
  }

  /** Each usable result is considered and each other one dropped, by name and in their order. */
  ghost predicate SplitInOrder(results: seq<SpecialistResult>, considered: seq<string>, dropped: seq<string>) {
    && |considered| == CountUsable(results) && |dropped| == |results| - |considered|
    && forall i | 0 <= i < |results| ::
         var before := CountUsable(results[..i]);
         if Usable(results[i]) then before < |considered| && considered[before] == results[i].name
         else 0 <= i - before < |dropped| && dropped[i - before] == results[i].name
  }

  /** The merge, outright: nobody succeeded exactly if no result is usable; otherwise the winner is the
      one usable result preferred to all others, and the usable are told from the rest, in order. */
  ghost predicate Merges(policy: Policy, results: seq<SpecialistResult>, resolution: Resolution) {
    match resolution
    case NoneSucceeded => forall r | r in results :: !Usable(r)
    case Resolved(winner, output, considered, dropped) =>
      && (exists w: nat :: Wins(policy, results, w) && results[w].name == winner && results[w].output == output)
      && SplitInOrder(results, considered, dropped)
  }

  lemma NotAmongTheFirst(priority: seq<string>, name: string, n: nat, k: nat)
    requires n <= |priority| && name !in priority[..n] && (k < |priority| ==> priority[k] == name)
    ensures n <= k
  {
  }

  lemma RankListsBefore(priority: seq<string>, a: string, b: string)
    ensures Rank(priority, a) < Rank(priority, b) <==> ListedBefore(priority, a, b)
  {
    var i, j := Rank(priority, a), Rank(priority, b);
    RankIsFirstPlace(priority, a);
    RankIsFirstPlace(priority, b);
    if i < j {
      assert priority[i] == a;
      assert b !in priority[..i + 1] by {
        forall k | 0 <= k < i + 1 ensures priority[k] != b { assert priority[k] == priority[..j][k]; }
      }
    }
    if k :| 0 <= k < |priority| && priority[k] == a && b !in priority[..k + 1] {
      NotAmongTheFirst(priority, a, i, k);
      NotAmongTheFirst(priority, b, k + 1, j);
    }
  }

  lemma BeatsPrefers(policy: Policy, results: seq<SpecialistResult>, i: nat, j: nat)
    requires i < |results| && j < |results| && i != j
    ensures Beats(policy, results[i], results[j], i < j) <==> Preferred(policy, results, i, j)
  {
    RankListsBefore(policy.priority, results[i].name, results[j].name);
    RankListsBefore(policy.priority, results[j].name, results[i].name);
  }

  lemma WinnersWin(policy: Policy, results: seq<SpecialistResult>, w: nat)
    ensures IsWinner(policy, results, w) <==> Wins(policy, results, w)
  {
    if w < |results| {
      forall j: nat | j < |results| && j != w { BeatsPrefers(policy, results, w, j); }
    }
  }

  /** At most one position wins. */
  lemma OneWins(policy: Policy, results: seq<SpecialistResult>, w: nat, w': nat)
    requires Wins(policy, results, w) && Wins(policy, results, w')
    ensures w == w'
  {
    WinnersWin(policy, results, w);
    WinnersWin(policy, results, w');
    WinnerIsUnique(policy, results, w, w');
  }

  lemma {:induction false} SurvivorsAreCounted(results: seq<SpecialistResult>)
    ensures |Survivors(results)| == CountUsable(results) && |Dropped(results)| == |results| - CountUsable(results)
    decreases |results|
  {
    if results != [] {
      var before, r := results[..|results| - 1], results[|results| - 1];
      SurvivorsAreCounted(before);
      assert results == before + [r];
      SurvivorsSplit(before, [r]);
      assert [r][1..] == [];
      SizesAdd(results);
    }
  }

  lemma SplitsInOrder(results: seq<SpecialistResult>)
    ensures SplitInOrder(results, Names(Survivors(results)), Dropped(results))
  {
    SurvivorsAreCounted(results);
    forall i | 0 <= i < |results|
      ensures var before := CountUsable(results[..i]);
              if Usable(results[i])
              then before < |Survivors(results)| && Names(Survivors(results))[before] == results[i].name
              else 0 <= i - before < |Dropped(results)| && Dropped(results)[i - before] == results[i].name
    {
      SurvivorsAreCounted(results[..i]);
      ConsideredAndDroppedPartition(results, i);
    }
  }

  lemma ResolveMerges(policy: Policy, results: seq<SpecialistResult>)
    ensures Merges(policy, results, Resolve(policy, results))
  {
    ResolvePicksTheWinner(policy, results);
    if Resolve(policy, results).Resolved? {
      var w: nat :| IsWinner(policy, results, w);
      WinnersWin(policy, results, w);
      SplitsInOrder(results);
    } else {
      forall r | r in results ensures !Usable(r) { assert !Survives(r); }
    }
  }
}
