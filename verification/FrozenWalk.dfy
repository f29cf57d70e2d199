/** The walk of a frozen recording, node by node: what a reader of a trace sees of each span. */
module FrozenWalk {
  import opened SpanForest
  import opened Recorder
  import opened RecorderRuns
  import opened WalkOrder

  lemma {:induction false} TreesOfAt(parents: seq<int>, labels: seq<Label>, kids: seq<int>, lo: int, j: nat)
    requires IsForest(parents) && |labels| == |parents| && -1 <= lo < |parents| && Above(parents, kids, lo) && j < |kids|
    ensures TreesOf(parents, labels, kids, lo)[j] == TreeOf(parents, labels, kids[j])
    decreases |kids|
  {
    if j > 0 { TreesOfAt(parents, labels, kids[1..], lo, j - 1); }
  }

  /** The span that the walk meets in place `k`. */
  ghost function SpanAt(parents: seq<int>, k: nat): (i: int)
    requires IsForest(parents) && k < |parents|
    ensures 0 <= i < |parents|
  {
    var labels := seq(|parents|, _ => Label("", false));
    WalkOfForest(parents, labels);
    Walked(parents)[k + 1]
  }

  lemma NodeIsTree(parents: seq<int>, labels: seq<Label>, k: nat)
    requires IsForest(parents) && |labels| == |parents| && k < |parents|
    ensures var walk := WalkAll(Forest(parents, labels));
            |walk| == |parents| && walk[k] == TreeOf(parents, labels, SpanAt(parents, k))
  {
    WalkOfForest(parents, labels);
  }

  /** A frozen node shows the name and the mark of its span, and holds one node per span opened under
      it, in the order they were opened; each of those is the node the walk meets for that span. */
  lemma NodesShowTheirSpans(parents: seq<int>, labels: seq<Label>, k: nat)
    requires IsForest(parents) && |labels| == |parents| && k < |parents|
    ensures var walk, i := WalkAll(Forest(parents, labels)), SpanAt(parents, k);
            && |walk| == |parents|
            && walk[k].name == labels[i].name && walk[k].failed == labels[i].failed
            && |walk[k].children| == |ChildrenOf(parents, i)|
            && forall j, m: nat | 0 <= j < |walk[k].children| && m < |parents|
                                  && SpanAt(parents, m) == ChildrenOf(parents, i)[j] ::
                 walk[k].children[j] == walk[m]
  {
    var walk, i := WalkAll(Forest(parents, labels)), SpanAt(parents, k);
    NodeIsTree(parents, labels, k);
    forall j, m: nat | 0 <= j < |walk[k].children| && m < |parents| && SpanAt(parents, m) == ChildrenOf(parents, i)[j]
      ensures walk[k].children[j] == walk[m]
    {
      TreesOfAt(parents, labels, ChildrenOf(parents, i), i, j);
      NodeIsTree(parents, labels, m);
    }
  }

  /** Every span is met in some place of the walk, and in one only. */
  lemma EverySpanIsMet(parents: seq<int>, i: nat) returns (k: nat)
    requires IsForest(parents) && i < |parents|
    ensures k < |parents| && SpanAt(parents, k) == i
    ensures forall m: nat | m < |parents| && SpanAt(parents, m) == i :: m == k
  {
    WalkedFacts(parents);
    WalkOfForest(parents, seq(|parents|, _ => Label("", false)));
    assert i in Range(|parents|);
    var p :| 0 <= p < |Walked(parents)| && Walked(parents)[p] == i;
    k := p - 1;
  }

  /** The marks a program leaves are the marks its reader sees: a node of the walk is failed exactly
      when its span was opened by a block whose body was left by a failure. */
  lemma FailuresAreSeen(steps: seq<Step>, k: nat)
    ensures var tape := Run(steps, Tape([], []), -1).0;
            && IsForest(tape.parents) && |tape.labels| == |tape.parents| == |Openers(steps)|
            && |WalkAll(Forest(tape.parents, tape.labels))| == |tape.parents|
            && (k < |tape.parents| ==>
                  (WalkAll(Forest(tape.parents, tape.labels))[k].failed
                   <==> Struck(Openers(steps)[SpanAt(tape.parents, k)])))
  {
    var tape := Run(steps, Tape([], []), -1).0;
    RunRecordsAForest(steps, Tape([], []), -1);
    FailureMarksExactly(steps, Tape([], []), -1);
    WalkOfForest(tape.parents, tape.labels);
    if k < |tape.parents| {
      NodesShowTheirSpans(tape.parents, tape.labels, k);
      assert tape.labels[0 + SpanAt(tape.parents, k)].failed <==> Struck(Openers(steps)[SpanAt(tape.parents, k)]);
    }
  }
}
