/** What a recording shows of the program that made it. */
module RecorderRuns {
  import opened SpanForest
  import opened Recorder
  import opened WalkOrder

  // ---- Reading: the walk of the frozen forest ----------------------------------------------------

  ghost function TreesAt(parents: seq<int>, labels: seq<Label>, ids: seq<int>): (trees: seq<SpanNode>)
    requires IsForest(parents) && |labels| == |parents| && Above(parents, ids, -1)
    ensures |trees| == |ids|
  {
    seq(|ids|, k requires 0 <= k < |ids| => TreeOf(parents, labels, ids[k]))
  }

  lemma IdsAbove(parents: seq<int>, i: int)
    requires IsForest(parents) && 0 <= i < |parents|
    ensures Above(parents, Ids(parents, i), -1)
  {
    var ids := Ids(parents, i);
    forall j | 0 <= j < |ids| ensures -1 < ids[j] < |parents| {
      IdsAreHeld(parents, i, ids[j]);
      HoldsFacts(parents, i, ids[j]);
    }
  }

  lemma {:induction false} WalkOfTree(parents: seq<int>, labels: seq<Label>, i: int)
    requires IsForest(parents) && |labels| == |parents| && 0 <= i < |parents|
    ensures Above(parents, Ids(parents, i), -1)
    ensures Walk(TreeOf(parents, labels, i)) == TreesAt(parents, labels, Ids(parents, i))
    decreases |parents| - i, 1, 0
  {
    IdsAbove(parents, i);
    WalkOfTrees(parents, labels, ChildrenOf(parents, i), i);
  }

  lemma {:induction false} WalkOfTrees(parents: seq<int>, labels: seq<Label>, kids: seq<int>, lo: int)
    requires IsForest(parents) && |labels| == |parents| && -1 <= lo < |parents| && Above(parents, kids, lo)
    ensures Above(parents, Flat(parents, kids, lo), -1)
    ensures WalkAll(TreesOf(parents, labels, kids, lo)) == TreesAt(parents, labels, Flat(parents, kids, lo))
    decreases |parents| - lo, 0, |kids|
  {
    if kids != [] {
      WalkOfTree(parents, labels, kids[0]);
      WalkOfTrees(parents, labels, kids[1..], lo);
      var trees := TreesOf(parents, labels, kids, lo);
      assert trees[1..] == TreesOf(parents, labels, kids[1..], lo);
    }
  }

  /** The walk of all roots shows span after span of the forest, each once and under its parent. */
  lemma WalkOfForest(parents: seq<int>, labels: seq<Label>)
    requires IsForest(parents) && |labels| == |parents|
    ensures Above(parents, Walked(parents)[1..], -1)
    ensures WalkAll(Forest(parents, labels)) == TreesAt(parents, labels, Walked(parents)[1..])
    ensures |WalkAll(Forest(parents, labels))| == |parents|
  {
    var kids := ChildrenOf(parents, -1);
    WalkOfTrees(parents, labels, kids, -1);
    assert Walked(parents)[1..] == Flat(parents, kids, -1);
    EachSpanOnce(parents);
    RangeAt(|parents|);
    assert |Walked(parents)| == |multiset(Walked(parents))| == |multiset(Range(|parents|))| == |parents| + 1;
  }

  /** When spans nest in order, walking the trees is replaying the opens. */
  lemma WalkReplaysTheOpens(parents: seq<int>, labels: seq<Label>)
    requires IsForest(parents) && |labels| == |parents| && NestsInOrder(parents)
    ensures var walk := WalkAll(Forest(parents, labels));
            |walk| == |parents| && forall k | 0 <= k < |parents| :: walk[k] == TreeOf(parents, labels, k)
  {
    WalkOfForest(parents, labels);
    WalkIsOpeningOrderIff(parents);
    RangeAt(|parents|);
  }

  function NamesOf(nodes: seq<SpanNode>): (names: seq<string>)
    ensures |names| == |nodes| && forall k | 0 <= k < |nodes| :: names[k] == nodes[k].name
  {
    seq(|nodes|, k requires 0 <= k < |nodes| => nodes[k].name)
  }

  /** The names of the tool spans, as opened. */
  function ToolNames(labels: seq<Label>): seq<string> {
    if labels == [] then []
    else (if TOOL_PREFIX <= labels[0].name then [labels[0].name] else []) + ToolNames(labels[1..])
  }

  lemma {:induction false} ToolCallNames(nodes: seq<SpanNode>, labels: seq<Label>)
    requires |nodes| == |labels| && forall k | 0 <= k < |nodes| :: nodes[k].name == labels[k].name
    ensures NamesOf(ToolCalls(nodes)) == ToolNames(labels)
  {
    if nodes != [] {
      ToolCallNames(nodes[1..], labels[1..]);
      var first := if TOOL_PREFIX <= nodes[0].name then [nodes[0]] else [];
      assert NamesOf(first + ToolCalls(nodes[1..])) == NamesOf(first) + NamesOf(ToolCalls(nodes[1..]));
    }
  }

  /** `tool_calls` filters: it lists a node exactly if its name starts with `tool.`, as often as it is
      walked and in the order of the walk. */
  lemma {:induction false} ToolCallsFilter(a: seq<SpanNode>, b: seq<SpanNode>, node: SpanNode)
    ensures ToolCalls(a + b) == ToolCalls(a) + ToolCalls(b)
    ensures ToolCalls([node]) == if |node.name| >= 5 && node.name[..5] == "tool." then [node] else []
  {
    assert [node][1..] == [];
    assert "tool." <= node.name <==> |node.name| >= 5 && node.name[..5] == "tool.";
    if a == [] {
      assert a + b == b;
    } else {
      assert (a + b)[1..] == a[1..] + b && (a + b)[0] == a[0];
      ToolCallsFilter(a[1..], b, node);
    }
  }

  /** The tool spans, by their place among the opens. */
  function ToolIds(labels: seq<Label>): set<int> {
    set i | 0 <= i < |labels| && TOOL_PREFIX <= labels[i].name
  }

  lemma {:induction false} ToolCallsOfTrees(parents: seq<int>, labels: seq<Label>, ids: seq<int>)
    requires IsForest(parents) && |labels| == |parents| && Above(parents, ids, -1)
    ensures Above(parents, Chosen(ids, ToolIds(labels)), -1)
    ensures ToolCalls(TreesAt(parents, labels, ids)) == TreesAt(parents, labels, Chosen(ids, ToolIds(labels)))
    decreases |ids|
  {
    if ids != [] {
      ToolCallsOfTrees(parents, labels, ids[1..]);
      assert TreesAt(parents, labels, ids)[1..] == TreesAt(parents, labels, ids[1..]);
      assert ids[0] in ToolIds(labels) <==> TOOL_PREFIX <= TreesAt(parents, labels, ids)[0].name;
    }
  }

  lemma ToolCallsAreChosen(parents: seq<int>, labels: seq<Label>)
    requires IsForest(parents) && |labels| == |parents|
    ensures var ids := Chosen(Walked(parents), ToolIds(labels));
            Above(parents, ids, -1) && ToolCalls(WalkAll(Forest(parents, labels))) == TreesAt(parents, labels, ids)
  {
    WalkOfForest(parents, labels);
    ToolCallsOfTrees(parents, labels, Walked(parents)[1..]);
    assert Chosen(Walked(parents), ToolIds(labels)) == [] + Chosen(Walked(parents)[1..], ToolIds(labels));
  }

  /** `tool_calls` lists the tool spans in the order of the walk, and that is the order the calls were
      made in exactly when of every two the older one holds the younger or sits on the older
      branch. */
  lemma ToolCallsInExecutionOrderIff(parents: seq<int>, labels: seq<Label>)
    requires IsForest(parents) && |labels| == |parents|
    ensures var walked, made := Chosen(Walked(parents), ToolIds(labels)), Chosen(Range(|parents|), ToolIds(labels));
            && Above(parents, walked, -1)
            && ToolCalls(WalkAll(Forest(parents, labels))) == TreesAt(parents, labels, walked)
            && (walked == made <==> ChosenInOrder(parents, ToolIds(labels)))
  {
    ToolCallsAreChosen(parents, labels);
    ChosenWalkedInOrderIff(parents, ToolIds(labels));
  }

  /** In that order the names come out as they were opened. */
  lemma ToolNamesInExecutionOrder(parents: seq<int>, labels: seq<Label>)
    requires IsForest(parents) && |labels| == |parents| && ChosenInOrder(parents, ToolIds(labels))
    ensures NamesOf(ToolCalls(WalkAll(Forest(parents, labels)))) == ToolNames(labels)
  {
    ToolCallsInExecutionOrderIff(parents, labels);
    RangeAt(|parents|);
    var ids := Range(|parents|)[1..];
    ToolCallsOfTrees(parents, labels, ids);
    ToolCallNames(TreesAt(parents, labels, ids), labels);
    assert Chosen(Range(|parents|), ToolIds(labels)) == [] + Chosen(ids, ToolIds(labels));
  }

  /** Spans that nest in order are all in order, the tool spans among them. */
  lemma NestedToolsInOrder(parents: seq<int>, labels: seq<Label>)
    requires IsForest(parents) && |labels| == |parents| && NestsInOrder(parents)
    ensures ChosenInOrder(parents, ToolIds(labels))
  {
    WalkIsOpeningOrderIff(parents);
    ChosenWalkedInOrderIff(parents, ToolIds(labels));
  }

  // ---- Recording: programs of nested blocks ------------------------------------------------------

  datatype Under = Ambient | Explicit(span: nat)

  /** A block around a body, a manual open, a raise, or a body whose raise is caught. An explicit
      parent names a span by its place among the opens; a place not opened yet is no span at all. */
  datatype Step =
    | Block(name: string, body: seq<Step>)
    | Start(name: string, under: Under)
    | Throw(error: Error)
    | Catch(body: seq<Step>)

  /** A recording as it grows. */
  datatype Tape = Tape(parents: seq<int>, labels: seq<Label>)

  function Open(tape: Tape, p: int, name: string): Tape {
    Tape(tape.parents + [p], tape.labels + [Label(name, false)])
  }

  function MarkFailed(tape: Tape, n: nat): Tape
    requires n < |tape.labels|
  {
    tape.(labels := tape.labels[n := Label(tape.labels[n].name, true)])
  }

  predicate Fits(tape: Tape, cur: int) {
    |tape.labels| == |tape.parents| && -1 <= cur < |tape.parents|
  }

  predicate Extends(longer: Tape, tape: Tape) {
    |longer.labels| == |longer.parents| && |tape.parents| <= |longer.parents|
  }

  function RunStep(step: Step, tape: Tape, cur: int): (r: (Tape, Exit))
    requires Fits(tape, cur)
    ensures Extends(r.0, tape)
    decreases step
  {
    match step
    case Block(name, body) =>
      var n := |tape.parents|;
      var (inner, exit) := Run(body, Open(tape, cur, name), n);
      (if exit == Raised(Failure) then MarkFailed(inner, n) else inner, exit)
    case Start(name, under) =>
      (Open(tape, if under.Explicit? && under.span < |tape.parents| then under.span else cur, name), Normal)
    case Throw(error) => (tape, Raised(error))
    case Catch(body) => (Run(body, tape, cur).0, Normal)
  }

  function Run(steps: seq<Step>, tape: Tape, cur: int): (r: (Tape, Exit))
    requires Fits(tape, cur)
    ensures Extends(r.0, tape)
    decreases steps
  {
    if steps == [] then (tape, Normal)
    else
      var (next, exit) := RunStep(steps[0], tape, cur);
      if exit.Raised? then (next, exit) else Run(steps[1..], next, cur)
  }

  // ---- What programs record ----------------------------------------------------------------------

  /** Whatever a program does, later opens hang off earlier ones: no cycle, and nothing re-hung. */
  lemma {:induction false} RunRecordsAForest(steps: seq<Step>, tape: Tape, cur: int)
    requires IsForest(tape.parents) && Fits(tape, cur)
    ensures IsForest(Run(steps, tape, cur).0.parents) && tape.parents <= Run(steps, tape, cur).0.parents
    decreases steps, 0
  {
    if steps != [] {
      StepRecordsAForest(steps[0], tape, cur);
      var (next, exit) := RunStep(steps[0], tape, cur);
      if exit.Normal? { RunRecordsAForest(steps[1..], next, cur); }
    }
  }

  lemma {:induction false} StepRecordsAForest(step: Step, tape: Tape, cur: int)
    requires IsForest(tape.parents) && Fits(tape, cur)
    ensures IsForest(RunStep(step, tape, cur).0.parents) && tape.parents <= RunStep(step, tape, cur).0.parents
    decreases step, 1
  {
    match step
    case Block(name, body) =>
      ForestGrows(tape.parents, cur);
      RunRecordsAForest(body, Open(tape, cur, name), |tape.parents|);
    case Start(name, under) =>
      ForestGrows(tape.parents, if under.Explicit? && under.span < |tape.parents| then under.span else cur);
    case Throw(_) =>
    case Catch(body) => RunRecordsAForest(body, tape, cur);
  }

  /** No manual open names a parent. */
  predicate AmbientOnly(steps: seq<Step>)
    decreases steps, 0
  {
    steps == [] || (StepAmbient(steps[0]) && AmbientOnly(steps[1..]))
  }

  predicate StepAmbient(step: Step)
    decreases step, 1
  {
    match step
    case Block(_, body) => AmbientOnly(body)
    case Start(_, under) => under.Ambient?
    case Throw(_) => true
    case Catch(body) => AmbientOnly(body)
  }

  /** The current span holds the last one opened. */
  ghost predicate InOrder(parents: seq<int>, cur: int) {
    && IsForest(parents) && -1 <= cur < |parents|
    && NestsInOrder(parents) && Holds(parents, cur, |parents| - 1)
  }

  lemma OpenKeepsOrder(parents: seq<int>, cur: int)
    requires InOrder(parents, cur)
    ensures InOrder(parents + [cur], |parents|) && InOrder(parents + [cur], cur)
  {
    var more := parents + [cur];
    ForestGrows(parents, cur);
    if parents != [] { NestingOfPrefix(parents, cur); }
    assert more[|parents|] == cur && Holds(more, cur, cur);
  }

  lemma {:induction false} AmbientRunsKeepOrder(steps: seq<Step>, tape: Tape, cur: int)
    requires AmbientOnly(steps) && Fits(tape, cur) && InOrder(tape.parents, cur)
    ensures InOrder(Run(steps, tape, cur).0.parents, cur)
    decreases steps, 0
  {
    if steps != [] {
      AmbientStepKeepsOrder(steps[0], tape, cur);
      var (next, exit) := RunStep(steps[0], tape, cur);
      if exit.Normal? { AmbientRunsKeepOrder(steps[1..], next, cur); }
    }
  }

  lemma {:induction false} AmbientStepKeepsOrder(step: Step, tape: Tape, cur: int)
    requires StepAmbient(step) && Fits(tape, cur) && InOrder(tape.parents, cur)
    ensures InOrder(RunStep(step, tape, cur).0.parents, cur)
    decreases step, 1
  {
    match step
    case Block(name, body) =>
      var n, inside := |tape.parents|, Open(tape, cur, name);
      OpenKeepsOrder(tape.parents, cur);
      AmbientRunsKeepOrder(body, inside, n);
      RunRecordsAForest(body, inside, n);
      var after := Run(body, inside, n).0.parents;
      assert after[n] == inside.parents[n] == cur && Holds(after, cur, cur);
      HoldsUp(after, cur, n, |after| - 1);
    case Start(name, _) => OpenKeepsOrder(tape.parents, cur);
    case Throw(_) =>
    case Catch(body) => AmbientRunsKeepOrder(body, tape, cur);
  }

  /** Blocks and ambient opens, nested and left in any way: the walk of what a fresh recorder then
      holds is the opens in their order, and `tool_calls` the calls in theirs. */
  lemma AmbientProgramsReplay(steps: seq<Step>)
    requires AmbientOnly(steps)
    ensures var tape := Run(steps, Tape([], []), -1).0;
            && IsForest(tape.parents) && |WalkAll(Forest(tape.parents, tape.labels))| == |tape.parents|
            && (forall k | 0 <= k < |tape.parents| ::
                  WalkAll(Forest(tape.parents, tape.labels))[k] == TreeOf(tape.parents, tape.labels, k))
            && NamesOf(ToolCalls(WalkAll(Forest(tape.parents, tape.labels)))) == ToolNames(tape.labels)
  {
    AmbientRunsKeepOrder(steps, Tape([], []), -1);
    var tape := Run(steps, Tape([], []), -1).0;
    WalkReplaysTheOpens(tape.parents, tape.labels);
    NestedToolsInOrder(tape.parents, tape.labels);
    ToolNamesInExecutionOrder(tape.parents, tape.labels);
  }

  /** An explicit parent can break that: two nodes are opened, then a tool under the second, then one
      under the first. */
  function Crossed(): seq<Step> {
    [Block("turn", [Start("node.a", Ambient), Start("node.b", Ambient),
                    Start("tool.b", Explicit(2)), Start("tool.a", Explicit(1))])]
  }

  lemma CrossedTape()
    ensures Run(Crossed(), Tape([], []), -1).0
         == Tape([-1, 0, 0, 2, 1], [Label("turn", false), Label("node.a", false), Label("node.b", false),
                                    Label("tool.b", false), Label("tool.a", false)])
  {
    var body := Crossed()[0].body;
    var root := Open(Tape([], []), -1, "turn");
    var one := Open(root, 0, "node.a");
    var two := Open(one, 0, "node.b");
    var three := Open(two, 2, "tool.b");
    var four := Open(three, 1, "tool.a");
    assert RunStep(body[0], root, 0) == (one, Normal) && RunStep(body[1], one, 0) == (two, Normal);
    assert RunStep(body[2], two, 0) == (three, Normal) && RunStep(body[3], three, 0) == (four, Normal);
    assert Run(body[4..], four, 0) == (four, Normal);
    assert body[3..][1..] == body[4..] && Run(body[3..], three, 0) == (four, Normal);
    assert body[2..][1..] == body[3..] && Run(body[2..], two, 0) == (four, Normal);
    assert body[1..][1..] == body[2..] && Run(body[1..], one, 0) == (four, Normal);
    assert Run(body, root, 0) == (four, Normal);
    assert RunStep(Crossed()[0], Tape([], []), -1) == (four, Normal);
    assert Crossed()[1..] == [];
  }

  /** The second tool called is the first one listed. */
  lemma LateToolIsListedEarly()
    ensures var tape := Run(Crossed(), Tape([], []), -1).0;
            && IsForest(tape.parents) && |tape.labels| == |tape.parents|
            && ToolNames(tape.labels) == ["tool.b", "tool.a"]
            && NamesOf(ToolCalls(WalkAll(Forest(tape.parents, tape.labels)))) == ["tool.a", "tool.b"]
  {
    CrossedTape();
    var tape := Run(Crossed(), Tape([], []), -1).0;
    CrossedListing(tape.parents, tape.labels);
  }

  lemma CrossedListing(parents: seq<int>, labels: seq<Label>)
    requires parents == [-1, 0, 0, 2, 1]
    requires labels == [Label("turn", false), Label("node.a", false), Label("node.b", false),
                        Label("tool.b", false), Label("tool.a", false)]
    ensures IsForest(parents) && ToolNames(labels) == ["tool.b", "tool.a"]
    ensures NamesOf(ToolCalls(WalkAll(Forest(parents, labels)))) == ["tool.a", "tool.b"]
  {
    CrossedNames(labels);
    CrossedWalk(parents);
    ToolCallsAreChosen(parents, labels);
    NamesOfTwo(parents, labels, 4, 3);
  }

  lemma NamesOfTwo(parents: seq<int>, labels: seq<Label>, i: int, j: int)
    requires IsForest(parents) && |labels| == |parents| && 0 <= i < |parents| && 0 <= j < |parents|
    ensures NamesOf(TreesAt(parents, labels, [i, j])) == [labels[i].name, labels[j].name]
  {
  }

  lemma CrossedNames(labels: seq<Label>)
    requires labels == [Label("turn", false), Label("node.a", false), Label("node.b", false),
                        Label("tool.b", false), Label("tool.a", false)]
    ensures ToolNames(labels) == ["tool.b", "tool.a"] && ToolIds(labels) == {3, 4}
  {
    assert "turn"[1] != TOOL_PREFIX[1] && "node.a"[0] != TOOL_PREFIX[0] && "node.b"[0] != TOOL_PREFIX[0];
    assert !(TOOL_PREFIX <= "turn") && !(TOOL_PREFIX <= "node.a") && !(TOOL_PREFIX <= "node.b");
    assert TOOL_PREFIX <= "tool.b" && TOOL_PREFIX <= "tool.a";
    assert labels[4..][1..] == [] && ToolNames(labels[4..]) == ["tool.a"];
    assert labels[3..][1..] == labels[4..] && ToolNames(labels[3..]) == ["tool.b", "tool.a"];
    assert labels[2..][1..] == labels[3..] && ToolNames(labels[2..]) == ["tool.b", "tool.a"];
    assert labels[1..][1..] == labels[2..] && ToolNames(labels[1..]) == ["tool.b", "tool.a"];
  }

  lemma CrossedWalk(parents: seq<int>)
    requires parents == [-1, 0, 0, 2, 1]
    ensures IsForest(parents) && Chosen(Walked(parents), {3, 4}) == [4, 3]
  {
    var walk := Chosen(Walked(parents), {3, 4});
    assert Forked(parents, 4, 3) by {
      assert Holds(parents, 1, parents[4]) && Holds(parents, 2, parents[3]);
      assert parents[1] == parents[2] && Holds(parents, 1, 4) && Holds(parents, 2, 3);
    }
    PrecedesIsBefore(parents, 4, 3);
    ChosenBefore(Walked(parents), {3, 4}, 4, 3);
    WalkedFacts(parents);
    ChosenNoRepeats(Walked(parents), {3, 4});
    forall i ensures i in walk <==> i in [4, 3] { ChosenIsIn(Walked(parents), {3, 4}, i); }
    forall i, j | Before([4, 3], i, j) ensures Before(walk, i, j) {}
    OrderDecides([4, 3], walk);
  }

  predicate NoFailure(steps: seq<Step>)
    decreases steps, 0
  {
    steps == [] || (StepNoFailure(steps[0]) && NoFailure(steps[1..]))
  }

  predicate StepNoFailure(step: Step)
    decreases step, 1
  {
    match step
    case Block(_, body) => NoFailure(body)
    case Start(_, _) => true
    case Throw(error) => error == Abandoned
    case Catch(body) => NoFailure(body)
  }

  predicate Unmarked(labels: seq<Label>) {
    forall i | 0 <= i < |labels| :: !labels[i].failed
  }

  /** Abandoning a stream is no failure: it marks no span, however deep it strikes. */
  lemma {:induction false} AbandonmentMarksNothing(steps: seq<Step>, tape: Tape, cur: int)
    requires NoFailure(steps) && Fits(tape, cur) && Unmarked(tape.labels)
    ensures Unmarked(Run(steps, tape, cur).0.labels) && Run(steps, tape, cur).1 != Raised(Failure)
    decreases steps, 0
  {
    if steps != [] {
      AbandonedStepMarksNothing(steps[0], tape, cur);
      var (next, exit) := RunStep(steps[0], tape, cur);
      if exit.Normal? { AbandonmentMarksNothing(steps[1..], next, cur); }
    }
  }

  lemma {:induction false} AbandonedStepMarksNothing(step: Step, tape: Tape, cur: int)
    requires StepNoFailure(step) && Fits(tape, cur) && Unmarked(tape.labels)
    ensures Unmarked(RunStep(step, tape, cur).0.labels) && RunStep(step, tape, cur).1 != Raised(Failure)
    decreases step, 1
  {
    match step
    case Block(name, body) => AbandonmentMarksNothing(body, Open(tape, cur, name), |tape.parents|);
    case Start(_, _) =>
    case Throw(_) =>
    case Catch(body) => AbandonmentMarksNothing(body, tape, cur);
  }

  // ---- What a failure marks --------------------------------------------------------------------

  /** How a program ends, read off the program alone. */
  function Leaves(steps: seq<Step>): Exit
    decreases steps, 0
  {
    if steps == [] then Normal
    else if StepLeaves(steps[0]).Raised? then StepLeaves(steps[0])
    else Leaves(steps[1..])
  }

  function StepLeaves(step: Step): Exit
    decreases step, 1
  {
    match step
    case Block(_, body) => Leaves(body)
    case Start(_, _) => Normal
    case Throw(error) => Raised(error)
    case Catch(_) => Normal
  }

  /** What opened a span: a block with its body, or a manual open. */
  datatype Opener = ByBlock(body: seq<Step>) | ByHand

  /** The openers of the spans a program opens, in order. */
  function Openers(steps: seq<Step>): seq<Opener>
    decreases steps, 0
  {
    if steps == [] then []
    else StepOpeners(steps[0]) + if StepLeaves(steps[0]).Raised? then [] else Openers(steps[1..])
  }

  function StepOpeners(step: Step): seq<Opener>
    decreases step, 1
  {
    match step
    case Block(_, body) => [ByBlock(body)] + Openers(body)
    case Start(_, _) => [ByHand]
    case Throw(_) => []
    case Catch(body) => Openers(body)
  }

  /** Only a block whose body was left by a failure is struck. */
  predicate Struck(opener: Opener) {
    opener.ByBlock? && Leaves(opener.body) == Raised(Failure)
  }

  /** The labels before, and one per opener, failed exactly if struck. */
  ghost predicate MarkedFrom(before: seq<Label>, after: seq<Label>, openers: seq<Opener>) {
    && |after| == |before| + |openers| && after[..|before|] == before
    && forall i | 0 <= i < |openers| :: after[|before| + i].failed <==> Struck(openers[i])
  }

  lemma MarkedOn(a: seq<Label>, b: seq<Label>, c: seq<Label>, first: seq<Opener>, then': seq<Opener>)
    requires MarkedFrom(a, b, first) && MarkedFrom(b, c, then')
    ensures MarkedFrom(a, c, first + then')
  {
    assert c[..|a|] == b[..|a|];
    forall i | 0 <= i < |first + then'| ensures c[|a| + i].failed <==> Struck((first + then')[i]) {
      if i < |first| { assert c[|a| + i] == b[|a| + i]; } else { assert (first + then')[i] == then'[i - |first|]; }
    }
  }

  /** A program ends as it says, and of the spans it opens exactly those are marked failed that were
      opened by a block whose body left with a failure: siblings, manual opens, catches and spans
      from before stay as they are. */
  lemma {:induction false} FailureMarksExactly(steps: seq<Step>, tape: Tape, cur: int)
    requires Fits(tape, cur)
    ensures var (after, exit) := Run(steps, tape, cur);
            exit == Leaves(steps) && MarkedFrom(tape.labels, after.labels, Openers(steps))
    decreases steps, 0
  {
    if steps != [] {
      var (next, exit) := RunStep(steps[0], tape, cur);
      FailureMarksInStep(steps[0], tape, cur);
      if exit.Normal? {
        FailureMarksExactly(steps[1..], next, cur);
        var last := Run(steps[1..], next, cur).0;
        MarkedOn(tape.labels, next.labels, last.labels, StepOpeners(steps[0]), Openers(steps[1..]));
      } else {
        assert Openers(steps) == StepOpeners(steps[0]);
      }
    } else {
      assert tape.labels[..|tape.labels|] == tape.labels;
    }
  }

  lemma {:induction false} FailureMarksInStep(step: Step, tape: Tape, cur: int)
    requires Fits(tape, cur)
    ensures var (after, exit) := RunStep(step, tape, cur);
            exit == StepLeaves(step) && MarkedFrom(tape.labels, after.labels, StepOpeners(step))
    decreases step, 1
  {
    match step
    case Block(name, body) =>
      var inside := Open(tape, cur, name);
      FailureMarksExactly(body, inside, |tape.parents|);
      BlockMarked(name, body, tape.labels, Run(body, inside, |tape.parents|).0);
    case Start(name, under) =>
    case Throw(_) =>
      assert tape.labels[..|tape.labels|] == tape.labels;
    case Catch(body) =>
      FailureMarksExactly(body, tape, cur);
  }

  lemma BlockMarked(name: string, body: seq<Step>, labels: seq<Label>, inner: Tape)
    requires MarkedFrom(labels + [Label(name, false)], inner.labels, Openers(body))
    ensures var after := if Leaves(body) == Raised(Failure) then MarkFailed(inner, |labels|) else inner;
            MarkedFrom(labels, after.labels, [ByBlock(body)] + Openers(body))
  {
    var n := |labels|;
    var after := if Leaves(body) == Raised(Failure) then MarkFailed(inner, n) else inner;
    assert inner.labels[..n + 1][..n] == labels && inner.labels[..n + 1][n] == Label(name, false);
    assert after.labels[..n] == inner.labels[..n] == labels;
    forall i | 0 <= i < 1 + |Openers(body)|
      ensures after.labels[n + i].failed <==> Struck(([ByBlock(body)] + Openers(body))[i])
    {
      if i > 0 { assert after.labels[n + i] == inner.labels[n + 1 + (i - 1)]; }
    }
  }
}
