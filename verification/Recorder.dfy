/** The in-memory recorder: a mutable span tree built by blocks and by manual opens, frozen to be
    read. */
module Recorder {
  import opened SpanForest

  datatype SpanNode = SpanNode(name: string, failed: bool, children: seq<SpanNode>)

  datatype Label = Label(name: string, failed: bool)

  datatype Error = Failure | Abandoned
  datatype Exit = Normal | Raised(error: Error)

  // ---- The frozen tree, from parent links --------------------------------------------------------

  ghost function TreeOf(parents: seq<int>, labels: seq<Label>, i: int): SpanNode
    requires IsForest(parents) && |labels| == |parents| && 0 <= i < |parents|
    decreases |parents| - i, 1, 0
  {
    SpanNode(labels[i].name, labels[i].failed, TreesOf(parents, labels, ChildrenOf(parents, i), i))
  }

  ghost function TreesOf(parents: seq<int>, labels: seq<Label>, kids: seq<int>, lo: int): (trees: seq<SpanNode>)
    requires IsForest(parents) && |labels| == |parents| && -1 <= lo < |parents| && Above(parents, kids, lo)
    ensures |trees| == |kids|
    decreases |parents| - lo, 0, |kids|
  {
    if kids == [] then []
    else [TreeOf(parents, labels, kids[0])] + TreesOf(parents, labels, kids[1..], lo)
  }

  /** All roots, frozen. */
  ghost function Forest(parents: seq<int>, labels: seq<Label>): seq<SpanNode>
    requires IsForest(parents) && |labels| == |parents|
  {
    TreesOf(parents, labels, ChildrenOf(parents, -1), -1)
  }

  /** A node, then each descendant: parents first, depth first. */
  function Walk(node: SpanNode): seq<SpanNode> {
    [node] + WalkAll(node.children)
  }

  function WalkAll(nodes: seq<SpanNode>): seq<SpanNode> {
    if nodes == [] then [] else Walk(nodes[0]) + WalkAll(nodes[1..])
  }

  const TOOL_PREFIX := "tool."

  function ToolCalls(nodes: seq<SpanNode>): seq<SpanNode> {
    if nodes == [] then []
    else (if TOOL_PREFIX <= nodes[0].name then [nodes[0]] else []) + ToolCalls(nodes[1..])
  }

  // ---- The recorder ------------------------------------------------------------------------------

  class Recording {
    const name: string
    var failed: bool
    var children: seq<Recording>

    constructor (name: string)
      ensures this.name == name && !failed && children == []
    {
      this.name, failed, children := name, false, [];
    }
  }

  function Pick(log: seq<Recording>, kids: seq<int>): (picked: seq<Recording>)
    requires forall j | 0 <= j < |kids| :: 0 <= kids[j] < |log|
    ensures |picked| == |kids| && forall j | 0 <= j < |kids| :: picked[j] == log[kids[j]]
  {
    seq(|kids|, j requires 0 <= j < |kids| => log[kids[j]])
  }

  /** The place of a span in the log; -1 for none. */
  ghost function Index(log: seq<Recording>, r: Recording?): (i: int)
    ensures r != null && r in log ==> 0 <= i < |log| && log[i] == r
    ensures r == null ==> i == -1
  {
    if r != null && r in log then (var i :| 0 <= i < |log| && log[i] == r; i) else -1
  }

  /** A new record lengthens its parent's children by itself, and nobody else's. */
  lemma LinksGrow(log: seq<Recording>, record: Recording, parents: seq<int>, p: int, i: int)
    requires IsForest(parents) && |log| == |parents| && -1 <= p < |log| && -1 <= i <= |log|
    ensures IsForest(parents + [p])
    ensures Pick(log + [record], ChildrenOf(parents + [p], i))
         == (if i < |log| then Pick(log, ChildrenOf(parents, i)) else []) + if i == p then [record] else []
  {
    ForestGrows(parents, p);
    ChildrenGrow(parents, p, i);
    if i == |log| { NoChildrenYet(parents + [p]); }
  }

  class RecordingObserver {
    var roots: seq<Recording>
    /** Each task's current span; a task that is not there has none. */
    var current: map<nat, Recording>
    var traced: bool
    /** Every span in the order of opening, and the place of its parent. */
    ghost var log: seq<Recording>
    ghost var parents: seq<int>

    ghost predicate Valid()
      reads this, log
    {
      && IsForest(parents) && |log| == |parents|
      && (forall i, j | 0 <= i < j < |log| :: log[i] != log[j])
      && roots == Pick(log, ChildrenOf(parents, -1))
      && (forall i | 0 <= i < |log| :: log[i].children == Pick(log, ChildrenOf(parents, i)))
      && (forall t | t in current :: current[t] in log)
      && traced == (log != [])
    }

    ghost function Labels(): (labels: seq<Label>)
      reads this, log
      ensures |labels| == |log|
    {
      seq(|log|, i requires 0 <= i < |log| reads this, log => Label(log[i].name, log[i].failed))
    }

    function Current(task: nat): Recording?
      reads this
    {
      if task in current then current[task] else null
    }

    constructor ()
      ensures Valid() && log == [] && parents == [] && current == map[] && !traced
    {
      roots, current, traced, log, parents := [], map[], false, [], [];
    }

    /** What `span` and `start_span` share: a new record under its parent, or as a root. */
    method Record(name: string, parent: Recording?) returns (record: Recording)
      requires Valid() && (parent != null ==> parent in log)
      modifies this, if parent == null then {} else {parent}
      ensures Valid() && fresh(record) && record.name == name && !record.failed
      ensures log == old(log) + [record] && parents == old(parents) + [Index(old(log), parent)]
      ensures current == old(current) && Labels() == old(Labels()) + [Label(name, false)]
    {
      record := new Recording(name);
      ghost var labels := Labels();
      Attach(record, parent);
      assert Labels() == labels + [Label(name, false)];
    }

    method Attach(record: Recording, parent: Recording?)
      requires Valid() && (parent != null ==> parent in log) && record !in log && record.children == []
      modifies this, if parent == null then {} else {parent}
      ensures Valid() && current == old(current)
      ensures log == old(log) + [record] && parents == old(parents) + [Index(old(log), parent)]
      ensures parent != null ==> parent.failed == old(parent.failed)
    {
      ghost var p := Index(log, parent);
      ghost var n := |log|;
      LinksGrow(log, record, parents, p, -1);
      forall i | 0 <= i <= n
        ensures Pick(log + [record], ChildrenOf(parents + [p], i))
             == (if i < n then log[i].children else []) + if i == p then [record] else []
      {
        LinksGrow(log, record, parents, p, i);
      }
      if parent == null {
        roots := roots + [record];
        traced := true;
      } else {
        parent.children := parent.children + [record];
      }
      log := log + [record];
      parents := parents + [p];
    }

    /** `span`, on the way in: the new span becomes its task's current one. */
    method Enter(task: nat, name: string) returns (record: Recording, token: Recording?)
      requires Valid()
      modifies this, if Current(task) == null then {} else {Current(task)}
      ensures Valid() && fresh(record) && record.name == name
      ensures token == old(Current(task)) && current == old(current)[task := record]
      ensures log == old(log) + [record] && parents == old(parents) + [Index(old(log), token)]
      ensures Labels() == old(Labels()) + [Label(name, false)]
    {
      token := Current(task);
      record := Record(name, token);
      current := current[task := record];
    }

    /** `span`, on the way out: only a failure marks it, and its task gets back the span it had. */
    method Leave(task: nat, record: Recording, token: Recording?, exit: Exit)
      requires Valid() && record in log && (token != null ==> token in log)
      modifies this, record
      ensures Valid() && log == old(log) && parents == old(parents)
      ensures current == if token == null then old(current) - {task} else old(current)[task := token]
      ensures Labels() == if exit == Raised(Failure)
                          then old(Labels())[Index(log, record) := Label(record.name, true)] else old(Labels())
    {
      ghost var labels := Labels();
      if exit == Raised(Failure) {
        record.failed := true;
        assert forall i | 0 <= i < |log| && i != Index(log, record) :: log[i] != record;
        assert Labels() == labels[Index(log, record) := Label(record.name, true)];
      }
      current := if token == null then current - {task} else current[task := token];
      assert exit != Raised(Failure) ==> Labels() == labels;
    }

    /** `start_span`: a new span under `parent`, or under the current one; it does not become current. */
    method StartSpan(task: nat, name: string, parent: Recording?) returns (record: Recording)
      requires Valid() && (parent != null ==> parent in log)
      modifies this, log
      ensures Valid() && fresh(record) && record.name == name && current == old(current)
      ensures log == old(log) + [record]
      ensures parents == old(parents) + [Index(old(log), if parent != null then parent else old(Current(task)))]
      ensures Labels() == old(Labels()) + [Label(name, false)]
    {
      record := Record(name, if parent != null then parent else Current(task));
    }

    /** A task begins with a copy of its creator's context. */
    method Fork(task: nat, child: nat)
      requires Valid()
      modifies this
      ensures Valid() && log == old(log) && parents == old(parents) && Labels() == old(Labels())
      ensures Current(child) == old(Current(task))
      ensures forall t: nat | t != child :: Current(t) == old(Current(t))
    {
      ghost var labels := Labels();
      current := if task in current then current[child := current[task]] else current - {child};
      assert Labels() == labels;
    }

    method Freeze(record: Recording, ghost i: int) returns (node: SpanNode)
      requires Valid() && 0 <= i < |log| && log[i] == record
      ensures node == TreeOf(parents, Labels(), i)
      ensures node.name == record.name && node.failed == record.failed && |node.children| == |record.children|
      decreases |log| - i, 1
    {
      var children := FreezeAll(record.children, ChildrenOf(parents, i), i);
      node := SpanNode(record.name, record.failed, children);
    }

    method FreezeAll(records: seq<Recording>, ghost kids: seq<int>, ghost lo: int) returns (nodes: seq<SpanNode>)
      requires Valid() && -1 <= lo < |log| && Above(parents, kids, lo) && records == Pick(log, kids)
      ensures nodes == TreesOf(parents, Labels(), kids, lo)
      decreases |log| - lo, 0
    {
      nodes := [];
      ghost var labels := Labels();
      ghost var trees := TreesOf(parents, labels, kids, lo);
      for n := 0 to |records|
        invariant nodes + TreesOf(parents, labels, kids[n..], lo) == trees
      {
        var node := Freeze(records[n], kids[n]);
        assert kids[n..][1..] == kids[n + 1..] && kids[n..][0] == kids[n];
        assert TreesOf(parents, labels, kids[n..], lo) == [node] + TreesOf(parents, labels, kids[n + 1..], lo);
        nodes := nodes + [node];
      }
      assert kids[|records|..] == [];
    }

    /** Every captured root, frozen. */
    method Roots() returns (nodes: seq<SpanNode>)
      requires Valid()
      ensures nodes == Forest(parents, Labels())
    {
      nodes := FreezeAll(roots, ChildrenOf(parents, -1), -1);
    }
  }
}
