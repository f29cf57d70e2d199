/** Several tasks recording at once: whatever the interleaving, each task's spans hang together as if
    it had been alone. */
module Interleaving {
  import opened SpanForest
  import opened Recorder
  import opened RecorderRuns

  /** What one task does in one go. */
  datatype Op = EnterBlock(name: string) | ExitBlock(exit: Exit) | OpenSpan(name: string, under: Under)

  datatype Event = Act(task: nat, op: Op) | Spawn(task: nat, child: nat)

  /** An open block: its span and the span that was current before. */
  datatype Frame = Frame(span: int, token: int)

  /** A task: the span it inherited, its current one, its open blocks, the spans it opened. */
  datatype Task = Task(base: int, cur: int, frames: seq<Frame>, mine: seq<int>)

  function Newborn(base: int): Task {
    Task(base, base, [], [])
  }

  /** All tasks write on one tape. */
  datatype World = World(tape: Tape, tasks: map<nat, Task>)

  function TaskOf(w: World, task: nat): Task {
    if task in w.tasks then w.tasks[task] else Newborn(-1)
  }

  /** One op of one task; leaving without an open block does nothing. */
  function Do(tape: Tape, t: Task, op: Op): (Tape, Task) {
    var n := |tape.parents|;
    match op
    case EnterBlock(name) =>
      (Open(tape, t.cur, name), t.(cur := n, frames := t.frames + [Frame(n, t.cur)], mine := t.mine + [n]))
    case ExitBlock(exit) =>
      if t.frames == [] then (tape, t)
      else
        var f := t.frames[|t.frames| - 1];
        (if exit == Raised(Failure) && 0 <= f.span < |tape.labels| then MarkFailed(tape, f.span) else tape,
         t.(cur := f.token, frames := t.frames[..|t.frames| - 1]))
    case OpenSpan(name, under) =>
      var p := if under.Explicit? && under.span < |t.mine| then t.mine[under.span] else t.cur;
      (Open(tape, p, name), t.(mine := t.mine + [n]))
  }

  /** A spawned task starts from a copy of its creator's current span; ids are not used twice. */
  function Next(w: World, e: Event): World {
    match e
    case Act(task, op) =>
      var (tape, t) := Do(w.tape, TaskOf(w, task), op);
      World(tape, w.tasks[task := t])
    case Spawn(task, child) =>
      if child in w.tasks || child == task then w
      else
        w.(tasks := w.tasks[task := TaskOf(w, task)][child := Newborn(TaskOf(w, task).cur)])
  }

  function After(events: seq<Event>): World {
    if events == [] then World(Tape([], []), map[]) else Next(After(events[..|events| - 1]), events[|events| - 1])
  }

  // ---- One task by itself ------------------------------------------------------------------------

  /** The task's own ops. */
  function Own(events: seq<Event>, task: nat): seq<Op> {
    if events == [] then []
    else
      var e := events[|events| - 1];
      Own(events[..|events| - 1], task) + if e.Act? && e.task == task then [e.op] else []
  }

  function DoAll(tape: Tape, t: Task, ops: seq<Op>): (Tape, Task)
    decreases |ops|
  {
    if ops == [] then (tape, t)
    else
      var (tape', t') := DoAll(tape, t, ops[..|ops| - 1]);
      Do(tape', t', ops[|ops| - 1])
  }

  /** The ops on a tape of their own. */
  function Alone(ops: seq<Op>): (Tape, Task) {
    DoAll(Tape([], []), Newborn(-1), ops)
  }

  /** A place on the private tape, as a place on the shared one. */
  function Shared(t: Task, i: int): int {
    if 0 <= i < |t.mine| then t.mine[i] else t.base
  }

  function SharedAll(t: Task, frames: seq<Frame>): (shared: seq<Frame>)
    ensures |shared| == |frames|
  {
    seq(|frames|, i requires 0 <= i < |frames| => Frame(Shared(t, frames[i].span), Shared(t, frames[i].token)))
  }

  /** A task that is well on its tape: it knows spans that are there, and holds some of its own. */
  ghost predicate Placed(tape: Tape, t: Task) {
    && |tape.labels| == |tape.parents|
    && (forall i | 0 <= i < |t.mine| :: 0 <= t.mine[i] < |tape.parents|)
    && (forall i, j | 0 <= i < j < |t.mine| :: t.mine[i] < t.mine[j])
    && -1 <= t.base < |tape.parents| && (t.cur == t.base || t.cur in t.mine)
    && (forall i | 0 <= i < |t.frames| ::
          t.frames[i].span in t.mine && (t.frames[i].token == t.base || t.frames[i].token in t.mine))
  }

  /** A task by itself owns the whole tape. */
  ghost predicate Solitary(tape: Tape, t: Task) {
    && Placed(tape, t) && IsForest(tape.parents) && t.base == -1
    && |t.mine| == |tape.parents| && forall i | 0 <= i < |t.mine| :: t.mine[i] == i
  }

  /** The shared task looks like the lone one: same opens, same places, same failures. */
  ghost predicate Mirrors(tape: Tape, t: Task, lone: Tape, l: Task) {
    && Placed(tape, t) && Solitary(lone, l)
    && |t.mine| == |l.mine| && t.cur == Shared(t, l.cur) && t.frames == SharedAll(t, l.frames)
    && forall i | 0 <= i < |t.mine| ::
         tape.parents[t.mine[i]] == Shared(t, lone.parents[i]) && tape.labels[t.mine[i]] == lone.labels[i]
  }

  lemma DoStaysPlaced(tape: Tape, t: Task, op: Op)
    requires Placed(tape, t)
    ensures Placed(Do(tape, t, op).0, Do(tape, t, op).1)
    ensures |tape.parents| <= |Do(tape, t, op).0.parents|
  {
    match op
    case EnterBlock(name) =>
      assert (t.mine + [|tape.parents|])[|t.mine|] == |tape.parents|;
      forall i ensures i in t.mine ==> i in t.mine + [|tape.parents|] {}
    case ExitBlock(exit) =>
    case OpenSpan(name, under) =>
      forall i ensures i in t.mine ==> i in t.mine + [|tape.parents|] {}
  }

  // ---- Nobody disturbs anybody -------------------------------------------------------------------

  ghost predicate Apart(t: Task, u: Task) {
    forall i | i in t.mine :: i !in u.mine
  }

  /** What an op of `u` leaves alone: all links, and the labels of spans that are not its own. */
  lemma DoLeavesAlone(tape: Tape, u: Task, op: Op)
    requires Placed(tape, u)
    ensures var tape' := Do(tape, u, op).0;
            && tape.parents <= tape'.parents
            && |tape'.labels| == |tape'.parents|
            && forall i | 0 <= i < |tape.labels| && i !in u.mine :: tape'.labels[i] == tape.labels[i]
  {
  }

  lemma OthersMirror(tape: Tape, t: Task, lone: Tape, l: Task, u: Task, op: Op)
    requires Mirrors(tape, t, lone, l) && Placed(tape, u) && Apart(t, u)
    ensures Mirrors(Do(tape, u, op).0, t, lone, l)
  {
    DoLeavesAlone(tape, u, op);
    var tape' := Do(tape, u, op).0;
    forall i | 0 <= i < |t.mine|
      ensures tape'.parents[t.mine[i]] == Shared(t, lone.parents[i]) && tape'.labels[t.mine[i]] == lone.labels[i]
    {
      assert t.mine[i] in t.mine;
    }
  }

  lemma DoKeepsApart(tape: Tape, t: Task, u: Task, op: Op)
    requires Placed(tape, t) && Placed(tape, u) && Apart(t, u)
    ensures Apart(t, Do(tape, u, op).1) && Placed(Do(tape, u, op).0, t)
    ensures Apart(Do(tape, u, op).1, t)
  {
    var u' := Do(tape, u, op).1;
    DoLeavesAlone(tape, u, op);
    forall i | i in t.mine ensures i !in u'.mine && i < |tape.parents| {
      assert i !in u.mine;
      assert i in u'.mine ==> i in u.mine || i == |tape.parents|;
    }
  }

  // ---- A task mirrors its lone self ----------------------------------------------------------------

  lemma SolitaryBounds(tape: Tape, t: Task)
    requires Solitary(tape, t)
    ensures t.cur < |tape.parents|
    ensures forall i | 0 <= i < |t.frames| :: t.frames[i].span < |tape.parents| && t.frames[i].token < |tape.parents|
  {
  }

  /** Places keep their meaning when the task opens one more span. */
  lemma SharedOn(t: Task, n: int, frames: seq<Frame>)
    requires forall i | 0 <= i < |frames| :: frames[i].span < |t.mine| && frames[i].token < |t.mine|
    ensures forall i | i < |t.mine| :: Shared(t.(mine := t.mine + [n]), i) == Shared(t, i)
    ensures SharedAll(t.(mine := t.mine + [n]), frames) == SharedAll(t, frames)
  {
  }

  lemma OpenMirrors(tape: Tape, t: Task, lone: Tape, l: Task, p: int, q: int, name: string)
    requires Mirrors(tape, t, lone, l) && -1 <= q < |lone.parents| && p == Shared(t, q)
    ensures var t', l' := t.(mine := t.mine + [|tape.parents|]), l.(mine := l.mine + [|lone.parents|]);
            && Mirrors(Open(tape, p, name), t', Open(lone, q, name), l')
            && Shared(t', |lone.parents|) == |tape.parents| && Shared(t', l.cur) == t.cur
  {
    var n, m := |tape.parents|, |lone.parents|;
    var tape', lone' := Open(tape, p, name), Open(lone, q, name);
    var t', l' := t.(mine := t.mine + [n]), l.(mine := l.mine + [m]);
    OpenStaysPlaced(tape, t, p, name);
    OpenStaysPlaced(lone, l, q, name);
    SolitaryBounds(lone, l);
    SharedOn(t, n, l.frames);
    forall i | 0 <= i < |t'.mine|
      ensures tape'.parents[t'.mine[i]] == Shared(t', lone'.parents[i]) && tape'.labels[t'.mine[i]] == lone'.labels[i]
    {
      if i < |t.mine| {
        assert tape.parents[t.mine[i]] == Shared(t, lone.parents[i]);
      }
    }
  }

  lemma OpenStaysPlaced(tape: Tape, t: Task, p: int, name: string)
    requires Placed(tape, t)
    ensures Placed(Open(tape, p, name), t.(mine := t.mine + [|tape.parents|]))
  {
    var mine := t.mine + [|tape.parents|];
    forall i | i in t.mine ensures i in mine {}
  }

  /** Current span and open blocks may change in step. */
  lemma FramesMirror(tape: Tape, t: Task, lone: Tape, l: Task, t': Task, l': Task)
    requires Mirrors(tape, t, lone, l)
    requires t' == t.(cur := t'.cur, frames := t'.frames) && l' == l.(cur := l'.cur, frames := l'.frames)
    requires -1 <= l'.cur < |l.mine| && t'.cur == Shared(t, l'.cur)
    requires forall i | 0 <= i < |l'.frames| :: 0 <= l'.frames[i].span < |l.mine| && -1 <= l'.frames[i].token < |l.mine|
    requires t'.frames == SharedAll(t, l'.frames)
    ensures Mirrors(tape, t', lone, l')
  {
    assert forall i | 0 <= i < |l.mine| :: l.mine[i] == i && i in l.mine;
    assert forall i | 0 <= i < |t.mine| :: t.mine[i] in t.mine;
    assert SharedAll(t', l'.frames) == SharedAll(t, l'.frames);
    assert forall i :: Shared(t', i) == Shared(t, i);
  }

  lemma MarkMirrors(tape: Tape, t: Task, lone: Tape, l: Task, i: nat)
    requires Mirrors(tape, t, lone, l) && i < |t.mine|
    ensures Mirrors(MarkFailed(tape, t.mine[i]), t, MarkFailed(lone, i), l)
  {
    var tape', lone' := MarkFailed(tape, t.mine[i]), MarkFailed(lone, i);
    forall j | 0 <= j < |t.mine| ensures tape'.labels[t.mine[j]] == lone'.labels[j] {
      if j != i { assert t.mine[j] != t.mine[i]; }
    }
  }

  lemma FramesBounds(tape: Tape, t: Task, lone: Tape, l: Task)
    requires Mirrors(tape, t, lone, l)
    ensures -1 <= l.cur < |l.mine|
    ensures forall i | 0 <= i < |l.frames| :: 0 <= l.frames[i].span < |l.mine| && -1 <= l.frames[i].token < |l.mine|
  {
    SolitaryBounds(lone, l);
  }

  lemma EnterMirrors(tape: Tape, t: Task, lone: Tape, l: Task, name: string)
    requires Mirrors(tape, t, lone, l)
    ensures var (tape', t') := Do(tape, t, EnterBlock(name));
            var (lone', l') := Do(lone, l, EnterBlock(name));
            Mirrors(tape', t', lone', l')
  {
    var n, m := |tape.parents|, |lone.parents|;
    FramesBounds(tape, t, lone, l);
    OpenMirrors(tape, t, lone, l, t.cur, l.cur, name);
    var t1, l1 := t.(mine := t.mine + [n]), l.(mine := l.mine + [m]);
    var t2 := t1.(cur := n, frames := t.frames + [Frame(n, t.cur)]);
    var l2 := l1.(cur := m, frames := l.frames + [Frame(m, l.cur)]);
    SharedOn(t, n, l.frames);
    assert t2.frames == SharedAll(t1, l2.frames);
    FramesMirror(Open(tape, t.cur, name), t1, Open(lone, l.cur, name), l1, t2, l2);
  }

  lemma ExitMirrors(tape: Tape, t: Task, lone: Tape, l: Task, exit: Exit)
    requires Mirrors(tape, t, lone, l)
    ensures var (tape', t') := Do(tape, t, ExitBlock(exit));
            var (lone', l') := Do(lone, l, ExitBlock(exit));
            Mirrors(tape', t', lone', l')
  {
    if l.frames != [] {
      var k := |l.frames| - 1;
      var f, g := t.frames[k], l.frames[k];
      FramesBounds(tape, t, lone, l);
      assert f == Frame(Shared(t, g.span), Shared(t, g.token)) && f.span == t.mine[g.span];
      var t', l' := t.(cur := f.token, frames := t.frames[..k]), l.(cur := g.token, frames := l.frames[..k]);
      assert t'.frames == SharedAll(t, l'.frames);
      FramesMirror(tape, t, lone, l, t', l');
      if exit == Raised(Failure) { MarkMirrors(tape, t', lone, l', g.span); }
    }
  }

  lemma OpenSpanMirrors(tape: Tape, t: Task, lone: Tape, l: Task, name: string, under: Under)
    requires Mirrors(tape, t, lone, l)
    ensures var (tape', t') := Do(tape, t, OpenSpan(name, under));
            var (lone', l') := Do(lone, l, OpenSpan(name, under));
            Mirrors(tape', t', lone', l')
  {
    SolitaryBounds(lone, l);
    var q := if under.Explicit? && under.span < |l.mine| then l.mine[under.span] else l.cur;
    OpenMirrors(tape, t, lone, l, Shared(t, q), q, name);
  }

  /** Whatever a task does, its lone self does the same. */
  lemma DoMirrors(tape: Tape, t: Task, lone: Tape, l: Task, op: Op)
    requires Mirrors(tape, t, lone, l)
    ensures var (tape', t') := Do(tape, t, op);
            var (lone', l') := Do(lone, l, op);
            Mirrors(tape', t', lone', l')
  {
    match op
    case EnterBlock(name) => EnterMirrors(tape, t, lone, l, name);
    case ExitBlock(exit) => ExitMirrors(tape, t, lone, l, exit);
    case OpenSpan(name, under) => OpenSpanMirrors(tape, t, lone, l, name, under);
  }

  // ---- All tasks together --------------------------------------------------------------------------

  ghost predicate WorldOk(w: World) {
    && IsForest(w.tape.parents) && |w.tape.labels| == |w.tape.parents|
    && (forall task | task in w.tasks :: Placed(w.tape, w.tasks[task]))
    && (forall task, other | task in w.tasks && other in w.tasks && task != other :: Apart(w.tasks[task], w.tasks[other]))
  }

  lemma NewbornIsPlaced(tape: Tape, base: int)
    requires |tape.labels| == |tape.parents| && -1 <= base < |tape.parents|
    ensures Placed(tape, Newborn(base)) && Mirrors(tape, Newborn(base), Tape([], []), Newborn(-1))
  {
  }

  lemma PlacedCur(tape: Tape, t: Task)
    requires Placed(tape, t)
    ensures -1 <= t.cur < |tape.parents|
  {
  }

  lemma NextKeepsOk(w: World, e: Event)
    requires WorldOk(w)
    ensures WorldOk(Next(w, e))
  {
    match e
    case Act(task, op) => ActKeepsOk(w, task, op);
    case Spawn(task, child) =>
      NewbornIsPlaced(w.tape, -1);
      PlacedCur(w.tape, TaskOf(w, task));
      NewbornIsPlaced(w.tape, TaskOf(w, task).cur);
  }

  lemma ActKeepsOk(w: World, task: nat, op: Op)
    requires WorldOk(w)
    ensures WorldOk(Next(w, Act(task, op)))
  {
    var t := TaskOf(w, task);
    NewbornIsPlaced(w.tape, -1);
    DoStaysPlaced(w.tape, t, op);
    DoKeepsForest(w.tape, t, op);
    var w' := Next(w, Act(task, op));
    forall other | other in w.tasks && other != task
      ensures Placed(w'.tape, w.tasks[other])
      ensures Apart(w.tasks[other], w'.tasks[task]) && Apart(w'.tasks[task], w.tasks[other])
    {
      DoKeepsApart(w.tape, w.tasks[other], t, op);
    }
  }

  lemma DoKeepsForest(tape: Tape, t: Task, op: Op)
    requires Placed(tape, t) && IsForest(tape.parents)
    ensures IsForest(Do(tape, t, op).0.parents)
  {
    PlacedCur(tape, t);
  }

  /** Over every interleaving, with every spawning: the spans a task opened hang together, and are
      named and marked, as if it had run alone; only its outermost ones hang on what it inherited. */
  lemma {:induction false} TasksMirrorThemselves(events: seq<Event>, task: nat)
    ensures var w := After(events);
            var (lone, l) := Alone(Own(events, task));
            && WorldOk(w) && Mirrors(w.tape, TaskOf(w, task), lone, l)
            && (task !in w.tasks ==> Own(events, task) == [])
    decreases |events|
  {
    if events == [] {
      NewbornIsPlaced(Tape([], []), -1);
    } else {
      var before, e := events[..|events| - 1], events[|events| - 1];
      TasksMirrorThemselves(before, task);
      NextKeepsOk(After(before), e);
      NextMirrors(After(before), e, Own(before, task), task);
    }
  }

  lemma NextMirrors(w: World, e: Event, ops: seq<Op>, task: nat)
    requires WorldOk(w) && (task !in w.tasks ==> ops == [])
    requires var (lone, l) := Alone(ops); Mirrors(w.tape, TaskOf(w, task), lone, l)
    ensures var w' := Next(w, e);
            var ops' := ops + if e.Act? && e.task == task then [e.op] else [];
            var (lone, l) := Alone(ops');
            && Mirrors(w'.tape, TaskOf(w', task), lone, l) && (task !in w'.tasks ==> ops' == [])
  {
    var (lone, l) := Alone(ops);
    match e
    case Act(other, op) =>
      if other == task {
        assert (ops + [op])[..|ops|] == ops;
        DoMirrors(w.tape, TaskOf(w, task), lone, l, op);
      } else {
        assert ops + [] == ops;
        OtherActMirrors(w, other, op, task, lone, l);
      }
    case Spawn(other, child) =>
      assert ops + [] == ops;
      SpawnMirrors(w, other, child, task, lone, l);
  }

  lemma OtherActMirrors(w: World, other: nat, op: Op, task: nat, lone: Tape, l: Task)
    requires WorldOk(w) && other != task && Mirrors(w.tape, TaskOf(w, task), lone, l)
    ensures var w' := Next(w, Act(other, op)); Mirrors(w'.tape, TaskOf(w', task), lone, l)
  {
    NewbornIsPlaced(w.tape, -1);
    OthersMirror(w.tape, TaskOf(w, task), lone, l, TaskOf(w, other), op);
  }

  /** A spawning changes nobody but the child, which has done nothing yet. */
  lemma SpawnMirrors(w: World, other: nat, child: nat, task: nat, lone: Tape, l: Task)
    requires WorldOk(w) && Mirrors(w.tape, TaskOf(w, task), lone, l)
    requires task !in w.tasks ==> (lone, l) == (Tape([], []), Newborn(-1))
    ensures var w' := Next(w, Spawn(other, child)); Mirrors(w'.tape, TaskOf(w', task), lone, l)
  {
    SpawnedTask(w, other, child, task);
    if child == task && child !in w.tasks && child != other {
      NewbornIsPlaced(w.tape, -1);
      PlacedCur(w.tape, TaskOf(w, other));
      NewbornIsPlaced(w.tape, TaskOf(w, other).cur);
    }
  }

  lemma SpawnedTask(w: World, other: nat, child: nat, task: nat)
    ensures var w' := Next(w, Spawn(other, child));
            && w'.tape == w.tape
            && TaskOf(w', task) == if child == task && child !in w.tasks && child != other
                                   then Newborn(TaskOf(w, other).cur) else TaskOf(w, task)
  {
  }

  // ---- Tasks that run programs ---------------------------------------------------------------------

  /** A program as the ops it comes to. */
  function Ops(steps: seq<Step>): seq<Op>
    decreases steps, 0
  {
    if steps == [] then [] else StepOps(steps[0]) + if StepLeaves(steps[0]).Raised? then [] else Ops(steps[1..])
  }

  function StepOps(step: Step): seq<Op>
    decreases step, 1
  {
    match step
    case Block(name, body) => [EnterBlock(name)] + Ops(body) + [ExitBlock(Leaves(body))]
    case Start(name, under) => [OpenSpan(name, under)]
    case Throw(_) => []
    case Catch(body) => Ops(body)
  }

  lemma {:induction false} DoAllOn(tape: Tape, t: Task, a: seq<Op>, b: seq<Op>)
    ensures var (tape', t') := DoAll(tape, t, a); DoAll(tape, t, a + b) == DoAll(tape', t', b)
    decreases |b|
  {
    if b == [] {
      assert a + b == a;
    } else {
      DoAllOn(tape, t, a, b[..|b| - 1]);
      assert (a + b)[..|a + b| - 1] == a + b[..|b| - 1];
    }
  }

  lemma DoAllOne(tape: Tape, t: Task, op: Op)
    ensures DoAll(tape, t, [op]) == Do(tape, t, op)
  {
    assert [op][..0] == [];
  }

  /** The first `n` places, all a lone task's own. */
  function Places(n: nat): (places: seq<int>)
    ensures |places| == n && forall i | 0 <= i < n :: places[i] == i
  {
    seq(n, i => i)
  }

  /** Where a program leaves a lone task: on the tape of the program, with the current span and the
      open blocks it had. */
  ghost predicate Ran(tape: Tape, t: Task, ops: seq<Op>, after: Tape) {
    var t' := t.(mine := Places(|after.parents|));
    DoAll(tape, t, ops) == (after, t') && Solitary(after, t')
  }

  lemma {:induction false} ProgramAlone(steps: seq<Step>, tape: Tape, t: Task)
    requires Solitary(tape, t)
    ensures Fits(tape, t.cur) && Run(steps, tape, t.cur).1 == Leaves(steps)
    ensures Ran(tape, t, Ops(steps), Run(steps, tape, t.cur).0)
    decreases steps, 0
  {
    SolitaryBounds(tape, t);
    PlacedCur(tape, t);
    FailureMarksExactly(steps, tape, t.cur);
    if steps == [] {
      assert t.mine == Places(|tape.parents|);
    } else {
      var (next, exit) := RunStep(steps[0], tape, t.cur);
      var t1 := t.(mine := Places(|next.parents|));
      StepAlone(steps[0], tape, t);
      var rest := if exit.Raised? then [] else Ops(steps[1..]);
      DoAllOn(tape, t, StepOps(steps[0]), rest);
      if exit.Normal? {
        ProgramAlone(steps[1..], next, t1);
        assert t1.(mine := Places(|Run(steps[1..], next, t.cur).0.parents|))
            == t.(mine := Places(|Run(steps[1..], next, t.cur).0.parents|));
      }
    }
  }

  lemma {:induction false} StepAlone(step: Step, tape: Tape, t: Task)
    requires Solitary(tape, t)
    ensures Fits(tape, t.cur) && RunStep(step, tape, t.cur).1 == StepLeaves(step)
    ensures Ran(tape, t, StepOps(step), RunStep(step, tape, t.cur).0)
    decreases step, 1
  {
    SolitaryBounds(tape, t);
    PlacedCur(tape, t);
    FailureMarksInStep(step, tape, t.cur);
    match step
    case Block(name, body) => BlockAlone(name, body, tape, t);
    case Start(name, under) =>
      DoAllOne(tape, t, OpenSpan(name, under));
      OneMoreOpen(tape, t, if under.Explicit? && under.span < |tape.parents| then under.span else t.cur, name);
    case Throw(_) =>
      assert t.mine == Places(|tape.parents|);
    case Catch(body) => ProgramAlone(body, tape, t);
  }

  lemma OneMoreOpen(tape: Tape, t: Task, p: int, name: string)
    requires Solitary(tape, t) && -1 <= p < |tape.parents|
    ensures t.mine + [|tape.parents|] == Places(|tape.parents| + 1)
    ensures Solitary(Open(tape, p, name), t.(mine := t.mine + [|tape.parents|]))
  {
    OpenStaysPlaced(tape, t, p, name);
    ForestGrows(tape.parents, p);
  }

  lemma {:induction false} BlockAlone(name: string, body: seq<Step>, tape: Tape, t: Task)
    requires Solitary(tape, t)
    ensures Fits(tape, t.cur) && Ran(tape, t, StepOps(Block(name, body)), RunStep(Block(name, body), tape, t.cur).0)
    decreases Block(name, body), 0
  {
    var n := |tape.parents|;
    SolitaryBounds(tape, t);
    PlacedCur(tape, t);
    var inside := Open(tape, t.cur, name);
    var entered := t.(cur := n, frames := t.frames + [Frame(n, t.cur)], mine := t.mine + [n]);
    OneMoreOpen(tape, t, t.cur, name);
    DoStaysPlaced(tape, t, EnterBlock(name));
    DoAllOne(tape, t, EnterBlock(name));
    ProgramAlone(body, inside, entered);
    var inner := Run(body, inside, n).0;
    var returned := entered.(mine := Places(|inner.parents|));
    DoAllOn(tape, t, [EnterBlock(name)], Ops(body));
    DoAllOn(tape, t, [EnterBlock(name)] + Ops(body), [ExitBlock(Leaves(body))]);
    DoAllOne(inner, returned, ExitBlock(Leaves(body)));
    DoStaysPlaced(inner, returned, ExitBlock(Leaves(body)));
    assert entered.frames[..|t.frames|] == t.frames;
  }

  /** Tasks that each run a program, spawned and interleaved in any way: every task's spans have the
      parents and the marks its own program gives them, its outermost ones hang on the span that was
      current where it was spawned, and in the end it has that span back. */
  lemma TasksRunTheirOwnPrograms(events: seq<Event>, task: nat, steps: seq<Step>)
    requires Own(events, task) == Ops(steps)
    ensures var w, t := After(events), TaskOf(After(events), task);
            var lone := Run(steps, Tape([], []), -1).0;
            && IsForest(w.tape.parents) && |w.tape.labels| == |w.tape.parents|
            && |t.mine| == |lone.parents| == |lone.labels| && t.cur == t.base && t.frames == []
            && forall i | 0 <= i < |t.mine| ::
                 && 0 <= t.mine[i] < |w.tape.parents|
                 && w.tape.parents[t.mine[i]] == Shared(t, lone.parents[i])
                 && w.tape.labels[t.mine[i]] == lone.labels[i]
  {
    TasksMirrorThemselves(events, task);
    NewbornIsPlaced(Tape([], []), -1);
    ProgramAlone(steps, Tape([], []), Newborn(-1));
  }
}
