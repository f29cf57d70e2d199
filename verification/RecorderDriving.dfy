/** The recorder itself, driven: by one task's program, and by many tasks at once. */
module RecorderDriving {
  import opened SpanForest
  import opened Recorder
  import opened RecorderRuns
  import opened Interleaving

  ghost function TapeOf(obs: RecordingObserver): Tape
    reads obs, obs.log
  {
    Tape(obs.parents, obs.Labels())
  }

  lemma IndexStays(log: seq<Recording>, more: seq<Recording>, r: Recording?)
    requires log <= more && forall i, j | 0 <= i < j < |more| :: more[i] != more[j]
    requires r != null ==> r in log
    ensures Index(more, r) == Index(log, r)
  {
    if r != null {
      var i := Index(log, r);
      assert more[i] == r;
      assert r in more;
    }
  }

  /** What performing a program leaves alone: the spans there were, and every task's current one. */
  twostate predicate Performed(obs: RecordingObserver, spans: seq<Recording>, new handed: seq<Recording>)
    reads obs, obs.log
  {
    && obs.Valid() && handed == obs.log && spans <= handed && obs.current == old(obs.current)
    && forall i | |spans| <= i < |handed| :: fresh(handed[i])
  }

  /** The recorder, driven by a program, records what the program says; every block gives back the
      current span it found, however it was left. */
  method PerformStep(obs: RecordingObserver, task: nat, step: Step, spans: seq<Recording>)
    returns (exit: Exit, handed: seq<Recording>)
    requires obs.Valid() && spans == obs.log
    modifies obs, spans
    ensures Performed(obs, spans, handed)
    ensures var cur := Index(spans, old(obs.Current(task)));
            Fits(old(TapeOf(obs)), cur) && (TapeOf(obs), exit) == RunStep(step, old(TapeOf(obs)), cur)
    decreases step, 1
  {
    match step {
      case Block(name, body) =>
        exit, handed := PerformBlock(obs, task, name, body, spans);
      case Start(name, under) =>
        var parent: Recording? := if under.Explicit? && under.span < |spans| then spans[under.span] else null;
        var record := obs.StartSpan(task, name, parent);
        exit, handed := Normal, spans + [record];
      case Throw(error) =>
        exit, handed := Raised(error), spans;
      case Catch(body) =>
        exit, handed := Perform(obs, task, body, spans);
        exit := Normal;
    }
  }

  method PerformBlock(obs: RecordingObserver, task: nat, name: string, body: seq<Step>, spans: seq<Recording>)
    returns (exit: Exit, handed: seq<Recording>)
    requires obs.Valid() && spans == obs.log
    modifies obs, spans
    ensures Performed(obs, spans, handed)
    ensures var cur := Index(spans, old(obs.Current(task)));
            && Fits(old(TapeOf(obs)), cur)
            && (TapeOf(obs), exit) == RunStep(Block(name, body), old(TapeOf(obs)), cur)
    decreases Block(name, body), 0
  {
    ghost var tape, before, n := TapeOf(obs), obs.current, |spans|;
    var record, token := EnterSpan(obs, task, name, spans);
    ContextRestored(before, task, record, token);
    exit, handed := PerformInside(obs, task, body, spans, record);
    ghost var inner := TapeOf(obs);
    LeaveSpan(obs, task, record, token, exit, spans, n);
    BlockRuns(name, body, tape, Index(spans, token), inner, exit);
  }

  method PerformInside(obs: RecordingObserver, task: nat, body: seq<Step>, spans: seq<Recording>, record: Recording)
    returns (exit: Exit, handed: seq<Recording>)
    requires obs.Valid() && spans + [record] == obs.log && Index(obs.log, record) == |spans|
    requires obs.Current(task) == record
    modifies obs, spans, record
    ensures Performed(obs, spans + [record], handed) && Index(obs.log, record) == |spans|
    ensures Fits(old(TapeOf(obs)), |spans|) && (TapeOf(obs), exit) == Run(body, old(TapeOf(obs)), |spans|)
    decreases body, 1
  {
    exit, handed := Perform(obs, task, body, spans + [record]);
    assert handed[|spans|] == record;
    IndexStays(spans + [record], handed, record);
  }

  method EnterSpan(obs: RecordingObserver, task: nat, name: string, ghost spans: seq<Recording>)
    returns (record: Recording, token: Recording?)
    requires obs.Valid() && spans == obs.log
    modifies obs, spans
    ensures obs.Valid() && fresh(record) && obs.log == spans + [record] && Index(obs.log, record) == |spans|
    ensures token == old(obs.Current(task)) && obs.current == old(obs.current)[task := record]
    ensures token != null ==> token in spans
    ensures TapeOf(obs) == Open(old(TapeOf(obs)), Index(spans, token), name)
  {
    record, token := obs.Enter(task, name);
    assert obs.log[|spans|] == record;
  }

  lemma ContextRestored(before: map<nat, Recording>, task: nat, record: Recording, token: Recording?)
    requires token == if task in before then before[task] else null
    ensures before == if token == null then before[task := record] - {task} else before[task := record][task := token]
  {
  }

  method LeaveSpan(obs: RecordingObserver, task: nat, record: Recording, token: Recording?, exit: Exit,
                    ghost spans: seq<Recording>, ghost n: nat)
    requires obs.Valid() && spans + [record] <= obs.log && n == |spans| && Index(obs.log, record) == n
    requires token != null ==> token in spans
    modifies obs, record
    ensures obs.Valid() && obs.log == old(obs.log)
    ensures obs.current == if token == null then old(obs.current) - {task} else old(obs.current)[task := token]
    ensures Fits(old(TapeOf(obs)), n)
    ensures TapeOf(obs) == if exit == Raised(Failure) then MarkFailed(old(TapeOf(obs)), n) else old(TapeOf(obs))
  {
    assert obs.log[n] == record;
    if token != null {
      ghost var i :| 0 <= i < |spans| && spans[i] == token;
      assert obs.log[i] == token;
    }
    obs.Leave(task, record, token, exit);
  }

  lemma BlockRuns(name: string, body: seq<Step>, tape: Tape, cur: int, inner: Tape, exit: Exit)
    requires Fits(tape, cur) && Run(body, Open(tape, cur, name), |tape.parents|) == (inner, exit)
    ensures |tape.parents| < |inner.labels|
    ensures RunStep(Block(name, body), tape, cur)
         == (if exit == Raised(Failure) then MarkFailed(inner, |tape.parents|) else inner, exit)
  {
  }

  method Perform(obs: RecordingObserver, task: nat, steps: seq<Step>, spans: seq<Recording>)
    returns (exit: Exit, handed: seq<Recording>)
    requires obs.Valid() && spans == obs.log
    modifies obs, spans
    ensures Performed(obs, spans, handed)
    ensures var cur := Index(spans, old(obs.Current(task)));
            Fits(old(TapeOf(obs)), cur) && (TapeOf(obs), exit) == Run(steps, old(TapeOf(obs)), cur)
    decreases steps, 0
  {
    if steps == [] {
      exit, handed := Normal, spans;
    } else {
      exit, handed := PerformStep(obs, task, steps[0], spans);
      if exit.Normal? {
        IndexStays(spans, handed, obs.Current(task));
        exit, handed := Perform(obs, task, steps[1..], handed);
      }
    }
  }

  // ---- Many tasks --------------------------------------------------------------------------------

  /** What a task holds in its hands: its open blocks, each with the span to give back, and the spans
      it opened. */
  datatype Held = Held(frames: seq<(Recording, Recording?)>, mine: seq<Recording>)

  function At(log: seq<Recording>, i: int): Recording? {
    if 0 <= i < |log| then log[i] else null
  }

  ghost predicate Holding(log: seq<Recording>, t: Task, held: Held) {
    && |held.mine| == |t.mine| && (forall i | 0 <= i < |t.mine| :: At(log, t.mine[i]) == held.mine[i])
    && |held.frames| == |t.frames|
    && (forall i | 0 <= i < |t.frames| ::
          At(log, t.frames[i].span) == held.frames[i].0 && At(log, t.frames[i].token) == held.frames[i].1)
  }

  /** Every task's current span is the one the world says. */
  ghost predicate Currents(current: map<nat, Recording>, log: seq<Recording>, w: World) {
    forall task: nat :: (if task in current then current[task] else null) == At(log, TaskOf(w, task).cur)
  }

  /** The recorder stands where the world does. */
  ghost predicate Shows(obs: RecordingObserver, w: World)
    reads obs, obs.log
  {
    obs.Valid() && TapeOf(obs) == w.tape && Currents(obs.current, obs.log, w)
  }

  lemma IndexOfAt(log: seq<Recording>, i: int)
    requires -1 <= i < |log| && forall p, q | 0 <= p < q < |log| :: log[p] != log[q]
    ensures Index(log, At(log, i)) == i
  {
    if i >= 0 { assert log[i] in log; }
  }

  /** One more span leaves what a task holds, and where every task stands, as it was. */
  lemma HoldingOn(log: seq<Recording>, record: Recording, tape: Tape, t: Task, held: Held)
    requires Holding(log, t, held) && Placed(tape, t) && |tape.parents| == |log|
    ensures Holding(log + [record], t, held) && At(log + [record], t.cur) == At(log, t.cur)
  {
    PlacedCur(tape, t);
    FramesPlaced(tape, t);
  }

  lemma HoldingEntered(log: seq<Recording>, record: Recording, token: Recording?,
                       tape: Tape, t: Task, held: Held, name: string)
    requires Holding(log, t, held) && Placed(tape, t) && |tape.parents| == |log| && token == At(log, t.cur)
    ensures Holding(log + [record], Do(tape, t, EnterBlock(name)).1,
                    Held(held.frames + [(record, token)], held.mine + [record]))
  {
    HoldingOn(log, record, tape, t, held);
  }

  lemma FramesPlaced(tape: Tape, t: Task)
    requires Placed(tape, t)
    ensures forall i | 0 <= i < |t.frames| ::
              0 <= t.frames[i].span < |tape.parents| && -1 <= t.frames[i].token < |tape.parents|
  {
  }

  lemma CurrentsOn(current: map<nat, Recording>, log: seq<Recording>, record: Recording, w: World, task: nat, op: Op)
    requires Currents(current, log, w) && WorldOk(w) && |w.tape.parents| == |log| && !op.ExitBlock?
    ensures Currents(if op.EnterBlock? then current[task := record] else current,
                     log + [record], Next(w, Event.Act(task, op)))
  {
    NewbornIsPlaced(w.tape, -1);
    var w' := Next(w, Event.Act(task, op));
    forall other: nat
      ensures other != task || op.OpenSpan? ==>
                At(log + [record], TaskOf(w', other).cur) == At(log, TaskOf(w, other).cur)
    {
      PlacedCur(w.tape, TaskOf(w, other));
    }
  }

  lemma CurrentsBack(current: map<nat, Recording>, log: seq<Recording>, w: World, task: nat, exit: Exit, held: Held)
    requires Currents(current, log, w) && WorldOk(w) && |w.tape.parents| == |log|
    requires Holding(log, TaskOf(w, task), held) && held.frames != []
    ensures var token := held.frames[|held.frames| - 1].1;
            Currents(if token == null then current - {task} else current[task := token], log,
                     Next(w, Event.Act(task, ExitBlock(exit))))
  {
  }

  method DoOp(obs: RecordingObserver, task: nat, op: Op, held: Held, ghost w: World) returns (held': Held)
    requires Shows(obs, w) && WorldOk(w) && Holding(obs.log, TaskOf(w, task), held)
    modifies obs, obs.log
    ensures var w' := Next(w, Event.Act(task, op)); Shows(obs, w') && Holding(obs.log, TaskOf(w', task), held')
    ensures old(obs.log) <= obs.log && forall i | |old(obs.log)| <= i < |obs.log| :: fresh(obs.log[i])
  {
    match op {
      case EnterBlock(name) =>
        held' := DoEnter(obs, task, name, held, w);
      case ExitBlock(exit) =>
        held' := DoExit(obs, task, exit, held, w);
      case OpenSpan(name, under) =>
        held' := DoOpen(obs, task, name, under, held, w);
    }
  }

  method DoEnter(obs: RecordingObserver, task: nat, name: string, held: Held, ghost w: World) returns (held': Held)
    requires Shows(obs, w) && WorldOk(w) && Holding(obs.log, TaskOf(w, task), held)
    modifies obs, obs.log
    ensures var w' := Next(w, Event.Act(task, EnterBlock(name)));
            Shows(obs, w') && Holding(obs.log, TaskOf(w', task), held')
    ensures old(obs.log) <= obs.log && forall i | |old(obs.log)| <= i < |obs.log| :: fresh(obs.log[i])
  {
    ghost var t, log, current := TaskOf(w, task), obs.log, obs.current;
    NewbornIsPlaced(w.tape, -1);
    PlacedCur(w.tape, t);
    IndexOfAt(log, t.cur);
    assert obs.Current(task) == At(log, t.cur);
    var record, token := obs.Enter(task, name);
    held' := Held(held.frames + [(record, token)], held.mine + [record]);
    CurrentsOn(current, log, record, w, task, EnterBlock(name));
    HoldingEntered(log, record, token, w.tape, t, held, name);
  }

  method DoOpen(obs: RecordingObserver, task: nat, name: string, under: Under, held: Held, ghost w: World)
    returns (held': Held)
    requires Shows(obs, w) && WorldOk(w) && Holding(obs.log, TaskOf(w, task), held)
    modifies obs, obs.log
    ensures var w' := Next(w, Event.Act(task, OpenSpan(name, under)));
            Shows(obs, w') && Holding(obs.log, TaskOf(w', task), held')
    ensures old(obs.log) <= obs.log && forall i | |old(obs.log)| <= i < |obs.log| :: fresh(obs.log[i])
  {
    ghost var t, log, current := TaskOf(w, task), obs.log, obs.current;
    NewbornIsPlaced(w.tape, -1);
    PlacedCur(w.tape, t);
    var parent: Recording? := if under.Explicit? && under.span < |held.mine| then held.mine[under.span] else null;
    ghost var p := ParentPlace(log, w.tape, t, held, under);
    assert obs.Current(task) == At(log, t.cur);
    var record := obs.StartSpan(task, name, parent);
    held' := Held(held.frames, held.mine + [record]);
    CurrentsOn(current, log, record, w, task, OpenSpan(name, under));
    HoldingOpened(log, record, w.tape, t, held, name, under);
  }

  /** The span an explicit or ambient parent stands for, and its place. */
  lemma ParentPlace(log: seq<Recording>, tape: Tape, t: Task, held: Held, under: Under) returns (p: int)
    requires Holding(log, t, held) && Placed(tape, t) && |tape.parents| == |log|
    requires forall i, j | 0 <= i < j < |log| :: log[i] != log[j]
    ensures p == if under.Explicit? && under.span < |t.mine| then t.mine[under.span] else t.cur
    ensures var parent := if under.Explicit? && under.span < |held.mine| then held.mine[under.span] else null;
            && (parent != null ==> parent in log)
            && Index(log, if parent != null then parent else At(log, t.cur)) == p
  {
    PlacedCur(tape, t);
    p := if under.Explicit? && under.span < |t.mine| then t.mine[under.span] else t.cur;
    IndexOfAt(log, p);
  }

  lemma HoldingOpened(log: seq<Recording>, record: Recording, tape: Tape, t: Task, held: Held, name: string, under: Under)
    requires Holding(log, t, held) && Placed(tape, t) && |tape.parents| == |log|
    ensures Holding(log + [record], Do(tape, t, OpenSpan(name, under)).1, Held(held.frames, held.mine + [record]))
  {
    HoldingOn(log, record, tape, t, held);
  }

  method DoExit(obs: RecordingObserver, task: nat, exit: Exit, held: Held, ghost w: World) returns (held': Held)
    requires Shows(obs, w) && WorldOk(w) && Holding(obs.log, TaskOf(w, task), held)
    modifies obs, obs.log
    ensures var w' := Next(w, Event.Act(task, ExitBlock(exit)));
            Shows(obs, w') && Holding(obs.log, TaskOf(w', task), held')
    ensures obs.log == old(obs.log)
  {
    NewbornIsPlaced(w.tape, -1);
    held' := held;
    if held.frames != [] {
      PopFrame(obs, task, exit, held, w);
      held' := Held(held.frames[..|held.frames| - 1], held.mine);
    }
  }

  method PopFrame(obs: RecordingObserver, task: nat, exit: Exit, held: Held, ghost w: World)
    requires Shows(obs, w) && WorldOk(w) && Holding(obs.log, TaskOf(w, task), held) && held.frames != []
    modifies obs, obs.log
    ensures Shows(obs, Next(w, Event.Act(task, ExitBlock(exit)))) && obs.log == old(obs.log)
  {
    ghost var t, current := TaskOf(w, task), obs.current;
    var k := |held.frames| - 1;
    var (record, token) := held.frames[k];
    NewbornIsPlaced(w.tape, -1);
    FramesPlaced(w.tape, t);
    IndexOfAt(obs.log, t.frames[k].span);
    CurrentsBack(current, obs.log, w, task, exit, held);
    LeaveFrame(obs, task, record, token, exit, t.frames[k].span);
  }

  method LeaveFrame(obs: RecordingObserver, task: nat, record: Recording, token: Recording?, exit: Exit, ghost n: nat)
    requires obs.Valid() && n < |obs.log| && obs.log[n] == record && Index(obs.log, record) == n
    requires token == null || token in obs.log
    modifies obs, record
    ensures obs.Valid() && obs.log == old(obs.log)
    ensures obs.current == if token == null then old(obs.current) - {task} else old(obs.current)[task := token]
    ensures TapeOf(obs) == if exit == Raised(Failure) then MarkFailed(old(TapeOf(obs)), n) else old(TapeOf(obs))
  {
    assert record in obs.log;
    obs.Leave(task, record, token, exit);
  }

  method SpawnTask(obs: RecordingObserver, task: nat, child: nat, ghost w: World)
    requires Shows(obs, w) && WorldOk(w) && child !in w.tasks && child != task
    modifies obs
    ensures Shows(obs, Next(w, Spawn(task, child))) && obs.log == old(obs.log)
  {
    obs.Fork(task, child);
    forall other: nat ensures obs.Current(other) == At(obs.log, TaskOf(Next(w, Spawn(task, child)), other).cur) {
      SpawnedTask(w, task, child, other);
    }
  }

  /** The recorder under many tasks: performed event by event, it holds the tape of the whole
      interleaving. */
  method Replay(events: seq<Event>) returns (obs: RecordingObserver)
    ensures obs.Valid() && TapeOf(obs) == After(events).tape
  {
    obs := new RecordingObserver();
    var held: map<nat, Held> := map[];
    ghost var w := After([]);
    for n := 0 to |events|
      invariant fresh(obs) && forall i | 0 <= i < |obs.log| :: fresh(obs.log[i])
      invariant w == After(events[..n]) && WorldOk(w) && Shows(obs, w) && AllHolding(obs.log, w, held)
    {
      assert events[..n + 1][..n] == events[..n];
      NextKeepsOk(w, events[n]);
      held := PerformEvent(obs, events[n], held, w);
      w := Next(w, events[n]);
    }
    assert events[..|events|] == events;
  }

  /** The driver holds for each task what the task holds. */
  ghost predicate AllHolding(log: seq<Recording>, w: World, held: map<nat, Held>) {
    held.Keys == w.tasks.Keys && forall task | task in held :: Holding(log, w.tasks[task], held[task])
  }

  method PerformEvent(obs: RecordingObserver, e: Event, held: map<nat, Held>, ghost w: World)
    returns (held': map<nat, Held>)
    requires Shows(obs, w) && WorldOk(w) && AllHolding(obs.log, w, held)
    modifies obs, obs.log
    ensures Shows(obs, Next(w, e)) && AllHolding(obs.log, Next(w, e), held')
    ensures old(obs.log) <= obs.log && forall i | |old(obs.log)| <= i < |obs.log| :: fresh(obs.log[i])
  {
    match e {
      case Act(task, op) =>
        held' := PerformAct(obs, task, op, held, w);
      case Spawn(task, child) =>
        held' := held;
        if child !in held && child != task {
          SpawnTask(obs, task, child, w);
          SpawnedHolding(obs.log, w, task, child, held);
          held' := held[task := if task in held then held[task] else Held([], [])][child := Held([], [])];
        }
    }
  }

  method PerformAct(obs: RecordingObserver, task: nat, op: Op, held: map<nat, Held>, ghost w: World)
    returns (held': map<nat, Held>)
    requires Shows(obs, w) && WorldOk(w) && AllHolding(obs.log, w, held)
    modifies obs, obs.log
    ensures Shows(obs, Next(w, Event.Act(task, op))) && AllHolding(obs.log, Next(w, Event.Act(task, op)), held')
    ensures old(obs.log) <= obs.log && forall i | |old(obs.log)| <= i < |obs.log| :: fresh(obs.log[i])
  {
    ghost var log := obs.log;
    var hand := DoOp(obs, task, op, if task in held then held[task] else Held([], []), w);
    held' := held[task := hand];
    ActedHolding(log, obs.log, w, task, op, held, hand);
  }

  lemma SpawnedHolding(log: seq<Recording>, w: World, task: nat, child: nat, held: map<nat, Held>)
    requires AllHolding(log, w, held) && child !in held && child != task
    ensures AllHolding(log, Next(w, Spawn(task, child)),
                       held[task := if task in held then held[task] else Held([], [])][child := Held([], [])])
  {
  }

  lemma ActedHolding(log: seq<Recording>, more: seq<Recording>, w: World, task: nat, op: Op,
                     held: map<nat, Held>, hand: Held)
    requires WorldOk(w) && |w.tape.parents| == |log| && log <= more && AllHolding(log, w, held)
    requires Holding(more, TaskOf(Next(w, Event.Act(task, op)), task), hand)
    ensures AllHolding(more, Next(w, Event.Act(task, op)), held[task := hand])
  {
    OthersStillHolding(log, more, w, task, held);
  }

  lemma OthersStillHolding(log: seq<Recording>, more: seq<Recording>, w: World, task: nat, held: map<nat, Held>)
    requires WorldOk(w) && |w.tape.parents| == |log| && log <= more && AllHolding(log, w, held)
    ensures forall other | other in held && other != task :: Holding(more, w.tasks[other], held[other])
  {
    forall other | other in held && other != task ensures Holding(more, w.tasks[other], held[other]) {
      StillHolding(log, more, w.tape, w.tasks[other], held[other]);
    }
  }

  lemma StillHolding(log: seq<Recording>, more: seq<Recording>, tape: Tape, t: Task, held: Held)
    requires Holding(log, t, held) && Placed(tape, t) && |tape.parents| == |log| && log <= more
    ensures Holding(more, t, held)
  {
    FramesPlaced(tape, t);
  }
}
