/** The tracing callback: it turns start, end and error events of runs into spans, keeping the open
    ones by run id. */
module Tracing {
  import opened Options
  import opened SpanForest

  /** What starts: a model call, a tool call, or a runnable inside a graph node (`node` empty when it
      is in none). */
  datatype Source = Model(id: string) | Tool(name: string) | Chain(name: string, node: string)

  datatype Kind = OfModel | OfTool | OfChain

  /** A callback event. `up` says whether the observer manages to open a span for this start. */
  datatype Event =
    | Start(run: nat, parent: Option<nat>, source: Source, at: real, up: bool)
    | End(run: nat, kind: Kind)
    | Fail(run: nat, kind: Kind)

  /** A span as the observer opened it: under the span `under`, or under the ambient one. */
  datatype Opened = Opened(run: nat, under: Option<nat>)

  /** The callback's three maps, and what the observer has seen: spans are numbered as opened. */
  datatype State = State(
    spans: map<nat, nat>, starts: map<nat, real>, modelIds: map<nat, string>,
    begun: seq<Opened>, ended: seq<nat>, failed: set<nat>)

  const INITIAL := State(map[], map[], map[], [], [], {})

  const UNTRACED_NODES := {"lookup_route", "resolve", "safety_gate"}

  /** Only a node's own runnable is traced, and not that of a pure-function node. */
  predicate Traced(source: Source) {
    match source
    case Chain(name, node) => node != "" && name == node && node !in UNTRACED_NODES
    case _ => true
  }

  function ParentSpan(spans: map<nat, nat>, parent: Option<nat>): Option<nat> {
    if parent.Some? && parent.value in spans then Some(spans[parent.value]) else None
  }

  function Open(s: State, run: nat, parent: Option<nat>, at: real, up: bool): State {
    if !up then s
    else
      s.(spans := s.spans[run := |s.begun|], starts := s.starts[run := at],
         begun := s.begun + [Opened(run, ParentSpan(s.spans, parent))])
  }

  function Close(s: State, run: nat): State {
    s.(spans := s.spans - {run}, starts := s.starts - {run}, modelIds := s.modelIds - {run},
       ended := if run in s.spans then s.ended + [s.spans[run]] else s.ended)
  }

  function ErrorClose(s: State, run: nat): State {
    Close(s.(failed := if run in s.spans then s.failed + {s.spans[run]} else s.failed), run)
  }

  function Apply(s: State, e: Event): State {
    match e
    case Start(run, parent, source, at, up) =>
      if !Traced(source) then s
      else
        var s' := Open(s, run, parent, at, up);
        if source.Model? then s'.(modelIds := s'.modelIds[run := source.id]) else s'
    case End(run, kind) => if kind.OfTool? || run in s.spans then Close(s, run) else s
    case Fail(run, kind) => if !kind.OfChain? || run in s.spans then ErrorClose(s, run) else s
  }

  function After(events: seq<Event>): State {
    if events == [] then INITIAL else Apply(After(events[..|events| - 1]), events[|events| - 1])
  }

  // ---- The callback ----------------------------------------------------------------------------

  class Observer {
    var begun: seq<Opened>
    var ended: seq<nat>
    var failed: set<nat>

    constructor ()
      ensures begun == [] && ended == [] && failed == {}
    {
      begun, ended, failed := [], [], {};
    }

    /** None when opening the span raises. */
    method StartSpan(run: nat, under: Option<nat>, up: bool) returns (span: Option<nat>)
      modifies this
      ensures ended == old(ended) && failed == old(failed)
      ensures begun == if up then old(begun) + [Opened(run, under)] else old(begun)
      ensures span == if up then Some(|old(begun)|) else None
    {
      span := None;
      if up {
        span := Some(|begun|);
        begun := begun + [Opened(run, under)];
      }
    }

    method EndSpan(span: nat)
      modifies this
      ensures begun == old(begun) && failed == old(failed) && ended == old(ended) + [span]
    {
      ended := ended + [span];
    }

    method SetError(span: nat)
      modifies this
      ensures begun == old(begun) && ended == old(ended) && failed == old(failed) + {span}
    {
      failed := failed + {span};
    }
  }

  class ObservabilityCallback {
    const observer: Observer
    var spans: map<nat, nat>
    var starts: map<nat, real>
    var modelIds: map<nat, string>

    constructor (observer: Observer)
      requires observer.begun == [] && observer.ended == [] && observer.failed == {}
      ensures this.observer == observer && Now() == INITIAL
    {
      this.observer, spans, starts, modelIds := observer, map[], map[], map[];
    }

    function Now(): State
      reads this, observer
    {
      State(spans, starts, modelIds, observer.begun, observer.ended, observer.failed)
    }

    method OpenSpan(run: nat, parent: Option<nat>, at: real, up: bool)
      modifies this, observer
      ensures Now() == Open(old(Now()), run, parent, at, up)
    {
      var under: Option<nat> := None;
      if parent.Some? && parent.value in spans {
        under := Some(spans[parent.value]);
      }
      var span := observer.StartSpan(run, under, up);
      if span.Some? {
        spans := spans[run := span.value];
        starts := starts[run := at];
      }
    }

    method CloseSpan(run: nat)
      modifies this, observer
      ensures Now() == Close(old(Now()), run)
    {
      starts := starts - {run};
      modelIds := modelIds - {run};
      if run in spans {
        var span := spans[run];
        spans := spans - {run};
        observer.EndSpan(span);
      } else {
        assert spans - {run} == spans;
      }
    }

    method ErrorCloseSpan(run: nat)
      modifies this, observer
      ensures Now() == ErrorClose(old(Now()), run)
    {
      if run in spans {
        observer.SetError(spans[run]);
      }
      CloseSpan(run);
    }

    method On(e: Event)
      modifies this, observer
      ensures Now() == Apply(old(Now()), e)
    {
      match e {
        case Start(run, parent, source, at, up) =>
          if !Traced(source) {
            return;
          }
          OpenSpan(run, parent, at, up);
          if source.Model? {
            modelIds := modelIds[run := source.id];
          }
        case End(run, kind) =>
          if !kind.OfTool? && run !in spans {
            return;
          }
          CloseSpan(run);
        case Fail(run, kind) =>
          if kind.OfChain? && run !in spans {
            return;
          }
          ErrorCloseSpan(run);
      }
    }
  }

  // ---- What holds after any events ---------------------------------------------------------------

  /** Open spans and start times go together; an open span is the one its run opened, and has not
      ended; no span ends twice; a failed span has ended; a parent is an earlier span. */
  ghost predicate Inv(s: State) {
    && s.spans.Keys == s.starts.Keys
    && (forall r | r in s.spans :: s.spans[r] < |s.begun| && s.begun[s.spans[r]].run == r && s.spans[r] !in s.ended)
    && (forall k | k in s.ended :: k < |s.begun|)
    && (forall k | k in s.failed :: k in s.ended)
    && (forall i, j | 0 <= i < j < |s.ended| :: s.ended[i] != s.ended[j])
    && (forall k | 0 <= k < |s.begun| && s.begun[k].under.Some? :: s.begun[k].under.value < k)
  }

  lemma CloseKeepsInv(s: State, run: nat)
    requires Inv(s)
    ensures Inv(Close(s, run)) && Inv(ErrorClose(s, run))
  {
    var s' := Close(s, run);
    forall r | r in s'.spans ensures s'.spans[r] !in s'.ended {
      assert s.begun[s.spans[r]].run == r;
    }
  }

  lemma OpenKeepsInv(s: State, run: nat, parent: Option<nat>, at: real)
    requires Inv(s)
    ensures Inv(Open(s, run, parent, at, true))
  {
  }

  lemma ApplyKeepsInv(s: State, e: Event)
    requires Inv(s)
    ensures Inv(Apply(s, e))
  {
    match e
    case Start(run, parent, source, at, up) => OpenKeepsInv(s, run, parent, at);
    case End(run, _) => CloseKeepsInv(s, run);
    case Fail(run, _) => CloseKeepsInv(s, run);
  }

  lemma {:induction false} InvAlways(events: seq<Event>)
    ensures Inv(After(events))
    decreases |events|
  {
    if events != [] {
      InvAlways(events[..|events| - 1]);
      ApplyKeepsInv(After(events[..|events| - 1]), events[|events| - 1]);
    }
  }

  // ---- Every span is ended, or open and to be ended ----------------------------------------------

  ghost predicate Accounted(s: State, k: nat)
    requires k < |s.begun|
  {
    k in s.ended || (s.begun[k].run in s.spans && s.spans[s.begun[k].run] == k)
  }

  ghost predicate AllAccounted(s: State) {
    forall k: nat | k < |s.begun| :: Accounted(s, k)
  }

  /** The event opens a span for a run that has one open already. */
  predicate Reopens(s: State, e: Event) {
    e.Start? && Traced(e.source) && e.up && e.run in s.spans
  }

  lemma {:induction false} AccountedStep(s: State, e: Event)
    requires Inv(s)
    ensures AllAccounted(Apply(s, e)) <==> AllAccounted(s) && !Reopens(s, e)
  {
    var s' := Apply(s, e);
    if AllAccounted(s) && !Reopens(s, e) {
      forall k: nat | k < |s'.begun| ensures Accounted(s', k) { if k < |s.begun| { assert Accounted(s, k); } }
    }
    if !AllAccounted(s) {
      var k: nat :| k < |s.begun| && !Accounted(s, k);
      StaysLost(s, e, k);
    } else if Reopens(s, e) {
      var k := s.spans[e.run];
      assert !Accounted(s', k);
    }
  }

  lemma StaysLost(s: State, e: Event, k: nat)
    requires Inv(s) && k < |s.begun| && !Accounted(s, k)
    ensures k < |Apply(s, e).begun| && !Accounted(Apply(s, e), k)
  {
  }

  /** No span is lost exactly when no run id is used again while its span is open. */
  lemma {:induction false} NothingLostIff(events: seq<Event>)
    ensures AllAccounted(After(events))
       <==> forall i | 0 <= i < |events| :: !Reopens(After(events[..i]), events[i])
    decreases |events|
  {
    if events != [] {
      var before, e := events[..|events| - 1], events[|events| - 1];
      NothingLostIff(before);
      InvAlways(before);
      AccountedStep(After(before), e);
      forall i | 0 <= i < |before| ensures before[..i] == events[..i] && before[i] == events[i] {
      }
    }
  }

  // ---- Runs do not disturb each other ------------------------------------------------------------

  /** The events of one run. */
  function Own(events: seq<Event>, run: nat): seq<Event> {
    if events == [] then []
    else Own(events[..|events| - 1], run) + if events[|events| - 1].run == run then [events[|events| - 1]] else []
  }

  /** Some span of the run is marked failed. */
  ghost predicate MarkedFailed(s: State, run: nat) {
    exists k :: k in s.failed && k < |s.begun| && s.begun[k].run == run
  }

  ghost predicate SameEntries(s: State, t: State, run: nat) {
    && (run in s.spans <==> run in t.spans)
    && (run in s.modelIds <==> run in t.modelIds)
    && (run in s.modelIds ==> s.modelIds[run] == t.modelIds[run])
  }

  lemma StepsAlike(s: State, t: State, e: Event, run: nat)
    requires SameEntries(s, t, run)
    ensures e.run == run ==> SameEntries(Apply(s, e), Apply(t, e), run)
    ensures e.run != run ==> SameEntries(Apply(s, e), s, run)
  {
  }

  /** An error event that finds a span marks it; nothing else marks one. */
  lemma StepMarks(s: State, e: Event, run: nat)
    requires Inv(s)
    ensures MarkedFailed(Apply(s, e), run) <==> MarkedFailed(s, run) || (e.Fail? && e.run == run && run in s.spans)
  {
    var s' := Apply(s, e);
    if MarkedFailed(s, run) {
      var k :| k in s.failed && k < |s.begun| && s.begun[k].run == run;
      assert k in s'.failed && s'.begun[k].run == run;
    }
    if e.Fail? && e.run == run && run in s.spans {
      assert s.spans[run] in s'.failed;
    }
    if MarkedFailed(s', run) {
      var k :| k in s'.failed && k < |s'.begun| && s'.begun[k].run == run;
      if k in s.failed { assert s.begun[k].run == run; }
    }
  }

  /** What the maps hold for a run, and whether a span of it failed, is decided by that run's own
      events. */
  lemma {:induction false} RunsAreIndependent(events: seq<Event>, run: nat)
    ensures SameEntries(After(events), After(Own(events, run)), run)
    ensures MarkedFailed(After(events), run) <==> MarkedFailed(After(Own(events, run)), run)
    decreases |events|
  {
    if events != [] {
      var before, e := events[..|events| - 1], events[|events| - 1];
      RunsAreIndependent(before, run);
      InvAlways(before);
      InvAlways(Own(before, run));
      StepMarks(After(before), e, run);
      StepMarks(After(Own(before, run)), e, run);
      StepsAlike(After(before), After(Own(before, run)), e, run);
      if e.run == run {
        var own := Own(before, run) + [e];
        assert own[..|own| - 1] == Own(before, run);
      } else {
        assert Own(events, run) == Own(before, run);
      }
    }
  }

  predicate Ends(e: Event, source: Source) {
    !e.Start? && e.kind == match source case Model(_) => OfModel case Tool(_) => OfTool case Chain(_, _) => OfChain
  }

  /** The run started once and then ended or failed once, as what it is. */
  ghost predicate Matched(own: seq<Event>) {
    |own| == 2 && own[0].Start? && Ends(own[1], own[0].source)
  }

  /** The one life of a run that leaves something behind: a model call the observer could not open a
      span for, and that then ended well. Its model id is never dropped. */
  ghost predicate Leaks(own: seq<Event>)
    requires Matched(own)
  {
    own[0].source.Model? && !own[0].up && own[1].End?
  }

  /** The one life of a run that marks a span failed: it got a span, and then failed. */
  ghost predicate Fails(own: seq<Event>)
    requires Matched(own)
  {
    Traced(own[0].source) && own[0].up && own[1].Fail?
  }

  lemma MatchedRunLeaves(own: seq<Event>)
    requires Matched(own) && own[0].run == own[1].run
    ensures own[0].run !in After(own).spans
    ensures own[0].run in After(own).modelIds <==> Leaks(own)
    ensures MarkedFailed(After(own), own[0].run) <==> Fails(own)
  {
    InvAlways(own[..1]);
    StepMarks(After(own[..1]), own[1], own[0].run);
    assert own[..1][..0] == [] && own == [own[0], own[1]];
    assert After(own[..1]) == Apply(INITIAL, own[0]);
    assert After(own) == Apply(Apply(INITIAL, own[0]), own[1]);
  }

  lemma {:induction false} OwnIsOfRun(events: seq<Event>, run: nat)
    ensures forall e | e in Own(events, run) :: e.run == run
    decreases |events|
  {
    if events != [] { OwnIsOfRun(events[..|events| - 1], run); }
  }

  /** However the events of the runs interleave: once every run has started once and ended once, no
      span and no start time is kept, and a model id only for the runs that leak one. */
  lemma MatchedRunsLeaveNothing(events: seq<Event>)
    requires forall r: nat :: Own(events, r) == [] || Matched(Own(events, r))
    ensures After(events).spans == map[] && After(events).starts == map[]
    ensures forall r: nat :: r in After(events).modelIds <==> Own(events, r) != [] && Leaks(Own(events, r))
  {
    InvAlways(events);
    forall r: nat
      ensures r !in After(events).spans
      ensures r in After(events).modelIds <==> Own(events, r) != [] && Leaks(Own(events, r))
    {
      var own := Own(events, r);
      RunsAreIndependent(events, r);
      OwnIsOfRun(events, r);
      if own == [] {
        assert After(own) == INITIAL;
      } else {
        assert own[0] in own && own[1] in own;
        MatchedRunLeaves(own);
      }
    }
  }

  /** An event stands in its run's own events behind those that came before it. */
  lemma {:induction false} OwnAt(events: seq<Event>, i: nat)
    requires i < |events|
    ensures var own, n := Own(events, events[i].run), |Own(events[..i], events[i].run)|;
            n < |own| && own[n] == events[i]
    decreases |events|
  {
    var before := events[..|events| - 1];
    if i < |before| {
      OwnAt(before, i);
      assert before[..i] == events[..i];
    } else {
      assert before == events[..i];
    }
  }

  lemma NothingBeforeTheStart(own: seq<Event>, n: nat)
    requires n < |own| && own[n].Start? && Matched(own)
    ensures n == 0
  {
  }

  lemma MatchedRunsNeverReopen(events: seq<Event>, i: nat)
    requires i < |events| && (Own(events, events[i].run) == [] || Matched(Own(events, events[i].run)))
    ensures !Reopens(After(events[..i]), events[i])
  {
    var before, run := events[..i], events[i].run;
    OwnAt(events, i);
    RunsAreIndependent(before, run);
    if events[i].Start? {
      NothingBeforeTheStart(Own(events, run), |Own(before, run)|);
      assert Own(before, run) == [];
      assert After([]) == INITIAL;
    }
  }

  /** ... and a run's span is marked failed exactly when it had one and the run failed. */
  lemma FailuresAreMarked(events: seq<Event>, run: nat)
    requires Matched(Own(events, run))
    ensures MarkedFailed(After(events), run) <==> Fails(Own(events, run))
  {
    var own := Own(events, run);
    RunsAreIndependent(events, run);
    OwnIsOfRun(events, run);
    assert own[0] in own && own[1] in own;
    MatchedRunLeaves(own);
  }

  /** Then every span opened has been ended, and ended once. */
  lemma MatchedRunsEndEverySpan(events: seq<Event>)
    requires forall r: nat :: Own(events, r) == [] || Matched(Own(events, r))
    ensures var s := After(events);
            && (forall k: nat | k < |s.begun| :: multiset(s.ended)[k] == 1)
            && |s.ended| == |s.begun|
  {
    var s := After(events);
    InvAlways(events);
    forall i | 0 <= i < |events| ensures !Reopens(After(events[..i]), events[i]) {
      MatchedRunsNeverReopen(events, i);
    }
    NothingLostIff(events);
    MatchedRunsLeaveNothing(events);
    forall k: nat | k < |s.begun| ensures multiset(s.ended)[k] == 1 {
      assert Accounted(s, k);
      OnceIn(s.ended, k);
    }
    DistinctCount(s.ended, |s.begun|);
  }

  lemma {:induction false} OnceIn(s: seq<nat>, k: nat)
    requires (forall i, j | 0 <= i < j < |s| :: s[i] != s[j]) && k in s
    ensures multiset(s)[k] == 1
    decreases |s|
  {
    var before, last := s[..|s| - 1], s[|s| - 1];
    assert s == before + [last];
    if last != k { OnceIn(before, k); } else { assert k !in before; }
  }

  /** A list without repetition that holds all numbers below `n` and no other is `n` long. */
  lemma DistinctCount(s: seq<nat>, n: nat)
    requires (forall i, j | 0 <= i < j < |s| :: s[i] != s[j]) && (forall k | k in s :: k < n)
    requires forall k: nat | k < n :: multiset(s)[k] == 1
    ensures |s| == n
  {
    var below := seq(n, (i: nat) => i);
    forall k: nat ensures multiset(s)[k] == multiset(below)[k] {
      if k < n {
        assert below[k] == k;
        OnceIn(below, k);
      } else {
        assert k !in s && k !in below;
      }
    }
    assert multiset(s) == multiset(below);
    assert |s| == |multiset(s)| == |multiset(below)| == |below|;
  }

  // ---- The tree the spans form -------------------------------------------------------------------

  /** The parent links of what was opened, ambient spans as roots. */
  function Links(begun: seq<Opened>): (links: seq<int>)
    ensures |links| == |begun|
    ensures forall k | 0 <= k < |begun| :: links[k] == if begun[k].under.Some? then begun[k].under.value else -1
  {
    seq(|begun|, k requires 0 <= k < |begun| => if begun[k].under.Some? then begun[k].under.value else -1)
  }

  /** Out-of-band events still make a forest, in which every span has its one place. */
  lemma TracesAreForests(events: seq<Event>)
    ensures IsForest(Links(After(events).begun))
    ensures multiset(Walked(Links(After(events).begun))) == multiset(Range(|After(events).begun|))
  {
    InvAlways(events);
    EachSpanOnce(Links(After(events).begun));
  }

  /** What starts a span: every model call and every tool call, and of the runnables in a graph only a
      node's own, and none of the three nodes that only compute; provided the observer can open one.
      A model call leaves its model id either way. */
  lemma StartsAreTraced(events: seq<Event>, e: Event)
    requires e.Start?
    ensures var s, s' := After(events), Apply(After(events), e);
            var counts := match e.source
                          case Model(_) => true
                          case Tool(_) => true
                          case Chain(name, node) =>
                            node != "" && name == node && node !in ["lookup_route", "resolve", "safety_gate"];
            && (|s'.begun| == |s.begun| + 1 <==> counts && e.up)
            && (!(counts && e.up) ==> s' == s.(modelIds := s'.modelIds))
            && s'.modelIds == if e.source.Model? then s.modelIds[e.run := e.source.id] else s.modelIds
  {
  }

  /** A new span hangs under the span its parent run has open, and under the ambient one if that run
      has none. */
  lemma OpensUnderTheParentRun(events: seq<Event>, e: Event)
    requires e.Start? && Traced(e.source) && e.up
    ensures var s, s' := After(events), Apply(After(events), e);
            && s'.begun[..|s.begun|] == s.begun && |s'.begun| == |s.begun| + 1
            && s'.begun[|s.begun|].run == e.run && s'.spans[e.run] == |s.begun| && s'.starts[e.run] == e.at
            && match s'.begun[|s.begun|].under
               case None => e.parent.None? || e.parent.value !in s.spans
               case Some(p) =>
                 && p < |s.begun| && e.parent.Some? && s.begun[p].run == e.parent.value
                 && p !in s.ended && Accounted(s, p)
  {
    InvAlways(events);
  }
}
