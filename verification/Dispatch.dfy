/** Running specialists for one turn: one, all at once, or one after another. */
module Dispatch {
  import opened ConflictResolver
  import opened Options

  /** What a specialist hands back when it hands anything back. */
  datatype Raw = Model(fields: Output) | Dict(fields: Output) | Scalar(value: Value)

  datatype Run = Answered(raw: Raw) | TimedOut | Raised(text: string)

  /** The specialists as the turn meets them: what a run comes to depends on who runs, for the how
      manyeth time, on what text.  `show` and `showAll` are `str` of a value and of a dictionary. */
  datatype Team = Team(members: set<string>, run: (string, nat, string) -> Run,
                       show: Value -> string, showAll: Output -> string)

  datatype Job = Job(name: string, attempt: nat)

  datatype Failure = UnknownStrategy(strategy: string) | UnknownSpecialist(name: string)

  datatype Dispatched = Ran(results: seq<SpecialistResult>) | Refused(failure: Failure)

  /** No per-specialist timeout is set, and its absence is what the message shows. */
  const TIMED_OUT := "timed out after Nones"

  function AsDict(raw: Raw): Output {
    match raw
    case Model(fields) => fields
    case Dict(fields) => fields
    case Scalar(value) => map["output" := value]
  }

  function Confidence(output: Output): Option<real> {
    if "confidence" in output && output["confidence"].Number? then Some(output["confidence"].n) else None
  }

  function ErrorResult(name: string, message: string): SpecialistResult {
    SpecialistResult(name, map[], None, Some(message))
  }

  /** One run, with whatever goes wrong turned into a result. */
  function RunSafely(team: Team, job: Job, text: string): (r: SpecialistResult)
    ensures r.name == job.name
    ensures Survives(r) ==> team.run(job.name, job.attempt, text).Answered?
  {
    match team.run(job.name, job.attempt, text)
    case Answered(raw) => SpecialistResult(job.name, AsDict(raw), Confidence(AsDict(raw)), None)
    case TimedOut => ErrorResult(job.name, TIMED_OUT)
    case Raised(message) => ErrorResult(job.name, message)
  }

  /** The text a step hands to the next. */
  function Forward(team: Team, r: SpecialistResult): string {
    if "output" !in r.output then team.showAll(r.output)
    else
      match r.output["output"]
      case Text(s) => s
      case value => team.show(value)
  }

  /** The text the `n`th step of a chain receives. */
  function TextAt(team: Team, jobs: seq<Job>, text: string, n: nat): string
    requires n <= |jobs|
  {
    if n == 0 then text else Forward(team, RunSafely(team, jobs[n - 1], TextAt(team, jobs, text, n - 1)))
  }

  /** A result per specialist, each on the text its predecessor forwarded. */
  function Chain(team: Team, jobs: seq<Job>, text: string): (rs: seq<SpecialistResult>)
    ensures |rs| == |jobs| && forall i | 0 <= i < |rs| :: rs[i] == RunSafely(team, jobs[i], TextAt(team, jobs, text, i))
  {
    seq(|jobs|, i requires 0 <= i < |jobs| => RunSafely(team, jobs[i], TextAt(team, jobs, text, i)))
  }

  /** A result per specialist, all on the same text. */
  function Fan(team: Team, jobs: seq<Job>, text: string): (rs: seq<SpecialistResult>)
    ensures |rs| == |jobs| && forall i | 0 <= i < |rs| :: rs[i] == RunSafely(team, jobs[i], text)
  {
    seq(|jobs|, i requires 0 <= i < |jobs| => RunSafely(team, jobs[i], text))
  }

  /** The jobs a strategy really invokes. */
  function Invoked(strategy: string, jobs: seq<Job>): seq<Job> {
    if strategy == "single" && jobs != [] then jobs[..1] else jobs
  }

  predicate Known(strategy: string) {
    strategy == "single" || strategy == "parallel" || strategy == "sequential"
  }

  function Outcome(team: Team, strategy: string, jobs: seq<Job>, text: string): Dispatched {
    if !Known(strategy) then Refused(UnknownStrategy(strategy))
    else if strategy == "sequential" then Ran(Chain(team, jobs, text))
    else Ran(Fan(team, Invoked(strategy, jobs), text))
  }

  /** Look every name up before anything runs. */
  function Resolvable(team: Team, names: seq<string>): Option<Failure> {
    if names == [] then None
    else if names[0] !in team.members then Some(UnknownSpecialist(names[0]))
    else Resolvable(team, names[1..])
  }

  /** All at once: `order` is the order in which the runs happen to finish, and each puts its result
      in its own slot. */
  method Gather(team: Team, jobs: seq<Job>, text: string, order: seq<nat>) returns (results: seq<SpecialistResult>)
    requires |order| == |jobs| && (forall i | 0 <= i < |order| :: order[i] < |jobs|)
    requires forall j | 0 <= j < |jobs| :: j in order
    ensures results == Fan(team, jobs, text)
  {
    var slots := new SpecialistResult[|jobs|](_ => ErrorResult("", ""));
    var n := 0;
    while n < |order|
      invariant 0 <= n <= |order|
      invariant forall i | 0 <= i < n :: slots[order[i]] == RunSafely(team, jobs[order[i]], text)
    {
      slots[order[n]] := RunSafely(team, jobs[order[n]], text);
      n := n + 1;
    }
    results := slots[..];
    forall j | 0 <= j < |jobs| ensures results[j] == RunSafely(team, jobs[j], text) {
      assert j in order;
    }
  }

  /** The dispatch itself. */
  method Dispatch(team: Team, strategy: string, jobs: seq<Job>, message: string, order: seq<nat>)
    returns (d: Dispatched)
    requires |order| == |jobs| && (forall i | 0 <= i < |order| :: order[i] < |jobs|)
    requires forall j | 0 <= j < |jobs| :: j in order
    ensures d == Outcome(team, strategy, jobs, message)
  {
    if !Known(strategy) {
      return Refused(UnknownStrategy(strategy));
    }
    if jobs == [] {
      assert Fan(team, Invoked(strategy, jobs), message) == [] && Chain(team, jobs, message) == [];
      return Ran([]);
    }
    if strategy == "single" {
      var r := RunSafely(team, jobs[0], message);
      assert Fan(team, jobs[..1], message) == [r];
      return Ran([r]);
    }
    if strategy == "parallel" {
      var gathered := Gather(team, jobs, message, order);
      return Ran(gathered);
    }
    var chained := DispatchInSequence(team, jobs, message);
    return Ran(chained);
  }

  lemma TakeOneMore<T>(s: seq<T>, n: nat)
    requires n < |s|
    ensures s[..n + 1] == s[..n] + [s[n]]
  {
  }

  /** One after the other, each on the text of the one before. */
  method DispatchInSequence(team: Team, jobs: seq<Job>, message: string) returns (results: seq<SpecialistResult>)
    ensures results == Chain(team, jobs, message) == FoldChain(team, jobs, message)
  {
    ChainIsFold(team, jobs, message);
    results := [];
    var text := message;
    ghost var chain := Chain(team, jobs, message);
    for n := 0 to |jobs|
      invariant text == TextAt(team, jobs, message, n)
      invariant results == chain[..n]
    {
      var result := RunSafely(team, jobs[n], text);
      assert chain[..n] + [result] == chain[..n + 1] by { TakeOneMore(chain, n); }
      results := results + [result];
      text := Forward(team, result);
    }
  }

  /** The chain as a left fold, the way a reader would define it: the next step hears the `output`
      field of the last, a text as it is and anything else rendered, or without that field the
      rendering of the whole dictionary. */
  function FoldChain(team: Team, jobs: seq<Job>, text: string): seq<SpecialistResult>
    decreases |jobs|
  {
    if jobs == [] then []
    else
      var r := RunSafely(team, jobs[0], text);
      var said: Option<Value> := if "output" in r.output then Some(r.output["output"]) else None;
      var next :=
        match said
        case Some(Text(s)) => s
        case Some(value) => team.show(value)
        case None => team.showAll(r.output);
      [r] + FoldChain(team, jobs[1..], next)
  }

  lemma {:induction false} TextAfterFirst(team: Team, jobs: seq<Job>, text: string, n: nat)
    requires n < |jobs|
    ensures TextAt(team, jobs, text, n + 1)
            == TextAt(team, jobs[1..], Forward(team, RunSafely(team, jobs[0], text)), n)
  {
    if n > 0 { TextAfterFirst(team, jobs, text, n - 1); }
  }

  lemma {:induction false} ChainIsFold(team: Team, jobs: seq<Job>, text: string)
    ensures Chain(team, jobs, text) == FoldChain(team, jobs, text)
    decreases |jobs|
  {
    if jobs != [] {
      var next := Forward(team, RunSafely(team, jobs[0], text));
      ChainIsFold(team, jobs[1..], next);
      forall i | 0 < i < |jobs| ensures Chain(team, jobs, text)[i] == Chain(team, jobs[1..], next)[i - 1] {
        TextAfterFirst(team, jobs, text, i - 1);
      }
    }
  }

  // ---- What comes out, said without the code's own words -----------------------------------------

  /** What a run comes to is what its result reports: an answer keeps its fields, a bare value stands
      under `output`, a number under `confidence` is the confidence; anything that went wrong leaves
      no output and says why. */
  ghost predicate Reports(team: Team, job: Job, text: string, r: SpecialistResult) {
    && r.name == job.name
    && match team.run(job.name, job.attempt, text)
       case Answered(raw) =>
         && r.error == None
         && (raw.Scalar? ==> r.output.Keys == {"output"} && r.output["output"] == raw.value)
         && (!raw.Scalar? ==> r.output == raw.fields)
         && forall n :: r.confidence == Some(n) <==> "confidence" in r.output && r.output["confidence"] == Number(n)
       case TimedOut =>
         r.output == map[] && r.confidence == None && r.error.Some? && "timed out" <= r.error.value
       case Raised(message) =>
         r.output == map[] && r.confidence == None && r.error == Some(message)
  }

  lemma RunReports(team: Team, job: Job, text: string)
    ensures Reports(team, job, text, RunSafely(team, job, text))
  {
    assert TIMED_OUT[..9] == "timed out";
  }

  /** The next step after an output: a text under `output` is handed on as it is, any other value there
      rendered, and without that field, as after a failed step, the rendering of the whole output. */
  ghost predicate HandsOn(team: Team, said: Output, job: Job, next: SpecialistResult) {
    && (forall s :: "output" in said && said["output"] == Text(s) ==> next == RunSafely(team, job, s))
    && ("output" in said && !said["output"].Text? ==> next == RunSafely(team, job, team.show(said["output"])))
    && ("output" !in said ==> next == RunSafely(team, job, team.showAll(said)))
  }

  lemma StepsHandOn(team: Team, jobs: seq<Job>, message: string, n: nat)
    requires n + 1 < |jobs|
    ensures var d := Outcome(team, "sequential", jobs, message);
            && d.Ran? && |d.results| == |jobs|
            && HandsOn(team, d.results[n].output, jobs[n + 1], d.results[n + 1])
  {
    var rs := Chain(team, jobs, message);
    assert rs[n + 1] == RunSafely(team, jobs[n + 1], Forward(team, rs[n]));
  }

  /** What each strategy runs: `single` the first alone, `parallel` everybody on the message,
      `sequential` everybody, the first of them on the message; any other name is refused. */
  lemma StrategiesRun(team: Team, strategy: string, jobs: seq<Job>, message: string)
    ensures var d := Outcome(team, strategy, jobs, message);
            && (d.Refused? <==> strategy !in ["single", "parallel", "sequential"])
            && (d.Refused? ==> d.failure == UnknownStrategy(strategy))
            && (strategy == "single" ==>
                  |d.results| == (if jobs == [] then 0 else 1)
                  && (jobs != [] ==> Reports(team, jobs[0], message, d.results[0])))
            && (strategy == "parallel" ==>
                  |d.results| == |jobs| && forall i | 0 <= i < |jobs| :: Reports(team, jobs[i], message, d.results[i]))
            && (strategy == "sequential" ==>
                  |d.results| == |jobs| && (jobs != [] ==> Reports(team, jobs[0], message, d.results[0])))
  {
    forall i | 0 <= i < |jobs| { RunReports(team, jobs[i], message); }
    if strategy == "sequential" && jobs != [] { assert TextAt(team, jobs, message, 0) == message; }
  }

  /** Nothing runs unless every name is known, and the first unknown one is the one reported. */
  lemma {:induction false} UnknownNamesAreRefused(team: Team, names: seq<string>)
    ensures Resolvable(team, names) == None <==> forall name | name in names :: name in team.members
    ensures forall k: nat | k < |names| && names[k] !in team.members && (forall i | 0 <= i < k :: names[i] in team.members) ::
              Resolvable(team, names) == Some(UnknownSpecialist(names[k]))
  {
    if names != [] {
      var rest := names[1..];
      UnknownNamesAreRefused(team, rest);
      assert names == [names[0]] + rest;
      forall k: nat | 0 < k < |names| && names[k] !in team.members && (forall i | 0 <= i < k :: names[i] in team.members)
        ensures Resolvable(team, names) == Some(UnknownSpecialist(names[k]))
      {
        assert rest[k - 1] == names[k];
        forall i | 0 <= i < k - 1 ensures rest[i] in team.members { assert rest[i] == names[i + 1]; }
      }
    }
  }

  /** A failure never stops a dispatch: one result per invoked specialist, in order, whatever the
      runs come to, and only those that answered can survive the merge. */
  lemma NobodyEscapes(team: Team, strategy: string, jobs: seq<Job>, text: string)
    requires Known(strategy)
    ensures var d := Outcome(team, strategy, jobs, text);
            var invoked := Invoked(strategy, jobs);
            && d.Ran? && |d.results| == |invoked|
            && forall i | 0 <= i < |invoked| ::
                 && d.results[i].name == invoked[i].name
                 && (Survives(d.results[i]) ==>
                       exists t :: team.run(invoked[i].name, invoked[i].attempt, t).Answered?
                                   && d.results[i].output == AsDict(team.run(invoked[i].name, invoked[i].attempt, t).raw))
  {
    var d := Outcome(team, strategy, jobs, text);
    var invoked := Invoked(strategy, jobs);
    forall i | 0 <= i < |invoked| && Survives(d.results[i])
      ensures exists t :: team.run(invoked[i].name, invoked[i].attempt, t).Answered?
                          && d.results[i].output == AsDict(team.run(invoked[i].name, invoked[i].attempt, t).raw)
    {
      var t := if strategy == "sequential" then TextAt(team, jobs, text, i) else text;
      assert d.results[i] == RunSafely(team, invoked[i], t);
    }
  }
}
