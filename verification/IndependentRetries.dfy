/** What a parallel turn comes to: every specialist retried by itself, and one merge at the end. */
module IndependentRetries {
  import opened ConflictResolver
  import opened Dispatch
  import opened Options
  import opened Retry
  import opened Supervisor
  import opened Checkpoints
  import opened SupervisorRuns
  import opened SupervisorAnswers

  /** One specialist alone with its failures: run it again while its last result may be retried and
      attempts are left. */
  function RetryAlone(cfg: Config, env: Env, message: string, name: string,
                      made: nat, last: SpecialistResult): SpecialistResult
    decreases cfg.maxAttempts - made
  {
    if IsRetryable(last, cfg.retryOn) && made < cfg.maxAttempts
    then RetryAlone(cfg, env, message, name, made + 1, RunSafely(env.team, Job(name, made), message))
    else last
  }

  function OutcomeOf(cfg: Config, env: Env, message: string, name: string): SpecialistResult {
    RetryAlone(cfg, env, message, name, 1, RunSafely(env.team, Job(name, 0), message))
  }

  function Outcomes(cfg: Config, env: Env, message: string, names: seq<string>): (rs: seq<SpecialistResult>)
    ensures |rs| == |names| && forall i | 0 <= i < |names| :: rs[i] == OutcomeOf(cfg, env, message, names[i])
  {
    seq(|names|, i requires 0 <= i < |names| => OutcomeOf(cfg, env, message, names[i]))
  }

  ghost predicate DistinctNames(names: seq<string>) {
    forall i, j | 0 <= i < j < |names| :: names[i] != names[j]
  }

  ghost predicate Fanned(t: Turn) {
    t.route.strategy == "parallel" && DistinctNames(t.route.specialists)
  }

  /** Each result is some way along its own retries. */
  ghost predicate OnTheWay(cfg: Config, env: Env, t: Turn) {
    var names := t.route.specialists;
    && |t.results| == |names|
    && forall i | 0 <= i < |names| ::
         && t.results[i].name == names[i]
         && RetryAlone(cfg, env, t.message, names[i], Made(t.attempts, names[i]), t.results[i])
            == OutcomeOf(cfg, env, t.message, names[i])
  }

  predicate Settled(t: Turn) {
    t.next.Resolving? || t.next.Confirming? || t.next.Gating? || t.next.End?
  }

  ghost predicate Converging(cfg: Config, env: Env, t: Turn) {
    && (t.next.Classifying? || t.next.Routing? ==> t.results == [] && t.attempts == map[])
    && (Fanned(t) && t.next.Dispatching? ==> (t.results == [] && t.attempts == map[]) || OnTheWay(cfg, env, t))
    && (Fanned(t) && Settled(t) ==>
          OnTheWay(cfg, env, t) && ToRetry(t.results, t.attempts, cfg.maxAttempts, cfg.retryOn) == [])
  }

  // ---- One pass ----------------------------------------------------------------------------------

  lemma {:induction false} NamedOnce(names: seq<string>, name: string)
    requires DistinctNames(names)
    ensures multiset(names)[name] == if name in names then 1 else 0
    decreases |names|
  {
    if names != [] {
      var before, last := names[..|names| - 1], names[|names| - 1];
      NamedOnce(before, name);
      assert names == before + [last];
    }
  }

  /** What a committed parallel pass runs and what it makes of the turn. */
  lemma ParallelPass(cfg: Config, env: Env, t: Turn)
    requires t.route.strategy == "parallel" && CommitsPass(cfg, env, t)
    ensures var names, news := ToRun(cfg, t), Launch(cfg, env, t).results;
            && |news| == |names|
            && (forall i | 0 <= i < |names| ::
                  && news[i].name == names[i]
                  && news[i] == RunSafely(env.team, Job(names[i], Made(t.attempts, names[i])), t.message))
            && Step(cfg, env, t) == AfterPass(cfg, t, news)
  {
  }

  lemma FirstPassSetsOut(cfg: Config, env: Env, t: Turn)
    requires Fanned(t) && t.results == [] && t.attempts == map[] && CommitsPass(cfg, env, t)
    ensures OnTheWay(cfg, env, Step(cfg, env, t))
  {
    var names := t.route.specialists;
    var news := Launch(cfg, env, t).results;
    ParallelPass(cfg, env, t);
    assert Merge([], t.results) == [];
    assert ToRun(cfg, t) == names;
    FirstResults(cfg, env, t, news);
  }

  lemma FirstResults(cfg: Config, env: Env, t: Turn, news: seq<SpecialistResult>)
    requires Fanned(t) && t.results == [] && t.attempts == map[] && ToRun(cfg, t) == t.route.specialists
    requires |news| == |t.route.specialists|
    requires forall i | 0 <= i < |news| ::
               news[i].name == t.route.specialists[i] && news[i] == RunSafely(env.team, Job(news[i].name, 0), t.message)
    ensures OnTheWay(cfg, env, AfterPass(cfg, t, news))
  {
    assert Merge([], []) == [];
    MergeFresh(news);
    forall i | 0 <= i < |news| ensures Made(AfterPass(cfg, t, news).attempts, t.route.specialists[i]) == 1 {
      BumpAdds(t.attempts, t.route.specialists, t.route.specialists[i]);
      NamedOnce(t.route.specialists, t.route.specialists[i]);
    }
  }

  /** In a parallel pass the latest word on a name that was run is that run. */
  lemma LatestIsTheRun(cfg: Config, env: Env, t: Turn, name: string)
    requires t.route.strategy == "parallel" && CommitsPass(cfg, env, t)
    ensures Latest(Launch(cfg, env, t).results, name)
         == if name in ToRun(cfg, t) then Some(RunSafely(env.team, Job(name, Made(t.attempts, name)), t.message))
            else None
  {
    var names, news := ToRun(cfg, t), Launch(cfg, env, t).results;
    LatestNames(news);
    ParallelPass(cfg, env, t);
    if name in names {
      var i :| 0 <= i < |names| && names[i] == name;
      assert news[i].name == name;
    }
  }

  /** A retry pass replaces a result by one more run exactly if it may be retried, and charges it. */
  lemma RetryRuns(cfg: Config, env: Env, t: Turn, i: nat)
    requires t.route.strategy == "parallel" && Distinct(t.results) && i < |t.results| && CommitsPass(cfg, env, t)
    ensures var t', r := Step(cfg, env, t), t.results[i];
            var made := Made(t.attempts, r.name);
            && |t'.results| == |t.results|
            && if Eligible(r, t.attempts, cfg.maxAttempts, cfg.retryOn)
               then t'.results[i] == RunSafely(env.team, Job(r.name, made), t.message)
                    && Made(t'.attempts, r.name) == made + 1
               else t'.results[i] == r && Made(t'.attempts, r.name) == made
  {
    var name, news := t.results[i].name, Launch(cfg, env, t).results;
    ParallelPass(cfg, env, t);
    RetryAddsNobody(cfg, env, t);
    MergeFresh(t.results);
    MergeAt(t.results, news);
    LatestIsTheRun(cfg, env, t, name);
    BumpAdds(t.attempts, ToRun(cfg, t), name);
    ToRetryOnce(t.results, t.attempts, cfg.maxAttempts, cfg.retryOn, name);
  }

  /** One more attempt, or none, is one step of the specialist's own retries. */
  lemma MovesOn(cfg: Config, env: Env, message: string, name: string,
                made: nat, last: SpecialistResult, made': nat, last': SpecialistResult)
    requires if IsRetryable(last, cfg.retryOn) && made < cfg.maxAttempts
             then last' == RunSafely(env.team, Job(name, made), message) && made' == made + 1
             else last' == last && made' == made
    ensures RetryAlone(cfg, env, message, name, made', last') == RetryAlone(cfg, env, message, name, made, last)
  {
  }

  lemma RetryMovesOn(cfg: Config, env: Env, t: Turn, i: nat)
    requires t.route.strategy == "parallel" && Distinct(t.results) && CommitsPass(cfg, env, t) && i < |t.results|
    ensures var t', r := Step(cfg, env, t), t.results[i];
            && |t'.results| == |t.results| && t'.results[i].name == r.name
            && RetryAlone(cfg, env, t.message, r.name, Made(t'.attempts, r.name), t'.results[i])
               == RetryAlone(cfg, env, t.message, r.name, Made(t.attempts, r.name), r)
  {
    RetryRuns(cfg, env, t, i);
    var t', r := Step(cfg, env, t), t.results[i];
    MovesOn(cfg, env, t.message, r.name, Made(t.attempts, r.name), r, Made(t'.attempts, r.name), t'.results[i]);
  }

  lemma RetryPassMovesOn(cfg: Config, env: Env, t: Turn)
    requires Fanned(t) && Distinct(t.results) && OnTheWay(cfg, env, t) && CommitsPass(cfg, env, t)
    requires t.results != []
    ensures OnTheWay(cfg, env, Step(cfg, env, t))
  {
    ParallelPass(cfg, env, t);
    RetryMovesOn(cfg, env, t, 0);
    forall i: nat | i < |t.results|
      ensures var t', name := Step(cfg, env, t), t.route.specialists[i];
              && |t'.results| == |t.results| && t'.results[i].name == name
              && RetryAlone(cfg, env, t.message, name, Made(t'.attempts, name), t'.results[i])
                 == OutcomeOf(cfg, env, t.message, name)
    {
      RetryMovesOn(cfg, env, t, i);
    }
  }

  lemma PassConverges(cfg: Config, env: Env, t: Turn, passes: nat)
    requires TurnOk(cfg, env, t, passes) && Converging(cfg, env, t) && CommitsPass(cfg, env, t)
    ensures Converging(cfg, env, Step(cfg, env, t))
  {
    if Fanned(t) {
      if t.results == [] && t.attempts == map[] {
        FirstPassSetsOut(cfg, env, t);
      } else if t.results != [] {
        RetryPassMovesOn(cfg, env, t);
      } else {
        NobodyRouted(cfg, env, t);
      }
    }
  }

  lemma NobodyRouted(cfg: Config, env: Env, t: Turn)
    requires t.results == [] && t.route.specialists == [] && CommitsPass(cfg, env, t)
    ensures Step(cfg, env, t).results == []
  {
    assert Merge([], t.results) == [];
  }

  lemma StepConverges(cfg: Config, env: Env, t: Turn, passes: nat)
    requires TurnOk(cfg, env, t, passes) && Converging(cfg, env, t)
    ensures Converging(cfg, env, Step(cfg, env, t))
  {
    if CommitsPass(cfg, env, t) {
      PassConverges(cfg, env, t, passes);
    } else if !t.next.Dispatching? {
      NodeConverges(cfg, env, t);
    }
  }

  lemma NodeConverges(cfg: Config, env: Env, t: Turn)
    requires Converging(cfg, env, t) && !t.next.Dispatching?
    ensures Converging(cfg, env, Step(cfg, env, t))
  {
    var t' := Step(cfg, env, t);
    assert t'.results == t.results && t'.attempts == t.attempts && t'.message == t.message;
    if t.next.Routing? { assert t'.next.Dispatching?; }
    else { assert t'.route == t.route; }
  }

  lemma {:induction false} AlwaysConverging(cfg: Config, env: Env, step: Turn -> Turn, message: string, pendingWrite: bool,
                                            ticks: Schedule)
    requires step == StepOf(cfg, env)
    ensures Converging(cfg, env, Resumed(step, Start(message, pendingWrite), ticks))
    decreases |ticks|
  {
    if ticks != [] {
      var before := ticks[..|ticks| - 1];
      AlwaysConverging(cfg, env, step, message, pendingWrite, before);
      AlwaysOk(cfg, env, step, message, pendingWrite, before);
      var w := After(cfg, env, step, Start(message, pendingWrite), before);
      StepConverges(cfg, env, w.turn, w.passes);
    }
  }

  // ---- The turn ----------------------------------------------------------------------------------

  lemma {:induction false} NothingToRetry(results: seq<SpecialistResult>, attempts: Attempts,
                                          maxAttempts: int, retryOn: seq<string>)
    requires ToRetry(results, attempts, maxAttempts, retryOn) == []
    ensures forall i | 0 <= i < |results| :: !Eligible(results[i], attempts, maxAttempts, retryOn)
  {
    if results != [] { NothingToRetry(results[1..], attempts, maxAttempts, retryOn); }
  }

  /** However the passes fall and whatever crashes: once a parallel turn has left its loop, its results
      are those of its specialists each retried alone, in the order of the route, and an answer, once
      there, renders the merge of just those. */
  lemma ParallelTurnsAreIndependentRetries(cfg: Config, env: Env, step: Turn -> Turn, message: string,
                                           pendingWrite: bool, ticks: Schedule)
    requires step == StepOf(cfg, env)
    ensures var t := Resumed(step, Start(message, pendingWrite), ticks);
            var word := env.labelOf(message);
            var route := if word in cfg.intents && word in cfg.routing then cfg.routing[word] else cfg.routing["_default"];
            route.strategy == "parallel" && DistinctNames(route.specialists) ==>
              && (Settled(t) ==> t.results == Outcomes(cfg, env, message, route.specialists))
              && (t.answer.Some? ==>
                    var outcomes := Outcomes(cfg, env, message, route.specialists);
                    t.answer.value == AnswerText(env.team, Resolve(cfg.policy, outcomes))
                    && Voices(env.team, cfg.policy, outcomes, t.answer.value))
  {
    EveryCheckpointIsFaithful(cfg, env, step, message, pendingWrite, ticks);
    AlwaysConverging(cfg, env, step, message, pendingWrite, ticks);
    AnswersVoiceTheResults(cfg, env, step, message, pendingWrite, ticks);
    var t := Resumed(step, Start(message, pendingWrite), ticks);
    if Fanned(t) && Settled(t) {
      NothingToRetry(t.results, t.attempts, cfg.maxAttempts, cfg.retryOn);
      assert t.results == Outcomes(cfg, env, message, t.route.specialists);
    }
  }
}
