/** What a supervisor turn says, at every checkpoint a run with crashes can leave. */
module SupervisorAnswers {
  import opened ConflictResolver
  import opened Options
  import opened Dispatch
  import opened Retry
  import opened Supervisor
  import opened Checkpoints
  import opened SupervisorRuns
  import opened ResolverOutright

  /** The label counts only if it is configured; it picks its own route if it has one, and the default
      otherwise. */
  ghost predicate Labelled(cfg: Config, env: Env, message: string, t: Turn) {
    && t.message == message
    && (!t.next.Classifying? ==>
          t.intent == if env.labelOf(message) in cfg.intents then Some(env.labelOf(message)) else None)
    && (!t.next.Classifying? && !t.next.Routing? ==>
          var word := env.labelOf(message);
          t.route == if word in cfg.intents && word in cfg.routing then cfg.routing[word] else cfg.routing["_default"])
  }

  /** The merge is over the results as they stand, and the answer is its rendering. */
  ghost predicate Merged(cfg: Config, env: Env, t: Turn) {
    && (t.next.Confirming? || t.next.Gating? || t.next.End? ==> t.resolved == Resolve(cfg.policy, t.results))
    && t.answer == if t.next.End? then Some(AnswerText(env.team, t.resolved)) else None
  }

  /** Nothing passes the confirmation of a pending write before a human has decided, and nobody is
      asked without need. */
  ghost predicate Decided(cfg: Config, env: Env, pendingWrite: bool, t: Turn) {
    && t.pendingWrite == pendingWrite
    && (t.next.Confirming? || t.approved.Some? ==> cfg.confirmBeforeWrite && pendingWrite)
    && (t.approved.Some? ==> t.approved == env.decision)
    && ((t.next.Gating? || t.next.End?) && cfg.confirmBeforeWrite && pendingWrite ==> t.approved.Some?)
  }

  ghost predicate Faithful(cfg: Config, env: Env, message: string, pendingWrite: bool, t: Turn) {
    Labelled(cfg, env, message, t) && Merged(cfg, env, t) && Decided(cfg, env, pendingWrite, t)
  }

  lemma StepStaysFaithful(cfg: Config, env: Env, message: string, pendingWrite: bool, t: Turn)
    requires Faithful(cfg, env, message, pendingWrite, t)
    ensures Faithful(cfg, env, message, pendingWrite, Step(cfg, env, t))
  {
    if t.next.Dispatching? {
      DispatchStaysFaithful(cfg, env, t);
    } else {
      NodeStaysLabelled(cfg, env, message, t);
      NodeStaysMerged(cfg, env, t);
      NodeStaysDecided(cfg, env, pendingWrite, t);
    }
  }

  /** A pass touches results and attempts only. */
  lemma DispatchStaysFaithful(cfg: Config, env: Env, t: Turn)
    requires t.next.Dispatching?
    ensures var t' := Step(cfg, env, t);
            && (t'.next.Dispatching? || t'.next.Resolving?)
            && t' == t.(results := t'.results, attempts := t'.attempts, next := t'.next)
  {
  }

  lemma NodeStaysLabelled(cfg: Config, env: Env, message: string, t: Turn)
    requires !t.next.Dispatching? && Labelled(cfg, env, message, t)
    ensures Labelled(cfg, env, message, Step(cfg, env, t))
  {
  }

  lemma NodeStaysMerged(cfg: Config, env: Env, t: Turn)
    requires !t.next.Dispatching? && Merged(cfg, env, t)
    ensures Merged(cfg, env, Step(cfg, env, t))
  {
  }

  lemma NodeStaysDecided(cfg: Config, env: Env, pendingWrite: bool, t: Turn)
    requires !t.next.Dispatching? && Decided(cfg, env, pendingWrite, t)
    ensures Decided(cfg, env, pendingWrite, Step(cfg, env, t))
  {
  }

  // ---- The order of the results ----------------------------------------------------------------

  /** Names in the order of their first mention. */
  function FirstMentions(names: seq<string>): seq<string>
    decreases |names|
  {
    if names == [] then []
    else
      var before, name := FirstMentions(names[..|names| - 1]), names[|names| - 1];
      if name in before then before else before + [name]
  }

  lemma UpsertNames(results: seq<SpecialistResult>, r: SpecialistResult)
    requires Distinct(results)
    ensures Names(Upsert(results, r)) == if r.name in Names(results) then Names(results) else Names(results) + [r.name]
  {
    UpsertAt(results, r);
    if r.name in Names(results) {
      var i :| 0 <= i < |results| && Names(results)[i] == r.name;
      assert results[i].name == r.name;
    } else {
      forall i | 0 <= i < |results| ensures results[i].name != r.name { assert Names(results)[i] in Names(results); }
    }
  }

  lemma {:induction false} MergeNames(news: seq<SpecialistResult>)
    ensures Names(Merge([], news)) == FirstMentions(Names(news))
    decreases |news|
  {
    if news != [] {
      var before, r := news[..|news| - 1], news[|news| - 1];
      MergeNames(before);
      MergeAt([], before);
      UpsertNames(Merge([], before), r);
      assert Names(news)[..|news| - 1] == Names(before);
    }
  }

  /** Whom a first pass runs. */
  function Heads(t: Turn): seq<string> {
    if t.route.strategy == "single" && t.route.specialists != [] then t.route.specialists[..1] else t.route.specialists
  }

  /** One result per specialist that has run, in the order of the first pass. */
  ghost predicate Lined(t: Turn) {
    t.results == [] || Names(t.results) == FirstMentions(Heads(t))
  }

  lemma StepStaysLined(cfg: Config, env: Env, t: Turn, passes: nat)
    requires TurnOk(cfg, env, t, passes) && Lined(t)
    ensures Lined(Step(cfg, env, t))
  {
    if CommitsPass(cfg, env, t) {
      var news := Launch(cfg, env, t).results;
      if t.results == [] {
        LaunchFacts(cfg, env, t);
        assert Merge([], t.results) == [];
        assert Called(cfg, t) == Heads(t);
        MergeNames(news);
      } else {
        RetryAddsNobody(cfg, env, t);
        assert Names(AfterPass(cfg, t, news).results) == Names(t.results);
      }
    } else if t.next.Routing? {
      assert t.results == [];
    }
  }

  /** Whatever crashes, every checkpoint is faithful and its results stand in first-pass order. */
  lemma {:induction false} EveryCheckpointIsFaithful(cfg: Config, env: Env, step: Turn -> Turn, message: string,
                                                     pendingWrite: bool, ticks: Schedule)
    requires step == StepOf(cfg, env)
    ensures Faithful(cfg, env, message, pendingWrite, Resumed(step, Start(message, pendingWrite), ticks))
    ensures Lined(Resumed(step, Start(message, pendingWrite), ticks))
    decreases |ticks|
  {
    if ticks != [] {
      var before := ticks[..|ticks| - 1];
      EveryCheckpointIsFaithful(cfg, env, step, message, pendingWrite, before);
      AlwaysOk(cfg, env, step, message, pendingWrite, before);
      var w := After(cfg, env, step, Start(message, pendingWrite), before);
      StepStaysFaithful(cfg, env, message, pendingWrite, w.turn);
      StepStaysLined(cfg, env, w.turn, w.passes);
    }
  }

  /** The route, outright: at every checkpoint past the lookup a turn runs on the route of its label if
      that is a configured intent with a route of its own, and on the default route otherwise. */
  lemma LabelPicksTheRoute(cfg: Config, env: Env, step: Turn -> Turn, message: string, pendingWrite: bool,
                           ticks: Schedule)
    requires step == StepOf(cfg, env)
    ensures var t := Resumed(step, Start(message, pendingWrite), ticks);
            var word := env.labelOf(message);
            !t.next.Classifying? && !t.next.Routing? ==>
              && (word in cfg.intents && word in cfg.routing ==> t.route == cfg.routing[word])
              && (word !in cfg.intents || word !in cfg.routing ==> t.route == cfg.routing["_default"])
  {
    EveryCheckpointIsFaithful(cfg, env, step, message, pendingWrite, ticks);
  }

  /** What an answer must say of a list of results: with nothing usable, that nobody succeeded; of a
      winner the text it put out, its one output rendered, or all of its output. */
  ghost predicate Voices(team: Team, policy: Policy, results: seq<SpecialistResult>, answer: string) {
    && ((forall r | r in results :: !Usable(r)) ==> answer == "no_specialist_succeeded")
    && ((exists r :: r in results && Usable(r)) ==>
          exists w: nat :: Wins(policy, results, w) && Quotes(team, results[w], answer))
  }

  ghost predicate Quotes(team: Team, r: SpecialistResult, answer: string) {
    && (r.name == "" ==> answer == "no specialist produced a result")
    && (r.name != "" && r.output.Keys == {"output"} ==>
          && (forall s :: r.output["output"] == Text(s) ==> answer == s)
          && (!r.output["output"].Text? ==> answer == team.show(r.output["output"])))
    && (r.name != "" && r.output.Keys != {"output"} ==> answer == team.showAll(r.output))
  }

  lemma MergesAreVoiced(team: Team, policy: Policy, results: seq<SpecialistResult>)
    ensures Voices(team, policy, results, AnswerText(team, Resolve(policy, results)))
  {
    var resolution := Resolve(policy, results);
    ResolveMerges(policy, results);
    match resolution
    case NoneSucceeded =>
    case Resolved(winner, output, _, _) =>
      var w: nat :| Wins(policy, results, w) && results[w].name == winner && results[w].output == output;
      assert results[w] in results && Usable(results[w]);
      assert Quotes(team, results[w], AnswerText(team, resolution));
  }

  /** The answer, outright: whatever crashes, an answer once given voices the results of its turn. */
  lemma AnswersVoiceTheResults(cfg: Config, env: Env, step: Turn -> Turn, message: string, pendingWrite: bool,
                               ticks: Schedule)
    requires step == StepOf(cfg, env)
    ensures var t := Resumed(step, Start(message, pendingWrite), ticks);
            && (t.answer.Some? <==> t.next.End?)
            && (t.answer.Some? ==> Voices(env.team, cfg.policy, t.results, t.answer.value))
  {
    EveryCheckpointIsFaithful(cfg, env, step, message, pendingWrite, ticks);
    MergesAreVoiced(env.team, cfg.policy, Resumed(step, Start(message, pendingWrite), ticks).results);
  }

  /** Only a first pass can charge a specialist it did not run: a `single` turn holds one result at
      most, so its retries list one name at most. */
  lemma OnlyAFirstPassOvercharges(cfg: Config, env: Env, step: Turn -> Turn, message: string, pendingWrite: bool,
                                  ticks: Schedule)
    requires step == StepOf(cfg, env)
    ensures var t := Resumed(step, Start(message, pendingWrite), ticks);
            t.route.strategy == "single" && t.results != [] ==> |t.results| == 1 && |ToRun(cfg, t)| <= 1
  {
    EveryCheckpointIsFaithful(cfg, env, step, message, pendingWrite, ticks);
    AlwaysOk(cfg, env, step, message, pendingWrite, ticks);
    var t := After(cfg, env, step, Start(message, pendingWrite), ticks).turn;
    if t.route.strategy == "single" && t.results != [] { SingleHoldsOne(cfg, t); }
  }

  lemma SingleHoldsOne(cfg: Config, t: Turn)
    requires Lined(t) && Distinct(t.results) && t.route.strategy == "single" && t.results != []
    ensures |t.results| == 1 && |ToRun(cfg, t)| <= 1
  {
    OneMention(Heads(t));
    assert |t.results| == |Names(t.results)| == |Heads(t)| == 1;
    MergeFresh(t.results);
    assert t.results[1..] == [] && ToRetry(t.results[1..], t.attempts, cfg.maxAttempts, cfg.retryOn) == [];
    assert |ToRetry(t.results, t.attempts, cfg.maxAttempts, cfg.retryOn)| <= 1;
  }

  lemma OneMention(names: seq<string>)
    ensures |names| <= 1 ==> FirstMentions(names) == names
    ensures names == [] <==> FirstMentions(names) == []
  {
    if |names| == 1 { assert names[..0] == []; }
  }

  /** An input: two specialists under `single`.  After classifying, routing and one pass the second
      has been charged an attempt and never been run. */
  lemma ChargedAndNeverRun(env: Env, message: string)
    requires {"a", "b"} <= env.team.members
    ensures var routing: map<string, Route> := map[DEFAULT := Route(["a", "b"], "single")];
            var cfg: Config := GraphConfig([], routing, Policy([], FirstByPriority), 3, [], false);
            var w := After(cfg, env, StepOf(cfg, env), Start(message, false), [Commit, Commit, Commit]);
            && Made(w.turn.attempts, "b") == 1 && w.invoked["b"] == 0
            && Made(w.turn.attempts, "a") == 1 && w.invoked["a"] == 1
  {
    var routing: map<string, Route> := map[DEFAULT := Route(["a", "b"], "single")];
    var cfg: Config := GraphConfig([], routing, Policy([], FirstByPriority), 3, [], false);
    var step := StepOf(cfg, env);
    var start := Start(message, false);
    var three: Schedule := [Commit, Commit, Commit];
    var two, one: Schedule := [Commit, Commit], [Commit];
    assert three[..2] == two && two[..1] == one && one[..0] == [];
    var t := start.(intent := None, route := routing[DEFAULT], next := Dispatching);
    assert Resumed(step, start, one) == start.(intent := None, next := Routing);
    assert Resumed(step, start, two) == t;
    assert Resumed(step, start, three) == Step(cfg, env, t);
    FirstSinglePass(cfg, env, t);
    assert After(cfg, env, step, start, one).invoked == multiset{};
    assert After(cfg, env, step, start, two) == World(t, 0, multiset{}, multiset{});
  }

  lemma FirstSinglePass(cfg: Config, env: Env, t: Turn)
    requires t.next.Dispatching? && t.results == [] && t.attempts == map[] && t.route == Route(["a", "b"], "single")
    requires {"a", "b"} <= env.team.members
    ensures CommitsPass(cfg, env, t) && Invocations(cfg, env, t) == multiset(["a"])
    ensures var t' := Step(cfg, env, t); Made(t'.attempts, "a") == 1 && Made(t'.attempts, "b") == 1
  {
    var names := ["a", "b"];
    assert Merge([], t.results) == [];
    assert ToRun(cfg, t) == names;
    forall name | name in names ensures name in env.team.members {}
    AllResolvable(env.team, names);
    BumpAdds(t.attempts, names, "a");
    BumpAdds(t.attempts, names, "b");
    assert names[..1] == ["a"];
  }

  /** An answer is given only once a pending write has been decided, where that is asked for. */
  lemma NoAnswerBeforeTheDecision(cfg: Config, env: Env, step: Turn -> Turn, message: string, pendingWrite: bool,
                                  ticks: Schedule)
    requires step == StepOf(cfg, env) && cfg.confirmBeforeWrite && pendingWrite
    ensures var t := Resumed(step, Start(message, pendingWrite), ticks);
            t.answer.Some? ==> env.decision.Some? && t.approved == env.decision
  {
    EveryCheckpointIsFaithful(cfg, env, step, message, pendingWrite, ticks);
  }

  /** A winner that answered with plain text is quoted verbatim. */
  lemma PlainAnswersAreVerbatim(cfg: Config, env: Env, step: Turn -> Turn, message: string, pendingWrite: bool,
                                ticks: Schedule, r: SpecialistResult, attempt: nat, text: string, s: string)
    requires step == StepOf(cfg, env)
    requires var t := Resumed(step, Start(message, pendingWrite), ticks);
             && t.next.End? && r in t.results && r.name != ""
             && Resolve(cfg.policy, t.results).Resolved?
             && Resolve(cfg.policy, t.results).winner == r.name && Resolve(cfg.policy, t.results).output == r.output
    requires r == RunSafely(env.team, Job(r.name, attempt), text)
    requires env.team.run(r.name, attempt, text) == Answered(Scalar(Text(s)))
    ensures Resumed(step, Start(message, pendingWrite), ticks).answer == Some(s)
  {
    EveryCheckpointIsFaithful(cfg, env, step, message, pendingWrite, ticks);
    assert r.output == map["output" := Text(s)];
    assert r.output.Keys == {"output"};
  }

  // ---- What the decision does not do -----------------------------------------------------------

  /** The same but for what was approved. */
  ghost predicate Alike(t: Turn, t': Turn) {
    t' == t.(approved := t'.approved)
  }

  lemma StepStaysAlike(cfg: Config, env: Env, env': Env, t: Turn, t': Turn)
    requires env' == env.(decision := env'.decision) && env.decision.Some? && env'.decision.Some? && Alike(t, t')
    ensures Alike(Step(cfg, env, t), Step(cfg, env', t'))
  {
    if t.next.Dispatching? { PassesAlike(cfg, env, env', t, t'); }
  }

  lemma PassesAlike(cfg: Config, env: Env, env': Env, t: Turn, t': Turn)
    requires env'.team == env.team && t.next.Dispatching? && Alike(t, t')
    ensures Alike(Step(cfg, env, t), Step(cfg, env', t'))
  {
    LaunchesAlike(cfg, env, env', t, t');
    if Launch(cfg, env, t).Ran? { AfterPassesAlike(cfg, t, t', Launch(cfg, env, t).results); }
  }

  lemma LaunchesAlike(cfg: Config, env: Env, env': Env, t: Turn, t': Turn)
    requires env'.team == env.team && Alike(t, t')
    ensures Launch(cfg, env', t') == Launch(cfg, env, t)
  {
    assert ToRun(cfg, t') == ToRun(cfg, t);
    assert Jobs(t', ToRun(cfg, t)) == Jobs(t, ToRun(cfg, t));
  }

  lemma AfterPassesAlike(cfg: Config, t: Turn, t': Turn, news: seq<SpecialistResult>)
    requires Alike(t, t')
    ensures Alike(AfterPass(cfg, t, news), AfterPass(cfg, t', news))
  {
  }

  /** The decision holds the turn up until it is there; approved or rejected, the answer is the
      same. */
  lemma {:induction false} DecisionOnlyDelays(cfg: Config, env: Env, env': Env, step: Turn -> Turn, step': Turn -> Turn,
                                              message: string, pendingWrite: bool, ticks: Schedule)
    requires step == StepOf(cfg, env) && step' == StepOf(cfg, env')
    requires env' == env.(decision := env'.decision) && env.decision.Some? && env'.decision.Some?
    ensures Alike(Resumed(step, Start(message, pendingWrite), ticks), Resumed(step', Start(message, pendingWrite), ticks))
    decreases |ticks|
  {
    if ticks != [] {
      var before := ticks[..|ticks| - 1];
      DecisionOnlyDelays(cfg, env, env', step, step', message, pendingWrite, before);
      StepStaysAlike(cfg, env, env', Resumed(step, Start(message, pendingWrite), before),
                     Resumed(step', Start(message, pendingWrite), before));
    }
  }
}
