/** Whole supervisor turns under crashes: the retry loop ends, its budget survives, and a resumed
    turn ends where the undisturbed one does. */
module SupervisorRuns {
  import opened ConflictResolver
  import opened Options
  import opened Dispatch
  import opened Retry
  import opened Supervisor
  import opened Checkpoints

  /** The most passes a turn can make. */
  function Cap(cfg: Config): nat {
    if cfg.maxAttempts > 1 then cfg.maxAttempts else 1
  }

  /** A result some run of that specialist really came to. */
  ghost predicate Genuine(team: Team, r: SpecialistResult) {
    exists a: nat, text: string :: r == RunSafely(team, Job(r.name, a), text)
  }

  function Routed(t: Turn, name: string): nat {
    multiset(t.route.specialists)[name]
  }

  /** Nobody is charged more attempts than the cap, or than the route names them. */
  ghost predicate WithinBudget(cfg: Config, t: Turn) {
    forall name :: Made(t.attempts, name) <= Routed(t, name) || Made(t.attempts, name) <= cfg.maxAttempts
  }

  /** Whoever may still be retried took part in every pass so far. */
  ghost predicate KeptUp(cfg: Config, t: Turn, passes: nat) {
    forall r | r in t.results && Eligible(r, t.attempts, cfg.maxAttempts, cfg.retryOn) ::
      passes <= Made(t.attempts, r.name)
  }

  /** What every checkpoint of a turn satisfies after the given number of passes. */
  ghost predicate TurnOk(cfg: Config, env: Env, t: Turn, passes: nat) {
    && Distinct(t.results)
    && (forall r | r in t.results :: Genuine(env.team, r) && r.name in t.route.specialists)
    && (passes == 0 ==> t.results == [] && t.attempts == map[])
    && (t.next.Classifying? || t.next.Routing? ==> passes == 0)
    && WithinBudget(cfg, t)
    && KeptUp(cfg, t, passes)
    && passes <= Cap(cfg)
    && (t.next.Dispatching? && passes > 0 ==> ShouldRetry(t.results, t.attempts, cfg.maxAttempts, cfg.retryOn))
    && (t.resolved.Resolved? ==> t.next.Confirming? || t.next.Gating? || t.next.End?)
    && (t.resolved.Resolved? ==>
          exists r :: r in t.results && Survives(r) && r.name == t.resolved.winner && r.output == t.resolved.output)
  }

  // ---- One pass --------------------------------------------------------------------------------

  /** What comes back from a launch: results of specialists that were to run, each run at most as
      often as listed. */
  lemma LaunchFacts(cfg: Config, env: Env, t: Turn)
    requires Launch(cfg, env, t).Ran?
    ensures var news := Launch(cfg, env, t).results;
            && (forall r | r in news :: Genuine(env.team, r) && r.name in ToRun(cfg, t))
            && multiset(Names(news)) <= multiset(ToRun(cfg, t))
            && Names(news) == Called(cfg, t)
  {
    var names := ToRun(cfg, t);
    var jobs := Jobs(t, names);
    var news := Launch(cfg, env, t).results;
    var invoked := Invoked(t.route.strategy, jobs);
    forall i | 0 <= i < |news|
      ensures news[i].name == names[i] && Genuine(env.team, news[i])
    {
      var text := if t.route.strategy == "sequential" then TextAt(env.team, jobs, t.message, i) else t.message;
      assert news[i] == RunSafely(env.team, Job(names[i], jobs[i].attempt), text);
    }
    assert Names(news) == names[..|news|];
    assert names == names[..|news|] + names[|news|..];
  }

  /** The specialists a pass really invokes. */
  function Called(cfg: Config, t: Turn): seq<string> {
    var names := ToRun(cfg, t);
    if t.route.strategy == "single" && names != [] then names[..1] else names
  }

  /** A result against the run behind it: what timed out is retried as a timeout, what was raised as an
      error of the specialist, but for a text that starts like a timeout and for one that is empty. */
  ghost predicate Judged(run: Run, r: SpecialistResult, retryOn: seq<string>) {
    match run
    case Answered(_) => !IsRetryable(r, retryOn)
    case TimedOut => IsRetryable(r, retryOn) <==> "timeout" in retryOn
    case Raised(text) =>
      if text == "" then !IsRetryable(r, retryOn)
      else if "timed out" <= text then IsRetryable(r, retryOn) <==> "timeout" in retryOn
      else IsRetryable(r, retryOn) <==> "specialist_error" in retryOn
  }

  lemma RunsAreJudged(team: Team, job: Job, text: string, retryOn: seq<string>)
    ensures Judged(team.run(job.name, job.attempt, text), RunSafely(team, job, text), retryOn)
  {
    RunReports(team, job, text);
  }

  /** A retry pass re-runs only the eligible, so it adds no name. */
  lemma RetryAddsNobody(cfg: Config, env: Env, t: Turn)
    requires Launch(cfg, env, t).Ran? && Distinct(t.results) && t.results != []
    ensures var news := Launch(cfg, env, t).results;
            var m := Merge(t.results, news);
            && AfterPass(cfg, t, news).results == m && |m| == |t.results|
            && (forall i | 0 <= i < |m| ::
                  && m[i].name == t.results[i].name
                  && (m[i] == t.results[i] || (m[i] in news && m[i].name in ToRun(cfg, t))))
            && (forall i | 0 <= i < |m| && t.results[i].name !in ToRun(cfg, t) :: m[i] == t.results[i])
  {
    var news := Launch(cfg, env, t).results;
    LaunchFacts(cfg, env, t);
    MergeFresh(t.results);
    forall r | r in news ensures Has(t.results, r.name) && r.name in ToRun(cfg, t) {
      ToRetryOnce(t.results, t.attempts, cfg.maxAttempts, cfg.retryOn, r.name);
    }
    MergeKnown(t.results, news);
  }

  /** Merging news of known names only. */
  lemma MergeKnown(prior: seq<SpecialistResult>, news: seq<SpecialistResult>)
    requires Distinct(prior) && forall r | r in news :: Has(prior, r.name)
    ensures var m := Merge(prior, news);
            && |m| == |prior|
            && (forall i | 0 <= i < |m| :: m[i].name == prior[i].name && (m[i] == prior[i] || m[i] in news))
            && (forall i | 0 <= i < |m| && !Has(news, prior[i].name) :: m[i] == prior[i])
  {
    MergeAt(prior, news);
    LatestNames(news);
    MergeKnownGrowsNot(prior, news);
  }

  lemma {:induction false} MergeKnownGrowsNot(prior: seq<SpecialistResult>, news: seq<SpecialistResult>)
    requires Distinct(prior) && forall r | r in news :: Has(prior, r.name)
    ensures |Merge(prior, news)| == |prior|
    decreases |news|
  {
    if news != [] {
      var before, r := news[..|news| - 1], news[|news| - 1];
      MergeKnownGrowsNot(prior, before);
      MergeAt(prior, before);
      MergeHas(prior, before, r.name);
      UpsertAt(Merge(prior, before), r);
    }
  }

  /** The first pass hears from the routed specialists only. */
  lemma FirstPassNames(cfg: Config, env: Env, t: Turn)
    requires Launch(cfg, env, t).Ran? && t.results == []
    ensures var news := Launch(cfg, env, t).results;
            var m := AfterPass(cfg, t, news).results;
            Distinct(m) && forall r | r in m :: r in news && r.name in t.route.specialists
  {
    var news := Launch(cfg, env, t).results;
    LaunchFacts(cfg, env, t);
    assert Merge([], t.results) == [];
    MergeAt([], news);
    LatestNames(news);
  }

  lemma PassKeepsBudget(cfg: Config, env: Env, t: Turn, passes: nat)
    requires TurnOk(cfg, env, t, passes) && t.next.Dispatching? && Launch(cfg, env, t).Ran?
    ensures WithinBudget(cfg, AfterPass(cfg, t, Launch(cfg, env, t).results))
  {
    MergeFresh(t.results);
    forall name
      ensures var a := Made(Bump(t.attempts, ToRun(cfg, t)), name); a <= Routed(t, name) || a <= cfg.maxAttempts
    {
      BumpAdds(t.attempts, ToRun(cfg, t), name);
      if t.results != [] {
        ToRetryOnce(t.results, t.attempts, cfg.maxAttempts, cfg.retryOn, name);
      }
    }
  }

  lemma PassKeepsUp(cfg: Config, env: Env, t: Turn, passes: nat)
    requires TurnOk(cfg, env, t, passes) && t.next.Dispatching? && Launch(cfg, env, t).Ran?
    requires t.results == [] ==> passes == 0
    ensures KeptUp(cfg, AfterPass(cfg, t, Launch(cfg, env, t).results), passes + 1)
  {
    var t' := AfterPass(cfg, t, Launch(cfg, env, t).results);
    MergeFresh(t.results);
    forall r | r in t'.results && Eligible(r, t'.attempts, cfg.maxAttempts, cfg.retryOn)
      ensures passes + 1 <= Made(t'.attempts, r.name)
    {
      BumpAdds(t.attempts, ToRun(cfg, t), r.name);
      if t.results == [] {
        FirstPassNames(cfg, env, t);
        assert r.name in multiset(t.route.specialists);
      } else {
        RetryKeepsUp(cfg, env, t, passes, r);
      }
    }
  }

  /** Whoever may still be retried after a retry pass was in it. */
  lemma RetryKeepsUp(cfg: Config, env: Env, t: Turn, passes: nat, r: SpecialistResult)
    requires TurnOk(cfg, env, t, passes) && t.next.Dispatching? && Launch(cfg, env, t).Ran? && t.results != []
    requires var t' := AfterPass(cfg, t, Launch(cfg, env, t).results);
             r in t'.results && Eligible(r, t'.attempts, cfg.maxAttempts, cfg.retryOn)
    ensures r.name in ToRun(cfg, t) && passes <= Made(t.attempts, r.name)
  {
    var t' := AfterPass(cfg, t, Launch(cfg, env, t).results);
    MergeFresh(t.results);
    BumpAdds(t.attempts, ToRun(cfg, t), r.name);
    RetryAddsNobody(cfg, env, t);
    ToRetryOnce(t.results, t.attempts, cfg.maxAttempts, cfg.retryOn, r.name);
    var i :| 0 <= i < |t'.results| && t'.results[i] == r;
    assert r.name in ToRun(cfg, t);
    assert Eligible(t.results[i], t.attempts, cfg.maxAttempts, cfg.retryOn);
  }

  lemma PassKeepsOk(cfg: Config, env: Env, t: Turn, passes: nat)
    requires TurnOk(cfg, env, t, passes) && t.next.Dispatching? && Launch(cfg, env, t).Ran?
    ensures TurnOk(cfg, env, AfterPass(cfg, t, Launch(cfg, env, t).results), passes + 1)
  {
    var t' := AfterPass(cfg, t, Launch(cfg, env, t).results);
    PassesLeft(cfg, env, t, passes);
    PassKeepsBudget(cfg, env, t, passes);
    PassKeepsUp(cfg, env, t, passes);
    LaunchFacts(cfg, env, t);
    MergeFresh(t.results);
    if t.results == [] {
      FirstPassNames(cfg, env, t);
    } else {
      RetryAddsNobody(cfg, env, t);
      MergeAt(t.results, Launch(cfg, env, t).results);
      forall r | r in t'.results ensures Genuine(env.team, r) && r.name in t.route.specialists {
        var i :| 0 <= i < |t'.results| && t'.results[i] == r;
        assert t.results[i] in t.results;
      }
    }
  }

  /** As long as the loop goes on, there is a pass left. */
  lemma PassesLeft(cfg: Config, env: Env, t: Turn, passes: nat)
    requires TurnOk(cfg, env, t, passes) && t.next.Dispatching?
    ensures passes < Cap(cfg) && (t.results == [] ==> passes == 0)
  {
    if passes > 0 {
      var name := ToRetry(t.results, t.attempts, cfg.maxAttempts, cfg.retryOn)[0];
      ToRetryOnce(t.results, t.attempts, cfg.maxAttempts, cfg.retryOn, name);
      var i :| 0 <= i < |t.results| && t.results[i].name == name;
      assert Eligible(t.results[i], t.attempts, cfg.maxAttempts, cfg.retryOn);
    }
  }

  // ---- Whole turns -----------------------------------------------------------------------------

  predicate CommitsPass(cfg: Config, env: Env, t: Turn) {
    t.next.Dispatching? && Launch(cfg, env, t).Ran?
  }

  function PassesAfter(cfg: Config, env: Env, t: Turn, passes: nat): nat {
    passes + if CommitsPass(cfg, env, t) then 1 else 0
  }

  /** When a pass commits and what it then runs: everybody named must exist and the strategy be known;
      the first pass names the whole route, a later one the eligible; and each strategy runs them on
      the turn's message in its own way. */
  lemma PassesRun(cfg: Config, env: Env, t: Turn)
    requires t.next.Dispatching? && Distinct(t.results)
    ensures CommitsPass(cfg, env, t)
       <==> t.route.strategy in ["single", "parallel", "sequential"]
            && forall name | name in ToRun(cfg, t) :: name in env.team.members
    ensures ToRun(cfg, t) == if t.results == [] then t.route.specialists
                             else ToRetry(t.results, t.attempts, cfg.maxAttempts, cfg.retryOn)
    ensures CommitsPass(cfg, env, t) ==> Runs(env.team, t, ToRun(cfg, t), Launch(cfg, env, t).results)
  {
    var names := ToRun(cfg, t);
    MergeFresh(t.results);
    UnknownNamesAreRefused(env.team, names);
    StrategiesRun(env.team, t.route.strategy, Jobs(t, names), t.message);
    if t.route.strategy == "sequential" {
      forall n: nat | n + 1 < |names| { StepsHandOn(env.team, Jobs(t, names), t.message, n); }
    }
  }

  ghost predicate Runs(team: Team, t: Turn, names: seq<string>, news: seq<SpecialistResult>) {
    var jobs := Jobs(t, names);
    && |news| == (if t.route.strategy == "single" && names != [] then 1 else |names|)
    && (t.route.strategy == "parallel" ==> forall i | 0 <= i < |news| :: Reports(team, jobs[i], t.message, news[i]))
    && (news != [] ==> Reports(team, jobs[0], t.message, news[0]))
    && (t.route.strategy == "sequential" ==>
          forall n: nat | n + 1 < |news| :: HandsOn(team, news[n].output, jobs[n + 1], news[n + 1]))
  }

  lemma StepKeepsOk(cfg: Config, env: Env, t: Turn, passes: nat)
    requires TurnOk(cfg, env, t, passes)
    ensures TurnOk(cfg, env, Step(cfg, env, t), PassesAfter(cfg, env, t, passes))
  {
    if t.next.Dispatching? {
      if CommitsPass(cfg, env, t) { PassKeepsOk(cfg, env, t, passes); }
    } else if t.next.Resolving? {
      ResolvingKeepsOk(cfg, env, t, passes);
    } else {
      NodeKeepsOk(cfg, env, t, passes);
    }
  }

  lemma ResolvingKeepsOk(cfg: Config, env: Env, t: Turn, passes: nat)
    requires TurnOk(cfg, env, t, passes) && t.next.Resolving?
    ensures TurnOk(cfg, env, Step(cfg, env, t), passes)
  {
    ResolvePicksTheWinner(cfg.policy, t.results);
  }

  lemma NodeKeepsOk(cfg: Config, env: Env, t: Turn, passes: nat)
    requires TurnOk(cfg, env, t, passes) && !t.next.Dispatching? && !t.next.Resolving?
    ensures TurnOk(cfg, env, Step(cfg, env, t), passes)
  {
  }

  /** Nodes still to come, counting every pass that may yet be made. */
  function Rank(cfg: Config, t: Turn, passes: nat): int {
    match t.next
    case Classifying => Cap(cfg) + 5
    case Routing => Cap(cfg) + 4
    case Dispatching => Cap(cfg) - passes + 3
    case Resolving => 3
    case Confirming => 2
    case Gating => 1
    case End => 0
  }

  /** Every commit brings the end nearer: the loop cannot go round for ever. */
  lemma StepDescends(cfg: Config, env: Env, t: Turn, passes: nat)
    requires TurnOk(cfg, env, t, passes)
    ensures Step(cfg, env, t) == t
            || Rank(cfg, Step(cfg, env, t), PassesAfter(cfg, env, t, passes)) < Rank(cfg, t, passes)
    ensures Rank(cfg, t, passes) >= 0
  {
    RankIsNatural(cfg, env, t, passes);
    if t.next.Dispatching? {
      DispatchDescends(cfg, env, t, passes);
    } else {
      var t' := Step(cfg, env, t);
      assert t' == t || Rank(cfg, t', passes) < Rank(cfg, t, passes) by { NodeDescends(cfg, env, t); }
    }
  }

  lemma RankIsNatural(cfg: Config, env: Env, t: Turn, passes: nat)
    requires TurnOk(cfg, env, t, passes)
    ensures Rank(cfg, t, passes) >= 0
  {
  }

  lemma NodeDescends(cfg: Config, env: Env, t: Turn)
    requires !t.next.Dispatching?
    ensures var t' := Step(cfg, env, t);
            || t' == t
            || (t.next.Classifying? && t'.next.Routing?) || (t.next.Routing? && t'.next.Dispatching?)
            || (t.next.Resolving? && (t'.next.Confirming? || t'.next.Gating?))
            || (t.next.Confirming? && t'.next.Gating?) || (t.next.Gating? && t'.next.End?)
  {
  }

  lemma DispatchDescends(cfg: Config, env: Env, t: Turn, passes: nat)
    requires TurnOk(cfg, env, t, passes) && t.next.Dispatching?
    ensures Step(cfg, env, t) == t
            || Rank(cfg, Step(cfg, env, t), PassesAfter(cfg, env, t, passes)) < Rank(cfg, t, passes)
  {
    PassesLeft(cfg, env, t, passes);
    PassGoesOn(cfg, env, t);
  }

  lemma PassGoesOn(cfg: Config, env: Env, t: Turn)
    requires t.next.Dispatching?
    ensures var t' := Step(cfg, env, t);
            t' == t || (CommitsPass(cfg, env, t) && (t'.next.Dispatching? || t'.next.Resolving?))
  {
  }

  /** A crash leaves part of a pass's invocations behind. */
  type Schedule = seq<Tick<multiset<string>>>

  function StepOf(cfg: Config, env: Env): Turn -> Turn {
    t => Step(cfg, env, t)
  }

  function Start(message: string, pendingWrite: bool): Turn {
    Begin(message, pendingWrite)
  }

  /** The checkpoint after a schedule, and what the schedule did besides. */
  datatype World = World(turn: Turn, passes: nat, invoked: multiset<string>, lost: multiset<string>)

  function Invocations(cfg: Config, env: Env, t: Turn): multiset<string> {
    if CommitsPass(cfg, env, t) then multiset(Called(cfg, t)) else multiset{}
  }

  /** A commit counts all of the pass as invoked, a crash some of it, and that some as lost. */
  function Account(cfg: Config, env: Env, w: World, tick: Tick<multiset<string>>, t': Turn): World {
    var running := Invocations(cfg, env, w.turn);
    match tick
    case Commit => World(t', PassesAfter(cfg, env, w.turn, w.passes), w.invoked + running, w.lost)
    case Crash(done) => World(t', w.passes, w.invoked + done * running, w.lost + done * running)
  }

  function After(cfg: Config, env: Env, step: Turn -> Turn, start: Turn, ticks: Schedule): (w: World)
    ensures w.turn == Resumed(step, start, ticks)
    decreases |ticks|
  {
    if ticks == [] then World(start, 0, multiset{}, multiset{})
    else
      var n := |ticks| - 1;
      Account(cfg, env, After(cfg, env, step, start, ticks[..n]), ticks[n], Resumed(step, start, ticks))
  }

  /** Invoked specialists are charged, or their pass was lost. */
  ghost predicate Accounted(w: World) {
    forall name :: w.invoked[name] <= Made(w.turn.attempts, name) + w.lost[name]
  }

  lemma StepKeepsAccounts(cfg: Config, env: Env, w: World)
    requires Accounted(w)
    ensures Accounted(Account(cfg, env, w, Commit, Step(cfg, env, w.turn)))
  {
    var w' := Account(cfg, env, w, Commit, Step(cfg, env, w.turn));
    if CommitsPass(cfg, env, w.turn) {
      LaunchFacts(cfg, env, w.turn);
      forall name ensures w'.invoked[name] <= Made(w'.turn.attempts, name) + w'.lost[name] {
        BumpAdds(w.turn.attempts, ToRun(cfg, w.turn), name);
        assert multiset(Called(cfg, w.turn))[name] <= multiset(ToRun(cfg, w.turn))[name];
      }
    }
  }

  ghost predicate WorldOk(cfg: Config, env: Env, w: World) {
    TurnOk(cfg, env, w.turn, w.passes) && Accounted(w)
  }

  lemma TickKeepsOk(cfg: Config, env: Env, w: World, tick: Tick<multiset<string>>)
    requires WorldOk(cfg, env, w)
    ensures WorldOk(cfg, env, Account(cfg, env, w, tick, if tick.Commit? then Step(cfg, env, w.turn) else w.turn))
  {
    if tick.Commit? {
      StepKeepsOk(cfg, env, w.turn, w.passes);
      StepKeepsAccounts(cfg, env, w);
    }
  }

  lemma {:induction false} AlwaysOk(cfg: Config, env: Env, step: Turn -> Turn, message: string, pendingWrite: bool,
                                    ticks: Schedule)
    requires step == StepOf(cfg, env)
    ensures WorldOk(cfg, env, After(cfg, env, step, Start(message, pendingWrite), ticks))
    decreases |ticks|
  {
    if ticks != [] {
      var n := |ticks| - 1;
      AlwaysOk(cfg, env, step, message, pendingWrite, ticks[..n]);
      TickKeepsOk(cfg, env, After(cfg, env, step, Start(message, pendingWrite), ticks[..n]), ticks[n]);
    }
  }

  /** Settled or `n` nodes nearer to the end. */
  ghost predicate Nearer(cfg: Config, env: Env, t: Turn, passes: nat, n: nat) {
    TurnOk(cfg, env, t, passes) && (Step(cfg, env, t) == t || Rank(cfg, t, passes) + n <= Cap(cfg) + 5)
  }

  ghost predicate Near(cfg: Config, env: Env, t: Turn, n: nat) {
    exists passes: nat :: Nearer(cfg, env, t, passes, n)
  }

  lemma StepComesNearer(cfg: Config, env: Env, t: Turn, n: nat)
    requires Near(cfg, env, t, n)
    ensures Near(cfg, env, Step(cfg, env, t), n + 1)
  {
    var passes: nat :| Nearer(cfg, env, t, passes, n);
    if Step(cfg, env, t) == t {
      assert Nearer(cfg, env, t, passes, n + 1);
    } else {
      StepKeepsOk(cfg, env, t, passes);
      StepDescends(cfg, env, t, passes);
      assert Nearer(cfg, env, Step(cfg, env, t), PassesAfter(cfg, env, t, passes), n + 1);
    }
  }

  lemma StartIsNear(cfg: Config, env: Env, message: string, pendingWrite: bool)
    ensures Near(cfg, env, Start(message, pendingWrite), 0)
  {
    assert Nearer(cfg, env, Start(message, pendingWrite), 0, 0);
  }

  lemma {:induction false} UndisturbedComesNearer(cfg: Config, env: Env, step: Turn -> Turn, message: string,
                                                  pendingWrite: bool, n: nat)
    requires step == StepOf(cfg, env)
    ensures Near(cfg, env, Undisturbed(step, Start(message, pendingWrite), n), n)
  {
    if n == 0 {
      StartIsNear(cfg, env, message, pendingWrite);
    } else {
      UndisturbedComesNearer(cfg, env, step, message, pendingWrite, n - 1);
      StepComesNearer(cfg, env, Undisturbed(step, Start(message, pendingWrite), n - 1), n - 1);
    }
  }

  lemma LowestRankStands(cfg: Config, env: Env, t: Turn)
    requires Near(cfg, env, t, Cap(cfg) + 5)
    ensures Step(cfg, env, t) == t
  {
    var passes: nat :| Nearer(cfg, env, t, passes, Cap(cfg) + 5);
    StepDescends(cfg, env, t, passes);
    if Step(cfg, env, t) != t {
      StepKeepsOk(cfg, env, t, passes);
      StepDescends(cfg, env, Step(cfg, env, t), PassesAfter(cfg, env, t, passes));
    }
  }

  /** The turn terminates: after at most five nodes and the capped passes nothing moves any more. */
  lemma UndisturbedIsOver(cfg: Config, env: Env, step: Turn -> Turn, message: string, pendingWrite: bool)
    requires step == StepOf(cfg, env)
    ensures var t := Undisturbed(step, Start(message, pendingWrite), Cap(cfg) + 5); step(t) == t
  {
    var t := Undisturbed(step, Start(message, pendingWrite), Cap(cfg) + 5);
    UndisturbedComesNearer(cfg, env, step, message, pendingWrite, Cap(cfg) + 5);
    LowestRankStands(cfg, env, t);
  }

  /** Identical resume: any schedule of crashes that lets enough nodes commit ends in the very state,
      and so the very answer, of the turn without crashes. */
  lemma IdenticalResume(cfg: Config, env: Env, step: Turn -> Turn, message: string, pendingWrite: bool, ticks: Schedule)
    requires step == StepOf(cfg, env) && Commits(ticks) >= Cap(cfg) + 5
    ensures After(cfg, env, step, Start(message, pendingWrite), ticks).turn
            == Undisturbed(step, Start(message, pendingWrite), Cap(cfg) + 5)
  {
    UndisturbedIsOver(cfg, env, step, message, pendingWrite);
    ResumedIsUndisturbed(step, Start(message, pendingWrite), ticks, Cap(cfg) + 5);
  }

  /** A crash loses at most one invocation of a specialist the route names once. */
  lemma CrashLosesOneInvocation(cfg: Config, env: Env, t: Turn, passes: nat, name: string)
    requires TurnOk(cfg, env, t, passes) && Routed(t, name) <= 1
    ensures Invocations(cfg, env, t)[name] <= 1
  {
    if CommitsPass(cfg, env, t) {
      LaunchFacts(cfg, env, t);
      MergeFresh(t.results);
      if t.results != [] {
        ToRetryOnce(t.results, t.attempts, cfg.maxAttempts, cfg.retryOn, name);
      }
      assert multiset(Called(cfg, t))[name] <= multiset(ToRun(cfg, t))[name];
    }
  }

  /** A step sets the route only while it is looked up, and that is before anything is lost. */
  lemma StepKeepsRoute(cfg: Config, env: Env, t: Turn)
    ensures var t' := Step(cfg, env, t);
            && (!t.next.Routing? ==> t'.route == t.route)
            && (t'.next.Classifying? || t'.next.Routing? ==> t.next.Classifying? || t' == t)
  {
  }

  /** Each crash loses at most one invocation of such a specialist, over the whole run. */
  lemma {:induction false} CrashesLoseOneEach(cfg: Config, env: Env, step: Turn -> Turn, message: string, pendingWrite: bool,
                                              ticks: Schedule, name: string)
    requires step == StepOf(cfg, env)
    ensures var w := After(cfg, env, step, Start(message, pendingWrite), ticks);
            && (w.turn.next.Classifying? || w.turn.next.Routing? ==> w.lost[name] == 0)
            && (Routed(w.turn, name) <= 1 ==> w.lost[name] <= Crashes(ticks))
    decreases |ticks|
  {
    if ticks != [] {
      var n := |ticks| - 1;
      CrashesLoseOneEach(cfg, env, step, message, pendingWrite, ticks[..n], name);
      AlwaysOk(cfg, env, step, message, pendingWrite, ticks[..n]);
      var w := After(cfg, env, step, Start(message, pendingWrite), ticks[..n]);
      StepKeepsRoute(cfg, env, w.turn);
      if ticks[n].Crash? && Routed(w.turn, name) <= 1 {
        CrashLosesOneInvocation(cfg, env, w.turn, w.passes, name);
      }
    }
  }

  /** The retry budget survives crashes: however the process dies, no more passes are committed than
      the cap, and a specialist is invoked at most as often as the route names it or the cap allows,
      not counting invocations in passes that were lost; one that the route names once is invoked at
      most as often as the cap allows and the process crashes. */
  lemma BudgetSurvivesCrashes(cfg: Config, env: Env, step: Turn -> Turn, message: string, pendingWrite: bool,
                              ticks: Schedule, name: string)
    requires step == StepOf(cfg, env)
    ensures var w := After(cfg, env, step, Start(message, pendingWrite), ticks);
            && w.passes <= Cap(cfg)
            && (w.invoked[name] <= Routed(w.turn, name) + w.lost[name] || w.invoked[name] <= cfg.maxAttempts + w.lost[name])
            && (Routed(w.turn, name) <= 1 ==> w.invoked[name] <= Cap(cfg) + Crashes(ticks))
  {
    AlwaysOk(cfg, env, step, message, pendingWrite, ticks);
    CrashesLoseOneEach(cfg, env, step, message, pendingWrite, ticks, name);
  }

  // ---- Charges and invocations -----------------------------------------------------------------

  /** A pass charges everybody it lists, and under `single` it runs only the first: the two agree
      exactly when the strategy is another or the list is no longer than that. */
  lemma ChargesAreInvocationsIff(cfg: Config, env: Env, t: Turn)
    requires CommitsPass(cfg, env, t)
    ensures (forall name :: Made(Step(cfg, env, t).attempts, name) == Made(t.attempts, name) + Invocations(cfg, env, t)[name])
       <==> t.route.strategy != "single" || |ToRun(cfg, t)| <= 1
    ensures Called(cfg, t) == ToRun(cfg, t) <==> t.route.strategy != "single" || |ToRun(cfg, t)| <= 1
  {
    var names := ToRun(cfg, t);
    forall name ensures Made(Step(cfg, env, t).attempts, name) == Made(t.attempts, name) + multiset(names)[name] {
      BumpAdds(t.attempts, names, name);
    }
    if t.route.strategy == "single" && |names| > 1 {
      SecondIsExtra(names);
    } else {
      assert Called(cfg, t) == names;
    }
  }

  lemma SecondIsExtra(names: seq<string>)
    requires |names| > 1
    ensures multiset(names)[names[1]] > multiset(names[..1])[names[1]]
  {
    assert names == names[..1] + [names[1]] + names[2..];
  }

  // ---- Turns that nothing holds up --------------------------------------------------------------

  /** Every routed specialist exists and every strategy is known. */
  ghost predicate Staffed(cfg: Config, env: Env) {
    forall key | key in cfg.routing ::
      Known(cfg.routing[key].strategy) && forall name | name in cfg.routing[key].specialists :: name in env.team.members
  }

  ghost predicate OnRoute(cfg: Config, t: Turn) {
    && (t.next.End? ==> t.answer.Some?)
    && (t.next.Classifying? || t.next.Routing? || exists key :: key in cfg.routing && t.route == cfg.routing[key])
  }

  lemma StepStaysOnRoute(cfg: Config, env: Env, t: Turn)
    requires OnRoute(cfg, t)
    ensures OnRoute(cfg, Step(cfg, env, t))
  {
    var t' := Step(cfg, env, t);
    if t.next.Routing? {
      assert exists key :: key in cfg.routing && t'.route == cfg.routing[key];
    } else {
      assert t'.route == t.route;
    }
  }

  lemma {:induction false} UndisturbedStaysOnRoute(cfg: Config, env: Env, step: Turn -> Turn, message: string,
                                                   pendingWrite: bool, n: nat)
    requires step == StepOf(cfg, env)
    ensures OnRoute(cfg, Undisturbed(step, Start(message, pendingWrite), n))
  {
    if n > 0 {
      UndisturbedStaysOnRoute(cfg, env, step, message, pendingWrite, n - 1);
      StepStaysOnRoute(cfg, env, Undisturbed(step, Start(message, pendingWrite), n - 1));
    }
  }

  /** A turn whose specialists exist, whose strategies are known and whose human answers, ends with an
      answer. */
  lemma StaffedTurnsAnswer(cfg: Config, env: Env, step: Turn -> Turn, message: string, pendingWrite: bool)
    requires step == StepOf(cfg, env) && Staffed(cfg, env) && env.decision.Some?
    ensures var t := Undisturbed(step, Start(message, pendingWrite), Cap(cfg) + 5);
            t.next == End && t.answer.Some?
  {
    var t := Undisturbed(step, Start(message, pendingWrite), Cap(cfg) + 5);
    UndisturbedIsOver(cfg, env, step, message, pendingWrite);
    UndisturbedStaysOnRoute(cfg, env, step, message, pendingWrite, Cap(cfg) + 5);
    UndisturbedComesNearer(cfg, env, step, message, pendingWrite, Cap(cfg) + 5);
    StandingTurnsAnswered(cfg, env, t, Cap(cfg) + 5);
  }

  /** With nothing to hold it up, a turn that stands still is over. */
  lemma StandingTurnsAnswered(cfg: Config, env: Env, t: Turn, n: nat)
    requires Staffed(cfg, env) && env.decision.Some? && OnRoute(cfg, t) && Near(cfg, env, t, n)
    requires Step(cfg, env, t) == t
    ensures t.next == End && t.answer.Some?
  {
    if t.next.Dispatching? {
      var passes: nat :| Nearer(cfg, env, t, passes, n);
      RoutedCanRun(cfg, env, t, passes);
      PassesMove(cfg, env, t, passes);
      assert false;
    }
  }

  lemma RoutedCanRun(cfg: Config, env: Env, t: Turn, passes: nat)
    requires TurnOk(cfg, env, t, passes) && t.next.Dispatching?
    requires Known(t.route.strategy) && forall name | name in t.route.specialists :: name in env.team.members
    ensures CommitsPass(cfg, env, t)
  {
    MergeFresh(t.results);
    forall name | name in ToRun(cfg, t) ensures name in env.team.members {
      if t.results != [] {
        ToRetryOnce(t.results, t.attempts, cfg.maxAttempts, cfg.retryOn, name);
      }
    }
    AllResolvable(env.team, ToRun(cfg, t));
  }

  /** A committed pass leaves the loop or charges an attempt. */
  lemma PassesMove(cfg: Config, env: Env, t: Turn, passes: nat)
    requires TurnOk(cfg, env, t, passes) && CommitsPass(cfg, env, t)
    ensures Step(cfg, env, t) != t
  {
    MergeFresh(t.results);
    PassesLeft(cfg, env, t, passes);
    LaunchFacts(cfg, env, t);
    var names := ToRun(cfg, t);
    if names != [] {
      BumpAdds(t.attempts, names, names[0]);
    }
  }

  lemma {:induction false} AllResolvable(team: Team, names: seq<string>)
    requires forall name | name in names :: name in team.members
    ensures Resolvable(team, names) == None
  {
    if names != [] { AllResolvable(team, names[1..]); }
  }

  // ---- What the results are worth ---------------------------------------------------------------

  /** A retry pass keeps every specialist's place, never touches a success or an exhausted failure,
      and replaces the rest by what their new run came to. */
  lemma RetryKeepsSuccesses(cfg: Config, env: Env, t: Turn, i: nat)
    requires CommitsPass(cfg, env, t) && Distinct(t.results) && i < |t.results|
    ensures var t' := Step(cfg, env, t);
            && |t'.results| == |t.results| && t'.results[i].name == t.results[i].name
            && (!Eligible(t.results[i], t.attempts, cfg.maxAttempts, cfg.retryOn) ==>
                  t'.results[i] == t.results[i] && t.results[i].name !in Called(cfg, t))
            && (t'.results[i] != t.results[i] ==> t'.results[i] in Launch(cfg, env, t).results)
  {
    RetryAddsNobody(cfg, env, t);
    MergeFresh(t.results);
    ToRetryOnce(t.results, t.attempts, cfg.maxAttempts, cfg.retryOn, t.results[i].name);
  }

  /** ... so a step leaves a success where it is. */
  lemma StepKeepsSuccess(cfg: Config, env: Env, t: Turn, passes: nat, i: nat)
    requires TurnOk(cfg, env, t, passes) && i < |t.results| && !Errored(t.results[i])
    ensures var t' := Step(cfg, env, t); i < |t'.results| && t'.results[i] == t.results[i]
    ensures t.results[i].name !in ToRetry(t.results, t.attempts, cfg.maxAttempts, cfg.retryOn)
  {
    SilentIsNotRetryable(t.results[i], cfg.retryOn);
    ToRetryOnce(t.results, t.attempts, cfg.maxAttempts, cfg.retryOn, t.results[i].name);
    if CommitsPass(cfg, env, t) { RetryKeepsSuccesses(cfg, env, t, i); }
  }

  ghost predicate Stands(t: Turn, i: nat, r: SpecialistResult) {
    i < |t.results| && t.results[i] == r && !Errored(r)
  }

  lemma SuccessStands(cfg: Config, env: Env, t: Turn, passes: nat, i: nat, r: SpecialistResult)
    requires TurnOk(cfg, env, t, passes) && Stands(t, i, r)
    ensures Stands(Step(cfg, env, t), i, r)
    ensures r.name !in ToRetry(t.results, t.attempts, cfg.maxAttempts, cfg.retryOn)
  {
    StepKeepsSuccess(cfg, env, t, passes, i);
  }

  lemma {:induction false} SuccessStandsOn(cfg: Config, env: Env, step: Turn -> Turn, message: string, pendingWrite: bool,
                                           ticks: Schedule, more: Schedule, i: nat, r: SpecialistResult)
    requires step == StepOf(cfg, env)
    requires Stands(Resumed(step, Start(message, pendingWrite), ticks), i, r)
    ensures Stands(Resumed(step, Start(message, pendingWrite), ticks + more), i, r)
    decreases |more|
  {
    if more == [] {
      assert ticks + more == ticks;
    } else {
      var before := more[..|more| - 1];
      SuccessStandsOn(cfg, env, step, message, pendingWrite, ticks, before, i, r);
      assert (ticks + more)[..|ticks + more| - 1] == ticks + before;
      AlwaysOk(cfg, env, step, message, pendingWrite, ticks + before);
      var w := After(cfg, env, step, Start(message, pendingWrite), ticks + before);
      SuccessStands(cfg, env, w.turn, w.passes, i, r);
    }
  }

  /** Once a specialist has succeeded, every later checkpoint of the turn holds that success in the
      same place and no retry lists it again, whatever crashes. */
  lemma SuccessesStay(cfg: Config, env: Env, step: Turn -> Turn, message: string, pendingWrite: bool,
                      ticks: Schedule, more: Schedule, i: nat)
    requires step == StepOf(cfg, env)
    requires var t := After(cfg, env, step, Start(message, pendingWrite), ticks).turn;
             i < |t.results| && !Errored(t.results[i])
    ensures var start := Start(message, pendingWrite);
            var t, t' := After(cfg, env, step, start, ticks).turn, After(cfg, env, step, start, ticks + more).turn;
            && i < |t'.results| && t'.results[i] == t.results[i]
            && t.results[i].name !in ToRetry(t'.results, t'.attempts, cfg.maxAttempts, cfg.retryOn)
  {
    var r := After(cfg, env, step, Start(message, pendingWrite), ticks).turn.results[i];
    SuccessStandsOn(cfg, env, step, message, pendingWrite, ticks, more, i, r);
    AlwaysOk(cfg, env, step, message, pendingWrite, ticks + more);
    var w := After(cfg, env, step, Start(message, pendingWrite), ticks + more);
    SuccessStands(cfg, env, w.turn, w.passes, i, r);
  }

  /** At every checkpoint each result is retryable exactly as the run behind it deserves. */
  lemma EveryResultIsJudged(cfg: Config, env: Env, step: Turn -> Turn, message: string, pendingWrite: bool,
                            ticks: Schedule, r: SpecialistResult)
    requires step == StepOf(cfg, env)
    requires r in After(cfg, env, step, Start(message, pendingWrite), ticks).turn.results
    ensures exists a: nat, text: string ::
              && r == RunSafely(env.team, Job(r.name, a), text)
              && Judged(env.team.run(r.name, a, text), r, cfg.retryOn)
  {
    AlwaysOk(cfg, env, step, message, pendingWrite, ticks);
    var a: nat, text: string :| r == RunSafely(env.team, Job(r.name, a), text);
    RunsAreJudged(env.team, Job(r.name, a), text, cfg.retryOn);
  }

  /** Whoever is named the winner really answered, with that output: a failed or timed-out run never
      becomes the answer, not even one whose error text is empty. */
  lemma WinnersAnswered(cfg: Config, env: Env, step: Turn -> Turn, message: string, pendingWrite: bool, ticks: Schedule)
    requires step == StepOf(cfg, env)
    ensures var t := After(cfg, env, step, Start(message, pendingWrite), ticks).turn;
            t.resolved.Resolved? ==>
              && t.resolved.winner in t.route.specialists
              && exists a: nat, text: string ::
                   && env.team.run(t.resolved.winner, a, text).Answered?
                   && AsDict(env.team.run(t.resolved.winner, a, text).raw) == t.resolved.output
  {
    AlwaysOk(cfg, env, step, message, pendingWrite, ticks);
    var t := After(cfg, env, step, Start(message, pendingWrite), ticks).turn;
    if t.resolved.Resolved? {
      var r :| r in t.results && Survives(r) && r.name == t.resolved.winner && r.output == t.resolved.output;
      var a: nat, text: string :| r == RunSafely(env.team, Job(r.name, a), text);
      assert env.team.run(r.name, a, text).Answered?;
    }
  }
}
