/** The supervisor turn: classify, route, dispatch with bounded retries, resolve, perhaps confirm,
    answer.  Each node commits its update or leaves no trace. */
module Supervisor {
  import opened ConflictResolver
  import opened Options
  import opened Dispatch
  import opened Retry

  datatype Route = Route(specialists: seq<string>, strategy: string)

  const DEFAULT := "_default"

  datatype GraphConfig = GraphConfig(intents: seq<string>, routing: map<string, Route>, policy: Policy,
                                     maxAttempts: int, retryOn: seq<string>, confirmBeforeWrite: bool)

  /** A configuration without a fallback route is rejected when it is loaded. */
  type Config = c: GraphConfig | DEFAULT in c.routing
    witness GraphConfig([], map[DEFAULT := Route([], "single")], Policy([], FirstByPriority), 3, [], false)

  /** The world a turn runs in: the specialists, the label the model gives a message (trimmed and in
      lower case), and the human's decision about a pending write, once there is one. */
  datatype Env = Env(team: Team, labelOf: string -> string, decision: Option<bool>)

  datatype Node = Classifying | Routing | Dispatching | Resolving | Confirming | Gating | End

  /** What a checkpoint holds. */
  datatype Turn = Turn(next: Node, message: string, intent: Option<string>, route: Route,
                       results: seq<SpecialistResult>, attempts: Attempts, resolved: Resolution,
                       pendingWrite: bool, approved: Option<bool>, answer: Option<string>)

  function Begin(message: string, pendingWrite: bool): Turn {
    Turn(Classifying, message, None, Route([], ""), [], map[], NoneSucceeded, pendingWrite, None, None)
  }

  // ---- The dispatch node -----------------------------------------------------------------------

  /** Replace the entry of that name in place, or append. */
  function Upsert(results: seq<SpecialistResult>, r: SpecialistResult): seq<SpecialistResult> {
    if results == [] then [r]
    else if results[0].name == r.name then [r] + results[1..]
    else [results[0]] + Upsert(results[1..], r)
  }

  function Merge(prior: seq<SpecialistResult>, news: seq<SpecialistResult>): seq<SpecialistResult>
    decreases |news|
  {
    if news == [] then prior
    else Upsert(Merge(prior, news[..|news| - 1]), news[|news| - 1])
  }

  function Bump(attempts: Attempts, names: seq<string>): Attempts
    decreases |names|
  {
    if names == [] then attempts
    else
      var before := Bump(attempts, names[..|names| - 1]);
      var name := names[|names| - 1];
      before[name := Made(before, name) + 1]
  }

  /** The first pass runs the whole route; any later one only what may be retried. */
  function ToRun(cfg: Config, t: Turn): seq<string> {
    var prior := Merge([], t.results);
    if prior != [] then ToRetry(prior, t.attempts, cfg.maxAttempts, cfg.retryOn) else t.route.specialists
  }

  function Jobs(t: Turn, names: seq<string>): (jobs: seq<Job>)
    ensures |jobs| == |names|
    ensures forall i | 0 <= i < |names| :: jobs[i] == Job(names[i], Made(t.attempts, names[i]))
  {
    seq(|names|, i requires 0 <= i < |names| => Job(names[i], Made(t.attempts, names[i])))
  }

  function Launch(cfg: Config, env: Env, t: Turn): Dispatched {
    var names := ToRun(cfg, t);
    match Resolvable(env.team, names)
    case Some(failure) => Refused(failure)
    case None => Outcome(env.team, t.route.strategy, Jobs(t, names), t.message)
  }

  function AfterPass(cfg: Config, t: Turn, news: seq<SpecialistResult>): Turn {
    var results := Merge(Merge([], t.results), news);
    var attempts := Bump(t.attempts, ToRun(cfg, t));
    t.(results := results, attempts := attempts,
       next := if ShouldRetry(results, attempts, cfg.maxAttempts, cfg.retryOn) then Dispatching else Resolving)
  }

  method BumpAll(attempts: Attempts, names: seq<string>) returns (bumped: Attempts)
    ensures bumped == Bump(attempts, names)
  {
    bumped := attempts;
    for n := 0 to |names|
      invariant bumped == Bump(attempts, names[..n])
    {
      assert names[..n + 1][..n] == names[..n];
      bumped := bumped[names[n] := Made(bumped, names[n]) + 1];
    }
    assert names[..|names|] == names;
  }

  method MergeAll(prior: seq<SpecialistResult>, news: seq<SpecialistResult>) returns (merged: seq<SpecialistResult>)
    ensures merged == Merge(prior, news)
  {
    merged := prior;
    for n := 0 to |news|
      invariant merged == Merge(prior, news[..n])
    {
      assert news[..n + 1][..n] == news[..n];
      merged := Upsert(merged, news[n]);
    }
    assert news[..|news|] == news;
  }

  /** The dispatch node itself; `order` is the order in which parallel runs happen to finish. */
  method DispatchNode(cfg: Config, env: Env, t: Turn, order: seq<nat>) returns (failed: Option<Failure>, t': Turn)
    requires |order| == |ToRun(cfg, t)| && (forall i | 0 <= i < |order| :: order[i] < |order|)
    requires forall j | 0 <= j < |order| :: j in order
    ensures match Launch(cfg, env, t)
            case Refused(failure) => failed == Some(failure) && t' == t
            case Ran(news) => failed == None && t' == AfterPass(cfg, t, news)
  {
    var names := ToRun(cfg, t);
    failed, t' := Resolvable(env.team, names), t;
    if failed.Some? { return; }
    var d := Dispatch.Dispatch(env.team, t.route.strategy, Jobs(t, names), t.message, order);
    if d.Refused? { return Some(d.failure), t; }
    var attempts := BumpAll(t.attempts, names);
    var prior := MergeAll([], t.results);
    var merged := MergeAll(prior, d.results);
    var again := ShouldRetry(merged, attempts, cfg.maxAttempts, cfg.retryOn);
    t' := t.(results := merged, attempts := attempts, next := if again then Dispatching else Resolving);
  }

  // ---- The other nodes -------------------------------------------------------------------------

  function LookupRoute(cfg: Config, intent: Option<string>): Route {
    if intent.Some? && intent.value in cfg.routing then cfg.routing[intent.value] else cfg.routing[DEFAULT]
  }

  function AnswerText(team: Team, r: Resolution): string {
    match r
    case NoneSucceeded => "no_specialist_succeeded"
    case Resolved(winner, output, _, _) =>
      if winner == "" then "no specialist produced a result"
      else if output.Keys == {"output"} then
        (match output["output"] case Text(s) => s case value => team.show(value))
      else team.showAll(output)
  }

  /** One attempt at the next node.  A node that raises, or pauses for a human, commits nothing. */
  function Step(cfg: Config, env: Env, t: Turn): Turn {
    match t.next
    case Classifying =>
      var word := env.labelOf(t.message);
      t.(intent := if word in cfg.intents then Some(word) else None, next := Routing)
    case Routing => t.(route := LookupRoute(cfg, t.intent), next := Dispatching)
    case Dispatching =>
      (match Launch(cfg, env, t)
       case Refused(_) => t
       case Ran(news) => AfterPass(cfg, t, news))
    case Resolving =>
      t.(resolved := Resolve(cfg.policy, t.results),
         next := if cfg.confirmBeforeWrite && t.pendingWrite then Confirming else Gating)
    case Confirming =>
      if env.decision.None? then t else t.(approved := env.decision, next := Gating)
    case Gating => t.(answer := Some(AnswerText(env.team, t.resolved)), next := End)
    case End => t
  }

  // ---- Lists of results ------------------------------------------------------------------------

  ghost predicate Distinct(results: seq<SpecialistResult>) {
    forall i, j | 0 <= i < j < |results| :: results[i].name != results[j].name
  }

  ghost predicate Has(results: seq<SpecialistResult>, name: string) {
    exists i :: 0 <= i < |results| && results[i].name == name
  }

  /** An upsert touches one place, the one of that name if there is one. */
  lemma {:induction false} UpsertAt(results: seq<SpecialistResult>, r: SpecialistResult)
    requires Distinct(results)
    ensures var u := Upsert(results, r);
            && Distinct(u)
            && |u| == |results| + (if Has(results, r.name) then 0 else 1)
            && (forall i | 0 <= i < |results| :: u[i] == if results[i].name == r.name then r else results[i])
            && (!Has(results, r.name) ==> u[|results|] == r)
  {
    if results != [] && results[0].name != r.name {
      var rest := results[1..];
      UpsertAt(rest, r);
      assert Has(rest, r.name) <==> Has(results, r.name) by {
        if i :| 0 <= i < |rest| && rest[i].name == r.name { assert results[i + 1].name == r.name; }
        if i :| 0 <= i < |results| && results[i].name == r.name { assert rest[i - 1].name == r.name; }
      }
      var u := Upsert(rest, r);
      forall i | 0 <= i < |u| ensures u[i].name != results[0].name {
        if i < |rest| { assert rest[i] == results[i + 1]; }
      }
    } else if results != [] {
      assert Has(results, r.name);
    }
  }

  /** The entry of `news` that counts for a name: the last one. */
  function Latest(news: seq<SpecialistResult>, name: string): Option<SpecialistResult>
    decreases |news|
  {
    if news == [] then None
    else if news[|news| - 1].name == name then Some(news[|news| - 1])
    else Latest(news[..|news| - 1], name)
  }

  /** A merge keeps every name in its place and the latest word on each; new names follow in the
      order they were first heard of. */
  lemma {:induction false} MergeAt(prior: seq<SpecialistResult>, news: seq<SpecialistResult>)
    requires Distinct(prior)
    ensures var m := Merge(prior, news);
            && Distinct(m) && |prior| <= |m|
            && (forall i | 0 <= i < |prior| ::
                  m[i] == match Latest(news, prior[i].name) case Some(r) => r case None => prior[i])
            && (forall i | |prior| <= i < |m| :: Latest(news, m[i].name) == Some(m[i]))
    decreases |news|
  {
    if news != [] {
      var before, r := news[..|news| - 1], news[|news| - 1];
      MergeAt(prior, before);
      UpsertAt(Merge(prior, before), r);
      LatestNames(before);
    }
  }

  /** ... and holds exactly the names of either side. */
  lemma {:induction false} MergeHas(prior: seq<SpecialistResult>, news: seq<SpecialistResult>, name: string)
    requires Distinct(prior)
    ensures Has(Merge(prior, news), name) <==> Has(prior, name) || Has(news, name)
    decreases |news|
  {
    if news != [] {
      var before, r := news[..|news| - 1], news[|news| - 1];
      MergeHas(prior, before, name);
      MergeAt(prior, before);
      HasAppend(before, r, name);
      UpsertHas(Merge(prior, before), r, name);
      assert news == before + [r];
    }
  }

  lemma HasAppend(results: seq<SpecialistResult>, r: SpecialistResult, name: string)
    ensures Has(results + [r], name) <==> Has(results, name) || name == r.name
  {
    var more := results + [r];
    if i :| 0 <= i < |results| && results[i].name == name { assert more[i].name == name; }
    if name == r.name { assert more[|results|].name == name; }
  }

  lemma UpsertHas(results: seq<SpecialistResult>, r: SpecialistResult, name: string)
    requires Distinct(results)
    ensures Has(Upsert(results, r), name) <==> Has(results, name) || name == r.name
  {
    UpsertAt(results, r);
    var u := Upsert(results, r);
    if i :| 0 <= i < |results| && results[i].name == name { assert u[i].name == name; }
    if name == r.name {
      if i :| 0 <= i < |results| && results[i].name == name { assert u[i].name == name; }
      else { assert u[|results|].name == name; }
    }
  }

  lemma {:induction false} LatestNames(news: seq<SpecialistResult>)
    ensures forall name :: Latest(news, name).Some? ==> Latest(news, name).value.name == name
    ensures forall name :: Latest(news, name).Some? ==> Latest(news, name).value in news
    ensures forall name :: Latest(news, name).Some? <==> Has(news, name)
    decreases |news|
  {
    if news != [] {
      var before, r := news[..|news| - 1], news[|news| - 1];
      LatestNames(before);
      assert news == before + [r];
      forall name { HasAppend(before, r, name); }
    }
  }

  /** Merging distinct results into nothing gives them back. */
  lemma {:induction false} MergeFresh(results: seq<SpecialistResult>)
    requires Distinct(results)
    ensures Merge([], results) == results
    decreases |results|
  {
    if results != [] {
      var before, r := results[..|results| - 1], results[|results| - 1];
      MergeFresh(before);
      UpsertAt(before, r);
      assert !Has(before, r.name);
      assert Upsert(before, r) == before + [r] == results;
    }
  }

  lemma {:induction false} BumpAdds(attempts: Attempts, names: seq<string>, name: string)
    ensures Made(Bump(attempts, names), name) == Made(attempts, name) + multiset(names)[name]
    decreases |names|
  {
    if names != [] {
      var before := names[..|names| - 1];
      BumpAdds(attempts, before, name);
      assert names == before + [names[|names| - 1]];
    }
  }

  /** Among distinct results every eligible name is listed once, and no other. */
  lemma {:induction false} ToRetryOnce(results: seq<SpecialistResult>, attempts: Attempts, maxAttempts: int,
                                       retryOn: seq<string>, name: string)
    requires Distinct(results)
    ensures var names := ToRetry(results, attempts, maxAttempts, retryOn);
            && (name !in names ==> multiset(names)[name] == 0)
            && (name in names ==> multiset(names)[name] == 1 && Made(attempts, name) < maxAttempts && Has(results, name))
            && (forall i | 0 <= i < |results| && results[i].name == name ::
                  name in names <==> Eligible(results[i], attempts, maxAttempts, retryOn))
  {
    if results != [] {
      var rest := results[1..];
      ToRetryOnce(rest, attempts, maxAttempts, retryOn, name);
      var names, tail := ToRetry(results, attempts, maxAttempts, retryOn), ToRetry(rest, attempts, maxAttempts, retryOn);
      var head := if Eligible(results[0], attempts, maxAttempts, retryOn) then [results[0].name] else [];
      assert names == head + tail;
      assert multiset(names) == multiset(head) + multiset(tail);
      if i :| 0 <= i < |rest| && rest[i].name == name { assert results[i + 1].name == name; }
      forall i | 0 <= i < |results| && results[i].name == name
        ensures name in names <==> Eligible(results[i], attempts, maxAttempts, retryOn)
      {
        if i > 0 { assert rest[i - 1].name == name; }
        else { assert !Has(rest, name); }
      }
    }
  }
}
