/** Any computation that commits one step at a time and may be killed between or inside steps.

    A killed step leaves no trace; running again continues from the last commit. */
module Checkpoints {

  /** The next step commits, or the process dies inside it having done some of its outside work. */
  datatype Tick<W> = Commit | Crash(done: W)

  /** The committed state after a schedule of commits and crashes. */
  function Resumed<T, W>(step: T -> T, start: T, ticks: seq<Tick<W>>): T
    decreases |ticks|
  {
    if ticks == [] then start
    else
      var before := Resumed(step, start, ticks[..|ticks| - 1]);
      if ticks[|ticks| - 1].Commit? then step(before) else before
  }

  /** The state after `n` steps nobody disturbs. */
  function Undisturbed<T>(step: T -> T, start: T, n: nat): T {
    if n == 0 then start else step(Undisturbed(step, start, n - 1))
  }

  function Commits<W>(ticks: seq<Tick<W>>): nat
    decreases |ticks|
  {
    if ticks == [] then 0
    else Commits(ticks[..|ticks| - 1]) + if ticks[|ticks| - 1].Commit? then 1 else 0
  }

  function Crashes<W>(ticks: seq<Tick<W>>): nat
    decreases |ticks|
  {
    if ticks == [] then 0
    else Crashes(ticks[..|ticks| - 1]) + if ticks[|ticks| - 1].Crash? then 1 else 0
  }

  /** Whatever crashes, the state is the one the undisturbed run had after as many commits. */
  lemma {:induction false} CrashesLeaveNoTrace<T, W>(step: T -> T, start: T, ticks: seq<Tick<W>>)
    ensures Resumed(step, start, ticks) == Undisturbed(step, start, Commits(ticks))
    decreases |ticks|
  {
    if ticks != [] {
      CrashesLeaveNoTrace(step, start, ticks[..|ticks| - 1]);
    }
  }

  lemma {:induction false} FixedPointsStay<T>(step: T -> T, start: T, m: nat, n: nat)
    requires m <= n && step(Undisturbed(step, start, m)) == Undisturbed(step, start, m)
    ensures Undisturbed(step, start, n) == Undisturbed(step, start, m)
    decreases n
  {
    if m < n {
      FixedPointsStay(step, start, m, n - 1);
    }
  }

  /** Once the undisturbed run has stopped, every schedule with enough commits ends where it did. */
  lemma ResumedIsUndisturbed<T, W>(step: T -> T, start: T, ticks: seq<Tick<W>>, n: nat)
    requires step(Undisturbed(step, start, n)) == Undisturbed(step, start, n) && Commits(ticks) >= n
    ensures Resumed(step, start, ticks) == Undisturbed(step, start, n)
  {
    CrashesLeaveNoTrace(step, start, ticks);
    FixedPointsStay(step, start, n, Commits(ticks));
  }
}
