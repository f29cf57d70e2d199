/** Who drives a thread. The lock is taken for a tenant and a thread, the ledger and the checkpoints
    are kept for the thread alone; a write is safe exactly as far as the two agree. */
module ThreadDrivers {
  import opened CallOnce
  import opened JsonText
  import opened Options
  import opened WriteAhead

  /** The lock table and the locked sessions describe each other. */
  ghost predicate LockOk(cfg: Config, s: State) {
    && (forall w | w in s.sessions && s.sessions[w].locked ::
          var h := LockOf(cfg, s.sessions[w]); h in s.locks && s.locks[h] == w)
    && (forall h | h in s.locks ::
          s.locks[h] in s.sessions && s.sessions[s.locks[h]].locked && LockOf(cfg, s.sessions[s.locks[h]]) == h)
  }

  lemma StepKeepsLockOk(cfg: Config, s: State, a: Action)
    requires LockOk(cfg, s)
    ensures LockOk(cfg, Next(cfg, s, a))
  {
    match a
    case Leave(w) => RemoveKeepsLockOk(cfg, s, w);
    case Crash(w) => RemoveKeepsLockOk(cfg, s, w);
    case Call(w, k, op) => CallKeepsLockOk(cfg, s, w, k, op);
    case _ =>
  }

  lemma RemoveKeepsLockOk(cfg: Config, s: State, w: Worker)
    requires LockOk(cfg, s)
    ensures w in s.sessions ==> LockOk(cfg, Remove(cfg, s, w))
  {
  }

  lemma CallKeepsLockOk(cfg: Config, s: State, w: Worker, k: Key, op: Op)
    requires LockOk(cfg, s)
    ensures LockOk(cfg, Next(cfg, s, Call(w, k, op)))
  {
  }

  /** A lock lasts as long as its driver and no longer: while it is held nobody else gets in under it,
      and once the holder has left, or died, the next one does. */
  lemma LeavingAdmitsNext(cfg: Config, s: State, w: Worker, next: Worker, p: Tenant, t: Thread)
    requires LockOk(cfg, s) && w in s.sessions && s.sessions[w].locked && next !in s.sessions
    requires cfg.lockKey(p, t) == LockOf(cfg, s.sessions[w])
    ensures Next(cfg, s, Resume(next, p, t)) == s
    ensures s.sessions[w].calls != map[] ==> Next(cfg, s, Leave(w)) == s
    ensures s.sessions[w].calls == map[] ==>
              Drives(Next(cfg, Next(cfg, s, Leave(w)), Resume(next, p, t)), next, p, t)
    ensures Drives(Next(cfg, Next(cfg, s, Crash(w)), Resume(next, p, t)), next, p, t)
  {
  }

  ghost predicate Drives(s: State, w: Worker, p: Tenant, t: Thread) {
    w in s.sessions && s.sessions[w].locked && s.sessions[w].tenant == p && s.sessions[w].thread == t
  }

  ghost predicate Driven(s: State, t: Thread) {
    exists w :: w in s.sessions && s.sessions[w].thread == t
  }

  /** Does somebody drive the thread without the lock `h`? */
  ghost predicate DrivenPast(cfg: Config, s: State, t: Thread, h: int) {
    exists w :: w in s.sessions && s.sessions[w].thread == t && !(s.sessions[w].locked && LockOf(cfg, s.sessions[w]) == h)
  }

  /** Does `a` let a second driver onto the thread?  Only a turn started on it while it is driven, or
      a resume admitted past a driver that holds no lock or the lock of another tenant. */
  ghost predicate Intrudes(cfg: Config, s: State, a: Action, t: Thread) {
    || (a.Start? && a.t == t && a.w !in s.sessions && Driven(s, t))
    || (a.Resume? && a.t == t && a.w !in s.sessions
        && cfg.lockKey(a.p, t) !in s.locks && DrivenPast(cfg, s, t, cfg.lockKey(a.p, t)))
  }

  /** However the hash collides, a thread stays exclusive over a step exactly when the step does not
      intrude on it. */
  lemma ExclusiveUnlessIntruding(cfg: Config, s: State, a: Action, t: Thread)
    requires LockOk(cfg, s) && Exclusive(s, t)
    ensures Exclusive(Next(cfg, s, a), t) <==> !Intrudes(cfg, s, a, t)
  {
    var s' := Next(cfg, s, a);
    if Intrudes(cfg, s, a, t) {
      var w :| w in s.sessions && s.sessions[w].thread == t;
      assert w in s'.sessions && a.w in s'.sessions && w != a.w;
    } else {
      forall w, w' | w in s'.sessions && w' in s'.sessions && w != w'
        ensures s'.sessions[w].thread != t || s'.sessions[w'].thread != t
      {
        if w in s.sessions && w' in s.sessions {
          assert s.sessions[w].thread != t || s.sessions[w'].thread != t;
        }
      }
    }
  }

  // ---- Drivers that all enter through the lock -------------------------------------------------

  /** Everybody resumes, and only such tenants resume a thread as are admitted to it. */
  ghost predicate ThroughTheLock(actions: seq<Action>, admitted: iset<(Tenant, Thread)>) {
    forall a | a in actions :: !a.Start? && (a.Resume? ==> (a.p, a.t) in admitted)
  }

  /** The tenants admitted to the thread meet at one lock. */
  ghost predicate OneLock(cfg: Config, admitted: iset<(Tenant, Thread)>, t: Thread) {
    forall p, q | (p, t) in admitted && (q, t) in admitted :: cfg.lockKey(p, t) == cfg.lockKey(q, t)
  }

  ghost predicate AllLocked(s: State, admitted: iset<(Tenant, Thread)>) {
    forall w | w in s.sessions :: s.sessions[w].locked && (s.sessions[w].tenant, s.sessions[w].thread) in admitted
  }

  lemma StepKeepsAllLocked(cfg: Config, admitted: iset<(Tenant, Thread)>, s: State, a: Action)
    requires AllLocked(s, admitted) && !a.Start? && (a.Resume? ==> (a.p, a.t) in admitted)
    ensures AllLocked(Next(cfg, s, a), admitted)
  {
  }

  /** Then the lock keeps the thread exclusive. */
  lemma {:induction false} LockedRunsAreExclusive(cfg: Config, admitted: iset<(Tenant, Thread)>, actions: seq<Action>,
                                                  run: seq<State>, t: Thread, n: nat)
    requires IsRun(cfg, actions, run) && n < |run| && ThroughTheLock(actions, admitted) && OneLock(cfg, admitted, t)
    ensures Exclusive(run[n], t) && LockOk(cfg, run[n]) && AllLocked(run[n], admitted)
  {
    if n > 0 {
      var s, a := run[n - 1], actions[n - 1];
      LockedRunsAreExclusive(cfg, admitted, actions, run, t, n - 1);
      assert !Intrudes(cfg, s, a, t);
      ExclusiveUnlessIntruding(cfg, s, a, t);
      StepKeepsLockOk(cfg, s, a);
      StepKeepsAllLocked(cfg, admitted, s, a);
    }
  }

  /** Any number of workers entering through the lock, crashing and raising anywhere, over a durable
      ledger, invoke a write at most once per key, if the tenants admitted to its thread meet at one
      lock. */
  lemma ExactlyOnceUnderTheLock(cfg: Config, admitted: iset<(Tenant, Thread)>, actions: seq<Action>,
                                run: seq<State>, n: nat, k: Key)
    requires IsRun(cfg, actions, run) && n < |run| && cfg.durable && !cfg.idempotent(k)
    requires ThroughTheLock(actions, admitted) && OneLock(cfg, admitted, k.thread)
    ensures run[n].log[Fired(k)] <= 1
  {
    forall i | 0 <= i < |run| ensures Exclusive(run[i], k.thread) {
      LockedRunsAreExclusive(cfg, admitted, actions, run, k.thread, i);
    }
    WriteFiresAtMostOnce(cfg, actions, run, n, k);
  }

  /** What the lock is there for: in no run of admitted drivers does the write fire twice. */
  ghost predicate FiresOnce(cfg: Config, admitted: iset<(Tenant, Thread)>, k: Key) {
    forall actions, run: seq<State>, n: nat | IsRun(cfg, actions, run) && ThroughTheLock(actions, admitted) && n < |run| ::
      run[n].log[Fired(k)] <= 1
  }

  /** The headline, with nothing to spare: a write of a thread is safe in every run exactly when the
      tenants admitted to the thread meet at one lock. */
  lemma ExactlyOnceIffOneLock(cfg: Config, admitted: iset<(Tenant, Thread)>, k: Key)
    requires cfg.durable && !cfg.idempotent(k)
    ensures FiresOnce(cfg, admitted, k) <==> OneLock(cfg, admitted, k.thread)
  {
    if OneLock(cfg, admitted, k.thread) {
      forall actions, run: seq<State>, n: nat | IsRun(cfg, actions, run) && ThroughTheLock(actions, admitted) && n < |run|
        ensures run[n].log[Fired(k)] <= 1
      {
        ExactlyOnceUnderTheLock(cfg, admitted, actions, run, n, k);
      }
    } else {
      var p, q :| (p, k.thread) in admitted && (q, k.thread) in admitted
                  && cfg.lockKey(p, k.thread) != cfg.lockKey(q, k.thread);
      var actions := [Resume(0, p, k.thread), Resume(1, q, k.thread)] + Duel(0, 1, k);
      var run := AnyActionsRun(cfg, Empty, actions);
      TwoLocksFireTwice(cfg, run, 0, 1, p, q, k);
      assert ThroughTheLock(actions, admitted);
      assert IsRun(cfg, actions, run) && run[12].log[Fired(k)] == 2;
    }
  }

  // ---- Runs that fire twice --------------------------------------------------------------------

  /** A worker with no call under way, entered on the thread of an unseen write. */
  predicate Fresh(cfg: Config, s: State, w: Worker, k: Key) {
    && w in s.sessions && s.sessions[w].thread == k.thread && s.sessions[w].calls == map[]
    && k !in s.ledger && !cfg.idempotent(k)
  }

  /** The log once a call has passed its gate, if it has one. */
  function Approved(cfg: Config, log: multiset<Event>, k: Key): multiset<Event> {
    if cfg.confirm(k) then log[Decided(k, true) := log[Decided(k, true)] + 1] else log
  }

  /** The way of a call to its write-ahead; asked or not, the human says yes. */
  function Approach(w: Worker, k: Key): seq<Action> {
    [Begin(w, k), Call(w, k, Decide(true)), Call(w, k, Lookup)]
  }

  lemma Approaches(cfg: Config, s: State, w: Worker, k: Key)
    requires Fresh(cfg, s, w, k)
    ensures Next(cfg, Next(cfg, Next(cfg, s, Begin(w, k)), Call(w, k, Decide(true))), Call(w, k, Lookup))
         == Moved(s, w, k, Declaring).(log := Approved(cfg, s.log, k))
  {
    var s1 := Next(cfg, s, Begin(w, k));
    assert s1 == Moved(s, w, k, if cfg.confirm(k) then Deciding else Looking);
    var s2 := Moved(s, w, k, Looking).(log := Approved(cfg, s.log, k));
    PassesGate(cfg, s, w, k);
    LooksUpUnseen(cfg, s2, w, k);
    MovedTwice(s, w, k, Looking, Declaring);
  }

  lemma PassesGate(cfg: Config, s: State, w: Worker, k: Key)
    requires w in s.sessions
    ensures Next(cfg, Moved(s, w, k, if cfg.confirm(k) then Deciding else Looking), Call(w, k, Decide(true)))
         == Moved(s, w, k, Looking).(log := Approved(cfg, s.log, k))
  {
    var s1 := Moved(s, w, k, if cfg.confirm(k) then Deciding else Looking);
    MovedTwice(s, w, k, PcOf(s1, w, k), Looking);
    if !cfg.confirm(k) {
      var c := s1.sessions[w];
      assert c.calls[k := Looking] == c.calls;
      assert s1.sessions[w := c] == s1.sessions;
    }
  }

  lemma MovedTwice(s: State, w: Worker, k: Key, pc: Pc, pc': Pc)
    requires w in s.sessions
    ensures Moved(Moved(s, w, k, pc), w, k, pc') == Moved(s, w, k, pc')
  {
    var c := s.sessions[w];
    assert c.calls[k := pc][k := pc'] == c.calls[k := pc'];
    assert Moved(Moved(s, w, k, pc), w, k, pc').sessions == Moved(s, w, k, pc').sessions;
  }

  lemma DeclaresAndFires(cfg: Config, s: State, w: Worker, k: Key)
    requires At(s, w, k) && PcOf(s, w, k) == Declaring
    ensures Next(cfg, Next(cfg, s, Call(w, k, Declare)), Call(w, k, Fire))
         == Moved(s, w, k, InFlight).(ledger := s.ledger[k := Pending], log := s.log[Fired(k) := s.log[Fired(k)] + 1])
  {
    var s1 := Next(cfg, s, Call(w, k, Declare));
    Declares(cfg, s, w, k);
    Fires(cfg, s1, w, k);
    MovedTwice(s, w, k, Firing, InFlight);
  }

  /** Two workers on one thread, step for step: both look, then both declare and fire. */
  function Duel(w: Worker, w': Worker, k: Key): seq<Action> {
    Approach(w, k) + Approach(w', k)
    + [Call(w, k, Declare), Call(w, k, Fire), Call(w', k, Declare), Call(w', k, Fire)]
  }

  lemma DuelSteps(w: Worker, w': Worker, k: Key)
    ensures var a := Duel(w, w', k);
            && |a| == 10
            && a[0] == Begin(w, k) && a[1] == Call(w, k, Decide(true)) && a[2] == Call(w, k, Lookup)
            && a[3] == Begin(w', k) && a[4] == Call(w', k, Decide(true)) && a[5] == Call(w', k, Lookup)
            && a[6] == Call(w, k, Declare) && a[7] == Call(w, k, Fire)
            && a[8] == Call(w', k, Declare) && a[9] == Call(w', k, Fire)
  {
  }

  /** Two drivers of one thread can always fire its write twice. */
  lemma BothFire(cfg: Config, run: seq<State>, w: Worker, w': Worker, k: Key)
    requires Follows(cfg, Duel(w, w', k), run)
    requires w != w' && Fresh(cfg, run[0], w, k) && Fresh(cfg, run[0], w', k)
    ensures run[10].log[Fired(k)] == run[0].log[Fired(k)] + 2
  {
    DuelSteps(w, w', k);
    Approaches(cfg, run[0], w, k);
    Approaches(cfg, run[3], w', k);
    DeclaresAndFires(cfg, run[6], w, k);
    DeclaresAndFires(cfg, run[8], w', k);
  }

  lemma FollowsOn(cfg: Config, first: seq<Action>, actions: seq<Action>, run: seq<State>)
    requires Follows(cfg, first + actions, run)
    ensures Follows(cfg, actions, run[|first|..]) && Follows(cfg, first, run[..|first| + 1])
  {
    forall i | 0 <= i < |actions| ensures run[|first|..][i + 1] == Next(cfg, run[|first|..][i], actions[i]) {
      assert (first + actions)[|first| + i] == actions[i];
    }
    forall i | 0 <= i < |first| ensures run[..|first| + 1][i + 1] == Next(cfg, run[..|first| + 1][i], first[i]) {
      assert (first + actions)[i] == first[i];
    }
  }

  /** Two tenants that share a thread but not a lock both get in, and both fire: every driver locked,
      the ledger durable or not. */
  lemma TwoLocksFireTwice(cfg: Config, run: seq<State>, w: Worker, w': Worker, p: Tenant, q: Tenant, k: Key)
    requires w != w' && !cfg.idempotent(k) && cfg.lockKey(p, k.thread) != cfg.lockKey(q, k.thread)
    requires IsRun(cfg, [Resume(w, p, k.thread), Resume(w', q, k.thread)] + Duel(w, w', k), run)
    ensures run[12].log[Fired(k)] == 2
  {
    var first := [Resume(w, p, k.thread), Resume(w', q, k.thread)];
    DuelSteps(w, w', k);
    FollowsOn(cfg, first, Duel(w, w', k), run);
    assert run[..3][1] == Next(cfg, Empty, first[0]) && run[..3][2] == Next(cfg, run[1], first[1]);
    BothFire(cfg, run[2..], w, w', k);
  }

  /** A turn is started without the lock.  If it is still alive when a resume of the same thread is
      admitted, both fire. */
  lemma UnlockedTurnRacesResume(cfg: Config, run: seq<State>, w: Worker, w': Worker, p: Tenant, k: Key)
    requires w != w' && !cfg.idempotent(k)
    requires IsRun(cfg, [Start(w, p, k.thread), Resume(w', p, k.thread)] + Duel(w, w', k), run)
    ensures run[12].log[Fired(k)] == 2
  {
    var first := [Start(w, p, k.thread), Resume(w', p, k.thread)];
    DuelSteps(w, w', k);
    FollowsOn(cfg, first, Duel(w, w', k), run);
    assert run[..3][1] == Next(cfg, Empty, first[0]) && run[..3][2] == Next(cfg, run[1], first[1]);
    BothFire(cfg, run[2..], w, w', k);
  }

  // ---- A ledger that dies ----------------------------------------------------------------------

  /** A worker resumes a thread, gets as far as firing a write, and dies with its process. */
  function Life(w: Worker, p: Tenant, k: Key): seq<Action> {
    [Resume(w, p, k.thread)] + Approach(w, k) + [Call(w, k, Declare), Call(w, k, Fire), Crash(w), Restart]
  }

  lemma LifeSteps(w: Worker, p: Tenant, k: Key)
    ensures var a := Life(w, p, k);
            && |a| == 8 && a[0] == Resume(w, p, k.thread)
            && a[1] == Begin(w, k) && a[2] == Call(w, k, Decide(true)) && a[3] == Call(w, k, Lookup)
            && a[4] == Call(w, k, Declare) && a[5] == Call(w, k, Fire) && a[6] == Crash(w) && a[7] == Restart
  {
  }

  predicate Idle(s: State) {
    s.sessions == map[] && s.locks == map[]
  }

  lemma LifeFires(cfg: Config, run: seq<State>, w: Worker, p: Tenant, k: Key)
    requires Follows(cfg, Life(w, p, k), run) && Idle(run[0]) && k !in run[0].ledger && !cfg.idempotent(k)
    ensures run[8].log[Fired(k)] == run[0].log[Fired(k)] + 1
    ensures Idle(run[8]) && run[8].ledger == if cfg.durable then run[0].ledger[k := Pending] else map[]
  {
    LifeSteps(w, p, k);
    var s := run[0];
    var c := Session(p, k.thread, true, map[]);
    assert run[1] == s.(sessions := map[w := c], locks := map[cfg.lockKey(p, k.thread) := w]);
    Approaches(cfg, run[1], w, k);
    DeclaresAndFires(cfg, run[4], w, k);
    DeathForgets(cfg, run[6], run[7], run[8], w, k);
  }

  lemma DeathForgets(cfg: Config, s: State, s1: State, s2: State, w: Worker, k: Key)
    requires s.sessions.Keys == {w} && s.sessions[w].locked && s.locks.Keys == {LockOf(cfg, s.sessions[w])}
    requires s1 == Next(cfg, s, Crash(w)) && s2 == Next(cfg, s1, Restart)
    ensures Idle(s2) && s2.log[Fired(k)] == s.log[Fired(k)] && s2.ledger == if cfg.durable then s.ledger else map[]
  {
    assert s1.sessions == map[] && s1.locks == map[];
  }

  /** With the ledger in memory a restart forgets the intent, and the write fires again: locked
      workers, no two at once, and still two charges. */
  lemma VolatileLedgerFiresTwice(cfg: Config, run: seq<State>, w: Worker, p: Tenant, k: Key)
    requires !cfg.durable && !cfg.idempotent(k)
    requires IsRun(cfg, Life(w, p, k) + Life(w, p, k), run)
    ensures run[16].log[Fired(k)] == 2
  {
    LifeSteps(w, p, k);
    FollowsOn(cfg, Life(w, p, k), Life(w, p, k), run);
    LifeFires(cfg, run[..9], w, p, k);
    LifeFires(cfg, run[8..], w, p, k);
  }
}
