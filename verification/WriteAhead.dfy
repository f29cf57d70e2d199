/** The guarded call as a protocol: many workers, one ledger, one lock table, any interleaving, and
    a crash allowed between any two steps.

    A worker enters a thread under a tenant (taking the lock of the two when it resumes, without it
    when it starts a turn), runs guarded calls for keys of that thread, at most one at a time per key, and leaves.
    Each await point of the guarded call is one step.  What holds of a key needs only that its own
    thread has one driver at a time; `ThreadDrivers` says when it has.  A disabled action changes nothing, so every
    sequence of actions is a run. */
module WriteAhead {
  import opened CallOnce
  import opened JsonText
  import opened Options

  type Worker = nat
  type Tenant = Text
  type Thread = Text

  /** `lockKey` is the advisory hash of a tenant and a thread, which may collide; `idempotent` and
      `confirm` are the flags of the tool behind a key; `durable` says whether the ledger outlives the
      process. */
  datatype Config = Config(
    lockKey: (Tenant, Thread) -> int, idempotent: Key -> bool, confirm: Key -> bool, durable: bool)

  /** Where one guarded call stands: what it will do next. */
  datatype Pc =
    | Deciding            // paused for a human's approval
    | Looking             // look the key up
    | Verifying           // found `pending`: ask whether the effect landed
    | Settling(v: Value)  // record `done` with what was verified
    | Declaring           // record `pending`
    | Firing              // invoke the effect
    | InFlight            // the effect is running
    | Recording(v: Value) // record `done` with what the effect returned

  datatype Session = Session(tenant: Tenant, thread: Thread, locked: bool, calls: map<Key, Pc>)

  /** What the outside world has seen. */
  datatype Event =
    | Decided(key: Key, approved: bool)
    | Fired(key: Key)
    | Lost(key: Key)               // fired, then cut off before `done` was recorded
    | Replied(key: Key, v: Value)  // the guarded call returned
    | Restarted

  datatype State = State(ledger: Entries, locks: map<int, Worker>, sessions: map<Worker, Session>,
                         log: multiset<Event>)

  const Empty := State(map[], map[], map[], multiset{})

  /** One step inside a guarded call; the values are whatever the awaited code returns. */
  datatype Op = Decide(approved: bool) | Lookup | Verify(v: Value) | Declare | Fire | Finish(v: Value) | Record
              | Fail // whatever the call awaits raises

  datatype Action =
    | Resume(w: Worker, p: Tenant, t: Thread) // enter holding the lock of that tenant, or be refused
    | Start(w: Worker, p: Tenant, t: Thread)  // enter without it
    | Leave(w: Worker)
    | Crash(w: Worker)
    | Restart                      // the process is gone, once all its workers have crashed
    | Begin(w: Worker, k: Key)
    | Call(w: Worker, k: Key, op: Op)

  // ---- One call, seen from inside ------------------------------------------------------------

  /** A call's next position (`None` when it is over), the row it writes, the event it causes. */
  datatype Progress = Progress(pc: Option<Pc>, row: Option<Entry>, event: Option<Event>)

  predicate Unsettled(pc: Pc) {
    pc.InFlight? || pc.Recording?
  }

  function Advance(cfg: Config, k: Key, pc: Pc, row: Option<Entry>, op: Op): Progress {
    match op
    case Decide(approved) =>
      if !pc.Deciding? then Progress(Some(pc), None, None)
      else Progress(if approved then Some(Looking) else None, None, Some(Decided(k, approved)))
    case Lookup =>
      if !pc.Looking? then Progress(Some(pc), None, None)
      else (match row
            case Some(Done(result)) => Progress(None, None, Some(Replied(k, result)))
            case Some(Pending) => Progress(Some(Verifying), None, None)
            case None => Progress(Some(if cfg.idempotent(k) then Firing else Declaring), None, None))
    case Verify(v) =>
      Progress(Some(if pc.Verifying? then Settling(v) else pc), None, None)
    case Declare =>
      if !pc.Declaring? then Progress(Some(pc), None, None) else Progress(Some(Firing), Some(Pending), None)
    case Fire =>
      if !pc.Firing? then Progress(Some(pc), None, None) else Progress(Some(InFlight), None, Some(Fired(k)))
    case Finish(v) =>
      Progress(Some(if pc.InFlight? then Recording(v) else pc), None, None)
    case Record =>
      if pc.Settling? || pc.Recording?
      then Progress(None, Some(Done(Stored(cfg.durable, pc.v))), Some(Replied(k, pc.v)))
      else Progress(Some(pc), None, None)
    case Fail =>
      Progress(None, None, if Unsettled(pc) then Some(Lost(k)) else None)
  }

  // ---- The whole system ----------------------------------------------------------------------

  predicate At(s: State, w: Worker, k: Key) {
    w in s.sessions && k in s.sessions[w].calls
  }

  function PcOf(s: State, w: Worker, k: Key): Pc
    requires At(s, w, k)
  {
    s.sessions[w].calls[k]
  }

  function Row(s: State, k: Key): Option<Entry> {
    if k in s.ledger then Some(s.ledger[k]) else None
  }

  function Apply(s: State, w: Worker, k: Key, p: Progress): State
    requires At(s, w, k)
  {
    var c := s.sessions[w];
    State(if p.row.Some? then s.ledger[k := p.row.value] else s.ledger,
          s.locks,
          s.sessions[w := c.(calls := if p.pc.Some? then c.calls[k := p.pc.value] else c.calls - {k})],
          if p.event.Some? then s.log[p.event.value := s.log[p.event.value] + 1] else s.log)
  }

  function LockOf(cfg: Config, c: Session): int {
    cfg.lockKey(c.tenant, c.thread)
  }

  /** The worker is gone: its lock with it, and each of its calls that fired and is not recorded. */
  function Remove(cfg: Config, s: State, w: Worker): State
    requires w in s.sessions
  {
    var c := s.sessions[w];
    var lost := set k | k in c.calls && Unsettled(c.calls[k]) :: Lost(k);
    State(s.ledger, if c.locked then s.locks - {LockOf(cfg, c)} else s.locks,
          s.sessions - {w}, s.log + multiset(lost))
  }

  function Next(cfg: Config, s: State, a: Action): State {
    match a
    case Resume(w, p, t) =>
      if w in s.sessions || cfg.lockKey(p, t) in s.locks then s
      else s.(sessions := s.sessions[w := Session(p, t, true, map[])], locks := s.locks[cfg.lockKey(p, t) := w])
    case Start(w, p, t) =>
      if w in s.sessions then s else s.(sessions := s.sessions[w := Session(p, t, false, map[])])
    case Leave(w) =>
      if w in s.sessions && s.sessions[w].calls == map[] then Remove(cfg, s, w) else s
    case Crash(w) =>
      if w in s.sessions then Remove(cfg, s, w) else s
    case Restart =>
      if s.sessions != map[] then s
      else s.(ledger := if cfg.durable then s.ledger else map[], log := s.log[Restarted := s.log[Restarted] + 1])
    case Begin(w, k) =>
      if w !in s.sessions || s.sessions[w].thread != k.thread || k in s.sessions[w].calls then s
      else
        var c := s.sessions[w];
        s.(sessions := s.sessions[w := c.(calls := c.calls[k := if cfg.confirm(k) then Deciding else Looking])])
    case Call(w, k, op) =>
      if At(s, w, k) then Apply(s, w, k, Advance(cfg, k, PcOf(s, w, k), Row(s, k), op)) else s
  }

  ghost predicate Follows(cfg: Config, actions: seq<Action>, run: seq<State>) {
    && |run| == |actions| + 1
    && forall i | 0 <= i < |actions| :: run[i + 1] == Next(cfg, run[i], actions[i])
  }

  /** The states a sequence of actions goes through. */
  ghost predicate IsRun(cfg: Config, actions: seq<Action>, run: seq<State>) {
    Follows(cfg, actions, run) && run[0] == Empty
  }

  /** Any sequence of actions whatever has a run, from any state. */
  lemma {:induction false} AnyActionsRun(cfg: Config, s: State, actions: seq<Action>) returns (run: seq<State>)
    ensures Follows(cfg, actions, run) && run[0] == s
    decreases |actions|
  {
    run := [s];
    if actions != [] {
      var rest := AnyActionsRun(cfg, Next(cfg, s, actions[0]), actions[1..]);
      run := [s] + rest;
      forall i | 0 <= i < |actions| ensures run[i + 1] == Next(cfg, run[i], actions[i]) {
        if i > 0 { assert rest[i - 1 + 1] == Next(cfg, rest[i - 1], actions[1..][i - 1]); }
      }
    }
  }

  /** No two live workers drive the thread. */
  ghost predicate Exclusive(s: State, t: Thread) {
    forall w, w' | w in s.sessions && w' in s.sessions && w != w' ::
      s.sessions[w].thread != t || s.sessions[w'].thread != t
  }

  /** ... at every state a run visits. */
  ghost predicate StaysExclusive(run: seq<State>, t: Thread) {
    forall i | 0 <= i < |run| :: Exclusive(run[i], t)
  }

  // ---- The inductive invariant ---------------------------------------------------------------

  /** All there is to know about one key outside the calls: its row, its firings, how many of them
      were cut off, how often its row may have been forgotten, and whether a human approved it. */
  datatype Books = Books(row: Option<Entry>, fired: nat, lost: nat, wipes: nat, approved: bool)

  function BooksOf(cfg: Config, s: State, k: Key): Books {
    Books(Row(s, k), s.log[Fired(k)], s.log[Lost(k)], if cfg.durable then 0 else s.log[Restarted],
          cfg.confirm(k) ==> Decided(k, true) in s.log)
  }

  /** What a call's position promises about the books of its key. */
  ghost predicate CallOk(idempotent: bool, b: Books, pc: Pc) {
    && (!pc.Deciding? ==> b.approved)
    && match pc
       case Deciding => true
       case Looking => true
       case Verifying => b.row == Some(Pending)
       case Settling(_) => b.row == Some(Pending)
       case Declaring => !idempotent && b.row.None?
       case Firing => if idempotent then b.row.None? else b.row == Some(Pending) && b.fired <= b.wipes
       case InFlight => b.row == if idempotent then None else Some(Pending)
       case Recording(_) => b.row == if idempotent then None else Some(Pending)
  }

  /** What the books of a key always satisfy; `active` says whether a call fired it and has not
      recorded it yet. */
  ghost predicate BooksOk(durable: bool, idempotent: bool, b: Books, active: bool) {
    && (b.row == Some(Pending) ==> !idempotent)
    && (!idempotent ==> b.fired <= b.wipes + 1 && (b.row.None? ==> b.fired <= b.wipes))
    && (durable && idempotent ==>
          b.fired == b.lost + (if active then 1 else 0) + (if b.row.Some? then 1 else 0))
    && (b.fired > 0 || b.row.Some? ==> b.approved)
    && (durable && b.row.Some? && b.row.value.Done? ==> b.row.value.result.Plain?)
  }

  /** Whatever was ever returned for a key is what its row says. */
  ghost predicate RepliesOk(cfg: Config, s: State, k: Key) {
    cfg.durable ==> forall v | Replied(k, v) in s.log :: Row(s, k) == Some(Done(Stored(true, v)))
  }

  ghost predicate Active(s: State, k: Key) {
    exists w :: At(s, w, k) && Unsettled(PcOf(s, w, k))
  }

  ghost predicate KeyOk(cfg: Config, s: State, k: Key) {
    BooksOk(cfg.durable, cfg.idempotent(k), BooksOf(cfg, s, k), Active(s, k)) && RepliesOk(cfg, s, k)
  }

  ghost predicate CallsOk(cfg: Config, s: State, t: Thread) {
    forall w, k | At(s, w, k) && k.thread == t ::
      s.sessions[w].thread == t && CallOk(cfg.idempotent(k), BooksOf(cfg, s, k), PcOf(s, w, k))
  }

  /** All of it, for the keys of one thread. */
  ghost predicate Inv(cfg: Config, s: State, t: Thread) {
    CallsOk(cfg, s, t) && forall k: Key | k.thread == t :: KeyOk(cfg, s, k)
  }

  // ---- Each action keeps it ------------------------------------------------------------------

  function BooksAfter(b: Books, confirm: bool, p: Progress): Books {
    b.(row := if p.row.Some? then p.row else b.row,
       fired := if p.event.Some? && p.event.value.Fired? then b.fired + 1 else b.fired,
       lost := if p.event.Some? && p.event.value.Lost? then b.lost + 1 else b.lost,
       approved := b.approved || (p.event.Some? && p.event.value.Decided? && p.event.value.approved))
  }

  /** The heart of it: one step of one call, on the books of its own key. */
  lemma AdvanceKeepsBooks(cfg: Config, k: Key, pc: Pc, b: Books, op: Op)
    requires CallOk(cfg.idempotent(k), b, pc)
    requires BooksOk(cfg.durable, cfg.idempotent(k), b, Unsettled(pc))
    ensures var p := Advance(cfg, k, pc, b.row, op);
            var b' := BooksAfter(b, cfg.confirm(k), p);
            && (p.pc.Some? ==> CallOk(cfg.idempotent(k), b', p.pc.value))
            && BooksOk(cfg.durable, cfg.idempotent(k), b', p.pc.Some? && Unsettled(p.pc.value))
  {
  }

  lemma ApplyToBooks(cfg: Config, s: State, w: Worker, k: Key, op: Op)
    requires At(s, w, k)
    ensures var p := Advance(cfg, k, PcOf(s, w, k), Row(s, k), op);
            var s' := Apply(s, w, k, p);
            && BooksOf(cfg, s', k) == BooksAfter(BooksOf(cfg, s, k), cfg.confirm(k), p)
            && forall k' | k' != k :: BooksOf(cfg, s', k') == BooksOf(cfg, s, k')
  {
  }

  lemma ApplyToReplies(cfg: Config, s: State, w: Worker, k: Key, op: Op)
    requires At(s, w, k) && CallOk(cfg.idempotent(k), BooksOf(cfg, s, k), PcOf(s, w, k)) && KeyOk(cfg, s, k)
    ensures RepliesOk(cfg, Next(cfg, s, Call(w, k, op)), k)
  {
  }

  /** The only live call for a key is the one in hand. */
  lemma SoleCall(cfg: Config, s: State, w: Worker, k: Key)
    requires CallsOk(cfg, s, k.thread) && Exclusive(s, k.thread) && At(s, w, k)
    ensures forall w' | At(s, w', k) :: w' == w
    ensures Active(s, k) <==> Unsettled(PcOf(s, w, k))
  {
  }

  lemma CallKeepsActive(cfg: Config, s: State, w: Worker, k: Key, op: Op)
    requires CallsOk(cfg, s, k.thread) && Exclusive(s, k.thread) && At(s, w, k)
    ensures var p := Advance(cfg, k, PcOf(s, w, k), Row(s, k), op);
            var s' := Apply(s, w, k, p);
            && (Active(s', k) <==> p.pc.Some? && Unsettled(p.pc.value))
            && forall w' | At(s', w', k) :: w' == w
  {
    var p := Advance(cfg, k, PcOf(s, w, k), Row(s, k), op);
    var s' := Apply(s, w, k, p);
    SoleCall(cfg, s, w, k);
    forall w' | w' != w ensures At(s', w', k) <==> At(s, w', k) {}
    if p.pc.Some? && Unsettled(p.pc.value) { assert At(s', w, k); }
  }

  /** A step of a call leaves all other keys alone, whoever drives what. */
  lemma CallLeavesOthers(cfg: Config, s: State, w: Worker, k: Key, op: Op, k': Key)
    requires At(s, w, k) && k' != k
    ensures var s' := Next(cfg, s, Call(w, k, op));
            && BooksOf(cfg, s', k') == BooksOf(cfg, s, k')
            && (forall w' :: At(s', w', k') <==> At(s, w', k'))
            && (forall w' | At(s, w', k') ::
                  PcOf(s', w', k') == PcOf(s, w', k') && s'.sessions[w'].thread == s.sessions[w'].thread)
            && (KeyOk(cfg, s, k') ==> KeyOk(cfg, s', k'))
  {
    var s' := Next(cfg, s, Call(w, k, op));
    ApplyToBooks(cfg, s, w, k, op);
    forall w' ensures At(s', w', k') <==> At(s, w', k') {}
    assert Active(s', k') <==> Active(s, k');
    if KeyOk(cfg, s, k') {
      assert RepliesOk(cfg, s', k');
      KeyUntouched(cfg, s, s', k');
    }
  }

  lemma KeyUntouched(cfg: Config, s: State, s': State, k: Key)
    requires KeyOk(cfg, s, k) && BooksOf(cfg, s', k) == BooksOf(cfg, s, k) && (Active(s', k) <==> Active(s, k))
    requires RepliesOk(cfg, s', k)
    ensures KeyOk(cfg, s', k)
  {
  }

  lemma CallKeepsOwnKey(cfg: Config, s: State, w: Worker, k: Key, op: Op)
    requires Inv(cfg, s, k.thread) && Exclusive(s, k.thread) && At(s, w, k)
    ensures var s' := Next(cfg, s, Call(w, k, op));
            && KeyOk(cfg, s', k)
            && (At(s', w, k) ==> CallOk(cfg.idempotent(k), BooksOf(cfg, s', k), PcOf(s', w, k)))
            && forall w' | At(s', w', k) :: w' == w
  {
    SoleCall(cfg, s, w, k);
    AdvanceKeepsBooks(cfg, k, PcOf(s, w, k), BooksOf(cfg, s, k), op);
    ApplyToBooks(cfg, s, w, k, op);
    ApplyToReplies(cfg, s, w, k, op);
    CallKeepsActive(cfg, s, w, k, op);
  }

  lemma CallKeepsInv(cfg: Config, s: State, w: Worker, k: Key, op: Op, t: Thread)
    requires Inv(cfg, s, t) && Exclusive(s, t) && At(s, w, k)
    ensures Inv(cfg, Next(cfg, s, Call(w, k, op)), t)
  {
    var s' := Next(cfg, s, Call(w, k, op));
    if k.thread == t { CallKeepsOwnKey(cfg, s, w, k, op); }
    forall k': Key | k'.thread == t ensures KeyOk(cfg, s', k') {
      if k' != k { CallLeavesOthers(cfg, s, w, k, op, k'); }
    }
    forall w', k' | At(s', w', k') && k'.thread == t
      ensures s'.sessions[w'].thread == t && CallOk(cfg.idempotent(k'), BooksOf(cfg, s', k'), PcOf(s', w', k'))
    {
      if k' != k { CallLeavesOthers(cfg, s, w, k, op, k'); }
    }
  }

  lemma RemovalKeepsInv(cfg: Config, s: State, w: Worker, t: Thread)
    requires Inv(cfg, s, t) && Exclusive(s, t) && w in s.sessions
    ensures Inv(cfg, Remove(cfg, s, w), t)
  {
    var s' := Remove(cfg, s, w);
    forall k: Key | k.thread == t ensures KeyOk(cfg, s', k) {
      assert KeyOk(cfg, s, k);
      if At(s, w, k) {
        SoleCall(cfg, s, w, k);
        assert !Active(s', k) by { forall w' | At(s', w', k) ensures false { assert At(s, w', k); } }
      } else {
        assert Active(s', k) <==> Active(s, k) by { forall w' ensures At(s', w', k) <==> At(s, w', k) {} }
      }
    }
    forall w', k | At(s', w', k) && k.thread == t
      ensures s'.sessions[w'].thread == t && CallOk(cfg.idempotent(k), BooksOf(cfg, s', k), PcOf(s', w', k))
    {
      assert At(s, w', k);
      assert !At(s, w, k);
    }
  }

  /** Entering, beginning a call and restarting fire nothing and record nothing. */
  lemma EntryKeepsInv(cfg: Config, s: State, a: Action, t: Thread)
    requires Inv(cfg, s, t) && (a.Resume? || a.Start? || a.Restart? || a.Begin?)
    ensures Inv(cfg, Next(cfg, s, a), t)
  {
    var s' := Next(cfg, s, a);
    forall k: Key | k.thread == t ensures KeyOk(cfg, s', k) {
      assert KeyOk(cfg, s, k);
      EntryKeepsActive(cfg, s, a, k);
    }
    EntryKeepsCalls(cfg, s, a, t);
  }

  lemma EntryKeepsCalls(cfg: Config, s: State, a: Action, t: Thread)
    requires Inv(cfg, s, t) && (a.Resume? || a.Start? || a.Restart? || a.Begin?)
    ensures CallsOk(cfg, Next(cfg, s, a), t)
  {
    var s' := Next(cfg, s, a);
    if !a.Restart? {
      forall w, k | At(s', w, k) && k.thread == t
        ensures s'.sessions[w].thread == t && CallOk(cfg.idempotent(k), BooksOf(cfg, s', k), PcOf(s', w, k))
      {
        assert BooksOf(cfg, s', k) == BooksOf(cfg, s, k);
        assert At(s, w, k) ==> CallOk(cfg.idempotent(k), BooksOf(cfg, s, k), PcOf(s, w, k));
      }
    }
  }

  lemma EntryKeepsActive(cfg: Config, s: State, a: Action, k: Key)
    requires a.Resume? || a.Start? || a.Restart? || a.Begin?
    ensures Active(s, k) <==> Active(Next(cfg, s, a), k)
  {
    var s' := Next(cfg, s, a);
    if w :| At(s, w, k) && Unsettled(PcOf(s, w, k)) { assert At(s', w, k); }
    if w :| At(s', w, k) && Unsettled(PcOf(s', w, k)) { assert At(s, w, k); }
  }

  lemma StepKeepsInv(cfg: Config, s: State, a: Action, t: Thread)
    requires Inv(cfg, s, t) && Exclusive(s, t)
    ensures Inv(cfg, Next(cfg, s, a), t)
  {
    match a
    case Leave(w) => if w in s.sessions { RemovalKeepsInv(cfg, s, w, t); }
    case Crash(w) => if w in s.sessions { RemovalKeepsInv(cfg, s, w, t); }
    case Call(w, k, op) => if At(s, w, k) { CallKeepsInv(cfg, s, w, k, op, t); }
    case _ => EntryKeepsInv(cfg, s, a, t);
  }

  lemma {:induction false} RunKeepsInv(cfg: Config, actions: seq<Action>, run: seq<State>, t: Thread, n: nat)
    requires IsRun(cfg, actions, run) && n < |run| && StaysExclusive(run, t)
    ensures Inv(cfg, run[n], t)
  {
    if n > 0 {
      RunKeepsInv(cfg, actions, run, t, n - 1);
      StepKeepsInv(cfg, run[n - 1], actions[n - 1], t);
    }
  }

  // ---- What exclusivity buys -----------------------------------------------------------------

  /** A write fires at most once in the whole life of a durable ledger, and at most once per life of
      a volatile one. */
  lemma WriteFiresAtMostOnce(cfg: Config, actions: seq<Action>, run: seq<State>, n: nat, k: Key)
    requires IsRun(cfg, actions, run) && n < |run| && StaysExclusive(run, k.thread) && !cfg.idempotent(k)
    ensures var s := run[n];
            s.log[Fired(k)] <= 1 + if cfg.durable then 0 else s.log[Restarted]
  {
    RunKeepsInv(cfg, actions, run, k.thread, n);
    assert KeyOk(cfg, run[n], k);
  }

  /** An idempotent effect fires once for every firing that was cut off before its result was
      recorded, and once more for the one that was not. */
  lemma IdempotentFirings(cfg: Config, actions: seq<Action>, run: seq<State>, n: nat, k: Key)
    requires IsRun(cfg, actions, run) && n < |run| && StaysExclusive(run, k.thread) && cfg.durable && cfg.idempotent(k)
    ensures var s := run[n];
            && s.log[Lost(k)] <= s.log[Fired(k)] <= s.log[Lost(k)] + 1
            && (k in s.ledger ==> s.log[Fired(k)] == s.log[Lost(k)] + 1)
            && (s.sessions == map[] && k !in s.ledger ==> s.log[Fired(k)] == s.log[Lost(k)])
  {
    RunKeepsInv(cfg, actions, run, k.thread, n);
    var s := run[n];
    assert KeyOk(cfg, s, k);
    if Active(s, k) {
      var w :| At(s, w, k) && Unsettled(PcOf(s, w, k));
      assert CallOk(true, BooksOf(cfg, s, k), PcOf(s, w, k));
    }
  }

  /** The write-ahead promise: a write that ever fired has a row, declared or settled, whatever was
      crashing at the time. */
  lemma FiredWritesAreOnRecord(cfg: Config, actions: seq<Action>, run: seq<State>, n: nat, k: Key)
    requires IsRun(cfg, actions, run) && n < |run| && StaysExclusive(run, k.thread) && cfg.durable && !cfg.idempotent(k)
    ensures var s := run[n]; Fired(k) in s.log ==> k in s.ledger
  {
    RunKeepsInv(cfg, actions, run, k.thread, n);
    assert KeyOk(cfg, run[n], k);
  }

  /** A settled row is final. */
  lemma {:induction false} SettledIsFinal(cfg: Config, actions: seq<Action>, run: seq<State>, m: nat, n: nat, k: Key)
    requires IsRun(cfg, actions, run) && m <= n < |run| && StaysExclusive(run, k.thread) && cfg.durable
    requires IsDone(run[m], k)
    ensures Row(run[n], k) == Row(run[m], k)
    decreases n
  {
    if m < n {
      SettledIsFinal(cfg, actions, run, m, n - 1, k);
      RunKeepsInv(cfg, actions, run, k.thread, n - 1);
      StepKeepsSettled(cfg, run[n - 1], actions[n - 1], k);
    }
  }

  predicate IsDone(s: State, k: Key) {
    Row(s, k).Some? && Row(s, k).value.Done?
  }

  lemma StepKeepsSettled(cfg: Config, s: State, a: Action, k: Key)
    requires CallsOk(cfg, s, k.thread) && cfg.durable && IsDone(s, k)
    ensures Row(Next(cfg, s, a), k) == Row(s, k)
  {
    if a.Call? && a.k == k && At(s, a.w, k) {
      assert CallOk(cfg.idempotent(k), BooksOf(cfg, s, k), PcOf(s, a.w, k));
    }
  }

  /** Everybody who was ever answered for a key was told the same thing, up to what the ledger's
      JSON column can carry; and that is what its row says. */
  lemma RepliesAgree(cfg: Config, actions: seq<Action>, run: seq<State>, n: nat, k: Key, v: Value, v': Value)
    requires IsRun(cfg, actions, run) && n < |run| && StaysExclusive(run, k.thread) && cfg.durable
    requires var s := run[n]; Replied(k, v) in s.log && Replied(k, v') in s.log
    ensures Stored(true, v) == Stored(true, v')
    ensures v.Plain? && v'.Plain? ==> v == v'
    ensures Row(run[n], k) == Some(Done(Stored(true, v)))
  {
    RunKeepsInv(cfg, actions, run, k.thread, n);
    assert KeyOk(cfg, run[n], k);
  }

  /** Under confirmation nothing fires, and nothing is even recorded, before a human said yes. */
  lemma NothingWithoutApproval(cfg: Config, actions: seq<Action>, run: seq<State>, n: nat, k: Key)
    requires IsRun(cfg, actions, run) && n < |run| && StaysExclusive(run, k.thread) && cfg.confirm(k)
    ensures var s := run[n];
            Decided(k, true) !in s.log ==> Fired(k) !in s.log && k !in s.ledger
  {
    RunKeepsInv(cfg, actions, run, k.thread, n);
    assert KeyOk(cfg, run[n], k);
  }

  // ---- Single steps ----------------------------------------------------------------------------

  /** The same state with one call moved. */
  function Moved(s: State, w: Worker, k: Key, pc: Pc): State
    requires w in s.sessions
  {
    var c := s.sessions[w];
    s.(sessions := s.sessions[w := c.(calls := c.calls[k := pc])])
  }

  lemma LooksUpUnseen(cfg: Config, s: State, w: Worker, k: Key)
    requires At(s, w, k) && PcOf(s, w, k) == Looking && k !in s.ledger && !cfg.idempotent(k)
    ensures Next(cfg, s, Call(w, k, Lookup)) == Moved(s, w, k, Declaring)
  {
  }

  lemma Declares(cfg: Config, s: State, w: Worker, k: Key)
    requires At(s, w, k) && PcOf(s, w, k) == Declaring
    ensures Next(cfg, s, Call(w, k, Declare)) == Moved(s, w, k, Firing).(ledger := s.ledger[k := Pending])
  {
  }

  lemma Fires(cfg: Config, s: State, w: Worker, k: Key)
    requires At(s, w, k) && PcOf(s, w, k) == Firing
    ensures Next(cfg, s, Call(w, k, Fire)) == Moved(s, w, k, InFlight).(log := s.log[Fired(k) := s.log[Fired(k)] + 1])
  {
  }

  // ---- An undisturbed call is the guarded call ------------------------------------------------

  /** What a call does next when the human agrees and the effect comes to the given outcomes. */
  function Natural(pc: Pc, onCall: Outcome, onVerify: Outcome): Op {
    match pc
    case Deciding => Decide(true)
    case Looking => Lookup
    case Verifying => if onVerify.Returned? then Verify(onVerify.value) else Fail
    case Settling(_) => Record
    case Declaring => Declare
    case Firing => Fire
    case InFlight => if onCall.Returned? then Finish(onCall.value) else Fail
    case Recording(_) => Record
  }

  function StepsLeft(pc: Pc): nat {
    match pc
    case Deciding => 7
    case Looking => 6
    case Declaring => 5
    case Firing => 4
    case Verifying => 3
    case InFlight => 3
    case Settling(_) => 2
    case Recording(_) => 2
  }

  /** Drive one call to its end with nobody else moving. */
  function Drive(cfg: Config, s: State, w: Worker, k: Key, onCall: Outcome, onVerify: Outcome): State
    decreases if At(s, w, k) then StepsLeft(PcOf(s, w, k)) else 0
  {
    if !At(s, w, k) then s
    else Drive(cfg, Next(cfg, s, Call(w, k, Natural(PcOf(s, w, k), onCall, onVerify))), w, k, onCall, onVerify)
  }

  /** One natural step and the rest of the drive. */
  lemma DriveStep(cfg: Config, s: State, w: Worker, k: Key, onCall: Outcome, onVerify: Outcome)
    requires At(s, w, k)
    ensures Drive(cfg, s, w, k, onCall, onVerify)
            == Drive(cfg, Next(cfg, s, Call(w, k, Natural(PcOf(s, w, k), onCall, onVerify))), w, k, onCall, onVerify)
  {
  }

  /** With a value in hand the call records it and is over. */
  lemma DriveRecords(cfg: Config, s: State, w: Worker, k: Key, v: Value, onCall: Outcome, onVerify: Outcome)
    requires At(s, w, k) && (PcOf(s, w, k) == Pc.Recording(v) || PcOf(s, w, k) == Settling(v))
    ensures Settled(cfg, s, Drive(cfg, s, w, k, onCall, onVerify), w, k, Returned(v))
  {
    DriveStep(cfg, s, w, k, onCall, onVerify);
  }

  ghost predicate Settled(cfg: Config, s: State, s': State, w: Worker, k: Key, o: Outcome) {
    && s'.ledger == Settle(cfg.durable, s.ledger, k, o)
    && s'.log[Fired(k)] == s.log[Fired(k)]
    && (o.Returned? ==> s'.log[Replied(k, o.value)] == s.log[Replied(k, o.value)] + 1)
    && s'.locks == s.locks && !At(s', w, k)
  }

  /** From `InFlight` or `Verifying` the call settles on the outcome it meets. */
  lemma DriveSettles(cfg: Config, s: State, w: Worker, k: Key, onCall: Outcome, onVerify: Outcome)
    requires At(s, w, k) && (PcOf(s, w, k).InFlight? || PcOf(s, w, k).Verifying?)
    ensures Settled(cfg, s, Drive(cfg, s, w, k, onCall, onVerify), w, k,
                    if PcOf(s, w, k).InFlight? then onCall else onVerify)
  {
    DriveStep(cfg, s, w, k, onCall, onVerify);
    var o := if PcOf(s, w, k).InFlight? then onCall else onVerify;
    if o.Returned? {
      MovesToRecording(cfg, s, w, k, o.value);
      var s1 := Moved(s, w, k, if PcOf(s, w, k).InFlight? then Pc.Recording(o.value) else Settling(o.value));
      DriveRecords(cfg, s1, w, k, o.value, onCall, onVerify);
    } else {
      CallFails(cfg, s, w, k);
    }
  }

  lemma CallFails(cfg: Config, s: State, w: Worker, k: Key)
    requires At(s, w, k)
    ensures var s' := Next(cfg, s, Call(w, k, Op.Fail));
            && s'.ledger == s.ledger && s'.log[Fired(k)] == s.log[Fired(k)] && s'.locks == s.locks && !At(s', w, k)
  {
  }

  lemma MovesToRecording(cfg: Config, s: State, w: Worker, k: Key, v: Value)
    requires At(s, w, k)
    ensures PcOf(s, w, k).InFlight? ==> Next(cfg, s, Call(w, k, Finish(v))) == Moved(s, w, k, Pc.Recording(v))
    ensures PcOf(s, w, k).Verifying? ==> Next(cfg, s, Call(w, k, Op.Verify(v))) == Moved(s, w, k, Settling(v))
  {
  }

  /** Undisturbed, the protocol is the sequential guarded call: same ledger, same firings, same
      answer.  This ties every step above to what the code's own method is proved to do. */
  lemma UndisturbedIsGuarded(cfg: Config, s: State, w: Worker, k: Key, onCall: Outcome, onVerify: Outcome)
    requires At(s, w, k) && PcOf(s, w, k) == Looking
    ensures DrivesAsGuarded(cfg, s, w, k, onCall, onVerify)
  {
    if k in s.ledger {
      DriveSeen(cfg, s, w, k, onCall, onVerify);
    } else {
      DriveUnseen(cfg, s, w, k, onCall, onVerify);
    }
  }

  ghost predicate DrivesAsGuarded(cfg: Config, s: State, w: Worker, k: Key, onCall: Outcome, onVerify: Outcome)
  {
    var s' := Drive(cfg, s, w, k, onCall, onVerify);
    var g := Guarded(cfg.durable, s.ledger, k, onCall, onVerify, cfg.idempotent(k));
    && s'.ledger == g.entries
    && s'.log[Fired(k)] == s.log[Fired(k)] + g.fired
    && (g.outcome.Returned? ==> s'.log[Replied(k, g.outcome.value)] == s.log[Replied(k, g.outcome.value)] + 1)
    && s'.locks == s.locks && !At(s', w, k)
  }

  lemma DriveSeen(cfg: Config, s: State, w: Worker, k: Key, onCall: Outcome, onVerify: Outcome)
    requires At(s, w, k) && PcOf(s, w, k) == Looking && k in s.ledger
    ensures DrivesAsGuarded(cfg, s, w, k, onCall, onVerify)
  {
    DriveStep(cfg, s, w, k, onCall, onVerify);
    if s.ledger[k].Pending? {
      DriveSettles(cfg, Next(cfg, s, Call(w, k, Lookup)), w, k, onCall, onVerify);
    }
  }

  lemma DriveUnseen(cfg: Config, s: State, w: Worker, k: Key, onCall: Outcome, onVerify: Outcome)
    requires At(s, w, k) && PcOf(s, w, k) == Looking && k !in s.ledger
    ensures DrivesAsGuarded(cfg, s, w, k, onCall, onVerify)
  {
    DriveStep(cfg, s, w, k, onCall, onVerify);
    if cfg.idempotent(k) {
      LooksUpIdempotent(cfg, s, w, k);
      DriveFires(cfg, Moved(s, w, k, Firing), w, k, onCall, onVerify);
    } else {
      LooksUpUnseen(cfg, s, w, k);
      DriveDeclares(cfg, Moved(s, w, k, Declaring), w, k, onCall, onVerify);
    }
  }

  lemma LooksUpIdempotent(cfg: Config, s: State, w: Worker, k: Key)
    requires At(s, w, k) && PcOf(s, w, k) == Looking && k !in s.ledger && cfg.idempotent(k)
    ensures Next(cfg, s, Call(w, k, Lookup)) == Moved(s, w, k, Firing)
  {
  }

  lemma DriveDeclares(cfg: Config, s: State, w: Worker, k: Key, onCall: Outcome, onVerify: Outcome)
    requires At(s, w, k) && PcOf(s, w, k) == Declaring
    ensures FiresAndSettles(cfg, s, s.ledger[k := Pending], Drive(cfg, s, w, k, onCall, onVerify), w, k, onCall)
  {
    DriveStep(cfg, s, w, k, onCall, onVerify);
    Declares(cfg, s, w, k);
    DriveFires(cfg, Next(cfg, s, Call(w, k, Declare)), w, k, onCall, onVerify);
  }

  /** From a ledger `entries`, the effect fired once and the call settled on its outcome. */
  ghost predicate FiresAndSettles(cfg: Config, s: State, entries: Entries, s': State, w: Worker, k: Key, o: Outcome) {
    && s'.ledger == Settle(cfg.durable, entries, k, o)
    && s'.log[Fired(k)] == s.log[Fired(k)] + 1
    && (o.Returned? ==> s'.log[Replied(k, o.value)] == s.log[Replied(k, o.value)] + 1)
    && s'.locks == s.locks && !At(s', w, k)
  }

  lemma DriveFires(cfg: Config, s: State, w: Worker, k: Key, onCall: Outcome, onVerify: Outcome)
    requires At(s, w, k) && PcOf(s, w, k).Firing?
    ensures FiresAndSettles(cfg, s, s.ledger, Drive(cfg, s, w, k, onCall, onVerify), w, k, onCall)
  {
    DriveStep(cfg, s, w, k, onCall, onVerify);
    Fires(cfg, s, w, k);
    DriveSettles(cfg, Next(cfg, s, Call(w, k, Fire)), w, k, onCall, onVerify);
  }
}
