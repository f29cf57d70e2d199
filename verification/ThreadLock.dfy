/** The in-process single-owner lock: a process-wide set of held keys and one small object per user.

    `advisoryKey` is a hash of (tenant, thread) and is left arbitrary, collisions and all. */
module ThreadLock {

  /** What taking, leaving and reclaiming do to the held keys and to the object's own flag. */
  function Taken(held: set<int>, key: int, owned: bool): (set<int>, bool) {
    if key in held then (held, owned) else (held + {key}, true)
  }

  function Left(held: set<int>, key: int, owned: bool): (set<int>, bool) {
    if owned then (held - {key}, false) else (held, owned)
  }

  class HeldKeys {
    var held: set<int>

    constructor ()
      ensures held == {}
    {
      held := {};
    }

    /** Free a thread whose owner died; a no-op if nobody holds its key. */
    method ReleaseDeadOwner(key: int)
      modifies this
      ensures held == old(held) - {key}
    {
      held := held - {key};
    }
  }

  class InMemoryThreadLock {
    const table: HeldKeys
    const key: int
    var owned: bool

    constructor (table: HeldKeys, advisoryKey: (string, string) -> int, tenant: string, thread: string)
      ensures this.table == table && key == advisoryKey(tenant, thread) && !owned
    {
      this.table := table;
      key := advisoryKey(tenant, thread);
      owned := false;
    }

    /** Take the lock if it is free; otherwise the thread is busy and nothing changes. */
    method Enter() returns (acquired: bool)
      modifies this, table
      ensures acquired <==> key !in old(table.held)
      ensures (table.held, owned) == Taken(old(table.held), key, old(owned))
      ensures acquired ==> owned && table.held == old(table.held) + {key}
      ensures !acquired ==> owned == old(owned) && table.held == old(table.held)
    {
      if key in table.held {
        return false;
      }
      table.held := table.held + {key};
      owned := true;
      return true;
    }

    /** Release, once. */
    method Exit()
      modifies this, table
      ensures (table.held, owned) == Left(old(table.held), key, old(owned))
      ensures !owned && table.held == if old(owned) then old(table.held) - {key} else old(table.held)
    {
      if owned {
        table.held := table.held - {key};
        owned := false;
      }
    }
  }

  // ---- Many lock objects over one set of held keys --------------------------------------------

  datatype Lock = Lock(tenant: string, thread: string, owned: bool, dead: bool)

  datatype World = World(held: set<int>, locks: map<nat, Lock>)

  datatype Step =
    | Make(id: nat, tenant: string, thread: string)
    | Enter(id: nat)
    | Exit(id: nat)
    | Die(id: nat)  // the owner is killed and never runs again
    | Reclaim(tenant: string, thread: string)

  type Hash = (string, string) -> int

  function KeyOf(hash: Hash, l: Lock): int {
    hash(l.tenant, l.thread)
  }

  function Next(hash: Hash, w: World, step: Step): World {
    match step
    case Make(id, tenant, thread) =>
      if id in w.locks then w else w.(locks := w.locks[id := Lock(tenant, thread, false, false)])
    case Enter(id) =>
      if id !in w.locks || w.locks[id].dead then w
      else
        var (held, owned) := Taken(w.held, KeyOf(hash, w.locks[id]), w.locks[id].owned);
        World(held, w.locks[id := w.locks[id].(owned := owned)])
    case Exit(id) =>
      if id !in w.locks || w.locks[id].dead then w
      else
        var (held, owned) := Left(w.held, KeyOf(hash, w.locks[id]), w.locks[id].owned);
        World(held, w.locks[id := w.locks[id].(owned := owned)])
    case Die(id) =>
      if id in w.locks then w.(locks := w.locks[id := w.locks[id].(dead := true)]) else w
    case Reclaim(tenant, thread) => w.(held := w.held - {hash(tenant, thread)})
  }

  ghost predicate LiveOwner(w: World, id: nat) {
    id in w.locks && w.locks[id].owned && !w.locks[id].dead
  }

  /** Every live owner's key is held, and no two live owners share one. */
  ghost predicate Inv(hash: Hash, w: World) {
    && (forall id | LiveOwner(w, id) :: KeyOf(hash, w.locks[id]) in w.held)
    && (forall id, id' | LiveOwner(w, id) && LiveOwner(w, id') && id != id' ::
          KeyOf(hash, w.locks[id]) != KeyOf(hash, w.locks[id']))
  }

  /** The promise made to users: one live owner per (tenant, thread). */
  ghost predicate SingleOwner(w: World) {
    forall id, id' | LiveOwner(w, id) && LiveOwner(w, id') && id != id' ::
      (w.locks[id].tenant, w.locks[id].thread) != (w.locks[id'].tenant, w.locks[id'].thread)
  }

  /** May a reclaim run now?  Only when no live owner sits on the key, under whatever thread. */
  ghost predicate Reclaimable(hash: Hash, w: World, step: Step) {
    step.Reclaim? ==> forall id | LiveOwner(w, id) :: KeyOf(hash, w.locks[id]) != hash(step.tenant, step.thread)
  }

  /** Each step keeps the invariant exactly when it is not a reclaim under a live owner. */
  lemma StepKeepsInv(hash: Hash, w: World, step: Step)
    requires Inv(hash, w)
    ensures Inv(hash, Next(hash, w, step)) <==> Reclaimable(hash, w, step)
  {
    var w' := Next(hash, w, step);
    if Reclaimable(hash, w, step) {
      forall id | LiveOwner(w', id) ensures KeyOf(hash, w'.locks[id]) in w'.held {
        assert LiveOwner(w, id) || step == Enter(id);
      }
      forall id, id' | LiveOwner(w', id) && LiveOwner(w', id') && id != id'
        ensures KeyOf(hash, w'.locks[id]) != KeyOf(hash, w'.locks[id'])
      {
        assert LiveOwner(w, id) || step == Enter(id);
        assert LiveOwner(w, id') || step == Enter(id');
      }
    } else {
      var id :| LiveOwner(w, id) && KeyOf(hash, w.locks[id]) == hash(step.tenant, step.thread);
      assert LiveOwner(w', id);
    }
  }

  function Run(hash: Hash, steps: seq<Step>): World {
    if steps == [] then World({}, map[]) else Next(hash, Run(hash, steps[..|steps| - 1]), steps[|steps| - 1])
  }

  ghost predicate ReclaimsDeadOnly(hash: Hash, steps: seq<Step>) {
    steps != [] ==>
      var before := steps[..|steps| - 1];
      ReclaimsDeadOnly(hash, before) && Reclaimable(hash, Run(hash, before), steps[|steps| - 1])
  }

  /** Over every interleaving, every collision included, at most one live owner per thread. */
  lemma {:induction false} AtMostOneLiveOwner(hash: Hash, steps: seq<Step>)
    requires ReclaimsDeadOnly(hash, steps)
    ensures Inv(hash, Run(hash, steps)) && SingleOwner(Run(hash, steps))
  {
    if steps != [] {
      AtMostOneLiveOwner(hash, steps[..|steps| - 1]);
      StepKeepsInv(hash, Run(hash, steps[..|steps| - 1]), steps[|steps| - 1]);
    }
  }

  /** An exit frees nobody else's hold; the second of two exits frees nothing at all. */
  lemma ExitFreesOnlyItsOwn(hash: Hash, w: World, id: nat)
    requires Inv(hash, w)
    ensures var w' := Next(hash, w, Exit(id));
            && (forall id' | LiveOwner(w, id') && id' != id ::
                  LiveOwner(w', id') && KeyOf(hash, w'.locks[id']) in w'.held)
            && (LiveOwner(w, id) ==> KeyOf(hash, w.locks[id]) !in w'.held)
            && Next(hash, w', Exit(id)) == w'
  {
    var w' := Next(hash, w, Exit(id));
    if id in w.locks && !w.locks[id].dead {
      assert w'.locks[id := w'.locks[id]] == w'.locks;
    }
    forall id' | LiveOwner(w, id') && id' != id
      ensures LiveOwner(w', id') && KeyOf(hash, w'.locks[id']) in w'.held
    {}
  }

  /** Busy means busy: while somebody holds the key nobody's entering changes anything, not even the
      holder's own; once the holder has left, the next one gets in. */
  lemma LeavingAdmitsNext(hash: Hash, w: World, id: nat, next: nat)
    requires Inv(hash, w) && LiveOwner(w, id) && next in w.locks && next != id && !w.locks[next].dead
    requires KeyOf(hash, w.locks[next]) == KeyOf(hash, w.locks[id])
    ensures Next(hash, w, Enter(next)) == w && Next(hash, w, Enter(id)) == w
    ensures LiveOwner(Next(hash, Next(hash, w, Exit(id)), Enter(next)), next)
  {
    assert w.locks[next := w.locks[next]] == w.locks && w.locks[id := w.locks[id]] == w.locks;
  }

  /** A dead owner blocks its thread until somebody reclaims it, and then the next worker gets in. */
  lemma ReclaimAdmitsNext(hash: Hash, w: World, id: nat, next: nat)
    requires Inv(hash, w) && LiveOwner(w, id) && next in w.locks && next != id
    requires !w.locks[next].dead && !w.locks[next].owned
    requires w.locks[next].tenant == w.locks[id].tenant && w.locks[next].thread == w.locks[id].thread
    ensures var died := Next(hash, w, Die(id));
            var reclaimed := Next(hash, died, Reclaim(w.locks[id].tenant, w.locks[id].thread));
            && Next(hash, died, Enter(next)).locks[next] == died.locks[next]
            && Reclaimable(hash, died, Reclaim(w.locks[id].tenant, w.locks[id].thread))
            && LiveOwner(Next(hash, reclaimed, Enter(next)), next)
  {
    var died := Next(hash, w, Die(id));
    forall id' | LiveOwner(died, id') ensures KeyOf(hash, died.locks[id']) != KeyOf(hash, w.locks[id]) {
      assert LiveOwner(w, id') && id' != id;
    }
  }

  /** Asking only that no live worker drives the thread itself is not enough: when two threads
      collide, reclaiming the idle one frees the busy one, and the busy one then gets two owners. */
  lemma CollidingReclaimBreaksIt(hash: Hash, tenant: string, idle: string, busy: string)
    requires idle != busy && hash(tenant, idle) == hash(tenant, busy)
    ensures var steps := [Make(0, tenant, busy), Make(1, tenant, busy), Enter(0), Reclaim(tenant, idle), Enter(1)];
            var w := Run(hash, steps);
            LiveOwner(w, 0) && LiveOwner(w, 1) && !SingleOwner(w)
  {
    var steps := [Make(0, tenant, busy), Make(1, tenant, busy), Enter(0), Reclaim(tenant, idle), Enter(1)];
    var key := hash(tenant, busy);
    var l, l' := Lock(tenant, busy, false, false), Lock(tenant, busy, true, false);
    var s4, s3, s2, s1 := steps[..4], steps[..3], steps[..2], steps[..1];
    assert s4[..3] == s3 && s4[3] == Reclaim(tenant, idle);
    assert s3[..2] == s2 && s3[2] == Enter(0);
    assert s2[..1] == s1 && s1[..0] == [];
    assert Run(hash, s1) == World({}, map[0 := l]);
    assert Run(hash, s2) == World({}, map[0 := l, 1 := l]);
    assert Run(hash, s3) == World({key}, map[0 := l', 1 := l]);
    assert Run(hash, s4).held == {} && Run(hash, s4).locks == map[0 := l', 1 := l];
    assert Run(hash, steps) == World({key}, map[0 := l', 1 := l']);
  }
}
