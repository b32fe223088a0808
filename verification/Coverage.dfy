/**
 Which worker covers which menu (`MenuSocketSupervisor.reconcileAll` and the calls below it).

 Acquiring or tearing down one menu is one step here; the steps of any number of
 workers interleave.  The device table is fixed: `devices` is the set of menus that
 have one.  A lock's owner is recorded per menu, as `AdvisoryLocks.LockKeyInjectiveOnIds`
 allows.
 */
module Coverage {
  import AdvisoryLocks

  type MenuId = AdvisoryLocks.MenuId
  type WorkerId = AdvisoryLocks.WorkerId

  const POOL_MAX: nat := AdvisoryLocks.POOL_MAX

  datatype RelayState = Absent | Connecting | Joined | Backoff | Reconnecting | Uncovered

  /** What `connectRelay` can leave a relay in once it has the lock. */
  predicate Settled(r: RelayState)
  {
    r == Joined || r == Backoff || r == Uncovered
  }

  type Owners = map<MenuId, WorkerId>

  /** One worker's relays and the menus whose lock it holds. */
  datatype Relays = Relays(relays: map<MenuId, RelayState>, held: set<MenuId>)

  /** `acquire(m)` by worker `w`: the relay is kept, in state `outcome`, exactly when the lock is had. */
  function Acquired(s: Relays, owners: Owners, w: WorkerId, m: MenuId, outcome: RelayState): (r: (Relays, Owners))
  {
    if m in s.relays && (s.relays[m] == Joined || s.relays[m] == Connecting) then (s, owners)
    else if m in s.held then (s.(relays := s.relays[m := outcome]), owners)
    else if m in owners then (s.(relays := s.relays - {m}), owners)
    else (Relays(s.relays[m := outcome], s.held + {m}), owners[m := w])
  }

  /** `teardown(m)` by worker `w`. */
  function TornDown(s: Relays, owners: Owners, w: WorkerId, m: MenuId): (r: (Relays, Owners))
  {
    (Relays(s.relays - {m}, s.held - {m}), if m in s.held then owners - {m} else owners)
  }

  /** A worker's relays are exactly the menus whose lock it holds. */
  ghost predicate Coherent(s: Relays, owners: Owners, w: WorkerId)
  {
    && s.held == s.relays.Keys
    && forall m :: m in s.held <==> m in owners && owners[m] == w
  }

  predicate OwnedBy(owners: Owners, w: WorkerId, m: MenuId)
  {
    m in owners && owners[m] == w
  }

  predicate OwnedByOther(owners: Owners, w: WorkerId, m: MenuId)
  {
    m in owners && owners[m] != w
  }

  /** `w` changed nothing about locks that are not its own. */
  ghost predicate OthersKept(owners: Owners, owners': Owners, w: WorkerId)
  {
    && (forall m :: OwnedByOther(owners, w, m) <==> OwnedByOther(owners', w, m))
    && (forall m :: OwnedByOther(owners, w, m) ==> owners'[m] == owners[m])
  }

  lemma AcquiredKeeps(s: Relays, owners: Owners, w: WorkerId, m: MenuId, outcome: RelayState)
    requires Coherent(s, owners, w)
    ensures var (s', owners') := Acquired(s, owners, w, m, outcome);
      && Coherent(s', owners', w) && OthersKept(owners, owners', w)
      && owners.Keys + {m} <= owners'.Keys <= owners.Keys + {m}
      && s'.held == if OwnedByOther(owners, w, m) then s.held else s.held + {m}
  {
  }

  lemma TornDownKeeps(s: Relays, owners: Owners, w: WorkerId, m: MenuId)
    requires Coherent(s, owners, w)
    ensures var (s', owners') := TornDown(s, owners, w, m);
      && Coherent(s', owners', w) && OthersKept(owners, owners', w)
      && owners'.Keys + {m} >= owners.Keys >= owners'.Keys
      && s'.held == s.held - {m}
  {
  }

  // ------------------------------------------------------------ one supervisor

  /** The database's lock table, shared by the workers. */
  class LockTable {
    var owners: Owners

    constructor ()
      ensures owners == map[]
    {
      owners := map[];
    }
  }

  class MenuSocketSupervisor {
    const id: WorkerId
    const table: LockTable
    var relays: map<MenuId, RelayState>
    var held: set<MenuId>

    function State(): Relays
      reads this
    {
      Relays(relays, held)
    }

    ghost predicate Valid()
      reads this, table
    {
      Coherent(State(), table.owners, id)
    }

    constructor (id: WorkerId, table: LockTable)
      requires forall m :: m in table.owners ==> table.owners[m] != id
      ensures this.id == id && this.table == table
      ensures Valid() && State() == Relays(map[], {})
    {
      this.id, this.table := id, table;
      relays, held := map[], {};
    }

    method TryAcquire(m: MenuId) returns (locked: bool)
      modifies this`held, table
      ensures locked == (m in old(held) || m !in old(table.owners))
      ensures held == if locked then old(held) + {m} else old(held)
      ensures table.owners == if m in old(held) || !locked then old(table.owners) else old(table.owners)[m := id]
    {
      if m in held {
        assert held == held + {m};
        return true;
      }
      if m in table.owners {
        return false;
      }
      table.owners := table.owners[m := id];
      held := held + {m};
      return true;
    }

    /** A relay up or coming up is left; any other is there afterwards, as connecting left it, exactly when the lock is had. */
    method Acquire(m: MenuId, outcome: RelayState)
      modifies this, table
      ensures (State(), table.owners) == Acquired(old(State()), old(table.owners), id, m, outcome)
      ensures m in old(relays) && old(relays)[m] in {Joined, Connecting} ==> State() == old(State()) && table.owners == old(table.owners)
      ensures !(m in old(relays) && old(relays)[m] in {Joined, Connecting}) ==>
        if m in old(held) || m !in old(table.owners) then m in relays && relays[m] == outcome && m in held
        else m !in relays && held == old(held)
      ensures forall n :: n != m ==> (n in relays <==> n in old(relays)) && (n in relays ==> relays[n] == old(relays)[n])
    {
      if m !in relays {
        relays := relays[m := Absent];
      }
      if relays[m] == Joined || relays[m] == Connecting {
        return;
      }
      var locked := TryAcquire(m);
      if !locked {
        relays := relays - {m};
        assert State() == Relays(old(relays) - {m}, old(held));
        return;
      }
      relays := relays[m := outcome];
      assert relays == old(relays)[m := outcome];
      assert m in old(held) ==> held == old(held);
    }

    /** The menu's relay goes, and its lock with it; no other menu and no other worker notices. */
    method Teardown(m: MenuId)
      modifies this, table
      ensures (State(), table.owners) == TornDown(old(State()), old(table.owners), id, m)
      ensures old(Valid()) ==>
        && Valid() && OthersKept(old(table.owners), table.owners, id)
        && !OwnedBy(table.owners, id, m)
        && forall n :: n != m ==> (OwnedBy(table.owners, id, n) <==> OwnedBy(old(table.owners), id, n))
    {
      if Valid() {
        TornDownKeeps(State(), table.owners, id, m);
      }
      relays := relays - {m};
      if m in held {
        held := held - {m};
        table.owners := table.owners - {m};
      }
      assert held == old(held) - {m};
    }

    /** Afterwards the worker has the menu exactly when it has a device and no other worker has it; nothing else changes hands. */
    method ReconcileMenu(m: MenuId, devices: set<MenuId>, outcome: RelayState)
      modifies this, table
      ensures (State(), table.owners) ==
        if m in devices then Acquired(old(State()), old(table.owners), id, m, outcome)
        else TornDown(old(State()), old(table.owners), id, m)
      ensures old(Valid()) ==>
        && Valid() && OthersKept(old(table.owners), table.owners, id)
        && (OwnedBy(table.owners, id, m) <==> m in devices && !OwnedByOther(old(table.owners), id, m))
        && forall n :: n != m ==> (OwnedBy(table.owners, id, n) <==> OwnedBy(old(table.owners), id, n))
    {
      if Valid() {
        AcquiredKeeps(State(), table.owners, id, m, outcome);
        TornDownKeeps(State(), table.owners, id, m);
      }
      if m !in devices {
        Teardown(m);
        return;
      }
      Acquire(m, outcome);
    }

    method CoverDevices(devices: set<MenuId>, outcome: RelayState)
      requires Valid()
      modifies this, table
      ensures Valid() && OthersKept(old(table.owners), table.owners, id)
      ensures forall m :: m in devices ==> m in table.owners
      ensures held <= old(held) + devices
    {
      var left := devices;
      while left != {}
        invariant left <= devices
        invariant Valid() && OthersKept(old(table.owners), table.owners, id)
        invariant forall m :: m in devices - left ==> m in table.owners
        invariant held <= old(held) + devices
        decreases |left|
      {
        var m :| m in left;
        AcquiredKeeps(State(), table.owners, id, m, outcome);
        label before:
        ReconcileMenu(m, devices, outcome);
        assert forall n :: n in old@before(table.owners) ==> n in table.owners;
        left := left - {m};
      }
    }

    method PruneRelays(devices: set<MenuId>)
      requires Valid()
      modifies this, table
      ensures Valid() && OthersKept(old(table.owners), table.owners, id)
      ensures held == old(held) * devices
    {
      var left := relays.Keys;
      while left != {}
        invariant Valid() && OthersKept(old(table.owners), table.owners, id)
        invariant left <= held
        invariant held <= old(held) <= held + (old(held) - devices)
        invariant held <= left + devices
        decreases |left|
      {
        var m :| m in left;
        if m !in devices {
          TornDownKeeps(State(), table.owners, id, m);
          Teardown(m);
        }
        left := left - {m};
      }
    }

    /** With no other worker in between: it then holds every menu with a device that nobody else held, and no other. */
    method ReconcileAll(devices: set<MenuId>, outcome: RelayState)
      requires Valid()
      modifies this, table
      ensures Valid() && OthersKept(old(table.owners), table.owners, id)
      ensures forall m :: m in held <==> m in devices && !OwnedByOther(old(table.owners), id, m)
    {
      CoverDevices(devices, outcome);
      PruneRelays(devices);
    }
  }

  // --------------------------------------------------------- the whole fleet

  /** How far a worker is in its `reconcileAll`; the loops may visit their menus in any order. */
  datatype Plan = NotStarted | Covering(left: set<MenuId>) | Pruning(left: set<MenuId>) | Completed

  datatype System = System(workers: map<WorkerId, Relays>, plans: map<WorkerId, Plan>, owners: Owners)

  datatype Step =
    // The steps of one `reconcileAll` ...
    | Begin(w: WorkerId)
    | Cover(w: WorkerId, m: MenuId, outcome: RelayState)
    | StartPruning(w: WorkerId)
    | Prune(w: WorkerId, m: MenuId)
    | Complete(w: WorkerId)
    // ... and what else a worker does meanwhile: notifications and overlapping reconciles,
    // reconnect timers, and its sockets' events.
    | ReconcileMenu(w: WorkerId, m: MenuId, outcome: RelayState)
    | TimerFires(w: WorkerId, m: MenuId, outcome: RelayState)
    | SocketEvent(w: WorkerId, m: MenuId, r: RelayState)

  /** `tryAcquire` gets a connection: it needs none for a menu already held. */
  predicate PoolAdmits(s: Relays, m: MenuId)
  {
    m in s.held || |s.held| < POOL_MAX
  }

  predicate Enabled(s: System, devices: set<MenuId>, step: Step)
  {
    && step.w in s.workers && step.w in s.plans
    && var r, plan := s.workers[step.w], s.plans[step.w];
      match step
      case Begin(_) => plan.NotStarted?
      case Cover(_, m, outcome) => plan.Covering? && m in plan.left && Settled(outcome) && PoolAdmits(r, m)
      case StartPruning(_) => plan == Covering({})
      case Prune(_, m) => plan.Pruning? && m in plan.left
      case Complete(_) => plan == Pruning({})
      case ReconcileMenu(_, m, outcome) => Settled(outcome) && (m in devices ==> PoolAdmits(r, m))
      case TimerFires(_, m, outcome) => m in r.relays && Settled(outcome) && PoolAdmits(r, m)
      case SocketEvent(_, m, r') => m in r.relays
  }

  function Reconciled(s: System, devices: set<MenuId>, w: WorkerId, m: MenuId, outcome: RelayState): (Relays, Owners)
    requires w in s.workers
  {
    if m in devices then Acquired(s.workers[w], s.owners, w, m, outcome)
    else TornDown(s.workers[w], s.owners, w, m)
  }

  function Apply(s: System, devices: set<MenuId>, step: Step): System
    requires Enabled(s, devices, step)
  {
    var w := step.w;
    var r := s.workers[w];
    match step
    case Begin(_) => s.(plans := s.plans[w := Covering(devices)])
    case Cover(_, m, outcome) =>
      var (r', owners') := Reconciled(s, devices, w, m, outcome);
      System(s.workers[w := r'], s.plans[w := Covering(s.plans[w].left - {m})], owners')
    case StartPruning(_) => s.(plans := s.plans[w := Pruning(r.relays.Keys)])
    case Prune(_, m) =>
      var (r', owners') := if m in devices then (r, s.owners) else TornDown(r, s.owners, w, m);
      System(s.workers[w := r'], s.plans[w := Pruning(s.plans[w].left - {m})], owners')
    case Complete(_) => s.(plans := s.plans[w := Completed])
    case ReconcileMenu(_, m, outcome) =>
      var (r', owners') := Reconciled(s, devices, w, m, outcome);
      s.(workers := s.workers[w := r'], owners := owners')
    case TimerFires(_, m, outcome) =>
      var (r', owners') := Acquired(r, s.owners, w, m, outcome);
      s.(workers := s.workers[w := r'], owners := owners')
    case SocketEvent(_, m, r') => s.(workers := s.workers[w := r.(relays := r.relays[m := r'])])
  }

  ghost predicate Run(s: System, devices: set<MenuId>, steps: seq<Step>, t: System)
    decreases |steps|
  {
    if steps == [] then s == t
    else Enabled(s, devices, steps[0]) && Run(Apply(s, devices, steps[0]), devices, steps[1..], t)
  }

  /** Every worker's relays agree with the lock table, and every lock has an owner in the fleet. */
  ghost predicate AllCoherent(s: System)
  {
    && s.workers.Keys == s.plans.Keys
    && (forall w :: w in s.workers ==> Coherent(s.workers[w], s.owners, w))
    && (forall m :: m in s.owners ==> s.owners[m] in s.workers)
  }

  /** What a worker's progress through `reconcileAll` guarantees, now and from then on. */
  ghost predicate PlanKept(s: System, devices: set<MenuId>, w: WorkerId)
    requires w in s.workers && w in s.plans
  {
    match s.plans[w]
    case NotStarted => true
    case Covering(left) => left <= devices && devices - left <= s.owners.Keys
    case Pruning(left) => devices <= s.owners.Keys && s.workers[w].held <= devices + left
    case Completed => devices <= s.owners.Keys && s.workers[w].held <= devices
  }

  ghost predicate Inv(s: System, devices: set<MenuId>)
  {
    && AllCoherent(s)
    && forall w :: w in s.workers ==> PlanKept(s, devices, w)
  }

  /** Any coherent fleet may start, with no `reconcileAll` begun. */
  ghost predicate Init(s: System)
  {
    && AllCoherent(s)
    && forall w :: w in s.plans ==> s.plans[w] == NotStarted
  }

  /** What a step may do to the worker that takes it and to the lock table. */
  ghost predicate Framed(r: Relays, owners: Owners, r': Relays, owners': Owners, w: WorkerId, devices: set<MenuId>)
  {
    && Coherent(r', owners', w)
    && OthersKept(owners, owners', w)
    && owners.Keys * devices <= owners'.Keys
    && r'.held <= r.held + devices
  }

  lemma AcquireFramed(r: Relays, owners: Owners, w: WorkerId, m: MenuId, outcome: RelayState, devices: set<MenuId>)
    requires Coherent(r, owners, w)
    requires m in devices || m in r.relays
    ensures var (r', owners') := Acquired(r, owners, w, m, outcome);
      Framed(r, owners, r', owners', w, devices) && m in owners'
  {
    AcquiredKeeps(r, owners, w, m, outcome);
  }

  lemma TeardownFramed(r: Relays, owners: Owners, w: WorkerId, m: MenuId, devices: set<MenuId>)
    requires Coherent(r, owners, w)
    requires m !in devices
    ensures var (r', owners') := TornDown(r, owners, w, m);
      Framed(r, owners, r', owners', w, devices) && r'.held == r.held - {m}
  {
    TornDownKeeps(r, owners, w, m);
  }

  /** A step of `w` touches no other worker, and no menu with a device loses its owner. */
  lemma StepFramed(s: System, devices: set<MenuId>, step: Step)
    requires Enabled(s, devices, step)
    requires Coherent(s.workers[step.w], s.owners, step.w)
    requires step.Cover? ==> step.m in devices
    ensures var t := Apply(s, devices, step);
      && step.w in t.workers
      && Framed(s.workers[step.w], s.owners, t.workers[step.w], t.owners, step.w, devices)
    ensures step.Cover? ==> step.m in Apply(s, devices, step).owners
    ensures step.Prune? ==>
      Apply(s, devices, step).workers[step.w].held <= s.workers[step.w].held - ({step.m} - devices)
  {
    var r := s.workers[step.w];
    match step
    case Cover(_, m, outcome) => AcquireFramed(r, s.owners, step.w, m, outcome, devices);
    case TimerFires(_, m, outcome) => AcquireFramed(r, s.owners, step.w, m, outcome, devices);
    case ReconcileMenu(_, m, outcome) =>
      if m in devices {
        AcquireFramed(r, s.owners, step.w, m, outcome, devices);
      } else {
        TeardownFramed(r, s.owners, step.w, m, devices);
      }
    case Prune(_, m) =>
      if m !in devices {
        TeardownFramed(r, s.owners, step.w, m, devices);
      }
    case _ =>
  }

  lemma OtherWorkerCoherent(r: Relays, owners: Owners, owners': Owners, v: WorkerId, w: WorkerId)
    requires v != w && Coherent(r, owners, v) && OthersKept(owners, owners', w)
    ensures Coherent(r, owners', v)
  {
    forall m ensures m in r.held <==> m in owners' && owners'[m] == v {
      assert OwnedByOther(owners, w, m) <==> OwnedByOther(owners', w, m);
    }
  }

  lemma StepKeepsCoherence(s: System, devices: set<MenuId>, step: Step)
    requires AllCoherent(s) && Enabled(s, devices, step)
    requires step.Cover? ==> step.m in devices
    ensures AllCoherent(Apply(s, devices, step))
  {
    var t := Apply(s, devices, step);
    StepFramed(s, devices, step);
    forall v | v in t.workers
      ensures Coherent(t.workers[v], t.owners, v)
    {
      if v != step.w {
        OtherWorkerCoherent(s.workers[v], s.owners, t.owners, v, step.w);
      }
    }
    forall m | m in t.owners
      ensures t.owners[m] in t.workers
    {
      assert OwnedByOther(s.owners, step.w, m) <==> OwnedByOther(t.owners, step.w, m);
    }
  }

  lemma StepKeeps(s: System, devices: set<MenuId>, step: Step)
    requires Inv(s, devices) && Enabled(s, devices, step)
    ensures Inv(Apply(s, devices, step), devices)
  {
    var t := Apply(s, devices, step);
    assert PlanKept(s, devices, step.w);
    StepKeepsCoherence(s, devices, step);
    StepFramed(s, devices, step);
    forall v | v in t.workers
      ensures PlanKept(t, devices, v)
    {
      assert PlanKept(s, devices, v);
      if v != step.w {
        assert t.workers[v] == s.workers[v] && t.plans[v] == s.plans[v];
      }
    }
  }

  lemma {:induction false} RunKeeps(s: System, devices: set<MenuId>, steps: seq<Step>, t: System)
    requires Inv(s, devices) && Run(s, devices, steps, t)
    ensures Inv(t, devices) && t.workers.Keys == s.workers.Keys
    decreases |steps|
  {
    if steps != [] {
      StepKeeps(s, devices, steps[0]);
      RunKeeps(Apply(s, devices, steps[0]), devices, steps[1..], t);
    }
  }

  // ------------------------------------------------------------ main results

  /**
   Coverage converges: however the workers' steps interleave, once each has completed one
   `reconcileAll`, every menu with a device is held by exactly one worker and no other menu by any.
   */
  lemma CoverageConverges(s0: System, devices: set<MenuId>, steps: seq<Step>, s: System, m: MenuId)
    requires Init(s0) && Run(s0, devices, steps, s)
    requires s.workers.Keys != {} && forall w :: w in s.plans ==> s.plans[w] == Completed
    ensures m in devices ==> exists w :: w in s.workers && m in s.workers[w].held
    ensures forall v, w :: v in s.workers && w in s.workers && m in s.workers[v].held && m in s.workers[w].held ==> v == w
    ensures m !in devices ==> forall w :: w in s.workers ==> m !in s.workers[w].held
  {
    RunKeeps(s0, devices, steps, s);
    forall w | w in s.workers
      ensures s.workers[w].held <= devices <= s.owners.Keys
    {
      assert PlanKept(s, devices, w);
    }
    if m in devices {
      var w :| w in s.workers.Keys;
      assert s.workers[w].held <= devices;
      assert m in s.owners;
      assert Coherent(s.workers[s.owners[m]], s.owners, s.owners[m]);
      assert m in s.workers[s.owners[m]].held;
    }
    forall v, w | v in s.workers && w in s.workers && m in s.workers[v].held && m in s.workers[w].held
      ensures v == w
    {
      assert Coherent(s.workers[v], s.owners, v) && Coherent(s.workers[w], s.owners, w);
    }
  }

  /** Between whole acquires and teardowns, converged or not, no menu is held by two workers or without a relay. */
  lemma HeldMatchesRelays(s0: System, devices: set<MenuId>, steps: seq<Step>, s: System, w: WorkerId)
    requires Init(s0) && Run(s0, devices, steps, s) && w in s.workers
    ensures s.workers[w].held == s.workers[w].relays.Keys
    ensures forall v :: v in s.workers && v != w ==> s.workers[v].held !! s.workers[w].held
  {
    RunKeeps(s0, devices, steps, s);
    assert Coherent(s.workers[w], s.owners, w);
    forall v | v in s.workers && v != w
      ensures s.workers[v].held !! s.workers[w].held
    {
      assert Coherent(s.workers[v], s.owners, v);
    }
  }

  function Stage(p: Plan): nat
  {
    match p case NotStarted => 3 case Covering(_) => 2 case Pruning(_) => 1 case Completed => 0
  }

  function Left(p: Plan): set<MenuId>
  {
    if p.Covering? || p.Pruning? then p.left else {}
  }

  lemma ProperSubsetSmaller(a: set<MenuId>, b: set<MenuId>, m: MenuId)
    requires a <= b && m in b && m !in a
    ensures |a| < |b|
  {
    assert a <= b - {m};
    SubsetSize(a, b - {m});
  }

  lemma SubsetSize(a: set<MenuId>, b: set<MenuId>)
    requires a <= b
    ensures |a| <= |b|
  {
    if a != {} {
      var m :| m in a;
      SubsetSize(a - {m}, b - {m});
    }
  }

  /** A step of a worker's own `reconcileAll`. */
  predicate OwnReconcile(step: Step, w: WorkerId)
  {
    step.w == w && (step.Begin? || step.Cover? || step.StartPruning? || step.Prune? || step.Complete?)
  }

  /** The menus a worker has yet to go through with `acquire`. */
  function ToCover(p: Plan, devices: set<MenuId>): set<MenuId>
  {
    if p.NotStarted? then devices else if p.Covering? then p.left else {}
  }

  /**
   Enough connections to acquire the menus `left`, with `held` held and `taken` held by anyone: one for
   each that nobody holds, and at least one to ask with unless all are held already.
   */
  predicate Fits(left: set<MenuId>, held: set<MenuId>, taken: set<MenuId>)
  {
    left <= held || (|held| < POOL_MAX && |held| + |left - taken| <= POOL_MAX)
  }

  predicate PoolSuffices(s: System, devices: set<MenuId>, w: WorkerId)
    requires w in s.workers && w in s.plans
  {
    Fits(ToCover(s.plans[w], devices), s.workers[w].held, s.owners.Keys)
  }

  /** Going through a menu that someone holds takes up no connection for good. */
  lemma FitsAfterTaken(left: set<MenuId>, held: set<MenuId>, taken: set<MenuId>, m: MenuId)
    requires m in left && m in taken && held <= taken && (m in held || |held| < POOL_MAX)
    ensures Fits(left - {m}, held, taken) <==> Fits(left, held, taken)
  {
    assert left - {m} - taken == left - taken;
    if left - {m} <= held {
      assert left - taken == {};
    }
  }

  /** One that nobody holds takes up a connection, which must not be the last while others' are left to ask for. */
  lemma FitsAfterFree(left: set<MenuId>, held: set<MenuId>, taken: set<MenuId>, m: MenuId)
    requires m in left && m !in taken && held <= taken && |held| < POOL_MAX
    ensures Fits(left - {m}, held + {m}, taken + {m}) ==> Fits(left, held, taken)
    ensures left !! taken && Fits(left, held, taken) ==> Fits(left - {m}, held + {m}, taken + {m})
  {
    var free, free' := left - taken, left - {m} - (taken + {m});
    assert free' == free - {m} && m in free;
    if free' == {} && left !! taken {
      assert left - {m} == {};
    }
  }

  /** One menu covered: what happens to the sets `Fits` is about. */
  lemma CoverSets(s: System, devices: set<MenuId>, w: WorkerId, m: MenuId, outcome: RelayState)
    requires Enabled(s, devices, Cover(w, m, outcome)) && m in devices
    requires Coherent(s.workers[w], s.owners, w)
    ensures var t := Apply(s, devices, Cover(w, m, outcome));
      && t.plans[w] == Covering(s.plans[w].left - {m})
      && t.owners.Keys == s.owners.Keys + {m}
      && t.workers[w].held == if m in s.owners then s.workers[w].held else s.workers[w].held + {m}
  {
    AcquiredKeeps(s.workers[w], s.owners, w, m, outcome);
  }

  lemma CoverFits(s: System, devices: set<MenuId>, w: WorkerId, m: MenuId, outcome: RelayState)
    requires Enabled(s, devices, Cover(w, m, outcome)) && m in devices
    requires Coherent(s.workers[w], s.owners, w)
    ensures PoolSuffices(Apply(s, devices, Cover(w, m, outcome)), devices, w) ==> PoolSuffices(s, devices, w)
    ensures (m in s.owners || s.plans[w].left !! s.owners.Keys) && PoolSuffices(s, devices, w) ==>
      PoolSuffices(Apply(s, devices, Cover(w, m, outcome)), devices, w)
  {
    var left, held, taken := s.plans[w].left, s.workers[w].held, s.owners.Keys;
    CoverSets(s, devices, w, m, outcome);
    assert held <= taken;
    if m in taken {
      FitsAfterTaken(left, held, taken, m);
      assert taken + {m} == taken;
    } else {
      FitsAfterFree(left, held, taken, m);
    }
  }

  /** The other steps of a reconcile leave the menus to cover as they are, or have covered them all. */
  lemma OtherOwnSteps(s: System, devices: set<MenuId>, w: WorkerId, step: Step)
    requires Enabled(s, devices, step) && OwnReconcile(step, w) && !step.Cover?
    ensures var t := Apply(s, devices, step);
      || (t.workers == s.workers && t.owners == s.owners && ToCover(t.plans[w], devices) == ToCover(s.plans[w], devices))
      || ToCover(s.plans[w], devices) == ToCover(t.plans[w], devices) == {}
  {
  }

  lemma OwnStepFits(s: System, devices: set<MenuId>, w: WorkerId, step: Step)
    requires Enabled(s, devices, step) && OwnReconcile(step, w)
    requires Coherent(s.workers[w], s.owners, w) && PlanKept(s, devices, w)
    ensures PoolSuffices(Apply(s, devices, step), devices, w) ==> PoolSuffices(s, devices, w)
    ensures PoolSuffices(s, devices, w) && (step.Cover? ==> step.m in s.owners || s.plans[w].left !! s.owners.Keys) ==>
      PoolSuffices(Apply(s, devices, step), devices, w)
  {
    if step.Cover? {
      CoverFits(s, devices, w, step.m, step.outcome);
    } else {
      OtherOwnSteps(s, devices, w, step);
    }
  }

  /** The step to take next: the menus someone holds come first, so that the pool is not filled before they are asked for. */
  lemma NextStep(s: System, devices: set<MenuId>, w: WorkerId) returns (step: Step)
    requires w in s.workers && w in s.plans && s.plans[w] != Completed && PoolSuffices(s, devices, w)
    ensures Enabled(s, devices, step) && OwnReconcile(step, w)
    ensures step.Cover? ==> step.m in s.owners || s.plans[w].left !! s.owners.Keys
  {
    var plan := s.plans[w];
    if plan.NotStarted? {
      step := Begin(w);
    } else if Left(plan) == {} {
      step := if plan.Covering? then StartPruning(w) else Complete(w);
    } else if plan.Pruning? {
      var m :| m in plan.left;
      step := Prune(w, m);
    } else {
      var m := NextMenu(plan.left, s.owners.Keys);
      step := Cover(w, m, Joined);
    }
  }

  /** Each step of a reconcile brings its end nearer. */
  lemma OwnStepProgress(s: System, devices: set<MenuId>, w: WorkerId, step: Step)
    requires Enabled(s, devices, step) && OwnReconcile(step, w)
    ensures var p, q := s.plans[w], Apply(s, devices, step).plans[w];
      Stage(q) < Stage(p) || (Stage(q) == Stage(p) && |Left(q)| < |Left(p)|)
  {
    if step.Cover? || step.Prune? {
      var left := s.plans[w].left;
      ProperSubsetSmaller(left - {step.m}, left, step.m);
    }
  }

  lemma NextMenu(left: set<MenuId>, taken: set<MenuId>) returns (m: MenuId)
    requires left != {}
    ensures m in left && (m in taken || left !! taken)
  {
    if left !! taken {
      m :| m in left;
    } else {
      m :| m in left && m in taken;
    }
  }

  /** The worker's own reconcile, with nothing else running, comes to its end. */
  ghost predicate Completes(s: System, devices: set<MenuId>, w: WorkerId, steps: seq<Step>, t: System)
  {
    && Run(s, devices, steps, t) && w in t.plans && t.plans[w] == Completed
    && forall i :: 0 <= i < |steps| ==> OwnReconcile(steps[i], w)
  }

  lemma {:induction false} CanComplete(s: System, devices: set<MenuId>, w: WorkerId) returns (steps: seq<Step>, t: System)
    requires Inv(s, devices) && w in s.workers && PoolSuffices(s, devices, w)
    ensures Completes(s, devices, w, steps, t)
    decreases Stage(s.plans[w]), |Left(s.plans[w])|
  {
    if s.plans[w] == Completed {
      return [], s;
    }
    var step := NextStep(s, devices, w);
    StepKeeps(s, devices, step);
    assert PlanKept(s, devices, w) && Coherent(s.workers[w], s.owners, w);
    OwnStepFits(s, devices, w, step);
    OwnStepProgress(s, devices, w, step);
    var rest;
    rest, t := CanComplete(Apply(s, devices, step), devices, w);
    CompletesCons(s, devices, w, step, rest, t);
    steps := [step] + rest;
  }

  lemma CompletesCons(s: System, devices: set<MenuId>, w: WorkerId, step: Step, rest: seq<Step>, t: System)
    requires Enabled(s, devices, step) && OwnReconcile(step, w) && Completes(Apply(s, devices, step), devices, w, rest, t)
    ensures Completes(s, devices, w, [step] + rest, t)
  {
    var steps := [step] + rest;
    assert steps[0] == step && steps[1..] == rest;
  }

  lemma {:induction false} CompletingNeedsPool(s: System, devices: set<MenuId>, w: WorkerId, steps: seq<Step>, t: System)
    requires Inv(s, devices) && w in s.workers && Completes(s, devices, w, steps, t)
    ensures PoolSuffices(s, devices, w)
    decreases |steps|
  {
    if steps != [] {
      var next := Apply(s, devices, steps[0]);
      StepKeeps(s, devices, steps[0]);
      assert forall i :: 0 <= i < |steps| - 1 ==> steps[1..][i] == steps[i + 1];
      CompletingNeedsPool(next, devices, w, steps[1..], t);
      assert PlanKept(s, devices, w) && Coherent(s.workers[w], s.owners, w);
      OwnStepFits(s, devices, w, steps[0]);
    }
  }

  /** From wherever a run has come to, some order of the menus brings a worker's own reconcile to its end exactly when its pool suffices. */
  lemma CompletesExactly(s0: System, devices: set<MenuId>, before: seq<Step>, s: System, w: WorkerId)
    requires Init(s0) && Run(s0, devices, before, s) && w in s.workers && w in s.plans
    ensures (exists steps, t :: Completes(s, devices, w, steps, t)) <==> PoolSuffices(s, devices, w)
  {
    RunKeeps(s0, devices, before, s);
    if PoolSuffices(s, devices, w) {
      var steps, t := CanComplete(s, devices, w);
    } else {
      forall steps, t ensures !Completes(s, devices, w, steps, t) {
        if Completes(s, devices, w, steps, t) {
          CompletingNeedsPool(s, devices, w, steps, t);
        }
      }
    }
  }

  /** With every connection holding a menu, none of those left to cover, the reconcile cannot take another step. */
  lemma FullPoolStops(s: System, devices: set<MenuId>, w: WorkerId, step: Step)
    requires w in s.workers && w in s.plans && s.plans[w].Covering?
    requires s.plans[w].left != {} && s.plans[w].left !! s.workers[w].held && |s.workers[w].held| >= POOL_MAX
    requires OwnReconcile(step, w)
    ensures !Enabled(s, devices, step)
  {
  }

  // ----------------------------------------------- in whatever order the menus come

  /** As `Fits`, with a connection to spare for asking as long as another worker's menu is left to ask for. */
  predicate FitsAlways(left: set<MenuId>, held: set<MenuId>, taken: set<MenuId>)
  {
    left <= held || |held| + |left - taken| + (if left * taken <= held then 0 else 1) <= POOL_MAX
  }

  predicate PoolAlwaysSuffices(s: System, devices: set<MenuId>, w: WorkerId)
    requires w in s.workers && w in s.plans
  {
    FitsAlways(ToCover(s.plans[w], devices), s.workers[w].held, s.owners.Keys)
  }

  /** With room to spare, any menu left can be gone through next ... */
  lemma FitsAnyNext(left: set<MenuId>, held: set<MenuId>, taken: set<MenuId>, m: MenuId)
    requires FitsAlways(left, held, taken) && m in left && held <= taken
    ensures m in held || |held| < POOL_MAX
  {
    if m !in held && m !in taken {
      assert m in left - taken;
    }
  }

  /** ... and there is room to spare afterwards. */
  lemma FitsAlwaysAfter(left: set<MenuId>, held: set<MenuId>, taken: set<MenuId>, m: MenuId)
    requires FitsAlways(left, held, taken) && m in left && held <= taken
    ensures m in taken ==> FitsAlways(left - {m}, held, taken)
    ensures m !in taken ==> FitsAlways(left - {m}, held + {m}, taken + {m})
  {
    var rest := left - {m};
    if m in taken {
      assert rest - taken == left - taken;
      assert left * taken <= held ==> rest * taken <= held;
    } else {
      assert rest - (taken + {m}) == left - taken - {m} && m in left - taken;
      assert left * taken <= held ==> rest * (taken + {m}) <= held + {m};
    }
  }

  /** Without it, some menu left can be gone through next and leave no room to spare, until the pool is full. */
  lemma FillsUp(left: set<MenuId>, held: set<MenuId>, taken: set<MenuId>, m: MenuId)
    requires !FitsAlways(left, held, taken) && m in left - taken && held <= taken && |held| < POOL_MAX
    ensures !FitsAlways(left - {m}, held + {m}, taken + {m})
  {
    var rest, free := left - {m}, left - taken;
    assert rest - (taken + {m}) == free - {m};
    assert rest * (taken + {m}) <= held + {m} ==> left * taken <= held;
    assert rest <= held + {m} ==> free == {m} && left * taken <= held;
  }

  lemma FreeMenuLeft(left: set<MenuId>, held: set<MenuId>, taken: set<MenuId>)
    requires !FitsAlways(left, held, taken) && |held| < POOL_MAX
    ensures left - taken != {}
  {
  }

  /** A run of the worker's own reconcile, nothing else running. */
  ghost predicate OwnRun(s: System, devices: set<MenuId>, w: WorkerId, steps: seq<Step>, t: System)
  {
    Run(s, devices, steps, t) && forall i :: 0 <= i < |steps| ==> OwnReconcile(steps[i], w)
  }

  lemma OwnRunCons(s: System, devices: set<MenuId>, w: WorkerId, step: Step, rest: seq<Step>, t: System)
    requires Enabled(s, devices, step) && OwnReconcile(step, w) && OwnRun(Apply(s, devices, step), devices, w, rest, t)
    ensures OwnRun(s, devices, w, [step] + rest, t)
  {
    var steps := [step] + rest;
    assert steps[0] == step && steps[1..] == rest;
  }

  /** The worker has not come to the end, and no step of its reconcile can be taken. */
  ghost predicate Stuck(s: System, devices: set<MenuId>, w: WorkerId)
    requires w in s.plans
  {
    s.plans[w] != Completed && forall step :: OwnReconcile(step, w) ==> !Enabled(s, devices, step)
  }

  lemma CoverFitsAlways(s: System, devices: set<MenuId>, w: WorkerId, m: MenuId, outcome: RelayState)
    requires Enabled(s, devices, Cover(w, m, outcome)) && m in devices
    requires Coherent(s.workers[w], s.owners, w) && PoolAlwaysSuffices(s, devices, w)
    ensures PoolAlwaysSuffices(Apply(s, devices, Cover(w, m, outcome)), devices, w)
  {
    var left, held, taken := s.plans[w].left, s.workers[w].held, s.owners.Keys;
    CoverSets(s, devices, w, m, outcome);
    assert held <= taken;
    FitsAlwaysAfter(left, held, taken, m);
    assert m in taken ==> taken + {m} == taken;
  }

  lemma OwnStepFitsAlways(s: System, devices: set<MenuId>, w: WorkerId, step: Step)
    requires Enabled(s, devices, step) && OwnReconcile(step, w)
    requires Coherent(s.workers[w], s.owners, w) && PlanKept(s, devices, w) && PoolAlwaysSuffices(s, devices, w)
    ensures PoolAlwaysSuffices(Apply(s, devices, step), devices, w)
  {
    if step.Cover? {
      CoverFitsAlways(s, devices, w, step.m, step.outcome);
    } else {
      OtherOwnSteps(s, devices, w, step);
    }
  }

  lemma {:induction false} OwnRunFitsAlways(s: System, devices: set<MenuId>, w: WorkerId, steps: seq<Step>, t: System)
    requires Inv(s, devices) && w in s.workers && OwnRun(s, devices, w, steps, t) && PoolAlwaysSuffices(s, devices, w)
    ensures Inv(t, devices) && w in t.workers && PoolAlwaysSuffices(t, devices, w)
    decreases |steps|
  {
    if steps != [] {
      var next := Apply(s, devices, steps[0]);
      StepKeeps(s, devices, steps[0]);
      assert PlanKept(s, devices, w) && Coherent(s.workers[w], s.owners, w);
      OwnStepFitsAlways(s, devices, w, steps[0]);
      assert forall i :: 0 <= i < |steps| - 1 ==> steps[1..][i] == steps[i + 1];
      OwnRunFitsAlways(next, devices, w, steps[1..], t);
    }
  }

  /** With room to spare the worker is not stuck, and if it is covering, whichever menu comes next can be covered. */
  lemma NeverBlocked(s: System, devices: set<MenuId>, w: WorkerId)
    requires w in s.workers && w in s.plans && Coherent(s.workers[w], s.owners, w) && PoolAlwaysSuffices(s, devices, w)
    ensures !Stuck(s, devices, w)
    ensures s.plans[w].Covering? ==> forall m :: m in s.plans[w].left ==> PoolAdmits(s.workers[w], m)
  {
    var plan, held, taken := s.plans[w], s.workers[w].held, s.owners.Keys;
    assert held <= taken;
    if plan.Covering? {
      forall m | m in plan.left ensures PoolAdmits(s.workers[w], m) {
        FitsAnyNext(plan.left, held, taken, m);
      }
    }
    if plan != Completed {
      var step := AnyStep(s, devices, w);
    }
  }

  lemma AnyStep(s: System, devices: set<MenuId>, w: WorkerId) returns (step: Step)
    requires w in s.workers && w in s.plans && s.plans[w] != Completed
    requires s.plans[w].Covering? ==> forall m :: m in s.plans[w].left ==> PoolAdmits(s.workers[w], m)
    ensures OwnReconcile(step, w) && Enabled(s, devices, step)
  {
    var plan := s.plans[w];
    if plan.NotStarted? {
      step := Begin(w);
    } else if Left(plan) == {} {
      step := if plan.Covering? then StartPruning(w) else Complete(w);
    } else {
      var m :| m in plan.left;
      step := if plan.Covering? then Cover(w, m, Joined) else Prune(w, m);
    }
  }

  /** The order that gets stuck: free menus first while the pool lasts, then those it holds. */
  lemma WorstMenu(left: set<MenuId>, held: set<MenuId>, taken: set<MenuId>) returns (m: MenuId)
    requires !FitsAlways(left, held, taken) && held <= taken && (|held| < POOL_MAX || left * held != {})
    ensures m in left && if |held| < POOL_MAX then m !in taken else m in held
  {
    if |held| < POOL_MAX {
      FreeMenuLeft(left, held, taken);
      m :| m in left - taken;
    } else {
      m :| m in left * held;
    }
  }

  /** A full pool stays too small when a menu it holds is gone through again. */
  lemma StaysFull(left: set<MenuId>, held: set<MenuId>, taken: set<MenuId>, m: MenuId)
    requires !FitsAlways(left, held, taken) && m in left && m in held && held <= taken && |held| >= POOL_MAX
    ensures !FitsAlways(left - {m}, held, taken)
  {
    var x :| x in left && x !in held;
    assert x in left - {m};
    if x in taken {
      assert x in (left - {m}) * taken;
    } else {
      assert x in left - {m} - taken;
    }
  }

  lemma WorstStep(s: System, devices: set<MenuId>, w: WorkerId, m: MenuId)
    requires Inv(s, devices) && w in s.workers && s.plans[w].Covering? && !PoolAlwaysSuffices(s, devices, w)
    requires m in s.plans[w].left
    requires if |s.workers[w].held| < POOL_MAX then m !in s.owners else m in s.workers[w].held
    ensures Enabled(s, devices, Cover(w, m, Joined)) && m in devices
    ensures var t := Apply(s, devices, Cover(w, m, Joined));
      t.plans[w] == Covering(s.plans[w].left - {m}) && !PoolAlwaysSuffices(t, devices, w)
  {
    var left, held, taken := s.plans[w].left, s.workers[w].held, s.owners.Keys;
    assert PlanKept(s, devices, w) && Coherent(s.workers[w], s.owners, w);
    assert held <= taken;
    CoverSets(s, devices, w, m, Joined);
    if |held| < POOL_MAX {
      FillsUp(left, held, taken, m);
    } else {
      StaysFull(left, held, taken, m);
      assert taken + {m} == taken;
    }
  }

  lemma NothingFits(s: System, devices: set<MenuId>, w: WorkerId)
    requires w in s.workers && w in s.plans && s.plans[w].Covering? && !PoolAlwaysSuffices(s, devices, w)
    requires |s.workers[w].held| >= POOL_MAX && s.plans[w].left * s.workers[w].held == {}
    ensures Stuck(s, devices, w)
  {
    var left, held := s.plans[w].left, s.workers[w].held;
    assert left != {};
    forall m | m in left ensures m !in held {
      assert m !in left * held;
    }
    assert left !! held;
    forall step | OwnReconcile(step, w) ensures !Enabled(s, devices, step) {
      FullPoolStops(s, devices, w, step);
    }
  }

  lemma {:induction false} GetsStuck(s: System, devices: set<MenuId>, w: WorkerId) returns (steps: seq<Step>, t: System)
    requires Inv(s, devices) && w in s.workers && s.plans[w].Covering? && !PoolAlwaysSuffices(s, devices, w)
    ensures OwnRun(s, devices, w, steps, t) && w in t.plans && Stuck(t, devices, w)
    decreases |s.plans[w].left|
  {
    var left, held, taken := s.plans[w].left, s.workers[w].held, s.owners.Keys;
    assert Coherent(s.workers[w], s.owners, w) && held <= taken;
    if |held| >= POOL_MAX && left * held == {} {
      NothingFits(s, devices, w);
      return [], s;
    }
    var m := WorstMenu(left, held, taken);
    WorstStep(s, devices, w, m);
    var step := Cover(w, m, Joined);
    StepKeeps(s, devices, step);
    ProperSubsetSmaller(left - {m}, left, m);
    var rest;
    rest, t := GetsStuck(Apply(s, devices, step), devices, w);
    OwnRunCons(s, devices, w, step, rest, t);
    steps := [step] + rest;
  }

  lemma GetsStuckFrom(s: System, devices: set<MenuId>, w: WorkerId) returns (steps: seq<Step>, t: System)
    requires Inv(s, devices) && w in s.workers && !PoolAlwaysSuffices(s, devices, w)
    ensures OwnRun(s, devices, w, steps, t) && w in t.plans && Stuck(t, devices, w)
  {
    if s.plans[w].NotStarted? {
      StepKeeps(s, devices, Begin(w));
      var rest;
      rest, t := GetsStuck(Apply(s, devices, Begin(w)), devices, w);
      OwnRunCons(s, devices, w, Begin(w), rest, t);
      steps := [Begin(w)] + rest;
    } else {
      steps, t := GetsStuck(s, devices, w);
    }
  }

  /** No run of the worker's own reconcile gets stuck. */
  ghost predicate NeverStuck(s: System, devices: set<MenuId>, w: WorkerId)
  {
    forall steps, t :: OwnRun(s, devices, w, steps, t) && w in t.plans ==> !Stuck(t, devices, w)
  }

  /**
   From wherever a run has come to, a worker's own reconcile cannot get stuck, in whatever order the
   device table lists its menus, exactly when its pool always suffices; whichever menu comes next can
   then be covered.  Each step brings the end nearer (`OwnStepProgress`), so it comes to its end.
   */
  lemma CompletesInAnyOrder(s0: System, devices: set<MenuId>, before: seq<Step>, s: System, w: WorkerId)
    requires Init(s0) && Run(s0, devices, before, s) && w in s.workers && w in s.plans
    ensures NeverStuck(s, devices, w) <==> PoolAlwaysSuffices(s, devices, w)
    ensures PoolAlwaysSuffices(s, devices, w) ==>
      forall steps, t, m ::
        OwnRun(s, devices, w, steps, t) && w in t.workers && w in t.plans && t.plans[w].Covering? && m in t.plans[w].left ==>
          PoolAdmits(t.workers[w], m)
    ensures PoolAlwaysSuffices(s, devices, w) ==> PoolSuffices(s, devices, w)
  {
    RunKeeps(s0, devices, before, s);
    if PoolAlwaysSuffices(s, devices, w) {
      forall steps, t | OwnRun(s, devices, w, steps, t) && w in t.plans
        ensures !Stuck(t, devices, w)
        ensures w in t.workers && (t.plans[w].Covering? ==> forall m :: m in t.plans[w].left ==> PoolAdmits(t.workers[w], m))
      {
        OwnRunFitsAlways(s, devices, w, steps, t);
        assert Coherent(t.workers[w], t.owners, w);
        NeverBlocked(t, devices, w);
      }
      FitsAlwaysFits(ToCover(s.plans[w], devices), s.workers[w].held, s.owners.Keys);
    } else {
      var steps, t := GetsStuckFrom(s, devices, w);
      assert OwnRun(s, devices, w, steps, t) && Stuck(t, devices, w);
    }
  }

  lemma FitsAlwaysFits(left: set<MenuId>, held: set<MenuId>, taken: set<MenuId>)
    requires FitsAlways(left, held, taken)
    ensures Fits(left, held, taken)
  {
    if !(left <= held) {
      var x :| x in left && x !in held;
      if x in taken {
        assert x in left * taken;
      } else {
        assert x in left - taken;
      }
    }
  }
}
