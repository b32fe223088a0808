/**
 Per-menu Postgres advisory locks (`MenuSocketLockService`).

 The class below is one worker's service, cut at its awaits: every method is one
 stretch of code that runs without interruption.  `Fleet` puts any number of such
 services beside one lock table, and a run interleaves their stretches with the
 database's own steps.
 */
module AdvisoryLocks {
  import opened Numbers
  import opened Wrappers

  type MenuId = nat
  type WorkerId = nat
  type TaskId = nat
  /** A pooled connection; each has one database session. */
  type Client = nat

  const POOL_MAX: nat := 10
  const TWO_32: int := 0x1_0000_0000
  const TWO_31: int := 0x8000_0000
  const NAMESPACE: nat := 0x46334d00

  // ---------------------------------------------------------------- lock keys

  lemma Pow2Of32()
    ensures Pow2(32) == TWO_32
  {
    assert Pow2(8) == 0x100;
    assert Pow2(16) == 0x1_0000;
    assert Pow2(24) == 0x100_0000;
  }

  /** Exclusive or on the lowest `width` bits. */
  function Xor(width: nat, a: nat, b: nat): (x: nat)
    ensures x < Pow2(width)
  {
    if width == 0 then 0
    else 2 * Xor(width - 1, a / 2, b / 2) + (if a % 2 == b % 2 then 0 else 1)
  }

  /** JavaScript's `x | 0` on a 32-bit pattern. */
  function ToInt32(u: nat): (x: int)
  {
    if u < TWO_31 then u else u - TWO_32
  }

  /** The namespace constant, exclusive-or the menu id as an unsigned 32-bit pattern, read as signed. */
  function LockKey(menuId: int): (key: int)
  {
    ToInt32(Xor(32, NAMESPACE, menuId % TWO_32))
  }

  lemma {:induction false} XorInjective(width: nat, c: nat, a: nat, b: nat)
    requires a < Pow2(width) && b < Pow2(width)
    requires Xor(width, c, a) == Xor(width, c, b)
    ensures a == b
  {
    if width > 0 {
      XorInjective(width - 1, c / 2, a / 2, b / 2);
    }
  }

  /** Two menus share a lock exactly when their ids agree in 32 bits. */
  lemma LockKeyEqual(a: int, b: int)
    ensures LockKey(a) == LockKey(b) <==> a % TWO_32 == b % TWO_32
  {
    Pow2Of32();
    if LockKey(a) == LockKey(b) {
      XorInjective(32, NAMESPACE, a % TWO_32, b % TWO_32);
    }
  }

  /** Database ids are positive 32-bit integers, so no two menus ever contend. */
  lemma LockKeyInjectiveOnIds(a: int, b: int)
    requires -TWO_31 <= a < TWO_31 && -TWO_31 <= b < TWO_31
    ensures LockKey(a) == LockKey(b) <==> a == b
  {
    LockKeyEqual(a, b);
    WrapOfId(a);
    WrapOfId(b);
  }

  lemma WrapOfId(a: int)
    requires -TWO_31 <= a < TWO_31
    ensures a % TWO_32 == if a >= 0 then a else a + TWO_32
  {
  }

  // ------------------------------------------------------- one worker's state

  datatype Service = Service(held: map<MenuId, Client>, idle: set<Client>, out: set<Client>)

  /** What a lock query comes back with; `Failed` is a rejected promise. */
  datatype Reply = Granted | Refused | Failed

  /** `pool.connect()` resolving with client `c`. */
  function Connected(s: Service, c: Client): Service
  {
    s.(idle := s.idle - {c}, out := s.out + {c})
  }

  /** `client.release()`. */
  function Returned(s: Service, c: Client): Service
  {
    s.(idle := s.idle + {c}, out := s.out - {c})
  }

  /** `tryAcquire` after its lock query: keep the client when granted, else return it. */
  function AfterLockQuery(s: Service, m: MenuId, c: Client, reply: Reply): Service
  {
    if reply == Granted then s.(held := s.held[m := c]) else Returned(s, c)
  }

  /** `release` up to its unlock query. */
  function Dropped(s: Service, m: MenuId): Service
  {
    s.(held := s.held - {m})
  }

  /** One worker's lock service, as its uninterrupted stretches of code. */
  class MenuSocketLockService {
    const hasDatabase: bool
    var held: map<MenuId, Client>
    var idle: set<Client>
    var out: set<Client>

    function State(): Service
      reads this
    {
      Service(held, idle, out)
    }

    constructor (hasDatabase: bool)
      ensures this.hasDatabase == hasDatabase && State() == Service(map[], {}, {})
    {
      this.hasDatabase := hasDatabase;
      held, idle, out := map[], {}, {};
    }

    /** `tryAcquire` up to `await pool.connect()`: an answer, or None to go on waiting. */
    method TryAcquireStart(m: MenuId) returns (answer: Option<bool>)
      ensures answer == if m in held || !hasDatabase then Some(true) else None
    {
      if m in held {
        return Some(true);
      }
      if !hasDatabase {
        return Some(true);
      }
      return None;
    }

    method ConnectResolved(c: Client)
      modifies this
      ensures State() == Connected(old(State()), c)
    {
      idle, out := idle - {c}, out + {c};
    }

    method ReturnClient(c: Client)
      modifies this
      ensures State() == Returned(old(State()), c)
    {
      idle, out := idle + {c}, out - {c};
    }

    method TryAcquireFinish(m: MenuId, c: Client, reply: Reply) returns (locked: bool)
      modifies this
      ensures State() == AfterLockQuery(old(State()), m, c, reply)
      ensures locked == (reply == Granted)
    {
      if reply == Failed {
        ReturnClient(c);
        return false;
      }
      locked := reply == Granted;
      if !locked {
        ReturnClient(c);
        return;
      }
      held := held[m := c];
    }

    method ReleaseStart(m: MenuId) returns (client: Option<Client>)
      modifies this
      ensures State() == Dropped(old(State()), m)
      ensures client == if m in old(held) then Some(old(held)[m]) else None
    {
      if m !in held {
        return None;
      }
      client := Some(held[m]);
      held := held - {m};
    }

    /** `releaseAll` with nothing else running: every held client is returned, none twice. */
    method ReleaseAll()
      modifies this
      requires held.Values <= out
      ensures held == map[]
      ensures out == old(out) - old(held).Values && idle == old(idle) + old(held).Values
    {
      var menuIds := held.Keys;
      while menuIds != {}
        invariant menuIds == held.Keys <= old(held).Keys
        invariant forall m :: m in held ==> held[m] == old(held)[m]
        invariant forall m :: m in old(held) && m !in held ==> old(held)[m] in idle && old(held)[m] !in out
        invariant old(idle) <= idle <= old(idle) + old(held).Values
        invariant old(out) - old(held).Values <= out <= old(out)
        decreases |menuIds|
      {
        assert exists m :: m in menuIds;
        var m :| m in menuIds;
        assert old(held)[m] in old(held).Values;
        var client := ReleaseStart(m);
        ReturnClient(client.value);
        menuIds := menuIds - {m};
      }
      forall c | c in old(held).Values
        ensures c in idle && c !in out
      {
        var m :| m in old(held) && old(held)[m] == c;
      }
    }
  }

  // ------------------------------------------------------------ the lock table

  /** A session advisory lock: its owner's session may take it several times. */
  datatype Grant = Grant(owner: Client, count: nat)

  type LockTable = map<int, Grant>

  function TryLock(locks: LockTable, key: int, c: Client): (LockTable, Reply)
  {
    if key !in locks then (locks[key := Grant(c, 1)], Granted)
    else if locks[key].owner == c then (locks[key := Grant(c, locks[key].count + 1)], Granted)
    else (locks, Refused)
  }

  function Unlock(locks: LockTable, key: int, c: Client): LockTable
  {
    if key !in locks || locks[key].owner != c then locks
    else if locks[key].count <= 1 then locks - {key}
    else locks[key := Grant(c, locks[key].count - 1)]
  }

  function SessionGone(locks: LockTable, c: Client): LockTable
  {
    map k | k in locks && locks[k].owner != c :: locks[k]
  }

  // --------------------------------------------------------- the whole fleet

  /** Where an unfinished `tryAcquire` or `release` is waiting. */
  datatype Phase =
    | Connecting
    | Locking(c: Client)
    | Answered(c: Client, reply: Reply)
    | Unlocking(c: Client)
    | Unlocked(c: Client)

  datatype Task = Task(worker: WorkerId, menu: MenuId, phase: Phase)

  datatype Fleet = Fleet(
    services: map<WorkerId, Service>,
    tasks: map<TaskId, Task>,
    locks: LockTable,
    used: set<Client>,
    dead: set<Client>)

  datatype Step =
    | CallTryAcquire(t: TaskId, w: WorkerId, m: MenuId)
    | ConnectOk(t: TaskId, c: Client)
    | ConnectFails(t: TaskId)
    | LockRuns(t: TaskId)
    | LockFails(t: TaskId, applied: bool)
    | TryAcquireResumes(t: TaskId)
    | CallRelease(t: TaskId, w: WorkerId, m: MenuId)
    | UnlockRuns(t: TaskId, applied: bool)
    | ReleaseResumes(t: TaskId)
    | SessionEnds(c: Client)
    | PoolEvicts(w: WorkerId, c: Client)

  predicate Waiting(f: Fleet, t: TaskId)
  {
    t in f.tasks && f.tasks[t].worker in f.services
  }

  /** Where a checked-out client can be: under a menu in a `held` map, or in an unfinished call. */
  datatype Place = MenuSlot(w: WorkerId, m: MenuId) | TaskSlot(w: WorkerId, t: TaskId)

  predicate JustGranted(p: Phase)
  {
    p.Answered? && p.reply == Granted
  }

  /** The client checked out at place `p`. */
  function ClientAt(f: Fleet, p: Place): Option<Client>
  {
    match p
    case MenuSlot(w, m) =>
      if w in f.services && m in f.services[w].held then Some(f.services[w].held[m]) else None
    case TaskSlot(w, t) =>
      if t in f.tasks && f.tasks[t].worker == w && !f.tasks[t].phase.Connecting?
      then Some(f.tasks[t].phase.c) else None
  }

  /** The menu whose lock the client at `p` counts on, because it is held or has just been granted. */
  function LockAt(f: Fleet, p: Place): Option<MenuId>
  {
    match p
    case MenuSlot(w, m) => if w in f.services && m in f.services[w].held then Some(m) else None
    case TaskSlot(w, t) =>
      if t in f.tasks && f.tasks[t].worker == w && JustGranted(f.tasks[t].phase)
      then Some(f.tasks[t].menu) else None
  }

  /** A session may end unless its client is held or has just been granted a lock. */
  ghost predicate CountsOnLock(f: Fleet, c: Client)
  {
    exists p :: ClientAt(f, p) == Some(c) && LockAt(f, p).Some?
  }

  /** `pool.connect()` hands over an idle client, or opens a new one below the pool's maximum. */
  predicate CanConnect(f: Fleet, s: Service, c: Client)
  {
    c in s.idle || (c !in f.used && |s.idle| + |s.out| < POOL_MAX)
  }

  ghost predicate Enabled(f: Fleet, step: Step)
  {
    match step
    case CallTryAcquire(t, w, m) => t !in f.tasks && w in f.services
    case ConnectOk(t, c) =>
      Waiting(f, t) && f.tasks[t].phase == Connecting && CanConnect(f, f.services[f.tasks[t].worker], c)
    case ConnectFails(t) => Waiting(f, t) && f.tasks[t].phase == Connecting
    case LockRuns(t) => Waiting(f, t) && f.tasks[t].phase.Locking? && f.tasks[t].phase.c !in f.dead
    case LockFails(t, applied) =>
      Waiting(f, t) && f.tasks[t].phase.Locking? && (applied ==> f.tasks[t].phase.c !in f.dead)
    case TryAcquireResumes(t) => Waiting(f, t) && f.tasks[t].phase.Answered?
    case CallRelease(t, w, m) => t !in f.tasks && w in f.services
    case UnlockRuns(t, applied) => Waiting(f, t) && f.tasks[t].phase.Unlocking?
    case ReleaseResumes(t) => Waiting(f, t) && f.tasks[t].phase.Unlocked?
    case SessionEnds(c) => !CountsOnLock(f, c)
    case PoolEvicts(w, c) => w in f.services && c in f.services[w].idle
  }

  function SetPhase(f: Fleet, t: TaskId, p: Phase): Fleet
    requires t in f.tasks
  {
    f.(tasks := f.tasks[t := f.tasks[t].(phase := p)])
  }

  function SetService(f: Fleet, w: WorkerId, s: Service): Fleet
  {
    f.(services := f.services[w := s])
  }

  function EndTask(f: Fleet, t: TaskId): Fleet
  {
    f.(tasks := f.tasks - {t})
  }

  ghost function Apply(f: Fleet, step: Step): Fleet
    requires Enabled(f, step)
  {
    match step
    case CallTryAcquire(t, w, m) =>
      if m in f.services[w].held then f else f.(tasks := f.tasks[t := Task(w, m, Connecting)])
    case ConnectOk(t, c) =>
      var w := f.tasks[t].worker;
      SetPhase(SetService(f, w, Connected(f.services[w], c)), t, Locking(c)).(used := f.used + {c})
    case ConnectFails(t) => EndTask(f, t)
    case LockRuns(t) =>
      var c := f.tasks[t].phase.c;
      var (locks, reply) := TryLock(f.locks, LockKey(f.tasks[t].menu), c);
      SetPhase(f, t, Answered(c, reply)).(locks := locks)
    case LockFails(t, applied) =>
      var c := f.tasks[t].phase.c;
      SetPhase(f, t, Answered(c, Failed)).(
        locks := if applied then TryLock(f.locks, LockKey(f.tasks[t].menu), c).0 else f.locks)
    case TryAcquireResumes(t) =>
      var Task(w, m, p) := f.tasks[t];
      EndTask(SetService(f, w, AfterLockQuery(f.services[w], m, p.c, p.reply)), t)
    case CallRelease(t, w, m) =>
      var s := f.services[w];
      if m !in s.held then f
      else SetService(f, w, Dropped(s, m)).(tasks := f.tasks[t := Task(w, m, Unlocking(s.held[m]))])
    case UnlockRuns(t, applied) =>
      var c := f.tasks[t].phase.c;
      SetPhase(f, t, Unlocked(c)).(
        locks := if applied then Unlock(f.locks, LockKey(f.tasks[t].menu), c) else f.locks)
    case ReleaseResumes(t) =>
      var Task(w, _, p) := f.tasks[t];
      EndTask(SetService(f, w, Returned(f.services[w], p.c)), t)
    case SessionEnds(c) => f.(locks := SessionGone(f.locks, c), dead := f.dead + {c})
    case PoolEvicts(w, c) => SetService(f, w, f.services[w].(idle := f.services[w].idle - {c}))
  }

  ghost predicate Run(f: Fleet, steps: seq<Step>, g: Fleet)
    decreases |steps|
  {
    if steps == [] then f == g
    else Enabled(f, steps[0]) && Run(Apply(f, steps[0]), steps[1..], g)
  }

  /** Workers start with an empty pool; the lock table is empty. */
  ghost predicate Init(f: Fleet)
  {
    && (forall w :: w in f.services ==> f.services[w] == Service(map[], {}, {}))
    && f.tasks == map[] && f.locks == map[]
  }

  // --------------------------------------------------------------- invariants

  ghost function Out(f: Fleet): map<WorkerId, set<Client>>
  {
    map w | w in f.services :: f.services[w].out
  }

  ghost predicate PoolSane(used: set<Client>, s: Service)
  {
    && |s.idle| + |s.out| <= POOL_MAX
    && s.idle !! s.out
    && s.idle + s.out <= used
  }

  ghost predicate PoolsSane(services: map<WorkerId, Service>, used: set<Client>)
  {
    && (forall w :: w in services ==> PoolSane(used, services[w]))
    && (forall v, w :: v in services && w in services && v != w ==>
          (services[v].idle + services[v].out) !! (services[w].idle + services[w].out))
  }

  /** Client `c` is at some place of worker `w`. */
  ghost predicate Placed(at: Place -> Option<Client>, w: WorkerId, c: Client)
  {
    exists p: Place :: p.w == w && at(p) == Some(c)
  }

  /** Conservation: each checked-out client is in exactly one place, of the worker that checked it out. */
  ghost predicate Books(at: Place -> Option<Client>, out: map<WorkerId, set<Client>>)
  {
    && (forall p :: at(p).Some? ==> p.w in out && at(p).value in out[p.w])
    && (forall p, q :: at(p).Some? && at(p) == at(q) ==> p == q)
    && (forall w, c :: w in out && c in out[w] ==> Placed(at, w, c))
  }

  /** Whoever counts on a lock owns it in the database. */
  ghost predicate LocksOwned(at: Place -> Option<Client>, lock: Place -> Option<MenuId>, locks: LockTable)
  {
    forall p :: lock(p).Some? ==>
      && at(p).Some?
      && LockKey(lock(p).value) in locks
      && locks[LockKey(lock(p).value)].owner == at(p).value
  }

  ghost function Places(f: Fleet): Place -> Option<Client>
  {
    p => ClientAt(f, p)
  }

  ghost function LockUses(f: Fleet): Place -> Option<MenuId>
  {
    p => LockAt(f, p)
  }

  ghost predicate TasksHaveWorkers(f: Fleet)
  {
    forall t :: t in f.tasks ==> f.tasks[t].worker in f.services
  }

  ghost predicate Inv(f: Fleet)
  {
    && PoolsSane(f.services, f.used)
    && TasksHaveWorkers(f)
    && Books(Places(f), Out(f))
    && LocksOwned(Places(f), LockUses(f), f.locks)
  }

  // What one checkout, one hand-over and one return do to the books.

  ghost predicate SameBut<T(!new)>(at: Place -> T, at': Place -> T, p: Place, q: Place)
  {
    forall r :: r != p && r != q ==> at'(r) == at(r)
  }

  lemma BooksCheckout(at: Place -> Option<Client>, at': Place -> Option<Client>,
                      out: map<WorkerId, set<Client>>, p: Place, c: Client)
    requires Books(at, out)
    requires p.w in out && at(p).None?
    requires forall w :: w in out ==> c !in out[w]
    requires at'(p) == Some(c) && SameBut(at, at', p, p)
    ensures Books(at', out[p.w := out[p.w] + {c}])
  {
    var out' := out[p.w := out[p.w] + {c}];
    forall w, d | w in out' && d in out'[w]
      ensures Placed(at', w, d)
    {
      if d == c {
        assert p.w == w && at'(p) == Some(d);
      } else {
        var q: Place :| q.w == w && at(q) == Some(d);
        assert at'(q) == Some(d);
      }
    }
  }

  lemma BooksMove(at: Place -> Option<Client>, at': Place -> Option<Client>,
                  out: map<WorkerId, set<Client>>, p: Place, q: Place)
    requires Books(at, out)
    requires at(p).Some? && at(q).None? && q.w == p.w
    requires at'(p).None? && at'(q) == at(p) && SameBut(at, at', p, q)
    ensures Books(at', out)
  {
    forall w, d | w in out && d in out[w]
      ensures Placed(at', w, d)
    {
      var r: Place :| r.w == w && at(r) == Some(d);
      assert at'(if r == p then q else r) == Some(d);
    }
  }

  lemma BooksReturn(at: Place -> Option<Client>, at': Place -> Option<Client>,
                    out: map<WorkerId, set<Client>>, p: Place)
    requires Books(at, out)
    requires at(p).Some? && at'(p).None? && SameBut(at, at', p, p)
    ensures p.w in out && Books(at', out[p.w := out[p.w] - {at(p).value}])
  {
    var out' := out[p.w := out[p.w] - {at(p).value}];
    forall w, d | w in out' && d in out'[w]
      ensures Placed(at', w, d)
    {
      var r: Place :| r.w == w && at(r) == Some(d);
      assert r != p && at'(r) == Some(d);
    }
  }

  lemma BooksSame(at: Place -> Option<Client>, at': Place -> Option<Client>, out: map<WorkerId, set<Client>>)
    requires Books(at, out)
    requires forall p :: at'(p) == at(p)
    ensures Books(at', out)
  {
    forall w, d | w in out && d in out[w]
      ensures Placed(at', w, d)
    {
      var r: Place :| r.w == w && at(r) == Some(d);
      assert at'(r) == Some(d);
    }
  }

  lemma PoolChange(services: map<WorkerId, Service>, used: set<Client>, used': set<Client>,
                   w: WorkerId, s: Service, c: Client)
    requires PoolsSane(services, used) && w in services && used <= used'
    requires PoolSane(used', s)
    requires s.idle + s.out <= services[w].idle + services[w].out + {c}
    requires forall v :: v in services && v != w ==> c !in services[v].idle + services[v].out
    ensures PoolsSane(services[w := s], used')
  {
  }

  // What lock, unlock and a session's end do to ownership.

  lemma TryLockKeepsOwners(at: Place -> Option<Client>, lock: Place -> Option<MenuId>, locks: LockTable,
                           key: int, c: Client)
    requires LocksOwned(at, lock, locks)
    ensures LocksOwned(at, lock, TryLock(locks, key, c).0)
    ensures TryLock(locks, key, c).1 == Granted <==>
      key in TryLock(locks, key, c).0 && TryLock(locks, key, c).0[key].owner == c
  {
  }

  lemma UnlockKeepsOwners(at: Place -> Option<Client>, out: map<WorkerId, set<Client>>,
                          lock: Place -> Option<MenuId>, locks: LockTable, p: Place, key: int)
    requires Books(at, out) && LocksOwned(at, lock, locks)
    requires at(p).Some? && lock(p).None?
    ensures LocksOwned(at, lock, Unlock(locks, key, at(p).value))
  {
  }

  lemma SessionGoneKeepsOwners(at: Place -> Option<Client>, lock: Place -> Option<MenuId>, locks: LockTable, c: Client)
    requires LocksOwned(at, lock, locks)
    requires forall p :: lock(p).Some? ==> at(p) != Some(c)
    ensures LocksOwned(at, lock, SessionGone(locks, c))
  {
  }

  lemma InitInv(f: Fleet)
    requires Init(f)
    ensures Inv(f)
  {
    assert forall p :: Places(f)(p) == None;
  }

  // ------------------------------------------------------------ step by step

  /** The step moves no client. */
  ghost predicate NothingMoves(f: Fleet, g: Fleet)
  {
    && g.services == f.services && g.used == f.used
    && TasksHaveWorkers(g)
    && (forall p :: Places(g)(p) == Places(f)(p))
  }

  lemma KeptWhenNothingMoves(f: Fleet, g: Fleet)
    requires Inv(f) && NothingMoves(f, g)
    requires LocksOwned(Places(g), LockUses(g), g.locks)
    ensures Inv(g)
  {
    BooksSame(Places(f), Places(g), Out(f));
  }

  predicate StillStep(step: Step)
  {
    !step.ConnectOk? && !step.TryAcquireResumes? && !step.CallRelease? && !step.ReleaseResumes? && !step.PoolEvicts?
  }

  lemma StillStepMovesNothing(f: Fleet, step: Step)
    requires Enabled(f, step) && TasksHaveWorkers(f) && StillStep(step)
    ensures NothingMoves(f, Apply(f, step))
  {
  }

  /** As `LocksOwned` on the same places, with the one task `T` possibly newly granted. */
  lemma LocksCarryOver(f: Fleet, g: Fleet, T: Place)
    requires forall p :: Places(g)(p) == Places(f)(p)
    requires LocksOwned(Places(f), LockUses(f), g.locks)
    requires forall p :: p != T && LockUses(g)(p).Some? ==> LockUses(g)(p) == LockUses(f)(p)
    requires LockUses(g)(T).Some? ==>
      && Places(g)(T).Some?
      && LockKey(LockUses(g)(T).value) in g.locks
      && g.locks[LockKey(LockUses(g)(T).value)].owner == Places(g)(T).value
    ensures LocksOwned(Places(g), LockUses(g), g.locks)
  {
  }

  lemma LockRunsLocks(f: Fleet, step: Step)
    requires Enabled(f, step) && step.LockRuns?
    requires TasksHaveWorkers(f) && LocksOwned(Places(f), LockUses(f), f.locks)
    ensures LocksOwned(Places(Apply(f, step)), LockUses(Apply(f, step)), Apply(f, step).locks)
  {
    var g := Apply(f, step);
    var Task(w, m, ph) := f.tasks[step.t];
    StillStepMovesNothing(f, step);
    TryLockKeepsOwners(Places(f), LockUses(f), f.locks, LockKey(m), ph.c);
    LocksCarryOver(f, g, TaskSlot(w, step.t));
  }

  lemma LockFailsLocks(f: Fleet, step: Step)
    requires Enabled(f, step) && step.LockFails?
    requires TasksHaveWorkers(f) && LocksOwned(Places(f), LockUses(f), f.locks)
    ensures LocksOwned(Places(Apply(f, step)), LockUses(Apply(f, step)), Apply(f, step).locks)
  {
    var g := Apply(f, step);
    var Task(w, m, ph) := f.tasks[step.t];
    StillStepMovesNothing(f, step);
    TryLockKeepsOwners(Places(f), LockUses(f), f.locks, LockKey(m), ph.c);
    LocksCarryOver(f, g, TaskSlot(w, step.t));
  }

  lemma UnlockQueryLocks(f: Fleet, step: Step)
    requires Enabled(f, step) && step.UnlockRuns?
    requires TasksHaveWorkers(f) && Books(Places(f), Out(f)) && LocksOwned(Places(f), LockUses(f), f.locks)
    ensures LocksOwned(Places(Apply(f, step)), LockUses(Apply(f, step)), Apply(f, step).locks)
  {
    var g := Apply(f, step);
    var Task(w, m, ph) := f.tasks[step.t];
    StillStepMovesNothing(f, step);
    UnlockKeepsOwners(Places(f), Out(f), LockUses(f), f.locks, TaskSlot(w, step.t), LockKey(m));
    LocksCarryOver(f, g, TaskSlot(w, step.t));
  }

  lemma SessionEndLocks(f: Fleet, step: Step)
    requires Enabled(f, step) && step.SessionEnds?
    requires TasksHaveWorkers(f) && LocksOwned(Places(f), LockUses(f), f.locks)
    ensures LocksOwned(Places(Apply(f, step)), LockUses(Apply(f, step)), Apply(f, step).locks)
  {
    forall p | LockUses(f)(p).Some? ensures Places(f)(p) != Some(step.c) {
      assert !(ClientAt(f, p) == Some(step.c) && LockAt(f, p).Some?);
    }
    SessionGoneKeepsOwners(Places(f), LockUses(f), f.locks, step.c);
    LocksCarryOver(f, Apply(f, step), TaskSlot(0, 0));
  }

  lemma StartingLocks(f: Fleet, step: Step)
    requires Enabled(f, step) && (step.CallTryAcquire? || step.ConnectFails?)
    requires TasksHaveWorkers(f) && LocksOwned(Places(f), LockUses(f), f.locks)
    ensures LocksOwned(Places(Apply(f, step)), LockUses(Apply(f, step)), Apply(f, step).locks)
  {
    StillStepMovesNothing(f, step);
    LocksCarryOver(f, Apply(f, step), TaskSlot(0, 0));
  }

  lemma StillStepKeeps(f: Fleet, step: Step)
    requires Inv(f) && Enabled(f, step) && StillStep(step)
    ensures Inv(Apply(f, step))
  {
    var g := Apply(f, step);
    StillStepMovesNothing(f, step);
    assert LocksOwned(Places(g), LockUses(g), g.locks) by {
      match step
      case CallTryAcquire(_, _, _) => StartingLocks(f, step);
      case ConnectFails(_) => StartingLocks(f, step);
      case LockRuns(_) => LockRunsLocks(f, step);
      case LockFails(_, _) => LockFailsLocks(f, step);
      case UnlockRuns(_, _) => UnlockQueryLocks(f, step);
      case SessionEnds(_) => SessionEndLocks(f, step);
    }
    KeptWhenNothingMoves(f, g);
  }

  lemma ConnectOkBooks(f: Fleet, step: Step)
    requires Enabled(f, step) && step.ConnectOk?
    requires forall w :: w in f.services ==> step.c !in f.services[w].out
    requires Books(Places(f), Out(f))
    ensures Books(Places(Apply(f, step)), Out(Apply(f, step)))
  {
    var g := Apply(f, step);
    var w := f.tasks[step.t].worker;
    var T := TaskSlot(w, step.t);
    assert Out(g) == Out(f)[w := Out(f)[w] + {step.c}];
    assert SameBut(Places(f), Places(g), T, T);
    BooksCheckout(Places(f), Places(g), Out(f), T, step.c);
  }

  lemma ConnectOkLocks(f: Fleet, step: Step)
    requires Enabled(f, step) && step.ConnectOk?
    requires LocksOwned(Places(f), LockUses(f), f.locks)
    ensures LocksOwned(Places(Apply(f, step)), LockUses(Apply(f, step)), f.locks)
  {
    var g := Apply(f, step);
    var T := TaskSlot(f.tasks[step.t].worker, step.t);
    assert LockUses(g)(T).None?;
    assert forall p :: p != T ==> LockUses(g)(p) == LockUses(f)(p) && Places(g)(p) == Places(f)(p);
  }

  lemma KeepsWhenConnecting(f: Fleet, step: Step)
    requires Inv(f) && Enabled(f, step) && step.ConnectOk?
    ensures Inv(Apply(f, step))
  {
    var w, c := f.tasks[step.t].worker, step.c;
    var s := f.services[w];
    assert PoolSane(f.used, s);
    forall v | v in f.services
      ensures c !in f.services[v].out && (v != w ==> c !in f.services[v].idle)
    {
      assert PoolSane(f.used, f.services[v]);
    }
    PoolChange(f.services, f.used, f.used + {c}, w, Connected(s, c), c);
    ConnectOkBooks(f, step);
    ConnectOkLocks(f, step);
  }

  /** A granted client moves into a `held` slot that is empty: `held.set` never overwrites. */
  lemma GrantedSlotIsFree(f: Fleet, t: TaskId)
    requires Inv(f) && Waiting(f, t) && JustGranted(f.tasks[t].phase)
    ensures f.tasks[t].menu !in f.services[f.tasks[t].worker].held
  {
    var Task(w, m, ph) := f.tasks[t];
    var T, M := TaskSlot(w, t), MenuSlot(w, m);
    assert Places(f)(T) == Some(ph.c) && LockUses(f)(T) == Some(m);
    assert LockUses(f)(M).Some? ==> LockUses(f)(M) == Some(m);
    assert Places(f)(M) != Places(f)(T);
  }

  lemma GrantBooks(f: Fleet, t: TaskId)
    requires Enabled(f, TryAcquireResumes(t)) && JustGranted(f.tasks[t].phase)
    requires f.tasks[t].menu !in f.services[f.tasks[t].worker].held
    requires Books(Places(f), Out(f))
    ensures Books(Places(Apply(f, TryAcquireResumes(t))), Out(Apply(f, TryAcquireResumes(t))))
  {
    var g := Apply(f, TryAcquireResumes(t));
    var Task(w, m, ph) := f.tasks[t];
    var T, M := TaskSlot(w, t), MenuSlot(w, m);
    assert Places(f)(T) == Some(ph.c) && Places(g)(T).None?;
    assert Places(f)(M).None? && Places(g)(M) == Some(ph.c);
    assert SameBut(Places(f), Places(g), T, M);
    BooksMove(Places(f), Places(g), Out(f), T, M);
    assert Out(g) == Out(f);
  }

  lemma GrantLocks(f: Fleet, t: TaskId)
    requires Enabled(f, TryAcquireResumes(t)) && JustGranted(f.tasks[t].phase)
    requires LocksOwned(Places(f), LockUses(f), f.locks)
    ensures LocksOwned(Places(Apply(f, TryAcquireResumes(t))), LockUses(Apply(f, TryAcquireResumes(t))), f.locks)
  {
    var g := Apply(f, TryAcquireResumes(t));
    var Task(w, m, ph) := f.tasks[t];
    var T, M := TaskSlot(w, t), MenuSlot(w, m);
    assert LockUses(g)(T).None? && Places(g)(M) == Places(f)(T) == Some(ph.c);
    assert LockUses(g)(M) == LockUses(f)(T) == Some(m);
    assert SameBut(Places(f), Places(g), T, M) && SameBut(LockUses(f), LockUses(g), T, M);
  }

  lemma RefusalBooks(f: Fleet, t: TaskId)
    requires Enabled(f, TryAcquireResumes(t)) && !JustGranted(f.tasks[t].phase)
    requires Books(Places(f), Out(f)) && LocksOwned(Places(f), LockUses(f), f.locks)
    ensures Books(Places(Apply(f, TryAcquireResumes(t))), Out(Apply(f, TryAcquireResumes(t))))
    ensures LocksOwned(Places(Apply(f, TryAcquireResumes(t))), LockUses(Apply(f, TryAcquireResumes(t))), f.locks)
  {
    var g := Apply(f, TryAcquireResumes(t));
    var Task(w, m, ph) := f.tasks[t];
    var T := TaskSlot(w, t);
    assert Places(f)(T) == Some(ph.c) && Places(g)(T).None?;
    assert SameBut(Places(f), Places(g), T, T) && SameBut(LockUses(f), LockUses(g), T, T);
    BooksReturn(Places(f), Places(g), Out(f), T);
    assert Out(g) == Out(f)[w := Out(f)[w] - {ph.c}];
  }

  lemma CallReleaseBooks(f: Fleet, step: Step)
    requires Enabled(f, step) && step.CallRelease?
    requires Books(Places(f), Out(f)) && LocksOwned(Places(f), LockUses(f), f.locks)
    ensures Books(Places(Apply(f, step)), Out(Apply(f, step)))
    ensures LocksOwned(Places(Apply(f, step)), LockUses(Apply(f, step)), f.locks)
  {
    var g := Apply(f, step);
    var CallRelease(t, w, m) := step;
    if m in f.services[w].held {
      var T, M := TaskSlot(w, t), MenuSlot(w, m);
      assert Places(f)(T).None? && Places(g)(T) == Places(f)(M) && Places(g)(M).None?;
      assert SameBut(Places(f), Places(g), M, T) && SameBut(LockUses(f), LockUses(g), M, M);
      assert LockUses(g)(M).None? && LockUses(g)(T).None?;
      BooksMove(Places(f), Places(g), Out(f), M, T);
      assert Out(g) == Out(f);
    }
  }

  lemma ReleaseResumesBooks(f: Fleet, t: TaskId)
    requires Enabled(f, ReleaseResumes(t))
    requires Books(Places(f), Out(f)) && LocksOwned(Places(f), LockUses(f), f.locks)
    ensures Books(Places(Apply(f, ReleaseResumes(t))), Out(Apply(f, ReleaseResumes(t))))
    ensures LocksOwned(Places(Apply(f, ReleaseResumes(t))), LockUses(Apply(f, ReleaseResumes(t))), f.locks)
  {
    var g := Apply(f, ReleaseResumes(t));
    var Task(w, m, ph) := f.tasks[t];
    var T := TaskSlot(w, t);
    assert Places(f)(T) == Some(ph.c) && Places(g)(T).None?;
    assert SameBut(Places(f), Places(g), T, T) && SameBut(LockUses(f), LockUses(g), T, T);
    BooksReturn(Places(f), Places(g), Out(f), T);
    assert Out(g) == Out(f)[w := Out(f)[w] - {ph.c}];
  }

  /** A client returned to its own pool: the pool keeps its size and the pools stay apart. */
  lemma ReturnKeepsPools(services: map<WorkerId, Service>, used: set<Client>, w: WorkerId, c: Client)
    requires PoolsSane(services, used) && w in services && c in services[w].out
    ensures PoolsSane(services[w := Returned(services[w], c)], used)
  {
    var s := services[w];
    assert PoolSane(used, s);
    PoolChange(services, used, used, w, Returned(s, c), c);
  }

  lemma HeldKeepsPools(services: map<WorkerId, Service>, used: set<Client>, w: WorkerId, held: map<MenuId, Client>)
    requires PoolsSane(services, used) && w in services
    ensures PoolsSane(services[w := services[w].(held := held)], used)
  {
    var s := services[w].(held := held);
    assert PoolSane(used, services[w]);
    assert PoolSane(used, s);
  }

  lemma ResumeKeeps(f: Fleet, step: Step)
    requires Inv(f) && Enabled(f, step)
    requires step.TryAcquireResumes? || step.ReleaseResumes?
    ensures Inv(Apply(f, step))
  {
    var t := step.t;
    var Task(w, m, ph) := f.tasks[t];
    assert Places(f)(TaskSlot(w, t)) == Some(ph.c);
    assert ph.c in Out(f)[w];
    if step.TryAcquireResumes? {
      if JustGranted(ph) {
        GrantedSlotIsFree(f, t);
        HeldKeepsPools(f.services, f.used, w, f.services[w].held[m := ph.c]);
        GrantBooks(f, t);
        GrantLocks(f, t);
      } else {
        ReturnKeepsPools(f.services, f.used, w, ph.c);
        RefusalBooks(f, t);
      }
    } else {
      ReturnKeepsPools(f.services, f.used, w, ph.c);
      ReleaseResumesBooks(f, t);
    }
  }

  lemma CallReleaseKeeps(f: Fleet, step: Step)
    requires Inv(f) && Enabled(f, step) && step.CallRelease?
    ensures Inv(Apply(f, step))
  {
    HeldKeepsPools(f.services, f.used, step.w, f.services[step.w].held - {step.m});
    CallReleaseBooks(f, step);
  }

  lemma PoolEvictsBooks(f: Fleet, step: Step)
    requires Enabled(f, step) && step.PoolEvicts?
    requires Books(Places(f), Out(f)) && LocksOwned(Places(f), LockUses(f), f.locks)
    ensures Books(Places(Apply(f, step)), Out(Apply(f, step)))
    ensures LocksOwned(Places(Apply(f, step)), LockUses(Apply(f, step)), f.locks)
  {
    var g := Apply(f, step);
    assert Out(g) == Out(f);
    assert forall p :: Places(g)(p) == Places(f)(p) && LockUses(g)(p) == LockUses(f)(p);
    BooksSame(Places(f), Places(g), Out(f));
  }

  lemma PoolEvictsKeeps(f: Fleet, step: Step)
    requires Inv(f) && Enabled(f, step) && step.PoolEvicts?
    ensures Inv(Apply(f, step))
  {
    var s := f.services[step.w];
    assert PoolSane(f.used, s);
    PoolChange(f.services, f.used, f.used, step.w, s.(idle := s.idle - {step.c}), step.c);
    PoolEvictsBooks(f, step);
  }

  lemma StepKeeps(f: Fleet, step: Step)
    requires Inv(f) && Enabled(f, step)
    ensures Inv(Apply(f, step))
  {
    match step
    case ConnectOk(_, _) => KeepsWhenConnecting(f, step);
    case TryAcquireResumes(_) => ResumeKeeps(f, step);
    case ReleaseResumes(_) => ResumeKeeps(f, step);
    case CallRelease(_, _, _) => CallReleaseKeeps(f, step);
    case PoolEvicts(_, _) => PoolEvictsKeeps(f, step);
    case _ => StillStepKeeps(f, step);
  }

  lemma {:induction false} RunKeeps(f: Fleet, steps: seq<Step>, g: Fleet)
    requires Inv(f) && Run(f, steps, g)
    ensures Inv(g)
    decreases |steps|
  {
    if steps != [] {
      StepKeeps(f, steps[0]);
      RunKeeps(Apply(f, steps[0]), steps[1..], g);
    }
  }

  // ------------------------------------------------------------ main results

  ghost predicate Reachable(f: Fleet)
  {
    exists f0, steps :: Init(f0) && Run(f0, steps, f)
  }

  lemma ReachableInv(f: Fleet)
    requires Reachable(f)
    ensures Inv(f)
  {
    var f0, steps :| Init(f0) && Run(f0, steps, f);
    InitInv(f0);
    RunKeeps(f0, steps, f);
  }

  /** Whatever the interleaving, a held menu's lock is owned by the client it is held through. */
  lemma HeldMeansOwned(f: Fleet, w: WorkerId, m: MenuId)
    requires Reachable(f)
    requires w in f.services && m in f.services[w].held
    ensures LockKey(m) in f.locks && f.locks[LockKey(m)].owner == f.services[w].held[m]
  {
    ReachableInv(f);
    assert LockUses(f)(MenuSlot(w, m)) == Some(m);
  }

  /** At most one worker holds a menu. */
  lemma HeldByOneWorker(f: Fleet, v: WorkerId, w: WorkerId, m: MenuId)
    requires Reachable(f)
    requires v in f.services && m in f.services[v].held
    requires w in f.services && m in f.services[w].held
    ensures v == w
  {
    ReachableInv(f);
    HeldMeansOwned(f, v, m);
    HeldMeansOwned(f, w, m);
    assert Places(f)(MenuSlot(v, m)) == Places(f)(MenuSlot(w, m));
  }

  /** `held.set` only ever fills an empty slot. */
  lemma HeldNeverOverwritten(f: Fleet, t: TaskId)
    requires Reachable(f) && Enabled(f, TryAcquireResumes(t)) && JustGranted(f.tasks[t].phase)
    ensures f.tasks[t].menu !in f.services[f.tasks[t].worker].held
  {
    ReachableInv(f);
    GrantedSlotIsFree(f, t);
  }

  /** Queries for one menu leave every other menu's lock as it was. */
  lemma MenusNeverContend(f: Fleet, step: Step, m: MenuId)
    requires Enabled(f, step) && (step.LockRuns? || step.LockFails? || step.UnlockRuns?)
    requires f.tasks[step.t].menu < TWO_31 && m < TWO_31 && m != f.tasks[step.t].menu
    ensures LockKey(m) in f.locks <==> LockKey(m) in Apply(f, step).locks
    ensures LockKey(m) in f.locks ==> Apply(f, step).locks[LockKey(m)] == f.locks[LockKey(m)]
  {
    LockKeyInjectiveOnIds(m, f.tasks[step.t].menu);
  }

  /** A call answers true with the menu held and its lock owned, and false with nothing of the worker's held changed. */
  lemma AnswersAreTrue(f: Fleet, step: Step)
    requires Reachable(f) && Enabled(f, step) && step.TryAcquireResumes?
    ensures var Task(w, m, ph) := f.tasks[step.t];
      var g := Apply(f, step);
      if ph.reply == Granted then
        && m in g.services[w].held && g.services[w].held[m] == ph.c
        && LockKey(m) in g.locks && g.locks[LockKey(m)].owner == ph.c
      else g.services[w].held == f.services[w].held && ph.c in g.services[w].idle
  {
    if f.tasks[step.t].phase.reply == Granted {
      GrantedIsOwned(f, step.t);
    }
  }

  lemma GrantedIsOwned(f: Fleet, t: TaskId)
    requires Reachable(f) && Waiting(f, t) && JustGranted(f.tasks[t].phase)
    ensures var Task(_, m, ph) := f.tasks[t];
      LockKey(m) in f.locks && f.locks[LockKey(m)].owner == ph.c
  {
    var Task(w, m, ph) := f.tasks[t];
    ReachableInv(f);
    assert LockUses(f)(TaskSlot(w, t)) == Some(m) && Places(f)(TaskSlot(w, t)) == Some(ph.c);
  }

  /** Each checked-out client is in exactly one `held` map or unfinished call. */
  lemma CheckedOutClientHasOnePlace(f: Fleet, w: WorkerId, c: Client)
    requires Reachable(f)
    requires w in f.services
    ensures c in f.services[w].out <==> exists p: Place :: p.w == w && ClientAt(f, p) == Some(c)
    ensures forall p, q :: ClientAt(f, p) == Some(c) && ClientAt(f, q) == Some(c) ==> p == q
  {
    ReachableInv(f);
    if c in Out(f)[w] {
      assert Placed(Places(f), w, c);
      var p: Place :| p.w == w && Places(f)(p) == Some(c);
      assert ClientAt(f, p) == Some(c);
    }
    forall p, q | ClientAt(f, p) == Some(c) && ClientAt(f, q) == Some(c)
      ensures p == q
    {
      assert Places(f)(p) == Places(f)(q);
    }
    forall p: Place | p.w == w && ClientAt(f, p) == Some(c)
      ensures c in f.services[w].out
    {
      assert Places(f)(p) == Some(c);
    }
  }

  /** A client going back to its pool is checked out until then, so none is returned twice. */
  lemma ReturnedOnlyOnce(f: Fleet, step: Step)
    requires Reachable(f) && Enabled(f, step)
    requires step.ReleaseResumes? || (step.TryAcquireResumes? && !JustGranted(f.tasks[step.t].phase))
    ensures var Task(w, _, ph) := f.tasks[step.t];
      && ph.c in f.services[w].out
      && Apply(f, step).services[w] == Returned(f.services[w], ph.c)
  {
    var Task(w, _, ph) := f.tasks[step.t];
    assert ClientAt(f, TaskSlot(w, step.t)) == Some(ph.c);
    CheckedOutClientHasOnePlace(f, w, ph.c);
  }

  lemma QuietClient(f: Fleet, w: WorkerId, c: Client)
    requires Reachable(f)
    requires f.tasks == map[] && w in f.services
    ensures c in f.services[w].out <==> c in f.services[w].held.Values
  {
    CheckedOutClientHasOnePlace(f, w, c);
    var s := f.services[w];
    if c in s.held.Values {
      var m :| m in s.held && s.held[m] == c;
      assert ClientAt(f, MenuSlot(w, m)) == Some(c);
    } else {
      forall p: Place | p.w == w ensures ClientAt(f, p) != Some(c) {}
    }
  }

  /** With no call unfinished, exactly the held clients are checked out: none is lost. */
  lemma QuietPoolLosesNothing(f: Fleet, w: WorkerId)
    requires Reachable(f)
    requires f.tasks == map[] && w in f.services
    ensures f.services[w].out == f.services[w].held.Values
  {
    forall c ensures c in f.services[w].out <==> c in f.services[w].held.Values {
      QuietClient(f, w, c);
    }
  }

  lemma {:induction false} InjectiveMapSize(held: map<MenuId, Client>, out: set<Client>)
    requires held.Values <= out
    requires forall m, n :: m in held && n in held && held[m] == held[n] ==> m == n
    ensures |held| <= |out|
    decreases |held|
  {
    if held != map[] {
      assert held.Keys != {};
      var m :| m in held.Keys;
      var rest := held - {m};
      forall c | c in rest.Values
        ensures c in out - {held[m]}
      {
        var n :| n in rest && rest[n] == c;
        assert held[n] == c;
      }
      assert held[m] in held.Values;
      InjectiveMapSize(rest, out - {held[m]});
      assert |rest| == |held| - 1;
    }
  }

  /** A worker never holds more menus than its pool has connections. */
  lemma HeldFitsInPool(f: Fleet, w: WorkerId)
    requires Reachable(f)
    requires w in f.services
    ensures |f.services[w].held| <= 10
  {
    ReachableInv(f);
    var s := f.services[w];
    assert PoolSane(f.used, s);
    forall c | c in s.held.Values
      ensures c in s.out
    {
      var m :| m in s.held && s.held[m] == c;
      assert Places(f)(MenuSlot(w, m)) == Some(c);
    }
    forall m, n | m in s.held && n in s.held && s.held[m] == s.held[n]
      ensures m == n
    {
      assert Places(f)(MenuSlot(w, m)) == Places(f)(MenuSlot(w, n));
    }
    InjectiveMapSize(s.held, s.out);
  }

  // ------------------------------------------------- locks left behind

  /** The menu whose lock the client at `p` has to give back: held, just granted, or on its way to the unlock query. */
  function OwedAt(f: Fleet, p: Place): Option<MenuId>
  {
    match p
    case MenuSlot(w, m) => if w in f.services && m in f.services[w].held then Some(m) else None
    case TaskSlot(w, t) =>
      if t in f.tasks && f.tasks[t].worker == w && (JustGranted(f.tasks[t].phase) || f.tasks[t].phase.Unlocking?)
      then Some(f.tasks[t].menu) else None
  }

  ghost function Owed(f: Fleet): Place -> Option<MenuId>
  {
    p => OwedAt(f, p)
  }

  /** The lock `key` of client `c` will be given back from place `p`. */
  ghost predicate Backs(at: Place -> Option<Client>, owed: Place -> Option<MenuId>, p: Place, key: int, c: Client)
  {
    at(p) == Some(c) && owed(p).Some? && LockKey(owed(p).value) == key
  }

  ghost predicate Backed(at: Place -> Option<Client>, owed: Place -> Option<MenuId>, key: int, c: Client)
  {
    exists p :: Backs(at, owed, p, key, c)
  }

  /** Every lock in the table is taken once, by a client that will give it back. */
  ghost predicate AllBacked(at: Place -> Option<Client>, owed: Place -> Option<MenuId>, locks: LockTable)
  {
    forall key :: key in locks ==> locks[key].count == 1 && Backed(at, owed, key, locks[key].owner)
  }

  ghost predicate NoneStranded(f: Fleet)
  {
    AllBacked(Places(f), Owed(f), f.locks)
  }

  ghost predicate OwnsLock(locks: LockTable, key: int, c: Client)
  {
    key in locks && locks[key].owner == c
  }

  /** A lock query does not fail after taking the lock, nor an unlock query before giving it up. */
  ghost predicate LeavesNoLock(f: Fleet, step: Step)
  {
    match step
    case LockFails(t, applied) => t in f.tasks && applied ==> LockKey(f.tasks[t].menu) in f.locks
    case UnlockRuns(t, applied) =>
      t in f.tasks && f.tasks[t].phase.Unlocking? && !applied ==>
        !OwnsLock(f.locks, LockKey(f.tasks[t].menu), f.tasks[t].phase.c)
    case _ => true
  }

  /** Locks may go; what backed the others is where it was. */
  lemma BackedSame(at: Place -> Option<Client>, owed: Place -> Option<MenuId>, locks: LockTable,
                   at': Place -> Option<Client>, owed': Place -> Option<MenuId>, locks': LockTable)
    requires AllBacked(at, owed, locks)
    requires forall key :: key in locks' ==> key in locks && locks'[key] == locks[key]
    requires forall p :: owed(p).Some? && at(p).Some? ==> at'(p) == at(p) && owed'(p) == owed(p)
    ensures AllBacked(at', owed', locks')
  {
    forall key | key in locks'
      ensures Backed(at', owed', key, locks'[key].owner)
    {
      var p :| Backs(at, owed, p, key, locks[key].owner);
      assert Backs(at', owed', p, key, locks[key].owner);
    }
  }

  /** What backed a lock from place `p` backs it from place `q`. */
  lemma BackedMove(at: Place -> Option<Client>, owed: Place -> Option<MenuId>, locks: LockTable,
                   at': Place -> Option<Client>, owed': Place -> Option<MenuId>, p: Place, q: Place)
    requires AllBacked(at, owed, locks)
    requires at'(q) == at(p) && owed'(q) == owed(p) && owed(q).None?
    requires SameBut(at, at', p, q) && SameBut(owed, owed', p, q)
    ensures AllBacked(at', owed', locks)
  {
    forall key | key in locks
      ensures Backed(at', owed', key, locks[key].owner)
    {
      var r :| Backs(at, owed, r, key, locks[key].owner);
      assert Backs(at', owed', if r == p then q else r, key, locks[key].owner);
    }
  }

  ghost predicate OnePlaceEach(at: Place -> Option<Client>)
  {
    forall p, q :: at(p).Some? && at(p) == at(q) ==> p == q
  }

  /** A client owns no lock but the one owed where it is. */
  lemma OwnsOnlyOwed(at: Place -> Option<Client>, owed: Place -> Option<MenuId>, locks: LockTable, p: Place, key: int, c: Client)
    requires AllBacked(at, owed, locks) && OnePlaceEach(at) && at(p) == Some(c) && OwnsLock(locks, key, c)
    ensures Backs(at, owed, p, key, c) && locks[key].count == 1
  {
    var q :| Backs(at, owed, q, key, locks[key].owner);
    assert at(q) == at(p);
  }

  /** A lock query of the client at `p`, which owes nothing: whether the lock it takes is owed afterwards decides. */
  lemma LockBacked(at: Place -> Option<Client>, owed: Place -> Option<MenuId>, locks: LockTable,
                   owed': Place -> Option<MenuId>, p: Place, m: MenuId, c: Client)
    requires AllBacked(at, owed, locks) && OnePlaceEach(at)
    requires at(p) == Some(c) && owed(p).None? && SameBut(owed, owed', p, p)
    requires owed'(p).Some? ==> owed'(p) == Some(m) && LockKey(m) !in locks
    ensures AllBacked(at, owed', TryLock(locks, LockKey(m), c).0) <==> LockKey(m) in locks || owed'(p).Some?
    ensures !OwnsLock(locks, LockKey(m), c)
  {
    var key := LockKey(m);
    if OwnsLock(locks, key, c) {
      OwnsOnlyOwed(at, owed, locks, p, key, c);
    }
    BackedSame(at, owed, locks, at, owed', locks);
    if key !in locks {
      if owed'(p).Some? {
        assert Backs(at, owed', p, key, c);
      } else {
        forall q ensures !Backs(at, owed', q, key, c) {
          assert at(q) == at(p) ==> q == p;
        }
        assert !Backed(at, owed', key, TryLock(locks, key, c).0[key].owner);
      }
    }
  }

  /** After the unlock query the client at `p` owes nothing: it must not own the lock any more. */
  lemma UnlockBacked(at: Place -> Option<Client>, owed: Place -> Option<MenuId>, locks: LockTable,
                     owed': Place -> Option<MenuId>, p: Place, m: MenuId, c: Client, applied: bool)
    requires AllBacked(at, owed, locks) && OnePlaceEach(at)
    requires at(p) == Some(c) && owed(p) == Some(m) && owed'(p).None? && SameBut(owed, owed', p, p)
    ensures AllBacked(at, owed', if applied then Unlock(locks, LockKey(m), c) else locks) <==>
      applied || !OwnsLock(locks, LockKey(m), c)
  {
    var key := LockKey(m);
    var locks' := if applied then Unlock(locks, key, c) else locks;
    if OwnsLock(locks, key, c) {
      OwnsOnlyOwed(at, owed, locks, p, key, c);
    }
    if OwnsLock(locks', key, c) {
      forall q ensures !Backs(at, owed', q, key, c) {
        assert at(q) == at(p) ==> q == p;
      }
      assert !Backed(at, owed', key, locks'[key].owner);
    } else {
      forall k | k in locks'
        ensures Backed(at, owed', k, locks'[k].owner)
      {
        var q :| Backs(at, owed, q, k, locks[k].owner);
        assert Backs(at, owed', q, k, locks'[k].owner);
      }
    }
  }

  lemma SamePlaces(f: Fleet, g: Fleet)
    requires (forall p :: Places(g)(p) == Places(f)(p)) && AllBacked(Places(f), Owed(g), g.locks)
    ensures NoneStranded(g)
  {
    BackedSame(Places(f), Owed(g), g.locks, Places(g), Owed(g), g.locks);
  }

  lemma SamePlacesBack(f: Fleet, g: Fleet)
    requires (forall p :: Places(g)(p) == Places(f)(p)) && NoneStranded(g)
    ensures AllBacked(Places(f), Owed(g), g.locks)
  {
    BackedSame(Places(g), Owed(g), g.locks, Places(f), Owed(g), g.locks);
  }

  /** A query moves no client, and changes only what its own task owes. */
  lemma QueryFrame(f: Fleet, step: Step)
    requires Enabled(f, step) && (step.LockRuns? || step.LockFails? || step.UnlockRuns?)
    requires TasksHaveWorkers(f)
    ensures var Task(w, m, ph) := f.tasks[step.t];
      var g, p := Apply(f, step), TaskSlot(w, step.t);
      && Places(f)(p) == Some(ph.c) && Owed(f)(p) == (if step.UnlockRuns? then Some(m) else None)
      && Owed(g)(p) == (if step.LockRuns? && TryLock(f.locks, LockKey(m), ph.c).1 == Granted then Some(m) else None)
      && SameBut(Owed(f), Owed(g), p, p)
      && (forall q :: Places(g)(q) == Places(f)(q))
  {
    StillStepMovesNothing(f, step);
  }

  lemma QueryBacked(f: Fleet, step: Step)
    requires TasksHaveWorkers(f) && OnePlaceEach(Places(f)) && NoneStranded(f)
    requires Enabled(f, step) && (step.LockRuns? || step.LockFails? || step.UnlockRuns?)
    ensures NoneStranded(Apply(f, step)) <==> LeavesNoLock(f, step)
  {
    var g := Apply(f, step);
    var Task(w, m, ph) := f.tasks[step.t];
    var p := TaskSlot(w, step.t);
    QueryFrame(f, step);
    if step.UnlockRuns? {
      UnlockBacked(Places(f), Owed(f), f.locks, Owed(g), p, m, ph.c, step.applied);
    } else {
      if OwnsLock(f.locks, LockKey(m), ph.c) {
        OwnsOnlyOwed(Places(f), Owed(f), f.locks, p, LockKey(m), ph.c);
      }
      LockBacked(Places(f), Owed(f), f.locks, Owed(g), p, m, ph.c);
      BackedSame(Places(f), Owed(f), f.locks, Places(f), Owed(g), f.locks);
    }
    if NoneStranded(g) {
      SamePlacesBack(f, g);
    } else if AllBacked(Places(f), Owed(g), g.locks) {
      SamePlaces(f, g);
    }
  }

  lemma GrantBacked(f: Fleet, t: TaskId)
    requires NoneStranded(f) && Enabled(f, TryAcquireResumes(t)) && JustGranted(f.tasks[t].phase)
    requires f.tasks[t].menu !in f.services[f.tasks[t].worker].held
    ensures NoneStranded(Apply(f, TryAcquireResumes(t)))
  {
    var g := Apply(f, TryAcquireResumes(t));
    var Task(w, m, ph) := f.tasks[t];
    var T, M := TaskSlot(w, t), MenuSlot(w, m);
    assert Places(g)(M) == Places(f)(T) && Owed(g)(M) == Owed(f)(T) && Owed(f)(M).None?;
    assert SameBut(Places(f), Places(g), T, M) && SameBut(Owed(f), Owed(g), T, M);
    BackedMove(Places(f), Owed(f), f.locks, Places(g), Owed(g), T, M);
  }

  lemma DropBacked(f: Fleet, step: Step)
    requires NoneStranded(f) && Enabled(f, step) && step.CallRelease? && step.m in f.services[step.w].held
    ensures NoneStranded(Apply(f, step))
  {
    var g := Apply(f, step);
    var M, T := MenuSlot(step.w, step.m), TaskSlot(step.w, step.t);
    assert Places(g)(T) == Places(f)(M) && Owed(g)(T) == Owed(f)(M) && Owed(f)(T).None?;
    assert SameBut(Places(f), Places(g), M, T) && SameBut(Owed(f), Owed(g), M, T);
    BackedMove(Places(f), Owed(f), f.locks, Places(g), Owed(g), M, T);
  }

  lemma EndedSessionBacked(f: Fleet, c: Client)
    requires NoneStranded(f) && Enabled(f, SessionEnds(c))
    ensures NoneStranded(Apply(f, SessionEnds(c)))
  {
    var g := Apply(f, SessionEnds(c));
    BackedSame(Places(f), Owed(f), f.locks, Places(g), Owed(g), g.locks);
  }

  /** What is owed stays where it is, and the table as it is. */
  ghost predicate OwedStays(f: Fleet, g: Fleet)
  {
    && g.locks == f.locks
    && forall p :: OwedAt(f, p).Some? ==> ClientAt(g, p) == ClientAt(f, p) && OwedAt(g, p) == OwedAt(f, p)
  }

  lemma OwedStaysBacked(f: Fleet, g: Fleet)
    requires NoneStranded(f) && OwedStays(f, g)
    ensures NoneStranded(g)
  {
    forall p | Owed(f)(p).Some?
      ensures Places(g)(p) == Places(f)(p) && Owed(g)(p) == Owed(f)(p)
    {
      assert OwedAt(f, p).Some?;
    }
    BackedSame(Places(f), Owed(f), f.locks, Places(g), Owed(g), f.locks);
  }

  /** A client owing no lock comes, waits or goes. */
  lemma ComingAndGoing(f: Fleet, step: Step)
    requires Enabled(f, step)
    requires step.CallTryAcquire? || step.ConnectOk? || step.ConnectFails? || step.PoolEvicts?
    ensures OwedStays(f, Apply(f, step))
  {
  }

  lemma Going(f: Fleet, step: Step)
    requires Enabled(f, step)
    requires step.ReleaseResumes? || (step.TryAcquireResumes? && !JustGranted(f.tasks[step.t].phase))
    ensures OwedStays(f, Apply(f, step))
  {
    assert OwedAt(f, TaskSlot(f.tasks[step.t].worker, step.t)).None?;
  }

  /** A step strands a lock exactly when its query fails on the wrong side of taking effect. */
  lemma StepStrands(f: Fleet, step: Step)
    requires Inv(f) && NoneStranded(f) && Enabled(f, step)
    ensures NoneStranded(Apply(f, step)) <==> LeavesNoLock(f, step)
  {
    match step
    case LockRuns(_) => QueryBacked(f, step);
    case LockFails(_, _) => QueryBacked(f, step);
    case UnlockRuns(_, _) => QueryBacked(f, step);
    case SessionEnds(c) => EndedSessionBacked(f, c);
    case TryAcquireResumes(t) =>
      if JustGranted(f.tasks[t].phase) {
        GrantedSlotIsFree(f, t);
        GrantBacked(f, t);
      } else {
        Going(f, step);
        OwedStaysBacked(f, Apply(f, step));
      }
    case ReleaseResumes(_) =>
      Going(f, step);
      OwedStaysBacked(f, Apply(f, step));
    case CallRelease(_, w, m) =>
      if m in f.services[w].held {
        DropBacked(f, step);
      }
    case _ =>
      ComingAndGoing(f, step);
      OwedStaysBacked(f, Apply(f, step));
  }

  /** No state of the run has a stranded lock. */
  ghost predicate NeverStrands(f: Fleet, steps: seq<Step>)
    decreases |steps|
  {
    NoneStranded(f) && (steps != [] ==> Enabled(f, steps[0]) && NeverStrands(Apply(f, steps[0]), steps[1..]))
  }

  ghost predicate EachLeavesNoLock(f: Fleet, steps: seq<Step>)
    decreases |steps|
  {
    steps != [] ==>
      Enabled(f, steps[0]) && LeavesNoLock(f, steps[0]) && EachLeavesNoLock(Apply(f, steps[0]), steps[1..])
  }

  lemma {:induction false} StrandsExactly(f: Fleet, steps: seq<Step>, g: Fleet)
    requires Inv(f) && NoneStranded(f) && Run(f, steps, g)
    ensures NeverStrands(f, steps) <==> EachLeavesNoLock(f, steps)
    ensures EachLeavesNoLock(f, steps) ==> NoneStranded(g)
    decreases |steps|
  {
    if steps != [] {
      var next := Apply(f, steps[0]);
      StepStrands(f, steps[0]);
      StepKeeps(f, steps[0]);
      if NoneStranded(next) {
        StrandsExactly(next, steps[1..], g);
      }
    }
  }

  /**
   Over every run, each lock in the table will be given back by the client that has it, and is taken
   only once, exactly when no query fails on the wrong side of taking effect; whenever nothing is
   under way, the locks are then those of the menus held.
   */
  lemma LocksAreGivenBack(f0: Fleet, steps: seq<Step>, f: Fleet)
    requires Init(f0) && Run(f0, steps, f)
    ensures NeverStrands(f0, steps) <==> EachLeavesNoLock(f0, steps)
    ensures EachLeavesNoLock(f0, steps) && f.tasks == map[] ==>
      forall key :: key in f.locks ==>
        exists w, m :: w in f.services && m in f.services[w].held && LockKey(m) == key
  {
    InitInv(f0);
    StrandsExactly(f0, steps, f);
    if EachLeavesNoLock(f0, steps) && f.tasks == map[] {
      forall key | key in f.locks
        ensures exists w, m :: w in f.services && m in f.services[w].held && LockKey(m) == key
      {
        var p :| Backs(Places(f), Owed(f), p, key, f.locks[key].owner);
        assert OwedAt(f, p).Some? && p.MenuSlot?;
        assert p.w in f.services && p.m in f.services[p.w].held;
      }
    }
  }

  /**
   A release gives the lock up exactly when its unlock query takes effect on a lock taken once.  When
   it does not, the client goes back to the pool with the lock, and every other session is refused.
   */
  lemma ReleaseFreesExactly(f: Fleet, t: TaskId, applied: bool)
    requires Enabled(f, UnlockRuns(t, applied))
    requires OwnsLock(f.locks, LockKey(f.tasks[t].menu), f.tasks[t].phase.c)
    ensures var Task(w, m, ph) := f.tasks[t];
      var g := Apply(f, UnlockRuns(t, applied));
      && Enabled(g, ReleaseResumes(t))
      && var h := Apply(g, ReleaseResumes(t));
         && ph.c in h.services[w].idle
         && (LockKey(m) !in h.locks <==> applied && f.locks[LockKey(m)].count <= 1)
         && (LockKey(m) in h.locks ==> forall d :: d != ph.c ==> TryLock(h.locks, LockKey(m), d).1 == Refused)
  {
  }

  lemma {:induction false} RunSnoc(f: Fleet, steps: seq<Step>, g: Fleet, step: Step)
    requires Run(f, steps, g) && Enabled(g, step)
    ensures Run(f, steps + [step], Apply(g, step))
    decreases |steps|
  {
    if steps == [] {
      assert [step][1..] == [];
    } else {
      RunSnoc(Apply(f, steps[0]), steps[1..], g, step);
      assert (steps + [step])[1..] == steps[1..] + [step];
    }
  }

  lemma ReachableStep(f: Fleet, step: Step)
    requires Reachable(f) && Enabled(f, step)
    ensures Reachable(Apply(f, step))
  {
    var f0, steps :| Init(f0) && Run(f0, steps, f);
    RunSnoc(f0, steps, f, step);
  }

  /** One worker alone, with its one client, and menu 1's lock. */
  function Alone(s: Service, tasks: map<TaskId, Task>, locks: LockTable): Fleet
  {
    Fleet(map[0 := s], tasks, locks, {0}, {})
  }

  const HOLDING := Service(map[1 := 0], {}, {0})
  const RESTING := Service(map[], {0}, {})

  /** The table with `key` taken `count` times by client 0. */
  function Locks(key: int, count: nat): LockTable
  {
    if count == 0 then map[] else map[key := Grant(0, count)]
  }

  lemma TakenOnceMore(key: int, count: nat)
    ensures TryLock(Locks(key, count), key, 0) == (Locks(key, count + 1), Granted)
    ensures Unlock(Locks(key, count + 1), key, 0) == Locks(key, count)
  {
    if count > 0 {
      var taken := Locks(key, count);
      var once: LockTable := taken[key := Grant(0, count + 1)];
      forall k: int ensures k in once <==> k in Locks(key, count + 1) {
        assert k in taken <==> k == key;
      }
      assert once.Keys == Locks(key, count + 1).Keys;
      assert once == Locks(key, count + 1);
    }
  }

  /** A call asks for a client: the one idle, or the first. */
  lemma Asks(f: Fleet) returns (g: Fleet)
    requires Reachable(f) && (f == Alone(RESTING, map[], f.locks) || f == Fleet(map[0 := Service(map[], {}, {})], map[], f.locks, {}, {}))
    ensures g == Alone(Service(map[], {}, {0}), map[0 := Task(0, 1, Locking(0))], f.locks) && Reachable(g)
  {
    ReachableStep(f, CallTryAcquire(0, 0, 1));
    var asking := Apply(f, CallTryAcquire(0, 0, 1));
    ReachableStep(asking, ConnectOk(0, 0));
    g := Apply(asking, ConnectOk(0, 0));
    assert g.services[0] == Service(map[], {}, {0});
    assert g.services == map[0 := Service(map[], {}, {0})];
    assert g.tasks == map[0 := Task(0, 1, Locking(0))];
  }

  lemma Keeps(f: Fleet) returns (g: Fleet)
    requires Reachable(f) && f == Alone(Service(map[], {}, {0}), map[0 := Task(0, 1, Answered(0, Granted))], f.locks)
    ensures g == Alone(HOLDING, map[], f.locks) && Reachable(g)
  {
    ReachableStep(f, TryAcquireResumes(0));
    g := Apply(f, TryAcquireResumes(0));
    assert g.services[0] == HOLDING;
    assert g.services == map[0 := HOLDING];
    assert g.tasks == map[];
  }

  /** Its query is granted: the lock is taken once more. */
  lemma IsGranted(f: Fleet, count: nat) returns (g: Fleet)
    requires Reachable(f)
    requires f == Alone(Service(map[], {}, {0}), map[0 := Task(0, 1, Locking(0))], Locks(LockKey(1), count))
    ensures g == Alone(HOLDING, map[], Locks(LockKey(1), count + 1)) && Reachable(g)
  {
    TakenOnceMore(LockKey(1), count);
    ReachableStep(f, LockRuns(0));
    var answered := Alone(Service(map[], {}, {0}), map[0 := Task(0, 1, Answered(0, Granted))], Locks(LockKey(1), count + 1));
    assert Apply(f, LockRuns(0)) == answered;
    g := Keeps(answered);
  }

  lemma Drops(f: Fleet) returns (g: Fleet)
    requires Reachable(f) && f == Alone(HOLDING, map[], f.locks)
    ensures g == Alone(Service(map[], {}, {0}), map[0 := Task(0, 1, Unlocking(0))], f.locks) && Reachable(g)
    ensures Enabled(f, CallRelease(0, 0, 1)) && g == Apply(f, CallRelease(0, 0, 1))
  {
    ReachableStep(f, CallRelease(0, 0, 1));
    g := Apply(f, CallRelease(0, 0, 1));
    assert g.services[0] == Service(map[], {}, {0});
    assert g.services == map[0 := Service(map[], {}, {0})];
    assert g.tasks == map[0 := Task(0, 1, Unlocking(0))];
  }

  lemma Returns(f: Fleet) returns (g: Fleet)
    requires Reachable(f) && f == Alone(Service(map[], {}, {0}), map[0 := Task(0, 1, Unlocked(0))], f.locks)
    ensures g == Alone(RESTING, map[], f.locks) && Reachable(g)
    ensures Enabled(f, ReleaseResumes(0)) && g == Apply(f, ReleaseResumes(0))
  {
    ReachableStep(f, ReleaseResumes(0));
    g := Apply(f, ReleaseResumes(0));
    assert g.services[0] == RESTING;
    assert g.services == map[0 := RESTING];
    assert g.tasks == map[];
  }

  lemma Unlocks(f: Fleet, count: nat, applied: bool) returns (g: Fleet)
    requires Reachable(f)
    requires f == Alone(Service(map[], {}, {0}), map[0 := Task(0, 1, Unlocking(0))], Locks(LockKey(1), count + 1))
    ensures Reachable(g)
    ensures g == Alone(Service(map[], {}, {0}), map[0 := Task(0, 1, Unlocked(0))],
                       Locks(LockKey(1), if applied then count else count + 1))
    ensures Enabled(f, UnlockRuns(0, applied)) && g == Apply(f, UnlockRuns(0, applied))
  {
    TakenOnceMore(LockKey(1), count);
    ReachableStep(f, UnlockRuns(0, applied));
    g := Apply(f, UnlockRuns(0, applied));
    assert g.tasks == map[0 := Task(0, 1, Unlocked(0))];
  }

  /** The menu is released, its unlock query taking effect or not. */
  lemma IsReleased(f: Fleet, count: nat, applied: bool) returns (g: Fleet)
    requires Reachable(f) && f == Alone(HOLDING, map[], Locks(LockKey(1), count + 1))
    ensures g == Alone(RESTING, map[], Locks(LockKey(1), if applied then count else count + 1)) && Reachable(g)
    ensures Run(f, Release(applied), g)
  {
    var dropping := Drops(f);
    var unlocked := Unlocks(dropping, count, applied);
    g := Returns(unlocked);
    ThreeSteps(f, dropping, unlocked, g, Release(applied));
  }

  /** A whole `release` of menu 1. */
  function Release(applied: bool): seq<Step>
  {
    [CallRelease(0, 0, 1), UnlockRuns(0, applied), ReleaseResumes(0)]
  }

  lemma ThreeSteps(f: Fleet, g: Fleet, h: Fleet, k: Fleet, steps: seq<Step>)
    requires |steps| == 3
    requires Enabled(f, steps[0]) && g == Apply(f, steps[0])
    requires Enabled(g, steps[1]) && h == Apply(g, steps[1])
    requires Enabled(h, steps[2]) && k == Apply(h, steps[2])
    ensures Run(f, steps, k)
  {
    assert steps[1..][0] == steps[1] && steps[1..][1..] == steps[2..];
    assert steps[2..][0] == steps[2] && steps[2..][1..] == [];
    assert Run(k, [], k);
    assert Run(h, steps[2..], k);
    assert Run(g, steps[1..], k);
  }

  /**
   Both happen.  A failed unlock leaves a fleet at rest with its menu locked by an idle client; and
   when that client takes the menu again, the unlock that then works leaves it just the same.
   */
  lemma StrandedAtRest() returns (failed: Fleet, held: Fleet, worked: Fleet)
    ensures Reachable(failed) && failed == Alone(RESTING, map[], Locks(LockKey(1), 1))
    ensures Run(Alone(HOLDING, map[], Locks(LockKey(1), 1)), Release(false), failed)
    ensures Reachable(held) && held == Alone(HOLDING, map[], Locks(LockKey(1), 2))
    ensures Run(held, Release(true), worked) && worked == failed
  {
    var start := Fleet(map[0 := Service(map[], {}, {})], map[], map[], {}, {});
    assert Run(start, [], start) && Init(start);
    var asked := Asks(start);
    held := IsGranted(asked, 0);
    failed := IsReleased(held, 0, false);
    asked := Asks(failed);
    held := IsGranted(asked, 1);
    worked := IsReleased(held, 1, true);
  }

  // ------------------------------------------------- keys and sessions, plainly

  lemma {:induction false} XorDisjoint(width: nat, c: nat, a: nat, k: nat, m: nat)
    requires k <= width && c == m * Pow2(k) && c < Pow2(width) && a < Pow2(k)
    ensures Xor(width, c, a) == c + a
  {
    if k > 0 {
      var p := Pow2(k - 1);
      var half := m * p;
      assert c == 2 * half by {
        assert m * (2 * p) == 2 * (m * p);
      }
      assert c / 2 == half && c % 2 == 0;
      XorDisjoint(width - 1, half, a / 2, k - 1, m);
      XorStep(width, c, a);
    } else {
      XorZero(width, c);
    }
  }

  lemma XorStep(width: nat, c: nat, a: nat)
    requires width > 0 && c % 2 == 0
    ensures Xor(width, c, a) == 2 * Xor(width - 1, c / 2, a / 2) + a % 2
  {
  }

  lemma {:induction false} XorZero(width: nat, c: nat)
    requires c < Pow2(width)
    ensures Xor(width, c, 0) == c
  {
    if width > 0 {
      XorZero(width - 1, c / 2);
    }
  }

  /** Keys are signed 32-bit numbers ... */
  lemma LockKeysFit(menu: int)
    ensures -0x8000_0000 <= LockKey(menu) < 0x8000_0000
  {
    Pow2Of32();
  }

  lemma SmallXor(width: nat, menu: nat)
    requires width == 32 && menu < 256
    ensures Xor(width, NAMESPACE, menu) == NAMESPACE + menu
  {
    Pow2Of32();
    assert Pow2(8) == 0x100;
    XorDisjoint(width, NAMESPACE, menu, 8, 0x46334d);
  }

  /** ... and those of the first menus follow the namespace, the bytes `FCM` and a zero. */
  lemma FirstKeys(menu: nat)
    requires menu < 256
    ensures LockKey(menu) == 0x46334d00 + menu
  {
    SmallXor(32, menu);
    assert menu % TWO_32 == menu;
  }

  /** A session's end frees exactly its own locks; a query for a lock of another session leaves the table alone. */
  lemma SessionEndFrees(f: Fleet, c: Client, key: int)
    requires Enabled(f, SessionEnds(c))
    ensures var g := Apply(f, SessionEnds(c));
      && (key in g.locks <==> key in f.locks && f.locks[key].owner != c)
      && (key in g.locks ==> g.locks[key] == f.locks[key])
      && g.services == f.services && g.tasks == f.tasks
  {
  }
}
