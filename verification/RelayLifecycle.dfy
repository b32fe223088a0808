/**
 One relay object's life (`MenuSocketSupervisor.acquire`, `connectRelay`, `attachListeners`,
 `scheduleReconnect`, `teardown`).

 `Relay` holds the object's fields together with what it has caused outside: the sockets it
 opened, the timers it armed, and its `connectRelay` calls that have not come back.  The class
 performs one uninterrupted stretch of code per method; a run is any sequence of them.

 The object outlives its place in the supervisor's map: a teardown takes it out, and a call that
 was under way goes on with it.
 */
module RelayLifecycle {
  import opened Numbers
  import opened Wrappers

  type SocketId = nat
  type TimerId = nat
  type CallId = nat

  const BACKOFF_MIN: nat := 1000
  const BACKOFF_MAX: nat := 60_000
  const JITTER: nat := 250

  datatype RelayState = Absent | Connecting | Joined | Backoff | Reconnecting | Uncovered

  /** A socket: how often the event handlers were attached, and whether it was disposed of. */
  datatype Socket = Socket(handlers: nat, disposed: bool)

  /**
   Where an unfinished `connectRelay` call waits: for its lock query, for the relay's identity, having
   been told of the lock, or for its socket; `Returned` until its `finally` has run.
   */
  datatype Phase = AwaitLock | AwaitIdentity | AwaitSocket(s: SocketId) | Returned

  datatype Relay = Relay(
    // The supervisor's map has this object under its menu.
    mapped: bool,
    state: RelayState,
    socket: Option<SocketId>,
    connectPromise: bool,
    listenersAttached: bool,
    backoffMs: nat,
    reconnectTimer: Option<TimerId>,
    sockets: map<SocketId, Socket>,
    timers: set<TimerId>,
    calls: map<CallId, Phase>,
    // Delays scheduled since creation or the last join.
    waits: seq<nat>,
    // The worker holds the menu's lock, through a call of this relay or of another object of the menu.
    locked: bool)

  const NewRelay: Relay :=
    Relay(true, Absent, None, false, false, BACKOFF_MIN, None, map[], {}, map[], [], false)

  // ----------------------------------------------------- stretches of code

  /**
   `acquire`: starts a call unless the relay is up, coming up, or has a call already.  When the worker
   holds the menu, `tryAcquire` answers at once, and that answer stands whatever happens to the lock next.
   */
  function Acquire(r: Relay, c: CallId): Relay
  {
    if r.state == Joined || r.state == Connecting || r.connectPromise then r
    else r.(connectPromise := true, calls := r.calls[c := if r.locked then AwaitIdentity else AwaitLock])
  }

  /** What a `tryAcquire` that had to ask comes to; it is rejected when the pool gives it no client. */
  datatype LockReply = Granted | Refused | Rejected

  /** A refused call takes the menu's relay out of the map; a rejected one just comes back. */
  function LockAnswered(r: Relay, c: CallId, reply: LockReply): Relay
  {
    match reply
    case Granted => r.(calls := r.calls[c := AwaitIdentity], locked := true)
    case Refused => r.(calls := r.calls[c := Returned], mapped := false)
    case Rejected => r.(calls := r.calls[c := Returned])
  }

  /** How `connectRelay` goes on once it has been told the relay's identity. */
  datatype Opening = LookupFails | NoIdentity | NoUrl | MintFails | Opens(s: SocketId)

  function Disposed(r: Relay): Relay
  {
    if r.socket.None? then r
    else
      var s := r.socket.value;
      r.(socket := None, sockets := if s in r.sockets then r.sockets[s := r.sockets[s].(disposed := true)] else r.sockets)
  }

  function IdentityAnswered(r: Relay, c: CallId, o: Opening): Relay
  {
    match o
    case LookupFails => r.(calls := r.calls[c := Returned])
    case NoIdentity => r.(state := Uncovered, calls := r.calls[c := Returned])
    case NoUrl => r.(state := Uncovered, calls := r.calls[c := Returned])
    case MintFails =>
      var d := if r.socket.Some? then Disposed(r).(listenersAttached := false) else r;
      d.(state := Uncovered, calls := r.calls[c := Returned])
    case Opens(s) =>
      var d := if r.socket.Some? then Disposed(r).(listenersAttached := false) else r;
      d.(state := Connecting, socket := Some(s), sockets := d.sockets[s := Socket(0, false)],
         calls := r.calls[c := AwaitSocket(s)])
  }

  /** `finish()`: whichever call waits for socket `s` comes back. */
  function Finish(calls: map<CallId, Phase>, s: SocketId): map<CallId, Phase>
  {
    map c | c in calls :: if calls[c] == AwaitSocket(s) then Returned else calls[c]
  }

  function ListenersAttached(r: Relay): Relay
  {
    if r.socket.None? || r.listenersAttached || r.socket.value !in r.sockets then r
    else
      var s := r.socket.value;
      r.(listenersAttached := true, sockets := r.sockets[s := r.sockets[s].(handlers := r.sockets[s].handlers + 1)])
  }

  function ReconnectScheduled(r: Relay, t: TimerId, jitter: nat): Relay
  {
    if r.reconnectTimer.Some? then r
    else
      r.(waits := r.waits + [Min(r.backoffMs, BACKOFF_MAX) + jitter],
         backoffMs := Min(r.backoffMs * 2, BACKOFF_MAX),
         reconnectTimer := Some(t),
         timers := r.timers + {t})
  }

  function JoinAccepted(r: Relay, s: SocketId): Relay
  {
    var j := ListenersAttached(r.(state := Joined, backoffMs := BACKOFF_MIN, waits := []));
    j.(calls := Finish(j.calls, s))
  }

  function JoinForbidden(r: Relay, s: SocketId): Relay
  {
    r.(state := Uncovered, calls := Finish(r.calls, s))
  }

  /** A refused join or a connection error: back off and try again later. */
  function ConnectFailed(r: Relay, s: SocketId, t: TimerId, jitter: nat): Relay
  {
    var b := ReconnectScheduled(r.(state := Backoff), t, jitter);
    b.(calls := Finish(b.calls, s))
  }

  function Disconnected(r: Relay, t: TimerId, jitter: nat): Relay
  {
    ReconnectScheduled(r.(state := Reconnecting), t, jitter)
  }

  function TimerFired(r: Relay, t: TimerId): Relay
  {
    r.(reconnectTimer := None, timers := r.timers - {t})
  }

  function FinallyRan(r: Relay, c: CallId): Relay
  {
    r.(connectPromise := false, calls := r.calls - {c})
  }

  /** `teardown` of the menu: the mapped relay is shut down, and the lock released whether there was one or not. */
  function TornDown(r: Relay): Relay
  {
    if !r.mapped then r.(locked := false)
    else
      var u := if r.reconnectTimer.Some? then r.(reconnectTimer := None, timers := r.timers - {r.reconnectTimer.value}) else r;
      Disposed(u).(state := Absent, mapped := false, locked := false)
  }

  // --------------------------------------------------------------------- runs

  datatype Step =
    | Acquires(c: CallId)
    | LockAnswers(c: CallId, reply: LockReply)
    | IdentityAnswers(c: CallId, o: Opening)
    | JoinOk(s: SocketId)
    | JoinDenied(s: SocketId)
    | ConnectFails(s: SocketId, t: TimerId, jitter: nat)
    | Disconnects(t: TimerId, jitter: nat)
    | TimerFires(t: TimerId)
    | FinallyRuns(c: CallId)
    | TearsDown
    // Another object's refused call has deleted the menu's entry.
    | Forgotten
    // Another object's call has been granted the menu's lock.
    | LockTaken

  /**
   Socket events may come late, even for a socket already replaced, and a teardown may come at any
   await.  Only the mapped object is acquired.  A query is granted the lock only while the worker does
   not hold it (`AdvisoryLocks.HeldNeverOverwritten`).
   */
  predicate Enabled(r: Relay, step: Step)
  {
    match step
    case Acquires(c) => r.mapped && c !in r.calls
    case LockAnswers(c, reply) => c in r.calls && r.calls[c] == AwaitLock && (reply.Granted? ==> !r.locked)
    case IdentityAnswers(c, o) => c in r.calls && r.calls[c] == AwaitIdentity && (o.Opens? ==> o.s !in r.sockets)
    case JoinOk(s) => s in r.sockets
    case JoinDenied(s) => s in r.sockets
    case ConnectFails(s, t, jitter) => s in r.sockets && t !in r.timers && jitter < JITTER
    case Disconnects(t, jitter) => t !in r.timers && jitter < JITTER
    case TimerFires(t) => t in r.timers
    case FinallyRuns(c) => c in r.calls && r.calls[c] == Returned
    case TearsDown => true
    case Forgotten => true
    case LockTaken => !r.locked
  }

  function Apply(r: Relay, step: Step): Relay
    requires Enabled(r, step)
  {
    match step
    case Acquires(c) => Acquire(r, c)
    case LockAnswers(c, reply) => LockAnswered(r, c, reply)
    case IdentityAnswers(c, o) => IdentityAnswered(r, c, o)
    case JoinOk(s) => JoinAccepted(r, s)
    case JoinDenied(s) => JoinForbidden(r, s)
    case ConnectFails(s, t, jitter) => ConnectFailed(r, s, t, jitter)
    case Disconnects(t, jitter) => Disconnected(r, t, jitter)
    case TimerFires(t) => TimerFired(r, t)
    case FinallyRuns(c) => FinallyRan(r, c)
    case TearsDown => TornDown(r)
    case Forgotten => r.(mapped := false)
    case LockTaken => r.(locked := true)
  }

  ghost predicate Run(r: Relay, steps: seq<Step>, q: Relay)
    decreases |steps|
  {
    if steps == [] then r == q
    else Enabled(r, steps[0]) && Run(Apply(r, steps[0]), steps[1..], q)
  }

  ghost predicate Reachable(r: Relay)
  {
    exists steps :: Run(NewRelay, steps, r)
  }

  /** The base delay of the n-th reconnect in a row. */
  function BaseDelay(n: nat): nat
  {
    Min(BACKOFF_MIN * Pow2(n), BACKOFF_MAX)
  }

  ghost predicate OneCall(r: Relay)
  {
    && (r.connectPromise <==> r.calls != map[])
    && (forall c, d :: c in r.calls && d in r.calls ==> c == d)
  }

  ghost predicate OneSocket(r: Relay)
  {
    && (r.socket.Some? ==> r.socket.value in r.sockets)
    && (forall s :: s in r.sockets && !r.sockets[s].disposed ==> r.socket == Some(s))
    && (forall s :: s in r.sockets ==> r.sockets[s].handlers <= 1)
    && (r.socket.Some? && !r.listenersAttached ==> r.sockets[r.socket.value].handlers == 0)
  }

  /** The timers armed are the one remembered, or none. */
  ghost predicate ArmedIs(timers: set<TimerId>, reconnectTimer: Option<TimerId>)
  {
    forall t :: t in timers <==> reconnectTimer == Some(t)
  }

  ghost predicate OneTimer(r: Relay)
  {
    ArmedIs(r.timers, r.reconnectTimer)
  }

  ghost predicate BackoffLaw(backoffMs: nat, waits: seq<nat>)
  {
    && backoffMs == BaseDelay(|waits|)
    && (forall n :: 0 <= n < |waits| ==> BaseDelay(n) <= waits[n] < BaseDelay(n) + JITTER)
  }

  ghost predicate BackoffDoubles(r: Relay)
  {
    BackoffLaw(r.backoffMs, r.waits)
  }

  predicate NoneAt(calls: map<CallId, Phase>, p: Phase)
  {
    forall c :: c in calls ==> calls[c] != p
  }

  /** The mark that handlers are on is set, and the current socket, if any, has none. */
  predicate Deaf(r: Relay)
  {
    r.listenersAttached && !(r.socket.Some? && r.socket.value in r.sockets && r.sockets[r.socket.value].handlers == 1)
  }

  /** While the relay is in the map, whatever it has built on the lock, the worker still has it. */
  ghost predicate MappedSound(r: Relay)
  {
    && (r.mapped && r.sockets != map[] ==> r.locked && NoneAt(r.calls, AwaitLock))
    && (r.mapped && !NoneAt(r.calls, AwaitIdentity) ==> r.locked)
    && (r.state == Joined || r.listenersAttached || r.socket.Some? ==> r.sockets != map[])
    && (Deaf(r) ==> !r.mapped && NoneAt(r.calls, AwaitLock))
  }

  ghost predicate Inv(r: Relay)
  {
    OneCall(r) && OneSocket(r) && OneTimer(r) && BackoffDoubles(r) && MappedSound(r)
  }

  /** Steps of the calls and timers, which touch no socket. */
  predicate IsCallStep(step: Step)
  {
    step.Acquires? || step.LockAnswers? || step.FinallyRuns? || step.TimerFires? || step.Forgotten? || step.LockTaken?
  }

  /** A socket's bad news, which touches only the state, the timer and the calls. */
  predicate IsBadNews(step: Step)
  {
    step.JoinDenied? || step.ConnectFails? || step.Disconnects?
  }

  lemma CallStepFrame(r: Relay, step: Step)
    requires Enabled(r, step) && IsCallStep(step)
    ensures var q := Apply(r, step);
      && q.state == r.state && q.socket == r.socket && q.sockets == r.sockets
      && q.listenersAttached == r.listenersAttached && q.backoffMs == r.backoffMs && q.waits == r.waits
  {
  }

  lemma BadNewsFrame(r: Relay, step: Step)
    requires Enabled(r, step) && IsBadNews(step)
    ensures var q := Apply(r, step);
      && q.state != Joined && q.socket == r.socket && q.sockets == r.sockets
      && q.listenersAttached == r.listenersAttached && q.mapped == r.mapped
  {
  }

  lemma FinishKeepsCalls(calls: map<CallId, Phase>, s: SocketId)
    ensures Finish(calls, s).Keys == calls.Keys
    ensures Finish(calls, s) == map[] <==> calls == map[]
  {
    if calls != map[] {
      assert calls.Keys != {};
    }
  }

  lemma SameCalls(r: Relay, q: Relay)
    requires OneCall(r) && q.connectPromise == r.connectPromise && q.calls.Keys == r.calls.Keys
    ensures OneCall(q)
  {
    assert q.calls == map[] <==> q.calls.Keys == {};
    assert r.calls == map[] <==> r.calls.Keys == {};
  }

  lemma EventKeepsCalls(r: Relay, step: Step)
    requires OneCall(r) && Enabled(r, step) && !IsCallStep(step)
    ensures OneCall(Apply(r, step))
  {
    if step.JoinOk? || step.JoinDenied? || step.ConnectFails? {
      FinishKeepsCalls(r.calls, step.s);
    }
    SameCalls(r, Apply(r, step));
  }

  lemma StepKeepsCalls(r: Relay, step: Step)
    requires OneCall(r) && Enabled(r, step)
    ensures OneCall(Apply(r, step))
  {
    match step
    case Acquires(c) => assert c in r.calls[c := if r.locked then AwaitIdentity else AwaitLock];
    case LockAnswers(c, _) => SameCalls(r, Apply(r, step));
    case FinallyRuns(c) => assert r.calls - {c} == map[];
    case TimerFires(_) =>
    case Forgotten =>
    case LockTaken =>
    case _ => EventKeepsCalls(r, step);
  }

  lemma DisposedKeepsSockets(r: Relay)
    requires OneSocket(r)
    ensures OneSocket(Disposed(r)) && Disposed(r).socket.None?
    ensures forall s :: s in Disposed(r).sockets ==> Disposed(r).sockets[s].disposed
    ensures Disposed(r).sockets.Keys == r.sockets.Keys
  {
  }

  lemma OpenedKeepsSockets(r: Relay, c: CallId, o: Opening)
    requires OneSocket(r) && (o.Opens? ==> o.s !in r.sockets)
    ensures OneSocket(IdentityAnswered(r, c, o))
  {
    match o
    case MintFails => DisposedKeepsSockets(r);
    case Opens(s) =>
      DisposedKeepsSockets(r);
      NewSocketIsOnlyOne(Disposed(r).sockets, s, IdentityAnswered(r, c, o));
    case _ => SameSockets(r, IdentityAnswered(r, c, o));
  }

  lemma NewSocketIsOnlyOne(before: map<SocketId, Socket>, s: SocketId, q: Relay)
    requires forall x :: x in before ==> before[x].disposed && before[x].handlers <= 1
    requires q.socket == Some(s) && q.sockets == before[s := Socket(0, false)]
    ensures OneSocket(q)
  {
  }

  lemma AttachedKeepsSockets(r: Relay)
    requires OneSocket(r)
    ensures OneSocket(ListenersAttached(r))
  {
  }

  lemma StepKeepsSockets(r: Relay, step: Step)
    requires OneSocket(r) && Enabled(r, step)
    ensures OneSocket(Apply(r, step))
  {
    if IsCallStep(step) {
      CallStepFrame(r, step);
      SameSockets(r, Apply(r, step));
    } else if IsBadNews(step) {
      BadNewsFrame(r, step);
      SameSockets(r, Apply(r, step));
    } else {
      match step
      case IdentityAnswers(c, o) => OpenedKeepsSockets(r, c, o);
      case JoinOk(s) => AttachedKeepsSockets(r.(state := Joined, backoffMs := BACKOFF_MIN, waits := []));
      case TearsDown => DisposedKeepsSockets(r);
    }
  }

  lemma SameSockets(r: Relay, q: Relay)
    requires OneSocket(r) && q.sockets == r.sockets && q.socket == r.socket && q.listenersAttached == r.listenersAttached
    ensures OneSocket(q)
  {
  }

  lemma ScheduledKeepsTimers(r: Relay, t: TimerId, jitter: nat)
    requires OneTimer(r)
    ensures OneTimer(ReconnectScheduled(r, t, jitter))
  {
  }

  /** Steps that have nothing to do with timers. */
  lemma TimersFrame(r: Relay, step: Step)
    requires Enabled(r, step) && (step.Acquires? || step.LockAnswers? || step.FinallyRuns? || step.Forgotten? || step.LockTaken?)
    ensures Apply(r, step).timers == r.timers && Apply(r, step).reconnectTimer == r.reconnectTimer
  {
  }

  lemma StepKeepsTimers(r: Relay, step: Step)
    requires OneTimer(r) && Enabled(r, step)
    ensures OneTimer(Apply(r, step))
  {
    match step
    case ConnectFails(s, t, jitter) => ScheduledKeepsTimers(r.(state := Backoff), t, jitter);
    case Disconnects(t, jitter) => ScheduledKeepsTimers(r.(state := Reconnecting), t, jitter);
    case IdentityAnswers(c, o) =>
      assert IdentityAnswered(r, c, o).timers == r.timers && IdentityAnswered(r, c, o).reconnectTimer == r.reconnectTimer;
    case JoinOk(s) =>
      assert JoinAccepted(r, s).timers == r.timers && JoinAccepted(r, s).reconnectTimer == r.reconnectTimer;
    case JoinDenied(s) =>
      assert JoinForbidden(r, s).timers == r.timers && JoinForbidden(r, s).reconnectTimer == r.reconnectTimer;
    case TimerFires(t) => FiredKeepsTimers(r, t);
    case TearsDown => TornDownKeepsTimers(r);
    case _ => TimersFrame(r, step);
  }

  lemma FiredKeepsTimers(r: Relay, t: TimerId)
    requires OneTimer(r) && t in r.timers
    ensures OneTimer(TimerFired(r, t))
  {
  }

  lemma TornDownKeepsTimers(r: Relay)
    requires OneTimer(r)
    ensures OneTimer(TornDown(r))
  {
  }

  lemma BaseDelayDoubles(n: nat)
    ensures BaseDelay(n + 1) == Min(BaseDelay(n) * 2, BACKOFF_MAX)
  {
  }

  lemma LongerWaits(backoffMs: nat, waits: seq<nat>, jitter: nat)
    requires BackoffLaw(backoffMs, waits) && jitter < JITTER
    ensures BackoffLaw(Min(backoffMs * 2, BACKOFF_MAX), waits + [Min(backoffMs, BACKOFF_MAX) + jitter])
  {
    BaseDelayDoubles(|waits|);
  }

  lemma ScheduledKeepsBackoff(r: Relay, t: TimerId, jitter: nat)
    requires BackoffDoubles(r) && jitter < JITTER
    ensures BackoffDoubles(ReconnectScheduled(r, t, jitter))
  {
    LongerWaits(r.backoffMs, r.waits, jitter);
  }

  lemma FailedKeepsBackoff(r: Relay, s: SocketId, t: TimerId, jitter: nat)
    requires BackoffDoubles(r) && jitter < JITTER
    ensures BackoffDoubles(ConnectFailed(r, s, t, jitter)) && BackoffDoubles(Disconnected(r, t, jitter))
  {
    ScheduledKeepsBackoff(r.(state := Backoff), t, jitter);
    ScheduledKeepsBackoff(r.(state := Reconnecting), t, jitter);
  }

  lemma JoinedStartsOver(r: Relay, s: SocketId)
    ensures BackoffDoubles(JoinAccepted(r, s))
  {
    assert BackoffLaw(BACKOFF_MIN, []);
    assert JoinAccepted(r, s).waits == [] && JoinAccepted(r, s).backoffMs == BACKOFF_MIN;
  }

  lemma StepKeepsBackoff(r: Relay, step: Step)
    requires BackoffDoubles(r) && Enabled(r, step)
    ensures BackoffDoubles(Apply(r, step))
  {
    if IsCallStep(step) {
      CallStepFrame(r, step);
    } else {
      match step
      case ConnectFails(s, t, jitter) => FailedKeepsBackoff(r, s, t, jitter);
      case Disconnects(t, jitter) => FailedKeepsBackoff(r, 0, t, jitter);
      case JoinOk(s) => JoinedStartsOver(r, s);
      case IdentityAnswers(c, o) => assert IdentityAnswered(r, c, o).waits == r.waits;
      case JoinDenied(s) => assert JoinForbidden(r, s).waits == r.waits;
      case TearsDown => assert TornDown(r).waits == r.waits;
    }
  }

  lemma CallStepKeepsMapped(r: Relay, step: Step)
    requires OneCall(r) && MappedSound(r) && Enabled(r, step) && IsCallStep(step)
    ensures MappedSound(Apply(r, step))
  {
    var q := Apply(r, step);
    CallStepFrame(r, step);
    assert q.mapped ==> r.mapped && (r.locked ==> q.locked);
    assert q.mapped && r.sockets != map[] ==> NoneAt(q.calls, AwaitLock);
    assert Deaf(q) ==> Deaf(r) && NoneAt(q.calls, AwaitLock);
    assert q.mapped && !NoneAt(q.calls, AwaitIdentity) ==> q.locked;
  }

  lemma OpenStepKeepsMapped(r: Relay, c: CallId, o: Opening)
    requires OneCall(r) && OneSocket(r) && MappedSound(r) && Enabled(r, IdentityAnswers(c, o))
    ensures MappedSound(IdentityAnswered(r, c, o))
  {
    var q := IdentityAnswered(r, c, o);
    assert q.calls.Keys == r.calls.Keys && NoneAt(q.calls, AwaitLock) && NoneAt(q.calls, AwaitIdentity);
    assert q.mapped == r.mapped && q.locked == r.locked && (r.mapped ==> r.locked);
    assert r.sockets != map[] ==> exists s :: s in r.sockets;
    if o.Opens? {
      assert o.s in q.sockets;
    }
    assert Deaf(q) ==> Deaf(r);
    assert q.sockets == map[] ==> r.sockets == map[];
  }

  lemma EventKeepsMapped(r: Relay, step: Step)
    requires OneSocket(r) && MappedSound(r) && Enabled(r, step) && IsBadNews(step)
    ensures MappedSound(Apply(r, step))
  {
    var q := Apply(r, step);
    BadNewsFrame(r, step);
    assert q.locked == r.locked;
    assert forall c :: c in q.calls && q.calls[c] != Returned ==> c in r.calls && q.calls[c] == r.calls[c];
  }

  lemma JoinKeepsMapped(r: Relay, s: SocketId)
    requires OneSocket(r) && MappedSound(r) && s in r.sockets
    ensures MappedSound(JoinAccepted(r, s))
  {
    var q := JoinAccepted(r, s);
    assert forall c :: c in q.calls && q.calls[c] != Returned ==> c in r.calls && q.calls[c] == r.calls[c];
    assert s in q.sockets;
    assert Deaf(q) ==> Deaf(r);
  }

  lemma TearDownKeepsMapped(r: Relay)
    requires OneSocket(r) && MappedSound(r)
    ensures MappedSound(TornDown(r))
  {
    var q := TornDown(r);
    DisposedKeepsSockets(r);
    assert q.calls == r.calls && q.listenersAttached == r.listenersAttached;
    assert q.sockets.Keys == r.sockets.Keys;
    assert q.sockets == map[] ==> r.sockets.Keys == {} && r.sockets == map[];
  }

  lemma StepKeepsMapped(r: Relay, step: Step)
    requires OneCall(r) && OneSocket(r) && MappedSound(r) && Enabled(r, step)
    ensures MappedSound(Apply(r, step))
  {
    if IsCallStep(step) {
      CallStepKeepsMapped(r, step);
    } else if IsBadNews(step) {
      EventKeepsMapped(r, step);
    } else {
      match step
      case IdentityAnswers(c, o) => OpenStepKeepsMapped(r, c, o);
      case JoinOk(s) => JoinKeepsMapped(r, s);
      case TearsDown => TearDownKeepsMapped(r);
    }
  }

  lemma StepKeeps(r: Relay, step: Step)
    requires Inv(r) && Enabled(r, step)
    ensures Inv(Apply(r, step))
  {
    StepKeepsMapped(r, step);
    StepKeepsCalls(r, step);
    StepKeepsSockets(r, step);
    StepKeepsTimers(r, step);
    StepKeepsBackoff(r, step);
  }

  lemma {:induction false} RunKeeps(r: Relay, steps: seq<Step>, q: Relay)
    requires Inv(r) && Run(r, steps, q)
    ensures Inv(q)
    decreases |steps|
  {
    if steps != [] {
      StepKeeps(r, steps[0]);
      RunKeeps(Apply(r, steps[0]), steps[1..], q);
    }
  }

  lemma ReachableInv(r: Relay)
    requires Reachable(r)
    ensures Inv(r)
  {
    var steps :| Run(NewRelay, steps, r);
    RunKeeps(NewRelay, steps, r);
  }

  // --------------------------------------------------------- the relay object

  class MenuRelay {
    var mapped: bool
    var state: RelayState
    var socket: Option<SocketId>
    var connectPromise: bool
    var listenersAttached: bool
    var backoffMs: nat
    var reconnectTimer: Option<TimerId>
    var sockets: map<SocketId, Socket>
    var timers: set<TimerId>
    var calls: map<CallId, Phase>
    var waits: seq<nat>
    var locked: bool

    function State(): Relay
      reads this
    {
      Relay(mapped, state, socket, connectPromise, listenersAttached, backoffMs, reconnectTimer, sockets, timers, calls, waits, locked)
    }

    /** Single flight, one socket not disposed of, one timer, and the backoff law. */
    ghost predicate Valid()
      reads this
    {
      Inv(State())
    }

    constructor ()
      ensures Valid() && State() == NewRelay
    {
      mapped := true;
      state, socket, connectPromise, listenersAttached := Absent, None, false, false;
      backoffMs, reconnectTimer := BACKOFF_MIN, None;
      sockets, timers, calls, waits, locked := map[], {}, map[], [], false;
    }

    method AcquireStep(c: CallId)
      modifies this
      ensures State() == Acquire(old(State()), c)
    {
      if state == Joined || state == Connecting {
        return;
      }
      if connectPromise {
        return;
      }
      connectPromise := true;
      calls := calls[c := if locked then AwaitIdentity else AwaitLock];
    }

    method LockStep(c: CallId, reply: LockReply)
      modifies this
      ensures State() == LockAnswered(old(State()), c, reply)
    {
      match reply {
        case Granted =>
          locked := true;
          calls := calls[c := AwaitIdentity];
        case Refused =>
          mapped := false;
          calls := calls[c := Returned];
        case Rejected =>
          calls := calls[c := Returned];
      }
    }

    method Dispose()
      modifies this
      ensures State() == Disposed(old(State()))
    {
      if socket.Some? {
        var s := socket.value;
        if s in sockets {
          sockets := sockets[s := sockets[s].(disposed := true)];
        }
        socket := None;
      }
    }

    method OpenStep(c: CallId, o: Opening)
      modifies this
      ensures State() == IdentityAnswered(old(State()), c, o)
    {
      match o {
        case LookupFails =>
          calls := calls[c := Returned];
        case NoIdentity =>
          state := Uncovered;
          calls := calls[c := Returned];
        case NoUrl =>
          state := Connecting;
          state := Uncovered;
          calls := calls[c := Returned];
        case MintFails =>
          state := Connecting;
          if socket.Some? {
            Dispose();
            listenersAttached := false;
          }
          state := Uncovered;
          calls := calls[c := Returned];
        case Opens(s) =>
          state := Connecting;
          if socket.Some? {
            Dispose();
            listenersAttached := false;
          }
          sockets := sockets[s := Socket(0, false)];
          socket := Some(s);
          calls := calls[c := AwaitSocket(s)];
      }
    }

    method AttachListeners()
      modifies this
      ensures State() == ListenersAttached(old(State()))
    {
      if socket.None? || listenersAttached || socket.value !in sockets {
        return;
      }
      listenersAttached := true;
      var s := socket.value;
      sockets := sockets[s := sockets[s].(handlers := sockets[s].handlers + 1)];
    }

    /** Under the backoff law a wait is scheduled only when no timer is armed, and lies in its capped exponential band. */
    method ScheduleReconnect(t: TimerId, jitter: nat)
      modifies this
      ensures State() == ReconnectScheduled(old(State()), t, jitter)
      ensures old(BackoffDoubles(State())) && jitter < JITTER ==>
        && BackoffDoubles(State())
        && waits[..|old(waits)|] == old(waits)
        && |waits| == |old(waits)| + (if old(reconnectTimer).None? then 1 else 0)
    {
      if jitter < JITTER && BackoffDoubles(State()) {
        ScheduledKeepsBackoff(State(), t, jitter);
      }
      if reconnectTimer.Some? {
        return;
      }
      var delay := Min(backoffMs, BACKOFF_MAX) + jitter;
      backoffMs := Min(backoffMs * 2, BACKOFF_MAX);
      reconnectTimer := Some(t);
      timers := timers + {t};
      waits := waits + [delay];
    }

    method JoinAcceptedStep(s: SocketId)
      modifies this
      ensures State() == JoinAccepted(old(State()), s)
    {
      state := Joined;
      backoffMs := BACKOFF_MIN;
      waits := [];
      AttachListeners();
      calls := Finish(calls, s);
    }

    method ConnectFailedStep(s: SocketId, t: TimerId, jitter: nat)
      modifies this
      ensures State() == ConnectFailed(old(State()), s, t, jitter)
    {
      state := Backoff;
      ScheduleReconnect(t, jitter);
      calls := Finish(calls, s);
    }

    method JoinForbiddenStep(s: SocketId)
      modifies this
      ensures State() == JoinForbidden(old(State()), s)
    {
      state := Uncovered;
      calls := Finish(calls, s);
    }

    method DisconnectedStep(t: TimerId, jitter: nat)
      modifies this
      ensures State() == Disconnected(old(State()), t, jitter)
    {
      state := Reconnecting;
      ScheduleReconnect(t, jitter);
    }

    method TimerStep(t: TimerId)
      modifies this
      ensures State() == TimerFired(old(State()), t)
    {
      reconnectTimer := None;
      timers := timers - {t};
    }

    method FinallyStep(c: CallId)
      modifies this
      ensures State() == FinallyRan(old(State()), c)
    {
      connectPromise := false;
      calls := calls - {c};
    }

    method Teardown()
      modifies this
      ensures State() == TornDown(old(State()))
    {
      if !mapped {
        locked := false;
        return;
      }
      if reconnectTimer.Some? {
        timers := timers - {reconnectTimer.value};
        reconnectTimer := None;
      }
      Dispose();
      state := Absent;
      mapped := false;
      locked := false;
    }

    /** Whatever stretch of code runs next, it is the protocol's step, and the object stays valid. */
    method Perform(step: Step)
      requires Valid() && Enabled(State(), step)
      modifies this
      ensures Valid() && State() == Apply(old(State()), step)
    {
      StepKeeps(State(), step);
      match step {
        case Acquires(c) => AcquireStep(c);
        case LockAnswers(c, reply) => LockStep(c, reply);
        case IdentityAnswers(c, o) => OpenStep(c, o);
        case JoinOk(s) => JoinAcceptedStep(s);
        case JoinDenied(s) => JoinForbiddenStep(s);
        case ConnectFails(s, t, jitter) => ConnectFailedStep(s, t, jitter);
        case Disconnects(t, jitter) => DisconnectedStep(t, jitter);
        case TimerFires(t) => TimerStep(t);
        case FinallyRuns(c) => FinallyStep(c);
        case TearsDown => Teardown();
        case Forgotten => mapped := false;
        case LockTaken => locked := true;
      }
    }
  }

  // ------------------------------------------------------------ main results

  /** Single flight: never two `connectRelay` calls of one relay in progress. */
  lemma OneConnectInProgress(r: Relay, c: CallId, d: CallId)
    requires Reachable(r) && c in r.calls && d in r.calls
    ensures c == d && r.connectPromise
  {
    ReachableInv(r);
  }

  /** A relay never owns two sockets that were not disposed of, and no socket gets its handlers twice. */
  lemma OneLiveSocket(r: Relay, s: SocketId, q: SocketId)
    requires Reachable(r) && s in r.sockets && q in r.sockets
    ensures !r.sockets[s].disposed && !r.sockets[q].disposed ==> s == q
    ensures r.sockets[s].handlers <= 1
  {
    ReachableInv(r);
  }

  /** At most one reconnect timer is armed. */
  lemma OneReconnectTimer(r: Relay, t: TimerId, u: TimerId)
    requires Reachable(r) && t in r.timers && u in r.timers
    ensures t == u
  {
    ReachableInv(r);
  }

  /** The n-th reconnect in a row waits min(1000 * 2^n, 60000) ms plus a jitter below 250. */
  lemma BackoffIsCappedExponential(r: Relay, n: nat)
    requires Reachable(r) && n < |r.waits|
    ensures Min(1000 * Pow2(n), 60_000) <= r.waits[n] < Min(1000 * Pow2(n), 60_000) + 250
    ensures n >= 6 ==> 60_000 <= r.waits[n]
  {
    ReachableInv(r);
    if n >= 6 {
      SixDoublings(n);
    }
  }

  lemma {:induction false} SixDoublings(n: nat)
    requires n >= 6
    ensures Pow2(n) >= 64
  {
    if n == 6 {
      assert Pow2(3) == 8;
    } else {
      SixDoublings(n - 1);
    }
  }

  // ------------------------------------------------- what each answer brings about

  /** A call is started exactly when the relay is neither up nor coming up and no call is under way. */
  lemma AcquiredExactly(r: Relay, c: CallId)
    requires Reachable(r) && Enabled(r, Acquires(c))
    ensures var q := Apply(r, Acquires(c));
      if r.state != Joined && r.state != Connecting && r.calls == map[]
      then q.connectPromise && q.calls == map[c := if r.locked then AwaitIdentity else AwaitLock]
      else q == r
  {
    ReachableInv(r);
    if r.state != Joined && r.state != Connecting && r.calls == map[] {
      assert Apply(r, Acquires(c)).calls == map[c := if r.locked then AwaitIdentity else AwaitLock];
    }
  }

  /** The step is the last the call waits for. */
  predicate EndsCall(r: Relay, step: Step, c: CallId)
    requires c in r.calls
  {
    || step == LockAnswers(c, Refused) || step == LockAnswers(c, Rejected)
    || (step.IdentityAnswers? && step.c == c && !step.o.Opens?)
    || ((step.JoinOk? || step.JoinDenied? || step.ConnectFails?) && r.calls[c] == AwaitSocket(step.s))
  }

  /** The call then comes back, and once its `finally` has run the relay is free for the next one. */
  lemma EndedCallComesBack(r: Relay, step: Step, c: CallId)
    requires Reachable(r) && Enabled(r, step) && c in r.calls && EndsCall(r, step, c)
    ensures var q := Apply(r, step);
      && Enabled(q, FinallyRuns(c))
      && Apply(q, FinallyRuns(c)).calls == map[] && !Apply(q, FinallyRuns(c)).connectPromise
  {
    var q := Apply(r, step);
    assert OneCall(q) by {
      ReachableInv(r);
      StepKeeps(r, step);
    }
    CallIsReturned(r, step, c);
    assert forall d :: d in q.calls ==> d == c;
    assert q.calls - {c} == map[];
  }

  lemma CallIsReturned(r: Relay, step: Step, c: CallId)
    requires Enabled(r, step) && c in r.calls && EndsCall(r, step, c)
    ensures c in Apply(r, step).calls && Apply(r, step).calls[c] == Returned
  {
    match step
    case LockAnswers(_, reply) => assert LockAnswered(r, c, reply).calls[c] == Returned;
    case IdentityAnswers(_, o) => assert IdentityAnswered(r, c, o).calls[c] == Returned;
    case JoinOk(s) => assert JoinAccepted(r, s).calls == Finish(r.calls, s);
    case JoinDenied(s) => assert JoinForbidden(r, s).calls == Finish(r.calls, s);
    case ConnectFails(s, t, jitter) => assert ConnectFailed(r, s, t, jitter).calls == Finish(r.calls, s);
  }

  /** Without a lock the relay leaves the map; without a client it stays; without identity, address, token or leave to join it is uncovered. */
  lemma AnswersTell(r: Relay, step: Step)
    requires Enabled(r, step)
    ensures var q := Apply(r, step);
      && (step.LockAnswers? && step.reply.Refused? ==> !q.mapped)
      && (step.LockAnswers? && !step.reply.Refused? ==> q.mapped == r.mapped && q.locked == (r.locked || step.reply.Granted?))
      && (step.IdentityAnswers? && step.o.LookupFails? ==> q.state == r.state)
      && (step.IdentityAnswers? && (step.o.NoIdentity? || step.o.NoUrl? || step.o.MintFails?) ==> q.state == Uncovered)
      && (step.IdentityAnswers? && step.o.Opens? ==>
            && q.state == Connecting && q.socket == Some(step.o.s) && q.calls[step.c] == AwaitSocket(step.o.s)
            && q.sockets[step.o.s] == Socket(0, false))
      && (step.JoinOk? ==> q.state == Joined && q.waits == [])
      && (step.JoinDenied? ==> q.state == Uncovered)
  {
  }

  /** A failed connect and a lost connection each leave a timer armed: the one there was, or a new one with its wait recorded. */
  lemma FailureArmsTimer(r: Relay, step: Step)
    requires Reachable(r) && Enabled(r, step) && (step.ConnectFails? || step.Disconnects?)
    ensures var q := Apply(r, step);
      && q.reconnectTimer.Some? && q.timers == {q.reconnectTimer.value}
      && (if r.reconnectTimer.None? then q.reconnectTimer == Some(step.t) && |q.waits| == |r.waits| + 1
          else q.reconnectTimer == r.reconnectTimer && q.waits == r.waits)
      && q.waits[..|r.waits|] == r.waits
      && q.state == if step.ConnectFails? then Backoff else Reconnecting
  {
    ReachableInv(r);
    StepKeeps(r, step);
    var q := Apply(r, step);
    forall t: TimerId ensures t in q.timers <==> t in {q.reconnectTimer.value} {
      assert t in q.timers <==> q.reconnectTimer == Some(t);
    }
  }

  /** Backing off or reconnecting with no timer armed. */
  predicate Idle(r: Relay)
  {
    (r.state == Backoff || r.state == Reconnecting) && r.reconnectTimer.None?
  }

  predicate IsFailure(step: Step)
  {
    step.ConnectFails? || step.Disconnects?
  }

  /** The `i`-th step fired the timer or tore the menu down, and no failure came after it. */
  predicate FiredLast(steps: seq<Step>, i: nat)
  {
    && i < |steps| && (steps[i].TimerFires? || steps[i].TearsDown?)
    && forall j :: i < j < |steps| ==> !IsFailure(steps[j])
  }

  lemma StepIdles(r: Relay, step: Step)
    requires Inv(r) && Enabled(r, step) && Idle(Apply(r, step))
    ensures !IsFailure(step) && (Idle(r) || step.TimerFires? || step.TearsDown?)
  {
    if IsCallStep(step) {
      CallStepFrame(r, step);
    }
  }

  lemma {:induction false} IdleExplained(r: Relay, steps: seq<Step>, q: Relay)
    requires Inv(r) && Run(r, steps, q) && Idle(q)
    ensures (Idle(r) && forall j :: 0 <= j < |steps| ==> !IsFailure(steps[j])) || exists i: nat :: FiredLast(steps, i)
    decreases |steps|
  {
    if steps != [] {
      var next, rest := Apply(r, steps[0]), steps[1..];
      StepKeeps(r, steps[0]);
      IdleExplained(next, rest, q);
      assert forall j :: 0 <= j < |rest| ==> steps[j + 1] == rest[j];
      if i: nat :| FiredLast(rest, i) {
        assert FiredLast(steps, i + 1);
      } else {
        StepIdles(r, steps[0]);
        if !Idle(r) {
          assert FiredLast(steps, 0);
        }
      }
    }
  }

  /**
   Over every run: a relay that is backing off or reconnecting has a timer armed, unless the timer has
   fired or the menu was torn down since its last failure.
   */
  lemma FailedRelayRetries(steps: seq<Step>, q: Relay)
    requires Run(NewRelay, steps, q) && (q.state == Backoff || q.state == Reconnecting)
    ensures (q.reconnectTimer.Some? && q.timers == {q.reconnectTimer.value}) || exists i: nat :: FiredLast(steps, i)
  {
    RunKeeps(NewRelay, steps, q);
    if q.reconnectTimer.Some? {
      forall t: TimerId ensures t in q.timers <==> t in {q.reconnectTimer.value} {
        assert t in q.timers <==> q.reconnectTimer == Some(t);
      }
    } else {
      IdleExplained(NewRelay, steps, q);
    }
  }

  /** A teardown that finds the relay in the map leaves nothing of it: no timer, no live socket, no place in the map, no lock. */
  lemma TeardownLeavesNothing(r: Relay)
    requires Reachable(r) && r.mapped
    ensures var q := Apply(r, TearsDown);
      && q.timers == {} && q.reconnectTimer.None? && q.socket.None?
      && (forall s :: s in q.sockets ==> q.sockets[s].disposed)
      && q.state == Absent && !q.mapped && !q.locked
  {
    ReachableInv(r);
    var q := TornDown(r);
    StepKeeps(r, TearsDown);
    DisposedKeepsSockets(r);
    forall t: TimerId ensures t !in q.timers {
      assert t in q.timers <==> q.reconnectTimer == Some(t);
    }
  }

  // ------------------------------------------- what holds as long as every step keeps it

  /** `good` holds in the state a run starts in and in each it comes to. */
  ghost predicate Throughout(r: Relay, steps: seq<Step>, good: Relay -> bool)
    decreases |steps|
  {
    good(r) && (steps != [] ==> Enabled(r, steps[0]) && Throughout(Apply(r, steps[0]), steps[1..], good))
  }

  /** Each step of the run passes `guard` in the state it is taken in. */
  ghost predicate EachStep(r: Relay, steps: seq<Step>, guard: (Relay, Step) -> bool)
    decreases |steps|
  {
    steps != [] ==>
      Enabled(r, steps[0]) && guard(r, steps[0]) && EachStep(Apply(r, steps[0]), steps[1..], guard)
  }

  /** `guard` tells exactly which steps keep `good`. */
  ghost predicate GuardIsExact(good: Relay -> bool, guard: (Relay, Step) -> bool)
  {
    forall r, step :: Inv(r) && good(r) && Enabled(r, step) ==> (good(Apply(r, step)) <==> guard(r, step))
  }

  lemma {:induction false} ThroughoutExactly(r: Relay, steps: seq<Step>, q: Relay,
                                             good: Relay -> bool, guard: (Relay, Step) -> bool)
    requires Inv(r) && good(r) && Run(r, steps, q)
    requires GuardIsExact(good, guard)
    ensures Throughout(r, steps, good) <==> EachStep(r, steps, guard)
    ensures Throughout(r, steps, good) ==> good(q)
    decreases |steps|
  {
    if steps != [] {
      var next := Apply(r, steps[0]);
      StepKeeps(r, steps[0]);
      assert good(next) <==> guard(r, steps[0]);
      if good(next) {
        ThroughoutExactly(next, steps[1..], q, good, guard);
      }
    }
  }

  lemma {:induction false} RunSnoc(r: Relay, steps: seq<Step>, q: Relay, step: Step)
    requires Run(r, steps, q) && Enabled(q, step)
    ensures Run(r, steps + [step], Apply(q, step))
    decreases |steps|
  {
    if steps == [] {
      assert [step][1..] == [];
    } else {
      RunSnoc(Apply(r, steps[0]), steps[1..], q, step);
      assert (steps + [step])[1..] == steps[1..] + [step];
    }
  }

  lemma ReachableStep(r: Relay, step: Step)
    requires Reachable(r) && Enabled(r, step)
    ensures Reachable(Apply(r, step))
  {
    var steps :| Run(NewRelay, steps, r);
    RunSnoc(NewRelay, steps, r, step);
  }

  // --------------------------------------------------- joined, but is it locked?

  /** A relay in the supervisor's map that is joined, has a socket or is about to open one has the lock, over every run. */
  lemma MappedRelayHasLock(r: Relay)
    requires Reachable(r) && r.mapped
    requires r.state == Joined || r.socket.Some? || !NoneAt(r.calls, AwaitIdentity)
    ensures r.locked
  {
    ReachableInv(r);
  }

  /** The relay counts on its lock: it is joined, has a socket, or is about to be told its identity. */
  ghost predicate LockBacked(r: Relay)
  {
    && (r.state == Joined || r.socket.Some? ==> r.locked)
    && (!NoneAt(r.calls, AwaitIdentity) ==> r.locked)
  }

  /**
   A teardown must not overtake a call that has been told of the lock and awaits its identity, and must
   find the relay in the map unless it has come to nothing; a join answer must not come over a socket
   disposed of when the lock has gone.
   */
  ghost predicate KeepsLock(r: Relay, step: Step)
  {
    && (step.TearsDown? ==>
          && (r.mapped || (r.state != Joined && r.socket.None?))
          && NoneAt(r.calls, AwaitIdentity))
    && (step.JoinOk? && step.s in r.sockets && r.sockets[step.s].disposed ==> r.locked)
  }

  lemma CallStepKeepsLock(r: Relay, step: Step)
    requires LockBacked(r) && Enabled(r, step) && IsCallStep(step)
    ensures LockBacked(Apply(r, step))
  {
    CallStepFrame(r, step);
  }

  lemma EventKeepsLock(r: Relay, step: Step)
    requires LockBacked(r) && Enabled(r, step) && IsBadNews(step)
    ensures LockBacked(Apply(r, step))
  {
    var q := Apply(r, step);
    BadNewsFrame(r, step);
    assert q.locked == r.locked;
    assert forall c :: c in q.calls && q.calls[c] == AwaitIdentity ==> c in r.calls && r.calls[c] == AwaitIdentity;
  }

  lemma JoinKeepsLock(r: Relay, s: SocketId)
    requires OneSocket(r) && LockBacked(r) && s in r.sockets
    ensures LockBacked(JoinAccepted(r, s)) <==> r.locked || !r.sockets[s].disposed
  {
    var q := JoinAccepted(r, s);
    assert q.locked == r.locked && q.socket == r.socket && q.state == Joined;
    assert forall c :: c in q.calls && q.calls[c] == AwaitIdentity ==> c in r.calls && r.calls[c] == AwaitIdentity;
  }

  /** `KeepsLock` is exact: the guard fails precisely on the steps after which the relay counts on a lock it has not. */
  lemma StepKeepsLock(r: Relay, step: Step)
    requires OneSocket(r) && LockBacked(r) && Enabled(r, step)
    ensures LockBacked(Apply(r, step)) <==> KeepsLock(r, step)
  {
    if IsCallStep(step) {
      CallStepKeepsLock(r, step);
    } else if IsBadNews(step) {
      EventKeepsLock(r, step);
    } else {
      match step
      case IdentityAnswers(c, o) => assert IdentityAnswered(r, c, o).locked == r.locked;
      case JoinOk(s) => JoinKeepsLock(r, s);
      case TearsDown =>
        var q := TornDown(r);
        assert q.calls == r.calls && !q.locked;
        assert LockBacked(q) <==> q.state != Joined && q.socket.None? && NoneAt(q.calls, AwaitIdentity);
    }
  }

  /**
   Over every run of a relay object it counts only on a lock it has exactly when each step keeps to
   the guard; a relay joined is then locked.
   */
  lemma JoinedMeansLocked(steps: seq<Step>, q: Relay)
    requires Run(NewRelay, steps, q)
    ensures Throughout(NewRelay, steps, r => LockBacked(r)) <==> EachStep(NewRelay, steps, (r, step) => KeepsLock(r, step))
    ensures EachStep(NewRelay, steps, (r, step) => KeepsLock(r, step)) ==> (q.state == Joined ==> q.locked)
  {
    forall r, step | Inv(r) && LockBacked(r) && Enabled(r, step)
      ensures LockBacked(Apply(r, step)) <==> KeepsLock(r, step)
    {
      StepKeepsLock(r, step);
    }
    ThroughoutExactly(NewRelay, steps, q, r => LockBacked(r), (r, step) => KeepsLock(r, step));
  }

  /** And once a step has broken the guard, the relay can go on to be joined without a lock: nothing checks again. */
  lemma UnbackedRelayCanJoin(r: Relay, s: SocketId) returns (steps: seq<Step>, q: Relay)
    requires Inv(r) && !LockBacked(r) && s !in r.sockets
    ensures Run(r, steps, q) && q.state == Joined && !q.locked
  {
    steps, q := [], r;
    if r.state != Joined || r.locked {
      if r.socket.Some? && !r.locked {
        q := Apply(r, JoinOk(r.socket.value));
        RunSnoc(r, [], r, JoinOk(r.socket.value));
        steps := [] + [JoinOk(r.socket.value)];
      } else {
        var c :| c in r.calls && r.calls[c] == AwaitIdentity && !r.locked;
        var opens := IdentityAnswers(c, Opens(s));
        RunSnoc(r, [], r, opens);
        RunSnoc(r, [] + [opens], Apply(r, opens), JoinOk(s));
        steps, q := [] + [opens] + [JoinOk(s)], Apply(Apply(r, opens), JoinOk(s));
      }
    }
  }

  /** It does happen: a teardown after the lock is granted and before the identity is known. */
  lemma JoinedWithoutLock() returns (q: Relay)
    ensures Reachable(q) && q.state == Joined && !q.locked
  {
    assert Run(NewRelay, [], NewRelay);
    ReachableStep(NewRelay, Acquires(0));
    var asked := Apply(NewRelay, Acquires(0));
    ReachableStep(asked, LockAnswers(0, Granted));
    var granted := Apply(asked, LockAnswers(0, Granted));
    ReachableStep(granted, TearsDown);
    var gone := Apply(granted, TearsDown);
    ReachableStep(gone, IdentityAnswers(0, Opens(0)));
    var opening := Apply(gone, IdentityAnswers(0, Opens(0)));
    ReachableStep(opening, JoinOk(0));
    q := Apply(opening, JoinOk(0));
  }

  // ----------------------------------------------------- joined, but does it listen?

  /** The call may still open a socket. */
  predicate MayOpen(p: Phase)
  {
    p == AwaitLock || p == AwaitIdentity
  }

  /** The mark that handlers are on agrees with the socket, and a joined relay's socket has them. */
  ghost predicate Listening(r: Relay)
  {
    && (r.listenersAttached && r.socket.Some? ==>
          r.socket.value in r.sockets && r.sockets[r.socket.value].handlers == 1)
    && (r.state == Joined && r.socket.Some? ==> r.listenersAttached)
    && (r.listenersAttached && r.socket.None? ==> !r.mapped && forall c :: c in r.calls ==> !MayOpen(r.calls[c]))
  }

  /** A teardown of a relay with handlers must not overtake a call that has yet to open its socket. */
  ghost predicate KeepsListening(r: Relay, step: Step)
  {
    step.TearsDown? && r.mapped && r.listenersAttached ==> NoneAt(r.calls, AwaitIdentity)
  }

  lemma CallStepKeepsListening(r: Relay, step: Step)
    requires Listening(r) && Enabled(r, step) && IsCallStep(step)
    ensures Listening(Apply(r, step))
  {
    var q := Apply(r, step);
    CallStepFrame(r, step);
    assert r.listenersAttached && r.socket.None? ==> !q.mapped && forall c :: c in q.calls ==> !MayOpen(q.calls[c]);
  }

  lemma OpenStepKeepsListening(r: Relay, c: CallId, o: Opening)
    requires OneSocket(r) && Listening(r) && Enabled(r, IdentityAnswers(c, o))
    ensures Listening(IdentityAnswered(r, c, o))
  {
    var q := IdentityAnswered(r, c, o);
    assert r.socket.None? ==> !r.listenersAttached;
    assert q.socket.None? ==> !q.listenersAttached;
  }

  lemma BadNewsKeepsListening(r: Relay, step: Step)
    requires Listening(r) && Enabled(r, step) && IsBadNews(step)
    ensures Listening(Apply(r, step))
  {
    var q := Apply(r, step);
    BadNewsFrame(r, step);
    assert forall c :: c in q.calls && MayOpen(q.calls[c]) ==> c in r.calls && MayOpen(r.calls[c]);
  }

  lemma JoinKeepsListening(r: Relay, s: SocketId)
    requires OneSocket(r) && Listening(r)
    ensures Listening(JoinAccepted(r, s))
  {
    var q := JoinAccepted(r, s);
    assert forall c :: c in q.calls && MayOpen(q.calls[c]) ==> c in r.calls && MayOpen(r.calls[c]);
  }

  lemma TearDownKeepsListening(r: Relay)
    requires MappedSound(r) && Listening(r)
    ensures Listening(TornDown(r)) <==> KeepsListening(r, TearsDown)
  {
    var q := TornDown(r);
    assert q.calls == r.calls && q.listenersAttached == r.listenersAttached;
    if r.mapped {
      assert q.socket.None? && !q.mapped && q.state == Absent;
      assert r.listenersAttached ==> NoneAt(r.calls, AwaitLock);
    }
  }

  lemma StepKeepsListening(r: Relay, step: Step)
    requires OneSocket(r) && MappedSound(r) && Listening(r) && Enabled(r, step)
    ensures Listening(Apply(r, step)) <==> KeepsListening(r, step)
  {
    if IsCallStep(step) {
      CallStepKeepsListening(r, step);
    } else if IsBadNews(step) {
      BadNewsKeepsListening(r, step);
    } else {
      match step
      case IdentityAnswers(c, o) => OpenStepKeepsListening(r, c, o);
      case JoinOk(s) => JoinKeepsListening(r, s);
      case TearsDown => TearDownKeepsListening(r);
    }
  }

  /** As long as teardowns keep to that guard, and no longer, a joined relay's socket has its handlers, once. */
  lemma JoinedMeansListening(steps: seq<Step>, q: Relay)
    requires Run(NewRelay, steps, q)
    ensures Throughout(NewRelay, steps, r => Listening(r)) <==> EachStep(NewRelay, steps, (r, step) => KeepsListening(r, step))
    ensures EachStep(NewRelay, steps, (r, step) => KeepsListening(r, step)) && q.state == Joined && q.socket.Some? ==>
      q.socket.value in q.sockets && q.sockets[q.socket.value].handlers == 1
  {
    forall r, step | Inv(r) && Listening(r) && Enabled(r, step)
      ensures Listening(Apply(r, step)) <==> KeepsListening(r, step)
    {
      StepKeepsListening(r, step);
    }
    ThroughoutExactly(NewRelay, steps, q, r => Listening(r), (r, step) => KeepsListening(r, step));
  }

  /** Joined, on a socket that no handler listens to. */
  predicate JoinedDeaf(r: Relay)
  {
    && r.state == Joined && r.socket.Some?
    && r.socket.value in r.sockets && r.sockets[r.socket.value].handlers == 0
  }

  /** And once a teardown has broken the guard, the relay can go on to be joined on a socket without handlers. */
  lemma UnlisteningRelayCanJoin(r: Relay, s: SocketId) returns (steps: seq<Step>, q: Relay)
    requires Inv(r) && !Listening(r) && s !in r.sockets
    ensures Run(r, steps, q) && JoinedDeaf(q)
  {
    steps, q := [], r;
    if !JoinedDeaf(r) {
      if r.socket.Some? {
        var join := JoinOk(r.socket.value);
        RunSnoc(r, [], r, join);
        steps, q := [] + [join], Apply(r, join);
      } else {
        var c :| c in r.calls && MayOpen(r.calls[c]);
        assert Deaf(r) && r.calls[c] == AwaitIdentity;
        var opens := IdentityAnswers(c, Opens(s));
        RunSnoc(r, [], r, opens);
        RunSnoc(r, [] + [opens], Apply(r, opens), JoinOk(s));
        steps, q := [] + [opens] + [JoinOk(s)], Apply(Apply(r, opens), JoinOk(s));
      }
    }
  }

  /** A deaf relay is out of the map ... */
  lemma DeafRelayIsUnmapped(r: Relay)
    requires Reachable(r) && Deaf(r)
    ensures !r.mapped
  {
    ReachableInv(r);
  }

  lemma StepKeepsDeafUnlocked(r: Relay, step: Step)
    requires Inv(r) && Enabled(r, step) && step != LockTaken
    requires Deaf(r) ==> !r.locked
    ensures Deaf(Apply(r, step)) ==> !Apply(r, step).locked
  {
    var q := Apply(r, step);
    if IsCallStep(step) {
      CallStepFrame(r, step);
    } else if IsBadNews(step) {
      BadNewsFrame(r, step);
    }
    assert step.TearsDown? || (Deaf(q) ==> Deaf(r));
  }

  /** ... and without the lock: the teardown that made it deaf took both, and it asks for neither again. */
  lemma {:induction false} DeafRelayHasNoLock(r: Relay, steps: seq<Step>, q: Relay)
    requires Inv(r) && (Deaf(r) ==> !r.locked) && Run(r, steps, q)
    requires LockTaken !in steps
    ensures Deaf(q) ==> !q.mapped && !q.locked
    decreases |steps|
  {
    if steps != [] {
      assert steps[0] in steps && forall s :: s in steps[1..] ==> s in steps;
      StepKeeps(r, steps[0]);
      StepKeepsDeafUnlocked(r, steps[0]);
      DeafRelayHasNoLock(Apply(r, steps[0]), steps[1..], q);
    }
  }

  /** `teardown` does not clear the mark: a reconnect that it overtakes joins on a socket without handlers, and without the lock. */
  lemma JoinedButDeaf() returns (q: Relay)
    ensures Reachable(q) && JoinedDeaf(q) && q.listenersAttached && !q.mapped && !q.locked
  {
    var joined := JoinedFirst();
    ReachableStep(joined, Disconnects(0, 0));
    var lost := Apply(joined, Disconnects(0, 0));
    ReachableStep(lost, Acquires(1));
    var again := Apply(lost, Acquires(1));
    ReachableStep(again, TearsDown);
    var gone := Apply(again, TearsDown);
    ReachableStep(gone, IdentityAnswers(1, Opens(1)));
    var opening := Apply(gone, IdentityAnswers(1, Opens(1)));
    ReachableStep(opening, JoinOk(1));
    q := Apply(opening, JoinOk(1));
  }

  /** A first connect that went well. */
  lemma JoinedFirst() returns (q: Relay)
    ensures Reachable(q)
    ensures q == NewRelay.(state := Joined, socket := Some(0), listenersAttached := true,
                           sockets := map[0 := Socket(1, false)], locked := true)
  {
    assert Run(NewRelay, [], NewRelay);
    ReachableStep(NewRelay, Acquires(0));
    var asked := NewRelay.(connectPromise := true, calls := map[0 := AwaitLock]);
    ReachableStep(asked, LockAnswers(0, Granted));
    var granted := asked.(calls := map[0 := AwaitIdentity], locked := true);
    assert Apply(asked, LockAnswers(0, Granted)) == granted;
    ReachableStep(granted, IdentityAnswers(0, Opens(0)));
    var opening := granted.(state := Connecting, socket := Some(0), sockets := map[0 := Socket(0, false)],
                            calls := map[0 := AwaitSocket(0)]);
    assert Apply(granted, IdentityAnswers(0, Opens(0))) == opening;
    q := JoinsFirst(opening);
  }

  lemma JoinsFirst(opening: Relay) returns (q: Relay)
    requires Reachable(opening)
    requires opening == NewRelay.(state := Connecting, socket := Some(0), sockets := map[0 := Socket(0, false)],
                                  connectPromise := true, calls := map[0 := AwaitSocket(0)], locked := true)
    ensures Reachable(q)
    ensures q == opening.(state := Joined, listenersAttached := true, sockets := map[0 := Socket(1, false)],
                          connectPromise := false, calls := map[])
  {
    ReachableStep(opening, JoinOk(0));
    var up := opening.(state := Joined, listenersAttached := true, sockets := map[0 := Socket(1, false)],
                       calls := map[0 := Returned]);
    assert Apply(opening, JoinOk(0)) == up;
    ReachableStep(up, FinallyRuns(0));
    q := Apply(up, FinallyRuns(0));
    assert q.calls == map[];
  }
}
