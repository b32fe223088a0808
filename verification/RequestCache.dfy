/**
 The request-scoped GET cache (`coalesceRequestUpstream`).

 `RequestUpstreamStore` is the pair of maps one request carries, with the three stretches
 of code that touch them.  `Session` is one request's whole life: callers enter at any
 moment, factories answer in any order, and the promise continuations run one at a time.
 */
module RequestCache {
  import opened Wrappers

  type Key = string
  type CallId = nat
  type CallerId = nat

  /** An upstream response; `data` stands for its body. */
  datatype Upstream = Upstream(status: int, data: nat)

  /** What a factory's promise comes to. */
  datatype Outcome = Resolved(result: Upstream) | Rejected

  predicate Is2xx(r: Upstream)
  {
    200 <= r.status < 300
  }

  predicate Succeeded(o: Outcome)
  {
    o.Resolved? && o.result.status >= 200 && o.result.status <= 299
  }

  datatype Store = Store(inflight: map<Key, CallId>, settled: map<Key, Upstream>)

  /** What a caller does: take the settled value, await the call in flight, or start the factory. */
  datatype Decision = Bypass | Hit(result: Upstream) | Join(call: CallId) | Start

  function Decide(s: Store, key: Key): Decision
  {
    if key in s.settled then Hit(s.settled[key])
    else if key in s.inflight then Join(s.inflight[key])
    else Start
  }

  function Entered(s: Store, key: Key, newCall: CallId): Store
  {
    if Decide(s, key) == Start then s.(inflight := s.inflight[key := newCall]) else s
  }

  function Recorded(s: Store, key: Key, o: Outcome): Store
  {
    if o.Resolved? && Is2xx(o.result) then s.(settled := s.settled[key := o.result]) else s
  }

  function Cleared(s: Store, key: Key): Store
  {
    s.(inflight := s.inflight - {key})
  }

  class RequestUpstreamStore {
    var inflight: map<Key, CallId>
    var settled: map<Key, Upstream>

    function State(): Store
      reads this
    {
      Store(inflight, settled)
    }

    constructor ()
      ensures State() == Store(map[], map[])
    {
      inflight, settled := map[], map[];
    }

    /**
     `coalesceRequestUpstream` up to its first suspension; `newCall` names the factory call it may start.
     Until that call is over, whoever enters next for the key joins it.
     */
    method Enter(key: Key, enabled: bool, newCall: CallId) returns (d: Decision)
      modifies this
      ensures !enabled ==> d == Bypass && State() == old(State())
      ensures enabled ==> d == Decide(old(State()), key) && State() == Entered(old(State()), key, newCall)
      ensures enabled ==> Decide(State(), key) == if d == Start then Join(newCall) else d
      ensures enabled && key in old(settled) ==> d == Hit(old(settled)[key])
      ensures enabled && key !in old(settled) && key in old(inflight) ==> d == Join(old(inflight)[key])
      ensures d == Start <==> enabled && key !in old(settled) && key !in old(inflight)
    {
      if !enabled {
        return Bypass;
      }
      if key in settled {
        return Hit(settled[key]);
      }
      if key in inflight {
        return Join(inflight[key]);
      }
      inflight := inflight[key := newCall];
      return Start;
    }

    /** The `then` continuation; a rejection passes it by. */
    method ThenRuns(key: Key, o: Outcome)
      modifies this`settled
      ensures State() == Recorded(old(State()), key, o)
    {
      if o.Resolved? {
        var result := o.result;
        if result.status >= 200 && result.status < 300 {
          settled := settled[key := result];
        }
      }
    }

    /** The `finally` continuation. */
    method FinallyRuns(key: Key)
      modifies this`inflight
      ensures State() == Cleared(old(State()), key)
    {
      inflight := inflight - {key};
    }
  }

  /** The request object a store hangs on. */
  class Request {
    var store: RequestUpstreamStore?

    constructor ()
      ensures store == null
    {
      store := null;
    }

    /** One store per request: made empty on first use, and the same one ever after. */
    method GetStore() returns (s: RequestUpstreamStore)
      modifies this
      ensures store == s
      ensures old(store) != null ==> s == old(store)
      ensures old(store) == null ==> fresh(s) && s.State() == Store(map[], map[])
    {
      if store == null {
        store := new RequestUpstreamStore();
      }
      s := store;
    }
  }

  // ---------------------------------------------------------------- cache keys

  /** `buildUpstreamCacheKey`, its parts already normalised. */
  function CacheKey(verb: string, path: string, query: string, authFingerprint: string): Key
  {
    verb + "|" + path + "|" + query + "|" + authFingerprint
  }

  lemma LastBarSplits(a: string, f: string, b: string, g: string)
    requires a + "|" + f == b + "|" + g
    requires '|' !in f && '|' !in g
    ensures a == b && f == g
  {
    var s := a + "|" + f;
    assert s[|a|] == '|' && s[|b|] == '|';
    assert forall i :: |a| < i < |s| ==> s[i] == f[i - |a| - 1];
    assert forall i :: |b| < i < |s| ==> s[i] == g[i - |b| - 1];
    assert |a| == |b|;
    assert a == s[..|a|] && f == s[|a| + 1..] && b == s[..|b|] && g == s[|b| + 1..];
  }

  /** A fingerprint is hex digits or `anon`: callers with different ones never share an entry. */
  lemma KeysIsolateCallers(v1: string, p1: string, q1: string, f1: string, v2: string, p2: string, q2: string, f2: string)
    requires '|' !in f1 && '|' !in f2
    requires CacheKey(v1, p1, q1, f1) == CacheKey(v2, p2, q2, f2)
    ensures f1 == f2
    ensures '|' !in q1 + q2 && '|' !in p1 + p2 ==> v1 == v2 && p1 == p2 && q1 == q2
  {
    LastBarSplits(v1 + "|" + p1 + "|" + q1, f1, v2 + "|" + p2 + "|" + q2, f2);
    if '|' !in q1 + q2 && '|' !in p1 + p2 {
      assert forall c :: c in q1 ==> c in q1 + q2;
      assert forall c :: c in q2 ==> c in q1 + q2;
      assert forall c :: c in p1 ==> c in p1 + p2;
      assert forall c :: c in p2 ==> c in p1 + p2;
      LastBarSplits(v1 + "|" + p1, q1, v2 + "|" + p2, q2);
      LastBarSplits(v1, p1, v2, p2);
    }
  }

  // ------------------------------------------------------- one request's life

  /** A factory call: running; answered; `then` has run; `finally` has run. */
  datatype Stage = Running | Answered(o: Outcome) | Noted(o: Outcome) | Finished(o: Outcome)

  datatype Call = Call(key: Key, stage: Stage)

  /** What a caller got, and for which key it asked. */
  datatype Reply = Reply(key: Key, o: Outcome)

  /** Which call a caller waits for, and the key it asked for. */
  datatype Waiter = Waiter(key: Key, call: CallId)

  datatype Session = Session(
    store: Store,
    calls: map<CallId, Call>,
    waiting: map<CallerId, Waiter>,
    replies: map<CallerId, Reply>)

  datatype Step =
    | CallerEnters(x: CallerId, key: Key, newCall: CallId)
    | FactoryAnswers(c: CallId, o: Outcome)
    | ThenStep(c: CallId)
    | FinallyStep(c: CallId)
    | CallerResumes(x: CallerId)

  predicate Enabled(s: Session, step: Step)
  {
    match step
    case CallerEnters(x, key, newCall) => x !in s.waiting && x !in s.replies && newCall !in s.calls
    case FactoryAnswers(c, o) => c in s.calls && s.calls[c].stage == Running
    case ThenStep(c) => c in s.calls && s.calls[c].stage.Answered?
    case FinallyStep(c) => c in s.calls && s.calls[c].stage.Noted?
    case CallerResumes(x) => x in s.waiting && s.waiting[x].call in s.calls && s.calls[s.waiting[x].call].stage.Finished?
  }

  function Apply(s: Session, step: Step): Session
    requires Enabled(s, step)
  {
    match step
    case CallerEnters(x, key, newCall) =>
      var s' := s.(store := Entered(s.store, key, newCall));
      (match Decide(s.store, key)
       case Bypass => s'
       case Hit(r) => s'.(replies := s.replies[x := Reply(key, Resolved(r))])
       case Join(c) => s'.(waiting := s.waiting[x := Waiter(key, c)])
       case Start => s'.(calls := s.calls[newCall := Call(key, Running)], waiting := s.waiting[x := Waiter(key, newCall)]))
    case FactoryAnswers(c, o) => s.(calls := s.calls[c := Call(s.calls[c].key, Answered(o))])
    case ThenStep(c) =>
      var Call(key, stage) := s.calls[c];
      s.(store := Recorded(s.store, key, stage.o), calls := s.calls[c := Call(key, Noted(stage.o))])
    case FinallyStep(c) =>
      var Call(key, stage) := s.calls[c];
      s.(store := Cleared(s.store, key), calls := s.calls[c := Call(key, Finished(stage.o))])
    case CallerResumes(x) =>
      var Waiter(key, c) := s.waiting[x];
      s.(waiting := s.waiting - {x}, replies := s.replies[x := Reply(key, s.calls[c].stage.o)])
  }

  ghost predicate Run(s: Session, steps: seq<Step>, t: Session)
    decreases |steps|
  {
    if steps == [] then s == t
    else Enabled(s, steps[0]) && Run(Apply(s, steps[0]), steps[1..], t)
  }

  const FreshSession: Session := Session(Store(map[], map[]), map[], map[], map[])

  // -------------------------------------------------------------- invariants

  /** The factory of `c` has answered successfully. */
  predicate Success(s: Session, c: CallId)
  {
    c in s.calls && !s.calls[c].stage.Running? && Succeeded(s.calls[c].stage.o)
  }

  /** The factory call `c` was for `key` and came to `o`. */
  predicate AnsweredWith(s: Session, c: CallId, key: Key, o: Outcome)
  {
    c in s.calls && s.calls[c].key == key && !s.calls[c].stage.Running? && s.calls[c].stage.o == o
  }

  predicate Unfinished(s: Session, c: CallId)
  {
    c in s.calls && !s.calls[c].stage.Finished?
  }

  /** Some factory call for `key` came to `o` and has been through `then`. */
  ghost predicate Produced(s: Session, key: Key, o: Outcome)
  {
    exists c :: c in s.calls && s.calls[c].key == key && (s.calls[c].stage == Noted(o) || s.calls[c].stage == Finished(o))
  }

  ghost predicate InflightIsUnfinished(s: Session)
  {
    && (forall k :: k in s.store.inflight ==>
          Unfinished(s, s.store.inflight[k]) && s.calls[s.store.inflight[k]].key == k)
    && (forall c :: Unfinished(s, c) ==>
          s.calls[c].key in s.store.inflight && s.store.inflight[s.calls[c].key] == c)
  }

  ghost predicate SettledProduced(s: Session)
  {
    forall k :: k in s.store.settled ==>
      Is2xx(s.store.settled[k]) && Produced(s, k, Resolved(s.store.settled[k]))
  }

  ghost predicate NotedSettled(s: Session)
  {
    forall c :: Success(s, c) && !s.calls[c].stage.Answered? ==>
      s.calls[c].key in s.store.settled && s.store.settled[s.calls[c].key] == s.calls[c].stage.o.result
  }

  predicate AwaitsThen(s: Session, c: CallId)
  {
    c in s.calls && (s.calls[c].stage.Running? || s.calls[c].stage.Answered?)
  }

  ghost predicate AwaitingUnsettled(s: Session)
  {
    forall c :: AwaitsThen(s, c) ==> s.calls[c].key !in s.store.settled
  }

  ghost predicate SettledIsSuccess(s: Session)
  {
    SettledProduced(s) && NotedSettled(s) && AwaitingUnsettled(s)
  }

  ghost predicate SuccessIsUnique(s: Session)
  {
    forall c, d :: Success(s, c) && Success(s, d) && s.calls[c].key == s.calls[d].key ==> c == d
  }

  ghost predicate RepliesProduced(s: Session)
  {
    && (forall x :: x in s.waiting ==> s.waiting[x].call in s.calls && s.calls[s.waiting[x].call].key == s.waiting[x].key)
    && (forall x :: x in s.replies ==> Produced(s, s.replies[x].key, s.replies[x].o))
  }

  ghost predicate Inv(s: Session)
  {
    InflightIsUnfinished(s) && SettledIsSuccess(s) && SuccessIsUnique(s) && RepliesProduced(s)
  }

  /** What was produced stays produced. */
  lemma ProducedStays(s: Session, step: Step, key: Key, o: Outcome)
    requires Enabled(s, step) && Produced(s, key, o)
    ensures Produced(Apply(s, step), key, o)
  {
    var c :| c in s.calls && s.calls[c].key == key && (s.calls[c].stage == Noted(o) || s.calls[c].stage == Finished(o));
    var t := Apply(s, step);
    assert c in t.calls && t.calls[c].key == key && (t.calls[c].stage == Noted(o) || t.calls[c].stage == Finished(o));
  }

  lemma InflightKeptByCall(s: Session, step: Step)
    requires Enabled(s, step) && InflightIsUnfinished(s)
    requires step.FactoryAnswers? || step.ThenStep? || step.FinallyStep?
    ensures InflightIsUnfinished(Apply(s, step))
  {
    var t := Apply(s, step);
    assert forall c :: c != step.c ==> (Unfinished(t, c) <==> Unfinished(s, c)) && (c in s.calls ==> t.calls[c] == s.calls[c]);
  }

  lemma InflightKept(s: Session, step: Step)
    requires Enabled(s, step) && InflightIsUnfinished(s)
    ensures InflightIsUnfinished(Apply(s, step))
  {
    if step.FactoryAnswers? || step.ThenStep? || step.FinallyStep? {
      InflightKeptByCall(s, step);
    }
  }

  lemma ProducedKept(s: Session, step: Step)
    requires Enabled(s, step) && SettledProduced(s)
    ensures SettledProduced(Apply(s, step))
  {
    var t := Apply(s, step);
    forall k | k in t.store.settled
      ensures Is2xx(t.store.settled[k]) && Produced(t, k, Resolved(t.store.settled[k]))
    {
      if k in s.store.settled && t.store.settled[k] == s.store.settled[k] {
        ProducedStays(s, step, k, Resolved(s.store.settled[k]));
      } else {
        assert step.ThenStep? && t.calls[step.c].key == k;
      }
    }
  }

  lemma NotedKept(s: Session, step: Step)
    requires Enabled(s, step) && NotedSettled(s) && AwaitingUnsettled(s)
    ensures NotedSettled(Apply(s, step))
  {
    if step.ThenStep? {
      assert AwaitsThen(s, step.c);
    }
  }

  lemma AwaitingKept(s: Session, step: Step)
    requires Enabled(s, step) && InflightIsUnfinished(s) && AwaitingUnsettled(s)
    ensures AwaitingUnsettled(Apply(s, step))
  {
    var t := Apply(s, step);
    forall c | AwaitsThen(t, c) ensures t.calls[c].key !in t.store.settled {
      if c in s.calls {
        assert AwaitsThen(s, c) && Unfinished(s, c);
        if step.ThenStep? {
          assert Unfinished(s, step.c);
        }
      }
    }
  }

  lemma SettledKept(s: Session, step: Step)
    requires Enabled(s, step) && InflightIsUnfinished(s) && SettledIsSuccess(s)
    ensures SettledIsSuccess(Apply(s, step))
  {
    ProducedKept(s, step);
    NotedKept(s, step);
    AwaitingKept(s, step);
  }

  lemma NewSuccessIsAlone(s: Session, c: CallId, d: CallId)
    requires InflightIsUnfinished(s) && SettledIsSuccess(s)
    requires c in s.calls && s.calls[c].stage.Running?
    requires Success(s, d)
    ensures s.calls[c].key != s.calls[d].key
  {
    if s.calls[d].stage.Answered? {
      assert Unfinished(s, c) && Unfinished(s, d);
    }
  }

  lemma UniqueKept(s: Session, step: Step)
    requires Enabled(s, step) && InflightIsUnfinished(s) && SettledIsSuccess(s) && SuccessIsUnique(s)
    ensures SuccessIsUnique(Apply(s, step))
  {
    var t := Apply(s, step);
    if step.FactoryAnswers? {
      forall d | Success(s, d) ensures s.calls[step.c].key != s.calls[d].key {
        NewSuccessIsAlone(s, step.c, d);
      }
      assert forall d :: d != step.c && Success(t, d) ==> Success(s, d) && t.calls[d] == s.calls[d];
    } else {
      assert forall d :: Success(t, d) ==> Success(s, d) && t.calls[d].key == s.calls[d].key;
    }
  }

  lemma RepliesKept(s: Session, step: Step)
    requires Enabled(s, step) && Inv(s)
    ensures RepliesProduced(Apply(s, step))
  {
    var t := Apply(s, step);
    forall x | x in t.replies
      ensures Produced(t, t.replies[x].key, t.replies[x].o)
    {
      if x in s.replies {
        ProducedStays(s, step, s.replies[x].key, s.replies[x].o);
      } else if step.CallerEnters? {
        ProducedStays(s, step, step.key, Resolved(s.store.settled[step.key]));
      } else {
        assert s.calls[s.waiting[x].call].stage == Finished(t.replies[x].o);
        ProducedStays(s, step, t.replies[x].key, t.replies[x].o);
      }
    }
  }

  lemma {:induction false} RunKeeps(s: Session, steps: seq<Step>, t: Session)
    requires Inv(s) && Run(s, steps, t)
    ensures Inv(t)
    decreases |steps|
  {
    if steps != [] {
      InflightKept(s, steps[0]);
      SettledKept(s, steps[0]);
      UniqueKept(s, steps[0]);
      RepliesKept(s, steps[0]);
      RunKeeps(Apply(s, steps[0]), steps[1..], t);
    }
  }

  // ------------------------------------------------------------ main results

  ghost predicate Reachable(s: Session)
  {
    exists steps :: Run(FreshSession, steps, s)
  }

  lemma ReachableInv(s: Session)
    requires Reachable(s)
    ensures Inv(s)
  {
    var steps :| Run(FreshSession, steps, s);
    RunKeeps(FreshSession, steps, s);
  }

  /** At most one factory per key is in flight. */
  lemma OneFactoryInFlight(s: Session, c: CallId, d: CallId)
    requires Reachable(s)
    requires Unfinished(s, c) && Unfinished(s, d) && s.calls[c].key == s.calls[d].key
    ensures c == d
  {
    ReachableInv(s);
  }

  /** At most one factory call per key ever succeeds. */
  lemma OneSuccessPerKey(s: Session, c: CallId, d: CallId)
    requires Reachable(s)
    requires Success(s, c) && Success(s, d) && s.calls[c].key == s.calls[d].key
    ensures c == d
  {
    ReachableInv(s);
  }

  lemma SettledStepKept(s: Session, step: Step, key: Key)
    requires AwaitingUnsettled(s) && Enabled(s, step) && key in s.store.settled
    ensures var t := Apply(s, step);
      key in t.store.settled && t.store.settled[key] == s.store.settled[key]
  {
    if step.ThenStep? {
      assert AwaitsThen(s, step.c);
    }
  }

  /** A settled entry is written once: no later step changes or drops it. */
  lemma {:induction false} SettledForGood(s: Session, steps: seq<Step>, t: Session, key: Key)
    requires Reachable(s) && Run(s, steps, t)
    requires key in s.store.settled
    ensures key in t.store.settled && t.store.settled[key] == s.store.settled[key]
    decreases |steps|
  {
    if steps != [] {
      ReachableInv(s);
      SettledStepKept(s, steps[0], key);
      ReachableStep(s, steps[0]);
      SettledForGood(Apply(s, steps[0]), steps[1..], t, key);
    }
  }

  lemma ReachableStep(s: Session, step: Step)
    requires Reachable(s) && Enabled(s, step)
    ensures Reachable(Apply(s, step))
  {
    var steps :| Run(FreshSession, steps, s);
    RunThenStep(FreshSession, steps, s, step);
  }

  lemma {:induction false} RunThenStep(r: Session, steps: seq<Step>, s: Session, step: Step)
    requires Run(r, steps, s) && Enabled(s, step)
    ensures Run(r, steps + [step], Apply(s, step))
    decreases |steps|
  {
    if steps == [] {
      assert Run(Apply(s, step), [], Apply(s, step));
    } else {
      RunThenStep(Apply(r, steps[0]), steps[1..], s, step);
      assert (steps + [step])[1..] == steps[1..] + [step];
    }
  }

  /** From the moment a factory succeeds, its key is always in flight or settled: no second fetch slips in. */
  lemma NoGapAfterSuccess(s: Session, c: CallId)
    requires Reachable(s) && Success(s, c)
    ensures s.calls[c].key in s.store.inflight || s.calls[c].key in s.store.settled
    ensures Decide(s.store, s.calls[c].key) != Start
  {
    ReachableInv(s);
  }

  /** Failures are never cached, and whatever is cached came from a factory call for that key. */
  lemma OnlySuccessesSettle(s: Session, key: Key)
    requires Reachable(s) && key in s.store.settled
    ensures 200 <= s.store.settled[key].status <= 299
    ensures exists c :: AnsweredWith(s, c, key, Resolved(s.store.settled[key]))
  {
    ReachableInv(s);
    var c :| c in s.calls && s.calls[c].key == key
      && (s.calls[c].stage == Noted(Resolved(s.store.settled[key])) || s.calls[c].stage == Finished(Resolved(s.store.settled[key])));
    assert AnsweredWith(s, c, key, Resolved(s.store.settled[key]));
  }

  /** Every answer a caller gets was produced by a factory call for the key it asked for. */
  lemma RepliesAreProduced(s: Session, x: CallerId)
    requires Reachable(s) && x in s.replies
    ensures exists c :: AnsweredWith(s, c, s.replies[x].key, s.replies[x].o)
  {
    ReachableInv(s);
    var key, o := s.replies[x].key, s.replies[x].o;
    var c :| c in s.calls && s.calls[c].key == key && (s.calls[c].stage == Noted(o) || s.calls[c].stage == Finished(o));
    assert AnsweredWith(s, c, key, o);
  }

  /** Successful reads of one key are repeatable within the request. */
  lemma ReadsRepeatable(s: Session, x: CallerId, y: CallerId)
    requires Reachable(s) && x in s.replies && y in s.replies
    requires s.replies[x].key == s.replies[y].key
    requires Succeeded(s.replies[x].o) && Succeeded(s.replies[y].o)
    ensures s.replies[x].o == s.replies[y].o
  {
    RepliesAreProduced(s, x);
    RepliesAreProduced(s, y);
    var c :| AnsweredWith(s, c, s.replies[x].key, s.replies[x].o);
    var d :| AnsweredWith(s, d, s.replies[y].key, s.replies[y].o);
    OneSuccessPerKey(s, c, d);
  }

  /** What a caller gets is for the key it asked for: at once when it is settled, else from the call it comes to wait for. */
  lemma CallersAreAnsweredForTheirKey(s: Session, x: CallerId, key: Key, newCall: CallId)
    requires Reachable(s) && Enabled(s, CallerEnters(x, key, newCall))
    ensures var t := Apply(s, CallerEnters(x, key, newCall));
      if key in s.store.settled then t.replies == s.replies[x := Reply(key, Resolved(s.store.settled[key]))] && t.calls == s.calls
      else x in t.waiting && t.waiting[x].key == key && t.waiting[x].call in t.calls && t.calls[t.waiting[x].call].key == key
  {
    ReachableInv(s);
  }

  /** Its answer is then that call's outcome, under the key it asked for. */
  lemma ResumedWithOwnAnswer(s: Session, x: CallerId)
    requires Reachable(s) && Enabled(s, CallerResumes(x))
    ensures var t := Apply(s, CallerResumes(x));
      && t.replies == s.replies[x := Reply(s.waiting[x].key, s.calls[s.waiting[x].call].stage.o)]
      && s.calls[s.waiting[x].call].key == s.waiting[x].key && x !in t.waiting
  {
    ReachableInv(s);
  }

  /** No caller waits for a call that is gone: each waits for one that is unfinished or has its answer ready. */
  lemma WaitersGetAnswers(s: Session, x: CallerId)
    requires Reachable(s) && x in s.waiting
    ensures Unfinished(s, s.waiting[x].call) || Enabled(s, CallerResumes(x))
  {
    ReachableInv(s);
  }
}
