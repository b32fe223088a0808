/**
 Sending one push per event to each device (`FcmSenderService.processMappedEvent` and `sendToTokens`).

 The class runs one event from end to end.  The protocol below it interleaves any number of
 handlers, of any workers, around the one table of event ids already handled.
 */
module PushFanout {
  import opened Sequences
  import PushEvents
  import RateWindow

  type EventId = string
  type Token = string

  const CHUNK: nat := 500

  datatype Permission = OrdersView | OrdersConfirm | OrdersPrepare | DeliveryView | AnyOther
  datatype Locale = Ar | En

  type Event = PushEvents.Event

  /** A registered device; its locale already reduced to the two the sender knows. */
  datatype Device = Device(fcmToken: Token, permissions: set<Permission>, locale: Locale)

  function ShouldReceive(d: Device, e: Event): bool
  {
    if e.kind.NewCall? then
      if e.channel.Delivery? then DeliveryView in d.permissions
      else OrdersView in d.permissions && (OrdersConfirm in d.permissions || OrdersPrepare in d.permissions)
    else OrdersConfirm in d.permissions
  }

  /** One call to Firebase, and whether it threw. */
  datatype Multicast = Multicast(eventId: EventId, tokens: seq<Token>, threw: bool)

  // ------------------------------------------------------- the plan of an event

  function Wants(e: Event): Device -> bool
  {
    (d: Device) => ShouldReceive(d, e)
  }

  function Recipients(devices: seq<Device>, e: Event): seq<Device>
  {
    Filter(devices, Wants(e))
  }

  function TokenIn(l: Locale): Device -> seq<Token>
  {
    (d: Device) => if d.locale == l then [d.fcmToken] else []
  }

  function TokensOf(devices: seq<Device>, l: Locale): seq<Token>
  {
    FlatMap(devices, TokenIn(l))
  }

  /** The locales present, in the order their first device has. */
  function LocaleOrder(recipients: seq<Device>): seq<Locale>
  {
    if recipients == [] then []
    else
      var l := recipients[0].locale;
      var other := if l.Ar? then En else Ar;
      [l] + (if TokensOf(recipients, other) == [] then [] else [other])
  }

  function Chunks(tokens: seq<Token>): (cs: seq<seq<Token>>)
  {
    if |tokens| <= CHUNK then (if tokens == [] then [] else [tokens])
    else [tokens[..CHUNK]] + Chunks(tokens[CHUNK..])
  }

  function Flatten(cs: seq<seq<Token>>): seq<Token>
  {
    if cs == [] then [] else cs[0] + Flatten(cs[1..])
  }

  function PlanFor(recipients: seq<Device>, locales: seq<Locale>): seq<seq<Token>>
  {
    if locales == [] then [] else Chunks(TokensOf(recipients, locales[0])) + PlanFor(recipients, locales[1..])
  }

  /** The chunks `processMappedEvent` multicasts, in order. */
  function Plan(devices: seq<Device>, e: Event): seq<seq<Token>>
  {
    var r := Recipients(devices, e);
    PlanFor(r, LocaleOrder(r))
  }

  ghost predicate Distinct(s: seq<Token>)
  {
    forall i, j :: 0 <= i < j < |s| ==> s[i] != s[j]
  }

  /** The device table's unique constraint on tokens. */
  ghost predicate TokensUnique(devices: seq<Device>)
  {
    forall i, j :: 0 <= i < j < |devices| ==> devices[i].fcmToken != devices[j].fcmToken
  }

  lemma {:induction false} FlattenAppend(a: seq<seq<Token>>, b: seq<seq<Token>>)
    ensures Flatten(a + b) == Flatten(a) + Flatten(b)
  {
    if a == [] {
      assert a + b == b;
    } else {
      FlattenAppend(a[1..], b);
      assert (a + b)[1..] == a[1..] + b;
    }
  }

  /** Chunking loses and reorders nothing, and no chunk is empty or over the limit. */
  lemma {:induction false} ChunksPartition(tokens: seq<Token>)
    ensures Flatten(Chunks(tokens)) == tokens
    ensures forall c :: c in Chunks(tokens) ==> 0 < |c| <= 500
  {
    if |tokens| > CHUNK {
      ChunksPartition(tokens[CHUNK..]);
      assert Chunks(tokens)[1..] == Chunks(tokens[CHUNK..]);
      assert tokens == tokens[..CHUNK] + tokens[CHUNK..];
    } else if tokens != [] {
      assert Flatten([tokens]) == tokens + Flatten([]);
    }
  }

  lemma UniqueTail(devices: seq<Device>)
    requires TokensUnique(devices) && devices != []
    ensures TokensUnique(devices[1..])
    ensures forall d :: d in devices[1..] ==> d.fcmToken != devices[0].fcmToken
  {
    assert forall i :: 0 <= i < |devices| - 1 ==> devices[1..][i] == devices[i + 1];
  }

  lemma {:induction false} FilterKeepsUnique(devices: seq<Device>, keep: Device -> bool)
    requires TokensUnique(devices)
    ensures TokensUnique(Filter(devices, keep))
  {
    if devices != [] {
      UniqueTail(devices);
      FilterKeepsUnique(devices[1..], keep);
      FilterExactly(devices[1..], keep);
      var rest := Filter(devices[1..], keep);
      assert forall i :: 0 <= i < |rest| ==> rest[i] in rest;
    }
  }

  /** A token is listed under a locale exactly when it is some device's of that locale. */
  lemma TokensOfExactly(devices: seq<Device>, l: Locale)
    ensures forall t :: t in TokensOf(devices, l) <==> exists d :: d in devices && d.locale == l && d.fcmToken == t
  {
    FlatMapExactly(devices, TokenIn(l));
    forall t
      ensures t in TokensOf(devices, l) <==> exists d :: d in devices && d.locale == l && d.fcmToken == t
    {
      if d :| d in devices && d.locale == l && d.fcmToken == t {
        assert t in TokenIn(l)(d);
      }
    }
  }

  lemma {:induction false} TokensOfDistinct(devices: seq<Device>, l: Locale)
    requires TokensUnique(devices)
    ensures Distinct(TokensOf(devices, l))
  {
    if devices != [] {
      UniqueTail(devices);
      TokensOfDistinct(devices[1..], l);
      TokensOfExactly(devices[1..], l);
      var rest := TokensOf(devices[1..], l);
      assert devices[0].fcmToken !in rest;
      assert TokensOf(devices, l) == if devices[0].locale == l then [devices[0].fcmToken] + rest else rest;
    }
  }

  /** The plan, with its locales spelt out: the chunks of one locale's tokens, then of the other's. */
  lemma PlanIsTwoLists(r: seq<Device>) returns (a: seq<Token>, b: seq<Token>, l: Locale, k: Locale)
    ensures l != k && a == TokensOf(r, l) && b == TokensOf(r, k)
    ensures PlanFor(r, LocaleOrder(r)) == Chunks(a) + Chunks(b)
  {
    l := if r == [] then Ar else r[0].locale;
    k := if l.Ar? then En else Ar;
    a, b := TokensOf(r, l), TokensOf(r, k);
    assert [l, k][1..] == [k] && [k][1..] == [] && [l][1..] == [];
    if r != [] {
      assert LocaleOrder(r) == if b == [] then [l] else [l, k];
      assert PlanFor(r, [k]) == Chunks(b) + [];
    }
  }

  lemma PlanFlattened(devices: seq<Device>, e: Event) returns (l: Locale, k: Locale)
    ensures var r := Recipients(devices, e);
      l != k && Flatten(Plan(devices, e)) == TokensOf(r, l) + TokensOf(r, k)
    ensures forall c :: c in Plan(devices, e) ==> 0 < |c| <= CHUNK
  {
    var a, b;
    a, b, l, k := PlanIsTwoLists(Recipients(devices, e));
    ChunksPartition(a);
    ChunksPartition(b);
    FlattenAppend(Chunks(a), Chunks(b));
  }

  lemma DistinctConcat(a: seq<Token>, b: seq<Token>)
    requires Distinct(a) && Distinct(b) && forall t :: t in a ==> t !in b
    ensures Distinct(a + b)
  {
    var c := a + b;
    forall i, j | 0 <= i < j < |c| ensures c[i] != c[j] {
      if i < |a| <= j {
        assert a[i] in a && b[j - |a|] in b;
      }
    }
  }

  /** Every recipient's token is in exactly one chunk of the plan, once; nobody else's is in any. */
  lemma PlanReachesEachRecipientOnce(devices: seq<Device>, e: Event)
    requires TokensUnique(devices)
    ensures Distinct(Flatten(Plan(devices, e)))
    ensures forall t :: t in Flatten(Plan(devices, e)) <==> ReachedBy(devices, e, t)
    ensures forall c :: c in Plan(devices, e) ==> 0 < |c| <= CHUNK
  {
    var r := Recipients(devices, e);
    var l, k := PlanFlattened(devices, e);
    FilterKeepsUnique(devices, Wants(e));
    TokensOfDistinct(r, l);
    TokensOfDistinct(r, k);
    DisjointLocales(r, l, k);
    DistinctConcat(TokensOf(r, l), TokensOf(r, k));
    forall t ensures t in Flatten(Plan(devices, e)) <==> ReachedBy(devices, e, t) {
      TwoListsReach(devices, e, l, k, t);
    }
  }

  /** Some device with this token has the permissions `ps` asks for. */
  ghost predicate SomeDevice(devices: seq<Device>, t: Token, ps: set<Permission> -> bool)
  {
    exists d :: d in devices && d.fcmToken == t && ps(d.permissions)
  }

  /**
   Who is sent what: a new delivery goes to exactly those who see deliveries, a new table order to
   exactly those who see orders and confirm or prepare them, anything else to exactly those who confirm.
   */
  lemma RecipientsExactly(devices: seq<Device>, e: Event, t: Token)
    requires TokensUnique(devices)
    ensures e.kind.NewCall? && e.channel.Delivery? ==>
      (t in Flatten(Plan(devices, e)) <==> SomeDevice(devices, t, ps => DeliveryView in ps))
    ensures e.kind.NewCall? && e.channel.Table? ==>
      (t in Flatten(Plan(devices, e)) <==>
        SomeDevice(devices, t, ps => OrdersView in ps && (OrdersConfirm in ps || OrdersPrepare in ps)))
    ensures e.kind.GuestAdd? || e.kind.Bill? || e.kind.WaiterRequest? ==>
      (t in Flatten(Plan(devices, e)) <==> SomeDevice(devices, t, ps => OrdersConfirm in ps))
  {
    PlanReachesEachRecipientOnce(devices, e);
    assert t in Flatten(Plan(devices, e)) <==> exists d :: d in devices && ShouldReceive(d, e) && d.fcmToken == t;
  }

  lemma TwoListsReach(devices: seq<Device>, e: Event, l: Locale, k: Locale, t: Token)
    requires l != k
    ensures var r := Recipients(devices, e);
      t in TokensOf(r, l) || t in TokensOf(r, k) <==> ReachedBy(devices, e, t)
  {
    var r := Recipients(devices, e);
    FilterExactly(devices, Wants(e));
    TokensOfExactly(r, l);
    TokensOfExactly(r, k);
    if ReachedBy(devices, e, t) {
      var d :| d in devices && ShouldReceive(d, e) && d.fcmToken == t;
      assert d in r && (d.locale == l || d.locale == k);
    }
  }

  /** Some device that should receive the event has this token. */
  ghost predicate ReachedBy(devices: seq<Device>, e: Event, t: Token)
  {
    exists d :: d in devices && ShouldReceive(d, e) && d.fcmToken == t
  }

  lemma OneOwner(r: seq<Device>, d: Device, f: Device)
    requires TokensUnique(r) && d in r && f in r && d.fcmToken == f.fcmToken
    ensures d == f
  {
    var i :| 0 <= i < |r| && r[i] == d;
    var j :| 0 <= j < |r| && r[j] == f;
  }

  lemma DisjointLocales(r: seq<Device>, l: Locale, k: Locale)
    requires TokensUnique(r) && l != k
    ensures forall t :: t in TokensOf(r, l) ==> t !in TokensOf(r, k)
  {
    TokensOfExactly(r, l);
    TokensOfExactly(r, k);
    forall t | t in TokensOf(r, l)
      ensures t !in TokensOf(r, k)
    {
      var d :| d in r && d.locale == l && d.fcmToken == t;
      forall f | f in r && f.locale == k ensures f.fcmToken != t {
        if f.fcmToken == t {
          OneOwner(r, d, f);
        }
      }
    }
  }

  // ------------------------------------------------------------- one worker

  /** The delivery log's unique event ids, shared by every worker. */
  class DeliveryLog {
    var eventIds: set<EventId>

    constructor ()
      ensures eventIds == {}
    {
      eventIds := {};
    }
  }

  /** What one chunk adds: its multicast, and a second one when the first throws. */
  function SendChunk(sends: seq<Multicast>, throwsAt: nat -> bool, id: EventId, chunk: seq<Token>): (r: seq<Multicast>)
  {
    var first := sends + [Multicast(id, chunk, throwsAt(|sends|))];
    if throwsAt(|sends|) then first + [Multicast(id, chunk, throwsAt(|first|))] else first
  }

  function SendAll(sends: seq<Multicast>, throwsAt: nat -> bool, id: EventId, plan: seq<seq<Token>>): seq<Multicast>
    decreases plan
  {
    if plan == [] then sends else SendAll(SendChunk(sends, throwsAt, id, plan[0]), throwsAt, id, plan[1..])
  }

  lemma {:induction false} SendAllAppend(sends: seq<Multicast>, throwsAt: nat -> bool, id: EventId,
                                         p: seq<seq<Token>>, q: seq<seq<Token>>)
    ensures SendAll(sends, throwsAt, id, p + q) == SendAll(SendAll(sends, throwsAt, id, p), throwsAt, id, q)
    decreases p
  {
    if p == [] {
      assert p + q == q;
    } else {
      SendAllAppend(SendChunk(sends, throwsAt, id, p[0]), throwsAt, id, p[1..], q);
      assert (p + q)[1..] == p[1..] + q;
    }
  }

  class FcmSender {
    const log: DeliveryLog
    const limiter: RateWindow.MenuRateLimiter
    /** Whether Firebase throws on the n-th multicast. */
    const throwsAt: nat -> bool
    var sends: seq<Multicast>
    var dedupedTotal: nat

    constructor (log: DeliveryLog, limiter: RateWindow.MenuRateLimiter, throwsAt: nat -> bool)
      ensures this.log == log && this.limiter == limiter && this.throwsAt == throwsAt
      ensures sends == [] && dedupedTotal == 0
    {
      this.log, this.limiter, this.throwsAt := log, limiter, throwsAt;
      sends, dedupedTotal := [], 0;
    }

    method SendToTokens(id: EventId, tokens: seq<Token>)
      modifies this`sends
      ensures sends == SendAll(old(sends), throwsAt, id, Chunks(tokens))
    {
      var i := 0;
      while i < |tokens|
        invariant i <= |tokens| || Chunks(tokens[|tokens|..]) == []
        invariant SendAll(sends, throwsAt, id, Chunks(tokens[if i <= |tokens| then i else |tokens|..]))
               == SendAll(old(sends), throwsAt, id, Chunks(tokens))
      {
        var end := if i + CHUNK < |tokens| then i + CHUNK else |tokens|;
        var chunk := tokens[i..end];
        ghost var rest := tokens[i..];
        assert Chunks(rest)[0] == chunk && Chunks(rest)[1..] == Chunks(tokens[end..]) by {
          if |rest| > CHUNK {
            assert rest[..CHUNK] == chunk && rest[CHUNK..] == tokens[end..];
          } else {
            assert rest == chunk && tokens[end..] == [];
          }
        }
        var threw := throwsAt(|sends|);
        sends := sends + [Multicast(id, chunk, threw)];
        if threw {
          sends := sends + [Multicast(id, chunk, throwsAt(|sends|))];
        }
        i := i + CHUNK;
      }
    }

    /** The loop that fills `byLocale`, and the order in which its keys were first set. */
    method GroupByLocale(recipients: seq<Device>) returns (order: seq<Locale>, byLocale: map<Locale, seq<Token>>)
      ensures order == LocaleOrder(recipients)
      ensures IsGrouped(byLocale, recipients)
    {
      order, byLocale := [], map[];
      var i := 0;
      while i < |recipients|
        invariant 0 <= i <= |recipients|
        invariant order == LocaleOrder(recipients[..i])
        invariant IsGrouped(byLocale, recipients[..i])
      {
        var d := recipients[i];
        assert recipients[..i + 1] == recipients[..i] + [d];
        LocaleOrderSnoc(recipients[..i], d);
        GroupedSnoc(byLocale, recipients[..i], d);
        if d.locale !in byLocale {
          order := order + [d.locale];
        }
        byLocale := byLocale[d.locale := (if d.locale in byLocale then byLocale[d.locale] else []) + [d.fcmToken]];
        i := i + 1;
      }
      assert recipients[..i] == recipients;
    }

    /** One event, with nothing else running: sent to each recipient unless already logged or over the limit. */
    method ProcessMappedEvent(e: Event, devices: seq<Device>, now: int)
      requires limiter as object != this && limiter as object != log && limiter.Valid()
      modifies this, log, limiter
      ensures limiter.Valid() && log.eventIds == old(log.eventIds) + {e.eventId}
      ensures e.eventId in old(log.eventIds) ==>
        sends == old(sends) && dedupedTotal == old(dedupedTotal) + 1 && limiter.menuWindow == old(limiter.menuWindow)
      ensures e.eventId !in old(log.eventIds) ==>
        && dedupedTotal == old(dedupedTotal)
        && limiter.menuWindow == RateWindow.Updated(old(limiter.menuWindow), e.menuId, limiter.limit, now)
        && sends == if RateWindow.Admits(old(limiter.menuWindow), e.menuId, limiter.limit, now)
                    then SendAll(old(sends), throwsAt, e.eventId, Plan(devices, e)) else old(sends)
    {
      if e.eventId in log.eventIds {
        dedupedTotal := dedupedTotal + 1;
        assert log.eventIds == old(log.eventIds) + {e.eventId};
        return;
      }
      log.eventIds := log.eventIds + {e.eventId};
      var allowed := limiter.AllowMenuRate(e.menuId, now);
      if !allowed {
        return;
      }
      var recipients := Recipients(devices, e);
      var order, byLocale := GroupByLocale(recipients);
      var k := 0;
      while k < |order|
        modifies this`sends
        invariant 0 <= k <= |order|
        invariant SendAll(sends, throwsAt, e.eventId, PlanFor(recipients, order[k..]))
               == SendAll(old(sends), throwsAt, e.eventId, Plan(devices, e))
      {
        assert order[k..][1..] == order[k + 1..];
        SendAllAppend(sends, throwsAt, e.eventId, Chunks(TokensOf(recipients, order[k])), PlanFor(recipients, order[k + 1..]));
        SendToTokens(e.eventId, byLocale[order[k]]);
        k := k + 1;
      }
    }
  }

  lemma TokensOfSnoc(devices: seq<Device>, d: Device, l: Locale)
    ensures TokensOf(devices + [d], l) == if d.locale == l then TokensOf(devices, l) + [d.fcmToken] else TokensOf(devices, l)
  {
    FlatMapConcat(devices, [d], TokenIn(l));
    assert FlatMap([d], TokenIn(l)) == TokenIn(l)(d) + FlatMap([d][1..], TokenIn(l));
  }

  lemma LocaleOrderExactly(devices: seq<Device>, l: Locale)
    ensures l in LocaleOrder(devices) <==> TokensOf(devices, l) != []
  {
    if devices != [] {
      assert devices == [devices[0]] + devices[1..];
      FlatMapConcat([devices[0]], devices[1..], TokenIn(l));
      assert FlatMap([devices[0]], TokenIn(l)) == TokenIn(l)(devices[0]) + FlatMap([devices[0]][1..], TokenIn(l));
    }
  }

  lemma LocaleOrderSnoc(devices: seq<Device>, d: Device)
    ensures LocaleOrder(devices + [d]) ==
      if d.locale in LocaleOrder(devices) then LocaleOrder(devices) else LocaleOrder(devices) + [d.locale]
  {
    var l := if devices == [] then d.locale else devices[0].locale;
    var other := if l.Ar? then En else Ar;
    TokensOfSnoc(devices, d, other);
    LocaleOrderExactly(devices, other);
  }

  /** The map holds each present locale's tokens. */
  ghost predicate IsGrouped(byLocale: map<Locale, seq<Token>>, recipients: seq<Device>)
  {
    && (forall l :: l in byLocale <==> l in LocaleOrder(recipients))
    && (forall l :: l in byLocale ==> byLocale[l] == TokensOf(recipients, l))
  }

  lemma GroupedSnoc(g: map<Locale, seq<Token>>, devices: seq<Device>, d: Device)
    requires IsGrouped(g, devices)
    ensures IsGrouped(g[d.locale := (if d.locale in g then g[d.locale] else []) + [d.fcmToken]], devices + [d])
  {
    LocaleOrderSnoc(devices, d);
    forall l {
      TokensOfSnoc(devices, d, l);
    }
    LocaleOrderExactly(devices, d.locale);
  }

  // ------------------------------------------------------------- many handlers

  type TaskId = nat

  /** A handler waiting for its insert, for its devices, or between multicasts. */
  datatype Task =
    | Inserting(e: Event)
    | Fetching(e: Event)
    | Sending(e: Event, rest: seq<seq<Token>>, retrying: bool)

  /**
   `inserted` records the events whose insert took effect, `passed` the ids whose insert also succeeded,
   in order; `sends` every multicast made.
   */
  datatype Fleet = Fleet(
    log: set<EventId>,
    inserted: set<Event>,
    tasks: map<TaskId, Task>,
    passed: seq<EventId>,
    sends: seq<Multicast>)

  datatype Step =
    | Handle(t: TaskId, e: Event)
    | InsertOk(t: TaskId, allowed: bool)
    | InsertDuplicate(t: TaskId)
    | InsertFails(t: TaskId, applied: bool)
    | DevicesFetched(t: TaskId, devices: seq<Device>)
    | MulticastDone(t: TaskId, threw: bool)
    | WorkerDies(t: TaskId)

  ghost predicate Enabled(f: Fleet, step: Step)
  {
    match step
    case Handle(t, e) => t !in f.tasks && PushEvents.IsMapped(e)
    case InsertOk(t, _) => t in f.tasks && f.tasks[t].Inserting? && f.tasks[t].e.eventId !in f.log
    case InsertDuplicate(t) => t in f.tasks && f.tasks[t].Inserting? && f.tasks[t].e.eventId in f.log
    case InsertFails(t, applied) => t in f.tasks && f.tasks[t].Inserting?
    case DevicesFetched(t, devices) => t in f.tasks && f.tasks[t].Fetching? && TokensUnique(devices)
    case MulticastDone(t, _) => t in f.tasks && f.tasks[t].Sending? && f.tasks[t].rest != []
    case WorkerDies(t) => t in f.tasks
  }

  ghost function Apply(f: Fleet, step: Step): Fleet
    requires Enabled(f, step)
  {
    match step
    case Handle(t, e) => f.(tasks := f.tasks[t := Inserting(e)])
    case InsertOk(t, allowed) =>
      var e := f.tasks[t].e;
      f.(log := f.log + {e.eventId},
         inserted := f.inserted + {e},
         passed := f.passed + [e.eventId],
         tasks := if allowed then f.tasks[t := Fetching(e)] else f.tasks - {t})
    case InsertDuplicate(t) => f.(tasks := f.tasks - {t})
    case InsertFails(t, applied) =>
      f.(log := if applied then f.log + {f.tasks[t].e.eventId} else f.log,
         inserted := if applied then f.inserted + {f.tasks[t].e} else f.inserted,
         tasks := f.tasks - {t})
    case DevicesFetched(t, devices) =>
      f.(tasks := f.tasks[t := Sending(f.tasks[t].e, Plan(devices, f.tasks[t].e), false)])
    case MulticastDone(t, threw) =>
      var Sending(e, rest, retrying) := f.tasks[t];
      f.(sends := f.sends + [Multicast(e.eventId, rest[0], threw)],
         tasks := f.tasks[t := if threw && !retrying then Sending(e, rest, true) else Sending(e, rest[1..], false)])
    case WorkerDies(t) => f.(tasks := f.tasks - {t})
  }

  ghost predicate Run(f: Fleet, steps: seq<Step>, g: Fleet)
    decreases |steps|
  {
    if steps == [] then f == g
    else Enabled(f, steps[0]) && Run(Apply(f, steps[0]), steps[1..], g)
  }

  /** The log may already hold rows; nothing has been handled yet. */
  ghost predicate Init(f: Fleet)
  {
    f.tasks == map[] && f.inserted == {} && f.passed == [] && f.sends == []
  }

  /** The multicasts of one event, in order. */
  function SendsOf(sends: seq<Multicast>, id: EventId): seq<Multicast>
  {
    if sends == [] then []
    else
      var m := sends[|sends| - 1];
      SendsOf(sends[..|sends| - 1], id) + (if m.eventId == id then [m] else [])
  }

  predicate Disjoint(a: seq<Token>, b: seq<Token>)
  {
    forall t :: t in a ==> t !in b
  }

  /** `b` is the retry of `a`. */
  predicate RetryOf(a: Multicast, b: Multicast)
  {
    a.threw && a.tokens == b.tokens
  }

  /** Tokens are distinct within a multicast, and repeated only by the retry right after one that threw. */
  ghost predicate Lawful(ms: seq<Multicast>)
  {
    && (forall i :: 0 <= i < |ms| ==> Distinct(ms[i].tokens) && ms[i].tokens != [])
    && (forall i, j :: 0 <= i < j < |ms| ==>
          Disjoint(ms[i].tokens, ms[j].tokens) || (j == i + 1 && RetryOf(ms[i], ms[j])))
  }

  /** How the multicasts made so far for a task's event relate to the chunks it has left. */
  ghost predicate OnTrack(ms: seq<Multicast>, task: Task)
  {
    match task
    case Inserting(_) => true
    case Fetching(_) => ms == []
    case Sending(_, rest, retrying) =>
      && Distinct(Flatten(rest))
      && (forall c :: c in rest ==> c != [])
      && (retrying ==> rest != [] && ms != [] && ms[|ms| - 1].threw && ms[|ms| - 1].tokens == rest[0])
      && (forall i :: 0 <= i < |ms| - (if retrying then 1 else 0) ==> Disjoint(ms[i].tokens, Flatten(rest)))
  }

  /** The handler's insert has succeeded. */
  predicate Passed(f: Fleet, t: TaskId)
  {
    t in f.tasks && !f.tasks[t].Inserting?
  }

  ghost predicate Inv(f: Fleet)
  {
    && (forall id :: id in f.passed ==> id in f.log)
    && (forall i, j :: 0 <= i < j < |f.passed| ==> f.passed[i] != f.passed[j])
    && (forall i :: 0 <= i < |f.sends| ==> f.sends[i].eventId in f.passed)
    && (forall t :: Passed(f, t) ==>
          f.tasks[t].e.eventId in f.passed && OnTrack(SendsOf(f.sends, f.tasks[t].e.eventId), f.tasks[t]))
    && (forall t, u :: Passed(f, t) && Passed(f, u) && f.tasks[t].e.eventId == f.tasks[u].e.eventId ==> t == u)
    && (forall id :: Lawful(SendsOf(f.sends, id)))
  }

  lemma {:induction false} SendsOfAbsent(sends: seq<Multicast>, id: EventId)
    requires forall i :: 0 <= i < |sends| ==> sends[i].eventId != id
    ensures SendsOf(sends, id) == []
  {
    if sends != [] {
      SendsOfAbsent(sends[..|sends| - 1], id);
    }
  }

  lemma SendsOfSnoc(sends: seq<Multicast>, m: Multicast, id: EventId)
    ensures SendsOf(sends + [m], id) == SendsOf(sends, id) + (if m.eventId == id then [m] else [])
  {
    assert (sends + [m])[..|sends|] == sends;
  }

  /** One more multicast of the chunk due keeps the event's multicasts lawful and the send on track. */
  lemma NextChunkLawful(ms: seq<Multicast>, task: Task, threw: bool)
    requires Lawful(ms) && task.Sending? && task.rest != [] && OnTrack(ms, task)
    ensures var m := Multicast(task.e.eventId, task.rest[0], threw);
      && Lawful(ms + [m])
      && OnTrack(ms + [m], if threw && !task.retrying then Sending(task.e, task.rest, true)
                           else Sending(task.e, task.rest[1..], false))
  {
    var chunk := task.rest[0];
    var others := Flatten(task.rest[1..]);
    assert Flatten(task.rest) == chunk + others;
    assert Distinct(chunk) && Distinct(others) && Disjoint(chunk, others) by {
      DistinctParts(chunk, others);
    }
    assert chunk in task.rest && forall c :: c in task.rest[1..] ==> c in task.rest;
    var m := Multicast(task.e.eventId, chunk, threw);
    var ms' := ms + [m];
    forall i | 0 <= i < |ms|
      ensures Disjoint(ms[i].tokens, others)
      ensures Disjoint(ms[i].tokens, chunk) || (i == |ms| - 1 && RetryOf(ms[i], m))
      ensures !task.retrying ==> Disjoint(ms[i].tokens, chunk)
    {
      if task.retrying && i == |ms| - 1 {
        assert ms[i].tokens == chunk;
      } else {
        assert Disjoint(ms[i].tokens, Flatten(task.rest));
      }
    }
    assert Lawful(ms');
  }

  lemma DistinctParts(a: seq<Token>, b: seq<Token>)
    requires Distinct(a + b)
    ensures Distinct(a) && Distinct(b) && Disjoint(a, b)
  {
    var c := a + b;
    assert forall i :: 0 <= i < |a| ==> c[i] == a[i];
    assert forall i :: 0 <= i < |b| ==> c[|a| + i] == b[i];
  }

  lemma LogStepKeeps(f: Fleet, step: Step)
    requires Inv(f) && Enabled(f, step)
    requires step.Handle? || step.InsertDuplicate? || step.InsertFails? || step.WorkerDies?
    ensures Inv(Apply(f, step))
  {
  }

  lemma InsertKeeps(f: Fleet, step: Step)
    requires Inv(f) && Enabled(f, step) && step.InsertOk?
    ensures Inv(Apply(f, step))
  {
    var g := Apply(f, step);
    var id := f.tasks[step.t].e.eventId;
    assert id !in f.passed;
    SendsOfAbsent(f.sends, id);
    assert forall t :: Passed(f, t) ==> f.tasks[t].e.eventId != id;
    assert forall t :: Passed(g, t) && t != step.t ==> Passed(f, t) && g.tasks[t] == f.tasks[t];
  }

  lemma FetchKeeps(f: Fleet, step: Step)
    requires Inv(f) && Enabled(f, step) && step.DevicesFetched?
    ensures Inv(Apply(f, step))
  {
    var g := Apply(f, step);
    PlanReachesEachRecipientOnce(step.devices, f.tasks[step.t].e);
    assert Passed(f, step.t);
    assert forall t :: Passed(g, t) && t != step.t ==> Passed(f, t) && g.tasks[t] == f.tasks[t];
  }

  lemma MulticastKeeps(f: Fleet, step: Step)
    requires Inv(f) && Enabled(f, step) && step.MulticastDone?
    ensures Inv(Apply(f, step))
  {
    var g := Apply(f, step);
    var task := f.tasks[step.t];
    var id := task.e.eventId;
    var m := Multicast(id, task.rest[0], step.threw);
    assert Passed(f, step.t);
    NextChunkLawful(SendsOf(f.sends, id), task, step.threw);
    forall i: EventId ensures Lawful(SendsOf(g.sends, i)) {
      SendsOfSnoc(f.sends, m, i);
      assert Lawful(SendsOf(f.sends, i));
    }
    forall t | Passed(g, t)
      ensures g.tasks[t].e.eventId in g.passed && OnTrack(SendsOf(g.sends, g.tasks[t].e.eventId), g.tasks[t])
    {
      SendsOfSnoc(f.sends, m, g.tasks[t].e.eventId);
      if t != step.t {
        assert Passed(f, t);
      }
    }
  }

  lemma {:induction false} RunKeeps(f: Fleet, steps: seq<Step>, g: Fleet)
    requires Inv(f) && Run(f, steps, g)
    ensures Inv(g)
    decreases |steps|
  {
    if steps != [] {
      match steps[0] {
        case InsertOk(_, _) => InsertKeeps(f, steps[0]);
        case DevicesFetched(_, _) => FetchKeeps(f, steps[0]);
        case MulticastDone(_, _) => MulticastKeeps(f, steps[0]);
        case _ => LogStepKeeps(f, steps[0]);
      }
      RunKeeps(Apply(f, steps[0]), steps[1..], g);
    }
  }

  lemma InitInv(f: Fleet)
    requires Init(f)
    ensures Inv(f)
  {
  }

  // ------------------------------------------------------------ main results

  /** The multicasts that address token `t`. */
  function Addressing(ms: seq<Multicast>, t: Token): seq<Multicast>
  {
    if ms == [] then []
    else
      var m := ms[|ms| - 1];
      Addressing(ms[..|ms| - 1], t) + (if t in m.tokens then [m] else [])
  }

  lemma {:induction false} NoneAddress(ms: seq<Multicast>, t: Token)
    requires forall i :: 0 <= i < |ms| ==> t !in ms[i].tokens
    ensures Addressing(ms, t) == []
  {
    if ms != [] {
      NoneAddress(ms[..|ms| - 1], t);
    }
  }

  lemma {:induction false} LawfulAddressing(ms: seq<Multicast>, t: Token)
    requires Lawful(ms)
    ensures |Addressing(ms, t)| <= 2
    ensures |Addressing(ms, t)| == 2 ==> RetryOf(Addressing(ms, t)[0], Addressing(ms, t)[1])
  {
    if ms != [] {
      var p, m := ms[..|ms| - 1], ms[|ms| - 1];
      LawfulAddressing(p, t);
      if t in m.tokens && p != [] {
        var q := p[..|p| - 1];
        forall i | 0 <= i < |q| ensures t !in q[i].tokens {
          assert Disjoint(ms[i].tokens, ms[|ms| - 1].tokens);
        }
        NoneAddress(q, t);
      }
    }
  }

  /**
   At-most-once fan-out: whatever events arrive, live or in catch-ups, and however handlers interleave,
   an event id passes the insert at most once, and a device token is addressed by at most one multicast
   of that event, or by two when the first of them threw.
   */
  lemma AtMostOnceFanout(f0: Fleet, steps: seq<Step>, f: Fleet, id: EventId, t: Token)
    requires Init(f0) && Run(f0, steps, f)
    ensures forall i, j :: 0 <= i < j < |f.passed| ==> f.passed[i] != f.passed[j]
    ensures var a := Addressing(SendsOf(f.sends, id), t);
      |a| <= 2 && (|a| == 2 ==> RetryOf(a[0], a[1]))
    ensures SendsOf(f.sends, id) != [] ==> id in f.passed
  {
    InitInv(f0);
    RunKeeps(f0, steps, f);
    LawfulAddressing(SendsOf(f.sends, id), t);
    if id !in f.passed {
      SendsOfAbsent(f.sends, id);
    }
  }

  /** An id already in the log when the run starts, or left there by a failed insert, is never sent. */
  lemma {:induction false} LoggedBeforeNeverSent(f0: Fleet, steps: seq<Step>, f: Fleet, id: EventId)
    requires Inv(f0) && Run(f0, steps, f)
    requires id in f0.log && id !in f0.passed
    ensures id in f.log && id !in f.passed && SendsOf(f.sends, id) == []
    decreases |steps|
  {
    if steps == [] {
      SendsOfAbsent(f.sends, id);
    } else {
      assert Run(f0, [steps[0]], Apply(f0, steps[0])) by {
        assert Run(Apply(f0, steps[0]), [], Apply(f0, steps[0]));
        assert [steps[0]][1..] == [];
      }
      RunKeeps(f0, [steps[0]], Apply(f0, steps[0]));
      LoggedBeforeNeverSent(Apply(f0, steps[0]), steps[1..], f, id);
    }
  }

  // ------------------------------------------ what is refused, and what gets through

  /** The log holds what it held at first and the ids of the events inserted; every event about is a mapped one. */
  ghost predicate LogAccounted(first: set<EventId>, f: Fleet)
  {
    && (forall id :: id in f.log ==> id in first || exists d :: d in f.inserted && d.eventId == id)
    && (forall d :: d in f.inserted ==> PushEvents.IsMapped(d))
    && (forall t :: t in f.tasks ==> PushEvents.IsMapped(f.tasks[t].e))
  }

  lemma StepKeepsAccount(first: set<EventId>, f: Fleet, step: Step)
    requires LogAccounted(first, f) && Enabled(f, step)
    ensures LogAccounted(first, Apply(f, step))
  {
    var g := Apply(f, step);
    assert forall d :: d in f.inserted ==> d in g.inserted;
    forall id | id in g.log
      ensures id in first || exists d :: d in g.inserted && d.eventId == id
    {
      if id !in f.log {
        assert f.tasks[step.t].e in g.inserted;
      }
    }
  }

  lemma {:induction false} RunKeepsAccount(first: set<EventId>, f: Fleet, steps: seq<Step>, g: Fleet)
    requires LogAccounted(first, f) && Run(f, steps, g)
    ensures LogAccounted(first, g)
    decreases |steps|
  {
    if steps != [] {
      StepKeepsAccount(first, f, steps[0]);
      RunKeepsAccount(first, Apply(f, steps[0]), steps[1..], g);
    }
  }

  /**
   Nothing but a repetition is refused: when an insert finds its id in the log, it was there before the
   run, or an event of the very same menu, call, kind and time was inserted.
   */
  lemma OnlyRepetitionsRefused(f0: Fleet, steps: seq<Step>, f: Fleet, t: TaskId)
    requires Init(f0) && Run(f0, steps, f) && Enabled(f, InsertDuplicate(t))
    ensures var e := f.tasks[t].e;
      || e.eventId in f0.log
      || exists d :: d in f.inserted
           && d.menuId == e.menuId && d.staffCallId == e.staffCallId && d.kind == e.kind && d.at == e.at
  {
    RunKeepsAccount(f0.log, f0, steps, f);
    var e := f.tasks[t].e;
    if e.eventId !in f0.log {
      var d :| d in f.inserted && d.eventId == e.eventId;
      PushEvents.EventIdInjective(d.menuId, d.staffCallId, d.kind, d.at, e.menuId, e.staffCallId, e.kind, e.at);
    }
  }

  /** The chunk was multicast for the event, after the first `from` multicasts. */
  ghost predicate SentAfter(sends: seq<Multicast>, from: nat, id: EventId, chunk: seq<Token>)
  {
    exists i :: from <= i < |sends| && sends[i].eventId == id && sends[i].tokens == chunk
  }

  /** While a handler lives, its chunks are sent one after the other, whatever runs beside it. */
  lemma {:induction false} ChunksGetThrough(f: Fleet, steps: seq<Step>, g: Fleet, t: TaskId)
    requires Run(f, steps, g) && WorkerDies(t) !in steps
    requires t in f.tasks && f.tasks[t].Sending?
    ensures t in g.tasks && g.tasks[t].Sending? && g.tasks[t].e == f.tasks[t].e && f.sends <= g.sends
    ensures forall c :: c in f.tasks[t].rest ==> c in g.tasks[t].rest || SentAfter(g.sends, |f.sends|, f.tasks[t].e.eventId, c)
    decreases |steps|
  {
    if steps != [] {
      var next := Apply(f, steps[0]);
      var e, rest := f.tasks[t].e, f.tasks[t].rest;
      assert steps[0] in steps && forall s :: s in steps[1..] ==> s in steps;
      assert f.sends <= next.sends;
      ChunksGetThrough(next, steps[1..], g, t);
      forall c | c in rest && c !in g.tasks[t].rest
        ensures SentAfter(g.sends, |f.sends|, e.eventId, c)
      {
        if c in next.tasks[t].rest {
          var i :| |next.sends| <= i < |g.sends| && g.sends[i].eventId == e.eventId && g.sends[i].tokens == c;
        } else {
          assert steps[0] == MulticastDone(t, steps[0].threw) && c == rest[0];
          assert g.sends[|f.sends|] == next.sends[|f.sends|];
        }
      }
    }
  }

  /** Multicast `i` threw, and is neither a retry, nor followed by one, nor the last one with its retry to come. */
  predicate LeftUnretried(ms: seq<Multicast>, retrying: bool, i: nat)
    requires i < |ms|
  {
    && ms[i].threw
    && !(i > 0 && RetryOf(ms[i - 1], ms[i]))
    && !(i + 1 < |ms| && ms[i + 1].tokens == ms[i].tokens)
    && !(i == |ms| - 1 && retrying)
  }

  ghost predicate NoneUnretried(ms: seq<Multicast>, retrying: bool)
  {
    forall i: nat :: i < |ms| ==> !LeftUnretried(ms, retrying, i)
  }

  /** So far a live handler has sent again whatever threw, or is about to. */
  ghost predicate Retries(f: Fleet)
  {
    forall t :: Passed(f, t) ==>
      NoneUnretried(SendsOf(f.sends, f.tasks[t].e.eventId), f.tasks[t].Sending? && f.tasks[t].retrying)
  }

  lemma NextIsRetried(ms: seq<Multicast>, task: Task, threw: bool)
    requires task.Sending? && task.rest != [] && OnTrack(ms, task) && NoneUnretried(ms, task.retrying)
    ensures NoneUnretried(ms + [Multicast(task.e.eventId, task.rest[0], threw)], threw && !task.retrying)
  {
    var m := Multicast(task.e.eventId, task.rest[0], threw);
    var longer, again := ms + [m], threw && !task.retrying;
    forall i: nat | i < |longer| ensures !LeftUnretried(longer, again, i) {
      if i < |ms| {
        assert !LeftUnretried(ms, task.retrying, i);
        assert longer[i] == ms[i] && (i > 0 ==> longer[i - 1] == ms[i - 1]);
      }
    }
  }

  lemma StepKeepsRetries(f: Fleet, step: Step)
    requires Inv(f) && Retries(f) && Enabled(f, step)
    ensures Retries(Apply(f, step))
  {
    var g := Apply(f, step);
    forall t | Passed(g, t)
      ensures NoneUnretried(SendsOf(g.sends, g.tasks[t].e.eventId), g.tasks[t].Sending? && g.tasks[t].retrying)
    {
      var id := g.tasks[t].e.eventId;
      if step.MulticastDone? {
        var task := f.tasks[step.t];
        assert Passed(f, step.t) && Passed(f, t);
        SendsOfSnoc(f.sends, Multicast(task.e.eventId, task.rest[0], step.threw), id);
        if t == step.t {
          NextIsRetried(SendsOf(f.sends, id), task, step.threw);
        } else {
          assert SendsOf(f.sends, id) + [] == SendsOf(f.sends, id);
        }
      } else if step.InsertOk? && t == step.t {
        SendsOfAbsent(f.sends, id);
      } else if step.DevicesFetched? && t == step.t {
        assert Passed(f, t);
      } else {
        assert Passed(f, t) && g.tasks[t] == f.tasks[t];
      }
    }
  }

  lemma {:induction false} RunKeepsRetries(f: Fleet, steps: seq<Step>, g: Fleet)
    requires Inv(f) && Retries(f) && Run(f, steps, g)
    ensures Inv(g) && Retries(g)
    decreases |steps|
  {
    if steps != [] {
      StepKeepsRetries(f, steps[0]);
      assert Run(f, [steps[0]], Apply(f, steps[0])) by {
        assert Run(Apply(f, steps[0]), [], Apply(f, steps[0]));
        assert [steps[0]][1..] == [];
      }
      RunKeeps(f, [steps[0]], Apply(f, steps[0]));
      RunKeepsRetries(Apply(f, steps[0]), steps[1..], g);
    }
  }

  /** A token's multicasts, among those with nothing left to retry: one that went through, or one that threw and its retry. */
  predicate SentOnce(a: seq<Multicast>)
  {
    (|a| == 1 && !a[0].threw) || (|a| == 2 && a[0].threw && a[1].tokens == a[0].tokens)
  }

  /** A token addressed anywhere is addressed at places that `Addressing` lists in order. */
  lemma {:induction false} AddressedAt(ms: seq<Multicast>, t: Token, i: nat)
    requires i < |ms| && t in ms[i].tokens
    ensures ms[i] in Addressing(ms, t)
    ensures i + 1 < |ms| && t in ms[i + 1].tokens ==> |Addressing(ms, t)| >= 2
  {
    var p := ms[..|ms| - 1];
    if i < |p| {
      AddressedAt(p, t, i);
    }
  }

  lemma {:induction false} AddressingIsFrom(ms: seq<Multicast>, t: Token, m: Multicast)
    requires m in Addressing(ms, t)
    ensures exists i: nat :: i < |ms| && ms[i] == m && t in m.tokens
  {
    var p, last := ms[..|ms| - 1], ms[|ms| - 1];
    if m in Addressing(p, t) {
      AddressingIsFrom(p, t, m);
      var i: nat :| i < |p| && p[i] == m && t in m.tokens;
      assert ms[i] == m;
    } else {
      assert ms[|ms| - 1] == m;
    }
  }

  lemma AddressedIsSentOnce(ms: seq<Multicast>, t: Token)
    requires Lawful(ms) && NoneUnretried(ms, false) && Addressing(ms, t) != []
    ensures SentOnce(Addressing(ms, t))
  {
    var a := Addressing(ms, t);
    LawfulAddressing(ms, t);
    if |a| == 1 && a[0].threw {
      AddressingIsFrom(ms, t, a[0]);
      var i: nat :| i < |ms| && ms[i] == a[0] && t in a[0].tokens;
      assert !LeftUnretried(ms, false, i);
      if i > 0 && RetryOf(ms[i - 1], ms[i]) {
        AddressedAt(ms, t, i - 1);
      } else {
        AddressedAt(ms, t, i);
      }
      assert false;
    }
  }

  /**
   Nobody is left out: once a handler that got its devices has sent all it planned, whatever ran beside
   it, each device that should receive the event has been sent it by one multicast, or by one that threw
   and its retry.
   */
  lemma EveryRecipientReached(f0: Fleet, before: seq<Step>, f: Fleet, devices: seq<Device>, steps: seq<Step>, g: Fleet,
                              t: TaskId, d: Device)
    requires Init(f0) && Run(f0, before, f)
    requires Enabled(f, DevicesFetched(t, devices)) && Run(Apply(f, DevicesFetched(t, devices)), steps, g)
    requires WorkerDies(t) !in steps && t in g.tasks && g.tasks[t].Sending? && g.tasks[t].rest == []
    requires d in devices
    requires var e, ps := f.tasks[t].e, d.permissions;
      match e.kind
      case NewCall => if e.channel.Delivery? then DeliveryView in ps
                      else OrdersView in ps && (OrdersConfirm in ps || OrdersPrepare in ps)
      case _ => OrdersConfirm in ps
    ensures SentOnce(Addressing(SendsOf(g.sends, f.tasks[t].e.eventId), d.fcmToken))
  {
    var e := f.tasks[t].e;
    var next := Apply(f, DevicesFetched(t, devices));
    var id := e.eventId;
    assert Lawful(SendsOf(g.sends, id)) && NoneUnretried(SendsOf(g.sends, id), false) by {
      InitInv(f0);
      RunKeepsRetries(f0, before, f);
      FetchKeeps(f, DevicesFetched(t, devices));
      StepKeepsRetries(f, DevicesFetched(t, devices));
      RunKeepsRetries(next, steps, g);
      ChunksGetThrough(next, steps, g, t);
      assert Passed(g, t) && !g.tasks[t].retrying;
    }
    PlannedIsAddressed(next, steps, g, t, devices, d);
    AddressedIsSentOnce(SendsOf(g.sends, id), d.fcmToken);
  }

  lemma PlannedIsAddressed(f: Fleet, steps: seq<Step>, g: Fleet, t: TaskId, devices: seq<Device>, d: Device)
    requires Run(f, steps, g) && WorkerDies(t) !in steps && TokensUnique(devices)
    requires t in f.tasks && f.tasks[t].Sending? && f.tasks[t].rest == Plan(devices, f.tasks[t].e)
    requires t in g.tasks && g.tasks[t].Sending? && g.tasks[t].rest == []
    requires d in devices && ShouldReceive(d, f.tasks[t].e)
    ensures Addressing(SendsOf(g.sends, f.tasks[t].e.eventId), d.fcmToken) != []
  {
    var e := f.tasks[t].e;
    ChunksGetThrough(f, steps, g, t);
    PlanReachesEachRecipientOnce(devices, e);
    assert ReachedBy(devices, e, d.fcmToken);
    var c := ChunkWith(Plan(devices, e), d.fcmToken);
    var i :| |f.sends| <= i < |g.sends| && g.sends[i].eventId == e.eventId && g.sends[i].tokens == c;
    SentIsAddressed(g.sends, e.eventId, d.fcmToken, i);
  }

  lemma {:induction false} ChunkWith(cs: seq<seq<Token>>, t: Token) returns (c: seq<Token>)
    requires t in Flatten(cs)
    ensures c in cs && t in c
  {
    if t in cs[0] {
      c := cs[0];
    } else {
      c := ChunkWith(cs[1..], t);
    }
  }

  lemma {:induction false} SentIsAddressed(sends: seq<Multicast>, id: EventId, t: Token, i: nat)
    requires i < |sends| && sends[i].eventId == id && t in sends[i].tokens
    ensures Addressing(SendsOf(sends, id), t) != []
  {
    var p, m := sends[..|sends| - 1], sends[|sends| - 1];
    var before := SendsOf(p, id);
    if i < |p| {
      SentIsAddressed(p, id, t, i);
    }
    if m.eventId == id {
      assert SendsOf(sends, id) == before + [m] && (before + [m])[..|before|] == before;
    } else {
      assert SendsOf(sends, id) == before;
    }
  }

  lemma {:induction false} SendAllRetries(sends: seq<Multicast>, throwsAt: nat -> bool, id: EventId, plan: seq<seq<Token>>)
    ensures var all := SendAll(sends, throwsAt, id, plan);
      sends <= all && NoneUnretried(all[|sends|..], false)
    decreases plan
  {
    if plan != [] {
      var first := SendChunk(sends, throwsAt, id, plan[0]);
      var all := SendAll(sends, throwsAt, id, plan);
      SendAllRetries(first, throwsAt, id, plan[1..]);
      assert all[|sends|..] == first[|sends|..] + all[|first|..];
      UnretriedParts(first[|sends|..], all[|first|..]);
    }
  }

  lemma {:induction false} SendAllSends(sends: seq<Multicast>, throwsAt: nat -> bool, id: EventId, plan: seq<seq<Token>>)
    ensures var all := SendAll(sends, throwsAt, id, plan);
      && sends <= all
      && (forall c :: c in plan ==> SentAfter(all, |sends|, id, c))
      && (forall i :: |sends| <= i < |all| ==> all[i].eventId == id && all[i].tokens in plan && all[i].threw == throwsAt(i))
    decreases plan
  {
    if plan != [] {
      var first := SendChunk(sends, throwsAt, id, plan[0]);
      var all := SendAll(sends, throwsAt, id, plan);
      SendAllSends(first, throwsAt, id, plan[1..]);
      assert forall i :: 0 <= i < |first| ==> all[i] == first[i];
      forall c | c in plan ensures SentAfter(all, |sends|, id, c) {
        if c == plan[0] {
          assert all[|sends|].tokens == c;
        } else {
          assert c in plan[1..];
          var i :| |first| <= i < |all| && all[i].eventId == id && all[i].tokens == c;
        }
      }
    }
  }

  /** With nothing running beside, the plan's chunks are multicast, and nothing else, and again whatever threw. */
  lemma SendAllExactly(sends: seq<Multicast>, throwsAt: nat -> bool, id: EventId, plan: seq<seq<Token>>)
    ensures var all := SendAll(sends, throwsAt, id, plan);
      && sends <= all
      && NoneUnretried(all[|sends|..], false)
      && (forall c :: c in plan ==> SentAfter(all, |sends|, id, c))
      && (forall i :: |sends| <= i < |all| ==> all[i].eventId == id && all[i].tokens in plan && all[i].threw == throwsAt(i))
  {
    SendAllRetries(sends, throwsAt, id, plan);
    SendAllSends(sends, throwsAt, id, plan);
  }

  lemma UnretriedParts(a: seq<Multicast>, b: seq<Multicast>)
    requires NoneUnretried(b, false)
    requires (|a| == 1 && !a[0].threw) || (|a| == 2 && a[0].threw && a[1].tokens == a[0].tokens)
    ensures NoneUnretried(a + b, false)
  {
    var c := a + b;
    forall i: nat | i < |c| ensures !LeftUnretried(c, false, i) {
      if i >= |a| {
        assert !LeftUnretried(b, false, i - |a|);
        assert c[i] == b[i - |a|];
      }
    }
  }

  /** A handler whose insert succeeds and that the limiter lets through is next to send its plan; one that it does not sends nothing. */
  lemma InsertedEventIsSent(f: Fleet, t: TaskId, devices: seq<Device>)
    requires Enabled(f, InsertOk(t, true)) && TokensUnique(devices)
    ensures var e := f.tasks[t].e;
      var g := Apply(f, InsertOk(t, true));
      && Enabled(g, DevicesFetched(t, devices))
      && var h := Apply(g, DevicesFetched(t, devices));
         && t in h.tasks && h.tasks[t] == Sending(e, Plan(devices, e), false)
         && h.sends == f.sends && e.eventId in h.log && h.passed == f.passed + [e.eventId]
    ensures var g := Apply(f, InsertOk(t, false));
      t !in g.tasks && g.sends == f.sends && f.tasks[t].e.eventId in g.log
  {
  }

  /** A duplicate, or an insert that failed, sends nothing either. */
  lemma RefusedEventIsDropped(f: Fleet, step: Step)
    requires Enabled(f, step) && (step.InsertDuplicate? || step.InsertFails?)
    ensures var g := Apply(f, step);
      && step.t !in g.tasks && g.sends == f.sends && g.passed == f.passed
      && (step.InsertDuplicate? || !step.applied ==> g.log == f.log)
  {
  }
}
