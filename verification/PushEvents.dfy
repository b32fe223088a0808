/** Mapping upstream call payloads to push events (`fcm-event.mapper.ts`). */
module PushEvents {
  import opened Numbers
  import opened Wrappers

  datatype Kind = NewCall | GuestAdd | Bill | WaiterRequest

  datatype Channel = Table | Delivery

  datatype RequestKind = OrderRequest | WaiterCall | BillCall

  /** A call's status as the mapper reads it: pending or absent, or anything else. */
  datatype CallStatus = PendingOrAbsent | Other

  /** A payload with its fields already read; ids are there only when positive, times already trimmed. */
  datatype Payload = Payload(
    menuId: Option<nat>,
    id: Option<nat>,
    requestKind: RequestKind,
    status: CallStatus,
    pendingGuestAddition: bool,
    pendingBillRequest: bool,
    at: Option<string>,
    createdAt: Option<string>)

  datatype Event = Event(menuId: nat, staffCallId: nat, kind: Kind, channel: Channel, at: string, eventId: string)

  /** `coerceAt`: the payload's own time when it has a non-blank one, else the clock's. */
  function CoerceAt(p: Payload, clock: string): string
  {
    var raw := if p.at.Some? then p.at else p.createdAt;
    if raw.Some? && raw.value != "" then raw.value else clock
  }

  function KindName(k: Kind): string
  {
    match k
    case NewCall => "new_call"
    case GuestAdd => "guest_add"
    case Bill => "bill"
    case WaiterRequest => "waiter_request"
  }

  function EventId(menuId: nat, staffCallId: nat, kind: Kind, at: string): string
  {
    "fcm" + ":" + (Decimal(menuId) + ":" + (Decimal(staffCallId) + ":" + (KindName(kind) + ":" + at)))
  }

  function MakeEvent(p: Payload, kind: Kind, channel: Channel, clock: string): Event
    requires p.menuId.Some? && p.id.Some?
  {
    var at := CoerceAt(p, clock);
    Event(p.menuId.value, p.id.value, kind, channel, at, EventId(p.menuId.value, p.id.value, kind, at))
  }

  function MapNewTableCall(p: Payload, channel: Channel, clock: string): Option<Event>
  {
    if p.menuId.None? || p.id.None? then None else Some(MakeEvent(p, NewCall, channel, clock))
  }

  function AttentionKind(p: Payload): Option<Kind>
  {
    if p.pendingGuestAddition then Some(GuestAdd)
    else if p.pendingBillRequest || (p.requestKind.BillCall? && p.status.PendingOrAbsent?) then Some(Bill)
    else if p.requestKind.WaiterCall? && p.status.PendingOrAbsent? then Some(WaiterRequest)
    else None
  }

  function MapAttentionChanged(p: Payload, channel: Channel, clock: string): Option<Event>
  {
    if p.menuId.None? || p.id.None? then None
    else match AttentionKind(p)
         case None => None
         case Some(kind) => Some(MakeEvent(p, kind, channel, clock))
  }

  // ------------------------------------------------------- event ids are unique

  lemma FirstColonSplits(a: string, f: string, b: string, g: string)
    requires a + ":" + f == b + ":" + g
    requires ':' !in a && ':' !in b
    ensures a == b && f == g
  {
    var s := a + ":" + f;
    assert s[|a|] == ':' && s[|b|] == ':';
    assert forall i :: 0 <= i < |a| ==> s[i] == a[i];
    assert forall i :: 0 <= i < |b| ==> s[i] == b[i];
    assert |a| == |b|;
    assert a == s[..|a|] && f == s[|a| + 1..] && b == s[..|b|] && g == s[|b| + 1..];
  }

  lemma KindNameInjective(k: Kind, l: Kind)
    requires KindName(k) == KindName(l)
    ensures k == l
  {
    assert |KindName(NewCall)| == 8 && |KindName(GuestAdd)| == 9 && |KindName(Bill)| == 4 && |KindName(WaiterRequest)| == 14;
  }

  /** Two events share an id only if they agree in menu, call, kind and time, whatever the time's text. */
  lemma EventIdInjective(m1: nat, c1: nat, k1: Kind, at1: string, m2: nat, c2: nat, k2: Kind, at2: string)
    ensures EventId(m1, c1, k1, at1) == EventId(m2, c2, k2, at2) <==> m1 == m2 && c1 == c2 && k1 == k2 && at1 == at2
  {
    if EventId(m1, c1, k1, at1) == EventId(m2, c2, k2, at2) {
      var kind1, kind2 := KindName(k1) + ":" + at1, KindName(k2) + ":" + at2;
      var call1, call2 := Decimal(c1) + ":" + kind1, Decimal(c2) + ":" + kind2;
      FirstColonSplits("fcm", Decimal(m1) + ":" + call1, "fcm", Decimal(m2) + ":" + call2);
      FirstColonSplits(Decimal(m1), call1, Decimal(m2), call2);
      FirstColonSplits(Decimal(c1), kind1, Decimal(c2), kind2);
      FirstColonSplits(KindName(k1), at1, KindName(k2), at2);
      DecimalInjective(m1, m2);
      DecimalInjective(c1, c2);
      KindNameInjective(k1, k2);
    }
  }

  /** A new call and a later attention change never share an event id, so neither suppresses the other. */
  lemma NewCallNeverMasksAttention(p: Payload, q: Payload, c: Channel, d: Channel, clock1: string, clock2: string)
    requires MapNewTableCall(p, c, clock1).Some? && MapAttentionChanged(q, d, clock2).Some?
    ensures MapNewTableCall(p, c, clock1).value.eventId != MapAttentionChanged(q, d, clock2).value.eventId
  {
    var e, f := MapNewTableCall(p, c, clock1).value, MapAttentionChanged(q, d, clock2).value;
    EventIdInjective(e.menuId, e.staffCallId, e.kind, e.at, f.menuId, f.staffCallId, f.kind, f.at);
  }

  /** An event as the mappers make them: its id is made of its own menu, call, kind and time. */
  predicate IsMapped(e: Event)
  {
    e.eventId == EventId(e.menuId, e.staffCallId, e.kind, e.at)
  }

  /** Both mappers make such events, and of these two with one id are for one menu, call, kind and time. */
  lemma MappedEventsTellApart(p: Payload, channel: Channel, clock: string, d: Event, e: Event)
    ensures MapNewTableCall(p, channel, clock).Some? ==> IsMapped(MapNewTableCall(p, channel, clock).value)
    ensures MapAttentionChanged(p, channel, clock).Some? ==> IsMapped(MapAttentionChanged(p, channel, clock).value)
    ensures IsMapped(d) && IsMapped(e) ==>
      (d.eventId == e.eventId <==> d.menuId == e.menuId && d.staffCallId == e.staffCallId && d.kind == e.kind && d.at == e.at)
  {
    EventIdInjective(d.menuId, d.staffCallId, d.kind, d.at, e.menuId, e.staffCallId, e.kind, e.at);
  }

  /** What an event says of its payload: whose it is, on which channel it came, and when. */
  predicate Tells(e: Event, p: Payload, channel: Channel, clock: string)
  {
    && p.menuId == Some(e.menuId) && p.id == Some(e.staffCallId) && e.channel == channel
    && (p.at.Some? && p.at.value != "" ==> e.at == p.at.value)
    && (p.at.None? && p.createdAt.Some? && p.createdAt.value != "" ==> e.at == p.createdAt.value)
    && (p.at == Some("") || (p.at.None? && (p.createdAt.None? || p.createdAt == Some(""))) ==> e.at == clock)
  }

  /** A payload with ids gives a new-call event; a changed call gives one for a guest addition first, then a bill, then a waiter. */
  lemma MappedEventsTell(p: Payload, channel: Channel, clock: string)
    ensures var e := MapNewTableCall(p, channel, clock);
      && (e.Some? <==> p.menuId.Some? && p.id.Some?)
      && (e.Some? ==> e.value.kind == NewCall && Tells(e.value, p, channel, clock))
    ensures var e := MapAttentionChanged(p, channel, clock);
      && (e.Some? ==> Tells(e.value, p, channel, clock))
      && (e.Some? && p.pendingGuestAddition ==> e.value.kind == GuestAdd)
      && (e.Some? && !p.pendingGuestAddition && p.pendingBillRequest ==> e.value.kind == Bill)
  {
  }

  predicate HasOwnTime(p: Payload)
  {
    var raw := if p.at.Some? then p.at else p.createdAt;
    raw.Some? && raw.value != ""
  }

  /**
   The same call seen twice (live, then in a catch-up, perhaps with its channel resolved differently)
   gets one event id exactly when it carries its own time or the clock did not move: without a time,
   the id is made from the clock.
   */
  lemma ReplayKeepsEventId(p: Payload, c: Channel, d: Channel, clock1: string, clock2: string)
    requires MapNewTableCall(p, c, clock1).Some?
    ensures MapNewTableCall(p, d, clock2).Some?
    ensures MapNewTableCall(p, c, clock1).value.eventId == MapNewTableCall(p, d, clock2).value.eventId <==>
      clock1 == clock2 || HasOwnTime(p)
  {
    var e, f := MapNewTableCall(p, c, clock1).value, MapNewTableCall(p, d, clock2).value;
    EventIdInjective(e.menuId, e.staffCallId, e.kind, e.at, f.menuId, f.staffCallId, f.kind, f.at);
  }
}
