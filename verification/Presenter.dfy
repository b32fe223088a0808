/** Presented orders: building, hydrating, enriching and scoping them (`staff-order-presenter.service.ts`). */
module Presenter {
  import opened ActionDetails
  import opened Numbers
  import opened OrderActions
  import opened OrderStatus
  import opened Sequences
  import opened TerminalAt
  import opened Wrappers

  datatype Item = Item(name: string, quantity: nat, total: int)

  /** The free-text fields a call row can fill in. */
  datatype Info = Info(
    tableNumber: Option<string>,
    customerName: Option<string>,
    customerPhone: Option<string>,
    customerAddress: Option<string>,
    orderNotes: Option<string>)

  datatype StatusLabel =
    | LabelPending | LabelAccepted | LabelPrepared | LabelDelivered | LabelRejected
    | LabelNew | LabelReady | LabelSentOut

  datatype Entry = Entry(
    id: string,
    staffCallId: nat,
    activityLogId: Option<nat>,
    channel: Channel,
    requestKind: RequestKind,
    status: Status,
    statusLabel: StatusLabel,
    info: Info,
    charges: map<string, int>,
    items: seq<Item>,
    itemCount: nat,
    totalPrice: int,
    createdAt: Option<int>,
    actionDetails: History,
    availableActions: seq<Offer>,
    canEditItems: bool,
    pendingGuestAddition: bool,
    pendingBillRequest: bool)

  datatype Scope = ActiveScope | HistoryScope

  function StatusLabelFor(s: Status, c: Channel): StatusLabel
  {
    match s
    case Pending => if c == Delivery then LabelNew else LabelPending
    case Confirmed => if c == Delivery then LabelNew else LabelAccepted
    case Prepared => if c == Delivery then LabelReady else LabelPrepared
    case Delivered => if c == Delivery then LabelSentOut else LabelDelivered
    case Cancelled => LabelRejected
  }

  function ResolveCanEditItems(c: Channel, auth: Auth, s: Status): bool
  {
    && IsActive(s)
    && OrdersEditItems in auth
    && (c == Delivery ==> DeliveryView in auth && s != Prepared)
  }

  function Quantity(items: seq<Item>): nat
  {
    if items == [] then 0 else items[0].quantity + Quantity(items[1..])
  }

  /** Items count by their quantities. */
  lemma {:induction false} QuantityAdds(a: seq<Item>, b: seq<Item>, i: Item)
    ensures Quantity(a + b) == Quantity(a) + Quantity(b)
    ensures Quantity([i]) == i.quantity && Quantity([]) == 0
  {
    assert [i][1..] == [];
    if a == [] {
      assert a + b == b;
    } else {
      QuantityAdds(a[1..], b, i);
      assert (a + b)[1..] == a[1..] + b;
    }
  }

  // ---------------------------------------------------------------- building

  /** An upstream row, read. */
  datatype Raw = Raw(
    channel: Channel,
    staffCallId: nat,
    activityLogId: Option<nat>,
    requestKind: RequestKind,
    status: StatusText,
    actionDetails: History,
    at: Option<int>,
    info: Info,
    charges: map<string, int>,
    items: seq<Item>,
    totalPrice: int,
    pendingGuestAddition: bool,
    pendingBillRequest: bool)

  function FirstTime(h: History): Option<int>
  {
    if h == [] then None else if h[0].time.Some? then h[0].time else FirstTime(h[1..])
  }

  function BuildEntry(raw: Raw, auth: Auth, channel: Channel, activityLogId: Option<nat>,
                      status: Status, actionDetails: History): Entry
  {
    var isService := IsService(raw.requestKind);
    Entry(
      Decimal(activityLogId.GetOr(raw.staffCallId)), raw.staffCallId, activityLogId, channel, raw.requestKind,
      status, StatusLabelFor(status, channel),
      raw.info, raw.charges,
      if isService then [] else raw.items,
      if isService then 0 else Quantity(raw.items),
      if isService then 0 else raw.totalPrice,
      if FirstTime(actionDetails).Some? then FirstTime(actionDetails) else raw.at,
      actionDetails,
      AvailableActions(status, auth, channel, raw.pendingGuestAddition, raw.requestKind),
      !isService && ResolveCanEditItems(channel, auth, status),
      !isService && raw.pendingGuestAddition,
      !isService && raw.pendingBillRequest)
  }

  /** `presentTableCallRow`. */
  function PresentTableCallRow(raw: Raw, auth: Auth): Option<Entry>
  {
    if raw.staffCallId == 0 then None
    else
      var synthetic := [Detail(NoAction, raw.status, raw.at, "")];
      var actionDetails := PickRicher(raw.actionDetails, synthetic);
      var status := ResolveListEntry(Statuses(actionDetails), raw.status);
      Some(BuildEntry(raw, auth, raw.channel, None, status, actionDetails))
  }

  function Statuses(h: History): (s: seq<StatusText>)
    ensures |s| == |h|
  {
    seq(|h|, i requires 0 <= i < |h| => h[i].status)
  }

  /** Labels, actions and flags are those of the entry's own status and kind. */
  predicate Consistent(e: Entry, auth: Auth)
  {
    && e.statusLabel == StatusLabelFor(e.status, e.channel)
    && e.availableActions == AvailableActions(e.status, auth, e.channel, e.pendingGuestAddition, e.requestKind)
    && e.canEditItems == (!IsService(e.requestKind) && ResolveCanEditItems(e.channel, auth, e.status))
  }

  /** Every built entry is consistent; a service row carries no flags and no items. */
  lemma BuiltIsConsistent(raw: Raw, auth: Auth, channel: Channel, logId: Option<nat>, s: Status, h: History)
    ensures var e := BuildEntry(raw, auth, channel, logId, s, h);
      Consistent(e, auth) && (IsService(e.requestKind) ==> !e.pendingGuestAddition && !e.pendingBillRequest && e.items == [])
  {
  }

  /**
   What a call row's entry says, from the row's own fields: its status is the one the row gives, and its
   history the row's, unless the row's status alone says as much as that; a service row shows no items,
   price or flags, any other row its own.
   */
  lemma PresentedFromRow(raw: Raw, auth: Auth)
    requires raw.staffCallId > 0
    ensures PresentTableCallRow(raw, auth).Some?
    ensures var e := PresentTableCallRow(raw, auth).value;
      && e.id == Decimal(raw.staffCallId) && e.staffCallId == raw.staffCallId && e.activityLogId.None?
      && e.channel == raw.channel && e.requestKind == raw.requestKind
      && e.info == raw.info && e.charges == raw.charges
      && (raw.status != NoText ==> e.status == Normalize(raw.status))
      && (e.actionDetails == raw.actionDetails
          || (e.actionDetails == [Detail(NoAction, raw.status, raw.at, "")] && !AtLeastAsRich(raw.actionDetails, e.actionDetails)))
      && (raw.requestKind == FoodOrder ==>
            && e.items == raw.items && e.itemCount == Quantity(raw.items) && e.totalPrice == raw.totalPrice
            && e.pendingGuestAddition == raw.pendingGuestAddition && e.pendingBillRequest == raw.pendingBillRequest)
      && (raw.requestKind != FoodOrder ==>
            e.items == [] && e.itemCount == 0 && e.totalPrice == 0 && !e.pendingGuestAddition && !e.pendingBillRequest)
  {
    var synthetic := [Detail(NoAction, raw.status, raw.at, "")];
    PickRicherIsMaximum(raw.actionDetails, synthetic, []);
  }

  /** An entry's time is that of the first detail of its history that has one, and else its row's. */
  lemma {:induction false} CreatedAtIsFirstTime(h: History, i: nat)
    requires i < |h| && h[i].time.Some? && forall j :: 0 <= j < i ==> h[j].time.None?
    ensures FirstTime(h) == h[i].time
  {
    if i > 0 {
      CreatedAtIsFirstTime(h[1..], i - 1);
    }
  }

  lemma {:induction false} NoFirstTime(h: History)
    requires forall j :: 0 <= j < |h| ==> h[j].time.None?
    ensures FirstTime(h).None?
  {
    if h != [] {
      NoFirstTime(h[1..]);
    }
  }

  lemma CreatedAtFromRow(raw: Raw, auth: Auth, channel: Channel, logId: Option<nat>, s: Status, h: History)
    ensures var at := BuildEntry(raw, auth, channel, logId, s, h).createdAt;
      && (forall i :: 0 <= i < |h| && h[i].time.Some? && (forall j :: 0 <= j < i ==> h[j].time.None?) ==> at == h[i].time)
      && ((forall j :: 0 <= j < |h| ==> h[j].time.None?) ==> at == raw.at)
  {
    forall i | 0 <= i < |h| && h[i].time.Some? && forall j :: 0 <= j < i ==> h[j].time.None?
      ensures FirstTime(h) == h[i].time
    {
      CreatedAtIsFirstTime(h, i);
    }
    if forall j :: 0 <= j < |h| ==> h[j].time.None? {
      NoFirstTime(h);
    }
  }

  /** Items are edited on food orders under way, by staff who may edit; of a delivery only before it is prepared, and seen. */
  lemma EditableExactly(raw: Raw, auth: Auth, channel: Channel, logId: Option<nat>, s: Status, h: History)
    ensures BuildEntry(raw, auth, channel, logId, s, h).canEditItems <==>
      && raw.requestKind == FoodOrder && OrdersEditItems in auth
      && (s == Pending || s == Confirmed || (s == Prepared && channel == Table))
      && (channel == Delivery ==> DeliveryView in auth)
  {
  }

  /** A channel's labels tell its statuses apart, but for a delivery's first two. */
  lemma LabelTellsStatus(s: Status, t: Status, c: Channel)
    ensures StatusLabelFor(s, c) == StatusLabelFor(t, c) <==>
      s == t || (c == Delivery && s in {Pending, Confirmed} && t in {Pending, Confirmed})
  {
  }

  // ------------------------------------------------------------------ merging

  predicate Blank(s: string)
  {
    forall c :: c in s ==> c == ' '
  }

  function PickString(primary: Option<string>, fallback: Option<string>): Option<string>
  {
    if primary.Some? && !Blank(primary.value) then primary
    else if fallback.Some? && !Blank(fallback.value) then fallback
    else if primary.Some? then primary else fallback
  }

  function MergeInfo(base: Info, overlay: Info): Info
  {
    Info(
      PickString(base.tableNumber, overlay.tableNumber),
      PickString(base.customerName, overlay.customerName),
      PickString(base.customerPhone, overlay.customerPhone),
      PickString(base.customerAddress, overlay.customerAddress),
      PickString(base.orderNotes, overlay.orderNotes))
  }

  function OrElse<T>(a: Option<T>, b: Option<T>): Option<T>
  {
    if a.Some? then a else b
  }

  function MergedStatus(base: Entry, overlay: Entry): Status
  {
    var history := PickRicher(base.actionDetails, overlay.actionDetails);
    Prefer(Prefer(base.status, ResolveLatest(Statuses(history), NoText)), overlay.status)
  }

  function MergeEntryFields(base: Entry, overlay: Entry, auth: Auth): Entry
  {
    var items := if |base.items| > 0 then base.items else if |overlay.items| > 0 then overlay.items else base.items;
    var status := MergedStatus(base, overlay);
    var guest := base.pendingGuestAddition || overlay.pendingGuestAddition;
    var bill := base.pendingBillRequest || overlay.pendingBillRequest;
    var kind := if IsService(base.requestKind) then base.requestKind
                else if IsService(overlay.requestKind) then overlay.requestKind
                else base.requestKind;
    overlay.(
      id := base.id,
      activityLogId := OrElse(base.activityLogId, overlay.activityLogId),
      channel := base.channel,
      info := MergeInfo(base.info, overlay.info),
      charges := overlay.charges + base.charges,
      items := items,
      itemCount := Quantity(items),
      totalPrice := if base.totalPrice > 0 then base.totalPrice else overlay.totalPrice,
      createdAt := OrElse(base.createdAt, overlay.createdAt),
      actionDetails := PickRicher(base.actionDetails, overlay.actionDetails),
      pendingGuestAddition := guest,
      pendingBillRequest := bill,
      requestKind := kind,
      status := status,
      statusLabel := StatusLabelFor(status, base.channel),
      availableActions := AvailableActions(status, auth, base.channel, guest, kind),
      canEditItems := !IsService(kind) && ResolveCanEditItems(base.channel, auth, status))
  }

  /** `mergeCallHydration`: a call row overlaid on a table entry. */
  function MergeCallHydration(entry: Entry, call: Raw, auth: Auth): Entry
  {
    if entry.channel == Delivery then entry
    else if call.channel == Delivery then entry
    else
      match PresentTableCallRow(call, auth)
      case None => entry
      case Some(hydrated) => MergeEntryFields(entry, hydrated, auth)
  }

  function Max3(a: nat, b: nat, c: nat): nat
  {
    if a >= b && a >= c then a else if b >= c then b else c
  }

  /** A merge's rank is the greatest of the base's, the chosen history's and the overlay's: it never regresses. */
  lemma MergeTakesGreatestRank(base: Entry, overlay: Entry, auth: Auth)
    ensures var m := MergeEntryFields(base, overlay, auth);
      Rank(m.status) == Max3(Rank(base.status), Rank(Latest(Statuses(m.actionDetails))), Rank(overlay.status))
    ensures var m := MergeEntryFields(base, overlay, auth);
      var latest := Latest(Statuses(m.actionDetails));
      m.status == if Rank(base.status) == Rank(m.status) then base.status
                  else if Rank(latest) == Rank(m.status) then latest else overlay.status
    ensures Consistent(MergeEntryFields(base, overlay, auth), auth)
  {
    var history := PickRicher(base.actionDetails, overlay.actionDetails);
    PreferIsMaximum(base.status, ResolveLatest(Statuses(history), NoText), overlay.status);
    PreferIsMaximum(Prefer(base.status, ResolveLatest(Statuses(history), NoText)), overlay.status, Pending);
  }

  lemma PickStringTwice(a: Option<string>, b: Option<string>)
    ensures PickString(PickString(a, b), b) == PickString(a, b)
  {
  }

  /** Merging the same overlay again changes nothing at all. */
  lemma MergeIsIdempotent(base: Entry, overlay: Entry, auth: Auth)
    ensures var m := MergeEntryFields(base, overlay, auth);
      MergeEntryFields(m, overlay, auth) == m
  {
    var m := MergeEntryFields(base, overlay, auth);
    var n := MergeEntryFields(m, overlay, auth);
    PickRicherIsMaximum(base.actionDetails, overlay.actionDetails, []);
    MergeTakesGreatestRank(base, overlay, auth);
    assert n.actionDetails == m.actionDetails;
    assert n.status == m.status;
    assert n.charges == m.charges;
    PickStringTwice(base.info.tableNumber, overlay.info.tableNumber);
    PickStringTwice(base.info.customerName, overlay.info.customerName);
    PickStringTwice(base.info.customerPhone, overlay.info.customerPhone);
    PickStringTwice(base.info.customerAddress, overlay.info.customerAddress);
    PickStringTwice(base.info.orderNotes, overlay.info.orderNotes);
  }

  predicate Filled(s: Option<string>)
  {
    s.Some? && !Blank(s.value)
  }

  /** A merged text is the base's if that is filled, and else the overlay's if that is. */
  predicate FilledFrom(merged: Option<string>, base: Option<string>, overlay: Option<string>)
  {
    && (Filled(base) ==> merged == base)
    && (!Filled(base) && Filled(overlay) ==> merged == overlay)
  }

  /** Hydration fills gaps and clobbers nothing the entry already had. */
  lemma MergeNeverClobbers(base: Entry, overlay: Entry, auth: Auth)
    ensures var m := MergeEntryFields(base, overlay, auth);
      && FilledFrom(m.info.tableNumber, base.info.tableNumber, overlay.info.tableNumber)
      && FilledFrom(m.info.customerName, base.info.customerName, overlay.info.customerName)
      && FilledFrom(m.info.customerPhone, base.info.customerPhone, overlay.info.customerPhone)
      && FilledFrom(m.info.customerAddress, base.info.customerAddress, overlay.info.customerAddress)
      && FilledFrom(m.info.orderNotes, base.info.orderNotes, overlay.info.orderNotes)
      && (forall k :: k in base.charges ==> k in m.charges && m.charges[k] == base.charges[k])
      && (forall k :: k in overlay.charges && k !in base.charges ==> k in m.charges && m.charges[k] == overlay.charges[k])
      && m.items == (if base.items != [] then base.items else overlay.items) && m.itemCount == Quantity(m.items)
      && (base.totalPrice > 0 ==> m.totalPrice == base.totalPrice)
      && (base.createdAt.Some? ==> m.createdAt == base.createdAt)
      && (base.activityLogId.Some? ==> m.activityLogId == base.activityLogId)
      && m.id == base.id && m.channel == base.channel
  {
  }

  /** Overlays applied one after the other. */
  function Hydrated(entry: Entry, calls: seq<Raw>, auth: Auth): Entry
  {
    if calls == [] then entry
    else MergeCallHydration(Hydrated(entry, calls[..|calls| - 1], auth), calls[|calls| - 1], auth)
  }

  /** One overlay more. */
  lemma OneMoreNeverRegresses(e: Entry, call: Raw, auth: Auth)
    requires Consistent(e, auth)
    ensures var m := MergeCallHydration(e, call, auth);
      && Rank(m.status) >= Rank(e.status)
      && Consistent(m, auth)
      && m.id == e.id && m.channel == e.channel
      && AtLeastAsRich(m.actionDetails, e.actionDetails)
      && (e.channel == Delivery ==> m == e)
  {
    if e.channel != Delivery && call.channel != Delivery && call.staffCallId != 0 {
      var overlay := PresentTableCallRow(call, auth).value;
      MergeTakesGreatestRank(e, overlay, auth);
      PickRicherIsMaximum(e.actionDetails, overlay.actionDetails, []);
    }
  }

  lemma RicherIsTransitive(a: History, b: History, c: History)
    requires AtLeastAsRich(a, b) && AtLeastAsRich(b, c)
    ensures AtLeastAsRich(a, c)
  {
  }

  /** Hydration never regresses an order, never crosses channels, and keeps its actions and label those of its status. */
  lemma {:induction false} HydrationNeverRegresses(entry: Entry, calls: seq<Raw>, auth: Auth)
    requires Consistent(entry, auth)
    ensures var e := Hydrated(entry, calls, auth);
      && Rank(e.status) >= Rank(entry.status)
      && Consistent(e, auth)
      && e.id == entry.id && e.channel == entry.channel
      && AtLeastAsRich(e.actionDetails, entry.actionDetails)
      && (entry.channel == Delivery ==> e == entry)
  {
    if calls != [] {
      var p := Hydrated(entry, calls[..|calls| - 1], auth);
      var e := Hydrated(entry, calls, auth);
      HydrationNeverRegresses(entry, calls[..|calls| - 1], auth);
      OneMoreNeverRegresses(p, calls[|calls| - 1], auth);
      RicherIsTransitive(e.actionDetails, p.actionDetails, entry.actionDetails);
    }
  }

  // What hydration fills in, over whole runs of overlays.

  /** The call rows that overlay a table entry; delivery rows and rows without an id do not. */
  predicate Overlays(call: Raw)
  {
    call.channel != Delivery && call.staffCallId > 0
  }

  /** How much a text says: nothing, blanks, or something. */
  function Fill(s: Option<string>): nat
  {
    if Filled(s) then 2 else if s.Some? then 1 else 0
  }

  ghost predicate LeftmostFilledAt(best: Option<string>, list: seq<Option<string>>, k: nat)
  {
    && k < |list| && list[k] == best
    && (forall i :: 0 <= i < |list| ==> Fill(list[i]) <= Fill(best))
    && (forall i :: 0 <= i < k ==> Fill(list[i]) < Fill(best))
  }

  /** `best` is the first of the fullest texts in the list. */
  ghost predicate LeftmostFilled(best: Option<string>, list: seq<Option<string>>)
  {
    exists k: nat :: LeftmostFilledAt(best, list, k)
  }

  lemma LeftmostFilledSnoc(best: Option<string>, list: seq<Option<string>>, s: Option<string>)
    requires LeftmostFilled(best, list)
    ensures LeftmostFilled(PickString(best, s), list + [s])
  {
    var k: nat :| LeftmostFilledAt(best, list, k);
    var longer := list + [s];
    assert forall i :: 0 <= i < |list| ==> longer[i] == list[i];
    assert longer[|list|] == s;
    assert LeftmostFilledAt(PickString(best, s), longer, if Fill(s) > Fill(best) then |list| else k);
  }

  /** `text` picks out one of the texts a merge fills in. */
  ghost predicate IsMergedText(text: Info -> Option<string>)
  {
    forall a, b :: text(MergeInfo(a, b)) == PickString(text(a), text(b))
  }

  /** The entry's own text and those of the call rows overlaid on it, in order. */
  function Texts(own: Info, calls: seq<Raw>, text: Info -> Option<string>): seq<Option<string>>
  {
    if calls == [] then [text(own)]
    else Texts(own, calls[..|calls| - 1], text)
         + (if Overlays(calls[|calls| - 1]) then [text(calls[|calls| - 1].info)] else [])
  }

  lemma {:induction false} HydratedChannel(entry: Entry, calls: seq<Raw>, auth: Auth)
    ensures Hydrated(entry, calls, auth).channel == entry.channel
  {
    if calls != [] {
      HydratedChannel(entry, calls[..|calls| - 1], auth);
    }
  }

  /** Overlays give a text that merges fill in the first of the fullest values; `TextsAreMerged` says which texts these are. */
  lemma {:induction false} HydratedTextIsLeftmost(entry: Entry, calls: seq<Raw>, auth: Auth, text: Info -> Option<string>)
    requires entry.channel == Table && IsMergedText(text)
    ensures LeftmostFilled(text(Hydrated(entry, calls, auth).info), Texts(entry.info, calls, text))
  {
    if calls == [] {
      assert LeftmostFilledAt(text(entry.info), [text(entry.info)], 0);
    } else {
      var before, call := calls[..|calls| - 1], calls[|calls| - 1];
      var p := Hydrated(entry, before, auth);
      HydratedTextIsLeftmost(entry, before, auth, text);
      HydratedChannel(entry, before, auth);
      InfoOfOneMore(p, call, auth);
      var list := Texts(entry.info, before, text);
      if Overlays(call) {
        LeftmostFilledSnoc(text(p.info), list, text(call.info));
        assert Texts(entry.info, calls, text) == list + [text(call.info)];
      } else {
        assert Texts(entry.info, calls, text) == list + [] == list;
      }
    }
  }

  lemma InfoOfOneMore(e: Entry, call: Raw, auth: Auth)
    requires e.channel == Table
    ensures MergeCallHydration(e, call, auth).info == if Overlays(call) then MergeInfo(e.info, call.info) else e.info
  {
  }

  /** The five texts of an entry are such. */
  lemma TextsAreMerged()
    ensures IsMergedText((i: Info) => i.tableNumber) && IsMergedText((i: Info) => i.customerName)
    ensures IsMergedText((i: Info) => i.customerPhone) && IsMergedText((i: Info) => i.customerAddress)
    ensures IsMergedText((i: Info) => i.orderNotes)
  {
  }

  /**
   Whatever calls are overlaid, and however often, each text of a table entry is the first of the fullest
   among its own and theirs: nothing filled in is ever replaced.
   */
  lemma HydratedTextsAreLeftmost(entry: Entry, calls: seq<Raw>, auth: Auth)
    requires entry.channel == Table
    ensures var i := Hydrated(entry, calls, auth).info;
      && LeftmostFilled(i.tableNumber, Texts(entry.info, calls, (i: Info) => i.tableNumber))
      && LeftmostFilled(i.customerName, Texts(entry.info, calls, (i: Info) => i.customerName))
      && LeftmostFilled(i.customerPhone, Texts(entry.info, calls, (i: Info) => i.customerPhone))
      && LeftmostFilled(i.customerAddress, Texts(entry.info, calls, (i: Info) => i.customerAddress))
      && LeftmostFilled(i.orderNotes, Texts(entry.info, calls, (i: Info) => i.orderNotes))
  {
    TextsAreMerged();
    HydratedTextIsLeftmost(entry, calls, auth, (i: Info) => i.tableNumber);
    HydratedTextIsLeftmost(entry, calls, auth, (i: Info) => i.customerName);
    HydratedTextIsLeftmost(entry, calls, auth, (i: Info) => i.customerPhone);
    HydratedTextIsLeftmost(entry, calls, auth, (i: Info) => i.customerAddress);
    HydratedTextIsLeftmost(entry, calls, auth, (i: Info) => i.orderNotes);
  }

  /** What an entry has of prices, items and times, its id and its log id, it keeps through any overlays. */
  lemma {:induction false} HydrationKeepsWhatIsThere(entry: Entry, calls: seq<Raw>, auth: Auth)
    ensures var e := Hydrated(entry, calls, auth);
      && (forall k :: k in entry.charges ==> k in e.charges && e.charges[k] == entry.charges[k])
      && (entry.items != [] ==> e.items == entry.items)
      && (entry.totalPrice > 0 ==> e.totalPrice == entry.totalPrice)
      && (entry.createdAt.Some? ==> e.createdAt == entry.createdAt)
      && e.activityLogId == entry.activityLogId
      && e.id == entry.id
  {
    if calls != [] {
      HydrationKeepsWhatIsThere(entry, calls[..|calls| - 1], auth);
      var p, call := Hydrated(entry, calls[..|calls| - 1], auth), calls[|calls| - 1];
      if p.channel != Delivery && Overlays(call) {
        MergeNeverClobbers(p, PresentTableCallRow(call, auth).value, auth);
        PresentedFromRow(call, auth);
      }
    }
  }

  /** The entry, and those of the call rows that overlay it, in order. */
  function Overlaid(entry: Entry, calls: seq<Raw>, auth: Auth): seq<Entry>
  {
    if calls == [] then [entry]
    else Overlaid(entry, calls[..|calls| - 1], auth)
         + (if Overlays(calls[|calls| - 1]) then [PresentTableCallRow(calls[|calls| - 1], auth).value] else [])
  }

  ghost predicate FirstFilled<T>(all: seq<Entry>, field: Entry -> T, has: T -> bool, k: nat)
  {
    k < |all| && has(field(all[k])) && forall i :: 0 <= i < k ==> !has(field(all[i]))
  }

  /** `v` is the field of the first entry that has it, and has nothing when none does. */
  ghost predicate FromFirst<T>(v: T, all: seq<Entry>, field: Entry -> T, has: T -> bool)
  {
    && (forall k: nat :: FirstFilled(all, field, has, k) ==> v == field(all[k]))
    && (has(v) <==> exists i :: 0 <= i < |all| && has(field(all[i])))
  }

  /** A merge takes the field from the overlay just when the base has nothing there. */
  ghost predicate FillsGap<T(!new)>(auth: Auth, field: Entry -> T, has: T -> bool)
  {
    forall b, o {:trigger MergeEntryFields(b, o, auth)} ::
      var m := field(MergeEntryFields(b, o, auth));
      if has(field(b)) then m == field(b) else if has(field(o)) then m == field(o) else !has(m)
  }

  lemma FromFirstSnoc<T>(v: T, w: T, all: seq<Entry>, o: Entry, field: Entry -> T, has: T -> bool)
    requires FromFirst(v, all, field, has)
    requires if has(v) then w == v else if has(field(o)) then w == field(o) else !has(w)
    ensures FromFirst(w, all + [o], field, has)
  {
    var longer := all + [o];
    assert forall i :: 0 <= i < |all| ==> longer[i] == all[i];
    assert longer[|all|] == o;
    forall k: nat | FirstFilled(longer, field, has, k) ensures w == field(longer[k]) {
      if k < |all| {
        assert FirstFilled(all, field, has, k);
      }
    }
  }

  lemma {:induction false} HydratedFromFirst<T(!new)>(entry: Entry, calls: seq<Raw>, auth: Auth, field: Entry -> T, has: T -> bool)
    requires entry.channel == Table && FillsGap(auth, field, has)
    ensures FromFirst(field(Hydrated(entry, calls, auth)), Overlaid(entry, calls, auth), field, has)
  {
    if calls == [] {
      assert Overlaid(entry, calls, auth) == [entry];
      if has(field(entry)) {
        assert FirstFilled([entry], field, has, 0);
      }
    } else {
      var before, call := calls[..|calls| - 1], calls[|calls| - 1];
      var p := Hydrated(entry, before, auth);
      HydratedFromFirst(entry, before, auth, field, has);
      HydratedChannel(entry, before, auth);
      if Overlays(call) {
        var o := PresentTableCallRow(call, auth).value;
        assert Hydrated(entry, calls, auth) == MergeEntryFields(p, o, auth);
        FromFirstSnoc(field(p), field(Hydrated(entry, calls, auth)), Overlaid(entry, before, auth), o, field, has);
      } else {
        assert Overlaid(entry, before, auth) + [] == Overlaid(entry, before, auth);
        assert Hydrated(entry, calls, auth) == p;
      }
    }
  }

  function ChargeOf(key: string): Entry -> Option<int>
  {
    (e: Entry) => if key in e.charges then Some(e.charges[key]) else None
  }

  lemma ChargesFillGaps(auth: Auth, key: string)
    ensures FillsGap(auth, ChargeOf(key), (c: Option<int>) => c.Some?)
  {
    forall b, o
      ensures ChargeOf(key)(MergeEntryFields(b, o, auth)) ==
        if ChargeOf(key)(b).Some? then ChargeOf(key)(b) else ChargeOf(key)(o)
    {
      assert MergeEntryFields(b, o, auth).charges == o.charges + b.charges;
    }
  }

  /**
   What hydration fills in: items, price, time, each charge and the service kind are those of the first,
   of the entry and the rows that overlay it, to have any.
   */
  lemma HydrationFillsGaps(entry: Entry, calls: seq<Raw>, auth: Auth, key: string)
    requires entry.channel == Table
    ensures var e, all := Hydrated(entry, calls, auth), Overlaid(entry, calls, auth);
      && FromFirst(e.items, all, (e: Entry) => e.items, (i: seq<Item>) => i != [])
      && FromFirst(e.totalPrice, all, (e: Entry) => e.totalPrice, (p: int) => p > 0)
      && FromFirst(e.createdAt, all, (e: Entry) => e.createdAt, (t: Option<int>) => t.Some?)
      && FromFirst(ChargeOf(key)(e), all, ChargeOf(key), (c: Option<int>) => c.Some?)
      && FromFirst(e.requestKind, all, (e: Entry) => e.requestKind, IsService)
  {
    ChargesFillGaps(auth, key);
    HydratedFromFirst(entry, calls, auth, (e: Entry) => e.items, (i: seq<Item>) => i != []);
    HydratedFromFirst(entry, calls, auth, (e: Entry) => e.totalPrice, (p: int) => p > 0);
    HydratedFromFirst(entry, calls, auth, (e: Entry) => e.createdAt, (t: Option<int>) => t.Some?);
    HydratedFromFirst(entry, calls, auth, ChargeOf(key), (c: Option<int>) => c.Some?);
    HydratedFromFirst(entry, calls, auth, (e: Entry) => e.requestKind, IsService);
  }

  /** The call overlays the entry, is a food order, and asks for an addition (or, for a bill). */
  predicate AddsGuest(call: Raw)
  {
    Overlays(call) && call.requestKind == FoodOrder && call.pendingGuestAddition
  }

  predicate AddsBill(call: Raw)
  {
    Overlays(call) && call.requestKind == FoodOrder && call.pendingBillRequest
  }

  /**
   A hydrated table entry has a guest addition exactly when it had one, or some food order that overlays
   it has; the same for the bill.
   */
  lemma {:induction false} HydratedFlags(entry: Entry, calls: seq<Raw>, auth: Auth)
    requires entry.channel == Table
    ensures var e := Hydrated(entry, calls, auth);
      && (e.pendingGuestAddition <==> entry.pendingGuestAddition || exists i :: 0 <= i < |calls| && AddsGuest(calls[i]))
      && (e.pendingBillRequest <==> entry.pendingBillRequest || exists i :: 0 <= i < |calls| && AddsBill(calls[i]))
      && e.staffCallId == LastId(entry.staffCallId, calls)
  {
    if calls != [] {
      var n := |calls| - 1;
      HydratedFlags(entry, calls[..n], auth);
      HydratedChannel(entry, calls[..n], auth);
      FlagsOfOneMore(Hydrated(entry, calls[..n], auth), calls[n], auth);
      assert forall i :: 0 <= i < n ==> calls[..n][i] == calls[i];
      SomeBeforeOrLast(calls, AddsGuest);
      SomeBeforeOrLast(calls, AddsBill);
    }
  }

  lemma SomeBeforeOrLast(calls: seq<Raw>, test: Raw -> bool)
    requires calls != []
    ensures (exists i :: 0 <= i < |calls| && test(calls[i])) <==>
      var before := calls[..|calls| - 1];
      (exists i :: 0 <= i < |before| && test(before[i])) || test(calls[|calls| - 1])
  {
    assert forall i :: 0 <= i < |calls| - 1 ==> calls[..|calls| - 1][i] == calls[i];
  }

  lemma FlagsOfOneMore(e: Entry, call: Raw, auth: Auth)
    requires e.channel == Table
    ensures var m := MergeCallHydration(e, call, auth);
      && (m.pendingGuestAddition <==> e.pendingGuestAddition || AddsGuest(call))
      && (m.pendingBillRequest <==> e.pendingBillRequest || AddsBill(call))
      && m.staffCallId == if Overlays(call) then call.staffCallId else e.staffCallId
  {
  }

  /** The id of the last call that overlays, else the entry's own. */
  function LastId(own: nat, calls: seq<Raw>): nat
  {
    if calls == [] then own
    else if Overlays(calls[|calls| - 1]) then calls[|calls| - 1].staffCallId
    else LastId(own, calls[..|calls| - 1])
  }

  // ---------------------------------------------------------------- enriching

  /** An activity-log row's order and the two histories it carries. */
  datatype LogRow = LogRow(orderId: nat, fromActions: History, fromList: History)

  /** Every history the rows have for an order, in row order. */
  function Candidates(rows: seq<LogRow>, id: nat): seq<History>
  {
    if rows == [] then []
    else
      var row := rows[|rows| - 1];
      Candidates(rows[..|rows| - 1], id)
      + (if row.orderId == id && id > 0 then [row.fromActions, row.fromList] else [])
  }

  function Enriched(e: Entry, rows: seq<LogRow>): Entry
  {
    e.(actionDetails := PickRichest(e.actionDetails, Candidates(rows, e.staffCallId)))
  }

  lemma {:induction false} PickRichestFromNothing(first: History, rest: seq<History>)
    ensures PickRichest(first, rest) == PickRicher(first, PickRichest([], rest))
  {
    PickRicherIsMaximum(first, [], []);
    if rest != [] {
      var n := |rest| - 1;
      PickRichestFromNothing(first, rest[..n]);
      PickRicherIsMaximum(first, PickRichest([], rest[..n]), rest[n]);
    }
  }

  lemma CandidatesSnoc(rows: seq<LogRow>, row: LogRow, id: nat)
    ensures PickRichest([], Candidates(rows + [row], id)) ==
      if row.orderId == id && id > 0
      then PickRicher(PickRichest([], Candidates(rows, id)), PickRicher(row.fromActions, row.fromList))
      else PickRichest([], Candidates(rows, id))
  {
    assert (rows + [row])[..|rows|] == rows;
    var before := Candidates(rows, id);
    if row.orderId == id && id > 0 {
      var two := [row.fromActions, row.fromList];
      PickRichestSplit([], before, two);
      var p := PickRichest([], before);
      assert two[..1] == [row.fromActions] && [row.fromActions][..0] == [];
      assert PickRichest(p, [row.fromActions]) == PickRicher(PickRichest(p, []), row.fromActions);
      assert PickRichest(PickRichest([], before), two)
          == PickRicher(PickRicher(PickRichest([], before), row.fromActions), row.fromList);
      PickRicherIsMaximum(PickRichest([], before), row.fromActions, row.fromList);
    } else {
      assert before + [] == before;
    }
  }

  /** What the loop's index holds after the rows so far. */
  ghost predicate IndexHolds(index: map<nat, History>, rows: seq<LogRow>)
  {
    forall id: nat ::
      && (id in index <==> id > 0 && PickRichest([], Candidates(rows, id)) != [])
      && (id in index ==> index[id] == PickRichest([], Candidates(rows, id)))
  }

  lemma IndexExtends(index: map<nat, History>, index': map<nat, History>, rows: seq<LogRow>, row: LogRow)
    requires IndexHolds(index, rows)
    requires var details := PickRicher(row.fromActions, row.fromList);
      index' == if row.orderId == 0 || details == [] then index
                else index[row.orderId := if row.orderId in index then PickRicher(index[row.orderId], details) else details]
    ensures IndexHolds(index', rows + [row])
  {
    var details := PickRicher(row.fromActions, row.fromList);
    forall id: nat
      ensures id in index' <==> id > 0 && PickRichest([], Candidates(rows + [row], id)) != []
      ensures id in index' ==> index'[id] == PickRichest([], Candidates(rows + [row], id))
    {
      CandidatesSnoc(rows, row, id);
      PickRicherIsMaximum(PickRichest([], Candidates(rows, id)), details, []);
      PickRicherIsMaximum(details, [], []);
    }
  }

  lemma {:induction false} NoCandidatesForZero(rows: seq<LogRow>)
    ensures Candidates(rows, 0) == []
  {
    if rows != [] {
      NoCandidatesForZero(rows[..|rows| - 1]);
    }
  }

  /** One index lookup gives an entry what folding all of the rows' histories into it would. */
  lemma LookupEnriches(e: Entry, index: map<nat, History>, rows: seq<LogRow>)
    requires IndexHolds(index, rows)
    ensures Enriched(e, rows) ==
      if e.staffCallId in index then e.(actionDetails := PickRicher(e.actionDetails, index[e.staffCallId])) else e
  {
    PickRichestFromNothing(e.actionDetails, Candidates(rows, e.staffCallId));
    PickRicherIsMaximum(e.actionDetails, [], []);
    if e.staffCallId == 0 {
      NoCandidatesForZero(rows);
    }
  }

  /** The loop that fills the index. */
  method IndexHistories(rows: seq<LogRow>) returns (index: map<nat, History>)
    ensures IndexHolds(index, rows)
  {
    index := map[];
    var i := 0;
    while i < |rows|
      invariant 0 <= i <= |rows|
      invariant IndexHolds(index, rows[..i])
    {
      var row := rows[i];
      ghost var before := index;
      assert rows[..i + 1] == rows[..i] + [row];
      i := i + 1;
      var details := PickRicher(row.fromActions, row.fromList);
      if row.orderId == 0 || details == [] {
        IndexExtends(before, index, rows[..i - 1], row);
        continue;
      }
      index := index[row.orderId := if row.orderId in index then PickRicher(index[row.orderId], details) else details];
      IndexExtends(before, index, rows[..i - 1], row);
    }
    assert rows[..i] == rows;
  }

  method EnrichEntriesActionDetails(entries: seq<Entry>, rows: seq<LogRow>) returns (out: seq<Entry>)
    ensures |out| == |entries|
    ensures forall i :: 0 <= i < |entries| ==> out[i] == Enriched(entries[i], rows)
  {
    if |entries| == 0 || |rows| == 0 {
      return entries;
    }
    var index := IndexHistories(rows);
    out := [];
    for k := 0 to |entries|
      invariant |out| == k
      invariant forall j :: 0 <= j < k ==> out[j] == Enriched(entries[j], rows)
    {
      var e := entries[k];
      LookupEnriches(e, index, rows);
      out := out + [if e.staffCallId in index then e.(actionDetails := PickRicher(e.actionDetails, index[e.staffCallId])) else e];
    }
  }

  /** The histories the rows have for an order: both of each of its rows. */
  lemma {:induction false} CandidatesExactly(rows: seq<LogRow>, id: nat)
    ensures forall h :: h in Candidates(rows, id) <==>
      exists i :: 0 <= i < |rows| && rows[i].orderId == id > 0 && (h == rows[i].fromActions || h == rows[i].fromList)
  {
    if rows != [] {
      var n := |rows| - 1;
      CandidatesExactly(rows[..n], id);
      assert forall i :: 0 <= i < n ==> rows[..n][i] == rows[i];
    }
  }

  /** So nothing an order's rows have is richer than what it is enriched with, which is its own or theirs. */
  lemma EnrichedFromRows(e: Entry, rows: seq<LogRow>)
    ensures var h := Enriched(e, rows).actionDetails;
      && AtLeastAsRich(h, e.actionDetails)
      && (forall i :: 0 <= i < |rows| && rows[i].orderId == e.staffCallId > 0 ==>
            AtLeastAsRich(h, rows[i].fromActions) && AtLeastAsRich(h, rows[i].fromList))
      && (h == e.actionDetails
          || exists i :: 0 <= i < |rows| && rows[i].orderId == e.staffCallId > 0 && (h == rows[i].fromActions || h == rows[i].fromList))
  {
    var c := Candidates(rows, e.staffCallId);
    var all := [e.actionDetails] + c;
    EnrichedTakesLeftmostRichest(e, rows);
    CandidatesExactly(rows, e.staffCallId);
    var h := Enriched(e, rows).actionDetails;
    assert all[0] == e.actionDetails;
    forall i | 0 <= i < |rows| && rows[i].orderId == e.staffCallId > 0
      ensures AtLeastAsRich(h, rows[i].fromActions) && AtLeastAsRich(h, rows[i].fromList)
    {
      assert rows[i].fromActions in c && rows[i].fromList in c;
      assert forall g :: g in c ==> g in all;
    }
    var k :| 0 <= k < |all| && all[k] == h;
    assert k > 0 ==> h == c[k - 1] && h in c;
  }

  /** Enriching gives an entry the leftmost richest of its own history and the rows', and changes nothing else. */
  lemma EnrichedTakesLeftmostRichest(e: Entry, rows: seq<LogRow>)
    ensures LeftmostRichest(Enriched(e, rows).actionDetails, [e.actionDetails] + Candidates(rows, e.staffCallId))
    ensures Enriched(e, rows).(actionDetails := e.actionDetails) == e
    ensures Enriched(Enriched(e, rows), rows) == Enriched(e, rows)
  {
    var c := Candidates(rows, e.staffCallId);
    PickRichestIsLeftmost(e.actionDetails, c);
    PickRichestFromNothing(e.actionDetails, c);
    PickRichestFromNothing(PickRichest(e.actionDetails, c), c);
    PickRicherIsMaximum(e.actionDetails, PickRichest([], c), []);
  }

  // ------------------------------------------------------------------ scoping

  function TimingOf(e: Entry): Timing
  {
    Timing(e.status, e.actionDetails, e.createdAt, None)
  }

  predicate InScope(e: Entry, scope: Scope, now: int)
  {
    if scope == ActiveScope then IsOperationallyVisible(TimingOf(e), now) else IsArchivedVisible(TimingOf(e), now)
  }

  function ScopeTest(scope: Scope, now: int): Entry -> bool
  {
    (e: Entry) => InScope(e, scope, now)
  }

  function FilterByScope(entries: seq<Entry>, scope: Scope, now: int): seq<Entry>
  {
    Filter(entries, ScopeTest(scope, now))
  }

  /** `s` is `a` and `b` woven together, each in its own order. */
  predicate Weaves(a: seq<Entry>, b: seq<Entry>, s: seq<Entry>)
    decreases |s|
  {
    if s == [] then a == [] && b == []
    else
      || (a != [] && a[0] == s[0] && Weaves(a[1..], b, s[1..]))
      || (b != [] && b[0] == s[0] && Weaves(a, b[1..], s[1..]))
  }

  /** A filter and its complement weave back into the list. */
  lemma {:induction false} ComplementsWeave(s: seq<Entry>, keep: Entry -> bool, drop: Entry -> bool)
    requires forall e :: keep(e) != drop(e)
    ensures Weaves(Filter(s, keep), Filter(s, drop), s)
  {
    if s != [] {
      ComplementsWeave(s[1..], keep, drop);
      var a, b := Filter(s[1..], keep), Filter(s[1..], drop);
      if keep(s[0]) {
        assert ([s[0]] + a)[1..] == a;
      } else {
        assert ([s[0]] + b)[1..] == b;
      }
    }
  }

  /** At one instant the two scopes split any list into two complementary sublists, both in the list's order. */
  lemma ScopesPartition(entries: seq<Entry>, now: int)
    ensures Weaves(FilterByScope(entries, ActiveScope, now), FilterByScope(entries, HistoryScope, now), entries)
    ensures forall e :: e in entries ==>
      (e in FilterByScope(entries, ActiveScope, now) <==> e !in FilterByScope(entries, HistoryScope, now))
  {
    var active, archived := ScopeTest(ActiveScope, now), ScopeTest(HistoryScope, now);
    forall e ensures active(e) != archived(e) {
      OnExactlyOneList(TimingOf(e), now);
    }
    ComplementsWeave(entries, active, archived);
    FilterExactly(entries, active);
    FilterExactly(entries, archived);
  }

  /** The history has exactly the list's orders that are closed, and at least 24 hours ago or nobody knows when; the rest are active. */
  lemma ScopedExactly(entries: seq<Entry>, now: int, e: Entry)
    ensures var closed := ResolveTerminalAt(TimingOf(e));
      e in FilterByScope(entries, HistoryScope, now) <==>
        && e in entries && (e.status == Delivered || e.status == Cancelled)
        && (closed.None? || now >= closed.value + 86_400_000)
    ensures e in FilterByScope(entries, ActiveScope, now) <==> e in entries && e !in FilterByScope(entries, HistoryScope, now)
  {
    FilterExactly(entries, ScopeTest(HistoryScope, now));
    FilterExactly(entries, ScopeTest(ActiveScope, now));
    ArchivedExactly(TimingOf(e), now);
  }

  /** `applyListScope`: nothing can be done to an archived or closed order from a list. */
  function ApplyListScope(e: Entry, scope: Scope): Entry
  {
    if scope == HistoryScope || !IsActive(e.status) then e.(availableActions := [], canEditItems := false) else e
  }

  function ApplyListScopeToEntries(entries: seq<Entry>, scope: Scope): (r: seq<Entry>)
    ensures |r| == |entries|
  {
    seq(|entries|, i requires 0 <= i < |entries| => ApplyListScope(entries[i], scope))
  }

  /** In the history, and of a closed order anywhere, a list takes away the actions and editing, and nothing else. */
  lemma ListScopeTakesActions(entries: seq<Entry>, scope: Scope, i: nat)
    requires i < |entries|
    ensures var e, t := entries[i], ApplyListScopeToEntries(entries, scope)[i];
      && t.(availableActions := e.availableActions, canEditItems := e.canEditItems) == e
      && (if scope == HistoryScope || e.status == Delivered || e.status == Cancelled
          then t.availableActions == [] && !t.canEditItems else t == e)
  {
  }
}
