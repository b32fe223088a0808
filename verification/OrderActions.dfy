/**
 The actions offered on an order and where each is sent
 (`staff-order-actions.util.ts`, `postOrderAction`, `autoConfirmPendingDeliveryOrder`).
 */
module OrderActions {
  import opened ActionDetails
  import opened OrderStatus
  import opened Wrappers
  import TerminalAt

  datatype Channel = Table | Delivery
  datatype RequestKind = FoodOrder | WaiterCall | BillCall

  datatype Permission =
    | OrdersView | OrdersConfirm | OrdersCancel | OrdersPrepare | OrdersDeliver | OrdersComplete
    | OrdersEditItems | DeliveryView

  type Auth = set<Permission>

  datatype Label =
    | Accept | Reject | MarkPrepared | MarkDelivered | MarkSentOut | Finish | AcceptAddition | Done

  datatype Offer = Offer(action: Action, caption: Label)

  predicate IsService(k: RequestKind)
  {
    k == WaiterCall || k == BillCall
  }

  /** Actions a client may post; any other word is `OtherAction`. */
  predicate IsOrderAction(a: Action)
  {
    a in {CallConfirmed, CallCancelled, CallPrepared, CallDelivered, CallCompleted}
  }

  function PermissionFor(a: Action): Permission
  {
    match a
    case CallCancelled => OrdersCancel
    case CallPrepared => OrdersPrepare
    case CallDelivered => OrdersDeliver
    case CallCompleted => OrdersComplete
    case _ => OrdersConfirm
  }

  function DefaultLabel(a: Action, c: Channel): Label
  {
    match a
    case CallCancelled => Reject
    case CallPrepared => MarkPrepared
    case CallDelivered => if c == Delivery then MarkSentOut else MarkDelivered
    case CallCompleted => Finish
    case _ => Accept
  }

  /** An offer made only to staff who have the action's permission. */
  function Push(auth: Auth, a: Action, caption: Label): seq<Offer>
  {
    if PermissionFor(a) in auth then [Offer(a, caption)] else []
  }

  function AvailableActions(s: Status, auth: Auth, c: Channel, pendingGuestAddition: bool, kind: RequestKind): seq<Offer>
  {
    if IsService(kind) && c == Table then
      if s != Pending then []
      else if kind == WaiterCall then Push(auth, CallConfirmed, Done)
      else Push(auth, CallConfirmed, Accept) + Push(auth, CallCancelled, Reject)
    else if c == Delivery then
      if DeliveryView !in auth then []
      else match s
           case Pending => Push(auth, CallConfirmed, DefaultLabel(CallConfirmed, c)) + Push(auth, CallCancelled, DefaultLabel(CallCancelled, c))
           case Confirmed => Push(auth, CallPrepared, DefaultLabel(CallPrepared, c))
           case Prepared => Push(auth, CallDelivered, DefaultLabel(CallDelivered, c))
           case _ => []
    else if pendingGuestAddition && (s == Confirmed || s == Prepared) then
      Push(auth, CallConfirmed, AcceptAddition)
    else match s
         case Pending => Push(auth, CallConfirmed, if pendingGuestAddition then AcceptAddition else Accept) + Push(auth, CallCancelled, Reject)
         case Confirmed => Push(auth, CallCompleted, Finish)
         case Prepared => Push(auth, CallCompleted, Finish)
         case _ => []
  }

  predicate CanPerform(auth: Auth, a: Action)
  {
    PermissionFor(a) in auth
  }

  predicate Offered(a: Action, s: Status, auth: Auth, c: Channel, pendingGuestAddition: bool, kind: RequestKind)
  {
    exists o :: o in AvailableActions(s, auth, c, pendingGuestAddition, kind) && o.action == a
  }

  /** An addition accepted on an order already under way leaves it where it is. */
  predicate IsAcceptAddition(a: Action, s: Status, c: Channel, pendingGuestAddition: bool)
  {
    a == CallConfirmed && c == Table && pendingGuestAddition && (s == Confirmed || s == Prepared)
  }

  /** The orders on which each action can be taken, action by action. */
  predicate Possible(a: Action, s: Status, c: Channel, pendingGuestAddition: bool, kind: RequestKind)
  {
    var service := c == Table && IsService(kind);
    match a
    case CallConfirmed =>
      s == Pending || (c == Table && !service && pendingGuestAddition && (s == Confirmed || s == Prepared))
    case CallCancelled => s == Pending && !(c == Table && kind == WaiterCall)
    case CallPrepared => c == Delivery && s == Confirmed
    case CallDelivered => c == Delivery && s == Prepared
    case CallCompleted => c == Table && !service && !pendingGuestAddition && (s == Confirmed || s == Prepared)
    case _ => false
  }

  /** An action is offered exactly when it is possible and permitted. */
  lemma OfferedExactly(a: Action, s: Status, auth: Auth, c: Channel, pendingGuestAddition: bool, kind: RequestKind)
    ensures Offered(a, s, auth, c, pendingGuestAddition, kind) <==>
      Possible(a, s, c, pendingGuestAddition, kind) && CanPerform(auth, a) && (c == Delivery ==> DeliveryView in auth)
  {
    var offers := AvailableActions(s, auth, c, pendingGuestAddition, kind);
    if Possible(a, s, c, pendingGuestAddition, kind) && CanPerform(auth, a) && (c == Delivery ==> DeliveryView in auth) {
      if a == CallCancelled {
        assert offers[|offers| - 1].action == a;
        assert offers[|offers| - 1] in offers;
      } else {
        assert offers[0].action == a;
        assert offers[0] in offers;
      }
    }
  }

  /** The captions of one order's offers tell its actions apart. */
  lemma CaptionsTellActions(s: Status, auth: Auth, c: Channel, pendingGuestAddition: bool, kind: RequestKind, o: Offer)
    requires o in AvailableActions(s, auth, c, pendingGuestAddition, kind)
    ensures o.caption == Reject <==> o.action == CallCancelled
    ensures o.caption == MarkPrepared <==> o.action == CallPrepared
    ensures o.caption == MarkSentOut <==> o.action == CallDelivered
    ensures o.caption == Finish <==> o.action == CallCompleted
    ensures o.caption == Done <==> c == Table && kind == WaiterCall
    ensures o.caption == AcceptAddition <==>
      o.action == CallConfirmed && c == Table && !IsService(kind) && pendingGuestAddition
  {
  }

  /** Whatever is offered is permitted, and, additions apart, moves the order strictly forward. */
  lemma OffersPermittedAndForward(a: Action, s: Status, auth: Auth, c: Channel, pendingGuestAddition: bool, kind: RequestKind)
    requires Offered(a, s, auth, c, pendingGuestAddition, kind)
    ensures CanPerform(auth, a) && IsOrderAction(a)
    ensures IsAcceptAddition(a, s, c, pendingGuestAddition) || Rank(TerminalAt.OrderStatusFromAction(a)) > Rank(s)
  {
    OfferedExactly(a, s, auth, c, pendingGuestAddition, kind);
  }

  /** A run of offered actions, additions apart; the flags may change between actions. */
  ghost predicate OfferedRun(s: Status, auth: Auth, c: Channel, kind: RequestKind, actions: seq<Action>, additions: seq<bool>)
    requires |actions| == |additions|
    decreases |actions|
  {
    actions == [] ||
    (&& Offered(actions[0], s, auth, c, additions[0], kind)
     && !IsAcceptAddition(actions[0], s, c, additions[0])
     && OfferedRun(TerminalAt.OrderStatusFromAction(actions[0]), auth, c, kind, actions[1..], additions[1..]))
  }

  /** From any status at most three minus its rank actions follow, so three from pending. */
  lemma {:induction false} RunsAreShort(s: Status, auth: Auth, c: Channel, kind: RequestKind, actions: seq<Action>, additions: seq<bool>)
    requires |actions| == |additions| && OfferedRun(s, auth, c, kind, actions, additions)
    ensures |actions| <= 3 - Rank(s)
    decreases |actions|
  {
    if actions != [] {
      OffersPermittedAndForward(actions[0], s, auth, c, additions[0], kind);
      RunsAreShort(TerminalAt.OrderStatusFromAction(actions[0]), auth, c, kind, actions[1..], additions[1..]);
    }
  }

  // ------------------------------------------------------------------ routing

  /** An upstream write. */
  datatype Write =
    | CompleteCall
    | PrepareCall
    | SetCallStatus(s: Status)
    | LogAction(a: Action)

  /** The status a write moves the order to. */
  function Effect(w: Write): Status
  {
    match w
    case CompleteCall => Delivered
    case PrepareCall => Prepared
    case SetCallStatus(s) => s
    case LogAction(a) => TerminalAt.OrderStatusFromAction(a)
  }

  datatype Verdict = Invalid | Denied | UpstreamError | Written

  /** What the reads find: the call row if any, the activity-log id (0 when unresolved), and the order as presented. */
  datatype Call = Call(channel: Channel, kind: RequestKind)
  datatype Shown = Shown(channel: Channel, status: Status)
  datatype Lookup = Lookup(call: Option<Call>, logId: nat, shown: Option<Shown>)

  /** Which upstream writes succeed. */
  type Answers = Write -> bool

  datatype Routed = Routed(writes: seq<Write>, verdict: Verdict)

  function Send(w: Write, answers: Answers): Routed
  {
    Routed([w], if answers(w) then Written else UpstreamError)
  }

  /** A delivery order about to be prepared is confirmed first when it is still pending. */
  predicate NeedsAutoConfirm(look: Lookup)
  {
    && look.logId > 0
    && look.shown.Some? && look.shown.value.channel == Delivery && look.shown.value.status == Pending
  }

  function AutoConfirmThen(look: Lookup, w: Write, answers: Answers): Routed
  {
    if !NeedsAutoConfirm(look) then Send(w, answers)
    else if !answers(LogAction(CallConfirmed)) then Routed([LogAction(CallConfirmed)], UpstreamError)
    else Routed([LogAction(CallConfirmed)] + Send(w, answers).writes, Send(w, answers).verdict)
  }

  /** `postOrderAction`: the writes it makes, in order, and how it ends. */
  function Route(auth: Auth, a: Action, menuId: nat, staffCallId: nat, look: Lookup, answers: Answers): Routed
  {
    if menuId == 0 || staffCallId == 0 then Routed([], Invalid)
    else if !CanPerform(auth, a) then Routed([], Denied)
    else if look.call.Some? && IsService(look.call.value.kind) then
      if a == CallConfirmed || a == CallCancelled then Send(SetCallStatus(TerminalAt.OrderStatusFromAction(a)), answers)
      else Routed([], Denied)
    else
      var hasCall := look.call.Some?;
      var isDelivery := hasCall && look.call.value.channel == Delivery;
      if !isDelivery && a == CallCompleted && hasCall then Send(CompleteCall, answers)
      else if !isDelivery && look.logId > 0 && (a == CallConfirmed || a == CallCancelled) then Send(LogAction(a), answers)
      else if a == CallPrepared && hasCall then
        if isDelivery then AutoConfirmThen(look, PrepareCall, answers) else Routed([], Denied)
      else if isDelivery && look.logId > 0 && (a == CallConfirmed || a == CallCancelled || a == CallDelivered) then
        Send(LogAction(a), answers)
      else if !isDelivery && (a == CallConfirmed || a == CallCancelled) then
        Send(SetCallStatus(TerminalAt.OrderStatusFromAction(a)), answers)
      else Routed([], Denied)
  }

  /** The upstream, as the writes made to it. */
  class OrderRouter {
    const answers: Answers
    var writes: seq<Write>

    constructor (answers: Answers)
      ensures this.answers == answers && writes == []
    {
      this.answers := answers;
      writes := [];
    }

    method Proxy(w: Write) returns (ok: bool)
      modifies this
      ensures writes == old(writes) + [w] && ok == answers(w)
    {
      writes := writes + [w];
      ok := answers(w);
    }

    /** Some verdict to stop with, or None to go on. */
    method AutoConfirmPendingDeliveryOrder(look: Lookup) returns (stop: Option<Verdict>)
      requires look.logId > 0
      modifies this
      ensures NeedsAutoConfirm(look) ==>
        && writes == old(writes) + [LogAction(CallConfirmed)]
        && stop == if answers(LogAction(CallConfirmed)) then None else Some(UpstreamError)
      ensures !NeedsAutoConfirm(look) ==> writes == old(writes) && stop == None
    {
      if look.shown.None? {
        return None;
      }
      if look.shown.value.channel != Delivery || look.shown.value.status != Pending {
        return None;
      }
      var ok := Proxy(LogAction(CallConfirmed));
      return if ok then None else Some(UpstreamError);
    }

    /** Upstream is written to only when the action posted is permitted, and the verdict is that of the last write. */
    method PostOrderAction(auth: Auth, a: Action, menuId: nat, staffCallId: nat, look: Lookup) returns (verdict: Verdict)
      modifies this
      ensures var r := Route(auth, a, menuId, staffCallId, look, answers);
        writes == old(writes) + r.writes && verdict == r.verdict
      ensures old(writes) <= writes && |writes| <= |old(writes)| + 2
      ensures writes == old(writes) <==> verdict == Invalid || verdict == Denied
      ensures writes != old(writes) ==>
        && CanPerform(auth, a)
        && (verdict == Written <==> answers(writes[|writes| - 1]))
        && (verdict == Written ==> Effect(writes[|writes| - 1]) == TerminalAt.OrderStatusFromAction(a))
    {
      WritesArePermitted(auth, a, menuId, staffCallId, look, answers);
      if menuId == 0 || staffCallId == 0 {
        return Invalid;
      }
      if !CanPerform(auth, a) {
        return Denied;
      }
      var hasTableCall := look.call.Some?;
      var isDeliveryCall := hasTableCall && look.call.value.channel == Delivery;
      var serviceKind := if hasTableCall then look.call.value.kind else FoodOrder;
      var ok;
      if IsService(serviceKind) {
        if a != CallConfirmed && a != CallCancelled {
          return Denied;
        }
        ok := Proxy(SetCallStatus(TerminalAt.OrderStatusFromAction(a)));
        return if ok then Written else UpstreamError;
      }
      if !isDeliveryCall && a == CallCompleted && hasTableCall {
        ok := Proxy(CompleteCall);
      } else if !isDeliveryCall && look.logId > 0 && (a == CallConfirmed || a == CallCancelled) {
        ok := Proxy(LogAction(a));
      } else if a == CallPrepared && hasTableCall {
        if isDeliveryCall && look.logId > 0 {
          var stop := AutoConfirmPendingDeliveryOrder(look);
          if stop.Some? {
            return stop.value;
          }
        }
        if !isDeliveryCall {
          return Denied;
        }
        ok := Proxy(PrepareCall);
      } else if isDeliveryCall && look.logId > 0 && (a == CallConfirmed || a == CallCancelled || a == CallDelivered) {
        // A delivery prepare has its call row, so the branch above has taken it.
        ok := Proxy(LogAction(a));
      } else if !isDeliveryCall && (a == CallConfirmed || a == CallCancelled) {
        ok := Proxy(SetCallStatus(TerminalAt.OrderStatusFromAction(a)));
      } else {
        return Denied;
      }
      return if ok then Written else UpstreamError;
    }
  }

  /** The one offered action that has nowhere to go: a delivery's, other than prepare, with no log id. */
  predicate LacksLogId(c: Channel, a: Action, look: Lookup)
  {
    c == Delivery && a != CallPrepared && look.logId == 0
  }

  /**
   Lifecycle and router agree.  For an order whose call row was read, an offered action reaches the
   upstream as exactly one write, to the status the action stands for, unless its log id is missing;
   preparing a delivery may first confirm it, and stops there if that fails.
   */
  lemma OfferedActionIsRouted(s: Status, auth: Auth, c: Channel, pendingGuestAddition: bool, kind: RequestKind, a: Action,
                              menuId: nat, staffCallId: nat, look: Lookup, answers: Answers)
    requires Offered(a, s, auth, c, pendingGuestAddition, kind)
    requires menuId > 0 && staffCallId > 0
    requires look.call == Some(Call(c, kind))
    requires IsService(kind) ==> c == Table
    ensures var r := Route(auth, a, menuId, staffCallId, look, answers);
      var confirm := [LogAction(CallConfirmed)];
      if LacksLogId(c, a, look) then r == Routed([], Denied)
      else if a == CallPrepared && NeedsAutoConfirm(look) then
        if answers(LogAction(CallConfirmed)) then
          |r.writes| == 2 && r.writes[..1] == confirm && Effect(r.writes[1]) == Prepared
          && r.verdict == if answers(r.writes[1]) then Written else UpstreamError
        else r.writes == confirm && r.verdict == UpstreamError
      else
        |r.writes| == 1 && Effect(r.writes[0]) == TerminalAt.OrderStatusFromAction(a)
        && r.verdict == if answers(r.writes[0]) then Written else UpstreamError
  {
    OfferedExactly(a, s, auth, c, pendingGuestAddition, kind);
  }

  /** A table order never gets a prepare or deliver write, whatever is posted and by whomever. */
  lemma TableNeverPreparedOrDelivered(auth: Auth, a: Action, menuId: nat, staffCallId: nat, look: Lookup, answers: Answers, w: Write)
    requires look.call.Some? ==> look.call.value.channel == Table
    requires w in Route(auth, a, menuId, staffCallId, look, answers).writes
    ensures w != PrepareCall && w != LogAction(CallPrepared) && w != LogAction(CallDelivered)
    ensures Effect(w) != Prepared && (Effect(w) == Delivered ==> w == CompleteCall)
  {
  }

  /**
   No write unless the action posted is permitted, and none beyond the two a prepare may take.  The
   verdict is the last write's: it is well exactly when that write is accepted, and the order then has the action's status.
   */
  lemma WritesArePermitted(auth: Auth, a: Action, menuId: nat, staffCallId: nat, look: Lookup, answers: Answers)
    ensures var r := Route(auth, a, menuId, staffCallId, look, answers);
      && (r.writes != [] ==> CanPerform(auth, a) && IsOrderAction(a))
      && |r.writes| <= (if a == CallPrepared then 2 else 1)
      && (r.writes == [] <==> r.verdict == Invalid || r.verdict == Denied)
      && (r.verdict == Invalid <==> menuId == 0 || staffCallId == 0)
      && (r.writes != [] ==> (r.verdict == Written <==> answers(r.writes[|r.writes| - 1])))
      && (r.verdict == Written ==> Effect(r.writes[|r.writes| - 1]) == TerminalAt.OrderStatusFromAction(a))
  {
  }

  /** The action a write stands for, whatever the endpoint it goes to. */
  function ActionOf(w: Write): Action
  {
    match w
    case CompleteCall => CallCompleted
    case PrepareCall => CallPrepared
    case LogAction(a) => a
    case SetCallStatus(s) =>
      match s
      case Pending => OtherAction
      case Confirmed => CallConfirmed
      case Cancelled => CallCancelled
      case Prepared => CallPrepared
      case Delivered => CallDelivered
  }

  /** Preparing a pending delivery, by staff who may not confirm: the confirm comes first all the same. */
  predicate ConfirmsUnpermitted(auth: Auth, a: Action, menuId: nat, staffCallId: nat, look: Lookup)
  {
    && menuId > 0 && staffCallId > 0
    && a == CallPrepared && CanPerform(auth, a)
    && look.call.Some? && look.call.value.channel == Delivery && !IsService(look.call.value.kind)
    && NeedsAutoConfirm(look) && !CanPerform(auth, CallConfirmed)
  }

  /** Each write is permitted in its own right, unless it is the confirm made on the way to a prepare. */
  lemma EachWritePermittedExactly(auth: Auth, a: Action, menuId: nat, staffCallId: nat, look: Lookup, answers: Answers)
    ensures (forall w :: w in Route(auth, a, menuId, staffCallId, look, answers).writes ==> CanPerform(auth, ActionOf(w))) <==>
      !ConfirmsUnpermitted(auth, a, menuId, staffCallId, look)
  {
    var r := Route(auth, a, menuId, staffCallId, look, answers);
    if ConfirmsUnpermitted(auth, a, menuId, staffCallId, look) {
      assert r.writes[0] == LogAction(CallConfirmed);
      assert r.writes[0] in r.writes;
    }
  }

  /** It happens: with no permission to confirm, posting prepare on a pending delivery confirms it and prepares it. */
  lemma PrepareConfirmsUnpermitted(menuId: nat, staffCallId: nat, logId: nat, answers: Answers) returns (auth: Auth, look: Lookup)
    requires menuId > 0 && staffCallId > 0 && logId > 0
    requires answers(LogAction(CallConfirmed)) && answers(PrepareCall)
    ensures auth == {OrdersPrepare, DeliveryView} && !CanPerform(auth, CallConfirmed)
    ensures look == Lookup(Some(Call(Delivery, FoodOrder)), logId, Some(Shown(Delivery, Pending)))
    ensures Route(auth, CallPrepared, menuId, staffCallId, look, answers) ==
      Routed([LogAction(CallConfirmed), PrepareCall], Written)
  {
    auth := {OrdersPrepare, DeliveryView};
    look := Lookup(Some(Call(Delivery, FoodOrder)), logId, Some(Shown(Delivery, Pending)));
  }

  /** Which permission each action takes; any word that is no action takes that of a confirm. */
  lemma PermissionsExactly(auth: Auth, a: Action)
    ensures CanPerform(auth, a) <==>
      || (a == CallCancelled && OrdersCancel in auth)
      || (a == CallPrepared && OrdersPrepare in auth)
      || (a == CallDelivered && OrdersDeliver in auth)
      || (a == CallCompleted && OrdersComplete in auth)
      || (!(a in {CallCancelled, CallPrepared, CallDelivered, CallCompleted}) && OrdersConfirm in auth)
  {
  }

  /** A confirm or a cancel of a table order goes to its log when there is a log id, else to its status. */
  function TableWrite(a: Action, logId: nat): seq<Write>
  {
    if a != CallConfirmed && a != CallCancelled then []
    else if logId > 0 then [LogAction(a)]
    else [SetCallStatus(if a == CallConfirmed then Confirmed else Cancelled)]
  }

  /**
   Which endpoint a permitted action reaches, by the kind of order it is for.  A request for service has
   its status set; a table order is completed, or written to as above, also when its call was not read; a
   delivery is prepared by its own endpoint, confirmed first when it is shown as pending and has a log id,
   and otherwise written to through its log or not at all.
   */
  lemma EndpointsExactly(auth: Auth, a: Action, menuId: nat, staffCallId: nat, look: Lookup, answers: Answers)
    requires menuId > 0 && staffCallId > 0 && CanPerform(auth, a)
    ensures var ws := Route(auth, a, menuId, staffCallId, look, answers).writes;
      match look.call
      case None => ws == TableWrite(a, look.logId)
      case Some(Call(channel, kind)) =>
        if kind != FoodOrder then ws == TableWrite(a, 0)
        else if channel == Table then ws == if a == CallCompleted then [CompleteCall] else TableWrite(a, look.logId)
        else if a == CallPrepared then
          if look.logId > 0 && look.shown == Some(Shown(Delivery, Pending)) then
            ws == if answers(LogAction(CallConfirmed)) then [LogAction(CallConfirmed), PrepareCall] else [LogAction(CallConfirmed)]
          else ws == [PrepareCall]
        else ws == if a in {CallConfirmed, CallCancelled, CallDelivered} && look.logId > 0 then [LogAction(a)] else []
  {
  }
}
