/** When an order closed, and whether it is still on the floor or archived (`staff-order-terminal-at.util.ts`). */
module TerminalAt {
  import opened ActionDetails
  import opened OrderStatus
  import opened Wrappers

  const ARCHIVE_GRACE_MS: int := 24 * 60 * 60 * 1000

  datatype Timing = Timing(status: Status, actionDetails: History, createdAt: Option<int>, lastEditedAt: Option<int>)

  /** The detail delivers or cancels, by its action or by its status. */
  predicate Closes(d: Detail)
  {
    || d.action in {CallCancelled, CallDelivered, CallCompleted}
    || d.status == Word(Delivered) || d.status == Word(Cancelled)
  }

  function ClosedAt(h: History): Option<int>
  {
    if h == [] then None
    else
      var d := h[|h| - 1];
      if Closes(d) && d.time.Some? then d.time else ClosedAt(h[..|h| - 1])
  }

  function OrderStatusFromAction(a: Action): Status
  {
    match a
    case CallConfirmed => Confirmed
    case CallCancelled => Cancelled
    case CallPrepared => Prepared
    case CallDelivered => Delivered
    case CallCompleted => Delivered
    case _ => Pending
  }

  method TerminalAtFromActionDetails(h: History) returns (at: Option<int>)
    ensures at == ClosedAt(h)
  {
    var i := |h| - 1;
    assert h[..i + 1] == h;
    while i >= 0
      invariant -1 <= i < |h|
      invariant ClosedAt(h) == ClosedAt(h[..i + 1])
    {
      var d := h[i];
      assert h[..i + 1][..i] == h[..i];
      i := i - 1;
      var status: Option<Status> := None;
      if d.action != NoAction {
        var fromAction := OrderStatusFromAction(d.action);
        if fromAction == Delivered || fromAction == Cancelled {
          status := Some(fromAction);
        }
      }
      if status.None? && (d.status == Word(Delivered) || d.status == Word(Cancelled)) {
        status := Some(d.status.s);
      }
      if status.None? {
        continue;
      }
      if d.time.Some? {
        return d.time;
      }
    }
    return None;
  }

  predicate IsTimedClose(d: Detail)
  {
    Closes(d) && d.time.Some?
  }

  predicate IsLastTimedClose(h: History, i: nat)
  {
    && i < |h|
    && IsTimedClose(h[i])
    && forall j :: i < j < |h| ==> !IsTimedClose(h[j])
  }

  /** The last closing detail with a time gives the close time; without one there is none. */
  lemma {:induction false} ClosedAtLastTimedClose(h: History)
    ensures ClosedAt(h).None? <==> forall i :: 0 <= i < |h| ==> !IsTimedClose(h[i])
    ensures ClosedAt(h).Some? ==> exists i: nat :: IsLastTimedClose(h, i) && h[i].time == ClosedAt(h)
  {
    if h != [] {
      var n := |h| - 1;
      if IsTimedClose(h[n]) {
        assert IsLastTimedClose(h, n);
      } else {
        ClosedAtLastTimedClose(h[..n]);
        assert forall i :: 0 <= i < n ==> h[..n][i] == h[i];
        if ClosedAt(h).Some? {
          var i: nat :| IsLastTimedClose(h[..n], i) && h[..n][i].time == ClosedAt(h);
          assert IsLastTimedClose(h, i);
        }
      }
    }
  }

  /** `resolveTerminalAtMs`: the close time, else the last edit, else the creation. */
  function ResolveTerminalAt(t: Timing): Option<int>
  {
    var fromActions := ClosedAt(t.actionDetails);
    if fromActions.Some? then fromActions
    else if t.lastEditedAt.Some? then t.lastEditedAt
    else t.createdAt
  }

  function TerminalAtSortMs(t: Timing): int
  {
    ResolveTerminalAt(t).GetOr(0)
  }

  /** The detail says the order was delivered, completed or cancelled, by its action or by its status. */
  predicate SaysClosed(d: Detail)
  {
    || OrderStatusFromAction(d.action) == Delivered || OrderStatusFromAction(d.action) == Cancelled
    || d.status == Word(Delivered) || d.status == Word(Cancelled)
  }

  predicate IsLastSaidClosed(h: History, i: nat)
  {
    && i < |h| && SaysClosed(h[i]) && h[i].time.Some?
    && forall j :: i < j < |h| ==> !(SaysClosed(h[j]) && h[j].time.Some?)
  }

  /** The last detail that closes the order and has a time decides; failing that its last edit, and failing that its creation. */
  lemma CloseTimeDecidedBy(t: Timing)
    ensures var h, at := t.actionDetails, ResolveTerminalAt(t);
      if exists i: nat :: IsLastSaidClosed(h, i) then exists i: nat :: IsLastSaidClosed(h, i) && at == h[i].time
      else at == if t.lastEditedAt.Some? then t.lastEditedAt else t.createdAt
    ensures TerminalAtSortMs(t) == if ResolveTerminalAt(t).Some? then ResolveTerminalAt(t).value else 0
  {
    var h := t.actionDetails;
    ClosedAtLastTimedClose(h);
    assert forall d :: SaysClosed(d) <==> Closes(d);
    if ClosedAt(h).Some? {
      var i: nat :| IsLastTimedClose(h, i) && h[i].time == ClosedAt(h);
      assert IsLastSaidClosed(h, i);
    }
  }

  predicate IsOperationallyVisible(t: Timing, now: int)
  {
    if IsActive(t.status) then true
    else if !IsHistory(t.status) then false
    else
      var at := ResolveTerminalAt(t);
      at.Some? && now - at.value < ARCHIVE_GRACE_MS
  }

  predicate IsArchivedVisible(t: Timing, now: int)
  {
    if !IsHistory(t.status) then false
    else if IsActive(t.status) then false
    else
      var at := ResolveTerminalAt(t);
      at.None? || now - at.value >= ARCHIVE_GRACE_MS
  }

  /** At any one instant an order is on exactly one of the two lists. */
  lemma OnExactlyOneList(t: Timing, now: int)
    ensures IsOperationallyVisible(t, now) != IsArchivedVisible(t, now)
  {
    assert IsActive(t.status) != IsHistory(t.status);
  }

  /** The archive has exactly the closed orders whose close time is unknown or at least 24 hours ago. */
  lemma ArchivedExactly(t: Timing, now: int)
    ensures IsArchivedVisible(t, now) <==>
      && (t.status == Delivered || t.status == Cancelled)
      && (ResolveTerminalAt(t).None? || now >= ResolveTerminalAt(t).value + 86_400_000)
    ensures IsOperationallyVisible(t, now) <==> !IsArchivedVisible(t, now)
  {
  }

  /** Time only moves orders into the archive, and every closed order gets there. */
  lemma ArchivedForGood(t: Timing, now: int, later: int)
    requires IsHistory(t.status) && now <= later
    ensures IsArchivedVisible(t, now) ==> IsArchivedVisible(t, later)
    ensures exists then_ :: now <= then_ && IsArchivedVisible(t, then_)
  {
    var at := ResolveTerminalAt(t);
    var then_ := if at.Some? && at.value + ARCHIVE_GRACE_MS > now then at.value + ARCHIVE_GRACE_MS else now;
    assert IsArchivedVisible(t, then_);
  }
}
