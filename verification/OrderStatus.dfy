/** The order lifecycle (`staff-order-status.util.ts`). */
module OrderStatus {
  datatype Status = Pending | Confirmed | Prepared | Delivered | Cancelled

  /** A status field as read: missing or blank, a lifecycle word, one of two other known words, or anything else. */
  datatype StatusText = NoText | Word(s: Status) | CallCreated | UpdatedWord | OtherText

  function Normalize(raw: StatusText): Status
  {
    if raw.Word? then raw.s else Pending
  }

  predicate IsActive(s: Status)
  {
    s == Pending || s == Confirmed || s == Prepared
  }

  predicate IsHistory(s: Status)
  {
    s == Delivered || s == Cancelled
  }

  function Rank(s: Status): (r: nat)
  {
    match s
    case Pending => 0
    case Confirmed => 1
    case Prepared => 2
    case Delivered => 3
    case Cancelled => 3
  }

  /** `preferAuthoritativeLifecycleStatus`. */
  function Prefer(primary: Status, secondary: Status): Status
  {
    if Rank(primary) >= Rank(secondary) then primary else secondary
  }

  /** The last status of a history that says more than pending. */
  function Latest(history: seq<StatusText>): Status
  {
    if history == [] then Pending
    else
      var s := Normalize(history[|history| - 1]);
      if s == Pending then Latest(history[..|history| - 1]) else s
  }

  function ResolveLatest(history: seq<StatusText>, order: StatusText): Status
  {
    var o := Normalize(order);
    if o == Cancelled || o == Prepared || o == Delivered then o
    else if history == [] then o
    else Latest(history)
  }

  method ResolveLatestOrderStatus(history: seq<StatusText>, order: StatusText) returns (r: Status)
    ensures r == ResolveLatest(history, order)
  {
    var orderStatus := Normalize(order);
    if orderStatus in {Confirmed, Cancelled, Prepared, Delivered} && orderStatus != Confirmed {
      return orderStatus;
    }
    if orderStatus == Confirmed && history == [] {
      return Confirmed;
    }
    if history == [] {
      return Pending;
    }
    var i := |history| - 1;
    assert history[..i + 1] == history;
    while i >= 0
      invariant -1 <= i < |history|
      invariant Latest(history) == Latest(history[..i + 1])
    {
      var status := Normalize(history[i]);
      assert history[..i + 1][..i] == history[..i];
      if status != Pending {
        return status;
      }
      i := i - 1;
    }
    return Pending;
  }

  /** `resolveListEntryStatus`: the row's own status when it has one, else its history's. */
  function ResolveListEntry(history: seq<StatusText>, status: StatusText): Status
  {
    if status != NoText then Normalize(status) else ResolveLatest(history, NoText)
  }

  /** The history's status is that of its last entry beyond pending; pending only when there is none. */
  lemma {:induction false} LatestIsLastBeyondPending(history: seq<StatusText>)
    ensures Latest(history) == Pending <==> forall i :: 0 <= i < |history| ==> Normalize(history[i]) == Pending
    ensures Latest(history) != Pending ==>
      exists i :: 0 <= i < |history| && Normalize(history[i]) == Latest(history)
        && forall j :: i < j < |history| ==> Normalize(history[j]) == Pending
  {
    if history != [] {
      var n := |history| - 1;
      LatestIsLastBeyondPending(history[..n]);
      if Normalize(history[n]) == Pending && Latest(history) != Pending {
        var i :| 0 <= i < n && Normalize(history[..n][i]) == Latest(history)
          && forall j :: i < j < n ==> Normalize(history[..n][j]) == Pending;
        assert Normalize(history[i]) == Latest(history);
        forall j | i < j < |history| ensures Normalize(history[j]) == Pending {
          if j < n {
            assert history[..n][j] == history[j];
          }
        }
      }
    }
  }

  /** `Prefer` is a left-biased maximum: associative, idempotent, and of the greater rank. */
  lemma PreferIsMaximum(a: Status, b: Status, c: Status)
    ensures Rank(Prefer(a, b)) == if Rank(a) >= Rank(b) then Rank(a) else Rank(b)
    ensures Prefer(a, Prefer(b, c)) == Prefer(Prefer(a, b), c)
    ensures Prefer(Prefer(a, b), b) == Prefer(a, b)
  {
  }

  /**
   Resolving an order against its history can set it back in one case only: an order confirmed by its
   own field whose history, though there is one, has nothing beyond pending.
   */
  lemma ResolvingSetsBackOnlyConfirmed(history: seq<StatusText>, order: StatusText)
    ensures Rank(ResolveLatest(history, order)) < Rank(Normalize(order)) <==>
      Normalize(order) == Confirmed && history != [] && forall i :: 0 <= i < |history| ==> Normalize(history[i]) == Pending
  {
    LatestIsLastBeyondPending(history);
  }

  /** An order ranks no higher than another exactly when that one is closed or at least as far along; the two closed statuses rank alike. */
  lemma RankIsLifecycle(s: Status, t: Status)
    ensures Rank(s) <= Rank(t) <==>
      t == Delivered || t == Cancelled || s == Pending || s == t || (s == Confirmed && t == Prepared)
  {
  }
}
