/**
 What needs staff attention, its sort order and its badge count
 (`staff-order-attention.util.ts`, `mergeGraceIntoOperationalPage`,
 `fetchAllTableActivityLogRowsForAttention`, `resolveTableAttentionPendingCount`).
 */
module Attention {
  import opened ActionDetails
  import opened EntryLists
  import opened Numbers
  import opened OrderActions
  import opened OrderStatus
  import opened Presenter
  import PushEvents
  import opened Sequences
  import opened UpstreamPaging
  import opened Wrappers

  /** The fields attention is decided by. */
  datatype Flags = Flags(status: Status, pendingGuestAddition: bool, pendingBillRequest: bool, requestKind: RequestKind)

  function FlagsOf(e: Entry): Flags
  {
    Flags(e.status, e.pendingGuestAddition, e.pendingBillRequest, e.requestKind)
  }

  predicate NeedsAttention(f: Flags)
  {
    if IsService(f.requestKind) then f.status == Pending
    else f.status == Pending || f.pendingGuestAddition || f.pendingBillRequest
  }

  /** Bill first, then guest additions, pending waiters, pending orders, the rest. */
  function AttentionRank(f: Flags): nat
  {
    if f.pendingBillRequest || (f.requestKind == BillCall && f.status == Pending) then 0
    else if f.pendingGuestAddition then 1
    else if f.requestKind == WaiterCall && f.status == Pending then 2
    else if f.status == Pending then 3
    else 4
  }

  /** A service row carries neither flag; `buildEntry` sees to it. */
  predicate FlagFree(f: Flags)
  {
    IsService(f.requestKind) ==> !f.pendingGuestAddition && !f.pendingBillRequest
  }

  /** A closed service row that carries a flag all the same. */
  predicate Misranked(f: Flags)
  {
    IsService(f.requestKind) && f.status != Pending && (f.pendingGuestAddition || f.pendingBillRequest)
  }

  /** The sort rank and the attention test agree, except on a closed service row that carries a flag. */
  lemma RankAgreesWithAttention(f: Flags)
    ensures (AttentionRank(f) < 4 <==> NeedsAttention(f)) <==> !Misranked(f)
    ensures NeedsAttention(f) ==> AttentionRank(f) < 4
    ensures FlagFree(f) ==> (AttentionRank(f) < 4 <==> NeedsAttention(f))
  {
  }

  predicate AsksForBill(f: Flags)
  {
    f.pendingBillRequest || (f.requestKind == BillCall && f.status == Pending)
  }

  predicate AsksForWaiter(f: Flags)
  {
    f.requestKind == WaiterCall && f.status == Pending
  }

  /** A row goes before another at the first of four questions only it answers yes: bill, addition, waiter, pending. */
  lemma RankIsPriority(f: Flags, g: Flags)
    ensures AttentionRank(f) < AttentionRank(g) <==>
      if AsksForBill(f) || AsksForBill(g) then AsksForBill(f) && !AsksForBill(g)
      else if f.pendingGuestAddition || g.pendingGuestAddition then f.pendingGuestAddition && !g.pendingGuestAddition
      else if AsksForWaiter(f) || AsksForWaiter(g) then AsksForWaiter(f) && !AsksForWaiter(g)
      else f.status == Pending && g.status != Pending
  {
  }

  /** The payload of a changed call says of an order what its row in the list says. */
  predicate SaysTheSame(p: PushEvents.Payload, f: Flags)
  {
    && p.pendingGuestAddition == f.pendingGuestAddition && p.pendingBillRequest == f.pendingBillRequest
    && (p.status.PendingOrAbsent? <==> f.status == Pending)
    && (p.requestKind.BillCall? <==> f.requestKind == BillCall)
    && (p.requestKind.WaiterCall? <==> f.requestKind == WaiterCall)
  }

  /**
   The push side and the list side agree: a changed call is pushed exactly when its row ranks above a
   plain pending order, which was announced when it was new, and the push says what the rank is for.
   */
  lemma PushedWhenRankedAbovePending(p: PushEvents.Payload, channel: PushEvents.Channel, clock: string, f: Flags)
    requires SaysTheSame(p, f) && p.menuId.Some? && p.id.Some?
    ensures var e := PushEvents.MapAttentionChanged(p, channel, clock);
      && (e.Some? <==> AttentionRank(f) < 3)
      && (e.Some? ==> match e.value.kind
            case GuestAdd => f.pendingGuestAddition
            case Bill => AttentionRank(f) == 0
            case WaiterRequest => AttentionRank(f) == 2
            case NewCall => false)
  {
  }

  /**
   Merging two flag-free entries gives one that is not exactly when a service row meets a flagged
   order: hydration can hand the sort a row it places by a flag the row no longer answers for.
   */
  lemma MergeMayFlagServiceRow(base: Entry, overlay: Entry, auth: Auth)
    requires FlagFree(FlagsOf(base)) && FlagFree(FlagsOf(overlay))
    ensures !FlagFree(FlagsOf(MergeEntryFields(base, overlay, auth))) <==>
      || (IsService(base.requestKind) && (overlay.pendingGuestAddition || overlay.pendingBillRequest))
      || (IsService(overlay.requestKind) && (base.pendingGuestAddition || base.pendingBillRequest))
  {
  }

  // ------------------------------------------------------------------ page one

  function AttentionKey(): Entry -> Key
  {
    (e: Entry) => Key(AttentionRank(FlagsOf(e)), -(e.createdAt.GetOr(0)))
  }

  function SortTableEntriesByAttention(entries: seq<Entry>): seq<Entry>
  {
    SortBy(entries, AttentionKey())
  }

  predicate EntryNeedsAttention(e: Entry)
  {
    NeedsAttention(FlagsOf(e))
  }

  function CountAttention(entries: seq<Entry>): nat
  {
    |Filter(entries, EntryNeedsAttention)|
  }

  /** `mergeGraceIntoOperationalPage`. */
  function MergeGrace(page: seq<Entry>, grace: seq<Entry>, limit: nat): seq<Entry>
  {
    Slice(Dedupe(Identified(page + grace)), 0, if limit > |page| then limit else |page|)
  }

  /** Merging closed orders into the page loses no order of the page and repeats none. */
  lemma MergeGraceLosesNothing(page: seq<Entry>, grace: seq<Entry>, limit: nat)
    ensures Dedupe(Identified(page)) <= MergeGrace(page, grace, limit)
    ensures DistinctIds(MergeGrace(page, grace, limit))
    ensures |MergeGrace(page, grace, limit)| <= if limit > |page| then limit else |page|
    ensures forall e :: e in MergeGrace(page, grace, limit) ==> e in page || e in grace
  {
    var d, merged := Dedupe(Identified(page)), Dedupe(Identified(page + grace));
    assert d <= merged by {
      FilterConcat(page, grace, HasId);
      DedupePrefix(Identified(page), Identified(grace));
    }
    assert |d| <= |page| by {
      FilterExactly(page, HasId);
      DedupeKeepsIds(Identified(page));
    }
    MergedRows(page, grace);
    var cap := if limit > |page| then limit else |page|;
    assert MergeGrace(page, grace, limit) == merged[..Min(cap, |merged|)];
  }

  /** A grace order is there by its id, whenever the page and the grace orders together fit. */
  lemma GraceIsThereWhileThereIsRoom(page: seq<Entry>, grace: seq<Entry>, limit: nat, e: Entry)
    requires e in grace && e.staffCallId > 0
    requires |Ids(Identified(page + grace))| <= limit
    ensures e.staffCallId in Ids(MergeGrace(page, grace, limit))
  {
    var all := Identified(page + grace);
    DedupeKeepsIds(all);
    DistinctIdsCount(Dedupe(all));
    assert MergeGrace(page, grace, limit) == Dedupe(all);
    FilterExactly(page + grace, HasId);
    assert e in page + grace && e in all;
  }

  /** And the page is filled up as far as they go. */
  lemma GraceFillsThePage(page: seq<Entry>, grace: seq<Entry>, limit: nat)
    ensures var ids := |Ids(Identified(page + grace))|;
      |MergeGrace(page, grace, limit)| == if ids <= limit || ids <= |page| then ids else if limit > |page| then limit else |page|
    ensures MergeGrace(page, grace, limit) <= Dedupe(Identified(page + grace))
  {
    DedupeKeepsIds(Identified(page + grace));
    DistinctIdsCount(Dedupe(Identified(page + grace)));
  }

  lemma MergedRows(page: seq<Entry>, grace: seq<Entry>)
    ensures DistinctIds(Dedupe(Identified(page + grace)))
    ensures forall e :: e in Dedupe(Identified(page + grace)) ==> e in page || e in grace
  {
    var all := Identified(page + grace);
    DedupeKeepsIds(all);
    FilterExactly(page + grace, HasId);
    forall e | e in Dedupe(all) ensures e in page || e in grace {
      DedupeKeepsFirsts(all, e);
      var k :| IsFirstAt(all, e, k);
      assert e in all;
    }
  }

  lemma {:induction false} CountSplit(s: seq<Entry>, k: nat)
    requires k <= |s|
    requires forall i :: 0 <= i < |s| ==> (NeedsAttention(FlagsOf(s[i])) <==> i < k)
    ensures CountAttention(s) == k
  {
    if s != [] {
      assert forall i :: 0 <= i < |s| - 1 ==> s[1..][i] == s[i + 1];
      CountSplit(s[1..], if k > 0 then k - 1 else 0);
    }
  }

  /** The first rows, as many as need attention, are those that do. */
  predicate AttentionFirst(s: seq<Entry>)
  {
    forall i :: 0 <= i < |s| ==> (EntryNeedsAttention(s[i]) <==> i < CountAttention(s))
  }

  /** No row that fails the test comes before one that passes it. */
  predicate PassingFirst(s: seq<Entry>, test: Entry -> bool)
  {
    forall i, j :: 0 <= i < j < |s| && test(s[j]) ==> test(s[i])
  }

  lemma {:induction false} PassingPrefix(s: seq<Entry>, test: Entry -> bool) returns (k: nat)
    requires PassingFirst(s, test)
    ensures k <= |s| && forall i :: 0 <= i < |s| ==> (test(s[i]) <==> i < k)
  {
    if s == [] {
      k := 0;
    } else {
      var n := |s| - 1;
      assert forall i :: 0 <= i < n ==> s[..n][i] == s[i];
      k := PassingPrefix(s[..n], test);
      if test(s[n]) {
        assert forall i :: 0 <= i < n ==> test(s[i]);
        k := |s|;
      }
    }
  }

  lemma AttentionFirstIsPassingFirst(s: seq<Entry>)
    ensures AttentionFirst(s) <==> PassingFirst(s, EntryNeedsAttention)
  {
    if PassingFirst(s, EntryNeedsAttention) {
      var k := PassingPrefix(s, EntryNeedsAttention);
      CountSplit(s, k);
    }
  }

  /** With `x` ahead of `y` in the list, the sort does not put the one that fails before the one that passes. */
  predicate PairFits(x: Entry, y: Entry, key: Entry -> Key, test: Entry -> bool)
  {
    && (test(x) && !test(y) ==> !Before(key(y), key(x)))
    && (!test(x) && test(y) ==> Before(key(y), key(x)))
  }

  predicate FitsAll(x: Entry, s: seq<Entry>, key: Entry -> Key, test: Entry -> bool)
  {
    forall y :: y in s ==> PairFits(x, y, key, test)
  }

  predicate AllPairsFit(s: seq<Entry>, key: Entry -> Key, test: Entry -> bool)
  {
    forall i, j :: 0 <= i < j < |s| ==> PairFits(s[i], s[j], key, test)
  }

  /** Where a row is inserted. */
  lemma {:induction false} InsertPlace(e: Entry, s: seq<Entry>, key: Entry -> Key) returns (a: seq<Entry>, b: seq<Entry>)
    requires SortedBy(s, key)
    ensures s == a + b && Insert(e, s, key) == a + [e] + b
    ensures forall y :: y in a ==> Before(key(y), key(e))
    ensures forall y :: y in b ==> !Before(key(y), key(e))
  {
    if s == [] || !Before(key(s[0]), key(e)) {
      a, b := [], s;
      forall i | 0 <= i < |s| ensures !Before(key(s[i]), key(e)) {
        assert i > 0 ==> !Before(key(s[i]), key(s[0]));
      }
    } else {
      assert forall i :: 0 <= i < |s| - 1 ==> s[1..][i] == s[i + 1];
      a, b := InsertPlace(e, s[1..], key);
      a := [s[0]] + a;
    }
  }

  lemma PassingWithout(a: seq<Entry>, e: Entry, b: seq<Entry>, test: Entry -> bool)
    requires PassingFirst(a + [e] + b, test)
    ensures PassingFirst(a + b, test)
    ensures test(e) ==> forall y :: y in a ==> test(y)
    ensures !test(e) ==> forall y :: y in b ==> !test(y)
  {
    var k := |a|;
    var s, t := a + b, a + [e] + b;
    assert t[k] == e;
    forall i, j | 0 <= i < j < |s| && test(s[j]) ensures test(s[i]) {
      assert s[j] == t[if j < k then j else j + 1];
      assert s[i] == t[if i < k then i else i + 1];
    }
    forall y | y in a && test(e) ensures test(y) {
      var i :| 0 <= i < k && a[i] == y;
      assert t[i] == y;
    }
    forall y | y in b && !test(e) ensures !test(y) {
      var i :| 0 <= i < |b| && b[i] == y;
      assert t[k + i + 1] == y;
    }
  }

  lemma PassingWith(a: seq<Entry>, e: Entry, b: seq<Entry>, test: Entry -> bool)
    requires PassingFirst(a + b, test)
    requires test(e) ==> forall y :: y in a ==> test(y)
    requires !test(e) ==> forall y :: y in b ==> !test(y)
    ensures PassingFirst(a + [e] + b, test)
  {
    var k := |a|;
    var s, t := a + b, a + [e] + b;
    assert t[k] == e;
    forall i, j | 0 <= i < j < |t| && test(t[j]) ensures test(t[i]) {
      if i == k {
        assert t[j] == b[j - k - 1] && t[j] in b;
      } else if j == k {
        assert t[i] == a[i] && t[i] in a;
      } else {
        assert t[j] == s[if j < k then j else j - 1];
        assert t[i] == s[if i < k then i else i - 1];
      }
    }
  }

  /** A row between two parts of a list keeps the passing first exactly when it passes with all before it, or fails with all after it. */
  lemma PassingAround(a: seq<Entry>, e: Entry, b: seq<Entry>, test: Entry -> bool)
    ensures PassingFirst(a + [e] + b, test) <==>
      && PassingFirst(a + b, test)
      && (test(e) ==> forall y :: y in a ==> test(y))
      && (!test(e) ==> forall y :: y in b ==> !test(y))
  {
    if PassingFirst(a + [e] + b, test) {
      PassingWithout(a, e, b, test);
    } else if PassingFirst(a + b, test) && if test(e) then forall y :: y in a ==> test(y) else forall y :: y in b ==> !test(y) {
      PassingWith(a, e, b, test);
    }
  }

  /** A row inserted into a sorted list keeps the passing first exactly when it fits every row there. */
  lemma InsertKeepsPassingFirst(e: Entry, s: seq<Entry>, key: Entry -> Key, test: Entry -> bool)
    requires SortedBy(s, key)
    ensures PassingFirst(Insert(e, s, key), test) <==> PassingFirst(s, test) && FitsAll(e, s, key, test)
  {
    var a, b := InsertPlace(e, s, key);
    PassingAround(a, e, b, test);
    forall y | y in a ensures PairFits(e, y, key, test) <==> (test(e) ==> test(y)) {}
    forall y | y in b ensures PairFits(e, y, key, test) <==> (test(y) ==> test(e)) {}
    assert forall y :: y in s <==> y in a || y in b;
  }

  lemma PairsCons(e: Entry, s: seq<Entry>, key: Entry -> Key, test: Entry -> bool)
    ensures AllPairsFit([e] + s, key, test) <==> AllPairsFit(s, key, test) && FitsAll(e, s, key, test)
  {
    var t := [e] + s;
    assert t[0] == e && forall i :: 0 <= i < |s| ==> t[i + 1] == s[i];
    if AllPairsFit(t, key, test) {
      forall y | y in s ensures PairFits(e, y, key, test) {
        var i :| 0 <= i < |s| && s[i] == y;
        assert PairFits(t[0], t[i + 1], key, test);
      }
      forall i, j | 0 <= i < j < |s| ensures PairFits(s[i], s[j], key, test) {
        assert PairFits(t[i + 1], t[j + 1], key, test);
      }
    }
  }

  /** A sort by `key` puts the passing first exactly when every pair of the list fits. */
  lemma {:induction false} SortKeepsPassingFirst(s: seq<Entry>, key: Entry -> Key, test: Entry -> bool)
    ensures PassingFirst(SortBy(s, key), test) <==> AllPairsFit(s, key, test)
  {
    if s != [] {
      var rest := SortBy(s[1..], key);
      SortKeepsPassingFirst(s[1..], key, test);
      SortIsStableSort(s[1..], key);
      SamePassing(rest, s[1..]);
      InsertKeepsPassingFirst(s[0], rest, key, test);
      assert s == [s[0]] + s[1..];
      PairsCons(s[0], s[1..], key, test);
    }
  }

  lemma SamePassing(s: seq<Entry>, t: seq<Entry>)
    requires multiset(s) == multiset(t)
    ensures forall y :: y in s <==> y in t
  {
    forall y ensures y in s <==> y in t {
      assert y in s <==> y in multiset(s);
      assert y in t <==> y in multiset(t);
    }
  }

  /** Row `j` of the list sorts before row `i`. */
  predicate SortsBefore(s: seq<Entry>, j: nat, i: nat)
    requires i < |s| && j < |s|
  {
    var a, b := AttentionRank(FlagsOf(s[j])), AttentionRank(FlagsOf(s[i]));
    var since, than := s[j].createdAt.GetOr(0), s[i].createdAt.GetOr(0);
    a < b || (a == b && (since > than || (since == than && j < i)))
  }

  predicate HasRankAndTime(rank: nat, at: int, e: Entry)
  {
    AttentionRank(FlagsOf(e)) == rank && e.createdAt.GetOr(0) == at
  }

  /** The rows of one rank and one time, in order. */
  function OfRankAndTime(s: seq<Entry>, rank: nat, at: int): seq<Entry>
  {
    Filter(s, e => HasRankAndTime(rank, at, e))
  }

  /** By rank; of one rank the newest first; of one rank and time in the order they came. */
  lemma SortedByRankThenNewest(entries: seq<Entry>)
    ensures var s := SortTableEntriesByAttention(entries);
      && (forall i, j :: 0 <= i < j < |s| ==>
            var a, b := AttentionRank(FlagsOf(s[i])), AttentionRank(FlagsOf(s[j]));
            a < b || (a == b && s[i].createdAt.GetOr(0) >= s[j].createdAt.GetOr(0)))
      && (forall rank: nat, at :: OfRankAndTime(s, rank, at) == OfRankAndTime(entries, rank, at))
  {
    var s := SortTableEntriesByAttention(entries);
    SortIsStableSort(entries, AttentionKey());
    forall i, j | 0 <= i < j < |s|
      ensures var a, b := AttentionRank(FlagsOf(s[i])), AttentionRank(FlagsOf(s[j]));
        a < b || (a == b && s[i].createdAt.GetOr(0) >= s[j].createdAt.GetOr(0))
    {
      assert !Before(AttentionKey()(s[j]), AttentionKey()(s[i]));
    }
    forall rank: nat, at ensures OfRankAndTime(s, rank, at) == OfRankAndTime(entries, rank, at) {
      SortIsStable(entries, AttentionKey(), e => HasRankAndTime(rank, at, e));
    }
  }

  /** Each row that needs attention sorts before every closed service row with a flag. */
  ghost predicate NoneOvertaken(s: seq<Entry>)
  {
    forall i: nat, j: nat :: i < |s| && j < |s| && Misranked(FlagsOf(s[i])) && EntryNeedsAttention(s[j]) ==> SortsBefore(s, j, i)
  }

  /** Two rows fit unless one is misranked and the other, which needs attention, does not sort before it. */
  lemma PairFitsExactly(x: Entry, y: Entry)
    ensures PairFits(x, y, AttentionKey(), EntryNeedsAttention) <==>
      && (Misranked(FlagsOf(x)) && EntryNeedsAttention(y) ==> Before(AttentionKey()(y), AttentionKey()(x)))
      && (Misranked(FlagsOf(y)) && EntryNeedsAttention(x) ==> !Before(AttentionKey()(y), AttentionKey()(x)))
  {
    RankAgreesWithAttention(FlagsOf(x));
    RankAgreesWithAttention(FlagsOf(y));
  }

  lemma PairsFitExactly(s: seq<Entry>)
    ensures AllPairsFit(s, AttentionKey(), EntryNeedsAttention) <==> NoneOvertaken(s)
  {
    forall i: nat, j: nat | i < j < |s|
      ensures PairFits(s[i], s[j], AttentionKey(), EntryNeedsAttention) <==>
        && (Misranked(FlagsOf(s[i])) && EntryNeedsAttention(s[j]) ==> SortsBefore(s, j, i))
        && (Misranked(FlagsOf(s[j])) && EntryNeedsAttention(s[i]) ==> SortsBefore(s, i, j))
    {
      PairFitsExactly(s[i], s[j]);
    }
    if AllPairsFit(s, AttentionKey(), EntryNeedsAttention) {
      forall i: nat, j: nat | i < |s| && j < |s| && Misranked(FlagsOf(s[i])) && EntryNeedsAttention(s[j])
        ensures SortsBefore(s, j, i)
      {
        assert i < j ==> PairFits(s[i], s[j], AttentionKey(), EntryNeedsAttention);
        assert j < i ==> PairFits(s[j], s[i], AttentionKey(), EntryNeedsAttention);
      }
    }
  }

  /**
   The attention sort is a permutation, ordered by rank and newest first within a rank.  Its first
   `CountAttention` rows are those that need attention exactly when each of these sorts before every
   closed service row with a flag; so always, when the list has no such row.
   */
  lemma AttentionRowsComeFirst(entries: seq<Entry>)
    ensures var s := SortTableEntriesByAttention(entries);
      && multiset(s) == multiset(entries)
      && SortedBy(s, AttentionKey())
      && CountAttention(s) == CountAttention(entries) <= |s| == |entries|
      && (AttentionFirst(s) <==> NoneOvertaken(entries))
    ensures (forall e :: e in entries ==> !Misranked(FlagsOf(e))) ==> AttentionFirst(SortTableEntriesByAttention(entries))
  {
    var s := SortTableEntriesByAttention(entries);
    SortIsStableSort(entries, AttentionKey());
    SortKeepsCount(entries, AttentionKey(), EntryNeedsAttention);
    FilterExactly(entries, EntryNeedsAttention);
    AttentionFirstIsPassingFirst(s);
    SortKeepsPassingFirst(entries, AttentionKey(), EntryNeedsAttention);
    PairsFitExactly(entries);
  }

  /** A pending order with nothing else to it. */
  predicate IsPlainPending(e: Entry)
  {
    FlagsOf(e) == Flags(Pending, false, false, FoodOrder)
  }

  /** A closed service row with a flag goes before any plain pending order, and takes the one place counted for it. */
  lemma MisrankedDisplaces(x: Entry, y: Entry)
    requires Misranked(FlagsOf(x)) && IsPlainPending(y)
    ensures SortTableEntriesByAttention([x, y]) == [x, y] == SortTableEntriesByAttention([y, x])
    ensures CountAttention([x, y]) == 1 && !EntryNeedsAttention(x) && EntryNeedsAttention(y)
    ensures !AttentionFirst([x, y])
  {
    assert [x, y][1..] == [y] && [y, x][1..] == [x] && [y][1..] == [] && [x][1..] == [];
    assert Before(AttentionKey()(x), AttentionKey()(y));
    assert SortBy([y], AttentionKey()) == [y] && SortBy([x], AttentionKey()) == [x];
    assert Insert(y, [], AttentionKey()) == [y];
    assert Filter([y], EntryNeedsAttention) == [y];
    assert !EntryNeedsAttention([x, y][0]);
  }

  /** So a row is safe beside every list of rows without flags exactly when it is not a closed service row with one. */
  lemma SafeRowsExactly(x: Entry)
    ensures !Misranked(FlagsOf(x)) <==>
      forall ys: seq<Entry> :: (forall y :: y in ys ==> FlagFree(FlagsOf(y))) ==>
        AttentionFirst(SortTableEntriesByAttention([x] + ys))
  {
    if Misranked(FlagsOf(x)) {
      var y := x.(status := Pending, requestKind := FoodOrder, pendingGuestAddition := false, pendingBillRequest := false);
      MisrankedDisplaces(x, y);
      assert [x] + [y] == [x, y];
      assert !AttentionFirst(SortTableEntriesByAttention([x] + [y]));
    } else {
      forall ys: seq<Entry> | forall y :: y in ys ==> FlagFree(FlagsOf(y))
        ensures AttentionFirst(SortTableEntriesByAttention([x] + ys))
      {
        AttentionRowsComeFirst([x] + ys);
      }
    }
  }

  /**
   Hydration makes such rows: an order under way that carries a flag, hydrated with a call row that
   reads as a service request, goes before a plain pending order from then on.
   */
  lemma HydratedRowDisplaces(order: Entry, call: Raw, auth: Auth, y: Entry)
    requires order.channel == Table && order.status != Pending
    requires order.pendingGuestAddition || order.pendingBillRequest
    requires call.channel == Table && call.staffCallId > 0 && IsService(call.requestKind)
    requires IsPlainPending(y)
    ensures var x := MergeCallHydration(order, call, auth);
      && Misranked(FlagsOf(x))
      && SortTableEntriesByAttention([y, x]) == [x, y]
      && CountAttention([x, y]) == 1 && !EntryNeedsAttention(x)
  {
    var overlay := PresentTableCallRow(call, auth).value;
    MergeTakesGreatestRank(order, overlay, auth);
    var x := MergeCallHydration(order, call, auth);
    assert x.status != Pending;
    MisrankedDisplaces(x, y);
  }

  lemma {:induction false} InsertKeepsCount(e: Entry, s: seq<Entry>, key: Entry -> Key, keep: Entry -> bool)
    ensures |Filter(Insert(e, s, key), keep)| == |Filter([e] + s, keep)|
  {
    assert ([e] + s)[1..] == s;
    if s != [] && Before(key(s[0]), key(e)) {
      InsertKeepsCount(e, s[1..], key, keep);
      assert ([e] + s[1..])[1..] == s[1..];
      assert ([s[0]] + Insert(e, s[1..], key))[1..] == Insert(e, s[1..], key);
    }
  }

  lemma {:induction false} SortKeepsCount(s: seq<Entry>, key: Entry -> Key, keep: Entry -> bool)
    ensures |Filter(SortBy(s, key), keep)| == |Filter(s, keep)|
  {
    if s != [] {
      SortKeepsCount(s[1..], key, keep);
      InsertKeepsCount(s[0], SortBy(s[1..], key), key, keep);
      assert ([s[0]] + SortBy(s[1..], key))[1..] == SortBy(s[1..], key);
    }
  }

  // -------------------------------------------------------------- badge count

  const SCAN_LIMIT: nat := 100
  const MAX_SCAN_ROWS: nat := 500

  /** An activity-log row, read; `id` is its order id, else its own, else 0. */
  datatype LogEntry = LogEntry(
    delivery: bool,
    id: nat,
    status: StatusText,
    fromActions: History,
    fromList: History,
    pendingGuestAddition: bool,
    pendingBillRequest: bool,
    requestKind: RequestKind)

  /** The row's flags, its status resolved from its own field or else its history. */
  function LogFlags(r: LogEntry): Flags
  {
    var history := PickRicher(r.fromActions, r.fromList);
    Flags(ResolveListEntry(Statuses(history), r.status), r.pendingGuestAddition, r.pendingBillRequest, r.requestKind)
  }

  /** A row of the table-calls list, read; a missing status reads as pending, a blank one as no text. */
  datatype CallEntry = CallEntry(
    delivery: bool,
    id: nat,
    status: StatusText,
    pendingGuestAddition: bool,
    pendingBillRequest: bool,
    requestKind: RequestKind)

  predicate IsMergeable(c: CallEntry)
  {
    IsService(c.requestKind) && (c.status == Word(Pending) || c.status == NoText)
  }

  /** `entryNeedsAttention` on a call row, whose status is compared as text. */
  predicate CallNeedsAttention(c: CallEntry)
  {
    if IsService(c.requestKind) then c.status == Word(Pending)
    else c.status == Word(Pending) || c.pendingGuestAddition || c.pendingBillRequest
  }

  /** The badge counts waiter and bill requests that are pending or say nothing of their status. */
  lemma CountedRequestsExactly(c: CallEntry)
    ensures IsCountedCall(c) <==>
      c.id > 0 && (c.requestKind == WaiterCall || c.requestKind == BillCall) && (c.status == Word(Pending) || c.status == NoText)
  {
  }

  /** Of a log row its own status decides, and where it has none the richer of its two histories; its flags and kind are its own. */
  lemma LogFlagsDecidedBy(r: LogEntry)
    ensures var f := LogFlags(r);
      && f.pendingGuestAddition == r.pendingGuestAddition && f.pendingBillRequest == r.pendingBillRequest
      && f.requestKind == r.requestKind
      && (r.status != NoText ==> f.status == Normalize(r.status))
      && (r.status == NoText && AtLeastAsRich(r.fromActions, r.fromList) ==> f.status == Latest(Statuses(r.fromActions)))
      && (r.status == NoText && !AtLeastAsRich(r.fromActions, r.fromList) ==> f.status == Latest(Statuses(r.fromList)))
  {
    PickRicherIsMaximum(r.fromActions, r.fromList, []);
  }

  /** What makes an order of the log count: pending, or an order with an addition or a bill. */
  lemma NeedsAttentionExactly(f: Flags)
    ensures NeedsAttention(f) <==>
      f.status == Pending || (f.requestKind == FoodOrder && (f.pendingGuestAddition || f.pendingBillRequest))
  {
  }

  /** For a closed menu: the calls whose status reads pending, and the orders with an addition or a bill. */
  lemma CountedCallsExactly(c: CallEntry)
    ensures CallNeedsAttention(c) <==>
      c.status == Word(Pending) || (c.requestKind == FoodOrder && (c.pendingGuestAddition || c.pendingBillRequest))
  {
  }

  predicate IsTableRow(r: LogEntry)
  {
    !r.delivery
  }

  function TableRows(rows: seq<LogEntry>): seq<LogEntry>
  {
    Filter(rows, IsTableRow)
  }

  datatype Scan = Scan(soft404: bool, rows: seq<LogEntry>)

  /** The scan for the badge: the table rows of the first 500, in at most five fetches. */
  method FetchAllTableActivityLogRowsForAttention(answers: nat -> Answer<LogEntry>, ghost upstream: seq<LogEntry>)
      returns (scan: Scan, fetches: nat)
    ensures Honest(answers, upstream, SCAN_LIMIT) ==>
      scan == Scan(false, TableRows(upstream[..Min(|upstream|, 500)])) && fetches <= 5
    ensures answers(1) == Soft404 ==> scan.soft404
  {
    var upstreamPage: nat := 1;
    var scanned := 0;
    var collected: seq<LogEntry> := [];
    fetches := 0;
    ghost var honest := Honest(answers, upstream, SCAN_LIMIT);
    while scanned < MAX_SCAN_ROWS
      invariant fetches == upstreamPage - 1
      invariant fetches > 0 ==> answers(1).Page?
      invariant scanned > 0 ==> fetches > 0
      invariant honest ==> scanned == fetches * SCAN_LIMIT <= |upstream| && scanned <= MAX_SCAN_ROWS
      invariant honest ==> collected == TableRows(upstream[..scanned])
      decreases MAX_SCAN_ROWS - scanned
    {
      if honest {
        HonestPage(upstream, upstreamPage, SCAN_LIMIT, scanned);
      }
      var answer := answers(upstreamPage);
      fetches := fetches + 1;
      if answer.Soft404? {
        return Scan(true, []), fetches;
      }
      if answer.Failed? {
        break;
      }
      var rows := answer.rows;
      if |rows| == 0 {
        break;
      }
      if honest {
        FilterConcat(upstream[..scanned], rows, IsTableRow);
      }
      collected := collected + TableRows(rows);
      scanned := scanned + |rows|;
      if upstreamPage >= answer.totalPages || |rows| < SCAN_LIMIT {
        break;
      }
      upstreamPage := upstreamPage + 1;
    }
    scan := Scan(false, collected);
  }

  predicate CountsForBadge(r: LogEntry)
  {
    NeedsAttention(LogFlags(r)) && r.id > 0
  }

  predicate IsCountedCall(c: CallEntry)
  {
    IsMergeable(c) && c.id > 0
  }

  /** The orders with some activity row that needs attention. */
  function NeedyOrders(rows: seq<LogEntry>): set<nat>
  {
    set r | r in rows && CountsForBadge(r) :: r.id
  }

  /** The pending waiter and bill requests. */
  function ServiceCalls(calls: seq<CallEntry>): set<nat>
  {
    set c | c in calls && IsCountedCall(c) :: c.id
  }

  /** The ids of a list's elements. */
  function IdsOf<T(==)>(s: seq<T>, counted: T -> bool, id: T -> nat): (ids: set<nat>)
  {
    set x | x in s && counted(x) :: id(x)
  }

  lemma IdsOfSnoc<T>(s: seq<T>, x: T, counted: T -> bool, id: T -> nat)
    ensures IdsOf(s + [x], counted, id) == if counted(x) then IdsOf(s, counted, id) + {id(x)} else IdsOf(s, counted, id)
  {
    forall n: nat
      ensures n in IdsOf(s + [x], counted, id) <==> n in IdsOf(s, counted, id) || (counted(x) && n == id(x))
    {
      if n in IdsOf(s, counted, id) {
        var y :| y in s && counted(y) && id(y) == n;
        assert y in s + [x];
      }
      assert x in s + [x];
    }
  }

  /** One counting loop: goes on from the ids already counted, and counts each new one once. */
  method CountOnce<T(==)>(already: set<nat>, rows: seq<T>, counted: T -> bool, id: T -> nat)
      returns (countedIds: set<nat>, count: nat)
    ensures forall n: nat :: n in countedIds <==> n in already || n in IdsOf(rows, counted, id)
    ensures count == |countedIds|
  {
    countedIds, count := already, |already|;
    var i := 0;
    while i < |rows|
      invariant 0 <= i <= |rows|
      invariant forall n: nat :: n in countedIds <==> n in already || n in IdsOf(rows[..i], counted, id)
      invariant count == |countedIds|
    {
      var row := rows[i];
      assert rows[..i + 1] == rows[..i] + [row];
      IdsOfSnoc(rows[..i], row, counted, id);
      i := i + 1;
      if !counted(row) || id(row) in countedIds {
        continue;
      }
      countedIds := countedIds + {id(row)};
      count := count + 1;
    }
    assert rows[..i] == rows;
  }

  /** Counts each order once, whatever the order or repetition of the rows. */
  method CountTableAttentionAcrossSources(activityLogRows: seq<LogEntry>, serviceRows: seq<CallEntry>) returns (count: nat)
    ensures count == |NeedyOrders(activityLogRows) + ServiceCalls(serviceRows)|
  {
    var countedIds;
    countedIds, count := CountOnce({}, activityLogRows, CountsForBadge, (r: LogEntry) => r.id);
    countedIds, count := CountOnce(countedIds, serviceRows, IsCountedCall, (c: CallEntry) => c.id);
    assert countedIds == NeedyOrders(activityLogRows) + ServiceCalls(serviceRows);
  }

  predicate IsTableCall(c: CallEntry)
  {
    !c.delivery
  }

  function TableCalls(calls: seq<CallEntry>): seq<CallEntry>
  {
    Filter(calls, IsTableCall)
  }

  function CountCalls(calls: seq<CallEntry>): nat
  {
    |Filter(calls, CallNeedsAttention)|
  }

  /** The orders and requests the badge is for, over the whole upstream. */
  function OnTheBadge(upstream: seq<LogEntry>, calls: seq<CallEntry>): set<nat>
  {
    (set r | r in upstream && !r.delivery && NeedsAttention(LogFlags(r)) && r.id > 0 :: r.id)
    + (set c | c in calls && !c.delivery && IsMergeable(c) && c.id > 0 :: c.id)
  }

  /**
   The badge: when the upstream is served honestly and fits the scan, the number of orders and requests
   that need attention; when the menu is closed to the caller, the pending calls that do.
   */
  method ResolveTableAttentionPendingCount(menuId: nat, answers: nat -> Answer<LogEntry>, calls: seq<CallEntry>,
                                           ghost upstream: seq<LogEntry>) returns (count: nat)
    ensures menuId == 0 ==> count == 0
    ensures menuId > 0 && Honest(answers, upstream, SCAN_LIMIT) ==>
      count == |OnTheBadge(upstream[..Min(|upstream|, 500)], calls)|
    ensures menuId > 0 && Honest(answers, upstream, SCAN_LIMIT) && |upstream| <= 500 ==>
      count == |OnTheBadge(upstream, calls)|
    ensures menuId > 0 && answers(1) == Soft404 ==> count == CountCalls(TableCalls(calls))
  {
    if menuId == 0 {
      return 0;
    }
    var scan, _ := FetchAllTableActivityLogRowsForAttention(answers, upstream);
    if scan.soft404 {
      count := CountCalls(TableCalls(calls));
      if Honest(answers, upstream, SCAN_LIMIT) {
        assert false;
      }
      return;
    }
    var service := Filter(TableCalls(calls), IsMergeable);
    count := CountTableAttentionAcrossSources(scan.rows, service);
    if Honest(answers, upstream, SCAN_LIMIT) {
      BadgeIsUnion(upstream[..Min(|upstream|, MAX_SCAN_ROWS)], calls);
      assert upstream[..|upstream|] == upstream;
    }
  }

  lemma BadgeIsUnion(upstream: seq<LogEntry>, calls: seq<CallEntry>)
    ensures NeedyOrders(TableRows(upstream)) + ServiceCalls(Filter(TableCalls(calls), IsMergeable)) == OnTheBadge(upstream, calls)
  {
    FilterExactly(upstream, IsTableRow);
    FilterExactly(calls, IsTableCall);
    FilterExactly(TableCalls(calls), IsMergeable);
  }
}
