/** The archive over both channels (`listUnifiedArchiveOrders`, `collectDateScopedHistoryForChannel`). */
module UnifiedArchive {
  import opened EntryLists
  import opened Numbers
  import opened OrderActions
  import opened OrderStatus
  import opened Presenter
  import opened Sequences
  import opened TerminalAt
  import opened UpstreamPaging
  import opened Wrappers

  const SCAN_LIMIT: nat := 100
  const MAX_SCAN_PAGES: nat := 50

  /** An upstream row as it comes out of presenting, hydrating and enriching; None when it is not presentable. */
  type Row = Option<Entry>

  function ClosedOrder(row: Row): seq<Entry>
  {
    if row.Some? && IsHistory(row.value.status) then [row.value] else []
  }

  /** The presentable closed orders among the rows. */
  function Closed(rows: seq<Row>): seq<Entry>
  {
    FlatMap(rows, ClosedOrder)
  }

  /** The fixed list `rows` is served honestly, except for pages the upstream refuses. */
  ghost predicate HonestUnlessRefused(answers: nat -> Answer<Row>, rows: seq<Row>)
  {
    forall p: nat :: p >= 1 ==> !answers(p).Page? || answers(p) == HonestAnswer(rows, p, SCAN_LIMIT)
  }

  /** The pages a channel's list takes; an empty list still takes one. */
  function PagesNeeded(rows: seq<Row>): nat
  {
    if rows == [] then 1 else PagesIn(|rows|, SCAN_LIMIT)
  }

  /** The collector can get through the list: few enough pages, none refused. */
  ghost predicate Collectable(answers: nat -> Answer<Row>, rows: seq<Row>)
  {
    PagesNeeded(rows) <= MAX_SCAN_PAGES && forall p: nat :: 1 <= p <= PagesNeeded(rows) ==> answers(p).Page?
  }

  datatype Collected = Collected(entries: seq<Entry>, truncated: bool)

  lemma RowsOfPage(rows: seq<Row>, page: nat)
    requires page >= 1 && (page - 1) * SCAN_LIMIT <= |rows|
    ensures var got := HonestAnswer(rows, page, SCAN_LIMIT).rows;
      && Closed(rows[..Min(page * SCAN_LIMIT, |rows|)]) == Closed(rows[..(page - 1) * SCAN_LIMIT]) + Closed(got)
      && (got == [] ==> (page - 1) * SCAN_LIMIT == |rows|)
  {
    HonestPage(rows, page, SCAN_LIMIT, (page - 1) * SCAN_LIMIT);
    FlatMapConcat(rows[..(page - 1) * SCAN_LIMIT], HonestAnswer(rows, page, SCAN_LIMIT).rows, ClosedOrder);
  }

  /** The rows' closed orders are exactly those delivered or cancelled ... */
  lemma ClosedExactly(rows: seq<Row>, e: Entry)
    ensures e in Closed(rows) <==> Some(e) in rows && (e.status == Delivered || e.status == Cancelled)
  {
    FlatMapExactly(rows, ClosedOrder);
    if Some(e) in rows && IsHistory(e.status) {
      assert e in ClosedOrder(Some(e));
    }
  }

  /** Where row `i`'s order comes in the list of closed orders, if it is one. */
  function RankOf(rows: seq<Row>, i: nat): nat
    requires i <= |rows|
  {
    if i == 0 then 0
    else RankOf(rows, i - 1)
         + (if rows[i - 1].Some? && (rows[i - 1].value.status == Delivered || rows[i - 1].value.status == Cancelled) then 1 else 0)
  }

  /** ... in the order of their rows, one for each row. */
  lemma {:induction false} ClosedInRowOrder(rows: seq<Row>, i: nat)
    requires i <= |rows|
    ensures |Closed(rows[..i])| == RankOf(rows, i) && Closed(rows[..i]) <= Closed(rows)
    ensures i < |rows| && rows[i].Some? && (rows[i].value.status == Delivered || rows[i].value.status == Cancelled) ==>
      RankOf(rows, i) < |Closed(rows)| && Closed(rows)[RankOf(rows, i)] == rows[i].value
  {
    assert rows == rows[..i] + rows[i..];
    FlatMapConcat(rows[..i], rows[i..], ClosedOrder);
    if i > 0 {
      ClosedInRowOrder(rows, i - 1);
      assert rows[..i] == rows[..i - 1] + [rows[i - 1]];
      FlatMapConcat(rows[..i - 1], [rows[i - 1]], ClosedOrder);
      assert FlatMap([rows[i - 1]], ClosedOrder) == ClosedOrder(rows[i - 1]) + FlatMap([rows[i - 1]][1..], ClosedOrder);
    }
  }

  /** Either the channel's closed orders, all of them, or the admission that they were not all read. */
  method CollectDateScopedHistoryForChannel(answers: nat -> Answer<Row>, ghost rows: seq<Row>) returns (r: Collected)
    ensures HonestUnlessRefused(answers, rows) ==>
      && (r.truncated <==> !Collectable(answers, rows))
      && (!r.truncated ==> r.entries == Closed(rows))
    ensures HonestUnlessRefused(answers, rows) ==>
      && (r.truncated <==> |rows| > 5000 || exists p: nat :: 1 <= p <= PagesNeeded(rows) && !answers(p).Page?)
      && (!r.truncated ==> forall e :: e in r.entries <==> Some(e) in rows && (e.status == Delivered || e.status == Cancelled))
  {
    forall e { ClosedExactly(rows, e); }
    var matched: seq<Entry> := [];
    var page: nat := 1;
    ghost var honest := HonestUnlessRefused(answers, rows);
    while page <= MAX_SCAN_PAGES
      invariant 1 <= page <= MAX_SCAN_PAGES + 1
      invariant honest ==> page <= PagesNeeded(rows)
      invariant forall p: nat :: 1 <= p < page ==> answers(p).Page?
      invariant honest ==> (page - 1) * SCAN_LIMIT <= |rows|
      invariant honest ==> matched == Closed(rows[..(page - 1) * SCAN_LIMIT])
    {
      var answer := answers(page);
      if !answer.Page? {
        break;
      }
      if honest {
        RowsOfPage(rows, page);
        PageIsLast(|rows|, page, SCAN_LIMIT);
        assert rows[..|rows|] == rows;
      }
      if |answer.rows| == 0 {
        return Collected(matched, false);
      }
      matched := matched + Closed(answer.rows);
      var totalPages := if answer.totalPages == 0 then 1 else answer.totalPages;
      if page >= totalPages {
        return Collected(matched, false);
      }
      page := page + 1;
    }
    return Collected(matched, true);
  }

  // ------------------------------------------------------------- both channels

  /** Newest close first, then greatest id. */
  function ArchiveKey(): Entry -> Key
  {
    (e: Entry) => Key(-TerminalAtSortMs(TimingOf(e)), -(e.staffCallId as int))
  }

  /** What each channel's upstream holds. */
  datatype Upstream = Upstream(table: seq<Row>, delivery: seq<Row>)

  /** The closed orders of the channels the caller may see, table first. */
  function Permitted(u: Upstream, auth: Auth): seq<Entry>
  {
    (if OrdersView in auth then Closed(u.table) else []) + (if DeliveryView in auth then Closed(u.delivery) else [])
  }

  function Archive(u: Upstream, auth: Auth): seq<Entry>
  {
    SortBy(Dedupe(Identified(Permitted(u, auth))), ArchiveKey())
  }

  datatype ArchiveResult =
    | MenuNotFound
    | RangeTooLong
    | TooLarge
    | Listed(entries: seq<Entry>, total: nat, totalPages: nat)

  ghost predicate BothHonest(tableAnswers: nat -> Answer<Row>, deliveryAnswers: nat -> Answer<Row>, u: Upstream)
  {
    HonestUnlessRefused(tableAnswers, u.table) && HonestUnlessRefused(deliveryAnswers, u.delivery)
  }

  /** Every channel the caller may see can be read to the end. */
  ghost predicate AllCollectable(tableAnswers: nat -> Answer<Row>, deliveryAnswers: nat -> Answer<Row>, u: Upstream, auth: Auth)
  {
    && (OrdersView in auth ==> Collectable(tableAnswers, u.table))
    && (DeliveryView in auth ==> Collectable(deliveryAnswers, u.delivery))
  }

  /** The loop over the caller's channels, which gives up at the first one it cannot read to the end. */
  method CollectPermitted(auth: Auth, tableAnswers: nat -> Answer<Row>, deliveryAnswers: nat -> Answer<Row>, ghost u: Upstream)
      returns (r: Collected)
    ensures BothHonest(tableAnswers, deliveryAnswers, u) ==>
      && (r.truncated <==> !AllCollectable(tableAnswers, deliveryAnswers, u, auth))
      && (!r.truncated ==> r.entries == Permitted(u, auth))
  {
    var collected: seq<Entry> := [];
    if OrdersView in auth {
      var channel := CollectDateScopedHistoryForChannel(tableAnswers, u.table);
      if channel.truncated {
        return channel;
      }
      collected := collected + channel.entries;
    }
    if DeliveryView in auth {
      var channel := CollectDateScopedHistoryForChannel(deliveryAnswers, u.delivery);
      if channel.truncated {
        return channel;
      }
      collected := collected + channel.entries;
    }
    return Collected(collected, false);
  }

  /** The same orders, in the same order, with nothing to be done to them. */
  predicate SameOrders(listed: seq<Entry>, orders: seq<Entry>)
  {
    && |listed| == |orders|
    && forall i :: 0 <= i < |listed| ==>
         listed[i] == orders[i].(availableActions := [], canEditItems := false)
  }

  /** A page of the archive, with its orders' number and the number of its pages. */
  function ArchivePage(archive: seq<Entry>, page: nat, limit: nat): ArchiveResult
    requires page >= 1 && limit >= 1
  {
    Listed(ApplyListScopeToEntries(PageOf(archive, page, limit), HistoryScope), |archive|, PagesIn(|archive|, limit))
  }

  method ListUnifiedArchiveOrders(menuId: nat, auth: Auth, rangeAllowed: bool, page: nat, limit: nat,
                                  tableAnswers: nat -> Answer<Row>, deliveryAnswers: nat -> Answer<Row>, ghost u: Upstream)
      returns (r: ArchiveResult)
    requires page >= 1 && limit >= 1
    ensures menuId == 0 ==> r == MenuNotFound
    ensures menuId > 0 && !rangeAllowed ==> r == RangeTooLong
    ensures menuId > 0 && rangeAllowed && BothHonest(tableAnswers, deliveryAnswers, u) ==>
      r == if AllCollectable(tableAnswers, deliveryAnswers, u, auth)
           then ArchivePage(Archive(u, auth), page, limit)
           else TooLarge
    ensures r.Listed? && BothHonest(tableAnswers, deliveryAnswers, u) ==>
      && r.total == |Archive(u, auth)| && r.totalPages == PagesIn(|Archive(u, auth)|, limit)
      && SameOrders(r.entries, PageOf(Archive(u, auth), page, limit))
  {
    if menuId == 0 {
      return MenuNotFound;
    }
    if !rangeAllowed {
      return RangeTooLong;
    }
    if OrdersView !in auth && DeliveryView !in auth {
      NothingToSee(u, auth, page, limit);
      return Listed([], 0, 0);
    }
    var collected := CollectPermitted(auth, tableAnswers, deliveryAnswers, u);
    if collected.truncated {
      return TooLarge;
    }
    var deduped := DedupeIdentified(collected.entries);
    var sorted := SortBy(deduped, ArchiveKey());
    var total := |sorted|;
    var totalPages := if total > 0 then PagesIn(total, limit) else 0;
    var slice := PageOf(sorted, page, limit);
    NoPages(limit);
    r := Listed(ApplyListScopeToEntries(slice, HistoryScope), total, totalPages);
  }

  lemma NoPages(limit: nat)
    requires limit >= 1
    ensures PagesIn(0, limit) == 0
  {
  }

  lemma NothingToSee(u: Upstream, auth: Auth, page: nat, limit: nat)
    requires page >= 1 && limit >= 1 && OrdersView !in auth && DeliveryView !in auth
    ensures ArchivePage(Archive(u, auth), page, limit) == Listed([], 0, 0)
  {
    NoPages(limit);
    assert Permitted(u, auth) == [];
    assert Archive(u, auth) == [];
    assert PageOf([], page, limit) == [];
    assert ApplyListScopeToEntries([], HistoryScope) == [];
  }

  // ------------------------------------------------------------ main results

  /** Strictly newest first: at equal close times, by id. */
  ghost predicate StrictlyDescending(s: seq<Entry>)
  {
    forall i, j :: 0 <= i < j < |s| ==>
      var a, b := TerminalAtSortMs(TimingOf(s[i])), TerminalAtSortMs(TimingOf(s[j]));
      a > b || (a == b && s[i].staffCallId > s[j].staffCallId)
  }

  /**
   Complete or explicit.  Whether a request is refused as too large does not depend on the page asked
   for; and when it is not, the pages 1 to totalPages, one after the other, are the archive: every
   closed order of the permitted channels exactly once, strictly newest first, `total` of them.
   */
  lemma PagesAreTheArchive(u: Upstream, auth: Auth, limit: nat)
    requires limit >= 1
    ensures var a := Archive(u, auth);
      && FirstPages(a, PagesIn(|a|, limit), limit) == a
      && DistinctIds(a) && StrictlyDescending(a)
      && Ids(a) == Ids(Identified(Permitted(u, auth))) && |a| == |Ids(a)|
      && forall e :: e in a ==> IsFirst(Identified(Permitted(u, auth)), e)
  {
    var all := Identified(Permitted(u, auth));
    var d := Dedupe(all);
    var a := Archive(u, auth);
    DedupeKeepsIds(all);
    SortKeepsDistinct(d, ArchiveKey());
    SortIsStableSort(d, ArchiveKey());
    PagesAreTheList(a, limit);
    DistinctIdsCount(a);
    forall e | e in a ensures IsFirst(all, e) {
      assert e in multiset(a);
      DedupeKeepsFirsts(all, e);
    }
    SortedDistinctDescends(a);
  }

  lemma SortedDistinctDescends(a: seq<Entry>)
    requires SortedBy(a, ArchiveKey()) && DistinctIds(a)
    ensures StrictlyDescending(a)
  {
    forall i, j | 0 <= i < j < |a|
      ensures var s, t := TerminalAtSortMs(TimingOf(a[i])), TerminalAtSortMs(TimingOf(a[j]));
        s > t || (s == t && a[i].staffCallId > a[j].staffCallId)
    {
      assert !Before(ArchiveKey()(a[j]), ArchiveKey()(a[i]));
    }
  }

  /** The order is in a row of a channel the caller may see. */
  predicate Visible(u: Upstream, auth: Auth, e: Entry)
  {
    (OrdersView in auth && Some(e) in u.table) || (DeliveryView in auth && Some(e) in u.delivery)
  }

  /** Nothing is listed but delivered and cancelled orders with an id, of a channel the caller may see ... */
  lemma OnlyClosedOrdersAreListed(u: Upstream, auth: Auth, e: Entry)
    requires e in Archive(u, auth)
    ensures Visible(u, auth, e) && e.staffCallId > 0 && (e.status == Delivered || e.status == Cancelled)
  {
    var all := Identified(Permitted(u, auth));
    PagesAreTheArchive(u, auth, 1);
    var k :| IsFirstAt(all, e, k);
    assert e in all;
    FilterExactly(Permitted(u, auth), HasId);
    ClosedExactly(u.table, e);
    ClosedExactly(u.delivery, e);
  }

  /** ... an order in both channels as its table row shows it ... */
  lemma TableRowIsListed(u: Upstream, auth: Auth, e: Entry, f: Entry)
    requires e in Archive(u, auth) && OrdersView in auth
    requires Some(f) in u.table && (f.status == Delivered || f.status == Cancelled) && f.staffCallId == e.staffCallId
    ensures Some(e) in u.table
  {
    var t, d := Closed(u.table), if DeliveryView in auth then Closed(u.delivery) else [];
    var all := Identified(Permitted(u, auth));
    OnlyClosedOrdersAreListed(u, auth, e);
    PagesAreTheArchive(u, auth, 1);
    FilterConcat(t, d, HasId);
    ClosedExactly(u.table, f);
    FilterExactly(t, HasId);
    assert f in Identified(t);
    var k :| IsFirstAt(all, e, k);
    var j :| 0 <= j < |Identified(t)| && Identified(t)[j] == f;
    assert all[j] == f;
    assert k <= j;
    assert all[k] == Identified(t)[k];
    ClosedExactly(u.table, e);
  }

  /** ... and of these every one: the ids listed are exactly theirs. */
  lemma ArchiveIdsExactly(u: Upstream, auth: Auth, id: nat)
    ensures id in Ids(Archive(u, auth)) <==>
      id > 0 && exists e :: Visible(u, auth, e) && e.staffCallId == id && (e.status == Delivered || e.status == Cancelled)
  {
    if id in Ids(Archive(u, auth)) {
      var e :| e in Archive(u, auth) && e.staffCallId == id;
      OnlyClosedOrdersAreListed(u, auth, e);
    }
    if e :| id > 0 && Visible(u, auth, e) && e.staffCallId == id && (e.status == Delivered || e.status == Cancelled) {
      EveryClosedOrderIsListed(u, auth, e);
    }
  }

  /** Each presentable closed order with an id, of a channel the caller may see, is in the archive by its id. */
  lemma EveryClosedOrderIsListed(u: Upstream, auth: Auth, e: Entry)
    requires IsHistory(e.status) && e.staffCallId > 0
    requires (OrdersView in auth && Some(e) in u.table) || (DeliveryView in auth && Some(e) in u.delivery)
    ensures e.staffCallId in Ids(Archive(u, auth))
  {
    FlatMapExactly(u.table, ClosedOrder);
    FlatMapExactly(u.delivery, ClosedOrder);
    assert e in ClosedOrder(Some(e));
    assert e in Permitted(u, auth);
    FilterExactly(Permitted(u, auth), HasId);
    PagesAreTheArchive(u, auth, 1);
    assert e in Identified(Permitted(u, auth));
  }
}
