/** The table history list, scanned page by page until it has enough (`listTableHistory`, `buildTableHistoryListResult`). */
module HistoryScan {
  import opened ActionDetails
  import opened EntryLists
  import opened Numbers
  import opened OrderActions
  import opened OrderStatus
  import opened Presenter
  import opened Sequences
  import opened TerminalAt
  import opened UpstreamPaging
  import opened Wrappers

  const SCAN_LIMIT: nat := 50
  const MAX_SCAN_ROWS: nat := 500

  /** Calendar days, inclusive; `dayOf` maps a time to its day in the venue's calendar. */
  datatype DateRange = DateRange(dateFrom: int, dateTo: int)

  predicate InRange(e: Entry, range: DateRange, dayOf: int -> int)
  {
    e.createdAt.Some? && range.dateFrom <= dayOf(e.createdAt.value) <= range.dateTo
  }

  /** What a request is for: who asks, at what instant, for which days. */
  datatype Ask = Ask(auth: Auth, now: int, range: DateRange, dayOf: int -> int)

  /** A row presented: delivery rows and rows without an id give nothing. */
  function PresentRow(auth: Auth): Raw -> seq<Entry>
  {
    (row: Raw) =>
      if row.channel == Delivery then []
      else match PresentTableCallRow(row, auth) case None => [] case Some(e) => [e]
  }

  function Presented(rows: seq<Raw>, auth: Auth): seq<Entry>
  {
    FlatMap(rows, PresentRow(auth))
  }

  function DateTest(range: DateRange, dayOf: int -> int): Entry -> bool
  {
    (e: Entry) => InRange(e, range, dayOf)
  }

  function FilterByDateRange(entries: seq<Entry>, range: DateRange, dayOf: int -> int): seq<Entry>
  {
    Filter(entries, DateTest(range, dayOf))
  }

  /** One page's contribution; over the whole list, the plain filter the scan stands for. */
  function Shown(rows: seq<Raw>, ask: Ask): seq<Entry>
  {
    FilterByDateRange(FilterByScope(Presented(rows, ask.auth), HistoryScope, ask.now), ask.range, ask.dayOf)
  }

  /** Filtering page by page is filtering the whole. */
  lemma ShownConcat(a: seq<Raw>, b: seq<Raw>, ask: Ask)
    ensures Shown(a + b, ask) == Shown(a, ask) + Shown(b, ask)
  {
    FlatMapConcat(a, b, PresentRow(ask.auth));
    FilterConcat(Presented(a, ask.auth), Presented(b, ask.auth), ScopeTest(HistoryScope, ask.now));
    FilterConcat(FilterByScope(Presented(a, ask.auth), HistoryScope, ask.now),
                 FilterByScope(Presented(b, ask.auth), HistoryScope, ask.now), DateTest(ask.range, ask.dayOf));
  }

  /** Everything the history could show: the filter applied to the first 500 upstream rows. */
  function WholeHistory(upstream: seq<Raw>, ask: Ask): seq<Entry>
  {
    Shown(upstream[..Min(|upstream|, MAX_SCAN_ROWS)], ask)
  }

  /** What row `row` shows as, if it is of an order that was closed at least 24 hours ago, on a day asked for. */
  predicate ShowsAs(row: Raw, ask: Ask, e: Entry)
  {
    var closed := ResolveTerminalAt(TimingOf(e));
    && row.channel == Table && row.staffCallId > 0 && PresentTableCallRow(row, ask.auth) == Some(e)
    && (e.status == Delivered || e.status == Cancelled)
    && (closed.None? || ask.now >= closed.value + 86_400_000)
    && e.createdAt.Some? && ask.range.dateFrom <= ask.dayOf(e.createdAt.value) <= ask.range.dateTo
  }

  /** Each row shows as that or not at all ... */
  lemma RowShows(row: Raw, ask: Ask, e: Entry)
    ensures e in Shown([row], ask) <==> ShowsAs(row, ask, e)
  {
    var p := PresentRow(ask.auth)(row);
    FlatMapOne(row, PresentRow(ask.auth));
    if |p| == 1 {
      assert p == [p[0]];
      ArchivedExactly(TimingOf(p[0]), ask.now);
      FilterOne(p[0], ScopeTest(HistoryScope, ask.now));
      FilterOne(p[0], DateTest(ask.range, ask.dayOf));
    }
  }

  lemma {:induction false} ShownExactly(rows: seq<Raw>, ask: Ask, e: Entry)
    ensures e in Shown(rows, ask) <==> exists row :: row in rows && ShowsAs(row, ask, e)
  {
    if rows != [] {
      var before, last := rows[..|rows| - 1], rows[|rows| - 1];
      ShownExactly(before, ask, e);
      RowShows(last, ask, e);
      assert rows == before + [last];
      assert e in Shown(rows, ask) <==> e in Shown(before, ask) || e in Shown([last], ask) by {
        ShownConcat(before, [last], ask);
      }
    }
  }

  /** ... so the history shows exactly the orders of the first 500 rows that show. */
  lemma WholeHistoryExactly(upstream: seq<Raw>, ask: Ask, e: Entry)
    ensures e in WholeHistory(upstream, ask) <==>
      exists i :: 0 <= i < |upstream| && i < 500 && ShowsAs(upstream[i], ask, e)
  {
    var rows := upstream[..Min(|upstream|, MAX_SCAN_ROWS)];
    ShownExactly(rows, ask, e);
    if row :| row in rows && ShowsAs(row, ask, e) {
      var i :| 0 <= i < |rows| && rows[i] == row;
      assert ShowsAs(upstream[i], ask, e);
    }
    if i :| 0 <= i < |upstream| && i < 500 && ShowsAs(upstream[i], ask, e) {
      assert rows[i] == upstream[i] && rows[i] in rows;
    }
  }

  /** No order twice, each by its first entry; `total` is the number of orders; page and limit brought into range. */
  ghost predicate IsBuiltFrom(r: Paged, entries: seq<Entry>, page: int, limit: int)
  {
    && DistinctIds(r.entries) && (forall e :: e in r.entries ==> IsFirst(entries, e))
    && r.total == |Ids(entries)| && (r.totalPages == 0 <==> entries == [])
    && |r.entries| <= r.limit <= 100
    && r.page == (if page < 1 then 1 else page)
    && r.limit == (if limit < 1 then 1 else if limit > 100 then 100 else limit)
  }

  /** `buildTableHistoryListResult`: no order twice, each by its first entry, and `total` is the number of orders. */
  method BuildTableHistoryListResult(entries: seq<Entry>, page: int, limit: int) returns (r: Paged)
    ensures r == PaginatePresentedEntries(Dedupe(entries), page, limit)
    ensures IsBuiltFrom(r, entries, page, limit)
  {
    PageOfDeduped(entries, if page < 1 then 1 else page, Clamp(limit, 1, 100));
    var unique := DedupeEntriesByStaffCallId(entries);
    r := PaginatePresentedEntries(unique, page, limit);
  }

  lemma DedupedCount(entries: seq<Entry>)
    ensures |Dedupe(entries)| == |Ids(entries)|
  {
    DedupeKeepsIds(entries);
    DistinctIdsCount(Dedupe(entries));
  }

  lemma PageOfDeduped(entries: seq<Entry>, page: nat, limit: nat)
    requires page >= 1 && limit >= 1
    ensures var p := PageOf(Dedupe(entries), page, limit);
      DistinctIds(p) && |p| <= limit && forall e :: e in p ==> IsFirst(entries, e)
    ensures |Dedupe(entries)| == |Ids(entries)|
    ensures |Dedupe(entries)| > 0 ==> PagesIn(|Dedupe(entries)|, limit) > 0
    ensures Dedupe(entries) == [] <==> entries == []
  {
    var d := Dedupe(entries);
    DedupeKeepsIds(entries);
    DistinctIdsCount(d);
    forall e | e in PageOf(d, page, limit) ensures IsFirst(entries, e) {
      DedupeKeepsFirsts(entries, e);
    }
    PagesAreAPrefix(d, PagesIn(|d|, limit), limit);
    if |d| > 0 {
      PageIsLast(|d|, 0, limit);
    }
    if entries != [] {
      assert entries[0].staffCallId in Ids(entries);
    }
  }

  /** What a page's rows contribute, as a function of the rows. */
  type Contribution = seq<Raw> -> seq<Entry>

  function Showing(ask: Ask): Contribution
  {
    rows => Shown(rows, ask)
  }

  /** Contributions add up page by page. */
  ghost predicate Additive(show: Contribution)
  {
    show([]) == [] && forall a, b :: show(a + b) == show(a) + show(b)
  }

  lemma ShowingIsAdditive(ask: Ask)
    ensures Additive(Showing(ask))
  {
    forall a, b ensures Showing(ask)(a + b) == Showing(ask)(a) + Showing(ask)(b) {
      ShownConcat(a, b, ask);
    }
  }

  /** The scan has seen `scanned` rows of the upstream, and needs no more of them. */
  ghost predicate ScannedEnough(upstream: seq<Raw>, show: Contribution, needed: nat, scanned: nat, collected: seq<Entry>)
  {
    && scanned <= Min(|upstream|, MAX_SCAN_ROWS)
    && collected == show(upstream[..scanned])
    && (|collected| >= needed || scanned == Min(|upstream|, MAX_SCAN_ROWS))
  }

  /** How many rows the scan reads, going on from `scanned`: whole pages, until enough is shown or the cap is reached. */
  ghost function StopsAt(upstream: seq<Raw>, show: Contribution, needed: nat, scanned: nat): (n: nat)
    requires scanned <= Min(|upstream|, MAX_SCAN_ROWS)
    ensures scanned <= n <= Min(|upstream|, MAX_SCAN_ROWS)
    decreases Min(|upstream|, MAX_SCAN_ROWS) - scanned
  {
    var cap := Min(|upstream|, MAX_SCAN_ROWS);
    if |show(upstream[..scanned])| >= needed || scanned == cap then scanned
    else StopsAt(upstream, show, needed, Min(scanned + SCAN_LIMIT, cap))
  }

  /** The loop: pages are fetched until there is enough, none is left, or 500 rows were scanned. */
  method ScanHistory(answers: nat -> Answer<Raw>, needed: nat, show: Contribution, ghost upstream: seq<Raw>)
      returns (result: Option<seq<Entry>>, ghost scanned: nat)
    requires Additive(show)
    ensures Honest(answers, upstream, SCAN_LIMIT) ==>
      result.Some? && ScannedEnough(upstream, show, needed, scanned, result.value)
      && scanned == StopsAt(upstream, show, needed, 0)
    ensures needed > 0 && !answers(1).Page? ==> result == None
  {
    var upstreamPage: nat := 1;
    var scannedRows := 0;
    var collected: seq<Entry> := [];
    ghost var honest := Honest(answers, upstream, SCAN_LIMIT);
    assert upstream[..0] == [];
    while |collected| < needed && scannedRows < MAX_SCAN_ROWS
      invariant upstreamPage > 1 ==> answers(1).Page?
      invariant upstreamPage == 1 ==> scannedRows == 0 && collected == []
      invariant honest ==> scannedRows == (upstreamPage - 1) * SCAN_LIMIT <= |upstream| && scannedRows <= MAX_SCAN_ROWS
      invariant honest ==> collected == show(upstream[..scannedRows])
      invariant honest ==> StopsAt(upstream, show, needed, scannedRows) == StopsAt(upstream, show, needed, 0)
      decreases MAX_SCAN_ROWS - scannedRows
    {
      if honest {
        HonestPage(upstream, upstreamPage, SCAN_LIMIT, scannedRows);
      }
      var answer := answers(upstreamPage);
      if !answer.Page? {
        return None, 0;
      }
      var rows := answer.rows;
      if |rows| == 0 {
        break;
      }
      assert honest ==> show(upstream[..scannedRows] + rows) == show(upstream[..scannedRows]) + show(rows);
      scannedRows := scannedRows + |rows|;
      collected := collected + show(rows);
      if upstreamPage >= answer.totalPages && |rows| < SCAN_LIMIT {
        break;
      }
      upstreamPage := upstreamPage + 1;
    }
    return Some(collected), scannedRows;
  }

  /** What the scan shows, having stopped when it had enough for the page. */
  ghost function ScannedHistory(upstream: seq<Raw>, ask: Ask, needed: nat): seq<Entry>
  {
    Shown(upstream[..StopsAt(upstream, Showing(ask), needed, 0)], ask)
  }

  /** One entry an order, with nothing to be done to it. */
  function Deduped(shown: seq<Entry>): seq<Entry>
  {
    Dedupe(ApplyListScopeToEntries(shown, HistoryScope))
  }

  function HistoryPage(shown: seq<Entry>, page: nat, limit: nat): seq<Entry>
    requires page >= 1
  {
    PageOf(Deduped(shown), page, limit)
  }

  /** The scan, with what its rows show. */
  method CollectHistory(answers: nat -> Answer<Raw>, needed: nat, ask: Ask, ghost upstream: seq<Raw>)
      returns (collected: Option<seq<Entry>>)
    ensures Honest(answers, upstream, SCAN_LIMIT) ==> collected == Some(ScannedHistory(upstream, ask, needed))
    ensures needed > 0 && !answers(1).Page? ==> collected == None
  {
    ShowingIsAdditive(ask);
    ghost var scanned;
    collected, scanned := ScanHistory(answers, needed, Showing(ask), upstream);
  }

  /** What the scan answers: what it scanned, paged; a prefix of that page of the whole, and for distinct ids that page. */
  ghost predicate IsScannedPage(r: Paged, upstream: seq<Raw>, ask: Ask, page: nat, limit: nat)
    requires page >= 1
  {
    && r.page == page && r.limit == limit
    && r.entries == HistoryPage(ScannedHistory(upstream, ask, page * limit), page, limit)
    && r.entries <= HistoryPage(WholeHistory(upstream, ask), page, limit)
    && (DistinctRows(upstream) ==>
          r.entries == PageOf(ApplyListScopeToEntries(WholeHistory(upstream, ask), HistoryScope), page, limit))
  }

  /**
   Page `page` of the scan is always a prefix of that page of the whole history, though the scan may have
   stopped early; for distinct upstream ids it is that page.
   */
  method ListTableHistory(answers: nat -> Answer<Raw>, page: nat, limit: nat, ask: Ask, ghost upstream: seq<Raw>)
      returns (result: Option<Paged>)
    requires page >= 1 && 1 <= limit <= 100
    ensures Honest(answers, upstream, SCAN_LIMIT) ==>
      result.Some? && IsScannedPage(result.value, upstream, ask, page, limit)
    ensures !answers(1).Page? ==> result == None
  {
    var needed := page * limit;
    var collected := CollectHistory(answers, needed, ask, upstream);
    if collected == None {
      return None;
    }
    var r := BuildTableHistoryListResult(ApplyListScopeToEntries(collected.value, HistoryScope), page, limit);
    if Honest(answers, upstream, SCAN_LIMIT) {
      ScannedPage(upstream, ask, page, limit, collected.value, r);
    }
    return Some(r);
  }

  lemma ScannedPage(upstream: seq<Raw>, ask: Ask, page: nat, limit: nat, collected: seq<Entry>, r: Paged)
    requires page >= 1 && 1 <= limit <= 100
    requires collected == ScannedHistory(upstream, ask, page * limit)
    requires r == PaginatePresentedEntries(Dedupe(ApplyListScopeToEntries(collected, HistoryScope)), page, limit)
    ensures IsScannedPage(r, upstream, ask, page, limit)
  {
    PageIsWholeExactly(upstream, ask, page, limit);
    if DistinctRows(upstream) {
      DistinctRowsPage(upstream, ask, page, limit);
    }
  }

  /** Marking entries as archived changes no id. */
  lemma ScopedIds(s: seq<Entry>)
    ensures Ids(ApplyListScopeToEntries(s, HistoryScope)) == Ids(s)
  {
    var t := ApplyListScopeToEntries(s, HistoryScope);
    forall id: nat ensures id in Ids(t) <==> id in Ids(s) {
      if id in Ids(s) {
        var e :| e in s && e.staffCallId == id;
        var i :| 0 <= i < |s| && s[i] == e;
        assert t[i] in t && t[i].staffCallId == id;
      }
      if id in Ids(t) {
        var e :| e in t && e.staffCallId == id;
        var i :| 0 <= i < |t| && t[i] == e;
        assert s[i] in s && s[i].staffCallId == id;
      }
    }
  }

  lemma DedupedPrefix(scanned: seq<Entry>, whole: seq<Entry>)
    requires scanned <= whole
    ensures Deduped(scanned) <= Deduped(whole)
    ensures |Deduped(scanned)| == |Ids(scanned)| && |Deduped(whole)| == |Ids(whole)|
  {
    var s, t := ApplyListScopeToEntries(scanned, HistoryScope), ApplyListScopeToEntries(whole, HistoryScope);
    assert t == s + t[|s|..];
    DedupePrefix(s, t[|s|..]);
    ScopedIds(scanned);
    ScopedIds(whole);
    DedupedCount(s);
    DedupedCount(t);
  }

  lemma PrefixPage(d: seq<Entry>, e: seq<Entry>, page: nat, limit: nat)
    requires d <= e && page >= 1 && limit >= 1
    ensures PageOf(d, page, limit) <= PageOf(e, page, limit)
    ensures PageOf(d, page, limit) == PageOf(e, page, limit) <==>
      |d| >= page * limit || |d| == |e| || |e| <= (page - 1) * limit
  {
    var from := (page - 1) * limit;
    assert page * limit == from + limit;
    PrefixSlice(d, e, from, limit);
  }

  lemma PrefixSlice(d: seq<Entry>, e: seq<Entry>, from: nat, limit: nat)
    requires d <= e && limit >= 1
    ensures Slice(d, from, from + limit) <= Slice(e, from, from + limit)
    ensures Slice(d, from, from + limit) == Slice(e, from, from + limit) <==> |d| >= from + limit || |d| == |e| || |e| <= from
  {
  }

  /** Of a longer list the page is at least as long, and the same exactly when no id is wanting for it. */
  lemma PageOfScanned(scanned: seq<Entry>, whole: seq<Entry>, page: nat, limit: nat)
    requires page >= 1 && limit >= 1 && scanned <= whole
    ensures HistoryPage(scanned, page, limit) <= HistoryPage(whole, page, limit)
    ensures HistoryPage(scanned, page, limit) == HistoryPage(whole, page, limit) <==>
      |Ids(scanned)| >= page * limit || |Ids(scanned)| == |Ids(whole)| || |Ids(whole)| <= (page - 1) * limit
  {
    DedupedPrefix(scanned, whole);
    PrefixPage(Deduped(scanned), Deduped(whole), page, limit);
  }

  /**
   The early stop shortens a page exactly when ids repeat among the rows scanned, so that they hold fewer
   orders than the page needs, and there are more orders to be had.
   */
  lemma PageIsWholeExactly(upstream: seq<Raw>, ask: Ask, page: nat, limit: nat)
    requires page >= 1 && limit >= 1
    ensures var scanned, whole := ScannedHistory(upstream, ask, page * limit), WholeHistory(upstream, ask);
      && HistoryPage(scanned, page, limit) <= HistoryPage(whole, page, limit)
      && (HistoryPage(scanned, page, limit) == HistoryPage(whole, page, limit) <==>
            |Ids(scanned)| >= page * limit || |Ids(scanned)| == |Ids(whole)| || |Ids(whole)| <= (page - 1) * limit)
  {
    ShowingIsAdditive(ask);
    var n := StopsAt(upstream, Showing(ask), page * limit, 0);
    StopsWhenEnough(upstream, Showing(ask), page * limit, 0);
    ScannedIsPrefix(upstream, Showing(ask), page * limit, n, Shown(upstream[..n], ask));
    PageOfScanned(ScannedHistory(upstream, ask, page * limit), WholeHistory(upstream, ask), page, limit);
  }

  /** Distinct ids are enough: the early stop then leaves the page as it is, and there is nothing to deduplicate. */
  lemma DistinctRowsPage(upstream: seq<Raw>, ask: Ask, page: nat, limit: nat)
    requires page >= 1 && limit >= 1 && DistinctRows(upstream)
    ensures HistoryPage(ScannedHistory(upstream, ask, page * limit), page, limit)
         == PageOf(ApplyListScopeToEntries(WholeHistory(upstream, ask), HistoryScope), page, limit)
  {
    var n := StopsAt(upstream, Showing(ask), page * limit, 0);
    ShowingIsAdditive(ask);
    StopsWhenEnough(upstream, Showing(ask), page * limit, 0);
    WholeHistoryDistinct(upstream, ask);
    ScanIsEnough(upstream, Showing(ask), n, Shown(upstream[..n], ask), WholeHistory(upstream, ask), page, limit);
  }

  lemma {:induction false} StopsWhenEnough(upstream: seq<Raw>, show: Contribution, needed: nat, scanned: nat)
    requires scanned <= Min(|upstream|, MAX_SCAN_ROWS)
    ensures var n := StopsAt(upstream, show, needed, scanned);
      ScannedEnough(upstream, show, needed, n, show(upstream[..n]))
    decreases Min(|upstream|, MAX_SCAN_ROWS) - scanned
  {
    var cap := Min(|upstream|, MAX_SCAN_ROWS);
    if |show(upstream[..scanned])| < needed && scanned < cap {
      StopsWhenEnough(upstream, show, needed, Min(scanned + SCAN_LIMIT, cap));
    }
  }

  /** What was scanned is a prefix of the whole, and the whole of it unless it is already long enough. */
  lemma ScannedIsPrefix(upstream: seq<Raw>, show: Contribution, needed: nat, scanned: nat, collected: seq<Entry>)
    requires Additive(show) && ScannedEnough(upstream, show, needed, scanned, collected)
    ensures var whole := show(upstream[..Min(|upstream|, MAX_SCAN_ROWS)]);
      collected <= whole && (|collected| >= needed || collected == whole)
  {
    var cap := Min(|upstream|, MAX_SCAN_ROWS);
    assert upstream[..cap] == upstream[..scanned] + upstream[scanned..cap];
  }

  /** More could only add entries after the page. */
  lemma ScanIsEnough(upstream: seq<Raw>, show: Contribution, scanned: nat, collected: seq<Entry>, whole: seq<Entry>,
                     page: nat, limit: nat)
    requires page >= 1 && limit >= 1 && Additive(show)
    requires ScannedEnough(upstream, show, page * limit, scanned, collected)
    requires whole == show(upstream[..Min(|upstream|, MAX_SCAN_ROWS)]) && DistinctIds(whole)
    ensures var scoped := ApplyListScopeToEntries(collected, HistoryScope);
      && Dedupe(scoped) == scoped
      && PageOf(scoped, page, limit) == PageOf(ApplyListScopeToEntries(whole, HistoryScope), page, limit)
  {
    ScannedIsPrefix(upstream, show, page * limit, scanned, collected);
    ScopeKeepsIds(collected);
    DedupeOfDistinct(ApplyListScopeToEntries(collected, HistoryScope));
    PageOfPrefix(ApplyListScopeToEntries(collected, HistoryScope), ApplyListScopeToEntries(whole, HistoryScope), page, limit);
  }

  lemma PageOfPrefix(s: seq<Entry>, t: seq<Entry>, page: nat, limit: nat)
    requires page >= 1 && s <= t && (|s| >= page * limit || s == t)
    ensures PageOf(s, page, limit) == PageOf(t, page, limit)
  {
    assert page * limit == (page - 1) * limit + limit;
  }

  lemma ScopeKeepsIds(s: seq<Entry>)
    requires DistinctIds(s)
    ensures DistinctIds(ApplyListScopeToEntries(s, HistoryScope))
  {
  }

  // -------------------------------------- distinct upstream ids are enough

  /** No id appears on two rows. */
  ghost predicate DistinctRows(rows: seq<Raw>)
  {
    forall i, j :: 0 <= i < j < |rows| && rows[i].staffCallId == rows[j].staffCallId ==> rows[i].staffCallId == 0
  }

  /** A row gives at most one entry, with the row's own id. */
  ghost predicate KeepsId(f: Raw -> seq<Entry>)
  {
    forall r :: |f(r)| <= 1 && forall e :: e in f(r) ==> e.staffCallId == r.staffCallId > 0
  }

  /** Each entry presented comes from a row with its id. */
  lemma {:induction false} PresentedIds(rows: seq<Raw>, f: Raw -> seq<Entry>)
    requires DistinctRows(rows) && KeepsId(f)
    ensures DistinctIds(FlatMap(rows, f))
    ensures forall e :: e in FlatMap(rows, f) ==> e.staffCallId > 0 && exists r :: r in rows && r.staffCallId == e.staffCallId
  {
    if rows != [] {
      var rest := FlatMap(rows[1..], f);
      assert forall i :: 0 <= i < |rows| - 1 ==> rows[1..][i] == rows[i + 1];
      PresentedIds(rows[1..], f);
      assert rows == [rows[0]] + rows[1..];
      forall e | e in rest ensures e.staffCallId != rows[0].staffCallId {
        var r :| r in rows[1..] && r.staffCallId == e.staffCallId;
      }
      if |f(rows[0])| == 1 {
        var e := f(rows[0])[0];
        assert e in f(rows[0]) && f(rows[0]) == [e];
        ConsDistinct(e, rest);
      }
    }
  }

  lemma WholeHistoryDistinct(upstream: seq<Raw>, ask: Ask)
    requires DistinctRows(upstream)
    ensures DistinctIds(WholeHistory(upstream, ask))
  {
    var rows := upstream[..Min(|upstream|, MAX_SCAN_ROWS)];
    PresentedIds(rows, PresentRow(ask.auth));
    FilterKeepsDistinct(Presented(rows, ask.auth), ScopeTest(HistoryScope, ask.now));
    FilterKeepsDistinct(FilterByScope(Presented(rows, ask.auth), HistoryScope, ask.now), DateTest(ask.range, ask.dayOf));
  }

  // ------------------------------------------ a repeated id shortens a page

  /** An order cancelled at time 0. */
  function CancelledOrder(id: nat): Raw
  {
    Raw(Table, id, None, FoodOrder, Word(Cancelled), [], Some(0), Info(None, None, None, None, None), map[], [], 0, false, false)
  }

  /** Everybody's history, a day later. */
  function ADayLater(): Ask
  {
    Ask({}, ARCHIVE_GRACE_MS, DateRange(0, 0), (t: int) => 0)
  }

  lemma CancelledIsShown(id: nat) returns (e: Entry)
    requires id > 0
    ensures Shown([CancelledOrder(id)], ADayLater()) == [e] && e.staffCallId == id
  {
    var row, ask := CancelledOrder(id), ADayLater();
    var history := [Detail(NoAction, Word(Cancelled), Some(0), "")];
    assert Score([]) == 0 && Score(history) >= 1;
    assert PickRicher([], history) == history;
    assert Statuses(history) == [Word(Cancelled)];
    e := PresentTableCallRow(row, ask.auth).value;
    assert e.status == Cancelled && e.actionDetails == history;
    assert FirstTime(history) == Some(0) && ClosedAt(history) == Some(0);
    assert InScope(e, HistoryScope, ask.now) && InRange(e, ask.range, ask.dayOf);
    assert Presented([row], ask.auth) == [e] by {
      assert [row][1..] == [];
      assert PresentRow(ask.auth)(row) == [e];
      assert FlatMap([row], PresentRow(ask.auth)) == PresentRow(ask.auth)(row) + FlatMap([row][1..], PresentRow(ask.auth));
    }
    assert [e][1..] == [];
    assert Filter([e], ScopeTest(HistoryScope, ask.now)) == [e];
    assert Filter([e], DateTest(ask.range, ask.dayOf)) == [e];
  }

  function Copies<T>(x: T, n: nat): seq<T>
  {
    seq(n, i => x)
  }

  lemma {:induction false} CopiesShown(row: Raw, e: Entry, n: nat, ask: Ask)
    requires Shown([row], ask) == [e]
    ensures Shown(Copies(row, n), ask) == Copies(e, n)
  {
    if n > 0 {
      CopiesShown(row, e, n - 1, ask);
      ShownConcat(Copies(row, n - 1), [row], ask);
      assert Copies(row, n) == Copies(row, n - 1) + [row];
      assert Copies(e, n) == Copies(e, n - 1) + [e];
    }
  }

  /**
   It does happen: of 50 rows of order 1 and one of order 2, two of them are enough for a page of two,
   the scan stops after its first 50, and the page has order 1 alone.
   */
  lemma RepeatedIdShortensPage() returns (upstream: seq<Raw>, d: Entry, e: Entry)
    ensures upstream == Copies(CancelledOrder(1), 50) + [CancelledOrder(2)]
    ensures ScannedHistory(upstream, ADayLater(), 2) == Copies(d, 50)
    ensures WholeHistory(upstream, ADayLater()) == Copies(d, 50) + [e]
    ensures HistoryPage(ScannedHistory(upstream, ADayLater(), 2), 1, 2) != HistoryPage(WholeHistory(upstream, ADayLater()), 1, 2)
  {
    var ask := ADayLater();
    var many := Copies(CancelledOrder(1), 50);
    upstream := many + [CancelledOrder(2)];
    d := CancelledIsShown(1);
    e := CancelledIsShown(2);
    CopiesShown(CancelledOrder(1), d, 50, ask);
    ShownConcat(many, [CancelledOrder(2)], ask);
    assert upstream[..51] == upstream && upstream[..50] == many && upstream[..0] == [];
    var show := Showing(ask);
    assert show([]) == [] && |show(upstream[..50])| == 50;
    assert StopsAt(upstream, show, 2, 50) == 50;
    assert StopsAt(upstream, show, 2, 0) == StopsAt(upstream, show, 2, 50);
    PageIsWholeExactly(upstream, ask, 1, 2);
    IdsOfCopies(d, 50);
    IdsSnoc(Copies(d, 50), e);
    TwoIds(d.staffCallId, e.staffCallId);
  }

  lemma IdsOfCopies(e: Entry, n: nat)
    requires n > 0
    ensures Ids(Copies(e, n)) == {e.staffCallId}
  {
    var s := Copies(e, n);
    assert s[0] == e;
    forall id: nat ensures id in Ids(s) <==> id == e.staffCallId {
      assert e in s;
    }
  }

  lemma TwoIds(a: nat, b: nat)
    requires a != b
    ensures |{a}| == 1 && |{a} + {b}| == 2
  {
  }
}
