/** Deduplicating, sorting and slicing lists of presented orders. */
module EntryLists {
  import opened Numbers
  import opened Presenter
  import opened Sequences
  import opened UpstreamPaging

  // ------------------------------------------------------------ deduplicating

  function Ids(s: seq<Entry>): set<nat>
  {
    set e | e in s :: e.staffCallId
  }

  /** The first entry of each id, in order. */
  function Dedupe(s: seq<Entry>): (r: seq<Entry>)
  {
    if s == [] then []
    else
      var p, e := s[..|s| - 1], s[|s| - 1];
      if e.staffCallId in Ids(p) then Dedupe(p) else Dedupe(p) + [e]
  }

  predicate HasId(e: Entry)
  {
    e.staffCallId > 0
  }

  /** The entries that have an id. */
  function Identified(s: seq<Entry>): seq<Entry>
  {
    Filter(s, HasId)
  }

  ghost predicate DistinctIds(s: seq<Entry>)
  {
    forall i, j :: 0 <= i < j < |s| ==> s[i].staffCallId != s[j].staffCallId
  }

  lemma IdsSnoc(s: seq<Entry>, e: Entry)
    ensures Ids(s + [e]) == Ids(s) + {e.staffCallId}
  {
    forall id: nat ensures id in Ids(s + [e]) <==> id in Ids(s) + {e.staffCallId} {
      if id in Ids(s) {
        var f :| f in s && f.staffCallId == id;
        assert f in s + [e];
      }
      assert e in s + [e];
    }
  }

  lemma DedupeSnoc(s: seq<Entry>, e: Entry)
    ensures Dedupe(s + [e]) == if e.staffCallId in Ids(s) then Dedupe(s) else Dedupe(s) + [e]
  {
    assert (s + [e])[..|s|] == s;
  }

  /** `dedupeEntriesByStaffCallId` of the history filters. */
  method DedupeEntriesByStaffCallId(entries: seq<Entry>) returns (out: seq<Entry>)
    ensures out == Dedupe(entries)
  {
    var seen: set<nat> := {};
    out := [];
    var i := 0;
    while i < |entries|
      invariant 0 <= i <= |entries|
      invariant seen == Ids(entries[..i]) && out == Dedupe(entries[..i])
    {
      var e := entries[i];
      assert entries[..i + 1] == entries[..i] + [e];
      IdsSnoc(entries[..i], e);
      DedupeSnoc(entries[..i], e);
      i := i + 1;
      if e.staffCallId in seen {
        assert seen + {e.staffCallId} == seen;
        continue;
      }
      seen := seen + {e.staffCallId};
      out := out + [e];
    }
    assert entries[..i] == entries;
  }

  /** The flow service's own version, which also passes over entries without an id. */
  method DedupeIdentified(entries: seq<Entry>) returns (out: seq<Entry>)
    ensures out == Dedupe(Identified(entries))
  {
    var seen: set<nat> := {};
    out := [];
    var i := 0;
    while i < |entries|
      invariant 0 <= i <= |entries|
      invariant seen == Ids(Identified(entries[..i])) && out == Dedupe(Identified(entries[..i]))
    {
      var e := entries[i];
      ghost var before := Identified(entries[..i]);
      assert entries[..i + 1] == entries[..i] + [e];
      FilterSnoc(entries[..i], e, HasId);
      IdsSnoc(before, e);
      DedupeSnoc(before, e);
      i := i + 1;
      if e.staffCallId == 0 || e.staffCallId in seen {
        assert e.staffCallId in seen ==> seen + {e.staffCallId} == seen;
        continue;
      }
      seen := seen + {e.staffCallId};
      out := out + [e];
    }
    assert entries[..i] == entries;
  }

  /** Deduplication keeps every id, once ... */
  lemma {:induction false} DedupeKeepsIds(s: seq<Entry>)
    ensures Ids(Dedupe(s)) == Ids(s) && DistinctIds(Dedupe(s)) && |Dedupe(s)| <= |s|
  {
    if s != [] {
      var p, e := s[..|s| - 1], s[|s| - 1];
      DedupeKeepsIds(p);
      assert s == p + [e];
      IdsSnoc(p, e);
      if e.staffCallId !in Ids(p) {
        IdsSnoc(Dedupe(p), e);
        NewIdIsDistinct(Dedupe(p), e);
      } else {
        assert Ids(p) + {e.staffCallId} == Ids(p);
      }
    }
  }

  /** ... on the entry that came first ... */
  lemma {:induction false} DedupeKeepsFirsts(s: seq<Entry>, e: Entry)
    requires e in Dedupe(s)
    ensures IsFirst(s, e)
  {
    var p, last := s[..|s| - 1], s[|s| - 1];
    if e in Dedupe(p) {
      DedupeKeepsFirsts(p, e);
      var k :| IsFirstAt(p, e, k);
      assert IsFirstAt(s, e, k);
    } else {
      assert forall k :: 0 <= k < |p| ==> p[k] in p && s[k] == p[k];
      assert IsFirstAt(s, e, |p|);
    }
  }

  /** ... and leaves a list without repetitions as it is. */
  lemma {:induction false} DedupeOfDistinct(s: seq<Entry>)
    requires DistinctIds(s)
    ensures Dedupe(s) == s
  {
    if s != [] {
      var p, e := s[..|s| - 1], s[|s| - 1];
      DedupeOfDistinct(p);
      assert s == p + [e];
      if e.staffCallId in Ids(p) {
        RepeatedIdIsNotDistinct(p, e);
      }
    }
  }

  lemma NewIdIsDistinct(s: seq<Entry>, e: Entry)
    requires DistinctIds(s) && e.staffCallId !in Ids(s)
    ensures DistinctIds(s + [e])
  {
    assert forall k :: 0 <= k < |s| ==> s[k] in s;
  }

  lemma RepeatedIdIsNotDistinct(p: seq<Entry>, e: Entry)
    requires e.staffCallId in Ids(p)
    ensures !DistinctIds(p + [e])
  {
    var f :| f in p && f.staffCallId == e.staffCallId;
    var k :| 0 <= k < |p| && p[k] == f;
    assert (p + [e])[k].staffCallId == (p + [e])[|p|].staffCallId;
  }

  ghost predicate IsFirstAt(s: seq<Entry>, e: Entry, k: int)
  {
    0 <= k < |s| && s[k] == e && forall j :: 0 <= j < k ==> s[j].staffCallId != e.staffCallId
  }

  /** `e` is the first entry of its id in `s`. */
  ghost predicate IsFirst(s: seq<Entry>, e: Entry)
  {
    exists k :: IsFirstAt(s, e, k)
  }

  /** What is appended cannot change what was kept before it. */
  lemma {:induction false} DedupePrefix(a: seq<Entry>, b: seq<Entry>)
    ensures Dedupe(a) <= Dedupe(a + b)
  {
    if b == [] {
      assert a + b == a;
    } else {
      var n := |b| - 1;
      DedupePrefix(a, b[..n]);
      assert a + b == a + b[..n] + [b[n]];
      DedupeSnoc(a + b[..n], b[n]);
    }
  }

  lemma IdsCons(e: Entry, s: seq<Entry>)
    ensures Ids([e] + s) == {e.staffCallId} + Ids(s)
  {
    forall id: nat ensures id in Ids([e] + s) <==> id == e.staffCallId || id in Ids(s) {
      assert e in [e] + s;
      if id in Ids(s) {
        var f :| f in s && f.staffCallId == id;
        assert f in [e] + s;
      }
    }
  }

  lemma TailDistinct(s: seq<Entry>)
    requires s != [] && DistinctIds(s)
    ensures DistinctIds(s[1..]) && s[0].staffCallId !in Ids(s[1..])
    ensures forall e :: e in s[1..] ==> e.staffCallId != s[0].staffCallId
  {
    assert forall i :: 0 <= i < |s| - 1 ==> s[1..][i] == s[i + 1];
  }

  lemma ConsDistinct(e: Entry, s: seq<Entry>)
    requires DistinctIds(s) && e.staffCallId !in Ids(s)
    ensures DistinctIds([e] + s)
  {
    assert forall i :: 0 <= i < |s| ==> s[i] in s;
  }

  /** Filtering repeats no id. */
  lemma {:induction false} FilterKeepsDistinct(s: seq<Entry>, keep: Entry -> bool)
    requires DistinctIds(s)
    ensures DistinctIds(Filter(s, keep))
  {
    if s != [] {
      TailDistinct(s);
      FilterKeepsDistinct(s[1..], keep);
      FilterExactly(s[1..], keep);
      ConsDistinct(s[0], Filter(s[1..], keep));
    }
  }

  lemma {:induction false} DistinctIdsCount(s: seq<Entry>)
    requires DistinctIds(s)
    ensures |Ids(s)| == |s|
  {
    if s != [] {
      var p, e := s[..|s| - 1], s[|s| - 1];
      assert s == p + [e];
      DistinctIdsCount(p);
      IdsSnoc(p, e);
      assert e.staffCallId !in Ids(p) by {
        if e.staffCallId in Ids(p) {
          RepeatedIdIsNotDistinct(p, e);
        }
      }
    }
  }

  // ------------------------------------------------------------------ sorting

  /** A sort key, compared component by component. */
  datatype Key = Key(major: int, minor: int)

  predicate Before(a: Key, b: Key)
  {
    a.major < b.major || (a.major == b.major && a.minor < b.minor)
  }

  function Insert(e: Entry, s: seq<Entry>, key: Entry -> Key): seq<Entry>
  {
    if s == [] || !Before(key(s[0]), key(e)) then [e] + s else [s[0]] + Insert(e, s[1..], key)
  }

  /** A stable sort by key, as `Array.prototype.sort` is. */
  function SortBy(s: seq<Entry>, key: Entry -> Key): seq<Entry>
  {
    if s == [] then [] else Insert(s[0], SortBy(s[1..], key), key)
  }

  ghost predicate SortedBy(s: seq<Entry>, key: Entry -> Key)
  {
    forall i, j :: 0 <= i < j < |s| ==> !Before(key(s[j]), key(s[i]))
  }

  function HasKey(key: Entry -> Key, k: Key): Entry -> bool
  {
    (e: Entry) => key(e) == k
  }

  /** The entries of one key, in order. */
  function OfKey(s: seq<Entry>, key: Entry -> Key, k: Key): seq<Entry>
  {
    Filter(s, HasKey(key, k))
  }

  lemma {:induction false} InsertPermutes(e: Entry, s: seq<Entry>, key: Entry -> Key)
    ensures multiset(Insert(e, s, key)) == multiset([e] + s) && |Insert(e, s, key)| == |s| + 1
  {
    if s != [] && Before(key(s[0]), key(e)) {
      InsertPermutes(e, s[1..], key);
      assert [e] + s == [e] + [s[0]] + s[1..];
    }
  }

  lemma {:induction false} InsertSorts(e: Entry, s: seq<Entry>, key: Entry -> Key)
    requires SortedBy(s, key)
    ensures SortedBy(Insert(e, s, key), key)
  {
    if s != [] && Before(key(s[0]), key(e)) {
      var rest := Insert(e, s[1..], key);
      InsertSorts(e, s[1..], key);
      InsertPermutes(e, s[1..], key);
      forall j | 0 <= j < |rest| ensures !Before(key(rest[j]), key(s[0])) {
        assert rest[j] in multiset(rest);
        assert rest[j] == e || rest[j] in s[1..];
      }
    }
  }

  /** `keep` picks entries of one key only. */
  ghost predicate OneKey(keep: Entry -> bool, key: Entry -> Key)
  {
    forall d, e :: keep(d) && keep(e) ==> key(d) == key(e)
  }

  lemma {:induction false} InsertIsStable(e: Entry, s: seq<Entry>, key: Entry -> Key, keep: Entry -> bool)
    requires OneKey(keep, key)
    ensures Filter(Insert(e, s, key), keep) == Filter([e] + s, keep)
  {
    assert ([e] + s)[1..] == s;
    if s != [] && Before(key(s[0]), key(e)) {
      var rest := Insert(e, s[1..], key);
      InsertIsStable(e, s[1..], key, keep);
      assert ([e] + s[1..])[1..] == s[1..];
      assert ([s[0]] + rest)[1..] == rest;
      assert !(keep(s[0]) && keep(e));
    }
  }

  lemma {:induction false} SortIsStable(s: seq<Entry>, key: Entry -> Key, keep: Entry -> bool)
    requires OneKey(keep, key)
    ensures Filter(SortBy(s, key), keep) == Filter(s, keep)
  {
    if s != [] {
      var rest := SortBy(s[1..], key);
      SortIsStable(s[1..], key, keep);
      InsertIsStable(s[0], rest, key, keep);
      assert ([s[0]] + rest)[1..] == rest;
    }
  }

  /** The sort loses and adds nothing, puts keys in order, and keeps the order of entries with equal keys. */
  lemma {:induction false} SortIsStableSort(s: seq<Entry>, key: Entry -> Key)
    ensures multiset(SortBy(s, key)) == multiset(s) && |SortBy(s, key)| == |s|
    ensures SortedBy(SortBy(s, key), key)
    ensures forall k :: OfKey(SortBy(s, key), key, k) == OfKey(s, key, k)
  {
    if s != [] {
      var rest := SortBy(s[1..], key);
      SortIsStableSort(s[1..], key);
      InsertPermutes(s[0], rest, key);
      InsertSorts(s[0], rest, key);
      assert s == [s[0]] + s[1..];
    }
    forall k ensures OfKey(SortBy(s, key), key, k) == OfKey(s, key, k) {
      SortIsStable(s, key, HasKey(key, k));
    }
  }

  /** A rearrangement of a list with distinct ids has distinct ids. */
  lemma {:induction false} InsertKeepsDistinct(e: Entry, s: seq<Entry>, key: Entry -> Key)
    requires DistinctIds(s) && e.staffCallId !in Ids(s)
    ensures DistinctIds(Insert(e, s, key)) && Ids(Insert(e, s, key)) == Ids(s) + {e.staffCallId}
  {
    if s != [] && Before(key(s[0]), key(e)) {
      IdsCons(s[0], s[1..]);
      assert s == [s[0]] + s[1..];
      TailDistinct(s);
      InsertKeepsDistinct(e, s[1..], key);
      IdsCons(s[0], Insert(e, s[1..], key));
      ConsDistinct(s[0], Insert(e, s[1..], key));
    } else {
      IdsCons(e, s);
      ConsDistinct(e, s);
    }
  }

  lemma {:induction false} SortKeepsDistinct(s: seq<Entry>, key: Entry -> Key)
    requires DistinctIds(s)
    ensures DistinctIds(SortBy(s, key)) && Ids(SortBy(s, key)) == Ids(s)
  {
    if s != [] {
      TailDistinct(s);
      SortKeepsDistinct(s[1..], key);
      InsertKeepsDistinct(s[0], SortBy(s[1..], key), key);
      IdsCons(s[0], s[1..]);
      assert s == [s[0]] + s[1..];
    }
  }

  // ------------------------------------------------------------------- slicing

  /** JavaScript's `slice(from, to)` for `0 <= from <= to`. */
  function Slice(s: seq<Entry>, from: nat, to: nat): (r: seq<Entry>)
    requires from <= to
    ensures |r| == Min(to, |s|) - Min(from, |s|)
  {
    s[Min(from, |s|)..Min(to, |s|)]
  }

  /** The slice page `page` shows, counting from 1. */
  function PageOf(s: seq<Entry>, page: nat, limit: nat): seq<Entry>
    requires page >= 1
  {
    Slice(s, (page - 1) * limit, (page - 1) * limit + limit)
  }

  function FirstPages(s: seq<Entry>, pages: nat, limit: nat): seq<Entry>
  {
    if pages == 0 then [] else FirstPages(s, pages - 1, limit) + PageOf(s, pages, limit)
  }

  lemma {:induction false} PagesAreAPrefix(s: seq<Entry>, pages: nat, limit: nat)
    ensures FirstPages(s, pages, limit) == s[..Min(pages * limit, |s|)]
  {
    if pages > 0 {
      PagesAreAPrefix(s, pages - 1, limit);
      var from := (pages - 1) * limit;
      assert pages * limit == from + limit;
    }
  }

  /** All the pages, one after the other, are the whole list. */
  lemma PagesAreTheList(s: seq<Entry>, limit: nat)
    requires limit > 0
    ensures FirstPages(s, PagesIn(|s|, limit), limit) == s
  {
    var n := PagesIn(|s|, limit);
    PagesAreAPrefix(s, n, limit);
    assert n * limit >= |s|;
  }

  datatype Paged = Paged(entries: seq<Entry>, total: nat, page: nat, limit: nat, totalPages: nat)

  function Clamp(x: int, lo: nat, hi: nat): nat
    requires lo <= hi
  {
    if x < lo then lo else if x > hi then hi else x
  }

  function PaginatePresentedEntries(entries: seq<Entry>, page: int, limit: int): Paged
  {
    var safePage: nat := if page < 1 then 1 else page;
    var safeLimit := Clamp(limit, 1, 100);
    Paged(PageOf(entries, safePage, safeLimit), |entries|, safePage, safeLimit,
          if |entries| > 0 then PagesIn(|entries|, safeLimit) else 0)
  }
}
