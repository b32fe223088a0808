/**
 The per-menu sliding-window limit (`FcmSenderService.allowMenuRate`).

 `Windows` is the stored stamp lists; a history records every call a worker made and
 its answer.  The theorems are about whole histories under a clock that never goes back.
 */
module RateWindow {
  type MenuId = nat
  type Windows = map<MenuId, seq<int>>

  const WINDOW_MS: int := 60_000

  /** The stamps of the last 60 seconds, in order. */
  function Recent(stamps: seq<int>, now: int): (r: seq<int>)
    ensures |r| <= |stamps|
  {
    if stamps == [] then []
    else
      var r := Recent(stamps[..|stamps| - 1], now);
      var t := stamps[|stamps| - 1];
      if now - t < WINDOW_MS then r + [t] else r
  }

  function Stored(w: Windows, menu: MenuId): seq<int>
  {
    if menu in w then w[menu] else []
  }

  function Admits(w: Windows, menu: MenuId, limit: int, now: int): bool
  {
    |Recent(Stored(w, menu), now)| < limit
  }

  function Updated(w: Windows, menu: MenuId, limit: int, now: int): Windows
  {
    var recent := Recent(Stored(w, menu), now);
    w[menu := if Admits(w, menu, limit, now) then recent + [now] else recent]
  }

  // ---------------------------------------------------------- whole histories

  datatype Attempt = Attempt(menu: MenuId, now: int, admitted: bool)

  /** `w` is what a worker stores after the calls in `h`, every answer being the limiter's. */
  ghost predicate Ran(h: seq<Attempt>, limit: int, w: Windows)
  {
    if h == [] then w == map[]
    else
      var a := h[|h| - 1];
      exists v ::
        && Ran(h[..|h| - 1], limit, v)
        && a.admitted == Admits(v, a.menu, limit, a.now)
        && w == Updated(v, a.menu, limit, a.now)
  }

  ghost predicate ClockNeverGoesBack(h: seq<Attempt>)
  {
    forall i, j :: 0 <= i <= j < |h| ==> h[i].now <= h[j].now
  }

  /** Admissions for `menu` at times `lo <= t < hi`. */
  function Admissions(h: seq<Attempt>, menu: MenuId, lo: int, hi: int): (n: nat)
  {
    if h == [] then 0
    else
      var a := h[|h| - 1];
      Admissions(h[..|h| - 1], menu, lo, hi)
      + (if a.admitted && a.menu == menu && lo <= a.now < hi then 1 else 0)
  }

  lemma {:induction false} WiderCountsMore(h: seq<Attempt>, menu: MenuId, lo: int, hi: int, lo': int, hi': int)
    requires forall i :: 0 <= i < |h| && lo <= h[i].now < hi ==> lo' <= h[i].now < hi'
    ensures Admissions(h, menu, lo, hi) <= Admissions(h, menu, lo', hi')
  {
    if h != [] {
      WiderCountsMore(h[..|h| - 1], menu, lo, hi, lo', hi');
    }
  }

  /** A stamp dropped at one time stays dropped. */
  lemma {:induction false} RecentAgain(s: seq<int>, before: int, now: int)
    requires before <= now
    ensures Recent(Recent(s, before), now) == Recent(s, now)
  {
    if s != [] {
      var t := s[|s| - 1];
      var r := Recent(s[..|s| - 1], before);
      RecentAgain(s[..|s| - 1], before, now);
      if before - t < WINDOW_MS {
        assert (r + [t])[..|r|] == r;
      }
    }
  }

  lemma RecentAppend(s: seq<int>, t: int, now: int)
    ensures Recent(s + [t], now) == if now - t < WINDOW_MS then Recent(s, now) + [t] else Recent(s, now)
  {
    assert (s + [t])[..|s|] == s;
  }

  /** The stored stamps, seen from any later moment, count exactly the admissions of the last 60 seconds. */
  lemma {:induction false} StoredCountsAdmissions(h: seq<Attempt>, limit: int, w: Windows, menu: MenuId, now: int)
    requires Ran(h, limit, w) && ClockNeverGoesBack(h)
    requires forall i :: 0 <= i < |h| ==> h[i].now <= now
    ensures |Recent(Stored(w, menu), now)| == Admissions(h, menu, now - WINDOW_MS + 1, now + 1)
  {
    if h != [] {
      var a := h[|h| - 1];
      var v :| Ran(h[..|h| - 1], limit, v)
        && a.admitted == Admits(v, a.menu, limit, a.now) && w == Updated(v, a.menu, limit, a.now);
      StoredCountsAdmissions(h[..|h| - 1], limit, v, menu, now);
      if menu == a.menu {
        RecentAgain(Stored(v, menu), a.now, now);
        RecentAppend(Recent(Stored(v, menu), a.now), a.now, now);
      }
    }
  }

  // ------------------------------------------------------------ main results

  /** In every 60-second window of the history, at most `limit` events of a menu are admitted. */
  lemma {:induction false} AtMostLimitPerWindow(h: seq<Attempt>, limit: int, w: Windows, menu: MenuId, from: int)
    requires Ran(h, limit, w) && ClockNeverGoesBack(h)
    ensures Admissions(h, menu, from, from + 60_000) <= if limit < 0 then 0 else limit
  {
    if h != [] {
      var a := h[|h| - 1];
      var p := h[..|h| - 1];
      var v :| Ran(p, limit, v)
        && a.admitted == Admits(v, a.menu, limit, a.now) && w == Updated(v, a.menu, limit, a.now);
      AtMostLimitPerWindow(p, limit, v, menu, from);
      if a.admitted && a.menu == menu && from <= a.now < from + WINDOW_MS {
        StoredCountsAdmissions(p, limit, v, menu, a.now);
        WiderCountsMore(p, menu, from, from + WINDOW_MS, a.now - WINDOW_MS + 1, a.now + 1);
      }
    }
  }

  /** A call is refused exactly when the last 60 seconds are full; there are then `limit` admissions in them, no more. */
  lemma RefusedOnlyWhenFull(h: seq<Attempt>, limit: int, w: Windows, a: Attempt)
    requires Ran(h, limit, w) && ClockNeverGoesBack(h + [a])
    requires a.admitted == Admits(w, a.menu, limit, a.now)
    ensures a.admitted <==> Admissions(h, a.menu, a.now - 59_999, a.now + 1) < limit
    ensures limit >= 0 && !a.admitted ==> Admissions(h, a.menu, a.now - 59_999, a.now + 1) == limit
  {
    var n, stamps := Admissions(h, a.menu, a.now - WINDOW_MS + 1, a.now + 1), |Recent(Stored(w, a.menu), a.now)|;
    assert stamps == n && n <= if limit < 0 then 0 else limit by {
      ClockPrefix(h, a);
      LastWindow(h, limit, w, a.menu, a.now);
    }
    assert a.admitted <==> stamps < limit;
  }

  lemma LastWindow(h: seq<Attempt>, limit: int, w: Windows, menu: MenuId, now: int)
    requires Ran(h, limit, w) && ClockNeverGoesBack(h)
    requires forall i :: 0 <= i < |h| ==> h[i].now <= now
    ensures |Recent(Stored(w, menu), now)| == Admissions(h, menu, now - WINDOW_MS + 1, now + 1) <= if limit < 0 then 0 else limit
  {
    var from := now - WINDOW_MS + 1;
    StoredCountsAdmissions(h, limit, w, menu, now);
    AtMostLimitPerWindow(h, limit, w, menu, from);
    assert from + WINDOW_MS == now + 1;
  }

  lemma ClockPrefix(h: seq<Attempt>, a: Attempt)
    requires ClockNeverGoesBack(h + [a])
    ensures ClockNeverGoesBack(h) && forall i :: 0 <= i < |h| ==> h[i].now <= a.now
  {
    var g := h + [a];
    assert forall i :: 0 <= i < |h| ==> g[i] == h[i];
    assert g[|h|] == a;
  }

  /** The stamp list never grows past the limit. */
  lemma {:induction false} StoredWithinLimit(h: seq<Attempt>, limit: int, w: Windows, menu: MenuId)
    requires Ran(h, limit, w)
    ensures |Stored(w, menu)| <= if limit < 0 then 0 else limit
  {
    if h != [] {
      var a := h[|h| - 1];
      var v :| Ran(h[..|h| - 1], limit, v)
        && a.admitted == Admits(v, a.menu, limit, a.now) && w == Updated(v, a.menu, limit, a.now);
      StoredWithinLimit(h[..|h| - 1], limit, v, menu);
    }
  }

  lemma RanSnoc(h: seq<Attempt>, limit: int, w: Windows, a: Attempt)
    requires Ran(h, limit, w) && a.admitted == Admits(w, a.menu, limit, a.now)
    ensures Ran(h + [a], limit, Updated(w, a.menu, limit, a.now))
  {
    var g := h + [a];
    assert g[..|g| - 1] == h && g[|g| - 1] == a;
  }

  /** With a clock that has never gone back, the answer is what the last 60 seconds of the whole history say. */
  ghost predicate AnsweredByHistory(h: seq<Attempt>, limit: int, a: Attempt)
  {
    ClockNeverGoesBack(h + [a]) ==>
      (a.admitted <==> Admissions(h, a.menu, a.now - 59_999, a.now + 1) < limit)
  }

  // -------------------------------------------------------------- the limiter

  class MenuRateLimiter {
    const limit: int
    var menuWindow: Windows
    /** Every call made so far, with its answer. */
    ghost var history: seq<Attempt>

    ghost predicate Valid()
      reads this
    {
      Ran(history, limit, menuWindow)
    }

    constructor (limit: int)
      ensures Valid() && this.limit == limit && menuWindow == map[] && history == []
    {
      this.limit := limit;
      menuWindow := map[];
      history := [];
    }

    /** A call is admitted exactly when the last 60 seconds of the whole history hold fewer than `limit` admissions of its menu. */
    method AllowMenuRate(menu: MenuId, now: int) returns (allowed: bool)
      requires Valid()
      modifies this
      ensures Valid() && history == old(history) + [Attempt(menu, now, allowed)]
      ensures allowed == Admits(old(menuWindow), menu, limit, now)
      ensures menuWindow == Updated(old(menuWindow), menu, limit, now)
      ensures AnsweredByHistory(old(history), limit, Attempt(menu, now, allowed))
      ensures |Stored(menuWindow, menu)| <= if limit < 0 then 0 else limit
    {
      ghost var call := Attempt(menu, now, Admits(menuWindow, menu, limit, now));
      Recorded(history, limit, menuWindow, call);
      history := history + [call];
      var stamps := Recent(if menu in menuWindow then menuWindow[menu] else [], now);
      if |stamps| >= limit {
        menuWindow := menuWindow[menu := stamps];
        return false;
      }
      stamps := stamps + [now];
      menuWindow := menuWindow[menu := stamps];
      return true;
    }
  }

  lemma Recorded(h: seq<Attempt>, limit: int, w: Windows, a: Attempt)
    requires Ran(h, limit, w) && a.admitted == Admits(w, a.menu, limit, a.now)
    ensures Ran(h + [a], limit, Updated(w, a.menu, limit, a.now))
    ensures |Stored(Updated(w, a.menu, limit, a.now), a.menu)| <= if limit < 0 then 0 else limit
    ensures AnsweredByHistory(h, limit, a)
  {
    RanSnoc(h, limit, w, a);
    StoredWithinLimit(h + [a], limit, Updated(w, a.menu, limit, a.now), a.menu);
    if ClockNeverGoesBack(h + [a]) {
      RefusedOnlyWhenFull(h, limit, w, a);
    }
  }
}
