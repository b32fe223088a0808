/** Action histories: which is richer, and who moved an order to its stage (`staff-order-action-details.util.ts`). */
module ActionDetails {
  import opened OrderStatus
  import opened Sequences
  import opened Wrappers

  /** An action code as read, trimmed and upper-cased. */
  datatype Action =
    | NoAction | CallCreatedAction | ItemsUpdated | CallUpdated
    | CallConfirmed | CallCancelled | CallPrepared | CallDelivered | CallCompleted | OtherAction

  /** One entry of a history; the name is trimmed, the time parsed. */
  datatype Detail = Detail(action: Action, status: StatusText, time: Option<int>, waiterName: string)

  type History = seq<Detail>

  // --------------------------------------------------------- the richer history

  function Weight(d: Detail): nat
  {
    (if d.waiterName != "" then 2 else 0) + (if d.action != NoAction then 1 else 0)
  }

  function Weights(h: History): nat
  {
    if h == [] then 0 else Weights(h[..|h| - 1]) + Weight(h[|h| - 1])
  }

  function Score(h: History): nat
  {
    |h| + Weights(h)
  }

  method ActionDetailScore(h: History) returns (score: nat)
    ensures score == Score(h)
  {
    if |h| == 0 {
      return 0;
    }
    score := |h|;
    var i := 0;
    while i < |h|
      invariant 0 <= i <= |h|
      invariant score == |h| + Weights(h[..i])
    {
      var d := h[i];
      if d.waiterName != "" {
        score := score + 2;
      }
      if d.action != NoAction {
        score := score + 1;
      }
      assert h[..i + 1][..i] == h[..i];
      i := i + 1;
    }
    assert h[..i] == h;
  }

  /** `a` wins over `b` when it comes first: a greater score, or the same and no shorter. */
  predicate AtLeastAsRich(a: History, b: History)
  {
    Score(a) > Score(b) || (Score(a) == Score(b) && |a| >= |b|)
  }

  function PickRicher(primary: History, fallback: History): (r: History)
  {
    if Score(fallback) > Score(primary) then fallback
    else if Score(primary) > Score(fallback) then primary
    else if |primary| >= |fallback| then primary else fallback
  }

  /** A left-biased maximum of a total preorder. */
  lemma PickRicherIsMaximum(a: History, b: History, c: History)
    ensures PickRicher(a, b) == if AtLeastAsRich(a, b) then a else b
    ensures AtLeastAsRich(PickRicher(a, b), a) && AtLeastAsRich(PickRicher(a, b), b)
    ensures PickRicher(a, PickRicher(b, c)) == PickRicher(PickRicher(a, b), c)
    ensures PickRicher(a, a) == a && PickRicher(PickRicher(a, b), b) == PickRicher(a, b)
    ensures PickRicher(a, []) == a && PickRicher([], a) == a
  {
  }

  /** `best` is in the list, nothing in it is richer, and nothing before it is as rich. */
  ghost predicate LeftmostRichest(best: History, list: seq<History>)
  {
    && (forall i :: 0 <= i < |list| ==> AtLeastAsRich(best, list[i]))
    && exists k :: 0 <= k < |list| && list[k] == best && forall i :: 0 <= i < k ==> !AtLeastAsRich(list[i], best)
  }

  function PickRichest(first: History, rest: seq<History>): History
  {
    if rest == [] then first else PickRicher(PickRichest(first, rest[..|rest| - 1]), rest[|rest| - 1])
  }

  /** One more history at the end of the list. */
  lemma LeftmostRichestSnoc(best: History, list: seq<History>, h: History)
    requires LeftmostRichest(best, list)
    ensures LeftmostRichest(PickRicher(best, h), list + [h])
  {
    var longer := list + [h];
    assert forall i :: 0 <= i < |list| ==> longer[i] == list[i];
    assert longer[|list|] == h;
    if AtLeastAsRich(best, h) {
      var k :| 0 <= k < |list| && list[k] == best && forall i :: 0 <= i < k ==> !AtLeastAsRich(list[i], best);
      assert longer[k] == best;
    } else {
      assert forall i :: 0 <= i < |list| ==> AtLeastAsRich(best, list[i]) && !AtLeastAsRich(list[i], h);
    }
  }

  /** Folding `PickRicher` along a list finds its leftmost richest history. */
  lemma {:induction false} PickRichestIsLeftmost(first: History, rest: seq<History>)
    ensures LeftmostRichest(PickRichest(first, rest), [first] + rest)
  {
    if rest == [] {
      assert [first][0] == first;
      assert [first] + rest == [first];
    } else {
      var n := |rest| - 1;
      PickRichestIsLeftmost(first, rest[..n]);
      LeftmostRichestSnoc(PickRichest(first, rest[..n]), [first] + rest[..n], rest[n]);
      assert [first] + rest == [first] + rest[..n] + [rest[n]];
    }
  }

  lemma {:induction false} PickRichestSplit(first: History, a: seq<History>, b: seq<History>)
    ensures PickRichest(first, a + b) == PickRichest(PickRichest(first, a), b)
  {
    if b == [] {
      assert a + b == a;
    } else {
      var n := |b| - 1;
      assert (a + b)[..|a| + n] == a + b[..n];
      PickRichestSplit(first, a, b[..n]);
    }
  }

  // ------------------------------------------------------------ stage actors

  /** `normalizeLifecycleStatus`. */
  function LifecycleWord(t: StatusText): Option<Status>
  {
    match t
    case Word(s) => Some(s)
    case CallCreated => Some(Pending)
    case _ => None
  }

  function StatusOfAction(a: Action): Option<Status>
  {
    match a
    case CallConfirmed => Some(Confirmed)
    case CallCancelled => Some(Cancelled)
    case CallPrepared => Some(Prepared)
    case CallDelivered => Some(Delivered)
    case CallCreatedAction => Some(Pending)
    case _ => None
  }

  predicate IsStageTransition(d: Detail)
  {
    if d.action in {ItemsUpdated, CallUpdated, CallCreatedAction} then false
    else if StatusOfAction(d.action).Some? then true
    else LifecycleWord(d.status).Some? && LifecycleWord(d.status).value != Pending
  }

  function LifecycleStatus(d: Detail): Option<Status>
  {
    if StatusOfAction(d.action).Some? then StatusOfAction(d.action) else LifecycleWord(d.status)
  }

  /** A detail that entered a stage, with the name on it if any. */
  datatype StageEntry = StageEntry(stage: Status, name: string)

  /** The stages a history goes through; other details are passed over. */
  function Stages(h: History): seq<StageEntry>
  {
    if h == [] then []
    else
      var d := h[|h| - 1];
      var before := Stages(h[..|h| - 1]);
      if IsStageTransition(d) && LifecycleStatus(d).Some? && LifecycleStatus(d).value != Pending
      then before + [StageEntry(LifecycleStatus(d).value, d.waiterName)] else before
  }

  /** Entry `i` is named and comes to `target` from another stage, or from none. */
  predicate NamedEntryInto(es: seq<StageEntry>, target: Status, i: nat)
    requires i < |es|
  {
    es[i].stage == target && es[i].name != "" && (i > 0 ==> es[i - 1].stage != target)
  }

  predicate IsLastNamedEntry(es: seq<StageEntry>, target: Status, i: nat)
  {
    && i < |es|
    && NamedEntryInto(es, target, i)
    && forall j :: i < j < |es| ==> !NamedEntryInto(es, target, j)
  }

  /** The name on the last named entry into `target` among the first `n`. */
  function LastEntrant(es: seq<StageEntry>, target: Status, n: nat): Option<string>
    requires n <= |es|
  {
    if n == 0 then None
    else if NamedEntryInto(es, target, n - 1) then Some(es[n - 1].name)
    else LastEntrant(es, target, n - 1)
  }

  function StageActor(current: Status, h: History): Option<string>
  {
    if current == Pending then None else LastEntrant(Stages(h), current, |Stages(h)|)
  }

  /** What the loop carries: the stage last entered, and the actor so far. */
  datatype Tracker = Tracker(previous: Option<Status>, actor: Option<string>)

  function Advance(t: Tracker, d: Detail, current: Status): Tracker
  {
    var stage := LifecycleStatus(d);
    if !IsStageTransition(d) || stage.None? || stage.value == Pending then t
    else if d.waiterName == "" then t.(previous := stage)
    else Tracker(stage, if stage.value == current && t.previous != Some(current) then Some(d.waiterName) else t.actor)
  }

  function Track(h: History, current: Status): Tracker
  {
    if h == [] then Tracker(None, None) else Advance(Track(h[..|h| - 1], current), h[|h| - 1], current)
  }

  lemma {:induction false} LastEntrantSnoc(es: seq<StageEntry>, x: StageEntry, target: Status, n: nat)
    requires n <= |es|
    ensures LastEntrant(es + [x], target, n) == LastEntrant(es, target, n)
  {
    if n > 0 {
      LastEntrantSnoc(es, x, target, n - 1);
      assert NamedEntryInto(es + [x], target, n - 1) == NamedEntryInto(es, target, n - 1);
    }
  }

  /** The loop's bookkeeping finds the last named entry into the stage. */
  lemma {:induction false} TrackFindsActor(h: History, current: Status, es: seq<StageEntry>)
    requires es == Stages(h)
    ensures Track(h, current).previous == if es == [] then None else Some(es[|es| - 1].stage)
    ensures Track(h, current).actor == LastEntrant(es, current, |es|)
  {
    if h != [] {
      var p, d := h[..|h| - 1], h[|h| - 1];
      var before := Stages(p);
      TrackFindsActor(p, current, before);
      if es != before {
        var x := es[|es| - 1];
        assert es == before + [x];
        LastEntrantSnoc(before, x, current, |before|);
        assert LastEntrant(es, current, |es|) ==
          if NamedEntryInto(es, current, |before|) then Some(x.name) else LastEntrant(es, current, |before|);
      }
    }
  }

  method ResolveStatusStageActorName(current: Status, h: History) returns (actor: Option<string>)
    ensures actor == StageActor(current, h)
  {
    if current == Pending {
      return None;
    }
    var previous: Option<Status> := None;
    actor := None;
    var i := 0;
    while i < |h|
      invariant 0 <= i <= |h|
      invariant Tracker(previous, actor) == Track(h[..i], current)
    {
      var d := h[i];
      assert h[..i + 1][..i] == h[..i];
      i := i + 1;
      if !IsStageTransition(d) {
        continue;
      }
      var stage := LifecycleStatus(d);
      if stage.None? || stage.value == Pending {
        continue;
      }
      if d.waiterName == "" {
        previous := stage;
        continue;
      }
      if stage.value == current && previous != Some(current) {
        actor := Some(d.waiterName);
      }
      previous := stage;
    }
    assert h[..i] == h;
    TrackFindsActor(h, current, Stages(h));
  }

  /** The actor is the name on the last named entry into the stage; there is none when there is no such entry. */
  lemma {:induction false} LastEntrantIsLast(es: seq<StageEntry>, target: Status, n: nat)
    requires n <= |es| && forall j :: n <= j < |es| ==> !NamedEntryInto(es, target, j)
    ensures LastEntrant(es, target, n).None? <==> forall i :: 0 <= i < |es| ==> !NamedEntryInto(es, target, i)
    ensures LastEntrant(es, target, n).Some? ==>
      exists i: nat :: IsLastNamedEntry(es, target, i) && es[i].name == LastEntrant(es, target, n).value
  {
    if n > 0 {
      if NamedEntryInto(es, target, n - 1) {
        assert IsLastNamedEntry(es, target, n - 1);
      } else {
        LastEntrantIsLast(es, target, n - 1);
      }
    }
  }

  lemma {:induction false} StagesConcat(a: History, b: History)
    ensures Stages(a + b) == Stages(a) + Stages(b)
  {
    if b == [] {
      assert a + b == a;
    } else {
      var n := |b| - 1;
      assert (a + b)[..|a| + n] == a + b[..n];
      StagesConcat(a, b[..n]);
    }
  }

  lemma {:induction false} NoStagesInEdits(edits: History)
    requires forall i :: 0 <= i < |edits| ==> !IsStageTransition(edits[i])
    ensures Stages(edits) == []
  {
    if edits != [] {
      NoStagesInEdits(edits[..|edits| - 1]);
    }
  }

  /** Item edits and the like, put in or taken out anywhere, never change who is credited with any stage. */
  lemma EditsNeverChangeActor(a: History, edits: History, b: History, current: Status)
    requires forall i :: 0 <= i < |edits| ==> !IsStageTransition(edits[i])
    ensures StageActor(current, a + edits + b) == StageActor(current, a + b)
  {
    NoStagesInEdits(edits);
    StagesConcat(a + edits, b);
    StagesConcat(a, edits);
    StagesConcat(a, b);
    assert Stages(a) + [] == Stages(a);
  }

  /** For every history: the credited name is on a detail that entered the stage, and no later named one did. */
  lemma ActorEnteredStage(current: Status, h: History, es: seq<StageEntry>)
    requires current != Pending && es == Stages(h)
    ensures StageActor(current, h).None? <==> forall i :: 0 <= i < |es| ==> !NamedEntryInto(es, current, i)
    ensures StageActor(current, h).Some? ==>
      exists i: nat :: IsLastNamedEntry(es, current, i) && es[i].name == StageActor(current, h).value
  {
    LastEntrantIsLast(es, current, |es|);
  }

  // ----------------------------------------------------- scores and stages, plainly

  predicate Named(d: Detail)
  {
    d.waiterName != ""
  }

  predicate Acted(d: Detail)
  {
    d.action != NoAction
  }

  /** One for each detail, two more for each that is named, one more for each that has an action. */
  lemma {:induction false} ScoreCounts(h: History)
    ensures Score(h) == |h| + 2 * |Filter(h, Named)| + |Filter(h, Acted)|
  {
    if h != [] {
      var p, d := h[..|h| - 1], h[|h| - 1];
      ScoreCounts(p);
      assert h == p + [d];
      FilterSnoc(p, d, Named);
      FilterSnoc(p, d, Acted);
    }
  }

  /** The stage a detail enters, by its action, and only where its action says nothing, by its status; edits and creations enter none. */
  lemma StageEnteredExactly(d: Detail, s: Status)
    ensures IsStageTransition(d) && LifecycleStatus(d) == Some(s) && s != Pending <==>
      || (d.action == CallConfirmed && s == Confirmed)
      || (d.action == CallCancelled && s == Cancelled)
      || (d.action == CallPrepared && s == Prepared)
      || (d.action == CallDelivered && s == Delivered)
      || (d.action in {NoAction, CallCompleted, OtherAction} && d.status == Word(s) && s != Pending)
  {
  }
}
