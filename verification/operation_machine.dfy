/**
 * The life cycle of one route operation: start, pause, resume and stop, the
 * quantity check that guards stop, and the running-time projection shown
 * while an operation is in progress. Times are milliseconds; `now` is the
 * clock reading at the moment of the action.
 */
module OperationMachine {
  import opened Records
  import opened Ledger

  datatype Action = Start | Pause | Resume | Stop

  /** Why a stop was refused: the aggregate counters, or the named item row. */
  datatype Rejection = QuantityMismatch | ItemMismatch(itemName: string)

  /**
   * The operation after an action. A refused stop still hands back the
   * operation, because the source has already updated it in place.
   */
  datatype Outcome = Applied(op: RouteOp) | Rejected(reason: Rejection, op: RouteOp)

  /** `getOperationElapsedSeconds` in milliseconds: stored time plus the running interval. */
  function ElapsedMs(op: RouteOp, now: int): int {
    var base := op.elapsedMs.GetOr(0);
    if HasStatus(op, InProgress) && Truthy(op.startedAt) then base + (now - op.startedAt.value) else base
  }

  /** The running interval a pause or stop adds: 0 when `startedAt` is unset. */
  function RunningMs(op: RouteOp, now: int): int {
    if Truthy(op.startedAt) then now - op.startedAt.value else 0
  }

  /** `start`, from any state: the clock restarts from zero. */
  function StartOp(op: RouteOp, now: nat): (res: RouteOp)
    ensures res.status == Some(InProgress) && res.startedAt == Some(now) && res.elapsedMs == Some(0)
    ensures res.lastPausedAt == None && res.finishedAt == None && res.actualMs == None
    ensures Truthy(op.firstStartedAt) ==> res.firstStartedAt == op.firstStartedAt
    ensures !Truthy(op.firstStartedAt) ==> res.firstStartedAt == Some(now)
    ensures res == op.(status := res.status, startedAt := res.startedAt, elapsedMs := res.elapsedMs,
      lastPausedAt := None, finishedAt := None, actualMs := None, firstStartedAt := res.firstStartedAt)
  {
    op.(firstStartedAt := if Truthy(op.firstStartedAt) then op.firstStartedAt else Some(now),
        status := Some(InProgress),
        startedAt := Some(now),
        lastPausedAt := None,
        finishedAt := None,
        actualMs := None,
        elapsedMs := Some(0))
  }

  /** `pause`: only an operation in progress is paused; its running time is banked. */
  function PauseOp(op: RouteOp, now: nat): (res: RouteOp)
    ensures !HasStatus(op, InProgress) ==> res == op
    ensures HasStatus(op, InProgress) ==>
      && res.status == Some(Paused)
      && res.elapsedMs == Some(ElapsedMs(op, now))
      && res.lastPausedAt == Some(now) && res.startedAt == None
      && res == op.(status := res.status, elapsedMs := res.elapsedMs, lastPausedAt := res.lastPausedAt, startedAt := None)
  {
    if HasStatus(op, InProgress) then
      op.(elapsedMs := Some(op.elapsedMs.GetOr(0) + RunningMs(op, now)),
          lastPausedAt := Some(now),
          startedAt := None,
          status := Some(Paused))
    else op
  }

  /**
   * `resume`, from any state: a finished operation with no stored time
   * continues from its actual time; the clock restarts from `now`.
   */
  function ResumeOp(op: RouteOp, now: nat): (res: RouteOp)
    ensures res.status == Some(InProgress) && res.startedAt == Some(now)
    ensures res.lastPausedAt == None && res.finishedAt == None
    ensures op.elapsedMs.Some? ==> res.elapsedMs == op.elapsedMs
    ensures op.elapsedMs.None? && HasStatus(op, Done) ==> res.elapsedMs == Some(op.actualMs.GetOr(0))
    ensures op.elapsedMs.None? && !HasStatus(op, Done) ==> res.elapsedMs == None
    ensures Truthy(op.firstStartedAt) ==> res.firstStartedAt == op.firstStartedAt
    ensures !Truthy(op.firstStartedAt) ==> res.firstStartedAt == Some(now)
    ensures res.actualMs == op.actualMs
    ensures res == op.(status := res.status, startedAt := res.startedAt, elapsedMs := res.elapsedMs,
      lastPausedAt := None, finishedAt := None, firstStartedAt := res.firstStartedAt)
  {
    var seeded :=
      if HasStatus(op, Done) && op.elapsedMs.None? then op.(elapsedMs := Some(op.actualMs.GetOr(0))) else op;
    seeded.(firstStartedAt := if Truthy(seeded.firstStartedAt) then seeded.firstStartedAt else Some(now),
            status := Some(InProgress),
            startedAt := Some(now),
            lastPausedAt := None,
            finishedAt := None)
  }

  /** The pieces an item row must account for: its quantity, 1 when unset. */
  function ExpectedPieces(item: Item): int {
    item.quantity.GetOr(1)
  }

  predicate ItemMismatched(item: Item) {
    ExpectedPieces(item) > 0 && ItemCounts(item).Total() != ExpectedPieces(item)
  }

  /** `items.find(...)`: the first row whose counters do not add up. */
  function FirstWrongItem(items: seq<Item>): (r: Option<nat>)
    ensures r.Some? ==> r.value < |items| && ItemMismatched(items[r.value])
    ensures r.Some? ==> forall k :: 0 <= k < r.value ==> !ItemMismatched(items[k])
    ensures r.None? <==> forall k :: 0 <= k < |items| ==> !ItemMismatched(items[k])
  {
    FirstWrongFrom(items, 0)
  }

  /** The search of `items.find(...)` from position `k` on. */
  function FirstWrongFrom(items: seq<Item>, k: nat): (r: Option<nat>)
    requires k <= |items|
    ensures r.Some? ==> k <= r.value < |items| && ItemMismatched(items[r.value])
    ensures r.Some? ==> forall j :: k <= j < r.value ==> !ItemMismatched(items[j])
    ensures r.None? <==> forall j :: k <= j < |items| ==> !ItemMismatched(items[j])
    decreases |items| - k
  {
    if k == |items| then None
    else if ItemMismatched(items[k]) then Some(k)
    else FirstWrongFrom(items, k + 1)
  }

  /** `wrongItem.name || 'Изделие'`. */
  function ItemLabel(item: Item): string {
    if item.name != "" then item.name else "Изделие"
  }

  /** The first half of `stop`: an operation in progress banks its running time. */
  function FlushRunning(op: RouteOp, now: nat): RouteOp {
    if HasStatus(op, InProgress) then op.(elapsedMs := Some(op.elapsedMs.GetOr(0) + RunningMs(op, now))) else op
  }

  /** The second half of a successful `stop`. */
  function Finish(op: RouteOp, now: nat): RouteOp {
    op.(startedAt := None,
        finishedAt := Some(now),
        lastPausedAt := None,
        actualMs := Some(op.elapsedMs.GetOr(0)),
        status := Some(Done))
  }

  /**
   * `stop`, from any state, as the source does it: the running time is
   * banked first; then, counting per item, the items are normalized and the
   * first row that does not add up refuses the stop; counting in aggregate, a
   * positive target that the counters miss refuses it. A refusal keeps what
   * was already written.
   */
  function StopOp(card: Card, op: RouteOp, now: nat, tokens: nat -> string): Outcome
  {
    var flushed := FlushRunning(op, now);
    var qtyTotal := OperationQuantity(flushed, card);
    if card.useItemList then
      var normalized := NormalizedOp(card, flushed, tokens);
      var wrong := FirstWrongItem(normalized.items);
      if wrong.Some? then Rejected(ItemMismatch(ItemLabel(normalized.items[wrong.value])), normalized)
      else Applied(Finish(normalized, now))
    else if qtyTotal.Some? && qtyTotal.value > 0 && OpCounts(flushed).Total() != qtyTotal.value then
      Rejected(QuantityMismatch, flushed)
    else Applied(Finish(flushed, now))
  }

  /** `applyOperationAction`'s effect on the operation itself. */
  function ApplyToOp(action: Action, card: Card, op: RouteOp, now: nat, tokens: nat -> string): (res: Outcome)
    ensures res.Rejected? ==> action == Stop
  {
    match action
    case Start => Applied(StartOp(op, now))
    case Pause => Applied(PauseOp(op, now))
    case Resume => Applied(ResumeOp(op, now))
    case Stop => StopOp(card, op, now, tokens)
  }

  /** Banking the running time touches nothing the normalization reads. */
  lemma FlushKeepsItems(card: Card, op: RouteOp, now: nat, tokens: nat -> string)
    ensures NormalizedOp(card, FlushRunning(op, now), tokens).items == NormalizedOp(card, op, tokens).items
    ensures OperationQuantity(FlushRunning(op, now), card) == OperationQuantity(op, card)
    ensures OpCounts(FlushRunning(op, now)) == OpCounts(op)
  {
    var flushed := FlushRunning(op, now);
    assert flushed == op.(elapsedMs := flushed.elapsedMs);
  }

  /**
   * The stop gate when counting per item: refused exactly when some
   * normalized row holds other than one piece (every normalized row expects
   * one); the refusal names the first such row.
   */
  lemma StopRejectedPerItem(card: Card, op: RouteOp, now: nat, tokens: nat -> string)
    requires card.useItemList
    ensures var norm := NormalizedOp(card, op, tokens).items;
      StopOp(card, op, now, tokens).Rejected? <==> exists k :: 0 <= k < |norm| && ItemCounts(norm[k]).Total() != 1
    ensures StopOp(card, op, now, tokens).Rejected? ==>
      var norm := NormalizedOp(card, op, tokens).items;
      StopOp(card, op, now, tokens).reason == ItemMismatch(ItemLabel(norm[FirstWrongItem(norm).value]))
  {
    FlushKeepsItems(card, op, now, tokens);
    var norm := NormalizedOp(card, op, tokens).items;
    var wrong := FirstWrongItem(norm);
    var res := StopOp(card, op, now, tokens);
    assert res.Rejected? <==> wrong.Some?;
    if wrong.Some? {
      assert norm[wrong.value].quantity == Some(1);
    } else {
      forall k | 0 <= k < |norm| ensures ItemCounts(norm[k]).Total() == 1 {
        assert !ItemMismatched(norm[k]) && norm[k].quantity == Some(1);
      }
    }
  }

  /**
   * The stop gate when counting in aggregate: refused exactly when the
   * resolved target is positive and the counters miss it.
   */
  lemma StopRejectedAggregate(card: Card, op: RouteOp, now: nat, tokens: nat -> string)
    requires !card.useItemList
    ensures StopOp(card, op, now, tokens).Rejected? <==>
      var q := OperationQuantity(op, card);
      q.Some? && q.value > 0 && OpCounts(op).Total() != q.value
    ensures StopOp(card, op, now, tokens).Rejected? ==> StopOp(card, op, now, tokens).reason == QuantityMismatch
  {
    FlushKeepsItems(card, op, now, tokens);
  }

  /**
   * A refused stop leaves status, start and finish times as they were, and
   * (this is what the source does) keeps the banked running time although
   * the operation is still running.
   */
  lemma StopRejectedKeepsState(card: Card, op: RouteOp, now: nat, tokens: nat -> string)
    requires StopOp(card, op, now, tokens).Rejected?
    ensures var res := StopOp(card, op, now, tokens).op;
      && res.status == op.status && res.startedAt == op.startedAt && res.finishedAt == op.finishedAt
      && res.elapsedMs == FlushRunning(op, now).elapsedMs
  {
  }

  /**
   * A stop that goes through finishes the operation and records as actual
   * time exactly what the running-time projection showed at that moment.
   */
  lemma StopAppliedFinishes(card: Card, op: RouteOp, now: nat, tokens: nat -> string)
    requires StopOp(card, op, now, tokens).Applied?
    ensures var res := StopOp(card, op, now, tokens).op;
      && res.status == Some(Done) && res.finishedAt == Some(now)
      && res.startedAt == None && res.lastPausedAt == None
      && res.actualMs == Some(ElapsedMs(op, now))
      && ElapsedMs(res, now) == ElapsedMs(op, now)
      && res.firstStartedAt == op.firstStartedAt && res.quantity == op.quantity
  {
    var flushed := FlushRunning(op, now);
    assert flushed.elapsedMs.GetOr(0) == ElapsedMs(op, now);
  }

  /** The projection only reads the operation: pausing freezes exactly what it showed. */
  lemma PausePreservesElapsed(op: RouteOp, now: nat)
    ensures ElapsedMs(PauseOp(op, now), now) == ElapsedMs(op, now)
  {
  }

  /**
   * Resuming an operation that is not running never changes what the
   * projection shows at the moment of resuming, unless it is finished with
   * no stored time.
   */
  lemma ResumePreservesElapsed(op: RouteOp, now: nat)
    requires !HasStatus(op, InProgress)
    requires !(HasStatus(op, Done) && op.elapsedMs.None?)
    ensures ElapsedMs(ResumeOp(op, now), now) == ElapsedMs(op, now)
  {
  }

  /**
   * A finished operation with no stored time resumes from its actual time,
   * which the projection did not show before.
   */
  lemma ResumeDoneSeedsActual(op: RouteOp, now: nat)
    requires HasStatus(op, Done) && op.elapsedMs.None?
    ensures ElapsedMs(op, now) == 0
    ensures ElapsedMs(ResumeOp(op, now), now) == op.actualMs.GetOr(0)
  {
  }

  /**
   * Resuming an operation that is already running restarts its clock
   * without banking: the interval since it started drops out of the
   * projection.
   */
  lemma ResumeRunningDropsInterval(op: RouteOp, now: nat)
    requires HasStatus(op, InProgress)
    ensures ElapsedMs(ResumeOp(op, now), now) == ElapsedMs(op, now) - RunningMs(op, now)
  {
  }

  /**
   * Pause, resume, pause: an operation running since `s0` and paused at
   * `t1`, resumed at `t2` and paused again at `t3`, has banked both running
   * intervals.
   */
  lemma PauseResumePause(op: RouteOp, t1: nat, t2: nat, t3: nat)
    requires HasStatus(op, InProgress) && Truthy(op.startedAt) && t2 != 0
    ensures PauseOp(ResumeOp(PauseOp(op, t1), t2), t3).elapsedMs ==
      Some(op.elapsedMs.GetOr(0) + (t1 - op.startedAt.value) + (t3 - t2))
  {
    var p1 := PauseOp(op, t1);
    assert p1.elapsedMs == Some(op.elapsedMs.GetOr(0) + (t1 - op.startedAt.value));
    var r := ResumeOp(p1, t2);
    assert r.elapsedMs == p1.elapsedMs && r.startedAt == Some(t2);
  }

  /** After a start, the projection counts from the start time. */
  lemma StartThenElapsed(op: RouteOp, now: nat, later: int)
    requires now != 0
    ensures ElapsedMs(StartOp(op, now), later) == later - now
  {
  }

  /**
   * A refused stop of a running operation, as written, counts the running
   * interval twice: the projection jumps by it at once, and a later pause
   * banks it again.
   */
  lemma RejectedStopDoubleCounts(card: Card, op: RouteOp, now: nat, later: nat, tokens: nat -> string)
    requires HasStatus(op, InProgress) && Truthy(op.startedAt)
    requires StopOp(card, op, now, tokens).Rejected?
    ensures var res := StopOp(card, op, now, tokens).op;
      ElapsedMs(res, now) == ElapsedMs(op, now) + (now - op.startedAt.value)
    ensures var res := StopOp(card, op, now, tokens).op;
      PauseOp(res, later).elapsedMs ==
        Some(op.elapsedMs.GetOr(0) + (later - op.startedAt.value) + (now - op.startedAt.value))
  {
    StopRejectedKeepsState(card, op, now, tokens);
    BankedTwice(op, StopOp(card, op, now, tokens).op, now, later);
  }

  /** A running operation that has banked its interval but still runs from the same start. */
  lemma BankedTwice(op: RouteOp, res: RouteOp, now: nat, later: nat)
    requires HasStatus(op, InProgress) && Truthy(op.startedAt)
    requires res.status == op.status && res.startedAt == op.startedAt
    requires res.elapsedMs == FlushRunning(op, now).elapsedMs
    ensures ElapsedMs(res, now) == ElapsedMs(op, now) + (now - op.startedAt.value)
    ensures PauseOp(res, later).elapsedMs ==
      Some(op.elapsedMs.GetOr(0) + (later - op.startedAt.value) + (now - op.startedAt.value))
  {
    assert res.elapsedMs == Some(op.elapsedMs.GetOr(0) + (now - op.startedAt.value));
  }

  /**
   * The refused stop on concrete numbers: an operation of 5 pieces with none
   * counted, running since 1000 and with nothing banked, stopped at 2000 and
   * paused at 3000, reports 3000 ms although it ran for 2000.
   */
  lemma RejectedStopExample(card: Card, op: RouteOp, tokens: nat -> string)
    requires !card.useItemList && op.quantity == Some(5) && op.good == 0 && op.scrap == 0 && op.hold == 0
    requires op.status == Some(InProgress) && op.startedAt == Some(1000) && op.elapsedMs == Some(0)
    ensures StopOp(card, op, 2000, tokens) == Rejected(QuantityMismatch, op.(elapsedMs := Some(1000)))
    ensures PauseOp(StopOp(card, op, 2000, tokens).op, 3000).elapsedMs == Some(3000)
  {
    assert FlushRunning(op, 2000) == op.(elapsedMs := Some(1000));
    RejectedStopDoubleCounts(card, op, 2000, 3000, tokens);
  }

  /**
   * `stop` with the refusal made harmless: when the stop is refused the
   * operation is left exactly as it was, so the running interval is banked
   * only once, by whichever pause or stop finally goes through.
   */
  function StopOpFixed(card: Card, op: RouteOp, now: nat, tokens: nat -> string): (res: Outcome)
    ensures res.Rejected? ==> res.op == op
    ensures res.Rejected? <==> StopOp(card, op, now, tokens).Rejected?
    ensures res.Applied? ==> res == StopOp(card, op, now, tokens)
  {
    var asWritten := StopOp(card, op, now, tokens);
    if asWritten.Rejected? then Rejected(asWritten.reason, op) else asWritten
  }

  /** With the fix, no outcome of a stop changes what the projection shows at that moment. */
  lemma StopFixedPreservesElapsed(card: Card, op: RouteOp, now: nat, tokens: nat -> string)
    ensures ElapsedMs(StopOpFixed(card, op, now, tokens).op, now) == ElapsedMs(op, now)
  {
    if StopOp(card, op, now, tokens).Applied? {
      StopAppliedFinishes(card, op, now, tokens);
    }
  }
}
