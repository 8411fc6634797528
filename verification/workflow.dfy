/**
 * The browser's card workflow as values: what one operation action does to
 * the card it belongs to (the operation update, the recomputed card status
 * and the log entries written in order), and what saving a card draft makes
 * of the draft, for a new card and for an edit of a stored one.
 */
module Workflow {
  import opened Records
  import opened RouteOrder
  import opened Ledger
  import opened OperationMachine
  import opened CardStatus
  import opened AuditLog

  /** `cards.find(c => c.id === id)` as a position: the first card with that id. */
  function FindCard(cards: seq<Card>, id: string): (r: Option<nat>)
    ensures r.Some? ==> r.value < |cards| && cards[r.value].id == id
    ensures r.Some? ==> forall k :: 0 <= k < r.value ==> cards[k].id != id
    ensures r.None? ==> forall k :: 0 <= k < |cards| ==> cards[k].id != id
  {
    if cards == [] then None
    else if cards[0].id == id then Some(0)
    else
      var rest := FindCard(cards[1..], id);
      assert forall k :: 1 <= k < |cards| ==> cards[k] == cards[1..][k - 1];
      if rest.None? then None else Some(rest.value + 1)
  }

  /** The card with operation `oi` replaced, as the in-place update of `op` leaves it. */
  function WithOp(card: Card, oi: nat, op: RouteOp): (res: Card)
    requires oi < |card.operations|
    ensures |res.operations| == |card.operations| && res.operations[oi] == op
    ensures forall k :: 0 <= k < |card.operations| && k != oi ==> res.operations[k] == card.operations[k]
    ensures res == card.(operations := res.operations)
  {
    card.(operations := card.operations[oi := op])
  }

  /** `Math.round(ms / 1000)`: the nearest whole second, halves rounded up. */
  function RoundSeconds(ms: int): (s: int)
    ensures s * 1000 - 500 <= ms < s * 1000 + 500
  {
    (ms + 500) / 1000
  }

  /** How a stored status is written into the log: its name, or nothing when it is missing. */
  function StatusText(s: Option<Status>): string {
    if s.Some? then StatusName(s.value) else ""
  }

  /** The status of an operation as the JavaScript value passed to `recordCardLog`. */
  function StatusValue(s: Option<Status>): (v: JsValue)
    ensures FormatLogValue(v) == StatusText(s)
  {
    if s.Some? then Str(StatusName(s.value)) else Undefined
  }

  /**
   * The entries `applyOperationAction` asks for, in order: the operation's
   * status when it changed; its actual time when the operation is DONE and
   * its elapsed time differs from the one before (a missing one counts as
   * different), labelled with the operation as the first entry's clean-up
   * left it when that entry was written; and the card's status when it
   * changed.
   */
  function ActionLogRequests(before: RouteOp, after: RouteOp, cleaned: RouteOp, cardBefore: Status, cardAfter: Status)
    : (reqs: seq<LogRequest>)
    ensures |reqs| <= 3
    ensures before.status != after.status ==>
      |reqs| >= 1 && reqs[0] == LogRequest("Статус операции", OpLogLabel(after), Some("status"), Some(after.id),
                                           StatusValue(before.status), StatusValue(after.status))
    ensures before.status == after.status ==> |reqs| == 0 || reqs[0].action != "Статус операции"
    ensures cardBefore != cardAfter ==>
      |reqs| >= 1 && reqs[|reqs| - 1] == LogRequest("Статус карты", "Карта", Some("status"), None,
                                                    Str(StatusName(cardBefore)), Str(StatusName(cardAfter)))
    ensures cardBefore == cardAfter ==> |reqs| == 0 || reqs[|reqs| - 1].action != "Статус карты"
    ensures |reqs| == 0 <==>
      before.status == after.status && cardBefore == cardAfter
      && !(after.status == Some(Done) && Some(before.elapsedMs.GetOr(0)) != after.elapsedMs)
  {
    var prevElapsed := before.elapsedMs.GetOr(0);
    var statusLog :=
      if before.status != after.status then
        [LogRequest("Статус операции", OpLogLabel(after), Some("status"), Some(after.id),
                    StatusValue(before.status), StatusValue(after.status))]
      else [];
    var timeLog :=
      if Some(prevElapsed) != after.elapsedMs && after.status == Some(Done) then
        [LogRequest("Факт. время", OpLogLabel(if |statusLog| > 0 then cleaned else after), Some("elapsedSeconds"),
                    Some(after.id), Num(RoundSeconds(prevElapsed)), Num(RoundSeconds(after.elapsedMs.GetOr(0))))]
      else [];
    var cardLog :=
      if cardBefore != cardAfter then
        [LogRequest("Статус карты", "Карта", Some("status"), None, Str(StatusName(cardBefore)), Str(StatusName(cardAfter)))]
      else [];
    statusLog + timeLog + cardLog
  }

  /** The card after the operation update, with its status recomputed among the stored cards. */
  function Recalced(cards: seq<Card>, ci: nat, oi: nat, op: RouteOp): (res: Card)
    requires ci < |cards| && oi < |cards[ci].operations|
    ensures res == WithOp(cards[ci], oi, op).(status := res.status)
  {
    var updated := WithOp(cards[ci], oi, op);
    RecalcCardStatus(updated, cards[ci := updated])
  }

  /** The entries an applied action on operation `oi` of card `ci` asks for. */
  function AppliedRequests(cards: seq<Card>, ci: nat, oi: nat, op: RouteOp, now: nat, tokens: nat -> string)
    : seq<LogRequest>
    requires ci < |cards| && oi < |cards[ci].operations|
  {
    var recalced := Recalced(cards, ci, oi, op);
    ActionLogRequests(cards[ci].operations[oi], op, EnsureCardMeta(recalced, now, tokens).operations[oi],
                      cards[ci].status, recalced.status)
  }

  /**
   * An applied action on operation `oi` of card `ci`: the operation is
   * replaced, the card status recomputed, and each requested entry recorded;
   * the first entry also runs `ensureCardMeta` on the card.
   */
  function AppliedCard(cards: seq<Card>, ci: nat, oi: nat, op: RouteOp, now: nat,
                       tokens: nat -> string, logTokens: nat -> string): (res: Card)
    requires ci < |cards| && oi < |cards[ci].operations|
    ensures res.logs == cards[ci].logs + LogEntries(AppliedRequests(cards, ci, oi, op, now, tokens), now, logTokens)
    ensures cards[ci].logs <= res.logs && |res.logs| <= |cards[ci].logs| + 3
    ensures res.status == Recalced(cards, ci, oi, op).status && res.id == cards[ci].id
    ensures |res.logs| == |cards[ci].logs| ==> res == Recalced(cards, ci, oi, op)
  {
    var recalced := Recalced(cards, ci, oi, op);
    var reqs := AppliedRequests(cards, ci, oi, op, now, tokens);
    if |reqs| == 0 then recalced
    else EnsureCardMeta(recalced, now, tokens).(logs := recalced.logs + LogEntries(reqs, now, logTokens))
  }

  /** A changed operation status is the first new entry, with the old and new status names. */
  lemma OpStatusChangeLogged(cards: seq<Card>, ci: nat, oi: nat, op: RouteOp, now: nat,
                             tokens: nat -> string, logTokens: nat -> string)
    requires ci < |cards| && oi < |cards[ci].operations|
    requires cards[ci].operations[oi].status != op.status
    ensures var res := AppliedCard(cards, ci, oi, op, now, tokens, logTokens);
      var n := |cards[ci].logs|;
      && |res.logs| > n
      && res.logs[n].action == "Статус операции" && res.logs[n].field == Some("status")
      && res.logs[n].targetId == Some(op.id) && res.logs[n].objectLabel == OpLogLabel(op)
      && res.logs[n].oldValue == StatusText(cards[ci].operations[oi].status)
      && res.logs[n].newValue == StatusText(op.status)
  {
    var reqs := AppliedRequests(cards, ci, oi, op, now, tokens);
    var res := AppliedCard(cards, ci, oi, op, now, tokens, logTokens);
    assert res.logs[|cards[ci].logs|] == LogEntryOf(reqs[0], now, logTokens(0));
  }

  /** A changed card status is the last new entry, with the old and new status names. */
  lemma CardStatusChangeLogged(cards: seq<Card>, ci: nat, oi: nat, op: RouteOp, now: nat,
                               tokens: nat -> string, logTokens: nat -> string)
    requires ci < |cards| && oi < |cards[ci].operations|
    requires cards[ci].status != Recalced(cards, ci, oi, op).status
    ensures var res := AppliedCard(cards, ci, oi, op, now, tokens, logTokens);
      && |res.logs| > |cards[ci].logs|
      && res.logs[|res.logs| - 1].action == "Статус карты" && res.logs[|res.logs| - 1].targetId.None?
      && res.logs[|res.logs| - 1].oldValue == StatusName(cards[ci].status)
      && res.logs[|res.logs| - 1].newValue == StatusName(res.status)
  {
    var reqs := AppliedRequests(cards, ci, oi, op, now, tokens);
    LastEntryLogged(cards[ci].logs, reqs, now, logTokens);
  }

  /** The last request becomes the last entry of the log. */
  lemma LastEntryLogged(logs: seq<LogEntry>, reqs: seq<LogRequest>, now: nat, logTokens: nat -> string)
    requires |reqs| > 0
    ensures var l := logs + LogEntries(reqs, now, logTokens);
      |l| > |logs| && l[|l| - 1] == LogEntryOf(reqs[|reqs| - 1], now, logTokens(|reqs| - 1))
  {
  }

  /**
   * An action that leaves the operation as it was, on a card whose stored
   * status is already the recomputed one, changes nothing and logs nothing,
   * unless the operation is DONE without an elapsed time.
   */
  lemma UnchangedActionLogsNothing(cards: seq<Card>, ci: nat, oi: nat, now: nat,
                                   tokens: nat -> string, logTokens: nat -> string)
    requires ci < |cards| && oi < |cards[ci].operations|
    requires cards[ci].status == RecalcCardStatus(cards[ci], cards).status
    requires !(HasStatus(cards[ci].operations[oi], Done) && cards[ci].operations[oi].elapsedMs.None?)
    ensures AppliedCard(cards, ci, oi, cards[ci].operations[oi], now, tokens, logTokens) == cards[ci]
  {
    var card := cards[ci];
    assert WithOp(card, oi, card.operations[oi]) == card;
    assert cards[ci := card] == cards;
  }

  /** Pausing an operation that is not running changes nothing on a card whose status is current. */
  lemma PauseIdleLogsNothing(cards: seq<Card>, ci: nat, oi: nat, now: nat,
                             tokens: nat -> string, logTokens: nat -> string)
    requires ci < |cards| && oi < |cards[ci].operations|
    requires cards[ci].status == RecalcCardStatus(cards[ci], cards).status
    requires cards[ci].operations[oi].status == Some(NotStarted) || cards[ci].operations[oi].status == Some(Paused)
    ensures AppliedCard(cards, ci, oi, PauseOp(cards[ci].operations[oi], now), now, tokens, logTokens) == cards[ci]
  {
    UnchangedActionLogsNothing(cards, ci, oi, now, tokens, logTokens);
  }

  /** Starting any operation of a card that is not a group makes the card IN_PROGRESS. */
  lemma StartMakesCardInProgress(cards: seq<Card>, ci: nat, oi: nat, now: nat,
                                 tokens: nat -> string, logTokens: nat -> string)
    requires ci < |cards| && oi < |cards[ci].operations| && !cards[ci].isGroup
    ensures AppliedCard(cards, ci, oi, StartOp(cards[ci].operations[oi], now), now, tokens, logTokens).status == InProgress
  {
    var updated := WithOp(cards[ci], oi, StartOp(cards[ci].operations[oi], now));
    assert HasStatus(updated.operations[oi], InProgress);
    assert HasActive(updated.operations);
  }

  /** The card after the action's outcome on operation `oi`: refused, the operation alone is replaced. */
  function OutcomeCard(cards: seq<Card>, ci: nat, oi: nat, out: Outcome, now: nat,
                       tokens: nat -> string, logTokens: nat -> string): (res: Card)
    requires ci < |cards| && oi < |cards[ci].operations|
    ensures cards[ci].logs <= res.logs
    ensures res.id == cards[ci].id
    ensures out.Rejected? ==> res == WithOp(cards[ci], oi, out.op)
  {
    if out.Rejected? then
      WithOp(cards[ci], oi, out.op)
    else AppliedCard(cards, ci, oi, out.op, now, tokens, logTokens)
  }

  /**
   * `applyOperationAction` on the stored cards: a missing card or operation
   * changes nothing; a refused stop keeps the operation as the refusal left
   * it and touches nothing else; an applied action yields `AppliedCard`.
   */
  function ActionResult(cards: seq<Card>, action: Action, cardId: string, opId: string, now: nat,
                        tokens: nat -> string, logTokens: nat -> string): (r: (seq<Card>, Option<Rejection>))
    ensures |r.0| == |cards|
    ensures forall j :: 0 <= j < |cards| && cards[j].id != cardId ==> r.0[j] == cards[j]
    ensures forall j :: 0 <= j < |cards| ==> cards[j].logs <= r.0[j].logs
    ensures r.1.Some? ==> action == Stop
    ensures r.1.Some? ==> forall j :: 0 <= j < |cards| ==>
      r.0[j].logs == cards[j].logs && r.0[j].status == cards[j].status && |r.0[j].operations| == |cards[j].operations|
  {
    var ci := FindCard(cards, cardId);
    if ci.None? then
      (cards, None)
    else
      var oi := FindById(cards[ci.value].operations, opId);
      if oi.None? then
        (cards, None)
      else
        var out := ApplyToOp(action, cards[ci.value], cards[ci.value].operations[oi.value], now, tokens);
        var card' := OutcomeCard(cards, ci.value, oi.value, out, now, tokens, logTokens);
        var cards' := cards[ci.value := card'];
        (cards', if out.Rejected? then Some(out.reason) else None)
  }

  /** A draft item: its id kept or drawn, its name, a quantity of 1 and clamped counters. */
  function DraftItem(item: Item, token: string): (res: Item)
    ensures res.id != "" && (item.id != "" ==> res.id == item.id) && res.name == item.name
    ensures res.quantity == Some(1) && ItemCounts(res) == ItemCounts(item)
    ensures res.good >= 0 && res.scrap >= 0 && res.hold >= 0
  {
    Item(if item.id != "" then item.id else GenId("item", token), item.name, Some(1),
         ToSafeCount(item.good), ToSafeCount(item.scrap), ToSafeCount(item.hold))
  }

  function DraftItems(items: seq<Item>, itemTokens: nat -> string): (res: seq<Item>)
    ensures |res| == |items|
    ensures forall k :: 0 <= k < |items| ==> res[k] == DraftItem(items[k], itemTokens(k))
  {
    seq(|items|, k requires 0 <= k < |items| => DraftItem(items[k], itemTokens(k)))
  }

  /**
   * A draft operation as `saveCardDraft` maps it: a missing order becomes
   * its 1-based position, counters are clamped, the quantity resolved,
   * at most two additional executors kept, and every item rebuilt.
   */
  function DraftOp(op: RouteOp, idx: nat, draft: Card, itemTokens: nat -> string): (res: RouteOp)
    ensures res.id == op.id && res.status == op.status && res.elapsedMs == op.elapsedMs
    ensures res.order == if op.order.Some? then op.order else Some(idx + 1)
    ensures res.good >= 0 && res.scrap >= 0 && res.hold >= 0 && |res.additionalExecutors| <= 2
    ensures OpCounts(res) == OpCounts(op)
    ensures |res.items| == |op.items|
    ensures forall k :: 0 <= k < |op.items| ==> res.items[k].quantity == Some(1) && res.items[k].id != ""
  {
    PrepareOp(op, draft).(order := if op.order.Some? then op.order else Some(idx + 1),
                          items := DraftItems(op.items, itemTokens))
  }

  function DraftOps(draft: Card, itemTokens: (nat, nat) -> string): (res: seq<RouteOp>)
    ensures |res| == |draft.operations|
    ensures forall i :: 0 <= i < |res| ==> res[i] == DraftOp(draft.operations[i], i, draft, (k: nat) => itemTokens(i, k))
  {
    seq(|draft.operations|, i requires 0 <= i < |draft.operations| =>
      DraftOp(draft.operations[i], i, draft, (k: nat) => itemTokens(i, k)))
  }

  /**
   * The draft before it is stored: its operations mapped, the automatic step
   * codes renumbered and the status recomputed; every operation keeps its
   * id and ends with an order and clamped counters.
   */
  function PreparedDraft(draft: Card, cards: seq<Card>, itemTokens: (nat, nat) -> string): (res: Card)
    ensures res == draft.(operations := res.operations, status := res.status)
    ensures |res.operations| == |draft.operations|
    ensures forall i :: 0 <= i < |res.operations| ==>
      && res.operations[i].id == draft.operations[i].id
      && res.operations[i].order == (if draft.operations[i].order.Some? then draft.operations[i].order else Some(i + 1))
      && res.operations[i].good >= 0 && res.operations[i].scrap >= 0 && res.operations[i].hold >= 0
      && |res.operations[i].items| == |draft.operations[i].items|
    ensures !draft.isGroup ==> (res.status == InProgress <==> HasActive(res.operations))
    ensures !draft.isGroup ==> (res.status == Done <==> AllDone(res.operations))
  {
    var mapped := DraftOps(draft, itemTokens);
    var ops := Renumbered(mapped);
    forall i | 0 <= i < |ops|
      ensures ops[i] == mapped[i].(opCode := ops[i].opCode)
    {
      RenumberedAt(mapped, i);
    }
    RecalcCardStatus(draft.(operations := ops), cards)
  }

  /** The entry a new card gets: its name, or its barcode when it has no name. */
  function CreationRequest(card: Card): LogRequest {
    LogRequest("Создание карты", "Карта", None, None, Str(""), Str(if card.name != "" then card.name else card.barcode))
  }

  /**
   * A new card as `saveCardDraft` stores it: the prepared draft through
   * `ensureCardMeta` with one creation entry after its own log.
   */
  function NewCardSaved(draft: Card, cards: seq<Card>, now: nat, tokens: nat -> string,
                        itemTokens: (nat, nat) -> string, logToken: string): (res: Card)
    ensures res.id == draft.id && res.createdAt.Some? && res.initialSnapshot.Some?
    ensures draft.initialSnapshot.None? ==> res.initialSnapshot.value.logs == []
    ensures res.status == PreparedDraft(draft, cards, itemTokens).status
    ensures |res.logs| == |draft.logs| + 1 && draft.logs <= res.logs
    ensures res.logs[|draft.logs|].action == "Создание карты" && res.logs[|draft.logs|].oldValue == ""
    ensures res.logs[|draft.logs|].newValue == if draft.name != "" then draft.name else draft.barcode
  {
    var p := PreparedDraft(draft, cards, itemTokens);
    var met := EnsureCardMeta(p, now, tokens);
    EnsureCardMetaKeeps(p, now, tokens);
    EnsureCardMetaKeeps(met, now, tokens);
    RecordCardLog(met, CreationRequest(p), now, tokens, logToken)
  }

  /**
   * The edited draft before the comparison: both the stored card and the
   * draft through `ensureCardMeta`, then the stored card's creation time (when
   * it is truthy), initial snapshot and log carried over. The result is
   * left as it is by a further `ensureCardMeta`.
   */
  function MergedDraft(original: Card, prepared: Card, now: nat, tokens: nat -> string): (res: Card)
    ensures res.logs == original.logs
    ensures original.initialSnapshot.Some? ==> res.initialSnapshot == original.initialSnapshot
    ensures Truthy(original.createdAt) ==> res.createdAt == original.createdAt
    ensures res.operations == EnsureCardMeta(prepared, now, tokens).operations
    ensures res.id == prepared.id && res.status == prepared.status
    ensures res == EnsureCardMeta(res, now, tokens)
  {
    var o := EnsureCardMeta(original, now, tokens);
    var d := EnsureCardMeta(prepared, now, tokens);
    EnsureCardMetaIdempotent(prepared, now, now, tokens);
    // the stored card has a snapshot after its clean-up, so `||` always picks it
    var res := d.(createdAt := if Truthy(o.createdAt) then o.createdAt else d.createdAt,
                  initialSnapshot := o.initialSnapshot,
                  logs := o.logs);
    StaysClean(d, res, now, tokens);
    res
  }

  /**
   * An edited card as `saveCardDraft` stores it: the merged draft with one
   * entry per difference from the cleaned stored card after the stored log.
   * The stored history survives the edit.
   */
  function EditedCard(original: Card, draft: Card, cards: seq<Card>, now: nat, tokens: nat -> string,
                      itemTokens: (nat, nat) -> string, logTokens: nat -> string): (res: Card)
    ensures original.logs <= res.logs
    ensures original.initialSnapshot.Some? ==> res.initialSnapshot == original.initialSnapshot
    ensures Truthy(original.createdAt) ==> res.createdAt == original.createdAt
    ensures res.id == draft.id && res.status == PreparedDraft(draft, cards, itemTokens).status
    ensures |res.operations| == |draft.operations|
  {
    var p := PreparedDraft(draft, cards, itemTokens);
    var m := MergedDraft(original, p, now, tokens);
    var res := m.(logs := m.logs + LogEntries(Differences(EnsureCardMeta(original, now, tokens), m), now, logTokens));
    res
  }
}
