/**
 * Copying a route card: `buildCardCopy` makes a fresh, unstarted card from a
 * template, and `duplicateCard` recomputes its status, cleans it, takes its
 * initial snapshot and logs the copy. The barcode that `buildCardCopy`
 * draws from `generateUniqueEAN13` is passed in; the caller draws it.
 */
module CardCopy {
  import opened Records
  import opened RouteOrder
  import opened Ledger
  import opened CardStatus
  import opened AuditLog

  /** An item of a copied operation: new id, no counts, and a quantity of at least 1. */
  function CopyItem(item: Item, token: string): (res: Item)
    ensures res.id == GenId("item", token) && res.name == item.name
    ensures res.good == 0 && res.scrap == 0 && res.hold == 0
    ensures res.quantity.Some? && res.quantity.value >= 1
    ensures item.quantity.Some? && item.quantity.value >= 1 ==> res.quantity == item.quantity
  {
    var q := ToSafeCount(item.quantity.GetOr(0));
    item.(id := GenId("item", token), good := 0, scrap := 0, hold := 0, quantity := Some(if q == 0 then 1 else q))
  }

  function CopyItems(items: seq<Item>, itemTokens: nat -> string): (res: seq<Item>)
    ensures |res| == |items|
    ensures forall k :: 0 <= k < |items| ==> res[k] == CopyItem(items[k], itemTokens(k))
  {
    seq(|items|, k requires 0 <= k < |items| => CopyItem(items[k], itemTokens(k)))
  }

  /**
   * An operation of the copy: new id, not started, no running or finished
   * time, no result and no comment. The first start and last pause times
   * are carried over from the template.
   */
  function CopyOp(op: RouteOp, token: string, itemTokens: nat -> string): (res: RouteOp)
    ensures res.id == GenId("rop", token)
    ensures res.status == Some(NotStarted) && res.startedAt.None? && res.finishedAt.None?
    ensures res.elapsedMs == Some(0) && res.actualMs.None? && res.comment == ""
    ensures res.good == 0 && res.scrap == 0 && res.hold == 0
    ensures res.firstStartedAt == op.firstStartedAt && res.lastPausedAt == op.lastPausedAt
    ensures res.order == op.order && res.autoCode == op.autoCode && res.opId == op.opId
    ensures |res.items| == |op.items|
    ensures forall k :: 0 <= k < |res.items| ==> res.items[k].good == 0 && res.items[k].scrap == 0 && res.items[k].hold == 0
  {
    op.(id := GenId("rop", token), status := Some(NotStarted), startedAt := None, finishedAt := None,
        elapsedMs := Some(0), actualMs := None, comment := "", good := 0, scrap := 0, hold := 0,
        items := CopyItems(op.items, itemTokens))
  }

  function CopyOps(ops: seq<RouteOp>, opTokens: nat -> string, itemTokens: (nat, nat) -> string): (res: seq<RouteOp>)
    ensures |res| == |ops|
    ensures forall i :: 0 <= i < |ops| ==> res[i] == CopyOp(ops[i], opTokens(i), (k: nat) => itemTokens(i, k))
  {
    seq(|ops|, i requires 0 <= i < |ops| => CopyOp(ops[i], opTokens(i), (k: nat) => itemTokens(i, k)))
  }

  /** The attachments of the copy: new ids, stamped now. */
  function CopyAttachments(files: seq<Attachment>, now: nat, fileTokens: nat -> string): (res: seq<Attachment>)
    ensures |res| == |files|
    ensures forall i :: 0 <= i < |files| ==>
      res[i] == files[i].(id := GenId("file", fileTokens(i)), createdAt := Some(now))
  {
    seq(|files|, i requires 0 <= i < |files| => files[i].(id := GenId("file", fileTokens(i)), createdAt := Some(now)))
  }

  /** A route operation that has never run in the copy. */
  predicate Fresh(op: RouteOp) {
    && op.status == Some(NotStarted) && op.startedAt.None? && op.finishedAt.None?
    && op.elapsedMs == Some(0) && op.actualMs.None? && op.comment == ""
    && op.good == 0 && op.scrap == 0 && op.hold == 0
    && forall k :: 0 <= k < |op.items| ==> op.items[k].good == 0 && op.items[k].scrap == 0 && op.items[k].hold == 0
  }

  /**
   * `buildCardCopy`: a new card with its own id and the given barcode,
   * unstarted, unarchived, with an empty log and no snapshot, holding a
   * fresh copy of every operation in the same array order, automatic step
   * codes renumbered.
   */
  function BuildCardCopy(template: Card, barcode: string, nameOverride: string, groupId: Option<string>, now: nat,
                         cardToken: string, fileTokens: nat -> string, opTokens: nat -> string,
                         itemTokens: (nat, nat) -> string): (copy: Card)
    ensures copy.id == GenId("card", cardToken) && copy.barcode == barcode
    ensures copy.name == if nameOverride != "" then nameOverride else template.name
    ensures copy.groupId == groupId && !copy.isGroup
    ensures copy.status == NotStarted && !copy.archived && copy.logs == [] && copy.initialSnapshot.None?
    ensures copy.createdAt == Some(now) && copy.useItemList == template.useItemList
    ensures copy.quantity == template.quantity && |copy.attachments| == |template.attachments|
    ensures |copy.operations| == |template.operations|
    ensures forall i :: 0 <= i < |copy.operations| ==>
      && Fresh(copy.operations[i])
      && copy.operations[i].id == GenId("rop", opTokens(i))
      && copy.operations[i].order == template.operations[i].order
      && copy.operations[i].firstStartedAt == template.operations[i].firstStartedAt
      && copy.operations[i].lastPausedAt == template.operations[i].lastPausedAt
      && |copy.operations[i].items| == |template.operations[i].items|
  {
    var copied := CopyOps(template.operations, opTokens, itemTokens);
    var ops := Renumbered(copied);
    forall i | 0 <= i < |ops|
      ensures Fresh(ops[i]) && ops[i] == copied[i].(opCode := ops[i].opCode)
    {
      RenumberedAt(copied, i);
    }
    template.(id := GenId("card", cardToken),
              barcode := barcode,
              name := if nameOverride != "" then nameOverride else template.name,
              groupId := groupId,
              isGroup := false,
              status := NotStarted,
              archived := false,
              logs := [],
              createdAt := Some(now),
              initialSnapshot := None,
              attachments := CopyAttachments(template.attachments, now, fileTokens),
              operations := ops)
  }

  /** A card whose operations have all never run has status NOT_STARTED. */
  lemma FreshOpsNotStarted(card: Card, cards: seq<Card>)
    requires !card.isGroup
    requires forall i :: 0 <= i < |card.operations| ==> Fresh(card.operations[i])
    ensures RecalcCardStatus(card, cards).status == NotStarted
  {
    OpsStatusFacts(card.operations);
    if |card.operations| > 0 {
      assert !HasStatus(card.operations[0], Done);
    }
  }

  /** The log request `duplicateCard` records: old and new barcodes. */
  function CopyLogRequest(original: Card, copy: Card): LogRequest {
    LogRequest("Создание копии", "Карта", None, None, Str(original.barcode), Str(copy.barcode))
  }

  /**
   * `duplicateCard` once the barcode is drawn: the copy named "<name>
   * (копия)", its status recomputed, `ensureCardMeta`, and one log entry.
   * The snapshot `ensureCardMeta` takes makes the source's own fallback
   * snapshot dead code.
   */
  function DuplicateOf(original: Card, cards: seq<Card>, barcode: string, now: nat, cardToken: string,
                       fileTokens: nat -> string, opTokens: nat -> string, itemTokens: (nat, nat) -> string,
                       tokens: nat -> string, logToken: string): Card
  {
    var copy := BuildCardCopy(original, barcode, original.name + " (копия)", None, now,
                              cardToken, fileTokens, opTokens, itemTokens);
    var met := EnsureCardMeta(RecalcCardStatus(copy, cards), now, tokens);
    RecordCardLog(met, CopyLogRequest(original, copy), now, tokens, logToken)
  }

  /**
   * The duplicate is an unstarted card with the copy's barcode, a single
   * log entry recording the old and the new barcode, and an initial
   * snapshot holding its fresh operations with an empty log.
   */
  lemma DuplicateFacts(original: Card, cards: seq<Card>, barcode: string, now: nat, cardToken: string,
                       fileTokens: nat -> string, opTokens: nat -> string, itemTokens: (nat, nat) -> string,
                       tokens: nat -> string, logToken: string)
    ensures var dup := DuplicateOf(original, cards, barcode, now, cardToken, fileTokens, opTokens, itemTokens, tokens, logToken);
      && dup.id == GenId("card", cardToken) && dup.barcode == barcode
      && dup.name == original.name + " (копия)"
      && dup.status == NotStarted && !dup.archived && dup.groupId.None?
      && |dup.logs| == 1 && dup.logs[0].action == "Создание копии"
      && dup.logs[0].oldValue == original.barcode && dup.logs[0].newValue == barcode
      && dup.initialSnapshot.Some? && dup.initialSnapshot.value.logs == []
      && |dup.initialSnapshot.value.operations| == |original.operations|
      && (forall i :: 0 <= i < |original.operations| ==> Fresh(dup.initialSnapshot.value.operations[i]))
  {
    var copy := BuildCardCopy(original, barcode, original.name + " (копия)", None, now,
                              cardToken, fileTokens, opTokens, itemTokens);
    FreshOpsNotStarted(copy, cards);
    var recalced := RecalcCardStatus(copy, cards);
    var met := EnsureCardMeta(recalced, now, tokens);
    assert met.status == NotStarted;
    var dup := RecordCardLog(met, CopyLogRequest(original, copy), now, tokens, logToken);
    assert dup.logs == [LogEntryOf(CopyLogRequest(original, copy), now, logToken)];
  }
}
