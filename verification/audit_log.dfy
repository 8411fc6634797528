/**
 * The card audit trail: how values are written into log entries, the
 * metadata every card gets before its first entry (creation time, the
 * initial snapshot, normalized operations and renumbered step codes), the
 * append-only log itself, and the structural comparison that turns an edit
 * of a card into log entries.
 */
module AuditLog {
  import opened Records
  import opened Decimal
  import opened RouteOrder
  import opened Ledger

  /** The JavaScript values that reach `formatLogValue`; `Json` is an object already serialized. */
  datatype JsValue = Undefined | Null | Bool(b: bool) | Num(n: int) | Str(s: string) | Json(text: string)

  /** `formatLogValue`: nothing for null and undefined, strings as they are, numbers and booleans as text. */
  function FormatLogValue(v: JsValue): (r: string)
    ensures v.Undefined? || v.Null? ==> r == ""
    ensures v.Str? ==> r == v.s
    ensures v.Bool? ==> r == (if v.b then "true" else "false")
  {
    match v
    case Undefined => ""
    case Null => ""
    case Str(s) => s
    case Num(n) => IntToString(n)
    case Bool(b) => if b then "true" else "false"
    case Json(text) => text
  }

  /** A logged count reads back as the same number. */
  lemma FormatLogValueCount(n: nat)
    ensures AllDigits(FormatLogValue(Num(n))) && ValueOf(FormatLogValue(Num(n))) == n
  {
    NatToStringValue(n);
  }

  /** `formatOpLabel`: `[code] name`, or the name alone when there is no code. */
  function OpLabel(op: RouteOp): (r: string)
    ensures op.opCode != "" ==> r == "[" + op.opCode + "] " + op.opName
    ensures op.opCode == "" ==> r == op.opName
  {
    if op.opCode != "" then "[" + op.opCode + "] " + op.opName else op.opName
  }

  /** `opLogLabel`: the operation's opLabel, or «Операция» when it has none. */
  function OpLogLabel(op: RouteOp): (r: string)
    ensures r != ""
    ensures OpLabel(op) != "" ==> r == OpLabel(op)
  {
    if OpLabel(op) != "" then OpLabel(op) else "Операция"
  }

  /** `slice(0, 2)`. */
  function TakeTwo(xs: seq<string>): (r: seq<string>)
    ensures |r| <= 2 && |r| <= |xs| && r == xs[..|r|]
    ensures |xs| <= 2 ==> r == xs
  {
    if |xs| <= 2 then xs else xs[..2]
  }

  /** The per-operation clean-up of `ensureCardMeta` before the items are normalized. */
  function PrepareOp(op: RouteOp, card: Card): (res: RouteOp)
    ensures res.good >= 0 && res.scrap >= 0 && res.hold >= 0
    ensures |res.additionalExecutors| <= 2
  {
    op.(good := ToSafeCount(op.good),
        scrap := ToSafeCount(op.scrap),
        hold := ToSafeCount(op.hold),
        quantity := AsField(OperationQuantity(op, card)),
        additionalExecutors := TakeTwo(op.additionalExecutors))
  }

  function MetaOp(op: RouteOp, card: Card, tokens: nat -> string): RouteOp {
    NormalizedOp(card, PrepareOp(op, card), tokens)
  }

  function MetaOps(ops: seq<RouteOp>, card: Card, tokens: nat -> string): (res: seq<RouteOp>)
    ensures |res| == |ops|
    ensures forall i :: 0 <= i < |ops| ==> res[i] == MetaOp(ops[i], card, tokens)
  {
    seq(|ops|, i requires 0 <= i < |ops| => MetaOp(ops[i], card, tokens))
  }

  /** The card-level part of `ensureCardMeta`: creation time, then the snapshot. */
  function WithSnapshot(card: Card, now: nat): (res: Card)
    ensures res.createdAt.Some? && res.initialSnapshot.Some?
    ensures card.createdAt.Some? ==> res.createdAt == card.createdAt
    ensures card.initialSnapshot.Some? ==> res.initialSnapshot == card.initialSnapshot
    ensures card.initialSnapshot.None? ==>
      res.initialSnapshot == Some(res.(initialSnapshot := None, logs := []))
    ensures res == card.(createdAt := res.createdAt, initialSnapshot := res.initialSnapshot)
  {
    var stamped := card.(createdAt := if card.createdAt.Some? then card.createdAt else Some(now));
    if stamped.initialSnapshot.None? then stamped.(initialSnapshot := Some(stamped.(logs := [])))
    else stamped
  }

  /**
   * `ensureCardMeta`: stamps a missing creation time, takes the initial
   * snapshot (without logs, before the operations are touched) if there is
   * none, cleans every operation and its items, and renumbers the automatic
   * step codes. The log itself is left alone.
   */
  function EnsureCardMeta(card: Card, now: nat, tokens: nat -> string): (res: Card)
    ensures res.logs == card.logs
    ensures res.createdAt.Some? && res.initialSnapshot.Some?
    ensures card.createdAt.Some? ==> res.createdAt == card.createdAt
    ensures card.initialSnapshot.Some? ==> res.initialSnapshot == card.initialSnapshot
    ensures card.initialSnapshot.None? ==>
      res.initialSnapshot.value.logs == [] && res.initialSnapshot.value.operations == card.operations
    ensures |res.operations| == |card.operations|
    ensures forall i :: 0 <= i < |res.operations| ==>
      res.operations[i].id == card.operations[i].id && res.operations[i].order == card.operations[i].order
      && res.operations[i].good >= 0 && res.operations[i].scrap >= 0 && res.operations[i].hold >= 0
      && |res.operations[i].additionalExecutors| <= 2
  {
    var c := WithSnapshot(card, now);
    var ops := Renumbered(MetaOps(c.operations, c, tokens));
    forall i | 0 <= i < |ops|
      ensures ops[i].id == card.operations[i].id && ops[i].order == card.operations[i].order
      ensures ops[i].good >= 0 && ops[i].scrap >= 0 && ops[i].hold >= 0 && |ops[i].additionalExecutors| <= 2
    {
      RenumberedAt(MetaOps(c.operations, c, tokens), i);
    }
    c.(operations := ops)
  }

  /**
   * What `ensureCardMeta` makes of operation `i`: apart from its step code
   * it is the cleaned operation (counters clamped, quantity resolved,
   * executors cut to two, items normalized); an automatic step gets the
   * code of its rank among the automatic steps in the card's route order,
   * and a manual step keeps its code.
   */
  lemma EnsureCardMetaOps(card: Card, now: nat, tokens: nat -> string, i: nat)
    requires i < |card.operations|
    ensures var op := EnsureCardMeta(card, now, tokens).operations[i];
      && op.(opCode := card.operations[i].opCode) == MetaOp(card.operations[i], card, tokens)
      && op.opCode ==
        if card.operations[i].autoCode then FormatStepCode(AutoIndexAt(card.operations, i)) else card.operations[i].opCode
  {
    var c := WithSnapshot(card, now);
    var metas := MetaOps(c.operations, c, tokens);
    assert EnsureCardMeta(card, now, tokens).operations == Renumbered(metas);
    assert Keys(metas) == Keys(card.operations);
    RenumberedAt(metas, i);
    MetaOpReadsCard(card.operations[i], c, card, tokens);
    AutoIndexSameShape(metas, card.operations, i);
  }

  /** The normalization ignores the step code. */
  lemma NormalizedOpIgnoresCode(card: Card, op: RouteOp, code: string, tokens: nat -> string)
    ensures NormalizedOp(card, op.(opCode := code), tokens) == NormalizedOp(card, op, tokens).(opCode := code)
  {
    var a := NormalizedOp(card, op.(opCode := code), tokens);
    var b := NormalizedOp(card, op, tokens).(opCode := code);
    assert a.items == b.items;
  }

  /** Cleaning an operation a second time changes nothing, whatever step code it got in between. */
  lemma MetaOpStable(op: RouteOp, card: Card, code: string, tokens: nat -> string)
    ensures MetaOp(MetaOp(op, card, tokens).(opCode := code), card, tokens) == MetaOp(op, card, tokens).(opCode := code)
  {
    var prepared := PrepareOp(op, card);
    var once := NormalizedOp(card, prepared, tokens);
    OperationQuantityFixpoint(op, card);
    assert PrepareOp(once.(opCode := code), card) == once.(opCode := code);
    NormalizedOpIgnoresCode(card, once, code, tokens);
    NormalizedOpIdempotent(card, prepared, tokens);
  }

  /** The clean-up of an operation reads only the card's quantity and item-list flag. */
  lemma MetaOpReadsCard(op: RouteOp, c: Card, c': Card, tokens: nat -> string)
    requires c.quantity == c'.quantity && c.useItemList == c'.useItemList
    ensures MetaOp(op, c, tokens) == MetaOp(op, c', tokens)
  {
    assert PrepareOp(op, c) == PrepareOp(op, c');
    var p := PrepareOp(op, c);
    assert OperationQuantity(p, c) == OperationQuantity(p, c');
  }

  /** The operations of a card that has been through `ensureCardMeta` are cleaned already. */
  lemma MetaOpsStable(ops: seq<RouteOp>, c: Card, c': Card, tokens: nat -> string)
    requires c.quantity == c'.quantity && c.useItemList == c'.useItemList
    ensures MetaOps(Renumbered(MetaOps(ops, c, tokens)), c', tokens) == Renumbered(MetaOps(ops, c, tokens))
  {
    var met := MetaOps(ops, c, tokens);
    var once := Renumbered(met);
    var twice := MetaOps(once, c', tokens);
    forall i | 0 <= i < |ops|
      ensures twice[i] == once[i]
    {
      RenumberedAt(met, i);
      assert once[i] == met[i].(opCode := once[i].opCode);
      MetaOpStable(ops[i], c, once[i].opCode, tokens);
      MetaOpReadsCard(once[i], c, c', tokens);
    }
  }

  /** `ensureCardMeta` is idempotent: a card that has been through it is left as it is. */
  lemma EnsureCardMetaIdempotent(card: Card, now: nat, later: nat, tokens: nat -> string)
    ensures EnsureCardMeta(EnsureCardMeta(card, now, tokens), later, tokens) == EnsureCardMeta(card, now, tokens)
  {
    var c := WithSnapshot(card, now);
    var met := MetaOps(c.operations, c, tokens);
    var once := c.(operations := Renumbered(met));
    assert EnsureCardMeta(card, now, tokens) == once;
    var c2 := WithSnapshot(once, later);
    assert c2 == once;
    MetaOpsStable(c.operations, c, c2, tokens);
    RenumberedIdempotent(met);
  }

  /** The operation clean-up reads only the card's quantity and item-list flag. */
  lemma MetaOpsReadCard(ops: seq<RouteOp>, c: Card, c': Card, tokens: nat -> string)
    requires c.quantity == c'.quantity && c.useItemList == c'.useItemList
    ensures MetaOps(ops, c, tokens) == MetaOps(ops, c', tokens)
  {
    forall i | 0 <= i < |ops|
      ensures MetaOp(ops[i], c, tokens) == MetaOp(ops[i], c', tokens)
    {
      MetaOpReadsCard(ops[i], c, c', tokens);
    }
  }

  /**
   * A card `ensureCardMeta` leaves alone still is left alone after an edit
   * of fields it does not read, as long as it keeps a creation time and a
   * snapshot.
   */
  lemma StaysClean(d: Card, res: Card, now: nat, tokens: nat -> string)
    requires d == EnsureCardMeta(d, now, tokens)
    requires res.operations == d.operations && res.quantity == d.quantity && res.useItemList == d.useItemList
    requires res.createdAt.Some? && res.initialSnapshot.Some?
    ensures res == EnsureCardMeta(res, now, tokens)
  {
    assert WithSnapshot(res, now) == res;
    assert WithSnapshot(d, now) == d;
    MetaOpsReadCard(d.operations, d, res, tokens);
  }

  /** What a caller of `recordCardLog` passes. */
  datatype LogRequest = LogRequest(
    action: string,
    objectLabel: string,
    field: Option<string>,
    targetId: Option<string>,
    oldValue: JsValue,
    newValue: JsValue)

  /** The entry `recordCardLog` appends, with its id drawn from `token`. */
  function LogEntryOf(req: LogRequest, now: nat, token: string): (e: LogEntry)
    ensures e.action != "" && e.ts == now
    ensures e.oldValue == FormatLogValue(req.oldValue) && e.newValue == FormatLogValue(req.newValue)
  {
    LogEntry(GenId("log", token), now, if req.action != "" then req.action else "update", req.objectLabel,
      req.field, req.targetId, FormatLogValue(req.oldValue), FormatLogValue(req.newValue))
  }

  /** `recordCardLog`: `ensureCardMeta`, then one entry at the end of the log. */
  function RecordCardLog(card: Card, req: LogRequest, now: nat, tokens: nat -> string, token: string): (res: Card)
    ensures res.logs == card.logs + [LogEntryOf(req, now, token)]
    ensures res == EnsureCardMeta(card, now, tokens).(logs := res.logs)
  {
    var met := EnsureCardMeta(card, now, tokens);
    met.(logs := met.logs + [LogEntryOf(req, now, token)])
  }

  function LogEntries(reqs: seq<LogRequest>, now: nat, logTokens: nat -> string): (es: seq<LogEntry>)
    ensures |es| == |reqs|
    ensures forall k :: 0 <= k < |reqs| ==> es[k] == LogEntryOf(reqs[k], now, logTokens(k))
  {
    seq(|reqs|, k requires 0 <= k < |reqs| => LogEntryOf(reqs[k], now, logTokens(k)))
  }

  /**
   * Several `recordCardLog` calls in a row: the log grows by one entry per
   * request, in order, and the rest of the card is what one `ensureCardMeta`
   * makes of it.
   */
  method RecordAll(card: Card, reqs: seq<LogRequest>, now: nat, tokens: nat -> string, logTokens: nat -> string)
    returns (res: Card)
    ensures |reqs| == 0 ==> res == card
    ensures |reqs| > 0 ==> res == EnsureCardMeta(card, now, tokens).(logs := card.logs + LogEntries(reqs, now, logTokens))
  {
    res := card;
    for k := 0 to |reqs|
      invariant k == 0 ==> res == card
      invariant k > 0 ==> res == EnsureCardMeta(card, now, tokens).(logs := card.logs + LogEntries(reqs[..k], now, logTokens))
    {
      RecordNext(card, res, reqs, k, now, tokens, logTokens);
      res := RecordCardLog(res, reqs[k], now, tokens, logTokens(k));
    }
    assert reqs[..|reqs|] == reqs;
  }

  /** One more `recordCardLog`: the entry for request `k` joins the log. */
  lemma RecordNext(card: Card, before: Card, reqs: seq<LogRequest>, k: nat, now: nat, tokens: nat -> string,
                   logTokens: nat -> string)
    requires k < |reqs|
    requires k == 0 ==> before == card
    requires k > 0 ==> before == EnsureCardMeta(card, now, tokens).(logs := card.logs + LogEntries(reqs[..k], now, logTokens))
    ensures RecordCardLog(before, reqs[k], now, tokens, logTokens(k))
      == EnsureCardMeta(card, now, tokens).(logs := card.logs + LogEntries(reqs[..k + 1], now, logTokens))
  {
    var met := EnsureCardMeta(card, now, tokens);
    if k > 0 {
      EnsureCardMetaIdempotent(card, now, now, tokens);
      EnsureCardMetaLogsOnly(met, before.logs, now, tokens);
    }
    LogEntriesSnoc(reqs, k, now, logTokens);
  }

  lemma LogEntriesSnoc(reqs: seq<LogRequest>, k: nat, now: nat, logTokens: nat -> string)
    requires k < |reqs|
    ensures LogEntries(reqs[..k + 1], now, logTokens) == LogEntries(reqs[..k], now, logTokens) + [LogEntryOf(reqs[k], now, logTokens(k))]
  {
    assert LogEntries(reqs[..k + 1], now, logTokens) == LogEntries(reqs[..k], now, logTokens) + [LogEntryOf(reqs[k], now, logTokens(k))];
  }

  /** `ensureCardMeta` touches nothing but the creation time, the snapshot and the operations. */
  lemma EnsureCardMetaKeeps(card: Card, now: nat, tokens: nat -> string)
    ensures EnsureCardMeta(card, now, tokens) ==
      card.(createdAt := EnsureCardMeta(card, now, tokens).createdAt,
            initialSnapshot := EnsureCardMeta(card, now, tokens).initialSnapshot,
            operations := EnsureCardMeta(card, now, tokens).operations)
  {
  }

  /** `ensureCardMeta` never reads the log, so replacing it commutes with the clean-up. */
  lemma EnsureCardMetaLogsOnly(card: Card, logs: seq<LogEntry>, now: nat, tokens: nat -> string)
    requires card.initialSnapshot.Some?
    ensures EnsureCardMeta(card.(logs := logs), now, tokens) == EnsureCardMeta(card, now, tokens).(logs := logs)
  {
    var c1 := WithSnapshot(card.(logs := logs), now);
    var c2 := WithSnapshot(card, now);
    assert c1 == c2.(logs := logs);
    MetaOpsReadCard(c2.operations, c1, c2, tokens);
  }

  /** JavaScript's `trim` over the common whitespace characters. */
  predicate IsSpace(c: char) {
    c == ' ' || c == '\t' || c == '\n' || c == '\r' || c == '\U{000B}' || c == '\U{000C}'
    || c == '\U{00A0}' || c == '\U{FEFF}' || c == '\U{2028}' || c == '\U{2029}'
  }

  function TrimStart(s: string): (r: string)
    ensures |r| <= |s| && r == s[|s| - |r|..]
    ensures r == [] || !IsSpace(r[0])
    ensures forall k :: 0 <= k < |s| - |r| ==> IsSpace(s[k])
  {
    if s != [] && IsSpace(s[0]) then TrimStart(s[1..]) else s
  }

  function TrimEnd(s: string): (r: string)
    ensures |r| <= |s| && r == s[..|r|]
    ensures r == [] || !IsSpace(r[|r| - 1])
    ensures forall k :: |r| <= k < |s| ==> IsSpace(s[k])
  {
    if s != [] && IsSpace(s[|s| - 1]) then TrimEnd(s[..|s| - 1]) else s
  }

  function Trim(s: string): string {
    TrimEnd(TrimStart(s))
  }

  /** `${center || ''} / ${executor || ''}`.trim(): the text logged for an added or removed step. */
  function PlaceText(op: RouteOp): string {
    Trim(op.centerName + " / " + op.executor)
  }

  /** `(x || '')` for a quantity: blank and 0 are the same empty value. */
  function LooseQuantity(q: Option<int>): JsValue {
    if q.Some? && q.value != 0 then Num(q.value) else Str("")
  }

  /** `(x || '')` for a flag: `false` is the empty value. */
  function LooseFlag(b: bool): JsValue {
    if b then Bool(true) else Str("")
  }

  /** One «Изменение поля» entry when the loose values differ. */
  function FieldChange(field: string, before: JsValue, after: JsValue): (r: seq<LogRequest>)
    ensures |r| <= 1 && (|r| == 1 <==> before != after)
  {
    if before != after then [LogRequest("Изменение поля", "Карта", Some(field), None, before, after)] else []
  }

  /** The eight card fields `logCardDifferences` compares, in its order. */
  function CardFieldChanges(a: Card, b: Card): seq<LogRequest> {
    FieldChange("name", Str(a.name), Str(b.name))
    + FieldChange("orderNo", Str(a.orderNo), Str(b.orderNo))
    + FieldChange("desc", Str(a.desc), Str(b.desc))
    + FieldChange("quantity", LooseQuantity(a.quantity), LooseQuantity(b.quantity))
    + FieldChange("drawing", Str(a.drawing), Str(b.drawing))
    + FieldChange("material", Str(a.material), Str(b.material))
    + FieldChange("contractNumber", Str(a.contractNumber), Str(b.contractNumber))
    + FieldChange("useItemList", LooseFlag(a.useItemList), LooseFlag(b.useItemList))
  }

  /** Status, archive flag and number of attached files. */
  function CardStateChanges(a: Card, b: Card): seq<LogRequest> {
    (if a.status != b.status then
       [LogRequest("Статус карты", "Карта", Some("status"), None, Str(StatusName(a.status)), Str(StatusName(b.status)))]
     else [])
    + (if a.archived != b.archived then
       [LogRequest("Архивирование", "Карта", Some("archived"), None, Bool(a.archived), Bool(b.archived))]
     else [])
    + (if |a.attachments| != |b.attachments| then
       [LogRequest("Файлы", "Карта", Some("attachments"), None, Num(|a.attachments|), Num(|b.attachments|))]
     else [])
  }

  /** `new Map(ops.map(op => [op.id, op])).get(id)`: the last operation with that id. */
  function LastById(ops: seq<RouteOp>, id: string): (r: Option<RouteOp>)
    ensures r.Some? ==> r.value in ops && r.value.id == id
    ensures r.None? <==> forall k :: 0 <= k < |ops| ==> ops[k].id != id
  {
    if ops == [] then None
    else if ops[|ops| - 1].id == id then Some(ops[|ops| - 1])
    else
      var r := LastById(ops[..|ops| - 1], id);
      assert forall k :: 0 <= k < |ops| - 1 ==> ops[k] == ops[..|ops| - 1][k];
      r
  }

  /** The entries for one operation that exists on both sides. */
  function OpChanges(prev: RouteOp, op: RouteOp): seq<LogRequest> {
    var opLabel := OpLogLabel(op);
    var target := Some(op.id);
    (if prev.centerName != op.centerName then
       [LogRequest("Изменение операции", opLabel, Some("centerName"), target, Str(prev.centerName), Str(op.centerName))]
     else [])
    + (if prev.opCode != op.opCode || prev.opName != op.opName then
       [LogRequest("Изменение операции", opLabel, Some("operation"), target, Str(OpLogLabel(prev)), Str(opLabel))]
     else [])
    + (if prev.executor != op.executor then
       [LogRequest("Исполнитель", opLabel, Some("executor"), target, Str(prev.executor), Str(op.executor))]
     else [])
    + (if prev.plannedMinutes != op.plannedMinutes then
       [LogRequest("Плановое время", opLabel, Some("plannedMinutes"), target, Num(prev.plannedMinutes), Num(op.plannedMinutes))]
     else [])
    + (if OrderKey(prev) != OrderKey(op) then
       [LogRequest("Порядок операции", opLabel, Some("order"), target, Num(OrderKey(prev)), Num(OrderKey(op)))]
     else [])
  }

  /** Added and changed operations, in the order of the edited route. */
  function UpdatedOpChanges(original: seq<RouteOp>, updated: seq<RouteOp>): seq<LogRequest> {
    if updated == [] then []
    else
      var op := updated[0];
      var prev := LastById(original, op.id);
      (if prev.None? then
         [LogRequest("Добавление операции", OpLogLabel(op), None, Some(op.id), Str(""), Str(PlaceText(op)))]
       else OpChanges(prev.value, op))
      + UpdatedOpChanges(original, updated[1..])
  }

  predicate HasId(ops: seq<RouteOp>, id: string) {
    exists k :: 0 <= k < |ops| && ops[k].id == id
  }

  /** Removed operations, in the order of the original route. */
  function RemovedOps(original: seq<RouteOp>, updated: seq<RouteOp>): seq<LogRequest> {
    if original == [] then []
    else
      RemovedHead(original[0], updated) + RemovedOps(original[1..], updated)
  }

  /** The entry for one step of the original route: one when its id is gone, none otherwise. */
  function RemovedHead(op: RouteOp, updated: seq<RouteOp>): seq<LogRequest> {
    if !HasId(updated, op.id) then [RemovalRequest(op)] else []
  }

  /** The entry that logs the removal of a step. */
  function RemovalRequest(op: RouteOp): LogRequest {
    LogRequest("Удаление операции", OpLogLabel(op), None, Some(op.id), Str(PlaceText(op)), Str(""))
  }

  /**
   * `logCardDifferences`: what an edit of a card logs, compared with `(x || '')`
   * so that blank, 0 and `false` count as the same empty value.
   */
  function Differences(original: Card, updated: Card): seq<LogRequest> {
    CardFieldChanges(original, updated)
    + CardStateChanges(original, updated)
    + UpdatedOpChanges(original.operations, updated.operations)
    + RemovedOps(original.operations, updated.operations)
  }

  /** A blank quantity and a quantity of 0 are the same to the comparison. */
  lemma BlankEqualsZero(a: Card)
    requires a.quantity == None
    ensures CardFieldChanges(a, a.(quantity := Some(0))) == []
  {
  }

  predicate DistinctIds(ops: seq<RouteOp>) {
    forall i, j :: 0 <= i < j < |ops| ==> ops[i].id != ops[j].id
  }

  /** `new Map(...)` keeps the last entry: the lookup yields the last operation with the id. */
  lemma {:induction false} LastOpById(ops: seq<RouteOp>, id: string, k: nat)
    requires k < |ops| && ops[k].id == id
    requires forall k' :: k < k' < |ops| ==> ops[k'].id != id
    ensures LastById(ops, id) == Some(ops[k])
    decreases |ops|
  {
    if k < |ops| - 1 {
      var init := ops[..|ops| - 1];
      assert init[k] == ops[k];
      LastOpById(init, id, k);
    }
  }

  lemma LastByIdDistinct(ops: seq<RouteOp>, k: nat)
    requires DistinctIds(ops) && k < |ops|
    ensures LastById(ops, ops[k].id) == Some(ops[k])
  {
    var r := LastById(ops, ops[k].id);
    var j :| 0 <= j < |ops| && ops[j] == r.value;
    assert j == k;
  }

  lemma {:induction false} UpdatedOpChangesSelf(original: seq<RouteOp>, updated: seq<RouteOp>)
    requires DistinctIds(original)
    requires forall k :: 0 <= k < |updated| ==> updated[k] in original
    ensures UpdatedOpChanges(original, updated) == []
  {
    if updated != [] {
      var j :| 0 <= j < |original| && original[j] == updated[0];
      LastByIdDistinct(original, j);
      assert forall k :: 0 <= k < |updated| - 1 ==> updated[1..][k] == updated[k + 1];
      UpdatedOpChangesSelf(original, updated[1..]);
    }
  }

  lemma {:induction false} RemovedOpsNone(original: seq<RouteOp>, updated: seq<RouteOp>)
    requires forall k :: 0 <= k < |original| ==> HasId(updated, original[k].id)
    ensures RemovedOps(original, updated) == []
  {
    if original != [] {
      assert forall k :: 0 <= k < |original| - 1 ==> original[1..][k] == original[k + 1];
      RemovedOpsNone(original[1..], updated);
    }
  }

  /** Saving a card unchanged logs nothing, as long as its step ids are distinct. */
  lemma DifferencesOfSelf(card: Card)
    requires DistinctIds(card.operations)
    ensures Differences(card, card) == []
  {
    var ops := card.operations;
    UpdatedOpChangesSelf(ops, ops);
    forall k | 0 <= k < |ops| ensures HasId(ops, ops[k].id) {
      assert ops[k].id == ops[k].id;
    }
    RemovedOpsNone(ops, ops);
  }

  /** Each added step is logged once, naming its id, and only steps whose id is new are logged as added. */
  lemma {:induction false} AddedOpsLogged(original: seq<RouteOp>, updated: seq<RouteOp>, k: nat)
    requires k < |updated| && !HasId(original, updated[k].id)
    ensures LogRequest("Добавление операции", OpLogLabel(updated[k]), None, Some(updated[k].id),
      Str(""), Str(PlaceText(updated[k]))) in UpdatedOpChanges(original, updated)
  {
    if k > 0 {
      assert updated[1..][k - 1] == updated[k];
      AddedOpsLogged(original, updated[1..], k - 1);
    } else {
      assert LastById(original, updated[0].id).None?;
    }
  }

  /** Each removed step is logged, naming its id: the position of its entry. */
  lemma {:induction false} RemovedOpsLogged(original: seq<RouteOp>, updated: seq<RouteOp>, k: nat) returns (p: nat)
    requires k < |original| && !HasId(updated, original[k].id)
    ensures p < |RemovedOps(original, updated)| && RemovedOps(original, updated)[p] == RemovalRequest(original[k])
  {
    if k > 0 {
      assert original[1..][k - 1] == original[k];
      var q := RemovedOpsLogged(original[1..], updated, k - 1);
      p := RemovedOpsLater(original, updated, q);
    } else {
      p := 0;
    }
  }

  /** An entry for the rest of the route keeps its place after the first step's entry. */
  lemma RemovedOpsLater(original: seq<RouteOp>, updated: seq<RouteOp>, q: nat) returns (p: nat)
    requires original != [] && q < |RemovedOps(original[1..], updated)|
    ensures p < |RemovedOps(original, updated)| && RemovedOps(original, updated)[p] == RemovedOps(original[1..], updated)[q]
  {
    p := |RemovedHead(original[0], updated)| + q;
  }

  lemma NoEntries(logs: seq<LogEntry>, reqs: seq<LogRequest>, now: nat, logTokens: nat -> string)
    requires |reqs| == 0
    ensures logs + LogEntries(reqs, now, logTokens) == logs
  {
    assert LogEntries(reqs, now, logTokens) == [];
  }

  /**
   * `logCardDifferences` called on an edited card that has been through
   * `ensureCardMeta`: its log grows by one entry per difference, in order,
   * and nothing else changes.
   */
  method LogCardDifferences(original: Card, updated: Card, now: nat, tokens: nat -> string, logTokens: nat -> string)
    returns (res: Card)
    requires updated == EnsureCardMeta(updated, now, tokens)
    ensures res == updated.(logs := updated.logs + LogEntries(Differences(original, updated), now, logTokens))
  {
    var reqs := Differences(original, updated);
    res := RecordAll(updated, reqs, now, tokens, logTokens);
    if |reqs| == 0 {
      NoEntries(updated.logs, reqs, now, logTokens);
    }
  }
}
