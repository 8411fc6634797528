/**
 * The server's clean-up of a stored or uploaded data set: `normalizeCard`
 * repairs every card read from loose JSON, `ensureOperationCodes` gives the
 * catalogue and the route operations their codes, `normalizeData` runs both
 * and then gives every card without a well-formed barcode a fresh EAN-13,
 * and `mergeSnapshots` folds an upload into the stored cards without losing
 * their creation time or initial snapshot.
 */
module ServerStore {
  import opened Records
  import opened Decimal
  import opened Ledger
  import opened CardStatus
  import opened AuditLog
  import opened OpCodes
  import opened Ean13

  /*
   * normalizeCard
   */

  /** The counters, quantity, status and executors of an operation as `normalizeCard` repairs them. */
  function ServerOpCounts(op: RouteOp, cardQuantity: Option<int>): (res: RouteOp)
    ensures res.good >= 0 && res.scrap >= 0 && res.hold >= 0
    ensures op.good >= 0 ==> res.good == op.good
    ensures op.scrap >= 0 ==> res.scrap == op.scrap
    ensures op.hold >= 0 ==> res.hold == op.hold
    ensures |res.additionalExecutors| <= 2
    ensures res.status == Some(op.status.GetOr(NotStarted))
    ensures op.quantity.Some? ==> res.quantity == Some(ToSafeCount(op.quantity.value))
    ensures op.quantity.None? ==> res.quantity == cardQuantity
    ensures res == op.(good := res.good, scrap := res.scrap, hold := res.hold, quantity := res.quantity,
                       status := res.status, additionalExecutors := res.additionalExecutors)
  {
    op.(status := Some(op.status.GetOr(NotStarted)),
        good := ToSafeCount(op.good),
        scrap := ToSafeCount(op.scrap),
        hold := ToSafeCount(op.hold),
        quantity := if op.quantity.Some? then Some(ToSafeCount(op.quantity.value) as int) else cardQuantity,
        additionalExecutors := TakeTwo(op.additionalExecutors))
  }

  /** The times of an operation as `normalizeCard` repairs them: falsy start and finish times become null. */
  function ServerOpTimes(op: RouteOp): (res: RouteOp)
    ensures op.elapsedMs.Some? ==> res.elapsedMs == op.elapsedMs
    ensures op.elapsedMs.None? ==> res.elapsedMs == Some(op.actualMs.GetOr(0))
    ensures res.startedAt == (if Truthy(op.startedAt) then op.startedAt else None)
    ensures res.finishedAt == (if Truthy(op.finishedAt) then op.finishedAt else None)
    ensures op.firstStartedAt.Some? ==> res.firstStartedAt == op.firstStartedAt
    ensures op.firstStartedAt.None? ==> res.firstStartedAt == res.startedAt
    ensures res == op.(elapsedMs := res.elapsedMs, firstStartedAt := res.firstStartedAt,
                       startedAt := res.startedAt, finishedAt := res.finishedAt)
  {
    var started := if Truthy(op.startedAt) then op.startedAt else None;
    op.(elapsedMs := if op.elapsedMs.Some? then op.elapsedMs else Some(op.actualMs.GetOr(0)),
        firstStartedAt := if op.firstStartedAt.Some? then op.firstStartedAt else started,
        startedAt := started,
        finishedAt := if Truthy(op.finishedAt) then op.finishedAt else None)
  }

  /**
   * One operation as `normalizeCard` repairs it: times made consistent,
   * counters clamped, status defaulted, at most two extra executors, and a
   * blank quantity taken from the card.
   */
  function NormalizeServerOp(op: RouteOp, cardQuantity: Option<int>): RouteOp {
    ServerOpCounts(ServerOpTimes(op), cardQuantity)
  }

  /**
   * What `normalizeCard` guarantees of each repaired operation: same id and
   * code, counters not negative, at most two extra executors, a status, and
   * a blank quantity or status filled in.
   */
  predicate RepairedOp(before: RouteOp, op: RouteOp, cardQuantity: Option<int>) {
    && op.id == before.id && op.opCode == before.opCode
    && op.good >= 0 && op.scrap >= 0 && op.hold >= 0
    && |op.additionalExecutors| <= 2 && op.status.Some?
    && (before.quantity.None? ==> op.quantity == cardQuantity)
    && (before.status.None? ==> op.status == Some(NotStarted))
  }

  predicate RepairedOps(before: seq<RouteOp>, ops: seq<RouteOp>, cardQuantity: Option<int>) {
    |ops| == |before| && forall i :: 0 <= i < |ops| ==> RepairedOp(before[i], ops[i], cardQuantity)
  }

  function NormalizeServerOps(ops: seq<RouteOp>, cardQuantity: Option<int>): (res: seq<RouteOp>)
    ensures |res| == |ops|
    ensures forall i :: 0 <= i < |ops| ==> res[i] == NormalizeServerOp(ops[i], cardQuantity)
    ensures RepairedOps(ops, res, cardQuantity)
  {
    seq(|ops|, i requires 0 <= i < |ops| => NormalizeServerOp(ops[i], cardQuantity))
  }

  /** A log entry as `normalizeCard` repairs it; empty optional strings become null. */
  function NormalizeLogEntry(e: LogEntry, token: string): (res: LogEntry)
    ensures res.id != "" && res.action != ""
    ensures e.id != "" ==> res.id == e.id
    ensures e.action != "" ==> res.action == e.action
    ensures res.field != Some("") && res.targetId != Some("")
  {
    e.(id := if e.id == "" then GenId("log", token) else e.id,
       action := if e.action == "" then "update" else e.action,
       field := if e.field == Some("") then None else e.field,
       targetId := if e.targetId == Some("") then None else e.targetId)
  }

  function NormalizeLogs(logs: seq<LogEntry>, logTokens: nat -> string): (res: seq<LogEntry>)
    ensures |res| == |logs|
    ensures forall i :: 0 <= i < |logs| ==> res[i] == NormalizeLogEntry(logs[i], logTokens(i))
  {
    seq(|logs|, i requires 0 <= i < |logs| => NormalizeLogEntry(logs[i], logTokens(i)))
  }

  /** An attachment as `normalizeCard` repairs it. */
  function NormalizeAttachment(a: Attachment, now: nat, token: string): (res: Attachment)
    ensures res.id != "" && res.name != ""
    ensures Truthy(a.createdAt) ==> res.createdAt == a.createdAt
  {
    Attachment(if a.id == "" then GenId("file", token) else a.id,
               if a.name == "" then "file" else a.name,
               if Truthy(a.createdAt) then a.createdAt else Some(now))
  }

  function NormalizeAttachments(files: seq<Attachment>, now: nat, fileTokens: nat -> string): (res: seq<Attachment>)
    ensures |res| == |files|
    ensures forall i :: 0 <= i < |files| ==> res[i] == NormalizeAttachment(files[i], now, fileTokens(i))
  {
    seq(|files|, i requires 0 <= i < |files| => NormalizeAttachment(files[i], now, fileTokens(i)))
  }

  /**
   * `normalizeCard`: repairs a card read from loose JSON. The card's own
   * quantity is not clamped; its status is recomputed by the server's
   * three-valued rule.
   */
  function NormalizeCard(card: Card, now: nat, logTokens: nat -> string, fileTokens: nat -> string): (res: Card)
    ensures res.name != "" && (card.name != "" ==> res.name == card.name)
    ensures res.createdAt.Some? && (card.createdAt.Some? ==> res.createdAt == card.createdAt)
    ensures res.quantity == card.quantity && res.barcode == card.barcode && res.id == card.id
    ensures res.initialSnapshot == card.initialSnapshot
    ensures |res.logs| == |card.logs| && |res.attachments| == |card.attachments|
    ensures RepairedOps(card.operations, res.operations, card.quantity)
    ensures res.status != Paused
    ensures res.status == Done <==> |res.operations| > 0 && AllDone(res.operations)
  {
    var ops := NormalizeServerOps(card.operations, card.quantity);
    ServerDoneIff(ops);
    card.(name := if card.name == "" then "Карта" else card.name,
          operations := ops,
          createdAt := if card.createdAt.Some? then card.createdAt else Some(now),
          logs := NormalizeLogs(card.logs, logTokens),
          attachments := NormalizeAttachments(card.attachments, now, fileTokens),
          status := ServerOpsStatus(ops))
  }

  /**
   * Normalizing an operation twice is normalizing it once, as long as the
   * card's quantity is not negative: a negative card quantity is copied into
   * a blank operation quantity on the first pass and clamped to 0 on the next.
   */
  lemma NormalizeServerOpIdempotent(op: RouteOp, cardQuantity: Option<int>)
    requires cardQuantity.None? || cardQuantity.value >= 0
    ensures NormalizeServerOp(NormalizeServerOp(op, cardQuantity), cardQuantity) == NormalizeServerOp(op, cardQuantity)
  {
    var once := NormalizeServerOp(op, cardQuantity);
    var times := ServerOpTimes(once);
    assert times == once;
    assert TakeTwo(once.additionalExecutors) == once.additionalExecutors;
  }

  /** The counterexample: a card quantity of -3 gives a blank operation -3, then 0. */
  lemma NormalizeServerOpNegativeCardQuantity(op: RouteOp)
    requires op.quantity.None?
    ensures NormalizeServerOp(op, Some(-3)).quantity == Some(-3)
    ensures NormalizeServerOp(NormalizeServerOp(op, Some(-3)), Some(-3)).quantity == Some(0)
  {
  }

  /** `normalizeCard` is idempotent for a non-negative or blank card quantity and a positive clock. */
  lemma NormalizeCardIdempotent(card: Card, now: nat, later: nat, logTokens: nat -> string, fileTokens: nat -> string)
    requires card.quantity.None? || card.quantity.value >= 0
    requires now > 0
    ensures var once := NormalizeCard(card, now, logTokens, fileTokens);
      NormalizeCard(once, later, logTokens, fileTokens) == once
  {
    var once := NormalizeCard(card, now, logTokens, fileTokens);
    NormalizeServerOpsIdempotent(card.operations, card.quantity);
    NormalizeLogsIdempotent(card.logs, logTokens);
    NormalizeAttachmentsIdempotent(card.attachments, now, later, fileTokens);
  }

  lemma NormalizeServerOpsIdempotent(ops: seq<RouteOp>, cardQuantity: Option<int>)
    requires cardQuantity.None? || cardQuantity.value >= 0
    ensures var once := NormalizeServerOps(ops, cardQuantity);
      NormalizeServerOps(once, cardQuantity) == once
  {
    var once := NormalizeServerOps(ops, cardQuantity);
    forall i | 0 <= i < |ops|
      ensures NormalizeServerOp(once[i], cardQuantity) == once[i]
    {
      NormalizeServerOpIdempotent(ops[i], cardQuantity);
    }
  }

  lemma NormalizeLogsIdempotent(logs: seq<LogEntry>, logTokens: nat -> string)
    ensures NormalizeLogs(NormalizeLogs(logs, logTokens), logTokens) == NormalizeLogs(logs, logTokens)
  {
  }

  lemma NormalizeAttachmentsIdempotent(files: seq<Attachment>, now: nat, later: nat, fileTokens: nat -> string)
    requires now > 0
    ensures var once := NormalizeAttachments(files, now, fileTokens);
      NormalizeAttachments(once, later, fileTokens) == once
  {
  }

  /*
   * ensureOperationCodes and normalizeData
   */

  /**
   * The server's `ensureOperationCodes`: the catalogue pass starts from an
   * empty set, so a catalogue whose codes are non-empty and distinct is left
   * as it is; every route operation then takes its catalogue operation's
   * code, keeps its own otherwise, and draws one only when it has none; each
   * card's status is recomputed.
   */
  method EnsureOperationCodes(ops: seq<CatalogOp>, cards: seq<Card>, draws: nat -> string, cursor: nat)
    returns (ops': seq<CatalogOp>, cards': seq<Card>, next: nat, ghost allFound: bool)
    ensures next >= cursor && CatalogCodesKept(ops, ops', allFound)
    ensures ServerCardsCoded(ops', cards, cards')
  {
    ops', next, allFound := AssignCatalogCodesFresh(ops, draws, cursor);
    cards' := [];
    for n := 0 to |cards|
      invariant next >= cursor && ServerCardsCoded(ops', cards[..n], cards')
    {
      var routeOps;
      routeOps, next := AssignRouteCodesServer(ops', cards[n].operations, draws, next);
      ServerCardsCodedSnoc(ops', cards, cards', n, routeOps);
      cards' := cards' + [cards[n].(operations := routeOps, status := ServerOpsStatus(routeOps))];
    }
    assert cards[..|cards|] == cards;
  }

  /**
   * Every card's route operations coded by the server's route pass and its
   * status recomputed from them, nothing else changed.
   */
  predicate ServerCardsCoded(ops: seq<CatalogOp>, before: seq<Card>, after: seq<Card>) {
    && |after| == |before|
    && forall c :: 0 <= c < |after| ==>
      && after[c] == before[c].(operations := after[c].operations, status := ServerOpsStatus(after[c].operations))
      && ServerRouteCodes(ops, before[c].operations, after[c].operations)
  }

  lemma ServerCardsCodedSnoc(ops: seq<CatalogOp>, cards: seq<Card>, done: seq<Card>, n: nat, routeOps: seq<RouteOp>)
    requires n < |cards| && ServerCardsCoded(ops, cards[..n], done)
    requires ServerRouteCodes(ops, cards[n].operations, routeOps)
    ensures ServerCardsCoded(ops, cards[..n + 1], done + [cards[n].(operations := routeOps, status := ServerOpsStatus(routeOps))])
  {
  }

  /** Raising one card's barcode to a well-formed one above every other number in use. */
  lemma MaxSequenceRaised(cards: seq<Card>, n: nat, code: string)
    requires n < |cards| && !IsEanShaped(cards[n].barcode)
    requires IsEanShaped(code) && PrefixValue(code) == NextEANSequence(cards)
    ensures MaxSequence(cards[n := cards[n].(barcode := code)]) == NextEANSequence(cards)
  {
    var cards' := cards[n := cards[n].(barcode := code)];
    assert IsEanShaped(cards'[n].barcode);
  }

  /** Every card repaired before position `n` carries a barcode no other card has. */
  predicate RepairedUnique(cards: seq<Card>, res: seq<Card>, n: nat)
    requires |res| == |cards| && n <= |res|
  {
    forall i, j :: 0 <= i < n && 0 <= j < |res| && i != j && !IsEanShaped(cards[i].barcode) ==>
      res[i].barcode != res[j].barcode
  }

  /**
   * One repair while the next sequence number fits: the new code is well
   * formed, no other card uses it, and it raises the largest number in use
   * by exactly one.
   */
  lemma RepairStep(res: seq<Card>, n: nat, code: string)
    requires n < |res| && !IsEanShaped(res[n].barcode)
    requires NextEANSequence(res) < Pow10(12)
    requires code == Candidate(res, 0) && !BarcodeInUse(res, code)
    ensures IsEanShaped(code)
    ensures MaxSequence(res[n := res[n].(barcode := code)]) == MaxSequence(res) + 1
    ensures forall j :: 0 <= j < |res| && j != n ==> res[j].barcode != code
  {
    BuildEAN13Facts(NextEANSequence(res));
    assert IsEanShaped(code) && PrefixValue(code) == NextEANSequence(res);
    MaxSequenceRaised(res, n, code);
  }

  lemma RepairKeepsUnique(cards: seq<Card>, res: seq<Card>, n: nat, code: string)
    requires |res| == |cards| && n < |res| && RepairedUnique(cards, res, n)
    requires forall j :: 0 <= j < |res| && j != n ==> res[j].barcode != code
    requires forall i :: n <= i < |cards| ==> res[i] == cards[i]
    ensures RepairedUnique(cards, res[n := res[n].(barcode := code)], n + 1)
  {
  }

  /** The state of the barcode pass after the first `n` cards, `repaired` of them given a new code. */
  ghost predicate Repairing(cards: seq<Card>, res: seq<Card>, n: nat, repaired: nat) {
    && |res| == |cards| && repaired <= n <= |cards|
    && OnlyBarcodesChanged(cards, res, n)
    && (MaxSequence(cards) + |cards| < Pow10(12) ==>
          && MaxSequence(res) <= MaxSequence(cards) + repaired
          && ShapedBelow(res, n)
          && RepairedUnique(cards, res, n))
  }

  /** The first `n` cards carry thirteen-digit barcodes. */
  ghost predicate ShapedBelow(res: seq<Card>, n: nat)
    requires n <= |res|
  {
    forall i :: 0 <= i < n ==> IsEanShaped(res[i].barcode)
  }

  /** Only barcodes differ, only before `n`, and never a well-formed one. */
  ghost predicate OnlyBarcodesChanged(cards: seq<Card>, res: seq<Card>, n: nat)
    requires |res| == |cards|
  {
    && (forall i :: 0 <= i < |cards| ==> res[i] == cards[i].(barcode := res[i].barcode))
    && (forall i :: n <= i < |cards| ==> res[i] == cards[i])
    && (forall i :: 0 <= i < |cards| && IsEanShaped(cards[i].barcode) ==> res[i] == cards[i])
  }

  lemma RepairOnlyBarcode(cards: seq<Card>, res: seq<Card>, n: nat, code: string)
    requires |res| == |cards| && n < |cards| && OnlyBarcodesChanged(cards, res, n) && !IsEanShaped(res[n].barcode)
    ensures OnlyBarcodesChanged(cards, res[n := res[n].(barcode := code)], n + 1)
  {
    assert res[n] == cards[n];
  }

  lemma RepairAdvance(cards: seq<Card>, res: seq<Card>, n: nat, repaired: nat, code: string)
    requires Repairing(cards, res, n, repaired) && n < |cards| && !IsEanShaped(res[n].barcode)
    requires NextEANSequence(res) < Pow10(12) ==> code == Candidate(res, 0) && !BarcodeInUse(res, code)
    ensures Repairing(cards, res[n := res[n].(barcode := code)], n + 1, repaired + 1)
  {
    var res' := res[n := res[n].(barcode := code)];
    RepairOnlyBarcode(cards, res, n, code);
    if MaxSequence(cards) + |cards| < Pow10(12) {
      RepairStep(res, n, code);
      RepairKeepsUnique(cards, res, n, code);
      ShapedPrefixGrows(res, n, code);
    }
  }

  lemma ShapedPrefixGrows(res: seq<Card>, n: nat, code: string)
    requires n < |res| && IsEanShaped(code) && ShapedBelow(res, n)
    ensures ShapedBelow(res[n := res[n].(barcode := code)], n + 1)
  {
  }

  lemma SkipAdvance(cards: seq<Card>, res: seq<Card>, n: nat, repaired: nat)
    requires Repairing(cards, res, n, repaired) && n < |cards| && IsEanShaped(res[n].barcode)
    ensures Repairing(cards, res, n + 1, repaired)
  {
    assert res[n] == cards[n];
  }

  /**
   * The barcode pass of `normalizeData`: in order, each card without a
   * thirteen-digit barcode gets `generateUniqueEAN13` of the cards as they
   * stand, earlier repairs included. While the numbers fit in twelve digits,
   * every barcode ends up well formed and each new one belongs to its card
   * alone.
   */
  method FixBarcodes(cards: seq<Card>) returns (res: seq<Card>)
    ensures |res| == |cards|
    ensures forall i :: 0 <= i < |cards| ==> res[i] == cards[i].(barcode := res[i].barcode)
    ensures forall i :: 0 <= i < |cards| && IsEanShaped(cards[i].barcode) ==> res[i] == cards[i]
    ensures MaxSequence(cards) + |cards| < Pow10(12) ==>
      (forall i :: 0 <= i < |res| ==> IsEanShaped(res[i].barcode)) && RepairedUnique(cards, res, |res|)
  {
    res := cards;
    ghost var repaired := 0;
    for n := 0 to |cards|
      invariant Repairing(cards, res, n, repaired)
    {
      res, repaired := RepairCard(cards, res, n, repaired);
    }
    RepairedAll(cards, res, repaired);
  }

  /** One iteration of the barcode pass: card `n` gets a new barcode if its own is not thirteen digits. */
  method RepairCard(cards: seq<Card>, res0: seq<Card>, n: nat, ghost repaired0: nat)
    returns (res: seq<Card>, ghost repaired: nat)
    requires Repairing(cards, res0, n, repaired0) && n < |cards|
    ensures Repairing(cards, res, n + 1, repaired)
  {
    res, repaired := res0, repaired0;
    if !IsEanShaped(res[n].barcode) {
      var code := GenerateUniqueEAN13(res);
      RepairAdvance(cards, res, n, repaired, code);
      res := res[n := res[n].(barcode := code)];
      repaired := repaired + 1;
    } else {
      SkipAdvance(cards, res, n, repaired);
    }
  }

  lemma RepairedAll(cards: seq<Card>, res: seq<Card>, repaired: nat)
    requires Repairing(cards, res, |cards|, repaired)
    ensures |res| == |cards|
    ensures forall i :: 0 <= i < |cards| ==> res[i] == cards[i].(barcode := res[i].barcode)
    ensures forall i :: 0 <= i < |cards| && IsEanShaped(cards[i].barcode) ==> res[i] == cards[i]
    ensures MaxSequence(cards) + |cards| < Pow10(12) ==>
      (forall i :: 0 <= i < |res| ==> IsEanShaped(res[i].barcode)) && RepairedUnique(cards, res, |res|)
  {
  }

  /**
   * A card as `normalizeData` leaves it: same id and number of operations,
   * status by the server's rule, a well-formed barcode kept, and every
   * operation coded, with counters not negative and a status.
   */
  predicate LoadedCard(card: Card, res: Card) {
    && res.id == card.id
    && |res.operations| == |card.operations|
    && res.status == ServerOpsStatus(res.operations)
    && (IsEanShaped(card.barcode) ==> res.barcode == card.barcode)
    && forall i :: 0 <= i < |res.operations| ==>
      && res.operations[i].opCode != ""
      && res.operations[i].good >= 0 && res.operations[i].status.Some?
  }

  /**
   * `normalizeData`: normalizes every card, assigns operation codes, then
   * repairs missing or malformed barcodes.
   */
  method NormalizeData(cards: seq<Card>, ops: seq<CatalogOp>, now: nat, logTokens: nat -> string,
                       fileTokens: nat -> string, draws: nat -> string, cursor: nat)
    returns (cards': seq<Card>, ops': seq<CatalogOp>, next: nat)
    ensures |cards'| == |cards| && |ops'| == |ops| && next >= cursor
    ensures forall c :: 0 <= c < |cards| ==> LoadedCard(cards[c], cards'[c])
  {
    var normalized := seq(|cards|, c requires 0 <= c < |cards| => NormalizeCard(cards[c], now, logTokens, fileTokens));
    var coded;
    ghost var allFound;
    ops', coded, next, allFound := EnsureOperationCodes(ops, normalized, draws, cursor);
    cards' := FixBarcodes(coded);
    forall c | 0 <= c < |cards|
      ensures LoadedCard(cards[c], cards'[c])
    {
      LoadedCardOf(cards[c], normalized[c], coded[c], cards'[c], ops');
    }
  }

  /** One card through the three passes of `normalizeData`. */
  lemma LoadedCardOf(card: Card, normalized: Card, coded: Card, fixed: Card, catalog: seq<CatalogOp>)
    requires normalized.id == card.id && normalized.barcode == card.barcode
    requires RepairedOps(card.operations, normalized.operations, card.quantity)
    requires coded == normalized.(operations := coded.operations, status := ServerOpsStatus(coded.operations))
    requires ServerRouteCodes(catalog, normalized.operations, coded.operations)
    requires fixed == coded.(barcode := fixed.barcode)
    requires IsEanShaped(coded.barcode) ==> fixed == coded
    ensures LoadedCard(card, fixed)
  {
    forall i | 0 <= i < |fixed.operations|
      ensures fixed.operations[i].opCode != ""
      ensures fixed.operations[i].good >= 0 && fixed.operations[i].status.Some?
    {
      assert RepairedOp(card.operations[i], normalized.operations[i], card.quantity);
      assert ServerRouteCode(catalog, normalized.operations[i], coded.operations[i].opCode);
    }
  }

  /*
   * mergeSnapshots
   */

  /** `currentMap[id]` with the map built by `Object.fromEntries`: the last stored card with that id. */
  function LastCardById(cards: seq<Card>, id: string): (r: Option<Card>)
    ensures r.Some? ==> r.value in cards && r.value.id == id
    ensures r.None? <==> forall k :: 0 <= k < |cards| ==> cards[k].id != id
  {
    if cards == [] then None
    else if cards[|cards| - 1].id == id then Some(cards[|cards| - 1])
    else
      var r := LastCardById(cards[..|cards| - 1], id);
      assert forall k :: 0 <= k < |cards| - 1 ==> cards[k] == cards[..|cards| - 1][k];
      r
  }

  /** One uploaded card merged with its stored version, if any. */
  function MergeCard(existing: Option<Card>, card: Card, now: nat): (res: Card)
    ensures existing.Some? && Truthy(existing.value.createdAt) ==> res.createdAt == existing.value.createdAt
    ensures !(existing.Some? && Truthy(existing.value.createdAt)) ==>
      res.createdAt == if Truthy(card.createdAt) then card.createdAt else Some(now)
    ensures existing.Some? && existing.value.initialSnapshot.Some? ==> res.initialSnapshot == existing.value.initialSnapshot
    ensures !(existing.Some? && existing.value.initialSnapshot.Some?) && card.initialSnapshot.Some? ==>
      res.initialSnapshot == card.initialSnapshot
    ensures !(existing.Some? && existing.value.initialSnapshot.Some?) && card.initialSnapshot.None? ==>
      res.initialSnapshot == Some(res.(initialSnapshot := None, logs := []))
    ensures res.initialSnapshot.Some?
    ensures res == card.(createdAt := res.createdAt, initialSnapshot := res.initialSnapshot)
  {
    var created :=
      if existing.Some? && Truthy(existing.value.createdAt) then existing.value.createdAt
      else if Truthy(card.createdAt) then card.createdAt
      else Some(now);
    var next := card.(createdAt := created);
    if existing.Some? && existing.value.initialSnapshot.Some? then next.(initialSnapshot := existing.value.initialSnapshot)
    else if next.initialSnapshot.None? then next.(initialSnapshot := Some(next.(logs := [])))
    else next
  }

  /**
   * `mergeSnapshots`: the uploaded cards, in their order and nothing else
   * (cards only the server has are dropped), each keeping the stored
   * creation time and initial snapshot; logs come from the upload.
   */
  function MergeSnapshots(existing: seq<Card>, incoming: seq<Card>, now: nat): (res: seq<Card>)
    ensures |res| == |incoming|
    ensures forall i :: 0 <= i < |incoming| ==> res[i] == MergeCard(LastCardById(existing, incoming[i].id), incoming[i], now)
  {
    seq(|incoming|, i requires 0 <= i < |incoming| => MergeCard(LastCardById(existing, incoming[i].id), incoming[i], now))
  }

  /** The merge keeps the uploaded cards' ids, order, operations and logs, and gives every card a snapshot. */
  lemma MergeSnapshotsShape(existing: seq<Card>, incoming: seq<Card>, now: nat)
    ensures var res := MergeSnapshots(existing, incoming, now);
      && |res| == |incoming|
      && (forall i :: 0 <= i < |res| ==>
            res[i].id == incoming[i].id && res[i].logs == incoming[i].logs
            && res[i].operations == incoming[i].operations && res[i].initialSnapshot.Some?)
  {
  }

  /** A card the server already holds keeps its stored snapshot and, when set, its stored creation time. */
  lemma MergeSnapshotsKeepsStored(existing: seq<Card>, incoming: seq<Card>, now: nat, i: nat, k: nat)
    requires i < |incoming| && k < |existing| && existing[k].id == incoming[i].id
    requires forall k' :: k < k' < |existing| ==> existing[k'].id != incoming[i].id
    ensures var res := MergeSnapshots(existing, incoming, now);
      && (existing[k].initialSnapshot.Some? ==> res[i].initialSnapshot == existing[k].initialSnapshot)
      && (Truthy(existing[k].createdAt) ==> res[i].createdAt == existing[k].createdAt)
  {
    LastStoredCard(existing, incoming[i].id, k);
  }

  lemma {:induction false} LastStoredCard(cards: seq<Card>, id: string, k: nat)
    requires k < |cards| && cards[k].id == id
    requires forall k' :: k < k' < |cards| ==> cards[k'].id != id
    ensures LastCardById(cards, id) == Some(cards[k])
    decreases |cards|
  {
    if k < |cards| - 1 {
      var init := cards[..|cards| - 1];
      assert init[k] == cards[k];
      LastStoredCard(init, id, k);
    }
  }

  /** Merging an already merged upload again against the same store changes nothing. */
  lemma MergeSnapshotsIdempotent(existing: seq<Card>, incoming: seq<Card>, now: nat)
    ensures MergeSnapshots(existing, MergeSnapshots(existing, incoming, now), now) == MergeSnapshots(existing, incoming, now)
  {
    var once := MergeSnapshots(existing, incoming, now);
    var twice := MergeSnapshots(existing, once, now);
    forall i | 0 <= i < |incoming|
      ensures twice[i] == once[i]
    {
      assert once[i].id == incoming[i].id;
    }
  }
}
