/**
 * The quantity ledger: how many pieces an operation or a card must account
 * for, the good/scrap/hold counters of operations and of their per-item rows,
 * the batch result taken from the last step of the route, and the conversion
 * between an operation's aggregate counters and its per-item list.
 */
module Ledger {
  import opened Records
  import opened RouteOrder

  /** `toSafeCount`: a count read from loose data; negatives become 0. */
  function ToSafeCount(v: int): (n: nat)
    ensures v >= 0 ==> n == v
    ensures v < 0 ==> n == 0
  {
    if v < 0 then 0 else v
  }

  /** A resolved target quantity stored back into an optional field. */
  function AsField(q: Option<nat>): Option<int> {
    if q.Some? then Some(q.value) else None
  }

  /**
   * `getOperationQuantity`: the operation's own quantity, else the card's,
   * else blank. A stored 0 counts as set.
   */
  function OperationQuantity(op: RouteOp, card: Card): (q: Option<nat>)
    ensures q.None? <==> op.quantity.None? && card.quantity.None?
    ensures op.quantity.Some? && op.quantity.value >= 0 ==> q == Some(op.quantity.value as nat)
    ensures op.quantity.None? && card.quantity.Some? && card.quantity.value >= 0 ==> q == Some(card.quantity.value as nat)
  {
    if op.quantity.Some? then Some(ToSafeCount(op.quantity.value))
    else if card.quantity.Some? then Some(ToSafeCount(card.quantity.value))
    else None
  }

  /** Writing the resolved quantity back into the operation is a fixpoint. */
  lemma OperationQuantityFixpoint(op: RouteOp, card: Card)
    ensures OperationQuantity(op.(quantity := AsField(OperationQuantity(op, card))), card)
         == OperationQuantity(op, card)
  {
  }

  /**
   * `getCardPlannedQuantity`: the card's quantity, else its snapshot's, else
   * the number of items in the snapshot, else the number of its own items.
   */
  function CardPlannedQuantity(card: Card): (q: Option<nat>)
    ensures card.quantity.Some? ==> q == Some(ToSafeCount(card.quantity.value))
    ensures q.None? <==>
      && card.quantity.None?
      && (card.initialSnapshot.None? ||
          (card.initialSnapshot.value.quantity.None? && |card.initialSnapshot.value.items| == 0))
      && |card.items| == 0
    ensures q == Some(0) ==>
      card.quantity.Some? || (card.initialSnapshot.Some? && card.initialSnapshot.value.quantity.Some?)
  {
    var raw :=
      if card.quantity.Some? then card.quantity
      else if card.initialSnapshot.Some? then card.initialSnapshot.value.quantity
      else None;
    if raw.Some? then Some(ToSafeCount(raw.value))
    else if card.initialSnapshot.Some? && |card.initialSnapshot.value.items| > 0 then
      Some(|card.initialSnapshot.value.items|)
    else if |card.items| > 0 then Some(|card.items|)
    else None
  }

  /** Good, scrap and held-back pieces. */
  datatype Counts = Counts(good: nat, scrap: nat, hold: nat) {
    function Total(): nat { good + scrap + hold }
    function Plus(other: Counts): Counts {
      Counts(good + other.good, scrap + other.scrap, hold + other.hold)
    }
  }

  function ItemCounts(item: Item): Counts {
    Counts(ToSafeCount(item.good), ToSafeCount(item.scrap), ToSafeCount(item.hold))
  }

  /** `sumItemCounts`: the clamped counters of all items, added up in order. */
  function SumItemCounts(items: seq<Item>): Counts
  {
    if items == [] then Counts(0, 0, 0)
    else SumItemCounts(items[..|items| - 1]).Plus(ItemCounts(items[|items| - 1]))
  }

  /** Summing is additive over concatenation. */
  lemma {:induction false} SumItemCountsAppend(a: seq<Item>, b: seq<Item>)
    ensures SumItemCounts(a + b) == SumItemCounts(a).Plus(SumItemCounts(b))
  {
    if b != [] {
      var ab := a + b;
      assert ab[..|ab| - 1] == a + b[..|b| - 1];
      SumItemCountsAppend(a, b[..|b| - 1]);
    } else {
      assert a + b == a;
    }
  }

  /** Every item's clamped counters are part of the sum. */
  lemma {:induction false} SumItemCountsCovers(items: seq<Item>, i: nat)
    requires i < |items|
    ensures ItemCounts(items[i]).good <= SumItemCounts(items).good
    ensures ItemCounts(items[i]).scrap <= SumItemCounts(items).scrap
    ensures ItemCounts(items[i]).hold <= SumItemCounts(items).hold
  {
    if i < |items| - 1 {
      SumItemCountsCovers(items[..|items| - 1], i);
    }
  }

  /** Items whose clamped counters agree have the same sum. */
  lemma {:induction false} SumItemCountsSame(a: seq<Item>, b: seq<Item>)
    requires |a| == |b|
    requires forall i :: 0 <= i < |a| ==> ItemCounts(a[i]) == ItemCounts(b[i])
    ensures SumItemCounts(a) == SumItemCounts(b)
  {
    if a != [] {
      SumItemCountsSame(a[..|a| - 1], b[..|b| - 1]);
    }
  }

  /** What `calculateFinalResults` reports for a batch. */
  datatype FinalResults = FinalResults(goodFinal: nat, scrapFinal: nat, delayedFinal: nat, summaryOk: bool)

  /** Step `k` is the last one in route order: largest key, last among equals. */
  predicate IsLastInRoute(ops: seq<RouteOp>, k: nat)
    requires k < |ops|
  {
    forall j :: 0 <= j < |ops| ==>
      OrderKey(ops[j]) < OrderKey(ops[k]) || (OrderKey(ops[j]) == OrderKey(ops[k]) && j <= k)
  }

  function OpCounts(op: RouteOp): Counts {
    Counts(ToSafeCount(op.good), ToSafeCount(op.scrap), ToSafeCount(op.hold))
  }

  /**
   * `calculateFinalResults`: the counters of the last step in route order, and
   * whether they account for the whole batch (a batch of 0 always does).
   */
  function CalculateFinalResults(ops: seq<RouteOp>, initialQty: int): (res: FinalResults)
    ensures |ops| == 0 ==> res.goodFinal == 0 && res.scrapFinal == 0 && res.delayedFinal == 0
    ensures res.summaryOk <==>
      ToSafeCount(initialQty) == 0 || res.goodFinal + res.scrapFinal + res.delayedFinal == ToSafeCount(initialQty)
  {
    var total := ToSafeCount(initialQty);
    var last :=
      if |ops| == 0 then Counts(0, 0, 0)
      else
        var r := RouteIdx(ops);
        OpCounts(ops[r[|r| - 1]]);
    FinalResults(last.good, last.scrap, last.hold, total == 0 || last.Total() == total)
  }

  /** The stable sort puts exactly the step `IsLastInRoute` names at the end. */
  lemma RouteIdxLast(ops: seq<RouteOp>)
    requires |ops| > 0
    ensures IsLastInRoute(ops, RouteIdx(ops)[|ops| - 1])
  {
    var r := RouteIdx(ops);
    var last := r[|r| - 1];
    RouteIdxFacts(ops);
    forall j | 0 <= j < |ops|
      ensures OrderKey(ops[j]) < OrderKey(ops[last]) || (OrderKey(ops[j]) == OrderKey(ops[last]) && j <= last)
    {
      assert j in r;
      var p :| 0 <= p < |r| && r[p] == j;
      if p < |r| - 1 {
        assert Before(Keys(ops), r[p], r[|r| - 1]);
      }
    }
  }

  /** At most one step is the last in route order. */
  lemma LastInRouteUnique(ops: seq<RouteOp>, k: nat, k': nat)
    requires k < |ops| && k' < |ops|
    requires IsLastInRoute(ops, k) && IsLastInRoute(ops, k')
    ensures k == k'
  {
    assert OrderKey(ops[k]) == OrderKey(ops[k']);
  }

  /** The final results are the clamped counters of the last step in route order. */
  lemma FinalResultsOfLastStep(ops: seq<RouteOp>, initialQty: int, k: nat)
    requires k < |ops| && IsLastInRoute(ops, k)
    ensures CalculateFinalResults(ops, initialQty).goodFinal == ToSafeCount(ops[k].good)
    ensures CalculateFinalResults(ops, initialQty).scrapFinal == ToSafeCount(ops[k].scrap)
    ensures CalculateFinalResults(ops, initialQty).delayedFinal == ToSafeCount(ops[k].hold)
  {
    RouteIdxLast(ops);
    LastInRouteUnique(ops, k, RouteIdx(ops)[|ops| - 1]);
  }

  /** `template[i] || {}`: a missing item reads as a blank one. */
  const BlankItem := Item("", "", None, 0, 0, 0)

  /** An item row rebuilt with quantity 1 and clamped counters; a blank id is drawn from the oracle. */
  function CleanItem(src: Item, token: string): (item: Item)
    ensures item.id != "" && item.quantity == Some(1)
    ensures src.id != "" ==> item.id == src.id
    ensures item.name == src.name
    ensures ItemCounts(item) == ItemCounts(src)
    ensures item.good >= 0 && item.scrap >= 0 && item.hold >= 0
  {
    Item(if src.id != "" then src.id else GenId("item", token), src.name, Some(1),
      ToSafeCount(src.good), ToSafeCount(src.scrap), ToSafeCount(src.hold))
  }

  /** Cleaning a clean item changes nothing. */
  lemma CleanItemIdempotent(src: Item, token: string, token': string)
    ensures CleanItem(CleanItem(src, token), token') == CleanItem(src, token)
  {
  }

  /**
   * `buildItemsFromTemplate`: `qty` tokens item rows (none for a blank or
   * negative quantity), reusing the ids and names of the template's rows.
   */
  method BuildItemsFromTemplate(template: seq<Item>, qty: Option<int>, tokens: nat -> string) returns (items: seq<Item>)
    ensures |items| == ToSafeCount(qty.GetOr(0))
    ensures forall i :: 0 <= i < |items| ==>
      && items[i].id != "" && items[i].quantity == Some(1)
      && items[i].good == 0 && items[i].scrap == 0 && items[i].hold == 0
    ensures forall i :: 0 <= i < |items| && i < |template| ==>
      items[i].name == template[i].name && items[i].id == (if template[i].id != "" then template[i].id else GenId("item", tokens(i)))
    ensures forall i :: |template| <= i < |items| ==> items[i].name == "" && items[i].id == GenId("item", tokens(i))
  {
    var targetQty := qty.GetOr(0);
    items := [];
    var i := 0;
    while i < targetQty
      invariant 0 <= i && |items| == i
      invariant targetQty >= 0 ==> i <= targetQty
      invariant targetQty < 0 ==> i == 0
      invariant forall p :: 0 <= p < i ==>
        items[p] == CleanItem(if p < |template| then template[p] else BlankItem, tokens(p)).(good := 0, scrap := 0, hold := 0)
    {
      var source := if i < |template| then template[i] else BlankItem;
      var row := CleanItem(source, tokens(i));
      items := items + [row.(good := 0, scrap := 0, hold := 0)];
      i := i + 1;
    }
  }

  /** The aggregate-mode `items.map(...)`: every row cleaned in place. */
  function CleanItems(items: seq<Item>, tokens: nat -> string): (res: seq<Item>)
    ensures |res| == |items|
    ensures forall i :: 0 <= i < |items| ==> res[i] == CleanItem(items[i], tokens(i))
  {
    seq(|items|, i requires 0 <= i < |items| => CleanItem(items[i], tokens(i)))
  }

  /** The per-item list of length `n`: existing rows cleaned, missing rows blank. */
  function ResizedItems(items: seq<Item>, n: nat, tokens: nat -> string): (res: seq<Item>)
    ensures |res| == n
    ensures forall i :: 0 <= i < n ==> res[i] == CleanItem(if i < |items| then items[i] else BlankItem, tokens(i))
  {
    seq(n, i requires 0 <= i < n => CleanItem(if i < |items| then items[i] else BlankItem, tokens(i)))
  }

  /**
   * What `normalizeOperationItems` makes of an operation. Without an item
   * list the counters are clamped, a zero counter is taken from the items'
   * sum, and the items are cleaned. With an item list the operation gets
   * exactly as many items as its resolved quantity (0 when blank), position
   * by position, and its counters become the items' sums.
   */
  function NormalizedOp(card: Card, op: RouteOp, tokens: nat -> string): (res: RouteOp)
    ensures res == op.(items := res.items, good := res.good, scrap := res.scrap, hold := res.hold)
    ensures res.good >= 0 && res.scrap >= 0 && res.hold >= 0
    ensures forall i :: 0 <= i < |res.items| ==> res.items[i].quantity == Some(1) && res.items[i].id != ""
    ensures forall i :: 0 <= i < |res.items| && i < |op.items| ==>
      res.items[i].name == op.items[i].name && ItemCounts(res.items[i]) == ItemCounts(op.items[i])
      && (op.items[i].id != "" ==> res.items[i].id == op.items[i].id)
    ensures !card.useItemList ==> |res.items| == |op.items|
    ensures !card.useItemList ==>
      && res.good == ToSafeCount(if op.good != 0 then op.good else SumItemCounts(op.items).good)
      && res.scrap == ToSafeCount(if op.scrap != 0 then op.scrap else SumItemCounts(op.items).scrap)
      && res.hold == ToSafeCount(if op.hold != 0 then op.hold else SumItemCounts(op.items).hold)
    ensures card.useItemList ==>
      && |res.items| == OperationQuantity(op, card).GetOr(0)
      && OpCounts(res) == SumItemCounts(res.items)
      && forall i :: |op.items| <= i < |res.items| ==> ItemCounts(res.items[i]) == Counts(0, 0, 0)
  {
    if !card.useItemList then
      var totals := SumItemCounts(op.items);
      op.(good := ToSafeCount(if op.good != 0 then op.good else totals.good),
          scrap := ToSafeCount(if op.scrap != 0 then op.scrap else totals.scrap),
          hold := ToSafeCount(if op.hold != 0 then op.hold else totals.hold),
          items := CleanItems(op.items, tokens))
    else
      var n := OperationQuantity(op, card).GetOr(0);
      var items := ResizedItems(op.items, n, tokens);
      var totals := SumItemCounts(items);
      op.(items := items, good := totals.good, scrap := totals.scrap, hold := totals.hold)
  }

  /** `normalizeOperationItems`, rebuilding the item list position by position. */
  method NormalizeOperationItems(card: Card, op: RouteOp, tokens: nat -> string) returns (res: RouteOp)
    ensures res == NormalizedOp(card, op, tokens)
  {
    if !card.useItemList {
      var totals := SumItemCounts(op.items);
      var cleaned := CleanItems(op.items, tokens);
      res := op.(good := ToSafeCount(if op.good != 0 then op.good else totals.good),
                 scrap := ToSafeCount(if op.scrap != 0 then op.scrap else totals.scrap),
                 hold := ToSafeCount(if op.hold != 0 then op.hold else totals.hold),
                 items := cleaned);
      return;
    }
    var targetQty := OperationQuantity(op, card).GetOr(0);
    var normalized: seq<Item> := [];
    for i := 0 to targetQty
      invariant |normalized| == i
      invariant forall p :: 0 <= p < i ==>
        normalized[p] == CleanItem(if p < |op.items| then op.items[p] else BlankItem, tokens(p))
    {
      var source := if i < |op.items| then op.items[i] else BlankItem;
      normalized := normalized + [CleanItem(source, tokens(i))];
    }
    assert normalized == ResizedItems(op.items, targetQty, tokens);
    var totals := SumItemCounts(normalized);
    res := op.(items := normalized, good := totals.good, scrap := totals.scrap, hold := totals.hold);
  }

  /**
   * Normalizing twice is normalizing once: always with an item list, and
   * without one as soon as the operation's counters are not negative (which
   * `ensureCardMeta` makes sure of before it normalizes).
   */
  lemma NormalizedOpIdempotent(card: Card, op: RouteOp, tokens: nat -> string)
    requires !card.useItemList ==> op.good >= 0 && op.scrap >= 0 && op.hold >= 0
    ensures NormalizedOp(card, NormalizedOp(card, op, tokens), tokens) == NormalizedOp(card, op, tokens)
  {
    var once := NormalizedOp(card, op, tokens);
    if card.useItemList {
      assert once.quantity == op.quantity;
      ResizedItemsIdempotent(op.items, |once.items|, tokens);
    } else {
      CleanItemsIdempotent(op.items, tokens);
      SumItemCountsSame(op.items, once.items);
    }
  }

  lemma CleanItemsIdempotent(items: seq<Item>, tokens: nat -> string)
    ensures CleanItems(CleanItems(items, tokens), tokens) == CleanItems(items, tokens)
  {
    var once := CleanItems(items, tokens);
    forall i | 0 <= i < |once|
      ensures CleanItem(once[i], tokens(i)) == once[i]
    {
      CleanItemIdempotent(items[i], tokens(i), tokens(i));
    }
  }

  lemma ResizedItemsIdempotent(items: seq<Item>, n: nat, tokens: nat -> string)
    ensures ResizedItems(ResizedItems(items, n, tokens), n, tokens) == ResizedItems(items, n, tokens)
  {
    var once := ResizedItems(items, n, tokens);
    forall i | 0 <= i < n
      ensures CleanItem(once[i], tokens(i)) == once[i]
    {
      CleanItemIdempotent(if i < |items| then items[i] else BlankItem, tokens(i), tokens(i));
    }
  }

  /** `Math.min(maxVal, toSafeCount(v))`: a per-item counter edit is capped by the item's quantity. */
  function ItemEditValue(item: Item, v: int): (r: int)
    ensures r <= item.quantity.GetOr(1) && r <= ToSafeCount(v)
    ensures r == item.quantity.GetOr(1) || r == ToSafeCount(v)
  {
    var maxVal := item.quantity.GetOr(1);
    var val := ToSafeCount(v);
    if maxVal < val then maxVal else val
  }

  /** On a normalized item an edit can only record 0 or 1 piece, and records 1 for any positive input. */
  lemma ItemEditOnCleanItem(src: Item, token: string, v: int)
    ensures var r := ItemEditValue(CleanItem(src, token), v);
      0 <= r <= 1 && (r == 1 <==> v >= 1)
  {
  }
}
