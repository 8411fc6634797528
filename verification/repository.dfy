/**
 * The browser's in-memory store: the list of route cards and the operation
 * catalogue, and the operations that change them in place.
 */
module Repository {
  import opened Records
  import opened Decimal
  import opened RouteOrder
  import opened OperationMachine
  import opened AuditLog
  import opened Ean13
  import opened CardCopy
  import opened OpCodes
  import opened Workflow

  /** Some catalogue operation carries `code`. */
  predicate CatalogHas(catalog: seq<CatalogOp>, code: string) {
    exists k :: 0 <= k < |catalog| && catalog[k].code == code
  }

  /** Some route operation among the first `n` cards, and the first `m` operations of card `n`, carries `code`. */
  predicate RouteHasBefore(cards: seq<Card>, n: nat, m: nat, code: string) {
    exists c, i :: 0 <= c < |cards| && 0 <= i < |cards[c].operations|
      && (c < n || (c == n && i < m)) && cards[c].operations[i].opCode == code
  }

  predicate RouteHas(cards: seq<Card>, code: string) {
    RouteHasBefore(cards, |cards|, 0, code)
  }

  /** One more route operation scanned adds exactly its code. */
  lemma RouteHasStep(cards: seq<Card>, n: nat, m: nat)
    requires n < |cards| && m < |cards[n].operations|
    ensures forall x :: RouteHasBefore(cards, n, m + 1, x) <==>
      RouteHasBefore(cards, n, m, x) || x == cards[n].operations[m].opCode
  {
    forall x | RouteHasBefore(cards, n, m + 1, x) && !RouteHasBefore(cards, n, m, x)
      ensures x == cards[n].operations[m].opCode
    {
      var c, i :| 0 <= c < |cards| && 0 <= i < |cards[c].operations|
        && (c < n || (c == n && i < m + 1)) && cards[c].operations[i].opCode == x;
      assert c == n && i == m;
    }
    assert cards[n].operations[m].opCode == cards[n].operations[m].opCode;
  }

  /** `collectUsedOpCodes`: every non-empty code of the catalogue and of every route. */
  method CollectUsedOpCodes(catalog: seq<CatalogOp>, cards: seq<Card>) returns (used: set<string>)
    ensures forall code :: code in used <==> code != "" && (CatalogHas(catalog, code) || RouteHas(cards, code))
  {
    used := {};
    for k := 0 to |catalog|
      invariant forall code :: code in used <==> code != "" && exists j :: 0 <= j < k && catalog[j].code == code
    {
      if catalog[k].code != "" {
        used := used + {catalog[k].code};
      }
    }
    for n := 0 to |cards|
      invariant forall code :: code in used <==>
        code != "" && (CatalogHas(catalog, code) || RouteHasBefore(cards, n, 0, code))
    {
      for m := 0 to |cards[n].operations|
        invariant forall code :: code in used <==>
          code != "" && (CatalogHas(catalog, code) || RouteHasBefore(cards, n, m, code))
      {
        var code := cards[n].operations[m].opCode;
        if code != "" {
          used := used + {code};
        }
        RouteHasStep(cards, n, m);
      }
      assert forall x :: RouteHasBefore(cards, n + 1, 0, x) <==> RouteHasBefore(cards, n, |cards[n].operations|, x);
    }
  }

  /**
   * The edit branch of `saveCardDraft` on values: the stored card and the
   * draft through `ensureCardMeta`, the stored history carried over, and the
   * differences logged one entry at a time.
   */
  method SaveEdit(original: Card, draft: Card, cards: seq<Card>, now: nat, tokens: nat -> string,
                  itemTokens: (nat, nat) -> string, logTokens: nat -> string) returns (saved: Card)
    ensures saved == EditedCard(original, draft, cards, now, tokens, itemTokens, logTokens)
  {
    var merged := MergedDraft(original, PreparedDraft(draft, cards, itemTokens), now, tokens);
    saved := LogCardDifferences(EnsureCardMeta(original, now, tokens), merged, now, tokens, logTokens);
  }

  /** The body of `applyOperationAction` over the stored cards. */
  method ApplyAction(stored: seq<Card>, action: Action, cardId: string, opId: string, now: nat,
                     tokens: nat -> string, logTokens: nat -> string)
    returns (cards: seq<Card>, rejection: Option<Rejection>)
    ensures (cards, rejection) == ActionResult(stored, action, cardId, opId, now, tokens, logTokens)
  {
    cards, rejection := stored, None;
    var ci := FindCard(stored, cardId);
    if ci.None? {
      return;
    }
    var card := stored[ci.value];
    var oi := FindById(card.operations, opId);
    if oi.None? {
      return;
    }
    var out := ApplyToOp(action, card, card.operations[oi.value], now, tokens);
    if out.Rejected? {
      cards := stored[ci.value := WithOp(card, oi.value, out.op)];
      rejection := Some(out.reason);
      return;
    }
    var logged := RecordAll(Recalced(stored, ci.value, oi.value, out.op),
                            AppliedRequests(stored, ci.value, oi.value, out.op, now, tokens), now, tokens, logTokens);
    cards := stored[ci.value := logged];
  }

  /**
   * What `duplicateCard` leaves: when the card is found and the generator
   * does not throw, the copy under the first barcode tried appended to the
   * cards; otherwise the cards unchanged.
   */
  function Duplicated(stored: seq<Card>, cardId: string, now: nat, cardToken: string,
                      fileTokens: nat -> string, opTokens: nat -> string, itemTokens: (nat, nat) -> string,
                      tokens: nat -> string, logToken: string): seq<Card>
  {
    var ci := FindCard(stored, cardId);
    if ci.None? || NextEANSequence(stored) >= Pow10(12) then stored
    else stored + [DuplicateOf(stored[ci.value], stored, Candidate(stored, 0), now, cardToken, fileTokens, opTokens,
                               itemTokens, tokens, logToken)]
  }

  /**
   * The cards after `duplicateCard`: unchanged when the card is missing or
   * the numbering has run past twelve digits; otherwise the copy of the
   * first card with that id appended, under the first code the generator
   * tries, which is valid and which no stored card uses.
   */
  lemma DuplicatedFacts(stored: seq<Card>, cardId: string, now: nat, cardToken: string,
                        fileTokens: nat -> string, opTokens: nat -> string, itemTokens: (nat, nat) -> string,
                        tokens: nat -> string, logToken: string)
    ensures var cards := Duplicated(stored, cardId, now, cardToken, fileTokens, opTokens, itemTokens, tokens, logToken);
      && (FindCard(stored, cardId).None? || NextEANSequence(stored) >= Pow10(12) ==> cards == stored)
      && (FindCard(stored, cardId).Some? && NextEANSequence(stored) < Pow10(12) ==>
            && cards == stored + [DuplicateOf(stored[FindCard(stored, cardId).value], stored, Candidate(stored, 0),
                                              now, cardToken, fileTokens, opTokens, itemTokens, tokens, logToken)]
            && !BarcodeInUse(stored, Candidate(stored, 0))
            && Ean13Valid(Candidate(stored, 0)))
  {
    if FindCard(stored, cardId).Some? && NextEANSequence(stored) < Pow10(12) {
      FirstCandidateFree(stored);
    }
  }

  /** Below 10^12 the first code the generator tries is valid and unused. */
  lemma FirstCandidateFree(stored: seq<Card>)
    requires NextEANSequence(stored) < Pow10(12)
    ensures !BarcodeInUse(stored, Candidate(stored, 0)) && Ean13Valid(Candidate(stored, 0))
  {
    NextCodeUnused(stored);
    BuildEAN13Facts(NextEANSequence(stored));
  }

  /** The body of `duplicateCard` over the stored cards, drawing the barcode as the browser does. */
  method DuplicateInto(stored: seq<Card>, cardId: string, now: nat, cardToken: string, fileTokens: nat -> string,
                       opTokens: nat -> string, itemTokens: (nat, nat) -> string,
                       tokens: nat -> string, logToken: string)
    returns (cards: seq<Card>)
    ensures cards == Duplicated(stored, cardId, now, cardToken, fileTokens, opTokens, itemTokens, tokens, logToken)
  {
    cards := stored;
    var ci := FindCard(stored, cardId);
    if ci.None? {
      return;
    }
    var barcode := GenerateUniqueEAN13App(stored);
    if barcode.Failure? {
      return;
    }
    var copy := DuplicateOf(stored[ci.value], stored, barcode.value, now, cardToken, fileTokens, opTokens,
                            itemTokens, tokens, logToken);
    cards := stored + [copy];
  }

  /**
   * What `saveCardDraft` leaves: a new draft (or one with no original id)
   * prepared, logged as created and appended; for an edit, the first stored
   * card with the original id replaced by the merged draft, its differences
   * logged after the stored log; an edit of a card that is gone changes
   * nothing.
   */
  predicate DraftSaved(stored: seq<Card>, cards: seq<Card>, draft: Card, isNew: bool, originalId: Option<string>,
                       now: nat, tokens: nat -> string, itemTokens: (nat, nat) -> string, logTokens: nat -> string)
  {
    && (isNew || originalId.None? ==>
          cards == stored + [NewCardSaved(draft, stored, now, tokens, itemTokens, logTokens(0))])
    && (!isNew && originalId.Some? && FindCard(stored, originalId.value).None? ==> cards == stored)
    && (!isNew && originalId.Some? && FindCard(stored, originalId.value).Some? ==>
          var idx := FindCard(stored, originalId.value).value;
          cards == stored[idx := EditedCard(stored[idx], draft, stored, now, tokens, itemTokens, logTokens)])
  }

  /** The body of `saveCardDraft` over the stored cards. */
  method SaveDraftInto(stored: seq<Card>, draft: Card, isNew: bool, originalId: Option<string>, now: nat,
                       tokens: nat -> string, itemTokens: (nat, nat) -> string, logTokens: nat -> string)
    returns (cards: seq<Card>)
    ensures DraftSaved(stored, cards, draft, isNew, originalId, now, tokens, itemTokens, logTokens)
  {
    cards := stored;
    if isNew || originalId.None? {
      cards := stored + [NewCardSaved(draft, stored, now, tokens, itemTokens, logTokens(0))];
      return;
    }
    var idx := FindCard(stored, originalId.value);
    if idx.None? {
      return;
    }
    var saved := SaveEdit(stored[idx.value], draft, stored, now, tokens, itemTokens, logTokens);
    cards := stored[idx.value := saved];
  }

  /** The body of `ensureOperationCodes` as the browser writes it, over the catalogue and the cards. */
  method EnsuredCodes(catalog: seq<CatalogOp>, stored: seq<Card>, draws: nat -> string, cursor: nat)
    returns (ops: seq<CatalogOp>, cards: seq<Card>, next: nat, ghost allFound: bool)
    ensures next >= cursor
    ensures |ops| == |catalog|
    ensures forall i :: 0 <= i < |ops| ==> ops[i] == catalog[i].(code := ops[i].code) && ops[i].code != ""
    ensures allFound ==> forall i :: 0 <= i < |ops| ==> ops[i].code != catalog[i].code
    ensures |cards| == |stored|
    ensures forall c :: 0 <= c < |cards| ==>
      && cards[c] == stored[c].(operations := cards[c].operations)
      && |cards[c].operations| == |stored[c].operations|
      && AppRouteCodes({}, stored[c].operations, cards[c].operations, false)
    ensures allFound ==> forall c, i :: 0 <= c < |cards| && 0 <= i < |cards[c].operations| ==>
      && cards[c].operations[i].opCode != stored[c].operations[i].opCode
      && !CatalogHas(ops, cards[c].operations[i].opCode)
  {
    var used0 := CollectUsedOpCodes(catalog, stored);
    var used, next1; ghost var found1;
    ops, used, next1, found1 := AssignCatalogCodes(catalog, used0, draws, cursor);
    if found1 {
      forall i | 0 <= i < |catalog| && catalog[i].code != ""
        ensures catalog[i].code in used0
      {
        assert CatalogHas(catalog, catalog[i].code);
      }
      CatalogAllRegenerated(catalog, used0, ops);
    }
    var used'; ghost var found2;
    cards, used', next, found2 := AssignCardCodesApp(ops, stored, used, draws, next1);
    if found2 {
      forall c, i | 0 <= c < |stored| && 0 <= i < |stored[c].operations|
        ensures cards[c].operations[i].opCode != stored[c].operations[i].opCode
        ensures !CatalogHas(ops, cards[c].operations[i].opCode)
      {
        var code := stored[c].operations[i].opCode;
        if code != "" {
          assert RouteHasBefore(stored, |stored|, 0, code);
        }
      }
    }
    allFound := found1 && found2;
  }

  /**
   * The route operations of every card coded by the server's route pass,
   * nothing but the operations changed.
   */
  predicate CardsCoded(ops: seq<CatalogOp>, before: seq<Card>, after: seq<Card>) {
    && |after| == |before|
    && forall c :: 0 <= c < |after| ==>
      after[c] == before[c].(operations := after[c].operations)
      && ServerRouteCodes(ops, before[c].operations, after[c].operations)
  }

  lemma CardsCodedSnoc(ops: seq<CatalogOp>, stored: seq<Card>, cards: seq<Card>, n: nat, routeOps: seq<RouteOp>)
    requires n < |stored| && CardsCoded(ops, stored[..n], cards)
    requires ServerRouteCodes(ops, stored[n].operations, routeOps)
    ensures CardsCoded(ops, stored[..n + 1], cards + [stored[n].(operations := routeOps)])
  {
  }

  /** The body of `ensureOperationCodes` as it is evidently meant, over the catalogue and the cards. */
  method EnsuredCodesCorrected(catalog: seq<CatalogOp>, stored: seq<Card>, draws: nat -> string, cursor: nat)
    returns (ops: seq<CatalogOp>, cards: seq<Card>, next: nat, ghost allFound: bool)
    ensures next >= cursor
    ensures CatalogCodesKept(catalog, ops, allFound)
    ensures CardsCoded(ops, stored, cards)
  {
    ops, next, allFound := AssignCatalogCodesFresh(catalog, draws, cursor);
    cards := [];
    for n := 0 to |stored|
      invariant next >= cursor && CardsCoded(ops, stored[..n], cards)
    {
      var routeOps;
      routeOps, next := AssignRouteCodesServer(ops, stored[n].operations, draws, next);
      CardsCodedSnoc(ops, stored, cards, n, routeOps);
      cards := cards + [stored[n].(operations := routeOps)];
    }
    assert stored[..|stored|] == stored;
  }

  class Workshop {
    var cards: seq<Card>
    var ops: seq<CatalogOp>

    constructor(cards0: seq<Card>, ops0: seq<CatalogOp>)
      ensures cards == cards0 && ops == ops0
    {
      cards := cards0;
      ops := ops0;
    }

    /**
     * `applyOperationAction` on the operation `opId` of the card `cardId`:
     * the stored cards become `ActionResult`, and a refused stop reports why.
     */
    method ApplyOperationAction(action: Action, cardId: string, opId: string, now: nat,
                                tokens: nat -> string, logTokens: nat -> string)
      returns (rejection: Option<Rejection>)
      modifies this
      ensures (cards, rejection) == ActionResult(old(cards), action, cardId, opId, now, tokens, logTokens)
      ensures ops == old(ops)
    {
      cards, rejection := ApplyAction(cards, action, cardId, opId, now, tokens, logTokens);
    }

    /**
     * `duplicateCard`: the copy of the first card with that id, under the
     * first barcode the generator draws, appended to the cards. When the
     * numbering has run past twelve digits the generator throws and nothing
     * changes.
     */
    method DuplicateCard(cardId: string, now: nat, cardToken: string, fileTokens: nat -> string,
                         opTokens: nat -> string, itemTokens: (nat, nat) -> string,
                         tokens: nat -> string, logToken: string)
      modifies this
      ensures ops == old(ops)
      ensures cards == Duplicated(old(cards), cardId, now, cardToken, fileTokens, opTokens, itemTokens, tokens, logToken)
    {
      cards := DuplicateInto(cards, cardId, now, cardToken, fileTokens, opTokens, itemTokens, tokens, logToken);
    }

    /**
     * `saveCardDraft`: a new draft (or one with no original id) is prepared,
     * logged as created and appended; an edit replaces the first stored
     * card with the original id by the merged draft, its differences logged
     * after the stored log; an edit of a card that is gone changes nothing.
     */
    method SaveCardDraft(draft: Card, isNew: bool, originalId: Option<string>, now: nat, tokens: nat -> string,
                         itemTokens: (nat, nat) -> string, logTokens: nat -> string)
      modifies this
      ensures ops == old(ops)
      ensures DraftSaved(old(cards), cards, draft, isNew, originalId, now, tokens, itemTokens, logTokens)
    {
      cards := SaveDraftInto(cards, draft, isNew, originalId, now, tokens, itemTokens, logTokens);
    }

    /**
     * `ensureOperationCodes` as the browser writes it: `used` starts with
     * every code already present, so every catalogue operation draws a new
     * code, and so does every route operation, whose code then matches no
     * catalogue code. `allFound` records that no draw ran out of retries.
     */
    method EnsureOperationCodes(draws: nat -> string, cursor: nat) returns (next: nat, ghost allFound: bool)
      modifies this
      ensures next >= cursor
      ensures |ops| == |old(ops)|
      ensures forall i :: 0 <= i < |ops| ==> ops[i] == old(ops)[i].(code := ops[i].code) && ops[i].code != ""
      ensures allFound ==> forall i :: 0 <= i < |ops| ==> ops[i].code != old(ops)[i].code
      ensures |cards| == |old(cards)|
      ensures forall c :: 0 <= c < |cards| ==>
        && cards[c] == old(cards)[c].(operations := cards[c].operations)
        && |cards[c].operations| == |old(cards)[c].operations|
        && AppRouteCodes({}, old(cards)[c].operations, cards[c].operations, false)
      ensures allFound ==> forall c, i :: 0 <= c < |cards| && 0 <= i < |cards[c].operations| ==>
        && cards[c].operations[i].opCode != old(cards)[c].operations[i].opCode
        && !CatalogHas(ops, cards[c].operations[i].opCode)
    {
      ops, cards, next, allFound := EnsuredCodes(ops, cards, draws, cursor);
    }

    /**
     * `ensureOperationCodes` as it is evidently meant, and as the server
     * does it: `used` starts empty, so unique catalogue codes are kept, and a
     * route operation takes its catalogue operation's code.
     */
    method EnsureOperationCodesCorrected(draws: nat -> string, cursor: nat) returns (next: nat, ghost allFound: bool)
      modifies this
      ensures next >= cursor
      ensures CatalogCodesKept(old(ops), ops, allFound)
      ensures CardsCoded(ops, old(cards), cards)
    {
      ops, cards, next, allFound := EnsuredCodesCorrected(ops, cards, draws, cursor);
    }
  }
}
