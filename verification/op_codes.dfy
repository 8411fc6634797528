/**
 * Operation codes: the random "OP-xxxx" code generator and the pass of
 * `ensureOperationCodes` over the operation catalogue, shared by the browser
 * and the server. The random source is an oracle `draws`: draw `j` is the
 * random part of the `j`-th generated code, and a cursor says how many
 * draws have been used so far.
 */
module OpCodes {
  import opened Records

  /** `generateRawOpCode`: "OP-" followed by the random part. */
  function RawOpCode(draw: string): (code: string)
    ensures |code| >= 3 && code[..3] == "OP-"
  {
    "OP-" + draw
  }

  /** The code made from draw `j`. */
  function Drawn(draws: nat -> string, j: nat): string {
    RawOpCode(draws(j))
  }

  /**
   * Draw `j` is the one `generateUniqueOpCode` settles on when it starts at
   * `cursor`: every earlier draw was taken, and draw `j` is free or was the
   * last of the 1000 retries.
   */
  predicate FirstFreeDraw(used: set<string>, draws: nat -> string, cursor: nat, j: nat) {
    cursor <= j <= cursor + 1000
    && (forall k :: cursor <= k < j ==> Drawn(draws, k) in used)
    && (Drawn(draws, j) !in used || j == cursor + 1000)
  }

  /** At most one draw is the one settled on. */
  lemma FirstFreeDrawUnique(used: set<string>, draws: nat -> string, cursor: nat, j: nat, j': nat)
    requires FirstFreeDraw(used, draws, cursor, j) && FirstFreeDraw(used, draws, cursor, j')
    ensures j == j'
  {
  }

  /**
   * `generateUniqueOpCode` on the server: draws until the code is not in
   * `used`, at most 1000 retries. Returns the code and the new cursor.
   */
  method GenerateUniqueOpCode(used: set<string>, draws: nat -> string, cursor: nat) returns (code: string, next: nat)
    ensures next >= cursor + 1 && FirstFreeDraw(used, draws, cursor, next - 1)
    ensures code == Drawn(draws, next - 1)
  {
    code := Drawn(draws, cursor);
    next := cursor + 1;
    var attempt := 0;
    while code in used && attempt < 1000
      invariant 0 <= attempt <= 1000 && next == cursor + attempt + 1
      invariant code == Drawn(draws, next - 1)
      invariant forall k :: cursor <= k < next - 1 ==> Drawn(draws, k) in used
    {
      code := Drawn(draws, next);
      next := next + 1;
      attempt := attempt + 1;
    }
  }

  /**
   * `generateUniqueOpCode` in the browser: also retries an empty code. A
   * generated code always starts with "OP-", so that test never fires and
   * the browser settles on the same draw as the server.
   */
  method GenerateUniqueOpCodeApp(used: set<string>, draws: nat -> string, cursor: nat) returns (code: string, next: nat)
    ensures next >= cursor + 1 && FirstFreeDraw(used, draws, cursor, next - 1)
    ensures code == Drawn(draws, next - 1)
  {
    code := Drawn(draws, cursor);
    next := cursor + 1;
    var attempt := 0;
    while (code in used || code == "") && attempt < 1000
      invariant 0 <= attempt <= 1000 && next == cursor + attempt + 1
      invariant code == Drawn(draws, next - 1)
      invariant forall k :: cursor <= k < next - 1 ==> Drawn(draws, k) in used
    {
      code := Drawn(draws, next);
      next := next + 1;
      attempt := attempt + 1;
    }
  }

  /**
   * Whether the catalogue pass keeps operation `i`'s code: it is non-empty,
   * not in the starting set and not given to an earlier operation.
   */
  predicate KeepsCode(ops: seq<CatalogOp>, used0: set<string>, res: seq<CatalogOp>, i: nat)
    requires i < |ops| && i <= |res|
  {
    ops[i].code != "" && ops[i].code !in used0 && forall k :: 0 <= k < i ==> res[k].code != ops[i].code
  }

  /** The codes of a catalogue. */
  function CodeSet(res: seq<CatalogOp>): (s: set<string>)
    ensures forall k :: 0 <= k < |res| ==> res[k].code in s
    ensures forall c :: c in s ==> exists k :: 0 <= k < |res| && res[k].code == c
  {
    if res == [] then {}
    else
      var s := CodeSet(res[..|res| - 1]);
      assert forall k :: 0 <= k < |res| - 1 ==> res[k] == res[..|res| - 1][k];
      s + {res[|res| - 1].code}
  }

  /**
   * The catalogue pass of `ensureOperationCodes`: an operation keeps its code
   * when the code is non-empty and not yet used, and otherwise gets a
   * generated one; every code ends up in `used`. `allFound` records that no
   * generation ran out of its 1000 retries, and then the codes are pairwise
   * distinct and the generated ones avoid the starting set.
   */
  method AssignCatalogCodes(ops: seq<CatalogOp>, used0: set<string>, draws: nat -> string, cursor: nat)
    returns (res: seq<CatalogOp>, used: set<string>, next: nat, ghost allFound: bool)
    ensures |res| == |ops| && next >= cursor
    ensures used == used0 + CodeSet(res)
    ensures forall i :: 0 <= i < |ops| ==> res[i].code != ""
    ensures forall i :: 0 <= i < |ops| ==> res[i] == ops[i].(code := res[i].code)
    ensures forall i :: 0 <= i < |ops| && KeepsCode(ops, used0, res, i) ==> res[i] == ops[i]
    ensures allFound ==> forall i :: 0 <= i < |ops| && !KeepsCode(ops, used0, res, i) ==> res[i].code !in used0
    ensures allFound ==> forall i, j :: 0 <= i < j < |ops| ==> res[i].code != res[j].code
  {
    res := [];
    used := used0;
    next := cursor;
    allFound := true;
    for n := 0 to |ops|
      invariant |res| == n && next >= cursor
      invariant used == used0 + CodeSet(res)
      invariant forall i :: 0 <= i < n ==> CatalogSlot(ops, used0, res, i, allFound)
      invariant allFound ==> DistinctCodes(res)
    {
      res, used, next, allFound := CatalogStep(ops, used0, draws, res, used, next, allFound);
    }
    forall i | 0 <= i < |ops|
      ensures res[i].code != "" && res[i] == ops[i].(code := res[i].code)
      ensures KeepsCode(ops, used0, res, i) ==> res[i] == ops[i]
      ensures allFound && !KeepsCode(ops, used0, res, i) ==> res[i].code !in used0
    {
      assert CatalogSlot(ops, used0, res, i, allFound);
    }
  }

  /** One operation of the catalogue pass, keeping what the pass has established. */
  method CatalogStep(ops: seq<CatalogOp>, used0: set<string>, draws: nat -> string,
                     res0: seq<CatalogOp>, used1: set<string>, cursor: nat, ghost found0: bool)
    returns (res: seq<CatalogOp>, used: set<string>, next: nat, ghost allFound: bool)
    requires |res0| < |ops| && used1 == used0 + CodeSet(res0)
    requires forall i :: 0 <= i < |res0| ==> CatalogSlot(ops, used0, res0, i, found0)
    requires found0 ==> DistinctCodes(res0)
    ensures |res| == |res0| + 1 && next >= cursor && used == used0 + CodeSet(res)
    ensures forall i :: 0 <= i < |res| ==> CatalogSlot(ops, used0, res, i, allFound)
    ensures allFound ==> DistinctCodes(res)
  {
    res, used, next, allFound := res0, used1, cursor, found0;
    var n := |res|;
    var op := ops[n];
    var code := op.code;
    ghost var wasFound := allFound;
    ghost var prev := res;
    ghost var before := used;
    ghost var keeps := KeepsCode(ops, used0, res, n);
    if code == "" || code in used {
      var start := next;
      code, next := GenerateUniqueOpCode(used, draws, next);
      allFound := allFound && next - 1 < start + 1000;
      assert !keeps by {
        if op.code != "" && op.code !in used0 {
          var k :| 0 <= k < |res| && res[k].code == op.code;
        }
      }
    } else {
      assert keeps by {
        assert forall k :: 0 <= k < n ==> res[k].code in used;
      }
    }
    assert allFound ==> code !in before;
    used := used + {code};
    res := res + [op.(code := code)];
    CodeSetSnoc(prev, op.(code := code));
    SlotSnoc(ops, used0, prev, op.(code := code), wasFound, allFound, keeps);
    if allFound {
      assert forall k :: 0 <= k < n ==> prev[k].code in before;
      SnocDistinct(prev, op.(code := code));
    }
  }

  lemma CodeSetSnoc(res: seq<CatalogOp>, x: CatalogOp)
    ensures CodeSet(res + [x]) == CodeSet(res) + {x.code}
  {
    assert (res + [x])[..|res|] == res;
  }

  /** The slot facts after one more operation, given whether that operation kept its code. */
  lemma SlotSnoc(ops: seq<CatalogOp>, used0: set<string>, res: seq<CatalogOp>, x: CatalogOp,
                 wasFound: bool, found: bool, keeps: bool)
    requires |res| < |ops| && (found ==> wasFound)
    requires forall i :: 0 <= i < |res| ==> CatalogSlot(ops, used0, res, i, wasFound)
    requires keeps == KeepsCode(ops, used0, res, |res|)
    requires x.code != "" && x == ops[|res|].(code := x.code) && (keeps ==> x.code == ops[|res|].code)
    requires found && !keeps ==> x.code !in used0
    ensures forall i :: 0 <= i < |res| + 1 ==> CatalogSlot(ops, used0, res + [x], i, found)
  {
    SnocSlot(ops, used0, res, x, wasFound);
    var r := res + [x];
    assert forall k :: 0 <= k < |res| ==> r[k] == res[k];
    assert KeepsCode(ops, used0, r, |res|) == keeps;
  }

  /** What the catalogue pass has established for operation `i`. */
  predicate CatalogSlot(ops: seq<CatalogOp>, used0: set<string>, res: seq<CatalogOp>, i: nat, allFound: bool)
    requires i < |ops| && i < |res|
  {
    && res[i].code != ""
    && res[i] == ops[i].(code := res[i].code)
    && (KeepsCode(ops, used0, res, i) ==> res[i] == ops[i])
    && (allFound && !KeepsCode(ops, used0, res, i) ==> res[i].code !in used0)
  }

  /** Appending an operation leaves what was established for the earlier ones; `allFound` can only turn false. */
  lemma SnocSlot(ops: seq<CatalogOp>, used0: set<string>, res: seq<CatalogOp>, x: CatalogOp, allFound: bool)
    requires |res| < |ops|
    ensures forall i, found :: 0 <= i < |res| && (found ==> allFound) && CatalogSlot(ops, used0, res, i, allFound) ==>
      CatalogSlot(ops, used0, res + [x], i, found)
  {
    forall i, found | 0 <= i < |res| && (found ==> allFound) && CatalogSlot(ops, used0, res, i, allFound)
      ensures CatalogSlot(ops, used0, res + [x], i, found)
    {
      assert forall k :: 0 <= k <= i ==> (res + [x])[k] == res[k];
      assert KeepsCode(ops, used0, res + [x], i) == KeepsCode(ops, used0, res, i);
    }
  }

  predicate DistinctCodes(res: seq<CatalogOp>) {
    forall i, j :: 0 <= i < j < |res| ==> res[i].code != res[j].code
  }

  /** A code that no earlier operation carries keeps the codes pairwise distinct. */
  lemma SnocDistinct(res: seq<CatalogOp>, x: CatalogOp)
    requires DistinctCodes(res)
    requires forall k :: 0 <= k < |res| ==> res[k].code != x.code
    ensures DistinctCodes(res + [x])
  {
    var r := res + [x];
    forall i, j | 0 <= i < j < |r|
      ensures r[i].code != r[j].code
    {
      if j < |res| {
        assert r[i] == res[i] && r[j] == res[j];
      } else {
        assert r[i] == res[i] && r[j] == x;
      }
    }
  }

  /**
   * With no starting set and a catalogue whose codes are non-empty and
   * pairwise distinct, the pass changes nothing: this is the server's call.
   */
  lemma CatalogKeptWhenUnique(ops: seq<CatalogOp>, res: seq<CatalogOp>)
    requires |res| == |ops|
    requires forall i :: 0 <= i < |ops| ==> res[i] == ops[i].(code := res[i].code)
    requires forall i :: 0 <= i < |ops| && KeepsCode(ops, {}, res, i) ==> res[i] == ops[i]
    requires forall i :: 0 <= i < |ops| ==> ops[i].code != ""
    requires forall i, j :: 0 <= i < j < |ops| ==> ops[i].code != ops[j].code
    ensures res == ops
  {
    var n := 0;
    while n < |ops|
      invariant 0 <= n <= |ops|
      invariant forall k :: 0 <= k < n ==> res[k] == ops[k]
    {
      assert forall k :: 0 <= k < n ==> res[k].code != ops[n].code;
      assert KeepsCode(ops, {}, res, n);
      n := n + 1;
    }
  }

  /**
   * When the starting set already holds every catalogue code, as the browser
   * seeds it, no code is kept: every operation receives a new code.
   */
  lemma CatalogAllRegenerated(ops: seq<CatalogOp>, used0: set<string>, res: seq<CatalogOp>)
    requires |res| == |ops|
    requires forall i :: 0 <= i < |ops| ==> res[i].code != ""
    requires forall i :: 0 <= i < |ops| && !KeepsCode(ops, used0, res, i) ==> res[i].code !in used0
    requires forall i :: 0 <= i < |ops| && ops[i].code != "" ==> ops[i].code in used0
    ensures forall i :: 0 <= i < |ops| ==> res[i].code != ops[i].code
  {
    forall i | 0 <= i < |ops|
      ensures res[i].code != ops[i].code
    {
      assert !KeepsCode(ops, used0, res, i);
    }
  }

  /**
   * The catalogue operation a route operation refers to: `opMap[opId]` with
   * the map built by `Object.fromEntries`, so the last operation with that
   * id wins; an empty `opId` refers to nothing.
   */
  function SourceOf(catalog: seq<CatalogOp>, opId: string): (r: Option<CatalogOp>)
    ensures r.Some? ==> opId != "" && r.value.id == opId && r.value in catalog
    ensures r.None? ==> opId == "" || forall k :: 0 <= k < |catalog| ==> catalog[k].id != opId
  {
    if opId == "" || catalog == [] then None
    else if catalog[|catalog| - 1].id == opId then Some(catalog[|catalog| - 1])
    else
      var r := SourceOf(catalog[..|catalog| - 1], opId);
      assert forall k :: 0 <= k < |catalog| - 1 ==> catalog[k] == catalog[..|catalog| - 1][k];
      r
  }

  /** `Object.fromEntries` keeps the last entry: a linked step finds the last catalogue operation with its id. */
  lemma {:induction false} LastCatalogOp(catalog: seq<CatalogOp>, opId: string, k: nat)
    requires opId != "" && k < |catalog| && catalog[k].id == opId
    requires forall k' :: k < k' < |catalog| ==> catalog[k'].id != opId
    ensures SourceOf(catalog, opId) == Some(catalog[k])
    decreases |catalog|
  {
    if k < |catalog| - 1 {
      var init := catalog[..|catalog| - 1];
      assert init[k] == catalog[k];
      LastCatalogOp(init, opId, k);
    }
  }

  /** The catalogue code a route operation takes over, if its source has a non-empty one. */
  function SourceCode(catalog: seq<CatalogOp>, op: RouteOp): Option<string> {
    var src := SourceOf(catalog, op.opId);
    if src.Some? && src.value.code != "" then Some(src.value.code) else None
  }

  /** The code the server gives a route operation: its source's code, else its own, else a drawn one. */
  predicate ServerRouteCode(catalog: seq<CatalogOp>, op: RouteOp, code: string) {
    code != ""
    && (SourceCode(catalog, op).Some? ==> code == SourceCode(catalog, op).value)
    && (SourceCode(catalog, op).None? && op.opCode != "" ==> code == op.opCode)
  }

  /** Every catalogue code is present and no two are equal. */
  predicate UniqueCodes(catalog: seq<CatalogOp>) {
    && (forall i :: 0 <= i < |catalog| ==> catalog[i].code != "")
    && (forall i, j :: 0 <= i < j < |catalog| ==> catalog[i].code != catalog[j].code)
  }

  /**
   * The catalogue after codes are assigned with `used` starting empty: only
   * codes change, none is blank, a catalogue whose codes are all present and
   * distinct is kept as it is, and when no draw ran out of retries the codes
   * are distinct.
   */
  predicate CatalogCodesKept(catalog: seq<CatalogOp>, ops: seq<CatalogOp>, allFound: bool) {
    && |ops| == |catalog|
    && (forall i :: 0 <= i < |ops| ==> ops[i] == catalog[i].(code := ops[i].code) && ops[i].code != "")
    && (UniqueCodes(catalog) ==> ops == catalog)
    && (allFound ==> forall i, j :: 0 <= i < j < |ops| ==> ops[i].code != ops[j].code)
  }

  /** The catalogue pass with `used` starting empty, as the server runs it. */
  method AssignCatalogCodesFresh(catalog: seq<CatalogOp>, draws: nat -> string, cursor: nat)
    returns (ops: seq<CatalogOp>, next: nat, ghost allFound: bool)
    ensures next >= cursor && CatalogCodesKept(catalog, ops, allFound)
  {
    var used;
    ops, used, next, allFound := AssignCatalogCodes(catalog, {}, draws, cursor);
    if UniqueCodes(catalog) {
      CatalogKeptWhenUnique(catalog, ops);
    }
  }

  /** `after` is `before` with only the operation codes changed, each as the server assigns it. */
  predicate ServerRouteCodes(catalog: seq<CatalogOp>, before: seq<RouteOp>, after: seq<RouteOp>) {
    |after| == |before|
    && forall i :: 0 <= i < |before| ==>
      after[i] == before[i].(opCode := after[i].opCode) && ServerRouteCode(catalog, before[i], after[i].opCode)
  }

  /**
   * The route pass of the server's `ensureOperationCodes` over one card: take
   * the code of the catalogue operation referred to, and draw a code only
   * when the operation is left without one.
   */
  method AssignRouteCodesServer(catalog: seq<CatalogOp>, ops: seq<RouteOp>, draws: nat -> string, cursor: nat)
    returns (res: seq<RouteOp>, next: nat)
    ensures ServerRouteCodes(catalog, ops, res) && next >= cursor
  {
    res := [];
    next := cursor;
    for n := 0 to |ops|
      invariant |res| == n && next >= cursor
      invariant forall i :: 0 <= i < n ==>
        res[i] == ops[i].(opCode := res[i].opCode) && ServerRouteCode(catalog, ops[i], res[i].opCode)
    {
      var op := ops[n];
      var src := SourceOf(catalog, op.opId);
      if src.Some? && src.value.code != "" {
        op := op.(opCode := src.value.code);
      }
      if op.opCode == "" {
        var code;
        code, next := GenerateUniqueOpCode({}, draws, next);
        op := op.(opCode := code);
      }
      res := res + [op];
    }
  }

  /** `after` is `before` with only the operation codes changed, each non-empty and, when `allFound`, outside `used0`. */
  predicate AppRouteCodes(used0: set<string>, before: seq<RouteOp>, after: seq<RouteOp>, allFound: bool) {
    |after| == |before|
    && (forall i :: 0 <= i < |before| ==> after[i] == before[i].(opCode := after[i].opCode) && after[i].opCode != "")
    && (allFound ==> forall i :: 0 <= i < |before| ==> after[i].opCode !in used0)
  }

  /**
   * The route pass of the browser's `ensureOperationCodes` over one card:
   * take the catalogue code, then draw a new code when the code is empty or
   * already in `used`, and add it to `used`.
   */
  method AssignRouteCodesApp(catalog: seq<CatalogOp>, ops: seq<RouteOp>, used0: set<string>, draws: nat -> string, cursor: nat)
    returns (res: seq<RouteOp>, used: set<string>, next: nat, ghost allFound: bool)
    ensures AppRouteCodes(used0, ops, res, allFound) && used0 <= used && next >= cursor
  {
    res := [];
    used := used0;
    next := cursor;
    allFound := true;
    for n := 0 to |ops|
      invariant |res| == n && used0 <= used && next >= cursor
      invariant forall i :: 0 <= i < n ==> res[i] == ops[i].(opCode := res[i].opCode) && res[i].opCode != ""
      invariant allFound ==> forall i :: 0 <= i < n ==> res[i].opCode !in used0
      invariant forall i :: 0 <= i < n ==> res[i].opCode in used
    {
      var op;
      ghost var found;
      op, next, found := AppRouteStep(catalog, ops[n], used, draws, next);
      allFound := allFound && found;
      used := used + {op.opCode};
      res := res + [op];
    }
  }

  /**
   * One operation of the browser's route pass: the catalogue code, then a
   * fresh draw when that is empty or already used; `found` records that the
   * draw did not run out of retries.
   */
  method AppRouteStep(catalog: seq<CatalogOp>, op: RouteOp, used: set<string>, draws: nat -> string, cursor: nat)
    returns (res: RouteOp, next: nat, ghost found: bool)
    ensures res == op.(opCode := res.opCode) && res.opCode != "" && next >= cursor
    ensures found ==> res.opCode !in used
  {
    res := op;
    next := cursor;
    found := true;
    var src := SourceOf(catalog, op.opId);
    if src.Some? && src.value.code != "" {
      res := res.(opCode := src.value.code);
    }
    if res.opCode == "" || res.opCode in used {
      var code;
      code, next := GenerateUniqueOpCodeApp(used, draws, cursor);
      found := next - 1 < cursor + 1000;
      res := res.(opCode := code);
    }
  }

  /**
   * The route pass of the browser over every card, threading `used` and the
   * draw cursor from card to card.
   */
  method AssignCardCodesApp(catalog: seq<CatalogOp>, cards: seq<Card>, used0: set<string>, draws: nat -> string, cursor: nat)
    returns (res: seq<Card>, used: set<string>, next: nat, ghost allFound: bool)
    ensures |res| == |cards| && used0 <= used && next >= cursor
    ensures forall c :: 0 <= c < |cards| ==>
      res[c] == cards[c].(operations := res[c].operations)
      && AppRouteCodes(used0, cards[c].operations, res[c].operations, allFound)
  {
    res := [];
    used := used0;
    next := cursor;
    allFound := true;
    for n := 0 to |cards|
      invariant |res| == n && used0 <= used && next >= cursor
      invariant forall c :: 0 <= c < n ==>
        res[c] == cards[c].(operations := res[c].operations)
        && AppRouteCodes(used0, cards[c].operations, res[c].operations, allFound)
    {
      var ops;
      ghost var found;
      ops, used, next, found := AssignRouteCodesApp(catalog, cards[n].operations, used, draws, next);
      assert AppRouteCodes(used0, cards[n].operations, ops, allFound && found);
      allFound := allFound && found;
      res := res + [cards[n].(operations := ops)];
    }
  }
}
