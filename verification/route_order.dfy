/**
 * Route order: the stable sort by `(op.order || 0)` the source performs with
 * `Array.prototype.sort`, the automatic step codes `order * 5` that
 * `renumberAutoCodesForCard` writes in that order, and the draft editor's
 * move-up/move-down of a route step.
 */
module RouteOrder {
  import opened Records
  import opened Decimal

  /** `(op.order || 0)`: the sort key of a route step. */
  function OrderKey(op: RouteOp): int {
    op.order.GetOr(0)
  }

  function Keys(ops: seq<RouteOp>): (k: seq<int>)
    ensures |k| == |ops|
    ensures forall i :: 0 <= i < |ops| ==> k[i] == OrderKey(ops[i])
  {
    seq(|ops|, i requires 0 <= i < |ops| => OrderKey(ops[i]))
  }

  predicate InRange(s: seq<nat>, n: nat) {
    forall p :: 0 <= p < |s| ==> s[p] < n
  }

  /** Position `a` comes before position `b` in a stable ascending sort. */
  predicate Before(keys: seq<int>, a: nat, b: nat)
    requires a < |keys| && b < |keys|
  {
    keys[a] < keys[b] || (keys[a] == keys[b] && a < b)
  }

  predicate LexSorted(keys: seq<int>, s: seq<nat>)
    requires InRange(s, |keys|)
  {
    forall p, q :: 0 <= p < q < |s| ==> Before(keys, s[p], s[q])
  }

  /** Inserts `j` behind every element whose key is not greater than its own. */
  function Insert(keys: seq<int>, s: seq<nat>, j: nat): (r: seq<nat>)
    requires InRange(s, |keys|) && j < |keys|
    ensures |r| == |s| + 1 && InRange(r, |keys|)
    ensures forall x :: x in r <==> x in s || x == j
  {
    if s == [] then [j]
    else if keys[s[|s| - 1]] <= keys[j] then s + [j]
    else Insert(keys, s[..|s| - 1], j) + [s[|s| - 1]]
  }

  /** The positions `0 .. n-1` in stable ascending key order. */
  function SortedIdx(keys: seq<int>, n: nat): (r: seq<nat>)
    requires n <= |keys|
    ensures |r| == n && InRange(r, n)
    ensures forall i :: 0 <= i < n ==> i in r
  {
    if n == 0 then []
    else
      var r := Insert(keys, SortedIdx(keys, n - 1), n - 1);
      assert forall p :: 0 <= p < |r| ==> r[p] in r;
      r
  }

  /** The route order of a card's operations, as positions in its array. */
  function RouteIdx(ops: seq<RouteOp>): (r: seq<nat>)
    ensures |r| == |ops| && InRange(r, |ops|)
    ensures forall i :: 0 <= i < |ops| ==> i in r
  {
    SortedIdx(Keys(ops), |ops|)
  }

  lemma {:induction false} InsertSorted(keys: seq<int>, s: seq<nat>, j: nat)
    requires InRange(s, |keys|) && j < |keys|
    requires LexSorted(keys, s)
    requires forall p :: 0 <= p < |s| ==> s[p] < j
    ensures LexSorted(keys, Insert(keys, s, j))
  {
    if s != [] && keys[s[|s| - 1]] > keys[j] {
      var init, last := s[..|s| - 1], s[|s| - 1];
      InsertSorted(keys, init, j);
      var r := Insert(keys, s, j);
      var r0 := Insert(keys, init, j);
      assert r == r0 + [last];
      forall p | 0 <= p < |r0|
        ensures Before(keys, r0[p], last)
      {
        var x := r0[p];
        assert x in r0;
        if x != j {
          var p' :| 0 <= p' < |init| && init[p'] == x;
          assert s[p'] == x && s[|s| - 1] == last;
        }
      }
    }
  }

  /** The stable sort is sorted by (key, position). */
  lemma {:induction false} SortedIdxSorted(keys: seq<int>, n: nat)
    requires n <= |keys|
    ensures LexSorted(keys, SortedIdx(keys, n))
  {
    if n > 0 {
      SortedIdxSorted(keys, n - 1);
      InsertSorted(keys, SortedIdx(keys, n - 1), n - 1);
    }
  }

  /** Sorted by (key, position) means no position is listed twice. */
  lemma SortedDistinct(keys: seq<int>, s: seq<nat>)
    requires InRange(s, |keys|) && LexSorted(keys, s)
    ensures forall p, q :: 0 <= p < |s| && 0 <= q < |s| && p != q ==> s[p] != s[q]
  {
    forall p, q | 0 <= p < |s| && 0 <= q < |s| && p != q
      ensures s[p] != s[q]
    {
      if p < q { assert Before(keys, s[p], s[q]); } else { assert Before(keys, s[q], s[p]); }
    }
  }

  /** The first position of `x` in `s`. */
  function PosOf(s: seq<nat>, x: nat): (p: nat)
    requires x in s
    ensures p < |s| && s[p] == x
  {
    if s[0] == x then 0 else 1 + PosOf(s[1..], x)
  }

  /** The elements of `xs` at the listed positions (the array the editor sorts). */
  function Permute<T>(xs: seq<T>, r: seq<nat>): (res: seq<T>)
    requires InRange(r, |xs|)
    ensures |res| == |r|
    ensures forall p :: 0 <= p < |r| ==> res[p] == xs[r[p]]
  {
    seq(|r|, p requires 0 <= p < |r| => xs[r[p]])
  }

  /** Inserting places `j` at some position `k`, leaving the listed order on both sides. */
  lemma {:induction false} InsertSplits(keys: seq<int>, s: seq<nat>, j: nat) returns (k: nat)
    requires InRange(s, |keys|) && j < |keys|
    ensures k <= |s| && Insert(keys, s, j) == s[..k] + [j] + s[k..]
  {
    if s == [] {
      k := 0;
    } else if keys[s[|s| - 1]] <= keys[j] {
      k := |s|;
      assert s[..k] == s && s[k..] == [];
    } else {
      var init := s[..|s| - 1];
      k := InsertSplits(keys, init, j);
      assert Insert(keys, s, j) == init[..k] + [j] + init[k..] + [s[|s| - 1]];
      assert s[..k] == init[..k];
      assert s[k..] == init[k..] + [s[|s| - 1]];
    }
  }

  lemma PermuteConcat<T>(xs: seq<T>, a: seq<nat>, b: seq<nat>)
    requires InRange(a, |xs|) && InRange(b, |xs|)
    ensures InRange(a + b, |xs|)
    ensures Permute(xs, a + b) == Permute(xs, a) + Permute(xs, b)
  {
    var ab := a + b;
    assert forall p :: 0 <= p < |ab| ==> ab[p] == (if p < |a| then a[p] else b[p - |a|]);
    var l, r := Permute(xs, ab), Permute(xs, a) + Permute(xs, b);
    assert forall p :: 0 <= p < |ab| ==> l[p] == r[p];
  }

  /** Inserting a position adds exactly its element to the listed multiset. */
  lemma InsertPermutes<T>(xs: seq<T>, keys: seq<int>, s: seq<nat>, j: nat)
    requires |keys| == |xs| && InRange(s, |xs|) && j < |xs|
    ensures multiset(Permute(xs, Insert(keys, s, j))) == multiset(Permute(xs, s)) + multiset{xs[j]}
  {
    var k := InsertSplits(keys, s, j);
    var front, back := s[..k], s[k..];
    assert InRange(front, |xs|) && InRange(back, |xs|);
    PermuteConcat(xs, front, [j]);
    PermuteConcat(xs, front + [j], back);
    PermuteConcat(xs, front, back);
    assert front + back == s;
    assert Permute(xs, [j]) == [xs[j]];
  }

  /** Listing the elements in sorted order neither loses nor duplicates any. */
  lemma {:induction false} SortedIdxPermutes<T>(xs: seq<T>, keys: seq<int>, n: nat)
    requires |keys| == |xs| && n <= |xs|
    ensures multiset(Permute(xs, SortedIdx(keys, n))) == multiset(xs[..n])
  {
    if n > 0 {
      SortedIdxPermutes(xs, keys, n - 1);
      InsertPermutes(xs, keys, SortedIdx(keys, n - 1), n - 1);
      assert xs[..n] == xs[..n - 1] + [xs[n - 1]];
    }
  }

  /** Every route step is either strictly before or strictly after another. */
  lemma RouteIdxFacts(ops: seq<RouteOp>)
    ensures LexSorted(Keys(ops), RouteIdx(ops))
    ensures forall p, q :: 0 <= p < |ops| && 0 <= q < |ops| && p != q ==> RouteIdx(ops)[p] != RouteIdx(ops)[q]
    ensures multiset(Permute(ops, RouteIdx(ops))) == multiset(ops)
  {
    SortedIdxSorted(Keys(ops), |ops|);
    SortedDistinct(Keys(ops), RouteIdx(ops));
    SortedIdxPermutes(ops, Keys(ops), |ops|);
    assert ops[..|ops|] == ops;
  }

  /** `formatStepCode(step)`: `String(step * 5).padStart(3, '0')`. */
  function FormatStepCode(step: nat): string {
    PadStart(NatToString(step * 5), 3, '0')
  }

  /** A step code is the digits of `5 * step`, three of them up to step 199. */
  lemma StepCodeDigits(step: nat)
    ensures AllDigits(FormatStepCode(step))
    ensures ValueOf(FormatStepCode(step)) == 5 * step
    ensures step < 200 ==> |FormatStepCode(step)| == 3
  {
    PaddedValue(step * 5, 3);
    if step < 200 {
      assert Pow10(3) == 1000;
      NatToStringLength(step * 5, 3);
    }
  }

  /** Distinct steps never share a code. */
  lemma StepCodeInjective(a: nat, b: nat)
    requires a != b
    ensures FormatStepCode(a) != FormatStepCode(b)
  {
    StepCodeDigits(a);
    StepCodeDigits(b);
  }

  /** How many of the listed positions hold automatically coded operations. */
  function CountAuto(ops: seq<RouteOp>, s: seq<nat>): nat
    requires InRange(s, |ops|)
  {
    if s == [] then 0
    else CountAuto(ops, s[..|s| - 1]) + (if ops[s[|s| - 1]].autoCode then 1 else 0)
  }

  /** The value of `autoIndex` when the route walk reaches operation `i`. */
  function AutoIndexAt(ops: seq<RouteOp>, i: nat): nat
    requires i < |ops|
  {
    var r := RouteIdx(ops);
    CountAuto(ops, r[..PosOf(r, i) + 1])
  }

  /**
   * The operations after `renumberAutoCodesForCard`: every automatically
   * coded step gets the code of its rank among automatic steps in route
   * order; the array keeps its order and every other field.
   */
  function Renumbered(ops: seq<RouteOp>): (res: seq<RouteOp>)
    ensures |res| == |ops|
  {
    seq(|ops|, i requires 0 <= i < |ops| =>
      if ops[i].autoCode then ops[i].(opCode := FormatStepCode(AutoIndexAt(ops, i))) else ops[i])
  }

  /** `renumberAutoCodesForCard`: walk the route in order, counting automatic steps. */
  method RenumberAutoCodes(ops: seq<RouteOp>) returns (res: seq<RouteOp>)
    ensures res == Renumbered(ops)
  {
    var order := RouteIdx(ops);
    RouteIdxFacts(ops);
    res := ops;
    var autoIndex := 0;
    for p := 0 to |order|
      invariant Renumbering(ops, order, res, p, autoIndex)
    {
      res, autoIndex := RenumberStep(ops, order, res, p, autoIndex);
    }
    forall i | 0 <= i < |ops|
      ensures res[i] == Renumbered(ops)[i]
    {
      var p := PosOf(order, i);
      VisitRenumbered(ops, order, p);
    }
  }

  /** Operation `order[p]` as the route walk leaves it: coded with the counter just after it. */
  function Visited(ops: seq<RouteOp>, order: seq<nat>, p: nat): RouteOp
    requires InRange(order, |ops|) && p < |order|
  {
    if ops[order[p]].autoCode then ops[order[p]].(opCode := FormatStepCode(CountAuto(ops, order[..p + 1])))
    else ops[order[p]]
  }

  /** The route walk after `p` steps: visited operations renumbered, the rest untouched. */
  ghost predicate Renumbering(ops: seq<RouteOp>, order: seq<nat>, res: seq<RouteOp>, p: nat, autoIndex: nat) {
    && InRange(order, |ops|) && |order| == |ops| && p <= |order| && |res| == |ops|
    && (forall p, q :: 0 <= p < |ops| && 0 <= q < |ops| && p != q ==> order[p] != order[q])
    && autoIndex == CountAuto(ops, order[..p])
    && (forall q :: 0 <= q < p ==> res[order[q]] == Visited(ops, order, q))
    && (forall q :: p <= q < |order| ==> res[order[q]] == ops[order[q]])
  }

  /** One step of the route walk: the operation at route position `p`. */
  method RenumberStep(ops: seq<RouteOp>, order: seq<nat>, res0: seq<RouteOp>, p: nat, autoIndex0: nat)
    returns (res: seq<RouteOp>, autoIndex: nat)
    requires Renumbering(ops, order, res0, p, autoIndex0) && p < |order|
    ensures Renumbering(ops, order, res, p + 1, autoIndex)
  {
    res, autoIndex := res0, autoIndex0;
    var i := order[p];
    CountAutoStep(ops, order, p);
    if res[i].autoCode {
      autoIndex := autoIndex + 1;
      res := res[i := res[i].(opCode := FormatStepCode(autoIndex))];
      OtherStepsUntouched(order, res0, p, res[i]);
    }
  }

  /** The counter after visiting route position `p`. */
  lemma CountAutoStep(ops: seq<RouteOp>, order: seq<nat>, p: nat)
    requires InRange(order, |ops|) && p < |order|
    ensures CountAuto(ops, order[..p + 1]) == CountAuto(ops, order[..p]) + if ops[order[p]].autoCode then 1 else 0
  {
    assert order[..p + 1][..p] == order[..p];
  }

  /** The operation at route position `p` is renumbered with the counter after the visit. */
  lemma VisitRenumbered(ops: seq<RouteOp>, order: seq<nat>, p: nat)
    requires order == RouteIdx(ops) && p < |order|
    requires forall p, q :: 0 <= p < |ops| && 0 <= q < |ops| && p != q ==> order[p] != order[q]
    ensures Renumbered(ops)[order[p]] == Visited(ops, order, p)
  {
    assert PosOf(order, order[p]) == p;
    RenumberedAt(ops, order[p]);
  }

  /** Updating the operation at route position `p` leaves the others as they were. */
  lemma OtherStepsUntouched<T>(order: seq<nat>, xs: seq<T>, p: nat, x: T)
    requires p < |order| && InRange(order, |xs|)
    requires forall p, q :: 0 <= p < |order| && 0 <= q < |order| && p != q ==> order[p] != order[q]
    ensures forall q :: 0 <= q < |order| && q != p ==> xs[order[p] := x][order[q]] == xs[order[q]]
  {
  }

  lemma {:induction false} CountAutoPrefix(ops: seq<RouteOp>, s: seq<nat>, p: nat, q: nat)
    requires InRange(s, |ops|) && p <= q <= |s|
    ensures CountAuto(ops, s[..p]) <= CountAuto(ops, s[..q])
    ensures p < q && ops[s[q - 1]].autoCode ==> CountAuto(ops, s[..p]) < CountAuto(ops, s[..q])
  {
    if p < q {
      CountAutoPrefix(ops, s, p, q - 1);
      assert s[..q][..q - 1] == s[..q - 1];
    }
  }

  /** What renumbering does to one operation. */
  lemma RenumberedAt(ops: seq<RouteOp>, i: nat)
    requires i < |ops|
    ensures Renumbered(ops)[i] ==
      if ops[i].autoCode then ops[i].(opCode := FormatStepCode(AutoIndexAt(ops, i))) else ops[i]
  {
  }

  /** Two automatic steps are reached at different values of the counter. */
  lemma AutoIndexDistinct(ops: seq<RouteOp>, i: nat, j: nat)
    requires i < |ops| && j < |ops| && i != j
    requires ops[i].autoCode && ops[j].autoCode
    ensures AutoIndexAt(ops, i) != AutoIndexAt(ops, j)
  {
    var r := RouteIdx(ops);
    var pi := AutoIndexPos(ops, i);
    var pj := AutoIndexPos(ops, j);
    if pi < pj {
      CountAutoRises(ops, r, pi, pj);
    } else {
      CountAutoRises(ops, r, pj, pi);
    }
  }

  /** The counter after a later automatic step is larger. */
  lemma CountAutoRises(ops: seq<RouteOp>, s: seq<nat>, p: nat, q: nat)
    requires InRange(s, |ops|) && p < q < |s| && ops[s[q]].autoCode
    ensures CountAuto(ops, s[..p + 1]) < CountAuto(ops, s[..q + 1])
  {
    CountAutoPrefix(ops, s, p + 1, q + 1);
  }

  /** Where the route walk reaches operation `i`, and the counter there. */
  lemma AutoIndexPos(ops: seq<RouteOp>, i: nat) returns (p: nat)
    requires i < |ops|
    ensures p < |ops| && RouteIdx(ops)[p] == i
    ensures AutoIndexAt(ops, i) == CountAuto(ops, RouteIdx(ops)[..p + 1])
  {
    p := PosOf(RouteIdx(ops), i);
  }

  /** After renumbering, no two automatic steps share a code. */
  lemma RenumberedCodesDistinct(ops: seq<RouteOp>, i: nat, j: nat)
    requires i < |ops| && j < |ops| && i != j
    requires ops[i].autoCode && ops[j].autoCode
    ensures Renumbered(ops)[i].opCode != Renumbered(ops)[j].opCode
  {
    AutoIndexDistinct(ops, i, j);
    StepCodeInjective(AutoIndexAt(ops, i), AutoIndexAt(ops, j));
    RenumberedAt(ops, i);
    RenumberedAt(ops, j);
  }

  /** The k-th automatic step in route order gets the code of step k (005, 010, ...). */
  lemma RenumberedCodeRank(ops: seq<RouteOp>, i: nat)
    requires i < |ops| && ops[i].autoCode
    ensures 1 <= AutoIndexAt(ops, i) <= CountAuto(ops, RouteIdx(ops))
    ensures Renumbered(ops)[i].opCode == FormatStepCode(AutoIndexAt(ops, i))
  {
    AutoIndexBounds(ops, i);
    RenumberedAt(ops, i);
  }

  lemma AutoIndexBounds(ops: seq<RouteOp>, i: nat)
    requires i < |ops| && ops[i].autoCode
    ensures 1 <= AutoIndexAt(ops, i) <= CountAuto(ops, RouteIdx(ops))
  {
    var r := RouteIdx(ops);
    var p := PosOf(r, i);
    CountAutoPrefix(ops, r, p, p + 1);
    CountAutoPrefix(ops, r, p + 1, |r|);
    assert r[..|r|] == r;
  }

  lemma {:induction false} CountAutoSameFlags(a: seq<RouteOp>, b: seq<RouteOp>, s: seq<nat>)
    requires |a| == |b| && InRange(s, |a|)
    requires forall i :: 0 <= i < |a| ==> a[i].autoCode == b[i].autoCode
    ensures CountAuto(a, s) == CountAuto(b, s)
  {
    if s != [] {
      CountAutoSameFlags(a, b, s[..|s| - 1]);
    }
  }

  /** The counter value a step is reached at depends only on the order keys and the automatic flags. */
  lemma AutoIndexSameShape(a: seq<RouteOp>, b: seq<RouteOp>, i: nat)
    requires |a| == |b| && i < |a| && Keys(a) == Keys(b)
    requires forall k :: 0 <= k < |a| ==> a[k].autoCode == b[k].autoCode
    ensures AutoIndexAt(a, i) == AutoIndexAt(b, i)
  {
    var r := RouteIdx(a);
    assert RouteIdx(b) == r;
    CountAutoSameFlags(a, b, r[..PosOf(r, i) + 1]);
  }

  /** Renumbering only depends on order keys and auto flags, which it keeps. */
  lemma RenumberedIdempotent(ops: seq<RouteOp>)
    ensures Renumbered(Renumbered(ops)) == Renumbered(ops)
  {
    var r1 := Renumbered(ops);
    assert Keys(r1) == Keys(ops);
    forall i | 0 <= i < |ops| ensures AutoIndexAt(r1, i) == AutoIndexAt(ops, i) {
      var r := RouteIdx(ops);
      CountAutoSameFlags(r1, ops, r[..PosOf(r, i) + 1]);
    }
  }

  /** Route order swap of `moveRouteOpInDraft`; `None` when it does nothing. */
  function MoveTarget(sorted: seq<RouteOp>, ropId: string, delta: int): Option<(nat, nat)>
  {
    var found := FindById(sorted, ropId);
    if found.None? then None
    else
      var idx := found.value;
      var newIdx := idx + delta;
      if newIdx < 0 || newIdx >= |sorted| then None else Some((idx, newIdx as nat))
  }

  /** `findIndex(o => o.id === id)`. */
  function FindById(ops: seq<RouteOp>, id: string): (r: Option<nat>)
    ensures r.Some? ==> r.value < |ops| && ops[r.value].id == id
    ensures r.Some? ==> forall k :: 0 <= k < r.value ==> ops[k].id != id
    ensures r.None? ==> forall k :: 0 <= k < |ops| ==> ops[k].id != id
  {
    if ops == [] then None
    else if ops[0].id == id then Some(0)
    else
      var rest := FindById(ops[1..], id);
      if rest.None? then None else Some(rest.value + 1)
  }

  /** The two `order` values exchanged, everything else kept. */
  function SwapOrders(sorted: seq<RouteOp>, a: nat, b: nat): (r: seq<RouteOp>)
    requires a < |sorted| && b < |sorted|
    ensures |r| == |sorted|
    ensures r[a].id == sorted[a].id && r[b].id == sorted[b].id
    ensures r[a].order == sorted[b].order && r[b].order == sorted[a].order
    ensures forall k :: 0 <= k < |sorted| && k != a && k != b ==> r[k] == sorted[k]
    ensures forall k :: 0 <= k < |sorted| ==> r[k] == sorted[k].(order := r[k].order)
  {
    sorted[a := sorted[a].(order := sorted[b].order)][b := sorted[b].(order := sorted[a].order)]
  }

  /**
   * `moveRouteOpInDraft`: the draft's operations are replaced by their route
   * order with the `order` values of the step and its neighbour swapped, and
   * renumbered; nothing changes when the step is missing or at the end.
   */
  method MoveRouteOpInDraft(draft: Card, ropId: string, delta: int) returns (moved: Card)
    ensures MoveTarget(Permute(draft.operations, RouteIdx(draft.operations)), ropId, delta).None? ==> moved == draft
    ensures MoveTarget(Permute(draft.operations, RouteIdx(draft.operations)), ropId, delta).Some? ==>
      var sorted := Permute(draft.operations, RouteIdx(draft.operations));
      var (a, b) := MoveTarget(sorted, ropId, delta).value;
      moved == draft.(operations := Renumbered(SwapOrders(sorted, a, b)))
  {
    var opsArr := Permute(draft.operations, RouteIdx(draft.operations));
    var idx := FindById(opsArr, ropId);
    if idx.None? {
      return draft;
    }
    var newIdx := idx.value + delta;
    if newIdx < 0 || newIdx >= |opsArr| {
      return draft;
    }
    var tmpOrder := opsArr[idx.value].order;
    opsArr := opsArr[idx.value := opsArr[idx.value].(order := opsArr[newIdx].order)];
    opsArr := opsArr[newIdx := opsArr[newIdx].(order := tmpOrder)];
    var renumbered := RenumberAutoCodes(opsArr);
    moved := draft.(operations := renumbered);
  }

  /**
   * A move keeps the route's steps (up to `order` and codes), puts the moved
   * step where it was in route order, and gives it its neighbour's `order`.
   */
  lemma MoveFacts(ops: seq<RouteOp>, ropId: string, delta: int)
    requires MoveTarget(Permute(ops, RouteIdx(ops)), ropId, delta).Some?
    ensures var sorted := Permute(ops, RouteIdx(ops));
      var (a, b) := MoveTarget(sorted, ropId, delta).value;
      var res := Renumbered(SwapOrders(sorted, a, b));
      && multiset(sorted) == multiset(ops)
      && |res| == |ops|
      && res[a].id == ropId
      && res[a].order == sorted[b].order && res[b].order == sorted[a].order
      && b as int == a + delta
  {
    RouteIdxFacts(ops);
    var sorted := Permute(ops, RouteIdx(ops));
    var (a, b) := MoveTarget(sorted, ropId, delta).value;
    var sw := SwapOrders(sorted, a, b);
    RenumberedAt(sw, a);
    RenumberedAt(sw, b);
  }
}
