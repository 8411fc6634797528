/**
 * Card status: the four-valued status the browser stores on a card (from its
 * operations, or for a group card from its children's statuses), the
 * three-valued status the server recomputes when it normalizes a card, and
 * the five-valued process state the filters show, which for a group card
 * recurses into its children.
 */
module CardStatus {
  import opened Records

  predicate HasActive(ops: seq<RouteOp>) {
    exists i :: 0 <= i < |ops| && (HasStatus(ops[i], InProgress) || HasStatus(ops[i], Paused))
  }

  predicate AllDone(ops: seq<RouteOp>) {
    |ops| > 0 && forall i :: 0 <= i < |ops| ==> HasStatus(ops[i], Done)
  }

  predicate HasNotStarted(ops: seq<RouteOp>) {
    exists i :: 0 <= i < |ops| && NotStartedOrMissing(ops[i])
  }

  predicate HasDone(ops: seq<RouteOp>) {
    exists i :: 0 <= i < |ops| && HasStatus(ops[i], Done)
  }

  predicate HasOpWith(ops: seq<RouteOp>, s: Status) {
    exists i :: 0 <= i < |ops| && HasStatus(ops[i], s)
  }

  /**
   * `recalcCardStatus` for a card that is not a group: any running or paused
   * operation makes it IN_PROGRESS (even when all of them are paused); finished
   * and unstarted operations together make it PAUSED.
   */
  function OpsStatus(ops: seq<RouteOp>): Status {
    if |ops| == 0 then NotStarted
    else if HasActive(ops) then InProgress
    else if HasDone(ops) && HasNotStarted(ops) then Paused
    else if AllDone(ops) && !HasNotStarted(ops) then Done
    else NotStarted
  }

  /** `recalcCardStatus` for a group card, over the stored statuses of its children. */
  function GroupStatus(children: seq<Card>): Status {
    if |children| == 0 then NotStarted
    else if exists i :: 0 <= i < |children| && children[i].status == InProgress then InProgress
    else if exists i :: 0 <= i < |children| && children[i].status == Paused then Paused
    else if forall i :: 0 <= i < |children| ==> children[i].status == Done then Done
    else if (exists i :: 0 <= i < |children| && children[i].status == Done)
         && (exists i :: 0 <= i < |children| && children[i].status == NotStarted) then Paused
    else NotStarted
  }

  /** The cards whose `groupId` names `groupId` (`getGroupChildren`). */
  function ChildrenOf(cards: seq<Card>, groupId: string): (kids: seq<Card>)
    ensures forall c :: c in kids <==> c in cards && c.groupId == Some(groupId)
    ensures |kids| <= |cards|
  {
    if cards == [] then []
    else
      var rest := ChildrenOf(cards[1..], groupId);
      assert forall c :: c in cards <==> c == cards[0] || c in cards[1..];
      if cards[0].groupId == Some(groupId) then [cards[0]] + rest else rest
  }

  /** `recalcCardStatus(card)`: the card with its status recomputed; `cards` is the whole list. */
  function RecalcCardStatus(card: Card, cards: seq<Card>): (res: Card)
    ensures res == card.(status := res.status)
    ensures !card.isGroup ==> (res.status == Done <==> AllDone(card.operations))
    ensures !card.isGroup ==> (res.status == InProgress <==> HasActive(card.operations))
    ensures !card.isGroup ==>
      (res.status == Paused <==> !HasActive(card.operations) && HasDone(card.operations) && HasNotStarted(card.operations))
    ensures card.isGroup ==> res.status == GroupStatus(ChildrenOf(cards, card.id))
  {
    if card.isGroup then card.(status := GroupStatus(ChildrenOf(cards, card.id)))
    else
      OpsStatusFacts(card.operations);
      card.(status := OpsStatus(card.operations))
  }

  /** Every operation has one of the four statuses, or none (read as not started). */
  lemma StatusCases(op: RouteOp)
    ensures NotStartedOrMissing(op) || HasStatus(op, InProgress) || HasStatus(op, Paused) || HasStatus(op, Done)
  {
    if op.status.Some? {
      match op.status.value
      case NotStarted =>
      case InProgress =>
      case Paused =>
      case Done =>
    }
  }

  /** What each outcome of the client recalculation means. */
  lemma OpsStatusFacts(ops: seq<RouteOp>)
    ensures OpsStatus(ops) == Done <==> AllDone(ops)
    ensures OpsStatus(ops) == InProgress <==> HasActive(ops)
    ensures OpsStatus(ops) == Paused <==> !HasActive(ops) && HasDone(ops) && HasNotStarted(ops)
    ensures OpsStatus(ops) == NotStarted <==> !HasActive(ops) && !HasDone(ops)
  {
    if AllDone(ops) {
      assert HasDone(ops) by { assert HasStatus(ops[0], Done); }
      assert !HasActive(ops);
      assert !HasNotStarted(ops);
    }
    if |ops| > 0 && !HasActive(ops) && !HasNotStarted(ops) {
      forall i | 0 <= i < |ops| ensures HasStatus(ops[i], Done) {
        StatusCases(ops[i]);
      }
      assert AllDone(ops);
    }
  }

  /** Appending an unstarted operation to a finished card reopens it as PAUSED. */
  lemma AppendUnstartedToDone(ops: seq<RouteOp>, op: RouteOp)
    requires AllDone(ops) && NotStartedOrMissing(op)
    ensures OpsStatus(ops + [op]) == Paused
  {
    var all := ops + [op];
    OpsStatusFacts(all);
    assert HasStatus(all[0], Done);
    assert NotStartedOrMissing(all[|ops|]);
    assert !HasActive(all) by {
      forall i | 0 <= i < |all| ensures !(HasStatus(all[i], InProgress) || HasStatus(all[i], Paused)) {
        if i < |ops| { assert all[i] == ops[i]; }
      }
    }
  }

  /** `recalcCardStatus` on the server: never PAUSED. */
  function ServerOpsStatus(ops: seq<RouteOp>): (s: Status)
    ensures s != Paused
  {
    if |ops| == 0 then NotStarted
    else if HasActive(ops) then InProgress
    else if AllDone(ops) && !HasNotStarted(ops) then Done
    else NotStarted
  }

  /** The server agrees with the browser except that the browser's PAUSED is its NOT_STARTED. */
  lemma ServerVersusClient(ops: seq<RouteOp>)
    ensures ServerOpsStatus(ops) == if OpsStatus(ops) == Paused then NotStarted else OpsStatus(ops)
  {
    OpsStatusFacts(ops);
  }

  /** The server reports DONE exactly for a non-empty, all-finished route. */
  lemma ServerDoneIff(ops: seq<RouteOp>)
    ensures ServerOpsStatus(ops) == Done <==> AllDone(ops)
  {
    ServerVersusClient(ops);
    OpsStatusFacts(ops);
  }

  /** A group reports DONE exactly when it has children and all of them are DONE. */
  lemma GroupDoneIff(children: seq<Card>)
    ensures GroupStatus(children) == Done <==>
      |children| > 0 && forall i :: 0 <= i < |children| ==> children[i].status == Done
  {
    if |children| > 0 && forall i :: 0 <= i < |children| ==> children[i].status == Done {
      assert children[0].status == Done;
    }
  }

  /** A group is PAUSED when a child is, or when finished and unstarted children meet with nothing running. */
  lemma GroupPausedIff(children: seq<Card>)
    ensures GroupStatus(children) == Paused <==>
      && (forall i :: 0 <= i < |children| ==> children[i].status != InProgress)
      && ((exists i :: 0 <= i < |children| && children[i].status == Paused)
          || ((exists i :: 0 <= i < |children| && children[i].status == Done)
              && (exists i :: 0 <= i < |children| && children[i].status == NotStarted)))
  {
    if (exists i :: 0 <= i < |children| && children[i].status == Done)
       && (exists i :: 0 <= i < |children| && children[i].status == NotStarted) {
      var j :| 0 <= j < |children| && children[j].status == NotStarted;
      assert children[j].status != Done;
    }
  }

  /** A card and the cards filed under it, for the recursive process state. */
  datatype Family = Family(card: Card, children: seq<Family>)

  /** `filter(c => includeArchivedChildren || !c.archived)`. */
  function VisibleChildren(kids: seq<Family>, includeArchived: bool): (res: seq<Family>)
    ensures forall k :: k in res ==> k in kids
    ensures forall k :: k in res <==> k in kids && (includeArchived || !k.card.archived)
  {
    if kids == [] then []
    else
      var rest := VisibleChildren(kids[1..], includeArchived);
      assert forall k :: k in kids <==> k == kids[0] || k in kids[1..];
      if includeArchived || !kids[0].card.archived then [kids[0]] + rest else rest
  }

  predicate HasPausedOp(kids: seq<Family>) {
    exists i :: 0 <= i < |kids| && HasOpWith(kids[i].card.operations, Paused)
  }

  /** `getCardProcessState` for a card that is not a group. */
  function OpsProcessState(ops: seq<RouteOp>): ProcessState {
    var hasInProgress := HasOpWith(ops, InProgress);
    var hasPaused := HasOpWith(ops, Paused);
    var allNotStarted := |ops| > 0 && forall i :: 0 <= i < |ops| ==> NotStartedOrMissing(ops[i]);
    if AllDone(ops) then PDone
    else if hasInProgress && hasPaused then PMixed
    else if hasInProgress then PInProgress
    else if hasPaused then PPaused
    else if HasDone(ops) && HasNotStarted(ops) then PPaused
    else if allNotStarted then PNotStarted
    else if HasDone(ops) then PInProgress
    else PNotStarted
  }

  /** `getCardProcessState` for a group, over the process states of its visible children. */
  function GroupProcessState(states: seq<ProcessState>, hasPausedOp: bool): ProcessState {
    if |states| == 0 then PNotStarted
    else if forall i :: 0 <= i < |states| ==> states[i] == PDone then PDone
    else if hasPausedOp then PMixed
    else if exists i :: 0 <= i < |states| && states[i] == PInProgress then PInProgress
    else if exists i :: 0 <= i < |states| && (states[i] == PPaused || states[i] == PMixed) then PPaused
    else if (exists i :: 0 <= i < |states| && states[i] == PDone)
         && (exists i :: 0 <= i < |states| && states[i] == PNotStarted) then PMixed
    else PNotStarted
  }

  /** `getCardProcessState`: recursive over a group's children, archived ones left out unless asked for. */
  function ProcessStateOf(f: Family, includeArchived: bool): ProcessState
    decreases f
  {
    if f.card.isGroup then
      var kids := VisibleChildren(f.children, includeArchived);
      var states := seq(|kids|, i requires 0 <= i < |kids| => assert kids[i] in f.children; ProcessStateOf(kids[i], includeArchived));
      GroupProcessState(states, HasPausedOp(kids))
    else OpsProcessState(f.card.operations)
  }

  /** The process state and the stored status agree on DONE. */
  lemma ProcessDoneIff(ops: seq<RouteOp>)
    ensures OpsProcessState(ops) == PDone <==> AllDone(ops)
    ensures OpsProcessState(ops) == PDone <==> OpsStatus(ops) == Done
  {
    OpsStatusFacts(ops);
  }

  /** Running and paused operations together show as MIXED; no operations as not started. */
  lemma ProcessMixedAndEmpty(ops: seq<RouteOp>)
    ensures HasOpWith(ops, InProgress) && HasOpWith(ops, Paused) ==> OpsProcessState(ops) == PMixed
    ensures |ops| == 0 ==> OpsProcessState(ops) == PNotStarted
  {
    if HasOpWith(ops, InProgress) {
      var i :| 0 <= i < |ops| && HasStatus(ops[i], InProgress);
      assert !AllDone(ops) by { assert !HasStatus(ops[i], Done); }
    }
  }

  /**
   * Finished and unstarted operations with nothing running show as PAUSED in
   * the process state, just as the stored status says.
   */
  lemma ProcessPausedForDoneAndUnstarted(ops: seq<RouteOp>)
    requires HasDone(ops) && HasNotStarted(ops) && !HasActive(ops)
    ensures OpsProcessState(ops) == PPaused && OpsStatus(ops) == Paused
  {
    OpsStatusFacts(ops);
    var j :| 0 <= j < |ops| && NotStartedOrMissing(ops[j]);
    assert !HasStatus(ops[j], Done);
    assert !HasOpWith(ops, InProgress) && !HasOpWith(ops, Paused);
  }

  /** In a group, a paused operation in any visible child forces MIXED unless every child is DONE. */
  lemma GroupPausedOpMixed(f: Family, includeArchived: bool)
    requires f.card.isGroup
    requires HasPausedOp(VisibleChildren(f.children, includeArchived))
    ensures ProcessStateOf(f, includeArchived) == PDone || ProcessStateOf(f, includeArchived) == PMixed
  {
  }

  /** A child with a paused operation is never DONE itself, so the group is MIXED. */
  lemma PausedOpChildNotDone(f: Family, includeArchived: bool)
    requires !f.card.isGroup && HasOpWith(f.card.operations, Paused)
    ensures ProcessStateOf(f, includeArchived) != PDone
  {
    var i :| 0 <= i < |f.card.operations| && HasStatus(f.card.operations[i], Paused);
    assert !HasStatus(f.card.operations[i], Done);
  }

  /** Filing an archived child under a group does not change the state shown by default. */
  lemma ArchivedChildIgnored(card: Card, kids: seq<Family>, extra: Family)
    requires extra.card.archived
    ensures ProcessStateOf(Family(card, kids + [extra]), false) == ProcessStateOf(Family(card, kids), false)
  {
    if card.isGroup {
      VisibleAppendArchived(kids, extra);
    }
  }

  lemma {:induction false} VisibleAppendArchived(kids: seq<Family>, extra: Family)
    requires extra.card.archived
    ensures VisibleChildren(kids + [extra], false) == VisibleChildren(kids, false)
  {
    if kids == [] {
      assert VisibleChildren([extra], false) == VisibleChildren([], false);
    } else {
      assert (kids + [extra])[1..] == kids[1..] + [extra];
      VisibleAppendArchived(kids[1..], extra);
    }
  }

  /** A group with no visible children is not started. */
  lemma EmptyGroupNotStarted(f: Family, includeArchived: bool)
    requires f.card.isGroup && |VisibleChildren(f.children, includeArchived)| == 0
    ensures ProcessStateOf(f, includeArchived) == PNotStarted
  {
  }
}
