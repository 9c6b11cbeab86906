/** The state of a bought magic scroll, reconciled from the shop's
    `ScrollConsumed` and `ScrollBurned` event lists. */
module Lifecycle {
  import opened JsSeqs

  /** The return values of a `ScrollConsumed` or `ScrollBurned` event that
      the reconciliation reads: the instance id, a decimal string. */
  datatype ScrollEvent = ScrollEvent(scrollId: string)

  const AVAILABLE := 1
  const CONSUMED := 2
  const BURNED := 3

  /** `events.filter(ele => ele.returnValues.scrollId === scrollId)`. */
  function Matching(events: seq<ScrollEvent>, scrollId: string): (r: seq<ScrollEvent>)
    ensures |r| <= |events|
    ensures forall e :: e in r ==> e in events && e.scrollId == scrollId
    ensures |r| > 0 <==> Mentions(events, scrollId)
  {
    var r := Filter(events, (e: ScrollEvent) => e.scrollId == scrollId);
    assert |r| > 0 ==> r[0] in r;
    r
  }

  /** Some event in the list is about instance `scrollId`. */
  predicate Mentions(events: seq<ScrollEvent>, scrollId: string) {
    exists e :: e in events && e.scrollId == scrollId
  }

  /** The state that the reconciliation is to produce: burned over consumed
      over available. */
  function State(scrollId: string, consumed: seq<ScrollEvent>, burned: seq<ScrollEvent>): (r: int)
    ensures r in {AVAILABLE, CONSUMED, BURNED}
  {
    if Mentions(burned, scrollId) then BURNED
    else if Mentions(consumed, scrollId) then CONSUMED
    else AVAILABLE
  }

  /** The reconciliation as the inventory handler runs it: `let state = 1`,
      then two successive checks, the later one overriding the earlier. */
  method ReconcileState(scrollId: string, consumed: seq<ScrollEvent>, burned: seq<ScrollEvent>)
    returns (state: int)
    ensures state == State(scrollId, consumed, burned)
  {
    var isConsume := Matching(consumed, scrollId);
    var isBurned := Matching(burned, scrollId);
    state := AVAILABLE;
    if |isConsume| > 0 {
      state := CONSUMED;
    }
    if |isBurned| > 0 {
      state := BURNED;
    }
  }

  /** The state is one of the three, and which one is decided by the two lists. */
  lemma StateCases(scrollId: string, consumed: seq<ScrollEvent>, burned: seq<ScrollEvent>)
    ensures State(scrollId, consumed, burned) in {AVAILABLE, CONSUMED, BURNED}
    ensures State(scrollId, consumed, burned) == BURNED <==> Mentions(burned, scrollId)
    ensures State(scrollId, consumed, burned) == CONSUMED
      <==> Mentions(consumed, scrollId) && !Mentions(burned, scrollId)
    ensures State(scrollId, consumed, burned) == AVAILABLE
      <==> !Mentions(consumed, scrollId) && !Mentions(burned, scrollId)
  {
  }

  lemma MentionsDependsOnElementsOnly(a: seq<ScrollEvent>, b: seq<ScrollEvent>, scrollId: string)
    requires multiset(a) == multiset(b)
    ensures Mentions(a, scrollId) <==> Mentions(b, scrollId)
  {
    if Mentions(a, scrollId) {
      var e :| e in a && e.scrollId == scrollId;
      assert e in multiset(a);
      assert e in b;
    }
    if Mentions(b, scrollId) {
      var e :| e in b && e.scrollId == scrollId;
      assert e in multiset(b);
      assert e in a;
    }
  }

  /** Reordering the consumed or burned events, as by block timestamps,
      does not change the state. */
  lemma StateIgnoresEventOrder(scrollId: string,
                               consumed: seq<ScrollEvent>, consumed': seq<ScrollEvent>,
                               burned: seq<ScrollEvent>, burned': seq<ScrollEvent>)
    requires multiset(consumed) == multiset(consumed')
    requires multiset(burned) == multiset(burned')
    ensures State(scrollId, consumed, burned) == State(scrollId, consumed', burned')
  {
    MentionsDependsOnElementsOnly(consumed, consumed', scrollId);
    MentionsDependsOnElementsOnly(burned, burned', scrollId);
  }

  /** Instance "7": no events leaves it available, a consume makes it
      consumed, and a burn makes it burned whichever event came first. */
  lemma StateScenario()
    ensures State("7", [], []) == AVAILABLE
    ensures State("7", [ScrollEvent("7")], []) == CONSUMED
    ensures State("7", [ScrollEvent("7")], [ScrollEvent("7")]) == BURNED
    ensures State("7", [ScrollEvent("3")], [ScrollEvent("8")]) == AVAILABLE
  {
    assert ScrollEvent("7") in [ScrollEvent("7")];
  }
}
