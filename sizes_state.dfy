/**
 * The per-query state byte of the retained-size engine. Each tag keeps, for
 * every query it takes part in, one `uint8_t` whose low four bits say whether
 * the object is the query's start object, lies in the start object's subtree,
 * is reachable from outside that subtree, and has already been visited.
 */
module SizesState {
  type State = bv8

  predicate IsStartObject(s: State) { s & 1 != 0 }
  predicate IsInSubtree(s: State) { s & 2 != 0 }
  predicate IsReachableOutside(s: State) { s & 4 != 0 }
  predicate IsAlreadyVisited(s: State) { s & 8 != 0 }

  /** Packs four flags into a state; the last one defaults to true, as in the header. */
  function CreateState(start: bool, inSubtree: bool, reachableOutside: bool,
                       alreadyVisited: bool := true): (s: State)
    ensures IsStartObject(s) == start && IsInSubtree(s) == inSubtree
    ensures IsReachableOutside(s) == reachableOutside && IsAlreadyVisited(s) == alreadyVisited
    ensures s < 16
  {
    (if start then 1 else 0) | (if inSubtree then 2 else 0)
    | (if reachableOutside then 4 else 0) | (if alreadyVisited then 8 else 0)
  }

  /** Only the four low bits carry information: decoding then encoding a state below 16 gives it back. */
  lemma StateRoundTrip(s: State)
    requires s < 16
    ensures CreateState(IsStartObject(s), IsInSubtree(s), IsReachableOutside(s), IsAlreadyVisited(s)) == s
  {
  }

  /** A three-argument call produces an already-visited state. */
  lemma DefaultIsVisited(start: bool, inSubtree: bool, reachableOutside: bool)
    ensures IsAlreadyVisited(CreateState(start, inSubtree, reachableOutside))
    ensures CreateState(start, inSubtree, reachableOutside) == CreateState(start, inSubtree, reachableOutside, true)
  {
  }

  /** An object counts towards a query's retained size. */
  predicate IsRetained(s: State)
    ensures IsStartObject(s) ==> IsRetained(s)
    ensures IsRetained(s) <==> IsStartObject(s) || (IsInSubtree(s) && !IsReachableOutside(s))
  {
    IsStartObject(s) || (IsInSubtree(s) && !IsReachableOutside(s))
  }

  /**
   * The state of an object after it is reached from a referrer whose state is
   * `referrer`.
   */
  function UpdateState(current: State, referrer: State): (s: State)
    ensures IsStartObject(s) == IsStartObject(current)
    ensures IsInSubtree(s) == (IsInSubtree(current) || IsInSubtree(referrer))
    ensures IsReachableOutside(s) ==
            (IsReachableOutside(current) || (!IsStartObject(referrer) && IsReachableOutside(referrer)))
    ensures IsAlreadyVisited(s)
    ensures s < 16
  {
    CreateState(IsStartObject(current),
                IsInSubtree(current) || IsInSubtree(referrer),
                IsReachableOutside(current) || (!IsStartObject(referrer) && IsReachableOutside(referrer)),
                true)
  }

  /** Updating never clears the in-subtree or reachable-outside flag. */
  lemma UpdateStateMonotone(current: State, referrer: State)
    ensures IsInSubtree(current) ==> IsInSubtree(UpdateState(current, referrer))
    ensures IsReachableOutside(current) ==> IsReachableOutside(UpdateState(current, referrer))
  {
  }

  /** Reaching an object twice from the same referrer state is the same as reaching it once. */
  lemma UpdateStateIdempotent(current: State, referrer: State)
    ensures UpdateState(UpdateState(current, referrer), referrer) == UpdateState(current, referrer)
  {
  }

  /** A start object is reached from outside only if it says so itself: its referrers never make it so. */
  lemma StartReferrerDoesNotLeak(current: State, referrer: State)
    requires IsStartObject(referrer) && !IsReachableOutside(current)
    ensures !IsReachableOutside(UpdateState(current, referrer))
  {
  }

  /** The state of an object reached from an untagged referrer: reachable outside and visited. */
  function AsVisitedFromUntagged(state: State): (s: State)
    ensures IsStartObject(s) == IsStartObject(state) && IsInSubtree(s) == IsInSubtree(state)
    ensures IsReachableOutside(s) && IsAlreadyVisited(s)
    ensures s & 0xF0 == state & 0xF0
    ensures !IsStartObject(state) ==> !IsRetained(s)
  {
    state | 4 | 8
  }
}
