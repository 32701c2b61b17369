/**
 * `State`, the state byte of a tag of the GC-root path finder: bit 0 says
 * the object was already visited, bit 1 that it is reachable only through
 * weak, soft or phantom references.
 */
module RootsState {
  const VISITED_BIT: bv8 := 0
  const WEAK_SOFT_BIT: bv8 := 1

  /** `setAttribute`: bit `offset` set to `value`. */
  function SetAttribute(state: bv8, value: bool, offset: bv8): (r: bv8)
    requires offset < 8
    ensures CheckAttribute(r, offset) == value
    ensures SameOutside(r, state, offset)
  {
    if value then state | (1 << offset) else state & !(1 << offset)
  }

  /** `checkAttribute`: bit `offset` is set. */
  function CheckAttribute(state: bv8, offset: bv8): bool
    requires offset < 8
  {
    state & (1 << offset) != 0
  }

  /** `a` and `b` agree on every bit but bit `offset`. */
  predicate SameOutside(a: bv8, b: bv8, offset: bv8)
    requires offset < 8
  {
    a & !(1 << offset) == b & !(1 << offset)
  }

  /** States that agree outside bit `offset` agree on every other bit. */
  lemma OtherBitsKept(a: bv8, b: bv8, offset: bv8, o: bv8)
    requires offset < 8 && o < 8 && o != offset && SameOutside(a, b, offset)
    ensures CheckAttribute(a, o) == CheckAttribute(b, o)
  {
  }

  predicate IsAlreadyVisited(state: bv8) {
    CheckAttribute(state, VISITED_BIT)
  }

  predicate IsWeakSoftReachable(state: bv8) {
    CheckAttribute(state, WEAK_SOFT_BIT)
  }

  /** The two-argument constructor: both flags as given, every other bit clear. */
  function Create(isAlreadyVisited: bool, isWeakSoftReachable: bool): (r: bv8)
    ensures IsAlreadyVisited(r) == isAlreadyVisited && IsWeakSoftReachable(r) == isWeakSoftReachable
    ensures r < 4
  {
    SetAttribute(SetAttribute(0, isAlreadyVisited, VISITED_BIT), isWeakSoftReachable, WEAK_SOFT_BIT)
  }

  /**
   * `updateWeakSoftReachableValue`: a weak state turns strong when the
   * referrer is strong; a strong state turns weak when the referrer is
   * weak and the state was not visited yet.
   */
  function UpdateWeak(state: bv8, referrerState: bv8): (r: bv8)
    ensures IsWeakSoftReachable(r) <==>
              IsWeakSoftReachable(referrerState) && (IsWeakSoftReachable(state) || !IsAlreadyVisited(state))
    ensures SameOutside(r, state, WEAK_SOFT_BIT)
  {
    if IsWeakSoftReachable(state) then
      if !IsWeakSoftReachable(referrerState) then SetAttribute(state, false, WEAK_SOFT_BIT) else state
    else
      if IsWeakSoftReachable(referrerState) && !IsAlreadyVisited(state) then SetAttribute(state, true, WEAK_SOFT_BIT)
      else state
  }

  /** A state updated from itself does not change. */
  lemma UpdateFromItself(state: bv8)
    ensures UpdateWeak(state, state) == state
  {
  }

  /**
   * A visited, strongly reachable state stays strong and visited whatever
   * the referrers it is updated from.
   */
  lemma {:induction false} StrongVisitedStaysStrong(state: bv8, referrers: seq<bv8>)
    requires IsAlreadyVisited(state) && !IsWeakSoftReachable(state)
    ensures var r := UpdateAll(state, referrers);
            IsAlreadyVisited(r) && !IsWeakSoftReachable(r)
    decreases |referrers|
  {
    if referrers != [] {
      StrongVisitedStaysStrong(UpdateWeak(state, referrers[0]), referrers[1..]);
    }
  }

  /** A state updated from each of `referrers` in turn. */
  function UpdateAll(state: bv8, referrers: seq<bv8>): bv8
    decreases |referrers|
  {
    if referrers == [] then state else UpdateAll(UpdateWeak(state, referrers[0]), referrers[1..])
  }

  /** The update never changes the visited flag. */
  lemma {:induction false} UpdatesKeepVisited(state: bv8, referrers: seq<bv8>)
    ensures IsAlreadyVisited(UpdateAll(state, referrers)) == IsAlreadyVisited(state)
    decreases |referrers|
  {
    if referrers != [] {
      UpdatesKeepVisited(UpdateWeak(state, referrers[0]), referrers[1..]);
    }
  }

  /** The state byte, changed in place by its setters. */
  class State {
    var state: bv8

    /** The default constructor: neither flag set. */
    constructor()
      ensures state == 0 && !IsAlreadyVisited(state) && !IsWeakSoftReachable(state)
    {
      state := 0;
    }

    constructor WithFlags(isAlreadyVisited: bool, isWeakSoftReachable: bool)
      ensures state == Create(isAlreadyVisited, isWeakSoftReachable)
    {
      state := 0;
      new;
      SetAlreadyVisited(isAlreadyVisited);
      SetWeakSoftReachable(isWeakSoftReachable);
    }

    method SetAlreadyVisited(value: bool)
      modifies this
      ensures state == SetAttribute(old(state), value, VISITED_BIT)
    {
      state := SetAttribute(state, value, VISITED_BIT);
    }

    method SetWeakSoftReachable(value: bool)
      modifies this
      ensures state == SetAttribute(old(state), value, WEAK_SOFT_BIT)
    {
      state := SetAttribute(state, value, WEAK_SOFT_BIT);
    }

    function AlreadyVisited(): bool
      reads this
    {
      IsAlreadyVisited(state)
    }

    function WeakSoftReachable(): bool
      reads this
    {
      IsWeakSoftReachable(state)
    }

    /** `updateWeakSoftReachableValue`; `referrer` may be this very state. */
    method UpdateWeakSoftReachableValue(referrer: State)
      modifies this
      ensures state == UpdateWeak(old(state), old(referrer.state))
    {
      if WeakSoftReachable() {
        if !referrer.WeakSoftReachable() {
          SetWeakSoftReachable(false);
        }
      } else {
        if referrer.WeakSoftReachable() && !AlreadyVisited() {
          SetWeakSoftReachable(true);
        }
      }
    }
  }
}
