/**
 * `GcTag`, the tag object of the GC-root path finder: a state byte, the
 * back-references recorded for the object, and a count of the tags created
 * but not yet destroyed. A `WeakSoftReferenceClassTag` is a `GcTag` created
 * weak. Its own `updateState` does nothing, but `GcTag::updateState` is not
 * virtual and the header declares no such class, so every update through a
 * `GcTag *` applies the ordinary rule; the model has only that rule.
 */
module RootsTags {
  import opened RootsState
  import Infos

  /** `rootsTagBalance`. */
  class TagBalance {
    var rootsTagBalance: int

    constructor()
      ensures rootsTagBalance == 0
    {
      rootsTagBalance := 0;
    }
  }

  class GcTag {
    const state: State
    var backRefs: seq<Infos.ReferenceInfo>

    /** `GcTag()`: neither weak nor visited, no back-references. */
    constructor()
      ensures fresh(state) && state.state == 0 && backRefs == []
    {
      state := new State();
      backRefs := [];
    }

    /** `GcTag(isWeakSoftReachable)`: not visited, weak as given. */
    constructor WithWeak(isWeakSoftReachable: bool)
      ensures fresh(state) && state.state == RootsState.Create(false, isWeakSoftReachable)
      ensures backRefs == []
    {
      state := new State.WithFlags(false, isWeakSoftReachable);
      backRefs := [];
    }

    /** `WeakSoftReferenceClassTag()`: created weak. */
    constructor ReferenceClassTag()
      ensures fresh(state) && state.state == RootsState.Create(false, true)
      ensures backRefs == []
    {
      state := new State.WithFlags(false, true);
      backRefs := [];
    }

    function IsWeakSoftReachable(): bool
      reads this, state
    {
      state.WeakSoftReachable()
    }

    function IsVisited(): bool
      reads this, state
    {
      state.AlreadyVisited()
    }

    /** `setVisited`: the visited flag is set, the weak flag is kept. */
    method SetVisited()
      modifies state
      ensures state.state == SetAttribute(old(state.state), true, VISITED_BIT)
      ensures IsVisited() && IsWeakSoftReachable() == old(IsWeakSoftReachable())
    {
      state.SetAlreadyVisited(true);
      OtherBitsKept(state.state, old(state.state), VISITED_BIT, WEAK_SOFT_BIT);
    }

    /**
     * `updateState`: the state rule applied against the referrer's state,
     * on every tag (the call is not virtual).
     */
    method UpdateState(referrer: GcTag)
      modifies state
      ensures state.state == UpdateWeak(old(state.state), old(referrer.state.state))
    {
      state.UpdateWeakSoftReachableValue(referrer.state);
    }
  }

  /** `GcTag::create(classTag)`, with `null` for the class tag 0. */
  method Create(balance: TagBalance, classTag: GcTag?) returns (t: GcTag)
    modifies balance
    ensures balance.rootsTagBalance == old(balance.rootsTagBalance) + 1
    ensures fresh(t) && fresh(t.state) && t.backRefs == []
    ensures !t.IsVisited()
    ensures t.IsWeakSoftReachable() <==> classTag != null && classTag.IsWeakSoftReachable()
  {
    balance.rootsTagBalance := balance.rootsTagBalance + 1;
    var weak := false;
    if classTag != null {
      var c := PointerToGcTag(classTag);
      weak := c.IsWeakSoftReachable();
    }
    t := new GcTag.WithWeak(weak);
  }

  /** `GcTag::create()`: neither weak nor visited. */
  method CreateDefault(balance: TagBalance) returns (t: GcTag)
    modifies balance
    ensures balance.rootsTagBalance == old(balance.rootsTagBalance) + 1
    ensures fresh(t) && fresh(t.state) && t.backRefs == []
    ensures !t.IsVisited() && !t.IsWeakSoftReachable()
  {
    balance.rootsTagBalance := balance.rootsTagBalance + 1;
    t := new GcTag();
  }

  /** `WeakSoftReferenceClassTag::create()`: weak and not visited. */
  method CreateReferenceClassTag(balance: TagBalance) returns (t: GcTag)
    modifies balance
    ensures balance.rootsTagBalance == old(balance.rootsTagBalance) + 1
    ensures fresh(t) && fresh(t.state) && t.backRefs == []
    ensures !t.IsVisited() && t.IsWeakSoftReachable()
  {
    balance.rootsTagBalance := balance.rootsTagBalance + 1;
    t := new GcTag.ReferenceClassTag();
  }

  /**
   * `pointerToGcTag`: the tag itself, or for the tag 0 (`null`) a fresh
   * default tag that the balance does not count.
   */
  method PointerToGcTag(tagPtr: GcTag?) returns (t: GcTag)
    ensures tagPtr != null ==> t == tagPtr
    ensures tagPtr == null ==> fresh(t) && fresh(t.state) && t.state.state == 0 && t.backRefs == []
  {
    if tagPtr == null {
      t := new GcTag();
    } else {
      t := tagPtr;
    }
  }

  /** The destructor: one tag fewer; its back-reference records go with it. */
  method Destroy(balance: TagBalance, t: GcTag)
    modifies balance, t
    ensures balance.rootsTagBalance == old(balance.rootsTagBalance) - 1
    ensures t.backRefs == []
  {
    balance.rootsTagBalance := balance.rootsTagBalance - 1;
    t.backRefs := [];
  }

  /**
   * `cleanTag`: destroys the tag. On the tag 0 it destroys a fresh tag the
   * balance never counted, so the balance still drops by one.
   */
  method CleanTag(balance: TagBalance, tag: GcTag?)
    modifies balance, tag
    ensures balance.rootsTagBalance == old(balance.rootsTagBalance) - 1
  {
    var t := PointerToGcTag(tag);
    Destroy(balance, t);
  }
}
