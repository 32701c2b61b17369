/**
 * The proxy's listener registry: an array of listener holders that is never
 * changed in place but replaced by a freshly built copy on every `add` and
 * `remove`, so a thread still holding the old array keeps a stable view.
 */
module ListenerRegistry {
  import opened ListenerHolders

  /** The position of the first `x` in `s`, or -1. */
  function FirstIndex(s: seq<nat>, x: nat): (r: int)
    ensures -1 <= r < |s|
    ensures r == -1 <==> x !in s
    ensures r >= 0 ==> s[r] == x && x !in s[..r]
  {
    if |s| == 0 then -1
    else if s[0] == x then 0
    else
      var r := FirstIndex(s[1..], x);
      assert s[1..][..if r < 0 then 0 else r] == s[1..1 + if r < 0 then 0 else r];
      if r == -1 then -1 else r + 1
  }

  /** `s` without its element at `i`, the others in their order. */
  function RemoveAt<T>(s: seq<T>, i: int): (r: seq<T>)
    requires 0 <= i < |s|
    ensures |r| == |s| - 1
    ensures forall j :: 0 <= j < i ==> r[j] == s[j]
    ensures forall j :: i <= j < |r| ==> r[j] == s[j + 1]
  {
    s[..i] + s[i + 1..]
  }

  /**
   * `System.arraycopy` between two distinct arrays: `length` elements of
   * `src` from `srcPos` land in `dst` from `dstPos`, and the rest of `dst`
   * stays as it was.
   */
  method ArrayCopy<T>(src: array<T>, srcPos: int, dst: array<T>, dstPos: int, length: int)
    requires src != dst && 0 <= length
    requires 0 <= srcPos && srcPos + length <= src.Length && 0 <= dstPos && dstPos + length <= dst.Length
    modifies dst
    ensures dst[..] == old(dst[..dstPos]) + src[srcPos..srcPos + length] + old(dst[dstPos + length..])
  {
    for k := 0 to length
      invariant dst[..] == old(dst[..dstPos]) + src[srcPos..srcPos + k] + old(dst[dstPos + k..])
    {
      dst[dstPos + k] := src[srcPos + k];
      assert src[srcPos..srcPos + k + 1] == src[srcPos..srcPos + k] + [src[srcPos + k]];
    }
  }

  class ArrayOfListeners {
    var listenerHolders: array<AllocationListenerHolder?>

    /** Between calls every slot holds a listener holder. */
    ghost predicate Valid()
      reads this, listenerHolders
    {
      forall i :: 0 <= i < listenerHolders.Length ==> listenerHolders[i] != null
    }

    /** The registered holders in order. */
    function Holders(): seq<AllocationListenerHolder?>
      reads this, listenerHolders
    {
      listenerHolders[..]
    }

    /** The listeners of the registered holders in order. */
    function Listeners(): (r: seq<nat>)
      reads this, listenerHolders
      requires Valid()
      ensures |r| == listenerHolders.Length
      ensures forall i :: 0 <= i < |r| ==> r[i] == listenerHolders[i].listener
    {
      seq(listenerHolders.Length, i reads this, listenerHolders requires 0 <= i < listenerHolders.Length && Valid() =>
        listenerHolders[i].listener)
    }

    /** A new registry is empty. */
    constructor()
      ensures Valid() && Holders() == [] && fresh(listenerHolders)
    {
      listenerHolders := new AllocationListenerHolder?[0];
    }

    /**
     * A fresh array one longer, the old holders in the same
     * places and a new holder for the listener at the end. The new array
     * is published before its last slot is filled.
     */
    method Add(allocationListener: nat, trackedClasses: seq<nat>)
      requires Valid()
      modifies this
      ensures Valid() && fresh(listenerHolders)
      ensures |Holders()| == |old(Holders())| + 1 && Holders()[..|old(Holders())|] == old(Holders())
      ensures var h := Holders()[|old(Holders())|];
              h != null && fresh(h) && h.listener == allocationListener && h.trackedClasses == trackedClasses
    {
      var size := listenerHolders.Length;
      var temp := new AllocationListenerHolder?[size + 1];
      if size != 0 {
        ArrayCopy(listenerHolders, 0, temp, 0, size);
      }
      listenerHolders := temp;
      var holder := new AllocationListenerHolder(allocationListener, trackedClasses);
      listenerHolders[size] := holder;
    }

    /** Removes the first holder of the listener, if any. */
    method RemoveListener(allocationListener: nat)
      requires Valid()
      modifies this
      ensures Valid()
      ensures var i := FirstIndex(old(Listeners()), allocationListener);
              if i == -1 then listenerHolders == old(listenerHolders)
              else fresh(listenerHolders) && Holders() == RemoveAt(old(Holders()), i)
    {
      var index := FindListener(allocationListener);
      Remove(index);
    }

    /**
     * An index out of range (every index, on an empty registry)
     * changes nothing; otherwise a fresh array one shorter without that
     * holder, the others in their order.
     */
    method Remove(index: int)
      requires Valid()
      modifies this
      ensures Valid()
      ensures index < 0 || index >= |old(Holders())| ==> listenerHolders == old(listenerHolders)
      ensures 0 <= index < |old(Holders())| ==> fresh(listenerHolders) && Holders() == RemoveAt(old(Holders()), index)
    {
      var newSize := listenerHolders.Length - 1;
      if index < 0 || index > newSize {
        return;
      }
      ghost var hs := Holders();
      var temp := new AllocationListenerHolder?[newSize];
      ArrayCopy(listenerHolders, 0, temp, 0, index);
      assert temp[..index] == hs[..index];
      ArrayCopy(listenerHolders, index + 1, temp, index, newSize - index);
      assert temp[..] == hs[..index] + hs[index + 1..];
      listenerHolders := temp;
    }

    /** The first position holding the listener, or -1. */
    method FindListener(allocationListener: nat) returns (i: int)
      requires Valid()
      ensures i == FirstIndex(Listeners(), allocationListener)
    {
      i := 0;
      while i < listenerHolders.Length
        invariant 0 <= i <= listenerHolders.Length
        invariant allocationListener !in Listeners()[..i]
      {
        if listenerHolders[i].listener == allocationListener {
          return i;
        }
        assert Listeners()[..i + 1] == Listeners()[..i] + [Listeners()[i]];
        i := i + 1;
      }
      assert Listeners()[..i] == Listeners();
      return -1;
    }
  }
}
