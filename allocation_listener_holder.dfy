/**
 * The proxy's per-listener allocation filter: a listener with its tracked
 * classes, told about an allocation only when the new object's own class
 * is one of them, or when it tracks nothing.
 */
module ListenerHolders {
  /** A Java object, reduced to an identity and the class `getClass()` returns. */
  datatype JavaObject = JavaObject(id: nat, runtimeClass: nat)

  /** What `onAllocation` receives: thread, object, class argument and size. */
  datatype AllocationInfo = AllocationInfo(thread: nat, obj: JavaObject, objClass: nat, size: int)

  class AllocationListenerHolder {
    const listener: nat
    const trackedClasses: seq<nat>

    constructor(listener: nat, trackedClasses: seq<nat>)
      ensures this.listener == listener && this.trackedClasses == trackedClasses
    {
      this.listener := listener;
      this.trackedClasses := trackedClasses;
    }

    /**
     * `notifyListenerIfNeeded`: the calls made on the listener, as a list.
     * One call, with the arguments as given, when nothing is tracked or the
     * object's own class (not the `objClass` argument) is tracked; none
     * otherwise.
     */
    method NotifyListenerIfNeeded(thread: nat, obj: JavaObject, objClass: nat, size: int) returns (events: seq<AllocationInfo>)
      ensures |events| <= 1
      ensures |events| == 1 <==> |trackedClasses| == 0 || obj.runtimeClass in trackedClasses
      ensures forall e :: e in events ==> e == AllocationInfo(thread, obj, objClass, size)
    {
      if |trackedClasses| == 0 {
        events := NotifyListener(thread, obj, objClass, size);
        return;
      }
      events := [];
      var i := 0;
      while i < |trackedClasses|
        invariant 0 <= i <= |trackedClasses|
        invariant events == [] ==> obj.runtimeClass !in trackedClasses[..i]
        invariant events != [] ==> events == [AllocationInfo(thread, obj, objClass, size)] && obj.runtimeClass in trackedClasses
        decreases if events == [] then |trackedClasses| - i else 0
      {
        if obj.runtimeClass == trackedClasses[i] {
          events := NotifyListener(thread, obj, objClass, size);
          break;
        }
        i := i + 1;
      }
      assert trackedClasses[..|trackedClasses|] == trackedClasses;
    }

    /** `notifyListener`: one `onAllocation` call carrying the arguments unchanged. */
    method NotifyListener(thread: nat, obj: JavaObject, objClass: nat, size: int) returns (events: seq<AllocationInfo>)
      ensures events == [AllocationInfo(thread, obj, objClass, size)]
    {
      events := [AllocationInfo(thread, obj, objClass, size)];
    }
  }
}
