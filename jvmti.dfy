/**
 * Values the agent exchanges with the JVM Tool Interface, shared by the other
 * modules: heap reference kinds (the jvmtiHeapReferenceKind enumeration of the
 * Heap section of the JVM Tool Interface specification), the visit-control
 * results a heap callback returns, and the agent's error results.
 */
module Jvmti {
  /** An object of the heap, identified abstractly. */
  type ObjId = nat

  datatype Option<T> = None | Some(value: T)

  // jvmtiHeapReferenceKind codes.
  const CLASS: int := 1
  const FIELD: int := 2
  const ARRAY_ELEMENT: int := 3
  const CLASS_LOADER: int := 4
  const SIGNERS: int := 5
  const PROTECTION_DOMAIN: int := 6
  const INTERFACE: int := 7
  const STATIC_FIELD: int := 8
  const CONSTANT_POOL: int := 9
  const SUPERCLASS: int := 10
  const JNI_GLOBAL: int := 21
  const SYSTEM_CLASS: int := 22
  const MONITOR: int := 23
  const STACK_LOCAL: int := 24
  const JNI_LOCAL: int := 25
  const THREAD: int := 26
  const OTHER: int := 27

  /** The seventeen kinds the JVM Tool Interface defines. */
  predicate IsReferenceKind(k: int) {
    1 <= k <= 10 || 21 <= k <= 27
  }

  predicate IsJniReference(k: int) {
    k == JNI_LOCAL || k == JNI_GLOBAL
  }

  /**
   * What a heap callback returns to the JVM: follow the referee's references,
   * abort, continue a heap iteration, or (the value 0) go on without
   * following the referee's references.
   */
  datatype Visit = VisitObjects | VisitAbort | IterationContinue | NoVisit

  /**
   * Error results of the operations. `Timeout` and `Interrupted` are the
   * agent's own codes; `JvmtiFailure` stands for any error of a JVM call.
   */
  datatype AgentError = NoError | Timeout | Interrupted | JvmtiFailure

  /**
   * One reference reported by FollowReferences: its kind, the referrer
   * (`None` for a heap root) and the referee.
   */
  datatype Edge = Edge(kind: int, referrer: Option<ObjId>, referee: ObjId)

  const JINT_MIN: int := -0x8000_0000
  const JINT_MAX: int := 0x7fff_ffff

  /** A `static_cast<jint>` of a wider integer: the low 32 bits, read as two's complement. */
  function ToJint(x: int): (r: int)
    ensures JINT_MIN <= r <= JINT_MAX
    ensures (r - x) % 0x1_0000_0000 == 0
    ensures JINT_MIN <= x <= JINT_MAX ==> r == x
  {
    (x - JINT_MIN) % 0x1_0000_0000 + JINT_MIN
  }
}
