/** What several parts of the model share. */
module Common {

  datatype Option<T> = None | Some(value: T)

  /** What a violation handler is told, and of which block. */
  datatype Report =
    | DoubleFree(block: nat)
    | BufferOverflow(block: nat)
    | FreeListCorruption(block: nat)
    | UseAfterFree(block: nat)

  const GUARD_FREED: nat := 0xF3EE_F3EE_F3EE_F3EE
  const GUARD_ALLOCATED: nat := 0xA110_CA7E_A110_CA7E

  ghost predicate NoDup<T>(s: seq<T>) {
    forall i, j :: 0 <= i < j < |s| ==> s[i] != s[j]
  }
}
