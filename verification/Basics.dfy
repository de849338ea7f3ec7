/** Vocabulary shared by every part of the model: optional values, results that carry an error,
    and the two facts about appending to a sequence of events that the history proofs use. */
module Basics {

  /** An invocation id: a ULID, minted once. */
  type Id = string

  /** One connection generation: a `NodeConnection` object, never reused. */
  type ConnId = nat

  datatype Option<+T> = None | Some(value: T) {
    function GetOr(default: T): T {
      match this
      case Some(v) => v
      case None => default
    }
  }

  datatype Result<+T, +E> = Ok(value: T) | Err(error: E)

  /** `e` was recorded strictly before position `k` of the history `log`. */
  ghost predicate Before<T>(log: seq<T>, k: nat, e: T) {
    exists i :: 0 <= i < k && i < |log| && log[i] == e
  }

  /** Whatever is in a history was recorded before any later position. */
  lemma MemberIsBefore<T>(log: seq<T>, k: nat, e: T)
    requires e in log && |log| <= k
    ensures Before(log, k, e)
  {
    var i :| 0 <= i < |log| && log[i] == e;
  }

  /** Appending to a history changes nothing about what came before a position inside it. */
  lemma BeforeExtends<T>(log: seq<T>, more: seq<T>, k: nat, e: T)
    requires k <= |log| && Before(log, k, e)
    ensures Before(log + more, k, e)
  {
    var i :| 0 <= i < k && i < |log| && log[i] == e;
    assert (log + more)[i] == e;
  }
}
