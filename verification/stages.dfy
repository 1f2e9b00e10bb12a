/** Operations of a production line and the values they produce.

    A C# delegate cannot be compared by value in a way a proof can use, so an
    operation is represented by its handle: the padding stage `Identity` that
    every line starts with, or `Step(id)` for a delegate supplied by the user.
    What a delegate computes, and what the runtime considers `null`, are given
    by a `Runtime` record; both are total, as the line assumes of its
    operations. */
module Stages {

  datatype Op = Identity | Step(id: nat)

  /** The host side: the body of every user delegate, by handle, and the
      `== null` test on stored values (constantly false for value types). */
  datatype Runtime<!T> = Runtime(invoke: (nat, T) -> T, isNull: T -> bool)

  /** Invoking one operation; the padding stage is `(v) => v`. */
  function Apply<T>(rt: Runtime<T>, op: Op, v: T): T
  {
    match op
    case Identity => v
    case Step(id) => rt.invoke(id, v)
  }

  /** Left fold: the operations of `ops` applied to `v`, first to last. */
  function Fold<T>(rt: Runtime<T>, v: T, ops: seq<Op>): T
    decreases |ops|
  {
    if |ops| == 0 then v else Fold(rt, Apply(rt, ops[0], v), ops[1..])
  }

  /** The value of stage `j`: user operations `1..j` applied to `initial`
      (stage 0 is `initial` itself; slot 0 of `ops` is never applied). */
  function Stage<T>(rt: Runtime<T>, initial: T, ops: seq<Op>, j: nat): T
    requires j < |ops|
  {
    Fold(rt, initial, ops[1..j + 1])
  }

  /** A stage depends only on the operations up to it. */
  lemma StagePrefix<T>(rt: Runtime<T>, initial: T, ops: seq<Op>, ops': seq<Op>, j: nat)
    requires j < |ops| && j < |ops'|
    requires ops[..j + 1] == ops'[..j + 1]
    ensures Stage(rt, initial, ops, j) == Stage(rt, initial, ops', j)
  {
  }
}
