/** Worked examples on integers: a line seeded with 1 whose user operations
    are `+1` (handle 1), `*2` (handle 2) and `-3` (handle 3). Integers are a
    value type, so nothing stored is ever null. */
module Scenarios {
  import opened Lists
  import opened Stages
  import opened ProductionLine

  function Arith(): Runtime<int>
  {
    Runtime((id: nat, v: int) => if id == 1 then v + 1 else if id == 2 then v * 2 else v - 3,
            (v: int) => false)
  }

  /** Queries on a fresh line `1 |> +1 |> *2 |> -3`: index 0 gives the seed,
      an index past the end gives the full result, and an index in between
      gives the stage before it (index 1 gives 1, not 2; index 3 gives 4,
      not 1). */
  lemma FreshQueries()
    ensures var line := NewWith(1, [1, 2, 3]);
      && GetResultAtPoint(Arith(), line, 0).value == 1
      && GetResultAtPoint(Arith(), line, 1).value == 1
      && GetResultAtPoint(Arith(), line, 2).value == 2
      && GetResultAtPoint(Arith(), line, 3).value == 4
      && GetResult(Arith(), line).value == 1
      && GetResultAtPoint(Arith(), line, 10).value == 1
  {
  }

  /** After `GetResult` has filled the cache, the same indices answer from
      it, now with their own operation applied: index 1 gives 2 and index 3
      gives 1, and no operation is invoked. */
  lemma QueriesAfterResult()
    ensures var line := GetResult(Arith(), NewWith(1, [1, 2, 3])).line;
      && line.state == [1, 2, 4, 1]
      && GetResultAtPoint(Arith(), line, 1) == Query(2, line, 0)
      && GetResultAtPoint(Arith(), line, 3) == Query(1, line, 0)
  {
  }

  /** Inserting `*2` at index 2 into `+1, *2, -3` gives `+1, *2, *2, -3`, but
      the cache filled before the insertion still answers index 3 with 1,
      while the operations `1..3` of the new list give 8. */
  lemma InsertLeavesStaleCache()
    ensures var line := GetResult(Arith(), NewWith(1, [1, 2, 3])).line;
      var r := InsertOperation(line, 2, 2, false);
      && r.line.ops == [Identity, Step(1), Step(2), Step(2), Step(3)]
      && GetResultAtPoint(Arith(), r.line, 3).value == 1
      && Stage(Arith(), 1, r.line.ops, 3) == 8
  {
  }

  /** Removing `*2` after `GetResult` leaves a cache longer than the new
      operation list, so `GetResult` answers 1 from the stale slot 3 with no
      operation invoked, while the remaining operations `+1, -3` give -1. */
  lemma RemoveLeavesStaleCache()
    ensures var line := GetResult(Arith(), NewWith(1, [1, 2, 3])).line;
      var r := RemoveOperation(line, 2).line;
      && r.ops == [Identity, Step(1), Step(3)]
      && |r.state| > |r.ops|
      && GetResult(Arith(), r) == Query(1, r, 0)
      && Fold(Arith(), 1, r.ops[1..]) == -1
  {
  }

  /** With the uniqueness guard, a second `*2` is refused, and removal takes
      out the only copy. */
  lemma UniqueAppendAndRemove()
    ensures var line := AppendOperation(NewWith(1, [1, 2, 3]), 2, true);
      && line.ops == [Identity, Step(1), Step(2), Step(3)]
      && RemoveOperation(line, 2) == Removal(true, line.(ops := [Identity, Step(1), Step(3)]))
      && RemoveOperation(line, 4) == Removal(false, line)
  {
    var line := NewWith(1, [1, 2, 3]);
    OpsOfExample();
    assert line.ops[2] == Step(2);
    assert IndexOf(line.ops, Step(2)) == 2;
    assert line.ops[..2] + line.ops[3..] == [Identity, Step(1), Step(3)];
  }

  /** The example line's operation list, padding stage first. */
  lemma OpsOfExample()
    ensures NewWith(1, [1, 2, 3]).ops == [Identity, Step(1), Step(2), Step(3)]
  {
    var ops := NewWith(1, [1, 2, 3]).ops;
    var ids := [1, 2, 3];
    assert ops[1] == Step(ids[0]) && ops[2] == Step(ids[1]) && ops[3] == Step(ids[2]);
  }
}
