/** What the queries and mutations of a production line guarantee across
    calls: when the cache can be trusted, what repeated and later queries
    return, and how the mutations relate to each other. */
module LineProperties {
  import opened Lists
  import opened Stages
  import opened ProductionLine

  /** The cache agrees with the line: slot 0 is the seed, every other slot
      holds its stage value, and there is no slot past the last operation. */
  ghost predicate Coherent<T>(rt: Runtime<T>, line: Line<T>)
  {
    && Valid(line)
    && |line.state| <= |line.ops|
    && line.state[0] == line.initial
    && forall j :: 1 <= j < |line.state| ==> line.state[j] == Stage(rt, line.initial, line.ops, j)
  }

  /** A freshly constructed line has a coherent cache. */
  lemma FreshLineCoherent<T>(rt: Runtime<T>, initial: T, ids: seq<nat>)
    ensures Coherent(rt, NewWith(initial, ids))
  {
  }

  /** A query only fills: non-null slots keep their value, the cache grows to
      the clamped index, and every slot it adds holds that slot's stage value
      (each new slot is appended at its own index). */
  lemma QueryOnlyFills<T>(rt: Runtime<T>, line: Line<T>, k: int)
    requires Valid(line)
    ensures var q := GetResultAtPoint(rt, line, k);
      && |q.line.state| == (if k <= 0 then |line.state| else Max(|line.state|, Clamp(k, |line.ops|)))
      && (forall j :: 0 <= j < |line.state| && !rt.isNull(line.state[j]) ==> q.line.state[j] == line.state[j])
      && (forall j :: |line.state| <= j < |q.line.state| ==> q.line.state[j] == Stage(rt, line.initial, line.ops, j))
  {
  }

  /** Queries keep a coherent cache coherent. */
  lemma QueryKeepsCoherent<T>(rt: Runtime<T>, line: Line<T>, k: int)
    requires Coherent(rt, line)
    ensures Coherent(rt, GetResultAtPoint(rt, line, k).line)
  {
  }

  /** On a coherent line the answer depends on what was asked before: a
      cached slot `p` returns stage `p`, but a miss returns stage `p - 1`,
      without operation `p`. */
  lemma CoherentQueryValue<T>(rt: Runtime<T>, line: Line<T>, k: int)
    requires Coherent(rt, line) && k >= 1
    ensures var p := Clamp(k, |line.ops|);
      GetResultAtPoint(rt, line, k).value
        == if p < |line.state| && !rt.isNull(Stage(rt, line.initial, line.ops, p))
           then Stage(rt, line.initial, line.ops, p)
           else Stage(rt, line.initial, line.ops, p - 1)
  {
  }

  /** Repeating a query changes nothing: the same value, the same cache and
      the same number of operations invoked (a repeated miss invokes them all
      again, because the walk never fills the slot it was asked for). */
  lemma QueryIdempotent<T>(rt: Runtime<T>, line: Line<T>, k: int)
    requires Valid(line)
    ensures var q := GetResultAtPoint(rt, line, k);
      GetResultAtPoint(rt, q.line, k) == q
  {
  }

  /** After a query on a coherent line, every earlier slot whose stage value
      is non-null answers from the cache, without invoking any operation. */
  lemma FillThenHit<T>(rt: Runtime<T>, line: Line<T>, k: int, j: int)
    requires Coherent(rt, line)
    requires 1 <= j < Clamp(k, |line.ops|)
    requires !rt.isNull(Stage(rt, line.initial, line.ops, j))
    ensures var q := GetResultAtPoint(rt, line, k);
      GetResultAtPoint(rt, q.line, j) == Query(Stage(rt, line.initial, line.ops, j), q.line, 0)
  {
  }

  /** Every index at or past the last operation slot answers as `GetResult`. */
  lemma ClampedToResult<T>(rt: Runtime<T>, line: Line<T>, k: int)
    requires Valid(line) && k >= |line.ops|
    ensures GetResultAtPoint(rt, line, k) == GetResult(rt, line)
  {
  }

  /** On a coherent line `GetResult` applies every user operation. */
  lemma CoherentResult<T>(rt: Runtime<T>, line: Line<T>)
    requires Coherent(rt, line)
    ensures GetResult(rt, line).value == Stage(rt, line.initial, line.ops, |line.ops| - 1)
  {
  }

  /** Appending keeps the cache coherent: no cached stage depends on the
      new last operation. */
  lemma AppendKeepsCoherent<T>(rt: Runtime<T>, line: Line<T>, id: nat, unique: bool)
    requires Coherent(rt, line)
    ensures Coherent(rt, AppendOperation(line, id, unique))
  {
    var r := AppendOperation(line, id, unique);
    forall j | 1 <= j < |r.state|
      ensures r.state[j] == Stage(rt, r.initial, r.ops, j)
    {
      StagePrefix(rt, line.initial, line.ops, r.ops, j);
    }
  }

  /** Inserting keeps the cached slots before the insertion point coherent;
      the slots from it on keep the stage values of the old list. */
  lemma InsertKeepsCacheBelow<T>(rt: Runtime<T>, line: Line<T>, id: nat, index: int, unique: bool)
    requires Coherent(rt, line)
    ensures var r := InsertOperation(line, id, index, unique);
      forall j :: 1 <= j < |line.state| && j < InsertionPoint(index) ==>
        r.line.state[j] == Stage(rt, line.initial, r.line.ops, j)
    ensures var r := InsertOperation(line, id, index, unique);
      forall j :: 1 <= j < |line.state| && InsertionPoint(index) <= j ==>
        r.line.state[j] == Stage(rt, line.initial, line.ops, j)
  {
    var r := InsertOperation(line, id, index, unique);
    forall j | 1 <= j < |line.state| && j < InsertionPoint(index)
      ensures r.line.state[j] == Stage(rt, line.initial, r.line.ops, j)
    {
      StagePrefix(rt, line.initial, line.ops, r.line.ops, j);
    }
  }

  /** Appending is inserting at the number of operation slots. */
  lemma AppendIsInsertAtEnd<T>(line: Line<T>, id: nat, unique: bool)
    requires Valid(line)
    ensures InsertOperation(line, id, |line.ops|, unique) == Inserted(AppendOperation(line, id, unique))
  {
  }

  /** Appending the same operation twice with the uniqueness guard leaves
      exactly one copy of it, unless it was there already. */
  lemma AppendUniqueTwice<T>(line: Line<T>, id: nat)
    requires Valid(line)
    ensures var r := AppendOperation(AppendOperation(line, id, true), id, true);
      multiset(r.ops)[Step(id)] == if Step(id) in line.ops then multiset(line.ops)[Step(id)] else 1
  {
  }

  /** Removing undoes appending an operation that was not in the list. */
  lemma RemoveUndoesAppend<T>(line: Line<T>, id: nat)
    requires Valid(line) && Step(id) !in line.ops
    ensures RemoveOperation(AppendOperation(line, id, false), id) == Removal(true, line)
  {
    var ops := line.ops + [Step(id)];
    assert IndexOf(ops, Step(id)) == |line.ops|;
    assert ops[..|line.ops|] == line.ops;
  }

  /** Removing undoes inserting an operation that was not in the list. */
  lemma RemoveUndoesInsert<T>(line: Line<T>, id: nat, index: int)
    requires Valid(line) && Step(id) !in line.ops && InsertionPoint(index) <= |line.ops|
    ensures RemoveOperation(InsertOperation(line, id, index, false).line, id) == Removal(true, line)
  {
    var at := InsertionPoint(index);
    var ops := line.ops[..at] + [Step(id)] + line.ops[at..];
    assert ops[at] == Step(id);
    assert IndexOf(ops, Step(id)) == at;
    assert ops[..at] + ops[at + 1..] == line.ops;
  }

  /** Removal takes away one copy of the operation and nothing else. */
  lemma RemoveTakesOneCopy<T>(line: Line<T>, id: nat)
    requires Valid(line)
    ensures multiset(RemoveOperation(line, id).line.ops) == multiset(line.ops) - multiset{Step(id)}
  {
    RemoveFirstMultiset(line.ops, Step(id));
  }

  /** Removing keeps the cached slots before the removed operation
      coherent, and all of them when nothing was removed. */
  lemma RemoveKeepsCacheBelow<T>(rt: Runtime<T>, line: Line<T>, id: nat)
    requires Coherent(rt, line)
    ensures var r := RemoveOperation(line, id);
      forall j :: 1 <= j < |line.state| && (Step(id) !in line.ops || j < IndexOf(line.ops, Step(id))) ==>
        r.line.state[j] == Stage(rt, line.initial, r.line.ops, j)
  {
    var r := RemoveOperation(line, id);
    forall j | 1 <= j < |line.state| && (Step(id) !in line.ops || j < IndexOf(line.ops, Step(id)))
      ensures r.line.state[j] == Stage(rt, line.initial, r.line.ops, j)
    {
      if Step(id) in line.ops {
        assert r.line.ops[..j + 1] == line.ops[..j + 1];
        StagePrefix(rt, line.initial, line.ops, r.line.ops, j);
      }
    }
  }

  /** A new seed does not reach cached slots: a query that hits the cache
      returns the slot as it was before the new seed. */
  lemma SetInitialKeepsHits<T>(rt: Runtime<T>, line: Line<T>, initial: T, k: int)
    requires Valid(line) && k >= 1
    requires Clamp(k, |line.ops|) < |line.state| && !rt.isNull(line.state[Clamp(k, |line.ops|)])
    ensures var r := SetInitial(line, initial);
      GetResultAtPoint(rt, r, k) == Query(line.state[Clamp(k, |line.ops|)], r, 0)
  {
  }

  /** On a line whose cache was coherent, a hit after a new seed answers
      with the stage value of the old seed. */
  lemma SetInitialAnswersOldSeed<T>(rt: Runtime<T>, line: Line<T>, initial: T, k: int)
    requires Coherent(rt, line) && k >= 1
    requires Clamp(k, |line.ops|) < |line.state| && !rt.isNull(line.state[Clamp(k, |line.ops|)])
    ensures var r := SetInitial(line, initial);
      GetResultAtPoint(rt, r, k).value == Stage(rt, line.initial, line.ops, Clamp(k, |line.ops|))
  {
  }
}
