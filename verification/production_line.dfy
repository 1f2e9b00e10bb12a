/** `ProductionLine<TValue>`: an initial value, a list of operations whose
    slot 0 is an identity padding stage, and a cache of produced values that
    queries fill as a side effect.

    The class is modelled as an immutable record: every member takes the
    line and returns the line as the member leaves it. */
module ProductionLine {
  import opened Lists
  import opened Stages

  /** `m_initial`, `m_operations` and `m_productionState`. */
  datatype Line<T> = Line(initial: T, ops: seq<Op>, state: seq<T>)

  /** What the constructors establish and every member keeps: the padding
      stage sits in slot 0 and the cache holds at least slot 0. */
  predicate Valid<T>(line: Line<T>)
  {
    |line.ops| >= 1 && line.ops[0] == Identity && |line.state| >= 1
  }

  /** `ProductionLine(initial)`: cache slot 0 holds the initial value and
      operation slot 0 the padding stage. */
  function New<T>(initial: T): (line: Line<T>)
    ensures Valid(line) && line.initial == initial && line.state == [initial] && |line.ops| == 1
  {
    Line(initial, [Identity], [initial])
  }

  /** `ProductionLine(initial, params operations)`: the single-value
      constructor followed by one `Add` per supplied operation, in order. */
  function NewWith<T>(initial: T, ids: seq<nat>): (line: Line<T>)
    decreases |ids|
    ensures Valid(line) && line.initial == initial && line.state == [initial]
    ensures |line.ops| == |ids| + 1
    ensures forall i :: 0 <= i < |ids| ==> line.ops[i + 1] == Step(ids[i])
  {
    if |ids| == 0 then New(initial)
    else AppendOperation(NewWith(initial, ids[..|ids| - 1]), ids[|ids| - 1], false)
  }

  /** What a query hands back: the value, the line with its cache as the
      query left it, and how many operations the query invoked. */
  datatype Query<T> = Query(value: T, line: Line<T>, applied: nat)

  /** An index past the last operation slot is pulled back to it. */
  function Clamp(k: int, n: int): (p: int)
    ensures p <= n && (p == k || p == n)
    ensures k <= n ==> p == k
  {
    if k > n then n else k
  }

  /** The walk's bookkeeping for slot `i`: fill the slot if it is null, leave
      a non-null slot alone, and add the slot when the cache is one short. */
  function Store<T>(rt: Runtime<T>, state: seq<T>, i: nat, v: T): (s: seq<T>)
    requires i <= |state|
    ensures |s| == Max(|state|, i + 1)
    ensures s[i] == if i < |state| && !rt.isNull(state[i]) then state[i] else v
    ensures forall j :: 0 <= j < |state| && j != i ==> s[j] == state[j]
  {
    if i < |state| then (if rt.isNull(state[i]) then state[i := v] else state)
    else state + [v]
  }

  /** The cache after a walk over slots `lo .. hi - 1` that starts from
      `base`: a slot in range that is missing or null receives `base` with the
      operations `lo .. j` applied; every other slot keeps what it had. */
  function Refill<T>(rt: Runtime<T>, ops: seq<Op>, state: seq<T>, base: T, lo: nat, hi: nat): (s: seq<T>)
    requires lo <= |state| && hi <= |ops|
    ensures |s| == Max(|state|, hi)
  {
    seq(Max(|state|, hi), j requires 0 <= j < Max(|state|, hi) =>
      if lo <= j < hi && (j >= |state| || rt.isNull(state[j])) then Fold(rt, base, ops[lo..j + 1])
      else state[j])
  }

  /** The walk's result. */
  datatype Walked<T> = Walked(value: T, state: seq<T>, applied: nat)

  /** The cache-miss loop: for `i` from `i` while `i < k`, apply operation
      `i` to the running value and store it in slot `i`. */
  function Walk<T>(rt: Runtime<T>, ops: seq<Op>, state: seq<T>, v: T, i: nat, k: nat): (w: Walked<T>)
    requires i <= |state| && i <= k <= |ops|
    decreases k - i
    ensures w.value == Fold(rt, v, ops[i..k])
    ensures w.state == Refill(rt, ops, state, v, i, k)
    ensures w.applied == k - i
  {
    if i < k then
      var v' := Apply(rt, ops[i], v);
      var w := Walk(rt, ops, Store(rt, state, i, v'), v', i + 1, k);
      assert ops[i..k][1..] == ops[i + 1..k];
      RefillStep(rt, ops, state, v, i, k);
      Walked(w.value, w.state, w.applied + 1)
    else
      assert Refill(rt, ops, state, v, i, k) == state;
      Walked(v, state, 0)
  }

  /** One step of the walk leaves the rest of the walk with the same target. */
  lemma RefillStep<T>(rt: Runtime<T>, ops: seq<Op>, state: seq<T>, v: T, i: nat, k: nat)
    requires i <= |state| && i < k <= |ops|
    ensures Refill(rt, ops, Store(rt, state, i, Apply(rt, ops[i], v)), Apply(rt, ops[i], v), i + 1, k)
         == Refill(rt, ops, state, v, i, k)
  {
    var v' := Apply(rt, ops[i], v);
    var st := Store(rt, state, i, v');
    var a := Refill(rt, ops, st, v', i + 1, k);
    var b := Refill(rt, ops, state, v, i, k);
    assert |a| == |b|;
    forall j | 0 <= j < |a|
      ensures a[j] == b[j]
    {
      if i + 1 <= j < k {
        assert ops[i..j + 1][1..] == ops[i + 1..j + 1];
        assert Fold(rt, v, ops[i..j + 1]) == Fold(rt, v', ops[i + 1..j + 1]);
        assert j >= |st| <==> j >= |state|;
        assert j < |state| ==> st[j] == state[j];
      } else if j == i {
        assert ops[i..i + 1] == [ops[i]];
        assert Fold(rt, v, ops[i..i + 1]) == v';
        assert a[j] == st[j];
      } else {
        assert a[j] == st[j];
        assert j < |state| && st[j] == state[j];
      }
    }
  }

  /** `GetResultAtPoint(productionIndex)`. */
  function GetResultAtPoint<T>(rt: Runtime<T>, line: Line<T>, productionIndex: int): (q: Query<T>)
    requires Valid(line)
    ensures Valid(q.line) && q.line.initial == line.initial && q.line.ops == line.ops
    ensures productionIndex <= 0 ==> q == Query(line.initial, line, 0)
    ensures productionIndex > 0 ==>
      var p := Clamp(productionIndex, |line.ops|);
      if p < |line.state| && !rt.isNull(line.state[p]) then q == Query(line.state[p], line, 0)
      else
        && q.value == Stage(rt, line.initial, line.ops, p - 1)
        && q.line.state == Refill(rt, line.ops, line.state, line.initial, 1, p)
        && q.applied == p - 1
  {
    if productionIndex <= 0 || |line.ops| < 1 then Query(line.initial, line, 0)
    else
      var p := Clamp(productionIndex, |line.ops|);
      if p < |line.state| && !rt.isNull(line.state[p]) then Query(line.state[p], line, 0)
      else
        var w := Walk(rt, line.ops, line.state, line.initial, 1, p);
        Query(w.value, line.(state := w.state), w.applied)
  }

  /** `GetResult()`: the query at the number of operation slots, which is one
      past the last user operation. While the cache is no longer than the
      operation list, that slot is never cached, so every user operation is
      applied, in order. */
  function GetResult<T>(rt: Runtime<T>, line: Line<T>): (q: Query<T>)
    requires Valid(line)
    ensures Valid(q.line) && q.line.initial == line.initial && q.line.ops == line.ops
    ensures |line.state| <= |line.ops| ==>
      q.value == Fold(rt, line.initial, line.ops[1..]) && q.applied == |line.ops| - 1
  {
    assert line.ops[1..|line.ops|] == line.ops[1..];
    GetResultAtPoint(rt, line, |line.ops|)
  }

  /** Outcome of `InsertOperation`: an index past the end throws
      `ArgumentOutOfRangeException`, after the last operation has already
      been duplicated at the end of the list. */
  datatype Insertion<T> = Inserted(line: Line<T>) | OutOfRange(line: Line<T>)

  /** Indices below 1 are raised to 1, so the padding stage stays first. */
  function InsertionPoint(index: int): (at: int)
    ensures at >= 1
    ensures index >= 1 ==> at == index
    ensures index < 1 ==> at == 1
  {
    if index < 1 then 1 else index
  }

  /** `InsertOperation(operation, index, unique)`. */
  function InsertOperation<T>(line: Line<T>, id: nat, index: int, unique: bool): (r: Insertion<T>)
    requires Valid(line)
    ensures Valid(r.line) && r.line.initial == line.initial && r.line.state == line.state
    ensures unique && Step(id) in line.ops ==> r == Inserted(line)
    ensures !(unique && Step(id) in line.ops) ==>
      var at := InsertionPoint(index);
      if at <= |line.ops| then r == Inserted(line.(ops := line.ops[..at] + [Step(id)] + line.ops[at..]))
      else r == OutOfRange(line.(ops := line.ops + [line.ops[|line.ops| - 1]]))
  {
    if unique && Step(id) in line.ops then Inserted(line)
    else
      var at := InsertionPoint(index);
      var grown := line.ops + [line.ops[|line.ops| - 1]];
      var shifted := ShiftRight(grown, |grown| - 1, at);
      if at < |shifted| then
        InsertByShifting(line.ops, at, Step(id));
        Inserted(line.(ops := shifted[at := Step(id)]))
      else
        assert shifted == grown;
        OutOfRange(line.(ops := shifted))
  }

  /** `AppendOperation(operation, unique)`. */
  function AppendOperation<T>(line: Line<T>, id: nat, unique: bool): (r: Line<T>)
    requires Valid(line)
    ensures Valid(r) && r.initial == line.initial && r.state == line.state
    ensures unique && Step(id) in line.ops ==> r == line
    ensures !(unique && Step(id) in line.ops) ==> r.ops == line.ops + [Step(id)]
  {
    if unique && Step(id) in line.ops then line
    else line.(ops := line.ops + [Step(id)])
  }

  /** Outcome of `RemoveOperation`: whether an operation was removed. */
  datatype Removal<T> = Removal(removed: bool, line: Line<T>)

  /** `RemoveOperation(operation)`: `List<T>.Remove`, which takes out the
      first equal element only. */
  function RemoveOperation<T>(line: Line<T>, id: nat): (r: Removal<T>)
    requires Valid(line)
    ensures Valid(r.line) && r.line.initial == line.initial && r.line.state == line.state
    ensures r.removed <==> Step(id) in line.ops
    ensures !r.removed ==> r.line == line
    ensures r.removed ==>
      var i := IndexOf(line.ops, Step(id));
      && 1 <= i
      && Step(id) !in line.ops[..i]
      && r.line.ops == line.ops[..i] + line.ops[i + 1..]
  {
    Removal(Step(id) in line.ops, line.(ops := RemoveFirst(line.ops, Step(id))))
  }

  /** `SetInitial(initial)`: only the seed changes; the cache keeps what it
      had, including slot 0. */
  function SetInitial<T>(line: Line<T>, initial: T): (r: Line<T>)
    requires Valid(line)
    ensures Valid(r) && r.initial == initial
    ensures r.ops == line.ops && r.state == line.state
  {
    line.(initial := initial)
  }
}
