# ProductionLine in Dafny

A model of `ProductionLine<TValue>`, a small Unity utility. A production line
holds three things:

- an initial value, `m_initial`;
- a list of unary operations, `m_operations`, whose slot 0 is an identity
  padding stage so that user operations start at index 1;
- a cache, `m_productionState`, that a query fills as a side effect.

The model covers the two constructors, the queries `GetResultAtPoint` and
`GetResult`, and the mutations `InsertOperation`, `AppendOperation`,
`RemoveOperation` and `SetInitial`.

The class becomes an immutable record `Line(initial, ops, state)`. Every member
is a pure function that takes the line and returns the line as the member
leaves it. A query returns `Query(value, line, applied)`, where `applied` counts
the operations the query invoked.

A C# delegate is represented by its handle: `Identity` for the padding stage,
`Step(id)` for a user operation. `Contains` and `Remove` compare handles. The
bodies of the user delegates and the runtime's `== null` test on stored values
come from a `Runtime(invoke, isNull)` record. For a value type such as `int`,
`isNull` is constantly false. The user-facing members take handles, never an
`Op`, so a caller cannot name the padding stage. In C# the padding delegate is
private, so a caller cannot name it there either.

Files:

- `stages.dfy`: operations, the left fold, and stage values. Stage `j` is the
  user operations `1..j` applied to the initial value.
- `lists.dfy`: the list primitives the class relies on, namely `IndexOf`,
  `Remove` and the shifting loop of an insertion.
- `production_line.dfy`: the class itself.
- `properties.dfy`: what holds across calls, such as cache coherence,
  idempotence and round trips between mutations.
- `scenarios.dfy`: worked integer examples.

## How the code behaves, as modelled

- `m_operations.Count` counts the padding stage. So `GetResult()` queries index
  `|ops|`, one past the last user operation.
- On a cache miss the walk runs `i = 1 .. p-1` and returns stage `p - 1`.
  Operation `p` is not applied. A cache hit returns slot `p`, which was filled
  with operation `p` applied. So on a fresh line `1 |> +1 |> *2 |> -3`,
  `GetResultAtPoint(1)` is 1 and `GetResultAtPoint(3)` is 4. After `GetResult()`
  has filled the cache, the same two queries give 2 and 1.
- The comment at ProductionLine.cs:15-16 says both lists start changing at
  index 1, so index `p` is meant to be the value after `p` operations. The hit
  path at ProductionLine.cs:44 keeps that meaning. The miss walk at
  ProductionLine.cs:49 does not: it stops after `p - 1` operations. Because the
  walk never fills slot `p`, a repeated miss invokes the same `p - 1`
  operations again (`LineProperties.CoherentQueryValue`,
  `LineProperties.QueryIdempotent`).
- No mutation touches the cache. After an insertion, a removal or
  `SetInitial`, cached slots keep values computed from the old line
  (`Scenarios.InsertLeavesStaleCache`, `Scenarios.RemoveLeavesStaleCache`,
  `LineProperties.SetInitialKeepsHits`). After a removal the cache can be
  longer than the operation list, and `GetResult` then answers from a stale
  slot. Appending does not make the cache wrong
  (`LineProperties.AppendKeepsCoherent`).
- `InsertOperation` with an index greater than `|ops|` first appends a copy of
  the last operation and then throws `ArgumentOutOfRangeException`. The model
  returns `OutOfRange(line)` and keeps that extra copy in `line`. An index of
  exactly `|ops|` appends.

## Model

| member | source | states |
|---|---|---|
| ProductionLine.New | ProductionLine.cs:13-20 | the new line satisfies the class invariant: padding stage in operation slot 0, the initial value in cache slot 0, and no user operations |
| ProductionLine.NewWith | ProductionLine.cs:22-26 | the constructor with operations keeps the padding stage first, then holds the supplied operations in the given order; the cache is just the initial value |
| LineProperties.FreshLineCoherent | ProductionLine.cs:13-26 | a freshly built line has a coherent cache: slot 0 is the initial value, every other slot holds its stage value, and the cache is no longer than the operation list |
| ProductionLine.GetResultAtPoint | ProductionLine.cs:33-70 | index <= 0 returns the initial value and changes nothing; a larger index is clamped to the operation count; a non-null cached slot is returned with no operation invoked and the line unchanged; otherwise the value is the initial value folded through operations 1..p-1, the cache is refilled as the walk leaves it, and p-1 operations are invoked; operations and seed never change |
| ProductionLine.Clamp | ProductionLine.cs:38-40 | the clamped index never exceeds the operation count, is either the requested index or that count, and is the requested index whenever that is in range |
| ProductionLine.Store | ProductionLine.cs:54-66 | one walk step leaves a cache of length max(old length, i + 1); slot i keeps a non-null value and otherwise receives the new value, at index i itself when the cache was one short; every other slot is unchanged |
| ProductionLine.InsertionPoint | ProductionLine.cs:77 | an index below 1 becomes exactly 1, and an index of 1 or more is kept as given |
| ProductionLine.Walk | ProductionLine.cs:48-67 | the loop's value is the running value folded through operations i..k-1, its cache is the refill of slots i..k-1, and it invokes k-i operations |
| ProductionLine.GetResult | ProductionLine.cs:28-31 | while the cache is no longer than the operation list, the full result applies every user operation in order, invoking each once |
| LineProperties.ClampedToResult | ProductionLine.cs:28-40 | every index at or beyond the operation count gives exactly the answer and line of GetResult |
| LineProperties.CoherentResult | ProductionLine.cs:28-31 | on a coherent line GetResult returns the last stage value |
| LineProperties.QueryOnlyFills | ProductionLine.cs:54-66 | the walk never overwrites a non-null slot; the cache grows to max(old length, clamped index); every added slot sits at its own index and holds its stage value |
| LineProperties.QueryKeepsCoherent | ProductionLine.cs:42-67 | a query keeps a coherent cache coherent |
| LineProperties.CoherentQueryValue | ProductionLine.cs:42-52 | on a coherent line a query returns stage p when slot p is cached and non-null, and stage p-1 otherwise, so the answer depends on earlier queries |
| LineProperties.QueryIdempotent | ProductionLine.cs:42-67 | repeating a query returns the same value and cache and invokes the same number of operations; a miss stays a miss, because the walk never fills the slot it was asked for |
| LineProperties.FillThenHit | ProductionLine.cs:42-66 | after a query on a coherent line, each earlier index whose stage value is non-null is answered from the cache with its stage value and no operation invoked |
| ProductionLine.InsertOperation | ProductionLine.cs:72-87 | with the uniqueness guard and the operation already present nothing changes; otherwise the index is raised to at least 1; an index up to the operation count puts the operation at that index and shifts the rest up by one; a larger index throws after the last operation has been duplicated; the padding stage stays in slot 0; seed and cache never change |
| Lists.ShiftRight | ProductionLine.cs:81-84 | the downward copying loop moves the window (index, i] up by one place and leaves every other element as it was |
| Lists.InsertByShifting | ProductionLine.cs:79-86 | duplicating the last element, shifting, then writing the operation at the index is the same as splicing the operation in before the old element at that index |
| LineProperties.InsertKeepsCacheBelow | ProductionLine.cs:72-86 | after an insertion, cached slots before the insertion point still hold the stage values of the new list, and slots from the insertion point on still hold the stage values of the old list |
| ProductionLine.AppendOperation | ProductionLine.cs:88-94 | with the uniqueness guard and the operation present the line is unchanged; otherwise the operation is added last; seed and cache never change |
| LineProperties.AppendIsInsertAtEnd | ProductionLine.cs:72-94 | appending is the same as inserting at the operation count, with or without the uniqueness guard |
| LineProperties.AppendUniqueTwice | ProductionLine.cs:88-94 | two guarded appends of an absent operation leave exactly one copy; a present operation keeps its count |
| LineProperties.AppendKeepsCoherent | ProductionLine.cs:88-94 | appending keeps a coherent cache coherent |
| ProductionLine.RemoveOperation | ProductionLine.cs:96-99 | the result is true exactly when the operation is present; then only its first occurrence, never the padding stage, is removed and the order of the rest is kept; otherwise nothing changes; seed and cache never change |
| Lists.IndexOf | ProductionLine.cs:96-99 | the index found holds the element and no earlier index does |
| Lists.RemoveFirst | ProductionLine.cs:96-99 | an absent element leaves the list as it is; otherwise the list loses exactly the element at its first index |
| Lists.RemoveFirstMultiset | ProductionLine.cs:96-99 | removal takes away one copy of the element when there is one, and nothing else |
| LineProperties.RemoveKeepsCacheBelow | ProductionLine.cs:96-99 | after a removal, cached slots before the removed operation still hold the new list's stage values, and all of them do when nothing was removed |
| Scenarios.RemoveLeavesStaleCache | ProductionLine.cs:28-44 | removing *2 after GetResult leaves a cache longer than the operation list, and GetResult answers 1 from the stale slot with no operation invoked, while the remaining operations give -1 |
| LineProperties.RemoveTakesOneCopy | ProductionLine.cs:96-99 | the operation list after RemoveOperation has one copy fewer of the operation and is otherwise the same multiset |
| LineProperties.RemoveUndoesAppend | ProductionLine.cs:88-99 | removing an operation that was absent before an append restores the line and reports true |
| LineProperties.RemoveUndoesInsert | ProductionLine.cs:72-99 | removing an operation that was absent before an in-range insert restores the line and reports true |
| ProductionLine.SetInitial | ProductionLine.cs:101 | the seed becomes the new value; the operations and the cache, slot 0 included, stay as they were |
| LineProperties.SetInitialKeepsHits | ProductionLine.cs:42-44 | after a new seed, a query that hits the cache returns the slot cached before the new seed, with no operation invoked and the line unchanged |
| LineProperties.SetInitialAnswersOldSeed | ProductionLine.cs:42-44 | on a line whose cache was coherent, a hit after a new seed returns the stage value computed from the old seed |
| Scenarios.FreshQueries | ProductionLine.cs:33-70 | on a fresh 1 through +1, *2, -3 line, indices 0, 1, 2, 3, the full result and index 10 give 1, 1, 2, 4, 1, 1 |
| Scenarios.QueriesAfterResult | ProductionLine.cs:42-67 | after GetResult the cache is [1, 2, 4, 1], and indices 1 and 3 answer 2 and 1 from it, invoking no operation |
| Scenarios.InsertLeavesStaleCache | ProductionLine.cs:72-86 | inserting *2 at index 2 after GetResult leaves index 3 answering 1 from the cache, while stage 3 of the new list is 8 |
| Scenarios.UniqueAppendAndRemove | ProductionLine.cs:88-99 | a guarded append of a present operation is refused; removing it takes out its only copy; removing an absent one reports false |

## Left out

- Delegate equality: handles stand in for `Delegate.Equals`, so two handles are equal exactly when they name the same operation.
- Exceptions thrown by user operations: operations are total functions of their handle and input.
- Operations that update a reference-type value in place: the model treats every operation as a pure function of its input. In C# the seed, cache slot 0 (ProductionLine.cs:17-18) and the slots filled at ProductionLine.cs:59 and :65 may then alias one object, so a repeated miss can start from a mutated seed, which `LineProperties.QueryIdempotent` does not cover.
- A null delegate stored by the constructor at ProductionLine.cs:25, by `InsertOperation` at ProductionLine.cs:86 or by `AppendOperation` at ProductionLine.cs:93: it throws `NullReferenceException` when the walk invokes it at ProductionLine.cs:52. A null `params` array passed to the constructor throws `NullReferenceException` in the `foreach` at ProductionLine.cs:24. `NewWith` takes a `seq<nat>` of handles, and every handle names a callable operation, so neither case can be expressed.
- Operations that call back into the same line during a walk: re-entrant queries or mutations are not modelled.
- Unity serialization: `[Serializable]` on the class (ProductionLine.cs:5) and `[SerializeField]` on `m_productionState` (ProductionLine.cs:11) make Unity save, reload and clone the cache with the object, while `m_operations` and `m_initial` are not saved. A line restored that way did not come from either constructor, so it need not satisfy `Valid`. The model covers only lines built by `New` or `NewWith` and changed by the members afterwards. `[ReadOnly]` only greys the field out in the inspector (ReadOnlyAttribute.cs:18-24).
- TransparentWindow.cs is not part of this model. It is Win32 window-style calls, per-frame Unity input and `Physics2D` hit testing.
- ReadOnlyAttribute.cs is not part of this model. It is a Unity editor property drawer.
- Concurrency: the class is single-threaded, and the model is sequential.
- The empty-operation-list guard `m_operations.Count < 1` at ProductionLine.cs:36 is modelled. The class invariant `Valid` keeps at least the padding stage, so for a line built by a constructor that branch is never taken.
- `TValue` is a type parameter. Null is whatever the runtime's `isNull` says; the model does not distinguish reference types from nullable value types.
