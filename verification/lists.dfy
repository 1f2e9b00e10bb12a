/** The list primitives the production line relies on: `IndexOf` and
    `Remove` of `List<T>`, and the class's own element-shifting loop of an
    insertion. */
module Lists {

  function Max(a: int, b: int): (m: int)
    ensures m >= a && m >= b && (m == a || m == b)
  {
    if a >= b then a else b
  }

  /** Position of the first element equal to `x`. */
  function IndexOf<X(==)>(s: seq<X>, x: X): (i: nat)
    requires x in s
    ensures i < |s| && s[i] == x
    ensures x !in s[..i]
  {
    if s[0] == x then 0
    else
      var i := 1 + IndexOf(s[1..], x);
      assert s[..i] == [s[0]] + s[1..][..i - 1];
      i
  }

  /** `List<T>.Remove`: drops the first element equal to `x`, if there is one. */
  function RemoveFirst<X(==)>(s: seq<X>, x: X): (r: seq<X>)
    ensures x !in s ==> r == s
    ensures x in s ==> r == s[..IndexOf(s, x)] + s[IndexOf(s, x) + 1..]
  {
    if |s| == 0 then []
    else if s[0] == x then
      assert s == [s[0]] + s[1..];
      s[1..]
    else
      var t := RemoveFirst(s[1..], x);
      assert s == [s[0]] + s[1..];
      assert x in s ==> [s[0]] + t == s[..IndexOf(s, x)] + s[IndexOf(s, x) + 1..] by {
        if x in s {
          var i := IndexOf(s[1..], x);
          assert IndexOf(s, x) == 1 + i;
          assert s[..1 + i] == [s[0]] + s[1..][..i];
          assert s[1 + i + 1..] == s[1..][i + 1..];
        }
      }
      [s[0]] + t
  }

  /** Removal takes away exactly one copy of `x` when there is one, and
      nothing else. */
  lemma {:induction false} RemoveFirstMultiset<X>(s: seq<X>, x: X)
    ensures multiset(RemoveFirst(s, x)) == multiset(s) - multiset{x}
  {
    if |s| > 0 {
      assert s == [s[0]] + s[1..];
      assert multiset(s) == multiset{s[0]} + multiset(s[1..]);
      if s[0] != x {
        RemoveFirstMultiset(s[1..], x);
        assert RemoveFirst(s, x) == [s[0]] + RemoveFirst(s[1..], x);
      }
    }
  }

  /** The shifting loop of an insertion: for `i` counting down while
      `i > index && i > 0`, element `i` takes the value of element `i - 1`.
      Each element is read before it is overwritten, so the window
      `(index, i]` moves up by one place and everything else stays. */
  function ShiftRight<X>(a: seq<X>, i: int, index: int): (r: seq<X>)
    requires i < |a|
    requires 0 <= index
    decreases i
    ensures |r| == |a|
    ensures forall j {:trigger r[j]} :: 0 <= j < |a| ==> r[j] == if index < j <= i then a[j - 1] else a[j]
  {
    if i > index && i > 0 then ShiftRight(a[i := a[i - 1]], i - 1, index) else a
  }

  /** Duplicating the last element and then shifting down to `at` opens a
      gap at `at`: writing `x` there inserts it before the old element `at`. */
  lemma InsertByShifting<X>(s: seq<X>, at: int, x: X)
    requires |s| >= 1 && 0 <= at <= |s|
    ensures ShiftRight(s + [s[|s| - 1]], |s|, at)[at := x] == s[..at] + [x] + s[at..]
  {
  }
}
