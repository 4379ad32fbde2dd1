/**
 * The `java.util.ArrayList` operations the source relies on, as functions on
 * sequences: `indexOf`, `remove(Object)`, `add(int, E)` and an occurrence count.
 * Equality is Dafny's `==`, which on class references is identity, as for
 * Java objects that do not override `equals`.
 */
module Seqs {

  /** The index of the first occurrence of `x` in `s`, or `|s|` when there is none. */
  function IndexOf<T(==)>(s: seq<T>, x: T): (i: nat)
    ensures i <= |s|
    ensures i < |s| <==> x in s
    ensures i < |s| ==> s[i] == x
    ensures forall k :: 0 <= k < i ==> s[k] != x
  {
    if s == [] then 0
    else if s[0] == x then 0
    else 1 + IndexOf(s[1..], x)
  }

  /** `ArrayList.remove(Object)`: drop the first occurrence of `x`; no change when `x` is absent. */
  function RemoveFirst<T(==)>(s: seq<T>, x: T): (r: seq<T>)
    ensures x !in s ==> r == s
    ensures x in s ==> |r| == |s| - 1
    ensures x in s ==> r == s[..IndexOf(s, x)] + s[IndexOf(s, x) + 1..]
    ensures multiset(r) == multiset(s) - multiset{x}
  {
    var i := IndexOf(s, x);
    if i == |s| then s
    else
      assert s == s[..i] + [x] + s[i + 1..];
      s[..i] + s[i + 1..]
  }

  /** `ArrayList.add(i, x)`: `x` lands at index `i`, the elements from `i` on move one place right. */
  function InsertAt<T>(s: seq<T>, i: nat, x: T): (r: seq<T>)
    requires i <= |s|
    ensures |r| == |s| + 1
    ensures r[i] == x
    ensures forall k :: 0 <= k < i ==> r[k] == s[k]
    ensures forall k :: i < k < |r| ==> r[k] == s[k - 1]
  {
    s[..i] + [x] + s[i..]
  }

  /** How many times `x` occurs in `s`. */
  function Count<T(==)>(s: seq<T>, x: T): (n: nat)
    ensures n <= |s|
    ensures n == 0 <==> x !in s
  {
    if s == [] then 0
    else Count(s[..|s| - 1], x) + (if s[|s| - 1] == x then 1 else 0)
  }

  /** Counting over one more element of a prefix. */
  lemma CountStep<T>(s: seq<T>, i: nat, x: T)
    requires i < |s|
    ensures Count(s[..i + 1], x) == Count(s[..i], x) + (if s[i] == x then 1 else 0)
  {
    assert s[..i + 1][..i] == s[..i];
  }

  /** Removing the element just inserted gives the original sequence back. */
  lemma {:induction false} InsertThenDrop<T>(s: seq<T>, i: nat, x: T)
    requires i <= |s|
    ensures InsertAt(s, i, x)[..i] + InsertAt(s, i, x)[i + 1..] == s
  {
    var r := InsertAt(s, i, x);
    assert r[..i] == s[..i];
    assert r[i + 1..] == s[i..];
  }

  /** In a sequence without repetitions, removing the last element removes its last position. */
  lemma RemoveLastOfDistinct<T>(s: seq<T>)
    requires |s| > 0
    requires forall a, b :: 0 <= a < b < |s| ==> s[a] != s[b]
    ensures RemoveFirst(s, s[|s| - 1]) == s[..|s| - 1]
  {
  }

  /** The first `i + 1` elements are the first `i` and then element `i`. */
  lemma PrefixStep<T>(xs: seq<T>, i: nat)
    requires i < |xs|
    ensures xs[..i + 1] == xs[..i] + [xs[i]]
  {
  }
}
