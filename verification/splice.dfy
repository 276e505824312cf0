/**
 The list surgery behind column and board reordering: ECMAScript
 `Array.prototype.splice` for a single removal and a single insertion, and
 `Array.prototype.indexOf`. A reorder removes the dragged element and then
 inserts it at the target position of the shortened list (splice, not swap).
 */
module Splice {

  /** The position `splice` actually uses for a requested `start`: a negative
      start counts back from the end, and the result is clamped to `[0, len]`. */
  function Clamp(len: nat, start: int): (k: nat)
    ensures k <= len
    ensures 0 <= start <= len ==> k == start
    ensures start > len ==> k == len
    ensures start < 0 && -start <= len ==> k == len + start
    ensures start < 0 && -start > len ==> k == 0
  {
    if start < 0 then (if len + start < 0 then 0 else len + start)
    else if start > len then len
    else start
  }

  /** `a.splice(start, 1)` on a copy: drops the element at the clamped start,
      if there is one. */
  function SpliceRemove<T>(s: seq<T>, start: int): (r: seq<T>)
    ensures Clamp(|s|, start) == |s| ==> r == s
    ensures Clamp(|s|, start) < |s| ==> |r| == |s| - 1
    ensures forall i :: 0 <= i < Clamp(|s|, start) && i < |r| ==> r[i] == s[i]
    ensures forall i :: Clamp(|s|, start) <= i < |r| ==> r[i] == s[i + 1]
  {
    var k := Clamp(|s|, start);
    if k < |s| then s[..k] + s[k + 1..] else s
  }

  /** Removal is undone by inserting the removed element where it was. */
  lemma SpliceRemoveInsert<T>(s: seq<T>, k: nat)
    requires k < |s|
    ensures SpliceInsert(SpliceRemove(s, k), k, s[k]) == s
  {
    assert s == s[..k] + [s[k]] + s[k + 1..];
  }

  /** `a.splice(start, 0, x)` on a copy: inserts `x` before the clamped start. */
  function SpliceInsert<T>(s: seq<T>, start: int, x: T): (r: seq<T>)
    ensures |r| == |s| + 1
    ensures var k := Clamp(|s|, start);
      && r[k] == x && r[..k] == s[..k] && r[k + 1..] == s[k..]
  {
    var k := Clamp(|s|, start);
    s[..k] + [x] + s[k..]
  }

  /** `a.indexOf(x)`: the first position holding `x`, or -1. */
  function IndexOf<T(==)>(s: seq<T>, x: T): (i: int)
    ensures -1 <= i < |s|
    ensures i == -1 <==> x !in s
    ensures 0 <= i ==> s[i] == x && x !in s[..i]
  {
    if |s| == 0 then -1
    else if s[0] == x then 0
    else
      var j := IndexOf(s[1..], x);
      assert s[1..][..if j < 0 then 0 else j] == s[1..if j < 0 then 1 else j + 1];
      if j < 0 then -1 else j + 1
  }

  /** The element at `from` is lifted out and re-inserted so that it ends up
      at index `to` of the result (an index past the end appends it). */
  function Move<T>(s: seq<T>, from: nat, to: nat): (r: seq<T>)
    requires from < |s|
    ensures |r| == |s|
    ensures r[Clamp(|s| - 1, to)] == s[from]
  {
    SpliceInsert(SpliceRemove(s, from), to, s[from])
  }

  /** The splice semantics of `Move` element by element: the moved element
      lands at `to`, the ones it passed over shift by one towards `from`, and
      everything outside the two positions stays where it was. */
  lemma MoveShifts<T>(s: seq<T>, from: nat, to: nat)
    requires from < |s| && to < |s|
    ensures |Move(s, from, to)| == |s|
    ensures Move(s, from, to)[to] == s[from]
    ensures forall i :: 0 <= i < |s| && i < from && i < to ==> Move(s, from, to)[i] == s[i]
    ensures forall i :: 0 <= i < |s| && i > from && i > to ==> Move(s, from, to)[i] == s[i]
    ensures forall i :: from <= i < to ==> Move(s, from, to)[i] == s[i + 1]
    ensures forall i :: to < i <= from ==> Move(s, from, to)[i] == s[i - 1]
  {
    forall i | 0 <= i < |s| ensures Move(s, from, to)[i] == MovedFrom(s, from, to, i) {
      MoveAt(s, from, to, i);
    }
  }

  /** Where the element at index `i` of a move from `from` to `to` comes from. */
  function MovedFrom<T>(s: seq<T>, from: nat, to: nat, i: nat): T
    requires from < |s| && to < |s| && i < |s|
  {
    if i == to then s[from]
    else if i < from && i < to then s[i]
    else if i > from && i > to then s[i]
    else if from <= i < to then s[i + 1]
    else s[i - 1]
  }

  lemma MoveAt<T>(s: seq<T>, from: nat, to: nat, i: nat)
    requires from < |s| && to < |s| && i < |s|
    ensures Move(s, from, to)[i] == MovedFrom(s, from, to, i)
  {
    var t := SpliceRemove(s, from);
    var r := Move(s, from, to);
    if i < to {
      assert r[..to][i] == t[..to][i];
    } else if i > to {
      assert r[to + 1..][i - to - 1] == t[to..][i - to - 1];
    }
  }

  /** A move is a permutation: same length and the same elements, counted with multiplicity. */
  lemma MovePermutes<T>(s: seq<T>, from: nat, to: nat)
    requires from < |s|
    ensures |Move(s, from, to)| == |s|
    ensures multiset(Move(s, from, to)) == multiset(s)
  {
    var t := SpliceRemove(s, from);
    var k := Clamp(|t|, to);
    assert s == s[..from] + [s[from]] + s[from + 1..];
    assert t == s[..from] + s[from + 1..];
    assert multiset(s) == multiset(t) + multiset{s[from]};
    assert t == t[..k] + t[k..];
    assert Move(s, from, to) == t[..k] + [s[from]] + t[k..];
  }

  /** Dragging back undoes a drag: moving from `to` back to `from` restores the order. */
  lemma MoveUndo<T>(s: seq<T>, from: nat, to: nat)
    requires from < |s| && to < |s|
    ensures Move(Move(s, from, to), to, from) == s
  {
    var r := Move(s, from, to);
    MoveShifts(s, from, to);
    MoveShifts(r, to, from);
    var u := Move(r, to, from);
    assert |u| == |s|;
    forall i | 0 <= i < |s| ensures u[i] == s[i] {
      if i == from {
      } else if i < from && i < to {
      } else if i > from && i > to {
      } else if from < i <= to {
        assert u[i] == r[i - 1];
      } else {
        assert u[i] == r[i + 1];
      }
    }
  }

  /** The splice-versus-swap example: `[A, B, C, D]` with A moved from 0 to 2 is
      `[B, C, A, D]`, not the swap `[C, B, A, D]`. */
  lemma MoveIsSpliceNotSwap()
    ensures Move(['A', 'B', 'C', 'D'], 0, 2) == ['B', 'C', 'A', 'D']
    ensures Move(['A', 'B', 'C', 'D'], 0, 2) != ['C', 'B', 'A', 'D']
  {
    var s := ['A', 'B', 'C', 'D'];
    assert SpliceRemove(s, 0) == ['B', 'C', 'D'];
    assert SpliceInsert(['B', 'C', 'D'], 2, 'A') == ['B', 'C', 'A', 'D'];
  }

  /** No element occurs twice. */
  predicate NoDup<T(==)>(s: seq<T>) {
    forall i, j :: 0 <= i < j < |s| ==> s[i] != s[j]
  }

  /** A move keeps a duplicate-free order duplicate-free and keeps its element set. */
  lemma MoveKeepsDistinct<T>(s: seq<T>, from: nat, to: nat)
    requires from < |s| && NoDup(s)
    ensures NoDup(Move(s, from, to))
    ensures forall x :: x in Move(s, from, to) <==> x in s
  {
    var r := Move(s, from, to);
    MovePermutes(s, from, to);
    forall i, j | 0 <= i < j < |r| ensures r[i] != r[j] {
      if r[i] == r[j] {
        DuplicateCounted(r, i, j);
        assert multiset(s)[r[i]] >= 2;
        UniqueCounted(s, r[i]);
        assert false;
      }
    }
    forall x ensures x in r <==> x in s {
      assert x in r <==> x in multiset(r);
      assert x in s <==> x in multiset(s);
    }
  }

  /** Two equal entries make an element occur at least twice. */
  lemma DuplicateCounted<T>(s: seq<T>, i: nat, j: nat)
    requires i < j < |s| && s[i] == s[j]
    ensures multiset(s)[s[i]] >= 2
  {
    assert s == s[..i] + [s[i]] + s[i + 1..j] + [s[j]] + s[j + 1..];
  }

  /** In a duplicate-free sequence every element occurs at most once. */
  lemma {:induction false} UniqueCounted<T>(s: seq<T>, x: T)
    requires NoDup(s)
    ensures multiset(s)[x] <= 1
  {
    if |s| > 0 {
      assert s == [s[0]] + s[1..];
      UniqueCounted(s[1..], x);
      if s[0] == x {
        assert x !in s[1..];
      }
    }
  }
}
