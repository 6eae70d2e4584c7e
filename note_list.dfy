/**
 * Position-based edits of an ordered list, as Swift's `Array.remove(at:)` and
 * `Array.insert(_:at:)` perform them, and the drag-to-reorder edit built from
 * the two. Positions out of range make Swift trap, so they are excluded by
 * `requires` clauses here.
 */
module NoteList {

  /** The list without its element at position `i` (`remove(at: i)`). */
  function RemoveAt<T>(s: seq<T>, i: nat): (r: seq<T>)
    requires i < |s|
    ensures |r| == |s| - 1
    ensures forall k :: 0 <= k < i ==> r[k] == s[k]
    ensures forall k :: i <= k < |r| ==> r[k] == s[k + 1]
    ensures multiset(r) + multiset{s[i]} == multiset(s)
  {
    assert s == s[..i] + [s[i]] + s[i + 1..];
    s[..i] + s[i + 1..]
  }

  /** The list with `x` placed at position `i` and the later elements shifted up (`insert(x, at: i)`). */
  function InsertAt<T>(s: seq<T>, x: T, i: nat): (r: seq<T>)
    requires i <= |s|
    ensures |r| == |s| + 1 && r[i] == x
    ensures forall k :: 0 <= k < i ==> r[k] == s[k]
    ensures forall k :: i <= k < |s| ==> r[k + 1] == s[k]
    ensures multiset(r) == multiset(s) + multiset{x}
    ensures i == 0 ==> r == [x] + s
    ensures RemoveAt(r, i) == s
  {
    var r := s[..i] + [x] + s[i..];
    assert s == s[..i] + s[i..];
    assert r[..i] == s[..i] && r[i + 1..] == s[i..];
    r
  }

  /** Putting an element back where it was taken from restores the list. */
  lemma InsertRemoved<T>(s: seq<T>, i: nat)
    requires i < |s|
    ensures InsertAt(RemoveAt(s, i), s[i], i) == s
  {
  }

  /**
   * Drag-to-reorder: the element at `src` is taken out and put back at `dst`
   * of the shortened list. The result is a permutation of the input, the moved
   * element lands at `dst`, and every other element keeps its relative order.
   */
  function Moved<T>(s: seq<T>, src: nat, dst: nat): (r: seq<T>)
    requires src < |s| && dst < |s|
    ensures |r| == |s| && r[dst] == s[src]
    ensures multiset(r) == multiset(s)
    ensures RemoveAt(r, dst) == RemoveAt(s, src)
  {
    InsertAt(RemoveAt(s, src), s[src], dst)
  }

  /** Dragging the element back from `dst` to `src` undoes a move. */
  lemma MovedBack<T>(s: seq<T>, src: nat, dst: nat)
    requires src < |s| && dst < |s|
    ensures Moved(Moved(s, src, dst), dst, src) == s
  {
  }

  /** Where each position of a moved list takes its element from. */
  lemma MovedAt<T>(s: seq<T>, src: nat, dst: nat, k: nat)
    requires src < |s| && dst < |s| && k < |s|
    ensures Moved(s, src, dst)[k] ==
      if k == dst then s[src]
      else if src <= k < dst then s[k + 1]
      else if dst < k <= src then s[k - 1]
      else s[k]
  {
  }
}
