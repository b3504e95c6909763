/**
 * The array edits the template builder performs, stated on sequences:
 * `Array.prototype.splice(i, 1)` (remove one element), `splice(i, 0, x)`
 * (insert one element), the remove-then-insert move of a drag and drop,
 * and the filter on positions that deletes a page.
 */
module Splice {

  /** `s.splice(i, 1)`: removes the element at `i`; an index past the end removes nothing. */
  function RemoveAt<T>(s: seq<T>, i: nat): (r: seq<T>)
    ensures i < |s| ==> |r| == |s| - 1
    ensures i < |s| ==> forall k :: 0 <= k < i ==> r[k] == s[k]
    ensures i < |s| ==> forall k :: i <= k < |r| ==> r[k] == s[k + 1]
    ensures i < |s| ==> multiset(r) + multiset{s[i]} == multiset(s)
    ensures i >= |s| ==> r == s
  {
    if i < |s| then
      assert s == s[..i] + [s[i]] + s[i + 1..];
      s[..i] + s[i + 1..]
    else s
  }

  /** `s.splice(i, 0, x)`: inserts `x` before position `i`; an index past the end appends. */
  function InsertAt<T>(s: seq<T>, i: nat, x: T): (r: seq<T>)
    ensures |r| == |s| + 1
    ensures r[if i < |s| then i else |s|] == x
    ensures forall k :: 0 <= k < |s| && k < i ==> r[k] == s[k]
    ensures forall k :: i <= k < |s| ==> r[k + 1] == s[k]
    ensures multiset(r) == multiset(s) + multiset{x}
  {
    var j := if i < |s| then i else |s|;
    assert s == s[..j] + s[j..];
    s[..j] + [x] + s[j..]
  }

  /**
   * The reorder of `onDragEnd`: take the element at `from` out and put it
   * back in at `to` of the shortened sequence.
   */
  function Move<T>(s: seq<T>, from: nat, to: nat): (r: seq<T>)
    requires from < |s|
    ensures |r| == |s|
    ensures multiset(r) == multiset(s)
    ensures to < |s| ==> r[to] == s[from]
    ensures to >= |s| ==> r == RemoveAt(s, from) + [s[from]]
  {
    InsertAt(RemoveAt(s, from), to, s[from])
  }

  /** Where every element ends up after a move to an in-range position. */
  lemma MoveAt<T>(s: seq<T>, from: nat, to: nat, k: nat)
    requires from < |s| && to < |s| && k < |s|
    ensures Move(s, from, to)[k] ==
      if k == to then s[from]
      else if from <= k < to then s[k + 1]
      else if to < k <= from then s[k - 1]
      else s[k]
  {
    var t := RemoveAt(s, from);
    if k < to {
      assert Move(s, from, to)[k] == t[k];
    } else if k > to {
      assert Move(s, from, to)[k] == t[k - 1];
    }
  }

  /** A move only rearranges: every element it yields was in the input. */
  lemma MoveKeepsElements<T>(s: seq<T>, from: nat, to: nat, k: nat)
    requires from < |s| && k < |s|
    ensures exists j :: 0 <= j < |s| && Move(s, from, to)[k] == s[j]
  {
    var r := Move(s, from, to);
    assert r[k] in multiset(r);
    assert r[k] in s;
  }

  /** Moving an element back from where it was put restores the original order. */
  lemma MoveInverse<T>(s: seq<T>, from: nat, to: nat)
    requires from < |s| && to < |s|
    ensures Move(Move(s, from, to), to, from) == s
  {
    var t := Move(s, from, to);
    var u := Move(t, to, from);
    forall k | 0 <= k < |s|
      ensures u[k] == s[k]
    {
      MoveAt(t, to, from, k);
      if k == from {
        MoveAt(s, from, to, to);
      } else if to <= k < from {
        MoveAt(s, from, to, k + 1);
      } else if from < k <= to {
        MoveAt(s, from, to, k - 1);
      } else {
        MoveAt(s, from, to, k);
      }
    }
  }

  /** Moving an element onto its own position changes nothing. */
  lemma MoveToSelf<T>(s: seq<T>, i: nat)
    requires i < |s|
    ensures Move(s, i, i) == s
  {
    forall k | 0 <= k < |s|
      ensures Move(s, i, i)[k] == s[k]
    {
      MoveAt(s, i, i, k);
    }
  }

  /** The filter that keeps every element whose position is not `i`, written as a filter. */
  function WithoutIndex<T>(s: seq<T>, i: nat): seq<T>
  {
    if s == [] then []
    else WithoutIndex(s[..|s| - 1], i) + (if |s| - 1 == i then [] else [s[|s| - 1]])
  }

  /** The index filter removes exactly the element at `i`, as `splice(i, 1)` does. */
  lemma {:induction false} WithoutIndexIsRemoveAt<T>(s: seq<T>, i: nat)
    ensures WithoutIndex(s, i) == RemoveAt(s, i)
    decreases |s|
  {
    if s != [] {
      var n := |s| - 1;
      WithoutIndexIsRemoveAt(s[..n], i);
      if i < n {
        assert RemoveAt(s[..n], i) + [s[n]] == RemoveAt(s, i);
      } else if i == n {
        assert RemoveAt(s[..n], i) == s[..n] == RemoveAt(s, i);
      } else {
        assert RemoveAt(s[..n], i) + [s[n]] == s;
      }
    }
  }
}
