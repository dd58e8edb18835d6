/**
 * Searching, counting and removing in ordered lists: the shape of every
 * FindOne / CountDocuments / DeleteOne the handlers issue against a store.
 */
module Seqs {
  import opened Wrappers

  /** The index of the first element satisfying `p`. */
  function FirstIndex<T>(s: seq<T>, p: T -> bool): (r: Option<nat>)
    ensures r.Some? ==> r.value < |s| && p(s[r.value])
    ensures r.Some? ==> forall j :: 0 <= j < r.value ==> !p(s[j])
    ensures r.None? ==> forall j :: 0 <= j < |s| ==> !p(s[j])
  {
    if |s| == 0 then None
    else if p(s[0]) then Some(0)
    else match FirstIndex(s[1..], p)
      case None => None
      case Some(i) => Some(i + 1)
  }

  /** FirstIndex is pinned down by its contract. */
  lemma FirstIndexIs<T>(s: seq<T>, p: T -> bool, i: nat)
    requires i < |s| && p(s[i])
    requires forall j :: 0 <= j < i ==> !p(s[j])
    ensures FirstIndex(s, p) == Some(i)
  {
  }

  /** The number of elements satisfying `p`. */
  function CountWhere<T>(s: seq<T>, p: T -> bool): nat {
    if |s| == 0 then 0
    else (if p(s[0]) then 1 else 0) + CountWhere(s[1..], p)
  }

  /** The count is positive exactly when a first match exists. */
  lemma {:induction false} CountPositiveIffFound<T>(s: seq<T>, p: T -> bool)
    ensures CountWhere(s, p) > 0 <==> FirstIndex(s, p).Some?
  {
    if |s| > 0 && !p(s[0]) {
      CountPositiveIffFound(s[1..], p);
    }
  }

  /** Appending an element adds one to the count exactly when it satisfies `p`. */
  lemma {:induction false} CountAfterAppend<T>(s: seq<T>, x: T, p: T -> bool)
    ensures CountWhere(s + [x], p) == CountWhere(s, p) + (if p(x) then 1 else 0)
  {
    if |s| > 0 {
      assert (s + [x])[1..] == s[1..] + [x];
      CountAfterAppend(s[1..], x, p);
    } else {
      assert (s + [x])[1..] == [];
    }
  }

  /** Appending an element that satisfies `p` after none did makes it the first match. */
  lemma FirstIndexAfterAppend<T>(s: seq<T>, x: T, p: T -> bool)
    requires FirstIndex(s, p).None?
    requires p(x)
    ensures FirstIndex(s + [x], p) == Some(|s|)
  {
    assert forall j :: 0 <= j < |s| ==> (s + [x])[j] == s[j];
    FirstIndexIs(s + [x], p, |s|);
  }

  /** Removes the element at index `i`, keeping the others in order. */
  function RemoveAt<T>(s: seq<T>, i: nat): (r: seq<T>)
    requires i < |s|
    ensures |r| == |s| - 1
    ensures forall k :: 0 <= k < i ==> r[k] == s[k]
    ensures forall k :: i <= k < |r| ==> r[k] == s[k + 1]
    ensures multiset(r) + multiset{s[i]} == multiset(s)
  {
    assert s == s[..i] + [s[i]] + s[i + 1..];
    s[..i] + s[i + 1..]
  }

  /** Removing the element at `i` lowers the count by one exactly when it satisfies `p`. */
  lemma {:induction false} CountAfterRemove<T>(s: seq<T>, p: T -> bool, i: nat)
    requires i < |s|
    ensures CountWhere(RemoveAt(s, i), p) == CountWhere(s, p) - (if p(s[i]) then 1 else 0)
  {
    if i == 0 {
      assert RemoveAt(s, 0) == s[1..];
    } else {
      var r := RemoveAt(s, i);
      CountAfterRemove(s[1..], p, i - 1);
      assert r[0] == s[0];
      assert r[1..] == RemoveAt(s[1..], i - 1);
    }
  }
}
