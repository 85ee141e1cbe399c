/** Shared vocabulary: an optional value, bytes, and sequences without repetition. */
module Prelude {
  datatype Option<+T> = None | Some(value: T)

  type Byte = b: int | 0 <= b < 256

  ghost predicate Distinct<T(!new)>(s: seq<T>) {
    forall i, j :: 0 <= i < j < |s| ==> s[i] != s[j]
  }

  /** The sequence without the element at index i. */
  function RemoveAt<T>(s: seq<T>, i: nat): (r: seq<T>)
    requires i < |s|
    ensures |r| == |s| - 1
  {
    s[..i] + s[i + 1..]
  }

  /** Removing one element takes exactly that element out of the bag, and keeps the rest distinct. */
  lemma RemoveAtContents<T(!new)>(s: seq<T>, i: nat)
    requires i < |s|
    ensures multiset(s) == multiset(RemoveAt(s, i)) + multiset{s[i]}
    ensures forall x :: x in RemoveAt(s, i) ==> x in s
    ensures forall x :: x in s && x != s[i] ==> x in RemoveAt(s, i)
    ensures Distinct(s) ==> Distinct(RemoveAt(s, i)) && s[i] !in RemoveAt(s, i)
  {
    assert s == s[..i] + [s[i]] + s[i + 1..];
    var r := RemoveAt(s, i);
    forall x | x in s && x != s[i]
      ensures x in r
    {
      var k :| 0 <= k < |s| && s[k] == x;
      assert r[if k < i then k else k - 1] == x;
    }
    assert forall k :: 0 <= k < |r| ==> r[k] == s[if k < i then k else k + 1];
  }

  /** s is t with some elements left out, in the same order: at[k] is where s[k] stands in t. */
  ghost predicate PickedBy<T(!new)>(s: seq<T>, t: seq<T>, at: seq<nat>) {
    && |at| == |s|
    && (forall k :: 0 <= k < |at| ==> at[k] < |t| && t[at[k]] == s[k])
    && (forall j, k :: 0 <= j < k < |at| ==> at[j] < at[k])
  }

  ghost predicate Subsequence<T(!new)>(s: seq<T>, t: seq<T>) {
    exists at :: PickedBy(s, t, at)
  }

  lemma SubsequenceReflexive<T(!new)>(s: seq<T>)
    ensures Subsequence(s, s)
  {
    assert PickedBy(s, s, seq(|s|, i => i));
  }

  lemma SubsequenceRemoveAt<T(!new)>(s: seq<T>, t: seq<T>, i: nat)
    requires Subsequence(s, t) && i < |s|
    ensures Subsequence(RemoveAt(s, i), t)
  {
    var at :| PickedBy(s, t, at);
    assert PickedBy(RemoveAt(s, i), t, RemoveAt(at, i));
  }
}
