/** Sequence operations the handlers perform on arrays: filtering by
    position and by predicate, and the facts about them that the handlers'
    contracts need. */
module Seqs {

  predicate NoDuplicates<T(==)>(xs: seq<T>) {
    forall i, j :: 0 <= i < j < |xs| ==> xs[i] != xs[j]
  }

  /** `a` can be obtained from `b` by deleting elements: `a` keeps the
      relative order `b` gave its elements. */
  predicate IsSubsequence<T(==)>(a: seq<T>, b: seq<T>)
    decreases |b|
  {
    if |a| == 0 then true
    else if |b| == 0 then false
    else if a[0] == b[0] then IsSubsequence(a[1..], b[1..])
    else IsSubsequence(a, b[1..])
  }

  /** `xs.filter((_, i) => i !== index)` applied to the part of an array
      that starts at position `from`. */
  function FilterIndex<T>(xs: seq<T>, index: int, from: int): (r: seq<T>)
    ensures from <= index < from + |xs| ==> r == xs[..index - from] + xs[index - from + 1..]
    ensures !(from <= index < from + |xs|) ==> r == xs
    decreases |xs|
  {
    if |xs| == 0 then []
    else if from == index then FilterIndex(xs[1..], index, from + 1)
    else [xs[0]] + FilterIndex(xs[1..], index, from + 1)
  }

  /** `xs.filter((_, i) => i !== index)`: drops the element at `index`, if
      there is one, and keeps the others in order. */
  function RemoveAt<T>(xs: seq<T>, index: int): (r: seq<T>)
    ensures 0 <= index < |xs| ==> |r| == |xs| - 1
    ensures 0 <= index < |xs| ==> forall k :: 0 <= k < index ==> r[k] == xs[k]
    ensures 0 <= index < |xs| ==> forall k :: index <= k < |r| ==> r[k] == xs[k + 1]
    ensures !(0 <= index < |xs|) ==> r == xs
  {
    FilterIndex(xs, index, 0)
  }

  lemma {:induction false} RemoveAtIsSubsequence<T>(xs: seq<T>, index: int)
    ensures IsSubsequence(RemoveAt(xs, index), xs)
  {
    if 0 <= index < |xs| {
      SkipOneIsSubsequence(xs, index);
    } else {
      SubsequenceReflexive(xs);
    }
  }

  lemma {:induction false} SubsequenceReflexive<T>(xs: seq<T>)
    ensures IsSubsequence(xs, xs)
    decreases |xs|
  {
    if |xs| > 0 {
      SubsequenceReflexive(xs[1..]);
    }
  }

  lemma {:induction false} SkipOneIsSubsequence<T>(xs: seq<T>, index: int)
    requires 0 <= index < |xs|
    ensures IsSubsequence(xs[..index] + xs[index + 1..], xs)
    decreases |xs|
  {
    var r := xs[..index] + xs[index + 1..];
    if index == 0 {
      assert r == xs[1..];
      SubsequenceDropHead(xs);
    } else {
      SkipOneIsSubsequence(xs[1..], index - 1);
      assert r[0] == xs[0];
      assert r[1..] == xs[1..][..index - 1] + xs[1..][index..];
    }
  }

  /** Dropping the first element of a sequence leaves a subsequence of it. */
  lemma {:induction false} SubsequenceDropHead<T>(xs: seq<T>)
    requires |xs| > 0
    ensures IsSubsequence(xs[1..], xs)
    decreases |xs|
  {
    if |xs[1..]| > 0 {
      if xs[1..][0] == xs[0] {
        SubsequenceDropHead(xs[1..]);
      } else {
        SubsequenceReflexive(xs[1..]);
      }
    }
  }

  /** A subsequence of a sequence's tail is a subsequence of the sequence. */
  lemma {:induction false} SubsequenceSkipHead<T>(a: seq<T>, b: seq<T>)
    requires |b| > 0 && IsSubsequence(a, b[1..])
    ensures IsSubsequence(a, b)
    decreases |b|, |a|
  {
    if |a| > 0 && a[0] == b[0] {
      SubsequenceTail(a, b[1..]);
    }
  }

  /** Dropping the first element of a subsequence leaves a subsequence. */
  lemma {:induction false} SubsequenceTail<T>(a: seq<T>, b: seq<T>)
    requires |a| > 0 && IsSubsequence(a, b)
    ensures IsSubsequence(a[1..], b)
    decreases |b|, |a|
  {
    if a[0] == b[0] {
      SubsequenceSkipHead(a[1..], b);
    } else {
      SubsequenceTail(a, b[1..]);
      SubsequenceSkipHead(a[1..], b);
    }
  }

  lemma {:induction false} RemoveAtKeepsNoDuplicates<T>(xs: seq<T>, index: int)
    requires NoDuplicates(xs)
    ensures NoDuplicates(RemoveAt(xs, index))
  {
    var r := RemoveAt(xs, index);
    if 0 <= index < |xs| {
      forall i, j | 0 <= i < j < |r| ensures r[i] != r[j] {
        var i' := if i < index then i else i + 1;
        var j' := if j < index then j else j + 1;
        assert r[i] == xs[i'] && r[j] == xs[j'];
      }
    }
  }
}
