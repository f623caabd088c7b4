/** Order-preserving parts of sequences, used for the two lossy queues. */
module Sequences {
  /** f tells where each element of a occurs in b, in order. */
  ghost predicate Embeds<T>(f: seq<nat>, a: seq<T>, b: seq<T>) {
    && |f| == |a|
    && (forall i :: 0 <= i < |f| ==> f[i] < |b| && b[f[i]] == a[i])
    && (forall i, j :: 0 <= i < j < |f| ==> f[i] < f[j])
  }

  /** a is what is left of b after dropping elements. */
  ghost predicate Subsequence<T(!new)>(a: seq<T>, b: seq<T>) {
    exists f: seq<nat> :: Embeds(f, a, b)
  }

  lemma SubsequenceEmpty<T(!new)>(b: seq<T>)
    ensures Subsequence([], b)
  {
    assert Embeds([], [], b);
  }

  lemma SubsequenceAppend<T(!new)>(a: seq<T>, b: seq<T>, x: T)
    requires Subsequence(a, b)
    ensures Subsequence(a, b + [x])
    ensures Subsequence(a + [x], b + [x])
  {
    var f: seq<nat> :| Embeds(f, a, b);
    assert Embeds(f, a, b + [x]);
    assert Embeds(f + [|b|], a + [x], b + [x]);
  }

  lemma SubsequenceRemove<T(!new)>(a: seq<T>, k: nat, b: seq<T>)
    requires k < |a| && Subsequence(a, b)
    ensures Subsequence(a[..k] + a[k + 1..], b)
  {
    var f: seq<nat> :| Embeds(f, a, b);
    assert Embeds(f[..k] + f[k + 1..], a[..k] + a[k + 1..], b);
  }

  lemma SubsequenceMember<T(!new)>(a: seq<T>, b: seq<T>, x: T)
    requires Subsequence(a, b) && x in a
    ensures x in b
  {
  }
}
