/** Order facts about sequences shared by the filter and the deduplicator. */
module Seqs {

  /** `a` is `b` with some elements dropped and the rest kept in order. */
  ghost predicate Subsequence<T>(a: seq<T>, b: seq<T>)
    decreases |b|
  {
    if a == [] then true
    else if b == [] then false
    else (a[0] == b[0] && Subsequence(a[1..], b[1..])) || Subsequence(a, b[1..])
  }

  /** Keeping an element or dropping one at the end of `b` preserves the relation. */
  lemma {:induction false} SubsequenceSnoc<T>(a: seq<T>, b: seq<T>, x: T, keep: bool)
    requires Subsequence(a, b)
    ensures Subsequence(if keep then a + [x] else a, b + [x])
    decreases |b|
  {
    if b == [] {
      assert a == [];
      if keep {
        assert Subsequence([x][1..], ([] + [x])[1..]);
      }
    } else if a == [] {
      assert (b + [x])[1..] == b[1..] + [x];
      if keep {
        assert Subsequence([] + [x], b[1..] + [x]) by {
          SubsequenceSnoc([], b[1..], x, true);
        }
      }
    } else {
      assert (b + [x])[0] == b[0];
      assert (b + [x])[1..] == b[1..] + [x];
      var a' := if keep then a + [x] else a;
      assert a'[0] == a[0];
      if a[0] == b[0] && Subsequence(a[1..], b[1..]) {
        SubsequenceSnoc(a[1..], b[1..], x, keep);
        assert a'[1..] == if keep then a[1..] + [x] else a[1..];
      } else {
        SubsequenceSnoc(a, b[1..], x, keep);
      }
    }
  }
}
