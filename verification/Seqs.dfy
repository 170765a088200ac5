/** Facts about sequences that proofs over long texts are kept short with. */
module Seqs {

  lemma Associates<T>(a: seq<T>, b: seq<T>, c: seq<T>)
    ensures a + (b + c) == a + b + c
  {
  }

  lemma EmptyEnds<T>(a: seq<T>)
    ensures [] + a == a && a + [] == a
  {
  }

  lemma FirstAndRest<T>(a: seq<T>)
    requires a != []
    ensures [a[0]] + a[1..] == a
  {
  }

  lemma SliceStep<T>(a: seq<T>, i: nat)
    requires i < |a|
    ensures a[i..][0] == a[i] && a[i..][1..] == a[i + 1..] && a[i..] == [a[i]] + a[i + 1..]
  {
  }
}
