/** Facts about concatenation that the proofs name when they need them. */
module SeqFacts {

  lemma SeqAssoc<T>(a: seq<T>, b: seq<T>, c: seq<T>)
    ensures (a + b) + c == a + (b + c)
  {
  }

  lemma NoneLeft<T>(a: seq<T>)
    ensures a + [] == a
  {
  }
}
