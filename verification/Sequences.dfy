/** Small facts about concatenation that the solver should not have to find. */
module Sequences {
  lemma Associate<X>(a: seq<X>, b: seq<X>, c: seq<X>)
    ensures a + (b + c) == a + b + c
  {
  }

  lemma Front<X>(a: seq<X>, x: X)
    ensures (a + [x])[..|a|] == a && (a + [x])[|a|] == x
  {
  }

  lemma Tail<X>(x: X, a: seq<X>)
    ensures ([x] + a)[1..] == a
  {
  }

  lemma EmptyRight<X>(a: seq<X>)
    ensures a + [] == a
  {
  }

  lemma EmptyLeft<X>(a: seq<X>)
    ensures [] + a == a
  {
  }
}
