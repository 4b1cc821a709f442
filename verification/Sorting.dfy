/** Stable sorting of candles by an integer key. */
module Sorting {
  import opened Timeline
  import opened Candles

  function ByOpen(c: Candle): int { c.openTime }

  function Insert(c: Candle, cs: seq<Candle>, key: Candle -> int): seq<Candle> {
    if cs == [] then [c]
    else if key(c) <= key(cs[0]) then [c] + cs
    else [cs[0]] + Insert(c, cs[1..], key)
  }

  function Sort(cs: seq<Candle>, key: Candle -> int): seq<Candle> {
    if cs == [] then [] else Insert(cs[0], Sort(cs[1..], key), key)
  }

  ghost predicate SortedBy(cs: seq<Candle>, key: Candle -> int) {
    forall i, j :: 0 <= i < j < |cs| ==> key(cs[i]) <= key(cs[j])
  }

  lemma {:induction false} InsertContents(c: Candle, cs: seq<Candle>, key: Candle -> int)
    ensures multiset(Insert(c, cs, key)) == multiset(cs) + multiset{c}
  {
    if cs != [] {
      assert cs == [cs[0]] + cs[1..];
      InsertContents(c, cs[1..], key);
    }
  }

  lemma {:induction false} InsertSorted(c: Candle, cs: seq<Candle>, key: Candle -> int)
    requires SortedBy(cs, key)
    ensures SortedBy(Insert(c, cs, key), key)
  {
    if cs != [] && key(cs[0]) < key(c) {
      InsertSorted(c, cs[1..], key);
      InsertContents(c, cs[1..], key);
      var rest := Insert(c, cs[1..], key);
      forall i | 0 <= i < |rest| ensures key(cs[0]) <= key(rest[i]) {
        assert rest[i] in multiset(rest);
        assert rest[i] == c || rest[i] in cs[1..];
      }
    }
  }

  /** Sorting returns the same candles in key order. */
  lemma {:induction false} SortSorts(cs: seq<Candle>, key: Candle -> int)
    ensures SortedBy(Sort(cs, key), key)
    ensures multiset(Sort(cs, key)) == multiset(cs)
  {
    if cs != [] {
      assert cs == [cs[0]] + cs[1..];
      SortSorts(cs[1..], key);
      InsertContents(cs[0], Sort(cs[1..], key), key);
      InsertSorted(cs[0], Sort(cs[1..], key), key);
    }
  }

  lemma SortMembers(cs: seq<Candle>, key: Candle -> int)
    ensures forall c :: c in Sort(cs, key) <==> c in cs
    ensures |Sort(cs, key)| == |cs|
  {
    SortSorts(cs, key);
    assert |multiset(Sort(cs, key))| == |multiset(cs)|;
    forall c: Candle ensures c in Sort(cs, key) <==> c in cs {
      assert c in Sort(cs, key) <==> c in multiset(Sort(cs, key));
      assert c in cs <==> c in multiset(cs);
    }
  }

  /** A list already in key order is left alone. */
  lemma {:induction false} SortSorted(cs: seq<Candle>, key: Candle -> int)
    requires SortedBy(cs, key)
    ensures Sort(cs, key) == cs
  {
    if cs != [] {
      SortSorted(cs[1..], key);
      assert cs == [cs[0]] + cs[1..];
    }
  }
}
