/** Half-open coverage intervals: merging, what a range lacks, and recording a newly covered interval. */
module Intervals {
  import opened Timeline

  datatype Interval = Interval(start: Instant, end: Instant) {
    predicate Has(x: Instant) { start <= x < end }

    predicate Contains(other: Interval) { start <= other.start && other.end <= end }

    predicate NonEmpty() { start < end }
  }

  /** Some interval has the instant. */
  ghost predicate In(x: Instant, ivs: seq<Interval>) { exists i :: 0 <= i < |ivs| && ivs[i].Has(x) }

  ghost predicate SamePoints(a: seq<Interval>, b: seq<Interval>) { forall x :: In(x, a) <==> In(x, b) }

  /** Non-empty, in order, with a positive gap between neighbours. */
  ghost predicate Canonical(ivs: seq<Interval>) {
    (forall i :: 0 <= i < |ivs| ==> ivs[i].NonEmpty()) && (forall i, j :: 0 <= i < j < |ivs| ==> ivs[i].end < ivs[j].start)
  }

  // ------------------------------------------------------------------ canonical forms are unique

  lemma InHead(ivs: seq<Interval>)
    requires Canonical(ivs) && ivs != []
    ensures In(ivs[0].start, ivs) && !In(ivs[0].end, ivs)
    ensures forall x :: In(x, ivs) ==> ivs[0].start <= x
    ensures forall x :: ivs[0].Has(x) ==> In(x, ivs)
  {
    assert ivs[0].Has(ivs[0].start);
    forall i, x | 0 <= i < |ivs| && ivs[i].Has(x) ensures ivs[0].start <= x && x != ivs[0].end {
      assert i > 0 ==> ivs[0].end < ivs[i].start;
    }
  }

  lemma InTail(ivs: seq<Interval>, x: Instant)
    requires Canonical(ivs) && ivs != []
    ensures In(x, ivs[1..]) <==> In(x, ivs) && ivs[0].end < x
  {
    if In(x, ivs[1..]) {
      var i :| 0 <= i < |ivs[1..]| && ivs[1..][i].Has(x);
      assert ivs[i + 1].Has(x);
    }
    if In(x, ivs) && ivs[0].end < x {
      var i :| 0 <= i < |ivs| && ivs[i].Has(x);
      assert ivs[1..][i - 1].Has(x);
    }
  }

  /** The first interval of one canonical form cannot reach past that of another with the same points. */
  lemma HeadReaches(a: seq<Interval>, b: seq<Interval>)
    requires Canonical(a) && Canonical(b) && SamePoints(a, b) && a != [] && b != []
    ensures a[0].start == b[0].start && a[0].end <= b[0].end
  {
    InHead(a);
    InHead(b);
    assert In(a[0].start, b) && In(b[0].start, a);
    assert !In(b[0].end, a) && !a[0].Has(b[0].end);
  }

  /** UNIQUE: two canonical lists with the same points are the same list. */
  lemma {:induction false} CanonicalUnique(a: seq<Interval>, b: seq<Interval>)
    requires Canonical(a) && Canonical(b) && SamePoints(a, b)
    ensures a == b
    decreases |a|
  {
    hide Interval.NonEmpty, Interval.Has;
    if a == [] {
      if b != [] { InHead(b); }
    } else if b == [] {
      InHead(a);
    } else {
      HeadReaches(a, b);
      HeadReaches(b, a);
      forall x ensures In(x, a[1..]) <==> In(x, b[1..]) {
        InTail(a, x);
        InTail(b, x);
      }
      CanonicalUnique(a[1..], b[1..]);
      assert a == [a[0]] + a[1..] && b == [b[0]] + b[1..];
    }
  }

  // ------------------------------------------------------------------ sorting

  predicate Before(a: Interval, b: Interval) { a.start < b.start || (a.start == b.start && a.end <= b.end) }

  ghost predicate Ordered(ivs: seq<Interval>) { forall i, j :: 0 <= i < j < |ivs| ==> ivs[i].start <= ivs[j].start }

  function InsertInterval(v: Interval, ivs: seq<Interval>): (r: seq<Interval>)
    ensures multiset(r) == multiset(ivs) + multiset{v}
  {
    if ivs == [] then [v]
    else if Before(v, ivs[0]) then [v] + ivs
    else
      assert ivs == [ivs[0]] + ivs[1..];
      [ivs[0]] + InsertInterval(v, ivs[1..])
  }

  /** The non-empty intervals, by start and then end. */
  function SortNonEmpty(ivs: seq<Interval>): seq<Interval> {
    if ivs == [] then []
    else if ivs[0].NonEmpty() then InsertInterval(ivs[0], SortNonEmpty(ivs[1..]))
    else SortNonEmpty(ivs[1..])
  }

  lemma {:induction false} InsertOrdered(v: Interval, ivs: seq<Interval>)
    requires Ordered(ivs)
    ensures Ordered(InsertInterval(v, ivs))
  {
    if ivs != [] && !Before(v, ivs[0]) {
      InsertOrdered(v, ivs[1..]);
      var rest := InsertInterval(v, ivs[1..]);
      forall i | 0 <= i < |rest| ensures ivs[0].start <= rest[i].start {
        assert rest[i] in multiset(rest);
        assert rest[i] == v || rest[i] in ivs[1..];
      }
    }
  }

  lemma {:induction false} SortFacts(ivs: seq<Interval>)
    ensures Ordered(SortNonEmpty(ivs))
    ensures forall v :: v in SortNonEmpty(ivs) <==> v in ivs && v.NonEmpty()
  {
    if ivs != [] {
      SortFacts(ivs[1..]);
      var rest := SortNonEmpty(ivs[1..]);
      InsertOrdered(ivs[0], rest);
      forall v: Interval ensures v in SortNonEmpty(ivs) <==> v in ivs && v.NonEmpty() {
        assert v in InsertInterval(ivs[0], rest) <==> v in multiset(InsertInterval(ivs[0], rest));
        assert v in rest <==> v in multiset(rest);
        assert v in ivs <==> v == ivs[0] || v in ivs[1..];
      }
    }
  }

  // ------------------------------------------------------------------ merging

  /** The points of a list and one more interval. */
  lemma InSnoc(ivs: seq<Interval>, v: Interval, x: Instant)
    ensures In(x, ivs + [v]) <==> In(x, ivs) || v.Has(x)
  {
    var more := ivs + [v];
    if In(x, ivs) {
      var i :| 0 <= i < |ivs| && ivs[i].Has(x);
      assert more[i].Has(x);
    }
    if v.Has(x) { assert more[|ivs|].Has(x); }
  }

  /** Merge overlapping or touching intervals: the result is the canonical form of the union. */
  method MergeIntervals(ivs: seq<Interval>) returns (out: seq<Interval>)
    ensures Canonical(out) && SamePoints(out, ivs)
  {
    hide SortNonEmpty, In;
    var rest := SortNonEmpty(ivs);
    SortFacts(ivs);
    assert forall i :: 0 <= i < |rest| ==> rest[i] in rest;
    ghost var done: seq<Interval>, sorted := [], rest;
    out := [];
    while rest != []
      invariant done + rest == sorted && Canonical(out) && SamePoints(out, done)
      invariant Ordered(rest) && forall i :: 0 <= i < |rest| ==> rest[i].NonEmpty() && StartsBy(out, rest[i].start)
    {
      var v := rest[0];
      AbsorbFacts(out, v, done);
      if out != [] && v.start <= out[|out| - 1].end {
        out := out[|out| - 1 := Interval(out[|out| - 1].start, Max(out[|out| - 1].end, v.end))];
      } else {
        out := out + [v];
      }
      assert done + [v] + rest[1..] == done + rest;
      done := done + [v];
      rest := rest[1..];
    }
    assert done == sorted;
    SortedPoints(ivs);
  }

  /** The last interval starts by then. */
  predicate StartsBy(ivs: seq<Interval>, t: Instant) { ivs != [] ==> ivs[|ivs| - 1].start <= t }

  /** One more interval, in order: it widens the last one or comes after it. */
  function Absorb(out: seq<Interval>, v: Interval): seq<Interval> {
    if out != [] && v.start <= out[|out| - 1].end then out[|out| - 1 := Interval(out[|out| - 1].start, Max(out[|out| - 1].end, v.end))]
    else out + [v]
  }

  lemma AbsorbFacts(out: seq<Interval>, v: Interval, done: seq<Interval>)
    requires Canonical(out) && SamePoints(out, done) && v.NonEmpty() && StartsBy(out, v.start)
    ensures Canonical(Absorb(out, v)) && SamePoints(Absorb(out, v), done + [v]) && StartsBy(Absorb(out, v), v.start)
  {
    if out != [] && v.start <= out[|out| - 1].end {
      WidenLast(out, v);
    }
    forall x ensures In(x, Absorb(out, v)) <==> In(x, done + [v]) {
      InSnoc(done, v, x);
      InSnoc(out, v, x);
    }
  }

  /** Widening the last interval over a touching one adds exactly its points. */
  lemma WidenLast(ivs: seq<Interval>, v: Interval)
    requires Canonical(ivs) && ivs != [] && ivs[|ivs| - 1].start <= v.start <= ivs[|ivs| - 1].end && v.NonEmpty()
    ensures var last := ivs[|ivs| - 1]; var wide := ivs[|ivs| - 1 := Interval(last.start, Max(last.end, v.end))];
      Canonical(wide) && forall x :: In(x, wide) <==> In(x, ivs) || v.Has(x)
  {
    var n := |ivs| - 1;
    var last := ivs[n];
    var wide := ivs[n := Interval(last.start, Max(last.end, v.end))];
    forall x ensures In(x, wide) <==> In(x, ivs) || v.Has(x) {
      if In(x, wide) {
        var i :| 0 <= i < |wide| && wide[i].Has(x);
        assert i < n ==> ivs[i].Has(x);
        assert i == n ==> ivs[n].Has(x) || v.Has(x);
      }
      if In(x, ivs) {
        var i :| 0 <= i < |ivs| && ivs[i].Has(x);
        assert wide[i].Has(x);
      }
      if v.Has(x) { assert wide[n].Has(x); }
    }
  }

  lemma SortedPoints(ivs: seq<Interval>)
    ensures SamePoints(SortNonEmpty(ivs), ivs)
  {
    var sorted := SortNonEmpty(ivs);
    SortFacts(ivs);
    forall x ensures In(x, sorted) <==> In(x, ivs) {
      if In(x, sorted) {
        var i :| 0 <= i < |sorted| && sorted[i].Has(x);
        assert sorted[i] in ivs;
        var j :| 0 <= j < |ivs| && ivs[j] == sorted[i];
        assert ivs[j].Has(x);
      }
      if In(x, ivs) {
        var i :| 0 <= i < |ivs| && ivs[i].Has(x);
        assert ivs[i] in sorted;
        var j :| 0 <= j < |sorted| && sorted[j] == ivs[i];
        assert sorted[j].Has(x);
      }
    }
  }

  /** A covered stretch lies in one interval of a canonical list. */
  lemma CoveredInOne(ivs: seq<Interval>, v: Interval) returns (k: nat)
    requires Canonical(ivs) && v.NonEmpty() && forall x :: v.Has(x) ==> In(x, ivs)
    ensures k < |ivs| && ivs[k].Contains(v)
  {
    assert v.Has(v.start);
    k :| 0 <= k < |ivs| && ivs[k].Has(v.start);
    assert !v.Has(ivs[k].end);
  }

  // ------------------------------------------------------------------ what a range lacks

  /** The sub-ranges of [start, end) that canonical coverage does not contain: the canonical form of exactly
      the set difference. */
  method Uncovered(coverage: seq<Interval>, start: Instant, end: Instant) returns (gaps: seq<Interval>)
    requires Canonical(coverage)
    ensures Canonical(gaps) && forall x :: In(x, gaps) <==> start <= x < end && !In(x, coverage)
  {
    gaps := [];
    var cursor := start;
    var i := 0;
    while i < |coverage| && cursor < end
      invariant 0 <= i <= |coverage| && start <= cursor
      invariant Canonical(gaps) && (forall k :: 0 <= k < |gaps| ==> gaps[k].end < cursor && gaps[k].end <= end)
      invariant forall k :: 0 <= k < i ==> coverage[k].end <= cursor
      invariant forall x :: In(x, gaps) <==> start <= x < Min(cursor, end) && !In(x, coverage)
    {
      var v := coverage[i];
      if v.end <= cursor {
        i := i + 1;
        continue;
      }
      if end <= v.start {
        break;
      }
      ghost var before := gaps;
      if cursor < v.start {
        gaps := gaps + [Interval(cursor, v.start)];
        assert v.start < end;
      }
      forall x ensures In(x, gaps) <==> start <= x < Min(Max(cursor, v.end), end) && !In(x, coverage) {
        InSnoc(before, Interval(cursor, v.start), x);
        assert v.Has(x) ==> In(x, coverage);
      }
      cursor := Max(cursor, v.end);
      i := i + 1;
    }
    if cursor < end {
      forall x | cursor <= x < end ensures !In(x, coverage) {
        forall k | 0 <= k < |coverage| ensures !coverage[k].Has(x) {
          assert i < k < |coverage| ==> coverage[i].end < coverage[k].start;
        }
      }
      forall x ensures In(x, gaps + [Interval(cursor, end)]) <==> start <= x < end && !In(x, coverage) {
        InSnoc(gaps, Interval(cursor, end), x);
      }
      gaps := gaps + [Interval(cursor, end)];
    }
  }

  /** One interval holds the whole range. */
  method IsCached(coverage: seq<Interval>, start: Instant, end: Instant) returns (cached: bool)
    requires Canonical(coverage)
    ensures cached <==> forall x :: start <= x < end ==> In(x, coverage)
  {
    if end <= start {
      return true;
    }
    var range := Interval(start, end);
    var i := 0;
    while i < |coverage|
      invariant 0 <= i <= |coverage| && forall k :: 0 <= k < i ==> !coverage[k].Contains(range)
    {
      if coverage[i].start <= start && end <= coverage[i].end {
        forall x | start <= x < end ensures In(x, coverage) { assert coverage[i].Has(x); }
        return true;
      }
      i := i + 1;
    }
    if forall x :: start <= x < end ==> In(x, coverage) {
      assert forall x :: range.Has(x) ==> In(x, coverage);
      var k := CoveredInOne(coverage, range);
    }
    return false;
  }

  lemma UncoveredNone(gaps: seq<Interval>, coverage: seq<Interval>, start: Instant, end: Instant)
    requires Canonical(gaps) && forall x :: In(x, gaps) <==> start <= x < end && !In(x, coverage)
    ensures gaps == [] <==> forall x :: start <= x < end ==> In(x, coverage)
  {
    if gaps != [] { InHead(gaps); }
  }

  /** CACHED MEANS NOTHING UNCOVERED: the two queries agree on every range. */
  method CachedIffNothingUncovered(coverage: seq<Interval>, start: Instant, end: Instant) returns (cached: bool, gaps: seq<Interval>)
    requires Canonical(coverage)
    ensures cached <==> gaps == []
  {
    cached := IsCached(coverage, start, end);
    gaps := Uncovered(coverage, start, end);
    UncoveredNone(gaps, coverage, start, end);
  }
}
