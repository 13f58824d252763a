/**
 * The "most frequent candidate width" count of the indentation analyzer.
 *
 * The source walks the candidate widths in order, keeps a count per width and
 * replaces its running answer only when a count becomes strictly greater than
 * the best count so far. The answer is therefore a width of maximal count, and
 * among the widths that share the maximal count it is the one whose count
 * reached that maximum first, which is not always the width seen first.
 */
module Frequency {

  /** How often the value at position `p` has been seen once `p` is processed. */
  function RunningCount(s: seq<nat>, p: nat): nat
    requires p < |s|
  {
    multiset(s[..p + 1])[s[p]]
  }

  /** Position `p` is the first at which some running count reaches `m`. */
  predicate FirstToReach(s: seq<nat>, p: nat, m: nat)
  {
    && p < |s|
    && RunningCount(s, p) == m
    && forall q :: 0 <= q < p ==> RunningCount(s, q) < m
  }

  /** The pair `(maxCount, mostFrequent)` the source's loop ends with. */
  datatype Tally = Tally(maxCount: nat, mostFrequent: nat)

  /** The running counts of a prefix do not depend on what follows it. */
  lemma RunningCountPrefix(s: seq<nat>, n: nat, p: nat)
    requires p < n <= |s|
    ensures RunningCount(s[..n], p) == RunningCount(s, p)
  {
    assert s[..n][..p + 1] == s[..p + 1];
  }

  /** A running count never exceeds the final count of the same value. */
  lemma RunningCountBound(s: seq<nat>, p: nat)
    requires p < |s|
    ensures RunningCount(s, p) <= multiset(s)[s[p]]
  {
    assert s == s[..p + 1] + s[p + 1..];
  }

  /** The outcome of counting `sizes` in order, starting from the answer
      `initial` with count 0: a value replaces the answer when its count
      becomes strictly greater than the best count so far. */
  function Count(sizes: seq<nat>, initial: nat): (r: Tally)
    ensures |sizes| == 0 ==> r == Tally(0, initial)
    ensures |sizes| > 0 ==> r.mostFrequent in sizes && r.maxCount == multiset(sizes)[r.mostFrequent]
    decreases |sizes|
  {
    if |sizes| == 0 then Tally(0, initial)
    else
      assert sizes == sizes[..|sizes| - 1] + [sizes[|sizes| - 1]];
      var before := Count(sizes[..|sizes| - 1], initial);
      var size := sizes[|sizes| - 1];
      var c := multiset(sizes)[size];
      if c > before.maxCount then Tally(c, size) else before
  }

  /**
   * The count ends with a value of maximal count, and among the values that
   * share it, the one whose count reached it first; without values it keeps
   * the initial answer with count 0.
   */
  lemma {:induction false} CountIsMostFrequent(sizes: seq<nat>, initial: nat)
    ensures var t := Count(sizes, initial);
      && (|sizes| == 0 ==> t == Tally(0, initial))
      && (forall v :: multiset(sizes)[v] <= t.maxCount)
      && (|sizes| > 0 ==> t.mostFrequent in sizes)
      && (|sizes| > 0 ==> multiset(sizes)[t.mostFrequent] == t.maxCount)
      && (|sizes| > 0 ==> exists p: nat :: FirstToReach(sizes, p, t.maxCount) && sizes[p] == t.mostFrequent)
    decreases |sizes|
  {
    if |sizes| > 0 {
      var init := sizes[..|sizes| - 1];
      var size := sizes[|sizes| - 1];
      var before := Count(init, initial);
      CountIsMostFrequent(init, initial);
      assert sizes == init + [size];
      if multiset(sizes)[size] > before.maxCount {
        CountStepNewMax(sizes, init, size, before.maxCount);
      } else {
        CountStepKeep(sizes, init, size, before);
      }
    }
  }

  /** The step that raises the maximum: the new value is the first to reach it. */
  lemma CountStepNewMax(sizes: seq<nat>, init: seq<nat>, size: nat, maxCount: nat)
    requires sizes == init + [size]
    requires forall v :: multiset(init)[v] <= maxCount
    requires multiset(sizes)[size] > maxCount
    ensures FirstToReach(sizes, |init|, multiset(sizes)[size])
    ensures forall v :: multiset(sizes)[v] <= multiset(sizes)[size]
  {
    var n := |init|;
    assert sizes[..n] == init;
    assert sizes[..n + 1] == sizes;
    var c := multiset(sizes)[size];
    forall q | 0 <= q < n
      ensures RunningCount(sizes, q) < c
    {
      RunningCountPrefix(sizes, n, q);
      RunningCountBound(init, q);
    }
  }

  /** The step that keeps the maximum: the answer and its first position stay. */
  lemma CountStepKeep(sizes: seq<nat>, init: seq<nat>, size: nat, before: Tally)
    requires sizes == init + [size] && |init| > 0
    requires forall v :: multiset(init)[v] <= before.maxCount
    requires before.mostFrequent in init
    requires multiset(init)[before.mostFrequent] == before.maxCount
    requires exists p: nat :: FirstToReach(init, p, before.maxCount) && init[p] == before.mostFrequent
    requires multiset(sizes)[size] <= before.maxCount
    ensures forall v :: multiset(sizes)[v] <= before.maxCount
    ensures before.mostFrequent in sizes
    ensures multiset(sizes)[before.mostFrequent] == before.maxCount
    ensures exists p: nat :: FirstToReach(sizes, p, before.maxCount) && sizes[p] == before.mostFrequent
  {
    var n := |init|;
    assert sizes[..n] == init;
    var p: nat :| FirstToReach(init, p, before.maxCount) && init[p] == before.mostFrequent;
    RunningCountPrefix(sizes, n, p);
    forall q | 0 <= q < p
      ensures RunningCount(sizes, q) < before.maxCount
    {
      RunningCountPrefix(sizes, n, q);
    }
    assert FirstToReach(sizes, p, before.maxCount);
  }

  /**
   * The source's loop: a count per width in a map, and the running answer
   * replaced only on a strictly greater count.
   */
  method MostFrequent(sizes: seq<nat>, initial: nat) returns (maxCount: nat, mostFrequent: nat)
    ensures Tally(maxCount, mostFrequent) == Count(sizes, initial)
    ensures forall v :: multiset(sizes)[v] <= maxCount
    ensures |sizes| > 0 ==> mostFrequent in sizes && multiset(sizes)[mostFrequent] == maxCount
    ensures |sizes| > 0 ==> exists p: nat :: FirstToReach(sizes, p, maxCount) && sizes[p] == mostFrequent
    ensures |sizes| == 0 ==> maxCount == 0 && mostFrequent == initial
  {
    var counts: map<nat, nat> := map[];
    maxCount := 0;
    mostFrequent := initial;
    var i := 0;
    while i < |sizes|
      invariant i <= |sizes|
      invariant forall v :: CountIn(counts, v) == multiset(sizes[..i])[v]
      invariant Tally(maxCount, mostFrequent) == Count(sizes[..i], initial)
    {
      var size := sizes[i];
      var c := CountIn(counts, size) + 1;
      var updated := counts[size := c];
      CountAdvance(sizes, i, initial, Tally(maxCount, mostFrequent), c);
      CountsAdvance(sizes, i, counts, updated);
      counts := updated;
      if c > maxCount {
        maxCount := c;
        mostFrequent := size;
      }
      i := i + 1;
    }
    assert sizes[..i] == sizes;
    CountIsMostFrequent(sizes, initial);
  }

  /** The answer after one more step of the loop. */
  lemma CountAdvance(sizes: seq<nat>, i: nat, initial: nat, before: Tally, c: nat)
    requires i < |sizes|
    requires before == Count(sizes[..i], initial)
    requires c == multiset(sizes[..i])[sizes[i]] + 1
    ensures Count(sizes[..i + 1], initial) == if c > before.maxCount then Tally(c, sizes[i]) else before
  {
    var init := sizes[..i];
    CountSnoc(init, sizes[i], initial);
    assert sizes[..i + 1] == init + [sizes[i]];
  }

  /** The per-width counts after one more step of the loop. */
  lemma CountsAdvance(sizes: seq<nat>, i: nat, counts: map<nat, nat>, updated: map<nat, nat>)
    requires i < |sizes|
    requires forall v :: CountIn(counts, v) == multiset(sizes[..i])[v]
    requires updated == counts[sizes[i] := CountIn(counts, sizes[i]) + 1]
    ensures forall v :: CountIn(updated, v) == multiset(sizes[..i + 1])[v]
  {
    assert sizes[..i + 1] == sizes[..i] + [sizes[i]];
    CountSnoc(sizes[..i], sizes[i], 0);
  }

  /** Counting one more value: its count grows by one and replaces the
      answer exactly when it beats the maximum so far. */
  lemma CountSnoc(init: seq<nat>, size: nat, initial: nat)
    ensures multiset(init + [size])[size] == multiset(init)[size] + 1
    ensures forall v :: v != size ==> multiset(init + [size])[v] == multiset(init)[v]
    ensures Count(init + [size], initial) ==
      var before := Count(init, initial);
      if multiset(init)[size] + 1 > before.maxCount then Tally(multiset(init)[size] + 1, size) else before
  {
    var sizes := init + [size];
    assert sizes[..|sizes| - 1] == init;
  }

  /** `countMap[size] || 0`. */
  function CountIn(counts: map<nat, nat>, v: nat): nat
  {
    if v in counts then counts[v] else 0
  }
}
