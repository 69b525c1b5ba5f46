/**
 * Dataset validation in the benchmark (benchmarks/src/validation.rs and the full-comparison scan of
 * benchmarks/native/leveldb_aggregate.c): overlapping partition scans that together accept exactly
 * the stores that one complete scan accepts.
 */
module Validation {
  import opened Basics
  import opened Cursor

  // ---------------------------------------------------------------- one scan

  /** What a scan of at most `limit` entries from `start` sees. */
  function Seen(view: seq<Entry>, start: Bytes, limit: nat): seq<Entry> {
    AtMost(view[LowerBound(view, start)..], limit)
  }

  /** The full-comparison scan: every entry compared in order, none missing, none extra. */
  method ScanMatches(view: seq<Entry>, start: Bytes, limit: nat, expected: seq<Entry>) returns (ok: bool)
    ensures ok <==> Seen(view, start, limit) == expected
  {
    var at := LowerBound(view, start);
    var count := 0;
    ghost var seen := Seen(view, start, limit);
    while count < limit && at + count < |view|
      invariant count <= |seen| && count <= |expected| && at + count <= |view| && count <= limit
      invariant seen[..count] == expected[..count]
      decreases limit - count
    {
      var entry := view[at + count];
      assert seen[count] == entry;
      if count >= |expected| || entry.key != expected[count].key || entry.value != expected[count].value {
        return false;
      }
      assert seen[..count + 1] == seen[..count] + [seen[count]] && expected[..count + 1] == expected[..count] + [expected[count]];
      count := count + 1;
    }
    assert count == |seen| && seen[..count] == seen;
    return count == |expected|;
  }

  // ---------------------------------------------------------------- partitions

  function Min(a: nat, b: nat): nat {
    if a < b then a else b
  }

  /** Where the own records of a worker start: the remainder goes to the first workers. */
  function OwnStart(count: nat, workers: nat, p: nat): nat
    requires 0 < workers
  {
    p * (count / workers) + Min(p, count % workers)
  }

  /** own_start plus own_length. */
  function OwnEnd(count: nat, workers: nat, p: nat): nat
    requires 0 < workers
  {
    OwnStart(count, workers, p) + count / workers + (if p < count % workers then 1 else 0)
  }

  lemma {:induction false} PartitionsMeet(count: nat, workers: nat, p: nat)
    requires 0 < workers <= count && p < workers
    ensures OwnEnd(count, workers, p) == OwnStart(count, workers, p + 1)
    ensures OwnStart(count, workers, p) < OwnEnd(count, workers, p)
    ensures OwnStart(count, workers, 0) == 0 && OwnStart(count, workers, workers) == count
  {
    var q, r := count / workers, count % workers;
    assert (p + 1) * q == p * q + q;
    assert count == workers * q + r;
    QuotientIsPositive(count, workers);
  }

  lemma {:induction false} QuotientIsPositive(count: nat, workers: nat)
    requires 0 < workers <= count
    ensures count / workers > 0
  {
    assert count == workers * (count / workers) + count % workers;
  }

  lemma {:induction false} PartitionsGrow(count: nat, workers: nat, p: nat, p': nat)
    requires 0 < workers <= count && p <= p' <= workers
    ensures OwnStart(count, workers, p) + (p' - p) <= OwnStart(count, workers, p')
  {
    if p < p' {
      PartitionsGrow(count, workers, p, p' - 1);
      PartitionsMeet(count, workers, p' - 1);
    }
  }

  /**
   * The scan of the records from `a` to `b`: it also checks the first record after them, or, at the
   * end of the dataset, looks one entry further than expected.
   */
  predicate RangeOk(view: seq<Entry>, expected: seq<Entry>, a: nat, b: nat)
    requires a < b <= |expected|
  {
    var end := if b < |expected| then b + 1 else b;
    var start := if a == 0 then [] else expected[a].key;
    Seen(view, start, end - a + if b == |expected| then 1 else 0) == expected[a..end]
  }

  predicate PartitionOk(view: seq<Entry>, expected: seq<Entry>, workers: nat, p: nat)
    requires 0 < workers <= |expected| && p < workers
  {
    PartitionBounds(|expected|, workers, p);
    RangeOk(view, expected, OwnStart(|expected|, workers, p), OwnEnd(|expected|, workers, p))
  }

  lemma {:induction false} PartitionBounds(count: nat, workers: nat, p: nat)
    requires 0 < workers <= count && p < workers
    ensures OwnStart(count, workers, p) < OwnEnd(count, workers, p) <= count
  {
    PartitionsMeet(count, workers, p);
    PartitionsGrow(count, workers, p + 1, workers);
  }

  predicate ParallelOk(view: seq<Entry>, expected: seq<Entry>, workers: nat) {
    0 < workers <= |expected| && forall p :: 0 <= p < workers ==> PartitionOk(view, expected, workers, p)
  }

  /** validate_full_dataset: one scan over everything, one entry further than expected. */
  predicate SequentialOk(view: seq<Entry>, expected: seq<Entry>) {
    Seen(view, [], |expected| + 1) == expected
  }

  method ValidatePartition(view: seq<Entry>, expected: seq<Entry>, workers: nat, p: nat) returns (ok: bool)
    requires 0 < workers <= |expected| && p < workers
    ensures ok <==> PartitionOk(view, expected, workers, p)
  {
    PartitionBounds(|expected|, workers, p);
    var each, remainder := |expected| / workers, |expected| % workers;
    var ownStart := p * each + Min(p, remainder);
    var ownEnd := ownStart + each + (if p < remainder then 1 else 0);
    assert ownStart == OwnStart(|expected|, workers, p) && ownEnd == OwnEnd(|expected|, workers, p);
    ok := ValidateRange(view, expected, ownStart, ownEnd);
  }

  method ValidateRange(view: seq<Entry>, expected: seq<Entry>, ownStart: nat, ownEnd: nat) returns (ok: bool)
    requires ownStart < ownEnd <= |expected|
    ensures ok <==> RangeOk(view, expected, ownStart, ownEnd)
  {
    var validationEnd := if ownEnd < |expected| then ownEnd + 1 else ownEnd;
    var own := expected[ownStart..validationEnd];
    var start := if ownStart == 0 then [] else own[0].key;
    var limit := |own| + if ownEnd == |expected| then 1 else 0;
    ok := ScanMatches(view, start, limit, own);
  }

  /** The parallel driver: every worker runs, and the first failure in worker order decides. */
  method ValidateParallel(view: seq<Entry>, expected: seq<Entry>, parallelism: nat) returns (firstError: Option<nat>)
    requires 0 < |expected| && 0 < parallelism
    ensures firstError.None? <==> ParallelOk(view, expected, Min(parallelism, |expected|))
    ensures firstError.Some? ==>
              && firstError.value < Min(parallelism, |expected|)
              && !PartitionOk(view, expected, Min(parallelism, |expected|), firstError.value)
              && forall p :: 0 <= p < firstError.value ==> PartitionOk(view, expected, Min(parallelism, |expected|), p)
  {
    firstError := RunWorkers(view, expected, Min(parallelism, |expected|));
  }

  method RunWorkers(view: seq<Entry>, expected: seq<Entry>, workers: nat) returns (firstError: Option<nat>)
    requires 0 < workers <= |expected|
    ensures firstError.None? <==> forall p :: 0 <= p < workers ==> PartitionOk(view, expected, workers, p)
    ensures firstError.Some? ==>
              && firstError.value < workers && !PartitionOk(view, expected, workers, firstError.value)
              && forall p :: 0 <= p < firstError.value ==> PartitionOk(view, expected, workers, p)
  {
    firstError := None;
    for p := 0 to workers
      invariant firstError.None? ==> forall i :: 0 <= i < p ==> PartitionOk(view, expected, workers, i)
      invariant firstError.Some? ==> firstError.value < p && !PartitionOk(view, expected, workers, firstError.value)
      invariant firstError.Some? ==> forall i :: 0 <= i < firstError.value ==> PartitionOk(view, expected, workers, i)
    {
      var ok := ValidatePartition(view, expected, workers, p);
      if firstError.None? && !ok {
        firstError := Some(p);
      }
    }
  }

  // ---------------------------------------------------------------- refinement

  lemma {:induction false} EmptyIsLowest(view: seq<Entry>)
    ensures LowerBound(view, []) == 0
  {
  }

  /** In a sorted list a key is found at its own place. */
  lemma {:induction false} FoundAtOwnPlace(view: seq<Entry>, i: nat)
    requires Sorted(view) && i < |view|
    ensures LowerBound(view, view[i].key) == i
  {
    var n := LowerBound(view, view[i].key);
    KeyOrderIsTotal(view[i].key, view[i].key);
  }

  lemma {:induction false} SequentialAcceptsExactly(view: seq<Entry>, expected: seq<Entry>)
    ensures SequentialOk(view, expected) <==> view == expected
  {
    EmptyIsLowest(view);
    assert view[0..] == view;
  }

  /** The true dataset passes every partition. */
  lemma {:induction false} DatasetPasses(expected: seq<Entry>, a: nat, b: nat)
    requires Sorted(expected) && a < b <= |expected|
    ensures RangeOk(expected, expected, a, b)
  {
    EmptyIsLowest(expected);
    FoundAtOwnPlace(expected, a);
  }

  /** Passing the first `p` partitions fixes the store up to where the next one starts, and one further. */
  lemma {:induction false} PassedPrefix(view: seq<Entry>, expected: seq<Entry>, workers: nat, p: nat)
    requires Sorted(view) && ParallelOk(view, expected, workers) && 0 < p <= workers
    ensures var b := OwnStart(|expected|, workers, p);
            && b <= |expected|
            && (if b < |expected| then |view| > b && view[..b + 1] == expected[..b + 1] else view == expected)
  {
    var count := |expected|;
    PartitionsMeet(count, workers, p - 1);
    PartitionBounds(count, workers, p - 1);
    assert PartitionOk(view, expected, workers, p - 1);
    var a, b := OwnStart(count, workers, p - 1), OwnStart(count, workers, p);
    if p > 1 {
      PassedPrefix(view, expected, workers, p - 1);
    }
    PassedNext(view, expected, a, b);
  }

  lemma {:induction false} PassedNext(view: seq<Entry>, expected: seq<Entry>, a: nat, b: nat)
    requires Sorted(view) && a < b <= |expected| && RangeOk(view, expected, a, b)
    requires a == 0 || (|view| > a && view[..a + 1] == expected[..a + 1])
    ensures if b < |expected| then |view| > b && view[..b + 1] == expected[..b + 1] else view == expected
  {
    if a == 0 {
      EmptyIsLowest(view);
    } else {
      assert view[..a + 1][a] == expected[..a + 1][a];
      FoundAtOwnPlace(view, a);
      assert view[..a] == view[..a + 1][..a] && expected[..a] == expected[..a + 1][..a];
    }
    OnePassed(view, expected, a, b);
  }

  /** What one passed scan from position `a` adds. */
  lemma {:induction false} OnePassed(view: seq<Entry>, expected: seq<Entry>, a: nat, b: nat)
    requires a < b <= |expected| && a <= |view| && view[..a] == expected[..a]
    requires var end := if b < |expected| then b + 1 else b;
             AtMost(view[a..], end - a + if b == |expected| then 1 else 0) == expected[a..end]
    ensures if b < |expected| then |view| > b && view[..b + 1] == expected[..b + 1] else view == expected
  {
    var end := if b < |expected| then b + 1 else b;
    if b < |expected| {
      assert view[..end] == view[..a] + view[a..end];
      assert expected[..end] == expected[..a] + expected[a..end];
      assert AtMost(view[a..], end - a) == view[a..end];
    } else {
      assert view == view[..a] + view[a..] && expected == expected[..a] + expected[a..];
    }
  }

  /**
   * The parallel validation accepts exactly what the sequential one accepts, for every number of
   * records and workers: no missing, wrong or extra entry hides at or between partition boundaries.
   */
  lemma {:induction false} ParallelRefinesSequential(view: seq<Entry>, expected: seq<Entry>, workers: nat)
    requires Sorted(view) && Sorted(expected) && 0 < workers <= |expected|
    ensures ParallelOk(view, expected, workers) <==> SequentialOk(view, expected)
    ensures ParallelOk(view, expected, workers) <==> view == expected
  {
    SequentialAcceptsExactly(view, expected);
    if view == expected {
      forall p | 0 <= p < workers ensures PartitionOk(view, expected, workers, p) {
        PartitionBounds(|expected|, workers, p);
        DatasetPasses(expected, OwnStart(|expected|, workers, p), OwnEnd(|expected|, workers, p));
      }
    }
    if ParallelOk(view, expected, workers) {
      PassedPrefix(view, expected, workers, workers);
      PartitionsMeet(|expected|, workers, 0);
    }
  }
}
