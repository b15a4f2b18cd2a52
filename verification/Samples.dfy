/**
  The bounded sample set (driver/monitoring/transactions/samples.go): once full,
  every second retained sample is dropped in place and the acceptance stride doubles.
 */
module Samples {

  const MAX_SAMPLES_PER_SET := 10_000

  datatype Sample = Sample(at: int, duration: int)

  function Pow2(k: nat): (r: nat)
    ensures r >= 1
  {
    if k == 0 then 1 else 2 * Pow2(k - 1)
  }

  /** The number of offers in `n` windows of `stride` offers each. */
  function Filled(n: nat, stride: nat): nat {
    if n == 0 then 0 else Filled(n - 1, stride) + stride
  }

  lemma {:induction false} FilledIsProduct(n: nat, stride: nat)
    ensures Filled(n, stride) == n * stride
  {
    if n > 0 {
      FilledIsProduct(n - 1, stride);
    }
  }

  lemma {:induction false} FilledGrows(a: nat, b: nat, stride: nat)
    requires a <= b
    ensures Filled(a, stride) <= Filled(b, stride)
    decreases b
  {
    if a < b {
      FilledGrows(a, b - 1, stride);
    }
  }

  lemma {:induction false} FilledMerges(n: nat, stride: nat)
    ensures Filled(2 * n, stride) == Filled(n, 2 * stride)
  {
    if n > 0 {
      FilledMerges(n - 1, stride);
    }
  }

  /** How many windows `seen` offers fill, and whether they fill them exactly. */
  lemma WindowsFilled(seen: nat, n: nat, stride: nat)
    requires Filled(n, stride) <= seen < Filled(n, stride) + stride
    ensures seen / stride == n && (seen % stride == 0 <==> seen == Filled(n, stride))
  {
    var q := seen / stride;
    FilledIsProduct(q, stride);
    assert seen == Filled(q, stride) + seen % stride;
    if q > n {
      FilledGrows(n + 1, q, stride);
    }
    if q < n {
      FilledGrows(q + 1, n, stride);
    }
  }

  /** The next offer is accepted exactly if it fills the window. */
  lemma NextOffer(seen: nat, n: nat, stride: nat)
    requires Filled(n, stride) < seen <= Filled(n, stride) + stride
    ensures seen % stride == 0 <==> seen == Filled(n, stride) + stride
    ensures seen < Filled(n, stride) + stride ==> seen / stride == n
  {
    WindowsFilled(seen, if seen < Filled(n + 1, stride) then n else n + 1, stride);
  }

  /** Offer number `p`, counted from 1, belongs to the i-th window of `stride` offers. */
  predicate InWindow(p: int, i: nat, stride: nat) {
    Filled(i, stride) < p <= Filled(i, stride) + stride
  }

  /** One chosen offer per full window. */
  ghost predicate OnePerWindow(chosen: seq<nat>, stride: nat) {
    forall i {:trigger chosen[i]} :: 0 <= i < |chosen| ==> InWindow(chosen[i], i, stride)
  }

  lemma NextWindow(chosen: seq<nat>, stride: nat, p: nat)
    requires OnePerWindow(chosen, stride) && p == Filled(|chosen|, stride) + stride && stride >= 1
    ensures OnePerWindow(chosen + [p], stride)
  {
  }

  lemma WindowsMerge(p: int, i: nat, stride: nat)
    requires InWindow(p, 2 * i, stride)
    ensures InWindow(p, i, 2 * stride)
  {
    FilledMerges(i, stride);
  }

  lemma EverySecondWindow(chosen: seq<nat>, halved: seq<nat>, stride: nat)
    requires OnePerWindow(chosen, stride) && |chosen| == 2 * |halved|
    requires forall i {:trigger halved[i]} :: 0 <= i < |halved| ==> halved[i] == chosen[2 * i]
    ensures OnePerWindow(halved, 2 * stride)
  {
    forall i | 0 <= i < |halved|
      ensures InWindow(halved[i], i, 2 * stride)
    {
      WindowsMerge(chosen[2 * i], i, stride);
    }
  }

  class SampleSet {
    const buffer: array<Sample> // backing array of the samples slice
    var len: nat                // its length
    var seen: nat
    var stride: nat
    ghost var offers: seq<Sample> // everything offered so far
    ghost var chosen: seq<nat>    // the offer number of each retained sample
    ghost var halvings: nat

    ghost predicate Counted()
      reads this
    {
      && seen == |offers|
      && (stride == 0 ==> seen == len == 0 && halvings == 0)
      && (stride > 0 ==> stride == Pow2(halvings) && Filled(len, stride) <= seen < Filled(len, stride) + stride)
      && (halvings > 0 ==> len >= MAX_SAMPLES_PER_SET / 2)
    }

    /** The retained samples are the chosen offers. */
    ghost predicate Retained()
      reads this, buffer
    {
      && buffer.Length == MAX_SAMPLES_PER_SET && len == |chosen| <= buffer.Length
      && (forall i {:trigger chosen[i]} :: 0 <= i < len ==>
            1 <= chosen[i] <= |offers| && buffer[i] == offers[chosen[i] - 1])
      && (len > 0 ==> chosen[0] == 1)
    }

    ghost predicate Valid()
      reads this, buffer
    {
      Counted() && Retained() && OnePerWindow(chosen, stride) && len < MAX_SAMPLES_PER_SET
    }

    constructor ()
      ensures Valid() && offers == [] && fresh(buffer)
    {
      buffer := new Sample[MAX_SAMPLES_PER_SET](_ => Sample(0, 0));
      len, seen, stride := 0, 0, 0;
      offers, chosen, halvings := [], [], 0;
    }

    /** add: offers one measurement. */
    method Add(at: int, duration: int)
      requires Valid()
      modifies this, buffer
      ensures Valid() && offers == old(offers) + [Sample(at, duration)] && seen == old(seen) + 1
      ensures stride == Pow2(halvings) && len == seen / stride
      ensures len > 0 && chosen[0] == 1 && buffer[0] == offers[0]
      ensures len < 10_000 && (stride > 1 ==> 5_000 <= len)
    {
      if stride == 0 {
        stride := 1;
      }
      seen := seen + 1;
      offers := offers + [Sample(at, duration)];
      NextOffer(seen, len, stride);
      if seen % stride != 0 {
        return;
      }
      Accept(Sample(at, duration));
    }

    method Accept(sample: Sample)
      requires seen == |offers| && stride == Pow2(halvings)
      requires halvings > 0 ==> len >= MAX_SAMPLES_PER_SET / 2
      requires seen == Filled(len, stride) + stride && offers[seen - 1] == sample
      requires Retained() && OnePerWindow(chosen, stride) && len < MAX_SAMPLES_PER_SET
      modifies this`len, this`stride, this`chosen, this`halvings, buffer
      ensures Valid() && stride > 0 && len > 0 && len == seen / stride
    {
      Append(sample);
      WindowsFilled(seen, len, stride);
    }

    /** The accepting half of add: append, and halve once full. */
    method Append(sample: Sample)
      requires seen == |offers| && stride == Pow2(halvings)
      requires halvings > 0 ==> len >= MAX_SAMPLES_PER_SET / 2
      requires seen == Filled(len, stride) + stride && offers[seen - 1] == sample
      requires Retained() && OnePerWindow(chosen, stride) && len < MAX_SAMPLES_PER_SET
      modifies this`len, this`stride, this`chosen, this`halvings, buffer
      ensures Valid() && seen == Filled(len, stride) && stride > 0 && len > 0
    {
      Store(sample);
      if len == MAX_SAMPLES_PER_SET {
        Halve();
      }
    }

    method Store(sample: Sample)
      requires seen == |offers| && stride >= 1 && (len == 0 ==> stride == 1)
      requires seen == Filled(len, stride) + stride && offers[seen - 1] == sample
      requires Retained() && OnePerWindow(chosen, stride) && len < MAX_SAMPLES_PER_SET
      modifies this`len, this`chosen, buffer
      ensures Retained() && OnePerWindow(chosen, stride)
      ensures len == old(len) + 1 && seen == Filled(len, stride)
    {
      NextWindow(chosen, stride, seen);
      buffer[len] := sample;
      chosen := chosen + [seen];
      len := len + 1;
    }

    method Halve()
      requires seen == |offers| && stride == Pow2(halvings) && seen == Filled(len, stride)
      requires Retained() && OnePerWindow(chosen, stride) && len == MAX_SAMPLES_PER_SET
      modifies this`len, this`stride, this`chosen, this`halvings, buffer
      ensures Valid() && seen == Filled(len, stride) && stride > 0
    {
      ghost var before, n := chosen, len;
      Compact();
      EverySecondWindow(before, chosen, stride);
      FilledMerges(len, stride);
      assert 2 * len == n;
      stride, halvings := 2 * stride, halvings + 1;
    }

    method Compact()
      requires len == MAX_SAMPLES_PER_SET && Retained()
      modifies this`len, this`chosen, buffer
      ensures len == MAX_SAMPLES_PER_SET / 2 && Retained()
      ensures forall i {:trigger chosen[i]} :: 0 <= i < len ==> chosen[i] == old(chosen)[2 * i]
    {
      ghost var all := chosen;
      KeepEverySecond();
      len := MAX_SAMPLES_PER_SET / 2;
      chosen := seq(MAX_SAMPLES_PER_SET / 2, i requires 0 <= i < MAX_SAMPLES_PER_SET / 2 => all[2 * i]);
    }

    /** The halving loop: compacts the even positions to the front of the same array. */
    method KeepEverySecond()
      requires buffer.Length == MAX_SAMPLES_PER_SET
      modifies buffer
      ensures forall j {:trigger buffer[j]} :: 0 <= j < MAX_SAMPLES_PER_SET / 2 ==> buffer[j] == old(buffer[2 * j])
    {
      var kept := 0;
      ghost var full := buffer[..];
      for i := 0 to MAX_SAMPLES_PER_SET
        invariant 2 * kept == i + i % 2
        invariant forall j {:trigger buffer[j]} :: 0 <= j < kept ==> buffer[j] == full[2 * j]
        invariant forall j {:trigger buffer[j]} :: kept <= j < MAX_SAMPLES_PER_SET ==> buffer[j] == full[j]
      {
        if i % 2 == 0 {
          assert i == 2 * kept && buffer[i] == full[i];
          buffer[kept] := buffer[i];
          kept := kept + 1;
        }
      }
    }
  }

  /** Any earlier offer has a retained one less than a stride away, in its own window. */
  lemma RetainedAreSpread(chosen: seq<nat>, stride: nat, n: nat) returns (i: nat)
    requires stride >= 1 && 1 <= n <= |chosen| * stride
    requires OnePerWindow(chosen, stride)
    ensures i < |chosen| && i * stride < n <= (i + 1) * stride && i * stride < chosen[i] <= (i + 1) * stride
  {
    i := (n - 1) / stride;
    FilledIsProduct(i, stride);
    FilledIsProduct(i + 1, stride);
    FilledIsProduct(|chosen|, stride);
    assert n - 1 == i * stride + (n - 1) % stride;
    if i >= |chosen| {
      FilledGrows(|chosen|, i, stride);
    }
  }

  /** Windows are disjoint and in order, so the retained samples are distinct offers in offer order. */
  lemma RetainedAreOrdered(chosen: seq<nat>, stride: nat, i: nat, j: nat)
    requires OnePerWindow(chosen, stride)
    requires i < j < |chosen|
    ensures chosen[i] < chosen[j]
  {
    FilledGrows(i + 1, j, stride);
  }
}
