/** The paired percentile bootstrap that compares the full arm with each comparator. */
module PairedBootstrap {
  import opened Counting
  import opened StopContract
  import opened EvaluationEvidence
  import opened EvaluationStats

  function Indicator(b: bool): real {
    if b then 1.0 else 0.0
  }

  function UsableVector(records: seq<Record>, humans: map<BlindId, Human>): seq<real> {
    seq(|records|, i requires 0 <= i < |records| => Indicator(Approved(records[i]) && Usable(records[i], humans)))
  }

  function DegradedVector(records: seq<Record>, humans: map<BlindId, Human>): seq<real> {
    seq(|records|, i requires 0 <= i < |records| => Indicator(Degraded(records[i], humans)))
  }

  /** stats._paired_vectors */
  method PairedVectors(records: seq<Record>, humans: map<BlindId, Human>) returns (usable: seq<real>, degraded: seq<real>)
    ensures usable == UsableVector(records, humans) && degraded == DegradedVector(records, humans)
  {
    usable, degraded := [], [];
    for i := 0 to |records|
      invariant usable == UsableVector(records[..i], humans) && degraded == DegradedVector(records[..i], humans)
    {
      var human := OutcomeOf(records[i], humans);
      usable := usable + [Indicator(records[i].terminal == APPROVED && human.Some? && human.value.usable)];
      degraded := degraded + [Indicator(human.None? || human.value.degraded)];
    }
    assert records[..|records|] == records;
  }

  function Mean(s: seq<real>): real
    requires s != []
  {
    Sum(s) / |s| as real
  }

  function Minus(left: seq<real>, right: seq<real>): seq<real>
    requires |left| == |right|
  {
    seq(|left|, i requires 0 <= i < |left| => left[i] - right[i])
  }

  lemma {:induction false} SumOfMinus(left: seq<real>, right: seq<real>)
    requires |left| == |right|
    ensures Sum(Minus(left, right)) == Sum(left) - Sum(right)
  {
    if left != [] {
      var n := |left| - 1;
      SumOfMinus(left[..n], right[..n]);
      assert Minus(left, right)[..n] == Minus(left[..n], right[..n]);
    }
  }

  lemma {:induction false} SumOfUsable(records: seq<Record>, humans: map<BlindId, Human>)
    ensures Sum(UsableVector(records, humans)) == CountArm(records, humans).usableApproved as real
    ensures Sum(DegradedVector(records, humans)) == CountArm(records, humans).degraded as real
  {
    if records != [] {
      var n := |records| - 1;
      SumOfUsable(records[..n], humans);
      assert UsableVector(records, humans)[..n] == UsableVector(records[..n], humans);
      assert DegradedVector(records, humans)[..n] == DegradedVector(records[..n], humans);
    }
  }

  /** The paired effects are the differences of the rates reported for the two arms. */
  lemma EffectsAreRateDifferences(p: Protocol, records: seq<Record>, comparator: Arm, humans: map<BlindId, Human>)
    requires LedgerOk(p, records) && p.inputs != []
    ensures var full, other := ByArm(records, E_FULL), ByArm(records, comparator);
            && |full| == |other| == |p.inputs|
            && Mean(Minus(UsableVector(full, humans), UsableVector(other, humans)))
               == Rate(CountArm(full, humans).usableApproved, |p.inputs|) - Rate(CountArm(other, humans).usableApproved, |p.inputs|)
            && Mean(Minus(DegradedVector(full, humans), DegradedVector(other, humans)))
               == Rate(CountArm(full, humans).degraded, |p.inputs|) - Rate(CountArm(other, humans).degraded, |p.inputs|)
  {
    ArmsLineUp(p, records, E_FULL);
    ArmsLineUp(p, records, comparator);
    var full, other := ByArm(records, E_FULL), ByArm(records, comparator);
    SumOfUsable(full, humans);
    SumOfUsable(other, humans);
    MeanOfMinus(UsableVector(full, humans), UsableVector(other, humans));
    MeanOfMinus(DegradedVector(full, humans), DegradedVector(other, humans));
  }

  lemma MeanOfMinus(left: seq<real>, right: seq<real>)
    requires |left| == |right| > 0
    ensures Mean(Minus(left, right)) == Mean(left) - Mean(right)
  {
    SumOfMinus(left, right);
    Quotients(Sum(left), Sum(right), |left| as real);
  }

  lemma Quotients(x: real, y: real, n: real)
    requires n > 0.0
    ensures (x - y) / n == x / n - y / n
  {
  }

  // Percentiles

  function Ceiling(x: real): int {
    -((-x).Floor)
  }

  function Index(n: nat, probability: real, upper: bool): int {
    var position := probability * (n - 1) as real;
    if upper then Ceiling(position) else position.Floor
  }

  lemma Scaled(p: real, q: real, x: real)
    requires p <= q && 0.0 <= x
    ensures p * x <= q * x
  {
    assert q * x - p * x == (q - p) * x;
    assert 0.0 <= (q - p) * x;
  }

  lemma ScaledDown(p: real, x: real)
    requires 0.0 <= p <= 1.0 && 0.0 <= x
    ensures 0.0 <= p * x <= x
  {
    assert 0.0 <= (1.0 - p) * x;
    assert (1.0 - p) * x == x - p * x;
  }

  lemma IndexInRange(n: nat, probability: real, upper: bool)
    requires n > 0 && 0.0 <= probability <= 1.0
    ensures 0 <= Index(n, probability, upper) < n
  {
    ScaledDown(probability, (n - 1) as real);
    RoundingInRange(probability * (n - 1) as real, n);
  }

  lemma RoundingInRange(position: real, n: nat)
    requires n > 0 && 0.0 <= position <= (n - 1) as real
    ensures 0 <= position.Floor < n && 0 <= Ceiling(position) < n
  {
  }

  lemma IndexGrows(n: nat, p: real, q: real)
    requires n > 0 && p <= q
    ensures Index(n, p, false) <= Index(n, q, false) <= Index(n, q, true)
    ensures Index(n, p, true) <= Index(n, q, true)
  {
    Scaled(p, q, (n - 1) as real);
    RoundingGrows(p * (n - 1) as real, q * (n - 1) as real);
  }

  lemma RoundingGrows(x: real, y: real)
    requires x <= y
    ensures x.Floor <= y.Floor <= Ceiling(y) && Ceiling(x) <= Ceiling(y)
  {
  }

  /** stats._percentile */
  function Percentile(samples: seq<real>, probability: real, upper: bool): real
    requires samples != [] && 0.0 <= probability <= 1.0
  {
    SortedIsSorted(samples);
    IndexInRange(|samples|, probability, upper);
    Sorted(samples)[Index(|samples|, probability, upper)]
  }

  /** The sample whose rank is the index. */
  lemma RankOfIndex(samples: seq<real>, probability: real, upper: bool, v: real)
    requires samples != [] && 0.0 <= probability <= 1.0
    ensures var k := Index(|samples|, probability, upper);
            v == Percentile(samples, probability, upper) <==>
            v in samples && Count(samples, (x: real) => x < v) <= k && Count(samples, (x: real) => x <= v) > k
  {
    SortedIsSorted(samples);
    IndexInRange(|samples|, probability, upper);
    var ordered, k := Sorted(samples), Index(|samples|, probability, upper);
    assert forall x :: x in samples <==> x in multiset(samples);
    assert ordered[k] in multiset(ordered);
    CountSorted(samples, (x: real) => x < v);
    CountSorted(samples, (x: real) => x <= v);
    if v == ordered[k] {
      CountInOrder(ordered, v, k);
    } else if v in samples {
      assert v in multiset(ordered);
      RankIsUnique(ordered, v, k);
    }
  }

  lemma Rounding(x: real, a: int)
    ensures a <= x.Floor <==> a as real <= x
    ensures a <= Ceiling(x) <==> (a - 1) as real < x
  {
  }

  /** A lower percentile splits the samples at the given share of all but one: no more than that lie below it, and more lie
      below or at it. */
  ghost predicate IsLower(v: real, samples: seq<real>, probability: real) {
    var position := probability * (|samples| - 1) as real;
    v in samples && Count(samples, (x: real) => x < v) as real <= position < Count(samples, (x: real) => x <= v) as real
  }

  /** An upper percentile: leaving out one that is at it, at least that share lies below or at it, and leaving out one that
      is below it, less than that share does. */
  ghost predicate IsUpper(v: real, samples: seq<real>, probability: real) {
    var position := probability * (|samples| - 1) as real;
    && v in samples
    && Count(samples, (x: real) => x < v) as real - 1.0 < position <= Count(samples, (x: real) => x <= v) as real - 1.0
  }

  /** What a percentile is; no other value is like that. */
  lemma PercentileRank(samples: seq<real>, probability: real, v: real)
    requires samples != [] && 0.0 <= probability <= 1.0
    ensures v == Percentile(samples, probability, false) <==> IsLower(v, samples, probability)
    ensures v == Percentile(samples, probability, true) <==> IsUpper(v, samples, probability)
  {
    var position := probability * (|samples| - 1) as real;
    RankOfIndex(samples, probability, false, v);
    RankOfIndex(samples, probability, true, v);
    Rounding(position, Count(samples, (x: real) => x < v));
    Rounding(position, Count(samples, (x: real) => x <= v));
  }

  // The comparison

  function Draw(effects: seq<real>, draw: seq<nat>): seq<real>
    requires forall k :: 0 <= k < |draw| ==> draw[k] < |effects|
  {
    seq(|draw|, k requires 0 <= k < |draw| => effects[draw[k]])
  }

  /** Every resample draws as many inputs as there are, each of them existing. */
  ghost predicate DrawsOk(draws: seq<seq<nat>>, n: nat) {
    n > 0 && draws != [] && forall d :: d in draws ==> |d| == n && forall k :: 0 <= k < n ==> d[k] < n
  }

  function Resampled(effects: seq<real>, draws: seq<seq<nat>>): seq<real>
    requires DrawsOk(draws, |effects|)
  {
    seq(|draws|, k requires 0 <= k < |draws| => assert draws[k] in draws; Mean(Draw(effects, draws[k])))
  }

  datatype Comparison = Comparison(
    effect: real, low: real, high: real, simultaneousLow: real, degradation: real, degradationLow: real, degradationHigh: real,
    simultaneousHigh: real)

  /** stats._paired_comparison */
  function Compare(full: (seq<real>, seq<real>), baseline: (seq<real>, seq<real>), draws: seq<seq<nat>>, confidence: real): Comparison
    requires |full.0| == |full.1| == |baseline.0| == |baseline.1| && DrawsOk(draws, |full.0|) && 0.0 < confidence < 1.0
  {
    var primary, degraded := Minus(full.0, baseline.0), Minus(full.1, baseline.1);
    var primarySamples, degradedSamples := Resampled(primary, draws), Resampled(degraded, draws);
    var twoSided, simultaneous := (1.0 - confidence) / 2.0, (1.0 - confidence) / 6.0;
    Comparison(
      Mean(primary),
      Percentile(primarySamples, twoSided, false),
      Percentile(primarySamples, 1.0 - twoSided, true),
      Percentile(primarySamples, simultaneous, false),
      Mean(degraded),
      Percentile(degradedSamples, twoSided, false),
      Percentile(degradedSamples, 1.0 - twoSided, true),
      Percentile(degradedSamples, 1.0 - simultaneous, true))
  }

  lemma MeanOfDifferences(left: seq<real>, right: seq<real>)
    requires |left| == |right| > 0
    ensures Mean(Minus(left, right)) == (Sum(left) - Sum(right)) / |left| as real
  {
    SumOfMinus(left, right);
  }

  /** The resampled effects of one comparison: each is the average difference over the inputs that were drawn. */
  lemma ResampledEffects(left: seq<real>, right: seq<real>, draws: seq<seq<nat>>, k: nat)
    requires |left| == |right| && DrawsOk(draws, |left|) && k < |draws|
    ensures draws[k] in draws
    ensures Resampled(Minus(left, right), draws)[k] == (Sum(Draw(left, draws[k])) - Sum(Draw(right, draws[k]))) / |left| as real
  {
    assert draws[k] in draws;
    var l, r := Draw(left, draws[k]), Draw(right, draws[k]);
    assert Draw(Minus(left, right), draws[k]) == Minus(l, r);
    MeanOfDifferences(l, r);
  }

  /** The intervals leave out half of the rest on either side, the simultaneous bounds a sixth of it on one. */
  ghost predicate Bounds(c: Comparison, usable: seq<real>, degraded: seq<real>, rest: real) {
    && IsLower(c.low, usable, rest / 2.0) && IsUpper(c.high, usable, 1.0 - rest / 2.0)
    && IsLower(c.simultaneousLow, usable, rest / 6.0)
    && IsLower(c.degradationLow, degraded, rest / 2.0) && IsUpper(c.degradationHigh, degraded, 1.0 - rest / 2.0)
    && IsUpper(c.simultaneousHigh, degraded, 1.0 - rest / 6.0)
  }

  lemma BoundsOfPercentiles(c: Comparison, usable: seq<real>, degraded: seq<real>, rest: real)
    requires usable != [] && degraded != [] && 0.0 < rest < 1.0
    requires c.low == Percentile(usable, rest / 2.0, false) && c.high == Percentile(usable, 1.0 - rest / 2.0, true)
    requires c.simultaneousLow == Percentile(usable, rest / 6.0, false)
    requires c.degradationLow == Percentile(degraded, rest / 2.0, false)
    requires c.degradationHigh == Percentile(degraded, 1.0 - rest / 2.0, true)
    requires c.simultaneousHigh == Percentile(degraded, 1.0 - rest / 6.0, true)
    ensures Bounds(c, usable, degraded, rest)
  {
    assert IsLower(c.low, usable, rest / 2.0) by { PercentileRank(usable, rest / 2.0, c.low); }
    assert IsUpper(c.high, usable, 1.0 - rest / 2.0) by { PercentileRank(usable, 1.0 - rest / 2.0, c.high); }
    assert IsLower(c.simultaneousLow, usable, rest / 6.0) by { PercentileRank(usable, rest / 6.0, c.simultaneousLow); }
    assert IsLower(c.degradationLow, degraded, rest / 2.0) by { PercentileRank(degraded, rest / 2.0, c.degradationLow); }
    assert IsUpper(c.degradationHigh, degraded, 1.0 - rest / 2.0) by {
      PercentileRank(degraded, 1.0 - rest / 2.0, c.degradationHigh);
    }
    assert IsUpper(c.simultaneousHigh, degraded, 1.0 - rest / 6.0) by {
      PercentileRank(degraded, 1.0 - rest / 6.0, c.simultaneousHigh);
    }
  }

  /** What a comparison reports: both effects are average differences, and the bounds leave out the shares above. */
  lemma WhatIsCompared(full: (seq<real>, seq<real>), baseline: (seq<real>, seq<real>), draws: seq<seq<nat>>, confidence: real)
    requires |full.0| == |full.1| == |baseline.0| == |baseline.1| && DrawsOk(draws, |full.0|) && 0.0 < confidence < 1.0
    ensures var c, n := Compare(full, baseline, draws, confidence), |full.0| as real;
            && c.effect == (Sum(full.0) - Sum(baseline.0)) / n && c.degradation == (Sum(full.1) - Sum(baseline.1)) / n
            && Bounds(c, Resampled(Minus(full.0, baseline.0), draws), Resampled(Minus(full.1, baseline.1), draws), 1.0 - confidence)
  {
    var c := Compare(full, baseline, draws, confidence);
    MeanOfDifferences(full.0, baseline.0);
    MeanOfDifferences(full.1, baseline.1);
    BoundsOfPercentiles(c, Resampled(Minus(full.0, baseline.0), draws), Resampled(Minus(full.1, baseline.1), draws), 1.0 - confidence);
  }

  /** One sample left aside, no more than this share of them has the property. */
  ghost predicate AtMostShare(samples: seq<real>, p: real -> bool, share: real) {
    Within(Count(samples, p), |samples|, share)
  }

  predicate Within(count: int, n: nat, share: real) {
    count as real <= share * (n - 1) as real
  }

  lemma LowerIndex(n: nat, share: real, count: int)
    requires n > 0
    ensures count <= Index(n, share, false) <==> Within(count, n, share)
  {
    Rounding(share * (n - 1) as real, count);
  }

  lemma UpperIndex(n: nat, probability: real, share: real, count: int)
    requires n > 0 && share == 1.0 - probability
    ensures count <= n - 1 - Index(n, probability, true) <==> Within(count, n, share)
  {
    var all := (n - 1) as real;
    assert probability * all == all - share * all;
    Rounding(probability * all, n - count);
  }

  lemma FewBelow(ordered: seq<real>, k: nat, limit: real)
    requires Ordered(ordered) && k < |ordered|
    ensures ordered[k] > limit <==> Count(ordered, (x: real) => x <= limit) <= k
  {
    if ordered[k] > limit {
      CountUpTo(ordered, (x: real) => x <= limit, k);
    } else {
      CountUpTo(ordered, (x: real) => x <= limit, k + 1);
    }
  }

  lemma FewAbove(ordered: seq<real>, k: nat, limit: real)
    requires Ordered(ordered) && k < |ordered|
    ensures ordered[k] < limit <==> Count(ordered, (x: real) => x >= limit) <= |ordered| - 1 - k
  {
    var below := (x: real) => x < limit;
    YesAndNo(ordered, below);
    CountSame(ordered, Not(below), (x: real) => x >= limit);
    if ordered[k] < limit {
      CountUpTo(ordered, below, k + 1);
    } else {
      CountUpTo(ordered, below, k);
    }
  }

  /** A lower percentile is above a limit exactly when no more than its share of the samples is not. */
  lemma LowerAbove(samples: seq<real>, share: real, limit: real)
    requires samples != [] && 0.0 <= share <= 1.0
    ensures Percentile(samples, share, false) > limit <==> AtMostShare(samples, (x: real) => x <= limit, share)
  {
    SortedIsSorted(samples);
    IndexInRange(|samples|, share, false);
    CountSorted(samples, (x: real) => x <= limit);
    FewBelow(Sorted(samples), Index(|samples|, share, false), limit);
    LowerIndex(|samples|, share, Count(samples, (x: real) => x <= limit));
  }

  /** And an upper one is below a limit exactly when no more than the rest of the samples is not. */
  lemma UpperBelow(samples: seq<real>, probability: real, share: real, limit: real)
    requires samples != [] && 0.0 <= probability <= 1.0 && share == 1.0 - probability
    ensures Percentile(samples, probability, true) < limit <==> AtMostShare(samples, (x: real) => x >= limit, share)
  {
    SortedIsSorted(samples);
    IndexInRange(|samples|, probability, true);
    CountSorted(samples, (x: real) => x >= limit);
    var above := Count(samples, (x: real) => x >= limit);
    assert Percentile(samples, probability, true) < limit <==> above <= |samples| - 1 - Index(|samples|, probability, true) by {
      FewAbove(Sorted(samples), Index(|samples|, probability, true), limit);
    }
    UpperIndex(|samples|, probability, share, above);
  }

  /** stats._preregistered_criteria_met */
  predicate CriteriaMet(comparisons: seq<Comparison>, minimumEffect: real, margin: real) {
    forall c | c in comparisons :: c.simultaneousLow > minimumEffect && c.simultaneousHigh < margin
  }

  lemma PercentileGrows(samples: seq<real>, p: real, q: real)
    requires samples != [] && 0.0 <= p <= q <= 1.0
    ensures Percentile(samples, p, false) <= Percentile(samples, q, false) <= Percentile(samples, q, true)
    ensures Percentile(samples, p, true) <= Percentile(samples, q, true)
  {
    SortedIsSorted(samples);
    IndexGrows(|samples|, p, q);
    IndexGrows(|samples|, q, q);
    IndexInRange(|samples|, p, false);
    IndexInRange(|samples|, p, true);
    IndexInRange(|samples|, q, false);
    IndexInRange(|samples|, q, true);
  }

  lemma PercentilesNest(samples: seq<real>, confidence: real)
    requires samples != [] && 0.0 < confidence < 1.0
    ensures var twoSided, simultaneous := (1.0 - confidence) / 2.0, (1.0 - confidence) / 6.0;
            && Percentile(samples, simultaneous, false) <= Percentile(samples, twoSided, false)
            && Percentile(samples, twoSided, false) <= Percentile(samples, 1.0 - twoSided, true)
            && Percentile(samples, 1.0 - twoSided, true) <= Percentile(samples, 1.0 - simultaneous, true)
  {
    var twoSided, simultaneous := (1.0 - confidence) / 2.0, (1.0 - confidence) / 6.0;
    PercentileGrows(samples, simultaneous, twoSided);
    PercentileGrows(samples, twoSided, 1.0 - twoSided);
    PercentileGrows(samples, 1.0 - twoSided, 1.0 - simultaneous);
  }

  /** The simultaneous bounds lie outside the intervals. */
  lemma BoundsNest(full: (seq<real>, seq<real>), baseline: (seq<real>, seq<real>), draws: seq<seq<nat>>, confidence: real)
    requires |full.0| == |full.1| == |baseline.0| == |baseline.1| && DrawsOk(draws, |full.0|) && 0.0 < confidence < 1.0
    ensures var c := Compare(full, baseline, draws, confidence);
            c.simultaneousLow <= c.low <= c.high && c.degradationLow <= c.degradationHigh <= c.simultaneousHigh
  {
    PercentilesNest(Resampled(Minus(full.0, baseline.0), draws), confidence);
    PercentilesNest(Resampled(Minus(full.1, baseline.1), draws), confidence);
  }

  const COMPARATORS: seq<Arm> := [B_RANDOM_RETRY, C_BEST_OF_K, D_DIRECTED]

  function Vectors(records: seq<Record>, humans: map<BlindId, Human>, arm: Arm): (seq<real>, seq<real>) {
    (UsableVector(ByArm(records, arm), humans), DegradedVector(ByArm(records, arm), humans))
  }

  lemma VectorsLineUp(p: Protocol, records: seq<Record>, humans: map<BlindId, Human>, arm: Arm)
    requires LedgerOk(p, records)
    ensures |Vectors(records, humans, arm).0| == |Vectors(records, humans, arm).1| == |p.inputs|
  {
    ArmsLineUp(p, records, arm);
  }

  /** stats._comparisons: the comparisons of an accepted ledger. */
  function CompareAll(p: Protocol, records: seq<Record>, humans: map<BlindId, Human>, draws: seq<seq<nat>>, confidence: real)
    : seq<Comparison>
    requires LedgerOk(p, records) && DrawsOk(draws, |p.inputs|) && 0.0 < confidence < 1.0
  {
    seq(|COMPARATORS|, i requires 0 <= i < |COMPARATORS| =>
      VectorsLineUp(p, records, humans, E_FULL);
      VectorsLineUp(p, records, humans, COMPARATORS[i]);
      Compare(Vectors(records, humans, E_FULL), Vectors(records, humans, COMPARATORS[i]), draws, confidence))
  }

  /** The resampled differences between the full arm and a comparator. */
  function Effects(p: Protocol, records: seq<Record>, humans: map<BlindId, Human>, draws: seq<seq<nat>>, arm: Arm): (seq<real>, seq<real>)
    requires LedgerOk(p, records) && DrawsOk(draws, |p.inputs|)
  {
    VectorsLineUp(p, records, humans, E_FULL);
    VectorsLineUp(p, records, humans, arm);
    var full, other := Vectors(records, humans, E_FULL), Vectors(records, humans, arm);
    (Resampled(Minus(full.0, other.0), draws), Resampled(Minus(full.1, other.1), draws))
  }

  /** One comparator is beaten: at most (1 - confidence) / 6 of the resampled effects do not exceed the minimum, and at most
      as many of the resampled degradations reach the margin. */
  ghost predicate Beaten(effects: (seq<real>, seq<real>), confidence: real, minimumEffect: real, margin: real) {
    && AtMostShare(effects.0, (x: real) => x <= minimumEffect, (1.0 - confidence) / 6.0)
    && AtMostShare(effects.1, (x: real) => x >= margin, (1.0 - confidence) / 6.0)
  }

  lemma BeatenIff(full: (seq<real>, seq<real>), baseline: (seq<real>, seq<real>), draws: seq<seq<nat>>, confidence: real,
                  minimumEffect: real, margin: real)
    requires |full.0| == |full.1| == |baseline.0| == |baseline.1| && DrawsOk(draws, |full.0|) && 0.0 < confidence < 1.0
    ensures var c := Compare(full, baseline, draws, confidence);
            var effects := (Resampled(Minus(full.0, baseline.0), draws), Resampled(Minus(full.1, baseline.1), draws));
            c.simultaneousLow > minimumEffect && c.simultaneousHigh < margin <==> Beaten(effects, confidence, minimumEffect, margin)
  {
    LowerAbove(Resampled(Minus(full.0, baseline.0), draws), (1.0 - confidence) / 6.0, minimumEffect);
    UpperBelow(Resampled(Minus(full.1, baseline.1), draws), 1.0 - (1.0 - confidence) / 6.0, (1.0 - confidence) / 6.0, margin);
  }

  /** The criteria are met exactly when all three comparators are beaten. */
  lemma CriteriaMetIff(p: Protocol, records: seq<Record>, humans: map<BlindId, Human>, draws: seq<seq<nat>>,
                       confidence: real, minimumEffect: real, margin: real)
    requires LedgerOk(p, records) && DrawsOk(draws, |p.inputs|) && 0.0 < confidence < 1.0
    ensures CriteriaMet(CompareAll(p, records, humans, draws, confidence), minimumEffect, margin) <==>
            forall i :: 0 <= i < 3 ==>
              Beaten(Effects(p, records, humans, draws, [B_RANDOM_RETRY, C_BEST_OF_K, D_DIRECTED][i]), confidence, minimumEffect, margin)
  {
    forall i | 0 <= i < 3
      ensures var c := CompareAll(p, records, humans, draws, confidence)[i];
              c.simultaneousLow > minimumEffect && c.simultaneousHigh < margin <==>
              Beaten(Effects(p, records, humans, draws, [B_RANDOM_RETRY, C_BEST_OF_K, D_DIRECTED][i]), confidence, minimumEffect, margin)
    {
      CriterionOfArm(p, records, humans, draws, confidence, minimumEffect, margin, i);
    }
    AllThree(CompareAll(p, records, humans, draws, confidence), minimumEffect, margin);
  }

  lemma CriterionOfArm(p: Protocol, records: seq<Record>, humans: map<BlindId, Human>, draws: seq<seq<nat>>,
                       confidence: real, minimumEffect: real, margin: real, i: nat)
    requires LedgerOk(p, records) && DrawsOk(draws, |p.inputs|) && 0.0 < confidence < 1.0 && i < 3
    ensures var c := CompareAll(p, records, humans, draws, confidence)[i];
            c.simultaneousLow > minimumEffect && c.simultaneousHigh < margin <==>
            Beaten(Effects(p, records, humans, draws, [B_RANDOM_RETRY, C_BEST_OF_K, D_DIRECTED][i]), confidence, minimumEffect, margin)
  {
    var arm := COMPARATORS[i];
    VectorsLineUp(p, records, humans, E_FULL);
    VectorsLineUp(p, records, humans, arm);
    BeatenIff(Vectors(records, humans, E_FULL), Vectors(records, humans, arm), draws, confidence, minimumEffect, margin);
  }

  lemma AllThree(all: seq<Comparison>, minimumEffect: real, margin: real)
    requires |all| == 3
    ensures CriteriaMet(all, minimumEffect, margin) <==>
            forall i :: 0 <= i < 3 ==> all[i].simultaneousLow > minimumEffect && all[i].simultaneousHigh < margin
  {
    assert all[0] in all && all[1] in all && all[2] in all;
  }

  /** If the preregistered criteria are met, every comparator's whole interval lies beyond the minimum effect, and every
      degradation interval below the margin. */
  lemma CriteriaCoverTheIntervals(p: Protocol, records: seq<Record>, humans: map<BlindId, Human>, draws: seq<seq<nat>>,
                                  confidence: real, minimumEffect: real, margin: real)
    requires LedgerOk(p, records) && DrawsOk(draws, |p.inputs|) && 0.0 < confidence < 1.0
    requires CriteriaMet(CompareAll(p, records, humans, draws, confidence), minimumEffect, margin)
    ensures forall c :: c in CompareAll(p, records, humans, draws, confidence) ==>
              minimumEffect < c.low <= c.high && c.degradationLow <= c.degradationHigh < margin
  {
    var all := CompareAll(p, records, humans, draws, confidence);
    forall i | 0 <= i < |all|
      ensures minimumEffect < all[i].low <= all[i].high && all[i].degradationLow <= all[i].degradationHigh < margin
    {
      VectorsLineUp(p, records, humans, E_FULL);
      VectorsLineUp(p, records, humans, COMPARATORS[i]);
      BoundsNest(Vectors(records, humans, E_FULL), Vectors(records, humans, COMPARATORS[i]), draws, confidence);
      assert all[i] in all;
    }
  }
}
