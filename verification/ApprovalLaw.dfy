/** What an approved metric stands for, in the fields of the study, its samples, observations and reports. */
module ApprovalLaw {
  import opened Counting
  import opened MetricEvidence
  import opened Outcomes
  import opened SamplePartition
  import opened ThresholdSearch

  // Observations

  /** The observations of this label. */
  function Labels(observations: seq<Observation>, label': bool): set<int> {
    set i | 0 <= i < |observations| && observations[i].positive == label'
  }

  /** Those of them that the threshold accepts. */
  function Accepts(observations: seq<Observation>, label': bool, op: Operator, threshold: real): set<int> {
    set i | i in Labels(observations, label')
            && match op case GTE => observations[i].score >= threshold case LTE => observations[i].score <= threshold
  }

  /** With some of both labels: as many positives are accepted as required, and no more negatives than allowed. */
  ghost predicate Reaches(observations: seq<Observation>, threshold: real, op: Operator, t: Targets) {
    && AtLeast(|Accepts(observations, true, op, threshold)|, t.minTpr, |Labels(observations, true)|)
    && AtMost(|Accepts(observations, false, op, threshold)|, t.maxFpr, |Labels(observations, false)|)
  }

  predicate AtLeast(part: int, share: real, total: int) {
    part as real >= share * total as real
  }

  predicate AtMost(part: int, share: real, total: int) {
    part as real <= share * total as real
  }

  lemma CardinalityOfPairs(observations: seq<Observation>, p: Pair -> bool, places: set<int>)
    requires forall i :: i in places <==>
                           0 <= i < |observations| && p(Pair(observations[i].id, observations[i].score, observations[i].positive))
    ensures Count(Pairs(observations), p) == |places|
  {
    CountIsCardinality(Pairs(observations), p, places);
  }

  lemma PairsCount(observations: seq<Observation>, op: Operator, threshold: real)
    ensures Labelled(Pairs(observations), true) == |Labels(observations, true)|
    ensures Labelled(Pairs(observations), false) == |Labels(observations, false)|
    ensures Hits(Pairs(observations), true, op, threshold) == |Accepts(observations, true, op, threshold)|
    ensures Hits(Pairs(observations), false, op, threshold) == |Accepts(observations, false, op, threshold)|
  {
    CardinalityOfPairs(observations, (p: Pair) => p.positive == true, Labels(observations, true));
    CardinalityOfPairs(observations, (p: Pair) => p.positive == false, Labels(observations, false));
    CardinalityOfPairs(observations, (p: Pair) => p.positive == true && Accepted(op, p.score, threshold),
                       Accepts(observations, true, op, threshold));
    CardinalityOfPairs(observations, (p: Pair) => p.positive == false && Accepted(op, p.score, threshold),
                       Accepts(observations, false, op, threshold));
  }

  lemma ReachesIff(observations: seq<Observation>, threshold: real, op: Operator, t: Targets)
    requires t.Ok() && Labels(observations, true) != {}
    ensures Meets(Pairs(observations), threshold, op, t) <==> Reaches(observations, threshold, op, t)
  {
    var pairs := Pairs(observations);
    PairsCount(observations, op, threshold);
    MeetsInCounts(pairs, threshold, op, t, |Labels(observations, true)|, |Labels(observations, false)|,
                     |Accepts(observations, true, op, threshold)|, |Accepts(observations, false, op, threshold)|);
  }

  lemma MeetsInCounts(pairs: seq<Pair>, threshold: real, op: Operator, t: Targets, yes: nat, no: nat, tp: nat, fp: nat)
    requires t.Ok() && yes == Labelled(pairs, true) && no == Labelled(pairs, false) && yes > 0
    requires tp == Hits(pairs, true, op, threshold) && fp == Hits(pairs, false, op, threshold)
    ensures Meets(pairs, threshold, op, t) <==> AtLeast(tp, t.minTpr, yes) && AtMost(fp, t.maxFpr, no)
  {
    TprInCounts(pairs, threshold, op, t.minTpr, yes, tp);
    FprInCounts(pairs, threshold, op, t.maxFpr, no, fp);
  }

  lemma TprInCounts(pairs: seq<Pair>, threshold: real, op: Operator, limit: real, yes: nat, tp: nat)
    requires 0.0 <= limit && yes == Labelled(pairs, true) && yes > 0 && tp == Hits(pairs, true, op, threshold)
    ensures Tpr(pairs, threshold, op) >= limit <==> AtLeast(tp, limit, yes)
  {
    TprIff(pairs, threshold, op, limit);
  }

  lemma FprInCounts(pairs: seq<Pair>, threshold: real, op: Operator, limit: real, no: nat, fp: nat)
    requires 0.0 <= limit && no == Labelled(pairs, false) && fp == Hits(pairs, false, op, threshold)
    ensures Fpr(pairs, threshold, op) <= limit <==> AtMost(fp, limit, no)
  {
    FprIff(pairs, threshold, op, limit);
  }

  /** The statistics that describe these observations at this threshold. */
  ghost predicate Describes(s: Statistics, observations: seq<Observation>, threshold: real, op: Operator) {
    var yes, no := |Labels(observations, true)|, |Labels(observations, false)|;
    && s.samples == |observations| && s.positives == yes && s.negatives == no
    && s.confusion.tp == |Accepts(observations, true, op, threshold)| && s.confusion.fp == |Accepts(observations, false, op, threshold)|
    && s.confusion.tp + s.confusion.fn == yes && s.confusion.fp + s.confusion.tn == no
    && IsShare(s.tpr, s.confusion.tp, yes) && IsShare(s.fpr, s.confusion.fp, no)
  }

  lemma StatisticsInCounts(pairs: seq<Pair>, threshold: real, op: Operator, yes: nat, no: nat, tp: nat, fp: nat)
    requires yes == Labelled(pairs, true) > 0 && no == Labelled(pairs, false) > 0
    requires tp == Hits(pairs, true, op, threshold) && fp == Hits(pairs, false, op, threshold)
    ensures tp <= yes && fp <= no
    ensures StatisticsAt(pairs, threshold, op)
         == Statistics(|pairs|, yes, no, tp as real / yes as real, fp as real / no as real, Confusion(tp, fp, no - fp, yes - tp))
  {
    CountsByLabel(pairs, threshold, op);
    ConfusionAddsUp(pairs, threshold, op);
  }

  lemma DescribesIff(s: Statistics, observations: seq<Observation>, threshold: real, op: Operator)
    requires Labels(observations, true) != {} && Labels(observations, false) != {}
    ensures Describes(s, observations, threshold, op) <==> s == StatisticsAt(Pairs(observations), threshold, op)
  {
    PairsCount(observations, op, threshold);
    var yes, no := |Labels(observations, true)|, |Labels(observations, false)|;
    var tp, fp := |Accepts(observations, true, op, threshold)|, |Accepts(observations, false, op, threshold)|;
    assert yes > 0 && no > 0;
    StatisticsInCounts(Pairs(observations), threshold, op, yes, no, tp, fp);
    StatisticsIff(s, |observations|, yes, no, tp, fp);
  }

  lemma StatisticsIff(s: Statistics, n: nat, yes: nat, no: nat, tp: nat, fp: nat)
    requires 0 < yes && 0 < no && tp <= yes && fp <= no
    ensures s == Statistics(n, yes, no, tp as real / yes as real, fp as real / no as real, Confusion(tp, fp, no - fp, yes - tp)) <==>
              && s.samples == n && s.positives == yes && s.negatives == no
              && s.confusion.tp == tp && s.confusion.fp == fp
              && s.confusion.tp + s.confusion.fn == yes && s.confusion.fp + s.confusion.tn == no
              && IsShare(s.tpr, s.confusion.tp, yes) && IsShare(s.fpr, s.confusion.fp, no)
  {
    QuotientIs(s.tpr, s.confusion.tp, yes);
    QuotientIs(s.fpr, s.confusion.fp, no);
  }

  lemma QuotientIs(x: real, part: nat, total: nat)
    requires total > 0
    ensures IsShare(x, part, total) <==> x == part as real / total as real
  {
  }

  // Observations of the samples of a split

  /** All the places in the list that hold samples of this split, in order. */
  ghost predicate Selects(samples: seq<Sample>, split: Split, places: seq<nat>) {
    && (forall i, j :: 0 <= i < j < |places| ==> places[i] < places[j])
    && (forall i :: 0 <= i < |places| ==> places[i] < |samples| && samples[places[i]].split == split)
    && (forall k :: 0 <= k < |samples| && samples[k].split == split ==> k in places)
  }

  /** A single sample is bound by its candidate, a batch by its whole cohort. */
  predicate Binds(binding: Binding, s: Sample) {
    match s.body
    case Single(candidate, _, _) => binding == Candidate(candidate)
    case Batch(cohort, _, _) => binding == cohort
  }

  predicate IsOf(o: Observation, s: Sample) {
    o.id == s.id && o.annotation == s.annotation && Binds(o.binding, s)
  }

  /** One observation for each sample of the split, in the order of the samples. */
  ghost predicate Covers(observations: seq<Observation>, samples: seq<Sample>, split: Split) {
    exists places :: Selects(samples, split, places) && OnePerPlace(observations, samples, places)
  }

  ghost predicate OnePerPlace(observations: seq<Observation>, samples: seq<Sample>, places: seq<nat>) {
    |observations| == |places| && forall i :: 0 <= i < |places| ==> places[i] < |samples| && IsOf(observations[i], samples[places[i]])
  }

  lemma LastPlace(samples: seq<Sample>, split: Split, places: seq<nat>)
    requires Selects(samples, split, places) && samples != [] && samples[|samples| - 1].split == split
    ensures places != [] && places[|places| - 1] == |samples| - 1
  {
    var last :| 0 <= last < |places| && places[last] == |samples| - 1;
    assert last == |places| - 1;
  }

  lemma SelectsFewer(samples: seq<Sample>, split: Split, places: seq<nat>)
    requires Selects(samples, split, places) && places != [] && places[|places| - 1] == |samples| - 1
    ensures Selects(samples[..|samples| - 1], split, places[..|places| - 1])
  {
    var n, last := |samples| - 1, |places| - 1;
    forall k | 0 <= k < n && samples[k].split == split
      ensures k in places[..last]
    {
      var i :| 0 <= i < |places| && places[i] == k;
      assert places[..last][i] == k;
    }
  }

  lemma NoPlaces(samples: seq<Sample>, split: Split, places: seq<nat>)
    requires Selects(samples, split, places) && places != []
    ensures samples != []
  {
    assert places[0] < |samples|;
  }

  /** The samples at these places are the part of the split. */
  lemma {:induction false} PlacesOfPart(samples: seq<Sample>, split: Split, places: seq<nat>)
    requires Selects(samples, split, places)
    ensures |places| == |Part(samples, split)| && forall i :: 0 <= i < |places| ==> Part(samples, split)[i] == samples[places[i]]
  {
    if samples != [] {
      var n := |samples| - 1;
      if samples[n].split == split {
        LastPlace(samples, split, places);
        SelectsFewer(samples, split, places);
        PlacesOfPart(samples[..n], split, places[..|places| - 1]);
      } else {
        PlacesOfPart(samples[..n], split, places);
      }
    } else if places != [] {
      NoPlaces(samples, split, places);
    }
  }

  lemma {:induction false} SomePlaces(samples: seq<Sample>, split: Split) returns (places: seq<nat>)
    ensures Selects(samples, split, places)
  {
    places := [];
    if samples != [] {
      var n := |samples| - 1;
      places := SomePlaces(samples[..n], split);
      if samples[n].split == split {
        places := places + [n];
      }
    }
  }

  lemma IsOfIff(o: Observation, s: Sample)
    ensures IsOf(o, s) <==> o.id == s.id && o.binding == BindingOf(s) && o.annotation == s.annotation
  {
  }

  lemma ObservesIff(observations: seq<Observation>, samples: seq<Sample>, split: Split, places: seq<nat>)
    requires Selects(samples, split, places)
    ensures Observes(observations, Part(samples, split)) <==> OnePerPlace(observations, samples, places)
  {
    PlacesOfPart(samples, split, places);
    var part := Part(samples, split);
    if |observations| == |part| {
      forall i | 0 <= i < |part|
        ensures IsOf(observations[i], part[i]) <==>
                  && observations[i].id == part[i].id && observations[i].binding == BindingOf(part[i])
                  && observations[i].annotation == part[i].annotation
      {
        IsOfIff(observations[i], part[i]);
      }
    }
  }

  lemma CoversIff(observations: seq<Observation>, samples: seq<Sample>, split: Split)
    ensures Observes(observations, Part(samples, split)) <==> Covers(observations, samples, split)
  {
    if Covers(observations, samples, split) {
      var places :| Selects(samples, split, places) && OnePerPlace(observations, samples, places);
      ObservesIff(observations, samples, split, places);
    } else {
      var places := SomePlaces(samples, split);
      ObservesIff(observations, samples, split, places);
    }
  }

  /** The commitment names the samples of the test split in order, with some of both labels. */
  ghost predicate Commits(c: Commitment, samples: seq<Sample>) {
    && c.positives >= 1 && c.negatives >= 1 && |c.ids| == |c.bindings| == c.positives + c.negatives
    && exists places :: Selects(samples, TEST, places) && Names(c, samples, places)
  }

  ghost predicate Names(c: Commitment, samples: seq<Sample>, places: seq<nat>) {
    && |c.ids| == |c.bindings| == |places|
    && forall i :: 0 <= i < |places| ==>
                     places[i] < |samples| && c.ids[i] == samples[places[i]].id && Binds(c.bindings[i], samples[places[i]])
  }

  lemma NamesIff(c: Commitment, samples: seq<Sample>, places: seq<nat>)
    requires Selects(samples, TEST, places)
    ensures c.ids == SampleIds(Part(samples, TEST)) && c.bindings == SampleBindings(Part(samples, TEST)) <==> Names(c, samples, places)
  {
    PlacesOfPart(samples, TEST, places);
    var part := Part(samples, TEST);
    forall i | 0 <= i < |part|
      ensures SampleIds(part)[i] == samples[places[i]].id
      ensures forall binding :: binding == SampleBindings(part)[i] <==> Binds(binding, samples[places[i]])
    {
    }
    if Names(c, samples, places) {
      assert c.ids == SampleIds(part) && c.bindings == SampleBindings(part);
    }
  }

  lemma CommitsIff(c: Commitment, samples: seq<Sample>)
    ensures CommitmentOk(c, Part(samples, TEST)) <==> Commits(c, samples)
  {
    if Commits(c, samples) {
      var places :| Selects(samples, TEST, places) && Names(c, samples, places);
      NamesIff(c, samples, places);
      PlacesOfPart(samples, TEST, places);
    } else {
      var places := SomePlaces(samples, TEST);
      NamesIff(c, samples, places);
    }
  }

  // Reports

  /** What a report can be made of. */
  ghost predicate Acceptable(s: Study, samples: seq<Sample>, hash: Sha -> nat, calibration: seq<Observation>,
                             validation: seq<Observation>, c: Commitment) {
    && 0.0 <= s.targets.minTpr <= 1.0 && 0.0 <= s.targets.maxFpr <= 1.0 && s.minimumPositives >= 1 && s.minimumNegatives >= 1
    && |samples| > 0 && LeakFree(samples, s.batch, hash)
    && Covers(calibration, samples, CALIBRATION) && Covers(validation, samples, VALIDATION) && Commits(c, samples)
  }

  /** Real approved labels, and enough of both on all three splits. */
  ghost predicate EnoughData(s: Study, calibration: seq<Observation>, validation: seq<Observation>, c: Commitment,
                             approval: LabelApproval) {
    && !approval.synthetic && approval.approved
    && |Labels(calibration, true)| >= s.minimumPositives && |Labels(calibration, false)| >= s.minimumNegatives
    && |Labels(validation, true)| >= s.minimumPositives && |Labels(validation, false)| >= s.minimumNegatives
    && c.positives >= s.minimumPositives && c.negatives >= s.minimumNegatives
  }

  /** Of the observed scores that reach the targets this is the strictest. */
  ghost predicate Strictest(observations: seq<Observation>, x: real, op: Operator, t: Targets) {
    && (exists i :: 0 <= i < |observations| && observations[i].score == x)
    && Reaches(observations, x, op, t)
    && forall i :: 0 <= i < |observations| && Reaches(observations, observations[i].score, op, t) ==>
                     match op case GTE => observations[i].score <= x case LTE => observations[i].score >= x
  }

  ghost predicate NothingReaches(observations: seq<Observation>, op: Operator, t: Targets) {
    forall i :: 0 <= i < |observations| ==> !Reaches(observations, observations[i].score, op, t)
  }

  lemma SelectedIff(observations: seq<Observation>, op: Operator, t: Targets)
    requires t.Ok() && Labels(observations, true) != {}
    ensures var chosen := Selected(Pairs(observations), Scores(Pairs(observations)), op, t);
            match chosen
            case None => NothingReaches(observations, op, t)
            case Some(x) => Strictest(observations, x, op, t)
  {
    var pairs := Pairs(observations);
    var chosen := Selected(pairs, Scores(pairs), op, t);
    assert IsSelected(pairs, Scores(pairs), op, t, chosen);
    forall i | 0 <= i < |observations|
      ensures observations[i].score in Scores(pairs)
      ensures Meets(pairs, observations[i].score, op, t) <==> Reaches(observations, observations[i].score, op, t)
    {
      assert pairs[i] in pairs;
      InScores(pairs, observations[i].score);
      ReachesIff(observations, observations[i].score, op, t);
    }
    if chosen.Some? {
      InScores(pairs, chosen.value);
      var p :| p in pairs && p.score == chosen.value;
      var i :| 0 <= i < |pairs| && pairs[i] == p;
      assert observations[i].score == chosen.value;
    }
  }

  lemma StrictestIsUnique(observations: seq<Observation>, x: real, y: real, op: Operator, t: Targets)
    requires Strictest(observations, x, op, t) && Strictest(observations, y, op, t)
    ensures x == y
  {
  }

  /** What a report says. It is blocked exactly without enough data, and passed exactly when the strictest observed score that
      reaches the targets on the calibration data reaches them on the validation data too. */
  ghost predicate Shows(p: Prepared, s: Study, calibration: seq<Observation>, validation: seq<Observation>, c: Commitment,
                        approval: LabelApproval) {
    && p.op == s.op && p.targets == s.targets
    && p.testIds == c.ids && p.testBindings == c.bindings && p.testPositives == c.positives && p.testNegatives == c.negatives
    && p.seal == c.seal
    && (p.status == BLOCKED <==> !EnoughData(s, calibration, validation, c, approval))
    && match p.threshold
       case None =>
         && p.calibration == None && p.validation == None
         && (p.status != BLOCKED ==> p.status == REFUSED && NothingReaches(calibration, s.op, s.targets))
       case Some(x) =>
         && p.status != BLOCKED && Strictest(calibration, x, s.op, s.targets)
         && (p.status == PASSED <==> Reaches(validation, x, s.op, s.targets))
         && p.calibration.Some? && Describes(p.calibration.value, calibration, x, s.op)
         && p.validation.Some? && Describes(p.validation.value, validation, x, s.op)
  }

  lemma AcceptableIff(s: Study, samples: seq<Sample>, hash: Sha -> nat, calibration: seq<Observation>,
                      validation: seq<Observation>, c: Commitment, approval: LabelApproval)
    ensures Prepare(s, samples, hash, calibration, validation, c, approval).Some?
       <==> Acceptable(s, samples, hash, calibration, validation, c)
  {
    AcceptedIffLeakFree(samples, s.batch, hash);
    CoversIff(calibration, samples, CALIBRATION);
    CoversIff(validation, samples, VALIDATION);
    CommitsIff(c, samples);
  }

  lemma EnoughDataIff(s: Study, calibration: seq<Observation>, validation: seq<Observation>, c: Commitment, approval: LabelApproval)
    ensures EnoughData(s, calibration, validation, c, approval) <==>
              && !(approval.synthetic || !approval.approved)
              && EnoughLabels(s, Positives(Pairs(calibration)), Negatives(Pairs(calibration)))
              && EnoughLabels(s, Positives(Pairs(validation)), Negatives(Pairs(validation)))
              && EnoughLabels(s, c.positives, c.negatives)
  {
    PairsCount(calibration, s.op, 0.0);
    PairsCount(validation, s.op, 0.0);
    CountsByLabel(Pairs(calibration), 0.0, s.op);
    CountsByLabel(Pairs(validation), 0.0, s.op);
  }

  /** A report is made exactly of what is acceptable, and this is what it says. */
  lemma PreparedReports(s: Study, samples: seq<Sample>, hash: Sha -> nat, calibration: seq<Observation>,
                        validation: seq<Observation>, c: Commitment, approval: LabelApproval)
    ensures var p := Prepare(s, samples, hash, calibration, validation, c, approval);
            && (p.Some? <==> Acceptable(s, samples, hash, calibration, validation, c))
            && (p.Some? ==> Shows(p.value, s, calibration, validation, c, approval))
  {
    AcceptableIff(s, samples, hash, calibration, validation, c, approval);
    EnoughDataIff(s, calibration, validation, c, approval);
    if Acceptable(s, samples, hash, calibration, validation, c) && EnoughData(s, calibration, validation, c, approval) {
      FrozenReports(s, calibration, validation, c, approval);
    }
  }

  lemma FrozenReports(s: Study, calibration: seq<Observation>, validation: seq<Observation>, c: Commitment, approval: LabelApproval)
    requires StudyOk(s) && EnoughData(s, calibration, validation, c, approval)
    ensures Shows(FreezeReport(s, c, Pairs(calibration), Pairs(validation)), s, calibration, validation, c, approval)
  {
    EnoughDataIff(s, calibration, validation, c, approval);
    var chosen := Selected(Pairs(calibration), Scores(Pairs(calibration)), s.op, s.targets);
    SelectedIff(calibration, s.op, s.targets);
    if chosen.Some? {
      ReachesIff(validation, chosen.value, s.op, s.targets);
      DescribesIff(StatisticsAt(Pairs(calibration), chosen.value, s.op), calibration, chosen.value, s.op);
      DescribesIff(StatisticsAt(Pairs(validation), chosen.value, s.op), validation, chosen.value, s.op);
    }
  }

  // Reveal and approval

  /** What may be revealed: a passed report, for just the test observations that were sealed and whose reveal is approved. */
  ghost predicate Revealable(p: Prepared, test: seq<Observation>, receipt: RevealReceipt) {
    && p.status == PASSED && p.threshold.Some? && p.calibration.Some? && p.validation.Some?
    && |test| == |p.testIds| == |p.testBindings|
    && (forall i :: 0 <= i < |test| ==> test[i].id == p.testIds[i] && test[i].binding == p.testBindings[i])
    && |Labels(test, true)| == p.testPositives && |Labels(test, false)| == p.testNegatives
    && p.seal.observations == test
    && receipt.approved && receipt.report == p && receipt.seal.observations == test
  }

  /** What a reveal says: it repeats the report, and passes when the threshold reaches the targets on the test data too. */
  ghost predicate Tells(r: Revealed, p: Prepared, test: seq<Observation>)
    requires p.threshold.Some? && p.calibration.Some? && p.validation.Some?
  {
    && r.report == p && r.op == p.op && r.threshold == p.threshold.value
    && r.calibration == p.calibration.value && r.validation == p.validation.value && r.seal.observations == test
    && Describes(r.test, test, p.threshold.value, p.op)
    && (r.passed <==> Reaches(test, p.threshold.value, p.op, p.targets))
  }

  lemma RevealableIff(p: Prepared, test: seq<Observation>, receipt: RevealReceipt)
    ensures Reveal(p, test, receipt).Some? <==> Revealable(p, test, receipt)
  {
    PairsCount(test, p.op, 0.0);
    CountsByLabel(Pairs(test), 0.0, p.op);
    if |test| == |p.testIds| == |p.testBindings| {
      if forall i :: 0 <= i < |test| ==> test[i].id == p.testIds[i] && test[i].binding == p.testBindings[i] {
        assert seq(|test|, i requires 0 <= i < |test| => test[i].id) == p.testIds;
        assert seq(|test|, i requires 0 <= i < |test| => test[i].binding) == p.testBindings;
      }
      if TestMatches(p, test) {
        forall i | 0 <= i < |test|
          ensures test[i].id == p.testIds[i] && test[i].binding == p.testBindings[i]
        {
          assert seq(|test|, i requires 0 <= i < |test| => test[i].id)[i] == p.testIds[i];
          assert seq(|test|, i requires 0 <= i < |test| => test[i].binding)[i] == p.testBindings[i];
        }
      }
    }
  }

  /** For a report on some of both labels: exactly this is revealed. */
  lemma RevealedTests(p: Prepared, test: seq<Observation>, receipt: RevealReceipt, r: Revealed)
    requires p.targets.Ok() && p.testPositives >= 1 && p.testNegatives >= 1
    ensures Reveal(p, test, receipt) == Some(r) <==> Revealable(p, test, receipt) && Tells(r, p, test)
  {
    RevealableIff(p, test, receipt);
    if Revealable(p, test, receipt) {
      DescribesIff(r.test, test, p.threshold.value, p.op);
      ReachesIff(test, p.threshold.value, p.op, p.targets);
    }
  }

  /** An approved chain: data that is acceptable and enough, the report and the reveal that belong to it, and a threshold that
      reached the targets on all three splits. */
  ghost predicate Earned(c: Chain, hash: Sha -> nat, approved: bool, threshold: real) {
    && Acceptable(c.study, c.samples, hash, c.calibration, c.validation, c.commitment)
    && Shows(c.prepared, c.study, c.calibration, c.validation, c.commitment, c.approval) && c.prepared.status == PASSED
    && Revealable(c.prepared, c.test, c.receipt) && Tells(c.revealed, c.prepared, c.test) && c.revealed.passed
    && approved && c.prepared.threshold == Some(threshold)
  }

  lemma ShownReportsAreUnique(p: Prepared, q: Prepared, s: Study, calibration: seq<Observation>, validation: seq<Observation>,
                              c: Commitment, approval: LabelApproval)
    requires Shows(p, s, calibration, validation, c, approval) && Shows(q, s, calibration, validation, c, approval)
    requires s.minimumPositives >= 1 && s.minimumNegatives >= 1 && p.status == PASSED
    ensures p == q
  {
    assert Labels(calibration, true) != {} && Labels(calibration, false) != {} && Labels(validation, true) != {}
           && Labels(validation, false) != {};
    assert q.threshold == p.threshold by {
      assert Strictest(calibration, p.threshold.value, s.op, s.targets);
      SomethingReaches(calibration, p.threshold.value, s.op, s.targets);
      StrictestIsUnique(calibration, p.threshold.value, q.threshold.value, s.op, s.targets);
    }
    var x := p.threshold.value;
    DescribesIff(p.calibration.value, calibration, x, s.op);
    DescribesIff(q.calibration.value, calibration, x, s.op);
    DescribesIff(p.validation.value, validation, x, s.op);
    DescribesIff(q.validation.value, validation, x, s.op);
  }

  lemma SomethingReaches(observations: seq<Observation>, x: real, op: Operator, t: Targets)
    requires Strictest(observations, x, op, t)
    ensures !NothingReaches(observations, op, t)
  {
  }

  /** Approval is for exactly these chains. */
  lemma ApprovedChains(c: Chain, hash: Sha -> nat, approved: bool, threshold: real)
    ensures Approve(c, hash, approved, threshold).Some? <==> Earned(c, hash, approved, threshold)
  {
    ApprovedExactlyWhenRebuilt(c, hash, approved, threshold);
    PreparedReports(c.study, c.samples, hash, c.calibration, c.validation, c.commitment, c.approval);
    var p := Prepare(c.study, c.samples, hash, c.calibration, c.validation, c.commitment, c.approval);
    if p.Some? && Shows(c.prepared, c.study, c.calibration, c.validation, c.commitment, c.approval) {
      if c.prepared.status == PASSED {
        ShownReportsAreUnique(c.prepared, p.value, c.study, c.calibration, c.validation, c.commitment, c.approval);
        RevealedTests(c.prepared, c.test, c.receipt, c.revealed);
      }
    }
  }

  // The recheck of the approval stage

  /** These statistics are those of some labelled scores, with some of both labels, at some threshold that meets the targets. */
  ghost predicate Attained(s: Statistics, t: Targets) {
    exists pairs, x :: Attains(s, t, pairs, x)
  }

  ghost predicate Attains(s: Statistics, t: Targets, pairs: seq<Pair>, x: real) {
    && Labelled(pairs, true) > 0 && Labelled(pairs, false) > 0 && s == StatisticsAt(pairs, x, GTE) && Meets(pairs, x, GTE, t)
  }

  /** That many times the same score. */
  function Times(n: nat, score: real, label': bool): (pairs: seq<Pair>)
    ensures |pairs| == n
  {
    if n == 0 then [] else Times(n - 1, score, label') + [Pair("", score, label')]
  }

  lemma {:induction false} CountTimes(n: nat, score: real, label': bool, p: Pair -> bool)
    ensures Count(Times(n, score, label'), p) == if p(Pair("", score, label')) then n else 0
  {
    if n > 0 {
      var rest, x := Times(n - 1, score, label'), Pair("", score, label');
      CountTimes(n - 1, score, label', p);
      CountOneMore(rest, x, p);
    }
  }

  lemma {:induction false} CountBoth(s: seq<Pair>, t: seq<Pair>, p: Pair -> bool)
    ensures Count(s + t, p) == Count(s, p) + Count(t, p)
  {
    if t != [] {
      var n := |t| - 1;
      CountBoth(s, t[..n], p);
      assert (s + t)[..|s| + n] == s + t[..n];
    } else {
      assert s + t == s;
    }
  }

  lemma CountOneMore(s: seq<Pair>, x: Pair, p: Pair -> bool)
    ensures Count(s + [x], p) == Count(s, p) + if p(x) then 1 else 0
  {
    assert (s + [x])[..|s|] == s;
  }

  /** Accepted and refused scores of both labels, as many as these. */
  function Realised(c: Confusion): seq<Pair> {
    (Times(c.tp, 1.0, true) + Times(c.fp, 1.0, false)) + (Times(c.tn, 0.0, false) + Times(c.fn, 0.0, true))
  }

  lemma CountRealised(c: Confusion, p: Pair -> bool)
    ensures Count(Realised(c), p)
         == (if p(Pair("", 1.0, true)) then c.tp else 0) + (if p(Pair("", 1.0, false)) then c.fp else 0)
            + (if p(Pair("", 0.0, false)) then c.tn else 0) + (if p(Pair("", 0.0, true)) then c.fn else 0)
  {
    CountBoth(Times(c.tp, 1.0, true), Times(c.fp, 1.0, false), p);
    CountBoth(Times(c.tn, 0.0, false), Times(c.fn, 0.0, true), p);
    CountBoth(Times(c.tp, 1.0, true) + Times(c.fp, 1.0, false), Times(c.tn, 0.0, false) + Times(c.fn, 0.0, true), p);
    CountTimes(c.tp, 1.0, true, p);
    CountTimes(c.fp, 1.0, false, p);
    CountTimes(c.tn, 0.0, false, p);
    CountTimes(c.fn, 0.0, true, p);
  }

  lemma StatisticsOfRealised(c: Confusion)
    requires c.tp + c.fn > 0 && c.fp + c.tn > 0
    ensures Labelled(Realised(c), true) == c.tp + c.fn && Labelled(Realised(c), false) == c.fp + c.tn
    ensures StatisticsAt(Realised(c), 1.0, GTE)
         == Statistics(c.tp + c.fp + c.tn + c.fn, c.tp + c.fn, c.fp + c.tn, c.tp as real / (c.tp + c.fn) as real,
                       c.fp as real / (c.fp + c.tn) as real, c)
  {
    CountRealised(c, (p: Pair) => p.positive == true);
    CountRealised(c, (p: Pair) => p.positive == false);
    CountRealised(c, (p: Pair) => p.positive == true && Accepted(GTE, p.score, 1.0));
    CountRealised(c, (p: Pair) => p.positive == false && Accepted(GTE, p.score, 1.0));
    StatisticsInCounts(Realised(c), 1.0, GTE, c.tp + c.fn, c.fp + c.tn, c.tp, c.fp);
  }

  /** The recheck lets exactly such statistics pass. */
  lemma RecheckedStatistics(s: Statistics, t: Targets)
    ensures StatisticsOk(s) && WithinTargets(s, t) <==> Attained(s, t)
  {
    if StatisticsOk(s) && WithinTargets(s, t) {
      StatisticsOfRealised(s.confusion);
      assert Attains(s, t, Realised(s.confusion), 1.0);
    }
    if Attained(s, t) {
      var pairs, x :| Attains(s, t, pairs, x);
      CountsByLabel(pairs, x, GTE);
      StatisticsPassTheRecheck(pairs, x, GTE);
    }
  }

  /** The reports that pass the recheck: passed, on distinct test samples with some of both labels, and with statistics that
      some data attain. */
  ghost predicate Plausible(p: Prepared) {
    && p.status == PASSED && p.threshold.Some?
    && |p.testIds| == p.testPositives + p.testNegatives && p.testPositives > 0 && p.testNegatives > 0
    && (forall i, j :: 0 <= i < j < |p.testIds| ==> p.testIds[i] != p.testIds[j])
    && 0.0 <= p.targets.minTpr <= 1.0 && 0.0 <= p.targets.maxFpr <= 1.0
    && p.calibration.Some? && Attained(p.calibration.value, p.targets)
    && p.validation.Some? && Attained(p.validation.value, p.targets)
  }

  /** The reveals that pass: of just this report, passed, and with statistics on as many labels that some data attain. */
  ghost predicate PlausibleReveal(r: Revealed, p: Prepared)
    requires Plausible(p)
  {
    && r == Revealed(true, p, p.op, p.threshold.value, p.calibration.value, p.validation.value, r.test, p.seal)
    && r.test.positives == p.testPositives && r.test.negatives == p.testNegatives && Attained(r.test, p.targets)
  }

  lemma RecheckedReports(p: Prepared)
    ensures PreparedOk(p) <==> Plausible(p)
  {
    if p.calibration.Some? && p.validation.Some? {
      RecheckedStatistics(p.calibration.value, p.targets);
      RecheckedStatistics(p.validation.value, p.targets);
    }
  }

  lemma RecheckedReveals(r: Revealed, p: Prepared)
    requires PreparedOk(p) && Plausible(p)
    ensures RevealOk(r, p) <==> PlausibleReveal(r, p)
  {
    RecheckedStatistics(r.test, p.targets);
  }
}
