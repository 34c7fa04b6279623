/** The chain from labelled samples to an approved metric: prepare, reveal, approve. */
module MetricEvidence {
  import opened Outcomes
  import opened SamplePartition
  import opened ThresholdSearch

  datatype Study = Study(batch: bool, op: Operator, targets: Targets, minimumPositives: nat, minimumNegatives: nat)

  datatype Observation = Observation(id: string, binding: Binding, annotation: Sha, score: real, positive: bool)

  /** The injective digest of the test observations. */
  datatype Seal = Seal(observations: seq<Observation>)

  datatype Commitment = Commitment(ids: seq<string>, bindings: seq<Binding>, positives: nat, negatives: nat, seal: Seal)

  datatype LabelApproval = LabelApproval(synthetic: bool, approved: bool)

  /** A reveal authorisation names the report and the sealed observations it is for. */
  datatype RevealReceipt = RevealReceipt(approved: bool, report: Prepared, seal: Seal)

  datatype Statistics = Statistics(samples: nat, positives: nat, negatives: nat, tpr: real, fpr: real, confusion: Confusion)

  datatype ReportStatus = BLOCKED | REFUSED | PASSED

  datatype Prepared = Prepared(
    status: ReportStatus, op: Operator, targets: Targets, threshold: Option<real>,
    calibration: Option<Statistics>, validation: Option<Statistics>,
    testIds: seq<string>, testBindings: seq<Binding>, testPositives: nat, testNegatives: nat, seal: Seal)

  datatype Revealed = Revealed(
    passed: bool, report: Prepared, op: Operator, threshold: real, calibration: Statistics, validation: Statistics,
    test: Statistics, seal: Seal)

  predicate StudyOk(s: Study) {
    s.targets.Ok() && s.minimumPositives >= 1 && s.minimumNegatives >= 1
  }

  function Pairs(observations: seq<Observation>): seq<Pair> {
    seq(|observations|, i requires 0 <= i < |observations| => Pair(observations[i].id, observations[i].score, observations[i].positive))
  }

  function SampleIds(samples: seq<Sample>): seq<string> {
    seq(|samples|, i requires 0 <= i < |samples| => samples[i].id)
  }

  function SampleBindings(samples: seq<Sample>): seq<Binding> {
    seq(|samples|, i requires 0 <= i < |samples| => BindingOf(samples[i]))
  }

  /** formal_evidence._observations: one observation for each sample of a split, in order. */
  predicate Observes(observations: seq<Observation>, samples: seq<Sample>) {
    && |observations| == |samples|
    && forall i | 0 <= i < |samples| ::
         && observations[i].id == samples[i].id && observations[i].binding == BindingOf(samples[i])
         && observations[i].annotation == samples[i].annotation
  }

  /** formal_evidence._commitment */
  predicate CommitmentOk(c: Commitment, test: seq<Sample>) {
    && c.ids == SampleIds(test) && c.bindings == SampleBindings(test)
    && c.positives >= 1 && c.negatives >= 1 && c.positives + c.negatives == |test|
  }

  function Negatives(pairs: seq<Pair>): nat {
    |pairs| - Positives(pairs)
  }

  /** formal_evidence._statistics */
  function StatisticsAt(pairs: seq<Pair>, threshold: real, op: Operator): Statistics {
    ConfusionAddsUp(pairs, threshold, op);
    var c := Confuse(pairs, threshold, op);
    Statistics(|pairs|, Positives(pairs), Negatives(pairs), Tpr(pairs, threshold, op), Fpr(pairs, threshold, op),
               Confusion(c.tp, c.fp, Negatives(pairs) - c.fp, Positives(pairs) - c.tp))
  }

  predicate EnoughLabels(s: Study, positives: nat, negatives: nat) {
    positives >= s.minimumPositives && negatives >= s.minimumNegatives
  }

  function Report(s: Study, c: Commitment, status: ReportStatus, threshold: Option<real>, calibration: Option<Statistics>,
                  validation: Option<Statistics>): Prepared {
    Prepared(status, s.op, s.targets, threshold, calibration, validation, c.ids, c.bindings, c.positives, c.negatives, c.seal)
  }

  /** formal_evidence._freeze */
  function FreezeReport(s: Study, c: Commitment, calibration: seq<Pair>, validation: seq<Pair>): Prepared {
    if !EnoughLabels(s, Positives(calibration), Negatives(calibration))
       || !EnoughLabels(s, Positives(validation), Negatives(validation))
       || !EnoughLabels(s, c.positives, c.negatives) then
      Report(s, c, BLOCKED, None, None, None)
    else
      match Selected(calibration, Scores(calibration), s.op, s.targets)
      case None => Report(s, c, REFUSED, None, None, None)
      case Some(threshold) =>
        var decision := Freeze(threshold, s.op, calibration, validation, s.targets);
        Report(s, c, if decision.status == VALIDATION_PASSED then PASSED else REFUSED, Some(threshold),
               Some(StatisticsAt(calibration, threshold, s.op)), Some(StatisticsAt(validation, threshold, s.op)))
  }

  /** formal_evidence.prepare_metric_evidence; None is an error. */
  function Prepare(s: Study, samples: seq<Sample>, hash: Sha -> nat, calibration: seq<Observation>, validation: seq<Observation>,
                   c: Commitment, approval: LabelApproval): Option<Prepared> {
    if !StudyOk(s) || samples == [] || !PartitionOk(samples, s.batch, hash)
       || !Observes(calibration, Part(samples, CALIBRATION)) || !Observes(validation, Part(samples, VALIDATION))
       || !CommitmentOk(c, Part(samples, TEST)) then None
    else if approval.synthetic || !approval.approved then Some(Report(s, c, BLOCKED, None, None, None))
    else Some(FreezeReport(s, c, Pairs(calibration), Pairs(validation)))
  }

  /** formal_evidence._revealed_observations */
  predicate TestMatches(p: Prepared, test: seq<Observation>) {
    && seq(|test|, i requires 0 <= i < |test| => test[i].id) == p.testIds
    && seq(|test|, i requires 0 <= i < |test| => test[i].binding) == p.testBindings
    && Positives(Pairs(test)) == p.testPositives && Negatives(Pairs(test)) == p.testNegatives
  }

  /** formal_evidence.reveal_metric_test; None is an error. */
  function Reveal(p: Prepared, test: seq<Observation>, receipt: RevealReceipt): Option<Revealed> {
    if p.status != PASSED || p.threshold.None? || p.calibration.None? || p.validation.None? || !TestMatches(p, test)
       || !receipt.approved || receipt.report != p || receipt.seal != Seal(test) || p.seal != Seal(test) then None
    else
      var stats := StatisticsAt(Pairs(test), p.threshold.value, p.op);
      Some(Revealed(stats.tpr >= p.targets.minTpr && stats.fpr <= p.targets.maxFpr, p, p.op, p.threshold.value,
                    p.calibration.value, p.validation.value, stats, Seal(test)))
  }

  // The approval stage checks again

  /** formal_approval._statistics */
  predicate StatisticsOk(s: Statistics) {
    var c := s.confusion;
    && s.samples >= 2 && s.positives >= 1 && s.negatives >= 1
    && s.samples == s.positives + s.negatives
    && s.samples == c.tp + c.fp + c.tn + c.fn
    && s.positives == c.tp + c.fn && s.negatives == c.tn + c.fp
    && s.tpr == c.tp as real / s.positives as real && s.fpr == c.fp as real / s.negatives as real
  }

  predicate WithinTargets(s: Statistics, t: Targets) {
    s.tpr >= t.minTpr && s.fpr <= t.maxFpr
  }

  /** formal_approval._prepared */
  predicate PreparedOk(p: Prepared) {
    && p.status == PASSED && p.threshold.Some? && p.calibration.Some? && p.validation.Some?
    && p.testIds != [] && Distinct(p.testIds) && p.testPositives >= 1 && p.testNegatives >= 1
    && p.testPositives + p.testNegatives == |p.testIds|
    && p.targets.Ok()
    && StatisticsOk(p.calibration.value) && StatisticsOk(p.validation.value)
    && WithinTargets(p.calibration.value, p.targets) && WithinTargets(p.validation.value, p.targets)
  }

  /** formal_approval._reveal */
  predicate RevealOk(r: Revealed, p: Prepared)
    requires PreparedOk(p)
  {
    && r.passed && r.report == p && r.op == p.op && r.threshold == p.threshold.value
    && r.calibration == p.calibration.value && r.validation == p.validation.value && r.seal == p.seal
    && StatisticsOk(r.test) && r.test.positives == p.testPositives && r.test.negatives == p.testNegatives
    && WithinTargets(r.test, p.targets)
  }

  /** Everything that an approval is given. */
  datatype Chain = Chain(
    study: Study, samples: seq<Sample>, calibration: seq<Observation>, validation: seq<Observation>, test: seq<Observation>,
    commitment: Commitment, approval: LabelApproval, receipt: RevealReceipt, prepared: Prepared, revealed: Revealed)

  /** formal_approval._rebuild_metric_evidence */
  predicate Rebuilds(c: Chain, hash: Sha -> nat) {
    var prepared := Prepare(c.study, c.samples, hash, c.calibration, c.validation, c.commitment, c.approval);
    && prepared == Some(c.prepared)
    && Reveal(c.prepared, c.test, c.receipt) == Some(c.revealed)
  }

  /** formal_approval.validate_metric_production_approval: the approved threshold, or None. */
  function Approve(c: Chain, hash: Sha -> nat, approved: bool, threshold: real): Option<real> {
    if Rebuilds(c, hash) && PreparedOk(c.prepared) && RevealOk(c.revealed, c.prepared)
       && approved && c.prepared.threshold == Some(threshold)
    then Some(threshold) else None
  }

  // Agreement of the stages

  lemma StatisticsPassTheRecheck(pairs: seq<Pair>, threshold: real, op: Operator)
    requires Positives(pairs) >= 1 && Negatives(pairs) >= 1
    ensures StatisticsOk(StatisticsAt(pairs, threshold, op))
  {
    ConfusionAddsUp(pairs, threshold, op);
  }

  lemma {:induction false} PartIdsAreDistinct(samples: seq<Sample>, split: Split)
    requires forall i, j :: 0 <= i < j < |samples| ==> samples[i].id != samples[j].id
    ensures Distinct(SampleIds(Part(samples, split)))
  {
    if samples != [] {
      var n := |samples| - 1;
      PartIdsAreDistinct(samples[..n], split);
      var part := Part(samples[..n], split);
      forall i | 0 <= i < |part|
        ensures part[i].id != samples[n].id
      {
        InPart(samples[..n], split, part[i]);
      }
      assert forall i :: 0 <= i < |part| ==> SampleIds(part)[i] == part[i].id;
    }
  }

  /** What a passed report says: the labels suffice, the threshold is the strictest observed calibration score that meets
      the targets, and it meets them on the validation data too. */
  lemma PassedReports(s: Study, samples: seq<Sample>, hash: Sha -> nat, calibration: seq<Observation>,
                      validation: seq<Observation>, c: Commitment, approval: LabelApproval)
    requires var p := Prepare(s, samples, hash, calibration, validation, c, approval); p.Some? && p.value.status == PASSED
    ensures var p := Prepare(s, samples, hash, calibration, validation, c, approval).value;
            && p.threshold.Some? && p.op == s.op && p.targets == s.targets
            && IsSelected(Pairs(calibration), Scores(Pairs(calibration)), s.op, s.targets, p.threshold)
            && Meets(Pairs(validation), p.threshold.value, s.op, s.targets)
  {
    var chosen := Selected(Pairs(calibration), Scores(Pairs(calibration)), s.op, s.targets);
    assert IsSelected(Pairs(calibration), Scores(Pairs(calibration)), s.op, s.targets, chosen);
  }

  /** Every passed report satisfies the checks of the approval stage. */
  lemma PassedReportsPassTheRecheck(s: Study, samples: seq<Sample>, hash: Sha -> nat, calibration: seq<Observation>,
                                    validation: seq<Observation>, c: Commitment, approval: LabelApproval)
    requires var p := Prepare(s, samples, hash, calibration, validation, c, approval); p.Some? && p.value.status == PASSED
    ensures PreparedOk(Prepare(s, samples, hash, calibration, validation, c, approval).value)
  {
    var p := Prepare(s, samples, hash, calibration, validation, c, approval).value;
    PassedReports(s, samples, hash, calibration, validation, c, approval);
    StatisticsPassTheRecheck(Pairs(calibration), p.threshold.value, s.op);
    StatisticsPassTheRecheck(Pairs(validation), p.threshold.value, s.op);
    PartIdsAreDistinct(samples, TEST);
  }

  /** Every passing reveal of such a report does, too. */
  lemma PassingRevealsPassTheRecheck(p: Prepared, test: seq<Observation>, receipt: RevealReceipt)
    requires PreparedOk(p) && var r := Reveal(p, test, receipt); r.Some? && r.value.passed
    ensures RevealOk(Reveal(p, test, receipt).value, p)
  {
    StatisticsPassTheRecheck(Pairs(test), p.threshold.value, p.op);
  }

  /** So the approval stage approves exactly the chains that can be rebuilt and have passed both stages: its own checks
      reject nothing else. */
  lemma ApprovedExactlyWhenRebuilt(c: Chain, hash: Sha -> nat, approved: bool, threshold: real)
    ensures Approve(c, hash, approved, threshold).Some? <==>
            && Rebuilds(c, hash) && c.prepared.status == PASSED && c.revealed.passed
            && approved && c.prepared.threshold == Some(threshold)
  {
    if Rebuilds(c, hash) && c.prepared.status == PASSED {
      PassedReportsPassTheRecheck(c.study, c.samples, hash, c.calibration, c.validation, c.commitment, c.approval);
      if c.revealed.passed {
        PassingRevealsPassTheRecheck(c.prepared, c.test, c.receipt);
      }
    }
  }

  /** An approved threshold meets the targets on calibration, validation and test data, recomputed from the observations;
      it was chosen on the calibration data alone; no lower false positive rate could have been had there exactly if some
      true positive rate is required or that rate is zero. */
  lemma ApprovedThresholdsMeetTheTargets(c: Chain, hash: Sha -> nat, approved: bool, threshold: real)
    requires Approve(c, hash, approved, threshold).Some?
    ensures Meets(Pairs(c.calibration), threshold, c.study.op, c.study.targets)
    ensures Meets(Pairs(c.validation), threshold, c.study.op, c.study.targets)
    ensures Meets(Pairs(c.test), threshold, c.study.op, c.study.targets)
    ensures Some(threshold) == Selected(Pairs(c.calibration), Scores(Pairs(c.calibration)), c.study.op, c.study.targets)
    ensures (forall x: real :: Meets(Pairs(c.calibration), x, c.study.op, c.study.targets) ==>
               Fpr(Pairs(c.calibration), threshold, c.study.op) <= Fpr(Pairs(c.calibration), x, c.study.op))
            <==> c.study.targets.minTpr > 0.0 || Fpr(Pairs(c.calibration), threshold, c.study.op) == 0.0
  {
    PassedReports(c.study, c.samples, hash, c.calibration, c.validation, c.commitment, c.approval);
    var pairs := Pairs(c.calibration);
    SelectedIsUnique(pairs, Scores(pairs), c.study.op, c.study.targets, Some(threshold));
    SelectedIsOptimal(pairs, c.study.op, c.study.targets, threshold);
  }

  /** And the test data of an approved chain are exactly the held-out samples, which share nothing with the data that the
      threshold was chosen on. */
  lemma ApprovedTestDataWereHeldOut(c: Chain, hash: Sha -> nat, approved: bool, threshold: real, i: nat, a: Sample)
    requires Approve(c, hash, approved, threshold).Some?
    requires i < |c.test| && a in c.samples && a.split != TEST
    ensures var test := Part(c.samples, TEST);
            && |c.test| == |test| && c.test[i].id == test[i].id && c.test[i].binding == BindingOf(test[i])
            && test[i].group != a.group && test[i].id != a.id && Apart(test[i].body, a.body)
  {
    var test := Part(c.samples, TEST);
    assert c.prepared.testIds == SampleIds(test) && c.prepared.testBindings == SampleBindings(test);
    assert SampleIds(test)[i] == c.test[i].id && SampleBindings(test)[i] == c.test[i].binding;
    InPart(c.samples, TEST, test[i]);
    PartsShareNothing(c.samples, c.study.batch, hash, test[i], a);
  }
}
