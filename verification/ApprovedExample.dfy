/** Chains that the approval stage approves exist: a study with one positive and one negative sample in each split. */
module ApprovedExample {
  import opened Outcomes
  import opened SamplePartition
  import opened ThresholdSearch
  import opened MetricEvidence

  const STUDY := Study(false, GTE, Targets(1.0, 0.0), 1, 1)

  /** Splits by the group number itself. */
  const HASH: Sha -> nat := x => x

  function Name(number: nat): string {
    seq(number, i => 'x')
  }

  function One(number: nat): Sample {
    Sample(Name(number), number, AssignSplit(number), number, Single(number, number + 100, number + 200))
  }

  function Samples(numbers: seq<nat>): seq<Sample> {
    seq(|numbers|, i requires 0 <= i < |numbers| => One(numbers[i]))
  }

  function Observed(number: nat, positive: bool): Observation {
    Observation(Name(number), Candidate(number), number, if positive then 1.0 else 0.0, positive)
  }

  /** Samples with different small numbers share nothing. */
  lemma SamplesAreFine(numbers: seq<nat>)
    requires forall i, j :: 0 <= i < j < |numbers| ==> numbers[i] != numbers[j]
    requires forall i :: 0 <= i < |numbers| ==> numbers[i] < 100
    ensures PartitionOk(Samples(numbers), false, HASH)
  {
    var samples := Samples(numbers);
    forall i, j | 0 <= i < j < |samples|
      ensures samples[i].id != samples[j].id && BindingOf(samples[i]) != BindingOf(samples[j])
    {
      assert |Name(numbers[i])| != |Name(numbers[j])|;
    }
    forall i, j, x, role | 0 <= i < |samples| && 0 <= j < |samples| && i != j && role != GROUP && x in Identities(samples[i], role)
      ensures x !in Identities(samples[j], role)
    {
    }
  }

  const NUMBERS: seq<nat> := [0, 1, 60, 61, 80, 81]

  lemma SplitsOfTheSamples()
    ensures Parts(Samples(NUMBERS)) == BySplit([One(0), One(1)], [One(60), One(61)], [One(80), One(81)])
  {
    var s := Samples(NUMBERS);
    forall k | 0 <= k < |s|
      ensures Parts(s[..k + 1]) == Parts(s[..k]).Add(s[k])
    {
      assert s[..k + 1] == s[..k] + [s[k]];
      PartsMore(s[..k], s[k]);
    }
    assert Parts(s[..1]) == BySplit([One(0)], [], []);
    assert Parts(s[..2]) == BySplit([One(0), One(1)], [], []);
    assert Parts(s[..3]) == BySplit([One(0), One(1)], [One(60)], []);
    assert Parts(s[..4]) == BySplit([One(0), One(1)], [One(60), One(61)], []);
    assert Parts(s[..5]) == BySplit([One(0), One(1)], [One(60), One(61)], [One(80)]);
    assert s[..6] == s;
  }

  /** The one threshold that tells a positive 1.0 from a negative 0.0. */
  lemma TwoPairs(yes: Pair, no: Pair)
    requires yes.positive && yes.score == 1.0 && !no.positive && no.score == 0.0
    ensures Positives([yes, no]) == 1 && Meets([yes, no], 1.0, GTE, STUDY.targets)
    ensures Selected([yes, no], Scores([yes, no]), GTE, STUDY.targets) == Some(1.0)
  {
    var pairs := [yes, no];
    assert pairs[..1] == [yes] && [yes][..0] == [];
    assert Scores([yes]) == [1.0];
    assert Scores(pairs) == [1.0, 0.0];
    assert Positives([yes]) == 1;
    assert Confuse([yes], 1.0, GTE) == Confusion(1, 0, 0, 0) && Confuse([yes], 0.0, GTE) == Confusion(1, 0, 0, 0);
    assert Confuse(pairs, 1.0, GTE) == Confusion(1, 0, 1, 0) && Confuse(pairs, 0.0, GTE) == Confusion(1, 1, 0, 0);
    SelectedIsUnique(pairs, Scores(pairs), GTE, STUDY.targets, Some(1.0));
  }

  function Both(first: nat): seq<Observation> {
    [Observed(first, true), Observed(first + 1, false)]
  }

  lemma BothAreTold(first: nat)
    ensures var pairs := Pairs(Both(first));
            && Positives(pairs) == 1 && Negatives(pairs) == 1 && Meets(pairs, 1.0, GTE, STUDY.targets)
            && Selected(pairs, Scores(pairs), GTE, STUDY.targets) == Some(1.0)
  {
    var pairs := Pairs(Both(first));
    assert pairs == [pairs[0], pairs[1]];
    TwoPairs(pairs[0], pairs[1]);
  }

  const COMMITMENT := Commitment([Name(80), Name(81)], [Candidate(80), Candidate(81)], 1, 1, Seal(Both(80)))

  function PassedReport(): Prepared {
    FreezeReport(STUDY, COMMITMENT, Pairs(Both(0)), Pairs(Both(60)))
  }

  lemma ReportIsPrepared()
    ensures Prepare(STUDY, Samples(NUMBERS), HASH, Both(0), Both(60), COMMITMENT, LabelApproval(false, true)) == Some(PassedReport())
  {
    SamplesAreFine(NUMBERS);
    SplitsOfTheSamples();
    assert Observes(Both(0), [One(0), One(1)]) && Observes(Both(60), [One(60), One(61)]);
    assert CommitmentOk(COMMITMENT, [One(80), One(81)]);
  }

  lemma ReportPasses()
    ensures var report := PassedReport();
            && report.status == PASSED && report.threshold == Some(1.0) && report.calibration.Some? && report.validation.Some?
            && report.targets == STUDY.targets && report.op == GTE && report.testIds == COMMITMENT.ids
            && report.testBindings == COMMITMENT.bindings && report.testPositives == 1 && report.testNegatives == 1
            && report.seal == Seal(Both(80))
  {
    BothAreTold(0);
    BothAreTold(60);
  }

  lemma RevealPasses(report: Prepared)
    requires report.status == PASSED && report.threshold == Some(1.0) && report.calibration.Some? && report.validation.Some?
    requires report.targets == STUDY.targets && report.op == GTE && report.testIds == COMMITMENT.ids
    requires report.testBindings == COMMITMENT.bindings && report.testPositives == 1 && report.testNegatives == 1
    requires report.seal == Seal(Both(80))
    ensures var revealed := Reveal(report, Both(80), RevealReceipt(true, report, Seal(Both(80)))); revealed.Some? && revealed.value.passed
  {
    BothAreTold(80);
    assert TestMatches(report, Both(80));
  }

  lemma ApprovedOnceRevealed(report: Prepared, revealed: Revealed) returns (c: Chain)
    requires Prepare(STUDY, Samples(NUMBERS), HASH, Both(0), Both(60), COMMITMENT, LabelApproval(false, true)) == Some(report)
    requires report.status == PASSED && report.threshold == Some(1.0)
    requires Reveal(report, Both(80), RevealReceipt(true, report, Seal(Both(80)))) == Some(revealed) && revealed.passed
    ensures Approve(c, HASH, true, 1.0).Some?
  {
    c := Chain(STUDY, Samples(NUMBERS), Both(0), Both(60), Both(80), COMMITMENT, LabelApproval(false, true),
               RevealReceipt(true, report, Seal(Both(80))), report, revealed);
    ApprovedExactlyWhenRebuilt(c, HASH, true, 1.0);
  }

  lemma SomeChainIsApproved() returns (c: Chain)
    ensures Approve(c, HASH, true, 1.0).Some?
  {
    ReportIsPrepared();
    ReportPasses();
    RevealPasses(PassedReport());
    c := ApprovedOnceRevealed(PassedReport(), Reveal(PassedReport(), Both(80), RevealReceipt(true, PassedReport(), Seal(Both(80)))).value);
  }
}
