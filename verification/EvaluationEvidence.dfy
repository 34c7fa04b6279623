/** The recorded runs of a formal evaluation: seed schedules, terminal outcomes, and the matrix of inputs and arms. */
module EvaluationEvidence {
  import opened Outcomes
  import opened StopContract

  type InputId = nat
  type BlindId = nat

  datatype Terminal = APPROVED | REJECTED | MANUAL_REVIEW | FAILED | UNKNOWN_TERMINAL

  datatype Record = Record(
    inputId: InputId,
    arm: Arm,
    attempts: seq<Attempt>,
    terminal: Terminal,
    candidate: Option<Sha>,
    blindId: Option<BlindId>,
    initialPass: bool,
    finalPass: bool,
    failureReasons: seq<string>,
    generationsUsed: int,
    stopEvent: StopEvent)

  /** What the attempts on an input must have been made with; the request is that of the first attempt. */
  datatype Frozen = Frozen(request: Sha, pins: Pins, utilityContract: Sha)

  /** The parts of a sealed protocol that the records are checked against. */
  datatype Protocol = Protocol(inputs: seq<InputId>, maximum: nat, schedules: map<InputId, seq<int>>, frozen: map<InputId, Frozen>)

  const ARMS: seq<Arm> := [A_SINGLE_PASS, B_RANDOM_RETRY, C_BEST_OF_K, D_DIRECTED, E_FULL]

  /** What loading a protocol has checked: a schedule of distinct seeds, one for each generation, for each input. */
  ghost predicate ProtocolOk(p: Protocol) {
    && (forall i, j :: 0 <= i < j < |p.inputs| ==> p.inputs[i] != p.inputs[j])
    && (forall x :: x in p.inputs ==>
          && x in p.schedules && x in p.frozen && |p.schedules[x]| == p.maximum
          && (forall i, j :: 0 <= i < j < p.maximum ==> p.schedules[x][i] != p.schedules[x][j]))
  }

  /** evidence._expected_seed: the seed an attempt must have used and the next unused place of the schedule, or None. */
  function ExpectedSeed(arm: Arm, index: nat, reason: SeedReason, seeds: seq<int>, currentSeed: int, nextSeed: nat): Option<(int, nat)>
    requires index < |seeds|
  {
    if index == 0 then
      if reason == INITIAL then Some((seeds[0], nextSeed)) else None
    else
      match arm
      case A_SINGLE_PASS => None
      case B_RANDOM_RETRY => if reason == RANDOM_RETRY then Some((seeds[index], nextSeed)) else None
      case C_BEST_OF_K => if reason == VERIFIER_CANDIDATE then Some((seeds[index], nextSeed)) else None
      case _ =>
        if reason == FROZEN_REPAIR then Some((currentSeed, nextSeed))
        else if reason == SAMPLING_DEFECT_RETRY && nextSeed < |seeds| then Some((seeds[nextSeed], nextSeed + 1))
        else None
  }

  /** evidence._validate_attempt_strategy */
  predicate StrategyOk(a: Attempt, arm: Arm, index: nat, utilityContract: Sha) {
    && (if arm == C_BEST_OF_K && a.generated then
          a.utilityContract == Some(utilityContract) && a.utilityResult.Some? && a.utility.Some?
        else a.utility.None? && a.utilityResult.None? && a.utilityContract.None?)
    && (if index == 0 || arm in {A_SINGLE_PASS, B_RANDOM_RETRY, C_BEST_OF_K} then
          a.rules == [] && a.action.None? && a.guardrail == NOT_APPLICABLE
        else
          a.guardrail == (if arm == D_DIRECTED then DISABLED else PASSED) && a.rules != [] && a.action.Some?)
  }

  /** The checks of one attempt that do not depend on the attempts before it. */
  predicate AttemptOk(a: Attempt, arm: Arm, index: nat, frozen: Frozen) {
    && a.generationIndex == index
    && a.pins == frozen.pins && (index == 0 ==> a.request == frozen.request)
    && (a.generated <==> a.artifact.Some? && a.qaResult.Some?)
    && (a.qaPass ==> a.generated)
    && StrategyOk(a, arm, index, frozen.utilityContract)
  }

  predicate ReasonOk(arm: Arm, index: nat, reason: SeedReason) {
    if index == 0 then reason == INITIAL else
    match arm
    case A_SINGLE_PASS => false
    case B_RANDOM_RETRY => reason == RANDOM_RETRY
    case C_BEST_OF_K => reason == VERIFIER_CANDIDATE
    case _ => reason in {FROZEN_REPAIR, SAMPLING_DEFECT_RETRY}
  }

  /** The place in the schedule of the seed of each attempt: its own index in the retry arms; in the repair arms one place
      further for each resampling. */
  function Place(arm: Arm, attempts: seq<Attempt>, index: nat): (k: nat)
    requires index < |attempts|
    ensures k <= index
  {
    if index == 0 then 0 else
    match arm
    case A_SINGLE_PASS => 0
    case B_RANDOM_RETRY => index
    case C_BEST_OF_K => index
    case _ => Place(arm, attempts, index - 1) + (if attempts[index].seedReason == SAMPLING_DEFECT_RETRY then 1 else 0)
  }

  /** The attempts follow the schedule. */
  ghost predicate AttemptsOk(arm: Arm, attempts: seq<Attempt>, seeds: seq<int>, frozen: Frozen) {
    && 0 < |attempts| <= |seeds|
    && forall i :: 0 <= i < |attempts| ==> FollowsSchedule(arm, attempts, seeds, frozen, i)
  }

  ghost predicate FollowsSchedule(arm: Arm, attempts: seq<Attempt>, seeds: seq<int>, frozen: Frozen, i: nat)
    requires i < |attempts| <= |seeds|
  {
    && AttemptOk(attempts[i], arm, i, frozen)
    && ReasonOk(arm, i, attempts[i].seedReason)
    && attempts[i].seed == seeds[Place(arm, attempts, i)]
  }

  /** evidence._attempts: accepts exactly the attempts that follow the schedule. The bound on the next seed in the repair
      arms never rejects anything, since no more seeds are drawn than attempts are made. */
  method CheckAttempts(arm: Arm, attempts: seq<Attempt>, seeds: seq<int>, frozen: Frozen) returns (ok: bool)
    ensures ok <==> AttemptsOk(arm, attempts, seeds, frozen)
  {
    if attempts == [] || |attempts| > |seeds| { return false; }
    var currentSeed, nextSeed := seeds[0], 1;
    for index := 0 to |attempts|
      invariant forall i :: 0 <= i < index ==> FollowsSchedule(arm, attempts, seeds, frozen, i)
      invariant index > 0 ==> currentSeed == seeds[Place(arm, attempts, index - 1)]
      invariant arm in {D_DIRECTED, E_FULL} ==> nextSeed == 1 + (if index == 0 then 0 else Place(arm, attempts, index - 1))
    {
      var attempt := attempts[index];
      var expected := ExpectedSeed(arm, index, attempt.seedReason, seeds, currentSeed, nextSeed);
      if expected.None? || attempt.seed != expected.value.0 || !AttemptOk(attempt, arm, index, frozen) {
        assert !FollowsSchedule(arm, attempts, seeds, frozen, index);
        return false;
      }
      currentSeed, nextSeed := expected.value.0, expected.value.1;
    }
    ok := true;
  }

  /** In the repair arms the seeds walk the schedule in order: each attempt stays where the one before it was or moves one
      place on. */
  lemma SeedsWalkTheSchedule(arm: Arm, attempts: seq<Attempt>, seeds: seq<int>, frozen: Frozen, i: nat)
    requires AttemptsOk(arm, attempts, seeds, frozen) && arm in {D_DIRECTED, E_FULL} && i + 1 < |attempts|
    ensures exists k :: 0 <= k < |seeds| && attempts[i].seed == seeds[k]
                        && (attempts[i + 1].seed == seeds[k] || (k + 1 < |seeds| && attempts[i + 1].seed == seeds[k + 1]))
  {
    assert FollowsSchedule(arm, attempts, seeds, frozen, i) && FollowsSchedule(arm, attempts, seeds, frozen, i + 1);
    var k := Place(arm, attempts, i);
    assert Place(arm, attempts, i + 1) in {k, k + 1};
  }

  /** In the retry arms the seeds used are a prefix of the schedule. */
  lemma SeedsArePrefix(arm: Arm, attempts: seq<Attempt>, seeds: seq<int>, frozen: Frozen)
    requires AttemptsOk(arm, attempts, seeds, frozen) && arm in {B_RANDOM_RETRY, C_BEST_OF_K}
    ensures seq(|attempts|, i requires 0 <= i < |attempts| => attempts[i].seed) == seeds[..|attempts|]
  {
    forall i | 0 <= i < |attempts|
      ensures attempts[i].seed == seeds[i]
    {
      assert FollowsSchedule(arm, attempts, seeds, frozen, i);
    }
  }

  /** next(item for item in attempts if its artifact is `artifact`) */
  function FirstOf(attempts: seq<Attempt>, artifact: Option<Sha>): Option<Attempt> {
    if attempts == [] then None
    else if attempts[0].artifact == artifact then Some(attempts[0])
    else FirstOf(attempts[1..], artifact)
  }

  /** evidence._validate_terminal */
  predicate TerminalOk(r: Record)
    requires r.attempts != []
  {
    var approved := r.terminal == APPROVED;
    var anyArtifact := WithArtifact(r.attempts) != [];
    var selected := FirstOf(r.attempts, r.candidate);
    && r.terminal != UNKNOWN_TERMINAL
    && r.finalPass == approved
    && (r.candidate.None? <==> r.blindId.None?)
    && (r.candidate.Some? ==> exists a | a in r.attempts :: a.artifact == r.candidate)
    && (!anyArtifact <==> r.terminal == FAILED)
    && (r.candidate.None? <==> !anyArtifact)
    && (r.candidate.Some? ==> selected.Some?)
    && (selected.Some? ==> selected.value.qaPass == approved)
    && (approved <==> r.failureReasons == [])
    && r.initialPass == r.attempts[0].qaPass
  }

  /** evidence._machine_record */
  ghost predicate RecordOk(p: Protocol, inputId: InputId, arm: Arm, r: Record)
    requires inputId in p.schedules && inputId in p.frozen
  {
    && AttemptsOk(arm, r.attempts, p.schedules[inputId], p.frozen[inputId])
    && TerminalOk(r)
    && (r.stopEvent.index.Some? ==> r.stopEvent.index.value < |r.attempts|)
    && r.inputId == inputId && r.arm == arm
    && r.generationsUsed == |r.attempts| && r.generationsUsed <= p.maximum
    && ValidStopping(arm, r.attempts, r.candidate, p.maximum, r.stopEvent)
  }

  /** Every accepted record is a complete run of its arm's loop. */
  lemma RecordsAreCompleteRuns(p: Protocol, r: Record)
    requires ProtocolOk(p) && r.inputId in p.inputs && RecordOk(p, r.inputId, r.arm, r)
    ensures CompletesWith(r.arm, p.maximum, r.attempts, r.candidate, r.stopEvent)
  {
    ValidatorIsTheLoop(r.arm, p.maximum, r.attempts, r.candidate, r.stopEvent);
  }

  /** A record is final exactly when the first attempt with the chosen artifact passed. */
  lemma FinalPassIsTheSelectedPass(p: Protocol, r: Record)
    requires ProtocolOk(p) && r.inputId in p.inputs && RecordOk(p, r.inputId, r.arm, r)
    ensures forall a :: a in r.attempts ==> Rankable(r.arm, a)
    ensures var chosen := Chosen(r.arm, r.attempts);
            if chosen.None? then !r.finalPass
            else FirstOf(r.attempts, chosen.value.artifact).Some?
                 && (r.finalPass <==> FirstOf(r.attempts, chosen.value.artifact).value.qaPass)
  {
    RecordsAreCompleteRuns(p, r);
    CompletesWithCompleteRuns(r.arm, p.maximum, r.attempts, r.candidate, r.stopEvent);
    WhichAttempts(r.arm, p.maximum, r.attempts);
  }

  /** Outside arm C a first pass ends the run and is the final pass; in arm A nothing else passes. */
  lemma InitialPassIsFinal(p: Protocol, r: Record)
    requires ProtocolOk(p) && r.inputId in p.inputs && RecordOk(p, r.inputId, r.arm, r)
    ensures r.arm != C_BEST_OF_K && r.initialPass ==> r.finalPass && |r.attempts| == 1
    ensures r.arm == A_SINGLE_PASS ==> r.finalPass == r.initialPass
  {
    assert FollowsSchedule(r.arm, r.attempts, p.schedules[r.inputId], p.frozen[r.inputId], 0);
    if |r.attempts| == 1 {
      assert r.attempts[0] in r.attempts;
      assert r.attempts[..0] == [];
      assert WithArtifact(r.attempts) == if r.attempts[0].artifact.Some? then [r.attempts[0]] else [];
    }
  }

  lemma {:induction false} FirstOfIsFirst(attempts: seq<Attempt>, k: nat)
    requires k < |attempts| && forall i :: 0 <= i < k ==> attempts[i].artifact != attempts[k].artifact
    ensures FirstOf(attempts, attempts[k].artifact) == Some(attempts[k])
  {
    if k > 0 {
      FirstOfIsFirst(attempts[1..], k - 1);
    }
  }

  lemma {:induction false} FirstOfIsSome(attempts: seq<Attempt>, artifact: Option<Sha>)
    ensures var f := FirstOf(attempts, artifact);
            f.Some? ==> exists i :: 0 <= i < |attempts| && attempts[i] == f.value && attempts[i].artifact == artifact
                                    && forall j :: 0 <= j < i ==> attempts[j].artifact != artifact
  {
    if attempts != [] && attempts[0].artifact != artifact {
      var rest := attempts[1..];
      FirstOfIsSome(rest, artifact);
      if FirstOf(rest, artifact).Some? {
        var i :| 0 <= i < |rest| && rest[i] == FirstOf(rest, artifact).value && rest[i].artifact == artifact
                 && forall j :: 0 <= j < i ==> rest[j].artifact != artifact;
        assert attempts[i + 1] == rest[i];
        forall j | 0 <= j < i + 1
          ensures attempts[j].artifact != artifact
        {
          assert j > 0 ==> attempts[j] == rest[j - 1];
        }
      }
    }
  }

  /** A run of arm B, D or E whose last attempt passed is approved exactly when no earlier attempt left the same artifact:
      the record is judged by the first attempt with the candidate's hash. */
  lemma PassedRunIsApprovedIffArtifactIsNew(p: Protocol, r: Record)
    requires ProtocolOk(p) && r.inputId in p.inputs && RecordOk(p, r.inputId, r.arm, r)
    requires r.arm in {B_RANDOM_RETRY, D_DIRECTED, E_FULL} && r.attempts[|r.attempts| - 1].qaPass
    ensures var n := |r.attempts| - 1;
            r.finalPass <==> forall i :: 0 <= i < n ==> r.attempts[i].artifact != r.attempts[n].artifact
  {
    var n := |r.attempts| - 1;
    var last := r.attempts[n];
    assert FollowsSchedule(r.arm, r.attempts, p.schedules[r.inputId], p.frozen[r.inputId], n);
    assert WithArtifact(r.attempts) == WithArtifact(r.attempts[..n]) + [last];
    assert r.candidate == last.artifact;
    FirstOfIsSome(r.attempts, last.artifact);
    if forall i :: 0 <= i < n ==> r.attempts[i].artifact != last.artifact {
      FirstOfIsFirst(r.attempts, n);
    }
  }

  /** In arm C an initial pass that nothing outscores is final. */
  lemma UnbeatenInitialPassIsFinal(p: Protocol, r: Record)
    requires ProtocolOk(p) && r.inputId in p.inputs && RecordOk(p, r.inputId, r.arm, r)
    requires r.arm == C_BEST_OF_K && r.initialPass
    requires forall a :: a in r.attempts && a.artifact.Some? && a.utility.Some? ==> a.utility.value <= r.attempts[0].utility.GetOr(0.0)
    ensures r.finalPass
  {
    RecordsAreCompleteRuns(p, r);
    CompletesWithCompleteRuns(r.arm, p.maximum, r.attempts, r.candidate, r.stopEvent);
    assert FollowsSchedule(r.arm, r.attempts, p.schedules[r.inputId], p.frozen[r.inputId], 0);
    WhichAttempts(r.arm, p.maximum, r.attempts);
    FirstUnbeatenIsChosen(r.attempts);
  }

  lemma {:induction false} FirstUnbeatenIsChosen(attempts: seq<Attempt>)
    requires attempts != [] && attempts[0].artifact.Some? && attempts[0].utility.Some?
    requires forall a :: a in attempts ==> Rankable(C_BEST_OF_K, a)
    requires forall a :: a in attempts && a.artifact.Some? && a.utility.Some? ==> a.utility.value <= attempts[0].utility.value
    ensures Chosen(C_BEST_OF_K, attempts) == Some(attempts[0])
  {
    if |attempts| > 1 {
      FirstUnbeatenIsChosen(attempts[..|attempts| - 1]);
      assert attempts[|attempts| - 1] in attempts;
    } else {
      assert attempts[..0] == [];
    }
  }

  const PINS := Pins(5, 6, 7)
  const FROZEN := Frozen(8, PINS, 9)

  const PASSING := Attempt(
    0, true, Some(1), Some(3), true, Some(0.5), Some(10), Some(9), NOT_APPLICABLE, None, [], 7, INITIAL, 8, PINS)
  const SCORING := Attempt(
    1, true, Some(2), Some(4), false, Some(0.9), Some(11), Some(9), NOT_APPLICABLE, None, [], 8, VERIFIER_CANDIDATE, 12, PINS)

  lemma PassingThenScoring()
    ensures AttemptsOk(C_BEST_OF_K, [PASSING, SCORING], [7, 8], FROZEN)
    ensures ValidStopping(C_BEST_OF_K, [PASSING, SCORING], Some(2), 2, StopEvent(Some(1), NOT_APPLICABLE, BUDGET_EXHAUSTED, None, []))
  {
    TwoAttempts(PASSING, SCORING);
    BetterOfTwo(PASSING, SCORING);
    var attempts := [PASSING, SCORING];
    assert FollowsSchedule(C_BEST_OF_K, attempts, [7, 8], FROZEN, 0) && FollowsSchedule(C_BEST_OF_K, attempts, [7, 8], FROZEN, 1);
  }

  /** In arm C an initial pass need not be final: a second attempt with a better score but without a pass is chosen. */
  lemma InitialPassCanBeLost() returns (p: Protocol, r: Record)
    ensures ProtocolOk(p) && r.inputId in p.inputs && RecordOk(p, r.inputId, r.arm, r)
    ensures r.arm == C_BEST_OF_K && r.initialPass && !r.finalPass
  {
    p := Protocol([0], 2, map[0 := [7, 8]], map[0 := FROZEN]);
    r := Record(0, C_BEST_OF_K, [PASSING, SCORING], Terminal.REJECTED, Some(2), Some(6), true, false, ["qa"], 2,
                StopEvent(Some(1), NOT_APPLICABLE, BUDGET_EXHAUSTED, None, []));
    PassingThenScoring();
    TwoAttempts(PASSING, SCORING);
    assert SCORING in r.attempts;
  }

  const FAILING := Attempt(
    0, true, Some(1), Some(3), false, None, None, None, NOT_APPLICABLE, None, [], 7, INITIAL, 8, PINS)
  const REPEATING := Attempt(
    1, true, Some(1), Some(4), true, None, None, None, NOT_APPLICABLE, None, [], 8, RANDOM_RETRY, 12, PINS)

  lemma FailingThenRepeating()
    ensures AttemptsOk(B_RANDOM_RETRY, [FAILING, REPEATING], [7, 8], FROZEN)
    ensures ValidStopping(B_RANDOM_RETRY, [FAILING, REPEATING], Some(1), 2, StopEvent(Some(1), NOT_APPLICABLE, QA_PASSED, None, []))
  {
    TwoAttempts(FAILING, REPEATING);
    var attempts := [FAILING, REPEATING];
    assert REPEATING in attempts;
    assert FollowsSchedule(B_RANDOM_RETRY, attempts, [7, 8], FROZEN, 0) && FollowsSchedule(B_RANDOM_RETRY, attempts, [7, 8], FROZEN, 1);
  }

  /** In the other arms a run that stopped on a pass need not be approved: the same artifact failed before. */
  lemma PassedRunCanBeRejected() returns (p: Protocol, r: Record)
    ensures ProtocolOk(p) && r.inputId in p.inputs && RecordOk(p, r.inputId, r.arm, r)
    ensures r.arm == B_RANDOM_RETRY && r.stopEvent.kind == QA_PASSED && !r.finalPass
  {
    p := Protocol([0], 2, map[0 := [7, 8]], map[0 := FROZEN]);
    r := Record(0, B_RANDOM_RETRY, [FAILING, REPEATING], Terminal.REJECTED, Some(1), Some(6), false, false, ["qa"], 2,
                StopEvent(Some(1), NOT_APPLICABLE, QA_PASSED, None, []));
    FailingThenRepeating();
    TwoAttempts(FAILING, REPEATING);
    assert FAILING in r.attempts;
  }

  lemma TwoAttempts(first: Attempt, second: Attempt)
    requires first.artifact.Some? && second.artifact.Some?
    ensures WithArtifact([first, second]) == [first, second]
    ensures FirstOf([first, second], second.artifact) == Some(if first.artifact == second.artifact then first else second)
  {
    assert [first, second][..1] == [first] && [first][..0] == [];
    assert WithArtifact([first]) == [first];
    assert [first, second][1..] == [second];
  }

  lemma BetterOfTwo(first: Attempt, second: Attempt)
    requires first.utility.Some? && second.utility.Some? && first.utility.value < second.utility.value
    ensures Best([first, second]) == second.utility
    ensures FirstWith([first, second], second.utility.value) == Some(second)
  {
    assert [first, second][..1] == [first];
    assert [first, second][1..] == [second];
  }

  // The matrix of inputs and arms

  predicate DistinctBlindIds(records: seq<Record>) {
    forall i, j | 0 <= i < j < |records| :: records[i].blindId.Some? ==> records[i].blindId != records[j].blindId
  }

  /** evidence.load_machine_evidence: one record for each input and arm, in the order of the product. */
  ghost predicate LedgerOk(p: Protocol, records: seq<Record>) {
    && ProtocolOk(p)
    && |records| == |p.inputs| * |ARMS|
    && (forall k :: 0 <= k < |records| ==> RecordOk(p, p.inputs[k / |ARMS|], ARMS[k % |ARMS|], records[k]))
    && DistinctBlindIds(records)
  }

  function ByArm(records: seq<Record>, arm: Arm): seq<Record> {
    if records == [] then [] else
    var shorter, last := ByArm(records[..|records| - 1], arm), records[|records| - 1];
    if last.arm == arm then shorter + [last] else shorter
  }

  /** Where the record of an input and an arm sits. */
  function Slot(input: nat, arm: nat): nat {
    input * |ARMS| + arm
  }

  ghost predicate ArmsAlternate(records: seq<Record>) {
    forall i: nat, a: nat :: a < |ARMS| && Slot(i, a) < |records| ==> records[Slot(i, a)].arm == ARMS[a]
  }

  lemma {:induction false} ByArmIsEveryFifth(records: seq<Record>, arm: nat, n: nat, r: nat)
    requires ArmsAlternate(records) && arm < |ARMS| && r <= |ARMS| && Slot(n, r) <= |records|
    ensures |ByArm(records[..Slot(n, r)], ARMS[arm])| == n + (if arm < r then 1 else 0)
    ensures forall i :: 0 <= i < n + (if arm < r then 1 else 0) ==>
              ByArm(records[..Slot(n, r)], ARMS[arm])[i] == records[Slot(i, arm)]
    decreases n, r
  {
    if r > 0 {
      ByArmIsEveryFifth(records, arm, n, r - 1);
      assert records[..Slot(n, r)][..Slot(n, r - 1)] == records[..Slot(n, r - 1)];
      assert records[..Slot(n, r)][Slot(n, r - 1)].arm == ARMS[r - 1];
      assert ARMS[r - 1] == ARMS[arm] <==> r - 1 == arm;
    } else if n > 0 {
      ByArmIsEveryFifth(records, arm, n - 1, |ARMS|);
      assert Slot(n, 0) == Slot(n - 1, |ARMS|);
    }
  }

  /** Filtering an accepted ledger by arm lines every arm up with the inputs: one record for each input, in order. */
  lemma ArmsLineUp(p: Protocol, records: seq<Record>, arm: Arm)
    requires LedgerOk(p, records)
    ensures |ByArm(records, arm)| == |p.inputs|
    ensures forall i :: 0 <= i < |p.inputs| ==>
              && ByArm(records, arm)[i].inputId == p.inputs[i]
              && ByArm(records, arm)[i].arm == arm
              && RecordOk(p, p.inputs[i], arm, ByArm(records, arm)[i])
  {
    forall i: nat, a: nat | a < |ARMS| && Slot(i, a) < |records|
      ensures records[Slot(i, a)].arm == ARMS[a]
    {
      SlotHolds(p, records, i, a);
    }
    var a := Position(arm);
    ByArmIsEveryFifth(records, a, |p.inputs|, 0);
    assert records[..Slot(|p.inputs|, 0)] == records;
    forall i | 0 <= i < |p.inputs|
      ensures RecordOk(p, p.inputs[i], arm, ByArm(records, arm)[i])
    {
      SlotHolds(p, records, i, a);
    }
  }

  lemma SlotHolds(p: Protocol, records: seq<Record>, i: nat, a: nat)
    requires LedgerOk(p, records) && a < |ARMS| && Slot(i, a) < |records|
    ensures i < |p.inputs| && RecordOk(p, p.inputs[i], ARMS[a], records[Slot(i, a)]) && records[Slot(i, a)].arm == ARMS[a]
  {
    assert Slot(i, a) / |ARMS| == i && Slot(i, a) % |ARMS| == a;
    assert RecordOk(p, p.inputs[Slot(i, a) / |ARMS|], ARMS[Slot(i, a) % |ARMS|], records[Slot(i, a)]);
  }

  function Position(arm: Arm): (a: nat)
    ensures a < |ARMS| && ARMS[a] == arm
  {
    match arm
    case A_SINGLE_PASS => 0
    case B_RANDOM_RETRY => 1
    case C_BEST_OF_K => 2
    case D_DIRECTED => 3
    case E_FULL => 4
  }
}
