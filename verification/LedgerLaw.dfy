/** What accepted evaluation records look like, arm by arm and outcome by outcome. */
module LedgerLaw {
  import opened EvaluationEvidence
  import opened Outcomes
  import opened StopContract

  predicate Scored(a: Attempt, contract: Sha) {
    a.utility.Some? && a.utilityResult.Some? && a.utilityContract == Some(contract)
  }

  predicate Unscored(a: Attempt) {
    a.utility == None && a.utilityResult == None && a.utilityContract == None
  }

  /** Not the result of a repair. */
  predicate Fresh(a: Attempt) {
    a.guardrail == NOT_APPLICABLE && a.action == None && |a.rules| == 0
  }

  predicate Repair(a: Attempt, decision: Decision) {
    a.guardrail == decision && a.action.Some? && |a.rules| > 0
  }

  /** What every attempt shows: made in its turn from the frozen parts, and nothing is checked that was not generated. */
  predicate Sound(a: Attempt, i: nat, frozen: Frozen) {
    && a.generationIndex == i && a.pins == frozen.pins && (i == 0 ==> a.request == frozen.request)
    && (a.generated ==> a.artifact.Some? && a.qaResult.Some?)
    && (a.artifact.Some? && a.qaResult.Some? ==> a.generated)
    && (!a.generated ==> !a.qaPass)
  }

  /** The first attempt: the first seed, not a repair. */
  predicate First(arm: Arm, a: Attempt, seeds: seq<int>, contract: Sha)
    requires seeds != []
  {
    && a.seedReason == INITIAL && a.seed == seeds[0] && Fresh(a)
    && if arm == C_BEST_OF_K && a.generated then Scored(a, contract) else Unscored(a)
  }

  /** A later one, after `previous`. Arms B and C take one seed after the other. Arms D and E repair: they keep the seed,
      or move on by one for another sample. */
  ghost predicate Next(arm: Arm, previous: Attempt, a: Attempt, i: nat, seeds: seq<int>, contract: Sha)
    requires 0 < i < |seeds|
  {
    match arm
    case A_SINGLE_PASS => false
    case B_RANDOM_RETRY => a.seedReason == RANDOM_RETRY && a.seed == seeds[i] && Fresh(a) && Unscored(a)
    case C_BEST_OF_K =>
      && a.seedReason == VERIFIER_CANDIDATE && a.seed == seeds[i] && Fresh(a)
      && if a.generated then Scored(a, contract) else Unscored(a)
    case D_DIRECTED => Repair(a, DISABLED) && Unscored(a) && Moves(previous, a, seeds)
    case E_FULL => Repair(a, PASSED) && Unscored(a) && Moves(previous, a, seeds)
  }

  ghost predicate Moves(previous: Attempt, a: Attempt, seeds: seq<int>) {
    || (a.seedReason == FROZEN_REPAIR && a.seed == previous.seed)
    || (a.seedReason == SAMPLING_DEFECT_RETRY
        && exists k :: 0 <= k && k + 1 < |seeds| && previous.seed == seeds[k] && a.seed == seeds[k + 1])
  }

  ghost predicate InTurn(arm: Arm, attempts: seq<Attempt>, seeds: seq<int>, frozen: Frozen, i: nat)
    requires i < |attempts| <= |seeds|
  {
    && Sound(attempts[i], i, frozen)
    && if i == 0 then First(arm, attempts[0], seeds, frozen.utilityContract)
       else Next(arm, attempts[i - 1], attempts[i], i, seeds, frozen.utilityContract)
  }

  /** The attempts of a record. */
  ghost predicate Made(arm: Arm, attempts: seq<Attempt>, seeds: seq<int>, frozen: Frozen) {
    0 < |attempts| <= |seeds| && forall i :: 0 <= i < |attempts| ==> InTurn(arm, attempts, seeds, frozen, i)
  }

  /** The first attempt that left the candidate did or did not pass. */
  ghost predicate CandidatePassed(r: Record, passed: bool) {
    exists i :: 0 <= i < |r.attempts| && r.attempts[i].artifact == r.candidate && r.attempts[i].qaPass == passed
                && forall j :: 0 <= j < i ==> r.attempts[j].artifact != r.candidate
  }

  /** The outcome: nothing left behind; or a candidate, with a blind id, approved as it passed, or refused for reasons. */
  ghost predicate Concluded(r: Record)
    requires r.attempts != []
  {
    && r.initialPass == r.attempts[0].qaPass
    && match r.terminal
       case UNKNOWN_TERMINAL => false
       case FAILED =>
         && (forall i :: 0 <= i < |r.attempts| ==> r.attempts[i].artifact == None)
         && r.candidate == None && r.blindId == None && !r.finalPass && |r.failureReasons| > 0
       case APPROVED =>
         r.candidate.Some? && r.blindId.Some? && r.finalPass && |r.failureReasons| == 0 && CandidatePassed(r, true)
       case REJECTED =>
         r.candidate.Some? && r.blindId.Some? && !r.finalPass && |r.failureReasons| > 0 && CandidatePassed(r, false)
       case MANUAL_REVIEW =>
         r.candidate.Some? && r.blindId.Some? && !r.finalPass && |r.failureReasons| > 0 && CandidatePassed(r, false)
  }

  /** The record of an input and an arm: a complete run of the loop of this arm, made as scheduled. */
  ghost predicate Truthful(p: Protocol, inputId: InputId, arm: Arm, r: Record)
    requires inputId in p.schedules && inputId in p.frozen
  {
    && r.inputId == inputId && r.arm == arm
    && r.generationsUsed == |r.attempts|
    && Made(arm, r.attempts, p.schedules[inputId], p.frozen[inputId])
    && Concluded(r)
    && CompletesWith(arm, p.maximum, r.attempts, r.candidate, r.stopEvent)
  }

  lemma AttemptIff(arm: Arm, a: Attempt, index: nat, frozen: Frozen)
    ensures AttemptOk(a, arm, index, frozen) <==>
              && Sound(a, index, frozen)
              && (if arm == C_BEST_OF_K && a.generated then Scored(a, frozen.utilityContract) else Unscored(a))
              && (if index == 0 || arm == A_SINGLE_PASS || arm == B_RANDOM_RETRY || arm == C_BEST_OF_K then Fresh(a)
                  else Repair(a, if arm == D_DIRECTED then DISABLED else PASSED))
  {
  }

  /** One attempt after another: the place in the schedule follows from the attempt before. */
  lemma NextIff(arm: Arm, attempts: seq<Attempt>, seeds: seq<int>, frozen: Frozen, i: nat)
    requires 0 < i < |attempts| <= |seeds| && forall j, k :: 0 <= j < k < |seeds| ==> seeds[j] != seeds[k]
    requires arm in {D_DIRECTED, E_FULL} ==> attempts[i - 1].seed == seeds[Place(arm, attempts, i - 1)]
    ensures FollowsSchedule(arm, attempts, seeds, frozen, i) <==> InTurn(arm, attempts, seeds, frozen, i)
  {
    AttemptIff(arm, attempts[i], i, frozen);
    if arm in {D_DIRECTED, E_FULL} {
      var k := Place(arm, attempts, i - 1);
      assert k + 1 < |seeds| && attempts[i - 1].seed == seeds[k];
    }
  }

  /** The attempts that are accepted are made as scheduled, and the other way round. */
  lemma {:induction false} AttemptsIff(arm: Arm, attempts: seq<Attempt>, seeds: seq<int>, frozen: Frozen, n: nat)
    requires n <= |attempts| <= |seeds| && forall j, k :: 0 <= j < k < |seeds| ==> seeds[j] != seeds[k]
    ensures (forall i :: 0 <= i < n ==> FollowsSchedule(arm, attempts, seeds, frozen, i))
       <==> (forall i :: 0 <= i < n ==> InTurn(arm, attempts, seeds, frozen, i))
  {
    if n > 0 {
      AttemptsIff(arm, attempts, seeds, frozen, n - 1);
      AttemptIff(arm, attempts[0], 0, frozen);
      if n > 1 && forall i :: 0 <= i < n - 1 ==> FollowsSchedule(arm, attempts, seeds, frozen, i) {
        assert FollowsSchedule(arm, attempts, seeds, frozen, n - 2);
        NextIff(arm, attempts, seeds, frozen, n - 1);
      }
      assert n == 1 ==> (FollowsSchedule(arm, attempts, seeds, frozen, 0) <==> InTurn(arm, attempts, seeds, frozen, 0));
    }
  }

  lemma FirstOfIff(r: Record)
    ensures FirstOf(r.attempts, r.candidate).Some? ==> CandidatePassed(r, FirstOf(r.attempts, r.candidate).value.qaPass)
    ensures forall passed :: CandidatePassed(r, passed) ==>
                               FirstOf(r.attempts, r.candidate).Some? && FirstOf(r.attempts, r.candidate).value.qaPass == passed
  {
    FirstOfIsSome(r.attempts, r.candidate);
    forall passed | CandidatePassed(r, passed)
      ensures FirstOf(r.attempts, r.candidate).Some? && FirstOf(r.attempts, r.candidate).value.qaPass == passed
    {
      var i :| 0 <= i < |r.attempts| && r.attempts[i].artifact == r.candidate && r.attempts[i].qaPass == passed
               && forall j :: 0 <= j < i ==> r.attempts[j].artifact != r.candidate;
      FirstOfIsFirst(r.attempts, i);
    }
  }

  /** The outcomes that are accepted. Where something was generated the candidate comes from it. */
  lemma TerminalIff(r: Record)
    requires r.attempts != [] && forall a :: a in r.attempts && a.qaPass ==> a.artifact.Some?
    ensures TerminalOk(r) <==> Concluded(r)
  {
    FirstOfIff(r);
    var generated := WithArtifact(r.attempts);
    assert generated != [] <==> exists i :: 0 <= i < |r.attempts| && r.attempts[i].artifact.Some? by {
      if generated != [] {
        assert generated[0] in r.attempts;
      }
      if i :| 0 <= i < |r.attempts| && r.attempts[i].artifact.Some? {
        assert r.attempts[i] in generated;
      }
    }
  }

  /** A record is accepted exactly when it is truthful. */
  lemma RecordIff(p: Protocol, inputId: InputId, arm: Arm, r: Record)
    requires ProtocolOk(p) && inputId in p.inputs
    ensures RecordOk(p, inputId, arm, r) <==> Truthful(p, inputId, arm, r)
  {
    var seeds, frozen := p.schedules[inputId], p.frozen[inputId];
    if 0 < |r.attempts| <= |seeds| {
      AttemptsIff(arm, r.attempts, seeds, frozen, |r.attempts|);
      if Made(arm, r.attempts, seeds, frozen) {
        forall a | a in r.attempts && a.qaPass
          ensures a.artifact.Some?
        {
          var i :| 0 <= i < |r.attempts| && r.attempts[i] == a;
          assert InTurn(arm, r.attempts, seeds, frozen, i);
        }
        TerminalIff(r);
        ValidatorIsTheLoop(arm, p.maximum, r.attempts, r.candidate, r.stopEvent);
      }
    }
  }

  /** The records of one input. */
  ghost predicate OfInput(p: Protocol, records: seq<Record>, i: nat)
    requires ProtocolOk(p) && i < |p.inputs| && |records| == 5 * |p.inputs|
  {
    && Truthful(p, p.inputs[i], A_SINGLE_PASS, records[5 * i])
    && Truthful(p, p.inputs[i], B_RANDOM_RETRY, records[5 * i + 1])
    && Truthful(p, p.inputs[i], C_BEST_OF_K, records[5 * i + 2])
    && Truthful(p, p.inputs[i], D_DIRECTED, records[5 * i + 3])
    && Truthful(p, p.inputs[i], E_FULL, records[5 * i + 4])
  }

  /** The whole ledger: five records for each input, one for each arm in this order, and no blind id is used twice. */
  ghost predicate Ledger(p: Protocol, records: seq<Record>) {
    && ProtocolOk(p) && |records| == 5 * |p.inputs|
    && (forall i :: 0 <= i < |p.inputs| ==> OfInput(p, records, i))
    && (forall i, j :: 0 <= i < j < |records| ==> records[i].blindId == None || records[j].blindId != records[i].blindId)
  }

  ghost predicate Placed(p: Protocol, records: seq<Record>, i: nat, a: nat)
    requires ProtocolOk(p) && i < |p.inputs| && |records| == 5 * |p.inputs| && a < 5
  {
    RecordOk(p, p.inputs[i], ARMS[a], records[5 * i + a])
  }

  lemma InputIff(p: Protocol, records: seq<Record>, i: nat)
    requires ProtocolOk(p) && i < |p.inputs| && |records| == 5 * |p.inputs|
    ensures OfInput(p, records, i) <==>
              Placed(p, records, i, 0) && Placed(p, records, i, 1) && Placed(p, records, i, 2) && Placed(p, records, i, 3)
              && Placed(p, records, i, 4)
  {
    RecordIff(p, p.inputs[i], A_SINGLE_PASS, records[5 * i]);
    RecordIff(p, p.inputs[i], B_RANDOM_RETRY, records[5 * i + 1]);
    RecordIff(p, p.inputs[i], C_BEST_OF_K, records[5 * i + 2]);
    RecordIff(p, p.inputs[i], D_DIRECTED, records[5 * i + 3]);
    RecordIff(p, p.inputs[i], E_FULL, records[5 * i + 4]);
  }

  lemma PlacedAt(p: Protocol, records: seq<Record>, k: nat)
    requires ProtocolOk(p) && k < |records| == 5 * |p.inputs|
    ensures Placed(p, records, k / 5, k % 5) <==> RecordOk(p, p.inputs[k / |ARMS|], ARMS[k % |ARMS|], records[k])
  {
    assert k == 5 * (k / 5) + k % 5;
  }

  lemma EveryRecord(p: Protocol, records: seq<Record>, i: nat, a: nat)
    requires LedgerOk(p, records) && i < |p.inputs| && a < 5
    ensures Placed(p, records, i, a)
  {
    SlotHolds(p, records, i, a);
  }

  lemma AcceptedLedgers(p: Protocol, records: seq<Record>)
    requires LedgerOk(p, records)
    ensures Ledger(p, records)
  {
    forall i | 0 <= i < |p.inputs|
      ensures OfInput(p, records, i)
    {
      EveryRecord(p, records, i, 0);
      EveryRecord(p, records, i, 1);
      EveryRecord(p, records, i, 2);
      EveryRecord(p, records, i, 3);
      EveryRecord(p, records, i, 4);
      InputIff(p, records, i);
    }
  }

  lemma LedgersAreAccepted(p: Protocol, records: seq<Record>)
    requires Ledger(p, records)
    ensures LedgerOk(p, records)
  {
    forall k | 0 <= k < |records|
      ensures RecordOk(p, p.inputs[k / |ARMS|], ARMS[k % |ARMS|], records[k])
    {
      InputIff(p, records, k / 5);
      assert k % 5 in {0, 1, 2, 3, 4};
      PlacedAt(p, records, k);
    }
  }

  /** Exactly these ledgers are accepted. */
  lemma LedgerIff(p: Protocol, records: seq<Record>)
    ensures LedgerOk(p, records) <==> Ledger(p, records)
  {
    if LedgerOk(p, records) {
      AcceptedLedgers(p, records);
    } else if Ledger(p, records) {
      LedgersAreAccepted(p, records);
    }
  }

  /** No input is recorded twice for an arm. */
  lemma EachInputOnce(p: Protocol, records: seq<Record>, i: nat, j: nat)
    requires LedgerOk(p, records) && i < j < |records|
    ensures records[i].inputId != records[j].inputId || records[i].arm != records[j].arm
  {
    SlotHolds(p, records, i / 5, i % 5);
    SlotHolds(p, records, j / 5, j % 5);
    assert i == Slot(i / 5, i % 5) && j == Slot(j / 5, j % 5);
    ArmsDiffer(i % 5, j % 5);
  }

  lemma ArmsDiffer(a: nat, b: nat)
    requires a < 5 && b < 5
    ensures ARMS[a] == ARMS[b] <==> a == b
  {
  }
}
