/** When a formal evaluation arm stops and which candidate it hands over: the validator of recorded runs, and the
    generate, check, stop loop whose complete runs it accepts. */
module StopContract {
  import opened Outcomes

  /** Hashes and rule names only matter up to equality. */
  type Sha = nat
  type Rule = nat

  datatype Arm = A_SINGLE_PASS | B_RANDOM_RETRY | C_BEST_OF_K | D_DIRECTED | E_FULL

  datatype Decision = DISABLED | NOT_APPLICABLE | PASSED | REJECTED

  datatype Kind =
    | SINGLE_PASS_COMPLETE | QA_PASSED | BUDGET_EXHAUSTED | GENERATION_FAILED | NO_ACTION_AVAILABLE | UNVERIFIABLE
    | NO_IMPROVEMENT | GUARDRAIL_REJECTED | OTHER(name: string)

  datatype SeedReason = INITIAL | RANDOM_RETRY | VERIFIER_CANDIDATE | FROZEN_REPAIR | SAMPLING_DEFECT_RETRY | UNKNOWN_REASON

  /** What an attempt was generated with. */
  datatype Pins = Pins(materials: Sha, models: Sha, runtime: Sha)

  datatype Attempt = Attempt(
    generationIndex: int,
    generated: bool,
    artifact: Option<Sha>,
    qaResult: Option<Sha>,
    qaPass: bool,
    utility: Option<real>,
    utilityResult: Option<Sha>,
    utilityContract: Option<Sha>,
    guardrail: Decision,
    action: Option<Sha>,
    rules: seq<Rule>,
    seed: int,
    seedReason: SeedReason,
    request: Sha,
    pins: Pins)

  datatype StopEvent = StopEvent(index: Option<nat>, guardrail: Decision, kind: Kind, action: Option<Sha>, rules: seq<Rule>)

  // The validator

  predicate Plain(event: StopEvent, lastIndex: int) {
    && event.index.Some? && event.index.value == lastIndex
    && event.guardrail == NOT_APPLICABLE && event.action.None? && event.rules == []
  }

  predicate EarlyRepair(arm: Arm, attempts: seq<Attempt>, event: StopEvent)
    requires attempts != []
  {
    var last := attempts[|attempts| - 1];
    var atLast := event.index == Some(|attempts| - 1);
    match event.kind
    case GENERATION_FAILED =>
      atLast && !last.generated && event.guardrail == NOT_APPLICABLE && event.action.None? && event.rules == []
    case NO_ACTION_AVAILABLE =>
      event.index.None? && event.guardrail == NOT_APPLICABLE && event.action.None? && event.rules != []
    case UNVERIFIABLE =>
      atLast && last.generated && event.guardrail == NOT_APPLICABLE && event.action.None? && event.rules != []
    case NO_IMPROVEMENT =>
      && arm == E_FULL && atLast && last.generated && event.guardrail == PASSED
      && event.action == last.action && event.rules == last.rules && event.rules != []
    case GUARDRAIL_REJECTED =>
      arm == E_FULL && event.index.None? && event.guardrail == REJECTED && event.action.Some? && event.rules != []
    case _ => false
  }

  predicate Passes(attempts: seq<Attempt>) {
    exists a | a in attempts :: a.qaPass
  }

  predicate ValidStop(arm: Arm, attempts: seq<Attempt>, maximum: nat, event: StopEvent)
    requires attempts != []
  {
    var passed, plain := Passes(attempts), Plain(event, |attempts| - 1);
    var passedStop := passed && event.kind == QA_PASSED && plain;
    var exhausted := !passed && |attempts| == maximum && event.kind == BUDGET_EXHAUSTED && plain;
    match arm
    case A_SINGLE_PASS => |attempts| == 1 && event.kind == SINGLE_PASS_COMPLETE && plain
    case B_RANDOM_RETRY => passedStop || exhausted
    case C_BEST_OF_K => |attempts| == maximum && event.kind == BUDGET_EXHAUSTED && plain
    case _ => passedStop || exhausted || (!passed && |attempts| < maximum && EarlyRepair(arm, attempts, event))
  }

  /** The attempts that left an artifact. */
  function WithArtifact(attempts: seq<Attempt>): (r: seq<Attempt>)
    ensures forall a :: a in r <==> a in attempts && a.artifact.Some?
  {
    if attempts == [] then [] else
    var shorter, last := WithArtifact(attempts[..|attempts| - 1]), attempts[|attempts| - 1];
    if last.artifact.Some? then shorter + [last] else shorter
  }

  /** max(float(score)); None is the error of a missing score. */
  function Best(generated: seq<Attempt>): Option<real>
    requires generated != []
  {
    var last := generated[|generated| - 1].utility;
    if |generated| == 1 then last else
    match (Best(generated[..|generated| - 1]), last)
    case (Some(u), Some(v)) => Some(if v > u then v else u)
    case _ => None
  }

  function FirstWith(generated: seq<Attempt>, score: real): Option<Attempt> {
    if generated == [] then None
    else if generated[0].utility == Some(score) then Some(generated[0])
    else FirstWith(generated[1..], score)
  }

  /** validate_stopping, for the attempts and the candidate that the record checks have let through. */
  predicate ValidStopping(arm: Arm, attempts: seq<Attempt>, candidate: Option<Sha>, maximum: nat, event: StopEvent)
    requires attempts != [] && (candidate.Some? ==> WithArtifact(attempts) != [])
  {
    var generated := WithArtifact(attempts);
    && ValidStop(arm, attempts, maximum, event)
    && if arm == C_BEST_OF_K then
         candidate.Some? ==>
           && Best(generated).Some?
           && var selected := FirstWith(generated, Best(generated).value);
           selected.Some? && candidate == selected.value.artifact
       else
         && (forall i | 0 <= i < |attempts| - 1 :: !attempts[i].qaPass)
         && (candidate.Some? ==> candidate == generated[|generated| - 1].artifact)
  }

  /** Accepted by the stop contract, for a record whose candidate is missing exactly when no attempt left an artifact
      and whose event points at one of its attempts. */
  predicate Accepted(arm: Arm, attempts: seq<Attempt>, candidate: Option<Sha>, maximum: nat, event: StopEvent) {
    && 0 < |attempts| <= maximum
    && (candidate.None? <==> WithArtifact(attempts) == [])
    && (event.index.Some? ==> event.index.value < |attempts|)
    && ValidStopping(arm, attempts, candidate, maximum, event)
  }

  // The loop

  /** `chosen` is the attempt whose artifact would be handed over now. */
  datatype Loop =
    | Running(attempts: seq<Attempt>, chosen: Option<Attempt>)
    | Stopped(attempts: seq<Attempt>, event: StopEvent, candidate: Option<Sha>)

  /** Why a repair arm gives up before its budget is spent: nothing was generated; the result cannot be checked; rules fail
      and no action repairs them; the guardrail rejects the proposed action; a repair was no improvement. */
  datatype Early =
    | NothingGenerated | CannotCheck(rules: seq<Rule>) | NoAction(rules: seq<Rule>)
    | Vetoed(action: Sha, rules: seq<Rule>) | NotBetter

  datatype Move = Generate(attempt: Attempt) | Finish | GiveUp(why: Early)

  const Start := Running([], None)

  predicate MayGenerate(arm: Arm, maximum: nat, attempts: seq<Attempt>) {
    && |attempts| < maximum
    && match arm
       case A_SINGLE_PASS => attempts == []
       case C_BEST_OF_K => true
       case _ => attempts == [] || !attempts[|attempts| - 1].qaPass
  }

  /** Arm C cannot rank an artifact without a score. */
  predicate Rankable(arm: Arm, a: Attempt) {
    arm == C_BEST_OF_K && a.artifact.Some? ==> a.utility.Some?
  }

  /** The plain event that ends the loop here, if one must. */
  function FinalKind(arm: Arm, maximum: nat, attempts: seq<Attempt>): Option<Kind>
    requires attempts != []
  {
    var passed := attempts[|attempts| - 1].qaPass;
    match arm
    case A_SINGLE_PASS => Some(SINGLE_PASS_COMPLETE)
    case C_BEST_OF_K => if |attempts| == maximum then Some(BUDGET_EXHAUSTED) else None
    case _ => if passed then Some(QA_PASSED) else if |attempts| == maximum then Some(BUDGET_EXHAUSTED) else None
  }

  /** What a repair arm may find after its last attempt. Only arm E has a guardrail and compares a repair with the result
      before it. */
  predicate MayGiveUp(arm: Arm, last: Attempt, why: Early) {
    match why
    case NothingGenerated => !last.generated
    case CannotCheck(rules) => last.generated && rules != []
    case NoAction(rules) => rules != []
    case Vetoed(_, rules) => arm == E_FULL && rules != []
    case NotBetter => arm == E_FULL && last.generated && last.rules != []
  }

  /** How that is recorded: what concerns the last attempt names it, what concerns a next one names none. */
  function Recorded(attempts: seq<Attempt>, why: Early): StopEvent
    requires attempts != []
  {
    var n := |attempts| - 1;
    match why
    case NothingGenerated => StopEvent(Some(n), NOT_APPLICABLE, GENERATION_FAILED, None, [])
    case CannotCheck(rules) => StopEvent(Some(n), NOT_APPLICABLE, UNVERIFIABLE, None, rules)
    case NoAction(rules) => StopEvent(None, NOT_APPLICABLE, NO_ACTION_AVAILABLE, None, rules)
    case Vetoed(action, rules) => StopEvent(None, REJECTED, GUARDRAIL_REJECTED, Some(action), rules)
    case NotBetter => StopEvent(Some(n), PASSED, NO_IMPROVEMENT, attempts[n].action, attempts[n].rules)
  }

  ghost predicate MayStop(arm: Arm, maximum: nat, attempts: seq<Attempt>, event: StopEvent) {
    exists move :: Stops(arm, maximum, attempts, move, event)
  }

  /** The move ends the loop after these attempts, and this is what is recorded. */
  predicate Stops(arm: Arm, maximum: nat, attempts: seq<Attempt>, move: Move, event: StopEvent) {
    && attempts != []
    && match (FinalKind(arm, maximum, attempts), move)
       case (Some(kind), Finish) => event == StopEvent(Some(|attempts| - 1), NOT_APPLICABLE, kind, None, [])
       case (None, GiveUp(why)) =>
         arm in {D_DIRECTED, E_FULL} && MayGiveUp(arm, attempts[|attempts| - 1], why) && event == Recorded(attempts, why)
       case _ => false
  }

  /** Arm C keeps the best so far and gives way only to a better one; the others keep the latest. */
  function Choose(arm: Arm, chosen: Option<Attempt>, a: Attempt): Option<Attempt>
    requires Rankable(arm, a) && (chosen.Some? ==> chosen.value.artifact.Some? && Rankable(arm, chosen.value))
  {
    if a.artifact.None? then chosen
    else if arm == C_BEST_OF_K && chosen.Some? && a.utility.value <= chosen.value.utility.value then chosen
    else Some(a)
  }

  ghost predicate Step(arm: Arm, maximum: nat, before: Loop, move: Move, after: Loop) {
    before.Running? &&
    match move
    case Generate(a) =>
      && MayGenerate(arm, maximum, before.attempts) && Rankable(arm, a)
      && (before.chosen.Some? ==> before.chosen.value.artifact.Some? && Rankable(arm, before.chosen.value))
      && after == Running(before.attempts + [a], Choose(arm, before.chosen, a))
    case _ =>
      && after.Stopped? && Stops(arm, maximum, before.attempts, move, after.event)
      && after.attempts == before.attempts
      && after.candidate == if before.chosen.Some? then before.chosen.value.artifact else None
  }

  ghost predicate Run(arm: Arm, maximum: nat, loops: seq<Loop>, moves: seq<Move>) {
    && |loops| == |moves| + 1 && loops[0] == Start
    && forall i :: 0 <= i < |moves| ==> Step(arm, maximum, loops[i], moves[i], loops[i + 1])
  }

  ghost predicate CompletesWith(arm: Arm, maximum: nat, attempts: seq<Attempt>, candidate: Option<Sha>, event: StopEvent) {
    exists loops, moves ::
      Run(arm, maximum, loops, moves) && loops[|loops| - 1] == Stopped(attempts, event, candidate)
  }

  /** What the loop has chosen after these attempts, when it can get there at all. */
  predicate Reachable(arm: Arm, maximum: nat, attempts: seq<Attempt>) {
    forall i | 0 <= i < |attempts| :: MayGenerate(arm, maximum, attempts[..i]) && Rankable(arm, attempts[i])
  }

  function Chosen(arm: Arm, attempts: seq<Attempt>): (c: Option<Attempt>)
    requires forall a :: a in attempts ==> Rankable(arm, a)
    ensures c.Some? ==> c.value in attempts && c.value.artifact.Some?
  {
    if attempts == [] then None
    else Choose(arm, Chosen(arm, attempts[..|attempts| - 1]), attempts[|attempts| - 1])
  }

  // The two agree

  /** A complete run is a reachable sequence of attempts, an allowed stop, and the choice made on the way. */
  ghost predicate CompleteRun(arm: Arm, maximum: nat, attempts: seq<Attempt>, candidate: Option<Sha>, event: StopEvent) {
    && Reachable(arm, maximum, attempts)
    && MayStop(arm, maximum, attempts, event)
    && var chosen := Chosen(arm, attempts);
    candidate == if chosen.Some? then chosen.value.artifact else None
  }

  lemma ReachOneMore(arm: Arm, maximum: nat, attempts: seq<Attempt>, a: Attempt)
    requires Reachable(arm, maximum, attempts)
    ensures Reachable(arm, maximum, attempts + [a]) <==> MayGenerate(arm, maximum, attempts) && Rankable(arm, a)
  {
    var more := attempts + [a];
    assert more[..|attempts|] == attempts && more[|attempts|] == a;
    forall i | 0 <= i < |attempts|
      ensures more[..i] == attempts[..i] && more[i] == attempts[i]
    {
    }
  }

  lemma ReachOneLess(arm: Arm, maximum: nat, attempts: seq<Attempt>)
    requires attempts != [] && Reachable(arm, maximum, attempts)
    ensures var n := |attempts| - 1;
            && Reachable(arm, maximum, attempts[..n]) && MayGenerate(arm, maximum, attempts[..n]) && Rankable(arm, attempts[n])
            && attempts == attempts[..n] + [attempts[n]]
  {
    var shorter := attempts[..|attempts| - 1];
    forall i | 0 <= i < |shorter|
      ensures MayGenerate(arm, maximum, shorter[..i]) && Rankable(arm, shorter[i])
    {
      assert shorter[..i] == attempts[..i] && shorter[i] == attempts[i];
    }
  }

  lemma {:induction false} RunsReach(arm: Arm, maximum: nat, loops: seq<Loop>, moves: seq<Move>, i: nat)
    requires Run(arm, maximum, loops, moves) && i < |loops| && loops[i].Running?
    ensures Reachable(arm, maximum, loops[i].attempts) && loops[i].chosen == Chosen(arm, loops[i].attempts)
  {
    if i > 0 {
      var before := loops[i - 1];
      assert Step(arm, maximum, before, moves[i - 1], loops[i]);
      RunsReach(arm, maximum, loops, moves, i - 1);
      ReachOneMore(arm, maximum, before.attempts, moves[i - 1].attempt);
      assert loops[i].attempts[..|before.attempts|] == before.attempts;
    }
  }

  lemma {:induction false} SomeRunReaches(arm: Arm, maximum: nat, attempts: seq<Attempt>)
    returns (loops: seq<Loop>, moves: seq<Move>)
    requires Reachable(arm, maximum, attempts)
    ensures Run(arm, maximum, loops, moves) && loops[|loops| - 1] == Running(attempts, Chosen(arm, attempts))
  {
    if attempts == [] {
      return [Start], [];
    }
    var shorter, last := attempts[..|attempts| - 1], attempts[|attempts| - 1];
    ReachOneLess(arm, maximum, attempts);
    loops, moves := SomeRunReaches(arm, maximum, shorter);
    var next := Running(attempts, Chosen(arm, attempts));
    assert Step(arm, maximum, loops[|moves|], Generate(last), next);
    loops, moves := Extend(arm, maximum, loops, moves, Generate(last), next);
  }

  lemma Extend(arm: Arm, maximum: nat, loops: seq<Loop>, moves: seq<Move>, move: Move, next: Loop)
    returns (loops': seq<Loop>, moves': seq<Move>)
    requires Run(arm, maximum, loops, moves) && Step(arm, maximum, loops[|moves|], move, next)
    ensures Run(arm, maximum, loops', moves') && loops' == loops + [next] && moves' == moves + [move]
  {
    loops', moves' := loops + [next], moves + [move];
    forall i | 0 <= i < |moves'|
      ensures Step(arm, maximum, loops'[i], moves'[i], loops'[i + 1])
    {
      if i < |moves| {
        assert Step(arm, maximum, loops[i], moves[i], loops[i + 1]);
      }
    }
  }

  lemma CompletesWithCompleteRuns(arm: Arm, maximum: nat, attempts: seq<Attempt>, candidate: Option<Sha>, event: StopEvent)
    ensures CompletesWith(arm, maximum, attempts, candidate, event) <==> CompleteRun(arm, maximum, attempts, candidate, event)
  {
    if CompletesWith(arm, maximum, attempts, candidate, event) {
      var loops, moves :|
        Run(arm, maximum, loops, moves) && loops[|loops| - 1] == Stopped(attempts, event, candidate);
      var n := |moves| - 1;
      assert Step(arm, maximum, loops[n], moves[n], loops[n + 1]);
      RunsReach(arm, maximum, loops, moves, n);
    }
    if CompleteRun(arm, maximum, attempts, candidate, event) {
      var loops, moves := SomeRunReaches(arm, maximum, attempts);
      var move :| Stops(arm, maximum, attempts, move, event);
      loops, moves := Extend(arm, maximum, loops, moves, move, Stopped(attempts, event, candidate));
    }
  }

  lemma {:induction false} BestIsAnUpperBound(generated: seq<Attempt>)
    requires generated != [] && Best(generated).Some?
    ensures forall a :: a in generated ==> a.utility.Some? && a.utility.value <= Best(generated).value
  {
    if |generated| > 1 {
      BestIsAnUpperBound(generated[..|generated| - 1]);
      forall a | a in generated
        ensures a.utility.Some? && a.utility.value <= Best(generated).value
      {
        assert a in generated[..|generated| - 1] || a == generated[|generated| - 1];
      }
    }
  }

  lemma {:induction false} FirstWithAppended(generated: seq<Attempt>, last: Attempt, score: real)
    ensures FirstWith(generated + [last], score) ==
            if FirstWith(generated, score).Some? then FirstWith(generated, score)
            else if last.utility == Some(score) then Some(last) else None
  {
    if generated != [] {
      assert (generated + [last])[1..] == generated[1..] + [last];
      FirstWithAppended(generated[1..], last, score);
    }
  }

  lemma {:induction false} NoneWith(generated: seq<Attempt>, score: real)
    requires forall a :: a in generated ==> a.utility != Some(score)
    ensures FirstWith(generated, score).None?
  {
    if generated != [] {
      NoneWith(generated[1..], score);
    }
  }

  /** Keeping the latest artifact is the same as taking the last one in the end. */
  lemma {:induction false} LatestIsLast(arm: Arm, attempts: seq<Attempt>)
    requires arm != C_BEST_OF_K
    ensures var generated := WithArtifact(attempts);
            Chosen(arm, attempts) == if generated == [] then None else Some(generated[|generated| - 1])
  {
    if attempts != [] {
      LatestIsLast(arm, attempts[..|attempts| - 1]);
    }
  }

  /** Keeping the best so far, and giving way only to a better one, is the same as taking the earliest of the best in the
      end. */
  lemma {:induction false} BestSoFarIsEarliestBest(attempts: seq<Attempt>)
    requires forall a :: a in attempts ==> Rankable(C_BEST_OF_K, a)
    ensures var generated, chosen := WithArtifact(attempts), Chosen(C_BEST_OF_K, attempts);
            && (chosen.None? <==> generated == [])
            && (chosen.Some? ==>
                  && Best(generated) == chosen.value.utility && Best(generated).Some?
                  && FirstWith(generated, Best(generated).value) == chosen)
  {
    if attempts != [] {
      var shorter, last := attempts[..|attempts| - 1], attempts[|attempts| - 1];
      BestSoFarIsEarliestBest(shorter);
      if last.artifact.Some? {
        assert last in attempts;
        EarliestBestOfMore(WithArtifact(shorter), last);
      }
    }
  }

  lemma EarliestBestOfMore(generated: seq<Attempt>, last: Attempt)
    requires last.utility.Some?
    requires generated != [] ==> Best(generated).Some? && FirstWith(generated, Best(generated).value).Some?
    ensures var better := generated == [] || last.utility.value > Best(generated).value;
            && Best(generated + [last]) == (if better then last.utility else Best(generated))
            && FirstWith(generated + [last], Best(generated + [last]).value)
               == if better then Some(last) else FirstWith(generated, Best(generated).value)
  {
    assert (generated + [last])[..|generated|] == generated;
    FirstWithAppended(generated, last, Best(generated + [last]).value);
    if generated != [] {
      BestIsAnUpperBound(generated);
      if last.utility.value > Best(generated).value {
        NoneWith(generated, last.utility.value);
      }
    }
  }

  lemma {:induction false} BestNeedsScores(generated: seq<Attempt>)
    requires generated != []
    ensures Best(generated).Some? <==> forall a :: a in generated ==> a.utility.Some?
  {
    if |generated| > 1 {
      var shorter := generated[..|generated| - 1];
      BestNeedsScores(shorter);
      forall a | a in generated
        ensures a in shorter || a == generated[|generated| - 1]
      {
      }
    }
  }

  /** Which attempt sequences the loop can go through. */
  lemma WhichAttempts(arm: Arm, maximum: nat, attempts: seq<Attempt>)
    requires attempts != []
    ensures Reachable(arm, maximum, attempts) <==>
            && |attempts| <= maximum
            && (forall a :: a in attempts ==> Rankable(arm, a))
            && match arm
               case A_SINGLE_PASS => |attempts| == 1
               case C_BEST_OF_K => true
               case _ => forall i :: 0 <= i < |attempts| - 1 ==> !attempts[i].qaPass
  {
    var n := |attempts| - 1;
    if Reachable(arm, maximum, attempts) {
      assert MayGenerate(arm, maximum, attempts[..n]);
      forall i | 0 <= i < n
        ensures arm !in {A_SINGLE_PASS, C_BEST_OF_K} ==> !attempts[i].qaPass
        ensures arm != A_SINGLE_PASS
      {
        assert MayGenerate(arm, maximum, attempts[..i + 1]);
        assert attempts[..i + 1][i] == attempts[i];
      }
    }
  }

  lemma PassedOnlyAtTheEnd(attempts: seq<Attempt>)
    requires attempts != [] && forall i :: 0 <= i < |attempts| - 1 ==> !attempts[i].qaPass
    ensures Passes(attempts) <==> attempts[|attempts| - 1].qaPass
  {
    var last := attempts[|attempts| - 1];
    assert last in attempts;
  }

  lemma PlainEvents(event: StopEvent, n: nat, kind: Kind)
    ensures Plain(event, n) && event.kind == kind <==> event == StopEvent(Some(n), NOT_APPLICABLE, kind, None, [])
  {
  }

  /** The stop contract accepts exactly the complete runs of the arm's loop. */
  lemma ValidatorIsTheLoop(arm: Arm, maximum: nat, attempts: seq<Attempt>, candidate: Option<Sha>, event: StopEvent)
    ensures Accepted(arm, attempts, candidate, maximum, event) <==> CompletesWith(arm, maximum, attempts, candidate, event)
  {
    CompletesWithCompleteRuns(arm, maximum, attempts, candidate, event);
    if attempts != [] {
      WhichAttempts(arm, maximum, attempts);
      if arm == C_BEST_OF_K {
        RankedArm(maximum, attempts, candidate, event);
      } else {
        OtherArms(arm, maximum, attempts, candidate, event);
      }
    }
  }

  lemma RankedArm(maximum: nat, attempts: seq<Attempt>, candidate: Option<Sha>, event: StopEvent)
    requires attempts != []
    ensures Accepted(C_BEST_OF_K, attempts, candidate, maximum, event) <==> CompleteRun(C_BEST_OF_K, maximum, attempts, candidate, event)
  {
    WhichAttempts(C_BEST_OF_K, maximum, attempts);
    PlainEvents(event, |attempts| - 1, BUDGET_EXHAUSTED);
    StopMoves(C_BEST_OF_K, maximum, attempts, event);
    var generated := WithArtifact(attempts);
    if generated != [] {
      BestNeedsScores(generated);
    }
    if forall a :: a in attempts ==> Rankable(C_BEST_OF_K, a) {
      BestSoFarIsEarliestBest(attempts);
    } else {
      var a :| a in attempts && !Rankable(C_BEST_OF_K, a);
      assert a in generated;
    }
  }

  lemma OtherArms(arm: Arm, maximum: nat, attempts: seq<Attempt>, candidate: Option<Sha>, event: StopEvent)
    requires attempts != [] && arm != C_BEST_OF_K
    ensures Accepted(arm, attempts, candidate, maximum, event) <==> CompleteRun(arm, maximum, attempts, candidate, event)
  {
    WhichAttempts(arm, maximum, attempts);
    LatestIsLast(arm, attempts);
    if forall i :: 0 <= i < |attempts| - 1 ==> !attempts[i].qaPass {
      StopsAgree(arm, maximum, attempts, event);
    }
  }

  /** For attempts of which only the last may have passed, the validator allows a stop exactly where the loop does. */
  lemma StopsAgree(arm: Arm, maximum: nat, attempts: seq<Attempt>, event: StopEvent)
    requires 0 < |attempts| && arm != C_BEST_OF_K && forall i :: 0 <= i < |attempts| - 1 ==> !attempts[i].qaPass
    ensures |attempts| <= maximum && (arm == A_SINGLE_PASS ==> |attempts| == 1) ==>
              (ValidStop(arm, attempts, maximum, event) <==> MayStop(arm, maximum, attempts, event))
    ensures ValidStop(arm, attempts, maximum, event) && arm == A_SINGLE_PASS ==> |attempts| == 1
    ensures MayStop(arm, maximum, attempts, event) ==> event.index.Some? ==> event.index.value < |attempts|
  {
    PassedOnlyAtTheEnd(attempts);
    PlainEvents(event, |attempts| - 1, SINGLE_PASS_COMPLETE);
    PlainEvents(event, |attempts| - 1, QA_PASSED);
    PlainEvents(event, |attempts| - 1, BUDGET_EXHAUSTED);
    StopMoves(arm, maximum, attempts, event);
    if arm in {D_DIRECTED, E_FULL} {
      EarlyStopsAgree(arm, attempts, event);
    }
  }

  /** The loop stops by finishing where it must, and otherwise by giving up. */
  lemma StopMoves(arm: Arm, maximum: nat, attempts: seq<Attempt>, event: StopEvent)
    requires attempts != []
    ensures MayStop(arm, maximum, attempts, event) <==>
            match FinalKind(arm, maximum, attempts)
            case Some(kind) => event == StopEvent(Some(|attempts| - 1), NOT_APPLICABLE, kind, None, [])
            case None =>
              arm in {D_DIRECTED, E_FULL}
              && exists why :: MayGiveUp(arm, attempts[|attempts| - 1], why) && event == Recorded(attempts, why)
  {
    match FinalKind(arm, maximum, attempts)
    case Some(kind) =>
      assert Stops(arm, maximum, attempts, Finish, StopEvent(Some(|attempts| - 1), NOT_APPLICABLE, kind, None, []));
    case None =>
      if why :| arm in {D_DIRECTED, E_FULL} && MayGiveUp(arm, attempts[|attempts| - 1], why) && event == Recorded(attempts, why) {
        assert Stops(arm, maximum, attempts, GiveUp(why), event);
      }
  }

  /** The early stops that the validator lets through are exactly those that the loop can record. */
  lemma EarlyStopsAgree(arm: Arm, attempts: seq<Attempt>, event: StopEvent)
    requires attempts != [] && arm in {D_DIRECTED, E_FULL}
    ensures EarlyRepair(arm, attempts, event) <==>
            exists why :: MayGiveUp(arm, attempts[|attempts| - 1], why) && event == Recorded(attempts, why)
  {
    var last := attempts[|attempts| - 1];
    if EarlyRepair(arm, attempts, event) {
      var why :=
        match event.kind
        case GENERATION_FAILED => NothingGenerated
        case UNVERIFIABLE => CannotCheck(event.rules)
        case NO_ACTION_AVAILABLE => NoAction(event.rules)
        case GUARDRAIL_REJECTED => Vetoed(event.action.value, event.rules)
        case _ => NotBetter;
      assert MayGiveUp(arm, last, why) && event == Recorded(attempts, why);
    }
  }
}
