/** The statistics of a formal evaluation: human majorities, counts by arm, and the paired bootstrap. */
module EvaluationStats {
  import opened Counting
  import opened Outcomes
  import opened StopContract
  import opened EvaluationEvidence

  datatype Label = Label(
    blindId: BlindId, rater: string, usable: bool, degraded: bool, style: bool, subject: bool, clarity: bool, rework: real)

  datatype Human = Human(usable: bool, degraded: bool, style: bool, subject: bool, clarity: bool, rework: real)

  function Sum(s: seq<real>): real {
    if s == [] then 0.0 else Sum(s[..|s| - 1]) + s[|s| - 1]
  }

  /** The sum of two lists together; of one number it is that number. */
  lemma {:induction false} SumOfBoth(s: seq<real>, t: seq<real>)
    ensures Sum(s + t) == Sum(s) + Sum(t) && forall x :: Sum([x]) == x
  {
    if t != [] {
      var n := |t| - 1;
      SumOfBoth(s, t[..n]);
      assert (s + t)[..|s| + n] == s + t[..n];
    } else {
      assert s + t == s;
    }
  }

  function Rate(count: nat, n: nat): real
    requires n > 0
  {
    count as real / n as real
  }

  // Human labels

  function LabelsOf(labels: seq<Label>, id: BlindId): seq<Label> {
    if labels == [] then [] else
    var shorter, last := LabelsOf(labels[..|labels| - 1], id), labels[|labels| - 1];
    if last.blindId == id then shorter + [last] else shorter
  }

  /** No rater labels an artifact twice. */
  ghost predicate OnceEach(labels: seq<Label>) {
    forall i, j :: 0 <= i < j < |labels| ==> labels[i].blindId != labels[j].blindId || labels[i].rater != labels[j].rater
  }

  /** The labels of artifacts of these records, each rater labelling an artifact once: and each labelled artifact has enough
      labels, and an odd number of them. */
  ghost predicate LabelsOk(labels: seq<Label>, records: seq<Record>, minimum: nat) {
    && (forall l :: l in labels ==> exists r :: r in records && r.blindId == Some(l.blindId))
    && OnceEach(labels)
    && (forall l :: l in labels ==>
          |LabelsOf(labels, l.blindId)| >= minimum && |LabelsOf(labels, l.blindId)| % 2 == 1)
  }

  /** Who has labelled an artifact. */
  function Raters(labels: seq<Label>, id: BlindId): set<string> {
    set l | l in labels && l.blindId == id :: l.rater
  }

  lemma {:induction false} AsManyRatersAsLabels(labels: seq<Label>, id: BlindId)
    requires OnceEach(labels)
    ensures |Raters(labels, id)| == |LabelsOf(labels, id)|
  {
    if labels != [] {
      var n := |labels| - 1;
      AsManyRatersAsLabels(labels[..n], id);
      assert Raters(labels, id) == Raters(labels[..n], id) + if labels[n].blindId == id then {labels[n].rater} else {};
    }
  }

  /** So each labelled artifact has been judged by an odd number of different raters, the minimum at least. */
  lemma AcceptedLabelsAreEnough(labels: seq<Label>, records: seq<Record>, minimum: nat)
    ensures LabelsOk(labels, records, minimum) <==>
              && OnceEach(labels)
              && forall i :: 0 <= i < |labels| ==>
                               && Some(labels[i].blindId) in BlindIds(records)
                               && |Raters(labels, labels[i].blindId)| >= minimum && |Raters(labels, labels[i].blindId)| % 2 == 1
  {
    if OnceEach(labels) {
      forall i | 0 <= i < |labels|
        ensures |Raters(labels, labels[i].blindId)| == |LabelsOf(labels, labels[i].blindId)|
      {
        AsManyRatersAsLabels(labels, labels[i].blindId);
      }
    }
    assert forall l :: l in labels ==> (Some(l.blindId) in BlindIds(records) <==> exists r :: r in records && r.blindId == Some(l.blindId));
  }

  function BlindIds(records: seq<Record>): set<Option<BlindId>> {
    set r | r in records :: r.blindId
  }

  lemma {:induction false} Labelled(labels: seq<Label>, id: BlindId)
    ensures LabelsOf(labels, id) != [] <==> exists i :: 0 <= i < |labels| && labels[i].blindId == id
  {
    if labels != [] {
      var n := |labels| - 1;
      Labelled(labels[..n], id);
      assert labels[n].blindId != id ==> forall i :: 0 <= i < |labels| && labels[i].blindId == id ==> labels[..n][i].blindId == id;
    }
  }

  lemma CountedLabelsOk(labels: seq<Label>, records: seq<Record>, minimum: nat, counts: map<BlindId, nat>)
    requires OnceEach(labels)
    requires forall id :: id in counts <==> LabelsOf(labels, id) != []
    requires forall id :: id in counts ==> counts[id] == |LabelsOf(labels, id)|
    ensures (forall id :: id in counts ==> Some(id) in BlindIds(records) && counts[id] >= minimum && counts[id] % 2 == 1)
       <==> LabelsOk(labels, records, minimum)
  {
    forall id
      ensures id in counts <==> exists l :: l in labels && l.blindId == id
    {
      Labelled(labels, id);
      if i :| 0 <= i < |labels| && labels[i].blindId == id {
        assert labels[i] in labels;
      }
    }
    assert forall id :: Some(id) in BlindIds(records) <==> exists r :: r in records && r.blindId == Some(id);
  }

  /** The checks of evidence.load_blind_evidence on the labels. */
  method CheckLabels(labels: seq<Label>, records: seq<Record>, minimum: nat) returns (ok: bool)
    ensures ok <==> LabelsOk(labels, records, minimum)
  {
    var pairs: set<(BlindId, string)>, counts: map<BlindId, nat> := {}, map[];
    for i := 0 to |labels|
      invariant forall k :: 0 <= k < i ==> (labels[k].blindId, labels[k].rater) in pairs
      invariant forall p :: p in pairs ==> exists k :: 0 <= k < i && p == (labels[k].blindId, labels[k].rater)
      invariant OnceEach(labels[..i])
      invariant forall id :: id in counts <==> LabelsOf(labels[..i], id) != []
      invariant forall id :: id in counts ==> counts[id] == |LabelsOf(labels[..i], id)|
    {
      var one := labels[i];
      if (one.blindId, one.rater) in pairs { return false; }
      assert labels[..i + 1][..i] == labels[..i];
      pairs := pairs + {(one.blindId, one.rater)};
      counts := counts[one.blindId := (if one.blindId in counts then counts[one.blindId] else 0) + 1];
    }
    assert labels[..|labels|] == labels;
    CountedLabelsOk(labels, records, minimum, counts);
    ok := forall id | id in counts :: Some(id) in BlindIds(records) && counts[id] >= minimum && counts[id] % 2 == 1;
  }

  predicate Majority(labels: seq<Label>, p: Label -> bool) {
    Count(labels, p) > |labels| / 2
  }

  /** A question and its negation get opposite answers exactly when the raters are not tied; an odd number never is. */
  lemma MajorityDecides(labels: seq<Label>, p: Label -> bool)
    ensures Majority(labels, p) <==> Count(labels, p) > Count(labels, Not(p))
    ensures Majority(labels, p) != Majority(labels, Not(p)) <==> 2 * Count(labels, p) != |labels|
    ensures |labels| % 2 == 1 ==> Majority(labels, p) != Majority(labels, Not(p))
  {
    YesAndNo(labels, p);
  }

  /** So the human outcome of every labelled artifact is decided, whatever the question. */
  lemma AcceptedLabelsDecide(labels: seq<Label>, records: seq<Record>, minimum: nat, one: Label, p: Label -> bool)
    requires LabelsOk(labels, records, minimum) && one in labels
    ensures Majority(LabelsOf(labels, one.blindId), p) != Majority(LabelsOf(labels, one.blindId), Not(p))
  {
    MajorityDecides(LabelsOf(labels, one.blindId), p);
  }

  function Judge(labels: seq<Label>): Human
    requires labels != []
  {
    Human(
      Majority(labels, (l: Label) => l.usable), Majority(labels, (l: Label) => l.degraded), Majority(labels, (l: Label) => l.style),
      Majority(labels, (l: Label) => l.subject), Majority(labels, (l: Label) => l.clarity),
      Sum(seq(|labels|, i requires 0 <= i < |labels| => labels[i].rework)) / |labels| as real)
  }

  /** The outcome says yes to a question exactly when more raters did than did not; the rework is the average. */
  ghost predicate IsVerdict(h: Human, labels: seq<Label>) {
    && (h.usable <==> Count(labels, (l: Label) => l.usable) > Count(labels, (l: Label) => !l.usable))
    && (h.degraded <==> Count(labels, (l: Label) => l.degraded) > Count(labels, (l: Label) => !l.degraded))
    && (h.style <==> Count(labels, (l: Label) => l.style) > Count(labels, (l: Label) => !l.style))
    && (h.subject <==> Count(labels, (l: Label) => l.subject) > Count(labels, (l: Label) => !l.subject))
    && (h.clarity <==> Count(labels, (l: Label) => l.clarity) > Count(labels, (l: Label) => !l.clarity))
    && h.rework * |labels| as real == Sum(seq(|labels|, i requires 0 <= i < |labels| => labels[i].rework))
  }

  lemma MoreYesThanNo(labels: seq<Label>, yes: Label -> bool, no: Label -> bool)
    requires forall l :: no(l) == !yes(l)
    ensures Majority(labels, yes) <==> Count(labels, yes) > Count(labels, no)
  {
    MajorityDecides(labels, yes);
    CountSame(labels, Not(yes), no);
  }

  lemma JudgeIsVerdict(labels: seq<Label>)
    requires labels != []
    ensures IsVerdict(Judge(labels), labels)
  {
    MoreYesThanNo(labels, (l: Label) => l.usable, (l: Label) => !l.usable);
    MoreYesThanNo(labels, (l: Label) => l.degraded, (l: Label) => !l.degraded);
    MoreYesThanNo(labels, (l: Label) => l.style, (l: Label) => !l.style);
    MoreYesThanNo(labels, (l: Label) => l.subject, (l: Label) => !l.subject);
    MoreYesThanNo(labels, (l: Label) => l.clarity, (l: Label) => !l.clarity);
  }

  /** stats._human_outcomes */
  method HumanOutcomes(labels: seq<Label>) returns (humans: map<BlindId, Human>)
    ensures forall id :: id in humans <==> LabelsOf(labels, id) != []
    ensures forall id :: id in humans ==> humans[id] == Judge(LabelsOf(labels, id))
    ensures forall id :: id in humans ==> IsVerdict(humans[id], LabelsOf(labels, id))
  {
    var grouped: map<BlindId, seq<Label>> := map[];
    for i := 0 to |labels|
      invariant forall id :: id in grouped <==> LabelsOf(labels[..i], id) != []
      invariant forall id :: id in grouped ==> grouped[id] == LabelsOf(labels[..i], id)
    {
      var one := labels[i];
      assert labels[..i + 1][..i] == labels[..i];
      grouped := grouped[one.blindId := (if one.blindId in grouped then grouped[one.blindId] else []) + [one]];
    }
    assert labels[..|labels|] == labels;
    humans := map id | id in grouped :: Judge(grouped[id]);
    forall id | id in humans
      ensures IsVerdict(humans[id], LabelsOf(labels, id))
    {
      JudgeIsVerdict(LabelsOf(labels, id));
    }
  }

  // Counts by arm

  /** Every artifact of these records has been labelled. */
  ghost predicate Complete(records: seq<Record>, humans: map<BlindId, Human>) {
    forall r :: r in records && r.blindId.Some? ==> r.blindId.value in humans
  }

  /** stats._record_outcome */
  function OutcomeOf(r: Record, humans: map<BlindId, Human>): Option<Human> {
    if r.blindId.Some? && r.blindId.value in humans then Some(humans[r.blindId.value]) else None
  }

  predicate Usable(r: Record, humans: map<BlindId, Human>) {
    OutcomeOf(r, humans).Some? && OutcomeOf(r, humans).value.usable
  }

  predicate Degraded(r: Record, humans: map<BlindId, Human>) {
    OutcomeOf(r, humans).None? || OutcomeOf(r, humans).value.degraded
  }

  predicate Approved(r: Record) {
    r.terminal == APPROVED
  }

  datatype ArmStatistics = ArmStatistics(
    inputs: nat, usableApproved: nat, approved: nat, falseAccepts: nat, falseRejects: nat, usable: nat,
    initialPasses: nat, finalPasses: nat, initialFailures: nat, repairSuccesses: nat, degraded: nat, missing: nat,
    terminals: map<Terminal, nat>)

  /** The counts of stats._arm_statistics. */
  function CountArm(records: seq<Record>, humans: map<BlindId, Human>): ArmStatistics {
    ArmStatistics(
      |records|,
      Count(records, r => Approved(r) && Usable(r, humans)),
      Count(records, r => Approved(r)),
      Count(records, r => Approved(r) && !Usable(r, humans)),
      Count(records, r => !Approved(r) && Usable(r, humans)),
      Count(records, r => Usable(r, humans)),
      Count(records, (r: Record) => r.initialPass),
      Count(records, (r: Record) => r.finalPass),
      Count(records, (r: Record) => !r.initialPass),
      Count(records, (r: Record) => !r.initialPass && r.finalPass),
      Count(records, r => Degraded(r, humans)),
      Count(records, r => OutcomeOf(r, humans).None?),
      TerminalCounts(records))
  }

  function TerminalCounts(records: seq<Record>): map<Terminal, nat> {
    map[APPROVED := Count(records, (r: Record) => r.terminal == APPROVED),
        Terminal.REJECTED := Count(records, (r: Record) => r.terminal == Terminal.REJECTED),
        MANUAL_REVIEW := Count(records, (r: Record) => r.terminal == MANUAL_REVIEW),
        Terminal.FAILED := Count(records, (r: Record) => r.terminal == Terminal.FAILED)]
  }

  lemma CountMore(records: seq<Record>, r: Record)
    ensures forall p: Record -> bool :: Count(records + [r], p) == Count(records, p) + (if p(r) then 1 else 0)
  {
    assert (records + [r])[..|records|] == records;
  }

  lemma ArmOneMore(records: seq<Record>, r: Record, humans: map<BlindId, Human>)
    ensures CountArm(records + [r], humans) == AddRecord(CountArm(records, humans), r, humans)
  {
    ApprovalsOneMore(records, r, humans);
    PassesOneMore(records, r, humans);
    TerminalsOneMore(records, r);
  }

  lemma ApprovalsOneMore(records: seq<Record>, r: Record, humans: map<BlindId, Human>)
    ensures var (s, t) := (CountArm(records + [r], humans), AddRecord(CountArm(records, humans), r, humans));
            && s.inputs == t.inputs && s.usableApproved == t.usableApproved && s.approved == t.approved
            && s.falseAccepts == t.falseAccepts && s.falseRejects == t.falseRejects && s.usable == t.usable
            && s.degraded == t.degraded && s.missing == t.missing
  {
    CountMore(records, r);
  }

  lemma PassesOneMore(records: seq<Record>, r: Record, humans: map<BlindId, Human>)
    ensures var (s, t) := (CountArm(records + [r], humans), AddRecord(CountArm(records, humans), r, humans));
            && s.initialPasses == t.initialPasses && s.finalPasses == t.finalPasses && s.initialFailures == t.initialFailures
            && s.repairSuccesses == t.repairSuccesses
  {
    CountMore(records, r);
  }

  lemma TerminalsOneMore(records: seq<Record>, r: Record)
    ensures TerminalCounts(records + [r]) == AddTerminal(TerminalCounts(records), r.terminal)
  {
    CountMore(records, r);
  }

  /** stats._arm_statistics: the sums over the records of one arm. */
  method ArmStatisticsOf(records: seq<Record>, humans: map<BlindId, Human>) returns (s: ArmStatistics)
    ensures s == CountArm(records, humans)
  {
    s := ArmStatistics(0, 0, 0, 0, 0, 0, 0, 0, 0, 0, 0, 0, NO_TERMINALS);
    for i := 0 to |records|
      invariant s == CountArm(records[..i], humans)
    {
      assert records[..i + 1] == records[..i] + [records[i]];
      ArmOneMore(records[..i], records[i], humans);
      s := AddRecord(s, records[i], humans);
    }
    assert records[..|records|] == records;
  }

  const NO_TERMINALS: map<Terminal, nat> := map[APPROVED := 0, Terminal.REJECTED := 0, MANUAL_REVIEW := 0, Terminal.FAILED := 0]

  /** One more record: what it adds to each sum. An artifact without a human outcome counts as degraded. */
  function AddRecord(s: ArmStatistics, r: Record, humans: map<BlindId, Human>): ArmStatistics {
    var labelled := r.blindId.Some? && r.blindId.value in humans;
    var approved, usable := r.terminal == APPROVED, labelled && humans[r.blindId.value].usable;
    ArmStatistics(
      s.inputs + 1,
      if approved && usable then s.usableApproved + 1 else s.usableApproved,
      if approved then s.approved + 1 else s.approved,
      if approved && !usable then s.falseAccepts + 1 else s.falseAccepts,
      if usable && !approved then s.falseRejects + 1 else s.falseRejects,
      if usable then s.usable + 1 else s.usable,
      if r.initialPass then s.initialPasses + 1 else s.initialPasses,
      if r.finalPass then s.finalPasses + 1 else s.finalPasses,
      if r.initialPass then s.initialFailures else s.initialFailures + 1,
      if r.finalPass && !r.initialPass then s.repairSuccesses + 1 else s.repairSuccesses,
      if labelled && !humans[r.blindId.value].degraded then s.degraded else s.degraded + 1,
      if labelled then s.missing else s.missing + 1,
      AddTerminal(s.terminals, r.terminal))
  }

  function AddTerminal(terminals: map<Terminal, nat>, terminal: Terminal): map<Terminal, nat> {
    if terminal in terminals then terminals[terminal := terminals[terminal] + 1] else terminals
  }

  /** Initial passes that were given up for a better score. */
  function LostPasses(records: seq<Record>): nat {
    Count(records, (r: Record) => r.initialPass && !r.finalPass)
  }

  /** What the ledger checks say about each record of an arm. */
  lemma AcceptedRecords(p: Protocol, records: seq<Record>, arm: Arm, r: Record)
    requires LedgerOk(p, records) && r in ByArm(records, arm)
    ensures r.finalPass == Approved(r) && r.terminal != UNKNOWN_TERMINAL
    ensures r.blindId.None? <==> r.terminal == Terminal.FAILED
    ensures arm != C_BEST_OF_K && r.initialPass ==> r.finalPass
    ensures arm == A_SINGLE_PASS ==> r.finalPass == r.initialPass
  {
    ArmsLineUp(p, records, arm);
    var i :| 0 <= i < |p.inputs| && ByArm(records, arm)[i] == r;
    assert RecordOk(p, p.inputs[i], arm, r);
    InitialPassIsFinal(p, r);
  }

  /** Human judgement and machine decision partition the approved and the usable records. */
  lemma AcceptsAndRejectsAddUp(records: seq<Record>, humans: map<BlindId, Human>)
    ensures var s := CountArm(records, humans);
            && s.falseAccepts + s.usableApproved == s.approved
            && s.falseRejects + s.usableApproved == s.usable
  {
    CountSplits(records, (r: Record) => Approved(r) && !Usable(r, humans), (r: Record) => Approved(r) && Usable(r, humans),
                (r: Record) => Approved(r));
    CountSplits(records, (r: Record) => !Approved(r) && Usable(r, humans), (r: Record) => Approved(r) && Usable(r, humans),
                (r: Record) => Usable(r, humans));
  }

  /** The final pass rate of every arm is its automation coverage, and its terminals add up to its inputs. */
  lemma FinalPassesAreApprovals(p: Protocol, records: seq<Record>, arm: Arm, humans: map<BlindId, Human>)
    requires LedgerOk(p, records)
    ensures var s := CountArm(ByArm(records, arm), humans);
            && s.inputs == |p.inputs|
            && s.finalPasses == s.approved == s.terminals[APPROVED]
            && s.terminals[APPROVED] + s.terminals[Terminal.REJECTED] + s.terminals[MANUAL_REVIEW]
               + s.terminals[Terminal.FAILED] == s.inputs
  {
    ArmsLineUp(p, records, arm);
    DecidedRecords(p, records, arm);
    CountFinalPasses(ByArm(records, arm), humans);
    TerminalsOfArm(ByArm(records, arm), humans);
  }

  lemma DecidedRecords(p: Protocol, records: seq<Record>, arm: Arm)
    requires LedgerOk(p, records)
    ensures forall r :: r in ByArm(records, arm) ==> r.finalPass == Approved(r) && r.terminal != UNKNOWN_TERMINAL
  {
    forall r | r in ByArm(records, arm)
      ensures r.finalPass == Approved(r) && r.terminal != UNKNOWN_TERMINAL
    {
      AcceptedRecords(p, records, arm, r);
    }
  }

  lemma TerminalsOfArm(records: seq<Record>, humans: map<BlindId, Human>)
    requires forall r :: r in records ==> r.terminal != UNKNOWN_TERMINAL
    ensures var terminals := CountArm(records, humans).terminals;
            terminals[APPROVED] + terminals[Terminal.REJECTED] + terminals[MANUAL_REVIEW] + terminals[Terminal.FAILED] == |records|
  {
    TerminalsAddUp(records);
  }

  lemma CountFinalPasses(records: seq<Record>, humans: map<BlindId, Human>)
    requires forall r :: r in records ==> r.finalPass == Approved(r)
    ensures var s := CountArm(records, humans); s.finalPasses == s.approved == s.terminals[APPROVED]
  {
    CountSame(records, (r: Record) => r.finalPass, r => Approved(r));
    CountSame(records, (r: Record) => r.terminal == APPROVED, r => Approved(r));
  }

  /** Once all artifacts are labelled, the outcomes missing from an arm are exactly its failures. */
  lemma MissingAreFailures(p: Protocol, records: seq<Record>, arm: Arm, humans: map<BlindId, Human>)
    requires LedgerOk(p, records) && Complete(records, humans)
    ensures var s := CountArm(ByArm(records, arm), humans); s.missing == s.terminals[Terminal.FAILED]
  {
    var mine := ByArm(records, arm);
    forall r | r in mine
      ensures OutcomeOf(r, humans).None? <==> r.terminal == Terminal.FAILED
    {
      AcceptedRecords(p, records, arm, r);
      ByArmIsPart(records, arm, r);
    }
    CountSame(mine, (r: Record) => OutcomeOf(r, humans).None?, (r: Record) => r.terminal == Terminal.FAILED);
  }

  lemma {:induction false} ByArmIsPart(records: seq<Record>, arm: Arm, r: Record)
    requires r in ByArm(records, arm)
    ensures r in records
  {
    var n := |records| - 1;
    if r != records[n] {
      ByArmIsPart(records[..n], arm, r);
    }
  }

  lemma {:induction false} TerminalsAddUp(records: seq<Record>)
    requires forall r :: r in records ==> r.terminal != UNKNOWN_TERMINAL
    ensures Count(records, (r: Record) => r.terminal == APPROVED) + Count(records, (r: Record) => r.terminal == Terminal.REJECTED)
            + Count(records, (r: Record) => r.terminal == MANUAL_REVIEW) + Count(records, (r: Record) => r.terminal == Terminal.FAILED)
         == |records|
  {
    if records != [] {
      assert records[|records| - 1] in records;
      TerminalsAddUp(records[..|records| - 1]);
    }
  }

  /** Final passes are initial passes plus repair successes, minus the initial passes that arm C gave up; every other arm
      gives up none, and arm A repairs nothing. */
  lemma PassesAddUp(p: Protocol, records: seq<Record>, arm: Arm, humans: map<BlindId, Human>)
    requires LedgerOk(p, records)
    ensures var mine := ByArm(records, arm); var s := CountArm(mine, humans);
            && s.finalPasses + LostPasses(mine) == s.initialPasses + s.repairSuccesses
            && (arm != C_BEST_OF_K ==> LostPasses(mine) == 0)
            && (arm == A_SINGLE_PASS ==> s.repairSuccesses == 0)
            && s.repairSuccesses <= s.initialFailures && s.initialFailures + s.initialPasses == s.inputs
  {
    var mine := ByArm(records, arm);
    CountSplits(mine, (r: Record) => r.initialPass && r.finalPass, (r: Record) => !r.initialPass && r.finalPass,
                (r: Record) => r.finalPass);
    CountSplits(mine, (r: Record) => r.initialPass && r.finalPass, (r: Record) => r.initialPass && !r.finalPass,
                (r: Record) => r.initialPass);
    CountSplits(mine, (r: Record) => !r.initialPass && r.finalPass, (r: Record) => !r.initialPass && !r.finalPass,
                (r: Record) => !r.initialPass);
    CountSplits(mine, (r: Record) => !r.initialPass, (r: Record) => r.initialPass, (r: Record) => true);
    CountAll(mine, (r: Record) => true);
    forall r | r in mine
      ensures arm != C_BEST_OF_K && r.initialPass ==> r.finalPass
      ensures arm == A_SINGLE_PASS ==> r.finalPass == r.initialPass
    {
      AcceptedRecords(p, records, arm, r);
    }
    if arm != C_BEST_OF_K {
      CountSame(mine, (r: Record) => r.initialPass && !r.finalPass, (r: Record) => false);
      CountNone(mine);
    }
    if arm == A_SINGLE_PASS {
      CountSame(mine, (r: Record) => !r.initialPass && r.finalPass, (r: Record) => false);
    }
  }
}
