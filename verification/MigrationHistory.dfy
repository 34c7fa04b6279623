/** Whole histories of a migration: any number of runs, each finished, failed or killed at any system call,
    and power losses in between. */
module MigrationHistory {
  import opened Content
  import opened Outcomes
  import opened AuditDisk
  import opened MigrationHost
  import opened ContextMigration

  /** What is done to the machine: a run of the migration under some course of events, or a power loss after some
      writeback. */
  datatype Act = Run(apply: bool, schedule: Schedule) | CutPower(ev: Event, loss: Loss)

  /** What came of it: how the run ended, and after how many system calls. */
  datatype Step = Ran(apply: bool, schedule: Schedule, calls: nat, end: Outcome<Report>) | LostPower(ev: Event, loss: Loss)

  ghost predicate Follows(plan: Plan, src: Bytes, d: Disk, e: Disk, step: Step) {
    match step
    case Ran(apply, schedule, calls, end) => RunMigration(plan, Sha256(src), apply, d, e, end, Faults(schedule, calls))
    case LostPower(ev, loss) => e == AfterPowerLoss(Writeback(d, ev), loss)
  }

  ghost predicate History(plan: Plan, src: Bytes, disks: seq<Disk>, steps: seq<Step>) {
    && |disks| == |steps| + 1
    && forall i :: 0 <= i < |steps| ==> Follows(plan, src, disks[i], disks[i + 1], steps[i])
  }

  ghost predicate CameOf(step: Step, act: Act) {
    match act
    case Run(apply, schedule) => step.Ran? && step.apply == apply && step.schedule == schedule
    case CutPower(ev, loss) => step == LostPower(ev, loss)
  }

  lemma PowerLossKeepsWf(d: Disk, ev: Event, loss: Loss)
    requires Wf(d)
    ensures Wf(AfterPowerLoss(Writeback(d, ev), loss))
  {
    WritebackOnlyDrifts(d, ev);
    var w := Writeback(d, ev);
    var e := AfterPowerLoss(w, loss);
    forall r
      ensures WfView(r, ViewOf(e.now, r), e.data) && WfView(r, ViewOf(e.saved, r), e.data)
    {
      assert WfView(r, ViewOf(w.saved, r), w.data);
    }
  }

  /** Runs and power losses, one after the other, each run in a process of its own, make a history. */
  method Play(plan: Plan, src: Bytes, d: Disk, acts: seq<Act>) returns (disks: seq<Disk>, steps: seq<Step>)
    requires Wf(d)
    ensures History(plan, src, disks, steps) && disks[0] == d && Wf(disks[|steps|])
    ensures |steps| == |acts| && forall i :: 0 <= i < |acts| ==> CameOf(steps[i], acts[i])
  {
    disks, steps := [d], [];
    while |steps| < |acts|
      invariant |steps| <= |acts| && |disks| == |steps| + 1 && disks[0] == d && Wf(disks[|steps|])
      invariant History(plan, src, disks, steps)
      invariant forall i :: 0 <= i < |steps| ==> CameOf(steps[i], acts[i])
      decreases |acts| - |steps|
    {
      var now := disks[|steps|];
      match acts[|steps|] {
        case Run(apply, schedule) =>
          var h := new Host(now, schedule);
          var end := RunLocked(h, plan, Sha256(src), apply);
          disks, steps := disks + [h.disk], steps + [Ran(apply, schedule, h.clock, end)];
        case CutPower(ev, loss) =>
          PowerLossKeepsWf(now, ev, loss);
          disks, steps := disks + [AfterPowerLoss(Writeback(now, ev), loss)], steps + [LostPower(ev, loss)];
      }
    }
  }

  /** Crash safety without power loss: at every point between runs the live context is the source or the target,
      the target always with the records a recovery needs; a published target stays; records never change; and
      a commit record is there only together with the target, unless two calls of one run failed. */
  lemma {:induction false} KilledRunsStaySafe(plan: Plan, src: Bytes, tgt: Bytes, disks: seq<Disk>, steps: seq<Step>, i: nat)
    requires plan.transform(src) == Some(tgt)
    requires History(plan, src, disks, steps) && FreshStart(plan, src, tgt, disks[0])
    requires forall k :: 0 <= k < |steps| ==> steps[k].Ran?
    requires i <= |steps|
    ensures Consistent(plan, src, tgt, disks[i])
    ensures forall j :: i <= j <= |steps| ==> RecordsKept(disks[i], disks[j])
    ensures disks[i].live == tgt ==> forall j :: i <= j <= |steps| ==> disks[j].live == tgt
    ensures (forall k :: 0 <= k < i ==> Faults(steps[k].schedule, steps[k].calls) < 2)
              && ViewOf(disks[i].now, JournalOf(COMMITTED, src, tgt)).token.Some?
            ==> disks[i].live == tgt
    decreases i
  {
    if i > 0 {
      KilledRunsStaySafe(plan, src, tgt, disks, steps, i - 1);
      StepStaysSafe(plan, src, tgt, disks[i - 1], disks[i], steps[i - 1]);
    }
    assert RecordsKept(disks[i], disks[i]);
    RunsKeepGoing(plan, src, tgt, disks, steps, i, |steps|);
  }

  lemma StepStaysSafe(plan: Plan, src: Bytes, tgt: Bytes, d: Disk, e: Disk, step: Step)
    requires plan.transform(src) == Some(tgt) && step.Ran? && Follows(plan, src, d, e, step)
    ensures RecordsKept(d, e)
    ensures Consistent(plan, src, tgt, d) ==> Consistent(plan, src, tgt, e)
    ensures d.live == tgt ==> e.live == tgt
    ensures Faults(step.schedule, step.calls) < 2 && ViewOf(e.now, JournalOf(COMMITTED, src, tgt)).token.Some?
            ==> e.live == tgt || (e.live == d.live && ViewOf(d.now, JournalOf(COMMITTED, src, tgt)).token.Some?)
  {
  }

  lemma {:induction false} RunsKeepGoing(plan: Plan, src: Bytes, tgt: Bytes, disks: seq<Disk>, steps: seq<Step>, i: nat, n: nat)
    requires plan.transform(src) == Some(tgt)
    requires History(plan, src, disks, steps) && forall k :: 0 <= k < |steps| ==> steps[k].Ran?
    requires i <= n <= |steps|
    ensures forall j :: i <= j <= n ==> RecordsKept(disks[i], disks[j])
    ensures disks[i].live == tgt ==> forall j :: i <= j <= n ==> disks[j].live == tgt
  {
    if i < n {
      RunsKeepGoing(plan, src, tgt, disks, steps, i, n - 1);
      StepStaysSafe(plan, src, tgt, disks[n - 1], disks[n], steps[n - 1]);
    }
  }

  /** No run finds the source live on top of records that were never made durable. */
  ghost predicate NoHazards(plan: Plan, src: Bytes, tgt: Bytes, disks: seq<Disk>) {
    forall k :: 0 <= k < |disks| && disks[k].live == src ==> !Hazard(plan, src, tgt, disks[k])
  }

  /** Crash safety with power loss, provided no run applies on top of records that were never made durable. */
  lemma {:induction false} PowerLossesStaySafe(plan: Plan, src: Bytes, tgt: Bytes, disks: seq<Disk>, steps: seq<Step>, i: nat)
    requires plan.transform(src) == Some(tgt)
    requires History(plan, src, disks, steps) && FreshStart(plan, src, tgt, disks[0])
    requires i <= |steps| && NoHazards(plan, src, tgt, disks[..i])
    ensures Durable(plan, src, tgt, disks[i])
  {
    if i > 0 {
      var d, e := disks[i - 1], disks[i];
      assert d == disks[..i][i - 1] && disks[..i - 1] == disks[..i][..i - 1];
      PowerLossesStaySafe(plan, src, tgt, disks, steps, i - 1);
      assert Follows(plan, src, d, e, steps[i - 1]);
      match steps[i - 1]
      case LostPower(ev, loss) => PowerLossKeepsDurable(plan, src, tgt, d, ev, loss);
      case Ran(_, schedule, calls, end) => RunsKeepConsistent(plan, src, tgt, d, e, end, Faults(schedule, calls));
    }
  }

  /** No step up to here was a power loss, or none of them started from a hazard. */
  ghost predicate Survivable(plan: Plan, src: Bytes, tgt: Bytes, disks: seq<Disk>, steps: seq<Step>, i: nat)
    requires i <= |steps| && |disks| == |steps| + 1
  {
    (forall k :: 0 <= k < i ==> steps[k].Ran?) || NoHazards(plan, src, tgt, disks[..i])
  }

  lemma {:induction false} StaysConsistent(plan: Plan, src: Bytes, tgt: Bytes, disks: seq<Disk>, steps: seq<Step>, i: nat)
    requires plan.transform(src) == Some(tgt) && i <= |steps|
    requires History(plan, src, disks, steps) && FreshStart(plan, src, tgt, disks[0]) && Survivable(plan, src, tgt, disks, steps, i)
    ensures Consistent(plan, src, tgt, disks[i])
  {
    if NoHazards(plan, src, tgt, disks[..i]) {
      PowerLossesStaySafe(plan, src, tgt, disks, steps, i);
    } else if i > 0 {
      StaysConsistent(plan, src, tgt, disks, steps, i - 1);
      StepStaysSafe(plan, src, tgt, disks[i - 1], disks[i], steps[i - 1]);
    }
  }

  /** One failing call is always undone: a run that is not killed and in which at most one call fails, whatever happened
      before it, leaves the source it found live, or a target with its commit record. */
  lemma OneFailureIsUndone(plan: Plan, src: Bytes, tgt: Bytes, disks: seq<Disk>, steps: seq<Step>, i: nat)
    requires Fitting(plan, src, tgt) && i < |steps|
    requires History(plan, src, disks, steps) && FreshStart(plan, src, tgt, disks[0]) && Survivable(plan, src, tgt, disks, steps, i)
    requires steps[i].Ran? && !steps[i].end.Killed? && Faults(steps[i].schedule, steps[i].calls) < 2
    requires Settled(plan, src, tgt, disks[i])
    ensures Settled(plan, src, tgt, disks[i + 1])
  {
    StaysConsistent(plan, src, tgt, disks, steps, i);
    var d, e := disks[i], disks[i + 1];
    assert Follows(plan, src, d, e, steps[i]);
    if d.live != src {
      var c := JournalOf(COMMITTED, src, tgt);
      assert ViewOf(e.now, c).token == ViewOf(d.now, c).token && ViewOf(e.now, c).temps <= ViewOf(d.now, c).temps;
    }
  }

  /** So with no kill, no power loss and no two failing calls in one run, a published target is never seen between runs
      without its commit record. */
  lemma {:induction false} UnkilledRunsSettle(plan: Plan, src: Bytes, tgt: Bytes, disks: seq<Disk>, steps: seq<Step>, i: nat)
    requires Fitting(plan, src, tgt) && i <= |steps|
    requires History(plan, src, disks, steps) && FreshStart(plan, src, tgt, disks[0])
    requires forall k :: 0 <= k < i ==> steps[k].Ran? && !steps[k].end.Killed? && Faults(steps[k].schedule, steps[k].calls) < 2
    ensures Settled(plan, src, tgt, disks[i])
  {
    if i > 0 {
      UnkilledRunsSettle(plan, src, tgt, disks, steps, i - 1);
      OneFailureIsUndone(plan, src, tgt, disks, steps, i - 1);
    }
  }

  /** The migration is reported as done, and it is: the target is live, and the commit recorded. */
  ghost predicate Committed(plan: Plan, src: Bytes, tgt: Bytes, d: Disk, end: Outcome<Report>) {
    && end in {Done(Applied(Sha256(src), Sha256(tgt))), Done(RecoveredCommit(Sha256(src), Sha256(tgt)))}
    && d.live == tgt && Held(d, JournalOf(COMMITTED, src, tgt), plan.JournalBytes(COMMITTED, src, tgt))
  }

  /** Retrying: after any killed or failed runs, one run without failures ends with the target live and recorded. */
  method RetryCommits(plan: Plan, src: Bytes, ghost tgt: Bytes, d: Disk, acts: seq<Act>, events: Schedule)
    returns (end: Outcome<Report>, e: Disk)
    requires plan.Disjoint() && Fitting(plan, src, tgt) && FreshStart(plan, src, tgt, d)
    requires forall k :: 0 <= k < |acts| ==> acts[k].Run?
    requires forall i: nat :: events.At(i).fate == Works
    ensures Committed(plan, src, tgt, e, end)
  {
    var disks, steps := Play(plan, src, d, acts);
    forall k | 0 <= k < |steps|
      ensures steps[k].Ran?
    {
      assert CameOf(steps[k], acts[k]);
    }
    KilledRunsStaySafe(plan, src, tgt, disks, steps, |steps|);
    var h := new Host(disks[|steps|], events);
    end := RunLocked(h, plan, Sha256(src), true);
    e := h.disk;
  }

  /** The same after power losses, under the same proviso. */
  method RetryCommitsAfterPowerLosses(plan: Plan, src: Bytes, ghost tgt: Bytes, d: Disk, acts: seq<Act>, events: Schedule)
    returns (disks: seq<Disk>, steps: seq<Step>, end: Outcome<Report>, e: Disk)
    requires plan.Disjoint() && Fitting(plan, src, tgt) && FreshStart(plan, src, tgt, d)
    requires forall i: nat :: events.At(i).fate == Works
    ensures History(plan, src, disks, steps) && disks[0] == d && |steps| == |acts|
    ensures forall i :: 0 <= i < |acts| ==> CameOf(steps[i], acts[i])
    ensures NoHazards(plan, src, tgt, disks[..|steps|]) ==> Committed(plan, src, tgt, e, end)
  {
    disks, steps := Play(plan, src, d, acts);
    if NoHazards(plan, src, tgt, disks[..|steps|]) {
      PowerLossesStaySafe(plan, src, tgt, disks, steps, |steps|);
    }
    var h := new Host(disks[|steps|], events);
    end := RunLocked(h, plan, Sha256(src), true);
    e := h.disk;
  }

  /** The proviso is needed: a first run, killed in _write_once of the PREPARED record after unlinking its temporary
      file and before the fsync, leaves records that preparing again will not sync. */
  method HazardCanArise(plan: Plan, src: Bytes, ghost tgt: Bytes, d: Disk) returns (e: Disk, step: Step)
    requires Fitting(plan, src, tgt) && FreshStart(plan, src, tgt, d) && Untouched(src, tgt, d)
    ensures step.Ran? && Follows(plan, src, d, e, step)
    ensures FreshStart(plan, src, tgt, e) && Hazard(plan, src, tgt, e)
  {
    var schedule := Schedule(17, _ => DEATH);
    var h := new Host(d, schedule);
    var end := RunLocked(h, plan, Sha256(src), true);
    e, step := h.disk, Ran(true, schedule, h.clock, end);
    RunsKeepConsistent(plan, src, tgt, d, e, end, Faults(schedule, h.clock));
  }

  /** From any such records, a run that is killed once it has synced the published target, and then a power loss, leave
      a live target that no later run can complete. */
  method HazardBreaksRecovery(plan: Plan, src: Bytes, ghost tgt: Bytes, d: Disk)
    returns (e: Disk, step: Step, ghost ev: Event, ghost loss: Loss)
    requires Fitting(plan, src, tgt) && FreshStart(plan, src, tgt, d) && Hazard(plan, src, tgt, d) && src != tgt
    ensures step.Ran? && Follows(plan, src, d, e, step)
    ensures var lost := AfterPowerLoss(Writeback(e, ev), loss);
            lost.live == tgt && !Recoverable(plan, src, tgt, lost) && !Consistent(plan, src, tgt, lost)
  {
    var schedule := Schedule(19, _ => DEATH);
    var h := new Host(d, schedule);
    assert DangerOf(plan, src, tgt, d) == SourceOnHazard;
    var end := RunLocked(h, plan, Sha256(src), true);
    e, step := h.disk, Ran(true, schedule, h.clock, end);
    RunsKeepConsistent(plan, src, tgt, d, e, end, Faults(schedule, h.clock));
    ev, loss := UnsafeRecords(plan, src, tgt, e);
  }

  lemma UnsafeRecords(plan: Plan, src: Bytes, tgt: Bytes, d: Disk) returns (ev: Event, loss: Loss)
    requires Wf(d) && Hazard(plan, src, tgt, d) && d.liveDurable && d.live == tgt && d.liveSaved == tgt && tgt != src
    ensures var lost := AfterPowerLoss(Writeback(d, ev), loss);
            lost.live == tgt && !Recoverable(plan, src, tgt, lost) && !Consistent(plan, src, tgt, lost)
  {
    if !Safe(d, BackupOf(src), src) {
      ev, loss := UnsafeLosesTheRecord(d, BackupOf(src), src);
    } else {
      ev, loss := UnsafeLosesTheRecord(d, JournalOf(PREPARED, src, tgt), plan.JournalBytes(PREPARED, src, tgt));
    }
  }
}
