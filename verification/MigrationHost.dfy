/** The system calls of a context migration, and the write-once audit protocol built from them. */
module MigrationHost {
  import opened Content
  import opened Outcomes
  import opened AuditDisk

  datatype Reason =
    | AuditCleanupFailed | AuditConflict | AuditRecoveryFailed | AuditWriteFailed | AuditSyncFailed
    | MigrationWriteFailed | ContextFileUnavailable | ContextFileUntrusted | ContextReadFailed
    | ContextValidationFailed | ContextJsonInvalid | ContextChanged | ContextPublishFailed | ContextSyncFailed
    | StagingFailed | StagingCleanupFailed | SourcePolicyRefused | TargetPolicyRefused | RollbackFailed
    | ExpectedDigestMismatch

  type Outcome<T> = Ended<T, Reason>

  const MAX_CONTEXT_BYTES := 1048576

  /** The size rule of every context or audit file that is read. */
  predicate Readable(raw: Bytes) {
    0 < |raw| <= MAX_CONTEXT_BYTES
  }

  /** How a single call ended. */
  function FateOf<T>(o: Outcome<T>): Fate {
    match o
    case Done(_) => Works
    case Raised(_) => Fails
    case Killed => Dies
  }

  /** A call that goes by without incident, and one that kills the process. */
  const EASY := Event(Works, {}, {}, false, MAX_CONTEXT_BYTES)
  const DEATH := Event(Dies, {}, {}, false, 0)

  /** What happens at each system call of a process.  The first `calm` ones go by without incident, which excludes
      nothing: any course of events is a schedule with no calm calls. */
  datatype Schedule = Schedule(calm: nat, events: nat -> Event) {
    function At(i: nat): Event {
      if i < calm then EASY else events(i)
    }

    /** All calls up to this one go by without incident, and this one kills the process. */
    predicate DiesAt(time: nat) {
      calm == time && At(time) == DEATH
    }
  }

  /** How many of the first `n` calls failed. */
  ghost function Faults(schedule: Schedule, n: nat): nat {
    if n == 0 then 0 else Faults(schedule, n - 1) + if schedule.At(n - 1).fate == Fails then 1 else 0
  }

  /** Before how many of the first `n` calls the kernel wrote something back of its own accord. */
  ghost function Stirs(schedule: Schedule, n: nat): nat {
    if n == 0 then 0 else Stirs(schedule, n - 1) + if schedule.At(n - 1).Still() then 0 else 1
  }

  lemma {:induction false} StillWhileCalm(schedule: Schedule, n: nat)
    requires n <= schedule.calm
    ensures Stirs(schedule, n) == 0
  {
    if n > 0 {
      StillWhileCalm(schedule, n - 1);
    }
  }

  lemma StillUntil(schedule: Schedule, start: nat, end: nat)
    ensures start <= end <= schedule.calm ==> Stirs(schedule, start) == Stirs(schedule, end)
  {
    if start <= end <= schedule.calm {
      StillWhileCalm(schedule, start);
      StillWhileCalm(schedule, end);
    }
  }

  /** One or more system calls that touch nothing but the names and files of `r`. */
  ghost predicate Touches(d: Disk, e: Disk, r: Record) {
    && AuditKept(d, e, {r})
    && LiveKept(d, e)
    && e.stages == d.stages && e.nextStage == d.nextStage
  }

  /** Files that existed keep their content. */
  ghost predicate DataKept(d: Disk, e: Disk) {
    forall f :: f in d.data ==> f in e.data && e.data[f] == d.data[f]
  }

  /** The record, seen or saved, is either gone or a version there was before. */
  ghost predicate NothingNew(d: Disk, e: Disk, r: Record) {
    && ViewOf(e.now, r).token in {None, ViewOf(d.now, r).token}
    && ViewOf(e.saved, r).token in {None, ViewOf(d.now, r).token, ViewOf(d.saved, r).token}
  }

  /** Only temporary names may go away. */
  ghost predicate Recedes(d: Disk, e: Disk, r: Record) {
    && ViewOf(e.now, r).token == ViewOf(d.now, r).token
    && ViewOf(e.saved, r).token in {ViewOf(d.now, r).token, ViewOf(d.saved, r).token}
    && ViewOf(e.now, r).temps + ViewOf(e.saved, r).temps <= ViewOf(d.now, r).temps + ViewOf(d.saved, r).temps
  }

  /** One system call with this effect on the names of `r` and on the files. */
  ghost predicate Syscall(d: Disk, e: Disk, r: Record, v: View, data: map<File, Bytes>) {
    && Touches(d, e, r)
    && e.data == data
    && ViewOf(e.now, r) == v
    && Between(ViewOf(d.saved, r), ViewOf(d.now, r), ViewOf(e.saved, r))
  }

  /** The process died after linking a record and removing its temporary name, and before the fsync: the record can be
      read, and nothing has been written back. */
  ghost predicate Unsynced(d: Disk, e: Disk, r: Record, value: Bytes, o: Outcome<()>) {
    && o.Killed? && Held(e, r, value) && ViewOf(e.now, r).temps == {} && SavedKept(d, e)
  }

  /** The record exists and no temporary file is left: writing it again makes no system call that syncs. */
  ghost predicate Tidy(d: Disk, r: Record) {
    ViewOf(d.now, r).token.Some? && ViewOf(d.now, r).temps == {}
  }

  /** A write of this value can succeed: the record is absent, or present with the same readable content. */
  ghost predicate CanWrite(d: Disk, r: Record, value: Bytes) {
    var v := ViewOf(d.now, r);
    v.token.Some? ==> File(r, v.token.value) in d.data && d.data[File(r, v.token.value)] == value && Readable(value)
  }

  /** Steps after which no version of the record has a new content other than this value. */
  ghost predicate Adds(d: Disk, e: Disk, r: Record, value: Bytes) {
    && Touches(d, e, r) && DataKept(d, e)
    && (Says(d, r, value) ==> Says(e, r, value))
    && (ViewSays(d, r, ViewOf(d.now, r), value) ==> ViewSays(e, r, ViewOf(e.now, r), value))
  }

  lemma AddsTransitive(d: Disk, e: Disk, f: Disk, r: Record, value: Bytes)
    requires Adds(d, e, r, value) && Adds(e, f, r, value)
    ensures Adds(d, f, r, value)
  {
    AuditKeptTransitive(d, e, f, {r});
  }

  /** Writing into a file that did not exist at the start. */
  lemma AddsFile(d: Disk, e: Disk, f: Disk, file: File, value: Bytes)
    requires Adds(d, e, file.record, value) && file !in d.data && file in f.data
    requires Syscall(e, f, file.record, ViewOf(e.now, file.record), e.data[file := f.data[file]])
    requires ViewOf(e.now, file.record).token != Some(file.token) && ViewOf(e.saved, file.record).token != Some(file.token)
    ensures Adds(d, f, file.record, value)
  {
    AuditKeptTransitive(d, e, f, {file.record});
  }

  /** What one call of _write_once may do, however it ends. */
  ghost predicate WroteOnce(d: Disk, e: Disk, r: Record, value: Bytes, o: Outcome<()>) {
    var v, w := ViewOf(d.now, r), ViewOf(e.now, r);
    // no version with another content appears, seen or saved
    && Adds(d, e, r, value)
    // a record that exists is never replaced, removed or linked again
    && (v.token.Some? ==> w.token == v.token && w.temps <= v.temps)
    && (Safe(d, r, value) ==> Safe(e, r, value))
    && (!CanWrite(d, r, value) ==> !o.Done?)
    // success means the record can be read back, and its temporary names are gone
    && (o.Done? ==> Held(e, r, value) && w.temps == {})
    && (o.Done? ==> if Tidy(d, r) then e.now == d.now && e.data == d.data else Synced(e))
    && (Tidy(d, r) ==> e.durable == d.durable)
    // an error leaves no new record behind, unless the cleanup itself failed
    && (o.Raised? && o.reason != AuditCleanupFailed ==> w.token == v.token)
  }

  lemma SyscallTransitive(d: Disk, e: Disk, f: Disk, r: Record, v: View, w: View)
    requires Syscall(d, e, r, v, e.data) && v == ViewOf(d.now, r)
    requires Syscall(e, f, r, w, f.data)
    ensures Syscall(d, f, r, w, f.data)
  {
    AuditKeptTransitive(d, e, f, {r});
  }

  lemma KeepsOneRecord(d: Disk, e: Disk, f: Disk, r: Record)
    requires AuditKept(d, e, {}) && LiveKept(d, e) && e == d.(saved := e.saved, liveSaved := e.liveSaved)
    requires f == e.(data := f.data)
    requires f.data.Keys == e.data.Keys && forall x :: x in e.data && x.record != r ==> f.data[x] == e.data[x]
    ensures Syscall(d, f, r, ViewOf(d.now, r), f.data)
  {
    forall q
      ensures WfView(q, ViewOf(f.now, q), f.data) && WfView(q, ViewOf(f.saved, q), f.data)
    {
      assert WfView(q, ViewOf(e.now, q), e.data) && WfView(q, ViewOf(e.saved, q), e.data);
    }
  }

  /** Steps that leave the audit directory alone. */
  ghost predicate Beside(d: Disk, e: Disk) {
    && AuditKept(d, e, {})
    && e.now == d.now && e.data == d.data && e.nextToken == d.nextToken && e.durable == d.durable
    && d.nextStage <= e.nextStage
  }

  /** Steps that only read. */
  ghost predicate Idle(d: Disk, e: Disk) {
    && Beside(d, e) && LiveKept(d, e)
    && e.stages == d.stages && e.nextStage == d.nextStage
  }

  /** Steps in the config directory that end with these stages and leave the live context alone. */
  ghost predicate Staging(d: Disk, e: Disk, stages: map<nat, Option<Bytes>>) {
    Beside(d, e) && LiveKept(d, e) && e.stages == stages
  }

  lemma StagingTransitive(d: Disk, e: Disk, f: Disk)
    requires Staging(d, e, e.stages) && Staging(e, f, f.stages)
    ensures Staging(d, f, f.stages)
  {
    AuditKeptTransitive(d, e, f, {});
  }

  lemma BesideTransitive(d: Disk, e: Disk, f: Disk)
    requires Beside(d, e) && Beside(e, f)
    ensures Beside(d, f)
  {
    AuditKeptTransitive(d, e, f, {});
  }

  /** A process: the disk it works on, and what happens at each of its system calls. */
  class Host {
    var disk: Disk
    var clock: nat
    const schedule: Schedule

    constructor (d: Disk, events: Schedule)
      ensures disk == d && clock == 0 && schedule == events
    {
      disk, clock, schedule := d, 0, events;
    }

    /** No system call from here on fails. */
    ghost predicate Faultless()
      reads this
    {
      forall i: nat :: i >= clock ==> schedule.At(i).fate == Works
    }

    /** How many system calls have failed so far. */
    ghost function Failed(): nat
      reads `clock
    {
      Faults(schedule, clock)
    }

    /** How often the kernel has written something back so far. */
    ghost function Stirred(): nat
      reads `clock
    {
      Stirs(schedule, clock)
    }

    twostate predicate OneCall(fate: Fate)
      reads `clock
    {
      var ev := schedule.At(old(clock));
      && ev.fate == fate && clock == old(clock) + 1
      && Failed() == old(Failed()) + (if ev.fate == Fails then 1 else 0)
      && Stirred() == old(Stirred()) + (if ev.Still() then 0 else 1)
    }

    twostate predicate Later()
      reads `clock
    {
      clock > old(clock) && Failed() >= old(Failed()) && Stirred() >= old(Stirred())
    }

    /** Everything a system call does besides its own effect. */
    method Enter() returns (ev: Event)
      requires Wf(disk)
      modifies this
      ensures ev == schedule.At(old(clock)) && OneCall(ev.fate)
      ensures AuditKept(old(disk), disk, {}) && LiveKept(old(disk), disk)
      ensures disk == old(disk).(saved := disk.saved, liveSaved := disk.liveSaved)
      ensures Stirred() == old(Stirred()) ==> SavedKept(old(disk), disk) && disk.liveSaved == old(disk).liveSaved
    {
      ev := schedule.At(clock);
      WritebackOnlyDrifts(disk, ev);
      disk := Writeback(disk, ev);
      clock := clock + 1;
    }

    /** A system call on the names of `r` that has no effect of its own. */
    method Look(ghost r: Record) returns (fate: Fate)
      requires Wf(disk)
      modifies this
      ensures OneCall(fate)
      ensures Syscall(old(disk), disk, r, ViewOf(old(disk).now, r), old(disk).data)
      ensures disk.now == old(disk).now && disk.nextToken == old(disk).nextToken && disk.durable == old(disk).durable
      ensures Stirred() == old(Stirred()) ==> SavedKept(old(disk), disk)
    {
      var ev := Enter();
      fate := ev.fate;
    }

    method CreateTemp(r: Record) returns (o: Outcome<File>)
      requires Wf(disk)
      modifies this
      ensures OneCall(FateOf(o)) && (o.Raised? ==> o.reason == AuditWriteFailed)
      ensures var v := ViewOf(old(disk).now, r);
              if o.Done? then
                && o.value == File(r, old(disk).nextToken) && disk.nextToken == old(disk).nextToken + 1
                && o.value !in old(disk).data && o.value !in disk.durable
                && Syscall(old(disk), disk, r, v.(temps := v.temps + {o.value.token}), old(disk).data[o.value := []])
              else
                Syscall(old(disk), disk, r, v, old(disk).data)
      ensures Stirred() == old(Stirred()) ==> SavedKept(old(disk), disk)
    {
      var ev := Enter();
      match ev.fate
      case Dies => return Killed;
      case Fails => return Raised(AuditWriteFailed);
      case Works =>
        var v := ViewOf(disk.now, r);
        var f := File(r, disk.nextToken);
        ghost var e := disk;
        disk := disk.(now := disk.now[r := v.(temps := v.temps + {f.token})], data := disk.data[f := []], nextToken := disk.nextToken + 1);
        EffectOnOneRecord(old(disk), e, disk, r, v.(temps := v.temps + {f.token}));
        return Done(f);
    }

    /** One os.write on an audit file, after which the file holds this prefix of the value. */
    method WriteChunk(f: File, value: Bytes, offset: nat) returns (o: Outcome<nat>)
      requires Wf(disk) && f in disk.data && f !in disk.durable && offset < |value|
      modifies this
      ensures OneCall(FateOf(o)) && (o.Raised? ==> o.reason == MigrationWriteFailed)
      ensures o.Done? ==> offset < o.value <= |value|
      ensures o.Done? && |value| - offset <= schedule.At(old(clock)).chunk ==> o.value == |value|
      ensures Syscall(old(disk), disk, f.record, ViewOf(old(disk).now, f.record),
                      if o.Done? then old(disk).data[f := value[..o.value]] else old(disk).data)
      ensures disk.nextToken == old(disk).nextToken && f !in disk.durable
      ensures Stirred() == old(Stirred()) ==> SavedKept(old(disk), disk)
    {
      var ev := Enter();
      match ev.fate
      case Dies => return Killed;
      case Fails => return Raised(MigrationWriteFailed);
      case Works =>
        var end := if ev.chunk >= |value| - offset then |value| else offset + 1 + ev.chunk;
        ghost var e := disk;
        disk := disk.(data := disk.data[f := value[..end]]);
        KeepsOneRecord(old(disk), e, disk, f.record);
        return Done(end);
    }

    /** os.fsync of an audit file. */
    method SyncFile(f: File) returns (fate: Fate)
      requires Wf(disk) && f in disk.data
      modifies this
      ensures OneCall(fate)
      ensures Syscall(old(disk), disk, f.record, ViewOf(old(disk).now, f.record), old(disk).data)
      ensures disk.nextToken == old(disk).nextToken
      ensures fate == Works ==> f in disk.durable
      ensures Stirred() == old(Stirred()) ==> SavedKept(old(disk), disk)
    {
      var ev := Enter();
      fate := ev.fate;
      if fate == Works {
        disk := disk.(durable := disk.durable + {f});
      }
    }

    /** The loop of context_migration._write_all on a new, still empty audit file: short writes are allowed. */
    method FillTemp(f: File, value: Bytes) returns (o: Outcome<()>)
      requires Wf(disk) && f in disk.data && f !in disk.durable && disk.data[f] == []
      modifies this
      ensures clock >= old(clock) && Failed() >= old(Failed()) && Stirred() >= old(Stirred())
      ensures o.Done? ==> Failed() == old(Failed())
      ensures old(Faultless()) ==> o.Done?
      ensures f in disk.data && f !in disk.durable
      ensures Syscall(old(disk), disk, f.record, ViewOf(old(disk).now, f.record), old(disk).data[f := disk.data[f]])
      ensures o.Done? ==> disk.data[f] == value
      ensures o.Raised? ==> o.reason == MigrationWriteFailed && Failed() > old(Failed())
      ensures disk.nextToken == old(disk).nextToken
      ensures Stirred() == old(Stirred()) ==> SavedKept(old(disk), disk)
      ensures old(clock) < schedule.calm && 0 < |value| <= MAX_CONTEXT_BYTES ==> o.Done? && clock == old(clock) + 1
    {
      var offset := 0;
      ghost var r, v := f.record, ViewOf(disk.now, f.record);
      while offset < |value|
        invariant 0 <= offset <= |value|
        invariant Wf(disk) && f in disk.data && disk.data[f] == value[..offset] && f !in disk.durable
        invariant Syscall(old(disk), disk, r, v, old(disk).data[f := disk.data[f]])
        invariant disk.nextToken == old(disk).nextToken
        invariant clock >= old(clock) && (offset == 0 ==> clock == old(clock))
        invariant Failed() == old(Failed()) && Stirred() >= old(Stirred())
        invariant Stirred() == old(Stirred()) ==> SavedKept(old(disk), disk)
        invariant old(clock) < schedule.calm && |value| <= MAX_CONTEXT_BYTES && offset > 0 ==> offset == |value| && clock == old(clock) + 1
        decreases |value| - offset
      {
        ghost var before := disk;
        var written := WriteChunk(f, value, offset);
        SyscallTransitive(old(disk), before, disk, r, v, v);
        if !written.Done? {
          return written.PropagateFailure();
        }
        offset := written.value;
      }
      return Done(());
    }

    /** context_migration._write_all on a new audit file: the whole value, then fsync. */
    method WriteTemp(f: File, value: Bytes) returns (o: Outcome<()>)
      requires Wf(disk) && f in disk.data && f !in disk.durable && disk.data[f] == []
      modifies this
      ensures clock >= old(clock) && Failed() >= old(Failed()) && Stirred() >= old(Stirred())
      ensures o.Done? ==> Failed() == old(Failed())
      ensures old(Faultless()) ==> o.Done?
      ensures f in disk.data
      ensures Syscall(old(disk), disk, f.record, ViewOf(old(disk).now, f.record), old(disk).data[f := disk.data[f]])
      ensures o.Done? ==> disk.data[f] == value && f in disk.durable
      ensures o.Raised? ==> o.reason == MigrationWriteFailed && Failed() > old(Failed())
      ensures disk.nextToken == old(disk).nextToken
      ensures Stirred() == old(Stirred()) ==> SavedKept(old(disk), disk)
      ensures old(clock) + 1 < schedule.calm && 0 < |value| <= MAX_CONTEXT_BYTES ==> o.Done? && clock == old(clock) + 2
    {
      o := FillTemp(f, value);
      if o.Done? {
        ghost var before, v := disk, ViewOf(disk.now, f.record);
        var fate := SyncFile(f);
        SyscallTransitive(old(disk), before, disk, f.record, v, v);
        match fate
        case Dies => return Killed;
        case Fails => return Raised(MigrationWriteFailed);
        case Works =>
      }
    }

    method UnlinkTemp(f: File) returns (fate: Fate)
      requires Wf(disk)
      modifies this
      ensures OneCall(fate)
      ensures var v := ViewOf(old(disk).now, f.record);
              Syscall(old(disk), disk, f.record, if fate == Works then v.(temps := v.temps - {f.token}) else v, old(disk).data)
      ensures disk.durable == old(disk).durable
      ensures Stirred() == old(Stirred()) ==> SavedKept(old(disk), disk)
    {
      var ev := Enter();
      fate := ev.fate;
      if fate == Works {
        ghost var e := disk;
        var v := ViewOf(disk.now, f.record);
        disk := disk.(now := disk.now[f.record := v.(temps := v.temps - {f.token})]);
        EffectOnOneRecord(old(disk), e, disk, f.record, v.(temps := v.temps - {f.token}));
      }
    }

    method UnlinkRecord(r: Record) returns (fate: Fate)
      requires Wf(disk)
      modifies this
      ensures OneCall(fate)
      ensures var v := ViewOf(old(disk).now, r);
              Syscall(old(disk), disk, r, if fate == Works then v.(token := None) else v, old(disk).data)
    {
      var ev := Enter();
      fate := ev.fate;
      if fate == Works {
        ghost var e := disk;
        var v := ViewOf(disk.now, r);
        disk := disk.(now := disk.now[r := v.(token := None)]);
        EffectOnOneRecord(old(disk), e, disk, r, v.(token := None));
      }
    }

    /** os.link of a temporary file to its record name; false is FileExistsError. */
    method Link(f: File) returns (o: Outcome<bool>)
      requires Wf(disk) && f in disk.data
      modifies this
      ensures OneCall(FateOf(o)) && (o.Raised? ==> o.reason == AuditWriteFailed)
      ensures var v := ViewOf(old(disk).now, f.record);
              && (o.Done? ==> o.value == v.token.None?)
              && Syscall(old(disk), disk, f.record,
                         if o.Done? && o.value then v.(token := Some(f.token)) else v, old(disk).data)
      ensures Stirred() == old(Stirred()) ==> SavedKept(old(disk), disk)
    {
      var ev := Enter();
      match ev.fate
      case Dies => return Killed;
      case Fails => return Raised(AuditWriteFailed);
      case Works =>
        var v := ViewOf(disk.now, f.record);
        if v.token.Some? {
          return Done(false);
        }
        ghost var e := disk;
        disk := disk.(now := disk.now[f.record := v.(token := Some(f.token))]);
        EffectOnOneRecord(old(disk), e, disk, f.record, v.(token := Some(f.token)));
        return Done(true);
    }

    /** os.fsync of the audit directory. */
    method SyncAudit(ghost r: Record) returns (fate: Fate)
      requires Wf(disk)
      modifies this
      ensures OneCall(fate)
      ensures Syscall(old(disk), disk, r, ViewOf(old(disk).now, r), old(disk).data)
      ensures disk.now == old(disk).now && disk.durable == old(disk).durable
      ensures fate == Works ==> Synced(disk)
      ensures Stirred() == old(Stirred()) && fate != Works ==> SavedKept(old(disk), disk)
    {
      var ev := Enter();
      fate := ev.fate;
      if fate == Works {
        disk := disk.(saved := disk.now);
      }
    }

    /** context_migration._remove_audit_files for a temporary name and possibly the record name. */
    method RemoveAuditFiles(f: File, recordToo: bool) returns (o: Outcome<()>)
      requires Wf(disk)
      modifies this
      ensures Later()
      ensures o.Done? ==> Failed() == old(Failed())
      ensures old(Faultless()) ==> o.Done?
      ensures o.Raised? ==> o.reason == AuditCleanupFailed && Failed() > old(Failed())
      ensures Touches(old(disk), disk, f.record) && disk.data == old(disk).data && NothingNew(old(disk), disk, f.record)
      ensures var v := ViewOf(old(disk).now, f.record);
              && (!recordToo ==> ViewOf(disk.now, f.record).token == v.token)
              && (o.Done? ==> Synced(disk) && ViewOf(disk.now, f.record)
                                              == View(if recordToo then None else v.token, v.temps - {f.token}))
    {
      var fate := UnlinkTemp(f);
      if fate == Works && recordToo {
        ghost var e := disk;
        fate := UnlinkRecord(f.record);
        AuditKeptTransitive(old(disk), e, disk, {f.record});
      }
      if fate == Works {
        ghost var e := disk;
        fate := SyncAudit(f.record);
        AuditKeptTransitive(old(disk), e, disk, {f.record});
      }
      o := match fate
      case Dies => Killed
      case Fails => Raised(AuditCleanupFailed)
      case Works => Done(());
    }

    /** context_migration._existing_audit_matches */
    method ExistingAuditMatches(r: Record, value: Bytes) returns (o: Outcome<bool>)
      requires Wf(disk)
      modifies this
      ensures Later()
      ensures o.Done? ==> Failed() == old(Failed())
      ensures Syscall(old(disk), disk, r, ViewOf(old(disk).now, r), old(disk).data)
      ensures disk.now == old(disk).now && disk.durable == old(disk).durable
      ensures Stirred() == old(Stirred()) ==> SavedKept(old(disk), disk)
      ensures o.Raised? ==> o.reason != AuditCleanupFailed
      ensures o.Done? && !o.value ==> ViewOf(old(disk).now, r).token.None?
      ensures o.Done? && o.value ==> Held(old(disk), r, value) && Readable(value)
      ensures old(Faultless()) ==>
                if ViewOf(old(disk).now, r).token.None? then o == Done(false)
                else if Held(old(disk), r, value) && Readable(value) then o == Done(true) else o.Raised?
      ensures o.Raised? && (ViewOf(old(disk).now, r).token.None? || (Held(old(disk), r, value) && Readable(value))) ==>
                Failed() > old(Failed())
      ensures old(clock) < schedule.calm && ViewOf(old(disk).now, r).token.None? ==> o == Done(false) && clock == old(clock) + 1
      ensures old(clock) + 1 < schedule.calm && Held(old(disk), r, value) && Readable(value) ==> o == Done(true) && clock == old(clock) + 2
    {
      var fate := Look(r);
      match fate {
        case Dies => return Killed;
        case Fails => return Raised(AuditConflict);
        case Works =>
      }
      var v := ViewOf(disk.now, r);
      if v.token.None? {
        return Done(false);
      }
      assert WfView(r, v, disk.data);
      ghost var e := disk;
      fate := Look(r);
      AuditKeptTransitive(old(disk), e, disk, {r});
      match fate {
        case Dies => return Killed;
        case Fails => return Raised(ContextReadFailed);
        case Works =>
      }
      var content := disk.data[File(r, v.token.value)];
      if Links(v, v.token.value) != 1 || !Readable(content) {
        return Raised(ContextFileUntrusted);
      }
      if content != value {
        return Raised(AuditConflict);
      }
      return Done(true);
    }

    /** One round of _cleanup_audit_temps: check the link count of a left-over file, then unlink it. */
    method RemoveLeftover(f: File) returns (o: Outcome<()>)
      requires Wf(disk) && f.token in ViewOf(disk.now, f.record).temps
      modifies this
      ensures Later()
      ensures o.Done? ==> Failed() == old(Failed())
      ensures old(Faultless()) ==> o.Done?
      ensures o.Raised? ==> Failed() > old(Failed())
      ensures o.Raised? ==> o.reason == AuditRecoveryFailed
      ensures var v := ViewOf(old(disk).now, f.record);
              && Touches(old(disk), disk, f.record) && disk.data == old(disk).data && NothingNew(old(disk), disk, f.record)
              && Recedes(old(disk), disk, f.record)
              && ViewOf(disk.now, f.record) == if o.Done? then v.(temps := v.temps - {f.token}) else v
      ensures disk.durable == old(disk).durable
    {
      var fate := Look(f.record);
      if fate == Dies {
        return Killed;
      }
      if fate == Fails || Links(ViewOf(disk.now, f.record), f.token) !in {1, 2} {
        return Raised(AuditRecoveryFailed);
      }
      ghost var e := disk;
      fate := UnlinkTemp(f);
      AuditKeptTransitive(old(disk), e, disk, {f.record});
      match fate
      case Dies => return Killed;
      case Fails => return Raised(AuditRecoveryFailed);
      case Works => return Done(());
    }

    /** context_migration._cleanup_audit_temps */
    method CleanupAuditTemps(r: Record) returns (o: Outcome<()>)
      requires Wf(disk)
      modifies this
      ensures Later()
      ensures o.Done? ==> Failed() == old(Failed())
      ensures old(Faultless()) ==> o.Done?
      ensures o.Raised? ==> Failed() > old(Failed())
      ensures o.Raised? ==> o.reason == AuditRecoveryFailed
      ensures Touches(old(disk), disk, r) && disk.data == old(disk).data && NothingNew(old(disk), disk, r)
      ensures ViewOf(disk.now, r).token == ViewOf(old(disk).now, r).token
      ensures ViewOf(disk.now, r).temps <= ViewOf(old(disk).now, r).temps
      ensures Recedes(old(disk), disk, r) && disk.durable == old(disk).durable
      ensures o.Done? ==> ViewOf(disk.now, r).temps == {}
      ensures Stirred() == old(Stirred()) && ViewOf(old(disk).now, r).temps == {} ==> SavedKept(old(disk), disk)
      ensures o.Done? ==> if ViewOf(old(disk).now, r).temps != {} then Synced(disk) else disk.now == old(disk).now
      ensures old(clock) < schedule.calm && ViewOf(old(disk).now, r).temps == {} ==> o.Done? && clock == old(clock) + 1
    {
      var fate := Look(r);
      match fate {
        case Dies => return Killed;
        case Fails => return Raised(AuditRecoveryFailed);
        case Works =>
      }
      var candidates := ViewOf(disk.now, r).temps;
      var todo := candidates;
      while todo != {}
        invariant Touches(old(disk), disk, r) && disk.data == old(disk).data && NothingNew(old(disk), disk, r)
        invariant ViewOf(disk.now, r) == View(ViewOf(old(disk).now, r).token, todo)
        invariant todo == candidates ==> disk.now == old(disk).now && clock == old(clock) + 1
        invariant todo == candidates && Stirred() == old(Stirred()) ==> SavedKept(old(disk), disk)
        invariant Recedes(old(disk), disk, r) && disk.durable == old(disk).durable
        invariant todo <= candidates
        invariant Later() && Failed() == old(Failed())
        decreases todo
      {
        var token :| token in todo;
        ghost var e := disk;
        var removed := RemoveLeftover(File(r, token));
        AuditKeptTransitive(old(disk), e, disk, {r});
        if !removed.Done? {
          return removed;
        }
        todo := todo - {token};
      }
      if candidates != {} {
        ghost var e := disk;
        fate := SyncAudit(r);
        AuditKeptTransitive(old(disk), e, disk, {r});
        match fate {
          case Dies => return Killed;
          case Fails => return Raised(AuditRecoveryFailed);
          case Works =>
        }
      }
      return Done(());
    }

    /** The last part of _write_once once the record is linked: unlink the temporary name, and sync the directory. */
    method UnlinkAndSync(f: File, value: Bytes) returns (o: Outcome<()>)
      requires Wf(disk) && f in disk.data && disk.data[f] == value && f in disk.durable
      requires ViewOf(disk.now, f.record) == View(Some(f.token), {f.token})
      modifies this
      ensures Later()
      ensures o.Done? ==> Failed() == old(Failed())
      ensures Adds(old(disk), disk, f.record, value) && ViewOf(disk.now, f.record).token == Some(f.token)
      ensures o.Done? ==> Held(disk, f.record, value) && ViewOf(disk.now, f.record).temps == {} && Synced(disk)
      ensures o.Raised? ==> Failed() > old(Failed()) && o.reason == AuditSyncFailed
      ensures old(Faultless()) ==> o.Done?
      ensures old(clock) + 1 < schedule.calm ==> o.Done? && clock == old(clock) + 2
      ensures schedule.DiesAt(old(clock) + 1) ==> Unsynced(old(disk), disk, f.record, value, o)
    {
      var fate := UnlinkTemp(f);
      if fate == Works {
        ghost var e := disk;
        fate := SyncAudit(f.record);
        AddsTransitive(old(disk), e, disk, f.record, value);
      }
      o := match fate
      case Dies => Killed
      case Fails => Raised(AuditSyncFailed)
      case Works => Done(());
    }

    /** The last part of _write_once without its error handling: link a complete temporary file to its absent record
        name, and make that durable. */
    method LinkAndSync(f: File, value: Bytes) returns (o: Outcome<()>, linked: bool)
      requires Wf(disk) && f in disk.data && disk.data[f] == value && f in disk.durable
      requires ViewOf(disk.now, f.record) == View(None, {f.token})
      modifies this
      ensures Later()
      ensures o.Done? ==> Failed() == old(Failed())
      ensures Adds(old(disk), disk, f.record, value)
      ensures ViewOf(disk.now, f.record).token == (if linked then Some(f.token) else None)
      ensures o.Done? ==> Held(disk, f.record, value) && ViewOf(disk.now, f.record).temps == {} && Synced(disk)
      ensures o.Raised? ==> Failed() > old(Failed()) && o.reason == if linked then AuditSyncFailed else AuditWriteFailed
      ensures old(Faultless()) ==> o.Done?
      ensures old(clock) + 2 < schedule.calm ==> o.Done? && clock == old(clock) + 3
      ensures schedule.DiesAt(old(clock) + 2) ==> Unsynced(old(disk), disk, f.record, value, o)
    {
      var link := Link(f);
      linked := link.Done?;
      if !linked {
        o := link.PropagateFailure();
        return;
      }
      assert link.value;
      ghost var e := disk;
      o := UnlinkAndSync(f, value);
      AddsTransitive(old(disk), e, disk, f.record, value);
    }

    /** The last part of _write_once. */
    method LinkRecord(f: File, value: Bytes) returns (o: Outcome<()>)
      requires Wf(disk) && f in disk.data && disk.data[f] == value && f in disk.durable
      requires ViewOf(disk.now, f.record) == View(None, {f.token})
      modifies this
      ensures Later()
      ensures o.Done? ==> Failed() == old(Failed())
      ensures Adds(old(disk), disk, f.record, value)
      ensures o.Done? ==> Held(disk, f.record, value) && ViewOf(disk.now, f.record).temps == {} && Synced(disk)
      ensures o.Raised? && o.reason != AuditCleanupFailed ==> ViewOf(disk.now, f.record).token.None?
      ensures o == Raised(AuditCleanupFailed) ==> Failed() >= old(Failed()) + 2
      ensures old(Faultless()) ==> o.Done?
      ensures o.Raised? ==> Failed() > old(Failed())
      ensures old(clock) + 2 < schedule.calm ==> o.Done? && clock == old(clock) + 3
      ensures schedule.DiesAt(old(clock) + 2) ==> Unsynced(old(disk), disk, f.record, value, o)
    {
      var linked;
      o, linked := LinkAndSync(f, value);
      if o.Raised? {
        ghost var e := disk;
        var removed := RemoveAuditFiles(f, linked);
        AddsTransitive(old(disk), e, disk, f.record, value);
        if !removed.Done? {
          o := removed;
        }
      }
    }

    /** The middle part of _write_once without its error handling: a new temporary file is created, written and
        synced. */
    method NewTemp(r: Record, value: Bytes) returns (o: Outcome<()>, temp: Option<File>)
      requires Wf(disk) && ViewOf(disk.now, r) == NoNames
      modifies this
      ensures Later()
      ensures o.Done? ==> Failed() == old(Failed())
      ensures Adds(old(disk), disk, r, value)
      ensures o.Raised? ==> Failed() > old(Failed()) && o.reason != AuditCleanupFailed
      ensures ViewOf(disk.now, r) == if temp.Some? then View(None, {temp.value.token}) else NoNames
      ensures temp.Some? ==> temp.value.record == r
      ensures o.Done? ==> temp.Some? && temp.value in disk.data && disk.data[temp.value] == value && temp.value in disk.durable
      ensures old(Faultless()) ==> o.Done?
      ensures Stirred() == old(Stirred()) ==> SavedKept(old(disk), disk)
      ensures old(clock) + 2 < schedule.calm && Readable(value) ==> o.Done? && clock == old(clock) + 3
    {
      var created := CreateTemp(r);
      if !created.Done? {
        return created.PropagateFailure(), None;
      }
      var f := created.value;
      ghost var e := disk;
      o := WriteTemp(f, value);
      AddsFile(old(disk), e, disk, f, value);
      temp := Some(f);
    }

    /** The middle part of _write_once: a new temporary file is created, written, synced and linked. */
    method WriteNew(r: Record, value: Bytes) returns (o: Outcome<()>)
      requires Wf(disk) && ViewOf(disk.now, r) == NoNames
      modifies this
      ensures Later()
      ensures o.Done? ==> Failed() == old(Failed())
      ensures Adds(old(disk), disk, r, value)
      ensures o.Done? ==> Held(disk, r, value) && ViewOf(disk.now, r).temps == {} && Synced(disk)
      ensures o.Raised? && o.reason != AuditCleanupFailed ==> ViewOf(disk.now, r).token.None?
      ensures o == Raised(AuditCleanupFailed) ==> Failed() >= old(Failed()) + 2
      ensures old(Faultless()) ==> o.Done?
      ensures o.Raised? ==> Failed() > old(Failed())
      ensures old(clock) + 5 < schedule.calm && Readable(value) ==> o.Done? && clock == old(clock) + 6
      ensures schedule.DiesAt(old(clock) + 5) && Readable(value) ==> Unsynced(old(disk), disk, r, value, o)
    {
      var temp;
      o, temp := NewTemp(r, value);
      if o.Killed? || temp.None? {
        return;
      }
      ghost var e := disk;
      if o.Raised? {
        var removed := RemoveAuditFiles(temp.value, false);
        AddsTransitive(old(disk), e, disk, r, value);
        if !removed.Done? {
          o := removed;
        }
        return;
      }
      if schedule.DiesAt(old(clock) + 5) && Readable(value) {
        StillUntil(schedule, old(clock), clock);
      }
      o := LinkRecord(temp.value, value);
      AddsTransitive(old(disk), e, disk, r, value);
    }

    /** The first part of _write_once: clean up, and look for the record.  False means that it has to be written. */
    method FindExisting(r: Record, value: Bytes) returns (o: Outcome<bool>)
      requires Wf(disk)
      modifies this
      ensures Later()
      ensures o.Done? ==> Failed() == old(Failed())
      ensures Adds(old(disk), disk, r, value)
      ensures if o.Done? && !o.value then ViewOf(disk.now, r) == NoNames && ViewOf(old(disk).now, r).token.None?
              else WroteOnce(old(disk), disk, r, value, if o.Done? then Done(()) else o.PropagateFailure())
      ensures o.Raised? ==> o.reason != AuditCleanupFailed
      ensures old(Faultless()) ==> (o.Done? <==> CanWrite(old(disk), r, value))
      ensures o.Raised? && CanWrite(old(disk), r, value) ==> Failed() > old(Failed())
      ensures Stirred() == old(Stirred()) && ViewOf(old(disk).now, r).temps == {} ==> SavedKept(old(disk), disk)
      ensures old(clock) + 1 < schedule.calm && ViewOf(old(disk).now, r) == NoNames ==> o == Done(false) && clock == old(clock) + 2
      ensures old(clock) + 2 < schedule.calm && Tidy(old(disk), r) && Held(old(disk), r, value) && Readable(value) ==>
                o == Done(true) && clock == old(clock) + 3
    {
      var cleaned := CleanupAuditTemps(r);
      if !cleaned.Done? {
        return cleaned.PropagateFailure();
      }
      ghost var e := disk;
      o := ExistingAuditMatches(r, value);
      AddsTransitive(old(disk), e, disk, r, value);
    }

    /** context_migration._write_once */
    method WriteOnce(r: Record, value: Bytes) returns (o: Outcome<()>)
      requires Wf(disk)
      modifies this
      ensures Later()
      ensures o.Done? ==> Failed() == old(Failed())
      ensures WroteOnce(old(disk), disk, r, value, o)
      ensures o == Raised(AuditCleanupFailed) ==> Failed() >= old(Failed()) + 2
      ensures old(Faultless()) ==> (o.Done? <==> CanWrite(old(disk), r, value))
      ensures o.Raised? && CanWrite(old(disk), r, value) ==> Failed() > old(Failed())
      ensures Stirred() == old(Stirred()) && Tidy(old(disk), r) ==> SavedKept(old(disk), disk)
      ensures old(clock) + 7 < schedule.calm && ViewOf(old(disk).now, r) == NoNames && Readable(value) ==>
                o.Done? && clock == old(clock) + 8
      ensures old(clock) + 2 < schedule.calm && Tidy(old(disk), r) && Held(old(disk), r, value) && Readable(value) ==>
                o.Done? && clock == old(clock) + 3
      ensures schedule.DiesAt(old(clock) + 7) && ViewOf(old(disk).now, r) == NoNames && Readable(value) ==>
                Unsynced(old(disk), disk, r, value, o)
    {
      var found := FindExisting(r, value);
      if !found.Done? || found.value {
        return if found.Done? then Done(()) else found.PropagateFailure();
      }
      if schedule.DiesAt(old(clock) + 7) && ViewOf(old(disk).now, r) == NoNames {
        StillUntil(schedule, old(clock), clock);
      }
      ghost var e := disk;
      o := WriteNew(r, value);
      AddsTransitive(old(disk), e, disk, r, value);
    }

    /** A system call that reads, on any file. */
    method Read() returns (fate: Fate)
      requires Wf(disk)
      modifies this
      ensures OneCall(fate)
      ensures Idle(old(disk), disk) && disk.flushed == old(disk).flushed
      ensures Stirred() == old(Stirred()) ==> SavedKept(old(disk), disk) && disk.liveSaved == old(disk).liveSaved
    {
      var ev := Enter();
      fate := ev.fate;
    }

    /** os.mkdir of a private stage directory under a fresh random name. */
    method MakeStage() returns (o: Outcome<nat>)
      requires Wf(disk)
      modifies this
      ensures OneCall(FateOf(o)) && (o.Raised? ==> o.reason == StagingFailed)
      ensures o.Done? ==> o.value !in old(disk).stages && o.value !in disk.flushed
      ensures Staging(old(disk), disk, if o.Done? then old(disk).stages[o.value := None] else old(disk).stages)
      ensures Stirred() == old(Stirred()) ==> SavedKept(old(disk), disk)
    {
      var ev := Enter();
      match ev.fate
      case Dies => return Killed;
      case Fails => return Raised(StagingFailed);
      case Works =>
        var s := disk.nextStage;
        disk := disk.(stages := disk.stages[s := None], nextStage := s + 1);
        return Done(s);
    }

    /** A system call that may create the staged file, or remove it. */
    method SetStage(s: nat, content: Option<Bytes>) returns (fate: Fate)
      requires Wf(disk) && s in disk.stages && (content.Some? ==> s !in disk.flushed)
      modifies this
      ensures OneCall(fate)
      ensures Staging(old(disk), disk, if fate == Works then old(disk).stages[s := content] else old(disk).stages)
      ensures disk.flushed == old(disk).flushed
      ensures Stirred() == old(Stirred()) ==> SavedKept(old(disk), disk)
    {
      var ev := Enter();
      fate := ev.fate;
      if fate == Works {
        disk := disk.(stages := disk.stages[s := content]);
      }
    }

    /** One os.write on a staged file, after which the file holds this prefix of the value. */
    method WriteStageChunk(s: nat, value: Bytes, offset: nat) returns (o: Outcome<nat>)
      requires Wf(disk) && s in disk.stages && s !in disk.flushed && offset < |value|
      modifies this
      ensures OneCall(FateOf(o)) && (o.Raised? ==> o.reason == MigrationWriteFailed)
      ensures o.Done? ==> offset < o.value <= |value|
      ensures o.Done? && |value| - offset <= schedule.At(old(clock)).chunk ==> o.value == |value|
      ensures Staging(old(disk), disk,
                      if o.Done? then old(disk).stages[s := Some(value[..o.value])] else old(disk).stages)
      ensures disk.flushed == old(disk).flushed
      ensures Stirred() == old(Stirred()) ==> SavedKept(old(disk), disk)
    {
      var ev := Enter();
      match ev.fate
      case Dies => return Killed;
      case Fails => return Raised(MigrationWriteFailed);
      case Works =>
        var end := if ev.chunk >= |value| - offset then |value| else offset + 1 + ev.chunk;
        disk := disk.(stages := disk.stages[s := Some(value[..end])]);
        return Done(end);
    }

    /** os.fsync of a staged file. */
    method SyncStage(s: nat) returns (fate: Fate)
      requires Wf(disk) && s in disk.stages
      modifies this
      ensures OneCall(fate)
      ensures Staging(old(disk), disk, old(disk).stages)
      ensures fate == Works ==> s in disk.flushed
      ensures Stirred() == old(Stirred()) ==> SavedKept(old(disk), disk)
    {
      var ev := Enter();
      fate := ev.fate;
      if fate == Works {
        assert s < disk.nextStage;
        disk := disk.(flushed := disk.flushed + {s});
      }
    }

    /** context_migration._write_all on a staged file, then fsync. */
    method WriteStage(s: nat, value: Bytes) returns (o: Outcome<()>)
      requires Wf(disk) && s in disk.stages && disk.stages[s] == Some([]) && s !in disk.flushed
      modifies this
      ensures Later()
      ensures o.Done? ==> Failed() == old(Failed())
      ensures old(Faultless()) ==> o.Done?
      ensures o.Raised? ==> Failed() > old(Failed())
      ensures o.Raised? ==> o.reason == MigrationWriteFailed
      ensures s in disk.stages && Staging(old(disk), disk, old(disk).stages[s := disk.stages[s]])
      ensures o.Done? ==> disk.stages[s] == Some(value) && s in disk.flushed
      ensures Stirred() == old(Stirred()) ==> SavedKept(old(disk), disk)
      ensures old(clock) + 1 < schedule.calm && 0 < |value| <= MAX_CONTEXT_BYTES ==> o.Done? && clock == old(clock) + 2
    {
      ghost var d := disk;
      var offset := 0;
      while offset < |value|
        invariant 0 <= offset <= |value|
        invariant Staging(d, disk, d.stages[s := Some(value[..offset])]) && s !in disk.flushed
        invariant clock >= old(clock) && (offset == 0 ==> clock == old(clock))
        invariant Failed() == old(Failed()) && Stirred() >= old(Stirred())
        invariant Stirred() == old(Stirred()) ==> SavedKept(d, disk)
        invariant old(clock) + 1 < schedule.calm && |value| <= MAX_CONTEXT_BYTES && offset > 0 ==>
                    offset == |value| && clock == old(clock) + 1
        decreases |value| - offset
      {
        ghost var e := disk;
        var written := WriteStageChunk(s, value, offset);
        StagingTransitive(d, e, disk);
        if !written.Done? {
          return written.PropagateFailure();
        }
        offset := written.value;
      }
      assert value[..offset] == value;
      ghost var e := disk;
      var fate := SyncStage(s);
      StagingTransitive(d, e, disk);
      o := match fate
      case Dies => Killed
      case Fails => Raised(MigrationWriteFailed)
      case Works => Done(());
    }

    method RemoveStage(s: nat) returns (fate: Fate)
      requires Wf(disk)
      modifies this
      ensures OneCall(fate)
      ensures Staging(old(disk), disk, if fate == Works then old(disk).stages - {s} else old(disk).stages)
    {
      var ev := Enter();
      fate := ev.fate;
      if fate == Works {
        disk := disk.(stages := disk.stages - {s});
      }
    }

    /** os.fsync of the config directory. */
    method SyncConfig() returns (fate: Fate)
      requires Wf(disk)
      modifies this
      ensures OneCall(fate)
      ensures Staging(old(disk), disk, old(disk).stages)
      ensures fate == Works ==> disk.liveSaved == disk.live
      ensures Stirred() == old(Stirred()) ==> SavedKept(old(disk), disk)
    {
      var ev := Enter();
      fate := ev.fate;
      if fate == Works {
        disk := disk.(liveSaved := disk.live);
      }
    }

    /** context_migration._publish_stage: one atomic rename over the live context. */
    method PublishStage(s: nat) returns (o: Outcome<()>)
      requires Wf(disk) && s in disk.stages && disk.stages[s].Some?
      modifies this
      ensures OneCall(FateOf(o)) && (o.Raised? ==> o.reason == ContextPublishFailed)
      ensures disk.liveDurable == (old(disk).liveDurable && (o.Done? ==> s in old(disk).flushed))
      ensures Beside(old(disk), disk.(liveDurable := old(disk).liveDurable))
      ensures (o.Done? ==> s in old(disk).flushed) ==> Beside(old(disk), disk)
      ensures disk.liveSaved in {old(disk).liveSaved, old(disk).live}
      ensures if o.Done? then disk.live == old(disk).stages[s].value && disk.stages == old(disk).stages[s := None]
              else disk.live == old(disk).live && disk.stages == old(disk).stages
      ensures Stirred() == old(Stirred()) ==> SavedKept(old(disk), disk)
    {
      var ev := Enter();
      match ev.fate
      case Dies => return Killed;
      case Fails => return Raised(ContextPublishFailed);
      case Works =>
        disk := disk.(
        live := disk.stages[s].value, liveDurable := disk.liveDurable && s in disk.flushed, stages := disk.stages[s := None]);
        return Done(());
    }

    /** Removing an empty stage directory and syncing its parent. */
    method DropStage(s: nat) returns (o: Outcome<()>)
      requires Wf(disk)
      modifies this
      ensures Later()
      ensures o.Done? ==> Failed() == old(Failed())
      ensures old(Faultless()) ==> o.Done?
      ensures o.Raised? ==> Failed() > old(Failed())
      ensures o.Raised? ==> o.reason == StagingCleanupFailed
      ensures Staging(old(disk), disk, disk.stages)
      ensures old(disk).stages.Keys - {s} <= disk.stages.Keys
      ensures o.Done? ==> disk.stages == old(disk).stages - {s} && disk.liveSaved == disk.live
    {
      ghost var d := disk;
      var fate := RemoveStage(s);
      if fate == Works {
        ghost var e := disk;
        fate := SyncConfig();
        StagingTransitive(d, e, disk);
      }
      match fate
      case Dies => return Killed;
      case Fails => return Raised(StagingCleanupFailed);
      case Works => return Done(());
    }

    /** context_migration._cleanup_stage */
    method CleanupStage(s: nat) returns (o: Outcome<()>)
      requires Wf(disk) && s in disk.stages
      modifies this
      ensures Later()
      ensures o.Done? ==> Failed() == old(Failed())
      ensures old(Faultless()) ==> o.Done?
      ensures o.Raised? ==> Failed() > old(Failed())
      ensures o.Raised? ==> o.reason == StagingCleanupFailed
      ensures Staging(old(disk), disk, disk.stages)
      ensures old(disk).stages.Keys - {s} <= disk.stages.Keys
      ensures o.Done? ==> disk.stages == old(disk).stages - {s} && disk.liveSaved == disk.live
    {
      ghost var d := disk;
      var fate := SetStage(s, None);
      match fate {
        case Dies => return Killed;
        case Fails => return Raised(StagingCleanupFailed);
        case Works =>
      }
      ghost var e := disk;
      o := DropStage(s);
      StagingTransitive(d, e, disk);
    }

    /** The part of _create_stage after the stage directory is open. */
    method FillStage(s: nat, raw: Bytes) returns (o: Outcome<()>)
      requires Wf(disk) && s in disk.stages && s !in disk.flushed
      modifies this
      ensures Later()
      ensures o.Done? ==> Failed() == old(Failed())
      ensures old(Faultless()) ==> o.Done?
      ensures o.Raised? ==> Failed() > old(Failed())
      ensures o.Raised? ==> o.reason in {StagingFailed, MigrationWriteFailed}
      ensures s in disk.stages && Staging(old(disk), disk, old(disk).stages[s := disk.stages[s]])
      ensures o.Done? ==> disk.stages[s] == Some(raw) && s in disk.flushed
      ensures Stirred() == old(Stirred()) ==> SavedKept(old(disk), disk)
      ensures old(clock) + 3 < schedule.calm && Readable(raw) ==> o.Done? && clock == old(clock) + 4
    {
      ghost var d := disk;
      var fate := SetStage(s, Some([]));
      match fate {
        case Dies => return Killed;
        case Fails => return Raised(StagingFailed);
        case Works =>
      }
      ghost var e := disk;
      o := WriteStage(s, raw);
      StagingTransitive(d, e, disk);
      if o.Done? {
        e := disk;
        fate := Read();  // os.fsync of the stage directory
        StagingTransitive(d, e, disk);
        match fate
        case Dies => return Killed;
        case Fails => return Raised(StagingFailed);
        case Works => return;
      }
    }

    /** Making and opening a stage directory. */
    method OpenStage() returns (o: Outcome<nat>)
      requires Wf(disk)
      modifies this
      ensures Later()
      ensures o.Done? ==> Failed() == old(Failed())
      ensures old(Faultless()) ==> o.Done?
      ensures o.Raised? ==> Failed() > old(Failed())
      ensures o.Done? ==> o.value !in old(disk).stages && o.value !in disk.flushed
      ensures Staging(old(disk), disk, disk.stages)
      ensures old(disk).stages.Keys <= disk.stages.Keys
      ensures o.Done? ==> disk.stages == old(disk).stages[o.value := None]
      ensures o.Raised? ==> o.reason in {StagingFailed, StagingCleanupFailed}
      ensures o == Raised(StagingFailed) ==> disk.stages == old(disk).stages
      ensures o.Done? && Stirred() == old(Stirred()) ==> SavedKept(old(disk), disk)
      ensures old(clock) + 1 < schedule.calm ==> o.Done? && clock == old(clock) + 2
    {
      ghost var d := disk;
      o := MakeStage();
      if !o.Done? {
        return;
      }
      ghost var e := disk;
      var fate := Read();  // opening and validating the stage directory
      StagingTransitive(d, e, disk);
      if fate == Dies {
        return Killed;
      }
      if fate == Fails {
        e := disk;
        var dropped := DropStage(o.value);
        StagingTransitive(d, e, disk);
        o := if dropped.Done? then Raised(StagingFailed) else dropped.PropagateFailure();
      }
    }

    /** context_migration._create_stage */
    method CreateStage(raw: Bytes) returns (o: Outcome<nat>)
      requires Wf(disk)
      modifies this
      ensures Later()
      ensures o.Done? ==> Failed() == old(Failed())
      ensures old(Faultless()) ==> o.Done?
      ensures o.Raised? ==> Failed() > old(Failed())
      ensures o.Done? ==> o.value !in old(disk).stages && o.value in disk.flushed
      ensures Staging(old(disk), disk, disk.stages)
      ensures old(disk).stages.Keys <= disk.stages.Keys
      ensures o.Done? ==> disk.stages == old(disk).stages[o.value := Some(raw)]
      ensures o.Raised? ==> o.reason in {StagingFailed, MigrationWriteFailed, StagingCleanupFailed}
      ensures o.Raised? && o.reason != StagingCleanupFailed ==> disk.stages == old(disk).stages
      ensures o.Done? && Stirred() == old(Stirred()) ==> SavedKept(old(disk), disk)
      ensures old(clock) + 5 < schedule.calm && Readable(raw) ==> o.Done? && clock == old(clock) + 6
    {
      ghost var d := disk;
      o := OpenStage();
      if !o.Done? {
        return;
      }
      ghost var e := disk;
      var filled := FillStage(o.value, raw);
      StagingTransitive(d, e, disk);
      if filled.Killed? {
        o := Killed;
      } else if filled.Raised? {
        e := disk;
        var cleaned := CleanupStage(o.value);
        StagingTransitive(d, e, disk);
        o := if cleaned.Done? then filled.PropagateFailure() else cleaned.PropagateFailure();
      }
    }
  }
}
