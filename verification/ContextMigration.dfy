/** The context migration transaction: prepare the audit trail, stage and publish the target, commit or roll
    back, and finish an interrupted commit from what is on disk. */
module ContextMigration {
  import opened Content
  import opened Outcomes
  import opened AuditDisk
  import opened MigrationHost

  datatype LoaderOutcome = Loaded | Rejected(error: string) | Broken

  datatype LoaderExpectation = Pass | ExactRejection(error: string)

  /** A migration plan, with the loader and JSON parser it runs against; all of them deterministic. */
  datatype Plan = Plan(
    loader: Bytes -> LoaderOutcome, isObject: Bytes -> bool,
    sourceLoader: LoaderExpectation, targetLoader: LoaderExpectation,
    recognizeSource: Bytes -> bool, recognizeTarget: Bytes -> bool,
    transform: Bytes -> Option<Bytes>,
    payload: (Status, Digest, Digest) -> Bytes)
  {
    /** context_migration._expect */
    predicate Expected(raw: Bytes, e: LoaderExpectation) {
      match e
      case Pass => loader(raw).Loaded?
      case ExactRejection(error) => loader(raw) == Rejected(error)
    }

    /** context_migration._matches */
    predicate Matches(raw: Bytes, source: bool) {
      if source then Expected(raw, sourceLoader) && recognizeSource(raw)
      else Expected(raw, targetLoader) && recognizeTarget(raw)
    }

    /** A context file that _capture_snapshot accepts. */
    predicate Capturable(raw: Bytes) {
      Readable(raw) && !loader(raw).Broken? && isObject(raw)
    }

    function JournalBytes(status: Status, src: Bytes, tgt: Bytes): Bytes {
      payload(status, Sha256(src), Sha256(tgt))
    }

    /** No context is recognised both as source and as target. */
    ghost predicate Disjoint() {
      forall raw :: !(Matches(raw, true) && Matches(raw, false))
    }
  }

  datatype Report =
    | DryRun(before: Digest, after: Digest)
    | Applied(before: Digest, after: Digest)
    | RolledBack(before: Digest)
    | AlreadyDone(before: Digest)
    | RecoveredCommit(before: Digest, after: Digest)

  function BackupOf(src: Bytes): Record {
    Backup(Sha256(src))
  }

  function JournalOf(status: Status, src: Bytes, tgt: Bytes): Record {
    Journal(status, Sha256(src), Sha256(tgt))
  }

  function Trail(src: Bytes, tgt: Bytes): set<Record> {
    {BackupOf(src), JournalOf(PREPARED, src, tgt), JournalOf(COMMITTED, src, tgt)}
  }

  /** The records a recovery needs can be read back. */
  ghost predicate Recoverable(plan: Plan, src: Bytes, tgt: Bytes, d: Disk) {
    && Held(d, BackupOf(src), src)
    && Held(d, JournalOf(PREPARED, src, tgt), plan.JournalBytes(PREPARED, src, tgt))
  }

  /** Recoverable, and a power loss cannot change that. */
  ghost predicate PowerSafe(plan: Plan, src: Bytes, tgt: Bytes, d: Disk) {
    && Safe(d, BackupOf(src), src)
    && Safe(d, JournalOf(PREPARED, src, tgt), plan.JournalBytes(PREPARED, src, tgt))
  }

  /** Both records are already there, so preparing them again syncs nothing, but they were never made durable. */
  ghost predicate Hazard(plan: Plan, src: Bytes, tgt: Bytes, d: Disk) {
    && Tidy(d, BackupOf(src)) && Tidy(d, JournalOf(PREPARED, src, tgt))
    && Recoverable(plan, src, tgt, d) && !PowerSafe(plan, src, tgt, d)
  }

  /** No version of the audit trail, seen or saved, has a wrong content. */
  ghost predicate Honest(plan: Plan, src: Bytes, tgt: Bytes, d: Disk) {
    && Says(d, BackupOf(src), src)
    && Says(d, JournalOf(PREPARED, src, tgt), plan.JournalBytes(PREPARED, src, tgt))
    && Says(d, JournalOf(COMMITTED, src, tgt), plan.JournalBytes(COMMITTED, src, tgt))
  }

  /** A record that exists keeps its file, the file its content, and no temporary name is added. */
  ghost predicate RecordsKept(d: Disk, e: Disk) {
    forall r :: ViewOf(d.now, r).token.Some? ==>
                  && ViewOf(e.now, r).token == ViewOf(d.now, r).token && ViewOf(e.now, r).temps <= ViewOf(d.now, r).temps
                  && (var f := File(r, ViewOf(d.now, r).token.value); f in d.data ==> f in e.data && e.data[f] == d.data[f])
  }

  lemma AuditKeptWiden(d: Disk, e: Disk, rs: set<Record>, qs: set<Record>)
    requires AuditKept(d, e, rs) && rs <= qs
    ensures AuditKept(d, e, qs)
  {
  }

  /** Writing one record keeps what is known about it and about every other record. */
  lemma WriteKeeps(d: Disk, e: Disk, r: Record, value: Bytes, o: Outcome<()>, q: Record, content: Bytes)
    requires WroteOnce(d, e, r, value, o) && (q == r ==> content == value)
    ensures Says(d, q, content) ==> Says(e, q, content)
    ensures Held(d, q, content) ==> Held(e, q, content)
    ensures Safe(d, q, content) ==> Safe(e, q, content)
    ensures Synced(e) && Held(e, q, content) && Tidy(e, q) && Says(e, q, content) ==> Safe(e, q, content)
  {
    if q != r {
      KeepsOthers(d, e, {r}, q, content);
    }
  }

  lemma HonestCanWrite(plan: Plan, src: Bytes, tgt: Bytes, d: Disk, status: Status)
    requires Honest(plan, src, tgt, d) && Readable(plan.JournalBytes(status, src, tgt))
    ensures CanWrite(d, JournalOf(status, src, tgt), plan.JournalBytes(status, src, tgt))
  {
    assert status == PREPARED || status == COMMITTED;
  }

  /** What preparing the audit trail may do, however it ends. */
  ghost predicate PreparedTrail(plan: Plan, src: Bytes, tgt: Bytes, d: Disk, e: Disk, o: Outcome<()>) {
    var b, p := BackupOf(src), JournalOf(PREPARED, src, tgt);
    && AuditKept(d, e, {b, p}) && RecordsKept(d, e) && LiveKept(d, e) && e.stages == d.stages
    && (Honest(plan, src, tgt, d) ==> Honest(plan, src, tgt, e))
    && (Recoverable(plan, src, tgt, d) ==> Recoverable(plan, src, tgt, e))
    && (PowerSafe(plan, src, tgt, d) ==> PowerSafe(plan, src, tgt, e))
    && (o.Done? ==> Recoverable(plan, src, tgt, e))
    && (o.Done? && Honest(plan, src, tgt, d) && !Hazard(plan, src, tgt, d) ==> PowerSafe(plan, src, tgt, e))
  }

  lemma OneWritePrepares(plan: Plan, src: Bytes, tgt: Bytes, d: Disk, e: Disk, o: Outcome<()>)
    requires WroteOnce(d, e, BackupOf(src), src, o) && !o.Done?
    ensures PreparedTrail(plan, src, tgt, d, e, o)
  {
    var b, p, c := BackupOf(src), JournalOf(PREPARED, src, tgt), JournalOf(COMMITTED, src, tgt);
    AuditKeptWiden(d, e, {b}, {b, p});
    WriteKeeps(d, e, b, src, o, b, src);
    WriteKeeps(d, e, b, src, o, p, plan.JournalBytes(PREPARED, src, tgt));
    WriteKeeps(d, e, b, src, o, c, plan.JournalBytes(COMMITTED, src, tgt));
  }

  lemma TwoWritesKeep(plan: Plan, src: Bytes, tgt: Bytes, d: Disk, e: Disk, f: Disk, done: Outcome<()>, o: Outcome<()>)
    requires WroteOnce(d, e, BackupOf(src), src, done) && done.Done?
    requires WroteOnce(e, f, JournalOf(PREPARED, src, tgt), plan.JournalBytes(PREPARED, src, tgt), o)
    ensures Honest(plan, src, tgt, d) ==> Honest(plan, src, tgt, f)
    ensures Recoverable(plan, src, tgt, d) ==> Recoverable(plan, src, tgt, f)
    ensures PowerSafe(plan, src, tgt, d) ==> PowerSafe(plan, src, tgt, f)
    ensures o.Done? ==> Recoverable(plan, src, tgt, f)
  {
    var b, p, c := BackupOf(src), JournalOf(PREPARED, src, tgt), JournalOf(COMMITTED, src, tgt);
    var pv, cv := plan.JournalBytes(PREPARED, src, tgt), plan.JournalBytes(COMMITTED, src, tgt);
    WriteKeeps(d, e, b, src, done, b, src);
    WriteKeeps(d, e, b, src, done, p, pv);
    WriteKeeps(d, e, b, src, done, c, cv);
    WriteKeeps(e, f, p, pv, o, b, src);
    WriteKeeps(e, f, p, pv, o, p, pv);
    WriteKeeps(e, f, p, pv, o, c, cv);
  }

  lemma TwoWritesPowerSafe(plan: Plan, src: Bytes, tgt: Bytes, d: Disk, e: Disk, f: Disk, done: Outcome<()>, o: Outcome<()>)
    requires WroteOnce(d, e, BackupOf(src), src, done) && done.Done?
    requires WroteOnce(e, f, JournalOf(PREPARED, src, tgt), plan.JournalBytes(PREPARED, src, tgt), o) && o.Done?
    requires Honest(plan, src, tgt, d) && !Hazard(plan, src, tgt, d)
    ensures PowerSafe(plan, src, tgt, f)
  {
    var b, p := BackupOf(src), JournalOf(PREPARED, src, tgt);
    var pv := plan.JournalBytes(PREPARED, src, tgt);
    WriteKeeps(d, e, b, src, done, b, src);
    WriteKeeps(d, e, b, src, done, p, pv);
    WriteKeeps(e, f, p, pv, o, b, src);
    WriteKeeps(e, f, p, pv, o, p, pv);
    if Tidy(e, p) {
      assert Held(e, p, pv);
    }
  }

  lemma WriteKeepsRecords(d: Disk, e: Disk, r: Record, value: Bytes, o: Outcome<()>)
    requires WroteOnce(d, e, r, value, o)
    ensures RecordsKept(d, e)
  {
  }

  lemma RecordsKeptTransitive(d: Disk, e: Disk, f: Disk)
    requires RecordsKept(d, e) && RecordsKept(e, f) && Wf(d)
    ensures RecordsKept(d, f)
  {
    forall r | ViewOf(d.now, r).token.Some?
      ensures ViewOf(f.now, r).token == ViewOf(d.now, r).token && ViewOf(f.now, r).temps <= ViewOf(d.now, r).temps
      ensures var x := File(r, ViewOf(d.now, r).token.value); x in f.data && f.data[x] == d.data[x]
    {
      assert WfView(r, ViewOf(d.now, r), d.data);
    }
  }

  lemma TwoWritesPrepare(plan: Plan, src: Bytes, tgt: Bytes, d: Disk, e: Disk, f: Disk, done: Outcome<()>, o: Outcome<()>)
    requires Wf(d)
    requires WroteOnce(d, e, BackupOf(src), src, done) && done.Done?
    requires WroteOnce(e, f, JournalOf(PREPARED, src, tgt), plan.JournalBytes(PREPARED, src, tgt), o)
    ensures PreparedTrail(plan, src, tgt, d, f, o)
  {
    var b, p := BackupOf(src), JournalOf(PREPARED, src, tgt);
    AuditKeptWiden(d, e, {b}, {b, p});
    AuditKeptWiden(e, f, {p}, {b, p});
    AuditKeptTransitive(d, e, f, {b, p});
    WriteKeepsRecords(d, e, b, src, done);
    WriteKeepsRecords(e, f, p, plan.JournalBytes(PREPARED, src, tgt), o);
    RecordsKeptTransitive(d, e, f);
    TwoWritesKeep(plan, src, tgt, d, e, f, done, o);
    if o.Done? && Honest(plan, src, tgt, d) && !Hazard(plan, src, tgt, d) {
      TwoWritesPowerSafe(plan, src, tgt, d, e, f, done, o);
    }
  }

  /** Preparing again on top of a hazard changes nothing. */
  lemma HazardPersists(plan: Plan, src: Bytes, tgt: Bytes, d: Disk, e: Disk, r: Record, value: Bytes, o: Outcome<()>)
    requires Wf(d) && Hazard(plan, src, tgt, d) && SavedKept(d, e) && WroteOnce(d, e, r, value, o)
    requires (r == BackupOf(src) && value == src)
             || (r == JournalOf(PREPARED, src, tgt) && value == plan.JournalBytes(PREPARED, src, tgt))
    ensures Hazard(plan, src, tgt, e)
  {
    var b, p, pv := BackupOf(src), JournalOf(PREPARED, src, tgt), plan.JournalBytes(PREPARED, src, tgt);
    WriteKeeps(d, e, r, value, o, b, src);
    WriteKeeps(d, e, r, value, o, p, pv);
    StaysUnsafe(d, e, b, src);
    StaysUnsafe(d, e, p, pv);
  }

  lemma StaysUnsafe(d: Disk, e: Disk, r: Record, value: Bytes)
    requires Wf(d) && DataKept(d, e)
    requires ViewOf(e.now, r) == ViewOf(d.now, r) && ViewOf(e.saved, r) == ViewOf(d.saved, r) && e.durable == d.durable
    ensures Safe(e, r, value) ==> Safe(d, r, value)
  {
    assert WfView(r, ViewOf(d.now, r), d.data) && WfView(r, ViewOf(d.saved, r), d.data);
  }

  /** No file of the migration is there yet, and the source is live and saved and not the target. */
  ghost predicate Untouched(src: Bytes, tgt: Bytes, d: Disk) {
    && ViewOf(d.now, BackupOf(src)) == NoNames && ViewOf(d.now, JournalOf(PREPARED, src, tgt)) == NoNames
    && ViewOf(d.now, JournalOf(COMMITTED, src, tgt)).token.None?
    && d.live == src && d.liveSaved == src && src != tgt
  }

  /** How far the runs of a plan have gone towards a target published on records that were never made durable. */
  datatype Danger = NotStarted | SourceOnHazard | TargetOnHazard | NoDanger

  ghost function DangerOf(plan: Plan, src: Bytes, tgt: Bytes, d: Disk): Danger {
    if !Fitting(plan, src, tgt) then NoDanger
    else if Untouched(src, tgt, d) then NotStarted
    else if !Hazard(plan, src, tgt, d) then NoDanger
    else if d.live == tgt && d.liveSaved == tgt then TargetOnHazard
    else if d.live == src && d.liveSaved == src && ViewOf(d.now, JournalOf(COMMITTED, src, tgt)).token.None? then SourceOnHazard
    else NoDanger
  }

  /** A process killed just before the fsync of its second record leaves a hazard. */
  lemma UnsyncedIsHazard(plan: Plan, src: Bytes, tgt: Bytes, d: Disk, e: Disk, f: Disk, done: Outcome<()>, o: Outcome<()>)
    requires WroteOnce(d, e, BackupOf(src), src, done) && done.Done?
    requires WroteOnce(e, f, JournalOf(PREPARED, src, tgt), plan.JournalBytes(PREPARED, src, tgt), o)
    ensures DangerOf(plan, src, tgt, d) == NotStarted
            && Unsynced(e, f, JournalOf(PREPARED, src, tgt), plan.JournalBytes(PREPARED, src, tgt), o)
            ==> DangerOf(plan, src, tgt, f) == SourceOnHazard
  {
    var b, p := BackupOf(src), JournalOf(PREPARED, src, tgt);
    if DangerOf(plan, src, tgt, d) == NotStarted && Unsynced(e, f, p, plan.JournalBytes(PREPARED, src, tgt), o) {
      assert ViewOf(f.saved, p) == ViewOf(e.saved, p) == ViewOf(e.now, p) == NoNames;
      KeepsOthers(e, f, {p}, b, src);
    }
  }

  /** context_migration._prepare_audit */
  method PrepareAudit(h: Host, plan: Plan, src: Bytes, tgt: Bytes) returns (o: Outcome<()>)
    requires Wf(h.disk)
    modifies h
    ensures h.Later()
    ensures o.Done? ==> h.Failed() == old(h.Failed())
    ensures PreparedTrail(plan, src, tgt, old(h.disk), h.disk, o)
    ensures old(h.Faultless()) && Honest(plan, src, tgt, old(h.disk))
              && Readable(src) && Readable(plan.JournalBytes(PREPARED, src, tgt))
            ==> o.Done?
    ensures h.Stirred() == old(h.Stirred()) && Hazard(plan, src, tgt, old(h.disk)) ==> Hazard(plan, src, tgt, h.disk)
    ensures old(h.clock) + 5 < h.schedule.calm && Hazard(plan, src, tgt, old(h.disk))
              && Readable(src) && Readable(plan.JournalBytes(PREPARED, src, tgt))
            ==> o.Done? && h.clock == old(h.clock) + 6
    ensures h.schedule.DiesAt(old(h.clock) + 15) && DangerOf(plan, src, tgt, old(h.disk)) == NotStarted ==>
              o.Killed? && DangerOf(plan, src, tgt, h.disk) == SourceOnHazard
  {
    ghost var d := h.disk;
    ghost var killed := h.schedule.DiesAt(h.clock + 15) && DangerOf(plan, src, tgt, d) == NotStarted;
    o := h.WriteOnce(BackupOf(src), src);
    ghost var e := h.disk;
    if Hazard(plan, src, tgt, d) && (h.Stirred() == old(h.Stirred()) || h.clock <= h.schedule.calm) {
      StillUntil(h.schedule, old(h.clock), h.clock);
      HazardPersists(plan, src, tgt, d, e, BackupOf(src), src, o);
    }
    assert killed ==> o.Done? && h.schedule.DiesAt(h.clock + 7);
    if o.Done? {
      o := PrepareJournal(h, plan, src, tgt, d, o);
    } else {
      OneWritePrepares(plan, src, tgt, d, e, o);
    }
  }

  /** The second half of context_migration._prepare_audit, after the backup has been written. */
  method PrepareJournal(h: Host, plan: Plan, src: Bytes, tgt: Bytes, ghost d: Disk, ghost done: Outcome<()>)
    returns (o: Outcome<()>)
    requires Wf(d) && Wf(h.disk) && WroteOnce(d, h.disk, BackupOf(src), src, done) && done.Done?
    modifies h
    ensures h.Later()
    ensures o.Done? ==> h.Failed() == old(h.Failed())
    ensures PreparedTrail(plan, src, tgt, d, h.disk, o)
    ensures old(h.Faultless()) && Honest(plan, src, tgt, d) && Readable(plan.JournalBytes(PREPARED, src, tgt)) ==> o.Done?
    ensures h.Stirred() == old(h.Stirred()) && Hazard(plan, src, tgt, old(h.disk)) ==> Hazard(plan, src, tgt, h.disk)
    ensures old(h.clock) + 2 < h.schedule.calm && Hazard(plan, src, tgt, old(h.disk))
              && Readable(plan.JournalBytes(PREPARED, src, tgt))
            ==> o.Done? && h.clock == old(h.clock) + 3
    ensures h.schedule.DiesAt(old(h.clock) + 7) && DangerOf(plan, src, tgt, d) == NotStarted ==>
              o.Killed? && DangerOf(plan, src, tgt, h.disk) == SourceOnHazard
  {
    var p, pv := JournalOf(PREPARED, src, tgt), plan.JournalBytes(PREPARED, src, tgt);
    ghost var e := h.disk;
    WriteKeeps(d, e, BackupOf(src), src, done, p, pv);
    assert DangerOf(plan, src, tgt, d) == NotStarted ==> ViewOf(e.now, p) == NoNames;
    ghost var killed := h.schedule.DiesAt(h.clock + 7) && DangerOf(plan, src, tgt, d) == NotStarted;
    o := h.WriteOnce(p, pv);
    assert killed ==> o.Killed?;
    if h.Stirred() == old(h.Stirred()) && Hazard(plan, src, tgt, e) {
      HazardPersists(plan, src, tgt, e, h.disk, p, pv, o);
    }
    TwoWritesPrepare(plan, src, tgt, d, e, h.disk, done, o);
    UnsyncedIsHazard(plan, src, tgt, d, e, h.disk, done, o);
    assert killed ==> DangerOf(plan, src, tgt, h.disk) == SourceOnHazard;
  }

  /** context_migration._capture_snapshot of the live context */
  method CaptureLive(h: Host, plan: Plan) returns (o: Outcome<Bytes>)
    requires Wf(h.disk)
    modifies h
    ensures h.Later()
    ensures o.Done? ==> h.Failed() == old(h.Failed())
    ensures Idle(old(h.disk), h.disk)
    ensures o.Done? ==> o.value == h.disk.live && plan.Capturable(o.value)
    ensures old(h.Faultless()) ==> (o.Done? <==> plan.Capturable(old(h.disk).live))
    ensures o.Raised? && plan.Capturable(old(h.disk).live) ==> h.Failed() > old(h.Failed())
    ensures h.schedule.At(old(h.clock)) == DEATH ==> o.Killed? && SavedKept(old(h.disk), h.disk)
    ensures h.Stirred() == old(h.Stirred()) ==> SavedKept(old(h.disk), h.disk)
    ensures old(h.clock) + 1 < h.schedule.calm && plan.Capturable(old(h.disk).live) ==> o.Done? && h.clock == old(h.clock) + 2
  {
    o := CaptureFile(h, plan, h.disk.live);
  }

  /** context_migration._capture_snapshot: read, load, and read again; nobody writes in between. */
  method CaptureFile(h: Host, plan: Plan, raw: Bytes) returns (o: Outcome<Bytes>)
    requires Wf(h.disk)
    modifies h
    ensures h.Later()
    ensures o.Done? ==> h.Failed() == old(h.Failed())
    ensures Idle(old(h.disk), h.disk)
    ensures o.Done? ==> o.value == raw && plan.Capturable(raw)
    ensures old(h.Faultless()) ==> (o.Done? <==> plan.Capturable(raw))
    ensures o.Raised? && plan.Capturable(raw) ==> h.Failed() > old(h.Failed())
    ensures h.schedule.At(old(h.clock)) == DEATH ==> o.Killed? && SavedKept(old(h.disk), h.disk)
    ensures h.Stirred() == old(h.Stirred()) ==> SavedKept(old(h.disk), h.disk)
    ensures old(h.clock) + 1 < h.schedule.calm && plan.Capturable(raw) ==> o.Done? && h.clock == old(h.clock) + 2
  {
    ghost var d := h.disk;
    var fate := h.Read();
    match fate {
      case Dies => return Killed;
      case Fails => return Raised(ContextFileUnavailable);
      case Works =>
    }
    if !Readable(raw) {
      return Raised(ContextFileUntrusted);
    }
    if plan.loader(raw).Broken? {
      return Raised(ContextValidationFailed);
    }
    ghost var e := h.disk;
    fate := h.Read();
    BesideTransitive(d, e, h.disk);
    match fate {
      case Dies => return Killed;
      case Fails => return Raised(ContextReadFailed);
      case Works =>
    }
    return if plan.isObject(raw) then Done(raw) else Raised(ContextJsonInvalid);
  }

  /** context_migration._online_unchanged */
  method OnlineUnchanged(h: Host, expected: Bytes) returns (o: Outcome<()>)
    requires Wf(h.disk)
    modifies h
    ensures h.Later()
    ensures o.Done? ==> h.Failed() == old(h.Failed())
    ensures Idle(old(h.disk), h.disk)
    ensures o.Done? ==> h.disk.live == expected
    ensures old(h.Faultless()) ==> (o.Done? <==> old(h.disk).live == expected && Readable(expected))
    ensures o.Raised? && old(h.disk).live == expected && Readable(expected) ==> h.Failed() > old(h.Failed())
    ensures h.Stirred() == old(h.Stirred()) ==> SavedKept(old(h.disk), h.disk)
    ensures old(h.clock) < h.schedule.calm && old(h.disk).live == expected && Readable(expected) ==>
              o.Done? && h.clock == old(h.clock) + 1
  {
    var fate := h.Read();
    match fate {
      case Dies => return Killed;
      case Fails => return Raised(ContextFileUnavailable);
      case Works =>
    }
    if !Readable(h.disk.live) {
      return Raised(ContextFileUntrusted);
    }
    return if h.disk.live == expected then Done(()) else Raised(ContextChanged);
  }

  /** A step that put either its own content or nothing new into the live context. */
  ghost predicate MayPublish(d: Disk, e: Disk, raw: Bytes) {
    && Beside(d, e)
    && e.live in {d.live, raw}
    && e.liveSaved in {d.liveSaved, d.live, raw}
  }

  /** The try block of context_migration._rollback. */
  method RestoreSource(h: Host, plan: Plan, src: Bytes, s: nat) returns (o: Outcome<()>)
    requires Wf(h.disk) && s in h.disk.stages && h.disk.stages[s] == Some(src) && s in h.disk.flushed
    modifies h
    ensures h.Later()
    ensures o.Done? ==> h.Failed() == old(h.Failed())
    ensures MayPublish(old(h.disk), h.disk, src)
    ensures s in h.disk.stages && h.disk.stages == old(h.disk).stages[s := h.disk.stages[s]]
    ensures o.Done? ==> h.disk.live == src && h.disk.liveSaved == src
    ensures old(h.Faultless()) && plan.Capturable(src) && plan.Matches(src, true) ==> o.Done?
    ensures o.Raised? && plan.Capturable(src) && plan.Matches(src, true) ==> h.Failed() > old(h.Failed())
  {
    ghost var d := h.disk;
    var staged := CaptureFile(h, plan, h.disk.stages[s].value);
    if !staged.Done? {
      return staged.PropagateFailure();
    }
    if !plan.Matches(staged.value, true) {
      return Raised(SourcePolicyRefused);
    }
    ghost var e := h.disk;
    o := h.PublishStage(s);
    BesideTransitive(d, e, h.disk);
    if !o.Done? {
      return;
    }
    e := h.disk;
    var fate := h.SyncConfig();
    BesideTransitive(d, e, h.disk);
    match fate {
      case Dies => return Killed;
      case Fails => return Raised(ContextSyncFailed);
      case Works =>
    }
    e := h.disk;
    var online := CaptureLive(h, plan);
    BesideTransitive(d, e, h.disk);
    if !online.Done? {
      return online.PropagateFailure();
    }
    if Sha256(online.value) != Sha256(src) {
      return Raised(RollbackFailed);
    }
    return if plan.Matches(online.value, true) then Done(()) else Raised(SourcePolicyRefused);
  }

  /** context_migration._rollback */
  method Rollback(h: Host, plan: Plan, src: Bytes) returns (o: Outcome<()>)
    requires Wf(h.disk)
    modifies h
    ensures h.Later()
    ensures o.Done? ==> h.Failed() == old(h.Failed())
    ensures MayPublish(old(h.disk), h.disk, src)
    ensures o.Done? ==> h.disk.live == src && h.disk.liveSaved == src
    ensures old(h.disk).stages.Keys <= h.disk.stages.Keys
    ensures o.Done? || (o.Raised? && o.reason != StagingCleanupFailed) ==> h.disk.stages == old(h.disk).stages
    ensures old(h.Faultless()) && plan.Capturable(src) && plan.Matches(src, true) ==> o.Done?
    ensures o.Raised? && plan.Capturable(src) && plan.Matches(src, true) ==> h.Failed() > old(h.Failed())
  {
    ghost var d := h.disk;
    var staged := h.CreateStage(src);
    if staged.Done? {
      o := RestoreFrom(h, plan, src, staged.value, d);
    } else {
      o := staged.PropagateFailure();
    }
  }

  /** The source is restored from its stage, which is then removed unless the process is killed. */
  method RestoreFrom(h: Host, plan: Plan, src: Bytes, s: nat, ghost d: Disk) returns (o: Outcome<()>)
    requires Wf(h.disk) && s in h.disk.stages && h.disk.stages[s] == Some(src) && s in h.disk.flushed
    requires Staging(d, h.disk, h.disk.stages) && s !in d.stages && h.disk.stages == d.stages[s := Some(src)]
    modifies h
    ensures h.Later()
    ensures o.Done? ==> h.Failed() == old(h.Failed())
    ensures MayPublish(d, h.disk, src)
    ensures o.Done? ==> h.disk.live == src && h.disk.liveSaved == src
    ensures d.stages.Keys <= h.disk.stages.Keys
    ensures o.Done? || (o.Raised? && o.reason != StagingCleanupFailed) ==> h.disk.stages == d.stages
    ensures old(h.Faultless()) && plan.Capturable(src) && plan.Matches(src, true) ==> o.Done?
    ensures o.Raised? && plan.Capturable(src) && plan.Matches(src, true) ==> h.Failed() > old(h.Failed())
  {
    ghost var e := h.disk;
    o := RestoreSource(h, plan, src, s);
    BesideTransitive(d, e, h.disk);
    if !o.Killed? {
      e := h.disk;
      var cleaned := h.CleanupStage(s);
      BesideTransitive(d, e, h.disk);
      o := if !cleaned.Done? then cleaned else if o.Raised? then Raised(RollbackFailed) else o;
    }
  }

  /** What the try block of _apply may do: swap in the target, check it, and record the commit. */
  ghost predicate PublishedTarget(plan: Plan, src: Bytes, tgt: Bytes, d: Disk, e: Disk,
                                  o: Outcome<()>, published: bool, faults: int) {
    var c, cv := JournalOf(COMMITTED, src, tgt), plan.JournalBytes(COMMITTED, src, tgt);
    var v, w := ViewOf(d.now, c), ViewOf(e.now, c);
    && AuditKept(d, e, {c}) && RecordsKept(d, e)
    && (Says(d, c, cv) ==> Says(e, c, cv))
    && e.live == (if published then tgt else src)
    && e.liveSaved in {d.liveSaved, src, tgt}
    && (!published ==> e.liveSaved in {d.liveSaved, src} && w == v)
    && (o.Done? ==> published && e.liveSaved == tgt && Held(e, c, cv))
    // a commit record survives an error only if its removal failed, after the failure that led to it
    && (o.Raised? && w.token != v.token ==> o.reason == AuditCleanupFailed && faults >= 2)
    // behind the swap nothing goes wrong unless a call fails
    && (o.Raised? && published && Fitting(plan, src, tgt) && CanWrite(d, c, cv) ==> faults >= 1)
  }

  lemma NothingCommitted(plan: Plan, src: Bytes, tgt: Bytes, d: Disk, e: Disk, o: Outcome<()>, published: bool, faults: int)
    requires Beside(d, e) && !o.Done?
    requires e.live == (if published then tgt else src)
    requires e.liveSaved in {d.liveSaved, src, tgt} && (!published ==> e.liveSaved in {d.liveSaved, src})
    requires o.Raised? && published && Fitting(plan, src, tgt) ==> faults >= 1
    ensures PublishedTarget(plan, src, tgt, d, e, o, published, faults)
  {
    var c := JournalOf(COMMITTED, src, tgt);
    AuditKeptWiden(d, e, {}, {c});
    KeepsOthers(d, e, {}, c, plan.JournalBytes(COMMITTED, src, tgt));
  }

  lemma WriteCommits(plan: Plan, src: Bytes, tgt: Bytes, d: Disk, e: Disk, f: Disk, o: Outcome<()>, faults: int)
    requires Beside(d, e) && e.live == tgt && e.liveSaved == tgt
    requires WroteOnce(e, f, JournalOf(COMMITTED, src, tgt), plan.JournalBytes(COMMITTED, src, tgt), o)
    requires o == Raised(AuditCleanupFailed) ==> faults >= 2
    requires o.Raised? && CanWrite(e, JournalOf(COMMITTED, src, tgt), plan.JournalBytes(COMMITTED, src, tgt)) ==> faults >= 1
    ensures PublishedTarget(plan, src, tgt, d, f, o, true, faults)
  {
    var c := JournalOf(COMMITTED, src, tgt);
    AuditKeptWiden(d, e, {}, {c});
    AuditKeptTransitive(d, e, f, {c});
    KeepsOthers(d, e, {}, c, plan.JournalBytes(COMMITTED, src, tgt));
  }

  lemma PublishThenCommit(plan: Plan, src: Bytes, tgt: Bytes, d: Disk, e: Disk, f: Disk, o: Outcome<()>, faults: int, more: int)
    requires Beside(d, e) && e.liveSaved in {d.liveSaved, src}
    requires PublishedTarget(plan, src, tgt, e, f, o, true, faults) && faults <= more
    ensures PublishedTarget(plan, src, tgt, d, f, o, true, more)
  {
    var c := JournalOf(COMMITTED, src, tgt);
    AuditKeptWiden(d, e, {}, {c});
    AuditKeptTransitive(d, e, f, {c});
    KeepsOthers(d, e, {}, c, plan.JournalBytes(COMMITTED, src, tgt));
  }

  lemma HazardStays(plan: Plan, src: Bytes, tgt: Bytes, d: Disk, e: Disk)
    requires Beside(d, e) && SavedKept(d, e)
    ensures Hazard(plan, src, tgt, d) ==> Hazard(plan, src, tgt, e)
  {
    var b, p := BackupOf(src), JournalOf(PREPARED, src, tgt);
    assert ViewOf(e.saved, b) == ViewOf(d.saved, b) && ViewOf(e.saved, p) == ViewOf(d.saved, p);
  }

  lemma CanCommit(plan: Plan, src: Bytes, tgt: Bytes, d: Disk, e: Disk)
    requires Beside(d, e)
    ensures Honest(plan, src, tgt, d) && Fitting(plan, src, tgt) ==>
              CanWrite(e, JournalOf(COMMITTED, src, tgt), plan.JournalBytes(COMMITTED, src, tgt))
  {
    if Honest(plan, src, tgt, d) && Fitting(plan, src, tgt) {
      HonestCanWrite(plan, src, tgt, d, COMMITTED);
    }
  }

  lemma DangerStays(plan: Plan, src: Bytes, tgt: Bytes, d: Disk, e: Disk)
    requires Beside(d, e) && LiveKept(d, e)
    ensures SavedKept(d, e) && DangerOf(plan, src, tgt, d) == SourceOnHazard ==> DangerOf(plan, src, tgt, e) == SourceOnHazard
  {
    if SavedKept(d, e) {
      HazardStays(plan, src, tgt, d, e);
    }
  }

  /** The try block of context_migration._apply. */
  method PublishTarget(h: Host, plan: Plan, src: Bytes, tgt: Bytes, s: nat) returns (o: Outcome<()>, published: bool)
    requires Wf(h.disk) && h.disk.live == src && s in h.disk.stages && h.disk.stages[s] == Some(tgt) && s in h.disk.flushed
    modifies h
    ensures h.Later()
    ensures o.Done? ==> h.Failed() == old(h.Failed())
    ensures PublishedTarget(plan, src, tgt, old(h.disk), h.disk, o, published, h.Failed() - old(h.Failed()))
    ensures s in h.disk.stages && h.disk.stages == old(h.disk).stages[s := h.disk.stages[s]]
    ensures old(h.Faultless()) && Honest(plan, src, tgt, old(h.disk)) && Fitting(plan, src, tgt) ==> o.Done?
    ensures h.schedule.DiesAt(old(h.clock) + 5) && DangerOf(plan, src, tgt, old(h.disk)) == SourceOnHazard ==>
              o.Killed? && DangerOf(plan, src, tgt, h.disk) == TargetOnHazard
  {
    ghost var d, start := h.disk, h.Failed();
    ghost var killed := h.schedule.DiesAt(h.clock + 5) && DangerOf(plan, src, tgt, d) == SourceOnHazard;
    o := SwapIn(h, plan, src, tgt, s);
    published := o.Done?;
    ghost var e, failed := h.disk, h.Failed();
    if killed {
      StillUntil(h.schedule, old(h.clock), h.clock);
      HazardStays(plan, src, tgt, d, e);
    }
    assert killed ==> published && h.schedule.DiesAt(h.clock + 1) && Hazard(plan, src, tgt, e);
    if published {
      o := CommitTarget(h, plan, src, tgt);
      assert killed ==> o.Killed? && DangerOf(plan, src, tgt, h.disk) == TargetOnHazard;
      PublishThenCommit(plan, src, tgt, d, e, h.disk, o, h.Failed() - failed, h.Failed() - start);
    } else {
      NothingCommitted(plan, src, tgt, d, e, o, false, h.Failed() - start);
    }
  }

  /** The part of that block up to the swap, which has happened if this returns normally. */
  method SwapIn(h: Host, plan: Plan, src: Bytes, tgt: Bytes, s: nat) returns (o: Outcome<()>)
    requires Wf(h.disk) && h.disk.live == src && s in h.disk.stages && h.disk.stages[s] == Some(tgt) && s in h.disk.flushed
    modifies h
    ensures h.Later()
    ensures o.Done? ==> h.Failed() == old(h.Failed())
    ensures Beside(old(h.disk), h.disk)
    ensures h.disk.live == (if o.Done? then tgt else src) && h.disk.liveSaved in {old(h.disk).liveSaved, src}
    ensures s in h.disk.stages && h.disk.stages == old(h.disk).stages[s := h.disk.stages[s]]
    ensures old(h.Faultless()) && Fitting(plan, src, tgt) ==> o.Done?
    ensures Honest(plan, src, tgt, old(h.disk)) && Fitting(plan, src, tgt) ==>
              CanWrite(h.disk, JournalOf(COMMITTED, src, tgt), plan.JournalBytes(COMMITTED, src, tgt))
    ensures old(h.clock) + 3 < h.schedule.calm && Fitting(plan, src, tgt) ==> o.Done? && h.clock == old(h.clock) + 4
    ensures h.Stirred() == old(h.Stirred()) ==> SavedKept(old(h.disk), h.disk)
  {
    o := CheckBeforePublish(h, plan, src, tgt, s);
    if o.Done? {
      ghost var e := h.disk;
      o := h.PublishStage(s);
      BesideTransitive(old(h.disk), e, h.disk);
    }
    CanCommit(plan, src, tgt, old(h.disk), h.disk);
  }

  /** The checks of that block before the swap. */
  method CheckBeforePublish(h: Host, plan: Plan, src: Bytes, tgt: Bytes, s: nat) returns (o: Outcome<()>)
    requires Wf(h.disk) && s in h.disk.stages && h.disk.stages[s] == Some(tgt)
    modifies h
    ensures h.Later()
    ensures o.Done? ==> h.Failed() == old(h.Failed())
    ensures Idle(old(h.disk), h.disk)
    ensures o.Done? ==> h.disk.live == src && plan.Capturable(tgt) && plan.Matches(tgt, false)
    ensures old(h.Faultless()) ==>
              (o.Done? <==> h.disk.live == src && Readable(src) && plan.Capturable(tgt) && plan.Matches(tgt, false))
    ensures h.Stirred() == old(h.Stirred()) ==> SavedKept(old(h.disk), h.disk)
    ensures old(h.clock) + 2 < h.schedule.calm && old(h.disk).live == src && Fitting(plan, src, tgt) ==>
              o.Done? && h.clock == old(h.clock) + 3
  {
    var staged := CaptureFile(h, plan, h.disk.stages[s].value);
    if !staged.Done? {
      return staged.PropagateFailure();
    }
    if Sha256(staged.value) != Sha256(tgt) || !plan.Matches(staged.value, false) {
      return Raised(TargetPolicyRefused);
    }
    ghost var e := h.disk;
    o := OnlineUnchanged(h, src);
    BesideTransitive(old(h.disk), e, h.disk);
  }

  /** The checks of that block after the swap. */
  method CheckAfterPublish(h: Host, plan: Plan, tgt: Bytes) returns (o: Outcome<()>)
    requires Wf(h.disk)
    modifies h
    ensures h.Later()
    ensures o.Done? ==> h.Failed() == old(h.Failed())
    ensures Idle(old(h.disk), h.disk)
    ensures o.Done? ==> h.disk.live == tgt && plan.Capturable(tgt) && plan.Matches(tgt, false)
    ensures old(h.Faultless()) ==> (o.Done? <==> h.disk.live == tgt && plan.Capturable(tgt) && plan.Matches(tgt, false))
    ensures o.Raised? && old(h.disk).live == tgt && plan.Capturable(tgt) && plan.Matches(tgt, false) ==> h.Failed() > old(h.Failed())
    ensures h.schedule.At(old(h.clock)) == DEATH ==> o.Killed? && SavedKept(old(h.disk), h.disk)
    ensures h.Stirred() == old(h.Stirred()) ==> SavedKept(old(h.disk), h.disk)
  {
    var online := CaptureLive(h, plan);
    if !online.Done? {
      return online.PropagateFailure();
    }
    if Sha256(online.value) != Sha256(tgt) || !plan.Matches(online.value, false) {
      return Raised(TargetPolicyRefused);
    }
    ghost var e := h.disk;
    o := OnlineUnchanged(h, online.value);
    BesideTransitive(old(h.disk), e, h.disk);
  }

  /** The part of that block after the swap. */
  method CommitTarget(h: Host, plan: Plan, src: Bytes, tgt: Bytes) returns (o: Outcome<()>)
    requires Wf(h.disk) && h.disk.live == tgt
    modifies h
    ensures h.Later()
    ensures o.Done? ==> h.Failed() == old(h.Failed())
    ensures PublishedTarget(plan, src, tgt, old(h.disk), h.disk, o, true, h.Failed() - old(h.Failed()))
    ensures h.disk.stages == old(h.disk).stages
    ensures old(h.Faultless()) && Fitting(plan, src, tgt)
              && CanWrite(old(h.disk), JournalOf(COMMITTED, src, tgt), plan.JournalBytes(COMMITTED, src, tgt))
            ==> o.Done?
    ensures h.schedule.DiesAt(old(h.clock) + 1) && Fitting(plan, src, tgt) && Hazard(plan, src, tgt, old(h.disk)) ==>
              o.Killed? && DangerOf(plan, src, tgt, h.disk) == TargetOnHazard
  {
    ghost var d := h.disk;
    o := SyncAndCheck(h, plan, src, tgt);
    if !o.Done? {
      NothingCommitted(plan, src, tgt, d, h.disk, o, true, h.Failed() - old(h.Failed()));
      return;
    }
    ghost var e, failed := h.disk, h.Failed();
    o := h.WriteOnce(JournalOf(COMMITTED, src, tgt), plan.JournalBytes(COMMITTED, src, tgt));
    WriteCommits(plan, src, tgt, d, e, h.disk, o, h.Failed() - old(h.Failed()));
  }

  /** The swap is made durable, then checked. */
  method SyncAndCheck(h: Host, plan: Plan, src: Bytes, tgt: Bytes) returns (o: Outcome<()>)
    requires Wf(h.disk) && h.disk.live == tgt
    modifies h
    ensures h.Later()
    ensures o.Done? ==> h.Failed() == old(h.Failed())
    ensures Staging(old(h.disk), h.disk, old(h.disk).stages)
    ensures o.Done? ==> h.disk.liveSaved == tgt
    ensures old(h.Faultless()) && plan.Capturable(tgt) && plan.Matches(tgt, false) ==> o.Done?
    ensures o.Raised? && plan.Capturable(tgt) && plan.Matches(tgt, false) ==> h.Failed() > old(h.Failed())
    ensures h.schedule.DiesAt(old(h.clock) + 1) && Fitting(plan, src, tgt) && Hazard(plan, src, tgt, old(h.disk)) ==>
              o.Killed? && DangerOf(plan, src, tgt, h.disk) == TargetOnHazard
  {
    ghost var d := h.disk;
    ghost var killed := h.schedule.DiesAt(h.clock + 1) && Hazard(plan, src, tgt, d);
    var fate := h.SyncConfig();
    if fate != Works {
      return if fate == Dies then Killed else Raised(ContextSyncFailed);
    }
    ghost var e := h.disk;
    if killed {
      StillUntil(h.schedule, old(h.clock), h.clock);
      HazardStays(plan, src, tgt, d, e);
    }
    o := CheckAfterPublish(h, plan, tgt);
    StagingTransitive(d, e, h.disk);
    assert killed ==> o.Killed? && SavedKept(e, h.disk);
    if killed {
      HazardStays(plan, src, tgt, e, h.disk);
    }
  }

  /** The state of the audit trail on the way through _apply, relative to the start. */
  ghost predicate OnTheWay(plan: Plan, src: Bytes, tgt: Bytes, d: Disk, e: Disk, ready: bool) {
    && AuditKept(d, e, Trail(src, tgt)) && RecordsKept(d, e)
    && (Honest(plan, src, tgt, d) ==> Honest(plan, src, tgt, e))
    && (PowerSafe(plan, src, tgt, d) ==> PowerSafe(plan, src, tgt, e))
    && (ready ==> Recoverable(plan, src, tgt, e))
    && (ready && Honest(plan, src, tgt, d) && !Hazard(plan, src, tgt, d) ==> PowerSafe(plan, src, tgt, e))
  }

  lemma AfterPrepare(plan: Plan, src: Bytes, tgt: Bytes, d: Disk, e: Disk, o: Outcome<()>)
    requires PreparedTrail(plan, src, tgt, d, e, o)
    ensures OnTheWay(plan, src, tgt, d, e, o.Done?)
    ensures ViewOf(e.now, JournalOf(COMMITTED, src, tgt)) == ViewOf(d.now, JournalOf(COMMITTED, src, tgt))
  {
    AuditKeptWiden(d, e, {BackupOf(src), JournalOf(PREPARED, src, tgt)}, Trail(src, tgt));
  }

  lemma KeepsTrail(plan: Plan, src: Bytes, tgt: Bytes, d: Disk, e: Disk, f: Disk, ready: bool)
    requires OnTheWay(plan, src, tgt, d, e, ready)
    requires var c, cv := JournalOf(COMMITTED, src, tgt), plan.JournalBytes(COMMITTED, src, tgt);
             AuditKept(e, f, {c}) && RecordsKept(e, f) && (Says(e, c, cv) ==> Says(f, c, cv))
    ensures OnTheWay(plan, src, tgt, d, f, ready)
  {
    var rs := {JournalOf(COMMITTED, src, tgt)};
    KeepsOthers(e, f, rs, BackupOf(src), src);
    KeepsOthers(e, f, rs, JournalOf(PREPARED, src, tgt), plan.JournalBytes(PREPARED, src, tgt));
    AuditKeptWiden(e, f, rs, Trail(src, tgt));
    AuditKeptTransitive(d, e, f, Trail(src, tgt));
  }

  lemma BesideKeepsTrail(plan: Plan, src: Bytes, tgt: Bytes, d: Disk, e: Disk, f: Disk, ready: bool)
    requires OnTheWay(plan, src, tgt, d, e, ready) && Beside(e, f)
    ensures OnTheWay(plan, src, tgt, d, f, ready)
    ensures var c, cv := JournalOf(COMMITTED, src, tgt), plan.JournalBytes(COMMITTED, src, tgt);
            ViewOf(f.now, c) == ViewOf(e.now, c) && (Held(e, c, cv) ==> Held(f, c, cv))
  {
    AuditKeptWiden(e, f, {}, {JournalOf(COMMITTED, src, tgt)});
    KeepsOthers(e, f, {}, JournalOf(COMMITTED, src, tgt), plan.JournalBytes(COMMITTED, src, tgt));
    KeepsTrail(plan, src, tgt, d, e, f, ready);
  }

  /** What one call of _apply may do, however it ends.  `published` tells whether the swap happened, `faults` how many
      system calls failed. */
  ghost predicate AppliedMigration(plan: Plan, src: Bytes, tgt: Bytes, d: Disk, e: Disk,
                                   o: Outcome<Report>, published: bool, faults: int) {
    var c, cv := JournalOf(COMMITTED, src, tgt), plan.JournalBytes(COMMITTED, src, tgt);
    var v, w := ViewOf(d.now, c), ViewOf(e.now, c);
    && AuditKept(d, e, Trail(src, tgt)) && RecordsKept(d, e)
    && (Honest(plan, src, tgt, d) ==> Honest(plan, src, tgt, e))
    && (PowerSafe(plan, src, tgt, d) ==> PowerSafe(plan, src, tgt, e))
    // the live context is the source or the target, and the target only behind an audit trail
    && e.live in {src, tgt} && e.liveSaved in {d.liveSaved, src, tgt}
    && (published ==> Recoverable(plan, src, tgt, e))
    && (published && Honest(plan, src, tgt, d) && !Hazard(plan, src, tgt, d) ==> PowerSafe(plan, src, tgt, e))
    // nothing is published and no commit recorded before the swap
    && (!published ==> e.live == src && e.liveSaved in {d.liveSaved, src} && w == v && !o.Done?)
    // the reported status is true
    && (o.Done? ==> o.value in {Applied(Sha256(src), Sha256(tgt)), RolledBack(Sha256(src))} && e.stages == d.stages)
    && (o.Done? && o.value.Applied? ==> published && e.live == tgt && e.liveSaved == tgt && Held(e, c, cv))
    && (o.Done? && o.value.RolledBack? ==> published && e.live == src && e.liveSaved == src)
    // a commit record appears only while the target stays live, unless two calls failed
    && (faults < 2 && w.token != v.token ==> e.live == tgt)
    && (o.Raised? && o.reason != StagingCleanupFailed ==> e.stages == d.stages)
    // whatever fails behind the swap is rolled back, unless the rollback meets another failing call
    && (published && plan.Capturable(src) && plan.Matches(src, true) && faults <= Tolerated(plan, src, tgt, d) ==>
          o.Killed? || o == Done(RolledBack(Sha256(src))) || CommitIsThere(plan, src, tgt, e))
  }

  /** How many failing calls cannot keep a run from rolling back: where nothing but a failing call can go wrong behind the
      swap, one more than otherwise. */
  ghost function Tolerated(plan: Plan, src: Bytes, tgt: Bytes, d: Disk): nat {
    if Honest(plan, src, tgt, d) && Fitting(plan, src, tgt) then 1 else 0
  }

  lemma StoppedBeforePublish(plan: Plan, src: Bytes, tgt: Bytes, d: Disk, e: Disk, o: Outcome<Report>, faults: int)
    requires OnTheWay(plan, src, tgt, d, e, false) && !o.Done?
    requires ViewOf(e.now, JournalOf(COMMITTED, src, tgt)) == ViewOf(d.now, JournalOf(COMMITTED, src, tgt))
    requires e.live == src && e.liveSaved in {d.liveSaved, src}
    requires o.Raised? && o.reason != StagingCleanupFailed ==> e.stages == d.stages
    ensures AppliedMigration(plan, src, tgt, d, e, o, false, faults)
  {
  }

  lemma StoppedWhilePublishing(plan: Plan, src: Bytes, tgt: Bytes, d: Disk, e: Disk, f: Disk, s: nat,
                               body: Outcome<()>, published: bool, faults: int, more: int)
    requires ReadyToPublish(plan, src, tgt, d, e, s)
    requires PublishedTarget(plan, src, tgt, e, f, body, published, faults) && body.Killed? && faults <= more
    ensures AppliedMigration(plan, src, tgt, d, f, Killed, published, more)
  {
    KeepsTrail(plan, src, tgt, d, e, f, true);
  }

  /** What the exception handler and the final cleanup of _apply may do. */
  ghost predicate Finished(plan: Plan, src: Bytes, tgt: Bytes, d: Disk, e: Disk, s: nat, body: Outcome<()>, published: bool,
                           o: Outcome<Report>, faults: int) {
    && MayPublish(d, e, src)
    && (!published ==> e.live == src && !o.Done?)
    && (body.Done? ==> e.live == tgt && e.liveSaved == tgt)
    && (body.Raised? && published && plan.Capturable(src) && plan.Matches(src, true) && faults == 0 ==>
          o.Killed? || o == Done(RolledBack(Sha256(src))))
    && (o.Done? ==> o.value == if body.Done? then Applied(Sha256(src), Sha256(tgt)) else RolledBack(Sha256(src)))
    && (o.Done? && !body.Done? ==> e.live == src && e.liveSaved == src)
    && (o.Done? || (o.Raised? && o.reason != StagingCleanupFailed) ==> e.stages == d.stages - {s})
  }

  lemma FinishedApply(plan: Plan, src: Bytes, tgt: Bytes, d: Disk, e: Disk, f: Disk, g: Disk, s: nat,
                      body: Outcome<()>, o: Outcome<Report>, published: bool, faults: nat, after: nat, more: int)
    requires ReadyToPublish(plan, src, tgt, d, e, s)
    requires PublishedTarget(plan, src, tgt, e, f, body, published, faults) && !body.Killed? && faults + after <= more
    requires s in f.stages && f.stages == e.stages[s := f.stages[s]]
    requires Finished(plan, src, tgt, f, g, s, body, published, o, after)
    ensures AppliedMigration(plan, src, tgt, d, g, o, published, more)
  {
    assert f.stages - {s} == d.stages;
    if Honest(plan, src, tgt, d) && Fitting(plan, src, tgt) {
      HonestCanWrite(plan, src, tgt, e, COMMITTED);
    }
    KeepsTrail(plan, src, tgt, d, e, f, true);
    BesideKeepsTrail(plan, src, tgt, d, f, g, true);
  }

  /** context_migration._apply */
  method Apply(h: Host, plan: Plan, src: Bytes, tgt: Bytes) returns (o: Outcome<Report>, published: bool)
    requires Wf(h.disk) && h.disk.live == src
    modifies h
    ensures h.Later()
    ensures o.Done? && !o.value.RolledBack? ==> h.Failed() == old(h.Failed())
    ensures AppliedMigration(plan, src, tgt, old(h.disk), h.disk, o, published, h.Failed() - old(h.Failed()))
    ensures old(h.Faultless()) && Honest(plan, src, tgt, old(h.disk)) && Fitting(plan, src, tgt)
            ==> o == Done(Applied(Sha256(src), Sha256(tgt)))
    ensures h.schedule.DiesAt(old(h.clock) + 15) && DangerOf(plan, src, tgt, old(h.disk)) == NotStarted ==>
              o.Killed? && DangerOf(plan, src, tgt, h.disk) == SourceOnHazard
    ensures h.schedule.DiesAt(old(h.clock) + 17) && DangerOf(plan, src, tgt, old(h.disk)) == SourceOnHazard ==>
              o.Killed? && DangerOf(plan, src, tgt, h.disk) == TargetOnHazard
  {
    ghost var d, failed := h.disk, h.Failed();
    published := false;
    var staged := PrepareAndStage(h, plan, src, tgt);
    if !staged.Done? {
      o := staged.PropagateFailure();
      return;
    }
    o, published := ApplyStaged(h, plan, src, tgt, staged.value, d, failed);
  }

  /** The part of _apply before the publication. */
  method PrepareAndStage(h: Host, plan: Plan, src: Bytes, tgt: Bytes) returns (staged: Outcome<nat>)
    requires Wf(h.disk) && h.disk.live == src
    modifies h
    ensures h.Later()
    ensures staged.Done? ==> h.Failed() == old(h.Failed())
    ensures !staged.Done? ==>
              AppliedMigration(plan, src, tgt, old(h.disk), h.disk, staged.PropagateFailure(), false, h.Failed() - old(h.Failed()))
    ensures staged.Done? ==> ReadyToPublish(plan, src, tgt, old(h.disk), h.disk, staged.value)
    ensures old(h.Faultless()) ==> h.Faultless()
    ensures old(h.Faultless()) && Honest(plan, src, tgt, old(h.disk)) && Fitting(plan, src, tgt) ==> staged.Done?
    ensures h.schedule.DiesAt(old(h.clock) + 15) && DangerOf(plan, src, tgt, old(h.disk)) == NotStarted ==>
              staged.Killed? && DangerOf(plan, src, tgt, h.disk) == SourceOnHazard
    ensures old(h.clock) + 11 < h.schedule.calm && DangerOf(plan, src, tgt, old(h.disk)) == SourceOnHazard ==>
              staged.Done? && h.clock == old(h.clock) + 12 && DangerOf(plan, src, tgt, h.disk) == SourceOnHazard
  {
    ghost var d, failed := h.disk, h.Failed();
    var prepared := PrepareAudit(h, plan, src, tgt);
    AfterPrepare(plan, src, tgt, d, h.disk, prepared);
    StillUntil(h.schedule, old(h.clock), h.clock);
    assert old(h.clock) + 11 < h.schedule.calm && DangerOf(plan, src, tgt, d) == SourceOnHazard ==>
        prepared.Done? && h.clock == old(h.clock) + 6 && DangerOf(plan, src, tgt, h.disk) == SourceOnHazard;
    if prepared.Done? {
      staged := StageTarget(h, plan, src, tgt, d, failed);
    } else {
      staged := prepared.PropagateFailure();
      StoppedBeforePublish(plan, src, tgt, d, h.disk, staged.PropagateFailure(), h.Failed() - failed);
    }
  }

  /** Staging the target, once the audit trail is prepared. */
  method StageTarget(h: Host, plan: Plan, src: Bytes, tgt: Bytes, ghost d: Disk, ghost failed: nat) returns (staged: Outcome<nat>)
    requires Wf(h.disk) && OnTheWay(plan, src, tgt, d, h.disk, true)
    requires ViewOf(h.disk.now, JournalOf(COMMITTED, src, tgt)) == ViewOf(d.now, JournalOf(COMMITTED, src, tgt))
    requires h.disk.live == src && h.disk.liveSaved in {d.liveSaved, src} && h.disk.stages == d.stages
    modifies h
    ensures h.Later()
    ensures staged.Done? ==> h.Failed() == old(h.Failed())
    ensures !staged.Done? ==>
              AppliedMigration(plan, src, tgt, d, h.disk, staged.PropagateFailure(), false, h.Failed() - failed)
    ensures staged.Done? ==> ReadyToPublish(plan, src, tgt, d, h.disk, staged.value)
    ensures old(h.Faultless()) ==> staged.Done?
    ensures old(h.clock) + 5 < h.schedule.calm && Readable(tgt) ==> staged.Done? && h.clock == old(h.clock) + 6
    ensures old(h.clock) + 5 < h.schedule.calm && DangerOf(plan, src, tgt, old(h.disk)) == SourceOnHazard ==>
              DangerOf(plan, src, tgt, h.disk) == SourceOnHazard
  {
    ghost var e := h.disk;
    staged := h.CreateStage(tgt);
    if staged.Done? {
      StagedOnTheWay(plan, src, tgt, d, e, h.disk, staged.value);
    } else {
      BesideKeepsTrail(plan, src, tgt, d, e, h.disk, true);
      StoppedBeforePublish(plan, src, tgt, d, h.disk, staged.PropagateFailure(), h.Failed() - failed);
    }
    StillUntil(h.schedule, old(h.clock), h.clock);
    DangerStays(plan, src, tgt, e, h.disk);
  }

  /** The trail is prepared, the source is live, and the target waits in its stage. */
  ghost predicate ReadyToPublish(plan: Plan, src: Bytes, tgt: Bytes, d: Disk, e: Disk, s: nat) {
    && Wf(e) && e.live == src && s in e.stages && e.stages[s] == Some(tgt) && s in e.flushed
    && OnTheWay(plan, src, tgt, d, e, true)
    && ViewOf(e.now, JournalOf(COMMITTED, src, tgt)) == ViewOf(d.now, JournalOf(COMMITTED, src, tgt))
    && e.liveSaved in {d.liveSaved, src} && e.stages - {s} == d.stages
  }

  lemma StagedOnTheWay(plan: Plan, src: Bytes, tgt: Bytes, d: Disk, e: Disk, f: Disk, s: nat)
    requires OnTheWay(plan, src, tgt, d, e, true)
    requires ViewOf(e.now, JournalOf(COMMITTED, src, tgt)) == ViewOf(d.now, JournalOf(COMMITTED, src, tgt))
    requires Wf(f) && e.live == src && e.liveSaved in {d.liveSaved, src} && e.stages == d.stages
    requires Staging(e, f, f.stages) && s !in e.stages && f.stages == e.stages[s := Some(tgt)] && s in f.flushed
    ensures ReadyToPublish(plan, src, tgt, d, f, s)
  {
    BesideKeepsTrail(plan, src, tgt, d, e, f, true);
  }

  /** The rest of _apply, once the target is staged. */
  method ApplyStaged(h: Host, plan: Plan, src: Bytes, tgt: Bytes, s: nat, ghost d: Disk, ghost failed: nat)
    returns (o: Outcome<Report>, published: bool)
    requires ReadyToPublish(plan, src, tgt, d, h.disk, s) && failed <= h.Failed()
    modifies h
    ensures h.Later()
    ensures o.Done? && !o.value.RolledBack? ==> h.Failed() == old(h.Failed())
    ensures AppliedMigration(plan, src, tgt, d, h.disk, o, published, h.Failed() - failed)
    ensures old(h.Faultless()) && Honest(plan, src, tgt, d) && Fitting(plan, src, tgt)
            ==> o == Done(Applied(Sha256(src), Sha256(tgt)))
    ensures h.schedule.DiesAt(old(h.clock) + 5) && DangerOf(plan, src, tgt, old(h.disk)) == SourceOnHazard ==>
              o.Killed? && DangerOf(plan, src, tgt, h.disk) == TargetOnHazard
  {
    ghost var e, start := h.disk, h.Failed();
    ghost var later := h.schedule.DiesAt(h.clock + 5) && DangerOf(plan, src, tgt, e) == SourceOnHazard;
    var body;
    body, published := PublishTarget(h, plan, src, tgt, s);
    assert later ==> body.Killed? && DangerOf(plan, src, tgt, h.disk) == TargetOnHazard;
    o := FinishStaged(h, plan, src, tgt, s, body, published, d, e, h.Failed() - start, failed);
  }

  /** The rest of _apply after its try block; a killed process does nothing more. */
  method FinishStaged(h: Host, plan: Plan, src: Bytes, tgt: Bytes, s: nat, body: Outcome<()>, published: bool,
                      ghost d: Disk, ghost e: Disk, ghost faults: nat, ghost failed: nat)
    returns (o: Outcome<Report>)
    requires Wf(h.disk) && ReadyToPublish(plan, src, tgt, d, e, s)
    requires PublishedTarget(plan, src, tgt, e, h.disk, body, published, faults) && failed + faults <= h.Failed()
    requires s in h.disk.stages && h.disk.stages == e.stages[s := h.disk.stages[s]]
    modifies h
    ensures h.clock >= old(h.clock) && h.Failed() >= old(h.Failed()) && h.Stirred() >= old(h.Stirred())
    ensures o.Done? && !o.value.RolledBack? ==> body.Done? && h.Failed() == old(h.Failed())
    ensures AppliedMigration(plan, src, tgt, d, h.disk, o, published, h.Failed() - failed)
    ensures body.Killed? ==> o.Killed? && h.disk == old(h.disk)
    ensures old(h.Faultless()) && body.Done? ==> o == Done(Applied(Sha256(src), Sha256(tgt)))
  {
    ghost var f, before := h.disk, h.Failed();
    if body.Killed? {
      o := Killed;
      StoppedWhilePublishing(plan, src, tgt, d, e, f, s, body, published, faults, h.Failed() - failed);
    } else {
      o := FinishApply(h, plan, src, tgt, s, body, published);
      FinishedApply(plan, src, tgt, d, e, f, h.disk, s, body, o, published, faults, h.Failed() - before, h.Failed() - failed);
    }
  }

  /** The exception handler and the final cleanup of context_migration._apply. */
  method FinishApply(h: Host, plan: Plan, src: Bytes, tgt: Bytes, s: nat, body: Outcome<()>, published: bool)
    returns (o: Outcome<Report>)
    requires Wf(h.disk) && s in h.disk.stages && !body.Killed?
    requires h.disk.live == if published then tgt else src
    requires body.Done? ==> published && h.disk.liveSaved == tgt
    modifies h
    ensures h.Later()
    ensures o.Done? ==> h.Failed() == old(h.Failed())
    ensures Finished(plan, src, tgt, old(h.disk), h.disk, s, body, published, o, h.Failed() - old(h.Failed()))
    ensures old(h.Faultless()) && body.Done? ==> o.Done?
  {
    ghost var d := h.disk;
    if body.Done? {
      o := Done(Applied(Sha256(src), Sha256(tgt)));
    } else if published {
      var rolledBack := Rollback(h, plan, src);
      o := if rolledBack.Done? then Done(RolledBack(Sha256(src))) else rolledBack.PropagateFailure();
    } else {
      o := body.PropagateFailure();
    }
    if o.Killed? {
      return;
    }
    ghost var e := h.disk;
    var cleaned := h.CleanupStage(s);
    BesideTransitive(d, e, h.disk);
    if !cleaned.Done? {
      o := cleaned.PropagateFailure();
    }
  }

  /** The target passes every check that the migration makes, and its records fit in a file. */
  ghost predicate Fitting(plan: Plan, src: Bytes, tgt: Bytes) {
    && plan.Capturable(src) && plan.Matches(src, true)
    && plan.Capturable(tgt) && plan.Matches(tgt, false)
    && plan.transform(src) == Some(tgt)
    && Readable(plan.JournalBytes(PREPARED, src, tgt))
    && Readable(plan.JournalBytes(COMMITTED, src, tgt))
  }

  /** context_migration._read_audit_file */
  method ReadAuditFile(h: Host, r: Record) returns (o: Outcome<Bytes>)
    requires Wf(h.disk)
    modifies h
    ensures h.Later()
    ensures o.Done? ==> h.Failed() == old(h.Failed())
    ensures Idle(old(h.disk), h.disk)
    ensures o.Raised? ==> o.reason == AuditRecoveryFailed
    ensures o.Done? ==> Held(h.disk, r, o.value) && Readable(o.value)
    ensures old(h.Faultless()) ==> forall value :: Held(old(h.disk), r, value) && Readable(value) ==> o == Done(value)
  {
    var fate := h.Read();
    match fate {
      case Dies => return Killed;
      case Fails => return Raised(AuditRecoveryFailed);
      case Works =>
    }
    var v := ViewOf(h.disk.now, r);
    if v.token.None? || Links(v, v.token.value) != 1 || !Readable(h.disk.data[File(r, v.token.value)]) {
      return Raised(AuditRecoveryFailed);
    }
    return Done(h.disk.data[File(r, v.token.value)]);
  }

  /** What one call of _recover_commit may do, however it ends. */
  ghost predicate RecoveredTarget(plan: Plan, src: Bytes, tgt: Bytes, d: Disk, e: Disk, o: Outcome<()>) {
    var c, cv := JournalOf(COMMITTED, src, tgt), plan.JournalBytes(COMMITTED, src, tgt);
    && AuditKept(d, e, {c}) && RecordsKept(d, e) && LiveKept(d, e)
    && (Says(d, c, cv) ==> Says(e, c, cv))
    && (plan.transform(src) != Some(tgt) ==> Beside(d, e))
    // success only for the source and plan that really lead to this target, behind a readable audit trail
    && (ViewOf(e.now, c) != ViewOf(d.now, c) || o.Done? ==>
          plan.transform(src) == Some(tgt) && plan.Matches(src, true) && Recoverable(plan, src, tgt, d))
    && (o.Done? ==> Held(e, c, cv) && e.liveSaved == d.live && e.stages == d.stages)
  }

  /** The check of _recover_commit that the backup, staged again, leads to the live target. */
  method ReplaySource(h: Host, plan: Plan, backup: Bytes, tgt: Bytes) returns (o: Outcome<()>)
    requires Wf(h.disk)
    modifies h
    ensures h.Later()
    ensures o.Done? ==> h.Failed() == old(h.Failed())
    ensures Beside(old(h.disk), h.disk) && LiveKept(old(h.disk), h.disk)
    ensures o.Done? ==> plan.Matches(backup, true) && plan.transform(backup) == Some(tgt)
    ensures o.Done? ==> h.disk.liveSaved == h.disk.live && h.disk.stages == old(h.disk).stages
    ensures old(h.Faultless()) && plan.Capturable(backup) && plan.Matches(backup, true) && plan.transform(backup) == Some(tgt)
            ==> o.Done?
  {
    ghost var d := h.disk;
    var made := h.CreateStage(backup);
    if !made.Done? {
      return made.PropagateFailure();
    }
    var s := made.value;
    ghost var e := h.disk;
    var staged := CaptureFile(h, plan, h.disk.stages[s].value);
    StagingTransitive(d, e, h.disk);
    if staged.Killed? {
      return Killed;
    }
    if staged.Raised? {
      o := staged.PropagateFailure();
    } else if !plan.Matches(staged.value, true) || plan.transform(staged.value).None? {
      o := Raised(SourcePolicyRefused);
    } else if Sha256(plan.transform(staged.value).value) != Sha256(tgt) {
      o := Raised(AuditRecoveryFailed);
    } else {
      o := Done(());
    }
    e := h.disk;
    var cleaned := h.CleanupStage(s);
    StagingTransitive(d, e, h.disk);
    if !cleaned.Done? {
      o := cleaned;
    }
  }

  lemma WriteRecovers(plan: Plan, src: Bytes, tgt: Bytes, d: Disk, e: Disk, f: Disk, o: Outcome<()>)
    requires Staging(d, e, d.stages) && e.liveSaved == d.live
    requires plan.transform(src) == Some(tgt) && plan.Matches(src, true) && Recoverable(plan, src, tgt, d)
    requires WroteOnce(e, f, JournalOf(COMMITTED, src, tgt), plan.JournalBytes(COMMITTED, src, tgt), o)
    ensures RecoveredTarget(plan, src, tgt, d, f, o)
  {
    var c := JournalOf(COMMITTED, src, tgt);
    AuditKeptWiden(d, e, {}, {c});
    AuditKeptTransitive(d, e, f, {c});
    KeepsOthers(d, e, {}, c, plan.JournalBytes(COMMITTED, src, tgt));
  }

  lemma NothingRecovered(plan: Plan, src: Bytes, tgt: Bytes, d: Disk, e: Disk, o: Outcome<()>)
    requires Beside(d, e) && LiveKept(d, e) && !o.Done?
    ensures RecoveredTarget(plan, src, tgt, d, e, o)
  {
    var c := JournalOf(COMMITTED, src, tgt);
    AuditKeptWiden(d, e, {}, {c});
    KeepsOthers(d, e, {}, c, plan.JournalBytes(COMMITTED, src, tgt));
  }

  /** The first checks of _recover_commit: the backup is the source with this digest, and the PREPARED record is right. */
  method ReadTrail(h: Host, plan: Plan, before: Digest, tgt: Bytes) returns (o: Outcome<Bytes>)
    requires Wf(h.disk)
    modifies h
    ensures h.Later()
    ensures o.Done? ==> h.Failed() == old(h.Failed())
    ensures Idle(old(h.disk), h.disk)
    ensures o.Done? ==> o.value == before.preimage && Recoverable(plan, before.preimage, tgt, h.disk)
    ensures old(h.Faultless()) && Recoverable(plan, before.preimage, tgt, old(h.disk)) && Readable(before.preimage)
              && Readable(plan.JournalBytes(PREPARED, before.preimage, tgt))
            ==> o.Done?
  {
    o := ReadAuditFile(h, Backup(before));
    if o.Done? {
      ghost var e := h.disk;
      var prepared := ReadAuditFile(h, Journal(PREPARED, before, Sha256(tgt)));
      BesideTransitive(old(h.disk), e, h.disk);
      if !prepared.Done? {
        o := prepared.PropagateFailure();
      } else if Sha256(o.value) != before || prepared.value != plan.payload(PREPARED, before, Sha256(tgt)) {
        o := Raised(AuditRecoveryFailed);
      }
    }
  }

  /** context_migration._recover_commit */
  method RecoverCommit(h: Host, plan: Plan, before: Digest, tgt: Bytes) returns (o: Outcome<()>)
    requires Wf(h.disk) && h.disk.live == tgt
    modifies h
    ensures h.Later()
    ensures o.Done? ==> h.Failed() == old(h.Failed())
    ensures RecoveredTarget(plan, before.preimage, tgt, old(h.disk), h.disk, o)
    ensures old(h.Faultless()) && Honest(plan, before.preimage, tgt, old(h.disk))
              && Recoverable(plan, before.preimage, tgt, old(h.disk)) && Fitting(plan, before.preimage, tgt)
            ==> o.Done?
  {
    ghost var d, src := h.disk, before.preimage;
    if Honest(plan, src, tgt, d) && Fitting(plan, src, tgt) {
      HonestCanWrite(plan, src, tgt, d, COMMITTED);
    }
    var backup := ReadTrail(h, plan, before, tgt);
    if backup.Done? {
      o := ReplayAndCheck(h, plan, backup.value, tgt, d);
    } else {
      o := backup.PropagateFailure();
    }
    if o.Done? {
      ghost var e := h.disk;
      o := h.WriteOnce(Journal(COMMITTED, before, Sha256(tgt)), plan.payload(COMMITTED, before, Sha256(tgt)));
      WriteRecovers(plan, src, tgt, d, e, h.disk, o);
    } else {
      NothingRecovered(plan, src, tgt, d, h.disk, o);
    }
  }

  /** Replaying the backup, then checking that the live target is still the one captured. */
  method ReplayAndCheck(h: Host, plan: Plan, backup: Bytes, tgt: Bytes, ghost d: Disk) returns (o: Outcome<()>)
    requires Wf(h.disk) && h.disk.live == tgt && Idle(d, h.disk)
    modifies h
    ensures h.Later()
    ensures o.Done? ==> h.Failed() == old(h.Failed())
    ensures Beside(d, h.disk) && LiveKept(d, h.disk)
    ensures o.Done? ==> plan.Matches(backup, true) && plan.transform(backup) == Some(tgt)
    ensures o.Done? ==> h.disk.liveSaved == d.live && h.disk.stages == d.stages
    ensures old(h.Faultless()) && Fitting(plan, backup, tgt) ==> o.Done?
  {
    ghost var e := h.disk;
    o := ReplaySource(h, plan, backup, tgt);
    BesideTransitive(d, e, h.disk);
    if !o.Done? {
      return;
    }
    e := h.disk;
    o := OnlineUnchanged(h, tgt);
    BesideTransitive(d, e, h.disk);
  }

  /** The state that every run, finished, failed or killed, leaves behind for the next one. */
  ghost predicate Consistent(plan: Plan, src: Bytes, tgt: Bytes, d: Disk) {
    && Wf(d) && Honest(plan, src, tgt, d)
    && d.live in {src, tgt}
    && (d.live != src ==> Recoverable(plan, src, tgt, d))
  }

  /** The same, and a power loss cannot break it. */
  ghost predicate Durable(plan: Plan, src: Bytes, tgt: Bytes, d: Disk) {
    && Consistent(plan, src, tgt, d)
    && d.liveSaved in {src, tgt} && d.liveDurable
    && (d.live != src || d.liveSaved != src ==> PowerSafe(plan, src, tgt, d))
  }

  /** A clean start: the source is live and saved, and its audit trail, if any, is right. */
  ghost predicate FreshStart(plan: Plan, src: Bytes, tgt: Bytes, d: Disk) {
    && Consistent(plan, src, tgt, d) && d.live == src && d.liveSaved == src && d.liveDurable
    && ViewOf(d.now, JournalOf(COMMITTED, src, tgt)).token.None?
  }

  /** What one run of the plan from `src` to `tgt` may do, however it ends. */
  ghost predicate RunStep(plan: Plan, src: Bytes, tgt: Bytes, d: Disk, e: Disk, o: Outcome<Report>, faults: int) {
    var c, cv := JournalOf(COMMITTED, src, tgt), plan.JournalBytes(COMMITTED, src, tgt);
    && AuditKept(d, e, Trail(src, tgt)) && RecordsKept(d, e)
    && (Honest(plan, src, tgt, d) ==> Honest(plan, src, tgt, e))
    && (PowerSafe(plan, src, tgt, d) ==> PowerSafe(plan, src, tgt, e))
    && (d.live != src && Recoverable(plan, src, tgt, d) ==> Recoverable(plan, src, tgt, e))
    // only the source is ever replaced, only by the target, and only behind an audit trail
    && (e.live != d.live ==> d.live == src && e.live == tgt && Recoverable(plan, src, tgt, e))
    && (e.liveSaved in {d.liveSaved, d.live} || (d.live == src && e.liveSaved == tgt))
    && (d.live == src && Honest(plan, src, tgt, d) && !Hazard(plan, src, tgt, d) && (e.live != src || e.liveSaved !in {d.liveSaved, src})
        ==> PowerSafe(plan, src, tgt, e))
    // a commit record appears only while the target stays live, unless two calls failed
    && (faults < 2 && ViewOf(e.now, c).token != ViewOf(d.now, c).token ==> e.live == tgt)
    // a source is not replaced for good without a commit record, unless more calls failed than a rollback can stand
    && (d.live == src && plan.Capturable(src) && plan.Matches(src, true) && faults <= Tolerated(plan, src, tgt, d) && !o.Killed? ==>
          Settled(plan, src, tgt, e))
  }

  /** The source is live, or the target is live and saved and its commit recorded. */
  ghost predicate Settled(plan: Plan, src: Bytes, tgt: Bytes, d: Disk) {
    d.live == src || CommitIsThere(plan, src, tgt, d)
  }

  /** The reported status is true, and so are the digests reported with it. */
  ghost predicate TrueReport(plan: Plan, before: Digest, apply: bool, d: Disk, e: Disk, report: Report) {
    var src := before.preimage;
    match report
    case DryRun(b, a) =>
      && !apply && b == before && d.live == src && plan.Capturable(src) && plan.Matches(src, true)
      && plan.transform(src) == Some(a.preimage)
    case AlreadyDone(b) =>
      b == before && d.live == src && plan.Capturable(src) && !plan.Matches(src, true) && plan.Matches(src, false)
    case Applied(b, a) =>
      && apply && b == before && d.live == src && plan.Capturable(src) && plan.Matches(src, true)
      && plan.transform(src) == Some(a.preimage) && CommitIsThere(plan, src, a.preimage, e)
    case RolledBack(b) =>
      && apply && b == before && d.live == src && plan.Capturable(src) && plan.Matches(src, true)
      && plan.transform(src).Some? && e.live == src && e.liveSaved == src
    case RecoveredCommit(b, a) =>
      && apply && b == before && d.live == a.preimage && plan.Capturable(d.live) && plan.Matches(d.live, false)
      && plan.transform(src) == Some(a.preimage) && CommitIsThere(plan, src, a.preimage, e)
  }

  ghost predicate CommitIsThere(plan: Plan, src: Bytes, tgt: Bytes, d: Disk) {
    d.live == tgt && d.liveSaved == tgt && Held(d, JournalOf(COMMITTED, src, tgt), plan.JournalBytes(COMMITTED, src, tgt))
  }

  /** What one run may do, however it ends and with this many failing calls. */
  ghost predicate RunMigration(plan: Plan, before: Digest, apply: bool, d: Disk, e: Disk, o: Outcome<Report>, faults: int) {
    var src := before.preimage;
    && Wf(e)
    && (!apply ==> Idle(d, e))
    && (o.Done? ==> TrueReport(plan, before, apply, d, e, o.value))
    && match plan.transform(src)
       case Some(tgt) => RunStep(plan, src, tgt, d, e, o, faults)
       case None => Beside(d, e) && LiveKept(d, e)
  }

  /** The run writes nothing: it neither applies the plan nor finishes a commit. */
  predicate OnlyAnswers(plan: Plan, before: Digest, apply: bool, live: Bytes) {
    || !apply
    || if plan.Matches(live, true) then Sha256(live) != before || plan.transform(live).None?
       else !plan.Matches(live, false) || Sha256(live) == before
  }

  /** What such a run answers about a captured context. */
  function Answer(plan: Plan, before: Digest, live: Bytes): Outcome<Report> {
    if plan.Matches(live, true) then
      if Sha256(live) != before then Raised(ExpectedDigestMismatch)
      else if plan.transform(live).None? then Raised(SourcePolicyRefused)
      else Done(DryRun(before, Sha256(plan.transform(live).value)))
    else if !plan.Matches(live, false) then Raised(SourcePolicyRefused)
    else if Sha256(live) == before then Done(AlreadyDone(before))
    else Raised(ExpectedDigestMismatch)
  }

  /** Without failures, a run from any state an earlier run left behind ends committed. */
  ghost predicate Completes(plan: Plan, before: Digest, d: Disk, e: Disk, o: Outcome<Report>) {
    var src := before.preimage;
    forall tgt :: plan.Disjoint() && Fitting(plan, src, tgt) && Consistent(plan, src, tgt, d) ==>
                    && o == Done(if d.live == src then Applied(before, Sha256(tgt)) else RecoveredCommit(before, Sha256(tgt)))
                    && e.live == tgt
                    && Held(e, JournalOf(COMMITTED, src, tgt), plan.JournalBytes(COMMITTED, src, tgt))
  }

  lemma IdleRun(plan: Plan, before: Digest, apply: bool, d: Disk, e: Disk, o: Outcome<Report>, faults: int)
    requires Idle(d, e) && (o.Done? ==> TrueReport(plan, before, apply, d, e, o.value))
    ensures RunMigration(plan, before, apply, d, e, o, faults)
  {
    if plan.transform(before.preimage).Some? {
      BesideRun(plan, before.preimage, plan.transform(before.preimage).value, d, e, o, faults);
    }
  }

  lemma BesideRun(plan: Plan, src: Bytes, tgt: Bytes, d: Disk, e: Disk, o: Outcome<Report>, faults: int)
    requires Beside(d, e) && LiveKept(d, e)
    ensures RunStep(plan, src, tgt, d, e, o, faults)
  {
    AuditKeptWiden(d, e, {}, Trail(src, tgt));
    KeepsOthers(d, e, {}, BackupOf(src), src);
    KeepsOthers(d, e, {}, JournalOf(PREPARED, src, tgt), plan.JournalBytes(PREPARED, src, tgt));
    KeepsOthers(d, e, {}, JournalOf(COMMITTED, src, tgt), plan.JournalBytes(COMMITTED, src, tgt));
  }

  lemma CaptureKeepsHazard(plan: Plan, src: Bytes, tgt: Bytes, d: Disk, e: Disk)
    requires Idle(d, e)
    ensures Hazard(plan, src, tgt, e) ==> Hazard(plan, src, tgt, d)
    ensures Honest(plan, src, tgt, d) ==> Honest(plan, src, tgt, e)
    ensures Recoverable(plan, src, tgt, d) ==> Recoverable(plan, src, tgt, e)
    ensures PowerSafe(plan, src, tgt, d) ==> PowerSafe(plan, src, tgt, e)
  {
    KeepsOthers(d, e, {}, BackupOf(src), src);
    KeepsOthers(d, e, {}, JournalOf(PREPARED, src, tgt), plan.JournalBytes(PREPARED, src, tgt));
    KeepsOthers(d, e, {}, JournalOf(COMMITTED, src, tgt), plan.JournalBytes(COMMITTED, src, tgt));
  }

  lemma AppliedRun(plan: Plan, src: Bytes, tgt: Bytes, d: Disk, e: Disk, f: Disk,
                   o: Outcome<Report>, published: bool, faults: int, more: int)
    requires Idle(d, e) && d.live == src
    requires AppliedMigration(plan, src, tgt, e, f, o, published, faults) && faults <= more
    requires plan.Capturable(src) && plan.Matches(src, true) && plan.transform(src) == Some(tgt)
    ensures RunStep(plan, src, tgt, d, f, o, more)
    ensures o.Done? ==> TrueReport(plan, Sha256(src), true, d, f, o.value)
  {
    CaptureKeepsHazard(plan, src, tgt, d, e);
    AuditKeptWiden(d, e, {}, Trail(src, tgt));
    AuditKeptTransitive(d, e, f, Trail(src, tgt));
  }

  lemma RecoveredRun(plan: Plan, before: Digest, tgt: Bytes, d: Disk, e: Disk, f: Disk,
                     recovered: Outcome<()>, o: Outcome<Report>, faults: int)
    requires Idle(d, e) && d.live == tgt && d.live != before.preimage
    requires plan.Capturable(tgt) && plan.Matches(tgt, false)
    requires RecoveredTarget(plan, before.preimage, tgt, e, f, recovered)
    requires o == if recovered.Done? then Done(RecoveredCommit(before, Sha256(tgt))) else recovered.PropagateFailure()
    ensures RunMigration(plan, before, true, d, f, o, faults)
  {
    var src, c := before.preimage, JournalOf(COMMITTED, before.preimage, tgt);
    CaptureKeepsHazard(plan, src, tgt, d, e);
    if plan.transform(src) == Some(tgt) {
      KeepsOthers(e, f, {c}, BackupOf(src), src);
      KeepsOthers(e, f, {c}, JournalOf(PREPARED, src, tgt), plan.JournalBytes(PREPARED, src, tgt));
      AuditKeptWiden(d, e, {}, Trail(src, tgt));
      AuditKeptWiden(e, f, {c}, Trail(src, tgt));
      AuditKeptTransitive(d, e, f, Trail(src, tgt));
    } else {
      BesideTransitive(d, e, f);
      if plan.transform(src).Some? {
        BesideRun(plan, src, plan.transform(src).value, d, f, o, faults);
      }
    }
  }

  /** The danger before a run, with the target that the plan leads to. */
  ghost function DangerBefore(plan: Plan, before: Digest, d: Disk): Danger {
    DangerOf(plan, before.preimage, plan.transform(before.preimage).GetOr([]), d)
  }

  /** A capture during which nothing is written back changes nothing. */
  lemma CalmCapture(plan: Plan, src: Bytes, tgt: Bytes, d: Disk, e: Disk)
    requires Idle(d, e)
    ensures DangerOf(plan, src, tgt, d) == NotStarted ==> DangerOf(plan, src, tgt, e) == NotStarted
    ensures SavedKept(d, e) && DangerOf(plan, src, tgt, d) == SourceOnHazard ==> DangerOf(plan, src, tgt, e) == SourceOnHazard
  {
    DangerStays(plan, src, tgt, d, e);
  }

  /** Before a fitting plan has published anything its source is live. */
  lemma NoDangerWithoutSource(plan: Plan, before: Digest, d: Disk)
    requires d.live != before.preimage || !plan.Capturable(d.live) || !plan.Matches(d.live, true)
    ensures DangerBefore(plan, before, d) != NotStarted && DangerBefore(plan, before, d) != SourceOnHazard
  {
  }

  /** A run that applies the plan to a captured source. */
  method ApplyCaptured(h: Host, plan: Plan, src: Bytes, tgt: Bytes, ghost d: Disk, ghost failed: nat)
    returns (o: Outcome<Report>)
    requires Wf(h.disk) && Idle(d, h.disk) && h.disk.live == src && failed <= h.Failed()
    requires plan.Capturable(src) && plan.Matches(src, true) && plan.transform(src) == Some(tgt)
    modifies h
    ensures o.Done? && !o.value.RolledBack? ==> h.Failed() == old(h.Failed())
    ensures Wf(h.disk) && RunStep(plan, src, tgt, d, h.disk, o, h.Failed() - failed)
    ensures o.Done? ==> TrueReport(plan, Sha256(src), true, d, h.disk, o.value)
    ensures old(h.Faultless()) && Honest(plan, src, tgt, d) && Fitting(plan, src, tgt)
            ==> o == Done(Applied(Sha256(src), Sha256(tgt)))
    ensures h.schedule.DiesAt(old(h.clock) + 15) && DangerOf(plan, src, tgt, old(h.disk)) == NotStarted ==>
              o.Killed? && DangerOf(plan, src, tgt, h.disk) == SourceOnHazard
    ensures h.schedule.DiesAt(old(h.clock) + 17) && DangerOf(plan, src, tgt, old(h.disk)) == SourceOnHazard ==>
              o.Killed? && DangerOf(plan, src, tgt, h.disk) == TargetOnHazard
  {
    CaptureKeepsHazard(plan, src, tgt, d, h.disk);
    ghost var e, start := h.disk, h.Failed();
    ghost var first := h.schedule.DiesAt(h.clock + 15) && DangerOf(plan, src, tgt, e) == NotStarted;
    ghost var later := h.schedule.DiesAt(h.clock + 17) && DangerOf(plan, src, tgt, e) == SourceOnHazard;
    ghost var easy := h.Faultless() && Honest(plan, src, tgt, d) && Fitting(plan, src, tgt);
    var published;
    o, published := Apply(h, plan, src, tgt);
    assert easy ==> o == Done(Applied(Sha256(src), Sha256(tgt)));
    assert first ==> o.Killed? && DangerOf(plan, src, tgt, h.disk) == SourceOnHazard;
    assert later ==> o.Killed? && DangerOf(plan, src, tgt, h.disk) == TargetOnHazard;
    AppliedRun(plan, src, tgt, d, e, h.disk, o, published, h.Failed() - start, h.Failed() - failed);
  }

  /** The branch of context_migration._run_locked for a live source. */
  method RunFromSource(h: Host, plan: Plan, live: Bytes, apply: bool, ghost d: Disk, ghost failed: nat)
    returns (o: Outcome<Report>)
    requires Wf(h.disk) && Idle(d, h.disk) && h.disk.live == live && failed <= h.Failed()
    requires plan.Capturable(live) && plan.Matches(live, true)
    modifies h
    ensures RunMigration(plan, Sha256(live), apply, d, h.disk, o, h.Failed() - failed)
    ensures o.Done? && !o.value.RolledBack? ==> h.Failed() == old(h.Failed())
    ensures !apply || plan.transform(live).None? ==> o == Answer(plan, Sha256(live), live) && Idle(d, h.disk)
    ensures old(h.Faultless()) && apply && Fitting(plan, live, plan.transform(live).GetOr([]))
              && Honest(plan, live, plan.transform(live).GetOr([]), d)
            ==> o == Done(Applied(Sha256(live), Sha256(plan.transform(live).value)))
    ensures h.schedule.DiesAt(old(h.clock) + 15) && apply && DangerBefore(plan, Sha256(live), old(h.disk)) == NotStarted ==>
              o.Killed? && DangerBefore(plan, Sha256(live), h.disk) == SourceOnHazard
    ensures h.schedule.DiesAt(old(h.clock) + 17) && apply && DangerBefore(plan, Sha256(live), old(h.disk)) == SourceOnHazard ==>
              o.Killed? && DangerBefore(plan, Sha256(live), h.disk) == TargetOnHazard
  {
    var target := plan.transform(live);
    if target.None? || !apply {
      o := if target.None? then Raised(SourcePolicyRefused) else Done(DryRun(Sha256(live), Sha256(target.value)));
      IdleRun(plan, Sha256(live), apply, d, h.disk, o, h.Failed() - failed);
    } else {
      o := ApplyCaptured(h, plan, live, target.value, d, failed);
    }
  }

  /** The branch of context_migration._run_locked for a live target. */
  method RunFromTarget(h: Host, plan: Plan, before: Digest, live: Bytes, apply: bool, ghost d: Disk, ghost failed: nat)
    returns (o: Outcome<Report>)
    requires Wf(h.disk) && Idle(d, h.disk) && h.disk.live == live
    requires plan.Capturable(live) && !plan.Matches(live, true) && plan.Matches(live, false)
    modifies h
    ensures RunMigration(plan, before, apply, d, h.disk, o, h.Failed() - failed)
    ensures o.Done? && !o.value.RolledBack? ==> h.Failed() == old(h.Failed())
    ensures !apply || Sha256(live) == before ==> o == Answer(plan, before, live) && Idle(d, h.disk)
    ensures old(h.Faultless()) && apply && live != before.preimage && Fitting(plan, before.preimage, live)
              && Honest(plan, before.preimage, live, d) && Recoverable(plan, before.preimage, live, d)
            ==> o == Done(RecoveredCommit(before, Sha256(live))) && h.disk.live == live
  {
    if Sha256(live) == before || !apply {
      o := if Sha256(live) == before then Done(AlreadyDone(Sha256(live))) else Raised(ExpectedDigestMismatch);
      IdleRun(plan, before, apply, d, h.disk, o, h.Failed() - failed);
      return;
    }
    CaptureKeepsHazard(plan, before.preimage, live, d, h.disk);
    ghost var e := h.disk;
    var recovered := RecoverCommit(h, plan, before, live);
    o := if recovered.Done? then Done(RecoveredCommit(before, Sha256(live))) else recovered.PropagateFailure();
    RecoveredRun(plan, before, live, d, e, h.disk, recovered, o, h.Failed() - failed);
  }

  /** The branches of context_migration._run_locked, after the live context has been captured or not. */
  method RunCaptured(h: Host, plan: Plan, before: Digest, captured: Outcome<Bytes>, apply: bool, ghost d: Disk, ghost failed: nat)
    returns (o: Outcome<Report>)
    requires Wf(h.disk) && Idle(d, h.disk) && failed <= h.Failed()
    requires captured.Done? ==> h.disk.live == captured.value && plan.Capturable(captured.value)
    modifies h
    ensures RunMigration(plan, before, apply, d, h.disk, o, h.Failed() - failed)
    ensures o.Done? && !o.value.RolledBack? ==> h.Failed() == old(h.Failed())
    ensures captured.Done? && OnlyAnswers(plan, before, apply, captured.value) ==>
              o == Answer(plan, before, captured.value) && Idle(d, h.disk)
    ensures !captured.Done? ==> !o.Done? && Idle(d, h.disk)
    ensures old(h.Faultless()) && apply && (captured.Done? || !plan.Capturable(d.live)) ==> Completes(plan, before, d, h.disk, o)
    ensures h.schedule.DiesAt(old(h.clock) + 15) && apply && captured.Done? && DangerBefore(plan, before, old(h.disk)) == NotStarted ==>
              o.Killed? && DangerBefore(plan, before, h.disk) == SourceOnHazard
    ensures h.schedule.DiesAt(old(h.clock) + 17) && apply && captured.Done? && DangerBefore(plan, before, old(h.disk)) == SourceOnHazard ==>
              o.Killed? && DangerBefore(plan, before, h.disk) == TargetOnHazard
  {
    if captured.Done? && plan.Matches(captured.value, true) && Sha256(captured.value) == before {
      o := RunFromSource(h, plan, captured.value, apply, d, failed);
    } else if captured.Done? && !plan.Matches(captured.value, true) && plan.Matches(captured.value, false) {
      NoDangerWithoutSource(plan, before, h.disk);
      o := RunFromTarget(h, plan, before, captured.value, apply, d, failed);
    } else {
      o := if !captured.Done? then captured.PropagateFailure()
           else if plan.Matches(captured.value, true) then Raised(ExpectedDigestMismatch)
           else Raised(SourcePolicyRefused);
      if captured.Done? {
        NoDangerWithoutSource(plan, before, h.disk);
      }
      if captured.Done? || !plan.Capturable(d.live) {
        NothingToComplete(plan, before, d, h.disk, o);
      }
      IdleRun(plan, before, apply, d, h.disk, o, h.Failed() - failed);
    }
  }

  /** What is neither the named source nor a target of the plan was not left behind by an earlier run. */
  lemma NothingToComplete(plan: Plan, before: Digest, d: Disk, e: Disk, o: Outcome<Report>)
    requires !plan.Capturable(d.live) || (plan.Matches(d.live, true) && Sha256(d.live) != before)
             || (!plan.Matches(d.live, true) && !plan.Matches(d.live, false))
    ensures Completes(plan, before, d, e, o)
  {
  }

  /** context_migration._run_locked */
  method RunLocked(h: Host, plan: Plan, before: Digest, apply: bool) returns (o: Outcome<Report>)
    requires Wf(h.disk)
    modifies h
    ensures RunMigration(plan, before, apply, old(h.disk), h.disk, o, h.Failed() - old(h.Failed()))
    ensures o.Done? && !o.value.RolledBack? ==> h.Failed() == old(h.Failed())
    ensures old(h.Faultless()) && apply ==> Completes(plan, before, old(h.disk), h.disk, o)
    ensures old(h.Faultless()) ==>
              var live := old(h.disk).live;
              if !plan.Capturable(live) then !o.Done? && Idle(old(h.disk), h.disk)
              else OnlyAnswers(plan, before, apply, live) ==> o == Answer(plan, before, live) && Idle(old(h.disk), h.disk)
    ensures h.schedule.DiesAt(old(h.clock) + 17) && apply && DangerBefore(plan, before, old(h.disk)) == NotStarted ==>
              o.Killed? && DangerBefore(plan, before, h.disk) == SourceOnHazard
    ensures h.schedule.DiesAt(old(h.clock) + 19) && apply && DangerBefore(plan, before, old(h.disk)) == SourceOnHazard ==>
              o.Killed? && DangerBefore(plan, before, h.disk) == TargetOnHazard
  {
    ghost var d, failed := h.disk, h.Failed();
    ghost var danger := DangerBefore(plan, before, d);
    ghost var first := h.schedule.DiesAt(h.clock + 17) && apply && danger == NotStarted;
    ghost var later := h.schedule.DiesAt(h.clock + 19) && apply && danger == SourceOnHazard;
    if !plan.Capturable(d.live) {
      NoDangerWithoutSource(plan, before, d);
    }
    var captured := CaptureLive(h, plan);
    StillUntil(h.schedule, old(h.clock), h.clock);
    CalmCapture(plan, before.preimage, plan.transform(before.preimage).GetOr([]), d, h.disk);
    assert first || later ==> captured.Done? && h.clock == old(h.clock) + 2 && DangerBefore(plan, before, h.disk) == danger;
    assert first ==> captured.Done? && h.schedule.DiesAt(h.clock + 15) && DangerBefore(plan, before, h.disk) == NotStarted;
    assert later ==> captured.Done? && h.schedule.DiesAt(h.clock + 17) && DangerBefore(plan, before, h.disk) == SourceOnHazard;
    o := RunCaptured(h, plan, before, captured, apply, d, failed);
    assert first ==> o.Killed? && DangerBefore(plan, before, h.disk) == SourceOnHazard;
    assert later ==> o.Killed? && DangerBefore(plan, before, h.disk) == TargetOnHazard;
  }

  /** Runs keep the state consistent, whatever fails and wherever they are killed. */
  lemma RunsKeepConsistent(plan: Plan, src: Bytes, tgt: Bytes, d: Disk, e: Disk, o: Outcome<Report>, faults: int)
    requires Consistent(plan, src, tgt, d) && RunStep(plan, src, tgt, d, e, o, faults)
    ensures Consistent(plan, src, tgt, e)
    ensures Durable(plan, src, tgt, d) && !(d.live == src && Hazard(plan, src, tgt, d)) ==> Durable(plan, src, tgt, e)
  {
  }

  lemma WritebackKeepsDurable(plan: Plan, src: Bytes, tgt: Bytes, d: Disk, ev: Event)
    requires Durable(plan, src, tgt, d)
    ensures Durable(plan, src, tgt, Writeback(d, ev))
  {
    var w := Writeback(d, ev);
    WritebackOnlyDrifts(d, ev);
    KeepsOthers(d, w, {}, BackupOf(src), src);
    KeepsOthers(d, w, {}, JournalOf(PREPARED, src, tgt), plan.JournalBytes(PREPARED, src, tgt));
    KeepsOthers(d, w, {}, JournalOf(COMMITTED, src, tgt), plan.JournalBytes(COMMITTED, src, tgt));
  }

  /** A power loss, after whatever writeback, keeps a durable state durable. */
  lemma PowerLossKeepsDurable(plan: Plan, src: Bytes, tgt: Bytes, d: Disk, ev: Event, loss: Loss)
    requires Durable(plan, src, tgt, d)
    ensures var e := AfterPowerLoss(Writeback(d, ev), loss);
            Durable(plan, src, tgt, e) && !Hazard(plan, src, tgt, e)
  {
    WritebackKeepsDurable(plan, src, tgt, d, ev);
    AfterPowerLossIsDurable(plan, src, tgt, Writeback(d, ev), loss);
  }

  lemma AfterPowerLossIsDurable(plan: Plan, src: Bytes, tgt: Bytes, d: Disk, loss: Loss)
    requires Durable(plan, src, tgt, d)
    ensures Durable(plan, src, tgt, AfterPowerLoss(d, loss)) && !Hazard(plan, src, tgt, AfterPowerLoss(d, loss))
  {
  }
}
