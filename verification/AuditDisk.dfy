/** The file system as the context migration sees it.

    Two directories matter.  The config directory holds the live context and private stage directories.
    The audit directory holds write-once records and the temporary files they are linked from.
    For both, `now` is what running processes see and `saved` is what a power loss would leave behind:
    any entry may be written back at any moment, and only an fsync of the directory writes back all of them.
    The content of a file is only certain to survive a power loss once the file itself has been synced; whatever was
    written and not synced may turn into anything. */
module AuditDisk {
  import opened Content
  import opened Outcomes

  datatype Status = PREPARED | COMMITTED

  /** The audit names of one migration plan. */
  datatype Record =
    | Backup(before: Digest)
    | Journal(status: Status, before: Digest, after: Digest)

  /** The audit names that belong to one record: the record itself, if present, as the token of the file it
      points to, and the tokens of the temporary files left for it. */
  datatype View = View(token: Option<nat>, temps: set<nat>)

  const NoNames := View(None, {})

  type Directory = map<Record, View>

  /** A file, identified by the record it was created for and the random token of its temporary name. */
  datatype File = File(record: Record, token: nat)

  /** `durable` and `flushed` are the audit files and stages whose content has been synced; `liveDurable` says so of the
      files that the live context's name, seen or saved, leads to. */
  datatype Disk = Disk(
    live: Bytes, liveSaved: Bytes, liveDurable: bool,
    now: Directory, saved: Directory,
    data: map<File, Bytes>, durable: set<File>, nextToken: nat,
    stages: map<nat, Option<Bytes>>, flushed: set<nat>, nextStage: nat)

  function ViewOf(dir: Directory, r: Record): View {
    if r in dir then dir[r] else NoNames
  }

  /** st_nlink of the file that a view knows by this token. */
  function Links(v: View, token: nat): nat {
    (if token in v.temps then 1 else 0) + (if v.token == Some(token) then 1 else 0)
  }

  ghost predicate WfView(r: Record, v: View, data: map<File, Bytes>) {
    && (v.token.Some? ==> File(r, v.token.value) in data)
    && (forall t :: t in v.temps ==> File(r, t) in data)
  }

  ghost predicate Wf(d: Disk) {
    && (forall r :: WfView(r, ViewOf(d.now, r), d.data) && WfView(r, ViewOf(d.saved, r), d.data))
    && (forall f :: f in d.data ==> f.token < d.nextToken)
    && d.durable <= d.data.Keys
    && (forall s :: s in d.stages || s in d.flushed ==> s < d.nextStage)
  }

  /** The record exists with this content and link count one, so it can be read back. */
  ghost predicate Held(d: Disk, r: Record, value: Bytes) {
    var v := ViewOf(d.now, r);
    && v.token.Some? && Links(v, v.token.value) == 1
    && File(r, v.token.value) in d.data && d.data[File(r, v.token.value)] == value
  }

  ghost predicate ViewSays(d: Disk, r: Record, v: View, value: Bytes) {
    v.token.Some? ==>
      File(r, v.token.value) in d.data && d.data[File(r, v.token.value)] == value && File(r, v.token.value) in d.durable
  }

  /** Every version of the record, seen or saved, has this content, and the content is on disk. */
  ghost predicate Says(d: Disk, r: Record, value: Bytes) {
    ViewSays(d, r, ViewOf(d.now, r), value) && ViewSays(d, r, ViewOf(d.saved, r), value)
  }

  /** The audit directory is fully written back. */
  ghost predicate Synced(d: Disk) {
    forall r :: ViewOf(d.saved, r) == ViewOf(d.now, r)
  }

  /** What unsynced contents turn into. */
  datatype Loss = Loss(files: map<File, Bytes>, live: Bytes)

  /** What the power loss leaves: the names that had been written back, and the contents that had been synced. */
  function AfterPowerLoss(d: Disk, loss: Loss): Disk {
    d.(
    now := d.saved,
    live := if d.liveDurable then d.liveSaved else loss.live,
    liveSaved := if d.liveDurable then d.liveSaved else loss.live,
    liveDurable := true,
    data := map f | f in d.data :: if f in d.durable then d.data[f] else if f in loss.files then loss.files[f] else [],
    durable := d.data.Keys)
  }

  /** The record can be read back now and after a power loss, whatever is written back in between. */
  ghost predicate Safe(d: Disk, r: Record, value: Bytes) {
    var n, s := ViewOf(d.now, r), ViewOf(d.saved, r);
    && n.token.Some? && s.token.Some? && Says(d, r, value)
    && {n.token.value, s.token.value} !! n.temps + s.temps
  }

  /** The saved audit directory did not change. */
  ghost predicate SavedKept(d: Disk, e: Disk) {
    forall r :: ViewOf(e.saved, r) == ViewOf(d.saved, r)
  }

  /** A saved view after some background writeback. */
  ghost predicate Between(saved: View, now: View, saved': View) {
    && (saved'.token == saved.token || saved'.token == now.token)
    && saved.temps * now.temps <= saved'.temps <= saved.temps + now.temps
  }

  /** Contents that were on disk stay there. */
  ghost predicate Persists(d: Disk, e: Disk) {
    d.durable <= e.durable && d.flushed <= e.flushed && (d.liveDurable ==> e.liveDurable)
  }

  /** Nothing but background writeback happened to the audit directory, except under the names of `rs`. */
  ghost predicate AuditKept(d: Disk, e: Disk, rs: set<Record>) {
    && Wf(e) && Persists(d, e)
    && d.nextToken <= e.nextToken
    && (forall q :: q !in rs ==>
          ViewOf(e.now, q) == ViewOf(d.now, q) && Between(ViewOf(d.saved, q), ViewOf(d.now, q), ViewOf(e.saved, q)))
    && (forall f :: f in d.data && f.record !in rs ==> f in e.data && e.data[f] == d.data[f])
  }

  /** Nothing but background writeback happened to the live context. */
  ghost predicate LiveKept(d: Disk, e: Disk) {
    && e.live == d.live
    && (e.liveSaved == d.liveSaved || e.liveSaved == d.live)
  }

  /** What happens at one system call: whether it works, fails (a write of nothing is a failure, too) or kills the
      process, what the kernel wrote back before it, and how much more than one byte a write takes. */
  datatype Fate = Works | Fails | Dies
  datatype Event = Event(fate: Fate, records: set<Record>, temps: set<File>, live: bool, chunk: nat)
  {
    /** The kernel writes nothing back. */
    predicate Still() {
      records == {} && temps == {} && !live
    }
  }

  function MixedView(r: Record, saved: View, now: View, ev: Event): View {
    View(
      if r in ev.records then now.token else saved.token,
      set t | t in saved.temps + now.temps && (if File(r, t) in ev.temps then t in now.temps else t in saved.temps))
  }

  function Writeback(d: Disk, ev: Event): Disk {
    d.(
    liveSaved := if ev.live then d.live else d.liveSaved,
    saved := map r | r in d.saved.Keys + d.now.Keys :: MixedView(r, ViewOf(d.saved, r), ViewOf(d.now, r), ev))
  }

  lemma MixedViewIsBetween(d: Disk, ev: Event, r: Record)
    requires Wf(d)
    ensures var v := ViewOf(Writeback(d, ev).saved, r);
            Between(ViewOf(d.saved, r), ViewOf(d.now, r), v) && WfView(r, v, d.data)
  {
    var s, n := ViewOf(d.saved, r), ViewOf(d.now, r);
    assert WfView(r, n, d.data) && WfView(r, s, d.data);
    var m := MixedView(r, s, n, ev);
    assert Between(s, n, m) && WfView(r, m, d.data);
  }

  lemma WritebackOnlyDrifts(d: Disk, ev: Event)
    requires Wf(d)
    ensures AuditKept(d, Writeback(d, ev), {}) && LiveKept(d, Writeback(d, ev))
    ensures ev.Still() ==> SavedKept(d, Writeback(d, ev))
  {
    var e := Writeback(d, ev);
    forall q
      ensures Between(ViewOf(d.saved, q), ViewOf(d.now, q), ViewOf(e.saved, q)) && WfView(q, ViewOf(e.saved, q), d.data)
    {
      MixedViewIsBetween(d, ev, q);
    }
  }

  /** The effect of a system call on the names of one record, after the writeback that came before it. */
  lemma EffectOnOneRecord(d: Disk, e: Disk, f: Disk, r: Record, v: View)
    requires AuditKept(d, e, {}) && e.now == d.now && e.data == d.data
    requires f == e.(now := e.now[r := v], data := f.data, nextToken := f.nextToken)
    requires Persists(d, e)
    requires WfView(r, v, f.data) && e.nextToken <= f.nextToken
    requires forall x :: x in e.data ==> x in f.data && (x.record != r ==> f.data[x] == e.data[x])
    requires forall x :: x in f.data ==> x.token < f.nextToken
    ensures AuditKept(d, f, {r}) && ViewOf(f.now, r) == v
    ensures Between(ViewOf(d.saved, r), ViewOf(d.now, r), ViewOf(f.saved, r))
  {
    forall q
      ensures WfView(q, ViewOf(f.now, q), f.data) && WfView(q, ViewOf(f.saved, q), f.data)
    {
      assert WfView(q, ViewOf(e.now, q), e.data) && WfView(q, ViewOf(e.saved, q), e.data);
    }
  }

  lemma SafeThroughPowerLoss(d: Disk, r: Record, value: Bytes, ev: Event, loss: Loss)
    requires Wf(d) && Safe(d, r, value)
    ensures Held(d, r, value) && Held(AfterPowerLoss(Writeback(d, ev), loss), r, value)
  {
    MixedViewIsBetween(d, ev, r);
  }

  /** What is needed to read a record back after a writeback and a power loss. */
  lemma HeldAfterPowerLoss(d: Disk, r: Record, value: Bytes, ev: Event, loss: Loss)
    requires Wf(d) && Held(AfterPowerLoss(Writeback(d, ev), loss), r, value)
    ensures var m := MixedView(r, ViewOf(d.saved, r), ViewOf(d.now, r), ev);
            && m.token.Some? && m.token.value !in m.temps
            && var f := File(r, m.token.value);
               && f in d.data
               && (if f in d.durable then d.data[f] == value else f in loss.files ==> loss.files[f] == value)
  {
    MixedViewIsBetween(d, ev, r);
    assert WfView(r, ViewOf(d.saved, r), d.data) && WfView(r, ViewOf(d.now, r), d.data);
  }

  /** Safe says exactly that no writeback followed by a power loss makes the record unreadable. */
  lemma UnsafeLosesTheRecord(d: Disk, r: Record, value: Bytes) returns (ev: Event, loss: Loss)
    requires Wf(d) && Held(d, r, value) && !Safe(d, r, value)
    ensures !Held(AfterPowerLoss(Writeback(d, ev), loss), r, value)
  {
    var n, s := ViewOf(d.now, r), ViewOf(d.saved, r);
    loss := Loss(map f | f in d.data :: value + [0], []);
    if n.token.value in s.temps || File(r, n.token.value) !in d.durable {
      ev := Event(Works, {r}, {}, false, 0);
    } else if s.token.Some? && s.token.value in n.temps {
      ev := Event(Works, {}, {File(r, s.token.value)}, false, 0);
    } else {
      ev := Event(Works, {}, {}, false, 0);
    }
    if Held(AfterPowerLoss(Writeback(d, ev), loss), r, value) {
      HeldAfterPowerLoss(d, r, value, ev, loss);
      assert false;
    }
  }

  lemma AuditKeptTransitive(d: Disk, e: Disk, f: Disk, rs: set<Record>)
    requires AuditKept(d, e, rs) && AuditKept(e, f, rs)
    ensures AuditKept(d, f, rs)
  {
  }

  lemma KeepsOthers(d: Disk, e: Disk, rs: set<Record>, q: Record, value: Bytes)
    requires AuditKept(d, e, rs) && q !in rs
    ensures Safe(d, q, value) ==> Safe(e, q, value)
    ensures Says(d, q, value) ==> Says(e, q, value)
    ensures Held(d, q, value) ==> Held(e, q, value)
  {
  }
}
