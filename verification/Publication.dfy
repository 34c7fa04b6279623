/** Committers in different processes that publish under one bundle name.

    The name is an entry of a shared directory. A committer verifies its stage, renames it onto the name without ever
    replacing anything, syncs the directory and checks the result; one that finds the name taken may accept the bundle
    that is there. Their steps interleave in any way, any of them may fail or stop, the kernel may write the directory
    back at any time, and the power may fail. */
module Publication {
  import opened Content
  import opened Outcomes
  import opened ExportPlan
  import opened BundleLayout
  import opened BundleInspection

  type Id = nat

  datatype Phase = Staged | Verified | Renamed | Flushed | Lost | Published | Converged | Failed

  /** `tree` is what the committer staged; `staged` says that it still sits in the staging directory. */
  datatype Committer = Committer(files: seq<PreparedFile>, tree: Tree, accept: bool, staged: bool, phase: Phase)

  /** `synced`: the name's entry would survive a power loss. */
  datatype State = State(owner: Owner, name: Option<Tree>, synced: bool, committers: map<Id, Committer>)

  datatype Step =
    | Begin(id: Id, files: seq<PreparedFile>, accept: bool)
    | Verify(id: Id)
    | Rename(id: Id)
    | Flush(id: Id)
    | Confirm(id: Id)
    | Converge(id: Id)
    | Fail(id: Id)
    | Writeback
    | PowerLoss

  /** What the checks of an inspection accept (see BundleInspection.Inspect). */
  ghost predicate Accepts(t: Tree, files: seq<PreparedFile>, owner: Owner) {
    LayoutOk(t, files, owner) && forall i :: 0 <= i < |files| ==> Holds(t, files[i])
  }

  lemma AcceptsExactlyTheExpectedTree(t: Tree, files: seq<PreparedFile>, owner: Owner)
    requires Plannable(files) && NamesOk(files)
    ensures Accepts(t, files, owner) <==> t == ExpectedTree(files, owner)
  {
    ExpectedTreesPass(files, owner);
    if Accepts(t, files, owner) {
      OnlyTheExpectedTreePasses(t, files, owner);
    }
  }

  predicate In(s: State, id: Id, phase: Phase) {
    id in s.committers && s.committers[id].phase == phase
  }

  predicate Finished(c: Committer) {
    c.phase in {Published, Converged, Failed}
  }

  function Move(s: State, id: Id, phase: Phase): State
    requires id in s.committers
  {
    s.(committers := s.committers[id := s.committers[id].(phase := phase)])
  }

  predicate Enabled(s: State, step: Step) {
    match step
    case Begin(id, _, _) => id !in s.committers
    case Verify(id) => In(s, id, Staged) && s.committers[id].staged
    case Rename(id) => In(s, id, Verified) && s.committers[id].staged
    case Flush(id) => In(s, id, Renamed) && s.name.Some?
    case Confirm(id) => In(s, id, Flushed) && s.name.Some?
    case Converge(id) => In(s, id, Lost) && s.committers[id].accept && s.name.Some?
    case Fail(id) => id in s.committers && !Finished(s.committers[id])
    case Writeback => true
    case PowerLoss => true
  }

  /** The checks that a step makes before it counts as done: staging only hands out complete trees (see
      BundleInspection.StageBundle), and a tree is inspected before the rename, after it, and before it is accepted. */
  ghost predicate Checked(s: State, step: Step)
    requires Enabled(s, step)
  {
    match step
    case Begin(_, files, _) => Plannable(files) && NamesOk(files)
    case Verify(id) => Accepts(s.committers[id].tree, s.committers[id].files, s.owner)
    case Confirm(id) => Accepts(s.name.value, s.committers[id].files, s.owner)
    case Converge(id) => Accepts(s.name.value, s.committers[id].files, s.owner)
    case _ => true
  }

  function Next(s: State, step: Step): State
    requires Enabled(s, step)
  {
    match step
    case Begin(id, files, accept) =>
      s.(committers := s.committers[id := Committer(files, ExpectedTree(files, s.owner), accept, true, Staged)])
    case Verify(id) => Move(s, id, Verified)
    case Rename(id) =>
      var c := s.committers[id];
      if s.name.Some? then Move(s, id, Lost)
      else s.(name := Some(c.tree), synced := false, committers := s.committers[id := c.(staged := false, phase := Renamed)])
    case Flush(id) => Move(s, id, Flushed).(synced := true)
    case Confirm(id) => Move(s, id, Published)
    case Converge(id) => Move(s, id, Converged)
    case Fail(id) => Move(s, id, Failed)
    case Writeback => s.(synced := true)
    case PowerLoss =>
      s.(name := if s.synced then s.name else None,
         committers := map id | id in s.committers ::
           if Finished(s.committers[id]) then s.committers[id] else s.committers[id].(phase := Failed))
  }

  ghost predicate Run(states: seq<State>, steps: seq<Step>) {
    && |states| == |steps| + 1
    && states[0].name == None && states[0].committers == map[]
    && forall i :: 0 <= i < |steps| ==> Takes(states[i], steps[i], states[i + 1])
  }

  ghost predicate Takes(s: State, step: Step, t: State) {
    Enabled(s, step) && Checked(s, step) && t == Next(s, step)
  }

  /** It was this committer that put the tree at the name. */
  predicate Holder(s: State, id: Id) {
    In(s, id, Renamed) || In(s, id, Flushed) || In(s, id, Published)
  }

  /** The name shows the tree of this committer. */
  predicate Shows(s: State, id: Id) {
    id in s.committers && s.name == Some(s.committers[id].tree)
  }

  predicate CommitterOk(s: State, id: Id)
    requires id in s.committers
  {
    && (Holder(s, id) ==> Shows(s, id))
    && (In(s, id, Flushed) || In(s, id, Published) ==> s.synced)
    && (In(s, id, Lost) ==> s.name.Some?)
  }

  /** The stage is there until the rename takes it, and only those converge that were asked to accept. */
  predicate StageOk(s: State, id: Id)
    requires id in s.committers
  {
    var c := s.committers[id];
    match c.phase
    case Staged => c.staged
    case Verified => c.staged
    case Renamed => !c.staged
    case Flushed => !c.staged
    case Published => !c.staged
    case Lost => c.staged
    case Converged => c.staged && c.accept
    case Failed => true
  }

  ghost predicate Inv(s: State) {
    && (forall id :: id in s.committers ==> CommitterOk(s, id))
    && (forall id :: id in s.committers ==> StageOk(s, id))
    && (s.name.Some? ==> exists w :: Shows(s, w))
    && (forall v, w :: Holder(s, v) && Holder(s, w) ==> v == w)
  }

  lemma CommitterStaysOk(s: State, step: Step, id: Id)
    requires Inv(s) && Enabled(s, step) && id in Next(s, step).committers
    ensures CommitterOk(Next(s, step), id)
  {
    assert id in s.committers ==> CommitterOk(s, id);
  }

  lemma StageStaysOk(s: State, step: Step, id: Id)
    requires Enabled(s, step) && id in Next(s, step).committers && (id in s.committers ==> StageOk(s, id))
    ensures StageOk(Next(s, step), id)
  {
  }

  lemma SomeoneShows(s: State, step: Step)
    requires Inv(s) && Enabled(s, step)
    ensures Next(s, step).name.Some? ==> exists w :: Shows(Next(s, step), w)
  {
    var t := Next(s, step);
    if t.name.Some? {
      if s.name.Some? {
        var w :| Shows(s, w);
        assert Shows(t, w);
      } else {
        assert Shows(t, step.id);
      }
    }
  }

  /** Only a rename onto an absent name makes a holder. */
  lemma BecomesHolder(s: State, step: Step, id: Id)
    requires Enabled(s, step) && Holder(Next(s, step), id)
    ensures Holder(s, id) || (step == Rename(id) && s.name.None?)
  {
  }

  lemma OneHolder(s: State, step: Step, v: Id, w: Id)
    requires Inv(s) && Enabled(s, step) && Holder(Next(s, step), v) && Holder(Next(s, step), w)
    ensures v == w
  {
    BecomesHolder(s, step, v);
    BecomesHolder(s, step, w);
    assert Holder(s, v) ==> CommitterOk(s, v);
    assert Holder(s, w) ==> CommitterOk(s, w);
  }

  lemma StepKeepsInv(s: State, step: Step)
    requires Inv(s) && Enabled(s, step)
    ensures Inv(Next(s, step))
  {
    var t := Next(s, step);
    SomeoneShows(s, step);
    forall id | id in t.committers
      ensures CommitterOk(t, id) && StageOk(t, id)
    {
      CommitterStaysOk(s, step, id);
      StageStaysOk(s, step, id);
    }
    forall v, w | Holder(t, v) && Holder(t, w)
      ensures v == w
    {
      OneHolder(s, step, v, w);
    }
  }

  lemma {:induction false} RunsKeepInv(states: seq<State>, steps: seq<Step>, i: nat)
    requires Run(states, steps) && i < |states|
    ensures Inv(states[i])
  {
    if i > 0 {
      RunsKeepInv(states, steps, i - 1);
      assert Takes(states[i - 1], steps[i - 1], states[i]);
      StepKeepsInv(states[i - 1], steps[i - 1]);
    }
  }

  /** What a committer was given does not change, and neither does the owner of the directory. */
  ghost predicate Prepared(s: State, id: Id) {
    && id in s.committers
    && Plannable(s.committers[id].files) && NamesOk(s.committers[id].files)
    && s.committers[id].tree == ExpectedTree(s.committers[id].files, s.owner)
  }

  lemma {:induction false} CommittersArePrepared(states: seq<State>, steps: seq<Step>, i: nat, id: Id)
    requires Run(states, steps) && i < |states| && id in states[i].committers
    ensures Prepared(states[i], id) && states[i].owner == states[0].owner
  {
    if i > 0 {
      var s, step := states[i - 1], steps[i - 1];
      assert Takes(s, step, states[i]);
      if id in s.committers {
        CommittersArePrepared(states, steps, i - 1, id);
      }
      OwnerStays(states, steps, i);
    }
  }

  lemma {:induction false} OwnerStays(states: seq<State>, steps: seq<Step>, i: nat)
    requires Run(states, steps) && i < |states|
    ensures states[i].owner == states[0].owner
  {
    if i > 0 {
      assert Takes(states[i - 1], steps[i - 1], states[i]);
      OwnerStays(states, steps, i - 1);
    }
  }

  /** At any time the name is absent or shows one complete tree, staged by one of the committers. */
  lemma NameIsComplete(states: seq<State>, steps: seq<Step>, i: nat)
    requires Run(states, steps) && i < |states| && states[i].name.Some?
    ensures exists id :: id in states[i].committers && Plannable(states[i].committers[id].files)
                         && states[i].name == Some(ExpectedTree(states[i].committers[id].files, states[i].owner))
  {
    RunsKeepInv(states, steps, i);
    var id :| Shows(states[i], id);
    CommittersArePrepared(states, steps, i, id);
  }

  /** One step replaces nothing, and only a power loss can remove a tree, one whose entry was not synced. */
  lemma StepNeverReplaces(s: State, step: Step)
    requires Enabled(s, step) && s.name.Some?
    ensures Next(s, step).name == (if step.PowerLoss? && !s.synced then None else s.name)
    ensures s.synced ==> Next(s, step).synced
  {
  }

  /** Once shown, a tree stays; nothing ever replaces it, and only a power loss before the sync removes it. */
  lemma {:induction false} NeverReplaced(states: seq<State>, steps: seq<Step>, i: nat, j: nat)
    requires Run(states, steps) && i <= j < |states| && states[i].name.Some?
    requires states[i].synced || forall k :: i <= k < j ==> steps[k] != PowerLoss
    ensures states[j].name == states[i].name
    ensures states[i].synced ==> states[j].synced
    decreases j
  {
    if i < j {
      NeverReplaced(states, steps, i, j - 1);
      assert Takes(states[j - 1], steps[j - 1], states[j]);
      StepNeverReplaces(states[j - 1], steps[j - 1]);
    }
  }

  /** Nothing turns up in the place of another tree, whatever happens in between, power losses included, unless the
      name was lost first. */
  lemma {:induction false} ReplacedOnlyAfterLoss(states: seq<State>, steps: seq<Step>, i: nat, j: nat)
    requires Run(states, steps) && i <= j < |states| && states[i].name.Some? && states[j].name != states[i].name
    ensures exists k :: i < k <= j && states[k].name.None? && steps[k - 1] == PowerLoss && !states[k - 1].synced
    decreases j
  {
    assert i < j;
    assert Takes(states[j - 1], steps[j - 1], states[j]);
    if states[j - 1].name == states[i].name {
      StepNeverReplaces(states[j - 1], steps[j - 1]);
      assert i < j <= j && states[j].name.None?;
    } else {
      ReplacedOnlyAfterLoss(states, steps, i, j - 1);
    }
  }

  lemma {:induction false} FinishedStays(states: seq<State>, steps: seq<Step>, i: nat, j: nat, id: Id)
    requires Run(states, steps) && i <= j < |states| && id in states[i].committers && Finished(states[i].committers[id])
    ensures id in states[j].committers && states[j].committers[id] == states[i].committers[id]
    decreases j
  {
    if i < j {
      FinishedStays(states, steps, i, j - 1, id);
      assert Takes(states[j - 1], steps[j - 1], states[j]);
    }
  }

  /** A committer that reports success after its own rename is right for good: its tree is there ever after, even
      through power losses, and it is the only such committer. */
  lemma PublishedForGood(states: seq<State>, steps: seq<Step>, i: nat, j: nat, id: Id)
    requires Run(states, steps) && i <= j < |states| && In(states[i], id, Published)
    ensures states[j].name == Some(ExpectedTree(states[i].committers[id].files, states[i].owner))
    ensures forall other :: In(states[j], other, Published) ==> other == id
  {
    RunsKeepInv(states, steps, i);
    CommittersArePrepared(states, steps, i, id);
    assert CommitterOk(states[i], id);
    NeverReplaced(states, steps, i, j);
    FinishedStays(states, steps, i, j, id);
    RunsKeepInv(states, steps, j);
    forall other | In(states[j], other, Published)
      ensures other == id
    {
      assert Holder(states[j], other) && Holder(states[j], id);
    }
  }

  /** Converging on the bundle that is there is possible exactly for a committer that lost the race and was asked to accept
      an existing bundle, and when that bundle is its own export, node by node. */
  lemma ConvergesExactlyOnItsOwnExport(states: seq<State>, steps: seq<Step>, i: nat, id: Id)
    requires Run(states, steps) && i < |states| && id in states[i].committers
    ensures var c := states[i].committers[id];
            Enabled(states[i], Converge(id)) && Checked(states[i], Converge(id)) <==>
              c.phase == Lost && c.accept && states[i].name == Some(ExpectedTree(c.files, states[i].owner))
  {
    CommittersArePrepared(states, steps, i, id);
    if states[i].name.Some? {
      AcceptsExactlyTheExpectedTree(states[i].name.value, states[i].committers[id].files, states[i].owner);
    }
  }

  /** Background writeback may happen at any time, and after it the tree outlives a power loss. */
  lemma WritebackSaves(states: seq<State>, steps: seq<Step>) returns (states': seq<State>)
    requires Run(states, steps)
    ensures Run(states', steps + [Writeback, PowerLoss]) && states <= states'
    ensures states'[|states'| - 1].name == states[|states| - 1].name
  {
    var s := states[|states| - 1];
    var written := Next(s, Writeback);
    var lost := Next(written, PowerLoss);
    states' := states + [written, lost];
    var steps' := steps + [Writeback, PowerLoss];
    forall k | 0 <= k < |steps'|
      ensures Takes(states'[k], steps'[k], states'[k + 1])
    {
      if k < |steps| {
        assert Takes(states[k], steps[k], states[k + 1]);
      }
    }
  }

  /** No committer ever has to fail a check: with no writer but the committers, the checks before and after the rename
      always find the tree they look for. */
  lemma ChecksOfTheWinnerHold(states: seq<State>, steps: seq<Step>, i: nat, id: Id)
    requires Run(states, steps) && i < |states|
    ensures Enabled(states[i], Verify(id)) ==> Checked(states[i], Verify(id))
    ensures Enabled(states[i], Confirm(id)) ==> Checked(states[i], Confirm(id))
  {
    if id in states[i].committers {
      CommittersArePrepared(states, steps, i, id);
      RunsKeepInv(states, steps, i);
      assert CommitterOk(states[i], id);
      AcceptsExactlyTheExpectedTree(states[i].committers[id].tree, states[i].committers[id].files, states[i].owner);
    }
  }

  /** The rename at step `r` put the tree there that the name shows at `i`. */
  ghost predicate PutThere(states: seq<State>, steps: seq<Step>, r: nat, i: nat) {
    && r < i < |states| && |states| == |steps| + 1
    && steps[r].Rename? && states[r].name.None?
    && forall k :: r < k <= i ==> states[k].name.Some?
  }

  lemma {:induction false} SomeRenamePutItThere(states: seq<State>, steps: seq<Step>, i: nat) returns (r: nat)
    requires Run(states, steps) && i < |states| && states[i].name.Some?
    ensures PutThere(states, steps, r, i)
  {
    assert i > 0;
    assert Takes(states[i - 1], steps[i - 1], states[i]);
    if states[i - 1].name.Some? {
      r := SomeRenamePutItThere(states, steps, i - 1);
    } else {
      r := i - 1;
    }
  }

  /** The directory is synced in this step, by a committer or by the kernel. */
  predicate Syncs(step: Step) {
    step.Flush? || step.Writeback?
  }

  /** The entry would survive a power loss exactly when the directory has been synced since the rename. */
  lemma {:induction false} SavedIffSynced(states: seq<State>, steps: seq<Step>, r: nat, i: nat)
    requires Run(states, steps) && PutThere(states, steps, r, i)
    ensures states[i].synced <==> exists k :: r < k < i && Syncs(steps[k])
  {
    assert Takes(states[i - 1], steps[i - 1], states[i]);
    if r < i - 1 {
      SavedIffSynced(states, steps, r, i - 1);
    }
  }

  /** The name shows the same tree all the way. */
  ghost predicate Stays(states: seq<State>, i: nat, j: nat)
    requires i <= j < |states|
  {
    forall k :: i <= k <= j ==> states[k].name == states[i].name
  }

  /** A tree outlives exactly the power losses that come after a sync of the directory that came after the rename. */
  lemma {:induction false} SurvivesIffSynced(states: seq<State>, steps: seq<Step>, r: nat, i: nat, j: nat)
    requires Run(states, steps) && PutThere(states, steps, r, i) && i <= j < |states|
    ensures Stays(states, i, j) <==>
            forall p :: i <= p < j && steps[p].PowerLoss? ==> exists k :: r < k < p && Syncs(steps[k])
    decreases j
  {
    if i < j {
      SurvivesIffSynced(states, steps, r, i, j - 1);
      if Stays(states, i, j - 1) {
        assert PutThere(states, steps, r, j - 1);
        SavedIffSynced(states, steps, r, j - 1);
        assert Takes(states[j - 1], steps[j - 1], states[j]);
        StepNeverReplaces(states[j - 1], steps[j - 1]);
      }
    }
  }

  /** A converging committer never syncs the directory. Its success, over its own export, outlives exactly the power
      losses before which someone has synced the directory since the winner's rename. */
  lemma ConvergedSurvivesIffSynced(states: seq<State>, steps: seq<Step>, r: nat, i: nat, j: nat, id: Id)
    requires Run(states, steps) && i < j < |states| && steps[i] == Converge(id) && PutThere(states, steps, r, i)
    ensures id in states[i].committers && states[i].name == Some(ExpectedTree(states[i].committers[id].files, states[i].owner))
    ensures Stays(states, i, j) <==>
            forall p :: i <= p < j && steps[p].PowerLoss? ==> exists k :: r < k < p && Syncs(steps[k])
  {
    assert Takes(states[i], steps[i], states[i + 1]);
    ConvergesExactlyOnItsOwnExport(states, steps, i, id);
    SurvivesIffSynced(states, steps, r, i, j);
  }

  /** It outlives all of them once the winner has got past its sync. */
  lemma WinnerMakesItLast(states: seq<State>, steps: seq<Step>, i: nat, j: nat, winner: Id)
    requires Run(states, steps) && i <= j < |states| && (In(states[i], winner, Flushed) || In(states[i], winner, Published))
    ensures Stays(states, i, j) && states[j].name == Some(ExpectedTree(states[i].committers[winner].files, states[i].owner))
  {
    RunsKeepInv(states, steps, i);
    CommittersArePrepared(states, steps, i, winner);
    assert CommitterOk(states[i], winner);
    forall k | i <= k <= j
      ensures states[k].name == states[i].name
    {
      NeverReplaced(states, steps, i, k);
    }
  }

  lemma Extend(states: seq<State>, steps: seq<Step>, step: Step) returns (longer: seq<State>)
    requires Run(states, steps)
    requires Enabled(states[|steps|], step) && Checked(states[|steps|], step)
    ensures Run(longer, steps + [step]) && longer == states + [Next(states[|steps|], step)]
  {
    longer := states + [Next(states[|steps|], step)];
    forall i | 0 <= i < |steps + [step]|
      ensures Takes(longer[i], (steps + [step])[i], longer[i + 1])
    {
      if i < |steps| {
        assert Takes(states[i], steps[i], states[i + 1]);
      }
    }
  }

  /** Such a loss can happen to any export: the winner has renamed its stage but not synced, the loser converges, the
      power fails. */
  lemma ConvergedBundleCanBeLost(files: seq<PreparedFile>, owner: Owner) returns (states: seq<State>, steps: seq<Step>)
    requires Plannable(files) && NamesOk(files)
    ensures Run(states, steps)
    ensures var last := states[|states| - 1];
            In(last, 1, Converged) && last.committers[1].files == files && last.name.None?
  {
    var tree := ExpectedTree(files, owner);
    AcceptsExactlyTheExpectedTree(tree, files, owner);
    steps := [];
    states := [State(owner, None, false, map[])];
    states := Extend(states, steps, Begin(0, files, true));
    steps := steps + [Begin(0, files, true)];
    states := Extend(states, steps, Begin(1, files, true));
    steps := steps + [Begin(1, files, true)];
    assert states[2].committers[0].tree == tree && states[2].committers[1].tree == tree;
    states := Extend(states, steps, Verify(0));
    steps := steps + [Verify(0)];
    states := Extend(states, steps, Rename(0));
    steps := steps + [Rename(0)];
    states := Extend(states, steps, Verify(1));
    steps := steps + [Verify(1)];
    states := Extend(states, steps, Rename(1));
    steps := steps + [Rename(1)];
    states := Extend(states, steps, Converge(1));
    steps := steps + [Converge(1)];
    states := Extend(states, steps, PowerLoss);
    steps := steps + [PowerLoss];
  }

  datatype ExportedFile = ExportedFile(path: Path, digest: Digest, size: nat)

  /** bundle._bundle_from_prepared: the files that a successful commit reports. */
  function Reported(files: seq<PreparedFile>): seq<ExportedFile> {
    seq(|files|, i requires 0 <= i < |files| => ExportedFile(files[i].path, Sha256(files[i].content), |files[i].content|))
  }

  /** The report lists every file of the tree once, with its digest and size, and nothing else. */
  lemma ReportsDescribeTheTree(files: seq<PreparedFile>, owner: Owner)
    requires Plannable(files) && NamesOk(files)
    ensures forall p, digest, size ::
              ExportedFile(p, digest, size) in Reported(files) <==>
              var t := ExpectedTree(files, owner);
              p in t && t[p].Regular? && Sha256(t[p].content) == digest && |t[p].content| == size
    ensures forall i, j :: 0 <= i < j < |files| ==> Reported(files)[i].path != Reported(files)[j].path
  {
    ExpectedTreesPass(files, owner);
    PlannableTreesAreConsistent(files);
    var t := ExpectedTree(files, owner);
    forall p, digest, size | p in t && t[p].Regular? && Sha256(t[p].content) == digest && |t[p].content| == size
      ensures ExportedFile(p, digest, size) in Reported(files)
    {
      SomeContent(files, p);
      var i :| 0 <= i < |files| && files[i] == PreparedFile(p, ExpectedFiles(files)[p]);
      assert Reported(files)[i] == ExportedFile(p, digest, size);
    }
    forall p, digest, size | ExportedFile(p, digest, size) in Reported(files)
      ensures p in t && t[p].Regular? && Sha256(t[p].content) == digest && |t[p].content| == size
    {
      var i :| 0 <= i < |files| && Reported(files)[i] == ExportedFile(p, digest, size);
      assert Holds(t, files[i]);
    }
    forall i, j | 0 <= i < j < |files|
      ensures Reported(files)[i].path != Reported(files)[j].path
    {
      assert !IsPrefix(files[i].path, files[j].path);
      assert files[j].path[..|files[j].path|] == files[j].path;
    }
  }
}
