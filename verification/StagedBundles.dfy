/** The life of a staged bundle: an object that owns two descriptors until it is closed or committed. */
module StagedBundles {
  import opened Outcomes

  datatype Life = OPEN | UNKNOWN | PUBLISHED | CLOSED

  datatype Reason =
    | InvalidTarget | InvalidStaged | HashMismatch | TargetExists | WriteFailed | ReadbackFailed | PublishFailed
    | PublicationVerificationFailed | SyncFailed | CloseFailed

  type Outcome<T> = Result<T, Reason>

  /** What a walk finds on disk. */
  datatype Shape = File | Directory(entries: seq<Shape>)

  function Nodes(node: Shape): nat
    decreases node, 0
  {
    match node
    case File => 1
    case Directory(entries) => 1 + NodesOfAll(entries)
  }

  function NodesOfAll(entries: seq<Shape>): nat
    decreases entries, 1
  {
    if entries == [] then 0 else Nodes(entries[0]) + NodesOfAll(entries[1..])
  }

  /** The first free number from the wished one on. */
  function FreeNumber(open: set<int>, wish: nat): (n: nat)
    ensures n !in open && n >= wish
    decreases |open|
  {
    if wish !in open then wish else FreeNumber(open - {wish}, wish + 1)
  }

  /** The descriptor table of the process and the one target name. What fails, which free number a new descriptor gets, and
      what a walk finds is decided by the place in the run. */
  class Kernel {
    var open: set<int>
    /** Open descriptors that nobody knows any more. */
    ghost var lost: set<int>
    /** Descriptors handed to close, in order. */
    var closes: seq<int>
    var published: bool
    var clock: nat
    const works: nat -> bool
    const number: nat -> nat
    const finds: nat -> Shape

    constructor (open: set<int>, published: bool, works: nat -> bool, number: nat -> nat, finds: nat -> Shape)
      ensures this.open == open && this.published == published && closes == [] && lost == {} && clock == 0
      ensures this.works == works && this.number == number && this.finds == finds
    {
      this.open, this.published, this.closes, this.clock, this.lost := open, published, [], 0, {};
      this.works, this.number, this.finds := works, number, finds;
    }

    /** The descriptors that somebody still answers for. */
    ghost function Held(): set<int>
      reads `open, `lost
    {
      open - lost
    }

    ghost predicate Sane()
      reads `open, `lost
    {
      lost <= open
    }

    /** A call, or a check of what it returned, that changes nothing. */
    method Check() returns (ok: bool)
      modifies this`clock
      ensures clock == old(clock) + 1 && ok == works(old(clock))
    {
      ok := works(clock);
      clock := clock + 1;
    }

    /** The number that a descriptor opened now would get. */
    function NextNumber(): nat
      reads `open, `clock
    {
      FreeNumber(open, number(clock))
    }

    /** None of the calls made in between fails. */
    ghost predicate Smooth(start: nat, end: nat) {
      forall n :: start <= n < end ==> works(n)
    }

    method Open() returns (fd: Option<int>)
      modifies this`open, this`clock
      ensures clock == old(clock) + 1 && (fd.Some? <==> works(old(clock)))
      ensures fd.None? ==> open == old(open)
      ensures fd.Some? ==> fd.value == old(NextNumber()) && fd.value !in old(open) && open == old(open) + {fd.value}
    {
      fd := if works(clock) then Some(NextNumber()) else None;
      if fd.Some? {
        open := open + {fd.value};
      }
      clock := clock + 1;
    }

    /** close releases the descriptor even when it reports an error; a number that is not open it refuses. */
    method Close(fd: int) returns (ok: bool)
      modifies this`open, this`closes, this`clock
      ensures open == old(open) - {fd} && closes == old(closes) + [fd]
      ensures clock == old(clock) + 1 && ok == (works(old(clock)) && fd in old(open))
    {
      ok := works(clock) && fd in open;
      open, closes, clock := open - {fd}, closes + [fd], clock + 1;
    }

    /** Rename that never replaces: Some(false) means that the target exists. */
    method Rename() returns (done: Option<bool>)
      modifies this`published, this`clock
      ensures done.Some? ==> published && done.value == !old(published)
      ensures done.None? ==> published == old(published)
      ensures clock == old(clock) + 1 && done.Some? == works(old(clock))
    {
      done := if !works(clock) then None else Some(!published);
      published := published || done.Some?;
      clock := clock + 1;
    }

    /** Each node takes three calls: it is opened, examined and, after everything below it, closed. A walk passes when every
        node can be opened and examined; closing is not checked. */
    ghost predicate Passed(node: Shape, start: nat)
      decreases node, 0
    {
      works(start) && works(start + 1) && match node
      case File => true
      case Directory(entries) => PassedEntries(entries, start + 2)
    }

    ghost predicate PassedEntries(entries: seq<Shape>, start: nat)
      decreases entries, 1
    {
      entries == [] || (Passed(entries[0], start) && PassedEntries(entries[1..], start + 3 * Nodes(entries[0])))
    }

    /** Any walk over a tree: it opens every directory before its entries and every file before its content, stops at the
        first problem, and closes on the way back whatever it has opened. */
    method Walk() returns (ok: bool)
      modifies this`open, this`closes, this`clock
      ensures open == old(open) && ClosedOnlyNew(old(open), old(closes), closes)
      ensures clock >= old(clock) && (Smooth(old(clock), clock) ==> ok)
      ensures ok <==> Passed(finds(old(clock)), old(clock))
    {
      ok := WalkNode(finds(clock));
    }

    method WalkNode(node: Shape) returns (ok: bool)
      modifies this`open, this`closes, this`clock
      ensures open == old(open) && ClosedOnlyNew(old(open), old(closes), closes)
      ensures clock >= old(clock) && (Smooth(old(clock), clock) ==> ok)
      ensures ok <==> Passed(node, old(clock))
      ensures ok ==> clock == old(clock) + 3 * Nodes(node)
      decreases node
    {
      var fd := Open();
      if fd.None? { return false; }
      ok := Check();
      if ok && node.Directory? {
        assert node.entries[0..] == node.entries;
        var i := 0;
        while ok && i < |node.entries|
          invariant open == old(open) + {fd.value} && ClosedOnlyNew(old(open), old(closes), closes)
          invariant clock >= old(clock) && (Smooth(old(clock), clock) ==> ok)
          invariant i <= |node.entries|
          invariant Passed(node, old(clock)) <==> ok && PassedEntries(node.entries[i..], clock)
          invariant ok ==> clock + 3 * NodesOfAll(node.entries[i..]) + 1 == old(clock) + 3 * Nodes(node)
          decreases |node.entries| - i, ok
        {
          assert node.entries[i..][0] == node.entries[i] && node.entries[i..][1..] == node.entries[i + 1..];
          ok := WalkNode(node.entries[i]);
          i := i + 1;
        }
      }
      var closed := Close(fd.value);
    }

    /** When the next two calls of _dup_root_fd lose the duplicate: os.dup works and os.set_inheritable does not. */
    ghost predicate LosesDuplicate()
      reads `clock
    {
      works(clock) && !works(clock + 1)
    }

    /** bundle._dup_root_fd: an error of set_inheritable leaves the duplicate open, and nobody knows its number. */
    method DupRoot() returns (fd: Option<int>)
      requires Sane()
      modifies this`open, this`closes, this`clock, this`lost
      ensures Sane() && Held() == old(Held()) + (if fd.Some? then {fd.value} else {})
      ensures old(LosesDuplicate()) ==> fd.None?
      ensures fd.Some? ==> fd.value >= 0 && fd.value !in old(open) && open == old(open) + {fd.value}
      ensures lost == old(lost) + (if old(LosesDuplicate()) then {old(NextNumber()) as int} else {})
      ensures fd.None? ==> open == old(open) + (if old(LosesDuplicate()) then {old(NextNumber()) as int} else {})
      ensures ClosedOnlyNew(old(open), old(closes), closes)
      ensures clock >= old(clock) && (Smooth(old(clock), clock) ==> fd.Some?)
    {
      fd := Open();
      if fd.None? { return None; }
      var private := Check();
      if !private {
        lost := lost + {fd.value};
        return None;
      }
      var trusted := Check();
      if !trusted {
        var closed := Close(fd.value);
        return None;
      }
    }
  }

  /** Only descriptors that were not open before have been closed, so nobody else's. */
  ghost predicate ClosedOnlyNew(before: set<int>, closes: seq<int>, closes': seq<int>) {
    closes <= closes' && forall fd :: fd in closes'[|closes|..] ==> fd !in before
  }

  class StagedBundle {
    const kernel: Kernel
    var state: Life
    var rootFd: int
    var stagingFd: int
    /** What the object was given, and what it has handed to close so far. */
    ghost const givenRoot: int
    ghost const givenStaging: int
    ghost var closed: seq<int>

    /** Holds whenever the object's lock is free. */
    ghost predicate Valid()
      reads this, kernel`open, kernel`lost
    {
      && givenRoot != givenStaging && kernel.Sane()
      && match state
         case OPEN => rootFd == givenRoot && stagingFd == givenStaging && {rootFd, stagingFd} <= kernel.Held() && closed == []
         case CLOSED => rootFd == -1 && stagingFd == -1 && closed == [givenStaging, givenRoot]
         case _ => false
    }

    /** Holds while a commit is under way: the descriptors are still there. */
    ghost predicate Committing()
      reads this, kernel`open, kernel`lost
    {
      && state != CLOSED && givenRoot != givenStaging && closed == [] && kernel.Sane()
      && rootFd == givenRoot && stagingFd == givenStaging && {rootFd, stagingFd} <= kernel.Held()
    }

    constructor (kernel: Kernel, rootFd: int, stagingFd: int)
      requires rootFd != stagingFd && kernel.Sane() && {rootFd, stagingFd} <= kernel.Held()
      ensures Valid() && state == OPEN && this.kernel == kernel && givenRoot == rootFd && givenStaging == stagingFd
    {
      this.kernel, this.state, this.rootFd, this.stagingFd := kernel, OPEN, rootFd, stagingFd;
      this.givenRoot, this.givenStaging, this.closed := rootFd, stagingFd, [];
    }

    /** bundle._finish_staged_locked */
    method Finish() returns (ok: bool)
      requires Committing()
      modifies this, kernel`open, kernel`closes, kernel`clock
      ensures Valid() && state == CLOSED
      ensures kernel.open == old(kernel.open) - {givenRoot, givenStaging}
      ensures kernel.closes == old(kernel.closes) + [givenStaging, givenRoot]
      ensures kernel.clock == old(kernel.clock) + 2 && (ok <==> kernel.Smooth(old(kernel.clock), kernel.clock))
    {
      var root, staging := rootFd, stagingFd;
      state, rootFd, stagingFd := CLOSED, -1, -1;
      var first := kernel.Close(staging);
      var second := kernel.Close(root);
      closed := closed + [staging, root];
      ok := first && second;
    }

    /** _StagedBundle.close */
    method Close() returns (o: Outcome<()>)
      requires Valid()
      modifies this, kernel`open, kernel`closes, kernel`clock
      ensures Valid() && state == CLOSED
      ensures old(state) == CLOSED ==> o.Ok? && kernel.open == old(kernel.open) && kernel.closes == old(kernel.closes)
      ensures old(state) == OPEN ==>
                && kernel.open == old(kernel.open) - {givenRoot, givenStaging}
                && kernel.closes == old(kernel.closes) + [givenStaging, givenRoot]
      ensures kernel.clock >= old(kernel.clock) && (kernel.Smooth(old(kernel.clock), kernel.clock) <==> o.Ok?)
    {
      if state == CLOSED { return Ok(()); }
      var ok := Finish();
      return if ok then Ok(()) else Err(CloseFailed);
    }

    /** bundle._inspect_final_bundle: None when the name is not there. */
    method InspectFinal() returns (o: Outcome<Option<()>>)
      requires Committing()
      modifies kernel`open, kernel`closes, kernel`clock, kernel`lost
      ensures kernel.Sane() && kernel.Held() == old(kernel.Held())
      ensures kernel.lost == old(kernel.lost) + (if old(kernel.LosesDuplicate()) then {old(kernel.NextNumber()) as int} else {})
      ensures ClosedOnlyNew(old(kernel.open), old(kernel.closes), kernel.closes)
      ensures o.Ok? && o.value.Some? ==> kernel.published
      ensures o != Err(TargetExists)
      ensures kernel.clock >= old(kernel.clock)
      ensures kernel.Smooth(old(kernel.clock), kernel.clock) ==> o == Ok(if kernel.published then Some(()) else None)
    {
      var root := kernel.DupRoot();
      if root.None? { return Err(InvalidTarget); }
      var trusted := kernel.Check();
      if !trusted {
        var closed := kernel.Close(root.value);
        return Err(InvalidTarget);
      }
      o := InspectThrough();
      var closed := kernel.Close(root.value);
    }

    method InspectThrough() returns (o: Outcome<Option<()>>)
      modifies kernel`open, kernel`closes, kernel`clock
      ensures kernel.open == old(kernel.open)
      ensures ClosedOnlyNew(old(kernel.open), old(kernel.closes), kernel.closes)
      ensures o.Ok? && o.value.Some? ==> kernel.published
      ensures o != Err(TargetExists)
      ensures kernel.clock >= old(kernel.clock)
      ensures kernel.Smooth(old(kernel.clock), kernel.clock) ==> o == Ok(if kernel.published then Some(()) else None)
    {
      var confirmed := kernel.Check();
      if !confirmed { return Err(InvalidTarget); }
      var stat := kernel.Check();
      if !stat { return Err(ReadbackFailed); }
      if !kernel.published {
        var again := kernel.Check();
        return if again then Ok(None) else Err(InvalidTarget);
      }
      var final := kernel.Open();
      if final.None? { return Err(HashMismatch); }
      var exact := kernel.Walk();
      var steady := kernel.Check();
      var closed := kernel.Close(final.value);
      return if !exact then Err(HashMismatch) else if !steady then Err(InvalidTarget) else Ok(Some(()));
    }

    /** bundle._converge_existing_locked */
    method ConvergeExisting() returns (o: Outcome<()>)
      requires Committing()
      modifies this, kernel`open, kernel`closes, kernel`clock, kernel`lost
      ensures Settled(old(kernel.open), old(kernel.Held()), old(kernel.closes))
      ensures kernel.lost == old(kernel.lost) + (if old(kernel.LosesDuplicate()) then {old(kernel.NextNumber()) as int} else {})
      ensures o.Ok? ==> kernel.published && state == CLOSED
      ensures o != Err(TargetExists)
      ensures !o.Ok? && state != CLOSED ==> Committing()
      ensures kernel.clock >= old(kernel.clock) && (kernel.Smooth(old(kernel.clock), kernel.clock) ==> o.Ok? == kernel.published)
    {
      var inspected := InspectFinal();
      if inspected.Err? || inspected.value.None? {
        var ignored := Finish();
        return Err(if inspected.Err? then inspected.reason else HashMismatch);
      }
      var confirmed := kernel.Check();
      if !confirmed { return Err(InvalidStaged); }
      var ok := Finish();
      return if ok then Ok(()) else Err(CloseFailed);
    }

    /** What the steps of a commit leave behind: everything is as before, or the two descriptors are closed as well. */
    ghost predicate Settled(before: set<int>, held: set<int>, closes: seq<int>)
      reads this, kernel`open, kernel`closes, kernel`lost
    {
      if state == CLOSED then
        && Valid() && kernel.Held() == held - {givenRoot, givenStaging}
        && |closes| + 2 <= |kernel.closes| && kernel.closes[|kernel.closes| - 2..] == [givenStaging, givenRoot]
        && ClosedOnlyNew(before, closes, kernel.closes[..|kernel.closes| - 2])
      else
        Committing() && kernel.Held() == held && ClosedOnlyNew(before, closes, kernel.closes)
    }

    /** bundle._verify_staged_for_commit */
    method VerifyForCommit() returns (o: Outcome<()>)
      modifies kernel`open, kernel`closes, kernel`clock
      ensures kernel.open == old(kernel.open)
      ensures ClosedOnlyNew(old(kernel.open), old(kernel.closes), kernel.closes)
      ensures kernel.clock >= old(kernel.clock) && (kernel.Smooth(old(kernel.clock), kernel.clock) ==> o.Ok?)
    {
      var confirmed := kernel.Check();
      if !confirmed { return Err(InvalidStaged); }
      var same := kernel.Walk();
      if !same { return Err(HashMismatch); }
      confirmed := kernel.Check();
      return if confirmed then Ok(()) else Err(InvalidStaged);
    }

    /** The part of bundle._publish_open_staged between the rename and the last close. */
    method CheckPublished() returns (o: Outcome<()>)
      requires Committing() && state == UNKNOWN
      modifies this`state, kernel`open, kernel`closes, kernel`clock
      ensures Committing() && kernel.open == old(kernel.open)
      ensures ClosedOnlyNew(old(kernel.open), old(kernel.closes), kernel.closes)
      ensures o.Ok? <==> state == PUBLISHED
      ensures o != Err(TargetExists)
      ensures kernel.clock >= old(kernel.clock) && (kernel.Smooth(old(kernel.clock), kernel.clock) ==> o.Ok?)
    {
      var final := kernel.Open();
      if final.None? { return Err(PublicationVerificationFailed); }
      var same := kernel.Check();
      if !same {
        var closed := kernel.Close(final.value);
        return Err(PublicationVerificationFailed);
      }
      var synced := kernel.Check();
      var exact, confirmed := false, false;
      if synced { exact := kernel.Walk(); }
      if exact { confirmed := kernel.Check(); }
      if confirmed { state := PUBLISHED; }
      var closed := kernel.Close(final.value);
      return if !synced then Err(SyncFailed) else if !exact then Err(PublicationVerificationFailed)
             else if !confirmed then Err(InvalidStaged) else Ok(());
    }

    /** bundle._publish_open_staged */
    method Publish(acceptExisting: bool) returns (o: Outcome<()>)
      requires Committing() && state == OPEN
      modifies this, kernel`open, kernel`closes, kernel`clock, kernel`lost, kernel`published
      ensures Settled(old(kernel.open), old(kernel.Held()), old(kernel.closes))
      ensures !acceptExisting ==> kernel.lost == old(kernel.lost)
      ensures o.Ok? ==> state == CLOSED && kernel.published && (acceptExisting || !old(kernel.published))
      ensures old(kernel.published) ==> kernel.published
      ensures o == Err(TargetExists) ==> old(kernel.published) && !acceptExisting && state == CLOSED
      // without faults publishing fails only over a bundle that it may not accept
      ensures kernel.clock >= old(kernel.clock)
      ensures kernel.Smooth(old(kernel.clock), kernel.clock) ==>
                if acceptExisting || !old(kernel.published) then o.Ok? else o == Err(TargetExists)
    {
      var renamed := kernel.Rename();
      if renamed.None? || !renamed.value {
        if renamed.Some? && acceptExisting {
          o := ConvergeExisting();
          return;
        }
        var ignored := Finish();
        return Err(if renamed.None? then PublishFailed else TargetExists);
      }
      state := UNKNOWN;
      o := CheckPublished();
      if o.Ok? {
        var ok := Finish();
        return if ok then Ok(()) else Err(CloseFailed);
      }
    }

    /** bundle._commit_staged_bundle: once past the state check it always ends closed, each descriptor closed exactly
        once, and nobody else's descriptor touched. */
    method Commit(acceptExisting: bool) returns (o: Outcome<()>)
      requires Valid()
      modifies this, kernel`open, kernel`closes, kernel`clock, kernel`lost, kernel`published
      ensures Valid() && state == CLOSED
      ensures old(state) == CLOSED ==>
                && o == Err(InvalidStaged)
                && kernel.open == old(kernel.open) && kernel.closes == old(kernel.closes) && kernel.published == old(kernel.published)
      ensures old(state) == OPEN ==> Settled(old(kernel.open), old(kernel.Held()), old(kernel.closes))
      ensures old(state) == CLOSED || !acceptExisting ==> kernel.lost == old(kernel.lost)
      ensures o.Ok? ==> kernel.published && (acceptExisting || !old(kernel.published))
      ensures old(kernel.published) ==> kernel.published
      // without faults a commit fails only over a bundle that it may not accept
      ensures kernel.clock >= old(kernel.clock)
      ensures old(state) == OPEN && kernel.Smooth(old(kernel.clock), kernel.clock) ==>
                if acceptExisting || !old(kernel.published) then o.Ok? else o == Err(TargetExists)
    {
      if state != OPEN { return Err(InvalidStaged); }
      o := VerifyForCommit();
      if o.Ok? {
        o := Publish(acceptExisting);
      }
      if state != CLOSED {
        var ignored := Finish();
      }
    }
  }

  datatype Use = CloseIt | CommitIt(acceptExisting: bool)

  /** Any sequence of uses: as soon as there is one, the object is closed, each of its two descriptors has been handed to
      close exactly once, and no other descriptor of the process is missing. */
  method UseUp(b: StagedBundle, uses: seq<Use>)
    requires b.Valid() && b.state == OPEN
    modifies b, b.kernel
    ensures b.Valid() && (b.state == OPEN <==> uses == [])
    ensures b.kernel.Held() == old(b.kernel.Held()) - (if uses == [] then {} else {b.givenRoot, b.givenStaging})
    ensures b.closed == if uses == [] then [] else [b.givenStaging, b.givenRoot]
  {
    for i := 0 to |uses|
      invariant b.Valid() && (b.state == OPEN <==> i == 0)
      invariant b.kernel.Held() == old(b.kernel.Held()) - (if i == 0 then {} else {b.givenRoot, b.givenStaging})
    {
      match uses[i]
      case CloseIt =>
        var ignored := b.Close();
      case CommitIt(accept) =>
        var ignored := b.Commit(accept);
    }
  }

  /** The descriptors of bundle._stage_bundle: handed out with the object, or all closed again but a lost duplicate. */
  method StageBundle(kernel: Kernel) returns (o: Outcome<StagedBundle>)
    requires kernel.Sane()
    modifies kernel`open, kernel`closes, kernel`clock, kernel`lost
    ensures o.Ok? ==>
              && fresh(o.value) && o.value.kernel == kernel && o.value.Valid() && o.value.state == OPEN
              && {o.value.givenRoot, o.value.givenStaging} !! old(kernel.open)
              && kernel.open == old(kernel.open) + {o.value.givenRoot, o.value.givenStaging}
    ensures old(kernel.LosesDuplicate()) ==> !o.Ok?
    ensures !o.Ok? ==> kernel.open == old(kernel.open)
                                      + (if old(kernel.LosesDuplicate()) then {old(kernel.NextNumber()) as int} else {})
    ensures ClosedOnlyNew(old(kernel.open), old(kernel.closes), kernel.closes)
    ensures kernel.clock >= old(kernel.clock) && (kernel.Smooth(old(kernel.clock), kernel.clock) ==> o.Ok?)
  {
    var root := kernel.DupRoot();
    if root.None? { return Err(InvalidTarget); }
    var trusted := kernel.Check();
    if !trusted {
      var closed := kernel.Close(root.value);
      return Err(InvalidTarget);
    }
    var staging := CreateStaging(kernel);
    if staging.Err? {
      var closed := kernel.Close(root.value);
      return Err(staging.reason);
    }
    var populated := kernel.Walk();
    var exact := false;
    if populated { exact := kernel.Walk(); }
    if !exact {
      var first := kernel.Close(staging.value);
      var second := kernel.Close(root.value);
      return Err(if populated then HashMismatch else WriteFailed);
    }
    var bundle := new StagedBundle(kernel, root.value, staging.value);
    return Ok(bundle);
  }

  /** So staging can lose a descriptor: 3 is the caller's open root, and only os.set_inheritable fails. */
  method DuplicateCanBeLost() returns (kernel: Kernel, o: Outcome<StagedBundle>)
    ensures fresh(kernel) && o.Err? && kernel.open == {3, 4} && forall n :: n != 1 ==> kernel.works(n)
  {
    kernel := new Kernel({3}, false, n => n != 1, n => n + 4, n => File);
    o := StageBundle(kernel);
  }

  /** bundle._create_staging */
  method CreateStaging(kernel: Kernel) returns (o: Outcome<int>)
    modifies kernel`open, kernel`closes, kernel`clock
    ensures o.Ok? ==> o.value !in old(kernel.open) && kernel.open == old(kernel.open) + {o.value}
    ensures !o.Ok? ==> kernel.open == old(kernel.open)
    ensures ClosedOnlyNew(old(kernel.open), old(kernel.closes), kernel.closes)
    ensures kernel.clock >= old(kernel.clock) && (kernel.Smooth(old(kernel.clock), kernel.clock) ==> o.Ok?)
  {
    var made := kernel.Check();
    if !made { return Err(WriteFailed); }
    var fd := kernel.Open();
    if fd.None? { return Err(ReadbackFailed); }
    var stat := kernel.Check();
    if !stat {
      var closed := kernel.Close(fd.value);
      return Err(ReadbackFailed);
    }
    return Ok(fd.value);
  }
}
