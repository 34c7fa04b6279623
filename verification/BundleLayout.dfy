/** The directory tree of a bundle: how a stage is filled, how a tree is walked, and when it is accepted. */
module BundleLayout {
  import opened Content
  import opened ExportPlan

  datatype Owner = Owner(device: nat, user: nat, group: nat)

  datatype Node =
    | Directory(mode: nat, owner: Owner)
    | Regular(mode: nat, owner: Owner, links: nat, content: Bytes)
    | Other(mode: nat, owner: Owner)

  /** Every node below a directory, by its path from there. */
  type Tree = map<Path, Node>

  const DIR_MODE := 0x1C0   // 0700
  const FILE_MODE := 0x180  // 0600

  function NewDirectory(owner: Owner): Node {
    Directory(DIR_MODE, owner)
  }

  function NewFile(owner: Owner, content: Bytes): Node {
    Regular(FILE_MODE, owner, 1, content)
  }

  /** The directories on the way to `p`, and `p` itself. */
  function Chain(p: Path): set<Path> {
    if p == [] then {} else Chain(p[..|p| - 1]) + {p}
  }

  /** The directories on the way to `p`. */
  function Parents(p: Path): set<Path> {
    if p == [] then {} else Chain(p[..|p| - 1])
  }

  lemma {:induction false} InChain(p: Path, d: Path)
    ensures d in Chain(p) <==> d != [] && IsPrefix(d, p)
    decreases |p|
  {
    if p != [] {
      var shorter := p[..|p| - 1];
      InChain(shorter, d);
      if |d| < |p| {
        assert p[..|d|] == shorter[..|d|];
      } else {
        assert p[..|p|] == p;
      }
    }
  }

  lemma InParents(p: Path, d: Path)
    ensures d in Parents(p) <==> d != [] && |d| < |p| && IsPrefix(d, p)
  {
    if p != [] {
      var shorter := p[..|p| - 1];
      InChain(shorter, d);
      assert |d| < |p| ==> p[..|d|] == shorter[..|d|];
    }
  }

  function AlwaysOn(): set<Path> {
    set d | d in ALWAYS_ON_DIRS
  }

  /** bundle._expected_layout */
  function ExpectedDirectories(files: seq<PreparedFile>): set<Path> {
    if files == [] then AlwaysOn()
    else ExpectedDirectories(files[..|files| - 1]) + Parents(files[|files| - 1].path)
  }

  function ExpectedFiles(files: seq<PreparedFile>): map<Path, Bytes> {
    if files == [] then map[]
    else ExpectedFiles(files[..|files| - 1])[files[|files| - 1].path := files[|files| - 1].content]
  }

  /** The tree that a list of files stands for. */
  function ExpectedTree(files: seq<PreparedFile>, owner: Owner): Tree {
    TreeOf(ExpectedDirectories(files), ExpectedFiles(files), owner)
  }

  function TreeOf(directories: set<Path>, contents: map<Path, Bytes>, owner: Owner): Tree {
    map p | p in directories + contents.Keys :: if p in contents then NewFile(owner, contents[p]) else NewDirectory(owner)
  }

  /** The tree after the directories in `ds` have been made where nothing was. */
  function WithDirectories(t: Tree, ds: set<Path>, owner: Owner): Tree {
    map p | p in t.Keys + ds :: if p in t then t[p] else NewDirectory(owner)
  }

  /** Something else sits where a directory is needed. */
  predicate Blocked(t: Tree, ds: set<Path>) {
    exists d | d in ds :: d in t && !t[d].Directory?
  }

  predicate AllDirectories(t: Tree, ds: set<Path>) {
    forall d | d in ds :: d in t && t[d].Directory?
  }

  lemma MadeInTwoSteps(t: Tree, ds: set<Path>, es: set<Path>, owner: Owner)
    ensures WithDirectories(WithDirectories(t, ds, owner), es, owner) == WithDirectories(t, ds + es, owner)
    ensures Blocked(t, ds + es) <==> Blocked(t, ds) || Blocked(WithDirectories(t, ds, owner), es)
  {
    var u := WithDirectories(t, ds, owner);
    if Blocked(t, es) {
      var d :| d in es && d in t && !t[d].Directory?;
      assert d in u && u[d] == t[d];
    }
    if Blocked(u, es) {
      var d :| d in es && d in u && !u[d].Directory?;
      assert d in t && d in ds + es;
    }
  }

  ghost predicate NamesOk(files: seq<PreparedFile>) {
    forall f :: f in files ==> |f.path| > 0
  }

  /** The staging directory of one export. Whether a system call works, and how much a write takes, is decided by its
      place in the run. */
  class Stage {
    var nodes: Tree
    /** Files and directories (the stage itself is []) with changes that have not been synced. */
    var dirty: set<Path>
    var clock: nat
    const works: nat -> bool
    const taken: nat -> nat
    const owner: Owner

    ghost predicate Faultless() {
      forall n :: works(n) && taken(n) > 0
    }

    /** None of the calls made in between failed. */
    ghost predicate Smooth(start: nat, end: nat) {
      forall n :: start <= n < end ==> works(n)
    }

    method Call() returns (ok: bool)
      modifies this`clock
      ensures clock == old(clock) + 1 && ok == works(old(clock))
    {
      ok := works(clock);
      clock := clock + 1;
    }

    /** One round of the loop in bundle._mkdir_rel. */
    method MakeOne(parent: Path, prefix: Path) returns (ok: bool)
      modifies this
      ensures ok ==> nodes == WithDirectories(old(nodes), {prefix}, owner) && !Blocked(old(nodes), {prefix})
      ensures dirty <= old(dirty) + {parent}
      ensures ok ==> dirty == old(dirty) + if prefix in old(nodes) then {} else {parent}
      ensures clock >= old(clock) && (ok ==> Smooth(old(clock), clock))
      ensures Faultless() && !ok ==> Blocked(old(nodes), {prefix})
    {
      var mkdir := Call();
      if !mkdir { return false; }
      if prefix !in nodes {
        nodes, dirty := nodes[prefix := NewDirectory(owner)], dirty + {parent};
      }
      var open := Call();
      if !open || !nodes[prefix].Directory? {
        assert prefix in {prefix};
        return false;
      }
      ok := Call();
    }

    /** bundle._mkdir_rel, with the identities it records. */
    method MakeDirectories(parts: Path, recorded: set<Path>) returns (ok: bool, recorded': set<Path>)
      modifies this
      ensures ok ==> nodes == WithDirectories(old(nodes), Chain(parts), owner) && !Blocked(old(nodes), Chain(parts))
      ensures ok ==> recorded' == recorded + Chain(parts)
      ensures dirty <= old(dirty) + Chain(parts) + {[]}
      ensures clock >= old(clock) && (ok ==> Smooth(old(clock), clock))
      ensures Faultless() && !ok ==> Blocked(old(nodes), Chain(parts))
    {
      recorded', ok := recorded, true;
      for k := 0 to |parts|
        invariant nodes == WithDirectories(old(nodes), Chain(parts[..k]), owner) && !Blocked(old(nodes), Chain(parts[..k]))
        invariant recorded' == recorded + Chain(parts[..k])
        invariant dirty <= old(dirty) + Chain(parts) + {[]}
        invariant clock >= old(clock) && Smooth(old(clock), clock)
      {
        ChainGrows(parts, k);
        ok := MakeOne(parts[..k], parts[..k + 1]);
        MadeInTwoSteps(old(nodes), Chain(parts[..k]), {parts[..k + 1]}, owner);
        if !ok { return; }
        recorded' := recorded' + {parts[..k + 1]};
      }
      assert parts[..|parts|] == parts;
    }

    /** The calls of bundle._mkdir_rel for the parents of one file. */
    method MakeParents(path: Path, recorded: set<Path>) returns (ok: bool, recorded': set<Path>)
      requires |path| > 0
      modifies this
      ensures ok ==> nodes == WithDirectories(old(nodes), Parents(path), owner) && !Blocked(old(nodes), Parents(path))
      ensures ok ==> recorded' == recorded + Parents(path)
      ensures dirty <= old(dirty) + Parents(path) + {[]}
      ensures clock >= old(clock) && (ok ==> Smooth(old(clock), clock))
      ensures Faultless() && !ok ==> Blocked(old(nodes), Parents(path))
    {
      recorded', ok := recorded, true;
      for j := 1 to |path|
        invariant nodes == WithDirectories(old(nodes), Chain(path[..j - 1]), owner) && !Blocked(old(nodes), Chain(path[..j - 1]))
        invariant recorded' == recorded + Chain(path[..j - 1])
        invariant dirty <= old(dirty) + Parents(path) + {[]}
        invariant clock >= old(clock) && Smooth(old(clock), clock)
      {
        ChainGrows(path, j - 1);
        assert path[..|path| - 1][..j] == path[..j];
        ChainsNest(path[..j], path[..|path| - 1]);
        ok, recorded' := MakeDirectories(path[..j], recorded');
        MadeInTwoSteps(old(nodes), Chain(path[..j - 1]), Chain(path[..j]), owner);
        if !ok { return; }
        assert Chain(path[..j - 1]) + Chain(path[..j]) == Chain(path[..j]);
      }
    }

    /** bundle._open_parent_chain: can the directory of a file be reached? */
    method OpenChain(parts: Path) returns (ok: bool)
      modifies this`clock
      ensures ok ==> AllDirectories(nodes, Chain(parts))
      ensures clock >= old(clock) && (ok ==> Smooth(old(clock), clock))
      ensures Faultless() && !ok ==> !AllDirectories(nodes, Chain(parts))
    {
      for k := 0 to |parts|
        invariant AllDirectories(nodes, Chain(parts[..k]))
        invariant clock >= old(clock) && Smooth(old(clock), clock)
      {
        ChainGrows(parts, k);
        var open := Call();
        if !open || parts[..k + 1] !in nodes || !nodes[parts[..k + 1]].Directory? { return false; }
      }
      assert parts[..|parts|] == parts;
      ok := true;
    }

    /** The write loop of bundle._write_file. */
    method WriteContent(path: Path, content: Bytes, ghost before: Tree) returns (ok: bool)
      requires nodes == before[path := NewFile(owner, [])]
      modifies this`nodes, this`clock
      ensures ok ==> nodes == before[path := NewFile(owner, content)]
      ensures clock >= old(clock) && (ok ==> Smooth(old(clock), clock))
      ensures Faultless() ==> ok
    {
      var written := 0;
      while written < |content|
        invariant written <= |content|
        invariant nodes == before[path := NewFile(owner, content[..written])]
        invariant clock >= old(clock) && Smooth(old(clock), clock)
      {
        var chunk := taken(clock);
        var write := Call();
        if !write || chunk == 0 { return false; }
        written := if written + chunk > |content| then |content| else written + chunk;
        nodes := nodes[path := NewFile(owner, content[..written])];
      }
      assert content[..|content|] == content;
      ok := true;
    }

    /** bundle._write_file */
    method WriteFile(path: Path, content: Bytes, recorded: set<Path>) returns (ok: bool, recorded': set<Path>)
      requires |path| > 0
      modifies this
      ensures ok ==> path !in old(nodes) && AllDirectories(old(nodes), Parents(path))
      ensures ok ==> nodes == old(nodes)[path := NewFile(owner, content)] && recorded' == recorded + {path}
      ensures ok ==> dirty == old(dirty) - {path} + {path[..|path| - 1]} && path[..|path| - 1] in Parents(path) + {[]}
      ensures clock >= old(clock) && (ok ==> Smooth(old(clock), clock))
      ensures Faultless() && path !in old(nodes) && AllDirectories(old(nodes), Parents(path)) ==> ok
    {
      recorded' := recorded;
      var parent := path[..|path| - 1];
      var reached := OpenChain(parent);
      if !reached { return false, recorded'; }
      var create := Call();
      if !create || path in nodes { return false, recorded'; }
      nodes, dirty := nodes[path := NewFile(owner, [])], dirty + {path, parent};
      ok := WriteContent(path, content, old(nodes));
      if !ok { return; }
      ok := Call();
      if !ok { return; }
      dirty := dirty - {path};
      ok := Call();
      if !ok { return; }
      recorded' := recorded' + {path};
    }

    /** bundle._fsync_dir: the directory and those above it; the stage itself only when asked for by name. */
    method SyncDirectory(parts: Path) returns (ok: bool)
      modifies this
      ensures nodes == old(nodes)
      ensures ok ==> dirty == old(dirty) - (if parts == [] then {[]} else Chain(parts))
      ensures clock >= old(clock) && (ok ==> Smooth(old(clock), clock))
      ensures Faultless() && AllDirectories(nodes, Chain(parts)) ==> ok
    {
      if parts == [] {
        ok := Call();
        if ok { dirty := dirty - {[]}; }
        return;
      }
      ok := OpenChain(parts);
      if !ok { return; }
      assert parts[..|parts|] == parts;
      var k := |parts|;
      while k > 0
        invariant 0 <= k <= |parts| && nodes == old(nodes)
        invariant dirty == old(dirty) - (Chain(parts) - Chain(parts[..k]))
        invariant clock >= old(clock) && Smooth(old(clock), clock)
      {
        ChainGrows(parts, k - 1);
        ok := Call();
        if !ok { return; }
        dirty, k := dirty - {parts[..k]}, k - 1;
      }
    }

    /** The fixed directories of bundle._populate_staging. */
    method MakeAlwaysOn() returns (ok: bool, recorded: set<Path>)
      requires nodes == map[]
      modifies this
      ensures ok ==> nodes == ExpectedTree([], owner) && recorded == nodes.Keys
      ensures dirty <= old(dirty) + AlwaysOn() + {[]}
      ensures clock >= old(clock) && (ok ==> Smooth(old(clock), clock))
      ensures Faultless() ==> ok
    {
      recorded, ok := {}, true;
      for i := 0 to |ALWAYS_ON_DIRS|
        invariant nodes == TreeOf(recorded, map[], owner)
        invariant recorded <= AlwaysOn() && (forall j :: 0 <= j < i ==> ALWAYS_ON_DIRS[j] in recorded)
        invariant dirty <= old(dirty) + AlwaysOn() + {[]}
        invariant clock >= old(clock) && Smooth(old(clock), clock)
      {
        AlwaysOnIsClosed(ALWAYS_ON_DIRS[i]);
        ghost var before := recorded;
        ok, recorded := MakeDirectories(ALWAYS_ON_DIRS[i], recorded);
        if !ok { return; }
      }
      assert recorded == AlwaysOn();
    }

    /** One file of bundle._populate_staging. */
    method AddFile(ghost files: seq<PreparedFile>, file: PreparedFile, recorded: set<Path>) returns (ok: bool, recorded': set<Path>)
      requires nodes == ExpectedTree(files, owner) && Plannable(files) && recorded == nodes.Keys
      requires |file.path| > 0 && NamesOk(files)
      modifies this
      ensures ok ==> nodes == ExpectedTree(files + [file], owner) && Plannable(files + [file]) && recorded' == nodes.Keys
      ensures ok ==> dirty <= old(dirty) + Parents(file.path) + {[]}
      ensures clock >= old(clock) && (ok ==> Smooth(old(clock), clock))
      ensures Faultless() && Plannable(files + [file]) ==> ok
    {
      FitsExactlyWhenPlannable(files, file, owner);
      ok, recorded' := MakeParents(file.path, recorded);
      if !ok { return; }
      ok, recorded' := WriteFile(file.path, file.content, recorded');
    }

    /** bundle._populate_staging: success means exactly the expected tree, all of it on disk. Without faults it succeeds
        whenever the files can be put into one tree. */
    method Populate(files: seq<PreparedFile>) returns (ok: bool, recorded: set<Path>)
      requires nodes == map[] && dirty == {} && NamesOk(files)
      modifies this
      ensures ok ==> nodes == ExpectedTree(files, owner) && recorded == nodes.Keys && dirty == {} && Plannable(files)
      ensures clock >= old(clock) && (ok ==> Smooth(old(clock), clock))
      ensures Faultless() && Plannable(files) ==> ok
    {
      ok, recorded := MakeAlwaysOn();
      if !ok { return; }
      for i := 0 to |files|
        invariant nodes == ExpectedTree(files[..i], owner) && Plannable(files[..i]) && recorded == nodes.Keys
        invariant dirty <= ExpectedDirectories(files[..i]) + {[]}
        invariant clock >= old(clock) && Smooth(old(clock), clock)
      {
        PlannablePrefix(files, i + 1);
        ok, recorded := AddNext(files, i, recorded);
        if !ok { return; }
      }
      assert files[..|files|] == files;
      ok := SyncAll(files);
    }

    /** One round of its loop. */
    method AddNext(files: seq<PreparedFile>, i: nat, recorded: set<Path>) returns (ok: bool, recorded': set<Path>)
      requires i < |files| && NamesOk(files)
      requires nodes == ExpectedTree(files[..i], owner) && Plannable(files[..i]) && recorded == nodes.Keys
      requires dirty <= ExpectedDirectories(files[..i]) + {[]}
      modifies this
      ensures ok ==> nodes == ExpectedTree(files[..i + 1], owner) && Plannable(files[..i + 1]) && recorded' == nodes.Keys
      ensures ok ==> dirty <= ExpectedDirectories(files[..i + 1]) + {[]}
      ensures clock >= old(clock) && (ok ==> Smooth(old(clock), clock))
      ensures Faultless() && Plannable(files[..i + 1]) ==> ok
    {
      assert files[..i + 1][..i] == files[..i];
      assert files[..i + 1] == files[..i] + [files[i]];
      ok, recorded' := AddFile(files[..i], files[i], recorded);
    }

    method SyncAll(files: seq<PreparedFile>) returns (ok: bool)
      requires nodes == ExpectedTree(files, owner) && dirty <= ExpectedDirectories(files) + {[]} && Plannable(files) && NamesOk(files)
      modifies this
      ensures nodes == old(nodes) && (ok ==> dirty == {})
      ensures clock >= old(clock) && (ok ==> Smooth(old(clock), clock))
      ensures Faultless() ==> ok
    {
      PlannableTreesAreConsistent(files);
      ok := true;
      for i := 0 to |files|
        invariant nodes == old(nodes) && dirty <= old(dirty)
        invariant clock >= old(clock) && Smooth(old(clock), clock)
        invariant forall j :: 0 <= j < i ==> Parents(files[j].path) !! dirty
      {
        ParentsAreDirectories(files, i, owner);
        if |files[i].path| > 1 {
          ok := SyncDirectory(files[i].path[..|files[i].path| - 1]);
          if !ok { return; }
        }
      }
      for i := 0 to |ALWAYS_ON_DIRS|
        invariant nodes == old(nodes) && dirty <= old(dirty)
        invariant clock >= old(clock) && Smooth(old(clock), clock)
        invariant forall j :: 0 <= j < |files| ==> Parents(files[j].path) !! dirty
        invariant forall j :: 0 <= j < i ==> ALWAYS_ON_DIRS[j] !in dirty
      {
        AlwaysOnAreDirectories(files, ALWAYS_ON_DIRS[i], owner);
        ok := SyncDirectory(ALWAYS_ON_DIRS[i]);
        if !ok { return; }
      }
      forall d | d in dirty
        ensures d == []
      {
        WhichDirectories(files, d);
      }
      ok := SyncDirectory([]);
    }
  }

  lemma {:induction false} ChainsNest(p: Path, q: Path)
    requires IsPrefix(p, q)
    ensures Chain(p) <= Chain(q)
    decreases |q|
  {
    if |p| < |q| {
      assert q[..|q| - 1][..|p|] == p;
      ChainsNest(p, q[..|q| - 1]);
    } else {
      assert q[..|q|] == q;
    }
  }

  lemma ChainGrows(parts: Path, k: nat)
    requires k < |parts|
    ensures Chain(parts[..k + 1]) == Chain(parts[..k]) + {parts[..k + 1]}
    ensures parts[..k + 1] !in Chain(parts[..k])
    ensures parts[..k] in Parents(parts) + {[]}
    ensures Chain(parts[..k]) <= Chain(parts[..k + 1]) <= Chain(parts)
  {
    assert parts[..k + 1][..k] == parts[..k];
    InChain(parts[..k], parts[..k + 1]);
    InParents(parts, parts[..k]);
    ChainsNest(parts[..k + 1], parts);
  }

  lemma AlwaysOnIsClosed(d: Path)
    requires d in ALWAYS_ON_DIRS
    ensures Chain(d) <= AlwaysOn() && d in Chain(d)
  {
    forall e | e in Chain(d)
      ensures e in AlwaysOn()
    {
      InChain(d, e);
      if |e| == |d| {
        assert d[..|e|] == d;
      } else {
        assert e == [d[0]];
        assert [d[0]] in ALWAYS_ON_DIRS by {
          assert ALWAYS_ON_DIRS[0] == ["approved"];
        }
      }
    }
  }

  lemma AlwaysOnAreDirectories(files: seq<PreparedFile>, d: Path, owner: Owner)
    requires Plannable(files) && NamesOk(files) && d in ALWAYS_ON_DIRS
    ensures AllDirectories(ExpectedTree(files, owner), Chain(d)) && d in Chain(d)
  {
    PlannableTreesAreConsistent(files);
    AlwaysOnIsClosed(d);
    forall e | e in Chain(d)
      ensures e in ExpectedDirectories(files)
    {
      WhichDirectories(files, e);
    }
  }

  lemma PlannablePrefix(files: seq<PreparedFile>, n: nat)
    requires n <= |files|
    ensures Plannable(files) ==> Plannable(files[..n])
  {
  }

  predicate OnTheWay(d: Path, files: seq<PreparedFile>) {
    exists i | 0 <= i < |files| :: d in Parents(files[i].path)
  }

  predicate IsFile(p: Path, files: seq<PreparedFile>) {
    exists i | 0 <= i < |files| :: p == files[i].path
  }

  /** A directory is expected when it is fixed or on the way to some file. */
  lemma {:induction false} WhichDirectories(files: seq<PreparedFile>, d: Path)
    ensures d in ExpectedDirectories(files) <==> d in AlwaysOn() || OnTheWay(d, files)
  {
    if files != [] {
      var shorter, last := files[..|files| - 1], files[|files| - 1];
      WhichDirectories(shorter, d);
      if OnTheWay(d, files) && d !in Parents(last.path) {
        var i :| 0 <= i < |files| && d in Parents(files[i].path);
        assert d in Parents(shorter[i].path);
      }
      if OnTheWay(d, shorter) {
        var i :| 0 <= i < |shorter| && d in Parents(shorter[i].path);
        assert d in Parents(files[i].path);
      }
    }
  }

  lemma {:induction false} WhichFiles(files: seq<PreparedFile>, p: Path)
    ensures p in ExpectedFiles(files) <==> IsFile(p, files)
  {
    if files != [] {
      WhichFiles(files[..|files| - 1], p);
    }
  }

  /** Room for one more file: nothing sits at its path, and no file where it needs a directory. */
  ghost predicate HasRoom(files: seq<PreparedFile>, path: Path) {
    && Parents(path) !! ExpectedFiles(files).Keys
    && path !in ExpectedDirectories(files)
    && path !in ExpectedFiles(files)
  }

  lemma PlannableMeansRoom(files: seq<PreparedFile>, file: PreparedFile)
    requires Plannable(files + [file]) && |file.path| > 0
    ensures HasRoom(files, file.path)
  {
    var more, n := files + [file], |files|;
    assert more[n] == file;
    WhichDirectories(files, file.path);
    WhichFiles(files, file.path);
    assert IsPrefix(file.path, file.path);
    forall k | 0 <= k < |ALWAYS_ON_DIRS|
      ensures ALWAYS_ON_DIRS[k] != file.path
    {
      assert !IsPrefix(more[n].path, ALWAYS_ON_DIRS[k]);
    }
    forall i | 0 <= i < n
      ensures file.path !in Parents(files[i].path) && file.path != files[i].path
    {
      InParents(files[i].path, file.path);
      assert !IsPrefix(more[n].path, more[i].path);
    }
    forall d | d in Parents(file.path)
      ensures d !in ExpectedFiles(files)
    {
      WhichFiles(files, d);
      InParents(file.path, d);
      forall i | 0 <= i < n
        ensures d != files[i].path
      {
        assert !IsPrefix(more[i].path, more[n].path);
      }
    }
  }

  lemma RoomMeansPlannable(files: seq<PreparedFile>, file: PreparedFile)
    requires Plannable(files) && HasRoom(files, file.path) && |file.path| > 0 && NamesOk(files)
    ensures Plannable(files + [file])
  {
    var more, n := files + [file], |files|;
    WhichDirectories(files, file.path);
    WhichFiles(files, file.path);
    forall i | 0 <= i < n
      ensures !IsPrefix(file.path, files[i].path) && !IsPrefix(files[i].path, file.path)
    {
      assert files[i] in files;
      WhichFiles(files, files[i].path);
      InParents(files[i].path, file.path);
      InParents(file.path, files[i].path);
      assert files[i].path[..|files[i].path|] == files[i].path;
      assert file.path[..|file.path|] == file.path;
    }
    forall d | 0 <= d < |ALWAYS_ON_DIRS|
      ensures !IsPrefix(file.path, ALWAYS_ON_DIRS[d])
    {
      AlwaysOnIsClosed(ALWAYS_ON_DIRS[d]);
      InChain(ALWAYS_ON_DIRS[d], file.path);
    }
    forall i, j | 0 <= i < |more| && 0 <= j < |more| && i != j
      ensures !IsPrefix(more[i].path, more[j].path)
    {
      if i < n && j < n {
        assert !IsPrefix(files[i].path, files[j].path);
      }
    }
  }

  /** In an expected tree no path is both a file and a directory. */
  lemma {:induction false} PlannableTreesAreConsistent(files: seq<PreparedFile>)
    requires Plannable(files) && NamesOk(files)
    ensures ExpectedDirectories(files) !! ExpectedFiles(files).Keys
  {
    if files != [] {
      var shorter, last := files[..|files| - 1], files[|files| - 1];
      assert files == shorter + [last];
      PlannablePrefix(files, |files| - 1);
      PlannableTreesAreConsistent(shorter);
      PlannableMeansRoom(shorter, last);
      InParents(last.path, last.path);
    }
  }

  lemma OnlyFilesBlock(directories: set<Path>, contents: map<Path, Bytes>, owner: Owner, ds: set<Path>)
    ensures Blocked(TreeOf(directories, contents, owner), ds) <==> !(ds !! contents.Keys)
  {
    var t := TreeOf(directories, contents, owner);
    if d :| d in ds && d in contents {
      assert d in t && !t[d].Directory?;
    }
  }

  /** A further file fits into the tree exactly when the files remain plannable. */
  lemma FitsExactlyWhenPlannable(files: seq<PreparedFile>, file: PreparedFile, owner: Owner)
    requires Plannable(files) && NamesOk(files) && |file.path| > 0
    ensures var t := ExpectedTree(files, owner);
            var u := WithDirectories(t, Parents(file.path), owner);
            && (Plannable(files + [file]) <==> !Blocked(t, Parents(file.path)) && file.path !in u)
            && (!Blocked(t, Parents(file.path)) ==> AllDirectories(u, Parents(file.path)))
            && (Plannable(files + [file]) ==> u[file.path := NewFile(owner, file.content)] == ExpectedTree(files + [file], owner))
  {
    var t := ExpectedTree(files, owner);
    PlannableTreesAreConsistent(files);
    InParents(file.path, file.path);
    assert (files + [file])[..|files|] == files;
    OnlyFilesBlock(ExpectedDirectories(files), ExpectedFiles(files), owner, Parents(file.path));
    if !Blocked(t, Parents(file.path)) && file.path !in t {
      RoomMeansPlannable(files, file);
    }
    if Plannable(files + [file]) {
      PlannableMeansRoom(files, file);
    }
  }

  lemma ParentsAreDirectories(files: seq<PreparedFile>, i: nat, owner: Owner)
    requires Plannable(files) && NamesOk(files) && i < |files|
    ensures AllDirectories(ExpectedTree(files, owner), Parents(files[i].path))
  {
    PlannableTreesAreConsistent(files);
    forall d | d in Parents(files[i].path)
      ensures d in ExpectedDirectories(files)
    {
      WhichDirectories(files, d);
    }
  }
}
