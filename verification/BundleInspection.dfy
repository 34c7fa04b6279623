/** Walking a bundle's tree, and the checks that accept exactly the expected one. */
module BundleInspection {
  import opened Content
  import opened ExportPlan
  import opened BundleLayout
  import opened ExportPlaces

  const READ_BLOCK := 0x10_0000

  /** Every node sits in a directory of the tree, or in the root. */
  ghost predicate WellFormed(t: Tree) {
    forall p {:trigger InItsDirectory(t, p)} :: p in t ==> InItsDirectory(t, p)
  }

  ghost predicate InItsDirectory(t: Tree, p: Path) {
    |p| > 0 && (|p| > 1 ==> p[..|p| - 1] in t && t[p[..|p| - 1]].Directory?)
  }

  predicate Under(p: Path, prefix: Path) {
    |prefix| < |p| && p[..|prefix|] == prefix
  }

  /** The nodes below a directory. */
  function Below(t: Tree, prefix: Path): set<Path> {
    set p | p in t && Under(p, prefix)
  }

  /** Those of them that are reached through the entries in `names`. */
  function Through(t: Tree, prefix: Path, names: set<string>): set<Path> {
    set p | p in t && Under(p, prefix) && p[|prefix|] in names
  }

  function Names(t: Tree, prefix: Path): set<string> {
    set p | p in t && Under(p, prefix) && |p| == |prefix| + 1 :: p[|prefix|]
  }

  function Part<K, V>(m: map<K, V>, ks: set<K>): map<K, V> {
    map k | k in m && k in ks :: m[k]
  }

  lemma AddToPart<K, V>(found: map<K, V>, m: map<K, V>, ks: set<K>, k: K, more: set<K>)
    requires k in m
    ensures (found + Part(m, ks))[k := m[k]] + Part(m, more) == found + Part(m, ks + {k} + more)
    ensures (found + Part(m, ks))[k := m[k]] == found + Part(m, ks + {k})
  {
  }

  /** bundle._snapshot_children: the recursive walk reports exactly the nodes below the directory. */
  method SnapshotChildren(s: Stage, prefix: Path, found: Tree) returns (ok: bool, found': Tree)
    requires WellFormed(s.nodes)
    modifies s`clock
    ensures ok ==> found' == found + Part(s.nodes, Below(s.nodes, prefix))
    ensures s.clock >= old(s.clock) && (ok ==> s.Smooth(old(s.clock), s.clock))
    ensures s.Faultless() ==> ok
    decreases |Below(s.nodes, prefix)|, 1
  {
    found' := found;
    ok := s.Call();
    if !ok { return; }
    var names := Names(s.nodes, prefix);
    var left: set<string> := names;
    while left != {}
      invariant left <= names && found' == found + Part(s.nodes, Through(s.nodes, prefix, names - left))
      invariant s.clock >= old(s.clock) && s.Smooth(old(s.clock), s.clock)
    {
      var name: string :| name in left;
      ok, found' := SnapshotEntry(s, prefix, name, found', found, names - left);
      if !ok { return; }
      assert names - (left - {name}) == (names - left) + {name};
      left := left - {name};
    }
    EveryNodeIsThroughAName(s.nodes, prefix);
    assert names - {} == names;
    ok := true;
  }

  /** One round of the loop. */
  method SnapshotEntry(s: Stage, prefix: Path, name: string, found: Tree, ghost base: Tree, ghost seen: set<string>)
    returns (ok: bool, found': Tree)
    requires WellFormed(s.nodes) && name in Names(s.nodes, prefix)
    requires found == base + Part(s.nodes, Through(s.nodes, prefix, seen))
    modifies s`clock
    ensures ok ==> found' == base + Part(s.nodes, Through(s.nodes, prefix, seen + {name}))
    ensures s.clock >= old(s.clock) && (ok ==> s.Smooth(old(s.clock), s.clock))
    ensures s.Faultless() ==> ok
    decreases |Below(s.nodes, prefix)|, 0
  {
    var path := prefix + [name];
    OneEntry(s.nodes, prefix, seen, name);
    AddToPart(base, s.nodes, Through(s.nodes, prefix, seen), path, Below(s.nodes, path));
    var stat := s.Call();
    if !stat { return false, found; }
    found' := found[path := s.nodes[path]];
    if s.nodes[path].Directory? {
      var open := s.Call();
      var before := s.Call();
      if !open || !before { return false, found'; }
      ok, found' := SnapshotChildren(s, path, found');
      if !ok { return; }
      var after := s.Call();
      if !after { return false, found'; }
    }
    ok := true;
  }

  lemma {:induction false} AncestorsAreDirectories(t: Tree, p: Path, k: nat)
    requires WellFormed(t) && p in t && 0 < k < |p|
    ensures p[..k] in t && t[p[..k]].Directory?
    decreases |p|
  {
    var parent := p[..|p| - 1];
    assert InItsDirectory(t, p);
    if k < |parent| {
      AncestorsAreDirectories(t, parent, k);
      assert parent[..k] == p[..k];
    } else {
      assert p[..k] == parent;
    }
  }

  lemma EveryNodeIsThroughAName(t: Tree, prefix: Path)
    requires WellFormed(t)
    ensures Through(t, prefix, Names(t, prefix)) == Below(t, prefix)
  {
    forall p | p in t && Under(p, prefix)
      ensures p[|prefix|] in Names(t, prefix)
    {
      var child := p[..|prefix| + 1];
      if |p| > |prefix| + 1 {
        AncestorsAreDirectories(t, p, |prefix| + 1);
      } else {
        assert child == p;
      }
      assert child[..|prefix|] == prefix && child in t && child[|prefix|] == p[|prefix|];
    }
  }

  /** A node is reached through an entry exactly when it is that entry or below it. */
  lemma ThroughOneName(t: Tree, prefix: Path, name: string, p: Path)
    requires WellFormed(t) && p in t
    ensures Under(p, prefix) && p[|prefix|] == name <==> p == prefix + [name] || Under(p, prefix + [name])
    ensures Under(p, prefix + [name]) ==> prefix + [name] in t && t[prefix + [name]].Directory?
  {
    var path := prefix + [name];
    if |p| >= |path| {
      assert p[..|path|] == p[..|prefix|] + [p[|prefix|]];
      assert path[..|prefix|] == prefix;
      assert |p| == |path| ==> p[..|path|] == p;
      if Under(p, path) {
        AncestorsAreDirectories(t, p, |path|);
      }
    }
  }

  lemma OneEntry(t: Tree, prefix: Path, seen: set<string>, name: string)
    requires WellFormed(t) && name in Names(t, prefix)
    ensures prefix + [name] in t
    ensures !t[prefix + [name]].Directory? ==> Below(t, prefix + [name]) == {}
    ensures |Below(t, prefix + [name])| < |Below(t, prefix)|
    ensures Through(t, prefix, seen + {name}) == Through(t, prefix, seen) + {prefix + [name]} + Below(t, prefix + [name])
  {
    var path := prefix + [name];
    var child :| child in t && Under(child, prefix) && |child| == |prefix| + 1 && child[|prefix|] == name;
    assert child == path;
    forall p | p in t
      ensures p in Through(t, prefix, {name}) <==> p == path || p in Below(t, path)
      ensures p in Below(t, path) ==> t[path].Directory?
    {
      ThroughOneName(t, prefix, name, p);
    }
    assert Through(t, prefix, seen + {name}) == Through(t, prefix, seen) + Through(t, prefix, {name});
    assert Through(t, prefix, {name}) == {path} + Below(t, path);
    assert path in Below(t, prefix) && path !in Below(t, path);
    FewerElements(Below(t, path), Below(t, prefix));
  }

  lemma FewerElements<T>(small: set<T>, large: set<T>)
    requires small < large
    ensures |small| < |large|
  {
    assert large == small + (large - small);
    assert |large| == |small| + |large - small|;
  }

  /** bundle._verify_snapshot_layout */
  predicate LayoutOk(snapshot: Tree, files: seq<PreparedFile>, owner: Owner) {
    && snapshot.Keys == ExpectedDirectories(files) + ExpectedFiles(files).Keys
    && (forall d | d in ExpectedDirectories(files) :: snapshot[d] == Directory(DIR_MODE, owner))
    && (forall p | p in ExpectedFiles(files) ::
          && snapshot[p].Regular? && snapshot[p].mode == FILE_MODE && snapshot[p].owner == owner && snapshot[p].links == 1
          && |snapshot[p].content| == |ExpectedFiles(files)[p]|)
  }

  predicate Holds(t: Tree, f: PreparedFile) {
    f.path in t && t[f.path].Regular? && t[f.path].content == f.content
  }

  /** bundle._readback_file: reads the file in blocks and compares. */
  method ReadBack(s: Stage, f: PreparedFile) returns (ok: bool)
    requires |f.path| > 0
    modifies s`clock
    ensures ok ==> Holds(s.nodes, f)
    ensures s.clock >= old(s.clock) && (ok ==> s.Smooth(old(s.clock), s.clock))
    ensures s.Faultless() && Holds(s.nodes, f) && AllDirectories(s.nodes, Parents(f.path)) ==> ok
  {
    ok := s.OpenChain(f.path[..|f.path| - 1]);
    if !ok { return; }
    ok := s.Call();
    if !ok || f.path !in s.nodes || !s.nodes[f.path].Regular? { return false; }
    var content := s.nodes[f.path].content;
    var data: Bytes := [];
    while |data| < |content|
      invariant |data| <= |content| && data == content[..|data|]
      invariant s.clock >= old(s.clock) && s.Smooth(old(s.clock), s.clock)
    {
      var block := if s.taken(s.clock) > READ_BLOCK then READ_BLOCK else s.taken(s.clock);
      ok := s.Call();
      if !ok || block == 0 { return false; }
      data := if |data| + block > |content| then content else content[..|data| + block];
    }
    assert content[..|content|] == content;
    ok := s.Call();
    return ok && data == f.content;
  }

  /** bundle._inspect_open_final and the checks of bundle._verify_staged_for_commit: snapshot, layout, contents, snapshot.
      It accepts the expected tree and no other. */
  method Inspect(s: Stage, files: seq<PreparedFile>, owner: Owner) returns (ok: bool)
    requires WellFormed(s.nodes) && NamesOk(files)
    modifies s`clock
    ensures ok ==> s.nodes == ExpectedTree(files, owner)
    ensures s.clock >= old(s.clock) && (ok ==> s.Smooth(old(s.clock), s.clock))
    ensures s.Faultless() && Plannable(files) && s.nodes == ExpectedTree(files, owner) ==> ok
  {
    var before, after;
    ok, before := SnapshotChildren(s, [], map[]);
    if !ok { return; }
    EverythingIsBelowTheRoot(s.nodes);
    ghost var expected := s.Faultless() && Plannable(files) && s.nodes == ExpectedTree(files, owner);
    if expected {
      ExpectedTreesPass(files, owner);
    }
    if !LayoutOk(before, files, owner) { return false; }
    for i := 0 to |files|
      invariant forall j :: 0 <= j < i ==> Holds(s.nodes, files[j])
      invariant s.clock >= old(s.clock) && s.Smooth(old(s.clock), s.clock)
    {
      if expected {
        ParentsAreDirectories(files, i, owner);
      }
      ok := ReadBack(s, files[i]);
      if !ok { return; }
    }
    OnlyTheExpectedTreePasses(s.nodes, files, owner);
    ok, after := SnapshotChildren(s, [], map[]);
    ok := ok && before == after;
  }

  lemma EverythingIsBelowTheRoot(t: Tree)
    requires WellFormed(t)
    ensures Part(t, Below(t, [])) == t
  {
    forall p | p in t
      ensures Under(p, [])
    {
      assert InItsDirectory(t, p);
    }
  }

  lemma {:induction false} SomeContent(files: seq<PreparedFile>, p: Path)
    requires p in ExpectedFiles(files)
    ensures exists i :: 0 <= i < |files| && files[i] == PreparedFile(p, ExpectedFiles(files)[p])
  {
    var n := |files| - 1;
    if files[n].path == p {
      assert files[n] == PreparedFile(p, ExpectedFiles(files)[p]);
    } else {
      SomeContent(files[..n], p);
      var i :| 0 <= i < n && files[..n][i] == PreparedFile(p, ExpectedFiles(files[..n])[p]);
      assert files[i] == PreparedFile(p, ExpectedFiles(files)[p]);
    }
  }

  /** No tree with an extra, missing, retyped or changed node passes. */
  lemma OnlyTheExpectedTreePasses(t: Tree, files: seq<PreparedFile>, owner: Owner)
    requires LayoutOk(t, files, owner) && forall i :: 0 <= i < |files| ==> Holds(t, files[i])
    ensures t == ExpectedTree(files, owner)
  {
    forall p | p in ExpectedFiles(files)
      ensures t[p] == NewFile(owner, ExpectedFiles(files)[p])
    {
      SomeContent(files, p);
      var i :| 0 <= i < |files| && files[i] == PreparedFile(p, ExpectedFiles(files)[p]);
      assert Holds(t, files[i]);
    }
  }

  lemma {:induction false} PlannableFilesKeepTheirContent(files: seq<PreparedFile>, i: nat)
    requires Plannable(files) && i < |files|
    ensures files[i].path in ExpectedFiles(files) && ExpectedFiles(files)[files[i].path] == files[i].content
  {
    var n := |files| - 1;
    if i < n {
      PlannablePrefix(files, n);
      PlannableFilesKeepTheirContent(files[..n], i);
      assert !IsPrefix(files[i].path, files[n].path);
      assert files[n].path[..|files[n].path|] == files[n].path;
    }
  }

  lemma ExpectedTreesPass(files: seq<PreparedFile>, owner: Owner)
    requires Plannable(files) && NamesOk(files)
    ensures LayoutOk(ExpectedTree(files, owner), files, owner)
    ensures forall i :: 0 <= i < |files| ==> Holds(ExpectedTree(files, owner), files[i])
  {
    PlannableTreesAreConsistent(files);
    forall i | 0 <= i < |files|
      ensures Holds(ExpectedTree(files, owner), files[i])
    {
      PlannableFilesKeepTheirContent(files, i);
    }
  }

  lemma ExpectedTreesAreWellFormed(files: seq<PreparedFile>, owner: Owner)
    requires Plannable(files) && NamesOk(files)
    ensures WellFormed(ExpectedTree(files, owner))
  {
    var t := ExpectedTree(files, owner);
    PlannableTreesAreConsistent(files);
    forall p | p in t
      ensures InItsDirectory(t, p)
    {
      WhichDirectories(files, p);
      WhichFiles(files, p);
      assert p[..|p|] == p;
      if p in AlwaysOn() {
        AlwaysOnIsClosed(p);
        ParentOf(p, p);
      } else if OnTheWay(p, files) {
        var i :| 0 <= i < |files| && p in Parents(files[i].path);
        InParents(files[i].path, p);
        ParentOf(files[i].path, p);
      } else {
        var i :| 0 <= i < |files| && p == files[i].path;
        assert files[i] in files;
        ParentOf(p, p);
      }
      if |p| > 1 {
        WhichDirectories(files, p[..|p| - 1]);
      }
    }
  }

  lemma ParentOf(q: Path, p: Path)
    requires IsPrefix(p, q) && |p| > 0
    ensures |p| > 1 ==> p[..|p| - 1] in Parents(q) && p[..|p| - 1] in Chain(q)
  {
    assert q[..|p| - 1] == p[..|p| - 1];
    InParents(q, p[..|p| - 1]);
    InChain(q, p[..|p| - 1]);
  }

  /** bundle._stage_bundle, from the empty staging directory on: a stage that is handed out holds exactly the expected
      tree, all of it on disk, and without faults every plannable export can be staged. */
  method StageBundle(s: Stage, files: seq<PreparedFile>) returns (ok: bool)
    requires s.nodes == map[] && s.dirty == {} && NamesOk(files)
    modifies s
    ensures ok ==> s.nodes == ExpectedTree(files, s.owner) && s.dirty == {} && Plannable(files)
    ensures s.clock >= old(s.clock) && (ok ==> s.Smooth(old(s.clock), s.clock))
    ensures s.Faultless() && Plannable(files) ==> ok
  {
    var recorded;
    ok, recorded := s.Populate(files);
    if !ok { return; }
    ExpectedTreesAreWellFormed(files, s.owner);
    ok := Inspect(s, files, s.owner);
  }

  /** The same for a whole export: without faults it is staged exactly when its paths and artifact ids are distinct. */
  method StageExport(s: Stage, cohorts: seq<Cohort>, docs: Documents) returns (ok: bool)
    requires s.nodes == map[] && s.dirty == {}
    modifies s
    ensures ok ==> Admissible(AllPlaced(cohorts)) && Numbered(cohorts) && ClashFree(cohorts)
    ensures ok ==> s.nodes == ExpectedTree(PlannedFiles(AllPlaced(cohorts), docs), s.owner) && s.dirty == {}
    ensures ok ==> forall path, node :: path in s.nodes && s.nodes[path] == node <==> Shows(cohorts, docs, s.owner, path, node)
    ensures s.clock >= old(s.clock) && (ok ==> s.Smooth(old(s.clock), s.clock))
    ensures s.Faultless() && Numbered(cohorts) && ClashFree(cohorts) ==> ok
  {
    WhichExportsAreAccepted(cohorts);
    var files := PrepareExport(cohorts, docs);
    if files.None? { return false; }
    PreparedExportsArePlannable(cohorts, docs);
    ok := StageBundle(s, files.value);
    forall path, node | ok
      ensures path in s.nodes && s.nodes[path] == node <==> Shows(cohorts, docs, s.owner, path, node)
    {
      WhatTheTreeShows(cohorts, docs, s.owner, path, node);
    }
  }
}
