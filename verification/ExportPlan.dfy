/** Which files an export bundle consists of, and where they go. */
module ExportPlan {
  import opened Content
  import opened Outcomes

  /** A relative path, split at its slashes. */
  type Path = seq<string>

  datatype ArtifactStatus = APPROVED | REJECTED | MANUAL_REVIEW

  datatype Item = Item(artifactId: string, status: ArtifactStatus, inputAssetId: string, sequenceIndex: Option<nat>, content: Bytes)

  datatype Cohort = Cohort(outputProfile: string, items: seq<Item>)

  datatype PreparedFile = PreparedFile(path: Path, content: Bytes)

  /** The documents written beside the artifacts. */
  datatype Documents = Documents(styleSpec: Bytes, environment: Bytes, assetCredits: Bytes, qaReport: Bytes, manifest: Bytes)

  const ALWAYS_ON_DIRS: seq<Path> := [
    ["approved"],
    ["approved", "xhs_grid"],
    ["approved", "talking_head_cover"],
    ["approved", "background_sequence"],
    ["rejected"],
    ["manual_review"]]

  const TOP_LEVEL := {"style_spec.yaml", "environment.json", "asset_credits.json", "qa_report.json", "manifest.json"}

  function Digits(n: nat): string {
    (if n < 10 then "" else Digits(n / 10)) + ["0123456789"[n % 10]]
  }

  function Padded(s: string, width: nat): string
    decreases width - |s|
  {
    if |s| >= width then s else Padded("0" + s, width)
  }

  /** manifest._leaf; None is an invariant violation. */
  function Leaf(artifactId: string, sequenceIndex: Option<nat>, outputProfile: string): Option<string> {
    if outputProfile == "background_sequence" then
      if sequenceIndex.None? then None else Some(Padded(Digits(sequenceIndex.value), 6) + "_" + artifactId + ".png")
    else if sequenceIndex.Some? then None
    else Some(artifactId + ".png")
  }

  /** manifest._relative_path */
  function RelativePath(status: ArtifactStatus, outputProfile: string, inputAssetId: string, leaf: string): Path {
    match status
    case APPROVED => ["approved", outputProfile, leaf]
    case REJECTED => ["rejected", inputAssetId, leaf]
    case MANUAL_REVIEW => ["manual_review", inputAssetId, leaf]
  }

  /** An item with the profile of its cohort. */
  datatype Placed = Placed(profile: string, item: Item) {

    function LeafName(): Option<string> {
      Leaf(item.artifactId, item.sequenceIndex, profile)
    }

    function File(): PreparedFile
      requires LeafName().Some?
    {
      PreparedFile(RelativePath(item.status, profile, item.inputAssetId, LeafName().value), item.content)
    }
  }

  function InCohort(profile: string, items: seq<Item>): seq<Placed> {
    seq(|items|, i requires 0 <= i < |items| => Placed(profile, items[i]))
  }

  function AllPlaced(cohorts: seq<Cohort>): seq<Placed> {
    if cohorts == [] then [] else
    var last := cohorts[|cohorts| - 1];
    AllPlaced(cohorts[..|cohorts| - 1]) + InCohort(last.outputProfile, last.items)
  }

  ghost predicate LeavesOk(placed: seq<Placed>) {
    forall i :: 0 <= i < |placed| ==> placed[i].LeafName().Some?
  }

  /** No two items share a path or an artifact id. */
  ghost predicate Distinct(placed: seq<Placed>)
    requires LeavesOk(placed)
  {
    forall i, j :: 0 <= i < j < |placed| ==>
                     placed[i].File().path != placed[j].File().path && placed[i].item.artifactId != placed[j].item.artifactId
  }

  ghost function Paths(placed: seq<Placed>): set<Path>
    requires LeavesOk(placed)
  {
    set p | p in placed :: p.File().path
  }

  ghost function ArtifactIds(placed: seq<Placed>): set<string> {
    set p | p in placed :: p.item.artifactId
  }

  function ArtifactFiles(placed: seq<Placed>): seq<PreparedFile>
    requires LeavesOk(placed)
  {
    seq(|placed|, i requires 0 <= i < |placed| => placed[i].File())
  }

  /** What the loop has collected about the items placed so far. */
  ghost predicate Collected(placed: seq<Placed>, seenPaths: set<Path>, seenIds: set<string>, files: seq<PreparedFile>) {
    && LeavesOk(placed)
    && Distinct(placed)
    && seenPaths == Paths(placed)
    && seenIds == ArtifactIds(placed)
    && files == ArtifactFiles(placed)
  }

  lemma OneMore(placed: seq<Placed>, seenPaths: set<Path>, seenIds: set<string>, files: seq<PreparedFile>, next: Placed)
    requires Collected(placed, seenPaths, seenIds, files)
    requires next.LeafName().Some? && next.File().path !in seenPaths && next.item.artifactId !in seenIds
    ensures Collected(placed + [next], seenPaths + {next.File().path}, seenIds + {next.item.artifactId}, files + [next.File()])
  {
    var more := placed + [next];
    assert more[|placed|] == next;
    forall i | 0 <= i < |placed|
      ensures more[i] == placed[i] && more[i].LeafName().Some?
      ensures more[i].File().path != next.File().path && more[i].item.artifactId != next.item.artifactId
    {
      assert placed[i] in placed;
    }
    OneMoreKey(placed, next);
  }

  lemma OneMoreKey(placed: seq<Placed>, next: Placed)
    requires LeavesOk(placed) && LeavesOk(placed + [next]) && next.LeafName().Some?
    ensures Paths(placed + [next]) == Paths(placed) + {next.File().path}
    ensures ArtifactIds(placed + [next]) == ArtifactIds(placed) + {next.item.artifactId}
  {
    assert forall p :: p in placed + [next] <==> p in placed || p == next;
    assert next in placed + [next];
  }

  ghost predicate Admissible(placed: seq<Placed>) {
    LeavesOk(placed) && Distinct(placed)
  }

  lemma PrefixesAreAdmissible(all: seq<Placed>, n: nat)
    requires n <= |all| && Admissible(all)
    ensures Admissible(all[..n])
  {
    forall i | 0 <= i < n
      ensures all[..n][i] == all[i]
    {
    }
  }

  /** One round of the loop. */
  method Accept(ghost placed: seq<Placed>, seenPaths: set<Path>, seenIds: set<string>, files: seq<PreparedFile>, next: Placed)
    returns (ok: bool, morePaths: set<Path>, moreIds: set<string>, moreFiles: seq<PreparedFile>)
    requires Collected(placed, seenPaths, seenIds, files)
    ensures ok ==> Collected(placed + [next], morePaths, moreIds, moreFiles)
    ensures ok <==> Admissible(placed + [next])
  {
    if next.LeafName().None? || next.File().path in seenPaths || next.item.artifactId in seenIds {
      Clash(placed, next);
      return false, seenPaths, seenIds, files;
    }
    OneMore(placed, seenPaths, seenIds, files, next);
    return true, seenPaths + {next.File().path}, seenIds + {next.item.artifactId}, files + [next.File()];
  }

  lemma Clash(placed: seq<Placed>, next: Placed)
    requires LeavesOk(placed)
    requires next.LeafName().None? || next.File().path in Paths(placed) || next.item.artifactId in ArtifactIds(placed)
    ensures !Admissible(placed + [next])
  {
    var all := placed + [next];
    assert all[|placed|] == next;
    if LeavesOk(all) {
      var p :| p in placed && (p.File().path == next.File().path || p.item.artifactId == next.item.artifactId);
      var i :| 0 <= i < |placed| && placed[i] == p;
      assert all[i] == p;
      assert !Distinct(all);
    }
  }

  function Sidecars(docs: Documents): seq<PreparedFile> {
    [PreparedFile(["style_spec.yaml"], docs.styleSpec), PreparedFile(["environment.json"], docs.environment),
     PreparedFile(["asset_credits.json"], docs.assetCredits), PreparedFile(["qa_report.json"], docs.qaReport)]
  }

  function ManifestFile(docs: Documents): PreparedFile {
    PreparedFile(["manifest.json"], docs.manifest)
  }

  // Sorting by path

  /** The path as text. */
  function Joined(p: Path): string {
    if p == [] then "" else if |p| == 1 then p[0] else p[0] + "/" + Joined(p[1..])
  }

  /** Texts are compared character by character. */
  predicate Less(a: string, b: string) {
    b != "" && (a == "" || a[0] < b[0] || (a[0] == b[0] && Less(a[1..], b[1..])))
  }

  lemma {:induction false} LessIsTransitive(a: string, b: string, c: string)
    ensures !Less(b, a) && !Less(c, b) ==> !Less(c, a)
  {
    if a != "" && b != "" && c != "" {
      LessIsTransitive(a[1..], b[1..], c[1..]);
    }
  }

  lemma {:induction false} LessIsAsymmetric(a: string, b: string)
    ensures !(Less(a, b) && Less(b, a))
  {
    if a != "" && b != "" {
      LessIsAsymmetric(a[1..], b[1..]);
    }
  }

  predicate Before(f: PreparedFile, g: PreparedFile) {
    Less(Joined(f.path), Joined(g.path))
  }

  ghost predicate Ordered(files: seq<PreparedFile>) {
    forall i, j :: 0 <= i < j < |files| ==> !Before(files[j], files[i])
  }

  function Insert(files: seq<PreparedFile>, f: PreparedFile): seq<PreparedFile> {
    if files == [] || !Before(f, files[|files| - 1]) then files + [f]
    else Insert(files[..|files| - 1], f) + [files[|files| - 1]]
  }

  function SortedByPath(files: seq<PreparedFile>): seq<PreparedFile> {
    if files == [] then [] else Insert(SortedByPath(files[..|files| - 1]), files[|files| - 1])
  }

  lemma {:induction false} InsertKeepsAll(files: seq<PreparedFile>, f: PreparedFile)
    ensures multiset(Insert(files, f)) == multiset(files) + multiset{f}
  {
    if files != [] && Before(f, files[|files| - 1]) {
      var n := |files| - 1;
      assert files == files[..n] + [files[n]];
      InsertKeepsAll(files[..n], f);
    }
  }

  lemma {:induction false} InsertKeepsOrder(files: seq<PreparedFile>, f: PreparedFile)
    requires Ordered(files)
    ensures Ordered(Insert(files, f))
  {
    if files != [] {
      var n := |files| - 1;
      if Before(f, files[n]) {
        InsertKeepsOrder(files[..n], f);
        InsertKeepsAll(files[..n], f);
        var t := Insert(files[..n], f);
        forall i | 0 <= i < |t|
          ensures !Before(files[n], t[i])
        {
          assert t[i] in multiset(t);
          LessIsAsymmetric(Joined(f.path), Joined(files[n].path));
        }
      } else {
        AppendKeepsOrder(files, f);
      }
    }
  }

  lemma AppendKeepsOrder(files: seq<PreparedFile>, f: PreparedFile)
    requires Ordered(files) && files != [] && !Before(f, files[|files| - 1])
    ensures Ordered(files + [f])
  {
    var n := |files| - 1;
    forall i | 0 <= i < n
      ensures !Before(f, files[i])
    {
      LessIsTransitive(Joined(files[i].path), Joined(files[n].path), Joined(f.path));
    }
  }

  /** Sorting keeps every file and puts their paths in order. */
  lemma {:induction false} SortedIsSorted(files: seq<PreparedFile>)
    ensures Ordered(SortedByPath(files)) && multiset(SortedByPath(files)) == multiset(files)
  {
    if files != [] {
      var n := |files| - 1;
      assert files == files[..n] + [files[n]];
      SortedIsSorted(files[..n]);
      InsertKeepsOrder(SortedByPath(files[..n]), files[n]);
      InsertKeepsAll(SortedByPath(files[..n]), files[n]);
    }
  }

  /** The files of an export: the sorted payload, and the manifest. */
  function PlannedFiles(placed: seq<Placed>, docs: Documents): seq<PreparedFile>
    requires LeavesOk(placed)
  {
    SortedByPath(Sidecars(docs) + ArtifactFiles(placed)) + [ManifestFile(docs)]
  }

  /** The path and identity loop of manifest._prepare_export, and its result: the sorted payload and the manifest. */
  method PrepareExport(cohorts: seq<Cohort>, docs: Documents) returns (o: Option<seq<PreparedFile>>)
    ensures o.Some? <==> Admissible(AllPlaced(cohorts))
    ensures o.Some? ==> o.value == PlannedFiles(AllPlaced(cohorts), docs)
  {
    var seenPaths: set<Path>, seenIds: set<string>, files: seq<PreparedFile> := {}, {}, [];
    ghost var placed: seq<Placed> := [];
    for c := 0 to |cohorts|
      invariant placed == AllPlaced(cohorts[..c]) && Collected(placed, seenPaths, seenIds, files)
    {
      var cohort := cohorts[c];
      ghost var before := placed;
      for k := 0 to |cohort.items|
        invariant placed == before + InCohort(cohort.outputProfile, cohort.items[..k])
        invariant Collected(placed, seenPaths, seenIds, files)
      {
        var ok;
        PlacedPrefix(cohorts, c, k);
        ghost var more := placed + [Placed(cohort.outputProfile, cohort.items[k])];
        ok, seenPaths, seenIds, files := Accept(placed, seenPaths, seenIds, files, Placed(cohort.outputProfile, cohort.items[k]));
        if !ok {
          if Admissible(AllPlaced(cohorts)) {
            PrefixesAreAdmissible(AllPlaced(cohorts), |more|);
            assert false;
          }
          return None;
        }
        placed := more;
      }
      assert cohort.items[..|cohort.items|] == cohort.items;
      assert cohorts[..c + 1][..c] == cohorts[..c];
    }
    assert cohorts[..|cohorts|] == cohorts;
    return Some(SortedByPath(Sidecars(docs) + files) + [ManifestFile(docs)]);
  }

  /** The items up to any point of the loop are a prefix of all items. */
  lemma {:induction false} PlacedPrefix(cohorts: seq<Cohort>, c: nat, k: nat)
    requires c < |cohorts| && k < |cohorts[c].items|
    ensures var upTo := AllPlaced(cohorts[..c]) + InCohort(cohorts[c].outputProfile, cohorts[c].items[..k])
                        + [Placed(cohorts[c].outputProfile, cohorts[c].items[k])];
            |upTo| <= |AllPlaced(cohorts)| && AllPlaced(cohorts)[..|upTo|] == upTo
    ensures InCohort(cohorts[c].outputProfile, cohorts[c].items[..k + 1])
         == InCohort(cohorts[c].outputProfile, cohorts[c].items[..k]) + [Placed(cohorts[c].outputProfile, cohorts[c].items[k])]
    decreases |cohorts|
  {
    var rest := cohorts[..|cohorts| - 1];
    if c < |rest| {
      PlacedPrefix(rest, c, k);
      assert rest[..c] == cohorts[..c];
    } else {
      assert rest == cohorts[..c];
    }
  }

  predicate IsPrefix(p: Path, q: Path) {
    |p| <= |q| && q[..|p|] == p
  }

  /** Files that can be put into one directory tree beside the fixed directories: no path is used twice, and no file
      sits where a directory is needed. */
  ghost predicate Plannable(files: seq<PreparedFile>) {
    && (forall i, j :: 0 <= i < |files| && 0 <= j < |files| && i != j ==> !IsPrefix(files[i].path, files[j].path))
    && (forall i, d :: 0 <= i < |files| && 0 <= d < |ALWAYS_ON_DIRS| ==> !IsPrefix(files[i].path, ALWAYS_ON_DIRS[d]))
  }

  lemma FilesCanBePlanned(placed: seq<Placed>, docs: Documents)
    requires Admissible(placed)
    ensures var files := Sidecars(docs) + ArtifactFiles(placed) + [ManifestFile(docs)];
            Plannable(files) && forall i :: 0 <= i < |files| ==> |files[i].path| > 0
  {
    var artifacts, sidecars := ArtifactFiles(placed), Sidecars(docs);
    var files := sidecars + artifacts + [ManifestFile(docs)];
    forall i | 0 <= i < |files|
      ensures if 4 <= i < |files| - 1 then |files[i].path| == 3 && files[i].path[0] in {"approved", "rejected", "manual_review"}
              else |files[i].path| == 1 && files[i].path[0] in TOP_LEVEL
    {
    }
    forall i, j | 0 <= i < |files| && 0 <= j < |files| && i != j
      ensures !IsPrefix(files[i].path, files[j].path)
    {
      if |files[i].path| == |files[j].path| {
        assert files[j].path[..|files[j].path|] == files[j].path;
      } else if |files[i].path| == 1 {
        assert files[j].path[..1][0] == files[j].path[0];
      }
    }
    forall i, d | 0 <= i < |files| && 0 <= d < |ALWAYS_ON_DIRS|
      ensures !IsPrefix(files[i].path, ALWAYS_ON_DIRS[d])
    {
      assert |files[i].path| == 1 ==> ALWAYS_ON_DIRS[d][..1][0] == ALWAYS_ON_DIRS[d][0];
    }
  }

  lemma TwoPlaces<T>(s: seq<T>, i: nat, j: nat)
    requires i < j < |s| && s[i] == s[j]
    ensures multiset(s)[s[i]] >= 2
  {
    assert s == s[..j] + [s[j]] + s[j + 1..];
    assert s[..j][i] == s[i];
    assert s[i] in multiset(s[..j]);
  }

  lemma FindTwo<T>(s: seq<T>, x: T, y: T) returns (i: nat, j: nat)
    requires x in s && y in s && (x == y ==> multiset(s)[x] >= 2)
    ensures i < |s| && j < |s| && i != j && s[i] == x && s[j] == y
  {
    i :| i < |s| && s[i] == x;
    if x != y {
      j :| j < |s| && s[j] == y;
    } else {
      assert s == s[..i] + [s[i]] + s[i + 1..];
      assert x in s[..i] + s[i + 1..];
      if k :| 0 <= k < i && s[..i][k] == x {
        j := k;
      } else {
        var l :| 0 <= l < |s| - i - 1 && s[i + 1..][l] == x;
        j := i + 1 + l;
      }
    }
  }

  /** The order of the files does not matter for that. */
  lemma PlannableInAnyOrder(files: seq<PreparedFile>, files': seq<PreparedFile>)
    requires multiset(files) == multiset(files') && Plannable(files)
    ensures Plannable(files')
  {
    forall i, j | 0 <= i < |files'| && 0 <= j < |files'| && i != j
      ensures !IsPrefix(files'[i].path, files'[j].path)
    {
      assert files'[i] in multiset(files') && files'[j] in multiset(files');
      if files'[i] == files'[j] {
        TwoPlaces(files', if i < j then i else j, if i < j then j else i);
      }
      var i', j' := FindTwo(files, files'[i], files'[j]);
    }
    forall i, d | 0 <= i < |files'| && 0 <= d < |ALWAYS_ON_DIRS|
      ensures !IsPrefix(files'[i].path, ALWAYS_ON_DIRS[d])
    {
      assert files'[i] in multiset(files');
      var k :| 0 <= k < |files| && files[k] == files'[i];
    }
  }

  /** Every prepared export can be put into one tree, and its payload is in order. */
  lemma PreparedExportsArePlannable(cohorts: seq<Cohort>, docs: Documents)
    requires Admissible(AllPlaced(cohorts))
    ensures var files := PlannedFiles(AllPlaced(cohorts), docs);
            Plannable(files) && Ordered(files[..|files| - 1]) && forall f :: f in files ==> |f.path| > 0
    ensures multiset(PlannedFiles(AllPlaced(cohorts), docs))
         == multiset(Sidecars(docs) + ArtifactFiles(AllPlaced(cohorts)) + [ManifestFile(docs)])
  {
    var placed := AllPlaced(cohorts);
    var payload, last := Sidecars(docs) + ArtifactFiles(placed), [ManifestFile(docs)];
    var files := PlannedFiles(placed, docs);
    SortedIsSorted(payload);
    assert files == SortedByPath(payload) + last && files[..|files| - 1] == SortedByPath(payload);
    FilesCanBePlanned(placed, docs);
    PlannableInAnyOrder(payload + last, files);
    forall f | f in files
      ensures |f.path| > 0
    {
      assert f in multiset(payload + last);
    }
  }
}
