/** Where the files of an export go, item by item. */
module ExportPlaces {
  import opened Content
  import opened Outcomes
  import opened ExportPlan
  import opened BundleLayout

  function Value(digits: string): nat {
    if digits == "" then 0 else
    var last := digits[|digits| - 1];
    10 * Value(digits[..|digits| - 1]) + if '0' <= last <= '9' then last as int - '0' as int else 0
  }

  /** The number in decimal, filled up with zeros to six digits. */
  predicate SixDigits(digits: string, n: nat) {
    && |digits| >= 6 && (|digits| > 6 ==> digits[0] != '0')
    && AllDigits(digits) && Value(digits) == n
  }

  predicate AllDigits(s: string) {
    forall i | 0 <= i < |s| :: '0' <= s[i] <= '9'
  }

  /** The name of an item's file: in a background sequence its number and its id, elsewhere its id. */
  ghost predicate Named(name: string, profile: string, item: Item) {
    if profile == "background_sequence" then
      item.sequenceIndex.Some?
      && exists digits :: SixDigits(digits, item.sequenceIndex.value) && name == digits + "_" + item.artifactId + ".png"
    else item.sequenceIndex.None? && name == item.artifactId + ".png"
  }

  /** An item's file is at this path: the approved ones under their profile, the others under their input asset. */
  ghost predicate GoesTo(path: Path, profile: string, item: Item) {
    |path| == 3 && Named(path[2], profile, item) &&
    match item.status
    case APPROVED => path[0] == "approved" && path[1] == profile
    case REJECTED => path[0] == "rejected" && path[1] == item.inputAssetId
    case MANUAL_REVIEW => path[0] == "manual_review" && path[1] == item.inputAssetId
  }

  ghost predicate IsItem(cohorts: seq<Cohort>, profile: string, item: Item) {
    exists c, k :: 0 <= c < |cohorts| && 0 <= k < |cohorts[c].items| && cohorts[c].outputProfile == profile && cohorts[c].items[k] == item
  }

  /** The export has a file with this content at this path. */
  ghost predicate HasFile(cohorts: seq<Cohort>, docs: Documents, path: Path, content: Bytes) {
    || (exists profile, item :: IsItem(cohorts, profile, item) && GoesTo(path, profile, item) && content == item.content)
    || (path == ["style_spec.yaml"] && content == docs.styleSpec)
    || (path == ["environment.json"] && content == docs.environment)
    || (path == ["asset_credits.json"] && content == docs.assetCredits)
    || (path == ["qa_report.json"] && content == docs.qaReport)
    || (path == ["manifest.json"] && content == docs.manifest)
  }

  lemma DigitIsRight(d: nat)
    requires d < 10
    ensures '0' <= "0123456789"[d] <= '9' && "0123456789"[d] as int == '0' as int + d
  {
    if d < 5 {
      assert d == 0 || d == 1 || d == 2 || d == 3 || d == 4;
    } else {
      assert d == 5 || d == 6 || d == 7 || d == 8 || d == 9;
    }
  }

  lemma DigitBehind(front: string, last: char)
    requires AllDigits(front) && '0' <= last <= '9'
    ensures AllDigits(front + [last])
  {
  }

  lemma ValueOfOne(c: char)
    requires '0' <= c <= '9'
    ensures Value([c]) == c as int - '0' as int
  {
    assert [c][..0] == "";
  }

  lemma {:induction false} DigitsAreRight(n: nat)
    ensures Digits(n) != "" && AllDigits(Digits(n)) && Value(Digits(n)) == n
    ensures n > 0 ==> Digits(n)[0] != '0'
    ensures |Digits(n)| > 1 ==> n > 0
  {
    var last := "0123456789"[n % 10];
    DigitIsRight(n % 10);
    if n >= 10 {
      var front := Digits(n / 10);
      DigitsAreRight(n / 10);
      DigitBehind(front, last);
      assert Digits(n) == front + [last] && (front + [last])[..|front|] == front && (front + [last])[0] == front[0];
    } else {
      ValueOfOne(last);
      assert Digits(n) == [last];
    }
  }

  lemma {:induction false} ZeroInFront(s: string)
    ensures Value("0" + s) == Value(s)
  {
    if s == "" {
      assert ("0" + s)[..0] == "";
    } else {
      var n := |s| - 1;
      assert ("0" + s)[..|s|] == "0" + s[..n];
      ZeroInFront(s[..n]);
    }
  }

  lemma {:induction false} PaddedIsRight(s: string, width: nat)
    requires s != "" && AllDigits(s)
    ensures var p := Padded(s, width);
            && |p| == (if |s| > width then |s| else width) && Value(p) == Value(s)
            && AllDigits(p) && (|s| >= width ==> p == s)
    decreases width - |s|
  {
    if |s| < width {
      ZeroInFront(s);
      PaddedIsRight("0" + s, width);
    }
  }

  function Power(k: nat): nat {
    if k == 0 then 1 else 10 * Power(k - 1)
  }

  lemma {:induction false} PowerGrows(j: nat, k: nat)
    requires j <= k
    ensures 1 <= Power(j) <= Power(k)
    decreases k
  {
    if j < k {
      PowerGrows(j, k - 1);
    } else if j > 0 {
      PowerGrows(j - 1, j - 1);
    }
  }

  lemma {:induction false} ValueIsBounded(s: string)
    requires AllDigits(s)
    ensures Value(s) < Power(|s|)
    ensures s != "" && s[0] != '0' ==> Power(|s| - 1) <= Value(s)
  {
    if s != "" {
      var n := |s| - 1;
      assert AllDigits(s[..n]);
      ValueIsBounded(s[..n]);
      if n == 0 {
        assert s[..0] == "";
      }
    }
  }

  lemma {:induction false} SameDigits(s: string, t: string)
    requires |s| == |t| && Value(s) == Value(t) && AllDigits(s) && AllDigits(t)
    ensures s == t
  {
    if s != "" {
      var n := |s| - 1;
      assert AllDigits(s[..n]) && AllDigits(t[..n]);
      SameDigits(s[..n], t[..n]);
      assert s == s[..n] + [s[n]] && t == t[..n] + [t[n]];
    }
  }

  lemma NotLonger(s: string, t: string)
    requires AllDigits(s) && AllDigits(t) && Value(s) == Value(t)
    requires |t| > 6 ==> t[0] != '0'
    ensures |s| >= 6 ==> |t| <= |s|
  {
    if 6 <= |s| < |t| {
      ValueIsBounded(s);
      ValueIsBounded(t);
      PowerGrows(|s|, |t| - 1);
    }
  }

  /** There is exactly one such text, and it is the one that is written. */
  lemma SixDigitsIff(digits: string, n: nat)
    ensures SixDigits(digits, n) <==> digits == Padded(Digits(n), 6)
  {
    var p := Padded(Digits(n), 6);
    DigitsAreRight(n);
    PaddedIsRight(Digits(n), 6);
    assert SixDigits(p, n);
    if SixDigits(digits, n) {
      NotLonger(digits, p);
      NotLonger(p, digits);
      SameDigits(digits, p);
    }
  }

  lemma NamedIff(name: string, profile: string, item: Item)
    ensures Named(name, profile, item) <==> Placed(profile, item).LeafName() == Some(name)
  {
    if profile == "background_sequence" && item.sequenceIndex.Some? {
      var n := item.sequenceIndex.value;
      SixDigitsIff(Padded(Digits(n), 6), n);
      if digits :| SixDigits(digits, n) && name == digits + "_" + item.artifactId + ".png" {
        SixDigitsIff(digits, n);
      }
    }
  }

  lemma GoesToIff(path: Path, profile: string, item: Item)
    requires Placed(profile, item).LeafName().Some?
    ensures GoesTo(path, profile, item) <==> path == Placed(profile, item).File().path
  {
    NamedIff(Placed(profile, item).LeafName().value, profile, item);
    if |path| == 3 {
      NamedIff(path[2], profile, item);
    }
  }

  lemma {:induction false} InAllPlaced(cohorts: seq<Cohort>, profile: string, item: Item)
    ensures Placed(profile, item) in AllPlaced(cohorts) <==> IsItem(cohorts, profile, item)
  {
    if cohorts != [] {
      var n := |cohorts| - 1;
      var last := cohorts[n];
      InAllPlaced(cohorts[..n], profile, item);
      var placed := InCohort(last.outputProfile, last.items);
      if Placed(profile, item) in placed {
        var k :| 0 <= k < |placed| && placed[k] == Placed(profile, item);
        assert cohorts[n].items[k] == item;
      }
      if c, k :| 0 <= c < |cohorts| && 0 <= k < |cohorts[c].items| && cohorts[c].outputProfile == profile && cohorts[c].items[k] == item {
        if c == n {
          assert placed[k] == Placed(profile, item);
        } else {
          assert cohorts[..n][c].items[k] == item;
        }
      }
    }
  }

  /** A prepared export has exactly these files. */
  lemma WhereFilesGo(cohorts: seq<Cohort>, docs: Documents, path: Path, content: Bytes)
    requires Admissible(AllPlaced(cohorts))
    ensures PreparedFile(path, content) in PlannedFiles(AllPlaced(cohorts), docs) <==> HasFile(cohorts, docs, path, content)
  {
    var placed, file := AllPlaced(cohorts), PreparedFile(path, content);
    PreparedExportsArePlannable(cohorts, docs);
    var all := Sidecars(docs) + ArtifactFiles(placed) + [ManifestFile(docs)];
    assert file in PlannedFiles(placed, docs) <==> file in multiset(PlannedFiles(placed, docs));
    assert file in all <==> file in multiset(all);
    ArtifactsGo(cohorts, path, content);
  }

  lemma ArtifactsGo(cohorts: seq<Cohort>, path: Path, content: Bytes)
    requires LeavesOk(AllPlaced(cohorts))
    ensures PreparedFile(path, content) in ArtifactFiles(AllPlaced(cohorts)) <==>
            exists profile, item :: IsItem(cohorts, profile, item) && GoesTo(path, profile, item) && content == item.content
  {
    var placed, file := AllPlaced(cohorts), PreparedFile(path, content);
    var files := ArtifactFiles(placed);
    if file in files {
      var i :| 0 <= i < |files| && files[i] == file;
      var profile, item := placed[i].profile, placed[i].item;
      assert placed[i] == Placed(profile, item);
      InAllPlaced(cohorts, profile, item);
      GoesToIff(path, profile, item);
      assert IsItem(cohorts, profile, item) && GoesTo(path, profile, item) && content == item.content;
    }
    if profile, item :| IsItem(cohorts, profile, item) && GoesTo(path, profile, item) && content == item.content {
      InAllPlaced(cohorts, profile, item);
      var i :| 0 <= i < |placed| && placed[i] == Placed(profile, item);
      GoesToIff(path, profile, item);
      assert files[i] == file;
    }
  }

  predicate Fixed(path: Path) {
    path in {
      ["approved"], ["approved", "xhs_grid"], ["approved", "talking_head_cover"], ["approved", "background_sequence"],
      ["rejected"], ["manual_review"]}
  }

  /** The directory that an item's file is in. */
  ghost predicate DirectoryOf(cohorts: seq<Cohort>, path: Path, profile: string, item: Item) {
    IsItem(cohorts, profile, item) &&
    match item.status
    case APPROVED => path == ["approved", profile]
    case REJECTED => path == ["rejected", item.inputAssetId]
    case MANUAL_REVIEW => path == ["manual_review", item.inputAssetId]
  }

  /** The export has this directory: a fixed one, or the one of some item's file. */
  ghost predicate HasDirectory(cohorts: seq<Cohort>, path: Path) {
    Fixed(path) || exists profile, item :: DirectoryOf(cohorts, path, profile, item)
  }

  lemma FixedDirectories(path: Path)
    ensures path in AlwaysOn() <==> Fixed(path)
  {
    assert path in AlwaysOn() <==> path in ALWAYS_ON_DIRS;
  }

  lemma FixedAbove(path: Path)
    requires |path| == 1 && path[0] in {"approved", "rejected", "manual_review"}
    ensures Fixed(path)
  {
    assert path == [path[0]];
  }

  lemma WhichDirectoriesOfItems(cohorts: seq<Cohort>, docs: Documents, path: Path)
    requires Admissible(AllPlaced(cohorts))
    ensures path in ExpectedDirectories(PlannedFiles(AllPlaced(cohorts), docs)) <==> HasDirectory(cohorts, path)
  {
    var files := PlannedFiles(AllPlaced(cohorts), docs);
    assert path in ExpectedDirectories(files) <==> Fixed(path) || OnTheWay(path, files) by {
      WhichDirectories(files, path);
      FixedDirectories(path);
    }
    if OnTheWay(path, files) {
      var i :| 0 <= i < |files| && path in Parents(files[i].path);
      InParents(files[i].path, path);
      AboveSomeFile(cohorts, docs, path, files[i]);
    }
    if profile, item :| DirectoryOf(cohorts, path, profile, item) {
      HasItsFile(cohorts, docs, path, profile, item);
    }
  }

  lemma AboveSomeFile(cohorts: seq<Cohort>, docs: Documents, path: Path, file: PreparedFile)
    requires Admissible(AllPlaced(cohorts)) && file in PlannedFiles(AllPlaced(cohorts), docs)
    requires path != [] && |path| < |file.path| && IsPrefix(path, file.path)
    ensures HasDirectory(cohorts, path)
  {
    WhereFilesGo(cohorts, docs, file.path, file.content);
    assert file == PreparedFile(file.path, file.content);
    var profile, item :| IsItem(cohorts, profile, item) && GoesTo(file.path, profile, item) && file.content == item.content;
    assert path[0] == file.path[..|path|][0];
    if |path| == 1 {
      FixedAbove(path);
    } else {
      assert path == [file.path[0], file.path[1]] && DirectoryOf(cohorts, path, profile, item);
    }
  }

  lemma HasItsFile(cohorts: seq<Cohort>, docs: Documents, path: Path, profile: string, item: Item)
    requires Admissible(AllPlaced(cohorts)) && DirectoryOf(cohorts, path, profile, item)
    ensures OnTheWay(path, PlannedFiles(AllPlaced(cohorts), docs))
  {
    var files, placed := PlannedFiles(AllPlaced(cohorts), docs), AllPlaced(cohorts);
    InAllPlaced(cohorts, profile, item);
    var k :| 0 <= k < |placed| && placed[k] == Placed(profile, item);
    var file := placed[k].File();
    GoesToIff(file.path, profile, item);
    WhereFilesGo(cohorts, docs, file.path, file.content);
    assert file == PreparedFile(file.path, file.content);
    var i :| 0 <= i < |files| && files[i] == file;
    assert path == file.path[..2];
    InParents(file.path, path);
  }

  /** The tree of an export has this node at this path. */
  ghost predicate Shows(cohorts: seq<Cohort>, docs: Documents, owner: Owner, path: Path, node: Node) {
    match node
    case Regular(mode, user, links, content) => mode == 0x180 && user == owner && links == 1 && HasFile(cohorts, docs, path, content)
    case Directory(mode, user) => mode == 0x1C0 && user == owner && HasDirectory(cohorts, path)
    case Other(_, _) => false
  }

  lemma {:induction false} FileInTree(files: seq<PreparedFile>, path: Path, content: Bytes)
    requires forall i, j :: 0 <= i < j < |files| ==> files[i].path != files[j].path
    ensures path in ExpectedFiles(files) && ExpectedFiles(files)[path] == content <==> PreparedFile(path, content) in files
  {
    if files != [] {
      var n := |files| - 1;
      FileInTree(files[..n], path, content);
      assert forall f :: f in files <==> f in files[..n] || f == files[n];
      assert forall i :: 0 <= i < n ==> files[..n][i].path != files[n].path;
    }
  }

  lemma PathsDiffer(files: seq<PreparedFile>)
    requires Plannable(files)
    ensures forall i, j :: 0 <= i < j < |files| ==> files[i].path != files[j].path
  {
    forall i, j | 0 <= i < j < |files|
      ensures files[i].path != files[j].path
    {
      assert !IsPrefix(files[i].path, files[j].path);
      assert files[j].path[..|files[j].path|] == files[j].path;
    }
  }

  /** What the tree of an export holds, node by node: private directories and files of one owner, each artifact where its
      status, profile and input asset put it, under its name, with its content; and nothing else. */
  lemma WhatTheTreeShows(cohorts: seq<Cohort>, docs: Documents, owner: Owner, path: Path, node: Node)
    requires Admissible(AllPlaced(cohorts))
    ensures var t := ExpectedTree(PlannedFiles(AllPlaced(cohorts), docs), owner);
            path in t && t[path] == node <==> Shows(cohorts, docs, owner, path, node)
  {
    var files := PlannedFiles(AllPlaced(cohorts), docs);
    var t := ExpectedTree(files, owner);
    PreparedExportsArePlannable(cohorts, docs);
    PathsDiffer(files);
    PlannableTreesAreConsistent(files);
    WhichDirectoriesOfItems(cohorts, docs, path);
    var content := if node.Regular? then node.content else [];
    FileInTree(files, path, content);
    WhereFilesGo(cohorts, docs, path, content);
  }

  // Which exports are accepted

  /** A sequence profile numbers its items, the others do not. */
  ghost predicate Numbered(cohorts: seq<Cohort>) {
    forall c, k :: 0 <= c < |cohorts| && 0 <= k < |cohorts[c].items| ==>
                     (cohorts[c].outputProfile == "background_sequence" <==> cohorts[c].items[k].sequenceIndex.Some?)
  }

  /** These two items have the same id, or go to the same place. */
  ghost predicate Clashes(a: Cohort, i: nat, b: Cohort, j: nat)
    requires i < |a.items| && j < |b.items|
  {
    || a.items[i].artifactId == b.items[j].artifactId
    || exists path :: GoesTo(path, a.outputProfile, a.items[i]) && GoesTo(path, b.outputProfile, b.items[j])
  }

  ghost predicate ClashFree(cohorts: seq<Cohort>) {
    forall c, i, d, j :: 0 <= c <= d < |cohorts| && 0 <= i < |cohorts[c].items| && 0 <= j < |cohorts[d].items| && (c, i) != (d, j) ==>
                           !Clashes(cohorts[c], i, cohorts[d], j)
  }

  /** Where the items of a cohort begin among all. */
  function Start(cohorts: seq<Cohort>, c: nat): nat
    requires c <= |cohorts|
  {
    |AllPlaced(cohorts[..c])|
  }

  lemma StartsInOrder(cohorts: seq<Cohort>, c: nat)
    requires c < |cohorts|
    ensures Start(cohorts, c + 1) == Start(cohorts, c) + |cohorts[c].items|
  {
    assert cohorts[..c + 1][..c] == cohorts[..c];
  }

  lemma {:induction false} LaterStarts(cohorts: seq<Cohort>, c: nat, d: nat)
    requires c < d <= |cohorts|
    ensures Start(cohorts, c) + |cohorts[c].items| <= Start(cohorts, d)
    decreases d
  {
    StartsInOrder(cohorts, d - 1);
    if c < d - 1 {
      LaterStarts(cohorts, c, d - 1);
    }
  }

  lemma PlaceOfItem(cohorts: seq<Cohort>, c: nat, k: nat)
    requires c < |cohorts| && k < |cohorts[c].items|
    ensures Start(cohorts, c) + k < |AllPlaced(cohorts)|
    ensures AllPlaced(cohorts)[Start(cohorts, c) + k] == Placed(cohorts[c].outputProfile, cohorts[c].items[k])
  {
    PlacedPrefix(cohorts, c, k);
    var n := Start(cohorts, c) + k;
    assert AllPlaced(cohorts)[n] == AllPlaced(cohorts)[..n + 1][n];
  }

  lemma {:induction false} ItemAtPlace(cohorts: seq<Cohort>, i: nat) returns (c: nat, k: nat)
    requires i < |AllPlaced(cohorts)|
    ensures c < |cohorts| && k < |cohorts[c].items| && i == Start(cohorts, c) + k
  {
    var n := |cohorts| - 1;
    assert cohorts[..n + 1] == cohorts;
    StartsInOrder(cohorts, n);
    if i < Start(cohorts, n) {
      c, k := ItemAtPlace(cohorts[..n], i);
      assert cohorts[..n][..c] == cohorts[..c];
    } else {
      c, k := n, i - Start(cohorts, n);
    }
  }

  lemma NumberedIff(cohorts: seq<Cohort>)
    ensures LeavesOk(AllPlaced(cohorts)) <==> Numbered(cohorts)
  {
    if LeavesOk(AllPlaced(cohorts)) {
      forall c, k | 0 <= c < |cohorts| && 0 <= k < |cohorts[c].items|
        ensures cohorts[c].outputProfile == "background_sequence" <==> cohorts[c].items[k].sequenceIndex.Some?
      {
        PlaceOfItem(cohorts, c, k);
      }
    }
    if Numbered(cohorts) {
      forall i | 0 <= i < |AllPlaced(cohorts)|
        ensures AllPlaced(cohorts)[i].LeafName().Some?
      {
        var c, k := ItemAtPlace(cohorts, i);
        PlaceOfItem(cohorts, c, k);
      }
    }
  }

  lemma ClashesIff(a: Cohort, i: nat, b: Cohort, j: nat)
    requires i < |a.items| && j < |b.items|
    requires Placed(a.outputProfile, a.items[i]).LeafName().Some? && Placed(b.outputProfile, b.items[j]).LeafName().Some?
    ensures Clashes(a, i, b, j) <==>
              || Placed(a.outputProfile, a.items[i]).File().path == Placed(b.outputProfile, b.items[j]).File().path
              || a.items[i].artifactId == b.items[j].artifactId
  {
    var path := Placed(a.outputProfile, a.items[i]).File().path;
    GoesToIff(path, a.outputProfile, a.items[i]);
    GoesToIff(path, b.outputProfile, b.items[j]);
    if other :| GoesTo(other, a.outputProfile, a.items[i]) && GoesTo(other, b.outputProfile, b.items[j]) {
      GoesToIff(other, a.outputProfile, a.items[i]);
      GoesToIff(other, b.outputProfile, b.items[j]);
    }
  }

  /** An export is accepted exactly when the items of sequences are numbered, those of others are not, and no two items have
      the same id or place. */
  lemma WhichExportsAreAccepted(cohorts: seq<Cohort>)
    ensures Admissible(AllPlaced(cohorts)) <==> Numbered(cohorts) && ClashFree(cohorts)
  {
    NumberedIff(cohorts);
    if LeavesOk(AllPlaced(cohorts)) {
      if Distinct(AllPlaced(cohorts)) {
        forall c, i, d, j | 0 <= c <= d < |cohorts| && 0 <= i < |cohorts[c].items| && 0 <= j < |cohorts[d].items| && (c, i) != (d, j)
          ensures !Clashes(cohorts[c], i, cohorts[d], j)
        {
          DistinctItems(cohorts, c, i, d, j);
        }
      }
      if ClashFree(cohorts) {
        forall m, n | 0 <= m < n < |AllPlaced(cohorts)|
          ensures AllPlaced(cohorts)[m].File().path != AllPlaced(cohorts)[n].File().path
          ensures AllPlaced(cohorts)[m].item.artifactId != AllPlaced(cohorts)[n].item.artifactId
        {
          ItemsApart(cohorts, m, n);
        }
      }
    }
  }

  lemma DistinctItems(cohorts: seq<Cohort>, c: nat, i: nat, d: nat, j: nat)
    requires Admissible(AllPlaced(cohorts)) && c <= d < |cohorts| && i < |cohorts[c].items| && j < |cohorts[d].items|
    requires c != d || i != j
    ensures !Clashes(cohorts[c], i, cohorts[d], j)
  {
    PlaceOfItem(cohorts, c, i);
    PlaceOfItem(cohorts, d, j);
    if c < d {
      LaterStarts(cohorts, c, d);
    }
    ClashesIff(cohorts[c], i, cohorts[d], j);
  }

  lemma ItemsApart(cohorts: seq<Cohort>, m: nat, n: nat)
    requires m < n < |AllPlaced(cohorts)| && ClashFree(cohorts) && LeavesOk(AllPlaced(cohorts))
    ensures AllPlaced(cohorts)[m].File().path != AllPlaced(cohorts)[n].File().path
    ensures AllPlaced(cohorts)[m].item.artifactId != AllPlaced(cohorts)[n].item.artifactId
  {
    var c, i := ItemAtPlace(cohorts, m);
    var d, j := ItemAtPlace(cohorts, n);
    PlaceOfItem(cohorts, c, i);
    PlaceOfItem(cohorts, d, j);
    if d < c {
      LaterStarts(cohorts, d, c);
    }
    ClashesIff(cohorts[c], i, cohorts[d], j);
  }

  // The order of the payload

  /** Texts are compared at the first place where they differ; a beginning comes first. */
  ghost predicate Precedes(a: string, b: string) {
    exists n: nat :: n < |b| && n <= |a| && a[..n] == b[..n] && (n == |a| || a[n] < b[n])
  }

  /** A path as text: here one name, or three. */
  ghost predicate IsText(text: string, path: Path) {
    || (|path| == 1 && text == path[0])
    || (|path| == 3 && text == path[0] + "/" + path[1] + "/" + path[2])
  }

  lemma {:induction false} LessIff(a: string, b: string)
    ensures Less(a, b) <==> Precedes(a, b)
  {
    if a == "" {
      assert b != "" ==> a[..0] == b[..0];
    } else if b != "" {
      LessIff(a[1..], b[1..]);
      if Less(a, b) {
        if a[0] < b[0] {
          assert a[..0] == b[..0];
        } else {
          var n: nat :| n < |b[1..]| && n <= |a[1..]| && a[1..][..n] == b[1..][..n] && (n == |a[1..]| || a[1..][n] < b[1..][n]);
          assert a[..n + 1] == [a[0]] + a[1..][..n] && b[..n + 1] == [b[0]] + b[1..][..n];
        }
      }
      if n: nat :| n < |b| && n <= |a| && a[..n] == b[..n] && (n == |a| || a[n] < b[n]) {
        if n > 0 {
          assert a[0] == a[..n][0] && b[0] == b[..n][0];
          assert a[1..][..n - 1] == a[..n][1..] && b[1..][..n - 1] == b[..n][1..];
        }
      }
    }
  }

  lemma TextIsJoined(text: string, path: Path)
    requires IsText(text, path)
    ensures text == Joined(path)
  {
    if |path| == 3 {
      assert path[1..][1..] == [path[2]];
      assert Joined(path[1..]) == path[1] + "/" + path[2];
      assert path[0] + "/" + path[1] + "/" + path[2] == path[0] + "/" + (path[1] + "/" + path[2]);
    }
  }

  /** Before the manifest the files are listed in the order of their paths as texts. */
  lemma FilesAreListedInOrder(cohorts: seq<Cohort>, docs: Documents, i: nat, j: nat, one: string, other: string)
    requires Admissible(AllPlaced(cohorts))
    requires i < j < |PlannedFiles(AllPlaced(cohorts), docs)| - 1
    requires IsText(one, PlannedFiles(AllPlaced(cohorts), docs)[i].path) && IsText(other, PlannedFiles(AllPlaced(cohorts), docs)[j].path)
    ensures !Precedes(other, one)
    ensures var files := PlannedFiles(AllPlaced(cohorts), docs); files[|files| - 1].path == ["manifest.json"]
  {
    var files := PlannedFiles(AllPlaced(cohorts), docs);
    PreparedExportsArePlannable(cohorts, docs);
    assert files[..|files| - 1][i] == files[i] && files[..|files| - 1][j] == files[j];
    TextIsJoined(one, files[i].path);
    TextIsJoined(other, files[j].path);
    LessIff(other, one);
  }
}
