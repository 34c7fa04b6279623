/** Verifying model component directories against their manifests, and what becomes of the descriptors. */
module ModelSupply {
  import opened Content
  import opened Outcomes
  import opened ExportPlan
  import opened BundleLayout
  import opened BundleInspection

  datatype WeightFile = WeightFile(path: Path, size: nat, digest: Digest)

  datatype Role = BASE | IP_ADAPTER | CONTROLNET | PREVIEW_ADAPTER | STYLE_ENCODER | L3_FEATURE

  /** Where a loader finds a model in its component. The kind of an entrypoint follows from the role of its manifest. */
  datatype Entrypoint = Entrypoint(subfolder: Path, weightName: Option<Path>, encoder: Option<Path>, variant: Option<string>)

  /** `seal` is the digest that the manifest claims to have itself. */
  datatype Manifest = Manifest(modelId: string, role: Role, revision: string, root: Path, entry: Entrypoint,
                               files: seq<WeightFile>, seal: ManifestDigest)

  /** What the digest of a manifest is taken of. The files are sorted by their paths, which all differ: so it is the set of
      the files that counts. */
  datatype Payload = Payload(modelId: string, role: Role, revision: string, root: Path, entry: Entrypoint, files: set<WeightFile>)

  /** SHA-256 of a manifest without and with its claimed digest, and of a placeholder, idealised as injective. */
  datatype ManifestDigest = OfPayload(payload: Payload) | OfSealed(payload: Payload, seal: ManifestDigest) | OfPlaceholder(model: string)

  function PayloadOf(m: Manifest): Payload {
    Payload(m.modelId, m.role, m.revision, m.root, m.entry, set f | f in m.files)
  }

  /** weight_manifest.manifest_root_sha256 */
  function RootDigest(m: Manifest): ManifestDigest {
    OfPayload(PayloadOf(m))
  }

  /** weight_manifest.manifest_sha256 */
  function SealedDigest(m: Manifest): ManifestDigest {
    OfSealed(PayloadOf(m), m.seal)
  }

  /** Neither group nor others may write. */
  predicate Trusted(node: Node) {
    (node.mode / 0x10) % 2 == 0 && (node.mode / 2) % 2 == 0
  }

  predicate TrustedDirectory(t: Tree, p: Path) {
    p in t && t[p].Directory? && Trusted(t[p])
  }

  predicate EndsWith(s: string, suffix: string) {
    |suffix| <= |s| && s[|s| - |suffix|..] == suffix
  }

  predicate AllowedName(name: string) {
    EndsWith(name, ".safetensors") || EndsWith(name, ".json") || EndsWith(name, ".txt") || EndsWith(name, ".model")
  }

  /** A full commit identifier: 40 or 64 lower-case hexadecimal digits. */
  predicate FullRevision(s: string) {
    (|s| == 40 || |s| == 64) && forall c | c in s :: '0' <= c <= '9' || 'a' <= c <= 'f'
  }

  /** weight_manifest.effective_image_encoder_subfolder */
  function EncoderFolder(e: Entrypoint): Path {
    var folder := e.encoder.GetOr(["image_encoder"]);
    if |folder| > 1 then folder else e.subfolder + folder
  }

  predicate SafeTensors(p: Path) {
    p != [] && EndsWith(p[|p| - 1], ".safetensors")
  }

  predicate Named(m: Manifest) {
    forall f | f in m.files :: f.path != []
  }

  /** What WeightManifest.__post_init__ and the constructors of its parts demand, up to the characters of path components. */
  predicate Constructible(m: Manifest) {
    var e := m.entry;
    && m.modelId != "" && m.role in {BASE, IP_ADAPTER, CONTROLNET} && FullRevision(m.revision)
    && m.root != [] && e.subfolder != [] && e.weightName != Some([]) && e.encoder != Some([]) && e.variant != Some("")
    && Named(m) && (forall i, j | 0 <= i < j < |m.files| :: m.files[i].path != m.files[j].path)
    && (exists f | f in m.files :: SafeTensors(f.path) && Under(f.path, e.subfolder))
    && (m.role == IP_ADAPTER ==>
          && e.weightName.Some? && SafeTensors(e.subfolder + e.weightName.value)
          && e.subfolder + e.weightName.value in Paths(m.files)
          && {EncoderFolder(e) + ["config.json"], EncoderFolder(e) + ["model.safetensors"]} <= Paths(m.files))
  }

  function Paths(files: seq<WeightFile>): set<Path> {
    set f | f in files :: f.path
  }

  /** A number above all of these. */
  ghost function Above(numbers: set<int>): (n: nat)
    ensures forall x :: x in numbers ==> x < n
  {
    if x: int :| x in numbers then
      var rest := Above(numbers - {x});
      assert forall y :: y in numbers ==> y == x || y in numbers - {x};
      if x < rest then rest else x + 1
    else 0
  }

  function Earlier(a: nat, b: nat): nat {
    if a < b then a else b
  }

  /** The process: its descriptors, and the nodes they stand for. Whether a call works, and which number a new descriptor
      gets, is decided by its place in the run. */
  class Kernel {
    const tree: Tree
    const identity: Path -> nat
    const works: nat -> bool
    const number: nat -> nat
    var open: map<int, Path>
    var clock: nat

    constructor (tree: Tree, identity: Path -> nat, works: nat -> bool, number: nat -> nat, open: map<int, Path>)
      ensures this.tree == tree && this.identity == identity && this.works == works && this.number == number
      ensures this.open == open && clock == 0
    {
      this.tree, this.identity, this.works, this.number, this.open, this.clock := tree, identity, works, number, open, 0;
    }

    /** None of the calls made in between fails. */
    ghost predicate Smooth(start: nat, end: nat) {
      forall n :: start <= n < end ==> works(n)
    }

    ghost predicate OnlyFails(failing: nat) {
      !works(failing) && forall n :: n != failing ==> works(n)
    }

    /** A step that began at `start` and needs `cost` calls accepts only what is good, when all these calls worked, and refuses
        that only after one of them failed. */
    ghost predicate Ran(start: nat, cost: nat, accepted: bool, good: bool)
      reads this`clock
    {
      && start <= clock
      && (accepted ==> good && clock == start + cost && Smooth(start, clock))
      && (good && !accepted ==> !Smooth(start, Earlier(clock, start + cost)))
    }

    method Call() returns (ok: bool)
      modifies this`clock
      ensures clock == old(clock) + 1 && ok == works(old(clock))
    {
      ok := works(clock);
      clock := clock + 1;
    }

    method Open(p: Path) returns (fd: Option<int>)
      modifies this
      ensures clock == old(clock) + 1 && fd.Some? == works(old(clock))
      ensures fd.None? ==> open == old(open)
      ensures fd.Some? ==> fd.value >= 0 && fd.value !in old(open) && open == old(open)[fd.value := p]
    {
      if works(clock) {
        var free: int := number(clock);
        if free in open {
          assert Above(open.Keys) !in open;
          free :| free >= 0 && free !in open;
        }
        fd := Some(free);
        open := open[free := p];
      } else {
        fd := None;
      }
      clock := clock + 1;
    }

    /** close releases the descriptor even when it reports an error. */
    method Close(fd: int) returns (ok: bool)
      requires fd in open
      modifies this
      ensures open == old(open) - {fd} && clock == old(clock) + 1 && ok == works(old(clock))
    {
      ok := works(clock);
      open, clock := open - {fd}, clock + 1;
    }
  }

  /** weight_manifest._OwnedFd */
  class OwnedFd {
    const kernel: Kernel
    var fd: int

    constructor (kernel: Kernel, fd: int)
      ensures this.kernel == kernel && this.fd == fd
    {
      this.kernel, this.fd := kernel, fd;
    }

    /** __exit__: an error of close is reported only when nothing else went wrong. */
    method Exit(failed: bool) returns (ok: bool)
      requires fd >= 0 ==> fd in kernel.open
      modifies this, kernel
      ensures fd == -1 || old(fd) < 0
      ensures kernel.open == if old(fd) < 0 then old(kernel.open) else old(kernel.open) - {old(fd)}
      ensures kernel.clock == old(kernel.clock) + (if old(fd) < 0 then 0 else 1)
      ensures ok == (!failed && (old(fd) < 0 || kernel.works(old(kernel.clock))))
    {
      if fd < 0 { return !failed; }
      var current := fd;
      fd := -1;
      ok := kernel.Close(current);
      ok := ok && !failed;
    }

    method Replace(replacement: int) returns (ok: bool)
      requires fd >= 0 && fd in kernel.open && replacement >= 0 && replacement in kernel.open && replacement != fd
      modifies this, kernel
      ensures kernel.open == old(kernel.open) - {old(fd)} - (if ok then {} else {replacement})
      ensures fd == if ok then replacement else -1
      ensures kernel.clock == old(kernel.clock) + (if ok then 1 else 2) && ok == kernel.works(old(kernel.clock))
    {
      var current := fd;
      fd := -1;
      ok := kernel.Close(current);
      if ok {
        fd := replacement;
      } else {
        var ignored := kernel.Close(replacement);
      }
    }

    method Release() returns (r: int)
      requires fd >= 0
      modifies this
      ensures r == old(fd) && fd == -1
    {
      r, fd := fd, -1;
    }
  }

  /** weight_manifest._open_child_directory */
  method OpenChildDirectory(k: Kernel, parent: int, name: string) returns (o: Option<int>)
    requires parent in k.open
    modifies k
    ensures o.None? ==> k.open == old(k.open)
    ensures o.Some? ==> o.value >= 0 && o.value !in old(k.open) && k.open == old(k.open)[o.value := old(k.open)[parent] + [name]]
    ensures k.Ran(old(k.clock), 2, o.Some?, TrustedDirectory(k.tree, old(k.open)[parent] + [name]))
  {
    var path := k.open[parent] + [name];
    if path !in k.tree || !k.tree[path].Directory? {
      var refused := k.Call();
      return None;
    }
    var child := k.Open(path);
    if child.None? { return None; }
    var owned := new OwnedFd(k, child.value);
    var stat := k.Call();
    if !stat || !Trusted(k.tree[path]) {
      var failed := owned.Exit(true);
      return None;
    }
    var fd := owned.Release();
    return Some(fd);
  }

  /** Every directory on the way from `base` along `parts` can be trusted. */
  predicate TrustedChain(t: Tree, base: Path, parts: Path) {
    parts == [] || (TrustedChain(t, base, parts[..|parts| - 1]) && TrustedDirectory(t, base + parts))
  }

  lemma {:induction false} ChainPrefix(t: Tree, base: Path, parts: Path, k: nat)
    requires k <= |parts| && TrustedChain(t, base, parts)
    ensures TrustedChain(t, base, parts[..k])
  {
    if k < |parts| {
      ChainPrefix(t, base, parts[..|parts| - 1], k);
      assert parts[..|parts| - 1][..k] == parts[..k];
    } else {
      assert parts[..k] == parts;
    }
  }

  lemma ChainStep(t: Tree, base: Path, parts: Path, i: nat)
    requires i < |parts|
    ensures base + parts[..i] + [parts[i]] == base + parts[..i + 1]
    ensures TrustedChain(t, base, parts[..i + 1]) <==> TrustedChain(t, base, parts[..i]) && TrustedDirectory(t, base + parts[..i + 1])
    ensures TrustedChain(t, base, parts) ==> TrustedDirectory(t, base + parts[..i + 1])
  {
    assert parts[..i + 1][..i] == parts[..i];
    if TrustedChain(t, base, parts) {
      ChainPrefix(t, base, parts, i + 1);
    }
  }

  /** One round of the loop in weight_manifest._open_directory: the child takes the place of its parent. */
  method Descend(k: Kernel, current: OwnedFd, name: string, ghost before: map<int, Path>, ghost here: Path) returns (ok: bool)
    requires current.kernel == k && current.fd >= 0 && current.fd !in before && k.open == before[current.fd := here]
    modifies k, current
    ensures ok ==> current.fd >= 0 && current.fd !in before && k.open == before[current.fd := here + [name]]
    ensures !ok ==> k.open == before
    ensures k.Ran(old(k.clock), 3, ok, TrustedDirectory(k.tree, here + [name]))
  {
    var child := OpenChildDirectory(k, current.fd, name);
    if child.None? {
      var failed := current.Exit(true);
      assert k.open == before;
      return false;
    }
    ok := current.Replace(child.value);
    assert k.open == if ok then before[current.fd := here + [name]] else before;
  }

  /** weight_manifest._open_directory: follows the components, one open descriptor at a time. */
  method OpenDirectory(k: Kernel, parent: int, parts: Path) returns (o: Option<int>)
    requires parent in k.open
    modifies k
    ensures o.None? ==> k.open == old(k.open)
    ensures o.Some? ==> o.value >= 0 && o.value !in old(k.open) && k.open == old(k.open)[o.value := old(k.open)[parent] + parts]
    ensures k.Ran(old(k.clock), 1 + 3 * |parts|, o.Some?, TrustedChain(k.tree, old(k.open)[parent], parts))
  {
    ghost var base, before := k.open[parent], k.open;
    var dup := k.Open(k.open[parent]);
    if dup.None? { return None; }
    var current := new OwnedFd(k, dup.value);
    assert base + parts[..0] == base;
    for i := 0 to |parts|
      invariant current.fd >= 0 && current.fd !in before && k.open == before[current.fd := base + parts[..i]]
      invariant TrustedChain(k.tree, base, parts[..i])
      invariant k.clock == old(k.clock) + 1 + 3 * i && k.Smooth(old(k.clock), k.clock)
      invariant fresh(current) && current.kernel == k
    {
      ChainStep(k.tree, base, parts, i);
      var ok := Descend(k, current, parts[i], before, base + parts[..i]);
      if !ok { return None; }
    }
    assert parts[..|parts|] == parts;
    var fd := current.Release();
    return Some(fd);
  }

  // Listing a component

  /** Only trusted directories and regular files. */
  predicate CleanNode(node: Node) {
    Trusted(node) && !node.Other?
  }

  predicate AllClean(t: Tree, ps: set<Path>) {
    forall p | p in ps :: p in t && CleanNode(t[p])
  }

  /** The regular files among some nodes, by their path below a directory `depth` levels down. */
  function Regulars(t: Tree, ps: set<Path>, depth: nat): set<Path> {
    set p | p in ps && p in t && t[p].Regular? && |p| >= depth :: p[depth..]
  }

  lemma RegularsOfMore(t: Tree, ps: set<Path>, p: Path, qs: set<Path>, depth: nat)
    requires p in t && |p| >= depth
    ensures Regulars(t, ps + {p} + qs, depth)
         == Regulars(t, ps, depth) + (if t[p].Regular? then {p[depth..]} else {}) + Regulars(t, qs, depth)
    ensures AllClean(t, ps + {p} + qs) <==> AllClean(t, ps) && CleanNode(t[p]) && AllClean(t, qs)
  {
    var all := ps + {p} + qs;
    forall r | r in Regulars(t, ps, depth) + (if t[p].Regular? then {p[depth..]} else {}) + Regulars(t, qs, depth)
      ensures r in Regulars(t, all, depth)
    {
      var q :| (q in ps || q in qs || q == p) && q in t && t[q].Regular? && |q| >= depth && q[depth..] == r;
      assert q in all;
    }
  }

  /** How many calls listing these nodes takes: each is examined, and a directory also opened, examined again, listed and
      closed. */
  function Effort(t: Tree, ps: set<Path>): nat {
    |ps| + 4 * |Directories(t, ps)|
  }

  function Directories(t: Tree, ps: set<Path>): set<Path> {
    set p | p in ps && p in t && t[p].Directory?
  }

  lemma EffortOfMore(t: Tree, ps: set<Path>, p: Path, qs: set<Path>)
    requires p in t && p !in ps && p !in qs && ps !! qs
    ensures Effort(t, ps + {p} + qs) == Effort(t, ps) + (if t[p].Directory? then 5 else 1) + Effort(t, qs)
  {
    assert Directories(t, ps + {p} + qs) == Directories(t, ps) + (if t[p].Directory? then {p} else {}) + Directories(t, qs);
  }

  lemma EffortGrows(t: Tree, ps: set<Path>, qs: set<Path>)
    requires ps <= qs
    ensures Effort(t, ps) <= Effort(t, qs)
  {
    assert qs == ps + (qs - ps) && Directories(t, qs) == Directories(t, ps) + Directories(t, qs - ps);
  }

  function CallsOfListing(t: Tree, here: Path): nat {
    1 + Effort(t, Below(t, here))
  }

  /** weight_manifest._listed_files: finds exactly the regular files below the directory, provided that there is nothing but
      trusted directories and regular files. `prefix` is where the directory sits in its component. */
  method ListedFiles(k: Kernel, directory: int, prefix: Path) returns (o: Option<set<Path>>)
    requires directory in k.open && WellFormed(k.tree)
    requires |prefix| <= |k.open[directory]| && prefix == k.open[directory][|k.open[directory]| - |prefix|..]
    modifies k
    ensures k.open == old(k.open)
    ensures var here := old(k.open)[directory];
            && (o.Some? ==> o.value == Regulars(k.tree, Below(k.tree, here), |here| - |prefix|))
            && k.Ran(old(k.clock), CallsOfListing(k.tree, here), o.Some?, AllClean(k.tree, Below(k.tree, here)))
    decreases |Below(k.tree, k.open[directory])|, 1
  {
    ghost var here, start := k.open[directory], k.clock;
    ghost var below := Below(k.tree, here);
    ghost var end, clean := start + CallsOfListing(k.tree, here), AllClean(k.tree, below);
    var list := k.Call();
    if !list { return None; }
    var names := Names(k.tree, k.open[directory]);
    var left: set<string> := names;
    var found: set<Path> := {};
    ghost var seen: set<string>, done: set<Path>, depth := {}, {}, |here| - |prefix|;
    while left != {}
      invariant left <= names && seen == names - left && k.open == old(k.open)
      invariant done == Through(k.tree, here, seen) && AllClean(k.tree, done)
      invariant found == Regulars(k.tree, done, depth) && k.clock == start + 1 + Effort(k.tree, done) && k.Smooth(start, k.clock)
    {
      var name: string :| name in left;
      var more;
      more, done := ListEntry(k, directory, prefix, name, found, here, depth, seen, done, start, clean, end);
      if more.None? { return None; }
      found := more.value;
      seen := seen + {name};
      left := left - {name};
    }
    assert seen == names;
    EveryNodeIsThroughAName(k.tree, here);
    return Some(found);
  }

  /** The regular files at and below a node. */
  function Listed(t: Tree, path: Path, relative: Path): set<Path>
    requires path in t && |relative| <= |path|
  {
    if t[path].Regular? then {relative} else Regulars(t, Below(t, path), |path| - |relative|)
  }

  function CallsOfEntry(t: Tree, path: Path): nat
    requires path in t
  {
    (if t[path].Directory? then 5 else 1) + Effort(t, Below(t, path))
  }

  /** What examining one more entry changes, beside the nodes `done` seen through other entries. */
  lemma EntryStep(t: Tree, here: Path, depth: nat, prefix: Path, seen: set<string>, name: string, done: set<Path>)
    returns (done': set<Path>, clean: bool)
    requires WellFormed(t) && name in Names(t, here) && name !in seen && depth + |prefix| == |here| && prefix == here[depth..]
    requires done == Through(t, here, seen) && AllClean(t, done)
    ensures here + [name] in t && |Below(t, here + [name])| < |Below(t, here)|
    ensures prefix + [name] == (here + [name])[|here + [name]| - |prefix + [name]|..]
    ensures !t[here + [name]].Directory? ==> Below(t, here + [name]) == {}
    ensures done' == Through(t, here, seen + {name})
    ensures clean == (CleanNode(t[here + [name]]) && AllClean(t, Below(t, here + [name]))) == AllClean(t, done')
    ensures AllClean(t, Below(t, here)) ==> clean
    ensures Regulars(t, done', depth) == Regulars(t, done, depth) + Listed(t, here + [name], prefix + [name])
    ensures Effort(t, done') == Effort(t, done) + CallsOfEntry(t, here + [name]) <= Effort(t, Below(t, here))
  {
    var path := here + [name];
    OneEntry(t, here, seen, name);
    done', clean := done + {path} + Below(t, path), CleanNode(t[path]) && AllClean(t, Below(t, path));
    assert AllClean(t, Below(t, here)) ==> clean by {
      CleanBelow(t, here, name);
    }
    assert prefix + [name] == path[|path| - |prefix + [name]|..] by {
      SuffixOfMore(here, name, |prefix|);
    }
    EntryFound(t, here, depth, prefix, name, done);
    EntryEffort(t, here, seen, name, done, done');
  }

  lemma EntryFound(t: Tree, here: Path, depth: nat, prefix: Path, name: string, done: set<Path>)
    requires here + [name] in t && depth + |prefix| == |here| && prefix == here[depth..]
    ensures var done' := done + {here + [name]} + Below(t, here + [name]);
            && Regulars(t, done', depth) == Regulars(t, done, depth) + Listed(t, here + [name], prefix + [name])
                + (if t[here + [name]].Regular? then Regulars(t, Below(t, here + [name]), depth) else {})
            && (AllClean(t, done') <==> AllClean(t, done) && CleanNode(t[here + [name]]) && AllClean(t, Below(t, here + [name])))
  {
    RegularsOfMore(t, done, here + [name], Below(t, here + [name]), depth);
    SuffixOfMore(here, name, |prefix|);
  }

  lemma EntryEffort(t: Tree, here: Path, seen: set<string>, name: string, done: set<Path>, done': set<Path>)
    requires here + [name] in t && name !in seen && done == Through(t, here, seen)
    requires done' == done + {here + [name]} + Below(t, here + [name]) == Through(t, here, seen + {name})
    ensures Effort(t, done') == Effort(t, done) + CallsOfEntry(t, here + [name]) <= Effort(t, Below(t, here))
  {
    EffortOfMore(t, done, here + [name], Below(t, here + [name]));
    EffortGrows(t, done', Below(t, here));
  }

  /** One round of the loop of a listing that began at `start` and ends at `end` if nothing fails and all is clean. */
  method ListEntry(k: Kernel, directory: int, prefix: Path, name: string, found: set<Path>, ghost here: Path, ghost depth: nat,
                   ghost seen: set<string>, ghost done: set<Path>, ghost start: nat, ghost clean: bool, ghost end: nat)
    returns (o: Option<set<Path>>, ghost done': set<Path>)
    requires directory in k.open && k.open[directory] == here && WellFormed(k.tree)
    requires depth + |prefix| == |here| && prefix == here[depth..]
    requires name in Names(k.tree, here) && name !in seen
    requires done == Through(k.tree, here, seen) && AllClean(k.tree, done)
    requires found == Regulars(k.tree, done, depth) && k.clock == start + 1 + Effort(k.tree, done) && k.Smooth(start, k.clock)
    requires clean == AllClean(k.tree, Below(k.tree, here)) && end == start + CallsOfListing(k.tree, here)
    modifies k
    ensures k.open == old(k.open) && k.clock >= old(k.clock)
    ensures done' == Through(k.tree, here, seen + {name})
    ensures o.Some? ==>
              && AllClean(k.tree, done') && o.value == Regulars(k.tree, done', depth)
              && k.clock == start + 1 + Effort(k.tree, done') && k.Smooth(start, k.clock)
    ensures o.None? && clean ==> !k.Smooth(start, Earlier(k.clock, end))
    decreases |Below(k.tree, here)|, 0
  {
    ghost var before, cleanEntry := k.clock, false;
    done', cleanEntry := EntryStep(k.tree, here, depth, prefix, seen, name, done);
    o := ListNode(k, directory, name, prefix + [name]);
    if o.Some? {
      o := Some(found + o.value);
    } else {
      assert clean ==> !k.Smooth(before, Earlier(k.clock, end));
    }
  }

  /** What one entry contributes. */
  method ListNode(k: Kernel, directory: int, name: string, relative: Path) returns (o: Option<set<Path>>)
    requires directory in k.open && WellFormed(k.tree)
    requires |relative| <= |k.open[directory]| + 1 && k.open[directory] + [name] in k.tree
    requires !k.tree[k.open[directory] + [name]].Directory? ==> Below(k.tree, k.open[directory] + [name]) == {}
    requires relative == (k.open[directory] + [name])[|k.open[directory] + [name]| - |relative|..]
    modifies k
    ensures k.open == old(k.open)
    ensures var path := old(k.open)[directory] + [name];
            && (o.Some? ==> o.value == Listed(k.tree, path, relative))
            && k.Ran(old(k.clock), CallsOfEntry(k.tree, path), o.Some?, CleanNode(k.tree[path]) && AllClean(k.tree, Below(k.tree, path)))
    decreases |Below(k.tree, k.open[directory] + [name])|, 3
  {
    var path := k.open[directory] + [name];
    var stat := k.Call();
    if !stat || !Trusted(k.tree[path]) || k.tree[path].Other? { return None; }
    if k.tree[path].Regular? {
      return Some({relative});
    }
    o := ListChild(k, directory, name, relative);
  }

  /** The directory branch of the loop. */
  method ListChild(k: Kernel, directory: int, name: string, relative: Path) returns (o: Option<set<Path>>)
    requires directory in k.open && WellFormed(k.tree)
    requires |relative| <= |k.open[directory]| + 1
    requires relative == (k.open[directory] + [name])[|k.open[directory] + [name]| - |relative|..]
    modifies k
    ensures k.open == old(k.open)
    ensures var path := old(k.open)[directory] + [name];
            && (o.Some? ==> o.value == Regulars(k.tree, Below(k.tree, path), |path| - |relative|))
            && k.Ran(old(k.clock), 3 + CallsOfListing(k.tree, path), o.Some?,
                     TrustedDirectory(k.tree, path) && AllClean(k.tree, Below(k.tree, path)))
    decreases |Below(k.tree, k.open[directory] + [name])|, 2
  {
    ghost var before := k.open;
    var child := OpenChildDirectory(k, directory, name);
    if child.None? { return None; }
    var owned := new OwnedFd(k, child.value);
    o := ListedFiles(k, owned.fd, relative);
    var closed := owned.Exit(o.None?);
    assert k.open == before;
    if !closed { return None; }
  }

  lemma SuffixOfMore(here: Path, name: string, n: nat)
    requires n <= |here|
    ensures (here + [name])[|here| - n..] == here[|here| - n..] + [name]
  {
  }

  lemma CleanBelow(t: Tree, here: Path, name: string)
    requires WellFormed(t) && here + [name] in t
    ensures AllClean(t, Below(t, here)) ==> CleanNode(t[here + [name]]) && AllClean(t, Below(t, here + [name]))
  {
    var path := here + [name];
    assert path[..|here|] == here && path in Below(t, here);
    forall p | p in Below(t, path)
      ensures p in Below(t, here)
    {
      assert p[..|path|][..|here|] == p[..|here|];
    }
  }

  // Reading files

  /** The file is what the manifest says: an allowed format, regular, trusted, with the right size and content. */
  predicate FileOk(t: Tree, base: Path, f: WeightFile) {
    var p := base + f.path;
    && f.path != [] && AllowedName(f.path[|f.path| - 1])
    && TrustedChain(t, base, f.path[..|f.path| - 1])
    && p in t && t[p].Regular? && Trusted(t[p]) && |t[p].content| == f.size && Sha256(t[p].content) == f.digest
  }

  /** How many reads it takes to find the end of a file. */
  function Reads(size: nat): (n: nat)
    ensures n >= 1
  {
    if size == 0 then 1 else 1 + Reads(if size > READ_BLOCK then size - READ_BLOCK else 0)
  }

  function CallsOfReading(f: WeightFile): nat {
    var directories := if f.path == [] then 0 else |f.path| - 1;
    1 + 3 * directories + 2 + Reads(f.size) + 2
  }

  function CallsOfFiles(files: seq<WeightFile>): nat {
    if files == [] then 0 else CallsOfFiles(files[..|files| - 1]) + CallsOfReading(files[|files| - 1])
  }

  /** The read loop of weight_manifest._read_and_hash. */
  method ReadAll(k: Kernel, p: Path) returns (o: Option<Bytes>)
    requires p in k.tree && k.tree[p].Regular?
    modifies k`clock
    ensures o.Some? ==> o.value == k.tree[p].content
    ensures k.Ran(old(k.clock), Reads(|k.tree[p].content|), o.Some?, true)
  {
    var content, offset := k.tree[p].content, 0;
    var more := true;
    while more
      invariant offset <= |content|
      invariant !more ==> offset == |content|
      invariant k.clock >= old(k.clock) && k.Smooth(old(k.clock), k.clock)
      invariant old(k.clock) + Reads(|content|) == k.clock + (if more then Reads(|content| - offset) else 0)
      decreases |content| - offset, more
    {
      var read := k.Call();
      if !read { return None; }
      more := offset < |content|;
      offset := if |content| - offset > READ_BLOCK then offset + READ_BLOCK else |content|;
    }
    return Some(content[..offset]);
  }

  predicate FilesOk(t: Tree, base: Path, files: seq<WeightFile>) {
    forall f | f in files :: FileOk(t, base, f)
  }

  lemma {:induction false} CallsOfFirstFiles(files: seq<WeightFile>, n: nat)
    requires n <= |files|
    ensures CallsOfFiles(files[..n]) <= CallsOfFiles(files)
    decreases |files| - n
  {
    if n < |files| {
      assert files[..n + 1][..n] == files[..n];
      CallsOfFirstFiles(files, n + 1);
    } else {
      assert files[..n] == files;
    }
  }

  lemma MoreFilesOk(t: Tree, base: Path, files: seq<WeightFile>, last: WeightFile)
    ensures FilesOk(t, base, files + [last]) <==> FilesOk(t, base, files) && FileOk(t, base, last)
  {
    assert forall f :: f in files + [last] <==> f in files || f == last;
  }

  lemma OneMoreFile(t: Tree, base: Path, files: seq<WeightFile>, i: nat)
    requires i < |files|
    ensures FilesOk(t, base, files[..i + 1]) <==> FilesOk(t, base, files[..i]) && FileOk(t, base, files[i])
    ensures FilesOk(t, base, files) ==> FileOk(t, base, files[i])
  {
    var f := files[i];
    assert f in files && files[..i + 1] == files[..i] + [f];
    MoreFilesOk(t, base, files[..i], f);
  }

  lemma CallsOfOneMore(files: seq<WeightFile>, i: nat)
    requires i < |files|
    ensures CallsOfFiles(files[..i + 1]) == CallsOfFiles(files[..i]) + CallsOfReading(files[i]) <= CallsOfFiles(files)
  {
    assert files[i] in files && files[..i + 1][..i] == files[..i];
    CallsOfFirstFiles(files, i + 1);
  }

  /** weight_manifest._read_and_hash */
  method ReadAndHash(k: Kernel, component: int, f: WeightFile) returns (ok: bool)
    requires component in k.open && f.path != []
    modifies k
    ensures k.open == old(k.open)
    ensures k.Ran(old(k.clock), CallsOfReading(f), ok, FileOk(k.tree, old(k.open)[component], f))
  {
    ghost var base, before := k.open[component], k.open;
    var n := |f.path| - 1;
    assert base + f.path[..n] + [f.path[n]] == base + f.path;
    if !AllowedName(f.path[n]) { return false; }
    var directory := OpenDirectory(k, component, f.path[..n]);
    if directory.None? { return false; }
    var owned := new OwnedFd(k, directory.value);
    ok := ReadFrom(k, owned.fd, f);
    ok := owned.Exit(!ok);
    assert k.open == before;
  }

  method ReadFrom(k: Kernel, directory: int, f: WeightFile) returns (ok: bool)
    requires directory in k.open && f.path != []
    modifies k
    ensures k.open == old(k.open)
    ensures var p := old(k.open)[directory] + [f.path[|f.path| - 1]];
            var good := p in k.tree && k.tree[p].Regular? && Trusted(k.tree[p])
                        && |k.tree[p].content| == f.size && Sha256(k.tree[p].content) == f.digest;
            k.Ran(old(k.clock), 3 + Reads(f.size), ok, good)
  {
    ghost var before := k.open;
    var p := k.open[directory] + [f.path[|f.path| - 1]];
    if p !in k.tree || k.tree[p].Other? {
      var refused := k.Call();
      return false;
    }
    var fd := k.Open(p);
    if fd.None? { return false; }
    var owned := new OwnedFd(k, fd.value);
    var stat := k.Call();
    ok := stat && Trusted(k.tree[p]) && k.tree[p].Regular?;
    if ok && |k.tree[p].content| == f.size {
      var data := ReadAll(k, p);
      ok := data.Some? && Sha256(data.value) == f.digest;
    } else {
      ok := false;
    }
    ok := owned.Exit(!ok);
    assert k.open == before;
  }

  // One component

  /** The component directory is exactly what the manifest says. */
  predicate ComponentOk(t: Tree, root: Path, m: Manifest) {
    && TrustedDirectory(t, root) && m.seal == RootDigest(m) && TrustedChain(t, root, m.root)
    && AllClean(t, Below(t, root + m.root))
    && Regulars(t, Below(t, root + m.root), |root + m.root|) == Paths(m.files)
    && FilesOk(t, root + m.root, m.files)
  }

  /** The contents of the regular files below a directory. */
  function FilesIn(t: Tree, directory: Path): map<Path, Bytes> {
    map p | p in Regulars(t, Below(t, directory), |directory|) && directory + p in t && t[directory + p].Regular? ::
      t[directory + p].content
  }

  /** The digest that a manifest claims decides every file of the component: in whatever trees components pass under
      manifests that claim the same digest, they hold the same files with the same contents. */
  lemma DigestFixesTheFiles(t: Tree, root: Path, m: Manifest, t': Tree, root': Path, m': Manifest)
    requires ComponentOk(t, root, m) && ComponentOk(t', root', m') && m.seal == m'.seal
    ensures FilesIn(t, root + m.root) == FilesIn(t', root' + m'.root) && FilesIn(t, root + m.root).Keys == Paths(m.files)
    ensures forall p :: p in Paths(m.files) ==>
                          && root + m.root + p in t && t[root + m.root + p].Regular?
                          && FilesIn(t, root + m.root)[p] == t[root + m.root + p].content
  {
    SameFiles(m, m');
    forall f | f in m.files
      ensures f in m'.files
      ensures f.path in FilesIn(t, root + m.root) && f.path in FilesIn(t', root' + m'.root)
      ensures FilesIn(t, root + m.root)[f.path] == FilesIn(t', root' + m'.root)[f.path]
    {
      assert FileOk(t, root + m.root, f) && FileOk(t', root' + m'.root, f);
    }
    assert Paths(m.files) == Paths(m'.files);
  }

  lemma SameFiles(m: Manifest, m': Manifest)
    requires RootDigest(m) == RootDigest(m')
    ensures forall f :: f in m.files <==> f in m'.files
  {
    var files, files' := PayloadOf(m).files, PayloadOf(m').files;
    assert files == files';
    assert forall f :: f in m.files <==> f in files;
    assert forall f :: f in m'.files <==> f in files';
  }

  /** How many calls it takes to find that. */
  function CallsOfComponent(t: Tree, root: Path, m: Manifest): nat {
    2 + 3 * |m.root| + CallsOfListing(t, root + m.root) + CallsOfFiles(m.files)
  }

  /** weight_manifest._verify_component with keep_open: accepts exactly the trees that match the manifest, and then hands
      out one descriptor for the component directory; otherwise every descriptor it opened is closed again. */
  method VerifyComponent(k: Kernel, root: int, m: Manifest) returns (o: Option<int>)
    requires root in k.open && WellFormed(k.tree) && Named(m)
    modifies k
    ensures o.None? ==> k.open == old(k.open)
    ensures o.Some? ==> o.value >= 0 && o.value !in old(k.open) && k.open == old(k.open)[o.value := old(k.open)[root] + m.root]
    ensures k.Ran(old(k.clock), CallsOfComponent(k.tree, old(k.open)[root], m), o.Some?, ComponentOk(k.tree, old(k.open)[root], m))
  {
    ghost var before := k.open;
    var p := k.open[root];
    var stat := k.Call();
    if !stat || !TrustedDirectory(k.tree, p) || RootDigest(m) != m.seal { return None; }
    var component := OpenDirectory(k, root, m.root);
    if component.None? { return None; }
    var owned := new OwnedFd(k, component.value);
    var ok := CheckContents(k, owned.fd, m);
    if !ok {
      var failed := owned.Exit(true);
      assert k.open == before;
      return None;
    }
    var fd := owned.Release();
    return Some(fd);
  }

  method CheckContents(k: Kernel, component: int, m: Manifest) returns (ok: bool)
    requires component in k.open && WellFormed(k.tree) && Named(m)
    modifies k
    ensures k.open == old(k.open)
    ensures var base := old(k.open)[component];
            var good := && AllClean(k.tree, Below(k.tree, base))
                        && Regulars(k.tree, Below(k.tree, base), |base|) == Paths(m.files)
                        && FilesOk(k.tree, base, m.files);
            k.Ran(old(k.clock), CallsOfListing(k.tree, base) + CallsOfFiles(m.files), ok, good)
  {
    var actual := ListedFiles(k, component, []);
    if actual.None? || actual.value != Paths(m.files) { return false; }
    ok := ReadFiles(k, component, m.files);
  }

  /** The loop over the listed files. */
  method ReadFiles(k: Kernel, component: int, files: seq<WeightFile>) returns (ok: bool)
    requires component in k.open && forall f :: f in files ==> f.path != []
    modifies k
    ensures k.open == old(k.open)
    ensures k.Ran(old(k.clock), CallsOfFiles(files), ok, FilesOk(k.tree, old(k.open)[component], files))
  {
    ghost var base := k.open[component];
    for i := 0 to |files|
      invariant k.open == old(k.open) && k.open[component] == base && k.clock == old(k.clock) + CallsOfFiles(files[..i])
      invariant FilesOk(k.tree, base, files[..i]) && k.Smooth(old(k.clock), k.clock)
    {
      OneMoreFile(k.tree, base, files, i);
      CallsOfOneMore(files, i);
      ok := ReadAndHash(k, component, files[i]);
      if !ok { return; }
    }
    assert files[..|files|] == files;
    ok := true;
  }
}
