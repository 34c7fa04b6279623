/** What a verified supply is, spelled out over the fields of the manifests, the approvals and the tree. */
module SupplyLaw {
  import opened BundleInspection
  import opened BundleLayout
  import opened Content
  import opened ExportPlan
  import opened ModelSupply
  import opened Outcomes
  import opened PipelineSupply

  /** The octal digits for the group and for others lack the write bit. */
  predicate OnlyOwnerWrites(mode: nat) {
    mode / 8 % 8 in {0, 1, 4, 5} && mode % 8 in {0, 1, 4, 5}
  }

  predicate Folder(t: Tree, p: Path) {
    p in t && t[p].Directory? && OnlyOwnerWrites(t[p].mode)
  }

  predicate File(t: Tree, p: Path) {
    p in t && t[p].Regular? && OnlyOwnerWrites(t[p].mode)
  }

  ghost predicate HasSuffix(s: string, suffix: string) {
    exists stem :: s == stem + suffix
  }

  ghost predicate LoadableName(name: string) {
    HasSuffix(name, ".safetensors") || HasSuffix(name, ".json") || HasSuffix(name, ".txt") || HasSuffix(name, ".model")
  }

  /** The file is there, as long as listed and with the listed content. */
  ghost predicate Holds(t: Tree, directory: Path, f: WeightFile) {
    && f.path != [] && LoadableName(f.path[|f.path| - 1]) && File(t, directory + f.path)
    && |t[directory + f.path].content| == f.size && Sha256(t[directory + f.path].content) == f.digest
  }

  /** What is below a component: folders, and files that are listed. */
  ghost predicate Expected(t: Tree, directory: Path, files: seq<WeightFile>, p: Path) {
    Folder(t, directory + p) || (File(t, directory + p) && exists f :: f in files && f.path == p)
  }

  /** The manifest claims the digest of all its fields, whatever the order of its files. */
  ghost predicate SealsItself(m: Manifest) {
    && m.seal.OfPayload?
    && var p := m.seal.payload;
       && p.modelId == m.modelId && p.role == m.role && p.revision == m.revision && p.root == m.root && p.entry == m.entry
       && forall f :: f in p.files <==> f in m.files
  }

  /** A component below `root` that matches its manifest. */
  ghost predicate Component(t: Tree, root: Path, m: Manifest) {
    && SealsItself(m)
    && (forall n :: 0 <= n <= |m.root| ==> Folder(t, root + m.root[..n]))
    && (forall p: Path :: p != [] && root + m.root + p in t ==> Expected(t, root + m.root, m.files, p))
    && (forall f :: f in m.files ==> Holds(t, root + m.root, f))
  }

  lemma Half(a: nat, b: nat)
    requires b < 2
    ensures (2 * a + b) / 2 == a && (2 * a + b) % 2 == b
  {
  }

  lemma SecondBit(n: nat)
    ensures n / 2 % 2 == 0 <==> n % 8 in {0, 1, 4, 5}
  {
    var q, d := n / 8, n % 8;
    assert n == 8 * q + d && d == 4 * (d / 4) + 2 * (d / 2 % 2) + d % 2;
    Half(4 * q + 2 * (d / 4) + d / 2 % 2, d % 2);
    Half(2 * q + d / 4, d / 2 % 2);
    assert d / 2 % 2 == 0 <==> d in {0, 1, 4, 5};
  }

  lemma TrustedIff(node: Node)
    ensures Trusted(node) <==> OnlyOwnerWrites(node.mode)
  {
    var mode := node.mode;
    SecondBit(mode);
    SecondBit(mode / 8);
    assert mode / 8 / 2 == mode / 0x10;
  }

  lemma EndsWithIff(s: string, suffix: string)
    ensures EndsWith(s, suffix) <==> HasSuffix(s, suffix)
  {
    if EndsWith(s, suffix) {
      assert s == s[..|s| - |suffix|] + suffix;
    }
  }

  lemma AllowedNameIff(name: string)
    ensures AllowedName(name) <==> LoadableName(name)
  {
    EndsWithIff(name, ".safetensors");
    EndsWithIff(name, ".json");
    EndsWithIff(name, ".txt");
    EndsWithIff(name, ".model");
  }

  lemma {:induction false} TrustedChainIff(t: Tree, base: Path, parts: Path)
    ensures TrustedChain(t, base, parts) <==> forall n :: 1 <= n <= |parts| ==> Folder(t, base + parts[..n])
  {
    if parts != [] {
      var front := parts[..|parts| - 1];
      TrustedChainIff(t, base, front);
      assert forall n :: 1 <= n <= |front| ==> front[..n] == parts[..n];
      assert parts[..|parts|] == parts;
      if base + parts in t { TrustedIff(t[base + parts]); }
    }
  }

  lemma SealsItselfIff(m: Manifest)
    ensures SealsItself(m) <==> m.seal == RootDigest(m)
  {
    if SealsItself(m) {
      assert m.seal.payload.files == PayloadOf(m).files;
    }
  }

  lemma BelowIff(t: Tree, base: Path, p: Path)
    requires p in t
    ensures p in Below(t, base) <==> p != base && base <= p
    ensures base <= p ==> p == base + p[|base|..]
  {
  }

  /** What is listed below a component is what is expected there. */
  lemma ListingIff(t: Tree, base: Path, files: seq<WeightFile>)
    requires forall f :: f in files ==> f.path != []
    requires forall f :: f in files ==> base + f.path in t && t[base + f.path].Regular?
    ensures AllClean(t, Below(t, base)) && Regulars(t, Below(t, base), |base|) == ModelSupply.Paths(files)
       <==> forall p: Path :: p != [] && base + p in t ==> Expected(t, base, files, p)
  {
    var below := Below(t, base);
    if AllClean(t, below) && Regulars(t, below, |base|) == ModelSupply.Paths(files) {
      forall p: Path | p != [] && base + p in t
        ensures Expected(t, base, files, p)
      {
        BelowIff(t, base, base + p);
        TrustedIff(t[base + p]);
        assert (base + p)[|base|..] == p;
        assert t[base + p].Regular? ==> p in Regulars(t, below, |base|);
      }
    }
    if forall p: Path :: p != [] && base + p in t ==> Expected(t, base, files, p) {
      forall q | q in below
        ensures CleanNode(t[q]) && (t[q].Regular? ==> q[|base|..] in ModelSupply.Paths(files))
      {
        BelowIff(t, base, q);
        assert Expected(t, base, files, q[|base|..]);
        TrustedIff(t[q]);
      }
      forall f | f in files
        ensures f.path in Regulars(t, below, |base|)
      {
        BelowIff(t, base, base + f.path);
        assert (base + f.path)[|base|..] == f.path;
      }
    }
  }

  lemma FileOkIff(t: Tree, base: Path, f: WeightFile)
    requires WellFormed(t) && AllClean(t, Below(t, base))
    ensures FileOk(t, base, f) <==> Holds(t, base, f)
  {
    if f.path != [] && base + f.path in t {
      var n := |f.path| - 1;
      AllowedNameIff(f.path[n]);
      TrustedIff(t[base + f.path]);
      TrustedChainIff(t, base, f.path[..n]);
      forall i | 1 <= i <= n
        ensures Folder(t, base + f.path[..n][..i])
      {
        var p := base + f.path;
        var q := base + f.path[..n][..i];
        assert q == p[..|base| + i];
        AncestorsAreDirectories(t, p, |base| + i);
        BelowIff(t, base, q);
        TrustedIff(t[q]);
      }
    }
  }

  /** The components that pass are exactly these. */
  lemma PassingComponents(t: Tree, root: Path, m: Manifest)
    requires WellFormed(t)
    ensures ComponentOk(t, root, m) <==> Component(t, root, m)
  {
    var base := root + m.root;
    SealsItselfIff(m);
    RootAndChain(t, root, m.root);
    if ComponentOk(t, root, m) || Component(t, root, m) {
      forall f | f in m.files
        ensures f.path != [] && base + f.path in t && t[base + f.path].Regular?
      {
        assert ComponentOk(t, root, m) ==> FileOk(t, base, f);
      }
      ListingIff(t, base, m.files);
      forall f | f in m.files
        ensures FileOk(t, base, f) <==> Holds(t, base, f)
      {
        FileOkIff(t, base, f);
      }
    }
  }

  lemma RootAndChain(t: Tree, root: Path, parts: Path)
    ensures TrustedDirectory(t, root) && TrustedChain(t, root, parts) <==> forall n :: 0 <= n <= |parts| ==> Folder(t, root + parts[..n])
  {
    TrustedChainIff(t, root, parts);
    assert root + parts[..0] == root;
    if root in t { TrustedIff(t[root]); }
  }

  // Manifests

  const HEXADECIMAL := {'0', '1', '2', '3', '4', '5', '6', '7', '8', '9', 'a', 'b', 'c', 'd', 'e', 'f'}

  /** A full commit identifier. */
  predicate FullCommit(s: string) {
    |s| in {40, 64} && forall c :: c in s ==> c in HEXADECIMAL
  }

  lemma FullRevisionIff(s: string)
    ensures FullRevision(s) <==> FullCommit(s)
  {
    assert forall c :: c in HEXADECIMAL <==> '0' <= c <= '9' || 'a' <= c <= 'f';
  }

  ghost predicate Lists(m: Manifest, p: Path) {
    exists i :: 0 <= i < |m.files| && m.files[i].path == p
  }

  ghost predicate Weights(p: Path) {
    exists front, name :: p == front + [name] && HasSuffix(name, ".safetensors")
  }

  /** A folder of one name sits in the subfolder of the entrypoint, a longer one in the component. */
  predicate IsEncoderFolder(e: Entrypoint, folder: Path) {
    match e.encoder
    case None => folder == e.subfolder + ["image_encoder"]
    case Some(given) => folder == if |given| == 1 then e.subfolder + given else given
  }

  /** An adapter names weights that it lists, and lists the two files of its image encoder. */
  ghost predicate LoadableAdapter(m: Manifest) {
    && m.entry.weightName.Some?
    && Weights(m.entry.subfolder + m.entry.weightName.value) && Lists(m, m.entry.subfolder + m.entry.weightName.value)
    && exists folder :: IsEncoderFolder(m.entry, folder) && Lists(m, folder + ["config.json"]) && Lists(m, folder + ["model.safetensors"])
  }

  /** A manifest that can be made: nothing is empty, no path is listed twice, and there are weights below the entrypoint. */
  ghost predicate Makeable(m: Manifest) {
    && |m.modelId| > 0 && m.role in [BASE, IP_ADAPTER, CONTROLNET] && FullCommit(m.revision) && |m.root| > 0
    && |m.entry.subfolder| > 0 && m.entry.weightName != Some([]) && m.entry.encoder != Some([]) && m.entry.variant != Some("")
    && (forall i :: 0 <= i < |m.files| ==> |m.files[i].path| > 0)
    && (forall i, j :: 0 <= i < j < |m.files| ==> m.files[i].path != m.files[j].path)
    && (exists p :: Lists(m, p) && Weights(p) && m.entry.subfolder < p)
    && (m.role == IP_ADAPTER ==> LoadableAdapter(m))
  }

  lemma WeightsIff(p: Path)
    ensures SafeTensors(p) <==> Weights(p)
  {
    if p != [] {
      EndsWithIff(p[|p| - 1], ".safetensors");
      assert p == p[..|p| - 1] + [p[|p| - 1]];
    }
  }

  lemma ListsIff(m: Manifest, p: Path)
    ensures p in ModelSupply.Paths(m.files) <==> Lists(m, p)
  {
    if Lists(m, p) {
      var i :| 0 <= i < |m.files| && m.files[i].path == p;
      assert m.files[i] in m.files;
    }
  }

  lemma AdapterIff(m: Manifest)
    requires m.entry.encoder != Some([])
    ensures LoadableAdapter(m) <==>
              && m.entry.weightName.Some? && SafeTensors(m.entry.subfolder + m.entry.weightName.value)
              && m.entry.subfolder + m.entry.weightName.value in ModelSupply.Paths(m.files)
              && {EncoderFolder(m.entry) + ["config.json"], EncoderFolder(m.entry) + ["model.safetensors"]} <= ModelSupply.Paths(m.files)
  {
    var folder := EncoderFolder(m.entry);
    assert forall f :: IsEncoderFolder(m.entry, f) <==> f == folder;
    ListsIff(m, folder + ["config.json"]);
    ListsIff(m, folder + ["model.safetensors"]);
    if m.entry.weightName.Some? {
      WeightsIff(m.entry.subfolder + m.entry.weightName.value);
      ListsIff(m, m.entry.subfolder + m.entry.weightName.value);
    }
  }

  lemma SomeWeightsIff(m: Manifest)
    ensures (exists p :: Lists(m, p) && Weights(p) && m.entry.subfolder < p)
       <==> (exists f | f in m.files :: SafeTensors(f.path) && Under(f.path, m.entry.subfolder))
  {
    if p :| Lists(m, p) && Weights(p) && m.entry.subfolder < p {
      var i :| 0 <= i < |m.files| && m.files[i].path == p;
      WeightsIff(p);
      assert m.files[i] in m.files;
    }
    if f :| f in m.files && SafeTensors(f.path) && Under(f.path, m.entry.subfolder) {
      WeightsIff(f.path);
    }
  }

  /** Exactly these manifests can be constructed. */
  lemma MakeableManifests(m: Manifest)
    ensures Constructible(m) <==> Makeable(m)
  {
    FullRevisionIff(m.revision);
    SomeWeightsIff(m);
    if m.entry.encoder != Some([]) {
      AdapterIff(m);
    }
  }

  // The whole pipeline

  /** The descriptor of the pipeline graph pins this manifest, and may be used in production. */
  ghost predicate Pins(d: Descriptor, m: Manifest) {
    && d.role == m.role && d.modelId == m.modelId && d.revision == m.revision && d.expected == m.seal
    && d.status == LicenseStatus.APPROVED && d.license in ["Apache-2.0", "MIT", "OpenRAIL++-M"] && FullCommit(d.revision)
  }

  /** This manifest, with its claimed digest, is approved under this licence. */
  predicate Approves(a: Approval, m: Manifest, license: string) {
    && a.modelId == m.modelId && a.revision == m.revision && a.license == license
    && m.seal.OfPayload? && a.digest == OfSealed(m.seal.payload, m.seal)
  }

  predicate Apart(a: Path, b: Path) {
    !(a <= b) && !(b <= a)
  }

  /** One model of the supply: pinned, approved, and there. */
  ghost predicate Model(t: Tree, root: Path, r: Request, d: Descriptor, m: Manifest) {
    && m in r.manifests && Pins(d, m) && Component(t, root, m)
    && exists a :: a in r.approvals && Approves(a, m, d.license)
  }

  /** These are the manifests of a supply that is in order. */
  ghost predicate Supplies(k: Kernel, root: Path, r: Request, base: Manifest, adapter: Manifest, control: Manifest) {
    && |r.manifests| == 3 && |r.approvals| == 3
    && base.role == BASE && adapter.role == IP_ADAPTER && control.role == CONTROLNET
    && Model(k.tree, root, r, r.base, base) && Model(k.tree, root, r, r.ipAdapter, adapter)
    && Model(k.tree, root, r, r.controlNet, control)
    && base.modelId != adapter.modelId && base.modelId != control.modelId && adapter.modelId != control.modelId
    && Apart(base.root, adapter.root) && Apart(base.root, control.root) && Apart(adapter.root, control.root)
    && k.identity(root + base.root) != k.identity(root + adapter.root)
    && k.identity(root + base.root) != k.identity(root + control.root)
    && k.identity(root + adapter.root) != k.identity(root + control.root)
  }

  /** Descriptors that may be used in production, whatever their manifest: none of the known placeholders is pinned. */
  lemma ProductionIff(d: Descriptor)
    ensures ForProduction(d) <==>
              && d.status == LicenseStatus.APPROVED && d.license in ["Apache-2.0", "MIT", "OpenRAIL++-M"] && FullCommit(d.revision)
              && d.expected != OfPlaceholder("sdxl-base-1.0") && d.expected != OfPlaceholder("ip-adapter-plus-sdxl")
              && d.expected != OfPlaceholder("controlnet-canny-sdxl") && d.expected != OfPlaceholder("lcm-lora-sdxl")
              && d.expected != OfPlaceholder("style-encoder-clip-vit-l") && d.expected != OfPlaceholder("l3-product-feature-v1")
  {
    FullRevisionIff(d.revision);
  }

  /** The places of the approvals for this model at this revision. */
  function PlacesFor(approvals: seq<Approval>, m: Manifest): set<int> {
    set i | 0 <= i < |approvals| && approvals[i].modelId == m.modelId && approvals[i].revision == m.revision
  }

  /** In any list: the one approval for the model must be for this manifest and licence. */
  lemma OneApproval(approvals: seq<Approval>, m: Manifest, license: string)
    ensures Approved(approvals, m, license) <==>
              exists i :: 0 <= i < |approvals| && PlacesFor(approvals, m) == {i}
                          && approvals[i].digest == OfSealed(PayloadOf(m), m.seal) && approvals[i].license == license
  {
    if Approved(approvals, m, license) {
      var i :| 0 <= i < |approvals| && Matches(approvals[i], m)
               && (forall j | 0 <= j < |approvals| :: Matches(approvals[j], m) ==> j == i)
               && approvals[i].digest == SealedDigest(m) && approvals[i].license == license;
      assert PlacesFor(approvals, m) == {i};
    }
    if i :| 0 <= i < |approvals| && PlacesFor(approvals, m) == {i}
            && approvals[i].digest == OfSealed(PayloadOf(m), m.seal) && approvals[i].license == license {
      assert i in PlacesFor(approvals, m);
      forall j | 0 <= j < |approvals| && Matches(approvals[j], m)
        ensures j == i
      {
        assert j in PlacesFor(approvals, m);
      }
    }
  }

  /** With three approvals for three models, an approval for a model is the only one that matches it. */
  lemma ApprovedIff(r: Request, d: Descriptor, m: Manifest)
    requires |r.approvals| == 3 && m.seal == RootDigest(m)
    requires forall i, j | 0 <= i < j < 3 ::
               r.approvals[i].modelId != r.approvals[j].modelId || r.approvals[i].revision != r.approvals[j].revision
    ensures Approved(r.approvals, m, d.license) <==> exists a :: a in r.approvals && Approves(a, m, d.license)
  {
    if Approved(r.approvals, m, d.license) {
      var i :| 0 <= i < 3 && Matches(r.approvals[i], m)
               && r.approvals[i].digest == SealedDigest(m) && r.approvals[i].license == d.license;
      assert r.approvals[i] in r.approvals && Approves(r.approvals[i], m, d.license);
    } else if a :| a in r.approvals && Approves(a, m, d.license) {
      var i :| 0 <= i < 3 && r.approvals[i] == a;
      assert Matches(r.approvals[i], m);
      assert forall j | 0 <= j < 3 :: Matches(r.approvals[j], m) ==> j == i;
    }
  }

  lemma BoundIff(t: Tree, root: Path, r: Request, d: Descriptor, m: Manifest)
    requires WellFormed(t) && m in r.manifests && m.role == d.role && |r.approvals| == 3
    requires forall i, j | 0 <= i < j < 3 ::
               r.approvals[i].modelId != r.approvals[j].modelId || r.approvals[i].revision != r.approvals[j].revision
    ensures Bound(d, m, r.approvals) && ComponentOk(t, root, m) <==> Model(t, root, r, d, m)
  {
    PassingComponents(t, root, m);
    SealsItselfIff(m);
    FullRevisionIff(d.revision);
    if m.seal == RootDigest(m) {
      ApprovedIff(r, d, m);
    }
  }

  /** Approvals for three models are three approvals. */
  lemma ApprovalsDiffer(r: Request, base: Manifest, adapter: Manifest, control: Manifest, i: nat, j: nat)
    requires |r.approvals| == 3 && i < j < 3
    requires base.modelId != adapter.modelId && base.modelId != control.modelId && adapter.modelId != control.modelId
    requires exists a :: a in r.approvals && a.modelId == base.modelId
    requires exists a :: a in r.approvals && a.modelId == adapter.modelId
    requires exists a :: a in r.approvals && a.modelId == control.modelId
    ensures r.approvals[i].modelId != r.approvals[j].modelId
  {
  }

  /** The first member of a list with one member for each role. */
  lemma {:induction false} OnlyManifest(manifests: seq<Manifest>, m: Manifest)
    requires m in manifests && forall i, j | 0 <= i < j < |manifests| :: manifests[i].role != manifests[j].role
    ensures ManifestFor(manifests, m.role) == m
  {
    if |manifests| > 1 && manifests[0] != m {
      OnlyManifest(manifests[1..], m);
    }
  }

  lemma OneManifestPerRole(r: Request, base: Manifest, adapter: Manifest, control: Manifest)
    requires |r.manifests| == 3 && base in r.manifests && adapter in r.manifests && control in r.manifests
    requires base.role == BASE && adapter.role == IP_ADAPTER && control.role == CONTROLNET
    ensures OnePerRole(r.manifests) && ManifestFor(r.manifests, BASE) == base
    ensures ManifestFor(r.manifests, IP_ADAPTER) == adapter && ManifestFor(r.manifests, CONTROLNET) == control
  {
    assert (set m | m in r.manifests :: m.role) == ROLES;
    OnlyManifest(r.manifests, base);
    OnlyManifest(r.manifests, adapter);
    OnlyManifest(r.manifests, control);
  }

  function RolesOf(manifests: seq<Manifest>): set<Role> {
    set m | m in manifests :: m.role
  }

  lemma {:induction false} RolesAreAsMany(manifests: seq<Manifest>)
    requires forall i, j | 0 <= i < j < |manifests| :: manifests[i].role != manifests[j].role
    ensures |RolesOf(manifests)| == |manifests|
  {
    if manifests != [] {
      var n := |manifests| - 1;
      RolesAreAsMany(manifests[..n]);
      assert RolesOf(manifests) == RolesOf(manifests[..n]) + {manifests[n].role};
    }
  }

  lemma PartsAre(r: Request, base: Manifest, adapter: Manifest, control: Manifest)
    requires ArgumentsOk(r) && base == Parts(r)[0].manifest && adapter == Parts(r)[1].manifest && control == Parts(r)[2].manifest
    ensures base in r.manifests && adapter in r.manifests && control in r.manifests && |r.manifests| == 3
    ensures base.role == BASE && adapter.role == IP_ADAPTER && control.role == CONTROLNET
  {
    var roles := RolesOf(r.manifests);
    RolesAreAsMany(r.manifests);
    assert roles == (set m | m in r.manifests :: m.role);
    assert BASE in roles && IP_ADAPTER in roles && CONTROLNET in roles;
  }

  /** Three models that are in order beside each other. */
  lemma ThreeInOrder(k: Kernel, root: Path, parts: seq<Part>, base: Part, adapter: Part, control: Part)
    requires parts == [base, adapter, control]
    ensures var a, b, c := base.manifest.root, adapter.manifest.root, control.manifest.root;
            SupplyOk(k, root, parts) <==>
              && base.bound && ComponentOk(k.tree, root, base.manifest)
              && adapter.bound && ComponentOk(k.tree, root, adapter.manifest)
              && control.bound && ComponentOk(k.tree, root, control.manifest)
              && Apart(a, b) && Apart(a, c) && Apart(b, c)
              && k.identity(root + a) != k.identity(root + b) && k.identity(root + a) != k.identity(root + c)
              && k.identity(root + b) != k.identity(root + c)
  {
    assert parts[0] == base && parts[1] == adapter && parts[2] == control;
  }

  /** A supply in order is made of these manifests. */
  lemma OrderedSupplies(k: Kernel, root: Path, r: Request, base: Manifest, adapter: Manifest, control: Manifest)
    requires WellFormed(k.tree) && InOrder(k, root, r)
    requires base == Parts(r)[0].manifest && adapter == Parts(r)[1].manifest && control == Parts(r)[2].manifest
    ensures Supplies(k, root, r, base, adapter, control)
  {
    PartsAre(r, base, adapter, control);
    ThreeInOrder(k, root, Parts(r), Parts(r)[0], Parts(r)[1], Parts(r)[2]);
    BoundIff(k.tree, root, r, r.base, base);
    BoundIff(k.tree, root, r, r.ipAdapter, adapter);
    BoundIff(k.tree, root, r, r.controlNet, control);
  }

  lemma ArgumentsInOrder(k: Kernel, root: Path, r: Request, base: Manifest, adapter: Manifest, control: Manifest)
    requires Supplies(k, root, r, base, adapter, control)
    ensures ArgumentsOk(r) && base == Parts(r)[0].manifest && adapter == Parts(r)[1].manifest && control == Parts(r)[2].manifest
  {
    OneManifestPerRole(r, base, adapter, control);
    forall i, j | 0 <= i < j < 3
      ensures r.approvals[i].modelId != r.approvals[j].modelId
    {
      ApprovalsDiffer(r, base, adapter, control, i, j);
    }
  }

  /** These manifests make a supply in order. */
  lemma SuppliesInOrder(k: Kernel, root: Path, r: Request, base: Manifest, adapter: Manifest, control: Manifest)
    requires WellFormed(k.tree) && Supplies(k, root, r, base, adapter, control)
    ensures InOrder(k, root, r) && base == Parts(r)[0].manifest && adapter == Parts(r)[1].manifest && control == Parts(r)[2].manifest
  {
    ArgumentsInOrder(k, root, r, base, adapter, control);
    ThreeInOrder(k, root, Parts(r), Parts(r)[0], Parts(r)[1], Parts(r)[2]);
    BoundIff(k.tree, root, r, r.base, base);
    BoundIff(k.tree, root, r, r.ipAdapter, adapter);
    BoundIff(k.tree, root, r, r.controlNet, control);
  }

  /** Verification is for exactly the supplies described here, and these are the models that it hands out. */
  lemma WhatIsInOrder(k: Kernel, root: Path, r: Request, base: Manifest, adapter: Manifest, control: Manifest)
    requires WellFormed(k.tree)
    ensures Supplies(k, root, r, base, adapter, control) <==>
              InOrder(k, root, r) && base == Parts(r)[0].manifest && adapter == Parts(r)[1].manifest && control == Parts(r)[2].manifest
  {
    if Supplies(k, root, r, base, adapter, control) {
      SuppliesInOrder(k, root, r, base, adapter, control);
    } else if InOrder(k, root, r) && base == Parts(r)[0].manifest && adapter == Parts(r)[1].manifest && control == Parts(r)[2].manifest {
      OrderedSupplies(k, root, r, base, adapter, control);
    }
  }
}
