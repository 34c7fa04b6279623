/** Supplies whose verification fails and leaks a descriptor: three manifests that can be constructed, one component that
    is in order, and one failing call. */
module SupplyExample {
  import opened BundleInspection
  import opened BundleLayout
  import opened Content
  import opened ExportPlan
  import opened ModelSupply
  import opened Outcomes
  import opened PipelineSupply

  /** The root of the supply, the directory of its first component, and the one file there. */
  function SupplyTree(node: Node, name: string, content: Bytes): Tree {
    map[["r"] := node, ["r", "a"] := node, ["r", "a", "u"] := node,
        ["r", "a", "u", name] := Regular(FILE_MODE, node.owner, 1, content)]
  }

  function Weights(name: string, content: Bytes): WeightFile {
    WeightFile(["u", name], |content|, Sha256(content))
  }

  function EncoderFile(name: string): WeightFile {
    WeightFile(["u", "image_encoder", name], 0, Sha256([]))
  }

  function Sealed(m: Manifest): Manifest {
    m.(seal := RootDigest(m))
  }

  function PlainManifest(role: Role, revision: string, root: string, w: WeightFile): Manifest {
    Sealed(Manifest(root, role, revision, [root], Entrypoint(["u"], None, None, None), [w], OfPlaceholder("")))
  }

  function AdapterManifest(revision: string, root: string, w: WeightFile, name: string): Manifest {
    Sealed(Manifest(root, IP_ADAPTER, revision, [root], Entrypoint(["u"], Some([name]), None, None),
                    [w, EncoderFile("config.json"), EncoderFile("model.safetensors")], OfPlaceholder("")))
  }

  function DescriptorOf(m: Manifest): Descriptor {
    Descriptor(m.modelId, m.role, m.revision, m.seal, "MIT", LicenseStatus.APPROVED)
  }

  function ApprovalOf(m: Manifest, license: string): Approval {
    Approval(m.modelId, m.revision, SealedDigest(m), license)
  }

  /** The adapter is approved, but under another licence than its descriptor names. */
  function RequestFor(base: Manifest, adapter: Manifest, control: Manifest): Request {
    Request(DescriptorOf(base), DescriptorOf(adapter), DescriptorOf(control), [base, adapter, control],
            [ApprovalOf(base, "MIT"), ApprovalOf(adapter, "Apache-2.0"), ApprovalOf(control, "MIT")])
  }

  lemma PlainIsConstructible(role: Role, revision: string, root: string, w: WeightFile, name: string)
    requires role in {BASE, CONTROLNET} && FullRevision(revision) && root != "" && w.path == ["u", name] && SafeTensors(w.path)
    ensures Constructible(PlainManifest(role, revision, root, w))
  {
    var m := PlainManifest(role, revision, root, w);
    assert w in m.files && w.path[..1] == ["u"];
  }

  lemma AdapterIsConstructible(revision: string, root: string, w: WeightFile, name: string)
    requires FullRevision(revision) && root != "" && w.path == ["u", name] && SafeTensors(w.path)
    ensures Constructible(AdapterManifest(revision, root, w, name))
  {
    var m := AdapterManifest(revision, root, w, name);
    var config, model := EncoderFile("config.json"), EncoderFile("model.safetensors");
    assert w in m.files && config in m.files && model in m.files && w.path[..1] == ["u"];
    assert ["u"] + [name] == w.path;
    assert EncoderFolder(m.entry) == ["u", "image_encoder"];
    assert EncoderFolder(m.entry) + ["config.json"] == config.path && EncoderFolder(m.entry) + ["model.safetensors"] == model.path;
    assert config.path[2] != model.path[2] by {
      assert |config.path[2]| == 11 && |model.path[2]| == 17;
    }
  }

  lemma ArgumentsAreOk(base: Manifest, adapter: Manifest, control: Manifest)
    requires base.role == BASE && adapter.role == IP_ADAPTER && control.role == CONTROLNET
    requires base.modelId != adapter.modelId && base.modelId != control.modelId && adapter.modelId != control.modelId
    ensures ArgumentsOk(RequestFor(base, adapter, control))
  {
    var ms := RequestFor(base, adapter, control).manifests;
    assert (set m | m in ms :: m.role) == ROLES by {
      assert base in ms && adapter in ms && control in ms;
    }
  }

  lemma OnlyTheAdapterIsUnbound(base: Manifest, adapter: Manifest, control: Manifest)
    requires base.role == BASE && adapter.role == IP_ADAPTER && control.role == CONTROLNET
    requires base.modelId != adapter.modelId && base.modelId != control.modelId && adapter.modelId != control.modelId
    requires FullRevision(base.revision) && !base.seal.OfPlaceholder?
    ensures var r := RequestFor(base, adapter, control);
            Parts(r)[0] == Part(base, true) && Parts(r)[1] == Part(adapter, false) && Parts(r)[2].manifest == control
  {
    var r := RequestFor(base, adapter, control);
    var approvals := r.approvals;
    assert r.manifests[0] == base && r.manifests[1] == adapter && r.manifests[2] == control;
    assert Matches(approvals[0], base) && !Matches(approvals[1], base) && !Matches(approvals[2], base);
    assert Matches(approvals[1], adapter);
    assert |"MIT"| != |"Apache-2.0"|;
  }

  lemma TreeIsWellFormed(node: Node, name: string, content: Bytes)
    requires node.Directory?
    ensures WellFormed(SupplyTree(node, name, content))
  {
    var t := SupplyTree(node, name, content);
    forall p | p in t
      ensures InItsDirectory(t, p)
    {
      assert ["r", "a"][..1] == ["r"] && ["r", "a", "u"][..2] == ["r", "a"] && ["r", "a", "u", name][..3] == ["r", "a", "u"];
    }
  }

  lemma OneTrustedDirectory(t: Tree, base: Path, name: string)
    requires TrustedDirectory(t, base + [name])
    ensures TrustedChain(t, base, [name])
  {
    var parts := [name];
    assert parts[..|parts| - 1] == [];
    assert TrustedChain(t, base, []);
  }

  lemma ComponentIsInOrder(node: Node, name: string, content: Bytes, m: Manifest)
    requires node.Directory? && Trusted(node) && AllowedName(name)
    requires m.root == ["a"] && m.files == [Weights(name, content)] && m.seal == RootDigest(m)
    ensures ComponentOk(SupplyTree(node, name, content), ["r"], m)
  {
    var t, here, w := SupplyTree(node, name, content), ["r", "a"], Weights(name, content);
    assert ["r"] + ["a"] == here;
    OneTrustedDirectory(t, ["r"], "a");
    var inner, file := ["r", "a", "u"], ["r", "a", "u", name];
    assert Below(t, here) == {inner, file} by {
      assert inner[..2] == here && file[..2] == here;
    }
    assert file[2..] == w.path;
    assert Regulars(t, Below(t, here), 2) == {w.path} by {
      assert file in Below(t, here) && t[file].Regular?;
    }
    assert ModelSupply.Paths(m.files) == {w.path};
    assert here + ["u"] == inner;
    OneTrustedDirectory(t, here, "u");
    assert w.path[..|w.path| - 1] == ["u"];
    assert here + w.path == file;
  }

  lemma RootsDiffer(parts: seq<Part>)
    requires |parts| == 3
    requires parts[0].manifest.root == ["a"] && parts[1].manifest.root == ["b"] && parts[2].manifest.root == ["c"]
    ensures NonOverlapping(parts)
  {
    forall i, j | 0 <= i < j < 3
      ensures !IsPrefix(parts[i].manifest.root, parts[j].manifest.root) && !IsPrefix(parts[j].manifest.root, parts[i].manifest.root)
    {
      assert parts[i].manifest.root[0] != parts[j].manifest.root[0];
    }
  }

  function ExampleRequest(name: string, content: Bytes, revision: string): Request {
    var w := Weights(name, content);
    RequestFor(PlainManifest(BASE, revision, "a", w), AdapterManifest(revision, "b", w, name), PlainManifest(CONTROLNET, revision, "c", w))
  }

  lemma ExampleIsConstructible(name: string, content: Bytes, revision: string, m: Manifest)
    requires EndsWith(name, ".safetensors") && FullRevision(revision) && m in ExampleRequest(name, content, revision).manifests
    ensures Constructible(m)
  {
    var w := Weights(name, content);
    match m.role
    case IP_ADAPTER => AdapterIsConstructible(revision, "b", w, name);
    case BASE => PlainIsConstructible(BASE, revision, "a", w, name);
    case _ => PlainIsConstructible(CONTROLNET, revision, "c", w, name);
  }

  lemma ExampleStops(node: Node, name: string, content: Bytes, revision: string)
    requires node.Directory? && Trusted(node) && EndsWith(name, ".safetensors") && FullRevision(revision)
    ensures var r := ExampleRequest(name, content, revision);
            ArgumentsOk(r) && StopsAtSecond(SupplyTree(node, name, content), ["r"], Parts(r))
  {
    var w := Weights(name, content);
    var base, adapter, control := PlainManifest(BASE, revision, "a", w), AdapterManifest(revision, "b", w, name),
                                  PlainManifest(CONTROLNET, revision, "c", w);
    ArgumentsAreOk(base, adapter, control);
    OnlyTheAdapterIsUnbound(base, adapter, control);
    RootsDiffer(Parts(RequestFor(base, adapter, control)));
    ComponentIsInOrder(node, name, content, base);
  }

  /** Such a supply in particular: three manifests that can be constructed, a component with one file that is in order, and a
      second model that is not approved under its licence. */
  method ExampleLeaks(node: Node, name: string, content: Bytes, revision: string)
    returns (k: Kernel, r: Request, o: Option<VerifiedPipelineSupply>, ghost fds: seq<int>, failing: nat)
    requires node.Directory? && Trusted(node) && EndsWith(name, ".safetensors") && FullRevision(revision)
    ensures r == ExampleRequest(name, content, revision) && forall m :: m in r.manifests ==> Constructible(m)
    ensures fresh(k) && k.tree == SupplyTree(node, name, content) && k.OnlyFails(failing)
    ensures o.None? && |fds| == 1 && fds[0] != 3 && k.open.Keys == {3, fds[0]}
  {
    r := ExampleRequest(name, content, revision);
    forall m | m in r.manifests
      ensures Constructible(m)
    {
      ExampleIsConstructible(name, content, revision, m);
    }
    ExampleStops(node, name, content, revision);
    TreeIsWellFormed(node, name, content);
    k, o, fds, failing := VerificationCanLeak(SupplyTree(node, name, content), r, ["r"], 3);
  }
}
