/** The supply of a generation pipeline: three verified components under one root, and their descriptors. */
module PipelineSupply {
  import opened Outcomes
  import opened ExportPlan
  import opened BundleLayout
  import opened BundleInspection
  import opened ModelSupply

  /** Which descriptors stay open when components are closed one after the other from some time on: those whose fstat
      fails. A component that was examined is closed, whatever close reports. */
  function LeftOpen(works: nat -> bool, fds: seq<int>, clock: nat): set<int> {
    if fds == [] then {}
    else if works(clock) then LeftOpen(works, fds[1..], clock + 2)
    else {fds[0]} + LeftOpen(works, fds[1..], clock + 1)
  }

  /** The descriptor table after that. */
  function AfterClosing(open: map<int, Path>, works: nat -> bool, fds: seq<int>, clock: nat): map<int, Path> {
    if fds == [] then open
    else if works(clock) then AfterClosing(open - {fds[0]}, works, fds[1..], clock + 2)
    else AfterClosing(open, works, fds[1..], clock + 1)
  }

  /** How many calls that takes. */
  function CallsOfClosing(works: nat -> bool, fds: seq<int>, clock: nat): nat {
    if fds == [] then 0
    else if works(clock) then 2 + CallsOfClosing(works, fds[1..], clock + 2)
    else 1 + CallsOfClosing(works, fds[1..], clock + 1)
  }

  lemma {:induction false} WhatClosingLeaves(open: map<int, Path>, works: nat -> bool, fds: seq<int>, clock: nat)
    requires forall i, j :: 0 <= i < j < |fds| ==> fds[i] != fds[j]
    ensures AfterClosing(open, works, fds, clock) == open - ((set fd | fd in fds) - LeftOpen(works, fds, clock))
  {
    if fds != [] {
      var rest := fds[1..];
      LeftOpenIsPart(works, rest, clock + 2);
      assert forall fd :: fd in fds <==> fd == fds[0] || fd in rest;
      WhatClosingLeaves(if works(clock) then open - {fds[0]} else open, works, rest, if works(clock) then clock + 2 else clock + 1);
    }
  }

  /** When all the examinations succeed nothing stays open, even if every close fails. */
  lemma {:induction false} NothingLeftOpen(works: nat -> bool, fds: seq<int>, clock: nat)
    requires forall i :: 0 <= i < |fds| ==> works(clock + 2 * i)
    ensures LeftOpen(works, fds, clock) == {}
  {
    if fds != [] {
      assert works(clock + 2 * 0);
      forall i | 0 <= i < |fds| - 1
        ensures works(clock + 2 + 2 * i)
      {
        assert works(clock + 2 * (i + 1));
      }
      NothingLeftOpen(works, fds[1..], clock + 2);
    }
  }

  lemma {:induction false} LeftOpenIsPart(works: nat -> bool, fds: seq<int>, clock: nat)
    ensures LeftOpen(works, fds, clock) <= set fd | fd in fds
  {
    if fds != [] {
      LeftOpenIsPart(works, fds[1..], clock + 2);
      LeftOpenIsPart(works, fds[1..], clock + 1);
    }
  }

  /** The first failing examination leaves its descriptor open: the exact converse. */
  lemma {:induction false} SomethingLeftOpen(works: nat -> bool, fds: seq<int>, clock: nat, i: nat)
    requires i < |fds| && !works(clock + 2 * i) && forall j :: 0 <= j < i ==> works(clock + 2 * j)
    ensures fds[i] in LeftOpen(works, fds, clock)
  {
    if i > 0 {
      assert works(clock + 2 * 0);
      forall j | 0 <= j < i - 1
        ensures works(clock + 2 + 2 * j)
      {
        assert works(clock + 2 * (j + 1));
      }
      SomethingLeftOpen(works, fds[1..], clock + 2, i - 1);
    }
  }

  /** Nothing stays open exactly when every examination succeeds. */
  lemma NothingLeftOpenIff(works: nat -> bool, fds: seq<int>, clock: nat)
    ensures LeftOpen(works, fds, clock) == {} <==> forall i :: 0 <= i < |fds| ==> works(clock + 2 * i)
  {
    if forall i :: 0 <= i < |fds| ==> works(clock + 2 * i) {
      NothingLeftOpen(works, fds, clock);
    } else {
      var i: nat :| i < |fds| && !works(clock + 2 * i);
      var first := FirstFailure(works, fds, clock, i);
      SomethingLeftOpen(works, fds, clock, first);
    }
  }

  lemma {:induction false} FirstFailure(works: nat -> bool, fds: seq<int>, clock: nat, i: nat) returns (first: nat)
    requires i < |fds| && !works(clock + 2 * i)
    ensures first < |fds| && !works(clock + 2 * first) && forall j :: 0 <= j < first ==> works(clock + 2 * j)
  {
    if j: nat :| j < i && !works(clock + 2 * j) {
      first := FirstFailure(works, fds, clock, j);
    } else {
      first := i;
    }
  }

  /** model_approval.VerifiedComponent */
  class VerifiedComponent {
    const kernel: Kernel
    const identity: nat
    var fd: int

    constructor (kernel: Kernel, fd: int, identity: nat)
      ensures this.kernel == kernel && this.fd == fd && this.identity == identity
    {
      this.kernel, this.fd, this.identity := kernel, fd, identity;
    }

    /** The descriptor is open, and still stands for the directory that was verified. */
    predicate Unchanged()
      reads this, kernel
    {
      fd in kernel.open && kernel.identity(kernel.open[fd]) == identity
    }

    /** close: gives the descriptor up in any case, but closes it only after an fstat that succeeds and finds the
        directory unchanged. */
    method Close() returns (ok: bool)
      modifies this, kernel
      ensures fd == -1 || (fd == old(fd) && fd < 0)
      ensures old(fd) < 0 ==> ok && kernel.open == old(kernel.open) && kernel.clock == old(kernel.clock)
      ensures old(fd) >= 0 ==>
                var examined := kernel.works(old(kernel.clock)) && old(Unchanged());
                && kernel.open == (if examined then old(kernel.open) - {old(fd)} else old(kernel.open))
                && kernel.clock == old(kernel.clock) + (if examined then 2 else 1)
                && (ok <==> examined && kernel.works(old(kernel.clock) + 1))
    {
      if fd < 0 { return true; }
      var stat := kernel.Call();
      var examined := stat && Unchanged();
      var current := fd;
      fd := -1;
      ok := false;
      if examined {
        ok := kernel.Close(current);
      }
    }
  }

  ghost function Owned(models: seq<VerifiedComponent>): set<object> {
    set m: object | m in models
  }

  /** Components with these descriptors, all different and all open. */
  ghost predicate Holding(k: Kernel, models: seq<VerifiedComponent>, fds: seq<int>)
    reads k, Owned(models)
  {
    && |models| == |fds|
    && (forall i, j :: 0 <= i < j < |models| ==> models[i] != models[j] && fds[i] != fds[j])
    && (forall i :: 0 <= i < |models| ==> models[i].kernel == k && models[i].fd == fds[i])
    && (forall i :: 0 <= i < |fds| ==> fds[i] >= 0 && fds[i] in k.open && k.identity(k.open[fds[i]]) == models[i].identity)
  }

  /** The components from `i` on are as they were issued. */
  ghost predicate Remaining(k: Kernel, models: seq<VerifiedComponent>, fds: seq<int>, i: nat)
    requires |models| == |fds|
    reads k, Owned(models)
  {
    forall j :: i <= j < |models| ==>
                  && models[j].kernel == k && models[j].fd == fds[j] && fds[j] >= 0
                  && fds[j] in k.open && k.identity(k.open[fds[j]]) == models[j].identity
  }

  lemma SmoothJoin(k: Kernel, start: nat, middle: nat, end: nat)
    requires k.Smooth(start, middle) && k.Smooth(middle, end)
    ensures k.Smooth(start, end)
  {
  }

  lemma SmoothFurther(k: Kernel, start: nat, end: nat)
    requires start <= end
    ensures k.Smooth(start, end + 2) <==> k.Smooth(start, end) && k.works(end) && k.works(end + 1)
  {
  }

  /** Closing one component after the other, whatever goes wrong; it is reported as done exactly when all its fstats and
      closes worked. */
  method CloseAll(k: Kernel, models: seq<VerifiedComponent>, ghost fds: seq<int>) returns (ok: bool)
    requires Holding(k, models, fds)
    modifies k, Owned(models)
    ensures k.open == AfterClosing(old(k.open), k.works, fds, old(k.clock))
    ensures k.clock == old(k.clock) + CallsOfClosing(k.works, fds, old(k.clock))
    ensures forall m :: m in models ==> m.fd == -1
    ensures ok <==> k.Smooth(old(k.clock), old(k.clock) + 2 * |models|)
  {
    ok := true;
    ghost var start := k.clock;
    assert fds[0..] == fds;
    for i := 0 to |models|
      invariant AfterClosing(old(k.open), k.works, fds, start) == AfterClosing(k.open, k.works, fds[i..], k.clock)
      invariant start + CallsOfClosing(k.works, fds, start) == k.clock + CallsOfClosing(k.works, fds[i..], k.clock)
      invariant (forall j :: 0 <= j < i ==> models[j].fd == -1) && Remaining(k, models, fds, i)
      invariant AllWorked(k, start, start + 2 * i, ok)
    {
      assert models[i] in models;
      ok := CloseNext(k, models, fds, i, ok, start, start + 2 * i);
    }
  }

  /** So far everything worked, or not: then the clock need not be there. */
  ghost predicate AllWorked(k: Kernel, start: nat, end: nat, ok: bool)
    reads k
  {
    start <= end && (ok <==> k.Smooth(start, end)) && (ok ==> k.clock == end)
  }

  /** One round of that. */
  method CloseNext(k: Kernel, models: seq<VerifiedComponent>, ghost fds: seq<int>, i: nat, before: bool, ghost start: nat, ghost end: nat)
    returns (ok: bool)
    requires i < |models| == |fds| && Remaining(k, models, fds, i)
    requires forall i, j :: 0 <= i < j < |models| ==> models[i] != models[j] && fds[i] != fds[j]
    requires AllWorked(k, start, end, before)
    modifies k, models[i]
    ensures models[i].fd == -1 && Remaining(k, models, fds, i + 1)
    ensures AfterClosing(old(k.open), k.works, fds[i..], old(k.clock)) == AfterClosing(k.open, k.works, fds[i + 1..], k.clock)
    ensures old(k.clock) + CallsOfClosing(k.works, fds[i..], old(k.clock))
         == k.clock + CallsOfClosing(k.works, fds[i + 1..], k.clock)
    ensures AllWorked(k, start, end + 2, ok)
  {
    assert fds[i..][0] == fds[i] && fds[i..][1..] == fds[i + 1..];
    var closed := models[i].Close();
    ok := before && closed;
    SmoothFurther(k, start, end);
  }

  /** model_approval.VerifiedPipelineSupply */
  class VerifiedPipelineSupply {
    const kernel: Kernel
    const models: seq<VerifiedComponent>
    var closed: bool

    constructor (kernel: Kernel, models: seq<VerifiedComponent>)
      ensures this.kernel == kernel && this.models == models && !closed
    {
      this.kernel, this.models, this.closed := kernel, models, false;
    }

    /** close: every component is closed although others fail; a second close does nothing. */
    method Close(ghost fds: seq<int>) returns (ok: bool)
      requires !closed ==> Holding(kernel, models, fds)
      modifies this, kernel, Owned(models)
      ensures closed
      ensures old(closed) ==> ok && kernel.open == old(kernel.open)
      ensures !old(closed) ==>
                && kernel.open == old(kernel.open) - ((set fd | fd in fds) - LeftOpen(kernel.works, fds, old(kernel.clock)))
                && (forall m :: m in models ==> m.fd == -1)
                && (ok <==> kernel.Smooth(old(kernel.clock), old(kernel.clock) + 2 * |models|))
    {
      if closed { return true; }
      closed := true;
      WhatClosingLeaves(kernel.open, kernel.works, fds, kernel.clock);
      ok := CloseAll(kernel, models, fds);
    }
  }

  /** The descriptor of a component whose examination fails, or finds another directory, is lost: it stays open, and the
      component no longer knows it. */
  method DescriptorCanBeLost(changed: bool) returns (k: Kernel, c: VerifiedComponent)
    ensures fresh(k) && c.fd == -1 && 7 in k.open && (changed ==> forall n :: k.works(n))
  {
    k := new Kernel(map[], p => 0, n => changed, n => n, map[7 := []]);
    c := new VerifiedComponent(k, 7, if changed then 1 else 0);
    var ok := c.Close();
  }

  // The whole pipeline

  datatype LicenseStatus = APPROVED | BLOCKED | UNKNOWN

  /** model_registry.ModelDescriptor: its pin is the expected digest. */
  datatype Descriptor = Descriptor(modelId: string, role: Role, revision: string, expected: ManifestDigest, license: string,
                                   status: LicenseStatus)

  datatype Approval = Approval(modelId: string, revision: string, digest: ManifestDigest, license: string)

  /** The models of a pipeline graph, their manifests, and the independent licence approvals. */
  datatype Request = Request(base: Descriptor, ipAdapter: Descriptor, controlNet: Descriptor, manifests: seq<Manifest>,
                             approvals: seq<Approval>)

  const PRODUCTION_LICENSES := {"Apache-2.0", "MIT", "OpenRAIL++-M"}

  const PLACEHOLDERS := {
    "sdxl-base-1.0", "ip-adapter-plus-sdxl", "controlnet-canny-sdxl", "lcm-lora-sdxl", "style-encoder-clip-vit-l",
    "l3-product-feature-v1"}

  /** model_registry.ModelRegistry.require_production */
  predicate ForProduction(d: Descriptor) {
    && d.status.APPROVED? && d.license in PRODUCTION_LICENSES && FullRevision(d.revision)
    && !(d.expected.OfPlaceholder? && d.expected.model in PLACEHOLDERS)
  }

  predicate Matches(a: Approval, m: Manifest) {
    a.modelId == m.modelId && a.revision == m.revision
  }

  /** model_approval._approval_for: there is exactly one matching approval, and it is for exactly this manifest. */
  predicate Approved(approvals: seq<Approval>, m: Manifest, license: string) {
    exists i | 0 <= i < |approvals| ::
      && Matches(approvals[i], m) && (forall j | 0 <= j < |approvals| :: Matches(approvals[j], m) ==> j == i)
      && approvals[i].digest == SealedDigest(m) && approvals[i].license == license
  }

  /** The pin of a model agrees with its manifest, and the manifest is approved under its licence. */
  predicate Bound(d: Descriptor, m: Manifest, approvals: seq<Approval>) {
    && ForProduction(d)
    && m.modelId == d.modelId && m.revision == d.revision && m.seal == d.expected
    && Approved(approvals, m, d.license)
  }

  const ROLES := {BASE, IP_ADAPTER, CONTROLNET}

  /** model_approval._exact_by_role accepts these: one manifest for each role. */
  predicate OnePerRole(manifests: seq<Manifest>) {
    && (forall i, j | 0 <= i < j < |manifests| :: manifests[i].role != manifests[j].role)
    && manifests != [] && (set m | m in manifests :: m.role) == ROLES
  }

  /** The checks before any model is looked at: of model_approval._graph_descriptors, of the manifests by role, and of the
      approvals. */
  predicate ArgumentsOk(r: Request) {
    && r.base.role == BASE && r.ipAdapter.role == IP_ADAPTER && r.controlNet.role == CONTROLNET
    && r.base.modelId != r.ipAdapter.modelId && r.base.modelId != r.controlNet.modelId && r.ipAdapter.modelId != r.controlNet.modelId
    && OnePerRole(r.manifests)
    && |r.approvals| == 3
    && (forall i, j | 0 <= i < j < 3 ::
          r.approvals[i].modelId != r.approvals[j].modelId || r.approvals[i].revision != r.approvals[j].revision)
  }

  /** The manifest for a role, if there is one. */
  function ManifestFor(manifests: seq<Manifest>, role: Role): (m: Manifest)
    requires manifests != []
    ensures m in manifests && (m.role == role || forall i :: 0 <= i < |manifests| ==> manifests[i].role != role)
  {
    if |manifests| == 1 || manifests[0].role == role then manifests[0] else ManifestFor(manifests[1..], role)
  }

  /** One model of the pipeline graph with its manifest; `bound` says that its pins, manifest and approval agree. */
  datatype Part = Part(manifest: Manifest, bound: bool)

  function PartFor(d: Descriptor, r: Request): Part
    requires r.manifests != []
  {
    Part(ManifestFor(r.manifests, d.role), Bound(d, ManifestFor(r.manifests, d.role), r.approvals))
  }

  function Parts(r: Request): (parts: seq<Part>)
    requires r.manifests != []
    ensures |parts| == 3 && forall p :: p in parts ==> p.manifest in r.manifests
  {
    [PartFor(r.base, r), PartFor(r.ipAdapter, r), PartFor(r.controlNet, r)]
  }

  /** model_approval._non_overlapping_component_roots */
  predicate NonOverlapping(parts: seq<Part>) {
    forall i, j | 0 <= i < j < |parts| ::
      !IsPrefix(parts[i].manifest.root, parts[j].manifest.root) && !IsPrefix(parts[j].manifest.root, parts[i].manifest.root)
  }

  /** When the supply is in order. */
  ghost predicate SupplyOk(k: Kernel, root: Path, parts: seq<Part>)
  {
    && NonOverlapping(parts)
    && (forall i :: 0 <= i < |parts| ==> parts[i].bound && ComponentOk(k.tree, root, parts[i].manifest))
    && (forall i, j :: 0 <= i < j < |parts| ==>
          k.identity(root + parts[i].manifest.root) != k.identity(root + parts[j].manifest.root))
  }

  /** One model is in order, next to components with these directory identities. */
  predicate PartOk(k: Kernel, root: Path, part: Part, identities: set<nat>)
  {
    part.bound && ComponentOk(k.tree, root, part.manifest) && k.identity(root + part.manifest.root) !in identities
  }

  /** How many calls verifying a model takes when none fails. */
  function CallsOfOne(t: Tree, root: Path, part: Part): nat
  {
    CallsOfComponent(t, root, part.manifest) + 3
  }

  /** The directory is examined once more when the component is issued, and again when it is checked. */
  method ExamineTwice(k: Kernel) returns (ok: bool)
    modifies k`clock
    ensures old(k.clock) <= k.clock <= old(k.clock) + 2 && (ok ==> k.clock == old(k.clock) + 2)
    ensures ok <==> k.Smooth(old(k.clock), k.clock)
  {
    ok := k.Call();
    if ok {
      ok := k.Call();
    }
  }

  /** The checks of one model: afterwards one more descriptor is open, or none. */
  method VerifyOne(k: Kernel, root: int, part: Part, identities: set<nat>) returns (o: Option<VerifiedComponent>)
    requires root in k.open && WellFormed(k.tree) && Named(part.manifest)
    modifies k
    ensures o.None? ==> k.open == old(k.open)
    ensures var p := old(k.open)[root] + part.manifest.root;
            && (o.Some? ==>
                  && fresh(o.value) && o.value.kernel == k && o.value.fd >= 0 && o.value.fd !in old(k.open)
                  && k.open == old(k.open)[o.value.fd := p] && o.value.identity == k.identity(p))
            && k.Ran(old(k.clock), CallsOfOne(k.tree, old(k.open)[root], part), o.Some?, PartOk(k, old(k.open)[root], part, identities))
    ensures !part.bound ==> o.None? && k.clock == old(k.clock)
  {
    ghost var before := k.open;
    if !part.bound { return None; }
    var fd := VerifyComponent(k, root, part.manifest);
    if fd.None? { return None; }
    var stat := k.Call();
    var identity := k.identity(k.open[fd.value]);
    if stat && identity !in identities {
      var issued := ExamineTwice(k);
      if issued {
        var component := new VerifiedComponent(k, fd.value, identity);
        return Some(component);
      }
    }
    var ignored := k.Close(fd.value);
    assert k.open == before;
    return None;
  }

  /** The descriptor table when these descriptors are retained beside others, one for each of the first models. */
  function Retaining(open: map<int, Path>, root: Path, parts: seq<Part>, fds: seq<int>): map<int, Path>
    requires |fds| <= |parts|
  {
    if fds == [] then open
    else
      var n := |fds| - 1;
      Retaining(open, root, parts, fds[..n])[fds[n] := root + parts[n].manifest.root]
  }

  lemma RetainingAt(open: map<int, Path>, root: Path, parts: seq<Part>, fds: seq<int>)
    requires |fds| <= |parts| && forall i, j :: 0 <= i < j < |fds| ==> fds[i] != fds[j]
    ensures var r := Retaining(open, root, parts, fds);
            && r.Keys == open.Keys + (set fd | fd in fds)
            && (forall i :: 0 <= i < |fds| ==> r[fds[i]] == root + parts[i].manifest.root)
            && (forall x :: x in open && x !in fds ==> r[x] == open[x])
  {
    RetainedKeys(open, root, parts, fds);
    forall i | 0 <= i < |fds|
      ensures Retaining(open, root, parts, fds)[fds[i]] == root + parts[i].manifest.root
    {
      RetainedOne(open, root, parts, fds, i);
    }
    forall x | x in open && x !in fds
      ensures Retaining(open, root, parts, fds)[x] == open[x]
    {
      RetainedOther(open, root, parts, fds, x);
    }
  }

  lemma {:induction false} RetainedKeys(open: map<int, Path>, root: Path, parts: seq<Part>, fds: seq<int>)
    requires |fds| <= |parts|
    ensures Retaining(open, root, parts, fds).Keys == open.Keys + (set fd | fd in fds)
  {
    if fds != [] {
      var n := |fds| - 1;
      RetainedKeys(open, root, parts, fds[..n]);
      assert forall x :: x in fds <==> x in fds[..n] || x == fds[n];
    }
  }

  lemma {:induction false} RetainedOne(open: map<int, Path>, root: Path, parts: seq<Part>, fds: seq<int>, i: nat)
    requires i < |fds| <= |parts| && forall i, j :: 0 <= i < j < |fds| ==> fds[i] != fds[j]
    ensures fds[i] in Retaining(open, root, parts, fds) && Retaining(open, root, parts, fds)[fds[i]] == root + parts[i].manifest.root
  {
    if i < |fds| - 1 {
      RetainedOne(open, root, parts, fds[..|fds| - 1], i);
    }
  }

  lemma {:induction false} RetainedOther(open: map<int, Path>, root: Path, parts: seq<Part>, fds: seq<int>, x: int)
    requires |fds| <= |parts| && x in open && x !in fds
    ensures x in Retaining(open, root, parts, fds) && Retaining(open, root, parts, fds)[x] == open[x]
  {
    if fds != [] {
      RetainedOther(open, root, parts, fds[..|fds| - 1], x);
    }
  }

  /** Beyond what was open before, exactly the directories of the first `n` models are. */
  ghost predicate OpenSoFar(open: map<int, Path>, identity: Path -> nat, before: map<int, Path>, root: Path, parts: seq<Part>, n: nat,
                            fds: seq<int>, identities: set<nat>)
    requires n <= |parts|
  {
    && |fds| == n && open == Retaining(before, root, parts, fds)
    && (forall i :: 0 <= i < n ==> fds[i] !in before)
    && identities == Identities(identity, root, parts, n)
  }

  /** The identities of the directories of the first `n` models. */
  function Identities(identity: Path -> nat, root: Path, parts: seq<Part>, n: nat): set<nat>
    requires n <= |parts|
  {
    if n == 0 then {} else Identities(identity, root, parts, n - 1) + {identity(root + parts[n - 1].manifest.root)}
  }

  lemma {:induction false} InIdentities(identity: Path -> nat, root: Path, parts: seq<Part>, n: nat, x: nat)
    requires n <= |parts|
    ensures x in Identities(identity, root, parts, n) <==> exists i :: 0 <= i < n && x == identity(root + parts[i].manifest.root)
  {
    if n > 0 {
      InIdentities(identity, root, parts, n - 1, x);
    }
  }

  lemma OneMoreOpen(open: map<int, Path>, identity: Path -> nat, before: map<int, Path>, root: Path, parts: seq<Part>, n: nat,
                    fds: seq<int>, identities: set<nat>, fd: int)
    requires n < |parts| && OpenSoFar(open, identity, before, root, parts, n, fds, identities) && fd !in open
    requires forall i, j :: 0 <= i < j < |fds| ==> fds[i] != fds[j]
    ensures var p := root + parts[n].manifest.root;
            OpenSoFar(open[fd := p], identity, before, root, parts, n + 1, fds + [fd], identities + {identity(p)})
  {
    assert (fds + [fd])[..n] == fds;
    RetainingAt(before, root, parts, fds);
  }

  lemma HoldingOneMore(k: Kernel, models: seq<VerifiedComponent>, fds: seq<int>, c: VerifiedComponent)
    requires Holding(k, models, fds) && c !in models && c.kernel == k && c.fd !in fds
    requires c.fd >= 0 && c.fd in k.open && k.identity(k.open[c.fd]) == c.identity
    ensures Holding(k, models + [c], fds + [c.fd])
  {
  }

  /** The first `n` models are in order, one beside the other. */
  ghost predicate AcceptedSoFar(k: Kernel, root: Path, parts: seq<Part>, n: nat)
    requires n <= |parts|
  {
    n == 0 || (AcceptedSoFar(k, root, parts, n - 1) && PartOk(k, root, parts[n - 1], Identities(k.identity, root, parts, n - 1)))
  }

  /** That is: each is bound and its component is in order, and the directories of the components all differ. */
  lemma {:induction false} WhatIsAccepted(k: Kernel, root: Path, parts: seq<Part>, n: nat)
    requires n <= |parts|
    ensures AcceptedSoFar(k, root, parts, n) <==>
              && (forall i :: 0 <= i < n ==> parts[i].bound && ComponentOk(k.tree, root, parts[i].manifest))
              && (forall i, j :: 0 <= i < j < n ==>
                    k.identity(root + parts[i].manifest.root) != k.identity(root + parts[j].manifest.root))
  {
    if n > 0 {
      WhatIsAccepted(k, root, parts, n - 1);
      InIdentities(k.identity, root, parts, n - 1, k.identity(root + parts[n - 1].manifest.root));
    }
  }

  lemma {:induction false} AcceptedBefore(k: Kernel, root: Path, parts: seq<Part>, m: nat, n: nat)
    requires m <= n <= |parts| && AcceptedSoFar(k, root, parts, n)
    ensures AcceptedSoFar(k, root, parts, m) && (m < n ==> parts[m].bound)
  {
    if m < n {
      AcceptedBefore(k, root, parts, m, n - 1);
    }
  }

  /** How many calls verifying the first models takes when none fails. */
  function CallsOfFirst(t: Tree, root: Path, parts: seq<Part>, n: nat): nat
    requires n <= |parts|
  {
    if n == 0 then 0 else CallsOfFirst(t, root, parts, n - 1) + CallsOfOne(t, root, parts[n - 1])
  }

  lemma {:induction false} CallsOfFewer(t: Tree, root: Path, parts: seq<Part>, m: nat, n: nat)
    requires m <= n <= |parts|
    ensures CallsOfFirst(t, root, parts, m) <= CallsOfFirst(t, root, parts, n)
  {
    if m < n {
      CallsOfFewer(t, root, parts, m, n - 1);
    }
  }

  /** Why no more than the first `n` models were verified between `start` and `at`: the next one is not bound, or not in
      order, or one of its calls failed; or, after the last, one of the calls that issue the supply failed. */
  ghost predicate Stopped(k: Kernel, start: nat, root: Path, parts: seq<Part>, n: nat, at: nat)
    requires |parts| == 3
  {
    && n <= 3 && start <= at
    && if n == 3 then !k.Smooth(start, Earlier(at, start + CallsOfSupply(k, root, parts)))
       else if !parts[n].bound then at == start + CallsOfFirst(k.tree, root, parts, n)
       else AcceptedSoFar(k, root, parts, n + 1) ==> !k.Smooth(start, Earlier(at, start + CallsOfFirst(k.tree, root, parts, n + 1)))
  }

  lemma NotVerified(k: Kernel, start: nat, root: Path, parts: seq<Part>, n: nat, at: nat, good: bool, end: nat)
    requires n < |parts| == 3 && start <= at && good == AcceptedSoFar(k, root, parts, n + 1)
    requires end == start + CallsOfFirst(k.tree, root, parts, n + 1)
    requires if parts[n].bound then good ==> !k.Smooth(start, Earlier(at, end)) else at == start + CallsOfFirst(k.tree, root, parts, n)
    ensures Stopped(k, start, root, parts, n, at)
  {
  }

  /** How many calls the whole verification takes when none fails. */
  function CallsOfSupply(k: Kernel, root: Path, parts: seq<Part>): nat
    requires |parts| == 3
  {
    CallsOfFirst(k.tree, root, parts, 3) + 3
  }

  /** How a failing verification leaves the process: it had verified the first models and retained their descriptors when
      something went wrong at `at`; then it closed the components one after the other. */
  ghost predicate GaveUp(k: Kernel, start: nat, before: map<int, Path>, root: Path, parts: seq<Part>, fds: seq<int>, at: nat)
    requires |parts| == 3
    reads k
  {
    && CleanedUp(k, before, root, parts, fds, at) && AcceptedSoFar(k, root, parts, |fds|)
    && (if NonOverlapping(parts) then Stopped(k, start, root, parts, |fds|, at) else fds == [] && at == start)
  }

  /** The retained descriptors have been closed one after the other from `at` on. */
  ghost predicate CleanedUp(k: Kernel, before: map<int, Path>, root: Path, parts: seq<Part>, fds: seq<int>, at: nat)
    reads k
  {
    && |fds| <= |parts|
    && (forall i, j :: 0 <= i < j < |fds| ==> fds[i] != fds[j]) && (forall i :: 0 <= i < |fds| ==> fds[i] !in before)
    && k.open == AfterClosing(Retaining(before, root, parts, fds), k.works, fds, at)
    && k.clock == at + CallsOfClosing(k.works, fds, at)
  }

  /** The first `n` models are in order and their calls work; the next one is not bound. */
  ghost predicate StopsAt(k: Kernel, start: nat, root: Path, parts: seq<Part>, n: nat)
    requires |parts| == 3
  {
    && n < 3 && NonOverlapping(parts) && AcceptedSoFar(k, root, parts, n) && !parts[n].bound
    && k.Smooth(start, start + CallsOfFirst(k.tree, root, parts, n))
  }

  /** Then it is there that a verification stops. */
  lemma WhereItStops(k: Kernel, start: nat, root: Path, parts: seq<Part>, m: nat, at: nat, n: nat)
    requires |parts| == 3 && m <= 3 && AcceptedSoFar(k, root, parts, m) && Stopped(k, start, root, parts, m, at)
    requires StopsAt(k, start, root, parts, n)
    ensures m == n && at == start + CallsOfFirst(k.tree, root, parts, n)
  {
    var next := if m < n then m + 1 else n;
    AcceptedBefore(k, root, parts, next, n);
    AcceptedBefore(k, root, parts, if m < n then m else n, n);
    AcceptedBefore(k, root, parts, if n < m then n else m, m);
    CallsOfFewer(k.tree, root, parts, next, n);
  }

  /** A verification that meets an unbound model has leaked descriptors exactly when one of the fstats of its cleanup
      failed. */
  lemma UnboundModelsLeakIff(k: Kernel, start: nat, before: map<int, Path>, root: Path, parts: seq<Part>, fds: seq<int>, at: nat, n: nat)
    requires |parts| == 3
    requires GaveUp(k, start, before, root, parts, fds, at) && StopsAt(k, start, root, parts, n)
    ensures |fds| == n && at == start + CallsOfFirst(k.tree, root, parts, n)
    ensures k.open == before <==> forall i :: 0 <= i < |fds| ==> k.works(at + 2 * i)
  {
    WhereItStops(k, start, root, parts, |fds|, at, n);
    WhatGivingUpLeaves(k, before, root, parts, fds, at);
  }

  /** A failing verification leaves open exactly what it retained and could not examine when closing it; so it leaves
      nothing behind exactly when all these examinations succeed, whatever close reports. */
  lemma WhatGivingUpLeaves(k: Kernel, before: map<int, Path>, root: Path, parts: seq<Part>, fds: seq<int>, at: nat)
    requires CleanedUp(k, before, root, parts, fds, at)
    ensures k.open - LeftOpen(k.works, fds, at) == before
    ensures k.open.Keys == before.Keys + LeftOpen(k.works, fds, at) && LeftOpen(k.works, fds, at) !! before.Keys
    ensures k.open == before <==> forall i :: 0 <= i < |fds| ==> k.works(at + 2 * i)
  {
    var held, all, left := Retaining(before, root, parts, fds), (set fd | fd in fds), LeftOpen(k.works, fds, at);
    RetainingAt(before, root, parts, fds);
    WhatClosingLeaves(held, k.works, fds, at);
    LeftOpenIsPart(k.works, fds, at);
    NothingLeftOpenIff(k.works, fds, at);
    TakeAway(held, before, all, left);
  }

  /** When the first fstat of such a cleanup fails, the first descriptor stays open. */
  lemma FailedFstatLeaks(k: Kernel, start: nat, before: map<int, Path>, root: Path, parts: seq<Part>, fds: seq<int>, at: nat, n: nat)
    requires |parts| == 3 && GaveUp(k, start, before, root, parts, fds, at) && StopsAt(k, start, root, parts, n)
    requires n > 0 && !k.works(start + CallsOfFirst(k.tree, root, parts, n))
    ensures |fds| == n && fds[0] in k.open && fds[0] !in before && (n == 1 ==> k.open.Keys == before.Keys + {fds[0]})
  {
    assert |fds| == n && at == start + CallsOfFirst(k.tree, root, parts, n) by {
      WhereItStops(k, start, root, parts, |fds|, at, n);
    }
    SomethingLeaks(k, before, root, parts, fds, at);
  }

  lemma SomethingLeaks(k: Kernel, before: map<int, Path>, root: Path, parts: seq<Part>, fds: seq<int>, at: nat)
    requires CleanedUp(k, before, root, parts, fds, at) && fds != [] && !k.works(at)
    ensures fds[0] in k.open && fds[0] !in before && (|fds| == 1 ==> k.open.Keys == before.Keys + {fds[0]})
  {
    WhatGivingUpLeaves(k, before, root, parts, fds, at);
    SomethingLeftOpen(k.works, fds, at, 0);
    LeftOpenIsPart(k.works, fds, at);
  }

  lemma TakeAway(held: map<int, Path>, before: map<int, Path>, all: set<int>, left: set<int>)
    requires held.Keys == before.Keys + all && all !! before.Keys && left <= all
    requires forall x :: x in before ==> held[x] == before[x]
    ensures var open := held - (all - left);
            open - left == before && open.Keys == before.Keys + left && (open == before <==> left == {})
  {
    var open := held - (all - left);
    assert open.Keys == before.Keys + left;
    forall x
      ensures x in open - left <==> x in before
      ensures x in before ==> (open - left)[x] == before[x]
    {
    }
    if left == {} {
      assert open - left == open;
    }
  }

  lemma Retained(before: map<int, Path>, root: Path, parts: seq<Part>, fds: seq<int>)
    requires |fds| <= |parts| && (forall i, j :: 0 <= i < j < |fds| ==> fds[i] != fds[j])
    requires forall i :: 0 <= i < |fds| ==> fds[i] !in before
    ensures Retaining(before, root, parts, fds) - (set fd | fd in fds) == before
    ensures forall i :: 0 <= i < |fds| ==>
              fds[i] in Retaining(before, root, parts, fds) && Retaining(before, root, parts, fds)[fds[i]] == root + parts[i].manifest.root
  {
    RetainingAt(before, root, parts, fds);
    TakeAway(Retaining(before, root, parts, fds), before, (set fd | fd in fds), {});
  }

  /** The supply that a request asks for is in order. */
  ghost predicate InOrder(k: Kernel, root: Path, r: Request)
  {
    ArgumentsOk(r) && SupplyOk(k, root, Parts(r))
  }

  /** The pins of a pipeline decide every file that it can be supplied with, whatever manifests and approvals are presented
      and wherever the components are. */
  lemma PinsFixTheFiles(k: Kernel, root: Path, r: Request, k': Kernel, root': Path, r': Request, i: nat)
    requires InOrder(k, root, r) && InOrder(k', root', r') && i < 3
    requires r.base == r'.base && r.ipAdapter == r'.ipAdapter && r.controlNet == r'.controlNet
    ensures FilesIn(k.tree, root + Parts(r)[i].manifest.root) == FilesIn(k'.tree, root' + Parts(r')[i].manifest.root)
  {
    DigestFixesTheFiles(k.tree, root, Parts(r)[i].manifest, k'.tree, root', Parts(r')[i].manifest);
  }

  /** model_approval._exact_by_role */
  method ExactByRole(manifests: seq<Manifest>) returns (o: Option<map<Role, Manifest>>)
    ensures o.Some? <==> OnePerRole(manifests)
    ensures o.Some? ==> o.value.Keys == ROLES && forall m :: m in manifests ==> m.role in ROLES && o.value[m.role] == m
  {
    var result: map<Role, Manifest> := map[];
    for i := 0 to |manifests|
      invariant forall j :: 0 <= j < i ==> manifests[j].role in result && result[manifests[j].role] == manifests[j]
      invariant forall role :: role in result ==> exists j :: 0 <= j < i && manifests[j].role == role
      invariant forall j, j' :: 0 <= j < j' < i ==> manifests[j].role != manifests[j'].role
    {
      if manifests[i].role in result { return None; }
      result := result[manifests[i].role := manifests[i]];
    }
    assert result.Keys == set m | m in manifests :: m.role;
    return if result.Keys == ROLES then Some(result) else None;
  }

  /** model_approval.verify_pipeline_supply: on success exactly three more descriptors are open, one for each component; on
      failure the retained components (in `fds`) have been closed by a cleanup that began at `at`. */
  method VerifyPipelineSupply(k: Kernel, root: int, r: Request)
    returns (o: Option<VerifiedPipelineSupply>, ghost fds: seq<int>, ghost at: nat)
    requires root in k.open && WellFormed(k.tree) && forall m :: m in r.manifests ==> Named(m)
    modifies k
    ensures o.Some? ==>
              && InOrder(k, old(k.open)[root], r) && Issued(k, o.value, old(k.open), old(k.open)[root], Parts(r), fds)
              && fresh(o.value)
    ensures o.None? ==>
              if ArgumentsOk(r) then GaveUp(k, old(k.clock), old(k.open), old(k.open)[root], Parts(r), fds, at)
              else k.open == old(k.open) && k.clock == old(k.clock)
    ensures ArgumentsOk(r) ==>
              k.Ran(old(k.clock), CallsOfSupply(k, old(k.open)[root], Parts(r)), o.Some?, InOrder(k, old(k.open)[root], r))
  {
    var parts := CheckArguments(r);
    if parts.None? { return None, [], k.clock; }
    ghost var base := k.open[root];
    ghost var inOrder, cost := SupplyOk(k, base, parts.value), CallsOfSupply(k, base, parts.value);
    WhatIsAccepted(k, base, parts.value, 3);
    o, fds, at := VerifyParts(k, root, parts.value, base, inOrder, cost);
  }

  /** A process in which this one call fails. */
  method OneCallFails(tree: Tree, root: Path, fd: int, failing: nat) returns (k: Kernel)
    ensures fresh(k) && k.tree == tree && k.open == map[fd := root] && k.clock == 0
    ensures k.OnlyFails(failing)
  {
    k := new Kernel(tree, p => 0, n => n != failing, n => n, map[fd := root]);
  }

  /** The first model is in order, the second is not bound. */
  ghost predicate StopsAtSecond(tree: Tree, root: Path, parts: seq<Part>)
    requires |parts| == 3
  {
    NonOverlapping(parts) && parts[0].bound && ComponentOk(tree, root, parts[0].manifest) && !parts[1].bound
  }

  lemma SecondStops(k: Kernel, root: Path, parts: seq<Part>)
    requires |parts| == 3 && StopsAtSecond(k.tree, root, parts) && k.Smooth(0, CallsOfFirst(k.tree, root, parts, 1))
    ensures StopsAt(k, 0, root, parts, 1) && !SupplyOk(k, root, parts)
  {
  }

  /** So verification can lose a descriptor: whenever the first model is in order and the second is not bound there is a
      process with one failing call, the fstat of the cleanup, in which it does. */
  method VerificationCanLeak(tree: Tree, r: Request, root: Path, fd: int)
    returns (k: Kernel, o: Option<VerifiedPipelineSupply>, ghost fds: seq<int>, failing: nat)
    requires WellFormed(tree) && (forall m :: m in r.manifests ==> Named(m)) && ArgumentsOk(r)
    requires StopsAtSecond(tree, root, Parts(r))
    ensures fresh(k) && k.tree == tree && k.OnlyFails(failing)
    ensures o.None? && |fds| == 1 && fds[0] != fd && k.open.Keys == {fd, fds[0]}
  {
    var parts := Parts(r);
    failing := CallsOfFirst(tree, root, parts, 1);
    k := OneCallFails(tree, root, fd, failing);
    SecondStops(k, root, parts);
    ghost var at;
    o, fds, at := VerifyPipelineSupply(k, fd, r);
    if o.None? {
      FailedFstatLeaks(k, 0, map[fd := root], root, parts, fds, at, 1);
    }
  }

  /** The checks before any model is looked at; they pair the models with their manifests. */
  method CheckArguments(r: Request) returns (o: Option<seq<Part>>)
    ensures o.Some? <==> ArgumentsOk(r)
    ensures o.Some? ==> o.value == Parts(r)
  {
    if r.base.role != BASE || r.ipAdapter.role != IP_ADAPTER || r.controlNet.role != CONTROLNET { return None; }
    if r.base.modelId in {r.ipAdapter.modelId, r.controlNet.modelId} || r.ipAdapter.modelId == r.controlNet.modelId { return None; }
    var byRole := ExactByRole(r.manifests);
    if byRole.None? || |r.approvals| != 3 { return None; }
    if exists i, j | 0 <= i < j < 3 ::
        r.approvals[i].modelId == r.approvals[j].modelId && r.approvals[i].revision == r.approvals[j].revision { return None; }
    o := Some([
      Part(byRole.value[BASE], Bound(r.base, byRole.value[BASE], r.approvals)),
      Part(byRole.value[IP_ADAPTER], Bound(r.ipAdapter, byRole.value[IP_ADAPTER], r.approvals)),
      Part(byRole.value[CONTROLNET], Bound(r.controlNet, byRole.value[CONTROLNET], r.approvals))]);
  }

  /** The supply owns these descriptors, which are open beside what was open before. */
  ghost predicate Issued(k: Kernel, supply: VerifiedPipelineSupply, before: map<int, Path>, root: Path, parts: seq<Part>, fds: seq<int>)
    requires |parts| == 3
    reads k, supply, Owned(supply.models)
  {
    && !supply.closed && supply.kernel == k && |fds| == 3 && Holding(k, supply.models, fds)
    && k.open - (set fd | fd in fds) == before
    && forall i :: 0 <= i < 3 ==> fds[i] !in before && fds[i] in k.open && k.open[fds[i]] == root + parts[i].manifest.root
  }

  /** The checks of the models, and the try block around them. */
  method VerifyParts(k: Kernel, root: int, parts: seq<Part>, ghost base: Path, ghost inOrder: bool, ghost cost: nat)
    returns (o: Option<VerifiedPipelineSupply>, ghost fds: seq<int>, ghost at: nat)
    requires root in k.open && k.open[root] == base && WellFormed(k.tree) && |parts| == 3
    requires forall p :: p in parts ==> Named(p.manifest)
    requires inOrder == (NonOverlapping(parts) && AcceptedSoFar(k, base, parts, 3)) && cost == CallsOfSupply(k, base, parts)
    modifies k
    ensures o.Some? ==> Issued(k, o.value, old(k.open), base, parts, fds) && fresh(o.value)
    ensures o.None? ==> GaveUp(k, old(k.clock), old(k.open), base, parts, fds, at)
    ensures k.Ran(old(k.clock), cost, o.Some?, inOrder)
  {
    ghost var before, start := k.open, k.clock;
    fds, at, o := [], k.clock, None;
    if NonOverlapping(parts) {
      var ok, models;
      ghost var identities;
      ok, models, fds, identities := VerifyAndExamine(k, root, parts, base);
      at := k.clock;
      if ok {
        var supply := IssueSupply(k, models, before, base, parts, fds, identities);
        o := Some(supply);
      } else {
        GiveUp(k, start, before, base, parts, models, fds, identities);
        if inOrder {
          OutOfOrder(k, start, base, parts, |fds|, at, k.clock, start + cost);
        }
      }
    }
  }

  method IssueSupply(k: Kernel, models: seq<VerifiedComponent>, ghost before: map<int, Path>, ghost base: Path, ghost parts: seq<Part>,
                     ghost fds: seq<int>, ghost identities: set<nat>)
    returns (supply: VerifiedPipelineSupply)
    requires |parts| == 3 && Holding(k, models, fds) && OpenSoFar(k.open, k.identity, before, base, parts, 3, fds, identities)
    ensures fresh(supply) && Issued(k, supply, before, base, parts, fds)
  {
    Retained(before, base, parts, fds);
    supply := new VerifiedPipelineSupply(k, models);
  }

  /** A verification stops on a supply in order only after one of its calls failed. */
  lemma OutOfOrder(k: Kernel, start: nat, root: Path, parts: seq<Part>, m: nat, at: nat, later: nat, end: nat)
    requires |parts| == 3 && m <= 3 && Stopped(k, start, root, parts, m, at) && AcceptedSoFar(k, root, parts, 3)
    requires at <= later && end == start + CallsOfSupply(k, root, parts)
    ensures !k.Smooth(start, Earlier(later, end))
  {
    if m < 3 {
      AcceptedBefore(k, root, parts, m, 3);
      AcceptedBefore(k, root, parts, m + 1, 3);
      CallsOfFewer(k.tree, root, parts, m + 1, 3);
    }
  }

  /** The part of the try block that can fail. */
  method VerifyAndExamine(k: Kernel, root: int, parts: seq<Part>, ghost base: Path)
    returns (ok: bool, models: seq<VerifiedComponent>, ghost fds: seq<int>, ghost identities: set<nat>)
    requires root in k.open && k.open[root] == base && WellFormed(k.tree) && |parts| == 3
    requires forall p :: p in parts ==> Named(p.manifest)
    modifies k
    ensures |fds| <= 3 && (ok ==> |fds| == 3 && k.clock == old(k.clock) + CallsOfSupply(k, base, parts) && k.Smooth(old(k.clock), k.clock))
    ensures Holding(k, models, fds) && fresh(Owned(models))
    ensures OpenSoFar(k.open, k.identity, old(k.open), base, parts, |fds|, fds, identities)
    ensures AcceptedSoFar(k, base, parts, |fds|)
    ensures k.clock >= old(k.clock) && (!ok ==> Stopped(k, old(k.clock), base, parts, |fds|, k.clock))
  {
    ghost var n;
    ok, models, fds, n, identities := VerifyAll(k, root, parts, base);
    ghost var verified, table := k.clock, k.open;
    if ok {
      ok := ExamineAll(k);
      assert k.open == table;
      assert !ok ==> !k.Smooth(verified, k.clock);
    }
  }

  /** The cleanup after a failure. */
  method GiveUp(k: Kernel, ghost start: nat, ghost before: map<int, Path>, ghost base: Path, ghost parts: seq<Part>,
                models: seq<VerifiedComponent>, ghost fds: seq<int>, ghost identities: set<nat>)
    requires |fds| <= |parts| == 3 && forall p :: p in parts ==> Named(p.manifest)
    requires Holding(k, models, fds) && OpenSoFar(k.open, k.identity, before, base, parts, |fds|, fds, identities)
    requires AcceptedSoFar(k, base, parts, |fds|)
    requires NonOverlapping(parts) && Stopped(k, start, base, parts, |fds|, k.clock)
    modifies k, Owned(models)
    ensures GaveUp(k, start, before, base, parts, fds, old(k.clock))
  {
    var ignored := CloseAll(k, models, fds);
  }

  /** Verifying the first models has taken the calls that it takes, and none of them failed. */
  ghost predicate OnTime(k: Kernel, start: nat, root: Path, parts: seq<Part>, n: nat)
    requires n <= |parts|
    reads k`clock
  {
    k.clock == start + CallsOfFirst(k.tree, root, parts, n) && k.Smooth(start, k.clock)
  }

  /** The loop over the models. */
  method VerifyAll(k: Kernel, root: int, parts: seq<Part>, ghost base: Path)
    returns (ok: bool, models: seq<VerifiedComponent>, ghost fds: seq<int>, ghost n: nat, identities: set<nat>)
    requires root in k.open && k.open[root] == base && WellFormed(k.tree) && |parts| == 3
    requires forall p :: p in parts ==> Named(p.manifest)
    modifies k
    ensures n <= 3 && (ok ==> n == 3 && OnTime(k, old(k.clock), base, parts, 3)) && (!ok ==> n < 3)
    ensures Holding(k, models, fds) && forall m :: m in models ==> fresh(m)
    ensures OpenSoFar(k.open, k.identity, old(k.open), base, parts, n, fds, identities)
    ensures AcceptedSoFar(k, base, parts, n)
    ensures k.clock >= old(k.clock) && (!ok ==> Stopped(k, old(k.clock), base, parts, n, k.clock))
  {
    ghost var before, start := k.open, k.clock;
    ok, models, fds, n, identities := true, [], [], 0, {};
    while ok && |models| < 3
      invariant n == |models| <= 3
      invariant Holding(k, models, fds) && forall m :: m in models ==> fresh(m)
      invariant OpenSoFar(k.open, k.identity, before, base, parts, n, fds, identities)
      invariant AcceptedSoFar(k, base, parts, n)
      invariant ok ==> OnTime(k, start, base, parts, n)
      invariant k.clock >= start && (!ok ==> n < 3 && Stopped(k, start, base, parts, n, k.clock))
      decreases 3 - |models|, ok
    {
      ok, models, fds, n, identities := VerifyNext(k, root, parts, before, base, start, models, fds, n, identities);
    }
  }

  /** One round of the loop. */
  method VerifyNext(k: Kernel, root: int, parts: seq<Part>, ghost before: map<int, Path>, ghost base: Path, ghost start: nat,
                    models: seq<VerifiedComponent>, ghost fds: seq<int>, ghost n: nat, identities: set<nat>)
    returns (ok: bool, models': seq<VerifiedComponent>, ghost fds': seq<int>, ghost n': nat, identities': set<nat>)
    requires root in before && before[root] == base && WellFormed(k.tree) && n == |models| < |parts| == 3
    requires forall p :: p in parts ==> Named(p.manifest)
    requires Holding(k, models, fds) && OpenSoFar(k.open, k.identity, before, base, parts, n, fds, identities)
    requires AcceptedSoFar(k, base, parts, n) && OnTime(k, start, base, parts, n)
    modifies k
    ensures n' == |models'| == n + (if ok then 1 else 0)
    ensures Holding(k, models', fds') && forall m :: m in models' ==> m in models || fresh(m)
    ensures OpenSoFar(k.open, k.identity, before, base, parts, n', fds', identities')
    ensures AcceptedSoFar(k, base, parts, n')
    ensures ok ==> OnTime(k, start, base, parts, n')
    ensures k.clock >= old(k.clock) && (!ok ==> Stopped(k, start, base, parts, n', k.clock))
  {
    ghost var good, cost := PartOk(k, base, parts[n], identities), CallsOfOne(k.tree, base, parts[n]);
    ghost var verified, end, inOrder := k.clock, k.clock + cost, AcceptedSoFar(k, base, parts, n + 1);
    assert good == inOrder && end == start + CallsOfFirst(k.tree, base, parts, n + 1);
    ok, models', fds', n', identities' := VerifyAndRetain(k, root, parts, before, base, models, fds, n, identities, good, cost);
    if ok {
      SmoothJoin(k, start, verified, k.clock);
    } else {
      assert parts[n].bound && good ==> !k.Smooth(verified, Earlier(k.clock, end));
      NotVerified(k, start, base, parts, n, k.clock, good, end);
    }
  }

  /** The next model is verified, and its descriptor retained beside those of the models before it. */
  method VerifyAndRetain(k: Kernel, root: int, parts: seq<Part>, ghost before: map<int, Path>, ghost base: Path,
                         models: seq<VerifiedComponent>, ghost fds: seq<int>, ghost n: nat, identities: set<nat>,
                         ghost good: bool, ghost cost: nat)
    returns (ok: bool, models': seq<VerifiedComponent>, ghost fds': seq<int>, ghost n': nat, identities': set<nat>)
    requires root in before && before[root] == base && WellFormed(k.tree) && n == |models| < |parts| && Named(parts[n].manifest)
    requires Holding(k, models, fds) && OpenSoFar(k.open, k.identity, before, base, parts, n, fds, identities)
    requires good == PartOk(k, base, parts[n], identities) && cost == CallsOfOne(k.tree, base, parts[n])
    modifies k
    ensures n' == |models'| == n + (if ok then 1 else 0)
    ensures Holding(k, models', fds') && forall m :: m in models' ==> m in models || fresh(m)
    ensures OpenSoFar(k.open, k.identity, before, base, parts, n', fds', identities')
    ensures k.Ran(old(k.clock), cost, ok, good)
    ensures !parts[n].bound ==> !ok && k.clock == old(k.clock)
  {
    ghost var held := k.open;
    var part := parts[|models|];
    RetainedOther(before, base, parts, fds, root);
    var component := VerifyBeside(k, root, part, models, fds, identities, base, good, cost);
    if component.Some? {
      var c := component.value;
      assert k.open == held[c.fd := base + part.manifest.root];
      OneMoreOpen(held, k.identity, before, base, parts, n, fds, identities, c.fd);
      ok, models', fds', n', identities' := true, models + [c], fds + [c.fd], n + 1, identities + {c.identity};
    } else {
      ok, models', fds', n', identities' := false, models, fds, n, identities;
    }
  }

  /** The checks of one model leave the components before it alone. */
  method VerifyBeside(k: Kernel, root: int, part: Part, ghost models: seq<VerifiedComponent>, ghost fds: seq<int>, identities: set<nat>,
                      ghost base: Path, ghost good: bool, ghost cost: nat)
    returns (o: Option<VerifiedComponent>)
    requires root in k.open && k.open[root] == base && WellFormed(k.tree) && Named(part.manifest) && Holding(k, models, fds)
    requires good == PartOk(k, base, part, identities) && cost == CallsOfOne(k.tree, base, part)
    modifies k
    ensures o.None? ==> Holding(k, models, fds) && k.open == old(k.open)
    ensures var p := base + part.manifest.root;
            o.Some? ==>
              && Holding(k, models + [o.value], fds + [o.value.fd]) && fresh(o.value)
              && o.value.fd !in old(k.open) && k.open == old(k.open)[o.value.fd := p] && o.value.identity == k.identity(p)
    ensures k.Ran(old(k.clock), cost, o.Some?, good)
    ensures !part.bound ==> o.None? && k.clock == old(k.clock)
  {
    o := VerifyOne(k, root, part, identities);
    assert Holding(k, models, fds);
    if o.Some? {
      HoldingOneMore(k, models, fds, o.value);
    }
  }

  /** The checks when the supply is issued. */
  method ExamineAll(k: Kernel) returns (ok: bool)
    modifies k`clock
    ensures old(k.clock) <= k.clock <= old(k.clock) + 3 && (ok ==> k.clock == old(k.clock) + 3)
    ensures ok <==> k.Smooth(old(k.clock), k.clock)
  {
    ok := true;
    var i := 0;
    while ok && i < 3
      invariant k.clock == old(k.clock) + i && i <= 3 && (ok <==> k.Smooth(old(k.clock), k.clock))
      decreases 3 - i, ok
    {
      ok := k.Call();
      i := i + 1;
    }
  }
}
