/** The two migration plans that ship with the deployment scripts. */
module ShippedPlans {
  import opened Content
  import opened Outcomes
  import opened AuditDisk
  import opened MigrationHost
  import opened ContextMigration

  datatype Support = Support(role: string, pipelines: seq<string>)

  datatype Threshold = Threshold(status: string, rest: Bytes)

  /** The parts of the production context that the plans look at. */
  datatype Document = Document(schema: string, threshold: Threshold, support: seq<Support>, rest: Bytes)

  const OLD_PIPELINES := ["sdxl_turbo", "sdxl_base"]
  const LCM_PIPELINES := ["sdxl_turbo", "lcm", "sdxl_base"]
  const ROLES := ["base", "ip_adapter", "controlnet"]
  const CONTEXT_V1 := "specstyle.production.context.v1"
  const SOURCE_REJECTION := "VALIDATED threshold requires production context v3"

  /** The JSON codec and the context loader, as the plans use them. */
  datatype Runtime = Runtime(
    parse: Bytes -> Option<Document>, dump: Document -> Bytes,
    loader: Bytes -> LoaderOutcome,
    supportsLcm: Bytes -> bool, loadedDraft: Bytes -> bool,
    smokeThreshold: Bytes, payload: (Status, Digest, Digest) -> Bytes)
  {
    ghost predicate RoundTrips() {
      forall doc: Document :: parse(dump(doc)) == Some(doc)
    }
  }

  /** enable_preview_lcm_context._support_state */
  predicate SupportState(doc: Document, expected: seq<string>) {
    |doc.support| == |ROLES| && forall i :: 0 <= i < |ROLES| ==> doc.support[i] == Support(ROLES[i], expected)
  }

  /** enable_preview_lcm_context._recognize_source */
  predicate LcmSource(rt: Runtime, raw: Bytes) {
    rt.loader(raw).Loaded? && rt.parse(raw).Some? && SupportState(rt.parse(raw).value, OLD_PIPELINES)
  }

  /** enable_preview_lcm_context._recognize_target */
  predicate LcmTarget(rt: Runtime, raw: Bytes) {
    rt.loader(raw).Loaded? && rt.parse(raw).Some? && SupportState(rt.parse(raw).value, LCM_PIPELINES) && rt.supportsLcm(raw)
  }

  /** enable_preview_lcm_context._transform */
  function LcmTransform(rt: Runtime, raw: Bytes): Option<Bytes> {
    if LcmSource(rt, raw) then Some(rt.dump(WithPipelines(rt.parse(raw).value, LCM_PIPELINES))) else None
  }

  function EnablePreviewLcm(rt: Runtime): Plan {
    Plan(rt.loader, raw => rt.parse(raw).Some?, Pass, Pass,
         raw => LcmSource(rt, raw), raw => LcmTarget(rt, raw), raw => LcmTransform(rt, raw), rt.payload)
  }

  function WithPipelines(doc: Document, pipelines: seq<string>): Document {
    doc.(support := seq(|doc.support|, i requires 0 <= i < |doc.support| => doc.support[i].(pipelines := pipelines)))
  }

  /** retire_legacy_smoke_threshold._recognize */
  predicate SmokeSignature(rt: Runtime, raw: Bytes, status: string) {
    && rt.parse(raw).Some? && rt.parse(raw).value.schema == CONTEXT_V1
    && rt.parse(raw).value.threshold == Threshold(status, rt.smokeThreshold)
  }

  /** retire_legacy_smoke_threshold._recognize_source */
  predicate SmokeSource(rt: Runtime, raw: Bytes) {
    SmokeSignature(rt, raw, "VALIDATED") && rt.loader(raw) == Rejected(SOURCE_REJECTION)
  }

  /** retire_legacy_smoke_threshold._recognize_target */
  predicate SmokeTarget(rt: Runtime, raw: Bytes) {
    SmokeSignature(rt, raw, "DRAFT") && rt.loader(raw).Loaded? && rt.loadedDraft(raw)
  }

  /** retire_legacy_smoke_threshold._transform */
  function SmokeTransform(rt: Runtime, raw: Bytes): Option<Bytes> {
    if SmokeSource(rt, raw) then Some(rt.dump(Retired(rt.parse(raw).value))) else None
  }

  function Retired(doc: Document): Document {
    doc.(threshold := doc.threshold.(status := "DRAFT"))
  }

  function RetireSmokeThreshold(rt: Runtime): Plan {
    Plan(rt.loader, raw => rt.parse(raw).Some?, ExactRejection(SOURCE_REJECTION), Pass,
         raw => SmokeSource(rt, raw), raw => SmokeTarget(rt, raw), raw => SmokeTransform(rt, raw), rt.payload)
  }

  /** No context is both a source and a target of either plan. */
  lemma ShippedPlansAreDisjoint(rt: Runtime)
    ensures EnablePreviewLcm(rt).Disjoint()
    ensures RetireSmokeThreshold(rt).Disjoint()
  {
    forall raw
      ensures LcmSource(rt, raw) ==> !LcmTarget(rt, raw)
    {
      if LcmSource(rt, raw) {
        var first := rt.parse(raw).value.support[0];
        assert first == Support(ROLES[0], OLD_PIPELINES);
        assert |OLD_PIPELINES| != |LCM_PIPELINES|;
      }
    }
  }

  /** Each transform leads from every source it accepts to a document in the target state; what the plan then still
      demands of it is the loader's verdict. */
  lemma TransformsReachTheTarget(rt: Runtime, raw: Bytes)
    requires rt.RoundTrips()
    ensures var tgt := LcmTransform(rt, raw);
            tgt.Some? ==> (LcmTarget(rt, tgt.value) <==> rt.loader(tgt.value).Loaded? && rt.supportsLcm(tgt.value))
    ensures var tgt := SmokeTransform(rt, raw);
            tgt.Some? ==> (SmokeTarget(rt, tgt.value) <==> rt.loader(tgt.value).Loaded? && rt.loadedDraft(tgt.value))
  {
    if LcmSource(rt, raw) {
      var doc := WithPipelines(rt.parse(raw).value, LCM_PIPELINES);
      assert rt.parse(rt.dump(doc)) == Some(doc);
      assert SupportState(doc, LCM_PIPELINES);
    }
    if SmokeSource(rt, raw) {
      var doc := Retired(rt.parse(raw).value);
      assert rt.parse(rt.dump(doc)) == Some(doc);
    }
  }

  // What a run of each plan does, from the documents alone

  function Models(pipelines: seq<string>): seq<Support> {
    [Support("base", pipelines), Support("ip_adapter", pipelines), Support("controlnet", pipelines)]
  }

  /** A context of acceptable size that the loader accepts, before the compiler is enabled. */
  ghost predicate WithoutLcm(rt: Runtime, raw: Bytes) {
    && Readable(raw) && rt.loader(raw) == Loaded
    && rt.parse(raw).Some? && rt.parse(raw).value.support == Models(["sdxl_turbo", "sdxl_base"])
  }

  /** And afterwards: the loaded context then supports it, too. */
  ghost predicate WithLcm(rt: Runtime, raw: Bytes) {
    && Readable(raw) && rt.loader(raw) == Loaded && rt.supportsLcm(raw)
    && rt.parse(raw).Some? && rt.parse(raw).value.support == Models(["sdxl_turbo", "lcm", "sdxl_base"])
  }

  /** The same document with the compiler enabled. */
  function Enabled(rt: Runtime, doc: Document): Bytes {
    rt.dump(Document(doc.schema, doc.threshold, Models(["sdxl_turbo", "lcm", "sdxl_base"]), doc.rest))
  }

  /** A context that the loader refuses for its known threshold. */
  ghost predicate Legacy(rt: Runtime, raw: Bytes) {
    && Readable(raw) && rt.loader(raw) == Rejected("VALIDATED threshold requires production context v3")
    && rt.parse(raw).Some? && rt.parse(raw).value.schema == "specstyle.production.context.v1"
    && rt.parse(raw).value.threshold == Threshold("VALIDATED", rt.smokeThreshold)
  }

  /** The same threshold as a draft, in a context that the loader accepts and reads so. */
  ghost predicate Drafted(rt: Runtime, raw: Bytes) {
    && Readable(raw) && rt.loader(raw) == Loaded && rt.loadedDraft(raw)
    && rt.parse(raw).Some? && rt.parse(raw).value.schema == "specstyle.production.context.v1"
    && rt.parse(raw).value.threshold == Threshold("DRAFT", rt.smokeThreshold)
  }

  function Draft(rt: Runtime, doc: Document): Bytes {
    rt.dump(Document(doc.schema, Threshold("DRAFT", doc.threshold.rest), doc.support, doc.rest))
  }

  /** The records of this migration fit in a file, and no version of them says anything else. */
  ghost predicate TrailIsRight(rt: Runtime, src: Bytes, tgt: Bytes, d: Disk) {
    var a, b := Sha256(src), Sha256(tgt);
    && Readable(rt.payload(PREPARED, a, b)) && Readable(rt.payload(COMMITTED, a, b))
    && Says(d, Backup(a), src) && Says(d, Journal(PREPARED, a, b), rt.payload(PREPARED, a, b))
    && Says(d, Journal(COMMITTED, a, b), rt.payload(COMMITTED, a, b))
  }

  /** The backup and the first record of this migration can be read back. */
  ghost predicate TrailIsThere(rt: Runtime, src: Bytes, tgt: Bytes, d: Disk) {
    Held(d, Backup(Sha256(src)), src)
    && Held(d, Journal(PREPARED, Sha256(src), Sha256(tgt)), rt.payload(PREPARED, Sha256(src), Sha256(tgt)))
  }

  ghost predicate CommitIsRecorded(rt: Runtime, src: Bytes, tgt: Bytes, d: Disk) {
    d.live == tgt && Held(d, Journal(COMMITTED, Sha256(src), Sha256(tgt)), rt.payload(COMMITTED, Sha256(src), Sha256(tgt)))
  }

  /** What a run without failures must end with, if `source` and `target` recognise the two sides and `made` is what becomes
      of a source: it applies the plan to the named source or only reports what it would do; it reports a named target as
      done, and finishes an interrupted commit; it refuses everything else. */
  ghost predicate Behaves(rt: Runtime, source: Bytes -> bool, target: Bytes -> bool, made: Bytes -> Bytes,
                          before: Digest, apply: bool, d: Disk, e: Disk, o: Outcome<Report>) {
    var live, src := d.live, before.preimage;
    && (source(live) && live == src && !apply ==> o == Done(DryRun(before, Sha256(made(live)))) && Idle(d, e))
    && (source(live) && live == src && apply && target(made(live)) && TrailIsRight(rt, live, made(live), d) ==>
          o == Done(Applied(before, Sha256(made(live)))) && CommitIsRecorded(rt, live, made(live), e))
    && (target(live) && live == src ==> o == Done(AlreadyDone(before)) && Idle(d, e))
    && (target(live) && live != src && apply && source(src) && live == made(src)
        && TrailIsRight(rt, src, live, d) && TrailIsThere(rt, src, live, d) ==>
          o == Done(RecoveredCommit(before, Sha256(live))) && CommitIsRecorded(rt, src, live, e))
    && ((source(live) || (target(live) && !apply)) && live != src ==> o.Raised? && Idle(d, e))
    && (!source(live) && !target(live) ==> !o.Done? && Idle(d, e))
  }

  lemma SupportIff(doc: Document, pipelines: seq<string>)
    ensures SupportState(doc, pipelines) <==> doc.support == Models(pipelines)
  {
    assert ROLES == ["base", "ip_adapter", "controlnet"];
    if SupportState(doc, pipelines) {
      assert doc.support[0] == Support(ROLES[0], pipelines) && doc.support[1] == Support(ROLES[1], pipelines);
      assert doc.support[2] == Support(ROLES[2], pipelines);
    }
  }

  lemma LcmSides(rt: Runtime, raw: Bytes)
    ensures var plan := EnablePreviewLcm(rt);
            && (WithoutLcm(rt, raw) <==> plan.Capturable(raw) && plan.Matches(raw, true))
            && (WithLcm(rt, raw) <==> plan.Capturable(raw) && plan.Matches(raw, false))
            && (WithoutLcm(rt, raw) ==> plan.transform(raw) == Some(Enabled(rt, rt.parse(raw).value)))
            && !(WithoutLcm(rt, raw) && WithLcm(rt, raw))
            && (Readable(raw) ==> (LcmSource(rt, raw) <==> WithoutLcm(rt, raw)) && (LcmTarget(rt, raw) <==> WithLcm(rt, raw)))
  {
    if rt.parse(raw).Some? {
      var doc := rt.parse(raw).value;
      SupportIff(doc, ["sdxl_turbo", "sdxl_base"]);
      SupportIff(doc, ["sdxl_turbo", "lcm", "sdxl_base"]);
      assert Models(["sdxl_turbo", "sdxl_base"])[0].pipelines != Models(["sdxl_turbo", "lcm", "sdxl_base"])[0].pipelines;
      if WithoutLcm(rt, raw) {
        assert WithPipelines(doc, LCM_PIPELINES).support == Models(["sdxl_turbo", "lcm", "sdxl_base"]);
      }
    }
  }

  lemma SmokeSides(rt: Runtime, raw: Bytes)
    ensures var plan := RetireSmokeThreshold(rt);
            && (Legacy(rt, raw) <==> plan.Capturable(raw) && plan.Matches(raw, true))
            && (Drafted(rt, raw) <==> plan.Capturable(raw) && plan.Matches(raw, false))
            && (Legacy(rt, raw) ==> plan.transform(raw) == Some(Draft(rt, rt.parse(raw).value)))
            && !(Legacy(rt, raw) && Drafted(rt, raw))
            && (Readable(raw) ==> (SmokeSource(rt, raw) <==> Legacy(rt, raw)) && (SmokeTarget(rt, raw) <==> Drafted(rt, raw)))
  {
  }

  /** The run of a plan whose two sides and transform are these. */
  method RunPlan(h: Host, rt: Runtime, plan: Plan, ghost source: Bytes -> bool, ghost target: Bytes -> bool, ghost made: Bytes -> Bytes,
                 before: Digest, apply: bool)
    returns (o: Outcome<Report>)
    requires Wf(h.disk) && h.Faultless() && plan.payload == rt.payload
    requires forall raw :: source(raw) <==> plan.Capturable(raw) && plan.Matches(raw, true)
    requires forall raw :: target(raw) <==> plan.Capturable(raw) && plan.Matches(raw, false)
    requires forall raw :: !(source(raw) && target(raw)) && (source(raw) ==> plan.transform(raw) == Some(made(raw)))
    requires plan.Disjoint()
    modifies h
    ensures Behaves(rt, source, target, made, before, apply, old(h.disk), h.disk, o)
  {
    o := RunLocked(h, plan, before, apply);
  }

  /** enable_preview_lcm_context.migrate_preview_lcm_context, without failures. */
  method EnablePreview(h: Host, rt: Runtime, before: Digest, apply: bool) returns (o: Outcome<Report>)
    requires Wf(h.disk) && h.Faultless()
    modifies h
    ensures Behaves(rt, raw => WithoutLcm(rt, raw), raw => WithLcm(rt, raw), raw => EnabledFrom(rt, raw),
                    before, apply, old(h.disk), h.disk, o)
  {
    forall raw {
      LcmSides(rt, raw);
    }
    ShippedPlansAreDisjoint(rt);
    o := RunPlan(h, rt, EnablePreviewLcm(rt), raw => WithoutLcm(rt, raw), raw => WithLcm(rt, raw), raw => EnabledFrom(rt, raw),
                 before, apply);
  }

  /** retire_legacy_smoke_threshold.retire_legacy_smoke_threshold, without failures. */
  method RetireThreshold(h: Host, rt: Runtime, before: Digest, apply: bool) returns (o: Outcome<Report>)
    requires Wf(h.disk) && h.Faultless()
    modifies h
    ensures Behaves(rt, raw => Legacy(rt, raw), raw => Drafted(rt, raw), raw => DraftFrom(rt, raw),
                    before, apply, old(h.disk), h.disk, o)
  {
    forall raw {
      SmokeSides(rt, raw);
    }
    ShippedPlansAreDisjoint(rt);
    o := RunPlan(h, rt, RetireSmokeThreshold(rt), raw => Legacy(rt, raw), raw => Drafted(rt, raw), raw => DraftFrom(rt, raw),
                 before, apply);
  }

  function EnabledFrom(rt: Runtime, raw: Bytes): Bytes {
    if rt.parse(raw).Some? then Enabled(rt, rt.parse(raw).value) else []
  }

  function DraftFrom(rt: Runtime, raw: Bytes): Bytes {
    if rt.parse(raw).Some? then Draft(rt, rt.parse(raw).value) else []
  }
}
