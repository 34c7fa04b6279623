/** Splitting the samples of a study into calibration, validation and test data without leaks. */
module SamplePartition {
  import opened Outcomes

  type Sha = nat

  datatype Split = CALIBRATION | VALIDATION | TEST | OTHER_SPLIT

  datatype Member = Member(id: Sha, candidate: Sha, sourceFamily: Sha, referenceFamily: Sha, seed: nat)

  /** What identifies the observed thing: a candidate, or a whole cohort through its injective digest. */
  datatype Binding = Candidate(sha: Sha) | Cohort(expectedCount: nat, members: seq<Member>) | NoCohort(sha: Sha)

  datatype Body =
    | Single(candidate: Sha, sourceFamily: Sha, referenceFamily: Sha)
    | Batch(cohort: Binding, expectedCount: nat, members: seq<Member>)

  datatype Sample = Sample(id: string, group: Sha, split: Split, annotation: Sha, body: Body)

  /** The identities of a sample that must not turn up in two splits. */
  datatype Role = GROUP | FAMILY | CANDIDATE | MEMBER

  predicate Distinct<T(==)>(s: seq<T>) {
    forall i, j | 0 <= i < j < |s| :: s[i] != s[j]
  }

  function Ids(members: seq<Member>): seq<Sha> {
    seq(|members|, i requires 0 <= i < |members| => members[i].id)
  }

  function Candidates(members: seq<Member>): seq<Sha> {
    seq(|members|, i requires 0 <= i < |members| => members[i].candidate)
  }

  /** formal_evidence._cohort and _sample: is one sample well formed, for the study's unit of observation? */
  predicate SampleOk(s: Sample, batch: bool) {
    match s.body
    case Single(_, _, _) => !batch
    case Batch(cohort, expected, members) =>
      && batch && expected >= 2 && |members| == expected
      && Distinct(Ids(members)) && Distinct(Candidates(members))
      && cohort == Cohort(expected, members)
  }

  function BindingOf(s: Sample): Binding {
    match s.body
    case Single(candidate, _, _) => Candidate(candidate)
    case Batch(cohort, _, _) => cohort
  }

  /** What each role of a sample is played by, in the order in which the loop visits it. */
  function Identities(s: Sample, role: Role): seq<Sha> {
    match role
    case GROUP => [s.group]
    case FAMILY => (
      match s.body
      case Single(_, source, reference) => [source, reference]
      case Batch(_, _, members) => Families(members))
    case CANDIDATE => (
      match s.body
      case Single(candidate, _, _) => [candidate]
      case Batch(_, _, members) => Candidates(members))
    case MEMBER => (
      match s.body
      case Single(_, _, _) => []
      case Batch(_, _, members) => Ids(members))
  }

  function Families(members: seq<Member>): seq<Sha> {
    if members == [] then []
    else Families(members[..|members| - 1]) + [members[|members| - 1].sourceFamily, members[|members| - 1].referenceFamily]
  }

  /** splits.assign_split: 60/20/20 by the hash of the salted group. */
  function AssignSplit(hash: nat): Split {
    var bucket := hash % 100;
    if bucket < 60 then CALIBRATION else if bucket < 80 then VALIDATION else TEST
  }

  /** No identity in this role belongs to samples of two splits. */
  predicate Isolated(samples: seq<Sample>, role: Role) {
    forall i, j | 0 <= i < |samples| && 0 <= j < |samples| && samples[i].split != samples[j].split ::
      forall x | x in Identities(samples[i], role) :: x !in Identities(samples[j], role)
  }

  /** When the samples of a study may be used: well formed, each in the split its group is assigned to, no sample twice,
      and no family, candidate or member in two splits. */
  predicate PartitionOk(samples: seq<Sample>, batch: bool, hash: Sha -> nat) {
    && (forall s | s in samples :: SampleOk(s, batch) && s.split == AssignSplit(hash(s.group)))
    && (forall i, j | 0 <= i < j < |samples| :: samples[i].id != samples[j].id && BindingOf(samples[i]) != BindingOf(samples[j]))
    && Isolated(samples, FAMILY) && Isolated(samples, CANDIDATE) && Isolated(samples, MEMBER)
  }

  function Part(samples: seq<Sample>, split: Split): seq<Sample> {
    if samples == [] then [] else
    var shorter, last := Part(samples[..|samples| - 1], split), samples[|samples| - 1];
    if last.split == split then shorter + [last] else shorter
  }

  datatype BySplit = BySplit(calibration: seq<Sample>, validation: seq<Sample>, test: seq<Sample>) {

    function Add(s: Sample): BySplit {
      match s.split
      case CALIBRATION => this.(calibration := calibration + [s])
      case VALIDATION => this.(validation := validation + [s])
      case TEST => this.(test := test + [s])
      case OTHER_SPLIT => this
    }
  }

  function Parts(samples: seq<Sample>): BySplit {
    BySplit(Part(samples, CALIBRATION), Part(samples, VALIDATION), Part(samples, TEST))
  }

  lemma PartsMore(samples: seq<Sample>, s: Sample)
    ensures Parts(samples + [s]) == Parts(samples).Add(s)
  {
    assert (samples + [s])[..|samples|] == samples;
  }

  /** The dictionary of one role records the split of every identity seen so far, and nothing else. */
  ghost predicate Tracks(known: map<Sha, Split>, samples: seq<Sample>, role: Role) {
    Recorded(known, samples, role) && forall x :: x in known ==> Occurs(samples, role, x)
  }

  ghost predicate Recorded(known: map<Sha, Split>, samples: seq<Sample>, role: Role) {
    forall i, x :: 0 <= i < |samples| && x in Identities(samples[i], role) ==> x in known && known[x] == samples[i].split
  }

  ghost predicate Occurs(samples: seq<Sample>, role: Role, x: Sha) {
    exists i :: 0 <= i < |samples| && x in Identities(samples[i], role)
  }

  /** formal_evidence._unique_split for each identity of a sample in one role. */
  method AssignAll(known: map<Sha, Split>, identities: seq<Sha>, split: Split) returns (o: Option<map<Sha, Split>>)
    ensures o.Some? <==> forall x :: x in identities && x in known ==> known[x] == split
    ensures o.Some? ==> o.value.Keys == known.Keys + set x | x in identities
    ensures o.Some? ==> forall x :: x in o.value ==> o.value[x] == if x in identities then split else known[x]
  {
    var result := known;
    for i := 0 to |identities|
      invariant forall x :: x in identities[..i] && x in known ==> known[x] == split
      invariant result.Keys == known.Keys + set x | x in identities[..i]
      invariant forall x :: x in result ==> result[x] == if x in identities[..i] then split else known[x]
    {
      var identity := identities[i];
      if identity in result && result[identity] != split { return None; }
      result := result[identity := split];
    }
    assert identities[..|identities|] == identities;
    return Some(result);
  }

  /** One role of one more sample. */
  method TrackOne(known: map<Sha, Split>, ghost samples: seq<Sample>, s: Sample, role: Role) returns (o: Option<map<Sha, Split>>)
    requires Tracks(known, samples, role)
    ensures o.Some? <==> Isolated(samples + [s], role)
    ensures o.Some? ==> Tracks(o.value, samples + [s], role)
  {
    o := AssignAll(known, Identities(s, role), s.split);
    ghost var more := samples + [s];
    assert more[|samples|] == s;
    if o.Some? {
      TracksMore(known, o.value, samples, s, role);
    } else {
      TracksClash(known, samples, s, role);
    }
  }

  lemma TracksMore(known: map<Sha, Split>, result: map<Sha, Split>, samples: seq<Sample>, s: Sample, role: Role)
    requires Tracks(known, samples, role)
    requires forall x :: x in Identities(s, role) && x in known ==> known[x] == s.split
    requires result.Keys == known.Keys + set x | x in Identities(s, role)
    requires forall x :: x in result ==> result[x] == if x in Identities(s, role) then s.split else known[x]
    ensures Tracks(result, samples + [s], role) && Isolated(samples + [s], role)
  {
    forall x | x in result
      ensures Occurs(samples + [s], role, x)
    {
      assert x in known ==> Occurs(samples, role, x);
      OccursInMore(samples, s, role, x);
    }
    RecordedMore(known, result, samples, s, role);
    RecordedAreIsolated(result, samples + [s], role);
  }

  lemma OccursInMore(samples: seq<Sample>, s: Sample, role: Role, x: Sha)
    requires Occurs(samples, role, x) || x in Identities(s, role)
    ensures Occurs(samples + [s], role, x)
  {
    var more := samples + [s];
    if x in Identities(s, role) {
      assert x in Identities(more[|samples|], role);
    } else {
      var i :| 0 <= i < |samples| && x in Identities(samples[i], role);
      assert x in Identities(more[i], role);
    }
  }

  lemma RecordedMore(known: map<Sha, Split>, result: map<Sha, Split>, samples: seq<Sample>, s: Sample, role: Role)
    requires Recorded(known, samples, role)
    requires forall x :: x in Identities(s, role) && x in known ==> known[x] == s.split
    requires result.Keys == known.Keys + set x | x in Identities(s, role)
    requires forall x :: x in result ==> result[x] == if x in Identities(s, role) then s.split else known[x]
    ensures Recorded(result, samples + [s], role)
  {
    var more := samples + [s];
    forall i, x | 0 <= i < |more| && x in Identities(more[i], role)
      ensures x in result && result[x] == more[i].split
    {
      if i < |samples| {
        assert x in Identities(samples[i], role);
      }
    }
  }

  /** One dictionary that is right about all samples shows that no identity has two splits. */
  lemma RecordedAreIsolated(known: map<Sha, Split>, samples: seq<Sample>, role: Role)
    requires Recorded(known, samples, role)
    ensures Isolated(samples, role)
  {
    forall i, j, x | 0 <= i < |samples| && 0 <= j < |samples| && samples[i].split != samples[j].split && x in Identities(samples[i], role)
      ensures x !in Identities(samples[j], role)
    {
      assert known[x] == samples[i].split;
    }
  }

  lemma TracksClash(known: map<Sha, Split>, samples: seq<Sample>, s: Sample, role: Role)
    requires Tracks(known, samples, role)
    requires exists x :: x in Identities(s, role) && x in known && known[x] != s.split
    ensures !Isolated(samples + [s], role)
  {
    var more := samples + [s];
    var x :| x in Identities(s, role) && x in known && known[x] != s.split;
    assert Occurs(samples, role, x);
    var i :| 0 <= i < |samples| && x in Identities(samples[i], role);
    assert more[i] == samples[i] && more[|samples|] == s;
    assert more[i].split != more[|samples|].split && x in Identities(more[i], role) && x in Identities(more[|samples|], role);
  }

  lemma IsolatedPrefix(samples: seq<Sample>, n: nat, role: Role)
    requires n <= |samples| && Isolated(samples, role)
    ensures Isolated(samples[..n], role)
  {
  }

  /** Samples that sit where their group is assigned cannot leak a group: its split is a function of the group. */
  lemma GroupsAreIsolated(samples: seq<Sample>, hash: Sha -> nat)
    requires forall s :: s in samples ==> s.split == AssignSplit(hash(s.group))
    ensures Isolated(samples, GROUP)
  {
  }

  lemma PartitionPrefix(samples: seq<Sample>, n: nat, batch: bool, hash: Sha -> nat)
    requires n <= |samples|
    ensures PartitionOk(samples, batch, hash) ==> PartitionOk(samples[..n], batch, hash)
  {
    if PartitionOk(samples, batch, hash) {
      IsolatedPrefix(samples, n, FAMILY);
      IsolatedPrefix(samples, n, CANDIDATE);
      IsolatedPrefix(samples, n, MEMBER);
    }
  }

  /** The sets and dictionaries of the loop. */
  datatype Seen = Seen(
    ids: set<string>, bindings: set<Binding>,
    groups: map<Sha, Split>, families: map<Sha, Split>, candidates: map<Sha, Split>, members: map<Sha, Split>)

  const NOTHING_SEEN := Seen({}, {}, map[], map[], map[], map[])

  /** What the loop knows after some samples. */
  ghost predicate Collected(samples: seq<Sample>, seen: Seen) {
    && seen.ids == (set s | s in samples :: s.id)
    && seen.bindings == (set s | s in samples :: BindingOf(s))
    && Tracks(seen.groups, samples, GROUP) && Tracks(seen.families, samples, FAMILY)
    && Tracks(seen.candidates, samples, CANDIDATE) && Tracks(seen.members, samples, MEMBER)
  }

  lemma NothingCollected(samples: seq<Sample>, batch: bool, hash: Sha -> nat)
    requires samples == []
    ensures Collected(samples, NOTHING_SEEN) && PartitionOk(samples, batch, hash) && Parts(samples) == BySplit([], [], [])
  {
  }

  lemma MoreSeen(samples: seq<Sample>, s: Sample)
    ensures (set t | t in samples + [s] :: t.id) == (set t | t in samples :: t.id) + {s.id}
    ensures (set t | t in samples + [s] :: BindingOf(t)) == (set t | t in samples :: BindingOf(t)) + {BindingOf(s)}
  {
    assert forall t :: t in samples + [s] <==> t in samples || t == s;
    assert s in samples + [s];
  }

  lemma PartitionOneMore(samples: seq<Sample>, s: Sample, batch: bool, hash: Sha -> nat)
    requires PartitionOk(samples, batch, hash)
    ensures PartitionOk(samples + [s], batch, hash) <==>
            && SampleOk(s, batch) && s.split == AssignSplit(hash(s.group))
            && s.id !in (set t | t in samples :: t.id) && BindingOf(s) !in (set t | t in samples :: BindingOf(t))
            && Isolated(samples + [s], FAMILY) && Isolated(samples + [s], CANDIDATE) && Isolated(samples + [s], MEMBER)
  {
    var more := samples + [s];
    assert more[|samples|] == s;
    if PartitionOk(more, batch, hash) {
      forall t | t in samples
        ensures t.id != s.id && BindingOf(t) != BindingOf(s)
      {
        var i :| 0 <= i < |samples| && samples[i] == t;
        assert more[i] == t;
      }
    }
  }

  /** formal_evidence._partition_samples: accepts exactly the partitions without duplicates and leaks, and hands out the
      samples of each split in their order. The check on isolation groups rejects nothing. */
  method PartitionSamples(samples: seq<Sample>, batch: bool, hash: Sha -> nat) returns (o: Option<BySplit>)
    ensures o.Some? <==> LeakFree(samples, batch, hash)
    ensures o.Some? <==> PartitionOk(samples, batch, hash)
    ensures o.Some? ==> o.value == Parts(samples)
  {
    AcceptedIffLeakFree(samples, batch, hash);
    var bySplit := BySplit([], [], []);
    var seen := NOTHING_SEEN;
    NothingCollected(samples[..0], batch, hash);
    ghost var done := samples[..0];
    for i := 0 to |samples|
      invariant done == samples[..i] && SplitSoFar(done, batch, hash, seen, bySplit)
    {
      var ok;
      PrefixOfMore(samples, i, batch, hash);
      ok, seen, bySplit := Accept(done, samples[i], batch, hash, seen, bySplit);
      if !ok { return None; }
      done := done + [samples[i]];
    }
    assert done == samples;
    return Some(bySplit);
  }

  lemma PrefixOfMore(samples: seq<Sample>, i: nat, batch: bool, hash: Sha -> nat)
    requires i < |samples|
    ensures samples[..i] + [samples[i]] == samples[..i + 1]
    ensures PartitionOk(samples, batch, hash) ==> PartitionOk(samples[..i] + [samples[i]], batch, hash)
  {
    assert samples[..i] + [samples[i]] == samples[..i + 1];
    PartitionPrefix(samples, i + 1, batch, hash);
  }

  ghost predicate SplitSoFar(samples: seq<Sample>, batch: bool, hash: Sha -> nat, seen: Seen, bySplit: BySplit) {
    PartitionOk(samples, batch, hash) && Collected(samples, seen) && bySplit == Parts(samples)
  }

  /** One round of the loop. */
  method Accept(ghost samples: seq<Sample>, s: Sample, batch: bool, hash: Sha -> nat, seen: Seen, bySplit: BySplit)
    returns (ok: bool, seen': Seen, bySplit': BySplit)
    requires SplitSoFar(samples, batch, hash, seen, bySplit)
    ensures ok ==> SplitSoFar(samples + [s], batch, hash, seen', bySplit')
    ensures !ok ==> !PartitionOk(samples + [s], batch, hash)
  {
    PartitionOneMore(samples, s, batch, hash);
    MoreSeen(samples, s);
    PartsMore(samples, s);
    ok, seen', bySplit' := false, seen, bySplit;
    if !SampleOk(s, batch) || s.split != AssignSplit(hash(s.group)) { return; }
    GroupsAreIsolated(samples + [s], hash);
    var groups := TrackOne(seen.groups, samples, s, GROUP);
    assert groups.Some?;
    var families := TrackOne(seen.families, samples, s, FAMILY);
    if families.None? { return; }
    var candidates := TrackOne(seen.candidates, samples, s, CANDIDATE);
    if candidates.None? { return; }
    var members := TrackOne(seen.members, samples, s, MEMBER);
    if members.None? || s.id in seen.ids || BindingOf(s) in seen.bindings { return; }
    ok, bySplit' := true, bySplit.Add(s);
    seen' := Seen(seen.ids + {s.id}, seen.bindings + {BindingOf(s)}, groups.value, families.value, candidates.value, members.value);
  }

  lemma {:induction false} InPart(samples: seq<Sample>, split: Split, s: Sample)
    ensures s in Part(samples, split) <==> s in samples && s.split == split
  {
    if samples != [] {
      var shorter := samples[..|samples| - 1];
      InPart(shorter, split, s);
      assert s in samples <==> s in shorter || s == samples[|samples| - 1];
    }
  }

  /** The three parts of an accepted list are all of it: no sample is lost, none is in two of them. */
  lemma {:induction false} PartsPartition(samples: seq<Sample>)
    requires forall s :: s in samples ==> s.split != OTHER_SPLIT
    ensures multiset(Part(samples, CALIBRATION)) + multiset(Part(samples, VALIDATION)) + multiset(Part(samples, TEST)) == multiset(samples)
  {
    if samples != [] {
      var shorter, last := samples[..|samples| - 1], samples[|samples| - 1];
      assert samples == shorter + [last];
      PartsPartition(shorter);
    }
  }

  /** Position in the whole list of the k-th sample of a part. */
  lemma {:induction false} PartsKeepOrder(samples: seq<Sample>, split: Split, k: nat) returns (places: seq<nat>)
    requires k <= |Part(samples, split)|
    ensures |places| == k && forall i :: 0 <= i < k ==> places[i] < |samples| && samples[places[i]] == Part(samples, split)[i]
    ensures forall i, j :: 0 <= i < j < k ==> places[i] < places[j]
  {
    places := [];
    if samples != [] {
      var n := |samples| - 1;
      var part := Part(samples[..n], split);
      if k <= |part| {
        places := PartsKeepOrder(samples[..n], split, k);
      } else {
        places := PartsKeepOrder(samples[..n], split, k - 1);
        places := places + [n];
      }
    }
  }

  // What that means for the fields of the samples

  /** Two members of cohorts have no id, no candidate and no family in common, in whichever place it stands. */
  predicate MembersApart(m: Member, n: Member) {
    && m.id != n.id && m.candidate != n.candidate
    && m.sourceFamily != n.sourceFamily && m.sourceFamily != n.referenceFamily
    && m.referenceFamily != n.sourceFamily && m.referenceFamily != n.referenceFamily
  }

  /** Two samples of one kind have no candidate, family or member in common. */
  ghost predicate Apart(a: Body, b: Body) {
    match (a, b)
    case (Single(c, f, g), Single(c', f', g')) => c != c' && f != f' && f != g' && g != f' && g != g'
    case (Batch(_, _, ms), Batch(_, _, ns)) => forall m, n :: m in ms && n in ns ==> MembersApart(m, n)
    case _ => true
  }

  /** The sample is of the study's kind; a batch has as many members as it says, two at least, all different, and the digest
      of just these. */
  ghost predicate WellMade(s: Sample, batch: bool) {
    match s.body
    case Single(_, _, _) => !batch
    case Batch(cohort, expected, members) =>
      && batch && |members| >= 2 && cohort == Cohort(|members|, members) && expected == |members|
      && forall i, j :: 0 <= i < j < |members| ==> members[i].id != members[j].id && members[i].candidate != members[j].candidate
  }

  /** Of each hundred hash values the first sixty go to calibration, the next twenty to validation, the last to test. */
  predicate InItsSplit(split: Split, hash: nat) {
    match split
    case CALIBRATION => hash % 100 <= 59
    case VALIDATION => 60 <= hash % 100 <= 79
    case TEST => 80 <= hash % 100
    case OTHER_SPLIT => false
  }

  /** Two samples observe the same thing. */
  predicate SameObservation(a: Body, b: Body) {
    match (a, b)
    case (Single(c, _, _), Single(d, _, _)) => c == d
    case (Batch(c, _, _), Batch(d, _, _)) => c == d
    case _ => false
  }

  /** Every sample is well made and in its split, none is there twice, and samples of different splits are apart. */
  ghost predicate LeakFree(samples: seq<Sample>, batch: bool, hash: Sha -> nat) {
    && (forall s :: s in samples ==> WellMade(s, batch) && InItsSplit(s.split, hash(s.group)))
    && (forall i, j :: 0 <= i < j < |samples| ==>
          samples[i].id != samples[j].id && !SameObservation(samples[i].body, samples[j].body))
    && (forall i, j :: 0 <= i < |samples| && 0 <= j < |samples| && samples[i].split != samples[j].split ==>
          Apart(samples[i].body, samples[j].body))
  }

  lemma {:induction false} InFamilies(members: seq<Member>, x: Sha)
    ensures x in Families(members) <==> exists m :: m in members && (x == m.sourceFamily || x == m.referenceFamily)
  {
    if members != [] {
      var n := |members| - 1;
      InFamilies(members[..n], x);
      assert forall m :: m in members <==> m in members[..n] || m == members[n];
    }
  }

  lemma MemberIdentities(s: Sample, m: Member)
    requires s.body.Batch? && m in s.body.members
    ensures m.id in Identities(s, MEMBER) && m.candidate in Identities(s, CANDIDATE)
    ensures m.sourceFamily in Identities(s, FAMILY) && m.referenceFamily in Identities(s, FAMILY)
  {
    var members := s.body.members;
    var i :| 0 <= i < |members| && members[i] == m;
    assert Ids(members)[i] == m.id && Candidates(members)[i] == m.candidate;
    InFamilies(members, m.sourceFamily);
    InFamilies(members, m.referenceFamily);
  }

  ghost predicate Disjoint(a: Sample, b: Sample, role: Role) {
    forall x :: x in Identities(a, role) ==> x !in Identities(b, role)
  }

  /** Samples of one kind are apart exactly when no candidate, family or member plays a role in both. */
  lemma ApartIff(a: Sample, b: Sample)
    requires a.body.Single? == b.body.Single?
    ensures Apart(a.body, b.body) <==> Disjoint(a, b, FAMILY) && Disjoint(a, b, CANDIDATE) && Disjoint(a, b, MEMBER)
  {
    if a.body.Single? {
      assert Apart(a.body, b.body) ==> Disjoint(a, b, FAMILY) && Disjoint(a, b, CANDIDATE);
      var c, f, g := a.body.candidate, a.body.sourceFamily, a.body.referenceFamily;
      assert c in Identities(a, CANDIDATE) && f in Identities(a, FAMILY) && g in Identities(a, FAMILY);
      assert forall x :: x in Identities(b, FAMILY) <==> x == b.body.sourceFamily || x == b.body.referenceFamily;
    } else {
      if Disjoint(a, b, FAMILY) && Disjoint(a, b, CANDIDATE) && Disjoint(a, b, MEMBER) {
        forall m, n | m in a.body.members && n in b.body.members
          ensures MembersApart(m, n)
        {
          MemberIdentities(a, m);
          MemberIdentities(b, n);
        }
      }
      if Apart(a.body, b.body) {
        ApartBatches(a, b);
      }
    }
  }

  lemma ApartBatches(a: Sample, b: Sample)
    requires a.body.Batch? && b.body.Batch? && Apart(a.body, b.body)
    ensures Disjoint(a, b, FAMILY) && Disjoint(a, b, CANDIDATE) && Disjoint(a, b, MEMBER)
  {
    var ms, ns := a.body.members, b.body.members;
    forall x | x in Families(ms)
      ensures x !in Families(ns)
    {
      InFamilies(ms, x);
      InFamilies(ns, x);
      var m :| m in ms && (x == m.sourceFamily || x == m.referenceFamily);
      assert forall n :: n in ns ==> MembersApart(m, n);
    }
    forall i, j | 0 <= i < |ms| && 0 <= j < |ns|
      ensures Ids(ms)[i] != Ids(ns)[j] && Candidates(ms)[i] != Candidates(ns)[j]
    {
      assert MembersApart(ms[i], ns[j]);
    }
  }

  lemma WellMadeIff(s: Sample, batch: bool)
    ensures WellMade(s, batch) <==> SampleOk(s, batch)
  {
    if s.body.Batch? {
      var members := s.body.members;
      assert forall i :: 0 <= i < |members| ==> Ids(members)[i] == members[i].id && Candidates(members)[i] == members[i].candidate;
    }
  }

  /** The partition is accepted exactly when it is free of leaks, field by field. */
  lemma AcceptedIffLeakFree(samples: seq<Sample>, batch: bool, hash: Sha -> nat)
    ensures PartitionOk(samples, batch, hash) <==> LeakFree(samples, batch, hash)
  {
    forall s | s in samples
      ensures SampleOk(s, batch) && s.split == AssignSplit(hash(s.group)) <==> WellMade(s, batch) && InItsSplit(s.split, hash(s.group))
    {
      WellMadeIff(s, batch);
    }
    if forall s :: s in samples ==> WellMade(s, batch) {
      OneKind(samples, batch);
      forall i, j | 0 <= i < |samples| && 0 <= j < |samples|
        ensures Apart(samples[i].body, samples[j].body)
           <==> Disjoint(samples[i], samples[j], FAMILY) && Disjoint(samples[i], samples[j], CANDIDATE)
                && Disjoint(samples[i], samples[j], MEMBER)
        ensures BindingOf(samples[i]) == BindingOf(samples[j]) <==> SameObservation(samples[i].body, samples[j].body)
      {
        ApartIff(samples[i], samples[j]);
      }
      IsolatedIff(samples);
    }
  }

  lemma OneKind(samples: seq<Sample>, batch: bool)
    requires forall s :: s in samples ==> WellMade(s, batch)
    ensures forall i :: 0 <= i < |samples| ==> samples[i].body.Batch? == batch
  {
    forall i | 0 <= i < |samples|
      ensures samples[i].body.Batch? == batch
    {
      assert samples[i] in samples;
    }
  }

  lemma IsolatedIff(samples: seq<Sample>)
    ensures forall role :: Isolated(samples, role) <==>
              forall i, j :: 0 <= i < |samples| && 0 <= j < |samples| && samples[i].split != samples[j].split ==>
                               Disjoint(samples[i], samples[j], role)
  {
  }

  /** Data in one split says nothing about another: accepted samples of different splits share no group, id, candidate,
      family or member. */
  lemma PartsShareNothing(samples: seq<Sample>, batch: bool, hash: Sha -> nat, a: Sample, b: Sample)
    requires PartitionOk(samples, batch, hash) && a in samples && b in samples && a.split != b.split
    ensures a.group != b.group && a.id != b.id && Apart(a.body, b.body) && a.body.Batch? == b.body.Batch? == batch
  {
    AcceptedIffLeakFree(samples, batch, hash);
    var i :| 0 <= i < |samples| && samples[i] == a;
    var j :| 0 <= j < |samples| && samples[j] == b;
    assert i != j;
  }
}
