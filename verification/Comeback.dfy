/** Commit, let anything follow, roll back: what comes back, and exactly when. */
module Comeback {
  import opened Prelude
  import opened Order
  import opened Objects
  import opened Staging
  import opened Records
  import opened Repository
  import opened Rollback
  import M = Manifest
  import Mem = Memory
  import W = Writeback

  // ------------------------------------------------- what a commit leaves for good

  lemma HeadKeepsStore(d: Disk, steps: seq<Step>, env: Env)
    requires |steps| <= 1 && forall i :: 0 <= i < |steps| ==> steps[i].PointHead?
    ensures Do(d, steps, env).disk.store == d.store
  {
    if |steps| == 1 { assert steps == [steps[0]]; DoOne(d, steps[0], env); }
  }

  lemma OrderedPrefix(d: Disk, a: seq<Step>, b: seq<Step>, env: Env)
    requires WellOrdered(d, a + b, env)
    ensures WellOrdered(d, a, env)
  {
    hide Supported;
    assert forall i :: 0 <= i < |a| ==> (a + b)[..i] == a[..i] && (a + b)[i] == a[i];
  }

  /** A commit that went through has put its snapshot, trees, blobs and itself, and
      they are in every later store. */
  lemma CommittedStays(d: Disk, req: Repository.Request, now: int, env: Env, later: Store)
    requires Injective(env) && Healthy(d, env) && Committed(d, req, now, env)
    requires req.snapshot.Some? ==> SnapshotGiven(d, req.snapshot.value, env)
    requires Extends(Do(d, CommitPlan(d, req, now, env), env).disk.store, later)
    ensures AllPut(later, UpToBranch(d, req, now, env), env)
    ensures Healthy(Do(d, CommitPlan(d, req, now, env), env).disk, env)
  {
    hide Do, Healthy, StagePlan, WellOrdered, SnapshotSteps, SnapshotGiven;
    CommitPlanOrdered(d, req, now, env);
    EveryCutHealthy(d, CommitPlan(d, req, now, env), env);
    var (pre, heads) := (UpToBranch(d, req, now, env), HeadSteps(d, BranchFor(d, req)));
    assert CommitPlan(d, req, now, env) == pre + heads;
    OrderedPrefix(d, pre, heads, env);
    EveryCutHealthy(d, pre, env);
    DoConcat(d, pre, heads, env);
    HeadKeepsStore(Do(d, pre, env).disk, heads, env);
    PutLater(d, pre, Do(d, pre, env).disk, later, env);
  }

  lemma PutLater(d: Disk, steps: seq<Step>, after: Disk, later: Store, env: Env)
    requires Landed(d, steps, after, env) && Extends(after.store, later)
    ensures AllPut(later, steps, env)
  {
  }

  lemma TreeReadsBack(store: Store, m: map<string, Bytes>, prefixes: seq<string>, env: Env)
    requires AllPut(store, TreeSteps(m, prefixes, env), env)
    ensures ReadBlobs(store, TreeHash(m, env)) == Done(m)
    ensures m != map[] ==> LoadTree(store, TreeHash(m, env).value) == Some(TreeRefs(m, env))
    ensures forall n :: n in m ==> LoadBlob(store, env.addr(Blob(m[n]))) == Some(m[n])
  {
    hide StrLess, TreeRefs, AllPut, BlobSteps, Readable;
    if m != map[] {
      var names := SortedKeys(m.Keys);
      var (blobs, tree) := (BlobSteps(m, names, prefixes), StoreObject(Tree(TreeRefs(m, env)), false));
      PutParts(store, blobs, [tree], env);
      TreePut(store, tree, env);
      BlobsPut(store, m, names, prefixes, env);
      RefsReadBack(store, m, env);
    }
  }

  lemma RefsReadBack(store: Store, m: map<string, Bytes>, env: Env)
    requires forall n :: n in m ==> LoadBlob(store, env.addr(Blob(m[n]))) == Some(m[n])
    ensures var refs := TreeRefs(m, env);
            Readable(store, refs) && (map n | n in refs :: LoadBlob(store, refs[n].hash).value) == m
  {
    hide LoadBlob;
  }

  lemma BlobReadsBack(store: Store, b: Option<Bytes>, env: Env)
    requires AllPut(store, BlobStep(b), env)
    ensures ReadModel(store, BlobHash(b, env), env) ==
            if b.Some? && !env.utf8(b.value) then Failed else Done(b)
  {
    if b.Some? { assert BlobStep(b)[0] == StoreObject(Blob(b.value), false); }
  }

  /** The staged parts of a commit, read back. */
  lemma StagedReadsBack(store: Store, i: Inputs, branch: string, now: int, env: Env)
    requires AllPut(store, StagePlan(i, branch, now, env), env)
    ensures var c := CommitOf(i, now, env);
            && env.addr(c) in store && store[env.addr(c)] == c
            && ReadBlobs(store, TreeHash(i.prompts, env)) == Done(i.prompts)
            && ReadBlobs(store, TreeHash(i.tools, env)) == Done(i.tools)
            && ReadModel(store, BlobHash(i.model, env), env) ==
               (if i.model.Some? && !env.utf8(i.model.value) then Failed else Done(i.model))
            && (i.prompts != map[] ==> LoadTree(store, TreeHash(i.prompts, env).value) == Some(TreeRefs(i.prompts, env)))
            && (forall n :: n in i.prompts ==> LoadBlob(store, env.addr(Blob(i.prompts[n]))) == Some(i.prompts[n]))
  {
    hide AllPut, TreeSteps, BlobStep, CommitOf, ReadBlobs, ReadModel, TreeHash, BlobHash;
    var c := CommitOf(i, now, env);
    var last := [StoreObject(c, false), PointBranch(branch, env.addr(c))];
    PutParts(store, TreesOf(i, env) + BlobsOf(i), last, env);
    PutParts(store, TreesOf(i, env), BlobsOf(i), env);
    PutParts(store, TreeSteps(i.prompts, i.exempt, env), TreeSteps(i.tools, i.exempt, env), env);
    TreeReadsBack(store, i.prompts, i.exempt, env);
    TreeReadsBack(store, i.tools, i.exempt, env);
    assert BlobsOf(i) == BlobStep(i.model)
      + (BlobStep(i.intent) + BlobStep(i.plan) + BlobStep(i.transcript) + BlobStep(i.evals));
    PutParts(store, BlobStep(i.model),
             BlobStep(i.intent) + BlobStep(i.plan) + BlobStep(i.transcript) + BlobStep(i.evals), env);
    BlobReadsBack(store, i.model, env);
    LastPut(store, c, branch, env);
  }

  lemma SnapshotPut(store: Store, snap: Snapshot, env: Env)
    requires AllPut(store, SnapshotSteps(Some(snap)), env)
    ensures Mem.Persisted(store, snap, env)
    ensures env.addr(ManifestOf(snap)) in store && store[env.addr(ManifestOf(snap))] == ManifestOf(snap)
  {
    var steps := SnapshotSteps(Some(snap));
    forall i | 0 <= i < |snap.segments|
      ensures var o := SegmentObject(snap.segments[i]); env.addr(o) in store && store[env.addr(o)] == o
    {
      assert steps[i] == StoreObject(SegmentObject(snap.segments[i]), false);
    }
    assert steps[|snap.segments|] == StoreObject(ManifestOf(snap), false);
  }

  lemma OwnSegments(d: Disk, m: Mem.Mem, env: Env)
    ensures SnapshotGiven(d, Mem.SnapshotOf(m, env), env)
  {
    hide M.PushAll, M.PushOrder, M.KeyOf, M.Less, M.Before, Mem.SegmentsOf;
    var segs := Mem.SegmentsOf(m, SortedKeys(m.tables.Keys));
    var refs := Mem.RefsOf(segs, env);
    M.PushOrderFacts(refs);
    var o, pushed := M.PushOrder(refs), M.PushAll(refs);
    forall r | r in pushed ensures exists i :: 0 <= i < |segs| && env.addr(SegmentObject(segs[i])) == r.segment {
      var p :| 0 <= p < |pushed| && pushed[p] == r;
      assert env.addr(SegmentObject(segs[o[p]])) == r.segment;
    }
  }

  // ------------------------------------------------------------- the memory phase

  /** The memory phase of a rollback to this snapshot: it needs the steps, an adapter
      that is not stranded and a nonempty version, and then brings back schema and
      tables as they were. */
  lemma MemoryComesBack(store: Store, m: Mem.Mem, env: Env, live: Mem.Mem, files: DownFiles, acceptDataLoss: bool)
    requires Mem.Persisted(store, Mem.SnapshotOf(m, env), env)
    requires var o := ManifestOf(Mem.SnapshotOf(m, env)); env.addr(o) in store && store[env.addr(o)] == o
    ensures var h := env.addr(ManifestOf(Mem.SnapshotOf(m, env)));
            && (MemoryReady(store, live, m.schema, Some(h), files, acceptDataLoss) <==>
                Steps(live, m.schema, files, acceptDataLoss).Done? && !Mem.Stranded(live, m.schema) && m.schema != "")
            && var r := MemoryAfter(store, live, m.schema, Some(h), files, acceptDataLoss);
               (r.Done? ==> r.value.schema == m.schema && r.value.tables == Mem.NonEmpty(m.tables))
  {
    hide Mem.SnapshotOf, Mem.Persisted, Mem.TablesOf, Steps, MemoryAfter, Mem.Stranded, M.Decodable;
    var snap := Mem.SnapshotOf(m, env);
    assert snap.schemaVersion == m.schema by { SnapshotSchema(m, env); }
    Mem.SnapshotRoundTrip(m, store, env);
    Mem.SnapshotDecodesIff(m, env);
    MemoryReachesTarget(store, live, m.schema, Some(env.addr(ManifestOf(snap))), files, acceptDataLoss);
  }

  lemma SnapshotSchema(m: Mem.Mem, env: Env)
    ensures Mem.SnapshotOf(m, env).schemaVersion == m.schema
  {
  }

  // ------------------------------------------------------------------ the whole way

  /** A prompts map as directory entries, in name order. */
  function EntriesOf(m: map<string, Bytes>, components: string -> W.Path): seq<W.Entry> {
    var names := SortedKeys(m.Keys);
    seq(|names|, i requires 0 <= i < |names| => W.Entry(components(names[i]), Some(m[names[i]])))
  }

  lemma EntriesComeBack(store: Store, m: map<string, Bytes>, components: string -> W.Path, env: Env)
    requires m != map[] && LoadTree(store, TreeHash(m, env).value) == Some(TreeRefs(m, env))
    requires forall n :: n in m ==> LoadBlob(store, env.addr(Blob(m[n]))) == Some(m[n])
    ensures PromptEntries(store, TreeHash(m, env).value, components) == Some(EntriesOf(m, components))
  {
    hide LoadTree, LoadBlob, TreeHash, StrLess;
    var refs := TreeRefs(m, env);
    assert refs.Keys == m.Keys;
    SameEntries(store, refs, m, components);
  }

  lemma SameEntries(store: Store, refs: map<string, TypedRef>, m: map<string, Bytes>, components: string -> W.Path)
    requires refs.Keys == m.Keys && forall n :: n in m ==> LoadBlob(store, refs[n].hash) == Some(m[n])
    ensures var names := SortedKeys(refs.Keys);
            seq(|names|, i requires 0 <= i < |names| => W.Entry(components(names[i]), LoadBlob(store, refs[names[i]].hash)))
            == EntriesOf(m, components)
  {
    hide LoadBlob, StrLess;
  }

  /** What the rollback records: the commit's own content over the current tip. */
  function Again(creq: Repository.Request, m: Mem.Mem, target: Hash, tip: Option<Hash>,
                 req: Rollback.Request, env: Env): Inputs {
    Inputs("agentic-rollback", Message(target), tip, creq.codeSha, creq.prompts, creq.tools, creq.model,
           Some(env.addr(ManifestOf(Mem.SnapshotOf(m, env)))), Some(m.schema),
           None, None, None, None, 0, req.uid, req.exempt)
  }

  /** Everything outside the commit itself that a rollback to it still needs. */
  ghost predicate Possible(s: Situation, creq: Repository.Request, m: Mem.Mem, target: Hash,
                           req: Rollback.Request, setup: Setup, env: Env) {
    && (req.acceptDataLoss ==> req.approved)
    && s.disk.head.Some? && s.disk.head.value.OnBranch? && env.validName(s.disk.head.value.name)
    && s.mem.Some? && Steps(s.mem.value, m.schema, setup.down, req.acceptDataLoss).Done?
    && !Mem.Stranded(s.mem.value, m.schema) && m.schema != ""
    && (creq.prompts != map[] ==> W.Writable(s.files, s.dirs, EntriesOf(creq.prompts, setup.components)))
    && (creq.model.Some? ==> env.utf8(creq.model.value))
    && var branch := s.disk.head.value.name;
       Do(s.disk, StagePlan(Again(creq, m, target, Lookup(s.disk.branches, branch), req, env), branch, req.now, env), env).ok
  }

  /** The commit as it was made. */
  function Made(d: Disk, creq: Repository.Request, now: int, env: Env): Object {
    CommitOf(AssembledInputs(d, creq, env), now, env)
  }

  /** The store of any disk the attempts after the commit lead to holds the commit's
      parts. */
  lemma PartsStay(d: Disk, creq: Repository.Request, now: int, env: Env, m: Mem.Mem, attempts: seq<Attempt>)
    requires Injective(env) && Healthy(d, env) && Committed(d, creq, now, env)
    requires creq.snapshot == Some(Mem.SnapshotOf(m, env))
    requires SnapshotsGiven(Do(d, CommitPlan(d, creq, now, env), env).disk, attempts, env)
    ensures var end := Run(Do(d, CommitPlan(d, creq, now, env), env).disk, attempts, env);
            Healthy(end, env) && AllPut(end.store, UpToBranch(d, creq, now, env), env)
  {
    hide Do, Healthy, CommitPlan, UpToBranch, SnapshotsGiven, Run, Committed, SnapshotGiven, AllPut, Mem.SnapshotOf;
    OwnSegments(d, m, env);
    var after := Do(d, CommitPlan(d, creq, now, env), env).disk;
    ExtendsSelf(after.store);
    CommittedStays(d, creq, now, env, after.store);
    EveryRunHealthy(after, attempts, env);
    CommittedStays(d, creq, now, env, Run(after, attempts, env).store);
  }

  /** The recorded inputs of a rollback to the commit. */
  lemma InputsComeBack(store: Store, d: Disk, creq: Repository.Request, now: int, env: Env, m: Mem.Mem,
                       tip: Option<Hash>, target: Hash, req: Rollback.Request)
    requires creq.snapshot == Some(Mem.SnapshotOf(m, env))
    requires AllPut(store, UpToBranch(d, creq, now, env), env)
    ensures var c := Made(d, creq, now, env);
            && c.CommitObject? && LoadCommit(store, env.addr(c)) == Some(c.commit)
            && c.commit.schemaVersion == Some(m.schema)
            && c.commit.memorySnapshot == Some(env.addr(ManifestOf(Mem.SnapshotOf(m, env))))
            && c.commit.prompts == TreeHash(creq.prompts, env)
            && RecordInputs(store, c.commit, Message(target), tip, req.uid, req.exempt, env) ==
               if creq.model.Some? && !env.utf8(creq.model.value) then Failed else Done(Again(creq, m, target, tip, req, env))
  {
    hide AllPut, StagePlan, ReadBlobs, ReadModel, TreeHash, BlobHash, SnapshotSteps, Mem.SnapshotOf;
    var i := AssembledInputs(d, creq, env);
    PutParts(store, SnapshotSteps(creq.snapshot), StagePlan(i, BranchFor(d, creq), now, env), env);
    StagedReadsBack(store, i, BranchFor(d, creq), now, env);
    SnapshotSchema(m, env);
  }

  lemma PromptsComeBack(store: Store, d: Disk, creq: Repository.Request, now: int, env: Env, components: string -> W.Path)
    requires AllPut(store, UpToBranch(d, creq, now, env), env)
    ensures creq.prompts != map[] ==>
      PromptEntries(store, TreeHash(creq.prompts, env).value, components) == Some(EntriesOf(creq.prompts, components))
    ensures TreeHash(creq.prompts, env).Some? <==> creq.prompts != map[]
  {
    hide AllPut, StagePlan, ReadBlobs, ReadModel, BlobHash, SnapshotSteps, CommitOf, PromptEntries, EntriesOf;
    var i := AssembledInputs(d, creq, env);
    PutParts(store, SnapshotSteps(creq.snapshot), StagePlan(i, BranchFor(d, creq), now, env), env);
    StagedReadsBack(store, i, BranchFor(d, creq), now, env);
    if creq.prompts != map[] { EntriesComeBack(store, creq.prompts, components, env); }
  }

  /** Commit the live memory and prompts; let any commits and rollbacks follow, each
      cut off anywhere; then roll back to that commit. The rollback is ready exactly
      if everything outside the commit is in place, and once it has executed schema
      and nonempty tables are what they were at the commit, and the prompts directory
      is what writing the committed prompts makes it. */
  lemma RollbackReturns(
      d: Disk, creq: Repository.Request, now: int, env: Env, m: Mem.Mem, attempts: seq<Attempt>,
      s: Situation, req: Rollback.Request, setup: Setup, t: Situation, report: Report)
    requires Injective(env) && Healthy(d, env) && Committed(d, creq, now, env)
    requires creq.snapshot == Some(Mem.SnapshotOf(m, env))
    requires SnapshotsGiven(Do(d, CommitPlan(d, creq, now, env), env).disk, attempts, env)
    requires s.disk == Run(Do(d, CommitPlan(d, creq, now, env), env).disk, attempts, env).(budget := s.disk.budget)
    requires Denotes(s.disk, req.target, env.addr(Made(d, creq, now, env))) && NameOk(s.disk, req.target, env)
    requires !req.dryRun
    ensures Ready(s, req, setup, env) <==> Possible(s, creq, m, env.addr(Made(d, creq, now, env)), req, setup, env)
    ensures Ready(s, req, setup, env) &&
            Executed(s, t, Prepare(s.disk, req, env).value, req, setup, env, report) ==>
      && t.mem.Some? && t.mem.value.schema == m.schema && t.mem.value.tables == Mem.NonEmpty(m.tables)
      && (creq.prompts != map[] ==> PromptsRestored(t.files, s.files, EntriesOf(creq.prompts, setup.components)))
      && (creq.prompts == map[] ==> t.files == s.files)
  {
    hide Do, Healthy, CommitPlan, UpToBranch, SnapshotsGiven, Run, Committed, AllPut, Mem.SnapshotOf, StagePlan;
    hide CommitOf, AssembledInputs, RecordInputs, MemoryReady, MemoryAfter, PromptEntries, EntriesOf, PromptsRestored;
    hide Mem.Stranded, Steps, W.Writable, Resolve, TreeHash, BranchFor;
    PartsStay(d, creq, now, env, m, attempts);
    ResolvesTo(s.disk, req.target, env, env.addr(Made(d, creq, now, env)));
    var (store, c) := (s.disk.store, Made(d, creq, now, env));
    var tip := if s.disk.head.Some? && s.disk.head.value.OnBranch? then Lookup(s.disk.branches, s.disk.head.value.name) else None;
    InputsComeBack(store, d, creq, now, env, m, tip, env.addr(c), req);
    PromptsComeBack(store, d, creq, now, env, setup.components);
    SnapshotComesBack(store, d, creq, now, env, m);
    if s.mem.Some? { MemoryComesBack(store, m, env, s.mem.value, setup.down, req.acceptDataLoss); }
  }

  lemma SnapshotComesBack(store: Store, d: Disk, creq: Repository.Request, now: int, env: Env, m: Mem.Mem)
    requires creq.snapshot == Some(Mem.SnapshotOf(m, env)) && AllPut(store, UpToBranch(d, creq, now, env), env)
    ensures Mem.Persisted(store, Mem.SnapshotOf(m, env), env)
    ensures var o := ManifestOf(Mem.SnapshotOf(m, env)); env.addr(o) in store && store[env.addr(o)] == o
  {
    hide AllPut, StagePlan, SnapshotSteps, Mem.SnapshotOf;
    PutParts(store, SnapshotSteps(creq.snapshot), StagePlan(AssembledInputs(d, creq, env), BranchFor(d, creq), now, env), env);
    SnapshotPut(store, Mem.SnapshotOf(m, env), env);
  }
}
