/** Commits and rollback records as whole runs: the plan each attempt follows, the
    repository the runs leave behind, and the log. */
module Repository {
  import opened Prelude
  import opened Order
  import opened Objects
  import opened Staging
  import opened Records
  import M = Manifest
  import Segments

  // -------------------------------------------------------------- a commit attempt

  /** What the memory adapter hands over: the segments it stores while taking the
      snapshot, and the manifest. */
  datatype Snapshot = Snapshot(segments: seq<Segments.Segment>, schemaVersion: string, refs: seq<M.SegmentRef>)

  datatype Request = Request(
    branch: Option<string>, message: string, author: Option<string>, codeSha: Option<string>,
    prompts: map<string, Bytes>, model: Option<Bytes>, snapshot: Option<Snapshot>,
    tools: map<string, Bytes>, peerUid: Option<nat>, exempt: seq<string>)

  function ManifestOf(snap: Snapshot): Object { ManifestObject(snap.schemaVersion, snap.refs) }

  function SnapshotSteps(snap: Option<Snapshot>): seq<Step> {
    if snap.None? then []
    else
      seq(|snap.value.segments|, i requires 0 <= i < |snap.value.segments| =>
        StoreObject(SegmentObject(snap.value.segments[i]), false))
      + [StoreObject(ManifestOf(snap.value), false)]
  }

  /** The adapter's promise: every ref names a segment it stored now or earlier. */
  ghost predicate SnapshotGiven(d: Disk, snap: Snapshot, env: Env) {
    forall r :: r in snap.refs ==>
      Has(d.store, TypedRef(SegmentKind, r.segment))
      || exists i :: 0 <= i < |snap.segments| && env.addr(SegmentObject(snap.segments[i])) == r.segment
  }

  function BranchFor(d: Disk, req: Request): string {
    if req.branch.Some? then req.branch.value
    else if d.head.Some? && d.head.value.OnBranch? then d.head.value.name
    else "main"
  }

  function AssembledInputs(d: Disk, req: Request, env: Env): Inputs {
    Inputs(if req.author.Some? then req.author.value else "unknown", req.message,
           Lookup(d.branches, BranchFor(d, req)), req.codeSha, req.prompts, req.tools, req.model,
           if req.snapshot.Some? then Some(env.addr(ManifestOf(req.snapshot.value))) else None,
           if req.snapshot.Some? then Some(req.snapshot.value.schemaVersion) else None,
           None, None, None, None, 0, req.peerUid, req.exempt)
  }

  function HeadSteps(d: Disk, branch: string): seq<Step> {
    if d.head.None? then [PointHead(branch)] else []
  }

  /** Memory first, then staging, then the branch; HEAD last, on a first commit. */
  function CommitPlan(d: Disk, req: Request, now: int, env: Env): seq<Step> {
    var branch := BranchFor(d, req);
    if !env.validName(branch) then []
    else SnapshotSteps(req.snapshot) + StagePlan(AssembledInputs(d, req, env), branch, now, env) + HeadSteps(d, branch)
  }

  /** Everything up to the branch went through; the HEAD write may still fail. */
  predicate Committed(d: Disk, req: Request, now: int, env: Env) {
    env.validName(BranchFor(d, req)) && Do(d, UpToBranch(d, req, now, env), env).ok
  }

  function UpToBranch(d: Disk, req: Request, now: int, env: Env): seq<Step> {
    SnapshotSteps(req.snapshot) + StagePlan(AssembledInputs(d, req, env), BranchFor(d, req), now, env)
  }

  lemma SnapshotStepsOrdered(d: Disk, snap: Option<Snapshot>, env: Env)
    requires snap.Some? ==> SnapshotGiven(d, snap.value, env)
    ensures WellOrdered(d, SnapshotSteps(snap), env)
    ensures snap.Some? ==>
      Given(d, SnapshotSteps(snap), TypedRef(ManifestKind, env.addr(ManifestOf(snap.value))), env)
  {
    if snap.Some? {
      var all := SnapshotSteps(snap);
      var n := |snap.value.segments|;
      var segs := all[..n];
      var last := StoreObject(ManifestOf(snap.value), false);
      forall r | r in Refs(last.o) ensures Given(d, segs, r, env) {
        if !Has(d.store, r) {
          var i :| 0 <= i < n && env.addr(SegmentObject(snap.value.segments[i])) == r.hash;
          GivenBy(d, segs, i, env);
        }
      }
      WellOrderedSnoc(d, segs, last, env);
      assert all == segs + [last];
      GivenBy(d, all, n, env);
    }
  }

  lemma CommitPlanOrdered(d: Disk, req: Request, now: int, env: Env)
    requires Injective(env) && Healthy(d, env) && (req.snapshot.Some? ==> SnapshotGiven(d, req.snapshot.value, env))
    ensures WellOrdered(d, CommitPlan(d, req, now, env), env)
  {
    hide WellOrdered, StagePlan, SnapshotSteps, Given, Supported;
    var branch := BranchFor(d, req);
    if env.validName(branch) {
      var i := AssembledInputs(d, req, env);
      var pre, stage := SnapshotSteps(req.snapshot), StagePlan(i, branch, now, env);
      SnapshotStepsOrdered(d, req.snapshot, env);
      if i.parent.Some? { HasGiven(d, pre, TypedRef(CommitKind, i.parent.value), env); }
      StagePlanOrdered(d, pre, i, branch, now, env);
      HeadAfter(d, pre + stage, branch, env);
    } else {
      assert WellOrdered(d, [], env) by { NoSteps(d, env); }
    }
  }

  lemma HasGiven(d: Disk, before: seq<Step>, r: TypedRef, env: Env)
    requires Has(d.store, r)
    ensures Given(d, before, r, env)
  {
  }

  lemma NoSteps(d: Disk, env: Env)
    ensures WellOrdered(d, [], env)
  {
  }

  lemma HeadAfter(d: Disk, before: seq<Step>, branch: string, env: Env)
    requires WellOrdered(d, before, env) && before != []
    requires before[|before| - 1].PointBranch? && before[|before| - 1].branch == branch
    ensures WellOrdered(d, before + HeadSteps(d, branch), env)
  {
    if d.head.None? {
      WellOrderedSnoc(d, before, PointHead(branch), env);
    } else {
      assert before + [] == before;
    }
  }

  // ------------------------------------------------------- a rollback's new commit

  /** A tree dimension as names and bytes; every entry must be a readable blob. */
  predicate Readable(store: Store, entries: map<string, TypedRef>) {
    forall n :: n in entries ==> entries[n].kind == BlobKind && LoadBlob(store, entries[n].hash).Some?
  }

  function ReadBlobs(store: Store, h: Option<Hash>): Outcome<map<string, Bytes>> {
    if h.None? then Done(map[])
    else match LoadTree(store, h.value)
         case None => Failed
         case Some(entries) =>
           if !Readable(store, entries) then Failed
           else Done(map n | n in entries :: LoadBlob(store, entries[n].hash).value)
  }

  function ReadModel(store: Store, h: Option<Hash>, env: Env): Outcome<Option<Bytes>> {
    if h.None? then Done(None)
    else match LoadBlob(store, h.value)
         case None => Failed
         case Some(bytes) => if env.utf8(bytes) then Done(Some(bytes)) else Failed
  }

  /** The inputs that record `target`'s state as a new commit over `tip`. */
  function RecordInputs(store: Store, target: Commit, message: string, tip: Option<Hash>,
                        uid: Option<nat>, exempt: seq<string>, env: Env): Outcome<Inputs> {
    match (ReadBlobs(store, target.prompts), ReadBlobs(store, target.tools), ReadModel(store, target.model, env))
    case (Done(prompts), Done(tools), Done(model)) =>
      Done(Inputs("agentic-rollback", message, tip, target.codeSha, prompts, tools, model,
                  target.memorySnapshot, target.schemaVersion, None, None, None, None, 0, uid, exempt))
    case _ => Failed
  }

  /** The steps of a rollback's forward record, or none if it stops earlier. */
  function RecordPlan(d: Disk, target: Hash, message: string, uid: Option<nat>, exempt: seq<string>,
                      now: int, env: Env): seq<Step> {
    match LoadCommit(d.store, target)
    case None => []
    case Some(c) =>
      if d.head.None? || d.head.value.Detached? || !env.validName(d.head.value.name) then []
      else
        var branch := d.head.value.name;
        match RecordInputs(d.store, c, message, Lookup(d.branches, branch), uid, exempt, env)
        case Failed => []
        case Done(i) => StagePlan(i, branch, now, env)
  }

  lemma RecordPlanOrdered(d: Disk, target: Hash, message: string, uid: Option<nat>, exempt: seq<string>, now: int, env: Env)
    requires Healthy(d, env)
    ensures WellOrdered(d, RecordPlan(d, target, message, uid, exempt, now, env), env)
  {
    hide WellOrdered, StagePlan, Given;
    NoSteps(d, env);
    if RecordPlan(d, target, message, uid, exempt, now, env) != [] {
      var c := LoadCommit(d.store, target).value;
      var branch := d.head.value.name;
      var i := RecordInputs(d.store, c, message, Lookup(d.branches, branch), uid, exempt, env).value;
      if i.memorySnapshot.Some? {
        assert TypedRef(ManifestKind, i.memorySnapshot.value) in Refs(d.store[target]);
        HasGiven(d, [], TypedRef(ManifestKind, i.memorySnapshot.value), env);
      }
      if i.parent.Some? { HasGiven(d, [], TypedRef(CommitKind, i.parent.value), env); }
      StagePlanOrdered(d, [], i, branch, now, env);
      assert [] + StagePlan(i, branch, now, env) == StagePlan(i, branch, now, env);
    }
  }

  // ------------------------------------------------------------------ whole runs

  /** One attempt: a commit or a rollback's record under the commit lock, or a segment
      the memory adapter seals at any time. `budget` durable writes succeed, then the
      process dies or the disk fails; a refused blob stops it earlier. */
  datatype Attempt =
    | CommitAttempt(req: Request, now: int, budget: nat)
    | RecordAttempt(target: Hash, message: string, uid: Option<nat>, exempt: seq<string>, now: int, budget: nat)
    | SealAttempt(segment: Segments.Segment, budget: nat)

  function PlanOf(d: Disk, a: Attempt, env: Env): seq<Step> {
    match a
    case CommitAttempt(req, now, _) => CommitPlan(d, req, now, env)
    case RecordAttempt(t, message, uid, exempt, now, _) => RecordPlan(d, t, message, uid, exempt, now, env)
    case SealAttempt(s, _) => [StoreObject(SegmentObject(s), false)]
  }

  function After(d: Disk, a: Attempt, env: Env): Disk {
    Do(d.(budget := a.budget), PlanOf(d, a, env), env).disk
  }

  function Run(d: Disk, attempts: seq<Attempt>, env: Env): Disk {
    if attempts == [] then d
    else After(Run(d, attempts[..|attempts| - 1], env), attempts[|attempts| - 1], env)
  }

  /** Every snapshot handed over names stored segments. */
  ghost predicate SnapshotsGiven(d: Disk, attempts: seq<Attempt>, env: Env) {
    forall i :: 0 <= i < |attempts| && attempts[i].CommitAttempt? && attempts[i].req.snapshot.Some? ==>
      SnapshotGiven(Run(d, attempts[..i], env), attempts[i].req.snapshot.value, env)
  }

  const FRESH: Disk := Disk(map[], map[], None, 0)

  lemma FreshHealthy(env: Env)
    ensures Healthy(FRESH, env)
  {
  }

  lemma AttemptSafe(d: Disk, a: Attempt, env: Env)
    requires Injective(env) && Healthy(d, env)
    requires a.CommitAttempt? && a.req.snapshot.Some? ==> SnapshotGiven(d, a.req.snapshot.value, env)
    ensures Healthy(After(d, a, env), env) && Extends(d.store, After(d, a, env).store)
  {
    hide WellOrdered, CommitPlan, RecordPlan, Do, Healthy, Landed;
    match a {
      case CommitAttempt(req, now, _) => CommitPlanOrdered(d, req, now, env);
      case RecordAttempt(t, message, uid, exempt, now, _) => RecordPlanOrdered(d, t, message, uid, exempt, now, env);
      case SealAttempt(s, _) => SealOrdered(d, s, env);
    }
    BudgetIrrelevant(d, a.budget, PlanOf(d, a, env), env);
    EveryCutHealthy(d.(budget := a.budget), PlanOf(d, a, env), env);
  }

  lemma SealOrdered(d: Disk, s: Segments.Segment, env: Env)
    ensures WellOrdered(d, [StoreObject(SegmentObject(s), false)], env)
  {
  }

  lemma BudgetIrrelevant(d: Disk, budget: nat, steps: seq<Step>, env: Env)
    ensures Healthy(d, env) <==> Healthy(d.(budget := budget), env)
    ensures WellOrdered(d, steps, env) <==> WellOrdered(d.(budget := budget), steps, env)
  {
    hide Refs;
  }

  /** Crash-safe staging: whatever sequence of commits and rollback records is
      attempted, wherever each is cut off, the repository stays healthy: the store
      is whole, every tip is a stored commit, HEAD never names a tipless branch. */
  lemma {:induction false} EveryRunHealthy(d: Disk, attempts: seq<Attempt>, env: Env)
    requires Injective(env) && Healthy(d, env) && SnapshotsGiven(d, attempts, env)
    ensures Healthy(Run(d, attempts, env), env) && Extends(d.store, Run(d, attempts, env).store)
  {
    hide Healthy, SnapshotGiven, After;
    if attempts == [] {
      ExtendsSelf(d.store);
    } else {
      var n := |attempts| - 1;
      assert SnapshotsGiven(d, attempts[..n], env) by {
        assert forall i :: 0 <= i < n ==> attempts[..n][..i] == attempts[..i];
      }
      EveryRunHealthy(d, attempts[..n], env);
      AttemptSafe(Run(d, attempts[..n], env), attempts[n], env);
      ExtendsTransitive(d.store, Run(d, attempts[..n], env).store, Run(d, attempts, env).store);
    }
  }

  lemma ExtendsSelf(s: Store)
    ensures Extends(s, s)
  {
  }

  /** Starting from nothing: any reference chain out of any branch tip, after any
      run of interrupted attempts, ends at an object of the right kind. */
  lemma TipClosurePresent(attempts: seq<Attempt>, env: Env, branch: string, path: seq<TypedRef>)
    requires Injective(env) && SnapshotsGiven(FRESH, attempts, env)
    requires var d := Run(FRESH, attempts, env);
             branch in d.branches && Path(d.store, TypedRef(CommitKind, d.branches[branch]), path)
    ensures var d := Run(FRESH, attempts, env);
            && Has(d.store, TypedRef(CommitKind, d.branches[branch]))
            && forall i :: 0 <= i < |path| ==> Has(d.store, path[i])
  {
    hide Run;
    FreshHealthy(env);
    EveryRunHealthy(FRESH, attempts, env);
    var d := Run(FRESH, attempts, env);
    ClosurePresent(d.store, TypedRef(CommitKind, d.branches[branch]), path);
  }

  // --------------------------------------------- memory and schema version together

  /** A commit has a schema version exactly if it has a manifest. */
  predicate Paired(c: Commit) { c.schemaVersion.Some? <==> c.memorySnapshot.Some? }

  ghost predicate AllPaired(store: Store) {
    forall h :: h in store && store[h].CommitObject? ==> Paired(store[h].commit)
  }

  ghost predicate StoresPaired(steps: seq<Step>) {
    forall i :: 0 <= i < |steps| && steps[i].StoreObject? && steps[i].o.CommitObject? ==> Paired(steps[i].o.commit)
  }

  lemma {:induction false} DoKeepsPaired(d: Disk, steps: seq<Step>, env: Env)
    requires AllPaired(d.store) && StoresPaired(steps)
    ensures AllPaired(Do(d, steps, env).disk.store)
  {
    if steps != [] { DoKeepsPaired(d, steps[..|steps| - 1], env); }
  }

  lemma StagesPaired(i: Inputs, branch: string, now: int, env: Env)
    requires i.schemaVersion.Some? <==> i.memorySnapshot.Some?
    ensures StoresPaired(StagePlan(i, branch, now, env))
  {
    hide TreeSteps, BlobStep, TreeHash, BlobHash;
    TreePaired(i.prompts, i.exempt, env);
    TreePaired(i.tools, i.exempt, env);
    BlobPaired(i.model);
    BlobPaired(i.intent);
    BlobPaired(i.plan);
    BlobPaired(i.transcript);
    BlobPaired(i.evals);
  }

  lemma TreePaired(m: map<string, Bytes>, prefixes: seq<string>, env: Env)
    ensures StoresPaired(TreeSteps(m, prefixes, env))
  {
  }

  lemma BlobPaired(b: Option<Bytes>)
    ensures StoresPaired(BlobStep(b))
  {
  }

  lemma SnapshotPaired(snap: Option<Snapshot>)
    ensures StoresPaired(SnapshotSteps(snap))
  {
  }

  lemma PlanPaired(d: Disk, a: Attempt, env: Env)
    requires AllPaired(d.store)
    ensures StoresPaired(PlanOf(d, a, env))
  {
    hide StagePlan, SnapshotSteps, ReadBlobs, ReadModel, BranchFor;
    match a {
      case CommitAttempt(req, now, _) =>
        SnapshotPaired(req.snapshot);
        StagesPaired(AssembledInputs(d, req, env), BranchFor(d, req), now, env);
      case RecordAttempt(t, message, uid, exempt, now, _) =>
        if RecordPlan(d, t, message, uid, exempt, now, env) != [] {
          var (c, branch) := (LoadCommit(d.store, t).value, d.head.value.name);
          var i := RecordInputs(d.store, c, message, Lookup(d.branches, branch), uid, exempt, env).value;
          assert Paired(c);
          StagesPaired(i, branch, now, env);
        }
      case SealAttempt(s, _) =>
    }
  }

  /** The daemon's commits store both or neither: whatever commits, rollback records
      and sealed segments are attempted from nothing, each cut off anywhere, every
      stored commit has a schema version exactly if it has a manifest. */
  lemma {:induction false} EveryCommitPaired(attempts: seq<Attempt>, env: Env)
    ensures AllPaired(Run(FRESH, attempts, env).store)
  {
    hide PlanOf, Do;
    if attempts != [] {
      var n := |attempts| - 1;
      EveryCommitPaired(attempts[..n], env);
      var d := Run(FRESH, attempts[..n], env);
      PlanPaired(d, attempts[n], env);
      DoKeepsPaired(d.(budget := attempts[n].budget), PlanOf(d, attempts[n], env), env);
    }
  }

  // -------------------------------------------------------------------------- log

  type Log = seq<(Hash, Commit)>

  function LogFrom(store: Store, start: Option<Hash>, limit: nat): Outcome<Log>
    decreases limit
  {
    if start.None? || limit == 0 then Done([])
    else match LoadCommit(store, start.value)
         case None => Failed
         case Some(c) =>
           Prepended([(start.value, c)], LogFrom(store, c.parent, limit - 1))
  }

  function Prepended(front: Log, r: Outcome<Log>): Outcome<Log> {
    match r case Failed => Failed case Done(rest) => Done(front + rest)
  }

  /** Follow parent links, newest first. */
  method WalkLog(store: Store, start: Hash, limit: nat) returns (r: Outcome<Log>)
    ensures r == LogFrom(store, Some(start), limit)
  {
    var out: Log := [];
    var cursor := Some(start);
    PrependNothing(LogFrom(store, cursor, limit));
    while cursor.Some? && |out| < limit
      invariant |out| <= limit
      invariant LogFrom(store, Some(start), limit) == Prepended(out, LogFrom(store, cursor, limit - |out|))
      decreases limit - |out|
    {
      var c := LoadCommit(store, cursor.value);
      if c.None? { return Failed; }
      PrependTwice(out, [(cursor.value, c.value)], LogFrom(store, c.value.parent, limit - |out| - 1));
      out := out + [(cursor.value, c.value)];
      cursor := c.value.parent;
    }
    assert out + [] == out;
    return Done(out);
  }

  lemma PrependNothing(r: Outcome<Log>)
    ensures Prepended([], r) == r
  {
    if r.Done? { assert [] + r.value == r.value; }
  }

  lemma PrependTwice(a: Log, b: Log, r: Outcome<Log>)
    ensures Prepended(a, Prepended(b, r)) == Prepended(a + b, r)
  {
    if r.Done? { assert a + (b + r.value) == a + b + r.value; }
  }

  /** In a healthy repository the log of a tip can always be walked. */
  lemma {:induction false} LogNeverFails(store: Store, start: Option<Hash>, limit: nat)
    requires Whole(store) && (start.Some? ==> Has(store, TypedRef(CommitKind, start.value)))
    ensures LogFrom(store, start, limit).Done?
    decreases limit
  {
    if start.Some? && limit > 0 {
      var c := LoadCommit(store, start.value).value;
      if c.parent.Some? { assert TypedRef(CommitKind, c.parent.value) in Refs(store[start.value]); }
      LogNeverFails(store, c.parent, limit - 1);
    }
  }

  /** Later writes do not change a log that could be walked. */
  lemma {:induction false} LogStable(store: Store, more: Store, start: Option<Hash>, limit: nat)
    requires Extends(store, more) && LogFrom(store, start, limit).Done?
    ensures LogFrom(more, start, limit) == LogFrom(store, start, limit)
    decreases limit
  {
    if start.Some? && limit > 0 {
      LogStable(store, more, LoadCommit(store, start.value).value.parent, limit - 1);
    }
  }

  /** When staging succeeds its commit is the new tip, and the new tip's log is
      that commit followed by the log there was. */
  lemma StagedLog(d: Disk, i: Inputs, branch: string, now: int, env: Env, limit: nat)
    requires Injective(env) && Healthy(d, env) && i.parent == Lookup(d.branches, branch)
    requires i.memorySnapshot.Some? ==> Has(d.store, TypedRef(ManifestKind, i.memorySnapshot.value))
    requires Do(d, StagePlan(i, branch, now, env), env).ok
    ensures var d' := Do(d, StagePlan(i, branch, now, env), env).disk;
            var c := CommitOf(i, now, env);
            && Extends(d.store, d'.store) && d'.head == d.head && d'.branches == d.branches[branch := env.addr(c)]
            && LogFrom(d.store, Lookup(d.branches, branch), limit).Done?
            && LogFrom(d'.store, Lookup(d'.branches, branch), limit + 1) ==
               Done([(env.addr(c), c.commit)] + LogFrom(d.store, Lookup(d.branches, branch), limit).value)
  {
    hide Healthy, Landed, WellOrdered, Do, LogFrom, TreesOf, BlobsOf, CommitOf, Given;
    var plan := StagePlan(i, branch, now, env);
    StagePlanStands(d, i, branch, now, env);
    StagedRefs(d, i, branch, now, env);
    var d' := Do(d, plan, env).disk;
    var c := CommitOf(i, now, env);
    assert d'.store[env.addr(c)] == c by { LandedCommit(d, i, branch, now, d', env); }
    TipLog(d, branch, limit, env);
    LogStable(d.store, d'.store, i.parent, limit);
    CommitShape(i, now, env);
    LogStep(d'.store, env.addr(c), c.commit, limit);
  }

  lemma StagePlanStands(d: Disk, i: Inputs, branch: string, now: int, env: Env)
    requires Injective(env) && Healthy(d, env) && i.parent == Lookup(d.branches, branch)
    requires i.memorySnapshot.Some? ==> Has(d.store, TypedRef(ManifestKind, i.memorySnapshot.value))
    ensures var plan := StagePlan(i, branch, now, env);
            var r := Do(d, plan, env);
            Healthy(r.disk, env) && Extends(d.store, r.disk.store) && (r.ok ==> Landed(d, plan, r.disk, env))
  {
    hide StagePlan, Landed, WellOrdered, Do, Given;
    if i.parent.Some? { HasGiven(d, [], TypedRef(CommitKind, i.parent.value), env); }
    if i.memorySnapshot.Some? { HasGiven(d, [], TypedRef(ManifestKind, i.memorySnapshot.value), env); }
    NoSteps(d, env);
    StagePlanOrdered(d, [], i, branch, now, env);
    assert [] + StagePlan(i, branch, now, env) == StagePlan(i, branch, now, env);
    EveryCutHealthy(d, StagePlan(i, branch, now, env), env);
  }

  lemma CommitShape(i: Inputs, now: int, env: Env)
    ensures CommitOf(i, now, env).CommitObject? && CommitOf(i, now, env).commit.parent == i.parent
  {
  }

  lemma LandedCommit(d: Disk, i: Inputs, branch: string, now: int, d': Disk, env: Env)
    requires Landed(d, StagePlan(i, branch, now, env), d', env)
    ensures var c := CommitOf(i, now, env); env.addr(c) in d'.store && d'.store[env.addr(c)] == c
  {
    hide CommitOf, TreesOf, BlobsOf;
    var plan := StagePlan(i, branch, now, env);
    assert plan[|plan| - 2] == StoreObject(CommitOf(i, now, env), false);
  }

  lemma TipLog(d: Disk, branch: string, limit: nat, env: Env)
    requires Healthy(d, env)
    ensures LogFrom(d.store, Lookup(d.branches, branch), limit).Done?
  {
    LogNeverFails(d.store, Lookup(d.branches, branch), limit);
  }

  lemma LogStep(store: Store, h: Hash, c: Commit, limit: nat)
    requires LoadCommit(store, h) == Some(c) && LogFrom(store, c.parent, limit).Done?
    ensures LogFrom(store, Some(h), limit + 1) == Done([(h, c)] + LogFrom(store, c.parent, limit).value)
  {
  }

  ghost predicate OnlyStores(steps: seq<Step>) {
    forall i :: 0 <= i < |steps| ==> steps[i].StoreObject?
  }

  lemma {:induction false} StoresKeepRefs(d: Disk, steps: seq<Step>, env: Env)
    requires OnlyStores(steps)
    ensures Do(d, steps, env).disk.branches == d.branches && Do(d, steps, env).disk.head == d.head
  {
    if steps != [] { StoresKeepRefs(d, steps[..|steps| - 1], env); }
  }

  /** Staging moves one branch, at the very end, and never HEAD. */
  lemma StagedRefs(d: Disk, i: Inputs, branch: string, now: int, env: Env)
    ensures var r := Do(d, StagePlan(i, branch, now, env), env);
            && r.disk.head == d.head
            && r.disk.branches == if r.ok then d.branches[branch := env.addr(CommitOf(i, now, env))] else d.branches
  {
    hide Do, CommitOf, TreeSteps, BlobStep;
    var c := CommitOf(i, now, env);
    var stores := TreesOf(i, env) + BlobsOf(i) + [StoreObject(c, false)];
    var last := PointBranch(branch, env.addr(c));
    assert StagePlan(i, branch, now, env) == stores + [last];
    assert OnlyStores(stores) by { StagesObjects(i, env); }
    StoresKeepRefs(d, stores, env);
    DoConcat(d, stores, [last], env);
    DoOne(Do(d, stores, env).disk, last, env);
  }

  lemma StagesObjects(i: Inputs, env: Env)
    ensures OnlyStores(TreesOf(i, env) + BlobsOf(i))
  {
    hide TreeSteps, BlobStep;
    TreeStores(i.prompts, i.exempt, env);
    TreeStores(i.tools, i.exempt, env);
    BlobStores(i.model);
    BlobStores(i.intent);
    BlobStores(i.plan);
    BlobStores(i.transcript);
    BlobStores(i.evals);
  }

  lemma TreeStores(m: map<string, Bytes>, prefixes: seq<string>, env: Env)
    ensures OnlyStores(TreeSteps(m, prefixes, env))
  {
  }

  lemma BlobStores(b: Option<Bytes>)
    ensures OnlyStores(BlobStep(b))
  {
  }

  // ----------------------------------------------------------- what a commit records

  /** The branch a request names, else the one HEAD is on, else `main`. */
  ghost predicate GoesTo(d: Disk, req: Request, branch: string) {
    && (req.branch.Some? ==> branch == req.branch.value)
    && (req.branch.None? && d.head.Some? && d.head.value.OnBranch? ==> branch == d.head.value.name)
    && (req.branch.None? && (d.head.None? || d.head.value.Detached?) ==> branch == "main")
  }

  /** The commit at `h` says what the request and the clock say, over the tip of its
      branch, which it has moved; HEAD is set only if there was none. */
  ghost predicate CommitMade(before: Disk, after: Disk, h: Hash, req: Request, now: int, branch: string, env: Env) {
    && GoesTo(before, req, branch)
    && after.branches == before.branches[branch := h]
    && (before.head.Some? ==> after.head == before.head)
    && (before.head.None? ==> after.head == Some(OnBranch(branch)) || (after.head == None && after.budget == 0))
    && LoadCommit(after.store, h).Some?
    && var c := LoadCommit(after.store, h).value;
       && c.parent == Lookup(before.branches, branch)
       && c.author == (if req.author.Some? then req.author.value else "unknown")
       && c.timestamp == now && c.message == req.message && c.codeSha == req.codeSha && c.peerUid == req.peerUid
       && c.costCents == 0 && c.intent == None && c.plan == None && c.transcript == None && c.evals == None
       && TreeBack(after.store, c.prompts, req.prompts) && TreeBack(after.store, c.tools, req.tools)
       && BlobBack(after.store, c.model, req.model)
       && SnapshotBack(after.store, c, req.snapshot, env)
  }

  /** Manifest and segments are stored, and the commit names the manifest. */
  ghost predicate SnapshotBack(store: Store, c: Commit, snap: Option<Snapshot>, env: Env) {
    match snap
    case None => c.memorySnapshot == None && c.schemaVersion == None
    case Some(s) =>
      && c.schemaVersion == Some(s.schemaVersion) && c.memorySnapshot.Some? && c.memorySnapshot.value in store
      && store[c.memorySnapshot.value] == ManifestObject(s.schemaVersion, s.refs)
      && forall i :: 0 <= i < |s.segments| ==>
           env.addr(SegmentObject(s.segments[i])) in store
           && store[env.addr(SegmentObject(s.segments[i]))] == SegmentObject(s.segments[i])
  }

  lemma SnapshotSaid(store: Store, c: Commit, snap: Option<Snapshot>, env: Env)
    requires AllPut(store, SnapshotSteps(snap), env)
    requires c.memorySnapshot == if snap.Some? then Some(env.addr(ManifestOf(snap.value))) else None
    requires c.schemaVersion == if snap.Some? then Some(snap.value.schemaVersion) else None
    ensures SnapshotBack(store, c, snap, env)
  {
    if snap.Some? {
      var (s, steps) := (snap.value, SnapshotSteps(snap));
      forall i | 0 <= i < |s.segments|
        ensures var o := SegmentObject(s.segments[i]); env.addr(o) in store && store[env.addr(o)] == o
      {
        assert steps[i] == StoreObject(SegmentObject(s.segments[i]), false);
      }
      assert steps[|s.segments|] == StoreObject(ManifestOf(s), false);
    }
  }

  /** A commit that went through, also if its HEAD write failed, says what was asked. */
  lemma CommitSays(d: Disk, req: Request, now: int, env: Env)
    requires Injective(env) && Addressed(d.store, env) && Committed(d, req, now, env)
    ensures var h := env.addr(CommitOf(AssembledInputs(d, req, env), now, env));
            CommitMade(d, Do(d, CommitPlan(d, req, now, env), env).disk, h, req, now, BranchFor(d, req), env)
  {
    hide Do, StagePlan, SnapshotSteps, CommitOf, AllPut, TreeBack, BlobBack, SnapshotBack;
    var (i, branch) := (AssembledInputs(d, req, env), BranchFor(d, req));
    var (pre, stage) := (SnapshotSteps(req.snapshot), StagePlan(i, branch, now, env));
    var h := env.addr(CommitOf(i, now, env));
    DoPuts(d, pre + stage, env);
    var mid := Do(d, pre + stage, env).disk;
    PutParts(mid.store, pre, stage, env);
    StagedSays(mid.store, i, branch, now, env);
    DoConcat(d, pre, stage, env);
    SnapshotKeepsRefs(d, req.snapshot, env);
    StagedRefs(Do(d, pre, env).disk, i, branch, now, env);
    DoConcat(d, pre + stage, HeadSteps(d, branch), env);
    HeadLast(mid, d, branch, env);
    SnapshotSaid(mid.store, LoadCommit(mid.store, h).value, req.snapshot, env);
    NothingBack(mid.store, LoadCommit(mid.store, h).value);
  }

  ghost predicate CleanSnapshot(snap: Option<Snapshot>, env: Env) {
    snap.Some? ==>
      && !env.rejects(ManifestOf(snap.value), false)
      && forall i :: 0 <= i < |snap.value.segments| ==> !env.rejects(SegmentObject(snap.value.segments[i]), false)
  }

  function SnapshotCost(snap: Option<Snapshot>): nat { if snap.Some? then |snap.value.segments| + 1 else 0 }

  lemma SnapshotPass(snap: Option<Snapshot>, env: Env)
    ensures NoneRefused(SnapshotSteps(snap), env) <==> CleanSnapshot(snap, env)
    ensures |SnapshotSteps(snap)| == SnapshotCost(snap)
  {
    if snap.Some? && NoneRefused(SnapshotSteps(snap), env) {
      var (s, steps) := (snap.value, SnapshotSteps(snap));
      assert !Refused(steps[|s.segments|], env);
      forall i | 0 <= i < |s.segments| ensures !env.rejects(SegmentObject(s.segments[i]), false) {
        assert !Refused(steps[i], env);
      }
    }
  }

  /** A commit goes through exactly if its branch has a valid name, the scanner passes
      everything it stores, and there is room for all of it and the branch. */
  lemma CommitSucceedsIff(d: Disk, req: Request, now: int, env: Env)
    ensures Committed(d, req, now, env) <==>
      && env.validName(BranchFor(d, req)) && CleanSnapshot(req.snapshot, env)
      && Clean(req.prompts, req.exempt, env) && Clean(req.tools, req.exempt, env) && CleanBlob(req.model, env)
      && SnapshotCost(req.snapshot) + TreeCost(req.prompts) + TreeCost(req.tools) + BlobCost(req.model) + 2 <= d.budget
  {
    hide Do, StagePlan, SnapshotSteps, SnapshotCost, CleanSnapshot, Clean, TreeCost, NoneRefused, BranchFor;
    var (i, branch) := (AssembledInputs(d, req, env), BranchFor(d, req));
    var pre := SnapshotSteps(req.snapshot);
    DoConcat(d, pre, StagePlan(i, branch, now, env), env);
    DoOkIff(d, pre, env);
    AllPass(pre, env);
    SnapshotPass(req.snapshot, env);
    StagingSucceedsIff(Do(d, pre, env).disk, i, branch, now, env);
  }

  lemma SnapshotKeepsRefs(d: Disk, snap: Option<Snapshot>, env: Env)
    ensures Do(d, SnapshotSteps(snap), env).disk.branches == d.branches && Do(d, SnapshotSteps(snap), env).disk.head == d.head
  {
    StoresKeepRefs(d, SnapshotSteps(snap), env);
  }

  lemma HeadLast(mid: Disk, d: Disk, branch: string, env: Env)
    requires mid.head == d.head && env.validName(branch)
    ensures var r := Do(mid, HeadSteps(d, branch), env).disk;
            && r.store == mid.store && r.branches == mid.branches
            && (d.head.Some? ==> r.head == d.head)
            && (d.head.None? ==> r.head == Some(OnBranch(branch)) || (r.head == None && r.budget == 0))
  {
    if d.head.None? { DoOne(mid, PointHead(branch), env); } else { DoNothing(mid, env); }
  }

  lemma NothingBack(store: Store, c: Commit)
    ensures BlobBack(store, c.intent, None) ==> c.intent == None
    ensures BlobBack(store, c.plan, None) ==> c.plan == None
    ensures BlobBack(store, c.transcript, None) ==> c.transcript == None
    ensures BlobBack(store, c.evals, None) ==> c.evals == None
  {
  }

  // ---------------------------------------------------------------- step by step

  /** The daemon's store and refs, written one durable step at a time. */
  class Repo {
    var store: Store
    var branches: map<string, Hash>
    var head: Option<HeadRef>
    var budget: nat
    const env: Env

    constructor (d: Disk, e: Env)
      ensures View() == d && env == e
    {
      store, branches, head, budget, env := d.store, d.branches, d.head, d.budget, e;
    }

    function View(): Disk
      reads this
    {
      Disk(store, branches, head, budget)
    }

    method PutObject(o: Object, skipEntropy: bool) returns (h: Option<Hash>)
      modifies this
      ensures Progress(View(), h.Some?) == Do1(old(View()), StoreObject(o, skipEntropy), env)
      ensures h.Some? ==> h.value == env.addr(o)
    {
      if !o.Tree? && !o.CommitObject? && env.rejects(o, skipEntropy) { return None; }
      if budget == 0 { return None; }
      budget := budget - 1;
      if env.addr(o) !in store { store := store[env.addr(o) := o]; }
      return Some(env.addr(o));
    }

    method WriteBranch(branch: string, h: Hash) returns (ok: bool)
      modifies this
      ensures Progress(View(), ok) == Do1(old(View()), PointBranch(branch, h), env)
    {
      if !env.validName(branch) || budget == 0 { return false; }
      budget := budget - 1;
      branches := branches[branch := h];
      return true;
    }

    method WriteHead(branch: string) returns (ok: bool)
      modifies this
      ensures Progress(View(), ok) == Do1(old(View()), PointHead(branch), env)
    {
      if !env.validName(branch) || budget == 0 { return false; }
      budget := budget - 1;
      head := Some(OnBranch(branch));
      return true;
    }

    /** Stage a map of blobs as a tree, name by name. */
    method StageBlobTree(m: map<string, Bytes>, prefixes: seq<string>) returns (r: Outcome<Option<Hash>>)
      modifies this
      ensures Progress(View(), r.Done?) == Do(old(View()), TreeSteps(m, prefixes, env), env)
      ensures r.Done? ==> r.value == TreeHash(m, env)
    {
      hide Do, Do1, BlobSteps, TreeRefs;
      if m == map[] {
        DoNothing(View(), env);
        return Done(None);
      }
      var names := SortedKeys(m.Keys);
      ghost var tree := StoreObject(Tree(TreeRefs(m, env)), false);
      DoConcat(View(), BlobSteps(m, names, prefixes), [tree], env);
      var entries := StageEntries(m, names, prefixes);
      if entries.Failed? { return Failed; }
      DoOne(View(), tree, env);
      var h := PutObject(Tree(entries.value), false);
      return if h.Some? then Done(Some(h.value)) else Failed;
    }

    method StageEntries(m: map<string, Bytes>, names: seq<string>, prefixes: seq<string>)
      returns (r: Outcome<map<string, TypedRef>>)
      requires forall n :: n in names <==> n in m
      modifies this
      ensures Progress(View(), r.Done?) == Do(old(View()), BlobSteps(m, names, prefixes), env)
      ensures r.Done? ==> r.value == TreeRefs(m, env)
    {
      hide Do, Do1;
      ghost var d := View();
      ghost var steps := BlobSteps(m, names, prefixes);
      var entries: map<string, TypedRef> := map[];
      DoNothing(d, env);
      assert steps[..0] == [];
      for i := 0 to |names|
        invariant Do(d, steps[..i], env) == Progress(View(), true)
        invariant entries == RefsFor(m, names[..i], env)
      {
        var n := names[i];
        DoNext(d, steps, i, env);
        var h := PutObject(Blob(m[n]), Exempt(n, prefixes));
        if h.None? {
          DoStops(d, steps, i + 1, env);
          return Failed;
        }
        RefsForNext(m, names, i, env);
        entries := entries[n := TypedRef(BlobKind, h.value)];
      }
      assert steps[..|names|] == steps && names[..|names|] == names;
      return Done(entries);
    }

    method StageOptionalBlob(b: Option<Bytes>) returns (r: Outcome<Option<Hash>>)
      modifies this
      ensures Progress(View(), r.Done?) == Do(old(View()), BlobStep(b), env)
      ensures r.Done? ==> r.value == BlobHash(b, env)
    {
      hide Do, Do1;
      if b.None? {
        DoNothing(View(), env);
        return Done(None);
      }
      DoOne(View(), StoreObject(Blob(b.value), false), env);
      var h := PutObject(Blob(b.value), false);
      return if h.Some? then Done(Some(h.value)) else Failed;
    }

    method StageBlobs(i: Inputs) returns (r: Outcome<seq<Option<Hash>>>)
      modifies this
      ensures Progress(View(), r.Done?) == Do(old(View()), BlobsOf(i), env)
      ensures r.Done? ==> r.value == [BlobHash(i.model, env), BlobHash(i.intent, env), BlobHash(i.plan, env),
                                      BlobHash(i.transcript, env), BlobHash(i.evals, env)]
    {
      hide Do, Do1, BlobStep, BlobHash;
      ghost var d := View();
      ghost var s := BlobStep(i.model);
      ChainStops(d, i, env);
      var model := StageOptionalBlob(i.model);
      if model.Failed? { return Failed; }
      DoConcat(d, s, BlobStep(i.intent), env);
      s := s + BlobStep(i.intent);
      var intent := StageOptionalBlob(i.intent);
      if intent.Failed? { return Failed; }
      DoConcat(d, s, BlobStep(i.plan), env);
      s := s + BlobStep(i.plan);
      var plan := StageOptionalBlob(i.plan);
      if plan.Failed? { return Failed; }
      DoConcat(d, s, BlobStep(i.transcript), env);
      s := s + BlobStep(i.transcript);
      var transcript := StageOptionalBlob(i.transcript);
      if transcript.Failed? { return Failed; }
      DoConcat(d, s, BlobStep(i.evals), env);
      var evals := StageOptionalBlob(i.evals);
      if evals.Failed? { return Failed; }
      return Done([model.value, intent.value, plan.value, transcript.value, evals.value]);
    }

    /** The staging order; the branch moves last. */
    method StageAndCommit(i: Inputs, branch: string, now: int) returns (r: Outcome<Hash>)
      modifies this
      ensures Progress(View(), r.Done?) == Do(old(View()), StagePlan(i, branch, now, env), env)
      ensures r.Done? ==> r.value == env.addr(CommitOf(i, now, env))
      ensures r.Done? && Injective(env) && Addressed(old(store), env) ==> Says(store, r.value, i, now)
    {
      hide Do, Do1, TreeSteps, TreeHash, BlobStep, BlobHash, Says;
      ghost var d := View();
      ghost var s1, s2, s3 := TreeSteps(i.prompts, i.exempt, env), TreeSteps(i.tools, i.exempt, env), BlobsOf(i);
      ghost var c := CommitOf(i, now, env);
      ghost var a, b := StoreObject(c, false), PointBranch(branch, env.addr(c));
      PlanStops(d, s1, s2, s3, a, b, env);
      assert StagePlan(i, branch, now, env) == s1 + s2 + s3 + [a, b];
      var prompts := StageBlobTree(i.prompts, i.exempt);
      if prompts.Failed? { return Failed; }
      var tools := StageBlobTree(i.tools, i.exempt);
      if tools.Failed? { return Failed; }
      var blobs := StageBlobs(i);
      if blobs.Failed? { return Failed; }
      var m := blobs.value;
      var commit := Commit(i.parent, i.author, now, i.message, i.codeSha, prompts.value, tools.value, m[0],
                           i.memorySnapshot, i.schemaVersion, m[1], m[2], m[3], m[4], i.costCents, i.peerUid);
      assert CommitObject(commit) == c;
      var h := PutObject(CommitObject(commit), false);
      if h.None? { return Failed; }
      var ok := WriteBranch(branch, h.value);
      if ok && Injective(env) && Addressed(d.store, env) { StagingRecords(d, i, branch, now, env); }
      return if ok then Done(h.value) else Failed;
    }

    method PersistSnapshot(snap: Option<Snapshot>) returns (r: Outcome<Option<Hash>>)
      modifies this
      ensures Progress(View(), r.Done?) == Do(old(View()), SnapshotSteps(snap), env)
      ensures r.Done? ==> r.value == if snap.Some? then Some(env.addr(ManifestOf(snap.value))) else None
    {
      hide Do, Do1;
      if snap.None? {
        DoNothing(View(), env);
        return Done(None);
      }
      ghost var d := View();
      ghost var steps := SnapshotSteps(snap);
      var segs := snap.value.segments;
      DoNothing(d, env);
      assert steps[..0] == [];
      for i := 0 to |segs|
        invariant Do(d, steps[..i], env) == Progress(View(), true)
      {
        DoNext(d, steps, i, env);
        var h := PutObject(SegmentObject(segs[i]), false);
        if h.None? {
          DoStops(d, steps, i + 1, env);
          return Failed;
        }
      }
      DoNext(d, steps, |segs|, env);
      assert steps[..|segs| + 1] == steps;
      var h := PutObject(ManifestOf(snap.value), false);
      return if h.Some? then Done(Some(h.value)) else Failed;
    }

    /** A commit request, end to end. A failed HEAD write is not reported. */
    method ExecuteCommit(req: Request, now: int) returns (r: Outcome<Hash>)
      modifies this
      ensures View() == Do(old(View()), CommitPlan(old(View()), req, now, env), env).disk
      ensures r.Done? <==> Committed(old(View()), req, now, env)
      ensures r.Done? ==> r.value == env.addr(CommitOf(AssembledInputs(old(View()), req, env), now, env))
      ensures r.Done? && Injective(env) && Addressed(old(store), env) ==>
        exists branch :: CommitMade(old(View()), View(), r.value, req, now, branch, env)
    {
      hide Do, Do1, StagePlan, SnapshotSteps, CommitOf, Says, CommitMade;
      ghost var d := View();
      var branch := BranchFor(View(), req);
      var firstCommit := head.None?;
      if !env.validName(branch) {
        assert Do(d, [], env).disk == d by { DoNothing(d, env); }
        return Failed;
      }
      ghost var i := AssembledInputs(d, req, env);
      ghost var a, b := SnapshotSteps(req.snapshot), StagePlan(i, branch, now, env);
      ghost var z := HeadSteps(d, branch);
      DoConcat(d, a, b, env);
      DoConcat(d, a + b, z, env);
      var parent := Lookup(branches, branch);
      var manifest := PersistSnapshot(req.snapshot);
      if manifest.Failed? { return Failed; }
      var inputs := Inputs(
        if req.author.Some? then req.author.value else "unknown", req.message, parent, req.codeSha,
        req.prompts, req.tools, req.model, manifest.value,
        if req.snapshot.Some? then Some(req.snapshot.value.schemaVersion) else None,
        None, None, None, None, 0, req.peerUid, req.exempt);
      assert inputs == i;
      r := StageAndCommit(inputs, branch, now);
      if r.Done? {
        if firstCommit {
          DoOne(View(), PointHead(branch), env);
          var _ := WriteHead(branch);
        } else {
          assert z == [];
          DoNothing(View(), env);
        }
        if Injective(env) && Addressed(d.store, env) { CommitSays(d, req, now, env); }
      }
    }
  }

  lemma DoNothing(d: Disk, env: Env)
    ensures Do(d, [], env) == Progress(d, true)
  {
  }

  /** A failed prefix is the whole outcome. */
  lemma DoStops(d: Disk, steps: seq<Step>, n: nat, env: Env)
    requires n <= |steps| && !Do(d, steps[..n], env).ok
    ensures Do(d, steps, env) == Do(d, steps[..n], env)
  {
    assert steps == steps[..n] + steps[n..];
    DoConcat(d, steps[..n], steps[n..], env);
  }

  lemma ChainStops(d: Disk, i: Inputs, env: Env)
    ensures var (s1, s2, s3, s4) := (BlobStep(i.model), BlobStep(i.intent), BlobStep(i.plan), BlobStep(i.transcript));
            var all := Do(d, BlobsOf(i), env);
            && (!Do(d, s1, env).ok ==> all == Do(d, s1, env))
            && (!Do(d, s1 + s2, env).ok ==> all == Do(d, s1 + s2, env))
            && (!Do(d, s1 + s2 + s3, env).ok ==> all == Do(d, s1 + s2 + s3, env))
            && (!Do(d, s1 + s2 + s3 + s4, env).ok ==> all == Do(d, s1 + s2 + s3 + s4, env))
  {
    hide Do, BlobStep;
    var s1, s2, s3, s4, s5 := BlobStep(i.model), BlobStep(i.intent), BlobStep(i.plan), BlobStep(i.transcript), BlobStep(i.evals);
    DoConcat(d, s1, s2, env);
    DoConcat(d, s1 + s2, s3, env);
    DoConcat(d, s1 + s2 + s3, s4, env);
    DoConcat(d, s1 + s2 + s3 + s4, s5, env);
  }

  /** The tree entries built from the names seen so far. */
  function RefsFor(m: map<string, Bytes>, names: seq<string>, env: Env): map<string, TypedRef> {
    map n | n in m && n in names :: TypedRef(BlobKind, env.addr(Blob(m[n])))
  }

  lemma RefsForNext(m: map<string, Bytes>, names: seq<string>, i: nat, env: Env)
    requires i < |names| && names[i] in m
    ensures RefsFor(m, names[..i + 1], env) ==
            RefsFor(m, names[..i], env)[names[i] := TypedRef(BlobKind, env.addr(Blob(m[names[i]])))]
  {
    assert names[..i + 1] == names[..i] + [names[i]];
  }

  lemma DoNext(d: Disk, steps: seq<Step>, i: nat, env: Env)
    requires i < |steps| && Do(d, steps[..i], env).ok
    ensures Do(d, steps[..i + 1], env) == Do1(Do(d, steps[..i], env).disk, steps[i], env)
  {
    hide Do1;
    assert steps[..i + 1][..i] == steps[..i];
  }

  lemma PlanStops(d: Disk, s1: seq<Step>, s2: seq<Step>, s3: seq<Step>, a: Step, b: Step, env: Env)
    ensures var r1 := Do(d, s1, env);
            var all := Do(d, s1 + s2 + s3 + [a, b], env);
            if !r1.ok then all == r1
            else
              var r2 := Do(r1.disk, s2, env);
              if !r2.ok then all == r2
              else
                var r3 := Do(r2.disk, s3, env);
                if !r3.ok then all == r3
                else
                  var r4 := Do1(r3.disk, a, env);
                  all == if r4.ok then Do1(r4.disk, b, env) else r4
  {
    hide Do, Do1;
    DoConcat(d, s1, s2, env);
    DoConcat(d, s1 + s2, s3, env);
    DoConcat(d, s1 + s2 + s3, [a], env);
    DoConcat(d, s1 + s2 + s3 + [a], [b], env);
    assert s1 + s2 + s3 + [a] + [b] == s1 + s2 + s3 + [a, b];
    DoOne(Do(d, s1 + s2 + s3, env).disk, a, env);
    DoOne(Do(d, s1 + s2 + s3 + [a], env).disk, b, env);
  }
}
