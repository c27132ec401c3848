/** The commit protocol: objects in dependency order, then the branch, then HEAD,
    with a crash, a full disk or a scanner rejection possible before any step. */
module Staging {
  import opened Prelude
  import opened Order
  import opened Objects
  import M = Manifest
  import Segments

  datatype HeadRef = OnBranch(name: string) | Detached(hash: Hash)

  /** `budget` is how many more durable writes succeed. */
  datatype Disk = Disk(store: Store, branches: map<string, Hash>, head: Option<HeadRef>, budget: nat)

  datatype Step =
    | StoreObject(o: Object, skipEntropy: bool)
    | PointBranch(branch: string, hash: Hash)
    | PointHead(name: string)

  datatype Progress = Progress(disk: Disk, ok: bool)

  predicate Refused(s: Step, env: Env) {
    match s
    case StoreObject(o, skip) => !o.Tree? && !o.CommitObject? && env.rejects(o, skip)
    case PointBranch(b, _) => !env.validName(b)
    case PointHead(b) => !env.validName(b)
  }

  function Do1(d: Disk, s: Step, env: Env): Progress {
    if Refused(s, env) || d.budget == 0 then Progress(d, false)
    else
      var d := d.(budget := d.budget - 1);
      Progress(match s
               case StoreObject(o, _) => d.(store := Put(d.store, o, env))
               case PointBranch(b, h) => d.(branches := d.branches[b := h])
               case PointHead(b) => d.(head := Some(OnBranch(b))), true)
  }

  /** Run the steps in order and stop at the first that fails. */
  function Do(d: Disk, steps: seq<Step>, env: Env): Progress {
    if steps == [] then Progress(d, true)
    else
      var front := Do(d, steps[..|steps| - 1], env);
      if front.ok then Do1(front.disk, steps[|steps| - 1], env) else front
  }

  lemma {:induction false} DoConcat(d: Disk, a: seq<Step>, b: seq<Step>, env: Env)
    ensures Do(d, a + b, env) == if Do(d, a, env).ok then Do(Do(d, a, env).disk, b, env) else Do(d, a, env)
    decreases |b|
  {
    hide Do1;
    if b == [] {
      assert a + b == a;
    } else {
      assert (a + b)[..|a + b| - 1] == a + b[..|b| - 1];
      DoConcat(d, a, b[..|b| - 1], env);
    }
  }

  lemma DoOne(d: Disk, s: Step, env: Env)
    ensures Do(d, [s], env) == Do1(d, s, env)
  {
    assert [s][..0] == [];
  }

  // ----------------------------------------------------------------- what is kept

  /** The store is whole, every branch tip is a commit in it, HEAD names a branch
      that has a tip. */
  ghost predicate Healthy(d: Disk, env: Env) {
    && Addressed(d.store, env) && Whole(d.store)
    && (forall b :: b in d.branches ==> Has(d.store, TypedRef(CommitKind, d.branches[b])))
    && (d.head.Some? && d.head.value.OnBranch? ==> d.head.value.name in d.branches)
  }

  ghost predicate Given(d: Disk, before: seq<Step>, r: TypedRef, env: Env) {
    Has(d.store, r) ||
    exists i :: 0 <= i < |before| && before[i].StoreObject? && env.addr(before[i].o) == r.hash && KindOf(before[i].o) == r.kind
  }

  /** What a step refers to is on disk or written by an earlier step. */
  ghost predicate Supported(d: Disk, before: seq<Step>, s: Step, env: Env) {
    match s
    case StoreObject(o, _) => forall r :: r in Refs(o) ==> Given(d, before, r, env)
    case PointBranch(_, h) => Given(d, before, TypedRef(CommitKind, h), env)
    case PointHead(b) => b in d.branches || exists i :: 0 <= i < |before| && before[i].PointBranch? && before[i].branch == b
  }

  ghost predicate WellOrdered(d: Disk, steps: seq<Step>, env: Env) {
    forall i :: 0 <= i < |steps| ==> Supported(d, steps[..i], steps[i], env)
  }

  /** What a run of steps has left behind. */
  ghost predicate Landed(d0: Disk, steps: seq<Step>, d: Disk, env: Env) {
    && Extends(d0.store, d.store)
    && (forall b :: b in d0.branches ==> b in d.branches)
    && (forall i :: 0 <= i < |steps| && steps[i].StoreObject? ==>
          env.addr(steps[i].o) in d.store && d.store[env.addr(steps[i].o)] == steps[i].o)
    && (forall i :: 0 <= i < |steps| && steps[i].PointBranch? ==> steps[i].branch in d.branches)
  }

  lemma PutWhole(store: Store, o: Object, env: Env)
    requires Injective(env) && Addressed(store, env) && Whole(store) && forall r :: r in Refs(o) ==> Has(store, r)
    ensures Whole(Put(store, o, env))
  {
    hide Refs;
    PutKeeps(store, o, env);
    var s := Put(store, o, env);
    forall h, r | h in s && r in Refs(s[h]) ensures Has(s, r) {
      if h in store { assert Has(store, r); }
    }
  }

  lemma OneStepSafe(d0: Disk, before: seq<Step>, d: Disk, s: Step, env: Env)
    requires Injective(env) && Healthy(d, env) && Landed(d0, before, d, env) && Supported(d0, before, s, env)
    ensures var r := Do1(d, s, env);
            Healthy(r.disk, env) && Extends(d.store, r.disk.store) && (r.ok ==> Landed(d0, before + [s], r.disk, env))
  {
    hide Refs;
    if Do1(d, s, env).ok {
      forall r | Given(d0, before, r, env) ensures Has(d.store, r) { GivenHas(d0, before, d, r, env); }
      if s.StoreObject? {
        PutKeeps(d.store, s.o, env);
        PutWhole(d.store, s.o, env);
      } else if s.PointHead? && s.name !in d0.branches {
        var i :| 0 <= i < |before| && before[i].PointBranch? && before[i].branch == s.name;
      }
    }
  }

  lemma GivenHas(d0: Disk, before: seq<Step>, d: Disk, r: TypedRef, env: Env)
    requires Landed(d0, before, d, env) && Given(d0, before, r, env)
    ensures Has(d.store, r)
  {
    if !Has(d0.store, r) {
      var i :| 0 <= i < |before| && before[i].StoreObject? && env.addr(before[i].o) == r.hash && KindOf(before[i].o) == r.kind;
    }
  }

  /** Steps that only refer backwards can be cut anywhere: whatever happened up to
      the crash, the repository is healthy and nothing stored was lost. */
  lemma {:induction false} EveryCutHealthy(d: Disk, steps: seq<Step>, env: Env)
    requires Injective(env) && Healthy(d, env) && WellOrdered(d, steps, env)
    ensures var r := Do(d, steps, env);
            Healthy(r.disk, env) && Extends(d.store, r.disk.store) && (r.ok ==> Landed(d, steps, r.disk, env))
  {
    hide Healthy, Landed, Supported, Extends, Do1;
    if steps == [] {
      NothingDone(d, env);
    } else {
      var n := |steps| - 1;
      assert WellOrdered(d, steps[..n], env) by {
        assert forall i :: 0 <= i < n ==> steps[..n][..i] == steps[..i];
      }
      EveryCutHealthy(d, steps[..n], env);
      var front := Do(d, steps[..n], env);
      if front.ok {
        OneStepSafe(d, steps[..n], front.disk, steps[n], env);
        assert steps == steps[..n] + [steps[n]];
        ExtendsTransitive(d.store, front.disk.store, Do(d, steps, env).disk.store);
      }
    }
  }

  lemma NothingDone(d: Disk, env: Env)
    ensures Extends(d.store, d.store) && Landed(d, [], d, env)
  {
  }

  lemma ExtendsTransitive(a: Store, b: Store, c: Store)
    requires Extends(a, b) && Extends(b, c)
    ensures Extends(a, c)
  {
  }

  // ----------------------------------------------------------------- staging plans

  predicate Exempt(name: string, prefixes: seq<string>) {
    exists i :: 0 <= i < |prefixes| && prefixes[i] <= name
  }

  function TreeRefs(m: map<string, Bytes>, env: Env): map<string, TypedRef> {
    map n | n in m :: TypedRef(BlobKind, env.addr(Blob(m[n])))
  }

  function BlobSteps(m: map<string, Bytes>, names: seq<string>, prefixes: seq<string>): (r: seq<Step>)
    requires forall n :: n in names ==> n in m
    ensures |r| == |names|
  {
    seq(|names|, i requires 0 <= i < |names| => StoreObject(Blob(m[names[i]]), Exempt(names[i], prefixes)))
  }

  /** An empty dimension leaves no tree behind. */
  function TreeSteps(m: map<string, Bytes>, prefixes: seq<string>, env: Env): seq<Step> {
    if m == map[] then []
    else BlobSteps(m, SortedKeys(m.Keys), prefixes) + [StoreObject(Tree(TreeRefs(m, env)), false)]
  }

  function TreeHash(m: map<string, Bytes>, env: Env): Option<Hash> {
    if m == map[] then None else Some(env.addr(Tree(TreeRefs(m, env))))
  }

  function BlobStep(b: Option<Bytes>): seq<Step> {
    if b.None? then [] else [StoreObject(Blob(b.value), false)]
  }

  function BlobHash(b: Option<Bytes>, env: Env): Option<Hash> {
    if b.None? then None else Some(env.addr(Blob(b.value)))
  }

  datatype Inputs = Inputs(
    author: string, message: string, parent: Option<Hash>, codeSha: Option<string>,
    prompts: map<string, Bytes>, tools: map<string, Bytes>, model: Option<Bytes>,
    memorySnapshot: Option<Hash>, schemaVersion: Option<string>,
    intent: Option<Bytes>, plan: Option<Bytes>, transcript: Option<Bytes>, evals: Option<Bytes>,
    costCents: nat, peerUid: Option<nat>, exempt: seq<string>)

  function CommitOf(i: Inputs, now: int, env: Env): Object {
    CommitObject(Commit(
      i.parent, i.author, now, i.message, i.codeSha, TreeHash(i.prompts, env), TreeHash(i.tools, env),
      BlobHash(i.model, env), i.memorySnapshot, i.schemaVersion, BlobHash(i.intent, env), BlobHash(i.plan, env),
      BlobHash(i.transcript, env), BlobHash(i.evals, env), i.costCents, i.peerUid))
  }

  function BlobsOf(i: Inputs): seq<Step> {
    BlobStep(i.model) + BlobStep(i.intent) + BlobStep(i.plan) + BlobStep(i.transcript) + BlobStep(i.evals)
  }

  function TreesOf(i: Inputs, env: Env): seq<Step> {
    TreeSteps(i.prompts, i.exempt, env) + TreeSteps(i.tools, i.exempt, env)
  }

  /** Everything the commit object will name, then the commit, then the branch. */
  function StagePlan(i: Inputs, branch: string, now: int, env: Env): seq<Step> {
    TreesOf(i, env) + BlobsOf(i)
    + [StoreObject(CommitOf(i, now, env), false), PointBranch(branch, env.addr(CommitOf(i, now, env)))]
  }

  lemma GivenLonger(d: Disk, a: seq<Step>, b: seq<Step>, r: TypedRef, env: Env)
    requires Given(d, a, r, env)
    ensures Given(d, a + b, r, env)
  {
    if !Has(d.store, r) {
      var i :| 0 <= i < |a| && a[i].StoreObject? && env.addr(a[i].o) == r.hash && KindOf(a[i].o) == r.kind;
      assert (a + b)[i] == a[i];
    }
  }

  lemma GivenBy(d: Disk, before: seq<Step>, i: nat, env: Env)
    requires i < |before| && before[i].StoreObject?
    ensures Given(d, before, TypedRef(KindOf(before[i].o), env.addr(before[i].o)), env)
  {
  }

  lemma SupportedLonger(d: Disk, pre: seq<Step>, before: seq<Step>, s: Step, env: Env)
    requires Supported(d, before, s, env)
    ensures Supported(d, pre + before, s, env)
  {
    hide Refs;
    forall r | Given(d, before, r, env) ensures Given(d, pre + before, r, env) {
      if !Has(d.store, r) {
        var i :| 0 <= i < |before| && before[i].StoreObject? && env.addr(before[i].o) == r.hash && KindOf(before[i].o) == r.kind;
        assert (pre + before)[|pre| + i] == before[i];
      }
    }
    if s.PointHead? && s.name !in d.branches {
      var i :| 0 <= i < |before| && before[i].PointBranch? && before[i].branch == s.name;
      assert (pre + before)[|pre| + i] == before[i];
    }
  }

  lemma WellOrderedConcat(d: Disk, a: seq<Step>, b: seq<Step>, env: Env)
    requires WellOrdered(d, a, env) && WellOrdered(d, b, env)
    ensures WellOrdered(d, a + b, env)
  {
    hide Supported;
    forall i | 0 <= i < |a + b| ensures Supported(d, (a + b)[..i], (a + b)[i], env) {
      if i < |a| {
        assert (a + b)[..i] == a[..i];
      } else {
        assert (a + b)[..i] == a + b[..i - |a|];
        SupportedLonger(d, a, b[..i - |a|], b[i - |a|], env);
      }
    }
  }

  lemma WellOrderedSnoc(d: Disk, a: seq<Step>, s: Step, env: Env)
    requires WellOrdered(d, a, env) && Supported(d, a, s, env)
    ensures WellOrdered(d, a + [s], env)
  {
    hide Supported;
    forall i | 0 <= i < |a| + 1 ensures Supported(d, (a + [s])[..i], (a + [s])[i], env) {
      assert i <= |a| ==> (a + [s])[..i] == a[..i];
      assert a[..|a|] == a;
    }
  }

  lemma TreeStepsOrdered(d: Disk, m: map<string, Bytes>, prefixes: seq<string>, env: Env)
    ensures WellOrdered(d, TreeSteps(m, prefixes, env), env)
    ensures m != map[] ==> Given(d, TreeSteps(m, prefixes, env), TypedRef(TreeKind, TreeHash(m, env).value), env)
  {
    if m != map[] {
      var names := SortedKeys(m.Keys);
      var blobs := BlobSteps(m, names, prefixes);
      var tree := StoreObject(Tree(TreeRefs(m, env)), false);
      forall r | r in Refs(tree.o) ensures Given(d, blobs, r, env) {
        var n :| n in m && r == TypedRef(BlobKind, env.addr(Blob(m[n])));
        assert n in names;
        var i :| 0 <= i < |names| && names[i] == n;
        GivenBy(d, blobs, i, env);
      }
      WellOrderedSnoc(d, blobs, tree, env);
      GivenBy(d, blobs + [tree], |blobs|, env);
    }
  }

  lemma BlobStepGiven(d: Disk, b: Option<Bytes>, env: Env)
    ensures WellOrdered(d, BlobStep(b), env) && AllGiven(d, BlobStep(b), BlobRefs(b, env), env)
  {
    if b.Some? { GivenBy(d, BlobStep(b), 0, env); }
  }

  lemma BlobsOrdered(d: Disk, i: Inputs, env: Env)
    ensures WellOrdered(d, BlobsOf(i), env) && AllGiven(d, BlobsOf(i), AllBlobRefs(i, env), env)
  {
    hide WellOrdered, AllGiven, BlobStep, BlobRefs;
    BlobStepGiven(d, i.model, env);
    BlobStepGiven(d, i.intent, env);
    BlobStepGiven(d, i.plan, env);
    BlobStepGiven(d, i.transcript, env);
    BlobStepGiven(d, i.evals, env);
    var s, r := BlobStep(i.model), BlobRefs(i.model, env);
    ChainGiven(d, s, BlobStep(i.intent), r, BlobRefs(i.intent, env), env);
    s, r := s + BlobStep(i.intent), r + BlobRefs(i.intent, env);
    ChainGiven(d, s, BlobStep(i.plan), r, BlobRefs(i.plan, env), env);
    s, r := s + BlobStep(i.plan), r + BlobRefs(i.plan, env);
    ChainGiven(d, s, BlobStep(i.transcript), r, BlobRefs(i.transcript, env), env);
    s, r := s + BlobStep(i.transcript), r + BlobRefs(i.transcript, env);
    ChainGiven(d, s, BlobStep(i.evals), r, BlobRefs(i.evals, env), env);
  }

  function AllBlobRefs(i: Inputs, env: Env): set<TypedRef> {
    BlobRefs(i.model, env) + BlobRefs(i.intent, env) + BlobRefs(i.plan, env)
    + BlobRefs(i.transcript, env) + BlobRefs(i.evals, env)
  }

  function BlobRefs(b: Option<Bytes>, env: Env): set<TypedRef> { OptRef(BlobKind, BlobHash(b, env)) }

  ghost predicate AllGiven(d: Disk, before: seq<Step>, refs: set<TypedRef>, env: Env) {
    forall r :: r in refs ==> Given(d, before, r, env)
  }

  lemma ChainGiven(d: Disk, a: seq<Step>, b: seq<Step>, ra: set<TypedRef>, rb: set<TypedRef>, env: Env)
    requires WellOrdered(d, a, env) && WellOrdered(d, b, env) && AllGiven(d, a, ra, env) && AllGiven(d, b, rb, env)
    ensures WellOrdered(d, a + b, env) && AllGiven(d, a + b, ra + rb, env)
  {
    hide WellOrdered;
    WellOrderedConcat(d, a, b, env);
    forall r | r in ra + rb ensures Given(d, a + b, r, env) {
      if r in ra { GivenLonger(d, a, b, r, env); } else { GivenAfter(d, a, b, r, env); }
    }
  }

  lemma GivenAfter(d: Disk, a: seq<Step>, b: seq<Step>, r: TypedRef, env: Env)
    requires Given(d, b, r, env)
    ensures Given(d, a + b, r, env)
  {
    if !Has(d.store, r) {
      var i :| 0 <= i < |b| && b[i].StoreObject? && env.addr(b[i].o) == r.hash && KindOf(b[i].o) == r.kind;
      assert (a + b)[|a| + i] == b[i];
    }
  }

  function TreeRefOf(m: map<string, Bytes>, env: Env): set<TypedRef> { OptRef(TreeKind, TreeHash(m, env)) }

  /** Staging only ever refers backwards: to the repository, to what `pre` wrote
      (the memory manifest), or to its own earlier steps. */
  lemma StagePlanOrdered(d: Disk, pre: seq<Step>, i: Inputs, branch: string, now: int, env: Env)
    requires WellOrdered(d, pre, env)
    requires i.parent.Some? ==> Given(d, pre, TypedRef(CommitKind, i.parent.value), env)
    requires i.memorySnapshot.Some? ==> Given(d, pre, TypedRef(ManifestKind, i.memorySnapshot.value), env)
    ensures var all := pre + StagePlan(i, branch, now, env);
            WellOrdered(d, all, env) && all != [] && all[|all| - 1] == PointBranch(branch, env.addr(CommitOf(i, now, env)))
  {
    hide WellOrdered, Given, TreeSteps, BlobStep, TreeHash, BlobHash;
    TreeStepsOrdered(d, i.prompts, i.exempt, env);
    TreeStepsOrdered(d, i.tools, i.exempt, env);
    TreeNone(i.prompts, env);
    TreeNone(i.tools, env);
    ChainGiven(d, TreeSteps(i.prompts, i.exempt, env), TreeSteps(i.tools, i.exempt, env),
               TreeRefOf(i.prompts, env), TreeRefOf(i.tools, env), env);
    BlobsOrdered(d, i, env);
    var preRefs := OptRef(CommitKind, i.parent) + OptRef(ManifestKind, i.memorySnapshot);
    var treeRefs := TreeRefOf(i.prompts, env) + TreeRefOf(i.tools, env);
    ChainGiven(d, pre, TreesOf(i, env), preRefs, treeRefs, env);
    ChainGiven(d, pre + TreesOf(i, env), BlobsOf(i), preRefs + treeRefs, AllBlobRefs(i, env), env);
    var before := pre + TreesOf(i, env) + BlobsOf(i);
    CommitStepOrdered(d, before, preRefs + treeRefs + AllBlobRefs(i, env), i, branch, now, env);
    assert pre + StagePlan(i, branch, now, env) == before
      + [StoreObject(CommitOf(i, now, env), false)] + [PointBranch(branch, env.addr(CommitOf(i, now, env)))];
  }

  lemma TreeNone(m: map<string, Bytes>, env: Env)
    ensures TreeHash(m, env).Some? <==> m != map[]
  {
  }

  lemma CommitStepOrdered(d: Disk, before: seq<Step>, refs: set<TypedRef>, i: Inputs, branch: string, now: int, env: Env)
    requires WellOrdered(d, before, env) && AllGiven(d, before, refs, env)
    requires refs == OptRef(CommitKind, i.parent) + OptRef(ManifestKind, i.memorySnapshot)
      + (TreeRefOf(i.prompts, env) + TreeRefOf(i.tools, env)) + AllBlobRefs(i, env)
    ensures var c := CommitOf(i, now, env);
            WellOrdered(d, before + [StoreObject(c, false)] + [PointBranch(branch, env.addr(c))], env)
  {
    hide WellOrdered, TreeHash, BlobHash;
    var c := CommitOf(i, now, env);
    assert AllGiven(d, before, Refs(c), env);
    WellOrderedSnoc(d, before, StoreObject(c, false), env);
    GivenBy(d, before + [StoreObject(c, false)], |before|, env);
    WellOrderedSnoc(d, before + [StoreObject(c, false)], PointBranch(branch, env.addr(c)), env);
  }
}
