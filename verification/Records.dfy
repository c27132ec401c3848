/** What a stored commit says: its fields one by one, and its payloads as they read
    back from the store. */
module Records {
  import opened Prelude
  import opened Order
  import opened Objects
  import opened Staging

  /** Every object these steps put is in the store. */
  ghost predicate AllPut(store: Store, steps: seq<Step>, env: Env) {
    forall i :: 0 <= i < |steps| && steps[i].StoreObject? ==>
      env.addr(steps[i].o) in store && store[env.addr(steps[i].o)] == steps[i].o
  }

  lemma PutParts(store: Store, a: seq<Step>, b: seq<Step>, env: Env)
    requires AllPut(store, a + b, env)
    ensures AllPut(store, a, env) && AllPut(store, b, env)
  {
    assert forall i :: 0 <= i < |a| ==> (a + b)[i] == a[i];
    assert forall i :: 0 <= i < |b| ==> (a + b)[|a| + i] == b[i];
  }

  lemma PutLonger(store: Store, steps: seq<Step>, s: Step, more: Store, env: Env)
    requires AllPut(store, steps, env) && Extends(store, more)
    requires s.StoreObject? ==> env.addr(s.o) in more && more[env.addr(s.o)] == s.o
    ensures AllPut(more, steps + [s], env)
  {
  }

  /** Steps that all went through have put their objects. */
  lemma {:induction false} DoPuts(d: Disk, steps: seq<Step>, env: Env)
    requires Injective(env) && Addressed(d.store, env) && Do(d, steps, env).ok
    ensures var r := Do(d, steps, env).disk;
            Addressed(r.store, env) && Extends(d.store, r.store) && AllPut(r.store, steps, env)
  {
    if steps != [] {
      var (n, s) := (|steps| - 1, steps[|steps| - 1]);
      DoPuts(d, steps[..n], env);
      var (front, r) := (Do(d, steps[..n], env).disk, Do(d, steps, env).disk);
      if s.StoreObject? { PutKeeps(front.store, s.o, env); }
      assert Extends(front.store, r.store);
      hide Do;
      PutLonger(front.store, steps[..n], s, r.store, env);
      assert steps == steps[..n] + [s];
    }
  }

  // ------------------------------------------------------------ payloads read back

  /** An optional blob: present exactly if it was given, with its bytes. */
  ghost predicate BlobBack(store: Store, h: Option<Hash>, b: Option<Bytes>) {
    (h.Some? <==> b.Some?) && (h.Some? ==> LoadBlob(store, h.value) == b)
  }

  /** A tree of blobs: none for an empty map, else the same names with their bytes. */
  ghost predicate TreeBack(store: Store, h: Option<Hash>, m: map<string, Bytes>) {
    (h.Some? <==> m != map[]) &&
    (h.Some? ==>
      && LoadTree(store, h.value).Some?
      && var entries := LoadTree(store, h.value).value;
         && entries.Keys == m.Keys
         && forall n :: n in m ==> entries[n].kind.BlobKind? && LoadBlob(store, entries[n].hash) == Some(m[n]))
  }

  /** The commit stored at `h` says exactly what the inputs say. */
  ghost predicate Says(store: Store, h: Hash, i: Inputs, now: int) {
    LoadCommit(store, h).Some? &&
    var c := LoadCommit(store, h).value;
    && c.parent == i.parent && c.author == i.author && c.timestamp == now && c.message == i.message
    && c.codeSha == i.codeSha && c.memorySnapshot == i.memorySnapshot && c.schemaVersion == i.schemaVersion
    && c.costCents == i.costCents && c.peerUid == i.peerUid
    && TreeBack(store, c.prompts, i.prompts) && TreeBack(store, c.tools, i.tools)
    && BlobBack(store, c.model, i.model) && BlobBack(store, c.intent, i.intent) && BlobBack(store, c.plan, i.plan)
    && BlobBack(store, c.transcript, i.transcript) && BlobBack(store, c.evals, i.evals)
  }

  lemma TreePut(store: Store, tree: Step, env: Env)
    requires AllPut(store, [tree], env) && tree.StoreObject? && tree.o.Tree?
    ensures LoadTree(store, env.addr(tree.o)) == Some(tree.o.entries)
  {
    var steps := [tree];
    assert steps[0] == tree;
  }

  lemma BlobsPut(store: Store, m: map<string, Bytes>, names: seq<string>, prefixes: seq<string>, env: Env)
    requires forall n :: n in names <==> n in m
    requires AllPut(store, BlobSteps(m, names, prefixes), env)
    ensures forall n :: n in m ==> LoadBlob(store, env.addr(Blob(m[n]))) == Some(m[n])
  {
    var blobs := BlobSteps(m, names, prefixes);
    forall n | n in m ensures LoadBlob(store, env.addr(Blob(m[n]))) == Some(m[n]) {
      var i :| 0 <= i < |names| && names[i] == n;
      assert blobs[i] == StoreObject(Blob(m[n]), Exempt(n, prefixes));
    }
  }

  lemma TreeStepsBack(store: Store, m: map<string, Bytes>, prefixes: seq<string>, env: Env)
    requires AllPut(store, TreeSteps(m, prefixes, env), env)
    ensures TreeBack(store, TreeHash(m, env), m)
    ensures m != map[] ==> LoadTree(store, TreeHash(m, env).value) == Some(TreeRefs(m, env))
    ensures forall n :: n in m ==> LoadBlob(store, env.addr(Blob(m[n]))) == Some(m[n])
  {
    hide StrLess, AllPut, BlobSteps;
    if m != map[] {
      var names := SortedKeys(m.Keys);
      var (blobs, tree) := (BlobSteps(m, names, prefixes), StoreObject(Tree(TreeRefs(m, env)), false));
      PutParts(store, blobs, [tree], env);
      TreePut(store, tree, env);
      BlobsPut(store, m, names, prefixes, env);
    }
  }

  lemma BlobStepBack(store: Store, b: Option<Bytes>, env: Env)
    requires AllPut(store, BlobStep(b), env)
    ensures BlobBack(store, BlobHash(b, env), b)
  {
    if b.Some? { assert BlobStep(b)[0] == StoreObject(Blob(b.value), false); }
  }

  lemma BlobStepsBack(store: Store, i: Inputs, env: Env)
    requires AllPut(store, BlobsOf(i), env)
    ensures BlobBack(store, BlobHash(i.model, env), i.model) && BlobBack(store, BlobHash(i.intent, env), i.intent)
    ensures BlobBack(store, BlobHash(i.plan, env), i.plan) && BlobBack(store, BlobHash(i.transcript, env), i.transcript)
    ensures BlobBack(store, BlobHash(i.evals, env), i.evals)
  {
    hide AllPut, BlobStep, BlobBack, BlobHash;
    var (a, b, c, d) := (BlobStep(i.model), BlobStep(i.intent), BlobStep(i.plan), BlobStep(i.transcript));
    PutParts(store, a + b + c + d, BlobStep(i.evals), env);
    PutParts(store, a + b + c, d, env);
    PutParts(store, a + b, c, env);
    PutParts(store, a, b, env);
    BlobStepBack(store, i.model, env);
    BlobStepBack(store, i.intent, env);
    BlobStepBack(store, i.plan, env);
    BlobStepBack(store, i.transcript, env);
    BlobStepBack(store, i.evals, env);
  }

  lemma LastPut(store: Store, c: Object, branch: string, env: Env)
    requires AllPut(store, [StoreObject(c, false), PointBranch(branch, env.addr(c))], env)
    ensures env.addr(c) in store && store[env.addr(c)] == c
  {
    var steps := [StoreObject(c, false), PointBranch(branch, env.addr(c))];
    assert steps[0] == StoreObject(c, false);
  }

  /** A store that holds what staging puts holds a commit that says what was staged. */
  lemma StagedSays(store: Store, i: Inputs, branch: string, now: int, env: Env)
    requires AllPut(store, StagePlan(i, branch, now, env), env)
    ensures Says(store, env.addr(CommitOf(i, now, env)), i, now)
  {
    hide AllPut, TreeSteps, BlobsOf, TreeBack, BlobBack, TreeHash, BlobHash;
    var c := CommitOf(i, now, env);
    PutParts(store, TreesOf(i, env) + BlobsOf(i), [StoreObject(c, false), PointBranch(branch, env.addr(c))], env);
    PutParts(store, TreesOf(i, env), BlobsOf(i), env);
    PutParts(store, TreeSteps(i.prompts, i.exempt, env), TreeSteps(i.tools, i.exempt, env), env);
    TreeStepsBack(store, i.prompts, i.exempt, env);
    TreeStepsBack(store, i.tools, i.exempt, env);
    BlobStepsBack(store, i, env);
    LastPut(store, c, branch, env);
  }

  /** Staging that went through: the branch names a commit that says what was staged. */
  lemma StagingRecords(d: Disk, i: Inputs, branch: string, now: int, env: Env)
    requires Injective(env) && Addressed(d.store, env) && Do(d, StagePlan(i, branch, now, env), env).ok
    ensures var r := Do(d, StagePlan(i, branch, now, env), env).disk;
            Addressed(r.store, env) && Says(r.store, env.addr(CommitOf(i, now, env)), i, now)
  {
    hide Do, StagePlan, CommitOf, Says, AllPut;
    DoPuts(d, StagePlan(i, branch, now, env), env);
    StagedSays(Do(d, StagePlan(i, branch, now, env), env).disk.store, i, branch, now, env);
  }

  // ----------------------------------------------------------- when staging succeeds

  /** Steps go through exactly if there is room for all and none is refused. */
  lemma {:induction false} DoOkIff(d: Disk, steps: seq<Step>, env: Env)
    ensures Do(d, steps, env).ok <==> |steps| <= d.budget && forall i :: 0 <= i < |steps| ==> !Refused(steps[i], env)
    ensures Do(d, steps, env).ok ==> Do(d, steps, env).disk.budget == d.budget - |steps|
  {
    hide Refused;
    if steps != [] { DoOkIff(d, steps[..|steps| - 1], env); }
  }

  /** The scanner lets these blobs through, without its entropy rule exactly for names
      under one of the prefixes. */
  ghost predicate Clean(m: map<string, Bytes>, prefixes: seq<string>, env: Env) {
    forall n :: n in m ==> !env.rejects(Blob(m[n]), exists k :: 0 <= k < |prefixes| && prefixes[k] <= n)
  }

  ghost predicate CleanBlob(b: Option<Bytes>, env: Env) { b.Some? ==> !env.rejects(Blob(b.value), false) }

  function TreeCost(m: map<string, Bytes>): nat { if m == map[] then 0 else |m| + 1 }
  function BlobCost(b: Option<Bytes>): nat { if b.Some? then 1 else 0 }

  ghost predicate NoneRefused(steps: seq<Step>, env: Env) {
    forall i :: 0 <= i < |steps| ==> !Refused(steps[i], env)
  }

  lemma BothRefused(a: seq<Step>, b: seq<Step>, env: Env)
    ensures NoneRefused(a + b, env) <==> NoneRefused(a, env) && NoneRefused(b, env)
  {
    hide Refused;
    if NoneRefused(a + b, env) {
      assert forall i :: 0 <= i < |a| ==> (a + b)[i] == a[i];
      assert forall i :: 0 <= i < |b| ==> (a + b)[|a| + i] == b[i];
    }
  }

  lemma TreeStepsPass(m: map<string, Bytes>, prefixes: seq<string>, env: Env)
    ensures NoneRefused(TreeSteps(m, prefixes, env), env) <==> Clean(m, prefixes, env)
    ensures |TreeSteps(m, prefixes, env)| == TreeCost(m)
  {
    hide StrLess, BlobSteps, Clean, NoneRefused;
    if m == map[] {
      NothingRefused(prefixes, env);
    } else {
      var names := SortedKeys(m.Keys);
      var (blobs, tree) := (BlobSteps(m, names, prefixes), StoreObject(Tree(TreeRefs(m, env)), false));
      BothRefused(blobs, [tree], env);
      BlobsPass(m, names, prefixes, env);
      TreePass(tree, env);
      assert |m| == |m.Keys|;
    }
  }

  lemma NothingRefused(prefixes: seq<string>, env: Env)
    ensures NoneRefused([], env) && Clean(map[], prefixes, env)
  {
  }

  lemma TreePass(tree: Step, env: Env)
    requires tree.StoreObject? && tree.o.Tree?
    ensures NoneRefused([tree], env)
  {
  }

  lemma BlobsPass(m: map<string, Bytes>, names: seq<string>, prefixes: seq<string>, env: Env)
    requires forall n :: n in names <==> n in m
    ensures NoneRefused(BlobSteps(m, names, prefixes), env) <==> Clean(m, prefixes, env)
  {
    var blobs := BlobSteps(m, names, prefixes);
    if NoneRefused(blobs, env) {
      forall n | n in m ensures !env.rejects(Blob(m[n]), exists k :: 0 <= k < |prefixes| && prefixes[k] <= n) {
        assert n in names;
        var i :| 0 <= i < |names| && names[i] == n;
        assert !Refused(blobs[i], env);
      }
    }
  }

  lemma BlobStepPass(b: Option<Bytes>, env: Env)
    ensures NoneRefused(BlobStep(b), env) <==> CleanBlob(b, env)
    ensures |BlobStep(b)| == BlobCost(b)
  {
    if b.Some? && NoneRefused(BlobStep(b), env) { assert !Refused(BlobStep(b)[0], env); }
  }

  lemma BlobStepsPass(i: Inputs, env: Env)
    ensures NoneRefused(BlobsOf(i), env) <==>
            CleanBlob(i.model, env) && CleanBlob(i.intent, env) && CleanBlob(i.plan, env) && CleanBlob(i.transcript, env)
            && CleanBlob(i.evals, env)
    ensures |BlobsOf(i)| == BlobCost(i.model) + BlobCost(i.intent) + BlobCost(i.plan) + BlobCost(i.transcript) + BlobCost(i.evals)
  {
    hide NoneRefused, BlobStep, CleanBlob, BlobCost;
    var (a, b, c, d) := (BlobStep(i.model), BlobStep(i.intent), BlobStep(i.plan), BlobStep(i.transcript));
    BothRefused(a + b + c + d, BlobStep(i.evals), env);
    BothRefused(a + b + c, d, env);
    BothRefused(a + b, c, env);
    BothRefused(a, b, env);
    BlobStepPass(i.model, env);
    BlobStepPass(i.intent, env);
    BlobStepPass(i.plan, env);
    BlobStepPass(i.transcript, env);
    BlobStepPass(i.evals, env);
  }

  /** Staging succeeds exactly if the scanner passes every blob, the branch name is
      valid, and there is room for every blob, every tree, the commit and the ref. */
  lemma StagingSucceedsIff(d: Disk, i: Inputs, branch: string, now: int, env: Env)
    ensures Do(d, StagePlan(i, branch, now, env), env).ok <==>
      && Clean(i.prompts, i.exempt, env) && Clean(i.tools, i.exempt, env)
      && CleanBlob(i.model, env) && CleanBlob(i.intent, env) && CleanBlob(i.plan, env) && CleanBlob(i.transcript, env)
      && CleanBlob(i.evals, env) && env.validName(branch)
      && TreeCost(i.prompts) + TreeCost(i.tools) + BlobCost(i.model) + BlobCost(i.intent) + BlobCost(i.plan)
         + BlobCost(i.transcript) + BlobCost(i.evals) + 2 <= d.budget
  {
    hide Do, TreeSteps, BlobsOf, Clean, CleanBlob, TreeCost, BlobCost, NoneRefused;
    var c := CommitOf(i, now, env);
    var (trees, blobs, last) := (TreesOf(i, env), BlobsOf(i), [StoreObject(c, false), PointBranch(branch, env.addr(c))]);
    DoOkIff(d, StagePlan(i, branch, now, env), env);
    assert NoneRefused(StagePlan(i, branch, now, env), env) <==>
      forall k :: 0 <= k < |StagePlan(i, branch, now, env)| ==> !Refused(StagePlan(i, branch, now, env)[k], env) by {
      AllPass(StagePlan(i, branch, now, env), env);
    }
    BothRefused(trees + blobs, last, env);
    BothRefused(trees, blobs, env);
    BothRefused(TreeSteps(i.prompts, i.exempt, env), TreeSteps(i.tools, i.exempt, env), env);
    TreeStepsPass(i.prompts, i.exempt, env);
    TreeStepsPass(i.tools, i.exempt, env);
    BlobStepsPass(i, env);
    LastPass(c, branch, env);
  }

  lemma AllPass(steps: seq<Step>, env: Env)
    ensures NoneRefused(steps, env) <==> forall k :: 0 <= k < |steps| ==> !Refused(steps[k], env)
  {
  }

  lemma LastPass(c: Object, branch: string, env: Env)
    requires c.CommitObject?
    ensures NoneRefused([StoreObject(c, false), PointBranch(branch, env.addr(c))], env) <==> env.validName(branch)
  {
    var steps := [StoreObject(c, false), PointBranch(branch, env.addr(c))];
    assert steps[0] == StoreObject(c, false) && steps[1] == PointBranch(branch, env.addr(c));
    if NoneRefused(steps, env) { assert !Refused(steps[1], env); }
  }
}
