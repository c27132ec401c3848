/** Rollback: plan, reverse the schema, restore memory and prompts, and record the
    result as a new commit over the current tip. */
module Rollback {
  import opened Prelude
  import opened Hex
  import opened Objects
  import opened Staging
  import opened Repository
  import Records
  import M = Manifest
  import Mem = Memory
  import W = Writeback
  import D = Diff
  import Order

  // ------------------------------------------------------------- migration files

  predicate PlainName(name: string) {
    '/' !in name && '\\' !in name && forall i :: 0 <= i < |name| - 1 && name[i] == '.' ==> name[i + 1] != '.'
  }

  /** The `.down.sql` files by migration name, and whether each is marked
      irreversible; `None` when there is no schema directory. */
  type DownFiles = Option<map<string, bool>>

  predicate Loadable(files: DownFiles, name: string, acceptDataLoss: bool) {
    PlainName(name) && files.Some? && name in files.value && (files.value[name] ==> acceptDataLoss)
  }

  predicate PartAt(s: string, i: int, part: string) { 0 <= i <= |s| - |part| && s[i..i + |part|] == part }

  ghost predicate Contains(s: string, part: string) { exists i :: PartAt(s, i, part) }

  /** A migration can be reversed exactly if its name stays inside the directory, its
      file is there, and it is reversible or data loss is accepted. */
  lemma LoadableIff(files: DownFiles, name: string, acceptDataLoss: bool)
    ensures Loadable(files, name, acceptDataLoss) <==>
      && !Contains(name, "/") && !Contains(name, "\\") && !Contains(name, "..")
      && files.Some? && name in files.value && (!files.value[name] || acceptDataLoss)
  {
    ContainsChar(name, '/');
    ContainsChar(name, '\\');
    if Contains(name, "..") {
      var i :| PartAt(name, i, "..");
      assert name[i] == name[i..i + 2][0] && name[i + 1] == name[i..i + 2][1];
    } else {
      forall i | 0 <= i < |name| - 1 && name[i] == '.' ensures name[i + 1] != '.' {
        if name[i + 1] == '.' { DotsContained(name, i); }
      }
    }
  }

  lemma DotsContained(s: string, i: nat)
    requires i + 1 < |s| && s[i] == '.' && s[i + 1] == '.'
    ensures Contains(s, "..")
  {
    assert s[i..i + 2] == "..";
    assert PartAt(s, i, "..");
  }

  lemma ContainsChar(s: string, c: char)
    ensures Contains(s, [c]) <==> c in s
  {
    if Contains(s, [c]) {
      var i :| PartAt(s, i, [c]);
      assert s[i] == s[i..i + 1][0];
    }
    if c in s {
      var i :| 0 <= i < |s| && s[i] == c;
      assert s[i..i + 1] == [c];
      assert PartAt(s, i, [c]);
    }
  }

  method LoadSteps(files: DownFiles, names: seq<string>, acceptDataLoss: bool) returns (r: Outcome<seq<string>>)
    ensures r.Done? <==> forall n :: n in names ==> Loadable(files, n, acceptDataLoss)
    ensures r.Done? ==> r.value == names
  {
    if names == [] { return Done([]); }
    if files.None? {
      assert names[0] in names;
      return Failed;
    }
    var steps: seq<string> := [];
    for i := 0 to |names|
      invariant steps == names[..i] && forall n :: n in steps ==> Loadable(files, n, acceptDataLoss)
    {
      assert names[i] in names;
      if !PlainName(names[i]) || names[i] !in files.value { return Failed; }
      if files.value[names[i]] && !acceptDataLoss { return Failed; }
      steps := steps + [names[i]];
    }
    return Done(steps);
  }

  // ------------------------------------------------------------------- the target

  datatype Request = Request(target: string, dryRun: bool, acceptDataLoss: bool, approved: bool,
                             uid: Option<nat>, exempt: seq<string>, now: int)

  function Resolve(d: Disk, name: string, env: Env): Outcome<Option<Hash>> {
    if name == "HEAD" then
      match d.head
      case None => Done(None)
      case Some(Detached(h)) => Done(Some(h))
      case Some(OnBranch(b)) => if env.validName(b) then Done(Lookup(d.branches, b)) else Failed
    else if FromHex(name).Some? then Done(FromHex(name))
    else if env.validName(name) then Done(Lookup(d.branches, name))
    else Failed
  }

  /** A memory snapshot without a schema version must never be half-applied. */
  predicate ValidShape(c: Commit) { c.memorySnapshot.Some? ==> c.schemaVersion.Some? }

  datatype Line =
    | TargetLine(target: Hash, message: string)
    | OverTip(tip: Hash)
    | ReverseSchema(live: string, version: string)
    | SchemaAlready(version: string)
    | RestoreMemory(manifest: Hash)
    | NoMemorySnapshot
    | NoSchemaVersion
    | RewritePrompts(tree: Hash)
    | NoPrompts
    | ToolsFollowUp
    | ModelCaptured
    | Recorded(commit: Hash, branch: string)

  function SchemaLines(c: Commit, live: string): seq<Line> {
    if c.schemaVersion.None? then [NoSchemaVersion]
    else
      [if live != c.schemaVersion.value then ReverseSchema(live, c.schemaVersion.value) else SchemaAlready(live)]
      + [if c.memorySnapshot.Some? then RestoreMemory(c.memorySnapshot.value) else NoMemorySnapshot]
  }

  /** The plan announced for a target, from the state before anything happens. */
  function Plan(target: Hash, c: Commit, tip: Option<Hash>, live: string): seq<Line> {
    [TargetLine(target, c.message)]
    + (if tip.Some? then [OverTip(tip.value)] else [])
    + SchemaLines(c, live)
    + [if c.prompts.Some? then RewritePrompts(c.prompts.value) else NoPrompts]
    + (if c.tools.Some? then [ToolsFollowUp] else [])
    + (if c.model.Some? then [ModelCaptured] else [])
  }

  /** Where a line stands in a plan. */
  function Rank(l: Line): nat {
    match l
    case TargetLine(_, _) => 0
    case OverTip(_) => 1
    case ReverseSchema(_, _) => 2
    case SchemaAlready(_) => 2
    case NoSchemaVersion => 2
    case RestoreMemory(_) => 3
    case NoMemorySnapshot => 3
    case RewritePrompts(_) => 4
    case NoPrompts => 4
    case ToolsFollowUp => 5
    case ModelCaptured => 6
    case Recorded(_, _) => 7
  }

  /** What a line says about the target and the live schema. */
  ghost predicate Announces(l: Line, target: Hash, c: Commit, tip: Option<Hash>, live: string) {
    match l
    case TargetLine(h, m) => h == target && m == c.message
    case OverTip(h) => tip == Some(h)
    case ReverseSchema(from, to) => c.schemaVersion == Some(to) && from == live && from != to
    case SchemaAlready(v) => c.schemaVersion == Some(v) && live == v
    case NoSchemaVersion => c.schemaVersion == None
    case RestoreMemory(h) => c.schemaVersion.Some? && c.memorySnapshot == Some(h)
    case NoMemorySnapshot => c.schemaVersion.Some? && c.memorySnapshot == None
    case RewritePrompts(h) => c.prompts == Some(h)
    case NoPrompts => c.prompts == None
    case ToolsFollowUp => c.tools.Some?
    case ModelCaptured => c.model.Some?
    case Recorded(_, _) => false
  }

  ghost predicate Ranked(plan: seq<Line>) {
    forall i, j :: 0 <= i < j < |plan| ==> Rank(plan[i]) < Rank(plan[j])
  }

  lemma RankedJoin(a: seq<Line>, b: seq<Line>, cut: nat)
    requires Ranked(a) && Ranked(b)
    requires (forall i :: 0 <= i < |a| ==> Rank(a[i]) < cut) && forall i :: 0 <= i < |b| ==> Rank(b[i]) >= cut
    ensures Ranked(a + b)
  {
  }

  lemma SchemaSays(c: Commit, live: string, l: Line)
    ensures Ranked(SchemaLines(c, live)) && forall i :: 0 <= i < |SchemaLines(c, live)| ==> 2 <= Rank(SchemaLines(c, live)[i]) < 4
    ensures l in SchemaLines(c, live) <==> 2 <= Rank(l) < 4 && Announces(l, 0, c, None, live)
  {
  }

  lemma RestSays(c: Commit, l: Line)
    ensures var rest := [if c.prompts.Some? then RewritePrompts(c.prompts.value) else NoPrompts]
                        + (if c.tools.Some? then [ToolsFollowUp] else []) + (if c.model.Some? then [ModelCaptured] else []);
            && Ranked(rest) && (forall i :: 0 <= i < |rest| ==> Rank(rest[i]) >= 4)
            && (l in rest <==> 4 <= Rank(l) && Announces(l, 0, c, None, ""))
  {
  }

  lemma HeadSays(target: Hash, c: Commit, tip: Option<Hash>, l: Line)
    ensures var head := [TargetLine(target, c.message)] + (if tip.Some? then [OverTip(tip.value)] else []);
            && Ranked(head) && (forall i :: 0 <= i < |head| ==> Rank(head[i]) < 2)
            && (l in head <==> Rank(l) < 2 && Announces(l, target, c, tip, ""))
  {
  }

  /** A plan announces the target, the tip it goes over, what happens to the schema, to
      memory and to the prompts, and the two reminders: in this order, nothing else. */
  lemma PlanSays(target: Hash, c: Commit, tip: Option<Hash>, live: string, l: Line)
    ensures l in Plan(target, c, tip, live) <==> Announces(l, target, c, tip, live)
    ensures Ranked(Plan(target, c, tip, live))
  {
    hide SchemaLines, Ranked;
    HeadSays(target, c, tip, l);
    SchemaSays(c, live, l);
    RestSays(c, l);
    var head := [TargetLine(target, c.message)] + (if tip.Some? then [OverTip(tip.value)] else []);
    var rest := [if c.prompts.Some? then RewritePrompts(c.prompts.value) else NoPrompts]
                + (if c.tools.Some? then [ToolsFollowUp] else []) + (if c.model.Some? then [ModelCaptured] else []);
    RankedJoin(head, SchemaLines(c, live), 2);
    RankedJoin(head + SchemaLines(c, live), rest, 4);
    assert Plan(target, c, tip, live) == head + SchemaLines(c, live) + rest;
  }

  datatype Report = Report(plan: seq<Line>, executed: bool, newHead: Option<Hash>)

  // ---------------------------------------------------------- what a rollback records

  function Message(target: Hash): string { "Rollback to " + Short(target) }

  /** Reading a stored tree back and staging it again names the same blobs, and the
      same tree unless it was empty. */
  lemma RestagedTree(store: Store, h: Option<Hash>, env: Env)
    requires Addressed(store, env) && ReadBlobs(store, h).Done?
    ensures var again := TreeHash(ReadBlobs(store, h).value, env);
            && (again == h || (again.None? && D.Hashes(store, h) == Some(map[])))
            && D.Hashes(store, h).Some?
  {
    if h.Some? {
      var entries := LoadTree(store, h.value).value;
      var m := ReadBlobs(store, h).value;
      forall n | n in entries ensures TypedRef(BlobKind, env.addr(Blob(m[n]))) == entries[n] {
        assert store[entries[n].hash] == Blob(m[n]);
      }
      assert TreeRefs(m, env) == entries;
    }
  }

  lemma RestagedModel(store: Store, h: Option<Hash>, env: Env)
    requires Addressed(store, env) && ReadModel(store, h, env).Done?
    ensures BlobHash(ReadModel(store, h, env).value, env) == h
  {
  }

  lemma HashesStable(store: Store, more: Store, h: Option<Hash>)
    requires Extends(store, more) && D.Hashes(store, h).Some?
    ensures D.Hashes(more, h) == D.Hashes(store, h)
  {
  }

  /** The recorded commit differs from its target in no dimension a diff looks at. */
  lemma RecordAgrees(store: Store, more: Store, target: Commit, tip: Option<Hash>, message: string,
                     uid: Option<nat>, exempt: seq<string>, now: int, env: Env, lossy: Bytes -> string)
    requires Addressed(store, env) && Extends(store, more)
    requires RecordInputs(store, target, message, tip, uid, exempt, env).Done?
    ensures var i := RecordInputs(store, target, message, tip, uid, exempt, env).value;
            D.Agree(more, target, CommitOf(i, now, env).commit, lossy)
  {
    hide D.Hashes, TreeHash, ReadBlobs, ReadModel, BlobHash;
    var i := RecordInputs(store, target, message, tip, uid, exempt, env).value;
    RestagedTree(store, target.prompts, env);
    RestagedTree(store, target.tools, env);
    RestagedModel(store, target.model, env);
    HashesStable(store, more, target.prompts);
    HashesStable(store, more, target.tools);
    EmptyHashes(more);
  }

  lemma EmptyHashes(store: Store)
    ensures D.Hashes(store, None) == Some(map[])
  {
  }

  // ----------------------------------------------------------------- the phases

  datatype Prepared = Prepared(target: Hash, commit: Commit, branch: string, tip: Option<Hash>)

  /** Everything checked before the plan starts: the ref, the approval, the target
      commit and its shape, a branch to record on. */
  function Prepare(d: Disk, req: Request, env: Env): Outcome<Prepared> {
    match Resolve(d, req.target, env)
    case Failed => Failed
    case Done(None) => Failed
    case Done(Some(h)) =>
      if req.acceptDataLoss && !req.approved then Failed
      else match LoadCommit(d.store, h)
           case None => Failed
           case Some(c) =>
             if !ValidShape(c) || d.head.None? || d.head.value.Detached? || !env.validName(d.head.value.name) then Failed
             else Done(Prepared(h, c, d.head.value.name, Lookup(d.branches, d.head.value.name)))
  }

  /** What a rollback's target names: HEAD the tip of its branch, or the commit it is
      detached at; an address itself; any other name a branch tip. */
  ghost predicate Denotes(d: Disk, target: string, h: Hash) {
    if target == "HEAD" then
      d.head.Some? && (d.head.value == Detached(h) ||
                       (d.head.value.OnBranch? && d.head.value.name in d.branches && d.branches[d.head.value.name] == h))
    else if FromHex(target).Some? then FromHex(target).value == h
    else target in d.branches && d.branches[target] == h
  }

  /** Branch names are checked before they are read. */
  predicate NameOk(d: Disk, target: string, env: Env) {
    if target == "HEAD" then d.head.Some? && d.head.value.OnBranch? ==> env.validName(d.head.value.name)
    else FromHex(target).Some? || env.validName(target)
  }

  lemma ResolvesTo(d: Disk, target: string, env: Env, h: Hash)
    ensures Resolve(d, target, env) == Done(Some(h)) <==> Denotes(d, target, h) && NameOk(d, target, env)
  {
  }

  /** The checks before the plan pass exactly if the target names a stored commit, data
      loss is approved if it is accepted, a memory snapshot has a schema version beside
      it, and HEAD is on a branch; `p` is then that commit, that branch and its tip. */
  lemma PreparedIff(d: Disk, req: Request, env: Env, p: Prepared)
    ensures Prepare(d, req, env) == Done(p) <==>
      && Denotes(d, req.target, p.target) && NameOk(d, req.target, env)
      && (req.acceptDataLoss ==> req.approved)
      && p.target in d.store && d.store[p.target] == CommitObject(p.commit)
      && !(p.commit.memorySnapshot.Some? && p.commit.schemaVersion.None?)
      && d.head == Some(OnBranch(p.branch)) && env.validName(p.branch)
      && p.tip == (if p.branch in d.branches then Some(d.branches[p.branch]) else None)
  {
    hide Resolve;
    ResolvesTo(d, req.target, env, p.target);
    match Resolve(d, req.target, env) {
      case Done(Some(h)) => ResolvesTo(d, req.target, env, h);
      case _ =>
    }
  }

  /** A ready rollback is to the commit its target names, and its plan starts there. */
  lemma ReadyTarget(s: Situation, req: Request, setup: Setup, env: Env)
    requires Ready(s, req, setup, env)
    ensures var (p, plan) := (Prepare(s.disk, req, env).value, PlanFor(s, Prepare(s.disk, req, env).value));
            && LoadCommit(s.disk.store, p.target) == Some(p.commit)
            && plan != [] && plan[0] == TargetLine(p.target, p.commit.message)
            && (req.target != "HEAD" && FromHex(req.target).None? ==>
                req.target in s.disk.branches && p.target == s.disk.branches[req.target])
            && (req.target != "HEAD" && FromHex(req.target).Some? ==> p.target == FromHex(req.target).value)
            && (req.target == "HEAD" ==>
                s.disk.head == Some(OnBranch(p.branch)) && p.branch in s.disk.branches && p.target == s.disk.branches[p.branch])
  {
    hide Resolve, MemoryOk, PromptsOk, RecordOk;
    PreparedIff(s.disk, req, env, Prepare(s.disk, req, env).value);
  }

  /** Migrations to run and their files, when the live schema is not the target's. */
  function Steps(m: Mem.Mem, version: string, files: DownFiles, acceptDataLoss: bool): Outcome<seq<string>> {
    if m.schema == version then Done([])
    else match Mem.MigrationsAfter(m, version)
         case Failed => Failed
         case Done(names) =>
           if forall n :: n in names ==> Loadable(files, n, acceptDataLoss) then Done(names) else Failed
  }

  /** Nothing to run at the target's schema; else the target is the baseline or an
      applied migration, and everything applied after it, newest first, must load. */
  lemma StepsIff(m: Mem.Mem, version: string, files: DownFiles, acceptDataLoss: bool, p: nat)
    requires p < |m.applied| && m.applied[p] == version && version !in m.applied[..p] && version != Mem.BASELINE
    ensures m.schema != version ==>
      var r := Steps(m, version, files, acceptDataLoss);
      && (r.Done? <==> forall k :: p < k < |m.applied| ==> Loadable(files, m.applied[k], acceptDataLoss))
      && (r.Done? ==>
          && |r.value| == |m.applied| - 1 - p
          && forall i :: 0 <= i < |r.value| ==> r.value[i] == m.applied[|m.applied| - 1 - i])
  {
    hide Loadable;
    var found := Mem.Position(m.applied, version);
    assert found == Some(p);
    var later := m.applied[p + 1..];
    var names := Mem.Backwards(later);
    if m.schema != version {
      if forall n :: n in names ==> Loadable(files, n, acceptDataLoss) {
        forall k | p < k < |m.applied| ensures Loadable(files, m.applied[k], acceptDataLoss) {
          assert names[|names| - 1 - (k - p - 1)] == m.applied[k];
        }
      }
    }
  }

  lemma StepsAtEnds(m: Mem.Mem, version: string, files: DownFiles, acceptDataLoss: bool)
    ensures m.schema == version ==> Steps(m, version, files, acceptDataLoss) == Done([])
    ensures m.schema != version && version != Mem.BASELINE && version !in m.applied ==>
      Steps(m, version, files, acceptDataLoss).Failed?
    ensures m.schema != version && version == Mem.BASELINE ==>
      var r := Steps(m, version, files, acceptDataLoss);
      && (r.Done? <==> forall k :: 0 <= k < |m.applied| ==> Loadable(files, m.applied[k], acceptDataLoss))
      && (r.Done? ==>
          |r.value| == |m.applied| && forall i :: 0 <= i < |r.value| ==> r.value[i] == m.applied[|m.applied| - 1 - i])
  {
    hide Loadable;
    var names := Mem.Backwards(m.applied);
    if version == Mem.BASELINE && forall n :: n in names ==> Loadable(files, n, acceptDataLoss) {
      forall k | 0 <= k < |m.applied| ensures Loadable(files, m.applied[k], acceptDataLoss) {
        assert names[|names| - 1 - k] == m.applied[k];
      }
    }
  }

  function ManifestAt(store: Store, h: Hash): Option<seq<M.SegmentRef>> {
    if h in store && store[h].ManifestObject? && M.Decodable(store[h].schemaVersion, store[h].refs)
    then Some(store[h].refs) else None
  }

  /** Memory after the schema and memory phases, for a target with a version. */
  function MemoryAfter(store: Store, m: Mem.Mem, version: string, manifest: Option<Hash>,
                       files: DownFiles, acceptDataLoss: bool): Outcome<Mem.Mem> {
    match Steps(m, version, files, acceptDataLoss)
    case Failed => Failed
    case Done(steps) =>
      match Mem.Reversed(m, steps)
      case Failed => Failed
      case Done(m1) =>
        if manifest.None? then Done(m1)
        else match ManifestAt(store, manifest.value)
             case None => Failed
             case Some(refs) =>
               if m1.schema != version || Mem.TablesOf(store, refs).Failed? then Failed
               else Done(m1.(tables := Mem.TablesOf(store, refs).value))
  }

  /** Everything the memory phase needs, as it stands before the phase: the target
      version is known and every migration above it can be reversed; for a target
      with a manifest, the adapter is not stranded and the manifest and all its
      segments can be read. */
  predicate MemoryReady(store: Store, m: Mem.Mem, version: string, manifest: Option<Hash>,
                        files: DownFiles, acceptDataLoss: bool) {
    && Steps(m, version, files, acceptDataLoss).Done?
    && (manifest.Some? ==>
        && !Mem.Stranded(m, version) && ManifestAt(store, manifest.value).Some?
        && Mem.TablesOf(store, ManifestAt(store, manifest.value).value).Done?)
  }

  /** The memory phase succeeds exactly when all of that holds. Then it ends at the
      target's schema, with exactly the tables the manifest describes; without a
      manifest it touches no table, and reaches the schema exactly if the adapter
      was not stranded. An adapter kept in step by its migrations never is. */
  lemma MemoryReachesTarget(store: Store, m: Mem.Mem, version: string, manifest: Option<Hash>,
                            files: DownFiles, acceptDataLoss: bool)
    ensures var r := MemoryAfter(store, m, version, manifest, files, acceptDataLoss);
            && (r.Done? <==> MemoryReady(store, m, version, manifest, files, acceptDataLoss))
            && (r.Done? ==>
                && (r.value.schema == version <==> manifest.Some? || !Mem.Stranded(m, version))
                && (manifest.None? ==> r.value.tables == m.tables)
                && (manifest.Some? ==>
                    Done(r.value.tables) == Mem.TablesOf(store, ManifestAt(store, manifest.value).value))
                && (Mem.InStep(m) ==> r.value.schema == version && Mem.InStep(r.value)))
  {
    hide Mem.TablesOf, ManifestAt, Loadable, Mem.Stranded;
    assert Mem.Reversed(m, []) == Done(m) by { NothingToReverse(m); }
    Mem.ReverseReachesTarget(m, version);
    NotStrandedAtHome(m, version);
    hide Mem.Reversed, Mem.MigrationsAfter;
  }

  lemma NotStrandedAtHome(m: Mem.Mem, version: string)
    ensures m.schema == version || Mem.InStep(m) ==> !Mem.Stranded(m, version)
  {
  }

  /** Migration 1 was applied, then the version was set to 2 by hand. A rollback to a
      commit that records schema 1 and no memory snapshot gets through its memory
      phase and leaves the schema at 2. */
  lemma SchemaLeftBehind(store: Store)
    ensures var m := Mem.Mem("2", map[], ["1"]);
            && Mem.Stranded(m, "1") && !Mem.InStep(m)
            && MemoryAfter(store, m, "1", None, None, false) == Done(m) && m.schema != "1"
  {
    var m := Mem.Mem("2", map[], ["1"]);
    assert Mem.Position(["1"], "1") == Some(0);
    assert ["1"][1..] == [] && Mem.Backwards([]) == [];
  }

  /** The prompts tree as writeback entries, in name order. */
  function PromptEntries(store: Store, h: Hash, components: string -> W.Path): Option<seq<W.Entry>> {
    match LoadTree(store, h)
    case None => None
    case Some(entries) =>
      var names := Order.SortedKeys(entries.Keys);
      Some(seq(|names|, i requires 0 <= i < |names| =>
        W.Entry(components(names[i]), LoadBlob(store, entries[names[i]].hash))))
  }

  /** The daemon before or after a rollback. */
  datatype Situation = Situation(disk: Disk, mem: Option<Mem.Mem>, files: W.FileMap, dirs: set<W.Path>)

  /** The migration files, and how tree entry names are read. */
  datatype Setup = Setup(down: DownFiles, components: string -> W.Path)

  /** What the schema and memory phases need; a dry run stops at loading the steps. */
  predicate MemoryOk(s: Situation, c: Commit, req: Request, setup: Setup) {
    c.schemaVersion.None? ||
    (s.mem.Some? &&
     if req.dryRun then Steps(s.mem.value, c.schemaVersion.value, setup.down, req.acceptDataLoss).Done?
     else MemoryReady(s.disk.store, s.mem.value, c.schemaVersion.value, c.memorySnapshot, setup.down, req.acceptDataLoss))
  }

  /** What the prompts phase needs of a real run. */
  ghost predicate PromptsOk(s: Situation, c: Commit, setup: Setup) {
    c.prompts.None? ||
    (PromptEntries(s.disk.store, c.prompts.value, setup.components).Some? &&
     W.Writable(s.files, s.dirs, PromptEntries(s.disk.store, c.prompts.value, setup.components).value))
  }

  function Recording(s: Situation, p: Prepared, req: Request, env: Env): Outcome<Inputs> {
    RecordInputs(s.disk.store, p.commit, Message(p.target), p.tip, req.uid, req.exempt, env)
  }

  /** The new commit can be put together, and every step of writing it goes through. */
  predicate RecordOk(s: Situation, p: Prepared, req: Request, env: Env) {
    Recording(s, p, req, env).Done? &&
    Do(s.disk, StagePlan(Recording(s, p, req, env).value, p.branch, req.now, env), env).ok
  }

  /** Everything a rollback needs, as it stands before the rollback. */
  ghost predicate Ready(s: Situation, req: Request, setup: Setup, env: Env) {
    Prepare(s.disk, req, env).Done? &&
    var p := Prepare(s.disk, req, env).value;
    MemoryOk(s, p.commit, req, setup) &&
    (!req.dryRun ==> PromptsOk(s, p.commit, setup) && RecordOk(s, p, req, env))
  }

  /** A dry run needs the target and the migration files, and nothing else. */
  lemma DryRunReadyIff(s: Situation, req: Request, setup: Setup, env: Env, p: Prepared)
    requires req.dryRun && Prepare(s.disk, req, env) == Done(p)
    ensures Ready(s, req, setup, env) <==>
      p.commit.schemaVersion.None? ||
      (s.mem.Some? && Steps(s.mem.value, p.commit.schemaVersion.value, setup.down, req.acceptDataLoss).Done?)
  {
  }

  /** A real run of a target without memory and prompts needs only the record. */
  lemma BareTargetReadyIff(s: Situation, req: Request, setup: Setup, env: Env, p: Prepared)
    requires !req.dryRun && Prepare(s.disk, req, env) == Done(p)
    requires p.commit.schemaVersion.None? && p.commit.prompts.None?
    ensures Ready(s, req, setup, env) <==>
      RecordInputs(s.disk.store, p.commit, Message(p.target), p.tip, req.uid, req.exempt, env).Done? &&
      Do(s.disk, StagePlan(RecordInputs(s.disk.store, p.commit, Message(p.target), p.tip, req.uid, req.exempt, env).value,
                           p.branch, req.now, env), env).ok
  {
    hide Do, StagePlan, RecordInputs, Prepare;
  }

  function PlanFor(s: Situation, p: Prepared): seq<Line> {
    Plan(p.target, p.commit, p.tip, if s.mem.Some? then s.mem.value.schema else "")
  }

  function NewCommit(s: Situation, p: Prepared, req: Request, env: Env): Object
    requires Recording(s, p, req, env).Done?
  {
    CommitOf(Recording(s, p, req, env).value, req.now, env)
  }

  /** What a rollback that got through has done. */
  ghost predicate Executed(s: Situation, t: Situation, p: Prepared, req: Request, setup: Setup, env: Env, report: Report) {
    && Recording(s, p, req, env).Done?
    && report == Report(PlanFor(s, p) + [Recorded(env.addr(NewCommit(s, p, req, env)), p.branch)], true,
                        Some(env.addr(NewCommit(s, p, req, env))))
    && t.disk == Do(s.disk, StagePlan(Recording(s, p, req, env).value, p.branch, req.now, env), env).disk
    && MemoryDone(s, t.mem, p.commit, req, setup)
    && PromptsDone(s, t.files, t.dirs, p.commit, setup)
  }

  /** The reverse migrations went through, and nothing after them. */
  ghost predicate ReversedOnly(s: Situation, after: Mem.Mem, c: Commit, req: Request, setup: Setup) {
    s.mem.Some? && c.schemaVersion.Some? &&
    Steps(s.mem.value, c.schemaVersion.value, setup.down, req.acceptDataLoss).Done? &&
    Done(after) == Mem.Reversed(s.mem.value, Steps(s.mem.value, c.schemaVersion.value, setup.down, req.acceptDataLoss).value)
  }

  /** Schema and memory are at the target. */
  ghost predicate MemoryDone(s: Situation, after: Option<Mem.Mem>, c: Commit, req: Request, setup: Setup) {
    if c.schemaVersion.None? then after == s.mem
    else s.mem.Some? && after.Some? &&
         Done(after.value) == MemoryAfter(s.disk.store, s.mem.value, c.schemaVersion.value, c.memorySnapshot,
                                          setup.down, req.acceptDataLoss)
  }

  ghost predicate PromptsDone(s: Situation, files: W.FileMap, dirs: set<W.Path>, c: Commit, setup: Setup) {
    if c.prompts.None? then files == s.files && dirs == s.dirs
    else PromptEntries(s.disk.store, c.prompts.value, setup.components).Some? &&
         PromptsRestored(files, s.files, PromptEntries(s.disk.store, c.prompts.value, setup.components).value)
  }

  /** Where a rollback that got past the checks and then failed can have stopped: the
      migrations reversed only; memory at the target and the prompts directory part
      written; or memory and prompts at the target, and the record cut off somewhere
      on its plan. The refs and objects move in the last case only. */
  ghost predicate StoppedAt(s: Situation, t: Situation, p: Prepared, req: Request, setup: Setup, env: Env) {
    || (t.mem.Some? && t == s.(mem := t.mem) && ReversedOnly(s, t.mem.value, p.commit, req, setup))
    || (t.disk == s.disk && MemoryDone(s, t.mem, p.commit, req, setup) && !PromptsOk(s, p.commit, setup))
    || (&& MemoryDone(s, t.mem, p.commit, req, setup) && PromptsDone(s, t.files, t.dirs, p.commit, setup)
        && (t.disk == s.disk || t.disk == Do(s.disk, RecordSteps(s, p, req, env), env).disk))
  }

  /** The forward record as the plan every interrupted attempt follows. */
  function RecordSteps(s: Situation, p: Prepared, req: Request, env: Env): seq<Step> {
    RecordPlan(s.disk, p.target, Message(p.target), req.uid, req.exempt, req.now, env)
  }

  /** The commit a rollback records: its own author, message and time, over the branch's
      tip, with the target's code, memory and schema, and nothing from the target that a
      rollback does not bring back. */
  lemma ExecutedSays(s: Situation, t: Situation, p: Prepared, req: Request, setup: Setup, env: Env, report: Report)
    requires Injective(env) && Addressed(s.disk.store, env) && RecordOk(s, p, req, env)
    requires Executed(s, t, p, req, setup, env, report)
    ensures report.executed && report.newHead.Some? && LoadCommit(t.disk.store, report.newHead.value).Some?
    ensures var c := LoadCommit(t.disk.store, report.newHead.value).value;
            && c.author == "agentic-rollback" && c.message == "Rollback to " + ToHex(p.target)[..7] && c.timestamp == req.now
            && c.parent == p.tip && c.peerUid == req.uid && c.costCents == 0
            && c.codeSha == p.commit.codeSha && c.memorySnapshot == p.commit.memorySnapshot
            && c.schemaVersion == p.commit.schemaVersion
            && c.intent == None && c.plan == None && c.transcript == None && c.evals == None
    ensures t.disk.branches == s.disk.branches[p.branch := report.newHead.value] && t.disk.head == s.disk.head
  {
    hide Do, StagePlan, CommitOf, ReadBlobs, ReadModel, MemoryDone, PromptsDone, PlanFor, Records.TreeBack, ToHex;
    var i := Recording(s, p, req, env).value;
    Records.StagingRecords(s.disk, i, p.branch, req.now, env);
    StagedRefs(s.disk, i, p.branch, req.now, env);
  }

  class Daemon {
    const repo: Repo
    const memory: Mem.InMemoryAdapter?
    const prompts: W.Directory
    const setup: Setup

    constructor (r: Repo, m: Mem.InMemoryAdapter?, p: W.Directory, s: Setup)
      ensures repo == r && memory == m && prompts == p && setup == s
    {
      repo, memory, prompts, setup := r, m, p, s;
    }

    ghost function Now(): Situation
      reads repo, prompts, if memory == null then {} else {memory}
    {
      Situation(repo.View(), if memory == null then None else Some(memory.View()), prompts.files, prompts.dirs)
    }

    /** Plan, and unless this is a dry run reverse, the schema; then memory. */
    method MemoryPhase(c: Commit, req: Request) returns (ok: bool, live: string)
      modifies if memory == null then {} else {memory}
      ensures ok <==> MemoryOk(old(Now()), c, req, setup)
      ensures ok && c.schemaVersion.Some? ==> memory != null
      ensures memory != null && c.schemaVersion.Some? ==> live == old(memory.View()).schema
      ensures memory != null && (req.dryRun || c.schemaVersion.None?) ==> memory.View() == old(memory.View())
      ensures memory != null && !ok ==>
        memory.View() == old(memory.View()) || ReversedOnly(old(Now()), memory.View(), c, req, setup)
      ensures ok && !req.dryRun ==> MemoryDone(old(Now()), Now().mem, c, req, setup)
    {
      hide Mem.TablesOf, Mem.MigrationsAfter, Mem.Reversed, M.Decodable, Loadable, MemoryReady;
      live := "";
      if c.schemaVersion.None? { return true, live; }
      if memory == null { return false, live; }
      var version := c.schemaVersion.value;
      live := memory.schemaVersion;
      ghost var m := memory.View();
      MemoryReachesTarget(repo.store, m, version, c.memorySnapshot, setup.down, req.acceptDataLoss);
      var steps: seq<string> := [];
      if live != version {
        var names := Mem.MigrationsAfter(memory.View(), version);
        if names.Failed? { return false, live; }
        var loaded := LoadSteps(setup.down, names.value, req.acceptDataLoss);
        if loaded.Failed? { return false, live; }
        steps := loaded.value;
        if !req.dryRun {
          var applied := memory.ApplyReverseMigrations(steps);
          if !applied { return false, live; }
        }
      } else {
        assert Mem.Reversed(m, []) == Done(m) by { NothingToReverse(m); }
      }
      if c.memorySnapshot.Some? && !req.dryRun {
        var refs := ManifestAt(repo.store, c.memorySnapshot.value);
        if refs.None? { return false, live; }
        ok := memory.RestoreWithGuard(repo.store, version, refs.value);
        return ok, live;
      }
      return true, live;
    }

    method PromptsPhase(c: Commit, dryRun: bool) returns (ok: bool)
      requires prompts.Valid()
      modifies prompts
      ensures prompts.Valid()
      ensures ok <==> dryRun || PromptsOk(old(Now()), c, setup)
      ensures dryRun || c.prompts.None? ==> prompts.files == old(prompts.files) && prompts.dirs == old(prompts.dirs)
      ensures ok && !dryRun ==> PromptsDone(old(Now()), prompts.files, prompts.dirs, c, setup)
    {
      hide W.Written, W.TmpOf, W.Writable;
      if dryRun || c.prompts.None? { return true; }
      var es := PromptEntries(repo.store, c.prompts.value, setup.components);
      if es.None? { return false; }
      ok := prompts.RestorePrompts(es.value);
    }

    /** The whole command. It succeeds exactly if it was ready for it. A dry run
        changes nothing, and announces the plan a real run executes; a success leaves
        schema, tables and prompts at the target, and a new tip that no diff can tell
        from it, whose log is the new commit and then the old log. */
    method Execute(req: Request) returns (r: Outcome<Report>)
      requires prompts.Valid()
      modifies repo, prompts, if memory == null then {} else {memory}
      ensures prompts.Valid()
      ensures r.Done? <==> Ready(old(Now()), req, setup, repo.env)
      ensures req.dryRun || Prepare(old(repo.View()), req, repo.env).Failed? ==> Now() == old(Now())
      ensures r.Done? ==>
        var p := Prepare(old(repo.View()), req, repo.env).value;
        if req.dryRun then r.value == Report(PlanFor(old(Now()), p), false, None)
        else Executed(old(Now()), Now(), p, req, setup, repo.env, r.value)
      ensures r.Done? && req.target != "HEAD" && FromHex(req.target).None? ==>
        && req.target in old(repo.branches) && r.value.plan != []
        && r.value.plan[0].TargetLine? && r.value.plan[0].target == old(repo.branches)[req.target]
      ensures r.Failed? ==>
        Now() == old(Now()) ||
        (Prepare(old(repo.View()), req, repo.env).Done? &&
         StoppedAt(old(Now()), Now(), Prepare(old(repo.View()), req, repo.env).value, req, setup, repo.env))
      ensures Injective(repo.env) && Healthy(old(repo.View()), repo.env) ==>
        Healthy(repo.View(), repo.env) && Extends(old(repo.store), repo.store)
      ensures r.Done? && !req.dryRun && Injective(repo.env) && Healthy(old(repo.View()), repo.env) ==>
        var p := Prepare(old(repo.View()), req, repo.env).value;
        r.value.newHead.Some? && EndsAtTarget(old(repo.View()), repo.View(), p, r.value.newHead.value, repo.env)
    {
      hide Healthy, EndsAtTarget, StagePlan, Do, RecordInputs, MemoryAfter, CommitOf, Plan, PromptEntries;
      hide PromptsRestored, MemoryOk, PromptsOk, ReversedOnly, RecordPlan, MemoryDone, PromptsDone, PlanFor;
      ghost var s := Now();
      var d := repo.View();
      ExtendsSelf(d.store);
      var prepared := Prepare(d, req, repo.env);
      if prepared.Failed? { return Failed; }
      var p := prepared.value;
      var ok, live := MemoryPhase(p.commit, req);
      if !ok { return Failed; }
      var plan := Plan(p.target, p.commit, p.tip, live);
      assert plan == PlanFor(s, p) by { LivePlan(s, p, req, setup, live); }
      ghost var between := Now();
      ok := PromptsPhase(p.commit, req.dryRun);
      MemoryAside(s, between, p.commit, setup);
      if !ok { return Failed; }
      if req.dryRun {
        ReadyTarget(s, req, setup, repo.env);
        return Done(Report(plan, false, None));
      }
      var inputs := RecordInputs(repo.store, p.commit, Message(p.target), p.tip, req.uid, req.exempt, repo.env);
      if inputs.Failed? { return Failed; }
      var out := repo.StageAndCommit(inputs.value, p.branch, req.now);
      RecordIsPlanned(d, p, req, repo.env);
      if out.Failed? { return Failed; }
      if Injective(repo.env) && Healthy(d, repo.env) { RecordEndsAtTarget(d, p, req, repo.env); }
      ReadyTarget(s, req, setup, repo.env);
      return Done(Report(plan + [Recorded(out.value, p.branch)], true, Some(out.value)));
    }
  }

  /** What staging performs is the record plan, so that however it ends the repository
      is healthy and has kept every object. */
  lemma RecordIsPlanned(d: Disk, p: Prepared, req: Request, env: Env)
    requires Prepare(d, req, env) == Done(p)
    requires RecordInputs(d.store, p.commit, Message(p.target), p.tip, req.uid, req.exempt, env).Done?
    ensures var i := RecordInputs(d.store, p.commit, Message(p.target), p.tip, req.uid, req.exempt, env).value;
            var r := Do(d, StagePlan(i, p.branch, req.now, env), env);
            && StagePlan(i, p.branch, req.now, env) ==
               RecordPlan(d, p.target, Message(p.target), req.uid, req.exempt, req.now, env)
            && (Injective(env) && Healthy(d, env) ==> Healthy(r.disk, env) && Extends(d.store, r.disk.store))
  {
    hide StagePlan, Do, RecordInputs, Healthy, WellOrdered, Landed, Resolve;
    var plan := RecordPlan(d, p.target, Message(p.target), req.uid, req.exempt, req.now, env);
    if Injective(env) && Healthy(d, env) {
      RecordPlanOrdered(d, p.target, Message(p.target), req.uid, req.exempt, req.now, env);
      EveryCutHealthy(d, plan, env);
    }
  }

  lemma MemoryAside(s: Situation, t: Situation, c: Commit, setup: Setup)
    requires s.disk == t.disk && s.files == t.files && s.dirs == t.dirs
    ensures PromptsOk(s, c, setup) <==> PromptsOk(t, c, setup)
    ensures forall files, dirs :: PromptsDone(s, files, dirs, c, setup) <==> PromptsDone(t, files, dirs, c, setup)
  {
  }

  /** Without a schema version the live one is not even read. */
  lemma LivePlan(s: Situation, p: Prepared, req: Request, setup: Setup, live: string)
    requires MemoryOk(s, p.commit, req, setup)
    requires s.mem.Some? && p.commit.schemaVersion.Some? ==> live == s.mem.value.schema
    ensures Plan(p.target, p.commit, p.tip, live) == PlanFor(s, p)
  {
  }

  /** The branch moved to a commit that no diff can tell from the target; its log
      is that commit and then the log there was; the repository is healthy. */
  ghost predicate EndsAtTarget(before: Disk, after: Disk, p: Prepared, c: Hash, env: Env) {
    && Healthy(after, env) && Extends(before.store, after.store)
    && after.head == before.head && after.branches == before.branches[p.branch := c]
    && LoadCommit(after.store, c).Some?
    && var commit := LoadCommit(after.store, c).value;
       && commit.parent == p.tip
       && (forall lossy :: D.Agree(after.store, p.commit, commit, lossy))
       && forall limit: nat ::
            && LogFrom(before.store, p.tip, limit).Done?
            && LogFrom(after.store, Some(c), limit + 1) == Done([(c, commit)] + LogFrom(before.store, p.tip, limit).value)
  }

  lemma RecordEndsAtTarget(d: Disk, p: Prepared, req: Request, env: Env)
    requires Injective(env) && Healthy(d, env)
    requires LoadCommit(d.store, p.target) == Some(p.commit) && p.tip == Lookup(d.branches, p.branch)
    requires RecordInputs(d.store, p.commit, Message(p.target), p.tip, req.uid, req.exempt, env).Done?
    requires var i := RecordInputs(d.store, p.commit, Message(p.target), p.tip, req.uid, req.exempt, env).value;
             Do(d, StagePlan(i, p.branch, req.now, env), env).ok
    ensures var i := RecordInputs(d.store, p.commit, Message(p.target), p.tip, req.uid, req.exempt, env).value;
            EndsAtTarget(d, Do(d, StagePlan(i, p.branch, req.now, env), env).disk, p,
                         env.addr(CommitOf(i, req.now, env)), env)
  {
    hide StagePlan, Do, CommitOf, LogFrom, D.Agree, Healthy, Landed, RecordInputs;
    var i := RecordInputs(d.store, p.commit, Message(p.target), p.tip, req.uid, req.exempt, env).value;
    RecordedParent(d, p, req, env);
    StagePlanStands(d, i, p.branch, req.now, env);
    var d' := Do(d, StagePlan(i, p.branch, req.now, env), env).disk;
    LandedCommit(d, i, p.branch, req.now, d', env);
    CommitShape(i, req.now, env);
    StagedRefs(d, i, p.branch, req.now, env);
    assert Addressed(d.store, env) by { HealthyAddressed(d, env); }
    forall lossy ensures D.Agree(d'.store, p.commit, CommitOf(i, req.now, env).commit, lossy) {
      RecordAgrees(d.store, d'.store, p.commit, p.tip, Message(p.target), req.uid, req.exempt, req.now, env, lossy);
    }
    forall limit: nat
      ensures LogFrom(d.store, p.tip, limit).Done?
      ensures LogFrom(d'.store, Some(env.addr(CommitOf(i, req.now, env))), limit + 1) ==
              Done([(env.addr(CommitOf(i, req.now, env)), CommitOf(i, req.now, env).commit)]
                   + LogFrom(d.store, p.tip, limit).value)
    {
      StagedLog(d, i, p.branch, req.now, env, limit);
    }
  }

  lemma RecordedParent(d: Disk, p: Prepared, req: Request, env: Env)
    requires Healthy(d, env) && LoadCommit(d.store, p.target) == Some(p.commit)
    requires RecordInputs(d.store, p.commit, Message(p.target), p.tip, req.uid, req.exempt, env).Done?
    ensures var i := RecordInputs(d.store, p.commit, Message(p.target), p.tip, req.uid, req.exempt, env).value;
            && i.parent == p.tip && i.memorySnapshot == p.commit.memorySnapshot
            && (i.memorySnapshot.Some? ==> Has(d.store, TypedRef(ManifestKind, i.memorySnapshot.value)))
  {
    hide ReadBlobs, ReadModel;
    if p.commit.memorySnapshot.Some? {
      assert TypedRef(ManifestKind, p.commit.memorySnapshot.value) in Refs(d.store[p.target]);
    }
  }

  lemma HealthyAddressed(d: Disk, env: Env)
    requires Healthy(d, env)
    ensures Addressed(d.store, env)
  {
  }

  /** What writeback promises, for these entries. */
  ghost predicate PromptsRestored(after: W.FileMap, before: W.FileMap, es: seq<W.Entry>) {
    && W.Loaded(es) && after == W.Only(W.Written(before, es), W.Wanted(es))
    && (W.DistinctPaths(es) ==> (W.Mirrors(after, es) <==> W.NoLaterTmp(es)))
  }

  lemma NothingToReverse(m: Mem.Mem)
    ensures Mem.Reversed(m, []) == Done(m)
  {
  }
}
