/** The streamer and the repository on one object store: change events, snapshots,
    commits and rollback records in any order. */
module Streamed {
  import opened Prelude
  import opened Ids
  import opened Objects
  import opened Staging
  import opened Repository
  import Segments
  import M = Manifest
  import S = Streamer
  import Restore

  /** One thing that happens: a streamer command, or an attempt at a commit, a
      rollback record or a seal elsewhere. */
  datatype Turn = Command(cmd: S.Cmd) | Try(attempt: Attempt)

  datatype Both = Both(s: S.State, d: Disk)

  /** Segments written through the object store, one durable write each. */
  function Seals(ids: seq<Hash>, segs: Segments.SegmentStore): seq<Attempt>
    requires forall i :: 0 <= i < |ids| ==> ids[i] in segs
  {
    seq(|ids|, i requires 0 <= i < |ids| => SealAttempt(segs[ids[i]], 1))
  }

  function Written(before: Segments.SegmentStore, after: Segments.SegmentStore): seq<Attempt> {
    Seals(SortedIds(after.Keys - before.Keys), after)
  }

  function Turned(b: Both, t: Turn, c: S.Config, env: Env): Both {
    match t
    case Command(cmd) =>
      var s := S.Step(b.s, cmd, c);
      Both(s, Run(b.d, Written(b.s.store, s.store), env))
    case Try(a) => b.(d := After(b.d, a, env))
  }

  function RunBoth(b: Both, turns: seq<Turn>, c: S.Config, env: Env): Both {
    if turns == [] then b
    else Turned(RunBoth(b, turns[..|turns| - 1], c, env), turns[|turns| - 1], c, env)
  }

  /** What a commit makes of the streamer's answer: the segments are stored already. */
  function Answer(s: S.State, t: Turn, c: S.Config): Option<Snapshot> {
    if t.Command? && t.cmd.TakeSnapshot? then
      var r := S.Reply(s, t.cmd.schemaVersion, t.cmd.puts, c);
      if r.Done? then Some(Snapshot([], r.value.schemaVersion, r.value.entries)) else None
    else None
  }

  /** The streamer gave this answer at some earlier turn. */
  predicate Answered(b: Both, turns: seq<Turn>, snap: Snapshot, c: S.Config, env: Env) {
    turns != [] &&
    var (front, t) := (turns[..|turns| - 1], turns[|turns| - 1]);
    Answered(b, front, snap, c, env) || Answer(RunBoth(b, front, c, env).s, t, c) == Some(snap)
  }

  /** The scanner let through what the streamer stored. */
  ghost predicate Scanned(before: Segments.SegmentStore, after: Segments.SegmentStore, env: Env) {
    forall h :: h in after && h !in before ==> !env.rejects(SegmentObject(after[h]), false)
  }

  /** Every snapshot a commit records is an answer of the streamer; no seeds arrive
      after the start. */
  ghost predicate Proper(b: Both, turns: seq<Turn>, c: S.Config, env: Env) {
    turns == [] ||
    var (front, t) := (turns[..|turns| - 1], turns[|turns| - 1]);
    Proper(b, front, c, env) && ProperTurn(b, front, t, c, env)
  }

  ghost predicate ProperTurn(b: Both, front: seq<Turn>, t: Turn, c: S.Config, env: Env) {
    match t
    case Command(cmd) =>
      var s := RunBoth(b, front, c, env).s;
      !cmd.SeedSealed? && Scanned(s.store, S.Step(s, cmd, c).store, env)
    case Try(a) =>
      a.CommitAttempt? && a.req.snapshot.Some? ==> Answered(b, front, a.req.snapshot.value, c, env)
  }

  // ------------------------------------------------------------ one object store

  /** Both sides address a segment alike. */
  ghost predicate SameAddress(c: S.Config, env: Env) {
    forall g :: c.digest(g) == env.addr(SegmentObject(g))
  }

  /** What the streamer stored is in the repository's store. */
  ghost predicate Carried(segs: Segments.SegmentStore, store: Store) {
    forall h :: h in segs ==> h in store && store[h] == SegmentObject(segs[h])
  }

  lemma CarriedOn(segs: Segments.SegmentStore, store: Store, more: Store)
    requires Carried(segs, store) && Extends(store, more)
    ensures Carried(segs, more)
  {
  }

  lemma OneSeal(d: Disk, s: Segments.Segment, env: Env)
    requires Injective(env) && Healthy(d, env) && !env.rejects(SegmentObject(s), false)
    ensures var r := After(d, SealAttempt(s, 1), env);
            && Healthy(r, env) && Extends(d.store, r.store)
            && env.addr(SegmentObject(s)) in r.store && r.store[env.addr(SegmentObject(s))] == SegmentObject(s)
  {
    hide Healthy;
    var step := StoreObject(SegmentObject(s), false);
    AttemptSafe(d, SealAttempt(s, 1), env);
    DoOne(d.(budget := 1), step, env);
    assert Addressed(d.store, env) by { HealthyStore(d, env); }
    PutKeeps(d.store, SegmentObject(s), env);
  }

  lemma HealthyStore(d: Disk, env: Env)
    requires Healthy(d, env)
    ensures Addressed(d.store, env)
  {
  }

  /** Segments the scanner lets through, under their own addresses. */
  ghost predicate Sealable(ids: seq<Hash>, segs: Segments.SegmentStore, env: Env) {
    forall i :: 0 <= i < |ids| ==>
      && ids[i] in segs && !env.rejects(SegmentObject(segs[ids[i]]), false)
      && env.addr(SegmentObject(segs[ids[i]])) == ids[i]
  }

  lemma {:induction false} SealsLand(d: Disk, ids: seq<Hash>, segs: Segments.SegmentStore, env: Env)
    requires Injective(env) && Healthy(d, env)
    requires Sealable(ids, segs, env)
    ensures var r := Run(d, Seals(ids, segs), env);
            && Healthy(r, env) && Extends(d.store, r.store)
            && forall i :: 0 <= i < |ids| ==> ids[i] in r.store && r.store[ids[i]] == SegmentObject(segs[ids[i]])
  {
    hide Healthy, After;
    if ids != [] {
      var n := |ids| - 1;
      SealsLand(d, ids[..n], segs, env);
      assert Seals(ids, segs)[..n] == Seals(ids[..n], segs);
      var front := Run(d, Seals(ids[..n], segs), env);
      OneSeal(front, segs[ids[n]], env);
      ExtendsTransitive(d.store, front.store, Run(d, Seals(ids, segs), env).store);
    }
  }

  lemma WrittenLand(d: Disk, before: Segments.SegmentStore, after: Segments.SegmentStore, c: S.Config, env: Env)
    requires Injective(env) && Healthy(d, env) && SameAddress(c, env) && Scanned(before, after, env)
    requires Segments.Sound(after, c.digest) && Extends(before, after) && Carried(before, d.store)
    ensures var r := Run(d, Written(before, after), env);
            Healthy(r, env) && Extends(d.store, r.store) && Carried(after, r.store)
  {
    hide Healthy, Run, Seals;
    var ids := SortedIds(after.Keys - before.Keys);
    assert forall h :: h in after && h !in before <==> h in ids by { AllSorted(after.Keys - before.Keys); }
    hide SortedIds;
    assert Sealable(ids, after, env) by { NewSealable(ids, before, after, c, env); }
    SealsLand(d, ids, after, env);
    AllCarried(d.store, Run(d, Seals(ids, after), env).store, ids, before, after);
  }

  lemma NewSealable(ids: seq<Hash>, before: Segments.SegmentStore, after: Segments.SegmentStore, c: S.Config, env: Env)
    requires SameAddress(c, env) && Scanned(before, after, env) && Segments.Sound(after, c.digest)
    requires forall h :: h in after && h !in before <==> h in ids
    ensures Sealable(ids, after, env)
  {
    forall i | 0 <= i < |ids|
      ensures ids[i] in after && !env.rejects(SegmentObject(after[ids[i]]), false)
      ensures env.addr(SegmentObject(after[ids[i]])) == ids[i]
    {
      assert ids[i] in ids;
      assert c.digest(after[ids[i]]) == ids[i];
    }
  }

  lemma AllCarried(store: Store, more: Store, ids: seq<Hash>, before: Segments.SegmentStore, after: Segments.SegmentStore)
    requires Carried(before, store) && Extends(store, more) && Extends(before, after)
    requires forall h :: h in after && h !in before <==> h in ids
    requires forall i :: 0 <= i < |ids| ==> ids[i] in after && ids[i] in more && more[ids[i]] == SegmentObject(after[ids[i]])
    ensures Carried(after, more)
  {
    forall h | h in after ensures h in more && more[h] == SegmentObject(after[h]) {
      if h !in before { assert h in ids; }
    }
  }

  // ---------------------------------------------------------- what every run keeps

  function Commands(turns: seq<Turn>): seq<S.Cmd> {
    if turns == [] then []
    else
      var (front, t) := (Commands(turns[..|turns| - 1]), turns[|turns| - 1]);
      if t.Command? then front + [t.cmd] else front
  }

  /** The streamer's side is the run of its own commands. */
  lemma {:induction false} StreamerSide(b: Both, turns: seq<Turn>, c: S.Config, env: Env)
    requires Proper(b, turns, c, env)
    ensures RunBoth(b, turns, c, env).s == S.Run(b.s, Commands(turns), c) && S.NoSeeds(Commands(turns))
  {
    hide S.Step, S.Run, After, Scanned, Answered, Written, Run;
    if turns == [] { assert S.Run(b.s, [], c) == b.s by { NoCommands(b.s, c); } }
    if turns != [] {
      var (front, t) := (turns[..|turns| - 1], turns[|turns| - 1]);
      StreamerSide(b, front, c, env);
      if t.Command? { S.RunSnoc(b.s, Commands(front), t.cmd, c); }
    }
  }

  lemma NoCommands(s: S.State, c: S.Config)
    ensures S.Run(s, [], c) == s
  {
  }

  lemma {:induction false} SweptGrows(s: S.State, names: seq<string>, puts: nat, c: S.Config)
    requires forall n :: n in names ==> n in s.heads
    ensures Extends(s.store, S.Swept(s, names, puts, c).state.store)
  {
    if names != [] { SweptGrows(s, names[..|names| - 1], puts, c); }
  }

  lemma StepGrows(s: S.State, cmd: S.Cmd, c: S.Config)
    ensures Extends(s.store, S.Step(s, cmd, c).store)
  {
    hide S.Swept, S.Applied, S.Seeded;
    if cmd.TakeSnapshot? { SweptGrows(s, S.Names(s), cmd.puts, c); }
  }

  /** A command's writes leave the streamer's store sound and grown. */
  lemma StoreAfter(s0: S.State, cmds: seq<S.Cmd>, cmd: S.Cmd, c: S.Config)
    requires S.Fresh(s0, c)
    ensures var (s, t) := (S.Run(s0, cmds, c), S.Step(S.Run(s0, cmds, c), cmd, c));
            Segments.Sound(t.store, c.digest) && Extends(s.store, t.store)
  {
    hide S.Conserved, S.Step, S.AllSeeds, S.AllAccepted, S.Run;
    S.RunSnoc(s0, cmds, cmd, c);
    S.RunConserves(s0, cmds + [cmd], c);
    StepGrows(S.Run(s0, cmds, c), cmd, c);
  }

  /** The streamer's answer names segments the repository holds once its writes are in. */
  lemma AnswerStored(s0: S.State, cmds: seq<S.Cmd>, t: Turn, c: S.Config, d: Disk, env: Env)
    requires S.Fresh(s0, c) && S.Anchored(s0) && S.NoSeeds(cmds)
    requires t.Command? && Answer(S.Run(s0, cmds, c), t, c).Some?
    requires Carried(S.Step(S.Run(s0, cmds, c), t.cmd, c).store, d.store)
    ensures SnapshotGiven(d, Answer(S.Run(s0, cmds, c), t, c).value, env)
  {
    hide S.Fresh, S.Anchored, S.NoSeeds, S.Run, S.Step, S.Reply, M.PushAll, S.AllSealed, S.Names, S.OwnRefs;
    var (sv, puts) := (t.cmd.schemaVersion, t.cmd.puts);
    S.RunSnoc(s0, cmds, t.cmd, c);
    S.SnapshotStored(s0, cmds, sv, puts, c);
    S.SnapshotEntries(s0, cmds, sv, puts, c);
  }

  lemma GivenOn(d: Disk, more: Disk, snap: Snapshot, env: Env)
    requires SnapshotGiven(d, snap, env) && Extends(d.store, more.store)
    ensures SnapshotGiven(more, snap, env)
  {
  }

  ghost predicate AllGiven(b: Both, turns: seq<Turn>, d: Disk, c: S.Config, env: Env) {
    forall snap :: Answered(b, turns, snap, c, env) ==> SnapshotGiven(d, snap, env)
  }

  /** Streamer commands, commits, rollback records in any order, each attempt cut off
      anywhere: the repository stays healthy and loses nothing, it holds everything the
      streamer stored, and every answer the streamer gave can still be committed. */
  lemma {:induction false} EveryRunGiven(b: Both, turns: seq<Turn>, c: S.Config, env: Env)
    requires Injective(env) && SameAddress(c, env) && Healthy(b.d, env)
    requires S.Fresh(b.s, c) && S.Anchored(b.s) && Carried(b.s.store, b.d.store)
    requires Proper(b, turns, c, env)
    ensures var r := RunBoth(b, turns, c, env);
            && Healthy(r.d, env) && Extends(b.d.store, r.d.store) && Carried(r.s.store, r.d.store)
            && AllGiven(b, turns, r.d, c, env)
  {
    hide Healthy, S.Fresh, S.Anchored, SameAddress, AllGiven, Carried, S.NoSeeds, S.Run;
    hide RunBoth, Turned, ProperTurn, Commands;
    if turns == [] {
      ExtendsSelf(b.d.store);
      NothingYet(b, c, env);
    } else {
      hide Extends;
      var (front, t) := (turns[..|turns| - 1], turns[|turns| - 1]);
      EveryRunGiven(b, front, c, env);
      StreamerSide(b, front, c, env);
      OneTurn(b, front, t, c, env);
      assert turns == front + [t];
    }
  }

  lemma NothingYet(b: Both, c: S.Config, env: Env)
    ensures RunBoth(b, [], c, env) == b && AllGiven(b, [], b.d, c, env)
  {
  }

  lemma TurnSnoc(b: Both, front: seq<Turn>, t: Turn, c: S.Config, env: Env)
    ensures RunBoth(b, front + [t], c, env) == Turned(RunBoth(b, front, c, env), t, c, env)
    ensures forall snap :: Answered(b, front + [t], snap, c, env) <==>
      Answered(b, front, snap, c, env) || Answer(RunBoth(b, front, c, env).s, t, c) == Some(snap)
  {
    hide Turned, Answer;
    assert (front + [t])[..|front|] == front;
  }

  lemma OneTurn(b: Both, front: seq<Turn>, t: Turn, c: S.Config, env: Env)
    requires Injective(env) && SameAddress(c, env) && S.Fresh(b.s, c) && S.Anchored(b.s)
    requires Proper(b, front, c, env) && ProperTurn(b, front, t, c, env)
    requires var r := RunBoth(b, front, c, env);
             && Healthy(r.d, env) && Extends(b.d.store, r.d.store) && Carried(r.s.store, r.d.store)
             && AllGiven(b, front, r.d, c, env)
             && r.s == S.Run(b.s, Commands(front), c) && S.NoSeeds(Commands(front))
    ensures var r := RunBoth(b, front + [t], c, env);
            && Healthy(r.d, env) && Extends(b.d.store, r.d.store) && Carried(r.s.store, r.d.store)
            && AllGiven(b, front + [t], r.d, c, env)
  {
    hide Healthy, S.Fresh, S.Anchored, SameAddress, Carried, S.NoSeeds, S.Step, S.Run, After, Scanned, Proper, RunBoth;
    hide SnapshotGiven, Answered, Answer, Written, Run, Segments.Sound, Extends;
    var r := RunBoth(b, front, c, env);
    var next := Turned(r, t, c, env);
    TurnSnoc(b, front, t, c, env);
    if t.Command? {
      StoreAfter(b.s, Commands(front), t.cmd, c);
      WrittenLand(r.d, r.s.store, next.s.store, c, env);
    } else {
      AttemptSafe(r.d, t.attempt, env);
      CarriedOn(r.s.store, r.d.store, next.d.store);
    }
    ExtendsTransitive(b.d.store, r.d.store, next.d.store);
    forall snap | Answered(b, front + [t], snap, c, env) ensures SnapshotGiven(next.d, snap, env) {
      if Answered(b, front, snap, c, env) {
        GivenOn(r.d, next.d, snap, env);
      } else {
        AnsweredByCommand(r.s, t, c);
        AnswerStored(b.s, Commands(front), t, c, next.d, env);
      }
    }
  }

  lemma AnsweredByCommand(s: S.State, t: Turn, c: S.Config)
    ensures Answer(s, t, c).Some? ==> t.Command?
  {
  }
}
