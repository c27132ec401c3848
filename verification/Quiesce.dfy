/** The restore window: poller ticks, user writes and restores in any interleaving
    around the pause lock. */
module Quiesce {
  import opened Prelude
  import D = Drain

  datatype Owner = Free | Poller | Token(restore: nat)

  /** One tick: lock, select a batch, forward it row by row, delete it, unlock. It
      can fail at any point and then only unlocks. */
  datatype Tick = Idle | Locked | Selected(batch: seq<nat>, next: nat) | Finishing

  datatype Restoring = Waiting | Holding | Committed | Dropped

  /** `wiped` are the rows that were in the log when some restore committed. */
  datatype State = State(
    lock: Owner, tick: Tick, restores: map<nat, Restoring>,
    log: D.Log, nextId: nat, forwarded: seq<nat>, wiped: set<nat>)

  datatype Action =
    | UserWrite(row: D.LogRow)
    | PollLock
    | Select
    | Forward(skip: bool)
    | Delete
    | Fail
    | PollUnlock
    | BeginRestore(id: nat)
    | TakeToken(id: nat)
    | Commit(id: nat)
    | DropToken(id: nat)

  function Step(s: State, a: Action): Option<State> {
    match a
    case UserWrite(row) => Some(s.(log := s.log[s.nextId := row], nextId := s.nextId + 1))
    case PollLock => if s.tick.Idle? && s.lock.Free? then Some(s.(tick := Locked, lock := Poller)) else None
    case Select => if s.tick.Locked? then Some(s.(tick := Selected(D.Batch(s.log), 0))) else None
    case Forward(skip) =>
      if s.tick.Selected? && s.tick.next < |s.tick.batch| then
        Some(s.(tick := Selected(s.tick.batch, s.tick.next + 1),
                forwarded := if skip then s.forwarded else s.forwarded + [s.tick.batch[s.tick.next]]))
      else None
    case Delete =>
      if s.tick.Selected? && s.tick.next == |s.tick.batch| then
        Some(s.(tick := Finishing,
                log := if s.tick.batch == [] then s.log else D.Deleted(s.log, D.MaxId(s.tick.batch))))
      else None
    case Fail => if s.tick.Locked? || s.tick.Selected? then Some(s.(tick := Finishing)) else None
    case PollUnlock => if s.tick.Finishing? then Some(s.(tick := Idle, lock := Free)) else None
    case BeginRestore(id) => if id in s.restores then None else Some(s.(restores := s.restores[id := Waiting]))
    case TakeToken(id) =>
      if id in s.restores && s.restores[id].Waiting? && s.lock.Free?
      then Some(s.(restores := s.restores[id := Holding], lock := Token(id))) else None
    case Commit(id) =>
      if id in s.restores && s.restores[id].Holding?
      then Some(s.(restores := s.restores[id := Committed], log := map[], wiped := s.wiped + s.log.Keys)) else None
    case DropToken(id) =>
      if id in s.restores && (s.restores[id].Holding? || s.restores[id].Committed?)
      then Some(s.(restores := s.restores[id := Dropped], lock := Free)) else None
  }

  ghost predicate Initial(s: State) {
    s.lock.Free? && s.tick.Idle? && s.restores == map[] && s.wiped == {} && s.forwarded == []
    && forall i :: i in s.log ==> i < s.nextId
  }

  ghost predicate Trace(t: seq<State>, actions: seq<Action>) {
    && |t| == |actions| + 1 && Initial(t[0])
    && forall i :: 0 <= i < |actions| ==> Step(t[i], actions[i]) == Some(t[i + 1])
  }

  predicate HasToken(r: Restoring) { r.Holding? || r.Committed? }

  ghost predicate LockTrue(s: State) {
    && (s.lock.Poller? <==> !s.tick.Idle?)
    && (forall i :: i in s.restores ==> (HasToken(s.restores[i]) <==> s.lock == Token(i)))
    && (s.lock.Token? ==> s.lock.restore in s.restores)
  }

  /** A selected batch is still in the log; what was wiped never comes back. */
  ghost predicate RowsTrue(s: State) {
    && (s.tick.Selected? ==> s.tick.next <= |s.tick.batch| && D.InLog(s.tick.batch, s.log))
    && (forall i :: i in s.log ==> i < s.nextId && i !in s.wiped)
    && (forall i :: i in s.wiped ==> i < s.nextId)
  }

  ghost predicate Inv(s: State) { LockTrue(s) && RowsTrue(s) }

  lemma LockKept(s: State, a: Action)
    requires LockTrue(s) && Step(s, a).Some?
    ensures LockTrue(Step(s, a).value)
  {
  }

  lemma RowsKept(s: State, a: Action)
    requires Inv(s) && Step(s, a).Some?
    ensures RowsTrue(Step(s, a).value)
  {
    hide D.Batch, D.MaxId;
    assert D.InLog(D.Batch(s.log), s.log);
  }

  lemma {:induction false} ReachableInv(t: seq<State>, actions: seq<Action>, n: nat)
    requires Trace(t, actions) && n < |t|
    ensures Inv(t[n])
  {
    hide Step;
    if n > 0 {
      ReachableInv(t, actions, n - 1);
      assert Step(t[n - 1], actions[n - 1]) == Some(t[n]);
      LockKept(t[n - 1], actions[n - 1]);
      RowsKept(t[n - 1], actions[n - 1]);
    }
  }

  /** While any restore holds its token the poller is idle: it holds no batch, and no
      step it can take forwards a row or deletes one. */
  lemma QuietWindow(t: seq<State>, actions: seq<Action>, n: nat, r: nat)
    requires Trace(t, actions) && n < |t| && r in t[n].restores && HasToken(t[n].restores[r])
    ensures t[n].tick.Idle?
    ensures forall skip :: Step(t[n], Forward(skip)).None?
    ensures Step(t[n], Select).None? && Step(t[n], Delete).None? && Step(t[n], PollLock).None?
    ensures n < |actions| ==> t[n + 1].forwarded == t[n].forwarded
  {
    ReachableInv(t, actions, n);
    if n < |actions| { assert Step(t[n], actions[n]) == Some(t[n + 1]); }
  }

  /** At most one restore holds a token. */
  lemma OneToken(t: seq<State>, actions: seq<Action>, n: nat, q: nat, r: nat)
    requires Trace(t, actions) && n < |t| && q in t[n].restores && r in t[n].restores
    requires HasToken(t[n].restores[q]) && HasToken(t[n].restores[r])
    ensures q == r
  {
    ReachableInv(t, actions, n);
  }

  lemma WipedStays(s: State, a: Action, s': State)
    requires Inv(s) && Step(s, a) == Some(s')
    ensures s.wiped <= s'.wiped && s.forwarded <= s'.forwarded
    ensures forall k :: |s.forwarded| <= k < |s'.forwarded| ==> s'.forwarded[k] !in s.wiped
  {
  }

  /** No row that was in the change log when a restore committed is ever forwarded
      after that, by any later tick. */
  lemma {:induction false} WipedNeverForwarded(t: seq<State>, actions: seq<Action>, j: nat, r: nat, n: nat)
    requires Trace(t, actions) && j < |actions| && actions[j] == Commit(r) && j < n < |t|
    ensures t[j].forwarded <= t[n].forwarded && t[j].log.Keys <= t[n].wiped
    ensures forall k :: |t[j].forwarded| <= k < |t[n].forwarded| ==> t[n].forwarded[k] !in t[j].log
  {
    hide Inv;
    ReachableInv(t, actions, n - 1);
    assert Step(t[n - 1], actions[n - 1]) == Some(t[n]);
    WipedStays(t[n - 1], actions[n - 1], t[n]);
    if n - 1 > j {
      hide Step;
      WipedNeverForwarded(t, actions, j, r, n - 1);
    }
  }

  // ------------------------------------------------------------------- whole runs

  lemma TraceLength(t: seq<State>, actions: seq<Action>)
    requires Trace(t, actions)
    ensures |t| == |actions| + 1
  {
  }

  /** `t` goes on from its last state by `a`. */
  lemma GoOn(t: seq<State>, actions: seq<Action>, a: Action) returns (t': seq<State>, actions': seq<Action>)
    requires Trace(t, actions) && Step(t[|actions|], a).Some?
    ensures Trace(t', actions') && |t'| == |actions'| + 1 && t <= t' && t'[|actions'|] == Step(t[|actions|], a).value
  {
    hide Step, Initial;
    t', actions' := t + [Step(t[|actions|], a).value], actions + [a];
  }

  /** A user can write at any time, also while a restore holds its token: the row joins
      the log under an id that is new and larger than every other. */
  lemma UsersWriteAnyTime(t: seq<State>, actions: seq<Action>, n: nat, row: D.LogRow) returns (id: nat)
    requires Trace(t, actions) && n < |t|
    ensures forall i :: i in t[n].log || i in t[n].wiped ==> i < id
    ensures Step(t[n], UserWrite(row)) == Some(t[n].(log := t[n].log[id := row], nextId := id + 1))
  {
    ReachableInv(t, actions, n);
    id := t[n].nextId;
  }

  /** With the lock free a poller tick can run to its end: it forwards a batch, row by
      row in order, and deletes it, and the lock is free again. */
  lemma TickRuns(t: seq<State>, actions: seq<Action>) returns (t': seq<State>, actions': seq<Action>)
    requires Trace(t, actions) && t[|actions|].lock.Free?
    ensures Trace(t', actions') && |t'| == |actions'| + 1 && t <= t'
    ensures var (s, b) := (t[|actions|], D.Batch(t[|actions|].log));
            t'[|actions'|] == s.(forwarded := s.forwarded + b, log := if b == [] then s.log else D.Deleted(s.log, D.MaxId(b)))
  {
    ReachableInv(t, actions, |actions|);
    hide Trace, D.Batch, D.MaxId, D.Deleted;
    TraceLength(t, actions);
    t', actions' := GoOn(t, actions, PollLock);
    t', actions' := GoOn(t', actions', Select);
    t', actions' := Forwards(t', actions');
    t', actions' := GoOn(t', actions', Delete);
    t', actions' := GoOn(t', actions', PollUnlock);
  }

  lemma {:induction false} Forwards(t: seq<State>, actions: seq<Action>) returns (t': seq<State>, actions': seq<Action>)
    requires Trace(t, actions)
    requires var s := t[|actions|]; s.tick.Selected? && s.tick.next <= |s.tick.batch|
    ensures Trace(t', actions') && |t'| == |actions'| + 1 && t <= t'
    ensures var s := t[|actions|];
      t'[|actions'|] == s.(tick := Selected(s.tick.batch, |s.tick.batch|), forwarded := s.forwarded + s.tick.batch[s.tick.next..])
    decreases |t[|actions|].tick.batch| - t[|actions|].tick.next
  {
    hide Trace;
    TraceLength(t, actions);
    var s := t[|actions|];
    var (b, k) := (s.tick.batch, s.tick.next);
    if k == |b| {
      t', actions' := t, actions;
      assert s.forwarded + b[k..] == s.forwarded;
    } else {
      t', actions' := GoOn(t, actions, Forward(false));
      t', actions' := Forwards(t', actions');
      assert s.forwarded + [b[k]] + b[k + 1..] == s.forwarded + b[k..];
    }
  }

  /** A malformed row is passed over: nothing is forwarded for it. */
  lemma SkippedRow(t: seq<State>, actions: seq<Action>, n: nat)
    requires Trace(t, actions) && n < |t| && t[n].tick.Selected? && t[n].tick.next < |t[n].tick.batch|
    ensures Step(t[n], Forward(true)) == Some(t[n].(tick := Selected(t[n].tick.batch, t[n].tick.next + 1)))
  {
  }

  /** A tick that fails gives the lock back and has deleted nothing. */
  lemma FailedTickUnlocks(t: seq<State>, actions: seq<Action>) returns (t': seq<State>, actions': seq<Action>)
    requires Trace(t, actions) && (t[|actions|].tick.Locked? || t[|actions|].tick.Selected?)
    ensures Trace(t', actions') && |t'| == |actions'| + 1 && t <= t'
    ensures t'[|actions'|] == t[|actions|].(tick := Idle, lock := Free)
  {
    hide Trace;
    TraceLength(t, actions);
    t', actions' := GoOn(t, actions, Fail);
    t', actions' := GoOn(t', actions', PollUnlock);
  }

  /** With the lock free a new restore can run to its end, committing or not: a commit
      empties the log, and the lock is free again. */
  lemma RestoreRuns(t: seq<State>, actions: seq<Action>, id: nat, commits: bool)
    returns (t': seq<State>, actions': seq<Action>)
    requires Trace(t, actions) && t[|actions|].lock.Free? && id !in t[|actions|].restores
    ensures Trace(t', actions') && |t'| == |actions'| + 1 && t <= t'
    ensures var s := t[|actions|];
      t'[|actions'|] == if commits then s.(restores := s.restores[id := Dropped], log := map[], wiped := s.wiped + s.log.Keys)
                        else s.(restores := s.restores[id := Dropped])
  {
    hide Trace;
    TraceLength(t, actions);
    var s := t[|actions|];
    t', actions' := GoOn(t, actions, BeginRestore(id));
    t', actions' := GoOn(t', actions', TakeToken(id));
    if commits { t', actions' := GoOn(t', actions', Commit(id)); }
    t', actions' := GoOn(t', actions', DropToken(id));
    assert s.restores[id := Waiting][id := Holding][id := Dropped] == s.restores[id := Dropped];
    assert s.restores[id := Waiting][id := Holding][id := Committed][id := Dropped] == s.restores[id := Dropped];
  }
}
