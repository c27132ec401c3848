/** Commit, rollback and diff handlers under every interleaving: queue slots, the
    commit lock, the shutdown recheck and the final drain. */
module Shutdown {
  import opened Prelude
  import opened Staging

  datatype RefsView = RefsView(head: Option<HeadRef>, branches: map<string, Hash>)

  /** Commit and Rollback write refs; Diff reads them. */
  datatype Kind = Writer | Reader

  /** Where a handler stands. The slot is a permit and then a gauge increment, given
      back in the opposite order; the lock is released before the slot. */
  datatype Phase =
    | Arrived
    | Admitted
    | Permitted
    | Queued
    | Holding
    | Executing
    | ReadingBranches(head: Option<HeadRef>, got: map<string, Hash>, todo: set<string>)
    | Leaving
    | Unlocked
    | Lowered
    | Ended

  datatype Handler = Handler(kind: Kind, phase: Phase, snapshot: Option<RefsView>)

  datatype Owner = Free | HeldBy(id: nat) | HeldByDrain

  datatype Drain = NotDrained | Draining | Drained

  datatype State = State(
    depth: nat, permits: nat, gauge: nat, lock: Owner, shutdown: bool, drain: Drain,
    handlers: map<nat, Handler>, refs: RefsView)

  predicate HasPermit(p: Phase) { !p.Arrived? && !p.Admitted? && !p.Ended? }
  predicate OnGauge(p: Phase) { HasPermit(p) && !p.Permitted? && !p.Lowered? }
  predicate HasLock(p: Phase) { p.Holding? || p.Executing? || p.ReadingBranches? || p.Leaving? }

  function Live(s: State): set<nat> { set i | i in s.handlers && HasPermit(s.handlers[i].phase) }
  function Gauged(s: State): set<nat> { set i | i in s.handlers && OnGauge(s.handlers[i].phase) }
  function Running(s: State): set<nat> { set i | i in s.handlers && s.handlers[i].phase.Executing? }

  // ------------------------------------------------------------------------ steps

  datatype Action =
    | Arrive(id: nat, kind: Kind)
    | Check(id: nat)
    | TakePermit(id: nat)
    | RaiseGauge(id: nat)
    | Lock(id: nat)
    | Recheck(id: nat)
    | WriteBranch(id: nat, branch: string, hash: Hash)
    | WriteHead(id: nat, branch: string)
    | Finish(id: nat)
    | ListBranches(id: nat)
    | ReadBranch(id: nat, branch: string)
    | EndRead(id: nat)
    | FailRead(id: nat)
    | Unlock(id: nat)
    | LowerGauge(id: nat)
    | ReturnPermit(id: nat)
    | Signal
    | DrainLock
    | DrainUnlock

  function To(s: State, id: nat, p: Phase): State
    requires id in s.handlers
  {
    s.(handlers := s.handlers[id := s.handlers[id].(phase := p)])
  }

  /** The next state, or none when the action is not possible now. Reading HEAD and
      listing the branches is one step, each branch another. */
  function Step(s: State, a: Action): Option<State> {
    match a
    case Arrive(id, kind) =>
      if id in s.handlers then None else Some(s.(handlers := s.handlers[id := Handler(kind, Arrived, None)]))
    case Signal => Some(s.(shutdown := true))
    case DrainLock =>
      if s.shutdown && s.drain.NotDrained? && s.lock.Free? then Some(s.(drain := Draining, lock := HeldByDrain)) else None
    case DrainUnlock => if s.drain.Draining? then Some(s.(drain := Drained, lock := Free)) else None
    case _ => if a.id !in s.handlers then None else HandlerStep(s, a)
  }

  predicate ByHandler(a: Action) { !a.Arrive? && !a.Signal? && !a.DrainLock? && !a.DrainUnlock? }

  function HandlerStep(s: State, a: Action): Option<State>
    requires ByHandler(a) && a.id in s.handlers
  {
    if OnSlot(a) then SlotStep(s, a) else LockStep(s, a)
  }

  predicate OnSlot(a: Action) { a.Check? || a.TakePermit? || a.RaiseGauge? || a.LowerGauge? || a.ReturnPermit? }

  /** Steps outside the commit lock: the first check and the queue slot. */
  function SlotStep(s: State, a: Action): Option<State>
    requires OnSlot(a) && a.id in s.handlers
  {
    var (id, h) := (a.id, s.handlers[a.id]);
    match a
    case Check(_) =>
      if h.phase.Arrived? && h.kind.Writer? then Some(To(s, id, if s.shutdown then Ended else Admitted)) else None
    case TakePermit(_) =>
      if !(if h.kind.Writer? then h.phase.Admitted? else h.phase.Arrived?) then None
      else if s.permits == 0 then Some(To(s, id, Ended))
      else Some(To(s, id, Permitted).(permits := s.permits - 1))
    case RaiseGauge(_) =>
      if h.phase.Permitted? then Some(To(s, id, Queued).(gauge := s.gauge + 1)) else None
    case LowerGauge(_) =>
      if h.phase.Unlocked? then Some(To(s, id, Lowered).(gauge := if s.gauge == 0 then 0 else s.gauge - 1)) else None
    case ReturnPermit(_) =>
      if h.phase.Lowered? then Some(To(s, id, Ended).(permits := s.permits + 1)) else None
  }

  /** Taking the commit lock, what happens under it, and giving it back. */
  function LockStep(s: State, a: Action): Option<State>
    requires ByHandler(a) && !OnSlot(a) && a.id in s.handlers
  {
    var (id, h) := (a.id, s.handlers[a.id]);
    match a
    case Lock(_) =>
      if h.phase.Queued? && s.lock.Free? then Some(To(s, id, Holding).(lock := HeldBy(id))) else None
    case Recheck(_) =>
      if h.phase.Holding? && h.kind.Writer? then Some(To(s, id, if s.shutdown then Leaving else Executing)) else None
    case WriteBranch(_, b, c) =>
      if h.phase.Executing? then Some(s.(refs := s.refs.(branches := s.refs.branches[b := c]))) else None
    case WriteHead(_, b) =>
      if h.phase.Executing? then Some(s.(refs := s.refs.(head := Some(OnBranch(b))))) else None
    case Finish(_) =>
      if h.phase.Executing? then Some(To(s, id, Leaving)) else None
    case ListBranches(_) =>
      if h.phase.Holding? && h.kind.Reader? then
        Some(To(s, id, ReadingBranches(s.refs.head, map[], s.refs.branches.Keys)))
      else None
    case ReadBranch(_, b) =>
      if !h.phase.ReadingBranches? || b !in h.phase.todo then None
      else
        var got := if b in s.refs.branches then h.phase.got[b := s.refs.branches[b]] else h.phase.got;
        Some(To(s, id, ReadingBranches(h.phase.head, got, h.phase.todo - {b})))
    case EndRead(_) =>
      if h.phase.ReadingBranches? && h.phase.todo == {} then
        Some(s.(handlers := s.handlers[id := Handler(h.kind, Leaving, Some(RefsView(h.phase.head, h.phase.got)))]))
      else None
    case FailRead(_) =>
      if h.kind.Reader? && (h.phase.Holding? || h.phase.ReadingBranches?) then Some(To(s, id, Leaving)) else None
    case Unlock(_) =>
      if h.phase.Leaving? then Some(To(s, id, Unlocked).(lock := Free)) else None
  }

  /** Every state of an execution, in order. */
  ghost predicate Trace(t: seq<State>, actions: seq<Action>) {
    && |t| == |actions| + 1 && Initial(t[0])
    && forall i :: 0 <= i < |actions| ==> Step(t[i], actions[i]) == Some(t[i + 1])
  }

  ghost predicate Initial(s: State) {
    s.permits == s.depth && s.gauge == 0 && s.lock.Free? && !s.shutdown && s.drain.NotDrained? && s.handlers == map[]
  }

  // -------------------------------------------------------------------- invariant

  /** A reader has so far seen exactly the branches it no longer has to read. */
  ghost predicate ReadsTrue(h: Handler, refs: RefsView) {
    h.phase.ReadingBranches? ==>
      && h.phase.head == refs.head && h.phase.todo <= refs.branches.Keys
      && h.phase.got == map b | b in refs.branches && b !in h.phase.todo :: refs.branches[b]
  }

  /** Permits and slots add up to the depth; the gauge counts its own holders. */
  ghost predicate Counted(s: State) {
    s.permits + |Live(s)| == s.depth && s.gauge == |Gauged(s)|
  }

  /** The lock is held by exactly the handler whose phase says so, or by the drain. */
  ghost predicate Locked(s: State) {
    && (forall i :: i in s.handlers ==> (HasLock(s.handlers[i].phase) <==> s.lock == HeldBy(i)))
    && (s.lock.HeldBy? ==> s.lock.id in s.handlers)
    && (s.lock.HeldByDrain? <==> s.drain.Draining?)
  }

  ghost predicate Quiet(s: State) {
    !s.drain.NotDrained? ==> s.shutdown && forall i :: i in s.handlers ==> !s.handlers[i].phase.Executing?
  }

  ghost predicate AllReadTrue(s: State) {
    forall i :: i in s.handlers ==> ReadsTrue(s.handlers[i], s.refs)
  }

  /** Only writers pass the shutdown checks, only readers read. */
  ghost predicate Roles(s: State) {
    forall i :: i in s.handlers ==>
      && (s.handlers[i].phase.Admitted? || s.handlers[i].phase.Executing? ==> s.handlers[i].kind.Writer?)
      && (s.handlers[i].phase.ReadingBranches? ==> s.handlers[i].kind.Reader?)
  }

  ghost predicate Inv(s: State) {
    Counted(s) && Locked(s) && Quiet(s) && AllReadTrue(s) && Roles(s)
  }

  lemma Moved(s: State, id: nat, h: Handler)
    ensures id in Live(s) <==> id in s.handlers && HasPermit(s.handlers[id].phase)
    ensures id in Gauged(s) <==> id in s.handlers && OnGauge(s.handlers[id].phase)
    ensures id in Running(s) <==> id in s.handlers && s.handlers[id].phase.Executing?
    ensures var s' := s.(handlers := s.handlers[id := h]);
            && Live(s') == (if HasPermit(h.phase) then Live(s) + {id} else Live(s) - {id})
            && Gauged(s') == (if OnGauge(h.phase) then Gauged(s) + {id} else Gauged(s) - {id})
            && Running(s') == (if h.phase.Executing? then Running(s) + {id} else Running(s) - {id})
  {
  }

  lemma SameHandlers(s: State, s': State)
    requires s.handlers == s'.handlers
    ensures Live(s) == Live(s') && Gauged(s) == Gauged(s') && Running(s) == Running(s')
  {
  }

  function Share(s: State, id: nat): (int, int) {
    if id !in s.handlers then (0, 0)
    else (if HasPermit(s.handlers[id].phase) then 1 else 0, if OnGauge(s.handlers[id].phase) then 1 else 0)
  }

  /** A slot step leaves the lock side alone. */
  lemma SlotFrame(s: State, a: Action, s': State)
    requires OnSlot(a) && a.id in s.handlers && SlotStep(s, a) == Some(s')
    ensures s'.lock == s.lock && s'.refs == s.refs && s'.drain == s.drain && s'.shutdown == s.shutdown && s'.depth == s.depth
    ensures a.id in s'.handlers && s'.handlers == s.handlers[a.id := s'.handlers[a.id]]
    ensures var (h, h') := (s.handlers[a.id], s'.handlers[a.id]);
            h'.kind == h.kind && h'.snapshot == h.snapshot && !HasLock(h.phase) && !HasLock(h'.phase)
            && (h'.phase.Admitted? ==> h.kind.Writer?)
  {
  }

  /** A lock step leaves the slot alone. */
  lemma LockFrame(s: State, a: Action, s': State)
    requires ByHandler(a) && !OnSlot(a) && a.id in s.handlers && LockStep(s, a) == Some(s')
    ensures s'.permits == s.permits && s'.gauge == s.gauge && s'.depth == s.depth
    ensures s'.drain == s.drain && s'.shutdown == s.shutdown
    ensures a.id in s'.handlers && s'.handlers == s.handlers[a.id := s'.handlers[a.id]]
    ensures var (h, h') := (s.handlers[a.id], s'.handlers[a.id]);
            h'.kind == h.kind && OnGauge(h.phase) && OnGauge(h'.phase) && !h'.phase.Admitted?
  {
  }

  /** A step moves permits and gauge by exactly what it does to its own handler. */
  lemma StepBalances(s: State, a: Action, s': State)
    requires Step(s, a) == Some(s')
    ensures s'.depth == s.depth
    ensures ByHandler(a) || a.Arrive? ==>
      && a.id in s'.handlers && s'.handlers == s.handlers[a.id := s'.handlers[a.id]]
      && s'.permits == s.permits + Share(s, a.id).0 - Share(s', a.id).0
      && (s.gauge >= Share(s, a.id).1 ==> s'.gauge == s.gauge + Share(s', a.id).1 - Share(s, a.id).1)
    ensures !(ByHandler(a) || a.Arrive?) ==>
      s'.handlers == s.handlers && s'.permits == s.permits && s'.gauge == s.gauge
  {
    if ByHandler(a) && !OnSlot(a) {
      hide LockStep;
      LockFrame(s, a, s');
    } else {
      hide LockStep;
    }
  }

  lemma CountsKept(s: State, a: Action)
    requires Counted(s) && Step(s, a).Some?
    ensures Counted(Step(s, a).value)
  {
    hide Live, Gauged, Running, Step, HasPermit, OnGauge;
    var s' := Step(s, a).value;
    StepBalances(s, a, s');
    if ByHandler(a) || a.Arrive? {
      Moved(s, a.id, s'.handlers[a.id]);
      SameHandlers(s.(handlers := s'.handlers), s');
    } else {
      SameHandlers(s, s');
    }
  }

  /** The parts of the invariant about the lock. */
  ghost predicate LockSide(s: State) {
    Locked(s) && Quiet(s) && AllReadTrue(s) && Roles(s)
  }

  lemma SlotKeepsLockSide(s: State, a: Action, s': State)
    requires LockSide(s) && OnSlot(a) && a.id in s.handlers && SlotStep(s, a) == Some(s')
    ensures LockSide(s')
  {
    hide SlotStep;
    SlotFrame(s, a, s');
  }

  lemma LockKeepsLocked(s: State, a: Action, s': State)
    requires Locked(s) && ByHandler(a) && !OnSlot(a) && a.id in s.handlers && LockStep(s, a) == Some(s')
    ensures Locked(s')
  {
  }

  lemma LockKeepsQuiet(s: State, a: Action, s': State)
    requires Locked(s) && Quiet(s) && Roles(s)
    requires ByHandler(a) && !OnSlot(a) && a.id in s.handlers && LockStep(s, a) == Some(s')
    ensures Quiet(s') && Roles(s')
  {
  }

  lemma LockKeepsReads(s: State, a: Action, s': State)
    requires Locked(s) && AllReadTrue(s)
    requires ByHandler(a) && !OnSlot(a) && a.id in s.handlers && LockStep(s, a) == Some(s')
    ensures AllReadTrue(s')
  {
    forall i | i in s'.handlers ensures ReadsTrue(s'.handlers[i], s'.refs) {
      if s'.refs != s.refs { assert HasLock(s.handlers[a.id].phase); }
    }
  }

  lemma LockSideKept(s: State, a: Action)
    requires LockSide(s) && Step(s, a).Some?
    ensures LockSide(Step(s, a).value)
  {
    hide SlotStep, LockStep;
    var s' := Step(s, a).value;
    if ByHandler(a) {
      hide Locked, Quiet, AllReadTrue, Roles;
      if OnSlot(a) {
        SlotKeepsLockSide(s, a, s');
      } else {
        LockKeepsLocked(s, a, s');
        LockKeepsQuiet(s, a, s');
        LockKeepsReads(s, a, s');
      }
    }
  }

  lemma StepKeepsInv(s: State, a: Action)
    requires Inv(s) && Step(s, a).Some?
    ensures Inv(Step(s, a).value) && Step(s, a).value.depth == s.depth
  {
    hide Counted, Locked, Quiet, AllReadTrue, Roles, Step;
    StepBalances(s, a, Step(s, a).value);
    CountsKept(s, a);
    LockSideKept(s, a);
  }

  lemma {:induction false} ReachableInv(t: seq<State>, actions: seq<Action>, n: nat)
    requires Trace(t, actions) && n < |t|
    ensures Inv(t[n]) && t[n].depth == t[0].depth
  {
    if n == 0 {
      assert Live(t[0]) == {} && Gauged(t[0]) == {};
    } else {
      hide Inv, Step, Initial;
      ReachableInv(t, actions, n - 1);
      assert Step(t[n - 1], actions[n - 1]) == Some(t[n]);
      StepKeepsInv(t[n - 1], actions[n - 1]);
    }
  }

  // ------------------------------------------------------------------ main results

  /** In every reachable state, for any number of handlers: at most one executes, the
      live slots never exceed the queue depth, and the gauge never exceeds them. */
  lemma SlotsBounded(t: seq<State>, actions: seq<Action>, n: nat, i: nat, j: nat)
    requires Trace(t, actions) && n < |t|
    ensures i in Running(t[n]) && j in Running(t[n]) ==> i == j
    ensures t[n].gauge <= |Live(t[n])| <= t[0].depth
  {
    hide Trace;
    ReachableInv(t, actions, n);
    SubsetSize(Gauged(t[n]), Live(t[n]));
  }

  /** A slot is refused exactly when `depth` handlers hold one. */
  lemma RefusedExactlyWhenFull(t: seq<State>, actions: seq<Action>, n: nat, id: nat)
    requires Trace(t, actions) && n < |t| && Step(t[n], TakePermit(id)).Some?
    ensures Step(t[n], TakePermit(id)).value.handlers[id].phase.Ended? <==> |Live(t[n])| == t[0].depth
  {
    hide Trace;
    ReachableInv(t, actions, n);
  }

  lemma {:induction false} DrainLasts(t: seq<State>, actions: seq<Action>, k: nat, n: nat)
    requires Trace(t, actions) && k <= n < |t| && !t[k].drain.NotDrained?
    ensures !t[n].drain.NotDrained?
  {
    if k < n {
      DrainLasts(t, actions, k, n - 1);
      DrainMoves(t[n - 1], actions[n - 1], t[n]);
    }
  }

  lemma DrainMoves(s: State, a: Action, s': State)
    requires Step(s, a) == Some(s')
    ensures !s.drain.NotDrained? ==> !s'.drain.NotDrained?
  {
  }

  /** Once the drain has had the lock, nothing is executing and nothing ever will. */
  lemma NothingRunsAfterDrain(t: seq<State>, actions: seq<Action>, k: nat, n: nat)
    requires Trace(t, actions) && k <= n < |t| && !t[k].drain.NotDrained?
    ensures Running(t[n]) == {} && t[n].shutdown
  {
    hide Trace;
    DrainLasts(t, actions, k, n);
    ReachableInv(t, actions, n);
  }

  lemma SnapshotMoment(s: State, a: Action, s': State, id: nat)
    requires Inv(s) && Step(s, a) == Some(s') && id in s'.handlers && s'.handlers[id].snapshot.Some?
    ensures (id in s.handlers && s.handlers[id].snapshot == s'.handlers[id].snapshot)
         || (s'.handlers[id].snapshot == Some(s'.refs) && Running(s') == {})
  {
    hide Counted, Quiet, SlotStep;
    if OnSlot(a) && a.id in s.handlers { SlotFrame(s, a, s'); }
    if !(id in s.handlers && s.handlers[id].snapshot == s'.handlers[id].snapshot) {
      assert a == EndRead(id);
      assert ReadsTrue(s.handlers[id], s.refs);
      var p := s.handlers[id].phase;
      assert p.got == s.refs.branches;
      assert s.refs == RefsView(s.refs.head, s.refs.branches);
      assert s.lock == HeldBy(id);
      forall i | i in s'.handlers ensures !s'.handlers[i].phase.Executing? {
        assert i != id ==> i in s.handlers && s'.handlers[i] == s.handlers[i];
      }
    }
  }

  /** A diff's ref snapshot, read one ref at a time, is the refs as they all stood at
      one moment when no commit or rollback was part-way. */
  lemma {:induction false} SnapshotIsOneMoment(t: seq<State>, actions: seq<Action>, n: nat, id: nat) returns (k: nat)
    requires Trace(t, actions) && n < |t| && id in t[n].handlers && t[n].handlers[id].snapshot.Some?
    ensures k <= n && t[n].handlers[id].snapshot == Some(t[k].refs) && Running(t[k]) == {}
  {
    hide Inv, Step, Running;
    assert n > 0;
    ReachableInv(t, actions, n - 1);
    assert Step(t[n - 1], actions[n - 1]) == Some(t[n]);
    SnapshotMoment(t[n - 1], actions[n - 1], t[n], id);
    if id in t[n - 1].handlers && t[n - 1].handlers[id].snapshot == t[n].handlers[id].snapshot {
      k := SnapshotIsOneMoment(t, actions, n - 1, id);
    } else {
      k := n;
    }
  }

  /** No handler is ever stuck: while one has not ended, some handler can move, or
      the drain can give its lock back. */
  lemma NeverStuck(t: seq<State>, actions: seq<Action>, n: nat, id: nat) returns (a: Action)
    requires Trace(t, actions) && n < |t| && id in t[n].handlers && !t[n].handlers[id].phase.Ended?
    ensures Step(t[n], a).Some? && (ByHandler(a) || a.DrainUnlock?)
  {
    ReachableInv(t, actions, n);
    a := Enabled(t[n], id);
  }

  lemma Enabled(s: State, id: nat) returns (a: Action)
    requires Locked(s) && Roles(s) && id in s.handlers && !s.handlers[id].phase.Ended?
    ensures Step(s, a).Some? && (ByHandler(a) || a.DrainUnlock?)
  {
    if s.handlers[id].phase.Queued? && s.lock.HeldByDrain? { return DrainUnlock; }
    var i := if s.handlers[id].phase.Queued? && s.lock.HeldBy? then s.lock.id else id;
    if HasLock(s.handlers[i].phase) || s.handlers[i].phase.Queued? {
      hide SlotStep;
      a := LockMove(s, i);
    } else {
      hide LockStep;
      a := SlotMove(s, i);
    }
  }

  lemma SlotMove(s: State, i: nat) returns (a: Action)
    requires Roles(s) && i in s.handlers
    requires var p := s.handlers[i].phase; !HasLock(p) && !p.Queued? && !p.Ended?
    ensures OnSlot(a) && a.id == i && SlotStep(s, a).Some?
  {
    var h := s.handlers[i];
    match h.phase {
      case Arrived => return if h.kind.Writer? then Check(i) else TakePermit(i);
      case Admitted => return TakePermit(i);
      case Permitted => return RaiseGauge(i);
      case Unlocked => return LowerGauge(i);
      case Lowered => return ReturnPermit(i);
    }
  }

  lemma LockMove(s: State, i: nat) returns (a: Action)
    requires i in s.handlers
    requires var p := s.handlers[i].phase; HasLock(p) || (p.Queued? && s.lock.Free?)
    ensures ByHandler(a) && !OnSlot(a) && a.id == i && LockStep(s, a).Some?
  {
    var h := s.handlers[i];
    match h.phase {
      case Queued => return Lock(i);
      case Holding => return if h.kind.Writer? then Recheck(i) else ListBranches(i);
      case Executing => return Finish(i);
      case ReadingBranches(_, _, todo) =>
        if todo == {} { return EndRead(i); }
        var b :| b in todo;
        return ReadBranch(i, b);
      case Leaving => return Unlock(i);
    }
  }

  // ------------------------------------------------- what a handler gets, and why not

  /** Under the lock a writer goes on exactly if no shutdown has been signalled. */
  lemma RecheckDecides(t: seq<State>, actions: seq<Action>, n: nat, id: nat)
    requires Trace(t, actions) && n < |t|
    requires id in t[n].handlers && t[n].handlers[id].kind.Writer? && t[n].handlers[id].phase.Holding?
    ensures t[n].lock == HeldBy(id) && Step(t[n], Recheck(id)).Some?
    ensures n < |actions| && actions[n] == Recheck(id) ==> (id in Running(t[n + 1]) <==> !t[n].shutdown)
  {
    hide Trace;
    ReachableInv(t, actions, n);
    if n < |actions| && actions[n] == Recheck(id) { StepAt(t, actions, n); }
  }

  lemma StepAt(t: seq<State>, actions: seq<Action>, n: nat)
    requires Trace(t, actions) && n < |actions|
    ensures Step(t[n], actions[n]) == Some(t[n + 1])
  {
  }

  /** Why this step turned the handler away. */
  ghost predicate TurnedAway(s: State, a: Action, id: nat) {
    || (a == TakePermit(id) && |Live(s)| == s.depth)
    || ((a == Check(id) || a == Recheck(id)) && s.shutdown)
    || (a == FailRead(id) && id in s.handlers && s.handlers[id].kind.Reader?)
  }

  /** On the way out with nothing done. */
  predicate Out(p: Phase) { p.Leaving? || p.Unlocked? || p.Lowered? || p.Ended? }

  lemma LeavesFor(s: State, a: Action, s': State, id: nat)
    requires Inv(s) && Step(s, a) == Some(s')
    requires id in s'.handlers && Out(s'.handlers[id].phase) && !(id in s.handlers && Out(s.handlers[id].phase))
    ensures id in Running(s) || TurnedAway(s, a, id) || (s'.handlers[id].snapshot.Some? && s'.handlers[id].kind.Reader?)
  {
    hide Counted, Locked, Quiet, AllReadTrue, Live;
    if ByHandler(a) && !OnSlot(a) {
      hide SlotStep;
    } else {
      hide LockStep;
      if a == TakePermit(id) { assert |Live(s)| == s.depth by { FullWhenNoPermit(s); } }
    }
  }

  lemma FullWhenNoPermit(s: State)
    requires Inv(s) && s.permits == 0
    ensures |Live(s)| == s.depth
  {
  }

  lemma KindStays(s: State, a: Action, s': State, id: nat)
    requires Step(s, a) == Some(s') && id in s.handlers
    ensures id in s'.handlers && s'.handlers[id].kind == s.handlers[id].kind
    ensures s.handlers[id].snapshot.Some? ==> s'.handlers[id].snapshot.Some?
  {
  }

  /** A handler on its way out, or ended, has executed, or delivers a snapshot, or was
      turned away at one step `k`: at a full queue, after a shutdown, or, reading, by a
      failing read. */
  lemma {:induction false} OutOnlyFor(t: seq<State>, actions: seq<Action>, n: nat, id: nat) returns (k: nat)
    requires Trace(t, actions) && n < |t| && id in t[n].handlers && Out(t[n].handlers[id].phase)
    ensures k < n
    ensures id in Running(t[k]) || TurnedAway(t[k], actions[k], id)
            || (t[n].handlers[id].snapshot.Some? && t[n].handlers[id].kind.Reader?)
  {
    hide Inv, Step, Running, TurnedAway, Out, Initial;
    assert n > 0 by { assert t[0].handlers == map[] by { Start(t[0]); } }
    ReachableInv(t, actions, n - 1);
    StepAt(t, actions, n - 1);
    if id in t[n - 1].handlers && Out(t[n - 1].handlers[id].phase) {
      k := OutOnlyFor(t, actions, n - 1, id);
      KindStays(t[n - 1], actions[n - 1], t[n], id);
    } else {
      k := n - 1;
      LeavesFor(t[n - 1], actions[n - 1], t[n], id);
    }
  }

  lemma Start(s: State)
    requires Initial(s)
    ensures s.handlers == map[]
  {
  }

  /** A commit or rollback that ended without executing was refused with `depth` slots
      live or met a shutdown. */
  lemma WriterEndsFor(t: seq<State>, actions: seq<Action>, n: nat, id: nat) returns (k: nat)
    requires Trace(t, actions) && n < |t| && id in t[n].handlers
    requires t[n].handlers[id].kind.Writer? && t[n].handlers[id].phase.Ended?
    ensures k < n && (id in Running(t[k]) ||
      (actions[k] == TakePermit(id) && |Live(t[k])| == t[0].depth) ||
      ((actions[k] == Check(id) || actions[k] == Recheck(id)) && t[k].shutdown))
  {
    hide Step, Running;
    k := OutOnlyFor(t, actions, n, id);
    ReachableInv(t, actions, k);
    if id !in Running(t[k]) && actions[k] == FailRead(id) && id in t[k].handlers { KindsStay(t, actions, k, n, id); }
  }

  lemma {:induction false} KindsStay(t: seq<State>, actions: seq<Action>, k: nat, n: nat, id: nat)
    requires Trace(t, actions) && k <= n < |t| && id in t[k].handlers
    ensures id in t[n].handlers && t[n].handlers[id].kind == t[k].handlers[id].kind
  {
    hide Step, Initial;
    if k < n {
      KindsStay(t, actions, k, n - 1, id);
      KindStays(t[n - 1], actions[n - 1], t[n], id);
    }
  }

  /** A commit or rollback that arrives after the signal never gets a slot. */
  lemma {:induction false} LateWriterTurnedAway(t: seq<State>, actions: seq<Action>, k: nat, n: nat, id: nat)
    requires Trace(t, actions) && k <= n < |t| && t[k].shutdown && id !in t[k].handlers
    ensures t[n].shutdown
    ensures id in t[n].handlers && t[n].handlers[id].kind.Writer? ==> t[n].handlers[id].phase in {Arrived, Ended}
  {
    hide Step, Initial;
    if k < n {
      LateWriterTurnedAway(t, actions, k, n - 1, id);
      LateStep(t[n - 1], actions[n - 1], t[n], id);
    }
  }

  lemma LateStep(s: State, a: Action, s': State, id: nat)
    requires Step(s, a) == Some(s') && s.shutdown
    requires id in s.handlers && s.handlers[id].kind.Writer? ==> s.handlers[id].phase in {Arrived, Ended}
    ensures s'.shutdown
    ensures id in s'.handlers && s'.handlers[id].kind.Writer? ==> s'.handlers[id].phase in {Arrived, Ended}
  {
  }

  /** Refs move only when a handler that is executing writes them, one ref at a time. */
  lemma OnlyExecutingWrites(t: seq<State>, actions: seq<Action>, n: nat)
    requires Trace(t, actions) && n < |actions| && t[n + 1].refs != t[n].refs
    ensures ByHandler(actions[n]) && Running(t[n]) == {actions[n].id}
    ensures match actions[n]
            case WriteBranch(_, b, h) => t[n + 1].refs == t[n].refs.(branches := t[n].refs.branches[b := h])
            case WriteHead(_, b) => t[n + 1].refs == t[n].refs.(head := Some(OnBranch(b)))
            case _ => false
  {
    hide Trace, SlotStep;
    TraceLength(t, actions);
    StepAt(t, actions, n);
    ReachableInv(t, actions, n);
    var (s, a) := (t[n], actions[n]);
    if ByHandler(a) && OnSlot(a) { SlotFrame(s, a, t[n + 1]); }
    forall i | i in Running(s) ensures i == a.id { assert s.lock == HeldBy(i); }
  }

  // ------------------------------------------------------------------- whole runs

  lemma TraceLength(t: seq<State>, actions: seq<Action>)
    requires Trace(t, actions)
    ensures |t| == |actions| + 1
  {
  }

  /** `t` goes on from its last state by `a`. */
  lemma GoOn(t: seq<State>, actions: seq<Action>, a: Action) returns (t': seq<State>, actions': seq<Action>)
    requires Trace(t, actions) && Step(t[|actions|], a).Some?
    ensures Trace(t', actions') && |t'| == |actions'| + 1 && t <= t' && t'[|actions'|] == Step(t[|actions|], a).value
    ensures actions' == actions + [a]
  {
    hide Step, Initial;
    t', actions' := t + [Step(t[|actions|], a).value], actions + [a];
  }

  function Joined(s: State, id: nat, kind: Kind, p: Phase): State {
    s.(handlers := s.handlers[id := Handler(kind, p, None)])
  }

  /** A new handler that finds a slot and a free lock gets the lock. */
  lemma Enters(t: seq<State>, actions: seq<Action>, id: nat, kind: Kind) returns (t': seq<State>, actions': seq<Action>)
    requires Trace(t, actions)
    requires var s := t[|actions|]; id !in s.handlers && s.permits > 0 && s.lock.Free? && (kind.Writer? ==> !s.shutdown)
    ensures Trace(t', actions') && |t'| == |actions'| + 1 && t <= t'
    ensures var s := t[|actions|];
      t'[|actions'|] == Joined(s, id, kind, Holding).(permits := s.permits - 1, gauge := s.gauge + 1, lock := HeldBy(id))
  {
    hide Trace, LockStep;
    TraceLength(t, actions);
    var s := t[|actions|];
    t', actions' := GoOn(t, actions, Arrive(id, kind));
    assert t'[|actions'|] == Joined(s, id, kind, Arrived);
    if kind.Writer? {
      t', actions' := GoOn(t', actions', Check(id));
      assert t'[|actions'|] == Joined(s, id, kind, Admitted);
    }
    t', actions' := GoOn(t', actions', TakePermit(id));
    assert t'[|actions'|] == Joined(s, id, kind, Permitted).(permits := s.permits - 1);
    t', actions' := GoOn(t', actions', RaiseGauge(id));
    assert t'[|actions'|] == Joined(s, id, kind, Queued).(permits := s.permits - 1, gauge := s.gauge + 1);
    t', actions' := Locks(t', actions', id);
  }

  lemma Locks(t: seq<State>, actions: seq<Action>, id: nat) returns (t': seq<State>, actions': seq<Action>)
    requires Trace(t, actions)
    requires var s := t[|actions|]; id in s.handlers && s.handlers[id].phase.Queued? && s.lock.Free?
    ensures Trace(t', actions') && |t'| == |actions'| + 1 && t <= t'
    ensures var s := t[|actions|]; t'[|actions'|] == To(s, id, Holding).(lock := HeldBy(id))
  {
    hide Trace, SlotStep;
    TraceLength(t, actions);
    t', actions' := GoOn(t, actions, Lock(id));
  }

  /** A handler done with its work gives back lock, gauge and permit. */
  lemma Leaves(t: seq<State>, actions: seq<Action>, id: nat) returns (t': seq<State>, actions': seq<Action>)
    requires Trace(t, actions)
    requires var s := t[|actions|]; id in s.handlers && s.handlers[id].phase.Leaving? && s.gauge > 0
    ensures Trace(t', actions') && |t'| == |actions'| + 1 && t <= t'
    ensures var s := t[|actions|];
      t'[|actions'|] == To(s, id, Ended).(permits := s.permits + 1, gauge := s.gauge - 1, lock := Free)
  {
    hide Trace;
    TraceLength(t, actions);
    var s := t[|actions|];
    t', actions' := Unlocks(t, actions, id);
    hide LockStep;
    t', actions' := GoOn(t', actions', LowerGauge(id));
    assert t'[|actions'|] == To(s, id, Lowered).(gauge := s.gauge - 1, lock := Free);
    t', actions' := GoOn(t', actions', ReturnPermit(id));
  }

  lemma Unlocks(t: seq<State>, actions: seq<Action>, id: nat) returns (t': seq<State>, actions': seq<Action>)
    requires Trace(t, actions)
    requires var s := t[|actions|]; id in s.handlers && s.handlers[id].phase.Leaving?
    ensures Trace(t', actions') && |t'| == |actions'| + 1 && t <= t'
    ensures var s := t[|actions|]; t'[|actions'|] == To(s, id, Unlocked).(lock := Free)
  {
    hide Trace, SlotStep;
    TraceLength(t, actions);
    t', actions' := GoOn(t, actions, Unlock(id));
  }

  /** A commit that finds a slot, a free lock and no shutdown can run to its end: it
      executes, its branch and HEAD are written, and everything it took is given back. */
  lemma WriterRuns(t: seq<State>, actions: seq<Action>, id: nat, branch: string, hash: Hash)
    returns (t': seq<State>, actions': seq<Action>, k: nat)
    requires Trace(t, actions)
    requires var s := t[|actions|]; id !in s.handlers && s.permits > 0 && s.lock.Free? && !s.shutdown
    ensures Trace(t', actions') && |t'| == |actions'| + 1 && t <= t' && k < |t'| && id in Running(t'[k])
    ensures var s := t[|actions|];
      t'[|actions'|] == Joined(s, id, Writer, Ended).(refs := RefsView(Some(OnBranch(branch)), s.refs.branches[branch := hash]))
  {
    hide Trace;
    TraceLength(t, actions);
    var s := t[|actions|];
    t', actions' := Enters(t, actions, id, Writer);
    t', actions', k := Executes(t', actions', id, branch, hash);
    var u := t';
    hide Step;
    t', actions' := Leaves(t', actions', id);
    assert t'[k] == u[k];
  }

  lemma Executes(t: seq<State>, actions: seq<Action>, id: nat, branch: string, hash: Hash)
    returns (t': seq<State>, actions': seq<Action>, k: nat)
    requires Trace(t, actions)
    requires var s := t[|actions|];
      id in s.handlers && s.handlers[id].phase.Holding? && s.handlers[id].kind.Writer? && !s.shutdown
    ensures Trace(t', actions') && |t'| == |actions'| + 1 && t <= t' && k < |t'| && id in Running(t'[k])
    ensures var s := t[|actions|];
      t'[|actions'|] == To(s, id, Leaving).(refs := RefsView(Some(OnBranch(branch)), s.refs.branches[branch := hash]))
  {
    hide Trace, SlotStep;
    TraceLength(t, actions);
    t', actions' := GoOn(t, actions, Recheck(id));
    k := |actions'|;
    assert id in Running(t'[k]);
    var u := t';
    t', actions' := GoOn(t', actions', WriteBranch(id, branch, hash));
    t', actions' := GoOn(t', actions', WriteHead(id, branch));
    t', actions' := GoOn(t', actions', Finish(id));
    assert t'[k] == u[k];
  }

  /** From the start, with room for one handler, a commit can run to its end. */
  lemma FirstCommitRuns(s: State, id: nat, branch: string, hash: Hash) returns (t: seq<State>, actions: seq<Action>, k: nat)
    requires Initial(s) && s.depth >= 1
    ensures Trace(t, actions) && t[0] == s && k < |t| && id in Running(t[k])
    ensures t[|actions|] ==
      Joined(s, id, Writer, Ended).(refs := RefsView(Some(OnBranch(branch)), s.refs.branches[branch := hash]))
  {
    t, actions, k := WriterRuns([s], [], id, branch, hash);
  }

  /** A diff that finds a slot and a free lock can run to its end, also after a
      shutdown, and takes the refs as they are along. */
  lemma ReaderRuns(t: seq<State>, actions: seq<Action>, id: nat) returns (t': seq<State>, actions': seq<Action>)
    requires Trace(t, actions)
    requires var s := t[|actions|]; id !in s.handlers && s.permits > 0 && s.lock.Free?
    ensures Trace(t', actions') && |t'| == |actions'| + 1 && t <= t'
    ensures var s := t[|actions|];
      t'[|actions'|] == s.(handlers := s.handlers[id := Handler(Reader, Ended, Some(s.refs))])
  {
    hide Trace;
    TraceLength(t, actions);
    var s := t[|actions|];
    t', actions' := Enters(t, actions, id, Reader);
    t', actions' := Lists(t', actions', id);
    t', actions' := Reads(t', actions', id);
    t', actions' := EndsRead(t', actions', id);
    hide Step;
    t', actions' := Leaves(t', actions', id);
  }

  lemma Lists(t: seq<State>, actions: seq<Action>, id: nat) returns (t': seq<State>, actions': seq<Action>)
    requires Trace(t, actions)
    requires var s := t[|actions|]; id in s.handlers && s.handlers[id].phase.Holding? && s.handlers[id].kind.Reader?
    ensures Trace(t', actions') && |t'| == |actions'| + 1 && t <= t'
    ensures var s := t[|actions|];
      t'[|actions'|] == To(s, id, ReadingBranches(s.refs.head, map[], s.refs.branches.Keys))
  {
    hide Trace, SlotStep;
    TraceLength(t, actions);
    t', actions' := GoOn(t, actions, ListBranches(id));
  }

  lemma {:induction false} Reads(t: seq<State>, actions: seq<Action>, id: nat) returns (t': seq<State>, actions': seq<Action>)
    requires Trace(t, actions)
    requires var s := t[|actions|]; id in s.handlers && s.handlers[id].phase.ReadingBranches?
    ensures Trace(t', actions') && |t'| == |actions'| + 1 && t <= t'
    ensures var s := t[|actions|];
      t'[|actions'|] == To(s, id, ReadingBranches(s.refs.head, s.refs.branches, {}))
    decreases |t[|actions|].handlers[id].phase.todo|
  {
    ReachableInv(t, actions, |actions|);
    hide Trace, SlotStep;
    TraceLength(t, actions);
    var s := t[|actions|];
    var p := s.handlers[id].phase;
    assert ReadsTrue(s.handlers[id], s.refs);
    if p.todo == {} {
      t', actions' := t, actions;
      assert p.got == s.refs.branches;
    } else {
      var b :| b in p.todo;
      t', actions' := GoOn(t, actions, ReadBranch(id, b));
      assert p.todo - {b} < p.todo;
      SmallerSet(p.todo, b);
      t', actions' := Reads(t', actions', id);
    }
  }

  lemma SmallerSet(s: set<string>, x: string)
    requires x in s
    ensures |s - {x}| < |s|
  {
  }

  lemma EndsRead(t: seq<State>, actions: seq<Action>, id: nat) returns (t': seq<State>, actions': seq<Action>)
    requires Trace(t, actions)
    requires var s := t[|actions|];
      id in s.handlers && s.handlers[id].phase.ReadingBranches? && s.handlers[id].phase.todo == {}
    ensures Trace(t', actions') && |t'| == |actions'| + 1 && t <= t'
    ensures var (s, h) := (t[|actions|], t[|actions|].handlers[id]);
      t'[|actions'|] == s.(handlers := s.handlers[id := Handler(h.kind, Leaving, Some(RefsView(h.phase.head, h.phase.got)))])
  {
    hide Trace, SlotStep;
    TraceLength(t, actions);
    t', actions' := GoOn(t, actions, EndRead(id));
  }

  /** A diff whose read fails gives everything back and delivers nothing. */
  lemma FailedReadLeaves(t: seq<State>, actions: seq<Action>, id: nat) returns (t': seq<State>, actions': seq<Action>)
    requires Trace(t, actions)
    requires var s := t[|actions|];
      id in s.handlers && s.handlers[id].kind.Reader? && (s.handlers[id].phase.Holding? || s.handlers[id].phase.ReadingBranches?)
    ensures Trace(t', actions') && |t'| == |actions'| + 1 && t <= t'
    ensures var s := t[|actions|];
      s.gauge > 0 && t'[|actions'|] == To(s, id, Ended).(permits := s.permits + 1, gauge := s.gauge - 1, lock := Free)
  {
    ReachableInv(t, actions, |actions|);
    assert id in Gauged(t[|actions|]);
    hide Trace, SlotStep;
    TraceLength(t, actions);
    t', actions' := GoOn(t, actions, FailRead(id));
    hide Step;
    t', actions' := Leaves(t', actions', id);
  }

  /** There is only one drain. */
  lemma DrainOnce(t: seq<State>, actions: seq<Action>, k: nat, n: nat)
    requires Trace(t, actions) && k <= n < |t| && !t[k].drain.NotDrained?
    ensures Step(t[n], DrainLock).None?
  {
    hide Trace;
    DrainLasts(t, actions, k, n);
  }

  /** Shutdown can be signalled at any time; from then on a free lock goes to the drain,
      once, and comes back. */
  lemma DrainRuns(t: seq<State>, actions: seq<Action>) returns (t': seq<State>, actions': seq<Action>)
    requires Trace(t, actions)
    requires t[|actions|].drain.NotDrained? && t[|actions|].lock.Free?
    ensures Trace(t', actions') && |t'| == |actions'| + 1 && t <= t'
    ensures t'[|actions'|] == t[|actions|].(shutdown := true, drain := Drained)
    ensures t'[|actions'| - 1].lock.HeldByDrain?
  {
    hide Trace, HandlerStep;
    TraceLength(t, actions);
    t', actions' := GoOn(t, actions, Signal);
    t', actions' := GoOn(t', actions', DrainLock);
    var u := t';
    t', actions' := GoOn(t', actions', DrainUnlock);
    assert t'[|actions'| - 1] == u[|u| - 1];
  }
}
