/** The collector and the program it serves, interleaved in any order, and what no run can do. */
module GcRun {
  import opened LuaHeap
  import opened GcMark
  import opened GcTraverse
  import opened GcPhases
  import opened GcAtomicInv
  import opened GcInvariant
  import opened GcSweep
  import opened GcMutator
  import opened GcMutatorInv

  /** One step.  The first group are the steps of the collector, the second those of the program. */
  datatype Action =
    | StartCycle
    | PropagateOne
    | AtomicStep(uvs: seq<Id>, sep: seq<Id>)
    | SweepObject(x: Id, requeue: bool)
    | EndSweepString
    | EndSweep
    | CallFinalizer
    | EndCycle
    | ForceSweep
    | Allocate(id: Id, contents: Obj, ahead: bool)
    | Reuse(x: Id)
    | StoreThread(th: Id, globals: Value, stack: seq<Value>)
    | StoreObject(o: Id, contents: Obj, v: Value)
    | StoreTable(t: Id, contents: Obj, v: Value)
    | StoreUpval(u: Id, v: Value)
    | Close(u: Id, ahead: bool)
    | SetMetatable(i: nat, v: Value)
    | SwitchThread(th: Id)

  /** When a step can happen.  The program works with live objects only: by `AccessibleAlive` this allows
      everything it can reach, and also what it has just made and not yet stored anywhere. */
  ghost predicate Enabled(s: GState, a: Action)
  {
    match a
    case StartCycle =>
      (s.phase == Pause || s.phase == Finalize) && s.mainthread in s.obj && s.obj[s.mainthread].Thread?
    case PropagateOne =>
      s.phase == Propagate && s.gray != [] && s.gray[0] in s.obj && Listed(s.obj[s.gray[0]])
    case AtomicStep(uvs, sep) => AtomicReady(s, uvs, sep)
    case SweepObject(x, _) => SweepReady(s, x) && x in s.obj && s.color.Keys == s.obj.Keys
    case EndSweepString => s.phase == SweepString && forall x :: x in s.unswept ==> x in s.obj && !s.obj[x].Str?
    case EndSweep => s.phase == Sweep && s.unswept == {}
    case CallFinalizer => s.phase == Finalize && s.tmudata != []
    case EndCycle => s.phase == Finalize && s.tmudata == []
    case ForceSweep => s.phase == Pause || s.phase == Propagate
    case Allocate(id, o, ahead) => CanNew(s, id, o, ahead)
    case Reuse(x) => CanResurrect(s, x)
    case StoreThread(th, g, st) => CanWriteThread(s, th, g, st)
    case StoreObject(o, o', v) => CanWriteObject(s, o, o', v)
    case StoreTable(t, t', v) => CanWriteTable(s, t, t', v)
    case StoreUpval(u, v) =>
      CanWriteUpval(s, u, v) && s.obj[u].thread in s.obj && s.obj[s.obj[u].thread].Thread? &&
      s.obj[u].slot < |s.obj[s.obj[u].thread].stack|
    case Close(u, ahead) => CanCloseUpval(s, u, ahead) && u in s.color
    case SetMetatable(i, v) => i < |s.mt| && AliveValue(s, v)
    case SwitchThread(th) => Alive(s, th) && s.obj[th].Thread?
  }

  ghost function Apply(s: GState, a: Action): GState
    requires Enabled(s, a)
  {
    match a
    case StartCycle => MarkRoot(s)
    case PropagateOne => PropagateMark(s)
    case AtomicStep(uvs, sep) => Atomic(s, uvs, sep)
    case SweepObject(x, requeue) => SweepOne(s, x, requeue)
    case EndSweepString => s.(phase := Sweep)
    case EndSweep => s.(phase := Finalize)
    case CallFinalizer => TakeFinalizable(s)
    case EndCycle => s.(phase := Pause)
    case ForceSweep => Restart(s)
    case Allocate(id, o, ahead) => NewObject(s, id, o, ahead)
    case Reuse(x) => Resurrect(s, x)
    case StoreThread(th, g, st) => WriteThread(s, th, g, st)
    case StoreObject(o, o', v) => WriteObject(s, o, o', v)
    case StoreTable(t, t', v) => WriteTable(s, t, t', v)
    case StoreUpval(u, v) => WriteUpval(s, u, v)
    case Close(u, ahead) => CloseUpval(s, u, ahead)
    case SetMetatable(i, v) => s.(mt := s.mt[i := v])
    case SwitchThread(th) => s.(running := th)
  }

  // ----- every step keeps the invariant and frees nothing alive -----

  lemma ProgramStepKeepsInv(s: GState, a: Action)
    requires Inv(s) && Enabled(s, a)
    requires a.Allocate? || a.Reuse? || a.StoreThread? || a.StoreObject? || a.StoreTable? || a.StoreUpval? || a.Close?
    ensures Inv(Apply(s, a))
  {
    hide Inv;
    match a
    case Allocate(id, o, ahead) => NewKeepsInv(s, id, o, ahead);
    case Reuse(x) => ResurrectKeepsInv(s, x);
    case StoreThread(th, g, st) => WriteThreadKeepsInv(s, th, g, st);
    case StoreObject(o, o', v) => WriteObjectKeepsInv(s, o, o', v);
    case StoreTable(t, t', v) => WriteTableKeepsInv(s, t, t', v);
    case StoreUpval(u, v) => WriteUpvalKeepsInv(s, u, v);
    case Close(u, ahead) => CloseUpvalKeepsInv(s, u, ahead);
  }

  lemma RootsSound(s: GState, r: GState)
    requires Sound(s) && r == s.(mt := r.mt, running := r.running) && Alive(s, r.running)
    requires forall v :: v in r.mt ==> v in s.mt || AliveValue(s, v)
    ensures Sound(r)
  {
    assert forall x :: Alive(r, x) <==> Alive(s, x);
    forall x | IsRoot(r, x) ensures Alive(r, x) {
      if !IsRoot(s, x) && x != r.running { assert AliveValue(s, Ref(x)); }
    }
  }

  lemma RootsRest(s: GState, r: GState)
    requires Shape(s) && ColorInv(s) && (s.phase == Propagate ==> MarkPhase(s))
    requires r == s.(mt := r.mt, running := r.running) && r.running in r.obj && r.obj[r.running].Thread?
    ensures Shape(r) && ColorInv(r) && (r.phase == Propagate ==> MarkPhase(r))
  {
    if s.phase in {SweepString, Sweep} {
      forall y | y in r.obj && y !in r.tmudata && Swept(r, y) ensures Swept(s, y) {}
    }
  }

  lemma RootStepKeepsInv(s: GState, a: Action)
    requires Inv(s) && Enabled(s, a) && (a.SetMetatable? || a.SwitchThread?)
    ensures Inv(Apply(s, a))
  {
    hide Shape, Sound, ColorInv, MarkPhase, MarkRoot, PropagateMark, AtomicReady, Atomic, SweepOne, CanNew,
         CanResurrect, CanWriteThread, CanWriteObject, CanWriteTable, CanWriteUpval, CanCloseUpval, WriteObject,
         WriteTable, CloseUpval;
    RunningAlive(s);
    var r := Apply(s, a);
    RootsSound(s, r);
    RootsRest(s, r);
  }

  lemma RunningAlive(s: GState)
    requires Shape(s) && Sound(s)
    ensures Alive(s, s.running) && s.obj[s.running].Thread?
  {
    assert IsRoot(s, s.running);
  }

  lemma CollectorStepKeepsInv(s: GState, a: Action)
    requires Inv(s) && Enabled(s, a)
    requires a.StartCycle? || a.PropagateOne? || a.AtomicStep? || a.SweepObject? || a.EndSweepString? ||
             a.EndSweep? || a.CallFinalizer? || a.EndCycle? || a.ForceSweep?
    ensures Inv(Apply(s, a))
  {
    hide Inv;
    match a
    case StartCycle => MarkRootKeepsInv(s);
    case PropagateOne => PropagateKeepsInv(s);
    case AtomicStep(uvs, sep) => AtomicKeepsInv(s, uvs, sep);
    case SweepObject(x, requeue) => SweepKeepsInv(s, x, requeue);
    case EndSweepString => EndSweepStringKeepsInv(s);
    case EndSweep => EndSweepKeepsInv(s);
    case CallFinalizer => TakeFinalizableKeepsInv(s);
    case EndCycle => EndCycleKeepsInv(s);
    case ForceSweep => RestartKeepsInv(s);
  }

  lemma StepKeepsInv(s: GState, a: Action)
    requires Inv(s) && Enabled(s, a)
    ensures Inv(Apply(s, a))
  {
    hide Inv, Enabled, Apply;
    match a
    case SetMetatable(_, _) => RootStepKeepsInv(s, a);
    case SwitchThread(_) => RootStepKeepsInv(s, a);
    case Allocate(_, _, _) => ProgramStepKeepsInv(s, a);
    case Reuse(_) => ProgramStepKeepsInv(s, a);
    case StoreThread(_, _, _) => ProgramStepKeepsInv(s, a);
    case StoreObject(_, _, _) => ProgramStepKeepsInv(s, a);
    case StoreTable(_, _, _) => ProgramStepKeepsInv(s, a);
    case StoreUpval(_, _) => ProgramStepKeepsInv(s, a);
    case Close(_, _) => ProgramStepKeepsInv(s, a);
    case _ => CollectorStepKeepsInv(s, a);
  }

  lemma QuietStepKeys(s: GState, a: Action)
    requires Enabled(s, a) && !a.AtomicStep? && !a.SweepObject? && !a.Close?
    ensures s.obj.Keys <= Apply(s, a).obj.Keys
  {
    hide MarkValues, MarkObject, CanNew, CanResurrect, CanWriteObject, CanWriteTable, CanWriteUpval, CanWriteThread;
  }

  lemma CloseFreesDead(s: GState, u: Id, ahead: bool, x: Id)
    requires u in s.obj && s.obj[u].OpenUpval? && u in s.color && Alive(s, x)
    ensures x in CloseUpval(s, u, ahead).obj
  {
    hide MarkObject;
  }

  /** No step frees a live object. */
  lemma StepKeepsAlive(s: GState, a: Action, x: Id)
    requires Inv(s) && Enabled(s, a) && Alive(s, x)
    ensures x in Apply(s, a).obj
  {
    hide Shape, Sound, ColorInv, MarkPhase, AtomicReady, Atomic, SweepOne, CloseUpval;
    match a
    case AtomicStep(uvs, sep) => AtomicKeepsKeys(s, uvs, sep);
    case SweepObject(y, requeue) => SweepFreesDead(s, y, requeue, x);
    case Close(u, ahead) => CloseFreesDead(s, u, ahead, x);
    case _ =>
      QuietStepKeys(s, a);
      hide Enabled, Apply;
  }

  lemma AtomicKeepsKeys(s: GState, uvs: seq<Id>, sep: seq<Id>)
    requires Inv(s) && AtomicReady(s, uvs, sep)
    ensures Atomic(s, uvs, sep).obj.Keys == s.obj.Keys
  {
    hide MarkInv, Sound, ColorInv, Points;
    MarkingRelates(s, uvs, sep);
  }

  // ----- runs -----

  /** A run: states linked by enabled steps. */
  ghost predicate IsRun(states: seq<GState>, actions: seq<Action>)
  {
    |states| == |actions| + 1 &&
    forall i :: 0 <= i < |actions| ==> Enabled(states[i], actions[i]) && states[i + 1] == Apply(states[i], actions[i])
  }

  /** A newly opened Lua state: paused, everything white, and all references in place. */
  ghost predicate Initial(s: GState)
  {
    s.phase == Pause && s.unswept == {} && s.tmudata == [] && Shape(s) &&
    (forall x :: x in s.obj ==> s.color[x] == White(s.cur)) &&
    (forall x :: IsRoot(s, x) ==> x in s.obj) &&
    (forall x, c :: x in s.obj && Points(s.obj, s.obj[x], c) ==> c in s.obj)
  }

  lemma InitialInv(s: GState)
    requires Initial(s)
    ensures Inv(s)
  {
  }

  lemma {:induction false} RunInv(states: seq<GState>, actions: seq<Action>, k: nat)
    requires IsRun(states, actions) && Inv(states[0]) && k < |states|
    ensures Inv(states[k])
    decreases k
  {
    hide Inv, Enabled, Apply;
    if k > 0 {
      RunInv(states, actions, k - 1);
      StepKeepsInv(states[k - 1], actions[k - 1]);
    }
  }

  /** Safety.  However collector steps and program steps are interleaved, what the program can reach is
      never freed. */
  lemma NothingAccessibleIsFreed(states: seq<GState>, actions: seq<Action>, k: nat, x: Id)
    requires IsRun(states, actions) && Initial(states[0]) && k < |actions| && Accessible(states[k], x)
    ensures x in states[k].obj && x in states[k + 1].obj
  {
    InitialInv(states[0]);
    RunInv(states, actions, k);
    AccessibleAlive(states[k], x);
    hide Inv, Enabled, Apply;
    StepKeepsAlive(states[k], actions[k], x);
  }

  // ----- runs as sequences of actions -----

  /** `acts`, taken one after another in `s`, end in `r`. */
  ghost predicate Runs(s: GState, acts: seq<Action>, r: GState)
    decreases |acts|
  {
    if acts == [] then r == s
    else Enabled(s, acts[0]) && Runs(Apply(s, acts[0]), acts[1..], r)
  }

  lemma {:induction false} RunsExtend(s: GState, acts: seq<Action>, q: GState, a: Action, r: GState)
    requires Runs(s, acts, q) && Enabled(q, a) && r == Apply(q, a)
    ensures Runs(s, acts + [a], r)
    decreases |acts|
  {
    hide Enabled, Apply;
    if acts == [] {
      assert acts + [a] == [a] && [a][1..] == [];
    } else {
      assert (acts + [a])[1..] == acts[1..] + [a];
      RunsExtend(Apply(s, acts[0]), acts[1..], q, a, r);
    }
  }

  // ----- what the collector's own assertions rely on -----

  /** While marking, threads and open upvalues are never black, and a black object never refers to a white one, unless
      it is a userdata that waits for its finalizer: such a userdata is black since the last cycle, and is marked anew
      by the next atomic phase. */
  lemma MarkingInvariant(states: seq<GState>, actions: seq<Action>, k: nat, x: Id)
    requires IsRun(states, actions) && Initial(states[0]) && k < |states|
    requires var s := states[k]; s.phase == Propagate && x in s.obj && x in s.color && s.color[x] == Black
    ensures var s := states[k];
            !s.obj[x].Thread? && !s.obj[x].OpenUpval? && (x in s.tmudata ==> s.obj[x].Udata?) &&
            (x in s.tmudata ||
             forall c :: Points(s.obj, s.obj[x], c) ==> c in s.obj && c in s.color && !s.color[c].White?)
  {
    hide Inv, Enabled, Apply, Initial;
    InitialInv(states[0]);
    RunInv(states, actions, k);
    if x in states[k].tmudata { WaitingIsUdata(states[k], x); } else { BlackIsDone(states[k], x); }
  }

  lemma WaitingIsUdata(s: GState, x: Id)
    requires Inv(s) && x in s.tmudata
    ensures x in s.obj && s.obj[x].Udata?
  {
    hide Sound, ColorInv, MarkPhase;
  }

  lemma BlackIsDone(s: GState, x: Id)
    requires Inv(s) && s.phase == Propagate && x in s.obj && x in s.color && s.color[x] == Black && x !in s.tmudata
    ensures !s.obj[x].Thread? && !s.obj[x].OpenUpval?
    ensures forall c :: Points(s.obj, s.obj[x], c) ==> c in s.obj && c in s.color && !s.color[c].White?
  {
    TricolorBlack(s, x);
    forall c | Points(s.obj, s.obj[x], c) ensures c in s.obj && !s.color[c].White? {
      assert Alive(s, x) && Alive(s, c);
      if s.obj[x].Table? { TableRefMarked(MarksOf(s), s.obj, s.obj[x], c); }
    }
  }

  /** Nothing leaves the list of weak tables while marking goes on. */
  lemma StepKeepsWeak(s: GState, a: Action, x: Id)
    requires Enabled(s, a) && s.phase == Propagate && Apply(s, a).phase == Propagate && x in s.weak
    ensures x in Apply(s, a).weak
  {
    hide MarkValues, MarkObject, CanNew, CanResurrect, CanWriteObject, CanWriteTable, CanWriteUpval, CanWriteThread;
  }

  lemma {:induction false} WeakStaysListed(states: seq<GState>, actions: seq<Action>, j: nat, k: nat, x: Id)
    requires IsRun(states, actions) && j <= k < |states| && x in states[j].weak
    requires forall i :: j <= i <= k ==> states[i].phase == Propagate
    ensures x in states[k].weak
    decreases k
  {
    hide Enabled, Apply;
    if j < k {
      WeakStaysListed(states, actions, j, k - 1, x);
      assert states[k].phase == Propagate && states[k] == Apply(states[k - 1], actions[k - 1]);
      StepKeepsWeak(states[k - 1], actions[k - 1], x);
    }
  }

  /** A table that is weak when it is traversed is gray from then on, in the list of weak tables, in every
      state of the run until marking ends. */
  lemma WeakStaysGray(states: seq<GState>, actions: seq<Action>, j: nat, k: nat, x: Id)
    requires IsRun(states, actions) && Initial(states[0]) && j < k < |states|
    requires forall i :: j <= i <= k ==> states[i].phase == Propagate
    requires actions[j] == PropagateOne && states[j].gray != [] && x == states[j].gray[0]
    requires x in states[j].obj && states[j].obj[x].Table? && (IsWeak(states[j], x, 'k') || IsWeak(states[j], x, 'v'))
    ensures var s := states[k]; x in s.weak && x in s.obj && s.obj[x].Table? && x in s.color && s.color[x] == Gray
  {
    hide Inv, Enabled, Apply, Initial;
    WeakIsListed(states[j]);
    WeakStaysListed(states, actions, j + 1, k, x);
    InitialInv(states[0]);
    RunInv(states, actions, k);
    ListedIsGray(states[k], x);
  }

  lemma WeakIsListed(s: GState)
    requires Enabled(s, PropagateOne) && s.obj[s.gray[0]].Table? &&
             (IsWeak(s, s.gray[0], 'k') || IsWeak(s, s.gray[0], 'v'))
    ensures s.gray[0] in Apply(s, PropagateOne).weak
  {
    hide MarkValues;
  }

  lemma ListedIsGray(s: GState, x: Id)
    requires Inv(s) && s.phase == Propagate && x in s.weak
    ensures x in s.obj && s.obj[x].Table? && x in s.color && s.color[x] == Gray
  {
  }

  /** When the sweep is over, every object carries the current white, except userdata that wait for their
      finalizer. */
  lemma AllWhiteAfterSweep(states: seq<GState>, actions: seq<Action>, k: nat, x: Id)
    requires IsRun(states, actions) && Initial(states[0]) && k < |states|
    requires states[k].phase in {Finalize, Pause} && x in states[k].obj && x !in states[k].tmudata
    ensures x in states[k].color && states[k].color[x] == White(states[k].cur)
  {
    hide Inv, Enabled, Apply, Initial;
    InitialInv(states[0]);
    RunInv(states, actions, k);
    SweptIsWhite(states[k], x);
  }

  lemma SweptIsWhite(s: GState, x: Id)
    requires Inv(s) && s.phase in {Finalize, Pause} && x in s.obj && x !in s.tmudata
    ensures x in s.color && s.color[x] == White(s.cur)
  {
    hide Sound, MarkPhase;
  }

  lemma StepKeepsPause(s: GState, a: Action)
    requires Enabled(s, a) && (s.phase == Pause ==> s.tmudata == [])
    ensures Apply(s, a).phase == Pause ==> Apply(s, a).tmudata == []
  {
    hide MarkValues, MarkObject, CanNew, CanResurrect, CanWriteObject, CanWriteTable, CanWriteUpval, CanWriteThread,
         AtomicReady, AllMarkedState;
  }

  /** Between cycles no userdata waits for its finalizer. */
  lemma {:induction false} NoneWaitInPause(states: seq<GState>, actions: seq<Action>, k: nat)
    requires IsRun(states, actions) && Initial(states[0]) && k < |states|
    ensures states[k].phase == Pause ==> states[k].tmudata == []
    decreases k
  {
    hide Enabled, Apply;
    if k > 0 {
      NoneWaitInPause(states, actions, k - 1);
      StepKeepsPause(states[k - 1], actions[k - 1]);
    }
  }

  /** When a write needs a barrier and the value is one the program can reach, neither object is dead; and the phase is
      one of marking or sweeping, as `luaC_barrierf` and `luaC_barrierback` assert, if and only if the write does not go
      to a userdata that waits for its finalizer at the end of a cycle. */
  lemma BarrierAssertions(states: seq<GState>, actions: seq<Action>, k: nat, o: Id, v: Value)
    requires IsRun(states, actions) && Initial(states[0]) && k < |states|
    requires NeedsBarrier(states[k], o, v) && Accessible(states[k], v.id)
    ensures !IsDead(states[k], o) && !IsDead(states[k], v.id)
    ensures states[k].phase !in {Pause, Finalize} <==> !(states[k].phase == Finalize && o in states[k].tmudata)
  {
    hide Inv, Enabled, Apply, Initial;
    InitialInv(states[0]);
    RunInv(states, actions, k);
    NoneWaitInPause(states, actions, k);
    ReachedAlive(states[k], v.id);
    if o !in states[k].tmudata { BarrierFires(states[k], o, v); }
  }

  lemma ReachedAlive(s: GState, x: Id)
    requires Inv(s) && Accessible(s, x)
    ensures Alive(s, x)
  {
    AccessibleAlive(s, x);
  }

  lemma BarrierFires(s: GState, o: Id, v: Value)
    requires Inv(s) && NeedsBarrier(s, o, v) && o !in s.tmudata
    ensures s.phase !in {Pause, Finalize}
  {
    hide Sound, MarkPhase;
  }

  // ----- a run as its states -----

  lemma {:induction false} StatesOf(s: GState, acts: seq<Action>, r: GState) returns (states: seq<GState>)
    requires Runs(s, acts, r)
    ensures IsRun(states, acts) && states[0] == s && states[|acts|] == r
    decreases |acts|
  {
    hide Enabled, Apply;
    if acts == [] {
      states := [s];
    } else {
      var rest := StatesOf(Apply(s, acts[0]), acts[1..], r);
      states := [s] + rest;
      forall i | 0 <= i < |acts| ensures Enabled(states[i], acts[i]) && states[i + 1] == Apply(states[i], acts[i]) {
        if i > 0 { assert rest[i - 1] == states[i] && acts[1..][i - 1] == acts[i]; }
      }
    }
  }

  // ----- new objects and upvalues -----

  /** A new object, and a dead one that is found again, is alive, and has the contents that it should. */
  lemma FreshIsAlive(s: GState, a: Action)
    requires Enabled(s, a)
    ensures a.Allocate? ==> Alive(Apply(s, a), a.id) && Apply(s, a).obj[a.id] == a.contents
    ensures a.Reuse? ==> Alive(Apply(s, a), a.x) && Apply(s, a).obj[a.x] == s.obj[a.x]
  {
  }

  predicate IsUpval(s: GState, u: Id)
  {
    u in s.obj && (s.obj[u].OpenUpval? || s.obj[u].ClosedUpval?)
  }

  ghost predicate SameUpval(s: GState, r: GState, u: Id)
    requires IsUpval(s, u)
  {
    IsUpval(r, u) && UpvalValue(r.obj, r.obj[u]) == UpvalValue(s.obj, s.obj[u])
  }

  lemma SameObjects(s: GState, r: GState, u: Id)
    requires Shape(s) && IsUpval(s, u) && u in r.obj && r.obj[u] == s.obj[u]
    requires s.obj[u].OpenUpval? ==> s.obj[u].thread in r.obj && r.obj[s.obj[u].thread] == s.obj[s.obj[u].thread]
    ensures SameUpval(s, r, u)
  {
  }

  lemma SweepKeepsUpval(s: GState, x: Id, requeue: bool, u: Id)
    requires Shape(s) && x in s.unswept && IsUpval(s, u) && u in SweepOne(s, x, requeue).obj
    ensures SameUpval(s, SweepOne(s, x, requeue), u)
  {
  }

  lemma CloseObjects(s: GState, v: Id, ahead: bool)
    requires v in s.obj && s.obj[v].OpenUpval? && v in s.color
    ensures CloseUpval(s, v, ahead).obj ==
            if IsDead(s, v) then s.obj - {v} else s.obj[v := ClosedUpval(UpvalValue(s.obj, s.obj[v]))]
  {
    hide MarkObject;
  }

  lemma CloseKeepsUpval(s: GState, v: Id, ahead: bool, u: Id)
    requires Shape(s) && v in s.obj && s.obj[v].OpenUpval? && IsUpval(s, u) && u in CloseUpval(s, v, ahead).obj
    ensures SameUpval(s, CloseUpval(s, v, ahead), u)
  {
    hide CloseUpval;
    CloseObjects(s, v, ahead);
  }

  lemma PropagateKeepsUpval(s: GState, u: Id)
    requires Shape(s) && s.gray != [] && s.gray[0] in s.obj && Listed(s.obj[s.gray[0]]) && IsUpval(s, u)
    ensures SameUpval(s, PropagateMark(s), u)
  {
    hide MarkValues, GrayRefs;
  }

  lemma QuietObjects(s: GState, a: Action, x: Id)
    requires Enabled(s, a) && x in s.obj && !s.obj[x].Table?
    requires !a.StoreThread? && !a.StoreUpval? && !a.StoreObject? && !a.AtomicStep? && !a.SweepObject? && !a.Close? &&
             !a.PropagateOne?
    ensures x in Apply(s, a).obj && Apply(s, a).obj[x] == s.obj[x]
  {
    hide MarkValues, MarkObject, CanNew, CanResurrect, CanWriteTable;
    hide CanWriteObject, CanWriteUpval, CanWriteThread, AtomicReady;
    if a.StoreTable? { StoreTableKind(s, a.t, a.contents, a.v); }
    if a.Allocate? { AllocateNew(s, a.id, a.contents, a.ahead); }
  }

  lemma StoreTableKind(s: GState, t: Id, o: Obj, v: Value)
    requires CanWriteTable(s, t, o, v)
    ensures t in s.obj && s.obj[t].Table?
  {
  }

  lemma AllocateNew(s: GState, id: Id, o: Obj, ahead: bool)
    requires CanNew(s, id, o, ahead)
    ensures id !in s.obj
  {
  }

  /** Only a write changes what an upvalue stands for: closing it does not, nor does any step of the collector. */
  lemma StepKeepsUpval(s: GState, a: Action, u: Id)
    requires Inv(s) && Enabled(s, a) && !a.StoreThread? && !a.StoreUpval? && !a.StoreObject?
    requires IsUpval(s, u) && u in Apply(s, a).obj
    ensures SameUpval(s, Apply(s, a), u)
  {
    hide Sound, ColorInv, MarkInv, MarkPhase, AtomicReady, Atomic, SameUpval, SweepOne, CloseUpval, PropagateMark,
         NewObject, WriteTable, Restart, MarkRoot, TakeFinalizable, Resurrect;
    if a.AtomicStep? {
      AtomicKeepsUpval(s, a.uvs, a.sep, u);
    } else if a.SweepObject? {
      SweepKeepsUpval(s, a.x, a.requeue, u);
    } else if a.Close? {
      CloseKeepsUpval(s, a.u, a.ahead, u);
    } else if a.PropagateOne? {
      PropagateKeepsUpval(s, u);
    } else {
      QuietObjects(s, a, u);
      if s.obj[u].OpenUpval? { QuietObjects(s, a, s.obj[u].thread); }
      SameObjects(s, Apply(s, a), u);
    }
  }

  lemma AtomicKeepsUpval(s: GState, uvs: seq<Id>, sep: seq<Id>, u: Id)
    requires Inv(s) && AtomicReady(s, uvs, sep) && IsUpval(s, u)
    ensures SameUpval(s, Atomic(s, uvs, sep), u)
  {
    hide Sound, ColorInv, MarkPhase, AtomicReady, Atomic, SameUpval;
    AtomicOthers(s, uvs, sep, u);
    if s.obj[u].OpenUpval? { AtomicOthers(s, uvs, sep, s.obj[u].thread); }
    SameObjects(s, Atomic(s, uvs, sep), u);
  }
}
