/** Finalizers over whole runs: userdata get their turn in the order in which they were found, no one twice, and no one
    is freed before its turn. */
module GcFinal {
  import opened Seqs
  import opened LuaHeap
  import opened GcMark
  import opened GcTraverse
  import opened GcAtomic
  import opened GcClear
  import opened GcPhases
  import opened GcInvariant
  import opened GcAtomicInv
  import opened GcSweep
  import opened GcMutator
  import opened GcRun

  /** A userdata whose metatable has a `__gc` entry. */
  ghost predicate HasFinalizer(s: GState, u: Id)
  {
    u in s.obj && s.obj[u].Udata? && HasGcMethod(s.obj, s.gcKey, s.obj[u].metatable)
  }

  // ----- the atomic step -----

  lemma SeparatedEnd(s: GState, s7: GState, sep: seq<Id>, q: GState)
    requires Advanced(s, s7) && Progress(TmuMarked(Separate(s7, sep)), q)
    ensures q.tmudata == s.tmudata + sep && q.obj.Keys == s.obj.Keys == s7.obj.Keys
    ensures q.finalized == s.finalized + set u | u in s7.obj && Candidate(s7, u)
  {
    hide Candidate, MarkTmu;
  }

  lemma Separated(s: GState, uvs: seq<Id>, sep: seq<Id>)
    requires Inv(s) && AtomicReady(s, uvs, sep)
    ensures var s7, r := RootsMarked(s, uvs), Atomic(s, uvs, sep);
            Advanced(s, s7) && r.tmudata == s.tmudata + sep && r.obj.Keys == s.obj.Keys == s7.obj.Keys &&
            r.finalized == s.finalized + (set u | u in s7.obj && Candidate(s7, u))
  {
    hide RootsMarked, AllMarkedState, MarkingDone, Grown, Progress, Marked, Candidate, Advanced, Sound, ColorInv,
         MarkInv, StringKept, ClearTable;
    MarkingEnds(s, uvs, sep);
    RootsMarkedAdvanced(s, uvs);
    SeparatedEnd(s, RootsMarked(s, uvs), sep, AllMarkedState(s, uvs, sep));
  }

  lemma FinalizerStays(h: Graph, h': Graph, key: Id, mt: Value)
    requires Compacted(h, h') && HasGcMethod(h, key, mt)
    ensures HasGcMethod(h', key, mt)
  {
    var n :| n in h[mt.id].nodes && HasEntry(n, key);
    var i :| 0 <= i < |h[mt.id].nodes| && h[mt.id].nodes[i] == n;
    assert h'[mt.id].nodes[i] == n;
  }

  // ----- who is found -----

  lemma RootFound(s: GState, s7: GState, x: Id)
    requires MarkPhase(s) && Advanced(s, s7) && Marked(MarksOf(s7), Ref(s.running)) && AllMarked(MarksOf(s7), s.mt)
    requires IsRoot(s, x) && x !in s.tmudata
    ensures Marked(MarksOf(s7), Ref(x))
  {
    hide Tricolor, HeldKeys, Compacted;
    if Ref(x) in s.mt { assert Marked(MarksOf(s7), Ref(x)); }
  }

  lemma StepFound(s: GState, s7: GState, x: Id, y: Id)
    requires Advanced(s, s7) && Stage(s7, Elems(s.tmudata)) && s7.gray == [] && Marked(MarksOf(s7), Ref(x))
    requires x in s.obj && x !in s.tmudata && StrongPoints(s.obj, s.modeKey, s.obj[x], y)
    ensures Marked(MarksOf(s7), Ref(y))
  {
    CompactedEdges(s.obj, s7.obj, s.modeKey, x, y);
    assert Settled(s7, x);
  }

  lemma {:induction false} PathFound(s: GState, s7: GState, p: seq<Id>, k: nat)
    requires MarkPhase(s) && Advanced(s, s7) && Marked(MarksOf(s7), Ref(s.running)) && AllMarked(MarksOf(s7), s.mt)
    requires Stage(s7, Elems(s.tmudata)) && s7.gray == []
    requires StrongRootPath(s, p) && k < |p| && forall i :: 0 <= i < |p| ==> p[i] !in s.tmudata
    ensures Marked(MarksOf(s7), Ref(p[k]))
    decreases k
  {
    hide MarkPhase, Stage, Advanced, Marked, AllMarked, StrongPoints, IsRoot;
    if k == 0 {
      RootFound(s, s7, p[0]);
    } else {
      PathFound(s, s7, p, k - 1);
      StepFound(s, s7, p[k - 1], p[k]);
    }
  }

  /** No finalizer is due for a userdata to which a strong path leads that does not pass one that waits already. */
  lemma ReachedIsNotFound(s: GState, uvs: seq<Id>, sep: seq<Id>, p: seq<Id>)
    requires Inv(s) && AtomicReady(s, uvs, sep)
    requires StrongRootPath(s, p) && forall i :: 0 <= i < |p| ==> p[i] !in s.tmudata
    ensures p[|p| - 1] !in sep
  {
    hide RootsMarked, Shape, Sound, ColorInv, StrongPoints, Tricolor, Stage, LateOk, Advanced, AllMarked;
    var s7 := RootsMarked(s, uvs);
    RootsMarkedDone(s, uvs);
    PathFound(s, s7, p, |p| - 1);
    var u := p[|p| - 1];
    assert u in sep <==> NeedsFinalizer(s7, u);
  }

  // ----- what every step keeps -----

  /** Waiting userdata have been looked at, and so have the dead ones. */
  ghost predicate LookedAt(s: GState)
  {
    (forall u :: u in s.tmudata ==> u in s.finalized) &&
    forall u :: u in s.obj && s.obj[u].Udata? && IsDead(s, u) ==> u in s.finalized
  }

  /** The list of waiting userdata after a step. */
  function Queue(waiting: seq<Id>, a: Action): seq<Id>
  {
    if a.AtomicStep? then waiting + a.sep
    else if a.CallFinalizer? && waiting != [] then waiting[1..]
    else waiting
  }

  /** Nothing is dead but in a sweep. */
  lemma DeadInSweep(s: GState, u: Id)
    requires Inv(s) && u in s.obj && IsDead(s, u)
    ensures s.phase in {SweepString, Sweep}
  {
    hide MarkPhase, Points;
    assert u in s.tmudata ==> IsRoot(s, u);
  }

  /** In a sweep nothing dies: a dead userdata was one before the step. */
  ghost predicate WasDead(s: GState, r: GState, u: Id)
  {
    u in r.obj && r.obj[u].Udata? && IsDead(r, u) ==> u in s.obj && s.obj[u].Udata? && IsDead(s, u)
  }

  lemma SweepKillsNone(s: GState, x: Id, requeue: bool, u: Id)
    requires x in s.obj && s.color.Keys == s.obj.Keys
    ensures WasDead(s, SweepOne(s, x, requeue), u)
  {
  }

  lemma CloseKillsNone(s: GState, v: Id, ahead: bool, u: Id)
    requires s.phase in {SweepString, Sweep} && v in s.obj && s.obj[v].OpenUpval? && v in s.color
    ensures WasDead(s, CloseUpval(s, v, ahead), u)
  {
    hide MarkObject;
  }

  lemma WriteKillsNone(s: GState, o: Id, o': Obj, v: Value, u: Id)
    requires s.phase in {SweepString, Sweep} && CanWriteObject(s, o, o', v)
    ensures WasDead(s, WriteObject(s, o, o', v), u)
  {
    hide MarkObject, Points;
  }

  lemma StoreKillsNone(s: GState, a: Action, u: Id)
    requires Enabled(s, a) && (a.Allocate? || a.Reuse? || a.StoreThread? || a.StoreTable? || a.StoreUpval?)
    ensures WasDead(s, Apply(s, a), u)
  {
    hide Points;
  }

  lemma StepKillsNone(s: GState, a: Action, u: Id)
    requires Shape(s) && Enabled(s, a) && s.phase in {SweepString, Sweep}
    ensures WasDead(s, Apply(s, a), u)
  {
    hide WasDead, SweepOne, CloseUpval, WriteObject, CanWriteObject;
    if a.SweepObject? {
      SweepKillsNone(s, a.x, a.requeue, u);
    } else if a.Close? {
      CloseKillsNone(s, a.u, a.ahead, u);
    } else if a.StoreObject? {
      WriteKillsNone(s, a.o, a.contents, a.v, u);
    } else if a.Allocate? || a.Reuse? || a.StoreThread? || a.StoreTable? || a.StoreUpval? {
      StoreKillsNone(s, a, u);
    } else {
      SameKillsNone(s, Apply(s, a), u);
    }
  }

  lemma SameKillsNone(s: GState, r: GState, u: Id)
    requires r.obj == s.obj && r.color == s.color && r.cur == s.cur
    ensures WasDead(s, r, u)
  {
  }

  /** What the atomic step leaves white it had not marked before it looked for userdata either. */
  lemma DeadAfterAtomic(s: GState, uvs: seq<Id>, sep: seq<Id>, u: Id)
    requires Inv(s) && AtomicReady(s, uvs, sep) && u in s.obj && s.obj[u].Udata?
    requires IsDead(Atomic(s, uvs, sep), u)
    ensures var s7 := RootsMarked(s, uvs);
            u in s7.obj && s7.obj[u].Udata? && u in s7.color && s7.color[u].White? && u !in s.tmudata + sep
  {
    hide RootsMarked, AllMarkedState, MarkInv, Sound, ColorInv, MarkingDone, Candidate, StringKept, ClearTable, Points;
    MarkingRelates(s, uvs, sep);
    RootsMarkedAdvanced(s, uvs);
  }

  lemma UdataKind(s: GState, uvs: seq<Id>, sep: seq<Id>, u: Id)
    requires Inv(s) && AtomicReady(s, uvs, sep) && u in Atomic(s, uvs, sep).obj && Atomic(s, uvs, sep).obj[u].Udata?
    ensures u in s.obj && s.obj[u].Udata?
  {
    hide RootsMarked, AllMarkedState, MarkInv, Sound, ColorInv, MarkingDone, Candidate, StringKept, ClearedKey,
         ClearedValue, Points;
    MarkingRelates(s, uvs, sep);
  }

  lemma AtomicLooksAt(s: GState, uvs: seq<Id>, sep: seq<Id>)
    requires Inv(s) && AtomicReady(s, uvs, sep) && LookedAt(s)
    ensures LookedAt(Atomic(s, uvs, sep))
  {
    hide Inv, Atomic, RootsMarked, Advanced, HasGcMethod;
    var s7, r := RootsMarked(s, uvs), Atomic(s, uvs, sep);
    Separated(s, uvs, sep);
    forall u | u in r.tmudata ensures u in r.finalized {
      assert u in sep <==> NeedsFinalizer(s7, u);
    }
    forall u | u in r.obj && r.obj[u].Udata? && IsDead(r, u) ensures u in r.finalized {
      UdataKind(s, uvs, sep, u);
      DeadAfterAtomic(s, uvs, sep, u);
      SevenSame(s, uvs);
    }
  }

  lemma SevenSame(s: GState, uvs: seq<Id>)
    requires Advanced(s, RootsMarked(s, uvs))
    ensures var s7 := RootsMarked(s, uvs); s7.tmudata == s.tmudata && s7.finalized == s.finalized && s7.gcKey == s.gcKey
  {
    hide RootsMarked;
  }

  lemma StepQueue(s: GState, a: Action)
    requires Inv(s) && Enabled(s, a)
    ensures Apply(s, a).tmudata == Queue(s.tmudata, a)
  {
    hide Inv, MarkValues, MarkObject, CanNew, CanResurrect, CanWriteObject, CanWriteTable, CanWriteThread, AtomicReady,
         AllMarkedState, ClearTables;
    if a.AtomicStep? { Separated(s, a.uvs, a.sep); }
  }

  lemma QuietBit(s: GState, a: Action, u: Id)
    requires Enabled(s, a) && u in s.obj && !a.AtomicStep?
    ensures u in Apply(s, a).finalized <==> u in s.finalized
  {
    hide MarkValues, MarkObject, CanResurrect, CanWriteObject, CanWriteTable, CanWriteThread, Points;
  }

  lemma QuietPhase(s: GState, a: Action)
    requires Enabled(s, a) && !a.AtomicStep? && Apply(s, a).phase in {SweepString, Sweep}
    ensures a.ForceSweep? || s.phase in {SweepString, Sweep}
  {
    hide MarkValues, MarkObject, CanNew, CanResurrect, CanWriteObject, CanWriteTable, CanWriteThread;
  }

  lemma QuietLooksAt(s: GState, a: Action, u: Id)
    requires Inv(s) && Enabled(s, a) && !a.AtomicStep? && LookedAt(s)
    requires u in Apply(s, a).obj && Apply(s, a).obj[u].Udata? && IsDead(Apply(s, a), u)
    ensures u in Apply(s, a).finalized
  {
    hide Enabled, Apply, Inv;
    StepKeepsInv(s, a);
    DeadInSweep(Apply(s, a), u);
    QuietPhase(s, a);
    assert WasDead(s, Apply(s, a), u) by {
      if a.ForceSweep? { ForcedSame(s, a, u); } else { InvShape(s); StepKillsNone(s, a, u); }
    }
    QuietBit(s, a, u);
  }

  lemma ForcedSame(s: GState, a: Action, u: Id)
    requires a.ForceSweep? && Enabled(s, a)
    ensures WasDead(s, Apply(s, a), u)
  {
  }

  lemma InvShape(s: GState)
    requires Inv(s)
    ensures Shape(s) && forall u :: u in s.tmudata ==> u in s.obj && Alive(s, u)
  {
    hide ColorInv, MarkPhase, Points;
    forall u | u in s.tmudata ensures Alive(s, u) { assert IsRoot(s, u); }
  }

  lemma StepLooksAt(s: GState, a: Action)
    requires Inv(s) && Enabled(s, a) && LookedAt(s)
    ensures LookedAt(Apply(s, a))
  {
    if a.AtomicStep? {
      AtomicLooksAt(s, a.uvs, a.sep);
    } else {
      hide Enabled, Apply, Inv, Shape;
      var r := Apply(s, a);
      StepQueue(s, a);
      InvShape(s);
      forall u | u in r.tmudata ensures u in r.finalized {
        assert u in s.tmudata;
        QuietBit(s, a, u);
      }
      forall u | u in r.obj && r.obj[u].Udata? && IsDead(r, u) ensures u in r.finalized { QuietLooksAt(s, a, u); }
    }
  }

  lemma {:induction false} RunLooksAt(states: seq<GState>, actions: seq<Action>, k: nat)
    requires IsRun(states, actions) && Initial(states[0]) && k < |states|
    ensures Inv(states[k]) && LookedAt(states[k])
    decreases k
  {
    hide Inv, Enabled, Apply;
    if k == 0 {
      InitialInv(states[0]);
    } else {
      RunLooksAt(states, actions, k - 1);
      StepKeepsInv(states[k - 1], actions[k - 1]);
      StepLooksAt(states[k - 1], actions[k - 1]);
    }
  }

  // ----- first come, first served -----

  /** The userdata that these steps found. */
  function Came(actions: seq<Action>): seq<Id>
  {
    if actions == [] then []
    else
      var a := actions[|actions| - 1];
      Came(actions[..|actions| - 1]) + if a.AtomicStep? then a.sep else []
  }

  /** How many finalizers these steps called. */
  function Calls(actions: seq<Action>): nat
  {
    if actions == [] then 0
    else Calls(actions[..|actions| - 1]) + if actions[|actions| - 1].CallFinalizer? then 1 else 0
  }

  /** Finalizers are called in the order in which the userdata were found. */
  lemma {:induction false} FirstCome(states: seq<GState>, actions: seq<Action>, i: nat, j: nat)
    requires IsRun(states, actions) && Initial(states[0]) && i <= j < |states|
    ensures var all, n := states[i].tmudata + Came(actions[i..j]), Calls(actions[i..j]);
            n <= |all| && states[j].tmudata == all[n..]
    decreases j
  {
    hide Inv, Enabled, Apply, Initial, LookedAt, Queue, Came, Calls;
    if i == j {
      assert actions[i..j] == [];
      NoneYet(states[i].tmudata);
    } else {
      FirstCome(states, actions, i, j - 1);
      RunLooksAt(states, actions, j - 1);
      StepQueue(states[j - 1], actions[j - 1]);
      CallsOne(states[j - 1], actions[j - 1]);
      assert actions[i..j] == actions[i..j - 1] + [actions[j - 1]];
      QueueNext(states[i].tmudata, actions[i..j - 1], actions[j - 1], states[j - 1].tmudata);
    }
  }

  lemma NoneYet(first: seq<Id>)
    ensures Calls([]) == 0 && first + Came([]) == first
  {
  }

  lemma QueueNext(first: seq<Id>, part: seq<Action>, a: Action, waiting: seq<Id>)
    requires Calls(part) <= |first + Came(part)| && waiting == (first + Came(part))[Calls(part)..]
    requires a.CallFinalizer? ==> waiting != []
    ensures var all, n := first + Came(part + [a]), Calls(part + [a]); n <= |all| && Queue(waiting, a) == all[n..]
  {
    assert (part + [a])[..|part|] == part;
    assert first + Came(part + [a]) == first + Came(part) + if a.AtomicStep? then a.sep else [];
  }

  lemma CallsOne(s: GState, a: Action)
    requires Enabled(s, a)
    ensures a.CallFinalizer? ==> s.tmudata != []
  {
  }

  // ----- no one twice -----

  /** The step calls the finalizer of this userdata. */
  predicate CallsFor(s: GState, a: Action, u: Id)
  {
    a.CallFinalizer? && s.tmudata != [] && s.tmudata[0] == u
  }

  lemma CalledLeaves(s: GState, a: Action, u: Id)
    requires Inv(s) && LookedAt(s) && Enabled(s, a) && CallsFor(s, a, u)
    ensures u in Apply(s, a).finalized && u !in Apply(s, a).tmudata
  {
    hide Apply, Enabled, Sound, ColorInv, MarkPhase;
    StepQueue(s, a);
    QuietBit(s, a, u);
  }

  lemma CalledStays(s: GState, a: Action, u: Id)
    requires Inv(s) && Enabled(s, a) && u in s.obj && u in s.finalized && u !in s.tmudata
    ensures u in Apply(s, a).finalized && u !in Apply(s, a).tmudata
  {
    StepQueue(s, a);
    hide Inv;
    if a.AtomicStep? {
      Separated(s, a.uvs, a.sep);
      SevenSame(s, a.uvs);
      hide RootsMarked, Advanced;
      assert u in a.sep <==> NeedsFinalizer(RootsMarked(s, a.uvs), u);
    } else {
      QuietBit(s, a, u);
    }
  }

  lemma {:induction false} CalledBefore(states: seq<GState>, actions: seq<Action>, i: nat, j: nat, u: Id)
    requires IsRun(states, actions) && Initial(states[0]) && i < j < |states| && CallsFor(states[i], actions[i], u)
    requires forall m :: i < m < j ==> u in states[m].obj
    ensures u in states[j].finalized && u !in states[j].tmudata
    decreases j
  {
    hide Inv, Enabled, Apply, LookedAt;
    RunLooksAt(states, actions, j - 1);
    if i == j - 1 {
      CalledLeaves(states[i], actions[i], u);
    } else {
      CalledBefore(states, actions, i, j - 1, u);
      CalledStays(states[j - 1], actions[j - 1], u);
    }
  }

  /** No userdata has its finalizer called twice, unless it was freed in between and its address given to another. */
  lemma FinalizedOnce(states: seq<GState>, actions: seq<Action>, i: nat, j: nat, u: Id)
    requires IsRun(states, actions) && Initial(states[0]) && i < j < |actions|
    requires CallsFor(states[i], actions[i], u) && CallsFor(states[j], actions[j], u)
    ensures exists m :: i < m < j && u !in states[m].obj
  {
    hide Initial, Enabled, Apply;
    if forall m :: i < m < j ==> u in states[m].obj { CalledBefore(states, actions, i, j, u); }
  }

  // ----- no one freed before its turn -----

  lemma AtomicSpares(s: GState, uvs: seq<Id>, sep: seq<Id>, u: Id)
    requires Inv(s) && AtomicReady(s, uvs, sep) && LookedAt(s) && HasFinalizer(s, u) && u !in s.finalized
    ensures var r := Atomic(s, uvs, sep); u in r.finalized ==> u in r.tmudata
  {
    hide Inv, Atomic, RootsMarked, HasGcMethod;
    var s7 := RootsMarked(s, uvs);
    Separated(s, uvs, sep);
    SevenSame(s, uvs);
    FinalizerStays(s.obj, s7.obj, s.gcKey, s.obj[u].metatable);
    assert u in sep <==> NeedsFinalizer(s7, u);
  }

  /** Not looked at, or waiting. */
  predicate Due(s: GState, u: Id)
  {
    u !in s.finalized || u in s.tmudata
  }

  lemma StaysDue(s: GState, a: Action, u: Id)
    requires Inv(s) && LookedAt(s) && Enabled(s, a) && HasFinalizer(s, u) && Due(s, u) && !CallsFor(s, a, u)
    ensures Due(Apply(s, a), u)
  {
    StepQueue(s, a);
    CallsOne(s, a);
    hide Inv, HasGcMethod;
    if a.AtomicStep? {
      if u !in s.finalized { AtomicSpares(s, a.uvs, a.sep, u); }
    } else {
      QuietBit(s, a, u);
    }
  }

  lemma {:induction false} DueUntilCalled(states: seq<GState>, actions: seq<Action>, i: nat, k: nat, u: Id)
    requires IsRun(states, actions) && Initial(states[0]) && i <= k < |states| && u !in states[i].finalized
    requires forall m :: i <= m < k ==> HasFinalizer(states[m], u) && !CallsFor(states[m], actions[m], u)
    ensures Due(states[k], u)
    decreases k
  {
    hide Inv, Enabled, Apply, LookedAt, HasFinalizer, CallsFor;
    if i < k {
      RunLooksAt(states, actions, k - 1);
      DueUntilCalled(states, actions, i, k - 1, u);
      StaysDue(states[k - 1], actions[k - 1], u);
    }
  }

  /** A userdata that has a finalizer from before it was first looked at is not freed until the finalizer was called. */
  lemma FinalizerFirst(states: seq<GState>, actions: seq<Action>, i: nat, k: nat, u: Id)
    requires IsRun(states, actions) && Initial(states[0]) && i <= k < |actions| && u !in states[i].finalized
    requires forall m :: i <= m <= k ==> HasFinalizer(states[m], u)
    requires u !in states[k + 1].obj
    ensures exists m :: i <= m < k && CallsFor(states[m], actions[m], u)
  {
    hide Initial, Enabled, Apply, CallsFor, HasGcMethod, Inv;
    if forall m :: i <= m < k ==> !CallsFor(states[m], actions[m], u) {
      DueUntilCalled(states, actions, i, k, u);
      RunLooksAt(states, actions, k);
      InvShape(states[k]);
      assert HasFinalizer(states[k], u) && Alive(states[k], u);
      StepKeepsAlive(states[k], actions[k], u);
      assert false;
    }
  }
}
