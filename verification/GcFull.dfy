/** A full collection without finalizers frees exactly what it should. */
module GcFull {
  import opened LuaHeap
  import opened GcMark
  import opened GcTraverse
  import opened GcAtomic
  import opened GcClear
  import opened GcPhases
  import opened GcInvariant
  import opened GcAtomicInv
  import opened GcSweep
  import opened GcRun
  import opened GcReach
  import opened GcContents

  /** The steps that a collection takes on its own after `markroot`. */
  predicate CollectorOnly(a: Action)
  {
    a.PropagateOne? || a.AtomicStep? || a.SweepObject? || a.EndSweepString? || a.EndSweep?
  }

  /** No userdata has a finalizer. */
  ghost predicate NoFinalizers(s: GState)
  {
    s.tmudata == [] && forall u :: u in s.obj && s.obj[u].Udata? ==> !HasGcMethod(s.obj, s.gcKey, s.obj[u].metatable)
  }

  ghost predicate CycleInv(s0: GState, s: GState)
  {
    Inv(s) &&
    if s.phase == Propagate then Marking(s0, s) else Collecting(s0, s) && Contents(s0, s)
  }

  lemma CompactedGc(h: Graph, h': Graph, key: Id, mt: Value)
    requires Compacted(h, h')
    ensures HasGcMethod(h', key, mt) ==> HasGcMethod(h, key, mt)
  {
    if HasGcMethod(h', key, mt) {
      var n :| n in h'[mt.id].nodes && HasEntry(n, key);
      if h'[mt.id] != h[mt.id] { CompactedNode(h[mt.id], h'[mt.id], n); }
    }
  }

  lemma NothingToSeparate(s0: GState, s: GState, sep: seq<Id>)
    requires NoFinalizers(s0) && Compacted(s0.obj, s.obj) && s.gcKey == s0.gcKey && SeparationList(s, sep)
    ensures sep == []
  {
    if sep != [] {
      assert NeedsFinalizer(s, sep[0]);
      CompactedGc(s0.obj, s.obj, s.gcKey, s.obj[sep[0]].metatable);
    }
  }

  lemma NoSeparation(s0: GState, s: GState, uvs: seq<Id>, sep: seq<Id>)
    requires AllInGraph(s0) && NoFinalizers(s0) && CycleInv(s0, s) && s.phase == Propagate && AtomicReady(s, uvs, sep)
    ensures sep == []
  {
    var s7 := RootsMarked(s, uvs);
    assert Compacted(s0.obj, s7.obj) && s7.gcKey == s0.gcKey && SeparationList(s7, sep) by {
      hide MarkInv, Sound, Shape, ColorInv, AllInGraph, NoFinalizers, SeparationList;
      RootsMarkedAdvanced(s, uvs);
      CompactedTransitive(s0.obj, s.obj, s7.obj);
    }
    NothingToSeparate(s0, s7, sep);
  }

  lemma CollectingAnyPhase(s0: GState, s: GState, phase: Phase)
    requires Collecting(s0, s)
    ensures Collecting(s0, s.(phase := phase))
  {
    assert forall x :: Alive(s.(phase := phase), x) <==> Alive(s, x);
  }

  lemma CycleStep(s0: GState, s: GState, a: Action)
    requires AllInGraph(s0) && NoFinalizers(s0) && CycleInv(s0, s) && Enabled(s, a) && CollectorOnly(a)
    ensures CycleInv(s0, Apply(s, a))
  {
    hide AllInGraph, NoFinalizers, SameRefs, MarkedReach, Shape, Sound, ColorInv, HeldKeys, MarkInv, Collecting,
         AllMarkedState, MarkValues, ClearTables, Contents, WeakExact;
    StepKeepsInv(s, a);
    match a
    case PropagateOne =>
      PropagateReach(s0, s);
      PropagateExact(s);
      PropagateFrame(s);
    case AtomicStep(uvs, sep) =>
      NoSeparation(s0, s, uvs, sep);
      AtomicCollects(s0, s, uvs);
      AtomicContents(s0, s, uvs);
    case SweepObject(x, requeue) =>
      SweepCollects(s0, s, x, requeue);
      SweepContents(s0, s, x, requeue);
    case EndSweepString =>
      CollectingAnyPhase(s0, s, Sweep);
      SameContents(s0, s, Apply(s, a));
    case EndSweep =>
      CollectingAnyPhase(s0, s, Finalize);
      SameContents(s0, s, Apply(s, a));
  }

  lemma PropagateFrame(s: GState)
    requires s.gray != [] && s.gray[0] in s.obj && Listed(s.obj[s.gray[0]])
    ensures var r := PropagateMark(s);
            r.tmudata == s.tmudata && r.fixed == s.fixed && r.gcKey == s.gcKey && r.phase == s.phase &&
            r.finalized == s.finalized
  {
    hide MarkValues, GrayRefs;
  }

  lemma {:induction false} RunsKeepCycle(s0: GState, s: GState, acts: seq<Action>, r: GState)
    requires AllInGraph(s0) && NoFinalizers(s0) && CycleInv(s0, s) && Runs(s, acts, r)
    requires forall a :: a in acts ==> CollectorOnly(a)
    ensures CycleInv(s0, r)
    decreases |acts|
  {
    if acts != [] {
      hide AllInGraph, NoFinalizers, CycleInv, Enabled, Apply;
      CycleStep(s0, s, acts[0]);
      RunsKeepCycle(s0, Apply(s, acts[0]), acts[1..], r);
    }
  }

  lemma CycleStart(s: GState)
    requires Inv(s) && s.phase in {Pause, Finalize} && NoFinalizers(s)
    ensures AllInGraph(s) && CycleInv(s, MarkRoot(s))
  {
    assert AllInGraph(s) && AllWhite(s) by {
      forall x, c | x in s.obj && Points(s.obj, s.obj[x], c) ensures c in s.obj { assert Alive(s, x) && Alive(s, c); }
      forall x | IsRoot(s, x) ensures x in s.obj { assert Alive(s, x); }
      hide Points, NoFinalizers;
    }
    MarkRootReach(s);
    MarkRootKeepsInv(s);
    MarkRootExact(s);
    hide Inv, AllInGraph, MarkedReach, SameRefs, MarkValues, WeakExact;
  }

  lemma {:induction false} CycleRun(states: seq<GState>, actions: seq<Action>, k: nat)
    requires IsRun(states, actions) && Inv(states[0]) && states[0].phase in {Pause, Finalize} && NoFinalizers(states[0])
    requires 0 < |actions| && actions[0] == StartCycle && forall i :: 0 < i < |actions| ==> CollectorOnly(actions[i])
    requires 0 < k < |states|
    ensures CycleInv(states[0], states[k])
    decreases k
  {
    hide Inv, NoFinalizers, CycleInv, Enabled, Apply, AllInGraph;
    CycleStart(states[0]);
    if k == 1 {
      ApplyStart(states[0]);
    } else {
      CycleRun(states, actions, k - 1);
      CycleStep(states[0], states[k - 1], actions[k - 1]);
    }
  }

  lemma ApplyStart(s: GState)
    requires Enabled(s, StartCycle)
    ensures Apply(s, StartCycle) == MarkRoot(s)
  {
  }

  /** Completeness.  A collection that runs from `markroot` to the end of its sweep without interruption
      keeps every strongly reachable object and frees every other one, except strings that are fixed or
      that a strongly reachable table still refers to.  What is left has its contents, and weak tables have
      lost exactly the entries that they must; no reference dangles. */
  lemma FullCollection(states: seq<GState>, actions: seq<Action>)
    requires IsRun(states, actions) && Inv(states[0]) && states[0].phase in {Pause, Finalize} && NoFinalizers(states[0])
    requires 0 < |actions| && actions[0] == StartCycle && forall i :: 0 < i < |actions| ==> CollectorOnly(actions[i])
    requires states[|actions|].phase == Finalize
    ensures var s, r := states[0], states[|actions|];
            (forall x :: x in s.obj && StronglyReachable(s, x) ==> x in r.obj) &&
            (forall x :: x in r.obj ==>
               x in s.obj && (StronglyReachable(s, x) || HeldString(s, x) || FixedString(s, x))) &&
            NoDangling(r) && Survives(s, r)
  {
    var s, r := states[0], states[|actions|];
    CycleRun(states, actions, |actions|);
    hide Enabled, Apply;
    CycleEnd(s, r);
  }

  lemma CycleEnd(s: GState, r: GState)
    requires CycleInv(s, r) && r.phase == Finalize
    ensures (forall x :: x in s.obj && StronglyReachable(s, x) ==> x in r.obj)
    ensures forall x :: x in r.obj ==> x in s.obj && (StronglyReachable(s, x) || HeldString(s, x) || FixedString(s, x))
    ensures NoDangling(r) && Survives(s, r)
  {
    hide Shape, HeldString, Points, TableKept, SameObject;
    CycleSurvives(s, r);
    forall x | x in s.obj && StronglyReachable(s, x) ensures x in r.obj {
      assert x in Reach(s);
      assert Alive(r, x);
    }
    forall x | x in r.obj ensures Alive(r, x) {}
    forall x, c | x in r.obj && Points(r.obj, r.obj[x], c) ensures c in r.obj {
      assert Alive(r, x) && Alive(r, c);
    }
  }

  lemma CycleSurvives(s: GState, r: GState)
    requires CycleInv(s, r) && r.phase == Finalize
    ensures Survives(s, r)
  {
    hide Shape, TableKept, SameObject, StronglyReachable;
    forall x | x in r.obj ensures x in s.obj && Kept(s, x, r.obj[x]) {
      assert Alive(r, x);
      assert ObjectKept(s, x, r.obj[x]);
    }
  }

  // ----- finishing a pending sweep first changes nothing that is reachable -----

  lemma SweptTable(s: GState, x: Id, requeue: bool, t: Id)
    requires Shape(s) && x in s.unswept && t in SweepOne(s, x, requeue).obj
    ensures t in s.obj &&
            (s.obj[t].Table? || s.obj[t].Str? || s.obj[t].Thread? ==> SweepOne(s, x, requeue).obj[t] == s.obj[t])
    ensures SweepOne(s, x, requeue).obj[t].Table? ==> s.obj[t].Table?
    ensures SweepOne(s, x, requeue).obj[t].Str? ==> s.obj[t].Str?
    ensures SweepOne(s, x, requeue).obj[t].Udata? ==> SweepOne(s, x, requeue).obj[t] == s.obj[t]
  {
  }

  lemma SweptMode(s: GState, x: Id, requeue: bool, mt: Value, mode: char)
    requires Shape(s) && Sound(s) && x in s.unswept && (mt.Ref? ==> Alive(s, mt.id))
    ensures HasMode(SweepOne(s, x, requeue).obj, s.modeKey, mt, mode) == HasMode(s.obj, s.modeKey, mt, mode)
  {
    var r := SweepOne(s, x, requeue);
    if mt.Ref? {
      SweepFreesDead(s, x, requeue, mt.id);
      SweptTable(s, x, requeue, mt.id);
      if s.obj[mt.id].Table? {
        forall n | n in s.obj[mt.id].nodes && HasEntry(n, s.modeKey)
          ensures ModeEntry(r.obj, s.modeKey, n, mode) == ModeEntry(s.obj, s.modeKey, n, mode)
        {
          if n.val.Ref? {
            assert NodePoints(n, n.val.id);
            assert Points(s.obj, s.obj[mt.id], n.val.id);
            assert Alive(s, n.val.id);
            SweepFreesDead(s, x, requeue, n.val.id);
            SweptTable(s, x, requeue, n.val.id);
          }
        }
        hide SweepOne, Points;
      }
    }
  }

  lemma SweptPointsBack(s: GState, x: Id, requeue: bool, y: Id, c: Id)
    requires Shape(s) && x in s.unswept && y in SweepOne(s, x, requeue).obj && y in s.obj
    requires s.obj[y].OpenUpval? ==> s.obj[y].thread in SweepOne(s, x, requeue).obj || s.obj[y].thread == x
    ensures Points(SweepOne(s, x, requeue).obj, SweepOne(s, x, requeue).obj[y], c) == Points(s.obj, s.obj[y], c)
  {
  }

  lemma SweptThreadKept(s: GState, x: Id, requeue: bool, th: Id)
    requires Shape(s) && x in s.unswept && th in s.obj && s.obj[th].Thread?
    ensures th in SweepOne(s, x, requeue).obj || th == x
  {
  }

  /** A sweep step leaves the strong edges of live objects as they are. */
  lemma SweptStrong(s: GState, x: Id, requeue: bool, y: Id, c: Id)
    requires Shape(s) && Sound(s) && x in s.unswept && Alive(s, y)
    ensures y in SweepOne(s, x, requeue).obj
    ensures StrongPoints(SweepOne(s, x, requeue).obj, s.modeKey, SweepOne(s, x, requeue).obj[y], c) ==
            StrongPoints(s.obj, s.modeKey, s.obj[y], c)
  {
    SweepFreesDead(s, x, requeue, y);
    SweptTable(s, x, requeue, y);
    if s.obj[y].Table? {
      var mt := s.obj[y].metatable;
      if mt.Ref? { assert Points(s.obj, s.obj[y], mt.id); }
      SweptMode(s, x, requeue, mt, 'k');
      SweptMode(s, x, requeue, mt, 'v');
    } else {
      if s.obj[y].OpenUpval? { SweptThreadKept(s, x, requeue, s.obj[y].thread); }
      SweptPointsBack(s, x, requeue, y, c);
    }
    hide SweepOne, Points;
  }

  lemma {:induction false} StrongPathAlive(s: GState, p: seq<Id>, k: nat)
    requires Sound(s) && StrongRootPath(s, p) && k < |p|
    ensures Alive(s, p[k])
    decreases k
  {
    if k == 0 {
      assert IsRoot(s, p[0]);
    } else {
      StrongPathAlive(s, p, k - 1);
      StrongIsPoint(s.obj, s.modeKey, s.obj[p[k - 1]], p[k]);
      assert Points(s.obj, s.obj[p[k - 1]], p[k]);
    }
  }

  lemma SweptPath(s: GState, x: Id, requeue: bool, p: seq<Id>)
    requires Shape(s) && Sound(s) && x in s.unswept && StrongRootPath(s, p)
    ensures StrongRootPath(SweepOne(s, x, requeue), p)
  {
    var r := SweepOne(s, x, requeue);
    assert IsRoot(r, p[0]);
    forall i | 0 <= i < |p| - 1
      ensures p[i] in r.obj && StrongPoints(r.obj, r.modeKey, r.obj[p[i]], p[i + 1])
    {
      StrongPathAlive(s, p, i);
      SweptStrong(s, x, requeue, p[i], p[i + 1]);
    }
    hide SweepOne, StrongPoints, IsRoot;
  }

  lemma SweptPathBack(s: GState, x: Id, requeue: bool, p: seq<Id>, k: nat)
    requires Shape(s) && Sound(s) && x in s.unswept && StrongRootPath(SweepOne(s, x, requeue), p) && k < |p|
    ensures StrongRootPath(s, p[..k + 1])
    decreases k
  {
    var r := SweepOne(s, x, requeue);
    assert IsRoot(r, p[0]) ==> IsRoot(s, p[0]);
    if k > 0 {
      SweptPathBack(s, x, requeue, p, k - 1);
      var q := p[..k];
      StrongPathAlive(s, q, k - 1);
      SweptStrong(s, x, requeue, p[k - 1], p[k]);
      assert p[..k + 1] == q + [p[k]];
      hide SweepOne, StrongPoints, IsRoot;
      forall i | 0 <= i < k
        ensures p[i] in s.obj && StrongPoints(s.obj, s.modeKey, s.obj[p[i]], p[i + 1])
      {
        if i < k - 1 { assert q[i] == p[i] && q[i + 1] == p[i + 1]; }
      }
    }
  }

  lemma SweepKeepsReach(s: GState, x: Id, requeue: bool, y: Id)
    requires Shape(s) && Sound(s) && x in s.unswept
    ensures StronglyReachable(SweepOne(s, x, requeue), y) <==> StronglyReachable(s, y)
  {
    var r := SweepOne(s, x, requeue);
    hide SweepOne, StrongRootPath, Shape, Sound;
    if StronglyReachable(s, y) {
      var p :| StrongRootPath(s, p) && p[|p| - 1] == y;
      SweptPath(s, x, requeue, p);
    }
    if StronglyReachable(r, y) {
      var p :| StrongRootPath(r, p) && p[|p| - 1] == y;
      PathNonempty(r, p);
      SweptPathBack(s, x, requeue, p, |p| - 1);
      assert p[..|p|] == p;
    }
  }

  lemma PathNonempty(s: GState, p: seq<Id>)
    requires StrongRootPath(s, p)
    ensures 0 < |p|
  {
  }

  predicate SweepOnly(a: Action)
  {
    a.SweepObject? || a.EndSweepString? || a.EndSweep?
  }

  ghost predicate SameReach(s: GState, r: GState)
  {
    forall y :: StronglyReachable(r, y) <==> StronglyReachable(s, y)
  }

  lemma SameGraphReach(s: GState, r: GState)
    requires r.obj == s.obj && r.modeKey == s.modeKey && forall x :: IsRoot(r, x) <==> IsRoot(s, x)
    ensures SameReach(s, r)
  {
    forall p ensures StrongRootPath(r, p) <==> StrongRootPath(s, p) {}
  }

  lemma SweptNoFinalizers(s: GState, x: Id, requeue: bool)
    requires Shape(s) && x in s.unswept && NoFinalizers(s)
    ensures NoFinalizers(SweepOne(s, x, requeue))
  {
    var r := SweepOne(s, x, requeue);
    forall u | u in r.obj && r.obj[u].Udata? ensures !HasGcMethod(r.obj, r.gcKey, r.obj[u].metatable) {
      SweptTable(s, x, requeue, u);
      var mt := r.obj[u].metatable;
      if mt.Ref? && mt.id in r.obj { SweptTable(s, x, requeue, mt.id); }
    }
  }

  lemma SweepStepReach(s: GState, a: Action)
    requires Inv(s) && Enabled(s, a) && SweepOnly(a)
    ensures SameReach(s, Apply(s, a)) && (NoFinalizers(s) ==> NoFinalizers(Apply(s, a)))
  {
    hide Sound, ColorInv, StronglyReachable, SweepOne, MarkPhase, SweepColors, Shape;
    var r := Apply(s, a);
    match a
    case SweepObject(x, requeue) =>
      forall y ensures StronglyReachable(r, y) <==> StronglyReachable(s, y) { SweepKeepsReach(s, x, requeue, y); }
      if NoFinalizers(s) { SweptNoFinalizers(s, x, requeue); }
    case EndSweepString => SameGraphReach(s, r);
    case EndSweep => SameGraphReach(s, r);
  }

  lemma {:induction false} RunsKeepReach(s: GState, acts: seq<Action>, r: GState)
    requires Inv(s) && Runs(s, acts, r) && forall a :: a in acts ==> SweepOnly(a)
    ensures SameReach(s, r) && (NoFinalizers(s) ==> NoFinalizers(r))
    decreases |acts|
  {
    if acts != [] {
      hide Inv, Enabled, Apply, NoFinalizers, StronglyReachable;
      SweepStepReach(s, acts[0]);
      StepKeepsInv(s, acts[0]);
      RunsKeepReach(Apply(s, acts[0]), acts[1..], r);
    }
  }

  /** `r` is what a sweep has left of `s`: no object is new, each is what it was, but for upvalues that were closed, and
      what is strongly reachable is weak if it was. */
  ghost predicate Remnant(s: GState, r: GState)
  {
    r.fixed == s.fixed && r.modeKey == s.modeKey && r.finalized == s.finalized &&
    (forall x :: x in r.obj ==> x in s.obj && SameObject(s.obj, s.obj[x], r.obj[x])) &&
    forall x :: x in r.obj && StronglyReachable(s, x) ==> SameModes(s, r, x)
  }

  predicate SameModes(s: GState, r: GState, x: Id)
  {
    x in s.obj && x in r.obj && s.obj[x].Table? && r.obj[x].Table? ==>
      (IsWeak(r, x, 'k') <==> IsWeak(s, x, 'k')) && (IsWeak(r, x, 'v') <==> IsWeak(s, x, 'v'))
  }

  lemma SweptModes(s: GState, x: Id, requeue: bool, y: Id)
    requires Shape(s) && Sound(s) && x in s.unswept && StronglyReachable(s, y)
    ensures SameModes(s, SweepOne(s, x, requeue), y)
  {
    hide SweepOne, HasMode;
    var p :| StrongRootPath(s, p) && p[|p| - 1] == y;
    StrongPathAlive(s, p, |p| - 1);
    var r := SweepOne(s, x, requeue);
    if y in s.obj && y in r.obj && s.obj[y].Table? && r.obj[y].Table? {
      var mt := s.obj[y].metatable;
      SweptTable(s, x, requeue, y);
      if mt.Ref? { assert Points(s.obj, s.obj[y], mt.id); }
      SweptFrame(s, x, requeue);
      SweptMode(s, x, requeue, mt, 'k');
      SweptMode(s, x, requeue, mt, 'v');
    }
  }

  lemma SweptFrame(s: GState, x: Id, requeue: bool)
    requires x in s.obj && s.color.Keys == s.obj.Keys
    ensures var r := SweepOne(s, x, requeue); r.fixed == s.fixed && r.modeKey == s.modeKey && r.finalized == s.finalized
  {
  }

  lemma SweptRemnant(s: GState, x: Id, requeue: bool)
    requires Shape(s) && Sound(s) && x in s.unswept
    ensures Remnant(s, SweepOne(s, x, requeue))
  {
    hide SweepOne, Sound, SameObject, SameModes, StronglyReachable;
    var r := SweepOne(s, x, requeue);
    SweptFrame(s, x, requeue);
    forall t | t in r.obj ensures t in s.obj && SameObject(s.obj, s.obj[t], r.obj[t]) { SweptObject(s, x, requeue, t); }
    forall t | t in r.obj && StronglyReachable(s, t) ensures SameModes(s, r, t) { SweptModes(s, x, requeue, t); }
  }

  lemma SweepStepRemnant(s: GState, a: Action)
    requires Inv(s) && Enabled(s, a) && SweepOnly(a)
    ensures Remnant(s, Apply(s, a))
  {
    if a.SweepObject? { SweptRemnant(s, a.x, a.requeue); }
    hide Inv, SweepOne, Remnant;
    if !a.SweepObject? { SameRemnant(s, Apply(s, a)); }
  }

  lemma SameRemnant(s: GState, r: GState)
    requires r.obj == s.obj && r.fixed == s.fixed && r.modeKey == s.modeKey && r.finalized == s.finalized
    ensures Remnant(s, r)
  {
    hide HasMode;
  }

  lemma RemnantTwice(s: GState, q: GState, r: GState)
    requires Shape(q) && Remnant(s, q) && Remnant(q, r) && SameReach(s, q)
    ensures Remnant(s, r)
  {
    hide StronglyReachable, IsWeak;
    forall x | x in r.obj ensures x in s.obj && SameObject(s.obj, s.obj[x], r.obj[x]) {
      assert SameObject(s.obj, s.obj[x], q.obj[x]) && SameObject(q.obj, q.obj[x], r.obj[x]);
      if q.obj[x].OpenUpval? { assert SameObject(s.obj, s.obj[q.obj[x].thread], q.obj[q.obj[x].thread]); }
    }
    forall x | x in r.obj && StronglyReachable(s, x) ensures SameModes(s, r, x) {
      assert SameModes(s, q, x) && SameModes(q, r, x);
      assert SameObject(s.obj, s.obj[x], q.obj[x]);
    }
  }

  lemma {:induction false} RunsRemnant(s: GState, acts: seq<Action>, r: GState)
    requires Inv(s) && Runs(s, acts, r) && forall a :: a in acts ==> SweepOnly(a)
    ensures Remnant(s, r)
    decreases |acts|
  {
    hide Inv, Enabled, Apply, Remnant, SameReach;
    if acts == [] {
      SameRemnant(s, r);
    } else {
      var q := Apply(s, acts[0]);
      SweepStepRemnant(s, acts[0]);
      SweepStepReach(s, acts[0]);
      StepKeepsInv(s, acts[0]);
      RunsRemnant(q, acts[1..], r);
      InvShape(q);
      RemnantTwice(s, q, r);
    }
  }

  lemma InvShape(s: GState)
    requires Inv(s)
    ensures Shape(s)
  {
  }

  /** A string that is held or fixed in the remnant was so before. */
  lemma RemnantStrings(s: GState, r: GState, x: Id)
    requires Remnant(s, r) && SameReach(s, r)
    ensures HeldString(r, x) ==> HeldString(s, x)
    ensures FixedString(r, x) ==> FixedString(s, x)
  {
    hide StronglyReachable, StrongPoints, SameModes;
    if HeldString(r, x) {
      var t :| t in Reach(r) && r.obj[t].Table? && Points(r.obj, r.obj[t], x);
      assert t in Reach(s) && s.obj[t] == r.obj[t] && Points(s.obj, s.obj[t], x);
    }
  }

  // ----- what the cycle did to the remnant, it did to the state before -----

  lemma RemnantStays(s: GState, q: GState, v: Value)
    requires Remnant(s, q) && SameReach(s, q) && (v.Ref? ==> v.id in q.obj)
    ensures (Stays(q, v) <==> Stays(s, v)) && (StaysKey(q, Live(v)) <==> StaysKey(s, Live(v)))
  {
    hide StronglyReachable, SameModes;
    if v.Ref? { assert SameObject(s.obj, s.obj[v.id], q.obj[v.id]); }
  }

  lemma RemnantNode(s: GState, q: GState, weak: bool, n: Node, n': Node)
    requires Remnant(s, q) && SameReach(s, q) && NodeKept(q, weak, n, n')
    requires forall c :: NodePoints(n, c) ==> c in q.obj
    ensures NodeKept(s, weak, n, n')
  {
    hide Remnant, SameReach, Stays, StaysKey;
    if n.val != Nil {
      if n.val.Ref? { assert NodePoints(n, n.val.id); }
      RemnantStays(s, q, n.val);
      if n.key.Live? {
        if n.key.v.Ref? { assert NodePoints(n, n.key.v.id); }
        RemnantStays(s, q, n.key.v);
      } else {
        DeadStays(s, q);
      }
    }
  }

  lemma DeadStays(s: GState, q: GState)
    ensures StaysKey(s, Dead) && StaysKey(q, Dead)
  {
  }

  lemma RemnantTable(s: GState, q: GState, x: Id, t: Obj)
    requires Remnant(s, q) && SameReach(s, q) && NoDangling(q) && StronglyReachable(s, x)
    requires x in q.obj && q.obj[x].Table? && TableKept(q, x, t)
    ensures x in s.obj && s.obj[x].Table? && TableKept(s, x, t)
  {
    hide StronglyReachable, Stays, NodeKept, IsWeak, SameReach;
    assert SameObject(s.obj, s.obj[x], q.obj[x]) && SameModes(s, q, x);
    var was := q.obj[x];
    assert WeakTable(q, x) == WeakTable(s, x);
    forall i | 0 <= i < |was.arr|
      ensures t.arr[i] == if IsWeak(s, x, 'v') && !Stays(s, was.arr[i]) then Nil else was.arr[i]
    {
      if was.arr[i].Ref? { assert Points(q.obj, q.obj[x], was.arr[i].id); }
      RemnantStays(s, q, was.arr[i]);
    }
    forall i | 0 <= i < |was.nodes| ensures NodeKept(s, WeakTable(s, x), was.nodes[i], t.nodes[i]) {
      forall c | NodePoints(was.nodes[i], c) ensures c in q.obj {
        assert was.nodes[i] in was.nodes;
        assert Points(q.obj, q.obj[x], c);
      }
      RemnantNode(s, q, WeakTable(s, x), was.nodes[i], t.nodes[i]);
    }
  }

  lemma RemnantSurvives(s: GState, q: GState, r: GState)
    requires Remnant(s, q) && SameReach(s, q) && AllInGraph(q) && Survives(q, r) && Shape(q)
    requires forall x :: x in r.obj ==> StronglyReachable(q, x) || HeldString(q, x) || FixedString(q, x)
    ensures Survives(s, r)
  {
    hide StronglyReachable, TableKept, SameModes, NoDangling;
    forall x | x in r.obj ensures x in s.obj && Kept(s, x, r.obj[x]) {
      assert Kept(q, x, r.obj[x]) && SameObject(s.obj, s.obj[x], q.obj[x]);
      if q.obj[x].Table? {
        RemnantTable(s, q, x, r.obj[x]);
      } else if q.obj[x].OpenUpval? {
        assert SameObject(s.obj, s.obj[q.obj[x].thread], q.obj[q.obj[x].thread]);
      }
    }
  }
}
