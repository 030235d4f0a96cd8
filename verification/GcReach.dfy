/** What a collection marks is what is strongly reachable, and that is what the sweep leaves. */
module GcReach {
  import opened Seqs
  import opened LuaHeap
  import opened GcMark
  import opened GcTraverse
  import opened GcAtomic
  import opened GcClear
  import opened GcPhases
  import opened GcInvariant
  import opened GcAtomicInv
  import opened GcSweep

  ghost function Reach(s: GState): set<Id>
  {
    set x | x in s.obj && StronglyReachable(s, x)
  }

  /** A string that a strongly reachable table refers to, be it weakly. */
  ghost predicate HeldString(s: GState, x: Id)
  {
    x in s.obj && s.obj[x].Str? &&
    exists t :: t in Reach(s) && s.obj[t].Table? && Points(s.obj, s.obj[t], x)
  }

  lemma RootReach(s: GState, x: Id)
    requires IsRoot(s, x) && x in s.obj
    ensures x in Reach(s)
  {
    assert StrongRootPath(s, [x]) && [x][|[x]| - 1] == x;
  }

  lemma ReachStep(s: GState, x: Id, c: Id)
    requires x in Reach(s) && c in s.obj && StrongPoints(s.obj, s.modeKey, s.obj[x], c)
    ensures c in Reach(s)
  {
    var p :| StrongRootPath(s, p) && p[|p| - 1] == x;
    var q := p + [c];
    forall i | 0 <= i < |q| - 1
      ensures q[i] in s.obj && StrongPoints(s.obj, s.modeKey, s.obj[q[i]], q[i + 1])
    {
      if i < |p| - 1 {
        assert q[i] == p[i] && q[i + 1] == p[i + 1];
      }
    }
    assert StrongRootPath(s, q) && q[|q| - 1] == c;
  }

  /** `s` is on the way from `s0`, with the same references. */
  ghost predicate SameRefs(s0: GState, s: GState)
  {
    Compacted(s0.obj, s.obj) && s.modeKey == s0.modeKey && s.mainthread == s0.mainthread &&
    s.running == s0.running && s.registry == s0.registry && s.mt == s0.mt && s.tmudata == s0.tmudata
  }

  ghost predicate AllInGraph(s: GState)
  {
    (forall x :: IsRoot(s, x) ==> x in s.obj) && NoDangling(s)
  }

  lemma ReachClosed(s0: GState, s: GState)
    requires AllInGraph(s0) && Compacted(s0.obj, s.obj) && s.modeKey == s0.modeKey
    ensures ClosedUnder(s.obj, s.modeKey, Reach(s0))
  {
    forall x, c | x in Reach(s0) && x in s.obj && StrongPoints(s.obj, s.modeKey, s.obj[x], c)
      ensures c in Reach(s0)
    {
      CompactedEdges(s0.obj, s.obj, s.modeKey, x, c);
      StrongIsPoint(s0.obj, s0.modeKey, s0.obj[x], c);
      ReachStep(s0, x, c);
    }
  }

  /** Only strongly reachable objects have been marked. */
  ghost predicate MarkedReach(s0: GState, s: GState)
  {
    s.color.Keys == s.obj.Keys && forall x :: x in s.obj && !s.color[x].White? ==> x in Reach(s0)
  }

  lemma MarkRootReach(s: GState)
    requires AllInGraph(s) && s.tmudata == [] && AllWhite(s) && s.mainthread in s.obj && s.obj[s.mainthread].Thread?
    ensures MarkedReach(s, MarkRoot(s)) && SameRefs(s, MarkRoot(s))
  {
    var m, r := Marks(s.color, []), MarkRoot(s);
    ReachClosed(s, s);
    forall v | v in RootValues(s) && v.Ref? ensures v.id in Reach(s) {
      if v == s.obj[s.mainthread].globals {
        assert StrongPoints(s.obj, s.modeKey, s.obj[s.mainthread], v.id);
        RootReach(s, s.mainthread);
        assert Points(s.obj, s.obj[s.mainthread], v.id);
        ReachStep(s, s.mainthread, v.id);
      } else {
        assert IsRoot(s, v.id);
        RootReach(s, v.id);
      }
    }
    MarkValuesWithin(s.obj, s.modeKey, m, RootValues(s), Reach(s));
    MarkValuesGrows(s.obj, m, RootValues(s));
  }

  lemma GrayRefsWithin(s: GState, o: Id, z: set<Id>)
    requires o in s.obj && Listed(s.obj[o]) && o in z && ClosedUnder(s.obj, s.modeKey, z)
    ensures forall v :: v in GrayRefs(s, o) && v.Ref? ==> v.id in z
  {
    forall v | v in GrayRefs(s, o) && v.Ref? ensures v.id in z {
      if s.obj[o].Table? { TableRefsAreStrong(s.obj, s.modeKey, s.obj[o], v.id); }
      assert StrongPoints(s.obj, s.modeKey, s.obj[o], v.id);
    }
  }

  lemma PropagateSameRefs(s0: GState, s: GState)
    requires SameRefs(s0, s) && Tricolor(s) && s.gray != []
    ensures s.gray[0] in s.obj && Listed(s.obj[s.gray[0]])
    ensures SameRefs(s0, PropagateMark(s)) && Progress(s, PropagateMark(s))
  {
    PropagateProgress(s);
    CompactedTransitive(s0.obj, s.obj, PropagateMark(s).obj);
  }

  lemma PropagateWithin(s: GState, z: set<Id>)
    requires s.color.Keys == s.obj.Keys && s.gray != [] && s.gray[0] in s.obj && Listed(s.obj[s.gray[0]])
    requires ClosedUnder(Swabbed(s, s.gray[0]), s.modeKey, z) && s.gray[0] in z
    requires forall v :: v in GrayRefs(s, s.gray[0]) && v.Ref? ==> v.id in z
    ensures var r := PropagateMark(s);
            r.color.Keys == s.color.Keys == r.obj.Keys &&
            forall x :: x in s.color && !r.color[x].White? ==> x in z || !s.color[x].White?
  {
    var o := s.gray[0];
    MarkValuesWithin(Swabbed(s, o), s.modeKey, Popped(s), GrayRefs(s, o), z);
    MarkValuesGrows(Swabbed(s, o), Popped(s), GrayRefs(s, o));
    hide MarkValues, GrayRefs, ClosedUnder;
  }

  lemma PropagateReach(s0: GState, s: GState)
    requires AllInGraph(s0) && SameRefs(s0, s) && MarkedReach(s0, s) && Tricolor(s) && s.gray != []
    ensures s.gray[0] in s.obj && Listed(s.obj[s.gray[0]])
    ensures SameRefs(s0, PropagateMark(s)) && MarkedReach(s0, PropagateMark(s))
  {
    var o, r, z := s.gray[0], PropagateMark(s), Reach(s0);
    PropagateSameRefs(s0, s);
    ReachClosed(s0, s);
    ReachClosed(s0, r);
    hide Progress, Compacted, AllInGraph, StrongPoints, Reach, ClosedUnder, GrayRefs, MarkValues;
    GrayRefsWithin(s, o, z);
    PropagateWithin(s, z);
  }

  lemma {:induction false} PropagateAllReach(s0: GState, s: GState)
    requires AllInGraph(s0) && SameRefs(s0, s) && MarkedReach(s0, s) && Tricolor(s)
    ensures SameRefs(s0, PropagateAll(s)) && MarkedReach(s0, PropagateAll(s))
    decreases Whites(MarksOf(s)), Elems(s.gray)
  {
    if s.gray != [] {
      PropagateShrinks(s);
      PropagateKeepsTricolor(s);
      PropagateReach(s0, s);
      hide SameRefs, MarkedReach, MarkInv, AllInGraph, PropagateMark;
      PropagateAllReach(s0, PropagateMark(s));
    }
  }

  lemma {:induction false} RemarkUpvalsWithin(h: Graph, modeKey: Id, m: Marks, uvs: seq<Id>, z: set<Id>)
    requires m.color.Keys <= h.Keys && ListOk(m) && ClosedUnder(h, modeKey, z)
    requires forall x :: x in m.color && !m.color[x].White? ==> x in z
    ensures forall x ::
              x in m.color && x in RemarkUpvals(h, m, uvs).color && !RemarkUpvals(h, m, uvs).color[x].White? ==> x in z
    decreases |uvs|
  {
    if uvs != [] {
      var u, m1 := uvs[0], m;
      if u in h && u in m.color && h[u].OpenUpval? && m.color[u] == Gray {
        var v := UpvalValue(h, h[u]);
        m1 := MarkValue(h, m, v);
        assert v.Ref? ==> StrongPoints(h, modeKey, h[u], v.id);
        MarkValueWithin(h, modeKey, m, v, z);
        MarkValueExtends(h, m, v);
        MarkValueListOk(h, m, v);
      }
      RemarkUpvalsWithin(h, modeKey, m1, uvs[1..], z);
    }
  }

  lemma FirstReach(s0: GState, s: GState, uvs: seq<Id>)
    requires AllInGraph(s0) && SameRefs(s0, s) && MarkedReach(s0, s) && Tricolor(s) && s.gray == [] && UpvalList(s, uvs)
    ensures var r := PropagateAll(Remarked(s, uvs));
            SameRefs(s0, r) && MarkedReach(s0, r) && Tricolor(r) && r.gray == []
  {
    var q := Remarked(s, uvs);
    FirstStage(s, uvs);
    RemarkedStage(s, uvs);
    assert MarkedReach(s0, q) by {
      ReachClosed(s0, s);
      RemarkUpvalsWithin(s.obj, s.modeKey, MarksOf(s), uvs, Reach(s0));
      hide Progress, Stage, Compacted, MarkInv, AllInGraph, StrongPoints, RemarkUpvals;
    }
    hide Progress, Stage, MarkInv, AllInGraph, MarkedReach, RemarkUpvals;
    PropagateAllReach(s0, q);
  }

  lemma WeakAgainTricolor(s: GState)
    requires Tricolor(s) && s.gray == []
    ensures Tricolor(WeakAgain(s)) && Tricolor(PropagateAll(WeakAgain(s))) && PropagateAll(WeakAgain(s)).gray == []
  {
    WeakAgainStage(s, s.obj.Keys, s.obj.Keys);
    SecondStage(s, s.obj.Keys, s.obj.Keys);
  }

  lemma SecondReach(s0: GState, s: GState)
    requires AllInGraph(s0) && SameRefs(s0, s) && MarkedReach(s0, s) && Tricolor(s) && s.gray == []
    ensures var r := PropagateAll(WeakAgain(s));
            SameRefs(s0, r) && MarkedReach(s0, r) && Tricolor(r) && r.gray == []
  {
    var q := WeakAgain(s);
    WeakAgainTricolor(s);
    assert MarkedReach(s0, q) by {
      var vs := [Ref(s.running)] + s.mt;
      forall v | v in vs && v.Ref? ensures v.id in Reach(s0) {
        assert IsRoot(s0, v.id);
        RootReach(s0, v.id);
      }
      ReachClosed(s0, s);
      MarkValuesWithin(s.obj, s.modeKey, Marks(s.color, s.weak), vs, Reach(s0));
      MarkValuesGrows(s.obj, Marks(s.color, s.weak), vs);
      hide Compacted, MarkInv, AllInGraph, StrongPoints, MarkValues, PropagateAll;
    }
    hide MarkInv, AllInGraph, MarkedReach, MarkValues;
    PropagateAllReach(s0, q);
  }

  lemma GrayAgainTricolor(s: GState)
    requires Tricolor(s) && s.gray == []
    ensures Tricolor(GrayAgain(s))
  {
    GrayAgainStage(s, s.obj.Keys, s.obj.Keys);
  }

  lemma ThirdReach(s0: GState, s: GState)
    requires AllInGraph(s0) && SameRefs(s0, s) && MarkedReach(s0, s) && Tricolor(s) && s.gray == []
    ensures var r := PropagateAll(GrayAgain(s)); SameRefs(s0, r) && MarkedReach(s0, r)
  {
    GrayAgainTricolor(s);
    hide MarkInv, AllInGraph;
    PropagateAllReach(s0, GrayAgain(s));
  }

  lemma RootsMarkedReach(s0: GState, s: GState, uvs: seq<Id>)
    requires AllInGraph(s0) && SameRefs(s0, s) && MarkedReach(s0, s) && Tricolor(s) && s.gray == [] && UpvalList(s, uvs)
    ensures SameRefs(s0, RootsMarked(s, uvs)) && MarkedReach(s0, RootsMarked(s, uvs))
  {
    hide MarkInv, AllInGraph, SameRefs, MarkedReach, PropagateAll;
    FirstReach(s0, s, uvs);
    SecondReach(s0, PropagateAll(Remarked(s, uvs)));
    ThirdReach(s0, PropagateAll(WeakAgain(PropagateAll(Remarked(s, uvs)))));
  }

  /** Without userdata to finalize, marking ends where it is after the roots. */
  lemma NoTmuMarks(s: GState, uvs: seq<Id>)
    requires s.tmudata == [] && RootsMarked(s, uvs).tmudata == [] && RootsMarked(s, uvs).gray == []
    ensures var s7, q := RootsMarked(s, uvs), AllMarkedState(s, uvs, []);
            q == s7.(finalized := q.finalized)
  {
    var s7 := RootsMarked(s, uvs);
    var s8 := Separate(s7, []);
    assert s8.tmudata == [] && TmuMarked(s8) == s8;
  }

  // ----- what is alive after the atomic phase, and after the sweep -----

  /** Exactly the strongly reachable objects are alive, besides some strings. */
  ghost predicate Collecting(s0: GState, s: GState)
  {
    s.fixed == s0.fixed && s.tmudata == [] &&
    (forall x :: x in Reach(s0) ==> Alive(s, x)) &&
    (forall x :: Alive(s, x) ==> x in Reach(s0) || HeldString(s0, x) || FixedString(s0, x)) &&
    (forall x :: x in s.obj ==> x in s0.obj && (s.obj[x].Str? <==> s0.obj[x].Str?))
  }

  predicate FixedString(s: GState, x: Id)
  {
    x in s.obj && s.obj[x].Str? && x in s.fixed
  }

  lemma {:induction false} SamePath(s0: GState, s: GState, p: seq<Id>)
    requires SameRefs(s0, s) && StrongRootPath(s0, p)
    ensures StrongRootPath(s, p)
  {
    assert IsRoot(s, p[0]);
    forall i | 0 <= i < |p| - 1
      ensures p[i] in s.obj && StrongPoints(s.obj, s.modeKey, s.obj[p[i]], p[i + 1])
    {
      CompactedEdges(s0.obj, s.obj, s.modeKey, p[i], p[i + 1]);
    }
  }

  lemma ReachAfterAtomic(s0: GState, s: GState, uvs: seq<Id>, x: Id)
    requires SameRefs(s0, s) && Inv(s) && AtomicReady(s, uvs, []) && x in Reach(s0)
    ensures Alive(Atomic(s, uvs, []), x)
  {
    hide Inv, AtomicReady, Atomic, Compacted;
    var p :| StrongRootPath(s0, p) && p[|p| - 1] == x;
    SamePath(s0, s, p);
    assert x in s.obj by { SameKeys(s0, s); }
    AtomicKeepsStrong(s, uvs, [], x);
  }

  lemma SameKeys(s0: GState, s: GState)
    requires SameRefs(s0, s)
    ensures s.obj.Keys == s0.obj.Keys && forall x :: x in s.obj ==> (s.obj[x].Str? <==> s0.obj[x].Str?)
  {
  }

  lemma KeptIsHeld(s0: GState, q: GState, x: Id)
    requires SameRefs(s0, q) && MarkedReach(s0, q) && MarkingDone(q) && StringKept(q, x)
    ensures HeldString(s0, x)
  {
    hide Settled, StrongPoints, Compacted, HasMode, Points, KeepsString;
    var t :| t in q.weak && t in q.obj && q.obj[t].Table? && KeepsString(q, q.obj[t], t in q.weakVal, x);
    assert q.color[t] == Gray && t in Reach(s0);
    KeptPoints(q, t, x);
    CompactedKinds(s0.obj, q.obj, t);
    CompactedKinds(s0.obj, q.obj, x);
    CompactedEdges(s0.obj, q.obj, q.modeKey, t, x);
  }

  lemma CompactedKinds(h: Graph, h': Graph, x: Id)
    requires Compacted(h, h') && x in h'
    ensures x in h && (h[x].Str? <==> h'[x].Str?) && (h[x].Table? <==> h'[x].Table?)
  {
  }

  lemma KeptPoints(q: GState, t: Id, x: Id)
    requires t in q.obj && q.obj[t].Table? && KeepsString(q, q.obj[t], t in q.weakVal, x)
    ensures Points(q.obj, q.obj[t], x)
  {
    if exists n :: n in q.obj[t].nodes && NodePoints(n, x) {}
  }

  lemma AliveAfterAtomic(s0: GState, s: GState, uvs: seq<Id>, x: Id)
    requires AllInGraph(s0) && SameRefs(s0, s) && MarkedReach(s0, s) && s.tmudata == []
    requires Inv(s) && AtomicReady(s, uvs, []) && Alive(Atomic(s, uvs, []), x)
    ensures x in s0.obj && (x in Reach(s0) || HeldString(s0, x))
  {
    var q, s7 := AllMarkedState(s, uvs, []), RootsMarked(s, uvs);
    assert MarkingDone(q) && q == s7.(finalized := q.finalized) && SameRefs(s0, s7) && MarkedReach(s0, s7)
           && (forall y :: y in q.obj && q.color[y].White? ==> q.color[y] == White(q.cur)) by {
      hide MarkInv, Sound, ColorInv, AllInGraph, SameRefs, MarkedReach, Compacted;
      ShapeTmu(s);
      MarkingEnds(s, uvs, []);
      RootsMarkedTmu(s, uvs);
      NoTmuMarks(s, uvs);
      RootsMarkedReach(s0, s, uvs);
      MarkingRelates(s, uvs, []);
      MarkedRoots(s, q, []);
    }
    hide MarkInv, Sound, Shape, ColorInv, AllInGraph, AllMarkedState, RootsMarked, StringKept, HeldString, Reach, Stage,
         BitsOk;
    assert SameRefs(s0, q) && MarkedReach(s0, q);
    assert Atomic(s, uvs, []) == Flipped(q);
    FlippedAlive(q, x);
    if q.color[x].White? { KeptIsHeld(s0, q, x); }
  }

  lemma RootsMarkedTmu(s: GState, uvs: seq<Id>)
    requires Tricolor(s) && s.gray == [] && UpvalList(s, uvs)
    ensures RootsMarked(s, uvs).tmudata == s.tmudata && RootsMarked(s, uvs).gray == []
  {
    hide MarkInv, Stage;
    RootsMarkedDone(s, uvs);
  }

  lemma AtomicCollects(s0: GState, s: GState, uvs: seq<Id>)
    requires AllInGraph(s0) && SameRefs(s0, s) && MarkedReach(s0, s) && s.tmudata == [] && s.fixed == s0.fixed
    requires Inv(s) && AtomicReady(s, uvs, [])
    ensures Collecting(s0, Atomic(s, uvs, []))
  {
    hide Inv, AllInGraph, MarkedReach, AtomicReady, Alive, Compacted, Reach, HeldString, SameRefs, Atomic, FixedString;
    var f := Atomic(s, uvs, []);
    assert f.fixed == s.fixed && f.tmudata == [] &&
           (forall x :: x in f.obj ==> x in s0.obj && (f.obj[x].Str? <==> s0.obj[x].Str?)) by {
      AtomicKinds(s, uvs);
      SameKeys(s0, s);
    }
    forall x | x in Reach(s0) ensures Alive(f, x) { ReachAfterAtomic(s0, s, uvs, x); }
    forall x | Alive(f, x) ensures x in Reach(s0) || HeldString(s0, x) { AliveAfterAtomic(s0, s, uvs, x); }
  }

  lemma AtomicKinds(s: GState, uvs: seq<Id>)
    requires Inv(s) && AtomicReady(s, uvs, []) && s.tmudata == []
    ensures var f := Atomic(s, uvs, []);
            f.fixed == s.fixed && f.tmudata == [] && f.obj.Keys == s.obj.Keys &&
            forall x :: x in f.obj ==> (f.obj[x].Str? <==> s.obj[x].Str?)
  {
    hide MarkInv, Sound, ColorInv, AllMarkedState, RootsMarked;
    ShapeTmu(s);
    MarkingRelates(s, uvs, []);
  }

  lemma SweepCollects(s0: GState, s: GState, x: Id, requeue: bool)
    requires Collecting(s0, s) && Shape(s) && Sound(s) && x in s.unswept
    ensures Collecting(s0, SweepOne(s, x, requeue))
  {
    var r := SweepOne(s, x, requeue);
    forall y | y in Reach(s0) ensures Alive(r, y) { SweptAlive(s, x, requeue, y); }
    forall y | Alive(r, y) ensures y in Reach(s0) || HeldString(s0, y) || FixedString(s0, y) {
      SweptAlive(s, x, requeue, y);
    }
    hide Sound, Shape, Reach, HeldString, Alive;
  }
}
