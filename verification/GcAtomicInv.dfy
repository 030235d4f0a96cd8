/** The atomic phase keeps the collector's invariant, and keeps everything strongly reachable. */
module GcAtomicInv {
  import opened Seqs
  import opened LuaHeap
  import opened GcMark
  import opened GcTraverse
  import opened GcAtomic
  import opened GcClear
  import opened GcPhases
  import opened GcInvariant

  /** How the marked state `q` relates to the state `s` in which the atomic phase began. */
  ghost predicate MarkedFrom(s: GState, q: GState, sep: seq<Id>)
  {
    q == s.(obj := q.obj, color := q.color, gray := q.gray, grayagain := q.grayagain, weak := q.weak,
            weakKey := q.weakKey, weakVal := q.weakVal, tmudata := s.tmudata + sep, finalized := q.finalized) &&
    Compacted(s.obj, q.obj) && s.color.Keys == q.color.Keys == s.obj.Keys &&
    (forall x :: x in s.color && !s.color[x].White? ==> !q.color[x].White?) &&
    (forall x :: x in s.color && q.color[x].White? ==> q.color[x] == s.color[x])
  }

  ghost predicate AtomicReady(s: GState, uvs: seq<Id>, sep: seq<Id>)
  {
    s.phase == Propagate && s.gray == [] && UpvalList(s, uvs) && SeparationList(RootsMarked(s, uvs), sep)
  }

  lemma SeparatedStage(s: GState, sep: seq<Id>)
    requires Tricolor(s) && s.gray == [] && Stage(s, Elems(s.tmudata)) && LateOk(s) && TmuOk(s)
    requires SeparationList(s, sep)
    ensures var r := Separate(s, sep);
            Tricolor(r) && Stage(r, Elems(r.tmudata)) && LateOk(r) && TmuOk(r)
  {
    var r := Separate(s, sep);
    assert forall u :: u in r.tmudata <==> u in s.tmudata || u in sep;
    assert Elems(s.tmudata) <= Elems(r.tmudata);
    DistinctConcat(s.tmudata, sep);
    forall x | x in r.obj && !r.color[x].White? && x !in r.gray && x !in Elems(r.tmudata)
      ensures Settled(r, x)
    {
      assert Settled(s, x);
    }
    forall x | x in s.weak
      ensures IsWeak(r, x, 'k') == IsWeak(s, x, 'k') && IsWeak(r, x, 'v') == IsWeak(s, x, 'v')
    {
    }
  }

  lemma TmuPropagated(s: GState)
    requires Tricolor(s) && s.gray == [] && Stage(s, Elems(s.tmudata)) && LateOk(s) && TmuOk(s)
    ensures var r := PropagateAll(TmuMarked(s));
            MarkingDone(r) && Progress(TmuMarked(s), r) && Grown(s.obj, MarksOf(s), MarksOf(TmuMarked(s))) &&
            forall u :: u in s.tmudata ==> Marked(MarksOf(r), Ref(u))
  {
    var q := TmuMarked(s);
    assert Grown(s.obj, MarksOf(s), MarksOf(q)) by {
      MarkTmuKeeps(s.obj, MarksOf(s), s.cur, s.tmudata, s.grayagain, s.weak);
    }
    assert InStage(q, {}) && forall u :: u in s.tmudata ==> Marked(MarksOf(q), Ref(u)) by { TmuStage(s); }
    assert LateOk(q) by { LateUnderMarks(s, q); }
    StageEnd(q);
  }

  lemma StageEnd(q: GState)
    requires InStage(q, {}) && LateOk(q) && TmuOk(q)
    ensures MarkingDone(PropagateAll(q)) && Progress(q, PropagateAll(q))
  {
    var r := PropagateAll(q);
    assert LateOk(r) by { PropagateAllLate(q); }
    PropagateAllKeeps(q, {});
  }

  lemma LateUnderMarks(s: GState, q: GState)
    requires LateOk(s) && q == WithMarks(s, MarksOf(q))
    ensures LateOk(q)
  {
    forall x | x in s.weak
      ensures IsWeak(q, x, 'k') == IsWeak(s, x, 'k') && IsWeak(q, x, 'v') == IsWeak(s, x, 'v')
    {
    }
  }

  lemma AfterSeparation(s: GState, sep: seq<Id>)
    requires Tricolor(s) && s.gray == [] && Stage(s, Elems(s.tmudata)) && LateOk(s) && TmuOk(s)
    requires SeparationList(s, sep)
    ensures var r := Separate(s, sep); var q := PropagateAll(TmuMarked(r));
            MarkingDone(q) && TmuOk(r) && Grown(r.obj, MarksOf(r), MarksOf(TmuMarked(r))) &&
            Progress(TmuMarked(r), q) && forall u :: u in r.tmudata ==> Marked(MarksOf(q), Ref(u))
  {
    SeparatedStage(s, sep);
    TmuPropagated(Separate(s, sep));
  }

  lemma RootsStay(s: GState, s7: GState, q: GState, sep: seq<Id>)
    requires MarkedFrom(s, q, sep) && SevenToEnd(s7, q)
    requires Marked(MarksOf(s), Ref(s.mainthread)) && Marked(MarksOf(s), Ref(s.registry))
    requires Marked(MarksOf(s7), Ref(s.running)) && AllMarked(MarksOf(s7), s.mt)
    requires forall u :: u in q.tmudata ==> Marked(MarksOf(q), Ref(u))
    ensures forall x :: IsRoot(q, x) ==> Marked(MarksOf(q), Ref(x))
  {
    forall x | IsRoot(q, x) ensures Marked(MarksOf(q), Ref(x)) {
      if Ref(x) in q.mt { assert Marked(MarksOf(s7), Ref(x)); }
    }
  }

  lemma MarkingEnds(s: GState, uvs: seq<Id>, sep: seq<Id>)
    requires Tricolor(s) && TmuOk(s) && AtomicReady(s, uvs, sep)
    ensures var s7, q := RootsMarked(s, uvs), AllMarkedState(s, uvs, sep); var r := Separate(s7, sep);
            MarkingDone(q) && TmuOk(r) && Grown(r.obj, MarksOf(r), MarksOf(TmuMarked(r))) &&
            Progress(TmuMarked(r), q) && forall u :: u in r.tmudata ==> Marked(MarksOf(q), Ref(u))
  {
    RootsMarkedDone(s, uvs);
    AfterSeparation(RootsMarked(s, uvs), sep);
  }

  lemma RootsMarkedAdvanced(s: GState, uvs: seq<Id>)
    requires Tricolor(s) && s.gray == [] && UpvalList(s, uvs)
    ensures var r := RootsMarked(s, uvs);
            Advanced(s, r) && Marked(MarksOf(r), Ref(s.running)) && AllMarked(MarksOf(r), s.mt)
  {
    RootsMarkedDone(s, uvs);
  }

  lemma MarkingRelates(s: GState, uvs: seq<Id>, sep: seq<Id>)
    requires Tricolor(s) && TmuOk(s) && AtomicReady(s, uvs, sep)
    ensures var s7, q := RootsMarked(s, uvs), AllMarkedState(s, uvs, sep);
            MarkedFrom(s, q, sep) && TmuOk(q) && SevenToEnd(s7, q) &&
            Marked(MarksOf(s7), Ref(s.running)) && AllMarked(MarksOf(s7), s.mt) &&
            forall u :: u in q.tmudata ==> Marked(MarksOf(q), Ref(u))
  {
    var s7, q := RootsMarked(s, uvs), AllMarkedState(s, uvs, sep);
    RootsMarkedAdvanced(s, uvs);
    MarkingEnds(s, uvs, sep);
    FromStages(s, s7, Separate(s7, sep), q, sep);
  }

  /** The mark phase ends with every marked object settled, and with all roots marked. */
  lemma AllMarkedDone(s: GState, uvs: seq<Id>, sep: seq<Id>)
    requires Tricolor(s) && TmuOk(s) && AtomicReady(s, uvs, sep)
    requires Marked(MarksOf(s), Ref(s.mainthread)) && Marked(MarksOf(s), Ref(s.registry))
    ensures var q := AllMarkedState(s, uvs, sep);
            MarkingDone(q) && MarkedFrom(s, q, sep) && TmuOk(q) &&
            forall x :: IsRoot(q, x) ==> Marked(MarksOf(q), Ref(x))
  {
    MarkingEnds(s, uvs, sep);
    MarkingRelates(s, uvs, sep);
    RootsStay(s, RootsMarked(s, uvs), AllMarkedState(s, uvs, sep), sep);
  }

  ghost predicate SevenToEnd(s7: GState, q: GState)
  {
    s7.color.Keys == q.color.Keys && forall x :: x in s7.color && !s7.color[x].White? ==> !q.color[x].White?
  }

  lemma FromStages(s: GState, s7: GState, s8: GState, q: GState, sep: seq<Id>)
    requires Advanced(s, s7) && s8 == Separate(s7, sep) && TmuOk(s8)
    requires Grown(s8.obj, MarksOf(s8), MarksOf(TmuMarked(s8))) && Progress(TmuMarked(s8), q)
    ensures MarkedFrom(s, q, sep) && TmuOk(q)
    ensures SevenToEnd(s7, q)
  {
    CompactedTransitive(s.obj, s7.obj, q.obj);
  }

  // ----- after the flip -----

  lemma MarkedNoDangling(s: GState, q: GState, sep: seq<Id>)
    requires Sound(s) && ColorInv(s) && s.phase == Propagate && MarkedFrom(s, q, sep)
    ensures NoDangling(q)
  {
    forall x, c | x in q.obj && Points(q.obj, q.obj[x], c)
      ensures c in q.obj
    {
      CompactedEdges(s.obj, q.obj, s.modeKey, x, c);
      assert Alive(s, x) && Alive(s, c);
    }
  }

  ghost function Flipped(q: GState): GState
  {
    var r := ClearTables(q);
    r.(cur := !r.cur, phase := SweepString,
       unswept := set x | x in r.obj && !r.obj[x].OpenUpval? && x !in r.tmudata)
  }

  lemma FlippedAlive(q: GState, x: Id)
    requires q.color.Keys == q.obj.Keys
    requires forall y :: y in q.obj && q.color[y].White? ==> q.color[y] == White(q.cur)
    ensures Alive(Flipped(q), x) <==> x in q.obj && !ClearTables(q).color[x].White?
  {
  }

  lemma FlippedSound(q: GState)
    requires MarkingDone(q) && NoDangling(q)
    requires forall y :: y in q.obj && q.color[y].White? ==> q.color[y] == White(q.cur)
    requires forall x :: IsRoot(q, x) ==> x in q.obj && Marked(MarksOf(q), Ref(x))
    ensures Sound(Flipped(q))
  {
    var r := Flipped(q);
    forall x | IsRoot(r, x) ensures Alive(r, x) {
      assert IsRoot(q, x);
      FlippedAlive(q, x);
    }
    forall x, c | Alive(r, x) && Points(r.obj, r.obj[x], c) ensures Alive(r, c) {
      FlippedAlive(q, x);
      ClearedClosed(q, x, c);
      FlippedAlive(q, c);
    }
  }

  lemma MarkedKeepsShape(s: GState, q: GState, sep: seq<Id>)
    requires Shape(s) && MarkedFrom(s, q, sep) && TmuOk(q)
    ensures Shape(q.(unswept := {}))
  {
  }

  lemma FlippedShape(q: GState)
    requires Shape(q.(unswept := {}))
    requires forall x :: x in q.obj && q.obj[x].OpenUpval? ==> q.color[x] != Black
    ensures Shape(Flipped(q)) && ColorInv(Flipped(q))
  {
    hide StringKept;
    var r := Flipped(q);
    FlippedFields(q);
    forall x | x in r.obj && x !in r.tmudata ensures !Swept(r, x) {
      if r.obj[x].OpenUpval? { assert r.obj[x].thread in r.unswept; }
    }
    forall x | x in r.obj && r.obj[x].OpenUpval? ensures r.color[x] != Black {
      UpvalAfterClear(q, x);
    }
    hide Shape;
  }

  lemma FlippedFields(q: GState)
    requires Shape(q.(unswept := {}))
    ensures Shape(Flipped(q))
  {
    hide StringKept;
  }

  lemma NoBlackUpvals(q: GState)
    requires MarkingDone(q)
    ensures forall x :: x in q.obj && q.obj[x].OpenUpval? ==> q.color[x] != Black
  {
    forall x | x in q.obj && q.obj[x].OpenUpval? ensures q.color[x] != Black {
      assert x !in q.tmudata && !BlackOk(MarksOf(q), q.obj[x]);
    }
  }

  /** The atomic phase keeps the invariant. */
  lemma AtomicKeepsInv(s: GState, uvs: seq<Id>, sep: seq<Id>)
    requires Inv(s) && AtomicReady(s, uvs, sep)
    ensures Inv(Atomic(s, uvs, sep))
  {
    hide MarkInv, Shape, Sound, ColorInv, MarkingDone, MarkedFrom, NoDangling, ClearTables;
    var q := AllMarkedState(s, uvs, sep);
    assert TmuOk(s) by { ShapeTmu(s); }
    AllMarkedDone(s, uvs, sep);
    NoBlackUpvals(q);
    MarkedKeepsShape(s, q, sep);
    FlippedShape(q);
    MarkedRoots(s, q, sep);
    MarkedNoDangling(s, q, sep);
    FlippedSound(q);
  }

  lemma MarkedRoots(s: GState, q: GState, sep: seq<Id>)
    requires Sound(s) && ColorInv(s) && s.phase == Propagate && MarkedFrom(s, q, sep) && TmuOk(q)
    ensures forall x :: IsRoot(q, x) ==> x in q.obj
    ensures forall y :: y in q.obj && q.color[y].White? ==> q.color[y] == White(q.cur)
  {
    forall x | IsRoot(q, x) ensures x in q.obj {
      if x !in q.tmudata { assert IsRoot(s, x); }
    }
  }

  // ----- what the atomic phase keeps -----

  lemma {:induction false} StrongPathMarked(s: GState, q: GState, sep: seq<Id>, p: seq<Id>, k: nat)
    requires MarkedFrom(s, q, sep) && MarkingDone(q) && StrongRootPath(s, p) && k < |p|
    requires forall x :: IsRoot(q, x) ==> Marked(MarksOf(q), Ref(x))
    ensures Marked(MarksOf(q), Ref(p[k]))
    decreases k
  {
    if k == 0 {
      assert IsRoot(q, p[0]);
    } else {
      StrongPathMarked(s, q, sep, p, k - 1);
      var x := p[k - 1];
      CompactedEdges(s.obj, q.obj, s.modeKey, x, p[k]);
      assert StrongPoints(q.obj, q.modeKey, q.obj[x], p[k]);
      assert Settled(q, x);
    }
  }

  /** Every object that is strongly reachable when the atomic phase begins has been marked by its end. */
  lemma StrongMarked(s: GState, uvs: seq<Id>, sep: seq<Id>, x: Id)
    requires Inv(s) && AtomicReady(s, uvs, sep) && StronglyReachable(s, x)
    ensures Marked(MarksOf(AllMarkedState(s, uvs, sep)), Ref(x))
  {
    hide MarkInv, Shape, Sound, ColorInv, MarkingDone, MarkedFrom;
    var p :| StrongRootPath(s, p) && p[|p| - 1] == x;
    ShapeTmu(s);
    AllMarkedDone(s, uvs, sep);
    StrongPathMarked(s, AllMarkedState(s, uvs, sep), sep, p, |p| - 1);
  }

  /** So the sweep that follows will not free it. */
  lemma AtomicKeepsStrong(s: GState, uvs: seq<Id>, sep: seq<Id>, x: Id)
    requires Inv(s) && AtomicReady(s, uvs, sep) && StronglyReachable(s, x) && x in s.obj
    ensures Alive(Atomic(s, uvs, sep), x)
  {
    hide MarkInv, Shape, Sound, ColorInv;
    StrongMarked(s, uvs, sep, x);
    var q := AllMarkedState(s, uvs, sep);
    ShapeTmu(s);
    MarkingRelates(s, uvs, sep);
    MarkedRoots(s, q, sep);
    FlippedAlive(q, x);
  }

  /** A reference that `cleartable` must leave alone: not collectable, a string, or strongly reachable
      and not a userdata that gets finalized. */
  ghost predicate Retained(s: GState, q: GState, v: Value)
  {
    v.Ref? && v.id in s.obj && !s.obj[v.id].Str? ==>
      StronglyReachable(s, v.id) && !(s.obj[v.id].Udata? && v.id in q.finalized)
  }

  lemma RetainedNotCleared(s: GState, uvs: seq<Id>, sep: seq<Id>, v: Value)
    requires Inv(s) && AtomicReady(s, uvs, sep) && Retained(s, AllMarkedState(s, uvs, sep), v)
    ensures !ClearedValue(AllMarkedState(s, uvs, sep), v) && !ClearedKey(AllMarkedState(s, uvs, sep), Live(v))
  {
    hide MarkInv, Shape, Sound, ColorInv;
    if v.Ref? && v.id in s.obj && !s.obj[v.id].Str? { StrongMarked(s, uvs, sep, v.id); }
    ShapeTmu(s);
    MarkingRelates(s, uvs, sep);
  }

  lemma ClearKeepsEntry(q: GState, t: Id, n: Node)
    requires t in q.obj && q.obj[t].Table? && n in q.obj[t].nodes && !ClearedValue(q, n.val) && !ClearedKey(q, n.key)
    ensures var r := Flipped(q); t in r.obj && r.obj[t].Table? && n in r.obj[t].nodes
  {
    var i :| 0 <= i < |q.obj[t].nodes| && q.obj[t].nodes[i] == n;
    if t in q.weak {
      assert ClearTable(q, q.obj[t], t in q.weakVal).nodes[i] == n;
    }
  }

  lemma MarkingKeepsEntry(s: GState, uvs: seq<Id>, sep: seq<Id>, t: Id, n: Node)
    requires Inv(s) && AtomicReady(s, uvs, sep) && t in s.obj && s.obj[t].Table? && n in s.obj[t].nodes && n.val != Nil
    ensures var q := AllMarkedState(s, uvs, sep); t in q.obj && q.obj[t].Table? && n in q.obj[t].nodes
  {
    hide MarkInv, Shape, Sound, ColorInv;
    var q := AllMarkedState(s, uvs, sep);
    ShapeTmu(s);
    assert Compacted(s.obj, q.obj) by { MarkingRelates(s, uvs, sep); }
    if q.obj[t] != s.obj[t] { CompactedNode(s.obj[t], q.obj[t], n); }
  }

  /** Weak tables only lose entries whose key or value is gone. */
  lemma AtomicKeepsEntry(s: GState, uvs: seq<Id>, sep: seq<Id>, t: Id, n: Node)
    requires Inv(s) && AtomicReady(s, uvs, sep) && t in s.obj && s.obj[t].Table?
    requires n in s.obj[t].nodes && n.val != Nil
    requires Retained(s, AllMarkedState(s, uvs, sep), n.val)
    requires n.key.Live? ==> Retained(s, AllMarkedState(s, uvs, sep), n.key.v)
    ensures var r := Atomic(s, uvs, sep); t in r.obj && r.obj[t].Table? && n in r.obj[t].nodes
  {
    RetainedNotCleared(s, uvs, sep, n.val);
    if n.key.Live? { RetainedNotCleared(s, uvs, sep, n.key.v); }
    MarkingKeepsEntry(s, uvs, sep, t, n);
    ClearKeepsEntry(AllMarkedState(s, uvs, sep), t, n);
  }

  /** The array part of any table keeps every retained value; any other it keeps or makes nil. */
  lemma AtomicKeepsSlot(s: GState, uvs: seq<Id>, sep: seq<Id>, t: Id, i: nat)
    requires Inv(s) && AtomicReady(s, uvs, sep) && t in s.obj && s.obj[t].Table? && i < |s.obj[t].arr|
    ensures var v, r := s.obj[t].arr[i], Atomic(s, uvs, sep);
            t in r.obj && r.obj[t].Table? && |r.obj[t].arr| == |s.obj[t].arr| &&
            (Retained(s, AllMarkedState(s, uvs, sep), v) ==> r.obj[t].arr[i] == v) &&
            (r.obj[t].arr[i] == v || r.obj[t].arr[i] == Nil)
  {
    hide Inv, AtomicReady, AllMarkedState, Retained;
    var q := AllMarkedState(s, uvs, sep);
    if Retained(s, q, s.obj[t].arr[i]) { RetainedNotCleared(s, uvs, sep, s.obj[t].arr[i]); }
    MarkingKeepsArray(s, uvs, sep, t);
    hide StringKept;
  }

  lemma MarkingCompacts(s: GState, uvs: seq<Id>, sep: seq<Id>)
    requires Inv(s) && AtomicReady(s, uvs, sep)
    ensures Compacted(s.obj, AllMarkedState(s, uvs, sep).obj)
  {
    hide MarkInv, Sound, ColorInv, Compacted, AllMarkedState, RootsMarked, SeparationList;
    ShapeTmu(s);
    MarkingRelates(s, uvs, sep);
  }

  lemma MarkingKeepsArray(s: GState, uvs: seq<Id>, sep: seq<Id>, t: Id)
    requires Inv(s) && AtomicReady(s, uvs, sep) && t in s.obj && s.obj[t].Table?
    ensures var q := AllMarkedState(s, uvs, sep); t in q.obj && q.obj[t].Table? && q.obj[t].arr == s.obj[t].arr
  {
    hide Inv, AtomicReady, AllMarkedState;
    MarkingCompacts(s, uvs, sep);
  }

  /** Objects that are not tables are what they were. */
  lemma AtomicOthers(s: GState, uvs: seq<Id>, sep: seq<Id>, x: Id)
    requires Inv(s) && AtomicReady(s, uvs, sep) && x in s.obj && !s.obj[x].Table?
    ensures var r := Atomic(s, uvs, sep); x in r.obj && r.obj[x] == s.obj[x]
  {
    hide Inv, AtomicReady, AllMarkedState, StringKept, ClearTable;
    MarkingCompacts(s, uvs, sep);
  }
}
