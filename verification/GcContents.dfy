/** What is left of each object after a collection: weak tables lose exactly the entries that they must. */
module GcContents {
  import opened Seqs
  import opened LuaHeap
  import opened GcMark
  import opened GcTraverse
  import opened GcAtomic
  import opened GcClear
  import opened GcPhases
  import opened GcInvariant
  import opened GcAtomicInv
  import opened GcSweep
  import opened GcReach

  predicate WeakTable(s: GState, x: Id)
  {
    x in s.obj && s.obj[x].Table? && (IsWeak(s, x, 'k') || IsWeak(s, x, 'v'))
  }

  /** A value that a weak table keeps: it is not collectable, a string, or strongly reachable and not a userdata whose
      finalizer was called. */
  ghost predicate Stays(s: GState, v: Value)
  {
    v.Ref? && v.id in s.obj && !s.obj[v.id].Str? ==>
      StronglyReachable(s, v.id) && !(s.obj[v.id].Udata? && v.id in s.finalized)
  }

  /** A key that it keeps: such a userdata, too. */
  ghost predicate StaysKey(s: GState, k: Key)
  {
    k.Live? && k.v.Ref? && k.v.id in s.obj && !s.obj[k.v.id].Str? ==> StronglyReachable(s, k.v.id)
  }

  /** The entry `n` of a table is `n'` afterwards: empty if it was, or if the table is weak and its key or value
      goes. */
  ghost predicate NodeKept(s: GState, weak: bool, n: Node, n': Node)
  {
    if n.val == Nil || (weak && !(StaysKey(s, n.key) && Stays(s, n.val))) then n'.val == Nil else n' == n
  }

  ghost predicate TableKept(s: GState, x: Id, t: Obj)
    requires x in s.obj && s.obj[x].Table?
  {
    var was := s.obj[x];
    t.Table? && t.metatable == was.metatable && |t.arr| == |was.arr| && |t.nodes| == |was.nodes| &&
    (forall i :: 0 <= i < |was.arr| ==>
       t.arr[i] == if IsWeak(s, x, 'v') && !Stays(s, was.arr[i]) then Nil else was.arr[i]) &&
    (forall i :: 0 <= i < |was.nodes| ==> NodeKept(s, WeakTable(s, x), was.nodes[i], t.nodes[i]))
  }

  /** An open upvalue may have been closed, and then it has the value that it stood for. */
  predicate SameObject(h: Graph, o: Obj, o': Obj)
  {
    o' == o || (o.OpenUpval? && o' == ClosedUpval(UpvalValue(h, o)))
  }

  ghost predicate ObjectKept(s: GState, x: Id, o: Obj)
    requires x in s.obj
  {
    if s.obj[x].Table? then o.Table? && (x in Reach(s) ==> TableKept(s, x, o)) else SameObject(s.obj, s.obj[x], o)
  }

  ghost predicate Contents(s: GState, r: GState)
  {
    forall x :: x in r.obj ==> x in s.obj && ObjectKept(s, x, r.obj[x])
  }

  // ----- marking puts exactly the weak tables into their list -----

  /** Only weak tables are in the list of weak tables, and none of them is black. */
  ghost predicate WeakExact(s: GState)
  {
    (forall x :: x in s.weak ==> WeakTable(s, x)) &&
    forall x :: x in s.color && s.color[x] == Black ==> !WeakTable(s, x)
  }

  lemma SameWeak(s: GState, r: GState)
    requires r.obj == s.obj && r.modeKey == s.modeKey
    ensures forall x :: WeakTable(r, x) <==> WeakTable(s, x)
  {
  }

  /** Marking as such turns tables gray. */
  lemma MarksExact(s: GState, r: GState)
    requires WeakExact(s) && r.obj == s.obj && r.modeKey == s.modeKey && (r.weak == s.weak || r.weak == [])
    requires Extends(s.obj, MarksOf(s), MarksOf(r))
    ensures WeakExact(r)
  {
    SameWeak(s, r);
    forall x | x in r.color && r.color[x] == Black ensures !WeakTable(r, x) {
      if s.color[x].White? { assert JustMarked(r.obj, MarksOf(r), x); }
    }
  }

  lemma PropagateWeak(s: GState, x: Id)
    requires s.gray != [] && s.gray[0] in s.obj && Listed(s.obj[s.gray[0]]) && Progress(s, PropagateMark(s))
    ensures WeakTable(PropagateMark(s), x) <==> WeakTable(s, x)
  {
    hide IsWeak, MarkValues;
    if x in s.obj && s.obj[x].Table? {
      WeakUnchanged(s, PropagateMark(s), x, 'k');
      WeakUnchanged(s, PropagateMark(s), x, 'v');
    }
    hide PropagateMark;
  }

  lemma PropagateLists(s: GState, x: Id)
    requires s.gray != [] && s.gray[0] in s.obj && Listed(s.obj[s.gray[0]])
    ensures var o, r := s.gray[0], PropagateMark(s);
            (x in r.weak ==> x in s.weak || (x == o && WeakTable(s, o))) &&
            (WeakTable(s, o) && o in r.color ==> r.color[o] == Gray)
  {
    hide MarkValues, GrayRefs, IsWeak;
  }

  lemma PropagateExact(s: GState)
    requires Tricolor(s) && s.gray != [] && WeakExact(s)
    ensures s.gray[0] in s.obj && Listed(s.obj[s.gray[0]]) && WeakExact(PropagateMark(s))
  {
    hide MarkInv, Progress, WeakTable, PropagateMark;
    PropagateProgress(s);
    var o, r := s.gray[0], PropagateMark(s);
    forall x ensures WeakTable(r, x) <==> WeakTable(s, x) { PropagateWeak(s, x); }
    forall x | x in r.weak ensures WeakTable(r, x) { PropagateLists(s, x); }
    forall x | x in r.color && r.color[x] == Black ensures !WeakTable(r, x) {
      PropagateLists(s, x);
      if x != o { BlackOrNot(s, x); }
    }
  }

  /** An object that turns black without being traversed is not a table. */
  lemma BlackOrNot(s: GState, x: Id)
    requires Tricolor(s) && s.gray != [] && x != s.gray[0]
    ensures s.gray[0] in s.obj && Listed(s.obj[s.gray[0]])
    ensures var r := PropagateMark(s);
            x in r.color && r.color[x] == Black ==> (x in s.color && s.color[x] == Black) || !WeakTable(s, x)
  {
    hide Progress, PropagateMark, IsWeak;
    PropagateProgress(s);
    if x in s.obj && s.color[x] != Black { NewlyBlack(s, x); }
  }

  lemma {:induction false} PropagateAllExact(s: GState)
    requires Tricolor(s) && WeakExact(s)
    ensures WeakExact(PropagateAll(s))
    decreases Whites(MarksOf(s)), Elems(s.gray)
  {
    if s.gray != [] {
      PropagateShrinks(s);
      PropagateKeepsTricolor(s);
      PropagateExact(s);
      hide MarkInv, WeakExact, PropagateMark;
      PropagateAllExact(PropagateMark(s));
    }
  }

  lemma MarkRootExact(s: GState)
    requires AllWhite(s) && s.tmudata == [] && s.mainthread in s.obj && s.obj[s.mainthread].Thread?
    ensures WeakExact(MarkRoot(s))
  {
    var m := Marks(s.color, []);
    MarkValuesExtends(s.obj, m, RootValues(s));
    var q := s.(gray := [], weak := []);
    assert WeakExact(q);
    hide MarkValues, WeakTable;
    MarksExact(q, MarkRoot(s));
  }

  lemma RemarkedExact(s: GState, uvs: seq<Id>)
    requires Tricolor(s) && s.gray == [] && WeakExact(s)
    ensures WeakExact(Remarked(s, uvs))
  {
    RemarkUpvalsExtends(s.obj, MarksOf(s), uvs);
    hide WeakExact, RemarkUpvals;
    MarksExact(s, Remarked(s, uvs));
  }

  lemma WeakAgainExact(s: GState)
    requires Tricolor(s) && s.gray == [] && WeakExact(s)
    ensures WeakExact(WeakAgain(s))
  {
    var q := s.(gray := s.weak, weak := []);
    MarkValuesExtends(q.obj, MarksOf(q), [Ref(s.running)] + s.mt);
    SameWeak(s, q);
    assert WeakExact(q);
    hide WeakTable, MarkValues;
    MarksExact(q, WeakAgain(s));
  }

  lemma GrayAgainExact(s: GState)
    requires WeakExact(s)
    ensures WeakExact(GrayAgain(s))
  {
    SameWeak(s, GrayAgain(s));
  }

  lemma RootsExact(s: GState, uvs: seq<Id>)
    requires Tricolor(s) && s.gray == [] && UpvalList(s, uvs) && WeakExact(s)
    ensures WeakExact(RootsMarked(s, uvs))
  {
    hide MarkInv, PropagateAll, Progress, Stage, WeakExact, UpvalList;
    RemarkedExact(s, uvs);
    RemarkedTricolor(s, uvs);
    PropagateAllExact(Remarked(s, uvs));
    FirstStage(s, uvs);
    var q := PropagateAll(Remarked(s, uvs));
    WeakAgainTricolor(q);
    WeakAgainExact(q);
    PropagateAllExact(WeakAgain(q));
    var p := PropagateAll(WeakAgain(q));
    GrayAgainTricolor(p);
    GrayAgainExact(p);
    PropagateAllExact(GrayAgain(p));
  }

  lemma RemarkedTricolor(s: GState, uvs: seq<Id>)
    requires Tricolor(s) && s.gray == [] && UpvalList(s, uvs)
    ensures Tricolor(Remarked(s, uvs))
  {
    hide Stage, Progress, RemarkUpvals;
    RemarkedStage(s, uvs);
  }

  // ----- the atomic phase -----

  /** Marking from `s` is over in `q`, and no userdata waits. */
  ghost predicate Ended(s: GState, q: GState)
  {
    Compacted(s.obj, q.obj) && q.modeKey == s.modeKey && WeakExact(q) && MarkingDone(q) && q.tmudata == [] &&
    (forall x :: x in q.obj ==> x in q.color && (q.color[x].White? <==> x !in Reach(s))) &&
    (forall x :: x in Reach(s) ==> (x in q.finalized <==> x in s.finalized))
  }

  lemma ClearedIff(s: GState, q: GState, v: Value)
    requires Ended(s, q)
    ensures ClearedValue(q, v) <==> !Stays(s, v)
    ensures ClearedKey(q, Live(v)) <==> !StaysKey(s, Live(v))
  {
    hide WeakExact, MarkingDone, StronglyReachable;
    if v.Ref? && v.id in q.obj { assert v.id in Reach(s) <==> StronglyReachable(s, v.id); }
  }

  lemma CompactedWeak(s: GState, q: GState, x: Id)
    requires Compacted(s.obj, q.obj) && q.modeKey == s.modeKey && x in s.obj && s.obj[x].Table?
    ensures x in q.obj && q.obj[x].Table? && (WeakTable(q, x) <==> WeakTable(s, x))
    ensures IsWeak(q, x, 'v') <==> IsWeak(s, x, 'v')
  {
    hide HasMode;
    CompactedMode(s.obj, q.obj, q.modeKey, q.obj[x].metatable, 'k');
    CompactedMode(s.obj, q.obj, q.modeKey, q.obj[x].metatable, 'v');
  }

  /** A table that was marked is in the list of weak tables exactly if it is one, with the bit that says so. */
  lemma ListedIff(s: GState, q: GState, x: Id)
    requires Ended(s, q) && x in Reach(s) && x in q.obj && q.obj[x].Table?
    ensures x in q.weak <==> WeakTable(q, x)
    ensures x in q.weak ==> (x in q.weakVal <==> IsWeak(q, x, 'v'))
  {
    hide Reach, Compacted, WeakTable, Stage, BlackInv, ListInv;
    if WeakTable(q, x) {
      assert q.color[x] == Gray;
      assert x !in Elems(q.tmudata) && x !in q.grayagain;
    }
  }

  lemma ClearedNode(s: GState, q: GState, n: Node, n1: Node)
    requires Ended(s, q) && NodeCompacted(n, n1)
    ensures NodeKept(s, true, n, ClearNode(q, n1)) && NodeKept(s, false, n, n1)
  {
    hide Ended, ClearedValue, ClearedKey, Stays;
    ClearedIff(s, q, n1.val);
    if n1.key.Live? { ClearedIff(s, q, n1.key.v); }
    hide StaysKey;
    DeadKey(s, q);
  }

  lemma DeadKey(s: GState, q: GState)
    ensures StaysKey(s, Dead) && !ClearedKey(q, Dead)
  {
  }

  lemma ClearedTable(s: GState, q: GState, x: Id)
    requires Ended(s, q) && x in Reach(s) && x in s.obj && s.obj[x].Table?
    ensures x in ClearTables(q).obj && TableKept(s, x, ClearTables(q).obj[x])
  {
    hide Reach, Stays, ClearedValue, NodeKept, ClearNode, WeakTable, IsWeak, MarkingDone, WeakExact;
    CompactedWeak(s, q, x);
    ListedIff(s, q, x);
    var was, t, r := s.obj[x], q.obj[x], ClearTables(q).obj[x];
    assert t.metatable == was.metatable && t.arr == was.arr && |t.nodes| == |was.nodes|;
    assert r == if x in q.weak then ClearTable(q, t, x in q.weakVal) else t;
    WeakValue(s, x);
    forall i | 0 <= i < |was.arr|
      ensures r.arr[i] == if IsWeak(s, x, 'v') && !Stays(s, was.arr[i]) then Nil else was.arr[i]
    {
      ClearedIff(s, q, was.arr[i]);
    }
    forall i | 0 <= i < |was.nodes| ensures NodeKept(s, WeakTable(s, x), was.nodes[i], r.nodes[i]) {
      assert NodeCompacted(was.nodes[i], t.nodes[i]);
      ClearedNode(s, q, was.nodes[i], t.nodes[i]);
    }
  }

  lemma WeakValue(s: GState, x: Id)
    requires x in s.obj && s.obj[x].Table?
    ensures IsWeak(s, x, 'v') ==> WeakTable(s, x)
  {
  }

  lemma ClearContents(s: GState, q: GState)
    requires Ended(s, q)
    ensures Contents(s, ClearTables(q))
  {
    var r := ClearTables(q);
    forall x | x in r.obj ensures x in s.obj && ObjectKept(s, x, r.obj[x]) {
      if s.obj[x].Table? {
        if x in Reach(s) { ClearedTable(s, q, x); }
        hide TableKept, Reach;
      }
    }
  }

  /** What the atomic phase of an uninterrupted cycle starts from. */
  ghost predicate Marking(s0: GState, s: GState)
  {
    SameRefs(s0, s) && MarkedReach(s0, s) && s.tmudata == [] && s.fixed == s0.fixed && s.gcKey == s0.gcKey &&
    s.finalized == s0.finalized && WeakExact(s)
  }

  lemma EndedFinalized(s: GState, uvs: seq<Id>)
    requires s.tmudata == [] && Advanced(s, RootsMarked(s, uvs)) && RootsMarked(s, uvs).gray == []
    ensures var q := AllMarkedState(s, uvs, []);
            q == RootsMarked(s, uvs).(finalized := q.finalized) && s.finalized <= q.finalized &&
            forall x :: x in q.finalized && x !in s.finalized ==> x in q.color && q.color[x].White?
  {
    hide RootsMarked;
    var s7 := RootsMarked(s, uvs);
    var s8 := Separate(s7, []);
    assert s8.tmudata == [] && TmuMarked(s8) == s8;
  }

  lemma EndedMarks(s0: GState, s: GState, uvs: seq<Id>)
    requires AllInGraph(s0) && Marking(s0, s) && Inv(s) && AtomicReady(s, uvs, [])
    ensures var q := AllMarkedState(s, uvs, []);
            q.color.Keys == q.obj.Keys && q.obj.Keys == s0.obj.Keys &&
            forall x :: x in q.obj ==> (q.color[x].White? <==> x !in Reach(s0))
  {
    hide MarkInv, Sound, ColorInv, AllInGraph, SameRefs, MarkedReach, Progress, StronglyReachable;
    var q, s7 := AllMarkedState(s, uvs, []), RootsMarked(s, uvs);
    ShapeTmu(s);
    RootsMarkedTmu(s, uvs);
    NoTmuMarks(s, uvs);
    RootsMarkedReach(s0, s, uvs);
    SameKeys(s0, s7);
    ReachWithin(s0, s7, q);
    forall x | x in q.obj && x in Reach(s0) ensures !q.color[x].White? { EndedReached(s0, s, uvs, x); }
  }

  lemma ReachWithin(s0: GState, s7: GState, q: GState)
    requires MarkedReach(s0, s7) && q.obj == s7.obj && q.color == s7.color
    ensures q.color.Keys == q.obj.Keys && forall x :: x in q.obj && !q.color[x].White? ==> x in Reach(s0)
  {
    hide Reach;
  }

  lemma EndedReached(s0: GState, s: GState, uvs: seq<Id>, x: Id)
    requires SameRefs(s0, s) && Inv(s) && AtomicReady(s, uvs, []) && x in Reach(s0)
    ensures var q := AllMarkedState(s, uvs, []); x in q.color ==> !q.color[x].White?
  {
    hide Inv, AtomicReady, SameRefs, AllMarkedState;
    var p :| StrongRootPath(s0, p) && p[|p| - 1] == x;
    SamePath(s0, s, p);
    StrongMarked(s, uvs, [], x);
  }

  lemma EndedRefs(s0: GState, s: GState, uvs: seq<Id>)
    requires SameRefs(s0, s) && Tricolor(s) && s.gray == [] && UpvalList(s, uvs) && s.tmudata == []
    ensures var q, s7 := AllMarkedState(s, uvs, []), RootsMarked(s, uvs);
            q == s7.(finalized := q.finalized) && Compacted(s0.obj, q.obj) && q.modeKey == s0.modeKey &&
            q.tmudata == [] &&
            s.finalized <= q.finalized &&
            forall x :: x in q.finalized && x !in s.finalized ==> x in q.color && q.color[x].White?
  {
    hide MarkInv, Compacted;
    RootsMarkedTmu(s, uvs);
    RootsMarkedAdvanced(s, uvs);
    EndedFinalized(s, uvs);
    CompactedTransitive(s0.obj, s.obj, RootsMarked(s, uvs).obj);
  }

  lemma EndedDone(s: GState, uvs: seq<Id>)
    requires Inv(s) && AtomicReady(s, uvs, []) && WeakExact(s)
    ensures MarkingDone(AllMarkedState(s, uvs, [])) && WeakExact(RootsMarked(s, uvs))
  {
    hide MarkInv, Sound, ColorInv, WeakExact;
    ShapeTmu(s);
    MarkingEnds(s, uvs, []);
    RootsExact(s, uvs);
  }

  lemma AtomicParts(s: GState, uvs: seq<Id>)
    requires Inv(s) && AtomicReady(s, uvs, [])
    ensures Tricolor(s) && s.gray == [] && UpvalList(s, uvs)
  {
    hide MarkInv, Sound, ColorInv, Shape;
  }

  lemma AtomicEnded(s0: GState, s: GState, uvs: seq<Id>)
    requires AllInGraph(s0) && Marking(s0, s) && Inv(s) && AtomicReady(s, uvs, [])
    ensures Ended(s0, AllMarkedState(s, uvs, []))
  {
    hide Inv, Tricolor, AtomicReady, UpvalList, AllInGraph, MarkedReach, SameRefs, WeakExact, MarkingDone, Reach,
         Compacted, AllMarkedState, RootsMarked;
    AtomicParts(s, uvs);
    EndedMarks(s0, s, uvs);
    EndedRefs(s0, s, uvs);
    EndedDone(s, uvs);
    SameExact(RootsMarked(s, uvs), AllMarkedState(s, uvs, []));
    ReachIn(s0);
  }

  lemma ReachIn(s: GState)
    ensures Reach(s) <= s.obj.Keys
  {
  }

  lemma SameExact(s: GState, r: GState)
    requires WeakExact(s) && r.obj == s.obj && r.modeKey == s.modeKey && r.weak == s.weak && r.color == s.color
    ensures WeakExact(r)
  {
    SameWeak(s, r);
  }

  lemma AtomicContents(s0: GState, s: GState, uvs: seq<Id>)
    requires AllInGraph(s0) && Marking(s0, s) && Inv(s) && AtomicReady(s, uvs, [])
    ensures Contents(s0, Atomic(s, uvs, []))
  {
    hide Inv, AllInGraph, Marking, AtomicReady, AllMarkedState, Ended, ClearTables, ObjectKept;
    AtomicEnded(s0, s, uvs);
    ClearContents(s0, AllMarkedState(s, uvs, []));
  }

  // ----- the sweep -----

  /** A sweep step changes no object that it leaves, but for open upvalues, which it may close. */
  lemma SweptObject(s: GState, x: Id, requeue: bool, y: Id)
    requires Shape(s) && x in s.unswept && y in SweepOne(s, x, requeue).obj
    ensures y in s.obj && SameObject(s.obj, s.obj[y], SweepOne(s, x, requeue).obj[y])
  {
  }

  lemma SweepContents(s0: GState, s: GState, x: Id, requeue: bool)
    requires Contents(s0, s) && Shape(s) && x in s.unswept
    ensures Contents(s0, SweepOne(s, x, requeue))
  {
    var r := SweepOne(s, x, requeue);
    hide SweepOne, TableKept, Reach;
    forall y | y in r.obj ensures y in s0.obj && ObjectKept(s0, y, r.obj[y]) {
      SweptObject(s, x, requeue, y);
      if s.obj[y].OpenUpval? { assert ObjectKept(s0, s.obj[y].thread, s.obj[s.obj[y].thread]); }
    }
  }

  lemma SameContents(s0: GState, s: GState, r: GState)
    requires Contents(s0, s) && r.obj == s.obj
    ensures Contents(s0, r)
  {
    hide ObjectKept;
  }

  /** Everything in `r` was in `s` and has its contents: tables as `TableKept` says, and open upvalues may be closed. */
  ghost predicate Survives(s: GState, r: GState)
  {
    forall x :: x in r.obj ==> x in s.obj && Kept(s, x, r.obj[x])
  }

  ghost predicate Kept(s: GState, x: Id, o: Obj)
    requires x in s.obj
  {
    if s.obj[x].Table? then TableKept(s, x, o) else SameObject(s.obj, s.obj[x], o)
  }
}
