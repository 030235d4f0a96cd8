/** The invariant of the collector, and that the mark phase keeps it. */
module GcInvariant {
  import opened LuaHeap
  import opened GcMark
  import opened GcTraverse
  import opened GcAtomic
  import opened GcPhases

  /** The fields are consistent with each other. */
  ghost predicate Shape(s: GState)
  {
    s.color.Keys == s.obj.Keys && s.unswept <= s.obj.Keys && TmuOk(s) &&
    (forall u :: u in s.obj && s.obj[u].OpenUpval? ==>
       s.obj[u].thread in s.obj && s.obj[s.obj[u].thread].Thread? &&
       s.obj[u].slot < |s.obj[s.obj[u].thread].stack|) &&
    (forall x :: x in s.obj && x in s.fixed ==> s.obj[x].Str? || x == s.mainthread) &&
    (forall x :: x in s.unswept ==> !s.obj[x].OpenUpval? && x !in s.tmudata) &&
    s.mainthread in s.obj && s.obj[s.mainthread].Thread? &&
    s.running in s.obj && s.obj[s.running].Thread?
  }

  lemma ShapeTmu(s: GState)
    requires Shape(s)
    ensures TmuOk(s)
  {
  }

  /** The heart of the matter: the roots are alive, and a live object refers to live objects only. */
  ghost predicate Sound(s: GState)
  {
    (forall x :: IsRoot(s, x) ==> Alive(s, x)) &&
    (forall x, c :: Alive(s, x) && Points(s.obj, s.obj[x], c) ==> Alive(s, c))
  }

  /** What the sweep has passed: an open upvalue is swept with its thread. */
  predicate Swept(s: GState, x: Id)
    requires x in s.obj
  {
    if s.obj[x].OpenUpval? then s.obj[x].thread !in s.unswept else x !in s.unswept
  }

  ghost predicate SweepColors(s: GState)
    requires s.color.Keys == s.obj.Keys
  {
    (forall x :: x in s.obj && x !in s.tmudata && Swept(s, x) ==> s.color[x] == White(s.cur)) &&
    (forall x :: x in s.obj && s.obj[x].OpenUpval? ==> s.color[x] != Black)
  }

  /** Colours by phase.  Swept objects carry the current white; while marking, no object is dead. */
  ghost predicate ColorInv(s: GState)
  {
    s.color.Keys == s.obj.Keys &&
    match s.phase
    case Propagate =>
      s.unswept == {} && forall x :: x in s.obj ==> s.color[x] != White(!s.cur)
    case SweepString => SweepColors(s)
    case Sweep => SweepColors(s) && forall x :: x in s.unswept && x in s.obj ==> !s.obj[x].Str?
    case _ =>
      s.unswept == {} && forall x :: x in s.obj && x !in s.tmudata ==> s.color[x] == White(s.cur)
  }

  /** The keys of a black table, also those of empty entries, name existing objects. */
  ghost predicate HeldKeys(s: GState)
  {
    s.color.Keys == s.obj.Keys &&
    forall x, c :: x in s.obj && s.color[x] == Black && HoldsKey(s.obj[x], c) ==> c in s.obj
  }

  /** What holds while marking. */
  ghost predicate MarkPhase(s: GState)
  {
    Tricolor(s) && HeldKeys(s) && Marked(MarksOf(s), Ref(s.mainthread)) && Marked(MarksOf(s), Ref(s.registry))
  }

  ghost predicate Inv(s: GState)
  {
    Shape(s) && Sound(s) && ColorInv(s) && (s.phase == Propagate ==> MarkPhase(s))
  }

  // ----- consequences -----

  lemma {:induction false} PathAlive(s: GState, p: seq<Id>, k: nat)
    requires Sound(s) && RootPath(s, p) && k < |p|
    ensures Alive(s, p[k])
    decreases k
  {
    if k > 0 { PathAlive(s, p, k - 1); }
  }

  /** Whatever a program can get hold of is alive. */
  lemma AccessibleAlive(s: GState, x: Id)
    requires Sound(s) && Accessible(s, x)
    ensures Alive(s, x)
  {
    var p :| RootPath(s, p) && p[|p| - 1] == x;
    PathAlive(s, p, |p| - 1);
  }

  /** Soundness depends on the references, the roots, and which objects are alive. */
  lemma SoundCarries(s: GState, r: GState)
    requires Sound(s) && r.obj == s.obj && forall x :: Alive(r, x) <==> Alive(s, x)
    requires r.mainthread == s.mainthread && r.running == s.running && r.registry == s.registry
    requires r.mt == s.mt && r.tmudata == s.tmudata
    ensures Sound(r)
  {
    assert forall x :: IsRoot(r, x) <==> IsRoot(s, x);
  }

  lemma StrongIsPoint(h: Graph, modeKey: Id, o: Obj, c: Id)
    requires StrongPoints(h, modeKey, o, c)
    ensures Points(h, o, c)
  {
    if o.Table? {
      forall n, wk, wv | StrongNode(n, wk, wv, c) ensures NodePoints(n, c) {}
    }
  }

  // ----- the mark phase -----

  lemma MarkRootSound(s: GState)
    requires Sound(s) && Shape(s) && ColorInv(s) && s.phase in {Pause, Finalize}
    ensures Sound(MarkRoot(s)) && Shape(MarkRoot(s)) && ColorInv(MarkRoot(s))
  {
    var r := MarkRoot(s);
    MarkValuesGrows(s.obj, Marks(s.color, []), RootValues(s));
    forall x | x in r.obj ensures r.color[x] != White(!r.cur) {
      if x in s.tmudata { assert IsRoot(s, x); }
    }
    forall x | IsRoot(r, x) ensures Alive(r, x) { assert IsRoot(s, x); }
    forall x, c | Alive(r, x) && Points(r.obj, r.obj[x], c) ensures Alive(r, c) { assert Alive(s, c); }
  }

  lemma MarkRootKeys(s: GState)
    requires AllWhite(s) && TmuOk(s) && s.mainthread in s.obj && s.obj[s.mainthread].Thread?
    ensures HeldKeys(MarkRoot(s))
  {
    var r := MarkRoot(s);
    MarkValuesExtends(s.obj, Marks(s.color, []), RootValues(s));
    forall x | x in r.obj && r.color[x] == Black ensures !r.obj[x].Table? {
      if x !in s.tmudata { assert JustMarked(r.obj, MarksOf(r), x); }
    }
  }

  lemma MarkRootKeepsInv(s: GState)
    requires Inv(s) && s.phase in {Pause, Finalize}
    ensures Inv(MarkRoot(s))
  {
    assert AllWhite(s);
    MarkRootSound(s);
    MarkRootTricolor(s);
    MarkRootKeys(s);
    hide Sound, Shape, ColorInv, Tricolor, HeldKeys;
    var r := MarkRoot(s);
    assert Ref(s.mainthread) in RootValues(s) && Ref(s.registry) in RootValues(s);
    assert MarkPhase(r);
  }

  lemma ProgressKeepsColors(s: GState, r: GState)
    requires Progress(s, r) && ColorInv(s) && s.phase == Propagate && Shape(s)
    requires Marked(MarksOf(s), Ref(s.mainthread)) && Marked(MarksOf(s), Ref(s.registry))
    ensures ColorInv(r) && r.phase == Propagate
    ensures Marked(MarksOf(r), Ref(r.mainthread)) && Marked(MarksOf(r), Ref(r.registry))
  {
  }

  lemma PropagateKeepsInv(s: GState)
    requires Inv(s) && s.phase == Propagate && s.gray != []
    ensures s.gray[0] in s.obj && Listed(s.obj[s.gray[0]]) && s.color[s.gray[0]] == Gray
    ensures Inv(PropagateMark(s))
  {
    hide MarkInv, Shape, Sound, ColorInv, HeldKeys, Progress;
    PropagateKeepsTricolor(s);
    var r := PropagateMark(s);
    PropagateProgress(s);
    PropagateKeepsKeys(s);
    ProgressKeepsShape(s, r);
    ProgressKeepsSound(s, r);
    ProgressKeepsColors(s, r);
  }

  lemma NewlyBlack(s: GState, x: Id)
    requires Tricolor(s) && s.gray != [] && x in s.obj && x != s.gray[0] && s.color[x] != Black
    ensures s.gray[0] in s.obj && Listed(s.obj[s.gray[0]])
    ensures x in PropagateMark(s).color && PropagateMark(s).color[x] == Black ==> !s.obj[x].Table?
  {
    var o, r := s.gray[0], PropagateMark(s);
    MarkValuesExtends(r.obj, Popped(s), GrayRefs(s, o));
    if r.color[x] == Black {
      assert JustMarked(r.obj, MarkValues(r.obj, Popped(s), GrayRefs(s, o)), x);
    }
  }

  lemma TraversedKeys(s: GState, o: Id, c: Id)
    requires o in s.obj && s.obj[o].Table? && !(IsWeak(s, o, 'k') && IsWeak(s, o, 'v')) && HoldsKey(Swabbed(s, o)[o], c)
    ensures Points(s.obj, s.obj[o], c)
  {
    var nodes := Swabbed(s, o)[o].nodes;
    var i :| 0 <= i < |nodes| && nodes[i].key == Live(Ref(c));
    var n := s.obj[o].nodes[i];
    assert n in s.obj[o].nodes && NodePoints(n, c);
  }

  lemma TraversedInGraph(s: GState, c: Id)
    requires Sound(s) && ColorInv(s) && s.phase == Propagate && Tricolor(s) && s.gray != []
    ensures s.gray[0] in s.obj && Listed(s.obj[s.gray[0]])
    ensures var o, r := s.gray[0], PropagateMark(s);
            o in r.color && r.color[o] == Black && o in r.obj && HoldsKey(r.obj[o], c) ==> c in s.obj
  {
    var o, r := s.gray[0], PropagateMark(s);
    PropagateColors(s);
    if r.color[o] == Black && HoldsKey(r.obj[o], c) {
      TraversedKeys(s, o, c);
      assert Alive(s, o) && Points(s.obj, s.obj[o], c);
      assert Alive(s, c);
    }
  }

  lemma OthersSame(s: GState)
    requires s.gray != [] && s.gray[0] in s.obj && Listed(s.obj[s.gray[0]])
    ensures var r := PropagateMark(s);
            r.obj.Keys == s.obj.Keys && forall x :: x in s.obj && x != s.gray[0] ==> r.obj[x] == s.obj[x]
  {
    hide MarkValues, GrayRefs;
  }

  lemma PropagateKeepsKeys(s: GState)
    requires Sound(s) && ColorInv(s) && s.phase == Propagate && HeldKeys(s) && Tricolor(s) && s.gray != []
    ensures s.gray[0] in s.obj && Listed(s.obj[s.gray[0]]) && HeldKeys(PropagateMark(s))
  {
    PropagateProgress(s);
    var o, r := s.gray[0], PropagateMark(s);
    PropagateColors(s);
    OthersSame(s);
    hide MarkInv, Sound, MarkValues, Progress, PropagateMark, ColorInv;
    forall x, c | x in r.obj && r.color[x] == Black && HoldsKey(r.obj[x], c)
      ensures c in r.obj
    {
      if x == o {
        TraversedInGraph(s, c);
      } else if s.color[x] != Black {
        NewlyBlack(s, x);
      }
    }
  }

  lemma ProgressKeepsShape(s: GState, r: GState)
    requires Shape(s) && Progress(s, r)
    ensures Shape(r)
  {
  }

  lemma ProgressKeepsSound(s: GState, r: GState)
    requires Sound(s) && s.phase == Propagate && ColorInv(s) && Progress(s, r)
    ensures Sound(r)
  {
    forall x | IsRoot(r, x) ensures Alive(r, x) { assert IsRoot(s, x); }
    forall x, c | Alive(r, x) && Points(r.obj, r.obj[x], c)
      ensures Alive(r, c)
    {
      CompactedEdges(s.obj, r.obj, s.modeKey, x, c);
      assert Alive(s, x) && Alive(s, c);
    }
  }
}
