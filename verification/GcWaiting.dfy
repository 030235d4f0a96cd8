/** Two userdata that wait for their finalizers, and what the collector's assertions say when one of them is written. */
module GcWaiting {
  import opened LuaHeap
  import opened GcMark
  import opened GcTraverse
  import opened GcAtomic
  import opened GcClear
  import opened GcPhases
  import opened GcInvariant
  import opened GcAtomicInv
  import opened GcSweep
  import opened GcMutator
  import opened GcRun

  // ----- marking, one reference at a time -----

  lemma MarkFirst(h: Graph, m: Marks, v: Value, rest: seq<Value>, vs: seq<Value>, m1: Marks)
    requires vs == [v] + rest && MarkValue(h, m, v) == m1
    ensures MarkValues(h, m, vs) == MarkValues(h, m1, rest)
  {
    assert vs[0] == v && vs[1..] == rest;
  }

  lemma MarkNothing(h: Graph, m: Marks, v: Value)
    requires v.Ref? ==> v.id in m.color && !m.color[v.id].White?
    ensures MarkValue(h, m, v) == m
  {
  }

  lemma MarkListed(h: Graph, m: Marks, o: Id)
    requires o in h && o in m.color && m.color[o].White? && Listed(h[o])
    ensures MarkValue(h, m, Ref(o)) == Marks(m.color[o := Gray], [o] + m.gray)
  {
  }

  lemma MarkString(h: Graph, m: Marks, o: Id)
    requires o in h && o in m.color && m.color[o].White? && h[o].Str?
    ensures MarkValue(h, m, Ref(o)) == Marks(m.color[o := Gray], m.gray)
  {
  }

  // ----- the state to start from -----

  /** The main thread 0, a table 1 for globals and registry, userdata 2 and 3 that nothing refers to, their metatable 4
      with a `__gc` method, which also holds userdata 3, and the strings 5 and 6. */
  function Heap(): Graph
  {
    map[0 := Thread(Ref(1), []), 1 := Table(Nil, [], []), 2 := Udata(Ref(4), Ref(1)), 3 := Udata(Ref(4), Ref(1)),
        4 := Table(Nil, [Ref(3)], [Node(Live(Ref(5)), Prim(1))]), 5 := Str("__gc"), 6 := Str("__mode")]
  }

  lemma HeapIs()
    ensures Heap().Keys == {0, 1, 2, 3, 4, 5, 6}
    ensures Heap()[0] == Thread(Ref(1), []) && Heap()[1] == Table(Nil, [], [])
    ensures Heap()[2] == Heap()[3] == Udata(Ref(4), Ref(1))
    ensures Heap()[4] == Table(Nil, [Ref(3)], [Node(Live(Ref(5)), Prim(1))])
    ensures Heap()[5] == Str("__gc") && Heap()[6] == Str("__mode")
  {
  }

  /** The colours of the seven objects. */
  function Colors(c: seq<Color>): map<Id, Color>
  {
    map i: nat | i < |c| :: c[i]
  }

  lemma ColorsAre(c: seq<Color>)
    requires |c| == 7
    ensures Colors(c).Keys == {0, 1, 2, 3, 4, 5, 6}
    ensures forall i :: 0 <= i < 7 ==> Colors(c)[i] == c[i]
  {
  }

  lemma ColorsSet(c: seq<Color>, i: nat, x: Color, d: seq<Color>)
    requires i < |c| && d == c[i := x]
    ensures Colors(c)[i := x] == Colors(d)
  {
  }

  const W: Color := White(false)
  const X: Color := White(true)

  function At(c: seq<Color>, gray: seq<Id>, grayagain: seq<Id>, phase: Phase): GState
  {
    GState(Heap(), Colors(c), {5, 6}, {}, {}, {}, false, phase, gray, grayagain, [], {}, [], 0, 0, 1, [], 6, 5)
  }

  function Start(): GState
  {
    At([W, W, W, W, W, W, W], [], [], Pause)
  }

  lemma HeapPoints(x: Id, c: Id)
    requires x in Heap() && Points(Heap(), Heap()[x], c)
    ensures c in {1, 3, 4, 5}
  {
    HeapIs();
    hide Heap;
    if x == 4 {
      var n := Node(Live(Ref(5)), Prim(1));
      assert forall k :: k in [n] ==> k == n;
    }
  }

  lemma HeapKind(x: Id)
    requires x in Heap()
    ensures x in {0, 1, 2, 3, 4, 5, 6} && !Heap()[x].OpenUpval? && (Heap()[x].Str? <==> x in {5, 6})
    ensures (Heap()[x].Udata? <==> x in {2, 3}) && (Heap()[x].Thread? <==> x == 0)
  {
    HeapIs();
    hide Heap;
  }

  lemma HeapHas()
    ensures forall x :: x in {0, 1, 2, 3, 4, 5, 6} ==> x in Heap()
  {
    HeapIs();
    hide Heap;
  }

  lemma StartColors()
    ensures var s := Start(); s.color.Keys == s.obj.Keys && forall x :: x in s.obj ==> s.color[x] == White(s.cur)
  {
    HeapIs();
    ColorsAre([W, W, W, W, W, W, W]);
    hide Heap, Colors;
  }

  lemma StartShape()
    ensures Shape(Start())
  {
    StartColors();
    HeapHas();
    hide Heap, Colors;
    forall x | x in Heap()
      ensures !Heap()[x].OpenUpval? && (x in {5, 6} ==> Heap()[x].Str?) && (x == 0 ==> Heap()[x].Thread?)
    {
      HeapKind(x);
    }
  }

  lemma StartInitial()
    ensures Initial(Start())
  {
    StartShape();
    StartColors();
    HeapHas();
    hide Heap, Colors, Points, Shape;
    var s := Start();
    forall x, c | x in s.obj && Points(s.obj, s.obj[x], c) ensures c in s.obj { HeapPoints(x, c); }
  }

  // ----- the mark phase -----

  function Rooted(): GState
  {
    At([Gray, Gray, W, W, W, W, W], [1, 0], [], Propagate)
  }

  /** Marking in this heap, in terms of the colours. */
  lemma MarksListed(c: seq<Color>, gray: seq<Id>, o: Id, d: seq<Color>)
    requires |c| == 7 && o in {0, 1, 4} && c[o].White? && d == c[o := Gray]
    ensures MarkValue(Heap(), Marks(Colors(c), gray), Ref(o)) == Marks(Colors(d), [o] + gray)
  {
    HeapIs();
    ColorsAre(c);
    ColorsSet(c, o, Gray, d);
    hide Heap, Colors;
    MarkListed(Heap(), Marks(Colors(c), gray), o);
  }

  lemma MarksNothing(c: seq<Color>, gray: seq<Id>, o: Id)
    requires |c| == 7 && o < 7 && !c[o].White?
    ensures MarkValue(Heap(), Marks(Colors(c), gray), Ref(o)) == Marks(Colors(c), gray)
  {
    ColorsAre(c);
    hide Heap, Colors;
    MarkNothing(Heap(), Marks(Colors(c), gray), Ref(o));
  }

  lemma RootMarks(c: seq<Color>, d: seq<Color>, e: seq<Color>)
    requires |c| == 7 && c[0].White? && c[1].White? && d == c[0 := Gray] && e == d[1 := Gray]
    ensures MarkValues(Heap(), Marks(Colors(c), []), [Ref(0), Ref(1), Ref(1)]) == Marks(Colors(e), [1, 0])
  {
    var h, m0, m1, m2 := Heap(), Marks(Colors(c), []), Marks(Colors(d), [0]), Marks(Colors(e), [1, 0]);
    hide MarkValue, Heap, Colors;
    MarksListed(c, [], 0, d);
    MarksListed(d, [0], 1, e);
    MarksNothing(e, [1, 0], 1);
    MarkFirst(h, m0, Ref(0), [Ref(1), Ref(1)], [Ref(0), Ref(1), Ref(1)], m1);
    MarkFirst(h, m1, Ref(1), [Ref(1)], [Ref(1), Ref(1)], m2);
    MarkFirst(h, m2, Ref(1), [], [Ref(1)], m2);
  }

  lemma StartRooted()
    ensures Enabled(Start(), StartCycle) && Apply(Start(), StartCycle) == Rooted()
  {
    HeapIs();
    RootMarks([W, W, W, W, W, W, W], [Gray, W, W, W, W, W, W], [Gray, Gray, W, W, W, W, W]);
    hide Heap, Colors, MarkValues;
    assert RootValues(Start()) == [Ref(0), Ref(1), Ref(1)];
  }

  function Half(): GState
  {
    At([Gray, Black, W, W, W, W, W], [0], [], Propagate)
  }

  lemma NotWeak(s: GState, o: Id)
    requires o in s.obj && s.obj[o].Table? && s.obj[o].metatable == Nil
    ensures !IsWeak(s, o, 'k') && !IsWeak(s, o, 'v')
  {
  }

  lemma RootedHalf()
    ensures Enabled(Rooted(), PropagateOne) && Apply(Rooted(), PropagateOne) == Half()
  {
    var s, c, d := Rooted(), [Gray, Gray, W, W, W, W, W], [Gray, Black, W, W, W, W, W];
    var m := Marks(Colors(d), [0]);
    HeapIs();
    ColorsAre(c);
    ColorsAre(d);
    ColorsSet(c, 1, Black, d);
    NotWeak(s, 1);
    hide Heap, Colors, IsWeak;
    assert RemoveEmpty([]) == [];
    assert s.obj[1 := Table(Nil, [], [])] == s.obj;
    assert Swabbed(s, 1) == s.obj && s.gray[1..] == [0] && Popped(s) == m;
    assert GrayRefs(s, 1) == [Nil];
    MarkNothing(s.obj, m, Nil);
    hide MarkValue;
    MarkFirst(s.obj, m, Nil, [], [Nil], m);
  }

  function Quiet(): GState
  {
    At([Gray, Black, W, W, W, W, W], [], [0], Propagate)
  }

  /** Traversing the thread, whose global table is marked, puts it in the list of objects to visit again. */
  lemma ThreadAgain(s: GState)
    requires s.obj == Heap() && s.color == Colors([Gray, Black, W, W, W, W, W]) && s.gray == [0]
    ensures Enabled(s.(phase := Propagate), PropagateOne)
    ensures PropagateMark(s) == s.(gray := [], grayagain := [0] + s.grayagain)
  {
    var c := [Gray, Black, W, W, W, W, W];
    HeapIs();
    ColorsAre(c);
    ColorsSet(c, 0, Gray, c);
    hide Heap, Colors;
    var m := Marks(Colors(c), []);
    assert Popped(s) == m;
    assert GrayRefs(s, 0) == [Ref(1)] + [];
    MarkNothing(s.obj, m, Ref(1));
    hide MarkValue;
    MarkFirst(s.obj, m, Ref(1), [], [Ref(1)], m);
  }

  lemma HalfQuiet()
    ensures Enabled(Half(), PropagateOne) && Apply(Half(), PropagateOne) == Quiet()
  {
    hide Heap, Colors, PropagateMark;
    ThreadAgain(Half());
    HeapIs();
  }

  // ----- the atomic phase -----

  lemma QuietInv()
    ensures Inv(Start()) && Inv(Rooted()) && Inv(Half()) && Inv(Quiet())
  {
    StartInitial();
    hide Initial, Inv, Enabled, Apply;
    InitialInv(Start());
    StartRooted();
    StepKeepsInv(Start(), StartCycle);
    RootedHalf();
    StepKeepsInv(Rooted(), PropagateOne);
    HalfQuiet();
    StepKeepsInv(Half(), PropagateOne);
  }

  lemma InvTricolor(s: GState)
    requires Inv(s) && s.phase == Propagate
    ensures Tricolor(s)
  {
    hide Shape, Sound, ColorInv;
  }

  lemma QuietAgain()
    ensures WeakAgain(Quiet()) == Quiet()
  {
    var s := Quiet();
    MarksNothing([Gray, Black, W, W, W, W, W], [], 0);
    hide MarkValue, Heap, Colors;
    MarkFirst(s.obj, MarksOf(s), Ref(0), [], [Ref(0)] + [], MarksOf(s));
  }

  lemma GrayOnce(s: GState, r: GState)
    requires Tricolor(s) && s.gray != [] && s.gray[0] in s.obj && Listed(s.obj[s.gray[0]])
    requires PropagateMark(s) == r && r.gray == []
    ensures PropagateAll(s) == r
  {
    hide Tricolor, PropagateMark;
    assert PropagateAll(r) == r;
  }

  lemma QuietThread()
    ensures PropagateAll(GrayAgain(Quiet())) == Quiet()
  {
    hide Inv, Tricolor, Heap, Colors, PropagateMark, PropagateAll;
    var s := Quiet();
    QuietInv();
    InvTricolor(s);
    GrayAgainKeeps(s);
    HeapIs();
    ThreadAgain(GrayAgain(s));
    GrayOnce(GrayAgain(s), s);
  }

  lemma RootsFrom(s: GState)
    requires s.gray == [] && WeakAgain(s) == s && PropagateAll(GrayAgain(s)) == s
    ensures RootsMarked(s, []) == s
  {
    hide WeakAgain, GrayAgain;
    assert Remarked(s, []) == s;
    assert PropagateAll(s) == s;
  }

  /** Nothing more is reached from the roots. */
  lemma QuietRoots()
    ensures RootsMarked(Quiet(), []) == Quiet()
  {
    QuietAgain();
    QuietThread();
    hide RootsMarked, WeakAgain, GrayAgain, PropagateAll;
    RootsFrom(Quiet());
  }

  lemma GrayAgainKeeps(s: GState)
    requires Tricolor(s) && s.gray == []
    ensures Tricolor(GrayAgain(s))
  {
    GrayAgainStage(s, s.obj.Keys, s.obj.Keys);
  }

  lemma QuietSeparates()
    ensures SeparationList(Quiet(), [2, 3])
  {
    var s := Quiet();
    HeapIs();
    ColorsAre([Gray, Black, W, W, W, W, W]);
    hide Heap, Colors;
    var n := Node(Live(Ref(5)), Prim(1));
    assert n in s.obj[4].nodes && HasEntry(n, 5);
    assert NeedsFinalizer(s, 2) && NeedsFinalizer(s, 3);
    forall u | NeedsFinalizer(s, u) ensures u in [2, 3] { HeapKind(u); }
  }

  lemma QuietReady()
    ensures AtomicReady(Quiet(), [], [2, 3])
  {
    QuietRoots();
    QuietSeparates();
    hide SeparationList, RootsMarked, Heap, Colors;
    forall x | x in Heap() ensures !Heap()[x].OpenUpval? { HeapKind(x); }
  }

  function Separated(): GState
  {
    Quiet().(tmudata := [2, 3], finalized := {2, 3})
  }

  lemma QuietSeparated()
    ensures Separate(Quiet(), [2, 3]) == Separated()
  {
    var s := Quiet();
    QuietSeparates();
    ColorsAre([Gray, Black, W, W, W, W, W]);
    hide Heap, Colors;
    forall u ensures u in s.obj && Candidate(s, u) <==> u in {2, 3} {
      if u in s.obj { HeapKind(u); }
      assert NeedsFinalizer(s, 2) && NeedsFinalizer(s, 3);
    }
    assert [] + [2, 3] == [2, 3];
  }

  function Waiting(): GState
  {
    Separated().(color := Colors([Gray, Black, Black, Black, Gray, W, W]), gray := [4])
  }

  /** Marking one of the userdata. */
  lemma MarksUdata(c: seq<Color>, gray: seq<Id>, o: Id, b: seq<Color>, d: seq<Color>, gray': seq<Id>)
    requires |c| == 7 && o in {2, 3} && c[o].White? && b == c[o := Black] && c[1] == Black
    requires if c[4].White? then d == b[4 := Gray] && gray' == [4] + gray else d == b && gray' == gray
    ensures MarkObject(Heap(), Marks(Colors(c), gray), o) == Marks(Colors(d), gray')
  {
    if c[4].White? { MarksListed(b, gray, 4, d); } else { MarksNothing(b, gray, 4); }
    MarksNothing(d, gray', 1);
    UdataFirst(c, gray, o, b);
    hide Heap, Colors, MarkObject, MarkValue;
  }

  lemma UdataFirst(c: seq<Color>, gray: seq<Id>, o: Id, b: seq<Color>)
    requires |c| == 7 && o in {2, 3} && c[o].White? && b == c[o := Black]
    ensures var h := Heap();
            MarkObject(h, Marks(Colors(c), gray), o) ==
            MarkValue(h, MarkValue(h, Marks(Colors(b), gray), Ref(4)), Ref(1))
  {
    HeapIs();
    ColorsAre(c);
    ColorsSet(c, o, Black, b);
    hide Heap, Colors, MarkValue;
  }

  lemma TmuOne(h: Graph, m: Marks, cur: bool, u: Id, rest: seq<Id>, us: seq<Id>, m1: Marks)
    requires us == [u] + rest && u in m.color && m.color[u] == White(cur) && MarkObject(h, m, u) == m1
    ensures MarkTmu(h, m, cur, us) == MarkTmu(h, m1, cur, rest)
  {
    assert m.color[u := White(cur)] == m.color;
    assert us[0] == u && us[1..] == rest;
  }

  lemma SeparatedWaiting()
    ensures TmuMarked(Separated()) == Waiting()
  {
    var h, c := Heap(), [Gray, Black, W, W, W, W, W];
    var b, d := [Gray, Black, Black, W, W, W, W], [Gray, Black, Black, W, Gray, W, W];
    var e := [Gray, Black, Black, Black, Gray, W, W];
    ColorsAre(c);
    ColorsAre(d);
    hide Heap, Colors, MarkObject;
    MarksUdata(c, [], 2, b, d, [4]);
    MarksUdata(d, [4], 3, e, e, [4]);
    TmuOne(h, Marks(Colors(c), []), false, 2, [3], [2, 3], Marks(Colors(d), [4]));
    TmuOne(h, Marks(Colors(d), [4]), false, 3, [], [3], Marks(Colors(e), [4]));
  }

  function Done(): GState
  {
    Separated().(color := Colors([Gray, Black, Black, Black, Black, Gray, W]))
  }

  lemma WaitingTricolor()
    ensures Tricolor(Waiting())
  {
    hide Inv, Tricolor, Stage, LateOk, TmuOk, Heap, Colors, SeparationList;
    var s := Quiet();
    QuietInv();
    InvTricolor(s);
    InvTmu(s);
    NoUpvals(s);
    RootsMarkedDone(s, []);
    QuietRoots();
    QuietSeparates();
    SeparatedStage(s, [2, 3]);
    QuietSeparated();
    TmuReady();
    TmuStage(Separated());
    SeparatedWaiting();
    StageTricolor(Waiting());
  }

  lemma StageTricolor(s: GState)
    requires InStage(s, {})
    ensures Tricolor(s)
  {
  }

  lemma TmuReady()
    ensures forall u :: u in Separated().tmudata ==> u in Separated().obj && Separated().obj[u].Udata?
  {
    HeapIs();
    hide Heap, Colors;
  }

  lemma InvTmu(s: GState)
    requires Inv(s)
    ensures TmuOk(s)
  {
    ShapeTmu(s);
  }

  lemma NoUpvals(s: GState)
    requires s.obj == Heap()
    ensures UpvalList(s, [])
  {
    forall x | x in Heap() ensures !Heap()[x].OpenUpval? { HeapKind(x); }
    hide Heap;
  }

  lemma MarksString(c: seq<Color>, gray: seq<Id>, o: Id, d: seq<Color>)
    requires |c| == 7 && o in {5, 6} && c[o].White? && d == c[o := Gray]
    ensures MarkValue(Heap(), Marks(Colors(c), gray), Ref(o)) == Marks(Colors(d), gray)
  {
    HeapIs();
    ColorsAre(c);
    ColorsSet(c, o, Gray, d);
    hide Heap, Colors;
    MarkString(Heap(), Marks(Colors(c), gray), o);
  }

  lemma MetatableRefs(s: GState)
    requires s.obj == Heap()
    ensures 4 in s.obj && s.obj[4].Table? && !IsWeak(s, 4, 'k') && !IsWeak(s, 4, 'v')
    ensures GrayRefs(s, 4) == [Nil, Ref(3), Ref(5), Prim(1)] && Swabbed(s, 4) == s.obj
  {
    HeapIs();
    hide Heap;
    NotWeak(s, 4);
    hide IsWeak;
    var n := Node(Live(Ref(5)), Prim(1));
    assert RemoveEmpty([n]) == [n];
    assert s.obj[4 := s.obj[4]] == s.obj;
    assert Reverse([Ref(3)]) == [Ref(3)];
    assert NodesRefs([n], false, false) == [Ref(5), Prim(1)] + NodesRefs([], false, false);
  }

  lemma MetatableMarks()
    ensures var m := Marks(Colors([Gray, Black, Black, Black, Black, W, W]), []);
            MarkValues(Heap(), m, [Nil, Ref(3), Ref(5), Prim(1)]) ==
            Marks(Colors([Gray, Black, Black, Black, Black, Gray, W]), [])
  {
    var h, c, d := Heap(), [Gray, Black, Black, Black, Black, W, W], [Gray, Black, Black, Black, Black, Gray, W];
    var m, m' := Marks(Colors(c), []), Marks(Colors(d), []);
    MarkNothing(h, m, Nil);
    MarkNothing(h, m', Prim(1));
    hide MarkValue, Heap, Colors;
    MarksNothing(c, [], 3);
    MarksString(c, [], 5, d);
    MarkFirst(h, m, Nil, [Ref(3), Ref(5), Prim(1)], [Nil, Ref(3), Ref(5), Prim(1)], m);
    MarkFirst(h, m, Ref(3), [Ref(5), Prim(1)], [Ref(3), Ref(5), Prim(1)], m);
    MarkFirst(h, m, Ref(5), [Prim(1)], [Ref(5), Prim(1)], m');
    MarkFirst(h, m', Prim(1), [], [Prim(1)], m');
  }

  lemma WaitingDone()
    ensures PropagateAll(Waiting()) == Done()
  {
    var s, c, d := Waiting(), [Gray, Black, Black, Black, Gray, W, W], [Gray, Black, Black, Black, Black, W, W];
    WaitingTricolor();
    hide Tricolor, Heap;
    MetatableRefs(s);
    MetatableMarks();
    ColorsSet(c, 4, Black, d);
    hide MarkValues, GrayRefs, Swabbed, IsWeak, Colors;
    assert Popped(s) == Marks(Colors(d), []);
    GrayOnce(s, Done());
  }

  lemma ClearNothing(s: GState)
    requires s.weak == []
    ensures ClearTables(s) == s
  {
    assert forall x :: !StringKept(s, x);
  }

  /** The state while the sweep goes on. */
  function Sweeping(c: seq<Color>, unswept: set<Id>, phase: Phase): GState
  {
    Separated().(color := Colors(c), cur := true, phase := phase, unswept := unswept)
  }

  function Flip(): GState
  {
    Sweeping([Gray, Black, Black, Black, Black, Gray, W], {0, 1, 4, 5, 6}, SweepString)
  }

  lemma QuietMarks()
    ensures AllMarkedState(Quiet(), [], [2, 3]) == Done()
  {
    QuietRoots();
    QuietSeparated();
    SeparatedWaiting();
    WaitingDone();
    hide RootsMarked, Separate, TmuMarked, PropagateAll, Quiet, Separated, Waiting, Done;
  }

  lemma AtomicFrom(s: GState, uvs: seq<Id>, sep: seq<Id>, r: GState, unswept: set<Id>)
    requires AllMarkedState(s, uvs, sep) == r && ClearTables(r) == r
    requires (set x | x in r.obj && !r.obj[x].OpenUpval? && x !in r.tmudata) == unswept
    ensures Atomic(s, uvs, sep) == r.(cur := !r.cur, phase := SweepString, unswept := unswept)
  {
    hide AllMarkedState, ClearTables;
  }

  lemma DoneUnswept(r: GState)
    requires r == Done()
    ensures (set x | x in r.obj && !r.obj[x].OpenUpval? && x !in r.tmudata) == {0, 1, 4, 5, 6}
  {
    HeapIs();
    hide Heap, Colors;
    assert r.obj == Heap() && r.tmudata == [2, 3];
    hide Done;
  }

  lemma QuietAtomic()
    ensures Atomic(Quiet(), [], [2, 3]) == Flip()
  {
    QuietMarks();
    hide AllMarkedState, ClearTables, Heap, Colors, Atomic;
    ClearNothing(Done());
    DoneUnswept(Done());
    AtomicFrom(Quiet(), [], [2, 3], Done(), {0, 1, 4, 5, 6});
  }

  lemma QuietFlip()
    ensures Enabled(Quiet(), AtomicStep([], [2, 3])) && Apply(Quiet(), AtomicStep([], [2, 3])) == Flip()
  {
    QuietReady();
    QuietAtomic();
    hide Atomic, AtomicReady, Quiet, Flip;
  }

  // ----- the sweep -----

  lemma SweepKept(s: GState, x: Id)
    requires x in s.obj && s.color.Keys == s.obj.Keys && !Erased(s, x)
    requires forall y :: y in s.obj ==> !s.obj[y].OpenUpval?
    ensures SweepOne(s, x, false) == s.(color := s.color[x := White(s.cur)], unswept := s.unswept - {x})
  {
    var r := SweepOne(s, x, false);
    assert r.obj == s.obj;
    assert r.color == s.color[x := White(s.cur)];
  }

  lemma SweepingIs(c: seq<Color>, unswept: set<Id>, phase: Phase)
    requires |c| == 7
    ensures var s := Sweeping(c, unswept, phase);
            s.obj == Heap() && s.color == Colors(c) && s.fixed == {5, 6} && s.cur && s.phase == phase &&
            s.unswept == unswept && s.tmudata == [2, 3] && s.mainthread == s.running == 0 && s.registry == 1 &&
            s.mt == [] && s.color.Keys == s.obj.Keys
  {
    HeapIs();
    ColorsAre(c);
    hide Heap, Colors;
  }

  lemma SweepStep(s: GState, x: Id)
    requires SweepReady(s, x) && x in s.obj && s.color.Keys == s.obj.Keys
    ensures Enabled(s, SweepObject(x, false)) && Apply(s, SweepObject(x, false)) == SweepOne(s, x, false)
  {
    hide SweepOne, SweepReady;
  }

  lemma Sweeps(c: seq<Color>, unswept: set<Id>, phase: Phase, x: Id, d: seq<Color>)
    requires |c| == 7 && x in unswept && x < 7 && d == c[x := X] && (c[x] == W ==> x in {5, 6})
    requires phase == Sweep || (phase == SweepString && x in {5, 6})
    ensures var s := Sweeping(c, unswept, phase);
            Enabled(s, SweepObject(x, false)) && Apply(s, SweepObject(x, false)) == Sweeping(d, unswept - {x}, phase)
  {
    var s := Sweeping(c, unswept, phase);
    SweepingIs(c, unswept, phase);
    HeapIs();
    ColorsAre(c);
    ColorsSet(c, x, X, d);
    NoOpen();
    hide Heap, Colors, Enabled, Apply;
    SweepKept(s, x);
    SweepStep(s, x);
    hide SweepOne;
  }

  lemma NoOpen()
    ensures forall y :: y in Heap() ==> !Heap()[y].OpenUpval?
  {
    forall y | y in Heap() ensures !Heap()[y].OpenUpval? { HeapKind(y); }
  }

  lemma SweptStrings(c: seq<Color>)
    ensures var s := Sweeping(c, {0, 1, 4}, SweepString);
            Enabled(s, EndSweepString) && Apply(s, EndSweepString) == Sweeping(c, {0, 1, 4}, Sweep)
  {
    HeapIs();
    hide Heap, Colors;
  }

  lemma SweptAll(c: seq<Color>)
    ensures var s := Sweeping(c, {}, Sweep); Enabled(s, EndSweep) && Apply(s, EndSweep) == Sweeping(c, {}, Finalize)
  {
    hide Heap, Colors;
  }

  function AtEnd(): GState
  {
    Sweeping([X, X, Black, Black, X, X, X], {}, Finalize)
  }

  lemma MarkRuns() returns (acts: seq<Action>)
    ensures Runs(Start(), acts, Flip())
  {
    StartRooted();
    RootedHalf();
    HalfQuiet();
    QuietFlip();
    hide Enabled, Apply, Start, Rooted, Half, Quiet, Flip;
    acts := [];
    assert Runs(Start(), [], Start());
    RunsExtend(Start(), acts, Start(), StartCycle, Rooted());
    acts := acts + [StartCycle];
    RunsExtend(Start(), acts, Rooted(), PropagateOne, Half());
    acts := acts + [PropagateOne];
    RunsExtend(Start(), acts, Half(), PropagateOne, Quiet());
    acts := acts + [PropagateOne];
    RunsExtend(Start(), acts, Quiet(), AtomicStep([], [2, 3]), Flip());
    acts := acts + [AtomicStep([], [2, 3])];
  }

  lemma SweepsOn(acts: seq<Action>, c: seq<Color>, unswept: set<Id>, phase: Phase, x: Id, d: seq<Color>, left: set<Id>)
    requires |c| == 7 && x in unswept && x < 7 && d == c[x := X] && (c[x] == W ==> x in {5, 6})
    requires phase == Sweep || (phase == SweepString && x in {5, 6})
    requires left == unswept - {x} && Runs(Start(), acts, Sweeping(c, unswept, phase))
    ensures Runs(Start(), acts + [SweepObject(x, false)], Sweeping(d, left, phase))
  {
    Sweeps(c, unswept, phase, x, d);
    hide Runs, Enabled, Apply, Start, Sweeping;
    RunsExtend(Start(), acts, Sweeping(c, unswept, phase), SweepObject(x, false), Sweeping(d, left, phase));
  }

  lemma StringsRuns() returns (acts: seq<Action>)
    ensures Runs(Start(), acts, Sweeping([Gray, Black, Black, Black, Black, X, X], {0, 1, 4}, Sweep))
  {
    var c, d := [Gray, Black, Black, Black, Black, X, W], [Gray, Black, Black, Black, Black, X, X];
    acts := MarkRuns();
    hide Runs, Enabled, Apply, Start, Sweeping;
    SweepsOn(acts, [Gray, Black, Black, Black, Black, Gray, W], {0, 1, 4, 5, 6}, SweepString, 5, c, {0, 1, 4, 6});
    acts := acts + [SweepObject(5, false)];
    SweepsOn(acts, c, {0, 1, 4, 6}, SweepString, 6, d, {0, 1, 4});
    acts := acts + [SweepObject(6, false)];
    SweptStrings(d);
    RunsExtend(Start(), acts, Sweeping(d, {0, 1, 4}, SweepString), EndSweepString, Sweeping(d, {0, 1, 4}, Sweep));
    acts := acts + [EndSweepString];
  }

  lemma CycleRuns() returns (acts: seq<Action>)
    ensures Runs(Start(), acts, AtEnd())
  {
    var c, d := [Gray, Black, Black, Black, Black, X, X], [X, Black, Black, Black, Black, X, X];
    var e, f := [X, X, Black, Black, Black, X, X], [X, X, Black, Black, X, X, X];
    acts := StringsRuns();
    hide Runs, Enabled, Apply, Start, Sweeping;
    SweepsOn(acts, c, {0, 1, 4}, Sweep, 0, d, {1, 4});
    acts := acts + [SweepObject(0, false)];
    SweepsOn(acts, d, {1, 4}, Sweep, 1, e, {4});
    acts := acts + [SweepObject(1, false)];
    SweepsOn(acts, e, {4}, Sweep, 4, f, {});
    acts := acts + [SweepObject(4, false)];
    SweptAll(f);
    RunsExtend(Start(), acts, Sweeping(f, {}, Sweep), EndSweep, Sweeping(f, {}, Finalize));
    acts := acts + [EndSweep];
  }

  // ----- a cycle that starts before the finalizers ran -----

  lemma NextCycle()
    ensures var s := AtEnd();
            Enabled(s, StartCycle) && Apply(s, StartCycle) == MarkRoot(s) && MarkRoot(s).obj == Heap() &&
            MarkRoot(s).phase == Propagate && MarkRoot(s).tmudata == [2, 3] &&
            MarkRoot(s).color == Colors([Gray, Gray, Black, Black, X, X, X])
  {
    var c, e := [X, X, Black, Black, X, X, X], [Gray, Gray, Black, Black, X, X, X];
    HeapIs();
    RootMarks(c, [Gray, X, Black, Black, X, X, X], e);
    SweepingIs(c, {}, Finalize);
    hide Heap, Colors, MarkValues, Sweeping;
    assert RootValues(AtEnd()) == [Ref(0), Ref(1), Ref(1)];
  }

  /** A run after which, while marking, userdata 3 is black, waits for its finalizer and refers to a white object. */
  lemma WaitingIsBlack() returns (states: seq<GState>, actions: seq<Action>)
    ensures IsRun(states, actions) && Initial(states[0])
    ensures var s := states[|actions|];
            s.phase == Propagate && 3 in s.tmudata && 3 in s.obj && 3 in s.color && s.color[3] == Black &&
            Points(s.obj, s.obj[3], 4) && 4 in s.color && s.color[4].White?
  {
    StartInitial();
    NextCycle();
    HeapIs();
    ColorsAre([Gray, Gray, Black, Black, X, X, X]);
    hide Runs, Enabled, Apply, Start, AtEnd, Initial, MarkRoot, Heap, Colors;
    actions := CycleRuns();
    RunsExtend(Start(), actions, AtEnd(), StartCycle, MarkRoot(AtEnd()));
    actions := actions + [StartCycle];
    states := StatesOf(Start(), actions, MarkRoot(AtEnd()));
  }

  // ----- a finalizer that writes into a userdata still waiting -----

  /** Userdata 2 has been taken for its finalizer, and userdata 3 waits. */
  function Taken(): GState
  {
    TakeFinalizable(AtEnd())
  }

  lemma TakenIs()
    ensures var s := Taken();
            s.obj == Heap() && s.color == Colors([X, X, X, Black, X, X, X]) && s.cur && s.phase == Finalize &&
            s.tmudata == [3] && s.mainthread == 0 && Enabled(AtEnd(), CallFinalizer) &&
            Apply(AtEnd(), CallFinalizer) == s
  {
    var c := [X, X, Black, Black, X, X, X];
    SweepingIs(c, {}, Finalize);
    ColorsSet(c, 2, X, [X, X, X, Black, X, X, X]);
    hide Heap, Colors, Sweeping;
  }

  const FRESH: Obj := Table(Nil, [], [])

  function Grown(): GState
  {
    NewObject(Taken(), 7, FRESH, false)
  }

  lemma GrownIs()
    ensures var s := Grown();
            s.obj == Heap()[7 := FRESH] && s.color == Colors([X, X, X, Black, X, X, X])[7 := X] && s.cur &&
            s.phase == Finalize && s.tmudata == [3] && s.mainthread == 0 &&
            Enabled(Taken(), Allocate(7, FRESH, false)) && Apply(Taken(), Allocate(7, FRESH, false)) == s
  {
    TakenIs();
    HeapIs();
    hide Heap, Colors, Taken;
  }

  /** The finalizer of userdata 2 has its argument and the new table on its stack. */
  function Called(): GState
  {
    WriteThread(Grown(), 0, Ref(1), [Ref(2), Ref(7)])
  }

  lemma CalledIs()
    ensures var s := Called();
            s.obj == Heap()[7 := FRESH][0 := Thread(Ref(1), [Ref(2), Ref(7)])] &&
            s.color == Colors([X, X, X, Black, X, X, X])[7 := X] && s.cur && s.phase == Finalize && s.tmudata == [3] &&
            s.mainthread == 0
  {
    GrownIs();
    hide Heap, Colors, Grown, Enabled, Apply;
  }

  lemma GrownAlive(x: Id)
    requires x < 8
    ensures Alive(Grown(), x)
  {
    hide Heap, Colors, Grown, Enabled, Apply;
    GrownIs();
    HeapIs();
    ColorsAre([X, X, X, Black, X, X, X]);
  }

  lemma GrownThread()
    ensures CanWriteThread(Grown(), 0, Ref(1), [Ref(2), Ref(7)])
  {
    GrownAlive(0);
    GrownAlive(1);
    GrownAlive(2);
    GrownAlive(7);
    GrownIs();
    HeapIs();
    NoOpen();
    hide Heap, Colors, Grown, Enabled, Apply, Alive;
  }

  lemma CalledStep()
    ensures var a := StoreThread(0, Ref(1), [Ref(2), Ref(7)]); Enabled(Grown(), a) && Apply(Grown(), a) == Called()
  {
    GrownThread();
    hide Grown, CanWriteThread;
  }

  lemma CalledRuns() returns (acts: seq<Action>)
    ensures Runs(Start(), acts, Called())
  {
    TakenIs();
    GrownIs();
    CalledStep();
    hide Runs, Enabled, Apply, Start, AtEnd, Taken, Grown, Called, Heap, Colors;
    acts := CycleRuns();
    RunsExtend(Start(), acts, AtEnd(), CallFinalizer, Taken());
    acts := acts + [CallFinalizer];
    RunsExtend(Start(), acts, Taken(), Allocate(7, FRESH, false), Grown());
    acts := acts + [Allocate(7, FRESH, false)];
    RunsExtend(Start(), acts, Grown(), StoreThread(0, Ref(1), [Ref(2), Ref(7)]), Called());
    acts := acts + [StoreThread(0, Ref(1), [Ref(2), Ref(7)])];
  }

  lemma CalledPaths()
    ensures RootPath(Called(), [0, 7]) && RootPath(Called(), [0, 2, 4, 3])
  {
    CalledIs();
    HeapIs();
    hide Heap, Colors, Called;
    var s := Called();
    assert Points(s.obj, s.obj[0], 7) && Points(s.obj, s.obj[0], 2) && Points(s.obj, s.obj[2], 4);
    assert Ref(3) in s.obj[4].arr;
    assert Points(s.obj, s.obj[4], 3);
  }

  lemma CalledAlive()
    ensures NeedsBarrier(Called(), 3, Ref(7)) && Alive(Called(), 3) && Alive(Called(), 7)
    ensures Called().obj[3] == Udata(Ref(4), Ref(1))
  {
    CalledIs();
    HeapIs();
    ColorsAre([X, X, X, Black, X, X, X]);
    hide Heap, Colors, Called;
  }

  lemma CalledWrites()
    ensures Enabled(Called(), StoreObject(3, Udata(Ref(7), Ref(1)), Ref(7)))
  {
    CalledAlive();
    hide Called, Alive;
    assert CanWriteObject(Called(), 3, Udata(Ref(7), Ref(1)), Ref(7));
  }

  /** A run after which the program can give userdata 3 a new metatable, reaching both from the main thread, and the
      barrier finds the collector at the end of its cycle. */
  lemma BarrierAtEnd() returns (states: seq<GState>, actions: seq<Action>)
    ensures IsRun(states, actions) && Initial(states[0])
    ensures var s := states[|actions|];
            s.mainthread == 0 && RootPath(s, [0, 2, 4, 3]) && RootPath(s, [0, 7]) && NeedsBarrier(s, 3, Ref(7)) &&
            Enabled(s, StoreObject(3, Udata(Ref(7), Ref(1)), Ref(7))) && s.phase == Finalize && 3 in s.tmudata
  {
    StartInitial();
    CalledIs();
    CalledPaths();
    CalledAlive();
    CalledWrites();
    hide Runs, Enabled, Apply, Start, Called, Initial, RootPath, Heap, Colors;
    actions := CalledRuns();
    states := StatesOf(Start(), actions, Called());
  }
}
