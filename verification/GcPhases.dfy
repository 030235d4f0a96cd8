/** `markroot` and `atomic` as state transformers, and what the marking phase achieves. */
module GcPhases {
  import opened Seqs
  import opened LuaHeap
  import opened GcMark
  import opened GcTraverse
  import opened GcAtomic
  import opened GcClear

  // ----- markroot -----

  function RootValues(s: GState): seq<Value>
    requires s.mainthread in s.obj && s.obj[s.mainthread].Thread?
  {
    [Ref(s.mainthread), s.obj[s.mainthread].globals, Ref(s.registry)] + s.mt
  }

  function MarkRoot(s: GState): GState
    requires s.mainthread in s.obj && s.obj[s.mainthread].Thread?
  {
    WithMarks(s, MarkValues(s.obj, Marks(s.color, []), RootValues(s)))
      .(grayagain := [], weak := [], phase := Propagate)
  }

  /** Outside a mark phase, every object that is not waiting for its finalizer is white. */
  ghost predicate AllWhite(s: GState)
  {
    s.color.Keys == s.obj.Keys && forall x :: x in s.obj && x !in s.tmudata ==> s.color[x].White?
  }

  lemma MarkRootTricolor(s: GState)
    requires AllWhite(s) && s.mainthread in s.obj && s.obj[s.mainthread].Thread?
    ensures var r := MarkRoot(s);
            Tricolor(r) && forall v :: v in RootValues(s) ==> Marked(MarksOf(r), v)
  {
    var m := Marks(s.color, []);
    assert MarkInv(s.obj, m, [], [], Elems(s.tmudata)) && ListOk(m);
    MarkValuesKeeps(s.obj, m, RootValues(s), [], [], Elems(s.tmudata));
  }

  // ----- the marking part of atomic -----

  function Remarked(s: GState, uvs: seq<Id>): GState
  {
    WithMarks(s, RemarkUpvals(s.obj, MarksOf(s), uvs))
  }

  /** The weak tables become the gray list; the running thread and the basic metatables are marked. */
  function WeakAgain(s: GState): GState
  {
    var r := s.(gray := s.weak, weak := []);
    WithMarks(r, MarkValues(r.obj, MarksOf(r), [Ref(s.running)] + s.mt))
  }

  function GrayAgain(s: GState): GState
  {
    s.(gray := s.grayagain, grayagain := [])
  }

  function TmuMarked(s: GState): GState
  {
    WithMarks(s, MarkTmu(s.obj, MarksOf(s), s.cur, s.tmudata))
  }

  ghost predicate UpvalList(s: GState, uvs: seq<Id>)
  {
    forall u :: u in uvs <==> u in s.obj && s.obj[u].OpenUpval?
  }

  /** Progress from one stage to the next, with everything that stays true throughout. */
  ghost predicate InStage(s: GState, pending: set<Id>)
  {
    Tricolor(s) && Stage(s, pending) && ListOk(MarksOf(s))
  }

  lemma RemarkedStage(s: GState, uvs: seq<Id>)
    requires Tricolor(s) && s.gray == [] && UpvalList(s, uvs)
    ensures var r := Remarked(s, uvs);
            InStage(r, Elems(s.weak) + Elems(s.grayagain) + Elems(s.tmudata)) && Progress(s, r)
  {
    var r := Remarked(s, uvs);
    var m, E := MarksOf(s), Elems(s.tmudata);
    RemarkUpvalsExtends(s.obj, m, uvs);
    ExtendsBlackInv(s.obj, m, MarksOf(r), E);
    ExtendsGrayInv(s.obj, m, MarksOf(r), s.grayagain, s.weak, E);
    ExtendsListInv(s.obj, m, MarksOf(r), s.grayagain, s.weak);
    forall x | x in r.obj && !r.color[x].White? && x !in r.gray
               && x !in Elems(s.weak) + Elems(s.grayagain) + E
      ensures Settled(r, x)
    {
      if s.color[x].White? {
        assert JustMarked(r.obj, MarksOf(r), x);
        JustMarkedSettled(r, x);
      } else if r.color[x] == Black {
        BlackSettled(r, x);
      } else {
        assert s.obj[x].Str? || s.obj[x].OpenUpval?;
        if s.obj[x].OpenUpval? { assert x in uvs; }
      }
    }
  }

  lemma BlackSettled(s: GState, x: Id)
    requires x in s.obj && BlackOk(MarksOf(s), s.obj[x])
    ensures Settled(s, x)
  {
  }

  lemma StageGrows(s: GState, r: GState, pending: set<Id>)
    requires Stage(s, pending) && Extends(s.obj, MarksOf(s), MarksOf(r)) && r.obj == s.obj && r.modeKey == s.modeKey
    ensures Stage(r, pending)
  {
    forall x | x in r.obj && !r.color[x].White? && x !in r.gray && x !in pending
      ensures Settled(r, x)
    {
      if s.color[x].White? {
        assert JustMarked(r.obj, MarksOf(r), x);
        JustMarkedSettled(r, x);
      } else {
        assert Settled(s, x);
      }
    }
  }

  lemma WeakAgainStage(s: GState, pending: set<Id>, left: set<Id>)
    requires Tricolor(s) && s.gray == [] && Stage(s, pending) && pending <= left + Elems(s.weak)
    ensures var r := WeakAgain(s);
            InStage(r, left) && r.weak == [] && Marked(MarksOf(r), Ref(s.running)) && AllMarked(MarksOf(r), s.mt)
  {
    var q := s.(gray := s.weak, weak := []);
    var r := WeakAgain(s);
    var vs := [Ref(s.running)] + s.mt;
    assert MarkInv(q.obj, MarksOf(q), q.grayagain, [], Elems(s.tmudata)) && ListOk(MarksOf(q));
    assert Stage(q, left);
    MarkValuesKeeps(q.obj, MarksOf(q), vs, q.grayagain, [], Elems(s.tmudata));
    StageGrows(q, r, left);
  }

  lemma GrayAgainStage(s: GState, pending: set<Id>, left: set<Id>)
    requires Tricolor(s) && s.gray == [] && Stage(s, pending) && pending <= left + Elems(s.grayagain)
    ensures var r := GrayAgain(s); InStage(r, left) && r.grayagain == []
  {
  }

  lemma TmuStage(s: GState)
    requires Tricolor(s) && s.gray == [] && Stage(s, Elems(s.tmudata))
    requires forall u :: u in s.tmudata ==> u in s.obj && s.obj[u].Udata?
    ensures var r := TmuMarked(s);
            InStage(r, {}) && forall u :: u in s.tmudata ==> Marked(MarksOf(r), Ref(u))
  {
    var r := TmuMarked(s);
    MarkTmuKeeps(s.obj, MarksOf(s), s.cur, s.tmudata, s.grayagain, s.weak);
    forall x | x in r.obj && !r.color[x].White? && x !in r.gray
      ensures Settled(r, x)
    {
      if r.color[x] == Black {
        BlackSettled(r, x);
      } else if s.color[x].White? {
        assert s.obj[x].Str? || s.obj[x].OpenUpval?;
      } else {
        assert x !in s.tmudata;
        assert Settled(s, x);
      }
    }
  }

  // ----- what the later stages keep besides -----

  ghost predicate LateOk(s: GState)
  {
    BitsOk(s) && forall x :: x in s.grayagain ==> x in s.obj && s.obj[x].Thread?
  }

  lemma WeakUnchanged(s: GState, r: GState, x: Id, mode: char)
    requires Progress(s, r) && x in s.obj && s.obj[x].Table?
    ensures x in r.obj && r.obj[x].Table? && IsWeak(r, x, mode) == IsWeak(s, x, mode)
  {
    CompactedMode(s.obj, r.obj, s.modeKey, s.obj[x].metatable, mode);
  }

  lemma PropagateBit(s: GState, x: Id)
    requires s.gray != [] && s.gray[0] in s.obj && Listed(s.obj[s.gray[0]]) && BitsOk(s)
    requires Progress(s, PropagateMark(s)) && x in PropagateMark(s).weak
    ensures var r := PropagateMark(s);
            x in r.obj && r.obj[x].Table? && (x in r.weakKey <==> IsWeak(r, x, 'k')) &&
            (x in r.weakVal <==> IsWeak(r, x, 'v'))
  {
    var r := PropagateMark(s);
    WeakUnchanged(s, r, x, 'k');
    WeakUnchanged(s, r, x, 'v');
    hide MarkValues, GrayRefs;
  }

  lemma PropagateBits(s: GState)
    requires Tricolor(s) && s.gray != [] && BitsOk(s)
    ensures s.gray[0] in s.obj && Listed(s.obj[s.gray[0]]) && BitsOk(PropagateMark(s))
  {
    hide MarkInv, IsWeak;
    PropagateProgress(s);
    var r := PropagateMark(s);
    hide Progress;
    forall x | x in r.weak
      ensures x in r.obj && r.obj[x].Table?
      ensures (x in r.weakKey <==> IsWeak(r, x, 'k')) && (x in r.weakVal <==> IsWeak(r, x, 'v'))
    {
      PropagateBit(s, x);
    }
  }

  lemma {:induction false} PropagateAllBits(s: GState)
    requires Tricolor(s) && BitsOk(s)
    ensures BitsOk(PropagateAll(s))
    decreases Whites(MarksOf(s)), Elems(s.gray)
  {
    if s.gray != [] {
      PropagateShrinks(s);
      PropagateKeepsTricolor(s);
      PropagateBits(s);
      PropagateAllBits(PropagateMark(s));
    }
  }

  lemma {:induction false} PropagateAllLate(s: GState)
    requires Tricolor(s) && LateOk(s)
    ensures LateOk(PropagateAll(s))
    decreases Whites(MarksOf(s)), Elems(s.gray)
  {
    if s.gray != [] {
      PropagateShrinks(s);
      PropagateKeepsTricolor(s);
      PropagateBits(s);
      PropagateProgress(s);
      PropagateAllLate(PropagateMark(s));
    }
  }

  // ----- atomic -----

  /** Everything that was strongly reachable before userdata are separated has been marked. */
  ghost function RootsMarked(s: GState, uvs: seq<Id>): GState
  {
    PropagateAll(GrayAgain(PropagateAll(WeakAgain(PropagateAll(Remarked(s, uvs))))))
  }

  ghost function AllMarkedState(s: GState, uvs: seq<Id>, sep: seq<Id>): GState
  {
    PropagateAll(TmuMarked(Separate(RootsMarked(s, uvs), sep)))
  }

  /** The atomic phase, ending with the flip of the current white. */
  ghost function Atomic(s: GState, uvs: seq<Id>, sep: seq<Id>): GState
  {
    var r := ClearTables(AllMarkedState(s, uvs, sep));
    r.(cur := !r.cur, phase := SweepString,
       unswept := set x | x in r.obj && !r.obj[x].OpenUpval? && x !in r.tmudata)
  }

  /** `sep` lists the userdata that `luaC_separateudata` finds. */
  ghost predicate SeparationList(s: GState, sep: seq<Id>)
  {
    Distinct(sep) && forall u :: u in sep <==> NeedsFinalizer(s, u)
  }

  ghost predicate TmuOk(s: GState)
  {
    Distinct(s.tmudata) && forall u :: u in s.tmudata ==> u in s.obj && s.obj[u].Udata?
  }

  lemma FirstStage(s: GState, uvs: seq<Id>)
    requires Tricolor(s) && s.gray == [] && UpvalList(s, uvs)
    ensures var r := PropagateAll(Remarked(s, uvs));
            Tricolor(r) && r.gray == [] && Progress(s, r) &&
            Stage(r, Elems(s.weak) + Elems(s.grayagain) + Elems(s.tmudata))
  {
    var pending := Elems(s.weak) + Elems(s.grayagain) + Elems(s.tmudata);
    RemarkedStage(s, uvs);
    PropagateAllKeeps(Remarked(s, uvs), pending);
    ProgressTransitive(s, Remarked(s, uvs), PropagateAll(Remarked(s, uvs)));
  }

  lemma SecondStage(s: GState, pending: set<Id>, left: set<Id>)
    requires Tricolor(s) && s.gray == [] && Stage(s, pending) && pending <= left + Elems(s.weak)
    ensures var r := PropagateAll(WeakAgain(s));
            Tricolor(r) && r.gray == [] && Progress(s.(weak := []), r) && Stage(r, left) && BitsOk(r) &&
            Marked(MarksOf(r), Ref(s.running)) && AllMarked(MarksOf(r), s.mt)
  {
    var q := WeakAgain(s);
    WeakAgainStage(s, pending, left);
    PropagateAllKeeps(q, left);
    PropagateAllBits(q);
    MarkValuesGrows(s.obj, Marks(s.color, s.weak), [Ref(s.running)] + s.mt);
    ProgressTransitive(s.(weak := []), q, PropagateAll(q));
  }

  lemma ThirdStage(s: GState, pending: set<Id>, left: set<Id>)
    requires Tricolor(s) && s.gray == [] && Stage(s, pending) && pending <= left + Elems(s.grayagain) && BitsOk(s)
    ensures var r := PropagateAll(GrayAgain(s));
            Tricolor(r) && r.gray == [] && Progress(s.(grayagain := []), r) && Stage(r, left) && LateOk(r)
  {
    var q := GrayAgain(s);
    assert InStage(q, left) by { GrayAgainStage(s, pending, left); }
    assert LateOk(PropagateAll(q)) by {
      GrayAgainLate(s);
      PropagateAllLate(q);
    }
    PropagateAllKeeps(q, left);
    ProgressIgnoresGray(s, PropagateAll(q));
  }

  lemma GrayAgainLate(s: GState)
    requires BitsOk(s)
    ensures LateOk(GrayAgain(s))
  {
    forall x | x in s.weak
      ensures IsWeak(GrayAgain(s), x, 'k') == IsWeak(s, x, 'k') && IsWeak(GrayAgain(s), x, 'v') == IsWeak(s, x, 'v')
    {
    }
  }

  lemma ProgressIgnoresGray(s: GState, r: GState)
    requires Progress(GrayAgain(s), r)
    ensures Progress(s.(grayagain := []), r)
  {
  }

  /** Progress, with the lists of `s` forgotten. */
  ghost predicate Advanced(s: GState, r: GState)
  {
    Progress(s.(weak := [], grayagain := []), r)
  }

  lemma RootsMarkedDone(s: GState, uvs: seq<Id>)
    requires Tricolor(s) && s.gray == [] && UpvalList(s, uvs)
    ensures var r := RootsMarked(s, uvs);
            Tricolor(r) && r.gray == [] && Stage(r, Elems(s.tmudata)) && LateOk(r) && Advanced(s, r) &&
            Marked(MarksOf(r), Ref(s.running)) && AllMarked(MarksOf(r), s.mt)
  {
    var T := Elems(s.tmudata);
    var s2 := PropagateAll(Remarked(s, uvs));
    FirstStage(s, uvs);
    SecondStage(s2, Elems(s.weak) + Elems(s.grayagain) + T, Elems(s.grayagain) + T);
    var s5 := PropagateAll(WeakAgain(s2));
    ThirdStage(s5, Elems(s.grayagain) + T, T);
    AdvancedThrough(s, s2, s5, RootsMarked(s, uvs));
  }

  lemma AdvancedThrough(s: GState, s2: GState, s5: GState, s7: GState)
    requires Progress(s, s2) && Progress(s2.(weak := []), s5) && Progress(s5.(grayagain := []), s7)
    ensures Advanced(s, s7)
  {
    CompactedTransitive(s.obj, s2.obj, s5.obj);
    CompactedTransitive(s.obj, s5.obj, s7.obj);
  }
}
