/** Every action of a running program keeps the collector's invariant. */
module GcMutatorInv {
  import opened Seqs
  import opened LuaHeap
  import opened GcMark
  import opened GcTraverse
  import opened GcPhases
  import opened GcInvariant
  import opened GcMutator

  /** Replacing one object by another of alive contents keeps soundness. */
  lemma ReplaceSound(s: GState, r: GState, o: Id)
    requires Sound(s) && o in s.obj && o in r.obj && r.obj == s.obj[o := r.obj[o]]
    requires forall x :: Alive(r, x) <==> Alive(s, x)
    requires forall x :: IsRoot(r, x) <==> IsRoot(s, x)
    requires Alive(s, o) ==> forall c :: Points(r.obj, r.obj[o], c) ==> Alive(s, c)
    requires forall u, c :: Alive(s, u) && s.obj[u].OpenUpval? && u != o && Points(r.obj, s.obj[u], c) ==> Alive(s, c)
    ensures Sound(r)
  {
    forall x, c | Alive(r, x) && Points(r.obj, r.obj[x], c) ensures Alive(r, c) {
      if x != o && !s.obj[x].OpenUpval? {
        assert Points(s.obj, s.obj[x], c);
      }
    }
  }

  // ----- allocation -----

  lemma NewSound(s: GState, id: Id, o: Obj, ahead: bool)
    requires Shape(s) && Sound(s) && CanNew(s, id, o, ahead)
    ensures Sound(NewObject(s, id, o, ahead))
  {
    var r := NewObject(s, id, o, ahead);
    forall x | IsRoot(r, x) ensures Alive(r, x) { assert IsRoot(s, x); assert Alive(s, x); }
    forall x, c | Alive(r, x) && Points(r.obj, r.obj[x], c) ensures Alive(r, c) {
      assert Points(s.obj, r.obj[x], c);
      if x != id { assert Alive(s, x); }
      assert Alive(s, c);
    }
  }

  lemma FreshBlackOk(s: GState, x: Id, id: Id)
    requires x in s.obj && id !in s.obj && BlackOk(MarksOf(s), s.obj[x])
    requires !Points(s.obj, s.obj[x], id) && !HoldsKey(s.obj[x], id)
    ensures BlackOk(Marks(s.color[id := White(s.cur)], s.gray), s.obj[x])
  {
    var m := Marks(s.color[id := White(s.cur)], s.gray);
    if s.obj[x].Table? {
      forall n | n in s.obj[x].nodes ensures NodeMarked(m, n) {
        assert NodeMarked(MarksOf(s), n) && !NodePoints(n, id);
      }
    }
  }

  lemma NothingPointsToNew(s: GState, x: Id, id: Id)
    requires Sound(s) && ColorInv(s) && HeldKeys(s) && s.phase == Propagate
    requires x in s.obj && s.color[x] == Black && id !in s.obj
    ensures !Points(s.obj, s.obj[x], id) && !HoldsKey(s.obj[x], id)
  {
    assert Alive(s, x) && !Alive(s, id);
  }

  lemma NewBlackInv(s: GState, id: Id, o: Obj, ahead: bool)
    requires Inv(s) && s.phase == Propagate && CanNew(s, id, o, ahead)
    ensures var r := NewObject(s, id, o, ahead); BlackInv(r.obj, MarksOf(r), Elems(s.tmudata))
  {
    var r := NewObject(s, id, o, ahead);
    forall x | x in r.obj && x !in Elems(s.tmudata) && r.color[x] == Black ensures BlackOk(MarksOf(r), r.obj[x]) {
      hide BlackOk, Points, HoldsKey, Sound, ColorInv, HeldKeys, Shape;
      NothingPointsToNew(s, x, id);
      FreshBlackOk(s, x, id);
    }
  }

  lemma NewTricolor(s: GState, id: Id, o: Obj, ahead: bool)
    requires Inv(s) && s.phase == Propagate && CanNew(s, id, o, ahead)
    ensures Tricolor(NewObject(s, id, o, ahead))
  {
    NewBlackInv(s, id, o, ahead);
    NewIsNew(s, id, o, ahead);
    hide Sound, ColorInv, HeldKeys, BlackInv, CanNew, Points, Shape, GrayInv, ListInv;
    NewGrayInv(s, id, o, ahead);
    NewListInv(s, id, o, ahead);
  }

  lemma NewGrayInv(s: GState, id: Id, o: Obj, ahead: bool)
    requires GrayInv(s.obj, MarksOf(s), s.grayagain, s.weak, Elems(s.tmudata)) && id !in s.obj
    ensures var r := NewObject(s, id, o, ahead); GrayInv(r.obj, MarksOf(r), r.grayagain, r.weak, Elems(r.tmudata))
  {
  }

  lemma NewListInv(s: GState, id: Id, o: Obj, ahead: bool)
    requires ListInv(s.obj, MarksOf(s), s.grayagain, s.weak) && id !in s.obj
    ensures var r := NewObject(s, id, o, ahead); ListInv(r.obj, MarksOf(r), r.grayagain, r.weak)
  {
  }

  lemma NewIsNew(s: GState, id: Id, o: Obj, ahead: bool)
    requires CanNew(s, id, o, ahead)
    ensures id !in s.obj
  {
  }

  lemma NewShape(s: GState, id: Id, o: Obj, ahead: bool)
    requires Shape(s) && CanNew(s, id, o, ahead)
    ensures Shape(NewObject(s, id, o, ahead))
  {
  }

  lemma NewColors(s: GState, id: Id, o: Obj, ahead: bool)
    requires Shape(s) && ColorInv(s) && CanNew(s, id, o, ahead)
    ensures ColorInv(NewObject(s, id, o, ahead))
  {
    var r := NewObject(s, id, o, ahead);
    if s.phase in {SweepString, Sweep} {
      forall x | x in r.obj && x !in r.tmudata && Swept(r, x) ensures r.color[x] == White(r.cur) {
        if x != id { assert Swept(s, x); }
      }
    }
  }

  lemma NewKeepsInv(s: GState, id: Id, o: Obj, ahead: bool)
    requires Inv(s) && CanNew(s, id, o, ahead)
    ensures Inv(NewObject(s, id, o, ahead))
  {
    hide Shape, Sound, ColorInv, Tricolor, CanNew, Points, Listed;
    var r := NewObject(s, id, o, ahead);
    NewShape(s, id, o, ahead);
    NewSound(s, id, o, ahead);
    NewColors(s, id, o, ahead);
    if s.phase == Propagate {
      NewTricolor(s, id, o, ahead);
      NewMarked(s, id, o, ahead);
    }
  }

  lemma NewMarked(s: GState, id: Id, o: Obj, ahead: bool)
    requires Inv(s) && s.phase == Propagate && CanNew(s, id, o, ahead)
    ensures var r := NewObject(s, id, o, ahead);
            HeldKeys(r) && Marked(MarksOf(r), Ref(r.mainthread)) && Marked(MarksOf(r), Ref(r.registry))
  {
    assert IsRoot(s, s.registry) && Alive(s, s.registry);
    hide Tricolor;
  }

  lemma ResurrectSound(s: GState, x: Id)
    requires Shape(s) && Sound(s) && CanResurrect(s, x)
    ensures Sound(Resurrect(s, x))
  {
    var r := Resurrect(s, x);
    forall y | IsRoot(r, y) ensures Alive(r, y) { assert IsRoot(s, y); assert Alive(s, y); }
    forall y, c | Alive(r, y) && Points(r.obj, r.obj[y], c) ensures Alive(r, c) {
      if y == x {
        assert Points(s.obj, s.obj[s.obj[x].thread], c);
      } else {
        assert Alive(s, y);
      }
      assert Alive(s, c);
    }
  }

  lemma ResurrectColors(s: GState, x: Id)
    requires Shape(s) && ColorInv(s) && CanResurrect(s, x)
    ensures ColorInv(Resurrect(s, x)) && s.phase != Propagate
  {
    var r := Resurrect(s, x);
    forall y | y in r.obj && y !in r.tmudata && Swept(r, y) ensures Swept(s, y) {}
  }

  lemma ResurrectKeepsInv(s: GState, x: Id)
    requires Inv(s) && CanResurrect(s, x)
    ensures Inv(Resurrect(s, x))
  {
    ResurrectSound(s, x);
    ResurrectColors(s, x);
    hide Sound, ColorInv, Tricolor;
  }

  // ----- writes to threads and upvalues -----

  lemma ThreadNotBlack(s: GState, th: Id)
    requires MarkPhase(s) && TmuOk(s) && th in s.obj && (s.obj[th].Thread? || s.obj[th].OpenUpval?)
    ensures s.color[th] != Black
  {
    assert !BlackOk(MarksOf(s), s.obj[th]) && th !in Elems(s.tmudata);
  }

  /** In the mark phase, an object that is not black may change its contents freely. */
  lemma ReplaceMarkPhase(s: GState, r: GState, o: Id)
    requires MarkPhase(s) && o in s.obj && s.color[o] != Black
    requires o in r.obj && r == s.(obj := s.obj[o := r.obj[o]])
    requires Listed(s.obj[o]) == Listed(r.obj[o]) && s.obj[o].Thread? == r.obj[o].Thread?
    requires s.obj[o].Table? == r.obj[o].Table? && s.obj[o].Str? == r.obj[o].Str?
    requires s.obj[o].OpenUpval? == r.obj[o].OpenUpval?
    ensures MarkPhase(r)
  {
    hide BlackOk, HoldsKey, Listed;
  }

  lemma ReplaceShape(s: GState, r: GState, o: Id)
    requires Shape(s) && o in s.obj && o in r.obj && r == s.(obj := s.obj[o := r.obj[o]])
    requires s.obj[o].OpenUpval? == r.obj[o].OpenUpval? && s.obj[o].Str? == r.obj[o].Str?
    requires s.obj[o].Udata? == r.obj[o].Udata? && s.obj[o].Thread? == r.obj[o].Thread?
    requires !s.obj[o].OpenUpval?
    requires s.obj[o].Thread? ==> forall u :: u in s.obj && s.obj[u].OpenUpval? && s.obj[u].thread == o ==>
               s.obj[u].slot < |r.obj[o].stack|
    ensures Shape(r)
    ensures ColorInv(s) ==> ColorInv(r)
  {
    if ColorInv(s) { ReplaceColors(s, r, o); }
    hide ColorInv;
  }

  lemma ReplaceColors(s: GState, r: GState, o: Id)
    requires ColorInv(s) && o in s.obj && o in r.obj && r == s.(obj := s.obj[o := r.obj[o]])
    requires !s.obj[o].OpenUpval? && !r.obj[o].OpenUpval? && s.obj[o].Str? == r.obj[o].Str?
    ensures ColorInv(r)
  {
    if s.phase in {SweepString, Sweep} {
      forall y | y in r.obj && y !in r.tmudata && Swept(r, y) ensures Swept(s, y) {}
    }
  }

  lemma WrittenThreadPoints(s: GState, th: Id, globals: Value, stack: seq<Value>, o: Obj, c: Id)
    requires CanWriteThread(s, th, globals, stack)
    requires o == Thread(globals, stack) || (o.OpenUpval? && o.thread == th)
    requires Points(WriteThread(s, th, globals, stack).obj, o, c)
    ensures Alive(s, c)
  {
    assert AliveValue(s, Ref(c));
  }

  lemma WriteThreadSound(s: GState, th: Id, globals: Value, stack: seq<Value>)
    requires Shape(s) && Sound(s) && CanWriteThread(s, th, globals, stack)
    ensures Sound(WriteThread(s, th, globals, stack))
  {
    var r := WriteThread(s, th, globals, stack);
    forall c | Points(r.obj, r.obj[th], c) ensures Alive(s, c) {
      WrittenThreadPoints(s, th, globals, stack, r.obj[th], c);
    }
    forall u, c | Alive(s, u) && s.obj[u].OpenUpval? && u != th && Points(r.obj, s.obj[u], c) ensures Alive(s, c) {
      if s.obj[u].thread != th { assert Points(s.obj, s.obj[u], c); }
      else { WrittenThreadPoints(s, th, globals, stack, s.obj[u], c); }
    }
    hide Points;
    assert forall x :: Alive(r, x) <==> Alive(s, x);
    assert forall x :: IsRoot(r, x) <==> IsRoot(s, x);
    ReplaceSound(s, r, th);
  }

  lemma ThreadMarkPhase(s: GState, r: GState, th: Id)
    requires MarkPhase(s) && Shape(s) && th in s.obj && s.obj[th].Thread?
    requires th in r.obj && r == s.(obj := s.obj[th := r.obj[th]]) && r.obj[th].Thread?
    ensures MarkPhase(r)
  {
    ThreadNotBlack(s, th);
    ReplaceMarkPhase(s, r, th);
  }

  lemma WriteThreadKeepsInv(s: GState, th: Id, globals: Value, stack: seq<Value>)
    requires Inv(s) && CanWriteThread(s, th, globals, stack)
    ensures Inv(WriteThread(s, th, globals, stack))
  {
    hide Shape, Sound, ColorInv, MarkPhase;
    var r := WriteThread(s, th, globals, stack);
    ReplaceShape(s, r, th);
    WriteThreadSound(s, th, globals, stack);
    if s.phase == Propagate { ThreadMarkPhase(s, r, th); }
  }

  ghost predicate CanWriteUpval(s: GState, u: Id, v: Value)
  {
    Alive(s, u) && s.obj[u].OpenUpval? && AliveValue(s, v)
  }

  lemma WriteUpvalSound(s: GState, u: Id, v: Value)
    requires Shape(s) && Sound(s) && CanWriteUpval(s, u, v)
    ensures Sound(WriteUpval(s, u, v))
  {
    var r, th := WriteUpval(s, u, v), s.obj[u].thread;
    forall c | Alive(s, th) && Points(r.obj, r.obj[th], c) ensures Alive(s, c) {
      if v != Ref(c) { assert Points(s.obj, s.obj[th], c); }
    }
    forall w, c | Alive(s, w) && s.obj[w].OpenUpval? && w != th && Points(r.obj, s.obj[w], c) ensures Alive(s, c) {
      if v != Ref(c) { assert Points(s.obj, s.obj[w], c); }
    }
    ReplaceSound(s, r, th);
  }

  lemma WriteUpvalKeepsInv(s: GState, u: Id, v: Value)
    requires Inv(s) && CanWriteUpval(s, u, v)
    ensures Inv(WriteUpval(s, u, v))
  {
    var r, th := WriteUpval(s, u, v), s.obj[u].thread;
    ReplaceShape(s, r, th);
    WriteUpvalSound(s, u, v);
    if s.phase == Propagate { ThreadMarkPhase(s, r, th); }
    hide Sound, ColorInv, MarkPhase;
  }

  // ----- writes to other objects, with the forward barrier -----

  lemma KindPoints(h: Graph, h': Graph, o: Obj, c: Id)
    requires !o.OpenUpval?
    ensures Points(h, o, c) == Points(h', o, c)
  {
  }

  /** Replacing an object other than a thread leaves the values of open upvalues alone. */
  lemma OtherPoints(s: GState, o: Id, o': Obj, u: Id, c: Id)
    requires o in s.obj && u in s.obj && u != o && !s.obj[o].Thread? && !o'.Thread?
    ensures Points(s.obj[o := o'], s.obj[u], c) == Points(s.obj, s.obj[u], c)
  {
  }

  lemma StoredSound(s: GState, o: Id, o': Obj)
    requires Sound(s) && o in s.obj && !s.obj[o].Thread? && !o'.Thread? && !o'.OpenUpval?
    requires Alive(s, o) ==> forall c :: Points(s.obj, o', c) ==> Alive(s, c)
    ensures Sound(s.(obj := s.obj[o := o']))
  {
    var r := s.(obj := s.obj[o := o']);
    forall c ensures Points(r.obj, o', c) == Points(s.obj, o', c) { KindPoints(s.obj, r.obj, o', c); }
    forall u, c | Alive(s, u) && s.obj[u].OpenUpval? && u != o && Points(r.obj, s.obj[u], c) ensures Alive(s, c) {
      OtherPoints(s, o, o', u, c);
      assert Points(s.obj, s.obj[u], c);
    }
    hide Points;
    assert forall x :: Alive(r, x) <==> Alive(s, x);
    assert forall x :: IsRoot(r, x) <==> IsRoot(s, x);
    ReplaceSound(s, r, o);
  }

  lemma BarrierAlive(s: GState, o: Id, v: Id, x: Id)
    requires s.color.Keys == s.obj.Keys && o in s.obj && s.color[o] == Black
    requires s.phase == Propagate ==> forall y :: y in s.obj ==> s.color[y] != White(!s.cur)
    ensures Alive(BarrierForward(s, o, v), x) <==> Alive(s, x)
  {
    if s.phase == Propagate { MarkObjectExtends(s.obj, MarksOf(s), v); }
  }

  lemma BarrierSound(s: GState, o: Id, v: Id)
    requires Sound(s) && s.color.Keys == s.obj.Keys && o in s.obj && s.color[o] == Black
    requires s.phase == Propagate ==> forall y :: y in s.obj ==> s.color[y] != White(!s.cur)
    ensures Sound(BarrierForward(s, o, v))
  {
    var r := BarrierForward(s, o, v);
    forall x ensures Alive(r, x) <==> Alive(s, x) { BarrierAlive(s, o, v, x); }
    SoundCarries(s, r);
  }

  lemma BarrierColors(s: GState, o: Id, v: Id)
    requires Shape(s) && ColorInv(s) && o in s.obj && s.color[o] == Black && !s.obj[o].OpenUpval?
    ensures ColorInv(BarrierForward(s, o, v)) && Shape(BarrierForward(s, o, v))
  {
    hide MarkObject, Shape;
    BarrierShape(s, o, v);
    var r := BarrierForward(s, o, v);
    if s.phase == Propagate { MarkObjectExtends(s.obj, MarksOf(s), v); }
    else if s.phase in {SweepString, Sweep} {
      forall y | y in r.obj && y !in r.tmudata && Swept(r, y) ensures Swept(s, y) {}
    }
  }

  lemma BarrierShape(s: GState, o: Id, v: Id)
    requires Shape(s) && s.color.Keys == s.obj.Keys && o in s.obj
    ensures Shape(BarrierForward(s, o, v))
  {
    hide MarkObject;
    MarkKeys(s.obj, MarksOf(s), v);
  }

  lemma MarkKeys(h: Graph, m: Marks, o: Id)
    requires m.color.Keys <= h.Keys
    ensures MarkObject(h, m, o).color.Keys == m.color.Keys
  {
    hide MarkObject;
    MarkObjectExtends(h, m, o);
  }

  /** In the mark phase, the forward barrier finishes the black object that got a new reference. */
  lemma BarrierTricolor(s: GState, o: Id, v: Id)
    requires MarkInv(s.obj, MarksOf(s), s.grayagain, s.weak, Elems(s.tmudata) + {o}) && s.phase == Propagate
    requires o in s.obj && s.color[o] == Black
    requires BlackOk(MarkObject(s.obj, MarksOf(s), v), s.obj[o])
    ensures Tricolor(BarrierForward(s, o, v))
  {
    var r := BarrierForward(s, o, v);
    var m := MarksOf(s);
    assert MarkValues(s.obj, m, [Ref(v)]) == MarkObject(s.obj, m, v);
    MarkValuesKeeps(s.obj, m, [Ref(v)], s.grayagain, s.weak, Elems(s.tmudata) + {o});
    hide MarkInv;
    Retire(s.obj, MarkObject(s.obj, m, v), s.grayagain, s.weak, Elems(s.tmudata), o);
  }

  lemma StoredTricolor(s: GState, o: Id, o': Obj)
    requires Tricolor(s) && o in s.obj && SameKind(s.obj[o], o')
    ensures MarkInv(s.obj[o := o'], MarksOf(s), s.grayagain, s.weak, Elems(s.tmudata) + {o})
    ensures s.color[o] != Black ==> MarkInv(s.obj[o := o'], MarksOf(s), s.grayagain, s.weak, Elems(s.tmudata))
  {
  }

  lemma StoredBlackOk(s: GState, o: Id, o': Obj, v: Value, m: Marks)
    requires o in s.obj && SameKind(s.obj[o], o') && BlackOk(MarksOf(s), s.obj[o])
    requires forall c :: Points(s.obj, o', c) ==> Points(s.obj, s.obj[o], c) || v == Ref(c)
    requires Marked(m, v) && forall w :: Marked(MarksOf(s), w) ==> Marked(m, w)
    ensures BlackOk(m, o')
  {
    forall w: Value | w.Ref? && Points(s.obj, o', w.id) ensures Marked(m, w) {
      if v != w { assert Marked(MarksOf(s), w); }
    }
  }

  lemma BarrierHeld(s: GState, o: Id, v: Id)
    requires HeldKeys(s) && s.phase == Propagate && Marked(MarksOf(s), Ref(s.mainthread)) &&
             Marked(MarksOf(s), Ref(s.registry))
    ensures var r := BarrierForward(s, o, v);
            HeldKeys(r) && Marked(MarksOf(r), Ref(r.mainthread)) && Marked(MarksOf(r), Ref(r.registry))
  {
    var r := BarrierForward(s, o, v);
    MarkObjectExtends(s.obj, MarksOf(s), v);
    forall x | x in r.obj && r.color[x] == Black && s.color[x] != Black ensures !r.obj[x].Table? {
      assert JustMarked(r.obj, MarksOf(r), x);
    }
  }

  lemma StoredHeld(s: GState, o: Id, o': Obj)
    requires HeldKeys(s) && o in s.obj && SameKind(s.obj[o], o')
    ensures HeldKeys(s.(obj := s.obj[o := o']))
  {
  }

  lemma MarkMonotone(h: Graph, m: Marks, v: Id)
    requires m.color.Keys <= h.Keys
    ensures var r := MarkObject(h, m, v);
            Marked(r, Ref(v)) && forall w :: Marked(m, w) ==> Marked(r, w)
  {
    MarkObjectExtends(h, m, v);
  }

  /** The tricolour part of `WriteObject` in the mark phase. */
  lemma WriteObjectTricolor(s: GState, o: Id, o': Obj, v: Value)
    requires Tricolor(s) && s.phase == Propagate && CanWriteObject(s, o, o', v)
    ensures Tricolor(WriteObject(s, o, o', v))
  {
    hide MarkInv;
    var q := s.(obj := s.obj[o := o']);
    TricolorKeys(s);
    StoredTricolor(s, o, o');
    if NeedsBarrier(s, o, v) {
      MarkMonotone(q.obj, MarksOf(q), v.id);
      if o in s.tmudata {
        assert Elems(s.tmudata) + {o} == Elems(s.tmudata);
        WaitingTricolor(q, o, v.id);
      } else {
        TricolorBlack(s, o);
        StoredBlackOk(s, o, o', v, MarkObject(q.obj, MarksOf(q), v.id));
        BarrierTricolor(q, o, v.id);
      }
    } else if s.color[o] == Black {
      if o in s.tmudata {
        assert Elems(s.tmudata) + {o} == Elems(s.tmudata);
      } else {
        TricolorBlack(s, o);
        StoredBlackOk(s, o, o', v, MarksOf(s));
        Retire(q.obj, MarksOf(q), s.grayagain, s.weak, Elems(s.tmudata), o);
      }
    }
  }

  lemma WaitingTricolor(s: GState, o: Id, v: Id)
    requires Tricolor(s) && s.phase == Propagate
    ensures Tricolor(BarrierForward(s, o, v))
  {
    var m := MarksOf(s);
    assert MarkValues(s.obj, m, [Ref(v)]) == MarkObject(s.obj, m, v);
    MarkValuesKeeps(s.obj, m, [Ref(v)], s.grayagain, s.weak, Elems(s.tmudata));
  }

  lemma TricolorKeys(s: GState)
    requires Tricolor(s)
    ensures s.color.Keys == s.obj.Keys
  {
  }

  lemma TricolorBlack(s: GState, o: Id)
    requires Tricolor(s) && o in s.obj && o in s.color && s.color[o] == Black && o !in s.tmudata
    ensures BlackOk(MarksOf(s), s.obj[o])
  {
  }

  lemma ShapeKeys(s: GState)
    requires Shape(s)
    ensures s.color.Keys == s.obj.Keys
  {
  }

  lemma WriteObjectKeepsInv(s: GState, o: Id, o': Obj, v: Value)
    requires Inv(s) && CanWriteObject(s, o, o', v)
    ensures Inv(WriteObject(s, o, o', v))
  {
    hide Tricolor, Shape, Sound, HeldKeys;
    var q, r := s.(obj := s.obj[o := o']), WriteObject(s, o, o', v);
    ShapeKeys(s);
    assert Sound(q) by {
      forall c | Points(s.obj, o', c) ensures Alive(s, c) { PointsAlive(s, o, c); }
      StoredSound(s, o, o');
    }
    ReplaceShape(s, q, o);
    if NeedsBarrier(s, o, v) {
      BarrierSound(q, o, v.id);
      BarrierColors(q, o, v.id);
    }
    if s.phase == Propagate {
      WriteObjectTricolor(s, o, o', v);
      StoredHeld(s, o, o');
      if NeedsBarrier(s, o, v) { BarrierHeld(q, o, v.id); }
    }
  }

  lemma PointsAlive(s: GState, o: Id, c: Id)
    requires Sound(s) && Alive(s, o)
    ensures Points(s.obj, s.obj[o], c) ==> Alive(s, c)
  {
  }

  // ----- writes to tables, with the backward barrier -----

  lemma TableBlackOk(s: GState, t: Id, t': Obj, v: Value)
    requires t in s.obj && s.obj[t].Table? && t'.Table? && BlackOk(MarksOf(s), s.obj[t]) && Marked(MarksOf(s), v)
    requires forall c :: Points(s.obj, t', c) || HoldsKey(t', c) ==>
               Points(s.obj, s.obj[t], c) || HoldsKey(s.obj[t], c) || v == Ref(c)
    ensures BlackOk(MarksOf(s), t')
  {
    var m := MarksOf(s);
    forall c | Points(s.obj, t', c) || HoldsKey(t', c) ensures Marked(m, Ref(c)) {
      TableRefMarked(m, s.obj, s.obj[t], c);
    }
    forall n | n in t'.nodes ensures NodeMarked(m, n) {
      if n.val.Ref? { assert NodePoints(n, n.val.id); }
      if n.key.Live? && n.key.v.Ref? { assert HoldsKey(t', n.key.v.id); }
    }
  }

  lemma TableRefMarked(m: Marks, h: Graph, t: Obj, c: Id)
    requires t.Table? && BlackOk(m, t)
    ensures Points(h, t, c) || HoldsKey(t, c) ==> Marked(m, Ref(c))
  {
    if exists n :: n in t.nodes && NodePoints(n, c) {
      var n :| n in t.nodes && NodePoints(n, c);
      assert NodeMarked(m, n);
    }
    if HoldsKey(t, c) {
      var n :| n in t.nodes && n.key == Live(Ref(c));
      assert NodeMarked(m, n);
    }
  }

  lemma TableStoredTricolor(s: GState, t: Id, t': Obj)
    requires Tricolor(s) && t in s.obj && s.obj[t].Table? && t'.Table?
    ensures MarkInv(s.obj[t := t'], MarksOf(s), s.grayagain, s.weak, Elems(s.tmudata) + {t})
    ensures s.color[t] != Black ==> MarkInv(s.obj[t := t'], MarksOf(s), s.grayagain, s.weak, Elems(s.tmudata))
  {
  }

  lemma RetireBack(h: Graph, m: Marks, grayagain: seq<Id>, weak: seq<Id>, exempt: set<Id>, t: Id)
    requires MarkInv(h, m, grayagain, weak, exempt + {t}) && t in h && h[t].Table? && m.color[t] == Black
    ensures MarkInv(h, m.(color := m.color[t := Gray]), [t] + grayagain, weak, exempt)
  {
    var r := m.(color := m.color[t := Gray]);
    forall x | x in h && x !in exempt && r.color[x] == Black
      ensures BlackOk(r, h[x])
    {
      assert BlackOk(m, h[x]);
    }
  }

  lemma WriteTableTricolor(s: GState, t: Id, t': Obj, v: Value)
    requires Tricolor(s) && TmuOk(s) && CanWriteTable(s, t, t', v)
    ensures Tricolor(WriteTable(s, t, t', v))
  {
    assert t !in s.tmudata;
    hide MarkInv, TmuOk;
    var q := s.(obj := s.obj[t := t']);
    TricolorKeys(s);
    TableStoredTricolor(s, t, t');
    if NeedsBarrier(s, t, v) {
      RetireBack(q.obj, MarksOf(q), s.grayagain, s.weak, Elems(s.tmudata), t);
    } else if s.color[t] == Black {
      TricolorBlack(s, t);
      TableBlackOk(s, t, t', v);
      Retire(q.obj, MarksOf(q), s.grayagain, s.weak, Elems(s.tmudata), t);
    }
  }

  lemma WriteTableHeld(s: GState, t: Id, t': Obj, v: Value)
    requires HeldKeys(s) && Sound(s) && CanWriteTable(s, t, t', v)
    ensures HeldKeys(WriteTable(s, t, t', v))
  {
    var r := WriteTable(s, t, t', v);
    forall x, c | x in r.obj && r.color[x] == Black && HoldsKey(r.obj[x], c) ensures c in r.obj {
      if x == t { PointsAlive(s, t, c); }
    }
  }

  lemma WriteTableSound(s: GState, t: Id, t': Obj, v: Value)
    requires Shape(s) && Sound(s) && CanWriteTable(s, t, t', v)
    ensures Sound(WriteTable(s, t, t', v))
  {
    var q, r := s.(obj := s.obj[t := t']), WriteTable(s, t, t', v);
    StoredSound(s, t, t');
    assert forall x :: Alive(r, x) <==> Alive(q, x);
    SoundCarries(q, r);
  }

  lemma BackColors(s: GState, r: GState, t: Id)
    requires Shape(s) && ColorInv(s) && t in s.obj && s.obj[t].Table? && s.color[t] == Black
    requires r == s.(color := s.color[t := Gray], grayagain := [t] + s.grayagain)
    ensures Shape(r) && ColorInv(r)
  {
    if s.phase in {SweepString, Sweep} {
      forall y | y in r.obj && y !in r.tmudata && Swept(r, y) ensures Swept(s, y) {}
    }
  }

  lemma WriteTableKeepsInv(s: GState, t: Id, t': Obj, v: Value)
    requires Inv(s) && CanWriteTable(s, t, t', v)
    ensures Inv(WriteTable(s, t, t', v))
  {
    hide Tricolor, Shape, Sound, HeldKeys, ColorInv, TmuOk;
    var q, r := s.(obj := s.obj[t := t']), WriteTable(s, t, t', v);
    ShapeKeys(s);
    WriteTableSound(s, t, t', v);
    ReplaceShape(s, q, t);
    if NeedsBarrier(s, t, v) { BackColors(q, r, t); }
    if s.phase == Propagate {
      ShapeTmu(s);
      WriteTableTricolor(s, t, t', v);
      WriteTableHeld(s, t, t', v);
    }
  }

  // ----- closing upvalues -----

  lemma CloseDeadSound(s: GState, u: Id)
    requires Shape(s) && Sound(s) && u in s.obj && s.obj[u].OpenUpval? && IsDead(s, u)
    ensures Sound(s.(obj := s.obj - {u}, color := s.color - {u}))
  {
    var r := s.(obj := s.obj - {u}, color := s.color - {u});
    forall x | IsRoot(r, x) ensures Alive(r, x) { assert IsRoot(s, x); assert Alive(s, x); }
    forall x, c | Alive(r, x) && Points(r.obj, r.obj[x], c) ensures Alive(r, c) {
      assert Points(s.obj, s.obj[x], c) && Alive(s, x);
      assert Alive(s, c);
    }
  }

  lemma CloseDeadShape(s: GState, u: Id)
    requires Shape(s) && ColorInv(s) && u in s.obj && s.obj[u].OpenUpval? && IsDead(s, u)
    ensures var r := s.(obj := s.obj - {u}, color := s.color - {u}); Shape(r) && ColorInv(r)
  {
    var r := s.(obj := s.obj - {u}, color := s.color - {u});
    DeadInSweep(s, u);
    forall y | y in r.obj && y !in r.tmudata && Swept(r, y) ensures Swept(s, y) {}
  }

  lemma CloseDeadKeepsInv(s: GState, u: Id)
    requires Inv(s) && u in s.obj && s.obj[u].OpenUpval? && IsDead(s, u)
    ensures Inv(s.(obj := s.obj - {u}, color := s.color - {u}))
  {
    hide Sound, Shape, ColorInv, MarkPhase;
    DeadInSweep(s, u);
    CloseDeadSound(s, u);
    CloseDeadShape(s, u);
  }

  lemma DeadInSweep(s: GState, u: Id)
    requires Shape(s) && ColorInv(s) && u in s.obj && s.obj[u].OpenUpval? && IsDead(s, u)
    ensures s.phase == SweepString || s.phase == Sweep
  {
  }

  lemma ClosedPoints(s: GState, u: Id, x: Id, c: Id)
    requires u in s.obj && s.obj[u].OpenUpval? && x in s.obj
    ensures var h := s.obj[u := ClosedUpval(UpvalValue(s.obj, s.obj[u]))];
            Points(h, h[x], c) == Points(s.obj, s.obj[x], c)
  {
  }

  lemma ClosedSound(s: GState, u: Id, r: GState)
    requires Sound(s) && u in s.obj && s.obj[u].OpenUpval?
    requires r.obj == s.obj[u := ClosedUpval(UpvalValue(s.obj, s.obj[u]))]
    requires forall x :: Alive(r, x) <==> Alive(s, x)
    requires forall x :: IsRoot(r, x) <==> IsRoot(s, x)
    ensures Sound(r)
  {
    forall x, c | Alive(r, x) && Points(r.obj, r.obj[x], c) ensures Alive(r, c) {
      ClosedPoints(s, u, x, c);
      assert Alive(s, x) && Alive(s, c);
    }
  }

  /** The state after closing `u`, before the barrier of `luaC_linkupval`. */
  function Closed(s: GState, u: Id, ahead: bool): GState
    requires u in s.obj && s.obj[u].OpenUpval? && u in s.color
  {
    s.(obj := s.obj[u := ClosedUpval(UpvalValue(s.obj, s.obj[u]))],
       unswept := if ahead then s.unswept + {u} else s.unswept,
       color := if s.color[u] != Gray then s.color
                else s.color[u := if s.phase == Propagate then Black else White(s.cur)])
  }

  lemma ClosedShape(s: GState, u: Id, ahead: bool)
    requires Shape(s) && CanCloseUpval(s, u, ahead)
    ensures Shape(Closed(s, u, ahead))
  {
    assert u !in s.tmudata;
  }

  lemma ClosedColors(s: GState, u: Id, ahead: bool)
    requires Shape(s) && ColorInv(s) && CanCloseUpval(s, u, ahead) && !IsDead(s, u)
    ensures ColorInv(Closed(s, u, ahead))
  {
    var r := Closed(s, u, ahead);
    assert u !in s.tmudata && s.color[u] != White(!s.cur);
    if s.phase in {SweepString, Sweep} {
      assert s.color[u] != Black;
      forall y | y in r.obj && y !in r.tmudata && Swept(r, y) ensures r.color[y] == White(r.cur) {
        if y != u { assert Swept(s, y); }
      }
    }
  }

  lemma ClosedAliveSound(s: GState, u: Id, ahead: bool)
    requires Shape(s) && Sound(s) && CanCloseUpval(s, u, ahead) && !IsDead(s, u)
    ensures Sound(Closed(s, u, ahead))
  {
    var r := Closed(s, u, ahead);
    assert forall x :: Alive(r, x) <==> Alive(s, x);
    assert forall x :: IsRoot(r, x) <==> IsRoot(s, x);
    hide Points;
    ClosedSound(s, u, r);
  }

  lemma ClosedMarkInv(s: GState, u: Id, ahead: bool)
    requires Tricolor(s) && TmuOk(s) && s.phase == Propagate && u in s.obj && s.obj[u].OpenUpval? && !ahead
    ensures var r := Closed(s, u, ahead);
            MarkInv(r.obj, MarksOf(r), s.grayagain, s.weak, Elems(s.tmudata) + {u}) &&
            (s.color[u] != Gray ==> Tricolor(r))
  {
    var r := Closed(s, u, ahead);
    assert !BlackOk(MarksOf(s), s.obj[u]) && u !in s.tmudata;
    forall x | x in r.obj && x !in Elems(s.tmudata) + {u} && r.color[x] == Black ensures BlackOk(MarksOf(r), r.obj[x]) {
      assert BlackOk(MarksOf(s), s.obj[x]);
    }
  }

  lemma CloseTricolor(s: GState, u: Id, ahead: bool)
    requires Tricolor(s) && TmuOk(s) && s.phase == Propagate && u in s.obj && s.obj[u].OpenUpval? && !ahead
    requires !IsDead(s, u) && u in s.color
    ensures Tricolor(CloseUpval(s, u, ahead))
  {
    hide MarkInv, TmuOk, IsDead;
    TricolorKeys(s);
    ClosedMarkInv(s, u, ahead);
    var b, v := Closed(s, u, ahead), UpvalValue(s.obj, s.obj[u]);
    if s.color[u] == Gray {
      if NeedsBarrier(b, u, v) {
        MarkMonotone(b.obj, MarksOf(b), v.id);
        BarrierTricolor(b, u, v.id);
      } else {
        Retire(b.obj, MarksOf(b), b.grayagain, b.weak, Elems(b.tmudata), u);
      }
    }
  }

  lemma ClosedHeld(s: GState, u: Id, ahead: bool)
    requires MarkPhase(s) && s.phase == Propagate && u in s.obj && s.obj[u].OpenUpval?
    ensures var r := Closed(s, u, ahead);
            HeldKeys(r) && Marked(MarksOf(r), Ref(r.mainthread)) && Marked(MarksOf(r), Ref(r.registry))
  {
  }

  lemma CloseUpvalKeepsInv(s: GState, u: Id, ahead: bool)
    requires Inv(s) && CanCloseUpval(s, u, ahead)
    ensures u in s.color && Inv(CloseUpval(s, u, ahead))
  {
    hide Tricolor, Shape, Sound, HeldKeys, TmuOk;
    ShapeKeys(s);
    if IsDead(s, u) {
      CloseDeadKeepsInv(s, u);
    } else {
      var b, v := Closed(s, u, ahead), UpvalValue(s.obj, s.obj[u]);
      ClosedShape(s, u, ahead);
      ClosedColors(s, u, ahead);
      ClosedAliveSound(s, u, ahead);
      if s.phase == Propagate {
        ShapeTmu(s);
        CloseTricolor(s, u, ahead);
        ClosedHeld(s, u, ahead);
        if s.color[u] == Gray && NeedsBarrier(b, u, v) {
          BarrierSound(b, u, v.id);
          BarrierColors(b, u, v.id);
          BarrierHeld(b, u, v.id);
        }
      }
    }
  }

  /** A barrier is never needed twice: after the write the object is not black, or the value is not white. */
  lemma BarrierSettles(s: GState, o: Id, o': Obj, v: Value)
    requires s.color.Keys == s.obj.Keys
    ensures CanWriteObject(s, o, o', v) ==> !NeedsBarrier(WriteObject(s, o, o', v), o, v)
    ensures CanWriteTable(s, o, o', v) ==> !NeedsBarrier(WriteTable(s, o, o', v), o, v)
  {
    hide MarkObject, Points;
    var r := s.(obj := s.obj[o := o']);
    if CanWriteObject(s, o, o', v) && NeedsBarrier(s, o, v) { MarkObjectExtends(r.obj, MarksOf(r), v.id); }
  }
}
