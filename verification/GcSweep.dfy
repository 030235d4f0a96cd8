/** The sweep, the end of a cycle, and the forced restart of `luaC_fullgc`. */
module GcSweep {
  import opened LuaHeap
  import opened GcTraverse
  import opened GcPhases
  import opened GcInvariant

  predicate OwnUpval(s: GState, th: Id, u: Id)
  {
    u in s.obj && s.obj[u].OpenUpval? && s.obj[u].thread == th
  }

  predicate Erased(s: GState, x: Id)
  {
    IsDead(s, x) && x !in s.fixed
  }

  /** `sweeplist` on one object.  A dead object is freed, any other is turned white for the next cycle.
      The open upvalues of a thread are swept with it; those that outlive it are closed and linked back
      into the list of all objects, ahead of or behind the sweep pointer. */
  function SweepOne(s: GState, x: Id, requeue: bool): GState
    requires x in s.obj && s.color.Keys == s.obj.Keys
  {
    var gone := Erased(s, x);
    var keep := set y | y in s.obj && !(y == x && gone) && !(OwnUpval(s, x, y) && Erased(s, y));
    s.(obj := map y | y in keep ::
                if gone && OwnUpval(s, x, y) then ClosedUpval(UpvalValue(s.obj, s.obj[y])) else s.obj[y],
       color := map y | y in keep :: if y == x || OwnUpval(s, x, y) then White(s.cur) else s.color[y],
       unswept := (s.unswept - {x}) + if gone && requeue then set y | y in keep && OwnUpval(s, x, y) else {})
  }

  ghost predicate SweepReady(s: GState, x: Id)
  {
    x in s.unswept && (s.phase == Sweep || (s.phase == SweepString && x in s.obj && s.obj[x].Str?))
  }

  lemma SweepFreesDead(s: GState, x: Id, requeue: bool, y: Id)
    requires Shape(s) && x in s.unswept && Alive(s, y)
    ensures y in SweepOne(s, x, requeue).obj
  {
  }

  lemma SweepRoots(s: GState, x: Id, requeue: bool)
    requires Shape(s) && Sound(s) && SweepReady(s, x)
    ensures var r := SweepOne(s, x, requeue);
            TmuOk(r) && r.mainthread in r.obj && r.obj[r.mainthread].Thread? &&
            r.running in r.obj && r.obj[r.running].Thread?
  {
    var r := SweepOne(s, x, requeue);
    assert IsRoot(s, s.mainthread) && IsRoot(s, s.running);
    assert Alive(s, s.mainthread) && Alive(s, s.running);
    forall u | u in s.tmudata ensures u in r.obj && r.obj[u].Udata? {
      assert IsRoot(s, u);
      assert Alive(s, u);
    }
  }

  lemma SweepUpvals(s: GState, x: Id, requeue: bool, u: Id)
    requires Shape(s) && x in s.unswept
    requires var r := SweepOne(s, x, requeue); u in r.obj && r.obj[u].OpenUpval?
    ensures var r := SweepOne(s, x, requeue); var th := r.obj[u].thread;
            th in r.obj && r.obj[th].Thread? && r.obj[u].slot < |r.obj[th].stack|
  {
    assert s.obj[u].OpenUpval? && s.obj[u] == SweepOne(s, x, requeue).obj[u];
  }

  lemma SweepShape(s: GState, x: Id, requeue: bool)
    requires Shape(s) && Sound(s) && SweepReady(s, x)
    ensures Shape(SweepOne(s, x, requeue))
  {
    SweepRoots(s, x, requeue);
    hide Sound, TmuOk;
    var r := SweepOne(s, x, requeue);
    forall u | u in r.obj && r.obj[u].OpenUpval?
      ensures r.obj[u].thread in r.obj && r.obj[r.obj[u].thread].Thread?
      ensures r.obj[u].slot < |r.obj[r.obj[u].thread].stack|
    {
      SweepUpvals(s, x, requeue, u);
    }
  }

  lemma SweptPoints(s: GState, x: Id, requeue: bool, y: Id, c: Id)
    requires Shape(s) && x in s.unswept && y in SweepOne(s, x, requeue).obj
    requires Points(SweepOne(s, x, requeue).obj, SweepOne(s, x, requeue).obj[y], c)
    ensures y in s.obj && Points(s.obj, s.obj[y], c)
  {
  }

  lemma SweptAlive(s: GState, x: Id, requeue: bool, y: Id)
    requires Shape(s) && Sound(s) && x in s.unswept
    ensures Alive(s, y) ==> Alive(SweepOne(s, x, requeue), y)
    ensures Alive(SweepOne(s, x, requeue), y) ==> Alive(s, y) || (y in s.obj && s.obj[y].Str? && y in s.fixed)
  {
    assert IsRoot(s, s.mainthread) && Alive(s, s.mainthread);
  }

  lemma SweepSound(s: GState, x: Id, requeue: bool)
    requires Shape(s) && Sound(s) && SweepReady(s, x)
    ensures Sound(SweepOne(s, x, requeue))
  {
    var r := SweepOne(s, x, requeue);
    forall y | IsRoot(r, y) ensures Alive(r, y) {
      assert IsRoot(s, y) && Alive(s, y);
      SweptAlive(s, x, requeue, y);
    }
    forall y, c | Alive(r, y) && Points(r.obj, r.obj[y], c) ensures Alive(r, c) {
      SweptPoints(s, x, requeue, y, c);
      SweptAlive(s, x, requeue, y);
      assert Alive(s, y) && Alive(s, c);
      SweptAlive(s, x, requeue, c);
    }
  }

  lemma SweepColorInv(s: GState, x: Id, requeue: bool)
    requires Shape(s) && ColorInv(s) && SweepReady(s, x)
    ensures ColorInv(SweepOne(s, x, requeue))
  {
    var r := SweepOne(s, x, requeue);
    forall y | y in r.obj && y !in r.tmudata && Swept(r, y) ensures r.color[y] == White(r.cur) {
      if y != x && !OwnUpval(s, x, y) {
        assert Swept(s, y);
      }
    }
  }

  lemma SweepKeepsInv(s: GState, x: Id, requeue: bool)
    requires Inv(s) && SweepReady(s, x)
    ensures x in s.obj && Inv(SweepOne(s, x, requeue))
  {
    SweepShape(s, x, requeue);
    SweepSound(s, x, requeue);
    SweepColorInv(s, x, requeue);
    hide Shape, Sound, ColorInv;
  }

  // ----- the end of the sweep, finalizers, and a forced restart -----

  /** `GCTM` takes the first waiting userdata back into the ordinary list before it calls the finalizer. */
  function TakeFinalizable(s: GState): GState
    requires s.tmudata != []
  {
    s.(tmudata := s.tmudata[1..], color := s.color[s.tmudata[0] := White(s.cur)])
  }

  /** `luaC_fullgc` abandons a mark phase and sweeps everything back to white. */
  function Restart(s: GState): GState
  {
    s.(gray := [], grayagain := [], weak := [], phase := SweepString,
       unswept := set x | x in s.obj && !s.obj[x].OpenUpval? && x !in s.tmudata)
  }

  lemma EndSweepStringKeepsInv(s: GState)
    requires Inv(s) && s.phase == SweepString && forall x :: x in s.unswept ==> x in s.obj && !s.obj[x].Str?
    ensures Inv(s.(phase := Sweep))
  {
    SoundCarries(s, s.(phase := Sweep));
  }

  lemma EndSweepKeepsInv(s: GState)
    requires Inv(s) && s.phase == Sweep && s.unswept == {}
    ensures Inv(s.(phase := Finalize))
  {
    SoundCarries(s, s.(phase := Finalize));
  }

  lemma TakeFinalizableKeepsInv(s: GState)
    requires Inv(s) && s.phase == Finalize && s.tmudata != []
    ensures Inv(TakeFinalizable(s))
  {
    TakenSound(s);
    hide Sound;
    var r, u := TakeFinalizable(s), s.tmudata[0];
    assert forall x :: x in s.tmudata ==> x == u || x in r.tmudata;
    assert forall x :: x in r.tmudata ==> x in s.tmudata;
  }

  lemma TakenSound(s: GState)
    requires Sound(s) && s.tmudata != [] && s.color.Keys == s.obj.Keys
    ensures Sound(TakeFinalizable(s))
  {
    var r, u := TakeFinalizable(s), s.tmudata[0];
    assert IsRoot(s, u);
    assert forall x :: Alive(r, x) <==> Alive(s, x);
    forall x | IsRoot(r, x) ensures Alive(r, x) { assert IsRoot(s, x); }
    forall x, c | Alive(r, x) && Points(r.obj, r.obj[x], c) ensures Alive(r, c) { assert Alive(s, x); }
  }

  lemma EndCycleKeepsInv(s: GState)
    requires Inv(s) && s.phase == Finalize
    ensures Inv(s.(phase := Pause))
  {
    SoundCarries(s, s.(phase := Pause));
  }

  lemma RestartKeepsInv(s: GState)
    requires Inv(s) && s.phase in {Pause, Propagate}
    ensures Inv(Restart(s))
  {
    var r := Restart(s);
    SoundCarries(s, r);
    forall x | x in r.obj && x !in r.tmudata ensures !Swept(r, x) {
      if r.obj[x].OpenUpval? { assert r.obj[x].thread in r.unswept; }
    }
    forall x | x in r.obj && r.obj[x].OpenUpval? ensures r.color[x] != Black {
      if s.phase == Propagate { assert !BlackOk(MarksOf(s), s.obj[x]); }
    }
  }
}
