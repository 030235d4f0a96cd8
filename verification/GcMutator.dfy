/** What a running program does to the heap between collector steps, with its write barriers. */
module GcMutator {
  import opened LuaHeap
  import opened GcMark
  import opened GcTraverse

  predicate AliveValue(s: GState, v: Value)
  {
    v.Ref? ==> Alive(s, v.id)
  }

  /** Forget the mark bits of a new object's address. */
  function FreshBits(s: GState, id: Id): GState
  {
    s.(fixed := s.fixed - {id}, finalized := s.finalized - {id},
       weakKey := s.weakKey - {id}, weakVal := s.weakVal - {id})
  }

  // ----- allocation: luaC_link, luaS_newlstr, luaF_findupval -----

  /** A new object is white; during a sweep it is linked before or after the sweep pointer. */
  function NewObject(s: GState, id: Id, o: Obj, ahead: bool): GState
  {
    FreshBits(s, id).(obj := s.obj[id := o], color := s.color[id := White(s.cur)],
                      unswept := if ahead then s.unswept + {id} else s.unswept)
  }

  ghost predicate CanNew(s: GState, id: Id, o: Obj, ahead: bool)
  {
    id !in s.obj &&
    (forall c :: Points(s.obj, o, c) ==> Alive(s, c)) &&
    (o.OpenUpval? ==> Alive(s, o.thread) && s.obj[o.thread].Thread? && o.slot < |s.obj[o.thread].stack|) &&
    (ahead ==> (s.phase == SweepString || (s.phase == Sweep && !o.Str?)) && !o.OpenUpval?)
  }

  /** A string found by `luaS_newlstr` or an upvalue found by `luaF_findupval` may be dead: it gets the
      current white back. */
  function Resurrect(s: GState, x: Id): GState
  {
    s.(color := s.color[x := White(s.cur)])
  }

  ghost predicate CanResurrect(s: GState, x: Id)
  {
    x in s.obj && IsDead(s, x) && (s.obj[x].Str? || (s.obj[x].OpenUpval? && Alive(s, s.obj[x].thread)))
  }

  // ----- writes -----

  /** The stack of a thread changes without a barrier. */
  function WriteThread(s: GState, th: Id, globals: Value, stack: seq<Value>): GState
  {
    s.(obj := s.obj[th := Thread(globals, stack)])
  }

  ghost predicate CanWriteThread(s: GState, th: Id, globals: Value, stack: seq<Value>)
  {
    Alive(s, th) && s.obj[th].Thread? && AliveValue(s, globals) && (forall v :: v in stack ==> AliveValue(s, v)) &&
    (forall u :: u in s.obj && s.obj[u].OpenUpval? && s.obj[u].thread == th ==> s.obj[u].slot < |stack|)
  }

  /** `luaC_barrierf`: a black object got a white reference. */
  function BarrierForward(s: GState, o: Id, v: Id): GState
  {
    if s.phase == Propagate then WithMarks(s, MarkObject(s.obj, MarksOf(s), v))
    else s.(color := s.color[o := White(s.cur)])
  }

  predicate NeedsBarrier(s: GState, o: Id, v: Value)
  {
    o in s.color && s.color[o] == Black && v.Ref? && v.id in s.color && s.color[v.id].White?
  }

  /** Store `v` in a userdata, closure, prototype or closed upvalue: `luaC_barrier`, `luaC_objbarrier`. */
  function WriteObject(s: GState, o: Id, o': Obj, v: Value): GState
  {
    var r := s.(obj := s.obj[o := o']);
    if NeedsBarrier(s, o, v) then BarrierForward(r, o, v.id) else r
  }

  predicate SameKind(o: Obj, o': Obj)
  {
    (o.Udata? && o'.Udata?) || (o.ClosedUpval? && o'.ClosedUpval?) ||
    (o.Closure? && o'.Closure?) || (o.Proto? && o'.Proto?)
  }

  ghost predicate CanWriteObject(s: GState, o: Id, o': Obj, v: Value)
  {
    Alive(s, o) && SameKind(s.obj[o], o') && AliveValue(s, v) &&
    forall c :: Points(s.obj, o', c) ==> Points(s.obj, s.obj[o], c) || v == Ref(c)
  }

  /** Store `v` in a table: `luaC_barriert` and `luaC_barrierback`. */
  function WriteTable(s: GState, t: Id, t': Obj, v: Value): GState
  {
    var r := s.(obj := s.obj[t := t']);
    if NeedsBarrier(s, t, v) then
      r.(color := r.color[t := Gray], grayagain := [t] + r.grayagain)
    else r
  }

  /** The new contents hold what the table held before and `v`; the program had each reference in hand. */
  ghost predicate CanWriteTable(s: GState, t: Id, t': Obj, v: Value)
  {
    Alive(s, t) && s.obj[t].Table? && t'.Table? && AliveValue(s, v) &&
    (forall c :: Points(s.obj, t', c) ==> Alive(s, c)) &&
    (forall c :: Points(s.obj, t', c) || HoldsKey(t', c) ==>
       Points(s.obj, s.obj[t], c) || HoldsKey(s.obj[t], c) || v == Ref(c))
  }

  /** Assign through an open upvalue: the value lives in a stack slot of its thread, perhaps a dead one. */
  function WriteUpval(s: GState, u: Id, v: Value): GState
    requires u in s.obj && s.obj[u].OpenUpval? && s.obj[u].thread in s.obj && s.obj[s.obj[u].thread].Thread?
    requires s.obj[u].slot < |s.obj[s.obj[u].thread].stack|
  {
    var th, slot := s.obj[u].thread, s.obj[u].slot;
    s.(obj := s.obj[th := s.obj[th].(stack := s.obj[th].stack[slot := v])])
  }

  /** `luaF_close` on one upvalue: a dead one is freed, a live one is closed and linked (`luaC_linkupval`). */
  function CloseUpval(s: GState, u: Id, ahead: bool): GState
    requires u in s.obj && s.obj[u].OpenUpval? && u in s.color
  {
    if IsDead(s, u) then s.(obj := s.obj - {u}, color := s.color - {u})
    else
      var v := UpvalValue(s.obj, s.obj[u]);
      var r := s.(obj := s.obj[u := ClosedUpval(v)], unswept := if ahead then s.unswept + {u} else s.unswept);
      if s.color[u] != Gray then r
      else if s.phase == Propagate then
        var b := r.(color := r.color[u := Black]);
        if NeedsBarrier(b, u, v) then BarrierForward(b, u, v.id) else b
      else r.(color := r.color[u := White(s.cur)])
  }

  ghost predicate CanCloseUpval(s: GState, u: Id, ahead: bool)
  {
    u in s.obj && s.obj[u].OpenUpval? && (ahead ==> s.phase in {SweepString, Sweep})
  }
}
